/** The string operations the tracker applies to names, categories and
    search text, reduced to their ordinal (code-point) and ASCII meaning:
    ToLower / case-insensitive comparison, substring search, white-space
    tests, ordinal ordering, fixed-width decimal digits and left padding. */
module Text {
  import opened Seqs
  import opened Sorting

  // ---------------------------------------------------------------- case

  function LowerChar(c: char): char
  {
    if 'A' <= c <= 'Z' then (c as int + 32) as char else c
  }

  function ToLower(s: string): (r: string)
    ensures |r| == |s|
  {
    if s == [] then [] else [LowerChar(s[0])] + ToLower(s[1..])
  }

  /** string.Equals(a, b, StringComparison.OrdinalIgnoreCase), for ASCII letters. */
  predicate EqualsIgnoreCase(a: string, b: string)
  {
    ToLower(a) == ToLower(b)
  }

  lemma {:induction false} ToLowerIdempotent(s: string)
    ensures ToLower(ToLower(s)) == ToLower(s)
  {
    if s != [] {
      ToLowerIdempotent(s[1..]);
      assert ToLower(s)[1..] == ToLower(s[1..]);
    }
  }

  /** Equal strings are equal ignoring case; strings equal ignoring case have the same length. */
  lemma EqualsIgnoreCaseFacts(a: string, b: string)
    ensures a == b ==> EqualsIgnoreCase(a, b)
    ensures EqualsIgnoreCase(a, b) ==> |a| == |b| && EqualsIgnoreCase(b, a)
  {
  }

  // ---------------------------------------------------------- substrings

  /** t occurs in s as a contiguous run (string.Contains, IndexOf(..) >= 0). */
  predicate Contains(s: string, t: string)
  {
    exists i :: 0 <= i <= |s| - |t| && OccursAt(s, t, i)
  }

  predicate OccursAt(s: string, t: string, i: int)
  {
    0 <= i <= |s| - |t| && s[i..i + |t|] == t
  }

  /** s.ToLower().Contains(t.ToLower()). */
  predicate ContainsIgnoreCase(s: string, t: string)
  {
    Contains(ToLower(s), ToLower(t))
  }

  lemma ContainsFacts(s: string, t: string)
    ensures Contains(s, [])
    ensures Contains(s, s)
    ensures Contains(s, t) ==> |t| <= |s|
  {
    assert OccursAt(s, [], 0);
    assert OccursAt(s, s, 0);
  }

  // ---------------------------------------------------------- white space

  predicate IsWhiteSpace(c: char)
  {
    c == ' ' || c == '\t' || c == '\n' || c == '\r' || c == '\U{000B}' || c == '\U{000C}'
  }

  /** string.IsNullOrWhiteSpace for a non-null string. */
  predicate IsNullOrWhiteSpace(s: string)
  {
    forall i :: 0 <= i < |s| ==> IsWhiteSpace(s[i])
  }

  /** Copies s without its space characters (the Replace(" ", "") applied to
      account type names before parsing). */
  function RemoveSpaces(s: string): (r: string)
    ensures |r| <= |s|
  {
    if s == [] then [] else (if s[0] == ' ' then [] else [s[0]]) + RemoveSpaces(s[1..])
  }

  /** The result holds exactly the characters of s other than the space. */
  lemma {:induction false} RemoveSpacesMembers(s: string, c: char)
    ensures c in RemoveSpaces(s) <==> c in s && c != ' '
  {
    if s != [] {
      RemoveSpacesMembers(s[1..], c);
      assert s == [s[0]] + s[1..];
    }
  }

  lemma {:induction false} RemoveSpacesAppend(a: string, b: string)
    ensures RemoveSpaces(a + b) == RemoveSpaces(a) + RemoveSpaces(b)
  {
    if a == [] {
      assert a + b == b;
    } else {
      assert (a + b)[0] == a[0] && (a + b)[1..] == a[1..] + b;
      RemoveSpacesAppend(a[1..], b);
    }
  }

  /** Text without spaces is left as it is. */
  lemma {:induction false} RemoveSpacesNone(s: string)
    requires ' ' !in s
    ensures RemoveSpaces(s) == s
  {
    if s != [] {
      assert s[0] in s;
      assert forall c :: c in s[1..] ==> c in s;
      RemoveSpacesNone(s[1..]);
      assert s == [s[0]] + s[1..];
    }
  }

  /** Two words joined by one space lose exactly that space. */
  lemma RemoveOneSpace(a: string, b: string)
    requires ' ' !in a && ' ' !in b
    ensures RemoveSpaces(a + [' '] + b) == a + b
  {
    var t := [' '] + b;
    assert a + [' '] + b == a + t;
    assert t[0] == ' ' && t[1..] == b;
    RemoveSpacesNone(b);
    assert RemoveSpaces(t) == b;
    RemoveSpacesAppend(a, t);
    RemoveSpacesNone(a);
  }

  // ------------------------------------------------------- ordinal order

  /** a may precede b in ordinal (code-point by code-point) order. */
  predicate StrLe(a: string, b: string)
  {
    if a == [] then true
    else if b == [] then false
    else if a[0] != b[0] then a[0] < b[0]
    else StrLe(a[1..], b[1..])
  }

  lemma {:induction false} StrLeTotal(a: string, b: string)
    ensures StrLe(a, b) || StrLe(b, a)
  {
    if a != [] && b != [] && a[0] == b[0] {
      StrLeTotal(a[1..], b[1..]);
    }
  }

  lemma {:induction false} StrLeTransitive(a: string, b: string, c: string)
    requires StrLe(a, b) && StrLe(b, c)
    ensures StrLe(a, c)
  {
    if a != [] && b != [] && c != [] && a[0] == b[0] && b[0] == c[0] {
      StrLeTransitive(a[1..], b[1..], c[1..]);
    }
  }

  lemma {:induction false} StrLeAntisymmetric(a: string, b: string)
    requires StrLe(a, b) && StrLe(b, a)
    ensures a == b
  {
    if a != [] && b != [] {
      StrLeAntisymmetric(a[1..], b[1..]);
      assert a == [a[0]] + a[1..] && b == [b[0]] + b[1..];
    }
  }

  /** Ordinal order is a total preorder, so sorting by it is well defined. */
  lemma StrLeTotalPreorder()
    ensures TotalPreorder(StrLe)
  {
    forall a, b
      ensures StrLe(a, b) || StrLe(b, a)
    {
      StrLeTotal(a, b);
    }
    forall a, b, c | StrLe(a, b) && StrLe(b, c)
      ensures StrLe(a, c)
    {
      StrLeTransitive(a, b, c);
    }
  }

  /** OrderBy(key) on a string key: ordinal order of the keys. */
  function ByKey<T>(key: T -> string): (T, T) -> bool
  {
    (a: T, b: T) => StrLe(key(a), key(b))
  }

  lemma ByKeyTotalPreorder<T(!new)>(key: T -> string)
    ensures TotalPreorder(ByKey(key))
  {
    forall a: T, b: T
      ensures StrLe(key(a), key(b)) || StrLe(key(b), key(a))
    {
      StrLeTotal(key(a), key(b));
    }
    forall a: T, b: T, c: T | StrLe(key(a), key(b)) && StrLe(key(b), key(c))
      ensures StrLe(key(a), key(c))
    {
      StrLeTransitive(key(a), key(b), key(c));
    }
  }

  /** a may precede b when pairs are listed by their text keys, ascending
      (OrderBy on a name read from each object beforehand). */
  predicate KeyAscending<T>(a: (string, T), b: (string, T))
  {
    StrLe(a.0, b.0)
  }

  /** Only the empty string may precede the empty string. */
  lemma StrLeEmpty(a: string)
    ensures StrLe(a, "") <==> a == ""
  {
  }

  /** List<string>.Sort / OrderBy on strings: ascending ordinal order; an empty
      list is returned as it is. */
  function SortStrings(s: seq<string>): (r: seq<string>)
    ensures multiset(r) == multiset(s) && SortedBy(r, StrLe)
    ensures s == [] ==> r == []
  {
    StrLeTotalPreorder();
    SortByPermutation(s, StrLe);
    SortBySorted(s, StrLe);
    if |s| > 0 then SortBy(s, StrLe) else s
  }

  /** Sorting a list that is already in order keeps it, so sorting twice is sorting once. */
  lemma SortStringsIdempotent(s: seq<string>)
    ensures SortStrings(SortStrings(s)) == SortStrings(s)
  {
    StrLeTotalPreorder();
    SortByOfSorted(SortStrings(s), StrLe);
  }

  /** Two arrangements of the same strings sort to the same list, so whether the
      sort is stable does not matter. */
  lemma {:induction false} SortStringsCanonical(s: seq<string>, t: seq<string>)
    requires multiset(s) == multiset(t)
    ensures SortStrings(s) == SortStrings(t)
  {
    StrLeTotalPreorder();
    forall x, y | StrLe(x, y) && StrLe(y, x)
      ensures x == y
    {
      StrLeAntisymmetric(x, y);
    }
    SortedUnique(SortStrings(s), SortStrings(t), StrLe);
  }

  /** Comparing two strings that begin with blocks of equal length: the first
      blocks decide unless they are equal. */
  lemma {:induction false} StrLeAppend(a: string, c: string, b: string, d: string)
    requires |a| == |b|
    ensures StrLe(a + c, b + d) == if a == b then StrLe(c, d) else StrLe(a, b)
  {
    if a == [] {
      assert a + c == c && b + d == d;
    } else {
      assert (a + c)[0] == a[0] && (b + d)[0] == b[0];
      assert (a + c)[1..] == a[1..] + c && (b + d)[1..] == b[1..] + d;
      StrLeAppend(a[1..], c, b[1..], d);
      if a[0] == b[0] && a[1..] == b[1..] {
        assert a == [a[0]] + a[1..] && b == [b[0]] + b[1..];
      }
    }
  }

  // ------------------------------------------------------ decimal digits

  function Pow10(w: nat): (r: nat)
    ensures r >= 1
  {
    if w == 0 then 1 else 10 * Pow10(w - 1)
  }

  function DigitChar(d: int): char
    requires 0 <= d < 10
  {
    ('0' as int + d) as char
  }

  predicate IsDigit(c: char)
  {
    '0' <= c <= '9'
  }

  function DigitValue(c: char): int
  {
    if IsDigit(c) then c as int - '0' as int else 0
  }

  /** The low w decimal digits of n, most significant first, zero-padded
      (a custom format such as "yyyy" or "MM"). */
  function Digits(n: nat, w: nat): (r: string)
    ensures |r| == w
    ensures forall i :: 0 <= i < w ==> IsDigit(r[i])
  {
    if w == 0 then [] else Digits(n / 10, w - 1) + [DigitChar(n % 10)]
  }

  /** The number a string of decimal digits denotes. */
  function ParseDigits(s: string): nat
  {
    if s == [] then 0 else 10 * ParseDigits(s[..|s| - 1]) + DigitValue(s[|s| - 1])
  }

  /** Reading back w digits gives the number, when it fits in w digits. */
  lemma {:induction false} ParseDigitsRoundTrip(n: nat, w: nat)
    requires n < Pow10(w)
    ensures ParseDigits(Digits(n, w)) == n
  {
    if w > 0 {
      ParseDigitsRoundTrip(n / 10, w - 1);
      var r := Digits(n, w);
      assert r[..|r| - 1] == Digits(n / 10, w - 1);
    }
  }

  /** Reading a concatenation shifts the first part's value by the second's width. */
  lemma {:induction false} ParseDigitsAppend(a: string, b: string)
    ensures ParseDigits(a + b) == ParseDigits(a) * Pow10(|b|) + ParseDigits(b)
  {
    if b == [] {
      assert a + b == a;
    } else {
      var b' := b[..|b| - 1];
      ParseDigitsAppend(a, b');
      assert (a + b)[..|a + b| - 1] == a + b' && (a + b)[|a + b| - 1] == b[|b| - 1];
      var x, p, y, d := ParseDigits(a), Pow10(|b'|), ParseDigits(b'), DigitValue(b[|b| - 1]);
      assert ParseDigits(a + b) == 10 * (x * p + y) + d;
      assert ParseDigits(b) == 10 * y + d;
      assert Pow10(|b|) == 10 * p;
      ShiftDigit(x, p, y, d);
    }
  }

  lemma ShiftDigit(x: int, p: int, y: int, d: int)
    ensures 10 * (x * p + y) + d == x * (10 * p) + (10 * y + d)
  {
  }

  /** Leading zeros do not change the number. */
  lemma {:induction false} ParseDigitsZeros(k: nat)
    ensures ParseDigits(seq(k, _ => '0')) == 0
  {
    if k > 0 {
      ParseDigitsZeros(k - 1);
      assert seq(k, _ => '0')[..k - 1] == seq(k - 1, _ => '0');
    }
  }

  /** Distinct numbers that fit in w digits have distinct digit strings. */
  lemma DigitsInjective(n: nat, m: nat, w: nat)
    requires n < Pow10(w) && m < Pow10(w) && Digits(n, w) == Digits(m, w)
    ensures n == m
  {
    ParseDigitsRoundTrip(n, w);
    ParseDigitsRoundTrip(m, w);
  }

  /** Fixed-width digit strings order as the numbers do. */
  lemma {:induction false} DigitsOrder(n: nat, m: nat, w: nat)
    requires n < Pow10(w) && m < Pow10(w)
    ensures StrLe(Digits(n, w), Digits(m, w)) <==> n <= m
  {
    if w > 0 {
      var p := Pow10(w - 1);
      var hn, ln, hm, lm := n / 10, n % 10, m / 10, m % 10;
      SplitDigit(n, p);
      SplitDigit(m, p);
      var a, b := Digits(hn, w - 1), Digits(hm, w - 1);
      var c, d := [DigitChar(ln)], [DigitChar(lm)];
      assert Digits(n, w) == a + c && Digits(m, w) == b + d;
      DigitsOrder(hn, hm, w - 1);
      StrLeAppend(a, c, b, d);
      LexOrder(hn, ln, hm, lm);
      if a == b {
        DigitsInjective(hn, hm, w - 1);
        LastDigitOrder(ln, lm);
      }
    }
  }

  /** One-digit strings order as their digits do. */
  lemma LastDigitOrder(x: int, y: int)
    requires 0 <= x < 10 && 0 <= y < 10
    ensures StrLe([DigitChar(x)], [DigitChar(y)]) <==> x <= y
  {
    StrLeCons(DigitChar(x), [], DigitChar(y), []);
  }

  /** Two-digit-place numbers compare by their high part, then their low digit. */
  lemma LexOrder(hn: int, ln: int, hm: int, lm: int)
    requires 0 <= ln < 10 && 0 <= lm < 10
    ensures 10 * hn + ln <= 10 * hm + lm <==> hn < hm || (hn == hm && ln <= lm)
  {
  }

  /** The last decimal digit and the rest, of a number below 10 * p. */
  lemma SplitDigit(n: nat, p: nat)
    requires n < 10 * p
    ensures n / 10 < p && 0 <= n % 10 < 10 && n == 10 * (n / 10) + n % 10
  {
  }

  lemma StrLeCons(x: char, s: string, y: char, t: string)
    ensures StrLe([x] + s, [y] + t) == if x != y then x < y else StrLe(s, t)
  {
    assert ([x] + s)[1..] == s && ([y] + t)[1..] == t;
  }

  // ------------------------------------------------------ int formatting

  /** The shortest decimal numeral of n (no leading zeros). */
  function NatToString(n: nat): (r: string)
    ensures |r| >= 1 && forall i :: 0 <= i < |r| ==> IsDigit(r[i])
  {
    if n < 10 then [DigitChar(n)] else NatToString(n / 10) + [DigitChar(n % 10)]
  }

  /** int.ToString() in the invariant culture: a leading '-' for negatives. */
  function IntToString(n: int): (r: string)
    ensures |r| >= 1
  {
    if n < 0 then "-" + NatToString(-n) else NatToString(n)
  }

  /** The numeral's first character is '0' only for zero itself. */
  lemma {:induction false} NatToStringLeading(n: nat)
    ensures NatToString(n)[0] == '0' <==> n == 0
  {
    if n >= 10 {
      NatToStringLeading(n / 10);
    }
  }

  lemma {:induction false} ParseNatRoundTrip(n: nat)
    ensures ParseDigits(NatToString(n)) == n
  {
    if n >= 10 {
      ParseNatRoundTrip(n / 10);
      var r := NatToString(n);
      assert r[..|r| - 1] == NatToString(n / 10);
    }
  }

  /** Distinct integers print differently. */
  lemma IntToStringSign(n: int)
    ensures IntToString(n)[0] == '-' <==> n < 0
  {
    assert IsDigit(NatToString(if n < 0 then -n else n)[0]);
  }

  lemma IntToStringInjective(a: int, b: int)
    requires IntToString(a) == IntToString(b)
    ensures a == b
  {
    IntToStringSign(a);
    IntToStringSign(b);
    if a < 0 && b < 0 {
      var s := IntToString(a);
      assert NatToString(-a) == s[1..] == NatToString(-b);
      NatToStringInjective(-a, -b);
    } else if a >= 0 && b >= 0 {
      NatToStringInjective(a, b);
    }
  }

  lemma NatToStringInjective(x: nat, y: nat)
    requires NatToString(x) == NatToString(y)
    ensures x == y
  {
    ParseNatRoundTrip(x);
    ParseNatRoundTrip(y);
  }

  /** string.PadLeft(w, c): c repeated in front of s until it is w long. */
  function PadLeft(s: string, w: nat, c: char): (r: string)
    ensures |r| == if |s| >= w then |s| else w
    ensures r[|r| - |s|..] == s
    ensures forall i :: 0 <= i < |r| - |s| ==> r[i] == c
  {
    if |s| >= w then s else seq(w - |s|, _ => c) + s
  }
}
