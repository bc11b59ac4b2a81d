/** Value-level counterparts of the .NET List and LINQ operations the tracker
    relies on: Where (Filter), Sum (SumOf), List.Remove (RemoveFirst),
    List.IndexOf (IndexOf) and the List.Replace extension (ReplaceFirst). */
module Seqs {

  datatype Option<+T> = None | Some(value: T)

  /** The elements of s that satisfy p, in their original order (LINQ Where). */
  function Filter<T>(s: seq<T>, p: T -> bool): (r: seq<T>)
    ensures |r| <= |s|
    ensures forall i :: 0 <= i < |r| ==> p(r[i])
  {
    if s == [] then [] else (if p(s[0]) then [s[0]] else []) + Filter(s[1..], p)
  }

  lemma {:induction false} FilterMembership<T>(s: seq<T>, p: T -> bool, x: T)
    ensures x in Filter(s, p) <==> x in s && p(x)
  {
    if s != [] {
      FilterMembership(s[1..], p, x);
      assert s == [s[0]] + s[1..];
    }
  }

  lemma {:induction false} FilterAppend<T>(a: seq<T>, b: seq<T>, p: T -> bool)
    ensures Filter(a + b, p) == Filter(a, p) + Filter(b, p)
  {
    if a == [] {
      assert a + b == b;
    } else {
      var head := if p(a[0]) then [a[0]] else [];
      assert (a + b)[0] == a[0];
      assert (a + b)[1..] == a[1..] + b;
      FilterAppend(a[1..], b, p);
      calc {
        Filter(a + b, p);
        head + Filter(a[1..] + b, p);
        head + (Filter(a[1..], p) + Filter(b, p));
        (head + Filter(a[1..], p)) + Filter(b, p);
      }
    }
  }

  /** Filtering by p and then by q keeps what passes both, in order. */
  lemma {:induction false} FilterThen<T>(s: seq<T>, p: T -> bool, q: T -> bool, r: T -> bool)
    requires forall x :: r(x) == (p(x) && q(x))
    ensures Filter(Filter(s, p), q) == Filter(s, r)
  {
    if s != [] {
      FilterThen(s[1..], p, q, r);
      if p(s[0]) {
        assert Filter(s, p) == [s[0]] + Filter(s[1..], p);
        assert Filter(s, p)[1..] == Filter(s[1..], p);
      } else {
        assert Filter(s, p) == Filter(s[1..], p);
      }
    }
  }

  /** Filters that agree on every element give the same list. */
  lemma {:induction false} FilterSame<T>(s: seq<T>, p: T -> bool, q: T -> bool)
    requires forall x :: p(x) == q(x)
    ensures Filter(s, p) == Filter(s, q)
  {
    if s != [] {
      FilterSame(s[1..], p, q);
    }
  }

  /** A filter every element passes keeps the whole list. */
  lemma {:induction false} FilterAll<T>(s: seq<T>, p: T -> bool)
    requires forall i :: 0 <= i < |s| ==> p(s[i])
    ensures Filter(s, p) == s
  {
    if s != [] {
      FilterAll(s[1..], p);
    }
  }

  /** a can be obtained from b by deleting elements: an order-preserving sublist. */
  predicate SubsequenceOf<T(==)>(a: seq<T>, b: seq<T>)
    decreases |b|
  {
    a == [] || (b != [] && if a[0] == b[0] then SubsequenceOf(a[1..], b[1..]) else SubsequenceOf(a, b[1..]))
  }

  lemma {:induction false} FilterSubsequence<T>(s: seq<T>, p: T -> bool)
    ensures SubsequenceOf(Filter(s, p), s)
  {
    if s != [] {
      FilterSubsequence(s[1..], p);
      if p(s[0]) {
        assert Filter(s, p) == [s[0]] + Filter(s[1..], p);
        assert Filter(s, p)[1..] == Filter(s[1..], p);
      } else {
        assert Filter(s, p) == Filter(s[1..], p);
        if Filter(s[1..], p) != [] {
          assert p(Filter(s[1..], p)[0]);
        }
      }
    }
  }

  /** Filtering a list with one more element at the end. */
  lemma FilterSnoc<T>(s: seq<T>, x: T, p: T -> bool)
    ensures Filter(s + [x], p) == Filter(s, p) + (if p(x) then [x] else [])
  {
    FilterAppend(s, [x], p);
    assert [x][1..] == [];
  }

  /** Filtering after replacing one element: when the old and the new element
      both pass, the filtered sum moves by their difference; when neither
      passes, the filtered list does not change. */
  lemma {:induction false} SumOfFilterUpdate<T>(s: seq<T>, k: nat, x: T, p: T -> bool, f: T -> int)
    requires k < |s|
    ensures p(s[k]) && p(x) ==> SumOf(Filter(s[k := x], p), f) == SumOf(Filter(s, p), f) - f(s[k]) + f(x)
    ensures !p(s[k]) && !p(x) ==> Filter(s[k := x], p) == Filter(s, p)
  {
    if k > 0 {
      SumOfFilterUpdate(s[1..], k - 1, x, p, f);
      assert s[k := x][1..] == s[1..][k - 1 := x];
      var head := if p(s[0]) then [s[0]] else [];
      SumOfAppend(head, Filter(s[1..], p), f);
      SumOfAppend(head, Filter(s[1..][k - 1 := x], p), f);
    } else {
      assert s[k := x][1..] == s[1..];
    }
  }

  /** Summing after replacing one element. */
  lemma {:induction false} SumOfUpdate<T>(s: seq<T>, k: nat, x: T, f: T -> int)
    requires k < |s|
    ensures SumOf(s[k := x], f) == SumOf(s, f) - f(s[k]) + f(x)
  {
    if k > 0 {
      SumOfUpdate(s[1..], k - 1, x, f);
      assert s[k := x][1..] == s[1..][k - 1 := x];
    } else {
      assert s[k := x][1..] == s[1..];
    }
  }

  /** Filtering twice by the same predicate changes nothing the second time. */
  lemma {:induction false} FilterIdempotent<T>(s: seq<T>, p: T -> bool)
    ensures Filter(Filter(s, p), p) == Filter(s, p)
  {
    if s != [] {
      FilterIdempotent(s[1..], p);
      if p(s[0]) {
        assert Filter(s, p) == [s[0]] + Filter(s[1..], p);
        assert Filter(s, p)[0] == s[0];
        assert Filter(s, p)[1..] == Filter(s[1..], p);
      } else {
        assert Filter(s, p) == Filter(s[1..], p);
      }
    }
  }

  /** The sum of f over s (LINQ Sum with a selector). */
  function SumOf<T>(s: seq<T>, f: T -> int): int
  {
    if s == [] then 0 else f(s[0]) + SumOf(s[1..], f)
  }

  lemma {:induction false} SumOfAppend<T>(a: seq<T>, b: seq<T>, f: T -> int)
    ensures SumOf(a + b, f) == SumOf(a, f) + SumOf(b, f)
  {
    if a == [] {
      assert a + b == b;
    } else {
      assert (a + b)[0] == a[0];
      assert (a + b)[1..] == a[1..] + b;
      SumOfAppend(a[1..], b, f);
    }
  }

  /** Sums of two lists that agree term by term. */
  lemma {:induction false} SumOfPointwise<T>(a: seq<T>, b: seq<T>, f: T -> int)
    requires |a| == |b| && forall i :: 0 <= i < |a| ==> f(a[i]) == f(b[i])
    ensures SumOf(a, f) == SumOf(b, f)
  {
    if a != [] {
      assert f(a[0]) == f(b[0]);
      SumOfPointwise(a[1..], b[1..], f);
    }
  }

  /** Taking one term out of a sum. */
  lemma SumOfRemoveAt<T>(b: seq<T>, i: nat, f: T -> int)
    requires i < |b|
    ensures SumOf(b, f) == f(b[i]) + SumOf(b[..i] + b[i + 1..], f)
  {
    assert b == b[..i] + ([b[i]] + b[i + 1..]);
    SumOfAppend(b[..i], [b[i]] + b[i + 1..], f);
    SumOfAppend([b[i]], b[i + 1..], f);
    SumOfAppend(b[..i], b[i + 1..], f);
    assert SumOf([b[i]], f) == f(b[i]);
  }

  lemma MultisetRemoveAt<T>(b: seq<T>, i: nat)
    requires i < |b|
    ensures multiset(b[..i] + b[i + 1..]) == multiset(b) - multiset{b[i]}
  {
    assert b == b[..i] + [b[i]] + b[i + 1..];
  }

  /** A prefix one longer is the prefix with the next element appended. */
  lemma TakeSnoc<T>(s: seq<T>, i: nat)
    requires i < |s|
    ensures s[..i + 1] == s[..i] + [s[i]]
  {
  }

  lemma MultisetTail<T>(a: seq<T>)
    requires a != []
    ensures multiset(a[1..]) == multiset(a) - multiset{a[0]}
  {
    assert a == [a[0]] + a[1..];
  }

  /** A sum does not depend on the order of its terms. */
  lemma {:induction false} SumOfPermutation<T>(a: seq<T>, b: seq<T>, f: T -> int)
    requires multiset(a) == multiset(b)
    ensures SumOf(a, f) == SumOf(b, f)
  {
    if a == [] {
      assert |b| == |multiset(b)| == 0;
    } else {
      var x := a[0];
      assert x in b by { assert x in multiset(b); }
      var i := IndexOf(b, x);
      var rest := b[..i] + b[i + 1..];
      MultisetRemoveAt(b, i);
      MultisetTail(a);
      SumOfPermutation(a[1..], rest, f);
      SumOfRemoveAt(b, i, f);
    }
  }

  /** Index of the first element equal to x, or -1 (List.IndexOf). */
  function IndexOf<T(==)>(s: seq<T>, x: T): (i: int)
    ensures -1 <= i < |s|
    ensures i == -1 <==> x !in s
    ensures 0 <= i ==> s[i] == x && x !in s[..i]
  {
    if s == [] then -1
    else if s[0] == x then 0
    else var j := IndexOf(s[1..], x); if j == -1 then -1 else j + 1
  }

  /** Removes the first element equal to x, if any (List.Remove). */
  function RemoveFirst<T(==)>(s: seq<T>, x: T): (r: seq<T>)
    ensures x !in s ==> r == s
    ensures x in s ==> r == s[..IndexOf(s, x)] + s[IndexOf(s, x) + 1..]
  {
    var i := IndexOf(s, x);
    if i < 0 then s else s[..i] + s[i + 1..]
  }

  lemma RemoveFirstCount<T>(s: seq<T>, x: T)
    ensures x in s ==> |RemoveFirst(s, x)| == |s| - 1 && multiset(RemoveFirst(s, x)) == multiset(s) - multiset{x}
    ensures x !in s ==> RemoveFirst(s, x) == s
  {
    if x in s {
      var i := IndexOf(s, x);
      MultisetRemoveAt(s, i);
    }
  }

  /** Replaces the first element equal to o by n; leaves s alone when o is absent
      (the List.Replace extension the tracker calls). */
  function ReplaceFirst<T(==)>(s: seq<T>, o: T, n: T): (r: seq<T>)
    ensures |r| == |s|
    ensures o !in s ==> r == s
    ensures o in s ==> r == s[IndexOf(s, o) := n]
  {
    if s == [] then []
    else if s[0] == o then [n] + s[1..]
    else [s[0]] + ReplaceFirst(s[1..], o, n)
  }
}
