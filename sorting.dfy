/** A stable sort, the value-level counterpart of LINQ OrderBy / ThenBy and
    OrderByDescending / ThenByDescending: the tracker re-sorts its lists after
    every change, always through one of these. An ordering is given as a
    "may precede" relation le, which must be a total preorder; elements that
    are equivalent under le keep the order they had. */
module Sorting {
  import opened Seqs

  ghost predicate TotalPreorder<T(!new)>(le: (T, T) -> bool)
  {
    (forall x, y :: le(x, y) || le(y, x)) &&
    (forall x, y, z :: le(x, y) && le(y, z) ==> le(x, z))
  }

  ghost predicate SortedBy<T>(s: seq<T>, le: (T, T) -> bool)
  {
    forall i, j :: 0 <= i < j < |s| ==> le(s[i], s[j])
  }

  /** x sits before the first element it may precede; earlier elements stay ahead of it. */
  function Insert<T>(x: T, s: seq<T>, le: (T, T) -> bool): (r: seq<T>)
    ensures |r| == |s| + 1
  {
    if s == [] || le(x, s[0]) then [x] + s else [s[0]] + Insert(x, s[1..], le)
  }

  function SortBy<T>(s: seq<T>, le: (T, T) -> bool): (r: seq<T>)
    ensures |r| == |s|
  {
    if s == [] then [] else Insert(s[0], SortBy(s[1..], le), le)
  }

  /** OrderBy(first).ThenBy(second): first decides, and second breaks its ties. */
  function ThenBy<T>(first: (T, T) -> bool, second: (T, T) -> bool): (T, T) -> bool
  {
    (a: T, b: T) => (first(a, b) && !first(b, a)) || (first(a, b) && first(b, a) && second(a, b))
  }

  lemma ThenByTotalPreorder<T(!new)>(first: (T, T) -> bool, second: (T, T) -> bool)
    requires TotalPreorder(first) && TotalPreorder(second)
    ensures TotalPreorder(ThenBy(first, second))
  {
    var le := ThenBy(first, second);
    forall x, y, z | le(x, y) && le(y, z)
      ensures le(x, z)
    {
      assert first(x, y) && first(y, z);
    }
  }

  /** The elements equivalent to y under le. */
  function EquivalentTo<T>(le: (T, T) -> bool, y: T): T -> bool
  {
    x => le(x, y) && le(y, x)
  }

  function Reverse<T>(s: seq<T>): (r: seq<T>)
    ensures |r| == |s|
    ensures forall i :: 0 <= i < |s| ==> r[i] == s[|s| - 1 - i]
  {
    if s == [] then [] else Reverse(s[1..]) + [s[0]]
  }

  lemma {:induction false} InsertPermutation<T>(x: T, s: seq<T>, le: (T, T) -> bool)
    ensures multiset(Insert(x, s, le)) == multiset(s) + multiset{x}
  {
    if s != [] && !le(x, s[0]) {
      InsertPermutation(x, s[1..], le);
      assert s == [s[0]] + s[1..];
    }
  }

  /** Sorting neither loses nor invents elements. */
  lemma {:induction false} SortByPermutation<T>(s: seq<T>, le: (T, T) -> bool)
    ensures multiset(SortBy(s, le)) == multiset(s)
  {
    if s != [] {
      SortByPermutation(s[1..], le);
      InsertPermutation(s[0], SortBy(s[1..], le), le);
      assert s == [s[0]] + s[1..];
    }
  }

  lemma {:induction false} InsertSorted<T(!new)>(x: T, s: seq<T>, le: (T, T) -> bool)
    requires TotalPreorder(le) && SortedBy(s, le)
    ensures SortedBy(Insert(x, s, le), le)
  {
    if s != [] && !le(x, s[0]) {
      InsertSorted(x, s[1..], le);
      var t := Insert(x, s[1..], le);
      InsertPermutation(x, s[1..], le);
      forall j | 0 <= j < |t|
        ensures le(s[0], t[j])
      {
        assert t[j] in multiset(s[1..]) + multiset{x};
        if t[j] != x {
          assert t[j] in multiset(s[1..]);
          var k :| 0 <= k < |s[1..]| && s[1..][k] == t[j];
          assert s[k + 1] == t[j];
        }
      }
    }
  }

  /** The result of SortBy is ordered by le. */
  lemma {:induction false} SortBySorted<T(!new)>(s: seq<T>, le: (T, T) -> bool)
    requires TotalPreorder(le)
    ensures SortedBy(SortBy(s, le), le)
  {
    if s != [] {
      SortBySorted(s[1..], le);
      InsertSorted(s[0], SortBy(s[1..], le), le);
    }
  }

  /** Sorting an already ordered list leaves it as it is. */
  lemma {:induction false} SortByOfSorted<T>(s: seq<T>, le: (T, T) -> bool)
    requires SortedBy(s, le)
    ensures SortBy(s, le) == s
  {
    if s != [] {
      SortByOfSorted(s[1..], le);
      assert s == [s[0]] + s[1..];
    }
  }

  /** Sorting twice is the same as sorting once. */
  lemma SortByIdempotent<T(!new)>(s: seq<T>, le: (T, T) -> bool)
    requires TotalPreorder(le)
    ensures SortBy(SortBy(s, le), le) == SortBy(s, le)
  {
    SortBySorted(s, le);
    SortByOfSorted(SortBy(s, le), le);
  }

  lemma {:induction false} FilterInsert<T(!new)>(x: T, s: seq<T>, le: (T, T) -> bool, y: T)
    requires TotalPreorder(le)
    ensures Filter(Insert(x, s, le), EquivalentTo(le, y)) == Filter([x] + s, EquivalentTo(le, y))
  {
    var q := EquivalentTo(le, y);
    if s != [] && !le(x, s[0]) {
      FilterInsert(x, s[1..], le, y);
      var t := Insert(x, s[1..], le);
      assert Insert(x, s, le) == [s[0]] + t;
      assert ([s[0]] + t)[1..] == t;
      assert ([x] + s)[1..] == s;
      assert ([x] + s[1..])[1..] == s[1..];
      assert s == [s[0]] + s[1..];
      assert !(q(x) && q(s[0]));
      if q(s[0]) {
        calc {
          Filter([s[0]] + t, q);
          [s[0]] + Filter(t, q);
          [s[0]] + Filter([x] + s[1..], q);
          [s[0]] + Filter(s[1..], q);
          Filter(s, q);
          Filter([x] + s, q);
        }
      } else if q(x) {
        calc {
          Filter([s[0]] + t, q);
          Filter(t, q);
          Filter([x] + s[1..], q);
          [x] + Filter(s[1..], q);
          [x] + Filter(s, q);
          Filter([x] + s, q);
        }
      } else {
        calc {
          Filter([s[0]] + t, q);
          Filter(t, q);
          Filter([x] + s[1..], q);
          Filter(s[1..], q);
          Filter(s, q);
          Filter([x] + s, q);
        }
      }
    }
  }

  /** Stability: elements that compare equal come out in the order they went in. */
  lemma {:induction false} SortByStable<T(!new)>(s: seq<T>, le: (T, T) -> bool, y: T)
    requires TotalPreorder(le)
    ensures Filter(SortBy(s, le), EquivalentTo(le, y)) == Filter(s, EquivalentTo(le, y))
  {
    if s != [] {
      var q := EquivalentTo(le, y);
      SortByStable(s[1..], le, y);
      FilterInsert(s[0], SortBy(s[1..], le), le, y);
      assert ([s[0]] + SortBy(s[1..], le))[1..] == SortBy(s[1..], le);
      assert ([s[0]] + SortBy(s[1..], le))[0] == s[0];
    }
  }

  lemma {:induction false} InsertAtEnd<T>(x: T, s: seq<T>, le: (T, T) -> bool)
    requires forall i :: 0 <= i < |s| ==> !le(x, s[i])
    ensures Insert(x, s, le) == s + [x]
  {
    if s != [] {
      InsertAtEnd(x, s[1..], le);
      assert s == [s[0]] + s[1..];
    }
  }

  /** When no element may precede a later one, sorting reverses the list: creating
      items in ascending order and then sorting them descending yields the
      reverse of the creation order. */
  lemma {:induction false} SortByStrictlyReversed<T>(s: seq<T>, le: (T, T) -> bool)
    requires forall i, j :: 0 <= i < j < |s| ==> !le(s[i], s[j])
    ensures SortBy(s, le) == Reverse(s)
  {
    if s != [] {
      SortByStrictlyReversed(s[1..], le);
      InsertAtEnd(s[0], Reverse(s[1..]), le);
    }
  }

  /** An ordered list stays ordered when one element is taken out. */
  lemma SortedRemoveAt<T>(s: seq<T>, i: nat, le: (T, T) -> bool)
    requires i < |s| && SortedBy(s, le)
    ensures SortedBy(s[..i] + s[i + 1..], le)
  {
    var r := s[..i] + s[i + 1..];
    forall a, b | 0 <= a < b < |r|
      ensures le(r[a], r[b])
    {
      var a' := if a < i then a else a + 1;
      var b' := if b < i then b else b + 1;
      assert r[a] == s[a'] && r[b] == s[b'];
    }
  }

  /** Under an antisymmetric order a multiset has only one sorted arrangement. */
  lemma {:induction false} SortedUnique<T(!new)>(a: seq<T>, b: seq<T>, le: (T, T) -> bool)
    requires TotalPreorder(le) && forall x, y :: le(x, y) && le(y, x) ==> x == y
    requires multiset(a) == multiset(b) && SortedBy(a, le) && SortedBy(b, le)
    ensures a == b
  {
    if a == [] {
      assert |b| == |multiset(b)| == 0;
    } else {
      assert |b| == |multiset(b)| == |multiset(a)| == |a|;
      SortedHeads(a, b, le);
      MultisetTail(a);
      MultisetTail(b);
      SortedTail(a, le);
      SortedTail(b, le);
      SortedUnique(a[1..], b[1..], le);
      assert a == [a[0]] + a[1..] && b == [b[0]] + b[1..];
    }
  }

  lemma SortedTail<T>(a: seq<T>, le: (T, T) -> bool)
    requires a != [] && SortedBy(a, le)
    ensures SortedBy(a[1..], le)
  {
    forall i, j | 0 <= i < j < |a[1..]|
      ensures le(a[1..][i], a[1..][j])
    {
      assert a[1..][i] == a[i + 1] && a[1..][j] == a[j + 1];
    }
  }

  lemma SortedHeads<T(!new)>(a: seq<T>, b: seq<T>, le: (T, T) -> bool)
    requires a != [] && b != []
    requires TotalPreorder(le) && forall x, y :: le(x, y) && le(y, x) ==> x == y
    requires multiset(a) == multiset(b) && SortedBy(a, le) && SortedBy(b, le)
    ensures a[0] == b[0]
  {
    assert a[0] in multiset(b) && b[0] in multiset(a);
    var i :| 0 <= i < |b| && b[i] == a[0];
    var j :| 0 <= j < |a| && a[j] == b[0];
    assert le(a[0], a[0]) && le(b[0], b[0]);
    assert le(a[0], b[0]) by {
      if j > 0 {
        assert le(a[0], a[j]);
      }
    }
    assert le(b[0], a[0]) by {
      if i > 0 {
        assert le(b[0], b[i]);
      }
    }
  }

  /** The first components of a list of pairs. */
  function Firsts<K, T>(s: seq<(K, T)>): (r: seq<K>)
    ensures |r| == |s| && forall i :: 0 <= i < |s| ==> r[i] == s[i].0
  {
    if s == [] then [] else [s[0].0] + Firsts(s[1..])
  }

  /** The second components of a list of pairs; used to sort objects by a key
      read from them beforehand. */
  function Seconds<K, T>(s: seq<(K, T)>): (r: seq<T>)
    ensures |r| == |s| && forall i :: 0 <= i < |s| ==> r[i] == s[i].1
  {
    if s == [] then [] else [s[0].1] + Seconds(s[1..])
  }

  /** Sorting pairs by a relation on their keys alone moves the keys as
      sorting the keys themselves would. */
  lemma {:induction false} FirstsInsert<K, T>(x: (K, T), s: seq<(K, T)>, keyLe: (K, K) -> bool, le: ((K, T), (K, T)) -> bool)
    requires forall a, b :: le(a, b) == keyLe(a.0, b.0)
    ensures Firsts(Insert(x, s, le)) == Insert(x.0, Firsts(s), keyLe)
  {
    if s != [] {
      assert Firsts(s)[1..] == Firsts(s[1..]);
      if !le(x, s[0]) {
        FirstsInsert(x, s[1..], keyLe, le);
      }
    }
  }

  lemma {:induction false} FirstsSortBy<K, T>(s: seq<(K, T)>, keyLe: (K, K) -> bool, le: ((K, T), (K, T)) -> bool)
    requires forall a, b :: le(a, b) == keyLe(a.0, b.0)
    ensures Firsts(SortBy(s, le)) == SortBy(Firsts(s), keyLe)
  {
    if s != [] {
      FirstsSortBy(s[1..], keyLe, le);
      FirstsInsert(s[0], SortBy(s[1..], le), keyLe, le);
      assert Firsts(s)[1..] == Firsts(s[1..]);
    }
  }

  /** The converse relation (OrderByDescending). */
  function Flip<T>(le: (T, T) -> bool): (T, T) -> bool
  {
    (a: T, b: T) => le(b, a)
  }

  lemma FlipTotalPreorder<T(!new)>(le: (T, T) -> bool)
    requires TotalPreorder(le)
    ensures TotalPreorder(Flip(le))
  {
  }

  lemma {:induction false} SecondsInsert<K, T>(x: (K, T), s: seq<(K, T)>, le: ((K, T), (K, T)) -> bool)
    ensures multiset(Seconds(Insert(x, s, le))) == multiset(Seconds(s)) + multiset{x.1}
  {
    if s != [] && !le(x, s[0]) {
      SecondsInsert(x, s[1..], le);
      assert Seconds(s) == [s[0].1] + Seconds(s[1..]);
    }
  }

  /** Sorting pairs by their keys permutes the objects they carry. */
  lemma {:induction false} SecondsSortBy<K, T>(s: seq<(K, T)>, le: ((K, T), (K, T)) -> bool)
    ensures multiset(Seconds(SortBy(s, le))) == multiset(Seconds(s))
  {
    if s != [] {
      SecondsSortBy(s[1..], le);
      SecondsInsert(s[0], SortBy(s[1..], le), le);
      assert Seconds(s) == [s[0].1] + Seconds(s[1..]);
    }
  }
}
