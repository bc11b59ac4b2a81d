/** The ledger of one user: the accounts, the account types, the categories,
    every transaction of every account in one newest-first list, and that list
    bucketed by calendar month and by calendar year, from the oldest
    transaction's month (or year) up to the current one. */
module Ledger {
  import opened Seqs
  import opened Sorting
  import opened Text
  import opened Calendar
  import opened Transactions
  import opened Accounts
  import opened Categories
  import opened Months

  /** The transactions of the accounts, account by account, each account's in
      its own order. */
  function AllOf(accs: seq<Account>): seq<Transaction>
    reads accs
  {
    if accs == [] then [] else AllOf(accs[..|accs| - 1]) + accs[|accs| - 1].transactions
  }

  function Max(a: int, b: int): int
  {
    if a < b then b else a
  }

  /** The newest month LoadMonths builds: the current month, or the month of
      the last (oldest) transaction when that lies later, since the do-while
      always builds at least one bucket. */
  function TopMonth(ts: seq<Transaction>, now: Date): int
    requires ts != []
  {
    Max(MonthIndex(now), MonthIndex(ts[|ts| - 1].date))
  }

  /** The newest year LoadYears builds, likewise. */
  function TopYear(ts: seq<Transaction>, now: Date): int
    requires ts != []
  {
    Max(now.year, ts[|ts| - 1].date.year)
  }

  /** What LoadMonths needs so that every Find succeeds: valid dates, each in a
      month from that of the last (oldest) transaction to TopMonth. */
  predicate Loadable(ts: seq<Transaction>, now: Date)
  {
    ts != [] ==> forall t :: t in ts ==>
      Valid(t.date) && MonthIndex(ts[|ts| - 1].date) <= MonthIndex(t.date) <= TopMonth(ts, now)
  }

  /** What LoadYears needs so that every Find succeeds: valid dates, each in a
      year from that of the last transaction to TopYear. */
  predicate YearLoadable(ts: seq<Transaction>, now: Date)
  {
    ts != [] ==> forall t :: t in ts ==>
      Valid(t.date) && ts[|ts| - 1].date.year <= t.date.year <= TopYear(ts, now)
  }

  /** The same demand stated without regard to order: valid dates, and either
      none in a month after the current one, or all in one month. */
  predicate Bucketable(ts: seq<Transaction>, now: Date)
  {
    (forall t :: t in ts ==> Valid(t.date)) &&
    ((forall t :: t in ts ==> MonthIndex(t.date) <= MonthIndex(now)) ||
     (forall t, u :: t in ts && u in ts ==> MonthIndex(t.date) == MonthIndex(u.date)))
  }

  /** A newest-first list is loadable exactly when it is bucketable: either no
      transaction is in a later month than now, or all share one month (which
      may lie after now; the do-while then builds that one bucket). */
  lemma {:induction false} SortedIsLoadable(ts: seq<Transaction>, now: Date)
    requires NewestFirst(ts)
    ensures Loadable(ts, now) <==> Bucketable(ts, now)
  {
    if ts != [] {
      var last := ts[|ts| - 1];
      assert last in ts;
      if Bucketable(ts, now) {
        forall t | t in ts
          ensures MonthIndex(last.date) <= MonthIndex(t.date) <= TopMonth(ts, now)
        {
          var i :| 0 <= i < |ts| && ts[i] == t;
          if i < |ts| - 1 {
            MonthIndexOrder(last.date, t.date);
          }
          if !(forall u :: u in ts ==> MonthIndex(u.date) <= MonthIndex(now)) {
            assert MonthIndex(t.date) == MonthIndex(last.date);
          }
        }
      }
      if Loadable(ts, now) && !(forall u :: u in ts ==> MonthIndex(u.date) <= MonthIndex(now)) {
        var v :| v in ts && MonthIndex(v.date) > MonthIndex(now);
        assert TopMonth(ts, now) == MonthIndex(last.date);
        forall t, u | t in ts && u in ts
          ensures MonthIndex(t.date) == MonthIndex(u.date)
        {
        }
      }
    }
  }

  /** A list LoadMonths can load, LoadYears can load too. */
  lemma LoadableYears(ts: seq<Transaction>, now: Date)
    requires Valid(now) && Loadable(ts, now)
    ensures YearLoadable(ts, now)
  {
    if ts != [] {
      var last := ts[|ts| - 1].date;
      assert ts[|ts| - 1] in ts;
      forall t | t in ts
        ensures last.year <= t.date.year <= TopYear(ts, now)
      {
        MonthIndexOrder(last, t.date);
        if MonthIndex(now) < MonthIndex(last) {
          assert MonthIndex(t.date) <= MonthIndex(last);
        } else {
          assert MonthIndex(t.date) <= MonthIndex(now);
        }
      }
    }
  }

  /** List.Find over months: the index of the first month whose range
      (MonthStart to MonthEnd) holds d, or -1 when there is none. */
  function FindMonth(ms: seq<Month>, d: Date): (k: int)
    reads ms
    requires forall j :: 0 <= j < |ms| ==> Valid(ms[j].monthStart)
    ensures -1 <= k < |ms|
    ensures 0 <= k ==> InMonth(ms[k].monthStart, d)
    ensures forall j :: 0 <= j < |ms| && (k == -1 || j < k) ==> !InMonth(ms[j].monthStart, d)
  {
    if ms == [] then -1
    else if InMonth(ms[0].monthStart, d) then 0
    else
      var k := FindMonth(ms[1..], d);
      if k == -1 then -1 else k + 1
  }

  /** List.Find over years: the index of the first year whose range (YearStart
      to YearEnd) holds d, or -1 when there is none. */
  function FindYear(ys: seq<Year>, d: Date): (k: int)
    reads ys
    ensures -1 <= k < |ys|
    ensures 0 <= k ==> InYear(ys[k].yearStart, d)
    ensures forall j :: 0 <= j < |ys| && (k == -1 || j < k) ==> !InYear(ys[j].yearStart, d)
  {
    if ys == [] then -1
    else if InYear(ys[0].yearStart, d) then 0
    else
      var k := FindYear(ys[1..], d);
      if k == -1 then -1 else k + 1
  }

  /** a may precede b when pairs are listed by their text keys, descending
      (OrderByDescending on FormattedMonth or FormattedYear). */
  predicate KeyDescending<T>(a: (string, T), b: (string, T))
  {
    StrLe(b.0, a.0)
  }

  /** The month buckets of ts: one per month with index hi, hi - 1, ... (newest
      first), each starting on the 1st and holding, newest first, exactly the
      transactions dated in its month. */
  ghost predicate MonthBuckets(ms: seq<Month>, ts: seq<Transaction>, hi: int)
    reads ms
  {
    forall k :: 0 <= k < |ms| ==>
      Valid(ms[k].monthStart) && ms[k].monthStart.day == 1 && MonthIndex(ms[k].monthStart) == hi - k &&
      multiset(ms[k].transactions) == multiset(Filter(ts, InMonthOf(ms[k].monthStart))) &&
      NewestFirst(ms[k].transactions)
  }

  /** The outcome of LoadMonths: no months without transactions; otherwise one
      bucket per month from the current month back to the oldest transaction's. */
  ghost predicate MonthsLoaded(ms: seq<Month>, ts: seq<Transaction>, now: Date)
    reads ms
  {
    (ts == [] ==> ms == []) &&
    (ts != [] ==> |ms| == TopMonth(ts, now) - MonthIndex(ts[|ts| - 1].date) + 1 && MonthBuckets(ms, ts, TopMonth(ts, now)))
  }

  /** The year buckets of ts: one per year hi, hi - 1, ..., each starting on
      1 January and holding, newest first, exactly the transactions of its year. */
  ghost predicate YearBuckets(ys: seq<Year>, ts: seq<Transaction>, hi: int)
    reads ys
  {
    forall k :: 0 <= k < |ys| ==>
      ys[k].yearStart == Date(hi - k, 1, 1) && Valid(ys[k].yearStart) &&
      multiset(ys[k].transactions) == multiset(Filter(ts, InYearOf(ys[k].yearStart))) &&
      NewestFirst(ys[k].transactions)
  }

  ghost predicate YearsLoaded(ys: seq<Year>, ts: seq<Transaction>, now: Date)
    reads ys
  {
    (ts == [] ==> ys == []) &&
    (ts != [] ==> |ys| == TopYear(ts, now) - ts[|ts| - 1].date.year + 1 && YearBuckets(ys, ts, TopYear(ts, now)))
  }

  /** Month buckets in ascending order: bucket k starts on the 1st of the
      month with index lo + k. */
  ghost predicate MonthStarts(ms: seq<Month>, lo: int)
    reads ms
  {
    forall k :: 0 <= k < |ms| ==>
      Valid(ms[k].monthStart) && ms[k].monthStart.day == 1 && MonthIndex(ms[k].monthStart) == lo + k
  }

  /** Each bucket holds, newest first, exactly the transactions of ts dated in its month. */
  ghost predicate MonthsFilled(ms: seq<Month>, ts: seq<Transaction>)
    reads ms
  {
    forall k :: 0 <= k < |ms| ==>
      multiset(ms[k].transactions) == multiset(Filter(ts, InMonthOf(ms[k].monthStart))) &&
      NewestFirst(ms[k].transactions)
  }

  /** The transactions of ts all fall in the months lo to lo + n - 1. */
  predicate InMonths(ts: seq<Transaction>, lo: int, n: int)
  {
    forall j :: 0 <= j < |ts| ==> Valid(ts[j].date) && lo <= MonthIndex(ts[j].date) < lo + n
  }

  /** Gathers the transactions of every account (the nested foreach). */
  method Flatten(accs: seq<Account>) returns (all: seq<Transaction>)
    ensures all == AllOf(accs)
  {
    all := [];
    var i := 0;
    while i < |accs|
      invariant 0 <= i <= |accs|
      invariant all == AllOf(accs[..i])
    {
      var ts := accs[i].transactions;
      var j := 0;
      while j < |ts|
        invariant 0 <= j <= |ts|
        invariant all == AllOf(accs[..i]) + ts[..j]
      {
        all := all + [ts[j]];
        j := j + 1;
      }
      assert accs[..i + 1][..i] == accs[..i];
      assert ts[..j] == ts;
      i := i + 1;
    }
    assert accs[..i] == accs;
  }

  /** The do-while of LoadMonths: count + 1 new, empty months, one a month
      from startMonth on. */
  method NewMonths(startMonth: Date, count: nat) returns (ms: seq<Month>)
    requires Valid(startMonth) && startMonth.day == 1 && MonthIndex(startMonth) + count < 120000
    ensures |ms| == count + 1 && MonthStarts(ms, MonthIndex(startMonth))
    ensures forall k :: 0 <= k < |ms| ==> fresh(ms[k]) && ms[k].transactions == []
  {
    ms := [];
    var start := 0;
    while start <= count
      invariant 0 <= start <= count + 1 && |ms| == start
      invariant MonthStarts(ms, MonthIndex(startMonth))
      invariant forall k :: 0 <= k < |ms| ==> fresh(ms[k]) && ms[k].transactions == []
    {
      var m := new Month(AddMonths(startMonth, start), []);
      ms := ms + [m];
      start := start + 1;
    }
  }

  /** One pass of the foreach of LoadMonths: the transaction goes to the first
      month whose range holds its date, which is the bucket of its month. */
  method AddToMonth(ms: seq<Month>, ghost ts: seq<Transaction>, t: Transaction, lo: int)
    requires MonthStarts(ms, lo) && MonthsFilled(ms, ts)
    requires Valid(t.date) && lo <= MonthIndex(t.date) < lo + |ms|
    modifies ms
    ensures MonthStarts(ms, lo) && MonthsFilled(ms, ts + [t])
  {
    var home := MonthIndex(t.date) - lo;
    InMonthIsSameMonth(ms[home].monthStart, t.date);
    var k := FindMonth(ms, t.date);
    InMonthIsSameMonth(ms[k].monthStart, t.date);
    assert k == home;
    var m := ms[k];
    m.AddTransaction(t);
    forall j | 0 <= j < |ms|
      ensures Valid(ms[j].monthStart) && ms[j].monthStart.day == 1 && MonthIndex(ms[j].monthStart) == lo + j
      ensures multiset(ms[j].transactions) == multiset(Filter(ts + [t], InMonthOf(ms[j].monthStart)))
      ensures NewestFirst(ms[j].transactions)
    {
      FilterSnoc(ts, t, InMonthOf(ms[j].monthStart));
      if j != k {
        assert old(ms[j].monthStart) != old(ms[k].monthStart);
        assert ms[j] != m;
      }
    }
  }

  /** Empty buckets are filled with the transactions of the empty list. */
  lemma EmptyMonthsFilled(ms: seq<Month>)
    requires forall k :: 0 <= k < |ms| ==> ms[k].transactions == []
    ensures MonthsFilled(ms, [])
  {
  }

  /** The foreach of LoadMonths over the whole list. */
  method FillMonths(ms: seq<Month>, ts: seq<Transaction>, lo: int)
    requires MonthStarts(ms, lo) && InMonths(ts, lo, |ms|)
    requires forall k :: 0 <= k < |ms| ==> ms[k].transactions == []
    modifies ms
    ensures MonthStarts(ms, lo) && MonthsFilled(ms, ts)
  {
    var i := 0;
    EmptyMonthsFilled(ms);
    assert ts[..0] == [];
    while i < |ts|
      invariant 0 <= i <= |ts|
      invariant MonthStarts(ms, lo) && MonthsFilled(ms, ts[..i])
    {
      TakeSnoc(ts, i);
      AddToMonth(ms, ts[..i], ts[i], lo);
      i := i + 1;
    }
    assert ts[..i] == ts;
  }

  /** OrderByDescending(FormattedMonth) on ascending months: the reverse list. */
  method NewestMonthsFirst(ms: seq<Month>, lo: int) returns (r: seq<Month>)
    requires MonthStarts(ms, lo)
    ensures r == Seconds(SortBy(MonthKeys(ms), KeyDescending))
    ensures r == Reverse(ms)
  {
    var pairs: seq<(string, Month)> := [];
    var j := 0;
    while j < |ms|
      invariant 0 <= j <= |ms| && |pairs| == j
      invariant pairs == MonthKeys(ms[..j])
    {
      pairs := pairs + [(ms[j].FormattedMonth(), ms[j])];
      assert ms[..j + 1][..j] == ms[..j];
      j := j + 1;
    }
    assert ms[..j] == ms;
    forall a, b | 0 <= a < b < |pairs|
      ensures !KeyDescending(pairs[a], pairs[b])
    {
      FormatMonthOrder(ms[b].monthStart, ms[a].monthStart);
    }
    SortByStrictlyReversed(pairs, KeyDescending);
    r := Seconds(SortBy(pairs, KeyDescending));
  }

  /** Each month paired with its FormattedMonth, the key it is sorted by. */
  function MonthKeys(ms: seq<Month>): (r: seq<(string, Month)>)
    reads ms
    requires forall k :: 0 <= k < |ms| ==> Valid(ms[k].monthStart)
    ensures |r| == |ms| && forall k :: 0 <= k < |ms| ==> r[k] == (FormatMonth(ms[k].monthStart), ms[k])
  {
    if ms == [] then [] else MonthKeys(ms[..|ms| - 1]) + [(FormatMonth(ms[|ms| - 1].monthStart), ms[|ms| - 1])]
  }

  /** Year buckets in ascending order: bucket k starts on 1 January of lo + k. */
  ghost predicate YearStarts(ys: seq<Year>, lo: int)
    reads ys
  {
    forall k :: 0 <= k < |ys| ==> ys[k].yearStart == Date(lo + k, 1, 1) && Valid(ys[k].yearStart)
  }

  ghost predicate YearsFilled(ys: seq<Year>, ts: seq<Transaction>)
    reads ys
  {
    forall k :: 0 <= k < |ys| ==>
      multiset(ys[k].transactions) == multiset(Filter(ts, InYearOf(ys[k].yearStart))) &&
      NewestFirst(ys[k].transactions)
  }

  /** The do-while of LoadYears: count + 1 new, empty years from startYear on. */
  method NewYears(startYear: Date, count: nat) returns (ys: seq<Year>)
    requires Valid(startYear) && startYear.month == 1 && startYear.day == 1 && startYear.year + count <= 9999
    ensures |ys| == count + 1 && YearStarts(ys, startYear.year)
    ensures forall k :: 0 <= k < |ys| ==> fresh(ys[k]) && ys[k].transactions == []
  {
    ys := [];
    var start := 0;
    while start <= count
      invariant 0 <= start <= count + 1 && |ys| == start
      invariant YearStarts(ys, startYear.year)
      invariant forall k :: 0 <= k < |ys| ==> fresh(ys[k]) && ys[k].transactions == []
    {
      var y := new Year(AddYears(startYear, start), []);
      ys := ys + [y];
      start := start + 1;
    }
  }

  /** One pass of the foreach of LoadYears: the transaction goes to the first
      year whose range holds its date, which is the bucket of its year. */
  method AddToYear(ys: seq<Year>, ghost ts: seq<Transaction>, t: Transaction, lo: int)
    requires YearStarts(ys, lo) && YearsFilled(ys, ts)
    requires Valid(t.date) && lo <= t.date.year < lo + |ys|
    modifies ys
    ensures YearStarts(ys, lo) && YearsFilled(ys, ts + [t])
  {
    var home := t.date.year - lo;
    assert InYear(ys[home].yearStart, t.date);
    var k := FindYear(ys, t.date);
    assert k == home;
    var y := ys[k];
    y.AddTransaction(t);
    forall j | 0 <= j < |ys|
      ensures ys[j].yearStart == Date(lo + j, 1, 1) && Valid(ys[j].yearStart)
      ensures multiset(ys[j].transactions) == multiset(Filter(ts + [t], InYearOf(ys[j].yearStart)))
      ensures NewestFirst(ys[j].transactions)
    {
      FilterSnoc(ts, t, InYearOf(ys[j].yearStart));
      if j != k {
        assert old(ys[j].yearStart) != old(ys[k].yearStart);
        assert ys[j] != y;
      }
    }
  }

  /** The foreach of LoadYears over the whole list. */
  method FillYears(ys: seq<Year>, ts: seq<Transaction>, lo: int)
    requires YearStarts(ys, lo)
    requires forall j :: 0 <= j < |ts| ==> Valid(ts[j].date) && lo <= ts[j].date.year < lo + |ys|
    requires forall k :: 0 <= k < |ys| ==> ys[k].transactions == []
    modifies ys
    ensures YearStarts(ys, lo) && YearsFilled(ys, ts)
  {
    var i := 0;
    assert ts[..0] == [];
    while i < |ts|
      invariant 0 <= i <= |ts|
      invariant YearStarts(ys, lo) && YearsFilled(ys, ts[..i])
    {
      TakeSnoc(ts, i);
      AddToYear(ys, ts[..i], ts[i], lo);
      i := i + 1;
    }
    assert ts[..i] == ts;
  }

  /** Each year paired with its FormattedYear, the key it is sorted by. */
  function YearKeys(ys: seq<Year>): (r: seq<(string, Year)>)
    reads ys
    requires forall k :: 0 <= k < |ys| ==> Valid(ys[k].yearStart)
    ensures |r| == |ys| && forall k :: 0 <= k < |ys| ==> r[k] == (FormatYear(ys[k].yearStart), ys[k])
  {
    if ys == [] then [] else YearKeys(ys[..|ys| - 1]) + [(FormatYear(ys[|ys| - 1].yearStart), ys[|ys| - 1])]
  }

  /** OrderByDescending(FormattedYear) on ascending years: the reverse list. */
  method NewestYearsFirst(ys: seq<Year>, lo: int) returns (r: seq<Year>)
    requires YearStarts(ys, lo)
    ensures r == Seconds(SortBy(YearKeys(ys), KeyDescending))
    ensures r == Reverse(ys)
  {
    var pairs: seq<(string, Year)> := [];
    var j := 0;
    while j < |ys|
      invariant 0 <= j <= |ys| && |pairs| == j
      invariant pairs == YearKeys(ys[..j])
    {
      pairs := pairs + [(ys[j].FormattedYear(), ys[j])];
      assert ys[..j + 1][..j] == ys[..j];
      j := j + 1;
    }
    assert ys[..j] == ys;
    forall a, b | 0 <= a < b < |pairs|
      ensures !KeyDescending(pairs[a], pairs[b])
    {
      FormatYearOrder(ys[b].yearStart, ys[a].yearStart);
    }
    SortByStrictlyReversed(pairs, KeyDescending);
    r := Seconds(SortBy(pairs, KeyDescending));
  }

  /** Ascending, filled month buckets listed in reverse are the newest-first
      buckets LoadMonths promises. */
  lemma ReversedMonthBuckets(ms: seq<Month>, r: seq<Month>, ts: seq<Transaction>, lo: int)
    requires MonthStarts(ms, lo) && MonthsFilled(ms, ts) && r == Reverse(ms)
    ensures MonthBuckets(r, ts, lo + |ms| - 1)
  {
    forall k | 0 <= k < |r|
      ensures r[k] == ms[|ms| - 1 - k]
    {
    }
  }

  /** The same for year buckets and LoadYears. */
  lemma ReversedYearBuckets(ys: seq<Year>, r: seq<Year>, ts: seq<Transaction>, lo: int)
    requires YearStarts(ys, lo) && YearsFilled(ys, ts) && r == Reverse(ys)
    ensures YearBuckets(r, ts, lo + |ys| - 1)
  {
    forall k | 0 <= k < |r|
      ensures r[k] == ys[|ys| - 1 - k]
    {
    }
  }

  /** The count + 1 month buckets from month first on, filled with ts and
      listed newest first. */
  method MonthRange(ts: seq<Transaction>, first: Date, count: nat) returns (r: seq<Month>)
    requires Valid(first) && first.day == 1 && MonthIndex(first) + count < 120000
    requires InMonths(ts, MonthIndex(first), count + 1)
    ensures |r| == count + 1 && MonthBuckets(r, ts, MonthIndex(first) + count)
    ensures forall k :: 0 <= k < |r| ==> fresh(r[k])
  {
    var lo := MonthIndex(first);
    var ms := NewMonths(first, count);
    FillMonths(ms, ts, lo);
    r := NewestMonthsFirst(ms, lo);
    ReversedMonthBuckets(ms, r, ts, lo);
    forall k | 0 <= k < |r|
      ensures fresh(r[k])
    {
      assert r[k] == ms[|ms| - 1 - k];
    }
  }

  /** The bucketing of LoadMonths: empty without transactions, otherwise one
      new month per month from the oldest transaction's to the current one
      (just the oldest transaction's month when that lies later), newest first. */
  method BuildMonths(ts: seq<Transaction>, now: Date) returns (r: seq<Month>)
    requires Valid(now) && Loadable(ts, now)
    ensures MonthsLoaded(r, ts, now)
    ensures forall k :: 0 <= k < |r| ==> fresh(r[k])
  {
    r := [];
    if |ts| > 0 {
      var last := ts[|ts| - 1].date;
      assert ts[|ts| - 1] in ts;
      var first := Date(last.year, last.month, 1);
      assert Valid(first) && MonthIndex(first) == MonthIndex(last);
      r := MonthRange(ts, first, TopMonth(ts, now) - MonthIndex(last));
    }
  }

  /** The count + 1 year buckets from year first on, filled with ts and listed
      newest first. */
  method YearRange(ts: seq<Transaction>, first: Date, count: nat) returns (r: seq<Year>)
    requires Valid(first) && first.month == 1 && first.day == 1 && first.year + count <= 9999
    requires forall j :: 0 <= j < |ts| ==> Valid(ts[j].date) && first.year <= ts[j].date.year <= first.year + count
    ensures |r| == count + 1 && YearBuckets(r, ts, first.year + count)
    ensures forall k :: 0 <= k < |r| ==> fresh(r[k])
  {
    var ys := NewYears(first, count);
    FillYears(ys, ts, first.year);
    r := NewestYearsFirst(ys, first.year);
    ReversedYearBuckets(ys, r, ts, first.year);
    forall k | 0 <= k < |r|
      ensures fresh(r[k])
    {
      assert r[k] == ys[|ys| - 1 - k];
    }
  }

  /** The bucketing of LoadYears, by calendar year. */
  method BuildYears(ts: seq<Transaction>, now: Date) returns (r: seq<Year>)
    requires Valid(now) && YearLoadable(ts, now)
    ensures YearsLoaded(r, ts, now)
    ensures forall k :: 0 <= k < |r| ==> fresh(r[k])
  {
    r := [];
    if |ts| > 0 {
      var last := ts[|ts| - 1].date;
      assert ts[|ts| - 1] in ts;
      r := YearRange(ts, Date(last.year, 1, 1), TopYear(ts, now) - last.year);
    }
  }

  /** After loading, every transaction sits in the bucket of its own month,
      counted from the newest month, and in no other. */
  lemma {:induction false} EachTransactionInOneMonth(ms: seq<Month>, ts: seq<Transaction>, now: Date, t: Transaction)
    requires MonthsLoaded(ms, ts, now) && Loadable(ts, now) && t in ts
    ensures 0 <= TopMonth(ts, now) - MonthIndex(t.date) < |ms|
    ensures t in ms[TopMonth(ts, now) - MonthIndex(t.date)].transactions
    ensures forall j :: 0 <= j < |ms| && j != TopMonth(ts, now) - MonthIndex(t.date) ==> t !in ms[j].transactions
  {
    var last := ts[|ts| - 1];
    assert MonthIndex(last.date) <= MonthIndex(t.date) <= TopMonth(ts, now);
    var k := TopMonth(ts, now) - MonthIndex(t.date);
    assert 0 <= k < |ms|;
    FilterMembership(ts, InMonthOf(ms[k].monthStart), t);
    assert t in multiset(ms[k].transactions);
    forall j | 0 <= j < |ms| && j != k
      ensures t !in ms[j].transactions
    {
      FilterMembership(ts, InMonthOf(ms[j].monthStart), t);
      assert t !in multiset(ms[j].transactions);
    }
  }

  /** After loading, every transaction sits in the bucket of its own year and
      in no other. */
  lemma {:induction false} EachTransactionInOneYear(ys: seq<Year>, ts: seq<Transaction>, now: Date, t: Transaction)
    requires YearsLoaded(ys, ts, now) && YearLoadable(ts, now) && t in ts
    ensures 0 <= TopYear(ts, now) - t.date.year < |ys|
    ensures t in ys[TopYear(ts, now) - t.date.year].transactions
    ensures forall j :: 0 <= j < |ys| && j != TopYear(ts, now) - t.date.year ==> t !in ys[j].transactions
  {
    var k := TopYear(ts, now) - t.date.year;
    FilterMembership(ts, InYearOf(ys[k].yearStart), t);
    assert t in multiset(ys[k].transactions);
    forall j | 0 <= j < |ys| && j != k
      ensures t !in ys[j].transactions
    {
      FilterMembership(ts, InYearOf(ys[j].yearStart), t);
      assert t !in multiset(ys[j].transactions);
    }
  }

  /** The constructor's gathering step: every account's transactions in one
      list, sorted newest first. */
  method GatherTransactions(accs: seq<Account>, now: Date) returns (sorted: seq<Transaction>)
    ensures sorted == SortTransactions(AllOf(accs))
    ensures multiset(sorted) == multiset(AllOf(accs)) && NewestFirst(sorted)
    ensures Loadable(sorted, now) <==> Bucketable(AllOf(accs), now)
  {
    var all := Flatten(accs);
    SortTransactionsSpec(all);
    sorted := SortTransactions(all);
    assert forall t :: t in sorted <==> t in multiset(all);
    SortedIsLoadable(sorted, now);
    BucketableByMembers(sorted, all, now);
  }

  /** Whether a list is bucketable depends only on its members. */
  lemma BucketableByMembers(a: seq<Transaction>, b: seq<Transaction>, now: Date)
    requires forall t :: t in a <==> t in b
    ensures Bucketable(a, now) <==> Bucketable(b, now)
  {
  }

  /** The constructor's work before its fields are assigned: the gathered,
      sorted transactions and their month and year buckets. */
  method LoadAll(accs: seq<Account>, now: Date) returns (sorted: seq<Transaction>, ms: seq<Month>, ys: seq<Year>)
    requires Valid(now) && Bucketable(AllOf(accs), now)
    ensures sorted == SortTransactions(AllOf(accs))
    ensures multiset(sorted) == multiset(AllOf(accs)) && NewestFirst(sorted)
    ensures MonthsLoaded(ms, sorted, now) && YearsLoaded(ys, sorted, now)
    ensures forall k :: 0 <= k < |ms| ==> fresh(ms[k])
    ensures forall k :: 0 <= k < |ys| ==> fresh(ys[k])
  {
    sorted := GatherTransactions(accs, now);
    ms := BuildMonths(sorted, now);
    LoadableYears(sorted, now);
    ys := BuildYears(sorted, now);
  }

  class Finances {
    var accounts: seq<Account>
    var accountTypes: seq<string>
    var categories: seq<Category>
    var transactions: seq<Transaction>
    var months: seq<Month>
    var years: seq<Year>

    /** Copies the lists, gathers every account's transactions into one list,
        sorts the account types and that list, then builds the month and year
        buckets. */
    constructor (allAccounts: seq<Account>, allAccountTypes: seq<string>, allCategories: seq<Category>, now: Date)
      requires Valid(now) && Bucketable(AllOf(allAccounts), now)
      ensures accounts == allAccounts && categories == allCategories
      ensures accountTypes == SortStrings(allAccountTypes) && SortedBy(accountTypes, StrLe)
      ensures transactions == SortTransactions(old(AllOf(allAccounts)))
      ensures multiset(transactions) == multiset(old(AllOf(allAccounts))) && NewestFirst(transactions)
      ensures MonthsLoaded(months, transactions, now) && YearsLoaded(years, transactions, now)
      ensures forall k :: 0 <= k < |months| ==> fresh(months[k])
      ensures forall k :: 0 <= k < |years| ==> fresh(years[k])
    {
      var sorted, ms, ys := LoadAll(allAccounts, now);
      accounts := allAccounts;
      accountTypes := SortStrings(allAccountTypes);
      categories := allCategories;
      transactions := sorted;
      months := ms;
      years := ys;
    }

    /** Rebuilds the month buckets from the transaction list. */
    method LoadMonths(now: Date)
      requires Valid(now) && Loadable(transactions, now)
      modifies this
      ensures MonthsLoaded(months, transactions, now)
      ensures forall k :: 0 <= k < |months| ==> fresh(months[k])
      ensures accounts == old(accounts) && accountTypes == old(accountTypes) && categories == old(categories)
      ensures transactions == old(transactions) && years == old(years)
    {
      months := BuildMonths(transactions, now);
    }

    /** Rebuilds the year buckets from the transaction list. */
    method LoadYears(now: Date)
      requires Valid(now) && YearLoadable(transactions, now)
      modifies this
      ensures YearsLoaded(years, transactions, now)
      ensures forall k :: 0 <= k < |years| ==> fresh(years[k])
      ensures accounts == old(accounts) && accountTypes == old(accountTypes) && categories == old(categories)
      ensures transactions == old(transactions) && months == old(months)
    {
      years := BuildYears(transactions, now);
    }
  }
}
