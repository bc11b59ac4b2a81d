/** The application state's bookkeeping: each operation first asks the
    database, then, only when the database reports success, makes the same
    change to the in-memory ledger (accounts, transactions, categories and
    month buckets) so that it need not be reloaded. */
module State {
  import opened Seqs
  import opened Sorting
  import opened Text
  import opened Calendar
  import opened Transactions
  import opened Accounts
  import opened Categories
  import opened Months
  import opened Ledger

  // ---------------------------------------------------------------------------
  // Rewriting the transaction list

  /** The edits made to every transaction of the list after a rename of an
      account, or the removal of a major or a minor category. */
  datatype Fixup =
    | Relabel(oldName: string, newName: string)
    | ClearMajor(major: string)
    | ClearMinor(major: string, minor: string)

  /** One pass of the foreach body; dates, IDs, payees, memos and amounts are
      never touched. */
  function Apply(f: Fixup, t: Transaction): (r: Transaction)
    ensures r.id == t.id && r.date == t.date && r.payee == t.payee && r.memo == t.memo
    ensures r.outflow == t.outflow && r.inflow == t.inflow
  {
    match f
    case Relabel(o, n) => if t.account == o then t.(account := n) else t
    case ClearMajor(m) => if t.major == m then t.(major := "", minor := "") else t
    case ClearMinor(m, n) => if t.major == m && t.minor == n then t.(minor := "") else t
  }

  function ApplyAll(f: Fixup, ts: seq<Transaction>): (r: seq<Transaction>)
    ensures |r| == |ts| && forall i :: 0 <= i < |ts| ==> r[i] == Apply(f, ts[i])
  {
    if ts == [] then [] else ApplyAll(f, ts[..|ts| - 1]) + [Apply(f, ts[|ts| - 1])]
  }

  /** The foreach over AllTransactions. */
  method FixUp(f: Fixup, ts: seq<Transaction>) returns (r: seq<Transaction>)
    ensures r == ApplyAll(f, ts)
  {
    r := [];
    var i := 0;
    while i < |ts|
      invariant 0 <= i <= |ts| && r == ApplyAll(f, ts[..i])
    {
      assert ts[..i + 1][..i] == ts[..i];
      r := r + [Apply(f, ts[i])];
      i := i + 1;
    }
    assert ts[..i] == ts;
  }

  /** A fix-up keeps the list newest first and its balance, and it keeps the
      income and expenses too unless it clears the Transfer category itself. */
  lemma FixUpKeepsLedger(f: Fixup, ts: seq<Transaction>)
    ensures NewestFirst(ts) ==> NewestFirst(ApplyAll(f, ts))
    ensures BalanceOf(ApplyAll(f, ts)) == BalanceOf(ts)
    ensures f != ClearMajor(TransferCategory) ==>
      IncomeOf(ApplyAll(f, ts)) == IncomeOf(ts) && ExpensesOf(ApplyAll(f, ts)) == ExpensesOf(ts)
  {
    var r := ApplyAll(f, ts);
    SumOfPointwise(r, ts, Net);
    if f != ClearMajor(TransferCategory) {
      forall i | 0 <= i < |ts|
        ensures NotTransfer(r[i]) == NotTransfer(ts[i])
      {
      }
      SumOfPointwise(r, ts, CountedInflow);
      SumOfPointwise(r, ts, CountedOutflow);
    }
  }

  /** A rename changes exactly the transactions on the old account, and none
      is left on the old name. */
  lemma RelabelExactly(o: string, n: string, ts: seq<Transaction>)
    requires o != n
    ensures forall i :: 0 <= i < |ts| ==> (ApplyAll(Relabel(o, n), ts)[i] != ts[i] <==> ts[i].account == o)
    ensures forall t :: t in ApplyAll(Relabel(o, n), ts) ==> t.account != o
  {
  }

  /** Removing a major category clears it (and the minor) from every
      transaction that used it, and from no other. */
  lemma ClearMajorExactly(m: string, ts: seq<Transaction>)
    requires m != ""
    ensures forall i :: 0 <= i < |ts| ==> (ApplyAll(ClearMajor(m), ts)[i] != ts[i] <==> ts[i].major == m)
    ensures forall t :: t in ApplyAll(ClearMajor(m), ts) ==> t.major != m
  {
  }

  /** Removing a minor category clears it only where both names match. */
  lemma ClearMinorExactly(m: string, n: string, ts: seq<Transaction>)
    requires n != ""
    ensures forall i :: 0 <= i < |ts| ==>
      (ApplyAll(ClearMinor(m, n), ts)[i] != ts[i] <==> ts[i].major == m && ts[i].minor == n)
    ensures forall t :: t in ApplyAll(ClearMinor(m, n), ts) ==> !(t.major == m && t.minor == n)
  {
  }

  // ---------------------------------------------------------------------------
  // Removing transactions and accounts

  /** foreach (t in xs) list.Remove(t): one occurrence per element of xs. */
  function RemoveEach<T(==)>(s: seq<T>, xs: seq<T>): seq<T>
  {
    if xs == [] then s else RemoveFirst(RemoveEach(s, xs[..|xs| - 1]), xs[|xs| - 1])
  }

  lemma RemoveFirstMultiset<T>(s: seq<T>, x: T)
    ensures multiset(RemoveFirst(s, x)) == multiset(s) - multiset{x}
  {
    RemoveFirstCount(s, x);
    if x !in s {
      assert multiset(s)[x] == 0;
      assert multiset(s) - multiset{x} == multiset(s);
    }
  }

  /** What is left is the old list less the removed ones (as multisets); when
      all of them were present, the list shrinks by their number. */
  lemma {:induction false} RemoveEachCount<T>(s: seq<T>, xs: seq<T>)
    ensures multiset(RemoveEach(s, xs)) == multiset(s) - multiset(xs)
    ensures multiset(xs) <= multiset(s) ==> |RemoveEach(s, xs)| == |s| - |xs|
  {
    if xs != [] {
      var init, x := xs[..|xs| - 1], xs[|xs| - 1];
      assert xs == init + [x];
      assert multiset(xs) == multiset(init) + multiset{x};
      RemoveEachCount(s, init);
      var p := RemoveEach(s, init);
      RemoveFirstMultiset(p, x);
      DiffDiff(multiset(s), multiset(init), multiset{x});
      if multiset(xs) <= multiset(s) {
        assert multiset(p)[x] >= 1 by {
          assert multiset(init)[x] + 1 <= multiset(s)[x];
        }
        RemoveFirstCount(p, x);
      }
    }
  }

  /** Taking away two multisets one after the other is taking away their sum. */
  lemma DiffDiff<T>(a: multiset<T>, b: multiset<T>, c: multiset<T>)
    ensures a - b - c == a - (b + c)
  {
    assert forall y :: (a - b - c)[y] == (a - (b + c))[y];
  }

  lemma RemoveFirstNewestFirst(s: seq<Transaction>, x: Transaction)
    requires NewestFirst(s)
    ensures NewestFirst(RemoveFirst(s, x))
  {
    if x in s {
      var k := IndexOf(s, x);
      var r := s[..k] + s[k + 1..];
      forall i, j | 0 <= i < j < |r|
        ensures AtMost(r[j].date, r[i].date) && (r[i].date == r[j].date ==> r[i].id >= r[j].id)
      {
        var a := if i < k then i else i + 1;
        var b := if j < k then j else j + 1;
        assert r[i] == s[a] && r[j] == s[b] && a < b;
      }
    }
  }

  /** Removing transactions keeps the list newest first. */
  lemma {:induction false} RemoveEachNewestFirst(s: seq<Transaction>, xs: seq<Transaction>)
    requires NewestFirst(s)
    ensures NewestFirst(RemoveEach(s, xs))
  {
    if xs != [] {
      RemoveEachNewestFirst(s, xs[..|xs| - 1]);
      RemoveFirstNewestFirst(RemoveEach(s, xs[..|xs| - 1]), xs[|xs| - 1]);
    }
  }

  /** List.IndexOf over accounts, with Account.Equals: the first account equal
      to a, or -1. */
  function FindAccount(accs: seq<Account>, a: Account): (k: int)
    reads accs, a
    ensures -1 <= k < |accs|
    ensures 0 <= k ==> AccountEquals(accs[k], a)
    ensures forall j :: 0 <= j < |accs| && (k == -1 || j < k) ==> !AccountEquals(accs[j], a)
  {
    if accs == [] then -1
    else if AccountEquals(accs[0], a) then 0
    else var k := FindAccount(accs[1..], a); if k == -1 then -1 else k + 1
  }

  /** List.Remove over accounts. */
  function RemoveAccount(accs: seq<Account>, a: Account): (r: seq<Account>)
    reads accs, a
  {
    var k := FindAccount(accs, a);
    if k < 0 then accs else accs[..k] + accs[k + 1..]
  }

  /** An account held in the list is always found, since every account equals
      itself, so exactly one entry goes; an account equal to none stays out. */
  lemma RemoveAccountSpec(accs: seq<Account>, a: Account)
    ensures a in accs ==> |RemoveAccount(accs, a)| == |accs| - 1
    ensures a in accs ==> multiset(RemoveAccount(accs, a)) == multiset(accs) - multiset{accs[FindAccount(accs, a)]}
    ensures (forall b :: b in accs ==> !AccountEquals(b, a)) ==> RemoveAccount(accs, a) == accs
  {
    var k := FindAccount(accs, a);
    assert 0 <= k ==> accs[k] in accs;
    if a in accs {
      var i := IndexOf(accs, a);
      SameAccountSpec(DataOf(a), DataOf(a), DataOf(a));
      assert AccountEquals(accs[i], a);
      assert 0 <= k <= i;
      MultisetRemoveAt(accs, k);
    }
  }

  // ---------------------------------------------------------------------------
  // Ordering accounts and categories by name

  /** Sorting pairs by their text keys, ascending: a permutation whose keys
      come out in order. */
  lemma KeyedSortSpec<T>(p: seq<(string, T)>)
    ensures multiset(SortBy(p, KeyAscending)) == multiset(p)
    ensures multiset(Seconds(SortBy(p, KeyAscending))) == multiset(Seconds(p))
    ensures forall i, j :: 0 <= i < j < |p| ==> StrLe(SortBy(p, KeyAscending)[i].0, SortBy(p, KeyAscending)[j].0)
  {
    SortByPermutation(p, KeyAscending);
    SecondsSortBy(p, KeyAscending);
    FirstsSortBy(p, StrLe, KeyAscending);
    StrLeTotalPreorder();
    SortBySorted(Firsts(p), StrLe);
  }

  /** Each account paired with its name. */
  function AccountKeys(accs: seq<Account>): (r: seq<(string, Account)>)
    reads accs
    ensures |r| == |accs| && forall k :: 0 <= k < |accs| ==> r[k] == (accs[k].name, accs[k])
  {
    if accs == [] then [] else AccountKeys(accs[..|accs| - 1]) + [(accs[|accs| - 1].name, accs[|accs| - 1])]
  }

  /** OrderBy(account => account.Name): a stable sort by name. */
  function AccountsByName(accs: seq<Account>): seq<Account>
    reads accs
  {
    Seconds(SortBy(AccountKeys(accs), KeyAscending))
  }

  lemma AccountsByNameSpec(accs: seq<Account>)
    ensures multiset(AccountsByName(accs)) == multiset(accs)
    ensures forall i, j :: 0 <= i < j < |accs| ==> StrLe(AccountsByName(accs)[i].name, AccountsByName(accs)[j].name)
  {
    var p := AccountKeys(accs);
    KeyedSortSpec(p);
    assert Seconds(p) == accs;
    AccountKeysSorted(accs);
  }

  /** After sorting, each pair still carries its account's own name. */
  lemma AccountKeysSorted(accs: seq<Account>)
    ensures var s := SortBy(AccountKeys(accs), KeyAscending);
      forall i :: 0 <= i < |s| ==> s[i].0 == s[i].1.name && AccountsByName(accs)[i] == s[i].1
  {
    var p := AccountKeys(accs);
    var s := SortBy(p, KeyAscending);
    SortByPermutation(p, KeyAscending);
    forall i | 0 <= i < |s|
      ensures s[i].0 == s[i].1.name
    {
      assert s[i] in multiset(p);
    }
  }

  /** Each category paired with its name. */
  function CategoryKeys(cs: seq<Category>): (r: seq<(string, Category)>)
    reads cs
    ensures |r| == |cs| && forall k :: 0 <= k < |cs| ==> r[k] == (cs[k].name, cs[k])
  {
    if cs == [] then [] else CategoryKeys(cs[..|cs| - 1]) + [(cs[|cs| - 1].name, cs[|cs| - 1])]
  }

  /** OrderBy(category => category.Name): a stable sort by name. */
  function CategoriesByName(cs: seq<Category>): seq<Category>
    reads cs
  {
    Seconds(SortBy(CategoryKeys(cs), KeyAscending))
  }

  lemma CategoriesByNameSpec(cs: seq<Category>)
    ensures multiset(CategoriesByName(cs)) == multiset(cs)
    ensures forall i, j :: 0 <= i < j < |cs| ==> StrLe(CategoriesByName(cs)[i].name, CategoriesByName(cs)[j].name)
  {
    var p := CategoryKeys(cs);
    KeyedSortSpec(p);
    assert Seconds(p) == cs;
    CategoryKeysSorted(cs);
  }

  /** After sorting, each pair still carries its category's own name. */
  lemma CategoryKeysSorted(cs: seq<Category>)
    ensures var s := SortBy(CategoryKeys(cs), KeyAscending);
      forall i :: 0 <= i < |s| ==> s[i].0 == s[i].1.name && CategoriesByName(cs)[i] == s[i].1
  {
    var p := CategoryKeys(cs);
    var s := SortBy(p, KeyAscending);
    SortByPermutation(p, KeyAscending);
    forall i | 0 <= i < |s|
      ensures s[i].0 == s[i].1.name
    {
      assert s[i] in multiset(p);
    }
  }

  /** List.Find(category => category.Name == name), as an index: the first
      category with exactly that name, or -1. */
  function FindCategory(cs: seq<Category>, name: string): (k: int)
    reads cs
    ensures -1 <= k < |cs|
    ensures 0 <= k ==> cs[k].name == name
    ensures forall j :: 0 <= j < |cs| && (k == -1 || j < k) ==> cs[j].name != name
  {
    if cs == [] then -1
    else if cs[0].name == name then 0
    else var k := FindCategory(cs[1..], name); if k == -1 then -1 else k + 1
  }

  // ---------------------------------------------------------------------------
  // Ordering months

  /** OrderByDescending(month => month.FormattedMonth): a stable sort. */
  function MonthsNewestFirst(ms: seq<Month>): seq<Month>
    reads ms
    requires forall k :: 0 <= k < |ms| ==> Valid(ms[k].monthStart)
  {
    Seconds(SortBy(MonthKeys(ms), KeyDescending))
  }

  /** Sorting by the "yyyy/MM" text puts later months first and loses none. */
  lemma MonthsNewestFirstSpec(ms: seq<Month>)
    requires forall k :: 0 <= k < |ms| ==> Valid(ms[k].monthStart)
    ensures multiset(MonthsNewestFirst(ms)) == multiset(ms)
    ensures forall i, j :: 0 <= i < j < |ms| ==>
      MonthIndex(MonthsNewestFirst(ms)[j].monthStart) <= MonthIndex(MonthsNewestFirst(ms)[i].monthStart)
  {
    var p := MonthKeys(ms);
    var s := SortBy(p, KeyDescending);
    KeyedSortDescending(p);
    assert Seconds(p) == ms;
    forall i, j | 0 <= i < j < |ms|
      ensures MonthIndex(s[j].1.monthStart) <= MonthIndex(s[i].1.monthStart)
    {
      MonthKeyAt(ms, s, i);
      MonthKeyAt(ms, s, j);
      KeyedMonthOrder(s[i], s[j]);
    }
  }

  /** Sorting pairs by their text keys, descending: a permutation whose keys
      come out in decreasing order. */
  lemma KeyedSortDescending<T>(p: seq<(string, T)>)
    ensures multiset(SortBy(p, KeyDescending)) == multiset(p)
    ensures multiset(Seconds(SortBy(p, KeyDescending))) == multiset(Seconds(p))
    ensures forall i, j :: 0 <= i < j < |p| ==> StrLe(SortBy(p, KeyDescending)[j].0, SortBy(p, KeyDescending)[i].0)
  {
    SortByPermutation(p, KeyDescending);
    SecondsSortBy(p, KeyDescending);
    FirstsSortBy(p, Flip(StrLe), KeyDescending);
    StrLeTotalPreorder();
    FlipTotalPreorder(StrLe);
    SortBySorted(Firsts(p), Flip(StrLe));
    var s := SortBy(p, KeyDescending);
    forall i, j | 0 <= i < j < |p|
      ensures StrLe(s[j].0, s[i].0)
    {
      assert Flip(StrLe)(Firsts(s)[i], Firsts(s)[j]);
    }
  }

  /** A permutation of MonthKeys carries, at each place, a valid month and
      its own formatted text. */
  lemma MonthKeyAt(ms: seq<Month>, s: seq<(string, Month)>, i: int)
    requires forall k :: 0 <= k < |ms| ==> Valid(ms[k].monthStart)
    requires multiset(s) == multiset(MonthKeys(ms)) && 0 <= i < |s|
    ensures Valid(s[i].1.monthStart) && s[i].0 == FormatMonth(s[i].1.monthStart)
  {
    assert s[i] in multiset(MonthKeys(ms));
  }

  /** Two keyed months whose texts are in descending order are in descending
      month order. */
  lemma KeyedMonthOrder(x: (string, Month), y: (string, Month))
    requires Valid(x.1.monthStart) && x.0 == FormatMonth(x.1.monthStart)
    requires Valid(y.1.monthStart) && y.0 == FormatMonth(y.1.monthStart)
    requires StrLe(y.0, x.0)
    ensures MonthIndex(y.1.monthStart) <= MonthIndex(x.1.monthStart)
  {
    FormatMonthOrder(y.1.monthStart, x.1.monthStart);
  }


  /** The month buckets are consistent: each starts on the 1st and holds only
      transactions of its own month, and no two buckets cover one month. */
  ghost predicate Bucketed(ms: seq<Month>)
    reads ms
  {
    (forall m :: m in ms ==> BucketOk(m)) &&
    (forall m, n :: m in ms && n in ms && MonthIndex(m.monthStart) == MonthIndex(n.monthStart) ==> m == n)
  }

  /** One bucket starts on the 1st and holds only transactions of its month. */
  ghost predicate BucketOk(m: Month)
    reads m
  {
    Valid(m.monthStart) && m.monthStart.day == 1 &&
    forall u :: u in m.transactions ==> MonthIndex(u.date) == MonthIndex(m.monthStart)
  }

  /** The buckets the ledger builds are consistent. */
  lemma LoadedIsBucketed(ms: seq<Month>, ts: seq<Transaction>, now: Date)
    requires MonthsLoaded(ms, ts, now)
    ensures Bucketed(ms)
  {
    if ts != [] {
      forall m | m in ms
        ensures forall u :: u in m.transactions ==> MonthIndex(u.date) == MonthIndex(m.monthStart)
      {
        forall u | u in m.transactions
          ensures MonthIndex(u.date) == MonthIndex(m.monthStart)
        {
          assert u in multiset(m.transactions);
          FilterMembership(ts, InMonthOf(m.monthStart), u);
        }
      }
    }
  }

  /** Any/Find and the else branch of AddFinancialTransaction: the transaction
      goes to the first month whose range holds its date, or else to a new
      month starting on the 1st of its month, added at the end. */
  method PlaceTransaction(ms: seq<Month>, t: Transaction) returns (r: seq<Month>, k: int)
    requires forall k :: 0 <= k < |ms| ==> Valid(ms[k].monthStart)
    requires Valid(t.date)
    modifies ms
    ensures k == old(FindMonth(ms, t.date))
    ensures forall m :: m in ms ==> m.monthStart == old(m.monthStart)
    ensures k >= 0 ==> r == ms && ms[k].transactions == SortTransactions(old(ms[k].transactions) + [t])
    ensures k >= 0 ==> forall n :: n in ms && n != ms[k] ==> n.transactions == old(n.transactions)
    ensures k < 0 ==> |r| == |ms| + 1 && r[..|ms|] == ms
    ensures k < 0 ==> forall n :: n in ms ==> n.transactions == old(n.transactions)
    ensures k < 0 ==> fresh(r[|ms|]) && r[|ms|].monthStart == FirstOfMonth(t.date) && r[|ms|].transactions == [t]
    ensures forall k :: 0 <= k < |r| ==> Valid(r[k].monthStart)
    ensures exists m :: m in r && t in m.transactions && MonthIndex(m.monthStart) == MonthIndex(t.date)
    ensures old(Bucketed(ms)) ==> Bucketed(r)
  {
    k := FindMonth(ms, t.date);
    if k >= 0 {
      AddToFoundMonth(ms, k, t);
      r := ms;
    } else {
      var m := StartMonth(ms, t);
      r := ms + [m];
    }
  }

  /** The Find branch: the found month takes the transaction. */
  method AddToFoundMonth(ms: seq<Month>, k: nat, t: Transaction)
    requires k < |ms| && Valid(ms[k].monthStart) && Valid(t.date) && InMonth(ms[k].monthStart, t.date)
    modifies ms[k]
    ensures ms[k].monthStart == old(ms[k].monthStart)
    ensures ms[k].transactions == SortTransactions(old(ms[k].transactions) + [t])
    ensures t in ms[k].transactions && MonthIndex(ms[k].monthStart) == MonthIndex(t.date)
    ensures old(Bucketed(ms)) ==> Bucketed(ms)
  {
    var m := ms[k];
    InMonthRange(m.monthStart, t.date);
    ghost var before := m.transactions;
    ghost var was := Bucketed(ms);
    m.AddTransaction(t);
    assert t in multiset(m.transactions);
    if was {
      assert old(BucketOk(m));
      InMonthAfterAdd(m.monthStart, before, m.transactions, t);
      forall n | n in ms
        ensures BucketOk(n) && n.monthStart == old(n.monthStart)
      {
        if n != m {
          assert old(BucketOk(n));
        }
      }
    }
  }

  /** A bucket that held only its month's transactions still does once a
      transaction of that month joins them. */
  lemma InMonthAfterAdd(start: Date, before: seq<Transaction>, after: seq<Transaction>, t: Transaction)
    requires forall u :: u in before ==> MonthIndex(u.date) == MonthIndex(start)
    requires MonthIndex(t.date) == MonthIndex(start)
    requires multiset(after) == multiset(before) + multiset{t}
    ensures forall u :: u in after ==> MonthIndex(u.date) == MonthIndex(start)
  {
    forall u | u in after
      ensures MonthIndex(u.date) == MonthIndex(start)
    {
      assert u in multiset(after);
      if u != t {
        assert u in multiset(before);
      }
    }
  }

  /** The else branch: a new month on the 1st of the transaction's month,
      holding just that transaction. */
  method StartMonth(ms: seq<Month>, t: Transaction) returns (m: Month)
    requires Valid(t.date)
    requires forall k :: 0 <= k < |ms| ==> Valid(ms[k].monthStart) && !InMonth(ms[k].monthStart, t.date)
    ensures fresh(m) && m.monthStart == FirstOfMonth(t.date) && m.transactions == [t]
    ensures Bucketed(ms) ==> Bucketed(ms + [m])
  {
    m := new Month(FirstOfMonth(t.date), []);
    m.AddTransaction(t);
    assert [] + [t] == [t];
    SortTransactionsOfSorted([t]);
    if Bucketed(ms) {
      BucketedWithNew(ms, m, t);
    }
  }

  lemma BucketedWithNew(ms: seq<Month>, m: Month, t: Transaction)
    requires Bucketed(ms) && Valid(t.date)
    requires forall k :: 0 <= k < |ms| ==> Valid(ms[k].monthStart) && !InMonth(ms[k].monthStart, t.date)
    requires m !in ms && m.monthStart == FirstOfMonth(t.date) && m.transactions == [t]
    ensures Bucketed(ms + [m])
  {
    forall n | n in ms
      ensures MonthIndex(n.monthStart) != MonthIndex(t.date)
    {
      var k :| 0 <= k < |ms| && ms[k] == n;
      InMonthRange(n.monthStart, t.date);
    }
  }

  // ---------------------------------------------------------------------------
  // The operations

  /** Adds the account, re-sorts the accounts by name, adds the account's first
      transaction to the ledger and re-sorts that newest first. */
  method AddAccount(f: Finances, newAccount: Account, dbOk: bool) returns (success: bool)
    requires dbOk ==> newAccount.transactions != []
    modifies f
    ensures success == dbOk
    ensures !dbOk ==> unchanged(f)
    ensures dbOk ==> f.accounts == AccountsByName(old(f.accounts) + [newAccount])
    ensures dbOk ==> f.transactions == SortTransactions(old(f.transactions) + [newAccount.transactions[0]])
    ensures f.accountTypes == old(f.accountTypes) && f.categories == old(f.categories)
    ensures f.months == old(f.months) && f.years == old(f.years)
  {
    success := false;
    if dbOk {
      f.accounts := AccountsByName(f.accounts + [newAccount]);
      f.transactions := SortTransactions(f.transactions + [newAccount.transactions[0]]);
      success := true;
    }
  }

  /** Removes each of the account's transactions from the ledger, then the
      account itself. */
  method DeleteAccount(f: Finances, account: Account, dbOk: bool) returns (success: bool)
    modifies f
    ensures success == dbOk
    ensures !dbOk ==> unchanged(f)
    ensures dbOk ==> f.transactions == RemoveEach(old(f.transactions), account.transactions)
    ensures dbOk ==> f.accounts == old(RemoveAccount(f.accounts, account))
    ensures f.accountTypes == old(f.accountTypes) && f.categories == old(f.categories)
    ensures f.months == old(f.months) && f.years == old(f.years)
  {
    success := false;
    if dbOk {
      var remaining := RemoveAccount(f.accounts, account);
      RemoveTransactionsOf(f, account.transactions);
      f.accounts := remaining;
      success := true;
    }
  }

  /** The foreach of DeleteAccount: List.Remove on the ledger for each of xs in turn. */
  method RemoveTransactionsOf(f: Finances, xs: seq<Transaction>)
    modifies f`transactions
    ensures f.transactions == RemoveEach(old(f.transactions), xs)
  {
    var i := 0;
    while i < |xs|
      invariant 0 <= i <= |xs|
      invariant f.transactions == RemoveEach(old(f.transactions), xs[..i])
    {
      assert xs[..i + 1][..i] == xs[..i];
      f.transactions := RemoveFirst(f.transactions, xs[i]);
      i := i + 1;
    }
    assert xs[..i] == xs;
  }

  /** Renames the account and moves every transaction of the ledger that was on
      the old name to the new one. */
  method RenameAccount(f: Finances, account: Account, newName: string, dbOk: bool) returns (success: bool)
    modifies f, account
    ensures success == dbOk
    ensures !dbOk ==> unchanged(f) && unchanged(account)
    ensures dbOk ==> account.name == newName
    ensures account.accountType == old(account.accountType) && account.transactions == old(account.transactions)
    ensures dbOk ==> f.transactions == ApplyAll(Relabel(old(account.name), newName), old(f.transactions))
    ensures f.accounts == old(f.accounts) && f.accountTypes == old(f.accountTypes) && f.categories == old(f.categories)
    ensures f.months == old(f.months) && f.years == old(f.years)
  {
    success := false;
    var oldName := account.name;
    if dbOk {
      account.name := newName;
      f.transactions := FixUp(Relabel(oldName, newName), f.transactions);
      success := true;
    }
  }

  /** Adds a new empty major category, or appends the name to the selected
      category's minor list (unsorted); then re-sorts the categories by name. */
  method AddCategory(f: Finances, selected: Category, newName: string, isMajor: bool, dbOk: bool) returns (success: bool)
    modifies f, selected
    ensures success == dbOk
    ensures !dbOk ==> unchanged(f) && unchanged(selected)
    ensures dbOk && isMajor ==> unchanged(selected)
    ensures dbOk && isMajor ==>
      exists c: Category :: fresh(c) && c.name == newName && c.minors == [] &&
        f.categories == CategoriesByName(old(f.categories) + [c])
    ensures dbOk && !isMajor ==> selected.name == old(selected.name) && selected.minors == old(selected.minors) + [newName]
    ensures dbOk && !isMajor ==> f.categories == CategoriesByName(old(f.categories))
    ensures f.accounts == old(f.accounts) && f.accountTypes == old(f.accountTypes) && f.transactions == old(f.transactions)
    ensures f.months == old(f.months) && f.years == old(f.years)
  {
    success := false;
    if dbOk {
      if isMajor {
        var c := new Category(newName, []);
        f.categories := f.categories + [c];
      } else {
        selected.minors := selected.minors + [newName];
      }
      SortCategories(f);
      success := true;
    }
  }

  /** Renames the category found by the selected one's name (a major rename)
      or swaps the old minor name for the new one at the end of its list (a
      minor rename), then re-sorts the categories by name. The transactions
      are left as they are: the Select over them is computed and dropped. */
  method RenameCategory(f: Finances, selected: Category, newName: string, oldName: string, isMajor: bool, dbOk: bool)
    returns (success: bool)
    requires dbOk ==> FindCategory(f.categories, selected.name) >= 0
    modifies f, f.categories
    ensures success == dbOk
    ensures f.transactions == old(f.transactions)
    ensures f.accounts == old(f.accounts) && f.accountTypes == old(f.accountTypes)
    ensures f.months == old(f.months) && f.years == old(f.years)
    ensures !dbOk ==> unchanged(f) && forall c :: c in f.categories ==> unchanged(c)
    ensures dbOk ==> var c := old(f.categories[FindCategory(f.categories, selected.name)]);
      (isMajor ==> c.name == newName && c.minors == old(c.minors)) &&
      (!isMajor ==> c.name == old(c.name) && c.minors == RemoveFirst(old(c.minors), oldName) + [newName]) &&
      (forall d :: d in old(f.categories) && d != c ==> d.name == old(d.name) && d.minors == old(d.minors)) &&
      f.categories == CategoriesByName(old(f.categories))
  {
    success := false;
    if dbOk {
      var c := f.categories[FindCategory(f.categories, selected.name)];
      if isMajor {
        c.name := newName;
      } else {
        c.minors := RemoveFirst(c.minors, oldName) + [newName];
      }
      SortCategories(f);
      success := true;
    }
  }

  /** Clears the major and minor category of every transaction filed under the
      selected major, then removes the first category with that name, if any. */
  method RemoveMajorCategory(f: Finances, selected: Category, dbOk: bool) returns (success: bool)
    modifies f
    ensures success == dbOk
    ensures !dbOk ==> unchanged(f)
    ensures dbOk ==> f.transactions == ApplyAll(ClearMajor(selected.name), old(f.transactions))
    ensures dbOk ==> var k := old(FindCategory(f.categories, selected.name));
      (k < 0 ==> f.categories == old(f.categories)) &&
      (k >= 0 ==> f.categories == old(f.categories[..k] + f.categories[k + 1..]))
    ensures f.accounts == old(f.accounts) && f.accountTypes == old(f.accountTypes)
    ensures f.months == old(f.months) && f.years == old(f.years)
  {
    success := false;
    if dbOk {
      RemoveFoundCategory(f, selected.name);
      f.transactions := FixUp(ClearMajor(selected.name), f.transactions);
      success := true;
    }
  }

  /** AllCategories.Remove(AllCategories.Find(c => c.Name == name)): the
      first category with the name goes, when there is one. */
  method RemoveFoundCategory(f: Finances, name: string)
    modifies f
    ensures var k := old(FindCategory(f.categories, name));
      (k < 0 ==> f.categories == old(f.categories)) &&
      (k >= 0 ==> f.categories == old(f.categories[..k] + f.categories[k + 1..]))
    ensures f.accounts == old(f.accounts) && f.accountTypes == old(f.accountTypes) && f.transactions == old(f.transactions)
    ensures f.months == old(f.months) && f.years == old(f.years)
  {
    var cs := f.categories;
    var k := FindCategory(cs, name);
    if k >= 0 {
      RemoveFirstAt(cs, k);
      f.categories := RemoveFirst(cs, cs[k]);
    }
  }

  /** AllCategories = AllCategories.OrderBy(category => category.Name). */
  method SortCategories(f: Finances)
    modifies f
    ensures f.categories == CategoriesByName(old(f.categories))
    ensures multiset(f.categories) == multiset(old(f.categories))
    ensures forall i, j :: 0 <= i < j < |f.categories| ==> StrLe(f.categories[i].name, f.categories[j].name)
    ensures f.accounts == old(f.accounts) && f.accountTypes == old(f.accountTypes) && f.transactions == old(f.transactions)
    ensures f.months == old(f.months) && f.years == old(f.years)
  {
    CategoriesByNameSpec(f.categories);
    f.categories := CategoriesByName(f.categories);
  }

  /** List.Remove of the element found at k removes that very entry. */
  lemma RemoveFirstAt<T>(s: seq<T>, k: nat)
    requires k < |s| && forall j :: 0 <= j < k ==> s[j] != s[k]
    ensures RemoveFirst(s, s[k]) == s[..k] + s[k + 1..]
  {
    var i := IndexOf(s, s[k]);
    assert s[k] in s[..k + 1];
  }

  /** Clears the minor category of every transaction filed under the selected
      major and that minor, then removes the minor from the category found by
      the selected one's name. */
  method RemoveMinorCategory(f: Finances, selected: Category, minor: string, dbOk: bool) returns (success: bool)
    requires dbOk ==> FindCategory(f.categories, selected.name) >= 0
    modifies f, f.categories
    ensures success == dbOk
    ensures !dbOk ==> unchanged(f) && forall c :: c in f.categories ==> unchanged(c)
    ensures dbOk ==> f.transactions == ApplyAll(ClearMinor(old(selected.name), minor), old(f.transactions))
    ensures dbOk ==> var c := old(f.categories[FindCategory(f.categories, selected.name)]);
      c.name == old(c.name) && c.minors == RemoveFirst(old(c.minors), minor) &&
      forall d :: d in old(f.categories) && d != c ==> d.name == old(d.name) && d.minors == old(d.minors)
    ensures f.categories == old(f.categories) && f.accounts == old(f.accounts) && f.accountTypes == old(f.accountTypes)
    ensures f.months == old(f.months) && f.years == old(f.years)
  {
    success := false;
    if dbOk {
      f.transactions := FixUp(ClearMinor(selected.name, minor), f.transactions);
      var c := f.categories[FindCategory(f.categories, selected.name)];
      c.minors := RemoveFirst(c.minors, minor);
      success := true;
    }
  }

  /** Puts the transaction into the month bucket that holds its date, creating
      that month if there is none, then orders the months newest first. */
  method AddFinancialTransaction(f: Finances, t: Transaction, dbOk: bool) returns (success: bool)
    requires forall k :: 0 <= k < |f.months| ==> Valid(f.months[k].monthStart)
    requires Valid(t.date)
    modifies f, f.months
    ensures success == dbOk
    ensures f.accounts == old(f.accounts) && f.accountTypes == old(f.accountTypes) && f.categories == old(f.categories)
    ensures f.transactions == old(f.transactions) && f.years == old(f.years)
    ensures !dbOk ==> f.months == old(f.months) && forall m :: m in f.months ==> unchanged(m)
    ensures forall m :: m in old(f.months) ==> m.monthStart == old(m.monthStart)
    ensures dbOk ==> forall i, j :: 0 <= i < j < |f.months| ==>
      MonthIndex(f.months[j].monthStart) <= MonthIndex(f.months[i].monthStart)
    ensures dbOk && old(FindMonth(f.months, t.date)) >= 0 ==>
      multiset(f.months) == multiset(old(f.months)) &&
      var m := old(f.months[FindMonth(f.months, t.date)]);
      m.transactions == SortTransactions(old(m.transactions) + [t]) &&
      forall n :: n in old(f.months) && n != m ==> n.transactions == old(n.transactions)
    ensures dbOk && old(FindMonth(f.months, t.date)) < 0 ==>
      (forall n :: n in old(f.months) ==> n.transactions == old(n.transactions)) &&
      exists m: Month :: fresh(m) && m.monthStart == FirstOfMonth(t.date) && m.transactions == [t] &&
        multiset(f.months) == multiset(old(f.months)) + multiset{m}
    ensures dbOk ==> exists m :: m in f.months && t in m.transactions && MonthIndex(m.monthStart) == MonthIndex(t.date)
    ensures dbOk && old(Bucketed(f.months)) ==> Bucketed(f.months)
  {
    success := false;
    if dbOk {
      var r := AddToMonths(f.months, t);
      f.months := r;
      success := true;
    }
  }

  /** The month list after AddFinancialTransaction's in-memory step. */
  method AddToMonths(ms: seq<Month>, t: Transaction) returns (r: seq<Month>)
    requires forall k :: 0 <= k < |ms| ==> Valid(ms[k].monthStart)
    requires Valid(t.date)
    modifies ms
    ensures forall m :: m in ms ==> m.monthStart == old(m.monthStart)
    ensures forall i, j :: 0 <= i < j < |r| ==> MonthIndex(r[j].monthStart) <= MonthIndex(r[i].monthStart)
    ensures old(FindMonth(ms, t.date)) >= 0 ==>
      multiset(r) == multiset(ms) &&
      var m := ms[old(FindMonth(ms, t.date))];
      m.transactions == SortTransactions(old(m.transactions) + [t]) &&
      forall n :: n in ms && n != m ==> n.transactions == old(n.transactions)
    ensures old(FindMonth(ms, t.date)) < 0 ==>
      (forall n :: n in ms ==> n.transactions == old(n.transactions)) &&
      exists m: Month :: fresh(m) && m.monthStart == FirstOfMonth(t.date) && m.transactions == [t] &&
        multiset(r) == multiset(ms) + multiset{m}
    ensures exists m :: m in r && t in m.transactions && MonthIndex(m.monthStart) == MonthIndex(t.date)
    ensures old(Bucketed(ms)) ==> Bucketed(r)
  {
    var placed, k := PlaceTransaction(ms, t);
    if k < 0 {
      assert placed == ms + [placed[|ms|]];
    }
    ghost var home :| home in placed && t in home.transactions && MonthIndex(home.monthStart) == MonthIndex(t.date);
    MonthsNewestFirstSpec(placed);
    BucketedPermutation(placed, MonthsNewestFirst(placed));
    r := MonthsNewestFirst(placed);
    assert home in multiset(placed);
    assert home in r;
  }

  /** Consistency of the buckets does not depend on their order. */
  lemma BucketedPermutation(a: seq<Month>, b: seq<Month>)
    requires multiset(a) == multiset(b)
    ensures Bucketed(a) ==> Bucketed(b)
  {
    assert forall m :: m in b ==> m in multiset(a);
  }
}
