/** The per-category monthly report: for every category except Transfer a
    summary row (the category name with an empty minor name) and one row per
    minor category, each adding up the outflow and inflow of the month's
    transactions filed under it, listed by major, then minor name. */
module Reports {
  import opened Seqs
  import opened Sorting
  import opened Text
  import opened Transactions
  import opened Categories
  import opened Months

  /** A report row at one moment: the two category names, the stored expense
      total (the Expenses getter shows its negation) and the income total. */
  datatype ExpenseRow = ExpenseRow(major: string, minor: string, stored: int, income: int)

  /** What the Expenses getter shows: the stored total, negated. */
  function ShownExpenses(r: ExpenseRow): int
  {
    -r.stored
  }

  function RowMajor(r: ExpenseRow): string
  {
    r.major
  }

  function RowMinor(r: ExpenseRow): string
  {
    r.minor
  }

  function RowIncome(r: ExpenseRow): int
  {
    r.income
  }

  function RowStored(r: ExpenseRow): int
  {
    r.stored
  }

  /** AddTransactionValues on a row: the expenses go into the stored total, so
      the shown Expenses fall by them, and the income into Income. */
  function AddValues(r: ExpenseRow, expenses: int, income: int): (q: ExpenseRow)
    ensures q.major == r.major && q.minor == r.minor
    ensures ShownExpenses(q) == ShownExpenses(r) - expenses && q.income == r.income + income
  {
    ExpenseRow(r.major, r.minor, r.stored + expenses, r.income + income)
  }

  /** Adding values twice is adding their totals once, in either order. */
  lemma AddValuesAccumulate(r: ExpenseRow, e1: int, i1: int, e2: int, i2: int)
    ensures AddValues(AddValues(r, e1, i1), e2, i2) == AddValues(r, e1 + e2, i1 + i2)
    ensures AddValues(AddValues(r, e1, i1), e2, i2) == AddValues(AddValues(r, e2, i2), e1, i1)
  {
  }

  /** ToString: "<major> - <minor>". */
  function RowName(r: ExpenseRow): (s: string)
    ensures |s| == |r.major| + 3 + |r.minor|
    ensures s[..|r.major|] == r.major && s[|r.major|..|r.major| + 3] == " - " && s[|r.major| + 3..] == r.minor
  {
    r.major + " - " + r.minor
  }

  /** The copy constructor as written: it hands the shown (negated) Expenses to
      the four-value constructor, which stores them as they come. */
  function CopyAsWritten(r: ExpenseRow): (c: ExpenseRow)
    ensures c.major == r.major && c.minor == r.minor && c.income == r.income
    ensures ShownExpenses(c) == -ShownExpenses(r)
  {
    ExpenseRow(r.major, r.minor, ShownExpenses(r), r.income)
  }

  /** A row with 5.00 of expenses whose copy shows -5.00 of them. */
  lemma CopyAsWrittenFlipsSign()
    ensures ShownExpenses(ExpenseRow("Food", "", 500, 0)) == -500
    ensures ShownExpenses(CopyAsWritten(ExpenseRow("Food", "", 500, 0))) == 500
  {
  }

  /** The copy as evidently intended: the same names and totals. */
  function Copy(r: ExpenseRow): (c: ExpenseRow)
    ensures c == r
  {
    ExpenseRow(r.major, r.minor, r.stored, r.income)
  }

  /** The written copy agrees with the intended one exactly when there are no expenses. */
  lemma CopyAsWrittenWrongUnlessZero(r: ExpenseRow)
    ensures CopyAsWritten(r) == Copy(r) <==> r.stored == 0
    ensures ShownExpenses(Copy(r)) == ShownExpenses(r)
  {
  }

  /** One row of the categorized report. */
  class CategorizedExpense {
    var major: string
    var minor: string
    var stored: int
    var income: int

    /** Stores the names and both totals as given; Expenses then shows the negated amount. */
    constructor (major: string, minor: string, expenses: int, income: int)
      ensures Row() == ExpenseRow(major, minor, expenses, income)
      ensures Expenses() == -expenses && this.income == income
    {
      this.major := major;
      this.minor := minor;
      this.stored := expenses;
      this.income := income;
    }

    /** The copy constructor, as written. */
    constructor CopyOf(other: CategorizedExpense)
      ensures Row() == CopyAsWritten(other.Row())
      ensures Expenses() == -other.Expenses()
    {
      major := other.major;
      minor := other.minor;
      stored := other.Expenses();
      income := other.income;
    }

    function Row(): ExpenseRow
      reads this
    {
      ExpenseRow(major, minor, stored, income)
    }

    /** The Expenses getter. */
    function Expenses(): int
      reads this
    {
      ShownExpenses(Row())
    }

    method AddTransactionValues(expenses: int, income: int)
      modifies this
      ensures Row() == AddValues(old(Row()), expenses, income)
      ensures Expenses() == old(Expenses()) - expenses && this.income == old(this.income) + income
    {
      stored := stored + expenses;
      this.income := this.income + income;
    }

    function ToString(): (s: string)
      reads this
      ensures s == RowName(Row())
    {
      major + " - " + minor
    }
  }

  // ------------------------------------------------------------ the layout

  /** The zero rows of one category's minors, in list order. */
  function MinorRows(name: string, minors: seq<string>): (r: seq<ExpenseRow>)
    ensures |r| == |minors|
    ensures forall k :: 0 <= k < |r| ==> r[k] == ExpenseRow(name, minors[k], 0, 0)
  {
    if minors == [] then [] else MinorRows(name, minors[..|minors| - 1]) + [ExpenseRow(name, minors[|minors| - 1], 0, 0)]
  }

  /** The zero rows of one category: none for Transfer, otherwise its summary
      row and then its minor rows. */
  function CategoryRows(name: string, minors: seq<string>): seq<ExpenseRow>
  {
    if name == TransferCategory then [] else [ExpenseRow(name, "", 0, 0)] + MinorRows(name, minors)
  }

  /** The rows the report starts from, category by category. */
  function Skeleton(cats: seq<Category>): (r: seq<ExpenseRow>)
    reads cats
    ensures forall k :: 0 <= k < |r| ==> r[k].stored == 0 && r[k].income == 0 && r[k].major != TransferCategory
  {
    if cats == [] then []
    else Skeleton(cats[..|cats| - 1]) + CategoryRows(cats[|cats| - 1].name, cats[|cats| - 1].minors)
  }

  /** Every category other than Transfer has its summary row and a row per
      minor among the starting rows. */
  lemma {:induction false} SkeletonHasRows(cats: seq<Category>, i: nat, m: string)
    requires i < |cats| && cats[i].name != TransferCategory
    ensures ExpenseRow(cats[i].name, "", 0, 0) in Skeleton(cats)
    ensures m in cats[i].minors ==> ExpenseRow(cats[i].name, m, 0, 0) in Skeleton(cats)
  {
    var n := |cats| - 1;
    var name, minors := cats[n].name, cats[n].minors;
    var front, rows := Skeleton(cats[..n]), CategoryRows(name, minors);
    assert Skeleton(cats) == front + rows;
    var summary, minor := ExpenseRow(cats[i].name, "", 0, 0), ExpenseRow(cats[i].name, m, 0, 0);
    if i < n {
      assert cats[..n][i] == cats[i];
      SkeletonHasRows(cats[..n], i, m);
      assert summary in front;
      assert m in cats[i].minors ==> minor in front;
    } else {
      CategoryRowsHas(name, minors, m);
      assert summary in rows;
      assert m in cats[i].minors ==> minor in rows;
    }
  }

  /** The rows of a category other than Transfer hold its summary row and a
      row per minor. */
  lemma CategoryRowsHas(name: string, minors: seq<string>, m: string)
    requires name != TransferCategory
    ensures ExpenseRow(name, "", 0, 0) in CategoryRows(name, minors)
    ensures m in minors ==> ExpenseRow(name, m, 0, 0) in CategoryRows(name, minors)
  {
    var rows := CategoryRows(name, minors);
    assert rows[0] == ExpenseRow(name, "", 0, 0);
    if m in minors {
      var k :| 0 <= k < |minors| && minors[k] == m;
      assert rows[k + 1] == ExpenseRow(name, m, 0, 0);
    }
  }

  /** List.Find over the rows: the first with these two names, or -1. */
  function FindRow(rows: seq<ExpenseRow>, major: string, minor: string): (k: int)
    ensures -1 <= k < |rows|
    ensures 0 <= k ==> rows[k].major == major && rows[k].minor == minor
    ensures forall j :: 0 <= j < |rows| && (k == -1 || j < k) ==> !(rows[j].major == major && rows[j].minor == minor)
  {
    if rows == [] then -1
    else if rows[0].major == major && rows[0].minor == minor then 0
    else
      var k := FindRow(rows[1..], major, minor);
      if k == -1 then -1 else k + 1
  }

  /** Two row lists with the same names in the same places. */
  predicate SameLabels(a: seq<ExpenseRow>, b: seq<ExpenseRow>)
  {
    |a| == |b| && forall i :: 0 <= i < |a| ==> a[i].major == b[i].major && a[i].minor == b[i].minor
  }

  lemma {:induction false} FindRowSameLabels(a: seq<ExpenseRow>, b: seq<ExpenseRow>, major: string, minor: string)
    requires SameLabels(a, b)
    ensures FindRow(a, major, minor) == FindRow(b, major, minor)
  {
    if a != [] {
      FindRowSameLabels(a[1..], b[1..], major, minor);
    }
  }

  /** Both rows a transaction is added to exist: the source's Find would
      return null otherwise. */
  predicate Finds(rows: seq<ExpenseRow>, ts: seq<Transaction>)
  {
    forall t :: t in ts && NotTransfer(t) ==> FindRow(rows, t.major, t.minor) >= 0 && FindRow(rows, t.major, "") >= 0
  }

  /** Every transaction that counts is filed under a listed category and,
      when it has a minor name, under one of that category's minors. */
  predicate Listed(cats: seq<Category>, ts: seq<Transaction>)
    reads cats
  {
    forall t :: t in ts && NotTransfer(t) ==>
      exists i :: 0 <= i < |cats| && cats[i].name == t.major && (t.minor == "" || t.minor in cats[i].minors)
  }

  lemma ListedFinds(cats: seq<Category>, ts: seq<Transaction>)
    requires Listed(cats, ts)
    ensures Finds(Skeleton(cats), ts)
  {
    var rows := Skeleton(cats);
    forall t | t in ts && NotTransfer(t)
      ensures FindRow(rows, t.major, t.minor) >= 0 && FindRow(rows, t.major, "") >= 0
    {
      var i :| 0 <= i < |cats| && cats[i].name == t.major && (t.minor == "" || t.minor in cats[i].minors);
      SkeletonHasRows(cats, i, t.minor);
      var r := ExpenseRow(t.major, t.minor, 0, 0);
      var s := ExpenseRow(t.major, "", 0, 0);
      assert r in rows && s in rows;
      var a :| 0 <= a < |rows| && rows[a] == r;
      var b :| 0 <= b < |rows| && rows[b] == s;
    }
  }

  // ------------------------------------------------------------ the tally

  /** One pass of the transaction loop: a transaction outside Transfer adds
      its outflow and inflow to its (major, minor) row, then to its major's
      summary row. */
  function Post(rows: seq<ExpenseRow>, t: Transaction): (r: seq<ExpenseRow>)
    requires Finds(rows, [t])
    ensures SameLabels(r, rows)
  {
    assert t in [t];
    if !NotTransfer(t) then rows
    else
      var k := FindRow(rows, t.major, t.minor);
      var once := rows[k := AddValues(rows[k], t.outflow, t.inflow)];
      FindRowSameLabels(once, rows, t.major, "");
      var j := FindRow(once, t.major, "");
      once[j := AddValues(once[j], t.outflow, t.inflow)]
  }

  /** The rows after the transaction loop has run over ts. */
  function Tally(rows: seq<ExpenseRow>, ts: seq<Transaction>): (r: seq<ExpenseRow>)
    requires Finds(rows, ts)
    ensures SameLabels(r, rows)
  {
    if ts == [] then rows
    else
      var n := |ts| - 1;
      assert forall t :: t in ts[..n] ==> t in ts;
      var prev := Tally(rows, ts[..n]);
      assert ts[n] in ts;
      FindRowSameLabels(prev, rows, ts[n].major, ts[n].minor);
      FindRowSameLabels(prev, rows, ts[n].major, "");
      Post(prev, ts[n])
  }

  /** Transfer transactions contribute nothing: the tally over the list is
      the tally over its other transactions. */
  lemma {:induction false} TallyIgnoresTransfers(rows: seq<ExpenseRow>, ts: seq<Transaction>)
    requires Finds(rows, ts)
    ensures Finds(rows, Filter(ts, NotTransfer))
    ensures Tally(rows, Filter(ts, NotTransfer)) == Tally(rows, ts)
  {
    forall t | t in Filter(ts, NotTransfer)
      ensures t in ts
    {
      FilterMembership(ts, NotTransfer, t);
    }
    if ts != [] {
      var n := |ts| - 1;
      assert ts == ts[..n] + [ts[n]];
      assert forall t :: t in ts[..n] ==> t in ts;
      TallyIgnoresTransfers(rows, ts[..n]);
      FilterSnoc(ts[..n], ts[n], NotTransfer);
      var f := Filter(ts[..n], NotTransfer);
      if NotTransfer(ts[n]) {
        assert Filter(ts, NotTransfer) == f + [ts[n]];
        assert (f + [ts[n]])[..|f|] == f;
      } else {
        assert Filter(ts, NotTransfer) == f;
        assert Tally(rows, ts) == Tally(rows, ts[..n]);
      }
    }
  }

  /** The income a row adds to the summary total: its own for a summary row, none otherwise. */
  function SummaryIncome(r: ExpenseRow): int
  {
    if r.minor == "" then r.income else 0
  }

  function SummaryStored(r: ExpenseRow): int
  {
    if r.minor == "" then r.stored else 0
  }

  /** Every transaction outside Transfer names a minor category. */
  predicate HaveMinors(ts: seq<Transaction>)
  {
    forall t :: t in ts && NotTransfer(t) ==> t.minor != ""
  }

  lemma PostSummaryTotals(rows: seq<ExpenseRow>, t: Transaction)
    requires Finds(rows, [t]) && HaveMinors([t])
    ensures SumOf(Post(rows, t), SummaryIncome) == SumOf(rows, SummaryIncome) + CountedInflow(t)
    ensures SumOf(Post(rows, t), SummaryStored) == SumOf(rows, SummaryStored) + CountedOutflow(t)
  {
    assert t in [t];
    if NotTransfer(t) {
      var k := FindRow(rows, t.major, t.minor);
      var once := rows[k := AddValues(rows[k], t.outflow, t.inflow)];
      SumOfUpdate(rows, k, AddValues(rows[k], t.outflow, t.inflow), SummaryIncome);
      SumOfUpdate(rows, k, AddValues(rows[k], t.outflow, t.inflow), SummaryStored);
      FindRowSameLabels(once, rows, t.major, "");
      var j := FindRow(once, t.major, "");
      SumOfUpdate(once, j, AddValues(once[j], t.outflow, t.inflow), SummaryIncome);
      SumOfUpdate(once, j, AddValues(once[j], t.outflow, t.inflow), SummaryStored);
    }
  }

  /** When every counted transaction names a minor, the summary rows gain
      exactly the month's income and expenses. */
  lemma {:induction false} SummaryTotals(rows: seq<ExpenseRow>, ts: seq<Transaction>)
    requires Finds(rows, ts) && HaveMinors(ts)
    ensures SumOf(Tally(rows, ts), SummaryIncome) == SumOf(rows, SummaryIncome) + IncomeOf(ts)
    ensures SumOf(Tally(rows, ts), SummaryStored) == SumOf(rows, SummaryStored) + ExpensesOf(ts)
  {
    if ts != [] {
      var n := |ts| - 1;
      assert ts == ts[..n] + [ts[n]];
      assert forall t :: t in ts[..n] ==> t in ts;
      assert ts[n] in ts;
      SummaryTotals(rows, ts[..n]);
      var prev := Tally(rows, ts[..n]);
      FindRowSameLabels(prev, rows, ts[n].major, ts[n].minor);
      FindRowSameLabels(prev, rows, ts[n].major, "");
      PostSummaryTotals(prev, ts[n]);
      SumOfAppend(ts[..n], [ts[n]], CountedInflow);
      SumOfAppend(ts[..n], [ts[n]], CountedOutflow);
      assert [ts[n]][1..] == [];
    }
  }

  /** The minor rows of major m. */
  function MinorOf(m: string): ExpenseRow -> bool
  {
    (r: ExpenseRow) => r.major == m && r.minor != ""
  }

  /** Each major's (first) summary row holds the totals of that major's minor rows. */
  ghost predicate Balanced(rows: seq<ExpenseRow>)
  {
    forall j :: 0 <= j < |rows| && FindRow(rows, rows[j].major, "") == j ==>
      rows[j].income == SumOf(Filter(rows, MinorOf(rows[j].major)), RowIncome) &&
      rows[j].stored == SumOf(Filter(rows, MinorOf(rows[j].major)), RowStored)
  }

  lemma PostBalanced(rows: seq<ExpenseRow>, t: Transaction)
    requires Finds(rows, [t]) && HaveMinors([t]) && Balanced(rows)
    ensures Balanced(Post(rows, t))
  {
    assert t in [t];
    if NotTransfer(t) {
      var k := FindRow(rows, t.major, t.minor);
      var x := AddValues(rows[k], t.outflow, t.inflow);
      var once := rows[k := x];
      FindRowSameLabels(once, rows, t.major, "");
      var j := FindRow(once, t.major, "");
      var y := AddValues(once[j], t.outflow, t.inflow);
      var next := once[j := y];
      assert next == Post(rows, t);
      forall q | 0 <= q < |next| && FindRow(next, next[q].major, "") == q
        ensures next[q].income == SumOf(Filter(next, MinorOf(next[q].major)), RowIncome)
        ensures next[q].stored == SumOf(Filter(next, MinorOf(next[q].major)), RowStored)
      {
        var m := next[q].major;
        FindRowSameLabels(next, rows, m, "");
        SumOfFilterUpdate(rows, k, x, MinorOf(m), RowIncome);
        SumOfFilterUpdate(rows, k, x, MinorOf(m), RowStored);
        SumOfFilterUpdate(once, j, y, MinorOf(m), RowIncome);
        SumOfFilterUpdate(once, j, y, MinorOf(m), RowStored);
      }
    }
  }

  lemma {:induction false} TallyBalanced(rows: seq<ExpenseRow>, ts: seq<Transaction>)
    requires Finds(rows, ts) && HaveMinors(ts) && Balanced(rows)
    ensures Balanced(Tally(rows, ts))
  {
    if ts != [] {
      var n := |ts| - 1;
      assert forall t :: t in ts[..n] ==> t in ts;
      assert ts[n] in ts;
      TallyBalanced(rows, ts[..n]);
      var prev := Tally(rows, ts[..n]);
      FindRowSameLabels(prev, rows, ts[n].major, ts[n].minor);
      FindRowSameLabels(prev, rows, ts[n].major, "");
      PostBalanced(prev, ts[n]);
    }
  }

  lemma {:induction false} SumOfZero<T>(s: seq<T>, f: T -> int)
    requires forall i :: 0 <= i < |s| ==> f(s[i]) == 0
    ensures SumOf(s, f) == 0
  {
    if s != [] {
      SumOfZero(s[1..], f);
    }
  }

  /** The starting rows are all zero, so they are balanced. */
  lemma SkeletonBalanced(cats: seq<Category>)
    ensures Balanced(Skeleton(cats))
  {
    var rows := Skeleton(cats);
    forall j | 0 <= j < |rows| && FindRow(rows, rows[j].major, "") == j
      ensures rows[j].income == SumOf(Filter(rows, MinorOf(rows[j].major)), RowIncome)
      ensures rows[j].stored == SumOf(Filter(rows, MinorOf(rows[j].major)), RowStored)
    {
      var f := Filter(rows, MinorOf(rows[j].major));
      forall i | 0 <= i < |f|
        ensures RowIncome(f[i]) == 0 && RowStored(f[i]) == 0
      {
        FilterMembership(rows, MinorOf(rows[j].major), f[i]);
      }
      SumOfZero(f, RowIncome);
      SumOfZero(f, RowStored);
    }
  }

  // ------------------------------------------------------------ the report

  /** OrderBy(MajorCategory).ThenBy(MinorCategory). */
  function RowOrder(): (ExpenseRow, ExpenseRow) -> bool
  {
    ThenBy(ByKey(RowMajor), ByKey(RowMinor))
  }

  lemma RowOrderTotalPreorder()
    ensures TotalPreorder(RowOrder())
  {
    ByKeyTotalPreorder(RowMajor);
    ByKeyTotalPreorder(RowMinor);
    ThenByTotalPreorder(ByKey(RowMajor), ByKey(RowMinor));
  }

  /** The inner loop of the layout: a zero row per minor name, in list order. */
  method LayOutMinors(name: string, minors: seq<string>) returns (rows: seq<ExpenseRow>)
    ensures rows == MinorRows(name, minors)
  {
    rows := [];
    var m := 0;
    while m < |minors|
      invariant 0 <= m <= |minors|
      invariant rows == MinorRows(name, minors[..m])
    {
      assert minors[..m + 1][..m] == minors[..m];
      rows := rows + [ExpenseRow(name, minors[m], 0, 0)];
      m := m + 1;
    }
    assert minors[..m] == minors;
  }

  /** The first loop of BtnViewCategorizedReport_Click: the zero rows, category by category. */
  method LayOut(cats: seq<Category>) returns (rows: seq<ExpenseRow>)
    ensures rows == Skeleton(cats)
  {
    rows := [];
    var i := 0;
    while i < |cats|
      invariant 0 <= i <= |cats|
      invariant rows == Skeleton(cats[..i])
    {
      var name := cats[i].name;
      assert cats[..i + 1][..i] == cats[..i];
      if name != TransferCategory {
        var minorRows := LayOutMinors(name, cats[i].minors);
        rows := rows + [ExpenseRow(name, "", 0, 0)] + minorRows;
      }
      i := i + 1;
    }
    assert cats[..i] == cats;
  }

  /** The second loop: each transaction outside Transfer is added to the row
      of its two names and to its major's summary row. */
  method TallyRows(start: seq<ExpenseRow>, ts: seq<Transaction>) returns (rows: seq<ExpenseRow>)
    requires Finds(start, ts)
    ensures rows == Tally(start, ts)
  {
    rows := start;
    var n := 0;
    while n < |ts|
      invariant 0 <= n <= |ts|
      invariant forall t :: t in ts[..n] ==> t in ts
      invariant rows == Tally(start, ts[..n])
    {
      var t := ts[n];
      assert ts[..n + 1][..n] == ts[..n] && ts[..n + 1][n] == t;
      assert t in ts;
      FindRowSameLabels(rows, start, t.major, t.minor);
      FindRowSameLabels(rows, start, t.major, "");
      if t.major != TransferCategory {
        var k := FindRow(rows, t.major, t.minor);
        rows := rows[k := AddValues(rows[k], t.outflow, t.inflow)];
        FindRowSameLabels(rows, start, t.major, "");
        var j := FindRow(rows, t.major, "");
        rows := rows[j := AddValues(rows[j], t.outflow, t.inflow)];
      }
      n := n + 1;
    }
    assert ts[..n] == ts;
  }

  /** BtnViewCategorizedReport_Click's computation: the zero rows, the loop
      over the month's transactions, then the ordering by major and minor name. */
  method BuildReport(cats: seq<Category>, month: Month) returns (rows: seq<ExpenseRow>)
    requires Listed(cats, month.transactions)
    ensures Finds(Skeleton(cats), month.transactions)
    ensures rows == SortBy(Tally(Skeleton(cats), month.transactions), RowOrder())
  {
    var start := LayOut(cats);
    ListedFinds(cats, month.transactions);
    rows := TallyRows(start, month.transactions);
    rows := SortBy(rows, RowOrder());
  }

  /** The report lists the same rows as the tally, by major name, with each
      major's summary rows ahead of its minor rows. */
  lemma ReportOrdered(rows: seq<ExpenseRow>)
    ensures multiset(SortBy(rows, RowOrder())) == multiset(rows)
    ensures var r := SortBy(rows, RowOrder());
      forall i, j :: 0 <= i < j < |r| ==> StrLe(r[i].major, r[j].major)
    ensures var r := SortBy(rows, RowOrder());
      forall i, j :: 0 <= i < j < |r| && r[i].major == r[j].major && r[j].minor == "" ==> r[i].minor == ""
  {
    RowOrderTotalPreorder();
    SortByPermutation(rows, RowOrder());
    SortBySorted(rows, RowOrder());
    var r := SortBy(rows, RowOrder());
    forall i, j | 0 <= i < j < |r|
      ensures StrLe(r[i].major, r[j].major)
      ensures r[i].major == r[j].major && r[j].minor == "" ==> r[i].minor == ""
    {
      var a, b := r[i], r[j];
      assert RowOrder()(a, b);
      assert ByKey(RowMajor)(a, b) == StrLe(RowMajor(a), RowMajor(b));
      assert ByKey(RowMajor)(b, a) == StrLe(RowMajor(b), RowMajor(a));
      assert ByKey(RowMinor)(a, b) == StrLe(RowMinor(a), RowMinor(b));
      StrLeTotal(a.major, a.major);
      StrLeEmpty(a.minor);
    }
  }

  /** The row count is fixed by the categories alone, and when every counted
      transaction names a minor, the summary rows of the report total the
      month's income and expenses, and each summary row holds the totals of
      its minor rows before the ordering. */
  lemma ReportTotals(cats: seq<Category>, ts: seq<Transaction>)
    requires Listed(cats, ts) && HaveMinors(ts)
    ensures Finds(Skeleton(cats), ts)
    ensures |SortBy(Tally(Skeleton(cats), ts), RowOrder())| == |Skeleton(cats)|
    ensures SumOf(SortBy(Tally(Skeleton(cats), ts), RowOrder()), SummaryIncome) == IncomeOf(ts)
    ensures SumOf(SortBy(Tally(Skeleton(cats), ts), RowOrder()), SummaryStored) == ExpensesOf(ts)
    ensures Balanced(Tally(Skeleton(cats), ts))
  {
    ListedFinds(cats, ts);
    var start := Skeleton(cats);
    SumOfZero(start, SummaryIncome);
    SumOfZero(start, SummaryStored);
    SummaryTotals(start, ts);
    var rows := Tally(start, ts);
    SortByPermutation(rows, RowOrder());
    SumOfPermutation(SortBy(rows, RowOrder()), rows, SummaryIncome);
    SumOfPermutation(SortBy(rows, RowOrder()), rows, SummaryStored);
    SkeletonBalanced(cats);
    TallyBalanced(start, ts);
  }
}
