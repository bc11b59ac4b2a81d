/** The calendar buckets the ledger groups transactions into: a Month (a first
    day plus the transactions dated in that month) and a Year (a first day plus
    the transactions dated in that year), each summing income and expenses
    with transfers left out. */
module Months {
  import opened Seqs
  import opened Sorting
  import opened Calendar
  import opened Transactions

  /** The test Find applies to a month: MonthStart <= date && date <= MonthEnd. */
  predicate InMonth(start: Date, d: Date)
    requires Valid(start)
  {
    AtMost(start, d) && AtMost(d, LastOfMonth(start))
  }

  /** The transactions dated in the month with index m. */
  function MonthIs(m: int): Transaction -> bool
  {
    (t: Transaction) => MonthIndex(t.date) == m
  }

  /** The transactions a month bucket starting at start should hold. */
  function InMonthOf(start: Date): Transaction -> bool
  {
    MonthIs(MonthIndex(start))
  }

  /** For a first-of-month start and a valid date, the range test is membership
      in that calendar month. */
  lemma InMonthIsSameMonth(start: Date, d: Date)
    requires Valid(start) && Valid(d) && start.day == 1
    ensures InMonth(start, d) <==> MonthIndex(d) == MonthIndex(start)
  {
    InMonthRange(start, d);
  }

  /** The test Find applies to a year: YearStart <= date && date <= YearEnd. */
  predicate InYear(start: Date, d: Date)
  {
    AtMost(start, d) && AtMost(d, Date(start.year, 12, 31))
  }

  /** The transactions dated in year y. */
  function YearIs(y: int): Transaction -> bool
  {
    (t: Transaction) => t.date.year == y
  }

  function InYearOf(start: Date): Transaction -> bool
  {
    YearIs(start.year)
  }

  lemma InYearIsSameYear(start: Date, d: Date)
    requires Valid(start) && Valid(d) && start.month == 1 && start.day == 1
    ensures InYear(start, d) <==> d.year == start.year
  {
  }

  /** Removing the transfers from a list changes neither its income nor its expenses. */
  lemma {:induction false} TransfersDoNotCount(s: seq<Transaction>)
    ensures IncomeOf(Filter(s, NotTransfer)) == IncomeOf(s)
    ensures ExpensesOf(Filter(s, NotTransfer)) == ExpensesOf(s)
  {
    if s != [] {
      TransfersDoNotCount(s[1..]);
      var head := if NotTransfer(s[0]) then [s[0]] else [];
      SumOfAppend(head, Filter(s[1..], NotTransfer), CountedInflow);
      SumOfAppend(head, Filter(s[1..], NotTransfer), CountedOutflow);
    }
  }

  /** The fields of a month at one moment, for comparing months. */
  datatype MonthData = MonthData(start: Date, transactions: seq<Transaction>)

  /** Month equality: same first day, same income, same expenses; a missing
      month (null) equals only another missing one. */
  predicate SameMonth(left: Option<MonthData>, right: Option<MonthData>)
  {
    if left.None? || right.None? then left.None? && right.None?
    else
      left.value.start == right.value.start &&
      IncomeOf(left.value.transactions) == IncomeOf(right.value.transactions) &&
      ExpensesOf(left.value.transactions) == ExpensesOf(right.value.transactions)
  }

  /** Month equality is an equivalence relation that ignores the order of the
      transactions and the transfers among them. */
  lemma SameMonthSpec(a: Option<MonthData>, b: Option<MonthData>, c: Option<MonthData>)
    ensures SameMonth(a, a)
    ensures SameMonth(a, b) ==> SameMonth(b, a)
    ensures SameMonth(a, b) && SameMonth(b, c) ==> SameMonth(a, c)
  {
  }

  lemma SameMonthIgnoresOrder(start: Date, s: seq<Transaction>, r: seq<Transaction>)
    requires multiset(s) == multiset(r)
    ensures SameMonth(Some(MonthData(start, s)), Some(MonthData(start, r)))
  {
    SumOfPermutation(s, r, CountedInflow);
    SumOfPermutation(s, r, CountedOutflow);
  }

  lemma SameMonthIgnoresTransfers(start: Date, s: seq<Transaction>)
    ensures SameMonth(Some(MonthData(start, s)), Some(MonthData(start, Filter(s, NotTransfer))))
  {
    TransfersDoNotCount(s);
  }

  class Month {
    var monthStart: Date
    var transactions: seq<Transaction>

    /** Stores a copy of the given transactions, in the order given. */
    constructor (monthStart: Date, transactions: seq<Transaction>)
      ensures this.monthStart == monthStart && this.transactions == transactions
    {
      this.monthStart := monthStart;
      this.transactions := transactions;
    }

    /** The Inflow total over the transactions not in the Transfer category. */
    function Income(): (r: int)
      reads this
      ensures r == SumOf(Filter(transactions, NotTransfer), Inflow)
    {
      IncomeIsFilteredSum(transactions);
      IncomeOf(transactions)
    }

    /** The Outflow total over the transactions not in the Transfer category. */
    function Expenses(): (r: int)
      reads this
      ensures r == SumOf(Filter(transactions, NotTransfer), Outflow)
    {
      IncomeIsFilteredSum(transactions);
      ExpensesOf(transactions)
    }

    /** The last day of the month: same year and month, the day being the
        number of days in that month. */
    function MonthEnd(): (r: Date)
      reads this
      requires Valid(monthStart)
      ensures Valid(r) && r.year == monthStart.year && r.month == monthStart.month
      ensures r.day == DaysInMonth(r.year, r.month)
      ensures forall d :: Valid(d) && MonthIndex(d) == MonthIndex(monthStart) ==> AtMost(d, r)
    {
      LastOfMonth(monthStart)
    }

    /** "yyyy/MM" of the first day. */
    function FormattedMonth(): (r: string)
      reads this
      requires Valid(monthStart)
      ensures |r| == 7 && r[4] == '/'
    {
      FormatMonth(monthStart)
    }

    function Data(): MonthData
      reads this
    {
      MonthData(monthStart, transactions)
    }

    /** Adds the transaction, then re-sorts newest first. */
    method AddTransaction(t: Transaction)
      modifies this
      ensures transactions == SortTransactions(old(transactions) + [t])
      ensures multiset(transactions) == multiset(old(transactions)) + multiset{t} && NewestFirst(transactions)
      ensures Income() == old(Income()) + CountedInflow(t) && Expenses() == old(Expenses()) + CountedOutflow(t)
      ensures monthStart == old(monthStart)
    {
      AppendOne(transactions, t);
      transactions := transactions + [t];
      Sort();
    }

    /** Replaces the transaction at index and nothing else, without re-sorting. */
    method ModifyTransaction(index: nat, t: Transaction)
      requires index < |transactions|
      modifies this
      ensures |transactions| == |old(transactions)| && transactions[index] == t
      ensures forall i :: 0 <= i < |transactions| && i != index ==> transactions[i] == old(transactions)[i]
      ensures Income() == old(Income()) - CountedInflow(old(transactions)[index]) + CountedInflow(t)
      ensures Expenses() == old(Expenses()) - CountedOutflow(old(transactions)[index]) + CountedOutflow(t)
      ensures monthStart == old(monthStart)
    {
      var s := transactions;
      RemoveOne(s, index);
      assert s[index := t] == s[..index] + [t] + s[index + 1..];
      SumOfAppend(s[..index] + [t], s[index + 1..], CountedInflow);
      SumOfAppend(s[..index] + [t], s[index + 1..], CountedOutflow);
      SumOfAppend(s[..index], s[index + 1..], CountedInflow);
      SumOfAppend(s[..index], s[index + 1..], CountedOutflow);
      AppendOne(s[..index], t);
      transactions := transactions[index := t];
    }

    /** Removes the first transaction equal to t, if any, keeping the order of the rest. */
    method RemoveTransaction(t: Transaction)
      modifies this
      ensures transactions == RemoveFirst(old(transactions), t)
      ensures t in old(transactions) ==> |transactions| == |old(transactions)| - 1
      ensures t in old(transactions) ==> Income() == old(Income()) - CountedInflow(t)
      ensures t in old(transactions) ==> Expenses() == old(Expenses()) - CountedOutflow(t)
      ensures t !in old(transactions) ==> transactions == old(transactions)
      ensures monthStart == old(monthStart)
    {
      if t in transactions {
        RemoveOne(transactions, IndexOf(transactions, t));
      }
      transactions := RemoveFirst(transactions, t);
    }

    /** Orders the transactions newest first, ties by larger ID first. */
    method Sort()
      modifies this
      ensures transactions == SortTransactions(old(transactions))
      ensures multiset(transactions) == multiset(old(transactions)) && NewestFirst(transactions)
      ensures Income() == old(Income()) && Expenses() == old(Expenses())
      ensures monthStart == old(monthStart)
    {
      SortTransactionsSpec(transactions);
      transactions := SortTransactions(transactions);
    }
  }

  function MonthDataOf(m: Month?): Option<MonthData>
    reads m
  {
    if m == null then None else Some(m.Data())
  }

  /** Month.Equals on two possibly missing months. */
  predicate MonthEquals(left: Month?, right: Month?)
    reads left, right
  {
    SameMonth(MonthDataOf(left), MonthDataOf(right))
  }

  /** A calendar year of transactions, kept like a month. */
  class Year {
    var yearStart: Date
    var transactions: seq<Transaction>

    constructor (yearStart: Date, transactions: seq<Transaction>)
      ensures this.yearStart == yearStart && this.transactions == transactions
    {
      this.yearStart := yearStart;
      this.transactions := transactions;
    }

    function Income(): (r: int)
      reads this
      ensures r == SumOf(Filter(transactions, NotTransfer), Inflow)
    {
      IncomeIsFilteredSum(transactions);
      IncomeOf(transactions)
    }

    function Expenses(): (r: int)
      reads this
      ensures r == SumOf(Filter(transactions, NotTransfer), Outflow)
    {
      IncomeIsFilteredSum(transactions);
      ExpensesOf(transactions)
    }

    /** 31 December of the year. */
    function YearEnd(): (r: Date)
      reads this
      requires Valid(yearStart)
      ensures Valid(r) && r.year == yearStart.year
      ensures forall d :: Valid(d) && d.year == yearStart.year ==> AtMost(d, r)
    {
      Date(yearStart.year, 12, 31)
    }

    /** "yyyy" of the first day. */
    function FormattedYear(): (r: string)
      reads this
      requires Valid(yearStart)
      ensures |r| == 4
    {
      FormatYear(yearStart)
    }

    /** Adds the transaction, then re-sorts newest first. */
    method AddTransaction(t: Transaction)
      modifies this
      ensures transactions == SortTransactions(old(transactions) + [t])
      ensures multiset(transactions) == multiset(old(transactions)) + multiset{t} && NewestFirst(transactions)
      ensures Income() == old(Income()) + CountedInflow(t) && Expenses() == old(Expenses()) + CountedOutflow(t)
      ensures yearStart == old(yearStart)
    {
      AppendOne(transactions, t);
      SortTransactionsSpec(transactions + [t]);
      transactions := SortTransactions(transactions + [t]);
    }
  }
}
