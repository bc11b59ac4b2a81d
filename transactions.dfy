/** Financial transactions as values, the orders the ledger keeps them in,
    and the sums it derives from them (balance, income, expenses). Amounts
    are decimal currency, held here as whole cents. */
module Transactions {
  import opened Seqs
  import opened Sorting
  import opened Calendar

  datatype Transaction = Transaction(
    id: int,
    date: Date,
    payee: string,
    major: string,
    minor: string,
    memo: string,
    outflow: int,
    inflow: int,
    account: string)

  /** What a transaction adds to its account's balance: Inflow - Outflow. */
  function Net(t: Transaction): int
  {
    t.inflow - t.outflow
  }

  function Inflow(t: Transaction): int
  {
    t.inflow
  }

  function Outflow(t: Transaction): int
  {
    t.outflow
  }

  const TransferCategory := "Transfer"

  /** Transactions between the user's own accounts are not income or expenses. */
  predicate NotTransfer(t: Transaction)
  {
    t.major != TransferCategory
  }

  /** a may precede b when transactions are listed by Date descending, then ID descending. */
  predicate TxnLe(a: Transaction, b: Transaction)
  {
    Before(b.date, a.date) || (a.date == b.date && a.id >= b.id)
  }

  /** The order the ledger's lists are kept in, stated directly. */
  predicate NewestFirst(s: seq<Transaction>)
  {
    forall i, j :: 0 <= i < j < |s| ==>
      AtMost(s[j].date, s[i].date) && (s[i].date == s[j].date ==> s[i].id >= s[j].id)
  }

  lemma TxnLeTotalPreorder()
    ensures TotalPreorder(TxnLe)
  {
  }

  /** Being sorted by TxnLe is being listed newest first, ties by larger ID first. */
  lemma SortedNewestFirst(s: seq<Transaction>)
    ensures SortedBy(s, TxnLe) <==> NewestFirst(s)
  {
    if SortedBy(s, TxnLe) {
      forall i, j | 0 <= i < j < |s|
        ensures AtMost(s[j].date, s[i].date) && (s[i].date == s[j].date ==> s[i].id >= s[j].id)
      {
        assert TxnLe(s[i], s[j]);
      }
    }
    if NewestFirst(s) {
      forall i, j | 0 <= i < j < |s|
        ensures TxnLe(s[i], s[j])
      {
      }
    }
  }

  /** OrderByDescending(Date).ThenByDescending(ID). */
  function SortTransactions(s: seq<Transaction>): seq<Transaction>
  {
    SortBy(s, TxnLe)
  }

  function BalanceOf(s: seq<Transaction>): int
  {
    SumOf(s, Net)
  }

  /** Inflow of a transaction that counts as income. */
  function CountedInflow(t: Transaction): int
  {
    if NotTransfer(t) then t.inflow else 0
  }

  /** Outflow of a transaction that counts as an expense. */
  function CountedOutflow(t: Transaction): int
  {
    if NotTransfer(t) then t.outflow else 0
  }

  function IncomeOf(s: seq<Transaction>): int
  {
    SumOf(s, CountedInflow)
  }

  function ExpensesOf(s: seq<Transaction>): int
  {
    SumOf(s, CountedOutflow)
  }

  /** Sorting transactions permutes them into newest-first order and keeps every sum. */
  lemma SortTransactionsSpec(s: seq<Transaction>)
    ensures multiset(SortTransactions(s)) == multiset(s)
    ensures SortedBy(SortTransactions(s), TxnLe) && NewestFirst(SortTransactions(s))
    ensures BalanceOf(SortTransactions(s)) == BalanceOf(s)
    ensures IncomeOf(SortTransactions(s)) == IncomeOf(s) && ExpensesOf(SortTransactions(s)) == ExpensesOf(s)
  {
    TxnLeTotalPreorder();
    SortByPermutation(s, TxnLe);
    SortBySorted(s, TxnLe);
    SortedNewestFirst(SortTransactions(s));
    SumOfPermutation(SortTransactions(s), s, Net);
    SumOfPermutation(SortTransactions(s), s, CountedInflow);
    SumOfPermutation(SortTransactions(s), s, CountedOutflow);
  }

  /** A list already in order is left as it is. */
  lemma SortTransactionsOfSorted(s: seq<Transaction>)
    requires SortedBy(s, TxnLe)
    ensures SortTransactions(s) == s
  {
    SortByOfSorted(s, TxnLe);
  }

  /** Income is the Inflow total over the non-Transfer transactions
      (LINQ Where followed by Sum). */
  lemma {:induction false} IncomeIsFilteredSum(s: seq<Transaction>)
    ensures IncomeOf(s) == SumOf(Filter(s, NotTransfer), Inflow)
    ensures ExpensesOf(s) == SumOf(Filter(s, NotTransfer), Outflow)
  {
    if s != [] {
      IncomeIsFilteredSum(s[1..]);
      var head := if NotTransfer(s[0]) then [s[0]] else [];
      SumOfAppend(head, Filter(s[1..], NotTransfer), Inflow);
      SumOfAppend(head, Filter(s[1..], NotTransfer), Outflow);
    }
  }

  /** Adding one transaction moves each total by that transaction's share. */
  lemma AppendOne(s: seq<Transaction>, t: Transaction)
    ensures BalanceOf(s + [t]) == BalanceOf(s) + Net(t)
    ensures IncomeOf(s + [t]) == IncomeOf(s) + CountedInflow(t)
    ensures ExpensesOf(s + [t]) == ExpensesOf(s) + CountedOutflow(t)
  {
    SumOfAppend(s, [t], Net);
    SumOfAppend(s, [t], CountedInflow);
    SumOfAppend(s, [t], CountedOutflow);
  }

  /** Taking out the element at i moves each total back by its share. */
  lemma RemoveOne(s: seq<Transaction>, i: nat)
    requires i < |s|
    ensures BalanceOf(s[..i] + s[i + 1..]) == BalanceOf(s) - Net(s[i])
    ensures IncomeOf(s[..i] + s[i + 1..]) == IncomeOf(s) - CountedInflow(s[i])
    ensures ExpensesOf(s[..i] + s[i + 1..]) == ExpensesOf(s) - CountedOutflow(s[i])
  {
    SumOfRemoveAt(s, i, Net);
    SumOfRemoveAt(s, i, CountedInflow);
    SumOfRemoveAt(s, i, CountedOutflow);
  }

  /** A filter keeps a sorted list sorted. */
  lemma {:induction false} SortedFilter(s: seq<Transaction>, p: Transaction -> bool)
    requires SortedBy(s, TxnLe)
    ensures SortedBy(Filter(s, p), TxnLe)
  {
    if s != [] {
      SortedFilter(s[1..], p);
      if p(s[0]) {
        var r := Filter(s[1..], p);
        forall j | 0 <= j < |r|
          ensures TxnLe(s[0], r[j])
        {
          FilterMembership(s[1..], p, r[j]);
          var k :| 0 <= k < |s[1..]| && s[1..][k] == r[j];
          assert s[k + 1] == r[j];
        }
      }
    }
  }
}
