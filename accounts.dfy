/** A financial account: a name, a type and the list of its transactions,
    kept newest first, with the balance derived from them. */
module Accounts {
  import opened Seqs
  import opened Sorting
  import opened Text
  import opened Transactions

  /** The account types; Undefined stands for any other value the enum can hold. */
  datatype AccountType = Cash | Checking | CreditCard | Merchant | Prepaid | Savings | Undefined

  /** The display name of an account type (Account.Type). */
  function TypeName(t: AccountType): (r: string)
    ensures t != Undefined <==> r != "Invalid Account Type"
  {
    match t
    case Cash => "Cash"
    case Checking => "Checking"
    case CreditCard => "Credit Card"
    case Merchant => "Merchant"
    case Prepaid => "Prepaid"
    case Savings => "Savings"
    case Undefined => "Invalid Account Type"
  }

  /** Enum.TryParse on a member name, exact and case-sensitive. */
  function ParseAccountType(s: string): (r: Option<AccountType>)
    ensures r.Some? ==> r.value != Undefined
  {
    if s == "Cash" then Some(Cash)
    else if s == "Checking" then Some(Checking)
    else if s == "CreditCard" then Some(CreditCard)
    else if s == "Merchant" then Some(Merchant)
    else if s == "Prepaid" then Some(Prepaid)
    else if s == "Savings" then Some(Savings)
    else None
  }

  /** A display name with its spaces removed parses back to its type, so the
      new-account form recovers the type chosen in its list ("Credit Card" gives
      CreditCard). */
  lemma TypeNameRoundTrip(t: AccountType)
    requires t != Undefined
    ensures ParseAccountType(RemoveSpaces(TypeName(t))) == Some(t)
  {
    match t
    case Cash => ParsesWithoutSpaces("Cash", Cash);
    case Checking => ParsesWithoutSpaces("Checking", Checking);
    case CreditCard =>
      CreditCardSpaces();
      assert ParseAccountType("CreditCard") == Some(CreditCard);
    case Merchant => ParsesWithoutSpaces("Merchant", Merchant);
    case Prepaid => ParsesWithoutSpaces("Prepaid", Prepaid);
    case Savings => ParsesWithoutSpaces("Savings", Savings);
  }

  lemma ParsesWithoutSpaces(s: string, t: AccountType)
    requires ' ' !in s && ParseAccountType(s) == Some(t)
    ensures ParseAccountType(RemoveSpaces(s)) == Some(t)
  {
    RemoveSpacesNone(s);
  }

  lemma CreditCardSpaces()
    ensures RemoveSpaces("Credit Card") == "CreditCard"
  {
    RemoveOneSpace("Credit", "Card");
    assert "Credit" + [' '] + "Card" == "Credit Card";
    assert "Credit" + "Card" == "CreditCard";
  }

  /** Distinct account types have distinct display names. */
  lemma TypeNameInjective(t: AccountType, u: AccountType)
    requires TypeName(t) == TypeName(u)
    ensures t == u
  {
    if t != Undefined {
      TypeNameRoundTrip(t);
    }
    if u != Undefined {
      TypeNameRoundTrip(u);
    }
  }

  /** The fields of an account at one moment, for comparing accounts. */
  datatype AccountData = AccountData(name: string, accountType: AccountType, transactions: seq<Transaction>)

  /** Account equality as written: names equal ignoring case, same type, same
      balance, same number of transactions, and every transaction of the left
      one also in the right one (Count equality plus an empty Except). A missing
      account (null) equals only another missing one. */
  predicate EqualsAsWritten(left: Option<AccountData>, right: Option<AccountData>)
  {
    if left.None? || right.None? then left.None? && right.None?
    else
      var l, r := left.value, right.value;
      EqualsIgnoreCase(l.name, r.name) && l.accountType == r.accountType &&
      BalanceOf(l.transactions) == BalanceOf(r.transactions) &&
      |l.transactions| == |r.transactions| &&
      (forall t :: t in l.transactions ==> t in r.transactions)
  }

  /** Two accounts written down so that the first is equal to the second but
      not the other way round: the first lists one transaction twice. */
  lemma EqualsAsWrittenNotSymmetric()
    ensures var x := Transaction(1, Calendar.Date(2020, 1, 1), "a", "Food", "", "", 5, 0, "Bank");
            var y := Transaction(2, Calendar.Date(2020, 1, 2), "b", "Food", "", "", 5, 0, "Bank");
            var a := Some(AccountData("Bank", Checking, [x, x]));
            var b := Some(AccountData("Bank", Checking, [x, y]));
            EqualsAsWritten(a, b) && !EqualsAsWritten(b, a)
  {
    var x := Transaction(1, Calendar.Date(2020, 1, 1), "a", "Food", "", "", 5, 0, "Bank");
    var y := Transaction(2, Calendar.Date(2020, 1, 2), "b", "Food", "", "", 5, 0, "Bank");
    assert [x, x][1..] == [x] && [x, y][1..] == [y] && [x][1..] == [] && [y][1..] == [];
    assert SumOf([x], Net) == Net(x) + SumOf([], Net) == -5;
    assert SumOf([y], Net) == Net(y) + SumOf([], Net) == -5;
    assert BalanceOf([x, x]) == -10 && BalanceOf([x, y]) == -10;
    assert y in [x, y] && y !in [x, x];
  }

  /** Account equality as evidently intended: the same transactions with the
      same multiplicities (which also fixes the balance and the count). */
  predicate SameAccount(left: Option<AccountData>, right: Option<AccountData>)
  {
    if left.None? || right.None? then left.None? && right.None?
    else
      var l, r := left.value, right.value;
      EqualsIgnoreCase(l.name, r.name) && l.accountType == r.accountType &&
      multiset(l.transactions) == multiset(r.transactions)
  }

  /** The intended equality is an equivalence relation, implies the written one,
      and agrees with it in both directions when neither account repeats a
      transaction. */
  lemma SameAccountSpec(a: Option<AccountData>, b: Option<AccountData>, c: Option<AccountData>)
    ensures SameAccount(a, a)
    ensures SameAccount(a, b) ==> SameAccount(b, a)
    ensures SameAccount(a, b) && SameAccount(b, c) ==> SameAccount(a, c)
    ensures SameAccount(a, b) ==> EqualsAsWritten(a, b)
  {
    if a.Some? && b.Some? && SameAccount(a, b) {
      var l, r := a.value.transactions, b.value.transactions;
      SumOfPermutation(l, r, Net);
      assert |l| == |multiset(l)| == |multiset(r)| == |r|;
      forall t | t in l
        ensures t in r
      {
        assert t in multiset(l);
      }
    }
  }

  /** No transaction is listed twice. */
  predicate NoRepeats(s: seq<Transaction>)
  {
    forall i, j :: 0 <= i < j < |s| ==> s[i] != s[j]
  }

  /** Without repeated transactions (each carries its own database ID), the
      equality as written and the intended one agree, in both directions. */
  lemma WrittenEqualsAgreesWithoutRepeats(a: AccountData, b: AccountData)
    requires NoRepeats(a.transactions) && NoRepeats(b.transactions)
    ensures EqualsAsWritten(Some(a), Some(b)) <==> SameAccount(Some(a), Some(b))
  {
    SameAccountSpec(Some(a), Some(b), Some(b));
    if EqualsAsWritten(Some(a), Some(b)) {
      var l, r := a.transactions, b.transactions;
      NoRepeatsCard(l);
      NoRepeatsCard(r);
      var sl, sr := set t | t in l, set t | t in r;
      assert sl <= sr;
      assert |sr - sl| == |sr| - |sl| == 0;
      assert sr - sl == {};
      assert sl == sr;
      forall t
        ensures multiset(l)[t] == multiset(r)[t]
      {
        assert t in l <==> t in sl;
        assert t in r <==> t in sr;
        NoRepeatsCount(l, t);
        NoRepeatsCount(r, t);
      }
      assert multiset(l) == multiset(r);
    }
  }

  /** A list without repeats has as many members as elements. */
  lemma {:induction false} NoRepeatsCard(s: seq<Transaction>)
    requires NoRepeats(s)
    ensures |set t | t in s| == |s|
  {
    if s != [] {
      var front := s[..|s| - 1];
      var x := s[|s| - 1];
      NoRepeatsCard(front);
      assert s == front + [x];
      assert (set t | t in s) == (set t | t in front) + {x};
      assert x !in (set t | t in front);
    }
  }

  /** In a list without repeats every transaction occurs at most once. */
  lemma {:induction false} NoRepeatsCount(s: seq<Transaction>, t: Transaction)
    requires NoRepeats(s)
    ensures multiset(s)[t] == if t in s then 1 else 0
  {
    if s != [] {
      var front := s[..|s| - 1];
      NoRepeatsCount(front, t);
      assert s == front + [s[|s| - 1]];
      assert s[|s| - 1] !in front;
    }
  }

  class Account {
    var name: string
    var accountType: AccountType
    var transactions: seq<Transaction>

    /** Stores the transactions in the order given, without sorting. */
    constructor (name: string, accountType: AccountType, transactions: seq<Transaction>)
      ensures this.name == name && this.accountType == accountType
      ensures this.transactions == transactions
    {
      this.name := name;
      this.accountType := accountType;
      this.transactions := transactions;
    }

    function Balance(): int
      reads this
    {
      BalanceOf(transactions)
    }

    function Type(): string
      reads this
    {
      TypeName(accountType)
    }

    function Data(): AccountData
      reads this
    {
      AccountData(name, accountType, transactions)
    }

    /** Orders the transactions newest first, ties by larger ID first. */
    method Sort()
      modifies this
      ensures transactions == SortTransactions(old(transactions))
      ensures multiset(transactions) == multiset(old(transactions)) && NewestFirst(transactions)
      ensures Balance() == old(Balance())
      ensures name == old(name) && accountType == old(accountType)
    {
      SortTransactionsSpec(transactions);
      transactions := SortTransactions(transactions);
    }

    method AddTransaction(t: Transaction)
      modifies this
      ensures transactions == SortTransactions(old(transactions) + [t])
      ensures |transactions| == |old(transactions)| + 1
      ensures multiset(transactions) == multiset(old(transactions)) + multiset{t} && NewestFirst(transactions)
      ensures Balance() == old(Balance()) + Net(t)
      ensures name == old(name) && accountType == old(accountType)
    {
      AppendOne(transactions, t);
      transactions := transactions + [t];
      Sort();
    }

    /** Replaces the transaction at index when the new one still belongs to this
        account, and drops it otherwise; then re-sorts. */
    method ModifyTransaction(index: nat, t: Transaction)
      requires index < |transactions|
      modifies this
      ensures t.account == name ==> transactions == SortTransactions(old(transactions)[index := t])
      ensures t.account == name ==> |transactions| == |old(transactions)|
      ensures t.account == name ==> Balance() == old(Balance()) - Net(old(transactions)[index]) + Net(t)
      ensures t.account != name ==>
        transactions == SortTransactions(old(transactions)[..index] + old(transactions)[index + 1..])
      ensures t.account != name ==> |transactions| == |old(transactions)| - 1
      ensures t.account != name ==> Balance() == old(Balance()) - Net(old(transactions)[index])
      ensures NewestFirst(transactions)
      ensures name == old(name) && accountType == old(accountType)
    {
      if t.account == name {
        var s := transactions;
        RemoveOne(s, index);
        assert s[index := t] == s[..index] + [t] + s[index + 1..];
        AppendOne(s[..index], t);
        SumOfAppend(s[..index] + [t], s[index + 1..], Net);
        SumOfAppend(s[..index], s[index + 1..], Net);
        transactions := transactions[index := t];
      } else {
        RemoveTransactionAt(index);
      }
      Sort();
    }

    /** Removes the first transaction equal to t, if any, keeping the order of the rest. */
    method RemoveTransaction(t: Transaction)
      modifies this
      ensures transactions == RemoveFirst(old(transactions), t)
      ensures t in old(transactions) ==> |transactions| == |old(transactions)| - 1 && Balance() == old(Balance()) - Net(t)
      ensures t !in old(transactions) ==> transactions == old(transactions)
      ensures NewestFirst(old(transactions)) ==> NewestFirst(transactions)
      ensures name == old(name) && accountType == old(accountType)
    {
      if t in transactions {
        var i := IndexOf(transactions, t);
        RemoveOne(transactions, i);
        SortedNewestFirst(transactions);
        if SortedBy(transactions, TxnLe) {
          SortedRemoveAt(transactions, i, TxnLe);
        }
        SortedNewestFirst(transactions[..i] + transactions[i + 1..]);
      }
      transactions := RemoveFirst(transactions, t);
    }

    /** Removes exactly the transaction at index, keeping the order of the rest. */
    method RemoveTransactionAt(index: nat)
      requires index < |transactions|
      modifies this
      ensures transactions == old(transactions)[..index] + old(transactions)[index + 1..]
      ensures |transactions| == |old(transactions)| - 1
      ensures Balance() == old(Balance()) - Net(old(transactions)[index])
      ensures NewestFirst(old(transactions)) ==> NewestFirst(transactions)
      ensures name == old(name) && accountType == old(accountType)
    {
      RemoveOne(transactions, index);
      SortedNewestFirst(transactions);
      if SortedBy(transactions, TxnLe) {
        SortedRemoveAt(transactions, index, TxnLe);
      }
      SortedNewestFirst(transactions[..index] + transactions[index + 1..]);
      transactions := transactions[..index] + transactions[index + 1..];
    }
  }

  /** The snapshot of a possibly missing account. */
  function DataOf(a: Account?): Option<AccountData>
    reads a
  {
    if a == null then None else Some(a.Data())
  }

  /** Account.Equals as the source writes it, with left the receiver: the
      test List.Remove and List.IndexOf apply to each element against the
      argument. It is not symmetric (EqualsAsWrittenNotSymmetric). */
  predicate AccountEquals(left: Account?, right: Account?)
    reads left, right
  {
    EqualsAsWritten(DataOf(left), DataOf(right))
  }

  /** An account is still the same account after its transactions are re-sorted. */
  lemma SortKeepsIdentity(d: AccountData)
    ensures SameAccount(Some(d), Some(AccountData(d.name, d.accountType, SortTransactions(d.transactions))))
  {
    SortTransactionsSpec(d.transactions);
  }
}
