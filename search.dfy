/** The transaction search page: a list of matching transactions that each
    search narrows by every criterion the user filled in, and that a reset
    fills again from the ledger. */
module Search {
  import opened Seqs
  import opened Text
  import opened Calendar
  import opened Transactions

  /** What a search reads off the form, already parsed: the picked date
      (MinValue when none), the texts, the selected category and account names
      ("" when nothing is selected) and the two amounts in cents (0 when the
      box is empty). */
  datatype Criteria = Criteria(
    date: Date,
    payee: string,
    major: string,
    minor: string,
    memo: string,
    outflow: int,
    inflow: int,
    account: string)

  /** Whether the k-th filter of the chain applies, in the order the chain runs
      them: date, payee, major, minor, memo, outflow, inflow, account. */
  predicate Active(c: Criteria, k: nat)
  {
    match k
    case 0 => c.date != MinValue
    case 1 => !IsNullOrWhiteSpace(ToLower(c.payee))
    case 2 => !IsNullOrWhiteSpace(ToLower(c.major))
    case 3 => !IsNullOrWhiteSpace(ToLower(c.minor))
    case 4 => !IsNullOrWhiteSpace(ToLower(c.memo))
    case 5 => c.outflow != 0
    case 6 => c.inflow != 0
    case 7 => !IsNullOrWhiteSpace(ToLower(c.account))
    case _ => false
  }

  /** The test the k-th filter applies to a transaction. */
  predicate Test(c: Criteria, k: nat, t: Transaction)
  {
    match k
    case 0 => t.date == c.date
    case 1 => ContainsIgnoreCase(t.payee, c.payee)
    case 2 => EqualsIgnoreCase(t.major, c.major)
    case 3 => EqualsIgnoreCase(t.minor, c.minor)
    case 4 => ContainsIgnoreCase(t.memo, c.memo)
    case 5 => t.outflow == c.outflow
    case 6 => t.inflow == c.inflow
    case 7 => EqualsIgnoreCase(t.account, c.account)
    case _ => true
  }

  function TestOf(c: Criteria, k: nat): Transaction -> bool
  {
    (t: Transaction) => Test(c, k, t)
  }

  /** A transaction passes the first n filters. */
  predicate PassesFirst(c: Criteria, n: nat, t: Transaction)
  {
    forall k: nat :: k < n ==> Active(c, k) ==> Test(c, k, t)
  }

  function PassesFn(c: Criteria, n: nat): Transaction -> bool
  {
    (t: Transaction) => PassesFirst(c, n, t)
  }

  /** The search's meaning: a transaction matches when it satisfies every
      criterion that was filled in. */
  predicate Matches(c: Criteria, t: Transaction)
  {
    (c.date != MinValue ==> t.date == c.date) &&
    (!IsNullOrWhiteSpace(c.payee) ==> ContainsIgnoreCase(t.payee, c.payee)) &&
    (!IsNullOrWhiteSpace(c.major) ==> EqualsIgnoreCase(t.major, c.major)) &&
    (!IsNullOrWhiteSpace(c.minor) ==> EqualsIgnoreCase(t.minor, c.minor)) &&
    (!IsNullOrWhiteSpace(c.memo) ==> ContainsIgnoreCase(t.memo, c.memo)) &&
    (c.outflow != 0 ==> t.outflow == c.outflow) &&
    (c.inflow != 0 ==> t.inflow == c.inflow) &&
    (!IsNullOrWhiteSpace(c.account) ==> EqualsIgnoreCase(t.account, c.account))
  }

  function MatchesOf(c: Criteria): Transaction -> bool
  {
    (t: Transaction) => Matches(c, t)
  }

  /** Lower-casing a text does not change whether it is blank. */
  lemma {:induction false} ToLowerBlank(s: string)
    ensures IsNullOrWhiteSpace(ToLower(s)) <==> IsNullOrWhiteSpace(s)
  {
    if s != [] {
      ToLowerBlank(s[1..]);
      assert ToLower(s)[1..] == ToLower(s[1..]);
      assert ToLower(s)[0] == LowerChar(s[0]);
      assert forall i :: 1 <= i < |s| ==> s[i] == s[1..][i - 1];
      assert forall i :: 1 <= i < |s| ==> ToLower(s)[i] == ToLower(s)[1..][i - 1];
    }
  }

  /** Running the whole chain is the same as testing Matches. */
  lemma MatchesIsChain(c: Criteria, t: Transaction)
    ensures Matches(c, t) == PassesFirst(c, 8, t)
  {
    ToLowerBlank(c.payee);
    ToLowerBlank(c.major);
    ToLowerBlank(c.minor);
    ToLowerBlank(c.memo);
    ToLowerBlank(c.account);
    var stages := (Active(c, 0) ==> Test(c, 0, t)) && (Active(c, 1) ==> Test(c, 1, t)) &&
      (Active(c, 2) ==> Test(c, 2, t)) && (Active(c, 3) ==> Test(c, 3, t)) &&
      (Active(c, 4) ==> Test(c, 4, t)) && (Active(c, 5) ==> Test(c, 5, t)) &&
      (Active(c, 6) ==> Test(c, 6, t)) && (Active(c, 7) ==> Test(c, 7, t));
    assert PassesFirst(c, 8, t) ==> stages;
    assert stages ==> PassesFirst(c, 8, t);
  }

  /** The last step: what passed all eight filters is what Matches keeps. */
  lemma Finish(c: Criteria, start: seq<Transaction>)
    ensures Filter(start, PassesFn(c, 8)) == Filter(start, MatchesOf(c))
  {
    forall t: Transaction
      ensures PassesFirst(c, 8, t) == MatchesOf(c)(t)
    {
      MatchesIsChain(c, t);
    }
    FilterSame(start, PassesFn(c, 8), MatchesOf(c));
  }

  lemma Begin(c: Criteria, start: seq<Transaction>)
    ensures start == Filter(start, PassesFn(c, 0))
  {
    FilterAll(start, PassesFn(c, 0));
  }

  /** One filter of the chain: the k-th, applied when it is active. */
  function Narrow(c: Criteria, k: nat, s: seq<Transaction>): seq<Transaction>
  {
    if Active(c, k) then Filter(s, TestOf(c, k)) else s
  }

  /** Applying the k-th filter to what passed the first k gives what passes
      the first k + 1. */
  lemma NarrowStep(c: Criteria, k: nat, start: seq<Transaction>, cur: seq<Transaction>)
    requires cur == Filter(start, PassesFn(c, k))
    ensures Narrow(c, k, cur) == Filter(start, PassesFn(c, k + 1))
  {
    if Active(c, k) {
      FilterThen(start, PassesFn(c, k), TestOf(c, k), PassesFn(c, k + 1));
    } else {
      FilterSame(start, PassesFn(c, k), PassesFn(c, k + 1));
    }
  }

  /** The eight filters in a row keep exactly what Matches keeps. */
  lemma Chain(c: Criteria, m0: seq<Transaction>, m1: seq<Transaction>, m2: seq<Transaction>,
              m3: seq<Transaction>, m4: seq<Transaction>, m5: seq<Transaction>, m6: seq<Transaction>,
              m7: seq<Transaction>, m8: seq<Transaction>)
    requires m1 == Narrow(c, 0, m0)
    requires m2 == Narrow(c, 1, m1)
    requires m3 == Narrow(c, 2, m2)
    requires m4 == Narrow(c, 3, m3)
    requires m5 == Narrow(c, 4, m4)
    requires m6 == Narrow(c, 5, m5)
    requires m7 == Narrow(c, 6, m6)
    requires m8 == Narrow(c, 7, m7)
    ensures m8 == Filter(m0, MatchesOf(c))
  {
    Begin(c, m0);
    NarrowStep(c, 0, m0, m0);
    NarrowStep(c, 1, m0, m1);
    NarrowStep(c, 2, m0, m2);
    NarrowStep(c, 3, m0, m3);
    NarrowStep(c, 4, m0, m4);
    NarrowStep(c, 5, m0, m5);
    NarrowStep(c, 6, m0, m6);
    NarrowStep(c, 7, m0, m7);
    Finish(c, m0);
  }

  class SearchPage {
    /** The transactions still matching; kept from one search to the next. */
    var matching: seq<Transaction>

    /** The page starts from a copy of the ledger's transactions. */
    constructor (allTransactions: seq<Transaction>)
      ensures matching == allTransactions
    {
      matching := allTransactions;
    }

    /** Narrows the matching list by each filled-in criterion in turn and
        reports whether anything is left. */
    method SearchTransaction(c: Criteria) returns (found: bool)
      modifies this
      ensures matching == Filter(old(matching), MatchesOf(c))
      ensures found <==> |matching| > 0
    {
      ghost var m0 := matching;
      ApplyFilter(c, 0);
      ghost var m1 := matching;
      ApplyFilter(c, 1);
      ghost var m2 := matching;
      ApplyFilter(c, 2);
      ghost var m3 := matching;
      ApplyFilter(c, 3);
      ghost var m4 := matching;
      ApplyFilter(c, 4);
      ghost var m5 := matching;
      ApplyFilter(c, 5);
      ghost var m6 := matching;
      ApplyFilter(c, 6);
      ghost var m7 := matching;
      ApplyFilter(c, 7);
      Chain(c, m0, m1, m2, m3, m4, m5, m6, m7, matching);
      found := |matching| > 0;
    }

    /** One step of the search: when the k-th criterion is filled in, keeps
        only the matching transactions that pass its test. */
    method ApplyFilter(c: Criteria, k: nat)
      modifies this
      ensures matching == Narrow(c, k, old(matching))
    {
      if Active(c, k) {
        matching := Filter(matching, TestOf(c, k));
      }
    }

    /** Starts over from a fresh copy of the ledger's transactions. */
    method Reset(allTransactions: seq<Transaction>)
      modifies this
      ensures matching == allTransactions
    {
      matching := allTransactions;
    }
  }

  /** A search keeps, in their order, exactly the transactions that match. */
  lemma SearchIsSublist(c: Criteria, s: seq<Transaction>, t: Transaction)
    ensures SubsequenceOf(Filter(s, MatchesOf(c)), s)
    ensures t in Filter(s, MatchesOf(c)) <==> t in s && Matches(c, t)
  {
    FilterSubsequence(s, MatchesOf(c));
    FilterMembership(s, MatchesOf(c), t);
  }

  /** The criteria of an empty form: nothing picked, nothing typed. */
  const NoCriteria := Criteria(MinValue, "", "", "", "", 0, 0, "")

  /** With no criterion filled in, a search keeps the whole list. */
  lemma EmptySearchKeepsAll(s: seq<Transaction>)
    ensures Filter(s, MatchesOf(NoCriteria)) == s
  {
    FilterAll(s, MatchesOf(NoCriteria));
  }

  /** A zero amount is no criterion: whatever a transaction's outflow and
      inflow, they do not decide whether it matches. */
  lemma ZeroAmountsAreIgnored(c: Criteria, t: Transaction, outflow: int, inflow: int)
    requires c.outflow == 0 && c.inflow == 0
    ensures Matches(c, t) == Matches(c, t.(outflow := outflow, inflow := inflow))
  {
  }

  /** Two searches in a row keep what matches both sets of criteria. */
  lemma SearchesNarrow(c1: Criteria, c2: Criteria, s: seq<Transaction>)
    ensures Filter(Filter(s, MatchesOf(c1)), MatchesOf(c2)) ==
      Filter(s, (t: Transaction) => Matches(c1, t) && Matches(c2, t))
  {
    FilterThen(s, MatchesOf(c1), MatchesOf(c2), (t: Transaction) => Matches(c1, t) && Matches(c2, t));
  }

  /** What the search button looks at: whether a date is picked, the selected
      indexes of the three lists (-1 for none) and the texts typed. */
  datatype SearchForm = SearchForm(
    dateSelected: bool,
    majorIndex: int,
    minorIndex: int,
    payeeText: string,
    memoText: string,
    inflowText: string,
    outflowText: string,
    accountIndex: int)

  /** The search button is enabled when any field but the memo is filled in. */
  predicate SearchEnabled(f: SearchForm)
  {
    f.dateSelected || f.majorIndex >= 0 || f.minorIndex >= 0 || |f.payeeText| > 0 ||
    |f.inflowText| > 0 || |f.outflowText| > 0 || f.accountIndex >= 0
  }

  /** The memo never decides the button: a form whose only entry is a memo
      leaves it disabled. */
  lemma MemoAloneDoesNotEnable(f: SearchForm, memo: string)
    ensures SearchEnabled(f.(memoText := memo)) == SearchEnabled(f)
    ensures SearchEnabled(SearchForm(false, -1, -1, "", memo, "", "", -1)) == false
  {
  }
}
