/** The two finance forms that add to the ledger: the new-account form, which
    refuses a name already in use and opens the account with a starting-balance
    transaction, and the add-category form, which refuses a duplicate major or
    minor category name. */
module FinancePages {
  import opened Seqs
  import opened Sorting
  import opened Text
  import opened Calendar
  import opened Transactions
  import opened Accounts
  import opened Categories
  import opened Months
  import opened Ledger
  import opened State

  // ---------------------------------------------------------------------------
  // New account

  /** Some existing account has exactly (case-sensitively) this name. */
  predicate AccountNameTaken(accs: seq<Account>, name: string)
    reads accs
  {
    exists a :: a in accs && a.name == name
  }

  /** The type picked in the list, parsed after its spaces are removed; a text
      that names no type leaves the enum at its default, written Undefined. */
  function ParsedType(typeText: string): (r: AccountType)
  {
    match ParseAccountType(RemoveSpaces(typeText))
    case Some(t) => t
    case None => Undefined
  }

  /** Every display name the list offers parses back to its own type. */
  lemma ParsedTypeOfDisplayName(t: AccountType)
    requires t != Undefined
    ensures ParsedType(TypeName(t)) == t
  {
    TypeNameRoundTrip(t);
  }

  /** The transaction that opens a new account with the entered amount. */
  function StartingBalance(id: int, now: Date, amount: int, name: string): Transaction
  {
    Transaction(id, now, "Income", "Income", "Starting Balance", "", 0, amount, name)
  }

  /** The opening transaction makes the balance the entered amount and counts
      as income of its month. */
  lemma StartingBalanceCounts(id: int, now: Date, amount: int, name: string)
    ensures var t := StartingBalance(id, now, amount, name);
      BalanceOf([t]) == amount && Net(t) == amount &&
      CountedInflow(t) == amount && CountedOutflow(t) == 0 &&
      t.account == name && t.payee == "Income" && t.major == "Income" && t.minor == "Starting Balance"
  {
    var t := StartingBalance(id, now, amount, name);
    assert t.major != TransferCategory by {
      assert t.major[0] != TransferCategory[0];
    }
    assert [t][1..] == [];
    assert BalanceOf([t]) == Net(t) + BalanceOf([]);
  }

  /** How a submit ends: the name was in use (a notification), the account was
      not stored (the page stays), the opening transaction was not stored (a
      notification), or everything was stored and the page closes. */
  datatype NewAccountOutcome = NameExists | AccountNotAdded | TransactionNotAdded | Closed

  /** The account the form builds: the typed name, the parsed type and the
      opening transaction added to its empty list. */
  method NewAccount(name: string, typeText: string, t: Transaction) returns (account: Account)
    ensures fresh(account)
    ensures account.name == name && account.accountType == ParsedType(typeText) && account.transactions == [t]
  {
    account := new Account(name, ParsedType(typeText), []);
    account.AddTransaction(t);
    assert |account.transactions| == 1 && t in multiset(account.transactions);
    assert account.transactions[0] in multiset(account.transactions);
  }

  /** Submit on the new-account form. addOk and txnOk are the answers of the
      two database calls; nextId is the next free transaction ID the database
      hands out and now the current date. The account the form built is
      returned, or null when the name check stopped it. */
  method SubmitNewAccount(f: Finances, name: string, typeText: string, amount: int, nextId: int, now: Date,
                          addOk: bool, txnOk: bool) returns (outcome: NewAccountOutcome, account: Account?)
    requires Valid(now)
    requires forall k :: 0 <= k < |f.months| ==> Valid(f.months[k].monthStart)
    modifies f, f.months
    ensures AccountNameTaken(old(f.accounts), name) ==> outcome == NameExists
    ensures !AccountNameTaken(old(f.accounts), name) ==>
      outcome == if !addOk then AccountNotAdded else if txnOk then Closed else TransactionNotAdded
    ensures outcome == NameExists || outcome == AccountNotAdded ==>
      unchanged(f) && forall m :: m in f.months ==> unchanged(m)
    ensures outcome == Closed || outcome == TransactionNotAdded ==>
      account != null && fresh(account) && account.name == name && account.accountType == ParsedType(typeText) &&
      account.transactions == [StartingBalance(nextId, now, amount, name)] &&
      f.accounts == AccountsByName(old(f.accounts) + [account])
    ensures outcome == Closed || outcome == TransactionNotAdded ==>
      f.transactions == SortTransactions(old(f.transactions) + [StartingBalance(nextId, now, amount, name)])
    ensures outcome == TransactionNotAdded ==> f.months == old(f.months) && forall m :: m in f.months ==> unchanged(m)
    ensures outcome == Closed ==>
      exists m :: m in f.months && StartingBalance(nextId, now, amount, name) in m.transactions
    ensures f.categories == old(f.categories) && f.accountTypes == old(f.accountTypes) && f.years == old(f.years)
  {
    if !AccountNameTaken(f.accounts, name) {
      var t := StartingBalance(nextId, now, amount, name);
      account := NewAccount(name, typeText, t);
      outcome := OpenAccount(f, account, t, addOk, txnOk);
    } else {
      outcome, account := NameExists, null;
    }
  }

  /** The part of Submit after the name check: the new account is stored
      first, and its opening transaction t only once that has succeeded. */
  method OpenAccount(f: Finances, account: Account, t: Transaction, addOk: bool, txnOk: bool)
    returns (outcome: NewAccountOutcome)
    requires account.transactions == [t] && Valid(t.date)
    requires forall k :: 0 <= k < |f.months| ==> Valid(f.months[k].monthStart)
    modifies f, f.months
    ensures outcome == if !addOk then AccountNotAdded else if txnOk then Closed else TransactionNotAdded
    ensures outcome == AccountNotAdded ==> unchanged(f) && forall m :: m in f.months ==> unchanged(m)
    ensures outcome != AccountNotAdded ==> f.accounts == old(AccountsByName(f.accounts + [account]))
    ensures outcome != AccountNotAdded ==> f.transactions == SortTransactions(old(f.transactions) + [t])
    ensures outcome == TransactionNotAdded ==> f.months == old(f.months) && forall m :: m in f.months ==> unchanged(m)
    ensures outcome == Closed ==> exists m :: m in f.months && t in m.transactions
    ensures f.categories == old(f.categories) && f.accountTypes == old(f.accountTypes) && f.years == old(f.years)
  {
    var added := AddAccount(f, account, addOk);
    if added {
      var placed := StoreTransaction(f, t, txnOk);
      outcome := if placed then Closed else TransactionNotAdded;
    } else {
      outcome := AccountNotAdded;
    }
  }

  /** AddFinancialTransaction as the form needs it: it changes only the months,
      and a stored transaction sits in one of them. */
  method StoreTransaction(f: Finances, t: Transaction, dbOk: bool) returns (success: bool)
    requires Valid(t.date)
    requires forall k :: 0 <= k < |f.months| ==> Valid(f.months[k].monthStart)
    modifies f, f.months
    ensures success == dbOk
    ensures f.accounts == old(f.accounts) && f.transactions == old(f.transactions)
    ensures f.categories == old(f.categories) && f.accountTypes == old(f.accountTypes) && f.years == old(f.years)
    ensures !dbOk ==> f.months == old(f.months) && forall m :: m in f.months ==> unchanged(m)
    ensures dbOk ==> exists m :: m in f.months && t in m.transactions
  {
    success := AddFinancialTransaction(f, t, dbOk);
  }

  /** Submit is enabled when a name is typed, a type is picked and a balance
      is typed. */
  predicate NewAccountEnabled(nameText: string, typeIndex: int, balanceText: string)
  {
    |nameText| > 0 && typeIndex >= 0 && |balanceText| > 0
  }

  /** Only the emptiness of the texts matters; an enabled form never submits
      an empty name. */
  lemma NewAccountEnabledSpec(n1: string, n2: string, typeIndex: int, b1: string, b2: string)
    requires (n1 == []) == (n2 == []) && (b1 == []) == (b2 == [])
    ensures NewAccountEnabled(n1, typeIndex, b1) == NewAccountEnabled(n2, typeIndex, b2)
    ensures NewAccountEnabled(n1, typeIndex, b1) ==> n1 != [] && typeIndex >= 0
  {
  }

  // ---------------------------------------------------------------------------
  // New category

  /** The names of the categories, in list order. */
  function CategoryNames(cs: seq<Category>): (r: seq<string>)
    reads cs
    ensures |r| == |cs| && forall k :: 0 <= k < |cs| ==> r[k] == cs[k].name
  {
    if cs == [] then [] else CategoryNames(cs[..|cs| - 1]) + [cs[|cs| - 1].name]
  }

  /** No name occurs twice. */
  predicate Unique(s: seq<string>)
  {
    forall x :: x in s ==> multiset(s)[x] <= 1
  }

  /** The submit guard: a major name must not be any category's name, a minor
      name must not be in the selected category's minor list. */
  predicate MayAddCategory(names: seq<string>, minors: seq<string>, name: string, isMajor: bool)
  {
    if isMajor then name !in names else name !in minors
  }

  /** Submit on the add-category form: calls AddCategory only when the guard
      lets the name through; dbOk is the database's answer. Returns whether
      the page closes. */
  method SubmitCategory(f: Finances, major: Category, name: string, isMajor: bool, dbOk: bool) returns (closed: bool)
    modifies f, major
    ensures !MayAddCategory(old(CategoryNames(f.categories)), old(major.minors), name, isMajor) ==>
      !closed && unchanged(f) && unchanged(major)
    ensures MayAddCategory(old(CategoryNames(f.categories)), old(major.minors), name, isMajor) ==> closed == dbOk
    ensures !closed ==> unchanged(f) && unchanged(major)
    ensures closed && isMajor ==>
      unchanged(major) &&
      exists c: Category :: fresh(c) && c.name == name && c.minors == [] &&
        f.categories == CategoriesByName(old(f.categories) + [c])
    ensures closed && !isMajor ==>
      major.name == old(major.name) && major.minors == old(major.minors) + [name] &&
      f.categories == CategoriesByName(old(f.categories))
    ensures f.accounts == old(f.accounts) && f.transactions == old(f.transactions) && f.months == old(f.months)
  {
    closed := false;
    if isMajor {
      if forall c :: c in f.categories ==> c.name != name {
        assert name !in CategoryNames(f.categories);
        closed := AddCategory(f, major, name, isMajor, dbOk);
      } else {
        ghost var c :| c in f.categories && c.name == name;
        ghost var k :| 0 <= k < |f.categories| && f.categories[k] == c;
        assert CategoryNames(f.categories)[k] == name;
      }
    } else {
      if name !in major.minors {
        closed := AddCategory(f, major, name, isMajor, dbOk);
      }
    }
  }

  /** Submit is enabled when a name is typed. */
  predicate CategoryEnabled(nameText: string)
  {
    |nameText| > 0
  }

  /** Sorting the categories by name moves their names and nothing else. */
  lemma CategoriesByNameNames(cs: seq<Category>)
    ensures multiset(CategoryNames(CategoriesByName(cs))) == multiset(CategoryNames(cs))
  {
    var p := CategoryKeys(cs);
    SortedNames(cs);
    FirstsSortBy(p, StrLe, KeyAscending);
    SortByPermutation(Firsts(p), StrLe);
    assert Firsts(p) == CategoryNames(cs);
  }

  /** The names of the sorted categories are the keys of the sorted pairs. */
  lemma SortedNames(cs: seq<Category>)
    ensures CategoryNames(CategoriesByName(cs)) == Firsts(SortBy(CategoryKeys(cs), KeyAscending))
  {
    var s := SortBy(CategoryKeys(cs), KeyAscending);
    CategoryKeysSorted(cs);
    SortByPermutation(CategoryKeys(cs), KeyAscending);
    assert |CategoriesByName(cs)| == |s|;
  }

  /** What the guard protects: when the names were unique before, they are
      unique after a major category is added and the list re-sorted. */
  lemma MajorGuardKeepsNamesUnique(cs: seq<Category>, c: Category)
    requires Unique(CategoryNames(cs)) && c.name !in CategoryNames(cs)
    ensures Unique(CategoryNames(CategoriesByName(cs + [c])))
  {
    assert CategoryNames(cs + [c]) == CategoryNames(cs) + [c.name];
    CategoriesByNameNames(cs + [c]);
  }

  /** The same for a minor category added to its major's list. */
  lemma MinorGuardKeepsNamesUnique(minors: seq<string>, name: string)
    requires Unique(minors) && name !in minors
    ensures Unique(minors + [name])
  {
  }
}
