# PersonalTracker ledger and collections, modelled in Dafny

PersonalTracker is a desktop tracker for one user's finances, contact lenses,
vehicles and television series. Below its pages sits a small in-memory layer, and
this project models that layer:

- **The finance ledger.**
  - Accounts keep their transactions newest first and derive a balance from them.
  - Month and year buckets sum income and expenses, leaving transfers out.
  - The ledger flattens every account into one sorted transaction list. It then
    builds one bucket per calendar month and per calendar year, from the oldest
    transaction up to the current date.
  - A per-category monthly report tallies a month's transactions into category rows.
  - The application state applies its in-memory fix-ups only when the database
    accepted the change.
- **The forms.**
  - The transaction search narrows a persistent list criterion by criterion.
  - The new-account and add-category forms refuse duplicate names.
  - The new-user and change-password forms check their rules in a fixed order.
- **The sorted collections.**
  - The series list is kept in name order, and the television page filters it by
    status and by search text.
  - A user's lens list is kept newest first, then by side, and the vehicle list by
    nickname.
- **The value types.**
  - Contact-lens insertions and credit scores, with their "yyyy/MM/dd" texts and
    field-wise equality.
  - The lens replacement-date rule: +7, +14 or +30 days.

State the source changes in place is modelled as Dafny classes whose methods have
`modifies` clauses. Each method is proved against a specification function of the
old state, such as `SortTransactions`, `Filter`, `Tally` or `AddedInTurn`, and
lemmas state what those functions promise: permutation, order, sums, stability and
"nothing else changes". Pure code (the validators, equality, formatting and the
date rule) is modelled as functions with lemmas.

Conventions of the model:

- **Dates** are whole calendar days `Date(year, month, day)` of the proleptic
  Gregorian calendar, from 0001/01/01 to 9999/12/31. The time of day is not modelled.
- **Money** (C# `decimal`) is whole cents (`int`).
- **Strings** compare ordinally, character by character. `ToLower` maps only
  the ASCII letters `A`–`Z`.
- **Sorting.** LINQ `OrderBy` / `ThenBy` / `OrderByDescending` is one stable
  insertion sort, `Sorting.SortBy`, under a total preorder. `List<string>.Sort()`
  is the same sort on strings: ordinal order is antisymmetric, so every sorted
  permutation is the same list (`Text.SortStringsCanonical`).
- **The database.** Each database call is a `bool` parameter (`dbOk`, `addOk`,
  `txnOk`, or one flag per side for the lens page). It is true when the call
  reported success.
- **Password hashing.** Hashing and hash validation are function parameters
  (`hash: string -> string`, `validate: (string, string) -> bool`).
- **The current date** is a parameter (`now`).

The repository holds two near-identical copies of several classes:

- `Finances/Models/...` and `Models/FinanceModels/...` (the ledger and `Category`);
- `Media/Models/AllMedia.cs` and `Models/Media.cs`.

One Dafny member models both copies. The table cites the newer copy; the older
copy's matching lines are:

- `Models/FinanceModels/Finances.cs` lines 98-173;
- `Models/FinanceModels/Categories/Category.cs` lines 43-68;
- `Models/Media.cs` lines 31-74.

## Model

| member | source | states |
|---|---|---|
| Transactions.SortTransactionsSpec | PersonalTracker/Finances/Models/Data/Account.cs:115-116 | Sorting by Date descending, then ID descending, is a permutation that leaves the list newest first (ties by larger ID first). It keeps the balance, the income and the expenses. |
| Transactions.SortedNewestFirst | PersonalTracker/Finances/Models/Data/Account.cs:115-116 | Being sorted under the pairwise order is the same as the direct newest-first property, in both directions. |
| Transactions.SortTransactionsOfSorted | PersonalTracker/Finances/Models/Data/Account.cs:115-116 | Re-sorting a list already in order leaves it unchanged. |
| Transactions.IncomeIsFilteredSum | PersonalTracker/Finances/Models/Sorting/Month.cs:38-47 | Income is the Inflow sum over the non-Transfer transactions (Where, then Sum), and Expenses the same sum over Outflow. |
| Transactions.AppendOne | PersonalTracker/Finances/Models/Data/Account.cs:73-78 | Adding one transaction raises the balance by its Inflow − Outflow, and income and expenses by its counted share. |
| Transactions.RemoveOne | PersonalTracker/Finances/Models/Data/Account.cs:103-107 | Taking out the element at an index lowers each total by exactly that element's share. |
| Transactions.SortedFilter | PersonalTracker/Finances/Views/Search/SearchTransactionsPage.xaml.cs:50-72 | Any Where filter keeps a newest-first list newest first. |
| Accounts.TypeName | PersonalTracker/Finances/Models/Data/Account.cs:34-49 | Every defined type has its own display name (CreditCard shows "Credit Card"). The text is "Invalid Account Type" exactly for an undefined value. |
| Accounts.TypeNameInjective | PersonalTracker/Finances/Models/Data/Account.cs:38-47 | Distinct types have distinct display names. |
| Accounts.TypeNameRoundTrip | PersonalTracker/Finances/Views/Accounts/NewAccountPage.xaml.cs:26 | A display name with its spaces removed parses back to its own type: "Credit Card" gives CreditCard, and the other names parse as they are. |
| Accounts.ParseAccountType | PersonalTracker/Finances/Views/Accounts/NewAccountPage.xaml.cs:26 | Enum.TryParse on a member name is exact, and it never yields the undefined value. |
| Accounts.Account.constructor | PersonalTracker/Finances/Models/Data/Account.cs:152-159 | Stores the name, the type and the given transactions in the given order, without sorting. |
| Accounts.Account.Sort | PersonalTracker/Finances/Models/Data/Account.cs:115-116 | The new list is the newest-first sort of the old one: a permutation, newest first, same balance, name and type unchanged. |
| Accounts.Account.AddTransaction | PersonalTracker/Finances/Models/Data/Account.cs:73-78 | The list grows by exactly one, gains exactly t (as a multiset) and is newest first. The balance rises by Inflow − Outflow of t. |
| Accounts.Account.ModifyTransaction | PersonalTracker/Finances/Models/Data/Account.cs:83-91 | When t still belongs to the account, it replaces the element at the index: same count, balance adjusted by the difference. Otherwise that element is dropped: one fewer, balance lowered by it. The list ends sorted either way. |
| Accounts.Account.RemoveTransaction | PersonalTracker/Finances/Models/Data/Account.cs:95-99 | Removes the first element equal to t, or changes nothing if t is absent. The rest keep their order, a sorted list stays sorted, and the balance drops by t's share. |
| Accounts.Account.RemoveTransactionAt | PersonalTracker/Finances/Models/Data/Account.cs:103-107 | Removes exactly the element at the index. The others keep their order, order is preserved, and the balance drops by that element's share. |
| Accounts.EqualsAsWrittenNotSymmetric | PersonalTracker/Finances/Models/Data/Account.cs:124 | Two accounts that Equals as written relates in one direction but not the other (see Findings). |
| Accounts.SameAccountSpec | PersonalTracker/Finances/Models/Data/Account.cs:120-125 | The corrected equality (names ignoring case, type, the same transactions with multiplicity) is reflexive, symmetric and transitive, and implies the written test. |
| Accounts.WrittenEqualsAgreesWithoutRepeats | PersonalTracker/Finances/Models/Data/Account.cs:124 | When neither account lists a transaction twice, Equals as written holds exactly when the intended equality does, in both directions. |
| Accounts.SortKeepsIdentity | PersonalTracker/Finances/Models/Data/Account.cs:115-116 | Re-sorting an account's transactions leaves it equal to itself under the corrected equality. |
| Months.InMonthIsSameMonth | PersonalTracker/Finances/Models/AllFinances.cs:113 | For a first-of-month start, the test MonthStart ≤ date ≤ MonthEnd holds exactly when the date falls in that calendar month. |
| Months.InYearIsSameYear | PersonalTracker/Finances/Models/AllFinances.cs:140 | For a 1 January start, the test YearStart ≤ date ≤ YearEnd holds exactly when the date falls in that year. |
| Months.TransfersDoNotCount | PersonalTracker/Finances/Models/Sorting/Month.cs:38-47 | Dropping the Transfer transactions changes neither income nor expenses. |
| Months.SameMonthSpec | PersonalTracker/Finances/Models/Sorting/Month.cs:96-101 | Month equality (same first day, income and expenses; null equals only null) is an equivalence relation. |
| Months.SameMonthIgnoresOrder | PersonalTracker/Finances/Models/Sorting/Month.cs:100 | Two months holding the same transactions in any order are equal. |
| Months.SameMonthIgnoresTransfers | PersonalTracker/Finances/Models/Sorting/Month.cs:100 | Adding or removing transfers never makes a month unequal to itself. |
| Months.Month.constructor | PersonalTracker/Finances/Models/Sorting/Month.cs:127-133 | Stores the first day and the given transactions in the given order. |
| Months.Month.Income | PersonalTracker/Finances/Models/Sorting/Month.cs:38 | The Inflow sum over the transactions outside the Transfer category. |
| Months.Month.Expenses | PersonalTracker/Finances/Models/Sorting/Month.cs:47 | The Outflow sum over the transactions outside the Transfer category. |
| Months.Month.MonthEnd | PersonalTracker/Finances/Models/Sorting/Month.cs:56-57 | MonthStart's year and month, whose day is that month's length (29 February in Gregorian leap years). It is a valid date, and no date of the month lies after it. |
| Months.Month.FormattedMonth | PersonalTracker/Finances/Models/Sorting/Month.cs:60 | A seven-character text with '/' at position 4: a four-digit year, then a two-digit month. |
| Calendar.FormatMonthOrder | PersonalTracker/Finances/Models/Sorting/Month.cs:60 | The "yyyy/MM" texts of two valid dates compare as their months do, in both directions, so sorting by the text sorts chronologically. |
| Calendar.FormatYearOrder | PersonalTracker/Finances/Models/AllFinances.cs:143 | The "yyyy" texts compare as the years do, in both directions. |
| Calendar.FormatDateOrder | PersonalTracker/Lenses/Models/Contact.cs:52 | The "yyyy/MM/dd" texts of two valid dates compare as the dates do, in both directions. |
| Calendar.FormatDateInjective | PersonalTracker/Finances/Models/Data/CreditScore.cs:77 | Two valid dates with the same "yyyy/MM/dd" text are the same date. |
| Months.Month.AddTransaction | PersonalTracker/Finances/Models/Sorting/Month.cs:68-73 | Adds t, then re-sorts: the list gains exactly t, is newest first, and income and expenses rise by t's counted share. |
| Months.Month.ModifyTransaction | PersonalTracker/Finances/Models/Sorting/Month.cs:78 | Replaces only the element at the index and does not re-sort; every other position is unchanged, and the totals are adjusted by the difference. |
| Months.Month.RemoveTransaction | PersonalTracker/Finances/Models/Sorting/Month.cs:82-86 | Removes at most one occurrence, keeping the order of the rest. When t was present the count and totals drop by it; otherwise nothing changes. |
| Months.Month.Sort | PersonalTracker/Finances/Models/Sorting/Month.cs:91-92 | A permutation into newest-first order that keeps income and expenses. |
| Months.Year.constructor | PersonalTracker/Finances/Models/AllFinances.cs:133 | A year bucket starts from its first day and the given transactions. |
| Months.Year.Income | PersonalTracker/Finances/Models/AllFinances.cs:140 | The Inflow sum over the year's non-Transfer transactions. |
| Months.Year.Expenses | PersonalTracker/Finances/Models/AllFinances.cs:140 | The Outflow sum over the year's non-Transfer transactions. |
| Months.Year.YearEnd | PersonalTracker/Finances/Models/AllFinances.cs:140 | 31 December of the year: valid, and no date of the year lies after it. |
| Months.Year.FormattedYear | PersonalTracker/Finances/Models/AllFinances.cs:143 | The four-digit year. |
| Months.Year.AddTransaction | PersonalTracker/Finances/Models/AllFinances.cs:140 | Adds t, then re-sorts: the bucket gains exactly t and is newest first, and the totals rise by t's share. |
| Categories.Category.constructor | PersonalTracker/Finances/Models/Categories/Category.cs:53-57 | Keeps the given minor list as it is, unsorted. |
| Categories.Category.Sort | PersonalTracker/Finances/Models/Categories/Category.cs:32-39 | The minors become a sorted permutation of the old ones; an empty list stays empty; the name is unchanged. |
| Text.SortStringsIdempotent | PersonalTracker/Finances/Models/Categories/Category.cs:36 | Sorting an already sorted list of names changes nothing. |
| Text.SortStringsCanonical | PersonalTracker/Finances/Models/AllFinances.cs:166 | Any sorted permutation of a string list is the sorted list, so an unstable sort gives the same result as a stable one. |
| Ledger.Flatten | PersonalTracker/Finances/Models/AllFinances.cs:161-164 | The nested foreach gathers every account's transactions, account by account. |
| Ledger.GatherTransactions | PersonalTracker/Finances/Models/AllFinances.cs:161-167 | Accepts any accounts. The gathered list is the newest-first sort of every account's transactions: exactly those (as a multiset), in order. It is loadable exactly when the accounts' transactions are bucketable. |
| Ledger.SortedIsLoadable | PersonalTracker/Finances/Models/AllFinances.cs:98-113 | For a newest-first list, every month bucket that Find looks for exists exactly when the dates are valid and either none lies in a month after the current one, or all lie in one month (possibly after the current one; the do-while still builds that one bucket). |
| Ledger.LoadableYears | PersonalTracker/Finances/Models/AllFinances.cs:125-140 | Every list that LoadMonths can bucket, LoadYears can bucket too. |
| Ledger.FindMonth | PersonalTracker/Finances/Models/AllFinances.cs:113 | List.Find over months: the first month whose range contains the date, or −1 when none does. |
| Ledger.FindYear | PersonalTracker/Finances/Models/AllFinances.cs:140 | List.Find over years: the first year whose range contains the date, or −1. |
| Ledger.NewMonths | PersonalTracker/Finances/Models/AllFinances.cs:103-109 | The do-while makes count + 1 fresh, empty months, one month apart, from the start month on. |
| Ledger.AddToMonth | PersonalTracker/Finances/Models/AllFinances.cs:113 | One foreach pass: the transaction lands in the one bucket of its month, and each bucket still holds exactly the transactions of its month, newest first. |
| Ledger.FillMonths | PersonalTracker/Finances/Models/AllFinances.cs:111-114 | After the foreach, each bucket holds exactly the transactions dated in its month (as a multiset), newest first. |
| Ledger.NewestMonthsFirst | PersonalTracker/Finances/Models/AllFinances.cs:116 | Sorting ascending months by FormattedMonth descending reverses the list. |
| Ledger.ReversedMonthBuckets | PersonalTracker/Finances/Models/AllFinances.cs:116 | The reversed filled buckets run from the newest month down, each holding its own month's transactions. |
| Ledger.MonthRange | PersonalTracker/Finances/Models/AllFinances.cs:100-116 | The count + 1 buckets up to the newest month, filled and listed newest first. |
| Ledger.BuildMonths | PersonalTracker/Finances/Models/AllFinances.cs:94-118 | No transactions give no months. Otherwise there is one bucket per month from the current month back to the oldest transaction's (months-between + 1 buckets, or the oldest transaction's month alone when that lies after the current month), each holding exactly its month's transactions, newest first. |
| Ledger.NewYears | PersonalTracker/Finances/Models/AllFinances.cs:130-136 | The do-while makes count + 1 fresh, empty years, from the start year on. |
| Ledger.AddToYear | PersonalTracker/Finances/Models/AllFinances.cs:140 | One foreach pass: the transaction lands in its year's bucket, and every bucket stays exactly its year's transactions. |
| Ledger.FillYears | PersonalTracker/Finances/Models/AllFinances.cs:138-141 | After the foreach, each year holds exactly its transactions, newest first. |
| Ledger.NewestYearsFirst | PersonalTracker/Finances/Models/AllFinances.cs:143 | Sorting ascending years by FormattedYear descending reverses the list. |
| Ledger.ReversedYearBuckets | PersonalTracker/Finances/Models/AllFinances.cs:143 | The reversed filled years run newest first, each with its own transactions. |
| Ledger.YearRange | PersonalTracker/Finances/Models/AllFinances.cs:127-143 | The count + 1 year buckets up to the newest year, filled and newest first. |
| Ledger.BuildYears | PersonalTracker/Finances/Models/AllFinances.cs:121-145 | No transactions give no years. Otherwise there are (current year − oldest year + 1) buckets, or one when the oldest year lies after the current one. They are newest first, and each holds exactly its year's transactions. |
| Ledger.EachTransactionInOneMonth | PersonalTracker/Finances/Models/AllFinances.cs:111-114 | After loading, each transaction sits in the bucket of its month and in no other. |
| Ledger.EachTransactionInOneYear | PersonalTracker/Finances/Models/AllFinances.cs:138-141 | After loading, each transaction sits in the bucket of its year and in no other. |
| Ledger.MonthKeys | PersonalTracker/Finances/Models/AllFinances.cs:116 | Pairs each month with its FormattedMonth, the key it is sorted by. |
| Ledger.YearKeys | PersonalTracker/Finances/Models/AllFinances.cs:143 | Pairs each year with its FormattedYear. |
| Ledger.Finances.constructor | PersonalTracker/Finances/Models/AllFinances.cs:155-170 | Keeps the accounts and categories and sorts the account types. The transaction list is every account's transactions, newest first. The months and years are loaded from it, for every ledger LoadMonths does not crash on (including one whose transactions all lie in one month after the current one). |
| Ledger.Finances.LoadMonths | PersonalTracker/Finances/Models/AllFinances.cs:94-118 | Rebuilds the month buckets as BuildMonths describes and changes no other field. |
| Ledger.Finances.LoadYears | PersonalTracker/Finances/Models/AllFinances.cs:121-145 | Rebuilds the year buckets as BuildYears describes and changes no other field. |
| Reports.AddValues | PersonalTracker/Finances/Models/Sorting/CategorizedExpense.cs:72-76 | Keeps the names. The shown Expenses falls by the expense amount (it is stored un-negated) and Income rises by the income amount. |
| Reports.AddValuesAccumulate | PersonalTracker/Finances/Models/Sorting/CategorizedExpense.cs:72-76 | Adding values twice is adding their sums once, in either order. |
| Reports.RowName | PersonalTracker/Finances/Models/Sorting/CategorizedExpense.cs:78 | The text is the major name, " - ", then the minor name, with each part in place. |
| Reports.CategorizedExpense.constructor | PersonalTracker/Finances/Models/Sorting/CategorizedExpense.cs:92-98 | A row built with expenses e shows Expenses = −e and the given Income. |
| Reports.CategorizedExpense.CopyOf | PersonalTracker/Finances/Models/Sorting/CategorizedExpense.cs:102 | The copy constructor as written: same names and income, with the shown Expenses negated. |
| Reports.CategorizedExpense.AddTransactionValues | PersonalTracker/Finances/Models/Sorting/CategorizedExpense.cs:72-76 | The row changes as AddValues says: Expenses down by the expenses added, Income up by the income added. |
| Reports.CategorizedExpense.ToString | PersonalTracker/Finances/Models/Sorting/CategorizedExpense.cs:78 | "<major> - <minor>". |
| Reports.CopyAsWritten | PersonalTracker/Finances/Models/Sorting/CategorizedExpense.cs:102 | The written copy keeps names and income and flips the sign of the shown Expenses. |
| Reports.CopyAsWrittenFlipsSign | PersonalTracker/Finances/Models/Sorting/CategorizedExpense.cs:102 | A row showing −5.00 of expenses is copied as showing +5.00 (see Findings). |
| Reports.Copy | PersonalTracker/Finances/Models/Sorting/CategorizedExpense.cs:102 | The corrected copy equals its original. |
| Reports.CopyAsWrittenWrongUnlessZero | PersonalTracker/Finances/Models/Sorting/CategorizedExpense.cs:102 | The written copy agrees with the corrected one exactly when the row has no expenses. |
| Reports.MinorRows | PersonalTracker/Views/FinanceViews/Reports/MonthlyReportPage.xaml.cs:43-44 | One zero row per minor name of the category, in list order. |
| Reports.Skeleton | PersonalTracker/Views/FinanceViews/Reports/MonthlyReportPage.xaml.cs:37-46 | Every starting row is zero, and none belongs to Transfer. |
| Reports.SkeletonHasRows | PersonalTracker/Views/FinanceViews/Reports/MonthlyReportPage.xaml.cs:40-44 | Each non-Transfer category has its summary row (name, "") and a row for each of its minors. |
| Reports.FindRow | PersonalTracker/Views/FinanceViews/Reports/MonthlyReportPage.xaml.cs:52-53 | List.Find over the rows: the first row with these two names, or −1. |
| Reports.FindRowSameLabels | PersonalTracker/Views/FinanceViews/Reports/MonthlyReportPage.xaml.cs:52-53 | Updating totals never changes which row Find picks. |
| Reports.ListedFinds | PersonalTracker/Views/FinanceViews/Reports/MonthlyReportPage.xaml.cs:48-55 | When every counted transaction's (major, minor) is a listed category, both Finds succeed for every transaction. |
| Reports.Post | PersonalTracker/Views/FinanceViews/Reports/MonthlyReportPage.xaml.cs:50-53 | One loop pass changes totals only, never names or positions. |
| Reports.Tally | PersonalTracker/Views/FinanceViews/Reports/MonthlyReportPage.xaml.cs:48-55 | The whole loop likewise changes totals only. |
| Reports.TallyIgnoresTransfers | PersonalTracker/Views/FinanceViews/Reports/MonthlyReportPage.xaml.cs:50 | The tally over a month equals the tally over its non-Transfer transactions: transfers contribute nothing. |
| Reports.PostSummaryTotals | PersonalTracker/Views/FinanceViews/Reports/MonthlyReportPage.xaml.cs:52-53 | When the transaction names a minor, one pass adds its counted inflow and outflow once to the summary rows' totals. |
| Reports.SummaryTotals | PersonalTracker/Views/FinanceViews/Reports/MonthlyReportPage.xaml.cs:48-55 | When every counted transaction names a minor, the summary rows gain exactly the month's Income and Expenses. |
| Reports.PostBalanced | PersonalTracker/Views/FinanceViews/Reports/MonthlyReportPage.xaml.cs:52-53 | One pass keeps each summary row equal to the sum of its minor rows. |
| Reports.TallyBalanced | PersonalTracker/Views/FinanceViews/Reports/MonthlyReportPage.xaml.cs:48-55 | The whole loop keeps each summary row equal to the sum of its minor rows. |
| Reports.SkeletonBalanced | PersonalTracker/Views/FinanceViews/Reports/MonthlyReportPage.xaml.cs:37-46 | The all-zero starting rows are balanced. |
| Reports.RowOrderTotalPreorder | PersonalTracker/Views/FinanceViews/Reports/MonthlyReportPage.xaml.cs:57 | Ordering by major, then minor, is a total preorder, so the sort is well defined. |
| Reports.LayOutMinors | PersonalTracker/Views/FinanceViews/Reports/MonthlyReportPage.xaml.cs:43-44 | The inner loop builds exactly the zero rows of the minors. |
| Reports.LayOut | PersonalTracker/Views/FinanceViews/Reports/MonthlyReportPage.xaml.cs:37-46 | The first loop builds exactly the starting rows. |
| Reports.TallyRows | PersonalTracker/Views/FinanceViews/Reports/MonthlyReportPage.xaml.cs:48-55 | The second loop produces the tally of the month's transactions. |
| Reports.BuildReport | PersonalTracker/Views/FinanceViews/Reports/MonthlyReportPage.xaml.cs:34-57 | The report is the tally of the month, sorted by major, then minor. |
| Reports.ReportOrdered | PersonalTracker/Views/FinanceViews/Reports/MonthlyReportPage.xaml.cs:57 | The report lists the same rows ordered by major name, and within a major the summary row comes first. |
| Reports.ReportTotals | PersonalTracker/Views/FinanceViews/Reports/MonthlyReportPage.xaml.cs:37-57 | The row count depends on the categories alone. When every counted transaction names a minor, the summary rows total the month's Income and Expenses and each equals the sum of its minor rows. |
| State.Apply | PersonalTracker/Models/AppState.cs:180-184 | A fix-up never touches a transaction's ID, date, payee, memo or amounts. |
| State.ApplyAll | PersonalTracker/Models/AppState.cs:180-184 | The fix-up is applied to each transaction in place, and the length is unchanged. |
| State.FixUp | PersonalTracker/Models/AppState.cs:259-266 | The foreach over AllTransactions computes the fix-up of every transaction. |
| State.FixUpKeepsLedger | PersonalTracker/Models/AppState.cs:180-184 | A fix-up keeps the list newest first and keeps its balance. Unless it clears Transfer, it keeps which transactions count as income. |
| State.RelabelExactly | PersonalTracker/Models/AppState.cs:180-184 | A rename changes exactly the transactions on the old account name, and afterwards none is left on it. |
| State.ClearMajorExactly | PersonalTracker/Models/AppState.cs:259-266 | Removing a major changes exactly the transactions filed under it, clearing both category fields. |
| State.ClearMinorExactly | PersonalTracker/Models/AppState.cs:284-288 | Removing a minor changes exactly the transactions matching both names, clearing only the minor. |
| State.RemoveFirstMultiset | PersonalTracker/Models/AppState.cs:159 | List.Remove takes out exactly one occurrence (as a multiset). |
| State.RemoveEachCount | PersonalTracker/Models/AppState.cs:158-159 | Removing each of an account's transactions leaves the old list less those (as multisets), and the count falls by their number when all were present. |
| State.RemoveFirstNewestFirst | PersonalTracker/Models/AppState.cs:159 | Removing one transaction keeps the list newest first. |
| State.RemoveEachNewestFirst | PersonalTracker/Models/AppState.cs:158-159 | Removing several keeps it newest first. |
| State.FindAccount | PersonalTracker/Models/AppState.cs:161 | List.Remove's search with Account.Equals as written (the element is the receiver): the first such account, or −1. It may be a different account from the one given. |
| State.RemoveAccountSpec | PersonalTracker/Models/AppState.cs:161 | An account in the list is found, since the written equality is reflexive, and exactly one entry is removed; with no equal account the list is unchanged. |
| State.KeyedSortSpec | PersonalTracker/Models/AppState.cs:141 | Sorting by a text key is a permutation with the keys ascending. |
| State.AccountKeys | PersonalTracker/Models/AppState.cs:141 | Pairs each account with its name, the key OrderBy sorts by. |
| State.AccountsByNameSpec | PersonalTracker/Models/AppState.cs:141 | OrderBy(Name) is a permutation of the accounts, in name order. |
| State.AccountKeysSorted | PersonalTracker/Models/AppState.cs:141 | After sorting, each key is still its own account's name. |
| State.CategoryKeys | PersonalTracker/Models/AppState.cs:212 | Pairs each category with its name. |
| State.CategoriesByNameSpec | PersonalTracker/Models/AppState.cs:212 | OrderBy(Name) is a permutation of the categories, in name order. |
| State.CategoryKeysSorted | PersonalTracker/Models/AppState.cs:212 | After sorting, each key is still its own category's name. |
| State.FindCategory | PersonalTracker/Models/AppState.cs:268 | List.Find by name: the first category with the name, or −1. |
| State.MonthsNewestFirstSpec | PersonalTracker/Models/AppState.cs:347 | OrderByDescending(FormattedMonth) is a permutation with later months first. |
| State.LoadedIsBucketed | PersonalTracker/Finances/Models/AllFinances.cs:111-116 | Loaded buckets are consistent: each starts on the 1st and holds only its own month's transactions. |
| State.PlaceTransaction | PersonalTracker/Models/AppState.cs:338-345 | With a month found by Find, only that month takes t, re-sorted. Otherwise a fresh month on the 1st of t's month, holding only t, is appended. Either way t sits in its own month, and consistency is kept. |
| State.AddToFoundMonth | PersonalTracker/Models/AppState.cs:339 | The Find branch: the found month takes t, re-sorted, and stays consistent. |
| State.StartMonth | PersonalTracker/Models/AppState.cs:342-343 | The else branch: a fresh month on the 1st of t's month holding only t, which keeps the buckets consistent. |
| State.BucketedWithNew | PersonalTracker/Models/AppState.cs:342-344 | Appending the new month for a date no bucket contains keeps the buckets consistent. |
| State.AddToMonths | PersonalTracker/Models/AppState.cs:338-347 | The month list after placing t is newest first, t sits in its month, and consistency is kept. |
| State.BucketedPermutation | PersonalTracker/Models/AppState.cs:347 | Reordering the months keeps them consistent. |
| State.AddAccount | PersonalTracker/Models/AppState.cs:135-148 | Returns the database's answer. On success the account is added with the accounts in name order, and its first transaction joins the newest-first ledger list. On failure nothing changes. |
| State.DeleteAccount | PersonalTracker/Models/AppState.cs:153-166 | On success the account's transactions are removed one by one, then the first account that Account.Equals as written matches. On failure nothing changes. |
| State.RemoveTransactionsOf | PersonalTracker/Models/AppState.cs:158-159 | The foreach of DeleteAccount: the ledger loses one occurrence of each given transaction in turn, and no other field changes. |
| State.RenameAccount | PersonalTracker/Models/AppState.cs:172-189 | On success the account has the new name and exactly the ledger transactions on the old name are relabelled. On failure nothing changes. |
| State.AddCategory | PersonalTracker/Models/AppState.cs:200-217 | On success a major adds a fresh empty category, or a minor is appended to the selected one; the categories are then in name order. On failure nothing changes. |
| State.RenameCategory | PersonalTracker/Models/AppState.cs:225-249 | On success the found category is renamed (major), or has the old minor removed and the new one appended (minor), and the list is re-sorted. No transaction changes, since the Select results are discarded. |
| State.RemoveMajorCategory | PersonalTracker/Models/AppState.cs:254-273 | On success every transaction under the major has both categories cleared and the found category is removed. On failure nothing changes. |
| State.SortCategories | PersonalTracker/Models/AppState.cs:212 | The categories become a permutation of themselves in name order, and nothing else changes. |
| State.RemoveFirstAt | PersonalTracker/Models/AppState.cs:268 | Removing the entry Find located removes exactly that position. |
| State.RemoveMinorCategory | PersonalTracker/Models/AppState.cs:279-296 | On success exactly the transactions matching both names lose their minor, and the minor is removed from the found category's list. On failure nothing changes. |
| State.AddFinancialTransaction | PersonalTracker/Models/AppState.cs:333-354 | On success t goes into the month whose range holds its date, or into a new month on the 1st, and the months end newest first. Returns the database's answer; on failure nothing changes. |
| Search.ToLowerBlank | PersonalTracker/Finances/Views/Search/SearchTransactionsPage.xaml.cs:42-53 | Lower-casing a criterion never changes whether it is blank, so testing the lowered text is testing the typed one. |
| Search.MatchesIsChain | PersonalTracker/Finances/Views/Search/SearchTransactionsPage.xaml.cs:50-72 | Passing all eight filters of the chain is the same as satisfying every filled-in criterion. |
| Search.Finish | PersonalTracker/Finances/Views/Search/SearchTransactionsPage.xaml.cs:72-74 | What passed all eight filters is what the matching test keeps. |
| Search.Begin | PersonalTracker/Finances/Views/Search/SearchTransactionsPage.xaml.cs:50 | Before any filter, every transaction passes. |
| Search.NarrowStep | PersonalTracker/Finances/Views/Search/SearchTransactionsPage.xaml.cs:50-72 | Each filter applied to what passed the earlier ones keeps what passes one more. |
| Search.Chain | PersonalTracker/Finances/Views/Search/SearchTransactionsPage.xaml.cs:50-72 | The eight filters in a row keep exactly the matching transactions. |
| Search.SearchPage.constructor | PersonalTracker/Finances/Views/Search/SearchTransactionsPage.xaml.cs:24 | The page starts from a copy of the ledger's transactions. |
| Search.SearchPage.SearchTransaction | PersonalTracker/Finances/Views/Search/SearchTransactionsPage.xaml.cs:39-75 | The matching list becomes its matching sublist, and the result is true exactly when something remains. |
| Search.SearchPage.ApplyFilter | PersonalTracker/Finances/Views/Search/SearchTransactionsPage.xaml.cs:50-72 | One if-guarded Where: the k-th filter, applied only when its criterion is filled in. |
| Search.SearchPage.Reset | PersonalTracker/Finances/Views/Search/SearchTransactionsPage.xaml.cs:78-88 | The list is again a full copy of the ledger's transactions. |
| Search.SearchIsSublist | PersonalTracker/Finances/Views/Search/SearchTransactionsPage.xaml.cs:50-72 | The result is an order-preserving sublist, and a transaction is in it exactly when it was in the list and matches. |
| Search.EmptySearchKeepsAll | PersonalTracker/Finances/Views/Search/SearchTransactionsPage.xaml.cs:50-72 | With no criterion filled in, the list is unchanged. |
| Search.ZeroAmountsAreIgnored | PersonalTracker/Finances/Views/Search/SearchTransactionsPage.xaml.cs:65-69 | A zero amount is no criterion: a transaction's amounts then never affect whether it matches. |
| Search.SearchesNarrow | PersonalTracker/Finances/Views/Search/SearchTransactionsPage.xaml.cs:24 | Two searches in a row keep what matches both sets of criteria. |
| Search.MemoAloneDoesNotEnable | PersonalTracker/Finances/Views/Search/SearchTransactionsPage.xaml.cs:114-118 | The memo never affects the search button, and a form with only a memo leaves it disabled. |
| FinancePages.ParsedTypeOfDisplayName | PersonalTracker/Finances/Views/Accounts/NewAccountPage.xaml.cs:26 | Every type the list offers is recovered from its display name. |
| FinancePages.StartingBalanceCounts | PersonalTracker/Finances/Views/Accounts/NewAccountPage.xaml.cs:28-31 | The opening transaction ("Income" / "Income" / "Starting Balance", outflow 0) makes the balance the entered amount and counts as income. |
| FinancePages.NewAccount | PersonalTracker/Finances/Views/Accounts/NewAccountPage.xaml.cs:26-31 | A fresh account with the typed name, the parsed type and exactly the opening transaction. |
| FinancePages.SubmitNewAccount | PersonalTracker/Finances/Views/Accounts/NewAccountPage.xaml.cs:22-42 | A name already in use (case-sensitively) is refused and nothing changes. Otherwise the account is stored first and the opening transaction is placed only after that succeeds; the outcome tells which step failed. |
| FinancePages.NewAccountEnabledSpec | PersonalTracker/Finances/Views/Accounts/NewAccountPage.xaml.cs:50 | Only whether the name and balance texts are empty matters, and an enabled form has a name and a picked type. |
| FinancePages.CategoryNames | PersonalTracker/Finances/Views/Categories/AddCategoryPage.xaml.cs:29 | The names of the categories, in list order. |
| FinancePages.SubmitCategory | PersonalTracker/Finances/Views/Categories/AddCategoryPage.xaml.cs:25-39 | A duplicate major or minor name makes no call, does not close and changes nothing. Otherwise the page closes exactly when the database accepts, with the category added as AddCategory says. |
| FinancePages.CategoriesByNameNames | PersonalTracker/Models/AppState.cs:212 | Sorting the categories moves their names and nothing else. |
| FinancePages.SortedNames | PersonalTracker/Models/AppState.cs:212 | The sorted categories' names are the sorted keys. |
| FinancePages.MajorGuardKeepsNamesUnique | PersonalTracker/Finances/Views/Categories/AddCategoryPage.xaml.cs:29-31 | The major guard keeps the category names free of duplicates. |
| FinancePages.MinorGuardKeepsNamesUnique | PersonalTracker/Finances/Views/Categories/AddCategoryPage.xaml.cs:35-37 | The minor guard keeps the selected category's minor names free of duplicates. |
| CreditScores.ProviderNameInjective | PersonalTracker/Finances/Models/Data/CreditScore.cs:80 | Each bureau has a non-empty name of its own. |
| CreditScores.BlankIffNoDate | PersonalTracker/Finances/Models/Data/CreditScore.cs:77-87 | The date, provider and FICO texts are each "" exactly when the date is the minimum value. |
| CreditScores.TextsReadBack | PersonalTracker/Finances/Models/Data/CreditScore.cs:77-87 | For dated scores, the date text identifies the date and sorts as dates do, the provider text the provider, and the FICO text the flag ("FICO" / "Not FICO"). |
| CreditScores.ScoreEqualsSpec | PersonalTracker/Finances/Models/Data/CreditScore.cs:93-98 | Two nulls are equal and exactly one null is not. Present scores are equal exactly when they agree once the source is lower-cased, and the relation is an equivalence. |
| CreditScores.CaseOfSourceIgnored | PersonalTracker/Finances/Models/Data/CreditScore.cs:97 | A score is equal to itself with its source in a different case. |
| CreditScores.CopyEqualsOriginal | PersonalTracker/Finances/Models/Data/CreditScore.cs:138 | A copy equals its original, and so does everything equal to the original. |
| CreditScores.ToStringParts | PersonalTracker/Finances/Models/Data/CreditScore.cs:110 | "<date> - <source> - <score>": the text begins with the date text and " - ", ends with the score's numeral, and its first ten characters fix the date. |
| Lenses.SideNames | PersonalTracker/Lenses/Models/Contact.cs:58 | The two side names differ, and "Left" sorts before "Right". |
| Lenses.DateTextsReadBack | PersonalTracker/Lenses/Models/Contact.cs:52-55 | The two "yyyy/MM/dd" texts identify their dates and sort as the dates do. |
| Lenses.ContactEqualsSpec | PersonalTracker/Lenses/Models/Contact.cs:64-69 | Equality (both dates and the side; two nulls equal, one null not) is exactly value equality. |
| Lenses.CopyContactEquals | PersonalTracker/Lenses/Models/Contact.cs:105 | A copy equals its original. |
| Lenses.ToStringReadsBack | PersonalTracker/Lenses/Models/Contact.cs:81 | "<date> - <side>": length 13 plus the side name, with its parts in place. Two texts are equal exactly when the insertion dates and sides are. |
| Users.LensLeTotalPreorder | PersonalTracker/Models/User.cs:130-134 | Date descending, then side name, is a total preorder. |
| Users.SortedNewestFirst | PersonalTracker/Models/User.cs:130-134 | Being sorted under that order is the direct lens order, in both directions. |
| Users.SortLensesSpec | PersonalTracker/Models/User.cs:130-134 | Re-sorting the lenses is a permutation into the lens order, and equal-key insertions keep their relative order. |
| Users.VehicleLeTotalPreorder | PersonalTracker/Models/User.cs:151-156 | Ordering by nickname is a total preorder. |
| Users.SortVehiclesSpec | PersonalTracker/Models/User.cs:151-156 | Re-sorting the vehicles is a permutation into nickname order, and equal nicknames keep their relative order. |
| Users.RemoveKeepsByNickname | PersonalTracker/Models/User.cs:170-174 | Removing one vehicle, which does not re-sort, takes one occurrence out and keeps a nickname-ordered list ordered. |
| Users.PaddedIDSpec | PersonalTracker/Models/User.cs:92 | A non-negative ID becomes at least five decimal digits, zero-padded, that read back as the ID. Distinct IDs give distinct names. |
| Users.ReadsBack | PersonalTracker/Models/User.cs:92 | The padded text reads back as the ID. |
| Users.PaddedIDExample | PersonalTracker/Models/User.cs:92 | ID 42 gives "00042". |
| Users.User.constructor | PersonalTracker/Models/User.cs:215-219 | A new user has the name and the already-hashed password, and no lenses or vehicles. |
| Users.User.UserIDToString | PersonalTracker/Models/User.cs:92 | At least five characters, reading back as the ID when it is non-negative. |
| Users.User.AddContactLens | PersonalTracker/Models/User.cs:106-110 | The list gains exactly the insertion, comes out in the lens order, and the other fields are untouched. |
| Users.User.ModifyContactLens | PersonalTracker/Models/User.cs:115-119 | The first insertion equal to the original is swapped for the replacement, the list re-sorted. Without one, only the re-sort happens. |
| Users.User.RemoveContactLens | PersonalTracker/Models/User.cs:123-127 | At most one occurrence is removed, and the list is re-sorted into the lens order. |
| Users.User.UpdateContactLenses | PersonalTracker/Models/User.cs:130-134 | The lenses become a permutation of themselves in the lens order. |
| Users.User.SetLenses | PersonalTracker/Models/User.cs:138-143 | Stores the given insertions in the given order, unsorted. |
| Users.User.AddVehicle | PersonalTracker/Models/User.cs:151-156 | The vehicles gain exactly the new one, in nickname order. |
| Users.User.ModifyVehicle | PersonalTracker/Models/User.cs:161-166 | The first vehicle equal to the original is replaced, and the list ends in nickname order. |
| Users.User.RemoveVehicle | PersonalTracker/Models/User.cs:170-174 | At most one occurrence is removed, without re-sorting; a nickname-ordered list stays ordered. |
| Users.User.SetVehicles | PersonalTracker/Models/User.cs:178-183 | Stores the given vehicles in the given order, unsorted. |
| Users.ReplaceAt | PersonalTracker/Models/User.cs:117 | Replacing an element swaps one occurrence of the old value for one of the new (as multisets). |
| LensesPage.ReplacementDateSpec | PersonalTracker/Views/LensesViews/LensesPage.xaml.cs:21-35 | "1 week", "2 weeks" and "30 days" give a valid date exactly 7, 14 or 30 calendar days later, across month ends, year ends and 29 February. Any other label gives the insertion day itself. |
| LensesPage.NewContactsSpec | PersonalTracker/Views/LensesViews/LensesPage.xaml.cs:36-37 | One insertion per requested side, all sharing the insertion and replacement dates; Both gives Left, then Right. |
| LensesPage.Accepted | PersonalTracker/Models/AppState.cs:403-411 | The insertions the database accepted are drawn from those offered. |
| LensesPage.AllAccepted | PersonalTracker/Models/AppState.cs:403-411 | When every call succeeds, every insertion is accepted. |
| LensesPage.AddedInTurnSpec | PersonalTracker/Models/User.cs:106-110 | Adding insertions one by one gains exactly them (as a multiset), and the list then ends in the lens order. |
| LensesPage.AddContact | PersonalTracker/Models/AppState.cs:403-411 | Returns the database's answer. On success the insertion is added to the user's lenses (re-sorted); otherwise the user is unchanged. |
| LensesPage.NewContact | PersonalTracker/Views/LensesViews/LensesPage.xaml.cs:19-39 | The lenses end as though each accepted insertion of the press had been added in turn, and nothing else of the user changes. |
| LensesPage.PressAddsEverySide | PersonalTracker/Views/LensesViews/LensesPage.xaml.cs:36-37 | When the database accepts every call, a press adds one insertion per side of its button, and the list ends in the lens order. |
| UserPages.CreateClickSpec | PersonalTracker/Views/NewUserPage.xaml.cs:16-47 | Each notice is raised exactly when its check (username, then both lengths ≥ 4, then match) is the first to fail. A user reaches the database only when all pass, carrying the hash and not the password. |
| UserPages.NewUser | PersonalTracker/Views/NewUserPage.xaml.cs:24-25 | A user is built exactly when the checks pass, fresh, with the username and the hashed password. |
| UserPages.PasswordRuleSpec | PersonalTracker/Views/ModifyUserPage.xaml.cs:16-42 | Each notice comes exactly when its check is the first to fail. The checks run in order: current validates, both lengths ≥ 4, new = confirm, new ≠ current. Success needs all four. |
| UserPages.Submit | PersonalTracker/Views/ModifyUserPage.xaml.cs:16-42 | The notice is the ladder's verdict on the stored password. On success the stored password becomes the hash of the new one; otherwise, and for every other field, nothing changes. |
| UserPages.SubmitEnabledSpec | PersonalTracker/Views/ModifyUserPage.xaml.cs:52 | A successful change had non-empty boxes, yet the enable rule is weaker than the checks: enabled one-character passwords still fail the length check. |
| Media.NameLeTotalPreorder | PersonalTracker/Media/Models/AllMedia.cs:53-57 | Ordering by name is a total preorder. |
| Media.SortSeriesSpec | PersonalTracker/Media/Models/AllMedia.cs:53-57 | Sorting by name is a permutation into name order, and equal names keep their relative order. |
| Media.DeleteKeepsByName | PersonalTracker/Media/Models/AllMedia.cs:41 | Deleting takes one occurrence out without re-sorting, and a name-ordered list stays ordered. |
| Media.ReplaceCount | PersonalTracker/Media/Models/AllMedia.cs:46-50 | Replacing the first equal series swaps one occurrence of the old for one of the new, and the count is unchanged. |
| Media.AllMedia.constructor | PersonalTracker/Media/Models/AllMedia.cs:63 | Starts from the given series, assigned as AssignSeries does. |
| Media.AllMedia.AssignSeries | PersonalTracker/Media/Models/AllMedia.cs:20-29 | The contents become a copy of the input, sorted by name when it is not empty. |
| Media.AllMedia.AddSeries | PersonalTracker/Media/Models/AllMedia.cs:33-37 | The count grows by one, the new series is present, and the list is in name order. |
| Media.AllMedia.DeleteSeries | PersonalTracker/Media/Models/AllMedia.cs:41 | At most one occurrence is removed without re-sorting, and a name-ordered list stays ordered. |
| Media.AllMedia.ModifySeries | PersonalTracker/Media/Models/AllMedia.cs:46-50 | The first series equal to the old one is replaced by the new one, and the list ends in name order. |
| Media.AllMedia.UpdateSeries | PersonalTracker/Media/Models/AllMedia.cs:53-57 | The list becomes its stable sort by name. |
| Media.AiringLeTotalPreorder | PersonalTracker/Media/Views/Television/TelevisionPage.xaml.cs:56-57 | Day, then time, then name is a total preorder. |
| Media.RadioListSpec | PersonalTracker/Media/Views/Television/TelevisionPage.xaml.cs:52-64 | All shows every series in name order. Airing shows exactly the airing series by day, time and name. Ended, Hiatus and Nope show exactly that status, in name order. |
| Media.RadioListMembers | PersonalTracker/Media/Views/Television/TelevisionPage.xaml.cs:54-63 | A series is in a button's list exactly when it is a known series of that button's status (any, for All). |
| Media.ShownSpec | PersonalTracker/Media/Views/Television/TelevisionPage.xaml.cs:34-46 | Without search text the given list is shown unchanged. With it, the page shows in name order exactly the series whose name contains the text ignoring case, taken from all series when All is ticked and from the given list otherwise. |
| Media.TelevisionPage.constructor | PersonalTracker/Media/Views/Television/TelevisionPage.xaml.cs:34 | The page starts with an empty list. |
| Media.TelevisionPage.RefreshItemsSource | PersonalTracker/Media/Views/Television/TelevisionPage.xaml.cs:34-46 | The page's list becomes what ShownSpec describes. |
| Media.TelevisionPage.CheckRadio | PersonalTracker/Media/Views/Television/TelevisionPage.xaml.cs:52-64 | The checked button's list, passed through the search. |
| Media.PageShowsOnlyKnownSeries | PersonalTracker/Media/Views/Television/TelevisionPage.xaml.cs:34-64 | Whatever button and search are applied, every series shown is a known series. |

## Left out

- Database I/O (SQLite) is not modelled. Each call is a `bool` answer passed in, and the row-to-object loading of the database layer is not part of this model.
- Password hashing and validation (PBKDF2 / Argon2) are uninterpreted function parameters.
- WPF pages are not modelled: navigation, notifications, controls, the `Dispatcher` and the `C2` currency formatting. Each form's logic is modelled with the parsed control values as parameters.
- `async`/`await` is treated as sequential. In the change-password form, the save is not awaited and its answer is never read; `UserPages.Submit` models it that way.
- Time of day is not modelled. `DateTime.Now` in the new-account form carries a time of day, which can lie after the last month's `MonthEnd.Date` when bucketing. The model uses whole days.
- Culture rules are not modelled: string order is ordinal and `ToLower` is ASCII only.
- The source files of FinancialTransaction, Series, Vehicle, Year and the enum types are not modelled. These types are value datatypes with the fields the core reads, compared by value. Year is assumed to behave like Month (first day, sorted list, totals without transfers).
- The source of the `List.Replace` extension is not modelled. It is taken to replace the first element equal to the old one.
- Transactions are values. The source relabels transaction objects that the ledger, the accounts and the months share; the model updates only the ledger's list (`AllTransactions`), so aliasing between those lists is left out.
- `User.Equals` and every `GetHashCode` compare references or depend on them, so they are left out.
- `List.Sort()` on strings is unstable. It is modelled by the stable `SortBy` (`Text.SortStringsCanonical` shows the result is the same).
- Crash paths become preconditions: an index out of range, a `Find` that returns null (a report transaction under an unlisted category, a month bucket missing), `AddDays` past 9999/12/31.
- Ledger.Finances.constructor: computes the same lists before assigning the fields, instead of calling LoadMonths/LoadYears after the assignment. The effect on the fields is the same.
- Ledger.BuildMonths: requires Loadable: valid dates, each in a month from the oldest transaction's to the newest bucket's. On any other list the source's Find returns null and LoadMonths throws; the model does not describe that crash. Ledger.BuildYears, Ledger.Finances.LoadYears and Ledger.EachTransactionInOneYear require the same per year (YearLoadable); Ledger.Finances.constructor and Ledger.Finances.LoadMonths require it per month.
- Reports.ReportTotals: requires every counted transaction to name a minor category. With an empty minor, both Finds pick the summary row and the amount is added to it twice; Post models this, but no lemma states a total for that case.
- Reports.BuildReport: the report rows are values, not `CategorizedExpense` objects.
- State.RemoveMajorCategory: the category to remove is looked up before the transactions are cleared, which is the same because the loop never changes categories.
- State.RenameCategory: the transaction `Select` results are discarded, so no transaction changes; that is the modelled behaviour, not an omission.
- Search.SearchPage.SearchTransaction: the criteria arrive parsed (`DateTimeHelper.Parse`, `DecimalHelper.Parse` and the selected names are outside this model). The eight filter steps are factored into `ApplyFilter`.
- FinancePages.ParsedType: a type text that is no member name leaves the enum at its default, written Undefined here.
- The add-category enable rule (`CategoryEnabled`, a non-empty name) and the lens page's add-button rule (`LensesPage.AddButtonsEnabled`, a non-empty date text) are plain predicates with no lemma of their own.
- Users.PaddedIDSpec: states nothing for negative IDs, whose text starts with '-'. User IDs come from the database and are non-negative.
- LensesPage.ReplacementDateSpec: requires the replacement day to be no later than 9999/12/31: at most 7, 14 or 30 days of room for the three labels, and none for any other. On later dates `AddDays` throws; that crash is not modelled.
- LensesPage.NewContact: the selected date arrives already parsed (`DateTimeHelper.Parse` is outside this model).
- Modifying a transaction from the transaction pages (`ModifyFinancialTransaction`) is not part of the modelled core.
- The older copies (`Models/FinanceModels/...`, `Models/Media.cs`) are not modelled separately. They share one model with the newer copies.

## Findings

| source | as written | input that shows it | evidently intended | confidence | as-written member | corrected member |
|---|---|---|---|---|---|---|
| PersonalTracker/Finances/Models/Sorting/CategorizedExpense.cs:102 | The copy constructor passes `other.Expenses`, the already-negated getter, to a constructor that stores it un-negated. The copy shows the opposite sign. | A row built with expenses 5.00 shows −5.00; its copy shows +5.00. | A copy equal to the original. | not executed | Reports.CopyAsWrittenFlipsSign | Reports.CopyAsWrittenWrongUnlessZero |
| PersonalTracker/Finances/Models/Data/Account.cs:124 | Equal counts plus an empty `Except` do not compare transactions with multiplicity, so Equals is not symmetric. | Left holds [x, x] and right holds [x, y], with equal balances: left equals right, but right does not equal left. | The same transactions with the same multiplicities, a symmetric relation. | not executed | Accounts.EqualsAsWrittenNotSymmetric | Accounts.SameAccountSpec |

Account removal (`State.DeleteAccount`) keeps the equality as written, because `List.Remove` calls it. The intended equality gives the same answer whenever no account lists a transaction twice (`Accounts.WrittenEqualsAgreesWithoutRepeats`). That holds for accounts loaded from the database, where each transaction has its own ID.
