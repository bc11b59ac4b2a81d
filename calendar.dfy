/** Calendar dates as whole days in the proleptic Gregorian calendar, the
    part of System.DateTime the tracker uses: days-in-month, the first and
    last day of a month, AddDays / AddMonths / AddYears, the custom formats
    "yyyy/MM/dd", "yyyy/MM" and "yyyy", and DateTime.MinValue as "no date". */
module Calendar {
  import opened Text

  datatype Date = Date(year: int, month: int, day: int)

  predicate IsLeapYear(y: int)
  {
    y % 4 == 0 && (y % 100 != 0 || y % 400 == 0)
  }

  function DaysInMonth(y: int, m: int): int
  {
    if m == 2 then (if IsLeapYear(y) then 29 else 28)
    else if m == 4 || m == 6 || m == 9 || m == 11 then 30
    else 31
  }

  /** The dates DateTime can hold: years 1 to 9999. */
  predicate Valid(d: Date)
  {
    1 <= d.year <= 9999 && 1 <= d.month <= 12 && 1 <= d.day <= DaysInMonth(d.year, d.month)
  }

  const MinValue := Date(1, 1, 1)
  const MaxValue := Date(9999, 12, 31)

  /** Chronological order of whole days. */
  predicate AtMost(a: Date, b: Date)
  {
    a.year < b.year || (a.year == b.year && (a.month < b.month || (a.month == b.month && a.day <= b.day)))
  }

  predicate Before(a: Date, b: Date)
  {
    AtMost(a, b) && a != b
  }

  /** Months counted from year 0, so consecutive calendar months differ by one. */
  function MonthIndex(d: Date): int
  {
    d.year * 12 + d.month - 1
  }

  function FirstOfMonth(d: Date): (r: Date)
    requires Valid(d)
    ensures Valid(r) && r.day == 1 && MonthIndex(r) == MonthIndex(d)
  {
    Date(d.year, d.month, 1)
  }

  /** The last day of d's month (a month's start + 1 month - 1 day). */
  function LastOfMonth(d: Date): (r: Date)
    requires Valid(d)
    ensures Valid(r) && MonthIndex(r) == MonthIndex(d)
    ensures forall e :: Valid(e) && MonthIndex(e) == MonthIndex(d) ==> AtMost(e, r)
  {
    Date(d.year, d.month, DaysInMonth(d.year, d.month))
  }

  /** A valid day lies between the first and last day of a month exactly when
      it belongs to that month. */
  lemma InMonthRange(start: Date, e: Date)
    requires Valid(start) && Valid(e)
    ensures AtMost(FirstOfMonth(start), e) && AtMost(e, LastOfMonth(start)) <==> MonthIndex(e) == MonthIndex(start)
  {
  }

  lemma MonthIndexOrder(a: Date, b: Date)
    requires Valid(a) && Valid(b)
    ensures AtMost(a, b) ==> MonthIndex(a) <= MonthIndex(b)
    ensures MonthIndex(a) < MonthIndex(b) ==> Before(a, b)
    ensures MonthIndex(a) == MonthIndex(b) <==> a.year == b.year && a.month == b.month
  {
  }

  function Min(a: int, b: int): int
  {
    if a <= b then a else b
  }

  /** DateTime.AddMonths: n calendar months later, the day clamped to the
      length of the target month. */
  function AddMonths(d: Date, n: int): (r: Date)
    requires Valid(d) && 12 <= MonthIndex(d) + n < 120000
    ensures Valid(r) && MonthIndex(r) == MonthIndex(d) + n
    ensures r.day <= d.day && (r.day < d.day ==> r.day == DaysInMonth(r.year, r.month))
  {
    var k := MonthIndex(d) + n;
    Date(k / 12, k % 12 + 1, Min(d.day, DaysInMonth(k / 12, k % 12 + 1)))
  }

  /** DateTime.AddYears: the same month n years later, 29 February becoming
      28 February outside leap years. */
  function AddYears(d: Date, n: int): (r: Date)
    requires Valid(d) && 1 <= d.year + n <= 9999
    ensures Valid(r) && r.year == d.year + n && r.month == d.month
    ensures r.day <= d.day && (r.day < d.day ==> r.day == DaysInMonth(r.year, r.month))
  {
    Date(d.year + n, d.month, Min(d.day, DaysInMonth(d.year + n, d.month)))
  }

  // -------------------------------------------------------- day numbers

  function DaysInYear(y: int): int
  {
    if IsLeapYear(y) then 366 else 365
  }

  /** Days in the years before y, counting from 1 January of year 1. */
  function DaysBeforeYear(y: int): nat
    decreases y
  {
    if y <= 1 then 0 else DaysBeforeYear(y - 1) + DaysInYear(y - 1)
  }

  /** Days in the months of year y before month m. */
  function DaysBeforeMonth(y: int, m: int): nat
    decreases m
  {
    if m <= 1 then 0 else DaysBeforeMonth(y, m - 1) + DaysInMonth(y, m - 1)
  }

  /** Days since 1 January of year 1. */
  function DayNumber(d: Date): int
  {
    DaysBeforeYear(d.year) + DaysBeforeMonth(d.year, d.month) + d.day - 1
  }

  lemma WholeYear(y: int)
    ensures DaysBeforeMonth(y, 13) == DaysInYear(y)
  {
    assert DaysBeforeMonth(y, 3) == 31 + DaysInMonth(y, 2);
    assert DaysBeforeMonth(y, 7) == DaysBeforeMonth(y, 3) + 31 + 30 + 31 + 30;
    assert DaysBeforeMonth(y, 13) == DaysBeforeMonth(y, 7) + 31 + 31 + 30 + 31 + 30 + 31;
  }

  /** The day after d. */
  function NextDay(d: Date): (r: Date)
    requires Valid(d) && d != MaxValue
    ensures Valid(r) && Before(d, r) && DayNumber(r) == DayNumber(d) + 1
  {
    if d.day < DaysInMonth(d.year, d.month) then Date(d.year, d.month, d.day + 1)
    else if d.month < 12 then Date(d.year, d.month + 1, 1)
    else WholeYear(d.year); Date(d.year + 1, 1, 1)
  }

  /** DateTime.AddDays for a whole, non-negative number of days. */
  function AddDays(d: Date, n: nat): (r: Date)
    requires Valid(d) && DayNumber(d) + n <= DayNumber(MaxValue)
    ensures Valid(r) && DayNumber(r) == DayNumber(d) + n
    ensures n > 0 ==> Before(d, r)
    decreases n
  {
    if n == 0 then d else AddDays(NextDay(d), n - 1)
  }

  lemma {:induction false} DaysBeforeMonthGrows(y: int, m: int, k: int)
    requires 1 <= m <= k <= 13
    ensures DaysBeforeMonth(y, m) + (if m < k then DaysInMonth(y, m) else 0) <= DaysBeforeMonth(y, k)
    decreases k - m
  {
    if m < k {
      if m + 1 < k {
        DaysBeforeMonthGrows(y, m + 1, k);
      }
    }
  }

  lemma {:induction false} DaysBeforeYearGrows(y: int, k: int)
    requires 1 <= y <= k
    ensures DaysBeforeYear(y) + (if y < k then DaysInYear(y) else 0) <= DaysBeforeYear(k)
    decreases k - y
  {
    if y + 1 < k {
      DaysBeforeYearGrows(y + 1, k);
    }
  }

  /** Day numbers follow the calendar: a day comes before another exactly when
      its number is smaller, so a valid date is determined by its number. */
  lemma DayNumberOrder(a: Date, b: Date)
    requires Valid(a) && Valid(b)
    ensures Before(a, b) <==> DayNumber(a) < DayNumber(b)
    ensures a == b <==> DayNumber(a) == DayNumber(b)
  {
    if Before(a, b) {
      DayNumberBefore(a, b);
    } else if Before(b, a) {
      DayNumberBefore(b, a);
    }
  }

  lemma DayNumberBefore(a: Date, b: Date)
    requires Valid(a) && Valid(b) && Before(a, b)
    ensures DayNumber(a) < DayNumber(b)
  {
    if a.year < b.year {
      DaysBeforeMonthGrows(a.year, a.month, 13);
      WholeYear(a.year);
      DaysBeforeYearGrows(a.year, b.year);
    } else if a.month < b.month {
      DaysBeforeMonthGrows(a.year, a.month, b.month);
    }
  }

  // -------------------------------------------------------- formatting

  /** The custom format "yyyy/MM/dd". */
  function FormatDate(d: Date): (r: string)
    requires Valid(d)
    ensures |r| == 10 && r[4] == '/' && r[7] == '/'
  {
    Digits(d.year, 4) + ("/" + (Digits(d.month, 2) + ("/" + Digits(d.day, 2))))
  }

  /** The custom format "yyyy/MM". */
  function FormatMonth(d: Date): (r: string)
    requires Valid(d)
    ensures |r| == 7 && r[4] == '/'
  {
    Digits(d.year, 4) + ("/" + Digits(d.month, 2))
  }

  /** The custom format "yyyy". */
  function FormatYear(d: Date): (r: string)
    requires Valid(d)
    ensures |r| == 4
  {
    Digits(d.year, 4)
  }

  /** A fixed-width number followed by more text compares by the number first. */
  lemma DigitsThen(n: nat, m: nat, w: nat, c: string, d: string)
    requires n < Pow10(w) && m < Pow10(w)
    ensures StrLe(Digits(n, w) + c, Digits(m, w) + d) == if n == m then StrLe(c, d) else n < m
  {
    StrLeAppend(Digits(n, w), c, Digits(m, w), d);
    DigitsOrder(n, m, w);
    if Digits(n, w) == Digits(m, w) {
      DigitsInjective(n, m, w);
    }
  }

  lemma SlashThen(c: string, d: string)
    ensures StrLe("/" + c, "/" + d) == StrLe(c, d)
  {
    StrLeCons('/', c, '/', d);
  }

  lemma FourDigitYears()
    ensures Pow10(4) == 10000 && Pow10(2) == 100
  {
  }

  /** Sorting "yyyy/MM/dd" strings ordinally sorts the dates chronologically. */
  lemma FormatDateOrder(a: Date, b: Date)
    requires Valid(a) && Valid(b)
    ensures StrLe(FormatDate(a), FormatDate(b)) <==> AtMost(a, b)
  {
    FourDigitYears();
    var da := Digits(a.day, 2);
    var db := Digits(b.day, 2);
    DigitsThen(a.day, b.day, 2, [], []);
    assert da + [] == da && db + [] == db;
    SlashThen(da, db);
    DigitsThen(a.month, b.month, 2, "/" + da, "/" + db);
    SlashThen(Digits(a.month, 2) + ("/" + da), Digits(b.month, 2) + ("/" + db));
    DigitsThen(a.year, b.year, 4, "/" + (Digits(a.month, 2) + ("/" + da)), "/" + (Digits(b.month, 2) + ("/" + db)));
  }

  /** Distinct dates print differently. */
  lemma FormatDateInjective(a: Date, b: Date)
    requires Valid(a) && Valid(b) && FormatDate(a) == FormatDate(b)
    ensures a == b
  {
    StrLeTotal(FormatDate(a), FormatDate(a));
    FormatDateOrder(a, b);
    FormatDateOrder(b, a);
  }

  /** Sorting "yyyy/MM" strings ordinally sorts months chronologically. */
  lemma FormatMonthOrder(a: Date, b: Date)
    requires Valid(a) && Valid(b)
    ensures StrLe(FormatMonth(a), FormatMonth(b)) <==> MonthIndex(a) <= MonthIndex(b)
  {
    FourDigitYears();
    DigitsThen(a.month, b.month, 2, [], []);
    assert Digits(a.month, 2) + [] == Digits(a.month, 2) && Digits(b.month, 2) + [] == Digits(b.month, 2);
    SlashThen(Digits(a.month, 2), Digits(b.month, 2));
    DigitsThen(a.year, b.year, 4, "/" + Digits(a.month, 2), "/" + Digits(b.month, 2));
  }

  /** Sorting "yyyy" strings ordinally sorts years chronologically. */
  lemma FormatYearOrder(a: Date, b: Date)
    requires Valid(a) && Valid(b)
    ensures StrLe(FormatYear(a), FormatYear(b)) <==> a.year <= b.year
  {
    FourDigitYears();
    DigitsOrder(a.year, b.year, 4);
  }
}
