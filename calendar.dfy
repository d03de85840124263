// Calendar arithmetic used by the spreadsheet normaliser and by the forecast:
// Python `datetime.date` values, the last day of a month, the date rebuilt
// from a row's position, and `dateutil.relativedelta(months=k)` addition.
module Calendar {
  import opened Common

  /** Python's `datetime.MINYEAR` and `datetime.MAXYEAR`: a `date` outside
      these years cannot be built (`ValueError`). */
  const MinYear: int := 1
  const MaxYear: int := 9999

  datatype Date = Date(year: int, month: int, day: int)

  /** The Gregorian leap-year rule of the proleptic calendar Python uses. */
  predicate IsLeapYear(year: int) {
    year % 4 == 0 && (year % 100 != 0 || year % 400 == 0)
  }

  /** Number of days of a month, as `calendar.monthrange(year, month)[1]`. */
  function DaysInMonth(year: int, month: int): (n: int)
    requires 1 <= month <= 12
    ensures 28 <= n <= 31
    ensures month == 2 ==> (n == 29 <==> IsLeapYear(year))
    ensures month != 2 ==> (n == 30 <==> month in {4, 6, 9, 11})
  {
    if month == 2 then (if IsLeapYear(year) then 29 else 28)
    else if month == 4 || month == 6 || month == 9 || month == 11 then 30
    else 31
  }

  /** A value `datetime.date(year, month, day)` accepts. */
  predicate ValidDate(d: Date) {
    && MinYear <= d.year <= MaxYear
    && 1 <= d.month <= 12
    && 1 <= d.day <= DaysInMonth(d.year, d.month)
  }

  /** The calendar successor of a date: the reference against which the
      program's "one day back" step is checked. */
  function NextDay(d: Date): Date
    requires 1 <= d.month <= 12
  {
    if d.day < DaysInMonth(d.year, d.month) then Date(d.year, d.month, d.day + 1)
    else if d.month < 12 then Date(d.year, d.month + 1, 1)
    else Date(d.year + 1, 1, 1)
  }

  /** `d - datetime.timedelta(days=1)` for a date that is not the first day
      Python can represent. */
  function PreviousDay(d: Date): (r: Date)
    requires ValidDate(d) && d != Date(MinYear, 1, 1)
    ensures ValidDate(r) && NextDay(r) == d
  {
    if d.day > 1 then Date(d.year, d.month, d.day - 1)
    else if d.month > 1 then Date(d.year, d.month - 1, DaysInMonth(d.year, d.month - 1))
    else Date(d.year - 1, 12, 31)
  }

  /** A date whose next day starts a new month. */
  predicate IsMonthEnd(d: Date)
    requires 1 <= d.month <= 12
  {
    NextDay(d).day == 1
  }

  /** `__last_day_of_month`: December is set to the 31st; any other month is
      moved to the 1st of the next month and stepped back by one day. */
  function LastDayOfMonth(d: Date): (r: Date)
    requires ValidDate(d)
    ensures ValidDate(r) && r.year == d.year && r.month == d.month
    ensures r.day == DaysInMonth(d.year, d.month)
    ensures IsMonthEnd(r)
  {
    if d.month == 12 then Date(d.year, 12, 31)
    else PreviousDay(Date(d.year, d.month + 1, 1))
  }

  /** February ends on the 29th exactly in Gregorian leap years. */
  lemma FebruaryEnd(year: int)
    requires MinYear <= year <= MaxYear
    ensures LastDayOfMonth(Date(year, 2, 1)).day == if IsLeapYear(year) then 29 else 28
  {
  }

  /** `__calculate_date`: the month comes from the row's index label alone,
      `(index mod 12) + 1`; the day is the last day of that month in the
      row's year. `datetime.date` rejects a year outside MinYear..MaxYear. */
  function CalculateDate(index: nat, year: int): (r: Option<Date>)
    ensures r.Some? <==> MinYear <= year <= MaxYear
    ensures r.Some? ==> && ValidDate(r.value)
                        && r.value.year == year
                        && r.value.month == index % 12 + 1
                        && r.value.day == DaysInMonth(year, index % 12 + 1)
  {
    if MinYear <= year <= MaxYear then
      var month := index % 12 + 1;
      var end := LastDayOfMonth(Date(year, month, 1));
      Some(Date(end.year, end.month, end.day))
    else None
  }

  /** Rows twelve positions apart fall in the same month. */
  lemma {:induction false} CalculateDatePeriodic(index: nat, year: int)
    requires MinYear <= year <= MaxYear
    ensures CalculateDate(index + 12, year) == CalculateDate(index, year)
  {
    assert (index + 12) % 12 == index % 12;
  }

  /** Months counted from January of year 0: the scale on which "advance by
      k months" is plain addition. */
  function MonthIndex(d: Date): int {
    d.year * 12 + (d.month - 1)
  }

  function Min(a: int, b: int): int {
    if a <= b then a else b
  }

  /** `d + relativedelta(months=k)` as dateutil computes it: the constructor
      splits k into whole years and at most 11 months; the addition adds the
      months with a carry into the year and clamps the day to the length of
      the target month. The final `date.replace` fails past MaxYear. */
  function AddMonths(d: Date, k: nat): (r: Option<Date>)
    requires ValidDate(d)
  {
    var years, months := k / 12, k % 12;
    var month0 := d.month + months;
    var year := if month0 > 12 then d.year + years + 1 else d.year + years;
    var month := if month0 > 12 then month0 - 12 else month0;
    var day := Min(DaysInMonth(year, month), d.day);
    if year > MaxYear then None else Some(Date(year, month, day))
  }

  /** The month law of AddMonths: it is defined exactly while the target
      year is representable, it lands k months later on the month scale,
      and it keeps the day unless the target month is too short. */
  lemma {:induction false} AddMonthsLaw(d: Date, k: nat)
    requires ValidDate(d)
    ensures AddMonths(d, k).Some? <==> MonthIndex(d) + k < (MaxYear + 1) * 12
    ensures AddMonths(d, k).Some? ==>
      var r := AddMonths(d, k).value;
      && ValidDate(r)
      && MonthIndex(r) == MonthIndex(d) + k
      && r.day == Min(d.day, DaysInMonth(r.year, r.month))
  {
    var years, months := k / 12, k % 12;
    assert k == 12 * years + months;
    var month0 := d.month + months;
    if month0 > 12 {
      assert MonthIndex(d) + k == (d.year + years + 1) * 12 + (month0 - 12 - 1);
    } else {
      assert MonthIndex(d) + k == (d.year + years) * 12 + (month0 - 1);
    }
  }

  /** Strict chronological order on dates. */
  predicate Before(a: Date, b: Date) {
    a.year < b.year || (a.year == b.year && (a.month < b.month || (a.month == b.month && a.day < b.day)))
  }

  lemma MonthIndexOrder(a: Date, b: Date)
    requires 1 <= a.month <= 12 && 1 <= b.month <= 12
    requires MonthIndex(a) < MonthIndex(b)
    ensures Before(a, b)
  {
  }

  /** Advancing by more months gives a strictly later date, and advancing
      by at least one month leaves the start date behind. */
  lemma {:induction false} AddMonthsIncreasing(d: Date, i: nat, j: nat)
    requires ValidDate(d) && i < j
    requires AddMonths(d, j).Some?
    ensures AddMonths(d, i).Some?
    ensures Before(AddMonths(d, i).value, AddMonths(d, j).value)
    ensures i == 0 ==> AddMonths(d, i).value == d
  {
    AddMonthsLaw(d, i);
    AddMonthsLaw(d, j);
    MonthIndexOrder(AddMonths(d, i).value, AddMonths(d, j).value);
  }

  /** January 31st plus one month clamps to the end of February. */
  lemma EndOfJanuaryPlusOneMonth(year: int)
    requires MinYear <= year <= MaxYear
    ensures AddMonths(Date(year, 1, 31), 1) == Some(Date(year, 2, if IsLeapYear(year) then 29 else 28))
  {
  }

  /** February 28th plus one month is March 28th: the clamp does not keep
      month ends, so forecast dates need not be month ends. */
  lemma EndOfFebruaryPlusOneMonth(year: int)
    requires MinYear <= year <= MaxYear && !IsLeapYear(year)
    ensures ValidDate(Date(year, 2, 28)) && IsMonthEnd(Date(year, 2, 28))
    ensures AddMonths(Date(year, 2, 28), 1) == Some(Date(year, 3, 28))
    ensures !IsMonthEnd(Date(year, 3, 28))
  {
  }

  /** Advancing twice by one month is not advancing once by two: from
      January 31st the chained steps reach March 28th or 29th, the direct
      step March 31st. Forecast dates are therefore all computed from the
      last real date. */
  lemma ChainingDiffers(year: int)
    requires MinYear <= year <= MaxYear
    ensures AddMonths(Date(year, 1, 31), 1).Some?
    ensures AddMonths(AddMonths(Date(year, 1, 31), 1).value, 1) == Some(Date(year, 3, if IsLeapYear(year) then 29 else 28))
    ensures AddMonths(Date(year, 1, 31), 2) == Some(Date(year, 3, 31))
  {
  }
}
