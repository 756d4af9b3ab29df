/**
 * Python's `datetime.date` as the demo-data script uses it. A date is held
 * as its proleptic Gregorian day ordinal (`toordinal()`: 0001-01-01 is day
 * 1, 9999-12-31 is the last); its calendar display (year, month, day) is a
 * view computed from the ordinal and proved to be a bijection onto the
 * valid (year, month, day) triples. `weekday()` counts Monday as 0 and
 * Sunday as 6, and `date + timedelta(days=k)` raises OverflowError when the
 * result leaves the representable range.
 */
module Calendar {
  import opened Results

  const MaxYear: int := 9999
  /** Ordinal of 9999-12-31, Python's `date.max`. */
  const MaxOrdinal: int := 3652059

  datatype Date = Date(ordinal: int)

  /** The year, month and day a date displays as. */
  datatype Civil = Civil(year: int, month: int, day: int)

  /** What `date + timedelta` raises when the result is out of range. */
  datatype DateError = OverflowError

  /** Every value of Python's `date` satisfies this. */
  predicate Valid(d: Date) {
    1 <= d.ordinal <= MaxOrdinal
  }

  predicate IsLeap(year: int) {
    year % 4 == 0 && (year % 100 != 0 || year % 400 == 0)
  }

  function DaysInYear(year: int): (days: int) {
    if IsLeap(year) then 366 else 365
  }

  function DaysInMonth(year: int, month: int): (days: int)
    requires 1 <= month <= 12
  {
    if month == 2 then (if IsLeap(year) then 29 else 28)
    else if month == 4 || month == 6 || month == 9 || month == 11 then 30
    else 31
  }

  /** The triples `date(year, month, day)` accepts. */
  predicate ValidCivil(c: Civil) {
    1 <= c.year <= MaxYear && 1 <= c.month <= 12 && 1 <= c.day <= DaysInMonth(c.year, c.month)
  }

  /** Days in the years before `year`. */
  function DaysBeforeYear(year: int): (days: int)
    requires year >= 1
  {
    var y := year - 1;
    y * 365 + y / 4 - y / 100 + y / 400
  }

  /** Days in `year` before the first of `month`. */
  function DaysBeforeMonth(year: int, month: int): (days: int)
    requires 1 <= month <= 12
  {
    [0, 31, 59, 90, 120, 151, 181, 212, 243, 273, 304, 334][month - 1]
    + (if month > 2 && IsLeap(year) then 1 else 0)
  }

  /** Dividing by a constant steps up by one exactly at its multiples. */
  lemma QuotientStep(y: int)
    requires y >= 1
    ensures y / 4 == (y - 1) / 4 + (if y % 4 == 0 then 1 else 0)
    ensures y / 100 == (y - 1) / 100 + (if y % 100 == 0 then 1 else 0)
    ensures y / 400 == (y - 1) / 400 + (if y % 400 == 0 then 1 else 0)
  {
  }

  /** The closed form adds up the lengths of the years one by one. */
  lemma YearStep(year: int)
    requires year >= 1
    ensures DaysBeforeYear(year + 1) == DaysBeforeYear(year) + DaysInYear(year)
  {
    QuotientStep(year);
    if year % 400 == 0 {
      assert year == 400 * (year / 400);
      assert year % 100 == 0;
    }
    if year % 100 == 0 {
      assert year == 100 * (year / 100);
      assert year % 4 == 0;
    }
  }

  lemma MonthStep(year: int, month: int)
    requires 1 <= month <= 12
    ensures month < 12 ==> DaysBeforeMonth(year, month + 1) == DaysBeforeMonth(year, month) + DaysInMonth(year, month)
    ensures month == 12 ==> DaysBeforeMonth(year, month) + DaysInMonth(year, month) == DaysInYear(year)
  {
  }

  /** Later years start at least 365 days per year later. */
  lemma {:induction false} DaysBeforeYearGrows(a: int, b: int)
    requires 1 <= a <= b
    ensures DaysBeforeYear(b) - DaysBeforeYear(a) >= 365 * (b - a)
    decreases b - a
  {
    if a < b {
      YearStep(a);
      DaysBeforeYearGrows(a + 1, b);
    }
  }

  /** Months end in order, and the last one ends with the year. */
  lemma MonthWithinYear(year: int, m: int, month: int)
    requires 1 <= m <= month <= 12
    ensures DaysBeforeMonth(year, m) + DaysInMonth(year, m) <= DaysBeforeMonth(year, month) + DaysInMonth(year, month) <= DaysInYear(year)
    ensures m < month ==> DaysBeforeMonth(year, m) + DaysInMonth(year, m) <= DaysBeforeMonth(year, month)
  {
  }

  /** The first of every month is followed by at least 29 more representable days. */
  lemma MonthHeadroom(year: int, month: int)
    requires 1 <= year <= MaxYear && 1 <= month <= 12
    ensures DaysBeforeYear(year) + DaysBeforeMonth(year, month) + 30 <= MaxOrdinal
  {
    MonthWithinYear(year, month, 12);
    if year < MaxYear {
      assert DaysBeforeMonth(year, month) + 28 <= DaysInYear(year);
      YearStep(year);
      DaysBeforeYearGrows(year + 1, MaxYear + 1);
    } else {
      assert DaysBeforeMonth(year, month) <= 334;
    }
  }

  /** `date(year, month, day)`: the date with that display. */
  function FromCivil(c: Civil): (d: Date)
    requires ValidCivil(c)
    ensures Valid(d)
    ensures DaysBeforeYear(c.year) < d.ordinal <= DaysBeforeYear(c.year) + DaysInYear(c.year)
  {
    MonthWithinYear(c.year, c.month, 12);
    YearStep(c.year);
    DaysBeforeYearGrows(c.year + 1, MaxYear + 1);
    Date(DaysBeforeYear(c.year) + DaysBeforeMonth(c.year, c.month) + c.day)
  }

  /** The year that holds day `n`, searched upward from `year`. */
  function FindYear(n: int, year: int): (r: int)
    requires 1 <= year <= MaxYear && DaysBeforeYear(year) < n <= MaxOrdinal
    ensures year <= r <= MaxYear
    ensures DaysBeforeYear(r) < n <= DaysBeforeYear(r) + DaysInYear(r)
    decreases MaxYear - year
  {
    YearStep(year);
    if n <= DaysBeforeYear(year) + DaysInYear(year) then year
    else FindYear(n, year + 1)
  }

  /** The month of `year` that holds day `dayOfYear`, searched upward from `month`. */
  function FindMonth(year: int, dayOfYear: int, month: int): (r: int)
    requires 1 <= month <= 12 && DaysBeforeMonth(year, month) < dayOfYear <= DaysInYear(year)
    ensures month <= r <= 12
    ensures DaysBeforeMonth(year, r) < dayOfYear <= DaysBeforeMonth(year, r) + DaysInMonth(year, r)
    decreases 12 - month
  {
    MonthStep(year, month);
    if dayOfYear <= DaysBeforeMonth(year, month) + DaysInMonth(year, month) then month
    else FindMonth(year, dayOfYear, month + 1)
  }

  /** `(d.year, d.month, d.day)`: the display of `d`, which denotes `d` again. */
  function ToCivil(d: Date): (c: Civil)
    requires Valid(d)
    ensures ValidCivil(c) && FromCivil(c) == d
  {
    var year := FindYear(d.ordinal, 1);
    var dayOfYear := d.ordinal - DaysBeforeYear(year);
    var month := FindMonth(year, dayOfYear, 1);
    Civil(year, month, dayOfYear - DaysBeforeMonth(year, month))
  }

  /** Two years whose day ranges share a day are the same year. */
  lemma YearOfDayUnique(n: int, a: int, b: int)
    requires 1 <= a && 1 <= b
    requires DaysBeforeYear(a) < n <= DaysBeforeYear(a) + DaysInYear(a)
    requires DaysBeforeYear(b) < n <= DaysBeforeYear(b) + DaysInYear(b)
    ensures a == b
  {
    if a < b {
      YearStep(a);
      DaysBeforeYearGrows(a + 1, b);
    } else if b < a {
      YearStep(b);
      DaysBeforeYearGrows(b + 1, a);
    }
  }

  /** Distinct displays denote distinct dates, so the display of `date(y, m, d)` is `(y, m, d)`. */
  lemma ToCivilFromCivil(c: Civil)
    requires ValidCivil(c)
    ensures ToCivil(FromCivil(c)) == c
  {
    var n := FromCivil(c).ordinal;
    var e := ToCivil(FromCivil(c));
    YearOfDayUnique(n, c.year, e.year);
    if c.month < e.month {
      MonthWithinYear(c.year, c.month, e.month);
    } else if e.month < c.month {
      MonthWithinYear(c.year, e.month, c.month);
    }
  }

  /** `d.weekday()`: Monday is 0 and Sunday is 6; 0001-01-01 was a Monday. */
  function Weekday(d: Date): (w: int)
    requires Valid(d)
    ensures 0 <= w <= 6
    ensures (d.ordinal - 1 - w) % 7 == 0
  {
    (d.ordinal + 6) % 7
  }

  /** Known weekdays: 0001-01-01, 2024-01-01 and 9999-12-31. */
  lemma KnownWeekdays()
    ensures Weekday(FromCivil(Civil(1, 1, 1))) == 0
    ensures Weekday(FromCivil(Civil(2024, 1, 1))) == 0
    ensures FromCivil(Civil(MaxYear, 12, 31)).ordinal == MaxOrdinal && Weekday(Date(MaxOrdinal)) == 4
  {
  }

  /**
   * `d + timedelta(days=days)` (and `d - timedelta(days=-days)`): the date
   * `days` days later, or OverflowError outside 0001-01-01..9999-12-31.
   */
  function AddDays(d: Date, days: int): (r: Result<Date, DateError>)
    requires Valid(d)
    ensures r.Success? <==> 1 <= d.ordinal + days <= MaxOrdinal
    ensures r.Success? ==> Valid(r.value) && r.value.ordinal == d.ordinal + days
  {
    var n := d.ordinal + days;
    if 1 <= n <= MaxOrdinal then Success(Date(n)) else Failure(OverflowError)
  }

  /** Moving a date by `days` moves its weekday by `days` modulo 7. */
  lemma WeekdayAfter(d: Date, days: int)
    requires Valid(d) && AddDays(d, days).Success?
    ensures Weekday(AddDays(d, days).value) == (Weekday(d) + days) % 7
  {
  }

  /** Two steps in a row land where one step of their sum does. */
  lemma AddDaysTwice(d: Date, a: int, b: int)
    requires Valid(d) && AddDays(d, a).Success?
    ensures AddDays(AddDays(d, a).value, b) == AddDays(d, a + b)
  {
  }
}
