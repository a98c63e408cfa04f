/** The UTC year and month of a timestamp, as the database's `$year` and
    `$month` operators extract them from `createdAt`. Proleptic Gregorian
    calendar, days counted from 1970-01-01. */
module Calendar {

  const MillisPerDay := 86_400_000

  const MonthNames: seq<string> :=
    ["Jan", "Feb", "Mar", "Apr", "May", "Jun", "Jul", "Aug", "Sep", "Oct", "Nov", "Dec"]

  datatype YearMonth = YearMonth(year: int, month: int)

  predicate IsLeap(y: int)
  {
    y % 4 == 0 && (y % 100 != 0 || y % 400 == 0)
  }

  function DaysInYear(y: int): int
  {
    if IsLeap(y) then 366 else 365
  }

  function DaysInMonth(m: int, leap: bool): int
  {
    if m == 2 then (if leap then 29 else 28)
    else if m == 4 || m == 6 || m == 9 || m == 11 then 30
    else 31
  }

  /** Days of the year that lie before the first day of month `m` (1 <= m <= 13). */
  function DaysBeforeMonth(m: int, leap: bool): int
    requires 1 <= m <= 13
    decreases m
  {
    if m == 1 then 0 else DaysBeforeMonth(m - 1, leap) + DaysInMonth(m - 1, leap)
  }

  /** The twelve months fill the year exactly. */
  lemma MonthsFillYear(y: int)
    ensures DaysBeforeMonth(13, IsLeap(y)) == DaysInYear(y)
  {
  }

  /** Signed number of days from 1970-01-01 to January 1 of year `y`. */
  function DaysBeforeYear(y: int): int
    decreases if y >= 1970 then y - 1970 else 1970 - y
  {
    if y == 1970 then 0
    else if y > 1970 then DaysBeforeYear(y - 1) + DaysInYear(y - 1)
    else DaysBeforeYear(y + 1) - DaysInYear(y)
  }

  lemma YearStep(y: int)
    ensures DaysBeforeYear(y + 1) == DaysBeforeYear(y) + DaysInYear(y)
  {
  }

  /** The year containing `day`, searching forward from year `y`. */
  function YearForward(y: int, day: int): (r: int)
    requires DaysBeforeYear(y) <= day
    ensures DaysBeforeYear(r) <= day < DaysBeforeYear(r + 1)
    decreases day - DaysBeforeYear(y)
  {
    YearStep(y);
    if day < DaysBeforeYear(y + 1) then y else YearForward(y + 1, day)
  }

  /** The year containing `day`, searching backward from year `y`. */
  function YearBackward(y: int, day: int): (r: int)
    requires day < DaysBeforeYear(y + 1)
    ensures DaysBeforeYear(r) <= day < DaysBeforeYear(r + 1)
    decreases DaysBeforeYear(y + 1) - day
  {
    YearStep(y);
    YearStep(y - 1);
    if DaysBeforeYear(y) <= day then y else YearBackward(y - 1, day)
  }

  /** The year that contains day number `day` (0 is 1970-01-01). */
  function YearOfDay(day: int): (r: int)
    ensures DaysBeforeYear(r) <= day < DaysBeforeYear(r + 1)
  {
    YearStep(1969);
    if day >= 0 then YearForward(1970, day) else YearBackward(1969, day)
  }

  /** The month, searching from month `m`, that contains day `doy` of a year. */
  function MonthFrom(m: int, doy: int, leap: bool): (r: int)
    requires 1 <= m <= 12
    requires DaysBeforeMonth(m, leap) <= doy < DaysBeforeMonth(13, leap)
    ensures m <= r <= 12
    ensures DaysBeforeMonth(r, leap) <= doy < DaysBeforeMonth(r + 1, leap)
    decreases 12 - m
  {
    if doy < DaysBeforeMonth(m + 1, leap) then m else MonthFrom(m + 1, doy, leap)
  }

  /** Calendar year and month (1 to 12) of a UTC timestamp in milliseconds:
      the day `t` falls on lies inside that month of that year. */
  function YearMonthOf(t: int): (r: YearMonth)
    ensures 1 <= r.month <= 12
    ensures var day := t / MillisPerDay;
            var start := DaysBeforeYear(r.year) + DaysBeforeMonth(r.month, IsLeap(r.year));
            start <= day < start + DaysInMonth(r.month, IsLeap(r.year))
  {
    var day := t / MillisPerDay;
    var y := YearOfDay(day);
    YearStep(y);
    MonthsFillYear(y);
    var m := MonthFrom(1, day - DaysBeforeYear(y), IsLeap(y));
    YearMonth(y, m)
  }
}
