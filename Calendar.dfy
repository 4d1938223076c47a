/** Calendar days as the service sees them: a local `Date` cut to midnight
    (`setHours(0, 0, 0, 0)`), so only year, month and day of month matter. */
module Calendar {

  /** A day of the proleptic Gregorian calendar; `month` runs 1..12. */
  datatype Day = Day(year: int, month: int, day: int)

  predicate IsLeapYear(y: int) {
    y % 4 == 0 && (y % 100 != 0 || y % 400 == 0)
  }

  function DaysInMonth(y: int, m: int): (n: int)
    requires 1 <= m <= 12
    ensures 28 <= n <= 31
    ensures n == 29 <==> m == 2 && IsLeapYear(y)
  {
    if m == 2 then (if IsLeapYear(y) then 29 else 28)
    else if m == 4 || m == 6 || m == 9 || m == 11 then 30
    else 31
  }

  predicate ValidDay(d: Day) {
    1 <= d.month <= 12 && 1 <= d.day <= DaysInMonth(d.year, d.month)
  }

  /** Chronological order of midnights, `a <= b` on the underlying timestamps. */
  predicate DayLe(a: Day, b: Day) {
    a.year < b.year ||
    (a.year == b.year && (a.month < b.month || (a.month == b.month && a.day <= b.day)))
  }

  lemma DayLeTotal(a: Day, b: Day)
    ensures DayLe(a, b) || DayLe(b, a)
    ensures DayLe(a, b) && DayLe(b, a) ==> a == b
  {
  }

  lemma DayLeTransitive(a: Day, b: Day, c: Day)
    requires DayLe(a, b) && DayLe(b, c)
    ensures DayLe(a, c)
  {
  }

  /** The `$gte start, $lte end` date filter. */
  predicate InRange(d: Day, start: Day, end: Day) {
    DayLe(start, d) && DayLe(d, end)
  }

  /** The year `new Date(year, ...)` uses: years 0..99 denote 1900..1999. */
  function DateYear(year: int): (y: int)
    ensures 0 <= year <= 99 ==> y == 1900 + year
    ensures (year < 0 || year > 99) ==> y == year
  {
    if 0 <= year <= 99 then 1900 + year else year
  }

  /** The month `new Date(year, monthIndex, ...)` lands in, as (year, month 1..12):
      a month index outside 0..11 carries into the year. */
  function NormalMonth(year: int, monthIndex: int): (ym: (int, int))
    ensures 1 <= ym.1 <= 12
    ensures ym.0 * 12 + (ym.1 - 1) == DateYear(year) * 12 + monthIndex
  {
    var total := DateYear(year) * 12 + monthIndex;
    (total / 12, total % 12 + 1)
  }

  /** `[new Date(year, month - 1, 1), new Date(year, month, 0)]`: the first and
      the last day of the month, after JavaScript's normalisation of the
      arguments (day 0 of a month is the last day of the month before). */
  function MonthRange(year: int, month: int): (range: (Day, Day))
    ensures ValidDay(range.0) && ValidDay(range.1)
    ensures range.0.day == 1
    ensures range.0.year == range.1.year && range.0.month == range.1.month
    ensures range.1.day == DaysInMonth(range.1.year, range.1.month)
    ensures 1 <= month <= 12 && (year < 0 || year > 99) ==>
              range.0 == Day(year, month, 1) && range.1.year == year && range.1.month == month
  {
    var ym := NormalMonth(year, month - 1);
    (Day(ym.0, ym.1, 1), Day(ym.0, ym.1, DaysInMonth(ym.0, ym.1)))
  }

  /** A valid day falls in the month's range exactly when it is in that month. */
  lemma MonthRangeCovers(year: int, month: int, d: Day)
    requires ValidDay(d)
    ensures var range := MonthRange(year, month);
            InRange(d, range.0, range.1) <==>
            d.year == range.0.year && d.month == range.0.month
  {
  }
}
