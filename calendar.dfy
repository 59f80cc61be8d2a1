/** The parsed `date` column and the three calendar fields `create_features`
    extracts from it (`.dt.hour`, `.dt.dayofweek`, `.dt.month`). A timestamp
    arrives already broken down, as `read_csv(..., parse_dates=['date'])`
    leaves it: the day of the week is one of the fields the parser supplies. */
module Calendar {

  datatype DateTime = DateTime(year: int, month: int, day: int, hour: int, minute: int, second: int, weekday: int)

  predicate IsLeapYear(y: int) {
    (y % 4 == 0 && y % 100 != 0) || y % 400 == 0
  }

  function DaysInMonth(y: int, m: int): (d: int)
    requires 1 <= m <= 12
    ensures 28 <= d <= 31
  {
    if m == 2 then (if IsLeapYear(y) then 29 else 28)
    else if m == 4 || m == 6 || m == 9 || m == 11 then 30
    else 31
  }

  predicate WellFormed(t: DateTime) {
    && 1 <= t.year
    && 1 <= t.month <= 12
    && 1 <= t.day <= DaysInMonth(t.year, t.month)
    && 0 <= t.hour < 24
    && 0 <= t.minute < 60
    && 0 <= t.second < 60
    && 0 <= t.weekday < 7
  }

  /** A present, parsed timestamp: every field in range. Pandas' missing
      timestamp (NaT) is not one of these values. */
  type Timestamp = t: DateTime | WellFormed(t) witness DateTime(1970, 1, 1, 0, 0, 0, 3)

  /** `.dt.hour` */
  function HourOf(t: Timestamp): (h: int)
    ensures 0 <= h <= 23
  {
    t.hour
  }

  /** `.dt.dayofweek`, Monday = 0 */
  function DayOfWeek(t: Timestamp): (d: int)
    ensures 0 <= d <= 6
  {
    t.weekday
  }

  /** `.dt.month` */
  function MonthOf(t: Timestamp): (m: int)
    ensures 1 <= m <= 12
  {
    t.month
  }
}
