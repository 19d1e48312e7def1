/** The proleptic Gregorian calendar in UTC, as ECMA-262 section 21.4.1 defines it,
    on whole days since 1 January 1970. */
module Calendar {

  predicate IsLeap(y: int) { y % 4 == 0 && (y % 100 != 0 || y % 400 == 0) }

  function DaysInYear(y: int): int { if IsLeap(y) then 366 else 365 }

  function DayFromYear(y: int): int {
    365 * (y - 1970) + (y - 1969) / 4 - (y - 1901) / 100 + (y - 1601) / 400
  }

  lemma YearLength(y: int)
    ensures DayFromYear(y + 1) == DayFromYear(y) + DaysInYear(y)
  {
    Fourth(y);
    Hundredth(y);
    FourHundredth(y);
  }

  lemma Fourth(y: int)
    ensures (y - 1968) / 4 == (y - 1969) / 4 + if y % 4 == 0 then 1 else 0
  {
  }

  lemma Hundredth(y: int)
    ensures (y - 1900) / 100 == (y - 1901) / 100 + if y % 100 == 0 then 1 else 0
    ensures y % 100 == 0 ==> y % 4 == 0
  {
  }

  lemma FourHundredth(y: int)
    ensures (y - 1600) / 400 == (y - 1601) / 400 + if y % 400 == 0 then 1 else 0
    ensures y % 400 == 0 ==> y % 100 == 0
  {
  }

  lemma {:induction false} YearOrder(a: int, b: int)
    requires a <= b
    ensures DayFromYear(a) + 365 * (b - a) <= DayFromYear(b)
    decreases b - a
  {
    if a < b {
      YearLength(b - 1);
      YearOrder(a, b - 1);
    }
  }

  function YearUp(day: int, y: int): (r: int)
    requires DayFromYear(y) <= day
    ensures DayFromYear(r) <= day < DayFromYear(r + 1)
    decreases day - DayFromYear(y)
  {
    YearLength(y);
    if day < DayFromYear(y + 1) then y else YearUp(day, y + 1)
  }

  function YearDown(day: int, y: int): (r: int)
    requires day < DayFromYear(y + 1)
    ensures DayFromYear(r) <= day < DayFromYear(r + 1)
    decreases DayFromYear(y + 1) - day
  {
    YearLength(y);
    if DayFromYear(y) <= day then y else YearDown(day, y - 1)
  }

  /** The largest year that starts no later than `day`. */
  function YearOf(day: int): (y: int)
    ensures DayFromYear(y) <= day < DayFromYear(y + 1)
  {
    YearLength(1970);
    if 0 <= day then YearUp(day, 1970) else YearDown(day, 1969)
  }

  lemma YearIs(day: int, y: int)
    requires DayFromYear(y) <= day < DayFromYear(y + 1)
    ensures YearOf(day) == y
  {
    if YearOf(day) < y { YearOrder(YearOf(day) + 1, y); }
    if YearOf(day) > y { YearOrder(y + 1, YearOf(day)); }
  }

  const BEFORE_MONTH := [0, 31, 59, 90, 120, 151, 181, 212, 243, 273, 304, 334, 365]

  /** Days of year `y` before month `m`, with 13 for the end of the year. */
  function DaysBefore(y: int, m: int): int
    requires 1 <= m <= 13
  {
    BEFORE_MONTH[m - 1] + if m > 2 && IsLeap(y) then 1 else 0
  }

  lemma MonthsKeepOrder(y: int, m: int, n: int)
    requires 1 <= m < n <= 13
    ensures DaysBefore(y, m) + 28 <= DaysBefore(y, n)
  {
  }

  function MonthFrom(y: int, d: int, m: int): (r: int)
    requires 1 <= m <= 12 && DaysBefore(y, m) <= d < DaysBefore(y, 13)
    ensures m <= r <= 12 && DaysBefore(y, r) <= d < DaysBefore(y, r + 1)
    decreases 12 - m
  {
    if d < DaysBefore(y, m + 1) then m else MonthFrom(y, d, m + 1)
  }

  lemma InYear(day: int)
    ensures 0 <= day - DayFromYear(YearOf(day)) < DaysBefore(YearOf(day), 13)
  {
    YearLength(YearOf(day));
  }

  /** The month of `day`, from 1 to 12. */
  function MonthOf(day: int): (m: int)
    ensures 1 <= m <= 12
    ensures var y := YearOf(day); MakeDay(y, m, 1) <= day < MakeDay(y, m + 1, 1)
  {
    InYear(day);
    var y := YearOf(day);
    MonthFrom(y, day - DayFromYear(y), 1)
  }

  /** The day of the month, from 1. */
  function DateOf(day: int): (d: int)
    ensures d >= 1 && MakeDay(YearOf(day), MonthOf(day), d) == day
  {
    day - MakeDay(YearOf(day), MonthOf(day), 1) + 1
  }

  /** Sunday is 0. */
  function WeekdayOf(day: int): int { (day + 4) % 7 }

  function MakeDay(y: int, m: int, d: int): int
    requires 1 <= m <= 13
  {
    DayFromYear(y) + DaysBefore(y, m) + d - 1
  }

  /** From day to day the weekday moves on by one, Sunday after Saturday. */
  lemma NextWeekday(day: int)
    ensures 0 <= WeekdayOf(day) <= 6
    ensures WeekdayOf(day + 1) == if WeekdayOf(day) == 6 then 0 else WeekdayOf(day) + 1
  {
  }

  /** The count starts with 1 January 1970, a Thursday. */
  lemma Epoch(y: int, day: int)
    requires y == 1970 && day == 0
    ensures MakeDay(y, 1, 1) == day && WeekdayOf(day) == 4
  {
    assert DayFromYear(y) == 0;
    assert DaysBefore(y, 1) == 0;
  }

  /** Thirty days have September, April, June and November. */
  lemma MonthLength(y: int, m: int)
    requires 1 <= m <= 12
    ensures MakeDay(y, m + 1, 1) - MakeDay(y, m, 1) ==
            if m == 2 then (if y % 4 == 0 && (y % 100 != 0 || y % 400 == 0) then 29 else 28)
            else if m == 4 || m == 6 || m == 9 || m == 11 then 30 else 31
    ensures MakeDay(y, 13, 1) == MakeDay(y + 1, 1, 1)
  {
    YearLength(y);
  }

  /** The days from the first of one month up to the first of another. */
  lemma BetweenMonths(day: int, y: int, m: int, n: int)
    requires 1 <= m <= n <= 13 && MakeDay(y, m, 1) <= day < MakeDay(y, n, 1)
    ensures YearOf(day) == y && m <= MonthOf(day) < n
  {
    WithinYear(day, y, m, n);
    MonthWithin(day, y, MonthOf(day), m, n);
  }

  lemma WithinYear(day: int, y: int, m: int, n: int)
    requires 1 <= m <= n <= 13 && MakeDay(y, m, 1) <= day < MakeDay(y, n, 1)
    ensures YearOf(day) == y
  {
    YearLength(y);
    if n < 13 { MonthsKeepOrder(y, n, 13); }
    if 1 < m { MonthsKeepOrder(y, 1, m); }
    YearIs(day, y);
  }

  lemma MonthWithin(day: int, y: int, k: int, m: int, n: int)
    requires 1 <= m <= n <= 13 && MakeDay(y, m, 1) <= day < MakeDay(y, n, 1)
    requires 1 <= k <= 12 && MakeDay(y, k, 1) <= day < MakeDay(y, k + 1, 1)
    ensures m <= k < n
  {
    if k < m && k + 1 < m { MonthsKeepOrder(y, k + 1, m); }
    if n < k { MonthsKeepOrder(y, n, k); }
  }

  /** Getters and MakeDay are inverse to each other. */
  lemma CivilRoundTrip(y: int, m: int, d: int)
    requires 1 <= m <= 12 && 1 <= d <= DaysBefore(y, m + 1) - DaysBefore(y, m)
    ensures YearOf(MakeDay(y, m, d)) == y && MonthOf(MakeDay(y, m, d)) == m && DateOf(MakeDay(y, m, d)) == d
  {
    BetweenMonths(MakeDay(y, m, d), y, m, m + 1);
  }
}
