/** The next time a cron expression matches: the search that skips whole months, days
    and hours against the plain minute-by-minute definition. */
module Cron {
  import opened Wrappers
  import opened Calendar

  /** A parsed field: its values in increasing order. */
  datatype Field = Field(values: seq<int>, wildcard: bool)

  datatype Spec = Spec(minute: Field, hour: Field, day: Field, month: Field, weekday: Field)

  predicate Sorted(s: seq<int>) { forall i, j | 0 <= i < j < |s| :: s[i] < s[j] }

  predicate Parsed(f: Field, low: int, high: int) {
    f.values != [] && Sorted(f.values) && forall i | 0 <= i < |f.values| :: low <= f.values[i] <= high
  }

  predicate WellFormed(spec: Spec) {
    && Parsed(spec.minute, 0, 59) && Parsed(spec.hour, 0, 23) && Parsed(spec.day, 1, 31)
    && Parsed(spec.month, 1, 12) && Parsed(spec.weekday, 0, 6)
  }

  // --- Times, in whole minutes since the epoch -----------------------------------

  function Day(t: int): int { t / 1440 }
  function Hour(t: int): int { t % 1440 / 60 }
  function Minute(t: int): int { t % 60 }

  function Time(day: int, hour: int, minute: int): int { day * 1440 + hour * 60 + minute }

  lemma TimeParts(t: int)
    ensures t == Time(Day(t), Hour(t), Minute(t)) && 0 <= Hour(t) < 24 && 0 <= Minute(t) < 60
  {
  }

  predicate Includes(f: Field, value: int) { value in f.values }

  predicate DayMatches(spec: Spec, day: int) {
    var inDay, inWeekday := Includes(spec.day, DateOf(day)), Includes(spec.weekday, WeekdayOf(day));
    if !spec.day.wildcard && !spec.weekday.wildcard then inDay || inWeekday else inDay && inWeekday
  }

  predicate Matches(spec: Spec, t: int) {
    && Includes(spec.month, MonthOf(Day(t))) && DayMatches(spec, Day(t))
    && Includes(spec.hour, Hour(t)) && Includes(spec.minute, Minute(t))
  }

  // --- The definition: try every minute -----------------------------------------------

  function FirstMatch(p: int -> bool, t: int, limit: int): Option<int>
    decreases limit - t
  {
    if t >= limit then None else if p(t) then Some(t) else FirstMatch(p, t + 1, limit)
  }

  function Matcher(spec: Spec): int -> bool { t => Matches(spec, t) }

  /** The first whole minute after `after` seconds, and the end of the search. */
  function StartMinute(after: int): int { after / 60 + 1 }

  function Deadline(after: int): int { Time(DayFromYear(YearOf(Day(StartMinute(after))) + 6), 0, 0) }

  /** In seconds; None is the error INVALID_CRON. */
  function NextCronTime(spec: Spec, after: int): Option<int> {
    match FirstMatch(Matcher(spec), StartMinute(after), Deadline(after))
    case Some(t) => Some(t * 60)
    case None => None
  }

  lemma {:induction false} FirstMatchLeast(p: int -> bool, t: int, limit: int)
    ensures match FirstMatch(p, t, limit)
            case Some(m) => t <= m < limit && p(m) && forall x | t <= x < m :: !p(x)
            case None => forall x | t <= x < limit :: !p(x)
    decreases limit - t
  {
    if t < limit && !p(t) { FirstMatchLeast(p, t + 1, limit); }
  }

  /** The least matching whole minute strictly after the argument, if there is one
      before 1 January of the sixth year after the search starts. */
  lemma NextIsLeast(spec: Spec, after: int)
    ensures match NextCronTime(spec, after)
            case Some(s) =>
              && s > after && s % 60 == 0 && s < Deadline(after) * 60 && Matches(spec, s / 60)
              && (forall x: int | x > after && x % 60 == 0 && x < s :: !Matches(spec, x / 60))
            case None =>
              forall x: int | x > after && x % 60 == 0 && x < Deadline(after) * 60 :: !Matches(spec, x / 60)
  {
    var p, start, limit := Matcher(spec), StartMinute(after), Deadline(after);
    FirstMatchLeast(p, start, limit);
    assert forall t :: p(t) == Matches(spec, t);
    NextOfMinute(after, FirstMatch(p, start, limit), p, limit);
  }

  lemma StartBeforeDeadline(after: int)
    ensures StartMinute(after) < Deadline(after)
  {
    var t := StartMinute(after);
    var y := YearOf(Day(t));
    YearOrder(y + 1, y + 6);
    DayBefore(t, DayFromYear(y + 6));
  }

  /** From minutes to seconds. */
  lemma NextOfMinute(after: int, first: Option<int>, p: int -> bool, limit: int)
    requires match first
             case Some(m) => after / 60 + 1 <= m < limit && p(m) && forall x | after / 60 + 1 <= x < m :: !p(x)
             case None => forall x | after / 60 + 1 <= x < limit :: !p(x)
    ensures match first
            case Some(m) => m * 60 > after && m * 60 % 60 == 0 && m * 60 < limit * 60 && p(m * 60 / 60)
                            && forall x: int | x > after && x % 60 == 0 && x < m * 60 :: !p(x / 60)
            case None => forall x: int | x > after && x % 60 == 0 && x < limit * 60 :: !p(x / 60)
  {
    match first
    case Some(m) => assert m * 60 / 60 == m;
    case None =>
  }

  // --- In terms of the date ------------------------------------------------------------------

  /** What the five fields allow: all must, but the day may be given by its number or by its
      weekday when neither of the two is a star. */
  predicate Allows(spec: Spec, month: int, date: int, weekday: int, hour: int, minute: int) {
    && month in spec.month.values && hour in spec.hour.values && minute in spec.minute.values
    && if spec.day.wildcard || spec.weekday.wildcard
       then date in spec.day.values && weekday in spec.weekday.values
       else date in spec.day.values || weekday in spec.weekday.values
  }

  /** Seconds since the epoch. */
  function Seconds(day: int, hour: int, minute: int): int { day * 86400 + hour * 3600 + minute * 60 }

  lemma PartsOfSeconds(day: int, hour: int, minute: int)
    requires 0 <= hour < 24 && 0 <= minute < 60
    ensures var s := Seconds(day, hour, minute);
            s % 60 == 0 && Day(s / 60) == day && Hour(s / 60) == hour && Minute(s / 60) == minute
  {
    assert Seconds(day, hour, minute) == Time(day, hour, minute) * 60;
    DividesInto(1440, day, 60 * hour + minute);
    DividesInto(60, hour, minute);
    DividesInto(60, 24 * day + hour, minute);
    assert Time(day, hour, minute) == 1440 * day + (60 * hour + minute) == 60 * (24 * day + hour) + minute;
  }

  lemma DividesInto(n: int, a: int, b: int)
    requires n == 60 || n == 1440
    requires 0 <= b < n
    ensures (n * a + b) / n == a && (n * a + b) % n == b
  {
  }

  lemma MatchesOnDay(spec: Spec, day: int, m: int, d: int, hour: int, minute: int)
    requires MonthOf(day) == m && DateOf(day) == d && 0 <= hour < 24 && 0 <= minute < 60
    ensures var s := Seconds(day, hour, minute);
            s % 60 == 0 && (Matches(spec, s / 60) <==> Allows(spec, m, d, WeekdayOf(day), hour, minute))
  {
    PartsOfSeconds(day, hour, minute);
  }

  lemma MatchesByDate(spec: Spec, y: int, m: int, d: int, hour: int, minute: int)
    requires 1 <= m <= 12 && 1 <= d <= MakeDay(y, m + 1, 1) - MakeDay(y, m, 1)
    requires 0 <= hour < 24 && 0 <= minute < 60
    ensures var s := Seconds(MakeDay(y, m, d), hour, minute);
            s % 60 == 0 && (Matches(spec, s / 60) <==> Allows(spec, m, d, WeekdayOf(MakeDay(y, m, d)), hour, minute))
  {
    CivilRoundTrip(y, m, d);
    MatchesOnDay(spec, MakeDay(y, m, d), m, d, hour, minute);
  }

  /** The next time of an expression, by the date and time of day it falls on: it is
      allowed and later, and no later than any other that is allowed and later, up to the
      sixth new year after the search starts. */
  lemma NextByDate(spec: Spec, after: int, y: int, m: int, d: int, hour: int, minute: int)
    requires 1 <= m <= 12 && 1 <= d <= MakeDay(y, m + 1, 1) - MakeDay(y, m, 1)
    requires 0 <= hour < 24 && 0 <= minute < 60
    ensures var day := MakeDay(y, m, d);
            var s := Seconds(day, hour, minute);
            NextCronTime(spec, after) == Some(s) ==> s > after && Allows(spec, m, d, WeekdayOf(day), hour, minute)
    ensures var day := MakeDay(y, m, d);
            var s, next := Seconds(day, hour, minute), NextCronTime(spec, after);
            var newYear := MakeDay(YearOf((after / 60 + 1) / 1440) + 6, 1, 1);
            after < s < Seconds(newYear, 0, 0) && Allows(spec, m, d, WeekdayOf(day), hour, minute) ==>
              next.Some? && next.value <= s
  {
    NextIsLeast(spec, after);
    MatchesByDate(spec, y, m, d, hour, minute);
  }

  lemma LeastIs(r: Option<int>, p: int -> bool, after: int, limit: int, s: int)
    requires match r
             case Some(x) => x > after && x % 60 == 0 && p(x) && forall y | after < y < x && y % 60 == 0 :: !p(y)
             case None => forall x | after < x < limit && x % 60 == 0 :: !p(x)
    requires after < s < limit && s % 60 == 0 && p(s) && forall x | after < x < s && x % 60 == 0 :: !p(x)
    ensures r == Some(s)
  {
  }

  /** `0 0 * * 1` after the epoch: Monday, 5 January 1970. */
  lemma FirstMonday(spec: Spec, after: int, s: int)
    requires WellFormed(spec) && spec.minute.values == [0] && spec.hour.values == [0] && spec.weekday.values == [1]
    requires spec.day.wildcard && 5 in spec.day.values && 1 in spec.month.values && after == 0 && s == 345600
    ensures NextCronTime(spec, after) == Some(s)
  {
    MondayAllowed(spec, 1970, s);
    AfterEpoch(after, s);
    forall x | after < x < s && x % 60 == 0 ensures !Matches(spec, x / 60) {
      if Matches(spec, x / 60) { MidnightsMondays(spec, x); }
    }
    NextIsLeast(spec, after);
    LeastIs(NextCronTime(spec, after), x => Matches(spec, x / 60), after, Deadline(after) * 60, s);
  }

  lemma AfterEpoch(after: int, s: int)
    requires after == 0 && s == 345600
    ensures s < Deadline(after) * 60
  {
    YearIs(Day(StartMinute(after)), 1970);
  }

  lemma MondayAllowed(spec: Spec, y: int, s: int)
    requires spec.minute.values == [0] && spec.hour.values == [0] && spec.weekday.values == [1] && spec.day.wildcard
    requires 5 in spec.day.values && 1 in spec.month.values && y == 1970 && s == 345600
    ensures Matches(spec, s / 60)
  {
    var day := MakeDay(y, 1, 5);
    FifthOfJanuary(y, day);
    FifthMatches(spec, y, day);
    assert Seconds(day, 0, 0) == s;
  }

  /** A fifth of January that is a Monday. */
  lemma FifthMatches(spec: Spec, y: int, day: int)
    requires spec.minute.values == [0] && spec.hour.values == [0] && spec.weekday.values == [1] && spec.day.wildcard
    requires 5 in spec.day.values && 1 in spec.month.values && day == MakeDay(y, 1, 5) && WeekdayOf(day) == 1
    ensures Matches(spec, Seconds(day, 0, 0) / 60)
  {
    MonthLength(y, 1);
    MatchesByDate(spec, y, 1, 5, 0, 0);
  }

  lemma FifthOfJanuary(y: int, day: int)
    requires y == 1970 && day == MakeDay(y, 1, 5)
    ensures day == 4 && WeekdayOf(day) == 1
  {
    Epoch(y, MakeDay(y, 1, 1));
  }

  lemma MidnightsMondays(spec: Spec, s: int)
    requires spec.minute.values == [0] && spec.hour.values == [0] && spec.weekday.values == [1]
    requires spec.day.wildcard && s % 60 == 0 && 0 < s <= 345600 && Matches(spec, s / 60)
    ensures s == 345600
  {
    var t := s / 60;
    OneValue(spec.minute, 0, Minute(t));
    OneValue(spec.hour, 0, Hour(t));
    OneValue(spec.weekday, 1, WeekdayOf(Day(t)));
    EarlyMonday(t);
  }

  lemma OneValue(f: Field, v: int, x: int)
    requires f.values == [v]
    ensures Includes(f, x) <==> x == v
  {
  }

  lemma EarlyMonday(t: int)
    requires 0 < t <= 5760 && Hour(t) == 0 && Minute(t) == 0 && WeekdayOf(Day(t)) == 1
    ensures t == 5760
  {
    TimeParts(t);
    var d := Day(t);
    assert t == 1440 * d && 0 < d <= 4;
    assert d == 1 || d == 2 || d == 3 || d == 4;
  }

  // --- What the search may skip ----------------------------------------------------------

  ghost predicate NoneIn(p: int -> bool, from: int, until: int) {
    forall t | from <= t < until :: !p(t)
  }

  lemma {:induction false} SkipTo(p: int -> bool, from: int, until: int, limit: int)
    requires from <= until && NoneIn(p, from, until)
    ensures FirstMatch(p, from, limit) == if until <= limit then FirstMatch(p, until, limit) else None
    decreases until - from
  {
    if from < until && from < limit { SkipTo(p, from + 1, until, limit); }
  }

  /** The least value above `current`, if any. */
  function NextValue(f: Field, current: int): Option<int> { NextFrom(f.values, current) }

  function NextFrom(s: seq<int>, current: int): Option<int> {
    if s == [] then None else if s[0] > current then Some(s[0]) else NextFrom(s[1..], current)
  }

  lemma {:induction false} NextFromLeast(s: seq<int>, current: int)
    requires Sorted(s)
    ensures match NextFrom(s, current)
            case Some(v) => v in s && v > current && forall x | x in s :: x > current ==> x >= v
            case None => forall x | x in s :: x <= current
  {
    if s != [] {
      assert s == [s[0]] + s[1..];
      forall x | x in s[1..] ensures x > s[0] {
        var i :| 0 <= i < |s[1..]| && s[1..][i] == x;
        assert s[i + 1] == x;
      }
      assert Sorted(s[1..]) by {
        forall i, j | 0 <= i < j < |s[1..]| ensures s[1..][i] < s[1..][j] {
          assert s[1..][i] == s[i + 1] && s[1..][j] == s[j + 1];
        }
      }
      NextFromLeast(s[1..], current);
    }
  }

  /** The values strictly between the current one and the next are not included. */
  lemma NextOrNone(f: Field, low: int, high: int, current: int)
    requires Parsed(f, low, high)
    ensures match NextValue(f, current)
            case Some(v) => Includes(f, v) && current < v <= high && forall x | current < x < v :: !Includes(f, x)
            case None => forall x | x > current :: !Includes(f, x)
    ensures Includes(f, f.values[0]) && low <= f.values[0] <= high && forall x | x < f.values[0] :: !Includes(f, x)
  {
    NextFromLeast(f.values, current);
  }

  // --- The steps of the search --------------------------------------------------------------

  function LaterMonth(spec: Spec, t: int): int
    requires Parsed(spec.month, 1, 12)
  {
    NextOrNone(spec.month, 1, 12, MonthOf(Day(t)));
    var y := YearOf(Day(t));
    match NextValue(spec.month, MonthOf(Day(t)))
    case Some(m) => Time(MakeDay(y, m, 1), 0, 0)
    case None => Time(MakeDay(y + 1, spec.month.values[0], 1), 0, 0)
  }

  function LaterDay(t: int): int { Time(Day(t) + 1, 0, 0) }

  function LaterHour(spec: Spec, t: int): int
    requires Parsed(spec.minute, 0, 59) && Parsed(spec.hour, 0, 23)
  {
    match NextValue(spec.hour, Hour(t))
    case Some(h) => Time(Day(t), h, spec.minute.values[0])
    case None => Time(Day(t) + 1, spec.hour.values[0], spec.minute.values[0])
  }

  function LaterMinute(spec: Spec, t: int): int
    requires Parsed(spec.minute, 0, 59)
  {
    match NextValue(spec.minute, Minute(t))
    case Some(m) => Time(Day(t), Hour(t), m)
    case None => Time(Day(t), Hour(t) + 1, spec.minute.values[0])
  }

  lemma SkipMonth(spec: Spec, t: int)
    requires WellFormed(spec) && !Includes(spec.month, MonthOf(Day(t)))
    ensures t < LaterMonth(spec, t) && NoneIn(Matcher(spec), t, LaterMonth(spec, t))
  {
    var y, m := YearOf(Day(t)), MonthOf(Day(t));
    var later := LaterMonth(spec, t);
    MonthGap(spec, m);
    match NextValue(spec.month, m)
    case Some(n) =>
      assert later == Time(MakeDay(y, n, 1), 0, 0);
      SkipWithinYear(spec, t, y, m, n);
    case None =>
      assert later == Time(MakeDay(y + 1, spec.month.values[0], 1), 0, 0);
      SkipYear(spec, t, y, m, spec.month.values[0]);
  }

  lemma MonthGap(spec: Spec, m: int)
    requires Parsed(spec.month, 1, 12) && !Includes(spec.month, m)
    ensures 1 <= spec.month.values[0] <= 12
    ensures match NextValue(spec.month, m)
            case Some(n) => m < n <= 12 && forall x | m <= x < n :: !Includes(spec.month, x)
            case None => forall x | x >= m || x < spec.month.values[0] :: !Includes(spec.month, x)
  {
    NextOrNone(spec.month, 1, 12, m);
  }

  /** The days before the first of a month end before its midnight. */
  lemma DayBefore(x: int, day: int)
    ensures x < Time(day, 0, 0) <==> Day(x) < day
  {
  }

  /** From month `m` to the next allowed month of the same year. */
  lemma SkipWithinYear(spec: Spec, t: int, y: int, m: int, n: int)
    requires y == YearOf(Day(t)) && m == MonthOf(Day(t)) && m < n <= 12
    requires forall x | m <= x < n :: !Includes(spec.month, x)
    ensures t < Time(MakeDay(y, n, 1), 0, 0) && NoneIn(Matcher(spec), t, Time(MakeDay(y, n, 1), 0, 0))
  {
    if m + 1 < n { MonthsKeepOrder(y, m + 1, n); }
    DayBefore(t, MakeDay(y, n, 1));
    forall x | t <= x < Time(MakeDay(y, n, 1), 0, 0) ensures !Matches(spec, x) {
      DayBefore(x, MakeDay(y, n, 1));
      DayBefore(x, Day(t));
      DayBefore(t, Day(t));
      BetweenMonths(Day(x), y, m, n);
    }
  }

  /** From month `m` of year `y` to the first allowed month of the next. */
  lemma SkipYear(spec: Spec, t: int, y: int, m: int, first: int)
    requires y == YearOf(Day(t)) && m == MonthOf(Day(t)) && 1 <= first <= 12
    requires forall x | x >= m || x < first :: !Includes(spec.month, x)
    ensures t < Time(MakeDay(y + 1, first, 1), 0, 0)
    ensures NoneIn(Matcher(spec), t, Time(MakeDay(y + 1, first, 1), 0, 0))
  {
    YearLength(y);
    if 1 < first { MonthsKeepOrder(y + 1, 1, first); }
    if m + 1 < 13 { MonthsKeepOrder(y, m + 1, 13); }
    DayBefore(t, MakeDay(y + 1, first, 1));
    forall x | t <= x < Time(MakeDay(y + 1, first, 1), 0, 0) ensures !Matches(spec, x) {
      DayBefore(x, MakeDay(y + 1, first, 1));
      DayBefore(x, Day(t));
      DayBefore(t, Day(t));
      SkippedMonth(Day(x), y, m, first);
    }
  }

  lemma SkippedMonth(day: int, y: int, m: int, first: int)
    requires 1 <= m <= 12 && 1 <= first <= 12 && MakeDay(y, m, 1) <= day < MakeDay(y + 1, first, 1)
    ensures MonthOf(day) >= m || MonthOf(day) < first
  {
    YearLength(y);
    if day < DayFromYear(y + 1) { BetweenMonths(day, y, m, 13); } else { BetweenMonths(day, y + 1, 1, first); }
  }

  lemma SkipDay(spec: Spec, t: int)
    requires !DayMatches(spec, Day(t))
    ensures t < LaterDay(t) && NoneIn(Matcher(spec), t, LaterDay(t))
  {
    DayBefore(t, Day(t));
    DayBefore(t, Day(t) + 1);
    forall x | t <= x < LaterDay(t) ensures !Matches(spec, x) {
      DayBefore(x, Day(t));
      DayBefore(x, Day(t) + 1);
    }
  }

  lemma SkipHour(spec: Spec, t: int)
    requires WellFormed(spec) && !Includes(spec.hour, Hour(t))
    ensures t < LaterHour(spec, t) && NoneIn(Matcher(spec), t, LaterHour(spec, t))
  {
    TimeParts(t);
    forall x
      ensures t <= x < LaterHour(spec, t) ==> !Includes(spec.hour, Hour(x)) || !Includes(spec.minute, Minute(x))
    {
      TimeParts(x);
      HourGap(spec, Day(t), Hour(t), Minute(t), Day(x), Hour(x), Minute(x));
    }
    HourGap(spec, Day(t), Hour(t), Minute(t), Day(t), Hour(t), Minute(t));
  }

  lemma HourGap(spec: Spec, d: int, h: int, m: int, d': int, h': int, m': int)
    requires Parsed(spec.hour, 0, 23) && Parsed(spec.minute, 0, 59) && !Includes(spec.hour, h)
    requires 0 <= h < 24 && 0 <= m < 60 && 0 <= h' < 24 && 0 <= m' < 60
    ensures var first := spec.minute.values[0];
            var later := match NextValue(spec.hour, h)
                         case Some(n) => Time(d, n, first)
                         case None => Time(d + 1, spec.hour.values[0], first);
            && Time(d, h, m) < later
            && (Time(d, h, m) <= Time(d', h', m') < later ==> !Includes(spec.hour, h') || !Includes(spec.minute, m'))
  {
    NextOrNone(spec.hour, 0, 23, h);
    NextOrNone(spec.minute, 0, 59, 0);
    var first := spec.minute.values[0];
    var n := match NextValue(spec.hour, h) case Some(n) => n case None => 24 + spec.hour.values[0];
    assert Time(d + 1, spec.hour.values[0], first) == Time(d, 24 + spec.hour.values[0], first);
    WithinDay(d, h, m, d', h', m', n, first);
  }

  /** Hours of the current day from `h` on, or of the next before `n`; in the hour `n`
      itself, minutes before `first`. */
  lemma WithinDay(d: int, h: int, m: int, d': int, h': int, m': int, n: int, first: int)
    requires 0 <= h < 24 && 0 <= m < 60 && 0 <= h' < 24 && 0 <= m' < 60 && h < n < 48 && 0 <= first < 60
    ensures Time(d, h, m) < Time(d, n, first)
    ensures Time(d, h, m) <= Time(d', h', m') < Time(d, n, first) ==>
              (h <= h' < n && d' == d) || (h' < n - 24 && d' == d + 1) || ((h' == n || h' == n - 24) && m' < first)
  {
  }

  lemma SkipMinute(spec: Spec, t: int)
    requires WellFormed(spec) && !Includes(spec.minute, Minute(t))
    ensures t < LaterMinute(spec, t) && NoneIn(Matcher(spec), t, LaterMinute(spec, t))
  {
    TimeParts(t);
    forall x ensures t <= x < LaterMinute(spec, t) ==> !Includes(spec.minute, Minute(x)) {
      TimeParts(x);
      MinuteGap(spec, Day(t), Hour(t), Minute(t), Day(x), Hour(x), Minute(x));
    }
    MinuteGap(spec, Day(t), Hour(t), Minute(t), Day(t), Hour(t), Minute(t));
  }

  lemma MinuteGap(spec: Spec, d: int, h: int, m: int, d': int, h': int, m': int)
    requires Parsed(spec.minute, 0, 59) && !Includes(spec.minute, m)
    requires 0 <= h < 24 && 0 <= m < 60 && 0 <= h' < 24 && 0 <= m' < 60
    ensures var later := match NextValue(spec.minute, m)
                         case Some(n) => Time(d, h, n)
                         case None => Time(d, h + 1, spec.minute.values[0]);
            && Time(d, h, m) < later
            && (Time(d, h, m) <= Time(d', h', m') < later ==> !Includes(spec.minute, m'))
  {
    NextOrNone(spec.minute, 0, 59, m);
    var a, b := d * 24 + h, d' * 24 + h';
    var n := match NextValue(spec.minute, m) case Some(n) => n case None => 60 + spec.minute.values[0];
    assert Time(d, h, m) == a * 60 + m && Time(d', h', m') == b * 60 + m';
    WithinHour(a, m, b, m', n);
  }

  /** Minutes of the current hour from `m` on, or of the next before `n`. */
  lemma WithinHour(a: int, m: int, b: int, m': int, n: int)
    requires 0 <= m < 60 && 0 <= m' < 60 && m < n < 120
    ensures a * 60 + m <= b * 60 + m' < a * 60 + n ==>
              (b == a && m <= m' < n) || (b == a + 1 && m' < n - 60)
  {
  }

  /** The year test at the head of the loop is a test of the time. */
  lemma BeforeDeadline(t: int, year: int)
    ensures YearOf(Day(t)) < year <==> t < Time(DayFromYear(year), 0, 0)
  {
    var y := YearOf(Day(t));
    if y < year { YearOrder(y + 1, year); } else { YearOrder(year, y); }
  }

  /** Where the search looks next when `t` does not match. */
  function Advance(spec: Spec, t: int): int
    requires WellFormed(spec)
  {
    if !Includes(spec.month, MonthOf(Day(t))) then LaterMonth(spec, t)
    else if !DayMatches(spec, Day(t)) then LaterDay(t)
    else if !Includes(spec.hour, Hour(t)) then LaterHour(spec, t)
    else LaterMinute(spec, t)
  }

  lemma AdvanceSkips(spec: Spec, t: int)
    requires WellFormed(spec) && !Matches(spec, t)
    ensures t < Advance(spec, t) && NoneIn(Matcher(spec), t, Advance(spec, t))
  {
    if !Includes(spec.month, MonthOf(Day(t))) {
      SkipMonth(spec, t);
    } else if !DayMatches(spec, Day(t)) {
      SkipDay(spec, t);
    } else if !Includes(spec.hour, Hour(t)) {
      SkipHour(spec, t);
    } else {
      SkipMinute(spec, t);
    }
  }

  // --- The search -----------------------------------------------------------------------------

  /** None stands for the error INVALID_CRON. */
  method SearchCronTime(spec: Spec, after: int) returns (next: Option<int>)
    requires WellFormed(spec)
    ensures next == NextCronTime(spec, after)
  {
    var date := StartMinute(after);
    var deadline := YearOf(Day(date)) + 6;
    ghost var p, limit := Matcher(spec), Deadline(after);
    BeforeDeadline(date, deadline);
    while YearOf(Day(date)) < deadline
      invariant limit == Time(DayFromYear(deadline), 0, 0)
      invariant FirstMatch(p, StartMinute(after), limit) == FirstMatch(p, date, limit)
      decreases limit - date
    {
      BeforeDeadline(date, deadline);
      ghost var from := date;
      if !Includes(spec.month, MonthOf(Day(date))) {
        date := LaterMonth(spec, date);
      } else if !DayMatches(spec, Day(date)) {
        date := LaterDay(date);
      } else if !Includes(spec.hour, Hour(date)) {
        date := LaterHour(spec, date);
      } else if !Includes(spec.minute, Minute(date)) {
        date := LaterMinute(spec, date);
      } else {
        return Some(date * 60);
      }
      AdvanceSkips(spec, from);
      SkipTo(p, from, date, limit);
    }
    BeforeDeadline(date, deadline);
    return None;
  }
}
