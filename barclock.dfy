/** The 5-minute bar clock of the scheduler (scripts/start_trading.py): the
    next bar-close instant after a UTC wall-clock time, and the sleeps that
    wait for it. A time is a proleptic Gregorian date with a time of day to
    the microsecond, as Python's `datetime` holds it; the clock reading is an
    input. */
module BarClock {
  import opened Common

  datatype DateTime = DateTime(year: int, month: int, day: int, hour: int, minute: int, second: int, micro: int)

  predicate IsLeap(y: int)
  {
    y % 4 == 0 && (y % 100 != 0 || y % 400 == 0)
  }

  function DaysInMonth(y: int, m: int): (d: int)
    requires 1 <= m <= 12
    ensures 28 <= d <= 31
  {
    if m == 2 then (if IsLeap(y) then 29 else 28)
    else if m == 4 || m == 6 || m == 9 || m == 11 then 30
    else 31
  }

  /** The values Python's `datetime` accepts. */
  predicate Valid(t: DateTime)
  {
    && 1 <= t.year <= 9999
    && 1 <= t.month <= 12
    && 1 <= t.day <= DaysInMonth(t.year, t.month)
    && 0 <= t.hour < 24
    && 0 <= t.minute < 60
    && 0 <= t.second < 60
    && 0 <= t.micro < 1000000
  }

  const MinuteMicros: int := 60000000
  const BarMicros: int := 300000000
  const DayMicros: int := 86400000000

  /** Microseconds since midnight. */
  function TimeOfDay(t: DateTime): int
  {
    ((t.hour * 60 + t.minute) * 60 + t.second) * 1000000 + t.micro
  }

  /** A bar close: a minute that is a multiple of five, on the second. */
  predicate OnBarBoundary(t: DateTime)
  {
    t.minute % 5 == 0 && t.second == 0 && t.micro == 0
  }

  function DateOf(t: DateTime): (int, int, int)
  {
    (t.year, t.month, t.day)
  }

  /** The calendar day after y-m-d, rolling the month and then the year. */
  function NextDate(y: int, m: int, d: int): (int, int, int)
    requires 1 <= m <= 12
  {
    if d < DaysInMonth(y, m) then (y, m, d + 1)
    else if m < 12 then (y, m + 1, 1)
    else (y + 1, 1, 1)
  }

  /** How far `later` is after `t`, for `later` on the same day or the next. */
  function GapMicros(t: DateTime, later: DateTime): int
    requires Valid(t)
  {
    if DateOf(later) == DateOf(t) then TimeOfDay(later) - TimeOfDay(t)
    else DayMicros + TimeOfDay(later) - TimeOfDay(t)
  }

  /** `later` is the first bar close strictly after `t`: a boundary on the same
      day or at midnight of the next, at most one bar away. */
  predicate IsNextClose(t: DateTime, later: DateTime)
    requires Valid(t)
  {
    && Valid(later)
    && OnBarBoundary(later)
    && (DateOf(later) == DateOf(t) || DateOf(later) == NextDate(t.year, t.month, t.day))
    && 0 < GapMicros(t, later) <= BarMicros
  }

  /** `get_next_5min_close_time` as written: the next multiple of five minutes,
      rolling minute 60 into the next hour and hour 24 into `day + 1` of the
      same month through `datetime.replace`, which rejects a day past the end
      of the month. */
  function NextCloseAsWritten(now: DateTime): (r: Result<DateTime, Error>)
    requires Valid(now)
  {
    var next5 := (now.minute / 5 + 1) * 5;
    if next5 >= 60 then
      var nextHour := now.hour + 1;
      if nextHour >= 24 then
        var nextDay := now.day + 1;
        if nextDay > DaysInMonth(now.year, now.month) then Err(ValueError("day is out of range for month"))
        else Ok(DateTime(now.year, now.month, nextDay, 0, 0, 0, 0))
      else Ok(DateTime(now.year, now.month, now.day, nextHour, 0, 0, 0))
    else Ok(DateTime(now.year, now.month, now.day, now.hour, next5, 0, 0))
  }

  /** The as-written rollover fails exactly in the last five minutes of the
      last day of every month. */
  lemma AsWrittenFailsAtMonthEnd(now: DateTime)
    requires Valid(now)
    ensures NextCloseAsWritten(now).Err? <==>
      now.hour == 23 && now.minute >= 55 && now.day == DaysInMonth(now.year, now.month)
  {
  }

  /** 23:57 on 31 January has no next close under the as-written rollover. */
  lemma MonthEndCounterexample()
    ensures NextCloseAsWritten(DateTime(2025, 1, 31, 23, 57, 0, 0)).Err?
    ensures NextClose(DateTime(2025, 1, 31, 23, 57, 0, 0)) == Ok(DateTime(2025, 2, 1, 0, 0, 0, 0))
  {
  }

  /** The next bar close with the day rolled through the calendar. The only
      failure left is passing the last representable day, which Python's
      date arithmetic also refuses. */
  function NextClose(now: DateTime): (r: Result<DateTime, Error>)
    requires Valid(now)
    ensures r.Ok? ==> IsNextClose(now, r.value)
    ensures r.Err? <==> now.year == 9999 && now.month == 12 && now.day == 31 && now.hour == 23 && now.minute >= 55
  {
    var next5 := (now.minute / 5 + 1) * 5;
    if next5 >= 60 then
      var nextHour := now.hour + 1;
      if nextHour >= 24 then
        var (y, m, d) := NextDate(now.year, now.month, now.day);
        if y > 9999 then Err(ValueError("date value out of range"))
        else Ok(DateTime(y, m, d, 0, 0, 0, 0))
      else Ok(DateTime(now.year, now.month, now.day, nextHour, 0, 0, 0))
    else Ok(DateTime(now.year, now.month, now.day, now.hour, next5, 0, 0))
  }

  /** Wherever the as-written rollover succeeds it agrees with the corrected one. */
  lemma AsWrittenAgreesWhereDefined(now: DateTime)
    requires Valid(now) && NextCloseAsWritten(now).Ok?
    ensures NextClose(now) == NextCloseAsWritten(now)
  {
  }

  /** `wait_for_next_5min_close`: sleep for the gap to the close when it is
      positive, then two more seconds so the bar is published. */
  function WaitSleeps(gapSeconds: real): (sleeps: seq<real>)
    ensures |sleeps| > 0 && sleeps[|sleeps| - 1] == 2.0
    ensures forall i :: 0 <= i < |sleeps| ==> sleeps[i] > 0.0
    ensures |sleeps| == 2 <==> gapSeconds > 0.0
    ensures Sum(sleeps) == (if gapSeconds > 0.0 then gapSeconds else 0.0) + 2.0
  {
    if gapSeconds > 0.0 then
      var s := [gapSeconds, 2.0];
      assert s[..1] == [gapSeconds] && s[..1][..0] == [];
      assert Sum(s[..1]) == gapSeconds;
      s
    else
      assert [2.0][..0] == [];
      [2.0]
  }

  /** Read at the same instant the close was computed from, the wait first
      sleeps the whole gap to the close, which is at most one bar. */
  lemma WaitReachesTheClose(now: DateTime)
    requires Valid(now) && NextClose(now).Ok?
    ensures var gap := GapMicros(now, NextClose(now).value) as real / 1000000.0;
      && 0.0 < gap <= 300.0
      && WaitSleeps(gap) == [gap, 2.0]
  {
  }
}
