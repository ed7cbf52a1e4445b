/** Irrigation timers of timers.py. Time is counted in whole minutes from an
    epoch that is a Monday, 00:00; "now" is always a parameter. */
module Timers {
  import opened Wrappers

  const MinutesPerDay := 1440
  const MinutesPerWeek := 7 * 1440

  type Hour = h: int | 0 <= h < 24
  type Minute = m: int | 0 <= m < 60

  /** Midnight of the day that contains `now`. */
  function DayStart(now: int): int {
    now - now % MinutesPerDay
  }

  /** `datetime.isoweekday()`: Monday is 1, Sunday is 7. */
  function IsoWeekday(now: int): int {
    (now / MinutesPerDay) % 7 + 1
  }

  /** `time_in_range`: with no test time, whether now lies in the window
      that starts today at hour:minute and lasts `duration` minutes, both
      ends included. With a test time the whole body is skipped and the
      function returns None. */
  function TimeInRange(startHour: Hour, startMinute: Minute, duration: int, testTime: Option<int>, now: int): Option<bool> {
    if testTime.None? then
      var start := DayStart(now) + startHour * 60 + startMinute;
      Some(!(start > now) && !(start + duration < now))
    else None
  }

  datatype TimerKind =
    | Generic
    | Weekly(startDay: int, startHour: Hour, startMinute: Minute)
    | Single(start: int, end: int)

  /** A timer of the named faucet; Python keeps the faucet object, the model
      its name. */
  datatype Timer = Timer(duration: int, faucet: string, kind: TimerKind)

  function NewTimer(duration: int, faucet: string): Timer {
    Timer(duration, faucet, Generic)
  }

  function NewWeeklyTimer(duration: int, faucet: string, startDay: int, startHour: Hour, startMinute: Minute): Timer {
    Timer(duration, faucet, Weekly(startDay, startHour, startMinute))
  }

  /** A one-off timer ends `duration` minutes after it starts. */
  function NewSingleTimer(duration: int, faucet: string, start: int): (t: Timer)
    ensures t.kind.Single? && t.kind.end - t.kind.start == duration
  {
    Timer(duration, faucet, Single(start, start + duration))
  }

  function TimerType(t: Timer): string {
    match t.kind
    case Generic => "generic"
    case Weekly(_, _, _) => "weekly"
    case Single(_, _) => "single"
  }

  /** `should_be_open()`. The plain Timer class has no such method, so asking
      a generic timer raises; that is the None answer. */
  function ShouldBeOpen(t: Timer, now: int): Option<bool> {
    match t.kind
    case Generic => None
    case Weekly(day, h, m) =>
      if IsoWeekday(now) + 1 != day then Some(false)
      else
        var inRange := TimeInRange(h, m, t.duration, None, now);
        Some(inRange == Some(true))
    case Single(start, end) => Some(now >= start && now <= end)
  }

  /** The window is inclusive at both ends and starts exactly at hour:minute. */
  lemma TimeInRangeWindow(h: Hour, m: Minute, duration: int, now: int)
    requires duration >= 0
    ensures TimeInRange(h, m, duration, None, DayStart(now) + h * 60 + m) == Some(true)
    ensures h * 60 + m + duration < MinutesPerDay ==>
              TimeInRange(h, m, duration, None, DayStart(now) + h * 60 + m + duration) == Some(true)
    ensures h * 60 + m + duration + 1 < MinutesPerDay ==>
              TimeInRange(h, m, duration, None, DayStart(now) + h * 60 + m + duration + 1) == Some(false)
  {
    DayStartOfTimeInDay(now, h * 60 + m);
    DayStartOfTimeInDay(now, h * 60 + m + duration);
    DayStartOfTimeInDay(now, h * 60 + m + duration + 1);
  }

  lemma DayStartOfTimeInDay(now: int, offset: int)
    requires 0 <= offset
    ensures offset < MinutesPerDay ==> DayStart(DayStart(now) + offset) == DayStart(now)
    ensures offset >= MinutesPerDay ==> DayStart(DayStart(now) + offset) > DayStart(now)
  {
    var d := now / MinutesPerDay;
    assert DayStart(now) == d * MinutesPerDay;
    var x := d * MinutesPerDay + offset;
    if offset < MinutesPerDay {
      assert x / MinutesPerDay == d;
      assert x % MinutesPerDay == offset;
    } else {
      assert x / MinutesPerDay >= d + 1;
      assert DayStart(x) == (x / MinutesPerDay) * MinutesPerDay;
    }
  }

  /** The window is cut at midnight: it is never open at a time of day before
      its start time, even when start plus duration reaches the next day. */
  lemma TimeInRangeStopsAtMidnight(h: Hour, m: Minute, duration: int, now: int)
    requires now % MinutesPerDay < h * 60 + m
    ensures TimeInRange(h, m, duration, None, now) == Some(false)
  {
  }

  /** The same window is open at the same time of every day. */
  lemma {:induction false} TimeInRangeDaily(h: Hour, m: Minute, duration: int, now: int)
    ensures TimeInRange(h, m, duration, None, now + MinutesPerDay) == TimeInRange(h, m, duration, None, now)
  {
    assert (now + MinutesPerDay) % MinutesPerDay == now % MinutesPerDay;
  }

  /** A weekly timer repeats every week. */
  lemma {:induction false} WeeklyRepeats(t: Timer, now: int)
    requires t.kind.Weekly?
    ensures ShouldBeOpen(t, now + MinutesPerWeek) == ShouldBeOpen(t, now)
  {
    var d := now / MinutesPerDay;
    assert (now + MinutesPerWeek) / MinutesPerDay == d + 7;
    assert (d + 7) % 7 == d % 7;
    var x := now;
    assert (x + MinutesPerWeek) % MinutesPerDay == x % MinutesPerDay;
  }

  /** A weekly timer is closed on every day but the one with
      `isoweekday() + 1 == start_day`; a start day outside 2..8 never opens. */
  lemma WeeklyDayGate(t: Timer, now: int)
    requires t.kind.Weekly?
    ensures IsoWeekday(now) + 1 != t.kind.startDay ==> ShouldBeOpen(t, now) == Some(false)
    ensures !(2 <= t.kind.startDay <= 8) ==> ShouldBeOpen(t, now) == Some(false)
    ensures IsoWeekday(now) + 1 == t.kind.startDay ==>
              ShouldBeOpen(t, now) == TimeInRange(t.kind.startHour, t.kind.startMinute, t.duration, None, now)
  {
  }

  /** A one-off timer is open exactly from its start to start + duration. */
  lemma SingleWindow(duration: int, faucet: string, start: int, now: int)
    ensures ShouldBeOpen(NewSingleTimer(duration, faucet, start), now) == Some(start <= now <= start + duration)
  {
  }

  /** Asking a plain timer whether it should be open fails at every time. */
  lemma GenericHasNoAnswer(duration: int, faucet: string, now: int)
    ensures ShouldBeOpen(NewTimer(duration, faucet), now) == None
    ensures TimerType(NewTimer(duration, faucet)) == "generic"
  {
  }
}
