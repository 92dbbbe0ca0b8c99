/**
 * The arithmetic both task forms share (components/AddTaskForm.tsx and
 * components/EditTaskForm.tsx): the estimate in hours and minutes, the clamped estimate
 * steppers, the 12-hour schedule clock and its wrap-around steppers, the rule that places
 * the chosen time today or tomorrow, and the submit gate.
 *
 * Time is a number of milliseconds. A `Clock` is what the forms read from `new Date()`:
 * the instant of local midnight today, the current instant and the weekday.
 */
module TaskFields {
  import opened Types
  import opened Text

  const MinuteMs: int := 60 * 1000
  const HourMs: int := 60 * MinuteMs
  const DayMs: int := 24 * HourMs

  /** The smallest accepted estimate: five minutes. */
  const MinEstimateSeconds: int := 300

  /** What `new Date()` tells the forms. */
  datatype Clock = Clock(dayStart: int, now: int, weekday: int)

  /** A reading of a real clock: now falls within today, and the weekday is 0 (Sunday) to 6. */
  predicate ValidClock(c: Clock)
  {
    c.dayStart <= c.now < c.dayStart + DayMs && 0 <= c.weekday <= 6
  }

  /** getHours(): the hour of the day, 0..23. */
  function CurrentHour(c: Clock): (h: int)
    ensures ValidClock(c) ==> 0 <= h <= 23
  {
    (c.now - c.dayStart) / HourMs
  }

  /** getMinutes(): the minute of the hour, 0..59. */
  function CurrentMinute(c: Clock): (m: int)
    ensures 0 <= m <= 59
  {
    (c.now - c.dayStart) / MinuteMs % 60
  }

  /**
   * On a real clock, the hour and minute the forms start from are the time of day of
   * the current instant, as TimeOfDay reads any instant back.
   */
  lemma ClockReadsTimeOfDay(c: Clock)
    requires ValidClock(c)
    ensures (CurrentHour(c), CurrentMinute(c)) == TimeOfDay(c, c.now)
  {
    var ms := c.now - c.dayStart;
    assert ms % DayMs == ms;
  }

  /** JavaScript's `%`: the remainder takes the sign of the dividend. */
  function JsRem(a: int, b: int): (r: int)
    requires b > 0
    ensures a >= 0 ==> 0 <= r < b && r == a % b
    ensures a < 0 ==> -b < r <= 0 && r == a - b * -((-a) / b)
  {
    if a >= 0 then a % b else -((-a) % b)
  }

  // ---------------------------------------------------------------- estimate

  /** `hours * 3600 + minutes * 60`: the estimate in seconds. */
  function TotalSeconds(hours: int, minutes: int): (r: int)
    ensures 0 <= hours <= 12 && 0 <= minutes <= 59 ==> 0 <= r <= 46740
    ensures r % 60 == 0
  {
    hours * 3600 + minutes * 60
  }

  /** The hours stepper's minus button: one less, never below 0. */
  function HoursDown(h: int): (r: int)
    ensures r == if h >= 1 then h - 1 else 0
    ensures 0 <= h <= 12 ==> 0 <= r <= 12
  {
    if h - 1 > 0 then h - 1 else 0
  }

  /** The hours stepper's plus button: one more, never above 12. */
  function HoursUp(h: int): (r: int)
    ensures r == if h <= 11 then h + 1 else 12
    ensures 0 <= h <= 12 ==> 0 <= r <= 12
  {
    if h + 1 < 12 then h + 1 else 12
  }

  /** The minutes stepper's minus button: five less, never below 0. */
  function MinutesDown(m: int): (r: int)
    ensures r == if m >= 5 then m - 5 else 0
    ensures 0 <= m <= 59 ==> 0 <= r <= 59
  {
    if m - 5 > 0 then m - 5 else 0
  }

  /** The minutes stepper's plus button: five more, never above 59. */
  function MinutesUp(m: int): (r: int)
    ensures r == if m <= 54 then m + 5 else 59
    ensures 0 <= m <= 59 ==> 0 <= r <= 59
  {
    if m + 5 < 59 then m + 5 else 59
  }

  /**
   * The submit gate both forms apply: the trimmed title is not empty and the estimate is
   * at least five minutes.
   */
  predicate Accepts(title: string, hours: int, minutes: int)
  {
    Trim(title) != [] && TotalSeconds(hours, minutes) >= MinEstimateSeconds
  }

  /**
   * The submit button's disabled condition: busy, a blank title, or under five minutes
   * counted in minutes.
   */
  predicate SubmitDisabled(busy: bool, title: string, hours: int, minutes: int)
  {
    busy || Trim(title) == [] || hours * 60 + minutes < 5
  }

  /**
   * The button and the handler agree: when not busy, the button is disabled exactly when
   * the handler would refuse the same fields.
   */
  lemma SubmitDisabledIffRejected(busy: bool, title: string, hours: int, minutes: int)
    ensures SubmitDisabled(busy, title, hours, minutes) <==> busy || !Accepts(title, hours, minutes)
  {
    assert TotalSeconds(hours, minutes) == (hours * 60 + minutes) * 60;
  }

  // ---------------------------------------------------------------- the 12-hour clock

  datatype Period = AM | PM

  /** The 12-hour reading of a 0..23 hour: 0 is 12, 13..23 are 1..11, the rest unchanged. */
  function To12Hour(h: int): (r: int)
    ensures 0 <= h <= 23 ==> 1 <= r <= 12
    ensures 1 <= h <= 12 ==> r == h
  {
    if h == 0 then 12 else if h > 12 then h - 12 else h
  }

  /** PM from noon on. */
  function PeriodOf(h: int): Period
  {
    if h >= 12 then PM else AM
  }

  /**
   * The 24-hour hour of a 12-hour reading: `hour % 12`, plus 12 in the afternoon. On the
   * dial's 1..12 it is the inverse of To12Hour and PeriodOf.
   */
  function To24Hour(hour: int, period: Period): (r: int)
    ensures 1 <= hour <= 12 ==> 0 <= r <= 23 && To12Hour(r) == hour && PeriodOf(r) == period
  {
    var h := JsRem(hour, 12);
    assert 1 <= hour <= 11 ==> h == hour;
    assert hour == 12 ==> h == 0;
    if period == PM then h + 12
    else
      assert 1 <= hour <= 12 ==> PeriodOf(h) == AM;
      h
  }

  /** Reading an hour on the 12-hour dial and converting back gives the hour. */
  lemma {:induction false} To24HourOf12(h: int)
    requires 0 <= h <= 23
    ensures To24Hour(To12Hour(h), PeriodOf(h)) == h
  {
    var h12 := To12Hour(h);
    assert JsRem(h12, 12) == h12 % 12;
    if h == 0 {
      assert h12 == 12;
    } else if h > 12 {
      assert h12 == h - 12 && h12 % 12 == h12;
    } else if h == 12 {
      assert h12 % 12 == 0;
    } else {
      assert h12 % 12 == h;
    }
  }

  /** `Math.ceil(m / 5) * 5 % 60`: the current minute rounded up to a five, 60 read as 0. */
  function RoundUpToFive(m: int): (r: int)
    requires 0 <= m <= 59
    ensures IsFiveStep(r)
    ensures m <= 55 ==> m <= r < m + 5
    ensures m > 55 ==> r == 0
  {
    (m + 4) / 5 * 5 % 60
  }

  /** The schedule-hour stepper's minus button: 1 wraps to 12. */
  function PrevHour(h: int): (r: int)
    ensures 1 <= h <= 12 ==> 1 <= r <= 12
  {
    if h <= 1 then 12 else h - 1
  }

  /** The schedule-hour stepper's plus button: 12 wraps to 1. */
  function NextHour(h: int): (r: int)
    ensures 1 <= h <= 12 ==> 1 <= r <= 12
  {
    if h >= 12 then 1 else h + 1
  }

  /** On the dial the two hour buttons undo each other. */
  lemma HourStepsInverse(h: int)
    requires 1 <= h <= 12
    ensures PrevHour(NextHour(h)) == h && NextHour(PrevHour(h)) == h
  {
  }

  /** The minute values the minute stepper is meant to show: 0, 5, ..., 55. */
  predicate IsFiveStep(m: int)
  {
    0 <= m <= 55 && m % 5 == 0
  }

  /** The schedule-minute stepper's minus button: 0 or below wraps to 55. */
  function PrevMinute(m: int): (r: int)
    ensures IsFiveStep(m) ==> IsFiveStep(r)
    ensures m > 0 ==> r == m - 5
    ensures m <= 0 ==> r == 55
  {
    if m <= 0 then 55 else m - 5
  }

  /** The schedule-minute stepper's plus button: 55 or above wraps to 0. */
  function NextMinute(m: int): (r: int)
    ensures IsFiveStep(m) ==> IsFiveStep(r)
    ensures m < 55 ==> r == m + 5
    ensures m >= 55 ==> r == 0
  {
    if m >= 55 then 0 else m + 5
  }

  /** On the five-minute steps the two minute buttons undo each other. */
  lemma MinuteStepsInverse(m: int)
    requires IsFiveStep(m)
    ensures PrevMinute(NextMinute(m)) == m && NextMinute(PrevMinute(m)) == m
  {
  }

  /** Twelve presses of either hour button go round the dial back to the start. */
  lemma {:induction false} HourDialCycles(h: int, n: nat)
    requires 1 <= h <= 12
    ensures StepHours(h, n) == (h - 1 + n) % 12 + 1
  {
    if n > 0 {
      HourDialCycles(h, n - 1);
    }
  }

  /** The hour after n presses of the plus button. */
  function StepHours(h: int, n: nat): int
  {
    if n == 0 then h else NextHour(StepHours(h, n - 1))
  }

  // ---------------------------------------------------------------- placing the time

  /** The instant today at `h24:minute:00`; minutes outside 0..59 carry into the hour as a Date does. */
  function TodayAt(c: Clock, h24: int, minute: int): int
  {
    c.dayStart + h24 * HourMs + minute * MinuteMs
  }

  /**
   * getScheduledISO as an instant: today at the chosen time, moved forward by one day when
   * that is already past.
   */
  function ScheduledInstant(c: Clock, hour: int, period: Period, minute: int): (r: int)
    ensures var d := TodayAt(c, To24Hour(hour, period), minute);
              (d < c.now ==> r == d + DayMs) && (d >= c.now ==> r == d)
    ensures ValidClock(c) && 1 <= hour <= 12 && minute >= 0 ==> c.now <= r
    ensures ValidClock(c) && 1 <= hour <= 12 && minute < 0 ==> c.now + minute * MinuteMs < r
    ensures ValidClock(c) && 1 <= hour <= 12 && 0 <= minute <= 59 ==>
              r < c.now + DayMs && TimeOfDay(c, r) == (To24Hour(hour, period), minute)
  {
    var d := TodayAt(c, To24Hour(hour, period), minute);
    var k := if d < c.now then 1 else 0;
    assert 1 <= hour <= 12 && 0 <= minute <= 59 ==> TimeOfDay(c, d + k * DayMs) == (To24Hour(hour, period), minute) by {
      if 1 <= hour <= 12 && 0 <= minute <= 59 {
        TimeOfDayAt(c, To24Hour(hour, period), minute, k);
      }
    }
    d + k * DayMs
  }

  /** Today's or tomorrow's instant at h24:minute reads h24:minute on the clock. */
  lemma TimeOfDayAt(c: Clock, h24: int, minute: int, k: int)
    requires 0 <= h24 <= 23 && 0 <= minute <= 59
    ensures TimeOfDay(c, TodayAt(c, h24, minute) + k * DayMs) == (h24, minute)
  {
    var o := h24 * 3600000 + minute * 60000;
    assert 0 <= o < 86400000;
    assert TodayAt(c, h24, minute) + k * DayMs - c.dayStart == o + k * 86400000;
    assert (o + k * 86400000) % 86400000 == o;
    assert o / 3600000 == h24;
    assert o / 60000 == h24 * 60 + minute;
    assert (h24 * 60 + minute) % 60 == minute;
  }

  /** The hour and minute a local clock shows at instant t. */
  function TimeOfDay(c: Clock, t: int): (int, int)
  {
    var ms := (t - c.dayStart) % DayMs;
    (ms / HourMs, ms / MinuteMs % 60)
  }
}
