/**
 * The edit form (components/EditTaskForm.tsx): the same fields as the new-task form
 * without the repeat choice, filled from an existing task. Its estimate is split into
 * hours and minutes, and its schedule picker starts on the task's stored local time when
 * it has one.
 */
module EditTaskForm {
  import opened Types
  import opened Text
  import opened TaskFields

  /** The object handed to onSave. scheduledAt is the instant its ISO text denotes. */
  datatype TaskEdit = TaskEdit(
    title: string,
    estimatedSeconds: int,
    location: Option<string>,
    purpose: Option<string>,
    scheduledAt: int)

  /** The form's editable fields. */
  datatype EditFields = EditFields(
    title: string,
    hours: int,
    minutes: int,
    location: string,
    purpose: string,
    schedHour: int,
    schedMinute: int,
    schedPeriod: Period)

  /** `Math.floor(est / 3600)`: the whole hours of the estimate. */
  function InitialHours(est: int): (h: int)
    ensures h * 3600 <= est < (h + 1) * 3600
  {
    est / 3600
  }

  /** `Math.floor((est % 3600) / 60)`: the whole minutes left over, with JavaScript's `%`. */
  function InitialMinutes(est: int): (m: int)
    ensures est >= 0 ==> 0 <= m <= 59
    ensures est < 0 ==> -60 <= m <= 0
    ensures m * 60 <= JsRem(est, 3600) < (m + 1) * 60
  {
    JsRem(est, 3600) / 60
  }

  /**
   * Opening the form on a task and saving it unchanged stores the estimate rounded down
   * to whole minutes: the leftover seconds are lost.
   */
  lemma {:induction false} ResubmitUnchanged(est: int)
    requires est >= 0
    ensures TotalSeconds(InitialHours(est), InitialMinutes(est)) == est - est % 60
  {
    var h := est / 3600;
    var rest := est % 3600;
    assert est == h * 3600 + rest;
    var m := rest / 60;
    assert rest == m * 60 + rest % 60;
    assert est % 60 == rest % 60 by {
      assert est == (h * 60 + m) * 60 + rest % 60;
    }
  }

  /** `s || ''`: an absent or empty optional text shows as empty. */
  function TextOrEmpty(s: Option<string>): (r: string)
    ensures s.Some? ==> r == s.value
    ensures s.None? ==> r == []
  {
    match s
    case Some(t) => t
    case None => []
  }

  /** `task.scheduledAt ? new Date(...) : null`: only a non-empty stored time counts. */
  predicate HasSchedule(task: Task)
  {
    task.scheduledAt.Some? && task.scheduledAt.value != []
  }

  /**
   * The fields on opening. `stored` is the local (hour, minute) of the task's scheduledAt;
   * it is used only when the task has one, and otherwise the picker starts from the
   * current time as the new-task form does. The stored minute is taken as it is, without
   * rounding to a five.
   */
  function InitialFields(task: Task, stored: (int, int), c: Clock): (f: EditFields)
    ensures f.title == task.title
    ensures f.hours == InitialHours(task.estimatedSeconds) && f.minutes == InitialMinutes(task.estimatedSeconds)
    ensures f.location == TextOrEmpty(task.location) && f.purpose == TextOrEmpty(task.purpose)
    ensures HasSchedule(task) && 0 <= stored.0 <= 23 ==>
              To24Hour(f.schedHour, f.schedPeriod) == stored.0 && f.schedMinute == stored.1
    ensures !HasSchedule(task) && ValidClock(c) ==>
              To24Hour(f.schedHour, f.schedPeriod) == CurrentHour(c) && f.schedMinute == RoundUpToFive(CurrentMinute(c))
  {
    var h := if HasSchedule(task) then stored.0 else CurrentHour(c);
    var minute := if HasSchedule(task) then stored.1 else RoundUpToFive(CurrentMinute(c));
    assert 0 <= h <= 23 ==> To24Hour(To12Hour(h), PeriodOf(h)) == h by {
      if 0 <= h <= 23 {
        To24HourOf12(h);
      }
    }
    EditFields(task.title, InitialHours(task.estimatedSeconds), InitialMinutes(task.estimatedSeconds),
      TextOrEmpty(task.location), TextOrEmpty(task.purpose), To12Hour(h), minute, PeriodOf(h))
  }

  /**
   * The ranges the fields stay in from a sensible start: the estimate steppers clamp at
   * 0 (and at 12 h on the way up), the hour dial stays on 1..12, and the minute, which may
   * start anywhere in 0..59, stays within -4..59.
   */
  predicate InRange(f: EditFields)
  {
    && 0 <= f.hours
    && 0 <= f.minutes <= 59
    && 1 <= f.schedHour <= 12
    && -4 <= f.schedMinute <= 59
  }

  /**
   * handleSubmit. A blank title or an estimate under five minutes gives nothing; otherwise
   * the edit carries the trimmed title, the estimate in seconds, location and purpose
   * trimmed or absent when blank, and the scheduled instant; there are no repeat fields.
   */
  function Submit(f: EditFields, c: Clock): (r: Option<TaskEdit>)
    ensures r.None? <==> !Accepts(f.title, f.hours, f.minutes)
    ensures r.Some? ==> r.value.title == Trim(f.title) && r.value.title != []
    ensures r.Some? ==> r.value.estimatedSeconds == f.hours * 3600 + f.minutes * 60 >= 300
    ensures r.Some? ==> r.value.location == TrimmedOrAbsent(f.location) && r.value.purpose == TrimmedOrAbsent(f.purpose)
    ensures r.Some? ==> r.value.scheduledAt == ScheduledInstant(c, f.schedHour, f.schedPeriod, f.schedMinute)
  {
    var totalSeconds := TotalSeconds(f.hours, f.minutes);
    if Trim(f.title) == [] || totalSeconds < MinEstimateSeconds then None
    else
      Some(TaskEdit(
        Trim(f.title),
        totalSeconds,
        TrimmedOrAbsent(f.location),
        TrimmedOrAbsent(f.purpose),
        ScheduledInstant(c, f.schedHour, f.schedPeriod, f.schedMinute)))
  }

  /**
   * Saving a scheduled task without touching the picker keeps its local time of day, and
   * places it no earlier than now and within the next 24 hours.
   */
  lemma ResaveKeepsTimeOfDay(task: Task, stored: (int, int), c: Clock)
    requires HasSchedule(task) && 0 <= stored.0 <= 23 && 0 <= stored.1 <= 59 && ValidClock(c)
    requires Submit(InitialFields(task, stored, c), c).Some?
    ensures TimeOfDay(c, Submit(InitialFields(task, stored, c), c).value.scheduledAt) == stored
    ensures c.now <= Submit(InitialFields(task, stored, c), c).value.scheduledAt < c.now + DayMs
  {
    var f := InitialFields(task, stored, c);
    assert To24Hour(f.schedHour, f.schedPeriod) == stored.0;
  }

  /**
   * The stored minute is not rounded, so from 1..4 the minute stepper's minus button
   * leaves the five-minute steps and goes negative: from 3 it shows -2.
   */
  lemma UnroundedMinuteGoesNegative()
    ensures !IsFiveStep(3) && PrevMinute(3) == -2
    ensures forall m :: 1 <= m <= 4 ==> PrevMinute(m) < 0
  {
  }

  /**
   * With a negative minute the saved time can be earlier than now: at 23:59:30, a task
   * stored at 12:03 AM whose minute was stepped down to -2 is saved for 23:58 today.
   */
  lemma NegativeMinuteSavesPastTime()
    ensures var c := Clock(0, DayMs - 30 * 1000, 0);
              ValidClock(c) && ScheduledInstant(c, 12, AM, -2) == DayMs - 2 * MinuteMs
              && ScheduledInstant(c, 12, AM, -2) < c.now
  {
  }

  /**
   * With the fields in range an accepted edit is never saved for four or more minutes
   * before now: the minute is at worst -4, and a time today is kept only when not past.
   */
  lemma SubmitNotLongAgo(f: EditFields, c: Clock)
    requires InRange(f) && ValidClock(c) && Submit(f, c).Some?
    ensures c.now - 4 * MinuteMs < Submit(f, c).value.scheduledAt
  {
    InstantNotLongAgo(c, f.schedHour, f.schedPeriod, f.schedMinute);
  }

  lemma InstantNotLongAgo(c: Clock, hour: int, period: Period, minute: int)
    requires ValidClock(c) && 1 <= hour <= 12 && -4 <= minute
    ensures c.now - 4 * MinuteMs < ScheduledInstant(c, hour, period, minute)
  {
    assert MinuteMs == 60000;
    if minute < 0 {
      assert minute * 60000 >= -240000;
    }
  }

  /** The edit form component: its fields, updated in place by the buttons and inputs. */
  class Form {
    var title: string
    var hours: int
    var minutes: int
    var location: string
    var purpose: string
    var schedHour: int
    var schedMinute: int
    var schedPeriod: Period

    function Fields(): EditFields
      reads this
    {
      EditFields(title, hours, minutes, location, purpose, schedHour, schedMinute, schedPeriod)
    }

    predicate Valid()
      reads this
    {
      InRange(Fields())
    }

    /** `stored` is the local (hour, minute) of task.scheduledAt, when there is one. */
    constructor (task: Task, stored: (int, int), c: Clock)
      ensures Fields() == InitialFields(task, stored, c)
      ensures task.estimatedSeconds >= 0 && ValidClock(c) && 0 <= stored.0 <= 23 && 0 <= stored.1 <= 59 ==> Valid()
    {
      var existing := task.scheduledAt.Some? && task.scheduledAt.value != [];
      var h := if existing then stored.0 else CurrentHour(c);
      title := task.title;
      hours := InitialHours(task.estimatedSeconds);
      minutes := InitialMinutes(task.estimatedSeconds);
      location := TextOrEmpty(task.location);
      purpose := TextOrEmpty(task.purpose);
      schedHour := if h == 0 then 12 else if h > 12 then h - 12 else h;
      schedMinute := if existing then stored.1 else RoundUpToFive(CurrentMinute(c));
      schedPeriod := if h >= 12 then PM else AM;
    }

    method SetTitle(text: string)
      modifies this
      ensures Fields() == old(Fields()).(title := text)
    {
      title := text;
    }

    method SetLocation(text: string)
      modifies this
      ensures Fields() == old(Fields()).(location := text)
    {
      location := text;
    }

    method SetPurpose(text: string)
      modifies this
      ensures Fields() == old(Fields()).(purpose := text)
    {
      purpose := text;
    }

    method DecreaseHours()
      modifies this
      ensures Fields() == old(Fields()).(hours := HoursDown(old(hours)))
      ensures old(Valid()) ==> Valid()
    {
      hours := if hours - 1 > 0 then hours - 1 else 0;
    }

    method IncreaseHours()
      modifies this
      ensures Fields() == old(Fields()).(hours := HoursUp(old(hours)))
      ensures old(Valid()) ==> Valid()
    {
      hours := if hours + 1 < 12 then hours + 1 else 12;
    }

    method DecreaseMinutes()
      modifies this
      ensures Fields() == old(Fields()).(minutes := MinutesDown(old(minutes)))
      ensures old(Valid()) ==> Valid()
    {
      minutes := if minutes - 5 > 0 then minutes - 5 else 0;
    }

    method IncreaseMinutes()
      modifies this
      ensures Fields() == old(Fields()).(minutes := MinutesUp(old(minutes)))
      ensures old(Valid()) ==> Valid()
    {
      minutes := if minutes + 5 < 59 then minutes + 5 else 59;
    }

    method DecreaseScheduleHour()
      modifies this
      ensures Fields() == old(Fields()).(schedHour := PrevHour(old(schedHour)))
      ensures old(Valid()) ==> Valid()
    {
      schedHour := if schedHour <= 1 then 12 else schedHour - 1;
    }

    method IncreaseScheduleHour()
      modifies this
      ensures Fields() == old(Fields()).(schedHour := NextHour(old(schedHour)))
      ensures old(Valid()) ==> Valid()
    {
      schedHour := if schedHour >= 12 then 1 else schedHour + 1;
    }

    method DecreaseScheduleMinute()
      modifies this
      ensures Fields() == old(Fields()).(schedMinute := PrevMinute(old(schedMinute)))
      ensures old(Valid()) ==> Valid()
    {
      schedMinute := if schedMinute <= 0 then 55 else schedMinute - 5;
    }

    method IncreaseScheduleMinute()
      modifies this
      ensures Fields() == old(Fields()).(schedMinute := NextMinute(old(schedMinute)))
      ensures old(Valid()) ==> Valid()
    {
      schedMinute := if schedMinute >= 55 then 0 else schedMinute + 5;
    }

    method SetPeriod(period: Period)
      modifies this
      ensures Fields() == old(Fields()).(schedPeriod := period)
      ensures old(Valid()) ==> Valid()
    {
      schedPeriod := period;
    }

    /**
     * handleSubmit: the edit passed to onSave, if any; the fields stay as they are. With
     * the fields in range the saved time is at most four minutes before now.
     */
    method HandleSubmit(c: Clock) returns (edit: Option<TaskEdit>)
      ensures edit == Submit(Fields(), c)
      ensures edit.Some? && Valid() && ValidClock(c) ==> c.now - 4 * MinuteMs < edit.value.scheduledAt
    {
      var totalSeconds := hours * 3600 + minutes * 60;
      var trimmed := Trim(title);
      if trimmed == [] || totalSeconds < 300 {
        return None;
      }
      edit := Some(TaskEdit(trimmed, totalSeconds, TrimmedOrAbsent(location), TrimmedOrAbsent(purpose),
        ScheduledInstant(c, schedHour, schedPeriod, schedMinute)));
      assert edit == Submit(Fields(), c);
      if Valid() && ValidClock(c) {
        SubmitNotLongAgo(Fields(), c);
      }
    }

    /** The save button's disabled state while `saving` is as given (TaskFields.SubmitDisabled). */
    predicate ButtonDisabled(saving: bool)
      reads this
    {
      SubmitDisabled(saving, title, hours, minutes)
    }
  }
}
