/**
 * The new-task form (components/AddTaskForm.tsx): the title, the estimate steppers, the
 * optional location and purpose, the 12-hour schedule picker and the repeat choice, and
 * the submit handler that turns them into a new-task request.
 */
module AddTaskForm {
  import opened Types
  import opened Text
  import opened TaskFields

  /** 'none' | 'daily' | 'weekly'. */
  datatype RepeatType = NoRepeat | Daily | Weekly

  /** The object handed to onSubmit. scheduledAt is the instant its ISO text denotes. */
  datatype NewTask = NewTask(
    title: string,
    estimatedSeconds: int,
    location: Option<string>,
    purpose: Option<string>,
    scheduledAt: int,
    repeatType: RepeatType,
    repeatDayOfWeek: Option<int>)

  /** The form's editable fields. */
  datatype FormFields = FormFields(
    title: string,
    hours: int,
    minutes: int,
    location: string,
    purpose: string,
    schedHour: int,
    schedMinute: int,
    schedPeriod: Period,
    repeatType: RepeatType)

  /**
   * The fields on opening: empty texts, 0 h 25 min, the current hour on the 12-hour dial,
   * the current minute rounded up to a five, and no repeat.
   */
  function InitialFields(c: Clock): (f: FormFields)
    ensures f.title == [] && f.location == [] && f.purpose == []
    ensures f.hours == 0 && f.minutes == 25 && f.repeatType == NoRepeat
    ensures ValidClock(c) ==> To24Hour(f.schedHour, f.schedPeriod) == CurrentHour(c)
    ensures f.schedMinute == RoundUpToFive(CurrentMinute(c)) && IsFiveStep(f.schedMinute)
    ensures CurrentMinute(c) <= 55 ==> CurrentMinute(c) <= f.schedMinute < CurrentMinute(c) + 5
    ensures CurrentMinute(c) > 55 ==> f.schedMinute == 0
  {
    var h := CurrentHour(c);
    assert ValidClock(c) ==> To24Hour(To12Hour(h), PeriodOf(h)) == h by {
      if ValidClock(c) {
        To24HourOf12(h);
      }
    }
    FormFields([], 0, 25, [], [], To12Hour(h), RoundUpToFive(CurrentMinute(c)), PeriodOf(h), NoRepeat)
  }

  /** The ranges the steppers keep the fields in. */
  predicate InRange(f: FormFields)
  {
    && 0 <= f.hours <= 12
    && 0 <= f.minutes <= 59
    && 1 <= f.schedHour <= 12
    && IsFiveStep(f.schedMinute)
  }

  /**
   * handleSubmit. A blank title or an estimate under five minutes gives nothing; otherwise
   * the request carries the trimmed title, the estimate in seconds, location and purpose
   * trimmed or absent when blank, the scheduled instant, the repeat type, and the weekday
   * exactly when the repeat is weekly.
   */
  function Submit(f: FormFields, c: Clock): (r: Option<NewTask>)
    ensures r.None? <==> !Accepts(f.title, f.hours, f.minutes)
    ensures r.Some? ==> r.value.title == Trim(f.title) && r.value.title != []
    ensures r.Some? ==> r.value.estimatedSeconds == f.hours * 3600 + f.minutes * 60 >= 300
    ensures r.Some? ==> r.value.location == TrimmedOrAbsent(f.location) && r.value.purpose == TrimmedOrAbsent(f.purpose)
    ensures r.Some? ==> r.value.scheduledAt == ScheduledInstant(c, f.schedHour, f.schedPeriod, f.schedMinute)
    ensures r.Some? ==> r.value.repeatType == f.repeatType
    ensures r.Some? ==> (r.value.repeatDayOfWeek.Some? <==> f.repeatType == Weekly)
    ensures r.Some? && r.value.repeatDayOfWeek.Some? ==> r.value.repeatDayOfWeek.value == c.weekday
  {
    var totalSeconds := TotalSeconds(f.hours, f.minutes);
    if Trim(f.title) == [] || totalSeconds < MinEstimateSeconds then None
    else
      Some(NewTask(
        Trim(f.title),
        totalSeconds,
        TrimmedOrAbsent(f.location),
        TrimmedOrAbsent(f.purpose),
        ScheduledInstant(c, f.schedHour, f.schedPeriod, f.schedMinute),
        f.repeatType,
        if f.repeatType == Weekly then Some(c.weekday) else None))
  }

  /**
   * With the fields in their ranges, an accepted request asks for 5 minutes to 12 h 59 min
   * and a time within the next 24 hours, on the chosen hour and minute.
   */
  lemma SubmitInRange(f: FormFields, c: Clock)
    requires InRange(f) && ValidClock(c)
    requires Submit(f, c).Some?
    ensures 300 <= Submit(f, c).value.estimatedSeconds <= 46740
    ensures c.now <= Submit(f, c).value.scheduledAt < c.now + DayMs
    ensures TimeOfDay(c, Submit(f, c).value.scheduledAt) == (To24Hour(f.schedHour, f.schedPeriod), f.schedMinute)
  {
  }

  /** The form component: its fields, updated in place by the buttons and inputs. */
  class Form {
    var title: string
    var hours: int
    var minutes: int
    var location: string
    var purpose: string
    var schedHour: int
    var schedMinute: int
    var schedPeriod: Period
    var repeatType: RepeatType
    var showRepeatDropdown: bool

    function Fields(): FormFields
      reads this
    {
      FormFields(title, hours, minutes, location, purpose, schedHour, schedMinute, schedPeriod, repeatType)
    }

    predicate Valid()
      reads this
    {
      InRange(Fields())
    }

    constructor (c: Clock)
      ensures Fields() == InitialFields(c) && !showRepeatDropdown
      ensures ValidClock(c) ==> Valid()
    {
      var h := CurrentHour(c);
      title := [];
      hours := 0;
      minutes := 25;
      location := [];
      purpose := [];
      schedHour := if h == 0 then 12 else if h > 12 then h - 12 else h;
      schedMinute := RoundUpToFive(CurrentMinute(c));
      schedPeriod := if h >= 12 then PM else AM;
      repeatType := NoRepeat;
      showRepeatDropdown := false;
    }

    method SetTitle(text: string)
      modifies this
      ensures Fields() == old(Fields()).(title := text) && showRepeatDropdown == old(showRepeatDropdown)
    {
      title := text;
    }

    method SetLocation(text: string)
      modifies this
      ensures Fields() == old(Fields()).(location := text) && showRepeatDropdown == old(showRepeatDropdown)
    {
      location := text;
    }

    method SetPurpose(text: string)
      modifies this
      ensures Fields() == old(Fields()).(purpose := text) && showRepeatDropdown == old(showRepeatDropdown)
    {
      purpose := text;
    }

    method DecreaseHours()
      modifies this
      ensures Fields() == old(Fields()).(hours := HoursDown(old(hours))) && showRepeatDropdown == old(showRepeatDropdown)
      ensures old(Valid()) ==> Valid()
    {
      hours := if hours - 1 > 0 then hours - 1 else 0;
    }

    method IncreaseHours()
      modifies this
      ensures Fields() == old(Fields()).(hours := HoursUp(old(hours))) && showRepeatDropdown == old(showRepeatDropdown)
      ensures old(Valid()) ==> Valid()
    {
      hours := if hours + 1 < 12 then hours + 1 else 12;
    }

    method DecreaseMinutes()
      modifies this
      ensures Fields() == old(Fields()).(minutes := MinutesDown(old(minutes))) && showRepeatDropdown == old(showRepeatDropdown)
      ensures old(Valid()) ==> Valid()
    {
      minutes := if minutes - 5 > 0 then minutes - 5 else 0;
    }

    method IncreaseMinutes()
      modifies this
      ensures Fields() == old(Fields()).(minutes := MinutesUp(old(minutes))) && showRepeatDropdown == old(showRepeatDropdown)
      ensures old(Valid()) ==> Valid()
    {
      minutes := if minutes + 5 < 59 then minutes + 5 else 59;
    }

    method DecreaseScheduleHour()
      modifies this
      ensures Fields() == old(Fields()).(schedHour := PrevHour(old(schedHour))) && showRepeatDropdown == old(showRepeatDropdown)
      ensures old(Valid()) ==> Valid()
    {
      schedHour := if schedHour <= 1 then 12 else schedHour - 1;
    }

    method IncreaseScheduleHour()
      modifies this
      ensures Fields() == old(Fields()).(schedHour := NextHour(old(schedHour))) && showRepeatDropdown == old(showRepeatDropdown)
      ensures old(Valid()) ==> Valid()
    {
      schedHour := if schedHour >= 12 then 1 else schedHour + 1;
    }

    method DecreaseScheduleMinute()
      modifies this
      ensures Fields() == old(Fields()).(schedMinute := PrevMinute(old(schedMinute))) && showRepeatDropdown == old(showRepeatDropdown)
      ensures old(Valid()) ==> Valid()
    {
      schedMinute := if schedMinute <= 0 then 55 else schedMinute - 5;
    }

    method IncreaseScheduleMinute()
      modifies this
      ensures Fields() == old(Fields()).(schedMinute := NextMinute(old(schedMinute))) && showRepeatDropdown == old(showRepeatDropdown)
      ensures old(Valid()) ==> Valid()
    {
      schedMinute := if schedMinute >= 55 then 0 else schedMinute + 5;
    }

    method SetPeriod(period: Period)
      modifies this
      ensures Fields() == old(Fields()).(schedPeriod := period) && showRepeatDropdown == old(showRepeatDropdown)
      ensures old(Valid()) ==> Valid()
    {
      schedPeriod := period;
    }

    /** The repeat button opens or closes the option list. */
    method ToggleRepeatDropdown()
      modifies this
      ensures Fields() == old(Fields()) && showRepeatDropdown == !old(showRepeatDropdown)
    {
      showRepeatDropdown := !showRepeatDropdown;
    }

    /** A click on the backdrop closes the option list. */
    method CloseRepeatDropdown()
      modifies this
      ensures Fields() == old(Fields()) && !showRepeatDropdown
    {
      showRepeatDropdown := false;
    }

    /** Picking an option sets the repeat type and closes the list. */
    method ChooseRepeat(choice: RepeatType)
      modifies this
      ensures Fields() == old(Fields()).(repeatType := choice) && !showRepeatDropdown
      ensures old(Valid()) ==> Valid()
    {
      repeatType := choice;
      showRepeatDropdown := false;
    }

    /** handleSubmit: the request passed to onSubmit, if any; the fields stay as they are. */
    method HandleSubmit(c: Clock) returns (request: Option<NewTask>)
      ensures request == Submit(Fields(), c)
    {
      var totalSeconds := hours * 3600 + minutes * 60;
      var trimmed := Trim(title);
      if trimmed == [] || totalSeconds < 300 {
        return None;
      }
      var day := if repeatType == Weekly then Some(c.weekday) else None;
      request := Some(NewTask(trimmed, totalSeconds, TrimmedOrAbsent(location), TrimmedOrAbsent(purpose),
        ScheduledInstant(c, schedHour, schedPeriod, schedMinute), repeatType, day));
    }

    /** The submit button's disabled state while `loading` is as given (TaskFields.SubmitDisabled). */
    predicate ButtonDisabled(loading: bool)
      reads this
    {
      SubmitDisabled(loading, title, hours, minutes)
    }
  }
}
