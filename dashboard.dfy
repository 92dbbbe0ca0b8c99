/**
 * The dashboard's task and timer session (components/Dashboard.tsx): a task list, the
 * active task, the timer's status, mode and pomodoro phase, and a seconds counter that a
 * once-per-second tick counts up (flow) or down (pomodoro).
 *
 * The transitions are stated as functions on a `Session` value, with the properties the
 * handlers promise; `SessionController` holds the same six fields and runs each handler
 * step by step, proved to move its state exactly as the function says.
 */
module Dashboard {
  import opened Types
  import opened Lists

  /** POMODORO_WORK_SECONDS: 25 minutes. */
  const PomodoroWorkSeconds: int := 25 * 60
  /** POMODORO_BREAK_SECONDS: 5 minutes. */
  const PomodoroBreakSeconds: int := 5 * 60

  /** The dashboard's state fields. */
  datatype Session = Session(
    tasks: seq<Task>,
    activeTaskId: Option<string>,
    status: TimerStatus,
    mode: TimerMode,
    phase: PomodoroState,
    seconds: int)

  /** The state on mount: no tasks, no active task, idle flow timer at 0 in the work phase. */
  const Initial: Session := Session([], None, Idle, Flow, Work, 0)

  /** `if (activeTaskId)`: the id is set and is not the empty (falsy) string. */
  predicate HasActiveTask(s: Session)
  {
    s.activeTaskId.Some? && s.activeTaskId.value != ""
  }

  /** The seconds a fresh or stopped timer shows in each mode. */
  function StartSeconds(mode: TimerMode): int
  {
    if mode == Pomodoro then PomodoroWorkSeconds else 0
  }

  /** The length of each pomodoro phase. */
  function PhaseSeconds(phase: PomodoroState): int
  {
    if phase == Work then PomodoroWorkSeconds else PomodoroBreakSeconds
  }

  /**
   * The counter's range: never negative while counting up, and between 1 and the work
   * length while counting down.
   */
  predicate Bounded(s: Session)
  {
    && (s.mode == Flow ==> s.seconds >= 0)
    && (s.mode == Pomodoro ==> 1 <= s.seconds <= PomodoroWorkSeconds)
  }

  // ---------------------------------------------------------------- task-list updates

  /**
   * The markDone update of the list: every task with that id becomes completed with the
   * given total time; every other task is unchanged.
   */
  function CompleteWithTime(tasks: seq<Task>, id: string, total: int): (r: seq<Task>)
    ensures |r| == |tasks|
    ensures forall i :: 0 <= i < |tasks| && tasks[i].id == id ==>
              r[i].completed && r[i].timeSpent == total && r[i].(completed := tasks[i].completed, timeSpent := tasks[i].timeSpent) == tasks[i]
    ensures forall i :: 0 <= i < |tasks| && tasks[i].id != id ==> r[i] == tasks[i]
  {
    seq(|tasks|, i requires 0 <= i < |tasks| =>
      if tasks[i].id == id then tasks[i].(completed := true, timeSpent := total) else tasks[i])
  }

  /** The toggleComplete update of the list: the completed flag of every task with that id flips. */
  function FlipCompleted(tasks: seq<Task>, id: string): (r: seq<Task>)
    ensures |r| == |tasks|
    ensures forall i :: 0 <= i < |tasks| && tasks[i].id == id ==>
              r[i].completed == !tasks[i].completed && r[i].(completed := tasks[i].completed) == tasks[i]
    ensures forall i :: 0 <= i < |tasks| && tasks[i].id != id ==> r[i] == tasks[i]
  {
    seq(|tasks|, i requires 0 <= i < |tasks| =>
      if tasks[i].id == id then tasks[i].(completed := !tasks[i].completed) else tasks[i])
  }

  /** Flipping the same task twice restores the list. */
  lemma FlipCompletedTwice(tasks: seq<Task>, id: string)
    ensures FlipCompleted(FlipCompleted(tasks, id), id) == tasks
  {
    var once := FlipCompleted(tasks, id);
    var twice := FlipCompleted(once, id);
    forall i | 0 <= i < |tasks| ensures twice[i] == tasks[i] {
      assert once[i].id == tasks[i].id;
    }
  }

  function HasId(id: string): Task -> bool
  {
    (t: Task) => t.id == id
  }

  /** The delete update of the list: tasks.filter(t => t.id !== id). */
  function RemoveById(tasks: seq<Task>, id: string): (r: seq<Task>)
    ensures forall i :: 0 <= i < |r| ==> r[i].id != id
    ensures |r| <= |tasks|
  {
    Reject(tasks, HasId(id))
  }

  /** Deleting keeps every other task, in order: it distributes over concatenation. */
  lemma {:induction false} RemoveByIdAppend(a: seq<Task>, b: seq<Task>, id: string)
    ensures RemoveById(a + b, id) == RemoveById(a, id) + RemoveById(b, id)
  {
    RejectAppend(a, b, HasId(id));
  }

  /** Deleting an id no task carries leaves the list as it is. */
  lemma {:induction false} RemoveAbsentId(tasks: seq<Task>, id: string)
    requires forall i :: 0 <= i < |tasks| ==> tasks[i].id != id
    ensures RemoveById(tasks, id) == tasks
  {
    RejectNone(tasks, HasId(id));
  }

  /** Deleting removes exactly the tasks with that id: the others are all still there. */
  lemma {:induction false} RemoveByIdKeepsOthers(tasks: seq<Task>, id: string, i: nat)
    requires i < |tasks| && tasks[i].id != id
    ensures tasks[i] in RemoveById(tasks, id)
  {
    RejectKeeps(tasks, HasId(id), i);
  }

  // ---------------------------------------------------------------- shared steps

  /**
   * What select and auto-select do: make `id` active, restart the counter for the mode
   * (the work phase in pomodoro) and run.
   */
  function StartOn(s: Session, id: string): (r: Session)
    ensures r.tasks == s.tasks && r.mode == s.mode
    ensures r.activeTaskId == Some(id) && r.status == Running
    ensures r.seconds == StartSeconds(s.mode)
    ensures r.phase == if s.mode == Pomodoro then Work else s.phase
    ensures Bounded(r)
  {
    if s.mode == Pomodoro then
      s.(activeTaskId := Some(id), seconds := PomodoroWorkSeconds, phase := Work, status := Running)
    else
      s.(activeTaskId := Some(id), seconds := 0, status := Running)
  }

  /** What markDone, delete and toggleComplete do to the timer: idle, cleared, counter reset. */
  function StopTimer(s: Session): (r: Session)
    ensures r.tasks == s.tasks && r.mode == s.mode && r.phase == s.phase
    ensures r.status == Idle && r.activeTaskId == None
    ensures r.seconds == StartSeconds(s.mode)
    ensures Bounded(r)
  {
    s.(status := Idle, seconds := StartSeconds(s.mode), activeTaskId := None)
  }

  // ---------------------------------------------------------------- handlers

  /**
   * handleToggleTimer. Without an active task in flow mode nothing happens; otherwise a
   * running timer pauses and an idle or paused one runs, and nothing else changes.
   */
  function ToggleTimer(s: Session): (r: Session)
    ensures !HasActiveTask(s) && s.mode == Flow ==> r == s
    ensures !(!HasActiveTask(s) && s.mode == Flow) ==>
              (r.status == Running <==> s.status != Running) && r.status != Idle && r.(status := s.status) == s
    ensures Bounded(s) ==> Bounded(r)
  {
    if !HasActiveTask(s) && s.mode == Flow then s
    else if s.status == Running then s.(status := Paused)
    else s.(status := Running)
  }

  /** Toggling a running or paused timer twice puts it back. */
  lemma ToggleTimerTwice(s: Session)
    requires s.status != Idle
    ensures ToggleTimer(ToggleTimer(s)) == s
  {
  }

  /** The seconds markDone credits to the task: the counter in flow mode, nothing in pomodoro. */
  function CreditedSeconds(s: Session): int
  {
    if s.mode == Flow then s.seconds else 0
  }

  /**
   * The minute gate of logFocusSession: floor(seconds / 60) minutes are logged, and
   * nothing is logged when that is below one minute.
   */
  function FocusMinutes(durationSeconds: int): (r: Option<nat>)
    ensures r.None? <==> durationSeconds < 60
    ensures r.Some? ==> r.value >= 1 && r.value * 60 <= durationSeconds < (r.value + 1) * 60
  {
    var minutes := durationSeconds / 60;
    if minutes < 1 then None else Some(minutes)
  }

  /** The total markDone writes: the first matching task's time plus the credited seconds. */
  function NewTotalTime(s: Session): int
  {
    (match FindTask(s.tasks, s.activeTaskId)
     case Some(t) => t.timeSpent
     case None => 0) + CreditedSeconds(s)
  }

  /**
   * handleMarkDone. With no active task nothing happens. Otherwise every task with the
   * active id is completed with its new total time, the others are untouched, and the
   * timer stops with no active task and the counter reset for the mode.
   */
  function MarkDone(s: Session): (r: Session)
    ensures !HasActiveTask(s) ==> r == s
    ensures HasActiveTask(s) ==>
              && r.tasks == CompleteWithTime(s.tasks, s.activeTaskId.value, NewTotalTime(s))
              && r.status == Idle && r.activeTaskId == None
              && r.seconds == StartSeconds(s.mode) && r.mode == s.mode && r.phase == s.phase
    ensures Bounded(s) ==> Bounded(r)
  {
    if HasActiveTask(s) then
      var total := NewTotalTime(s);
      StopTimer(s.(tasks := CompleteWithTime(s.tasks, s.activeTaskId.value, total)))
    else s
  }

  /**
   * What markDone logs as a focus session: floor(seconds / 60) minutes exactly for an
   * active task in flow mode after at least a minute, nothing otherwise.
   */
  function MarkDoneLog(s: Session): (r: Option<nat>)
    ensures r.Some? <==> HasActiveTask(s) && s.mode == Flow && s.seconds >= 60
    ensures r.Some? ==> r.value == s.seconds / 60
  {
    if HasActiveTask(s) then FocusMinutes(CreditedSeconds(s)) else None
  }

  /**
   * markDone credits the active task: the first task with the active id ends completed
   * with exactly its old time plus the credited seconds.
   */
  lemma MarkDoneCredits(s: Session, k: nat)
    requires HasActiveTask(s)
    requires FindIndex(s.tasks, s.activeTaskId) == Some(k)
    ensures k < |MarkDone(s).tasks|
    ensures MarkDone(s).tasks[k].completed
    ensures MarkDone(s).tasks[k].timeSpent == s.tasks[k].timeSpent + CreditedSeconds(s)
  {
    assert FindTask(s.tasks, s.activeTaskId) == Some(s.tasks[k]);
  }

  /**
   * handleAddTask with the record the backend returned (None when creation failed). The
   * task is appended at the end; when no task was active it becomes active and the timer
   * starts on it as select would.
   */
  function AddTask(s: Session, created: Option<Task>): (r: Session)
    ensures created.None? ==> r == s
    ensures created.Some? ==> r.tasks == s.tasks + [created.value]
    ensures created.Some? && HasActiveTask(s) ==> r == s.(tasks := s.tasks + [created.value])
    ensures created.Some? && !HasActiveTask(s) ==> r == StartOn(s, created.value.id).(tasks := s.tasks + [created.value])
    ensures Bounded(s) ==> Bounded(r)
  {
    match created
    case None => s
    case Some(t) =>
      var appended := s.(tasks := s.tasks + [t]);
      if !HasActiveTask(s) then StartOn(appended, t.id) else appended
  }

  /**
   * handleDeleteTask. The task(s) with that id leave the list; when the active task is
   * deleted the timer stops, otherwise the timer is untouched.
   */
  function DeleteTask(s: Session, id: string): (r: Session)
    ensures r.tasks == RemoveById(s.tasks, id)
    ensures s.activeTaskId == Some(id) ==> r == StopTimer(s).(tasks := r.tasks)
    ensures s.activeTaskId != Some(id) ==> r == s.(tasks := r.tasks)
    ensures Bounded(s) ==> Bounded(r)
  {
    var rest := s.(tasks := RemoveById(s.tasks, id));
    if s.activeTaskId == Some(id) then StopTimer(rest) else rest
  }

  /**
   * handleModeChange: the timer goes idle in the new mode, in the work phase, with the
   * counter at that mode's start; tasks and the active task stay.
   */
  function ModeChange(s: Session, mode: TimerMode): (r: Session)
    ensures r.tasks == s.tasks && r.activeTaskId == s.activeTaskId
    ensures r.mode == mode && r.status == Idle && r.phase == Work
    ensures r.seconds == StartSeconds(mode)
    ensures Bounded(r)
  {
    s.(mode := mode, status := Idle, phase := Work, seconds := StartSeconds(mode))
  }

  /**
   * handleSelectTask: selecting the active task does nothing; selecting any other id
   * starts the timer on it.
   */
  function SelectTask(s: Session, id: string): (r: Session)
    ensures s.activeTaskId == Some(id) ==> r == s
    ensures s.activeTaskId != Some(id) ==> r == StartOn(s, id)
    ensures Bounded(s) ==> Bounded(r)
  {
    if s.activeTaskId != Some(id) then StartOn(s, id) else s
  }

  /**
   * handleToggleComplete. An unknown id changes nothing. Otherwise the task's completed
   * flag flips, and if it was the active task the timer stops.
   */
  function ToggleComplete(s: Session, id: string): (r: Session)
    ensures FindTask(s.tasks, Some(id)).None? ==> r == s
    ensures FindTask(s.tasks, Some(id)).Some? ==> r.tasks == FlipCompleted(s.tasks, id)
    ensures FindTask(s.tasks, Some(id)).Some? && s.activeTaskId == Some(id) ==> r == StopTimer(s).(tasks := r.tasks)
    ensures FindTask(s.tasks, Some(id)).Some? && s.activeTaskId != Some(id) ==> r == s.(tasks := r.tasks)
    ensures Bounded(s) ==> Bounded(r)
  {
    if FindTask(s.tasks, Some(id)).None? then s
    else
      var flipped := s.(tasks := FlipCompleted(s.tasks, id));
      if s.activeTaskId == Some(id) then StopTimer(flipped) else flipped
  }

  /** Completing and un-completing the same task restores the task list. */
  lemma ToggleCompleteTwice(s: Session, id: string)
    ensures ToggleComplete(ToggleComplete(s, id), id).tasks == s.tasks
  {
    var once := ToggleComplete(s, id);
    if FindTask(s.tasks, Some(id)).Some? {
      var k := FindIndex(s.tasks, Some(id)).value;
      assert once.tasks[k].id == id;
      assert FindTask(once.tasks, Some(id)).Some?;
      FlipCompletedTwice(s.tasks, id);
    }
  }

  /**
   * handleReset: idle, with the counter at 0 in flow mode and at the current phase's
   * length in pomodoro mode; the active task and everything else stay.
   */
  function Reset(s: Session): (r: Session)
    ensures r.tasks == s.tasks && r.activeTaskId == s.activeTaskId
    ensures r.mode == s.mode && r.phase == s.phase && r.status == Idle
    ensures r.seconds == if s.mode == Flow then 0 else PhaseSeconds(s.phase)
    ensures Bounded(r)
  {
    s.(status := Idle, seconds := if s.mode == Flow then 0 else PhaseSeconds(s.phase))
  }

  /**
   * The interval callback, once per second while running. Flow counts up by one. Pomodoro
   * counts down by one while above 1; at 1 or below it switches phase and loads the new
   * phase's length. Nothing happens unless the timer runs.
   */
  function Tick(s: Session): (r: Session)
    ensures s.status != Running ==> r == s
    ensures r.tasks == s.tasks && r.activeTaskId == s.activeTaskId
    ensures r.status == s.status && r.mode == s.mode
    ensures s.status == Running && s.mode == Flow ==> r.seconds == s.seconds + 1 && r.phase == s.phase
    ensures s.status == Running && s.mode == Pomodoro && s.seconds > 1 ==>
              r.seconds == s.seconds - 1 && r.phase == s.phase
    ensures s.status == Running && s.mode == Pomodoro && s.seconds <= 1 ==>
              r.phase != s.phase && r.seconds == PhaseSeconds(r.phase)
    ensures Bounded(s) ==> Bounded(r)
  {
    if s.status != Running then s
    else if s.mode == Flow then s.(seconds := s.seconds + 1)
    else if s.seconds <= 1 then
      if s.phase == Work then s.(phase := Break, seconds := PomodoroBreakSeconds)
      else s.(phase := Work, seconds := PomodoroWorkSeconds)
    else s.(seconds := s.seconds - 1)
  }

  // ---------------------------------------------------------------- runs of events

  /** Every way the user or the interval can drive the dashboard. */
  datatype Event =
    | ToggleTimerClicked
    | MarkDoneClicked
    | TaskAdded(created: Option<Task>)
    | TaskDeleted(id: string)
    | ModeChanged(mode: TimerMode)
    | TaskSelected(id: string)
    | CompletionToggled(id: string)
    | ResetClicked
    | SecondElapsed

  function Step(s: Session, e: Event): Session
  {
    match e
    case ToggleTimerClicked => ToggleTimer(s)
    case MarkDoneClicked => MarkDone(s)
    case TaskAdded(created) => AddTask(s, created)
    case TaskDeleted(id) => DeleteTask(s, id)
    case ModeChanged(mode) => ModeChange(s, mode)
    case TaskSelected(id) => SelectTask(s, id)
    case CompletionToggled(id) => ToggleComplete(s, id)
    case ResetClicked => Reset(s)
    case SecondElapsed => Tick(s)
  }

  /** The state after a sequence of events, each applied in order. */
  function Run(s: Session, events: seq<Event>): Session
    decreases |events|
  {
    if |events| == 0 then s else Run(Step(s, events[0]), events[1..])
  }

  /** Every handler and the tick keep the counter in range. */
  lemma StepKeepsBounded(s: Session, e: Event)
    requires Bounded(s)
    ensures Bounded(Step(s, e))
  {
  }

  /** Any run of events from a state in range ends in range. */
  lemma {:induction false} RunKeepsBounded(s: Session, events: seq<Event>)
    requires Bounded(s)
    ensures Bounded(Run(s, events))
    decreases |events|
  {
    if |events| > 0 {
      StepKeepsBounded(s, events[0]);
      RunKeepsBounded(Step(s, events[0]), events[1..]);
    }
  }

  /**
   * From the state on mount, whatever happens, the counter stays in range: in pomodoro
   * mode it is always between 1 and 1500 seconds, in flow mode never negative.
   */
  lemma PomodoroCounterInRange(events: seq<Event>)
    ensures Run(Initial, events).mode == Pomodoro ==> 1 <= Run(Initial, events).seconds <= 1500
    ensures Run(Initial, events).mode == Flow ==> Run(Initial, events).seconds >= 0
  {
    RunKeepsBounded(Initial, events);
  }

  // ---------------------------------------------------------------- the component

  /** The dashboard component's state, updated in place by its handlers. */
  class SessionController {
    var tasks: seq<Task>
    var activeTaskId: Option<string>
    var timerStatus: TimerStatus
    var timerMode: TimerMode
    var pomodoroState: PomodoroState
    var seconds: int

    function State(): Session
      reads this
    {
      Session(tasks, activeTaskId, timerStatus, timerMode, pomodoroState, seconds)
    }

    predicate Valid()
      reads this
    {
      Bounded(State())
    }

    constructor ()
      ensures Valid() && State() == Initial
    {
      tasks := [];
      activeTaskId := None;
      timerStatus := Idle;
      timerMode := Flow;
      pomodoroState := Work;
      seconds := 0;
    }

    /** `!activeTaskId` is false. */
    predicate ActiveIdTruthy()
      reads this
    {
      activeTaskId.Some? && activeTaskId.value != ""
    }

    method HandleToggleTimer()
      requires Valid()
      modifies this
      ensures Valid() && State() == ToggleTimer(old(State()))
    {
      if !ActiveIdTruthy() && timerMode == Flow {
        return;
      }
      if timerStatus == Running {
        timerStatus := Paused;
      } else {
        timerStatus := Running;
      }
    }

    /** Returns the minutes logged as a focus session, if any. */
    method HandleMarkDone() returns (loggedMinutes: Option<nat>)
      requires Valid()
      modifies this
      ensures Valid() && State() == MarkDone(old(State()))
      ensures loggedMinutes == MarkDoneLog(old(State()))
    {
      ghost var s := State();
      loggedMinutes := None;
      if ActiveIdTruthy() {
        var id := activeTaskId.value;
        var task := FindTask(tasks, activeTaskId);
        var additionalTime := if timerMode == Flow then seconds else 0;
        var newTotalTime := (match task case Some(t) => t.timeSpent case None => 0) + additionalTime;
        assert additionalTime == CreditedSeconds(s) && newTotalTime == NewTotalTime(s);
        tasks := CompleteWithTime(tasks, id, newTotalTime);
        loggedMinutes := FocusMinutes(additionalTime);
        timerStatus := Idle;
        seconds := if timerMode == Pomodoro then PomodoroWorkSeconds else 0;
        activeTaskId := None;
        assert State() == StopTimer(s.(tasks := CompleteWithTime(s.tasks, id, newTotalTime)));
      }
    }

    /** `created` is the record the backend returned, None when creation failed. */
    method HandleAddTask(created: Option<Task>)
      requires Valid()
      modifies this
      ensures Valid() && State() == AddTask(old(State()), created)
    {
      if created.None? {
        return;
      }
      var newTask := created.value;
      tasks := tasks + [newTask];
      if !ActiveIdTruthy() {
        activeTaskId := Some(newTask.id);
        if timerMode == Pomodoro {
          seconds := PomodoroWorkSeconds;
          pomodoroState := Work;
        } else {
          seconds := 0;
        }
        timerStatus := Running;
      }
    }

    method HandleDeleteTask(id: string)
      requires Valid()
      modifies this
      ensures Valid() && State() == DeleteTask(old(State()), id)
    {
      tasks := RemoveById(tasks, id);
      if activeTaskId == Some(id) {
        timerStatus := Idle;
        seconds := if timerMode == Pomodoro then PomodoroWorkSeconds else 0;
        activeTaskId := None;
      }
    }

    method HandleModeChange(mode: TimerMode)
      requires Valid()
      modifies this
      ensures Valid() && State() == ModeChange(old(State()), mode)
    {
      timerMode := mode;
      timerStatus := Idle;
      pomodoroState := Work;
      seconds := if mode == Pomodoro then PomodoroWorkSeconds else 0;
    }

    method HandleSelectTask(id: string)
      requires Valid()
      modifies this
      ensures Valid() && State() == SelectTask(old(State()), id)
    {
      if activeTaskId != Some(id) {
        activeTaskId := Some(id);
        if timerMode == Pomodoro {
          seconds := PomodoroWorkSeconds;
          pomodoroState := Work;
        } else {
          seconds := 0;
        }
        timerStatus := Running;
      }
    }

    method HandleToggleComplete(id: string)
      requires Valid()
      modifies this
      ensures Valid() && State() == ToggleComplete(old(State()), id)
    {
      var task := FindTask(tasks, Some(id));
      if task.None? {
        return;
      }
      tasks := FlipCompleted(tasks, id);
      if activeTaskId == Some(id) {
        timerStatus := Idle;
        seconds := if timerMode == Pomodoro then PomodoroWorkSeconds else 0;
        activeTaskId := None;
      }
    }

    method HandleReset()
      requires Valid()
      modifies this
      ensures Valid() && State() == Reset(old(State()))
    {
      timerStatus := Idle;
      if timerMode == Flow {
        seconds := 0;
      } else {
        seconds := if pomodoroState == Work then PomodoroWorkSeconds else PomodoroBreakSeconds;
      }
    }

    /** One firing of the one-second interval; the interval exists only while running. */
    method OnSecond()
      requires Valid()
      modifies this
      ensures Valid() && State() == Tick(old(State()))
    {
      if timerStatus != Running {
        return;
      }
      if timerMode == Flow {
        seconds := seconds + 1;
      } else if seconds <= 1 {
        if pomodoroState == Work {
          pomodoroState := Break;
          seconds := PomodoroBreakSeconds;
        } else {
          pomodoroState := Work;
          seconds := PomodoroWorkSeconds;
        }
      } else {
        seconds := seconds - 1;
      }
    }
  }
}
