/**
 * The records shared by every component: the task record and the timer's enumerations
 * (types.ts), plus the optional-value wrapper used for the record's optional fields.
 */
module Types {

  /** An optional value; TypeScript's `?:` fields and `| null` unions. */
  datatype Option<T> = None | Some(value: T)

  /**
   * A task (types.ts:2-12). Every task carries id, title, completed, timeSpent and
   * estimatedSeconds; the last four fields may be absent. Both durations are in seconds and
   * are plain numbers, as in the record. scheduledAt is the ISO text as stored.
   */
  datatype Task = Task(
    id: string,
    title: string,
    completed: bool,
    timeSpent: int,
    estimatedSeconds: int,
    location: Option<string>,
    purpose: Option<string>,
    scheduledAt: Option<string>,
    habitId: Option<string>)

  /** 'idle' | 'running' | 'paused' (types.ts:14). */
  datatype TimerStatus = Idle | Running | Paused

  /** 'flow' | 'pomodoro', as the dashboard uses it. */
  datatype TimerMode = Flow | Pomodoro

  /** 'work' | 'break', as the dashboard uses it. */
  datatype PomodoroState = Work | Break

  /** The string literal that names each status in the TypeScript union. */
  function StatusName(s: TimerStatus): string
  {
    match s
    case Idle => "idle"
    case Running => "running"
    case Paused => "paused"
  }

  /** Reads a status literal; exactly the three names of the union are accepted. */
  function ParseStatus(name: string): (r: Option<TimerStatus>)
    ensures r.Some? <==> name == "idle" || name == "running" || name == "paused"
    ensures r.Some? ==> StatusName(r.value) == name
  {
    if name == "idle" then Some(Idle)
    else if name == "running" then Some(Running)
    else if name == "paused" then Some(Paused)
    else None
  }

  /** The union has exactly three members, and each name reads back as its own status. */
  lemma StatusNamesRoundTrip(s: TimerStatus)
    ensures ParseStatus(StatusName(s)) == Some(s)
    ensures s == Idle || s == Running || s == Paused
  {
  }

  /**
   * tasks.find(t => t.id === id): the index of the first task whose id equals `id`,
   * or None when no task has it. `id` is optional because the active task id may be null.
   */
  function FindIndex(tasks: seq<Task>, id: Option<string>): (r: Option<nat>)
    ensures r.None? <==> forall i :: 0 <= i < |tasks| ==> Some(tasks[i].id) != id
    ensures r.Some? ==> r.value < |tasks| && Some(tasks[r.value].id) == id
    ensures r.Some? ==> forall j :: 0 <= j < r.value ==> Some(tasks[j].id) != id
  {
    if |tasks| == 0 then None
    else if Some(tasks[0].id) == id then Some(0)
    else
      match FindIndex(tasks[1..], id)
      case None => None
      case Some(k) => Some(k + 1)
  }

  /** The task `tasks.find` returns: the first one with that id. */
  function FindTask(tasks: seq<Task>, id: Option<string>): (r: Option<Task>)
    ensures r.None? <==> forall i :: 0 <= i < |tasks| ==> Some(tasks[i].id) != id
    ensures r.Some? ==> r.value in tasks && Some(r.value.id) == id
  {
    match FindIndex(tasks, id)
    case None => None
    case Some(k) => Some(tasks[k])
  }
}
