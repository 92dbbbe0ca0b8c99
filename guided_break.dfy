/**
 * The guided break (components/GuidedBreak.tsx): one view per break phase, the length of
 * each activity, and the decision screen's "keep going" choice. The countdown text is
 * ClockText.FormatBreakTime and the estimate label ClockText.FormatDuration.
 */
module GuidedBreak {
  import opened Types

  /** 'victory' | 'select' | 'active' | 'decision' | 'all-done'. */
  datatype BreakPhase = Victory | SelectActivity | ActiveRest | Decision | AllDone

  /** 'breathing' | 'doodling' | 'stretches'. */
  datatype BreakActivity = Breathing | Doodling | Stretches

  /** The views the component can render. */
  datatype View = VictoryView | SelectView | ActiveView | DecisionView | AllDoneView

  /** The callbacks a view can invoke on the component's owner. */
  datatype Callback =
    | DrinkWater
    | ActivityChosen(activity: BreakActivity)
    | SkipBreak
    | Done
    | ContinueWith(taskId: string)

  /** The phase-to-view dispatch: each phase renders exactly its own view. */
  function ViewFor(phase: BreakPhase): (v: View)
    ensures PhaseOf(v) == phase
  {
    match phase
    case Victory => VictoryView
    case SelectActivity => SelectView
    case ActiveRest => ActiveView
    case Decision => DecisionView
    case AllDone => AllDoneView
  }

  /** The phase a view belongs to. */
  function PhaseOf(v: View): BreakPhase
  {
    match v
    case VictoryView => Victory
    case SelectView => SelectActivity
    case ActiveView => ActiveRest
    case DecisionView => Decision
    case AllDoneView => AllDone
  }

  /** Different phases render different views. */
  lemma DispatchInjective(p: BreakPhase, q: BreakPhase)
    requires ViewFor(p) == ViewFor(q)
    ensures p == q
  {
    assert PhaseOf(ViewFor(p)) == p;
  }

  /**
   * What a view's buttons can invoke. The victory view's button is wired to onDrinkWater,
   * not onDone; the decision view can finish or continue with a remaining task.
   */
  predicate MayInvoke(v: View, cb: Callback)
  {
    match v
    case VictoryView => cb == DrinkWater
    case SelectView => cb.ActivityChosen?
    case ActiveView => cb == SkipBreak
    case DecisionView => cb == Done || cb.ContinueWith?
    case AllDoneView => cb == Done
  }

  /** Only the victory view asks for water, and it never finishes the break. */
  lemma DrinkWaterOnlyFromVictory(phase: BreakPhase)
    ensures MayInvoke(ViewFor(phase), DrinkWater) <==> phase == Victory
    ensures phase == Victory ==> !MayInvoke(ViewFor(phase), Done)
  {
  }

  /** totalDuration: 120 seconds of stretches, 300 for anything else or no activity. */
  function BreakLength(activity: Option<BreakActivity>): (seconds: int)
    ensures seconds == 120 <==> activity == Some(Stretches)
    ensures seconds == 120 || seconds == 300
  {
    if activity == Some(Stretches) then 120 else 300
  }

  /** The decision screen: whether the remaining-task list has been revealed. */
  class DecisionPhase {
    var showTasks: bool

    constructor ()
      ensures !showTasks
    {
      showTasks := false;
    }

    /** "I'm done for now", shown while the list is hidden: the break is done. */
    method DoneForNow() returns (invoked: Callback)
      requires !showTasks
      ensures invoked == Done && MayInvoke(DecisionView, invoked)
    {
      invoked := Done;
    }

    /**
     * "Let's keep going", shown while the list is hidden: with tasks remaining the list
     * is revealed and nothing is invoked; with none the break is done.
     */
    method KeepGoing(remainingTasks: seq<Task>) returns (invoked: Option<Callback>)
      requires !showTasks
      modifies this
      ensures |remainingTasks| > 0 ==> showTasks && invoked.None?
      ensures |remainingTasks| == 0 ==> !showTasks && invoked == Some(Done)
      ensures invoked.Some? ==> MayInvoke(DecisionView, invoked.value)
    {
      if |remainingTasks| > 0 {
        showTasks := true;
        invoked := None;
      } else {
        invoked := Some(Done);
      }
    }

    /** "Back to dashboard", shown under the revealed list: the break is done. */
    method BackToDashboard() returns (invoked: Callback)
      requires showTasks
      ensures invoked == Done && MayInvoke(DecisionView, invoked)
    {
      invoked := Done;
    }

    /**
     * Once the list is revealed, each remaining task is a row, and its row continues
     * with that task's id, one of the remaining ids.
     */
    method PickTask(remainingTasks: seq<Task>, task: Task) returns (invoked: Callback)
      requires showTasks && task in remainingTasks
      ensures invoked == ContinueWith(task.id) && MayInvoke(DecisionView, invoked)
      ensures exists i :: 0 <= i < |remainingTasks| && invoked == ContinueWith(remainingTasks[i].id)
    {
      invoked := ContinueWith(task.id);
    }
  }
}
