/**
 * The task overview (components/TaskDashboard.tsx): the pending and completed lists, the
 * greeting, when the empty-state message and the finish-the-day button appear, and the
 * panel's own flags for adding and editing. The estimate label is ClockText.FormatDuration.
 */
module TaskDashboard {
  import opened Types
  import opened Lists
  import opened TaskList

  /** tasks.filter(t => t.completed). */
  function Completed(tasks: seq<Task>): (r: seq<Task>)
    ensures forall i :: 0 <= i < |r| ==> r[i].completed
  {
    Filter(tasks, IsCompleted)
  }

  /**
   * The two lists split the task list by the completed flag: merging them back in the
   * order the flags give restores the list, so each keeps the original order, and
   * together they hold every task exactly once.
   */
  lemma PendingCompletedPartition(tasks: seq<Task>)
    ensures Interleave(Flags(tasks, IsCompleted), Completed(tasks), Pending(tasks)) == tasks
    ensures |Completed(tasks)| + |Pending(tasks)| == |tasks|
    ensures multiset(Completed(tasks)) + multiset(Pending(tasks)) == multiset(tasks)
  {
    FilterPartition(tasks, IsCompleted);
    FilterPartitionCounts(tasks, IsCompleted);
  }

  /** Good morning before noon, good afternoon before five, good evening after. */
  function Greeting(hour: int): (g: string)
    ensures g == "Good morning" <==> hour < 12
    ensures g == "Good afternoon" <==> 12 <= hour < 17
    ensures g == "Good evening" <==> hour >= 17
  {
    if hour < 12 then "Good morning" else if hour < 17 then "Good afternoon" else "Good evening"
  }

  /** The "No tasks yet" message: not loading, nothing pending, and the add form closed. */
  predicate EmptyStateShown(loading: bool, tasks: seq<Task>, showAddForm: bool)
  {
    !loading && |Pending(tasks)| == 0 && !showAddForm
  }

  /** With every task completed and the add form closed, the message shows once loaded. */
  lemma EmptyStateWhenAllDone(tasks: seq<Task>)
    requires forall i :: 0 <= i < |tasks| ==> tasks[i].completed
    ensures EmptyStateShown(false, tasks, false)
  {
    PendingCompletedPartition(tasks);
    FilterAll(tasks, IsCompleted);
  }

  /** The message never shows while a pending task exists. */
  lemma NoEmptyStateWithPending(loading: bool, tasks: seq<Task>, showAddForm: bool, i: nat)
    requires i < |tasks| && !tasks[i].completed
    ensures !EmptyStateShown(loading, tasks, showAddForm)
  {
    assert tasks[i] in Pending(tasks);
  }

  /** A pending row shows the edit form in place of its content when it is the row being edited. */
  predicate EditorShown(task: Task, editingTaskId: Option<string>)
  {
    editingTaskId == Some(task.id)
  }

  /**
   * With distinct ids at most one pending row shows the edit form, and a row that shows
   * it is a task of the list carrying the edited id.
   */
  lemma OneEditorAmongPending(tasks: seq<Task>, editingTaskId: Option<string>)
    requires DistinctIds(tasks)
    ensures var p := Pending(tasks);
            forall i, j :: 0 <= i < |p| && 0 <= j < |p| && EditorShown(p[i], editingTaskId) && EditorShown(p[j], editingTaskId) ==> i == j
    ensures var p := Pending(tasks);
            forall i :: 0 <= i < |p| && EditorShown(p[i], editingTaskId) ==> p[i] in tasks && editingTaskId == Some(p[i].id)
  {
    PendingDistinct(tasks);
    RejectSubset(tasks, IsCompleted);
  }

  /** The panel's flags: the add form, an add in progress, the row being edited, a save in progress. */
  class Panel {
    var showAddForm: bool
    var creating: bool
    var editingTaskId: Option<string>
    var saving: bool

    constructor ()
      ensures !showAddForm && !creating && editingTaskId.None? && !saving
    {
      showAddForm := false;
      creating := false;
      editingTaskId := None;
      saving := false;
    }

    /** "Add a task" opens the form. */
    method OpenAddForm()
      modifies this
      ensures showAddForm && creating == old(creating) && editingTaskId == old(editingTaskId) && saving == old(saving)
    {
      showAddForm := true;
    }

    /** The form's cancel closes it. */
    method CancelAdd()
      modifies this
      ensures !showAddForm && creating == old(creating) && editingTaskId == old(editingTaskId) && saving == old(saving)
    {
      showAddForm := false;
    }

    /** handleAdd up to its await: the form shows as busy. */
    method BeginAdd()
      modifies this
      ensures creating && showAddForm == old(showAddForm) && editingTaskId == old(editingTaskId) && saving == old(saving)
    {
      creating := true;
    }

    /** handleAdd after onAddTask settles: no longer busy, and the form closes. */
    method EndAdd()
      modifies this
      ensures !creating && !showAddForm && editingTaskId == old(editingTaskId) && saving == old(saving)
    {
      creating := false;
      showAddForm := false;
    }

    /** The edit button puts that row into edit mode. */
    method StartEdit(id: string)
      modifies this
      ensures editingTaskId == Some(id) && showAddForm == old(showAddForm) && creating == old(creating) && saving == old(saving)
      ensures forall t: Task :: EditorShownFor(t) <==> t.id == id
    {
      editingTaskId := Some(id);
    }

    /** The edit form's cancel leaves edit mode. */
    method CancelEdit()
      modifies this
      ensures editingTaskId.None? && showAddForm == old(showAddForm) && creating == old(creating) && saving == old(saving)
      ensures forall t: Task :: !EditorShownFor(t)
    {
      editingTaskId := None;
    }

    /** onSave up to its await: the edit form shows as saving. */
    method BeginSave()
      modifies this
      ensures saving && showAddForm == old(showAddForm) && creating == old(creating) && editingTaskId == old(editingTaskId)
    {
      saving := true;
    }

    /** onSave after onEditTask settles: no longer saving, and edit mode ends. */
    method EndSave()
      modifies this
      ensures !saving && editingTaskId.None? && showAddForm == old(showAddForm) && creating == old(creating)
      ensures forall t: Task :: !EditorShownFor(t)
    {
      saving := false;
      editingTaskId := None;
    }

    /** Whether the row for `task` currently shows the edit form. */
    predicate EditorShownFor(task: Task)
      reads this
    {
      EditorShown(task, editingTaskId)
    }
  }
}
