/**
 * The compact task list (components/TaskList.tsx): the pending tasks, optionally cut to a
 * limit, the highlighted active row, and the quick-add input.
 */
module TaskList {
  import opened Types
  import opened Text
  import opened Lists

  function IsCompleted(t: Task): bool { t.completed }

  /** tasks.filter(t => !t.completed). */
  function Pending(tasks: seq<Task>): (r: seq<Task>)
    ensures forall i :: 0 <= i < |r| ==> !r[i].completed
    ensures forall i :: 0 <= i < |tasks| && !tasks[i].completed ==> tasks[i] in r
  {
    forall i | 0 <= i < |tasks| && !tasks[i].completed ensures tasks[i] in Reject(tasks, IsCompleted) {
      RejectKeeps(tasks, IsCompleted, i);
    }
    Reject(tasks, IsCompleted)
  }

  /** The pending tasks keep their order: pending of a concatenation is the concatenation. */
  lemma PendingKeepsOrder(a: seq<Task>, b: seq<Task>)
    ensures Pending(a + b) == Pending(a) + Pending(b)
  {
    RejectAppend(a, b, IsCompleted);
  }

  /** `limit ? ... : ...`: a limit counts only when given and not 0. */
  predicate LimitGiven(limit: Option<int>)
  {
    limit.Some? && limit.value != 0
  }

  /**
   * The rows shown: the pending tasks, cut to the first `limit` when a (truthy) limit is
   * given; a negative limit drops that many from the end, as slice does.
   */
  function Displayed(tasks: seq<Task>, limit: Option<int>): (r: seq<Task>)
    ensures r <= Pending(tasks)
    ensures !LimitGiven(limit) ==> r == Pending(tasks)
    ensures LimitGiven(limit) && limit.value > 0 ==>
              |r| == if limit.value < |Pending(tasks)| then limit.value else |Pending(tasks)|
    ensures LimitGiven(limit) && limit.value < 0 ==>
              |r| == if |Pending(tasks)| + limit.value > 0 then |Pending(tasks)| + limit.value else 0
    ensures forall i :: 0 <= i < |r| ==> !r[i].completed
  {
    if LimitGiven(limit) then SliceTo(Pending(tasks), limit.value) else Pending(tasks)
  }

  /** A row is highlighted exactly when its id is the active id. */
  function Highlighted(task: Task, activeTaskId: Option<string>): (b: bool)
    ensures b <==> activeTaskId == Some(task.id)
  {
    activeTaskId == Some(task.id)
  }

  /** No two tasks share an id, as the backend's keys guarantee. */
  predicate DistinctIds(tasks: seq<Task>)
  {
    forall i, j :: 0 <= i < j < |tasks| ==> tasks[i].id != tasks[j].id
  }

  /** Filtering out the completed tasks keeps the ids distinct. */
  lemma {:induction false} PendingDistinct(tasks: seq<Task>)
    requires DistinctIds(tasks)
    ensures DistinctIds(Pending(tasks))
  {
    if |tasks| > 0 {
      var rest := tasks[1..];
      DistinctTail(tasks);
      PendingDistinct(rest);
      RejectSubset(rest, IsCompleted);
      assert Pending(tasks) == (if tasks[0].completed then [] else [tasks[0]]) + Pending(rest);
      if !tasks[0].completed {
        DistinctCons(tasks[0], rest, Pending(rest));
      }
    }
  }

  /** Dropping the first task keeps the ids distinct. */
  lemma DistinctTail(tasks: seq<Task>)
    requires |tasks| > 0 && DistinctIds(tasks)
    ensures DistinctIds(tasks[1..])
  {
    var rest := tasks[1..];
    forall i, j | 0 <= i < j < |rest| ensures rest[i].id != rest[j].id {
      assert rest[i] == tasks[i + 1] && rest[j] == tasks[j + 1];
    }
  }

  /** A task put in front of distinct tasks drawn from the rest of its list stays distinct. */
  lemma DistinctCons(t: Task, rest: seq<Task>, sub: seq<Task>)
    requires DistinctIds([t] + rest) && DistinctIds(sub)
    requires forall x :: x in sub ==> x in rest
    ensures DistinctIds([t] + sub)
  {
    var all, r := [t] + rest, [t] + sub;
    forall x | x in sub ensures x.id != t.id {
      var k :| 0 <= k < |rest| && rest[k] == x;
      assert all[k + 1] == x && all[0] == t;
    }
    forall i, j | 0 <= i < j < |r| ensures r[i].id != r[j].id {
      assert r[j] == sub[j - 1] && r[j] in sub;
      if i > 0 {
        assert r[i] == sub[i - 1];
      }
    }
  }

  /**
   * With distinct task ids at most one shown row is highlighted, and that row is the
   * active task.
   */
  lemma HighlightUnique(tasks: seq<Task>, limit: Option<int>, activeTaskId: Option<string>)
    requires DistinctIds(tasks)
    ensures var d := Displayed(tasks, limit);
            forall i, j :: 0 <= i < |d| && 0 <= j < |d| && Highlighted(d[i], activeTaskId) && Highlighted(d[j], activeTaskId) ==> i == j
    ensures var d := Displayed(tasks, limit);
            forall i :: 0 <= i < |d| && Highlighted(d[i], activeTaskId) ==> d[i] in tasks && activeTaskId == Some(d[i].id)
  {
    var d, pending := Displayed(tasks, limit), Pending(tasks);
    PendingDistinct(tasks);
    RejectSubset(tasks, IsCompleted);
    assert forall i :: 0 <= i < |d| ==> d[i] == pending[i];
  }

  /** The quick-add input: its text, cleared after a title is handed on. */
  class QuickAdd {
    var newTaskTitle: string

    constructor ()
      ensures newTaskTitle == []
    {
      newTaskTitle := [];
    }

    method SetText(text: string)
      modifies this
      ensures newTaskTitle == text
    {
      newTaskTitle := text;
    }

    /**
     * handleSubmit: white space only is ignored and kept in the input; otherwise the
     * trimmed title is handed to onAddTask and the input is cleared.
     */
    method HandleSubmit() returns (added: Option<string>)
      modifies this
      ensures added == TrimmedOrAbsent(old(newTaskTitle))
      ensures added.None? ==> newTaskTitle == old(newTaskTitle)
      ensures added.Some? ==> newTaskTitle == []
    {
      var trimmed := Trim(newTaskTitle);
      if trimmed != [] {
        added := Some(trimmed);
        newTaskTitle := [];
      } else {
        added := None;
      }
    }
  }
}
