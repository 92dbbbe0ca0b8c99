/**
 * The timer screen (components/TimerView.tsx): which of its three buttons can be pressed.
 * The task it shows is Types.FindTask on the active id; the clock text is
 * ClockText.FormatTime.
 */
module TimerView {
  import opened Types
  import Dashboard

  /** The three buttons: whether each can be pressed, and whether play/pause shows pause. */
  datatype Controls = Controls(resetEnabled: bool, playPauseEnabled: bool, markDoneEnabled: bool, showsPause: bool)

  /**
   * Reset is never disabled; play/pause and mark-done are disabled exactly when there is
   * no (truthy) active id; the pause icon shows while running.
   */
  function ControlsFor(status: TimerStatus, activeTaskId: Option<string>): (c: Controls)
    ensures c.resetEnabled
    ensures c.playPauseEnabled <==> activeTaskId.Some? && activeTaskId.value != ""
    ensures c.markDoneEnabled == c.playPauseEnabled
    ensures c.showsPause <==> status == Running
  {
    var enabled := match activeTaskId case Some(id) => id != "" case None => false;
    Controls(true, enabled, enabled, status == Running)
  }

  /**
   * On the dashboard session the screen shows, an enabled play/pause button always
   * changes the timer's status, and a disabled mark-done button stands for a press that
   * would change nothing.
   */
  lemma ControlsMatchSession(s: Dashboard.Session)
    ensures ControlsFor(s.status, s.activeTaskId).playPauseEnabled ==>
              Dashboard.ToggleTimer(s).status != s.status
    ensures !ControlsFor(s.status, s.activeTaskId).markDoneEnabled ==> Dashboard.MarkDone(s) == s
  {
  }
}
