/** The task state machine: the transition table and the paths it allows. */
module TaskStates {

  datatype TaskStatus = Pending | Ready | Queued | Running | Succeeded | Failed | Retrying | Blocked | Cancelled

  function ValidTransitions(s: TaskStatus): set<TaskStatus> {
    match s
    case Pending => {Ready, Blocked, Cancelled}
    case Ready => {Queued, Blocked, Cancelled}
    case Queued => {Running, Cancelled}
    case Running => {Succeeded, Failed}
    case Failed => {Retrying}
    case Retrying => {Queued}
    case Blocked => {Ready}
    case Succeeded => {}
    case Cancelled => {}
  }

  datatype Transitioned = InvalidTransition | Moved(status: TaskStatus)

  /** TaskStateMachine.transition: the new status, or the error it raises. */
  function Transition(from: TaskStatus, to: TaskStatus): Transitioned {
    if to in ValidTransitions(from) then Moved(to) else InvalidTransition
  }

  /** The table, read backwards: from where each status can be reached in one transition. */
  lemma EdgesInto(from: TaskStatus)
    ensures Ready in ValidTransitions(from) <==> from in {Pending, Blocked}
    ensures Queued in ValidTransitions(from) <==> from in {Ready, Retrying}
    ensures Running in ValidTransitions(from) <==> from == Queued
    ensures Succeeded in ValidTransitions(from) <==> from == Running
    ensures Failed in ValidTransitions(from) <==> from == Running
    ensures Retrying in ValidTransitions(from) <==> from == Failed
    ensures Blocked in ValidTransitions(from) <==> from in {Pending, Ready}
    ensures Cancelled in ValidTransitions(from) <==> from in {Pending, Ready, Queued}
    ensures Pending !in ValidTransitions(from)
  {
  }

  /** Every step of the sequence is an edge of the table. */
  ghost predicate IsPath(p: seq<TaskStatus>) {
    |p| >= 1 && forall i | 0 <= i < |p| - 1 :: p[i + 1] in ValidTransitions(p[i])
  }

  /** The table leads from one status to the other, through any number of edges. */
  ghost predicate LegalPath(from: TaskStatus, to: TaskStatus) {
    exists p :: IsPath(p) && p[0] == from && p[|p| - 1] == to
  }

  lemma LegalBy(p: seq<TaskStatus>)
    requires IsPath(p)
    ensures LegalPath(p[0], p[|p| - 1])
  {
  }

  /** Success and cancellation are final: no path leads out of them. */
  lemma FinalStatuses(from: TaskStatus, to: TaskStatus)
    requires from in {Succeeded, Cancelled} && LegalPath(from, to)
    ensures to == from
  {
    var p :| IsPath(p) && p[0] == from && p[|p| - 1] == to;
    assert |p| == 1 || p[1] in ValidTransitions(p[0]);
  }
}
