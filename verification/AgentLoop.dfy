/** The agents' run loop: four counters, a run state machine and a verdict written at the end. */
module AgentLoop {
  import opened DagValidator
  import opened TaskStates
  import opened Tables
  import opened Scheduler

  datatype RunStatus = Created | Ready | Running | Verifying | Completed | Failed | TimedOut | Cancelled
                     | Blocked | PolicyRejected

  function RunTransitions(s: RunStatus): set<RunStatus> {
    match s
    case Created => {RunStatus.Ready}
    case Ready => {RunStatus.Running, RunStatus.Cancelled}
    case Running => {Verifying, Completed, RunStatus.Failed, TimedOut, RunStatus.Cancelled, RunStatus.Blocked,
                     PolicyRejected}
    case Verifying => {Completed, RunStatus.Failed, RunStatus.Running, RunStatus.Cancelled}
    case Completed => {}
    case Failed => {}
    case TimedOut => {}
    case Cancelled => {}
    case Blocked => {RunStatus.Running, RunStatus.Cancelled}
    case PolicyRejected => {RunStatus.Running, RunStatus.Cancelled}
  }

  /** The table, read backwards: from where each status can be reached in one transition. */
  lemma EdgesInto(from: RunStatus)
    ensures RunStatus.Ready in RunTransitions(from) <==> from == RunStatus.Created
    ensures RunStatus.Running in RunTransitions(from) <==>
              from in {RunStatus.Ready, Verifying, RunStatus.Blocked, PolicyRejected}
    ensures Verifying in RunTransitions(from) <==> from == RunStatus.Running
    ensures Completed in RunTransitions(from) <==> from in {RunStatus.Running, Verifying}
    ensures RunStatus.Failed in RunTransitions(from) <==> from in {RunStatus.Running, Verifying}
    ensures RunStatus.Cancelled in RunTransitions(from) <==>
              from in {RunStatus.Ready, RunStatus.Running, Verifying, RunStatus.Blocked, PolicyRejected}
    ensures TimedOut in RunTransitions(from) <==> from == RunStatus.Running
    ensures RunStatus.Blocked in RunTransitions(from) <==> from == RunStatus.Running
    ensures PolicyRejected in RunTransitions(from) <==> from == RunStatus.Running
    ensures RunStatus.Created !in RunTransitions(from)
  {
  }

  /** An attempted transition whose refusal the caller ignores. */
  function Attempt(s: RunStatus, to: RunStatus): RunStatus {
    if to in RunTransitions(s) then to else s
  }

  /** A tool may itself declare the task finished, well or badly. */
  datatype Ending = GoesOn | EndsWell | EndsBadly

  datatype Decision = NoDecision | Finish | Invalid | UseTool(ok: bool, ending: Ending)

  /** What the world answers in one pass: the clock, the LLM and tools, the verification engine. */
  datatype Answer = Answer(timedOut: bool, decision: Decision, verified: bool)

  type Script = nat -> Answer

  /** The coding agent, with or without a verification engine, and its plainer sibling. */
  datatype Agent = Coding(maxIterations: int, maxToolCalls: int, maxFailedActions: int,
                          maxRecoveries: int, engine: bool)
                 | Plain(maxIterations: int, maxToolCalls: int, maxFailedActions: int)

  predicate Verifies(a: Agent) {
    a.Coding? && a.engine
  }

  /** The calls an agent makes to the outside, with the run status recorded at that moment. */
  datatype Call = Asked | Verified(status: RunStatus, ok: bool) | RanTool(status: RunStatus, ok: bool)

  datatype Loop = Loop(status: RunStatus, iterations: int, toolCalls: int, failures: int, recoveries: int,
                       log: seq<Call>, done: bool)

  function Start(): Loop {
    Loop(RunStatus.Ready, 0, 0, 0, 0, [], false)
  }

  predicate Exhausted(a: Agent, iterations: int, toolCalls: int) {
    iterations >= a.maxIterations || toolCalls >= a.maxToolCalls
  }

  function Stop(s: Loop, to: RunStatus): Loop {
    s.(status := Attempt(s.status, to), done := true)
  }

  function CountFailure(a: Agent, s: Loop): Loop {
    var counted := s.(failures := s.failures + 1);
    if counted.failures >= a.maxFailedActions then Stop(counted, RunStatus.Failed) else counted
  }

  function FinishPass(a: Agent, s: Loop, verified: bool): Loop {
    if !Verifies(a) then Stop(s, Completed)
    else
      var v := s.(status := Attempt(s.status, Verifying));
      var called := v.(log := v.log + [Verified(v.status, verified)]);
      if verified then Stop(called, Completed)
      else if called.recoveries < a.maxRecoveries then called.(recoveries := called.recoveries + 1)
      else Stop(called, RunStatus.Failed)
  }

  function ToolPass(a: Agent, s: Loop, ok: bool, ending: Ending): Loop {
    var called := s.(iterations := s.iterations + 1, toolCalls := s.toolCalls + 1,
                     log := s.log + [RanTool(s.status, ok)]);
    var counted := if ok then called.(failures := 0) else CountFailure(a, called);
    if counted.done || a.Coding? || ending.GoesOn? then counted
    else Stop(counted, if ending.EndsWell? then Completed else RunStatus.Failed)
  }

  /** One pass of the loop. */
  function Pass(a: Agent, s: Loop, x: Answer): Loop {
    if x.timedOut || Exhausted(a, s.iterations, s.toolCalls) then Stop(s, RunStatus.Failed)
    else
      var r := s.(status := if s.status.Ready? then Attempt(s.status, RunStatus.Running) else s.status,
                  log := s.log + [Asked]);
      match x.decision
      case NoDecision => Stop(r, RunStatus.Failed)
      case Finish => FinishPass(a, r, x.verified)
      case Invalid => CountFailure(a, r)
      case UseTool(ok, ending) => ToolPass(a, r, ok, ending)
  }

  // ---------------------------------------------------------------- the bound

  function Min(x: int, y: int): int { if x <= y then x else y }
  function Max(x: int, y: int): int { if x >= y then x else y }

  /** L, F and R: the tool calls, the asks per tool call and the recoveries an agent may use up. */
  function ToolLimit(a: Agent): int { Max(Min(a.maxIterations, a.maxToolCalls), 0) }
  function FailureLimit(a: Agent): int { Max(a.maxFailedActions, 1) }
  function RecoveryLimit(a: Agent): int { if Verifies(a) then Max(a.maxRecoveries, 0) else 0 }

  /** The counters of a run that is still going. */
  predicate Going(a: Agent, s: Loop) {
    && !s.done && s.status in {RunStatus.Ready, RunStatus.Running, Verifying}
    && 0 <= s.iterations == s.toolCalls <= ToolLimit(a)
    && 0 <= s.failures < FailureLimit(a)
    && 0 <= s.recoveries <= RecoveryLimit(a)
  }

  /** k * f, as k additions of f. */
  function Times(k: nat, f: nat): nat {
    if k == 0 then 0 else Times(k - 1, f) + f
  }

  lemma {:induction false} TimesIsProduct(k: nat, f: nat)
    ensures Times(k, f) == k * f
  {
    if k > 0 {
      TimesIsProduct(k - 1, f);
      assert k * f == (k - 1) * f + f;
    }
  }

  /** How many more times the LLM can be asked. */
  function AsksLeft(a: Agent, s: Loop): (n: int)
    requires Going(a, s)
    ensures n >= 0
  {
    var left := ToolLimit(a) - s.iterations;
    if left == 0 then 0 else Times(left, FailureLimit(a)) - s.failures + RecoveryLimit(a) - s.recoveries
  }

  lemma PassUsesUp(a: Agent, s: Loop, x: Answer)
    requires Going(a, s) && !Pass(a, s, x).done
    ensures Going(a, Pass(a, s, x)) && AsksLeft(a, Pass(a, s, x)) < AsksLeft(a, s)
    ensures ToolLimit(a) > s.iterations
  {
    hide RunTransitions, Attempt;
    Advances(a, s, x);
  }

  /** What a pass that does not end the run does to the counters. */
  lemma Advances(a: Agent, s: Loop, x: Answer)
    requires Going(a, s) && !Pass(a, s, x).done
    ensures var next := Pass(a, s, x);
            && next.status in {RunStatus.Running, Verifying} && s.iterations < ToolLimit(a)
            && (|| next == s.(recoveries := s.recoveries + 1, status := next.status, log := next.log)
                || next == s.(failures := s.failures + 1, status := next.status, log := next.log)
                || next == s.(iterations := s.iterations + 1, toolCalls := s.toolCalls + 1, log := next.log,
                              failures := if x.decision.UseTool? && x.decision.ok then 0 else s.failures + 1,
                              status := next.status))
            && next.recoveries <= RecoveryLimit(a) && next.failures < FailureLimit(a)
  {
  }

  /** The loop, run to its end; it terminates whatever the clock says. */
  ghost function RunFrom(a: Agent, s: Loop, script: Script, n: nat): Loop
    requires Going(a, s)
    decreases AsksLeft(a, s)
  {
    var next := Pass(a, s, script(n));
    if next.done then next
    else
      PassUsesUp(a, s, script(n));
      RunFrom(a, next, script, n + 1)
  }

  ghost function RunWith(a: Agent, script: Script): Loop {
    RunFrom(a, Start(), script, 0)
  }

  ghost function Asks(log: seq<Call>): nat {
    if log == [] then 0 else Asks(log[..|log| - 1]) + if log[|log| - 1].Asked? then 1 else 0
  }

  lemma AsksAppend(log: seq<Call>, c: Call)
    ensures Asks(log + [c]) == Asks(log) + if c.Asked? then 1 else 0
  {
    assert (log + [c])[..|log|] == log;
  }

  lemma PassAsks(a: Agent, s: Loop, x: Answer)
    ensures Asks(Pass(a, s, x).log) ==
            Asks(s.log) + if x.timedOut || Exhausted(a, s.iterations, s.toolCalls) then 0 else 1
  {
    hide *;
    PassLog(a, s, x);
    AsksAppend(s.log, Asked);
    var log := Pass(a, s, x).log;
    if |log| == |s.log| + 2 {
      AsksAppend(s.log + [Asked], log[|log| - 1]);
    }
  }

  /** A pass adds nothing to the log, a question, or a question and one other call. */
  lemma PassLog(a: Agent, s: Loop, x: Answer)
    ensures var log := Pass(a, s, x).log;
            if x.timedOut || Exhausted(a, s.iterations, s.toolCalls) then log == s.log
            else log == s.log + [Asked]
                 || (log != [] && !log[|log| - 1].Asked? && log == s.log + [Asked] + [log[|log| - 1]])
  {
    hide Attempt, Exhausted;
  }

  /** A pass that asks has an ask left to spend. */
  lemma MayAsk(a: Agent, s: Loop)
    requires Going(a, s)
    ensures Exhausted(a, s.iterations, s.toolCalls) <==> s.iterations == ToolLimit(a)
    ensures s.iterations < ToolLimit(a) ==> AsksLeft(a, s) >= 1
  {
  }

  /** The first pass of the rest of a run. */
  lemma FirstPass(a: Agent, s: Loop, script: Script, n: nat)
    requires Going(a, s)
    ensures var next := Pass(a, s, script(n));
            if next.done then RunFrom(a, s, script, n) == next
            else Going(a, next) && AsksLeft(a, next) < AsksLeft(a, s)
                 && RunFrom(a, s, script, n) == RunFrom(a, next, script, n + 1)
  {
    hide AsksLeft, Pass, Going;
    if !Pass(a, s, script(n)).done {
      PassUsesUp(a, s, script(n));
    }
  }

  lemma {:induction false} AsksBoundFrom(a: Agent, s: Loop, script: Script, n: nat)
    requires Going(a, s)
    ensures Asks(RunFrom(a, s, script, n).log) <= Asks(s.log) + AsksLeft(a, s)
    decreases AsksLeft(a, s)
  {
    hide *;
    FirstPass(a, s, script, n);
    PassAsks(a, s, script(n));
    MayAsk(a, s);
    AtMost(a, s);
    if !Pass(a, s, script(n)).done {
      AsksBoundFrom(a, Pass(a, s, script(n)), script, n + 1);
    }
  }

  lemma AtMost(a: Agent, s: Loop)
    requires Going(a, s)
    ensures 0 <= s.iterations <= ToolLimit(a)
  {
  }

  /** The LLM is asked at most L * max(F, 1) + R times, and never when a limit is not positive. */
  lemma AsksBound(a: Agent, script: Script)
    ensures Asks(RunWith(a, script).log) <=
            if ToolLimit(a) == 0 then 0 else ToolLimit(a) * FailureLimit(a) + RecoveryLimit(a)
  {
    AsksBoundFrom(a, Start(), script, 0);
    TimesIsProduct(ToolLimit(a), FailureLimit(a));
  }

  /** n counted round and round up to f */
  function Turn(n: nat, f: int): nat
    requires f > 0
  {
    if n < f then n else Turn(n - f, f)
  }

  lemma {:induction false} TurnsOf(i: nat, f: nat, c: nat)
    requires c < f
    ensures Turn(Times(i, f) + c, f) == c
  {
    if i > 0 {
      TurnsOf(i - 1, f, c);
    }
  }

  /** A script that spends everything: failed verifications first, then every tool call after F - 1 bad decisions. */
  function Worst(a: Agent): Script {
    n => if n < RecoveryLimit(a) then Answer(false, Finish, false)
         else if Turn(n - RecoveryLimit(a), FailureLimit(a)) == FailureLimit(a) - 1
         then Answer(false, UseTool(true, GoesOn), false)
         else Answer(false, Invalid, false)
  }

  /** Where the worst run is in its n-th pass. */
  ghost predicate InStep(a: Agent, s: Loop, n: nat) {
    && Going(a, s)
    && (s.recoveries < RecoveryLimit(a) ==> s.iterations == 0 && s.failures == 0)
    && n == s.recoveries + Times(s.iterations, FailureLimit(a)) + s.failures
  }

  /** The answer the worst script gives, and the counters after it. */
  lemma {:induction false} WorstPass(a: Agent, s: Loop, n: nat)
    requires InStep(a, s, n) && s.iterations < ToolLimit(a)
    ensures var next := Pass(a, s, Worst(a)(n));
            !next.done && InStep(a, next, n + 1) && AsksLeft(a, next) == AsksLeft(a, s) - 1
    ensures !Worst(a)(n).timedOut && !Exhausted(a, s.iterations, s.toolCalls)
  {
    WorstAnswer(a, s, n);
    MayAsk(a, s);
    var x := Worst(a)(n);
    hide Worst;
    WorstCounters(a, s, x);
    Advances(a, s, x);
    PassUsesUp(a, s, x);
    var next := Pass(a, s, x);
    hide Pass, Attempt, ToolLimit, RecoveryLimit;
    OneMoreTime(ToolLimit(a) - s.iterations, FailureLimit(a));
    OneMoreTime(s.iterations + 1, FailureLimit(a));
    hide Times, FailureLimit;
  }

  lemma OneMoreTime(k: nat, f: nat)
    requires k >= 1
    ensures Times(k, f) == Times(k - 1, f) + f && Times(0, f) == 0
  {
  }

  lemma WorstAnswer(a: Agent, s: Loop, n: nat)
    requires InStep(a, s, n)
    ensures Worst(a)(n) == if s.recoveries < RecoveryLimit(a) then Answer(false, Finish, false)
                           else if s.failures == FailureLimit(a) - 1 then Answer(false, UseTool(true, GoesOn), false)
                           else Answer(false, Invalid, false)
  {
    TurnsOf(s.iterations, FailureLimit(a), s.failures);
  }

  lemma WorstCounters(a: Agent, s: Loop, x: Answer)
    requires Going(a, s) && s.iterations < ToolLimit(a) && !x.timedOut
    requires x.decision == if s.recoveries < RecoveryLimit(a) then Finish
                           else if s.failures == FailureLimit(a) - 1 then UseTool(true, GoesOn) else Invalid
    requires x.decision.Finish? ==> !x.verified
    ensures var next := Pass(a, s, x);
            && !next.done
            && next.recoveries == s.recoveries + (if x.decision.Finish? then 1 else 0)
            && next.iterations == s.iterations + (if x.decision.UseTool? then 1 else 0)
            && next.failures == if x.decision.Finish? then s.failures
                                else if x.decision.Invalid? then s.failures + 1 else 0
  {
    hide Attempt;
  }

  lemma {:induction false} WorstFrom(a: Agent, s: Loop, n: nat)
    requires InStep(a, s, n)
    ensures Asks(RunFrom(a, s, Worst(a), n).log) == Asks(s.log) + AsksLeft(a, s)
    decreases AsksLeft(a, s)
  {
    FirstPass(a, s, Worst(a), n);
    PassAsks(a, s, Worst(a)(n));
    MayAsk(a, s);
    if s.iterations < ToolLimit(a) {
      hide *;
      WorstPass(a, s, n);
      WorstFrom(a, Pass(a, s, Worst(a)(n)), n + 1);
    } else {
      hide Asks, RunFrom, Worst, FailureLimit;
    }
  }

  /** ... and for every agent some run attains the bound. */
  lemma BoundIsAttained(a: Agent)
    ensures exists script :: Asks(RunWith(a, script).log) ==
                             if ToolLimit(a) == 0 then 0 else ToolLimit(a) * FailureLimit(a) + RecoveryLimit(a)
  {
    WorstFrom(a, Start(), 0);
    TimesIsProduct(ToolLimit(a), FailureLimit(a));
    assert Asks(RunWith(a, Worst(a)).log) == AsksLeft(a, Start());
  }

  // -------------------------------------------------------------- the outcome

  lemma {:induction false} OutcomeFrom(a: Agent, s: Loop, script: Script, n: nat)
    requires Going(a, s) && !s.status.Ready?
    ensures RunFrom(a, s, script, n).status in {Completed, RunStatus.Failed}
    decreases AsksLeft(a, s)
  {
    var next := Pass(a, s, script(n));
    if !next.done {
      PassUsesUp(a, s, script(n));
      OutcomeFrom(a, next, script, n + 1);
    }
  }

  /**
   A run ends COMPLETED or FAILED exactly when its limits are positive and the first pass is in time;
   otherwise it is left READY for ever, although its task is marked failed.
   */
  lemma OutcomeIff(a: Agent, script: Script)
    ensures RunWith(a, script).status in {Completed, RunStatus.Failed, RunStatus.Ready}
    ensures RunWith(a, script).status.Ready? <==>
              a.maxIterations <= 0 || a.maxToolCalls <= 0 || script(0).timedOut
  {
    var next := Pass(a, Start(), script(0));
    if !next.done {
      PassUsesUp(a, Start(), script(0));
      OutcomeFrom(a, next, script, 1);
    }
  }

  ghost predicate VerifiedBefore(log: seq<Call>, k: nat) {
    exists j | 0 <= j < k && j < |log| :: log[j].Verified?
  }

  /** The run status recorded while call k was made. */
  ghost predicate Recorded(log: seq<Call>, k: nat)
    requires k < |log|
  {
    match log[k]
    case Asked => true
    case Verified(status, ok) => status == Verifying
    case RanTool(status, ok) => status == if VerifiedBefore(log, k) then Verifying else RunStatus.Running
  }

  ghost predicate AllRecorded(log: seq<Call>) {
    forall k | 0 <= k < |log| :: Recorded(log, k)
  }

  ghost predicate Unverified(log: seq<Call>) {
    forall k | 0 <= k < |log| :: !(log[k].Verified? && log[k].ok)
  }

  ghost predicate Traced(s: Loop) {
    AllRecorded(s.log) && Unverified(s.log) && (s.status.Verifying? <==> VerifiedBefore(s.log, |s.log|))
  }

  /** The log of a finished run. */
  ghost predicate Settled(a: Agent, s: Loop) {
    && AllRecorded(s.log)
    && (Unverified(s.log) || (s.log[|s.log| - 1] == Verified(Verifying, true) && Unverified(s.log[..|s.log| - 1])))
    && (Verifies(a) ==> (s.status.Completed? <==> !Unverified(s.log)))
  }

  lemma RecordMore(log: seq<Call>, c: Call)
    requires AllRecorded(log) && Unverified(log)
    requires Recorded(log + [c], |log|)
    ensures AllRecorded(log + [c]) && (log + [c])[..|log|] == log
    ensures Unverified(log + [c]) <==> !(c.Verified? && c.ok)
    ensures VerifiedBefore(log + [c], |log| + 1) <==> VerifiedBefore(log, |log|) || c.Verified?
  {
    var more := log + [c];
    assert more[|log|] == c;
    assert forall k | 0 <= k < |log| :: more[k] == log[k];
    forall k | 0 <= k < |log| ensures Recorded(more, k) {
      assert Recorded(log, k);
      assert VerifiedBefore(more, k) <==> VerifiedBefore(log, k);
    }
    if VerifiedBefore(log, |log|) {
      var j :| 0 <= j < |log| && log[j].Verified?;
      assert more[j].Verified?;
    }
  }

  lemma {:induction false} PassTraced(a: Agent, s: Loop, x: Answer)
    requires Going(a, s) && Traced(s)
    ensures if Pass(a, s, x).done then Settled(a, Pass(a, s, x)) else Traced(Pass(a, s, x))
  {
    hide AllRecorded, Unverified, ToolLimit, FailureLimit, RecoveryLimit;
    if !(x.timedOut || Exhausted(a, s.iterations, s.toolCalls)) {
      var status := if s.status.Ready? then Attempt(s.status, RunStatus.Running) else s.status;
      RecordMore(s.log, Asked);
      var asked := s.log + [Asked];
      match x.decision
      case Finish =>
        var c := Verified(Attempt(status, Verifying), x.verified);
        if Verifies(a) { RecordMore(asked, c); }
      case UseTool(ok, ending) =>
        var c := RanTool(status, ok);
        assert VerifiedBefore(asked + [c], |asked|) <==> VerifiedBefore(asked, |asked|) by {
          assert forall k | 0 <= k < |asked| :: (asked + [c])[k] == asked[k];
        }
        RecordMore(asked, c);
      case _ =>
    }
  }

  lemma {:induction false} TraceFrom(a: Agent, s: Loop, script: Script, n: nat)
    requires Going(a, s) && Traced(s)
    ensures Settled(a, RunFrom(a, s, script, n))
    decreases AsksLeft(a, s)
  {
    var next := Pass(a, s, script(n));
    PassTraced(a, s, script(n));
    if !next.done {
      PassUsesUp(a, s, script(n));
      TraceFrom(a, next, script, n + 1);
    }
  }

  /**
   The engine is only called on a run recorded as VERIFYING; with an engine a run ends COMPLETED exactly
   when a verification succeeded, and that verification was its last call.
   */
  lemma CompletedIffVerified(a: Agent, script: Script)
    ensures var end := RunWith(a, script);
            && (forall k | 0 <= k < |end.log| && end.log[k].Verified? :: end.log[k].status == Verifying)
            && (Verifies(a) ==>
                  (end.status.Completed? <==> exists k | 0 <= k < |end.log| :: end.log[k].Verified? && end.log[k].ok))
            && (forall k | 0 <= k < |end.log| && end.log[k].Verified? && end.log[k].ok :: k == |end.log| - 1)
  {
    TraceFrom(a, Start(), script, 0);
    var end := RunWith(a, script);
    hide RunWith, RunFrom;
    forall k | 0 <= k < |end.log| && end.log[k].Verified? ensures end.log[k].status == Verifying {
      assert Recorded(end.log, k);
    }
    if !Unverified(end.log) {
      OnlyLast(end.log);
    }
  }

  lemma OnlyLast(log: seq<Call>)
    requires log != [] && Unverified(log[..|log| - 1])
    ensures forall k | 0 <= k < |log| - 1 :: !(log[k].Verified? && log[k].ok)
  {
    assert forall k | 0 <= k < |log| - 1 :: log[..|log| - 1][k] == log[k];
  }

  /** A tool runs on a VERIFYING run exactly after a failed verification, and on a RUNNING one before it. */
  lemma {:induction false} RecoveryStaysVerifying(a: Agent, script: Script, k: nat)
    requires k < |RunWith(a, script).log| && RunWith(a, script).log[k].RanTool?
    ensures var log := RunWith(a, script).log;
            log[k].status == if VerifiedBefore(log, k) then Verifying else RunStatus.Running
  {
    TraceFrom(a, Start(), script, 0);
    assert Recorded(RunWith(a, script).log, k);
  }

  /** Every tool call of the log was made on a run recorded as RUNNING. */
  ghost predicate ToolsWhileRunning(log: seq<Call>) {
    forall k | 0 <= k < |log| && log[k].RanTool? :: log[k].status == RunStatus.Running
  }

  /** The agent verifies, and may go on after a failed verification, with a tool call to spare. */
  predicate MayRecover(a: Agent) {
    Verifies(a) && a.maxRecoveries >= 1 && ToolLimit(a) >= 1
  }

  lemma {:induction false} PassKeepsRunning(a: Agent, s: Loop, x: Answer)
    requires !MayRecover(a) && Going(a, s) && !s.status.Verifying? && ToolsWhileRunning(s.log)
    ensures ToolsWhileRunning(Pass(a, s, x).log)
    ensures Pass(a, s, x).done || !Pass(a, s, x).status.Verifying?
  {
  }

  lemma {:induction false} KeepsRunningFrom(a: Agent, s: Loop, script: Script, n: nat)
    requires !MayRecover(a) && Going(a, s) && !s.status.Verifying? && ToolsWhileRunning(s.log)
    ensures ToolsWhileRunning(RunFrom(a, s, script, n).log)
    decreases AsksLeft(a, s)
  {
    FirstPass(a, s, script, n);
    PassKeepsRunning(a, s, script(n));
    hide RunFrom, Pass, ToolsWhileRunning, Going, AsksLeft, MayRecover;
    if !Pass(a, s, script(n)).done {
      KeepsRunningFrom(a, Pass(a, s, script(n)), script, n + 1);
    }
  }

  /** Finish, fail the verification, call a tool, run out of time. */
  function FinishTooEarly(): Script {
    n => if n == 0 then Answer(false, Finish, false)
         else if n == 1 then Answer(false, UseTool(true, GoesOn), false)
         else Answer(true, NoDecision, false)
  }

  lemma {:induction false} ToolWhileVerifying(a: Agent)
    requires MayRecover(a)
    ensures RunWith(a, FinishTooEarly()).log ==
            [Asked, Verified(Verifying, false), Asked, RanTool(Verifying, true)]
  {
    var script := FinishTooEarly();
    var s0 := Start();
    var s1 := Pass(a, s0, script(0));
    FirstPass(a, s0, script, 0);
    assert s1 == Loop(Verifying, 0, 0, 0, 1, [Asked, Verified(Verifying, false)], false);
    FirstPass(a, s1, script, 1);
    var s2 := Pass(a, s1, script(1));
    assert s2 == Loop(Verifying, 1, 1, 0, 1, [Asked, Verified(Verifying, false), Asked, RanTool(Verifying, true)],
                      false);
    FirstPass(a, s2, script, 2);
    hide RunFrom;
  }

  /** Tools always run on a RUNNING run exactly when the agent has no recovery, no engine or no tool call to spare. */
  lemma {:induction false} ToolsAlwaysRunningIff(a: Agent)
    ensures (forall script :: ToolsWhileRunning(RunWith(a, script).log)) <==> !MayRecover(a)
  {
    if MayRecover(a) {
      ToolWhileVerifying(a);
      hide MayRecover, RunWith;
      assert RunWith(a, FinishTooEarly()).log[3].RanTool?;
      assert !ToolsWhileRunning(RunWith(a, FinishTooEarly()).log);
    } else {
      forall script ensures ToolsWhileRunning(RunWith(a, script).log) {
        KeepsRunningFrom(a, Start(), script, 0);
      }
    }
  }

  // ------------------------------------------------- the run, told from the script

  /** The tool calls of the first n passes. */
  ghost function Tools(script: Script, n: nat): nat {
    if n == 0 then 0 else Tools(script, n - 1) + if script(n - 1).decision.UseTool? then 1 else 0
  }

  ghost function Finishes(script: Script, n: nat): nat {
    if n == 0 then 0 else Finishes(script, n - 1) + if script(n - 1).decision.Finish? then 1 else 0
  }

  ghost predicate ActionFails(x: Answer) {
    x.decision == Invalid || (x.decision.UseTool? && !x.decision.ok)
  }

  /** The failed actions among the first n passes since the last tool call that went well. */
  ghost function FailuresInARow(script: Script, n: nat): nat {
    if n == 0 then 0
    else if ActionFails(script(n - 1)) then FailuresInARow(script, n - 1) + 1
    else if script(n - 1).decision.UseTool? then 0
    else FailuresInARow(script, n - 1)
  }

  /** No time, no iteration or no tool call is left for pass n. */
  ghost predicate TooLate(a: Agent, script: Script, n: nat) {
    script(n).timedOut || Tools(script, n) >= a.maxIterations || Tools(script, n) >= a.maxToolCalls
  }

  ghost predicate FailsTooOften(a: Agent, script: Script, n: nat) {
    ActionFails(script(n)) && FailuresInARow(script, n + 1) >= a.maxFailedActions
  }

  /** Pass n ends the run well. */
  ghost predicate EndsWellAt(a: Agent, script: Script, n: nat) {
    && !TooLate(a, script, n)
    && var x := script(n);
       || (x.decision == Finish && (!(a.Coding? && a.engine) || x.verified))
       || (a.Plain? && x.decision.UseTool? && x.decision.ending == EndsWell && !FailsTooOften(a, script, n))
  }

  /** Pass n ends the run badly. */
  ghost predicate EndsBadlyAt(a: Agent, script: Script, n: nat) {
    || TooLate(a, script, n)
    || var x := script(n);
       || x.decision == NoDecision
       || (x.decision == Finish && a.Coding? && a.engine && !x.verified && Finishes(script, n) >= a.maxRecoveries)
       || FailsTooOften(a, script, n)
       || (a.Plain? && x.decision.UseTool? && x.decision.ending == EndsBadly)
  }

  /** What pass n calls, if the run gets there. */
  ghost function CallsOf(a: Agent, script: Script, n: nat): seq<Call> {
    var x := script(n);
    if TooLate(a, script, n) then []
    else match x.decision
      case NoDecision => [Asked]
      case Invalid => [Asked]
      case Finish => if a.Coding? && a.engine then [Asked, Verified(Verifying, x.verified)] else [Asked]
      case UseTool(ok, _) => [Asked, RanTool(if Finishes(script, n) > 0 then Verifying else RunStatus.Running, ok)]
  }

  ghost function CallsUpTo(a: Agent, script: Script, n: nat): seq<Call> {
    if n == 0 then [] else CallsUpTo(a, script, n - 1) + CallsOf(a, script, n - 1)
  }

  /** Pass n is the first to end the run. */
  ghost predicate EndsAt(a: Agent, script: Script, n: nat) {
    && (EndsWellAt(a, script, n) || EndsBadlyAt(a, script, n))
    && forall i | 0 <= i < n :: !EndsWellAt(a, script, i) && !EndsBadlyAt(a, script, i)
  }

  /** How a run that ends at pass n ends: its status, its counters and its calls. */
  ghost predicate Told(a: Agent, script: Script, n: nat, status: RunStatus, iterations: int, toolCalls: int,
                       log: seq<Call>)
  {
    && (status == Completed <==> EndsWellAt(a, script, n))
    && (status == RunStatus.Ready <==> n == 0 && TooLate(a, script, 0))
    && (status == RunStatus.Failed <==> EndsBadlyAt(a, script, n) && !(n == 0 && TooLate(a, script, 0)))
    && iterations == toolCalls == (if TooLate(a, script, n) then Tools(script, n) else Tools(script, n + 1))
    && log == CallsUpTo(a, script, n + 1)
  }

  /** The loop as it is before pass n of a run that has not ended yet. */
  ghost predicate ToldSoFar(a: Agent, script: Script, n: nat, s: Loop) {
    && Going(a, s)
    && s.iterations == Tools(script, n) && s.failures == FailuresInARow(script, n)
    && s.recoveries == Finishes(script, n) && (s.recoveries > 0 ==> Verifies(a))
    && s.status == (if n == 0 then RunStatus.Ready else if s.recoveries > 0 then Verifying else RunStatus.Running)
    && s.log == CallsUpTo(a, script, n)
  }

  lemma PassCalls(a: Agent, script: Script, n: nat, s: Loop)
    requires ToldSoFar(a, script, n, s)
    ensures Pass(a, s, script(n)).log == CallsUpTo(a, script, n + 1)
  {
    var x := script(n);
    assert s.toolCalls == s.iterations == Tools(script, n);
    hide Going, Tools, Finishes, FailuresInARow;
    var status := if s.status.Ready? then Attempt(s.status, RunStatus.Running) else s.status;
    assert status == if Finishes(script, n) > 0 then Verifying else RunStatus.Running;
    assert Attempt(status, Verifying) == Verifying;
    match x.decision
    case Finish =>
      assert s.log + [Asked] + [Verified(Verifying, x.verified)] == s.log + [Asked, Verified(Verifying, x.verified)];
    case UseTool(ok, ending) =>
      assert s.log + [Asked] + [RanTool(status, ok)] == s.log + [Asked, RanTool(status, ok)];
    case _ =>
  }

  lemma PassEnds(a: Agent, script: Script, n: nat, s: Loop)
    requires ToldSoFar(a, script, n, s)
    ensures var next := Pass(a, s, script(n));
            && (next.done <==> EndsWellAt(a, script, n) || EndsBadlyAt(a, script, n))
            && (next.done ==> Told(a, script, n, next.status, next.iterations, next.toolCalls, next.log))
  {
    PassCalls(a, script, n, s);
    hide CallsOf, CallsUpTo;
  }

  lemma PassGoesOn(a: Agent, script: Script, n: nat, s: Loop)
    requires ToldSoFar(a, script, n, s) && !Pass(a, s, script(n)).done
    ensures ToldSoFar(a, script, n + 1, Pass(a, s, script(n)))
  {
    PassCalls(a, script, n, s);
    PassUsesUp(a, s, script(n));
    hide CallsOf, CallsUpTo, AsksLeft;
  }

  lemma {:induction false} ToldFrom(a: Agent, script: Script, n: nat, s: Loop)
    requires Going(a, s) && ToldSoFar(a, script, n, s)
    requires forall i | 0 <= i < n :: !EndsWellAt(a, script, i) && !EndsBadlyAt(a, script, i)
    ensures var end := RunFrom(a, s, script, n);
            exists k :: EndsAt(a, script, k) && Told(a, script, k, end.status, end.iterations, end.toolCalls, end.log)
    decreases AsksLeft(a, s)
  {
    hide *;
    FirstPass(a, s, script, n);
    PassEnds(a, script, n, s);
    var next := Pass(a, s, script(n));
    if next.done {
      FirstToEnd(a, script, n);
    } else {
      PassGoesOn(a, script, n, s);
      ToldFrom(a, script, n + 1, next);
    }
  }

  lemma FirstToEnd(a: Agent, script: Script, n: nat)
    requires EndsWellAt(a, script, n) || EndsBadlyAt(a, script, n)
    requires forall i | 0 <= i < n :: !EndsWellAt(a, script, i) && !EndsBadlyAt(a, script, i)
    ensures EndsAt(a, script, n)
  {
  }

  /**
   The run told from the script alone.  It ends at the first pass that is too late, has no decision, brings the
   failed actions in a row to their limit, fails verification with no recovery left, finishes, or, for the plain
   agent, whose tool ends it; and it ends COMPLETED exactly when that pass ends it well, READY when the first pass
   is already too late, and FAILED otherwise.
   */
  lemma {:induction false} RunTold(a: Agent, script: Script)
    ensures var end := RunWith(a, script);
            exists n :: EndsAt(a, script, n) && Told(a, script, n, end.status, end.iterations, end.toolCalls, end.log)
  {
    ToldFrom(a, script, 0, Start());
  }

  /** There is one such pass only. */
  lemma EndsOnce(a: Agent, script: Script, n: nat, k: nat)
    requires EndsAt(a, script, n) && EndsAt(a, script, k)
    ensures n == k
  {
    hide EndsWellAt, EndsBadlyAt;
  }

  // ------------------------------------------------------------- the run itself

  /** The verdict a finished run writes on its task and execution. */
  function Verdict(s: RunStatus): Outcome {
    if s.Completed? then RuntimeSucceeded else RuntimeFailed
  }

  class AgentRun {
    var status: RunStatus
    var iterationCount: int
    var toolCallCount: int

    constructor ()
      ensures status == RunStatus.Created && iterationCount == 0 && toolCallCount == 0
    {
      status, iterationCount, toolCallCount := RunStatus.Created, 0, 0;
    }

    /** AgentRunStateMachine.transition; refused means it raised. */
    method Transition(to: RunStatus) returns (moved: bool)
      modifies this`status
      ensures moved <==> to in RunTransitions(old(status))
      ensures status == if moved then to else old(status)
    {
      moved := to in RunTransitions(status);
      if moved {
        status := to;
      }
    }

    /** What the loop has done so far. */
    ghost function Progress(failures: int, recoveries: int, calls: seq<Call>, done: bool): Loop
      reads this
    {
      Loop(status, iterationCount, toolCallCount, failures, recoveries, calls, done)
    }
  }

  /** _transition_task: the task row moved toward its target, or the refusal. */
  method TransitionTask(row: TaskRow, target: TaskStatus) returns (moved: bool, r: TaskRow)
    requires target in {Succeeded, TaskStatus.Failed}
    ensures r == row.(status := if row.status in {TaskStatus.Running, Queued} then target else row.status)
    ensures moved <==> row.status in {target, TaskStatus.Running, Queued}
  {
    r := row;
    if r.status == target {
      return true, r;
    }
    if Transition(r.status, target).Moved? {
      return true, r.(status := target);
    }
    if r.status == Queued {
      r := r.(status := Transition(r.status, TaskStatus.Running).status);
      r := r.(status := Transition(r.status, target).status);
      return true, r;
    }
    return false, r;
  }

  /** The unit of work that ends a run: the task if it may move, and the execution in any case. */
  method WriteVerdict(store: Store, t: Id, e: Id, succeeded: bool)
    modifies store
    ensures store.Rows() == RuntimeRows(old(store.Rows()), t, e, if succeeded then RuntimeSucceeded else RuntimeFailed)
    ensures store.tasks ==
            if t in old(store.tasks) && old(store.tasks)[t].status in {TaskStatus.Running, Queued}
            then old(store.tasks)[t := old(store.tasks)[t].(
                   status := if succeeded then Succeeded else TaskStatus.Failed)]
            else old(store.tasks)
    ensures store.execs ==
            if e in old(store.execs)
            then old(store.execs)[e := old(store.execs)[e].(status := if succeeded then ExecSucceeded else ExecFailed)]
            else old(store.execs)
    ensures store.leases == old(store.leases) && store.deps == old(store.deps)
            && store.executing == old(store.executing)
  {
    if t in store.tasks {
      var moved, row := TransitionTask(store.tasks[t], if succeeded then Succeeded else TaskStatus.Failed);
      if moved {
        store.tasks := store.tasks[t := row];
      }
    }
    store.UpdateExecution(e, if succeeded then ExecSucceeded else ExecFailed);
  }

  method CompleteRun(run: AgentRun, store: Store, t: Id, e: Id)
    modifies run`status, store
    ensures run.status == if old(run.status) in {RunStatus.Running, Verifying} then Completed else old(run.status)
    ensures store.Rows() == RuntimeRows(old(store.Rows()), t, e, RuntimeSucceeded)
  {
    hide RunTransitions;
    ghost var was := run.status;
    var moved := run.Transition(Completed);
    if !moved {
      moved := run.Transition(Verifying);
      if moved {
        moved := run.Transition(Completed);
      }
    }
    EdgesInto(was);
    WriteVerdict(store, t, e, true);
  }

  method FailRun(run: AgentRun, store: Store, t: Id, e: Id)
    modifies run`status, store
    ensures run.status == if old(run.status) in {RunStatus.Running, Verifying} then RunStatus.Failed
                          else old(run.status)
    ensures store.Rows() == RuntimeRows(old(store.Rows()), t, e, RuntimeFailed)
  {
    var moved := run.Transition(RunStatus.Failed);
    WriteVerdict(store, t, e, false);
  }

  /** A failed action: the count, and the end of the run once there are too many in a row. */
  method CountFailed(a: Agent, run: AgentRun, store: Store, t: Id, e: Id, failures: int, ghost s: Loop)
    returns (count: int, stop: bool)
    requires s == run.Progress(failures, s.recoveries, s.log, false)
    modifies run`status, store
    ensures run.Progress(count, s.recoveries, s.log, stop) == CountFailure(a, s)
    ensures store.Rows() == if stop then RuntimeRows(old(store.Rows()), t, e, RuntimeFailed) else old(store.Rows())
  {
    hide RuntimeRows;
    count := failures + 1;
    stop := count >= a.maxFailedActions;
    if stop {
      FailRun(run, store, t, e);
    }
  }

  /** The agent says it is finished: verify, and complete, recover or give up. */
  method FinishTask(a: Agent, run: AgentRun, store: Store, t: Id, e: Id, verified: bool,
                    recoveries: int, calls: seq<Call>, ghost s: Loop)
    returns (attempts: int, made: seq<Call>, stop: bool)
    requires a.Coding? && s == run.Progress(s.failures, recoveries, calls, false)
    requires s.status in {RunStatus.Running, Verifying}
    modifies run`status, store
    ensures run.Progress(s.failures, attempts, made, stop) == FinishPass(a, s, verified)
    ensures store.Rows() == if stop then RuntimeRows(old(store.Rows()), t, e, Verdict(run.status))
                            else old(store.Rows())
  {
    hide RuntimeRows;
    attempts, made, stop := recoveries, calls, true;
    if a.engine {
      var moved := run.Transition(Verifying);
      made := made + [Verified(run.status, verified)];
      if !verified {
        if attempts < a.maxRecoveries {
          attempts := attempts + 1;
          stop := false;
        } else {
          FailRun(run, store, t, e);
        }
      } else {
        CompleteRun(run, store, t, e);
      }
    } else {
      CompleteRun(run, store, t, e);
    }
  }

  /** A tool call and its counters, and for the plain agent the tool's own word that the task is over. */
  method CallTool(a: Agent, run: AgentRun, store: Store, t: Id, e: Id, ok: bool, ending: Ending,
                  failures: int, calls: seq<Call>, ghost s: Loop)
    returns (count: int, made: seq<Call>, stop: bool)
    requires s == run.Progress(failures, s.recoveries, calls, false) && s.status in {RunStatus.Running, Verifying}
    modifies run, store
    ensures run.Progress(count, s.recoveries, made, stop) == ToolPass(a, s, ok, ending)
    ensures store.Rows() == if stop then RuntimeRows(old(store.Rows()), t, e, Verdict(run.status))
                            else old(store.Rows())
  {
    hide RuntimeRows;
    made := calls + [RanTool(run.status, ok)];
    run.iterationCount := run.iterationCount + 1;
    run.toolCallCount := run.toolCallCount + 1;
    stop := false;
    if !ok {
      count, stop := CountFailed(a, run, store, t, e, failures, run.Progress(failures, s.recoveries, made, false));
    } else {
      count := 0;
    }
    if a.Plain? && !stop && ending != GoesOn {
      stop := true;
      if ending == EndsWell {
        CompleteRun(run, store, t, e);
      } else {
        FailRun(run, store, t, e);
      }
    }
  }

  /** One pass of the loop in either agent. */
  method TakePass(a: Agent, run: AgentRun, store: Store, t: Id, e: Id, x: Answer,
                  failures: int, recoveries: int, calls: seq<Call>)
    returns (count: int, attempts: int, made: seq<Call>, stop: bool)
    requires Going(a, run.Progress(failures, recoveries, calls, false))
    modifies run, store
    ensures run.Progress(count, attempts, made, stop)
            == Pass(a, old(run.Progress(failures, recoveries, calls, false)), x)
    ensures store.Rows() == if stop then RuntimeRows(old(store.Rows()), t, e, Verdict(run.status))
                            else old(store.Rows())
  {
    hide RuntimeRows, FinishPass, ToolPass, ToolLimit, FailureLimit, RecoveryLimit, CountFailure;
    count, attempts, made, stop := failures, recoveries, calls, true;
    if x.timedOut || Exhausted(a, run.iterationCount, run.toolCallCount) {
      FailRun(run, store, t, e);
      return;
    }
    if run.status == RunStatus.Ready {
      var moved := run.Transition(RunStatus.Running);
    }
    made := made + [Asked];
    ghost var r := run.Progress(failures, recoveries, made, false);
    match x.decision
    case NoDecision =>
      FailRun(run, store, t, e);
    case Finish =>
      if a.Coding? {
        attempts, made, stop := FinishTask(a, run, store, t, e, x.verified, recoveries, made, r);
      } else {
        CompleteRun(run, store, t, e);
        PlainFinish(a, r, x.verified);
      }
    case Invalid =>
      count, stop := CountFailed(a, run, store, t, e, failures, r);
      FailureVerdict(a, r);
    case UseTool(ok, ending) =>
      count, made, stop := CallTool(a, run, store, t, e, ok, ending, failures, made, r);
  }

  lemma PlainFinish(a: Agent, s: Loop, verified: bool)
    requires a.Plain?
    ensures FinishPass(a, s, verified) == Stop(s, Completed)
  {
  }

  lemma FailureVerdict(a: Agent, s: Loop)
    requires !s.status.Completed?
    ensures !CountFailure(a, s).status.Completed?
  {
  }

  /** CodingAgent.run and CodingAgentRuntime.run: every run ends, as specified, and writes one verdict. */
  method Run(a: Agent, store: Store, t: Id, e: Id, script: Script) returns (run: AgentRun, calls: seq<Call>)
    modifies store
    ensures fresh(run)
    ensures var end := RunWith(a, script);
            && run.status == end.status && calls == end.log
            && run.iterationCount == end.iterations && run.toolCallCount == end.toolCalls
    ensures exists n :: EndsAt(a, script, n)
                        && Told(a, script, n, run.status, run.iterationCount, run.toolCallCount, calls)
    ensures store.Rows() == RuntimeRows(old(store.Rows()), t, e, Verdict(run.status))
    ensures store.tasks ==
            if t in old(store.tasks) && old(store.tasks)[t].status in {TaskStatus.Running, Queued}
            then old(store.tasks)[t := old(store.tasks)[t].(
                   status := if run.status == Completed then Succeeded else TaskStatus.Failed)]
            else old(store.tasks)
    ensures store.execs ==
            if e in old(store.execs)
            then old(store.execs)[e := old(store.execs)[e].(
                   status := if run.status == Completed then ExecSucceeded else ExecFailed)]
            else old(store.execs)
  {
    run := new AgentRun();
    var moved := run.Transition(RunStatus.Ready);
    calls := [];
    var failures, recoveries, done, pass := 0, 0, false, 0;
    while !done
      invariant store.Rows() == if done then RuntimeRows(old(store.Rows()), t, e, Verdict(run.status))
                                else old(store.Rows())
      invariant var s := run.Progress(failures, recoveries, calls, done);
                if done then s == RunWith(a, script)
                else Going(a, s) && RunFrom(a, s, script, pass) == RunWith(a, script)
      decreases !done, if done then 0 else AsksLeft(a, run.Progress(failures, recoveries, calls, false))
    {
      FirstPass(a, run.Progress(failures, recoveries, calls, false), script, pass);
      hide *;
      failures, recoveries, calls, done := TakePass(a, run, store, t, e, script(pass), failures, recoveries, calls);
      pass := pass + 1;
    }
    RunTold(a, script);
  }
}
