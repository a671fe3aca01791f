/**
 One worker's poll, start to end: claim, run the agent, check ownership, verify, complete or fail.
 When nobody interferes it is exactly a run of the protocol's own actions.
 */
module Execution {
  import opened DagValidator
  import opened Wrappers
  import opened TaskStates
  import opened Tables
  import opened Scheduler
  import opened Coordinator
  import opened AgentLoop
  import opened Protocol

  /**
   What happens around the worker: whether the environment came up, what the agent wrote and whether it
   then raised, what verification answered (None: it raised), and the time that passed before each step.
   */
  datatype World = World(ready: bool, outcome: Outcome, agentRaises: bool, verified: Option<bool>, waits: nat -> nat)

  predicate OfSession(a: Action, quiet: bool) {
    || a.RuntimeReturn? || a.AssertOwnership? || a.VerifyReturn? || a.Raise? || a.Tick?
    || (!quiet && (a.Complete? || a.Fail?))
  }

  /** The session's actions have led to this state; quiet while they have not completed or failed the task. */
  ghost predicate Led(start: System, acts: seq<Action>, s: System, quiet: bool) {
    After(start, acts) == s && forall i | 0 <= i < |acts| :: OfSession(acts[i], quiet)
  }

  lemma LedOn(start: System, acts: seq<Action>, s: System, a: Action, quiet: bool)
    requires Led(start, acts, s, true) || (!quiet && Led(start, acts, s, quiet))
    requires OfSession(a, quiet)
    ensures Led(start, acts + [a], Next(s, a), quiet)
  {
    assert (acts + [a])[..|acts|] == acts;
    hide Next;
  }

  /** The session of lease l, run by this worker for task t and execution e. */
  ghost predicate Runs(c: WorkerCoordinator, s: System, t: Id, e: Id, l: Id)
    reads c.store
  {
    && s.db == c.store.Rows() && l in s.sessions && l in s.db.leases
    && s.db.leases[l].worker == c.workerId && s.db.leases[l].task == t && s.db.leases[l].exec == e
  }

  ghost predicate InProgress(tasks: map<Id, TaskRow>, t: Id) {
    t in tasks && tasks[t].status == TaskStatus.Running
  }

  /** The agent's own write, if it makes one. */
  method RunAgent(c: WorkerCoordinator, t: Id, e: Id, l: Id, o: Outcome, ghost s: System)
    requires Runs(c, s, t, e, l) && At(s, l, Executing)
    modifies c.store
    ensures Runs(c, Next(s, RuntimeReturn(l, o)), t, e, l) && At(Next(s, RuntimeReturn(l, o)), l, RuntimeDone)
    ensures Next(s, RuntimeReturn(l, o)).now == s.now
    ensures c.store.Rows() == RuntimeRows(old(c.store.Rows()), t, e, o) && c.store.leases == old(c.store.leases)
    ensures InProgress(c.store.tasks, t) <==>
              InProgress(old(c.store.tasks), t) && o == Untouched
  {
    if o != Untouched {
      WriteVerdict(c.store, t, e, o == RuntimeSucceeded);
    }
  }

  /** Some time passes, and _assert_ownership answers. */
  method CheckOwnership(c: WorkerCoordinator, t: Id, e: Id, l: Id, now: int, wait: nat, ghost s: System)
    returns (later: int, owned: bool, ghost s': System)
    requires Runs(c, s, t, e, l) && s.now == now
    requires s.sessions[l].phase in {RuntimeDone, VerifiedOk, VerifiedBad, Completing}
    ensures later == now + wait == s'.now && s' == Next(Next(s, Tick(wait)), AssertOwnership(l))
    ensures owned <==> c.store.leases[l].expiresAt > later
    ensures owned <==> Owns(c.store.Rows(), later, c.workerId, l)
    ensures if !owned then s'.db == c.store.Rows() && l !in s'.sessions
            else Runs(c, s', t, e, l) && s'.sessions[l].phase == match s.sessions[l].phase
                                                                 case RuntimeDone => Phase.Verifying
                                                                 case VerifiedOk => Completing
                                                                 case VerifiedBad => Failing
                                                                 case _ => Committing
  {
    later := now + wait;
    owned := c.AssertOwnership(later, l);
    s' := Next(Next(s, Tick(wait)), AssertOwnership(l));
  }

  /** An exception, or a failed verification: _fail_task. */
  method GiveUp(c: WorkerCoordinator, t: Id, e: Id, l: Id, now: int, wait: nat, ghost s: System)
    returns (ghost s': System)
    requires Runs(c, s, t, e, l) && s.now == now
    modifies c.store
    ensures s' == Next(Next(Next(s, Raise(l)), Tick(wait)), Fail(l))
    ensures s'.db == c.store.Rows() && l !in s'.sessions && s'.now == now + wait
    ensures c.store.Rows() == FailRows(old(c.store.Rows()), now + wait, c.workerId, t, e, l)
  {
    c.FailTask(now + wait, t, e, l);
    s' := Next(Next(Next(s, Raise(l)), Tick(wait)), Fail(l));
  }

  /** An exception, and what _fail_task does about it. */
  ghost function GivingUp(l: Id, w: World): seq<Action> {
    [Raise(l), Tick(w.waits(3)), Fail(l)]
  }

  lemma GiveUpLeads(start: System, acts: seq<Action>, s: System, l: Id, w: World)
    requires Led(start, acts, s, true) || Led(start, acts, s, false)
    ensures var wait := w.waits(3);
            Led(start, acts + GivingUp(l, w), Next(Next(Next(s, Raise(l)), Tick(wait)), Fail(l)), false)
  {
    hide Led, Next;
    var wait := w.waits(3);
    LedOn(start, acts, s, Raise(l), false);
    LedOn(start, acts + [Raise(l)], Next(s, Raise(l)), Tick(wait), false);
    LedOn(start, acts + [Raise(l)] + [Tick(wait)], Next(Next(s, Raise(l)), Tick(wait)), Fail(l), false);
    assert acts + [Raise(l)] + [Tick(wait)] + [Fail(l)] == acts + GivingUp(l, w);
  }

  lemma CheckLeads(start: System, acts: seq<Action>, s: System, l: Id, wait: nat)
    requires Led(start, acts, s, true)
    ensures Led(start, acts + [Tick(wait), AssertOwnership(l)], Next(Next(s, Tick(wait)), AssertOwnership(l)), true)
  {
    hide Led, Next;
    LedOn(start, acts, s, Tick(wait), true);
    LedOn(start, acts + [Tick(wait)], Next(s, Tick(wait)), AssertOwnership(l), true);
    assert acts + [Tick(wait)] + [AssertOwnership(l)] == acts + [Tick(wait), AssertOwnership(l)];
  }

  /** The session is over, and the rows are as its own actions left them. */
  ghost predicate Ended(c: WorkerCoordinator, start: System, acts: seq<Action>, l: Id, stale: bool)
    reads c.store
  {
    var end := After(start, acts);
    && Led(start, acts, end, stale)
    && end.db == c.store.Rows() && l !in end.sessions
    && (stale ==> !Owns(end.db, end.now, c.workerId, l))
  }

  // ------------------------------------------------------------ what a session does

  ghost function Check(l: Id, wait: nat): seq<Action> {
    [Tick(wait), AssertOwnership(l)]
  }

  /** _complete_task, for a lease that expires at `expires`. */
  ghost function CompletionStory(l: Id, w: World, now: int, expires: int, running: bool): seq<Action> {
    Check(l, w.waits(2))
    + if expires <= now + w.waits(2) then []
      else [Action.Complete(l)] + if running then [] else GivingUp(l, w)
  }

  /** The session once verification has answered. */
  ghost function VerifiedStory(l: Id, w: World, now: int, ok: bool, expires: int, running: bool): seq<Action> {
    [VerifyReturn(l, ok)] + Check(l, w.waits(1))
    + if expires <= now + w.waits(1) then []
      else if ok then CompletionStory(l, w, now + w.waits(1), expires, running)
      else GivingUp(l, w)
  }

  /** The session from the agent's return on. */
  ghost function AfterAgent(l: Id, w: World, now: int, expires: int, running: bool): seq<Action> {
    Check(l, w.waits(0))
    + if expires <= now + w.waits(0) then []
      else match w.verified
        case None => GivingUp(l, w)
        case Some(ok) => VerifiedStory(l, w, now + w.waits(0), ok, expires, running)
  }

  /** The whole session; `running` says whether its agent leaves the task RUNNING. */
  ghost function Story(l: Id, w: World, now: int, expires: int, running: bool): seq<Action> {
    if !w.ready then GivingUp(l, w)
    else [RuntimeReturn(l, w.outcome)]
         + if w.agentRaises then GivingUp(l, w) else AfterAgent(l, w, now, expires, running)
  }

  /** Some ownership check that is made comes after the lease has expired. */
  predicate LosesLease(w: World, now: int, expires: int) {
    || expires <= now + w.waits(0)
    || (w.verified.Some? && expires <= now + w.waits(0) + w.waits(1))
    || (w.verified == Some(true) && expires <= now + w.waits(0) + w.waits(1) + w.waits(2))
  }

  /** Which of the actions that decide a session are in this part of it, and whether it ends by giving up. */
  ghost predicate Says(l: Id, acts: seq<Action>, verified: Option<bool>, completes: bool, gaveUp: bool) {
    && acts != []
    && (forall ok :: VerifyReturn(l, ok) in acts <==> verified == Some(ok))
    && (Action.Complete(l) in acts <==> completes)
    && (acts[|acts| - 1] == Fail(l) <==> gaveUp)
  }

  lemma SaysMore(l: Id, first: seq<Action>, acts: seq<Action>, verified: Option<bool>, completes: bool, gaveUp: bool)
    requires Says(l, acts, verified, completes, gaveUp)
    requires forall a | a in first :: !a.VerifyReturn? && !a.Complete?
    ensures Says(l, first + acts, verified, completes, gaveUp)
  {
  }

  lemma GivingUpSays(l: Id, w: World)
    ensures Says(l, GivingUp(l, w), None, false, true)
  {
  }

  lemma CompletionSays(l: Id, w: World, now: int, expires: int, running: bool)
    ensures var owned := expires > now + w.waits(2);
            Says(l, CompletionStory(l, w, now, expires, running), None, owned, owned && !running)
  {
  }

  lemma VerifiedSays(l: Id, w: World, now: int, ok: bool, expires: int, running: bool)
    ensures var second := now + w.waits(1);
            var completes := ok && expires > second && expires > second + w.waits(2);
            Says(l, VerifiedStory(l, w, now, ok, expires, running), Some(ok), completes,
                 expires > second && (ok ==> completes && !running))
  {
    CompletionSays(l, w, now + w.waits(1), expires, running);
    hide CompletionStory;
  }

  lemma AfterAgentSays(l: Id, w: World, now: int, expires: int, running: bool)
    ensures var second := now + w.waits(0) + w.waits(1);
            var completes := w.verified == Some(true) && expires > now + w.waits(0) && expires > second
                             && expires > second + w.waits(2);
            Says(l, AfterAgent(l, w, now, expires, running), if expires > now + w.waits(0) then w.verified else None,
                 completes, !LosesLease(w, now, expires) && !(completes && running))
  {
    if expires > now + w.waits(0) {
      match w.verified
      case None =>
        GivingUpSays(l, w);
        SaysMore(l, Check(l, w.waits(0)), GivingUp(l, w), None, false, true);
      case Some(ok) =>
        var story := VerifiedStory(l, w, now + w.waits(0), ok, expires, running);
        VerifiedSays(l, w, now + w.waits(0), ok, expires, running);
        hide Says, VerifiedStory;
        var second := now + w.waits(0) + w.waits(1);
        var completes := ok && expires > second && expires > second + w.waits(2);
        SaysMore(l, Check(l, w.waits(0)), story, Some(ok), completes,
                 expires > second && (ok ==> completes && !running));
    }
  }

  lemma NoRuntimeReturn(l: Id, w: World, now: int, expires: int, running: bool, a: Action)
    requires a.RuntimeReturn?
    ensures a !in GivingUp(l, w) && a !in AfterAgent(l, w, now, expires, running)
  {
  }

  /**
   What the actions of a session tell of the world: the agent returned iff the environment came up, verification
   answered what it answered, the completion was tried iff that was a success and the lease, expiring at `expires`,
   was still owned at each of the three checks, and a session that neither stops stale nor completes ends by failing
   the task.  `running` says whether the agent leaves the task RUNNING.
   */
  ghost predicate Tells(l: Id, w: World, now: int, expires: int, running: bool, acts: seq<Action>, stale: bool) {
    && (forall o :: RuntimeReturn(l, o) in acts <==> w.ready && o == w.outcome)
    && (forall ok :: VerifyReturn(l, ok) in acts <==>
          w.ready && !w.agentRaises && expires > now + w.waits(0) && w.verified == Some(ok))
    && (Action.Complete(l) in acts <==>
          && w.ready && !w.agentRaises && w.verified == Some(true)
          && expires > now + w.waits(0)
          && expires > now + w.waits(0) + w.waits(1)
          && expires > now + w.waits(0) + w.waits(1) + w.waits(2))
    && (stale <==>
          && w.ready && !w.agentRaises
          && (|| expires <= now + w.waits(0)
              || (w.verified.Some? && expires <= now + w.waits(0) + w.waits(1))
              || (w.verified == Some(true) && expires <= now + w.waits(0) + w.waits(1) + w.waits(2))))
    && acts != []
    && (acts[|acts| - 1] == Fail(l) <==> !stale && !(Action.Complete(l) in acts && running))
  }

  lemma StorySays(l: Id, w: World, now: int, expires: int, running: bool)
    ensures Tells(l, w, now, expires, running, Story(l, w, now, expires, running),
                  w.ready && !w.agentRaises && LosesLease(w, now, expires))
  {
    var ran := w.ready && !w.agentRaises;
    var second := now + w.waits(0) + w.waits(1);
    var completes := ran && w.verified == Some(true) && expires > now + w.waits(0) && expires > second
                     && expires > second + w.waits(2);
    WholeStorySays(l, w, now, expires, running);
    assert completes <==> ran && w.verified == Some(true) && !LosesLease(w, now, expires);
    hide Story;
  }

  lemma WholeStorySays(l: Id, w: World, now: int, expires: int, running: bool)
    ensures var acts := Story(l, w, now, expires, running);
            var ran := w.ready && !w.agentRaises;
            var second := now + w.waits(0) + w.waits(1);
            var completes := ran && w.verified == Some(true) && expires > now + w.waits(0) && expires > second
                             && expires > second + w.waits(2);
            && (forall o :: RuntimeReturn(l, o) in acts <==> w.ready && o == w.outcome)
            && Says(l, acts, if ran && expires > now + w.waits(0) then w.verified else None, completes,
                    !(ran && LosesLease(w, now, expires)) && !(completes && running))
  {
    var first := [RuntimeReturn(l, w.outcome)];
    var rest := if w.agentRaises then GivingUp(l, w) else AfterAgent(l, w, now, expires, running);
    GivingUpSays(l, w);
    AfterAgentSays(l, w, now, expires, running);
    forall o ensures RuntimeReturn(l, o) !in GivingUp(l, w) && RuntimeReturn(l, o) !in rest {
      NoRuntimeReturn(l, w, now, expires, running, RuntimeReturn(l, o));
    }
    hide LosesLease, AfterAgent, GivingUp, Says;
    if w.ready {
      assert Story(l, w, now, expires, running) == first + rest;
      RuntimeFirst(l, w.outcome, rest);
    }
  }

  lemma RuntimeFirst(l: Id, o: Outcome, rest: seq<Action>)
    ensures forall verified, completes, gaveUp | Says(l, rest, verified, completes, gaveUp) ::
              Says(l, [RuntimeReturn(l, o)] + rest, verified, completes, gaveUp)
  {
  }

  /**
   execute_claimed.  `stale` means it ended by raising StaleOwnershipError: the lease was not this worker's
   any more, and the worker had neither completed nor failed the task.
   */
  method ExecuteClaimed(c: WorkerCoordinator, t: Id, e: Id, l: Id, now: int, w: World, ghost start: System)
    returns (stale: bool, ghost acts: seq<Action>)
    requires Runs(c, start, t, e, l) && At(start, l, Executing) && start.now == now
    modifies c.store
    ensures Ended(c, start, acts, l, stale)
    ensures Executed(old(c.store.Rows()), c.store.Rows(), After(start, acts).now, c.workerId, t, e, l, now, w, acts,
                     stale)
    ensures forall o :: RuntimeReturn(l, o) in acts <==> w.ready && o == w.outcome
    ensures forall ok :: VerifyReturn(l, ok) in acts ==> w.verified == Some(ok)
    ensures Action.Complete(l) in acts <==>
              && w.ready && !w.agentRaises && w.verified == Some(true)
              && old(c.store.leases)[l].expiresAt > now + w.waits(0) + w.waits(1) + w.waits(2)
    ensures !stale && Action.Complete(l) !in acts ==> acts != [] && acts[|acts| - 1] == Fail(l)
  {
    ghost var was := c.store.Rows();
    assert was.leases == c.store.leases;
    hide *;
    var time, failed;
    ghost var s;
    time, failed, stale, acts, s := TryExecute(c, t, e, l, now, w, start);
    if failed {
      AboutToGiveUp(c, start, acts, s, t, e, l, time, stale);
      acts := FailSession(c, t, e, l, now, time, w, start, acts, s, was);
    } else {
      HasEnded(c, start, acts, s, t, e, l, time, stale);
      DidNotGiveUp(was, c.store.Rows(), time, c.workerId, t, e, l, now, w, acts, stale);
    }
    ExecutedTells(was, c.store.Rows(), After(start, acts).now, c.workerId, t, e, l, now, w, acts, stale);
  }

  /** The handler for every other exception, and for a failed verification. */
  method FailSession(c: WorkerCoordinator, t: Id, e: Id, l: Id, now: int, time: int, w: World, ghost start: System,
                     ghost before: seq<Action>, ghost from: System, ghost was: Db)
    returns (ghost acts: seq<Action>)
    requires Runs(c, from, t, e, l) && from.now == time
    requires Led(start, before, from, true) || Led(start, before, from, false)
    requires Tried(was, c.store.Rows(), time, t, e, l, now, w, before, true, false)
    modifies c.store
    ensures Ended(c, start, acts, l, false)
    ensures Executed(was, c.store.Rows(), After(start, acts).now, c.workerId, t, e, l, now, w, acts, false)
  {
    hide *;
    ghost var rows := c.store.Rows();
    GiveUpLeads(start, before, from, l, w);
    ghost var s := GiveUp(c, t, e, l, time, w.waits(3), from);
    GaveUp(was, rows, time, c.workerId, t, e, l, now, w, before);
    acts := before + GivingUp(l, w);
    Conclude(c, start, acts, s, l, false);
  }

  lemma ExecutedTells(was: Db, rows: Db, end: int, worker: Id, t: Id, e: Id, l: Id, now: int, w: World,
                      acts: seq<Action>, stale: bool)
    requires Executed(was, rows, end, worker, t, e, l, now, w, acts, stale)
    ensures forall o :: RuntimeReturn(l, o) in acts <==> w.ready && o == w.outcome
    ensures forall ok :: VerifyReturn(l, ok) in acts ==> w.verified == Some(ok)
    ensures l in was.leases
    ensures Action.Complete(l) in acts <==>
              && w.ready && !w.agentRaises && w.verified == Some(true)
              && was.leases[l].expiresAt > now + w.waits(0) + w.waits(1) + w.waits(2)
    ensures !stale && Action.Complete(l) !in acts ==> acts != [] && acts[|acts| - 1] == Fail(l)
  {
  }

  /** The session that leads from these rows to those: its actions, what they tell of the world, and the end. */
  ghost predicate Executed(was: Db, rows: Db, end: int, worker: Id, t: Id, e: Id, l: Id, now: int, w: World,
                           acts: seq<Action>, stale: bool)
  {
    && l in was.leases
    && var running := InProgress(was.tasks, t) && w.outcome == Untouched;
    && acts == Story(l, w, now, was.leases[l].expiresAt, running)
    && Tells(l, w, now, was.leases[l].expiresAt, running, acts, stale)
    && rows == SessionRows(was, end, worker, t, e, l, w, stale, Action.Complete(l) in acts)
  }

  /** The session up to the point where it has ended or is about to give up. */
  ghost predicate Tried(was: Db, rows: Db, time: int, t: Id, e: Id, l: Id, now: int, w: World, acts: seq<Action>,
                        failed: bool, stale: bool)
  {
    && l in was.leases
    && var running := InProgress(was.tasks, t) && w.outcome == Untouched;
    && var ran := if w.ready then RuntimeRows(was, t, e, w.outcome) else was;
    && acts + (if failed then GivingUp(l, w) else []) == Story(l, w, now, was.leases[l].expiresAt, running)
    && (stale <==> w.ready && !w.agentRaises && LosesLease(w, now, was.leases[l].expiresAt))
    && (failed <==> !stale && !(w.ready && !w.agentRaises && w.verified == Some(true) && running))
    && rows == if failed || stale then ran else CompleteRows(ran, time, t, e, l)
  }

  lemma GaveUp(was: Db, rows: Db, time: int, worker: Id, t: Id, e: Id, l: Id, now: int, w: World, acts: seq<Action>)
    requires Tried(was, rows, time, t, e, l, now, w, acts, true, false)
    ensures var end := time + w.waits(3);
            Executed(was, FailRows(rows, end, worker, t, e, l), end, worker, t, e, l, now, w, acts + GivingUp(l, w),
                     false)
  {
    hide CompleteRows, FailRows, Story, RuntimeRows, InProgress;
    var expires, running := was.leases[l].expiresAt, InProgress(was.tasks, t) && w.outcome == Untouched;
    StorySays(l, w, now, expires, running);
    CompletesIff(l, w, now, expires, running, acts + GivingUp(l, w), false);
    RowsOfSession(was, time + w.waits(3), worker, t, e, l, w, false, Action.Complete(l) in acts + GivingUp(l, w));
    hide Tells, SessionRows, LosesLease, GivingUp;
  }

  lemma DidNotGiveUp(was: Db, rows: Db, time: int, worker: Id, t: Id, e: Id, l: Id, now: int, w: World,
                     acts: seq<Action>, stale: bool)
    requires Tried(was, rows, time, t, e, l, now, w, acts, false, stale)
    ensures Executed(was, rows, time, worker, t, e, l, now, w, acts, stale)
  {
    hide CompleteRows, FailRows, Story, RuntimeRows, InProgress, GivingUp;
    assert acts + [] == acts;
    var expires, running := was.leases[l].expiresAt, InProgress(was.tasks, t) && w.outcome == Untouched;
    StorySays(l, w, now, expires, running);
    CompletesIff(l, w, now, expires, running, acts, stale);
    RowsOfSession(was, time, worker, t, e, l, w, stale, Action.Complete(l) in acts);
    hide Tells, SessionRows, LosesLease;
  }

  /** The rows after a session: what the agent wrote, and then the completion, the failure, or nothing. */
  ghost function SessionRows(db: Db, end: int, worker: Id, t: Id, e: Id, l: Id, w: World, stale: bool,
                             completes: bool): Db
  {
    var ran := if w.ready then RuntimeRows(db, t, e, w.outcome) else db;
    if stale then ran
    else if completes && InProgress(ran.tasks, t) then CompleteRows(ran, end, t, e, l)
    else FailRows(ran, end, worker, t, e, l)
  }

  lemma CompletesIff(l: Id, w: World, now: int, expires: int, running: bool, acts: seq<Action>, stale: bool)
    requires Tells(l, w, now, expires, running, acts, stale)
    ensures Action.Complete(l) in acts <==> w.ready && !w.agentRaises && !stale && w.verified == Some(true)
    ensures stale ==> w.ready
  {
  }

  lemma RowsOfSession(db: Db, end: int, worker: Id, t: Id, e: Id, l: Id, w: World, stale: bool, completes: bool)
    requires completes ==> w.ready
    ensures var ran := if w.ready then RuntimeRows(db, t, e, w.outcome) else db;
            var running := InProgress(db.tasks, t) && w.outcome == Untouched;
            SessionRows(db, end, worker, t, e, l, w, stale, completes) ==
            if stale then ran
            else if completes && running then CompleteRows(ran, end, t, e, l)
            else FailRows(ran, end, worker, t, e, l)
  {
    hide CompleteRows, FailRows;
  }

  /** How part of a session leaves it: about to give up, or ended. */
  ghost predicate Leaves(c: WorkerCoordinator, start: System, acts: seq<Action>, s: System, t: Id, e: Id, l: Id,
                         time: int, failed: bool, stale: bool)
    reads c.store
  {
    if failed
    then !stale && Runs(c, s, t, e, l) && s.now == time && (Led(start, acts, s, true) || Led(start, acts, s, false))
    else Ended(c, start, acts, l, stale) && After(start, acts).now == time
  }

  /** The environment and the agent, and what follows its return. */
  method TryExecute(c: WorkerCoordinator, t: Id, e: Id, l: Id, now: int, w: World, ghost start: System)
    returns (time: int, failed: bool, stale: bool, ghost acts: seq<Action>, ghost s: System)
    requires Runs(c, start, t, e, l) && At(start, l, Executing) && start.now == now
    modifies c.store
    ensures Leaves(c, start, acts, s, t, e, l, time, failed, stale)
    ensures Tried(old(c.store.Rows()), c.store.Rows(), time, t, e, l, now, w, acts, failed, stale)
  {
    acts, s, time, failed, stale := [], start, now, true, false;
    assert Led(start, acts, s, true);
    hide Next, Led, RuntimeRows, CompleteRows, After, AfterAgent, LosesLease, Ended;
    if w.ready {
      RunAgent(c, t, e, l, w.outcome, s);
      LedOn(start, acts, s, RuntimeReturn(l, w.outcome), true);
      acts, s := acts + [RuntimeReturn(l, w.outcome)], Next(s, RuntimeReturn(l, w.outcome));
      assert acts == [RuntimeReturn(l, w.outcome)];
      if !w.agentRaises {
        time, failed, stale, acts, s := VerifyAndComplete(c, t, e, l, time, w, start, acts, s);
      }
    }
  }

  lemma AboutToGiveUp(c: WorkerCoordinator, start: System, acts: seq<Action>, s: System, t: Id, e: Id, l: Id, time: int,
                      stale: bool)
    requires Leaves(c, start, acts, s, t, e, l, time, true, stale)
    ensures !stale && Runs(c, s, t, e, l) && s.now == time && (Led(start, acts, s, true) || Led(start, acts, s, false))
  {
  }

  lemma HasEnded(c: WorkerCoordinator, start: System, acts: seq<Action>, s: System, t: Id, e: Id, l: Id, time: int,
                 stale: bool)
    requires Leaves(c, start, acts, s, t, e, l, time, false, stale)
    ensures Ended(c, start, acts, l, stale) && After(start, acts).now == time
  {
  }

  /** From the agent's return: ownership, verification, ownership again, and completion. */
  method VerifyAndComplete(c: WorkerCoordinator, t: Id, e: Id, l: Id, now: int, w: World, ghost start: System,
                           ghost before: seq<Action>, ghost from: System)
    returns (time: int, failed: bool, stale: bool, ghost acts: seq<Action>, ghost s: System)
    requires Runs(c, from, t, e, l) && At(from, l, RuntimeDone) && from.now == now && Led(start, before, from, true)
    modifies c.store
    ensures Leaves(c, start, acts, s, t, e, l, time, failed, stale)
    ensures acts + (if failed then GivingUp(l, w) else [])
            == before + AfterAgent(l, w, now, old(c.store.leases)[l].expiresAt, InProgress(old(c.store.tasks), t))
    ensures stale <==> LosesLease(w, now, old(c.store.leases)[l].expiresAt)
    ensures failed <==> !stale && !(w.verified == Some(true) && InProgress(old(c.store.tasks), t))
    ensures c.store.Rows() == if failed || stale then old(c.store.Rows())
                              else CompleteRows(old(c.store.Rows()), time, t, e, l)
  {
    hide Next, Led, After, Owns, CompleteRows, Ended, VerifiedStory;
    var owned;
    time, owned, s := CheckOwnership(c, t, e, l, now, w.waits(0), from);
    CheckLeads(start, before, from, l, w.waits(0));
    acts, failed, stale := before + Check(l, w.waits(0)), true, !owned;
    if stale {
      Conclude(c, start, acts, s, l, true);
      failed := false;
      return;
    }
    if w.verified.None? {
      return;
    }
    time, failed, stale, acts, s := Verify(c, t, e, l, time, w.verified.value, w, start, acts, s);
  }

  /** What verification answered, ownership again, and completion. */
  method Verify(c: WorkerCoordinator, t: Id, e: Id, l: Id, now: int, ok: bool, w: World, ghost start: System,
                ghost before: seq<Action>, ghost from: System)
    returns (time: int, failed: bool, stale: bool, ghost acts: seq<Action>, ghost s: System)
    requires Runs(c, from, t, e, l) && At(from, l, Phase.Verifying) && from.now == now && Led(start, before, from, true)
    modifies c.store
    ensures Leaves(c, start, acts, s, t, e, l, time, failed, stale)
    ensures acts + (if failed then GivingUp(l, w) else [])
            == before + VerifiedStory(l, w, now, ok, old(c.store.leases)[l].expiresAt,
                                      InProgress(old(c.store.tasks), t))
    ensures stale <==> || old(c.store.leases)[l].expiresAt <= now + w.waits(1)
                       || (ok && old(c.store.leases)[l].expiresAt <= now + w.waits(1) + w.waits(2))
    ensures failed <==> !stale && !(ok && InProgress(old(c.store.tasks), t))
    ensures c.store.Rows() == if failed || stale then old(c.store.Rows())
                              else CompleteRows(old(c.store.Rows()), time, t, e, l)
  {
    hide Next, Led, After, Owns, CompleteRows, Ended, CompletionStory;
    var owned;
    VerifyStep(c, from, t, e, l, ok);
    LedOn(start, before, from, VerifyReturn(l, ok), true);
    acts, s := before + [VerifyReturn(l, ok)], Next(from, VerifyReturn(l, ok));
    CheckLeads(start, acts, s, l, w.waits(1));
    acts := acts + Check(l, w.waits(1));
    time, owned, s := CheckOwnership(c, t, e, l, now, w.waits(1), s);
    failed, stale := true, !owned;
    if stale {
      Conclude(c, start, acts, s, l, true);
      failed := false;
      return;
    }
    if ok {
      time, failed, stale, acts, s := CheckAndComplete(c, t, e, l, time, w, start, acts, s);
    }
  }

  /** _complete_task: its own ownership check, then the commit or an exception. */
  method CheckAndComplete(c: WorkerCoordinator, t: Id, e: Id, l: Id, now: int, w: World, ghost start: System,
                          ghost before: seq<Action>, ghost from: System)
    returns (time: int, failed: bool, stale: bool, ghost acts: seq<Action>, ghost s: System)
    requires Runs(c, from, t, e, l) && At(from, l, Completing) && from.now == now && Led(start, before, from, true)
    modifies c.store
    ensures Leaves(c, start, acts, s, t, e, l, time, failed, stale)
    ensures acts + (if failed then GivingUp(l, w) else [])
            == before + CompletionStory(l, w, now, old(c.store.leases)[l].expiresAt, InProgress(old(c.store.tasks), t))
    ensures stale <==> old(c.store.leases)[l].expiresAt <= now + w.waits(2)
    ensures failed <==> !stale && !InProgress(old(c.store.tasks), t)
    ensures c.store.Rows() == if failed || stale then old(c.store.Rows())
                              else CompleteRows(old(c.store.Rows()), time, t, e, l)
  {
    hide Next, Led, After, Owns, CompleteRows, Ended;
    var owned, done;
    time, owned, s := CheckOwnership(c, t, e, l, now, w.waits(2), from);
    CheckLeads(start, before, from, l, w.waits(2));
    acts, failed, stale := before + Check(l, w.waits(2)), true, !owned;
    if stale {
      Conclude(c, start, acts, s, l, true);
      failed := false;
      return;
    }
    LedOn(start, acts, s, Action.Complete(l), false);
    acts := acts + [Action.Complete(l)];
    done, s := Complete(c, t, e, l, time, s);
    if done {
      Conclude(c, start, acts, s, l, false);
      failed := false;
    }
  }

  lemma VerifyStep(c: WorkerCoordinator, s: System, t: Id, e: Id, l: Id, ok: bool)
    requires Runs(c, s, t, e, l) && At(s, l, Phase.Verifying)
    ensures Runs(c, Next(s, VerifyReturn(l, ok)), t, e, l) && Next(s, VerifyReturn(l, ok)).now == s.now
    ensures Next(s, VerifyReturn(l, ok)).sessions[l].phase == if ok then VerifiedOk else VerifiedBad
  {
  }

  /** The commit of _complete_task, or its exception. */
  method Complete(c: WorkerCoordinator, t: Id, e: Id, l: Id, now: int, ghost s: System)
    returns (done: bool, ghost s': System)
    requires Runs(c, s, t, e, l) && At(s, l, Committing) && s.now == now
    modifies c.store
    ensures s' == Next(s, Action.Complete(l)) && s'.now == now
    ensures if done then s'.db == c.store.Rows() && l !in s'.sessions else Runs(c, s', t, e, l)
    ensures done <==> InProgress(old(c.store.tasks), t)
    ensures c.store.Rows() == if done then CompleteRows(old(c.store.Rows()), now, t, e, l) else old(c.store.Rows())
  {
    done := c.CompleteTask(now, t, e, l);
    s' := Next(s, Action.Complete(l));
  }

  lemma Conclude(c: WorkerCoordinator, start: System, acts: seq<Action>, s: System, l: Id, stale: bool)
    requires Led(start, acts, s, stale) && s.db == c.store.Rows() && l !in s.sessions
    requires stale ==> !Owns(c.store.Rows(), s.now, c.workerId, l)
    ensures Ended(c, start, acts, l, stale) && After(start, acts) == s
  {
  }

  lemma ReadsOwnRows(db: Db, m: Id, skills: set<Capability>)
    ensures forall t :: Claimable(db, db.tasks, m, skills, t) <==> Eligible(db, m, skills, t)
    ensures forall t :: BestLeft(db, db.tasks, m, skills, t) <==> BestClaim(db, m, skills, t)
  {
    forall t
      ensures Claimable(db, db.tasks, m, skills, t) <==> Eligible(db, m, skills, t)
      ensures BestLeft(db, db.tasks, m, skills, t) <==> BestClaim(db, m, skills, t)
    {
      BestLeftIsBest(db, m, skills, t);
    }
  }

  /** A claim is the protocol's, and opens the session. */
  lemma ClaimOpens(c: WorkerCoordinator, start: System, t: Id, e: Id, l: Id)
    requires start.ttl == c.ttl && l !in start.db.leases && e !in start.db.execs
    requires BestClaim(start.db, c.missionId, c.skills, t)
    requires c.store.Rows() == ClaimRows(start.db, start.now, c.ttl, c.workerId, t, l, e)
    ensures var s := Next(start, Claim(c.missionId, c.skills, c.workerId, t, l, e));
            Runs(c, s, t, e, l) && At(s, l, Executing) && s.now == start.now && l in s.sessions
  {
    assert Claims(start, Claim(c.missionId, c.skills, c.workerId, t, l, e));
    hide BestClaim;
  }

  /** Where a poll leaves the task that it claimed. */
  ghost function PolledStatus(attempts: int, limit: int, w: World, stale: bool, completes: bool): TaskStatus {
    if w.ready && w.outcome == RuntimeSucceeded then Succeeded
    else if stale then if w.outcome == RuntimeFailed then TaskStatus.Failed else TaskStatus.Running
    else if completes && w.outcome == Untouched then Succeeded
    else if attempts < limit then Queued
    else TaskStatus.Failed
  }

  ghost function PolledExec(w: World, stale: bool, completes: bool): ExecStatus {
    if stale then match w.outcome
      case Untouched => ExecRunning
      case RuntimeSucceeded => ExecSucceeded
      case RuntimeFailed => ExecFailed
    else if completes && w.outcome == Untouched then ExecSucceeded
    else ExecFailed
  }

  /** The claim's three rows with these statuses and this expiry; every other row is as it was. */
  ghost predicate ClaimHolds(db: Db, rows: Db, worker: Id, t: Id, e: Id, l: Id, now: int, status: TaskStatus,
                             exec: ExecStatus, expires: int)
  {
    && t in db.tasks
    && var attempts := db.tasks[t].attemptCount + 1;
    && rows.tasks == db.tasks[t := db.tasks[t].(status := status, assignedTo := Some(worker), attemptCount := attempts)]
    && rows.execs == db.execs[e := ExecRow(t, attempts, exec)]
    && rows.leases == db.leases[l := LeaseRow(worker, t, e, now, expires, now, 0)]
    && rows.deps == db.deps && rows.executing == db.executing
  }

  lemma AgentHolds(db: Db, now: int, ttl: int, worker: Id, t: Id, e: Id, l: Id, o: Outcome)
    requires t in db.tasks
    ensures var rows := ClaimRows(db, now, ttl, worker, t, l, e);
            ClaimHolds(db, rows, worker, t, e, l, now, TaskStatus.Running, ExecRunning, now + ttl)
    ensures var rows := RuntimeRows(ClaimRows(db, now, ttl, worker, t, l, e), t, e, o);
            ClaimHolds(db, rows, worker, t, e, l, now,
                       match o { case Untouched => TaskStatus.Running case RuntimeSucceeded => Succeeded
                                 case RuntimeFailed => TaskStatus.Failed },
                       match o { case Untouched => ExecRunning case RuntimeSucceeded => ExecSucceeded
                                 case RuntimeFailed => ExecFailed },
                       now + ttl)
  {
  }

  lemma CompletionHolds(db: Db, rows: Db, end: int, worker: Id, t: Id, e: Id, l: Id, now: int, expires: int)
    requires ClaimHolds(db, rows, worker, t, e, l, now, TaskStatus.Running, ExecRunning, expires)
    ensures ClaimHolds(db, CompleteRows(rows, end, t, e, l), worker, t, e, l, now, Succeeded, ExecSucceeded, end)
  {
  }

  lemma FailureHolds(db: Db, rows: Db, end: int, worker: Id, t: Id, e: Id, l: Id, now: int, status: TaskStatus,
                     exec: ExecStatus, expires: int)
    requires ClaimHolds(db, rows, worker, t, e, l, now, status, exec, expires)
    requires status in {TaskStatus.Running, Succeeded, TaskStatus.Failed}
    ensures var after := if status == Succeeded then Succeeded
                         else if db.tasks[t].attemptCount + 1 < db.tasks[t].maxAttempts then Queued
                         else TaskStatus.Failed;
            ClaimHolds(db, FailRows(rows, end, worker, t, e, l), worker, t, e, l, now, after, ExecFailed, end)
  {
  }

  lemma SessionOfClaim(db: Db, now: int, ttl: int, end: int, worker: Id, t: Id, e: Id, l: Id, w: World, stale: bool,
                       completes: bool)
    requires t in db.tasks && ((stale || completes) ==> w.ready)
    ensures var was := ClaimRows(db, now, ttl, worker, t, l, e);
            var rows := SessionRows(was, end, worker, t, e, l, w, stale, completes);
            ClaimHolds(db, rows, worker, t, e, l, now,
                       PolledStatus(db.tasks[t].attemptCount + 1, db.tasks[t].maxAttempts, w, stale, completes),
                       PolledExec(w, stale, completes), if stale then now + ttl else end)
  {
    var was := ClaimRows(db, now, ttl, worker, t, l, e);
    RowsOfSession(was, end, worker, t, e, l, w, stale, completes);
    AgentHolds(db, now, ttl, worker, t, e, l, w.outcome);
    assert InProgress(was.tasks, t);
    hide SessionRows, ClaimRows, RuntimeRows, CompleteRows, FailRows, ClaimHolds;
    var ran := if w.ready then RuntimeRows(was, t, e, w.outcome) else was;
    if !stale {
      if completes && w.outcome == Untouched {
        CompletionHolds(db, ran, end, worker, t, e, l, now, now + ttl);
      } else if !w.ready {
        FailureHolds(db, ran, end, worker, t, e, l, now, TaskStatus.Running, ExecRunning, now + ttl);
      } else {
        match w.outcome
        case Untouched =>
          FailureHolds(db, ran, end, worker, t, e, l, now, TaskStatus.Running, ExecRunning, now + ttl);
        case RuntimeSucceeded =>
          FailureHolds(db, ran, end, worker, t, e, l, now, Succeeded, ExecSucceeded, now + ttl);
        case RuntimeFailed =>
          FailureHolds(db, ran, end, worker, t, e, l, now, TaskStatus.Failed, ExecFailed, now + ttl);
      }
    }
  }

  /** A poll that claimed t: its session's actions, what they tell of the world, and the rows at the end. */
  ghost predicate Polled(db: Db, rows: Db, now: int, ttl: int, end: int, worker: Id, t: Id, e: Id, l: Id, w: World,
                         acts: seq<Action>, stale: bool)
  {
    && acts == Story(l, w, now, now + ttl, w.outcome == Untouched)
    && Tells(l, w, now, now + ttl, w.outcome == Untouched, acts, stale)
    && t in db.tasks
    && var completes := Action.Complete(l) in acts;
    ClaimHolds(db, rows, worker, t, e, l, now,
               PolledStatus(db.tasks[t].attemptCount + 1, db.tasks[t].maxAttempts, w, stale, completes),
               PolledExec(w, stale, completes), if stale then now + ttl else end)
  }

  lemma PollEnds(db: Db, rows: Db, now: int, ttl: int, end: int, worker: Id, t: Id, e: Id, l: Id, w: World,
                 acts: seq<Action>, stale: bool)
    requires t in db.tasks
    requires Executed(ClaimRows(db, now, ttl, worker, t, l, e), rows, end, worker, t, e, l, now, w, acts, stale)
    ensures Polled(db, rows, now, ttl, end, worker, t, e, l, w, acts, stale)
  {
    hide SessionRows, Story, PolledStatus, PolledExec;
    var was := ClaimRows(db, now, ttl, worker, t, l, e);
    assert InProgress(was.tasks, t) && was.leases[l].expiresAt == now + ttl;
    CompletesIff(l, w, now, now + ttl, w.outcome == Untouched, acts, stale);
    SessionOfClaim(db, now, ttl, end, worker, t, e, l, w, stale, Action.Complete(l) in acts);
    hide Tells, ClaimHolds, ClaimRows, InProgress;
  }

  lemma PollTells(db: Db, rows: Db, now: int, ttl: int, end: int, worker: Id, t: Id, e: Id, l: Id, w: World,
                  claim: Action, session: seq<Action>, stale: bool)
    requires claim.Claim? && Polled(db, rows, now, ttl, end, worker, t, e, l, w, session, stale)
    ensures var acts := [claim] + session;
            && acts[0] == claim && acts[1..] == session && |acts| > 1
            && (forall o :: RuntimeReturn(l, o) in acts <==> w.ready && o == w.outcome)
            && (forall ok :: VerifyReturn(l, ok) in acts ==> w.verified == Some(ok))
            && (Action.Complete(l) in acts <==>
                  && w.ready && !w.agentRaises && w.verified == Some(true)
                  && ttl > w.waits(0) + w.waits(1) + w.waits(2))
            && (!stale && Action.Complete(l) !in acts ==> acts[|acts| - 1] == Fail(l))
  {
    hide ClaimHolds, PolledStatus, PolledExec, Story;
  }

  lemma NothingDone(start: System)
    ensures After(start, []) == start
  {
  }

  lemma BestIsRow(db: Db, m: Id, skills: set<Capability>, t: Id)
    requires BestClaim(db, m, skills, t)
    ensures t in db.tasks
  {
  }

  /**
   poll_once of a running worker that is not draining; the new rows' ids are given.  The claimed task runs through
   one session, and ends as PolledStatus says; `stale` means that StaleOwnershipError came out.
   */
  method PollOnce(c: WorkerCoordinator, l: Id, e: Id, now: int, w: World, ghost start: System)
    returns (claimed: Option<Id>, stale: bool, ghost acts: seq<Action>)
    requires start.db == c.store.Rows() && start.now == now && start.ttl == c.ttl
    requires l !in start.db.leases && e !in start.db.execs
    modifies c.store, c`currentLease
    ensures claimed.None? <==>
              c.missionId !in start.db.executing || !exists t :: Eligible(start.db, c.missionId, c.skills, t)
    ensures claimed.None? ==> acts == [] && !stale && c.currentLease == old(c.currentLease)
    ensures claimed.Some? ==>
              && BestClaim(start.db, c.missionId, c.skills, claimed.value) && c.currentLease == None
              && |acts| > 1 && acts[0] == Claim(c.missionId, c.skills, c.workerId, claimed.value, l, e)
              && (forall i | 0 < i < |acts| :: OfSession(acts[i], false))
              && l !in After(start, acts).sessions
    ensures After(start, acts).db == c.store.Rows()
    ensures claimed.Some? ==>
              Polled(start.db, c.store.Rows(), now, c.ttl, After(start, acts).now, c.workerId, claimed.value, e, l, w,
                     acts[1..], stale)
    ensures forall o :: RuntimeReturn(l, o) in acts <==> claimed.Some? && w.ready && o == w.outcome
    ensures forall ok :: VerifyReturn(l, ok) in acts ==> w.verified == Some(ok)
    ensures Action.Complete(l) in acts <==>
              && claimed.Some? && w.ready && !w.agentRaises && w.verified == Some(true)
              && c.ttl > w.waits(0) + w.waits(1) + w.waits(2)
    ensures claimed.Some? && !stale && Action.Complete(l) !in acts ==> acts[|acts| - 1] == Fail(l)
  {
    var read := c.store.Read();
    claimed := c.ClaimNextTask(read, now, l, e);
    hide *;
    ReadsOwnRows(read, c.missionId, c.skills);
    acts, stale := [], false;
    match claimed
    case None =>
      NothingDone(start);
    case Some(t) =>
      stale, acts := WorkOn(c, t, e, l, now, w, start);
  }

  /** The rest of a poll that has claimed t: its session, with the lease noted as the current one meanwhile. */
  method WorkOn(c: WorkerCoordinator, t: Id, e: Id, l: Id, now: int, w: World, ghost start: System)
    returns (stale: bool, ghost acts: seq<Action>)
    requires start.now == now && start.ttl == c.ttl && l !in start.db.leases && e !in start.db.execs
    requires BestClaim(start.db, c.missionId, c.skills, t)
    requires c.store.Rows() == ClaimRows(start.db, now, c.ttl, c.workerId, t, l, e)
    modifies c.store, c`currentLease
    ensures c.currentLease == None
    ensures |acts| > 1 && acts[0] == Claim(c.missionId, c.skills, c.workerId, t, l, e)
    ensures forall i | 0 < i < |acts| :: OfSession(acts[i], false)
    ensures l !in After(start, acts).sessions && After(start, acts).db == c.store.Rows()
    ensures Polled(start.db, c.store.Rows(), now, c.ttl, After(start, acts).now, c.workerId, t, e, l, w, acts[1..],
                   stale)
    ensures forall o :: RuntimeReturn(l, o) in acts <==> w.ready && o == w.outcome
    ensures forall ok :: VerifyReturn(l, ok) in acts ==> w.verified == Some(ok)
    ensures Action.Complete(l) in acts <==>
              && w.ready && !w.agentRaises && w.verified == Some(true)
              && c.ttl > w.waits(0) + w.waits(1) + w.waits(2)
    ensures !stale && Action.Complete(l) !in acts ==> acts[|acts| - 1] == Fail(l)
  {
    hide *;
    ghost var claim := Claim(c.missionId, c.skills, c.workerId, t, l, e);
    ghost var s := Next(start, claim);
    c.currentLease := Some(l);
    ClaimOpens(c, start, t, e, l);
    BestIsRow(start.db, c.missionId, c.skills, t);
    stale, acts := ExecuteClaimed(c, t, e, l, now, w, s);
    SessionRan(c, s, acts, l, stale);
    PollEnds(start.db, c.store.Rows(), now, c.ttl, After(s, acts).now, c.workerId, t, e, l, w, acts, stale);
    Prepend(start, claim, acts);
    PollTells(start.db, c.store.Rows(), now, c.ttl, After(s, acts).now, c.workerId, t, e, l, w, claim, acts, stale);
    acts := [claim] + acts;
    if c.currentLease == Some(l) {
      c.currentLease := None;
    }
  }

  lemma SessionRan(c: WorkerCoordinator, start: System, acts: seq<Action>, l: Id, stale: bool)
    requires Ended(c, start, acts, l, stale) && l in start.sessions
    ensures After(start, acts).db == c.store.Rows() && l !in After(start, acts).sessions && acts != []
    ensures forall i | 0 <= i < |acts| :: OfSession(acts[i], false)
  {
  }

  lemma {:induction false} Prepend(start: System, a: Action, acts: seq<Action>)
    ensures After(start, [a] + acts) == After(Next(start, a), acts)
  {
    hide Next;
    if acts == [] {
      assert [a] + acts == [a] && [a][..0] == [];
    } else {
      var front := acts[..|acts| - 1];
      Prepend(start, a, front);
      assert ([a] + acts)[..|acts|] == [a] + front;
    }
  }
}
