/**
 Progress of the scheduler: an acyclic mission never gets stuck, and takes exactly as many
 rounds as its longest dependency chain has tasks.
 */
module Rounds {
  import opened Graph
  import opened DagValidator
  import opened TaskStates
  import opened Tables
  import opened Scheduler

  /** The mission is executing, all parents lie in it, and no task is under way or has failed. */
  ghost predicate Idle(db: Db, m: Id) {
    && m in db.executing
    && (forall d | d in db.deps && InMission(db.tasks, m, d.task) :: InMission(db.tasks, m, d.dependsOn))
    && (forall t | InMission(db.tasks, m, t) :: db.tasks[t].status in {Pending, Blocked, Succeeded})
  }

  ghost predicate AllDone(db: Db, m: Id) {
    forall t | InMission(db.tasks, m, t) :: db.tasks[t].status == Succeeded
  }

  /** Everything in the queue is claimed and succeeds. */
  function FinishQueued(db: Db, m: Id): Db {
    db.(tasks := map t | t in db.tasks ::
          if db.tasks[t].mission == m && db.tasks[t].status == Queued
          then db.tasks[t].(status := Succeeded) else db.tasks[t])
  }

  /** Schedule, then finish everything queued. */
  function Round(db: Db, m: Id): Db {
    FinishQueued(SchedulePass(db, m), m)
  }

  function AfterRounds(db: Db, m: Id, k: nat): Db {
    if k == 0 then db else Round(AfterRounds(db, m, k - 1), m)
  }

  /** A chain of dependencies whose last task is t. */
  ghost predicate ChainInto(db: Db, chain: seq<Id>, t: Id) {
    IsWalk(Edges(db.deps), chain) && chain[|chain| - 1] == t
  }

  /** No chain into t has more than k tasks. */
  ghost predicate ChainsWithin(db: Db, t: Id, k: nat) {
    forall chain | ChainInto(db, chain, t) :: |chain| <= k
  }

  // -------------------------------------------------------------------- no deadlock

  /** t is still to do, and some parent keeps it from being queued. */
  ghost predicate Stuck(db: Db, m: Id, t: Id) {
    InMission(db.tasks, m, t) && db.tasks[t].status in {Pending, Blocked} && !ParentsSucceeded(db, t)
  }

  /** If every unfinished task is stuck, chains of unfinished tasks of any length lead into each of them. */
  lemma {:induction false} StuckChain(db: Db, m: Id, t: Id, n: nat) returns (chain: seq<Id>)
    requires Idle(db, m) && Stuck(db, m, t)
    requires forall u | InMission(db.tasks, m, u) && db.tasks[u].status != Succeeded :: Stuck(db, m, u)
    ensures ChainInto(db, chain, t) && |chain| == n + 1 && forall x | x in chain :: x in db.tasks
    decreases n
  {
    if n == 0 {
      chain := [t];
    } else {
      var p: Id :| Dep(t, p) in db.deps && !HasSucceeded(db.tasks, m, p);
      assert InMission(db.tasks, m, p);
      var rest := StuckChain(db, m, p, n - 1);
      assert (p, t) in Edges(db.deps) by { assert Dep(t, p) in db.deps; }
      ExtendWalk(Edges(db.deps), rest, t);
      chain := rest + [t];
    }
  }

  /** The same rows with only the dependencies that schedule_ready_tasks loads for the mission. */
  function Slice(db: Db, m: Id): Db {
    db.(deps := MissionDeps(db.deps, db.tasks, m))
  }

  /** A pass over the mission sees nothing but the slice. */
  lemma {:induction false} SliceSchedules(db: Db, m: Id)
    ensures SchedulePass(Slice(db, m), m).tasks == SchedulePass(db, m).tasks
  {
    hide ScheduledStatus, MissionDeps;
    forall t | InMission(db.tasks, m, t) ensures ScheduledStatus(Slice(db, m), t) == ScheduledStatus(db, t) {
      SliceStatus(db, m, t);
    }
  }

  lemma SliceStatus(db: Db, m: Id, t: Id)
    requires InMission(db.tasks, m, t)
    ensures ScheduledStatus(Slice(db, m), t) == ScheduledStatus(db, t)
  {
    ParentsOfSlice(db.deps, db.tasks, m, t);
    hide MissionDeps, Parents, Scan;
  }

  lemma SliceStaysIdle(db: Db, m: Id)
    requires Idle(db, m)
    ensures Idle(Slice(db, m), m)
  {
  }

  /** While something is left to do, one pass puts at least one task in the queue. */
  lemma {:induction false} NoDeadlock(db: Db, m: Id)
    requires Idle(db, m) && !Cyclic(Edges(MissionDeps(db.deps, db.tasks, m))) && !AllDone(db, m)
    ensures exists t :: InMission(db.tasks, m, t) && t in SchedulePass(db, m).tasks
                        && db.tasks[t].status != Queued && SchedulePass(db, m).tasks[t].status == Queued
  {
    SliceSchedules(db, m);
    SliceStaysIdle(db, m);
    hide SchedulePass;
    NoDeadlockInSlice(Slice(db, m), m);
  }

  lemma {:induction false} NoDeadlockInSlice(db: Db, m: Id)
    requires Idle(db, m) && !Cyclic(Edges(db.deps)) && !AllDone(db, m)
    ensures exists t :: InMission(db.tasks, m, t) && t in SchedulePass(db, m).tasks
                        && db.tasks[t].status != Queued && SchedulePass(db, m).tasks[t].status == Queued
  {
    var t0 :| InMission(db.tasks, m, t0) && db.tasks[t0].status != Succeeded;
    if forall u | InMission(db.tasks, m, u) && db.tasks[u].status != Succeeded :: Stuck(db, m, u) {
      var chain := StuckChain(db, m, t0, |db.tasks.Keys|);
      AcyclicWalkFits(Edges(db.deps), chain, db.tasks.Keys);
    } else {
      var t :| InMission(db.tasks, m, t) && db.tasks[t].status != Succeeded && !Stuck(db, m, t);
      QueuedIff(db, m, t);
    }
  }

  // --------------------------------------------------------------- counting the rounds

  /** One round succeeds exactly the tasks all of whose parents have succeeded already. */
  lemma {:induction false} RoundStep(db: Db, m: Id, t: Id)
    requires Idle(db, m) && InMission(db.tasks, m, t)
    ensures InMission(Round(db, m).tasks, m, t)
    ensures Round(db, m).tasks[t].status
            == if db.tasks[t].status == Succeeded || ParentsSucceeded(db, t) then Succeeded else db.tasks[t].status
  {
    QueuedIff(db, m, t);
    var s := SchedulePass(db, m).tasks[t].status;
    if s == Blocked && db.tasks[t].status != Blocked {
      BlockedHasBadParent(db, m, t);
      assert false;
    }
  }

  lemma {:induction false} RoundKeepsIdle(db: Db, m: Id)
    requires Idle(db, m)
    ensures Idle(Round(db, m), m) && Round(db, m).deps == db.deps
    ensures forall t :: InMission(Round(db, m).tasks, m, t) <==> InMission(db.tasks, m, t)
  {
    forall t | InMission(db.tasks, m, t)
      ensures InMission(Round(db, m).tasks, m, t) && Round(db, m).tasks[t].status in {Pending, Blocked, Succeeded}
    {
      RoundStep(db, m, t);
    }
  }

  lemma {:induction false} RoundsKeepIdle(db: Db, m: Id, k: nat)
    requires Idle(db, m)
    ensures Idle(AfterRounds(db, m, k), m) && AfterRounds(db, m, k).deps == db.deps
    ensures forall t :: InMission(AfterRounds(db, m, k).tasks, m, t) <==> InMission(db.tasks, m, t)
  {
    if k > 0 {
      RoundsKeepIdle(db, m, k - 1);
      RoundKeepsIdle(AfterRounds(db, m, k - 1), m);
      hide Idle, Round;
    }
  }

  /** Chains into a task are chains into its parents, one task longer. */
  lemma {:induction false} ChainsThroughParents(db: Db, t: Id, k: nat)
    ensures ChainsWithin(db, t, k + 1) <==> forall p | Dep(t, p) in db.deps :: ChainsWithin(db, p, k)
  {
    if ChainsWithin(db, t, k + 1) {
      forall p: Id, chain | Dep(t, p) in db.deps && ChainInto(db, chain, p) ensures |chain| <= k {
        assert (p, t) in Edges(db.deps) by { assert Dep(t, p) in db.deps; }
        ExtendWalk(Edges(db.deps), chain, t);
        assert ChainInto(db, chain + [t], t);
      }
    }
    if forall p | Dep(t, p) in db.deps :: ChainsWithin(db, p, k) {
      forall chain | ChainInto(db, chain, t) ensures |chain| <= k + 1 {
        if |chain| > 1 {
          var p := chain[|chain| - 2];
          assert (p, chain[|chain| - 1]) in Edges(db.deps);
          assert Dep(t, p) in db.deps;
          SubWalk(Edges(db.deps), chain, 0, |chain| - 1);
          assert ChainInto(db, chain[0..|chain| - 1], p);
        }
      }
    }
  }

  lemma ChainsGrow(db: Db, t: Id, k: nat)
    requires ChainsWithin(db, t, k)
    ensures ChainsWithin(db, t, k + 1)
  {
  }

  /** From no successes: after k rounds, exactly the tasks with no chain longer than k have succeeded. */
  lemma {:induction false} SucceededAfterRounds(db: Db, m: Id, k: nat, t: Id)
    requires Idle(db, m) && (forall u | InMission(db.tasks, m, u) :: db.tasks[u].status != Succeeded)
    requires InMission(db.tasks, m, t)
    ensures InMission(AfterRounds(db, m, k).tasks, m, t)
    ensures AfterRounds(db, m, k).tasks[t].status == Succeeded <==> ChainsWithin(db, t, k)
    decreases k
  {
    hide Idle, Round, ChainsWithin, ParentsSucceeded;
    RoundsKeepIdle(db, m, k);
    if k == 0 {
      NoEmptyChain(db, t);
    } else {
      var prev := AfterRounds(db, m, k - 1);
      RoundsKeepIdle(db, m, k - 1);
      SucceededAfterRounds(db, m, k - 1, t);
      RoundStep(prev, m, t);
      forall p: Id | Dep(t, p) in db.deps
        ensures HasSucceeded(prev.tasks, m, p) <==> ChainsWithin(db, p, k - 1)
      {
        ParentInMission(db, m, t, p);
        SucceededAfterRounds(db, m, k - 1, p);
      }
      ParentsMeanChains(db, prev, t, m, k - 1);
      if ChainsWithin(db, t, k - 1) { ChainsGrow(db, t, k - 1); }
    }
  }

  lemma NoEmptyChain(db: Db, t: Id)
    ensures !ChainsWithin(db, t, 0)
  {
    assert ChainInto(db, [t], t);
  }

  lemma ParentInMission(db: Db, m: Id, t: Id, p: Id)
    requires Idle(db, m) && InMission(db.tasks, m, t) && Dep(t, p) in db.deps
    ensures InMission(db.tasks, m, p)
  {
  }

  lemma ParentsMeanChains(db: Db, prev: Db, t: Id, m: Id, k: nat)
    requires InMission(prev.tasks, m, t) && prev.deps == db.deps
    requires forall p | Dep(t, p) in db.deps :: HasSucceeded(prev.tasks, m, p) <==> ChainsWithin(db, p, k)
    ensures ParentsSucceeded(prev, t) <==> ChainsWithin(db, t, k + 1)
  {
    ChainsThroughParents(db, t, k);
    hide ChainsWithin;
  }

  /**
   The mission is done after k rounds if and only if no dependency chain of its tasks has
   more than k tasks.
   */
  lemma {:induction false} RoundsAreLongestChain(db: Db, m: Id, k: nat)
    requires Idle(db, m) && (forall u | InMission(db.tasks, m, u) :: db.tasks[u].status != Succeeded)
    ensures AllDone(AfterRounds(db, m, k), m) <==> forall t | InMission(db.tasks, m, t) :: ChainsWithin(db, t, k)
  {
    RoundsKeepIdle(db, m, k);
    forall t | InMission(db.tasks, m, t)
      ensures InMission(AfterRounds(db, m, k).tasks, m, t)
      ensures AfterRounds(db, m, k).tasks[t].status == Succeeded <==> ChainsWithin(db, t, k)
    {
      SucceededAfterRounds(db, m, k, t);
    }
    hide Idle, AfterRounds, ChainsWithin;
  }

  lemma {:induction false} SameSlice(deps: seq<Dep>, a: map<Id, TaskRow>, b: map<Id, TaskRow>, m: Id)
    requires forall t :: InMission(a, m, t) <==> InMission(b, m, t)
    ensures MissionDeps(deps, a, m) == MissionDeps(deps, b, m)
  {
    if deps != [] {
      SameSlice(deps[1..], a, b, m);
      assert InMission(a, m, deps[0].task) <==> InMission(b, m, deps[0].task);
    }
  }

  lemma {:induction false} RoundsOfSlice(db: Db, m: Id, k: nat)
    requires Idle(db, m)
    ensures AfterRounds(Slice(db, m), m, k) == Slice(AfterRounds(db, m, k), m)
  {
    if k > 0 {
      var prev := AfterRounds(db, m, k - 1);
      RoundsOfSlice(db, m, k - 1);
      RoundsKeepIdle(db, m, k - 1);
      SliceSchedules(prev, m);
      RoundKeepsIdle(prev, m);
      SameSlice(db.deps, prev.tasks, Round(prev, m).tasks, m);
      hide SchedulePass, MissionDeps, Idle;
      RoundOfSlice(prev, m);
    }
  }

  lemma RoundOfSlice(db: Db, m: Id)
    requires SchedulePass(Slice(db, m), m).tasks == SchedulePass(db, m).tasks
    requires Round(db, m).deps == db.deps
    requires MissionDeps(db.deps, db.tasks, m) == MissionDeps(db.deps, Round(db, m).tasks, m)
    ensures Round(Slice(db, m), m) == Slice(Round(db, m), m)
  {
    hide MissionDeps, ScheduledStatus;
  }

  lemma {:induction false} DoneTogether(db: Db, m: Id, k: nat)
    requires Idle(db, m)
    ensures AllDone(AfterRounds(db, m, k), m) <==> AllDone(AfterRounds(Slice(db, m), m, k), m)
  {
    hide AllDone, Idle, AfterRounds;
    RoundsOfSlice(db, m, k);
    SliceDone(AfterRounds(db, m, k), m);
  }

  /** The mission is done after some number of rounds. */
  ghost predicate EverDone(db: Db, m: Id) {
    exists k: nat :: AllDone(AfterRounds(db, m, k), m)
  }

  lemma EverDoneTogether(db: Db, m: Id)
    requires Idle(db, m)
    ensures EverDone(db, m) <==> EverDone(Slice(db, m), m)
  {
    hide AllDone, Idle, AfterRounds, Slice;
    if EverDone(db, m) {
      var k: nat :| AllDone(AfterRounds(db, m, k), m);
      DoneTogether(db, m, k);
    }
    if EverDone(Slice(db, m), m) {
      var k: nat :| AllDone(AfterRounds(Slice(db, m), m, k), m);
      DoneTogether(db, m, k);
    }
  }

  /**
   An acyclic mission is done after at most as many rounds as there are tasks; one with a cycle is never done.
   What other missions depend on does not matter.
   */
  lemma {:induction false} DoneIffAcyclic(db: Db, m: Id)
    requires Idle(db, m) && (forall u | InMission(db.tasks, m, u) :: db.tasks[u].status != Succeeded)
    ensures !Cyclic(Edges(MissionDeps(db.deps, db.tasks, m))) <==> EverDone(db, m)
  {
    SliceStaysIdle(db, m);
    EverDoneTogether(db, m);
    hide EverDone, Idle;
    DoneIffSliceAcyclic(Slice(db, m), m);
  }

  lemma SliceDone(db: Db, m: Id)
    ensures AllDone(Slice(db, m), m) <==> AllDone(db, m)
  {
  }

  lemma {:induction false} DoneIffSliceAcyclic(db: Db, m: Id)
    requires Idle(db, m) && (forall u | InMission(db.tasks, m, u) :: db.tasks[u].status != Succeeded)
    requires forall d | d in db.deps :: InMission(db.tasks, m, d.task)
    ensures !Cyclic(Edges(db.deps)) <==> EverDone(db, m)
  {
    if !Cyclic(Edges(db.deps)) {
      var n := |db.tasks.Keys|;
      forall t, chain | InMission(db.tasks, m, t) && ChainInto(db, chain, t) ensures |chain| <= n {
        ChainStaysInMission(db, m, chain);
        AcyclicWalkFits(Edges(db.deps), chain, db.tasks.Keys);
      }
      RoundsAreLongestChain(db, m, n);
    } else if k: nat :| AllDone(AfterRounds(db, m, k), m) {
      RoundsAreLongestChain(db, m, k);
      var t, chain := CycleGivesChain(db, m, k + 1);
    }
  }

  lemma {:induction false} ChainStaysInMission(db: Db, m: Id, chain: seq<Id>)
    requires Idle(db, m) && IsWalk(Edges(db.deps), chain) && InMission(db.tasks, m, chain[|chain| - 1])
    requires forall d | d in db.deps :: InMission(db.tasks, m, d.task)
    ensures forall x | x in chain :: x in db.tasks
  {
    forall i | 0 <= i < |chain| - 1 ensures chain[i] in db.tasks {
      assert (chain[i], chain[i + 1]) in Edges(db.deps);
      var d :| d in db.deps && (d.dependsOn, d.task) == (chain[i], chain[i + 1]);
      assert InMission(db.tasks, m, d.dependsOn);
    }
  }

  /** Going round a cycle gives chains of any length. */
  lemma {:induction false} CycleGivesChain(db: Db, m: Id, n: nat) returns (t: Id, chain: seq<Id>)
    requires Cyclic(Edges(db.deps)) && n >= 1
    requires forall d | d in db.deps :: InMission(db.tasks, m, d.task)
    ensures InMission(db.tasks, m, t) && ChainInto(db, chain, t) && |chain| >= n
    decreases n
  {
    var w: seq<Id> :| |w| >= 2 && IsWalk(Edges(db.deps), w) && w[0] == w[|w| - 1];
    assert (w[|w| - 2], w[|w| - 1]) in Edges(db.deps);
    t, chain := w[0], w;
    while |chain| < n
      invariant ChainInto(db, chain, t)
      decreases n - |chain|
    {
      chain := GoRound(db, chain, w);
    }
  }

  lemma {:induction false} GoRound(db: Db, chain: seq<Id>, w: seq<Id>) returns (longer: seq<Id>)
    requires |w| >= 2 && IsWalk(Edges(db.deps), w) && ChainInto(db, chain, w[0])
    ensures ChainInto(db, longer, w[|w| - 1]) && |longer| > |chain|
  {
    longer := chain + w[1..];
    forall i | 0 <= i < |longer| - 1 ensures (longer[i], longer[i + 1]) in Edges(db.deps) {
      if i < |chain| - 1 {
        assert (chain[i], chain[i + 1]) in Edges(db.deps);
      } else {
        var j := i - |chain| + 1;
        assert (w[j], w[j + 1]) in Edges(db.deps);
      }
    }
  }
}
