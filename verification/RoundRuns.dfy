/** The rounds that `Rounds` counts are runs of the protocol: passes, claims and agents' verdicts. */
module RoundRuns {
  import opened Graph
  import opened DagValidator
  import opened Wrappers
  import opened TaskStates
  import opened Tables
  import opened Scheduler
  import opened Protocol
  import opened Passes
  import opened Rounds

  /** Alike in everything that scheduling and claiming depend on: who claimed a task, and how often, it does not. */
  ghost predicate Alike(a: Db, b: Db) {
    && a.executing == b.executing && a.deps == b.deps && a.tasks.Keys == b.tasks.Keys
    && forall t | t in a.tasks ::
         && a.tasks[t].mission == b.tasks[t].mission && a.tasks[t].taskType == b.tasks[t].taskType
         && a.tasks[t].status == b.tasks[t].status
  }

  // --------------------------------------------------------- passes over alike rows

  lemma {:induction false} ScanAlike(parents: seq<Id>, a: Db, b: Db, m: Id)
    requires Alike(a, b)
    ensures Scan(parents, a.tasks, m) == Scan(parents, b.tasks, m)
  {
    if parents != [] {
      ScanAlike(parents[1..], a, b, m);
    }
  }

  lemma {:induction false} PassAlike(a: Db, b: Db, m: Id)
    requires Alike(a, b)
    ensures Alike(SchedulePass(a, m), SchedulePass(b, m))
  {
    forall t | t in a.tasks ensures ScheduledStatus(a, t) == ScheduledStatus(b, t) {
      ScanAlike(Parents(a.deps, t), a, b, a.tasks[t].mission);
      hide Scan;
    }
    hide ScheduledStatus;
  }

  lemma FinishAlike(a: Db, b: Db, m: Id)
    requires Alike(a, b)
    ensures Alike(FinishQueued(a, m), FinishQueued(b, m))
  {
  }

  // ------------------------------------------------------------- one claimed success

  function AllSkills(): set<Capability> {
    {CodingSkill, TestingSkill, SecuritySkill, DocumentationSkill, ResearchSkill}
  }

  /** Every queued task of the mission has its parents behind it, as after any pass over an idle mission. */
  ghost predicate Claimable(db: Db, m: Id) {
    && m in db.executing
    && forall t | InMission(db.tasks, m, t) && db.tasks[t].status == Queued :: Eligible(db, m, AllSkills(), t)
  }

  ghost function QueuedOf(db: Db, m: Id): set<Id> {
    set t | t in db.tasks && db.tasks[t].mission == m && db.tasks[t].status == Queued
  }

  /** Among finitely many tasks one comes first. */
  lemma {:induction false} FirstOf(tasks: map<Id, TaskRow>, some: set<Id>) returns (t: Id)
    requires some != {} && some <= tasks.Keys
    ensures t in some && forall u | u in some :: NoLater(tasks[t], tasks[u])
  {
    var x :| x in some;
    if some == {x} {
      t := x;
    } else {
      assert some == {x} + (some - {x});
      var y := FirstOf(tasks, some - {x});
      t := if NoLater(tasks[x], tasks[y]) then x else y;
    }
  }

  lemma {:induction false} FreshId(used: set<Id>) returns (x: Id)
    ensures x !in used
  {
    x := Above(used);
  }

  lemma {:induction false} Above(used: set<Id>) returns (bound: Id)
    ensures forall u | u in used :: u < bound
  {
    if used == {} {
      bound := 0;
    } else {
      var u: Id :| u in used;
      var rest := Above(used - {u});
      bound := if u < rest then rest else u + 1;
      assert forall v | v in used :: v == u || v in used - {u};
    }
  }

  /** A queued task is claimed, and its agent succeeds. */
  lemma {:induction false} ClaimAndSucceed(s: System, m: Id) returns (acts: seq<Action>, t: Id)
    requires Claimable(s.db, m) && QueuedOf(s.db, m) != {}
    ensures t in QueuedOf(s.db, m)
    ensures Alike(After(s, acts).db, SetStatus(s.db, t, Succeeded))
    ensures |acts| == 2 && acts[0].Claim? && acts[0].task == t
    ensures acts[1] == RuntimeReturn(acts[0].lease, RuntimeSucceeded)
  {
    t := FirstOf(s.db.tasks, QueuedOf(s.db, m));
    var l := FreshId(s.db.leases.Keys + s.db.execs.Keys);
    var claim := Claim(m, AllSkills(), 0, t, l, l);
    acts := [claim, RuntimeReturn(l, RuntimeSucceeded)];
    assert Claims(s, claim) by {
      assert forall u | u in s.db.tasks && Eligible(s.db, m, AllSkills(), u) :: u in QueuedOf(s.db, m);
    }
    assert acts[..1] == [claim] && acts[..1][..0] == [];
    var s1 := ClaimStep(s, claim);
    assert After(s, acts[..1]) == s1;
    hide Claims, BestClaim, Eligible, QueuedOf, After;
    SucceedNow(s, s1, claim);
  }

  lemma SucceedNow(s: System, s1: System, claim: Action)
    requires claim.Claim? && Claims(s, claim) && s1 == ClaimStep(s, claim)
    ensures claim.task in s.db.tasks
    ensures Alike(Next(s1, RuntimeReturn(claim.lease, RuntimeSucceeded)).db, SetStatus(s.db, claim.task, Succeeded))
  {
    assert Known(s1, claim.lease) && At(s1, claim.lease, Executing);
  }

  /** A success takes one task out of the queue and leaves the others as claimable as they were. */
  lemma {:induction false} SuccessKeepsClaimable(db: Db, after: Db, m: Id, t: Id)
    requires Claimable(db, m) && t in QueuedOf(db, m) && Alike(after, SetStatus(db, t, Succeeded))
    ensures Claimable(after, m) && QueuedOf(after, m) == QueuedOf(db, m) - {t}
  {
    forall u | InMission(after.tasks, m, u) && after.tasks[u].status == Queued
      ensures Eligible(after, m, AllSkills(), u)
    {
      assert Eligible(db, m, AllSkills(), u);
      forall d | d in after.deps && d.task == u ensures HasSucceeded(after.tasks, m, d.dependsOn) {
        assert HasSucceeded(db.tasks, m, d.dependsOn);
      }
    }
  }

  // --------------------------------------------------------------- everything queued

  lemma {:induction false} AfterBoth(s: System, first: seq<Action>, next: seq<Action>)
    ensures After(s, first + next) == After(After(s, first), next)
  {
    hide Next;
    if next == [] {
      assert first + next == first;
    } else {
      AfterBoth(s, first, next[..|next| - 1]);
      assert (first + next)[..|first + next| - 1] == first + next[..|next| - 1];
    }
  }

  lemma AlikeTrans(a: Db, b: Db, c: Db)
    requires Alike(a, b) && Alike(b, c)
    ensures Alike(a, c)
  {
  }

  lemma FinishOneFirst(db: Db, m: Id, t: Id)
    requires t in QueuedOf(db, m)
    ensures Alike(FinishQueued(SetStatus(db, t, Succeeded), m), FinishQueued(db, m))
  {
  }

  lemma NothingToFinish(db: Db, m: Id)
    requires QueuedOf(db, m) == {}
    ensures Alike(db, FinishQueued(db, m))
  {
    forall t | t in db.tasks ensures !(db.tasks[t].mission == m && db.tasks[t].status == Queued) {
      assert t !in QueuedOf(db, m);
    }
  }

  /** "Everything in the queue is claimed and succeeds" is a run of claims and agents' verdicts. */
  lemma {:induction false} FinishIsRun(s: System, m: Id) returns (acts: seq<Action>)
    requires Claimable(s.db, m)
    ensures Alike(After(s, acts).db, FinishQueued(s.db, m))
    ensures forall i | 0 <= i < |acts| :: acts[i].Claim? || acts[i].RuntimeReturn?
    decreases |QueuedOf(s.db, m)|
  {
    if QueuedOf(s.db, m) == {} {
      acts := [];
      NothingToFinish(s.db, m);
    } else {
      var first, t := ClaimAndSucceed(s, m);
      var s' := After(s, first);
      SuccessKeepsClaimable(s.db, s'.db, m, t);
      Fewer(QueuedOf(s.db, m), t);
      hide Claimable, QueuedOf, Alike, FinishQueued, SetStatus, After;
      var rest := FinishIsRun(s', m);
      acts := first + rest;
      AfterBoth(s, first, rest);
      assert t in s.db.tasks by { InQueue(s.db, m, t); }
      FinishAlike(s'.db, SetStatus(s.db, t, Succeeded), m);
      FinishOneFirst(s.db, m, t);
      AlikeTrans(FinishQueued(s'.db, m), FinishQueued(SetStatus(s.db, t, Succeeded), m), FinishQueued(s.db, m));
      AlikeTrans(After(s, acts).db, FinishQueued(s'.db, m), FinishQueued(s.db, m));
    }
  }

  lemma InQueue(db: Db, m: Id, t: Id)
    requires t in QueuedOf(db, m)
    ensures t in db.tasks
  {
  }

  lemma Fewer(some: set<Id>, t: Id)
    requires t in some
    ensures |some - {t}| < |some|
  {
  }

  // ----------------------------------------------------------------------- rounds

  /** After a pass over an idle mission, what is queued can be claimed. */
  lemma {:induction false} PassIsClaimable(db: Db, m: Id)
    requires Idle(db, m)
    ensures Claimable(SchedulePass(db, m), m)
  {
    var after := SchedulePass(db, m);
    forall t | InMission(after.tasks, m, t) && after.tasks[t].status == Queued
      ensures Eligible(after, m, AllSkills(), t)
    {
      assert InMission(db.tasks, m, t);
      QueuedIff(db, m, t);
      assert ParentsSucceeded(db, t);
      forall d | d in after.deps && d.task == t ensures HasSucceeded(after.tasks, m, d.dependsOn) {
        assert Dep(t, d.dependsOn) in db.deps;
        assert HasSucceeded(db.tasks, m, d.dependsOn);
      }
      hide ScheduledStatus;
    }
  }

  lemma {:induction false} Listed(some: set<Id>) returns (ids: seq<Id>)
    ensures Distinct(ids) && forall t :: t in ids <==> t in some
  {
    if some == {} {
      ids := [];
    } else {
      var t: Id :| t in some;
      ids := Listed(some - {t});
      ids := ids + [t];
      assert forall u :: u in some <==> u == t || u in some - {t};
    }
  }

  /** One round is a run: the updates of a pass, then claims and verdicts. */
  lemma {:induction false} RoundIsRun(s: System, m: Id) returns (acts: seq<Action>)
    requires Idle(s.db, m)
    ensures Alike(After(s, acts).db, Round(s.db, m))
  {
    var ids := Listed(set t | t in s.db.tasks && s.db.tasks[t].mission == m);
    assert forall t :: t in ids <==> InMission(s.db.tasks, m, t);
    assert forall t | t in ids :: t in s.db.tasks;
    PassIsClaimable(s.db, m);
    assert m in s.db.executing;
    hide Claimable, SchedulePass, After, Idle, Alike;
    PassIsRun(s, m, ids);
    var s' := s.(db := SchedulePass(s.db, m));
    var rest := FinishIsRun(s', m);
    acts := Updates(s.db, ids) + rest;
    AfterBoth(s, Updates(s.db, ids), rest);
  }

  lemma IdleAlike(a: Db, b: Db, m: Id)
    requires Alike(a, b) && Idle(b, m)
    ensures Idle(a, m)
  {
    assert forall t :: InMission(a.tasks, m, t) <==> InMission(b.tasks, m, t);
  }

  lemma RoundAlike(a: Db, b: Db, m: Id)
    requires Alike(a, b)
    ensures Alike(Round(a, m), Round(b, m))
  {
    hide Alike, SchedulePass, FinishQueued;
    PassAlike(a, b, m);
    FinishAlike(SchedulePass(a, m), SchedulePass(b, m), m);
  }

  lemma AlikeRefl(db: Db)
    ensures Alike(db, db)
  {
  }

  /** Any number of rounds is a run of the protocol. */
  lemma {:induction false} RoundsAreRuns(s: System, m: Id, k: nat) returns (acts: seq<Action>)
    requires Idle(s.db, m)
    ensures Alike(After(s, acts).db, AfterRounds(s.db, m, k))
  {
    if k == 0 {
      acts := [];
      AlikeRefl(s.db);
    } else {
      hide Alike, Idle, Round, After;
      var first := RoundsAreRuns(s, m, k - 1);
      var s' := After(s, first);
      RoundsKeepIdle(s.db, m, k - 1);
      IdleAlike(s'.db, AfterRounds(s.db, m, k - 1), m);
      var last := RoundIsRun(s', m);
      acts := first + last;
      AfterBoth(s, first, last);
      RoundAlike(s'.db, AfterRounds(s.db, m, k - 1), m);
      AlikeTrans(After(s, acts).db, Round(s'.db, m), AfterRounds(s.db, m, k));
    }
  }

  lemma DoneAlike(a: Db, b: Db, m: Id)
    requires Alike(a, b) && AllDone(b, m)
    ensures AllDone(a, m)
  {
    assert forall t :: InMission(a.tasks, m, t) <==> InMission(b.tasks, m, t);
  }

  /** An idle mission whose own dependencies have no cycle can be run to the success of all its tasks. */
  lemma {:induction false} AcyclicMissionCanFinish(s: System, m: Id) returns (acts: seq<Action>)
    requires Idle(s.db, m) && (forall u | InMission(s.db.tasks, m, u) :: s.db.tasks[u].status != Succeeded)
    requires !Cyclic(Edges(MissionDeps(s.db.deps, s.db.tasks, m)))
    ensures AllDone(After(s, acts).db, m)
  {
    DoneIffAcyclic(s.db, m);
    var k: nat :| AllDone(AfterRounds(s.db, m, k), m);
    hide Idle, AllDone, AfterRounds, After, Alike;
    acts := RoundsAreRuns(s, m, k);
    DoneAlike(After(s, acts).db, AfterRounds(s.db, m, k), m);
  }
}
