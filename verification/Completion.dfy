/**
 What becomes of a verified success.  The agent runtime writes the task's final status
 before the coordinator gets to complete it, so the coordinator's own completion works
 exactly when the runtime has written nothing.
 */
module Completion {
  import opened DagValidator
  import opened TaskStates
  import opened Tables
  import opened Protocol
  import opened Invariants
  import opened Exclusivity
  import opened LeaseTiming

  /** _complete_task goes through if and only if the agent left the task RUNNING. */
  lemma {:induction false} CompletesIff(now: int, ttl: int, acts: seq<Action>, l: Id)
    requires WithoutRecovery(acts) && At(After(Init(now, ttl), acts), l, Committing)
    ensures var s := After(Init(now, ttl), acts);
            && Known(s, l)
            && (Completes(s, Complete(l), l) <==> !s.sessions[l].wrote)
  {
    RunsKeepOwned(now, ttl, acts);
    RunsKeepInv(now, ttl, acts);
    var s := After(Init(now, ttl), acts);
    hide After;
    assert SessionOk(s, l);
    assert s.sessions.Keys <= s.db.leases.Keys;
    hide Inv, Owned;
  }

  /**
   An agent that reports success and passes verification and all three ownership checks still
   ends with its execution marked failed: completion raises, and _fail_task then marks the
   execution, while the task keeps the success the agent wrote and is not retried.
   */
  lemma {:induction false} VerifiedSuccessEndsFailed(now: int, ttl: int, acts: seq<Action>, l: Id)
    requires At(After(Init(now, ttl), acts), l, Committing)
    requires var s := After(Init(now, ttl), acts);
             l in s.db.leases && SucceededTask(s.db, s.db.leases[l].task)
    ensures var s := After(Init(now, ttl), acts);
            var s' := Next(Next(s, Complete(l)), Fail(l));
            var lease := s.db.leases[l];
            && SucceededTask(s'.db, lease.task)
            && lease.exec in s'.db.execs && s'.db.execs[lease.exec].status == ExecFailed
            && !Live(s'.db, s'.now, l) && l !in s'.sessions
  {
    RunsKeepInv(now, ttl, acts);
    var s := After(Init(now, ttl), acts);
    hide After;
    var lease := s.db.leases[l];
    assert lease.task in s.db.tasks && lease.exec in s.db.execs;
    hide Inv;
    assert Next(s, Complete(l)) == Goto(s, l, Failing);
  }

  predicate SucceededTask(db: Db, t: Id) {
    t in db.tasks && db.tasks[t].status == Succeeded
  }

  /** The action that brings session l to phase p, and what it finds when it does. */
  ghost predicate Enters(s: System, a: Action, l: Id, p: Phase) {
    var owned := l in s.db.leases && s.db.leases[l].expiresAt > s.now;
    match p
    case RuntimeDone => a.RuntimeReturn? && a.lease == l && At(s, l, Executing)
    case Verifying => a == AssertOwnership(l) && At(s, l, RuntimeDone) && owned
    case VerifiedOk => a == VerifyReturn(l, true) && At(s, l, Verifying)
    case VerifiedBad => a == VerifyReturn(l, false) && At(s, l, Verifying)
    case Completing => a == AssertOwnership(l) && At(s, l, VerifiedOk) && owned
    case Committing => a == AssertOwnership(l) && At(s, l, Completing) && owned
    case _ => true
  }

  lemma EntersNow(s: System, a: Action, l: Id, p: Phase)
    requires !At(s, l, p) && At(Next(s, a), l, p) && p != Executing && p != Failing
    ensures Enters(s, a, l, p)
  {
  }

  /** The step of a run that brought session l to the phase it is in. */
  lemma {:induction false} Entered(start: System, acts: seq<Action>, l: Id, p: Phase) returns (i: nat)
    requires l !in start.sessions && At(After(start, acts), l, p) && p != Executing && p != Failing
    ensures i < |acts| && Enters(After(start, acts[..i]), acts[i], l, p)
  {
    hide Enters, Next;
    assert acts != [];
    var front := acts[..|acts| - 1];
    if At(After(start, front), l, p) {
      i := Entered(start, front, l, p);
      assert front[..i] == acts[..i];
    } else {
      i := |acts| - 1;
      EntersNow(After(start, front), acts[i], l, p);
    }
  }

  lemma EntersFrom(s: System, a: Action, l: Id, p: Phase)
    requires Enters(s, a, l, p)
    ensures p == Committing ==> At(s, l, Completing)
    ensures p == Completing ==> At(s, l, VerifiedOk)
    ensures p == VerifiedOk ==> At(s, l, Verifying)
    ensures p == Verifying ==> At(s, l, RuntimeDone)
  {
  }

  /**
   In every run a session that is about to commit its completion has had its agent return, verification succeed, and
   its lease live at each of the three ownership checks, in this order.
   */
  lemma {:induction false} CommitFollowsChecks(now: int, ttl: int, acts: seq<Action>, l: Id)
    returns (ran: nat, first: nat, verified: nat, second: nat, third: nat)
    requires At(After(Init(now, ttl), acts), l, Committing)
    ensures ran < first < verified < second < third < |acts|
    ensures acts[ran].RuntimeReturn? && acts[ran].lease == l && acts[verified] == VerifyReturn(l, true)
    ensures forall i | i in {first, second, third} ::
              && acts[i] == AssertOwnership(l)
              && var s := After(Init(now, ttl), acts[..i]);
                 l in s.db.leases && s.db.leases[l].expiresAt > s.now
    ensures At(After(Init(now, ttl), acts[..verified]), l, Verifying)
  {
    var start := Init(now, ttl);
    hide After, Enters;
    third := Entered(start, acts, l, Committing);
    EntersFrom(After(start, acts[..third]), acts[third], l, Committing);
    second := Entered(start, acts[..third], l, Completing);
    assert acts[..third][..second] == acts[..second];
    EntersFrom(After(start, acts[..second]), acts[second], l, Completing);
    verified := Entered(start, acts[..second], l, VerifiedOk);
    assert acts[..second][..verified] == acts[..verified];
    EntersFrom(After(start, acts[..verified]), acts[verified], l, VerifiedOk);
    first := Entered(start, acts[..verified], l, Verifying);
    assert acts[..verified][..first] == acts[..first];
    EntersFrom(After(start, acts[..first]), acts[first], l, Verifying);
    ran := Entered(start, acts[..first], l, RuntimeDone);
    assert acts[..first][..ran] == acts[..ran];
    EnteredBy(start, acts, l, ran, first, verified, second, third);
  }

  lemma EnteredBy(start: System, acts: seq<Action>, l: Id, ran: nat, first: nat, verified: nat, second: nat, third: nat)
    requires ran < first < verified < second < third < |acts|
    requires Enters(After(start, acts[..ran]), acts[ran], l, RuntimeDone)
    requires Enters(After(start, acts[..first]), acts[first], l, Verifying)
    requires Enters(After(start, acts[..verified]), acts[verified], l, VerifiedOk)
    requires Enters(After(start, acts[..second]), acts[second], l, Completing)
    requires Enters(After(start, acts[..third]), acts[third], l, Committing)
    ensures acts[ran].RuntimeReturn? && acts[ran].lease == l && acts[verified] == VerifyReturn(l, true)
    ensures At(After(start, acts[..verified]), l, Verifying)
    ensures forall i | i in {first, second, third} ::
              && acts[i] == AssertOwnership(l)
              && var s := After(start, acts[..i]); l in s.db.leases && s.db.leases[l].expiresAt > s.now
  {
    hide After;
  }
}
