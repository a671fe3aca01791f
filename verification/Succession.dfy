/**
 What a worker's writes land on.  A worker that lost its lease can still complete, fail or let its agent
 write the task; over all runs, recovery included, its write lands on a successor's attempt exactly when
 the task has been claimed again.
 */
module Succession {
  import opened DagValidator
  import opened TaskStates
  import opened Tables
  import opened Protocol
  import opened Invariants
  import opened Exclusivity
  import opened Lifecycle
  import opened LeaseTiming

  /** The task of lease l is claimed again. */
  predicate Supersedes(s: System, a: Action, l: Id) {
    l in s.db.leases && Claims(s, a) && a.task == s.db.leases[l].task
  }

  /** Some claim of the task has followed the claim of lease l. */
  ghost predicate Superseded(start: System, acts: seq<Action>, l: Id) {
    acts != [] &&
    var front, a := acts[..|acts| - 1], acts[|acts| - 1];
    Superseded(start, front, l) || Supersedes(After(start, front), a, l)
  }

  lemma {:induction false} QuietLatestIff(s: System, s': System, l: Id)
    requires Quiet(s, s') && LeasesOk(s) && l in s.db.leases
    ensures l in s'.db.leases && (HoldsLatest(s'.db, l) <==> HoldsLatest(s.db, l))
  {
  }

  lemma {:induction false} ClaimLatestIff(s: System, a: Action, l: Id)
    requires Inv(s) && Claims(s, a) && l in s.db.leases
    ensures l in ClaimStep(s, a).db.leases
    ensures HoldsLatest(ClaimStep(s, a).db, l) <==> HoldsLatest(s.db, l) && !Supersedes(s, a, l)
  {
    var e := s.db.leases[l].exec;
    assert e in s.db.execs && s.db.execs[e].task == s.db.leases[l].task;
    assert s.db.execs[e].attemptNumber <= s.db.tasks[s.db.leases[l].task].attemptCount;
    hide Inv, BestClaim;
  }

  lemma {:induction false} InsertLatestIff(s: System, a: Action, l: Id)
    requires (a.AddTask? || a.AddDependency?) && LeasesOk(s) && l in s.db.leases
    ensures l in Next(s, a).db.leases && (HoldsLatest(Next(s, a).db, l) <==> HoldsLatest(s.db, l))
  {
    hide MayAdd;
  }

  /** A lease stops being the latest exactly when its task is claimed again. */
  lemma {:induction false} LatestStep(s: System, a: Action, l: Id)
    requires Inv(s) && l in s.db.leases
    ensures l in Next(s, a).db.leases
    ensures HoldsLatest(Next(s, a).db, l) <==> HoldsLatest(s.db, l) && !Supersedes(s, a, l)
  {
    InvMeansAttempted(s);
    if !Inserts(a) {
      QuietSteps(s, a);
      hide Next, HoldsLatest, SessionsAttempted;
      QuietLatestIff(s, Next(s, a), l);
    } else if a.Claim? {
      hide HoldsLatest, SessionsAttempted, Inv;
      if Claims(s, a) { ClaimLatestIff(s, a, l); } else { IdleClaim(s, a); }
    } else {
      hide Next, HoldsLatest, SessionsAttempted;
      InsertLatestIff(s, a, l);
    }
  }

  lemma {:induction false} LatestBirth(s: System, a: Action)
    requires Claims(s, a)
    ensures HoldsLatest(ClaimStep(s, a).db, a.lease)
  {
    hide BestClaim;
  }

  /** In every run a stored lease is its task's latest exactly when no later claim of the task has been made. */
  lemma {:induction false} LatestIff(now: int, ttl: int, acts: seq<Action>, l: Id)
    ensures var s := After(Init(now, ttl), acts);
            if l in s.db.leases then HoldsLatest(s.db, l) <==> !Superseded(Init(now, ttl), acts, l)
            else !Superseded(Init(now, ttl), acts, l)
  {
    if acts != [] {
      var front := acts[..|acts| - 1];
      var s, a := After(Init(now, ttl), front), acts[|acts| - 1];
      LatestIff(now, ttl, front, l);
      RunsKeepInv(now, ttl, front);
      InvMeansAttempted(s);
      hide Inv, Next, SessionsAttempted, HoldsLatest;
      if l in s.db.leases {
        LatestStep(s, a, l);
      } else if l in Next(s, a).db.leases {
        LeaseBirth(s, a, l);
        LatestBirth(s, a);
        ClaimIsNext(s, a);
      }
    }
  }

  lemma ClaimIsNext(s: System, a: Action)
    requires a.Claim?
    ensures Next(s, a) == ClaimStep(s, a)
  {
  }

  // ----------------------------------------------------------------------- writes

  /** The steps by which the session of lease l writes its task's status, and when they do. */
  predicate Writes(s: System, a: Action, l: Id) {
    && Known(s, l) && s.db.leases[l].task in s.db.tasks
    && var status := s.db.tasks[s.db.leases[l].task].status;
       match a
       case Complete(k) => k == l && At(s, l, Committing) && status == Running
       case RuntimeReturn(k, o) => k == l && At(s, l, Executing) && !o.Untouched? && status in {Running, Queued}
       case Fail(k) => k == l && At(s, l, Failing) && FailedStatus(s.db.tasks[s.db.leases[l].task]) != status
       case _ => false
  }

  predicate BySession(a: Action, l: Id) {
    a == Complete(l) || a == Fail(l) || (a.RuntimeReturn? && a.lease == l)
  }

  lemma {:induction false} WritesChange(s: System, a: Action, l: Id)
    requires BySession(a, l) && l in s.db.leases && s.db.leases[l].task in s.db.tasks
    ensures Changed(s, Next(s, a), s.db.leases[l].task) <==> Writes(s, a, l)
  {
  }

  /**
   A completion, a failure or an agent's verdict changes the status of a task that is no longer the worker's
   own attempt if and only if the write goes through and the task has been claimed again.
   */
  lemma {:induction false} WritesOnSuccessorIff(now: int, ttl: int, acts: seq<Action>, a: Action, l: Id)
    requires BySession(a, l) && l in After(Init(now, ttl), acts).db.leases
    ensures var s := After(Init(now, ttl), acts);
            Changed(s, Next(s, a), s.db.leases[l].task) && !HoldsLatest(s.db, l) <==>
            Writes(s, a, l) && Superseded(Init(now, ttl), acts, l)
  {
    RunsKeepInv(now, ttl, acts);
    LatestIff(now, ttl, acts, l);
    hide After, HoldsLatest, Writes, Next;
    WritesChange(After(Init(now, ttl), acts), a, l);
  }

  /**
   A completion that goes through is the owner's if and only if the lease has not been closed and less than
   the time to live has passed since it was claimed or last renewed.
   */
  lemma {:induction false} CompletionIsOwnersIff(now: int, ttl: int, acts: seq<Action>, l: Id)
    requires Completes(After(Init(now, ttl), acts), Complete(l), l)
    ensures var s := After(Init(now, ttl), acts);
            Owns(s.db, s.now, s.db.leases[l].worker, l) <==>
            !LeaseTiming.Closed(Init(now, ttl), acts, l) && s.now - LastBeat(Init(now, ttl), acts, l) < ttl
  {
    LiveIff(now, ttl, acts, l);
    hide After;
  }
}
