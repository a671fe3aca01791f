/** When a lease is live: heartbeats, expiry and release over whole runs, recovery included. */
module LeaseTiming {
  import opened DagValidator
  import opened TaskStates
  import opened Tables
  import opened Protocol
  import opened Invariants

  /** A renewal that finds the lease still owned. */
  predicate Renews(s: System, a: Action, l: Id) {
    a == Renew(l) && Known(s, l) && Live(s.db, s.now, l)
  }

  predicate Completes(s: System, a: Action, l: Id) {
    && a == Complete(l) && Known(s, l) && At(s, l, Committing)
    && s.db.leases[l].task in s.db.tasks && s.db.tasks[s.db.leases[l].task].status == Running
  }

  /** The holder expires its own lease: on shutdown, on completion, or on failure. */
  predicate Closes(s: System, a: Action, l: Id) {
    || (a == Release(l) && Known(s, l))
    || Completes(s, a, l)
    || (a == Fail(l) && Known(s, l) && At(s, l, Failing))
  }

  /** The moment lease l was last claimed or renewed. */
  ghost function LastBeat(start: System, acts: seq<Action>, l: Id): int {
    if acts == [] then start.now
    else
      var front, a := acts[..|acts| - 1], acts[|acts| - 1];
      var s := After(start, front);
      if (Claims(s, a) && a.lease == l) || Renews(s, a, l) then s.now else LastBeat(start, front, l)
  }

  ghost function Renewals(start: System, acts: seq<Action>, l: Id): nat {
    if acts == [] then 0
    else
      var front, a := acts[..|acts| - 1], acts[|acts| - 1];
      Renewals(start, front, l) + if Renews(After(start, front), a, l) then 1 else 0
  }

  /** How often the holder's heartbeat tried to renew lease l. */
  ghost function Heartbeats(start: System, acts: seq<Action>, l: Id): nat {
    if acts == [] then 0
    else
      var front, a := acts[..|acts| - 1], acts[|acts| - 1];
      Heartbeats(start, front, l) + if a == Renew(l) && Known(After(start, front), l) then 1 else 0
  }

  ghost predicate Closed(start: System, acts: seq<Action>, l: Id) {
    acts != [] &&
    var front, a := acts[..|acts| - 1], acts[|acts| - 1];
    Closed(start, front, l) || Closes(After(start, front), a, l)
  }

  ghost predicate Completed(start: System, acts: seq<Action>, l: Id) {
    acts != [] &&
    var front, a := acts[..|acts| - 1], acts[|acts| - 1];
    Completed(start, front, l) || Completes(After(start, front), a, l)
  }

  // ------------------------------------------------------------------- one step

  /** What a step does to a stored lease. */
  ghost predicate LeaseStep(s: System, a: Action, s': System, l: Id)
    requires l in s.db.leases
  {
    && l in s'.db.leases && s.now <= s'.now && s'.ttl == s.ttl
    && var lease, lease' := s.db.leases[l], s'.db.leases[l];
       if Renews(s, a, l) then
         lease' == lease.(expiresAt := s.now + s.ttl, lastHeartbeat := s.now, renewedCount := lease.renewedCount + 1)
       else if Completes(s, a, l) then
         lease' == lease.(expiresAt := s.now, lastHeartbeat := lease.claimedAt, renewedCount := 0)
       else if Closes(s, a, l) then
         lease' == lease.(expiresAt := s.now)
       else lease' == lease
  }

  lemma {:induction false} FailLease(s: System, l: Id, k: Id)
    requires k in s.db.leases && (Known(s, l) ==> s.db.leases[l].task in s.db.tasks)
    ensures LeaseStep(s, Fail(l), FailStep(s, l), k)
  {
  }

  lemma {:induction false} CompleteLease(s: System, l: Id, k: Id)
    requires k in s.db.leases
    ensures LeaseStep(s, Complete(l), CompleteStep(s, l), k)
  {
  }

  lemma {:induction false} RuntimeLease(s: System, l: Id, o: Outcome, k: Id)
    requires k in s.db.leases
    ensures LeaseStep(s, RuntimeReturn(l, o), RuntimeReturnStep(s, l, o), k)
  {
  }

  lemma {:induction false} OtherLease(s: System, a: Action, k: Id)
    requires k in s.db.leases && !a.Fail? && !a.Complete? && !a.RuntimeReturn?
    ensures LeaseStep(s, a, Next(s, a), k)
  {
    hide BestClaim, MayAdd, Recovers;
  }

  lemma {:induction false} LeaseSteps(s: System, a: Action, l: Id)
    requires Inv(s) && l in s.db.leases
    ensures LeaseStep(s, a, Next(s, a), l)
  {
    InvMeansAttempted(s);
    hide LeaseStep, Inv;
    match a
    case Fail(k) => hide FailStep; FailLease(s, k, l);
    case Complete(k) => hide CompleteStep; CompleteLease(s, k, l);
    case RuntimeReturn(k, o) => hide RuntimeReturnStep; RuntimeLease(s, k, o, l);
    case _ => hide Next; OtherLease(s, a, l);
  }

  /** Only a claim stores a lease, and it starts its clock. */
  lemma {:induction false} LeaseBirth(s: System, a: Action, l: Id)
    requires SessionsAttempted(s) && l !in s.db.leases && l in Next(s, a).db.leases
    ensures Claims(s, a) && a.lease == l && Next(s, a).now == s.now && Next(s, a).ttl == s.ttl
    ensures var lease := Next(s, a).db.leases[l];
            lease.expiresAt == s.now + s.ttl && lease.lastHeartbeat == s.now && lease.renewedCount == 0
  {
    if !Inserts(a) {
      QuietSteps(s, a);
      hide Next;
    }
    hide SessionsAttempted, BestClaim, MayAdd;
  }

  // ------------------------------------------------------------------ whole runs

  lemma {:induction false} NoLeaseNoHistory(now: int, ttl: int, acts: seq<Action>, l: Id)
    requires l !in After(Init(now, ttl), acts).db.leases
    ensures Renewals(Init(now, ttl), acts, l) == 0
    ensures !Closed(Init(now, ttl), acts, l) && !Completed(Init(now, ttl), acts, l)
  {
    if acts != [] {
      var front := acts[..|acts| - 1];
      var s, a := After(Init(now, ttl), front), acts[|acts| - 1];
      RunsKeepInv(now, ttl, front);
      if l in s.db.leases {
        LeaseSteps(s, a, l);
      } else {
        hide Next, Inv;
        NoLeaseNoHistory(now, ttl, front, l);
      }
    }
  }

  lemma {:induction false} TtlStays(s: System, a: Action)
    requires SessionsAttempted(s)
    ensures Next(s, a).ttl == s.ttl
  {
    if !Inserts(a) {
      QuietSteps(s, a);
      hide Next;
    }
    hide SessionsAttempted, BestClaim, MayAdd;
  }

  lemma {:induction false} ConstantTtl(now: int, ttl: int, acts: seq<Action>)
    ensures After(Init(now, ttl), acts).ttl == ttl
  {
    hide Inv, SessionsAttempted, Next;
    if acts != [] {
      var front := acts[..|acts| - 1];
      ConstantTtl(now, ttl, front);
      RunsKeepInv(now, ttl, front);
      InvMeansAttempted(After(Init(now, ttl), front));
      TtlStays(After(Init(now, ttl), front), acts[|acts| - 1]);
    }
  }

  /** The stored row against the lease's history. */
  ghost predicate Accounted(s: System, l: Id, last: int, renewals: nat, closed: bool, completed: bool) {
    && l in s.db.leases && last <= s.now
    && var lease := s.db.leases[l];
       && (closed ==> lease.expiresAt <= s.now)
       && (!closed ==> lease.expiresAt == last + s.ttl && lease.lastHeartbeat == last)
       && (completed ==> closed)
       && lease.renewedCount == if completed then 0 else renewals
  }

  lemma {:induction false} LeaseAccounted(now: int, ttl: int, acts: seq<Action>, l: Id)
    requires l in After(Init(now, ttl), acts).db.leases
    ensures var init := Init(now, ttl);
            Accounted(After(init, acts), l, LastBeat(init, acts, l), Renewals(init, acts, l),
                      Closed(init, acts, l), Completed(init, acts, l))
  {
    var init, front := Init(now, ttl), acts[..|acts| - 1];
    var s, a := After(init, front), acts[|acts| - 1];
    RunsKeepInv(now, ttl, front);
    hide Inv, Next, SessionsAttempted, Accounted, Renews, Closes, Completes, LeaseStep, Claims, Init;
    if l in s.db.leases {
      LeaseAccounted(now, ttl, front, l);
      LeaseSteps(s, a, l);
      AccountStep(s, a, Next(s, a), l, LastBeat(init, front, l), Renewals(init, front, l), Closed(init, front, l),
                  Completed(init, front, l));
    } else {
      InvMeansAttempted(s);
      LeaseBirth(s, a, l);
      NoLeaseNoHistory(now, ttl, front, l);
      AccountBirth(s, a, Next(s, a), l);
    }
  }

  lemma AccountStep(s: System, a: Action, s': System, l: Id, last: int, renewals: nat, closed: bool, completed: bool)
    requires Accounted(s, l, last, renewals, closed, completed) && LeaseStep(s, a, s', l)
    ensures !(Claims(s, a) && a.lease == l)
    ensures Accounted(s', l, if Renews(s, a, l) then s.now else last, renewals + if Renews(s, a, l) then 1 else 0,
                      closed || Closes(s, a, l), completed || Completes(s, a, l))
  {
  }

  lemma AccountBirth(s: System, a: Action, s': System, l: Id)
    requires l !in s.db.leases && l in s'.db.leases && s'.now == s.now && s'.ttl == s.ttl
    requires var lease := s'.db.leases[l];
             lease.expiresAt == s.now + s.ttl && lease.lastHeartbeat == s.now && lease.renewedCount == 0
    ensures Accounted(s', l, s.now, 0, false, false) && !Renews(s, a, l) && !Closes(s, a, l) && !Completes(s, a, l)
  {
  }

  /**
   A lease is live exactly while its holder has not closed it and less than the time to live
   has passed since it was last claimed or renewed.  Its stored renewal count is the number
   of renewals, except that completing the task resets it.
   */
  lemma {:induction false} LiveIff(now: int, ttl: int, acts: seq<Action>, l: Id)
    requires l in After(Init(now, ttl), acts).db.leases
    ensures var init := Init(now, ttl);
            var s := After(init, acts);
            && (Live(s.db, s.now, l) <==> !Closed(init, acts, l) && s.now - LastBeat(init, acts, l) < ttl)
            && s.db.leases[l].renewedCount == if Completed(init, acts, l) then 0 else Renewals(init, acts, l)
  {
    LeaseAccounted(now, ttl, acts, l);
    ConstantTtl(now, ttl, acts);
    hide After;
  }

  /** An expired or released lease is never live again. */
  lemma {:induction false} DeadStaysDead(now: int, ttl: int, acts: seq<Action>, i: nat, j: nat, l: Id)
    requires i <= j <= |acts|
    requires var s := After(Init(now, ttl), acts[..i]); l in s.db.leases && !Live(s.db, s.now, l)
    ensures var s := After(Init(now, ttl), acts[..j]); l in s.db.leases && !Live(s.db, s.now, l)
  {
    hide Inv, Next, After, LeaseStep;
    if i < j {
      var s, a := After(Init(now, ttl), acts[..j - 1]), acts[j - 1];
      DeadStaysDead(now, ttl, acts, i, j - 1, l);
      AfterStep(Init(now, ttl), acts, j - 1);
      RunsKeepInv(now, ttl, acts[..j - 1]);
      LeaseSteps(s, a, l);
      DeadStep(s, a, Next(s, a), l);
    }
  }

  lemma DeadStep(s: System, a: Action, s': System, l: Id)
    requires l in s.db.leases && !Live(s.db, s.now, l) && LeaseStep(s, a, s', l)
    ensures l in s'.db.leases && !Live(s'.db, s'.now, l)
  {
  }

  /** Every heartbeat so far came less than the time to live after the beat before it. */
  ghost predicate Punctual(start: System, acts: seq<Action>, l: Id, ttl: int) {
    acts == [] ||
    var front, a := acts[..|acts| - 1], acts[|acts| - 1];
    && Punctual(start, front, l, ttl)
    && (a == Renew(l) && Known(After(start, front), l) ==> After(start, front).now - LastBeat(start, front, l) < ttl)
  }

  /** If no gap between heartbeats reaches the time to live, every renewal succeeds and is counted. */
  lemma {:induction false} PunctualHeartbeatsSucceed(now: int, ttl: int, acts: seq<Action>, l: Id)
    requires Punctual(Init(now, ttl), acts, l, ttl) && !Closed(Init(now, ttl), acts, l)
    ensures Renewals(Init(now, ttl), acts, l) == Heartbeats(Init(now, ttl), acts, l)
    ensures var s := After(Init(now, ttl), acts);
            l in s.db.leases ==> s.db.leases[l].renewedCount == Heartbeats(Init(now, ttl), acts, l)
  {
    NoneRefused(now, ttl, acts, l);
    if l in After(Init(now, ttl), acts).db.leases {
      LeaseAccounted(now, ttl, acts, l);
    }
  }

  lemma {:induction false} NoneRefused(now: int, ttl: int, acts: seq<Action>, l: Id)
    requires Punctual(Init(now, ttl), acts, l, ttl) && !Closed(Init(now, ttl), acts, l)
    ensures Renewals(Init(now, ttl), acts, l) == Heartbeats(Init(now, ttl), acts, l)
  {
    if acts != [] {
      var front := acts[..|acts| - 1];
      var s, a := After(Init(now, ttl), front), acts[|acts| - 1];
      NoneRefused(now, ttl, front, l);
      if a == Renew(l) && Known(s, l) {
        LiveIff(now, ttl, front, l);
      }
    }
  }
}
