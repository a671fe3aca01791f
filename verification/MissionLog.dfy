/** Missions, their approvals and the event log: status changes and events in one unit of work. */
module MissionLog {
  import opened DagValidator

  datatype MissionStatus = Created | Planning | Planned | ApprovedForExecution | Executing | Verifying | Recovering
                         | Verified | PrReady | AwaitingHumanApproval | Merged | Cancelled | Aborted | Blocked
                         | FailedPermanently

  function MissionTransitions(s: MissionStatus): set<MissionStatus> {
    match s
    case Created => {Planning, Cancelled}
    case Planning => {Planned, FailedPermanently, Cancelled}
    case Planned => {Planning, ApprovedForExecution, Cancelled}
    case ApprovedForExecution => {Executing, Cancelled}
    case Executing => {Verifying, Recovering, Cancelled, Blocked, FailedPermanently}
    case Verifying => {Verified, Recovering, FailedPermanently}
    case Recovering => {Executing, FailedPermanently}
    case Verified => {PrReady}
    case PrReady => {AwaitingHumanApproval}
    case AwaitingHumanApproval => {Merged, Cancelled}
    case Merged => {}
    case Cancelled => {}
    case Aborted => {}
    case Blocked => {Planning, Executing, Cancelled}
    case FailedPermanently => {}
  }

  /** The table, read backwards: from where each status can be reached in one transition. */
  lemma EdgesInto(from: MissionStatus)
    ensures Planning in MissionTransitions(from) <==> from in {Created, Planned, Blocked}
    ensures Planned in MissionTransitions(from) <==> from == Planning
    ensures ApprovedForExecution in MissionTransitions(from) <==> from == Planned
    ensures Executing in MissionTransitions(from) <==> from in {ApprovedForExecution, Recovering, Blocked}
    ensures Verifying in MissionTransitions(from) <==> from == Executing
    ensures Recovering in MissionTransitions(from) <==> from in {Executing, Verifying}
    ensures Verified in MissionTransitions(from) <==> from == Verifying
    ensures PrReady in MissionTransitions(from) <==> from == Verified
    ensures AwaitingHumanApproval in MissionTransitions(from) <==> from == PrReady
    ensures Merged in MissionTransitions(from) <==> from == AwaitingHumanApproval
    ensures Blocked in MissionTransitions(from) <==> from == Executing
    ensures FailedPermanently in MissionTransitions(from) <==> from in {Planning, Executing, Verifying, Recovering}
    ensures Cancelled in MissionTransitions(from) <==>
              from in {Created, Planning, Planned, ApprovedForExecution, Executing, AwaitingHumanApproval, Blocked}
    ensures Created !in MissionTransitions(from) && Aborted !in MissionTransitions(from)
  {
  }

  datatype ApprovalType = Execution | Merge | Deploy
  datatype ApprovalStatus = Pending | Approved | Rejected | Expired
  datatype Approval = Approval(mission: Id, kind: ApprovalType, status: ApprovalStatus)

  datatype Event = MissionCreated(mission: Id)
                 | StateChanged(mission: Id, status: MissionStatus)
                 | ApprovalRequested(mission: Id, approval: Id)
                 | MergeApproved(mission: Id, approval: Id)
                 | MergeRejected(mission: Id, approval: Id)
                 | ExecutionApproved(mission: Id, approval: Id)
                 | ExecutionRejected(mission: Id, approval: Id)

  datatype Ledger = Ledger(missions: map<Id, MissionStatus>, approvals: map<Id, Approval>, events: seq<Event>)

  datatype Request = Create(mission: Id)
                   | UpdateStatus(mission: Id, status: MissionStatus)
                   | RequestApproval(mission: Id, approval: Id, kind: ApprovalType)
                   | Resolve(approval: Id, verdict: ApprovalStatus)

  /** The committed state, or a refusal: an exception before the commit. */
  datatype Served = Refused | Committed(ledger: Ledger)

  // ------------------------------------------------------------ the four requests

  function ResolutionEvent(id: Id, a: Approval, verdict: ApprovalStatus): Event {
    if a.kind.Merge? then
      if verdict.Approved? then MergeApproved(a.mission, id) else MergeRejected(a.mission, id)
    else
      if verdict.Approved? then ExecutionApproved(a.mission, id) else ExecutionRejected(a.mission, id)
  }

  /** The status a resolution tries to move the mission to; its present status if it tries nothing. */
  function Consequence(kind: ApprovalType, verdict: ApprovalStatus, s: MissionStatus): MissionStatus {
    if verdict.Approved? && kind.Execution? && s.Planned? then ApprovedForExecution
    else if verdict.Approved? && kind.Merge? && s.AwaitingHumanApproval? then Merged
    else if verdict.Rejected? && s.Planned? then Blocked
    else s
  }

  function Serve(g: Ledger, r: Request): Served {
    match r
    case Create(m) =>
      if m in g.missions then Refused
      else Committed(g.(missions := g.missions[m := Created], events := g.events + [MissionCreated(m)]))
    case UpdateStatus(m, s) =>
      if m !in g.missions || s !in MissionTransitions(g.missions[m]) then Refused
      else Committed(g.(missions := g.missions[m := s], events := g.events + [StateChanged(m, s)]))
    case RequestApproval(m, id, kind) =>
      if m !in g.missions || id in g.approvals then Refused
      else Committed(g.(approvals := g.approvals[id := Approval(m, kind, Pending)],
                        events := g.events + [ApprovalRequested(m, id)]))
    case Resolve(id, verdict) =>
      if id !in g.approvals || g.approvals[id].mission !in g.missions then Refused
      else
        var a := g.approvals[id];
        var noted := g.(approvals := g.approvals[id := a.(status := verdict)],
                        events := g.events + [ResolutionEvent(id, a, verdict)]);
        var from := g.missions[a.mission];
        var to := Consequence(a.kind, verdict, from);
        if to == from then Committed(noted)
        else if to !in MissionTransitions(from) then Refused
        else Committed(noted.(missions := noted.missions[a.mission := to],
                              events := noted.events + [StateChanged(a.mission, to)]))
  }

  function Next(g: Ledger, r: Request): Ledger {
    if Serve(g, r).Refused? then g else Serve(g, r).ledger
  }

  ghost function After(requests: seq<Request>): Ledger {
    if requests == [] then Ledger(map[], map[], [])
    else Next(After(requests[..|requests| - 1]), requests[|requests| - 1])
  }

  /** The service: each request works on copies and assigns them when it commits. */
  class MissionService {
    var missions: map<Id, MissionStatus>
    var approvals: map<Id, Approval>
    var events: seq<Event>

    constructor ()
      ensures Stored() == After([])
    {
      missions, approvals, events := map[], map[], [];
    }

    ghost function Stored(): Ledger
      reads this
    {
      Ledger(missions, approvals, events)
    }

    /** create_mission; a second mission with the same key violates the table's primary key. */
    method CreateMission(m: Id) returns (ok: bool)
      modifies this
      ensures ok <==> m !in old(missions)
      ensures missions == (if ok then old(missions)[m := Created] else old(missions)) && approvals == old(approvals)
      ensures events == old(events) + if ok then [MissionCreated(m)] else []
      ensures Stored() == Next(old(Stored()), Create(m)) && (ok <==> Serve(old(Stored()), Create(m)).Committed?)
    {
      if m in missions {
        return false;
      }
      missions := missions[m := Created];
      events := events + [MissionCreated(m)];
      return true;
    }

    /** update_mission_status */
    method UpdateMissionStatus(m: Id, s: MissionStatus) returns (ok: bool)
      modifies this
      ensures ok <==> m in old(missions) && s in MissionTransitions(old(missions)[m])
      ensures missions == (if ok then old(missions)[m := s] else old(missions)) && approvals == old(approvals)
      ensures events == old(events) + if ok then [StateChanged(m, s)] else []
      ensures Stored() == Next(old(Stored()), UpdateStatus(m, s))
      ensures ok <==> Serve(old(Stored()), UpdateStatus(m, s)).Committed?
    {
      if m !in missions || s !in MissionTransitions(missions[m]) {
        return false;
      }
      missions := missions[m := s];
      events := events + [StateChanged(m, s)];
      return true;
    }

    /** request_approval */
    method RequestMissionApproval(m: Id, id: Id, kind: ApprovalType) returns (ok: bool)
      modifies this
      ensures ok <==> m in old(missions) && id !in old(approvals)
      ensures approvals == (if ok then old(approvals)[id := Approval(m, kind, Pending)] else old(approvals))
              && missions == old(missions)
      ensures events == old(events) + if ok then [ApprovalRequested(m, id)] else []
      ensures Stored() == Next(old(Stored()), RequestApproval(m, id, kind))
      ensures ok <==> Serve(old(Stored()), RequestApproval(m, id, kind)).Committed?
    {
      if m !in missions || id in approvals {
        return false;
      }
      approvals := approvals[id := Approval(m, kind, Pending)];
      events := events + [ApprovalRequested(m, id)];
      return true;
    }

    /** resolve_approval */
    method ResolveApproval(id: Id, verdict: ApprovalStatus) returns (ok: bool)
      modifies this
      ensures ok <==> && id in old(approvals) && old(approvals)[id].mission in old(missions)
                      && !(verdict == Rejected && old(missions)[old(approvals)[id].mission] == Planned)
      ensures !ok ==> missions == old(missions) && approvals == old(approvals) && events == old(events)
      ensures ok ==>
                var a := old(approvals)[id];
                var m, was := a.mission, old(missions)[a.mission];
                var noted := if a.kind == Merge
                             then if verdict == Approved then MergeApproved(m, id) else MergeRejected(m, id)
                             else if verdict == Approved then ExecutionApproved(m, id) else ExecutionRejected(m, id);
                && approvals == old(approvals)[id := Approval(m, a.kind, verdict)]
                && if verdict == Approved && a.kind == Execution && was == Planned
                   then missions == old(missions)[m := ApprovedForExecution]
                        && events == old(events) + [noted, StateChanged(m, ApprovedForExecution)]
                   else if verdict == Approved && a.kind == Merge && was == AwaitingHumanApproval
                   then missions == old(missions)[m := Merged]
                        && events == old(events) + [noted, StateChanged(m, Merged)]
                   else missions == old(missions) && events == old(events) + [noted]
      ensures Stored() == Next(old(Stored()), Resolve(id, verdict))
      ensures ok <==> Serve(old(Stored()), Resolve(id, verdict)).Committed?
    {
      if id !in approvals {
        return false;
      }
      var a := approvals[id];
      var newApprovals := approvals[id := a.(status := verdict)];
      var newMissions := missions;
      var newEvents := events;
      if a.kind == Merge {
        newEvents := newEvents + [if verdict == Approved then MergeApproved(a.mission, id)
                                  else MergeRejected(a.mission, id)];
      } else {
        newEvents := newEvents + [if verdict == Approved then ExecutionApproved(a.mission, id)
                                  else ExecutionRejected(a.mission, id)];
      }
      if a.mission !in missions {
        return false;
      }
      var from := missions[a.mission];
      var to := from;
      if verdict == Approved && a.kind == Execution {
        if from == Planned {
          to := ApprovedForExecution;
        }
      } else if verdict == Approved && a.kind == Merge {
        if from == AwaitingHumanApproval {
          to := Merged;
        }
      } else if verdict == Rejected {
        if from == Planned {
          to := Blocked;
        }
      }
      if to != from {
        if to !in MissionTransitions(from) {
          return false;
        }
        newMissions := newMissions[a.mission := to];
        newEvents := newEvents + [StateChanged(a.mission, to)];
      }
      missions, approvals, events := newMissions, newApprovals, newEvents;
      return true;
    }
  }

  // ----------------------------------------------------- the log tells the state

  function StatusTold(e: Event, m: Id): seq<MissionStatus> {
    if e.mission != m then []
    else if e.MissionCreated? then [Created]
    else if e.StateChanged? then [e.status]
    else []
  }

  /** The statuses of a mission, read from the log alone. */
  ghost function History(events: seq<Event>, m: Id): seq<MissionStatus> {
    if events == [] then []
    else History(events[..|events| - 1], m) + StatusTold(events[|events| - 1], m)
  }

  lemma HistoryAppend(events: seq<Event>, e: Event, m: Id)
    ensures History(events + [e], m) == History(events, m) + StatusTold(e, m)
  {
    assert (events + [e])[..|events|] == events;
  }

  /** Created first, then along the table's edges. */
  ghost predicate Legal(h: seq<MissionStatus>) {
    && h != [] && h[0] == Created
    && forall i | 0 <= i < |h| - 1 :: h[i + 1] in MissionTransitions(h[i])
  }

  lemma LegalAppend(h: seq<MissionStatus>, s: MissionStatus)
    requires Legal(h) && s in MissionTransitions(h[|h| - 1])
    ensures Legal(h + [s]) && (h + [s])[|h + [s]| - 1] == s
  {
  }

  /** An event told and the status it tells of. */
  ghost function Told(missions: map<Id, MissionStatus>, e: Event): map<Id, MissionStatus> {
    if e.MissionCreated? then missions[e.mission := Created]
    else if e.StateChanged? then missions[e.mission := e.status]
    else missions
  }

  ghost predicate Tellable(missions: map<Id, MissionStatus>, e: Event) {
    && (e.MissionCreated? ==> e.mission !in missions)
    && (e.StateChanged? ==> e.mission in missions && e.status in MissionTransitions(missions[e.mission]))
  }

  ghost predicate Tells(events: seq<Event>, missions: map<Id, MissionStatus>, m: Id) {
    var h := History(events, m);
    if m in missions then Legal(h) && h[|h| - 1] == missions[m] else h == []
  }

  lemma TellMore(events: seq<Event>, missions: map<Id, MissionStatus>, e: Event, m: Id)
    requires Tells(events, missions, m) && Tellable(missions, e)
    ensures Tells(events + [e], Told(missions, e), m)
  {
    HistoryAppend(events, e, m);
    var h := History(events, m);
    hide History;
    if e.mission == m && e.StateChanged? {
      LegalAppend(h, e.status);
    } else if e.mission == m && e.MissionCreated? {
      assert h + [Created] == [Created];
    } else {
      hide Legal;
      assert h + [] == h;
    }
  }

  ghost predicate Consistent(g: Ledger) {
    && (forall m :: Tells(g.events, g.missions, m))
    && (forall id | id in g.approvals :: g.approvals[id].mission in g.missions)
  }

  lemma {:induction false} ServeKeepsConsistent(g: Ledger, r: Request)
    requires Consistent(g)
    ensures Consistent(Next(g, r))
  {
    if Serve(g, r).Committed? {
      var next := Next(g, r);
      forall m ensures Tells(next.events, next.missions, m) {
        assert Tells(g.events, g.missions, m);
        CommitTells(g, r, m);
      }
      hide Tells, MissionTransitions;
    }
  }

  lemma {:induction false} CommitTells(g: Ledger, r: Request, m: Id)
    requires Tells(g.events, g.missions, m) && Serve(g, r).Committed?
    ensures Tells(Next(g, r).events, Next(g, r).missions, m)
  {
    hide Tells, MissionTransitions;
    match r
    case Create(x) => TellMore(g.events, g.missions, MissionCreated(x), m);
    case UpdateStatus(x, s) => TellMore(g.events, g.missions, StateChanged(x, s), m);
    case RequestApproval(x, id, kind) => TellMore(g.events, g.missions, ApprovalRequested(x, id), m);
    case Resolve(id, verdict) =>
      var a := g.approvals[id];
      var e := ResolutionEvent(id, a, verdict);
      TellMore(g.events, g.missions, e, m);
      var to := Consequence(a.kind, verdict, g.missions[a.mission]);
      if to != g.missions[a.mission] {
        TellMore(g.events + [e], g.missions, StateChanged(a.mission, to), m);
      }
  }

  lemma {:induction false} RunsKeepConsistent(requests: seq<Request>)
    ensures Consistent(After(requests))
  {
    if requests != [] {
      RunsKeepConsistent(requests[..|requests| - 1]);
      ServeKeepsConsistent(After(requests[..|requests| - 1]), requests[|requests| - 1]);
    }
  }

  /** After any requests, the log of a mission replays along legal edges from CREATED to the stored status. */
  lemma {:induction false} LogAgreesWithState(requests: seq<Request>, m: Id)
    ensures var g := After(requests);
            var h := History(g.events, m);
            if m in g.missions then Legal(h) && h[|h| - 1] == g.missions[m] else h == []
  {
    RunsKeepConsistent(requests);
    assert Tells(After(requests).events, After(requests).missions, m);
  }

  // ------------------------------------------------------------------- milestones

  function Milestones(): seq<MissionStatus> {
    [Planning, Planned, ApprovedForExecution, Executing, Verifying, Verified, PrReady, AwaitingHumanApproval]
  }

  /** How many milestones a mission must have passed to be in a status. */
  function Passed(s: MissionStatus): nat {
    match s
    case Planning => 1
    case Planned => 2
    case ApprovedForExecution => 3
    case Executing => 4
    case Recovering => 4
    case Blocked => 4
    case Verifying => 5
    case Verified => 6
    case PrReady => 7
    case AwaitingHumanApproval => 8
    case Merged => 8
    case _ => 0
  }

  /** The first |at| milestones, at these places of the history. */
  ghost predicate Visits(h: seq<MissionStatus>, at: seq<nat>) {
    && |at| <= |Milestones()|
    && (forall j | 0 <= j < |at| :: at[j] < |h| && h[at[j]] == Milestones()[j])
    && (forall i, j | 0 <= i < j < |at| :: at[i] < at[j])
  }

  /** No edge of the table skips a milestone. */
  lemma EdgesSkipNoMilestone(from: MissionStatus, to: MissionStatus)
    requires to in MissionTransitions(from)
    ensures Passed(to) <= Passed(from) || (Passed(to) == Passed(from) + 1 && Milestones()[Passed(from)] == to)
    ensures Passed(from) <= |Milestones()| && Passed(to) <= |Milestones()|
  {
  }

  lemma KeepVisits(h: seq<MissionStatus>, s: MissionStatus, at: seq<nat>, k: nat)
    requires Visits(h, at) && k <= |at|
    ensures Visits(h + [s], at[..k])
  {
    hide Milestones;
    forall j | 0 <= j < k ensures (h + [s])[at[j]] == h[at[j]] {
    }
  }

  lemma VisitNext(h: seq<MissionStatus>, s: MissionStatus, at: seq<nat>)
    requires Visits(h, at) && |at| < |Milestones()| && Milestones()[|at|] == s
    ensures Visits(h + [s], at + [|h|])
  {
    hide Milestones;
    forall j | 0 <= j < |at| ensures (h + [s])[at[j]] == h[at[j]] {
    }
  }

  lemma {:induction false} PassesMilestones(h: seq<MissionStatus>) returns (at: seq<nat>)
    requires Legal(h)
    ensures Visits(h, at) && |at| == Passed(h[|h| - 1])
  {
    if |h| == 1 {
      at := [];
    } else {
      var front, from, to := h[..|h| - 1], h[|h| - 2], h[|h| - 1];
      assert h[|h| - 2 + 1] in MissionTransitions(from);
      EdgesSkipNoMilestone(from, to);
      at := PassesMilestones(front);
      hide MissionTransitions, Milestones, Passed, Visits;
      assert h == front + [to];
      if Passed(to) <= |at| {
        KeepVisits(front, to, at, Passed(to));
        at := at[..Passed(to)];
      } else {
        VisitNext(front, to, at);
        at := at + [|front|];
      }
    }
  }

  /** A merged mission's log visits all eight milestones, in order. */
  lemma MergedPassedEverything(requests: seq<Request>, m: Id) returns (at: seq<nat>)
    requires m in After(requests).missions && After(requests).missions[m] == Merged
    ensures Visits(History(After(requests).events, m), at) && |at| == |Milestones()|
  {
    LogAgreesWithState(requests, m);
    at := PassesMilestones(History(After(requests).events, m));
  }

  /** No sequence of requests brings a mission to ABORTED. */
  lemma NeverAborted(requests: seq<Request>, m: Id)
    requires m in After(requests).missions
    ensures After(requests).missions[m] != Aborted
  {
    LogAgreesWithState(requests, m);
    var h := History(After(requests).events, m);
    hide After, History;
    if |h| > 1 {
      assert h[|h| - 2 + 1] in MissionTransitions(h[|h| - 2]);
      EdgesAvoidAborted(h[|h| - 2], h[|h| - 1]);
    }
  }

  lemma EdgesAvoidAborted(from: MissionStatus, to: MissionStatus)
    requires to in MissionTransitions(from)
    ensures to != Aborted
  {
  }

  lemma FinalServed(g: Ledger, r: Request, m: Id)
    requires m in g.missions && g.missions[m] in {Merged, Cancelled, FailedPermanently}
    ensures m in Next(g, r).missions && Next(g, r).missions[m] == g.missions[m]
  {
  }

  /** Final statuses are never left again, whatever is requested, and only they have no edge. */
  lemma {:induction false} FinalMissionsStay(requests: seq<Request>, more: seq<Request>, m: Id)
    requires m in After(requests).missions
    requires After(requests).missions[m] in {Merged, Cancelled, FailedPermanently}
    ensures m in After(requests + more).missions
    ensures After(requests + more).missions[m] == After(requests).missions[m]
    ensures forall s :: MissionTransitions(s) == {} <==> s in {Merged, Cancelled, FailedPermanently, Aborted}
  {
    hide Next;
    if more == [] {
      assert requests + more == requests;
    } else {
      var front := more[..|more| - 1];
      FinalMissionsStay(requests, front, m);
      assert (requests + more)[..|requests + more| - 1] == requests + front;
      FinalServed(After(requests + front), more[|more| - 1], m);
    }
  }

  // -------------------------------------------------------------------- approvals

  /**
   A resolution is recorded unless it rejects anything for a PLANNED mission: the automatic move to BLOCKED
   is not in the table, so the exception undoes the rejection too.
   */
  lemma ResolutionRecordedIff(requests: seq<Request>, id: Id, verdict: ApprovalStatus)
    ensures id in After(requests).approvals ==> After(requests).approvals[id].mission in After(requests).missions
    ensures var g := After(requests);
            Serve(g, Resolve(id, verdict)).Committed? <==>
            id in g.approvals && !(verdict.Rejected? && g.missions[g.approvals[id].mission].Planned?)
  {
    RunsKeepConsistent(requests);
  }

  /** A mission is planned, and approval for its execution is asked for. */
  function AwaitingApproval(m: Id, id: Id): seq<Request> {
    [] + [Create(m)] + [UpdateStatus(m, Planning)] + [UpdateStatus(m, Planned)] + [RequestApproval(m, id, Execution)]
  }

  lemma {:induction false} AwaitingApprovalRuns(m: Id, id: Id)
    ensures After(AwaitingApproval(m, id)) ==
            Ledger(map[m := Planned], map[id := Approval(m, Execution, Pending)],
                   [MissionCreated(m), StateChanged(m, Planning), StateChanged(m, Planned), ApprovalRequested(m, id)])
  {
    AfterMore([], Create(m));
    AfterMore([] + [Create(m)], UpdateStatus(m, Planning));
    AfterMore([] + [Create(m)] + [UpdateStatus(m, Planning)], UpdateStatus(m, Planned));
    AfterMore([] + [Create(m)] + [UpdateStatus(m, Planning)] + [UpdateStatus(m, Planned)],
              RequestApproval(m, id, Execution));
    assert After([]) == Ledger(map[], map[], []);
    hide After;
  }

  /** Rejecting it is refused: the approval stays pending, and nothing of the rejection is kept. */
  lemma {:induction false} RejectionIsUndone(m: Id, id: Id)
    ensures var requests := AwaitingApproval(m, id);
            && After(requests + [Resolve(id, Rejected)]) == After(requests)
            && After(requests).missions == map[m := Planned]
            && After(requests).approvals == map[id := Approval(m, Execution, Pending)]
  {
    AwaitingApprovalRuns(m, id);
    AfterMore(AwaitingApproval(m, id), Resolve(id, Rejected));
    hide After, AwaitingApproval;
  }

  lemma AfterMore(requests: seq<Request>, r: Request)
    ensures After(requests + [r]) == Next(After(requests), r)
  {
    assert (requests + [r])[..|requests|] == requests;
  }

  /** The event approves this mission's entry into this status, by an approval of the right kind. */
  predicate Approves(approvals: map<Id, Approval>, e: Event, m: Id, s: MissionStatus) {
    && (e.ExecutionApproved? || e.MergeApproved?)
    && e.approval in approvals && approvals[e.approval].mission == m
    && (if s.ApprovedForExecution? then e.ExecutionApproved? && approvals[e.approval].kind.Execution?
        else e.MergeApproved? && approvals[e.approval].kind.Merge?)
  }

  predicate Enters(e: Event) {
    e.StateChanged? && e.status in {ApprovedForExecution, Merged}
  }

  /** Every entry into a protected status comes right after its approval. */
  ghost predicate Gated(approvals: map<Id, Approval>, events: seq<Event>) {
    forall i | 0 <= i < |events| && Enters(events[i]) ::
      i > 0 && Approves(approvals, events[i - 1], events[i].mission, events[i].status)
  }

  ghost predicate ApprovesLast(approvals: map<Id, Approval>, events: seq<Event>, m: Id, s: MissionStatus) {
    events != [] && Approves(approvals, events[|events| - 1], m, s)
  }

  lemma GatedAppend(approvals: map<Id, Approval>, events: seq<Event>, e: Event)
    ensures Gated(approvals, events + [e]) <==>
              Gated(approvals, events) && (Enters(e) ==> ApprovesLast(approvals, events, e.mission, e.status))
  {
    var more := events + [e];
    assert more[|events|] == e && forall i | 0 <= i < |events| :: more[i] == events[i];
    hide Approves, Enters;
    if Gated(approvals, more) {
      forall i | 0 <= i < |events| && Enters(events[i])
        ensures i > 0 && Approves(approvals, events[i - 1], events[i].mission, events[i].status)
      {
        assert Enters(more[i]);
      }
      assert Enters(e) ==> Enters(more[|events|]);
    }
  }

  /** The approvals that the log speaks of are stored. */
  ghost predicate Backed(approvals: map<Id, Approval>, events: seq<Event>) {
    forall e | e in events && (e.ExecutionApproved? || e.MergeApproved?) :: e.approval in approvals
  }

  /** Approvals may be added and resolved, but keep their mission and kind. */
  ghost predicate Keeps(a: map<Id, Approval>, b: map<Id, Approval>) {
    forall id | id in a :: id in b && b[id].mission == a[id].mission && b[id].kind == a[id].kind
  }

  lemma GatedUnder(a: map<Id, Approval>, b: map<Id, Approval>, events: seq<Event>)
    requires Keeps(a, b) && Backed(a, events)
    ensures Gated(a, events) <==> Gated(b, events)
    ensures forall m, s :: ApprovesLast(a, events, m, s) <==> ApprovesLast(b, events, m, s)
  {
    forall e, m, s | e in events ensures Approves(a, e, m, s) <==> Approves(b, e, m, s) {
    }
    hide Approves, Enters;
  }

  /** No mission still waits to enter the status that the last event approved. */
  ghost predicate Followed(g: Ledger) {
    && (forall m | m in g.missions && ApprovesLast(g.approvals, g.events, m, ApprovedForExecution) ::
          g.missions[m] != Planned)
    && (forall m | m in g.missions && ApprovesLast(g.approvals, g.events, m, Merged) ::
          g.missions[m] != AwaitingHumanApproval)
  }

  /** The request sets a protected status outright, and the table allows it. */
  predicate Jumps(g: Ledger, r: Request) {
    && r.UpdateStatus? && r.status in {ApprovedForExecution, Merged}
    && r.mission in g.missions && r.status in MissionTransitions(g.missions[r.mission])
  }

  ghost predicate Orderly(g: Ledger) {
    && Backed(g.approvals, g.events) && Followed(g)
    && forall id | id in g.approvals :: g.approvals[id].mission in g.missions
  }

  lemma LastAppended(approvals: map<Id, Approval>, events: seq<Event>, e: Event)
    ensures forall m, s :: ApprovesLast(approvals, events + [e], m, s) <==> Approves(approvals, e, m, s)
  {
  }

  lemma BackedAppend(a: map<Id, Approval>, b: map<Id, Approval>, events: seq<Event>, e: Event)
    requires Backed(a, events) && Keeps(a, b) && (e.ExecutionApproved? || e.MergeApproved? ==> e.approval in b)
    ensures Backed(b, events + [e])
  {
  }

  lemma {:induction false} PlainStep(g: Ledger, r: Request)
    requires Orderly(g) && !r.Resolve? && Serve(g, r).Committed?
    ensures Orderly(Next(g, r))
    ensures Gated(Next(g, r).approvals, Next(g, r).events) <==> Gated(g.approvals, g.events) && !Jumps(g, r)
  {
    var next := Next(g, r);
    var e := if r.Create? then MissionCreated(r.mission)
             else if r.UpdateStatus? then StateChanged(r.mission, r.status)
             else ApprovalRequested(r.mission, r.approval);
    assert next.events == g.events + [e] && Keeps(g.approvals, next.approvals);
    GatedUnder(g.approvals, next.approvals, g.events);
    GatedAppend(next.approvals, g.events, e);
    LastAppended(next.approvals, g.events, e);
    BackedAppend(g.approvals, next.approvals, g.events, e);
    hide Gated, ApprovesLast, Backed, Keeps;
    if r.UpdateStatus? && r.status in {ApprovedForExecution, Merged} {
      OnlyFrom(g.missions[r.mission], r.status);
    }
  }

  /** Each protected status is entered from one status only. */
  lemma OnlyFrom(from: MissionStatus, to: MissionStatus)
    requires to in {ApprovedForExecution, Merged} && to in MissionTransitions(from)
    ensures from == if to == Merged then AwaitingHumanApproval else Planned
  {
  }

  lemma {:induction false} ResolveStep(g: Ledger, id: Id, verdict: ApprovalStatus)
    requires Orderly(g) && Serve(g, Resolve(id, verdict)).Committed?
    ensures var next := Next(g, Resolve(id, verdict));
            Orderly(next) && (Gated(next.approvals, next.events) <==> Gated(g.approvals, g.events))
  {
    var a := g.approvals[id];
    var next := Next(g, Resolve(id, verdict));
    var e, from := ResolutionEvent(id, a, verdict), g.missions[a.mission];
    var to := Consequence(a.kind, verdict, from);
    var change := StateChanged(a.mission, to);
    assert Keeps(g.approvals, next.approvals);
    GatedUnder(g.approvals, next.approvals, g.events);
    GatedAppend(next.approvals, g.events, e);
    GatedAppend(next.approvals, g.events + [e], change);
    LastAppended(next.approvals, g.events, e);
    LastAppended(next.approvals, g.events + [e], change);
    BackedAppend(g.approvals, next.approvals, g.events, e);
    BackedAppend(next.approvals, next.approvals, g.events + [e], change);
    assert next.events == if to == from then g.events + [e] else g.events + [e] + [change];
    hide Gated, ApprovesLast, Backed, Keeps, MissionTransitions;
  }

  /** Entering a protected status stays gated in a step exactly when the step does not set it outright. */
  lemma {:induction false} GatedStepIff(g: Ledger, r: Request)
    requires Orderly(g)
    ensures Orderly(Next(g, r))
    ensures Gated(Next(g, r).approvals, Next(g, r).events) <==> Gated(g.approvals, g.events) && !Jumps(g, r)
  {
    hide Gated, Orderly;
    if Serve(g, r).Committed? {
      if r.Resolve? { ResolveStep(g, r.approval, r.verdict); } else { PlainStep(g, r); }
    }
  }

  lemma {:induction false} RunsAreOrderly(requests: seq<Request>)
    ensures Orderly(After(requests))
  {
    if requests != [] {
      var front := requests[..|requests| - 1];
      RunsAreOrderly(front);
      hide Orderly, Next;
      GatedStepIff(After(front), requests[|requests| - 1]);
    }
  }

  /** No request of the run sets a protected status outright on a mission from which the table allows it. */
  ghost predicate NeverJumps(requests: seq<Request>) {
    forall i | 0 <= i < |requests| :: !Jumps(After(requests[..i]), requests[i])
  }

  lemma NeverJumpsMore(front: seq<Request>, r: Request)
    ensures NeverJumps(front + [r]) <==> NeverJumps(front) && !Jumps(After(front), r)
  {
    hide Jumps, After;
    var more := front + [r];
    assert more[..|front|] == front && more[|front|] == r;
    assert forall i | 0 <= i < |front| :: more[..i] == front[..i] && more[i] == front[i];
    if NeverJumps(more) {
      forall i | 0 <= i < |front| ensures !Jumps(After(front[..i]), front[i]) {
        assert !Jumps(After(more[..i]), more[i]);
      }
      assert !Jumps(After(more[..|front|]), more[|front|]);
    }
  }

  /**
   Protected statuses are entered only right after an approval of the right kind for that mission if and only
   if no request ever set one outright on a mission from which the table allows it.
   */
  lemma {:induction false} ProtectedStatusesAreGated(requests: seq<Request>)
    ensures Gated(After(requests).approvals, After(requests).events) <==> NeverJumps(requests)
  {
    if requests != [] {
      var front, r := requests[..|requests| - 1], requests[|requests| - 1];
      assert requests == front + [r];
      AfterMore(front, r);
      hide *;
      ProtectedStatusesAreGated(front);
      RunsAreOrderly(front);
      GatedStepIff(After(front), r);
      NeverJumpsMore(front, r);
    }
  }

  /** The direct route: no approval is ever requested, and the mission is MERGED. */
  function Ungated(m: Id, steps: seq<MissionStatus>): seq<Request> {
    if steps == [] then [Create(m)] else Ungated(m, steps[..|steps| - 1]) + [UpdateStatus(m, steps[|steps| - 1])]
  }

  lemma LegalFront(h: seq<MissionStatus>)
    requires Legal(h) && |h| > 1
    ensures Legal(h[..|h| - 1])
  {
    var front := h[..|h| - 1];
    forall i | 0 <= i < |front| - 1 ensures front[i + 1] in MissionTransitions(front[i]) {
      assert h[i + 1] in MissionTransitions(h[i]);
    }
  }

  lemma {:induction false} UngatedRun(m: Id, steps: seq<MissionStatus>)
    requires Legal([Created] + steps)
    ensures var g := After(Ungated(m, steps));
            m in g.missions && g.missions[m] == ([Created] + steps)[|steps|] && g.approvals == map[]
    ensures forall e | e in After(Ungated(m, steps)).events :: e.MissionCreated? || e.StateChanged?
  {
    var run := Ungated(m, steps);
    if steps == [] {
      assert run == [] + [Create(m)] && run[..0] == [];
    } else {
      var front := steps[..|steps| - 1];
      var h := [Created] + steps;
      assert h[|front| + 1] in MissionTransitions(h[|front|]);
      LegalFront(h);
      assert h[..|h| - 1] == [Created] + front && h[|front|] == ([Created] + front)[|front|];
      hide Legal, MissionTransitions;
      UngatedRun(m, front);
      assert run[..|run| - 1] == Ungated(m, front);
    }
  }

  lemma MergedWithoutApproval(m: Id)
    ensures exists requests :: var g := After(requests);
              m in g.missions && g.missions[m] == Merged && g.approvals == map[] && !Gated(g.approvals, g.events)
  {
    var steps := Milestones() + [Merged];
    UngatedRun(m, steps);
    var g := After(Ungated(m, steps));
    LogAgreesWithState(Ungated(m, steps), m);
    if Gated(g.approvals, g.events) {
      NoneMerged(g.events, m);
    }
  }

  /** A gated log without approvals never tells of a merge. */
  lemma {:induction false} NoneMerged(events: seq<Event>, m: Id)
    requires Gated(map[], events)
    ensures Merged !in History(events, m)
  {
    if events != [] {
      var front, last := events[..|events| - 1], events[|events| - 1];
      assert events == front + [last];
      GatedAppend(map[], front, last);
      assert !Enters(last);
      hide Gated;
      NoneMerged(front, m);
      HistoryAppend(front, last, m);
    }
  }
}
