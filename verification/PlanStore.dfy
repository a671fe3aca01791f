/** The stored plans of a mission: superseded, generated with one retry, approved or rejected. */
module PlanStore {
  import opened Graph
  import opened DagValidator
  import opened Wrappers
  import opened Planner
  import M = MissionLog

  datatype PlanStatus = Generated | Validated | Rejected | Approved | Superseded

  datatype Plan = Plan(mission: Id, status: PlanStatus, tasks: seq<PlanTask>)

  /** What comes back from one attempt: an exception, a response that does not parse, or a list of tasks. */
  datatype Reply = ProviderDown | Unparsable | Proposal(tasks: seq<PlanTask>)

  datatype Outcome = MissionMissing | NotPlanning | ProviderFailed | PlannerFailed | Planned(plan: Plan)

  ghost predicate Acceptable(r: Reply) {
    r.Proposal? && AllDeclared(r.tasks) && !Cyclic(TitleEdges(r.tasks))
  }

  predicate Active(p: Plan, m: Id) {
    p.mission == m && p.status in {Generated, Validated}
  }

  ghost function SupersedeAll(plans: seq<Plan>, m: Id): (r: seq<Plan>)
    ensures |r| == |plans|
    ensures forall i | 0 <= i < |plans| ::
              r[i] == if Active(plans[i], m) then plans[i].(status := Superseded) else plans[i]
  {
    seq(|plans|, i requires 0 <= i < |plans| =>
          if Active(plans[i], m) then plans[i].(status := Superseded) else plans[i])
  }

  /** The first attempt that settles the matter, of those from the given one on; there are two in all. */
  ghost function Settled(replies: nat -> Reply, attempt: nat): (k: nat)
    requires attempt <= 2
    ensures attempt <= k <= 2
    ensures k < 2 ==> replies(k).ProviderDown? || Acceptable(replies(k))
    ensures forall j | attempt <= j < k :: !replies(j).ProviderDown? && !Acceptable(replies(j))
    decreases 2 - attempt
  {
    if attempt == 2 || replies(attempt).ProviderDown? || Acceptable(replies(attempt)) then attempt
    else Settled(replies, attempt + 1)
  }

  /** The commits on plans: those generate_plan makes, of whichever call, and a caller's decision on a plan. */
  datatype Commit = SupersedeFor(mission: Id) | Store(plan: Plan) | Decide(at: nat, approve: bool)

  ghost function Apply(plans: seq<Plan>, c: Commit): seq<Plan> {
    match c
    case SupersedeFor(m) => SupersedeAll(plans, m)
    case Store(p) => plans + [p]
    case Decide(i, approve) =>
      if i < |plans| then plans[i := plans[i].(status := if approve then Approved else Rejected)] else plans
  }

  ghost function From(plans: seq<Plan>, commits: seq<Commit>): seq<Plan> {
    if commits == [] then plans else Apply(From(plans, commits[..|commits| - 1]), commits[|commits| - 1])
  }

  /** A call of generate_plan that gets past its guards: it supersedes, then stores what it has, if anything. */
  ghost predicate WholeCall(call: seq<Commit>) {
    && 1 <= |call| <= 2 && call[0].SupersedeFor?
    && (|call| == 2 ==> call[1].Store? && call[1].plan.mission == call[0].mission)
  }

  /** The commits of one call: none, those of generate_plan, or a decision. */
  ghost predicate Call(call: seq<Commit>) {
    call == [] || WholeCall(call) || (|call| == 1 && call[0].Decide?)
  }

  lemma FromTwo(plans: seq<Plan>, c: Commit, d: Commit)
    ensures From(plans, [c]) == Apply(plans, c) && From(plans, [c, d]) == Apply(Apply(plans, c), d)
  {
    assert [c][..0] == [] && [c, d][..1] == [c];
  }

  class PlanTable {
    var plans: seq<Plan>

    constructor ()
      ensures plans == []
    {
      plans := [];
    }

    /** The first unit of work of generate_plan. */
    method Supersede(m: Id)
      modifies this
      ensures plans == SupersedeAll(old(plans), m)
      ensures |plans| == |old(plans)|
      ensures forall i | 0 <= i < |plans| ::
                plans[i] == if old(plans)[i].mission == m && old(plans)[i].status in {Generated, Validated}
                            then old(plans)[i].(status := Superseded) else old(plans)[i]
    {
      for i := 0 to |plans|
        invariant |plans| == |old(plans)|
        invariant plans[..i] == SupersedeAll(old(plans), m)[..i] && plans[i..] == old(plans)[i..]
      {
        assert plans[i] == plans[i..][0] == old(plans)[i];
        if plans[i].mission == m && (plans[i].status == Generated || plans[i].status == Validated) {
          plans := plans[i := plans[i].(status := Superseded)];
        }
        assert plans[..i + 1] == SupersedeAll(old(plans), m)[..i] + [plans[i]];
      }
      assert plans[..|plans|] == plans;
    }

    /** PlannerAgent.generate_plan */
    method GeneratePlan(m: Id, status: Option<M.MissionStatus>, replies: nat -> Reply)
      returns (r: Outcome, ghost call: seq<Commit>)
      modifies this
      ensures Call(call) && plans == From(old(plans), call)
      ensures r.MissionMissing? <==> status.None?
      ensures r.NotPlanning? <==> status.Some? && status.value != M.Planning
      ensures r.MissionMissing? || r.NotPlanning? ==> plans == old(plans)
      ensures status == Some(M.Planning) ==>
                var k, kept := Settled(replies, 0), SupersedeAll(old(plans), m);
                if k == 2 then r == PlannerFailed && plans == kept + [Plan(m, Rejected, [])]
                else if replies(k).ProviderDown? then r == ProviderFailed && plans == kept
                else r == Planned(Plan(m, Validated, replies(k).tasks)) && plans == kept + [r.plan]
      ensures status == Some(M.Planning) ==>
                && (r == if replies(0).ProviderDown? then ProviderFailed
                         else if Acceptable(replies(0)) then Planned(Plan(m, Validated, replies(0).tasks))
                         else if replies(1).ProviderDown? then ProviderFailed
                         else if Acceptable(replies(1)) then Planned(Plan(m, Validated, replies(1).tasks))
                         else PlannerFailed)
                && |plans| == |old(plans)| + (if r == ProviderFailed then 0 else 1)
                && (forall i | 0 <= i < |old(plans)| ::
                      plans[i] == if old(plans)[i].mission == m && old(plans)[i].status in {Generated, Validated}
                                  then old(plans)[i].(status := Superseded) else old(plans)[i])
                && (r == PlannerFailed ==> plans[|plans| - 1] == Plan(m, Rejected, []))
                && (r.Planned? ==> plans[|plans| - 1] == r.plan)
    {
      if status.None? {
        return MissionMissing, [];
      }
      if status.value != M.Planning {
        return NotPlanning, [];
      }
      Supersede(m);
      for attempt := 0 to 2
        invariant plans == SupersedeAll(old(plans), m) && Settled(replies, attempt) == Settled(replies, 0)
      {
        var reply := replies(attempt);
        match reply
        case ProviderDown =>
          FromTwo(old(plans), SupersedeFor(m), SupersedeFor(m));
          return ProviderFailed, [SupersedeFor(m)];
        case Unparsable =>
        case Proposal(tasks) =>
          var check := CheckPlan(tasks);
          if check.PlanOk? {
            var plan := Plan(m, Validated, tasks);
            plans := plans + [plan];
            FromTwo(old(plans), SupersedeFor(m), Store(plan));
            return Planned(plan), [SupersedeFor(m), Store(plan)];
          }
      }
      plans := plans + [Plan(m, Rejected, [])];
      FromTwo(old(plans), SupersedeFor(m), Store(Plan(m, Rejected, [])));
      return PlannerFailed, [SupersedeFor(m), Store(Plan(m, Rejected, []))];
    }

    /** The API's approval or rejection of a plan, of whatever status; false if there is no such plan. */
    method DecidePlan(at: nat, approve: bool) returns (found: bool)
      modifies this
      ensures found <==> at < |old(plans)|
      ensures plans == if found then old(plans)[at := old(plans)[at].(status := if approve then Approved else Rejected)]
                       else old(plans)
      ensures plans == From(old(plans), [Decide(at, approve)])
    {
      found := at < |plans|;
      FromTwo(plans, Decide(at, approve), Decide(at, approve));
      if found {
        plans := plans[at := plans[at].(status := if approve then Approved else Rejected)];
      }
    }
  }

  // ------------------------------------------------------------------ active plans

  ghost function After(commits: seq<Commit>): seq<Plan> {
    From([], commits)
  }

  /** The places of the active plans stored since the mission's plans were last superseded, and not decided since. */
  ghost function StoredSince(commits: seq<Commit>, m: Id): set<nat> {
    if commits == [] then {}
    else
      var front := commits[..|commits| - 1];
      var places := StoredSince(front, m);
      match commits[|commits| - 1]
      case SupersedeFor(x) => if x == m then {} else places
      case Store(p) => if Active(p, m) then places + {|After(front)|} else places
      case Decide(i, _) => places - {i}
  }

  ghost predicate ActiveAt(plans: seq<Plan>, i: nat, m: Id) {
    i < |plans| && Active(plans[i], m)
  }

  /** However calls interleave, the active plans are exactly those. */
  lemma {:induction false} ActiveAreStoredSince(commits: seq<Commit>, m: Id)
    ensures forall i :: i in StoredSince(commits, m) <==> ActiveAt(After(commits), i, m)
  {
    if commits != [] {
      var front := commits[..|commits| - 1];
      ActiveAreStoredSince(front, m);
      hide From;
      forall i: nat ensures i in StoredSince(commits, m) <==> ActiveAt(After(commits), i, m) {
        assert i in StoredSince(front, m) <==> ActiveAt(After(front), i, m);
        AppliedActive(After(front), commits[|commits| - 1], i, m);
        FromLast([], commits);
      }
    }
  }

  lemma FromLast(plans: seq<Plan>, commits: seq<Commit>)
    requires commits != []
    ensures From(plans, commits) == Apply(From(plans, commits[..|commits| - 1]), commits[|commits| - 1])
  {
  }

  lemma AppliedActive(plans: seq<Plan>, c: Commit, i: nat, m: Id)
    ensures ActiveAt(Apply(plans, c), i, m) <==>
            if c.SupersedeFor? then c.mission != m && ActiveAt(plans, i, m)
            else if c.Store? then ActiveAt(plans, i, m) || (i == |plans| && Active(c.plan, m))
            else i != c.at && ActiveAt(plans, i, m)
  {
  }

  ghost function Flatten(calls: seq<seq<Commit>>): seq<Commit> {
    if calls == [] then [] else Flatten(calls[..|calls| - 1]) + calls[|calls| - 1]
  }

  /** Committing a call on top of others is committing all their commits in order. */
  lemma {:induction false} FromAppend(plans: seq<Plan>, first: seq<Commit>, next: seq<Commit>)
    ensures From(plans, first + next) == From(From(plans, first), next)
  {
    if next == [] {
      assert first + next == first;
    } else {
      FromAppend(plans, first, next[..|next| - 1]);
      assert (first + next)[..|first + next| - 1] == first + next[..|next| - 1];
      hide Apply;
    }
  }

  lemma StoredAppend(commits: seq<Commit>, c: Commit, m: Id)
    ensures StoredSince(commits + [c], m) ==
            if c.SupersedeFor? then (if c.mission == m then {} else StoredSince(commits, m))
            else if c.Decide? then StoredSince(commits, m) - {c.at}
            else if Active(c.plan, m) then StoredSince(commits, m) + {|After(commits)|}
            else StoredSince(commits, m)
  {
    assert (commits + [c])[..|commits|] == commits;
    hide After;
  }

  ghost predicate AtMostOne(places: set<nat>) {
    forall i, j | i in places && j in places :: i == j
  }

  lemma CallLeavesOne(before: seq<Commit>, call: seq<Commit>, m: Id)
    requires Call(call) && AtMostOne(StoredSince(before, m))
    ensures AtMostOne(StoredSince(before + call, m))
  {
    hide StoredSince, After;
    if call == [] {
      assert before + call == before;
    } else {
      StoredAppend(before, call[0], m);
      if |call| == 2 {
        StoredAppend(before + [call[0]], call[1], m);
        assert before + call == before + [call[0]] + [call[1]];
      } else {
        assert call == [call[0]];
      }
    }
  }

  lemma {:induction false} CallsLeaveOne(calls: seq<seq<Commit>>, m: Id)
    requires forall i | 0 <= i < |calls| :: Call(calls[i])
    ensures AtMostOne(StoredSince(Flatten(calls), m))
  {
    if calls != [] {
      hide Call, StoredSince, AtMostOne;
      CallsLeaveOne(calls[..|calls| - 1], m);
      CallLeavesOne(Flatten(calls[..|calls| - 1]), calls[|calls| - 1], m);
    }
  }

  /** Calls made one after another never leave a mission more than one active plan. */
  lemma {:induction false} OneActivePlan(calls: seq<seq<Commit>>, m: Id, i: nat, j: nat)
    requires forall k | 0 <= k < |calls| :: Call(calls[k])
    requires ActiveAt(After(Flatten(calls)), i, m) && ActiveAt(After(Flatten(calls)), j, m)
    ensures i == j
  {
    CallsLeaveOne(calls, m);
    hide ActiveAt, After, StoredSince, Flatten, Call;
    ActiveAreStoredSince(Flatten(calls), m);
  }

  /** Two calls that overlap leave two. */
  lemma {:induction false} OverlappingCallsLeaveTwo(m: Id, tasks: seq<PlanTask>)
    ensures var p := Plan(m, Validated, tasks);
            After([SupersedeFor(m), SupersedeFor(m), Store(p), Store(p)]) == [p, p] && Active(p, m)
  {
    var p := Plan(m, Validated, tasks);
    var s := SupersedeFor(m);
    FromTwo([], s, s);
    FromAppend([], [s, s], [Store(p), Store(p)]);
    FromTwo([], Store(p), Store(p));
    assert [s, s] + [Store(p), Store(p)] == [s, s, Store(p), Store(p)];
    hide From;
  }

  /** Not rejected and not superseded. */
  predicate Standing(p: Plan, m: Id) {
    p.mission == m && p.status in {Generated, Validated, Approved}
  }

  /** Superseding leaves a mission a plan that still stands exactly when one had been approved. */
  lemma ApprovedPlansStand(plans: seq<Plan>, m: Id)
    ensures (exists i | 0 <= i < |plans| :: Standing(SupersedeAll(plans, m)[i], m)) <==>
            (exists i | 0 <= i < |plans| :: plans[i] == Plan(m, Approved, plans[i].tasks))
  {
    var after := SupersedeAll(plans, m);
    if i :| 0 <= i < |plans| && Standing(after[i], m) {
      assert plans[i] == Plan(m, Approved, plans[i].tasks);
    }
    if i :| 0 <= i < |plans| && plans[i] == Plan(m, Approved, plans[i].tasks) {
      assert Standing(after[i], m);
    }
  }
}
