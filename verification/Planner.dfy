/** The planner's checks: an LLM's list of titled tasks becomes dependencies, validated edge by edge. */
module Planner {
  import opened Graph
  import opened DagValidator
  import opened Wrappers

  datatype PlanTask = PlanTask(title: string, dependencies: seq<string>)

  datatype PlanCheck = PlanOk | UnknownTitle | DagError(verdict: Verdict)

  ghost function Titles(tasks: seq<PlanTask>): set<string> {
    set t | t in tasks :: t.title
  }

  /** The plan's graph over titles; equal titles are one node, repeated dependencies one edge. */
  ghost function TitleEdges(tasks: seq<PlanTask>): set<(string, string)> {
    set t, d | t in tasks && d in t.dependencies :: (d, t.title)
  }

  ghost predicate AllDeclared(tasks: seq<PlanTask>) {
    forall t, d | t in tasks && d in t.dependencies :: d in Titles(tasks)
  }

  /** (needed title, needing title), in the order the planner meets them. */
  ghost function Pairs(tasks: seq<PlanTask>): seq<(string, string)> {
    if tasks == [] then [] else
      var t := tasks[|tasks| - 1];
      Pairs(tasks[..|tasks| - 1]) + TaskPairs(t, |t.dependencies|)
  }

  ghost function TaskPairs(t: PlanTask, k: nat): seq<(string, string)>
    requires k <= |t.dependencies|
  {
    seq(k, j requires 0 <= j < k => (t.dependencies[j], t.title))
  }

  ghost predicate Injective(ids: map<string, Id>) {
    forall x, y | x in ids && y in ids && x != y :: ids[x] != ids[y]
  }

  /** The dependencies are the title pairs, written with ids. */
  ghost predicate Names(deps: seq<Dep>, pairs: seq<(string, string)>, ids: map<string, Id>) {
    |deps| == |pairs| &&
    forall i | 0 <= i < |pairs| ::
      pairs[i].0 in ids && pairs[i].1 in ids && deps[i] == Dep(ids[pairs[i].1], ids[pairs[i].0])
  }

  lemma NamesAppend(deps: seq<Dep>, pairs: seq<(string, string)>, ids: map<string, Id>, p: (string, string))
    requires Names(deps, pairs, ids) && p.0 in ids && p.1 in ids
    ensures Names(deps + [Dep(ids[p.1], ids[p.0])], pairs + [p], ids)
  {
  }

  /** The planner's checks between parsing a response and accepting it. */
  method CheckPlan(tasks: seq<PlanTask>) returns (c: PlanCheck)
    ensures c.UnknownTitle? <==> !AllDeclared(tasks)
    ensures c.PlanOk? <==> AllDeclared(tasks) && !Cyclic(TitleEdges(tasks))
    ensures c.DagError? ==>
              Pairs(tasks) != [] &&
              c.verdict == if Pairs(tasks)[0].0 == Pairs(tasks)[0].1 then SelfDependency else Cycle
  {
    var ids := AssignIds(tasks);
    var built := BuildDependencies(tasks, ids);
    DeclaredPairs(tasks);
    if built.None? {
      return UnknownTitle;
    }
    var v := ValidateEach(built.value);
    NamedCycles(built.value, tasks, ids);
    return if v.Accepted? then PlanOk else DagError(v);
  }

  /** A fresh id per title; of two tasks with one title the later id wins. */
  method AssignIds(tasks: seq<PlanTask>) returns (ids: map<string, Id>)
    ensures ids.Keys == Titles(tasks) && Injective(ids)
  {
    ids := map[];
    for i := 0 to |tasks|
      invariant ids.Keys == set t | t in tasks[..i] :: t.title
      invariant Injective(ids) && forall x | x in ids :: ids[x] < i
    {
      ids := ids[tasks[i].title := i];
      assert tasks[..i + 1] == tasks[..i] + [tasks[i]];
    }
    assert tasks[..|tasks|] == tasks;
  }

  method BuildDependencies(tasks: seq<PlanTask>, ids: map<string, Id>) returns (r: Option<seq<Dep>>)
    requires ids.Keys == Titles(tasks)
    ensures r.None? <==> exists p :: p in Pairs(tasks) && p.0 !in ids
    ensures r.Some? ==> Names(r.value, Pairs(tasks), ids)
  {
    var deps: seq<Dep> := [];
    for n := 0 to |tasks|
      invariant Names(deps, Pairs(tasks[..n]), ids)
    {
      var t := tasks[n];
      assert t in tasks;
      assert tasks[..n + 1][..n] == tasks[..n];
      assert Pairs(tasks[..n + 1]) == Pairs(tasks[..n]) + TaskPairs(t, |t.dependencies|);
      ghost var sofar := Pairs(tasks[..n]);
      for k := 0 to |t.dependencies|
        invariant Names(deps, sofar + TaskPairs(t, k), ids)
      {
        if t.dependencies[k] !in ids {
          PairsPrefix(tasks, n + 1);
          assert TaskPairs(t, |t.dependencies|)[k] == (t.dependencies[k], t.title);
          assert (t.dependencies[k], t.title) in Pairs(tasks[..n + 1]);
          return None;
        }
        NamesAppend(deps, sofar + TaskPairs(t, k), ids, (t.dependencies[k], t.title));
        assert sofar + TaskPairs(t, k + 1) == sofar + TaskPairs(t, k) + [(t.dependencies[k], t.title)];
        deps := deps + [Dep(ids[t.title], ids[t.dependencies[k]])];
      }
    }
    assert tasks[..|tasks|] == tasks;
    return Some(deps);
  }

  /** The validation loop: each dependency is tested against all the others. */
  method ValidateEach(deps: seq<Dep>) returns (v: Verdict)
    ensures v.Accepted? <==> !Cyclic(Edges(deps))
    ensures !v.Accepted? ==>
              deps != [] && v == if deps[0].task == deps[0].dependsOn then SelfDependency else Cycle
  {
    for i := 0 to |deps|
      invariant i > 0 ==> !Cyclic(Edges(deps))
    {
      var others := Without(deps, deps[i]);
      v := ValidateNewDependency(deps[i], others);
      SameEdges(deps, i, others);
      if deps[i].task == deps[i].dependsOn {
        SelfLoopIsCycle(deps, i);
      }
      if v != Accepted {
        return;
      }
    }
    if deps == [] {
      assert PostOrder(Edges(deps), []);
      PostOrderMeansAcyclic(Edges(deps), []);
    }
    v := Accepted;
  }

  /** [existing for existing in deps if existing != d] */
  function Without(deps: seq<Dep>, d: Dep): (r: seq<Dep>)
    ensures forall x :: x in r <==> x in deps && x != d
  {
    if deps == [] then []
    else if deps[0] == d then Without(deps[1..], d)
    else [deps[0]] + Without(deps[1..], d)
  }

  /** Each round of the validation loop tests one and the same edge set. */
  lemma SameEdges(deps: seq<Dep>, i: nat, others: seq<Dep>)
    requires i < |deps| && forall x :: x in others <==> x in deps && x != deps[i]
    ensures Edges(others + [deps[i]]) == Edges(deps)
  {
    assert forall x :: x in others + [deps[i]] <==> x in deps;
  }

  lemma SelfLoopIsCycle(deps: seq<Dep>, i: nat)
    requires i < |deps| && deps[i].task == deps[i].dependsOn
    ensures Cyclic(Edges(deps))
  {
    var w := [deps[i].task, deps[i].task];
    assert deps[i] in deps;
    assert IsWalk(Edges(deps), w);
    assert |w| >= 2 && w[0] == w[|w| - 1];
  }

  lemma {:induction false} PairsPrefix(tasks: seq<PlanTask>, n: nat)
    requires n <= |tasks|
    ensures forall p | p in Pairs(tasks[..n]) :: p in Pairs(tasks)
    decreases |tasks| - n
  {
    if n < |tasks| {
      assert tasks[..n + 1][..n] == tasks[..n];
      PairsPrefix(tasks, n + 1);
    } else {
      assert tasks[..n] == tasks;
    }
  }

  lemma {:induction false} PairsAreEdges(tasks: seq<PlanTask>)
    ensures forall p :: p in Pairs(tasks) <==> p in TitleEdges(tasks)
  {
    if tasks != [] {
      var front, t := tasks[..|tasks| - 1], tasks[|tasks| - 1];
      PairsAreEdges(front);
      assert tasks == front + [t];
      assert forall p :: p in TaskPairs(t, |t.dependencies|) <==> p.0 in t.dependencies && p.1 == t.title by {
        forall d | d in t.dependencies ensures (d, t.title) in TaskPairs(t, |t.dependencies|) {
          var j :| 0 <= j < |t.dependencies| && t.dependencies[j] == d;
          assert TaskPairs(t, |t.dependencies|)[j] == (d, t.title);
        }
      }
    }
  }

  lemma DeclaredPairs(tasks: seq<PlanTask>)
    ensures AllDeclared(tasks) <==> forall p | p in Pairs(tasks) :: p.0 in Titles(tasks)
  {
    PairsAreEdges(tasks);
    if forall p | p in Pairs(tasks) :: p.0 in Titles(tasks) {
      forall t, d | t in tasks && d in t.dependencies ensures d in Titles(tasks) {
        assert (d, t.title) in Pairs(tasks);
      }
    }
  }

  /** The ids are only new names for the titles, so the cycles are the same. */
  lemma NamedCycles(deps: seq<Dep>, tasks: seq<PlanTask>, ids: map<string, Id>)
    requires ids.Keys == Titles(tasks) && Injective(ids) && Names(deps, Pairs(tasks), ids)
    ensures Cyclic(Edges(deps)) <==> Cyclic(TitleEdges(tasks))
    ensures Pairs(tasks) != [] ==> (deps[0].task == deps[0].dependsOn <==> Pairs(tasks)[0].0 == Pairs(tasks)[0].1)
  {
    PairsAreEdges(tasks);
    var pairs := Pairs(tasks);
    forall e | e in TitleEdges(tasks)
      ensures e.0 in ids && e.1 in ids && (ids[e.0], ids[e.1]) in Edges(deps)
    {
      var i :| 0 <= i < |pairs| && pairs[i] == e;
      assert deps[i] in deps;
    }
    forall f | f in Edges(deps)
      ensures exists e :: e in TitleEdges(tasks) && f == (ids[e.0], ids[e.1])
    {
      var i :| 0 <= i < |deps| && f == (deps[i].dependsOn, deps[i].task);
      assert pairs[i] in TitleEdges(tasks) && f == (ids[pairs[i].0], ids[pairs[i].1]);
    }
    RelabelKeepsCycles(TitleEdges(tasks), ids, Edges(deps));
  }
}
