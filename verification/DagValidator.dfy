/**
 Validation of a new task dependency: a depth-first search that colours nodes with a
 visited set and a recursion stack, proved to decide exactly the existence of a cycle.
 */
module DagValidator {
  import opened Graph

  type Id = nat

  /** `task` may only start after `dependsOn` has succeeded. */
  datatype Dep = Dep(task: Id, dependsOn: Id)

  datatype Verdict = Accepted | SelfDependency | Duplicate | Cycle

  /** The dependency graph: parents point at their children. */
  ghost function Edges(deps: seq<Dep>): set<(Id, Id)> {
    set d | d in deps :: (d.dependsOn, d.task)
  }

  /** The edges of an adjacency list. */
  ghost function AdjacencyEdges(graph: map<Id, seq<Id>>): set<(Id, Id)> {
    set u, v | u in graph && v in graph[u] :: (u, v)
  }

  ghost function AdjacencyNodes(graph: map<Id, seq<Id>>): set<Id> {
    graph.Keys + set u, v | u in graph && v in graph[u] :: v
  }

  /** What validation must answer, stated without a search. */
  ghost predicate Decides(v: Verdict, dep: Dep, existing: seq<Dep>) {
    && (v.SelfDependency? <==> dep.task == dep.dependsOn)
    && (v.Duplicate? <==> dep.task != dep.dependsOn && dep in existing)
    && (v.Cycle? <==> dep.task != dep.dependsOn && dep !in existing && Cyclic(Edges(existing + [dep])))
  }

  /** graph.setdefault(from, []).append(to) */
  function AddEdge(graph: map<Id, seq<Id>>, from: Id, to: Id): (g: map<Id, seq<Id>>)
    ensures AdjacencyEdges(g) == AdjacencyEdges(graph) + {(from, to)}
  {
    var g := graph[from := (if from in graph then graph[from] else []) + [to]];
    assert forall u, v :: (u, v) in AdjacencyEdges(g) <==> (u, v) in AdjacencyEdges(graph) + {(from, to)};
    g
  }

  // ------------------------------------------------------------- the search state

  /** Every edge out of a finished node ends at a node finished before it. */
  ghost predicate Closed(edges: set<(Id, Id)>, finished: seq<Id>) {
    forall u, v | u in finished && (u, v) in edges :: EndsBefore(finished, u, v)
  }

  /**
   `path` lists the recursion stack, outermost first, and is a walk; `finished` lists the
   nodes the search has left for good, oldest first; nothing else has been visited.
   */
  ghost predicate SearchState(graph: map<Id, seq<Id>>, visited: set<Id>, recStack: set<Id>,
                              finished: seq<Id>, path: seq<Id>) {
    && visited <= AdjacencyNodes(graph)
    && recStack == Elements(path)
    && visited == recStack + Elements(finished)
    && recStack !! Elements(finished)
    && Distinct(path) && Distinct(finished)
    && (path != [] ==> IsWalk(AdjacencyEdges(graph), path))
    && Closed(AdjacencyEdges(graph), finished)
  }

  /** The node is unvisited and hangs off the top of the stack. */
  ghost predicate CanEnter(graph: map<Id, seq<Id>>, visited: set<Id>, path: seq<Id>, node: Id) {
    && node in AdjacencyNodes(graph) && node !in visited
    && (path != [] ==> (path[|path| - 1], node) in AdjacencyEdges(graph))
  }

  lemma Enter(graph: map<Id, seq<Id>>, visited: set<Id>, recStack: set<Id>, finished: seq<Id>, path: seq<Id>, node: Id)
    requires SearchState(graph, visited, recStack, finished, path) && CanEnter(graph, visited, path, node)
    ensures SearchState(graph, visited + {node}, recStack + {node}, finished, path + [node])
    ensures node !in recStack && AdjacencyNodes(graph) - (visited + {node}) < AdjacencyNodes(graph) - visited
  {
    ElementsAppend(path, node);
    if path != [] { ExtendWalk(AdjacencyEdges(graph), path, node); }
    assert node in AdjacencyNodes(graph) - visited;
  }

  /** A node all of whose neighbours are finished may be finished next. */
  lemma Leave(graph: map<Id, seq<Id>>, visited: set<Id>, recStack: set<Id>, finished: seq<Id>, path: seq<Id>, node: Id)
    requires node !in recStack && SearchState(graph, visited, recStack + {node}, finished, path + [node])
    requires node in graph ==> forall v | v in graph[node] :: v in visited && v !in recStack + {node}
    ensures SearchState(graph, visited, recStack, finished + [node], path)
  {
    hide AdjacencyEdges, AdjacencyNodes, IsWalk, Closed, Distinct, Elements;
    Pop(path, node);
    if path != [] {
      SubWalk(AdjacencyEdges(graph), path + [node], 0, |path|);
      assert (path + [node])[0..|path|] == path;
    }
    Finishable(graph, visited, recStack + {node}, finished, node);
    FinishNode(AdjacencyEdges(graph), finished, node);
    ElementsAppend(finished, node);
    assert recStack == Elements(path);
    assert visited == recStack + Elements(finished + [node]);
  }

  lemma Finishable(graph: map<Id, seq<Id>>, visited: set<Id>, recStack: set<Id>, finished: seq<Id>, node: Id)
    requires visited == recStack + Elements(finished) && node in recStack && recStack !! Elements(finished)
    requires node in graph ==> forall v | v in graph[node] :: v in visited && v !in recStack
    ensures node !in finished && forall v | (node, v) in AdjacencyEdges(graph) :: v in finished
  {
    assert node !in Elements(finished);
    assert forall v | v in Elements(finished) :: v in finished;
  }

  lemma Pop(s: seq<Id>, x: Id)
    requires Distinct(s + [x])
    ensures x !in Elements(s) && Distinct(s) && Elements(s + [x]) == Elements(s) + {x}
  {
    assert forall i | 0 <= i < |s| :: (s + [x])[i] == s[i];
    assert (s + [x])[|s|] == x;
  }

  lemma FinishNode(edges: set<(Id, Id)>, finished: seq<Id>, node: Id)
    requires Closed(edges, finished)
    requires forall v | (node, v) in edges :: v in finished
    ensures Closed(edges, finished + [node])
  {
    var after := finished + [node];
    forall u, v | u in after && (u, v) in edges ensures EndsBefore(after, u, v) {
      if u in finished {
        var i, j :| 0 <= j < i < |finished| && finished[i] == u && finished[j] == v;
        assert after[i] == u && after[j] == v;
      } else {
        var j :| 0 <= j < |finished| && finished[j] == v;
        assert after[|finished|] == u && after[j] == v;
      }
    }
  }

  lemma ElementsAppend(s: seq<Id>, x: Id)
    requires x !in s && Distinct(s)
    ensures Elements(s + [x]) == Elements(s) + {x} && Distinct(s + [x])
  {
  }

  /** An edge back into the stack closes a cycle. */
  lemma BackEdge(graph: map<Id, seq<Id>>, visited: set<Id>, recStack: set<Id>, finished: seq<Id>, path: seq<Id>,
                 neighbor: Id)
    requires SearchState(graph, visited, recStack, finished, path) && neighbor in recStack
    requires (path[|path| - 1], neighbor) in AdjacencyEdges(graph)
    ensures Cyclic(AdjacencyEdges(graph))
  {
    var k :| 0 <= k < |path| && path[k] == neighbor;
    ExtendWalk(AdjacencyEdges(graph), path, neighbor);
    RepeatMakesCycle(AdjacencyEdges(graph), path + [neighbor], k, |path|);
  }

  /** A fresh neighbour of the node on top of the stack may be entered. */
  lemma NeighborEnters(graph: map<Id, seq<Id>>, visited: set<Id>, path: seq<Id>, node: Id, neighbor: Id)
    requires node in graph && neighbor in graph[node]
    ensures (node, neighbor) in AdjacencyEdges(graph)
    ensures neighbor !in visited ==> CanEnter(graph, visited, path + [node], neighbor)
  {
  }

  class CycleSearch {
    const graph: map<Id, seq<Id>>
    var visited: set<Id>
    var recStack: set<Id>
    ghost var finished: seq<Id>
    ghost var path: seq<Id>

    constructor (graph: map<Id, seq<Id>>)
      ensures this.graph == graph && visited == {} && path == [] && Valid()
    {
      this.graph := graph;
      visited, recStack := {}, {};
      finished, path := [], [];
    }

    ghost predicate Valid()
      reads this
    {
      SearchState(graph, visited, recStack, finished, path)
    }

    method IsCyclic(node: Id) returns (found: bool)
      requires Valid() && CanEnter(graph, visited, path, node)
      modifies this
      ensures found ==> Cyclic(AdjacencyEdges(graph))
      ensures !found ==> Valid() && recStack == old(recStack) && path == old(path) && old(visited) + {node} <= visited
      decreases AdjacencyNodes(graph) - visited
    {
      hide SearchState, CanEnter, AdjacencyEdges, AdjacencyNodes, Cyclic;
      Enter(graph, visited, recStack, finished, path, node);
      visited := visited + {node};
      recStack := recStack + {node};
      path := path + [node];

      var neighbors := if node in graph then graph[node] else [];
      for i := 0 to |neighbors|
        invariant Valid() && path == old(path) + [node] && recStack == old(recStack) + {node}
        invariant old(visited) + {node} <= visited
        invariant AdjacencyNodes(graph) - visited <= AdjacencyNodes(graph) - old(visited + {node})
        invariant forall k | 0 <= k < i :: neighbors[k] in visited && neighbors[k] !in recStack
      {
        var neighbor := neighbors[i];
        NeighborEnters(graph, visited, old(path), node, neighbor);
        if neighbor !in visited {
          NotOnStack(graph, visited, recStack, finished, path, neighbor);
          var deeper := IsCyclic(neighbor);
          if deeper {
            return true;
          }
        } else if neighbor in recStack {
          BackEdge(graph, visited, recStack, finished, path, neighbor);
          return true;
        }
      }

      Leave(graph, visited, old(recStack), finished, old(path), node);
      recStack := recStack - {node};
      path := old(path);
      finished := finished + [node];
      return false;
    }
  }

  lemma NotOnStack(graph: map<Id, seq<Id>>, visited: set<Id>, recStack: set<Id>, finished: seq<Id>, path: seq<Id>,
                   node: Id)
    requires SearchState(graph, visited, recStack, finished, path) && node !in visited
    ensures node !in recStack
  {
  }

  /** DAGValidator.validate_new_dependency: the error it raises, or acceptance. */
  method ValidateNewDependency(dep: Dep, existing: seq<Dep>) returns (v: Verdict)
    ensures Decides(v, dep, existing)
  {
    if dep.task == dep.dependsOn {
      return SelfDependency;
    }
    for i := 0 to |existing|
      invariant dep !in existing[..i]
    {
      if existing[i].task == dep.task && existing[i].dependsOn == dep.dependsOn {
        return Duplicate;
      }
    }
    assert existing[..|existing|] == existing;

    var graph: map<Id, seq<Id>> := map[];
    for i := 0 to |existing|
      invariant AdjacencyEdges(graph) == Edges(existing[..i])
    {
      graph := AddEdge(graph, existing[i].dependsOn, existing[i].task);
      EdgesAppend(existing[..i], existing[i]);
      assert existing[..i + 1] == existing[..i] + [existing[i]];
    }
    graph := AddEdge(graph, dep.dependsOn, dep.task);
    EdgesAppend(existing, dep);

    var search := new CycleSearch(graph);
    var rest := graph.Keys;
    while rest != {}
      invariant search.graph == graph && search.Valid() && search.path == []
      invariant rest <= graph.Keys <= rest + search.visited
      decreases rest
    {
      var node :| node in rest;
      if node !in search.visited {
        var found := search.IsCyclic(node);
        if found {
          return Cycle;
        }
      }
      rest := rest - {node};
    }
    FinishedMeansAcyclic(graph, search.finished);
    return Accepted;
  }

  lemma EdgesAppend(deps: seq<Dep>, d: Dep)
    ensures Edges(deps + [d]) == Edges(deps) + {(d.dependsOn, d.task)}
  {
    assert forall e :: e in deps + [d] <==> e in deps || e == d;
    forall e | e in Edges(deps) + {(d.dependsOn, d.task)} ensures e in Edges(deps + [d]) {
      if e in Edges(deps) {
        var x :| x in deps && e == (x.dependsOn, x.task);
        assert x in deps + [d];
      } else {
        assert d in deps + [d];
      }
    }
  }

  /** Starting only from nodes with outgoing edges loses no cycle. */
  lemma FinishedMeansAcyclic(graph: map<Id, seq<Id>>, finished: seq<Id>)
    requires Distinct(finished)
    requires forall u | u in graph :: u in finished
    requires Closed(AdjacencyEdges(graph), finished)
    ensures !Cyclic(AdjacencyEdges(graph))
  {
    assert PostOrder(AdjacencyEdges(graph), finished);
    PostOrderMeansAcyclic(AdjacencyEdges(graph), finished);
  }
}
