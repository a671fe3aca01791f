/**
 Directed graphs as finite sets of edges, and the facts about cycles and walks that the
 dependency checks, the scheduler and the planner share.  An edge (u, v) says that v
 depends on u.
 */
module Graph {

  /** A nonempty sequence of nodes, each joined to the next by an edge. */
  ghost predicate IsWalk<T(!new)>(edges: set<(T, T)>, w: seq<T>) {
    |w| >= 1 && forall i | 0 <= i < |w| - 1 :: (w[i], w[i + 1]) in edges
  }

  /** Some walk of at least one edge comes back to where it started. */
  ghost predicate Cyclic<T(!new)>(edges: set<(T, T)>) {
    exists w: seq<T> :: |w| >= 2 && IsWalk(edges, w) && w[0] == w[|w| - 1]
  }

  /** Every edge leads from a listed node to a node listed before it. */
  ghost predicate PostOrder<T(!new)>(edges: set<(T, T)>, order: seq<T>) {
    forall u, v | (u, v) in edges :: EndsBefore(order, u, v)
  }

  ghost predicate EndsBefore<T(!new)>(order: seq<T>, u: T, v: T) {
    exists i, j :: 0 <= j < i < |order| && order[i] == u && order[j] == v
  }

  ghost predicate Distinct<T(!new)>(s: seq<T>) {
    forall i, j | 0 <= i < j < |s| :: s[i] != s[j]
  }

  ghost function Elements<T>(s: seq<T>): set<T> {
    set x | x in s
  }

  /** A duplicate-free list in which every edge points backwards rules out cycles. */
  lemma PostOrderMeansAcyclic<T(!new)>(edges: set<(T, T)>, order: seq<T>)
    requires Distinct(order) && PostOrder(edges, order)
    ensures !Cyclic(edges)
  {
    if Cyclic(edges) {
      var w: seq<T> :| |w| >= 2 && IsWalk(edges, w) && w[0] == w[|w| - 1];
      var i, j := WalkDescends(edges, order, w);
    }
  }

  lemma {:induction false} WalkDescends<T(!new)>(edges: set<(T, T)>, order: seq<T>, w: seq<T>)
    returns (i: nat, j: nat)
    requires Distinct(order) && PostOrder(edges, order)
    requires |w| >= 2 && IsWalk(edges, w)
    ensures j < i < |order| && order[i] == w[0] && order[j] == w[|w| - 1]
  {
    assert (w[0], w[1]) in edges;
    assert EndsBefore(order, w[0], w[1]);
    i, j :| 0 <= j < i < |order| && order[i] == w[0] && order[j] == w[1];
    if |w| > 2 {
      assert IsWalk(edges, w[1..]) by {
        forall k | 0 <= k < |w[1..]| - 1 ensures (w[1..][k], w[1..][k + 1]) in edges {
          assert (w[k + 1], w[k + 2]) in edges;
        }
      }
      var i', j' := WalkDescends(edges, order, w[1..]);
      assert i' == j;
      j := j';
    }
  }

  /** A stretch of a walk is a walk. */
  lemma SubWalk<T(!new)>(edges: set<(T, T)>, w: seq<T>, lo: nat, hi: nat)
    requires IsWalk(edges, w) && lo < hi <= |w|
    ensures IsWalk(edges, w[lo..hi])
  {
    forall k | 0 <= k < hi - lo - 1 ensures (w[lo..hi][k], w[lo..hi][k + 1]) in edges {
      assert (w[lo + k], w[lo + k + 1]) in edges;
    }
  }

  lemma ExtendWalk<T(!new)>(edges: set<(T, T)>, w: seq<T>, v: T)
    requires IsWalk(edges, w) && (w[|w| - 1], v) in edges
    ensures IsWalk(edges, w + [v])
  {
    forall k | 0 <= k < |w| ensures ((w + [v])[k], (w + [v])[k + 1]) in edges {
      if k < |w| - 1 { assert (w[k], w[k + 1]) in edges; }
    }
  }

  /** A duplicate-free sequence over a finite set is no longer than the set is large. */
  lemma {:induction false} DistinctFits<T(!new)>(s: seq<T>, nodes: set<T>)
    requires Distinct(s) && (forall x | x in s :: x in nodes)
    ensures |s| <= |nodes|
  {
    if s != [] {
      assert s[0] !in s[1..];
      DistinctFits(s[1..], nodes - {s[0]});
    }
  }

  /** A walk that meets a node twice has gone round a cycle. */
  lemma RepeatMakesCycle<T(!new)>(edges: set<(T, T)>, w: seq<T>, i: nat, j: nat)
    requires IsWalk(edges, w) && i < j < |w| && w[i] == w[j]
    ensures Cyclic(edges)
  {
    SubWalk(edges, w, i, j + 1);
    var c := w[i..j + 1];
    assert |c| >= 2 && IsWalk(edges, c) && c[0] == c[|c| - 1];
  }

  /** Without cycles, a walk visits each node at most once. */
  lemma AcyclicWalkFits<T(!new)>(edges: set<(T, T)>, w: seq<T>, nodes: set<T>)
    requires !Cyclic(edges) && IsWalk(edges, w) && (forall x | x in w :: x in nodes)
    ensures |w| <= |nodes|
  {
    if !Distinct(w) {
      var i, j :| 0 <= i < j < |w| && w[i] == w[j];
      RepeatMakesCycle(edges, w, i, j);
    }
    DistinctFits(w, nodes);
  }

  /** Renaming nodes one-to-one neither makes nor breaks cycles. */
  lemma RelabelKeepsCycles<T(!new), U(!new)>(edges: set<(T, T)>, name: map<T, U>, image: set<(U, U)>)
    requires forall x, y | x in name && y in name && x != y :: name[x] != name[y]
    requires forall e | e in edges :: e.0 in name && e.1 in name
    requires forall e | e in edges :: (name[e.0], name[e.1]) in image
    requires forall f | f in image :: exists e :: e in edges && f == (name[e.0], name[e.1])
    ensures Cyclic(edges) <==> Cyclic(image)
  {
    if Cyclic(edges) {
      var w: seq<T> :| |w| >= 2 && IsWalk(edges, w) && w[0] == w[|w| - 1];
      assert forall i | 0 <= i < |w| :: w[i] in name by {
        forall i | 0 <= i < |w| ensures w[i] in name {
          if i < |w| - 1 { assert (w[i], w[i + 1]) in edges; } else { assert (w[i - 1], w[i]) in edges; }
        }
      }
      var v := seq(|w|, i requires 0 <= i < |w| => name[w[i]]);
      forall i | 0 <= i < |v| - 1 ensures (v[i], v[i + 1]) in image {
        assert (w[i], w[i + 1]) in edges;
      }
      assert |v| >= 2 && IsWalk(image, v) && v[0] == v[|v| - 1];
    }
    if Cyclic(image) {
      var v: seq<U> :| |v| >= 2 && IsWalk(image, v) && v[0] == v[|v| - 1];
      var w := PullBack(edges, name, image, v);
      assert name[w[0]] == name[w[|w| - 1]];
      assert |w| >= 2 && IsWalk(edges, w) && w[0] == w[|w| - 1];
    }
  }

  lemma {:induction false} PullBack<T(!new), U(!new)>(edges: set<(T, T)>, name: map<T, U>, image: set<(U, U)>,
                                                      v: seq<U>)
    returns (w: seq<T>)
    requires forall x, y | x in name && y in name && x != y :: name[x] != name[y]
    requires forall e | e in edges :: e.0 in name && e.1 in name
    requires forall f | f in image :: exists e :: e in edges && f == (name[e.0], name[e.1])
    requires |v| >= 2 && IsWalk(image, v)
    ensures |w| == |v| && IsWalk(edges, w)
    ensures forall i | 0 <= i < |w| :: w[i] in name && name[w[i]] == v[i]
  {
    assert (v[0], v[1]) in image;
    var e :| e in edges && (v[0], v[1]) == (name[e.0], name[e.1]);
    if |v| == 2 {
      w := [e.0, e.1];
    } else {
      SubWalk(image, v, 1, |v|);
      assert v[1..|v|] == v[1..];
      var rest := PullBack(edges, name, image, v[1..]);
      assert name[rest[0]] == v[1];
      w := [e.0] + rest;
      forall i | 0 <= i < |w| - 1 ensures (w[i], w[i + 1]) in edges {
        if i > 0 { assert (rest[i - 1], rest[i]) in edges; }
      }
    }
  }
}
