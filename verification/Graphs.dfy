/**
  Directed graphs given by a finite set of edges: walks, reachability, cycles and
  linear extensions. These are the notions against which the two acyclicity
  deciders and the path search of the turn planner are proved.
 */
module Graphs {

  datatype Edge<T> = Edge(before: T, after: T)

  /** A non-empty walk: at least one edge, each step along an edge. */
  ghost predicate IsWalk<T>(edges: set<Edge<T>>, walk: seq<T>) {
    && |walk| >= 2
    && forall i :: 0 <= i < |walk| - 1 ==> Edge(walk[i], walk[i + 1]) in edges
  }

  ghost predicate WalkFromTo<T>(edges: set<Edge<T>>, from: T, to: T, walk: seq<T>) {
    IsWalk(edges, walk) && walk[0] == from && walk[|walk| - 1] == to
  }

  /** A walk of at least one edge leads from `from` to `to`. */
  ghost predicate Reaches<T(!new)>(edges: set<Edge<T>>, from: T, to: T) {
    exists walk :: WalkFromTo(edges, from, to, walk)
  }

  ghost predicate Acyclic<T(!new)>(edges: set<Edge<T>>) {
    forall v: T :: !Reaches(edges, v, v)
  }

  ghost predicate EdgesWithin<T(!new)>(edges: set<Edge<T>>, nodes: set<T>) {
    forall e :: e in edges ==> e.before in nodes && e.after in nodes
  }

  /** `order` lists every node once and respects every edge. */
  ghost predicate IsLinearExtension<T(!new)>(edges: set<Edge<T>>, nodes: set<T>, order: seq<T>) {
    && (forall i, j :: 0 <= i < j < |order| ==> order[i] != order[j])
    && (forall v :: v in nodes <==> v in order)
    && (forall i, j :: 0 <= i < |order| && 0 <= j < |order| && Edge(order[i], order[j]) in edges ==> i < j)
  }

  lemma ReachesByEdge<T(!new)>(edges: set<Edge<T>>, from: T, to: T)
    requires Edge(from, to) in edges
    ensures Reaches(edges, from, to)
  {
    assert WalkFromTo(edges, from, to, [from, to]);
  }

  lemma ReachesTransitive<T(!new)>(edges: set<Edge<T>>, a: T, b: T, c: T)
    requires Reaches(edges, a, b) && Reaches(edges, b, c)
    ensures Reaches(edges, a, c)
  {
    var first :| WalkFromTo(edges, a, b, first);
    var second :| WalkFromTo(edges, b, c, second);
    var walk := first + second[1..];
    forall i | 0 <= i < |walk| - 1
      ensures Edge(walk[i], walk[i + 1]) in edges
    {
      if i >= |first| - 1 {
        var k := i - (|first| - 1);
        assert walk[i] == second[k] && walk[i + 1] == second[k + 1];
      }
    }
    assert WalkFromTo(edges, a, c, walk);
  }

  /** Every walk starts with an edge and either ends there or goes on. */
  lemma ReachesFirstEdge<T(!new)>(edges: set<Edge<T>>, from: T, to: T) returns (next: T)
    requires Reaches(edges, from, to)
    ensures Edge(from, next) in edges && (next == to || Reaches(edges, next, to))
  {
    var walk :| WalkFromTo(edges, from, to, walk);
    next := walk[1];
    assert Edge(walk[0], walk[1]) in edges;
    if |walk| > 2 {
      forall i | 0 <= i < |walk[1..]| - 1
        ensures Edge(walk[1..][i], walk[1..][i + 1]) in edges
      {
        assert Edge(walk[i + 1], walk[i + 2]) in edges;
      }
      assert WalkFromTo(edges, next, to, walk[1..]);
    }
  }

  /** A set closed under successors is never left by a walk. */
  lemma {:induction false} ClosedUnderWalks<T(!new)>(edges: set<Edge<T>>, closed: set<T>, walk: seq<T>, k: nat)
    requires IsWalk(edges, walk) && walk[0] in closed && k < |walk|
    requires forall e :: e in edges && e.before in closed ==> e.after in closed
    ensures walk[k] in closed
  {
    if k > 0 {
      ClosedUnderWalks(edges, closed, walk, k - 1);
      assert Edge(walk[k - 1], walk[k]) in edges;
    }
  }

  lemma ReachStaysInClosed<T(!new)>(edges: set<Edge<T>>, closed: set<T>, from: T, to: T)
    requires Reaches(edges, from, to) && from in closed
    requires forall e :: e in edges && e.before in closed ==> e.after in closed
    ensures to in closed
  {
    var walk :| WalkFromTo(edges, from, to, walk);
    ClosedUnderWalks(edges, closed, walk, |walk| - 1);
  }

  lemma ReachesWithin<T(!new)>(edges: set<Edge<T>>, nodes: set<T>, from: T, to: T)
    requires EdgesWithin(edges, nodes) && Reaches(edges, from, to)
    ensures from in nodes && to in nodes
  {
    var next := ReachesFirstEdge(edges, from, to);
    if next != to {
      ReachStaysInClosed(edges, nodes, next, to);
    }
  }

  /** The members of `among` from which a walk leads to `v`. */
  ghost function Ancestors<T(!new)>(edges: set<Edge<T>>, among: set<T>, v: T): set<T> {
    set u | u in among && Reaches(edges, u, v)
  }

  /** In an acyclic graph every non-empty finite set has a member no other member points to. */
  lemma {:induction false} SourceExists<T(!new)>(edges: set<Edge<T>>, among: set<T>, start: T) returns (source: T)
    requires Acyclic(edges) && start in among
    ensures source in among
    ensures forall u :: u in among ==> Edge(u, source) !in edges
    decreases |Ancestors(edges, among, start)|
  {
    if u :| u in among && Edge(u, start) in edges {
      ReachesByEdge(edges, u, start);
      var below, above := Ancestors(edges, among, u), Ancestors(edges, among, start);
      forall w | w in below
        ensures w in above
      {
        ReachesTransitive(edges, w, u, start);
      }
      assert u in above && u !in below;
      assert below < above;
      SubsetSize(below, above);
      source := SourceExists(edges, among, u);
    } else {
      source := start;
    }
  }

  lemma SubsetSize<T>(small: set<T>, big: set<T>)
    requires small < big
    ensures |small| < |big|
  {
    assert big == small + (big - small);
    assert big - small != {};
  }

  /** A linear extension ranks the nodes along every walk. */
  lemma {:induction false} WalkIncreases<T(!new)>(edges: set<Edge<T>>, nodes: set<T>, order: seq<T>, walk: seq<T>, i: nat, j: nat)
    requires IsLinearExtension(edges, nodes, order) && IsWalk(edges, walk)
    requires 0 < |walk| && i < |order| && j < |order|
    requires order[i] == walk[0] && order[j] == walk[|walk| - 1]
    requires EdgesWithin(edges, nodes)
    ensures i < j
    decreases |walk|
  {
    assert Edge(walk[0], walk[1]) in edges;
    assert walk[1] in nodes;
    var k :| 0 <= k < |order| && order[k] == walk[1];
    if |walk| > 2 {
      var rest := walk[1..];
      forall n | 0 <= n < |rest| - 1
        ensures Edge(rest[n], rest[n + 1]) in edges
      {
        assert Edge(walk[n + 1], walk[n + 2]) in edges;
      }
      WalkIncreases(edges, nodes, order, rest, k, j);
    }
  }

  /** Reachable nodes come later in every linear extension. */
  lemma ReachableComesLater<T(!new)>(edges: set<Edge<T>>, nodes: set<T>, order: seq<T>, from: T, to: T)
    requires IsLinearExtension(edges, nodes, order) && EdgesWithin(edges, nodes)
    requires Reaches(edges, from, to)
    ensures exists i, j :: 0 <= i < j < |order| && order[i] == from && order[j] == to
  {
    ReachesWithin(edges, nodes, from, to);
    var walk :| WalkFromTo(edges, from, to, walk);
    var i :| 0 <= i < |order| && order[i] == from;
    var j :| 0 <= j < |order| && order[j] == to;
    WalkIncreases(edges, nodes, order, walk, i, j);
  }

  lemma LinearExtensionImpliesAcyclic<T(!new)>(edges: set<Edge<T>>, nodes: set<T>, order: seq<T>)
    requires IsLinearExtension(edges, nodes, order) && EdgesWithin(edges, nodes)
    ensures Acyclic(edges)
  {
    forall v: T | Reaches(edges, v, v)
      ensures false
    {
      ReachableComesLater(edges, nodes, order, v, v);
    }
  }

  /** Every acyclic finite graph has a linear extension. */
  lemma {:induction false} LinearExtensionExists<T(!new)>(edges: set<Edge<T>>, nodes: set<T>) returns (order: seq<T>)
    requires Acyclic(edges)
    ensures IsLinearExtension(edges, nodes, order)
    decreases |nodes|
  {
    if nodes == {} {
      order := [];
    } else {
      var start :| start in nodes;
      var source := SourceExists(edges, nodes, start);
      var rest := LinearExtensionExists(edges, nodes - {source});
      order := [source] + rest;
      assert forall k :: 0 <= k < |order| ==> order[k] == source || order[k] in rest;
      assert forall k :: 0 <= k < |order| ==> order[k] in nodes;
      assert forall v :: v in nodes <==> v == source || v in rest;
    }
  }

  /** Extensions of a predecessor-closed part and of the rest join to one of the whole. */
  lemma JoinedExtension<T(!new)>(
    edges: set<Edge<T>>, nodes: set<T>, first: set<T>, front: seq<T>, back: seq<T>)
    requires first <= nodes
    requires forall e :: e in edges && e.before in nodes && e.after in first ==> e.before in first
    requires IsLinearExtension(edges, first, front) && IsLinearExtension(edges, nodes - first, back)
    ensures IsLinearExtension(edges, nodes, front + back)
  {
    var order := front + back;
    assert forall k :: 0 <= k < |order| ==> if k < |front| then order[k] in front else order[k] in back;
    assert forall k :: 0 <= k < |order| ==> if k < |front| then order[k] in first else order[k] in nodes - first;
    forall i, j | 0 <= i < |order| && 0 <= j < |order| && Edge(order[i], order[j]) in edges
      ensures i < j
    {
      assert Edge(order[i], order[j]).after == order[j];
      if i >= |front| && j >= |front| {
        assert order[i] == back[i - |front|] && order[j] == back[j - |front|];
      }
    }
    assert forall v :: v in nodes <==> v in front || v in back;
  }
}
