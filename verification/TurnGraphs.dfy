/**
  The three graph searches that guard turn plans: Kahn's loop and the breadth-first
  path search of the protocol crate, and the recursive depth-first check of the
  runtime. Each is proved against the walk-based notions of module Graphs.
 */
module TurnGraphs {
  import opened Graphs

  ghost function EdgeSet<T>(edges: seq<Edge<T>>): set<Edge<T>> {
    set e | e in edges
  }

  /** The edges into `v` whose source is not among `done`. */
  ghost function Remaining<T>(edges: set<Edge<T>>, done: set<T>, v: T): set<Edge<T>> {
    set e | e in edges && e.after == v && e.before !in done
  }

  ghost predicate IsAdjacency<T(!new)>(edges: set<Edge<T>>, adjacency: map<T, set<T>>) {
    forall u, v :: (u in adjacency && v in adjacency[u]) <==> Edge(u, v) in edges
  }

  ghost predicate IsIndegree<T(!new)>(edges: set<Edge<T>>, nodes: set<T>, indegrees: map<T, nat>) {
    && indegrees.Keys == nodes + (set e | e in edges :: e.after)
    && forall v :: v in indegrees ==> indegrees[v] == |Remaining(edges, {}, v)|
  }

  lemma AdjacencyStep<T(!new)>(edges: set<Edge<T>>, adjacency: map<T, set<T>>, edge: Edge<T>, row: set<T>)
    requires IsAdjacency(edges, adjacency)
    requires row == if edge.before in adjacency then adjacency[edge.before] else {}
    ensures edge.after in row <==> edge in edges
    ensures IsAdjacency(edges + {edge}, adjacency[edge.before := row + {edge.after}])
  {
    var next := adjacency[edge.before := row + {edge.after}];
    forall u, v
      ensures (u in next && v in next[u]) <==> Edge(u, v) in edges + {edge}
    {
      if u == edge.before {
        assert (u in adjacency && v in adjacency[u]) <==> v in row;
      }
    }
  }

  lemma IncomingAdd<T(!new)>(edges: set<Edge<T>>, edge: Edge<T>, v: T)
    requires edge !in edges
    ensures |Remaining(edges + {edge}, {}, v)| == |Remaining(edges, {}, v)| + (if v == edge.after then 1 else 0)
  {
    var before, after := Remaining(edges, {}, v), Remaining(edges + {edge}, {}, v);
    if v == edge.after {
      assert after == before + {edge};
    } else {
      assert after == before;
    }
  }

  lemma AftersAdd<T(!new)>(edges: set<Edge<T>>, edge: Edge<T>)
    ensures (set e | e in edges + {edge} :: e.after) == (set e | e in edges :: e.after) + {edge.after}
  {
    assert edge in edges + {edge};
    assert forall e :: e in edges + {edge} <==> e in edges || e == edge;
  }

  lemma IndegreeStep<T(!new)>(edges: set<Edge<T>>, nodes: set<T>, indegrees: map<T, nat>, edge: Edge<T>, degree: nat)
    requires IsIndegree(edges, nodes, indegrees) && edge !in edges
    requires degree == if edge.after in indegrees then indegrees[edge.after] else 0
    ensures IsIndegree(edges + {edge}, nodes, indegrees[edge.after := degree + 1])
  {
    AftersAdd(edges, edge);
    forall v
      ensures |Remaining(edges + {edge}, {}, v)| == |Remaining(edges, {}, v)| + (if v == edge.after then 1 else 0)
    {
      IncomingAdd(edges, edge, v);
    }
    assert edge.after !in indegrees ==> Remaining(edges, {}, edge.after) == {};
  }

  /** Builds the adjacency sets and the indegrees, counting a repeated edge once. */
  method BuildIndegrees<T(==,!new)>(nodes: set<T>, edges: seq<Edge<T>>)
    returns (indegrees: map<T, nat>, adjacency: map<T, set<T>>)
    ensures IsAdjacency(EdgeSet(edges), adjacency)
    ensures IsIndegree(EdgeSet(edges), nodes, indegrees)
  {
    indegrees := map v | v in nodes :: 0;
    adjacency := map[];
    assert EdgeSet(edges[..0]) == {};
    for k := 0 to |edges|
      invariant IsAdjacency(EdgeSet(edges[..k]), adjacency)
      invariant IsIndegree(EdgeSet(edges[..k]), nodes, indegrees)
    {
      var edge := edges[k];
      ghost var seen := EdgeSet(edges[..k]);
      assert EdgeSet(edges[..k + 1]) == seen + {edge} by {
        assert edges[..k + 1] == edges[..k] + [edge];
      }
      var row := if edge.before in adjacency then adjacency[edge.before] else {};
      AdjacencyStep(seen, adjacency, edge, row);
      if edge.after !in row {
        var degree := if edge.after in indegrees then indegrees[edge.after] else 0;
        IndegreeStep(seen, nodes, indegrees, edge, degree);
        indegrees := indegrees[edge.after := degree + 1];
      } else {
        assert seen + {edge} == seen;
      }
      adjacency := adjacency[edge.before := row + {edge.after}];
    }
    assert edges[..|edges|] == edges;
  }

  ghost function Elements<T>(s: seq<T>): set<T> {
    set x | x in s
  }

  ghost predicate Distinct<T(!new)>(s: seq<T>) {
    forall i, j :: 0 <= i < j < |s| ==> s[i] != s[j]
  }

  /** A duplicate-free order in which every node comes after all its predecessors. */
  ghost predicate IsPeeling<T(!new)>(edges: set<Edge<T>>, order: seq<T>) {
    && Distinct(order)
    && (forall j, e :: 0 <= j < |order| && e in edges && e.after == order[j] ==> e.before in order[..j])
  }

  /** What Kahn's loop keeps: each count is the number of predecessors not yet emitted. */
  ghost predicate KahnState<T(!new)>(
    edges: set<Edge<T>>, keys: set<T>, indegrees: map<T, nat>, done: set<T>, ready: set<T>)
  {
    && indegrees.Keys == keys
    && done <= keys && ready <= keys && done !! ready
    && (forall v :: v in keys ==> indegrees[v] == |Remaining(edges, done, v)|)
    && (forall v :: v in keys ==> (indegrees[v] == 0 <==> v in done || v in ready))
  }

  lemma PeelingExtends<T(!new)>(edges: set<Edge<T>>, order: seq<T>, node: T)
    requires IsPeeling(edges, order) && node !in Elements(order)
    requires Remaining(edges, Elements(order), node) == {}
    ensures IsPeeling(edges, order + [node])
    ensures Elements(order + [node]) == Elements(order) + {node}
  {
    var longer := order + [node];
    forall j, e | 0 <= j < |longer| && e in edges && e.after == longer[j]
      ensures e.before in longer[..j]
    {
      if j < |order| {
        assert longer[..j] == order[..j];
      } else {
        assert longer[..j] == order;
        assert e !in Remaining(edges, Elements(order), node);
      }
    }
  }

  lemma TailElements<T(!new)>(s: seq<T>)
    requires s != [] && Distinct(s)
    ensures Distinct(s[1..]) && Elements(s[1..]) == Elements(s) - {s[0]}
  {
    assert s == [s[0]] + s[1..];
  }

  /** Emitting `node` lowers exactly the counts of its successors, each by one. */
  lemma RemainingAfter<T(!new)>(edges: set<Edge<T>>, done: set<T>, node: T, v: T)
    requires node !in done
    ensures |Remaining(edges, done, v)|
         == |Remaining(edges, done + {node}, v)| + (if Edge(node, v) in edges then 1 else 0)
  {
    var before, after := Remaining(edges, done, v), Remaining(edges, done + {node}, v);
    if Edge(node, v) in edges {
      assert before == after + {Edge(node, v)};
    } else {
      assert forall e :: e in before ==> e == Edge(e.before, v);
      assert before == after;
    }
  }

  /** A complete peeling of the nodes is a linear extension. */
  lemma PeelingIsLinearExtension<T(!new)>(edges: set<Edge<T>>, nodes: set<T>, order: seq<T>)
    requires IsPeeling(edges, order) && Elements(order) == nodes
    ensures IsLinearExtension(edges, nodes, order)
  {
    assert forall v :: v in nodes <==> v in Elements(order);
    forall i, j | 0 <= i < |order| && 0 <= j < |order| && Edge(order[i], order[j]) in edges
      ensures i < j
    {
      assert Edge(order[i], order[j]).before in order[..j];
      var k :| 0 <= k < j && order[..j][k] == order[i];
      assert order[k] == order[i];
    }
  }

  lemma DistinctElements<T(!new)>(s: seq<T>)
    requires Distinct(s)
    ensures |Elements(s)| == |s|
  {
    if s != [] {
      var last := |s| - 1;
      DistinctElements(s[..last]);
      assert s == s[..last] + [s[last]];
      assert Elements(s) == Elements(s[..last]) + {s[last]};
    }
  }

  /** In an acyclic graph some unemitted node has only emitted predecessors. */
  lemma EligibleNodeExists<T(!new)>(edges: set<Edge<T>>, nodes: set<T>, done: set<T>) returns (v: T)
    requires EdgesWithin(edges, nodes) && Acyclic(edges) && nodes - done != {}
    ensures v in nodes - done && Remaining(edges, done, v) == {}
  {
    var start :| start in nodes - done;
    v := SourceExists(edges, nodes - done, start);
    forall e | e in edges && e.after == v
      ensures e.before in done
    {
      assert e == Edge(e.before, v);
    }
  }

  /** When nothing is ready, the count of emitted nodes decides acyclicity. */
  lemma KahnVerdict<T(!new)>(edges: set<Edge<T>>, nodes: set<T>, indegrees: map<T, nat>, order: seq<T>)
    requires EdgesWithin(edges, nodes) && IsPeeling(edges, order)
    requires KahnState(edges, nodes, indegrees, Elements(order), {})
    ensures |order| == |nodes| <==> Acyclic(edges)
  {
    var done := Elements(order);
    DistinctElements(order);
    assert nodes == done + (nodes - done);
    if nodes - done == {} {
      PeelingIsLinearExtension(edges, nodes, order);
      LinearExtensionImpliesAcyclic(edges, nodes, order);
    } else if Acyclic(edges) {
      var v := EligibleNodeExists(edges, nodes, done);
      assert false;
    }
  }

  /** The inner loop: lowers the count of every member of `row` and queues those that reach zero. */
  method LowerCounts<T(==,!new)>(indegrees0: map<T, nat>, ready0: seq<T>, row: set<T>)
    returns (indegrees: map<T, nat>, ready: seq<T>)
    requires forall v :: v in row ==> v in indegrees0 && indegrees0[v] > 0 && v !in Elements(ready0)
    requires Distinct(ready0)
    ensures indegrees == map v | v in indegrees0 :: if v in row then indegrees0[v] - 1 else indegrees0[v]
    ensures Distinct(ready)
    ensures Elements(ready) == Elements(ready0) + set v | v in row && indegrees0[v] == 1
  {
    indegrees, ready := indegrees0, ready0;
    var rest := row;
    while rest != {}
      invariant rest <= row
      invariant indegrees.Keys == indegrees0.Keys
      invariant forall v :: v in indegrees0 ==>
                  indegrees[v] == if v in row && v !in rest then indegrees0[v] - 1 else indegrees0[v]
      invariant Distinct(ready)
      invariant forall v :: v in ready <==> v in Elements(ready0) || (v in row && v !in rest && indegrees0[v] == 1)
      decreases rest
    {
      var next :| next in rest;
      rest := rest - {next};
      indegrees := indegrees[next := indegrees[next] - 1];
      if indegrees[next] == 0 {
        ready := ready + [next];
      }
    }
  }

  /** One round of Kahn's loop keeps its invariant. */
  lemma KahnStep<T(!new)>(
    edges: set<Edge<T>>, keys: set<T>, indegrees: map<T, nat>, done: set<T>, ready: set<T>, node: T,
    row: set<T>, lowered: map<T, nat>)
    requires node in ready && KahnState(edges, keys, indegrees, done, ready)
    requires row <= keys && forall v :: v in row <==> Edge(node, v) in edges
    requires forall v :: v in row ==> indegrees[v] > 0
    requires lowered == map v | v in indegrees :: if v in row then indegrees[v] - 1 else indegrees[v]
    ensures KahnState(edges, keys, lowered, done + {node}, ready - {node} + set v | v in row && indegrees[v] == 1)
  {
    forall v | v in keys
      ensures lowered[v] == |Remaining(edges, done + {node}, v)|
    {
      RemainingAfter(edges, done, node, v);
    }
  }

  /** A successor of a ready node still has a positive count, so it was neither emitted nor queued. */
  lemma RowIsCounted<T(!new)>(
    edges: set<Edge<T>>, keys: set<T>, indegrees: map<T, nat>, done: set<T>, ready: set<T>, node: T, row: set<T>)
    requires node in ready && KahnState(edges, keys, indegrees, done, ready)
    requires row <= keys && forall v :: v in row <==> Edge(node, v) in edges
    ensures forall v :: v in row ==> indegrees[v] > 0 && v !in ready
  {
    forall v | v in row
      ensures indegrees[v] > 0
    {
      RemainingAfter(edges, done, node, v);
    }
  }

  /** Kahn's algorithm: true exactly when the edges, drawn within `nodes`, have no cycle. */
  method DependencyGraphIsAcyclic<T(==,!new)>(nodes: set<T>, edges: seq<Edge<T>>) returns (acyclic: bool)
    ensures EdgesWithin(EdgeSet(edges), nodes) ==> (acyclic <==> Acyclic(EdgeSet(edges)))
  {
    ghost var E := EdgeSet(edges);
    var indegrees, adjacency := BuildIndegrees(nodes, edges);
    ghost var keys := indegrees.Keys;
    var ready := CollectReady(indegrees);
    ghost var order: seq<T> := [];
    var visited := 0;
    KahnStart(E, keys, indegrees, Elements(ready));
    while ready != []
      invariant visited == |order|
      invariant Distinct(ready) && IsPeeling(E, order)
      invariant KahnState(E, keys, indegrees, Elements(order), Elements(ready))
      decreases keys - Elements(order)
    {
      var node := ready[0];
      var row := if node in adjacency then adjacency[node] else {};
      RowOf(E, nodes, keys, adjacency, node, row);
      RowIsCounted(E, keys, indegrees, Elements(order), Elements(ready), node, row);
      TailElements(ready);
      PeelingStep(E, keys, indegrees, order, Elements(ready), node);
      visited := visited + 1;
      ghost var counts, waiting := indegrees, Elements(ready);
      indegrees, ready := LowerCounts(indegrees, ready[1..], row);
      KahnStep(E, keys, counts, Elements(order), waiting, node, row, indegrees);
      order := order + [node];
    }
    if EdgesWithin(E, nodes) {
      AftersWithin(E, nodes);
      KahnVerdict(E, nodes, indegrees, order);
    }
    acyclic := visited == |nodes|;
  }

  lemma AftersWithin<T(!new)>(edges: set<Edge<T>>, nodes: set<T>)
    requires EdgesWithin(edges, nodes)
    ensures nodes + (set e | e in edges :: e.after) == nodes
  {
  }

  lemma PeelingStep<T(!new)>(
    edges: set<Edge<T>>, keys: set<T>, indegrees: map<T, nat>, order: seq<T>, ready: set<T>, node: T)
    requires IsPeeling(edges, order) && KahnState(edges, keys, indegrees, Elements(order), ready) && node in ready
    ensures IsPeeling(edges, order + [node])
    ensures Elements(order + [node]) == Elements(order) + {node}
  {
    PeelingExtends(edges, order, node);
  }

  lemma KahnStart<T(!new)>(edges: set<Edge<T>>, keys: set<T>, indegrees: map<T, nat>, ready: set<T>)
    requires indegrees.Keys == keys
    requires forall v :: v in indegrees ==> indegrees[v] == |Remaining(edges, {}, v)|
    requires ready == set v | v in indegrees && indegrees[v] == 0
    ensures KahnState(edges, keys, indegrees, Elements([]), ready)
  {
    assert Elements<T>([]) == {};
  }

  lemma RowOf<T(!new)>(edges: set<Edge<T>>, nodes: set<T>, keys: set<T>, adjacency: map<T, set<T>>, node: T, row: set<T>)
    requires IsAdjacency(edges, adjacency) && keys == nodes + (set e | e in edges :: e.after)
    requires row == if node in adjacency then adjacency[node] else {}
    ensures forall v :: v in row <==> Edge(node, v) in edges
    ensures row <= keys
  {
    forall v
      ensures v in row <==> Edge(node, v) in edges
      ensures v in row ==> v in keys
    {
      assert v in row <==> (node in adjacency && v in adjacency[node]);
      if v in row {
        assert Edge(node, v) in edges && Edge(node, v).after == v;
      }
    }
  }

  method CollectReady<T(==,!new)>(indegrees: map<T, nat>) returns (ready: seq<T>)
    ensures Distinct(ready)
    ensures Elements(ready) == set v | v in indegrees && indegrees[v] == 0
  {
    ready := [];
    var rest := indegrees.Keys;
    while rest != {}
      invariant rest <= indegrees.Keys
      invariant Distinct(ready)
      invariant forall v :: v in ready <==> v in indegrees && v !in rest && indegrees[v] == 0
      decreases rest
    {
      var v :| v in rest;
      rest := rest - {v};
      if indegrees[v] == 0 {
        ready := ready + [v];
      }
    }
  }

  // ---------------------------------------------------------------- path search

  /** What the breadth-first search keeps: everything seen is reachable, nothing seen points to the target. */
  ghost predicate SearchState<T(!new)>(edges: set<Edge<T>>, start: T, target: T, visited: set<T>, queue: seq<T>) {
    && (forall v :: v in visited || v in queue ==> v == start || Reaches(edges, start, v))
    && (start in visited || start in queue)
    && (forall e :: e in edges && e.before in visited ==> e.after != target)
    && (forall e :: e in edges && e.before in visited ==> e.after in visited || e.after in queue)
  }

  /** A closed set of seen nodes that never points to the target is never left towards it. */
  lemma SearchExhausted<T(!new)>(edges: set<Edge<T>>, start: T, target: T, visited: set<T>)
    requires SearchState(edges, start, target, visited, [])
    ensures !Reaches(edges, start, target)
  {
    if walk :| WalkFromTo(edges, start, target, walk) {
      assert Edge(walk[|walk| - 2], walk[|walk| - 1]) in edges;
      ClosedUnderWalks(edges, visited, walk, |walk| - 2);
      assert false;
    }
  }

  lemma ReachesOneMore<T(!new)>(edges: set<Edge<T>>, start: T, u: T, v: T)
    requires u == start || Reaches(edges, start, u)
    requires Edge(u, v) in edges
    ensures Reaches(edges, start, v)
  {
    ReachesByEdge(edges, u, v);
    if u != start {
      ReachesTransitive(edges, start, u, v);
    }
  }

  /** True exactly when a walk of at least one edge leads from `start` to `target`. */
  method DependencyPathExists<T(==,!new)>(start: T, target: T, edges: seq<Edge<T>>) returns (found: bool)
    ensures found <==> Reaches(EdgeSet(edges), start, target)
  {
    ghost var E := EdgeSet(edges);
    ghost var universe := {start} + set e | e in edges :: e.after;
    var queue := [start];
    var visited: set<T> := {};
    while queue != []
      invariant SearchState(E, start, target, visited, queue)
      invariant visited <= universe && Elements(queue) <= universe
      decreases universe - visited, |queue|
    {
      var current := queue[0];
      assert queue == [current] + queue[1..];
      queue := queue[1..];
      if current !in visited {
        visited := visited + {current};
        var k := 0;
        while k < |edges|
          invariant 0 <= k <= |edges|
          invariant Elements(queue) <= universe
          invariant forall v :: v in visited || v in queue ==> v == start || Reaches(E, start, v)
          invariant start in visited || start in queue
          invariant forall e :: e in E && e.before in visited && e.before != current ==>
                      e.after != target && (e.after in visited || e.after in queue)
          invariant forall i :: 0 <= i < k && edges[i].before == current ==>
                      edges[i].after != target && edges[i].after in queue
        {
          var edge := edges[k];
          if edge.before == current {
            ReachesOneMore(E, start, current, edge.after);
            if edge.after == target {
              return true;
            }
            queue := queue + [edge.after];
          }
          k := k + 1;
        }
      }
    }
    SearchExhausted(E, start, target, visited);
    return false;
  }

  // ---------------------------------------------------------------- depth-first check

  ghost predicate IsAdjacencyList<T(!new)>(edges: set<Edge<T>>, adjacency: map<T, seq<T>>) {
    && (forall u, v :: (u in adjacency && v in adjacency[u]) <==> Edge(u, v) in edges)
    && (forall e :: e in edges ==> e.after in adjacency)
  }

  /** What the depth-first check keeps: the finished nodes are closed under successors and lie on no cycle. */
  ghost predicate DfsState<T(!new)>(edges: set<Edge<T>>, keys: set<T>, visiting: set<T>, visited: set<T>) {
    && visiting <= keys && visiting !! visited
    && (forall e :: e in edges && e.before in visited ==> e.after in visited)
    && (forall v :: v in visited ==> !Reaches(edges, v, v))
  }

  /** A node outside a closed set that holds all its successors lies on no cycle. */
  lemma FinishedNode<T(!new)>(edges: set<Edge<T>>, visited: set<T>, node: T)
    requires node !in visited
    requires forall e :: e in edges && e.before in visited ==> e.after in visited
    requires forall e :: e in edges && e.before == node ==> e.after in visited
    ensures !Reaches(edges, node, node)
  {
    if Reaches(edges, node, node) {
      var next := ReachesFirstEdge(edges, node, node);
      if next != node {
        ReachStaysInClosed(edges, visited, next, node);
      }
      assert false;
    }
  }

  /** Visits `node`; false means a cycle was met. `visiting` is the path that led here. */
  method Visit<T(==,!new)>(
    ghost edges: set<Edge<T>>, node: T, adjacency: map<T, seq<T>>, visiting0: set<T>, visited0: set<T>)
    returns (ok: bool, visiting: set<T>, visited: set<T>)
    requires IsAdjacencyList(edges, adjacency) && node in adjacency
    requires DfsState(edges, adjacency.Keys, visiting0, visited0)
    requires forall w :: w in visiting0 ==> Reaches(edges, w, node)
    ensures ok ==> visiting == visiting0 && DfsState(edges, adjacency.Keys, visiting, visited)
    ensures ok ==> visited0 <= visited && node in visited
    ensures !ok ==> !Acyclic(edges)
    decreases adjacency.Keys - visiting0
  {
    visiting, visited := visiting0, visited0;
    if node in visited {
      return true, visiting, visited;
    }
    if node in visiting {
      return false, visiting, visited;
    }
    visiting := visiting + {node};
    var children := adjacency[node];
    var k := 0;
    while k < |children|
      invariant 0 <= k <= |children|
      invariant visiting == visiting0 + {node}
      invariant DfsState(edges, adjacency.Keys, visiting, visited)
      invariant visited0 <= visited
      invariant forall i :: 0 <= i < k ==> children[i] in visited
    {
      var child := children[k];
      assert Edge(node, child) in edges;
      forall w | w in visiting
        ensures Reaches(edges, w, child)
      {
        ReachesByEdge(edges, node, child);
        if w != node {
          ReachesTransitive(edges, w, node, child);
        }
      }
      ok, visiting, visited := Visit(edges, child, adjacency, visiting, visited);
      if !ok {
        return false, visiting, visited;
      }
      k := k + 1;
    }
    FinishedNode(edges, visited, node);
    visiting := visiting - {node};
    visited := visited + {node};
    return true, visiting, visited;
  }

  lemma AllVisited<T(!new)>(edges: set<Edge<T>>, adjacency: map<T, seq<T>>, visited: set<T>)
    requires IsAdjacencyList(edges, adjacency) && adjacency.Keys <= visited
    requires forall v :: v in visited ==> !Reaches(edges, v, v)
    ensures Acyclic(edges)
  {
    forall v: T
      ensures !Reaches(edges, v, v)
    {
      if v !in adjacency && Reaches(edges, v, v) {
        var next := ReachesFirstEdge(edges, v, v);
        assert false;
      }
    }
  }

  /** The runtime's check: visits every node, true exactly when there is no cycle. */
  method VisitsEveryNode<T(==,!new)>(ghost edges: set<Edge<T>>, nodes: seq<T>, adjacency: map<T, seq<T>>) returns (ok: bool)
    requires IsAdjacencyList(edges, adjacency) && adjacency.Keys == Elements(nodes)
    ensures ok <==> Acyclic(edges)
  {
    var visiting: set<T>, visited: set<T> := {}, {};
    var k := 0;
    while k < |nodes|
      invariant 0 <= k <= |nodes|
      invariant visiting == {} && DfsState(edges, adjacency.Keys, visiting, visited)
      invariant forall i :: 0 <= i < k ==> nodes[i] in visited
    {
      ok, visiting, visited := Visit(edges, nodes[k], adjacency, visiting, visited);
      if !ok {
        return false;
      }
      k := k + 1;
    }
    AllVisited(edges, adjacency, visited);
    return true;
  }

  /** Adjacency lists with an entry for every node, in the order the edges are given. */
  method BuildAdjacencyList<T(==,!new)>(nodes: seq<T>, edges: seq<Edge<T>>) returns (adjacency: map<T, seq<T>>)
    requires EdgesWithin(EdgeSet(edges), Elements(nodes))
    ensures adjacency.Keys == Elements(nodes) && IsAdjacencyList(EdgeSet(edges), adjacency)
  {
    adjacency := map v | v in nodes :: [];
    for k := 0 to |edges|
      invariant adjacency.Keys == Elements(nodes)
      invariant forall u, v :: (u in adjacency && v in adjacency[u]) <==> Edge(u, v) in edges[..k]
    {
      var edge := edges[k];
      assert edge in EdgeSet(edges);
      assert edges[..k + 1] == edges[..k] + [edge];
      adjacency := adjacency[edge.before := adjacency[edge.before] + [edge.after]];
    }
    assert edges[..|edges|] == edges;
  }

  /** The two deciders give the same verdict on the same graph, and it is the right one. */
  method AcyclicityDecidersAgree<T(==,!new)>(nodes: seq<T>, edges: seq<Edge<T>>) returns (kahn: bool, depthFirst: bool)
    requires EdgesWithin(EdgeSet(edges), Elements(nodes))
    ensures kahn == depthFirst
    ensures kahn <==> Acyclic(EdgeSet(edges))
  {
    kahn := DependencyGraphIsAcyclic((set v | v in nodes), edges);
    var adjacency := BuildAdjacencyList(nodes, edges);
    depthFirst := VisitsEveryNode(EdgeSet(edges), nodes, adjacency);
  }
}
