/** The runtime's own check of a turn candidate, which uses the depth-first search. */
module TurnCandidate {
  import opened Graphs
  import opened TurnGraphs

  /** The payload fields of a turn candidate once its JSON shape is known; an edge is a list of names. */
  datatype Candidate = Candidate(mode: string, nodes: seq<string>, edges: seq<seq<string>>)

  predicate NodesValid(c: Candidate) {
    && c.nodes != []
    && (forall i :: 0 <= i < |c.nodes| ==> c.nodes[i] != "")
    && (forall i, j :: 0 <= i < j < |c.nodes| ==> c.nodes[i] != c.nodes[j])
  }

  predicate EdgeValid(c: Candidate, edge: seq<string>) {
    |edge| == 2 && edge[0] != edge[1] && edge[0] in c.nodes && edge[1] in c.nodes
  }

  predicate EdgesValid(c: Candidate) {
    forall i :: 0 <= i < |c.edges| ==> EdgeValid(c, c.edges[i])
  }

  function GraphEdges(c: Candidate): (edges: seq<Edge<string>>)
    requires EdgesValid(c)
  {
    seq(|c.edges|, i requires 0 <= i < |c.edges| => Edge(c.edges[i][0], c.edges[i][1]))
  }

  /** The mode the nodes and edges call for; the empty string when there is none. */
  function ExpectedMode(c: Candidate): string {
    if "response" in c.nodes && "action" !in c.nodes then "respond_only"
    else if "response" in c.nodes && "action" in c.nodes && c.edges == [["action", "response"]] then "act_then_respond"
    else if "response" in c.nodes && "action" in c.nodes && c.edges == [["response", "action"]] then "respond_then_act"
    else ""
  }

  ghost predicate CandidateValid(c: Candidate) {
    && NodesValid(c) && EdgesValid(c)
    && Acyclic(EdgeSet(GraphEdges(c)))
    && c.mode != "" && c.mode == ExpectedMode(c)
  }

  method ValidateTurnCandidate(c: Candidate) returns (ok: bool)
    ensures ok <==> CandidateValid(c)
  {
    if c.mode == "" || !NodesValid(c) || !EdgesValid(c) {
      return false;
    }
    var edges := GraphEdges(c);
    assert EdgesWithin(EdgeSet(edges), Elements(c.nodes));
    var adjacency := BuildAdjacencyList(c.nodes, edges);
    var acyclic := VisitsEveryNode(EdgeSet(edges), c.nodes, adjacency);
    return acyclic && c.mode == ExpectedMode(c);
  }

  /** Position of the one occurrence of a node in a schedule. */
  ghost predicate RunsBefore(order: seq<string>, first: string, second: string) {
    exists i, j :: 0 <= i < j < |order| && order[i] == first && order[j] == second
  }

  /**
    An accepted candidate with both an action and a response fixes their order in every
    schedule, the order its mode names; without an action it is respond-only.
   */
  lemma CandidateModeFixesOrder(c: Candidate, order: seq<string>)
    requires CandidateValid(c)
    requires IsLinearExtension(EdgeSet(GraphEdges(c)), Elements(c.nodes), order)
    ensures c.mode == "act_then_respond" <==> RunsBefore(order, "action", "response")
    ensures c.mode == "respond_then_act" <==> RunsBefore(order, "response", "action")
    ensures c.mode == "respond_only" <==> "action" !in order
    ensures "response" in order
  {
    var edges := EdgeSet(GraphEdges(c));
    assert "response" in Elements(c.nodes);
    if c.mode == "respond_only" {
      assert "action" !in Elements(c.nodes);
    } else {
      assert c.mode == "act_then_respond" || c.mode == "respond_then_act";
      assert GraphEdges(c)[0] in edges;
      assert "action" in Elements(c.nodes);
      var a :| 0 <= a < |order| && order[a] == "action";
      var r :| 0 <= r < |order| && order[r] == "response";
      if c.mode == "act_then_respond" {
        assert Edge(order[a], order[r]) in edges;
      } else {
        assert Edge(order[r], order[a]) in edges;
      }
    }
  }
}
