/**
  The mutable snapshot the store works on: the invalidation worklist, the replay of
  the log and the receipt transition, each proved against its specification.
 */
module StoreSnapshot {
  import opened Wrappers
  import opened Contracts
  import opened Graphs
  import opened StoreModel
  import opened StoreOperations

  ghost predicate PointersRecorded(records: seq<Contract>, current: map<ContractKey, ContractRef>) {
    forall k :: k in current ==> current[k].Key() == k && Find(records, current[k]).Some?
  }

  lemma LiveEdgeIff(
    records: seq<Contract>, current: map<ContractKey, ContractRef>, invalidated: set<ContractRef>, d: ContractRef, p: ContractRef)
    ensures Edge(d, p) in LiveEdges(records, current, invalidated) <==> DependsLive(records, current, invalidated, d, p)
  {
    if DependsLive(records, current, invalidated, d, p) {
      assert p.Key() in current && current[p.Key()] == p;
    }
  }

  lemma AffectedIff(
    records: seq<Contract>, current: map<ContractKey, ContractRef>, invalidated: set<ContractRef>, stale: ContractRef, p: ContractRef)
    ensures p in Affected(records, current, invalidated, stale) <==> Reaches(LiveEdges(records, current, invalidated), stale, p)
    ensures p in Affected(records, current, invalidated, stale) ==> LiveIn(current, invalidated, p)
  {
    var edges := LiveEdges(records, current, invalidated);
    if Reaches(edges, stale, p) {
      var q := LastEdge(edges, stale, p);
      LiveEdgeIff(records, current, invalidated, q, p);
    }
  }

  /** Every walk ends with an edge. */
  lemma LastEdge<T(!new)>(edges: set<Edge<T>>, from: T, to: T) returns (before: T)
    requires Reaches(edges, from, to)
    ensures Edge(before, to) in edges && (before == from || Reaches(edges, from, before))
  {
    var walk :| WalkFromTo(edges, from, to, walk);
    var n := |walk|;
    before := walk[n - 2];
    assert Edge(walk[n - 2], walk[n - 1]) in edges;
    if n > 2 {
      assert WalkFromTo(edges, from, before, walk[..n - 1]);
    }
  }

  // ---------------------------------------------------------------- the worklist

  /** What holds between two rounds of the invalidation queue. */
  ghost predicate Worklist(
    edges: set<Edge<ContractRef>>, stale: ContractRef, before: set<ContractRef>, now: set<ContractRef>,
    visited: set<ContractRef>, queue: seq<ContractRef>)
  {
    && before <= now
    && (forall p :: p in now - before ==> Reaches(edges, stale, p))
    && (forall p :: p in now - before || p == stale ==> p in visited || p in queue)
    && (forall p :: p in visited || p in queue ==> p == stale || p in now - before)
    && (forall e :: e in edges && e.before in visited ==> e.after in now)
  }

  lemma WorklistDone(
    edges: set<Edge<ContractRef>>, stale: ContractRef, before: set<ContractRef>, now: set<ContractRef>, visited: set<ContractRef>, p: ContractRef)
    requires Worklist(edges, stale, before, now, visited, [])
    requires forall e :: e in edges ==> e.after !in before
    requires Reaches(edges, stale, p)
    ensures p in now
  {
    var closed := now - before + {stale};
    var next := ReachesFirstEdge(edges, stale, p);
    assert next in now - before;
    if next != p {
      forall e | e in edges && e.before in now - before
        ensures e.after in now - before
      {
        assert e.before in visited;
      }
      ReachStaysInClosed(edges, now - before, next, p);
    }
  }

  /** Inside a round: `head` is being processed, the pointers in `done` have been looked at. */
  ghost predicate Scanning(
    edges: set<Edge<ContractRef>>, stale: ContractRef, before: set<ContractRef>, now: set<ContractRef>,
    visited: set<ContractRef>, queue: seq<ContractRef>, head: ContractRef, left: set<ContractRef>)
  {
    && head !in visited && (head == stale || head in now - before)
    && before <= now
    && (forall p :: p in now - before ==> Reaches(edges, stale, p))
    && (forall p :: p in now - before || p == stale ==> p in visited + {head} || p in queue)
    && (forall p :: p in visited || p in queue ==> p == stale || p in now - before)
    && (forall e :: e in edges && e.before in visited ==> e.after in now)
    && (forall e :: e in edges && e.before == head && e.after !in left ==> e.after in now)
  }

  lemma ScanAdds(
    edges: set<Edge<ContractRef>>, stale: ContractRef, before: set<ContractRef>, now: set<ContractRef>,
    visited: set<ContractRef>, queue: seq<ContractRef>, head: ContractRef, left: set<ContractRef>, p: ContractRef)
    requires Scanning(edges, stale, before, now, visited, queue, head, left)
    requires Edge(head, p) in edges && p !in now
    ensures Scanning(edges, stale, before, now + {p}, visited, queue + [p], head, left - {p})
  {
    ReachesByEdge(edges, head, p);
    if head != stale {
      ReachesTransitive(edges, stale, head, p);
    }
  }

  lemma CancelTwice(r: Reservation)
    ensures CancelLast(CancelLast(r)) == CancelLast(r)
  {
    if r.attempts != [] {
      var last := |r.attempts| - 1;
      assert CancelLast(CancelLast(r)).attempts == CancelLast(r).attempts;
    }
  }

  /** Cancelling for the stale action and then for dead actions is one cancellation of each losing reservation. */
  lemma CancelEach(
    held: seq<Reservation>, cancelled: seq<Reservation>, reconciled: seq<Reservation>, current: map<ContractKey, ContractRef>,
    invalidated: set<ContractRef>, stale: ContractRef)
    requires |held| == |cancelled| == |reconciled|
    requires forall i :: 0 <= i < |held| ==>
      cancelled[i] == if stale.kind.ActionKind? && held[i].actionRef == stale then CancelLast(held[i]) else held[i]
    requires forall i :: 0 <= i < |held| ==>
      reconciled[i] == if !LiveIn(current, invalidated, cancelled[i].actionRef) then CancelLast(cancelled[i]) else cancelled[i]
    ensures reconciled == Reconciled(held, current, invalidated, stale)
  {
    forall i | 0 <= i < |held|
      ensures reconciled[i] == Reconciled(held, current, invalidated, stale)[i]
    {
      CancelTwice(held[i]);
    }
  }

  class Snapshot {
    var records: seq<Contract>
    var current: map<ContractKey, ContractRef>
    var invalidated: set<ContractRef>
    var reservations: seq<Reservation>

    constructor (s: StoreModel.State)
      ensures Value() == s
    {
      records, current, invalidated, reservations := s.records, s.current, s.invalidated, s.reservations;
    }

    function Value(): StoreModel.State
      reads this
    {
      StoreModel.State(records, current, invalidated, reservations)
    }

    /** Cancels the last attempt of the reservations that hold the stale action itself. */
    method InvalidateExecutionReservation(stale: ContractRef)
      modifies this`reservations
      ensures |reservations| == |old(reservations)|
      ensures forall i :: 0 <= i < |reservations| ==>
        reservations[i] ==
          (if stale.kind.ActionKind? && old(reservations)[i].actionRef == stale then CancelLast(old(reservations)[i])
           else old(reservations)[i])
    {
      if !stale.kind.ActionKind? {
        return;
      }
      ghost var was := reservations;
      var i := 0;
      while i < |reservations|
        invariant i <= |reservations| == |was|
        invariant forall j :: i <= j < |was| ==> reservations[j] == was[j]
        invariant forall j :: 0 <= j < i ==> reservations[j] == if was[j].actionRef == stale then CancelLast(was[j]) else was[j]
      {
        if reservations[i].actionRef == stale {
          reservations := reservations[i := CancelLast(reservations[i])];
        }
        i := i + 1;
      }
    }

    /** Cancels the last attempt of every reservation whose action is not live. */
    method ReconcileInvalidatedExecutionReservations()
      modifies this`reservations
      ensures |reservations| == |old(reservations)|
      ensures forall i :: 0 <= i < |reservations| ==>
        reservations[i] ==
          (if !LiveIn(current, invalidated, old(reservations)[i].actionRef) then CancelLast(old(reservations)[i])
           else old(reservations)[i])
    {
      ghost var was := reservations;
      var i := 0;
      while i < |reservations|
        invariant i <= |reservations| == |was|
        invariant forall j :: i <= j < |was| ==> reservations[j] == was[j]
        invariant forall j :: 0 <= j < i ==>
          reservations[j] == if !LiveIn(current, invalidated, was[j].actionRef) then CancelLast(was[j]) else was[j]
      {
        if !LiveIn(current, invalidated, reservations[i].actionRef) {
          reservations := reservations[i := CancelLast(reservations[i])];
        }
        i := i + 1;
      }
    }

    /** One round: every live pointer whose record depends on `head` is invalidated and queued. */
    method ScanPointers(ghost edges: set<Edge<ContractRef>>, ghost stale: ContractRef, ghost before: set<ContractRef>,
                        ghost visited: set<ContractRef>, queue: seq<ContractRef>, head: ContractRef)
      returns (ok: bool, longer: seq<ContractRef>)
      requires edges == LiveEdges(records, current, before)
      requires forall k :: k in current ==> current[k].Key() == k
      requires Scanning(edges, stale, before, invalidated, visited, queue, head, current.Values)
      modifies this`invalidated
      ensures PointersRecorded(records, current) ==> ok
      ensures ok ==> Worklist(edges, stale, before, invalidated, visited + {head}, longer)
      ensures ok ==> current.Values - invalidated < current.Values - old(invalidated) || (invalidated == old(invalidated) && longer == queue)
    {
      longer := queue;
      var left := current.Values;
      while left != {}
        invariant left <= current.Values
        invariant Scanning(edges, stale, before, invalidated, visited, longer, head, left)
        invariant invalidated >= old(invalidated)
        invariant
          || (invalidated == old(invalidated) && longer == queue)
          || exists p :: p in current.Values && p in invalidated && p !in old(invalidated)
        decreases |left|
      {
        var pointer :| pointer in left;
        ghost var here := Edge(head, pointer);
        LiveEdgeIff(records, current, before, head, pointer);
        if pointer.Key() == head.Key() || pointer in invalidated {
          left := left - {pointer};
        } else {
          var record := Find(records, pointer);
          if record.None? {
            var k :| k in current && current[k] == pointer;
            return false, longer;
          }
          if head in record.value.metadata.dependencies {
            ScanAdds(edges, stale, before, invalidated, visited, longer, head, left, pointer);
            invalidated := invalidated + {pointer};
            longer := longer + [pointer];
          }
          left := left - {pointer};
        }
      }
      ok := true;
    }

    /** The invalidation loop adds exactly the affected pointers and reconciles the reservations. */
    method InvalidateDependents(stale: ContractRef) returns (ok: bool)
      requires forall k :: k in current ==> current[k].Key() == k
      modifies this`invalidated, this`reservations
      ensures PointersRecorded(records, current) ==> ok
      ensures ok ==> invalidated == old(invalidated) + Affected(records, current, old(invalidated), stale)
      ensures ok ==> reservations == Reconciled(old(reservations), current, invalidated, stale)
    {
      ghost var before := invalidated;
      ghost var edges := LiveEdges(records, current, before);
      ghost var held := reservations;
      InvalidateExecutionReservation(stale);
      ghost var cancelled := reservations;
      var queue := [stale];
      var visited: set<ContractRef> := {};
      while queue != []
        invariant reservations == cancelled
        invariant Worklist(edges, stale, before, invalidated, visited, queue)
        decreases current.Values - invalidated, |queue|
      {
        var head := queue[0];
        queue := queue[1..];
        if head !in visited {
          ok, queue := ScanPointers(edges, stale, before, visited, queue, head);
          if !ok {
            return;
          }
          visited := visited + {head};
        }
      }
      forall p
        ensures p in invalidated <==> p in before || p in Affected(records, current, before, stale)
      {
        AffectedIff(records, current, before, stale, p);
        if Reaches(edges, stale, p) {
          EdgesEndLive(records, current, before);
          WorklistDone(edges, stale, before, invalidated, visited, p);
        }
      }
      ReconcileInvalidatedExecutionReservations();
      CancelEach(held, cancelled, reservations, current, invalidated, stale);
      ok := true;
    }

    /** Invalidates what depended on the superseded revision, pushes the record and replaces its pointer. */
    method AppendRecord(c: Contract) returns (ok: bool)
      requires PointersRecorded(records, current)
      modifies this
      ensures ok && records == old(records) + [c] && Value() == Appended(old(Value()), c)
      ensures PointersRecorded(records, current)
    {
      hide Find, Affected, Reconciled;
      if c.Key() in current {
        ok := InvalidateDependents(current[c.Key()]);
      }
      FindAppended(records, c);
      records := records + [c];
      current := current[c.Key() := c.Ref()];
      ok := true;
    }
  }

  lemma FindAppended(records: seq<Contract>, c: Contract)
    ensures forall r :: Find(records, r).Some? ==> Find(records + [c], r) == Find(records, r)
    ensures forall r :: Find(records, r).None? ==> Find(records + [c], r) == if c.Ref() == r then Some(c) else None
  {
    assert (records + [c])[..|records|] == records;
  }

  lemma EdgesEndLive(records: seq<Contract>, current: map<ContractKey, ContractRef>, invalidated: set<ContractRef>)
    ensures forall e :: e in LiveEdges(records, current, invalidated) ==> LiveIn(current, invalidated, e.after)
  {
  }
}
