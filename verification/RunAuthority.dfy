/**
  The authority object: it holds the projection and the tables, loads the recursive
  closure, applies it record by record, and commits or refuses a command as one step.
 */
module RunAuthority {
  import opened Wrappers
  import opened Contracts
  import opened Graphs
  import opened RunModel
  import opened RunTables
  import opened RunInvariants
  import opened RunSafety
  import RunEvaluator
  import RunRetries

  /** The nodes the closure query has found and expanded, and those still to expand. */
  ghost predicate Frontier(edges: set<Edge<RecordKey>>, root: RecordKey, found: set<RecordKey>, todo: set<RecordKey>) {
    && root in found && todo <= found
    && (forall k :: k in found ==> k == root || Reaches(edges, root, k))
    && (forall e :: e in edges && e.before in found - todo ==> e.after in found)
  }

  lemma FrontierStep(edges: set<Edge<RecordKey>>, root: RecordKey, found: set<RecordKey>, todo: set<RecordKey>, k: RecordKey, next: set<RecordKey>)
    requires Frontier(edges, root, found, todo) && k in todo
    requires forall j :: j in next <==> Edge(k, j) in edges
    ensures Frontier(edges, root, found + next, (todo - {k}) + (next - found))
  {
    forall j | j in next
      ensures j == root || Reaches(edges, root, j)
    {
      ReachesByEdge(edges, k, j);
      if k != root {
        ReachesTransitive(edges, root, k, j);
      }
    }
  }

  lemma FrontierDone(edges: set<Edge<RecordKey>>, root: RecordKey, found: set<RecordKey>, k: RecordKey)
    requires Frontier(edges, root, found, {})
    ensures k in found <==> k == root || Reaches(edges, root, k)
  {
    if Reaches(edges, root, k) {
      ReachStaysInClosed(edges, found, root, k);
    }
  }

  /** The nodes a dependency edge leads to, `root` included. */
  function Nodes(edges: set<Edge<RecordKey>>, root: RecordKey): set<RecordKey> {
    {root} + set e | e in edges :: e.after
  }

  /** The recursive query: the root and, round by round, every dependent of a record already found. */
  method FindDependents(edges: set<Edge<RecordKey>>, root: RecordKey) returns (found: set<RecordKey>)
    ensures forall k :: k in found <==> k == root || Reaches(edges, root, k)
  {
    hide Frontier, Reaches;
    var todo := {root};
    found := {root};
    FrontierStart(edges, root);
    while todo != {}
      invariant Frontier(edges, root, found, todo)
      invariant found <= Nodes(edges, root)
      decreases Nodes(edges, root) - found, |todo|
    {
      var k :| k in todo;
      var next := set e | e in edges && e.before == k :: e.after;
      forall j
        ensures j in next <==> Edge(k, j) in edges
      {
        assert Edge(k, j).before == k && Edge(k, j).after == j;
      }
      FrontierStep(edges, root, found, todo, k, next);
      ghost var was := found;
      todo := (todo - {k}) + (next - found);
      found := found + next;
      assert found == was ==> next - was == {};
    }
    forall k
      ensures k in found <==> k == root || Reaches(edges, root, k)
    {
      FrontierDone(edges, root, found, k);
    }
  }

  lemma FrontierStart(edges: set<Edge<RecordKey>>, root: RecordKey)
    ensures Frontier(edges, root, {root}, {root})
  {
  }

  /** The stored records of everything found. */
  method LoadRecursiveInvalidationClosure(stored: map<RecordKey, Ref>, edges: set<Edge<RecordKey>>, root: RecordKey)
    returns (listing: seq<Ref>)
    ensures IsListing(listing, Closure(stored, edges, root))
  {
    hide Reaches;
    var found := FindDependents(edges, root);
    listing := [];
    var left := found * stored.Keys;
    while left != {}
      invariant left <= found * stored.Keys
      invariant forall r :: r in listing <==> exists k :: k in found * stored.Keys - left && stored[k] == r
    {
      var k :| k in left;
      listing := listing + [stored[k]];
      left := left - {k};
    }
  }

  /** Clears whatever binding names the record. */
  method ClearBinding(p: Projection, r: Ref) returns (q: Projection)
    ensures q == ClearBindings(p, r)
  {
    q := p;
    match r.kind {
      case Decision =>
        if q.decision.Some? && q.decision.value.ref == r {
          q := q.(decision := None);
        }
      case Response =>
        if q.response.Some? && q.response.value.ref == r {
          q := q.(response := None);
        }
      case Action =>
        if q.action.Some? && q.action.value.ref == r {
          q := q.(action := None);
        }
        if q.admission.Some? && q.admission.value.actionRef == r {
          q := q.(admission := None);
        }
      case ActionAdmissionDecision =>
        if q.admission.Some? && q.admission.value.ref == r {
          q := q.(admission := None);
        }
      case Outcome =>
        if q.outcome == Some(r) {
          q := q.(outcome := None);
          if q.candidate.Some? && q.candidate.value.outcomeRef == r {
            q := q.(candidate := None);
          }
          if q.promotion.Some? && q.promotion.value.outcomeRef == r {
            q := q.(promotion := None);
          }
        }
      case HumanModelCandidate =>
        if q.candidate.Some? && q.candidate.value.ref == r {
          q := q.(candidate := None);
          if q.promotion.Some? && q.promotion.value.sourceRef == r {
            q := q.(promotion := None);
          }
        }
      case HumanModelPromotionDecision =>
        if q.promotion.Some? && q.promotion.value.ref == r {
          q := q.(promotion := None);
        }
      case _ =>
    }
  }

  /** The closure hook: each listed record is invalidated, its bindings cleared and its execution stopped. */
  method ApplyRepositoryInvalidationClosure(
    p: Projection, listing: seq<Ref>, invalidateRun: bool) returns (q: Projection)
    ensures q == ApplyClosure(p, listing, invalidateRun)
  {
    hide ClearBindings;
    q := p;
    var i := 0;
    while i < |listing|
      invariant i <= |listing| && q == InvalidateAll(p, listing[..i])
    {
      var r := listing[i];
      q := q.(invalidated := q.invalidated + {r});
      q := ClearBinding(q, r);
      if q.execution.Some? && q.execution.value.actionRef == r && !q.execution.value.state.IsTerminal() {
        q := q.(execution := Some(q.execution.value.(state := LosingState(q.execution.value.state))));
      }
      assert listing[..i + 1][..i] == listing[..i];
      i := i + 1;
    }
    assert listing[..i] == listing;
    if invalidateRun {
      q := q.(state := Invalidated);
    } else if q.execution.Some? && q.execution.value.state.ReconciliationRequired? {
      q := q.(state := RunReconciliationRequired);
    }
  }

  /** Whether a proof or a nonce has been consumed before. */
  method CheckProofReplay(consumed: seq<Consumption>, proofs: seq<Proof>) returns (replayed: bool)
    ensures replayed <==> Replayed(consumed, proofs)
  {
    var j := 0;
    while j < |proofs|
      invariant j <= |proofs|
      invariant forall i, k :: 0 <= i < |consumed| && 0 <= k < j ==>
        consumed[i].proofId != proofs[k].id && consumed[i].nonce != proofs[k].nonce
    {
      var i := 0;
      while i < |consumed|
        invariant i <= |consumed|
        invariant forall k :: 0 <= k < i ==> consumed[k].proofId != proofs[j].id && consumed[k].nonce != proofs[j].nonce
      {
        if consumed[i].proofId == proofs[j].id || consumed[i].nonce == proofs[j].nonce {
          return true;
        }
        i := i + 1;
      }
      j := j + 1;
    }
    replayed := false;
  }

  // ---------------------------------------------------------------- the dependency table

  function PredecessorRow(ref: Ref): set<Edge<RecordKey>> {
    if ref.revision > 1 then {Row(PredecessorKey(ref), ref)} else {}
  }

  /** The rows of `done` have been added to `start`, none of them twice. */
  ghost predicate Written(
    stored: map<RecordKey, Ref>, start: set<Edge<RecordKey>>, done: set<Ref>, ref: Ref, edges: set<Edge<RecordKey>>)
  {
    && edges == start + (set d | d in done :: Row(d.Key(), ref))
    && (forall d :: d in done ==> d.Key() in stored && Row(d.Key(), ref) !in start)
    && (forall a, b :: a in done && b in done && a.Key() == b.Key() ==> a == b)
  }

  lemma NothingWritten(stored: map<RecordKey, Ref>, start: set<Edge<RecordKey>>, ref: Ref)
    ensures Written(stored, start, {}, ref, start)
  {
  }

  lemma WrittenLonger(
    stored: map<RecordKey, Ref>, start: set<Edge<RecordKey>>, edges: set<Edge<RecordKey>>, done: set<Ref>, ref: Ref, d: Ref)
    requires Written(stored, start, done, ref, edges) && d.Key() in stored && Row(d.Key(), ref) !in edges
    ensures Written(stored, start, done + {d}, ref, edges + {Row(d.Key(), ref)})
  {
    forall a | a in done
      ensures a.Key() != d.Key()
    {
      assert Row(a.Key(), ref) in edges;
    }
  }

  lemma PredecessorTaken(stored: map<RecordKey, Ref>, edges: set<Edge<RecordKey>>, c: Command, records: map<Kind, Ref>, ref: Ref)
    requires ref.revision > 1 && Row(PredecessorKey(ref), ref) in edges
    ensures !RowsFit(stored, edges, c, records, ref)
  {
    hide Dependencies;
  }

  /** A refused row means that the rows do not fit. */
  lemma RowTaken(
    stored: map<RecordKey, Ref>, before: set<Edge<RecordKey>>, edges: set<Edge<RecordKey>>, c: Command, records: map<Kind, Ref>, ref: Ref,
    done: set<Ref>, d: Ref)
    requires Written(stored, before + PredecessorRow(ref), done, ref, edges)
    requires done <= Dependencies(c, records, ref) && d in Dependencies(c, records, ref) - done
    requires d.Key() !in stored || Row(d.Key(), ref) in edges
    ensures !RowsFit(stored, before, c, records, ref)
  {
    hide Dependencies;
    if d.Key() in stored && Row(d.Key(), ref) !in before + PredecessorRow(ref) {
      var a :| a in done && Row(a.Key(), ref) == Row(d.Key(), ref);
      assert a.Key() == d.Key() && a != d;
    }
  }

  lemma FittingHasPredecessor(stored: map<RecordKey, Ref>, ref: Ref)
    ensures RecordFits(stored, ref) && ref.revision > 1 ==> PredecessorKey(ref) in stored
  {
  }

  lemma AllWritten(
    stored: map<RecordKey, Ref>, before: set<Edge<RecordKey>>, edges: set<Edge<RecordKey>>, c: Command, records: map<Kind, Ref>, ref: Ref)
    requires Written(stored, before + PredecessorRow(ref), Dependencies(c, records, ref), ref, edges)
    requires ref.revision > 1 ==> Row(PredecessorKey(ref), ref) !in before
    ensures RowsFit(stored, before, c, records, ref) && edges == before + NewEdges(c, records, ref)
  {
    hide Dependencies;
  }

  class Authority {
    var projection: Projection
    var stored: map<RecordKey, Ref>
    var edges: set<Edge<RecordKey>>
    var executions: Executions
    var consumed: seq<Consumption>
    var log: seq<Event>
    var receipts: map<Id, RunRetries.Filed>

    constructor (domain: nat)
      ensures Desk() == RunRetries.Desk(FreshWorld(domain), map[])
    {
      projection, stored, edges, consumed, log := PendingRun(domain), map[], {}, [], [];
      executions := Executions(map[], map[], {});
      receipts := map[];
    }

    function Desk(): RunRetries.Desk
      reads this
    {
      RunRetries.Desk(Tables(), receipts)
    }

    function Tables(): World
      reads this
    {
      World(projection, stored, edges, executions, consumed, log)
    }

    /** Loads the closure the command needs, over the edges stored before it. */
    method Listing(root: Option<Ref>) returns (listing: seq<Ref>)
      ensures ListsRoot(Tables(), root, listing)
    {
      listing := [];
      if root.Some? {
        listing := LoadRecursiveInvalidationClosure(stored, edges, root.value.Key());
      }
    }

    /** The record's row, which must follow the latest revision under its policy and carry a new digest. */
    method PersistAuthoritativeRecord(ref: Ref) returns (accepted: bool)
      modifies this`stored
      ensures accepted <==> RecordFits(old(stored), ref)
      ensures stored == if accepted then old(stored)[ref.Key() := ref] else old(stored)
    {
      var left := stored.Keys;
      while left != {}
        invariant left <= stored.Keys
        invariant forall k :: k in stored.Keys - left ==> (k.id == ref.id ==> k.revision < ref.revision) && stored[k].digest != ref.digest
      {
        var k :| k in left;
        if (k.id == ref.id && k.revision >= ref.revision) || stored[k].digest == ref.digest {
          return false;
        }
        left := left - {k};
      }
      if ref.revision > 1 && (PredecessorKey(ref) !in stored || stored[PredecessorKey(ref)].policy != ref.policy) {
        return false;
      }
      stored := stored[ref.Key() := ref];
      accepted := true;
    }

    /** Inserts one row, which the table refuses when it holds that row or knows no such dependency. */
    method InsertRow(dependency: RecordKey, ref: Ref) returns (accepted: bool)
      modifies this`edges
      ensures accepted <==> dependency in stored && Row(dependency, ref) !in old(edges)
      ensures edges == if accepted then old(edges) + {Row(dependency, ref)} else old(edges)
    {
      accepted := dependency in stored && Row(dependency, ref) !in edges;
      if accepted {
        edges := edges + {Row(dependency, ref)};
      }
    }

    /** The predecessor's row, then one row for each record the command depends on. */
    method PersistContractDependencies(c: Command, records: map<Kind, Ref>, ref: Ref) returns (accepted: bool)
      requires ref.revision > 1 ==> PredecessorKey(ref) in stored
      modifies this`edges
      ensures accepted <==> RowsFit(stored, old(edges), c, records, ref)
      ensures accepted ==> edges == old(edges) + NewEdges(c, records, ref)
    {
      hide Dependencies, Written, RowsFit, NewEdges;
      if ref.revision > 1 {
        accepted := InsertRow(PredecessorKey(ref), ref);
        if !accepted {
          PredecessorTaken(stored, edges, c, records, ref);
          return false;
        }
      }
      var named := Dependencies(c, records, ref);
      var left := named;
      ghost var start := edges;
      NothingWritten(stored, start, ref);
      assert named - left == {};
      while left != {}
        invariant left <= named
        invariant start == old(edges) + PredecessorRow(ref)
        invariant Written(stored, start, named - left, ref, edges)
      {
        var d :| d in left;
        ghost var before := edges;
        accepted := InsertRow(d.Key(), ref);
        if !accepted {
          RowTaken(stored, old(edges), before, c, records, ref, named - left, d);
          return false;
        }
        WrittenLonger(stored, start, before, named - left, ref, d);
        assert named - (left - {d}) == named - left + {d};
        left := left - {d};
      }
      assert named - left == named;
      AllWritten(stored, old(edges), edges, c, records, ref);
      accepted := true;
    }

    /** Whether a new reservation's fence shares its action, or its operation and key, with another. */
    method FenceIsFree(x: Execution) returns (free: bool)
      ensures free <==> forall id :: id in executions.fences ==>
        && executions.fences[id].action != x.actionRef.Key()
        && !(executions.fences[id].operation == x.operation && executions.fences[id].idempotencyKey == x.idempotencyKey)
    {
      var left := executions.fences.Keys;
      while left != {}
        invariant left <= executions.fences.Keys
        invariant forall id :: id in executions.fences.Keys - left ==>
          && executions.fences[id].action != x.actionRef.Key()
          && !(executions.fences[id].operation == x.operation && executions.fences[id].idempotencyKey == x.idempotencyKey)
      {
        var id :| id in left;
        var fence := executions.fences[id];
        if fence.action == x.actionRef.Key() || (fence.operation == x.operation && fence.idempotencyKey == x.idempotencyKey) {
          return false;
        }
        left := left - {id};
      }
      free := true;
    }

    /** The reservation's fence and row. */
    method PersistReservation(x: Execution, now: nat, revoked: bool) returns (accepted: bool)
      modifies this`executions
      ensures accepted <==> WithinLimits(x, now) && FenceFits(old(executions).fences, projection.execution, x, revoked)
      ensures executions ==
        if accepted then old(executions).(fences := old(executions).fences[x.reservationId := FenceOf(x)]) else old(executions)
    {
      if now >= x.actionValidUntil || now >= x.admissionValidUntil || now >= x.authorizationValidUntil {
        return false;
      }
      if projection.execution.Some? && projection.execution.value.reservationId == x.reservationId {
        accepted := x.reservationId in executions.fences && executions.fences[x.reservationId] == FenceOf(x)
          && TransitionAllowed(projection.execution.value.state, x.state, revoked);
      } else if x.reservationId in executions.fences {
        accepted := false;
      } else {
        accepted := FenceIsFree(x);
      }
      if accepted {
        executions := executions.(fences := executions.fences[x.reservationId := FenceOf(x)]);
      }
    }

    /** Whether a new attempt's permit is new, its nonce new to the reservation, and no attempt is as late. */
    method AttemptIsNext(x: Execution) returns (next: bool)
      ensures next <==> forall k :: k in executions.attempts ==>
        && executions.attempts[k].permitId != x.permitId
        && (k.reservationId == x.reservationId ==> k.number < x.attempt && executions.attempts[k].nonce != x.dispatchNonce)
    {
      var left := executions.attempts.Keys;
      while left != {}
        invariant left <= executions.attempts.Keys
        invariant forall k :: k in executions.attempts.Keys - left ==>
          && executions.attempts[k].permitId != x.permitId
          && (k.reservationId == x.reservationId ==> k.number < x.attempt && executions.attempts[k].nonce != x.dispatchNonce)
      {
        var k :| k in left;
        var row := executions.attempts[k];
        if row.permitId == x.permitId || (k.reservationId == x.reservationId && (k.number >= x.attempt || row.nonce == x.dispatchNonce)) {
          return false;
        }
        left := left - {k};
      }
      next := true;
    }

    /** The attempt's row. */
    method PersistAttempt(x: Execution) returns (accepted: bool)
      modifies this`executions
      ensures accepted <==> AttemptFits(old(executions).attempts, x)
      ensures executions ==
        if accepted then old(executions).(attempts := old(executions).attempts[AttemptOf(x) := PermitOf(x)]) else old(executions)
    {
      if AttemptOf(x) in executions.attempts {
        accepted := executions.attempts[AttemptOf(x)] == PermitOf(x);
      } else if !x.state.PermitIssued? || (x.attempt > 1 && AttemptKey(x.reservationId, x.attempt - 1) !in executions.attempts) {
        accepted := false;
      } else {
        accepted := AttemptIsNext(x);
      }
      if accepted {
        executions := executions.(attempts := executions.attempts[AttemptOf(x) := PermitOf(x)]);
      }
    }

    /** The receipt's row, of which an attempt has one. */
    method PersistReceipt(c: Command) returns (accepted: bool)
      modifies this`executions
      ensures accepted <==> ReceiptFits(old(executions).receipts, c)
      ensures accepted ==>
        executions == old(executions).(receipts :=
          old(executions).receipts + (if c.CommitExecutionReceipt? then {AttemptKey(c.reservationId, c.attempt)} else {}))
    {
      if c.CommitExecutionReceipt? {
        var key := AttemptKey(c.reservationId, c.attempt);
        if key in executions.receipts {
          return false;
        }
        executions := executions.(receipts := executions.receipts + {key});
      }
      accepted := true;
    }

    /** All rows of the execution a transaction leaves, then its receipt. */
    method PersistExecution(after: Option<Execution>, c: Command, now: nat, revoked: bool) returns (accepted: bool)
      modifies this`executions
      ensures accepted <==> ExecutionFits(old(executions), projection.execution, after, c, now, revoked)
      ensures accepted ==> executions == ExecutionWritten(old(executions), after, c)
    {
      hide WithinLimits, FenceFits, AttemptFits, ReceiptFits;
      if after.Some? {
        accepted := PersistReservation(after.value, now, revoked);
        if !accepted {
          return false;
        }
        accepted := PersistAttempt(after.value);
        if !accepted {
          return false;
        }
      }
      accepted := PersistReceipt(c);
    }

    /** The assertion table accepts a correction only of a stored assertion. */
    method PersistAssertion(c: Command) returns (accepted: bool)
      ensures accepted <==> CorrectsStoredAssertion(stored, c)
    {
      accepted := true;
      if c.CorrectHumanModelAssertion? {
        accepted := c.assertionRef.Key() in stored && stored[c.assertionRef.Key()].kind.HumanModelAssertion?;
      }
    }

    /** What the transaction writes, table by table; a refusal rolls back what was written. */
    method PersistTransition(e: Envelope, d: Draft, now: nat, revoked: bool) returns (refused: Option<RunError>)
      modifies this`projection, this`stored, this`edges, this`executions, this`consumed, this`log
      ensures Persist(old(Tables()), e, d, now, revoked) == (if refused.None? then Ok(Tables()) else Err(refused.value))
      ensures refused.Some? ==> Tables() == old(Tables())
    {
      hide RecordFits, ExecutionFits, ExecutionWritten, RowsFit, CorrectsStoredAssertion, Consumptions, NewEdges;
      var storedBefore, edgesBefore, executionsBefore := stored, edges, executions;
      if d.record.Some? {
        FittingHasPredecessor(stored, d.record.value);
        var recorded := PersistAuthoritativeRecord(d.record.value);
        if !recorded {
          return Some(RecordRefused);
        }
        var rows := PersistContractDependencies(e.command, d.projection.records, d.record.value);
        var asserted := PersistAssertion(e.command);
        if !rows || !asserted {
          stored, edges := storedBefore, edgesBefore;
          return Some(RowRefused);
        }
      }
      var executed := PersistExecution(d.projection.execution, e.command, now, revoked);
      if !executed {
        stored, edges, executions := storedBefore, edgesBefore, executionsBefore;
        return Some(RowRefused);
      }
      projection := d.projection;
      consumed := consumed + Consumptions(e.proofs);
      log := log + [d.event];
      refused := None;
    }

    /** One transaction: it commits exactly a step of the model, or changes nothing. */
    method Transact(
      e: Envelope, now: nat, proofsHold: bool) returns (r: Result<Option<Ref>, RunError>, ghost listing: seq<Ref>)
      modifies this`projection, this`stored, this`edges, this`executions, this`consumed, this`log
      ensures ListsRoot(old(Tables()), RootNeeded(old(projection), e, now, proofsHold), listing)
      ensures r.Ok? ==> Steps(old(Tables()), Tables(), Input(e, now, proofsHold, listing))
      ensures r.Ok? ==>
        var decided := RunTables.Decide(old(projection), e, now, proofsHold, listing);
        decided.Ok? && decided.value.record == r.value
      ensures r.Err? ==>
        Tables() == old(Tables()) && RunTables.Transact(old(Tables()), e, now, proofsHold, listing) == Err(r.error)
    {
      hide Evaluate, ApplyClosure, Closure, Replayed, ProofsDistinct, ProofFailure, Persist, ClosureRoot, IsListing;
      var root := RootNeeded(projection, e, now, proofsHold);
      var closure := Listing(root);
      listing := closure;
      if !ProofsDistinct(e.proofs, e.domain) {
        return Err(ProofReplay), listing;
      }
      var replayed := CheckProofReplay(consumed, e.proofs);
      if replayed {
        return Err(ProofReplay), listing;
      }
      var d: Draft;
      var revoked := AdmissionFails(projection, e.command, proofsHold);
      if revoked {
        if projection.admission.None? {
          return Err(ActionNotAdmitted), listing;
        }
        var q := ApplyRepositoryInvalidationClosure(ProofFailure(projection), closure, false);
        d := Draft(q, None, OtherEvent("action_admission_proof_revoked"));
      } else {
        var evaluated := RunEvaluator.EvaluateAuthoritativeTransition(projection, e, now);
        if evaluated.Err? {
          return Err(evaluated.error), listing;
        }
        d := evaluated.value;
        if ClosureRoot(projection, e.command, d).Some? {
          var q := ApplyRepositoryInvalidationClosure(d.projection, closure, e.command.InvalidateRecord?);
          d := d.(projection := q);
        }
      }
      var refused := PersistTransition(e, d, now, revoked);
      r := if refused.None? then Ok(d.record) else Err(refused.value);
    }

    /** Answers a retry from its receipt; otherwise one transaction, whose receipt is filed. */
    method Handle(id: Id, e: Envelope, now: nat, proofsHold: bool, verified: bool)
      returns (r: Result<RunRetries.Reply, RunRetries.CallError>, ghost c: RunRetries.Call)
      modifies this
      ensures c == RunRetries.Call(id, Input(e, now, proofsHold, c.input.listing), verified)
      ensures r == RunRetries.Answer(old(Desk()), c) && Desk() == RunRetries.Next(old(Desk()), c)
      ensures RunRetries.Commits(old(Desk()), c) ==> RunRetries.ListsClosure(old(Desk()), c)
    {
      hide RunTables.Transact, RunTables.Decide, RootNeeded, ListsRoot, ProofsDistinct;
      c := RunRetries.Call(id, Input(e, now, proofsHold, []), verified);
      if !ProofsDistinct(e.proofs, e.domain) {
        return Err(RunRetries.Refused(ProofReplay)), c;
      }
      if id in receipts {
        if receipts[id].envelope != e {
          return Err(RunRetries.IdempotencyConflict), c;
        }
        if !verified {
          return Err(RunRetries.ProofVerificationFailed), c;
        }
        return Ok(RunRetries.Reply(receipts[id].receipt, true)), c;
      }
      if !verified {
        return Err(RunRetries.ProofVerificationFailed), c;
      }
      var transacted, listing := Transact(e, now, proofsHold);
      c := RunRetries.Call(id, Input(e, now, proofsHold, listing), verified);
      if transacted.Err? {
        return Err(RunRetries.Refused(transacted.error)), c;
      }
      var receipt := RunRetries.Receipt(projection.version, projection.state, transacted.value);
      receipts := receipts[id := RunRetries.Filed(e, receipt)];
      r := Ok(RunRetries.Reply(receipt, false));
    }
  }
}
