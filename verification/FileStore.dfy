/**
  The store object: it holds the current state, and each operation builds a candidate,
  validates it and only then replaces the state. Loading and persisting the state are the
  concern of module AnchoredFile; under the store's lock each call is one step.
 */
module FileStore {
  import opened Wrappers
  import opened Contracts
  import opened Sequences
  import opened StoreModel
  import opened StoreOperations
  import opened StoreSnapshot
  import opened StoreSafety
  import opened StoreCommit
  import StoreValidator
  import StoreRuns

  lemma RefusalIsStale(s: StoreModel.State, c: Contract, j: nat)
    requires ContinuesPointer(s.current, c) && ContinuesLineage(s.records, s.current, c)
    requires j < |c.metadata.dependencies| && !DependencyUsable(s, c.metadata.dependencies[j])
    ensures !Committable(s, c) && CommitRefusal(s, c) == StaleDependency
  {
    hide Find, CrossObjectConsistent, ContinuesPointer, DependencyUsable;
  }

  class Store {
    var state: StoreModel.State

    ghost predicate Valid()
      reads this
    {
      StateValid(state)
    }

    constructor ()
      ensures Valid() && state == EMPTY
    {
      state := EMPTY;
      StoreRuns.EmptyIsValid();
    }

    /** Validates a candidate and replaces the state by it, or leaves the state alone. */
    method Persist(candidate: StoreModel.State) returns (ok: bool)
      requires Valid()
      modifies this
      ensures Valid() && (ok <==> StateValid(candidate))
      ensures state == if StateValid(candidate) then candidate else old(state)
    {
      hide StateValid;
      ok := StoreValidator.ValidateSnapshot(candidate);
      if ok {
        state := candidate;
      }
    }

    /** `validate` of the lineage, dependencies and cross-object rules, in order. */
    method CheckCommit(c: Contract) returns (refusal: Option<StoreError>)
      ensures refusal.None? <==> Committable(state, c)
      ensures refusal.Some? ==> refusal.value == CommitRefusal(state, c)
    {
      hide CrossObjectConsistent, Find;
      if !ContinuesPointer(state.current, c) {
        return Some(StaleCurrentPointer);
      }
      if c.Key() in state.current {
        var previous := Find(state.records, state.current[c.Key()]);
        if previous.None? {
          return Some(CorruptSnapshot);
        }
        if !SameLineage(previous.value.metadata, c.metadata) {
          return Some(CrossObjectMismatch);
        }
      }
      var j := 0;
      while j < |c.metadata.dependencies|
        invariant j <= |c.metadata.dependencies|
        invariant forall k :: 0 <= k < j ==> DependencyUsable(state, c.metadata.dependencies[k])
      {
        if !DependencyUsable(state, c.metadata.dependencies[j]) {
          RefusalIsStale(state, c, j);
          return Some(StaleDependency);
        }
        j := j + 1;
      }
      if !CrossObjectConsistent(c, state.records, state.reservations) {
        return Some(CrossObjectMismatch);
      }
      refusal := None;
    }

    /** Appends the contract to a copy of the state and, for a receipt, settles its attempt. */
    method BuildCandidate(c: Contract, proof: Option<ReceiptProof>) returns (r: Result<StoreModel.State, StoreError>)
      requires Valid() && c.ExecutionReceipt? == proof.Some?
      ensures r == CommitCandidate(state, c, proof)
    {
      hide Find, StateValid, Appended, Settle;
      var candidate := new Snapshot(state);
      StatePointers(state);
      var appended := candidate.AppendRecord(c);
      if proof.Some? {
        match Settle(candidate.reservations, c, proof.value) {
          case Err(error) => return Err(error);
          case Ok(settled) => candidate.reservations := settled;
        }
      }
      r := Ok(candidate.Value());
    }

    method CommitContract(c: Contract, proof: Option<ReceiptProof>, now: nat) returns (r: Result<Reply, StoreError>)
      requires Valid()
      modifies this
      ensures Valid() && state == Next(old(state), Commit(c, proof, now)) && r == Reported(old(state), Commit(c, proof, now))
    {
      hide StateValid, Find, Contract.Valid, ReceiptProofValidAt, Committable, CommitRefusal, CommitCandidate;
      if c.ExecutionReceipt? != proof.Some? {
        return Err(VerifiedReceiptProofRequired);
      }
      if !c.Valid() {
        return Err(StoreError.InvalidContract);
      }
      if proof.Some? && !ReceiptProofValidAt(c, proof.value, now) {
        return Err(ProofVerificationFailed);
      }
      if Find(state.records, c.Ref()).Some? {
        return Ok(AlreadyCommitted(c.Ref()));
      }
      var refusal := CheckCommit(c);
      if refusal.Some? {
        return Err(refusal.value);
      }
      var built := BuildCandidate(c, proof);
      if built.Err? {
        return Err(built.error);
      }
      var persisted := Persist(built.value);
      r := if persisted then Ok(Committed(c.Ref())) else Err(CorruptSnapshot);
    }

    method IssueExecutionPermit(v: VerifiedRequest, freshId: Id, now: nat) returns (r: Result<Reply, StoreError>)
      requires Valid()
      modifies this
      ensures Valid() && state == Next(old(state), Issue(v, freshId, now)) && r == Reported(old(state), Issue(v, freshId, now))
    {
      hide StateValid, Find, VerifiedRequest.ValidAt, ProofSeen, AuthorizationSeen, Conflict;
      var actionRef := v.request.actionRef;
      if !Live(state, actionRef) {
        return Err(StaleCurrentPointer);
      }
      var found := Find(state.records, actionRef);
      if !(found.Some? && found.value.Action?) {
        return Err(CorruptSnapshot);
      }
      var action := found.value;
      if !v.ValidAt(action, now) {
        return Err(ProofVerificationFailed);
      }
      var replayed, consumed := SearchConsumed(state.reservations, v);
      if replayed {
        return Err(ProofReplayDetected);
      }
      if consumed {
        return Err(AuthorizationAlreadyConsumed);
      }
      var a := NewAttempt(v, now);
      var reservations := state.reservations;
      var reservationId := freshId;
      var conflict := Locate(reservations, (r: Reservation) => r.actionRef == action.Ref() || SameScope(r, action));
      if conflict.Some? {
        var held := reservations[conflict.value];
        if held.actionRef != actionRef || !SameScope(held, action) {
          return Err(ExecutionAlreadyReserved);
        }
        if held.attempts == [] {
          return Err(CorruptSnapshot);
        }
        var previous := held.attempts[|held.attempts| - 1];
        if !previous.status.PermitsRetry() {
          return Err(ExecutionAlreadyReserved);
        }
        if previous.number >= MAX_ATTEMPTS {
          return Err(AttemptOverflow);
        }
        if v.request.attempt != previous.number + 1 {
          return Err(ExecutionAlreadyReserved);
        }
        reservationId := held.id;
        reservations := reservations[conflict.value := held.(attempts := held.attempts + [a])];
      } else {
        if v.request.attempt != 1 {
          return Err(InvalidExecutionAttempt);
        }
        reservations := reservations + [
          Reservation(freshId, actionRef, action.metadata.authority.tenant, action.operation, action.idempotencyKey, [a])];
      }
      var persisted := Persist(state.(reservations := reservations));
      r := if persisted then Ok(Permitted(PermitFor(reservationId, a, v.verifiedAt))) else Err(CorruptSnapshot);
    }

    /** Persists the state with the last attempt of reservation `i` replaced. */
    method PersistLast(i: nat, a: Attempt, told: Result<Reply, StoreError>) returns (r: Result<Reply, StoreError>)
      requires Valid() && i < |state.reservations| && state.reservations[i].attempts != []
      modifies this
      ensures Valid()
      ensures
        var s := old(state);
        var next := s.(reservations := WithAttempt(s.reservations, i, |s.reservations[i].attempts| - 1, a));
        state == Adopted(s, next) && r == if StateValid(next) then told else Err(CorruptSnapshot)
    {
      hide StateValid;
      var candidate := new Snapshot(state);
      var held := candidate.reservations[i];
      candidate.reservations := candidate.reservations[i := held.(attempts := held.attempts[|held.attempts| - 1 := a])];
      var persisted := Persist(candidate.Value());
      r := if persisted then told else Err(CorruptSnapshot);
    }

    method TransitionExecutionPermit(permit: Permit, mark: Mark, now: nat) returns (r: Result<Reply, StoreError>)
      requires Valid()
      modifies this
      ensures Valid() && state == Next(old(state), MarkPermit(permit, mark, now))
      ensures r == Reported(old(state), MarkPermit(permit, mark, now))
    {
      hide StateValid, FindById, WithAttempt;
      var i := Locate(state.reservations, (r: Reservation) => r.id == permit.reservationId);
      if i.None? {
        return Err(ExecutionReservationNotFound);
      }
      var held := state.reservations[i.value];
      if held.attempts == [] {
        return Err(CorruptSnapshot);
      }
      var a := held.attempts[|held.attempts| - 1];
      var expected, next := PermitIssued, Delivered;
      if mark.Dispatch? {
        expected, next := Delivered, Dispatched;
      }
      if !PermitMatches(permit, held, a) {
        return Err(ExecutionPermitMismatch);
      }
      if !Live(state, held.actionRef) {
        a := a.(status := if a.dispatchedAt.Some? then ReconciliationRequired else Cancelled);
        r := PersistLast(i.value, a, Err(ExecutionActionInvalidated));
        return;
      }
      if LeaseOver(a, now) {
        r := PersistLast(i.value, a.(status := Expired), Err(ExecutionLeaseExpired));
        return;
      }
      if a.status == next {
        return Ok(Marked);
      }
      if a.status != expected {
        return Err(InvalidExecutionTransition);
      }
      a := a.(status := next);
      if next.Delivered? {
        a := a.(deliveredAt := Some(now));
      } else {
        a := a.(dispatchedAt := Some(now));
      }
      r := PersistLast(i.value, a, Ok(Marked));
    }

    method RecoverExecutionPermit(
      actionRef: ContractRef, owner: Reference, now: nat) returns (r: Result<Reply, StoreError>)
      requires Valid()
      modifies this
      ensures Valid() && state == Next(old(state), Recover(actionRef, owner, now))
      ensures r == Reported(old(state), Recover(actionRef, owner, now))
    {
      hide StateValid, FindById, FindReservation, WithAttempt;
      var i := Locate(state.reservations, (r: Reservation) => r.actionRef == actionRef);
      if i.None? {
        return Err(ExecutionReservationNotFound);
      }
      var held := state.reservations[i.value];
      if held.attempts == [] {
        return Err(CorruptSnapshot);
      }
      var a := held.attempts[|held.attempts| - 1];
      if a.request.owner != owner {
        return Err(ExecutionOwnerMismatch);
      }
      if !(a.status.PermitIssued? || a.status.Delivered?) {
        return Err(ExecutionRequiresReconciliation);
      }
      if LeaseOver(a, now) {
        var k := Locate(state.reservations, (r: Reservation) => r.id == held.id);
        if k.None? || state.reservations[k.value].attempts == [] {
          return Err(CorruptSnapshot);
        }
        var attempts := state.reservations[k.value].attempts;
        r := PersistLast(k.value, attempts[|attempts| - 1].(status := Expired), Err(ExecutionLeaseExpired));
        return;
      }
      r := Ok(Permitted(PermitFor(held.id, a, a.consumedAt)));
    }

    /** The current contract of a key, unless it has been invalidated. */
    method LoadCurrent(key: ContractKey) returns (found: Option<Contract>)
      requires Valid()
      ensures found.Some? ==> found.value in state.records && found.value.Key() == key && Live(state, found.value.Ref())
      ensures found.None? ==> forall ref: ContractRef :: ref.Key() == key ==> !Live(state, ref)
    {
      StatePointers(state);
      hide StateValid, Find;
      if key !in state.current || state.current[key] in state.invalidated {
        return None;
      }
      found := Find(state.records, state.current[key]);
    }
  }

  // ---------------------------------------------------------------- searches

  /** Whether the proof or its nonce, and whether the authorization, has been used by any attempt. */
  method SearchConsumed(reservations: seq<Reservation>, v: VerifiedRequest) returns (replayed: bool, consumed: bool)
    ensures replayed <==> ProofSeen(reservations, v.envelope.claims.proofId, v.envelope.claims.nonce)
    ensures consumed <==> AuthorizationSeen(reservations, v.request.authorizationId)
  {
    var proofId, nonce, id := v.envelope.claims.proofId, v.envelope.claims.nonce, v.request.authorizationId;
    replayed, consumed := false, false;
    var i := 0;
    while i < |reservations|
      invariant i <= |reservations|
      invariant replayed ==> ProofSeen(reservations, proofId, nonce)
      invariant consumed ==> AuthorizationSeen(reservations, id)
      invariant forall k, m :: 0 <= k < i && 0 <= m < |reservations[k].attempts| ==>
        (!replayed ==> reservations[k].attempts[m].proofId != proofId && reservations[k].attempts[m].nonce != nonce)
        && (!consumed ==> reservations[k].attempts[m].authorization.id != id)
    {
      var j := 0;
      while j < |reservations[i].attempts|
        invariant j <= |reservations[i].attempts|
        invariant replayed ==> ProofSeen(reservations, proofId, nonce)
        invariant consumed ==> AuthorizationSeen(reservations, id)
        invariant forall k, m :: 0 <= k < i && 0 <= m < |reservations[k].attempts| ==>
          (!replayed ==> reservations[k].attempts[m].proofId != proofId && reservations[k].attempts[m].nonce != nonce)
          && (!consumed ==> reservations[k].attempts[m].authorization.id != id)
        invariant forall m :: 0 <= m < j ==>
          (!replayed ==> reservations[i].attempts[m].proofId != proofId && reservations[i].attempts[m].nonce != nonce)
          && (!consumed ==> reservations[i].attempts[m].authorization.id != id)
      {
        var a := reservations[i].attempts[j];
        replayed := replayed || a.proofId == proofId || a.nonce == nonce;
        consumed := consumed || a.authorization.id == id;
        j := j + 1;
      }
      i := i + 1;
    }
  }

  lemma StatePointers(s: StoreModel.State)
    requires StateValid(s)
    ensures PointersRecorded(s.records, s.current)
  {
    hide Find, RecordsUnique, RecordsValid, InvalidatedKnown, CachedIsReplay, ReservationsValid;
  }
}
