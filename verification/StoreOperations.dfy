/**
  What each store operation decides and writes, as functions of the stored state.
  An operation may refuse, may leave the state alone, or may propose a candidate; a
  candidate replaces the state only when the validator accepts it. Two operations
  write and still return an error (an expired lease, a dead action).
 */
module StoreOperations {
  import opened Wrappers
  import opened Contracts
  import opened Sequences
  import opened SigningBytes
  import opened StoreModel

  datatype StoreError =
    | VerifiedReceiptProofRequired
    | InvalidContract
    | ProofVerificationFailed
    | StaleCurrentPointer
    | CrossObjectMismatch
    | StaleDependency
    | CorruptSnapshot
    | ExecutionReservationNotFound
    | InvalidExecutionTransition
    | ProofReplayDetected
    | AuthorizationAlreadyConsumed
    | ExecutionAlreadyReserved
    | InvalidExecutionAttempt
    | AttemptOverflow
    | ExecutionOwnerMismatch
    | ExecutionRequiresReconciliation
    | ExecutionLeaseExpired
    | ExecutionPermitMismatch
    | ExecutionActionInvalidated

  datatype ReceiptProof = ReceiptProof(envelope: Envelope, verifiedAt: nat)

  /** A permit request together with the issuer's verified proof over it. */
  datatype VerifiedRequest = VerifiedRequest(
    request: PermitRequest, authorization: Authorization, envelope: Envelope, verifiedAt: nat)
  {
    /** What verification established when the value was made; the type has no other constructor. */
    predicate Bound() {
      && envelope.ShapeValid()
      && envelope.claims.kind.ExecutionPermit?
      && envelope.claims.subject == request.requestRef
      && envelope.claims.subjectDigest == request.requestDigest
      && envelope.claims.tenant == request.tenant
      && envelope.claims.scope == request.scope
      && envelope.claims.purpose == request.purpose
      && envelope.claims.policyRevision == request.policyRevision
      && envelope.claims.issuedAt == request.leaseIssuedAt
      && envelope.claims.expiresAt >= request.leaseUntil
      && envelope.claims.nonce == request.dispatchNonce
      && request.leaseIssuedAt <= verifiedAt < request.leaseUntil
      && request.attempt <= MAX_ATTEMPTS
    }

    predicate ValidAt(action: Contract, now: nat)
      requires action.Action?
    {
      && request.ValidFor(action, authorization)
      && authorization.ValidFor(action, now)
      && request.leaseIssuedAt <= now < request.leaseUntil
      && envelope.claims.issuedAt <= now < envelope.claims.expiresAt
      && now < action.metadata.validUntil
      && verifiedAt <= now
    }
  }

  datatype Permit = Permit(
    reservationId: Id, permitId: Uuid, keyId: Reference, verifiedAt: nat, issuedAt: nat, request: PermitRequest)

  datatype Reply =
    | Committed(ref: ContractRef)
    | AlreadyCommitted(ref: ContractRef)
    | Permitted(permit: Permit)
    | Marked

  /** The candidate to persist, if any, and what the caller is told once it is persisted. */
  datatype Intention = Intention(write: Option<State>, result: Result<Reply, StoreError>)

  function Refuse(error: StoreError): Intention {
    Intention(None, Err(error))
  }

  // ---------------------------------------------------------------- commit

  predicate ReceiptProofValidAt(c: Contract, proof: ReceiptProof, now: nat)
    requires c.ExecutionReceipt?
  {
    && ReceiptClaimsMatch(c, proof.envelope)
    && proof.envelope.claims.tenant == c.metadata.authority.tenant
    && proof.envelope.claims.scope == c.metadata.authority.scope
    && proof.envelope.claims.purpose == c.metadata.authority.purpose
    && proof.envelope.claims.policyRevision == c.metadata.policyRevision
    && c.receipt.completedAt <= now
    && proof.envelope.claims.issuedAt <= now < proof.envelope.claims.expiresAt
    && proof.envelope.claims.issuedAt <= proof.verifiedAt < proof.envelope.claims.expiresAt
    && proof.verifiedAt <= now
  }

  predicate DependencyUsable(s: State, d: ContractRef) {
    Live(s, d) && Find(s.records, d).Some?
  }

  /** The checks of `commit_internal` after the contract's own, in their order. */
  predicate Committable(s: State, c: Contract) {
    && ContinuesPointer(s.current, c) && ContinuesLineage(s.records, s.current, c)
    && (forall d :: d in c.metadata.dependencies ==> DependencyUsable(s, d))
    && CrossObjectConsistent(c, s.records, s.reservations)
  }

  function CommitRefusal(s: State, c: Contract): StoreError
    requires !Committable(s, c)
  {
    if !ContinuesPointer(s.current, c) then StaleCurrentPointer
    else if c.Key() in s.current && Find(s.records, s.current[c.Key()]).None? then CorruptSnapshot
    else if !ContinuesLineage(s.records, s.current, c) then CrossObjectMismatch
    else if exists d :: d in c.metadata.dependencies && !DependencyUsable(s, d) then StaleDependency
    else CrossObjectMismatch
  }

  /** The receipt's own comparison with an attempt, which reads the key from the request. */
  predicate ReceiptMatchesParts(receipt: Receipt, actionRef: ContractRef, a: Attempt) {
    && receipt.actionRef == actionRef
    && receipt.permitId == a.permitId
    && receipt.authorizationId == a.authorization.id
    && receipt.provider == a.request.provider
    && receipt.owner == a.request.owner
    && receipt.dispatchNonce == a.request.dispatchNonce
    && receipt.attempt == a.number
    && receipt.idempotencyKey == a.request.idempotencyKey
  }

  function SettleAttempt(a: Attempt, c: Contract, proof: ReceiptProof): Attempt
    requires c.ExecutionReceipt?
  {
    a.(status := StatusOf(c.receipt.state), receiptRef := Some(c.Ref()),
       receiptEnvelope := Some(proof.envelope), receiptVerifiedAt := Some(proof.verifiedAt))
  }

  function WithAttempt(reservations: seq<Reservation>, i: nat, j: nat, a: Attempt): seq<Reservation>
    requires i < |reservations| && j < |reservations[i].attempts|
  {
    reservations[i := reservations[i].(attempts := reservations[i].attempts[j := a])]
  }

  /** The receipt settles the attempt whose permit it names. */
  function Settle(
    reservations: seq<Reservation>, c: Contract, proof: ReceiptProof): Result<seq<Reservation>, StoreError>
    requires c.ExecutionReceipt?
  {
    var i := FindReservation(reservations, c.receipt.actionRef);
    if i.None? then Err(ExecutionReservationNotFound)
    else
      var r := reservations[i.value];
      var j := FindAttempt(r.attempts, c.receipt.permitId);
      if j.None? then Err(ExecutionReservationNotFound)
      else
        var a := r.attempts[j.value];
        if (a.status.Dispatched? || a.status.ReconciliationRequired?) && ReceiptMatchesParts(c.receipt, r.actionRef, a) then
          Ok(WithAttempt(reservations, i.value, j.value, SettleAttempt(a, c, proof)))
        else Err(InvalidExecutionTransition)
  }

  ghost function CommitCandidate(s: State, c: Contract, proof: Option<ReceiptProof>): Result<State, StoreError>
    requires c.ExecutionReceipt? == proof.Some?
  {
    var appended := Appended(s, c);
    if proof.None? then Ok(appended)
    else
      match Settle(appended.reservations, c, proof.value)
      case Err(error) => Err(error)
      case Ok(reservations) => Ok(appended.(reservations := reservations))
  }

  ghost function PlanCommit(s: State, c: Contract, proof: Option<ReceiptProof>, now: nat): Intention {
    if c.ExecutionReceipt? != proof.Some? then Refuse(VerifiedReceiptProofRequired)
    else if !c.Valid() then Refuse(StoreError.InvalidContract)
    else if proof.Some? && !ReceiptProofValidAt(c, proof.value, now) then Refuse(ProofVerificationFailed)
    else if Find(s.records, c.Ref()).Some? then Intention(None, Ok(AlreadyCommitted(c.Ref())))
    else if !Committable(s, c) then Refuse(CommitRefusal(s, c))
    else
      match CommitCandidate(s, c, proof)
      case Err(error) => Refuse(error)
      case Ok(candidate) => Intention(Some(candidate), Ok(Committed(c.Ref())))
  }

  // ---------------------------------------------------------------- permits

  predicate ProofSeen(reservations: seq<Reservation>, proofId: Uuid, nonce: string) {
    exists i, j :: 0 <= i < |reservations| && 0 <= j < |reservations[i].attempts| &&
      (reservations[i].attempts[j].proofId == proofId || reservations[i].attempts[j].nonce == nonce)
  }

  predicate AuthorizationSeen(reservations: seq<Reservation>, id: Id) {
    exists i, j :: 0 <= i < |reservations| && 0 <= j < |reservations[i].attempts| &&
      reservations[i].attempts[j].authorization.id == id
  }

  predicate SameScope(r: Reservation, action: Contract)
    requires action.Action?
  {
    && r.tenant == action.metadata.authority.tenant && r.operation == action.operation
    && r.idempotencyKey == action.idempotencyKey
  }

  /** The first reservation that holds the action or its (tenant, operation, key) scope. */
  function Conflict(reservations: seq<Reservation>, action: Contract): (i: Option<nat>)
    requires action.Action?
    ensures i.Some? ==> i.value < |reservations|
    ensures i.Some? ==> (reservations[i.value].actionRef == action.Ref() || SameScope(reservations[i.value], action))
    ensures i.Some? ==>
      forall j :: 0 <= j < i.value ==> (reservations[j].actionRef != action.Ref() && !SameScope(reservations[j], action))
    ensures i.None? ==>
      forall j :: 0 <= j < |reservations| ==> (reservations[j].actionRef != action.Ref() && !SameScope(reservations[j], action))
  {
    FirstIndex(reservations, (r: Reservation) => r.actionRef == action.Ref() || SameScope(r, action))
  }

  function NewAttempt(v: VerifiedRequest, now: nat): Attempt {
    Attempt(
      v.request.attempt, v.envelope.claims.proofId, v.envelope.claims.proofId, v.envelope.claims.nonce,
      v.envelope.claims.issuer, v.envelope.keyId, v.envelope.claims.expiresAt, v.envelope, v.authorization,
      v.request, now, PermitIssued, None, None, None, None, None)
  }

  function PermitFor(reservationId: Id, a: Attempt, verifiedAt: nat): Permit {
    Permit(reservationId, a.permitId, a.keyId, verifiedAt, a.consumedAt, a.request)
  }

  function AddAttempt(reservations: seq<Reservation>, i: nat, a: Attempt): seq<Reservation>
    requires i < |reservations|
  {
    reservations[i := reservations[i].(attempts := reservations[i].attempts + [a])]
  }

  /** Where the new attempt goes: a retry of the action's reservation, or a new reservation. */
  function Reserve(reservations: seq<Reservation>, action: Contract, a: Attempt, freshId: Id)
    : Result<(Id, seq<Reservation>), StoreError>
    requires action.Action?
  {
    var conflict := Conflict(reservations, action);
    if conflict.Some? then
      var r := reservations[conflict.value];
      if r.actionRef != action.Ref() || !SameScope(r, action) then Err(ExecutionAlreadyReserved)
      else if r.attempts == [] then Err(CorruptSnapshot)
      else
        var previous := r.attempts[|r.attempts| - 1];
        if !previous.status.PermitsRetry() then Err(ExecutionAlreadyReserved)
        else if previous.number >= MAX_ATTEMPTS then Err(AttemptOverflow)
        else if a.number != previous.number + 1 then Err(ExecutionAlreadyReserved)
        else Ok((r.id, AddAttempt(reservations, conflict.value, a)))
    else if a.number != 1 then Err(InvalidExecutionAttempt)
    else
      var r := Reservation(
        freshId, action.Ref(), action.metadata.authority.tenant, action.operation, action.idempotencyKey, [a]);
      Ok((freshId, reservations + [r]))
  }

  function PlanIssue(s: State, v: VerifiedRequest, freshId: Id, now: nat): Intention {
    var found := Find(s.records, v.request.actionRef);
    if !Live(s, v.request.actionRef) then Refuse(StaleCurrentPointer)
    else if !(found.Some? && found.value.Action?) then Refuse(CorruptSnapshot)
    else if !v.ValidAt(found.value, now) then Refuse(ProofVerificationFailed)
    else if ProofSeen(s.reservations, v.envelope.claims.proofId, v.envelope.claims.nonce) then Refuse(ProofReplayDetected)
    else if AuthorizationSeen(s.reservations, v.request.authorizationId) then Refuse(AuthorizationAlreadyConsumed)
    else
      var a := NewAttempt(v, now);
      match Reserve(s.reservations, found.value, a, freshId)
      case Err(error) => Refuse(error)
      case Ok(reserved) =>
        Intention(Some(s.(reservations := reserved.1)), Ok(Permitted(PermitFor(reserved.0, a, v.verifiedAt))))
  }

  function FindById(reservations: seq<Reservation>, id: Id): (i: Option<nat>)
    ensures i.Some? ==> i.value < |reservations| && reservations[i.value].id == id
    ensures i.Some? ==> forall j :: 0 <= j < i.value ==> reservations[j].id != id
    ensures i.None? ==> forall j :: 0 <= j < |reservations| ==> reservations[j].id != id
  {
    FirstIndex(reservations, (r: Reservation) => r.id == id)
  }

  predicate LeaseOver(a: Attempt, now: nat) {
    now >= a.request.leaseUntil || now >= a.proofExpiresAt || now >= a.authorization.expiresAt
  }

  predicate PermitMatches(permit: Permit, r: Reservation, a: Attempt) {
    && permit.reservationId == r.id && permit.permitId == a.permitId && permit.keyId == a.keyId
    && permit.request == a.request && permit.request.actionRef == r.actionRef
  }

  /** Where a mark call finds a permit whose action is gone. */
  function Abandoned(a: Attempt): Attempt {
    a.(status := if a.dispatchedAt.Some? then ReconciliationRequired else Cancelled)
  }

  datatype Mark = Deliver | Dispatch

  function Advance(a: Attempt, mark: Mark, now: nat): Attempt {
    match mark
    case Deliver => a.(status := Delivered, deliveredAt := Some(now))
    case Dispatch => a.(status := Dispatched, dispatchedAt := Some(now))
  }

  function PlanMark(s: State, permit: Permit, mark: Mark, now: nat): Intention {
    var i := FindById(s.reservations, permit.reservationId);
    if i.None? then Refuse(ExecutionReservationNotFound)
    else
      var r := s.reservations[i.value];
      if r.attempts == [] then Refuse(CorruptSnapshot)
      else
        var last := |r.attempts| - 1;
        var a := r.attempts[last];
        if !PermitMatches(permit, r, a) then Refuse(ExecutionPermitMismatch)
        else if !Live(s, r.actionRef) then
          Intention(Some(s.(reservations := WithAttempt(s.reservations, i.value, last, Abandoned(a)))), Err(ExecutionActionInvalidated))
        else if LeaseOver(a, now) then
          Intention(
            Some(s.(reservations := WithAttempt(s.reservations, i.value, last, a.(status := Expired)))), Err(ExecutionLeaseExpired))
        else if a.status == (if mark.Deliver? then Delivered else Dispatched) then Intention(None, Ok(Marked))
        else if a.status != (if mark.Deliver? then PermitIssued else Delivered) then Refuse(InvalidExecutionTransition)
        else Intention(Some(s.(reservations := WithAttempt(s.reservations, i.value, last, Advance(a, mark, now)))), Ok(Marked))
  }

  function PlanRecover(s: State, actionRef: ContractRef, owner: Reference, now: nat): Intention {
    var i := FindReservation(s.reservations, actionRef);
    if i.None? then Refuse(ExecutionReservationNotFound)
    else
      var r := s.reservations[i.value];
      if r.attempts == [] then Refuse(CorruptSnapshot)
      else
        var a := r.attempts[|r.attempts| - 1];
        if a.request.owner != owner then Refuse(ExecutionOwnerMismatch)
        else if !(a.status.PermitIssued? || a.status.Delivered?) then Refuse(ExecutionRequiresReconciliation)
        else if LeaseOver(a, now) then
          var k := FindById(s.reservations, r.id);
          if k.None? || s.reservations[k.value].attempts == [] then Refuse(CorruptSnapshot)
          else
            var held := s.reservations[k.value].attempts;
            var expired := held[|held| - 1].(status := Expired);
            Intention(
              Some(s.(reservations := WithAttempt(s.reservations, k.value, |held| - 1, expired))), Err(ExecutionLeaseExpired))
        else Intention(None, Ok(Permitted(PermitFor(r.id, a, a.consumedAt))))
  }

  // ---------------------------------------------------------------- steps and runs

  datatype Operation =
    | Commit(contract: Contract, proof: Option<ReceiptProof>, now: nat)
    | Issue(verified: VerifiedRequest, freshId: Id, now: nat)
    | MarkPermit(permit: Permit, mark: Mark, now: nat)
    | Recover(actionRef: ContractRef, owner: Reference, now: nat)

  ghost function Plan(s: State, op: Operation): Intention {
    match op
    case Commit(c, proof, now) => PlanCommit(s, c, proof, now)
    case Issue(v, freshId, now) => PlanIssue(s, v, freshId, now)
    case MarkPermit(permit, mark, now) => PlanMark(s, permit, mark, now)
    case Recover(actionRef, owner, now) => PlanRecover(s, actionRef, owner, now)
  }

  /** A candidate replaces the state only when the validator accepts it. */
  ghost function Adopted(s: State, candidate: State): State {
    if StateValid(candidate) then candidate else s
  }

  ghost function Next(s: State, op: Operation): State {
    var plan := Plan(s, op);
    if plan.write.Some? then Adopted(s, plan.write.value) else s
  }

  ghost function Reported(s: State, op: Operation): Result<Reply, StoreError> {
    var plan := Plan(s, op);
    if plan.write.Some? && !StateValid(plan.write.value) then Err(CorruptSnapshot) else plan.result
  }

  /** The state after a run of operations from the empty store. */
  ghost function Run(ops: seq<Operation>): State {
    if ops == [] then EMPTY else Next(Run(ops[..|ops| - 1]), ops[|ops| - 1])
  }
}
