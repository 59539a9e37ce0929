/**
  The contract store's state, what its validator accepts, and what each operation writes.
  The operations are specification functions here; module FileStore runs them.

  The source keeps the current pointers and the invalidated references as sorted vectors
  without repetition; they are a map and a set here.
 */
module StoreModel {
  import opened Wrappers
  import opened Contracts
  import opened Graphs
  import opened Sequences
  import opened SigningBytes
  import CanonicalJson

  // ---------------------------------------------------------------- contracts

  datatype AuthorizationBoundary = AuthorizationBoundary(
    requiredAuthority: set<Reference>,
    maximumAutomaticImpact: nat,
    confirmationRequired: bool,
    prohibitedOperations: set<Reference>)

  datatype ReceiptState = ReceiptSucceeded | ReceiptFailed | ReceiptPartiallySucceeded | ReceiptRejected | ReceiptCompensated

  datatype Receipt = Receipt(
    actionRef: ContractRef,
    permitId: Uuid,
    authorizationId: Id,
    provider: Reference,
    owner: Reference,
    dispatchNonce: string,
    idempotencyKey: string,
    parameterDigest: string,
    attempt: nat,
    startedAt: nat,
    completedAt: nat,
    state: ReceiptState)

  datatype Contract =
    | Intent(metadata: Metadata, digest: string)
    | Decision(metadata: Metadata, digest: string, intentRef: ContractRef, boundary: AuthorizationBoundary)
    | TurnCoordination(metadata: Metadata, digest: string, responses: seq<ContractRef>, actions: seq<ContractRef>)
    | Response(metadata: Metadata, digest: string, sources: seq<ContractRef>)
    | Action(
        metadata: Metadata, digest: string, decisionRef: Option<ContractRef>, operation: Reference,
        parameterDigest: string, idempotencyKey: string, requiredAuthority: set<Reference>,
        authorizationRequired: bool, impact: nat)
    | ExecutionReceipt(metadata: Metadata, digest: string, receipt: Receipt)
    | Outcome(
        metadata: Metadata, digest: string, outcomeDecision: Option<ContractRef>,
        outcomeAction: Option<ContractRef>, outcomeReceipt: Option<ContractRef>, criteriaSatisfied: bool)
    | HumanModelAssertion(metadata: Metadata, digest: string)
  {
    function Kind(): ContractKind {
      match this
      case Intent(_, _) => IntentKind
      case Decision(_, _, _, _) => DecisionKind
      case TurnCoordination(_, _, _, _) => TurnCoordinationKind
      case Response(_, _, _) => ResponseKind
      case Action(_, _, _, _, _, _, _, _, _) => ActionKind
      case ExecutionReceipt(_, _, _) => ExecutionReceiptKind
      case Outcome(_, _, _, _, _, _) => OutcomeKind
      case HumanModelAssertion(_, _) => HumanModelAssertionKind
    }

    function Ref(): ContractRef {
      ContractRef(Kind(), metadata.id, metadata.revision, digest)
    }

    function Key(): ContractKey {
      ContractKey(Kind(), metadata.id)
    }

    /** The shape checks the store relies on: metadata, digest, and named references among the dependencies. */
    predicate Valid() {
      && metadata.Valid() && metadata.kind == Kind() && ValidDigest(digest)
      && match this
         case Decision(_, _, intentRef, _) => intentRef.kind.IntentKind? && intentRef in metadata.dependencies
         case TurnCoordination(_, _, responses, actions) =>
           && (forall r :: r in responses ==> r in metadata.dependencies)
           && (forall a :: a in actions ==> a in metadata.dependencies)
         case Response(_, _, sources) => sources != [] && forall r :: r in sources ==> r in metadata.dependencies
         case Action(_, _, decisionRef, _, _, _, _, _, _) =>
           decisionRef.Some? ==> decisionRef.value.kind.DecisionKind? && decisionRef.value in metadata.dependencies
         case ExecutionReceipt(_, _, r) =>
           && r.actionRef.kind.ActionKind? && r.actionRef in metadata.dependencies
           && r.attempt > 0 && 0 < r.startedAt <= r.completedAt
         case Outcome(_, _, d, a, r, _) =>
           && (d.Some? || a.Some?)
           && (d.Some? ==> d.value.kind.DecisionKind? && d.value in metadata.dependencies)
           && (a.Some? ==> a.value.kind.ActionKind? && a.value in metadata.dependencies)
           && (r.Some? ==> r.value.kind.ExecutionReceiptKind? && r.value in metadata.dependencies && a.Some?)
         case _ => true
    }
  }

  // ---------------------------------------------------------------- executions

  datatype Status =
    | PermitIssued
    | Delivered
    | Dispatched
    | Cancelled
    | ReconciliationRequired
    | Succeeded
    | Failed
    | PartiallySucceeded
    | Rejected
    | Compensated
    | Expired
  {
    predicate PermitsRetry() {
      Failed? || Rejected? || Expired?
    }

    predicate IsTerminal() {
      Succeeded? || Failed? || PartiallySucceeded? || Rejected? || Compensated? || Cancelled? || Expired?
    }

    predicate InFlight() {
      PermitIssued? || Delivered? || Dispatched?
    }

    /** Where losing the action leaves an attempt. */
    function AfterCancellation(): Status {
      match this
      case PermitIssued => Cancelled
      case Delivered => Cancelled
      case Dispatched => ReconciliationRequired
      case other => other
    }
  }

  function StatusOf(state: ReceiptState): Status {
    match state
    case ReceiptSucceeded => Succeeded
    case ReceiptFailed => Failed
    case ReceiptPartiallySucceeded => PartiallySucceeded
    case ReceiptRejected => Rejected
    case ReceiptCompensated => Compensated
  }

  datatype Authorization = Authorization(
    id: Id, actionRef: ContractRef, parameterDigest: string, actor: Reference, approves: bool,
    scope: Reference, issuedAt: nat, expiresAt: nat, digest: string)
  {
    predicate ValidFor(action: Contract, at: nat)
      requires action.Action?
    {
      && id != 0 && actionRef == action.Ref() && parameterDigest == action.parameterDigest
      && actor == action.metadata.authority.actor && scope == action.metadata.authority.scope
      && 0 < issuedAt < expiresAt && issuedAt <= at < expiresAt
    }
  }

  datatype PermitRequest = PermitRequest(
    requestRef: Reference, actionRef: ContractRef, authorizationId: Id, authorizationDigest: string,
    provider: Reference, owner: Reference, attempt: nat, leaseIssuedAt: nat, leaseUntil: nat,
    dispatchNonce: string, idempotencyKey: string, tenant: Reference, scope: Reference, purpose: Reference,
    policyRevision: Reference, requestDigest: string)
  {
    predicate ValidFor(action: Contract, authorization: Authorization)
      requires action.Action?
    {
      && authorization.ValidFor(action, leaseIssuedAt)
      && actionRef == action.Ref()
      && authorizationId == authorization.id && authorizationDigest == authorization.digest
      && authorization.approves && attempt != 0
      && leaseIssuedAt < leaseUntil <= authorization.expiresAt && leaseUntil <= action.metadata.validUntil
      && ValidDigest(dispatchNonce) && ValidDigest(requestDigest)
      && idempotencyKey == action.idempotencyKey
      && tenant == action.metadata.authority.tenant && scope == action.metadata.authority.scope
      && purpose == action.metadata.authority.purpose && policyRevision == action.metadata.policyRevision
    }
  }

  datatype Envelope = Envelope(claims: Claims, keyId: Reference, signature: string) {
    predicate ShapeValid() {
      ValidClaims(claims) && keyId != "" && |signature| == 128
    }
  }

  datatype Attempt = Attempt(
    number: nat,
    permitId: Uuid,
    proofId: Uuid,
    nonce: string,
    issuer: Reference,
    keyId: Reference,
    proofExpiresAt: nat,
    envelope: Envelope,
    authorization: Authorization,
    request: PermitRequest,
    consumedAt: nat,
    status: Status,
    deliveredAt: Option<nat>,
    dispatchedAt: Option<nat>,
    receiptRef: Option<ContractRef>,
    receiptEnvelope: Option<Envelope>,
    receiptVerifiedAt: Option<nat>)

  datatype Reservation = Reservation(
    id: Id, actionRef: ContractRef, tenant: Reference, operation: Reference, idempotencyKey: string,
    attempts: seq<Attempt>)

  datatype State = State(
    records: seq<Contract>,
    current: map<ContractKey, ContractRef>,
    invalidated: set<ContractRef>,
    reservations: seq<Reservation>)

  /** Attempt numbers are unsigned 32-bit integers. */
  const MAX_ATTEMPTS: nat := 0xFFFF_FFFF

  const EMPTY := State([], map[], {}, [])

  // ---------------------------------------------------------------- looking things up

  /** The first record with the given reference. */
  function Find(records: seq<Contract>, ref: ContractRef): (found: Option<Contract>)
    ensures found.Some? ==> found.value in records && found.value.Ref() == ref
    ensures found.None? ==> forall c :: c in records ==> c.Ref() != ref
  {
    if records == [] then None
    else
      var last := |records| - 1;
      var earlier := Find(records[..last], ref);
      if earlier.Some? then earlier
      else if records[last].Ref() == ref then Some(records[last])
      else
        assert forall c :: c in records ==> c in records[..last] || c == records[last];
        None
  }

  predicate IsCurrent(current: map<ContractKey, ContractRef>, ref: ContractRef) {
    ref.Key() in current && current[ref.Key()] == ref
  }

  /** Current and not invalidated. */
  predicate LiveIn(current: map<ContractKey, ContractRef>, invalidated: set<ContractRef>, ref: ContractRef) {
    IsCurrent(current, ref) && ref !in invalidated
  }

  predicate Live(s: State, ref: ContractRef) {
    LiveIn(s.current, s.invalidated, ref)
  }

  function DependenciesOf(records: seq<Contract>, ref: ContractRef): seq<ContractRef> {
    var found := Find(records, ref);
    if found.Some? then found.value.metadata.dependencies else []
  }

  // ---------------------------------------------------------------- invalidation

  /** `p` is live, is not another revision of `d`, and its record depends on `d`. */
  predicate DependsLive(
    records: seq<Contract>, current: map<ContractKey, ContractRef>, invalidated: set<ContractRef>, d: ContractRef, p: ContractRef)
  {
    LiveIn(current, invalidated, p) && d.Key() != p.Key() && d in DependenciesOf(records, p)
  }

  ghost function LiveEdges(
    records: seq<Contract>, current: map<ContractKey, ContractRef>, invalidated: set<ContractRef>): set<Edge<ContractRef>>
  {
    set k, d | k in current && d in DependenciesOf(records, current[k]) && DependsLive(records, current, invalidated, d, current[k])
      :: Edge(d, current[k])
  }

  /** The live pointers that a walk of dependency edges through live pointers reaches from `stale`. */
  ghost function Affected(
    records: seq<Contract>, current: map<ContractKey, ContractRef>, invalidated: set<ContractRef>, stale: ContractRef): set<ContractRef>
  {
    set k | k in current && Reaches(LiveEdges(records, current, invalidated), stale, current[k]) :: current[k]
  }

  function CancelLast(r: Reservation): Reservation {
    if r.attempts == [] then r
    else
      var last := |r.attempts| - 1;
      r.(attempts := r.attempts[last := r.attempts[last].(status := r.attempts[last].status.AfterCancellation())])
  }

  /** The reservation loses its action: it is the stale one, or it is no longer live. */
  predicate LosesAction(
    r: Reservation, current: map<ContractKey, ContractRef>, invalidated: set<ContractRef>, stale: ContractRef)
  {
    || (stale.kind.ActionKind? && r.actionRef == stale)
    || !LiveIn(current, invalidated, r.actionRef)
  }

  function Reconciled(
    reservations: seq<Reservation>, current: map<ContractKey, ContractRef>, invalidated: set<ContractRef>, stale: ContractRef): seq<Reservation>
  {
    seq(|reservations|, i requires 0 <= i < |reservations| =>
      if LosesAction(reservations[i], current, invalidated, stale) then CancelLast(reservations[i]) else reservations[i])
  }

  ghost function AfterInvalidation(s: State, stale: ContractRef): State {
    var invalidated := s.invalidated + Affected(s.records, s.current, s.invalidated, stale);
    s.(invalidated := invalidated, reservations := Reconciled(s.reservations, s.current, invalidated, stale))
  }

  // ---------------------------------------------------------------- replay

  predicate SameLineage(a: Metadata, b: Metadata) {
    a.runId == b.runId && a.turnId == b.turnId && a.authority == b.authority
  }

  /** The next revision after the current pointer, or a first revision when there is none. */
  predicate ContinuesPointer(current: map<ContractKey, ContractRef>, c: Contract) {
    if c.Key() in current then
      var pointer := current[c.Key()];
      pointer.revision + 1 == c.metadata.revision && c.metadata.predecessor == Some(pointer)
    else
      c.metadata.revision == 1 && c.metadata.predecessor.None?
  }

  predicate ContinuesLineage(records: seq<Contract>, current: map<ContractKey, ContractRef>, c: Contract) {
    c.Key() in current ==>
      var previous := Find(records, current[c.Key()]);
      previous.Some? && SameLineage(previous.value.metadata, c.metadata)
  }

  /** What `replay_history` rebuilds from the log alone, without reservations. */
  ghost function Replay(records: seq<Contract>): Option<State> {
    if records == [] then Some(EMPTY)
    else
      var last := |records| - 1;
      var earlier := Replay(records[..last]);
      if earlier.None? then None else ReplayStep(earlier.value, records[last])
  }

  ghost function ReplayStep(s: State, c: Contract): Option<State> {
    if ContinuesPointer(s.current, c) && ContinuesLineage(s.records, s.current, c) then Some(Appended(s, c)) else None
  }

  /** The log with one more record: what depended on the superseded revision is invalidated first. */
  ghost function Appended(s: State, c: Contract): State {
    var cleared := if c.Key() in s.current then AfterInvalidation(s, s.current[c.Key()]) else s;
    cleared.(records := s.records + [c], current := s.current[c.Key() := c.Ref()])
  }

  // ---------------------------------------------------------------- cross-object checks

  function FindReservation(reservations: seq<Reservation>, actionRef: ContractRef): (i: Option<nat>)
    ensures i.Some? ==> i.value < |reservations| && reservations[i.value].actionRef == actionRef
    ensures i.Some? ==> forall j :: 0 <= j < i.value ==> reservations[j].actionRef != actionRef
    ensures i.None? ==> forall j :: 0 <= j < |reservations| ==> reservations[j].actionRef != actionRef
  {
    FirstIndex(reservations, (r: Reservation) => r.actionRef == actionRef)
  }

  function FindAttempt(attempts: seq<Attempt>, permitId: Uuid): (i: Option<nat>)
    ensures i.Some? ==> i.value < |attempts| && attempts[i.value].permitId == permitId
    ensures i.Some? ==> forall j :: 0 <= j < i.value ==> attempts[j].permitId != permitId
    ensures i.None? ==> forall j :: 0 <= j < |attempts| ==> attempts[j].permitId != permitId
  {
    FirstIndex(attempts, (a: Attempt) => a.permitId == permitId)
  }

  predicate ReceiptMatches(receipt: Receipt, r: Reservation, a: Attempt) {
    && receipt.actionRef == r.actionRef
    && receipt.permitId == a.permitId
    && receipt.authorizationId == a.authorization.id
    && receipt.provider == a.request.provider
    && receipt.owner == a.request.owner
    && receipt.dispatchNonce == a.request.dispatchNonce
    && receipt.attempt == a.number
    && receipt.idempotencyKey == r.idempotencyKey
  }

  /** The attempt still waits for its receipt, or this very receipt settled it. */
  predicate AwaitsOrCarries(a: Attempt, ref: ContractRef) {
    a.status.Dispatched? || a.status.ReconciliationRequired? || (a.status.IsTerminal() && a.receiptRef == Some(ref))
  }

  predicate ReceiptConsistent(c: Contract, prior: seq<Contract>, reservations: seq<Reservation>)
    requires c.ExecutionReceipt?
  {
    var action := Find(prior, c.receipt.actionRef);
    var i := FindReservation(reservations, c.receipt.actionRef);
    action.Some? && action.value.Action? && i.Some? &&
    var r := reservations[i.value];
    var j := FindAttempt(r.attempts, c.receipt.permitId);
    j.Some? &&
    var a := r.attempts[j.value];
    && SameLineage(c.metadata, action.value.metadata)
    && c.receipt.idempotencyKey == action.value.idempotencyKey
    && c.receipt.parameterDigest == action.value.parameterDigest
    && AwaitsOrCarries(a, c.Ref())
    && ReceiptMatches(c.receipt, r, a)
    && a.dispatchedAt.Some? && a.dispatchedAt.value <= c.receipt.startedAt < a.request.leaseUntil
    && (forall k :: 0 <= k < |prior| && prior[k].ExecutionReceipt? ==>
          !(prior[k].receipt.actionRef == c.receipt.actionRef && prior[k].receipt.attempt == c.receipt.attempt))
  }

  predicate FoundInContext(prior: seq<Contract>, ref: ContractRef, metadata: Metadata) {
    var found := Find(prior, ref);
    found.Some? && SameLineage(metadata, found.value.metadata)
  }

  predicate ActionWithinDecision(c: Contract, decision: Contract)
    requires c.Action? && decision.Decision?
  {
    && SameLineage(c.metadata, decision.metadata)
    && decision.boundary.requiredAuthority <= c.requiredAuthority
    && (!c.authorizationRequired ==>
          && c.impact <= decision.boundary.maximumAutomaticImpact
          && !decision.boundary.confirmationRequired
          && c.operation !in decision.boundary.prohibitedOperations)
  }

  predicate OutcomeConsistent(c: Contract, prior: seq<Contract>)
    requires c.Outcome?
  {
    && (c.outcomeDecision.Some? ==>
          FoundInContext(prior, c.outcomeDecision.value, c.metadata) && Find(prior, c.outcomeDecision.value).value.Decision?)
    && (c.outcomeAction.Some? ==>
          && FoundInContext(prior, c.outcomeAction.value, c.metadata)
          && Find(prior, c.outcomeAction.value).value.Action?
          && (c.outcomeDecision.Some? ==> Find(prior, c.outcomeAction.value).value.decisionRef == c.outcomeDecision))
    && (c.outcomeReceipt.Some? ==>
          && FoundInContext(prior, c.outcomeReceipt.value, c.metadata)
          && var receipt := Find(prior, c.outcomeReceipt.value).value;
          && receipt.ExecutionReceipt? && c.outcomeAction == Some(receipt.receipt.actionRef)
          && (receipt.receipt.state.ReceiptFailed? || receipt.receipt.state.ReceiptRejected? ==> !c.criteriaSatisfied))
  }

  predicate CrossObjectConsistent(c: Contract, prior: seq<Contract>, reservations: seq<Reservation>) {
    match c
    case Intent(_, _) => true
    case Decision(m, _, intentRef, _) =>
      FoundInContext(prior, intentRef, m) && Find(prior, intentRef).value.Intent?
    case TurnCoordination(m, _, responses, actions) =>
      && (forall i :: 0 <= i < |responses| ==> FoundInContext(prior, responses[i], m))
      && (forall i :: 0 <= i < |actions| ==> FoundInContext(prior, actions[i], m))
    case Response(m, _, sources) => forall i :: 0 <= i < |sources| ==> FoundInContext(prior, sources[i], m)
    case Action(_, _, decisionRef, _, _, _, _, _, _) =>
      decisionRef.Some? ==>
        var found := Find(prior, decisionRef.value);
        found.Some? && found.value.Decision? && ActionWithinDecision(c, found.value)
    case ExecutionReceipt(_, _, _) => ReceiptConsistent(c, prior, reservations)
    case Outcome(_, _, _, _, _, _) => OutcomeConsistent(c, prior)
    case HumanModelAssertion(_, _) => true
  }

  // ---------------------------------------------------------------- the validator

  predicate RecordsUnique(records: seq<Contract>) {
    forall i, j :: 0 <= i < j < |records| ==>
      !(records[i].Key() == records[j].Key() && records[i].metadata.revision == records[j].metadata.revision)
  }

  /** A record's predecessor and dependencies stand earlier in the log. */
  predicate ReferencesEarlier(records: seq<Contract>, i: nat)
    requires i < |records|
  {
    var m := records[i].metadata;
    && (m.predecessor.Some? ==> m.predecessor.value.kind == records[i].Kind() && Find(records[..i], m.predecessor.value).Some?)
    && (forall d :: d in m.dependencies ==> Find(records[..i], d).Some?)
  }

  predicate RecordsValid(records: seq<Contract>, reservations: seq<Reservation>) {
    forall i :: 0 <= i < |records| ==>
      records[i].Valid() && ReferencesEarlier(records, i) && CrossObjectConsistent(records[i], records[..i], reservations)
  }

  /** Each key's pointer is its latest record. */
  predicate PointersLatest(records: seq<Contract>, current: map<ContractKey, ContractRef>) {
    && (forall k :: k in current ==> Find(records, current[k]).Some? && current[k].Key() == k)
    && (forall i :: 0 <= i < |records| ==>
          records[i].Key() in current && records[i].metadata.revision <= current[records[i].Key()].revision)
  }

  predicate InvalidatedKnown(records: seq<Contract>, invalidated: set<ContractRef>) {
    forall r :: r in invalidated ==> Find(records, r).Some?
  }

  /** What never changes about an attempt once it is recorded. */
  predicate AttemptBound(action: Contract, r: Reservation, a: Attempt, number: nat)
    requires action.Action?
  {
    && a.request.ValidFor(action, a.authorization)
    && a.envelope.ShapeValid()
    && a.number == number == a.request.attempt && number <= MAX_ATTEMPTS
    && a.permitId == a.proofId
    && ValidDigest(a.nonce) && a.nonce == a.request.dispatchNonce
    && a.proofExpiresAt >= a.request.leaseUntil
    && a.envelope.claims.proofId == a.proofId
    && a.envelope.claims.kind.ExecutionPermit?
    && a.envelope.claims.issuer == a.issuer
    && a.envelope.keyId == a.keyId
    && a.envelope.claims.subject == a.request.requestRef
    && a.envelope.claims.subjectDigest == a.request.requestDigest
    && a.envelope.claims.nonce == a.request.dispatchNonce
    && a.envelope.claims.expiresAt == a.proofExpiresAt
    && a.authorization.id == a.request.authorizationId
    && a.request.leaseIssuedAt <= a.consumedAt < a.request.leaseUntil
    && a.consumedAt < a.proofExpiresAt
    && a.consumedAt < a.authorization.expiresAt
    && a.consumedAt < action.metadata.validUntil
    && a.request.actionRef == r.actionRef
  }

  predicate NoReceipt(a: Attempt) {
    a.receiptRef.None? && a.receiptEnvelope.None? && a.receiptVerifiedAt.None?
  }

  predicate StatusTimingValid(a: Attempt) {
    match a.status
    case PermitIssued => a.deliveredAt.None? && a.dispatchedAt.None? && NoReceipt(a)
    case Delivered => a.deliveredAt.Some? && a.dispatchedAt.None? && NoReceipt(a)
    case Dispatched => a.deliveredAt.Some? && a.dispatchedAt.Some? && NoReceipt(a)
    case Expired => NoReceipt(a)
    case Cancelled => a.dispatchedAt.None? && NoReceipt(a)
    case ReconciliationRequired => a.deliveredAt.Some? && a.dispatchedAt.Some? && NoReceipt(a)
    case _ =>
      a.deliveredAt.Some? && a.dispatchedAt.Some? && a.receiptRef.Some? && a.receiptEnvelope.Some? && a.receiptVerifiedAt.Some?
  }

  predicate TimingValid(a: Attempt) {
    && StatusTimingValid(a)
    && (a.deliveredAt.Some? ==> a.consumedAt <= a.deliveredAt.value)
    && (a.dispatchedAt.Some? ==> a.deliveredAt.Some? && a.deliveredAt.value <= a.dispatchedAt.value)
  }

  /** The subject text a provider signs for a receipt. */
  function ReceiptSubject(c: Contract): Reference {
    "execution-receipt:" + CanonicalJson.Decimal(c.metadata.id) + ":" + CanonicalJson.Decimal(c.metadata.revision)
  }

  /** The provider's signature covers this receipt. */
  predicate ReceiptClaimsMatch(c: Contract, envelope: Envelope)
    requires c.ExecutionReceipt?
  {
    && envelope.ShapeValid()
    && envelope.claims.kind.ProviderExecutionReceipt?
    && envelope.claims.issuer == c.receipt.provider
    && envelope.claims.subject == ReceiptSubject(c)
    && envelope.claims.subjectDigest == c.digest
    && envelope.claims.nonce == c.receipt.dispatchNonce
    && c.receipt.completedAt <= envelope.claims.issuedAt
  }

  predicate ReceiptLinkValid(records: seq<Contract>, r: Reservation, a: Attempt) {
    a.receiptRef.Some? ==>
      var found := Find(records, a.receiptRef.value);
      && found.Some? && found.value.ExecutionReceipt?
      && ReceiptMatches(found.value.receipt, r, a)
      && a.receiptEnvelope.Some? && ReceiptClaimsMatch(found.value, a.receiptEnvelope.value)
      && a.receiptVerifiedAt.Some?
      && a.receiptEnvelope.value.claims.issuedAt <= a.receiptVerifiedAt.value < a.receiptEnvelope.value.claims.expiresAt
  }

  predicate ReservationValid(records: seq<Contract>, r: Reservation) {
    var action := Find(records, r.actionRef);
    && action.Some? && action.value.Action?
    && r.id != 0
    && r.tenant == action.value.metadata.authority.tenant
    && r.operation == action.value.operation
    && r.idempotencyKey == action.value.idempotencyKey
    && r.attempts != []
    && forall i :: 0 <= i < |r.attempts| ==>
         && AttemptBound(action.value, r, r.attempts[i], i + 1)
         && TimingValid(r.attempts[i])
         && ReceiptLinkValid(records, r, r.attempts[i])
         && (i + 1 < |r.attempts| ==> r.attempts[i].status.PermitsRetry())
  }

  /** No action and no (tenant, operation, key) scope is reserved twice. */
  predicate ScopesUnique(reservations: seq<Reservation>) {
    forall i, j :: 0 <= i < j < |reservations| ==>
      && reservations[i].actionRef != reservations[j].actionRef
      && !(reservations[i].tenant == reservations[j].tenant && reservations[i].operation == reservations[j].operation
           && reservations[i].idempotencyKey == reservations[j].idempotencyKey)
  }

  predicate ReservationIdsUnique(reservations: seq<Reservation>) {
    forall i, j :: 0 <= i < j < |reservations| ==> reservations[i].id != reservations[j].id
  }

  /** Two attempts that share no one-time value. */
  predicate ConsumesApart(a: Attempt, b: Attempt) {
    a.proofId != b.proofId && a.nonce != b.nonce && a.authorization.id != b.authorization.id
  }

  /** No proof identifier, nonce or authorization occurs in two attempts. */
  predicate ConsumedOnce(reservations: seq<Reservation>) {
    forall i, m, j, n ::
      0 <= i < |reservations| && 0 <= m < |reservations[i].attempts| &&
      0 <= j < |reservations| && 0 <= n < |reservations[j].attempts| && (i < j || (i == j && m < n)) ==>
        ConsumesApart(reservations[i].attempts[m], reservations[j].attempts[n])
  }

  predicate ReservationsValid(records: seq<Contract>, reservations: seq<Reservation>) {
    && (forall i :: 0 <= i < |reservations| ==> ReservationValid(records, reservations[i]))
    && ReservationIdsUnique(reservations) && ScopesUnique(reservations) && ConsumedOnce(reservations)
  }

  ghost predicate CachedIsReplay(s: State) {
    var replayed := Replay(s.records);
    replayed.Some? && replayed.value.current == s.current && replayed.value.invalidated == s.invalidated
  }

  /** What `validate_snapshot` accepts, the snapshot's own digest aside. */
  ghost predicate StateValid(s: State) {
    && RecordsUnique(s.records)
    && RecordsValid(s.records, s.reservations)
    && PointersLatest(s.records, s.current)
    && InvalidatedKnown(s.records, s.invalidated)
    && CachedIsReplay(s)
    && ReservationsValid(s.records, s.reservations)
  }
}
