/**
  The run authority: one run's projection, the tables beside it, and what each command
  does to them. A transaction is one atomic step.

  Values drawn by the runtime (fresh identifiers, record digests) and facts it reads from
  payloads arrive with the command; `None` stands for a payload that does not parse.
 */
module RunModel {
  import opened Wrappers
  import opened Contracts
  import opened Graphs

  datatype Kind =
    | CanonicalInput
    | ContextSnapshot
    | Intent
    | Decision
    | TurnCoordination
    | Response
    | Action
    | ActionAdmissionDecision
    | ExecutionReceipt
    | Outcome
    | HumanModelCandidate
    | HumanModelPromotionDecision
    | HumanModelAssertion

  /** Where a record is stored: its identifier and revision. */
  datatype RecordKey = RecordKey(id: Id, revision: nat)

  /** `policy` is the policy revision the record was issued under, which its digest covers. */
  datatype Ref = Ref(id: Id, revision: nat, kind: Kind, domain: nat, validFrom: nat, validUntil: nat, digest: nat, policy: Reference) {
    function Key(): RecordKey {
      RecordKey(id, revision)
    }
  }

  const MAX_REVISION: nat := 0xFFFF_FFFF_FFFF_FFFF
  const MAX_ATTEMPT: nat := 0xFFFF_FFFF

  // ---------------------------------------------------------------- the projection

  datatype RunState =
    | Pending
    | Running
    | WaitingInput
    | WaitingAuthorization
    | WaitingDependency
    | RunReconciliationRequired
    | RunSucceeded
    | RunRejected
    | RunFailed
    | RunCancelled
    | TimedOut
    | Invalidated

  datatype ExecutionState =
    | NoExecution
    | ReservationCreated
    | PermitIssued
    | PermitDelivered
    | DispatchStarted
    | AwaitingProvider
    | ReconciliationRequired
    | Succeeded
    | Failed
    | Rejected
    | Cancelled
    | Compensated
    | Expired
  {
    /** The states a receipt reports. */
    predicate Settled() {
      Succeeded? || Failed? || Rejected? || Compensated?
    }

    predicate IsTerminal() {
      Settled() || Cancelled? || Expired?
    }

    predicate InFlight() {
      PermitIssued? || PermitDelivered? || DispatchStarted?
    }

    /** Losing its authority after dispatch leaves an effect to reconcile; before, nothing happened. */
    function AfterLoss(): ExecutionState {
      if DispatchStarted? || AwaitingProvider? then ReconciliationRequired else Cancelled
    }
  }

  datatype Derivation = Derivation(option: Reference, operation: Reference, parameterDigest: string)

  /** The digest that names what an execution is asked to do. */
  datatype RequestDigest = RequestDigest(actionRef: Ref, operation: Reference, parameterDigest: string)

  datatype DecisionBinding = DecisionBinding(ref: Ref, derivation: Derivation)
  datatype ResponseContent = ResponseContent(digest: string, channel: Reference, audience: Reference)
  datatype ResponseBinding = ResponseBinding(ref: Ref, content: ResponseContent)
  datatype ActionBinding = ActionBinding(ref: Ref, derivation: Derivation, request: RequestDigest)

  datatype Admission = Admission(
    ref: Ref, actionRef: Ref, provider: Reference, owner: Reference, operation: Reference, parameterDigest: string,
    request: RequestDigest, idempotencyKey: string, authorizationProof: Id, authorizationValidUntil: nat, validUntil: nat)

  datatype Execution = Execution(
    reservationId: Id, admissionRef: Ref, actionRef: Ref, provider: Reference, owner: Reference, operation: Reference,
    parameterDigest: string, request: RequestDigest, idempotencyKey: string, attempt: nat, permitId: Id,
    authorizationProof: Id, actionValidUntil: nat, admissionValidUntil: nat, authorizationValidUntil: nat,
    permitValidUntil: nat, leaseUntil: nat, dispatchNonce: string, state: ExecutionState)

  datatype PromotionOutcome = KeepSession | StoreCandidate | Reject | PromoteProvisional | PromoteUserConfirmed | PromoteOutcomeSupported
  {
    predicate Promotes() {
      PromoteProvisional? || PromoteUserConfirmed? || PromoteOutcomeSupported?
    }
  }

  datatype CandidateBinding = CandidateBinding(ref: Ref, outcomeRef: Ref)
  datatype PromotionBinding = PromotionBinding(ref: Ref, sourceRef: Ref, outcomeRef: Ref, outcome: PromotionOutcome)

  datatype Projection = Projection(
    domain: nat,
    subject: Option<Reference>,
    turn: Option<Id>,
    version: nat,
    sequence: nat,
    state: RunState,
    records: map<Kind, Ref>,
    invalidated: set<Ref>,
    sendNonces: set<string>,
    response: Option<ResponseBinding>,
    outcome: Option<Ref>,
    candidate: Option<CandidateBinding>,
    promotion: Option<PromotionBinding>,
    decision: Option<DecisionBinding>,
    action: Option<ActionBinding>,
    admission: Option<Admission>,
    execution: Option<Execution>)

  function PendingRun(domain: nat): Projection {
    Projection(domain, None, None, 0, 0, Pending, map[], {}, {}, None, None, None, None, None, None, None, None)
  }

  // ---------------------------------------------------------------- commands

  datatype ProofKind =
    | CallerAuthentication
    | InputAdmission
    | ContextProof
    | IntentFastPathAdmission
    | DecisionNecessityAdmission
    | TurnCoordinationAdmission
    | ResponsePolicy
    | ResponseAdmission
    | Capability
    | Authority
    | Policy
    | ExactAuthorization
    | ActionAdmission
    | ExecutionPermit
    | ProviderReceipt
    | OutcomeObservation
    | HumanModelPromotion
    | HumanModelUserConfirmation
    | HumanModelCorrection

  /** A proof whose signature and bindings were verified at the transaction's time. */
  datatype Proof = Proof(kind: ProofKind, domain: nat, id: Id, nonce: string, expiresAt: nat)

  datatype Submission = Submission(subject: Reference, turn: Id, validFrom: nat, validUntil: nat)

  datatype IntentOutcome = Block | FastPath | FullPath | Malformed

  datatype ReceiptPayload = ReceiptPayload(
    permitId: Id, provider: Reference, dispatchNonce: string, attempt: nat, actionInvalidated: bool,
    request: RequestDigest, terminal: ExecutionState)

  datatype Command =
    | StartRun(submission: Submission)
    | RecordContext(submission: Submission)
    | RecordIntent(submission: Submission, intent: IntentOutcome)
    | RecordDecision(submission: Submission, derivation: Option<Derivation>)
    | RecordTurn(submission: Submission, wellFormed: bool)
    | RecordResponse(submission: Submission, content: Option<ResponseContent>)
    | ConsumeResponseSend(responseRef: Ref, sent: ResponseContent, nonce: string)
    | RecordAction(submission: Submission, derivation: Option<Derivation>)
    | AdmitAction(actionRef: Ref, actionDigest: nat, provider: Reference, owner: Reference, idempotencyKey: string)
    | ReserveExecution(
        admissionRef: Ref, actionRef: Ref, actionDigest: nat, provider: Reference, owner: Reference,
        idempotencyKey: string, attempt: nat, leaseUntil: nat, dispatchNonce: string)
    | RecoverPermit(reservationId: Id)
    | DeliverPermit(reservationId: Id, permitId: Id)
    | StartDispatch(reservationId: Id, permitId: Id)
    | CommitExecutionReceipt(
        submission: Submission, reservationId: Id, permitId: Id, provider: Reference, dispatchNonce: string,
        attempt: nat, receipt: Option<ReceiptPayload>)
    | ReconcileExecution(reservationId: Id, unknown: bool)
    | ExpireExecutionLease(reservationId: Id)
    | InvalidateRecord(target: Ref)
    | RecordOutcome(submission: Submission, observedReceipt: Option<nat>)
    | ProposeHumanModelCandidate(submission: Submission, namedOutcome: Option<Ref>, wellFormed: bool)
    | RecordHumanModelPromotion(
        submission: Submission, sourceRef: Ref, promotionOutcome: Option<PromotionOutcome>, namedOutcome: Option<Ref>)
    | PromoteHumanModelAssertion(submission: Submission, promotionRef: Ref, wellFormed: bool)
    | CorrectHumanModelAssertion(assertionRef: Ref, submission: Submission, wellFormed: bool)
    | CancelRun

  function Submitted(c: Command): Option<Submission> {
    match c
    case StartRun(s) => Some(s)
    case RecordContext(s) => Some(s)
    case RecordIntent(s, _) => Some(s)
    case RecordDecision(s, _) => Some(s)
    case RecordTurn(s, _) => Some(s)
    case RecordResponse(s, _) => Some(s)
    case RecordAction(s, _) => Some(s)
    case CommitExecutionReceipt(s, _, _, _, _, _, _) => Some(s)
    case RecordOutcome(s, _) => Some(s)
    case ProposeHumanModelCandidate(s, _, _) => Some(s)
    case RecordHumanModelPromotion(s, _, _, _) => Some(s)
    case PromoteHumanModelAssertion(s, _, _) => Some(s)
    case CorrectHumanModelAssertion(_, s, _) => Some(s)
    case _ => None
  }

  /** The kind of record a command replaces when it succeeds. */
  function ExpectedKind(c: Command): Option<Kind> {
    match c
    case StartRun(_) => Some(CanonicalInput)
    case RecordContext(_) => Some(ContextSnapshot)
    case RecordIntent(_, _) => Some(Intent)
    case RecordDecision(_, _) => Some(Decision)
    case RecordTurn(_, _) => Some(TurnCoordination)
    case RecordResponse(_, _) => Some(Response)
    case RecordAction(_, _) => Some(Action)
    case CommitExecutionReceipt(_, _, _, _, _, _, _) => Some(ExecutionReceipt)
    case RecordOutcome(_, _) => Some(Outcome)
    case ProposeHumanModelCandidate(_, _, _) => Some(HumanModelCandidate)
    case RecordHumanModelPromotion(_, _, _, _) => Some(HumanModelPromotionDecision)
    case PromoteHumanModelAssertion(_, _, _) => Some(HumanModelAssertion)
    case CorrectHumanModelAssertion(_, _, _) => Some(HumanModelAssertion)
    case _ => None
  }

  function RequiredProofs(c: Command): set<ProofKind> {
    match c
    case StartRun(_) => {InputAdmission}
    case RecordContext(_) => {ContextProof}
    case RecordIntent(_, _) => {IntentFastPathAdmission}
    case RecordDecision(_, _) => {DecisionNecessityAdmission}
    case RecordTurn(_, _) => {TurnCoordinationAdmission}
    case RecordResponse(_, _) => {}
    case ConsumeResponseSend(_, _, _) => {ResponsePolicy, ResponseAdmission}
    case RecordAction(_, _) => {}
    case AdmitAction(_, _, _, _, _) => {Capability, Authority, Policy, ExactAuthorization, ActionAdmission}
    case ReserveExecution(_, _, _, _, _, _, _, _, _) => {ExecutionPermit}
    case RecoverPermit(_) => {ExecutionPermit}
    case DeliverPermit(_, _) => {ExecutionPermit}
    case StartDispatch(_, _) => {ExecutionPermit}
    case ExpireExecutionLease(_) => {ExecutionPermit}
    case CancelRun => {Authority}
    case CommitExecutionReceipt(_, _, _, _, _, _, _) => {ProviderReceipt}
    case ReconcileExecution(_, _) => {ProviderReceipt}
    case InvalidateRecord(_) => {Policy}
    case RecordOutcome(_, _) => {OutcomeObservation}
    case ProposeHumanModelCandidate(_, _, _) => {OutcomeObservation}
    case RecordHumanModelPromotion(_, _, outcome, _) =>
      {HumanModelPromotion}
      + (if outcome == Some(PromoteUserConfirmed) then {HumanModelUserConfirmation} else {})
      + (if outcome == Some(PromoteOutcomeSupported) then {OutcomeObservation} else {})
    case PromoteHumanModelAssertion(_, _, _) => {HumanModelPromotion}
    case CorrectHumanModelAssertion(_, _, _) => {HumanModelCorrection}
  }

  /**
    What the runtime adds to a command: fresh identifiers, the digest of the record it issues
    and the policy revision its envelope names.
   */
  datatype Minted = Minted(recordId: Id, reservationId: Id, permitId: Id, digest: nat, policy: Reference)

  datatype Envelope = Envelope(
    command: Command, caller: Reference, domain: nat, expectedVersion: nat, proofs: seq<Proof>, minted: Minted)

  datatype RunError =
    | InvalidCommand
    | ProofReplay
    | AggregateVersionConflict
    | InvalidRunTransition
    | LineageMismatch
    | MissingRequiredProof
    | MissingDependency
    | BindingMismatch
    | ActionDerivationMismatch
    | ExpiredAuthority
    | ActionNotAdmitted
    | PrincipalMismatch
    | ExecutionAlreadyReserved
    | InvalidExecutionTransition
    | ExecutionRequiresReconciliation
    | RecordRefused
    | RowRefused

  datatype Event =
    | PermitWasIssued(permitId: Id)
    | PermitWasDelivered(permitId: Id)
    | DispatchWasStarted(permitId: Id)
    | RecordWasIssued(kind: Kind)
    | OtherEvent(name: string)

  /** What evaluating a command yields: the next projection, the record to store, the event. */
  datatype Draft = Draft(projection: Projection, record: Option<Ref>, event: Event)

  // ---------------------------------------------------------------- the checks

  predicate CommandAllowed(state: RunState, c: Command) {
    match c
    case StartRun(_) => state.Pending?
    case CommitExecutionReceipt(_, _, _, _, _, _, _) => state.Running? || state.RunReconciliationRequired? || state.Invalidated?
    case ReconcileExecution(_, _) => state.Running? || state.RunReconciliationRequired? || state.Invalidated?
    case ExpireExecutionLease(_) => state.Running? || state.RunReconciliationRequired? || state.Invalidated?
    case RecordOutcome(_, _) => AfterTheFact(state)
    case ProposeHumanModelCandidate(_, _, _) => AfterTheFact(state)
    case RecordHumanModelPromotion(_, _, _, _) => AfterTheFact(state)
    case PromoteHumanModelAssertion(_, _, _) => AfterTheFact(state)
    case CorrectHumanModelAssertion(_, _, _) => AfterTheFact(state)
    case CancelRun =>
      || state.Running? || state.WaitingInput? || state.WaitingAuthorization? || state.WaitingDependency?
      || state.RunReconciliationRequired? || state.Invalidated?
    case _ => state.Running? || state.WaitingInput? || state.WaitingAuthorization? || state.WaitingDependency?
  }

  predicate AfterTheFact(state: RunState) {
    state.Running? || state.RunReconciliationRequired? || state.Invalidated? || state.RunSucceeded? || state.RunRejected? || state.RunFailed?
  }

  /** The kind has a current record and it is not invalidated. */
  predicate Live(p: Projection, k: Kind) {
    k in p.records && p.records[k] !in p.invalidated
  }

  predicate CurrentAt(p: Projection, k: Kind, now: nat) {
    Live(p, k) && p.records[k].validFrom <= now < p.records[k].validUntil
  }

  /** `ref` is the current, un-invalidated record of its kind. */
  predicate IsLive(p: Projection, ref: Ref) {
    Live(p, ref.kind) && p.records[ref.kind] == ref
  }

  predicate GovernanceTarget(p: Projection, ref: Ref) {
    IsLive(p, ref) && ref.domain == p.domain
  }

  predicate ExactCurrentAt(p: Projection, ref: Ref, now: nat) {
    GovernanceTarget(p, ref) && ref.validFrom <= now < ref.validUntil
  }

  /** Evidence may be consumed for a while after its validity has ended. */
  predicate HistoricalEvidence(p: Projection, ref: Ref, now: nat, delay: nat) {
    GovernanceTarget(p, ref) && ref.validFrom <= now < ref.validUntil + delay
  }

  const RECEIPT_OUTCOME_WINDOW: nat := 86_400
  const OUTCOME_HUMAN_MODEL_WINDOW: nat := 604_800

  function NextRevision(p: Projection, k: Kind): nat {
    if k in p.records then p.records[k].revision + 1 else 1
  }

  function RecordIdFor(p: Projection, k: Kind, freshId: Id): Id {
    if k in p.records then p.records[k].id else freshId
  }

  function Minimum(a: nat, b: nat): nat {
    if a <= b then a else b
  }

  function EarliestExpiry(proofs: seq<Proof>, bound: nat): nat {
    if proofs == [] then bound
    else Minimum(EarliestExpiry(proofs[..|proofs| - 1], bound), proofs[|proofs| - 1].expiresAt)
  }

  /** The first verified proof of a kind in the run's domain. */
  function ProofOfKind(proofs: seq<Proof>, kind: ProofKind, domain: nat): Option<Proof> {
    if proofs == [] then None
    else if proofs[0].kind == kind && proofs[0].domain == domain then Some(proofs[0])
    else ProofOfKind(proofs[1..], kind, domain)
  }

  predicate AuthorityExpired(x: Execution, now: nat) {
    || now >= x.leaseUntil || now >= x.actionValidUntil || now >= x.admissionValidUntil
    || now >= x.authorizationValidUntil || now >= x.permitValidUntil
  }

  // ---------------------------------------------------------------- issuing a record

  /** Stores a submitted record of kind `k` as the current one, unless its window is closed. */
  function Issue(q: Projection, s: Submission, k: Kind, m: Minted, now: nat): Result<Ref, RunError> {
    if NextRevision(q, k) > MAX_REVISION then Err(AggregateVersionConflict)
    else if !(s.validFrom <= now < s.validUntil) then Err(ExpiredAuthority)
    else Ok(Ref(RecordIdFor(q, k, m.recordId), NextRevision(q, k), k, q.domain, s.validFrom, s.validUntil, m.digest, m.policy))
  }

  function Internal(q: Projection, k: Kind, m: Minted, now: nat, until: nat): Result<Ref, RunError> {
    if NextRevision(q, k) > MAX_REVISION then Err(AggregateVersionConflict)
    else if until <= now then Err(ExpiredAuthority)
    else if q.subject.None? || q.turn.None? then Err(MissingDependency)
    else Ok(Ref(RecordIdFor(q, k, m.recordId), NextRevision(q, k), k, q.domain, now, until, m.digest, m.policy))
  }

  // ---------------------------------------------------------------- recording commands

  function ApplyPlain(q: Projection, s: Submission, k: Kind, m: Minted, now: nat): Result<Draft, RunError> {
    match Issue(q, s, k, m, now)
    case Err(error) => Err(error)
    case Ok(ref) => Ok(Draft(q, Some(ref), RecordWasIssued(k)))
  }

  function ApplyStart(q: Projection, s: Submission, m: Minted, now: nat): Result<Draft, RunError> {
    if !q.state.Pending? || CanonicalInput in q.records then Err(InvalidRunTransition)
    else ApplyPlain(q.(state := Running, subject := Some(s.subject), turn := Some(s.turn)), s, CanonicalInput, m, now)
  }

  function ApplyIntent(
    q: Projection, s: Submission, outcome: IntentOutcome, m: Minted, now: nat): Result<Draft, RunError> {
    if !CurrentAt(q, ContextSnapshot, now) then Err(MissingDependency)
    else if outcome.Block? then Ok(Draft(q.(state := RunRejected), None, OtherEvent("intent_blocked")))
    else if outcome.Malformed? then Err(BindingMismatch)
    else ApplyPlain(q, s, Intent, m, now)
  }

  function ApplyDecision(
    q: Projection, s: Submission, derivation: Option<Derivation>, m: Minted, now: nat): Result<Draft, RunError> {
    if !CurrentAt(q, Intent, now) then Err(MissingDependency)
    else if derivation.None? then Err(BindingMismatch)
    else
      match Issue(q, s, Decision, m, now)
      case Err(error) => Err(error)
      case Ok(ref) =>
        Ok(Draft(q.(decision := Some(DecisionBinding(ref, derivation.value))), Some(ref), RecordWasIssued(Decision)))
  }

  function ApplyResponse(
    q: Projection, s: Submission, content: Option<ResponseContent>, m: Minted, now: nat): Result<Draft, RunError> {
    if !CurrentAt(q, TurnCoordination, now) then Err(MissingDependency)
    else if content.None? then Err(BindingMismatch)
    else
      match Issue(q, s, Response, m, now)
      case Err(error) => Err(error)
      case Ok(ref) =>
        Ok(Draft(q.(response := Some(ResponseBinding(ref, content.value))), Some(ref), RecordWasIssued(Response)))
  }

  function ApplySend(q: Projection, ref: Ref, sent: ResponseContent, nonce: string, now: nat): Result<Draft, RunError> {
    if !ExactCurrentAt(q, ref, now) || q.response.None? then Err(MissingDependency)
    else if q.response.value.ref != ref || q.response.value.content != sent then Err(BindingMismatch)
    else if nonce in q.sendNonces then Err(ProofReplay)
    else Ok(Draft(q.(sendNonces := q.sendNonces + {nonce}), None, OtherEvent("response_send_permit_consumed")))
  }

  function LoseExecution(x: Option<Execution>): Option<Execution> {
    if x.Some? && !x.value.state.IsTerminal() then Some(x.value.(state := x.value.state.AfterLoss())) else x
  }

  function ApplyAction(
    q: Projection, s: Submission, derivation: Option<Derivation>, m: Minted, now: nat): Result<Draft, RunError> {
    if !CurrentAt(q, TurnCoordination, now) || !CurrentAt(q, Decision, now) then Err(MissingDependency)
    else if derivation.None? then Err(BindingMismatch)
    else if q.decision.None? || q.records[Decision] != q.decision.value.ref then Err(MissingDependency)
    else if q.decision.value.derivation != derivation.value then Err(ActionDerivationMismatch)
    else
      match Issue(q, s, Action, m, now)
      case Err(error) => Err(error)
      case Ok(ref) =>
        var d := derivation.value;
        var binding := ActionBinding(ref, d, RequestDigest(ref, d.operation, d.parameterDigest));
        Ok(Draft(
          q.(action := Some(binding), execution := LoseExecution(q.execution), admission := None),
          Some(ref), RecordWasIssued(Action)))
  }

  function ApplyAdmit(
    q: Projection, actionRef: Ref, actionDigest: nat, provider: Reference, owner: Reference, key: string,
    proofs: seq<Proof>, m: Minted, now: nat): Result<Draft, RunError>
  {
    var authorization := ProofOfKind(proofs, ExactAuthorization, q.domain);
    if !ExactCurrentAt(q, actionRef, now) then Err(MissingDependency)
    else if
      || ProofOfKind(proofs, Capability, q.domain).None? || ProofOfKind(proofs, Authority, q.domain).None?
      || ProofOfKind(proofs, Policy, q.domain).None? || authorization.None?
      || ProofOfKind(proofs, ActionAdmission, q.domain).None?
    then Err(MissingRequiredProof)
    else
      var until := EarliestExpiry(proofs, Minimum(actionRef.validUntil, authorization.value.expiresAt));
      if actionRef.digest != actionDigest || until <= now || key == "" then Err(BindingMismatch)
      else if q.action.None? || q.action.value.ref != actionRef then Err(ActionDerivationMismatch)
      else
        match Internal(q, ActionAdmissionDecision, m, now, until)
        case Err(error) => Err(error)
        case Ok(ref) =>
          var a := q.action.value;
          var admission := Admission(
            ref, actionRef, provider, owner, a.derivation.operation, a.derivation.parameterDigest, a.request, key,
            authorization.value.id, authorization.value.expiresAt, until);
          Ok(Draft(q.(admission := Some(admission)), Some(ref), RecordWasIssued(ActionAdmissionDecision)))
  }

  // ---------------------------------------------------------------- execution commands

  /** The reservation a new attempt belongs to: the same action's after a retryable end, or a new one. */
  function ReservationFor(
    x: Option<Execution>, actionRef: Ref, attempt: nat, key: string, freshId: Id): Result<Id, RunError> {
    if x.None? then if attempt != 1 then Err(InvalidExecutionTransition) else Ok(freshId)
    else
      var e := x.value;
      if e.actionRef == actionRef then
        if !(e.state.Failed? || e.state.Rejected? || e.state.Expired?) || e.attempt >= MAX_ATTEMPT || attempt != e.attempt + 1
          || e.idempotencyKey != key
        then Err(ExecutionAlreadyReserved) else Ok(e.reservationId)
      else if !e.state.Cancelled? || attempt != 1 then Err(ExecutionAlreadyReserved)
      else Ok(freshId)
  }

  function ApplyReserve(
    q: Projection, c: Command, caller: Reference, proofs: seq<Proof>, m: Minted, now: nat): Result<Draft, RunError>
    requires c.ReserveExecution?
  {
    var permit := ProofOfKind(proofs, ExecutionPermit, q.domain);
    if !ExactCurrentAt(q, c.actionRef, now) || !ExactCurrentAt(q, c.admissionRef, now) then Err(MissingDependency)
    else if caller != c.owner then Err(PrincipalMismatch)
    else if permit.None? then Err(MissingRequiredProof)
    else if q.admission.None? then Err(ActionNotAdmitted)
    else
      var a := q.admission.value;
      var permitUntil :=
        Minimum(c.leaseUntil, Minimum(c.actionRef.validUntil, Minimum(c.admissionRef.validUntil,
          Minimum(a.authorizationValidUntil, permit.value.expiresAt))));
      if
        || !c.admissionRef.kind.ActionAdmissionDecision? || a.ref != c.admissionRef || a.actionRef != c.actionRef
        || a.provider != c.provider || a.owner != c.owner || a.idempotencyKey != c.idempotencyKey
        || a.validUntil != c.admissionRef.validUntil || c.actionRef.digest != c.actionDigest
        || now >= a.authorizationValidUntil || c.attempt == 0 || c.leaseUntil <= now || c.leaseUntil > permitUntil
        || c.idempotencyKey == ""
      then Err(ActionNotAdmitted)
      else
        match ReservationFor(q.execution, c.actionRef, c.attempt, c.idempotencyKey, m.reservationId)
        case Err(error) => Err(error)
        case Ok(reservationId) =>
          var x := Execution(
            reservationId, c.admissionRef, c.actionRef, c.provider, c.owner, a.operation, a.parameterDigest, a.request,
            c.idempotencyKey, c.attempt, m.permitId, a.authorizationProof, c.actionRef.validUntil, c.admissionRef.validUntil,
            a.authorizationValidUntil, permitUntil, c.leaseUntil, c.dispatchNonce, PermitIssued);
          Ok(Draft(q.(execution := Some(x)), None, PermitWasIssued(m.permitId)))
  }

  function WithState(q: Projection, x: Execution, state: ExecutionState): Projection {
    q.(execution := Some(x.(state := state)))
  }

  function ApplyRecover(q: Projection, reservationId: Id, caller: Reference, now: nat): Result<Draft, RunError> {
    if q.execution.None? || q.execution.value.reservationId != reservationId then Err(InvalidExecutionTransition)
    else
      var x := q.execution.value;
      if caller != x.owner then Err(PrincipalMismatch)
      else if x.state.DispatchStarted? || x.state.AwaitingProvider? || x.state.ReconciliationRequired? then
        Err(ExecutionRequiresReconciliation)
      else if !(x.state.PermitIssued? || x.state.PermitDelivered?) then Err(InvalidExecutionTransition)
      else if AuthorityExpired(x, now) then Ok(Draft(WithState(q, x, Expired), None, OtherEvent("execution_lease_expired")))
      else Ok(Draft(q, None, OtherEvent("execution_permit_recovered")))
  }

  /** The execution's action is current, un-invalidated and inside every window. */
  predicate AuthorityIsCurrent(q: Projection, x: Execution, now: nat) {
    && Action in q.records && q.records[Action] == x.actionRef && x.actionRef !in q.invalidated
    && !AuthorityExpired(x, now)
  }

  /** Delivering and dispatching: move one state on, or lose the execution when its authority is gone. */
  function ApplyAdvance(
    q: Projection, reservationId: Id, permitId: Id, caller: Reference, from: ExecutionState, to: ExecutionState, event: Event, now: nat)
    : Result<Draft, RunError>
  {
    if q.execution.None? || q.execution.value.reservationId != reservationId || q.execution.value.permitId != permitId then
      Err(InvalidExecutionTransition)
    else
      var x := q.execution.value;
      if caller != x.provider then Err(PrincipalMismatch)
      else if !AuthorityIsCurrent(q, x, now) then
        Ok(Draft(WithState(q, x, x.state.AfterLoss()), None, OtherEvent("execution_invalid_authority")))
      else if x.state != from then Err(InvalidExecutionTransition)
      else Ok(Draft(WithState(q, x, to), None, event))
  }

  function ApplyReceipt(q: Projection, c: Command, caller: Reference, m: Minted, now: nat): Result<Draft, RunError>
    requires c.CommitExecutionReceipt?
  {
    if NextRevision(q, ExecutionReceipt) > MAX_REVISION then Err(AggregateVersionConflict)
    else if q.execution.None? || q.execution.value.reservationId != c.reservationId || q.execution.value.permitId != c.permitId then
      Err(InvalidExecutionTransition)
    else
      var x := q.execution.value;
      if caller != x.provider then Err(PrincipalMismatch)
      else if
        || !(x.state.DispatchStarted? || x.state.AwaitingProvider? || x.state.ReconciliationRequired?)
        || x.provider != c.provider || x.dispatchNonce != c.dispatchNonce || x.attempt != c.attempt
        || c.receipt.None?
      then Err(BindingMismatch)
      else
        var r := c.receipt.value;
        if
          || r.permitId != c.permitId || r.provider != c.provider || r.dispatchNonce != c.dispatchNonce || r.attempt != c.attempt
          || r.actionInvalidated != (x.actionRef in q.invalidated) || r.request != x.request
          || !(r.terminal.Succeeded? || r.terminal.Failed? || r.terminal.Rejected? || r.terminal.Compensated?)
        then Err(BindingMismatch)
        else
          match Issue(q, c.submission, ExecutionReceipt, m, now)
          case Err(error) => Err(error)
          case Ok(ref) =>
            var state := if r.terminal.Failed? then RunFailed else if r.terminal.Rejected? then RunRejected else RunSucceeded;
            Ok(Draft(WithState(q, x, r.terminal).(state := state), Some(ref), RecordWasIssued(ExecutionReceipt)))
  }

  function ApplyReconcile(q: Projection, reservationId: Id, unknown: bool, caller: Reference): Result<Draft, RunError> {
    if q.execution.None? || q.execution.value.reservationId != reservationId then Err(InvalidExecutionTransition)
    else
      var x := q.execution.value;
      if caller != x.provider then Err(PrincipalMismatch)
      else if !x.state.ReconciliationRequired? then Err(InvalidExecutionTransition)
      else if !unknown then Err(BindingMismatch)
      else Ok(Draft(q, None, OtherEvent("execution_reconciliation_still_unknown")))
  }

  function ApplyExpire(q: Projection, reservationId: Id, caller: Reference, now: nat): Result<Draft, RunError> {
    if q.execution.None? || q.execution.value.reservationId != reservationId then Err(InvalidExecutionTransition)
    else
      var x := q.execution.value;
      if caller != x.owner then Err(PrincipalMismatch)
      else if !AuthorityExpired(x, now) then Err(InvalidExecutionTransition)
      else if x.state.PermitIssued? || x.state.PermitDelivered? then
        Ok(Draft(WithState(q, x, Expired), None, OtherEvent("execution_lease_expired_before_dispatch")))
      else if x.state.DispatchStarted? || x.state.AwaitingProvider? then
        Ok(Draft(WithState(q, x, ReconciliationRequired), None, OtherEvent("execution_lease_expired_after_dispatch")))
      else Err(InvalidExecutionTransition)
  }

  // ---------------------------------------------------------------- governance and learning

  function ApplyInvalidate(q: Projection, target: Ref): Result<Draft, RunError> {
    if !GovernanceTarget(q, target) then Err(MissingDependency)
    else
      var hit := q.execution.Some? && q.execution.value.actionRef.id == target.id;
      Ok(Draft(
        q.(invalidated := q.invalidated + {target}, state := Invalidated,
           execution := if hit then LoseExecution(q.execution) else q.execution),
        None, OtherEvent("record_invalidated")))
  }

  function ApplyOutcome(
    q: Projection, s: Submission, observed: Option<nat>, m: Minted, now: nat): Result<Draft, RunError> {
    if ExecutionReceipt !in q.records then Err(MissingDependency)
    else
      var receipt := q.records[ExecutionReceipt];
      if !HistoricalEvidence(q, receipt, now, RECEIPT_OUTCOME_WINDOW) then Err(MissingDependency)
      else if observed != Some(receipt.digest) then Err(BindingMismatch)
      else
        match Issue(q, s, Outcome, m, now)
        case Err(error) => Err(error)
        case Ok(ref) => Ok(Draft(q.(outcome := Some(ref)), Some(ref), RecordWasIssued(Outcome)))
  }

  /** A payload names a record by identifier, revision and digest. */
  predicate Names(named: Option<Ref>, ref: Ref) {
    named.Some? && named.value.id == ref.id && named.value.revision == ref.revision && named.value.digest == ref.digest
  }

  function ApplyPropose(
    q: Projection, s: Submission, named: Option<Ref>, wellFormed: bool, m: Minted, now: nat): Result<Draft, RunError> {
    if q.outcome.None? || !HistoricalEvidence(q, q.outcome.value, now, OUTCOME_HUMAN_MODEL_WINDOW) then Err(MissingDependency)
    else if !Names(named, q.outcome.value) || !wellFormed then Err(BindingMismatch)
    else
      match Issue(q, s, HumanModelCandidate, m, now)
      case Err(error) => Err(error)
      case Ok(ref) =>
        Ok(Draft(q.(candidate := Some(CandidateBinding(ref, q.outcome.value))), Some(ref), RecordWasIssued(HumanModelCandidate)))
  }

  function ApplyPromotion(q: Projection, c: Command, m: Minted, now: nat): Result<Draft, RunError>
    requires c.RecordHumanModelPromotion?
  {
    if !ExactCurrentAt(q, c.sourceRef, now) then Err(MissingDependency)
    else if !c.sourceRef.kind.HumanModelCandidate? then Err(BindingMismatch)
    else if q.candidate.None? || q.candidate.value.ref != c.sourceRef then Err(MissingDependency)
    else if c.promotionOutcome.None? || !Names(c.namedOutcome, q.candidate.value.outcomeRef) then Err(BindingMismatch)
    else
      match Issue(q, c.submission, HumanModelPromotionDecision, m, now)
      case Err(error) => Err(error)
      case Ok(ref) =>
        var promotion := PromotionBinding(ref, c.sourceRef, q.candidate.value.outcomeRef, c.promotionOutcome.value);
        Ok(Draft(q.(promotion := Some(promotion)), Some(ref), RecordWasIssued(HumanModelPromotionDecision)))
  }

  function ApplyPromote(q: Projection, c: Command, proofs: seq<Proof>, m: Minted, now: nat): Result<Draft, RunError>
    requires c.PromoteHumanModelAssertion?
  {
    if !ExactCurrentAt(q, c.promotionRef, now) then Err(MissingDependency)
    else if !c.promotionRef.kind.HumanModelPromotionDecision? then Err(BindingMismatch)
    else if q.promotion.None? || q.promotion.value.ref != c.promotionRef || !q.promotion.value.outcome.Promotes() then Err(BindingMismatch)
    else if q.candidate.None? || q.candidate.value.ref != q.promotion.value.sourceRef then Err(MissingDependency)
    else if !c.wellFormed then Err(BindingMismatch)
    else
      var p := q.promotion.value;
      var until := EarliestExpiry(proofs, Minimum(c.submission.validUntil, Minimum(p.ref.validUntil, p.sourceRef.validUntil)));
      match Internal(q, HumanModelAssertion, m, now, until)
      case Err(error) => Err(error)
      case Ok(ref) => Ok(Draft(q, Some(ref), RecordWasIssued(HumanModelAssertion)))
  }

  function ApplyCorrection(q: Projection, c: Command, m: Minted, now: nat): Result<Draft, RunError>
    requires c.CorrectHumanModelAssertion?
  {
    if !GovernanceTarget(q, c.assertionRef) then Err(MissingDependency)
    else if !c.wellFormed then Err(BindingMismatch)
    else if c.assertionRef.revision >= MAX_REVISION then Err(AggregateVersionConflict)
    else if !(c.submission.validFrom <= now < c.submission.validUntil) then Err(ExpiredAuthority)
    else
      var ref := Ref(
        c.assertionRef.id, c.assertionRef.revision + 1, HumanModelAssertion, q.domain, c.submission.validFrom,
        c.submission.validUntil, m.digest, m.policy);
      Ok(Draft(q.(invalidated := q.invalidated + {c.assertionRef}), Some(ref), RecordWasIssued(HumanModelAssertion)))
  }

  // ---------------------------------------------------------------- evaluating a command

  function Apply(q: Projection, e: Envelope, now: nat): Result<Draft, RunError> {
    var m := e.minted;
    match e.command
    case StartRun(s) => ApplyStart(q, s, m, now)
    case RecordContext(s) =>
      if !CurrentAt(q, CanonicalInput, now) then Err(MissingDependency) else ApplyPlain(q, s, ContextSnapshot, m, now)
    case RecordIntent(s, outcome) => ApplyIntent(q, s, outcome, m, now)
    case RecordDecision(s, derivation) => ApplyDecision(q, s, derivation, m, now)
    case RecordTurn(s, wellFormed) =>
      if !CurrentAt(q, Intent, now) || !CurrentAt(q, Decision, now) then Err(MissingDependency)
      else if !wellFormed then Err(BindingMismatch)
      else ApplyPlain(q, s, TurnCoordination, m, now)
    case RecordResponse(s, content) => ApplyResponse(q, s, content, m, now)
    case ConsumeResponseSend(ref, sent, nonce) => ApplySend(q, ref, sent, nonce, now)
    case RecordAction(s, derivation) => ApplyAction(q, s, derivation, m, now)
    case AdmitAction(actionRef, digest, provider, owner, key) =>
      ApplyAdmit(q, actionRef, digest, provider, owner, key, e.proofs, m, now)
    case ReserveExecution(_, _, _, _, _, _, _, _, _) => ApplyReserve(q, e.command, e.caller, e.proofs, m, now)
    case RecoverPermit(reservationId) => ApplyRecover(q, reservationId, e.caller, now)
    case DeliverPermit(reservationId, permitId) =>
      ApplyAdvance(q, reservationId, permitId, e.caller, PermitIssued, PermitDelivered, PermitWasDelivered(permitId), now)
    case StartDispatch(reservationId, permitId) =>
      ApplyAdvance(q, reservationId, permitId, e.caller, PermitDelivered, DispatchStarted, DispatchWasStarted(permitId), now)
    case CommitExecutionReceipt(_, _, _, _, _, _, _) => ApplyReceipt(q, e.command, e.caller, m, now)
    case ReconcileExecution(reservationId, unknown) => ApplyReconcile(q, reservationId, unknown, e.caller)
    case ExpireExecutionLease(reservationId) => ApplyExpire(q, reservationId, e.caller, now)
    case InvalidateRecord(target) => ApplyInvalidate(q, target)
    case RecordOutcome(s, observed) => ApplyOutcome(q, s, observed, m, now)
    case ProposeHumanModelCandidate(s, named, wellFormed) => ApplyPropose(q, s, named, wellFormed, m, now)
    case RecordHumanModelPromotion(_, _, _, _) => ApplyPromotion(q, e.command, m, now)
    case PromoteHumanModelAssertion(_, _, _) => ApplyPromote(q, e.command, e.proofs, m, now)
    case CorrectHumanModelAssertion(_, _, _) => ApplyCorrection(q, e.command, m, now)
    case CancelRun =>
      if q.state.RunSucceeded? || q.state.RunRejected? || q.state.RunCancelled? then Err(InvalidRunTransition)
      else Ok(Draft(q.(state := RunCancelled), None, OtherEvent("run_cancelled")))
  }

  predicate LineageHolds(p: Projection, c: Command, now: nat) {
    !c.StartRun? && Submitted(c).Some? ==>
      var s := Submitted(c).value;
      p.subject == Some(s.subject) && p.turn == Some(s.turn) && s.validFrom <= now < s.validUntil
  }

  function FoundProofs(proofs: seq<Proof>): set<ProofKind> {
    set i | 0 <= i < |proofs| && !proofs[i].kind.CallerAuthentication? :: proofs[i].kind
  }

  function Counted(p: Projection): Projection {
    p.(version := p.version + 1, sequence := p.sequence + 1)
  }

  function Evaluate(p: Projection, e: Envelope, now: nat): Result<Draft, RunError> {
    if e.domain != p.domain || e.expectedVersion != p.version then Err(AggregateVersionConflict)
    else if !CommandAllowed(p.state, e.command) then Err(InvalidRunTransition)
    else if !LineageHolds(p, e.command, now) then Err(LineageMismatch)
    else if FoundProofs(e.proofs) != RequiredProofs(e.command) then Err(MissingRequiredProof)
    else
      match Apply(Counted(p), e, now)
      case Err(error) => Err(error)
      case Ok(d) => Ok(Finish(d))
  }

  /** The issued record becomes the current one of its kind. */
  function Finish(d: Draft): Draft {
    if d.record.None? then d
    else d.(projection := d.projection.(records := d.projection.records[d.record.value.kind := d.record.value]))
  }
}
