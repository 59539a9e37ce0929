/**
  When the evaluator accepts a command, said without its order of checks: for each of the 23
  commands the exact condition on the projection, the caller, the proofs and the time.
 */
module RunAcceptance {
  import opened Wrappers
  import opened Contracts
  import opened RunModel
  import opened RunTables
  import opened RunDrafts

  // ---------------------------------------------------------------- parts of the condition

  predicate InWindow(s: Submission, now: nat) {
    s.validFrom <= now < s.validUntil
  }

  /** The current record of the kind stands and is inside its window. */
  predicate Usable(p: Projection, k: Kind, now: nat) {
    k in p.records && p.records[k] !in p.invalidated && p.records[k].validFrom <= now < p.records[k].validUntil
  }

  /** `ref` is the current record of its kind, stands and is of this run's domain. */
  predicate Standing(p: Projection, ref: Ref) {
    ref.kind in p.records && p.records[ref.kind] == ref && ref !in p.invalidated && ref.domain == p.domain
  }

  predicate UsableRef(p: Projection, ref: Ref, now: nat) {
    Standing(p, ref) && ref.validFrom <= now < ref.validUntil
  }

  /** The kind has a revision left. */
  predicate Room(p: Projection, k: Kind) {
    k in p.records ==> p.records[k].revision < 0xFFFF_FFFF_FFFF_FFFF
  }

  predicate Proves(e: Envelope, kind: ProofKind, domain: nat) {
    exists i :: 0 <= i < |e.proofs| && e.proofs[i].kind == kind && e.proofs[i].domain == domain
  }

  /** The first proof of the kind lasts until `until`. */
  predicate FirstLasts(e: Envelope, kind: ProofKind, domain: nat, until: nat) {
    exists i :: 0 <= i < |e.proofs| && e.proofs[i].kind == kind && e.proofs[i].domain == domain && until <= e.proofs[i].expiresAt
      && forall j :: 0 <= j < i ==> !(e.proofs[j].kind == kind && e.proofs[j].domain == domain)
  }

  predicate Unexpired(e: Envelope, now: nat) {
    forall i :: 0 <= i < |e.proofs| ==> now < e.proofs[i].expiresAt
  }

  /** The execution is the one named, and the caller plays the given part in it. */
  predicate Of(p: Projection, reservationId: Id, caller: Reference, byOwner: bool) {
    && p.execution.Some? && p.execution.value.reservationId == reservationId
    && caller == if byOwner then p.execution.value.owner else p.execution.value.provider
  }

  /** Its action stands as the current one, and none of its five limits is reached. */
  predicate InForce(p: Projection, x: Execution, now: nat) {
    && Action in p.records && p.records[Action] == x.actionRef && x.actionRef !in p.invalidated
    && now < x.leaseUntil && now < x.actionValidUntil && now < x.admissionValidUntil && now < x.authorizationValidUntil
    && now < x.permitValidUntil
  }

  predicate Overdue(x: Execution, now: nat) {
    || x.leaseUntil <= now || x.actionValidUntil <= now || x.admissionValidUntil <= now || x.authorizationValidUntil <= now
    || x.permitValidUntil <= now
  }

  /** The next attempt of the same action after one that may be retried, or the first of another after a cancelled one. */
  predicate MayReserve(x: Option<Execution>, actionRef: Ref, attempt: nat, key: string) {
    if x.Some? && x.value.actionRef == actionRef then
      && (x.value.state.Failed? || x.value.state.Rejected? || x.value.state.Expired?)
      && attempt == x.value.attempt + 1 && x.value.attempt < 0xFFFF_FFFF && key == x.value.idempotencyKey
    else attempt == 1 && (x.None? || x.value.state.Cancelled?)
  }

  /** The admission in force is the one named, for the same action, parties and key. */
  predicate UnderAdmission(p: Projection, c: Command)
    requires c.ReserveExecution?
  {
    && p.admission.Some? && c.admissionRef.kind.ActionAdmissionDecision?
    && var a := p.admission.value;
       && a.ref == c.admissionRef && a.actionRef == c.actionRef && a.provider == c.provider && a.owner == c.owner
       && a.idempotencyKey == c.idempotencyKey != "" && a.validUntil == c.admissionRef.validUntil
  }

  /** Every part of the receipt's payload is that of the execution. */
  predicate ReceiptAgrees(p: Projection, x: Execution, c: Command)
    requires c.CommitExecutionReceipt?
  {
    && c.permitId == x.permitId && c.provider == x.provider && c.dispatchNonce == x.dispatchNonce && c.attempt == x.attempt
    && c.receipt.Some?
    && var r := c.receipt.value;
       && r.permitId == x.permitId && r.provider == x.provider && r.dispatchNonce == x.dispatchNonce && r.attempt == x.attempt
       && r.request == x.request && (r.actionInvalidated <==> x.actionRef in p.invalidated)
       && (r.terminal.Succeeded? || r.terminal.Failed? || r.terminal.Rejected? || r.terminal.Compensated?)
  }

  predicate NamesExactly(named: Option<Ref>, ref: Ref) {
    named.Some? && named.value.id == ref.id && named.value.revision == ref.revision && named.value.digest == ref.digest
  }

  // ---------------------------------------------------------------- the condition

  predicate Settling(c: Command) {
    c.CommitExecutionReceipt? || c.ReconcileExecution? || c.ExpireExecutionLease?
  }

  predicate Learning(c: Command) {
    || c.RecordOutcome? || c.ProposeHumanModelCandidate? || c.RecordHumanModelPromotion? || c.PromoteHumanModelAssertion?
    || c.CorrectHumanModelAssertion?
  }

  /** What the command itself needs of the projection, its caller, its proofs and the time. */
  predicate Warranted(p: Projection, e: Envelope, now: nat) {
    match e.command
    case StartRun(s) => CanonicalInput !in p.records && InWindow(s, now)
    case RecordContext(s) => Usable(p, CanonicalInput, now) && Room(p, ContextSnapshot)
    case RecordIntent(s, outcome) => Usable(p, ContextSnapshot, now) && (outcome.Block? || (!outcome.Malformed? && Room(p, Intent)))
    case RecordDecision(s, derivation) => Usable(p, Intent, now) && derivation.Some? && Room(p, Decision)
    case RecordTurn(s, wellFormed) => Usable(p, Intent, now) && Usable(p, Decision, now) && wellFormed && Room(p, TurnCoordination)
    case RecordResponse(s, content) => Usable(p, TurnCoordination, now) && content.Some? && Room(p, Response)
    case ConsumeResponseSend(ref, sent, nonce) =>
      UsableRef(p, ref, now) && p.response == Some(ResponseBinding(ref, sent)) && nonce !in p.sendNonces
    case RecordAction(s, derivation) =>
      && Usable(p, TurnCoordination, now) && Usable(p, Decision, now) && derivation.Some? && Room(p, Action)
      && p.decision == Some(DecisionBinding(p.records[Decision], derivation.value))
    case AdmitAction(actionRef, digest, provider, owner, key) =>
      && UsableRef(p, actionRef, now) && p.action.Some? && p.action.value.ref == actionRef && actionRef.digest == digest && key != ""
      && Proves(e, Capability, p.domain) && Proves(e, Authority, p.domain) && Proves(e, Policy, p.domain)
      && Proves(e, ExactAuthorization, p.domain) && Proves(e, ActionAdmission, p.domain)
      && Unexpired(e, now) && Room(p, ActionAdmissionDecision) && p.subject.Some? && p.turn.Some?
    case ReserveExecution(admissionRef, actionRef, digest, provider, owner, key, attempt, lease, nonce) =>
      && UsableRef(p, actionRef, now) && UsableRef(p, admissionRef, now) && UnderAdmission(p, e.command)
      && e.caller == owner && actionRef.digest == digest
      && now < lease <= actionRef.validUntil && lease <= admissionRef.validUntil && lease <= p.admission.value.authorizationValidUntil
      && FirstLasts(e, ExecutionPermit, p.domain, lease)
      && attempt >= 1 && MayReserve(p.execution, actionRef, attempt, key)
    case RecoverPermit(reservationId) =>
      && Of(p, reservationId, e.caller, true) && (p.execution.value.state.PermitIssued? || p.execution.value.state.PermitDelivered?)
    case DeliverPermit(reservationId, permitId) =>
      && Of(p, reservationId, e.caller, false) && p.execution.value.permitId == permitId
      && (InForce(p, p.execution.value, now) ==> p.execution.value.state.PermitIssued?)
    case StartDispatch(reservationId, permitId) =>
      && Of(p, reservationId, e.caller, false) && p.execution.value.permitId == permitId
      && (InForce(p, p.execution.value, now) ==> p.execution.value.state.PermitDelivered?)
    case CommitExecutionReceipt(s, reservationId, permitId, provider, nonce, attempt, receipt) =>
      && Of(p, reservationId, e.caller, false) && ReceiptAgrees(p, p.execution.value, e.command) && Room(p, ExecutionReceipt)
      && (p.execution.value.state.DispatchStarted? || p.execution.value.state.AwaitingProvider? || p.execution.value.state.ReconciliationRequired?)
    case ReconcileExecution(reservationId, unknown) =>
      Of(p, reservationId, e.caller, false) && p.execution.value.state.ReconciliationRequired? && unknown
    case ExpireExecutionLease(reservationId) =>
      && Of(p, reservationId, e.caller, true) && Overdue(p.execution.value, now)
      && (p.execution.value.state.PermitIssued? || p.execution.value.state.PermitDelivered? || p.execution.value.state.DispatchStarted?
          || p.execution.value.state.AwaitingProvider?)
    case InvalidateRecord(target) => Standing(p, target)
    case RecordOutcome(s, observed) =>
      && ExecutionReceipt in p.records && Standing(p, p.records[ExecutionReceipt]) && Room(p, Outcome)
      && p.records[ExecutionReceipt].validFrom <= now < p.records[ExecutionReceipt].validUntil + 86_400
      && observed == Some(p.records[ExecutionReceipt].digest)
    case ProposeHumanModelCandidate(s, named, wellFormed) =>
      && p.outcome.Some? && Standing(p, p.outcome.value) && Room(p, HumanModelCandidate)
      && p.outcome.value.validFrom <= now < p.outcome.value.validUntil + 604_800
      && NamesExactly(named, p.outcome.value) && wellFormed
    case RecordHumanModelPromotion(s, sourceRef, outcome, named) =>
      && UsableRef(p, sourceRef, now) && sourceRef.kind.HumanModelCandidate? && Room(p, HumanModelPromotionDecision)
      && p.candidate.Some? && p.candidate.value.ref == sourceRef && outcome.Some? && NamesExactly(named, p.candidate.value.outcomeRef)
    case PromoteHumanModelAssertion(s, promotionRef, wellFormed) =>
      && UsableRef(p, promotionRef, now) && promotionRef.kind.HumanModelPromotionDecision? && wellFormed && Room(p, HumanModelAssertion)
      && p.promotion.Some? && p.promotion.value.ref == promotionRef && p.subject.Some? && p.turn.Some?
      && (p.promotion.value.outcome.PromoteProvisional? || p.promotion.value.outcome.PromoteUserConfirmed?
          || p.promotion.value.outcome.PromoteOutcomeSupported?)
      && p.candidate.Some? && p.candidate.value.ref == p.promotion.value.sourceRef
      && now < s.validUntil && now < p.promotion.value.ref.validUntil && now < p.promotion.value.sourceRef.validUntil && Unexpired(e, now)
    case CorrectHumanModelAssertion(assertionRef, s, wellFormed) =>
      Standing(p, assertionRef) && wellFormed && assertionRef.revision < 0xFFFF_FFFF_FFFF_FFFF
    case CancelRun => true
  }

  /** Which commands each state takes. */
  predicate TakenIn(state: RunState, c: Command) {
    match state
    case Pending => c.StartRun?
    case Running => !c.StartRun?
    case WaitingInput => !c.StartRun? && !Settling(c) && !Learning(c)
    case WaitingAuthorization => !c.StartRun? && !Settling(c) && !Learning(c)
    case WaitingDependency => !c.StartRun? && !Settling(c) && !Learning(c)
    case RunReconciliationRequired => Settling(c) || Learning(c) || c.CancelRun?
    case Invalidated => Settling(c) || Learning(c) || c.CancelRun?
    case RunSucceeded => Learning(c)
    case RunRejected => Learning(c)
    case RunFailed => Learning(c)
    case RunCancelled => false
    case TimedOut => false
  }

  /** The commands that submit a payload of their own. */
  predicate Submits(c: Command) {
    !(c.ConsumeResponseSend? || c.AdmitAction? || c.ReserveExecution? || c.RecoverPermit? || c.DeliverPermit? || c.StartDispatch?
      || c.ReconcileExecution? || c.ExpireExecutionLease? || c.InvalidateRecord? || c.CancelRun?)
  }

  /** A payload is of the run's subject and turn, and valid now. */
  predicate InLineage(p: Projection, c: Command, now: nat) {
    && (Submits(c) && !c.StartRun? ==>
          Submitted(c).Some? && p.subject == Some(Submitted(c).value.subject) && p.turn == Some(Submitted(c).value.turn)
          && InWindow(Submitted(c).value, now))
    && (Submits(c) <==> Submitted(c).Some?)
  }

  /** The proofs are of exactly the kinds the command needs, the caller's own aside. */
  predicate ExactlyProved(e: Envelope) {
    && (forall i :: 0 <= i < |e.proofs| ==> e.proofs[i].kind.CallerAuthentication? || Needed(e.command, e.proofs[i].kind))
    && (forall k: ProofKind :: Needed(e.command, k) ==> exists i :: 0 <= i < |e.proofs| && e.proofs[i].kind == k)
  }

  /** Which kind of proof each command needs. */
  predicate Needed(c: Command, k: ProofKind) {
    match k
    case CallerAuthentication => false
    case InputAdmission => c.StartRun?
    case ContextProof => c.RecordContext?
    case IntentFastPathAdmission => c.RecordIntent?
    case DecisionNecessityAdmission => c.RecordDecision?
    case TurnCoordinationAdmission => c.RecordTurn?
    case ResponsePolicy => c.ConsumeResponseSend?
    case ResponseAdmission => c.ConsumeResponseSend?
    case Capability => c.AdmitAction?
    case Authority => c.AdmitAction? || c.CancelRun?
    case Policy => c.AdmitAction? || c.InvalidateRecord?
    case ExactAuthorization => c.AdmitAction?
    case ActionAdmission => c.AdmitAction?
    case ExecutionPermit => c.ReserveExecution? || c.RecoverPermit? || c.DeliverPermit? || c.StartDispatch? || c.ExpireExecutionLease?
    case ProviderReceipt => c.CommitExecutionReceipt? || c.ReconcileExecution?
    case OutcomeObservation =>
      c.RecordOutcome? || c.ProposeHumanModelCandidate? || (c.RecordHumanModelPromotion? && c.promotionOutcome == Some(PromoteOutcomeSupported))
    case HumanModelPromotion => c.RecordHumanModelPromotion? || c.PromoteHumanModelAssertion?
    case HumanModelUserConfirmation => c.RecordHumanModelPromotion? && c.promotionOutcome == Some(PromoteUserConfirmed)
    case HumanModelCorrection => c.CorrectHumanModelAssertion?
  }

  predicate Acceptable(p: Projection, e: Envelope, now: nat) {
    && e.domain == p.domain && e.expectedVersion == p.version
    && TakenIn(p.state, e.command) && InLineage(p, e.command, now) && ExactlyProved(e) && Warranted(p, e, now)
  }

  // ---------------------------------------------------------------- proofs

  lemma NeededIsRequired(c: Command, k: ProofKind)
    ensures Needed(c, k) <==> k in RequiredProofs(c)
  {
  }

  lemma ProvedIsFound(e: Envelope)
    ensures ExactlyProved(e) <==> FoundProofs(e.proofs) == RequiredProofs(e.command)
  {
    hide Needed, RequiredProofs;
    var found, required := FoundProofs(e.proofs), RequiredProofs(e.command);
    forall k: ProofKind
      ensures Needed(e.command, k) <==> k in required
    {
      NeededIsRequired(e.command, k);
    }
    NeverTheCaller(e.command);
    if ExactlyProved(e) {
      forall k | k in required
        ensures k in found
      {
        assert Needed(e.command, k);
        var i :| 0 <= i < |e.proofs| && e.proofs[i].kind == k;
      }
    } else if found == required {
      FoundIsProved(e);
    }
  }

  lemma NeverTheCaller(c: Command)
    ensures CallerAuthentication !in RequiredProofs(c)
  {
  }

  lemma FoundIsProved(e: Envelope)
    requires FoundProofs(e.proofs) == RequiredProofs(e.command)
    ensures ExactlyProved(e)
  {
    hide Needed, RequiredProofs;
    forall i | 0 <= i < |e.proofs|
      ensures e.proofs[i].kind.CallerAuthentication? || Needed(e.command, e.proofs[i].kind)
    {
      NeededIsRequired(e.command, e.proofs[i].kind);
      assert !e.proofs[i].kind.CallerAuthentication? ==> e.proofs[i].kind in FoundProofs(e.proofs);
    }
    forall k: ProofKind | Needed(e.command, k)
      ensures exists i :: 0 <= i < |e.proofs| && e.proofs[i].kind == k
    {
      NeededIsRequired(e.command, k);
      assert k in FoundProofs(e.proofs);
    }
  }

  lemma {:induction false} FirstOfKind(proofs: seq<Proof>, kind: ProofKind, domain: nat)
    ensures ProofOfKind(proofs, kind, domain).Some? <==> exists i :: 0 <= i < |proofs| && proofs[i].kind == kind && proofs[i].domain == domain
    ensures ProofOfKind(proofs, kind, domain).Some? ==>
      exists i :: 0 <= i < |proofs| && proofs[i] == ProofOfKind(proofs, kind, domain).value && proofs[i].kind == kind && proofs[i].domain == domain
        && forall j :: 0 <= j < i ==> !(proofs[j].kind == kind && proofs[j].domain == domain)
  {
    if proofs != [] {
      if proofs[0].kind == kind && proofs[0].domain == domain {
        assert proofs[0] == ProofOfKind(proofs, kind, domain).value;
      } else {
        FirstOfKind(proofs[1..], kind, domain);
        if ProofOfKind(proofs[1..], kind, domain).Some? {
          var i :| 0 <= i < |proofs[1..]| && proofs[1..][i] == ProofOfKind(proofs[1..], kind, domain).value
            && proofs[1..][i].kind == kind && proofs[1..][i].domain == domain
            && forall j :: 0 <= j < i ==> !(proofs[1..][j].kind == kind && proofs[1..][j].domain == domain);
          assert proofs[i + 1] == proofs[1..][i];
          forall j | 0 <= j < i + 1
            ensures !(proofs[j].kind == kind && proofs[j].domain == domain)
          {
            assert j > 0 ==> proofs[j] == proofs[1..][j - 1];
          }
        } else {
          forall i | 0 <= i < |proofs|
            ensures !(proofs[i].kind == kind && proofs[i].domain == domain)
          {
            assert i > 0 ==> proofs[i] == proofs[1..][i - 1];
          }
        }
      }
    }
  }

  lemma LastsOrNot(e: Envelope, kind: ProofKind, domain: nat, until: nat)
    ensures FirstLasts(e, kind, domain, until) <==>
      ProofOfKind(e.proofs, kind, domain).Some? && until <= ProofOfKind(e.proofs, kind, domain).value.expiresAt
  {
    hide ProofOfKind;
    FirstOfKind(e.proofs, kind, domain);
    if ProofOfKind(e.proofs, kind, domain).Some? {
      var i :| 0 <= i < |e.proofs| && e.proofs[i] == ProofOfKind(e.proofs, kind, domain).value && e.proofs[i].kind == kind && e.proofs[i].domain == domain
        && forall j :: 0 <= j < i ==> !(e.proofs[j].kind == kind && e.proofs[j].domain == domain);
      if FirstLasts(e, kind, domain, until) {
        var k :| 0 <= k < |e.proofs| && e.proofs[k].kind == kind && e.proofs[k].domain == domain && until <= e.proofs[k].expiresAt
          && forall j :: 0 <= j < k ==> !(e.proofs[j].kind == kind && e.proofs[j].domain == domain);
        assert !(i < k) && !(k < i);
      }
    }
  }

  lemma {:induction false} EarliestAfter(proofs: seq<Proof>, bound: nat, now: nat)
    ensures now < EarliestExpiry(proofs, bound) <==> now < bound && forall i :: 0 <= i < |proofs| ==> now < proofs[i].expiresAt
  {
    if proofs != [] {
      var last := |proofs| - 1;
      EarliestAfter(proofs[..last], bound, now);
      assert forall i :: 0 <= i < last ==> proofs[..last][i] == proofs[i];
    }
  }

  // ---------------------------------------------------------------- command by command

  lemma RecordingAccepted(p: Projection, e: Envelope, now: nat)
    requires
      || e.command.StartRun? || e.command.RecordContext? || e.command.RecordIntent? || e.command.RecordDecision?
      || e.command.RecordTurn? || e.command.RecordResponse? || e.command.ConsumeResponseSend? || e.command.RecordAction?
    requires TakenIn(p.state, e.command) && InLineage(p, e.command, now)
    ensures Apply(Counted(p), e, now).Ok? <==> Warranted(p, e, now)
  {
  }

  lemma AdmissionAccepted(p: Projection, e: Envelope, now: nat)
    requires e.command.AdmitAction?
    ensures Apply(Counted(p), e, now).Ok? <==> Warranted(p, e, now)
  {
    hide ProofOfKind, EarliestExpiry, Proves, Unexpired;
    KindProved(e, Capability, p.domain);
    KindProved(e, Authority, p.domain);
    KindProved(e, Policy, p.domain);
    KindProved(e, ExactAuthorization, p.domain);
    KindProved(e, ActionAdmission, p.domain);
    var authorization := ProofOfKind(e.proofs, ExactAuthorization, p.domain);
    if authorization.Some? {
      if Unexpired(e, now) {
        AuthorizationAmong(e, p.domain, now);
      }
      EarliestUnexpired(e, Minimum(e.command.actionRef.validUntil, authorization.value.expiresAt), now);
    }
  }

  lemma KindProved(e: Envelope, kind: ProofKind, domain: nat)
    ensures ProofOfKind(e.proofs, kind, domain).Some? <==> Proves(e, kind, domain)
  {
    FirstOfKind(e.proofs, kind, domain);
    hide ProofOfKind;
  }

  lemma AuthorizationAmong(e: Envelope, domain: nat, now: nat)
    requires ProofOfKind(e.proofs, ExactAuthorization, domain).Some? && Unexpired(e, now)
    ensures now < ProofOfKind(e.proofs, ExactAuthorization, domain).value.expiresAt
  {
    FirstOfKind(e.proofs, ExactAuthorization, domain);
    hide ProofOfKind;
  }

  lemma EarliestUnexpired(e: Envelope, bound: nat, now: nat)
    ensures now < EarliestExpiry(e.proofs, bound) <==> now < bound && Unexpired(e, now)
  {
    EarliestAfter(e.proofs, bound, now);
    hide EarliestExpiry;
  }

  lemma ReservationAccepted(p: Projection, e: Envelope, now: nat)
    requires e.command.ReserveExecution?
    ensures Apply(Counted(p), e, now).Ok? <==> Warranted(p, e, now)
  {
    hide ProofOfKind, FirstLasts;
    LastsOrNot(e, ExecutionPermit, p.domain, e.command.leaseUntil);
  }

  lemma PermitAccepted(p: Projection, e: Envelope, now: nat)
    requires e.command.RecoverPermit? || e.command.DeliverPermit? || e.command.StartDispatch?
    ensures Apply(Counted(p), e, now).Ok? <==> Warranted(p, e, now)
  {
  }

  lemma SettlingAccepted(p: Projection, e: Envelope, now: nat)
    requires
      e.command.CommitExecutionReceipt? || e.command.ReconcileExecution? || e.command.ExpireExecutionLease? || e.command.InvalidateRecord?
    requires InLineage(p, e.command, now)
    ensures Apply(Counted(p), e, now).Ok? <==> Warranted(p, e, now)
  {
  }

  lemma OutcomeAccepted(p: Projection, e: Envelope, now: nat)
    requires e.command.RecordOutcome? && TakenIn(p.state, e.command) && InLineage(p, e.command, now)
    ensures Apply(Counted(p), e, now).Ok? <==> Warranted(p, e, now)
  {
  }

  lemma CandidateAccepted(p: Projection, e: Envelope, now: nat)
    requires e.command.ProposeHumanModelCandidate? && TakenIn(p.state, e.command) && InLineage(p, e.command, now)
    ensures Apply(Counted(p), e, now).Ok? <==> Warranted(p, e, now)
  {
  }

  lemma PromotionAccepted(p: Projection, e: Envelope, now: nat)
    requires e.command.RecordHumanModelPromotion? && TakenIn(p.state, e.command) && InLineage(p, e.command, now)
    ensures Apply(Counted(p), e, now).Ok? <==> Warranted(p, e, now)
  {
  }

  lemma CorrectionAccepted(p: Projection, e: Envelope, now: nat)
    requires e.command.CorrectHumanModelAssertion? && TakenIn(p.state, e.command) && InLineage(p, e.command, now)
    ensures Apply(Counted(p), e, now).Ok? <==> Warranted(p, e, now)
  {
  }

  lemma CancellationAccepted(p: Projection, e: Envelope, now: nat)
    requires e.command.CancelRun? && TakenIn(p.state, e.command)
    ensures Apply(Counted(p), e, now).Ok? && Warranted(p, e, now)
  {
    assert !(p.state.RunSucceeded? || p.state.RunRejected? || p.state.RunCancelled?);
    hide TakenIn;
    hide ApplyPlain, ApplyStart, ApplyIntent, ApplyDecision, ApplyResponse, ApplySend, ApplyAction, ApplyAdmit, ApplyReserve;
    hide ApplyRecover, ApplyAdvance, ApplyReceipt, ApplyReconcile, ApplyExpire, ApplyInvalidate, ApplyOutcome, ApplyPropose;
    hide ApplyPromotion, ApplyPromote, ApplyCorrection;
  }

  lemma AssertionAccepted(p: Projection, e: Envelope, now: nat)
    requires e.command.PromoteHumanModelAssertion?
    ensures Apply(Counted(p), e, now).Ok? <==> Warranted(p, e, now)
  {
    if p.promotion.Some? {
      var bound := Minimum(e.command.submission.validUntil, Minimum(p.promotion.value.ref.validUntil, p.promotion.value.sourceRef.validUntil));
      EarliestUnexpired(e, bound, now);
    }
    hide EarliestExpiry, Unexpired;
  }

  lemma StatesAgree(state: RunState, c: Command)
    ensures TakenIn(state, c) <==> CommandAllowed(state, c)
  {
  }

  lemma LineagesAgree(p: Projection, c: Command, now: nat)
    ensures InLineage(p, c, now) <==> LineageHolds(p, c, now)
  {
  }

  /** The evaluator accepts exactly the acceptable commands. */
  lemma AcceptedExactly(p: Projection, e: Envelope, now: nat)
    ensures Evaluate(p, e, now).Ok? <==> Acceptable(p, e, now)
  {
    hide Apply, Warranted, TakenIn, CommandAllowed, InLineage, LineageHolds, ExactlyProved, RequiredProofs, FoundProofs, Counted, Finish;
    StatesAgree(p.state, e.command);
    LineagesAgree(p, e.command, now);
    ProvedIsFound(e);
    if TakenIn(p.state, e.command) && InLineage(p, e.command, now) {
      match e.command
      case AdmitAction(_, _, _, _, _) => AdmissionAccepted(p, e, now);
      case ReserveExecution(_, _, _, _, _, _, _, _, _) => ReservationAccepted(p, e, now);
      case RecoverPermit(_) => PermitAccepted(p, e, now);
      case DeliverPermit(_, _) => PermitAccepted(p, e, now);
      case StartDispatch(_, _) => PermitAccepted(p, e, now);
      case CommitExecutionReceipt(_, _, _, _, _, _, _) => SettlingAccepted(p, e, now);
      case ReconcileExecution(_, _) => SettlingAccepted(p, e, now);
      case ExpireExecutionLease(_) => SettlingAccepted(p, e, now);
      case InvalidateRecord(_) => SettlingAccepted(p, e, now);
      case RecordOutcome(_, _) => OutcomeAccepted(p, e, now);
      case ProposeHumanModelCandidate(_, _, _) => CandidateAccepted(p, e, now);
      case RecordHumanModelPromotion(_, _, _, _) => PromotionAccepted(p, e, now);
      case CancelRun => CancellationAccepted(p, e, now);
      case CorrectHumanModelAssertion(_, _, _) => CorrectionAccepted(p, e, now);
      case PromoteHumanModelAssertion(_, _, _) => AssertionAccepted(p, e, now);
      case _ => RecordingAccepted(p, e, now);
    }
  }

  /** Where nothing else is wrong, an action is refused as not derived from the decision exactly when its derivation is another. */
  lemma ActionDerived(p: Projection, e: Envelope, now: nat)
    requires e.command.RecordAction? && e.domain == p.domain && e.expectedVersion == p.version
    requires TakenIn(p.state, e.command) && InLineage(p, e.command, now) && ExactlyProved(e)
    requires Usable(p, TurnCoordination, now) && Usable(p, Decision, now) && e.command.derivation.Some?
    requires p.decision.Some? && p.decision.value.ref == p.records[Decision]
    ensures Evaluate(p, e, now) == Err(ActionDerivationMismatch) <==> e.command.derivation.value != p.decision.value.derivation
  {
    hide TakenIn, CommandAllowed, InLineage, LineageHolds, ExactlyProved, RequiredProofs, FoundProofs;
    StatesAgree(p.state, e.command);
    LineagesAgree(p, e.command, now);
    ProvedIsFound(e);
  }

  // ---------------------------------------------------------------- what an accepted command leaves

  /** The record is the next revision of its kind, or the first under the fresh identifier, with the given window. */
  predicate NextOf(p: Projection, e: Envelope, ref: Ref, k: Kind, from: nat, until: nat) {
    && ref.kind == k && ref.domain == p.domain && ref.digest == e.minted.digest && ref.policy == e.minted.policy
    && ref.validFrom == from && ref.validUntil == until
    && (if k in p.records then ref.id == p.records[k].id && ref.revision == p.records[k].revision + 1
        else ref.id == e.minted.recordId && ref.revision == 1)
  }

  predicate IssuesNext(p: Projection, e: Envelope, d: Draft, k: Kind, s: Submission) {
    d.record.Some? && NextOf(p, e, d.record.value, k, s.validFrom, s.validUntil)
  }

  /** The execution is as it was, but for its state. */
  predicate NowIn(p: Projection, q: Projection, state: ExecutionState) {
    p.execution.Some? && q.execution == Some(p.execution.value.(state := state))
  }

  /** Where losing its authority leaves an execution: cancelled before dispatch, to be reconciled after. */
  function Lost(state: ExecutionState): ExecutionState {
    if state.DispatchStarted? || state.AwaitingProvider? then ReconciliationRequired else Cancelled
  }

  /** An execution that has not ended is lost. */
  predicate Stops(p: Projection, q: Projection) {
    if p.execution.None? || p.execution.value.state.IsTerminal() then q.execution == p.execution
    else NowIn(p, q, Lost(p.execution.value.state))
  }

  predicate Advances(p: Projection, q: Projection, to: ExecutionState, now: nat) {
    p.execution.Some? && NowIn(p, q, if InForce(p, p.execution.value, now) then to else Lost(p.execution.value.state))
  }

  /** The run's state after a receipt. */
  predicate ClosedAs(state: RunState, terminal: ExecutionState) {
    match terminal
    case Failed => state.RunFailed?
    case Rejected => state.RunRejected?
    case _ => state.RunSucceeded?
  }

  /** What each command leaves of its own: its record, its binding, the execution, the run's state. */
  predicate Effects(p: Projection, e: Envelope, now: nat, d: Draft) {
    var q := d.projection;
    match e.command
    case StartRun(s) => IssuesNext(p, e, d, CanonicalInput, s) && q.state.Running? && q.subject == Some(s.subject) && q.turn == Some(s.turn)
    case RecordContext(s) => IssuesNext(p, e, d, ContextSnapshot, s)
    case RecordIntent(s, outcome) => if outcome.Block? then d.record.None? && q.state.RunRejected? else IssuesNext(p, e, d, Intent, s) && q.state == p.state
    case RecordDecision(s, derivation) =>
      IssuesNext(p, e, d, Decision, s) && derivation.Some? && q.decision == Some(DecisionBinding(d.record.value, derivation.value))
    case RecordTurn(s, _) => IssuesNext(p, e, d, TurnCoordination, s)
    case RecordResponse(s, content) =>
      IssuesNext(p, e, d, Response, s) && content.Some? && q.response == Some(ResponseBinding(d.record.value, content.value))
    case ConsumeResponseSend(_, _, nonce) => d.record.None? && q.sendNonces == p.sendNonces + {nonce}
    case RecordAction(s, derivation) =>
      && IssuesNext(p, e, d, Action, s) && derivation.Some? && q.admission.None? && Stops(p, q)
      && q.action == Some(ActionBinding(
           d.record.value, derivation.value, RequestDigest(d.record.value, derivation.value.operation, derivation.value.parameterDigest)))
    case AdmitAction(actionRef, _, provider, owner, key) =>
      && d.record.Some? && q.admission.Some? && q.admission.value.ref == d.record.value
      && NextOf(p, e, d.record.value, ActionAdmissionDecision, now, q.admission.value.validUntil)
      && q.admission.value.provider == provider && q.admission.value.owner == owner && q.admission.value.actionRef == actionRef
      && q.admission.value.idempotencyKey == key
    case ReserveExecution(admissionRef, actionRef, _, provider, owner, key, attempt, lease, nonce) =>
      && d.record.None? && q.execution.Some?
      && var x := q.execution.value;
         && x.state.PermitIssued? && x.admissionRef == admissionRef && x.actionRef == actionRef && x.provider == provider && x.owner == owner
         && x.idempotencyKey == key && x.attempt == attempt && x.leaseUntil == lease == x.permitValidUntil && x.dispatchNonce == nonce
         && x.permitId == e.minted.permitId
         && (if p.execution.Some? && p.execution.value.actionRef == actionRef then x.reservationId == p.execution.value.reservationId
             else x.reservationId == e.minted.reservationId)
    case RecoverPermit(_) =>
      d.record.None? && p.execution.Some? && (if Overdue(p.execution.value, now) then NowIn(p, q, Expired) else q.execution == p.execution)
    case DeliverPermit(_, _) => d.record.None? && Advances(p, q, PermitDelivered, now)
    case StartDispatch(_, _) => d.record.None? && Advances(p, q, DispatchStarted, now)
    case CommitExecutionReceipt(s, _, _, _, _, _, receipt) =>
      && IssuesNext(p, e, d, ExecutionReceipt, s) && receipt.Some? && NowIn(p, q, receipt.value.terminal) && ClosedAs(q.state, receipt.value.terminal)
    case ReconcileExecution(_, _) => d.record.None? && q.execution == p.execution
    case ExpireExecutionLease(_) =>
      && d.record.None? && p.execution.Some?
      && NowIn(p, q, if p.execution.value.state.PermitIssued? || p.execution.value.state.PermitDelivered? then Expired else ReconciliationRequired)
    case InvalidateRecord(target) =>
      && d.record.None? && q.state.Invalidated? && q.invalidated == p.invalidated + {target}
      && (if p.execution.Some? && p.execution.value.actionRef.id == target.id then Stops(p, q) else q.execution == p.execution)
    case RecordOutcome(s, _) => IssuesNext(p, e, d, Outcome, s) && q.outcome == d.record
    case ProposeHumanModelCandidate(s, _, _) =>
      IssuesNext(p, e, d, HumanModelCandidate, s) && p.outcome.Some? && q.candidate == Some(CandidateBinding(d.record.value, p.outcome.value))
    case RecordHumanModelPromotion(s, sourceRef, outcome, _) =>
      && IssuesNext(p, e, d, HumanModelPromotionDecision, s) && outcome.Some? && p.candidate.Some?
      && q.promotion == Some(PromotionBinding(d.record.value, sourceRef, p.candidate.value.outcomeRef, outcome.value))
    case PromoteHumanModelAssertion(_, _, _) =>
      d.record.Some? && NextOf(p, e, d.record.value, HumanModelAssertion, now, d.record.value.validUntil)
    case CorrectHumanModelAssertion(assertionRef, s, _) =>
      && d.record.Some? && d.record.value.kind.HumanModelAssertion? && d.record.value.id == assertionRef.id
      && d.record.value.revision == assertionRef.revision + 1
      && d.record.value.validFrom == s.validFrom && d.record.value.validUntil == s.validUntil
      && q.invalidated == p.invalidated + {assertionRef}
    case CancelRun => d.record.None? && q.state.RunCancelled?
  }

  lemma RecordingLeaves(p: Projection, e: Envelope, now: nat)
    requires
      || e.command.StartRun? || e.command.RecordContext? || e.command.RecordIntent? || e.command.RecordDecision?
      || e.command.RecordTurn? || e.command.RecordResponse? || e.command.ConsumeResponseSend? || e.command.RecordAction?
    requires Apply(Counted(p), e, now).Ok?
    ensures Effects(p, e, now, Apply(Counted(p), e, now).value)
  {
    hide CurrentAt, ExactCurrentAt;
  }

  lemma AdmissionLeaves(p: Projection, e: Envelope, now: nat)
    requires (e.command.AdmitAction? || e.command.ReserveExecution?) && Apply(Counted(p), e, now).Ok?
    ensures Effects(p, e, now, Apply(Counted(p), e, now).value)
  {
    hide ProofOfKind, EarliestExpiry, ExactCurrentAt;
  }

  lemma PermitLeaves(p: Projection, e: Envelope, now: nat)
    requires e.command.RecoverPermit? || e.command.DeliverPermit? || e.command.StartDispatch?
    requires Apply(Counted(p), e, now).Ok?
    ensures Effects(p, e, now, Apply(Counted(p), e, now).value)
  {
  }

  lemma SettlingLeaves(p: Projection, e: Envelope, now: nat)
    requires
      e.command.CommitExecutionReceipt? || e.command.ReconcileExecution? || e.command.ExpireExecutionLease? || e.command.InvalidateRecord?
    requires Apply(Counted(p), e, now).Ok?
    ensures Effects(p, e, now, Apply(Counted(p), e, now).value)
  {
  }

  lemma LearningLeaves(p: Projection, e: Envelope, now: nat)
    requires
      || e.command.RecordOutcome? || e.command.ProposeHumanModelCandidate? || e.command.RecordHumanModelPromotion?
      || e.command.PromoteHumanModelAssertion? || e.command.CorrectHumanModelAssertion? || e.command.CancelRun?
    requires Apply(Counted(p), e, now).Ok?
    ensures Effects(p, e, now, Apply(Counted(p), e, now).value)
  {
    hide EarliestExpiry, ExactCurrentAt, HistoricalEvidence, GovernanceTarget, Names;
  }

  lemma FinishLeaves(p: Projection, e: Envelope, now: nat, d: Draft)
    requires Effects(p, e, now, d)
    ensures Effects(p, e, now, Finish(d))
  {
    hide NextOf;
  }

  /** And it leaves exactly that, besides what all commands do alike. */
  lemma AcceptedLeaves(p: Projection, e: Envelope, now: nat)
    requires Evaluate(p, e, now).Ok?
    ensures Effects(p, e, now, Evaluate(p, e, now).value)
  {
    hide Apply, Effects, CommandAllowed, LineageHolds, RequiredProofs, FoundProofs, Counted, Finish;
    match e.command {
      case AdmitAction(_, _, _, _, _) => AdmissionLeaves(p, e, now);
      case ReserveExecution(_, _, _, _, _, _, _, _, _) => AdmissionLeaves(p, e, now);
      case RecoverPermit(_) => PermitLeaves(p, e, now);
      case DeliverPermit(_, _) => PermitLeaves(p, e, now);
      case StartDispatch(_, _) => PermitLeaves(p, e, now);
      case CommitExecutionReceipt(_, _, _, _, _, _, _) => SettlingLeaves(p, e, now);
      case ReconcileExecution(_, _) => SettlingLeaves(p, e, now);
      case ExpireExecutionLease(_) => SettlingLeaves(p, e, now);
      case InvalidateRecord(_) => SettlingLeaves(p, e, now);
      case RecordOutcome(_, _) => LearningLeaves(p, e, now);
      case ProposeHumanModelCandidate(_, _, _) => LearningLeaves(p, e, now);
      case RecordHumanModelPromotion(_, _, _, _) => LearningLeaves(p, e, now);
      case PromoteHumanModelAssertion(_, _, _) => LearningLeaves(p, e, now);
      case CorrectHumanModelAssertion(_, _, _) => LearningLeaves(p, e, now);
      case CancelRun => LearningLeaves(p, e, now);
      case _ => RecordingLeaves(p, e, now);
    }
    FinishLeaves(p, e, now, Apply(Counted(p), e, now).value);
  }
}
