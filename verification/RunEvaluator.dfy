/**
  The command evaluator as the runtime runs it: check after check, updating its own copy of
  the projection field by field, and proved to compute the transition function and what its
  acceptance means.
 */
module RunEvaluator {
  import opened Wrappers
  import opened Contracts
  import opened RunModel
  import opened RunTables
  import opened RunDrafts
  import opened RunSafety
  import opened RunEffects
  import opened RunLapses
  import RunAcceptance

  /** Issues a submitted record of kind `k`. */
  method IssueRecord(q: Projection, s: Submission, k: Kind, m: Minted, now: nat) returns (r: Result<Ref, RunError>)
    ensures r == Issue(q, s, k, m, now)
    ensures r.Ok? ==> r.value.kind == k && r.value.validFrom <= now < r.value.validUntil && Follows(q, r.value)
  {
    var id, revision := m.recordId, 1;
    if k in q.records {
      id, revision := q.records[k].id, q.records[k].revision + 1;
    }
    if revision > MAX_REVISION {
      return Err(AggregateVersionConflict);
    }
    if now < s.validFrom || now >= s.validUntil {
      return Err(ExpiredAuthority);
    }
    r := Ok(Ref(id, revision, k, q.domain, s.validFrom, s.validUntil, m.digest, m.policy));
  }

  method IssueInternalRecord(q: Projection, k: Kind, m: Minted, now: nat, until: nat) returns (r: Result<Ref, RunError>)
    ensures r == Internal(q, k, m, now, until)
    ensures r.Ok? ==> r.value.kind == k && r.value.validFrom <= now < r.value.validUntil && Follows(q, r.value)
  {
    var id, revision := m.recordId, 1;
    if k in q.records {
      id, revision := q.records[k].id, q.records[k].revision + 1;
    }
    if revision > MAX_REVISION {
      return Err(AggregateVersionConflict);
    }
    if until <= now {
      return Err(ExpiredAuthority);
    }
    if q.subject.None? || q.turn.None? {
      return Err(MissingDependency);
    }
    r := Ok(Ref(id, revision, k, q.domain, now, until, m.digest, m.policy));
  }

  // ---------------------------------------------------------------- recording

  /** Whatever is submitted later belongs to the subject and turn of `s`. */
  ghost predicate BoundTo(p: Projection, s: Submission) {
    forall c: Command, later: nat :: Submitted(c).Some? && !c.StartRun? && LineageHolds(p, c, later) ==>
      Submitted(c).value.subject == s.subject && Submitted(c).value.turn == s.turn
  }

  /** No permit is under way, and none can be issued before another admission. */
  predicate Unexecuted(p: Projection) {
    p.admission.None? && (p.execution.Some? ==> !p.execution.value.state.InFlight())
  }

  method RecordPlainly(q: Projection, s: Submission, k: Kind, m: Minted, now: nat) returns (r: Result<Draft, RunError>)
    ensures r == ApplyPlain(q, s, k, m, now)
    ensures r.Ok? && r.value.record.value !in q.invalidated ==> CurrentAt(Finish(r.value).projection, k, now)
  {
    var issued := IssueRecord(q, s, k, m, now);
    if issued.Err? {
      return Err(issued.error);
    }
    r := Ok(Draft(q, Some(issued.value), RecordWasIssued(k)));
  }

  method Start(p: Projection, s: Submission, m: Minted, now: nat) returns (r: Result<Draft, RunError>)
    ensures r == ApplyStart(p, s, m, now)
    ensures r.Ok? && Sound(p) ==> GoodDraft(p, StartRun(s), Finish(r.value), now)
    ensures r.Ok? ==> BoundTo(r.value.projection, s)
  {
    hide GoodDraft, Sound;
    if Sound(p) && ApplyStart(p, s, m, now).Ok? {
      StartGood(p, StartRun(s), m, now);
    }
    var q := p;
    if !q.state.Pending? || CanonicalInput in q.records {
      return Err(InvalidRunTransition);
    }
    q := q.(state := Running);
    q := q.(subject := Some(s.subject));
    q := q.(turn := Some(s.turn));
    r := RecordPlainly(q, s, CanonicalInput, m, now);
  }

  method Decide(
    p: Projection, s: Submission, derivation: Option<Derivation>, m: Minted, now: nat) returns (r: Result<Draft, RunError>)
    ensures r == ApplyDecision(p, s, derivation, m, now)
    ensures r.Ok? && Sound(p) ==> GoodDraft(p, RecordDecision(s, derivation), Finish(r.value), now)
  {
    hide GoodDraft, Sound;
    if Sound(p) && ApplyDecision(p, s, derivation, m, now).Ok? {
      DecisionGood(p, RecordDecision(s, derivation), m, now);
    }
    var q := p;
    if !CurrentAt(q, Intent, now) {
      return Err(MissingDependency);
    }
    if derivation.None? {
      return Err(BindingMismatch);
    }
    var issued := IssueRecord(q, s, Decision, m, now);
    if issued.Err? {
      return Err(issued.error);
    }
    q := q.(decision := Some(DecisionBinding(issued.value, derivation.value)));
    r := Ok(Draft(q, Some(issued.value), RecordWasIssued(Decision)));
  }

  method Respond(
    p: Projection, s: Submission, content: Option<ResponseContent>, m: Minted, now: nat) returns (r: Result<Draft, RunError>)
    ensures r == ApplyResponse(p, s, content, m, now)
    ensures r.Ok? && Sound(p) ==> GoodDraft(p, RecordResponse(s, content), Finish(r.value), now)
  {
    hide GoodDraft, Sound;
    if Sound(p) && ApplyResponse(p, s, content, m, now).Ok? {
      ResponseGood(p, RecordResponse(s, content), m, now);
    }
    var q := p;
    if !CurrentAt(q, TurnCoordination, now) {
      return Err(MissingDependency);
    }
    if content.None? {
      return Err(BindingMismatch);
    }
    var issued := IssueRecord(q, s, Response, m, now);
    if issued.Err? {
      return Err(issued.error);
    }
    q := q.(response := Some(ResponseBinding(issued.value, content.value)));
    r := Ok(Draft(q, Some(issued.value), RecordWasIssued(Response)));
  }

  method Send(
    p: Projection, ref: Ref, sent: ResponseContent, nonce: string, now: nat) returns (r: Result<Draft, RunError>)
    ensures r == ApplySend(p, ref, sent, nonce, now)
    ensures r.Ok? ==> nonce !in p.sendNonces
    ensures r.Ok? ==> forall other: Ref, content: ResponseContent, later: nat ::
      ApplySend(r.value.projection, other, content, nonce, later).Err?
  {
    var q := p;
    if !ExactCurrentAt(q, ref, now) {
      return Err(MissingDependency);
    }
    if q.response.None? {
      return Err(MissingDependency);
    }
    var binding := q.response.value;
    if binding.ref != ref || binding.content != sent {
      return Err(BindingMismatch);
    }
    if nonce in q.sendNonces {
      return Err(ProofReplay);
    }
    q := q.(sendNonces := q.sendNonces + {nonce});
    r := Ok(Draft(q, None, OtherEvent("response_send_permit_consumed")));
  }

  method Act(
    p: Projection, s: Submission, derivation: Option<Derivation>, m: Minted, now: nat) returns (r: Result<Draft, RunError>)
    ensures r == ApplyAction(p, s, derivation, m, now)
    ensures r.Ok? && Sound(p) ==> GoodDraft(p, RecordAction(s, derivation), Finish(r.value), now)
    ensures r.Ok? ==> Unexecuted(r.value.projection)
  {
    hide GoodDraft, Sound;
    if Sound(p) && ApplyAction(p, s, derivation, m, now).Ok? {
      ActionGood(p, RecordAction(s, derivation), m, now);
    }
    var q := p;
    if !CurrentAt(q, TurnCoordination, now) || !CurrentAt(q, Decision, now) {
      return Err(MissingDependency);
    }
    if derivation.None? {
      return Err(BindingMismatch);
    }
    if q.decision.None? || q.records[Decision] != q.decision.value.ref {
      return Err(MissingDependency);
    }
    if q.decision.value.derivation != derivation.value {
      return Err(ActionDerivationMismatch);
    }
    var issued := IssueRecord(q, s, Action, m, now);
    if issued.Err? {
      return Err(issued.error);
    }
    var d := derivation.value;
    q := q.(action := Some(ActionBinding(issued.value, d, RequestDigest(issued.value, d.operation, d.parameterDigest))));
    if q.execution.Some? && !q.execution.value.state.IsTerminal() {
      var x := q.execution.value;
      if x.state.DispatchStarted? || x.state.AwaitingProvider? {
        x := x.(state := ReconciliationRequired);
      } else {
        x := x.(state := Cancelled);
      }
      q := q.(execution := Some(x));
    }
    q := q.(admission := None);
    r := Ok(Draft(q, Some(issued.value), RecordWasIssued(Action)));
  }

  /** The earliest of the bound and every proof's expiry. */
  method ScanExpiries(proofs: seq<Proof>, bound: nat) returns (earliest: nat)
    ensures earliest == EarliestExpiry(proofs, bound)
    ensures earliest <= bound && forall i :: 0 <= i < |proofs| ==> earliest <= proofs[i].expiresAt
    ensures earliest == bound || exists i :: 0 <= i < |proofs| && earliest == proofs[i].expiresAt
  {
    earliest := bound;
    var i := 0;
    while i < |proofs|
      invariant i <= |proofs| && earliest == EarliestExpiry(proofs[..i], bound) <= bound
      invariant forall j :: 0 <= j < i ==> earliest <= proofs[j].expiresAt
      invariant earliest == bound || exists j :: 0 <= j < i && earliest == proofs[j].expiresAt
    {
      assert proofs[..i + 1][..i] == proofs[..i];
      if proofs[i].expiresAt < earliest {
        earliest := proofs[i].expiresAt;
      }
      i := i + 1;
    }
    assert proofs[..i] == proofs;
  }

  /** A record ends no later than any of its proofs. */
  predicate OutlastedBy(ref: Ref, proofs: seq<Proof>) {
    forall i :: 0 <= i < |proofs| ==> ref.validUntil <= proofs[i].expiresAt
  }

  method Admit(p: Projection, c: Command, proofs: seq<Proof>, m: Minted, now: nat) returns (r: Result<Draft, RunError>)
    requires c.AdmitAction?
    ensures r == ApplyAdmit(p, c.actionRef, c.actionDigest, c.provider, c.owner, c.idempotencyKey, proofs, m, now)
    ensures r.Ok? ==>
      && r.value.record.Some? && OutlastedBy(r.value.record.value, proofs)
      && r.value.record.value.validUntil <= c.actionRef.validUntil
  {
    hide ProofOfKind, EarliestExpiry;
    var q := p;
    if !ExactCurrentAt(q, c.actionRef, now) {
      return Err(MissingDependency);
    }
    var authorization := ProofOfKind(proofs, ExactAuthorization, q.domain);
    if ProofOfKind(proofs, Capability, q.domain).None? || ProofOfKind(proofs, Authority, q.domain).None?
      || ProofOfKind(proofs, Policy, q.domain).None? || authorization.None? || ProofOfKind(proofs, ActionAdmission, q.domain).None?
    {
      return Err(MissingRequiredProof);
    }
    var until := ScanExpiries(proofs, Minimum(c.actionRef.validUntil, authorization.value.expiresAt));
    if c.actionRef.digest != c.actionDigest || until <= now || c.idempotencyKey == "" {
      return Err(BindingMismatch);
    }
    if q.action.None? || q.action.value.ref != c.actionRef {
      return Err(ActionDerivationMismatch);
    }
    var issued := IssueInternalRecord(q, ActionAdmissionDecision, m, now, until);
    if issued.Err? {
      return Err(issued.error);
    }
    var a := q.action.value;
    q := q.(admission := Some(Admission(
      issued.value, c.actionRef, c.provider, c.owner, a.derivation.operation, a.derivation.parameterDigest, a.request,
      c.idempotencyKey, authorization.value.id, authorization.value.expiresAt, until)));
    r := Ok(Draft(q, Some(issued.value), RecordWasIssued(ActionAdmissionDecision)));
  }

  // ---------------------------------------------------------------- executions

  method Reserve(
    p: Projection, c: Command, caller: Reference, proofs: seq<Proof>, m: Minted, now: nat) returns (r: Result<Draft, RunError>)
    requires c.ReserveExecution?
    ensures r == ApplyReserve(p, c, caller, proofs, m, now)
    ensures r.Ok? ==> r.value.projection.execution.Some? && FollowsAttempt(p.execution, r.value.projection.execution.value)
  {
    hide ProofOfKind;
    var q := p;
    if !ExactCurrentAt(q, c.actionRef, now) || !ExactCurrentAt(q, c.admissionRef, now) {
      return Err(MissingDependency);
    }
    if caller != c.owner {
      return Err(PrincipalMismatch);
    }
    var permit := ProofOfKind(proofs, ExecutionPermit, q.domain);
    if permit.None? {
      return Err(MissingRequiredProof);
    }
    if q.admission.None? {
      return Err(ActionNotAdmitted);
    }
    var a := q.admission.value;
    var until := c.leaseUntil;
    if c.actionRef.validUntil < until { until := c.actionRef.validUntil; }
    if c.admissionRef.validUntil < until { until := c.admissionRef.validUntil; }
    if a.authorizationValidUntil < until { until := a.authorizationValidUntil; }
    if permit.value.expiresAt < until { until := permit.value.expiresAt; }
    if !c.admissionRef.kind.ActionAdmissionDecision? || a.ref != c.admissionRef || a.actionRef != c.actionRef
      || a.provider != c.provider || a.owner != c.owner || a.idempotencyKey != c.idempotencyKey
      || a.validUntil != c.admissionRef.validUntil || c.actionRef.digest != c.actionDigest
      || now >= a.authorizationValidUntil || c.attempt == 0 || c.leaseUntil <= now || c.leaseUntil > until || c.idempotencyKey == ""
    {
      return Err(ActionNotAdmitted);
    }
    var reservationId := m.reservationId;
    if q.execution.Some? {
      var x := q.execution.value;
      if x.actionRef == c.actionRef {
        if !(x.state.Failed? || x.state.Rejected? || x.state.Expired?) || x.attempt >= MAX_ATTEMPT
          || c.attempt != x.attempt + 1 || x.idempotencyKey != c.idempotencyKey
        {
          return Err(ExecutionAlreadyReserved);
        }
        reservationId := x.reservationId;
      } else if !x.state.Cancelled? || c.attempt != 1 {
        return Err(ExecutionAlreadyReserved);
      }
    } else if c.attempt != 1 {
      return Err(InvalidExecutionTransition);
    }
    q := q.(execution := Some(Execution(
      reservationId, c.admissionRef, c.actionRef, c.provider, c.owner, a.operation, a.parameterDigest, a.request,
      c.idempotencyKey, c.attempt, m.permitId, a.authorizationProof, c.actionRef.validUntil, c.admissionRef.validUntil,
      a.authorizationValidUntil, until, c.leaseUntil, c.dispatchNonce, PermitIssued)));
    r := Ok(Draft(q, None, PermitWasIssued(m.permitId)));
  }

  method Recover(p: Projection, reservationId: Id, caller: Reference, now: nat) returns (r: Result<Draft, RunError>)
    ensures r == ApplyRecover(p, reservationId, caller, now)
    ensures r.Ok? ==>
      && AwaitsDispatch(p) && caller == p.execution.value.owner
      && (if Lapsed(p, now) then r.value.projection.execution == Some(p.execution.value.(state := Expired))
          else r.value.projection == p)
  {
    var q := p;
    if q.execution.None? || q.execution.value.reservationId != reservationId {
      return Err(InvalidExecutionTransition);
    }
    var x := q.execution.value;
    if caller != x.owner {
      return Err(PrincipalMismatch);
    }
    if x.state.DispatchStarted? || x.state.AwaitingProvider? || x.state.ReconciliationRequired? {
      return Err(ExecutionRequiresReconciliation);
    }
    if !x.state.PermitIssued? && !x.state.PermitDelivered? {
      return Err(InvalidExecutionTransition);
    }
    var event := OtherEvent("execution_permit_recovered");
    if AuthorityExpired(x, now) {
      x := x.(state := Expired);
      q := q.(execution := Some(x));
      event := OtherEvent("execution_lease_expired");
    }
    r := Ok(Draft(q, None, event));
  }

  /** The execution's action is the live one and its lease has not ended. */
  predicate LiveWithinLease(p: Projection, now: nat) {
    p.execution.Some? && Live(p, Action) && p.records[Action] == p.execution.value.actionRef && now < p.execution.value.leaseUntil
  }

  /** Stops the execution, and says so, unless its action is current and every window is open. */
  method EnsureCurrentExecutionAction(p: Projection, reservationId: Id, permitId: Id, now: nat)
    returns (found: bool, current: bool, q: Projection)
    ensures found <==> p.execution.Some? && p.execution.value.reservationId == reservationId && p.execution.value.permitId == permitId
    ensures found ==> (current <==> AuthorityIsCurrent(p, p.execution.value, now))
    ensures found && current ==> LiveWithinLease(p, now)
    ensures found ==> q == if current then p else WithState(p, p.execution.value, p.execution.value.state.AfterLoss())
  {
    q := p;
    if q.execution.None? || q.execution.value.reservationId != reservationId || q.execution.value.permitId != permitId {
      return false, false, q;
    }
    var x := q.execution.value;
    found := true;
    current := Action in q.records && q.records[Action] == x.actionRef && x.actionRef !in q.invalidated && !AuthorityExpired(x, now);
    if !current {
      if x.state.DispatchStarted? || x.state.AwaitingProvider? {
        x := x.(state := ReconciliationRequired);
      } else {
        x := x.(state := Cancelled);
      }
      q := q.(execution := Some(x));
    }
  }

  predicate Holds(p: Projection, reservationId: Id, permitId: Id) {
    p.execution.Some? && p.execution.value.reservationId == reservationId && p.execution.value.permitId == permitId
  }

  lemma AdvanceRefused(
    p: Projection, reservationId: Id, permitId: Id, caller: Reference, from: ExecutionState, to: ExecutionState, event: Event, now: nat)
    ensures !Holds(p, reservationId, permitId) ==>
      ApplyAdvance(p, reservationId, permitId, caller, from, to, event, now) == Err(InvalidExecutionTransition)
    ensures Holds(p, reservationId, permitId) && caller != p.execution.value.provider ==>
      ApplyAdvance(p, reservationId, permitId, caller, from, to, event, now) == Err(PrincipalMismatch)
  {
    hide AuthorityIsCurrent, WithState;
  }

  lemma AdvanceHeld(
    p: Projection, reservationId: Id, permitId: Id, caller: Reference, from: ExecutionState, to: ExecutionState, event: Event, now: nat)
    requires Holds(p, reservationId, permitId) && caller == p.execution.value.provider
    ensures
      var x := p.execution.value;
      ApplyAdvance(p, reservationId, permitId, caller, from, to, event, now) ==
        if !AuthorityIsCurrent(p, x, now) then
          Ok(Draft(WithState(p, x, x.state.AfterLoss()), None, OtherEvent("execution_invalid_authority")))
        else if x.state != from then Err(InvalidExecutionTransition)
        else Ok(Draft(WithState(p, x, to), None, event))
  {
    hide AuthorityIsCurrent, WithState;
  }

  method Advance(
    p: Projection, reservationId: Id, permitId: Id, caller: Reference, from: ExecutionState, to: ExecutionState, event: Event, now: nat)
    returns (r: Result<Draft, RunError>)
    ensures r == ApplyAdvance(p, reservationId, permitId, caller, from, to, event, now)
    ensures r.Ok? && r.value.event == event != OtherEvent("execution_invalid_authority") ==>
      LiveWithinLease(p, now) && p.execution.value.state == from
  {
    hide AuthorityIsCurrent, LiveWithinLease, WithState, ApplyAdvance;
    AdvanceRefused(p, reservationId, permitId, caller, from, to, event, now);
    if !Holds(p, reservationId, permitId) {
      return Err(InvalidExecutionTransition);
    }
    if caller != p.execution.value.provider {
      return Err(PrincipalMismatch);
    }
    AdvanceHeld(p, reservationId, permitId, caller, from, to, event, now);
    var found, current, q := EnsureCurrentExecutionAction(p, reservationId, permitId, now);
    if !current {
      return Ok(Draft(q, None, OtherEvent("execution_invalid_authority")));
    }
    if q.execution.value.state != from {
      return Err(InvalidExecutionTransition);
    }
    r := Ok(Draft(WithState(q, q.execution.value, to), None, event));
  }

  method CommitReceipt(
    p: Projection, c: Command, caller: Reference, m: Minted, now: nat) returns (r: Result<Draft, RunError>)
    requires c.CommitExecutionReceipt?
    ensures r == ApplyReceipt(p, c, caller, m, now)
    ensures r.Ok? ==> Outstanding(p) && Settles(p, Finish(r.value).projection, c)
  {
    if Outstanding(p) && ApplyReceipt(p, c, caller, m, now).Ok? {
      ReceiptSettles(p, c, caller, m, now);
    }
    var q := p;
    if NextRevision(q, ExecutionReceipt) > MAX_REVISION {
      return Err(AggregateVersionConflict);
    }
    if q.execution.None? || q.execution.value.reservationId != c.reservationId || q.execution.value.permitId != c.permitId {
      return Err(InvalidExecutionTransition);
    }
    var x := q.execution.value;
    var actionInvalidated := x.actionRef in q.invalidated;
    if caller != x.provider {
      return Err(PrincipalMismatch);
    }
    if !(x.state.DispatchStarted? || x.state.AwaitingProvider? || x.state.ReconciliationRequired?)
      || x.provider != c.provider || x.dispatchNonce != c.dispatchNonce || x.attempt != c.attempt
    {
      return Err(BindingMismatch);
    }
    if c.receipt.None? {
      return Err(BindingMismatch);
    }
    var receipt := c.receipt.value;
    if receipt.permitId != c.permitId || receipt.provider != c.provider || receipt.dispatchNonce != c.dispatchNonce
      || receipt.attempt != c.attempt || receipt.actionInvalidated != actionInvalidated || receipt.request != x.request
      || !(receipt.terminal.Succeeded? || receipt.terminal.Failed? || receipt.terminal.Rejected? || receipt.terminal.Compensated?)
    {
      return Err(BindingMismatch);
    }
    var issued := IssueRecord(q, c.submission, ExecutionReceipt, m, now);
    if issued.Err? {
      return Err(issued.error);
    }
    x := x.(state := receipt.terminal);
    q := q.(execution := Some(x));
    match x.state {
      case Failed => q := q.(state := RunFailed);
      case Rejected => q := q.(state := RunRejected);
      case _ => q := q.(state := RunSucceeded);
    }
    r := Ok(Draft(q, Some(issued.value), RecordWasIssued(ExecutionReceipt)));
  }

  method Reconcile(
    p: Projection, reservationId: Id, unknown: bool, caller: Reference) returns (r: Result<Draft, RunError>)
    ensures r == ApplyReconcile(p, reservationId, unknown, caller)
    ensures r.Ok? ==> r.value.projection == p && Outstanding(p)
  {
    var q := p;
    if q.execution.None? || q.execution.value.reservationId != reservationId {
      return Err(InvalidExecutionTransition);
    }
    var x := q.execution.value;
    if caller != x.provider {
      return Err(PrincipalMismatch);
    }
    if !x.state.ReconciliationRequired? {
      return Err(InvalidExecutionTransition);
    }
    if !unknown {
      return Err(BindingMismatch);
    }
    x := x.(state := ReconciliationRequired);
    q := q.(execution := Some(x));
    r := Ok(Draft(q, None, OtherEvent("execution_reconciliation_still_unknown")));
  }

  method ExpireLease(p: Projection, reservationId: Id, caller: Reference, now: nat) returns (r: Result<Draft, RunError>)
    ensures r == ApplyExpire(p, reservationId, caller, now)
    ensures r.Ok? ==>
      && SameAttempt(p, r.value.projection) && caller == p.execution.value.owner
      && (Lapsed(p, now) || Outstanding(p))
      && (Lapsed(p, now) <==> r.value.projection.execution.value.state.Expired?)
      && (Outstanding(p) <==> Outstanding(r.value.projection))
  {
    var q := p;
    if q.execution.None? || q.execution.value.reservationId != reservationId {
      return Err(InvalidExecutionTransition);
    }
    var x := q.execution.value;
    if caller != x.owner {
      return Err(PrincipalMismatch);
    }
    if !AuthorityExpired(x, now) {
      return Err(InvalidExecutionTransition);
    }
    var event: Event;
    if x.state.PermitIssued? || x.state.PermitDelivered? {
      x := x.(state := Expired);
      event := OtherEvent("execution_lease_expired_before_dispatch");
    } else if x.state.DispatchStarted? || x.state.AwaitingProvider? {
      x := x.(state := ReconciliationRequired);
      event := OtherEvent("execution_lease_expired_after_dispatch");
    } else {
      return Err(InvalidExecutionTransition);
    }
    q := q.(execution := Some(x));
    r := Ok(Draft(q, None, event));
  }

  // ---------------------------------------------------------------- governance and learning

  method Invalidate(p: Projection, target: Ref) returns (r: Result<Draft, RunError>)
    ensures r == ApplyInvalidate(p, target)
    ensures r.Ok? ==>
      var t := r.value.projection;
      && IsLive(p, target) && !Live(t, target.kind)
      && (t.execution.Some? && t.execution.value.actionRef == target ==> !t.execution.value.state.InFlight())
  {
    var q := p;
    if !GovernanceTarget(q, target) {
      return Err(MissingDependency);
    }
    q := q.(invalidated := q.invalidated + {target});
    if q.execution.Some? {
      var x := q.execution.value;
      if x.actionRef.id == target.id && !x.state.IsTerminal() {
        if x.state.DispatchStarted? || x.state.AwaitingProvider? {
          x := x.(state := ReconciliationRequired);
        } else {
          x := x.(state := Cancelled);
        }
        q := q.(execution := Some(x));
      }
    }
    q := q.(state := Invalidated);
    r := Ok(Draft(q, None, OtherEvent("record_invalidated")));
  }

  method Observe(
    p: Projection, s: Submission, observed: Option<nat>, m: Minted, now: nat) returns (r: Result<Draft, RunError>)
    ensures r == ApplyOutcome(p, s, observed, m, now)
    ensures r.Ok? && Sound(p) ==> GoodDraft(p, RecordOutcome(s, observed), Finish(r.value), now)
  {
    hide GoodDraft, Sound;
    if Sound(p) && ApplyOutcome(p, s, observed, m, now).Ok? {
      OutcomeGood(p, RecordOutcome(s, observed), m, now);
    }
    var q := p;
    if ExecutionReceipt !in q.records {
      return Err(MissingDependency);
    }
    var receipt := q.records[ExecutionReceipt];
    if !HistoricalEvidence(q, receipt, now, RECEIPT_OUTCOME_WINDOW) {
      return Err(MissingDependency);
    }
    if observed != Some(receipt.digest) {
      return Err(BindingMismatch);
    }
    var issued := IssueRecord(q, s, Outcome, m, now);
    if issued.Err? {
      return Err(issued.error);
    }
    q := q.(outcome := Some(issued.value));
    r := Ok(Draft(q, Some(issued.value), RecordWasIssued(Outcome)));
  }

  method Propose(p: Projection, s: Submission, named: Option<Ref>, wellFormed: bool, m: Minted, now: nat) returns (r: Result<Draft, RunError>)
    ensures r == ApplyPropose(p, s, named, wellFormed, m, now)
    ensures r.Ok? && Sound(p) ==> GoodDraft(p, ProposeHumanModelCandidate(s, named, wellFormed), Finish(r.value), now)
  {
    hide GoodDraft, Sound;
    if Sound(p) && ApplyPropose(p, s, named, wellFormed, m, now).Ok? {
      ProposeGood(p, ProposeHumanModelCandidate(s, named, wellFormed), m, now);
    }
    var q := p;
    if q.outcome.None? {
      return Err(MissingDependency);
    }
    var outcome := q.outcome.value;
    if !HistoricalEvidence(q, outcome, now, OUTCOME_HUMAN_MODEL_WINDOW) {
      return Err(MissingDependency);
    }
    if !Names(named, outcome) || !wellFormed {
      return Err(BindingMismatch);
    }
    var issued := IssueRecord(q, s, HumanModelCandidate, m, now);
    if issued.Err? {
      return Err(issued.error);
    }
    q := q.(candidate := Some(CandidateBinding(issued.value, outcome)));
    r := Ok(Draft(q, Some(issued.value), RecordWasIssued(HumanModelCandidate)));
  }

  method DecidePromotion(p: Projection, c: Command, m: Minted, now: nat) returns (r: Result<Draft, RunError>)
    requires c.RecordHumanModelPromotion?
    ensures r == ApplyPromotion(p, c, m, now)
    ensures r.Ok? && Sound(p) ==> GoodDraft(p, c, Finish(r.value), now)
  {
    hide GoodDraft, Sound;
    if Sound(p) && ApplyPromotion(p, c, m, now).Ok? {
      PromotionGood(p, c, m, now);
    }
    var q := p;
    if !ExactCurrentAt(q, c.sourceRef, now) {
      return Err(MissingDependency);
    }
    if !c.sourceRef.kind.HumanModelCandidate? {
      return Err(BindingMismatch);
    }
    if q.candidate.None? || q.candidate.value.ref != c.sourceRef {
      return Err(MissingDependency);
    }
    var source := q.candidate.value;
    if c.promotionOutcome.None? || !Names(c.namedOutcome, source.outcomeRef) {
      return Err(BindingMismatch);
    }
    var issued := IssueRecord(q, c.submission, HumanModelPromotionDecision, m, now);
    if issued.Err? {
      return Err(issued.error);
    }
    q := q.(promotion := Some(PromotionBinding(issued.value, c.sourceRef, source.outcomeRef, c.promotionOutcome.value)));
    r := Ok(Draft(q, Some(issued.value), RecordWasIssued(HumanModelPromotionDecision)));
  }

  method Promote(
    p: Projection, c: Command, proofs: seq<Proof>, m: Minted, now: nat) returns (r: Result<Draft, RunError>)
    requires c.PromoteHumanModelAssertion?
    ensures r == ApplyPromote(p, c, proofs, m, now)
    ensures r.Ok? && Sound(p) ==> GoodDraft(p, c, Finish(r.value), now)
    ensures r.Ok? ==> OutlastedBy(r.value.record.value, proofs)
  {
    hide GoodDraft, Sound, EarliestExpiry;
    if Sound(p) && ApplyPromote(p, c, proofs, m, now).Ok? {
      PromoteGood(p, c, proofs, m, now);
    }
    if !ExactCurrentAt(p, c.promotionRef, now) {
      return Err(MissingDependency);
    }
    if !c.promotionRef.kind.HumanModelPromotionDecision? {
      return Err(BindingMismatch);
    }
    if p.promotion.None? || p.promotion.value.ref != c.promotionRef || !p.promotion.value.outcome.Promotes() {
      return Err(BindingMismatch);
    }
    var promotion := p.promotion.value;
    if p.candidate.None? || p.candidate.value.ref != promotion.sourceRef {
      return Err(MissingDependency);
    }
    if !c.wellFormed {
      return Err(BindingMismatch);
    }
    var until := ScanExpiries(
      proofs, Minimum(c.submission.validUntil, Minimum(promotion.ref.validUntil, promotion.sourceRef.validUntil)));
    var issued := IssueInternalRecord(p, HumanModelAssertion, m, now, until);
    if issued.Err? {
      return Err(issued.error);
    }
    r := Ok(Draft(p, Some(issued.value), RecordWasIssued(HumanModelAssertion)));
  }

  method Correct(p: Projection, c: Command, m: Minted, now: nat) returns (r: Result<Draft, RunError>)
    requires c.CorrectHumanModelAssertion?
    ensures r == ApplyCorrection(p, c, m, now)
    ensures r.Ok? && Sound(p) ==> GoodDraft(p, c, Finish(r.value), now)
    ensures r.Ok? ==> IsLive(p, c.assertionRef) && !IsLive(Finish(r.value).projection, c.assertionRef)
  {
    hide GoodDraft, Sound;
    if Sound(p) && ApplyCorrection(p, c, m, now).Ok? {
      CorrectionGood(p, c, m, now);
    }
    var q := p;
    if !GovernanceTarget(q, c.assertionRef) {
      return Err(MissingDependency);
    }
    if !c.wellFormed {
      return Err(BindingMismatch);
    }
    if c.assertionRef.revision >= MAX_REVISION {
      return Err(AggregateVersionConflict);
    }
    var s := c.submission;
    if now < s.validFrom || now >= s.validUntil {
      return Err(ExpiredAuthority);
    }
    var ref := Ref(c.assertionRef.id, c.assertionRef.revision + 1, HumanModelAssertion, q.domain, s.validFrom, s.validUntil, m.digest, m.policy);
    q := q.(invalidated := q.invalidated + {c.assertionRef});
    r := Ok(Draft(q, Some(ref), RecordWasIssued(HumanModelAssertion)));
  }

  // ---------------------------------------------------------------- the evaluator

  /** The commands that record what was understood and decided. */
  method ApplyRecording(q: Projection, e: Envelope, now: nat) returns (r: Result<Draft, RunError>)
    requires
      || e.command.StartRun? || e.command.RecordContext? || e.command.RecordIntent? || e.command.RecordDecision?
      || e.command.RecordTurn? || e.command.RecordResponse? || e.command.ConsumeResponseSend? || e.command.RecordAction?
    ensures r == Apply(q, e, now)
  {
    hide ApplyPlain, ApplyStart, ApplyDecision, ApplyResponse, ApplySend, ApplyAction;
    var m := e.minted;
    match e.command
    case StartRun(s) => r := Start(q, s, m, now);
    case RecordContext(s) =>
      if !CurrentAt(q, CanonicalInput, now) {
        return Err(MissingDependency);
      }
      r := RecordPlainly(q, s, ContextSnapshot, m, now);
    case RecordIntent(s, outcome) =>
      if !CurrentAt(q, ContextSnapshot, now) {
        return Err(MissingDependency);
      }
      if outcome.Block? {
        return Ok(Draft(q.(state := RunRejected), None, OtherEvent("intent_blocked")));
      }
      if outcome.Malformed? {
        return Err(BindingMismatch);
      }
      r := RecordPlainly(q, s, Intent, m, now);
    case RecordDecision(s, derivation) => r := Decide(q, s, derivation, m, now);
    case RecordTurn(s, wellFormed) =>
      if !CurrentAt(q, Intent, now) || !CurrentAt(q, Decision, now) {
        return Err(MissingDependency);
      }
      if !wellFormed {
        return Err(BindingMismatch);
      }
      r := RecordPlainly(q, s, TurnCoordination, m, now);
    case RecordResponse(s, content) => r := Respond(q, s, content, m, now);
    case ConsumeResponseSend(ref, sent, nonce) => r := Send(q, ref, sent, nonce, now);
    case RecordAction(s, derivation) => r := Act(q, s, derivation, m, now);
  }

  method ApplyCommand(q: Projection, e: Envelope, now: nat) returns (r: Result<Draft, RunError>)
    ensures r == Apply(q, e, now)
  {
    hide ApplyAdmit, ApplyReserve, ApplyRecover, ApplyAdvance;
    hide ApplyReceipt, ApplyReconcile, ApplyExpire, ApplyInvalidate;
    hide ApplyOutcome, ApplyPropose, ApplyPromotion, ApplyPromote, ApplyCorrection, ApplyPlain, ApplyStart, ApplyIntent;
    hide ApplyDecision, ApplyResponse, ApplySend, ApplyAction;
    var m := e.minted;
    match e.command
    case AdmitAction(_, _, _, _, _) => r := Admit(q, e.command, e.proofs, m, now);
    case ReserveExecution(_, _, _, _, _, _, _, _, _) => r := Reserve(q, e.command, e.caller, e.proofs, m, now);
    case RecoverPermit(reservationId) => r := Recover(q, reservationId, e.caller, now);
    case DeliverPermit(reservationId, permitId) =>
      r := Advance(q, reservationId, permitId, e.caller, PermitIssued, PermitDelivered, PermitWasDelivered(permitId), now);
    case StartDispatch(reservationId, permitId) =>
      r := Advance(q, reservationId, permitId, e.caller, PermitDelivered, DispatchStarted, DispatchWasStarted(permitId), now);
    case CommitExecutionReceipt(_, _, _, _, _, _, _) => r := CommitReceipt(q, e.command, e.caller, m, now);
    case ReconcileExecution(reservationId, unknown) => r := Reconcile(q, reservationId, unknown, e.caller);
    case ExpireExecutionLease(reservationId) => r := ExpireLease(q, reservationId, e.caller, now);
    case InvalidateRecord(target) => r := Invalidate(q, target);
    case RecordOutcome(s, observed) => r := Observe(q, s, observed, m, now);
    case ProposeHumanModelCandidate(s, named, wellFormed) => r := Propose(q, s, named, wellFormed, m, now);
    case RecordHumanModelPromotion(_, _, _, _) => r := DecidePromotion(q, e.command, m, now);
    case PromoteHumanModelAssertion(_, _, _) => r := Promote(q, e.command, e.proofs, m, now);
    case CorrectHumanModelAssertion(_, _, _) => r := Correct(q, e.command, m, now);
    case CancelRun =>
      if q.state.RunSucceeded? || q.state.RunRejected? || q.state.RunCancelled? {
        return Err(InvalidRunTransition);
      }
      r := Ok(Draft(q.(state := RunCancelled), None, OtherEvent("run_cancelled")));
    case _ => r := ApplyRecording(q, e, now);
  }

  /** What every acceptance means, besides the new projection's own soundness. */
  ghost predicate Accepted(p: Projection, e: Envelope, now: nat, d: Draft) {
    && e.domain == p.domain && e.expectedVersion == p.version
    && (p.state.Pending? <==> e.command.StartRun?) && !p.state.RunCancelled? && !p.state.TimedOut?
    && LineageHolds(p, e.command, now)
    && (forall i :: 0 <= i < |e.proofs| ==> e.proofs[i].kind in RequiredProofs(e.command) + {CallerAuthentication})
    && (forall k :: k in RequiredProofs(e.command) ==> exists i :: 0 <= i < |e.proofs| && e.proofs[i].kind == k)
    && Untouched(Counted(p), e.command, d.projection)
    && (Outstanding(p) ==> (Remembers(p, d.projection, e.command) <==> !Erases(p, e.command)))
    && (forall later: nat :: Evaluate(d.projection, e, later) == Err(AggregateVersionConflict))
  }

  lemma AcceptanceMeans(p: Projection, e: Envelope, now: nat)
    requires Evaluate(p, e, now).Ok?
    ensures Accepted(p, e, now, Evaluate(p, e, now).value)
  {
    EvaluateFrames(p, e, now);
    forall later: nat
      ensures Evaluate(Evaluate(p, e, now).value.projection, e, later) == Err(AggregateVersionConflict)
    {
      AcceptedOnce(p, e, now, later);
    }
    if Outstanding(p) {
      EvaluationRemembers(p, e, now);
    }
    ProofsFound(e.proofs);
    hide Apply, Finish, Untouched, Remembers, Erases, Outstanding, FoundProofs, RequiredProofs, Counted;
  }

  lemma ProofsFound(proofs: seq<Proof>)
    ensures forall i :: 0 <= i < |proofs| && !proofs[i].kind.CallerAuthentication? ==> proofs[i].kind in FoundProofs(proofs)
    ensures forall k :: k in FoundProofs(proofs) ==> exists i :: 0 <= i < |proofs| && proofs[i].kind == k
  {
  }

  /**
    The semantic transition: header, state, lineage and proof checks, then the command. It
    accepts exactly what is acceptable and leaves what that command is for. What it accepts is
    of this run, version, subject and turn, with exactly the proofs it needs; it is accepted
    once, changes only what is its own, and from a sound projection issues its record in
    place, rebinds only to it and moves an execution only with its event.
   */
  method EvaluateAuthoritativeTransition(p: Projection, e: Envelope, now: nat) returns (r: Result<Draft, RunError>)
    ensures r == Evaluate(p, e, now)
    ensures r.Ok? <==> RunAcceptance.Acceptable(p, e, now)
    ensures r.Ok? ==> Accepted(p, e, now, r.value) && RunAcceptance.Effects(p, e, now, r.value)
    ensures r.Ok? && Sound(p) ==> GoodDraft(Counted(p), e.command, r.value, now)
    ensures e.domain != p.domain || e.expectedVersion != p.version ==> r == Err(AggregateVersionConflict)
  {
    hide Apply, CommandAllowed, LineageHolds, RequiredProofs, FoundProofs, GoodDraft, Sound, Accepted;
    hide RunAcceptance.Acceptable, RunAcceptance.Effects;
    ghost var evaluated := Evaluate(p, e, now);
    RunAcceptance.AcceptedExactly(p, e, now);
    if evaluated.Ok? {
      RunAcceptance.AcceptedLeaves(p, e, now);
      AcceptanceMeans(p, e, now);
      if Sound(p) {
        EvaluateGood(p, e, now);
      }
    }
    if e.domain != p.domain || e.expectedVersion != p.version {
      return Err(AggregateVersionConflict);
    }
    if !CommandAllowed(p.state, e.command) {
      return Err(InvalidRunTransition);
    }
    if !LineageHolds(p, e.command, now) {
      return Err(LineageMismatch);
    }
    if FoundProofs(e.proofs) != RequiredProofs(e.command) {
      return Err(MissingRequiredProof);
    }
    var q := p;
    q := q.(version := q.version + 1);
    q := q.(sequence := q.sequence + 1);
    var applied := ApplyCommand(q, e, now);
    if applied.Err? {
      return Err(applied.error);
    }
    q := applied.value.projection;
    if applied.value.record.Some? {
      var ref := applied.value.record.value;
      q := q.(records := q.records[ref.kind := ref]);
    }
    r := Ok(applied.value.(projection := q));
  }
}
