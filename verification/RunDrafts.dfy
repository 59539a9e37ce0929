/**
  What evaluating any one of the commands can do to the projection, stated once for all of
  them: which record it issues, which bindings it sets, how it moves the execution.
 */
module RunDrafts {
  import opened Wrappers
  import opened Contracts
  import opened RunModel
  import opened RunTables
  import opened RunInvariants

  /** The set a record's own freshness is checked against. */
  function Others(dead: set<Ref>, record: Option<Ref>): set<Ref> {
    if record.Some? then dead - {record.value} else dead
  }

  /** The kind of record a command issues; re-admitting an action supersedes no admission, as nothing rests on one. */
  function IssuedKind(c: Command): Option<Kind> {
    if c.AdmitAction? then Some(ActionAdmissionDecision) else ExpectedKind(c)
  }

  /** The record follows the current one of its kind, or the record it corrects; its parents are live. */
  ghost predicate IssuedInPlace(p: Projection, c: Command, ref: Ref) {
    && IssuedKind(c) == Some(ref.kind)
    && (if c.CorrectHumanModelAssertion? then
          IsLive(p, c.assertionRef) && ref.id == c.assertionRef.id && ref.revision == c.assertionRef.revision + 1
        else if ref.kind in p.records then
          ref.id == p.records[ref.kind].id && ref.revision == p.records[ref.kind].revision + 1
        else ref.revision == 1)
    && forall q :: q in Parents(ref.kind) ==> Live(p, q)
  }

  function Marked(c: Command): set<Ref> {
    match c
    case InvalidateRecord(target) => {target}
    case CorrectHumanModelAssertion(target, _, _) => {target}
    case _ => {}
  }

  ghost predicate RecordShape(p: Projection, c: Command, d: Draft) {
    && d.projection.records == (if d.record.Some? then p.records[d.record.value.kind := d.record.value] else p.records)
    && d.projection.invalidated == p.invalidated + Marked(c)
    && d.projection.version == p.version && d.projection.sequence == p.sequence
    && (d.record.Some? ==> IssuedInPlace(p, c, d.record.value))
    && (c.InvalidateRecord? ==> d.record.None? && IsLive(p, c.target))
    && (c.CorrectHumanModelAssertion? ==> d.record.Some?)
  }

  /** How an execution may move: only permits move on, each with its own event. */
  predicate Moves(p: Projection, c: Command, d: Draft, now: nat) {
    d.projection.execution.Some? && d.projection.execution.value.state.InFlight() && d.projection.execution != p.execution ==>
      var x := d.projection.execution.value;
      if x.state.PermitIssued? then d.event == PermitWasIssued(x.permitId)
      else
        && p.execution.Some? && x == p.execution.value.(state := x.state) && AuthorityIsCurrent(p, p.execution.value, now)
        && if x.state.PermitDelivered? then p.execution.value.state.PermitIssued? && d.event == PermitWasDelivered(x.permitId)
           else c.StartDispatch? && p.execution.value.state.PermitDelivered? && d.event == DispatchWasStarted(x.permitId)
  }

  ghost predicate GoodDraft(p: Projection, c: Command, d: Draft, now: nat) {
    && RecordShape(p, c, d)
    && BindingsName(d.projection, Others(p.invalidated, d.record))
    && FlightNames(d.projection, p.invalidated)
    && LeaseBounded(d.projection)
    && Moves(p, c, d, now)
  }

  /** What the lemmas below assume of the projection a command is applied to. */
  ghost predicate Sound(p: Projection) {
    NoDangling(p) && LeaseBounded(p) && forall k :: k in p.records ==> p.records[k].kind == k
  }

  // ---------------------------------------------------------------- records without bindings

  lemma PlainGood(q: Projection, c: Command, s: Submission, k: Kind, m: Minted, now: nat)
    requires Sound(q) && ExpectedKind(c) == Some(k) && ApplyPlain(q, s, k, m, now).Ok?
    requires c.StartRun? || c.RecordContext? || c.RecordIntent? || c.RecordTurn?
    requires forall p :: p in Parents(k) ==> Live(q, p)
    ensures GoodDraft(q, c, Finish(ApplyPlain(q, s, k, m, now).value), now)
  {
    hide GoodDraft, Sound, Finish, Parents;
    var ref := ApplyPlain(q, s, k, m, now).value.record.value;
    assert IssuedInPlace(q, c, ref);
    BoundGood(q, c, q, ref, RecordWasIssued(k), now);
  }

  lemma StartGood(q: Projection, c: Command, m: Minted, now: nat)
    requires Sound(q) && c.StartRun? && ApplyStart(q, c.submission, m, now).Ok?
    ensures GoodDraft(q, c, Finish(ApplyStart(q, c.submission, m, now).value), now)
  {
    hide GoodDraft, Sound;
    var started := q.(state := Running, subject := Some(c.submission.subject), turn := Some(c.submission.turn));
    SameSound(q, started);
    PlainGood(started, c, c.submission, CanonicalInput, m, now);
    SameGood(q, started, c, Finish(ApplyPlain(started, c.submission, CanonicalInput, m, now).value), now);
  }

  /** The invariants do not look at the run's state, subject or turn. */
  lemma SameSound(p: Projection, q: Projection)
    requires Sound(p) && q == p.(state := q.state, subject := q.subject, turn := q.turn)
    ensures Sound(q)
  {
  }

  lemma SameGood(p: Projection, q: Projection, c: Command, d: Draft, now: nat)
    requires q == p.(state := q.state, subject := q.subject, turn := q.turn) && GoodDraft(q, c, d, now)
    ensures GoodDraft(p, c, d, now)
  {
  }

  lemma UnrecordedGood(q: Projection, c: Command, t: Projection, event: Event, now: nat)
    requires Sound(q) && t == q.(state := t.state, sendNonces := t.sendNonces)
    requires Marked(c) == {} && !c.InvalidateRecord? && !c.CorrectHumanModelAssertion?
    ensures GoodDraft(q, c, Finish(Draft(t, None, event)), now)
  {
  }

  // ---------------------------------------------------------------- records with bindings

  /** `t` keeps each binding that the new record does not concern, or drops it, or sets it to the new record. */
  predicate Rebinds(q: Projection, t: Projection, ref: Ref) {
    && t == q.(decision := t.decision, response := t.response, action := t.action, admission := t.admission, outcome := t.outcome,
               candidate := t.candidate, promotion := t.promotion, state := t.state, execution := t.execution)
    && (if ref.kind.Decision? then t.decision.Some? && t.decision.value.ref == ref else t.decision == q.decision)
    && (if ref.kind.Response? then t.response.Some? && t.response.value.ref == ref else t.response == q.response)
    && (if ref.kind.Action? then t.action.Some? && t.action.value.ref == ref else t.action == q.action)
    && (if ref.kind.Action? then t.admission.None?
        else if ref.kind.ActionAdmissionDecision? then
          t.admission.Some? && t.admission.value.ref == ref && NamesCurrent(q, q.invalidated, t.admission.value.actionRef, Action)
        else t.admission == q.admission)
    && (if ref.kind.Outcome? then t.outcome == Some(ref) else t.outcome == q.outcome)
    && (if ref.kind.HumanModelCandidate? then t.candidate.Some? && t.candidate.value.ref == ref else t.candidate == q.candidate)
    && (if ref.kind.HumanModelPromotionDecision? then t.promotion.Some? && t.promotion.value.ref == ref else t.promotion == q.promotion)
    && StoppedOrSame(q.execution, t.execution)
    && (ref.kind.Action? && t.execution.Some? ==> !t.execution.value.state.InFlight())
  }

  lemma RebindsNames(q: Projection, t: Projection, ref: Ref)
    requires BindingsName(q, q.invalidated) && Rebinds(q, t, ref)
    ensures BindingsName(t.(records := q.records[ref.kind := ref]), q.invalidated - {ref})
  {
  }

  lemma RebindsFlight(q: Projection, t: Projection, ref: Ref)
    requires FlightNames(q, q.invalidated) && LeaseBounded(q) && Rebinds(q, t, ref)
    ensures FlightNames(t.(records := q.records[ref.kind := ref]), q.invalidated) && LeaseBounded(t)
  {
  }

  lemma BoundGood(q: Projection, c: Command, t: Projection, ref: Ref, event: Event, now: nat)
    requires Sound(q) && IssuedInPlace(q, c, ref) && Rebinds(q, t, ref)
    requires Marked(c) == {} && !c.InvalidateRecord? && !c.CorrectHumanModelAssertion?
    ensures GoodDraft(q, c, Finish(Draft(t, Some(ref), event)), now)
  {
    SoundParts(q);
    hide IssuedInPlace, BindingsName, FlightNames, Marked, Sound, NoDangling;
    hide LeaseBounded, Rebinds, StoppedOrSame, Moves, RecordShape;
    RebindsNames(q, t, ref);
    RebindsFlight(q, t, ref);
    RebindsShape(q, c, t, ref, event, now);
  }

  lemma RebindsShape(q: Projection, c: Command, t: Projection, ref: Ref, event: Event, now: nat)
    requires Rebinds(q, t, ref) && IssuedInPlace(q, c, ref)
    requires Marked(c) == {} && !c.InvalidateRecord? && !c.CorrectHumanModelAssertion?
    ensures RecordShape(q, c, Finish(Draft(t, Some(ref), event))) && Moves(q, c, Finish(Draft(t, Some(ref), event)), now)
  {
    hide IssuedInPlace, Marked, AuthorityIsCurrent;
  }

  lemma SoundParts(q: Projection)
    requires Sound(q)
    ensures BindingsName(q, q.invalidated) && FlightNames(q, q.invalidated) && LeaseBounded(q)
  {
  }

  lemma DecisionGood(q: Projection, c: Command, m: Minted, now: nat)
    requires Sound(q) && c.RecordDecision? && ApplyDecision(q, c.submission, c.derivation, m, now).Ok?
    ensures GoodDraft(q, c, Finish(ApplyDecision(q, c.submission, c.derivation, m, now).value), now)
  {
    hide GoodDraft, Sound, Finish;
    var d := ApplyDecision(q, c.submission, c.derivation, m, now).value;
    BoundGood(q, c, d.projection, d.record.value, d.event, now);
  }

  lemma ResponseGood(q: Projection, c: Command, m: Minted, now: nat)
    requires Sound(q) && c.RecordResponse? && ApplyResponse(q, c.submission, c.content, m, now).Ok?
    ensures GoodDraft(q, c, Finish(ApplyResponse(q, c.submission, c.content, m, now).value), now)
  {
    hide GoodDraft, Sound, Finish;
    var d := ApplyResponse(q, c.submission, c.content, m, now).value;
    BoundGood(q, c, d.projection, d.record.value, d.event, now);
  }

  lemma ActionGood(q: Projection, c: Command, m: Minted, now: nat)
    requires Sound(q) && c.RecordAction? && ApplyAction(q, c.submission, c.derivation, m, now).Ok?
    ensures GoodDraft(q, c, Finish(ApplyAction(q, c.submission, c.derivation, m, now).value), now)
  {
    hide GoodDraft, Sound, Finish;
    var d := ApplyAction(q, c.submission, c.derivation, m, now).value;
    BoundGood(q, c, d.projection, d.record.value, d.event, now);
  }

  lemma AdmitGood(q: Projection, c: Command, proofs: seq<Proof>, m: Minted, now: nat)
    requires Sound(q) && c.AdmitAction?
    requires ApplyAdmit(q, c.actionRef, c.actionDigest, c.provider, c.owner, c.idempotencyKey, proofs, m, now).Ok?
    ensures
      GoodDraft(q, c, Finish(ApplyAdmit(q, c.actionRef, c.actionDigest, c.provider, c.owner, c.idempotencyKey, proofs, m, now).value), now)
  {
    SoundParts(q);
    hide GoodDraft, Sound, Finish, ProofOfKind, EarliestExpiry;
    var d := ApplyAdmit(q, c.actionRef, c.actionDigest, c.provider, c.owner, c.idempotencyKey, proofs, m, now).value;
    assert NamesCurrent(q, q.invalidated, c.actionRef, Action);
    BoundGood(q, c, d.projection, d.record.value, d.event, now);
  }

  lemma OutcomeGood(q: Projection, c: Command, m: Minted, now: nat)
    requires Sound(q) && c.RecordOutcome? && ApplyOutcome(q, c.submission, c.observedReceipt, m, now).Ok?
    ensures GoodDraft(q, c, Finish(ApplyOutcome(q, c.submission, c.observedReceipt, m, now).value), now)
  {
    KindsAgree(q);
    hide GoodDraft, Sound, Finish;
    var d := ApplyOutcome(q, c.submission, c.observedReceipt, m, now).value;
    BoundGood(q, c, d.projection, d.record.value, d.event, now);
  }

  lemma KindsAgree(q: Projection)
    requires Sound(q)
    ensures forall k :: k in q.records ==> q.records[k].kind == k
    ensures q.outcome.Some? ==> q.outcome.value.kind.Outcome?
  {
  }

  lemma ProposeGood(q: Projection, c: Command, m: Minted, now: nat)
    requires Sound(q) && c.ProposeHumanModelCandidate? && ApplyPropose(q, c.submission, c.namedOutcome, c.wellFormed, m, now).Ok?
    ensures GoodDraft(q, c, Finish(ApplyPropose(q, c.submission, c.namedOutcome, c.wellFormed, m, now).value), now)
  {
    KindsAgree(q);
    hide GoodDraft, Sound, Finish;
    var d := ApplyPropose(q, c.submission, c.namedOutcome, c.wellFormed, m, now).value;
    BoundGood(q, c, d.projection, d.record.value, d.event, now);
  }

  lemma PromotionGood(q: Projection, c: Command, m: Minted, now: nat)
    requires Sound(q) && c.RecordHumanModelPromotion? && ApplyPromotion(q, c, m, now).Ok?
    ensures GoodDraft(q, c, Finish(ApplyPromotion(q, c, m, now).value), now)
  {
    hide GoodDraft, Sound, Finish;
    var d := ApplyPromotion(q, c, m, now).value;
    BoundGood(q, c, d.projection, d.record.value, d.event, now);
  }

  lemma PromoteGood(q: Projection, c: Command, proofs: seq<Proof>, m: Minted, now: nat)
    requires Sound(q) && c.PromoteHumanModelAssertion? && ApplyPromote(q, c, proofs, m, now).Ok?
    ensures GoodDraft(q, c, Finish(ApplyPromote(q, c, proofs, m, now).value), now)
  {
    hide GoodDraft, Sound, Finish, EarliestExpiry;
    var d := ApplyPromote(q, c, proofs, m, now).value;
    BoundGood(q, c, d.projection, d.record.value, d.event, now);
  }

  lemma ReceiptGood(q: Projection, c: Command, caller: Reference, m: Minted, now: nat)
    requires Sound(q) && c.CommitExecutionReceipt? && ApplyReceipt(q, c, caller, m, now).Ok?
    ensures GoodDraft(q, c, Finish(ApplyReceipt(q, c, caller, m, now).value), now)
  {
    hide GoodDraft, Sound, Finish;
    var d := ApplyReceipt(q, c, caller, m, now).value;
    BoundGood(q, c, d.projection, d.record.value, d.event, now);
  }

  lemma CorrectionGood(q: Projection, c: Command, m: Minted, now: nat)
    requires Sound(q) && c.CorrectHumanModelAssertion? && ApplyCorrection(q, c, m, now).Ok?
    ensures GoodDraft(q, c, Finish(ApplyCorrection(q, c, m, now).value), now)
  {
    SoundParts(q);
    var d := ApplyCorrection(q, c, m, now).value;
    var ref := d.record.value;
    assert IssuedInPlace(q, c, ref);
    assert d.projection == q.(invalidated := q.invalidated + {c.assertionRef});
    hide IssuedInPlace, NoDangling, Sound, ApplyCorrection;
    UnboundAssertion(q, d.projection, ref);
  }

  lemma UnboundAssertion(q: Projection, t: Projection, ref: Ref)
    requires BindingsName(q, q.invalidated) && FlightNames(q, q.invalidated) && LeaseBounded(q)
    requires t == q.(invalidated := t.invalidated) && ref.kind.HumanModelAssertion?
    ensures BindingsName(t.(records := q.records[ref.kind := ref]), q.invalidated - {ref})
    ensures FlightNames(t.(records := q.records[ref.kind := ref]), q.invalidated) && LeaseBounded(t)
  {
  }

  // ---------------------------------------------------------------- executions

  lemma ReserveGood(q: Projection, c: Command, caller: Reference, proofs: seq<Proof>, m: Minted, now: nat)
    requires Sound(q) && c.ReserveExecution? && ApplyReserve(q, c, caller, proofs, m, now).Ok?
    ensures GoodDraft(q, c, Finish(ApplyReserve(q, c, caller, proofs, m, now).value), now)
  {
    hide ProofOfKind;
  }

  lemma RecoverGood(q: Projection, c: Command, caller: Reference, now: nat)
    requires Sound(q) && c.RecoverPermit? && ApplyRecover(q, c.reservationId, caller, now).Ok?
    ensures GoodDraft(q, c, Finish(ApplyRecover(q, c.reservationId, caller, now).value), now)
  {
    hide GoodDraft, Sound;
    var d := ApplyRecover(q, c.reservationId, caller, now).value;
    if AuthorityExpired(q.execution.value, now) {
      StopGood(q, c, Expired, d.event, now);
    } else {
      UnrecordedGood(q, c, q, d.event, now);
    }
  }

  lemma DeliverGood(q: Projection, c: Command, caller: Reference, now: nat)
    requires Sound(q) && c.DeliverPermit?
    requires
      ApplyAdvance(q, c.reservationId, c.permitId, caller, PermitIssued, PermitDelivered, PermitWasDelivered(c.permitId), now).Ok?
    ensures
      var r := ApplyAdvance(q, c.reservationId, c.permitId, caller, PermitIssued, PermitDelivered, PermitWasDelivered(c.permitId), now);
      GoodDraft(q, c, Finish(r.value), now)
  {
  }

  lemma DispatchGood(q: Projection, c: Command, caller: Reference, now: nat)
    requires Sound(q) && c.StartDispatch?
    requires
      ApplyAdvance(q, c.reservationId, c.permitId, caller, PermitDelivered, DispatchStarted, DispatchWasStarted(c.permitId), now).Ok?
    ensures
      var r := ApplyAdvance(q, c.reservationId, c.permitId, caller, PermitDelivered, DispatchStarted, DispatchWasStarted(c.permitId), now);
      GoodDraft(q, c, Finish(r.value), now)
  {
  }

  lemma ExpireGood(q: Projection, c: Command, caller: Reference, now: nat)
    requires Sound(q) && c.ExpireExecutionLease? && ApplyExpire(q, c.reservationId, caller, now).Ok?
    ensures GoodDraft(q, c, Finish(ApplyExpire(q, c.reservationId, caller, now).value), now)
  {
    hide GoodDraft, Sound;
    var d := ApplyExpire(q, c.reservationId, caller, now).value;
    StopGood(q, c, d.projection.execution.value.state, d.event, now);
  }

  /** Stopping the execution, and nothing else. */
  lemma StopGood(q: Projection, c: Command, state: ExecutionState, event: Event, now: nat)
    requires Sound(q) && q.execution.Some? && !state.InFlight()
    requires Marked(c) == {} && !c.InvalidateRecord? && !c.CorrectHumanModelAssertion?
    ensures GoodDraft(q, c, Finish(Draft(WithState(q, q.execution.value, state), None, event)), now)
  {
  }

  lemma InvalidateGood(q: Projection, c: Command, now: nat)
    requires Sound(q) && c.InvalidateRecord? && ApplyInvalidate(q, c.target).Ok?
    ensures GoodDraft(q, c, Finish(ApplyInvalidate(q, c.target).value), now)
  {
    SoundParts(q);
    hide NoDangling, Sound;
    var t := ApplyInvalidate(q, c.target).value.projection;
    StoppedNames(q, t);
  }

  lemma StoppedNames(q: Projection, t: Projection)
    requires BindingsName(q, q.invalidated) && FlightNames(q, q.invalidated) && LeaseBounded(q)
    requires t == q.(invalidated := t.invalidated, state := t.state, execution := t.execution) && StoppedOrSame(q.execution, t.execution)
    ensures BindingsName(t, q.invalidated) && FlightNames(t, q.invalidated) && LeaseBounded(t)
  {
  }

  // ---------------------------------------------------------------- all commands

  lemma CountedSound(p: Projection)
    requires Sound(p)
    ensures Sound(Counted(p))
  {
  }

  lemma ApplyGood(q: Projection, e: Envelope, now: nat)
    requires Sound(q) && Apply(q, e, now).Ok?
    ensures GoodDraft(q, e.command, Finish(Apply(q, e, now).value), now)
  {
    hide GoodDraft, Sound, Finish, ApplyPlain, ApplyStart;
    hide ApplyDecision, ApplyResponse, ApplyAction, ApplyAdmit, ApplyReserve;
    hide ApplyAdvance, ApplyReceipt, ApplyExpire, ApplyInvalidate, ApplyOutcome;
    hide ApplyPropose, ApplyPromotion, ApplyPromote, ApplyCorrection;
    var c, m := e.command, e.minted;
    match c
    case StartRun(_) => StartGood(q, c, m, now);
    case RecordContext(s) => PlainGood(q, c, s, ContextSnapshot, m, now);
    case RecordIntent(s, outcome) =>
      if outcome.Block? {
        UnrecordedGood(q, c, q.(state := RunRejected), OtherEvent("intent_blocked"), now);
      } else {
        PlainGood(q, c, s, Intent, m, now);
      }
    case RecordDecision(_, _) => DecisionGood(q, c, m, now);
    case RecordTurn(s, _) => PlainGood(q, c, s, TurnCoordination, m, now);
    case RecordResponse(_, _) => ResponseGood(q, c, m, now);
    case ConsumeResponseSend(_, _, nonce) =>
      UnrecordedGood(q, c, q.(sendNonces := q.sendNonces + {nonce}), OtherEvent("response_send_permit_consumed"), now);
    case RecordAction(_, _) => ActionGood(q, c, m, now);
    case AdmitAction(_, _, _, _, _) => AdmitGood(q, c, e.proofs, m, now);
    case ReserveExecution(_, _, _, _, _, _, _, _, _) => ReserveGood(q, c, e.caller, e.proofs, m, now);
    case RecoverPermit(_) => RecoverGood(q, c, e.caller, now);
    case DeliverPermit(_, _) => DeliverGood(q, c, e.caller, now);
    case StartDispatch(_, _) => DispatchGood(q, c, e.caller, now);
    case CommitExecutionReceipt(_, _, _, _, _, _, _) => ReceiptGood(q, c, e.caller, m, now);
    case ReconcileExecution(_, _) => UnrecordedGood(q, c, q, OtherEvent("execution_reconciliation_still_unknown"), now);
    case ExpireExecutionLease(_) => ExpireGood(q, c, e.caller, now);
    case InvalidateRecord(_) => InvalidateGood(q, c, now);
    case RecordOutcome(_, _) => OutcomeGood(q, c, m, now);
    case ProposeHumanModelCandidate(_, _, _) => ProposeGood(q, c, m, now);
    case RecordHumanModelPromotion(_, _, _, _) => PromotionGood(q, c, m, now);
    case PromoteHumanModelAssertion(_, _, _) => PromoteGood(q, c, e.proofs, m, now);
    case CorrectHumanModelAssertion(_, _, _) => CorrectionGood(q, c, m, now);
    case CancelRun => UnrecordedGood(q, c, q.(state := RunCancelled), OtherEvent("run_cancelled"), now);
  }

  lemma EvaluateGood(p: Projection, e: Envelope, now: nat)
    requires Sound(p) && Evaluate(p, e, now).Ok?
    ensures GoodDraft(Counted(p), e.command, Evaluate(p, e, now).value, now)
  {
    hide GoodDraft, Sound, Finish, Apply, LineageHolds, CommandAllowed, RequiredProofs, Counted;
    CountedSound(p);
    ApplyGood(Counted(p), e, now);
  }

  // ---------------------------------------------------------------- what a command leaves alone

  /** Commands that may move the execution; only a reservation replaces it. */
  predicate MovesExecution(c: Command) {
    || c.RecordAction? || c.ReserveExecution? || c.RecoverPermit? || c.DeliverPermit? || c.StartDispatch?
    || c.CommitExecutionReceipt? || c.ExpireExecutionLease? || c.InvalidateRecord?
  }

  predicate SameButState(x: Option<Execution>, y: Option<Execution>) {
    x == y || (x.Some? && y.Some? && y.value == x.value.(state := y.value.state))
  }

  /** Attempts of an action count on after a retryable end; another action starts only once the last one is cancelled. */
  predicate FollowsAttempt(x: Option<Execution>, y: Execution) {
    if x.Some? && x.value.actionRef == y.actionRef then
      && y.attempt == x.value.attempt + 1 && y.reservationId == x.value.reservationId && y.idempotencyKey == x.value.idempotencyKey
      && (x.value.state.Failed? || x.value.state.Rejected? || x.value.state.Expired?)
    else y.attempt == 1 && (x.None? || x.value.state.Cancelled?)
  }

  /** The execution stays what it is, in whatever state, unless a reservation starts the next attempt. */
  predicate MovedBy(x: Option<Execution>, y: Option<Execution>, c: Command) {
    SameButState(x, y) || (c.ReserveExecution? && y.Some? && y.value.state.PermitIssued? && FollowsAttempt(x, y.value))
  }

  /** Each part of the projection changes only by the commands named for it, and sent nonces are never lost. */
  predicate Untouched(p: Projection, c: Command, q: Projection) {
    && q.domain == p.domain && q.version == p.version && q.sequence == p.sequence && p.sendNonces <= q.sendNonces
    && (c.StartRun? || (q.subject == p.subject && q.turn == p.turn))
    && (c.ConsumeResponseSend? || q.sendNonces == p.sendNonces)
    && (c.StartRun? || c.RecordIntent? || c.CommitExecutionReceipt? || c.InvalidateRecord? || c.CancelRun? || q.state == p.state)
    && (c.RecordDecision? || q.decision == p.decision)
    && (c.RecordResponse? || q.response == p.response)
    && (c.RecordAction? || q.action == p.action)
    && (c.RecordAction? || c.AdmitAction? || q.admission == p.admission)
    && (c.RecordOutcome? || q.outcome == p.outcome)
    && (c.ProposeHumanModelCandidate? || q.candidate == p.candidate)
    && (c.RecordHumanModelPromotion? || q.promotion == p.promotion)
    && (MovesExecution(c) || q.execution == p.execution)
    && MovedBy(p.execution, q.execution, c)
  }

  lemma RecordingFrames(q: Projection, e: Envelope, now: nat)
    requires Apply(q, e, now).Ok?
    requires
      || e.command.StartRun? || e.command.RecordContext? || e.command.RecordIntent? || e.command.RecordDecision?
      || e.command.RecordTurn? || e.command.RecordResponse? || e.command.ConsumeResponseSend?
    ensures Untouched(q, e.command, Apply(q, e, now).value.projection)
  {
    hide CurrentAt, ExactCurrentAt, Issue;
  }

  lemma ActingFrames(q: Projection, e: Envelope, now: nat)
    requires Apply(q, e, now).Ok?
    requires e.command.RecordAction? || e.command.AdmitAction? || e.command.ReserveExecution? || e.command.InvalidateRecord?
    ensures Untouched(q, e.command, Apply(q, e, now).value.projection)
  {
    hide ProofOfKind, EarliestExpiry, CurrentAt, ExactCurrentAt, GovernanceTarget, Issue, Internal;
  }

  lemma PermitFrames(q: Projection, e: Envelope, now: nat)
    requires Apply(q, e, now).Ok?
    requires e.command.RecoverPermit? || e.command.DeliverPermit? || e.command.StartDispatch?
    ensures Untouched(q, e.command, Apply(q, e, now).value.projection)
  {
    hide AuthorityIsCurrent, AuthorityExpired;
  }

  lemma SettlingFrames(q: Projection, e: Envelope, now: nat)
    requires Apply(q, e, now).Ok?
    requires e.command.CommitExecutionReceipt? || e.command.ReconcileExecution? || e.command.ExpireExecutionLease?
    ensures Untouched(q, e.command, Apply(q, e, now).value.projection)
  {
    hide AuthorityIsCurrent, AuthorityExpired, Issue;
  }

  lemma LearningFrames(q: Projection, e: Envelope, now: nat)
    requires Apply(q, e, now).Ok?
    requires
      || e.command.RecordOutcome? || e.command.ProposeHumanModelCandidate? || e.command.RecordHumanModelPromotion?
      || e.command.PromoteHumanModelAssertion? || e.command.CorrectHumanModelAssertion? || e.command.CancelRun?
    ensures Untouched(q, e.command, Apply(q, e, now).value.projection)
  {
    hide EarliestExpiry, ExactCurrentAt, HistoricalEvidence, GovernanceTarget, Issue, Internal, Names;
  }

  lemma ApplyFrames(q: Projection, e: Envelope, now: nat)
    requires Apply(q, e, now).Ok?
    ensures Untouched(q, e.command, Apply(q, e, now).value.projection)
  {
    hide Apply, Untouched;
    match e.command
    case RecordAction(_, _) => ActingFrames(q, e, now);
    case AdmitAction(_, _, _, _, _) => ActingFrames(q, e, now);
    case ReserveExecution(_, _, _, _, _, _, _, _, _) => ActingFrames(q, e, now);
    case InvalidateRecord(_) => ActingFrames(q, e, now);
    case RecoverPermit(_) => PermitFrames(q, e, now);
    case DeliverPermit(_, _) => PermitFrames(q, e, now);
    case StartDispatch(_, _) => PermitFrames(q, e, now);
    case CommitExecutionReceipt(_, _, _, _, _, _, _) => SettlingFrames(q, e, now);
    case ReconcileExecution(_, _) => SettlingFrames(q, e, now);
    case ExpireExecutionLease(_) => SettlingFrames(q, e, now);
    case StartRun(_) => RecordingFrames(q, e, now);
    case RecordContext(_) => RecordingFrames(q, e, now);
    case RecordIntent(_, _) => RecordingFrames(q, e, now);
    case RecordDecision(_, _) => RecordingFrames(q, e, now);
    case RecordTurn(_, _) => RecordingFrames(q, e, now);
    case RecordResponse(_, _) => RecordingFrames(q, e, now);
    case ConsumeResponseSend(_, _, _) => RecordingFrames(q, e, now);
    case _ => LearningFrames(q, e, now);
  }

  lemma FinishLeaves(q: Projection, c: Command, d: Draft)
    requires Untouched(q, c, d.projection)
    ensures Untouched(q, c, Finish(d).projection)
  {
  }

  /** An accepted command leaves alone what is not its own. */
  lemma EvaluateFrames(p: Projection, e: Envelope, now: nat)
    requires Evaluate(p, e, now).Ok?
    ensures Untouched(Counted(p), e.command, Evaluate(p, e, now).value.projection)
  {
    hide Apply, Untouched, Finish, LineageHolds, CommandAllowed, RequiredProofs, FoundProofs, Counted;
    ApplyFrames(Counted(p), e, now);
    FinishLeaves(Counted(p), e.command, Apply(Counted(p), e, now).value);
  }

  /** Its envelope was issued for a version that is gone. */
  lemma AcceptedOnce(p: Projection, e: Envelope, now: nat, later: nat)
    requires Evaluate(p, e, now).Ok?
    ensures Evaluate(Evaluate(p, e, now).value.projection, e, later) == Err(AggregateVersionConflict)
  {
    EvaluateFrames(p, e, now);
    hide Apply, Finish, LineageHolds, CommandAllowed, RequiredProofs, FoundProofs, SameButState;
  }
}
