/**
  Concrete commands, what the evaluator makes of them and whether the execution tables take
  it: fifteen that lead from a fresh run to a live assertion, some that come too late,
  retries, and corrections.
 */
module RunScript {
  import opened Wrappers
  import opened Contracts
  import opened RunModel
  import opened RunTables

  // ---------------------------------------------------------------- moves

  /** A command, who sends it with which proofs and when, and the draft it should evaluate to. */
  datatype Move = Move(command: Command, caller: Reference, kinds: seq<ProofKind>, now: nat, draft: Draft)

  /** Identifiers and nonces are drawn from the run's version, ten to a command. */
  function Nonce(id: nat): (nonce: string)
    ensures |nonce| == id
  {
    seq(id, i requires 0 <= i < id => 'n')
  }

  function ProofsOf(kinds: seq<ProofKind>, version: nat): seq<Proof> {
    seq(|kinds|, i requires 0 <= i < |kinds| => Proof(kinds[i], 0, 10 * version + i, Nonce(10 * version + i), 1_000))
  }

  function Fresh(version: nat): Minted {
    Minted(version + 1, version + 1, version + 1, version + 1, "policy")
  }

  function Signed(m: Move, version: nat): Envelope {
    Envelope(m.command, m.caller, 0, version, ProofsOf(m.kinds, version), Fresh(version))
  }

  lemma SignedFinds(kinds: seq<ProofKind>, version: nat)
    requires CallerAuthentication !in kinds
    ensures FoundProofs(ProofsOf(kinds, version)) == set k | k in kinds
  {
    var proofs := ProofsOf(kinds, version);
    forall k | k in kinds
      ensures k in FoundProofs(proofs)
    {
      var i :| 0 <= i < |kinds| && kinds[i] == k;
      assert proofs[i].kind == k;
    }
  }

  lemma ProofsAt(kinds: seq<ProofKind>, version: nat)
    ensures
      var proofs := ProofsOf(kinds, version);
      forall i :: 0 <= i < |proofs| ==>
        proofs[i].domain == 0 && proofs[i].id == 10 * version + i && |proofs[i].nonce| == 10 * version + i
  {
    forall i | 0 <= i < |kinds|
      ensures |ProofsOf(kinds, version)[i].nonce| == 10 * version + i
    {
      assert ProofsOf(kinds, version)[i].nonce == Nonce(10 * version + i);
    }
  }

  /** The move evaluates to its draft, which supersedes nothing. */
  ghost predicate Evaluates(p: Projection, m: Move) {
    && |m.kinds| <= 10 && Evaluate(p, Signed(m, p.version), m.now) == Ok(m.draft)
    && m.draft.projection.version == p.version + 1 && ClosureRoot(p, m.command, m.draft).None?
    && (m.draft.record.Some? ==> DrawnAt(m.draft.record.value, p.version))
    && (UsesAdmission(m.command) ==> p.admission.Some?)
  }

  predicate DrawnAt(ref: Ref, version: nat) {
    ref.id == version + 1 && ref.revision == 1 && ref.digest == version + 1
  }

  /** It is no correction, and the execution tables, holding `t`, take what it leaves. */
  ghost predicate Plays(p: Projection, t: Executions, m: Move) {
    && Evaluates(p, m) && !m.command.CorrectHumanModelAssertion?
    && ExecutionFits(t, p.execution, m.draft.projection.execution, m.command, m.now, false)
  }

  /** What the move leaves in the execution tables. */
  function Written(t: Executions, m: Move): Executions {
    ExecutionWritten(t, m.draft.projection.execution, m.command)
  }

  function NoExecutions(): Executions {
    Executions(map[], map[], {})
  }

  lemma EvaluatesFrom(p: Projection, m: Move, raw: Draft)
    requires p.domain == 0 && CommandAllowed(p.state, m.command) && LineageHolds(p, m.command, m.now)
    requires |m.kinds| <= 10 && CallerAuthentication !in m.kinds && (set k | k in m.kinds) == RequiredProofs(m.command)
    requires Apply(Counted(p), Signed(m, p.version), m.now) == Ok(raw) && m.draft == Finish(raw)
    requires m.draft.projection.version == p.version + 1 && ClosureRoot(p, m.command, m.draft).None?
    requires m.draft.record.Some? ==> DrawnAt(m.draft.record.value, p.version)
    requires UsesAdmission(m.command) ==> p.admission.Some?
    ensures Evaluates(p, m)
  {
    SignedFinds(m.kinds, p.version);
    hide Apply, Finish, CommandAllowed, LineageHolds, RequiredProofs, FoundProofs, ProofsOf, ClosureRoot, Counted;
  }

  // ---------------------------------------------------------------- the way to a reservation

  function Window(): Submission {
    Submission("subject", 7, 1, 100)
  }

  function Rec(id: Id, kind: Kind): Ref {
    Ref(id, 1, kind, 0, 1, 100, id, "policy")
  }

  function Chosen(): Derivation {
    Derivation("option", "operation", "parameters")
  }

  function Request(): RequestDigest {
    RequestDigest(Rec(6, Action), "operation", "parameters")
  }

  /** The move that issues `ref` and otherwise leaves `q`. */
  function Issuing(command: Command, caller: Reference, kinds: seq<ProofKind>, q: Projection, ref: Ref): Move {
    Move(
      command, caller, kinds, 1, Draft(Counted(q).(records := q.records[ref.kind := ref]), Some(ref), RecordWasIssued(ref.kind)))
  }

  function Start(): Move {
    var p := PendingRun(0).(state := Running, subject := Some("subject"), turn := Some(7));
    Issuing(StartRun(Window()), "caller", [InputAdmission], p, Rec(1, CanonicalInput))
  }

  function Started(): Projection {
    Start().draft.projection
  }

  function GiveContext(): Move {
    Issuing(RecordContext(Window()), "caller", [ContextProof], Started(), Rec(2, ContextSnapshot))
  }

  function Contextual(): Projection {
    GiveContext().draft.projection
  }

  function Intend(): Move {
    Issuing(RecordIntent(Window(), FullPath), "caller", [IntentFastPathAdmission], Contextual(), Rec(3, Intent))
  }

  function Intended(): Projection {
    Intend().draft.projection
  }

  function Choose(): Move {
    var q := Intended().(decision := Some(DecisionBinding(Rec(4, Decision), Chosen())));
    Issuing(RecordDecision(Window(), Some(Chosen())), "caller", [DecisionNecessityAdmission], q, Rec(4, Decision))
  }

  function Decided(): Projection {
    Choose().draft.projection
  }

  function Coordinate(): Move {
    Issuing(RecordTurn(Window(), true), "caller", [TurnCoordinationAdmission], Decided(), Rec(5, TurnCoordination))
  }

  function Coordinated(): Projection {
    Coordinate().draft.projection
  }

  function Act(): Move {
    var q := Coordinated().(action := Some(ActionBinding(Rec(6, Action), Chosen(), Request())));
    Issuing(RecordAction(Window(), Some(Chosen())), "caller", [], q, Rec(6, Action))
  }

  function Acted(): Projection {
    Act().draft.projection
  }

  /** The authorization is the fourth proof of the seventh command. */
  function Granted(): Admission {
    Admission(
      Rec(7, ActionAdmissionDecision), Rec(6, Action), "provider", "owner", "operation", "parameters", Request(), "key", 63, 1_000, 100)
  }

  function Admit(): Move {
    Issuing(
      AdmitAction(Rec(6, Action), 6, "provider", "owner", "key"), "caller",
      [Capability, Authority, Policy, ExactAuthorization, ActionAdmission], Acted().(admission := Some(Granted())),
      Rec(7, ActionAdmissionDecision))
  }

  function Admitted(): Projection {
    Admit().draft.projection
  }

  lemma BeginningPlays()
    ensures Plays(PendingRun(0), NoExecutions(), Start()) && Plays(Started(), NoExecutions(), GiveContext())
  {
    EvaluatesFrom(
      PendingRun(0), Start(),
      Draft(
        Counted(PendingRun(0).(state := Running, subject := Some("subject"), turn := Some(7))), Some(Rec(1, CanonicalInput)),
        RecordWasIssued(CanonicalInput)));
    EvaluatesFrom(Started(), GiveContext(), Draft(Counted(Started()), Some(Rec(2, ContextSnapshot)), RecordWasIssued(ContextSnapshot)));
  }

  lemma DecidingPlays()
    ensures Plays(Contextual(), NoExecutions(), Intend()) && Plays(Intended(), NoExecutions(), Choose())
  {
    hide Nonce;
    EvaluatesFrom(Contextual(), Intend(), Draft(Counted(Contextual()), Some(Rec(3, Intent)), RecordWasIssued(Intent)));
    var q := Counted(Intended()).(decision := Some(DecisionBinding(Rec(4, Decision), Chosen())));
    EvaluatesFrom(Intended(), Choose(), Draft(q, Some(Rec(4, Decision)), RecordWasIssued(Decision)));
  }

  lemma CoordinationPlays()
    ensures Plays(Decided(), NoExecutions(), Coordinate())
  {
    hide Nonce;
    EvaluatesFrom(
      Decided(), Coordinate(), Draft(Counted(Decided()), Some(Rec(5, TurnCoordination)), RecordWasIssued(TurnCoordination)));
  }

  lemma ActionPlays()
    ensures Plays(Coordinated(), NoExecutions(), Act())
  {
    hide Nonce;
    var q := Counted(Coordinated()).(action := Some(ActionBinding(Rec(6, Action), Chosen(), Request())));
    EvaluatesFrom(Coordinated(), Act(), Draft(q, Some(Rec(6, Action)), RecordWasIssued(Action)));
  }

  /** The first proof of a kind is found wherever it stands. */
  lemma {:induction false} ProofStands(proofs: seq<Proof>, i: nat, kind: ProofKind, domain: nat)
    requires i < |proofs| && proofs[i].kind == kind && proofs[i].domain == domain
    requires forall j :: 0 <= j < i ==> proofs[j].kind != kind
    ensures ProofOfKind(proofs, kind, domain) == Some(proofs[i])
  {
    if i > 0 {
      ProofStands(proofs[1..], i - 1, kind, domain);
    }
  }

  lemma {:induction false} ExpiresLate(proofs: seq<Proof>, bound: nat)
    requires forall i :: 0 <= i < |proofs| ==> bound <= proofs[i].expiresAt
    ensures EarliestExpiry(proofs, bound) == bound
  {
    if proofs != [] {
      ExpiresLate(proofs[..|proofs| - 1], bound);
    }
  }

  lemma AdmissionProofsStand(proofs: seq<Proof>)
    requires |proofs| == 5 && forall i :: 0 <= i < 5 ==> proofs[i].domain == 0
    requires proofs[0].kind == Capability && proofs[1].kind == Authority && proofs[2].kind == Policy
    requires proofs[3].kind == ExactAuthorization && proofs[4].kind == ActionAdmission
    requires forall i :: 0 <= i < 5 ==> 100 <= proofs[i].expiresAt
    ensures ProofOfKind(proofs, Capability, 0).Some? && ProofOfKind(proofs, Authority, 0).Some?
    ensures ProofOfKind(proofs, Policy, 0).Some? && ProofOfKind(proofs, ActionAdmission, 0).Some?
    ensures ProofOfKind(proofs, ExactAuthorization, 0) == Some(proofs[3]) && EarliestExpiry(proofs, 100) == 100
  {
    hide ProofOfKind, EarliestExpiry;
    ProofStands(proofs, 0, Capability, 0);
    ProofStands(proofs, 1, Authority, 0);
    ProofStands(proofs, 2, Policy, 0);
    ProofStands(proofs, 3, ExactAuthorization, 0);
    ProofStands(proofs, 4, ActionAdmission, 0);
    ExpiresLate(proofs, 100);
  }

  /** The kinds that follow a dispatch. */
  function LateKinds(): set<Kind> {
    {ExecutionReceipt, Outcome, HumanModelCandidate, HumanModelPromotionDecision, HumanModelAssertion}
  }

  ghost predicate Underway(p: Projection, version: nat) {
    && p.domain == 0 && p.version == version && p.state == Running && p.subject == Some("subject") && p.turn == Some(7)
    && p.invalidated == {} && (forall k :: k in LateKinds() ==> k !in p.records)
  }

  lemma AtDecision()
    ensures Underway(Decided(), 4) && Decided().execution.None? && ActionAdmissionDecision !in Decided().records
  {
  }

  ghost predicate Holds(p: Projection, ref: Ref) {
    ref.kind in p.records && p.records[ref.kind] == ref
  }

  lemma AtAction()
    ensures Underway(Acted(), 6) && Holds(Acted(), Rec(6, Action)) && Acted().execution.None?
    ensures Acted().action == Some(ActionBinding(Rec(6, Action), Chosen(), Request())) && ActionAdmissionDecision !in Acted().records
  {
    AtDecision();
    hide Decided;
  }

  lemma AdmitApplies(q: Projection, proofs: seq<Proof>)
    requires Underway(q, 7) && Holds(q, Rec(6, Action)) && ActionAdmissionDecision !in q.records
    requires q.action == Some(ActionBinding(Rec(6, Action), Chosen(), Request()))
    requires |proofs| == 5 && forall i :: 0 <= i < 5 ==> proofs[i].domain == 0
    requires proofs[0].kind == Capability && proofs[1].kind == Authority && proofs[2].kind == Policy
    requires proofs[3] == Proof(ExactAuthorization, 0, 63, Nonce(63), 1_000) && proofs[4].kind == ActionAdmission
    requires forall i :: 0 <= i < 5 ==> 100 <= proofs[i].expiresAt
    ensures
      ApplyAdmit(q, Rec(6, Action), 6, "provider", "owner", "key", proofs, Fresh(6), 1) ==
      Ok(Draft(q.(admission := Some(Granted())), Some(Rec(7, ActionAdmissionDecision)), RecordWasIssued(ActionAdmissionDecision)))
  {
    AdmissionProofsStand(proofs);
    hide ProofOfKind, EarliestExpiry, Nonce, LateKinds;
  }

  lemma AdmissionProofsSigned()
    ensures
      var proofs := ProofsOf([Capability, Authority, Policy, ExactAuthorization, ActionAdmission], 6);
      && |proofs| == 5 && (forall i :: 0 <= i < 5 ==> proofs[i].domain == 0 && 100 <= proofs[i].expiresAt)
      && proofs[0].kind == Capability && proofs[1].kind == Authority && proofs[2].kind == Policy
      && proofs[3] == Proof(ExactAuthorization, 0, 63, Nonce(63), 1_000) && proofs[4].kind == ActionAdmission
  {
    hide Nonce;
  }

  lemma AdmissionPlays()
    ensures Plays(Acted(), NoExecutions(), Admit())
  {
    AtAction();
    AdmissionProofsSigned();
    hide Acted, Nonce, ProofsOf, ApplyAdmit, LateKinds, Granted;
    AdmitApplies(Counted(Acted()), ProofsOf(Admit().kinds, 6));
    var q := Counted(Acted()).(admission := Some(Granted()));
    EvaluatesFrom(Acted(), Admit(), Draft(q, Some(Rec(7, ActionAdmissionDecision)), RecordWasIssued(ActionAdmissionDecision)));
  }

  // ---------------------------------------------------------------- executing

  /** A permit issued for an attempt under the eighth command's reservation. */
  function Issued(number: nat, permitId: Id, lease: nat, nonce: string): Execution {
    Execution(
      8, Rec(7, ActionAdmissionDecision), Rec(6, Action), "provider", "owner", "operation", "parameters", Request(), "key", number,
      permitId, 63, 100, 100, 1_000, lease, lease, nonce, PermitIssued)
  }

  function Attempt(state: ExecutionState): Execution {
    Issued(1, 8, 40, "dispatch").(state := state)
  }

  function Executing(p: Projection, x: Execution): Projection {
    Counted(p).(execution := Some(x))
  }

  /** The move that leaves the execution `x`. */
  function Moving(command: Command, caller: Reference, now: nat, p: Projection, x: Execution, event: Event): Move {
    Move(command, caller, [ExecutionPermit], now, Draft(Executing(p, x), None, event))
  }

  function Reservation(number: nat, lease: nat, nonce: string): Command {
    ReserveExecution(Rec(7, ActionAdmissionDecision), Rec(6, Action), 6, "provider", "owner", "key", number, lease, nonce)
  }

  /** The execution tables with one reservation, and its attempts' permits. */
  function Reserved(permits: map<AttemptKey, PermitRow>): Executions {
    Executions(map[8 := Fence("operation", "key", RecordKey(6, 1))], permits, {})
  }

  function OneAttempt(): Executions {
    Reserved(map[AttemptKey(8, 1) := PermitRow(8, "dispatch")])
  }

  function Reserve(): Move {
    Moving(Reservation(1, 40, "dispatch"), "owner", 1, Admitted(), Attempt(PermitIssued), PermitWasIssued(8))
  }

  function Permitted(): Projection {
    Executing(Admitted(), Attempt(PermitIssued))
  }

  function Deliver(): Move {
    Moving(DeliverPermit(8, 8), "provider", 1, Permitted(), Attempt(PermitDelivered), PermitWasDelivered(8))
  }

  function Delivered(): Projection {
    Executing(Permitted(), Attempt(PermitDelivered))
  }

  function Dispatch(): Move {
    Moving(StartDispatch(8, 8), "provider", 1, Delivered(), Attempt(DispatchStarted), DispatchWasStarted(8))
  }

  function Dispatched(): Projection {
    Executing(Delivered(), Attempt(DispatchStarted))
  }

  /** The live action of all that follows, and the admission it is reserved under. */
  ghost predicate Reservable(p: Projection) {
    && p.domain == 0 && p.invalidated == {} && p.admission == Some(Granted())
    && Holds(p, Rec(6, Action)) && Holds(p, Rec(7, ActionAdmissionDecision))
  }

  lemma AtAdmission()
    ensures Underway(Admitted(), 7) && Reservable(Admitted()) && Admitted().execution.None?
  {
    AtAction();
    hide Acted;
  }

  lemma ReserveApplies(q: Projection, number: nat, lease: nat, nonce: string, proofs: seq<Proof>, version: nat, now: nat)
    requires Reservable(q) && 1 <= now < lease <= 100 && number >= 1
    requires ReservationFor(q.execution, Rec(6, Action), number, "key", version + 1) == Ok(8)
    requires |proofs| == 1 && proofs[0].kind == ExecutionPermit && proofs[0].domain == 0 && proofs[0].expiresAt == 1_000
    ensures
      ApplyReserve(q, Reservation(number, lease, nonce), "owner", proofs, Fresh(version), now) ==
      Ok(Draft(q.(execution := Some(Issued(number, version + 1, lease, nonce))), None, PermitWasIssued(version + 1)))
  {
    hide Nonce;
  }

  lemma PermitProof(version: nat)
    ensures
      var proofs := ProofsOf([ExecutionPermit], version);
      |proofs| == 1 && proofs[0].kind == ExecutionPermit && proofs[0].domain == 0 && proofs[0].expiresAt == 1_000
  {
    hide Nonce;
  }

  /** Reserving evaluates to the permit. */
  lemma ReservationEvaluates(p: Projection, number: nat, lease: nat, nonce: string, now: nat)
    requires Reservable(p) && p.state == Running && 1 <= now < lease <= 100 && number >= 1
    requires ReservationFor(p.execution, Rec(6, Action), number, "key", p.version + 1) == Ok(8)
    ensures
      var x := Issued(number, p.version + 1, lease, nonce);
      Evaluates(p, Moving(Reservation(number, lease, nonce), "owner", now, p, x, PermitWasIssued(p.version + 1)))
  {
    PermitProof(p.version);
    hide Nonce, ProofsOf, ApplyReserve, Granted, ReservationFor;
    var m := Moving(
      Reservation(number, lease, nonce), "owner", now, p, Issued(number, p.version + 1, lease, nonce), PermitWasIssued(p.version + 1));
    hide Issued;
    ReserveApplies(Counted(p), number, lease, nonce, ProofsOf([ExecutionPermit], p.version), p.version, now);
    EvaluatesFrom(p, m, m.draft);
  }

  lemma ReservationPlays()
    ensures Plays(Admitted(), NoExecutions(), Reserve()) && Written(NoExecutions(), Reserve()) == OneAttempt()
  {
    AtAdmission();
    hide Admitted, LateKinds, Evaluates;
    ReservationEvaluates(Admitted(), 1, 40, "dispatch", 1);
  }

  /** Moving the attempt in hand on keeps its rows. */
  lemma AttemptMoves(from: ExecutionState, m: Move)
    requires m.draft.projection.execution.Some? && m.draft.projection.execution.value == Attempt(m.draft.projection.execution.value.state)
    requires TransitionAllowed(from, m.draft.projection.execution.value.state, false) && m.now < 100
    requires !m.command.CommitExecutionReceipt?
    ensures ExecutionFits(OneAttempt(), Some(Attempt(from)), m.draft.projection.execution, m.command, m.now, false)
    ensures Written(OneAttempt(), m) == OneAttempt()
  {
    hide TransitionAllowed;
  }

  lemma AtPermit()
    ensures Underway(Permitted(), 8) && Reservable(Permitted()) && Permitted().execution == Some(Attempt(PermitIssued))
  {
    AtAdmission();
    hide Admitted;
  }

  lemma DeliveryPlays()
    ensures Plays(Permitted(), OneAttempt(), Deliver()) && Written(OneAttempt(), Deliver()) == OneAttempt()
  {
    AtPermit();
    hide Permitted, Nonce, LateKinds, OneAttempt;
    EvaluatesFrom(Permitted(), Deliver(), Deliver().draft);
    AttemptMoves(PermitIssued, Deliver());
  }

  lemma AtDelivery()
    ensures Underway(Delivered(), 9) && Reservable(Delivered()) && Delivered().execution == Some(Attempt(PermitDelivered))
  {
    AtPermit();
    hide Permitted;
  }

  lemma DispatchPlays()
    ensures Plays(Delivered(), OneAttempt(), Dispatch()) && Written(OneAttempt(), Dispatch()) == OneAttempt()
  {
    AtDelivery();
    hide Delivered, Nonce, LateKinds, OneAttempt;
    EvaluatesFrom(Delivered(), Dispatch(), Dispatch().draft);
    AttemptMoves(PermitDelivered, Dispatch());
  }

  lemma AtDispatch()
    ensures Underway(Dispatched(), 10) && Reservable(Dispatched()) && Dispatched().execution == Some(Attempt(DispatchStarted))
  {
    AtDelivery();
    hide Delivered;
  }

  // ---------------------------------------------------------------- lapses and retries

  /** The permit is delivered after its lease has ended. */
  function DeliverLapsed(): Move {
    Moving(DeliverPermit(8, 8), "provider", 50, Permitted(), Attempt(Cancelled), OtherEvent("execution_invalid_authority"))
  }

  lemma LapsedDeliveryPlays()
    ensures Plays(Permitted(), OneAttempt(), DeliverLapsed())
  {
    AtPermit();
    hide Permitted, Nonce, LateKinds, OneAttempt;
    EvaluatesFrom(Permitted(), DeliverLapsed(), DeliverLapsed().draft);
    AttemptMoves(PermitIssued, DeliverLapsed());
  }

  /** Its owner expires the lease instead. */
  function ExpireLapsed(): Move {
    Moving(
      ExpireExecutionLease(8), "owner", 50, Permitted(), Attempt(Expired), OtherEvent("execution_lease_expired_before_dispatch"))
  }

  function Lapse(): Projection {
    Executing(Permitted(), Attempt(Expired))
  }

  lemma LapsedExpiryPlays()
    ensures Plays(Permitted(), OneAttempt(), ExpireLapsed()) && Written(OneAttempt(), ExpireLapsed()) == OneAttempt()
  {
    AtPermit();
    hide Permitted, Nonce, LateKinds, OneAttempt;
    EvaluatesFrom(Permitted(), ExpireLapsed(), ExpireLapsed().draft);
    AttemptMoves(PermitIssued, ExpireLapsed());
  }

  lemma AtLapse()
    ensures Underway(Lapse(), 9) && Reservable(Lapse()) && Lapse().execution == Some(Attempt(Expired))
  {
    AtPermit();
    hide Permitted;
  }

  /** The second attempt. */
  function Retry(): Move {
    Moving(Reservation(2, 90, "again"), "owner", 50, Lapse(), Issued(2, 10, 90, "again"), PermitWasIssued(10))
  }

  lemma RetryPlays()
    ensures Plays(Lapse(), OneAttempt(), Retry())
  {
    AtLapse();
    hide Lapse, LateKinds, Evaluates;
    ReservationEvaluates(Lapse(), 2, 90, "again", 50);
  }

  /** A lease for as long as the action lasts. */
  function ReserveLong(): Move {
    Moving(Reservation(1, 100, "dispatch"), "owner", 1, Admitted(), Issued(1, 8, 100, "dispatch"), PermitWasIssued(8))
  }

  lemma LongReservationPlays()
    ensures Plays(Admitted(), NoExecutions(), ReserveLong())
  {
    AtAdmission();
    hide Admitted, LateKinds, Evaluates;
    ReservationEvaluates(Admitted(), 1, 100, "dispatch", 1);
  }

  /** The lease ends after dispatch. */
  function Expire(): Move {
    Moving(
      ExpireExecutionLease(8), "owner", 50, Dispatched(), Attempt(ReconciliationRequired),
      OtherEvent("execution_lease_expired_after_dispatch"))
  }

  function Overdue(): Projection {
    Executing(Dispatched(), Attempt(ReconciliationRequired))
  }

  lemma ExpiryPlays()
    ensures Plays(Dispatched(), OneAttempt(), Expire()) && Written(OneAttempt(), Expire()) == OneAttempt()
  {
    AtDispatch();
    hide Dispatched, Nonce, LateKinds, OneAttempt;
    EvaluatesFrom(Dispatched(), Expire(), Expire().draft);
    AttemptMoves(DispatchStarted, Expire());
  }

  lemma AtOverdue()
    ensures Underway(Overdue(), 11) && Reservable(Overdue()) && Overdue().execution == Some(Attempt(ReconciliationRequired))
  {
    AtDispatch();
    hide Dispatched;
  }

  /** The permit is delivered once more while the execution waits to be reconciled. */
  function DeliverOverdue(): Move {
    Moving(DeliverPermit(8, 8), "provider", 50, Overdue(), Attempt(Cancelled), OtherEvent("execution_invalid_authority"))
  }

  lemma OverdueDeliveryEvaluates()
    ensures Evaluates(Overdue(), DeliverOverdue())
    ensures
      forall t: Executions :: !ExecutionFits(t, Overdue().execution, DeliverOverdue().draft.projection.execution, DeliverOverdue().command, 50, false)
  {
    AtOverdue();
    hide Overdue, Nonce, LateKinds, AttemptFits;
    EvaluatesFrom(Overdue(), DeliverOverdue(), DeliverOverdue().draft);
  }

  // ---------------------------------------------------------------- receipts

  function Receive(s: Submission, terminal: ExecutionState, actionInvalidated: bool): Command {
    CommitExecutionReceipt(
      s, 8, 8, "provider", "dispatch", 1, Some(ReceiptPayload(8, "provider", "dispatch", 1, actionInvalidated, Request(), terminal)))
  }

  /** The receipt of the attempt, stored as `ref`. */
  function SettleAs(s: Submission, terminal: ExecutionState, state: RunState, now: nat, ref: Ref): Move {
    var q := Counted(Dispatched()).(records := Dispatched().records[ExecutionReceipt := ref]);
    Move(
      Receive(s, terminal, false), "provider", [ProviderReceipt], now,
      Draft(q.(execution := Some(Attempt(terminal)), state := state), Some(ref), RecordWasIssued(ExecutionReceipt)))
  }

  lemma ReceiptEvaluates(s: Submission, terminal: ExecutionState, state: RunState, now: nat, ref: Ref)
    requires s.subject == "subject" && s.turn == 7 && s.validFrom <= now < s.validUntil
    requires (terminal.Succeeded? && state.RunSucceeded?) || (terminal.Failed? && state.RunFailed?)
    requires ref == Ref(11, 1, ExecutionReceipt, 0, s.validFrom, s.validUntil, 11, "policy")
    ensures Evaluates(Dispatched(), SettleAs(s, terminal, state, now, ref))
  {
    AtDispatch();
    hide Dispatched, Nonce;
    var m := SettleAs(s, terminal, state, now, ref);
    EvaluatesFrom(
      Dispatched(), m, m.draft.(projection := Counted(Dispatched()).(execution := Some(Attempt(terminal)), state := state)));
  }

  function OneReceipt(): Executions {
    OneAttempt().(receipts := {AttemptKey(8, 1)})
  }

  lemma ReceiptFitsOnce(s: Submission, terminal: ExecutionState, state: RunState, ref: Ref)
    requires terminal.Settled()
    ensures
      var m := SettleAs(s, terminal, state, 1, ref);
      && ExecutionFits(OneAttempt(), Some(Attempt(DispatchStarted)), m.draft.projection.execution, m.command, m.now, false)
      && Written(OneAttempt(), m) == OneReceipt()
  {
    hide Dispatched;
  }

  function Settle(): Move {
    SettleAs(Window(), Succeeded, RunSucceeded, 1, Rec(11, ExecutionReceipt))
  }

  function SettleFailed(): Move {
    SettleAs(Window(), Failed, RunFailed, 1, Rec(11, ExecutionReceipt))
  }

  /** The receipt arrives after the action has ended. */
  function SettleLate(): Move {
    SettleAs(Submission("subject", 7, 1, 200), Succeeded, RunSucceeded, 150, Ref(11, 1, ExecutionReceipt, 0, 1, 200, 11, "policy"))
  }

  lemma ReceiptPlays()
    ensures Plays(Dispatched(), OneAttempt(), Settle()) && Written(OneAttempt(), Settle()) == OneReceipt()
    ensures Plays(Dispatched(), OneAttempt(), SettleFailed())
  {
    AtDispatch();
    hide Dispatched, Evaluates, Attempt, OneAttempt, OneReceipt, ExecutionFits, Written;
    ReceiptEvaluates(Window(), Succeeded, RunSucceeded, 1, Rec(11, ExecutionReceipt));
    ReceiptEvaluates(Window(), Failed, RunFailed, 1, Rec(11, ExecutionReceipt));
    ReceiptFitsOnce(Window(), Succeeded, RunSucceeded, Rec(11, ExecutionReceipt));
    ReceiptFitsOnce(Window(), Failed, RunFailed, Rec(11, ExecutionReceipt));
  }

  lemma LateReceiptEvaluates()
    ensures Evaluates(Dispatched(), SettleLate())
  {
    hide Dispatched, Evaluates;
    ReceiptEvaluates(
      Submission("subject", 7, 1, 200), Succeeded, RunSucceeded, 150, Ref(11, 1, ExecutionReceipt, 0, 1, 200, 11, "policy"));
  }

  function Failure(): Projection {
    SettleFailed().draft.projection
  }

  /** A second attempt after the first has failed. */
  function RetryFailed(): Move {
    Moving(Reservation(2, 90, "again"), "owner", 1, Failure(), Issued(2, 12, 90, "again"), PermitWasIssued(12))
  }

  /** It is right but for the run's state. */
  lemma FailedRetryEvaluates()
    ensures Evaluate(Failure(), Signed(RetryFailed(), 11), 1) == Err(InvalidRunTransition)
    ensures Evaluate(Failure().(state := Running), Signed(RetryFailed(), 11), 1).Ok?
    ensures Failure().execution == Some(Attempt(Failed)) && IsLive(Failure(), Rec(6, Action))
  {
    AtDispatch();
    hide Dispatched, Nonce, ProofsOf, FoundProofs, Apply, LateKinds, Issued;
    var p := Failure();
    assert Reservable(p) && p.version == 11 && p.execution == Some(Attempt(Failed)) && p.state == RunFailed;
    hide Failure;
    AttemptFailed();
    var q := p.(state := Running);
    hide Attempt, Evaluate;
    ReservationEvaluates(q, 2, 90, "again", 1);
    assert Evaluate(p, Signed(RetryFailed(), 11), 1) == Err(InvalidRunTransition) by { Refused(p); }
  }

  lemma AttemptFailed()
    ensures ReservationFor(Some(Attempt(Failed)), Rec(6, Action), 2, "key", 12) == Ok(8)
  {
  }

  lemma Refused(p: Projection)
    requires p.state == RunFailed && p.domain == 0 && p.version == 11
    ensures Evaluate(p, Signed(RetryFailed(), 11), 1) == Err(InvalidRunTransition)
  {
    hide Failure, Apply, ProofsOf, FoundProofs;
  }

  // ---------------------------------------------------------------- learning

  function Concluded(): Projection {
    Settle().draft.projection
  }

  function Observe(): Move {
    Issuing(
      RecordOutcome(Window(), Some(11)), "caller", [OutcomeObservation], Concluded().(outcome := Some(Rec(12, Outcome))), Rec(12, Outcome))
  }

  function Observed(): Projection {
    Observe().draft.projection
  }

  function Propose(): Move {
    var q := Observed().(candidate := Some(CandidateBinding(Rec(13, HumanModelCandidate), Rec(12, Outcome))));
    Issuing(
      ProposeHumanModelCandidate(Window(), Some(Rec(12, Outcome)), true), "caller", [OutcomeObservation], q, Rec(13, HumanModelCandidate))
  }

  function Proposed(): Projection {
    Propose().draft.projection
  }

  function Promote(): Move {
    var promotion := PromotionBinding(
      Rec(14, HumanModelPromotionDecision), Rec(13, HumanModelCandidate), Rec(12, Outcome), PromoteProvisional);
    Issuing(
      RecordHumanModelPromotion(Window(), Rec(13, HumanModelCandidate), Some(PromoteProvisional), Some(Rec(12, Outcome))), "caller",
      [HumanModelPromotion], Proposed().(promotion := Some(promotion)), Rec(14, HumanModelPromotionDecision))
  }

  function Promoted(): Projection {
    Promote().draft.projection
  }

  function Assert(): Move {
    Issuing(
      PromoteHumanModelAssertion(Window(), Rec(14, HumanModelPromotionDecision), true), "caller", [HumanModelPromotion], Promoted(),
      Rec(15, HumanModelAssertion))
  }

  function Asserted(): Projection {
    Assert().draft.projection
  }

  /** What holds of every later projection: nothing is invalidated and the execution is settled. */
  ghost predicate Learning(p: Projection, version: nat) {
    && p.domain == 0 && p.version == version && p.state == RunSucceeded && p.subject == Some("subject") && p.turn == Some(7)
    && p.invalidated == {} && p.execution == Some(Attempt(Succeeded))
  }

  /** A settled attempt keeps its rows. */
  lemma SettledStays(m: Move)
    requires m.draft.projection.execution == Some(Attempt(Succeeded)) && m.now < 100 && !m.command.CommitExecutionReceipt?
    ensures ExecutionFits(OneReceipt(), Some(Attempt(Succeeded)), m.draft.projection.execution, m.command, m.now, false)
    ensures Written(OneReceipt(), m) == OneReceipt()
  {
  }

  lemma AtReceipt()
    ensures Learning(Concluded(), 11) && Reservable(Concluded()) && Holds(Concluded(), Rec(11, ExecutionReceipt))
    ensures forall k :: k in LateKinds() - {ExecutionReceipt} ==> k !in Concluded().records
  {
    AtDispatch();
    hide Dispatched;
  }

  lemma OutcomePlays()
    ensures Plays(Concluded(), OneReceipt(), Observe()) && Written(OneReceipt(), Observe()) == OneReceipt()
  {
    AtReceipt();
    hide Concluded, Nonce, OneReceipt, ExecutionFits, Written;
    EvaluatesFrom(
      Concluded(), Observe(), Observe().draft.(projection := Counted(Concluded()).(outcome := Some(Rec(12, Outcome)))));
    SettledStays(Observe());
  }

  /** The outcome is observed after the action has ended. */
  function ObserveLate(): Move {
    var ref := Ref(12, 1, Outcome, 0, 1, 200, 12, "policy");
    var q := Counted(Concluded()).(outcome := Some(ref), records := Concluded().records[Outcome := ref]);
    Move(
      RecordOutcome(Submission("subject", 7, 1, 200), Some(11)), "caller", [OutcomeObservation], 150,
      Draft(q, Some(ref), RecordWasIssued(Outcome)))
  }

  lemma LateOutcomeEvaluates()
    ensures Evaluates(Concluded(), ObserveLate())
  {
    AtReceipt();
    hide Concluded, Nonce;
    var ref := Ref(12, 1, Outcome, 0, 1, 200, 12, "policy");
    EvaluatesFrom(
      Concluded(), ObserveLate(), ObserveLate().draft.(projection := Counted(Concluded()).(outcome := Some(ref))));
  }

  lemma AtOutcome()
    ensures Learning(Observed(), 12) && Holds(Observed(), Rec(12, Outcome)) && Observed().outcome == Some(Rec(12, Outcome))
    ensures forall k :: k in LateKinds() - {ExecutionReceipt, Outcome} ==> k !in Observed().records
  {
    AtReceipt();
    hide Concluded;
  }

  lemma CandidatePlays()
    ensures Plays(Observed(), OneReceipt(), Propose()) && Written(OneReceipt(), Propose()) == OneReceipt()
  {
    AtOutcome();
    hide Observed, Nonce, OneReceipt, ExecutionFits, Written;
    EvaluatesFrom(
      Observed(), Propose(), Propose().draft.(projection := Counted(Observed()).(candidate := Proposed().candidate)));
    SettledStays(Propose());
  }

  lemma AtProposal()
    ensures Learning(Proposed(), 13) && Holds(Proposed(), Rec(13, HumanModelCandidate))
    ensures Proposed().candidate == Some(CandidateBinding(Rec(13, HumanModelCandidate), Rec(12, Outcome)))
    ensures HumanModelPromotionDecision !in Proposed().records && HumanModelAssertion !in Proposed().records
  {
    AtOutcome();
    hide Observed;
  }

  lemma PromotionPlays()
    ensures Plays(Proposed(), OneReceipt(), Promote()) && Written(OneReceipt(), Promote()) == OneReceipt()
  {
    AtProposal();
    hide Proposed, Nonce, OneReceipt, ExecutionFits, Written;
    EvaluatesFrom(
      Proposed(), Promote(), Promote().draft.(projection := Counted(Proposed()).(promotion := Promoted().promotion)));
    SettledStays(Promote());
  }

  lemma AtPromotion()
    ensures Learning(Promoted(), 14) && Holds(Promoted(), Rec(14, HumanModelPromotionDecision))
    ensures Promoted().candidate == Some(CandidateBinding(Rec(13, HumanModelCandidate), Rec(12, Outcome)))
    ensures HumanModelAssertion !in Promoted().records
    ensures
      Promoted().promotion == Some(PromotionBinding(
        Rec(14, HumanModelPromotionDecision), Rec(13, HumanModelCandidate), Rec(12, Outcome), PromoteProvisional))
  {
    AtProposal();
    hide Proposed;
  }

  lemma PromoteApplies(q: Projection, proofs: seq<Proof>)
    requires Learning(q, 15) && Holds(q, Rec(14, HumanModelPromotionDecision)) && HumanModelAssertion !in q.records
    requires q.candidate == Promoted().candidate && q.promotion == Promoted().promotion && EarliestExpiry(proofs, 100) == 100
    ensures
      ApplyPromote(q, Assert().command, proofs, Fresh(14), 1) ==
      Ok(Draft(q, Some(Rec(15, HumanModelAssertion)), RecordWasIssued(HumanModelAssertion)))
  {
    AtPromotion();
    hide EarliestExpiry, Promoted;
  }

  lemma AssertionEvaluates()
    ensures Evaluates(Promoted(), Assert())
  {
    AtPromotion();
    ExpiresLate(ProofsOf([HumanModelPromotion], 14), 100);
    PromoteApplies(Counted(Promoted()), ProofsOf([HumanModelPromotion], 14));
    hide Promoted, Nonce, EarliestExpiry, ProofsOf, ApplyPromote, FoundProofs, LateKinds, Attempt, Evaluate;
    EvaluatesFrom(Promoted(), Assert(), Assert().draft.(projection := Counted(Promoted())));
  }

  lemma AssertionPlays()
    ensures Plays(Promoted(), OneReceipt(), Assert()) && Written(OneReceipt(), Assert()) == OneReceipt()
  {
    AtPromotion();
    hide Promoted, Evaluates, OneReceipt, ExecutionFits, Written;
    AssertionEvaluates();
    SettledStays(Assert());
  }

  lemma AtAssertion()
    ensures Learning(Asserted(), 15) && Holds(Asserted(), Rec(15, HumanModelAssertion))
  {
    AtPromotion();
    hide Promoted;
  }

  // ---------------------------------------------------------------- revoked proofs

  /** After the receipt: a delivery that finds the admission's proofs revoked. */
  function Revoking(listing: seq<Ref>): Input {
    Input(
      Envelope(DeliverPermit(8, 8), "provider", 0, 11, ProofsOf([ExecutionPermit], 11), Fresh(11)), 1, false, listing)
  }

  /** The projection after that delivery. */
  ghost predicate Reopened(p: Projection) {
    && p.domain == 0 && p.version == 12 && p.state == RunReconciliationRequired && p.subject == Some("subject") && p.turn == Some(7)
    && Holds(p, Rec(11, ExecutionReceipt)) && p.execution == Some(Attempt(ReconciliationRequired))
  }

  /** A second receipt of the attempt. */
  function SettleAgain(p: Projection): Envelope {
    Envelope(
      Receive(Window(), Succeeded, Rec(6, Action) in p.invalidated), "provider", 0, 12, ProofsOf([ProviderReceipt], 12), Fresh(12))
  }

  lemma SecondReceiptEvaluates(p: Projection)
    requires Reopened(p)
    ensures Evaluate(p, SettleAgain(p), 1).Ok?
    ensures Evaluate(p, SettleAgain(p), 1).value.record == Some(Ref(11, 2, ExecutionReceipt, 0, 1, 100, 13, "policy"))
  {
    SignedFinds([ProviderReceipt], 12);
    hide ProofsOf, FoundProofs, Nonce;
  }

  // ---------------------------------------------------------------- corrections

  /** A well-formed correction of `target` at the end of `p`. */
  function Correct(p: Projection, target: Ref): Move {
    var ref := Ref(target.id, target.revision + 1, HumanModelAssertion, 0, 1, 100, p.version + 1, "policy");
    var q := Counted(p).(records := p.records[HumanModelAssertion := ref], invalidated := p.invalidated + {target});
    Move(
      CorrectHumanModelAssertion(target, Window(), true), "caller", [HumanModelCorrection], 1,
      Draft(q, Some(ref), RecordWasIssued(HumanModelAssertion)))
  }

  lemma CorrectionEvaluates(p: Projection, target: Ref)
    requires p.domain == 0 && AfterTheFact(p.state) && p.subject == Some("subject") && p.turn == Some(7)
    requires IsLive(p, target) && target.domain == 0 && target.revision == 1
    ensures Evaluate(p, Signed(Correct(p, target), p.version), 1) == Ok(Correct(p, target).draft)
  {
    SignedFinds([HumanModelCorrection], p.version);
    hide ProofsOf, FoundProofs;
  }
}
