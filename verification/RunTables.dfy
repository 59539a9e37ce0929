/**
  The tables beside the projection and the transaction that writes them: the recursive
  invalidation closure over stored dependency edges, and its effect on the projection.
 */
module RunTables {
  import opened Wrappers
  import opened Contracts
  import opened Graphs
  import opened RunModel

  datatype Consumption = Consumption(proofId: Id, nonce: string)

  /** What a reservation is for; it never changes. */
  datatype Fence = Fence(operation: Reference, idempotencyKey: string, action: RecordKey)

  datatype AttemptKey = AttemptKey(reservationId: Id, number: nat)

  datatype PermitRow = PermitRow(permitId: Id, nonce: string)

  /** The execution tables: reservations, their attempts, and the attempts that have a receipt. */
  datatype Executions = Executions(fences: map<Id, Fence>, attempts: map<AttemptKey, PermitRow>, receipts: set<AttemptKey>)

  /** `edges` leads from a dependency to its dependent; `log` lists committed events, oldest first. */
  datatype World = World(
    projection: Projection,
    stored: map<RecordKey, Ref>,
    edges: set<Edge<RecordKey>>,
    executions: Executions,
    consumed: seq<Consumption>,
    log: seq<Event>)

  function FreshWorld(domain: nat): World {
    World(PendingRun(domain), map[], {}, Executions(map[], map[], {}), [], [])
  }

  // ---------------------------------------------------------------- the closure

  /** The record at `root` and every record a walk of dependency edges reaches from it. */
  ghost function Closure(stored: map<RecordKey, Ref>, edges: set<Edge<RecordKey>>, root: RecordKey): set<Ref> {
    set k | k in stored && (k == root || Reaches(edges, root, k)) :: stored[k]
  }

  /** `listing` names exactly the records of `closure`, in whatever order the query returns them. */
  ghost predicate IsListing(listing: seq<Ref>, closure: set<Ref>) {
    forall r :: r in listing <==> r in closure
  }

  /** What invalidating one record clears. */
  function ClearBindings(p: Projection, r: Ref): Projection {
    match r.kind
    case Decision => if p.decision.Some? && p.decision.value.ref == r then p.(decision := None) else p
    case Response => if p.response.Some? && p.response.value.ref == r then p.(response := None) else p
    case Action =>
      p.(action := if p.action.Some? && p.action.value.ref == r then None else p.action,
         admission := if p.admission.Some? && p.admission.value.actionRef == r then None else p.admission)
    case ActionAdmissionDecision => if p.admission.Some? && p.admission.value.ref == r then p.(admission := None) else p
    case Outcome =>
      if p.outcome != Some(r) then p
      else
        p.(outcome := None,
           candidate := if p.candidate.Some? && p.candidate.value.outcomeRef == r then None else p.candidate,
           promotion := if p.promotion.Some? && p.promotion.value.outcomeRef == r then None else p.promotion)
    case HumanModelCandidate =>
      if p.candidate.None? || p.candidate.value.ref != r then p
      else
        p.(candidate := None,
           promotion := if p.promotion.Some? && p.promotion.value.sourceRef == r then None else p.promotion)
    case HumanModelPromotionDecision => if p.promotion.Some? && p.promotion.value.ref == r then p.(promotion := None) else p
    case _ => p
  }

  function LosingState(state: ExecutionState): ExecutionState {
    if state.DispatchStarted? || state.AwaitingProvider? || state.ReconciliationRequired? then ReconciliationRequired else Cancelled
  }

  function InvalidateOne(p: Projection, r: Ref): Projection {
    var q := ClearBindings(p.(invalidated := p.invalidated + {r}), r);
    if q.execution.Some? && q.execution.value.actionRef == r && !q.execution.value.state.IsTerminal() then
      q.(execution := Some(q.execution.value.(state := LosingState(q.execution.value.state))))
    else q
  }

  function InvalidateAll(p: Projection, listing: seq<Ref>): Projection {
    if listing == [] then p else InvalidateOne(InvalidateAll(p, listing[..|listing| - 1]), listing[|listing| - 1])
  }

  function ApplyClosure(p: Projection, listing: seq<Ref>, invalidateRun: bool): Projection {
    var q := InvalidateAll(p, listing);
    if invalidateRun then q.(state := Invalidated)
    else if q.execution.Some? && q.execution.value.state.ReconciliationRequired? then q.(state := RunReconciliationRequired)
    else q
  }

  // ---------------------------------------------------------------- dependencies

  /** The current record of a kind, unless it is the new one. */
  function CurrentOther(records: map<Kind, Ref>, k: Kind, ref: Ref): set<Ref> {
    if k in records && records[k] != ref then {records[k]} else {}
  }

  /** What the new record is stored as depending on, its predecessor aside. */
  function Dependencies(c: Command, records: map<Kind, Ref>, ref: Ref): set<Ref> {
    match c
    case RecordContext(_) => CurrentOther(records, CanonicalInput, ref)
    case RecordIntent(_, _) => CurrentOther(records, ContextSnapshot, ref)
    case RecordDecision(_, _) => CurrentOther(records, Intent, ref)
    case RecordTurn(_, _) => CurrentOther(records, Intent, ref) + CurrentOther(records, Decision, ref)
    case RecordResponse(_, _) => CurrentOther(records, TurnCoordination, ref)
    case RecordAction(_, _) =>
      CurrentOther(records, TurnCoordination, ref) + CurrentOther(records, if Decision in records then Decision else Intent, ref)
    case AdmitAction(actionRef, _, _, _, _) => {actionRef}
    case CommitExecutionReceipt(_, _, _, _, _, _, _) => CurrentOther(records, Action, ref)
    case RecordOutcome(_, _) => CurrentOther(records, ExecutionReceipt, ref)
    case ProposeHumanModelCandidate(_, _, _) => CurrentOther(records, Outcome, ref)
    case RecordHumanModelPromotion(_, sourceRef, _, _) => {sourceRef}
    case PromoteHumanModelAssertion(_, promotionRef, _) => {promotionRef}
    case CorrectHumanModelAssertion(assertionRef, _, _) => {assertionRef}
    case _ => {}
  }

  function PredecessorKey(ref: Ref): RecordKey
    requires ref.revision > 1
  {
    RecordKey(ref.id, ref.revision - 1)
  }

  /** The row that records one dependency of the new record. */
  function Row(dependency: RecordKey, ref: Ref): Edge<RecordKey> {
    Edge(dependency, ref.Key())
  }

  function NewEdges(c: Command, records: map<Kind, Ref>, ref: Ref): set<Edge<RecordKey>> {
    (set d | d in Dependencies(c, records, ref) :: Row(d.Key(), ref))
    + (if ref.revision > 1 then {Row(PredecessorKey(ref), ref)} else {})
  }

  /** The dependency table's keys: no row is written twice, and each row names a stored record. */
  predicate RowsFit(stored: map<RecordKey, Ref>, edges: set<Edge<RecordKey>>, c: Command, records: map<Kind, Ref>, ref: Ref) {
    var named := Dependencies(c, records, ref);
    && (ref.revision > 1 ==> Row(PredecessorKey(ref), ref) !in edges)
    && (forall d :: d in named ==>
          && d.Key() in stored && Row(d.Key(), ref) !in edges
          && (ref.revision > 1 ==> d.Key() != PredecessorKey(ref)))
    && (forall a, b :: a in named && b in named && a.Key() == b.Key() ==> a == b)
  }

  /** The assertion table's foreign key: a correction's predecessor is a stored assertion. */
  predicate CorrectsStoredAssertion(stored: map<RecordKey, Ref>, c: Command) {
    c.CorrectHumanModelAssertion? ==>
      c.assertionRef.Key() in stored && stored[c.assertionRef.Key()].kind.HumanModelAssertion?
  }

  /**
    The record table: revisions of a record follow one another under one policy revision, and
    digests are unique.
   */
  predicate RecordFits(stored: map<RecordKey, Ref>, ref: Ref) {
    && (forall k :: k in stored ==> (k.id == ref.id ==> k.revision < ref.revision) && stored[k].digest != ref.digest)
    && (ref.revision > 1 ==> PredecessorKey(ref) in stored && stored[PredecessorKey(ref)].policy == ref.policy)
  }

  // ---------------------------------------------------------------- the execution tables

  function FenceOf(x: Execution): Fence {
    Fence(x.operation, x.idempotencyKey, x.actionRef.Key())
  }

  function AttemptOf(x: Execution): AttemptKey {
    AttemptKey(x.reservationId, x.attempt)
  }

  function PermitOf(x: Execution): PermitRow {
    PermitRow(x.permitId, x.dispatchNonce)
  }

  /** The state changes a reservation's row takes; `revoked` is the transaction that follows revoked admission proofs. */
  predicate TransitionAllowed(from: ExecutionState, to: ExecutionState, revoked: bool) {
    || from == to
    || (from.ReservationCreated? && to.PermitIssued?)
    || (from.PermitIssued? && (to.PermitDelivered? || to.Expired? || to.Cancelled?))
    || (from.PermitDelivered? && (to.DispatchStarted? || to.Expired? || to.Cancelled?))
    || ((from.DispatchStarted? || from.AwaitingProvider?) && (to.ReconciliationRequired? || to.Settled()))
    || (from.ReconciliationRequired? && to.Settled())
    || ((from.Failed? || from.Rejected? || from.Expired?) && to.PermitIssued?)
    || (revoked && to.ReconciliationRequired?)
  }

  predicate WithinLimits(x: Execution, now: nat) {
    now < x.actionValidUntil && now < x.admissionValidUntil && now < x.authorizationValidUntil
  }

  predicate Continues(before: Option<Execution>, x: Execution) {
    before.Some? && before.value.reservationId == x.reservationId
  }

  /**
    The reservation's row. An existing one keeps its fence and moves along the allowed state
    changes; that of an earlier reservation was left cancelled, from which nothing leads on. A
    new one shares neither its action nor its operation and key with any other.
   */
  predicate FenceFits(fences: map<Id, Fence>, before: Option<Execution>, x: Execution, revoked: bool) {
    if Continues(before, x) then
      && x.reservationId in fences && fences[x.reservationId] == FenceOf(x)
      && TransitionAllowed(before.value.state, x.state, revoked)
    else
      && x.reservationId !in fences
      && forall id :: id in fences ==>
           && fences[id].action != x.actionRef.Key()
           && !(fences[id].operation == x.operation && fences[id].idempotencyKey == x.idempotencyKey)
  }

  /** The attempt's row. An existing one keeps its permit; a new one starts the next attempt with a new permit and nonce. */
  predicate AttemptFits(attempts: map<AttemptKey, PermitRow>, x: Execution) {
    if AttemptOf(x) in attempts then attempts[AttemptOf(x)] == PermitOf(x)
    else
      && x.state.PermitIssued?
      && (x.attempt > 1 ==> AttemptKey(x.reservationId, x.attempt - 1) in attempts)
      && forall k :: k in attempts ==>
           && attempts[k].permitId != x.permitId
           && (k.reservationId == x.reservationId ==> k.number < x.attempt && attempts[k].nonce != x.dispatchNonce)
  }

  /**
    Every transaction of a run with an execution writes its rows, which the tables take only
    while the action, the admission and the authorization last.
   */
  predicate RowsOfExecution(t: Executions, before: Option<Execution>, x: Execution, now: nat, revoked: bool) {
    WithinLimits(x, now) && FenceFits(t.fences, before, x, revoked) && AttemptFits(t.attempts, x)
  }

  /** An attempt takes one receipt. */
  predicate ReceiptFits(receipts: set<AttemptKey>, c: Command) {
    c.CommitExecutionReceipt? ==> AttemptKey(c.reservationId, c.attempt) !in receipts
  }

  predicate ExecutionFits(t: Executions, before: Option<Execution>, after: Option<Execution>, c: Command, now: nat, revoked: bool) {
    (after.Some? ==> RowsOfExecution(t, before, after.value, now, revoked)) && ReceiptFits(t.receipts, c)
  }

  function ExecutionWritten(t: Executions, after: Option<Execution>, c: Command): Executions {
    var receipts := t.receipts + (if c.CommitExecutionReceipt? then {AttemptKey(c.reservationId, c.attempt)} else {});
    if after.None? then t.(receipts := receipts)
    else
      var x := after.value;
      Executions(t.fences[x.reservationId := FenceOf(x)], t.attempts[AttemptOf(x) := PermitOf(x)], receipts)
  }

  // ---------------------------------------------------------------- the transaction

  predicate UsesAdmission(c: Command) {
    c.ReserveExecution? || c.RecoverPermit? || c.DeliverPermit? || c.StartDispatch?
  }

  /** The proofs an admission rests on no longer hold, or there is no admission. */
  predicate AdmissionFails(p: Projection, c: Command, proofsHold: bool) {
    UsesAdmission(c) && (p.admission.None? || !proofsHold)
  }

  predicate Replayed(consumed: seq<Consumption>, proofs: seq<Proof>) {
    exists i, j :: 0 <= i < |consumed| && 0 <= j < |proofs| && (consumed[i].proofId == proofs[j].id || consumed[i].nonce == proofs[j].nonce)
  }

  /** `validate` of the envelope: no proof twice, each in the command's domain. */
  predicate ProofsDistinct(proofs: seq<Proof>, domain: nat) {
    && (forall i :: 0 <= i < |proofs| ==> proofs[i].domain == domain)
    && (forall i, j :: 0 <= i < j < |proofs| ==> proofs[i].id != proofs[j].id && proofs[i].nonce != proofs[j].nonce)
  }

  function Consumptions(proofs: seq<Proof>): seq<Consumption> {
    seq(|proofs|, i requires 0 <= i < |proofs| => Consumption(proofs[i].id, proofs[i].nonce))
  }

  predicate CrossedDispatch(state: ExecutionState) {
    || state.DispatchStarted? || state.AwaitingProvider? || state.ReconciliationRequired? || state.Succeeded?
    || state.Failed? || state.Rejected? || state.Compensated?
  }

  /** The admission's proofs were revoked: the execution is cancelled, or left to reconcile once dispatched. */
  function ProofFailure(p: Projection): Projection {
    var crossed := p.execution.Some? && CrossedDispatch(p.execution.value.state);
    var q := Counted(p);
    q.(execution :=
         if q.execution.None? then None
         else Some(q.execution.value.(state := if crossed then ReconciliationRequired else Cancelled)),
       state := if crossed then RunReconciliationRequired else WaitingAuthorization)
  }

  /** The record whose closure a transaction invalidates, if any, and whether the whole run falls with it. */
  function ClosureRoot(p: Projection, c: Command, d: Draft): Option<Ref> {
    if c.InvalidateRecord? then Some(c.target)
    else
      var k := ExpectedKind(c);
      if k.Some? && k.value in p.records && d.record.Some? && d.record.value.kind == k.value && d.record.value != p.records[k.value]
      then Some(p.records[k.value])
      else None
  }

  /** The new record and its rows fit the record, dependency and assertion tables. */
  predicate RecordRowsFit(w: World, c: Command, records: map<Kind, Ref>, ref: Ref) {
    var stored := w.stored[ref.Key() := ref];
    RowsFit(stored, w.edges, c, records, ref) && CorrectsStoredAssertion(stored, c)
  }

  /** Writing the evaluated command: its record and dependency rows, its execution, the consumed proofs and the event. */
  function Persist(w: World, e: Envelope, d: Draft, now: nat, revoked: bool): Result<World, RunError> {
    if d.record.Some? && !RecordFits(w.stored, d.record.value) then Err(RecordRefused)
    else if d.record.Some? && !RecordRowsFit(w, e.command, d.projection.records, d.record.value) then Err(RowRefused)
    else if !ExecutionFits(w.executions, w.projection.execution, d.projection.execution, e.command, now, revoked) then Err(RowRefused)
    else
      Ok(World(
        d.projection,
        if d.record.Some? then w.stored[d.record.value.Key() := d.record.value] else w.stored,
        if d.record.Some? then w.edges + NewEdges(e.command, d.projection.records, d.record.value) else w.edges,
        ExecutionWritten(w.executions, d.projection.execution, e.command),
        w.consumed + Consumptions(e.proofs), w.log + [d.event]))
  }

  /** What evaluation and the closure make of the projection. */
  function Decide(p: Projection, e: Envelope, now: nat, proofsHold: bool, listing: seq<Ref>): Result<Draft, RunError> {
    if AdmissionFails(p, e.command, proofsHold) then
      if p.admission.None? then Err(ActionNotAdmitted)
      else Ok(Draft(ApplyClosure(ProofFailure(p), listing, false), None, OtherEvent("action_admission_proof_revoked")))
    else
      match Evaluate(p, e, now)
      case Err(error) => Err(error)
      case Ok(d) =>
        if ClosureRoot(p, e.command, d).None? then Ok(d)
        else Ok(d.(projection := ApplyClosure(d.projection, listing, e.command.InvalidateRecord?)))
  }

  /** The root of the closure that `Decide` needs listed. */
  function RootNeeded(p: Projection, e: Envelope, now: nat, proofsHold: bool): Option<Ref> {
    if AdmissionFails(p, e.command, proofsHold) then
      if p.admission.None? then None else Some(p.admission.value.ref)
    else
      match Evaluate(p, e, now)
      case Err(_) => None
      case Ok(d) => ClosureRoot(p, e.command, d)
  }

  ghost predicate ListsRoot(w: World, root: Option<Ref>, listing: seq<Ref>) {
    root.Some? ==> IsListing(listing, Closure(w.stored, w.edges, root.value.Key()))
  }

  /** One transaction: `proofsHold` says whether the bound admission proofs still verify. */
  function Transact(w: World, e: Envelope, now: nat, proofsHold: bool, listing: seq<Ref>): Result<World, RunError> {
    if !ProofsDistinct(e.proofs, e.domain) then Err(ProofReplay)
    else if Replayed(w.consumed, e.proofs) then Err(ProofReplay)
    else
      match Decide(w.projection, e, now, proofsHold, listing)
      case Err(error) => Err(error)
      case Ok(d) => Persist(w, e, d, now, AdmissionFails(w.projection, e.command, proofsHold))
  }

  datatype Input = Input(envelope: Envelope, now: nat, proofsHold: bool, listing: seq<Ref>)

  /** A committed transaction leads from `w` to `t`. */
  ghost predicate Steps(w: World, t: World, input: Input) {
    && ListsRoot(w, RootNeeded(w.projection, input.envelope, input.now, input.proofsHold), input.listing)
    && Transact(w, input.envelope, input.now, input.proofsHold, input.listing) == Ok(t)
  }

  /** A run: the fresh world, then one committed transaction after another. */
  ghost predicate IsRun(domain: nat, worlds: seq<World>, inputs: seq<Input>) {
    && |worlds| == |inputs| + 1
    && worlds[0] == FreshWorld(domain)
    && forall i :: 0 <= i < |inputs| ==> Steps(worlds[i], worlds[i + 1], inputs[i])
  }
}
