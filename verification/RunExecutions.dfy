/**
  What the execution tables hold in every reachable state: the rows of the current execution
  as the projection has it, and no attempt beyond it.
 */
module RunExecutions {
  import opened Wrappers
  import opened Contracts
  import opened RunModel
  import opened RunTables
  import opened RunInvariants
  import opened RunDrafts
  import opened RunSafety

  // ---------------------------------------------------------------- one transaction

  lemma SameTransitive(x: Option<Execution>, y: Option<Execution>, z: Option<Execution>)
    requires SameButState(x, y) && StoppedOrSame(y, z)
    ensures SameButState(x, z)
  {
  }

  lemma ReservationStands(p: Projection, c: Command, d: Draft, listing: seq<Ref>)
    requires c.ReserveExecution?
    ensures Closed(d, ClosureRoot(p, c, d), listing, false) == d.projection
  {
  }

  /** How a committed transaction moves the execution. */
  lemma StepMoves(w: World, t: World, input: Input)
    requires Steps(w, t, input)
    ensures
      if AdmissionFails(w.projection, input.envelope.command, input.proofsHold) then
        SameButState(w.projection.execution, t.projection.execution)
      else MovedBy(w.projection.execution, t.projection.execution, input.envelope.command)
  {
    hide Steps, Evaluate, AdmissionFails, Persist, ListsRoot, ClosureRoot, FollowsAttempt;
    EvaluatedOrFailed(w, t, input);
    var e, p := input.envelope, w.projection;
    if AdmissionFails(p, e.command, input.proofsHold) {
      FailureUnfolds(w, t, input);
      hide InvalidateAll;
      AllReleases(ProofFailure(p), input.listing);
      SameTransitive(p.execution, ProofFailure(p).execution, t.projection.execution);
    } else {
      var d := Evaluate(p, e, input.now).value;
      EvaluateFrames(p, e, input.now);
      StepUnfolds(w, t, input, d);
      hide Closed;
      var closed := Closed(d, ClosureRoot(p, e.command, d), input.listing, e.command.InvalidateRecord?);
      PersistKeeps(w, t, e, d.(projection := closed), input.now, false);
      if e.command.ReserveExecution? {
        ReservationStands(p, e.command, d, input.listing);
      } else {
        ClosedWeaker(d, ClosureRoot(p, e.command, d), input.listing, e.command.InvalidateRecord?);
        SameTransitive(p.execution, d.projection.execution, t.projection.execution);
      }
    }
  }

  /** Every committed transaction's rows were taken by the execution tables, and are there. */
  lemma StepFits(w: World, t: World, input: Input)
    requires Steps(w, t, input)
    ensures
      ExecutionFits(
        w.executions, w.projection.execution, t.projection.execution, input.envelope.command, input.now,
        AdmissionFails(w.projection, input.envelope.command, input.proofsHold))
    ensures t.executions == ExecutionWritten(w.executions, t.projection.execution, input.envelope.command)
  {
    hide Decide, ExecutionFits, RecordFits, RecordRowsFit, NewEdges, Replayed, ProofsDistinct, Consumptions, AdmissionFails, ListsRoot;
    hide ExecutionWritten;
  }

  // ---------------------------------------------------------------- rows

  /** The current execution's rows are as the projection has them, and its attempt is its reservation's last. */
  ghost predicate Filed(w: World) {
    && (forall k :: k in w.executions.attempts ==> k.reservationId in w.executions.fences)
    && (w.projection.execution.Some? ==> FiledAs(w.executions, w.projection.execution.value))
  }

  ghost predicate FiledAs(t: Executions, x: Execution) {
    && x.reservationId in t.fences && t.fences[x.reservationId] == FenceOf(x)
    && AttemptOf(x) in t.attempts && t.attempts[AttemptOf(x)] == PermitOf(x)
    && (forall k :: k in t.attempts && k.reservationId == x.reservationId ==> k.number <= x.attempt)
    && !x.state.NoExecution? && !x.state.ReservationCreated?
  }

  lemma RowsKeepFiled(
    t: Executions, before: Option<Execution>, x: Execution, c: Command, now: nat, revoked: bool)
    requires forall k :: k in t.attempts ==> k.reservationId in t.fences
    requires before.Some? ==> FiledAs(t, before.value)
    requires RowsOfExecution(t, before, x, now, revoked) && MovedBy(before, Some(x), c)
    ensures FiledAs(ExecutionWritten(t, Some(x), c), x)
    ensures forall k :: k in ExecutionWritten(t, Some(x), c).attempts ==> k.reservationId in ExecutionWritten(t, Some(x), c).fences
  {
    if Continues(before, x) {
      assert AttemptOf(x) in t.attempts ==> x.attempt >= before.value.attempt;
    }
  }

  lemma StepKeepsFiled(w: World, t: World, input: Input)
    requires Filed(w) && Steps(w, t, input)
    ensures Filed(t)
  {
    StepMoves(w, t, input);
    StepFits(w, t, input);
    hide Steps, FiledAs, RowsOfExecution, AdmissionFails, MovedBy;
    var c, revoked := input.envelope.command, AdmissionFails(w.projection, input.envelope.command, input.proofsHold);
    SameIsMoved(w.projection.execution, t.projection.execution, c);
    if t.projection.execution.Some? {
      RowsKeepFiled(w.executions, w.projection.execution, t.projection.execution.value, c, input.now, revoked);
    }
  }

  lemma SameIsMoved(x: Option<Execution>, y: Option<Execution>, c: Command)
    ensures SameButState(x, y) ==> MovedBy(x, y, c)
  {
  }

  // ---------------------------------------------------------------- operations

  /** The admission is the current action's. */
  predicate AdmissionAgrees(p: Projection) {
    p.admission.Some? ==>
      && p.action.Some? && p.action.value.ref == p.admission.value.actionRef
      && p.admission.value.operation == p.action.value.derivation.operation
      && p.admission.value.parameterDigest == p.action.value.derivation.parameterDigest
      && p.admission.value.request == p.action.value.request
      && p.admission.value.validUntil == p.admission.value.ref.validUntil
  }

  /** The execution is to do what the action says. */
  predicate CarriesOut(x: Execution, a: ActionBinding) {
    x.operation == a.derivation.operation && x.parameterDigest == a.derivation.parameterDigest && x.request == a.request
  }

  /** The execution's action is stored, and while it is the current one they agree on what to do. */
  ghost predicate ExecutionAgrees(stored: map<RecordKey, Ref>, p: Projection) {
    p.execution.Some? ==>
      var x := p.execution.value;
      && x.actionRef.Key() in stored && stored[x.actionRef.Key()] == x.actionRef
      && (p.action.Some? && p.action.value.ref == x.actionRef ==> CarriesOut(x, p.action.value))
  }

  ghost predicate Agrees(w: World) {
    AdmissionAgrees(w.projection) && ExecutionAgrees(w.stored, w.projection)
  }

  lemma OneKeepsAdmission(p: Projection, r: Ref)
    requires AdmissionAgrees(p)
    ensures AdmissionAgrees(InvalidateOne(p, r))
  {
  }

  lemma {:induction false} AllKeepAdmission(p: Projection, listing: seq<Ref>)
    requires AdmissionAgrees(p)
    ensures AdmissionAgrees(InvalidateAll(p, listing))
  {
    hide InvalidateOne, AdmissionAgrees;
    if listing != [] {
      AllKeepAdmission(p, listing[..|listing| - 1]);
      OneKeepsAdmission(InvalidateAll(p, listing[..|listing| - 1]), listing[|listing| - 1]);
    }
  }

  lemma WeakerKeepsExecution(stored: map<RecordKey, Ref>, longer: map<RecordKey, Ref>, p: Projection, q: Projection)
    requires Weaker(p, q) && ExecutionAgrees(stored, p)
    requires forall k :: k in stored ==> k in longer && longer[k] == stored[k]
    ensures ExecutionAgrees(longer, q)
  {
  }

  /** What the commands that touch action, admission or execution set. */
  lemma ActingAgrees(q: Projection, e: Envelope, now: nat)
    requires AdmissionAgrees(q) && Apply(q, e, now).Ok?
    requires e.command.RecordAction? || e.command.AdmitAction? || e.command.ReserveExecution?
    ensures
      var d := Apply(q, e, now).value;
      && AdmissionAgrees(d.projection)
      && (e.command.RecordAction? ==> d.record.Some? && d.projection.action.Some? && d.projection.action.value.ref == d.record.value)
      && (e.command.ReserveExecution? ==>
            && d.projection.action == q.action && q.action.Some? && IsLive(q, e.command.actionRef) && d.projection.execution.Some?
            && d.projection.execution.value.actionRef == e.command.actionRef == q.action.value.ref
            && CarriesOut(d.projection.execution.value, q.action.value))
  {
    hide ProofOfKind, EarliestExpiry, Issue, ReservationFor, CurrentAt;
  }

  lemma FinishActs(d: Draft)
    ensures
      var q := Finish(d).projection;
      q.action == d.projection.action && q.admission == d.projection.admission && q.execution == d.projection.execution
  {
  }

  lemma OthersAgree(p: Projection, c: Command, q: Projection, stored: map<RecordKey, Ref>)
    requires Untouched(Counted(p), c, q) && !c.RecordAction? && !c.AdmitAction? && !c.ReserveExecution?
    requires AdmissionAgrees(p) && ExecutionAgrees(stored, p)
    ensures AdmissionAgrees(q) && ExecutionAgrees(stored, q)
  {
  }

  lemma NewActionDiffers(stored: map<RecordKey, Ref>, p: Projection, q: Projection, ref: Ref)
    requires RecordFits(stored, ref) && ExecutionAgrees(stored, p) && SameButState(p.execution, q.execution)
    requires q.action.Some? && q.action.value.ref == ref
    ensures ExecutionAgrees(stored, q)
  {
    FittingIsNew(stored, ref);
  }

  lemma EvaluationAgrees(w: World, e: Envelope, now: nat)
    requires Invariant(w) && Agrees(w) && Evaluate(w.projection, e, now).Ok?
    requires
      var d := Evaluate(w.projection, e, now).value;
      d.record.Some? ==> RecordFits(w.stored, d.record.value)
    ensures
      var q := Evaluate(w.projection, e, now).value.projection;
      AdmissionAgrees(q) && ExecutionAgrees(w.stored, q)
  {
    var p, c := w.projection, e.command;
    EvaluateFrames(p, e, now);
    InvariantParts(w);
    hide LineageHolds, CommandAllowed, RequiredProofs, FoundProofs, Apply, Finish, RecordFits;
    hide EdgesRanked, LiveChain, NoDangling, BindingsName, FlightNames, LeaseBounded, FlightLogged, ConsumedDistinct;
    FinishActs(Apply(Counted(p), e, now).value);
    var d := Evaluate(p, e, now).value;
    if c.RecordAction? || c.AdmitAction? || c.ReserveExecution? {
      ActingAgrees(Counted(p), e, now);
      if c.RecordAction? {
        hide Invariant, RecordsStored, AdmissionAgrees;
        NewActionDiffers(w.stored, p, d.projection, d.record.value);
      } else if c.ReserveExecution? {
        StoredRecord(w, c.actionRef.kind);
      }
    } else {
      OthersAgree(p, c, d.projection, w.stored);
    }
  }

  lemma ClosedAgrees(w: World, t: World, d: Draft, root: Option<Ref>, listing: seq<Ref>, invalidateRun: bool)
    requires AdmissionAgrees(d.projection) && ExecutionAgrees(w.stored, d.projection)
    requires t.projection == Closed(d, root, listing, invalidateRun)
    requires forall k :: k in w.stored ==> k in t.stored && t.stored[k] == w.stored[k]
    ensures Agrees(t)
  {
    hide InvalidateAll, ExecutionAgrees;
    AllKeepAdmission(d.projection, listing);
    ClosedWeaker(d, root, listing, invalidateRun);
    WeakerKeepsExecution(w.stored, t.stored, d.projection, t.projection);
  }

  lemma FailureAgrees(w: World, t: World, input: Input)
    requires Agrees(w) && Steps(w, t, input) && AdmissionFails(w.projection, input.envelope.command, input.proofsHold)
    ensures Agrees(t)
  {
    FailureUnfolds(w, t, input);
    FailureStores(w, t, input);
    hide Steps, AdmissionFails;
    var d := Draft(ProofFailure(w.projection), None, OtherEvent("action_admission_proof_revoked"));
    ClosedAgrees(w, t, d, Some(w.projection.admission.value.ref), input.listing, false);
  }

  lemma FailureStores(w: World, t: World, input: Input)
    requires Steps(w, t, input) && AdmissionFails(w.projection, input.envelope.command, input.proofsHold)
    ensures t.stored == w.stored
  {
    hide Evaluate, ApplyClosure, ProofFailure, Closure, Replayed, ProofsDistinct, ListsRoot, Consumptions, ExecutionFits, ExecutionWritten;
  }

  lemma StepKeepsAgrees(w: World, t: World, input: Input)
    requires Invariant(w) && Agrees(w) && Steps(w, t, input)
    ensures Agrees(t)
  {
    hide Invariant, Agrees, Steps, Evaluate, AdmissionFails, Persist, ListsRoot, ClosureRoot, Closed, RecordFits;
    EvaluatedOrFailed(w, t, input);
    var e, p := input.envelope, w.projection;
    if AdmissionFails(p, e.command, input.proofsHold) {
      FailureAgrees(w, t, input);
    } else {
      var d := Evaluate(p, e, input.now).value;
      StepUnfolds(w, t, input, d);
      var root := ClosureRoot(p, e.command, d);
      PersistKeeps(w, t, e, d.(projection := Closed(d, root, input.listing, e.command.InvalidateRecord?)), input.now, false);
      if d.record.Some? {
        FittingIsNew(w.stored, d.record.value);
      }
      EvaluationAgrees(w, e, input.now);
      ClosedAgrees(w, t, d, root, input.listing, e.command.InvalidateRecord?);
    }
  }

  // ---------------------------------------------------------------- runs

  /** What the execution tables and the projection have in common in every reachable state. */
  ghost predicate Consistent(w: World) {
    Filed(w) && Agrees(w)
  }

  lemma {:induction false} RunsStayConsistent(domain: nat, worlds: seq<World>, inputs: seq<Input>, n: nat)
    requires IsRun(domain, worlds, inputs) && n < |worlds|
    ensures Consistent(worlds[n])
  {
    hide Steps, Filed, Agrees, Invariant;
    if n == 0 {
      FreshIsConsistent(domain);
    } else {
      RunsStayConsistent(domain, worlds, inputs, n - 1);
      RunsKeepInvariant(domain, worlds, inputs, n - 1);
      assert Steps(worlds[n - 1], worlds[n - 1 + 1], inputs[n - 1]);
      StepKeepsFiled(worlds[n - 1], worlds[n], inputs[n - 1]);
      StepKeepsAgrees(worlds[n - 1], worlds[n], inputs[n - 1]);
    }
  }

  lemma FreshIsConsistent(domain: nat)
    ensures Consistent(FreshWorld(domain))
  {
  }
}
