/**
  What becomes of a dispatched effect. After dispatch an execution waits for its receipt, at
  worst to be reconciled. Some commands, as evaluated, would cancel it then; the reservation
  table refuses those, so no run forgets an effect. A run dispatches at most once and commits
  at most one receipt: a receipt closes the run, and what revoked proofs reopen stays open.
  Past an execution's limits its run is frozen, so that late receipts and outcomes are lost.
 */
module RunEffects {
  import opened Wrappers
  import opened Contracts
  import opened RunModel
  import opened RunTables
  import opened RunInvariants
  import opened RunDrafts
  import opened RunSafety
  import opened RunExecutions

  /** The effect was handed to its provider and no receipt has settled it. */
  predicate Outstanding(p: Projection) {
    p.execution.Some? && AwaitsReceipt(p.execution.value.state)
  }

  predicate AwaitsReceipt(state: ExecutionState) {
    state.DispatchStarted? || state.AwaitingProvider? || state.ReconciliationRequired?
  }

  /** `q` holds the same attempt as `p`, in whatever state. */
  predicate SameAttempt(p: Projection, q: Projection) {
    p.execution.Some? && SameButState(p.execution, q.execution)
  }

  /** A receipt of the outstanding attempt was committed. */
  predicate Settles(p: Projection, q: Projection, c: Command) {
    && c.CommitExecutionReceipt? && SameAttempt(p, q) && c.permitId == p.execution.value.permitId
    && ExecutionReceipt in q.records
    && c.receipt.Some? && q.execution.value.state == c.receipt.value.terminal
    && q.execution.value.state.Settled()
  }

  /** Still outstanding, or settled by this step. */
  predicate Remembers(p: Projection, q: Projection, c: Command) {
    (Outstanding(q) && SameAttempt(p, q)) || Settles(p, q, c)
  }

  /** The commands that cancel an execution which is only waiting to be reconciled. */
  predicate Erases(p: Projection, c: Command) {
    && p.execution.Some? && p.execution.value.state.ReconciliationRequired?
    && (c.RecordAction? || c.DeliverPermit? || c.StartDispatch?
        || (c.InvalidateRecord? && c.target.id == p.execution.value.actionRef.id))
  }

  // ---------------------------------------------------------------- one command

  lemma AdvanceRemembers(
    q: Projection, reservationId: Id, permitId: Id, caller: Reference, from: ExecutionState, to: ExecutionState, event: Event, now: nat)
    requires Outstanding(q) && !AwaitsReceipt(from)
    requires ApplyAdvance(q, reservationId, permitId, caller, from, to, event, now).Ok?
    ensures
      var t := ApplyAdvance(q, reservationId, permitId, caller, from, to, event, now).value.projection;
      && SameAttempt(q, t) && (Outstanding(t) <==> !q.execution.value.state.ReconciliationRequired?)
      && (q.execution.value.state.ReconciliationRequired? ==> t.execution.value.state.Cancelled?)
  {
  }

  lemma ReserveRefused(q: Projection, c: Command, caller: Reference, proofs: seq<Proof>, m: Minted, now: nat)
    requires Outstanding(q) && c.ReserveExecution?
    ensures ApplyReserve(q, c, caller, proofs, m, now).Err?
  {
    hide ProofOfKind;
  }

  lemma ActionRemembers(q: Projection, s: Submission, derivation: Option<Derivation>, m: Minted, now: nat)
    requires Outstanding(q) && ApplyAction(q, s, derivation, m, now).Ok?
    ensures
      var t := ApplyAction(q, s, derivation, m, now).value.projection;
      && SameAttempt(q, t) && (Outstanding(t) <==> !q.execution.value.state.ReconciliationRequired?)
      && (q.execution.value.state.ReconciliationRequired? ==> t.execution.value.state.Cancelled?)
  {
  }

  lemma ReceiptSettles(q: Projection, c: Command, caller: Reference, m: Minted, now: nat)
    requires Outstanding(q) && c.CommitExecutionReceipt? && ApplyReceipt(q, c, caller, m, now).Ok?
    ensures Settles(q, Finish(ApplyReceipt(q, c, caller, m, now).value).projection, c)
  {
  }

  /** Commands that leave the execution alone. */
  predicate Bystander(c: Command) {
    !(c.RecordAction? || c.ReserveExecution? || c.RecoverPermit? || c.DeliverPermit? || c.StartDispatch?
      || c.CommitExecutionReceipt? || c.ExpireExecutionLease? || c.InvalidateRecord?)
  }

  lemma BystandersKeep(q: Projection, e: Envelope, now: nat)
    requires Bystander(e.command) && Apply(q, e, now).Ok?
    ensures Apply(q, e, now).value.projection.execution == q.execution
  {
    hide ProofOfKind, EarliestExpiry, CurrentAt, ExactCurrentAt, HistoricalEvidence, GovernanceTarget;
  }

  lemma FinishKeeps(d: Draft)
    ensures Finish(d).projection.execution == d.projection.execution
  {
  }

  /** Of the commands the evaluator accepts while an effect is outstanding, exactly those of `Erases` forget it. */
  lemma EvaluationRemembers(p: Projection, e: Envelope, now: nat)
    requires Outstanding(p) && Evaluate(p, e, now).Ok?
    ensures Remembers(p, Evaluate(p, e, now).value.projection, e.command) <==> !Erases(p, e.command)
    ensures SameAttempt(p, Evaluate(p, e, now).value.projection)
    ensures Erases(p, e.command) ==> Evaluate(p, e, now).value.projection.execution.value.state.Cancelled?
  {
    hide LineageHolds, CommandAllowed, RequiredProofs, FoundProofs, ApplyAction, ApplyAdvance, ApplyReceipt, ApplyReserve;
    var c, m, q := e.command, e.minted, Counted(p);
    FinishKeeps(Apply(q, e, now).value);
    if Bystander(c) {
      BystandersKeep(q, e, now);
    } else {
      match c
      case RecordAction(s, derivation) => ActionRemembers(q, s, derivation, m, now);
      case ReserveExecution(_, _, _, _, _, _, _, _, _) => ReserveRefused(q, c, e.caller, e.proofs, m, now);
      case DeliverPermit(r, permit) =>
        AdvanceRemembers(q, r, permit, e.caller, PermitIssued, PermitDelivered, PermitWasDelivered(permit), now);
      case StartDispatch(r, permit) =>
        AdvanceRemembers(q, r, permit, e.caller, PermitDelivered, DispatchStarted, DispatchWasStarted(permit), now);
      case CommitExecutionReceipt(_, _, _, _, _, _, _) => ReceiptSettles(q, c, e.caller, m, now);
      case _ =>
    }
  }

  // ---------------------------------------------------------------- one transaction

  lemma OneRemembers(p: Projection, r: Ref)
    requires p.execution.Some? && (AwaitsReceipt(p.execution.value.state) || p.execution.value.state.IsTerminal())
    ensures SameAttempt(p, InvalidateOne(p, r)) && (Outstanding(p) <==> Outstanding(InvalidateOne(p, r)))
    ensures p.execution.value.state.IsTerminal() ==> InvalidateOne(p, r).execution == p.execution
  {
    hide ClearBindings;
    ClearIsWeaker(p.(invalidated := p.invalidated + {r}), r);
  }

  /** No closure forgets an effect, and none touches an execution that has ended. */
  lemma {:induction false} AllRemember(p: Projection, listing: seq<Ref>)
    requires p.execution.Some? && (AwaitsReceipt(p.execution.value.state) || p.execution.value.state.IsTerminal())
    ensures SameAttempt(p, InvalidateAll(p, listing)) && (Outstanding(p) <==> Outstanding(InvalidateAll(p, listing)))
    ensures p.execution.value.state.IsTerminal() ==> InvalidateAll(p, listing).execution == p.execution
  {
    hide InvalidateOne;
    if listing != [] {
      AllRemember(p, listing[..|listing| - 1]);
      OneRemembers(InvalidateAll(p, listing[..|listing| - 1]), listing[|listing| - 1]);
    }
  }

  /** Revoked admission proofs leave the effect to be reconciled. */
  lemma FailureRemembers(w: World, t: World, input: Input)
    requires Steps(w, t, input) && AdmissionFails(w.projection, input.envelope.command, input.proofsHold) && Outstanding(w.projection)
    ensures Outstanding(t.projection) && SameAttempt(w.projection, t.projection)
  {
    FailureUnfolds(w, t, input);
    hide Steps, AdmissionFails, InvalidateAll;
    AllRemember(ProofFailure(w.projection), input.listing);
  }

  lemma ClosedRemembers(p: Projection, c: Command, d: Draft, root: Option<Ref>, listing: seq<Ref>)
    requires Outstanding(p) && SameAttempt(p, d.projection) && (Remembers(p, d.projection, c) <==> !Erases(p, c))
    requires Outstanding(d.projection) || d.projection.execution.value.state.IsTerminal()
    ensures Remembers(p, Closed(d, root, listing, c.InvalidateRecord?), c) <==> !Erases(p, c)
    ensures d.projection.execution.value.state.IsTerminal() ==>
      Closed(d, root, listing, c.InvalidateRecord?).execution == d.projection.execution
  {
    hide InvalidateAll, Released, Erases;
    AllRemember(d.projection, listing);
    AllReleases(d.projection, listing);
  }

  /**
    A committed transaction leaves an outstanding effect outstanding, or settles it with its
    receipt: those of `Erases` fit no reservation.
   */
  lemma StepRemembers(w: World, t: World, input: Input)
    requires Steps(w, t, input) && Outstanding(w.projection)
    ensures Remembers(w.projection, t.projection, input.envelope.command)
  {
    hide Steps, Evaluate, AdmissionFails, Erases, Closed, Persist, ListsRoot, ClosureRoot, RowsOfExecution;
    EvaluatedOrFailed(w, t, input);
    StepFits(w, t, input);
    var e, p := input.envelope, w.projection;
    if AdmissionFails(p, e.command, input.proofsHold) {
      FailureRemembers(w, t, input);
    } else {
      var d := Evaluate(p, e, input.now).value;
      EvaluationRemembers(p, e, input.now);
      StepUnfolds(w, t, input, d);
      var root := ClosureRoot(p, e.command, d);
      ClosedRemembers(p, e.command, d, root, input.listing);
      PersistKeeps(w, t, e, d.(projection := Closed(d, root, input.listing, e.command.InvalidateRecord?)), input.now, false);
      ErasureDoesNotFit(w, t.projection, e.command, input.now);
    }
  }

  lemma ErasureDoesNotFit(w: World, q: Projection, c: Command, now: nat)
    requires ExecutionFits(w.executions, w.projection.execution, q.execution, c, now, false) && SameAttempt(w.projection, q)
    ensures Erases(w.projection, c) ==> !q.execution.value.state.Cancelled?
  {
    hide AttemptFits, WithinLimits, ReceiptFits;
  }

  // ---------------------------------------------------------------- after dispatch

  /** The run takes commands that could lead to another execution. */
  predicate Open(state: RunState) {
    state.Pending? || state.Running? || state.WaitingInput? || state.WaitingAuthorization? || state.WaitingDependency?
  }

  /** The run's execution was dispatched: it is outstanding, or settled with the run closed. */
  predicate Spent(p: Projection) {
    p.execution.Some? && (AwaitsReceipt(p.execution.value.state) || (p.execution.value.state.Settled() && !Open(p.state)))
  }

  /** A receipt closes the run. */
  lemma ReceiptCloses(p: Projection, e: Envelope, now: nat)
    requires e.command.CommitExecutionReceipt? && Evaluate(p, e, now).Ok?
    ensures Outstanding(p) && Settles(p, Evaluate(p, e, now).value.projection, e.command)
    ensures !Open(Evaluate(p, e, now).value.projection.state)
    ensures e.command.reservationId == p.execution.value.reservationId && e.command.attempt == p.execution.value.attempt
  {
    hide LineageHolds, CommandAllowed, RequiredProofs, FoundProofs, Issue, Settles;
    ReceiptSettles(Counted(p), e.command, e.caller, e.minted, now);
    CountedSettles(p, Evaluate(p, e, now).value.projection, e.command);
  }

  lemma CountedSettles(p: Projection, q: Projection, c: Command)
    requires Settles(Counted(p), q, c)
    ensures Settles(p, q, c)
  {
  }

  /** What a closed run with a settled execution still accepts leaves both as they are. */
  lemma ClosedStays(p: Projection, e: Envelope, now: nat)
    requires Spent(p) && p.execution.value.state.Settled() && Evaluate(p, e, now).Ok?
    ensures
      var q := Evaluate(p, e, now).value.projection;
      q.execution == p.execution && !Open(q.state) && !e.command.InvalidateRecord?
  {
    hide LineageHolds, RequiredProofs, FoundProofs, ApplyStart, ApplyPlain, ApplyReceipt;
    if e.command.CommitExecutionReceipt? {
      ReceiptCloses(p, e, now);
    } else {
      EvaluateFrames(p, e, now);
    }
  }

  /** A settled execution and its closed run stay as they are through a closure that does not fall on the whole run. */
  lemma ClosureStays(d: Draft, root: Option<Ref>, listing: seq<Ref>)
    requires d.projection.execution.Some? && d.projection.execution.value.state.Settled()
    ensures Closed(d, root, listing, false).execution == d.projection.execution
    ensures !Open(d.projection.state) ==> !Open(Closed(d, root, listing, false).state)
  {
    AllRemember(d.projection, listing);
    AllKeepState(d.projection, listing);
    hide InvalidateAll;
  }

  lemma {:induction false} AllKeepState(p: Projection, listing: seq<Ref>)
    ensures InvalidateAll(p, listing).state == p.state
  {
    if listing != [] {
      AllKeepState(p, listing[..|listing| - 1]);
    }
  }

  lemma FailureReopens(w: World, t: World, input: Input)
    requires Steps(w, t, input) && AdmissionFails(w.projection, input.envelope.command, input.proofsHold) && Spent(w.projection)
    ensures Outstanding(t.projection) && SameAttempt(w.projection, t.projection)
  {
    FailureUnfolds(w, t, input);
    hide Steps, AdmissionFails, InvalidateAll;
    AllRemember(ProofFailure(w.projection), input.listing);
  }

  /** Once dispatched, a run's execution is spent for good. */
  lemma StepKeepsSpent(w: World, t: World, input: Input)
    requires Steps(w, t, input) && Spent(w.projection)
    ensures Spent(t.projection) && SameAttempt(w.projection, t.projection)
  {
    hide Steps, Evaluate, AdmissionFails, Closed, Persist, ListsRoot, ClosureRoot, Open;
    EvaluatedOrFailed(w, t, input);
    var e, p := input.envelope, w.projection;
    if AdmissionFails(p, e.command, input.proofsHold) {
      FailureReopens(w, t, input);
    } else {
      var d := Evaluate(p, e, input.now).value;
      StepUnfolds(w, t, input, d);
      var root := ClosureRoot(p, e.command, d);
      PersistKeeps(w, t, e, d.(projection := Closed(d, root, input.listing, e.command.InvalidateRecord?)), input.now, false);
      if Outstanding(p) {
        StepRemembers(w, t, input);
        if e.command.CommitExecutionReceipt? {
          ReceiptCloses(p, e, input.now);
          ClosureStays(d, root, input.listing);
        }
      } else {
        ClosedStays(p, e, input.now);
        ClosureStays(d, root, input.listing);
      }
    }
  }

  /** The evaluator reserves nothing for it any more. */
  lemma SpentTakesNoReservation(p: Projection, e: Envelope, now: nat)
    requires Spent(p) && e.command.ReserveExecution?
    ensures Evaluate(p, e, now).Err?
  {
    hide LineageHolds, RequiredProofs, FoundProofs, ApplyReserve;
    if Outstanding(p) {
      ReserveRefused(Counted(p), e.command, e.caller, e.proofs, e.minted, now);
    }
  }

  /** A settled execution is reopened exactly by a command that finds its admission's proofs revoked. */
  lemma RevocationReopens(w: World, t: World, input: Input)
    requires Steps(w, t, input) && Spent(w.projection) && !Outstanding(w.projection)
    ensures Outstanding(t.projection) <==> AdmissionFails(w.projection, input.envelope.command, input.proofsHold)
  {
    hide Steps, Evaluate, AdmissionFails, Closed, Persist, ListsRoot, ClosureRoot, Open;
    EvaluatedOrFailed(w, t, input);
    var e, p := input.envelope, w.projection;
    if AdmissionFails(p, e.command, input.proofsHold) {
      FailureReopens(w, t, input);
    } else {
      var d := Evaluate(p, e, input.now).value;
      StepUnfolds(w, t, input, d);
      var root := ClosureRoot(p, e.command, d);
      PersistKeeps(w, t, e, d.(projection := Closed(d, root, input.listing, e.command.InvalidateRecord?)), input.now, false);
      ClosedStays(p, e, input.now);
      ClosureStays(d, root, input.listing);
    }
  }

  // ---------------------------------------------------------------- receipts

  /** A committed receipt is that of the execution, which awaited it, and is the attempt's first. */
  lemma ReceiptCommitted(w: World, t: World, input: Input)
    requires Steps(w, t, input) && input.envelope.command.CommitExecutionReceipt?
    ensures Outstanding(w.projection) && AttemptOf(w.projection.execution.value) !in w.executions.receipts
    ensures AttemptOf(w.projection.execution.value) in t.executions.receipts
  {
    EvaluatedOrFailed(w, t, input);
    ReceiptUsesNoAdmission(w.projection, input.envelope.command, input.proofsHold);
    StepFits(w, t, input);
    hide Steps, Evaluate, AdmissionFails, RowsOfExecution;
    ReceiptCloses(w.projection, input.envelope, input.now);
  }

  lemma ReceiptUsesNoAdmission(p: Projection, c: Command, proofsHold: bool)
    requires c.CommitExecutionReceipt?
    ensures !AdmissionFails(p, c, proofsHold)
  {
  }

  /** The run's execution was dispatched and its attempt has a receipt. */
  predicate Receipted(w: World) {
    Spent(w.projection) && AttemptOf(w.projection.execution.value) in w.executions.receipts
  }

  lemma StepKeepsReceipt(w: World, t: World, input: Input)
    requires Steps(w, t, input) && Receipted(w)
    ensures Receipted(t)
  {
    StepKeepsSpent(w, t, input);
    StepFits(w, t, input);
    SpentHasExecution(w.projection);
    hide Steps, AdmissionFails, Spent, RowsOfExecution;
  }

  /** An outstanding attempt that has a receipt takes no other: it stays outstanding. */
  lemma ReopenedStays(w: World, t: World, input: Input)
    requires Steps(w, t, input) && Outstanding(w.projection) && AttemptOf(w.projection.execution.value) in w.executions.receipts
    ensures Outstanding(t.projection) && SameAttempt(w.projection, t.projection)
    ensures AttemptOf(t.projection.execution.value) in t.executions.receipts
  {
    StepRemembers(w, t, input);
    StepFits(w, t, input);
    hide Steps, AdmissionFails, RowsOfExecution;
    if input.envelope.command.CommitExecutionReceipt? {
      ReceiptCommitted(w, t, input);
    }
  }

  // ---------------------------------------------------------------- limits

  /**
    Past a limit of its execution nothing commits in a run, except a reservation that
    replaces the execution: late receipts, outcomes and what is learned from them are lost.
   */
  lemma FrozenPastLimits(w: World, input: Input)
    requires w.projection.execution.Some? && !WithinLimits(w.projection.execution.value, input.now)
    requires ListsRoot(w, RootNeeded(w.projection, input.envelope, input.now, input.proofsHold), input.listing)
    ensures
      Commits(w, input) ==>
        input.envelope.command.ReserveExecution? && !AdmissionFails(w.projection, input.envelope.command, input.proofsHold)
  {
    hide Transact, ListsRoot, RootNeeded, AdmissionFails, FenceFits, AttemptFits, FollowsAttempt;
    var r := Transact(w, input.envelope, input.now, input.proofsHold, input.listing);
    if r.Ok? {
      assert Steps(w, r.value, input);
      StepMoves(w, r.value, input);
      StepFits(w, r.value, input);
    }
  }

  /** Once dispatched not even that. */
  lemma SpentIsFrozen(w: World, input: Input)
    requires Spent(w.projection) && !WithinLimits(w.projection.execution.value, input.now)
    requires ListsRoot(w, RootNeeded(w.projection, input.envelope, input.now, input.proofsHold), input.listing)
    ensures !Commits(w, input)
  {
    SpentHasExecution(w.projection);
    hide Transact, ListsRoot, RootNeeded, AdmissionFails, Spent, WithinLimits;
    FrozenPastLimits(w, input);
    var r := Transact(w, input.envelope, input.now, input.proofsHold, input.listing);
    if r.Ok? {
      assert Steps(w, r.value, input);
      hide Steps;
      EvaluatedOrFailed(w, r.value, input);
      if input.envelope.command.ReserveExecution? {
        SpentTakesNoReservation(w.projection, input.envelope, input.now);
      }
    }
  }

  lemma DecidedIsClosed(w: World, input: Input)
    requires Presentable(w, input)
    ensures
      var d := Evaluate(w.projection, input.envelope, input.now).value;
      && DecidedDraft(w, input).Ok?
      && DecidedDraft(w, input).value.projection ==
         Closed(d, ClosureRoot(w.projection, input.envelope.command, d), input.listing, input.envelope.command.InvalidateRecord?)
  {
    hide Evaluate, ApplyClosure, ClosureRoot, AdmissionFails, ListsRoot, RecordFits, ProofsDistinct, Replayed;
  }

  /** Rows of the execution in hand, moved along an allowed state change, fit exactly within its limits. */
  lemma SameRowsFit(t: Executions, x: Execution, y: Execution, now: nat)
    requires FiledAs(t, x) && y == x.(state := y.state) && TransitionAllowed(x.state, y.state, false)
    ensures RowsOfExecution(t, Some(x), y, now, false) <==> WithinLimits(x, now)
  {
  }

  /**
    A receipt that the evaluator accepts and that is presentable commits exactly within the
    execution's limits and as the attempt's first.
   */
  lemma ReceiptCommitsOnceWithinLimits(w: World, input: Input)
    requires Invariant(w) && Consistent(w) && Presentable(w, input) && input.envelope.command.CommitExecutionReceipt?
    ensures w.projection.execution.Some?
    ensures Commits(w, input) <==>
      (&& WithinLimits(w.projection.execution.value, input.now)
       && AttemptOf(w.projection.execution.value) !in w.executions.receipts)
  {
    PresentableIsAccepted(w, input);
    hide Invariant, Evaluate, Presentable, Commits, Settles, Closed, Agrees, RowsOfExecution, FiledAs, TransitionAllowed, ClosureRoot;
    var e, p := input.envelope, w.projection;
    CommitsUnlessCorrection(w, input);
    DecidedIsClosed(w, input);
    ReceiptCloses(p, e, input.now);
    var d := Evaluate(p, e, input.now).value;
    SettlementIsAllowed(p, d.projection, e.command);
    ClosureStays(d, ClosureRoot(p, e.command, d), input.listing);
    SameRowsFit(w.executions, p.execution.value, d.projection.execution.value, input.now);
  }

  lemma PresentableIsAccepted(w: World, input: Input)
    requires Presentable(w, input)
    ensures Evaluate(w.projection, input.envelope, input.now).Ok?
    ensures !AdmissionFails(w.projection, input.envelope.command, input.proofsHold)
  {
    hide Evaluate, AdmissionFails, ListsRoot, RecordFits, ProofsDistinct, Replayed;
  }

  lemma SettlementIsAllowed(p: Projection, q: Projection, c: Command)
    requires Outstanding(p) && Settles(p, q, c)
    ensures q.execution.Some? && q.execution.value.state.Settled()
    ensures q.execution.value == p.execution.value.(state := q.execution.value.state)
    ensures TransitionAllowed(p.execution.value.state, q.execution.value.state, false)
  {
  }

  // ---------------------------------------------------------------- commands that leave the execution alone

  lemma OneStopsAllowed(p: Projection, r: Ref)
    requires p.execution.Some? && !p.execution.value.state.NoExecution? && !p.execution.value.state.ReservationCreated?
    ensures
      var q := InvalidateOne(p, r);
      && q.execution.Some? && q.execution.value == p.execution.value.(state := q.execution.value.state)
      && (q.execution == p.execution || (!p.execution.value.state.IsTerminal() && q.execution.value.state == LosingState(p.execution.value.state)))
  {
    hide ClearBindings;
    ClearIsWeaker(p.(invalidated := p.invalidated + {r}), r);
  }

  /** What a closure does to an execution is an allowed state change. */
  lemma {:induction false} AllStopAllowed(p: Projection, listing: seq<Ref>)
    requires p.execution.Some? && !p.execution.value.state.NoExecution? && !p.execution.value.state.ReservationCreated?
    ensures
      var q := InvalidateAll(p, listing);
      && q.execution.Some? && q.execution.value == p.execution.value.(state := q.execution.value.state)
      && (q.execution == p.execution || (!p.execution.value.state.IsTerminal() && q.execution.value.state == LosingState(p.execution.value.state)))
  {
    hide InvalidateOne;
    if listing != [] {
      AllStopAllowed(p, listing[..|listing| - 1]);
      OneStopsAllowed(InvalidateAll(p, listing[..|listing| - 1]), listing[|listing| - 1]);
    }
  }

  lemma ClosedStopsAllowed(d: Draft, root: Option<Ref>, listing: seq<Ref>)
    requires
      d.projection.execution.Some? && !d.projection.execution.value.state.NoExecution? && !d.projection.execution.value.state.ReservationCreated?
    ensures
      var x, q := d.projection.execution.value, Closed(d, root, listing, false);
      && q.execution.Some? && q.execution.value == x.(state := q.execution.value.state)
      && TransitionAllowed(x.state, q.execution.value.state, false)
  {
    hide InvalidateAll;
    AllStopAllowed(d.projection, listing);
  }

  lemma {:induction false} AllKeepNone(p: Projection, listing: seq<Ref>)
    requires p.execution.None?
    ensures InvalidateAll(p, listing).execution.None?
  {
    AllReleases(p, listing);
  }

  /**
    Outcomes, what is proposed and promoted from them, and every other presentable command
    that leaves the execution alone, corrections aside, commit exactly within the limits of
    the run's execution, if it has one.
   */
  lemma BystandersCommitWithinLimits(w: World, input: Input)
    requires Invariant(w) && Consistent(w) && Presentable(w, input)
    requires Bystander(input.envelope.command) && !input.envelope.command.CorrectHumanModelAssertion?
    ensures Commits(w, input) <==>
      (w.projection.execution.Some? ==> WithinLimits(w.projection.execution.value, input.now))
  {
    PresentableIsAccepted(w, input);
    hide Invariant, Evaluate, Presentable, Commits, Closed, Agrees, RowsOfExecution, TransitionAllowed, ClosureRoot;
    var e, p := input.envelope, w.projection;
    CommitsUnlessCorrection(w, input);
    DecidedIsClosed(w, input);
    EvaluateFrames(p, e, input.now);
    var d := Evaluate(p, e, input.now).value;
    var root := ClosureRoot(p, e.command, d);
    assert d.projection.execution == p.execution;
    if p.execution.Some? {
      ClosedStopsAllowed(d, root, input.listing);
      SameRowsFit(w.executions, p.execution.value, Closed(d, root, input.listing, false).execution.value, input.now);
    } else {
      ClosedWeaker(d, root, input.listing, false);
    }
  }

  // ---------------------------------------------------------------- runs

  /** Step `k` of the run commits the receipt of the attempt that `p` holds. */
  ghost predicate SettledAt(worlds: seq<World>, inputs: seq<Input>, p: Projection, k: nat) {
    && k < |inputs| && k + 1 < |worlds| && SameAttempt(p, worlds[k].projection)
    && Settles(worlds[k].projection, worlds[k + 1].projection, inputs[k].envelope.command)
  }

  /** Whatever was dispatched is outstanding until its receipt is committed. */
  lemma {:induction false} EffectsAreRemembered(domain: nat, worlds: seq<World>, inputs: seq<Input>, i: nat, j: nat)
    requires IsRun(domain, worlds, inputs) && i <= j < |worlds| && Outstanding(worlds[i].projection)
    ensures
      || (Outstanding(worlds[j].projection) && SameAttempt(worlds[i].projection, worlds[j].projection))
      || (exists k :: i <= k < j && SettledAt(worlds, inputs, worlds[i].projection, k))
    decreases j
  {
    hide Steps, Settles;
    if i < j {
      EffectsAreRemembered(domain, worlds, inputs, i, j - 1);
      if !exists k :: i <= k < j - 1 && SettledAt(worlds, inputs, worlds[i].projection, k) {
        assert Steps(worlds[j - 1], worlds[j - 1 + 1], inputs[j - 1]);
        StepRemembers(worlds[j - 1], worlds[j], inputs[j - 1]);
        assert SettledAt(worlds, inputs, worlds[i].projection, j - 1) || Outstanding(worlds[j].projection);
      }
    }
  }

  /** From its dispatch on a run holds that attempt, spent, and no other is ever reserved. */
  lemma {:induction false} SpentForGood(domain: nat, worlds: seq<World>, inputs: seq<Input>, i: nat, j: nat)
    requires IsRun(domain, worlds, inputs) && i <= j < |worlds| && Spent(worlds[i].projection)
    ensures Spent(worlds[j].projection) && SameAttempt(worlds[i].projection, worlds[j].projection)
    ensures forall e: Envelope, now: nat :: e.command.ReserveExecution? ==> Evaluate(worlds[j].projection, e, now).Err?
    decreases j
  {
    hide Steps, Spent, Evaluate;
    if i < j {
      SpentForGood(domain, worlds, inputs, i, j - 1);
      assert Steps(worlds[j - 1], worlds[j - 1 + 1], inputs[j - 1]);
      StepKeepsSpent(worlds[j - 1], worlds[j], inputs[j - 1]);
    } else {
      SpentHasExecution(worlds[i].projection);
    }
    forall e: Envelope, now: nat | e.command.ReserveExecution?
      ensures Evaluate(worlds[j].projection, e, now).Err?
    {
      SpentTakesNoReservation(worlds[j].projection, e, now);
    }
  }

  lemma SpentHasExecution(p: Projection)
    requires Spent(p)
    ensures p.execution.Some?
  {
  }

  /** A settled execution's run is closed. */
  predicate Closes(p: Projection) {
    p.execution.Some? && p.execution.value.state.Settled() ==> !Open(p.state)
  }

  lemma StepCloses(w: World, t: World, input: Input)
    requires Steps(w, t, input) && Closes(w.projection)
    ensures Closes(t.projection)
  {
    StepMoves(w, t, input);
    StepFits(w, t, input);
    hide Steps, AdmissionFails, WithinLimits, AttemptFits, Open, FollowsAttempt;
    if t.projection.execution.Some? && t.projection.execution.value.state.Settled() {
      StepKeepsSpent(w, t, input);
    }
  }

  lemma {:induction false} RunsClose(domain: nat, worlds: seq<World>, inputs: seq<Input>, n: nat)
    requires IsRun(domain, worlds, inputs) && n < |worlds|
    ensures Closes(worlds[n].projection)
  {
    hide Steps;
    if n > 0 {
      RunsClose(domain, worlds, inputs, n - 1);
      assert Steps(worlds[n - 1], worlds[n - 1 + 1], inputs[n - 1]);
      StepCloses(worlds[n - 1], worlds[n], inputs[n - 1]);
    }
  }

  /** After a failed or rejected receipt no further attempt is reserved, in any run. */
  lemma FailedTakesNoRetry(domain: nat, worlds: seq<World>, inputs: seq<Input>, i: nat, j: nat, e: Envelope, now: nat)
    requires IsRun(domain, worlds, inputs) && i <= j < |worlds| && worlds[i].projection.execution.Some?
    requires worlds[i].projection.execution.value.state.Failed? || worlds[i].projection.execution.value.state.Rejected?
    requires e.command.ReserveExecution?
    ensures Evaluate(worlds[j].projection, e, now).Err? && SameAttempt(worlds[i].projection, worlds[j].projection)
  {
    RunsClose(domain, worlds, inputs, i);
    hide IsRun, Open, Evaluate;
    SpentForGood(domain, worlds, inputs, i, j);
  }

  /** What starts a dispatch holds a delivered permit, so nothing is spent before it. */
  lemma DispatchSpends(domain: nat, worlds: seq<World>, inputs: seq<Input>, n: nat)
    requires IsRun(domain, worlds, inputs) && n < |inputs| && Dispatches(worlds[n], worlds[n + 1])
    ensures !Spent(worlds[n].projection) && Spent(worlds[n + 1].projection)
  {
    assert Steps(worlds[n], worlds[n + 1], inputs[n]);
    RunsKeepInvariant(domain, worlds, inputs, n);
    hide IsRun, Steps, Invariant;
    DeliveredIsUnspent(worlds[n], worlds[n + 1], inputs[n]);
  }

  lemma DeliveredIsUnspent(w: World, t: World, input: Input)
    requires Invariant(w) && Steps(w, t, input) && Dispatches(w, t)
    ensures !Spent(w.projection) && Spent(t.projection)
  {
    hide Invariant, Steps, AuthorityIsCurrent;
    DispatchMoves(w, t, input);
  }

  /** No run dispatches twice. */
  lemma DispatchesOnce(domain: nat, worlds: seq<World>, inputs: seq<Input>, m: nat, n: nat)
    requires IsRun(domain, worlds, inputs) && m < |inputs| && n < |inputs|
    requires Dispatches(worlds[m], worlds[m + 1]) && Dispatches(worlds[n], worlds[n + 1])
    ensures m == n
  {
    assert |worlds| == |inputs| + 1;
    hide IsRun, Dispatches, Spent;
    DispatchSpends(domain, worlds, inputs, m);
    DispatchSpends(domain, worlds, inputs, n);
    if m < n {
      SpentForGood(domain, worlds, inputs, m + 1, n);
    } else if n < m {
      SpentForGood(domain, worlds, inputs, n + 1, m);
    }
  }

  /** A receipted attempt stays the run's and keeps its receipt. */
  lemma {:induction false} ReceiptKept(domain: nat, worlds: seq<World>, inputs: seq<Input>, i: nat, j: nat)
    requires IsRun(domain, worlds, inputs) && i <= j < |worlds| && Receipted(worlds[i])
    ensures Receipted(worlds[j])
    decreases j
  {
    hide Steps, Receipted;
    if i < j {
      ReceiptKept(domain, worlds, inputs, i, j - 1);
      assert Steps(worlds[j - 1], worlds[j - 1 + 1], inputs[j - 1]);
      StepKeepsReceipt(worlds[j - 1], worlds[j], inputs[j - 1]);
    }
  }

  lemma ReceiptIsFiled(w: World, t: World, input: Input)
    requires Steps(w, t, input) && input.envelope.command.CommitExecutionReceipt?
    ensures Receipted(t)
  {
    ReceiptCommitted(w, t, input);
    hide Steps;
    StepKeepsSpent(w, t, input);
  }

  /** No run commits two receipts. */
  lemma SettlesOnce(domain: nat, worlds: seq<World>, inputs: seq<Input>, m: nat, n: nat)
    requires IsRun(domain, worlds, inputs) && m < |inputs| && n < |inputs|
    requires inputs[m].envelope.command.CommitExecutionReceipt? && inputs[n].envelope.command.CommitExecutionReceipt?
    ensures m == n
  {
    if m < n {
      SettledIsLast(domain, worlds, inputs, m, n);
    } else if n < m {
      SettledIsLast(domain, worlds, inputs, n, m);
    }
  }

  lemma SettledIsLast(domain: nat, worlds: seq<World>, inputs: seq<Input>, m: nat, n: nat)
    requires IsRun(domain, worlds, inputs) && m < n < |inputs| && inputs[m].envelope.command.CommitExecutionReceipt?
    ensures !inputs[n].envelope.command.CommitExecutionReceipt?
  {
    assert |worlds| == |inputs| + 1 && Steps(worlds[m], worlds[m + 1], inputs[m]) && Steps(worlds[n], worlds[n + 1], inputs[n]);
    hide Steps, IsRun;
    ReceiptIsFiled(worlds[m], worlds[m + 1], inputs[m]);
    ReceiptKept(domain, worlds, inputs, m + 1, n);
    if inputs[n].envelope.command.CommitExecutionReceipt? {
      ReceiptCommitted(worlds[n], worlds[n + 1], inputs[n]);
    }
  }

  /** What revoked proofs reopened after its receipt is never settled again. */
  lemma {:induction false} ReopenedForGood(domain: nat, worlds: seq<World>, inputs: seq<Input>, i: nat, j: nat)
    requires IsRun(domain, worlds, inputs) && i <= j < |worlds| && Outstanding(worlds[i].projection)
    requires AttemptOf(worlds[i].projection.execution.value) in worlds[i].executions.receipts
    ensures Outstanding(worlds[j].projection) && AttemptOf(worlds[j].projection.execution.value) in worlds[j].executions.receipts
    decreases j
  {
    hide Steps, Outstanding;
    if i < j {
      ReopenedForGood(domain, worlds, inputs, i, j - 1);
      assert Steps(worlds[j - 1], worlds[j - 1 + 1], inputs[j - 1]);
      ReopenedStays(worlds[j - 1], worlds[j], inputs[j - 1]);
    }
  }
}
