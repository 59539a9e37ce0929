/**
  A lease that ends before dispatch. Only the owner's two commands store the lapse as an
  expiry, and only within the execution's limits; only then can the action be attempted again.
 */
module RunLapses {
  import opened Wrappers
  import opened Contracts
  import opened RunModel
  import opened RunTables
  import opened RunInvariants
  import opened RunDrafts
  import opened RunSafety
  import opened RunExecutions
  import opened RunEffects

  predicate AwaitsDispatch(p: Projection) {
    p.execution.Some? && (p.execution.value.state.PermitIssued? || p.execution.value.state.PermitDelivered?)
  }

  predicate ByOwner(c: Command) {
    c.RecoverPermit? || c.ExpireExecutionLease?
  }

  /** The owner's two commands that notice an ended lease, and the provider's two. */
  predicate NoticesLapse(c: Command) {
    ByOwner(c) || c.DeliverPermit? || c.StartDispatch?
  }

  /** The lease has ended before dispatch. */
  predicate Lapsed(p: Projection, now: nat) {
    AwaitsDispatch(p) && AuthorityExpired(p.execution.value, now)
  }

  // ---------------------------------------------------------------- storing the lapse

  lemma EvaluatedLapse(p: Projection, e: Envelope, now: nat)
    requires Lapsed(p, now) && NoticesLapse(e.command) && Evaluate(p, e, now).Ok?
    ensures
      var d := Evaluate(p, e, now).value;
      && d.projection.execution == Some(p.execution.value.(state := if ByOwner(e.command) then Expired else Cancelled))
      && d.record.None? && ClosureRoot(p, e.command, d).None?
  {
    hide LineageHolds, CommandAllowed, RequiredProofs, FoundProofs, AuthorityExpired;
  }

  /** What a committed transaction that notices the lapse leaves. */
  lemma LapseStep(w: World, t: World, input: Input)
    requires Steps(w, t, input) && Lapsed(w.projection, input.now) && NoticesLapse(input.envelope.command)
    ensures
      var byOwner := ByOwner(input.envelope.command) && !AdmissionFails(w.projection, input.envelope.command, input.proofsHold);
      t.projection.execution == Some(w.projection.execution.value.(state := if byOwner then Expired else Cancelled))
  {
    hide Steps, Evaluate, AdmissionFails, Persist, ListsRoot, AuthorityExpired;
    EvaluatedOrFailed(w, t, input);
    var e, p := input.envelope, w.projection;
    if AdmissionFails(p, e.command, input.proofsHold) {
      FailureUnfolds(w, t, input);
      hide InvalidateAll;
      AllRemember(ProofFailure(p), input.listing);
    } else {
      var d := Evaluate(p, e, input.now).value;
      EvaluatedLapse(p, e, input.now);
      StepUnfolds(w, t, input, d);
      hide ClosureRoot;
      PersistKeeps(
        w, t, e, d.(projection := Closed(d, ClosureRoot(p, e.command, d), input.listing, e.command.InvalidateRecord?)), input.now, false);
    }
  }

  /** The lapse is stored as an expiry exactly by the owner's commands and within the execution's limits. */
  lemma LapseStored(w: World, input: Input)
    requires Invariant(w) && Consistent(w) && Presentable(w, input)
    requires Lapsed(w.projection, input.now) && NoticesLapse(input.envelope.command)
    ensures Commits(w, input) <==> WithinLimits(w.projection.execution.value, input.now)
    ensures
      var x := w.projection.execution.value;
      var r := Transact(w, input.envelope, input.now, input.proofsHold, input.listing);
      (r.Ok? && r.value.projection.execution == Some(x.(state := Expired)))
      <==> ByOwner(input.envelope.command) && WithinLimits(x, input.now)
  {
    PresentableIsAccepted(w, input);
    PresentableLists(w, input);
    hide Invariant, Evaluate, Presentable, Closed, Agrees, RowsOfExecution, FiledAs, AuthorityExpired, Transact, ListsRoot, RootNeeded;
    var e, p := input.envelope, w.projection;
    CommitsUnlessCorrection(w, input);
    DecidedIsClosed(w, input);
    EvaluatedLapse(p, e, input.now);
    var d := Evaluate(p, e, input.now).value;
    NothingToClose(d, input.listing, e.command.InvalidateRecord?);
    SameRowsFit(w.executions, p.execution.value, d.projection.execution.value, input.now);
    var r := Transact(w, e, input.now, input.proofsHold, input.listing);
    if r.Ok? {
      assert Steps(w, r.value, input);
      LapseStep(w, r.value, input);
    }
  }

  lemma PresentableLists(w: World, input: Input)
    requires Presentable(w, input)
    ensures ListsRoot(w, RootNeeded(w.projection, input.envelope, input.now, input.proofsHold), input.listing)
  {
    hide Evaluate, AdmissionFails, ListsRoot, RootNeeded, RecordFits, ProofsDistinct, Replayed;
  }

  lemma NothingToClose(d: Draft, listing: seq<Ref>, invalidateRun: bool)
    ensures Closed(d, None, listing, invalidateRun) == d.projection
  {
  }

  /** There is a moment at which the lapse can be stored exactly when the lease ends before every limit. */
  lemma LapseHasItsMoment(p: Projection)
    requires LeaseBounded(p) && AwaitsDispatch(p)
    ensures
      var x := p.execution.value;
      (exists now: nat :: Lapsed(p, now) && WithinLimits(x, now)) <==>
      x.leaseUntil < x.actionValidUntil && x.leaseUntil < x.admissionValidUntil && x.leaseUntil < x.authorizationValidUntil
  {
    var x := p.execution.value;
    if WithinLimits(x, x.leaseUntil) {
      assert Lapsed(p, x.leaseUntil);
    }
  }

  /** Nothing is reserved while a permit awaits its dispatch. */
  lemma PermitTakesNoReservation(p: Projection, e: Envelope, now: nat)
    requires AwaitsDispatch(p) && e.command.ReserveExecution?
    ensures Evaluate(p, e, now).Err?
  {
    hide LineageHolds, CommandAllowed, RequiredProofs, FoundProofs, ProofOfKind;
  }

  /** A lease that runs to a limit leaves a run in which nothing commits once it has ended. */
  lemma LapseLost(w: World, input: Input)
    requires LeaseBounded(w.projection) && Lapsed(w.projection, input.now)
    requires
      var x := w.projection.execution.value;
      x.leaseUntil >= x.actionValidUntil || x.leaseUntil >= x.admissionValidUntil || x.leaseUntil >= x.authorizationValidUntil
    requires ListsRoot(w, RootNeeded(w.projection, input.envelope, input.now, input.proofsHold), input.listing)
    ensures !Commits(w, input)
  {
    ExpiryIsLeaseEnd(w.projection, input.now);
    hide Transact, ListsRoot, RootNeeded, AdmissionFails, LeaseBounded, AuthorityExpired, Evaluate;
    FrozenPastLimits(w, input);
    var r := Transact(w, input.envelope, input.now, input.proofsHold, input.listing);
    if r.Ok? {
      assert Steps(w, r.value, input);
      hide Steps;
      EvaluatedOrFailed(w, r.value, input);
      PermitTakesNoReservation(w.projection, input.envelope, input.now);
    }
  }

  // ---------------------------------------------------------------- the next attempt

  /** A reservation of the action's next attempt, right but perhaps for the state the last one is left in. */
  ghost predicate WellFormedRetry(w: World, input: Input) {
    var e, p, c, now := input.envelope, w.projection, input.envelope.command, input.now;
    && c.ReserveExecution? && p.execution.Some? && p.admission.Some?
    && var x, a, permit := p.execution.value, p.admission.value, ProofOfKind(e.proofs, ExecutionPermit, p.domain);
       && e.domain == p.domain && e.expectedVersion == p.version && CommandAllowed(p.state, c)
       && ProofsDistinct(e.proofs, e.domain) && !Replayed(w.consumed, e.proofs) && FoundProofs(e.proofs) == {ExecutionPermit}
       && input.proofsHold
       && c.actionRef == x.actionRef == a.actionRef && c.actionDigest == x.actionRef.digest && c.admissionRef == a.ref
       && c.attempt == x.attempt + 1 <= MAX_ATTEMPT && c.idempotencyKey == x.idempotencyKey == a.idempotencyKey != ""
       && c.provider == a.provider && e.caller == c.owner == a.owner
       && ExactCurrentAt(p, x.actionRef, now) && ExactCurrentAt(p, a.ref, now) && now < a.authorizationValidUntil
       && now < c.leaseUntil <= x.actionRef.validUntil && c.leaseUntil <= a.ref.validUntil && c.leaseUntil <= a.authorizationValidUntil
       && permit.Some? && c.leaseUntil <= permit.value.expiresAt
       && forall k :: k in w.executions.attempts ==>
            && w.executions.attempts[k].permitId != e.minted.permitId
            && (k.reservationId == x.reservationId ==> w.executions.attempts[k].nonce != c.dispatchNonce)
  }

  lemma CancelledTakesNoRetry(p: Projection, e: Envelope, now: nat)
    requires e.command.ReserveExecution? && p.execution.Some? && p.execution.value.state.Cancelled?
    requires e.command.actionRef == p.execution.value.actionRef
    ensures Evaluate(p, e, now).Err?
  {
    hide LineageHolds, CommandAllowed, RequiredProofs, FoundProofs, ProofOfKind;
  }

  /** What the retry reserves. */
  function Retried(p: Projection, e: Envelope): Execution
    requires e.command.ReserveExecution? && p.execution.Some? && p.admission.Some?
  {
    var x, a, c := p.execution.value, p.admission.value, e.command;
    Execution(
      x.reservationId, a.ref, x.actionRef, a.provider, a.owner, a.operation, a.parameterDigest, a.request, x.idempotencyKey,
      x.attempt + 1, e.minted.permitId, a.authorizationProof, x.actionRef.validUntil, a.ref.validUntil, a.authorizationValidUntil,
      c.leaseUntil, c.leaseUntil, c.dispatchNonce, PermitIssued)
  }

  /** What the bindings and the admission's own record say of a retry. */
  lemma AdmissionIsProper(w: World)
    requires Invariant(w) && Agrees(w) && w.projection.admission.Some?
    ensures
      var a := w.projection.admission.value;
      a.ref.kind.ActionAdmissionDecision? && a.validUntil == a.ref.validUntil
    ensures
      var a := w.projection.admission.value;
      w.projection.execution.Some? && w.projection.execution.value.actionRef == a.actionRef ==>
        a.operation == w.projection.execution.value.operation
  {
    hide RecordsStored, EdgesRanked, LiveChain, FlightLogged, ConsumedDistinct, LeaseBounded, FlightNames;
  }

  lemma RetryEvaluates(w: World, input: Input)
    requires Invariant(w) && Agrees(w) && WellFormedRetry(w, input) && w.projection.execution.value.state.Expired?
    ensures
      var e, p := input.envelope, w.projection;
      Evaluate(p, e, input.now) == Ok(Draft(Counted(p).(execution := Some(Retried(p, e))), None, PermitWasIssued(e.minted.permitId)))
  {
    AdmissionIsProper(w);
    hide Invariant, Agrees, ProofOfKind, FoundProofs, Replayed, ProofsDistinct, CommandAllowed;
  }

  lemma RetryRefused(w: World, input: Input)
    requires WellFormedRetry(w, input) && Closes(w.projection) && !w.projection.execution.value.state.Expired?
    ensures Evaluate(w.projection, input.envelope, input.now).Err?
  {
    hide ProofOfKind, FoundProofs, Replayed, ProofsDistinct, LineageHolds;
  }

  lemma RetryRowsFit(w: World, input: Input)
    requires Invariant(w) && Consistent(w) && WellFormedRetry(w, input) && w.projection.execution.value.state.Expired?
    ensures RowsOfExecution(w.executions, w.projection.execution, Retried(w.projection, input.envelope), input.now, false)
  {
    AdmissionIsProper(w);
    hide Invariant, Agrees, ProofOfKind, FoundProofs, Replayed, ProofsDistinct, CommandAllowed;
  }

  /** A well-formed retry commits exactly when the last attempt is stored as expired. */
  lemma RetryCommits(w: World, input: Input)
    requires Invariant(w) && Consistent(w) && Closes(w.projection) && WellFormedRetry(w, input)
    ensures Commits(w, input) <==> w.projection.execution.value.state.Expired?
  {
    hide Invariant, Filed, Agrees, Evaluate, RowsOfExecution, Closes, Retried, Persist;
    var e, p := input.envelope, w.projection;
    if p.execution.value.state.Expired? {
      RetryEvaluates(w, input);
      RetryRowsFit(w, input);
      RetryIsPresentable(w, input);
      hide WellFormedRetry, Presentable, Commits;
      CommitsUnlessCorrection(w, input);
      DecidedIsClosed(w, input);
    } else {
      RetryRefused(w, input);
    }
  }

  lemma RetryIsPresentable(w: World, input: Input)
    requires WellFormedRetry(w, input) && Evaluate(w.projection, input.envelope, input.now).Ok?
    requires Evaluate(w.projection, input.envelope, input.now).value.record.None?
    ensures Presentable(w, input) && input.envelope.command.ReserveExecution?
    ensures ClosureRoot(w.projection, input.envelope.command, Evaluate(w.projection, input.envelope, input.now).value).None?
  {
    hide Evaluate, ProofsDistinct, Replayed, Closure, ExactCurrentAt, ProofOfKind, FoundProofs;
  }

  /**
    Once a lease has ended before dispatch, a well-formed reservation of the action's next
    attempt commits exactly when the first transaction that noticed the lapse was the owner's,
    under admission proofs that still held.
   */
  lemma LapseDecidesRetry(w: World, t: World, input: Input, retry: Input)
    requires Invariant(w) && Consistent(w) && Closes(w.projection) && Steps(w, t, input)
    requires Lapsed(w.projection, input.now) && NoticesLapse(input.envelope.command) && WellFormedRetry(t, retry)
    ensures
      Commits(t, retry) <==>
      ByOwner(input.envelope.command) && !AdmissionFails(w.projection, input.envelope.command, input.proofsHold)
  {
    LapseStep(w, t, input);
    hide Lapsed, Steps, Invariant, Filed, Agrees, WellFormedRetry, AdmissionFails, Commits, Closes;
    StepKeepsInvariant(w, t, input);
    StepKeepsFiled(w, t, input);
    StepKeepsAgrees(w, t, input);
    StepCloses(w, t, input);
    RetryCommits(t, retry);
  }
}
