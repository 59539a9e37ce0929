/**
  Concrete runs of the authority: to a live assertion whose well-formed correction the tables
  refuse; to effects whose late receipt or outcome they refuse; to a failed attempt and to
  lapsed permits, with and without a retry; to a settled effect that revoked proofs reopen; and
  two commands that the evaluator alone would get wrong.
 */
module RunExample {
  import opened Wrappers
  import opened Contracts
  import opened Graphs
  import opened RunModel
  import opened RunTables
  import opened RunInvariants
  import opened RunDrafts
  import opened RunSafety
  import opened RunExecutions
  import opened RunEffects
  import opened RunLapses
  import opened RunScript

  // ---------------------------------------------------------------- playing a move

  datatype Play = Play(worlds: seq<World>, inputs: seq<Input>) {
    function Last(): World
      requires worlds != []
    {
      worlds[|worlds| - 1]
    }
  }

  function InputOf(m: Move, version: nat): Input {
    Input(Signed(m, version), m.now, true, [])
  }

  /** Everything the tables hold was drawn at an earlier version, and no record was revised. */
  ghost predicate Below(w: World, version: nat) {
    && (forall i :: 0 <= i < |w.consumed| ==> w.consumed[i].proofId < 10 * version && |w.consumed[i].nonce| < 10 * version)
    && (forall k :: k in w.stored ==> k.id <= version && k.revision == 1 && w.stored[k].digest <= version)
  }

  /** A run that ends in `p`, with `t` in the execution tables. */
  ghost predicate Reached(r: Play, p: Projection, t: Executions) {
    && IsRun(0, r.worlds, r.inputs)
    && r.Last().projection == p && r.Last().executions == t && Below(r.Last(), p.version)
  }

  lemma ProofsAreNew(w: World, kinds: seq<ProofKind>, version: nat)
    requires Below(w, version) && |kinds| <= 10
    ensures ProofsDistinct(ProofsOf(kinds, version), 0) && !Replayed(w.consumed, ProofsOf(kinds, version))
  {
    ProofsAt(kinds, version);
  }

  /** What a step writes stays below the next version. */
  lemma StaysBelow(w: World, t: World, e: Envelope, d: Draft, now: nat, revoked: bool, version: nat)
    requires Below(w, version) && Persist(w, e, d, now, revoked) == Ok(t) && |e.proofs| <= 10
    requires forall i :: 0 <= i < |e.proofs| ==> e.proofs[i].id == 10 * version + i && |e.proofs[i].nonce| == 10 * version + i
    requires d.record.Some? ==> DrawnAt(d.record.value, version)
    ensures Below(t, version + 1)
  {
    hide RowsFit, NewEdges, ExecutionFits, ExecutionWritten, RecordFits, RecordRowsFit;
  }

  lemma RunGrows(worlds: seq<World>, inputs: seq<Input>, t: World, input: Input)
    requires IsRun(0, worlds, inputs) && Steps(worlds[|inputs|], t, input)
    ensures IsRun(0, worlds + [t], inputs + [input])
  {
    hide Steps;
    var longer, all := worlds + [t], inputs + [input];
    forall i | 0 <= i < |all|
      ensures Steps(longer[i], longer[i + 1], all[i])
    {
      if i < |inputs| {
        assert Steps(worlds[i], worlds[i + 1], inputs[i]);
      }
    }
  }

  lemma DrawnRecordFits(w: World, ref: Ref)
    requires Below(w, w.projection.version) && DrawnAt(ref, w.projection.version)
    ensures RecordFits(w.stored, ref)
  {
  }

  /** At the end of a run such a move lacks nothing a caller could look up. */
  lemma MoveIsPresentable(w: World, m: Move)
    requires Below(w, w.projection.version) && Evaluates(w.projection, m)
    ensures Presentable(w, InputOf(m, w.projection.version))
  {
    ProofsAreNew(w, m.kinds, w.projection.version);
    if m.draft.record.Some? {
      DrawnRecordFits(w, m.draft.record.value);
    }
    hide Evaluate, Replayed, ProofsDistinct, ClosureRoot, RecordFits, Below, DrawnAt, ProofsOf;
  }

  /** It commits exactly when the execution tables take it and it is no correction. */
  lemma MoveDecided(w: World, m: Move)
    requires Invariant(w) && Below(w, w.projection.version) && Evaluates(w.projection, m)
    ensures
      Commits(w, InputOf(m, w.projection.version)) <==>
      (&& !m.command.CorrectHumanModelAssertion?
       && ExecutionFits(w.executions, w.projection.execution, m.draft.projection.execution, m.command, m.now, false))
  {
    var input := InputOf(m, w.projection.version);
    MoveIsPresentable(w, m);
    DecidedIsClosed(w, input);
    hide Invariant, Evaluate, Commits, Presentable, ClosureRoot, ExecutionFits, DecidedDraft;
    CommitsUnlessCorrection(w, input);
  }

  lemma MoveCommits(w: World, m: Move) returns (t: World)
    requires Invariant(w) && Below(w, w.projection.version) && Plays(w.projection, w.executions, m)
    ensures Steps(w, t, InputOf(m, w.projection.version))
    ensures t.projection == m.draft.projection && t.executions == Written(w.executions, m)
    ensures Below(t, m.draft.projection.version)
  {
    var version := w.projection.version;
    var e := Signed(m, version);
    MoveDecided(w, m);
    ProofsAt(m.kinds, version);
    hide Invariant, Evaluate, Replayed, ProofsDistinct, Persist, ClosureRoot, ExecutionFits, ExecutionWritten, Below;
    t := Transact(w, e, m.now, true, []).value;
    StaysBelow(w, t, e, m.draft, m.now, false, version);
    PersistKeeps(w, t, e, m.draft, m.now, false);
  }

  lemma Extend(r: Play, p: Projection, t: Executions, m: Move) returns (s: Play)
    requires Reached(r, p, t) && Plays(p, t, m)
    ensures Reached(s, m.draft.projection, Written(t, m))
    ensures s.inputs == r.inputs + [InputOf(m, p.version)] && |s.worlds| == |r.worlds| + 1
  {
    RunsKeepInvariant(0, r.worlds, r.inputs, |r.inputs|);
    hide Invariant, Plays, Below, Steps, InputOf, Written;
    var next := MoveCommits(r.Last(), m);
    RunGrows(r.worlds, r.inputs, next, InputOf(m, p.version));
    s := Play(r.worlds + [next], r.inputs + [InputOf(m, p.version)]);
  }

  lemma Beginning() returns (r: Play)
    ensures Reached(r, PendingRun(0), NoExecutions()) && r.inputs == []
  {
    r := Play([FreshWorld(0)], []);
  }

  /** What every run's last world has. */
  lemma EndsSoundly(r: Play, p: Projection, t: Executions)
    requires Reached(r, p, t)
    ensures |r.worlds| == |r.inputs| + 1 && r.Last() == r.worlds[|r.inputs|] && IsRun(0, r.worlds, r.inputs)
    ensures Invariant(r.Last()) && Consistent(r.Last()) && Below(r.Last(), p.version)
    ensures r.Last().projection == p && r.Last().executions == t
  {
    RunsKeepInvariant(0, r.worlds, r.inputs, |r.inputs|);
    RunsStayConsistent(0, r.worlds, r.inputs, |r.inputs|);
    hide Invariant, Consistent, Below;
  }

  // ---------------------------------------------------------------- the way to a dispatch

  lemma RunsToContext() returns (r: Play)
    ensures Reached(r, Contextual(), NoExecutions()) && |r.inputs| == 2
  {
    BeginningPlays();
    NothingWritten(Start());
    NothingWritten(GiveContext());
    assert Start().draft.projection == Started() && GiveContext().draft.projection == Contextual();
    hide *;
    r := Beginning();
    r := Extend(r, PendingRun(0), NoExecutions(), Start());
    r := Extend(r, Started(), NoExecutions(), GiveContext());
  }

  lemma NothingWritten(m: Move)
    requires m.draft.projection.execution.None? && !m.command.CommitExecutionReceipt?
    ensures Written(NoExecutions(), m) == NoExecutions()
  {
  }

  /** Seven commands to an admitted action. */
  lemma RunsToAdmission() returns (r: Play)
    ensures Reached(r, Admitted(), NoExecutions()) && |r.inputs| == 7
  {
    DecidingPlays();
    CoordinationPlays();
    ActionPlays();
    AdmissionPlays();
    UnexecutedMoves();
    assert Intend().draft.projection == Intended() && Choose().draft.projection == Decided();
    assert Coordinate().draft.projection == Coordinated() && Act().draft.projection == Acted();
    assert Admit().draft.projection == Admitted();
    hide *;
    r := RunsToContext();
    r := Extend(r, Contextual(), NoExecutions(), Intend());
    r := Extend(r, Intended(), NoExecutions(), Choose());
    r := Extend(r, Decided(), NoExecutions(), Coordinate());
    r := Extend(r, Coordinated(), NoExecutions(), Act());
    r := Extend(r, Acted(), NoExecutions(), Admit());
  }

  lemma UnexecutedMoves()
    ensures Written(NoExecutions(), Intend()) == Written(NoExecutions(), Choose()) == NoExecutions()
    ensures Written(NoExecutions(), Coordinate()) == Written(NoExecutions(), Act()) == Written(NoExecutions(), Admit()) == NoExecutions()
  {
    AtDecision();
    AtAction();
    AtAdmission();
    assert Intend().draft.projection.execution.None?;
    hide Intended, Decided, Acted, Admitted, Coordinated;
    NothingWritten(Intend());
    NothingWritten(Choose());
    NothingWritten(Coordinate());
    NothingWritten(Act());
    NothingWritten(Admit());
  }

  /** Eight commands to a permit. */
  lemma RunsToPermit() returns (r: Play)
    ensures Reached(r, Permitted(), OneAttempt()) && |r.inputs| == 8
  {
    ReservationPlays();
    assert Reserve().draft.projection == Permitted();
    hide *;
    r := RunsToAdmission();
    r := Extend(r, Admitted(), NoExecutions(), Reserve());
  }

  /** Ten commands to a dispatch. */
  lemma RunsToDispatch() returns (r: Play)
    ensures Reached(r, Dispatched(), OneAttempt()) && |r.inputs| == 10
  {
    DeliveryPlays();
    DispatchPlays();
    assert Deliver().draft.projection == Delivered() && Dispatch().draft.projection == Dispatched();
    hide *;
    r := RunsToPermit();
    r := Extend(r, Permitted(), OneAttempt(), Deliver());
    r := Extend(r, Delivered(), OneAttempt(), Dispatch());
  }

  /** Eleven commands to a receipt. */
  lemma RunsToReceipt() returns (r: Play)
    ensures Reached(r, Concluded(), OneReceipt()) && |r.inputs| == 11
  {
    ReceiptPlays();
    assert Settle().draft.projection == Concluded();
    hide *;
    r := RunsToDispatch();
    r := Extend(r, Dispatched(), OneAttempt(), Settle());
  }

  // ---------------------------------------------------------------- corrections

  lemma CorrectionFits(w: World, target: Ref)
    requires RecordsStored(w) && Below(w, w.projection.version) && IsLive(w.projection, target)
    requires target.revision == 1 && target.policy == "policy"
    ensures RecordFits(w.stored, Correct(w.projection, target).draft.record.value)
  {
    StoredRecord(w, target.kind);
  }

  /** A correction that the evaluator accepts at the end of a run, and the tables refuse. */
  lemma CorrectionRefused(r: Play, p: Projection, t: Executions, target: Ref)
    requires Reached(r, p, t) && IsLive(p, target) && target.revision == 1 && target.policy == "policy"
    requires Evaluate(p, Signed(Correct(p, target), p.version), 1) == Ok(Correct(p, target).draft)
    ensures Transact(r.Last(), Signed(Correct(p, target), p.version), 1, true, []) == Err(RowRefused)
  {
    var w := r.Last();
    EndsSoundly(r, p, t);
    InvariantParts(w);
    ProofsAreNew(w, [HumanModelCorrection], p.version);
    CorrectionFits(w, target);
    hide Invariant, RecordsStored, LiveChain, EdgesRanked, Consistent, Evaluate, Transact, Replayed, ProofsDistinct;
    hide RecordFits, Below, IsRun;
    NoCorrectionCommits(w, Signed(Correct(p, target), p.version), 1, true, []);
  }

  /** Fifteen commands to a live assertion, whose well-formed correction is evaluated and then refused by the tables. */
  lemma RefusedCorrection() returns (worlds: seq<World>, inputs: seq<Input>, e: Envelope)
    ensures IsRun(0, worlds, inputs) && |inputs| == 15
    ensures
      e.command == CorrectHumanModelAssertion(Rec(15, HumanModelAssertion), Window(), true)
      && IsLive(worlds[15].projection, e.command.assertionRef)
    ensures Evaluate(worlds[15].projection, e, 1).Ok? && Transact(worlds[15], e, 1, true, []) == Err(RowRefused)
  {
    var r := RunsToAssertion();
    worlds, inputs, e := r.worlds, r.inputs, Signed(Correct(Asserted(), Rec(15, HumanModelAssertion)), 15);
    AtAssertion();
    hide Evaluate, Transact, Asserted, IsRun, Below, OneReceipt;
    CorrectionEvaluates(Asserted(), Rec(15, HumanModelAssertion));
    CorrectionRefused(r, Asserted(), OneReceipt(), Rec(15, HumanModelAssertion));
    EndsSoundly(r, Asserted(), OneReceipt());
  }

  lemma RunsToAssertion() returns (r: Play)
    ensures Reached(r, Asserted(), OneReceipt()) && |r.inputs| == 15
  {
    OutcomePlays();
    CandidatePlays();
    PromotionPlays();
    AssertionPlays();
    assert Observe().draft.projection == Observed() && Propose().draft.projection == Proposed();
    assert Promote().draft.projection == Promoted() && Assert().draft.projection == Asserted();
    hide *;
    r := RunsToReceipt();
    r := Extend(r, Concluded(), OneReceipt(), Observe());
    r := Extend(r, Observed(), OneReceipt(), Propose());
    r := Extend(r, Proposed(), OneReceipt(), Promote());
    r := Extend(r, Promoted(), OneReceipt(), Assert());
  }

  /**
    Two commands into a run the evaluator accepts a correction of the input, which would leave
    its live context on a dead record; the tables refuse that one too.
   */
  lemma MisaimedRun() returns (worlds: seq<World>, inputs: seq<Input>, e: Envelope)
    ensures IsRun(0, worlds, inputs) && |inputs| == 2
    ensures e.command == CorrectHumanModelAssertion(Rec(1, CanonicalInput), Window(), true)
    ensures
      var evaluated := Evaluate(worlds[2].projection, e, 1);
      evaluated.Ok? && !UpstreamLive(evaluated.value.projection)
    ensures Transact(worlds[2], e, 1, true, []) == Err(RowRefused)
  {
    var r := RunsToContext();
    worlds, inputs, e := r.worlds, r.inputs, Signed(Correct(Contextual(), Rec(1, CanonicalInput)), 2);
    EndsSoundly(r, Contextual(), NoExecutions());
    CorrectionEvaluates(Contextual(), Rec(1, CanonicalInput));
    assert Live(Contextual(), ContextSnapshot) && CanonicalInput in Parents(ContextSnapshot);
    hide Evaluate, Transact, Invariant, Consistent, UpstreamLive, IsRun, Below;
    CorrectionRefused(r, Contextual(), NoExecutions(), Rec(1, CanonicalInput));
    MisaimedCorrection(worlds[2], e, 1);
  }

  // ---------------------------------------------------------------- after dispatch

  lemma RunsToOverdue() returns (r: Play)
    ensures Reached(r, Overdue(), OneAttempt()) && |r.inputs| == 11
  {
    ExpiryPlays();
    assert Expire().draft.projection == Overdue();
    hide *;
    r := RunsToDispatch();
    r := Extend(r, Dispatched(), OneAttempt(), Expire());
  }

  /**
    A dispatched execution whose lease ran out waits to be reconciled. The evaluator would
    cancel it on a late delivery of its permit; the reservation table refuses.
   */
  lemma ForgettingRun() returns (worlds: seq<World>, inputs: seq<Input>, late: Input)
    ensures IsRun(0, worlds, inputs) && |inputs| == 11 && late.envelope.command.DeliverPermit?
    ensures Outstanding(worlds[11].projection) && Presentable(worlds[11], late) && !Commits(worlds[11], late)
    ensures
      var evaluated := Evaluate(worlds[11].projection, late.envelope, late.now);
      evaluated.Ok? && !Remembers(worlds[11].projection, evaluated.value.projection, late.envelope.command)
  {
    var r := RunsToOverdue();
    worlds, inputs, late := r.worlds, r.inputs, InputOf(DeliverOverdue(), 11);
    OverdueDeliveryEvaluates();
    EndsSoundly(r, Overdue(), OneAttempt());
    OverdueDeliveryForgets();
    hide Evaluate, Commits, Presentable, Invariant, Consistent, Overdue, OneAttempt, IsRun, Below, ExecutionFits;
    hide Outstanding, Remembers;
    MoveIsPresentable(worlds[11], DeliverOverdue());
    MoveDecided(worlds[11], DeliverOverdue());
  }

  lemma OverdueDeliveryForgets()
    ensures Outstanding(Overdue()) && Overdue().version == 11
    ensures !Remembers(Overdue(), DeliverOverdue().draft.projection, DeliverOverdue().command)
  {
    AtOverdue();
    hide Overdue;
  }

  /** After the action's end the evaluator accepts the receipt of a dispatched execution, and no transaction commits any more. */
  lemma LateReceiptRun() returns (worlds: seq<World>, inputs: seq<Input>, late: Input)
    ensures IsRun(0, worlds, inputs) && |inputs| == 10 && late.envelope.command.CommitExecutionReceipt?
    ensures Outstanding(worlds[10].projection) && Presentable(worlds[10], late)
    ensures forall i: Input ::
      ListsRoot(worlds[10], RootNeeded(worlds[10].projection, i.envelope, i.now, i.proofsHold), i.listing) && i.now >= 100 ==>
        !Commits(worlds[10], i)
  {
    var r := RunsToDispatch();
    worlds, inputs, late := r.worlds, r.inputs, InputOf(SettleLate(), 10);
    LateReceiptEvaluates();
    AtDispatch();
    EndsSoundly(r, Dispatched(), OneAttempt());
    hide Dispatched, Commits, Presentable, Evaluate, ListsRoot, RootNeeded, IsRun, Invariant, Consistent, Below;
    MoveIsPresentable(worlds[10], SettleLate());
    forall i: Input
      | ListsRoot(worlds[10], RootNeeded(worlds[10].projection, i.envelope, i.now, i.proofsHold), i.listing) && i.now >= 100
      ensures !Commits(worlds[10], i)
    {
      SpentIsFrozen(worlds[10], i);
    }
  }

  /** Within the window its receipt leaves for an outcome the evaluator accepts one, and the tables refuse it. */
  lemma LateOutcomeRun() returns (worlds: seq<World>, inputs: seq<Input>, late: Input)
    ensures IsRun(0, worlds, inputs) && |inputs| == 11 && late.envelope.command.RecordOutcome?
    ensures Presentable(worlds[11], late) && !Commits(worlds[11], late)
    ensures
      var p := worlds[11].projection;
      ExecutionReceipt in p.records && HistoricalEvidence(p, p.records[ExecutionReceipt], late.now, RECEIPT_OUTCOME_WINDOW)
  {
    var r := RunsToReceipt();
    worlds, inputs, late := r.worlds, r.inputs, InputOf(ObserveLate(), 11);
    LateOutcomeEvaluates();
    AtReceipt();
    EndsSoundly(r, Concluded(), OneReceipt());
    hide Concluded, Commits, Presentable, Evaluate, IsRun, Invariant, Below, Agrees;
    MoveIsPresentable(worlds[11], ObserveLate());
    BystandersCommitWithinLimits(worlds[11], late);
  }

  /** A failed attempt closes its run: the next attempt, right but for the run's state, is not reserved. */
  lemma FailedRun() returns (worlds: seq<World>, inputs: seq<Input>, retry: Input)
    ensures IsRun(0, worlds, inputs) && |inputs| == 11 && retry.envelope.command.ReserveExecution?
    ensures
      var p := worlds[11].projection;
      && p.execution.Some? && p.execution.value.state.Failed? && IsLive(p, p.execution.value.actionRef)
      && Evaluate(p, retry.envelope, retry.now) == Err(InvalidRunTransition)
      && Evaluate(p.(state := Running), retry.envelope, retry.now).Ok?
  {
    var r := RunsToFailure();
    EndsSoundly(r, Failure(), Written(OneAttempt(), SettleFailed()));
    FailedRetryEvaluates();
    hide Reached, IsRun, Invariant, Consistent, Below, Written, Evaluate, Failure, OneAttempt, SettleFailed;
    worlds, inputs, retry := r.worlds, r.inputs, InputOf(RetryFailed(), 11);
  }

  lemma RunsToFailure() returns (r: Play)
    ensures Reached(r, Failure(), Written(OneAttempt(), SettleFailed())) && |r.inputs| == 11
  {
    ReceiptPlays();
    assert SettleFailed().draft.projection == Failure();
    hide *;
    r := RunsToDispatch();
    r := Extend(r, Dispatched(), OneAttempt(), SettleFailed());
  }

  // ---------------------------------------------------------------- a lapsed permit

  /** A permit whose lease ended unused is cancelled by its late delivery, and the live action cannot be attempted again. */
  lemma LapsedRun() returns (worlds: seq<World>, inputs: seq<Input>)
    ensures IsRun(0, worlds, inputs) && |inputs| == 9 && inputs[8].envelope.command.DeliverPermit?
    ensures Live(worlds[9].projection, Action)
    ensures forall e: Envelope, now: nat ::
      e.command.ReserveExecution? && e.command.actionRef == worlds[9].projection.records[Action] ==>
        Evaluate(worlds[9].projection, e, now).Err?
  {
    var r := RunsToPermit();
    LapsedDeliveryPlays();
    AtPermit();
    r := Extend(r, Permitted(), OneAttempt(), DeliverLapsed());
    EndsSoundly(r, DeliverLapsed().draft.projection, Written(OneAttempt(), DeliverLapsed()));
    worlds, inputs := r.worlds, r.inputs;
    var p := worlds[9].projection;
    hide Permitted, Evaluate, IsRun, Below, Plays, Invariant, Consistent, OneAttempt, Written;
    assert Live(p, Action) && p.records[Action] == Rec(6, Action) && p.execution == Some(Attempt(Cancelled));
    forall e: Envelope, now: nat | e.command.ReserveExecution? && e.command.actionRef == p.records[Action]
      ensures Evaluate(p, e, now).Err?
    {
      CancelledTakesNoRetry(p, e, now);
    }
  }

  /** Expired by its owner instead, the same permit is followed by a second attempt. */
  lemma RetriedRun() returns (worlds: seq<World>, inputs: seq<Input>)
    ensures IsRun(0, worlds, inputs) && |inputs| == 10
    ensures inputs[8].envelope.command.ExpireExecutionLease? && inputs[9].envelope.command.ReserveExecution?
    ensures worlds[10].projection.execution.Some? && worlds[10].projection.execution.value.attempt == 2
  {
    var r := RunsToRetry();
    EndsSoundly(r, Retry().draft.projection, Written(OneAttempt(), Retry()));
    worlds, inputs := r.worlds, r.inputs;
    hide Reached, IsRun, Invariant, Consistent, Below, Lapse, Written, OneAttempt, Permitted;
  }

  lemma RunsToLapse() returns (r: Play)
    ensures Reached(r, Lapse(), OneAttempt()) && |r.inputs| == 9 && r.inputs[8] == InputOf(ExpireLapsed(), Permitted().version)
  {
    LapsedExpiryPlays();
    assert ExpireLapsed().draft.projection == Lapse();
    hide *;
    r := RunsToPermit();
    r := Extend(r, Permitted(), OneAttempt(), ExpireLapsed());
  }

  lemma RunsToRetry() returns (r: Play)
    ensures Reached(r, Retry().draft.projection, Written(OneAttempt(), Retry())) && |r.inputs| == 10
    ensures r.inputs[8] == InputOf(ExpireLapsed(), Permitted().version) && r.inputs[9] == InputOf(Retry(), Lapse().version)
  {
    RetryPlays();
    hide *;
    r := RunsToLapse();
    r := Extend(r, Lapse(), OneAttempt(), Retry());
  }

  /** A lease for as long as the action lasts: once it has lapsed nothing stores that any more. */
  lemma LostLapseRun() returns (worlds: seq<World>, inputs: seq<Input>)
    ensures IsRun(0, worlds, inputs) && |inputs| == 8 && AwaitsDispatch(worlds[8].projection)
    ensures forall i: Input ::
      ListsRoot(worlds[8], RootNeeded(worlds[8].projection, i.envelope, i.now, i.proofsHold), i.listing)
      && Lapsed(worlds[8].projection, i.now) ==>
        !Commits(worlds[8], i)
  {
    LongReservationPlays();
    assert ReserveLong().draft.projection.execution == Some(Issued(1, 8, 100, "dispatch"));
    hide Reached, Plays, Admitted, ReserveLong, Written;
    var r := RunsToAdmission();
    r := Extend(r, Admitted(), NoExecutions(), ReserveLong());
    EndsSoundly(r, ReserveLong().draft.projection, Written(NoExecutions(), ReserveLong()));
    worlds, inputs := r.worlds, r.inputs;
    hide IsRun, Below, Commits, ListsRoot, RootNeeded, Consistent, Lapsed;
    LeaseIsBounded(worlds[8]);
    hide Invariant, LeaseBounded;
    forall i: Input
      | ListsRoot(worlds[8], RootNeeded(worlds[8].projection, i.envelope, i.now, i.proofsHold), i.listing)
        && Lapsed(worlds[8].projection, i.now)
      ensures !Commits(worlds[8], i)
    {
      LapseLost(worlds[8], i);
    }
  }

  lemma LeaseIsBounded(w: World)
    requires Invariant(w)
    ensures LeaseBounded(w.projection)
  {
    hide RecordsStored, EdgesRanked, LiveChain, NoDangling, LeaseBounded, FlightLogged, ConsumedDistinct;
  }

  // ---------------------------------------------------------------- a settled effect, reopened

  lemma {:induction false} ListingExists(closure: set<Ref>) returns (listing: seq<Ref>)
    ensures IsListing(listing, closure)
  {
    if closure == {} {
      listing := [];
    } else {
      var r :| r in closure;
      var rest := ListingExists(closure - {r});
      listing := [r] + rest;
    }
  }

  lemma RevocationReopensProjection(listing: seq<Ref>)
    ensures Concluded().admission == Some(Granted())
    ensures Reopened(ApplyClosure(ProofFailure(Concluded()), listing, false))
  {
    AtReceipt();
    hide Concluded, InvalidateAll;
    AllStopAllowed(ProofFailure(Concluded()), listing);
    AllReleases(ProofFailure(Concluded()), listing);
  }

  lemma RevocationFits(q: Projection)
    requires Reopened(q)
    ensures ExecutionFits(OneReceipt(), Some(Attempt(Succeeded)), q.execution, DeliverPermit(8, 8), 1, true)
    ensures ExecutionWritten(OneReceipt(), q.execution, DeliverPermit(8, 8)) == OneReceipt()
  {
  }

  lemma RevocationCommits(w: World, listing: seq<Ref>) returns (t: World)
    requires w.projection == Concluded() && w.executions == OneReceipt() && Below(w, 11)
    requires IsListing(listing, Closure(w.stored, w.edges, Rec(7, ActionAdmissionDecision).Key()))
    ensures Steps(w, t, Revoking(listing)) && Reopened(t.projection) && t.executions == OneReceipt() && Below(t, 12)
  {
    AtReceipt();
    ProofsAreNew(w, [ExecutionPermit], 11);
    ProofsAt([ExecutionPermit], 11);
    RevocationReopensProjection(listing);
    hide Concluded, ApplyClosure, ProofFailure, Below, ProofsOf, Closure, IsListing, Replayed, ProofsDistinct;
    var e := Revoking(listing).envelope;
    var d := Draft(ApplyClosure(ProofFailure(w.projection), listing, false), None, OtherEvent("action_admission_proof_revoked"));
    RevocationFits(d.projection);
    hide Reopened, ExecutionFits, ExecutionWritten, OneReceipt;
    t := Persist(w, e, d, 1, true).value;
    StaysBelow(w, t, e, d, 1, true, 11);
  }

  lemma ConclusionIsSpent()
    ensures Spent(Concluded()) && !Outstanding(Concluded()) && Concluded().version == 11
  {
    AtReceipt();
    hide Concluded;
  }

  lemma RevocationFollows(w: World) returns (t: World, input: Input)
    requires w.projection == Concluded() && w.executions == OneReceipt() && Below(w, 11)
    ensures Steps(w, t, input) && !input.proofsHold && Reopened(t.projection) && t.executions == OneReceipt() && Below(t, 12)
  {
    hide Below, Closure, Reopened, Steps, Concluded, OneReceipt, IsListing;
    var listing := ListingExists(Closure(w.stored, w.edges, Rec(7, ActionAdmissionDecision).Key()));
    t := RevocationCommits(w, listing);
    input := Revoking(listing);
  }

  lemma RunsToReopening() returns (r: Play)
    ensures IsRun(0, r.worlds, r.inputs) && |r.inputs| == 12
    ensures Spent(r.worlds[11].projection) && !Outstanding(r.worlds[11].projection) && !r.inputs[11].proofsHold
    ensures Reopened(r.worlds[12].projection) && r.worlds[12].executions == OneReceipt() && Below(r.worlds[12], 12)
  {
    hide *;
    var s := RunsToReceipt();
    EndsSoundly(s, Concluded(), OneReceipt());
    ConclusionIsSpent();
    var t, input := RevocationFollows(s.worlds[11]);
    RunGrows(s.worlds, s.inputs, t, input);
    r := Play(s.worlds + [t], s.inputs + [input]);
  }

  lemma SecondReceiptPresentable(w: World) returns (second: Input)
    requires Invariant(w) && Reopened(w.projection) && Below(w, 12)
    ensures Presentable(w, second) && second.envelope.command.CommitExecutionReceipt? && second.now == 1
  {
    var e := SettleAgain(w.projection);
    SecondReceiptEvaluates(w.projection);
    ProofsAreNew(w, [ProviderReceipt], 12);
    InvariantParts(w);
    StoredRecord(w, ExecutionReceipt);
    hide Invariant, RecordsStored, EdgesRanked, LiveChain, Evaluate, Closure, ProofsOf, Replayed, ProofsDistinct, ClosureRoot, IsListing;
    var root := ClosureRoot(w.projection, e.command, Evaluate(w.projection, e, 1).value);
    var listing := [];
    if root.Some? {
      listing := ListingExists(Closure(w.stored, w.edges, root.value.Key()));
    }
    second := Input(e, 1, true, listing);
  }

  /**
    After its receipt a command that finds the admission's proofs revoked reopens the effect,
    and a second receipt, in time and lacking nothing, is refused.
   */
  lemma ReopenedRun() returns (worlds: seq<World>, inputs: seq<Input>, second: Input)
    ensures IsRun(0, worlds, inputs) && |inputs| == 12 && !inputs[11].proofsHold
    ensures Spent(worlds[11].projection) && !Outstanding(worlds[11].projection) && Outstanding(worlds[12].projection)
    ensures Presentable(worlds[12], second) && second.envelope.command.CommitExecutionReceipt?
    ensures WithinLimits(worlds[12].projection.execution.value, second.now) && !Commits(worlds[12], second)
  {
    var r := RunsToReopening();
    worlds, inputs := r.worlds, r.inputs;
    RunsKeepInvariant(0, worlds, inputs, 12);
    RunsStayConsistent(0, worlds, inputs, 12);
    hide IsRun, Invariant, Consistent, Below, Presentable, Commits;
    assert AttemptOf(worlds[12].projection.execution.value) in worlds[12].executions.receipts;
    second := SecondReceiptPresentable(worlds[12]);
    ReceiptCommitsOnceWithinLimits(worlds[12], second);
  }
}
