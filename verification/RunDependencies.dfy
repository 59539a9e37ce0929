/**
  What the stored dependency rows say, kind by kind, and what falls by them: what each live
  record rests on, the rows of receipts and assertions, which no liveness rests on, and
  everything that a committed invalidation or a new revision takes with it.
 */
module RunDependencies {
  import opened Wrappers
  import opened Contracts
  import opened Graphs
  import opened RunModel
  import opened RunTables
  import opened RunInvariants
  import opened RunDrafts
  import opened RunSafety
  import opened RunExecutions
  import opened RunEffects

  // ---------------------------------------------------------------- what live records rest on

  /** The current record of kind `k` rests on the live one of kind `q`. */
  ghost predicate RestsOn(w: World, k: Kind, q: Kind) {
    && k in w.projection.records && q in w.projection.records && w.projection.records[q] !in w.projection.invalidated
    && Edge(w.projection.records[q].Key(), w.projection.records[k].Key()) in w.edges
  }

  /** Each live record's row or rows, by its kind. */
  lemma LiveRecordsRest(w: World)
    requires Invariant(w)
    ensures Live(w.projection, ContextSnapshot) ==> RestsOn(w, ContextSnapshot, CanonicalInput)
    ensures Live(w.projection, Intent) ==> RestsOn(w, Intent, ContextSnapshot)
    ensures Live(w.projection, Decision) ==> RestsOn(w, Decision, Intent)
    ensures Live(w.projection, TurnCoordination) ==> RestsOn(w, TurnCoordination, Intent) && RestsOn(w, TurnCoordination, Decision)
    ensures Live(w.projection, Response) ==> RestsOn(w, Response, TurnCoordination)
    ensures Live(w.projection, Action) ==> RestsOn(w, Action, TurnCoordination) && RestsOn(w, Action, Decision)
    ensures Live(w.projection, ActionAdmissionDecision) ==> RestsOn(w, ActionAdmissionDecision, Action)
    ensures Live(w.projection, Outcome) ==> RestsOn(w, Outcome, ExecutionReceipt)
    ensures Live(w.projection, HumanModelCandidate) ==> RestsOn(w, HumanModelCandidate, Outcome)
    ensures Live(w.projection, HumanModelPromotionDecision) ==> RestsOn(w, HumanModelPromotionDecision, HumanModelCandidate)
  {
    InvariantParts(w);
    hide Invariant, RecordsStored, EdgesRanked;
    RestsIs(w, ContextSnapshot, CanonicalInput);
    RestsIs(w, Intent, ContextSnapshot);
    RestsIs(w, Decision, Intent);
    RestsIs(w, TurnCoordination, Intent);
    RestsIs(w, TurnCoordination, Decision);
    RestsIs(w, Response, TurnCoordination);
    RestsIs(w, Action, TurnCoordination);
    RestsIs(w, Action, Decision);
    RestsIs(w, ActionAdmissionDecision, Action);
    RestsIs(w, Outcome, ExecutionReceipt);
    RestsIs(w, HumanModelCandidate, Outcome);
    RestsIs(w, HumanModelPromotionDecision, HumanModelCandidate);
  }

  lemma RestsIs(w: World, k: Kind, q: Kind)
    requires LiveChain(w)
    ensures Live(w.projection, k) && q in Parents(k) ==> RestsOn(w, k, q)
  {
    if Live(w.projection, k) && q in Parents(k) {
      assert Rests(w, k, q);
    }
  }

  // ---------------------------------------------------------------- the rows of one transaction

  /** Tables only grow. */
  ghost predicate TablesGrow(w: World, t: World) {
    && w.edges <= t.edges && (forall k :: k in w.stored ==> k in t.stored && t.stored[k] == w.stored[k])
    && w.projection.records.Keys <= t.projection.records.Keys && w.projection.invalidated <= t.projection.invalidated
  }

  /** A transaction that stores a record, unfolded. */
  lemma RecordStored(w: World, t: World, input: Input)
    requires Invariant(w) && Steps(w, t, input) && !AdmissionFails(w.projection, input.envelope.command, input.proofsHold)
    requires Evaluate(w.projection, input.envelope, input.now).Ok? && Evaluate(w.projection, input.envelope, input.now).value.record.Some?
    ensures
      var d := Evaluate(w.projection, input.envelope, input.now).value;
      && Records(w, t, d.record.value, Dependencies(input.envelope.command, d.projection.records, d.record.value))
      && d.projection.records == w.projection.records[d.record.value.kind := d.record.value]
  {
    hide Evaluate, GoodDraft, Invariant, Persist, Closed;
    hide ClosureRoot, Steps, AdmissionFails, Sound, Records, Leaves;
    hide ProofsDistinct, Replayed, Dependencies;
    var e, p := input.envelope, w.projection;
    InvariantIsSound(w);
    EvaluateGood(p, e, input.now);
    CommittedCorrectsNothing(w, t, input);
    var d := Evaluate(p, e, input.now).value;
    StepUnfolds(w, t, input, d);
    RecordWrites(w, t, e, d, ClosureRoot(p, e.command, d), input.listing, input.now);
    GoodShape(Counted(p), e.command, d, input.now);
  }

  lemma RecordsGrow(w: World, t: World, ref: Ref, dependencies: set<Ref>)
    requires Records(w, t, ref, dependencies)
    ensures TablesGrow(w, t)
  {
    hide Fallen;
  }

  lemma InvalidatesGrow(w: World, t: World, root: RecordKey)
    requires Invalidates(w, t, root)
    ensures TablesGrow(w, t)
  {
    hide Closure;
  }

  /** A transaction without a record invalidates a closure or nothing. */
  lemma UnrecordedStep(w: World, t: World, input: Input)
    requires Invariant(w) && Steps(w, t, input) && !AdmissionFails(w.projection, input.envelope.command, input.proofsHold)
    requires Evaluate(w.projection, input.envelope, input.now).Ok? && Evaluate(w.projection, input.envelope, input.now).value.record.None?
    ensures
      if input.envelope.command.InvalidateRecord? then Invalidates(w, t, input.envelope.command.target.Key())
      else t.stored == w.stored && t.edges == w.edges && t.projection.records == w.projection.records && t.projection.invalidated == w.projection.invalidated
  {
    var e, p := input.envelope, w.projection;
    InvariantIsSound(w);
    EvaluateGood(p, e, input.now);
    CommittedCorrectsNothing(w, t, input);
    var d := Evaluate(p, e, input.now).value;
    var root := ClosureRoot(p, e.command, d);
    TargetFalls(w, e, d);
    GoodParts(Counted(p), e.command, d, input.now);
    hide Evaluate, GoodDraft, Invariant;
    ClosedSound(w, d, root, Marked(e.command), input.listing, e.command.InvalidateRecord?);
    StepUnfolds(w, t, input, d);
    assert t.projection == Closed(d, root, input.listing, e.command.InvalidateRecord?);
    ShapeKeepsRecords(Counted(p), e.command, d);
    WeakerRecords(d.projection, t.projection);
  }

  lemma FailureInvalidates(w: World, t: World, input: Input)
    requires Invariant(w) && Steps(w, t, input) && AdmissionFails(w.projection, input.envelope.command, input.proofsHold)
    ensures w.projection.admission.Some? && Invalidates(w, t, w.projection.admission.value.ref.Key())
    ensures t.projection.records == w.projection.records
  {
    var e, p := input.envelope, w.projection;
    var root := p.admission.value.ref;
    var d := Draft(ProofFailure(p), None, OtherEvent("action_admission_proof_revoked"));
    FailureSound(p);
    ClosedSound(w, d, Some(root), {}, input.listing, false);
  }

  lemma StepGrows(w: World, t: World, input: Input)
    requires Invariant(w) && Steps(w, t, input)
    ensures TablesGrow(w, t)
  {
    hide Invariant, Steps, Evaluate, AdmissionFails, Records, Invalidates, Dependencies;
    EvaluatedOrFailed(w, t, input);
    if AdmissionFails(w.projection, input.envelope.command, input.proofsHold) {
      FailureInvalidates(w, t, input);
      InvalidatesGrow(w, t, w.projection.admission.value.ref.Key());
    } else {
      var d := Evaluate(w.projection, input.envelope, input.now).value;
      if d.record.Some? {
        RecordStored(w, t, input);
        RecordsGrow(w, t, d.record.value, Dependencies(input.envelope.command, d.projection.records, d.record.value));
      } else {
        UnrecordedStep(w, t, input);
        if input.envelope.command.InvalidateRecord? {
          InvalidatesGrow(w, t, input.envelope.command.target.Key());
        }
      }
    }
  }

  // ---------------------------------------------------------------- receipts and assertions

  lemma ReceiptRecorded(p: Projection, e: Envelope, now: nat)
    requires e.command.CommitExecutionReceipt? && Evaluate(p, e, now).Ok?
    ensures
      var d := Evaluate(p, e, now).value;
      d.record.Some? && d.record.value.kind.ExecutionReceipt?
  {
    hide LineageHolds, CommandAllowed, RequiredProofs, FoundProofs;
  }

  lemma AssertionRecorded(p: Projection, e: Envelope, now: nat)
    requires e.command.PromoteHumanModelAssertion? && Evaluate(p, e, now).Ok?
    ensures
      var d := Evaluate(p, e, now).value;
      && d.record.Some? && d.record.value.kind.HumanModelAssertion? && IsLive(p, e.command.promotionRef)
      && e.command.promotionRef.kind.HumanModelPromotionDecision?
  {
    hide LineageHolds, CommandAllowed, RequiredProofs, FoundProofs, EarliestExpiry;
  }

  /** A committed receipt's row: it rests on the current action. */
  lemma ReceiptRests(w: World, t: World, input: Input)
    requires Invariant(w) && Steps(w, t, input) && input.envelope.command.CommitExecutionReceipt? && Action in w.projection.records
    ensures ExecutionReceipt in t.projection.records
    ensures
      var action, receipt := w.projection.records[Action], t.projection.records[ExecutionReceipt];
      && Edge(action.Key(), receipt.Key()) in t.edges
      && receipt.Key() in t.stored && t.stored[receipt.Key()] == receipt && receipt !in t.projection.invalidated
  {
    EvaluatedOrFailed(w, t, input);
    ReceiptUsesNoAdmission(w.projection, input.envelope.command, input.proofsHold);
    InvariantParts(w);
    hide Invariant, Steps, Evaluate, AdmissionFails, Records;
    ReceiptRecorded(w.projection, input.envelope, input.now);
    RecordStored(w, t, input);
    var d := Evaluate(w.projection, input.envelope, input.now).value;
    var dependencies := Dependencies(input.envelope.command, d.projection.records, d.record.value);
    StoredRecord(w, Action);
    assert w.projection.records[Action] in dependencies;
    hide Dependencies, RecordsStored;
    RowIsThere(w, t, d.record.value, dependencies, w.projection.records[Action]);
    NewRecordIsLive(w, t, d.record.value, dependencies);
    RecordIsThere(w, t, d.record.value, dependencies);
  }

  lemma RowIsThere(w: World, t: World, ref: Ref, dependencies: set<Ref>, d: Ref)
    requires Records(w, t, ref, dependencies) && d in dependencies
    ensures Edge(d.Key(), ref.Key()) in t.edges
  {
    hide Fallen;
    assert Row(d.Key(), ref) in (set x | x in dependencies :: Row(x.Key(), ref));
  }

  lemma RecordIsThere(w: World, t: World, ref: Ref, dependencies: set<Ref>)
    requires Records(w, t, ref, dependencies)
    ensures ref.kind in t.projection.records && t.projection.records[ref.kind] == ref
    ensures ref.Key() in t.stored && t.stored[ref.Key()] == ref
  {
    hide Fallen;
  }

  /** A committed assertion's row: it rests on the promotion it names, which is the current one. */
  lemma AssertionRests(w: World, t: World, input: Input)
    requires Invariant(w) && Steps(w, t, input) && input.envelope.command.PromoteHumanModelAssertion?
    ensures HumanModelAssertion in t.projection.records && HumanModelPromotionDecision in w.projection.records
    ensures
      var promotion, assertion := w.projection.records[HumanModelPromotionDecision], t.projection.records[HumanModelAssertion];
      && input.envelope.command.promotionRef == promotion
      && Edge(promotion.Key(), assertion.Key()) in t.edges
      && assertion.Key() in t.stored && t.stored[assertion.Key()] == assertion && assertion !in t.projection.invalidated
  {
    EvaluatedOrFailed(w, t, input);
    NoAdmissionInPromotion(w.projection, input.envelope.command, input.proofsHold);
    InvariantParts(w);
    hide Invariant, Steps, Evaluate, AdmissionFails, Records;
    AssertionRecorded(w.projection, input.envelope, input.now);
    RecordStored(w, t, input);
    var d := Evaluate(w.projection, input.envelope, input.now).value;
    var dependencies := Dependencies(input.envelope.command, d.projection.records, d.record.value);
    assert input.envelope.command.promotionRef in dependencies;
    hide Dependencies, RecordsStored;
    RowIsThere(w, t, d.record.value, dependencies, input.envelope.command.promotionRef);
    NewRecordIsLive(w, t, d.record.value, dependencies);
    RecordIsThere(w, t, d.record.value, dependencies);
  }

  lemma NoAdmissionInPromotion(p: Projection, c: Command, proofsHold: bool)
    requires c.PromoteHumanModelAssertion?
    ensures !AdmissionFails(p, c, proofsHold)
  {
  }

  // ---------------------------------------------------------------- what falls

  /** Everything stored that a walk of rows reaches from `root`, and the record there. */
  ghost predicate AllFallen(w: World, t: World, root: RecordKey) {
    forall k :: k in w.stored && (k == root || Reaches(w.edges, root, k)) ==> w.stored[k] in t.projection.invalidated
  }

  /** A committed invalidation takes with it everything that rests on its target, at any remove, and marks the run. */
  lemma InvalidationFells(w: World, t: World, input: Input)
    requires Invariant(w) && Steps(w, t, input) && input.envelope.command.InvalidateRecord?
    ensures AllFallen(w, t, input.envelope.command.target.Key()) && t.projection.state.Invalidated?
  {
    EvaluatedOrFailed(w, t, input);
    InvalidationUsesNoAdmission(w.projection, input.envelope, input.now, input.proofsHold);
    hide Invariant, Steps, Evaluate, AdmissionFails, Invalidates;
    UnrecordedStep(w, t, input);
    InvalidatesFells(w, t, input.envelope.command.target.Key());
    InvalidationMarks(w, t, input);
  }

  lemma InvalidationMarks(w: World, t: World, input: Input)
    requires Steps(w, t, input) && input.envelope.command.InvalidateRecord?
    requires !AdmissionFails(w.projection, input.envelope.command, input.proofsHold)
    ensures t.projection.state.Invalidated?
  {
    hide Evaluate, InvalidateAll, Closure, Replayed, ProofsDistinct, AdmissionFails, Consumptions, ExecutionFits, ExecutionWritten;
  }

  lemma InvalidationUsesNoAdmission(p: Projection, e: Envelope, now: nat, proofsHold: bool)
    requires e.command.InvalidateRecord?
    ensures !AdmissionFails(p, e.command, proofsHold)
    ensures Evaluate(p, e, now).Ok? ==> Evaluate(p, e, now).value.record.None?
  {
    hide LineageHolds, CommandAllowed, RequiredProofs, FoundProofs;
  }

  lemma InvalidatesFells(w: World, t: World, root: RecordKey)
    requires Invalidates(w, t, root)
    ensures AllFallen(w, t, root)
  {
    forall k | k in w.stored && (k == root || Reaches(w.edges, root, k))
      ensures w.stored[k] in t.projection.invalidated
    {
      assert w.stored[k] in Closure(w.stored, w.edges, root);
    }
  }

  /** A new revision takes with it everything that rests on the one it supersedes; only a renewed admission takes nothing. */
  lemma RevisionFells(w: World, t: World, input: Input, k: Kind)
    requires Invariant(w) && Steps(w, t, input) && k in w.projection.records && k in t.projection.records
    requires t.projection.records[k] != w.projection.records[k] && k != ActionAdmissionDecision
    ensures AllFallen(w, t, w.projection.records[k].Key())
  {
    hide Invariant, Steps, Evaluate, AdmissionFails, Records, Dependencies, Invalidates;
    EvaluatedOrFailed(w, t, input);
    if AdmissionFails(w.projection, input.envelope.command, input.proofsHold) {
      FailureInvalidates(w, t, input);
    } else {
      var d := Evaluate(w.projection, input.envelope, input.now).value;
      if d.record.None? {
        UnrecordedStep(w, t, input);
        if input.envelope.command.InvalidateRecord? {
          InvalidatesKeepsRecords(w, t, input.envelope.command.target.Key());
        }
      } else {
        RecordStored(w, t, input);
        RecordsFell(w, t, d.record.value, Dependencies(input.envelope.command, d.projection.records, d.record.value), k);
      }
    }
  }

  lemma InvalidatesKeepsRecords(w: World, t: World, root: RecordKey)
    requires Invalidates(w, t, root)
    ensures t.projection.records == w.projection.records
  {
    hide Closure;
  }

  lemma RecordsFell(w: World, t: World, ref: Ref, dependencies: set<Ref>, k: Kind)
    requires Records(w, t, ref, dependencies) && k in w.projection.records && k in t.projection.records
    requires t.projection.records[k] != w.projection.records[k] && k != ActionAdmissionDecision
    ensures AllFallen(w, t, w.projection.records[k].Key())
  {
    var root := w.projection.records[k].Key();
    assert k == ref.kind;
    forall key | key in w.stored && (key == root || Reaches(w.edges, root, key))
      ensures w.stored[key] in t.projection.invalidated
    {
      assert w.stored[key] in Closure(w.stored, w.edges, root);
    }
  }

  // ---------------------------------------------------------------- over runs

  lemma GrowsTransitive(a: World, b: World, c: World)
    requires TablesGrow(a, b) && TablesGrow(b, c)
    ensures TablesGrow(a, c)
  {
  }

  lemma {:induction false} RunsGrow(domain: nat, worlds: seq<World>, inputs: seq<Input>, m: nat, n: nat)
    requires IsRun(domain, worlds, inputs) && m <= n < |worlds|
    ensures TablesGrow(worlds[m], worlds[n])
    decreases n
  {
    hide Steps, TablesGrow, Invariant;
    if m == n {
      GrowsReflexive(worlds[m]);
    } else {
      RunsGrow(domain, worlds, inputs, m, n - 1);
      RunsKeepInvariant(domain, worlds, inputs, n - 1);
      assert Steps(worlds[n - 1], worlds[n - 1 + 1], inputs[n - 1]);
      StepGrows(worlds[n - 1], worlds[n], inputs[n - 1]);
      GrowsTransitive(worlds[m], worlds[n - 1], worlds[n]);
    }
  }

  lemma GrowsReflexive(w: World)
    ensures TablesGrow(w, w)
  {
  }

  /** A run with an execution has an action on record. */
  lemma {:induction false} ExecutionHasAction(domain: nat, worlds: seq<World>, inputs: seq<Input>, n: nat)
    requires IsRun(domain, worlds, inputs) && n < |worlds| && worlds[n].projection.execution.Some?
    ensures Action in worlds[n].projection.records
  {
    hide Steps, Invariant, AdmissionFails, FollowsAttempt;
    assert n > 0;
    assert Steps(worlds[n - 1], worlds[n - 1 + 1], inputs[n - 1]);
    RunsKeepInvariant(domain, worlds, inputs, n - 1);
    RunsKeepInvariant(domain, worlds, inputs, n);
    StepMoves(worlds[n - 1], worlds[n], inputs[n - 1]);
    StepGrows(worlds[n - 1], worlds[n], inputs[n - 1]);
    if SameButState(worlds[n - 1].projection.execution, worlds[n].projection.execution) {
      ExecutionHasAction(domain, worlds, inputs, n - 1);
    } else {
      FlightHasAction(worlds[n]);
    }
  }

  lemma FlightHasAction(w: World)
    requires Invariant(w) && w.projection.execution.Some? && w.projection.execution.value.state.InFlight()
    ensures Action in w.projection.records
  {
    hide RecordsStored, EdgesRanked, LiveChain, LeaseBounded, FlightLogged, ConsumedDistinct;
  }

  /** `k` and all that rests on it fall with `root` in any later state of the tables. */
  ghost predicate FallsWith(w: World, root: RecordKey, k: RecordKey) {
    && k in w.stored && w.stored[k] in Closure(w.stored, w.edges, root)
    && (forall j :: j in w.stored && Reaches(w.edges, k, j) ==> w.stored[j] in Closure(w.stored, w.edges, root))
  }

  lemma EdgeFalls(w: World, root: RecordKey, k: RecordKey)
    requires k in w.stored && Edge(root, k) in w.edges
    ensures FallsWith(w, root, k)
  {
    ReachesByEdge(w.edges, root, k);
    forall j | j in w.stored && Reaches(w.edges, k, j)
      ensures w.stored[j] in Closure(w.stored, w.edges, root)
    {
      ReachesTransitive(w.edges, root, k, j);
    }
  }

  /** From its commit on a receipt, and all that rests on it, falls with the action it is recorded on. */
  lemma ReceiptFallsWithAction(domain: nat, worlds: seq<World>, inputs: seq<Input>, m: nat, n: nat)
    requires IsRun(domain, worlds, inputs) && m < n < |worlds| && inputs[m].envelope.command.CommitExecutionReceipt?
    ensures Action in worlds[m].projection.records && ExecutionReceipt in worlds[m + 1].projection.records
    ensures FallsWith(worlds[n], worlds[m].projection.records[Action].Key(), worlds[m + 1].projection.records[ExecutionReceipt].Key())
  {
    assert Steps(worlds[m], worlds[m + 1], inputs[m]);
    RunsKeepInvariant(domain, worlds, inputs, m);
    ReceiptCommitted(worlds[m], worlds[m + 1], inputs[m]);
    OutstandingHasExecution(worlds[m].projection);
    ExecutionHasAction(domain, worlds, inputs, m);
    hide IsRun, Steps, Invariant, Outstanding;
    ReceiptRests(worlds[m], worlds[m + 1], inputs[m]);
    RunsGrow(domain, worlds, inputs, m + 1, n);
    EdgeFalls(worlds[n], worlds[m].projection.records[Action].Key(), worlds[m + 1].projection.records[ExecutionReceipt].Key());
  }

  lemma OutstandingHasExecution(p: Projection)
    requires Outstanding(p)
    ensures p.execution.Some?
  {
  }

  /** An assertion falls with the promotion it was made from, as soon as a later promotion replaces that. */
  lemma AssertionFallsWithPromotion(domain: nat, worlds: seq<World>, inputs: seq<Input>, m: nat, n: nat)
    requires IsRun(domain, worlds, inputs) && m < n < |inputs| && inputs[m].envelope.command.PromoteHumanModelAssertion?
    requires HumanModelPromotionDecision in worlds[n].projection.records && HumanModelPromotionDecision in worlds[n + 1].projection.records
    requires worlds[n].projection.records[HumanModelPromotionDecision] == inputs[m].envelope.command.promotionRef
    requires worlds[n + 1].projection.records[HumanModelPromotionDecision] != inputs[m].envelope.command.promotionRef
    ensures HumanModelAssertion in worlds[m + 1].projection.records
    ensures worlds[m + 1].projection.records[HumanModelAssertion] in worlds[n + 1].projection.invalidated
  {
    assert Steps(worlds[m], worlds[m + 1], inputs[m]) && Steps(worlds[n], worlds[n + 1], inputs[n]);
    RunsKeepInvariant(domain, worlds, inputs, m);
    RunsKeepInvariant(domain, worlds, inputs, n);
    hide IsRun, Steps, Invariant;
    AssertionRests(worlds[m], worlds[m + 1], inputs[m]);
    RunsGrow(domain, worlds, inputs, m + 1, n);
    var assertion := worlds[m + 1].projection.records[HumanModelAssertion];
    ReachesByEdge(worlds[n].edges, inputs[m].envelope.command.promotionRef.Key(), assertion.Key());
    RevisionFells(worlds[n], worlds[n + 1], inputs[n], HumanModelPromotionDecision);
  }

  /** After its receipt a run takes no invalidation any more, so that only new revisions still take anything with them. */
  lemma NothingInvalidatedAfterReceipt(domain: nat, worlds: seq<World>, inputs: seq<Input>, m: nat, n: nat)
    requires IsRun(domain, worlds, inputs) && m < n < |inputs| && inputs[m].envelope.command.CommitExecutionReceipt?
    ensures !inputs[n].envelope.command.InvalidateRecord?
  {
    assert Steps(worlds[m], worlds[m + 1], inputs[m]) && Steps(worlds[n], worlds[n + 1], inputs[n]);
    ReceiptShuts(worlds[m], worlds[m + 1], inputs[m]);
    RunsStayShut(domain, worlds, inputs, m + 1, n);
    hide IsRun, Steps;
    StepStaysShut(worlds[n], worlds[n + 1], inputs[n]);
  }

  /** The run's execution was dispatched, and the run takes no command that leads to effects. */
  predicate Shut(p: Projection) {
    Spent(p) && !Open(p.state)
  }

  lemma ReceiptShuts(w: World, t: World, input: Input)
    requires Steps(w, t, input) && input.envelope.command.CommitExecutionReceipt?
    ensures Shut(t.projection)
  {
    EvaluatedOrFailed(w, t, input);
    ReceiptUsesNoAdmission(w.projection, input.envelope.command, input.proofsHold);
    ReceiptCloses(w.projection, input.envelope, input.now);
    OutstandingIsSpent(w.projection);
    StepKeepsSpent(w, t, input);
    hide Steps, Evaluate, AdmissionFails, Closed, Persist, ListsRoot, ClosureRoot, Open, Settles, Spent;
    var e, p := input.envelope, w.projection;
    var d := Evaluate(p, e, input.now).value;
    StepUnfolds(w, t, input, d);
    PersistKeeps(w, t, e, d.(projection := Closed(d, ClosureRoot(p, e.command, d), input.listing, e.command.InvalidateRecord?)), input.now, false);
    SettlementIsAllowed(p, d.projection, e.command);
    ClosureStays(d, ClosureRoot(p, e.command, d), input.listing);
  }

  lemma OutstandingIsSpent(p: Projection)
    requires Outstanding(p)
    ensures Spent(p)
  {
  }

  lemma ClosedStaysShut(d: Draft, root: Option<Ref>, listing: seq<Ref>)
    ensures !Open(d.projection.state) ==> !Open(Closed(d, root, listing, false).state)
  {
    AllKeepState(d.projection, listing);
    hide InvalidateAll;
  }

  lemma EvaluationStaysShut(p: Projection, e: Envelope, now: nat)
    requires !Open(p.state) && Evaluate(p, e, now).Ok?
    ensures !Open(Evaluate(p, e, now).value.projection.state) && !e.command.InvalidateRecord?
  {
    hide LineageHolds, RequiredProofs, FoundProofs, ApplyStart, ApplyPlain, ApplyReceipt;
    if e.command.CommitExecutionReceipt? {
      ReceiptCloses(p, e, now);
    } else {
      EvaluateFrames(p, e, now);
    }
  }

  lemma FailureStaysShut(w: World, t: World, input: Input)
    requires Steps(w, t, input) && AdmissionFails(w.projection, input.envelope.command, input.proofsHold) && Spent(w.projection)
    ensures !Open(t.projection.state)
  {
    FailureUnfolds(w, t, input);
    AllKeepState(ProofFailure(w.projection), input.listing);
    hide Steps, AdmissionFails, InvalidateAll;
  }

  /** No command opens such a run again, and an invalidation needs an open one. */
  lemma StepStaysShut(w: World, t: World, input: Input)
    requires Steps(w, t, input) && Shut(w.projection)
    ensures Shut(t.projection) && !input.envelope.command.InvalidateRecord?
  {
    StepKeepsSpent(w, t, input);
    EvaluatedOrFailed(w, t, input);
    hide Steps, Evaluate, AdmissionFails, Spent, Persist, ListsRoot, ClosureRoot, Closed, Open;
    var e, p := input.envelope, w.projection;
    if e.command.InvalidateRecord? {
      InvalidationUsesNoAdmission(p, e, input.now, input.proofsHold);
    }
    if AdmissionFails(p, e.command, input.proofsHold) {
      FailureStaysShut(w, t, input);
    } else {
      var d := Evaluate(p, e, input.now).value;
      EvaluationStaysShut(p, e, input.now);
      StepUnfolds(w, t, input, d);
      var root := ClosureRoot(p, e.command, d);
      PersistKeeps(w, t, e, d.(projection := Closed(d, root, input.listing, e.command.InvalidateRecord?)), input.now, false);
      ClosedStaysShut(d, root, input.listing);
    }
  }

  lemma {:induction false} RunsStayShut(domain: nat, worlds: seq<World>, inputs: seq<Input>, m: nat, n: nat)
    requires IsRun(domain, worlds, inputs) && m <= n < |worlds| && Shut(worlds[m].projection)
    ensures Shut(worlds[n].projection)
    decreases n
  {
    hide Steps, Shut;
    if m < n {
      RunsStayShut(domain, worlds, inputs, m, n - 1);
      assert Steps(worlds[n - 1], worlds[n - 1 + 1], inputs[n - 1]);
      StepStaysShut(worlds[n - 1], worlds[n], inputs[n - 1]);
    }
  }
}
