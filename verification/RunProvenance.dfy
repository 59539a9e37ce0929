/**
  Where what a run carries out comes from: in every reachable state the action is what the
  live decision chose and the admission and the execution are of that action; and every
  dispatch is traced back to the commands, callers and proofs that led to it.
 */
module RunProvenance {
  import opened Wrappers
  import opened Contracts
  import opened Graphs
  import opened RunModel
  import opened RunTables
  import opened RunInvariants
  import opened RunDrafts
  import opened RunSafety
  import opened RunExecutions

  // ---------------------------------------------------------------- one command

  /** Each binding is the old one, gone, or set by its own command. */
  ghost predicate Binds(p: Projection, e: Envelope, q: Projection) {
    && (q.decision.Some? ==> q.decision == p.decision || DecidedBy(e, q.decision.value))
    && (q.action.Some? ==> q.action == p.action || ActedBy(p, e, q.action.value))
    && (q.admission.Some? ==> q.admission == p.admission || AdmittedBy(p, e, q.admission.value))
    && (q.execution.Some? ==> SameButState(p.execution, q.execution) || ReservedBy(p, e, q.execution.value))
  }

  predicate DecidedBy(e: Envelope, b: DecisionBinding) {
    && e.command.RecordDecision? && e.command.derivation == Some(b.derivation)
    && exists i :: 0 <= i < |e.proofs| && e.proofs[i].kind == DecisionNecessityAdmission
  }

  /** The action binding is the live decision's derivation, which the command repeats. */
  predicate ActedBy(p: Projection, e: Envelope, b: ActionBinding) {
    && e.command.RecordAction? && e.command.derivation == Some(b.derivation)
    && p.decision.Some? && p.decision.value.derivation == b.derivation
    && b.request == RequestDigest(b.ref, b.derivation.operation, b.derivation.parameterDigest)
  }

  predicate Presents(e: Envelope, kind: ProofKind) {
    exists i :: 0 <= i < |e.proofs| && e.proofs[i].kind == kind
  }

  /** Granted for the live action, with the five proofs, and outlasted by each of them. */
  predicate AdmittedBy(p: Projection, e: Envelope, a: Admission) {
    && e.command.AdmitAction? && e.command.actionRef == a.actionRef && e.command.actionDigest == a.actionRef.digest
    && e.command.provider == a.provider && e.command.owner == a.owner && e.command.idempotencyKey == a.idempotencyKey != ""
    && p.action.Some? && p.action.value.ref == a.actionRef
    && a.operation == p.action.value.derivation.operation && a.parameterDigest == p.action.value.derivation.parameterDigest
    && a.request == p.action.value.request
    && Presents(e, Capability) && Presents(e, Authority) && Presents(e, Policy) && Presents(e, ExactAuthorization) && Presents(e, ActionAdmission)
    && (exists i :: 0 <= i < |e.proofs| && e.proofs[i].kind == ExactAuthorization
          && e.proofs[i].id == a.authorizationProof && e.proofs[i].expiresAt == a.authorizationValidUntil)
    && a.validUntil == a.ref.validUntil <= a.actionRef.validUntil
    && (forall i :: 0 <= i < |e.proofs| ==> a.validUntil <= e.proofs[i].expiresAt)
  }

  /** Reserved by its owner under the admission in force, with an execution permit. */
  predicate ReservedBy(p: Projection, e: Envelope, x: Execution) {
    && e.command.ReserveExecution? && e.caller == x.owner && Presents(e, ExecutionPermit)
    && e.command.attempt == x.attempt && e.command.leaseUntil == x.leaseUntil && e.command.dispatchNonce == x.dispatchNonce
    && e.minted.permitId == x.permitId
    && p.admission.Some?
    && var a := p.admission.value;
       && x.admissionRef == a.ref && x.actionRef == a.actionRef && x.provider == a.provider && x.owner == a.owner
       && x.operation == a.operation && x.parameterDigest == a.parameterDigest && x.request == a.request
       && x.idempotencyKey == a.idempotencyKey && x.authorizationProof == a.authorizationProof
       && x.actionValidUntil == a.actionRef.validUntil && x.admissionValidUntil == a.ref.validUntil
       && x.authorizationValidUntil == a.authorizationValidUntil && x.leaseUntil == x.permitValidUntil
  }

  lemma ProofPresented(e: Envelope, kind: ProofKind)
    requires kind in FoundProofs(e.proofs)
    ensures Presents(e, kind)
  {
  }

  lemma {:induction false} KindFound(proofs: seq<Proof>, kind: ProofKind, domain: nat)
    requires ProofOfKind(proofs, kind, domain).Some?
    ensures exists i :: 0 <= i < |proofs| && proofs[i].kind == kind && proofs[i] == ProofOfKind(proofs, kind, domain).value
  {
    if !(proofs[0].kind == kind && proofs[0].domain == domain) {
      KindFound(proofs[1..], kind, domain);
      var i :| 0 <= i < |proofs[1..]| && proofs[1..][i].kind == kind && proofs[1..][i] == ProofOfKind(proofs[1..], kind, domain).value;
      assert proofs[i + 1] == proofs[1..][i];
    } else {
      assert proofs[0].kind == kind;
    }
  }

  lemma {:induction false} EarliestBounds(proofs: seq<Proof>, bound: nat)
    ensures EarliestExpiry(proofs, bound) <= bound
    ensures forall i :: 0 <= i < |proofs| ==> EarliestExpiry(proofs, bound) <= proofs[i].expiresAt
  {
    if proofs != [] {
      EarliestBounds(proofs[..|proofs| - 1], bound);
      forall i | 0 <= i < |proofs|
        ensures EarliestExpiry(proofs, bound) <= proofs[i].expiresAt
      {
        if i < |proofs| - 1 {
          assert proofs[i] == proofs[..|proofs| - 1][i];
        }
      }
    }
  }

  lemma DecisionSets(q: Projection, e: Envelope, now: nat)
    requires e.command.RecordDecision? && Apply(q, e, now).Ok? && FoundProofs(e.proofs) == RequiredProofs(e.command)
    ensures Binds(q, e, Apply(q, e, now).value.projection)
  {
    ProofPresented(e, DecisionNecessityAdmission);
    hide FoundProofs, Issue, CurrentAt;
  }

  lemma ActionSets(q: Projection, e: Envelope, now: nat)
    requires e.command.RecordAction? && Apply(q, e, now).Ok?
    ensures Binds(q, e, Apply(q, e, now).value.projection)
  {
    hide Issue, CurrentAt;
  }

  lemma AdmissionSets(q: Projection, e: Envelope, now: nat)
    requires e.command.AdmitAction? && Apply(q, e, now).Ok?
    ensures Binds(q, e, Apply(q, e, now).value.projection)
  {
    var proofs := e.proofs;
    hide ProofOfKind, EarliestExpiry, ExactCurrentAt;
    assert ProofOfKind(proofs, ExactAuthorization, q.domain).Some?;
    KindFound(proofs, Capability, q.domain);
    KindFound(proofs, Authority, q.domain);
    KindFound(proofs, Policy, q.domain);
    KindFound(proofs, ExactAuthorization, q.domain);
    KindFound(proofs, ActionAdmission, q.domain);
    var authorization := ProofOfKind(proofs, ExactAuthorization, q.domain).value;
    EarliestBounds(proofs, Minimum(e.command.actionRef.validUntil, authorization.expiresAt));
  }

  lemma ReservationSets(q: Projection, e: Envelope, now: nat)
    requires e.command.ReserveExecution? && Apply(q, e, now).Ok?
    ensures Binds(q, e, Apply(q, e, now).value.projection)
  {
    hide ProofOfKind, ExactCurrentAt, ReservationFor;
    KindFound(e.proofs, ExecutionPermit, q.domain);
  }

  lemma OthersBind(p: Projection, e: Envelope, q: Projection)
    requires Untouched(Counted(p), e.command, q)
    requires !e.command.RecordDecision? && !e.command.RecordAction? && !e.command.AdmitAction? && !e.command.ReserveExecution?
    ensures Binds(p, e, q)
  {
    hide DecidedBy, ActedBy, AdmittedBy, ReservedBy;
  }

  lemma FinishBinds(p: Projection, e: Envelope, d: Draft)
    requires Binds(Counted(p), e, d.projection)
    ensures Binds(p, e, Finish(d).projection)
  {
    hide DecidedBy, Presents;
  }

  lemma EvaluationBinds(p: Projection, e: Envelope, now: nat)
    requires Evaluate(p, e, now).Ok?
    ensures Binds(p, e, Evaluate(p, e, now).value.projection)
  {
    EvaluateFrames(p, e, now);
    hide LineageHolds, CommandAllowed, FoundProofs, RequiredProofs, Apply, Finish, Binds, Counted, Untouched;
    var c := e.command;
    if c.RecordDecision? {
      DecisionSets(Counted(p), e, now);
      FinishBinds(p, e, Apply(Counted(p), e, now).value);
    } else if c.RecordAction? {
      ActionSets(Counted(p), e, now);
      FinishBinds(p, e, Apply(Counted(p), e, now).value);
    } else if c.AdmitAction? {
      AdmissionSets(Counted(p), e, now);
      FinishBinds(p, e, Apply(Counted(p), e, now).value);
    } else if c.ReserveExecution? {
      ReservationSets(Counted(p), e, now);
      FinishBinds(p, e, Apply(Counted(p), e, now).value);
    } else {
      OthersBind(p, e, Evaluate(p, e, now).value.projection);
    }
  }

  lemma WeakerBinds(p: Projection, e: Envelope, q: Projection, t: Projection)
    requires Binds(p, e, q) && Weaker(q, t)
    requires t.execution.Some? && t.execution != q.execution ==> SameButState(p.execution, q.execution) || t.execution == q.execution
    ensures Binds(p, e, t)
  {
    hide DecidedBy, ActedBy, AdmittedBy, ReservedBy;
  }

  lemma FailureBinds(p: Projection, e: Envelope, t: Projection)
    requires Weaker(ProofFailure(p), t)
    ensures Binds(p, e, t)
  {
    hide DecidedBy, ActedBy, AdmittedBy, ReservedBy;
  }

  /** So does every committed transaction. */
  lemma StepBinds(w: World, t: World, input: Input)
    requires Steps(w, t, input)
    ensures Binds(w.projection, input.envelope, t.projection)
  {
    hide Steps, Evaluate, AdmissionFails, Persist, ListsRoot, ClosureRoot, Closed, Binds;
    EvaluatedOrFailed(w, t, input);
    var e, p := input.envelope, w.projection;
    if AdmissionFails(p, e.command, input.proofsHold) {
      FailureUnfolds(w, t, input);
      hide InvalidateAll, Weaker;
      AllReleases(ProofFailure(p), input.listing);
      StateOnly(ProofFailure(p), InvalidateAll(ProofFailure(p), input.listing), input.listing);
      FailureBinds(p, e, t.projection);
    } else {
      var d := Evaluate(p, e, input.now).value;
      EvaluationBinds(p, e, input.now);
      EvaluateFrames(p, e, input.now);
      StepUnfolds(w, t, input, d);
      var root := ClosureRoot(p, e.command, d);
      PersistKeeps(w, t, e, d.(projection := Closed(d, root, input.listing, e.command.InvalidateRecord?)), input.now, false);
      ClosedWeaker(d, root, input.listing, e.command.InvalidateRecord?);
      if e.command.ReserveExecution? {
        ReservationStands(p, e.command, d, input.listing);
      }
      hide Weaker;
      MovedSame(p, e.command, d.projection);
      WeakerBinds(p, e, d.projection, t.projection);
    }
  }

  lemma StateOnly(p: Projection, q: Projection, listing: seq<Ref>)
    requires Weaker(p, q) && q == InvalidateAll(p, listing)
    ensures Weaker(p, ApplyClosure(p, listing, false))
  {
    hide InvalidateAll;
  }

  lemma MovedSame(p: Projection, c: Command, q: Projection)
    requires Untouched(Counted(p), c, q)
    ensures !c.ReserveExecution? ==> SameButState(p.execution, q.execution)
  {
  }

  // ---------------------------------------------------------------- what is bound

  /** A live decision and a live action are bound, each as the current record. */
  predicate Bound(p: Projection) {
    && (p.decision.Some? ==> Decision in p.records && p.records[Decision] == p.decision.value.ref)
    && (p.action.Some? ==> Action in p.records && p.records[Action] == p.action.value.ref)
    && (Live(p, Decision) ==> p.decision.Some?) && (Live(p, Action) ==> p.action.Some?)
  }

  lemma OneKeepsBound(p: Projection, r: Ref)
    requires Bound(p) && forall k :: k in p.records ==> p.records[k].kind == k
    ensures Bound(InvalidateOne(p, r)) && InvalidateOne(p, r).records == p.records
  {
    OneIsWeaker(p, r);
    var marked := p.(invalidated := p.invalidated + {r});
    ClearKeepsBound(p, r, ClearBindings(marked, r));
    hide ClearBindings, Weaker;
  }

  /** A binding is cleared only with its own record. */
  lemma ClearKeepsBound(p: Projection, r: Ref, q: Projection)
    requires q == ClearBindings(p.(invalidated := p.invalidated + {r}), r)
    ensures q.decision == p.decision || (q.decision.None? && p.decision.Some? && p.decision.value.ref == r)
    ensures q.action == p.action || (q.action.None? && p.action.Some? && p.action.value.ref == r)
    ensures q.records == p.records && q.invalidated == p.invalidated + {r}
  {
  }

  lemma {:induction false} AllKeepBound(p: Projection, listing: seq<Ref>)
    requires Bound(p) && forall k :: k in p.records ==> p.records[k].kind == k
    ensures Bound(InvalidateAll(p, listing)) && InvalidateAll(p, listing).records == p.records
  {
    hide InvalidateOne, Bound;
    if listing != [] {
      AllKeepBound(p, listing[..|listing| - 1]);
      OneKeepsBound(InvalidateAll(p, listing[..|listing| - 1]), listing[|listing| - 1]);
    }
  }

  lemma ClosedKeepsBound(d: Draft, root: Option<Ref>, listing: seq<Ref>, invalidateRun: bool)
    requires Bound(d.projection) && forall k :: k in d.projection.records ==> d.projection.records[k].kind == k
    ensures Bound(Closed(d, root, listing, invalidateRun))
  {
    hide InvalidateAll;
    AllKeepBound(d.projection, listing);
  }

  /** What the two commands that record a decision and an action bind. */
  lemma RecordingBinds(q: Projection, e: Envelope, now: nat)
    requires (e.command.RecordDecision? || e.command.RecordAction?) && Apply(q, e, now).Ok?
    ensures
      var d := Apply(q, e, now).value;
      && d.record.Some? && d.projection.records == q.records && d.projection.invalidated == q.invalidated
      && (if e.command.RecordDecision? then
            d.record.value.kind.Decision? && d.projection.decision.Some? && d.projection.decision.value.ref == d.record.value && d.projection.action == q.action
          else d.record.value.kind.Action? && d.projection.action.Some? && d.projection.action.value.ref == d.record.value && d.projection.decision == q.decision)
  {
    hide CurrentAt;
  }

  lemma FinishKeepsBound(q: Projection, e: Envelope, now: nat)
    requires Bound(q) && (e.command.RecordDecision? || e.command.RecordAction?) && Apply(q, e, now).Ok?
    ensures Bound(Finish(Apply(q, e, now).value).projection)
  {
    RecordingBinds(q, e, now);
    hide Apply;
  }

  lemma OthersKeepBound(p: Projection, c: Command, d: Draft)
    requires Bound(p) && RecordShape(Counted(p), c, d) && Untouched(Counted(p), c, d.projection)
    requires !c.RecordDecision? && !c.RecordAction?
    ensures Bound(d.projection)
  {
    hide Parents, Dependencies;
  }

  lemma KindsKept(p: Projection, c: Command, d: Draft)
    requires RecordShape(p, c, d) && forall k :: k in p.records ==> p.records[k].kind == k
    ensures forall k :: k in d.projection.records ==> d.projection.records[k].kind == k
  {
    hide IssuedInPlace, Marked;
  }

  lemma EvaluationKeepsBound(p: Projection, e: Envelope, now: nat)
    requires Sound(p) && Bound(p) && Evaluate(p, e, now).Ok?
    ensures
      var q := Evaluate(p, e, now).value.projection;
      Bound(q) && forall k :: k in q.records ==> q.records[k].kind == k
  {
    EvaluateGood(p, e, now);
    EvaluateFrames(p, e, now);
    SoundKinds(p);
    var d := Evaluate(p, e, now).value;
    GoodShape(Counted(p), e.command, d, now);
    hide LineageHolds, CommandAllowed, FoundProofs, RequiredProofs, Apply, Finish, GoodDraft, Sound, RecordShape, Untouched;
    KindsKept(Counted(p), e.command, d);
    if e.command.RecordDecision? || e.command.RecordAction? {
      FinishKeepsBound(Counted(p), e, now);
    } else {
      OthersKeepBound(p, e.command, d);
    }
  }

  lemma SoundKinds(p: Projection)
    requires Sound(p)
    ensures forall k :: k in p.records ==> p.records[k].kind == k
  {
    hide NoDangling, LeaseBounded;
  }

  lemma StepKeepsBound(w: World, t: World, input: Input)
    requires Invariant(w) && Bound(w.projection) && Steps(w, t, input)
    ensures Bound(t.projection)
  {
    hide Invariant, Steps, Evaluate, AdmissionFails, Persist, ListsRoot, ClosureRoot, Closed, Bound, Sound;
    EvaluatedOrFailed(w, t, input);
    InvariantIsSound(w);
    SoundKinds(w.projection);
    var e, p := input.envelope, w.projection;
    if AdmissionFails(p, e.command, input.proofsHold) {
      FailureUnfolds(w, t, input);
      FailureKeepsBound(p);
      ClosedKeepsBound(Draft(ProofFailure(p), None, OtherEvent("")), Some(p.admission.value.ref), input.listing, false);
      ClosedIsApplied(ProofFailure(p), p.admission.value.ref, input.listing);
    } else {
      var d := Evaluate(p, e, input.now).value;
      EvaluationKeepsBound(p, e, input.now);
      StepUnfolds(w, t, input, d);
      var root := ClosureRoot(p, e.command, d);
      PersistKeeps(w, t, e, d.(projection := Closed(d, root, input.listing, e.command.InvalidateRecord?)), input.now, false);
      ClosedKeepsBound(d, root, input.listing, e.command.InvalidateRecord?);
    }
  }

  lemma FailureKeepsBound(p: Projection)
    requires Bound(p)
    ensures Bound(ProofFailure(p)) && ProofFailure(p).records == p.records
  {
  }

  lemma ClosedIsApplied(p: Projection, root: Ref, listing: seq<Ref>)
    ensures Closed(Draft(p, None, OtherEvent("")), Some(root), listing, false) == ApplyClosure(p, listing, false)
  {
    hide ApplyClosure;
  }

  // ---------------------------------------------------------------- the action is what was decided

  /** What the run is to do is what the live decision chose. */
  predicate ActsOnDecision(p: Projection) {
    p.action.Some? ==>
      && p.decision.Some? && p.action.value.derivation == p.decision.value.derivation
      && p.action.value.request ==
           RequestDigest(p.action.value.ref, p.decision.value.derivation.operation, p.decision.value.derivation.parameterDigest)
  }

  /** A bound action's decision is bound. */
  lemma ActionHasDecision(w: World)
    requires Invariant(w) && Bound(w.projection) && w.projection.action.Some?
    ensures w.projection.decision.Some? && Live(w.projection, Action) && Live(w.projection, Decision) && Rests(w, Action, Decision)
  {
    InvariantParts(w);
    InvariantIsSound(w);
    SoundParts(w.projection);
    hide Invariant, RecordsStored, EdgesRanked, Sound;
    assert Live(w.projection, Action);
    assert Decision in Parents(Action);
    assert Rests(w, Action, Decision);
  }

  /** A decision just recorded has no action yet. */
  lemma NewDecisionHasNoAction(w: World, t: World, input: Input)
    requires Invariant(w) && Invariant(t) && Bound(t.projection) && Steps(w, t, input)
    requires input.envelope.command.RecordDecision? && Evaluate(w.projection, input.envelope, input.now).Ok?
    ensures t.projection.action.None?
  {
    var e, p := input.envelope, w.projection;
    var d := Evaluate(p, e, input.now).value;
    hide Invariant, Steps, Evaluate, Persist, ListsRoot, ClosureRoot, Closed, Bound, NewEdges, RecordFits;
    NoAdmissionUsed(p, e.command, input.proofsHold);
    StepUnfolds(w, t, input, d);
    DecisionRecorded(p, e, input.now);
    var closed := d.(projection := Closed(d, ClosureRoot(p, e.command, d), input.listing, e.command.InvalidateRecord?));
    ClosedWeaker(d, ClosureRoot(p, e.command, d), input.listing, e.command.InvalidateRecord?);
    WeakerRecords(d.projection, t.projection);
    DecisionEdges(w, t, e, closed, input.now);
    if t.projection.action.Some? {
      ActionHasDecision(t);
      InvariantParts(w);
      InvariantParts(t);
      hide RecordsStored, EdgesRanked, LiveChain;
      NoEdgeFromNew(w, t, d.record.value);
    }
  }

  lemma NoAdmissionUsed(p: Projection, c: Command, proofsHold: bool)
    requires c.RecordDecision?
    ensures !AdmissionFails(p, c, proofsHold)
  {
  }

  lemma DecisionRecorded(p: Projection, e: Envelope, now: nat)
    requires e.command.RecordDecision? && Evaluate(p, e, now).Ok?
    ensures
      var d := Evaluate(p, e, now).value;
      d.record.Some? && d.record.value.kind.Decision? && Decision in d.projection.records && d.projection.records[Decision] == d.record.value
  {
    hide LineageHolds, CommandAllowed, FoundProofs, RequiredProofs, CurrentAt;
  }

  /** Edges that a transaction adds lead to its new record. */
  lemma DecisionEdges(w: World, t: World, e: Envelope, d: Draft, now: nat)
    requires Persist(w, e, d, now, false) == Ok(t) && d.record.Some?
    ensures d.record.value.Key() !in w.stored
    ensures d.record.value.Key() in t.stored && t.stored[d.record.value.Key()] == d.record.value
    ensures forall edge :: edge in t.edges ==> edge in w.edges || edge.after == d.record.value.Key()
  {
    hide Dependencies;
  }

  lemma NoEdgeFromNew(w: World, t: World, ref: Ref)
    requires EdgesRanked(w.stored, w.edges) && RecordsStored(t) && ref.kind.Decision?
    requires Decision in t.projection.records && t.projection.records[Decision] == ref && Action in t.projection.records
    requires ref.Key() !in w.stored && forall edge :: edge in t.edges ==> edge in w.edges || edge.after == ref.Key()
    ensures !Rests(t, Action, Decision)
  {
    StoredRecord(t, Action);
    StoredRecord(t, Decision);
  }

  lemma StepActsOnDecision(w: World, t: World, input: Input)
    requires Invariant(w) && Bound(w.projection) && ActsOnDecision(w.projection) && Steps(w, t, input)
    ensures ActsOnDecision(t.projection)
  {
    hide Invariant, Steps, Evaluate, Bound;
    StepKeepsInvariant(w, t, input);
    StepKeepsBound(w, t, input);
    StepBinds(w, t, input);
    EvaluatedOrFailed(w, t, input);
    if t.projection.action.Some? {
      ActionHasDecision(t);
      if input.envelope.command.RecordDecision? {
        NoAdmissionUsed(w.projection, input.envelope.command, input.proofsHold);
        NewDecisionHasNoAction(w, t, input);
      }
    }
  }

  lemma {:induction false} RunsActOnDecisions(domain: nat, worlds: seq<World>, inputs: seq<Input>, n: nat)
    requires IsRun(domain, worlds, inputs) && n < |worlds|
    ensures Bound(worlds[n].projection) && ActsOnDecision(worlds[n].projection)
  {
    hide Steps, Bound, ActsOnDecision, Invariant;
    if n == 0 {
      FreshIsBound(domain);
    } else {
      RunsActOnDecisions(domain, worlds, inputs, n - 1);
      RunsKeepInvariant(domain, worlds, inputs, n - 1);
      assert Steps(worlds[n - 1], worlds[n - 1 + 1], inputs[n - 1]);
      StepKeepsBound(worlds[n - 1], worlds[n], inputs[n - 1]);
      StepActsOnDecision(worlds[n - 1], worlds[n], inputs[n - 1]);
    }
  }

  lemma FreshIsBound(domain: nat)
    ensures Bound(FreshWorld(domain).projection) && ActsOnDecision(FreshWorld(domain).projection)
  {
  }

  /** The live decision, action, admission and execution in flight name one option, operation, parameters and request. */
  predicate CarriesOutDecision(p: Projection) {
    && (p.action.Some? ==> p.decision.Some? && p.action.value.derivation == p.decision.value.derivation)
    && (p.admission.Some? ==>
          && p.action.Some? && p.admission.value.actionRef == p.action.value.ref && IsLive(p, p.action.value.ref)
          && p.admission.value.operation == p.decision.value.derivation.operation
          && p.admission.value.parameterDigest == p.decision.value.derivation.parameterDigest
          && p.admission.value.request == p.action.value.request)
    && (p.execution.Some? && p.execution.value.state.InFlight() ==>
          && p.action.Some? && p.execution.value.actionRef == p.action.value.ref && IsLive(p, p.action.value.ref)
          && p.execution.value.operation == p.decision.value.derivation.operation
          && p.execution.value.parameterDigest == p.decision.value.derivation.parameterDigest
          && p.execution.value.request == RequestDigest(
               p.execution.value.actionRef, p.decision.value.derivation.operation, p.decision.value.derivation.parameterDigest))
  }

  /** In every reachable state what is admitted and in flight is what the live decision chose. */
  lemma RunsCarryOutDecisions(domain: nat, worlds: seq<World>, inputs: seq<Input>, n: nat)
    requires IsRun(domain, worlds, inputs) && n < |worlds|
    ensures CarriesOutDecision(worlds[n].projection)
  {
    RunsActOnDecisions(domain, worlds, inputs, n);
    RunsStayConsistent(domain, worlds, inputs, n);
    RunsKeepInvariant(domain, worlds, inputs, n);
    hide IsRun;
    BoundCarriesOut(worlds[n]);
  }

  lemma BoundCarriesOut(w: World)
    requires Bound(w.projection) && ActsOnDecision(w.projection) && Consistent(w) && Invariant(w)
    ensures CarriesOutDecision(w.projection)
  {
    InvariantIsSound(w);
    SoundParts(w.projection);
    hide Invariant, Filed, Sound, LeaseBounded;
  }

  /** Every dispatch carries out exactly what the live decision chose. */
  lemma DispatchCarriesOutDecision(domain: nat, worlds: seq<World>, inputs: seq<Input>, n: nat)
    requires IsRun(domain, worlds, inputs) && n < |inputs| && Dispatches(worlds[n], worlds[n + 1])
    ensures
      var p, x := worlds[n].projection, worlds[n + 1].projection.execution.value;
      && p.decision.Some? && IsLive(p, p.decision.value.ref)
      && x.operation == p.decision.value.derivation.operation && x.parameterDigest == p.decision.value.derivation.parameterDigest
      && x.request == RequestDigest(x.actionRef, x.operation, x.parameterDigest)
  {
    assert Steps(worlds[n], worlds[n + 1], inputs[n]);
    RunsKeepInvariant(domain, worlds, inputs, n);
    RunsCarryOutDecisions(domain, worlds, inputs, n);
    RunsActOnDecisions(domain, worlds, inputs, n);
    hide IsRun, Steps, Invariant, Bound, ActsOnDecision;
    DispatchMoves(worlds[n], worlds[n + 1], inputs[n]);
    ActionHasDecision(worlds[n]);
    DecisionIsLive(worlds[n].projection);
  }

  lemma DecisionIsLive(p: Projection)
    requires Bound(p) && Live(p, Decision) && p.decision.Some? && (forall k :: k in p.records ==> p.records[k].kind == k)
    ensures IsLive(p, p.decision.value.ref)
  {
  }

  // ---------------------------------------------------------------- traced back

  /** The step that bound what a run's state has bound. */
  lemma {:induction false} DecisionTraced(domain: nat, worlds: seq<World>, inputs: seq<Input>, n: nat) returns (k: nat)
    requires IsRun(domain, worlds, inputs) && n < |worlds| && worlds[n].projection.decision.Some?
    ensures k < n && k < |inputs| && DecidedBy(inputs[k].envelope, worlds[n].projection.decision.value)
  {
    hide Steps, DecidedBy, ActedBy, AdmittedBy, ReservedBy;
    assert n > 0;
    assert Steps(worlds[n - 1], worlds[n - 1 + 1], inputs[n - 1]);
    StepBinds(worlds[n - 1], worlds[n], inputs[n - 1]);
    if DecidedBy(inputs[n - 1].envelope, worlds[n].projection.decision.value) {
      k := n - 1;
    } else {
      k := DecisionTraced(domain, worlds, inputs, n - 1);
    }
  }

  lemma {:induction false} ActionTraced(domain: nat, worlds: seq<World>, inputs: seq<Input>, n: nat) returns (k: nat)
    requires IsRun(domain, worlds, inputs) && n < |worlds| && worlds[n].projection.action.Some?
    ensures k < n && k < |inputs| && ActedBy(worlds[k].projection, inputs[k].envelope, worlds[n].projection.action.value)
  {
    hide Steps, DecidedBy, ActedBy, AdmittedBy, ReservedBy;
    assert n > 0;
    assert Steps(worlds[n - 1], worlds[n - 1 + 1], inputs[n - 1]);
    StepBinds(worlds[n - 1], worlds[n], inputs[n - 1]);
    if ActedBy(worlds[n - 1].projection, inputs[n - 1].envelope, worlds[n].projection.action.value) {
      k := n - 1;
    } else {
      k := ActionTraced(domain, worlds, inputs, n - 1);
    }
  }

  lemma {:induction false} AdmissionTraced(domain: nat, worlds: seq<World>, inputs: seq<Input>, n: nat) returns (k: nat)
    requires IsRun(domain, worlds, inputs) && n < |worlds| && worlds[n].projection.admission.Some?
    ensures k < n && k < |inputs| && AdmittedBy(worlds[k].projection, inputs[k].envelope, worlds[n].projection.admission.value)
  {
    hide Steps, DecidedBy, ActedBy, AdmittedBy, ReservedBy;
    assert n > 0;
    assert Steps(worlds[n - 1], worlds[n - 1 + 1], inputs[n - 1]);
    StepBinds(worlds[n - 1], worlds[n], inputs[n - 1]);
    if AdmittedBy(worlds[n - 1].projection, inputs[n - 1].envelope, worlds[n].projection.admission.value) {
      k := n - 1;
    } else {
      k := AdmissionTraced(domain, worlds, inputs, n - 1);
    }
  }

  lemma ReservedWhatever(p: Projection, e: Envelope, x: Option<Execution>, y: Option<Execution>)
    requires SameButState(x, y) && x.Some? && ReservedBy(p, e, x.value)
    ensures y.Some? && ReservedBy(p, e, y.value)
  {
  }

  lemma {:induction false} ExecutionTraced(domain: nat, worlds: seq<World>, inputs: seq<Input>, n: nat) returns (k: nat)
    requires IsRun(domain, worlds, inputs) && n < |worlds| && worlds[n].projection.execution.Some?
    ensures k < n && k < |inputs| && ReservedBy(worlds[k].projection, inputs[k].envelope, worlds[n].projection.execution.value)
  {
    hide Steps, DecidedBy, ActedBy, AdmittedBy, ReservedBy;
    assert n > 0;
    assert Steps(worlds[n - 1], worlds[n - 1 + 1], inputs[n - 1]);
    StepBinds(worlds[n - 1], worlds[n], inputs[n - 1]);
    if ReservedBy(worlds[n - 1].projection, inputs[n - 1].envelope, worlds[n].projection.execution.value) {
      k := n - 1;
    } else {
      k := ExecutionTraced(domain, worlds, inputs, n - 1);
      ReservedWhatever(worlds[k].projection, inputs[k].envelope, worlds[n - 1].projection.execution, worlds[n].projection.execution);
    }
  }

  /** A dispatch is called for by the execution's provider, with an execution permit. */
  lemma DispatchCalled(w: World, t: World, input: Input)
    requires Invariant(w) && Steps(w, t, input) && Dispatches(w, t)
    ensures w.projection.execution.Some? && input.envelope.caller == w.projection.execution.value.provider
    ensures input.envelope.command.StartDispatch? && input.envelope.command.permitId == w.projection.execution.value.permitId
    ensures Presents(input.envelope, ExecutionPermit)
  {
    DispatchMoves(w, t, input);
    EvaluatedOrFailed(w, t, input);
    hide Invariant, Steps, Evaluate, AdmissionFails;
    if AdmissionFails(w.projection, input.envelope.command, input.proofsHold) {
      FailureStops(w, t, input);
    } else {
      DispatchEvaluated(w.projection, input.envelope, input.now);
    }
  }

  lemma DispatchEvaluated(p: Projection, e: Envelope, now: nat)
    requires e.command.StartDispatch? && Evaluate(p, e, now).Ok?
    ensures p.execution.Some? && e.caller == p.execution.value.provider && e.command.permitId == p.execution.value.permitId
    ensures Presents(e, ExecutionPermit)
  {
    ProofPresented(e, ExecutionPermit);
    hide FoundProofs, AuthorityIsCurrent;
  }

  /**
    Behind every dispatch, called for by the provider, stand a reservation by the owner, before
    it the admission of the action on its five proofs, before that the action's record, which
    repeats the decision, and before that the decision.
   */
  lemma DispatchTraced(domain: nat, worlds: seq<World>, inputs: seq<Input>, n: nat)
    returns (decided: nat, acted: nat, admitted: nat, reserved: nat)
    requires IsRun(domain, worlds, inputs) && n < |inputs| && Dispatches(worlds[n], worlds[n + 1])
    ensures decided < acted < admitted < reserved < n
    ensures worlds[n].projection.execution.Some? && inputs[n].envelope.caller == worlds[n].projection.execution.value.provider
    ensures Presents(inputs[n].envelope, ExecutionPermit)
    ensures ReservedBy(worlds[reserved].projection, inputs[reserved].envelope, worlds[n].projection.execution.value)
    ensures AdmittedBy(worlds[admitted].projection, inputs[admitted].envelope, worlds[reserved].projection.admission.value)
    ensures ActedBy(worlds[acted].projection, inputs[acted].envelope, worlds[admitted].projection.action.value)
    ensures DecidedBy(inputs[decided].envelope, worlds[acted].projection.decision.value)
  {
    assert Steps(worlds[n], worlds[n + 1], inputs[n]);
    RunsKeepInvariant(domain, worlds, inputs, n);
    DispatchCalled(worlds[n], worlds[n + 1], inputs[n]);
    hide IsRun, Steps, Invariant, Dispatches, DecidedBy;
    reserved := ExecutionTraced(domain, worlds, inputs, n);
    admitted := AdmissionTraced(domain, worlds, inputs, reserved);
    acted := ActionTraced(domain, worlds, inputs, admitted);
    decided := DecisionTraced(domain, worlds, inputs, acted);
  }
}
