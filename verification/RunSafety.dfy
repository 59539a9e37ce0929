/**
  The theorems over whole runs of the authority: every committed transaction keeps the
  liveness chain, the bindings and the execution sound, and dispatch happens only inside
  every window, after the same permit was issued and delivered.
 */
module RunSafety {
  import opened Wrappers
  import opened Contracts
  import opened Graphs
  import opened RunModel
  import opened RunTables
  import opened RunInvariants
  import opened RunDrafts

  // ---------------------------------------------------------------- invalidation alone

  lemma StoredRecord(w: World, k: Kind)
    requires RecordsStored(w) && k in w.projection.records
    ensures w.projection.records[k].kind == k && w.projection.records[k].Key() in w.stored
    ensures w.stored[w.projection.records[k].Key()] == w.projection.records[k]
  {
  }

  lemma ClosureStored(w: World, root: RecordKey, r: Ref)
    requires RecordsStored(w) && r in Closure(w.stored, w.edges, root)
    ensures r.Key() in w.stored && w.stored[r.Key()] == r
  {
    ClosureMember(w.stored, w.edges, root, r);
  }

  /** A parent that falls takes its live child with it. */
  lemma ChildFalls(w: World, root: RecordKey, k: Kind, q: Kind)
    requires RecordsStored(w) && LiveChain(w) && Live(w.projection, k) && q in Parents(k)
    requires q in w.projection.records && w.projection.records[q] in Closure(w.stored, w.edges, root)
    ensures w.projection.records[k] in Closure(w.stored, w.edges, root)
  {
    assert Rests(w, k, q);
    StoredRecord(w, k);
    hide Closure, LiveChain, RecordsStored;
    assert forall key :: key in w.stored ==> w.stored[key].Key() == key by { StoredKeys(w); }
    ClosureClosed(w.stored, w.edges, root, w.projection.records[q], w.projection.records[k]);
  }

  lemma StoredKeys(w: World)
    requires RecordsStored(w)
    ensures forall key :: key in w.stored ==> w.stored[key].Key() == key
  {
  }

  /** `t` differs from `w` in what is invalidated, by the closure of `root`. */
  ghost predicate Invalidates(w: World, t: World, root: RecordKey) {
    && t.stored == w.stored && t.edges == w.edges && t.projection.records == w.projection.records
    && t.projection.invalidated == w.projection.invalidated + Closure(w.stored, w.edges, root)
  }

  lemma InvalidationKeepsStored(w: World, t: World, root: RecordKey)
    requires RecordsStored(w) && Invalidates(w, t, root)
    ensures RecordsStored(t)
  {
    hide Closure;
    forall r | r in Closure(w.stored, w.edges, root)
      ensures r.Key() in w.stored && w.stored[r.Key()] == r
    {
      ClosureStored(w, root, r);
    }
  }

  lemma InvalidationKeepsChain(w: World, t: World, root: RecordKey)
    requires RecordsStored(w) && LiveChain(w) && Invalidates(w, t, root)
    ensures LiveChain(t)
  {
    hide Closure, RecordsStored;
    forall k, q | Live(t.projection, k) && q in Parents(k)
      ensures Rests(t, k, q)
    {
      assert Live(w.projection, k);
      assert Rests(w, k, q);
      if t.projection.records[q] in Closure(w.stored, w.edges, root) {
        ChildFalls(w, root, k, q);
      }
    }
    forall k, e | Live(t.projection, k) && !Exempt(k) && e in t.edges && e.after == t.projection.records[k].Key()
      ensures EdgeNamed(t, k, e)
    {
      assert Live(w.projection, k);
      assert EdgeNamed(w, k, e);
    }
  }

  // ---------------------------------------------------------------- a new record

  ghost predicate Follows(p: Projection, ref: Ref) {
    if ref.kind in p.records then ref.id == p.records[ref.kind].id && ref.revision == p.records[ref.kind].revision + 1
    else ref.revision == 1
  }

  /** What the superseded record, if any, takes with it. */
  ghost function Fallen(w: World, k: Kind): set<Ref> {
    if k in w.projection.records && !k.ActionAdmissionDecision? then
      Closure(w.stored, w.edges, w.projection.records[k].Key())
    else {}
  }

  ghost predicate Records(w: World, t: World, ref: Ref, dependencies: set<Ref>) {
    && ref.Key() !in w.stored && Follows(w.projection, ref)
    && t.stored == w.stored[ref.Key() := ref]
    && t.edges == w.edges + (set d | d in dependencies :: Row(d.Key(), ref))
                 + (if ref.revision > 1 then {Row(PredecessorKey(ref), ref)} else {})
    && t.projection.records == w.projection.records[ref.kind := ref]
    && t.projection.invalidated == w.projection.invalidated + Fallen(w, ref.kind)
  }

  /** The dependencies are current records: the parents, or for the exempt kinds something earlier. */
  ghost predicate DependsOnParents(p: Projection, ref: Ref, dependencies: set<Ref>) {
    && (forall q :: q in Parents(ref.kind) ==> Live(p, q) && p.records[q] in dependencies)
    && (forall d :: d in dependencies ==>
          && d.kind in p.records && p.records[d.kind] == d
          && Rank(d.kind) < Rank(ref.kind)
          && (!Exempt(ref.kind) ==> d.kind in Parents(ref.kind)))
  }

  lemma FallenStored(w: World, k: Kind, r: Ref)
    requires RecordsStored(w) && r in Fallen(w, k)
    ensures r.Key() in w.stored && w.stored[r.Key()] == r
  {
    ClosureStored(w, w.projection.records[k].Key(), r);
  }

  lemma RecordingKeepsStored(w: World, t: World, ref: Ref, dependencies: set<Ref>)
    requires RecordsStored(w) && Records(w, t, ref, dependencies)
    ensures RecordsStored(t)
  {
    hide Fallen, NewEdges;
    forall r | r in Fallen(w, ref.kind)
      ensures r.Key() in w.stored && w.stored[r.Key()] == r
    {
      FallenStored(w, ref.kind, r);
    }
  }

  lemma RecordingKeepsRanks(w: World, t: World, ref: Ref, dependencies: set<Ref>)
    requires RecordsStored(w) && EdgesRanked(w.stored, w.edges) && Records(w, t, ref, dependencies)
    requires DependsOnParents(w.projection, ref, dependencies)
    ensures EdgesRanked(t.stored, t.edges)
  {
    hide Fallen, Rank, Parents;
    forall e | e in t.edges
      ensures e.before in t.stored && e.after in t.stored
      ensures
        Rank(t.stored[e.before].kind) < Rank(t.stored[e.after].kind)
        || (t.stored[e.before].kind == t.stored[e.after].kind && e.before.id == e.after.id)
    {
      if e in w.edges {
      } else if ref.revision > 1 && e == Edge(PredecessorKey(ref), ref.Key()) {
        assert e.before == w.projection.records[ref.kind].Key();
      } else {
        var d :| d in dependencies && e == Edge(d.Key(), ref.Key());
        StoredRecord(w, d.kind);
      }
    }
  }

  /** Nothing earlier than the superseded record falls with it. */
  lemma EarlierStands(w: World, k: Kind, q: Kind)
    requires RecordsStored(w) && EdgesRanked(w.stored, w.edges) && q in w.projection.records && Rank(q) < Rank(k)
    ensures w.projection.records[q] !in Fallen(w, k)
  {
    hide EdgesRanked, Rank;
    if w.projection.records[q] in Fallen(w, k) {
      var root := w.projection.records[k].Key();
      StoredRecord(w, q);
      StoredRecord(w, k);
      ClosureMember(w.stored, w.edges, root, w.projection.records[q]);
      if w.projection.records[q].Key() != root {
        ReachRises(w.stored, w.edges, root, w.projection.records[q].Key());
      }
    }
  }

  /** What rests on the superseded record falls with it. */
  lemma ChildOfSuperseded(w: World, k: Kind, child: Kind)
    requires RecordsStored(w) && LiveChain(w) && Live(w.projection, child) && k in Parents(child)
    ensures w.projection.records[child] in Fallen(w, k)
  {
    assert Rests(w, child, k);
    assert !k.ActionAdmissionDecision?;
    var root := w.projection.records[k].Key();
    StoredRecord(w, k);
    ClosureHas(w.stored, w.edges, root, w.projection.records[k]);
    ChildFalls(w, root, child, k);
  }

  lemma NewRecordIsLive(w: World, t: World, ref: Ref, dependencies: set<Ref>)
    requires RecordsStored(w) && Records(w, t, ref, dependencies)
    ensures Live(t.projection, ref.kind)
  {
    hide Fallen;
    if ref in Fallen(w, ref.kind) {
      FallenStored(w, ref.kind, ref);
    }
  }

  lemma SurvivorWasLive(w: World, t: World, ref: Ref, dependencies: set<Ref>, k: Kind)
    requires Records(w, t, ref, dependencies) && Live(t.projection, k) && k != ref.kind
    ensures Live(w.projection, k) && t.projection.records[k] == w.projection.records[k] && w.projection.records[k] !in Fallen(w, ref.kind)
  {
  }

  /** A surviving kind still rests on its live parents. */
  lemma SurvivorRests(w: World, t: World, ref: Ref, dependencies: set<Ref>, k: Kind, q: Kind)
    requires RecordsStored(w) && LiveChain(w) && Records(w, t, ref, dependencies)
    requires Live(t.projection, k) && k != ref.kind && q in Parents(k)
    ensures Rests(t, k, q)
  {
    hide RecordsStored, Closure;
    SurvivorWasLive(w, t, ref, dependencies, k);
    assert Rests(w, k, q);
    if q == ref.kind {
      ChildOfSuperseded(w, q, k);
    } else if w.projection.records[q] in Fallen(w, ref.kind) {
      ChildFalls(w, w.projection.records[ref.kind].Key(), k, q);
    }
  }

  /** The new record rests on its parents, which stand. */
  lemma NewRecordRests(w: World, t: World, ref: Ref, dependencies: set<Ref>, q: Kind)
    requires RecordsStored(w) && EdgesRanked(w.stored, w.edges) && Records(w, t, ref, dependencies)
    requires DependsOnParents(w.projection, ref, dependencies) && q in Parents(ref.kind)
    ensures Rests(t, ref.kind, q)
  {
    hide RecordsStored, EdgesRanked, Fallen, Rank, Parents;
    ParentsAreEarlier(ref.kind, q);
    EarlierStands(w, ref.kind, q);
    assert Live(w.projection, q) && w.projection.records[q] in dependencies;
    assert Edge(w.projection.records[q].Key(), ref.Key()) in t.edges;
  }

  /** Edges into the new record are the ones just written. */
  lemma NewRecordNamed(w: World, t: World, ref: Ref, dependencies: set<Ref>, e: Edge<RecordKey>)
    requires RecordsStored(w) && EdgesRanked(w.stored, w.edges) && Records(w, t, ref, dependencies)
    requires DependsOnParents(w.projection, ref, dependencies) && !Exempt(ref.kind)
    requires e in t.edges && e.after == ref.Key()
    ensures EdgeNamed(t, ref.kind, e)
  {
    hide Fallen, Rank, Parents, RecordsStored;
    assert e !in w.edges;
    if e != Edge(RecordKey(ref.id, ref.revision - 1), ref.Key()) {
      var d :| d in dependencies && e == Edge(d.Key(), ref.Key());
      ParentsAreEarlier(ref.kind, d.kind);
      assert d.kind in Parents(ref.kind) && t.projection.records[d.kind] == d;
    }
  }

  lemma SurvivorNamed(w: World, t: World, ref: Ref, dependencies: set<Ref>, k: Kind, e: Edge<RecordKey>)
    requires RecordsStored(w) && EdgesRanked(w.stored, w.edges) && LiveChain(w) && Records(w, t, ref, dependencies)
    requires Live(t.projection, k) && k != ref.kind && !Exempt(k) && e in t.edges && e.after == t.projection.records[k].Key()
    ensures EdgeNamed(t, k, e)
  {
    hide Closure;
    SurvivorWasLive(w, t, ref, dependencies, k);
    StoredRecord(w, k);
    assert e in w.edges;
    assert EdgeNamed(w, k, e);
    if q :| q in Parents(k) && q in w.projection.records && w.projection.records[q].Key() == e.before {
      if q == ref.kind {
        ChildOfSuperseded(w, q, k);
      }
      assert t.projection.records[q].Key() == e.before;
    }
  }

  lemma RecordingKeepsChain(w: World, t: World, ref: Ref, dependencies: set<Ref>)
    requires RecordsStored(w) && EdgesRanked(w.stored, w.edges) && LiveChain(w) && Records(w, t, ref, dependencies)
    requires DependsOnParents(w.projection, ref, dependencies)
    ensures LiveChain(t)
  {
    hide RecordsStored, EdgesRanked, Fallen, Rests, EdgeNamed, DependsOnParents, Live;
    forall k, q | Live(t.projection, k) && q in Parents(k)
      ensures k in t.projection.records && Rests(t, k, q)
    {
      LiveIsRecorded(t.projection, k);
      if k == ref.kind {
        NewRecordRests(w, t, ref, dependencies, q);
      } else {
        SurvivorRests(w, t, ref, dependencies, k, q);
      }
    }
    forall k, e | Live(t.projection, k) && !Exempt(k) && e in t.edges && k in t.projection.records && e.after == t.projection.records[k].Key()
      ensures EdgeNamed(t, k, e)
    {
      if k == ref.kind {
        NewRecordNamed(w, t, ref, dependencies, e);
      } else {
        SurvivorNamed(w, t, ref, dependencies, k, e);
      }
    }
    ChainFrom(t);
  }

  lemma LiveIsRecorded(p: Projection, k: Kind)
    requires Live(p, k)
    ensures k in p.records
  {
  }

  lemma ChainFrom(w: World)
    requires forall k, q :: Live(w.projection, k) && q in Parents(k) ==> k in w.projection.records && Rests(w, k, q)
    requires forall k, e ::
      Live(w.projection, k) && !Exempt(k) && e in w.edges && k in w.projection.records && e.after == w.projection.records[k].Key() ==>
        EdgeNamed(w, k, e)
    ensures LiveChain(w)
  {
    hide Rests, EdgeNamed;
  }

  // ---------------------------------------------------------------- what commands depend on

  /** The records a command names are the current ones of the kinds it needs. */
  lemma NamedRefs(p: Projection, e: Envelope, now: nat)
    requires Sound(p) && Evaluate(p, e, now).Ok?
    ensures e.command.AdmitAction? ==> IsLive(p, e.command.actionRef) && e.command.actionRef.kind.Action?
    ensures e.command.RecordHumanModelPromotion? ==>
      IsLive(p, e.command.sourceRef) && e.command.sourceRef.kind.HumanModelCandidate?
    ensures e.command.PromoteHumanModelAssertion? ==>
      IsLive(p, e.command.promotionRef) && e.command.promotionRef.kind.HumanModelPromotionDecision?
  {
    hide LineageHolds, CommandAllowed, RequiredProofs, ProofOfKind, EarliestExpiry, Issue, Internal;
    if e.command.AdmitAction? {
      ActionBound(p);
    }
  }

  lemma ActionBound(p: Projection)
    requires Sound(p) && p.action.Some?
    ensures p.action.value.ref.kind.Action?
  {
  }

  /** What a correction stores, when the evaluator accepts it, follows and depends on the record it names. */
  lemma CorrectionRepeatsItself(w: World, e: Envelope, now: nat)
    requires RecordsStored(w) && e.command.CorrectHumanModelAssertion? && Evaluate(w.projection, e, now).Ok?
    ensures
      var d := Evaluate(w.projection, e, now).value;
      && d.record.Some? && d.record.value.revision > 1
      && PredecessorKey(d.record.value) == e.command.assertionRef.Key() && PredecessorKey(d.record.value) in w.stored
      && Dependencies(e.command, d.projection.records, d.record.value) == {e.command.assertionRef}
  {
    hide LineageHolds, CommandAllowed, RequiredProofs, FoundProofs;
    StoredRecord(w, e.command.assertionRef.kind);
  }

  /**
    No correction is ever committed: its predecessor's row and the row of the record it names
    are one row, which the dependency table takes only once.
   */
  lemma NoCorrectionCommits(w: World, e: Envelope, now: nat, proofsHold: bool, listing: seq<Ref>)
    requires RecordsStored(w) && e.command.CorrectHumanModelAssertion?
    ensures Transact(w, e, now, proofsHold, listing).Err?
    ensures ProofsDistinct(e.proofs, e.domain) && !Replayed(w.consumed, e.proofs) && Evaluate(w.projection, e, now).Ok? ==>
      var ref := Evaluate(w.projection, e, now).value.record.value;
      Transact(w, e, now, proofsHold, listing) == Err(if RecordFits(w.stored, ref) then RowRefused else RecordRefused)
  {
    hide Evaluate, ApplyClosure, Dependencies, RecordsStored, ProofsDistinct, Replayed, Consumptions, ClosureRoot, NewEdges;
    if Evaluate(w.projection, e, now).Ok? {
      CorrectionRepeatsItself(w, e, now);
      var d := Evaluate(w.projection, e, now).value;
      CorrectionClosed(d, listing);
      assert e.command.assertionRef in Dependencies(e.command, d.projection.records, d.record.value);
    }
  }

  /** A closure leaves the current records alone. */
  lemma CorrectionClosed(d: Draft, listing: seq<Ref>)
    ensures ApplyClosure(d.projection, listing, false).records == d.projection.records
  {
    hide InvalidateAll, Released;
    AllReleases(d.projection, listing);
  }

  /** The rows stored for a committed record name current records of its parent kinds. */
  lemma DependenciesAreParents(w: World, t: World, input: Input)
    requires Invariant(w) && Steps(w, t, input) && !AdmissionFails(w.projection, input.envelope.command, input.proofsHold)
    requires Evaluate(w.projection, input.envelope, input.now).Ok? && Evaluate(w.projection, input.envelope, input.now).value.record.Some?
    ensures
      var d := Evaluate(w.projection, input.envelope, input.now).value;
      DependsOnParents(w.projection, d.record.value, Dependencies(input.envelope.command, d.projection.records, d.record.value))
  {
    hide Invariant, Steps, Evaluate, Dependencies, DependsOnParents, Sound, AdmissionFails;
    InvariantIsSound(w);
    CommittedCorrectsNothing(w, t, input);
    EvaluatedDependsOnParents(w.projection, input.envelope, input.now);
  }

  lemma CommittedCorrectsNothing(w: World, t: World, input: Input)
    requires Invariant(w) && Steps(w, t, input)
    ensures !input.envelope.command.CorrectHumanModelAssertion?
  {
    InvariantParts(w);
    hide Invariant, RecordsStored, EdgesRanked, LiveChain, Transact, ListsRoot, RootNeeded;
    if input.envelope.command.CorrectHumanModelAssertion? {
      NoCorrectionCommits(w, input.envelope, input.now, input.proofsHold, input.listing);
    }
  }

  lemma EvaluatedDependsOnParents(p: Projection, e: Envelope, now: nat)
    requires Sound(p) && Evaluate(p, e, now).Ok? && Evaluate(p, e, now).value.record.Some?
    requires !e.command.CorrectHumanModelAssertion?
    ensures
      var d := Evaluate(p, e, now).value;
      DependsOnParents(p, d.record.value, Dependencies(e.command, d.projection.records, d.record.value))
  {
    EvaluateGood(p, e, now);
    NamedRefs(p, e, now);
    var d := Evaluate(p, e, now).value;
    var ref := d.record.value;
    assert d.projection.records == p.records[ref.kind := ref] && IssuedInPlace(Counted(p), e.command, ref);
    assert forall q :: q in Parents(ref.kind) ==> Live(p, q);
    hide Evaluate, GoodDraft, NoDangling, LeaseBounded;
    NamedDepend(p, e.command, ref);
  }

  lemma NamedDepend(p: Projection, c: Command, ref: Ref)
    requires forall k :: k in p.records ==> p.records[k].kind == k
    requires IssuedKind(c) == Some(ref.kind) && !c.CorrectHumanModelAssertion? && forall q :: q in Parents(ref.kind) ==> Live(p, q)
    requires c.AdmitAction? ==> IsLive(p, c.actionRef) && c.actionRef.kind.Action?
    requires c.RecordHumanModelPromotion? ==> IsLive(p, c.sourceRef) && c.sourceRef.kind.HumanModelCandidate?
    requires c.PromoteHumanModelAssertion? ==> IsLive(p, c.promotionRef) && c.promotionRef.kind.HumanModelPromotionDecision?
    ensures DependsOnParents(p, ref, Dependencies(c, p.records[ref.kind := ref], ref))
  {
    hide DependsOnParents;
    var records := p.records[ref.kind := ref];
    match c
    case StartRun(_) => ExemptDepend(p, ref, {});
    case RecordContext(_) => OneParent(p, ref, CanonicalInput);
    case RecordIntent(_, _) => OneParent(p, ref, ContextSnapshot);
    case RecordDecision(_, _) => OneParent(p, ref, Intent);
    case RecordTurn(_, _) => TwoParents(p, ref, Intent, Decision);
    case RecordResponse(_, _) => OneParent(p, ref, TurnCoordination);
    case RecordAction(_, _) =>
      assert Decision in Parents(ref.kind) && Live(p, Decision);
      TwoParents(p, ref, TurnCoordination, Decision);
    case AdmitAction(actionRef, _, _, _, _) =>
      OneParent(p, ref, Action);
      assert CurrentOther(records, Action, ref) == {actionRef};
    case CommitExecutionReceipt(_, _, _, _, _, _, _) => ExemptDepend(p, ref, CurrentOther(records, Action, ref));
    case RecordOutcome(_, _) => OneParent(p, ref, ExecutionReceipt);
    case ProposeHumanModelCandidate(_, _, _) => OneParent(p, ref, Outcome);
    case RecordHumanModelPromotion(_, sourceRef, _, _) =>
      OneParent(p, ref, HumanModelCandidate);
      assert CurrentOther(records, HumanModelCandidate, ref) == {sourceRef};
    case PromoteHumanModelAssertion(_, promotionRef, _) => ExemptDepend(p, ref, {promotionRef});
    case _ => assert false;
  }

  lemma OneParent(p: Projection, ref: Ref, q: Kind)
    requires forall k :: k in p.records ==> p.records[k].kind == k
    requires Parents(ref.kind) == {q} && Live(p, q)
    ensures DependsOnParents(p, ref, CurrentOther(p.records[ref.kind := ref], q, ref))
    ensures CurrentOther(p.records[ref.kind := ref], q, ref) == {p.records[q]}
  {
    hide Parents, Rank;
    ParentsAreEarlier(ref.kind, q);
  }

  lemma TwoParents(p: Projection, ref: Ref, q: Kind, r: Kind)
    requires forall k :: k in p.records ==> p.records[k].kind == k
    requires Parents(ref.kind) == {q, r} && Live(p, q) && Live(p, r)
    ensures
      var records := p.records[ref.kind := ref];
      DependsOnParents(p, ref, CurrentOther(records, q, ref) + CurrentOther(records, r, ref))
  {
    hide Parents, Rank;
    ParentsAreEarlier(ref.kind, q);
    ParentsAreEarlier(ref.kind, r);
  }

  lemma ExemptDepend(p: Projection, ref: Ref, dependencies: set<Ref>)
    requires Parents(ref.kind) == {}
    requires forall d :: d in dependencies ==>
      Exempt(ref.kind) && d.kind in p.records && p.records[d.kind] == d && Rank(d.kind) < Rank(ref.kind)
    ensures DependsOnParents(p, ref, dependencies)
  {
    hide Rank, Parents;
  }

  // ---------------------------------------------------------------- one transaction

  lemma InvariantIsSound(w: World)
    requires Invariant(w)
    ensures Sound(w.projection)
  {
    hide LiveChain, EdgesRanked, FlightLogged, ConsumedDistinct;
  }

  lemma FreshRef(w: World, ref: Ref)
    requires RecordsStored(w) && ref.Key() !in w.stored
    ensures ref !in w.projection.invalidated
  {
  }

  /** The draft's projection with the closure, if there is one to take, applied. */
  function Closed(d: Draft, root: Option<Ref>, listing: seq<Ref>, invalidateRun: bool): Projection {
    if root.None? then d.projection else ApplyClosure(d.projection, listing, invalidateRun)
  }

  ghost function ClosureOf(w: World, root: Option<Ref>): set<Ref> {
    if root.Some? then Closure(w.stored, w.edges, root.value.Key()) else {}
  }

  lemma ClosedSound(w: World, d: Draft, root: Option<Ref>, marked: set<Ref>, listing: seq<Ref>, invalidateRun: bool)
    requires BindingsName(d.projection, w.projection.invalidated) && FlightNames(d.projection, w.projection.invalidated)
    requires d.projection.invalidated == w.projection.invalidated + marked && marked <= ClosureOf(w, root)
    requires ListsRoot(w, root, listing)
    ensures
      var q := Closed(d, root, listing, invalidateRun);
      && NoDangling(q) && Weaker(d.projection, q)
      && q.invalidated == w.projection.invalidated + ClosureOf(w, root)
  {
    hide Closure, ApplyClosure, BindingsName, FlightNames, Weaker;
    if root.Some? {
      assert (set r | r in listing) == ClosureOf(w, root);
      ClosureLeavesNoDangling(d.projection, w.projection.invalidated, listing, invalidateRun);
    } else {
      assert d.projection.invalidated == w.projection.invalidated;
      WeakerReflexive(d.projection);
    }
  }

  lemma GoodParts(p: Projection, c: Command, d: Draft, now: nat)
    requires GoodDraft(p, c, d, now) && (d.record.Some? ==> d.record.value !in p.invalidated)
    ensures BindingsName(d.projection, p.invalidated) && FlightNames(d.projection, p.invalidated)
    ensures d.projection.invalidated == p.invalidated + Marked(c) && LeaseBounded(d.projection) && Moves(p, c, d, now)
    ensures d.projection.version == p.version && d.projection.sequence == p.sequence
  {
    assert Others(p.invalidated, d.record) == p.invalidated;
  }

  /** Whatever the command itself marks invalidated is part of the closure taken. */
  lemma TargetFalls(w: World, e: Envelope, d: Draft)
    requires Invariant(w) && RecordShape(Counted(w.projection), e.command, d) && !e.command.CorrectHumanModelAssertion?
    requires d.record.Some? ==> d.record.value.Key() !in w.stored
    ensures
      var root := ClosureRoot(w.projection, e.command, d);
      Marked(e.command) <= ClosureOf(w, root)
  {
    hide LiveChain, EdgesRanked, FlightLogged, ConsumedDistinct, NoDangling, LeaseBounded, Closure;
    var root := ClosureRoot(w.projection, e.command, d);
    match e.command {
      case InvalidateRecord(target) =>
        StoredRecord(w, target.kind);
        ClosureHas(w.stored, w.edges, target.Key(), target);
      case _ =>
    }
  }

  /** What a step leaves, in terms of the draft and the closure it took. */
  ghost predicate Leaves(w: World, t: World, c: Command, d: Draft, root: Option<Ref>, now: nat) {
    && NoDangling(t.projection) && Weaker(d.projection, t.projection)
    && t.projection.invalidated == w.projection.invalidated + ClosureOf(w, root)
    && LeaseBounded(d.projection) && Moves(Counted(w.projection), c, d, now)
    && d.projection.version == w.projection.version + 1 && d.projection.sequence == w.projection.sequence + 1
    && t.log == w.log + [d.event]
  }

  lemma LeaseKept(p: Projection, q: Projection)
    requires LeaseBounded(p) && Weaker(p, q)
    ensures LeaseBounded(q)
  {
  }

  lemma LoggedLonger(log: seq<Event>, first: Event, second: Event, event: Event)
    requires LoggedInOrder(log, first, second)
    ensures LoggedInOrder(log + [event], first, second)
  {
    var i, j :| 0 <= i < j < |log| && log[i] == first && log[j] == second;
    var longer := log + [event];
    assert longer[i] == first && longer[j] == second;
  }

  lemma LoggedNow(log: seq<Event>, first: Event, event: Event)
    requires first in log
    ensures LoggedInOrder(log + [event], first, event)
  {
    var i :| 0 <= i < |log| && log[i] == first;
    var longer := log + [event];
    assert longer[i] == first && longer[|log|] == event;
  }

  lemma OutcomeLogged(w: World, t: World, c: Command, d: Draft, root: Option<Ref>, now: nat)
    requires FlightLogged(w) && Leaves(w, t, c, d, root, now)
    ensures FlightLogged(t)
  {
    hide NoDangling, ClosureOf, LeaseBounded, AuthorityIsCurrent, LoggedInOrder;
    if t.projection.execution.Some? && t.projection.execution.value.state.InFlight() {
      var x := t.projection.execution.value;
      assert t.projection.execution == d.projection.execution;
      if x.state.PermitDelivered? {
        if d.projection.execution == w.projection.execution {
          LoggedLonger(w.log, PermitWasIssued(x.permitId), PermitWasDelivered(x.permitId), d.event);
        } else {
          LoggedNow(w.log, PermitWasIssued(x.permitId), d.event);
        }
      }
    }
  }

  // ---------------------------------------------------------------- consumed proofs

  lemma ConsumptionKept(consumed: seq<Consumption>, proofs: seq<Proof>, domain: nat)
    requires ConsumedDistinct(consumed) && ProofsDistinct(proofs, domain) && !Replayed(consumed, proofs)
    ensures ConsumedDistinct(consumed + Consumptions(proofs))
  {
    var all := consumed + Consumptions(proofs);
    forall i, j | 0 <= i < j < |all|
      ensures all[i].proofId != all[j].proofId && all[i].nonce != all[j].nonce
    {
      if j >= |consumed| {
        assert all[j] == Consumption(proofs[j - |consumed|].id, proofs[j - |consumed|].nonce);
        if i >= |consumed| {
          assert all[i] == Consumption(proofs[i - |consumed|].id, proofs[i - |consumed|].nonce);
        }
      }
    }
  }

  // ---------------------------------------------------------------- steps

  lemma RestKept(w: World, t: World, c: Command, d: Draft, root: Option<Ref>, e: Envelope, now: nat)
    requires Invariant(w) && Leaves(w, t, c, d, root, now)
    requires ProofsDistinct(e.proofs, e.domain) && !Replayed(w.consumed, e.proofs) && t.consumed == w.consumed + Consumptions(e.proofs)
    ensures NoDangling(t.projection) && LeaseBounded(t.projection) && FlightLogged(t) && ConsumedDistinct(t.consumed) && Versioned(t)
  {
    hide RecordsStored, EdgesRanked, LiveChain, NoDangling, ConsumedDistinct;
    hide ClosureOf, FlightLogged, LeaseBounded, Moves, Consumptions;
    hide Replayed, ProofsDistinct;
    LeaseKept(d.projection, t.projection);
    OutcomeLogged(w, t, c, d, root, now);
    ConsumptionKept(w.consumed, e.proofs, e.domain);
  }

  /** Admission proofs that no longer hold: the admission falls with what rests on it. */
  lemma FailureStep(w: World, t: World, input: Input)
    requires Invariant(w) && Steps(w, t, input) && AdmissionFails(w.projection, input.envelope.command, input.proofsHold)
    ensures Invariant(t)
  {
    var e, p := input.envelope, w.projection;
    var root := p.admission.value.ref;
    var d := Draft(ProofFailure(p), None, OtherEvent("action_admission_proof_revoked"));
    FailureSound(p);
    ClosedSound(w, d, Some(root), {}, input.listing, false);
    assert Invalidates(w, t, root.Key());
    assert Leaves(w, t, e.command, d, Some(root), input.now);
    InvalidationKeepsStored(w, t, root.Key());
    InvalidationKeepsChain(w, t, root.Key());
    RestKept(w, t, e.command, d, Some(root), e, input.now);
  }

  lemma FailureSound(p: Projection)
    requires NoDangling(p) && LeaseBounded(p)
    ensures
      var q := ProofFailure(p);
      && BindingsName(q, p.invalidated) && FlightNames(q, p.invalidated) && LeaseBounded(q)
      && q.invalidated == p.invalidated && q.records == p.records
      && q.version == p.version + 1 && q.sequence == p.sequence + 1
      && (q.execution.Some? ==> !q.execution.value.state.InFlight())
  {
  }

  /** A transaction that evaluates its command, without a record. */
  lemma PlainStep(w: World, t: World, input: Input)
    requires Invariant(w) && Steps(w, t, input) && !AdmissionFails(w.projection, input.envelope.command, input.proofsHold)
    requires Evaluate(w.projection, input.envelope, input.now).Ok? && Evaluate(w.projection, input.envelope, input.now).value.record.None?
    ensures Invariant(t)
  {
    var e, p := input.envelope, w.projection;
    InvariantIsSound(w);
    EvaluateGood(p, e, input.now);
    CommittedCorrectsNothing(w, t, input);
    var d := Evaluate(p, e, input.now).value;
    var root := ClosureRoot(p, e.command, d);
    TargetFalls(w, e, d);
    GoodParts(Counted(p), e.command, d, input.now);
    hide Evaluate, GoodDraft, Invariant;
    ClosedSound(w, d, root, Marked(e.command), input.listing, e.command.InvalidateRecord?);
    StepUnfolds(w, t, input, d);
    assert t.projection == Closed(d, root, input.listing, e.command.InvalidateRecord?);
    assert Leaves(w, t, e.command, d, root, input.now);
    RestKept(w, t, e.command, d, root, e, input.now);
    if root.Some? {
      ShapeKeepsRecords(Counted(p), e.command, d);
      WeakerRecords(d.projection, t.projection);
      assert Invalidates(w, t, root.value.Key());
      InvariantParts(w);
      InvalidationKeepsStored(w, t, root.value.Key());
      InvalidationKeepsChain(w, t, root.value.Key());
    } else {
      ShapeKeepsRecords(Counted(p), e.command, d);
      WeakerRecords(d.projection, t.projection);
      InvariantParts(w);
      assert t.projection.invalidated == w.projection.invalidated;
      SameTables(w, t);
    }
    assert Invariant(t) by { InvariantFrom(t); }
  }

  lemma InvariantParts(w: World)
    requires Invariant(w)
    ensures RecordsStored(w) && EdgesRanked(w.stored, w.edges) && LiveChain(w)
  {
    hide RecordsStored, EdgesRanked, LiveChain;
  }

  lemma InvariantFrom(w: World)
    requires RecordsStored(w) && EdgesRanked(w.stored, w.edges) && LiveChain(w)
    requires NoDangling(w.projection) && LeaseBounded(w.projection) && FlightLogged(w)
    requires ConsumedDistinct(w.consumed) && Versioned(w)
    ensures Invariant(w)
  {
    hide RecordsStored, EdgesRanked, LiveChain, NoDangling, LeaseBounded, FlightLogged, ConsumedDistinct, Versioned;
  }

  lemma SameTables(w: World, t: World)
    requires RecordsStored(w) && EdgesRanked(w.stored, w.edges) && LiveChain(w)
    requires t.stored == w.stored && t.edges == w.edges
    requires t.projection.records == w.projection.records && t.projection.invalidated == w.projection.invalidated
    ensures RecordsStored(t) && EdgesRanked(t.stored, t.edges) && LiveChain(t)
  {
    forall k, q | Live(t.projection, k) && q in Parents(k)
      ensures Rests(t, k, q)
    {
      assert Live(w.projection, k);
      assert Rests(w, k, q);
    }
    forall k, e | Live(t.projection, k) && !Exempt(k) && e in t.edges && e.after == t.projection.records[k].Key()
      ensures EdgeNamed(t, k, e)
    {
      assert Live(w.projection, k);
      assert EdgeNamed(w, k, e);
    }
  }

  lemma ShapeKeepsRecords(p: Projection, c: Command, d: Draft)
    requires RecordShape(p, c, d)
    ensures d.projection.records == (if d.record.Some? then p.records[d.record.value.kind := d.record.value] else p.records)
  {
  }

  lemma WeakerRecords(p: Projection, q: Projection)
    requires Weaker(p, q)
    ensures q.records == p.records
  {
  }

  /** A committed transaction, unfolded. */
  lemma StepUnfolds(w: World, t: World, input: Input, d: Draft)
    requires Steps(w, t, input) && !AdmissionFails(w.projection, input.envelope.command, input.proofsHold)
    requires Evaluate(w.projection, input.envelope, input.now) == Ok(d)
    ensures
      var e := input.envelope;
      var root := ClosureRoot(w.projection, e.command, d);
      var closed := d.(projection := Closed(d, root, input.listing, e.command.InvalidateRecord?));
      && ListsRoot(w, root, input.listing)
      && ProofsDistinct(e.proofs, e.domain) && !Replayed(w.consumed, e.proofs)
      && Persist(w, e, closed, input.now, false) == Ok(t)
  {
    hide Evaluate, ApplyClosure, Persist, Closure, Replayed, ProofsDistinct, ClosureRoot;
  }

  lemma PersistFresh(w: World, t: World, e: Envelope, d: Draft, now: nat)
    requires d.record.Some? && Persist(w, e, d, now, false) == Ok(t)
    ensures d.record.value.Key() !in w.stored
  {
    hide NewEdges;
  }

  /** What storing a record amounts to, for a draft the evaluation lemmas describe. */
  lemma RecordWrites(w: World, t: World, e: Envelope, d: Draft, root: Option<Ref>, listing: seq<Ref>, now: nat)
    requires Invariant(w) && !e.command.CorrectHumanModelAssertion? && GoodDraft(Counted(w.projection), e.command, d, now) && d.record.Some?
    requires root == ClosureRoot(w.projection, e.command, d) && ListsRoot(w, root, listing)
    requires Persist(w, e, d.(projection := Closed(d, root, listing, e.command.InvalidateRecord?)), now, false) == Ok(t)
    ensures Records(w, t, d.record.value, Dependencies(e.command, d.projection.records, d.record.value))
    ensures Leaves(w, t, e.command, d, root, now) && t.consumed == w.consumed + Consumptions(e.proofs)
  {
    var ref := d.record.value;
    PersistFresh(w, t, e, d.(projection := Closed(d, root, listing, e.command.InvalidateRecord?)), now);
    GoodShape(Counted(w.projection), e.command, d, now);
    TargetFalls(w, e, d);
    InvariantParts(w);
    FreshRef(w, ref);
    GoodParts(Counted(w.projection), e.command, d, now);
    hide GoodDraft, Invariant, RecordsStored, EdgesRanked, LiveChain, Persist;
    hide ClosureRoot, ApplyClosure, Closed, ClosureOf, Dependencies;
    hide NoDangling, Weaker, LeaseBounded, Moves, BindingsName, FlightNames;
    hide Fallen, Follows, Marked, IssuedInPlace, Consumptions, ListsRoot;
    ClosedSound(w, d, root, Marked(e.command), listing, e.command.InvalidateRecord?);
    WeakerRecords(d.projection, Closed(d, root, listing, e.command.InvalidateRecord?));
    PersistWrites(w, t, e, d, root, listing, now);
    RootIsSuperseded(w, e.command, d);
  }

  /** A transaction that stores a record. */
  lemma RecordStep(w: World, t: World, input: Input)
    requires Invariant(w) && Steps(w, t, input) && !AdmissionFails(w.projection, input.envelope.command, input.proofsHold)
    requires Evaluate(w.projection, input.envelope, input.now).Ok? && Evaluate(w.projection, input.envelope, input.now).value.record.Some?
    ensures Invariant(t)
  {
    hide Evaluate, GoodDraft, Invariant, DependsOnParents, Persist, Closed;
    hide ClosureRoot, Steps, AdmissionFails, Sound, Records, Leaves;
    hide ProofsDistinct, Replayed, Dependencies, RecordsStored, EdgesRanked, LiveChain;
    var e, p := input.envelope, w.projection;
    InvariantIsSound(w);
    EvaluateGood(p, e, input.now);
    DependenciesAreParents(w, t, input);
    CommittedCorrectsNothing(w, t, input);
    var d := Evaluate(p, e, input.now).value;
    var root := ClosureRoot(p, e.command, d);
    StepUnfolds(w, t, input, d);
    RecordWrites(w, t, e, d, root, input.listing, input.now);
    var dependencies := Dependencies(e.command, d.projection.records, d.record.value);
    InvariantParts(w);
    RecordingKeepsStored(w, t, d.record.value, dependencies);
    RecordingKeepsRanks(w, t, d.record.value, dependencies);
    RecordingKeepsChain(w, t, d.record.value, dependencies);
    RestKept(w, t, e.command, d, root, e, input.now);
    InvariantFrom(t);
  }

  lemma GoodShape(p: Projection, c: Command, d: Draft, now: nat)
    requires GoodDraft(p, c, d, now)
    ensures RecordShape(p, c, d)
  {
  }

  lemma PersistWrites(w: World, t: World, e: Envelope, d: Draft, root: Option<Ref>, listing: seq<Ref>, now: nat)
    requires d.record.Some?
    requires Persist(w, e, d.(projection := Closed(d, root, listing, e.command.InvalidateRecord?)), now, false) == Ok(t)
    requires Closed(d, root, listing, e.command.InvalidateRecord?).records == d.projection.records
    ensures d.record.value.Key() !in w.stored && t.stored == w.stored[d.record.value.Key() := d.record.value]
    ensures t.edges == w.edges + NewEdges(e.command, d.projection.records, d.record.value)
    ensures t.consumed == w.consumed + Consumptions(e.proofs) && t.log == w.log + [d.event]
    ensures t.projection == Closed(d, root, listing, e.command.InvalidateRecord?)
  {
    hide ApplyClosure, NewEdges;
  }

  /** The closure taken is that of the record the new one supersedes, and the new one follows it. */
  lemma RootIsSuperseded(w: World, c: Command, d: Draft)
    requires RecordsStored(w) && d.record.Some? && d.record.value.Key() !in w.stored
    requires RecordShape(Counted(w.projection), c, d) && !c.CorrectHumanModelAssertion?
    ensures Follows(w.projection, d.record.value)
    ensures ClosureOf(w, ClosureRoot(w.projection, c, d)) == Fallen(w, d.record.value.kind)
  {
    hide Closure;
    if d.record.value.kind in w.projection.records {
      StoredRecord(w, d.record.value.kind);
    }
  }

  lemma EvaluatedOrFailed(w: World, t: World, input: Input)
    requires Steps(w, t, input)
    ensures !AdmissionFails(w.projection, input.envelope.command, input.proofsHold) ==> Evaluate(w.projection, input.envelope, input.now).Ok?
  {
    hide Evaluate, ApplyClosure, Persist, Closure, Replayed, ProofsDistinct, ClosureRoot, ListsRoot;
  }

  /** Every committed transaction keeps the invariant. */
  lemma StepKeepsInvariant(w: World, t: World, input: Input)
    requires Invariant(w) && Steps(w, t, input)
    ensures Invariant(t)
  {
    hide Invariant, Steps, Evaluate, AdmissionFails;
    EvaluatedOrFailed(w, t, input);
    if AdmissionFails(w.projection, input.envelope.command, input.proofsHold) {
      FailureStep(w, t, input);
    } else if Evaluate(w.projection, input.envelope, input.now).value.record.None? {
      PlainStep(w, t, input);
    } else {
      RecordStep(w, t, input);
    }
  }

  // ---------------------------------------------------------------- runs

  lemma FreshInvariant(domain: nat)
    ensures Invariant(FreshWorld(domain))
  {
  }

  /** In every reachable state the chain, the bindings, the execution, the log and the consumed proofs are sound. */
  lemma {:induction false} RunsKeepInvariant(domain: nat, worlds: seq<World>, inputs: seq<Input>, n: nat)
    requires IsRun(domain, worlds, inputs) && n < |worlds|
    ensures Invariant(worlds[n])
  {
    hide Invariant, Steps;
    if n == 0 {
      FreshInvariant(domain);
    } else {
      RunsKeepInvariant(domain, worlds, inputs, n - 1);
      StepKeepsInvariant(worlds[n - 1], worlds[n - 1 + 1], inputs[n - 1]);
    }
  }

  /** The kinds upstream of an action. */
  function Upstream(): set<Kind> {
    {TurnCoordination, Decision, Intent, ContextSnapshot, CanonicalInput}
  }

  /** A live action has its whole upstream chain live, each link named by a stored edge. */
  lemma ActionChain(w: World)
    requires LiveChain(w) && Live(w.projection, Action)
    ensures forall k :: k in Upstream() ==> Live(w.projection, k)
    ensures Rests(w, Action, TurnCoordination) && Rests(w, Action, Decision) && Rests(w, TurnCoordination, Decision)
    ensures Rests(w, TurnCoordination, Intent) && Rests(w, Decision, Intent) && Rests(w, Intent, ContextSnapshot)
    ensures Rests(w, ContextSnapshot, CanonicalInput)
  {
    assert Rests(w, Action, TurnCoordination) && Rests(w, Action, Decision);
    assert Rests(w, TurnCoordination, Decision) && Rests(w, Decision, Intent) && Rests(w, Intent, ContextSnapshot);
    assert Rests(w, ContextSnapshot, CanonicalInput);
    assert Upstream() == {TurnCoordination, Decision, Intent, ContextSnapshot, CanonicalInput};
  }

  /** Under the bounds a lease was granted with, the five-way expiry test is the lease's own end. */
  lemma ExpiryIsLeaseEnd(p: Projection, now: nat)
    requires LeaseBounded(p) && p.execution.Some?
    ensures AuthorityExpired(p.execution.value, now) <==> now >= p.execution.value.leaseUntil
  {
  }

  predicate Dispatches(w: World, t: World) {
    && t.projection.execution.Some? && t.projection.execution.value.state.DispatchStarted?
    && !(w.projection.execution.Some? && w.projection.execution.value.state.DispatchStarted?)
  }

  lemma FailureUnfolds(w: World, t: World, input: Input)
    requires Steps(w, t, input) && AdmissionFails(w.projection, input.envelope.command, input.proofsHold)
    ensures w.projection.admission.Some? && t.projection == ApplyClosure(ProofFailure(w.projection), input.listing, false)
  {
    hide Evaluate, ApplyClosure, ProofFailure, Closure, Replayed, ProofsDistinct, ListsRoot, Consumptions;
  }

  /** Revoked admission proofs never start a dispatch. */
  lemma FailureStops(w: World, t: World, input: Input)
    requires Invariant(w) && Steps(w, t, input) && AdmissionFails(w.projection, input.envelope.command, input.proofsHold)
    ensures t.projection.execution.Some? ==> !t.projection.execution.value.state.InFlight()
  {
    FailureUnfolds(w, t, input);
    FailureSound(w.projection);
    hide Invariant, ProofFailure, InvalidateAll, Steps, AdmissionFails;
    hide NoDangling, BindingsName, FlightNames, LeaseBounded;
    AllReleases(ProofFailure(w.projection), input.listing);
  }

  /** An execution that is dispatched now was moved there by the command itself. */
  lemma EvaluationMoves(w: World, t: World, input: Input)
    requires Invariant(w) && Steps(w, t, input) && !AdmissionFails(w.projection, input.envelope.command, input.proofsHold)
    requires Evaluate(w.projection, input.envelope, input.now).Ok?
    ensures
      var d := Evaluate(w.projection, input.envelope, input.now).value;
      Moves(Counted(w.projection), input.envelope.command, d, input.now) && Weaker(d.projection, t.projection) && t.log == w.log + [d.event]
  {
    var e, p := input.envelope, w.projection;
    InvariantIsSound(w);
    EvaluateGood(p, e, input.now);
    hide Evaluate, GoodDraft, Invariant, Closure, Steps, AdmissionFails;
    hide ClosureRoot, Closed, Weaker, Persist, Moves, Sound;
    var d := Evaluate(p, e, input.now).value;
    GoodMoves(Counted(p), e.command, d, input.now);
    StepUnfolds(w, t, input, d);
    var root := ClosureRoot(p, e.command, d);
    ClosedWeaker(d, root, input.listing, e.command.InvalidateRecord?);
    PersistKeeps(w, t, e, d.(projection := Closed(d, root, input.listing, e.command.InvalidateRecord?)), input.now, false);
  }

  lemma DispatchMoves(w: World, t: World, input: Input)
    requires Invariant(w) && Steps(w, t, input) && Dispatches(w, t)
    ensures input.envelope.command.StartDispatch? && w.projection.execution.Some?
    ensures
      var x := w.projection.execution.value;
      && x.state.PermitDelivered? && AuthorityIsCurrent(w.projection, x, input.now)
      && t.projection.execution == Some(x.(state := DispatchStarted))
      && t.log == w.log + [DispatchWasStarted(x.permitId)]
  {
    hide Invariant, Steps, Evaluate, AdmissionFails;
    EvaluatedOrFailed(w, t, input);
    if AdmissionFails(w.projection, input.envelope.command, input.proofsHold) {
      FailureStops(w, t, input);
    } else {
      EvaluationMoves(w, t, input);
    }
  }

  lemma GoodMoves(p: Projection, c: Command, d: Draft, now: nat)
    requires GoodDraft(p, c, d, now)
    ensures Moves(p, c, d, now)
  {
  }

  lemma ClosedWeaker(d: Draft, root: Option<Ref>, listing: seq<Ref>, invalidateRun: bool)
    ensures Weaker(d.projection, Closed(d, root, listing, invalidateRun))
  {
    hide InvalidateAll;
    WeakerReflexive(d.projection);
    AllReleases(d.projection, listing);
  }

  lemma PersistKeeps(w: World, t: World, e: Envelope, d: Draft, now: nat, revoked: bool)
    requires Persist(w, e, d, now, revoked) == Ok(t)
    ensures t.projection == d.projection && t.log == w.log + [d.event]
    ensures ExecutionFits(w.executions, w.projection.execution, t.projection.execution, e.command, now, revoked)
    ensures t.executions == ExecutionWritten(w.executions, t.projection.execution, e.command)
    ensures d.record.Some? ==> RecordFits(w.stored, d.record.value)
    ensures t.stored == if d.record.Some? then w.stored[d.record.value.Key() := d.record.value] else w.stored
  {
    hide NewEdges;
  }

  /**
    Every step into `DispatchStarted` comes before the lease ends, on the current,
    un-invalidated action with its whole upstream chain live, after the same permit was
    issued and then delivered.
   */
  lemma DispatchIsAuthorized(domain: nat, worlds: seq<World>, inputs: seq<Input>, n: nat)
    requires IsRun(domain, worlds, inputs) && n < |inputs|
    requires Dispatches(worlds[n], worlds[n + 1])
    ensures
      var w, x := worlds[n], worlds[n + 1].projection.execution.value;
      && inputs[n].now < x.leaseUntil && !AuthorityExpired(x, inputs[n].now)
      && IsLive(w.projection, x.actionRef) && x.actionRef.kind.Action?
      && (forall k :: k in Upstream() ==> Live(w.projection, k))
      && LoggedInOrder(w.log, PermitWasIssued(x.permitId), PermitWasDelivered(x.permitId))
      && worlds[n + 1].log == w.log + [DispatchWasStarted(x.permitId)]
  {
    var w, t := worlds[n], worlds[n + 1];
    assert Steps(w, t, inputs[n]);
    RunsKeepInvariant(domain, worlds, inputs, n);
    hide IsRun, Steps;
    DispatchMoves(w, t, inputs[n]);
    ExpiryIsLeaseEnd(w.projection, inputs[n].now);
    ActionChain(w);
  }

  // ---------------------------------------------------------------- what commits, and what does not

  /** In a run no input is a correction. */
  lemma NoRunCorrects(domain: nat, worlds: seq<World>, inputs: seq<Input>, n: nat)
    requires IsRun(domain, worlds, inputs) && n < |inputs|
    ensures !inputs[n].envelope.command.CorrectHumanModelAssertion?
  {
    assert Steps(worlds[n], worlds[n + 1], inputs[n]);
    RunsKeepInvariant(domain, worlds, inputs, n);
    hide IsRun, Steps, Invariant;
    CommittedCorrectsNothing(worlds[n], worlds[n + 1], inputs[n]);
  }

  /** A dependency is stored, and is not the record the new one follows. */
  lemma DependencyApart(w: World, ref: Ref, d: Ref)
    requires RecordsStored(w) && Follows(w.projection, ref)
    requires d.kind in w.projection.records && w.projection.records[d.kind] == d && Rank(d.kind) < Rank(ref.kind)
    ensures d.Key() in w.stored && w.stored[d.Key()] == d && (ref.revision > 1 ==> d.Key() != PredecessorKey(ref))
  {
    StoredRecord(w, d.kind);
    if ref.revision > 1 {
      StoredRecord(w, ref.kind);
    }
  }

  lemma EdgesLeadToStored(w: World, ref: Ref)
    requires EdgesRanked(w.stored, w.edges) && ref.Key() !in w.stored
    ensures forall key :: Row(key, ref) !in w.edges
  {
  }

  /** The rows of any other record fit. */
  lemma OtherRowsFit(w: World, c: Command, records: map<Kind, Ref>, ref: Ref)
    requires RecordsStored(w) && EdgesRanked(w.stored, w.edges) && ref.Key() !in w.stored && Follows(w.projection, ref)
    requires DependsOnParents(w.projection, ref, Dependencies(c, records, ref))
    ensures RowsFit(w.stored[ref.Key() := ref], w.edges, c, records, ref)
  {
    hide RecordsStored, EdgesRanked, Follows, Dependencies, Rank, Parents, Exempt, Live, Row;
    EdgesLeadToStored(w, ref);
    forall d | d in Dependencies(c, records, ref)
      ensures d.Key() in w.stored && w.stored[d.Key()] == d && (ref.revision > 1 ==> d.Key() != PredecessorKey(ref))
    {
      DependencyApart(w, ref, d);
    }
  }

  /** The projection a transaction would write, its closure applied. */
  function DecidedDraft(w: World, input: Input): Result<Draft, RunError> {
    Decide(w.projection, input.envelope, input.now, input.proofsHold, input.listing)
  }

  /**
    What a caller can look up before a command that the evaluator accepts: its proofs have not
    been seen, the bound admission's proofs hold, and its record follows on under the policy
    revision of its predecessor.
   */
  ghost predicate Presentable(w: World, input: Input) {
    var e := input.envelope;
    && ListsRoot(w, RootNeeded(w.projection, e, input.now, input.proofsHold), input.listing)
    && ProofsDistinct(e.proofs, e.domain) && !Replayed(w.consumed, e.proofs)
    && !AdmissionFails(w.projection, e.command, input.proofsHold)
    && Evaluate(w.projection, e, input.now).Ok?
    && var d := Evaluate(w.projection, e, input.now).value;
       d.record.Some? ==> RecordFits(w.stored, d.record.value)
  }

  predicate Commits(w: World, input: Input) {
    Transact(w, input.envelope, input.now, input.proofsHold, input.listing).Ok?
  }

  /**
    Such a command is committed exactly when it is not a correction and the execution tables
    take the execution it leaves and its receipt.
   */
  lemma CommitsUnlessCorrection(w: World, input: Input)
    requires Invariant(w) && Presentable(w, input)
    ensures DecidedDraft(w, input).Ok?
    ensures Commits(w, input) <==>
      (&& !input.envelope.command.CorrectHumanModelAssertion?
       && ExecutionFits(
            w.executions, w.projection.execution, DecidedDraft(w, input).value.projection.execution, input.envelope.command, input.now, false))
  {
    var e := input.envelope;
    InvariantIsSound(w);
    InvariantParts(w);
    EvaluateGood(w.projection, e, input.now);
    hide Invariant, RecordsStored, EdgesRanked, LiveChain, Evaluate, GoodDraft, RecordFits;
    hide Sound, ProofsDistinct, Replayed, Consumptions, ListsRoot, RowsFit, NewEdges, ExecutionFits, ExecutionWritten;
    hide Dependencies, DependsOnParents, ApplyClosure, Closed, RecordShape, AdmissionFails, ClosureRoot;
    var d := Evaluate(w.projection, e, input.now).value;
    if e.command.CorrectHumanModelAssertion? {
      NoCorrectionCommits(w, e, input.now, input.proofsHold, input.listing);
    } else if d.record.Some? {
      FittingIsNew(w.stored, d.record.value);
      GoodShape(Counted(w.projection), e.command, d, input.now);
      RootIsSuperseded(w, e.command, d);
      EvaluatedDependsOnParents(w.projection, e, input.now);
      OtherRowsFit(w, e.command, d.projection.records, d.record.value);
      CorrectionClosed(d, input.listing);
    }
  }

  lemma FittingIsNew(stored: map<RecordKey, Ref>, ref: Ref)
    requires RecordFits(stored, ref)
    ensures ref.Key() !in stored
  {
  }

  // ---------------------------------------------------------------- what the evaluator lets a correction name

  ghost predicate UpstreamLive(p: Projection) {
    forall k, q :: Live(p, k) && q in Parents(k) ==> Live(p, q)
  }

  /**
    The evaluator asks only that a correction's target be live. Of what it accepts, every live
    record's parents are live still exactly when no live record rests on the target's kind.
   */
  lemma MisaimedCorrection(w: World, e: Envelope, now: nat)
    requires Invariant(w) && e.command.CorrectHumanModelAssertion? && Evaluate(w.projection, e, now).Ok?
    ensures UpstreamLive(Evaluate(w.projection, e, now).value.projection) <==>
      (forall k :: Live(w.projection, k) ==> e.command.assertionRef.kind !in Parents(k))
  {
    InvariantIsSound(w);
    InvariantParts(w);
    EvaluateGood(w.projection, e, now);
    var d := Evaluate(w.projection, e, now).value;
    GoodShape(Counted(w.projection), e.command, d, now);
    hide Invariant, Evaluate, GoodDraft, NoDangling, LeaseBounded, RecordsStored, EdgesRanked, LiveChain;
    ChainIsUpstream(w);
    OnlyTargetFalls(w.projection, d.projection, e.command.assertionRef);
  }

  lemma OnlyTargetFalls(p: Projection, q: Projection, target: Ref)
    requires UpstreamLive(p) && IsLive(p, target) && forall k :: k in p.records ==> p.records[k].kind == k
    requires HumanModelAssertion in q.records && q.records == p.records[HumanModelAssertion := q.records[HumanModelAssertion]]
    requires q.invalidated == p.invalidated + {target}
    ensures UpstreamLive(q) <==> (forall k :: Live(p, k) ==> target.kind !in Parents(k))
  {
    hide Parents;
    if k :| Live(p, k) && target.kind in Parents(k) {
      ParentsAreEarlier(k, target.kind);
      AssertionIsLast(k);
      assert Live(q, k) && !Live(q, target.kind);
    } else {
      forall k, j | Live(q, k) && j in Parents(k)
        ensures Live(q, j)
      {
        AssertionIsLast(k);
        assert Live(p, k) && Live(p, j);
      }
    }
  }

  lemma ChainIsUpstream(w: World)
    requires LiveChain(w)
    ensures UpstreamLive(w.projection)
  {
    forall k, q | Live(w.projection, k) && q in Parents(k)
      ensures Live(w.projection, q)
    {
      assert Rests(w, k, q);
    }
  }

  lemma AssertionIsLast(k: Kind)
    ensures k != HumanModelAssertion ==> Rank(k) < Rank(HumanModelAssertion)
    ensures Parents(HumanModelAssertion) == {} && forall j :: HumanModelAssertion !in Parents(j)
  {
  }
}
