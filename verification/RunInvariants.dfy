/**
  What every run of the authority keeps: the stored dependency edges of live records name
  exactly their live upstream records, bindings name live records, and an execution in
  flight names the live action.
 */
module RunInvariants {
  import opened Wrappers
  import opened Contracts
  import opened Graphs
  import opened RunModel
  import opened RunTables

  // ---------------------------------------------------------------- the invariants

  /** Dependencies lead from earlier kinds to later ones. */
  function Rank(k: Kind): nat {
    match k
    case CanonicalInput => 0
    case ContextSnapshot => 1
    case Intent => 2
    case Decision => 3
    case TurnCoordination => 4
    case Response => 5
    case Action => 6
    case ActionAdmissionDecision => 7
    case ExecutionReceipt => 8
    case Outcome => 9
    case HumanModelCandidate => 10
    case HumanModelPromotionDecision => 11
    case HumanModelAssertion => 12
  }

  /**
    The kinds a live record of a kind rests on. A receipt may rest on a dead action, and an
    assertion on a superseded promotion or assertion, so those two rest on nothing live.
   */
  function Parents(k: Kind): set<Kind> {
    match k
    case ContextSnapshot => {CanonicalInput}
    case Intent => {ContextSnapshot}
    case Decision => {Intent}
    case TurnCoordination => {Intent, Decision}
    case Response => {TurnCoordination}
    case Action => {TurnCoordination, Decision}
    case ActionAdmissionDecision => {Action}
    case Outcome => {ExecutionReceipt}
    case HumanModelCandidate => {Outcome}
    case HumanModelPromotionDecision => {HumanModelCandidate}
    case _ => {}
  }

  ghost predicate RecordsStored(w: World) {
    && (forall k :: k in w.stored ==> w.stored[k].Key() == k)
    && (forall k :: k in w.projection.records ==>
          w.projection.records[k].kind == k && w.projection.records[k].revision >= 1
          && w.projection.records[k].Key() in w.stored && w.stored[w.projection.records[k].Key()] == w.projection.records[k])
    && (forall r :: r in w.projection.invalidated ==> r.Key() in w.stored && w.stored[r.Key()] == r)
  }

  ghost predicate EdgesRanked(stored: map<RecordKey, Ref>, edges: set<Edge<RecordKey>>) {
    forall e :: e in edges ==>
      && e.before in stored && e.after in stored
      && (Rank(stored[e.before].kind) < Rank(stored[e.after].kind)
          || (stored[e.before].kind == stored[e.after].kind && e.before.id == e.after.id))
  }

  ghost predicate Rests(w: World, k: Kind, q: Kind)
    requires k in w.projection.records
  {
    Live(w.projection, q) && Edge(w.projection.records[q].Key(), w.projection.records[k].Key()) in w.edges
  }

  /** An edge into a live record comes from a current parent, or from the record's own predecessor. */
  ghost predicate EdgeNamed(w: World, k: Kind, e: Edge<RecordKey>)
    requires k in w.projection.records
  {
    || (exists q :: q in Parents(k) && q in w.projection.records && w.projection.records[q].Key() == e.before)
    || (e.before.id == w.projection.records[k].id && e.before.revision + 1 == w.projection.records[k].revision)
  }

  predicate Exempt(k: Kind) {
    k.ExecutionReceipt? || k.HumanModelAssertion?
  }

  /** Every live record's parents are live, and they are exactly what its stored edges name. */
  ghost predicate LiveChain(w: World) {
    && (forall k, q :: Live(w.projection, k) && q in Parents(k) ==> Rests(w, k, q))
    && (forall k, e :: Live(w.projection, k) && !Exempt(k) && e in w.edges && e.after == w.projection.records[k].Key() ==> EdgeNamed(w, k, e))
  }

  predicate NamesCurrent(p: Projection, dead: set<Ref>, ref: Ref, k: Kind) {
    ref.kind == k && k in p.records && p.records[k] == ref && ref !in dead
  }

  /** Bindings name current records outside `dead`. */
  predicate BindingsName(p: Projection, dead: set<Ref>) {
    && (p.decision.Some? ==> NamesCurrent(p, dead, p.decision.value.ref, Decision))
    && (p.response.Some? ==> NamesCurrent(p, dead, p.response.value.ref, Response))
    && (p.action.Some? ==> NamesCurrent(p, dead, p.action.value.ref, Action))
    && (p.admission.Some? ==>
          NamesCurrent(p, dead, p.admission.value.ref, ActionAdmissionDecision) && NamesCurrent(p, dead, p.admission.value.actionRef, Action))
    && (p.outcome.Some? ==> NamesCurrent(p, dead, p.outcome.value, Outcome))
    && (p.candidate.Some? ==> NamesCurrent(p, dead, p.candidate.value.ref, HumanModelCandidate))
    && (p.promotion.Some? ==> NamesCurrent(p, dead, p.promotion.value.ref, HumanModelPromotionDecision))
  }

  /** An execution in flight names the current action outside `dead`. */
  predicate FlightNames(p: Projection, dead: set<Ref>) {
    p.execution.Some? && p.execution.value.state.InFlight() ==> NamesCurrent(p, dead, p.execution.value.actionRef, Action)
  }

  predicate NoDangling(p: Projection) {
    BindingsName(p, p.invalidated) && FlightNames(p, p.invalidated)
  }

  /** A lease ends no later than any of the limits it was granted under. */
  predicate LeaseBounded(p: Projection) {
    p.execution.Some? ==>
      var x := p.execution.value;
      x.leaseUntil == x.permitValidUntil && x.leaseUntil <= x.actionValidUntil && x.leaseUntil <= x.admissionValidUntil
      && x.leaseUntil <= x.authorizationValidUntil
  }

  /** `first` is logged, and `second` after it. */
  ghost predicate LoggedInOrder(log: seq<Event>, first: Event, second: Event) {
    exists i, j :: 0 <= i < j < |log| && log[i] == first && log[j] == second
  }

  ghost predicate FlightLogged(w: World) {
    w.projection.execution.Some? ==>
      var x := w.projection.execution.value;
      && (x.state.PermitIssued? ==> PermitWasIssued(x.permitId) in w.log)
      && (x.state.PermitDelivered? ==> LoggedInOrder(w.log, PermitWasIssued(x.permitId), PermitWasDelivered(x.permitId)))
  }

  ghost predicate ConsumedDistinct(consumed: seq<Consumption>) {
    forall i, j :: 0 <= i < j < |consumed| ==> consumed[i].proofId != consumed[j].proofId && consumed[i].nonce != consumed[j].nonce
  }

  predicate Versioned(w: World) {
    w.projection.version == w.projection.sequence == |w.log|
  }

  ghost predicate Invariant(w: World) {
    && RecordsStored(w) && EdgesRanked(w.stored, w.edges) && LiveChain(w)
    && NoDangling(w.projection) && LeaseBounded(w.projection) && FlightLogged(w)
    && ConsumedDistinct(w.consumed) && Versioned(w)
  }

  // ---------------------------------------------------------------- closures

  lemma ClosureHas(stored: map<RecordKey, Ref>, edges: set<Edge<RecordKey>>, root: RecordKey, r: Ref)
    requires r.Key() in stored && stored[r.Key()] == r
    ensures (r.Key() == root || Reaches(edges, root, r.Key())) ==> r in Closure(stored, edges, root)
  {
  }

  lemma ClosureMember(stored: map<RecordKey, Ref>, edges: set<Edge<RecordKey>>, root: RecordKey, r: Ref)
    requires r in Closure(stored, edges, root) && forall k :: k in stored ==> stored[k].Key() == k
    ensures r.Key() in stored && stored[r.Key()] == r && (r.Key() == root || Reaches(edges, root, r.Key()))
  {
  }

  /** A dependent of an invalidated record is invalidated with it. */
  lemma ClosureClosed(stored: map<RecordKey, Ref>, edges: set<Edge<RecordKey>>, root: RecordKey, a: Ref, b: Ref)
    requires forall k :: k in stored ==> stored[k].Key() == k
    requires a in Closure(stored, edges, root) && b.Key() in stored && stored[b.Key()] == b
    requires Edge(a.Key(), b.Key()) in edges
    ensures b in Closure(stored, edges, root)
  {
    ClosureMember(stored, edges, root, a);
    ReachesByEdge(edges, a.Key(), b.Key());
    if a.Key() != root {
      ReachesTransitive(edges, root, a.Key(), b.Key());
    }
    ClosureHas(stored, edges, root, b);
  }

  /** Walks never lead back to an earlier kind. */
  lemma {:induction false} WalksRise(
    stored: map<RecordKey, Ref>, edges: set<Edge<RecordKey>>, walk: seq<RecordKey>, n: nat)
    requires EdgesRanked(stored, edges) && IsWalk(edges, walk) && n < |walk|
    ensures walk[0] in stored && walk[n] in stored && Rank(stored[walk[0]].kind) <= Rank(stored[walk[n]].kind)
  {
    hide Rank;
    if n > 0 {
      WalksRise(stored, edges, walk, n - 1);
      assert Edge(walk[n - 1], walk[n]) in edges;
    } else {
      assert Edge(walk[0], walk[1]) in edges;
    }
  }

  lemma ReachRises(stored: map<RecordKey, Ref>, edges: set<Edge<RecordKey>>, a: RecordKey, b: RecordKey)
    requires EdgesRanked(stored, edges) && Reaches(edges, a, b)
    ensures a in stored && b in stored && Rank(stored[a].kind) <= Rank(stored[b].kind)
  {
    hide EdgesRanked, Rank;
    var walk :| WalkFromTo(edges, a, b, walk);
    WalksRise(stored, edges, walk, |walk| - 1);
  }

  lemma ParentsAreEarlier(k: Kind, q: Kind)
    requires q in Parents(k)
    ensures Rank(q) < Rank(k)
  {
  }

  // ---------------------------------------------------------------- invalidating a listing

  /** Bindings only disappear, and the execution at most stops. */
  ghost predicate Weaker(p: Projection, q: Projection) {
    && q.domain == p.domain && q.subject == p.subject && q.turn == p.turn && q.version == p.version && q.sequence == p.sequence
    && q.records == p.records && q.sendNonces == p.sendNonces
    && (q.decision == p.decision || q.decision.None?) && (q.response == p.response || q.response.None?)
    && (q.action == p.action || q.action.None?) && (q.admission == p.admission || q.admission.None?)
    && (q.outcome == p.outcome || q.outcome.None?) && (q.candidate == p.candidate || q.candidate.None?)
    && (q.promotion == p.promotion || q.promotion.None?)
    && StoppedOrSame(p.execution, q.execution)
  }

  predicate StoppedOrSame(x: Option<Execution>, y: Option<Execution>) {
    || y == x
    || (x.Some? && y.Some? && y.value == x.value.(state := y.value.state) && !y.value.state.InFlight())
  }

  lemma ClearIsWeaker(p: Projection, r: Ref)
    ensures Weaker(p, ClearBindings(p, r)) && ClearBindings(p, r).invalidated == p.invalidated
    ensures ClearBindings(p, r).execution == p.execution
  {
    match r.kind
    case Outcome =>
    case HumanModelCandidate =>
    case Action =>
    case _ =>
  }

  lemma OneIsWeaker(p: Projection, r: Ref)
    ensures Weaker(p, InvalidateOne(p, r)) && InvalidateOne(p, r).invalidated == p.invalidated + {r}
  {
    hide ClearBindings, Weaker;
    var marked := p.(invalidated := p.invalidated + {r});
    var cleared := ClearBindings(marked, r);
    ClearIsWeaker(marked, r);
    MarkedWeaker(p, r, cleared);
    StopWeaker(p, cleared, InvalidateOne(p, r));
  }

  lemma MarkedWeaker(p: Projection, r: Ref, q: Projection)
    requires Weaker(p.(invalidated := p.invalidated + {r}), q) && q.execution == p.execution
    ensures Weaker(p, q)
  {
  }

  lemma StopWeaker(p: Projection, q: Projection, t: Projection)
    requires Weaker(p, q) && q.execution == p.execution && StoppedOrSame(q.execution, t.execution)
    requires t == q.(execution := t.execution)
    ensures Weaker(p, t)
  {
  }

  /** Nothing left bound, and nothing in flight, names the invalidated record. */
  predicate Released(p: Projection, r: Ref) {
    && (p.decision.Some? && r.kind.Decision? ==> p.decision.value.ref != r)
    && (p.response.Some? && r.kind.Response? ==> p.response.value.ref != r)
    && (p.action.Some? && r.kind.Action? ==> p.action.value.ref != r)
    && (p.admission.Some? && r.kind.Action? ==> p.admission.value.actionRef != r)
    && (p.admission.Some? && r.kind.ActionAdmissionDecision? ==> p.admission.value.ref != r)
    && (p.outcome.Some? && r.kind.Outcome? ==> p.outcome.value != r)
    && (p.candidate.Some? && r.kind.HumanModelCandidate? ==> p.candidate.value.ref != r)
    && (p.promotion.Some? && r.kind.HumanModelPromotionDecision? ==> p.promotion.value.ref != r)
    && (p.execution.Some? && p.execution.value.state.InFlight() ==> p.execution.value.actionRef != r)
  }

  lemma OneReleases(p: Projection, r: Ref)
    ensures Released(InvalidateOne(p, r), r)
  {
  }

  lemma WeakerKeepsReleased(p: Projection, q: Projection, r: Ref)
    requires Weaker(p, q) && Released(p, r)
    ensures Released(q, r)
  {
  }

  lemma {:induction false} AllReleases(p: Projection, listing: seq<Ref>)
    ensures Weaker(p, InvalidateAll(p, listing))
    ensures InvalidateAll(p, listing).invalidated == p.invalidated + (set r | r in listing)
    ensures forall r :: r in listing ==> Released(InvalidateAll(p, listing), r)
  {
    hide InvalidateOne, Released, Weaker;
    if listing == [] {
      WeakerReflexive(p);
    } else {
      var last := |listing| - 1;
      var q := InvalidateAll(p, listing[..last]);
      AllReleases(p, listing[..last]);
      OneIsWeaker(q, listing[last]);
      OneReleases(q, listing[last]);
      WeakerTransitive(p, q, InvalidateAll(p, listing));
      forall r | r in listing
        ensures Released(InvalidateAll(p, listing), r)
      {
        if r != listing[last] {
          assert r in listing[..last];
          WeakerKeepsReleased(q, InvalidateAll(p, listing), r);
        }
      }
      assert forall r :: r in listing <==> r in listing[..last] || r == listing[last];
    }
  }

  lemma WeakerReflexive(p: Projection)
    ensures Weaker(p, p)
  {
  }

  lemma WeakerTransitive(a: Projection, b: Projection, c: Projection)
    requires Weaker(a, b) && Weaker(b, c)
    ensures Weaker(a, c)
  {
  }

  /** A closure applied to a projection whose bindings were live leaves none dangling. */
  lemma ClosureLeavesNoDangling(p: Projection, dead: set<Ref>, listing: seq<Ref>, invalidateRun: bool)
    requires BindingsName(p, dead) && FlightNames(p, dead)
    requires p.invalidated <= dead + (set r | r in listing)
    ensures NoDangling(ApplyClosure(p, listing, invalidateRun))
    ensures Weaker(p, ApplyClosure(p, listing, invalidateRun))
    ensures ApplyClosure(p, listing, invalidateRun).invalidated == p.invalidated + (set r | r in listing)
  {
    var q := InvalidateAll(p, listing);
    AllReleases(p, listing);
    hide InvalidateAll;
    assert NoDangling(q) by {
      ReleasedNames(p, q, dead, listing);
    }
  }

  lemma ReleasedNames(p: Projection, q: Projection, dead: set<Ref>, listing: seq<Ref>)
    requires Weaker(p, q) && BindingsName(p, dead) && FlightNames(p, dead)
    requires q.invalidated <= dead + (set r | r in listing)
    requires forall r :: r in listing ==> Released(q, r)
    ensures NoDangling(q)
  {
  }
}
