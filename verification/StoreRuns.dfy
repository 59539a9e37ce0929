/**
  The theorems over whole runs of the contract store, from the empty store, through any
  sequence of operations.
 */
module StoreRuns {
  import opened Wrappers
  import opened Contracts
  import opened Graphs
  import opened StoreModel
  import opened StoreOperations
  import opened StoreSnapshot
  import opened StoreCommit
  import opened StoreSafety

  // ---------------------------------------------------------------- receipts and attempts

  ghost predicate Carried(s: State, ref: ContractRef) {
    exists i, j :: 0 <= i < |s.reservations| && 0 <= j < |s.reservations[i].attempts| &&
      s.reservations[i].attempts[j].receiptRef == Some(ref)
  }

  /** Every recorded receipt settled an attempt. */
  ghost predicate ReceiptsCarried(s: State) {
    forall k :: 0 <= k < |s.records| && s.records[k].ExecutionReceipt? ==> Carried(s, s.records[k].Ref())
  }

  lemma KeptStaysCarried(s: State, t: State, ref: ContractRef)
    requires ReceiptsKept(s, t) && Carried(s, ref)
    ensures Carried(t, ref)
  {
    var i, j :| 0 <= i < |s.reservations| && 0 <= j < |s.reservations[i].attempts| &&
      s.reservations[i].attempts[j].receiptRef == Some(ref);
    assert t.reservations[i].attempts[j].receiptRef == Some(ref);
  }

  lemma SettleCarries(reservations: seq<Reservation>, c: Contract, proof: ReceiptProof, s: State)
    requires c.ExecutionReceipt? && Settle(reservations, c, proof).Ok? && s.reservations == Settle(reservations, c, proof).value
    ensures Carried(s, c.Ref())
  {
    var i := FindReservation(reservations, c.receipt.actionRef).value;
    var j := FindAttempt(reservations[i].attempts, c.receipt.permitId).value;
    assert s.reservations[i].attempts[j].receiptRef == Some(c.Ref());
  }

  /** An operation leaves the log alone or appends the one contract it commits. */
  lemma StepWritesLog(s: State, op: Operation)
    ensures
      var t := Next(s, op);
      || (t.records == s.records && t.current == s.current && t.invalidated == s.invalidated)
      || (&& op.Commit? && op.contract.ExecutionReceipt? == op.proof.Some? && CommitCandidate(s, op.contract, op.proof).Ok?
          && t == CommitCandidate(s, op.contract, op.proof).value && t.records == s.records + [op.contract]
          && t.current == Appended(s, op.contract).current && t.invalidated == Appended(s, op.contract).invalidated
          && op.contract.Valid() && Find(s.records, op.contract.Ref()).None? && Committable(s, op.contract))
  {
    hide StateValid, Committable, Find, Reserve, Affected, PlanIssue, Settle, Contract.Valid, ReceiptProofValidAt;
    match op
    case Commit(_, _, _) =>
    case Issue(v, freshId, now) =>
      if PlanIssue(s, v, freshId, now).write.Some? {
        IssueConsumesFresh(s, v, freshId, now);
      }
    case _ =>
      if Plan(s, op).write.Some? {
        var i, b := MarkWritesLast(s, op);
      }
  }

  lemma SameLogCarries(s: State, t: State)
    requires ReceiptsCarried(s) && ReceiptsKept(s, t) && t.records == s.records
    ensures ReceiptsCarried(t)
  {
    hide Carried, ReceiptsKept;
    forall k | 0 <= k < |t.records| && t.records[k].ExecutionReceipt?
      ensures Carried(t, t.records[k].Ref())
    {
      KeptStaysCarried(s, t, s.records[k].Ref());
    }
  }

  lemma LongerLogCarries(s: State, t: State, c: Contract)
    requires ReceiptsCarried(s) && ReceiptsKept(s, t) && t.records == s.records + [c]
    requires c.ExecutionReceipt? ==> Carried(t, c.Ref())
    ensures ReceiptsCarried(t)
  {
    hide Carried, ReceiptsKept;
    forall k | 0 <= k < |t.records| && t.records[k].ExecutionReceipt?
      ensures Carried(t, t.records[k].Ref())
    {
      if k < |s.records| {
        assert t.records[k] == s.records[k];
        KeptStaysCarried(s, t, s.records[k].Ref());
      }
    }
  }

  lemma StepCarriesReceipts(s: State, op: Operation)
    requires StateValid(s) && ReceiptsCarried(s)
    ensures ReceiptsCarried(Next(s, op))
  {
    hide StateValid, Next, Carried, ReceiptsKept, ReceiptsCarried;
    hide CommitCandidate, Find, Committable, Contract.Valid, Appended;
    var t := Next(s, op);
    StepKeepsReceipts(s, op);
    StepWritesLog(s, op);
    if t.records == s.records {
      SameLogCarries(s, t);
    } else {
      if op.proof.Some? {
        CandidateCarries(s, op.contract, op.proof.value);
      }
      LongerLogCarries(s, t, op.contract);
    }
  }

  lemma CandidateCarries(s: State, c: Contract, proof: ReceiptProof)
    requires c.ExecutionReceipt? && CommitCandidate(s, c, Some(proof)).Ok?
    ensures Carried(CommitCandidate(s, c, Some(proof)).value, c.Ref())
  {
    hide Appended, Settle, Carried;
    SettleCarries(Appended(s, c).reservations, c, proof, CommitCandidate(s, c, Some(proof)).value);
  }

  /** No receipt settles two attempts. */
  lemma CarriedOnce(s: State, i: nat, m: nat, j: nat, n: nat)
    requires StateValid(s)
    requires i < |s.reservations| && m < |s.reservations[i].attempts| && j < |s.reservations| && n < |s.reservations[j].attempts|
    requires s.reservations[i].attempts[m].receiptRef.Some?
    requires s.reservations[i].attempts[m].receiptRef == s.reservations[j].attempts[n].receiptRef
    ensures i == j && m == n
  {
    hide Find, RecordsUnique, RecordsValid, PointersLatest, InvalidatedKnown, CachedIsReplay, ReservationValid;
    CarriedMatches(s, i, m);
    CarriedMatches(s, j, n);
    ProofIdOccursOnce(s.reservations, i, m, j, n);
  }

  lemma ProofIdOccursOnce(reservations: seq<Reservation>, i: nat, m: nat, j: nat, n: nat)
    requires ConsumedOnce(reservations)
    requires i < |reservations| && m < |reservations[i].attempts| && j < |reservations| && n < |reservations[j].attempts|
    ensures reservations[i].attempts[m].proofId == reservations[j].attempts[n].proofId ==> i == j && m == n
  {
  }

  lemma CarriedMatches(s: State, i: nat, m: nat)
    requires StateValid(s) && i < |s.reservations| && m < |s.reservations[i].attempts|
    requires s.reservations[i].attempts[m].receiptRef.Some?
    ensures
      var r, a := s.reservations[i], s.reservations[i].attempts[m];
      && Find(s.records, a.receiptRef.value).Some? && Find(s.records, a.receiptRef.value).value.ExecutionReceipt?
      && ReceiptMatches(Find(s.records, a.receiptRef.value).value.receipt, r, a) && a.permitId == a.proofId
  {
    hide Find, RecordsUnique, RecordsValid, PointersLatest;
    hide InvalidatedKnown, CachedIsReplay, ConsumedOnce, ScopesUnique;
    hide ReservationIdsUnique, PermitRequest.ValidFor, Envelope.ShapeValid;
    hide ReceiptClaimsMatch, TimingValid, ReceiptMatches;
    assert ReservationValid(s.records, s.reservations[i]);
  }

  /** At most one receipt is ever recorded for an attempt of an action. */
  lemma OneReceiptPerAttempt(s: State, k: nat, l: nat)
    requires StateValid(s) && k < l < |s.records| && s.records[k].ExecutionReceipt? && s.records[l].ExecutionReceipt?
    ensures !(s.records[k].receipt.actionRef == s.records[l].receipt.actionRef
              && s.records[k].receipt.attempt == s.records[l].receipt.attempt)
  {
    hide Find, RecordsUnique, PointersLatest, InvalidatedKnown;
    hide CachedIsReplay, ReservationsValid, Contract.Valid, ReferencesEarlier;
    assert CrossObjectConsistent(s.records[l], s.records[..l], s.reservations);
    assert s.records[..l][k] == s.records[k];
  }

  // ---------------------------------------------------------------- runs

  lemma EmptyIsValid()
    ensures StateValid(EMPTY) && InFlightLive(EMPTY) && SingleUse(EMPTY.reservations) && ReceiptsCarried(EMPTY)
  {
  }

  /**
    In every reachable state: the snapshot is one the validator accepts (so the cached
    pointers and invalidations are the replay of the log); every in-flight attempt is its
    reservation's last and its action is live; every one-time value was consumed once; and
    every recorded receipt settled an attempt.
   */
  lemma {:induction false} RunsAreSafe(ops: seq<Operation>)
    ensures StateValid(Run(ops)) && InFlightLive(Run(ops)) && SingleUse(Run(ops).reservations) && ReceiptsCarried(Run(ops))
  {
    hide StateValid, InFlightLive, SingleUse, ReceiptsCarried, Plan;
    if ops == [] {
      EmptyIsValid();
    } else {
      var last := |ops| - 1;
      var s := Run(ops[..last]);
      RunsAreSafe(ops[..last]);
      StepCarriesReceipts(s, ops[last]);
      if Plan(s, ops[last]).write.Some? {
        OperationsKeepSingleUse(s, ops[last]);
        OperationsKeepInFlightLive(s, ops[last]);
      }
    }
  }

  lemma RunStep(ops: seq<Operation>, op: Operation)
    ensures Run(ops + [op]) == Next(Run(ops), op)
  {
    hide Next;
    assert (ops + [op])[..|ops|] == ops;
  }

  /** Once an attempt carries a receipt, nothing that happens later changes it. */
  lemma {:induction false} RunsKeepReceipts(ops: seq<Operation>, more: seq<Operation>)
    ensures ReceiptsKept(Run(ops), Run(ops + more))
    decreases |more|
  {
    hide ReceiptsKept, Next, Run, StateValid, InFlightLive, SingleUse, ReceiptsCarried;
    if more == [] {
      assert ops + more == ops;
      NothingKeepsReceipts(Run(ops));
    } else {
      var last := |more| - 1;
      RunsKeepReceipts(ops, more[..last]);
      var earlier := ops + more[..last];
      assert ops + more == earlier + [more[last]];
      RunStep(earlier, more[last]);
      RunsAreSafe(earlier);
      StepKeepsReceipts(Run(earlier), more[last]);
      KeptTransitive(Run(ops), Run(earlier), Run(ops + more));
    }
  }

  lemma KeptTransitive(a: State, b: State, c: State)
    requires ReceiptsKept(a, b) && ReceiptsKept(b, c)
    ensures ReceiptsKept(a, c)
  {
    forall i, j | 0 <= i < |a.reservations| && 0 <= j < |a.reservations[i].attempts| && a.reservations[i].attempts[j].receiptRef.Some?
      ensures i < |c.reservations| && j < |c.reservations[i].attempts| && c.reservations[i].attempts[j] == a.reservations[i].attempts[j]
    {
      assert b.reservations[i].attempts[j] == a.reservations[i].attempts[j];
    }
  }

  // ---------------------------------------------------------------- dependencies of live records

  /** Every live record has only live dependencies. */
  ghost predicate DependenciesLive(s: State) {
    forall r, d :: Live(s, r) && d in DependenciesOf(s.records, r) ==> Live(s, d)
  }

  /** A commit never strands a survivor: what was live under a record that stays live, stays live. */
  lemma SurvivorsKeepDependencies(s: State, c: Contract, r: ContractRef, d: ContractRef)
    requires Live(s, r) && Live(Appended(s, c), r) && r != c.Ref()
    requires d in DependenciesOf(s.records, r) && Live(s, d)
    ensures Live(Appended(s, c), d)
  {
    hide Find, DependenciesOf, Affected, Reconciled, LiveEdges;
    if c.Key() in s.current && d.Key() != r.Key() {
      var stale := s.current[c.Key()];
      LiveEdgeIff(s.records, s.current, s.invalidated, d, r);
      AffectedIff(s.records, s.current, s.invalidated, stale, r);
      AffectedIff(s.records, s.current, s.invalidated, stale, d);
      var edges := LiveEdges(s.records, s.current, s.invalidated);
      ReachesByEdge(edges, d, r);
      if d != stale && Reaches(edges, stale, d) {
        ReachesTransitive(edges, stale, d, r);
      }
    }
  }

  /** What the new revision depends on neither is nor falls with the revision it supersedes. */
  ghost predicate Independent(s: State, c: Contract) {
    c.Key() in s.current ==>
      forall d :: d in c.metadata.dependencies ==>
        d != s.current[c.Key()] && d !in Affected(s.records, s.current, s.invalidated, s.current[c.Key()])
  }

  lemma DependenciesKept(s: State, c: Contract, r: ContractRef)
    requires PointersLatest(s.records, s.current)
    ensures Live(s, r) ==> DependenciesOf(s.records + [c], r) == DependenciesOf(s.records, r)
  {
    hide Find;
    FindAppended(s.records, c);
    if Live(s, r) {
      PointerFound(s.records, s.current, r.Key());
    }
  }

  lemma SurvivorWasLive(s: State, c: Contract, r: ContractRef)
    requires Live(Appended(s, c), r) && r != c.Ref()
    ensures Live(s, r)
  {
    hide Affected, Reconciled;
  }

  lemma CommittedDependencies(s: State, c: Contract)
    requires Find(s.records, c.Ref()).None?
    ensures DependenciesOf(s.records + [c], c.Ref()) == c.metadata.dependencies
  {
    hide Find;
    FindAppended(s.records, c);
  }

  lemma CommittedIsLive(s: State, c: Contract)
    requires Find(s.records, c.Ref()).None? && PointersLatest(s.records, s.current) && InvalidatedKnown(s.records, s.invalidated)
    ensures Live(Appended(s, c), c.Ref())
  {
    hide Find, Affected, Reconciled;
    if c.Key() in s.current && c.Ref() in Appended(s, c).invalidated {
      AffectedIff(s.records, s.current, s.invalidated, s.current[c.Key()], c.Ref());
      PointerFound(s.records, s.current, c.Key());
    }
  }

  lemma NewDependencyLive(s: State, c: Contract, d: ContractRef)
    requires Live(s, d) && d != c.Ref() && PointersLatest(s.records, s.current)
    ensures Live(Appended(s, c), d) <==>
      (c.Key() in s.current ==> d != s.current[c.Key()] && d !in Affected(s.records, s.current, s.invalidated, s.current[c.Key()]))
  {
    hide Affected, Reconciled, Find, PointersLatest;
    if c.Key() in s.current {
      PointerFound(s.records, s.current, c.Key());
    }
  }

  /**
    A commit keeps every live record's dependencies live exactly when the new revision
    depends neither on the revision it supersedes nor on anything that falls with it.
   */
  lemma CommitKeepsDependencies(s: State, c: Contract)
    requires StateValid(s) && DependenciesLive(s) && Committable(s, c) && Find(s.records, c.Ref()).None?
    ensures DependenciesLive(Appended(s, c)) <==> Independent(s, c)
  {
    hide Affected, Reconciled, DependenciesOf, Find, CrossObjectConsistent, RecordsUnique, RecordsValid, CachedIsReplay;
    hide ReservationsValid, PointersLatest, InvalidatedKnown, ContinuesPointer, ContinuesLineage, Live, Appended;
    var t := Appended(s, c);
    AppendedRecords(s, c);
    CommittedDependencies(s, c);
    CommittedIsLive(s, c);
    forall d | d in c.metadata.dependencies
      ensures Live(s, d) && d != c.Ref()
    {
      assert DependencyUsable(s, d);
    }
    forall d | d in c.metadata.dependencies
      ensures Live(t, d) <==>
        (c.Key() in s.current ==> d != s.current[c.Key()] && d !in Affected(s.records, s.current, s.invalidated, s.current[c.Key()]))
    {
      NewDependencyLive(s, c, d);
    }
    if Independent(s, c) {
      forall r, d | Live(t, r) && d in DependenciesOf(t.records, r)
        ensures Live(t, d)
      {
        if r != c.Ref() {
          SurvivorWasLive(s, c, r);
          DependenciesKept(s, c, r);
          SurvivorsKeepDependencies(s, c, r, d);
        }
      }
    }
  }

  lemma AppendedRecords(s: State, c: Contract)
    ensures Appended(s, c).records == s.records + [c]
  {
  }

  /** Every commit of a contract that is not yet recorded is independent of what it supersedes. */
  ghost predicate RunIndependent(ops: seq<Operation>) {
    forall n :: 0 <= n < |ops| ==>
      (ops[n].Commit? && Find(Run(ops[..n]).records, ops[n].contract.Ref()).None? ==> Independent(Run(ops[..n]), ops[n].contract))
  }

  lemma LogDecidesDependencies(s: State, t: State)
    requires DependenciesLive(s) && t.records == s.records && t.current == s.current && t.invalidated == s.invalidated
    ensures DependenciesLive(t)
  {
    forall r, d | Live(t, r) && d in DependenciesOf(t.records, r)
      ensures Live(t, d)
    {
      assert Live(s, r);
      assert Live(s, d);
    }
  }

  /** In runs of independent commits every live record has only live dependencies. */
  lemma {:induction false} RunsKeepDependencies(ops: seq<Operation>)
    requires RunIndependent(ops)
    ensures DependenciesLive(Run(ops))
  {
    hide DependenciesLive, StateValid, InFlightLive, SingleUse, ReceiptsCarried, Next, Run, RunIndependent;
    if ops == [] {
      EmptyDependencies();
    } else {
      var last := |ops| - 1;
      IndependentPrefix(ops);
      RunsKeepDependencies(ops[..last]);
      RunsAreSafe(ops[..last]);
      LastIndependent(ops);
      StepKeepsDependencies(Run(ops[..last]), ops[last]);
      assert ops == ops[..last] + [ops[last]];
      RunStep(ops[..last], ops[last]);
    }
  }

  lemma EmptyDependencies()
    ensures DependenciesLive(Run([]))
  {
  }

  lemma LastIndependent(ops: seq<Operation>)
    requires RunIndependent(ops) && ops != []
    ensures
      var s, op := Run(ops[..|ops| - 1]), ops[|ops| - 1];
      op.Commit? && Find(s.records, op.contract.Ref()).None? ==> Independent(s, op.contract)
  {
    hide Run, Find, Independent;
  }

  lemma IndependentPrefix(ops: seq<Operation>)
    requires RunIndependent(ops) && ops != []
    ensures RunIndependent(ops[..|ops| - 1])
  {
    hide Run, Find, Independent;
    assert forall n :: 0 <= n < |ops| - 1 ==> ops[..|ops| - 1][..n] == ops[..n];
  }

  lemma StepKeepsDependencies(s: State, op: Operation)
    requires StateValid(s) && DependenciesLive(s)
    requires op.Commit? && Find(s.records, op.contract.Ref()).None? ==> Independent(s, op.contract)
    ensures DependenciesLive(Next(s, op))
  {
    var t := Next(s, op);
    StepWritesLog(s, op);
    hide StateValid, DependenciesLive, Next, Appended, CommitCandidate, Find, Committable, Independent, Contract.Valid;
    if t.records == s.records && t.current == s.current && t.invalidated == s.invalidated {
      LogDecidesDependencies(s, t);
    } else {
      CommitKeepsDependencies(s, op.contract);
      AppendedRecords(s, op.contract);
      LogDecidesDependencies(Appended(s, op.contract), t);
    }
  }

  // ---------------------------------------------------------------- a revision that strands itself

  function Zeros(): (digest: string)
    ensures ValidDigest(digest)
  {
    seq(64, i => '0')
  }

  function IntentRevision(revision: nat, predecessor: Option<ContractRef>, dependencies: seq<ContractRef>): Contract {
    Intent(
      Metadata(IntentKind, 1, 1, 1, revision, predecessor, AuthorityContext("tenant", "actor", "scope", "purpose"),
               dependencies, "policy", 1),
      Zeros())
  }

  function First(): Contract {
    IntentRevision(1, None, [])
  }

  function Second(): Contract {
    IntentRevision(2, Some(First().Ref()), [First().Ref()])
  }

  lemma FirstCommits()
    ensures Run([Commit(First(), None, 0)]) == Appended(EMPTY, First())
  {
    EmptyIsValid();
    hide StateValid, Appended, Run, Next;
    PlainCommits(EMPTY, First());
    RunStep([], Commit(First(), None, 0));
    assert [] + [Commit(First(), None, 0)] == [Commit(First(), None, 0)];
    EmptyRun();
  }

  lemma EmptyRun()
    ensures Run([]) == EMPTY
  {
    hide Next;
  }

  lemma PlainCommits(s: State, c: Contract)
    requires StateValid(s) && c.Valid() && !c.ExecutionReceipt? && Committable(s, c) && Find(s.records, c.Ref()).None?
    ensures Next(s, Commit(c, None, 0)) == Appended(s, c)
  {
    CommitAccepted(s, c, None, 0);
    hide StateValid, Appended, Committable, Contract.Valid, Find;
  }

  lemma SecondCommittable(s: State)
    requires s == Appended(EMPTY, First())
    ensures Second().Intent? && DependenciesLive(s)
    ensures Second().Valid() && Committable(s, Second()) && Find(s.records, Second().Ref()).None? && !Independent(s, Second())
  {
    assert s.records == [First()];
    assert [First()][..0] == [];
    assert First().Ref() in Second().metadata.dependencies;
  }

  /**
    The metadata rules let a revision depend on the one it supersedes, and the store
    commits it: the live record is then left with a dependency that is no longer live.
   */
  lemma RevisionStrandsItself()
    ensures !DependenciesLive(Run([Commit(First(), None, 0), Commit(Second(), None, 0)]))
  {
    hide StateValid, DependenciesLive, InFlightLive, SingleUse, ReceiptsCarried, Committable, Independent, Find, Run;
    hide Appended, First, Second, IntentRevision, Contract.Valid;
    var first := [Commit(First(), None, 0)];
    var s := Run(first);
    RunsAreSafe(first);
    FirstCommits();
    SecondCommittable(s);
    RunStep(first, Commit(Second(), None, 0));
    assert first + [Commit(Second(), None, 0)] == [Commit(First(), None, 0), Commit(Second(), None, 0)];
    PlainCommits(s, Second());
    CommitKeepsDependencies(s, Second());
  }
}
