/**
  What receipts decide: in every run an attempt ends exactly as its receipt reports, no
  attempt follows a reported effect, and which attempt may come next.
 */
module StoreReceipts {
  import opened Wrappers
  import opened Contracts
  import opened SigningBytes
  import opened StoreModel
  import opened StoreOperations
  import opened StoreSnapshot
  import opened StoreCommit
  import opened StoreSafety
  import opened StoreIssue
  import opened StoreRuns
  import opened StoreMarks

  // ---------------------------------------------------------------- an attempt ends as its receipt says

  /** Status and report name the same one of the five outcomes. */
  predicate Tells(state: ReceiptState, status: Status) {
    && (state.ReceiptSucceeded? <==> status.Succeeded?)
    && (state.ReceiptFailed? <==> status.Failed?)
    && (state.ReceiptPartiallySucceeded? <==> status.PartiallySucceeded?)
    && (state.ReceiptRejected? <==> status.Rejected?)
    && (state.ReceiptCompensated? <==> status.Compensated?)
  }

  /** If the attempt carries a receipt, that is recorded and tells its status. */
  ghost predicate Told(records: seq<Contract>, a: Attempt) {
    a.receiptRef.Some? ==>
      var found := Find(records, a.receiptRef.value);
      found.Some? && found.value.ExecutionReceipt? && Tells(found.value.receipt.state, a.status)
  }

  ghost predicate ReceiptsTold(s: State) {
    forall i, j :: 0 <= i < |s.reservations| && 0 <= j < |s.reservations[i].attempts| ==> Told(s.records, s.reservations[i].attempts[j])
  }

  lemma ToldStays(records: seq<Contract>, c: Contract, a: Attempt)
    requires Told(records, a)
    ensures Told(records + [c], a)
  {
    FindAppended(records, c);
    hide Find;
  }

  lemma AppendedStaysTold(s: State, c: Contract)
    requires ReceiptsTold(s) && ReceiptedSettled(s.reservations)
    ensures ReceiptsTold(Appended(s, c))
  {
    hide Told, StatusTimingValid, CancelLast, LosesAction, Affected;
    var t := Appended(s, c);
    forall i, j | 0 <= i < |t.reservations| && 0 <= j < |t.reservations[i].attempts|
      ensures Told(t.records, t.reservations[i].attempts[j])
    {
      CancelKeepsReceiptless(s.reservations[i]);
      var a := s.reservations[i].attempts[j];
      assert Told(s.records, a) && StatusTimingValid(a);
      if t.reservations[i].attempts[j].receiptRef.Some? {
        CancelKeepsReceipted(s.reservations[i], j);
        ToldStays(s.records, c, a);
      } else {
        ReceiptlessIsTold(t.records, t.reservations[i].attempts[j]);
      }
    }
  }

  lemma CancelKeepsReceiptless(r: Reservation)
    ensures |CancelLast(r).attempts| == |r.attempts|
    ensures forall j :: 0 <= j < |r.attempts| ==> CancelLast(r).attempts[j].receiptRef == r.attempts[j].receiptRef
  {
  }

  lemma ReceiptlessIsTold(records: seq<Contract>, a: Attempt)
    requires a.receiptRef.None?
    ensures Told(records, a)
  {
  }

  lemma SettledIsTold(s: State, c: Contract, proof: ReceiptProof)
    requires ReceiptsTold(s) && c.ExecutionReceipt? && Find(s.records, c.Ref()) == Some(c) && Settle(s.reservations, c, proof).Ok?
    ensures ReceiptsTold(s.(reservations := Settle(s.reservations, c, proof).value))
  {
    hide Find;
    var after := Settle(s.reservations, c, proof).value;
    var k := FindReservation(s.reservations, c.receipt.actionRef).value;
    var l := FindAttempt(s.reservations[k].attempts, c.receipt.permitId).value;
    forall i, j | 0 <= i < |after| && 0 <= j < |after[i].attempts|
      ensures Told(s.records, after[i].attempts[j])
    {
      if !(i == k && j == l) {
        assert after[i].attempts[j] == s.reservations[i].attempts[j];
      }
    }
  }

  lemma CommitStaysTold(s: State, c: Contract, proof: Option<ReceiptProof>)
    requires StateValid(s) && ReceiptsTold(s) && c.ExecutionReceipt? == proof.Some? && CommitCandidate(s, c, proof).Ok?
    requires Find(s.records, c.Ref()).None?
    ensures ReceiptsTold(CommitCandidate(s, c, proof).value)
  {
    ValidIsSettled(s);
    AppendedRecords(s, c);
    FindAppended(s.records, c);
    hide StateValid, Settle, ReceiptedSettled, ReceiptsTold, Appended, Find;
    AppendedStaysTold(s, c);
    if proof.Some? {
      SettledIsTold(Appended(s, c), c, proof.value);
    }
  }

  lemma IssuedStaysTold(s: State, action: Contract, a: Attempt, freshId: Id)
    requires ReceiptsTold(s) && action.Action? && a.receiptRef.None? && Reserve(s.reservations, action, a, freshId).Ok?
    ensures ReceiptsTold(s.(reservations := Reserve(s.reservations, action, a, freshId).value.1))
  {
    hide Told, Find;
    var after := Reserve(s.reservations, action, a, freshId).value.1;
    forall i, j | 0 <= i < |after| && 0 <= j < |after[i].attempts|
      ensures Told(s.records, after[i].attempts[j])
    {
      if i < |s.reservations| && j < |s.reservations[i].attempts| {
        assert after[i].attempts[j] == s.reservations[i].attempts[j];
      } else {
        ReceiptlessIsTold(s.records, after[i].attempts[j]);
      }
    }
  }

  lemma MarkStaysTold(s: State, op: Operation)
    requires ReceiptsTold(s) && (op.MarkPermit? || op.Recover?)
    requires Plan(s, op).write.Some? && StateValid(Plan(s, op).write.value)
    ensures ReceiptsTold(Plan(s, op).write.value)
  {
    hide StateValid, Plan, Told, Find;
    var i, b := MarkWritesLast(s, op);
    var t := Plan(s, op).write.value;
    assert t == WithLast(s, i, b);
    if b.receiptRef.Some? {
      ReceiptedWriteRefused(s, i, b);
    }
    forall k, j | 0 <= k < |t.reservations| && 0 <= j < |t.reservations[k].attempts|
      ensures Told(t.records, t.reservations[k].attempts[j])
    {
      if t.reservations[k].attempts[j] == b {
        ReceiptlessIsTold(t.records, b);
      } else {
        assert t.reservations[k].attempts[j] == s.reservations[k].attempts[j];
      }
    }
  }

  lemma StepStaysTold(s: State, op: Operation)
    requires StateValid(s) && ReceiptsTold(s)
    ensures ReceiptsTold(Next(s, op))
  {
    hide StateValid, ReceiptsTold, Reserve, Find, Committable, PlanIssue, CommitCandidate, PlanMark, PlanRecover;
    if Plan(s, op).write.Some? && StateValid(Plan(s, op).write.value) {
      match op
      case Commit(c, proof, _) => CommitStaysTold(s, c, proof);
      case Issue(v, freshId, now) =>
        IssueConsumesFresh(s, v, freshId, now);
        IssuedStaysTold(s, Find(s.records, v.request.actionRef).value, NewAttempt(v, now), freshId);
      case _ => MarkStaysTold(s, op);
    }
  }

  /** In every reachable state an attempt that carries a receipt succeeded, failed, and so on, exactly as that reports. */
  lemma {:induction false} RunsTellReceipts(ops: seq<Operation>)
    ensures ReceiptsTold(Run(ops))
  {
    hide ReceiptsTold, Next, StateValid;
    if ops == [] {
      NothingTold();
    } else {
      RunsTellReceipts(ops[..|ops| - 1]);
      RunsAreSafe(ops[..|ops| - 1]);
      StepStaysTold(Run(ops[..|ops| - 1]), ops[|ops| - 1]);
    }
  }

  lemma NothingTold()
    ensures ReceiptsTold(EMPTY)
  {
  }

  // ---------------------------------------------------------------- what may follow

  predicate ReportsEffect(state: ReceiptState) {
    state.ReceiptSucceeded? || state.ReceiptPartiallySucceeded? || state.ReceiptCompensated?
  }

  /** The recorded receipt of the attempt, if it carries one. */
  ghost function ReceiptOf(s: State, a: Attempt): Option<ReceiptState> {
    if a.receiptRef.None? then None
    else
      var found := Find(s.records, a.receiptRef.value);
      if found.Some? && found.value.ExecutionReceipt? then Some(found.value.receipt.state) else None
  }

  /** No attempt follows one whose receipt reports success, partial success or compensation. */
  lemma NothingFollowsEffect(ops: seq<Operation>, i: nat, j: nat)
    requires i < |Run(ops).reservations| && j < |Run(ops).reservations[i].attempts|
    requires
      var reported := ReceiptOf(Run(ops), Run(ops).reservations[i].attempts[j]);
      reported.Some? && ReportsEffect(reported.value)
    ensures j == |Run(ops).reservations[i].attempts| - 1
  {
    hide Run, Find, StateValid, InFlightLive, ReceiptsCarried;
    RunsTellReceipts(ops);
    RunsAreSafe(ops);
    assert Told(Run(ops).records, Run(ops).reservations[i].attempts[j]);
    NumberedEach(Run(ops).reservations, i);
  }

  /**
    A verified request for an action that is already reserved is granted exactly as the next
    attempt after one that failed, was rejected or expired.
   */
  lemma RetryDecided(s: State, i: nat, action: Contract, v: VerifiedRequest, freshId: Id, now: nat)
    requires StateValid(s) && SingleUse(s.reservations) && v.Bound()
    requires freshId != 0 && forall k :: 0 <= k < |s.reservations| ==> s.reservations[k].id != freshId
    requires i < |s.reservations| && s.reservations[i].attempts != []
    requires Live(s, v.request.actionRef) && Find(s.records, v.request.actionRef) == Some(action) && action.Action?
    requires s.reservations[i].actionRef == v.request.actionRef && v.ValidAt(action, now)
    requires !ProofSeen(s.reservations, v.envelope.claims.proofId, v.envelope.claims.nonce)
    requires !AuthorizationSeen(s.reservations, v.request.authorizationId)
    ensures
      var a := LastOf(s.reservations[i]);
      Reported(s, Issue(v, freshId, now)).Ok? <==>
      (&& (a.status.Failed? || a.status.Rejected? || a.status.Expired?)
       && v.request.attempt == |s.reservations[i].attempts| + 1 && |s.reservations[i].attempts| < 0xFFFF_FFFF)
  {
    hide *;
    IssueAccepted(s, v, freshId, now);
    IdsUnique(s);
    ScopeOfAction(s, i, action);
    NumberedEach(s.reservations, i);
    ConflictIs(s.reservations, i, action);
    PlansIssue(s, v, freshId, now);
    Carries(s, Issue(v, freshId, now));
    IssueIntends(s, i, action, v, freshId, now);
  }

  lemma ScopeOfAction(s: State, i: nat, action: Contract)
    requires StateValid(s) && i < |s.reservations| && Find(s.records, s.reservations[i].actionRef) == Some(action) && action.Action?
    ensures SameScope(s.reservations[i], action) && action.Ref() == s.reservations[i].actionRef
  {
    hide Find, RecordsUnique, RecordsValid, PointersLatest, InvalidatedKnown, CachedIsReplay, ConsumedOnce, ScopesUnique;
    hide ReservationIdsUnique, AttemptBound, ReceiptLinkValid, TimingValid;
    assert ReservationValid(s.records, s.reservations[i]);
  }

  lemma ConflictIs(reservations: seq<Reservation>, i: nat, action: Contract)
    requires ScopesUnique(reservations) && i < |reservations| && action.Action?
    requires reservations[i].actionRef == action.Ref() && SameScope(reservations[i], action)
    ensures Conflict(reservations, action) == Some(i)
  {
    hide Conflict;
    var k := Conflict(reservations, action).value;
  }

  lemma PlansIssue(s: State, v: VerifiedRequest, freshId: Id, now: nat)
    ensures Plan(s, Issue(v, freshId, now)) == PlanIssue(s, v, freshId, now)
  {
    hide PlanIssue;
  }

  lemma IssueIntends(s: State, i: nat, action: Contract, v: VerifiedRequest, freshId: Id, now: nat)
    requires action.Action? && i < |s.reservations| && Conflict(s.reservations, action) == Some(i)
    requires s.reservations[i].actionRef == action.Ref() && SameScope(s.reservations[i], action) && WellNumbered(s.reservations[i])
    requires Live(s, v.request.actionRef) && Find(s.records, v.request.actionRef) == Some(action) && v.ValidAt(action, now)
    requires !ProofSeen(s.reservations, v.envelope.claims.proofId, v.envelope.claims.nonce)
    requires !AuthorizationSeen(s.reservations, v.request.authorizationId)
    ensures
      var a, plan := LastOf(s.reservations[i]), Plan(s, Issue(v, freshId, now));
      && (plan.write.Some? <==> plan.result.Ok?)
      && (plan.result.Ok? <==>
          (&& (a.status.Failed? || a.status.Rejected? || a.status.Expired?)
           && v.request.attempt == |s.reservations[i].attempts| + 1 && |s.reservations[i].attempts| < 0xFFFF_FFFF))
  {
    hide Find, Live, ProofSeen, AuthorizationSeen, Conflict, AddAttempt, VerifiedRequest.ValidAt;
  }
}
