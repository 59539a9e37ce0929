/**
  What every run of the contract store keeps: valid snapshots, live in-flight attempts,
  final receipts, one-time values consumed once, and dependencies of live records live.
 */
module StoreSafety {
  import opened Wrappers
  import opened Contracts
  import opened Graphs
  import opened SigningBytes
  import opened StoreModel
  import opened StoreOperations
  import opened StoreSnapshot
  import opened StoreCommit

  // ---------------------------------------------------------------- single use

  /** Attempts are numbered from one, and all but the last ended in a state that permits a retry. */
  ghost predicate WellNumbered(r: Reservation) {
    && r.attempts != []
    && forall j :: 0 <= j < |r.attempts| ==>
         r.attempts[j].number == j + 1 && (j + 1 < |r.attempts| ==> r.attempts[j].status.PermitsRetry())
  }

  ghost predicate SingleUse(reservations: seq<Reservation>) {
    && ConsumedOnce(reservations) && ScopesUnique(reservations)
    && forall i :: 0 <= i < |reservations| ==> WellNumbered(reservations[i])
  }

  lemma LastChanged(reservations: seq<Reservation>, i: nat, b: Attempt)
    requires SingleUse(reservations) && i < |reservations|
    requires WellNumbered(reservations[i])
    requires SameBinding(reservations[i].attempts[|reservations[i].attempts| - 1], b)
    ensures SingleUse(WithAttempt(reservations, i, |reservations[i].attempts| - 1, b))
  {
    hide ConsumedOnce, ScopesUnique;
    var r := reservations[i];
    var after := WithAttempt(reservations, i, |r.attempts| - 1, b);
    assert SameHeader(r, after[i]);
    forall k | 0 <= k < |after|
      ensures SameHeader(reservations[k], after[k]) && WellNumbered(after[k])
    {
      if k != i {
        assert after[k] == reservations[k];
      }
    }
    ShapeKeepsSeparation(reservations, after);
  }

  lemma CancelKeepsNumbers(r: Reservation)
    requires WellNumbered(r)
    ensures WellNumbered(CancelLast(r))
  {
  }

  lemma ReconciledKeepsSingleUse(
    reservations: seq<Reservation>, current: map<ContractKey, ContractRef>, invalidated: set<ContractRef>, stale: ContractRef)
    requires SingleUse(reservations)
    ensures SingleUse(Reconciled(reservations, current, invalidated, stale))
  {
    hide ConsumedOnce, ScopesUnique, LosesAction, CancelLast, WellNumbered;
    var after := Reconciled(reservations, current, invalidated, stale);
    ReconciledKeepsShape(reservations, current, invalidated, stale);
    ShapeKeepsSeparation(reservations, after);
    forall k | 0 <= k < |after|
      ensures WellNumbered(after[k])
    {
      CancelKeepsNumbers(reservations[k]);
    }
  }

  /** An attempt that waits for a receipt is the last of its reservation. */
  lemma AwaitingIsLast(r: Reservation, j: nat)
    requires WellNumbered(r) && j < |r.attempts| && !r.attempts[j].status.PermitsRetry()
    ensures j == |r.attempts| - 1
  {
  }

  lemma SettleKeepsSingleUse(reservations: seq<Reservation>, c: Contract, proof: ReceiptProof)
    requires SingleUse(reservations) && c.ExecutionReceipt? && Settle(reservations, c, proof).Ok?
    ensures SingleUse(Settle(reservations, c, proof).value)
  {
    hide ConsumedOnce, ScopesUnique;
    var i := FindReservation(reservations, c.receipt.actionRef).value;
    var j := FindAttempt(reservations[i].attempts, c.receipt.permitId).value;
    assert WellNumbered(reservations[i]);
    AwaitingIsLast(reservations[i], j);
    LastChanged(reservations, i, SettleAttempt(reservations[i].attempts[j], c, proof));
  }

  lemma CommitKeepsSingleUse(s: State, c: Contract, proof: Option<ReceiptProof>)
    requires SingleUse(s.reservations) && c.ExecutionReceipt? == proof.Some? && CommitCandidate(s, c, proof).Ok?
    ensures SingleUse(CommitCandidate(s, c, proof).value.reservations)
  {
    hide SingleUse, Affected, Settle, Reconciled;
    var t := Appended(s, c);
    if c.Key() in s.current {
      ReconciledKeepsSingleUse(s.reservations, s.current, t.invalidated, s.current[c.Key()]);
    }
    if proof.Some? {
      SettleKeepsSingleUse(t.reservations, c, proof.value);
    }
  }

  /** None of the values the attempt consumes has been consumed before. */
  ghost predicate Unconsumed(reservations: seq<Reservation>, a: Attempt) {
    !ProofSeen(reservations, a.proofId, a.nonce) && !AuthorizationSeen(reservations, a.authorization.id)
  }

  lemma UnconsumedApart(reservations: seq<Reservation>, a: Attempt, i: nat, m: nat)
    requires Unconsumed(reservations, a) && i < |reservations| && m < |reservations[i].attempts|
    ensures ConsumesApart(reservations[i].attempts[m], a) && ConsumesApart(a, reservations[i].attempts[m])
  {
  }

  lemma AddedConsumesOnce(reservations: seq<Reservation>, k: nat, a: Attempt)
    requires ConsumedOnce(reservations) && Unconsumed(reservations, a) && k < |reservations|
    ensures ConsumedOnce(AddAttempt(reservations, k, a))
  {
    hide Unconsumed;
    var after := AddAttempt(reservations, k, a);
    forall i, m, j, n |
      0 <= i < |after| && 0 <= m < |after[i].attempts| &&
      0 <= j < |after| && 0 <= n < |after[j].attempts| && (i < j || (i == j && m < n))
      ensures ConsumesApart(after[i].attempts[m], after[j].attempts[n])
    {
      if i == k && m == |reservations[k].attempts| {
        UnconsumedApart(reservations, a, j, n);
      } else if j == k && n == |reservations[k].attempts| {
        assert after[i].attempts[m] == reservations[i].attempts[m];
        UnconsumedApart(reservations, a, i, m);
      } else {
        assert after[i].attempts[m] == reservations[i].attempts[m];
        assert after[j].attempts[n] == reservations[j].attempts[n];
        assert ConsumesApart(reservations[i].attempts[m], reservations[j].attempts[n]);
      }
    }
  }

  lemma ReservedConsumesOnce(reservations: seq<Reservation>, r: Reservation, a: Attempt)
    requires ConsumedOnce(reservations) && Unconsumed(reservations, a) && r.attempts == [a]
    ensures ConsumedOnce(reservations + [r])
  {
    hide Unconsumed;
    var after := reservations + [r];
    forall i, m, j, n |
      0 <= i < |after| && 0 <= m < |after[i].attempts| &&
      0 <= j < |after| && 0 <= n < |after[j].attempts| && (i < j || (i == j && m < n))
      ensures ConsumesApart(after[i].attempts[m], after[j].attempts[n])
    {
      assert after[i] == reservations[i];
      if j == |reservations| {
        UnconsumedApart(reservations, a, i, m);
      } else {
        assert after[j] == reservations[j];
        assert ConsumesApart(reservations[i].attempts[m], reservations[j].attempts[n]);
      }
    }
  }

  lemma ReserveKeepsSingleUse(reservations: seq<Reservation>, action: Contract, a: Attempt, freshId: Id)
    requires SingleUse(reservations) && action.Action? && Unconsumed(reservations, a)
    requires Reserve(reservations, action, a, freshId).Ok?
    ensures SingleUse(Reserve(reservations, action, a, freshId).value.1)
  {
    hide ConsumedOnce, Unconsumed;
    var after := Reserve(reservations, action, a, freshId).value.1;
    var conflict := Conflict(reservations, action);
    if conflict.Some? {
      AddedConsumesOnce(reservations, conflict.value, a);
      forall k | 0 <= k < |after|
        ensures WellNumbered(after[k])
      {
        assert WellNumbered(reservations[k]);
      }
    } else {
      ReservedConsumesOnce(reservations, after[|reservations|], a);
      forall k | 0 <= k < |reservations|
        ensures WellNumbered(after[k])
      {
        assert after[k] == reservations[k];
      }
    }
  }

  lemma IssueConsumesFresh(s: State, v: VerifiedRequest, freshId: Id, now: nat)
    requires PlanIssue(s, v, freshId, now).write.Some?
    ensures Unconsumed(s.reservations, NewAttempt(v, now))
    ensures
      var found := Find(s.records, v.request.actionRef);
      && Live(s, v.request.actionRef) && found.Some? && found.value.Action? && v.ValidAt(found.value, now)
      && Reserve(s.reservations, found.value, NewAttempt(v, now), freshId).Ok?
      && PlanIssue(s, v, freshId, now).write.value ==
           s.(reservations := Reserve(s.reservations, found.value, NewAttempt(v, now), freshId).value.1)
  {
    hide Find, Reserve, ProofSeen, AuthorizationSeen, Authorization.ValidFor;
  }

  /** What a mark or recover call writes: the last attempt of one reservation, with its binding. */
  lemma MarkWritesLast(s: State, op: Operation) returns (i: nat, b: Attempt)
    requires op.MarkPermit? || op.Recover?
    requires Plan(s, op).write.Some?
    ensures i < |s.reservations| && s.reservations[i].attempts != []
    ensures
      var a := s.reservations[i].attempts[|s.reservations[i].attempts| - 1];
      && SameBinding(a, b) && b.receiptRef == a.receiptRef
      && (b.status.InFlight() ==> Live(s, s.reservations[i].actionRef))
      && b.status.PermitIssued? == false && (b.status.InFlight() || b.status.ReconciliationRequired? || b.status.Cancelled? || b.status.Expired?)
    ensures Plan(s, op).write.value == s.(reservations := WithAttempt(s.reservations, i, |s.reservations[i].attempts| - 1, b))
  {
    match op
    case MarkPermit(permit, mark, now) =>
      i := FindById(s.reservations, permit.reservationId).value;
      var a := s.reservations[i].attempts[|s.reservations[i].attempts| - 1];
      b := if !Live(s, s.reservations[i].actionRef) then Abandoned(a)
           else if LeaseOver(a, now) then a.(status := Expired) else Advance(a, mark, now);
    case Recover(actionRef, owner, now) =>
      var k := FindReservation(s.reservations, actionRef).value;
      i := FindById(s.reservations, s.reservations[k].id).value;
      b := s.reservations[i].attempts[|s.reservations[i].attempts| - 1].(status := Expired);
  }

  /**
    Whatever an operation writes, validated or not, consumes every one-time value at most
    once, keeps actions and scopes reserved once, and numbers attempts from one with all
    but the last retryable.
   */
  lemma OperationsKeepSingleUse(s: State, op: Operation)
    requires SingleUse(s.reservations) && Plan(s, op).write.Some?
    ensures SingleUse(Plan(s, op).write.value.reservations)
  {
    hide SingleUse, Reserve, CommitCandidate, Find, Committable, PlanIssue;
    match op
    case Commit(c, proof, _) => CommitKeepsSingleUse(s, c, proof);
    case Issue(v, freshId, now) =>
      IssueConsumesFresh(s, v, freshId, now);
      ReserveKeepsSingleUse(s.reservations, Find(s.records, v.request.actionRef).value, NewAttempt(v, now), freshId);
    case _ =>
      var i, b := MarkWritesLast(s, op);
      assert WellNumbered(s.reservations[i]) by { NumberedEach(s.reservations, i); }
      LastChanged(s.reservations, i, b);
  }

  lemma NumberedEach(reservations: seq<Reservation>, i: nat)
    requires SingleUse(reservations) && i < |reservations|
    ensures WellNumbered(reservations[i])
  {
    hide ConsumedOnce, ScopesUnique, WellNumbered;
  }

  // ---------------------------------------------------------------- in-flight attempts are live

  /** An attempt in flight is its reservation's last, and its action is current and not invalidated. */
  ghost predicate InFlightLive(s: State) {
    && (forall i :: 0 <= i < |s.reservations| ==> s.reservations[i].actionRef.kind.ActionKind?)
    && (forall i, j :: 0 <= i < |s.reservations| && 0 <= j < |s.reservations[i].attempts| ==>
          s.reservations[i].attempts[j].status.InFlight() ==>
            (j == |s.reservations[i].attempts| - 1 && Live(s, s.reservations[i].actionRef)))
  }

  /** Losing the action ends the flight; every other reservation keeps its live action. */
  lemma AppendedKeepsInFlightLive(s: State, c: Contract)
    requires InFlightLive(s)
    ensures InFlightLive(Appended(s, c))
  {
    hide Affected;
    var t := Appended(s, c);
    forall i, j | 0 <= i < |t.reservations| && 0 <= j < |t.reservations[i].attempts| && t.reservations[i].attempts[j].status.InFlight()
      ensures j == |t.reservations[i].attempts| - 1 && Live(t, t.reservations[i].actionRef)
    {
      var r := s.reservations[i];
      assert |t.reservations[i].attempts| == |r.attempts| && t.reservations[i].actionRef == r.actionRef;
      assert r.attempts[j].status.InFlight();
      if c.Key() in s.current {
        assert !LosesAction(r, s.current, t.invalidated, s.current[c.Key()]);
        assert r.actionRef.Key() != c.Key();
      }
    }
  }

  lemma SettleEndsFlight(s: State, c: Contract, proof: ReceiptProof)
    requires InFlightLive(s) && c.ExecutionReceipt? && Settle(s.reservations, c, proof).Ok?
    ensures InFlightLive(s.(reservations := Settle(s.reservations, c, proof).value))
  {
    var after := Settle(s.reservations, c, proof).value;
    var k := FindReservation(s.reservations, c.receipt.actionRef).value;
    var l := FindAttempt(s.reservations[k].attempts, c.receipt.permitId).value;
    forall i, j | 0 <= i < |after| && 0 <= j < |after[i].attempts| && after[i].attempts[j].status.InFlight()
      ensures j == |after[i].attempts| - 1 && Live(s, after[i].actionRef)
    {
      assert !(i == k && j == l);
      assert s.reservations[i].attempts[j] == after[i].attempts[j];
    }
  }

  lemma ReserveStartsLive(s: State, action: Contract, a: Attempt, freshId: Id)
    requires InFlightLive(s) && action.Action? && Live(s, action.Ref()) && Reserve(s.reservations, action, a, freshId).Ok?
    ensures InFlightLive(s.(reservations := Reserve(s.reservations, action, a, freshId).value.1))
  {
    var after := Reserve(s.reservations, action, a, freshId).value.1;
    forall i, j | 0 <= i < |after| && 0 <= j < |after[i].attempts| && after[i].attempts[j].status.InFlight()
      ensures j == |after[i].attempts| - 1 && Live(s, after[i].actionRef)
    {
      var conflict := Conflict(s.reservations, action);
      if conflict == Some(i) {
        var r := s.reservations[i];
        if j < |r.attempts| {
          assert r.attempts[j] == after[i].attempts[j];
          assert r.attempts[|r.attempts| - 1].status.PermitsRetry();
        }
      } else if i < |s.reservations| {
        assert after[i] == s.reservations[i];
      }
    }
  }

  lemma LastKeepsInFlightLive(s: State, i: nat, b: Attempt)
    requires InFlightLive(s) && i < |s.reservations| && s.reservations[i].attempts != []
    requires b.status.InFlight() ==> Live(s, s.reservations[i].actionRef)
    ensures InFlightLive(s.(reservations := WithAttempt(s.reservations, i, |s.reservations[i].attempts| - 1, b)))
  {
    var after := WithAttempt(s.reservations, i, |s.reservations[i].attempts| - 1, b);
    forall k, j | 0 <= k < |after| && 0 <= j < |after[k].attempts| && after[k].attempts[j].status.InFlight()
      ensures j == |after[k].attempts| - 1 && Live(s, after[k].actionRef)
    {
      if k != i || j < |s.reservations[i].attempts| - 1 {
        assert after[k].attempts[j] == s.reservations[k].attempts[j];
      }
    }
  }

  /** No validator checks it, yet every operation keeps in-flight attempts last and live. */
  lemma OperationsKeepInFlightLive(s: State, op: Operation)
    requires InFlightLive(s) && Plan(s, op).write.Some?
    ensures InFlightLive(Plan(s, op).write.value)
  {
    hide Reserve, Find, Committable, PlanIssue, Affected, Reconciled, Settle, InFlightLive;
    match op
    case Commit(c, proof, _) =>
      AppendedKeepsInFlightLive(s, c);
      if proof.Some? {
        SettleEndsFlight(Appended(s, c), c, proof.value);
      }
    case Issue(v, freshId, now) =>
      IssueConsumesFresh(s, v, freshId, now);
      ReserveStartsLive(s, Find(s.records, v.request.actionRef).value, NewAttempt(v, now), freshId);
    case _ =>
      var i, b := MarkWritesLast(s, op);
      LastKeepsInFlightLive(s, i, b);
  }

  // ---------------------------------------------------------------- receipts are final

  /** Every attempt that carries a receipt in `s` stands unchanged in `t`. */
  ghost predicate ReceiptsKept(s: State, t: State) {
    forall i, j :: 0 <= i < |s.reservations| && 0 <= j < |s.reservations[i].attempts| ==>
      s.reservations[i].attempts[j].receiptRef.Some? ==>
        (i < |t.reservations| && j < |t.reservations[i].attempts|
         && t.reservations[i].attempts[j] == s.reservations[i].attempts[j])
  }

  /** Receipted attempts are in a status that cancellation leaves alone. */
  ghost predicate ReceiptedSettled(reservations: seq<Reservation>) {
    forall i, j :: 0 <= i < |reservations| && 0 <= j < |reservations[i].attempts| ==>
      StatusTimingValid(reservations[i].attempts[j])
  }

  lemma ValidIsSettled(s: State)
    requires StateValid(s)
    ensures ReceiptedSettled(s.reservations)
  {
    hide RecordsUnique, RecordsValid, PointersLatest, InvalidatedKnown, CachedIsReplay;
    hide ConsumedOnce, ScopesUnique, ReservationIdsUnique, AttemptBound, ReceiptLinkValid, StatusTimingValid, Find;
    forall i, j | 0 <= i < |s.reservations| && 0 <= j < |s.reservations[i].attempts|
      ensures StatusTimingValid(s.reservations[i].attempts[j])
    {
      assert ReservationValid(s.records, s.reservations[i]);
    }
  }

  lemma CancelKeepsReceipted(r: Reservation, j: nat)
    requires j < |r.attempts| && StatusTimingValid(r.attempts[j]) && r.attempts[j].receiptRef.Some?
    ensures |CancelLast(r).attempts| == |r.attempts| && CancelLast(r).attempts[j] == r.attempts[j]
  {
  }

  lemma AppendedKeepsReceipts(s: State, c: Contract)
    requires ReceiptedSettled(s.reservations)
    ensures ReceiptsKept(s, Appended(s, c))
  {
    hide StatusTimingValid, CancelLast, LosesAction, Affected;
    var t := Appended(s, c);
    forall i, j | 0 <= i < |s.reservations| && 0 <= j < |s.reservations[i].attempts| && s.reservations[i].attempts[j].receiptRef.Some?
      ensures i < |t.reservations| && j < |t.reservations[i].attempts| && t.reservations[i].attempts[j] == s.reservations[i].attempts[j]
    {
      CancelKeepsReceipted(s.reservations[i], j);
    }
  }

  lemma SettleKeepsReceipts(s: State, t: State, c: Contract, proof: ReceiptProof)
    requires ReceiptsKept(s, t) && ReceiptedSettled(s.reservations) && SameBindings(s.reservations, t.reservations)
    requires c.ExecutionReceipt? && Settle(t.reservations, c, proof).Ok?
    ensures ReceiptsKept(s, t.(reservations := Settle(t.reservations, c, proof).value))
  {
    hide SameBindings;
    var after := Settle(t.reservations, c, proof).value;
    var k := FindReservation(t.reservations, c.receipt.actionRef).value;
    var l := FindAttempt(t.reservations[k].attempts, c.receipt.permitId).value;
    forall i, j | 0 <= i < |s.reservations| && 0 <= j < |s.reservations[i].attempts| && s.reservations[i].attempts[j].receiptRef.Some?
      ensures i < |after| && j < |after[i].attempts| && after[i].attempts[j] == s.reservations[i].attempts[j]
    {
      assert t.reservations[i].attempts[j] == s.reservations[i].attempts[j];
      assert StatusTimingValid(s.reservations[i].attempts[j]);
      assert !(i == k && j == l);
    }
  }

  lemma ReserveKeepsReceipts(s: State, action: Contract, a: Attempt, freshId: Id)
    requires action.Action? && Reserve(s.reservations, action, a, freshId).Ok?
    ensures ReceiptsKept(s, s.(reservations := Reserve(s.reservations, action, a, freshId).value.1))
  {
  }

  /** A write the validator accepts never touches an attempt that carries a receipt. */
  lemma LastKeepsReceipts(s: State, i: nat, b: Attempt)
    requires i < |s.reservations| && s.reservations[i].attempts != []
    requires b.receiptRef == s.reservations[i].attempts[|s.reservations[i].attempts| - 1].receiptRef
    requires b.status.InFlight() || b.status.ReconciliationRequired? || b.status.Cancelled? || b.status.Expired?
    requires StatusTimingValid(b)
    ensures ReceiptsKept(s, s.(reservations := WithAttempt(s.reservations, i, |s.reservations[i].attempts| - 1, b)))
  {
  }

  lemma WrittenIsTimed(s: State, i: nat, j: nat)
    requires StateValid(s) && i < |s.reservations| && j < |s.reservations[i].attempts|
    ensures StatusTimingValid(s.reservations[i].attempts[j])
  {
    hide StatusTimingValid, StateValid;
    ValidIsSettled(s);
  }

  lemma CommitKeepsReceipts(s: State, c: Contract, proof: Option<ReceiptProof>)
    requires StateValid(s) && c.ExecutionReceipt? == proof.Some? && CommitCandidate(s, c, proof).Ok?
    ensures ReceiptsKept(s, CommitCandidate(s, c, proof).value)
  {
    ValidIsSettled(s);
    ClearedStaysValid(s, c);
    hide StateValid, Settle, ReceiptedSettled, SameBindings, ReceiptsKept, Appended;
    AppendedKeepsReceipts(s, c);
    if proof.Some? {
      SettleKeepsReceipts(s, Appended(s, c), c, proof.value);
    }
  }

  lemma MarkKeepsReceipts(s: State, op: Operation)
    requires op.MarkPermit? || op.Recover?
    requires Plan(s, op).write.Some? && StateValid(Plan(s, op).write.value)
    ensures ReceiptsKept(s, Plan(s, op).write.value)
  {
    hide StateValid, Plan, StatusTimingValid, ReceiptsKept;
    var i, b := MarkWritesLast(s, op);
    var last := |s.reservations[i].attempts| - 1;
    WrittenIsTimed(Plan(s, op).write.value, i, last);
    LastKeepsReceipts(s, i, b);
  }

  lemma NothingKeepsReceipts(s: State)
    ensures ReceiptsKept(s, s)
  {
  }

  /** No operation changes an attempt that carries a receipt: not a late mark, an expiry, an invalidation or a retry. */
  lemma StepKeepsReceipts(s: State, op: Operation)
    requires StateValid(s)
    ensures ReceiptsKept(s, Next(s, op))
  {
    hide StateValid, Reserve, Find, Committable, PlanIssue, CommitCandidate, ReceiptsKept, PlanMark, PlanRecover;
    NothingKeepsReceipts(s);
    if Plan(s, op).write.Some? && StateValid(Plan(s, op).write.value) {
      match op
      case Commit(c, proof, _) => CommitKeepsReceipts(s, c, proof);
      case Issue(v, freshId, now) =>
        IssueConsumesFresh(s, v, freshId, now);
        ReserveKeepsReceipts(s, Find(s.records, v.request.actionRef).value, NewAttempt(v, now), freshId);
      case _ => MarkKeepsReceipts(s, op);
    }
  }
}
