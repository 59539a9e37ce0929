/**
  Marking and recovering permits: exactly when each succeeds, that every delivery and dispatch
  lies inside the three limits of its permit, and what a late mark does to an attempt that
  was dispatched.
 */
module StoreMarks {
  import opened Wrappers
  import opened Contracts
  import opened SigningBytes
  import opened StoreModel
  import opened StoreOperations
  import opened StoreSnapshot
  import opened StoreCommit
  import opened StoreSafety
  import opened StoreRuns

  function LastOf(r: Reservation): Attempt
    requires r.attempts != []
  {
    r.attempts[|r.attempts| - 1]
  }

  /** The state with the last attempt of reservation `i` replaced. */
  function WithLast(s: State, i: nat, b: Attempt): State
    requires i < |s.reservations| && s.reservations[i].attempts != []
  {
    s.(reservations := WithAttempt(s.reservations, i, |s.reservations[i].attempts| - 1, b))
  }

  // ---------------------------------------------------------------- what the validator accepts

  /** A recorded receipt that matches an attempt settled it. */
  lemma MatchedIsCarried(s: State, k: nat, i: nat, j: nat)
    requires StateValid(s) && ReceiptsCarried(s) && k < |s.records| && s.records[k].ExecutionReceipt?
    requires i < |s.reservations| && j < |s.reservations[i].attempts|
    requires s.records[k].receipt.permitId == s.reservations[i].attempts[j].permitId
    ensures s.reservations[i].attempts[j].receiptRef.Some?
  {
    hide Find, RecordsValid, PointersLatest, InvalidatedKnown, CachedIsReplay, ReservationValid, ReservationsValid;
    var ref := s.records[k].Ref();
    assert Carried(s, ref);
    var m, n :| 0 <= m < |s.reservations| && 0 <= n < |s.reservations[m].attempts| &&
      s.reservations[m].attempts[n].receiptRef == Some(ref);
    CarriedMatches(s, m, n);
    FoundIsOnly(s.records, k);
    PermitIsProof(s, i, j);
    ConsumedProofs(s);
    ProofIdOccursOnce(s.reservations, m, n, i, j);
  }

  lemma ConsumedProofs(s: State)
    requires StateValid(s)
    ensures ConsumedOnce(s.reservations)
  {
    hide ConsumedOnce, RecordsUnique, RecordsValid, PointersLatest, InvalidatedKnown, CachedIsReplay, ReservationValid, Find;
  }

  lemma FoundIsOnly(records: seq<Contract>, k: nat)
    requires RecordsUnique(records) && k < |records|
    ensures Find(records, records[k].Ref()) == Some(records[k])
  {
    var found := Find(records, records[k].Ref());
    var l :| 0 <= l < |records| && records[l] == found.value;
    assert records[l].Key() == records[k].Key() && records[l].metadata.revision == records[k].metadata.revision;
  }

  lemma PermitIsProof(s: State, i: nat, j: nat)
    requires StateValid(s) && i < |s.reservations| && j < |s.reservations[i].attempts|
    ensures s.reservations[i].attempts[j].permitId == s.reservations[i].attempts[j].proofId
  {
    hide Find, RecordsUnique, RecordsValid, PointersLatest, InvalidatedKnown, CachedIsReplay, ConsumedOnce, ScopesUnique;
    hide ReservationIdsUnique, PermitRequest.ValidFor, Envelope.ShapeValid, TimingValid, ReceiptLinkValid;
    assert ReservationValid(s.records, s.reservations[i]);
    var action := Find(s.records, s.reservations[i].actionRef).value;
    assert AttemptBound(action, s.reservations[i], s.reservations[i].attempts[j], j + 1);
  }

  lemma LastKeepsShape(s: State, i: nat, b: Attempt)
    requires i < |s.reservations| && s.reservations[i].attempts != [] && SameBinding(LastOf(s.reservations[i]), b)
    ensures SameBindings(s.reservations, WithLast(s, i, b).reservations)
  {
  }

  lemma LastKeepsReceipt(s: State, i: nat, b: Attempt, k: nat)
    requires StateValid(s) && ReceiptsCarried(s) && i < |s.reservations| && s.reservations[i].attempts != []
    requires SameBinding(LastOf(s.reservations[i]), b) && LastOf(s.reservations[i]).receiptRef.None?
    requires SameBindings(s.reservations, WithLast(s, i, b).reservations)
    requires k < |s.records| && s.records[k].ExecutionReceipt?
    ensures ReceiptKept(s.records[k], s.reservations, WithLast(s, i, b).reservations)
  {
    hide SameBinding, StateValid, ReceiptsCarried;
    var c, after := s.records[k], WithLast(s, i, b).reservations;
    var m := FindReservation(s.reservations, c.receipt.actionRef);
    if m.Some? {
      assert SameHeader(s.reservations[m.value], after[m.value]);
      var n := FindAttempt(s.reservations[m.value].attempts, c.receipt.permitId);
      if n.Some? {
        MatchedIsCarried(s, k, m.value, n.value);
        assert after[m.value].attempts[n.value] == s.reservations[m.value].attempts[n.value];
      }
    }
  }

  lemma LastReservationValid(records: seq<Contract>, r: Reservation, b: Attempt)
    requires ReservationValid(records, r) && SameBinding(LastOf(r), b) && TimingValid(b) && b.receiptRef.None?
    ensures ReservationValid(records, r.(attempts := r.attempts[|r.attempts| - 1 := b]))
  {
    hide Find, PermitRequest.ValidFor, Envelope.ShapeValid, ValidDigest, ReceiptClaimsMatch, TimingValid;
    var last := |r.attempts| - 1;
    var q := r.(attempts := r.attempts[last := b]);
    var action := Find(records, r.actionRef).value;
    forall k | 0 <= k < |q.attempts|
      ensures AttemptBound(action, q, q.attempts[k], k + 1) && TimingValid(q.attempts[k]) && ReceiptLinkValid(records, q, q.attempts[k])
      ensures k + 1 < |q.attempts| ==> q.attempts[k].status.PermitsRetry()
    {
      assert AttemptBound(action, r, r.attempts[k], k + 1) && ReceiptLinkValid(records, r, r.attempts[k]);
      assert k < last ==> q.attempts[k] == r.attempts[k];
    }
  }

  /** From a reachable state the validator accepts any well-timed change to a last attempt without a receipt. */
  lemma LastWriteAccepted(s: State, i: nat, b: Attempt)
    requires StateValid(s) && ReceiptsCarried(s) && i < |s.reservations| && s.reservations[i].attempts != []
    requires SameBinding(LastOf(s.reservations[i]), b) && LastOf(s.reservations[i]).receiptRef.None?
    requires TimingValid(b) && b.receiptRef.None?
    ensures StateValid(WithLast(s, i, b))
  {
    hide SameBinding, SameBindings, ReceiptKept, ReceiptsCarried, TimingValid, Find, WithAttempt;
    hide RecordsUnique, RecordsValid, PointersLatest, InvalidatedKnown, CachedIsReplay, ReservationValid, ConsumedOnce, ScopesUnique;
    hide ReservationIdsUnique;
    var after := WithLast(s, i, b).reservations;
    LastKeepsShape(s, i, b);
    forall k | 0 <= k < |s.records| && s.records[k].ExecutionReceipt?
      ensures ReceiptKept(s.records[k], s.reservations, after)
    {
      LastKeepsReceipt(s, i, b, k);
    }
    RecordsStayValid(s.records, s.reservations, after);
    ShapeKeepsSeparation(s.reservations, after);
    LastReservationValid(s.records, s.reservations[i], b);
    LastWritten(s, i, b);
    forall k | 0 <= k < |after|
      ensures ReservationValid(s.records, after[k])
    {
      assert k != i ==> after[k] == s.reservations[k];
    }
    LogOnly(s, after);
  }

  lemma LastWritten(s: State, i: nat, b: Attempt)
    requires i < |s.reservations| && s.reservations[i].attempts != []
    ensures
      var r, after := s.reservations[i], WithLast(s, i, b).reservations;
      && |after| == |s.reservations| && after[i] == r.(attempts := r.attempts[|r.attempts| - 1 := b])
      && forall k :: 0 <= k < |after| && k != i ==> after[k] == s.reservations[k]
  {
  }

  /** What a mark or a recovery writes is refused by the validator when the attempt carries a receipt. */
  lemma ReceiptedWriteRefused(s: State, i: nat, b: Attempt)
    requires i < |s.reservations| && s.reservations[i].attempts != [] && b.receiptRef.Some?
    requires b.status.InFlight() || b.status.ReconciliationRequired? || b.status.Cancelled? || b.status.Expired?
    ensures !StateValid(WithLast(s, i, b))
  {
    hide StateValid;
    WrittenDiffers(s, i, b);
    if StateValid(WithLast(s, i, b)) {
      WrittenIsTimed(WithLast(s, i, b), i, |s.reservations[i].attempts| - 1);
    }
  }

  lemma Timed(s: State, i: nat, j: nat)
    requires StateValid(s) && i < |s.reservations| && j < |s.reservations[i].attempts|
    ensures TimingValid(s.reservations[i].attempts[j]) && (s.reservations[i].attempts[j].receiptRef.None? ==> NoReceipt(s.reservations[i].attempts[j]))
  {
    hide Find, RecordsUnique, RecordsValid, PointersLatest, InvalidatedKnown, CachedIsReplay, ConsumedOnce, ScopesUnique;
    hide ReservationIdsUnique, AttemptBound, ReceiptLinkValid;
    assert ReservationValid(s.records, s.reservations[i]);
  }

  // ---------------------------------------------------------------- marks

  /** The time is below each of the permit's three limits: the lease, the proof, the authorization. */
  predicate InTime(a: Attempt, now: nat) {
    now < a.request.leaseUntil && now < a.proofExpiresAt && now < a.authorization.expiresAt
  }

  /** The permit names reservation `i` and its last attempt, key, request and action included. */
  predicate Names(s: State, i: nat, permit: Permit) {
    && i < |s.reservations| && s.reservations[i].attempts != []
    && var r, a := s.reservations[i], s.reservations[i].attempts[|s.reservations[i].attempts| - 1];
       && permit.reservationId == r.id && permit.permitId == a.permitId && permit.keyId == a.keyId
       && permit.request == a.request && permit.request.actionRef == r.actionRef
  }

  lemma IdsUnique(s: State)
    requires StateValid(s)
    ensures ReservationIdsUnique(s.reservations) && ScopesUnique(s.reservations)
  {
    hide Find, RecordsUnique, RecordsValid, PointersLatest, InvalidatedKnown, CachedIsReplay, ConsumedOnce, ScopesUnique;
    hide ReservationIdsUnique, ReservationValid;
  }

  lemma FoundById(s: State, i: nat)
    requires ReservationIdsUnique(s.reservations) && i < |s.reservations|
    ensures FindById(s.reservations, s.reservations[i].id) == Some(i)
  {
    hide FindById;
    var k := FindById(s.reservations, s.reservations[i].id).value;
  }

  lemma FoundByAction(s: State, i: nat)
    requires ScopesUnique(s.reservations) && i < |s.reservations|
    ensures FindReservation(s.reservations, s.reservations[i].actionRef) == Some(i)
  {
    hide FindReservation;
    var k := FindReservation(s.reservations, s.reservations[i].actionRef).value;
  }

  function Advanced(a: Attempt, mark: Mark, now: nat): Attempt {
    if mark.Deliver? then a.(status := Delivered, deliveredAt := Some(now)) else a.(status := Dispatched, dispatchedAt := Some(now))
  }

  /** What a mark on a live action intends. */
  lemma MarkIntends(s: State, i: nat, permit: Permit, mark: Mark, now: nat)
    requires ReservationIdsUnique(s.reservations) && Names(s, i, permit) && Live(s, s.reservations[i].actionRef)
    ensures
      var a, plan := LastOf(s.reservations[i]), Plan(s, MarkPermit(permit, mark, now));
      if !InTime(a, now) then plan == Intention(Some(WithLast(s, i, a.(status := Expired))), Err(ExecutionLeaseExpired))
      else if a.status == (if mark.Deliver? then Delivered else Dispatched) then plan == Intention(None, Ok(Marked))
      else if a.status == (if mark.Deliver? then PermitIssued else Delivered) then
        plan == Intention(Some(WithLast(s, i, Advanced(a, mark, now))), Ok(Marked))
      else plan == Intention(None, Err(InvalidExecutionTransition))
  {
    hide FindById, Live, ReservationIdsUnique, WithAttempt;
    FoundById(s, i);
  }

  /** What comes of an intention. */
  lemma Carries(s: State, op: Operation)
    ensures
      var plan := Plan(s, op);
      if plan.write.None? then Next(s, op) == s && Reported(s, op) == plan.result
      else if StateValid(plan.write.value) then Next(s, op) == plan.write.value && Reported(s, op) == plan.result
      else Next(s, op) == s && Reported(s, op) == Err(CorruptSnapshot)
  {
    hide StateValid, Plan;
  }

  /**
    A permit on a live action is stored as expired, and the call says so, exactly when the
    time has reached one of the three limits and the attempt has no receipt.
   */
  lemma MarkExpires(s: State, i: nat, a: Attempt, permit: Permit, mark: Mark, now: nat)
    requires i < |s.reservations| && s.reservations[i].attempts != [] && a == LastOf(s.reservations[i])
    requires StateValid(s) && ReceiptsCarried(s) && Names(s, i, permit) && Live(s, s.reservations[i].actionRef)
    ensures
      var op := MarkPermit(permit, mark, now);
      (Next(s, op) == WithLast(s, i, a.(status := Expired)) && Reported(s, op) == Err(ExecutionLeaseExpired)) <==>
      (!InTime(a, now) && a.receiptRef.None?)
  {
    hide *;
    IdsUnique(s);
    LastTimed(s, i);
    MarkIntends(s, i, permit, mark, now);
    Carries(s, MarkPermit(permit, mark, now));
    if a.receiptRef.None? {
      ExpiredTimed(a);
      LastWriteAccepted(s, i, a.(status := Expired));
    } else {
      ReceiptedWriteRefused(s, i, a.(status := Expired));
    }
  }

  lemma LastTimed(s: State, i: nat)
    requires StateValid(s) && i < |s.reservations| && s.reservations[i].attempts != []
    ensures TimingValid(LastOf(s.reservations[i]))
    ensures LastOf(s.reservations[i]).receiptRef.None? ==> NoReceipt(LastOf(s.reservations[i]))
  {
    hide StateValid, TimingValid, NoReceipt;
    Timed(s, i, |s.reservations[i].attempts| - 1);
  }

  lemma ExpiredTimed(a: Attempt)
    requires TimingValid(a) && NoReceipt(a)
    ensures TimingValid(a.(status := Expired)) && SameBinding(a, a.(status := Expired))
  {
  }

  /** The state a mark leads from. */
  predicate Leads(a: Attempt, mark: Mark, now: nat) {
    match mark
    case Deliver => a.status.PermitIssued? && a.consumedAt <= now
    case Dispatch => a.status.Delivered? && a.deliveredAt.Some? && a.deliveredAt.value <= now
  }

  /** Marked now exactly from the state before, in time and no earlier than what came before; marked again, it stays as it is. */
  lemma MarkAdvances(s: State, i: nat, a: Attempt, permit: Permit, mark: Mark, now: nat)
    requires i < |s.reservations| && s.reservations[i].attempts != [] && a == LastOf(s.reservations[i])
    requires StateValid(s) && ReceiptsCarried(s) && Names(s, i, permit) && Live(s, s.reservations[i].actionRef)
    ensures
      var t, told := Next(s, MarkPermit(permit, mark, now)), Reported(s, MarkPermit(permit, mark, now));
      var again := if mark.Deliver? then a.status.Delivered? else a.status.Dispatched?;
      && (told == Ok(Marked) <==> InTime(a, now) && (again || Leads(a, mark, now)))
      && (told == Ok(Marked) ==> t == if again then s else WithLast(s, i, Advanced(a, mark, now)))
  {
    hide *;
    IdsUnique(s);
    LastTimed(s, i);
    MarkIntends(s, i, permit, mark, now);
    Carries(s, MarkPermit(permit, mark, now));
    AdvancedTimed(a, mark, now);
    if a.status == (if mark.Deliver? then PermitIssued else Delivered) {
      AdvanceAccepted(s, i, Advanced(a, mark, now));
    }
  }

  lemma AdvancedTimed(a: Attempt, mark: Mark, now: nat)
    requires TimingValid(a)
    ensures
      var b, from := Advanced(a, mark, now), if mark.Deliver? then PermitIssued else Delivered;
      && SameBinding(a, b) && b.receiptRef == a.receiptRef && (Leads(a, mark, now) ==> a.status == from)
      && (a.status == from ==> a.receiptRef.None? && (TimingValid(b) <==> Leads(a, mark, now)))
  {
  }

  lemma AdvanceAccepted(s: State, i: nat, b: Attempt)
    requires StateValid(s) && ReceiptsCarried(s) && i < |s.reservations| && s.reservations[i].attempts != []
    requires SameBinding(LastOf(s.reservations[i]), b) && LastOf(s.reservations[i]).receiptRef.None? && b.receiptRef.None?
    ensures StateValid(WithLast(s, i, b)) <==> TimingValid(b)
  {
    hide StateValid, ReceiptsCarried, TimingValid, SameBinding;
    WrittenDiffers(s, i, b);
    if TimingValid(b) {
      LastWriteAccepted(s, i, b);
    } else if StateValid(WithLast(s, i, b)) {
      Timed(WithLast(s, i, b), i, |s.reservations[i].attempts| - 1);
    }
  }

  lemma WrittenDiffers(s: State, i: nat, b: Attempt)
    requires i < |s.reservations| && s.reservations[i].attempts != []
    ensures
      var t := WithLast(s, i, b);
      |t.reservations| == |s.reservations| && |t.reservations[i].attempts| == |s.reservations[i].attempts|
      && t.reservations[i].attempts[|s.reservations[i].attempts| - 1] == b
  {
  }

  /** A permit that does not name a last attempt changes nothing. */
  lemma MarkMismatched(s: State, permit: Permit, mark: Mark, now: nat)
    requires StateValid(s) && forall i: nat :: !Names(s, i, permit)
    ensures Next(s, MarkPermit(permit, mark, now)) == s && Reported(s, MarkPermit(permit, mark, now)).Err?
  {
    hide StateValid, FindById, Live;
    var i := FindById(s.reservations, permit.reservationId);
    if i.Some? {
      assert !Names(s, i.value, permit);
    }
  }

  // ---------------------------------------------------------------- recovery

  /** The permit as recovery hands it out again. */
  function Recovered(r: Reservation, a: Attempt): Permit {
    Permit(r.id, a.permitId, a.keyId, a.consumedAt, a.consumedAt, a.request)
  }

  /** What a recovery intends. */
  lemma RecoveryIntends(s: State, i: nat, owner: Reference, now: nat)
    requires ReservationIdsUnique(s.reservations) && ScopesUnique(s.reservations)
    requires i < |s.reservations| && s.reservations[i].attempts != []
    ensures
      var r, plan := s.reservations[i], Plan(s, Recover(s.reservations[i].actionRef, owner, now));
      var a := LastOf(r);
      if owner != a.request.owner then plan == Intention(None, Err(ExecutionOwnerMismatch))
      else if !(a.status.PermitIssued? || a.status.Delivered?) then plan == Intention(None, Err(ExecutionRequiresReconciliation))
      else if !InTime(a, now) then plan == Intention(Some(WithLast(s, i, a.(status := Expired))), Err(ExecutionLeaseExpired))
      else plan == Intention(None, Ok(Permitted(Recovered(r, a))))
  {
    hide FindById, FindReservation, ReservationIdsUnique, ScopesUnique, WithAttempt;
    FoundById(s, i);
    FoundByAction(s, i);
  }

  /** Held by this owner, and not dispatched yet. */
  predicate Held(a: Attempt, owner: Reference) {
    owner == a.request.owner && (a.status.PermitIssued? || a.status.Delivered?)
  }

  /**
    Recovery returns the permit exactly to its owner, before dispatch, while the time is below
    all three limits; from then on it stores the expiry.
   */
  lemma RecoveryReturns(s: State, i: nat, r: Reservation, owner: Reference, now: nat)
    requires StateValid(s) && ReceiptsCarried(s) && i < |s.reservations| && s.reservations[i].attempts != [] && r == s.reservations[i]
    ensures
      var told := Reported(s, Recover(r.actionRef, owner, now));
      && (told.Ok? <==> Held(LastOf(r), owner) && InTime(LastOf(r), now))
      && (told.Ok? ==> told == Ok(Permitted(Recovered(r, LastOf(r)))))
      && (told == Err(ExecutionLeaseExpired) <==> Held(LastOf(r), owner) && !InTime(LastOf(r), now))
    ensures
      Next(s, Recover(r.actionRef, owner, now)) ==
      if Held(LastOf(r), owner) && !InTime(LastOf(r), now) then WithLast(s, i, LastOf(r).(status := Expired)) else s
  {
    hide *;
    IdsUnique(s);
    RecoveryIntends(s, i, owner, now);
    HeldMeans(LastOf(r), owner);
    LastTimed(s, i);
    Carries(s, Recover(r.actionRef, owner, now));
    if LastOf(r).status.PermitIssued? || LastOf(r).status.Delivered? {
      UndispatchedHasNoReceipt(LastOf(r));
      ExpiredTimed(LastOf(r));
      LastWriteAccepted(s, i, LastOf(r).(status := Expired));
    }
  }

  lemma HeldMeans(a: Attempt, owner: Reference)
    ensures Held(a, owner) <==> owner == a.request.owner && (a.status.PermitIssued? || a.status.Delivered?)
  {
  }

  lemma UndispatchedHasNoReceipt(a: Attempt)
    requires TimingValid(a) && (a.status.PermitIssued? || a.status.Delivered?)
    ensures NoReceipt(a)
  {
  }

  lemma HasAttempts(s: State, i: nat)
    requires StateValid(s) && i < |s.reservations|
    ensures s.reservations[i].attempts != []
  {
    hide Find, RecordsUnique, RecordsValid, PointersLatest, InvalidatedKnown, CachedIsReplay, ConsumedOnce, ScopesUnique;
    hide ReservationIdsUnique, AttemptBound, ReceiptLinkValid, TimingValid;
    assert ReservationValid(s.records, s.reservations[i]);
  }

  // ---------------------------------------------------------------- deliveries and dispatches in time

  /** Delivered and dispatched, if at all, before each of the permit's three limits. */
  predicate MarkedInTime(a: Attempt) {
    && (a.deliveredAt.Some? ==> InTime(a, a.deliveredAt.value))
    && (a.dispatchedAt.Some? ==> InTime(a, a.dispatchedAt.value))
  }

  ghost predicate AllInTime(reservations: seq<Reservation>) {
    forall i, j :: 0 <= i < |reservations| && 0 <= j < |reservations[i].attempts| ==> MarkedInTime(reservations[i].attempts[j])
  }

  lemma CommitKeepsTimes(s: State, c: Contract, proof: Option<ReceiptProof>)
    requires AllInTime(s.reservations) && c.ExecutionReceipt? == proof.Some? && CommitCandidate(s, c, proof).Ok?
    ensures AllInTime(CommitCandidate(s, c, proof).value.reservations)
  {
    hide Affected, LosesAction, FindReservation, FindAttempt, StatusOf, ReceiptMatchesParts;
    var t := Appended(s, c);
    assert AllInTime(t.reservations) by {
      forall i, j | 0 <= i < |t.reservations| && 0 <= j < |t.reservations[i].attempts|
        ensures MarkedInTime(t.reservations[i].attempts[j])
      {
        assert MarkedInTime(s.reservations[i].attempts[j]);
      }
    }
    if proof.Some? {
      SettleKeepsTimes(t.reservations, c, proof.value);
    }
  }

  lemma SettleKeepsTimes(reservations: seq<Reservation>, c: Contract, proof: ReceiptProof)
    requires AllInTime(reservations) && c.ExecutionReceipt? && Settle(reservations, c, proof).Ok?
    ensures AllInTime(Settle(reservations, c, proof).value)
  {
    hide StatusOf, ReceiptMatchesParts;
    var after := Settle(reservations, c, proof).value;
    forall i, j | 0 <= i < |after| && 0 <= j < |after[i].attempts|
      ensures MarkedInTime(after[i].attempts[j])
    {
      assert MarkedInTime(reservations[i].attempts[j]);
    }
  }

  lemma ReserveKeepsTimes(reservations: seq<Reservation>, action: Contract, a: Attempt, freshId: Id)
    requires AllInTime(reservations) && action.Action? && MarkedInTime(a) && Reserve(reservations, action, a, freshId).Ok?
    ensures AllInTime(Reserve(reservations, action, a, freshId).value.1)
  {
    hide MarkedInTime;
    var after := Reserve(reservations, action, a, freshId).value.1;
    forall i, j | 0 <= i < |after| && 0 <= j < |after[i].attempts|
      ensures MarkedInTime(after[i].attempts[j])
    {
      if i < |reservations| && j < |reservations[i].attempts| {
        assert after[i].attempts[j] == reservations[i].attempts[j];
      } else {
        assert after[i].attempts[j] == a;
      }
    }
  }

  lemma MarkKeepsTimes(s: State, op: Operation)
    requires (op.MarkPermit? || op.Recover?) && AllInTime(s.reservations) && Plan(s, op).write.Some?
    ensures AllInTime(Plan(s, op).write.value.reservations)
  {
    hide Live, FindById, FindReservation, PermitMatches;
    var after := Plan(s, op).write.value.reservations;
    forall i, j | 0 <= i < |after| && 0 <= j < |after[i].attempts|
      ensures MarkedInTime(after[i].attempts[j])
    {
      assert MarkedInTime(s.reservations[i].attempts[j]);
    }
  }

  lemma StepKeepsTimes(s: State, op: Operation)
    requires AllInTime(s.reservations)
    ensures AllInTime(Next(s, op).reservations)
  {
    hide AllInTime, StateValid, Reserve, Find, Committable, PlanIssue, CommitCandidate, PlanMark, PlanRecover;
    if Plan(s, op).write.Some? {
      match op
      case Commit(c, proof, _) => CommitKeepsTimes(s, c, proof);
      case Issue(v, freshId, now) =>
        IssueConsumesFresh(s, v, freshId, now);
        ReserveKeepsTimes(s.reservations, Find(s.records, v.request.actionRef).value, NewAttempt(v, now), freshId);
      case _ => MarkKeepsTimes(s, op);
    }
  }

  /** In every reachable state each delivery and dispatch lies before the lease's, the proof's and the authorization's end. */
  lemma {:induction false} RunsMarkInTime(ops: seq<Operation>)
    ensures AllInTime(Run(ops).reservations)
  {
    hide AllInTime, Next;
    if ops == [] {
      NothingMarked();
    } else {
      RunsMarkInTime(ops[..|ops| - 1]);
      StepKeepsTimes(Run(ops[..|ops| - 1]), ops[|ops| - 1]);
    }
  }

  lemma NothingMarked()
    ensures AllInTime(EMPTY.reservations)
  {
  }

  // ---------------------------------------------------------------- late marks

  /**
    A dispatched attempt should wait for its receipt. A mark on it leaves it so exactly while
    the time is below all three limits; later it is stored as expired, from which retries lead on.
   */
  lemma LateMarkForgets(s: State, i: nat, a: Attempt, permit: Permit, mark: Mark, now: nat)
    requires i < |s.reservations| && s.reservations[i].attempts != [] && a == LastOf(s.reservations[i])
    requires StateValid(s) && ReceiptsCarried(s) && Names(s, i, permit) && Live(s, s.reservations[i].actionRef)
    requires a.status.Dispatched?
    ensures Next(s, MarkPermit(permit, mark, now)) == if InTime(a, now) then s else WithLast(s, i, a.(status := Expired))
  {
    hide *;
    IdsUnique(s);
    LastTimed(s, i);
    DispatchedHasNoReceipt(a);
    MarkIntends(s, i, permit, mark, now);
    Carries(s, MarkPermit(permit, mark, now));
    ExpiredTimed(a);
    LastWriteAccepted(s, i, a.(status := Expired));
  }

  lemma DispatchedHasNoReceipt(a: Attempt)
    requires TimingValid(a) && a.status.Dispatched?
    ensures NoReceipt(a)
  {
  }

  /** And then the receipt of what was dispatched is refused. */
  lemma ExpiredTakesNoReceipt(s: State, i: nat, j: nat, c: Contract, proof: Option<ReceiptProof>, now: nat)
    requires StateValid(s) && i < |s.reservations| && j < |s.reservations[i].attempts| && c.ExecutionReceipt?
    requires s.reservations[i].attempts[j].status.Expired?
    requires c.receipt.actionRef == s.reservations[i].actionRef && c.receipt.permitId == s.reservations[i].attempts[j].permitId
    ensures Find(s.records, c.Ref()).None? ==> Reported(s, Commit(c, proof, now)).Err?
    ensures Next(s, Commit(c, proof, now)) == s
  {
    hide *;
    IdsUnique(s);
    FoundByAction(s, i);
    FoundByPermit(s, i, j);
    Timed(s, i, j);
    ExpiredMatchesNone(c, s.records, s.reservations, i, j);
    Uncommittable(s, c, proof, now);
    Carries(s, Commit(c, proof, now));
  }

  lemma ExpiredMatchesNone(c: Contract, prior: seq<Contract>, reservations: seq<Reservation>, i: nat, j: nat)
    requires c.ExecutionReceipt? && i < |reservations| && j < |reservations[i].attempts|
    requires FindReservation(reservations, c.receipt.actionRef) == Some(i)
    requires FindAttempt(reservations[i].attempts, c.receipt.permitId) == Some(j)
    requires reservations[i].attempts[j].status.Expired? && TimingValid(reservations[i].attempts[j])
    ensures !CrossObjectConsistent(c, prior, reservations)
  {
    hide Find, FindReservation, FindAttempt;
  }

  lemma Uncommittable(s: State, c: Contract, proof: Option<ReceiptProof>, now: nat)
    requires !CrossObjectConsistent(c, s.records, s.reservations)
    ensures
      var plan := Plan(s, Commit(c, proof, now));
      plan.write.None? && (Find(s.records, c.Ref()).None? ==> plan.result.Err?)
  {
    hide Find, CrossObjectConsistent, Contract.Valid, ReceiptProofValidAt, ContinuesPointer, ContinuesLineage, DependencyUsable;
    hide CommitCandidate, CommitRefusal;
  }

  lemma FoundByPermit(s: State, i: nat, j: nat)
    requires StateValid(s) && i < |s.reservations| && j < |s.reservations[i].attempts|
    ensures FindAttempt(s.reservations[i].attempts, s.reservations[i].attempts[j].permitId) == Some(j)
  {
    hide StateValid, FindAttempt;
    var attempts := s.reservations[i].attempts;
    var k := FindAttempt(attempts, attempts[j].permitId).value;
    PermitIsProof(s, i, j);
    PermitIsProof(s, i, k);
    ConsumedProofs(s);
    ProofIdOccursOnce(s.reservations, i, j, i, k);
  }
}
