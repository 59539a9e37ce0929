/**
  Issuing a permit for a verified request is always persisted: from a reachable state the
  validator accepts what the store writes.
 */
module StoreIssue {
  import opened Wrappers
  import opened Contracts
  import opened StoreModel
  import opened StoreOperations
  import opened StoreSnapshot
  import opened StoreCommit
  import opened StoreSafety
  import SigningBytes

  // ---------------------------------------------------------------- growing reservations

  /** Attempts and reservations are only added at the end. */
  ghost predicate Grown(before: seq<Reservation>, after: seq<Reservation>) {
    && |before| <= |after|
    && forall i :: 0 <= i < |before| ==>
         after[i] == before[i].(attempts := after[i].attempts) && before[i].attempts <= after[i].attempts
  }

  lemma GrownReservationFound(before: seq<Reservation>, after: seq<Reservation>, ref: ContractRef)
    requires Grown(before, after) && FindReservation(before, ref).Some?
    ensures FindReservation(after, ref) == FindReservation(before, ref)
  {
    hide FindReservation;
    var i := FindReservation(before, ref).value;
    assert after[i].actionRef == ref;
  }

  lemma GrownAttemptFound(before: seq<Attempt>, after: seq<Attempt>, permitId: SigningBytes.Uuid)
    requires before <= after && FindAttempt(before, permitId).Some?
    ensures FindAttempt(after, permitId) == FindAttempt(before, permitId)
  {
    hide FindAttempt;
    var i := FindAttempt(before, permitId).value;
    assert after[i].permitId == permitId;
  }

  lemma GrownKeepsReceipt(c: Contract, prior: seq<Contract>, before: seq<Reservation>, after: seq<Reservation>)
    requires c.ExecutionReceipt? && ReceiptConsistent(c, prior, before) && Grown(before, after)
    ensures ReceiptConsistent(c, prior, after)
  {
    hide Find;
    var i := FindReservation(before, c.receipt.actionRef).value;
    GrownReservationFound(before, after, c.receipt.actionRef);
    GrownAttemptFound(before[i].attempts, after[i].attempts, c.receipt.permitId);
  }

  lemma GrownKeepsRecords(records: seq<Contract>, before: seq<Reservation>, after: seq<Reservation>)
    requires RecordsValid(records, before) && Grown(before, after)
    ensures RecordsValid(records, after)
  {
    hide Contract.Valid, ReferencesEarlier, CrossObjectConsistent, ReceiptConsistent, Grown;
    forall k | 0 <= k < |records|
      ensures CrossObjectConsistent(records[k], records[..k], after)
    {
      assert CrossObjectConsistent(records[k], records[..k], before);
      if records[k].ExecutionReceipt? {
        ReceiptCrossObject(records[k], records[..k], before);
        GrownKeepsReceipt(records[k], records[..k], before, after);
        ReceiptCrossObject(records[k], records[..k], after);
      } else {
        PlainContractConsistent(records[k], records[..k], before, after);
      }
    }
  }

  // ---------------------------------------------------------------- the new attempt

  lemma NewAttemptBound(action: Contract, v: VerifiedRequest, now: nat, r: Reservation)
    requires action.Action? && v.Bound() && v.ValidAt(action, now) && r.actionRef == action.Ref()
    ensures AttemptBound(action, r, NewAttempt(v, now), v.request.attempt) && TimingValid(NewAttempt(v, now))
  {
    hide Authorization.ValidFor, Envelope.ShapeValid, ValidDigest;
    assert v.request.ValidFor(action, v.authorization);
  }

  lemma ReserveGrows(reservations: seq<Reservation>, action: Contract, a: Attempt, freshId: Id)
    requires action.Action? && Reserve(reservations, action, a, freshId).Ok?
    ensures Grown(reservations, Reserve(reservations, action, a, freshId).value.1)
  {
  }

  lemma RetryValid(records: seq<Contract>, r: Reservation, action: Contract, a: Attempt)
    requires ReservationValid(records, r) && Find(records, r.actionRef) == Some(action) && action.Action?
    requires r.attempts[|r.attempts| - 1].status.PermitsRetry()
    requires AttemptBound(action, r, a, |r.attempts| + 1) && TimingValid(a) && a.receiptRef.None?
    ensures ReservationValid(records, r.(attempts := r.attempts + [a]))
  {
    hide Find, PermitRequest.ValidFor, Envelope.ShapeValid, ReceiptClaimsMatch, TimingValid, ValidDigest;
    var q := r.(attempts := r.attempts + [a]);
    forall k | 0 <= k < |q.attempts|
      ensures AttemptBound(action, q, q.attempts[k], k + 1) && TimingValid(q.attempts[k]) && ReceiptLinkValid(records, q, q.attempts[k])
      ensures k + 1 < |q.attempts| ==> q.attempts[k].status.PermitsRetry()
    {
      if k < |r.attempts| {
        assert q.attempts[k] == r.attempts[k];
        assert AttemptBound(action, r, r.attempts[k], k + 1) && ReceiptLinkValid(records, r, r.attempts[k]);
      }
    }
  }

  lemma FirstAttemptValid(records: seq<Contract>, r: Reservation, action: Contract, a: Attempt)
    requires Find(records, r.actionRef) == Some(action) && action.Action? && SameScope(r, action) && r.id != 0
    requires r.attempts == [a] && AttemptBound(action, r, a, 1) && TimingValid(a) && a.receiptRef.None?
    ensures ReservationValid(records, r)
  {
    hide Find, AttemptBound, TimingValid;
  }

  lemma ReserveKeepsValid(
    records: seq<Contract>, reservations: seq<Reservation>, action: Contract, v: VerifiedRequest, freshId: Id, now: nat)
    requires ReservationsValid(records, reservations) && Find(records, action.Ref()) == Some(action) && action.Action?
    requires v.Bound() && v.ValidAt(action, now) && Unconsumed(reservations, NewAttempt(v, now))
    requires freshId != 0 && forall i :: 0 <= i < |reservations| ==> reservations[i].id != freshId
    requires Reserve(reservations, action, NewAttempt(v, now), freshId).Ok?
    ensures
      var after := Reserve(reservations, action, NewAttempt(v, now), freshId).value.1;
      (forall i :: 0 <= i < |after| ==> ReservationValid(records, after[i])) && ReservationIdsUnique(after) && ScopesUnique(after)
  {
    hide Find, VerifiedRequest.Bound, VerifiedRequest.ValidAt, ConsumedOnce;
    hide Unconsumed, AttemptBound, TimingValid, ReceiptLinkValid;
    var a := NewAttempt(v, now);
    var after := Reserve(reservations, action, a, freshId).value.1;
    var conflict := Conflict(reservations, action);
    if conflict.Some? {
      var r := reservations[conflict.value];
      assert ReservationValid(records, r);
      assert AttemptBound(action, r, r.attempts[|r.attempts| - 1], |r.attempts|);
      LastNumber(action, r);
      NewAttemptBound(action, v, now, r);
      RetryValid(records, r, action, a);
    } else {
      var r := after[|reservations|];
      NewAttemptBound(action, v, now, r);
      FirstAttemptValid(records, r, action, a);
    }
  }

  lemma LastNumber(action: Contract, r: Reservation)
    requires action.Action? && r.attempts != [] && AttemptBound(action, r, r.attempts[|r.attempts| - 1], |r.attempts|)
    ensures r.attempts[|r.attempts| - 1].number == |r.attempts|
  {
    hide PermitRequest.ValidFor, Envelope.ShapeValid;
  }

  /** A verified request that passes the checks is always persisted. */
  lemma IssueAccepted(s: State, v: VerifiedRequest, freshId: Id, now: nat)
    requires StateValid(s) && SingleUse(s.reservations) && v.Bound()
    requires freshId != 0 && forall i :: 0 <= i < |s.reservations| ==> s.reservations[i].id != freshId
    ensures
      var plan := PlanIssue(s, v, freshId, now);
      plan.write.Some? ==> StateValid(plan.write.value)
  {
    hide RecordsUnique, RecordsValid, PointersLatest, InvalidatedKnown;
    hide ReservationValid, ReservationIdsUnique, ScopesUnique;
    hide ConsumedOnce, SingleUse, VerifiedRequest.Bound, VerifiedRequest.ValidAt, Find;
    hide Reserve, Unconsumed, PlanIssue, CachedIsReplay;
    if PlanIssue(s, v, freshId, now).write.Some? {
      IssueConsumesFresh(s, v, freshId, now);
      var action := Find(s.records, v.request.actionRef).value;
      var a := NewAttempt(v, now);
      var after := Reserve(s.reservations, action, a, freshId).value.1;
      ReserveKeepsValid(s.records, s.reservations, action, v, freshId, now);
      ReserveKeepsSingleUse(s.reservations, action, a, freshId);
      SingleUseConsumesOnce(after);
      ReserveGrows(s.reservations, action, a, freshId);
      GrownKeepsRecords(s.records, s.reservations, after);
      LogOnly(s, after);
    }
  }

  lemma SingleUseConsumesOnce(reservations: seq<Reservation>)
    requires SingleUse(reservations)
    ensures ConsumedOnce(reservations)
  {
    hide ConsumedOnce, ScopesUnique, WellNumbered;
  }
}
