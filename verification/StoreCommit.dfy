/**
  A commit from an accepted state is accepted again: the store never builds a candidate
  that its own validator refuses, and the cached pointers and invalidations stay the
  replay of the log.
 */
module StoreCommit {
  import opened Wrappers
  import opened Contracts
  import opened Graphs
  import opened StoreModel
  import opened StoreOperations
  import opened StoreSnapshot

  // ---------------------------------------------------------------- the cache is the replay

  lemma {:induction false} ReplayRecords(records: seq<Contract>)
    requires Replay(records).Some?
    ensures Replay(records).value.records == records && Replay(records).value.reservations == []
  {
    hide Affected, ContinuesPointer, ContinuesLineage;
    if records != [] {
      ReplayRecords(records[..|records| - 1]);
    }
  }

  /** Appending to the log and appending to the cache commute. */
  lemma AppendedIsReplay(s: State, c: Contract)
    requires CachedIsReplay(s) && ContinuesPointer(s.current, c) && ContinuesLineage(s.records, s.current, c)
    ensures CachedIsReplay(Appended(s, c))
  {
    hide Affected, ContinuesPointer, ContinuesLineage, Reconciled;
    var longer := s.records + [c];
    assert longer[..|longer| - 1] == s.records;
    ReplayRecords(s.records);
  }

  // ---------------------------------------------------------------- records and pointers

  lemma PointerFound(records: seq<Contract>, current: map<ContractKey, ContractRef>, k: ContractKey)
    requires PointersLatest(records, current) && k in current
    ensures Find(records, current[k]).Some? && Find(records, current[k]).value.Ref() == current[k] && current[k].Key() == k
    ensures Find(records, current[k]).value.metadata.revision == current[k].revision
  {
    hide Find;
  }

  lemma NewRevision(s: State, c: Contract, i: nat)
    requires PointersLatest(s.records, s.current) && ContinuesPointer(s.current, c) && i < |s.records|
    ensures s.records[i].Key() == c.Key() ==> s.records[i].metadata.revision < c.metadata.revision
  {
    hide Find;
    assert s.records[i].Key() in s.current;
  }

  lemma AppendedRecordsUnique(s: State, c: Contract)
    requires RecordsUnique(s.records) && PointersLatest(s.records, s.current) && ContinuesPointer(s.current, c)
    ensures RecordsUnique(s.records + [c])
  {
    hide PointersLatest, ContinuesPointer;
    forall i | 0 <= i < |s.records|
      ensures !(s.records[i].Key() == c.Key() && s.records[i].metadata.revision == c.metadata.revision)
    {
      NewRevision(s, c, i);
    }
  }

  lemma AppendedPointersLatest(s: State, c: Contract)
    requires PointersLatest(s.records, s.current) && ContinuesPointer(s.current, c)
    ensures PointersLatest(s.records + [c], s.current[c.Key() := c.Ref()])
  {
    hide Find;
    FindAppended(s.records, c);
    var records, current := s.records + [c], s.current[c.Key() := c.Ref()];
    forall i | 0 <= i < |records|
      ensures records[i].Key() in current && records[i].metadata.revision <= current[records[i].Key()].revision
    {
      if i < |s.records| {
        assert records[i] == s.records[i];
        NewRevision(s, c, i);
      }
    }
  }

  lemma AppendedInvalidatedKnown(s: State, c: Contract)
    requires PointersLatest(s.records, s.current) && InvalidatedKnown(s.records, s.invalidated)
    ensures InvalidatedKnown(s.records + [c], Appended(s, c).invalidated)
  {
    hide Find;
    FindAppended(s.records, c);
    forall r | r in Appended(s, c).invalidated
      ensures Find(s.records, r).Some?
    {
      if r !in s.invalidated {
        AffectedIff(s.records, s.current, s.invalidated, s.current[c.Key()], r);
        PointerFound(s.records, s.current, r.Key());
      }
    }
  }

  // ---------------------------------------------------------------- attempts that keep their binding

  /** `b` is `a` with at most its status, times and receipt changed. */
  ghost predicate SameBinding(a: Attempt, b: Attempt) {
    b == a.(status := b.status, deliveredAt := b.deliveredAt, dispatchedAt := b.dispatchedAt, receiptRef := b.receiptRef,
            receiptEnvelope := b.receiptEnvelope, receiptVerifiedAt := b.receiptVerifiedAt)
  }

  ghost predicate SameHeader(r: Reservation, q: Reservation) {
    && q == r.(attempts := q.attempts)
    && |r.attempts| == |q.attempts|
    && forall j :: 0 <= j < |r.attempts| ==> SameBinding(r.attempts[j], q.attempts[j])
  }

  ghost predicate SameBindings(before: seq<Reservation>, after: seq<Reservation>) {
    && |before| == |after|
    && forall i :: 0 <= i < |before| ==> SameHeader(before[i], after[i])
  }

  lemma SameReservationFound(before: seq<Reservation>, after: seq<Reservation>, actionRef: ContractRef)
    requires SameBindings(before, after)
    ensures FindReservation(before, actionRef) == FindReservation(after, actionRef)
  {
    hide SameBinding, FindReservation;
  }

  lemma SameAttemptFound(before: seq<Attempt>, after: seq<Attempt>, permitId: SigningBytes.Uuid)
    requires |before| == |after| && forall j :: 0 <= j < |before| ==> SameBinding(before[j], after[j])
    ensures FindAttempt(before, permitId) == FindAttempt(after, permitId)
  {
    hide FindAttempt;
  }

  lemma ShapeKeepsSeparation(before: seq<Reservation>, after: seq<Reservation>)
    requires SameBindings(before, after)
    ensures ReservationIdsUnique(before) ==> ReservationIdsUnique(after)
    ensures ScopesUnique(before) ==> ScopesUnique(after)
    ensures ConsumedOnce(before) ==> ConsumedOnce(after)
  {
    ShapeKeepsHeaders(before, after);
    if ConsumedOnce(before) {
      forall i, m, j, n |
        0 <= i < |after| && 0 <= m < |after[i].attempts| &&
        0 <= j < |after| && 0 <= n < |after[j].attempts| && (i < j || (i == j && m < n))
        ensures ConsumesApart(after[i].attempts[m], after[j].attempts[n])
      {
        assert SameHeader(before[i], after[i]) && SameHeader(before[j], after[j]);
        assert SameBinding(before[i].attempts[m], after[i].attempts[m]);
        assert SameBinding(before[j].attempts[n], after[j].attempts[n]);
        assert ConsumesApart(before[i].attempts[m], before[j].attempts[n]);
      }
    }
  }

  lemma ShapeKeepsHeaders(before: seq<Reservation>, after: seq<Reservation>)
    requires SameBindings(before, after)
    ensures ReservationIdsUnique(before) ==> ReservationIdsUnique(after)
    ensures ScopesUnique(before) ==> ScopesUnique(after)
  {
    hide SameBinding;
    assert forall i :: 0 <= i < |before| ==> SameHeader(before[i], after[i]);
  }

  // ---------------------------------------------------------------- receipts stay consistent

  /** Whatever an earlier receipt needs of its attempt survives the change. */
  ghost predicate AttemptKeeps(a: Attempt, b: Attempt, ref: ContractRef) {
    b.dispatchedAt == a.dispatchedAt && (AwaitsOrCarries(a, ref) ==> AwaitsOrCarries(b, ref))
  }

  ghost predicate ReceiptKept(c: Contract, before: seq<Reservation>, after: seq<Reservation>)
    requires SameBindings(before, after) && c.ExecutionReceipt?
  {
    var i := FindReservation(before, c.receipt.actionRef);
    i.Some? ==>
      var j := FindAttempt(before[i.value].attempts, c.receipt.permitId);
      j.Some? && ReceiptMatches(c.receipt, before[i.value], before[i.value].attempts[j.value]) ==>
        SameHeader(before[i.value], after[i.value])
        && AttemptKeeps(before[i.value].attempts[j.value], after[i.value].attempts[j.value], c.Ref())
  }

  lemma ReceiptStays(c: Contract, prior: seq<Contract>, before: seq<Reservation>, after: seq<Reservation>)
    requires c.ExecutionReceipt? && ReceiptConsistent(c, prior, before)
    requires SameBindings(before, after) && ReceiptKept(c, before, after)
    ensures ReceiptConsistent(c, prior, after)
  {
    hide Find;
    SameReservationFound(before, after, c.receipt.actionRef);
    var i := FindReservation(before, c.receipt.actionRef).value;
    assert SameHeader(before[i], after[i]);
    SameAttemptFound(before[i].attempts, after[i].attempts, c.receipt.permitId);
    var j := FindAttempt(before[i].attempts, c.receipt.permitId).value;
    assert SameBinding(before[i].attempts[j], after[i].attempts[j]);
  }

  lemma RecordsStayValid(records: seq<Contract>, before: seq<Reservation>, after: seq<Reservation>)
    requires RecordsValid(records, before) && SameBindings(before, after)
    requires forall k :: 0 <= k < |records| && records[k].ExecutionReceipt? ==> ReceiptKept(records[k], before, after)
    ensures RecordsValid(records, after)
  {
    hide Contract.Valid, ReferencesEarlier, ReceiptConsistent, SameBindings, ReceiptKept, OutcomeConsistent;
    forall k | 0 <= k < |records|
      ensures CrossObjectConsistent(records[k], records[..k], after)
    {
      assert CrossObjectConsistent(records[k], records[..k], before);
      if records[k].ExecutionReceipt? {
        ReceiptStays(records[k], records[..k], before, after);
      }
    }
  }

  lemma RecordsExtended(records: seq<Contract>, c: Contract, reservations: seq<Reservation>)
    requires RecordsValid(records, reservations) && c.Valid()
    requires ReferencesEarlier(records + [c], |records|) && CrossObjectConsistent(c, records, reservations)
    ensures RecordsValid(records + [c], reservations)
  {
    hide Contract.Valid, CrossObjectConsistent;
    var longer := records + [c];
    forall k | 0 <= k < |longer|
      ensures longer[k].Valid() && ReferencesEarlier(longer, k) && CrossObjectConsistent(longer[k], longer[..k], reservations)
    {
      if k < |records| {
        assert longer[..k] == records[..k] && longer[k] == records[k];
        assert ReferencesEarlier(records, k);
      } else {
        assert longer[..k] == records;
      }
    }
  }

  // ---------------------------------------------------------------- cancelling

  lemma CancelKeepsHeader(r: Reservation)
    ensures SameHeader(r, CancelLast(r))
  {
  }

  lemma CancelKeepsAttempt(r: Reservation, j: nat, ref: ContractRef)
    requires j < |r.attempts|
    ensures |CancelLast(r).attempts| == |r.attempts|
    ensures AttemptKeeps(r.attempts[j], CancelLast(r).attempts[j], ref)
  {
  }

  lemma CancelKeepsValid(records: seq<Contract>, r: Reservation)
    requires ReservationValid(records, r)
    ensures ReservationValid(records, CancelLast(r))
  {
    hide Find, PermitRequest.ValidFor, Envelope.ShapeValid, ReceiptClaimsMatch, ValidDigest;
    var q := CancelLast(r);
    var last := |r.attempts| - 1;
    assert q.attempts[last] == r.attempts[last].(status := r.attempts[last].status.AfterCancellation());
    forall i | 0 <= i < |q.attempts|
      ensures
        var action := Find(records, q.actionRef).value;
        && AttemptBound(action, q, q.attempts[i], i + 1)
        && TimingValid(q.attempts[i])
        && ReceiptLinkValid(records, q, q.attempts[i])
        && (i + 1 < |q.attempts| ==> q.attempts[i].status.PermitsRetry())
    {
      assert TimingValid(r.attempts[i]);
    }
  }

  lemma ReconciledKeepsShape(
    reservations: seq<Reservation>, current: map<ContractKey, ContractRef>, invalidated: set<ContractRef>, stale: ContractRef)
    ensures SameBindings(reservations, Reconciled(reservations, current, invalidated, stale))
  {
    hide LosesAction, SameHeader, CancelLast;
    var after := Reconciled(reservations, current, invalidated, stale);
    forall i | 0 <= i < |reservations|
      ensures SameHeader(reservations[i], after[i])
    {
      CancelKeepsHeader(reservations[i]);
      HeaderReflexive(reservations[i]);
    }
  }

  lemma HeaderReflexive(r: Reservation)
    ensures SameHeader(r, r)
  {
  }

  lemma ReconciledKeepsReceipt(
    c: Contract, reservations: seq<Reservation>, current: map<ContractKey, ContractRef>, invalidated: set<ContractRef>, stale: ContractRef)
    requires c.ExecutionReceipt? && SameBindings(reservations, Reconciled(reservations, current, invalidated, stale))
    ensures ReceiptKept(c, reservations, Reconciled(reservations, current, invalidated, stale))
  {
    hide LosesAction, SameHeader, CancelLast, ReceiptMatches;
    var i := FindReservation(reservations, c.receipt.actionRef);
    if i.Some? {
      var r := reservations[i.value];
      var j := FindAttempt(r.attempts, c.receipt.permitId);
      if j.Some? {
        CancelKeepsAttempt(r, j.value, c.Ref());
      }
    }
  }

  lemma ReconciledKeepsValid(
    records: seq<Contract>, reservations: seq<Reservation>, current: map<ContractKey, ContractRef>, invalidated: set<ContractRef>,
    stale: ContractRef)
    requires ReservationsValid(records, reservations)
    ensures ReservationsValid(records, Reconciled(reservations, current, invalidated, stale))
  {
    hide LosesAction, ReservationValid, ConsumedOnce, ScopesUnique, ReservationIdsUnique, CancelLast;
    var after := Reconciled(reservations, current, invalidated, stale);
    ReconciledKeepsShape(reservations, current, invalidated, stale);
    ShapeKeepsSeparation(reservations, after);
    forall i | 0 <= i < |after|
      ensures ReservationValid(records, after[i])
    {
      CancelKeepsValid(records, reservations[i]);
    }
  }

  lemma ReservationsExtended(records: seq<Contract>, c: Contract, reservations: seq<Reservation>)
    requires ReservationsValid(records, reservations)
    ensures ReservationsValid(records + [c], reservations)
  {
    hide Find, ConsumedOnce, ScopesUnique, ReservationIdsUnique;
    hide AttemptBound, TimingValid, ReceiptMatches, ReceiptClaimsMatch;
    FindAppended(records, c);
    forall i | 0 <= i < |reservations|
      ensures ReservationValid(records + [c], reservations[i])
    {
      assert ReservationValid(records, reservations[i]);
    }
  }

  // ---------------------------------------------------------------- every other contract

  lemma ReferencesStand(s: State, c: Contract)
    requires Committable(s, c) && c.Valid() && PointersLatest(s.records, s.current)
    ensures ReferencesEarlier(s.records + [c], |s.records|)
  {
    hide Find, CrossObjectConsistent;
    assert (s.records + [c])[..|s.records|] == s.records;
    if c.metadata.predecessor.Some? {
      assert c.Key() in s.current;
      PointerFound(s.records, s.current, c.Key());
    }
    forall d | d in c.metadata.dependencies
      ensures Find(s.records, d).Some?
    {
      assert DependencyUsable(s, d);
    }
  }

  /** Reservations and records after the superseded revision's dependents are invalidated. */
  lemma ClearedStaysValid(s: State, c: Contract)
    requires StateValid(s)
    ensures RecordsValid(s.records, Appended(s, c).reservations)
    ensures ReservationsValid(s.records, Appended(s, c).reservations)
    ensures SameBindings(s.reservations, Appended(s, c).reservations)
  {
    hide Affected, RecordsValid, ReservationsValid, SameBindings, Reconciled;
    hide RecordsUnique, PointersLatest, InvalidatedKnown, CachedIsReplay;
    var after := Appended(s, c).reservations;
    if c.Key() in s.current {
      var stale, invalidated := s.current[c.Key()], Appended(s, c).invalidated;
      ReconciledKeepsShape(s.reservations, s.current, invalidated, stale);
      ReconciledKeepsValid(s.records, s.reservations, s.current, invalidated, stale);
      forall k | 0 <= k < |s.records| && s.records[k].ExecutionReceipt?
        ensures ReceiptKept(s.records[k], s.reservations, after)
      {
        ReconciledKeepsReceipt(s.records[k], s.reservations, s.current, invalidated, stale);
      }
      RecordsStayValid(s.records, s.reservations, after);
    } else {
      ShapeReflexive(s.reservations);
    }
  }

  lemma ShapeReflexive(reservations: seq<Reservation>)
    ensures SameBindings(reservations, reservations)
  {
  }

  /** The parts of the appended state that do not depend on reservations. */
  lemma AppendedLogValid(s: State, c: Contract)
    requires StateValid(s) && Committable(s, c)
    ensures
      var t := Appended(s, c);
      RecordsUnique(t.records) && PointersLatest(t.records, t.current) && InvalidatedKnown(t.records, t.invalidated) && CachedIsReplay(t)
  {
    hide RecordsUnique, PointersLatest, InvalidatedKnown, CachedIsReplay;
    hide RecordsValid, ReservationsValid, CrossObjectConsistent;
    hide ContinuesPointer, ContinuesLineage, DependencyUsable, Affected, Reconciled;
    AppendedRecordsUnique(s, c);
    AppendedPointersLatest(s, c);
    AppendedInvalidatedKnown(s, c);
    AppendedIsReplay(s, c);
  }

  lemma PlainContractConsistent(c: Contract, prior: seq<Contract>, before: seq<Reservation>, after: seq<Reservation>)
    requires !c.ExecutionReceipt? && CrossObjectConsistent(c, prior, before)
    ensures CrossObjectConsistent(c, prior, after)
  {
    hide Find, OutcomeConsistent, ActionWithinDecision;
  }

  lemma PlainCommitAccepted(s: State, c: Contract)
    requires StateValid(s) && c.Valid() && !c.ExecutionReceipt? && Committable(s, c)
    ensures StateValid(Appended(s, c))
  {
    hide Contract.Valid, RecordsUnique, PointersLatest, InvalidatedKnown;
    hide CachedIsReplay, RecordsValid, ReservationsValid;
    hide CrossObjectConsistent, ContinuesPointer, ContinuesLineage, DependencyUsable;
    hide Affected, Reconciled, ReferencesEarlier;
    var t := Appended(s, c);
    AppendedLogValid(s, c);
    ClearedStaysValid(s, c);
    ReferencesStand(s, c);
    PlainContractConsistent(c, s.records, s.reservations, t.reservations);
    RecordsExtended(s.records, c, t.reservations);
    ReservationsExtended(s.records, c, t.reservations);
  }

  // ---------------------------------------------------------------- receipts

  lemma AttemptFacts(records: seq<Contract>, reservations: seq<Reservation>, i: nat, j: nat)
    requires ReservationsValid(records, reservations) && i < |reservations| && j < |reservations[i].attempts|
    ensures
      var r, a := reservations[i], reservations[i].attempts[j];
      && a.request.idempotencyKey == r.idempotencyKey
      && a.number == j + 1
      && TimingValid(a) && ReceiptLinkValid(records, r, a)
      && (j + 1 < |r.attempts| ==> a.status.PermitsRetry())
  {
    hide Find, TimingValid, ReceiptLinkValid, ConsumedOnce;
    hide ScopesUnique, ReservationIdsUnique, Envelope.ShapeValid, Authorization.ValidFor;
    assert ReservationValid(records, reservations[i]);
    var action := Find(records, reservations[i].actionRef).value;
    assert AttemptBound(action, reservations[i], reservations[i].attempts[j], j + 1);
  }

  /** A new receipt finds its attempt still waiting, as the reservation's last. */
  lemma ReceiptFindsAttempt(c: Contract, records: seq<Contract>, reservations: seq<Reservation>, proof: ReceiptProof)
    returns (i: nat, j: nat)
    requires c.ExecutionReceipt? && ReceiptConsistent(c, records, reservations) && ReservationsValid(records, reservations)
    requires Find(records, c.Ref()).None?
    ensures i < |reservations| && j == |reservations[i].attempts| - 1
    ensures FindReservation(reservations, c.receipt.actionRef) == Some(i)
    ensures FindAttempt(reservations[i].attempts, c.receipt.permitId) == Some(j)
    ensures reservations[i].attempts[j].status.Dispatched? || reservations[i].attempts[j].status.ReconciliationRequired?
    ensures ReceiptMatches(c.receipt, reservations[i], reservations[i].attempts[j])
    ensures
      Settle(reservations, c, proof) == Ok(WithAttempt(reservations, i, j, SettleAttempt(reservations[i].attempts[j], c, proof)))
  {
    hide Find, ReservationsValid, TimingValid;
    i := FindReservation(reservations, c.receipt.actionRef).value;
    j := FindAttempt(reservations[i].attempts, c.receipt.permitId).value;
    AttemptFacts(records, reservations, i, j);
  }

  lemma SettledKeepsShape(reservations: seq<Reservation>, i: nat, j: nat, c: Contract, proof: ReceiptProof)
    requires i < |reservations| && j < |reservations[i].attempts| && c.ExecutionReceipt?
    ensures SameBindings(reservations, WithAttempt(reservations, i, j, SettleAttempt(reservations[i].attempts[j], c, proof)))
  {
  }

  /** No earlier receipt spoke about the attempt the new one settles. */
  lemma SettledKeepsReceipt(
    d: Contract, c: Contract, reservations: seq<Reservation>, i: nat, j: nat, proof: ReceiptProof)
    requires c.ExecutionReceipt? && d.ExecutionReceipt?
    requires i < |reservations| && j < |reservations[i].attempts|
    requires ReceiptMatches(c.receipt, reservations[i], reservations[i].attempts[j])
    requires !(d.receipt.actionRef == c.receipt.actionRef && d.receipt.attempt == c.receipt.attempt)
    requires var after := WithAttempt(reservations, i, j, SettleAttempt(reservations[i].attempts[j], c, proof));
      SameBindings(reservations, after)
    ensures var after := WithAttempt(reservations, i, j, SettleAttempt(reservations[i].attempts[j], c, proof));
      ReceiptKept(d, reservations, after)
  {
    hide SameBinding;
    var after := WithAttempt(reservations, i, j, SettleAttempt(reservations[i].attempts[j], c, proof));
    var k := FindReservation(reservations, d.receipt.actionRef);
    if k.Some? {
      assert SameHeader(reservations[k.value], after[k.value]);
      var l := FindAttempt(reservations[k.value].attempts, d.receipt.permitId);
      if l.Some? && ReceiptMatches(d.receipt, reservations[k.value], reservations[k.value].attempts[l.value]) {
        assert !(k.value == i && l.value == j);
        assert after[k.value].attempts[l.value] == reservations[k.value].attempts[l.value];
      }
    }
  }

  lemma SettledCarries(c: Contract, reservations: seq<Reservation>, i: nat, j: nat, proof: ReceiptProof)
    requires c.ExecutionReceipt? && i < |reservations| && j < |reservations[i].attempts|
    requires FindReservation(reservations, c.receipt.actionRef) == Some(i)
    requires FindAttempt(reservations[i].attempts, c.receipt.permitId) == Some(j)
    requires SameBindings(reservations, WithAttempt(reservations, i, j, SettleAttempt(reservations[i].attempts[j], c, proof)))
    ensures ReceiptKept(c, reservations, WithAttempt(reservations, i, j, SettleAttempt(reservations[i].attempts[j], c, proof)))
  {
    hide SameBinding, ReceiptMatches;
    var after := WithAttempt(reservations, i, j, SettleAttempt(reservations[i].attempts[j], c, proof));
    assert SameHeader(reservations[i], after[i]);
    assert after[i].attempts[j] == SettleAttempt(reservations[i].attempts[j], c, proof);
    assert AttemptKeeps(reservations[i].attempts[j], after[i].attempts[j], c.Ref());
  }

  lemma SettledReservationValid(
    records: seq<Contract>, c: Contract, reservations: seq<Reservation>, i: nat, j: nat, proof: ReceiptProof, now: nat)
    requires c.ExecutionReceipt? && i < |reservations| && j == |reservations[i].attempts| - 1
    requires ReservationValid(records, reservations[i]) && Find(records, c.Ref()) == Some(c)
    requires reservations[i].attempts[j].status.Dispatched? || reservations[i].attempts[j].status.ReconciliationRequired?
    requires ReceiptMatches(c.receipt, reservations[i], reservations[i].attempts[j]) && ReceiptProofValidAt(c, proof, now)
    ensures ReservationValid(
      records, WithAttempt(reservations, i, j, SettleAttempt(reservations[i].attempts[j], c, proof))[i])
  {
    hide Find, PermitRequest.ValidFor, Envelope.ShapeValid, ValidDigest, ReceiptSubject;
    var r := reservations[i];
    var q := WithAttempt(reservations, i, j, SettleAttempt(r.attempts[j], c, proof))[i];
    var action := Find(records, r.actionRef).value;
    forall k | 0 <= k < |q.attempts|
      ensures AttemptBound(action, q, q.attempts[k], k + 1) && TimingValid(q.attempts[k]) && ReceiptLinkValid(records, q, q.attempts[k])
      ensures k + 1 < |q.attempts| ==> q.attempts[k].status.PermitsRetry()
    {
      assert AttemptBound(action, r, r.attempts[k], k + 1) && TimingValid(r.attempts[k]) && ReceiptLinkValid(records, r, r.attempts[k]);
      assert k < j ==> q.attempts[k] == r.attempts[k];
    }
  }

  lemma SettledReservationsValid(
    records: seq<Contract>, c: Contract, reservations: seq<Reservation>, i: nat, j: nat, proof: ReceiptProof, now: nat)
    requires c.ExecutionReceipt? && i < |reservations| && j == |reservations[i].attempts| - 1
    requires ReservationsValid(records, reservations) && Find(records, c.Ref()) == Some(c)
    requires reservations[i].attempts[j].status.Dispatched? || reservations[i].attempts[j].status.ReconciliationRequired?
    requires ReceiptMatches(c.receipt, reservations[i], reservations[i].attempts[j]) && ReceiptProofValidAt(c, proof, now)
    ensures ReservationsValid(
      records, WithAttempt(reservations, i, j, SettleAttempt(reservations[i].attempts[j], c, proof)))
  {
    hide ReservationValid, ConsumedOnce, ScopesUnique, ReservationIdsUnique;
    hide SettleAttempt, ReceiptMatches, ReceiptProofValidAt, Find;
    var after := WithAttempt(reservations, i, j, SettleAttempt(reservations[i].attempts[j], c, proof));
    SettledKeepsShape(reservations, i, j, c, proof);
    ShapeKeepsSeparation(reservations, after);
    SettledReservationValid(records, c, reservations, i, j, proof, now);
    forall k | 0 <= k < |after|
      ensures ReservationValid(records, after[k])
    {
      if k != i {
        assert after[k] == reservations[k];
      }
    }
  }

  lemma ReceiptCrossObject(c: Contract, prior: seq<Contract>, reservations: seq<Reservation>)
    requires c.ExecutionReceipt?
    ensures CrossObjectConsistent(c, prior, reservations) <==> ReceiptConsistent(c, prior, reservations)
  {
    hide ReceiptConsistent;
  }

  lemma SettledRecordsValid(
    records: seq<Contract>, c: Contract, reservations: seq<Reservation>, i: nat, j: nat, proof: ReceiptProof)
    requires c.ExecutionReceipt? && c.Valid() && ReferencesEarlier(records + [c], |records|)
    requires RecordsValid(records, reservations) && ReceiptConsistent(c, records, reservations)
    requires i < |reservations| && j < |reservations[i].attempts|
    requires FindReservation(reservations, c.receipt.actionRef) == Some(i)
    requires FindAttempt(reservations[i].attempts, c.receipt.permitId) == Some(j)
    requires ReceiptMatches(c.receipt, reservations[i], reservations[i].attempts[j])
    ensures RecordsValid(records + [c], WithAttempt(reservations, i, j, SettleAttempt(reservations[i].attempts[j], c, proof)))
  {
    hide Find, Contract.Valid, ReferencesEarlier, RecordsValid, ReceiptConsistent, CrossObjectConsistent, SettleAttempt;
    hide ReceiptMatches, SameBindings, ReceiptKept, FindAttempt, FindReservation, WithAttempt;
    var after := WithAttempt(reservations, i, j, SettleAttempt(reservations[i].attempts[j], c, proof));
    SettledKeepsShape(reservations, i, j, c, proof);
    NoEarlierReceipt(c, records, reservations);
    forall k | 0 <= k < |records| && records[k].ExecutionReceipt?
      ensures ReceiptKept(records[k], reservations, after)
    {
      SettledKeepsReceipt(records[k], c, reservations, i, j, proof);
    }
    RecordsStayValid(records, reservations, after);
    SettledCarries(c, reservations, i, j, proof);
    ReceiptStays(c, records, reservations, after);
    ReceiptCrossObject(c, records, after);
    RecordsExtended(records, c, after);
  }

  /** Settling an attempt with a fresh receipt keeps records and reservations valid. */
  lemma SettledStaysValid(
    records: seq<Contract>, c: Contract, reservations: seq<Reservation>, proof: ReceiptProof, now: nat)
    requires c.ExecutionReceipt? && c.Valid() && ReferencesEarlier(records + [c], |records|)
    requires RecordsValid(records, reservations) && ReservationsValid(records, reservations)
    requires ReceiptConsistent(c, records, reservations) && Find(records, c.Ref()).None? && ReceiptProofValidAt(c, proof, now)
    ensures Settle(reservations, c, proof).Ok?
    ensures RecordsValid(records + [c], Settle(reservations, c, proof).value)
    ensures ReservationsValid(records + [c], Settle(reservations, c, proof).value)
  {
    hide Find, Contract.Valid, ReferencesEarlier, RecordsValid;
    hide ReservationsValid, ReceiptConsistent, ReceiptProofValidAt, Settle;
    hide SettleAttempt, ReceiptMatches, FindAttempt, FindReservation, WithAttempt;
    var i, j := ReceiptFindsAttempt(c, records, reservations, proof);
    SettledRecordsValid(records, c, reservations, i, j, proof);
    ReservationsExtended(records, c, reservations);
    FindAppended(records, c);
    SettledReservationsValid(records + [c], c, reservations, i, j, proof, now);
  }

  lemma NoEarlierReceipt(c: Contract, records: seq<Contract>, reservations: seq<Reservation>)
    requires c.ExecutionReceipt? && ReceiptConsistent(c, records, reservations)
    ensures forall k :: 0 <= k < |records| && records[k].ExecutionReceipt? ==>
      !(records[k].receipt.actionRef == c.receipt.actionRef && records[k].receipt.attempt == c.receipt.attempt)
  {
  }

  lemma ReceiptCommitAccepted(s: State, c: Contract, proof: ReceiptProof, now: nat)
    requires StateValid(s) && c.Valid() && c.ExecutionReceipt? && Committable(s, c)
    requires ReceiptProofValidAt(c, proof, now) && Find(s.records, c.Ref()).None?
    ensures CommitCandidate(s, c, Some(proof)).Ok? && StateValid(CommitCandidate(s, c, Some(proof)).value)
  {
    hide Contract.Valid, RecordsUnique, PointersLatest, InvalidatedKnown;
    hide CachedIsReplay, RecordsValid, ReservationsValid;
    hide ContinuesPointer, ContinuesLineage, DependencyUsable, Affected;
    hide ReferencesEarlier, Find, Settle, ReceiptProofValidAt;
    hide ReceiptConsistent, CrossObjectConsistent, Reconciled, SameBindings, ReceiptKept;
    ReceiptCrossObject(c, s.records, s.reservations);
    var t := Appended(s, c);
    AppendedLogValid(s, c);
    ClearedStaysValid(s, c);
    ReferencesStand(s, c);
    if c.Key() in s.current {
      ReconciledKeepsReceipt(c, s.reservations, s.current, t.invalidated, s.current[c.Key()]);
    } else {
      SameKeepsReceipt(c, s.reservations);
    }
    ReceiptStays(c, s.records, s.reservations, t.reservations);
    SettledStaysValid(s.records, c, t.reservations, proof, now);
    LogOnly(t, Settle(t.reservations, c, proof).value);
  }

  lemma SameKeepsReceipt(c: Contract, reservations: seq<Reservation>)
    requires c.ExecutionReceipt?
    ensures SameBindings(reservations, reservations) && ReceiptKept(c, reservations, reservations)
  {
  }

  lemma LogOnly(s: State, reservations: seq<Reservation>)
    requires CachedIsReplay(s)
    ensures CachedIsReplay(s.(reservations := reservations))
  {
  }

  /**
    A commit whose checks pass is always persisted: from an accepted state the candidate
    exists, the validator accepts it, and the receipt transition inside it never fails.
   */
  lemma CommitAccepted(s: State, c: Contract, proof: Option<ReceiptProof>, now: nat)
    requires StateValid(s)
    ensures
      var plan := PlanCommit(s, c, proof, now);
      && (plan.write.Some? ==> StateValid(plan.write.value))
      && (plan.write.Some? <==>
            (&& c.ExecutionReceipt? == proof.Some? && c.Valid()
             && (proof.Some? ==> ReceiptProofValidAt(c, proof.value, now))
             && Find(s.records, c.Ref()).None? && Committable(s, c)))
      && plan.result != Err(CorruptSnapshot)
  {
    hide Contract.Valid, RecordsUnique, InvalidatedKnown, CachedIsReplay;
    hide RecordsValid, ReservationsValid, PointersLatest;
    hide ContinuesPointer, ContinuesLineage, DependencyUsable, Affected, Find;
    hide Settle, ReceiptProofValidAt, Reconciled, CrossObjectConsistent;
    if c.Key() in s.current {
      PointerFound(s.records, s.current, c.Key());
    }
    if c.ExecutionReceipt? == proof.Some? && c.Valid() && Find(s.records, c.Ref()).None? && Committable(s, c) {
      if proof.None? {
        PlainCommitAccepted(s, c);
      } else if ReceiptProofValidAt(c, proof.value, now) {
        ReceiptCommitAccepted(s, c, proof.value, now);
      }
    }
  }
}
