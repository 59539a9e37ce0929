/**
  The snapshot validator: it accepts a state exactly when `StateValid` holds of it.
 */
module StoreValidator {
  import opened Wrappers
  import opened Contracts
  import opened SigningBytes
  import opened StoreModel
  import opened StoreOperations
  import opened StoreSnapshot
  import Graphs

  lemma FindIff(records: seq<Contract>, ref: ContractRef)
    ensures Find(records, ref).Some? <==> exists j :: 0 <= j < |records| && records[j].Ref() == ref
  {
    var found := Find(records, ref);
    if found.Some? {
      var j :| 0 <= j < |records| && records[j] == found.value;
      assert records[j].Ref() == ref;
    }
  }

  /** Where each record stands in the log's first `n` entries. */
  ghost predicate Positions(records: seq<Contract>, n: nat, positions: map<ContractRef, nat>)
    requires n <= |records|
  {
    && (forall j :: 0 <= j < n ==> records[j].Ref() in positions && positions[records[j].Ref()] == j)
    && (forall r :: r in positions ==> positions[r] < n && records[positions[r]].Ref() == r)
  }

  lemma PositionFinds(records: seq<Contract>, positions: map<ContractRef, nat>, i: nat, ref: ContractRef)
    requires Positions(records, |records|, positions) && i <= |records|
    ensures Find(records[..i], ref).Some? <==> ref in positions && positions[ref] < i
  {
    FindIff(records[..i], ref);
    if ref in positions && positions[ref] < i {
      assert records[..i][positions[ref]].Ref() == ref;
    }
  }

  method IndexRecords(records: seq<Contract>) returns (ok: bool, positions: map<ContractRef, nat>)
    ensures ok <==> (RecordsUnique(records) && forall i :: 0 <= i < |records| ==> records[i].Valid())
    ensures ok ==> Positions(records, |records|, positions)
  {
    hide Contract.Valid;
    positions := map[];
    var seen: set<(ContractKey, nat)> := {};
    var i := 0;
    while i < |records|
      invariant i <= |records|
      invariant forall j :: 0 <= j < i ==> records[j].Valid()
      invariant RecordsUnique(records[..i])
      invariant Positions(records, i, positions)
      invariant forall j :: 0 <= j < i ==> (records[j].Key(), records[j].metadata.revision) in seen
      invariant forall x :: x in seen ==> exists j :: 0 <= j < i && (records[j].Key(), records[j].metadata.revision) == x
    {
      var key := (records[i].Key(), records[i].metadata.revision);
      if !records[i].Valid() || key in seen {
        return false, positions;
      }
      assert forall j :: 0 <= j < i ==> records[..i + 1][j] == records[..i][j];
      seen := seen + {key};
      positions := positions[records[i].Ref() := i];
      i := i + 1;
    }
    assert records[..i] == records;
    ok := true;
  }

  method CheckReferences(records: seq<Contract>, positions: map<ContractRef, nat>, i: nat) returns (ok: bool)
    requires Positions(records, |records|, positions) && i < |records|
    ensures ok <==> ReferencesEarlier(records, i)
  {
    var m := records[i].metadata;
    if m.predecessor.Some? {
      PositionFinds(records, positions, i, m.predecessor.value);
      if m.predecessor.value.kind != records[i].Kind()
        || m.predecessor.value !in positions || positions[m.predecessor.value] >= i
      {
        return false;
      }
    }
    var j := 0;
    while j < |m.dependencies|
      invariant j <= |m.dependencies|
      invariant forall k :: 0 <= k < j ==> Find(records[..i], m.dependencies[k]).Some?
    {
      PositionFinds(records, positions, i, m.dependencies[j]);
      if m.dependencies[j] !in positions || positions[m.dependencies[j]] >= i {
        return false;
      }
      j := j + 1;
    }
    ok := true;
  }

  /** The latest revision of each key among the first `n` records. */
  ghost predicate Latest(records: seq<Contract>, n: nat, latest: map<ContractKey, ContractRef>)
    requires n <= |records|
  {
    && (forall j :: 0 <= j < n ==> records[j].Key() in latest && records[j].metadata.revision <= latest[records[j].Key()].revision)
    && (forall k :: k in latest ==> latest[k].Key() == k && Find(records[..n], latest[k]).Some?)
  }

  lemma LatestStep(records: seq<Contract>, n: nat, latest: map<ContractKey, ContractRef>)
    requires n < |records| && Latest(records, n, latest)
    ensures
      var c := records[n];
      var superseded := !(c.Key() in latest && latest[c.Key()].revision >= c.metadata.revision);
      Latest(records, n + 1, if superseded then latest[c.Key() := c.Ref()] else latest)
  {
    hide Contract.Valid, Find;
    FindAppended(records[..n], records[n]);
    assert records[..n] + [records[n]] == records[..n + 1];
  }

  ghost predicate RecordValid(records: seq<Contract>, reservations: seq<Reservation>, i: nat)
    requires i < |records|
  {
    records[i].Valid() && ReferencesEarlier(records, i) && CrossObjectConsistent(records[i], records[..i], reservations)
  }

  lemma RecordsValidIff(records: seq<Contract>, reservations: seq<Reservation>)
    ensures RecordsValid(records, reservations) <==> forall i :: 0 <= i < |records| ==> RecordValid(records, reservations, i)
  {
    hide Contract.Valid, CrossObjectConsistent, ReferencesEarlier;
    if forall i :: 0 <= i < |records| ==> RecordValid(records, reservations, i) {
      forall i | 0 <= i < |records|
        ensures records[i].Valid() && ReferencesEarlier(records, i) && CrossObjectConsistent(records[i], records[..i], reservations)
      {
        assert RecordValid(records, reservations, i);
      }
    }
  }

  lemma RecordsValidEach(records: seq<Contract>, reservations: seq<Reservation>)
    ensures RecordsValid(records, reservations) ==> forall i :: 0 <= i < |records| ==> records[i].Valid()
  {
    hide Contract.Valid, CrossObjectConsistent, ReferencesEarlier;
  }

  method CheckRecords(records: seq<Contract>, reservations: seq<Reservation>, positions: map<ContractRef, nat>)
    returns (ok: bool, latest: map<ContractKey, ContractRef>)
    requires Positions(records, |records|, positions)
    requires forall i :: 0 <= i < |records| ==> records[i].Valid()
    ensures ok <==> RecordsValid(records, reservations)
    ensures ok ==> Latest(records, |records|, latest)
  {
    hide Contract.Valid, CrossObjectConsistent, ReferencesEarlier, RecordsValid;
    RecordsValidIff(records, reservations);
    latest := map[];
    var i := 0;
    while i < |records|
      invariant i <= |records|
      invariant forall j :: 0 <= j < i ==> RecordValid(records, reservations, j)
      invariant Latest(records, i, latest)
    {
      var referencesOk := CheckReferences(records, positions, i);
      if !referencesOk || !CrossObjectConsistent(records[i], records[..i], reservations) {
        assert !RecordValid(records, reservations, i);
        return false, latest;
      }
      LatestStep(records, i, latest);
      var key := records[i].Key();
      if !(key in latest && latest[key].revision >= records[i].metadata.revision) {
        latest := latest[key := records[i].Ref()];
      }
      i := i + 1;
    }
    ok := true;
  }

  lemma PointerRecord(records: seq<Contract>, current: map<ContractKey, ContractRef>, k: ContractKey) returns (i: nat)
    requires PointersLatest(records, current) && k in current
    ensures i < |records| && records[i].Ref() == current[k]
    ensures records[i].Key() == k && records[i].metadata.revision == current[k].revision
  {
    hide Find, Contract.Valid;
    var x := Find(records, current[k]).value;
    i :| 0 <= i < |records| && records[i] == x;
    assert x.Ref() == current[k] && current[k].Key() == k;
  }

  lemma PointerAtLeast(records: seq<Contract>, current: map<ContractKey, ContractRef>, i: nat)
    requires PointersLatest(records, current) && i < |records|
    ensures records[i].Key() in current && records[i].metadata.revision <= current[records[i].Key()].revision
  {
    hide Find, Contract.Valid;
  }

  lemma SameIndex(records: seq<Contract>, i: nat, j: nat)
    requires RecordsUnique(records) && i < |records| && j < |records|
    requires records[i].Key() == records[j].Key() && records[i].metadata.revision == records[j].metadata.revision
    ensures i == j
  {
  }

  /** Two pointer maps over the same log whose every pointer is a latest record agree. */
  lemma PointersUnique(
    records: seq<Contract>, a: map<ContractKey, ContractRef>, b: map<ContractKey, ContractRef>, k: ContractKey)
    requires RecordsUnique(records) && PointersLatest(records, a) && PointersLatest(records, b) && k in a
    ensures k in b && a[k] == b[k]
  {
    hide Find, Contract.Valid, PointersLatest, RecordsUnique;
    var i := PointerRecord(records, a, k);
    PointerAtLeast(records, b, i);
    var j := PointerRecord(records, b, k);
    PointerAtLeast(records, a, j);
    SameIndex(records, i, j);
  }

  lemma LatestFound(records: seq<Contract>, latest: map<ContractKey, ContractRef>)
    requires Latest(records, |records|, latest)
    ensures PointersLatest(records, latest)
  {
    hide Find, Contract.Valid;
    assert records[..|records|] == records;
  }

  lemma LatestIsPointer(
    records: seq<Contract>, latest: map<ContractKey, ContractRef>, current: map<ContractKey, ContractRef>)
    requires RecordsUnique(records) && Latest(records, |records|, latest)
    ensures PointersLatest(records, current) <==> current == latest
  {
    hide *;
    LatestFound(records, latest);
    if PointersLatest(records, current) {
      forall k | k in current
        ensures k in latest && latest[k] == current[k]
      {
        PointersUnique(records, current, latest, k);
      }
      forall k | k in latest
        ensures k in current
      {
        PointersUnique(records, latest, current, k);
      }
    }
  }

  /** Every pointer is the latest record of its key, and no key lacks its pointer. */
  method CheckPointers(
    records: seq<Contract>, latest: map<ContractKey, ContractRef>, current: map<ContractKey, ContractRef>)
    returns (ok: bool)
    requires RecordsUnique(records) && Latest(records, |records|, latest)
    ensures ok <==> PointersLatest(records, current)
  {
    hide Latest, PointersLatest, RecordsUnique;
    LatestIsPointer(records, latest, current);
    var left := current.Keys;
    while left != {}
      invariant left <= current.Keys
      invariant forall k :: k in current.Keys - left ==> k in latest && latest[k] == current[k]
    {
      var k :| k in left;
      if !(k in latest && latest[k] == current[k]) {
        return false;
      }
      left := left - {k};
    }
    if current.Keys < latest.Keys {
      Graphs.SubsetSize(current.Keys, latest.Keys);
    }
    ok := |current.Keys| == |latest.Keys|;
  }

  method CheckInvalidated(
    positions: map<ContractRef, nat>, invalidated: set<ContractRef>, ghost records: seq<Contract>) returns (ok: bool)
    requires Positions(records, |records|, positions)
    ensures ok <==> InvalidatedKnown(records, invalidated)
  {
    forall r: ContractRef
      ensures Find(records, r).Some? <==> r in positions
    {
      PositionFinds(records, positions, |records|, r);
      assert records[..|records|] == records;
    }
    ok := invalidated <= positions.Keys;
  }

  // ---------------------------------------------------------------- replay

  lemma ReplayFails(records: seq<Contract>, n: nat)
    requires n <= |records| && Replay(records[..n]).None?
    ensures Replay(records).None?
    decreases |records|
  {
    if n < |records| {
      assert records[..|records| - 1][..n] == records[..n];
      ReplayFails(records[..|records| - 1], n);
    } else {
      assert records[..n] == records;
    }
  }

  /** Replays the log into a fresh snapshot. */
  method ReplayHistory(records: seq<Contract>) returns (ok: bool, replayed: Snapshot)
    ensures fresh(replayed)
    ensures ok <==> Replay(records).Some?
    ensures ok ==> replayed.Value() == Replay(records).value
  {
    hide Find, Affected, Reconciled, Appended, ContinuesPointer, ContinuesLineage;
    replayed := new Snapshot(EMPTY);
    var i := 0;
    while i < |records|
      invariant i <= |records| && fresh(replayed)
      invariant Replay(records[..i]) == Some(replayed.Value())
      invariant replayed.records == records[..i] && PointersRecorded(replayed.records, replayed.current)
    {
      var c := records[i];
      ghost var was := replayed.Value();
      assert records[..i + 1][..i] == records[..i];
      if !ContinuesPointer(replayed.current, c) || !ContinuesLineage(replayed.records, replayed.current, c) {
        ReplayFails(records, i + 1);
        return false, replayed;
      }
      var appended := replayed.AppendRecord(c);
      assert records[..i + 1] == records[..i] + [c];
      i := i + 1;
    }
    assert records[..i] == records;
    ok := true;
  }

  // ---------------------------------------------------------------- reservations

  /** The one-time values seen so far. */
  datatype Seen = Seen(proofIds: set<Uuid>, nonces: set<string>, authorizations: set<Id>)

  predicate FreshIn(seen: Seen, a: Attempt) {
    a.proofId !in seen.proofIds && a.nonce !in seen.nonces && a.authorization.id !in seen.authorizations
  }

  function Consume(seen: Seen, a: Attempt): Seen {
    Seen(seen.proofIds + {a.proofId}, seen.nonces + {a.nonce}, seen.authorizations + {a.authorization.id})
  }

  /** All attempts of all reservations, in order. */
  function AllAttempts(reservations: seq<Reservation>): seq<Attempt> {
    if reservations == [] then []
    else AllAttempts(reservations[..|reservations| - 1]) + reservations[|reservations| - 1].attempts
  }

  ghost predicate PairwiseApart(attempts: seq<Attempt>) {
    forall m, n :: 0 <= m < n < |attempts| ==> ConsumesApart(attempts[m], attempts[n])
  }

  /** `seen` holds exactly the one-time values of `attempts`. */
  ghost predicate SeenIs(seen: Seen, attempts: seq<Attempt>) {
    && seen.proofIds == (set a | a in attempts :: a.proofId)
    && seen.nonces == (set a | a in attempts :: a.nonce)
    && seen.authorizations == (set a | a in attempts :: a.authorization.id)
  }

  lemma SeenStep(seen: Seen, attempts: seq<Attempt>, a: Attempt)
    requires SeenIs(seen, attempts) && PairwiseApart(attempts)
    ensures FreshIn(seen, a) <==> PairwiseApart(attempts + [a])
    ensures SeenIs(Consume(seen, a), attempts + [a])
  {
    var longer := attempts + [a];
    assert longer[|attempts|] == a;
    assert forall b :: b in longer <==> b in attempts || b == a;
    if PairwiseApart(longer) {
      forall b | b in attempts
        ensures ConsumesApart(b, a)
      {
        var m :| 0 <= m < |attempts| && attempts[m] == b;
        assert ConsumesApart(longer[m], longer[|attempts|]);
      }
    }
    if FreshIn(seen, a) {
      forall m, n | 0 <= m < n < |longer|
        ensures ConsumesApart(longer[m], longer[n])
      {
        assert longer[m] == attempts[m] && longer[m] in attempts;
        if n < |attempts| {
          assert longer[n] == attempts[n];
        }
      }
    }
  }

  lemma ApartPrefix(attempts: seq<Attempt>, more: seq<Attempt>)
    requires PairwiseApart(attempts + more)
    ensures PairwiseApart(attempts)
  {
    forall m, n | 0 <= m < n < |attempts|
      ensures ConsumesApart(attempts[m], attempts[n])
    {
      assert ConsumesApart((attempts + more)[m], (attempts + more)[n]);
    }
  }

  /** Where the attempt `m` of reservation `i` stands among all attempts. */
  ghost function Offset(reservations: seq<Reservation>, i: nat): nat
    requires i <= |reservations|
  {
    |AllAttempts(reservations[..i])|
  }

  lemma {:induction false} AttemptAt(reservations: seq<Reservation>, i: nat, m: nat)
    requires i < |reservations| && m < |reservations[i].attempts|
    ensures Offset(reservations, i) + |reservations[i].attempts| == Offset(reservations, i + 1) <= |AllAttempts(reservations)|
    ensures AllAttempts(reservations)[Offset(reservations, i) + m] == reservations[i].attempts[m]
    decreases |reservations|
  {
    var last := |reservations| - 1;
    var front := reservations[..last];
    assert reservations[..i + 1][..i] == reservations[..i];
    if i < last {
      AttemptAt(front, i, m);
      assert front[..i] == reservations[..i] && front[..i + 1] == reservations[..i + 1];
    } else {
      assert reservations[..i + 1] == reservations;
    }
  }

  lemma {:induction false} OffsetsGrow(reservations: seq<Reservation>, i: nat, j: nat)
    requires i <= j <= |reservations|
    ensures Offset(reservations, i) <= Offset(reservations, j)
    decreases j - i
  {
    if i < j {
      OffsetsGrow(reservations, i, j - 1);
      assert reservations[..j][..j - 1] == reservations[..j - 1];
    }
  }

  lemma {:induction false} AttemptSomewhere(reservations: seq<Reservation>, n: nat) returns (i: nat, m: nat)
    requires n < |AllAttempts(reservations)|
    ensures i < |reservations| && m < |reservations[i].attempts| && Offset(reservations, i) + m == n
    decreases |reservations|
  {
    var last := |reservations| - 1;
    var front := reservations[..last];
    if n < |AllAttempts(front)| {
      i, m := AttemptSomewhere(front, n);
      assert front[..i] == reservations[..i];
    } else {
      i, m := last, n - |AllAttempts(front)|;
    }
  }

  /** Consuming once, over pairs of attempts and over the flat list, is the same. */
  lemma ConsumedOnceIff(reservations: seq<Reservation>)
    ensures ConsumedOnce(reservations) <==> PairwiseApart(AllAttempts(reservations))
  {
    var all := AllAttempts(reservations);
    if PairwiseApart(all) {
      forall i, m, j, n |
        0 <= i < |reservations| && 0 <= m < |reservations[i].attempts| &&
        0 <= j < |reservations| && 0 <= n < |reservations[j].attempts| && (i < j || (i == j && m < n))
        ensures ConsumesApart(reservations[i].attempts[m], reservations[j].attempts[n])
      {
        AttemptAt(reservations, i, m);
        AttemptAt(reservations, j, n);
        if i < j {
          OffsetsGrow(reservations, i + 1, j);
        }
        assert ConsumesApart(all[Offset(reservations, i) + m], all[Offset(reservations, j) + n]);
      }
    }
    if ConsumedOnce(reservations) {
      forall k, l | 0 <= k < l < |all|
        ensures ConsumesApart(all[k], all[l])
      {
        var i, m := AttemptSomewhere(reservations, k);
        var j, n := AttemptSomewhere(reservations, l);
        AttemptAt(reservations, i, m);
        AttemptAt(reservations, j, n);
        if j < i {
          OffsetsGrow(reservations, j + 1, i);
        }
      }
    }
  }

  ghost predicate AttemptValid(records: seq<Contract>, r: Reservation, action: Contract, k: nat)
    requires k < |r.attempts| && action.Action?
  {
    && AttemptBound(action, r, r.attempts[k], k + 1)
    && TimingValid(r.attempts[k])
    && ReceiptLinkValid(records, r, r.attempts[k])
    && (k + 1 < |r.attempts| ==> r.attempts[k].status.PermitsRetry())
  }

  /** One reservation's attempts: each valid, and none repeating a one-time value. */
  method CheckAttempts(
    records: seq<Contract>, r: Reservation, action: Contract, seen: Seen, ghost earlier: seq<Attempt>)
    returns (ok: bool, after: Seen)
    requires action.Action? && SeenIs(seen, earlier) && PairwiseApart(earlier)
    ensures ok <==>
      ((forall k :: 0 <= k < |r.attempts| ==> AttemptValid(records, r, action, k)) && PairwiseApart(earlier + r.attempts))
    ensures ok ==> SeenIs(after, earlier + r.attempts)
  {
    hide AttemptBound, TimingValid, ReceiptLinkValid, PairwiseApart, SeenIs;
    after := seen;
    var k := 0;
    assert earlier + r.attempts[..0] == earlier;
    while k < |r.attempts|
      invariant k <= |r.attempts|
      invariant forall j :: 0 <= j < k ==> AttemptValid(records, r, action, j)
      invariant PairwiseApart(earlier + r.attempts[..k]) && SeenIs(after, earlier + r.attempts[..k])
    {
      var a := r.attempts[k];
      SeenStep(after, earlier + r.attempts[..k], a);
      assert earlier + r.attempts[..k] + [a] == earlier + r.attempts[..k + 1];
      if !AttemptBound(action, r, a, k + 1) || !TimingValid(a) || !ReceiptLinkValid(records, r, a)
        || (k + 1 < |r.attempts| && !a.status.PermitsRetry())
      {
        assert !AttemptValid(records, r, action, k);
        return false, after;
      }
      if !FreshIn(after, a) {
        if PairwiseApart(earlier + r.attempts) {
          assert earlier + r.attempts == (earlier + r.attempts[..k + 1]) + r.attempts[k + 1..];
          ApartPrefix(earlier + r.attempts[..k + 1], r.attempts[k + 1..]);
        }
        return false, after;
      }
      after := Consume(after, a);
      k := k + 1;
    }
    assert r.attempts[..k] == r.attempts;
    ok := true;
  }

  /** The identifiers, actions and scopes of the reservations looked at so far. */
  datatype Taken = Taken(ids: set<Id>, actions: set<ContractRef>, scopes: set<(Reference, Reference, string)>)

  function ScopeOf(r: Reservation): (Reference, Reference, string) {
    (r.tenant, r.operation, r.idempotencyKey)
  }

  ghost predicate TakenIs(taken: Taken, reservations: seq<Reservation>) {
    && taken.ids == (set r | r in reservations :: r.id)
    && taken.actions == (set r | r in reservations :: r.actionRef)
    && taken.scopes == (set r | r in reservations :: ScopeOf(r))
  }

  predicate Available(taken: Taken, r: Reservation) {
    r.id !in taken.ids && r.actionRef !in taken.actions && ScopeOf(r) !in taken.scopes
  }

  function Take(taken: Taken, r: Reservation): Taken {
    Taken(taken.ids + {r.id}, taken.actions + {r.actionRef}, taken.scopes + {ScopeOf(r)})
  }

  /** Two reservations that share no identifier, action or scope. */
  ghost predicate Apart(q: Reservation, r: Reservation) {
    q.id != r.id && q.actionRef != r.actionRef && ScopeOf(q) != ScopeOf(r)
  }

  ghost predicate Separate(reservations: seq<Reservation>) {
    forall i, j :: 0 <= i < j < |reservations| ==> Apart(reservations[i], reservations[j])
  }

  lemma SeparateIff(reservations: seq<Reservation>)
    ensures Separate(reservations) <==> (ReservationIdsUnique(reservations) && ScopesUnique(reservations))
  {
    if Separate(reservations) {
      forall i, j | 0 <= i < j < |reservations|
        ensures reservations[i].id != reservations[j].id && reservations[i].actionRef != reservations[j].actionRef
        ensures ScopeOf(reservations[i]) != ScopeOf(reservations[j])
      {
        assert Apart(reservations[i], reservations[j]);
      }
    }
  }

  lemma TakenStep(taken: Taken, reservations: seq<Reservation>, r: Reservation)
    requires TakenIs(taken, reservations) && Separate(reservations)
    ensures Available(taken, r) <==> Separate(reservations + [r])
    ensures TakenIs(Take(taken, r), reservations + [r])
  {
    var longer := reservations + [r];
    assert longer[|reservations|] == r;
    assert forall q :: q in longer <==> q in reservations || q == r;
    if Separate(longer) {
      forall q | q in reservations
        ensures Apart(q, r)
      {
        var i :| 0 <= i < |reservations| && reservations[i] == q;
        assert Apart(longer[i], longer[|reservations|]);
      }
    }
    if Available(taken, r) {
      forall i, j | 0 <= i < j < |longer|
        ensures Apart(longer[i], longer[j])
      {
        assert longer[i] == reservations[i] && longer[i] in reservations;
        if j < |reservations| {
          assert longer[j] == reservations[j];
        }
      }
    }
  }

  lemma SeparatePrefix(reservations: seq<Reservation>, n: nat)
    requires n <= |reservations| && Separate(reservations)
    ensures Separate(reservations[..n])
  {
  }

  lemma {:induction false} AllAttemptsPrefix(reservations: seq<Reservation>, n: nat) returns (rest: seq<Attempt>)
    requires n <= |reservations|
    ensures AllAttempts(reservations) == AllAttempts(reservations[..n]) + rest
    decreases |reservations|
  {
    if n == |reservations| {
      assert reservations[..n] == reservations;
      rest := [];
    } else {
      var last := |reservations| - 1;
      var r := AllAttemptsPrefix(reservations[..last], n);
      assert reservations[..last][..n] == reservations[..n];
      rest := r + reservations[last].attempts;
    }
  }

  lemma ReservationUnfolds(records: seq<Contract>, r: Reservation, action: Contract)
    requires Find(records, r.actionRef) == Some(action) && action.Action?
    ensures ReservationValid(records, r) <==>
      && HeaderValid(r, action)
      && forall k :: 0 <= k < |r.attempts| ==> AttemptValid(records, r, action, k)
  {
    if ReservationValid(records, r) {
      forall k | 0 <= k < |r.attempts|
        ensures AttemptValid(records, r, action, k)
      {
      }
    }
    if HeaderValid(r, action) && forall k :: 0 <= k < |r.attempts| ==> AttemptValid(records, r, action, k) {
      forall i | 0 <= i < |r.attempts|
        ensures AttemptBound(action, r, r.attempts[i], i + 1) && TimingValid(r.attempts[i])
        ensures ReceiptLinkValid(records, r, r.attempts[i])
        ensures i + 1 < |r.attempts| ==> r.attempts[i].status.PermitsRetry()
      {
        assert AttemptValid(records, r, action, i);
      }
    }
  }

  lemma NeedsAction(records: seq<Contract>, r: Reservation)
    ensures ReservationValid(records, r) ==> Find(records, r.actionRef).Some? && Find(records, r.actionRef).value.Action?
  {
  }

  predicate HeaderValid(r: Reservation, action: Contract)
    requires action.Action?
  {
    && r.id != 0
    && r.tenant == action.metadata.authority.tenant
    && r.operation == action.operation
    && r.idempotencyKey == action.idempotencyKey
    && r.attempts != []
  }

  lemma PartFails(records: seq<Contract>, reservations: seq<Reservation>, n: nat)
    requires n < |reservations|
    requires
      || !ReservationValid(records, reservations[n])
      || !Separate(reservations[..n + 1])
      || !PairwiseApart(AllAttempts(reservations[..n + 1]))
    ensures !ReservationsValid(records, reservations)
  {
    if ReservationsValid(records, reservations) {
      SeparateIff(reservations);
      SeparatePrefix(reservations, n + 1);
      ConsumedOnceIff(reservations);
      var rest := AllAttemptsPrefix(reservations, n + 1);
      ApartPrefix(AllAttempts(reservations[..n + 1]), rest);
    }
  }

  lemma AllPartsHold(records: seq<Contract>, reservations: seq<Reservation>)
    requires forall i :: 0 <= i < |reservations| ==> ReservationValid(records, reservations[i])
    requires Separate(reservations) && PairwiseApart(AllAttempts(reservations))
    ensures ReservationsValid(records, reservations)
  {
    hide ReservationValid, Separate, PairwiseApart, ConsumedOnce, ReservationIdsUnique, ScopesUnique;
    ConsumedOnceIff(reservations);
    SeparateIff(reservations);
  }

  lemma StartsApart()
    ensures Separate([]) && TakenIs(Taken({}, {}, {}), [])
    ensures PairwiseApart(AllAttempts([])) && SeenIs(Seen({}, {}, {}), AllAttempts([]))
  {
  }

  lemma AllAttemptsStep(reservations: seq<Reservation>, i: nat)
    requires i < |reservations|
    ensures AllAttempts(reservations[..i + 1]) == AllAttempts(reservations[..i]) + reservations[i].attempts
  {
    assert reservations[..i + 1][..i] == reservations[..i];
  }

  method CheckReservations(records: seq<Contract>, reservations: seq<Reservation>) returns (ok: bool)
    ensures ok <==> ReservationsValid(records, reservations)
  {
    hide *;
    StartsApart();
    var taken := Taken({}, {}, {});
    var seen := Seen({}, {}, {});
    var i := 0;
    while i < |reservations|
      invariant i <= |reservations|
      invariant forall j :: 0 <= j < i ==> ReservationValid(records, reservations[j])
      invariant Separate(reservations[..i]) && TakenIs(taken, reservations[..i])
      invariant PairwiseApart(AllAttempts(reservations[..i])) && SeenIs(seen, AllAttempts(reservations[..i]))
    {
      var r := reservations[i];
      var found := Find(records, r.actionRef);
      if !(found.Some? && found.value.Action?) {
        NeedsAction(records, r);
        PartFails(records, reservations, i);
        return false;
      }
      ReservationUnfolds(records, r, found.value);
      TakenStep(taken, reservations[..i], r);
      assert reservations[..i] + [r] == reservations[..i + 1];
      if !HeaderValid(r, found.value) || !Available(taken, r) {
        PartFails(records, reservations, i);
        return false;
      }
      assert reservations[..i + 1][..i] == reservations[..i];
      AllAttemptsStep(reservations, i);
      var attemptsOk, after := CheckAttempts(records, r, found.value, seen, AllAttempts(reservations[..i]));
      if !attemptsOk {
        PartFails(records, reservations, i);
        return false;
      }
      taken, seen, i := Take(taken, r), after, i + 1;
    }
    assert reservations[..i] == reservations;
    AllPartsHold(records, reservations);
    ok := true;
  }

  // ---------------------------------------------------------------- the whole snapshot

  /** Accepts a snapshot exactly when its state is valid. */
  method ValidateSnapshot(s: StoreModel.State) returns (ok: bool)
    ensures ok <==> StateValid(s)
  {
    hide Contract.Valid, RecordsUnique, RecordsValid, PointersLatest, InvalidatedKnown, ReservationsValid, Replay;
    hide Positions, Latest;
    var indexed, positions := IndexRecords(s.records);
    if !indexed {
      RecordsValidEach(s.records, s.reservations);
      return false;
    }
    var recordsOk, latest := CheckRecords(s.records, s.reservations, positions);
    if !recordsOk {
      return false;
    }
    var pointersOk := CheckPointers(s.records, latest, s.current);
    var invalidatedOk := CheckInvalidated(positions, s.invalidated, s.records);
    if !pointersOk || !invalidatedOk {
      return false;
    }
    var replayOk, replayed := ReplayHistory(s.records);
    if !replayOk || replayed.current != s.current || replayed.invalidated != s.invalidated {
      return false;
    }
    ok := CheckReservations(s.records, s.reservations);
  }
}
