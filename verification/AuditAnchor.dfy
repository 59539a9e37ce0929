/**
  Checkpoints and their external anchor: commits write the log and a checkpoint at once,
  publishing follows later and may be lost, overtaken or repeated, and a restart brings
  the anchor up to date or detects a rollback.
 */
module AuditAnchor {
  import opened Wrappers
  import opened Contracts
  import opened AuditChain

  datatype Checkpoint = Checkpoint(
    tenant: Reference, sequence: nat, chainRoot: Root, recordSetRoot: string, executionStateRoot: string, id: Id)

  // ---------------------------------------------------------------- the anchor

  /** An older checkpoint, or another one in the current one's place. */
  predicate RollsBack(current: Checkpoint, next: Checkpoint) {
    || next.sequence < current.sequence
    || (next.sequence == current.sequence
        && (next.chainRoot != current.chainRoot || next.recordSetRoot != current.recordSetRoot
            || next.executionStateRoot != current.executionStateRoot))
  }

  predicate Publishable(anchor: map<Reference, Checkpoint>, c: Checkpoint) {
    c.tenant in anchor ==> !RollsBack(anchor[c.tenant], c)
  }

  function Published(anchor: map<Reference, Checkpoint>, c: Checkpoint): map<Reference, Checkpoint> {
    if Publishable(anchor, c) then anchor[c.tenant := c] else anchor
  }

  /** What a restart makes of one tenant: the anchor afterwards, or nothing when it refuses. */
  function Restarted(
    anchor: map<Reference, Checkpoint>, tenant: Reference, latest: Option<Checkpoint>, production: bool)
    : Option<map<Reference, Checkpoint>>
  {
    if latest.None? then if tenant in anchor || production then None else Some(anchor)
    else
      var c := latest.value;
      var behind := tenant !in anchor || anchor[tenant].sequence < c.sequence;
      if behind && !Publishable(anchor, c) then None
      else
        var brought := if behind then Published(anchor, c) else anchor;
        if tenant in brought && brought[tenant] == c then Some(brought) else None
  }

  class InMemoryAnchor {
    var checkpoints: map<Reference, Checkpoint>

    constructor ()
      ensures checkpoints == map[]
    {
      checkpoints := map[];
    }

    /** Overwrites the tenant's checkpoint unless that would roll it back or fork it. */
    method Publish(c: Checkpoint) returns (ok: bool)
      modifies this
      ensures ok <==> Publishable(old(checkpoints), c)
      ensures checkpoints == Published(old(checkpoints), c)
    {
      if c.tenant in checkpoints {
        var current := checkpoints[c.tenant];
        if c.sequence < current.sequence {
          return false;
        }
        if c.sequence == current.sequence
          && (c.chainRoot != current.chainRoot || c.recordSetRoot != current.recordSetRoot
              || c.executionStateRoot != current.executionStateRoot)
        {
          return false;
        }
      }
      checkpoints := checkpoints[c.tenant := c];
      ok := true;
    }

    /** One tenant of a restart. */
    method VerifyTenant(tenant: Reference, latest: Option<Checkpoint>, production: bool) returns (ok: bool)
      requires latest.Some? ==> latest.value.tenant == tenant
      modifies this
      ensures ok <==> Restarted(old(checkpoints), tenant, latest, production).Some?
      ensures ok ==> checkpoints == Restarted(old(checkpoints), tenant, latest, production).value
    {
      if latest.None? {
        return !(tenant in checkpoints || production);
      }
      var c := latest.value;
      if tenant !in checkpoints || checkpoints[tenant].sequence < c.sequence {
        var published := Publish(c);
        if !published {
          return false;
        }
      }
      ok := tenant in checkpoints && checkpoints[tenant] == c;
    }

    /**
      The restart check: the anchor of every tenant the database knows is brought to its latest
      checkpoint, or the restart is refused. `latest` has the tenants that have a checkpoint.
     */
    method VerifyExternalAnchor(tenants: set<Reference>, latest: map<Reference, Checkpoint>, production: bool) returns (ok: bool)
      requires forall tenant :: tenant in latest ==> latest[tenant].tenant == tenant
      modifies this
      ensures ok <==> forall tenant :: tenant in tenants ==> TenantPasses(old(checkpoints), latest, tenant, production)
      ensures ok ==> forall tenant :: tenant in tenants ==> AnchoredAt(checkpoints, latest, tenant)
      ensures ok ==> forall tenant :: tenant !in tenants ==> SameAt(old(checkpoints), checkpoints, tenant)
      ensures ok && production ==> forall tenant :: tenant in tenants ==> tenant in checkpoints
      ensures !ok ==> exists tenant :: tenant in tenants && Uncovered(old(checkpoints), latest, tenant, production)
    {
      var left := tenants;
      ghost var was := checkpoints;
      while left != {}
        invariant left <= tenants
        invariant forall tenant :: tenant in tenants - left ==>
          TenantPasses(was, latest, tenant, production) && AnchoredAt(checkpoints, latest, tenant)
        invariant forall tenant :: tenant !in tenants - left ==> SameAt(was, checkpoints, tenant)
      {
        var tenant :| tenant in left;
        var found := if tenant in latest then Some(latest[tenant]) else None;
        ghost var before := checkpoints;
        TenantLocal(was, before, latest, tenant, production);
        var accepted := VerifyTenant(tenant, found, production);
        if !accepted {
          return false;
        }
        forall other | other != tenant
          ensures SameAt(was, before, other) ==> SameAt(was, checkpoints, other)
          ensures AnchoredAt(before, latest, other) ==> AnchoredAt(checkpoints, latest, other)
        {
          assert SameAt(before, checkpoints, other);
        }
        left := left - {tenant};
      }
      ok := true;
    }
  }

  lemma TenantLocal(
    was: map<Reference, Checkpoint>, now: map<Reference, Checkpoint>, latest: map<Reference, Checkpoint>, tenant: Reference, production: bool)
    requires SameAt(was, now, tenant) && (tenant in latest ==> latest[tenant].tenant == tenant)
    ensures
      var r := Restarted(now, tenant, if tenant in latest then Some(latest[tenant]) else None, production);
      && (r.Some? <==> TenantPasses(was, latest, tenant, production))
      && (r.Some? ==> AnchoredAt(r.value, latest, tenant) && forall other :: other != tenant ==> SameAt(now, r.value, other))
  {
    if tenant in latest {
      RestartLocal(was, now, tenant, latest[tenant], production);
    }
  }

  /** The tenant has no checkpoint but has or needs an anchor, or its anchor is ahead of the checkpoint or differs in its place. */
  predicate Uncovered(anchor: map<Reference, Checkpoint>, latest: map<Reference, Checkpoint>, tenant: Reference, production: bool) {
    || (tenant !in latest && (production || tenant in anchor))
    || (tenant in latest && tenant in anchor
        && (anchor[tenant].sequence > latest[tenant].sequence
            || (anchor[tenant].sequence == latest[tenant].sequence && anchor[tenant] != latest[tenant])))
  }

  predicate TenantPasses(anchor: map<Reference, Checkpoint>, latest: map<Reference, Checkpoint>, tenant: Reference, production: bool) {
    if tenant in latest then RestartAccepts(anchor, latest[tenant]) else tenant !in anchor && !production
  }

  /** The tenant's anchor is its latest checkpoint, if it has one. */
  predicate AnchoredAt(anchor: map<Reference, Checkpoint>, latest: map<Reference, Checkpoint>, tenant: Reference) {
    (tenant in anchor <==> tenant in latest) && (tenant in latest ==> anchor[tenant] == latest[tenant])
  }

  predicate SameAt(a: map<Reference, Checkpoint>, b: map<Reference, Checkpoint>, tenant: Reference) {
    (tenant in a <==> tenant in b) && (tenant in a ==> a[tenant] == b[tenant])
  }

  /** A restart accepts a tenant's latest checkpoint when the anchor is missing, behind, or equal to it. */
  predicate RestartAccepts(anchor: map<Reference, Checkpoint>, c: Checkpoint) {
    c.tenant !in anchor || anchor[c.tenant].sequence < c.sequence || anchor[c.tenant] == c
  }

  /** Restart refuses exactly a database behind the anchor, or forked from it at the same sequence. */
  lemma RestartExact(anchor: map<Reference, Checkpoint>, tenant: Reference, c: Checkpoint, production: bool)
    requires c.tenant == tenant
    ensures Restarted(anchor, tenant, Some(c), production).Some? <==> RestartAccepts(anchor, c)
    ensures RestartAccepts(anchor, c) ==> Restarted(anchor, tenant, Some(c), production).value == anchor[tenant := c]
  {
    if tenant in anchor && anchor[tenant] == c {
      assert anchor == anchor[tenant := c];
    }
  }

  lemma RestartLocal(
    a: map<Reference, Checkpoint>, b: map<Reference, Checkpoint>, tenant: Reference, c: Checkpoint, production: bool)
    requires c.tenant == tenant && (tenant in a <==> tenant in b) && (tenant in a ==> a[tenant] == b[tenant])
    ensures RestartAccepts(a, c) <==> RestartAccepts(b, c)
    ensures Restarted(b, tenant, Some(c), production).Some? <==> RestartAccepts(b, c)
    ensures RestartAccepts(b, c) ==> Restarted(b, tenant, Some(c), production).value == b[tenant := c]
  {
    RestartExact(b, tenant, c, production);
  }

  // ---------------------------------------------------------------- what the anchor shows

  /** The anchor after a sequence of published checkpoints, whoever made them. */
  function Shown(offered: seq<Checkpoint>): map<Reference, Checkpoint> {
    if offered == [] then map[] else Published(Shown(offered[..|offered| - 1]), offered[|offered| - 1])
  }

  /** The same place in a tenant's log with the same three roots, perhaps under another identifier. */
  predicate Restates(a: Checkpoint, b: Checkpoint) {
    a.(id := b.id) == b
  }

  /**
    Whatever checkpoints are published, what a tenant's anchor shows is later only replaced by
    a checkpoint of a greater sequence or by the same one restated.
   */
  lemma {:induction false} AnchorNeverForks(offered: seq<Checkpoint>, more: seq<Checkpoint>, tenant: Reference)
    requires tenant in Shown(offered)
    ensures tenant in Shown(offered + more)
    ensures
      var a, b := Shown(offered)[tenant], Shown(offered + more)[tenant];
      a.tenant == tenant && (a.sequence < b.sequence || Restates(a, b))
    decreases |more|
  {
    ShownOfTenant(offered, tenant);
    if more == [] {
      assert offered + more == offered;
    } else {
      var last := |more| - 1;
      AnchorNeverForks(offered, more[..last], tenant);
      ShownOfTenant(offered + more[..last], tenant);
      assert (offered + more)[..|offered + more| - 1] == offered + more[..last];
    }
  }

  lemma {:induction false} ShownOfTenant(offered: seq<Checkpoint>, tenant: Reference)
    ensures tenant in Shown(offered) ==> Shown(offered)[tenant].tenant == tenant && Shown(offered)[tenant] in offered
  {
    if offered != [] {
      ShownOfTenant(offered[..|offered| - 1], tenant);
    }
  }

  /** A checkpoint is shown when it is published, unless the anchor shows a later one or another one in its place. */
  lemma PublishedIsShown(offered: seq<Checkpoint>, c: Checkpoint)
    ensures
      var before, after := Shown(offered), Shown(offered + [c]);
      && (forall tenant :: tenant != c.tenant ==> SameAt(before, after, tenant))
      && c.tenant in after
      && (after[c.tenant] == c
          || (c.tenant in before && after[c.tenant] == before[c.tenant]
              && (before[c.tenant].sequence > c.sequence
                  || (before[c.tenant].sequence == c.sequence && !Restates(before[c.tenant], c)))))
  {
    assert (offered + [c])[..|offered|] == offered;
    ShownOfTenant(offered, c.tenant);
  }

  // ---------------------------------------------------------------- runs

  /** The database, the external anchor, and the checkpoints committed but not yet published. */
  datatype System = System(rows: seq<Row>, latest: map<Reference, Checkpoint>, anchor: map<Reference, Checkpoint>, pending: set<Checkpoint>)

  /**
    A commit writes its row and checkpoint at once; concurrent handlers publish in any
    order; a crash loses what was pending; a restart verifies every tenant in turn.
   */
  datatype Event =
    | Commit(payload: Payload, recordSetRoot: string, executionStateRoot: string, id: Id)
    | Publish(checkpoint: Checkpoint)
    | Crash
    | Restart

  const INITIAL := System([], map[], map[], {})

  function CheckpointFor(rows: seq<Row>, e: Event): Checkpoint
    requires e.Commit?
  {
    Checkpoint(
      e.payload.columns.tenant, |rows| + 1, NextRow(rows, e.payload).hash, e.recordSetRoot, e.executionStateRoot, e.id)
  }

  /** The anchor after verifying every tenant against its latest checkpoint. */
  function BroughtUp(
    anchor: map<Reference, Checkpoint>, latest: map<Reference, Checkpoint>): map<Reference, Checkpoint> {
    anchor + latest
  }

  ghost predicate RestartPasses(s: System) {
    forall tenant :: tenant in s.latest ==> RestartAccepts(s.anchor, s.latest[tenant])
  }

  ghost function Step(s: System, e: Event): System {
    match e
    case Commit(payload, _, _, _) =>
      var c := CheckpointFor(s.rows, e);
      System(Written(s.rows, payload), s.latest[c.tenant := c], s.anchor, s.pending + {c})
    case Publish(c) => if c in s.pending then s.(anchor := Published(s.anchor, c), pending := s.pending - {c}) else s
    case Crash => s.(pending := {})
    case Restart => if RestartPasses(s) then s.(anchor := BroughtUp(s.anchor, s.latest)) else s
  }

  ghost function After(events: seq<Event>): System {
    if events == [] then INITIAL else Step(After(events[..|events| - 1]), events[|events| - 1])
  }

  /** A checkpoint the database has written: not newer than its tenant's latest, and equal to it at the same sequence. */
  ghost predicate Committed(s: System, c: Checkpoint) {
    && c.tenant in s.latest
    && (c.sequence < s.latest[c.tenant].sequence || c == s.latest[c.tenant])
  }

  ghost predicate Sound(s: System) {
    && (forall tenant :: tenant in s.latest ==> s.latest[tenant].tenant == tenant && s.latest[tenant].sequence <= |s.rows|)
    && (forall tenant :: tenant in s.anchor ==> s.anchor[tenant].tenant == tenant && Committed(s, s.anchor[tenant]))
    && (forall c :: c in s.pending ==> Committed(s, c))
  }

  lemma StepSound(s: System, e: Event)
    requires Sound(s)
    ensures Sound(Step(s, e))
  {
    hide NextRow, Written;
    match e
    case Commit(payload, _, _, _) =>
      var c, t := CheckpointFor(s.rows, e), Step(s, e);
      WrittenLonger(s.rows, payload);
      forall d | Committed(s, d)
        ensures Committed(t, d)
      {
      }
      assert Committed(t, c);
    case Publish(c) =>
    case Crash =>
    case Restart =>
  }

  lemma WrittenLonger(rows: seq<Row>, payload: Payload)
    ensures |Written(rows, payload)| == |rows| + 1
  {
  }

  lemma {:induction false} RunSound(events: seq<Event>)
    ensures Sound(After(events))
  {
    hide Sound, Step;
    if events == [] {
      InitialSound();
    } else {
      RunSound(events[..|events| - 1]);
      StepSound(After(events[..|events| - 1]), events[|events| - 1]);
    }
  }

  lemma InitialSound()
    ensures Sound(INITIAL)
  {
  }

  /** The anchor's sequence never decreases, for any tenant, on any step. */
  lemma AnchorNeverDecreases(events: seq<Event>, e: Event, tenant: Reference)
    requires tenant in After(events).anchor
    ensures var t := After(events + [e]);
      tenant in t.anchor && After(events).anchor[tenant].sequence <= t.anchor[tenant].sequence
  {
    var s := After(events);
    assert (events + [e])[..|events|] == events;
    RunSound(events);
    assert Committed(s, s.anchor[tenant]);
    hide After;
  }

  /**
    After any run with crashes between commit and publish, a restart without concurrent
    commits passes, and then the anchor is exactly each tenant's latest checkpoint.
   */
  lemma RestartSettles(events: seq<Event>)
    ensures RestartPasses(After(events))
    ensures var t := After(events + [Restart]);
      t.anchor == t.latest && t.latest == After(events).latest
  {
    var s := After(events);
    assert (events + [Restart])[..|events|] == events;
    RunSound(events);
    forall tenant | tenant in s.latest
      ensures RestartAccepts(s.anchor, s.latest[tenant])
    {
      if tenant in s.anchor {
        assert Committed(s, s.anchor[tenant]);
      }
    }
    forall tenant | tenant in s.anchor
      ensures tenant in s.latest
    {
      assert Committed(s, s.anchor[tenant]);
    }
    hide After;
  }

  /** Each tenant's latest checkpoint carries the root of its chain. */
  lemma {:induction false} LatestIsRoot(events: seq<Event>, tenant: Reference)
    ensures var s := After(events);
      (tenant in s.latest <==> TenantRows(s.rows, tenant) != [])
      && (tenant in s.latest ==> s.latest[tenant].chainRoot == RootOf(TenantRows(s.rows, tenant)))
  {
    if events != [] {
      var last := |events| - 1;
      LatestIsRoot(events[..last], tenant);
      if events[last].Commit? {
        WrittenRows(After(events[..last]).rows, events[last].payload, tenant);
      }
    }
  }

  lemma WrittenRows(rows: seq<Row>, payload: Payload, tenant: Reference)
    ensures TenantRows(Written(rows, payload), tenant) ==
      if tenant == payload.columns.tenant then TenantRows(rows, tenant) + [NextRow(rows, payload)] else TenantRows(rows, tenant)
  {
    assert Written(rows, payload)[..|rows|] == rows;
  }

  /** The anchor has a checkpoint of the tenant that a database at `older` lost. */
  predicate Lost(older: System, anchor: map<Reference, Checkpoint>, tenant: Reference) {
    tenant in anchor && (tenant in older.latest ==> older.latest[tenant].sequence < anchor[tenant].sequence)
  }

  /** The database alone is put back to what it was at `older`. */
  function Restored(older: System, s: System): System {
    s.(rows := older.rows, latest := older.latest, pending := {})
  }

  /**
    A database restored to an earlier point of a run is refused exactly when some tenant it
    still knows lost an anchored checkpoint. A tenant it no longer knows is not looked at.
   */
  lemma RestoredDatabaseDetected(events: seq<Event>, more: seq<Event>)
    ensures
      var older, s := After(events), After(events + more);
      RestartPasses(Restored(older, s)) <==> (forall tenant :: Lost(older, s.anchor, tenant) ==> tenant !in older.latest)
  {
    var older, s := After(events), After(events + more);
    RunSound(events);
    forall tenant | tenant in older.latest && tenant in s.anchor && s.anchor[tenant].sequence == older.latest[tenant].sequence
      ensures s.anchor[tenant] == older.latest[tenant]
    {
      SameSequenceSameCheckpoint(events, more, tenant);
    }
    var restored := Restored(older, s);
    if RestartPasses(restored) {
      forall tenant | tenant in older.latest && tenant in s.anchor
        ensures s.anchor[tenant].sequence <= older.latest[tenant].sequence
      {
        assert RestartAccepts(restored.anchor, restored.latest[tenant]);
      }
    }
  }

  /**
    Whatever the run, a tenant's first commit can be published and the database then put back
    to just before it: the restart passes, and the anchor goes on naming what was lost.
   */
  lemma FirstCheckpointLostUnnoticed(events: seq<Event>, e: Event)
    requires e.Commit? && e.payload.columns.tenant !in After(events).latest
    ensures
      var older, tenant := After(events), e.payload.columns.tenant;
      var restored := Restored(older, After(events + [e, Publish(CheckpointFor(older.rows, e))]));
      && Lost(older, restored.anchor, tenant) && RestartPasses(restored)
      && Step(restored, Restart).anchor[tenant] == CheckpointFor(older.rows, e)
  {
    var older := After(events);
    var c := CheckpointFor(older.rows, e);
    var two := events + [e, Publish(c)];
    assert two[..|two| - 1] == events + [e] && (events + [e])[..|events|] == events;
    RunSound(events);
    hide NextRow, Written, After;
    RestoreOfFirst(older, e, c);
  }

  lemma RestoreOfFirst(older: System, e: Event, c: Checkpoint)
    requires Sound(older) && e.Commit? && c == CheckpointFor(older.rows, e) && c.tenant !in older.latest
    ensures
      var restored := Restored(older, Step(Step(older, e), Publish(c)));
      && restored.anchor == older.anchor[c.tenant := c] && c.tenant !in older.anchor
      && RestartPasses(restored) && Step(restored, Restart).anchor[c.tenant] == c
  {
    hide NextRow, Written;
    forall tenant | tenant in older.anchor
      ensures Committed(older, older.anchor[tenant])
    {
    }
  }

  /** Along a run a tenant's checkpoints are told apart by their sequence. */
  ghost predicate Beyond(s: System, c: Checkpoint, rows: nat) {
    c.sequence > rows || Committed(s, c)
  }

  lemma {:induction false} LaterCheckpoints(events: seq<Event>, more: seq<Event>)
    ensures
      var s, t := After(events), After(events + more);
      && |s.rows| <= |t.rows|
      && (forall tenant :: tenant in t.anchor ==> Beyond(s, t.anchor[tenant], |s.rows|))
      && (forall c :: c in t.pending ==> Beyond(s, c, |s.rows|))
      && (forall tenant :: tenant in t.latest ==> Beyond(s, t.latest[tenant], |s.rows|))
    decreases |more|
  {
    hide NextRow, Written;
    RunSound(events);
    if more == [] {
      assert events + more == events;
    } else {
      var last := |more| - 1;
      LaterCheckpoints(events, more[..last]);
      var all := events + more;
      assert all[..|all| - 1] == events + more[..last] && all[|all| - 1] == more[last];
      var before := After(events + more[..last]);
      if more[last].Commit? {
        WrittenLonger(before.rows, more[last].payload);
      }
    }
  }

  lemma SameSequenceSameCheckpoint(events: seq<Event>, more: seq<Event>, tenant: Reference)
    requires tenant in After(events).latest && tenant in After(events + more).anchor
    requires After(events + more).anchor[tenant].sequence == After(events).latest[tenant].sequence
    ensures After(events + more).anchor[tenant] == After(events).latest[tenant]
  {
    RunSound(events);
    RunSound(events + more);
    LaterCheckpoints(events, more);
    assert Beyond(After(events), After(events + more).anchor[tenant], |After(events).rows|);
  }
}
