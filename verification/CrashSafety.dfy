/**
  Crash safety of saving and loading: after any run of saves and loads cut short at any
  durable state, the next load returns exactly the last snapshot renamed into place and
  leaves an anchor chain of all snapshots ever saved; nothing older is ever accepted.
 */
module CrashSafety {
  import opened Wrappers
  import opened Contracts
  import opened StoreModel
  import opened AnchorFormat
  import opened AnchoredFile
  import StoreRuns

  // ---------------------------------------------------------------- disks a crash can leave

  function DigestBefore(saved: seq<Snap>, i: nat): Option<string>
    requires i < |saved|
  {
    if i == 0 then None else Some(saved[i - 1].digest)
  }

  /** The snapshots saved so far, each sealed over its predecessor. */
  ghost predicate SealedChain(hash: Hash, saved: seq<Snap>) {
    forall i :: 0 <= i < |saved| ==>
      && saved[i].sequence == i + 1
      && saved[i].previous == DigestBefore(saved, i)
      && SnapValid(hash, saved[i])
  }

  function AnchorsOf(saved: seq<Snap>): seq<Anchor> {
    seq(|saved|, i requires 0 <= i < |saved| => AnchorOf(saved[i]))
  }

  function LastSaved(saved: seq<Snap>): Snap {
    if saved == [] then BLANK else saved[|saved| - 1]
  }

  /** The snapshot file holds the last snapshot and every anchor is complete. */
  ghost predicate Synced(d: Disk, saved: seq<Snap>) {
    && d.file == (if saved == [] then None else Some(LastSaved(saved)))
    && d.anchor == EncodeAll(AnchorsOf(saved))
  }

  /** The last snapshot is in place but only a proper prefix of its anchor line is. */
  ghost predicate TornAt(d: Disk, saved: seq<Snap>, k: nat)
    requires saved != []
  {
    && d.file == Some(LastSaved(saved))
    && k < |Line(AnchorOf(LastSaved(saved)))|
    && d.anchor == EncodeAll(AnchorsOf(saved[..|saved| - 1])) + Line(AnchorOf(LastSaved(saved)))[..k]
  }

  ghost predicate Torn(d: Disk, saved: seq<Snap>) {
    saved != [] && exists k: nat :: TornAt(d, saved, k)
  }

  ghost predicate Recoverable(d: Disk, saved: seq<Snap>) {
    Synced(d, saved) || Torn(d, saved)
  }

  // ---------------------------------------------------------------- the chain of anchors

  lemma SealedAt(hash: Hash, saved: seq<Snap>, i: nat)
    requires SealedChain(hash, saved) && i < |saved|
    ensures saved[i].sequence == i + 1 && SnapValid(hash, saved[i])
    ensures saved[i].previous == DigestBefore(saved, i)
  {
    hide SnapValid;
  }

  lemma ChainAnchorsValid(hash: Hash, saved: seq<Snap>)
    requires SealedChain(hash, saved)
    ensures AllValid(AnchorsOf(saved)) && ChainValid(AnchorsOf(saved))
  {
    hide StateValid, SealedChain;
    var anchors := AnchorsOf(saved);
    forall i | 0 <= i < |anchors|
      ensures anchors[i].Valid() && LinkedAt(anchors, i)
    {
      SealedAt(hash, saved, i);
    }
  }

  lemma ChainPrefix(hash: Hash, saved: seq<Snap>)
    requires SealedChain(hash, saved) && saved != []
    ensures SealedChain(hash, saved[..|saved| - 1])
  {
    hide SnapValid;
    var front := saved[..|saved| - 1];
    forall i | 0 <= i < |front|
      ensures front[i] == saved[i] && DigestBefore(front, i) == DigestBefore(saved, i)
    {
    }
  }

  /** The anchor text of a chain is that of its front and the last line. */
  lemma LastLine(saved: seq<Snap>)
    requires saved != []
    ensures
      EncodeAll(AnchorsOf(saved)) == EncodeAll(AnchorsOf(saved[..|saved| - 1])) + Line(AnchorOf(LastSaved(saved)))
  {
    assert AnchorsOf(saved)[..|saved| - 1] == AnchorsOf(saved[..|saved| - 1]);
  }

  /** A file of complete lines and a torn tail still parses to its complete records. */
  lemma TornFileParses(hash: Hash, saved: seq<Snap>, tail: string)
    requires SealedChain(hash, saved) && OneLine(tail)
    ensures
      var bytes := EncodeAll(AnchorsOf(saved)) + tail;
      ParsedAnchors(bytes) == Some(AnchorsOf(saved)) && Committed(bytes) == EncodeAll(AnchorsOf(saved))
  {
    hide ParseAnchor, Lines, EncodeAll, SealedChain;
    ChainAnchorsValid(hash, saved);
    FileReadsBack(AnchorsOf(saved));
    TornTailDropped(EncodeAll(AnchorsOf(saved)), tail);
  }

  // ---------------------------------------------------------------- loading a synced disk

  lemma SyncedCompares(hash: Hash, saved: seq<Snap>)
    requires SealedChain(hash, saved)
    ensures Compare(LastSaved(saved), AnchorsOf(saved)).InSync?
  {
    hide SealedChain, SnapValid;
    if saved != [] {
      SealedAt(hash, saved, |saved| - 1);
    }
  }

  lemma SyncedLoads(hash: Hash, d: Disk, saved: seq<Snap>)
    requires SealedChain(hash, saved) && Synced(d, saved)
    ensures LoadResult(hash, d) == Ok(LastSaved(saved)) && LoadStates(hash, d) == []
  {
    hide SnapValid, ParsedAnchors, EncodeAll, SealedChain, Compare, Committed, AnchorsOf, Line;
    assert d.anchor + "" == d.anchor;
    TornFileParses(hash, saved, "");
    LastIsValid(hash, saved);
    SyncedCompares(hash, saved);
    assert Stored(d) == LastSaved(saved);
    assert !BlankTail(d.anchor);
  }

  // ---------------------------------------------------------------- loading a torn disk

  lemma TornCompares(hash: Hash, saved: seq<Snap>)
    requires SealedChain(hash, saved) && saved != []
    ensures Compare(LastSaved(saved), AnchorsOf(saved[..|saved| - 1])).OneAhead?
  {
    hide SealedChain, SnapValid;
    var last := |saved| - 1;
    SealedAt(hash, saved, last);
    SnapSequence(hash, saved[last]);
    if last > 0 {
      SealedAt(hash, saved, last - 1);
      assert AnchorsOf(saved[..last])[last - 1] == AnchorOf(saved[last - 1]);
    }
  }

  lemma SnapSequence(hash: Hash, s: Snap)
    requires SnapValid(hash, s)
    ensures s.sequence <= MAX_SEQUENCE && (s.sequence > 0 ==> AnchorOf(s).Valid())
  {
    hide StateValid;
  }

  /** A torn anchor line has no commit marker, and is not blank unless it is empty. */
  lemma TornTail(hash: Hash, saved: seq<Snap>, k: nat)
    requires SealedChain(hash, saved) && saved != [] && k < |Line(AnchorOf(LastSaved(saved)))|
    ensures var tail := Line(AnchorOf(LastSaved(saved)))[..k];
      OneLine(tail) && (tail != "" ==> tail[0] == '{')
  {
    hide SealedChain, SnapValid, EncodeAnchor;
    SealedAt(hash, saved, |saved| - 1);
    SnapSequence(hash, LastSaved(saved));
    var a := AnchorOf(LastSaved(saved));
    EncodedIsOneLine(a);
    assert Line(a)[..k] == EncodeAnchor(a)[..k];
  }

  lemma BraceNotBlank(bytes: string)
    requires bytes != "" && bytes[0] == '{'
    ensures !BlankTail(bytes)
  {
    hide Committed;
    assert !IsAsciiWhitespace(bytes[0]);
  }

  /** Recovery of a torn disk: the tail is cut off and the anchor line written again. */
  lemma TornRecovers(hash: Hash, d: Disk, saved: seq<Snap>, k: nat)
    requires SealedChain(hash, saved) && saved != [] && TornAt(d, saved, k)
    ensures LoadResult(hash, d) == Ok(LastSaved(saved))
    ensures
      var front := saved[..|saved| - 1];
      var kept := d.(anchor := EncodeAll(AnchorsOf(front)));
      LoadStates(hash, d) ==
        (if kept == d then [] else [kept]) + AppendStates(kept, Line(AnchorOf(LastSaved(saved))))
  {
    hide SnapValid, ParsedAnchors, EncodeAll, SealedChain, Compare, Committed, AnchorsOf, Line;
    var front := saved[..|saved| - 1];
    ChainPrefix(hash, saved);
    TornTail(hash, saved, k);
    TornFileParses(hash, front, Line(AnchorOf(LastSaved(saved)))[..k]);
    LastIsValid(hash, saved);
    TornCompares(hash, saved);
    assert Stored(d) == LastSaved(saved);
    assert !BlankTail(d.anchor) by {
      if EncodeAll(AnchorsOf(front)) == "" && k > 0 {
        var tail := Line(AnchorOf(LastSaved(saved)))[..k];
        assert |tail| == k && tail[0] == '{';
        assert d.anchor == tail;
        BraceNotBlank(d.anchor);
      }
    }
  }

  /** Every state an append of the last line passes through is torn or, at the end, synced. */
  lemma AppendRecoverable(d: Disk, saved: seq<Snap>, k: nat)
    requires saved != [] && d.file == Some(LastSaved(saved)) && d.anchor == EncodeAll(AnchorsOf(saved[..|saved| - 1]))
    requires k < |Line(AnchorOf(LastSaved(saved)))|
    ensures
      var states := AppendStates(d, Line(AnchorOf(LastSaved(saved))));
      Recoverable(states[k], saved) && (k + 1 == |states| ==> Synced(states[k], saved))
  {
    hide EncodeAll, AnchorsOf, Line;
    var line := Line(AnchorOf(LastSaved(saved)));
    var after := AppendStates(d, line)[k];
    if k + 1 < |line| {
      assert TornAt(after, saved, k + 1);
    } else {
      assert line[..k + 1] == line;
      LastLine(saved);
    }
  }

  lemma LineNotEmpty(a: Anchor)
    ensures |Line(a)| > 0
  {
  }

  /** Loading crashes only into recoverable states, and when it completes the disk is synced. */
  lemma LoadRecovers(hash: Hash, d: Disk, saved: seq<Snap>, k: nat)
    requires SealedChain(hash, saved) && Recoverable(d, saved)
    ensures LoadResult(hash, d) == Ok(LastSaved(saved))
    ensures Recoverable(After(d, LoadStates(hash, d), k), saved)
    ensures Synced(Settled(d, LoadStates(hash, d)), saved)
  {
    hide LoadResult, LoadStates, SealedChain, Synced, AppendStates, AnchorsOf, EncodeAll, Line, TornAt;
    if Synced(d, saved) {
      SyncedLoads(hash, d, saved);
    } else {
      var cut: nat :| TornAt(d, saved, cut);
      TornRecovers(hash, d, saved, cut);
      TornStates(hash, d, saved, cut, k);
    }
  }

  lemma TornStates(hash: Hash, d: Disk, saved: seq<Snap>, cut: nat, k: nat)
    requires saved != [] && TornAt(d, saved, cut)
    requires
      var kept := d.(anchor := EncodeAll(AnchorsOf(saved[..|saved| - 1])));
      LoadStates(hash, d) == (if kept == d then [] else [kept]) + AppendStates(kept, Line(AnchorOf(LastSaved(saved))))
    ensures Recoverable(After(d, LoadStates(hash, d), k), saved)
    ensures Synced(Settled(d, LoadStates(hash, d)), saved)
  {
    hide LoadStates, AnchorsOf, EncodeAll, Line, Synced;
    var line := Line(AnchorOf(LastSaved(saved)));
    LineNotEmpty(AnchorOf(LastSaved(saved)));
    var kept := d.(anchor := EncodeAll(AnchorsOf(saved[..|saved| - 1])));
    var states := LoadStates(hash, d);
    var skipped := if kept == d then 0 else 1;
    assert line[..0] == "";
    assert kept.anchor + line[..0] == kept.anchor;
    assert TornAt(kept, saved, 0);
    AppendRecoverable(kept, saved, |line| - 1);
    assert states[|states| - 1] == AppendStates(kept, line)[|line| - 1];
    if k > skipped {
      var j := if k <= |states| then k - 1 - skipped else |line| - 1;
      AppendRecoverable(kept, saved, j);
      assert After(d, states, k) == AppendStates(kept, line)[j];
    } else if k == 0 {
      assert TornAt(d, saved, cut);
    }
  }

  lemma BlankIsValid(hash: Hash)
    ensures SnapValid(hash, BLANK)
  {
    StoreRuns.EmptyIsValid();
  }

  lemma LastIsValid(hash: Hash, saved: seq<Snap>)
    requires SealedChain(hash, saved)
    ensures SnapValid(hash, LastSaved(saved))
  {
    hide SnapValid;
    BlankIsValid(hash);
  }

  // ---------------------------------------------------------------- saving

  function SealNext(hash: Hash, previous: Snap, state: StoreModel.State): Snap {
    var link := if previous.sequence > 0 then Some(previous.digest) else None;
    Snap(previous.sequence + 1, link, hash(previous.sequence + 1, link, state), state)
  }

  /** The store seals and validates before it writes: otherwise nothing is saved. */
  ghost predicate CanSave(hash: Hash, previous: Snap, state: StoreModel.State) {
    previous.sequence < MAX_SEQUENCE && SnapValid(hash, SealNext(hash, previous, state))
  }

  lemma SealedExtends(hash: Hash, saved: seq<Snap>, state: StoreModel.State)
    requires SealedChain(hash, saved) && CanSave(hash, LastSaved(saved), state)
    ensures SealedChain(hash, saved + [SealNext(hash, LastSaved(saved), state)])
  {
    hide SnapValid;
    var next := SealNext(hash, LastSaved(saved), state);
    var longer := saved + [next];
    if saved != [] {
      SealedAt(hash, saved, |saved| - 1);
    }
    forall i | 0 <= i < |longer|
      ensures longer[i].sequence == i + 1 && longer[i].previous == DigestBefore(longer, i) && SnapValid(hash, longer[i])
    {
      if i < |saved| {
        SealedAt(hash, saved, i);
        assert longer[i] == saved[i] && DigestBefore(longer, i) == DigestBefore(saved, i);
      }
    }
  }

  /** Once the new snapshot is renamed into place, every state of the save is recoverable to it. */
  lemma SaveRecoverable(hash: Hash, d: Disk, saved: seq<Snap>, next: Snap, k: nat)
    requires Synced(d, saved) && k > 0
    ensures Recoverable(After(d, PersistStates(d, next), k), saved + [next])
    ensures Synced(Settled(d, PersistStates(d, next)), saved + [next])
  {
    hide Synced, AnchorsOf, EncodeAll, Line;
    var longer := saved + [next];
    assert longer[..|longer| - 1] == saved && LastSaved(longer) == next;
    var renamed := d.(file := Some(next));
    var line := Line(AnchorOf(next));
    LineNotEmpty(AnchorOf(next));
    var states := PersistStates(d, next);
    SyncedAnchor(d, saved);
    assert line[..0] == "" && renamed.anchor + line[..0] == renamed.anchor;
    assert TornAt(renamed, longer, 0);
    AppendRecoverable(renamed, longer, |line| - 1);
    assert states[|states| - 1] == AppendStates(renamed, line)[|line| - 1];
    if k > 1 {
      var j := if k <= |states| then k - 2 else |line| - 1;
      AppendRecoverable(renamed, longer, j);
      assert After(d, states, k) == AppendStates(renamed, line)[j];
    }
  }

  lemma SyncedAnchor(d: Disk, saved: seq<Snap>)
    requires Synced(d, saved)
    ensures d.anchor == EncodeAll(AnchorsOf(saved))
  {
  }

  // ---------------------------------------------------------------- runs with crashes

  datatype Machine = Down(disk: Disk) | Up(disk: Disk, held: Snap)

  /** A load or a save, run to the end or cut off after `k` durable states; or a crash in between. */
  datatype Event =
    | Load
    | LoadCut(k: nat)
    | Save(state: StoreModel.State)
    | SaveCut(state: StoreModel.State, k: nat)
    | Crash

  /** The machine and the snapshots that have been renamed into place. */
  datatype Run = Run(machine: Machine, saved: seq<Snap>)

  const FRESH := Run(Down(Disk(None, "")), [])

  ghost function Step(hash: Hash, r: Run, e: Event): Run {
    match (r.machine, e)
    case (Down(d), Load) =>
      var settled := Settled(d, LoadStates(hash, d));
      var result := LoadResult(hash, d);
      r.(machine := if result.Ok? then Up(settled, result.value) else Down(settled))
    case (Down(d), LoadCut(k)) => r.(machine := Down(After(d, LoadStates(hash, d), k)))
    case (Up(d, held), Save(state)) =>
      if !CanSave(hash, held, state) then r
      else
        var next := SealNext(hash, held, state);
        Run(Up(Settled(d, PersistStates(d, next)), next), r.saved + [next])
    case (Up(d, held), SaveCut(state, k)) =>
      if !CanSave(hash, held, state) || k == 0 then r.(machine := Down(d))
      else
        var next := SealNext(hash, held, state);
        Run(Down(After(d, PersistStates(d, next), k)), r.saved + [next])
    case (Up(d, _), Crash) => r.(machine := Down(d))
    case _ => r
  }

  ghost function AfterRun(hash: Hash, events: seq<Event>): Run {
    if events == [] then FRESH else Step(hash, AfterRun(hash, events[..|events| - 1]), events[|events| - 1])
  }

  ghost predicate Safe(hash: Hash, r: Run) {
    && SealedChain(hash, r.saved)
    && Recoverable(r.machine.disk, r.saved)
    && (r.machine.Up? ==> Synced(r.machine.disk, r.saved) && r.machine.held == LastSaved(r.saved))
  }

  lemma StepSafe(hash: Hash, r: Run, e: Event)
    requires Safe(hash, r)
    ensures Safe(hash, Step(hash, r, e))
  {
    hide SealedChain, Synced, Torn, LoadResult, LoadStates, PersistStates, CanSave, SealNext;
    var d := r.machine.disk;
    if r.machine.Down? {
      LoadRecovers(hash, d, r.saved, if e.LoadCut? then e.k else 0);
    } else if (e.Save? || e.SaveCut?) && CanSave(hash, r.machine.held, e.state) {
      var next := SealNext(hash, r.machine.held, e.state);
      SealedExtends(hash, r.saved, e.state);
      SaveRecoverable(hash, d, r.saved, next, if e.SaveCut? && e.k > 0 then e.k else 1);
    }
  }

  /**
    Crash safety. After any run, however often saving or recovery was cut off: the next load
    succeeds, yields the last snapshot renamed into place, and leaves an anchor file that is
    exactly the chain 1..n of all snapshots saved, ending in that one.
   */
  lemma {:induction false} EveryRunRecovers(hash: Hash, events: seq<Event>)
    ensures
      var r := AfterRun(hash, events);
      var d := r.machine.disk;
      && SealedChain(hash, r.saved)
      && LoadResult(hash, d) == Ok(LastSaved(r.saved))
      && Settled(d, LoadStates(hash, d)).anchor == EncodeAll(AnchorsOf(r.saved))
      && (r.machine.Up? ==> r.machine.held == LastSaved(r.saved))
  {
    RunSafe(hash, events);
    var r := AfterRun(hash, events);
    hide SealedChain, LoadResult, LoadStates, EncodeAll, AfterRun;
    LoadRecovers(hash, r.machine.disk, r.saved, 0);
  }

  lemma {:induction false} RunSafe(hash: Hash, events: seq<Event>)
    ensures Safe(hash, AfterRun(hash, events))
  {
    hide Safe, Step;
    if events == [] {
      FreshIsSafe(hash);
    } else {
      RunSafe(hash, events[..|events| - 1]);
      StepSafe(hash, AfterRun(hash, events[..|events| - 1]), events[|events| - 1]);
    }
  }

  lemma FreshIsSafe(hash: Hash)
    ensures Safe(hash, FRESH)
  {
  }

  // ---------------------------------------------------------------- rollback

  lemma ChainHasLines(saved: seq<Snap>)
    requires saved != []
    ensures EncodeAll(AnchorsOf(saved)) != ""
  {
    LastLine(saved);
  }

  /**
    Whatever file is put beside an anchor chain, complete or with a torn append at its end,
    loading accepts it exactly when it is a valid snapshot that matches the last anchor or is
    sealed one ahead of it.
   */
  lemma RollbackDetected(hash: Hash, file: Snap, saved: seq<Snap>, tail: string)
    requires SealedChain(hash, saved) && saved != [] && OneLine(tail)
    ensures
      var last := LastSaved(saved);
      LoadResult(hash, Disk(Some(file), EncodeAll(AnchorsOf(saved)) + tail)).Ok? <==>
        (&& SnapValid(hash, file)
         && (AnchorOf(file) == AnchorOf(last) || (file.sequence == last.sequence + 1 && file.previous == Some(last.digest))))
  {
    hide SnapValid, ParsedAnchors, EncodeAll, SealedChain, Committed, Line, OneLine;
    var bytes := EncodeAll(AnchorsOf(saved)) + tail;
    TornFileParses(hash, saved, tail);
    ChainHasLines(saved);
    SealedAt(hash, saved, |saved| - 1);
    if SnapValid(hash, file) {
      SnapSequence(hash, file);
    }
    assert AnchorsOf(saved)[|saved| - 1] == AnchorOf(LastSaved(saved));
    assert !BlankTail(bytes);
  }

  /** No earlier snapshot is accepted, and another one in place of the last only if the digests collide. */
  lemma NothingOlderAccepted(hash: Hash, file: Snap, saved: seq<Snap>, tail: string)
    requires SealedChain(hash, saved) && saved != [] && OneLine(tail)
    requires LoadResult(hash, Disk(Some(file), EncodeAll(AnchorsOf(saved)) + tail)).Ok?
    ensures file.sequence >= |saved|
    ensures file.sequence == |saved| && file != LastSaved(saved) ==>
      file.state != LastSaved(saved).state
      && hash(file.sequence, file.previous, file.state) == hash(file.sequence, file.previous, LastSaved(saved).state)
  {
    hide StateValid, SealedChain, LoadResult, EncodeAll, AnchorsOf, ValidDigest, OneLine;
    RollbackDetected(hash, file, saved, tail);
    SealedAt(hash, saved, |saved| - 1);
    SealedDigest(hash, file);
    SealedDigest(hash, LastSaved(saved));
    hide SnapValid;
  }

  lemma SealedDigest(hash: Hash, s: Snap)
    requires SnapValid(hash, s) && s.sequence > 0
    ensures s.digest == hash(s.sequence, s.previous, s.state)
  {
    hide StateValid;
  }
}
