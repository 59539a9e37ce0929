/**
  The crash-tolerant persistence of the store: a snapshot file replaced by an atomic
  rename, and an append-only anchor file whose append can tear at any byte. A crash may
  strike between any two durable states, during saving or during recovery itself.

  The digest function is a parameter of which nothing is assumed but that it yields digests.
 */
module AnchoredFile {
  import opened Wrappers
  import opened Contracts
  import opened StoreModel
  import opened AnchorFormat
  import StoreRuns
  import StoreValidator

  datatype Snap = Snap(sequence: nat, previous: Option<string>, digest: string, state: StoreModel.State)

  type Hash = (nat, Option<string>, StoreModel.State) -> string

  datatype LoadError = CorruptSnapshot | CorruptAnchor | RollbackDetected

  /** What survives a crash: the snapshot file, if any, and the bytes of the anchor file. */
  datatype Disk = Disk(file: Option<Snap>, anchor: string)

  const BLANK := Snap(0, None, "", EMPTY)

  function AnchorOf(s: Snap): Anchor {
    Anchor(s.sequence, s.digest, s.previous)
  }

  // ---------------------------------------------------------------- what loading accepts

  predicate DigestFieldsValid(hash: Hash, s: Snap) {
    if s.sequence == 0 then s == BLANK
    else
      && s.sequence <= MAX_SEQUENCE
      && ValidDigest(s.digest) && (s.previous.Some? ==> ValidDigest(s.previous.value))
      && hash(s.sequence, s.previous, s.state) == s.digest
  }

  ghost predicate SnapValid(hash: Hash, s: Snap) {
    DigestFieldsValid(hash, s) && StateValid(s.state)
  }

  function AnchorBefore(anchors: seq<Anchor>, i: nat): Option<string>
    requires i < |anchors|
  {
    if i == 0 then None else Some(anchors[i - 1].digest)
  }

  /** Sequence numbers count up from one and each record names its predecessor's digest. */
  predicate ChainValid(anchors: seq<Anchor>) {
    forall i :: 0 <= i < |anchors| ==> LinkedAt(anchors, i)
  }

  predicate LinkedAt(anchors: seq<Anchor>, i: nat)
    requires i < |anchors|
  {
    && ValidDigest(anchors[i].digest)
    && (anchors[i].previous.Some? ==> ValidDigest(anchors[i].previous.value))
    && anchors[i].sequence == i + 1
    && anchors[i].previous == AnchorBefore(anchors, i)
  }

  function ParsedAnchors(bytes: string): Option<seq<Anchor>> {
    var parsed := ParseLines(Lines(Committed(bytes)));
    if parsed.Some? && ChainValid(parsed.value) then parsed else None
  }

  predicate IsAsciiWhitespace(c: char) {
    c == ' ' || c == '\t' || c == '\n' || c == '\r' || c as int == 12
  }

  /** Bytes without a commit marker that hold nothing at all. */
  predicate BlankTail(bytes: string) {
    Committed(bytes) == "" && bytes != "" && forall i :: 0 <= i < |bytes| ==> IsAsciiWhitespace(bytes[i])
  }

  datatype Verdict = InSync | OneAhead | Rollback

  function Compare(s: Snap, anchors: seq<Anchor>): Verdict {
    if s.sequence == 0 then if anchors == [] then InSync else Rollback
    else if anchors == [] then if s.sequence == 1 && s.previous.None? then OneAhead else Rollback
    else
      var latest := anchors[|anchors| - 1];
      if latest == AnchorOf(s) then InSync
      else if latest.sequence < MAX_SEQUENCE && latest.sequence + 1 == s.sequence && s.previous == Some(latest.digest) then OneAhead
      else Rollback
  }

  function Stored(d: Disk): Snap {
    if d.file.None? then BLANK else d.file.value
  }

  ghost function LoadResult(hash: Hash, d: Disk): Result<Snap, LoadError> {
    var s := Stored(d);
    if !SnapValid(hash, s) then Err(CorruptSnapshot)
    else if ParsedAnchors(d.anchor).None? || BlankTail(d.anchor) then Err(CorruptAnchor)
    else if Compare(s, ParsedAnchors(d.anchor).value).Rollback? then Err(RollbackDetected)
    else Ok(s)
  }

  // ---------------------------------------------------------------- durable states

  /** Appending `text` passes through every prefix of it. */
  function AppendStates(d: Disk, text: string): seq<Disk> {
    seq(|text|, k requires 0 <= k < |text| => d.(anchor := d.anchor + text[..k + 1]))
  }

  function PersistStates(d: Disk, s: Snap): seq<Disk> {
    var renamed := d.(file := Some(s));
    [renamed] + AppendStates(renamed, Line(AnchorOf(s)))
  }

  ghost function LoadStates(hash: Hash, d: Disk): seq<Disk> {
    if !SnapValid(hash, Stored(d)) || ParsedAnchors(d.anchor).None? then []
    else
      var kept := d.(anchor := Committed(d.anchor));
      var truncated := if kept == d then [] else [kept];
      if !BlankTail(d.anchor) && Compare(Stored(d), ParsedAnchors(d.anchor).value).OneAhead? then
        truncated + AppendStates(kept, Line(AnchorOf(Stored(d))))
      else truncated
  }

  /** The state after `k` of the durable steps, or after all of them. */
  function After(d: Disk, states: seq<Disk>, k: nat): Disk {
    if k == 0 || states == [] then d else if k <= |states| then states[k - 1] else states[|states| - 1]
  }

  function Settled(d: Disk, states: seq<Disk>): Disk {
    After(d, states, |states|)
  }

  // ---------------------------------------------------------------- the running store

  class Store {
    const hash: Hash
    var file: Option<Snap>
    var anchor: string
    ghost var trace: seq<Disk>

    constructor (hash: Hash, d: Disk)
      ensures Now() == d && trace == [] && this.hash == hash
    {
      this.hash := hash;
      file, anchor, trace := d.file, d.anchor, [];
    }

    function Now(): Disk
      reads this
    {
      Disk(file, anchor)
    }

    method WriteBytes(text: string)
      modifies this`anchor, this`trace
      ensures anchor == old(anchor) + text && trace == old(trace) + AppendStates(old(Now()), text)
    {
      ghost var was := Now();
      var k := 0;
      while k < |text|
        invariant k <= |text|
        invariant anchor == was.anchor + text[..k] && trace == old(trace) + AppendStates(was, text)[..k]
      {
        anchor := anchor + [text[k]];
        trace := trace + [Now()];
        k := k + 1;
      }
    }

    method AppendAnchor(s: Snap)
      modifies this`anchor, this`trace
      ensures anchor == old(anchor) + Line(AnchorOf(s))
      ensures trace == old(trace) + AppendStates(old(Now()), Line(AnchorOf(s)))
    {
      WriteBytes(Line(AnchorOf(s)));
    }

    /** Renames the new snapshot into place, then appends its anchor. */
    method PersistSnapshot(s: Snap)
      modifies this
      ensures Now() == Settled(old(Now()), PersistStates(old(Now()), s))
      ensures trace == old(trace) + PersistStates(old(Now()), s)
    {
      file := Some(s);
      trace := trace + [Now()];
      AppendAnchor(s);
    }

    method ValidateSnapshot(s: Snap) returns (ok: bool)
      ensures ok <==> SnapValid(hash, s)
    {
      hide StateValid;
      var stateOk := StoreValidator.ValidateSnapshot(s.state);
      ok := stateOk && DigestFieldsValid(hash, s);
    }

    /** Reads the committed records and cuts off a torn tail. */
    method ReadAnchorRecords() returns (records: Option<seq<Anchor>>)
      modifies this`anchor, this`trace
      ensures
        var d := old(Now());
        var kept := d.(anchor := Committed(d.anchor));
        && Now() == (if ParsedAnchors(d.anchor).None? then d else kept)
        && trace == old(trace) + (if ParsedAnchors(d.anchor).None? || kept == d then [] else [kept])
        && records == if BlankTail(d.anchor) then None else ParsedAnchors(d.anchor)
    {
      hide ParseAnchor, Lines;
      var bytes := anchor;
      var length := CommittedLength(bytes);
      var lines := Lines(Committed(bytes));
      var parsed: seq<Anchor> := [];
      var k := 0;
      while k < |lines|
        invariant k <= |lines|
        invariant ParseLines(lines[..k]) == Some(parsed)
      {
        assert lines[..k + 1][..k] == lines[..k];
        var record := ParseAnchor(lines[k]);
        if record.None? {
          ParseStops(lines, k + 1);
          return None;
        }
        parsed := parsed + [record.value];
        k := k + 1;
      }
      assert lines[..k] == lines;
      var chained := ValidateAnchorChain(parsed);
      if !chained {
        return None;
      }
      if length < |bytes| {
        anchor := bytes[..length];
        trace := trace + [Now()];
      }
      if BlankTail(bytes) {
        return None;
      }
      records := Some(parsed);
    }

    /** Loads the snapshot, bringing the anchor file up to date when it is one record behind. */
    method LoadSnapshot() returns (r: Result<Snap, LoadError>)
      modifies this`anchor, this`trace
      ensures r == LoadResult(hash, old(Now()))
      ensures trace == old(trace) + LoadStates(hash, old(Now()))
      ensures Now() == Settled(old(Now()), LoadStates(hash, old(Now())))
    {
      hide SnapValid, ParsedAnchors, BlankTail, Compare, Committed, Line;
      var s := if file.None? then BLANK else file.value;
      var valid := ValidateSnapshot(s);
      if !valid {
        return Err(CorruptSnapshot);
      }
      var records := ReadAnchorRecords();
      if records.None? {
        return Err(CorruptAnchor);
      }
      match Compare(s, records.value) {
        case InSync => r := Ok(s);
        case OneAhead =>
          AppendAnchor(s);
          r := Ok(s);
        case Rollback => r := Err(RollbackDetected);
      }
    }
  }

  method CommittedLength(bytes: string) returns (length: nat)
    ensures length == |Committed(bytes)|
  {
    length := |bytes|;
    assert bytes[..length] == bytes;
    while length > 0 && bytes[length - 1] != '\n'
      invariant length <= |bytes| && Committed(bytes) == Committed(bytes[..length])
    {
      assert bytes[..length][..length - 1] == bytes[..length - 1];
      length := length - 1;
    }
  }

  method ValidateAnchorChain(anchors: seq<Anchor>) returns (ok: bool)
    ensures ok <==> ChainValid(anchors)
  {
    var k := 0;
    while k < |anchors|
      invariant k <= |anchors| && forall i :: 0 <= i < k ==> LinkedAt(anchors, i)
    {
      hide ValidDigest;
      assert k > 0 ==> LinkedAt(anchors, k - 1);
      var a := anchors[k];
      if !ValidDigest(a.digest) || (a.previous.Some? && !ValidDigest(a.previous.value)) {
        assert !LinkedAt(anchors, k);
        return false;
      }
      if k == 0 {
        if a.sequence != 1 || a.previous.Some? {
          assert !LinkedAt(anchors, k);
          return false;
        }
      } else if anchors[k - 1].sequence + 1 != a.sequence || a.previous != Some(anchors[k - 1].digest) {
        assert !LinkedAt(anchors, k);
        return false;
      }
      k := k + 1;
    }
    ok := true;
  }

  lemma {:induction false} ParseStops(lines: seq<string>, n: nat)
    requires n <= |lines| && ParseLines(lines[..n]).None?
    ensures ParseLines(lines).None?
    decreases |lines|
  {
    hide ParseAnchor;
    if n < |lines| {
      assert lines[..|lines| - 1][..n] == lines[..n];
      ParseStops(lines[..|lines| - 1], n);
    } else {
      assert lines[..n] == lines;
    }
  }
}
