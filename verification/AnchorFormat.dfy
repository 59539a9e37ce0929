/**
  The text of the store's anchor file: one JSON object a line, the newline being the
  commit marker of its record. The file's bytes are ASCII and are modelled as characters.
 */
module AnchorFormat {
  import opened Wrappers
  import opened Contracts
  import opened CanonicalJson

  /** Sequence numbers are unsigned 64-bit integers. */
  const MAX_SEQUENCE: nat := 0xFFFF_FFFF_FFFF_FFFF

  datatype Anchor = Anchor(sequence: nat, digest: string, previous: Option<string>) {
    predicate Valid() {
      sequence <= MAX_SEQUENCE && ValidDigest(digest) && (previous.Some? ==> ValidDigest(previous.value))
    }
  }

  const HEAD := "{\"sequence\":"
  const MIDDLE := ",\"snapshot_digest\":\""
  const SEPARATOR := "\",\"previous_snapshot_digest\":"

  function PreviousText(previous: Option<string>): string {
    if previous.None? then "null}" else "\"" + previous.value + "\"}"
  }

  function EncodeAnchor(a: Anchor): string {
    HEAD + (Decimal(a.sequence) + (MIDDLE + (a.digest + (SEPARATOR + PreviousText(a.previous)))))
  }

  /** What `append_anchor` writes for a record. */
  function Line(a: Anchor): string {
    EncodeAnchor(a) + "\n"
  }

  // ---------------------------------------------------------------- reading one record

  function ParsePrevious(text: string): Option<Option<string>> {
    if text == "null}" then Some(None)
    else if |text| == 67 && text[0] == '"' && text[65..] == "\"}" then Some(Some(text[1..65]))
    else None
  }

  function ParseFields(sequence: nat, fields: string): Option<Anchor> {
    var digestAt, separatorAt := |MIDDLE|, |MIDDLE| + 64;
    var previousAt := separatorAt + |SEPARATOR|;
    if |fields| < previousAt || fields[..digestAt] != MIDDLE || fields[separatorAt..previousAt] != SEPARATOR then None
    else
      var previous := ParsePrevious(fields[previousAt..]);
      if previous.None? then None else Some(Anchor(sequence, fields[digestAt..separatorAt], previous.value))
  }

  function ParseAnchor(line: string): Option<Anchor> {
    if !(HEAD <= line) then None
    else
      var rest := line[|HEAD|..];
      var n := DigitRun(rest);
      if n > |rest| then None
      else
        var sequence := DecimalValue(rest[..n]);
        if n == 0 || (n > 1 && rest[0] == '0') || !(0 <= sequence <= MAX_SEQUENCE) then None
        else ParseFields(sequence, rest[n..])
  }

  lemma PreviousReadsBack(previous: Option<string>)
    requires previous.Some? ==> ValidDigest(previous.value)
    ensures ParsePrevious(PreviousText(previous)) == Some(previous)
  {
    if previous.Some? {
      var text := PreviousText(previous);
      assert text[1..65] == previous.value;
      assert text[65..] == "\"}";
      assert text[0] == '"' && "null}"[0] == 'n';
    }
  }

  lemma FieldsReadBack(a: Anchor)
    requires a.Valid()
    ensures ParseFields(a.sequence, MIDDLE + (a.digest + (SEPARATOR + PreviousText(a.previous)))) == Some(a)
  {
    PreviousReadsBack(a.previous);
    var p := PreviousText(a.previous);
    var fields := MIDDLE + (a.digest + (SEPARATOR + p));
    assert fields[..|MIDDLE|] == MIDDLE;
    assert fields[|MIDDLE|..] == a.digest + (SEPARATOR + p);
    assert fields[|MIDDLE|..|MIDDLE| + 64] == a.digest;
    assert fields[|MIDDLE| + 64..] == SEPARATOR + p;
    assert fields[|MIDDLE| + 64..|MIDDLE| + 64 + |SEPARATOR|] == SEPARATOR;
    assert fields[|MIDDLE| + 64 + |SEPARATOR|..] == p;
  }

  lemma {:induction false} NoLeadingZero(n: nat)
    ensures |Decimal(n)| > 1 ==> Decimal(n)[0] != '0'
  {
    if n >= 10 {
      NoLeadingZero(n / 10);
      DecimalReads(n / 10);
      assert Decimal(n)[0] == Decimal(n / 10)[0];
    }
  }

  /** A written record reads back as itself. */
  lemma AnchorReadsBack(a: Anchor)
    requires a.Valid()
    ensures ParseAnchor(EncodeAnchor(a)) == Some(a)
  {
    var digits := Decimal(a.sequence);
    var fields := MIDDLE + (a.digest + (SEPARATOR + PreviousText(a.previous)));
    var line := EncodeAnchor(a);
    assert line[|HEAD|..] == digits + fields;
    DecimalReads(a.sequence);
    NoLeadingZero(a.sequence);
    assert fields[0] == ',';
    DigitRunEnds(digits, fields);
    assert (digits + fields)[..|digits|] == digits && (digits + fields)[|digits|..] == fields;
    FieldsReadBack(a);
  }

  ghost predicate OneLine(s: string) {
    forall i :: 0 <= i < |s| ==> s[i] != '\n'
  }

  lemma OneLineJoins(a: string, b: string)
    requires OneLine(a) && OneLine(b)
    ensures OneLine(a + b)
  {
  }

  lemma EncodedIsOneLine(a: Anchor)
    requires a.Valid()
    ensures OneLine(EncodeAnchor(a)) && EncodeAnchor(a) != "" && EncodeAnchor(a)[0] == '{'
  {
    DecimalReads(a.sequence);
    var p := PreviousText(a.previous);
    assert OneLine(HEAD) && OneLine(MIDDLE) && OneLine(SEPARATOR) && OneLine(p) && OneLine(Decimal(a.sequence));
    OneLineJoins(SEPARATOR, p);
    OneLineJoins(a.digest, SEPARATOR + p);
    OneLineJoins(MIDDLE, a.digest + (SEPARATOR + p));
    OneLineJoins(Decimal(a.sequence), MIDDLE + (a.digest + (SEPARATOR + p)));
    OneLineJoins(HEAD, Decimal(a.sequence) + (MIDDLE + (a.digest + (SEPARATOR + p))));
  }

  // ---------------------------------------------------------------- splitting the file

  /** The longest prefix that ends with a commit marker. */
  function Committed(bytes: string): (prefix: string)
    ensures prefix <= bytes && (prefix != "" ==> prefix[|prefix| - 1] == '\n')
  {
    if bytes == "" || bytes[|bytes| - 1] == '\n' then bytes else Committed(bytes[..|bytes| - 1])
  }

  predicate IsCommitted(bytes: string) {
    bytes == "" || bytes[|bytes| - 1] == '\n'
  }

  /** The lines of a committed file, their newlines dropped. */
  function Lines(committed: string): seq<string>
    requires IsCommitted(committed)
    decreases |committed|
  {
    if committed == "" then []
    else
      var body := committed[..|committed| - 1];
      var earlier := Committed(body);
      Lines(earlier) + [body[|earlier|..]]
  }

  function ParseLines(lines: seq<string>): Option<seq<Anchor>> {
    if lines == [] then Some([])
    else
      var earlier := ParseLines(lines[..|lines| - 1]);
      var last := ParseAnchor(lines[|lines| - 1]);
      if earlier.None? || last.None? then None else Some(earlier.value + [last.value])
  }

  lemma {:induction false} TornTailDropped(committed: string, tail: string)
    requires IsCommitted(committed) && OneLine(tail)
    ensures Committed(committed + tail) == committed
    decreases |tail|
  {
    if tail == "" {
      assert committed + tail == committed;
    } else {
      var bytes := committed + tail;
      assert bytes[|bytes| - 1] == tail[|tail| - 1];
      assert bytes[..|bytes| - 1] == committed + tail[..|tail| - 1];
      TornTailDropped(committed, tail[..|tail| - 1]);
    }
  }

  lemma LineAdded(committed: string, line: string)
    requires IsCommitted(committed) && OneLine(line)
    ensures IsCommitted(committed + (line + "\n")) && Lines(committed + (line + "\n")) == Lines(committed) + [line]
  {
    hide Committed;
    var longer := committed + (line + "\n");
    assert longer[..|longer| - 1] == committed + line;
    TornTailDropped(committed, line);
    assert (committed + line)[|committed|..] == line;
  }

  function EncodeAll(anchors: seq<Anchor>): string {
    if anchors == [] then "" else EncodeAll(anchors[..|anchors| - 1]) + Line(anchors[|anchors| - 1])
  }

  ghost predicate AllValid(anchors: seq<Anchor>) {
    forall i :: 0 <= i < |anchors| ==> anchors[i].Valid()
  }

  /** The whole file reads back as the records written to it. */
  lemma {:induction false} FileReadsBack(anchors: seq<Anchor>)
    requires AllValid(anchors)
    ensures IsCommitted(EncodeAll(anchors)) && ParseLines(Lines(EncodeAll(anchors))) == Some(anchors)
  {
    hide ParseAnchor, EncodeAnchor, Lines, Anchor.Valid;
    if anchors == [] {
      NoLines();
    } else {
      var last := |anchors| - 1;
      FileReadsBack(anchors[..last]);
      EncodedIsOneLine(anchors[last]);
      LineAdded(EncodeAll(anchors[..last]), EncodeAnchor(anchors[last]));
      AnchorReadsBack(anchors[last]);
      var lines := Lines(EncodeAll(anchors));
      assert lines[..|lines| - 1] == Lines(EncodeAll(anchors[..last]));
      assert anchors == anchors[..last] + [anchors[last]];
    }
  }

  lemma NoLines()
    ensures Lines("") == []
  {
  }
}
