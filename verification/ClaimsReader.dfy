/**
  A reader of signing bytes: it knows the layout, the domain tag and the numbers of the proof
  kinds on its own, and reads the bytes of every valid claims back field by field.
 */
module ClaimsReader {
  import opened Wrappers
  import opened Contracts
  import opened Sequences
  import opened Unicode
  import opened SigningBytes
  import JsonReader
  import CanonicalJson

  // ---------------------------------------------------------------- slots

  /** Some bytes of a fixed width, or a text behind its length in four bytes. */
  datatype Slot = Raw(width: nat) | Prefixed

  /** The value of big-endian bytes. */
  function Weigh(bytes: seq<Byte>): nat {
    if bytes == [] then 0 else Weigh(bytes[..|bytes| - 1]) * 256 + bytes[|bytes| - 1]
  }

  function ReadSlot(slot: Slot, bytes: seq<Byte>): Option<(Field, seq<Byte>)> {
    match slot
    case Raw(width) => if |bytes| < width then None else Some((Fixed(bytes[..width]), bytes[width..]))
    case Prefixed =>
      if |bytes| < 4 || |bytes| - 4 < Weigh(bytes[..4]) then None
      else
        var end := 4 + Weigh(bytes[..4]);
        var text := JsonReader.ReadUtf8(bytes[4..end]);
        if text.None? then None else Some((Text(text.value), bytes[end..]))
  }

  function ReadSlots(layout: seq<Slot>, bytes: seq<Byte>): Option<(seq<Field>, seq<Byte>)> {
    if layout == [] then Some(([], bytes))
    else
      var head := ReadSlot(layout[0], bytes);
      if head.None? then None
      else
        var rest := ReadSlots(layout[1..], head.value.1);
        if rest.None? then None else Some(([head.value.0] + rest.value.0, rest.value.1))
  }

  predicate Fills(f: Field, slot: Slot) {
    match slot
    case Raw(width) => f.Fixed? && |f.bytes| == width
    case Prefixed => f.Text? && Encodable(f)
  }

  lemma {:induction false} WeighsBigEndian(n: nat, width: nat)
    requires n < Pow256(width)
    ensures Weigh(BigEndianBytes(n, width)) == n
  {
    if width > 0 {
      WeighsBigEndian(n / 256, width - 1);
      assert BigEndianBytes(n, width)[..width - 1] == BigEndianBytes(n / 256, width - 1);
    }
  }

  lemma SlotReadsBack(f: Field, slot: Slot, x: seq<Byte>)
    requires Fills(f, slot)
    ensures ReadSlot(slot, EncodeField(f) + x) == Some((f, x))
  {
    match slot
    case Raw(width) =>
      assert (f.bytes + x)[..width] == f.bytes && (f.bytes + x)[width..] == x;
    case Prefixed =>
      var text := Utf8(f.text);
      var all := EncodeField(f) + x;
      WidthsSuffice(|text|);
      WeighsBigEndian(|text|, 4);
      assert all[..4] == BigEndianBytes(|text|, 4) && all[4..4 + |text|] == text && all[4 + |text|..] == x;
      JsonReader.Utf8ReadsBack(f.text);
  }

  lemma {:induction false} SlotsReadBack(fields: seq<Field>, layout: seq<Slot>, x: seq<Byte>)
    requires |fields| == |layout| && forall i :: 0 <= i < |fields| ==> Fills(fields[i], layout[i])
    ensures ReadSlots(layout, Flatten(EncodeField, fields) + x) == Some((fields, x))
  {
    if fields == [] {
      assert Flatten(EncodeField, fields) + x == x;
    } else {
      var rest := Flatten(EncodeField, fields[1..]) + x;
      assert Flatten(EncodeField, fields) + x == EncodeField(fields[0]) + rest;
      SlotReadsBack(fields[0], layout[0], rest);
      SlotsReadBack(fields[1..], layout[1..], x);
      assert fields == [fields[0]] + fields[1..];
    }
  }

  // ---------------------------------------------------------------- the layout

  const LAYOUT: seq<Slot> :=
    [Raw(13), Raw(36), Raw(1), Prefixed, Prefixed, Prefixed, Prefixed, Prefixed, Prefixed, Prefixed, Raw(8), Raw(8), Prefixed, Raw(2)]

  /** `idr-proof-v1` and a zero byte, in ASCII. */
  const DOMAIN_BYTES: seq<Byte> := [0x69, 0x64, 0x72, 0x2D, 0x70, 0x72, 0x6F, 0x6F, 0x66, 0x2D, 0x76, 0x31, 0x00]

  function KindNumbered(n: nat): Option<ProofKind> {
    match n
    case 1 => Some(InputAdmission)
    case 2 => Some(ContextSnapshot)
    case 3 => Some(IntentFastPathFacts)
    case 4 => Some(DecisionNecessityFacts)
    case 5 => Some(TurnCoordinationFacts)
    case 6 => Some(AuthorityGrant)
    case 7 => Some(PolicyEvaluation)
    case 8 => Some(Capability)
    case 9 => Some(HumanConfirmation)
    case 10 => Some(DependencySnapshot)
    case 11 => Some(OutcomeObservation)
    case 12 => Some(ExecutionPermit)
    case 13 => Some(ProviderExecutionReceipt)
    case _ => None
  }

  /** A lower-case hexadecimal digit, by its byte. */
  function HexOf(b: Byte): Option<nat> {
    if 0x30 <= b <= 0x39 then Some(b - 0x30) else if 0x61 <= b <= 0x66 then Some(b - 0x57) else None
  }

  /** Where the digits of a hyphenated identifier stand. */
  function Place(i: nat): nat {
    if i < 8 then i else if i < 12 then i + 1 else if i < 16 then i + 2 else if i < 20 then i + 3 else i + 4
  }

  ghost function ReadId(bytes: seq<Byte>): Option<Uuid> {
    if |bytes| != 36 || bytes[8] != 0x2D || bytes[13] != 0x2D || bytes[18] != 0x2D || bytes[23] != 0x2D
      || exists i :: 0 <= i < 32 && HexOf(bytes[Place(i)]).None?
    then None
    else Some(seq(32, i requires 0 <= i < 32 => var d: nat := HexOf(bytes[Place(i)]).value; d))
  }

  /** The claims whose fields, in this order, are as read. */
  ghost function ClaimsOf(f: seq<Field>): Option<Claims>
    requires |f| == 14 && forall i :: 0 <= i < 14 ==> if LAYOUT[i].Raw? then f[i].Fixed? && |f[i].bytes| == LAYOUT[i].width else f[i].Text?
  {
    var id, kind := ReadId(f[1].bytes), KindNumbered(f[2].bytes[0]);
    if f[0].bytes != DOMAIN_BYTES || id.None? || kind.None? then None
    else
      Some(Claims(
        id.value, kind.value, f[3].text, f[4].text, f[5].text, f[6].text, f[7].text, f[8].text, f[9].text,
        Weigh(f[10].bytes), Weigh(f[11].bytes), f[12].text, Weigh(f[13].bytes)))
  }

  ghost function ReadClaims(bytes: seq<Byte>): Option<(Claims, seq<Byte>)> {
    var fields := ReadSlots(LAYOUT, bytes);
    if fields.None? then None
    else
      SlotsShaped(LAYOUT, bytes);
      var claims := ClaimsOf(fields.value.0);
      if claims.None? then None else Some((claims.value, fields.value.1))
  }

  lemma {:induction false} SlotsShaped(layout: seq<Slot>, bytes: seq<Byte>)
    requires ReadSlots(layout, bytes).Some?
    ensures
      var fields := ReadSlots(layout, bytes).value.0;
      && |fields| == |layout|
      && forall i :: 0 <= i < |layout| ==> if layout[i].Raw? then fields[i].Fixed? && |fields[i].bytes| == layout[i].width else fields[i].Text?
  {
    if layout != [] {
      var head := ReadSlot(layout[0], bytes).value;
      SlotsShaped(layout[1..], head.1);
    }
  }

  // ---------------------------------------------------------------- reading back

  lemma {:induction false} AsciiBytes(text: string)
    requires forall i :: 0 <= i < |text| ==> text[i] as int < 0x80
    ensures |Utf8(text)| == |text| && forall i :: 0 <= i < |text| ==> Utf8(text)[i] == text[i] as int
  {
    if text != "" {
      AsciiBytes(text[1..]);
    }
  }

  lemma DomainSpelled()
    ensures Utf8(DOMAIN) == DOMAIN_BYTES
  {
    AsciiBytes(DOMAIN);
  }

  lemma HexSpelled(d: nat)
    requires d < 16
    ensures var c := CanonicalJson.HexDigit(d); c as int < 0x80 && HexOf(c as int) == Some(d)
  {
  }

  lemma IdReadsBack(id: Uuid)
    ensures ReadId(Utf8(UuidText(id))) == Some(id)
  {
    var text := UuidText(id);
    forall i | 0 <= i < 36
      ensures text[i] as int < 0x80
    {
      if i != 8 && i != 13 && i != 18 && i != 23 {
        var k := if i < 8 then i else if i < 13 then i - 1 else if i < 18 then i - 2 else if i < 23 then i - 3 else i - 4;
        UuidDigitAt(id, k);
        HexSpelled(id[k]);
      }
    }
    AsciiBytes(text);
    var bytes := Utf8(text);
    HyphensStand(id);
    forall i | 0 <= i < 32
      ensures HexOf(bytes[Place(i)]) == Some(id[i])
    {
      UuidDigitAt(id, i);
      HexSpelled(id[i]);
    }
    assert ReadId(bytes).Some?;
    assert ReadId(bytes).value == id;
  }

  lemma HyphensStand(id: Uuid)
    ensures UuidText(id)[8] == UuidText(id)[13] == UuidText(id)[18] == UuidText(id)[23] == '-'
  {
    hide CanonicalJson.HexDigit;
  }

  lemma KindReadsBack(kind: ProofKind)
    ensures KindNumbered(kind.Tag()) == Some(kind)
  {
  }

  lemma FieldsFill(c: Claims)
    requires TextsEncodable(c)
    ensures |Fields(c)| == 14 && forall i :: 0 <= i < 14 ==> Fills(Fields(c)[i], LAYOUT[i])
  {
    DomainSpelled();
    UuidWidth(c.proofId);
    assert Encodable(Fields(c)[3]) && Encodable(Fields(c)[4]) && Encodable(Fields(c)[5]) && Encodable(Fields(c)[6]);
    assert Encodable(Fields(c)[7]) && Encodable(Fields(c)[8]) && Encodable(Fields(c)[9]) && Encodable(Fields(c)[12]);
  }

  /** Signing bytes, whatever follows them, read back as the claims they were made from. */
  lemma ReadsBack(c: Claims, x: seq<Byte>)
    requires ValidClaims(c) && TextsEncodable(c)
    ensures ReadClaims(SigningBytesOf(c) + x) == Some((c, x))
  {
    FieldsFill(c);
    SlotsReadBack(Fields(c), LAYOUT, x);
    DomainSpelled();
    IdReadsBack(c.proofId);
    KindReadsBack(c.kind);
    WidthsSuffice(c.issuedAt);
    WidthsSuffice(c.expiresAt);
    WeighsBigEndian(c.issuedAt, 8);
    WeighsBigEndian(c.expiresAt, 8);
    assert Pow256(2) == 65536;
    WeighsBigEndian(c.schemaVersion, 2);
  }

  predicate Visible(text: string) {
    exists c :: c in text && !IsWhitespace(c)
  }

  predicate Hex64(text: string) {
    |text| == 64 && forall c :: c in text ==> c as int < 0x80 && HexOf(c as int).Some?
  }

  /** What claims must say to be signed at all. */
  predicate Signable(c: Claims) {
    && (exists d :: d in c.proofId && d > 0)
    && (forall text :: text in [c.issuer, c.subject, c.tenant, c.scope, c.purpose, c.policyRevision] ==> Visible(text))
    && Hex64(c.subjectDigest) && Hex64(c.nonce)
    && 0 < c.issuedAt < c.expiresAt < 0x20_0000_0000_0000
    && c.schemaVersion == 1
  }

  lemma VisibleNotBlank(text: string)
    ensures Visible(text) <==> !Blank(text)
  {
    hide IsWhitespace;
    assert forall c :: c in text ==> exists i :: 0 <= i < |text| && text[i] == c;
    assert forall i :: 0 <= i < |text| ==> text[i] in text;
  }

  lemma HexIsDigest(text: string)
    ensures Hex64(text) <==> ValidDigest(text)
  {
    assert forall c :: c in text ==> exists i :: 0 <= i < |text| && text[i] == c;
    assert forall i :: 0 <= i < |text| ==> text[i] in text;
  }

  lemma NonZeroId(c: Claims)
    ensures (exists d :: d in c.proofId && d > 0) <==> exists i :: 0 <= i < 32 && c.proofId[i] != 0
  {
    assert forall i :: 0 <= i < 32 ==> c.proofId[i] in c.proofId;
  }

  /** Signing bytes exist for exactly the claims that may be signed, and say what those claims say. */
  lemma SignedExactly(c: Claims)
    ensures ValidClaims(c) <==> Signable(c)
    ensures Signable(c) && TextsEncodable(c) ==> ReadClaims(SigningBytesOf(c)) == Some((c, []))
  {
    hide Blank, Visible, ValidDigest, Hex64, ReadClaims, SigningBytesOf, TextsEncodable;
    VisibleNotBlank(c.issuer);
    VisibleNotBlank(c.subject);
    VisibleNotBlank(c.tenant);
    VisibleNotBlank(c.scope);
    VisibleNotBlank(c.purpose);
    VisibleNotBlank(c.policyRevision);
    HexIsDigest(c.subjectDigest);
    HexIsDigest(c.nonce);
    NonZeroId(c);
    if ValidClaims(c) && TextsEncodable(c) {
      ReadsBack(c, []);
      assert SigningBytesOf(c) + [] == SigningBytesOf(c);
    }
  }
}
