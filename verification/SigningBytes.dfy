/**
  The binary encoding that issuers sign: a domain tag, fixed-width fields and
  length-prefixed texts. Distinct valid claims never share their signing bytes.
 */
module SigningBytes {
  import opened Contracts
  import opened Sequences
  import opened Unicode
  import CanonicalEncoder
  import CanonicalJson

  datatype ProofKind =
    | InputAdmission
    | ContextSnapshot
    | IntentFastPathFacts
    | DecisionNecessityFacts
    | TurnCoordinationFacts
    | AuthorityGrant
    | PolicyEvaluation
    | Capability
    | HumanConfirmation
    | DependencySnapshot
    | OutcomeObservation
    | ExecutionPermit
    | ProviderExecutionReceipt
  {
    function Tag(): Byte {
      match this
      case InputAdmission => 1
      case ContextSnapshot => 2
      case IntentFastPathFacts => 3
      case DecisionNecessityFacts => 4
      case TurnCoordinationFacts => 5
      case AuthorityGrant => 6
      case PolicyEvaluation => 7
      case Capability => 8
      case HumanConfirmation => 9
      case DependencySnapshot => 10
      case OutcomeObservation => 11
      case ExecutionPermit => 12
      case ProviderExecutionReceipt => 13
    }
  }

  /** A UUID as its 32 hexadecimal digits. */
  type Uuid = digits: seq<nat> | |digits| == 32 && forall i :: 0 <= i < 32 ==> digits[i] < 16
    witness seq(32, i => 0)

  const SCHEMA_VERSION: nat := 1
  const TEXT_LIMIT: nat := 0x1_0000_0000

  datatype Claims = Claims(
    proofId: Uuid,
    kind: ProofKind,
    issuer: Reference,
    subject: Reference,
    subjectDigest: string,
    tenant: Reference,
    scope: Reference,
    purpose: Reference,
    policyRevision: Reference,
    issuedAt: nat,
    expiresAt: nat,
    nonce: string,
    schemaVersion: nat)

  predicate IsWhitespace(c: char) {
    var n := c as int;
    || 9 <= n <= 13 || n == 32 || n == 0x85 || n == 0xA0 || n == 0x1680
    || 0x2000 <= n <= 0x200A || n == 0x2028 || n == 0x2029 || n == 0x202F || n == 0x205F || n == 0x3000
  }

  predicate Blank(s: string) {
    forall i :: 0 <= i < |s| ==> IsWhitespace(s[i])
  }

  predicate ValidClaims(c: Claims) {
    && (exists i :: 0 <= i < 32 && c.proofId[i] != 0)
    && !Blank(c.issuer) && !Blank(c.subject) && !Blank(c.tenant)
    && !Blank(c.scope) && !Blank(c.purpose) && !Blank(c.policyRevision)
    && ValidDigest(c.subjectDigest)
    && c.issuedAt != 0 && c.issuedAt < c.expiresAt <= MAX_SAFE_WIRE_INTEGER
    && ValidDigest(c.nonce)
    && c.schemaVersion == SCHEMA_VERSION
  }

  // ---------------------------------------------------------------- fields

  function Pow256(k: nat): nat {
    if k == 0 then 1 else 256 * Pow256(k - 1)
  }

  function BigEndianBytes(n: nat, width: nat): (bytes: seq<Byte>)
    ensures |bytes| == width
  {
    if width == 0 then [] else BigEndianBytes(n / 256, width - 1) + [n % 256]
  }

  function FromBigEndian(bytes: seq<Byte>): nat {
    if bytes == [] then 0 else 256 * FromBigEndian(bytes[..|bytes| - 1]) + bytes[|bytes| - 1]
  }

  lemma {:induction false} BigEndianReads(n: nat, width: nat)
    requires n < Pow256(width)
    ensures FromBigEndian(BigEndianBytes(n, width)) == n
  {
    if width > 0 {
      BigEndianReads(n / 256, width - 1);
      var bytes := BigEndianBytes(n, width);
      assert bytes[..width - 1] == BigEndianBytes(n / 256, width - 1);
    }
  }

  lemma WidthsSuffice(n: nat)
    ensures n < TEXT_LIMIT ==> n < Pow256(4)
    ensures n <= MAX_SAFE_WIRE_INTEGER ==> n < Pow256(8)
  {
    assert Pow256(1) == 256;
    assert Pow256(2) == 65536;
    assert Pow256(4) == 256 * (256 * Pow256(2));
    assert Pow256(6) == 256 * (256 * Pow256(4));
    assert Pow256(8) == 256 * (256 * Pow256(6));
  }

  /** One appended piece: raw bytes of a width its position fixes, or a length-prefixed text. */
  datatype Field = Fixed(bytes: seq<Byte>) | Text(text: string)

  function EncodeField(f: Field): seq<Byte> {
    match f
    case Fixed(bytes) => bytes
    case Text(text) => BigEndianBytes(|Utf8(text)|, 4) + Utf8(text)
  }

  predicate Encodable(f: Field) {
    f.Text? ==> |Utf8(f.text)| < TEXT_LIMIT
  }

  /** Fields that can stand at the same position. */
  predicate SameShape(f: Field, g: Field) {
    (f.Text? && g.Text?) || (f.Fixed? && g.Fixed? && |f.bytes| == |g.bytes|)
  }

  lemma FieldPrefix(f: Field, g: Field, x: seq<Byte>, y: seq<Byte>)
    requires SameShape(f, g) && Encodable(f) && Encodable(g)
    requires EncodeField(f) + x == EncodeField(g) + y
    ensures f == g && x == y
  {
    match f
    case Fixed(bytes) => SplitEqual(bytes, x, g.bytes, y);
    case Text(s) =>
      var a, b := Utf8(s), Utf8(g.text);
      assert EncodeField(f) + x == BigEndianBytes(|a|, 4) + (a + x);
      assert EncodeField(g) + y == BigEndianBytes(|b|, 4) + (b + y);
      SplitEqual(BigEndianBytes(|a|, 4), a + x, BigEndianBytes(|b|, 4), b + y);
      WidthsSuffice(|a|);
      WidthsSuffice(|b|);
      BigEndianReads(|a|, 4);
      BigEndianReads(|b|, 4);
      SplitEqual(a, x, b, y);
      Utf8Injective(s, g.text);
  }

  /** Lists of fields of one layout are read back from their bytes, whatever follows them. */
  lemma {:induction false} FieldsPrefix(fs: seq<Field>, gs: seq<Field>, x: seq<Byte>, y: seq<Byte>)
    requires |fs| == |gs| && forall i :: 0 <= i < |fs| ==> SameShape(fs[i], gs[i])
    requires (forall i :: 0 <= i < |fs| ==> Encodable(fs[i])) && forall i :: 0 <= i < |gs| ==> Encodable(gs[i])
    requires Flatten(EncodeField, fs) + x == Flatten(EncodeField, gs) + y
    ensures fs == gs && x == y
  {
    if fs == [] {
      assert Flatten(EncodeField, fs) + x == x && Flatten(EncodeField, gs) + y == y;
    } else {
      var p, q := Flatten(EncodeField, fs[1..]), Flatten(EncodeField, gs[1..]);
      assert Flatten(EncodeField, fs) + x == EncodeField(fs[0]) + (p + x);
      assert Flatten(EncodeField, gs) + y == EncodeField(gs[0]) + (q + y);
      FieldPrefix(fs[0], gs[0], p + x, q + y);
      FieldsPrefix(fs[1..], gs[1..], x, y);
      assert fs == [fs[0]] + fs[1..] && gs == [gs[0]] + gs[1..];
    }
  }

  // ---------------------------------------------------------------- the layout

  function HexText(digits: seq<nat>): (text: string)
    requires forall i :: 0 <= i < |digits| ==> digits[i] < 16
    ensures |text| == |digits|
  {
    seq(|digits|, i requires 0 <= i < |digits| => CanonicalJson.HexDigit(digits[i]))
  }

  /** The hyphenated form, 8-4-4-4-12. */
  function UuidText(id: Uuid): (text: string)
    ensures |text| == 36
  {
    HexText(id[..8]) + "-" + HexText(id[8..12]) + "-" + HexText(id[12..16]) + "-" + HexText(id[16..20]) + "-" + HexText(id[20..])
  }

  /** Where the i-th digit stands in the hyphenated form. */
  function HyphenatedPosition(i: nat): nat {
    if i < 8 then i else if i < 12 then i + 1 else if i < 16 then i + 2 else if i < 20 then i + 3 else i + 4
  }

  lemma UuidDigitAt(id: Uuid, i: nat)
    requires i < 32
    ensures UuidText(id)[HyphenatedPosition(i)] == CanonicalJson.HexDigit(id[i])
  {
  }

  lemma UuidTextInjective(a: Uuid, b: Uuid)
    requires UuidText(a) == UuidText(b)
    ensures a == b
  {
    forall i | 0 <= i < 32
      ensures a[i] == b[i]
    {
      UuidDigitAt(a, i);
      UuidDigitAt(b, i);
      CanonicalJson.HexDigitValue(a[i]);
      CanonicalJson.HexDigitValue(b[i]);
    }
  }

  lemma {:induction false} AsciiLength(text: string)
    requires forall i :: 0 <= i < |text| ==> text[i] as int < 0x80
    ensures |Utf8(text)| == |text|
  {
    if text != "" {
      AsciiLength(text[1..]);
    }
  }

  const DOMAIN: string := "idr-proof-v1" + [0 as char]

  function Fields(c: Claims): seq<Field> {
    [ Fixed(Utf8(DOMAIN)),
      Fixed(Utf8(UuidText(c.proofId))),
      Fixed([c.kind.Tag()]),
      Text(c.issuer),
      Text(c.subject),
      Text(c.subjectDigest),
      Text(c.tenant),
      Text(c.scope),
      Text(c.purpose),
      Text(c.policyRevision),
      Fixed(BigEndianBytes(c.issuedAt, 8)),
      Fixed(BigEndianBytes(c.expiresAt, 8)),
      Text(c.nonce),
      Fixed(BigEndianBytes(c.schemaVersion, 2)) ]
  }

  predicate TextsEncodable(c: Claims) {
    forall i :: 0 <= i < |Fields(c)| ==> Encodable(Fields(c)[i])
  }

  ghost function SigningBytesOf(c: Claims): seq<Byte> {
    Flatten(EncodeField, Fields(c))
  }

  // ---------------------------------------------------------------- the encoder

  datatype Outcome = Pass | InvalidContract | InvalidText

  method AppendText(output: CanonicalEncoder.ByteBuffer, value: string) returns (ok: bool)
    modifies output
    ensures ok <==> Encodable(Text(value))
    ensures ok ==> output.bytes == old(output.bytes) + EncodeField(Text(value))
    ensures !ok ==> output.bytes == old(output.bytes)
  {
    var bytes := Utf8(value);
    if |bytes| >= TEXT_LIMIT {
      return false;
    }
    output.Append(BigEndianBytes(|bytes|, 4));
    output.Append(bytes);
    return true;
  }

  /** Appends the fields in order, stopping at the first text that is too long. */
  method AppendFields(output: CanonicalEncoder.ByteBuffer, fields: seq<Field>) returns (ok: bool)
    modifies output
    ensures ok <==> forall i :: 0 <= i < |fields| ==> Encodable(fields[i])
    ensures ok ==> output.bytes == old(output.bytes) + Flatten(EncodeField, fields)
  {
    for k := 0 to |fields|
      invariant forall i :: 0 <= i < k ==> Encodable(fields[i])
      invariant output.bytes == old(output.bytes) + Flatten(EncodeField, fields[..k])
    {
      FlattenStep(EncodeField, fields, k);
      match fields[k]
      case Fixed(bytes) =>
        output.Append(bytes);
      case Text(text) =>
        ok := AppendText(output, text);
        if !ok {
          return;
        }
    }
    assert fields[..|fields|] == fields;
    return true;
  }

  method CanonicalSigningBytes(c: Claims) returns (r: Outcome, bytes: seq<Byte>)
    ensures r.InvalidContract? <==> !ValidClaims(c)
    ensures r.Pass? <==> ValidClaims(c) && TextsEncodable(c)
    ensures r.Pass? ==> bytes == SigningBytesOf(c)
  {
    bytes := [];
    if !ValidClaims(c) {
      return InvalidContract, bytes;
    }
    var output := new CanonicalEncoder.ByteBuffer();
    var ok := AppendFields(output, Fields(c));
    if !ok {
      return InvalidText, bytes;
    }
    return Pass, output.bytes;
  }

  // ---------------------------------------------------------------- unambiguity

  lemma UuidWidth(id: Uuid)
    ensures |Utf8(UuidText(id))| == 36
  {
    AsciiLength(UuidText(id));
  }

  lemma TagsDiffer(a: ProofKind, b: ProofKind)
    requires a.Tag() == b.Tag()
    ensures a == b
  {
  }

  lemma SameLayout(a: Claims, b: Claims, i: nat)
    requires i < |Fields(a)|
    ensures |Fields(a)| == |Fields(b)| && SameShape(Fields(a)[i], Fields(b)[i])
  {
    UuidWidth(a.proofId);
    UuidWidth(b.proofId);
  }

  lemma FieldsDetermineClaims(a: Claims, b: Claims)
    requires ValidClaims(a) && ValidClaims(b) && Fields(a) == Fields(b)
    ensures a == b
  {
    var fs, gs := Fields(a), Fields(b);
    assert fs[1] == gs[1];
    Utf8Injective(UuidText(a.proofId), UuidText(b.proofId));
    UuidTextInjective(a.proofId, b.proofId);
    assert fs[2] == gs[2];
    assert [a.kind.Tag()][0] == [b.kind.Tag()][0];
    TagsDiffer(a.kind, b.kind);
    assert fs[10] == gs[10] && fs[11] == gs[11];
    WidthsSuffice(a.issuedAt);
    WidthsSuffice(b.issuedAt);
    WidthsSuffice(a.expiresAt);
    WidthsSuffice(b.expiresAt);
    BigEndianReads(a.issuedAt, 8);
    BigEndianReads(b.issuedAt, 8);
    BigEndianReads(a.expiresAt, 8);
    BigEndianReads(b.expiresAt, 8);
    assert fs[3] == gs[3] && fs[4] == gs[4] && fs[5] == gs[5] && fs[6] == gs[6];
    assert fs[7] == gs[7] && fs[8] == gs[8] && fs[9] == gs[9] && fs[12] == gs[12];
  }

  /**
    No valid claims' signing bytes are a prefix of another's, so equal bytes mean equal
    claims, field by field.
   */
  lemma SigningBytesPrefixFree(a: Claims, b: Claims, x: seq<Byte>, y: seq<Byte>)
    requires ValidClaims(a) && TextsEncodable(a) && ValidClaims(b) && TextsEncodable(b)
    ensures SigningBytesOf(a) + x == SigningBytesOf(b) + y <==> a == b && x == y
  {
    if SigningBytesOf(a) + x == SigningBytesOf(b) + y {
      forall i | 0 <= i < |Fields(a)|
        ensures SameShape(Fields(a)[i], Fields(b)[i])
      {
        SameLayout(a, b, i);
      }
      FieldsPrefix(Fields(a), Fields(b), x, y);
      FieldsDetermineClaims(a, b);
    }
  }
}
