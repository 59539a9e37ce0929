/**
  The constrained JSON profile and its canonical text (RFC 8785, sections 3.2.2 and
  3.2.3): one text per value, and one value per text.
 */
module CanonicalJson {
  import opened Sequences
  import opened Unicode

  const MAX_SAFE_WIRE_INTEGER: int := 9_007_199_254_740_991
  const MAX_DEPTH: nat := 32
  const MAX_NODES: nat := 10_000

  /** How the JSON parser holds a number; the profile forbids floats. */
  datatype Number = PosInt(n: nat) | NegInt(magnitude: nat) | Float(bits: nat) {
    predicate WellFormed() {
      match this
      case PosInt(n) => n < 0x1_0000_0000_0000_0000
      case NegInt(m) => 0 < m <= 0x8000_0000_0000_0000
      case Float(_) => true
    }
  }

  datatype Json =
    | JNull
    | JBool(value: bool)
    | JNumber(number: Number)
    | JString(text: string)
    | JArray(items: seq<Json>)
    | JObject(members: map<string, Json>)

  // ---------------------------------------------------------------- the profile

  predicate SafeNumber(n: Number) {
    match n
    case PosInt(k) => k <= MAX_SAFE_WIRE_INTEGER
    case NegInt(m) => m <= MAX_SAFE_WIRE_INTEGER
    case Float(_) => false
  }

  ghost predicate WellFormed(v: Json) {
    match v
    case JNumber(n) => n.WellFormed()
    case JArray(items) => forall i :: 0 <= i < |items| ==> WellFormed(items[i])
    case JObject(members) => forall k :: k in members ==> WellFormed(members[k])
    case _ => true
  }

  /** Every number in the value is a safe integer. */
  ghost predicate InProfile(v: Json) {
    match v
    case JNumber(n) => SafeNumber(n)
    case JArray(items) => forall i :: 0 <= i < |items| ==> InProfile(items[i])
    case JObject(members) => forall k :: k in members ==> InProfile(members[k])
    case _ => true
  }

  /** Placed at `depth`, the value nests no deeper than the limit. */
  ghost predicate WithinDepth(v: Json, depth: nat) {
    && depth <= MAX_DEPTH
    && match v
       case JArray(items) => forall i :: 0 <= i < |items| ==> WithinDepth(items[i], depth + 1)
       case JObject(members) => forall k :: k in members ==> WithinDepth(members[k], depth + 1)
       case _ => true
  }

  /** The number of values in the tree, object keys not counted. */
  ghost function NodeCount(v: Json): nat
    decreases v, 0
  {
    match v
    case JArray(items) => 1 + SeqCount(items)
    case JObject(members) => 1 + MemberCount(v, members.Keys)
    case _ => 1
  }

  ghost function SeqCount(items: seq<Json>): nat
    decreases items, 0
  {
    if items == [] then 0 else NodeCount(items[0]) + SeqCount(items[1..])
  }

  ghost function MemberCount(v: Json, keys: set<string>): nat
    requires v.JObject? && keys <= v.members.Keys
    decreases v, 0, |keys|
  {
    if keys == {} then 0
    else
      var k :| k in keys;
      NodeCount(v.members[k]) + MemberCount(v, keys - {k})
  }

  /** The count does not depend on the order in which the members are taken. */
  lemma {:induction false} MemberCountTakes(v: Json, keys: set<string>, k: string)
    requires v.JObject? && keys <= v.members.Keys && k in keys
    ensures MemberCount(v, keys) == NodeCount(v.members[k]) + MemberCount(v, keys - {k})
    decreases |keys|
  {
    var first :| first in keys && MemberCount(v, keys) == NodeCount(v.members[first]) + MemberCount(v, keys - {first});
    if first != k {
      MemberCountTakes(v, keys - {first}, k);
      MemberCountTakes(v, keys - {k}, first);
      assert keys - {first} - {k} == keys - {k} - {first};
    }
  }

  lemma {:induction false} SeqCountConcat(a: seq<Json>, b: seq<Json>)
    ensures SeqCount(a + b) == SeqCount(a) + SeqCount(b)
  {
    if a == [] {
      assert a + b == b;
    } else {
      SeqCountConcat(a[1..], b);
      assert (a + b)[1..] == a[1..] + b;
    }
  }

  /** What both implementations accept: shallow enough, small enough, safe integers only. */
  ghost predicate WithinLimits(v: Json) {
    WithinDepth(v, 1) && NodeCount(v) <= MAX_NODES && InProfile(v)
  }

  // ---------------------------------------------------------------- text of strings and numbers

  function HexDigit(d: nat): char
    requires d < 16
  {
    "0123456789abcdef"[d]
  }

  function EscapeChar(c: char): string {
    if c == '"' then "\\\""
    else if c == '\\' then "\\\\"
    else if c as int == 8 then "\\b"
    else if c as int == 9 then "\\t"
    else if c as int == 10 then "\\n"
    else if c as int == 12 then "\\f"
    else if c as int == 13 then "\\r"
    else if c as int < 0x20 then "\\u00" + [HexDigit(c as int / 16), HexDigit(c as int % 16)]
    else [c]
  }

  function EscapeText(s: string): string {
    Flatten(EscapeChar, s)
  }

  function Quote(s: string): string {
    "\"" + EscapeText(s) + "\""
  }

  function DecimalDigit(d: nat): char
    requires d < 10
  {
    "0123456789"[d]
  }

  function Decimal(n: nat): string {
    if n < 10 then [DecimalDigit(n)] else Decimal(n / 10) + [DecimalDigit(n % 10)]
  }

  function NumberText(n: Number): string {
    match n
    case PosInt(k) => Decimal(k)
    case NegInt(m) => "-" + Decimal(m)
    case Float(_) => ""  // never written: both encoders refuse a float first
  }

  // ---------------------------------------------------------------- text of values

  ghost function Canon(v: Json): string
    decreases v, 0
  {
    match v
    case JNull => "null"
    case JBool(b) => if b then "true" else "false"
    case JNumber(n) => NumberText(n)
    case JString(s) => Quote(s)
    case JArray(items) => "[" + ItemsText(items)
    case JObject(members) => "{" + MembersText(v, SortedKeys(members.Keys))
  }

  /** The rest of an array after its opening bracket. */
  ghost function ItemsText(items: seq<Json>): string
    decreases items, 0
  {
    if items == [] then "]" else Canon(items[0]) + MoreItemsText(items[1..])
  }

  ghost function MoreItemsText(items: seq<Json>): string
    decreases items, 0
  {
    if items == [] then "]" else "," + (Canon(items[0]) + MoreItemsText(items[1..]))
  }

  ghost function MemberText(v: Json, key: string): string
    requires v.JObject? && key in v.members
    decreases v, 0, 0
  {
    Quote(key) + (":" + Canon(v.members[key]))
  }

  /** The rest of an object after its opening brace. */
  ghost function MembersText(v: Json, keys: seq<string>): string
    requires v.JObject? && forall k :: k in keys ==> k in v.members
    decreases v, 0, |keys| + 1
  {
    if keys == [] then "}" else MemberText(v, keys[0]) + MoreMembersText(v, keys[1..])
  }

  ghost function MoreMembersText(v: Json, keys: seq<string>): string
    requires v.JObject? && forall k :: k in keys ==> k in v.members
    decreases v, 0, |keys| + 1
  {
    if keys == [] then "}" else "," + (MemberText(v, keys[0]) + MoreMembersText(v, keys[1..]))
  }

  /** What is still to be written of an array once its first `k` items are out. */
  ghost function ItemsLeft(items: seq<Json>, k: nat): string
    requires k <= |items|
  {
    if k == 0 then ItemsText(items) else MoreItemsText(items[k..])
  }

  lemma ItemsLeftStart(v: Json)
    requires v.JArray?
    ensures Canon(v) == "[" + ItemsLeft(v.items, 0)
  {
  }

  lemma ItemsLeftStep(items: seq<Json>, k: nat)
    requires k < |items|
    ensures k == 0 ==> ItemsLeft(items, k) == Canon(items[k]) + ItemsLeft(items, k + 1)
    ensures k > 0 ==> ItemsLeft(items, k) == "," + (Canon(items[k]) + ItemsLeft(items, k + 1))
  {
    assert items[k..][0] == items[k] && items[k..][1..] == items[k + 1..];
  }

  lemma ItemsLeftEnd(items: seq<Json>)
    ensures ItemsLeft(items, |items|) == "]"
  {
    assert items[|items|..] == [];
  }

  /** What is still to be written of an object once its first `k` members are out. */
  ghost function MembersLeft(v: Json, keys: seq<string>, k: nat): string
    requires v.JObject? && k <= |keys| && forall key :: key in keys ==> key in v.members
  {
    if k == 0 then MembersText(v, keys) else MoreMembersText(v, keys[k..])
  }

  lemma MembersLeftStart(v: Json, keys: seq<string>)
    requires v.JObject? && keys == SortedKeys(v.members.Keys)
    ensures Canon(v) == "{" + MembersLeft(v, keys, 0)
  {
  }

  lemma MembersLeftStep(v: Json, keys: seq<string>, k: nat)
    requires v.JObject? && k < |keys| && forall key :: key in keys ==> key in v.members
    ensures k == 0 ==> MembersLeft(v, keys, k) == MemberText(v, keys[k]) + MembersLeft(v, keys, k + 1)
    ensures k > 0 ==> MembersLeft(v, keys, k) == "," + (MemberText(v, keys[k]) + MembersLeft(v, keys, k + 1))
  {
    assert keys[k..][0] == keys[k] && keys[k..][1..] == keys[k + 1..];
  }

  lemma MembersLeftEnd(v: Json, keys: seq<string>)
    requires v.JObject? && forall key :: key in keys ==> key in v.members
    ensures MembersLeft(v, keys, |keys|) == "}"
  {
    assert keys[|keys|..] == [];
  }

  // ---------------------------------------------------------------- reading strings back

  function HexValue(c: char): nat {
    if '0' <= c <= '9' then c as int - '0' as int else if 'a' <= c <= 'f' then c as int - 'a' as int + 10 else 0
  }

  /** The code point at the head of an escaped text, and how many characters spell it. */
  function ReadEscaped(t: string): (int, nat) {
    if t == "" then (0, 0)
    else if t[0] != '\\' then (t[0] as int, 1)
    else if |t| < 2 then (0, 1)
    else if t[1] == 'b' then (8, 2)
    else if t[1] == 't' then (9, 2)
    else if t[1] == 'n' then (10, 2)
    else if t[1] == 'f' then (12, 2)
    else if t[1] == 'r' then (13, 2)
    else if t[1] == 'u' then if |t| < 6 then (0, 2) else (16 * HexValue(t[4]) + HexValue(t[5]), 6)
    else (t[1] as int, 2)
  }

  lemma HexDigitValue(d: nat)
    requires d < 16
    ensures HexValue(HexDigit(d)) == d
  {
  }

  lemma EscapeCharReads(c: char, x: string)
    ensures ReadEscaped(EscapeChar(c) + x) == (c as int, |EscapeChar(c)|)
    ensures EscapeChar(c)[0] != '"'
  {
    var t := EscapeChar(c) + x;
    assert forall i :: 0 <= i < |EscapeChar(c)| ==> t[i] == EscapeChar(c)[i];
    if c as int < 0x20 {
      HexDigitValue(c as int / 16);
      HexDigitValue(c as int % 16);
    }
  }

  lemma EscapeCharPrefix(c: char, d: char, x: string, y: string)
    requires EscapeChar(c) + x == EscapeChar(d) + y
    ensures c == d && x == y
  {
    EscapeCharReads(c, x);
    EscapeCharReads(d, y);
    SplitEqual(EscapeChar(c), x, EscapeChar(d), y);
  }

  /** The number of characters before the closing quote. */
  function ScanQuoted(t: string): nat
    decreases |t|
  {
    if t == "" || t[0] == '"' then 0
    else
      var step := ReadEscaped(t).1;
      if 0 < step <= |t| then step + ScanQuoted(t[step..]) else 0
  }

  /** The closing quote cannot be mistaken for content. */
  lemma {:induction false} ScanFindsQuote(s: string, x: string)
    ensures ScanQuoted(EscapeText(s) + ("\"" + x)) == |EscapeText(s)|
  {
    var rest := "\"" + x;
    if s == "" {
      assert EscapeText(s) + rest == rest;
    } else {
      var tail := EscapeText(s[1..]) + rest;
      var t := EscapeText(s) + rest;
      assert t == EscapeChar(s[0]) + tail;
      EscapeCharReads(s[0], tail);
      assert t[0] == EscapeChar(s[0])[0];
      assert t[|EscapeChar(s[0])|..] == tail;
      ScanFindsQuote(s[1..], x);
    }
  }

  lemma EscapeTextEmpty(s: string)
    ensures EscapeText(s) == "" <==> s == ""
  {
    if s != "" {
      EscapeCharReads(s[0], "");
      assert |EscapeText(s)| >= |EscapeChar(s[0])|;
    }
  }

  lemma {:induction false} EscapeTextInjective(s: string, t: string)
    requires EscapeText(s) == EscapeText(t)
    ensures s == t
  {
    EscapeTextEmpty(s);
    EscapeTextEmpty(t);
    if s != "" {
      EscapeCharPrefix(s[0], t[0], EscapeText(s[1..]), EscapeText(t[1..]));
      EscapeTextInjective(s[1..], t[1..]);
      assert s == [s[0]] + s[1..] && t == [t[0]] + t[1..];
    }
  }

  lemma QuotePrefix(s: string, t: string, x: string, y: string)
    requires Quote(s) + x == Quote(t) + y
    ensures s == t && x == y
  {
    assert Quote(s) + x == "\"" + (EscapeText(s) + ("\"" + x));
    assert Quote(t) + y == "\"" + (EscapeText(t) + ("\"" + y));
    SplitEqual("\"", EscapeText(s) + ("\"" + x), "\"", EscapeText(t) + ("\"" + y));
    ScanFindsQuote(s, x);
    ScanFindsQuote(t, y);
    SplitEqual(EscapeText(s), "\"" + x, EscapeText(t), "\"" + y);
    SplitEqual("\"", x, "\"", y);
    EscapeTextInjective(s, t);
  }

  // ---------------------------------------------------------------- reading numbers back

  predicate IsDigit(c: char) {
    '0' <= c <= '9'
  }

  /** A number text ends here. */
  predicate EndsNumber(x: string) {
    x == "" || !IsDigit(x[0])
  }

  function DecimalValue(digits: string): int {
    if digits == "" then 0
    else 10 * DecimalValue(digits[..|digits| - 1]) + (digits[|digits| - 1] as int - '0' as int)
  }

  lemma {:induction false} DecimalReads(n: nat)
    ensures DecimalValue(Decimal(n)) == n
    ensures Decimal(n) != "" && forall i :: 0 <= i < |Decimal(n)| ==> IsDigit(Decimal(n)[i])
  {
    if n >= 10 {
      DecimalReads(n / 10);
      assert Decimal(n)[..|Decimal(n)| - 1] == Decimal(n / 10);
    } else {
      assert Decimal(n)[..0] == "";
    }
  }

  /** The number of leading digits. */
  function DigitRun(t: string): nat {
    if t == "" || !IsDigit(t[0]) then 0 else 1 + DigitRun(t[1..])
  }

  lemma {:induction false} DigitRunEnds(a: string, x: string)
    requires EndsNumber(x) && forall i :: 0 <= i < |a| ==> IsDigit(a[i])
    ensures DigitRun(a + x) == |a|
  {
    if a == "" {
      assert a + x == x;
    } else {
      DigitRunEnds(a[1..], x);
      assert (a + x)[1..] == a[1..] + x;
    }
  }

  lemma DecimalPrefix(m: nat, n: nat, x: string, y: string)
    requires Decimal(m) + x == Decimal(n) + y && EndsNumber(x) && EndsNumber(y)
    ensures m == n && x == y
  {
    DecimalReads(m);
    DecimalReads(n);
    DigitRunEnds(Decimal(m), x);
    DigitRunEnds(Decimal(n), y);
    SplitEqual(Decimal(m), x, Decimal(n), y);
  }

  lemma NumberHead(n: Number, x: string)
    requires SafeNumber(n)
    ensures var t := NumberText(n) + x; t != "" && (t[0] == '-' <==> n.NegInt?) && (IsDigit(t[0]) <==> n.PosInt?)
  {
    DecimalReads(if n.PosInt? then n.n else n.magnitude);
  }

  lemma NegIntText(n: Number, x: string)
    requires n.NegInt?
    ensures NumberText(n) + x == "-" + (Decimal(n.magnitude) + x)
  {
  }

  lemma NumberPrefix(m: Number, n: Number, x: string, y: string)
    requires SafeNumber(m) && SafeNumber(n) && EndsNumber(x) && EndsNumber(y)
    requires NumberText(m) + x == NumberText(n) + y
    ensures m == n && x == y
  {
    NumberHead(m, x);
    NumberHead(n, y);
    match m
    case PosInt(k) =>
      assert n.PosInt?;
      DecimalPrefix(k, n.n, x, y);
    case NegInt(k) =>
      assert n.NegInt?;
      NegIntText(m, x);
      NegIntText(n, y);
      StripHead("-", Decimal(k) + x, Decimal(n.magnitude) + y);
      DecimalPrefix(k, n.magnitude, x, y);
  }

  // ---------------------------------------------------------------- one value per text

  /** The first character of a value's text tells its kind. */
  function KindOf(v: Json): nat {
    match v
    case JNull => 0
    case JBool(b) => if b then 1 else 2
    case JNumber(_) => 3
    case JString(_) => 4
    case JArray(_) => 5
    case JObject(_) => 6
  }

  function KindOfHead(c: char): nat {
    if c == 'n' then 0 else if c == 't' then 1 else if c == 'f' then 2
    else if c == '-' || IsDigit(c) then 3 else if c == '"' then 4
    else if c == '[' then 5 else if c == '{' then 6 else 7
  }

  lemma CanonHead(v: Json, x: string)
    requires InProfile(v)
    ensures var t := Canon(v) + x; t != "" && KindOfHead(t[0]) == KindOf(v)
  {
    match v
    case JNumber(n) => NumberHead(n, x);
    case JArray(items) => assert (Canon(v) + x)[0] == '[';
    case JObject(members) => assert (Canon(v) + x)[0] == '{';
    case JString(s) => assert (Canon(v) + x)[0] == '"';
    case _ =>
  }

  lemma ContainerText(v: Json, x: string)
    ensures v.JArray? ==> Canon(v) + x == "[" + (ItemsText(v.items) + x)
    ensures v.JObject? ==> Canon(v) + x == "{" + (MembersText(v, SortedKeys(v.members.Keys)) + x)
  {
  }

  lemma ItemsSplit(items: seq<Json>, x: string)
    requires items != []
    ensures ItemsText(items) + x == Canon(items[0]) + (MoreItemsText(items[1..]) + x)
    ensures MoreItemsText(items) + x == "," + (Canon(items[0]) + (MoreItemsText(items[1..]) + x))
  {
  }

  lemma MembersSplit(v: Json, keys: seq<string>, x: string)
    requires v.JObject? && keys != [] && forall k :: k in keys ==> k in v.members
    ensures MembersText(v, keys) + x == MemberText(v, keys[0]) + (MoreMembersText(v, keys[1..]) + x)
    ensures MoreMembersText(v, keys) + x == "," + (MemberText(v, keys[0]) + (MoreMembersText(v, keys[1..]) + x))
  {
  }

  lemma MemberSplit(v: Json, key: string, x: string)
    requires v.JObject? && key in v.members
    ensures MemberText(v, key) + x == Quote(key) + (":" + (Canon(v.members[key]) + x))
  {
    assert (":" + Canon(v.members[key])) + x == ":" + (Canon(v.members[key]) + x);
  }

  /** Canonical texts followed by something that cannot continue a number split in one way only. */
  lemma {:induction false} CanonPrefix(a: Json, b: Json, x: string, y: string)
    requires InProfile(a) && InProfile(b) && EndsNumber(x) && EndsNumber(y)
    requires Canon(a) + x == Canon(b) + y
    ensures a == b && x == y
    decreases a, 1
  {
    CanonHead(a, x);
    CanonHead(b, y);
    assert KindOf(a) == KindOf(b);
    match a
    case JNull => StripHead("null", x, y);
    case JBool(v) => StripHead(if v then "true" else "false", x, y);
    case JNumber(n) => NumberPrefix(n, b.number, x, y);
    case JString(s) => QuotePrefix(s, b.text, x, y);
    case JArray(_) => ArrayPrefix(a, b, x, y);
    case JObject(_) => ObjectPrefix(a, b, x, y);
  }

  lemma {:induction false} ArrayPrefix(a: Json, b: Json, x: string, y: string)
    requires a.JArray? && b.JArray? && InProfile(a) && InProfile(b)
    requires Canon(a) + x == Canon(b) + y
    ensures a == b && x == y
    decreases a, 0
  {
    ContainerText(a, x);
    ContainerText(b, y);
    StripHead("[", ItemsText(a.items) + x, ItemsText(b.items) + y);
    ItemsPrefix(a.items, b.items, x, y);
  }

  lemma {:induction false} ObjectPrefix(a: Json, b: Json, x: string, y: string)
    requires a.JObject? && b.JObject? && InProfile(a) && InProfile(b)
    requires Canon(a) + x == Canon(b) + y
    ensures a == b && x == y
    decreases a, 0
  {
    var ka, kb := SortedKeys(a.members.Keys), SortedKeys(b.members.Keys);
    ContainerText(a, x);
    ContainerText(b, y);
    StripHead("{", MembersText(a, ka) + x, MembersText(b, kb) + y);
    MembersPrefix(a, b, ka, kb, x, y);
    assert forall k :: k in a.members.Keys <==> k in b.members.Keys;
    assert a.members == b.members;
  }

  lemma CanonHeadNotBracket(v: Json, x: string)
    requires InProfile(v)
    ensures var t := Canon(v) + x; t != "" && t[0] != ']'
  {
    CanonHead(v, x);
    assert KindOfHead(']') == 7 && KindOf(v) < 7;
  }

  lemma ItemsHead(items: seq<Json>, x: string)
    requires forall i :: 0 <= i < |items| ==> InProfile(items[i])
    ensures var t := ItemsText(items) + x; t != "" && (t[0] == ']' <==> items == [])
  {
    if items != [] {
      ItemsSplit(items, x);
      CanonHeadNotBracket(items[0], MoreItemsText(items[1..]) + x);
    }
  }

  lemma MoreItemsHead(items: seq<Json>, x: string)
    ensures var t := MoreItemsText(items) + x; t != "" && t[0] == (if items == [] then ']' else ',')
  {
  }

  lemma {:induction false} ItemsPrefix(a: seq<Json>, b: seq<Json>, x: string, y: string)
    requires (forall i :: 0 <= i < |a| ==> InProfile(a[i])) && forall i :: 0 <= i < |b| ==> InProfile(b[i])
    requires ItemsText(a) + x == ItemsText(b) + y
    ensures a == b && x == y
    decreases a, 1
  {
    ItemsHead(a, x);
    ItemsHead(b, y);
    if a == [] {
      StripHead("]", x, y);
    } else {
      ItemsSplit(a, x);
      ItemsSplit(b, y);
      ItemAndMore(a, b, x, y);
    }
  }

  lemma {:induction false} ItemAndMore(a: seq<Json>, b: seq<Json>, x: string, y: string)
    requires (forall i :: 0 <= i < |a| ==> InProfile(a[i])) && forall i :: 0 <= i < |b| ==> InProfile(b[i])
    requires a != [] && b != []
    requires Canon(a[0]) + (MoreItemsText(a[1..]) + x) == Canon(b[0]) + (MoreItemsText(b[1..]) + y)
    ensures a == b && x == y
    decreases a, 0
  {
    MoreItemsHead(a[1..], x);
    MoreItemsHead(b[1..], y);
    CanonPrefix(a[0], b[0], MoreItemsText(a[1..]) + x, MoreItemsText(b[1..]) + y);
    MoreItemsPrefix(a[1..], b[1..], x, y);
    assert a == [a[0]] + a[1..] && b == [b[0]] + b[1..];
  }

  lemma {:induction false} MoreItemsPrefix(a: seq<Json>, b: seq<Json>, x: string, y: string)
    requires (forall i :: 0 <= i < |a| ==> InProfile(a[i])) && forall i :: 0 <= i < |b| ==> InProfile(b[i])
    requires MoreItemsText(a) + x == MoreItemsText(b) + y
    ensures a == b && x == y
    decreases a, 1
  {
    MoreItemsHead(a, x);
    MoreItemsHead(b, y);
    if a == [] {
      StripHead("]", x, y);
    } else {
      ItemsSplit(a, x);
      ItemsSplit(b, y);
      StripHead(",", Canon(a[0]) + (MoreItemsText(a[1..]) + x), Canon(b[0]) + (MoreItemsText(b[1..]) + y));
      ItemAndMore(a, b, x, y);
    }
  }

  /** The two lists of members agree, name by name and value by value. */
  ghost predicate SameMembers(a: Json, b: Json, ka: seq<string>, kb: seq<string>)
    requires a.JObject? && b.JObject?
    requires (forall k :: k in ka ==> k in a.members) && forall k :: k in kb ==> k in b.members
  {
    ka == kb && forall k :: k in ka ==> a.members[k] == b.members[k]
  }

  lemma {:induction false} MemberPrefix(a: Json, b: Json, k: string, l: string, x: string, y: string)
    requires a.JObject? && b.JObject? && InProfile(a) && InProfile(b) && k in a.members && l in b.members
    requires EndsNumber(x) && EndsNumber(y)
    requires MemberText(a, k) + x == MemberText(b, l) + y
    ensures k == l && a.members[k] == b.members[l] && x == y
    decreases a, 0, 0
  {
    MemberSplit(a, k, x);
    MemberSplit(b, l, y);
    QuotePrefix(k, l, ":" + (Canon(a.members[k]) + x), ":" + (Canon(b.members[l]) + y));
    StripHead(":", Canon(a.members[k]) + x, Canon(b.members[l]) + y);
    CanonPrefix(a.members[k], b.members[l], x, y);
  }

  lemma MembersHead(v: Json, keys: seq<string>, x: string)
    requires v.JObject? && forall k :: k in keys ==> k in v.members
    ensures var t := MembersText(v, keys) + x; t != "" && t[0] == (if keys == [] then '}' else '"')
    ensures var t := MoreMembersText(v, keys) + x; t != "" && t[0] == (if keys == [] then '}' else ',')
  {
  }

  lemma {:induction false} MembersPrefix(a: Json, b: Json, ka: seq<string>, kb: seq<string>, x: string, y: string)
    requires a.JObject? && b.JObject? && InProfile(a) && InProfile(b)
    requires (forall k :: k in ka ==> k in a.members) && forall k :: k in kb ==> k in b.members
    requires MembersText(a, ka) + x == MembersText(b, kb) + y
    ensures SameMembers(a, b, ka, kb) && x == y
    decreases a, 0, |ka| + 1, 1
  {
    MembersHead(a, ka, x);
    MembersHead(b, kb, y);
    if ka == [] {
      StripHead("}", x, y);
    } else {
      MembersSplit(a, ka, x);
      MembersSplit(b, kb, y);
      MemberAndMore(a, b, ka, kb, x, y);
    }
  }

  lemma {:induction false} MemberAndMore(a: Json, b: Json, ka: seq<string>, kb: seq<string>, x: string, y: string)
    requires a.JObject? && b.JObject? && InProfile(a) && InProfile(b)
    requires (forall k :: k in ka ==> k in a.members) && forall k :: k in kb ==> k in b.members
    requires ka != [] && kb != []
    requires MemberText(a, ka[0]) + (MoreMembersText(a, ka[1..]) + x) == MemberText(b, kb[0]) + (MoreMembersText(b, kb[1..]) + y)
    ensures SameMembers(a, b, ka, kb) && x == y
    decreases a, 0, |ka| + 1, 0
  {
    MembersHead(a, ka[1..], x);
    MembersHead(b, kb[1..], y);
    MemberPrefix(a, b, ka[0], kb[0], MoreMembersText(a, ka[1..]) + x, MoreMembersText(b, kb[1..]) + y);
    MoreMembersPrefix(a, b, ka[1..], kb[1..], x, y);
    assert ka == [ka[0]] + ka[1..] && kb == [kb[0]] + kb[1..];
  }

  lemma {:induction false} MoreMembersPrefix(a: Json, b: Json, ka: seq<string>, kb: seq<string>, x: string, y: string)
    requires a.JObject? && b.JObject? && InProfile(a) && InProfile(b)
    requires (forall k :: k in ka ==> k in a.members) && forall k :: k in kb ==> k in b.members
    requires MoreMembersText(a, ka) + x == MoreMembersText(b, kb) + y
    ensures SameMembers(a, b, ka, kb) && x == y
    decreases a, 0, |ka| + 1, 1
  {
    MembersHead(a, ka, x);
    MembersHead(b, kb, y);
    if ka == [] {
      StripHead("}", x, y);
    } else {
      MembersSplit(a, ka, x);
      MembersSplit(b, kb, y);
      StripHead(",", MemberText(a, ka[0]) + (MoreMembersText(a, ka[1..]) + x),
        MemberText(b, kb[0]) + (MoreMembersText(b, kb[1..]) + y));
      MemberAndMore(a, b, ka, kb, x, y);
    }
  }

  /** Canonical bytes decide equality of JSON values, objects taken as unordered maps. */
  lemma CanonicalBytesUnambiguous(a: Json, b: Json)
    requires InProfile(a) && InProfile(b)
    ensures Utf8(Canon(a)) == Utf8(Canon(b)) <==> a == b
  {
    if Utf8(Canon(a)) == Utf8(Canon(b)) {
      Utf8Injective(Canon(a), Canon(b));
      assert Canon(a) + "" == Canon(b) + "";
      CanonPrefix(a, b, "", "");
    }
  }

  // ---------------------------------------------------------------- domain-separated digests

  /** The bytes hashed by a domain-separated digest: the canonical form of the pair. */
  ghost function DigestPreimage(domain: string, v: Json): seq<Byte> {
    Utf8(Canon(JArray([JString(domain), v])))
  }

  /** A digest preimage determines both the domain and the value. */
  lemma DigestPreimageInjective(domain1: string, v1: Json, domain2: string, v2: Json)
    requires InProfile(v1) && InProfile(v2)
    ensures DigestPreimage(domain1, v1) == DigestPreimage(domain2, v2) <==> domain1 == domain2 && v1 == v2
  {
    var a, b := JArray([JString(domain1), v1]), JArray([JString(domain2), v2]);
    CanonicalBytesUnambiguous(a, b);
    assert a.items[0] == JString(domain1) && a.items[1] == v1;
    assert b.items[0] == JString(domain2) && b.items[1] == v2;
  }
}
