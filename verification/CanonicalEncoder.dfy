/**
  The Rust canonical encoder, which appends UTF-8 bytes to an output buffer, and the
  loop that checks the resource limits. Both are proved against module CanonicalJson.
 */
module CanonicalEncoder {
  import opened Wrappers
  import opened Sequences
  import opened Unicode
  import opened CanonicalJson
  import opened JsonReader

  datatype EncodingError = NonIntegralNumber | UnsafeInteger | InvalidCandidate

  datatype Outcome = Pass | Fail(error: EncodingError)

  class ByteBuffer {
    var bytes: seq<Byte>

    constructor ()
      ensures bytes == []
    {
      bytes := [];
    }

    method Append(more: seq<Byte>)
      modifies this
      ensures bytes == old(bytes) + more
    {
      bytes := bytes + more;
    }
  }

  /** `as_i64`, then `as_u64`, then refuse. */
  method ValidateCanonicalNumber(n: Number) returns (r: Outcome)
    requires n.WellFormed()
    ensures r.Pass? <==> SafeNumber(n)
    ensures r == Fail(NonIntegralNumber) <==> n.Float?
  {
    match n
    case PosInt(k) =>
      return if k > MAX_SAFE_WIRE_INTEGER then Fail(UnsafeInteger) else Pass;
    case NegInt(m) =>
      return if m > MAX_SAFE_WIRE_INTEGER then Fail(UnsafeInteger) else Pass;
    case Float(_) =>
      return Fail(NonIntegralNumber);
  }

  // ---------------------------------------------------------------- strings, byte by byte

  /** The escape table of the JSON writer, indexed by byte. */
  function EscapeByte(b: Byte): seq<Byte> {
    if b == 0x22 then [0x5C, 0x22]
    else if b == 0x5C then [0x5C, 0x5C]
    else if b == 0x08 then [0x5C, 0x62]
    else if b == 0x09 then [0x5C, 0x74]
    else if b == 0x0A then [0x5C, 0x6E]
    else if b == 0x0C then [0x5C, 0x66]
    else if b == 0x0D then [0x5C, 0x72]
    else if b < 0x20 then [0x5C, 0x75, 0x30, 0x30, HexByte(b / 16), HexByte(b % 16)]
    else [b]
  }

  function HexByte(d: nat): Byte
    requires d < 16
  {
    if d < 10 then 0x30 + d else 0x61 + d - 10
  }

  function EscapeBytes(bytes: seq<Byte>): seq<Byte> {
    Flatten(EscapeByte, bytes)
  }

  lemma Utf8Ascii(c: char)
    requires c as int < 0x80
    ensures Utf8([c]) == [c as int]
  {
    FlattenOne(Utf8Char, c);
  }

  lemma Utf8Pair(c: char, d: char)
    requires c as int < 0x80 && d as int < 0x80
    ensures Utf8([c, d]) == [c as int, d as int]
  {
    assert [c, d] == [c] + [d];
    Utf8Concat([c], [d]);
    Utf8Ascii(c);
    Utf8Ascii(d);
  }

  lemma ControlEscape(c: char)
    requires c as int < 0x20
    ensures var text := "\\u00" + [HexDigit(c as int / 16), HexDigit(c as int % 16)];
            Utf8(text) == [0x5C, 0x75, 0x30, 0x30, HexByte(c as int / 16), HexByte(c as int % 16)]
  {
    var hi, lo := HexDigit(c as int / 16), HexDigit(c as int % 16);
    assert "\\u00" + [hi, lo] == ['\\', 'u'] + (['0', '0'] + [hi, lo]);
    Utf8Concat(['\\', 'u'], ['0', '0'] + [hi, lo]);
    Utf8Concat(['0', '0'], [hi, lo]);
    Utf8Pair('\\', 'u');
    Utf8Pair('0', '0');
    Utf8Pair(hi, lo);
  }

  lemma AsciiEscape(c: char)
    requires c as int < 0x80
    ensures EscapeByte(c as int) == Utf8(EscapeChar(c))
  {
    if c as int < 0x20 && |EscapeChar(c)| > 2 {
      ControlEscape(c);
    } else if |EscapeChar(c)| == 2 {
      Utf8Pair('\\', EscapeChar(c)[1]);
      assert EscapeChar(c) == ['\\', EscapeChar(c)[1]];
    } else {
      Utf8Ascii(c);
    }
  }

  /** Escaping the bytes of a character gives the bytes of its escape. */
  lemma EscapeByteMatches(c: char)
    ensures EscapeBytes(Utf8Char(c)) == Utf8(EscapeChar(c))
  {
    if c as int < 0x80 {
      var b: Byte := c as int;
      FlattenOne(EscapeByte, b);
      AsciiEscape(c);
    } else {
      HighBytesKept(Utf8Char(c));
      assert EscapeChar(c) == [c];
      FlattenOne(Utf8Char, c);
    }
  }

  lemma {:induction false} HighBytesKept(bytes: seq<Byte>)
    requires forall i :: 0 <= i < |bytes| ==> bytes[i] >= 0x80
    ensures EscapeBytes(bytes) == bytes
  {
    if bytes != [] {
      HighBytesKept(bytes[1..]);
    }
  }

  lemma {:induction false} EscapeBytesMatch(s: string)
    ensures EscapeBytes(Utf8(s)) == Utf8(EscapeText(s))
  {
    if s != "" {
      EscapeByteMatches(s[0]);
      EscapeBytesMatch(s[1..]);
      FlattenConcat(EscapeByte, Utf8Char(s[0]), Utf8(s[1..]));
      Utf8Concat(EscapeChar(s[0]), EscapeText(s[1..]));
    }
  }

  lemma QuoteBytes(s: string)
    ensures Utf8(Quote(s)) == [0x22] + EscapeBytes(Utf8(s)) + [0x22]
  {
    EscapeBytesMatch(s);
    Utf8Concat("\"", EscapeText(s) + "\"");
    Utf8Concat(EscapeText(s), "\"");
    Utf8Ascii('"');
    assert Quote(s) == "\"" + (EscapeText(s) + "\"");
  }

  /** Writes every byte through the escape table. */
  method WriteThroughTable(table: Byte -> seq<Byte>, bytes: seq<Byte>, output: ByteBuffer)
    modifies output
    ensures output.bytes == old(output.bytes) + Flatten(table, bytes)
  {
    for k := 0 to |bytes|
      invariant output.bytes == old(output.bytes) + Flatten(table, bytes[..k])
    {
      FlattenStep(table, bytes, k);
      output.Append(table(bytes[k]));
    }
    assert bytes[..|bytes|] == bytes;
  }

  method WriteString(s: string, output: ByteBuffer)
    modifies output
    ensures output.bytes == old(output.bytes) + Utf8(Quote(s))
  {
    QuoteBytes(s);
    output.Append([0x22]);
    WriteThroughTable(EscapeByte, Utf8(s), output);
    output.Append([0x22]);
  }

  // ---------------------------------------------------------------- sorting

  /** Which comparison sorts: the code units (Rust) or their big-endian bytes (Python). */
  datatype SortOrder = CodeUnits | BigEndianBytes {
    predicate Leq(a: string, b: string) {
      if CodeUnits? then KeyLeq(a, b) else PythonKeyLeq(a, b)
    }
  }

  lemma SortOrdersAgree(order: SortOrder, a: string, b: string)
    ensures order.Leq(a, b) <==> KeyLeq(a, b)
  {
    KeyOrdersAgree(a, b);
  }

  method LeastKey(order: SortOrder, keys: set<string>) returns (least: string)
    requires keys != {}
    ensures least in keys && forall k :: k in keys ==> KeyLeq(least, k)
  {
    least :| least in keys;
    var others := keys - {least};
    KeyTotal(least, least);
    while others != {}
      invariant least in keys && others <= keys
      invariant forall k :: k in keys - others ==> KeyLeq(least, k)
      decreases others
    {
      var k :| k in others;
      others := others - {k};
      KeyTotal(least, k);
      KeyTotal(k, k);
      SortOrdersAgree(order, least, k);
      if !order.Leq(least, k) {
        forall j | j in keys - others && j != k
          ensures KeyLeq(k, j)
        {
          KeyTransitive(k, least, j);
        }
        least := k;
      }
    }
  }

  /** Sorting the names under either comparison gives the one sorted listing. */
  method SortKeys(order: SortOrder, keys: set<string>) returns (sorted: seq<string>)
    ensures sorted == SortedKeys(keys)
  {
    sorted := [];
    var rest := keys;
    while rest != {}
      invariant sorted + SortedKeys(rest) == SortedKeys(keys)
      decreases rest
    {
      var least := LeastKey(order, rest);
      SortedKeysStep(rest, least);
      sorted := sorted + [least];
      rest := rest - {least};
    }
  }

  // ---------------------------------------------------------------- values

  /** The bytes of `rest` are what is still to be written. */
  ghost predicate Pending(before: seq<Byte>, rest: string, goal: seq<Byte>) {
    before + Utf8(rest) == goal
  }

  /** Appending `head` where `head + rest` was still to come leaves `rest` to come. */
  lemma Appended(before: seq<Byte>, head: string, rest: string, goal: seq<Byte>)
    requires Pending(before, head + rest, goal)
    ensures Pending(before + Utf8(head), rest, goal)
  {
    Utf8Concat(head, rest);
    assert before + (Utf8(head) + Utf8(rest)) == before + Utf8(head) + Utf8(rest);
  }

  /** One element of a list: a separator unless it is the first, then its own text. */
  lemma ElementAppended(before: seq<Byte>, first: bool, head: string, left: string, rest: string, goal: seq<Byte>)
    requires left == if first then head + rest else "," + (head + rest)
    requires Pending(before, left, goal)
    ensures Pending((if first then before else before + Utf8(",")) + Utf8(head), rest, goal)
  {
    if !first {
      Appended(before, ",", head + rest, goal);
    }
    Appended(if first then before else before + Utf8(","), head, rest, goal);
  }

  /** What was appended is read as `v`. */
  ghost predicate Wrote(before: seq<Byte>, after: seq<Byte>, v: Json) {
    before <= after && ReadJson(after[|before|..]) == Some(v)
  }

  lemma CanonicalIsRead(before: seq<Byte>, v: Json)
    requires WellFormed(v)
    ensures InProfile(v) ==> Wrote(before, before + Utf8(Canon(v)), v)
  {
    assert (before + Utf8(Canon(v)))[|before|..] == Utf8(Canon(v));
    if InProfile(v) {
      BytesReadBack(v);
    }
  }

  /**
    The canonical encoder: succeeds exactly on the constrained profile, and then appends
    exactly the UTF-8 bytes of the canonical text, which a reader reads back.
   */
  method WriteCanonicalValue(v: Json, output: ByteBuffer) returns (r: Outcome)
    requires WellFormed(v)
    modifies output
    ensures r.Pass? <==> InProfile(v)
    ensures r.Pass? ==> output.bytes == old(output.bytes) + Utf8(Canon(v))
    ensures r.Pass? ==> Wrote(old(output.bytes), output.bytes, v)
    decreases v, 2
  {
    hide ReadJson;
    CanonicalIsRead(output.bytes, v);
    match v
    case JNull =>
      output.Append(Utf8("null"));
      return Pass;
    case JBool(b) =>
      output.Append(Utf8(if b then "true" else "false"));
      return Pass;
    case JNumber(n) =>
      r := ValidateCanonicalNumber(n);
      if r.Pass? {
        output.Append(Utf8(NumberText(n)));
      }
    case JString(s) =>
      WriteString(s, output);
      return Pass;
    case JArray(items) =>
      r := WriteItems(v, output);
    case JObject(members) =>
      r := WriteMembers(v, output);
  }

  method WriteItems(v: Json, output: ByteBuffer) returns (r: Outcome)
    requires v.JArray? && WellFormed(v)
    modifies output
    ensures r.Pass? <==> InProfile(v)
    ensures r.Pass? ==> output.bytes == old(output.bytes) + Utf8(Canon(v))
    decreases v, 1
  {
    hide Utf8, Canon, ItemsLeft;
    var items := v.items;
    ghost var goal := output.bytes + Utf8(Canon(v));
    ItemsLeftStart(v);
    Appended(output.bytes, "[", ItemsLeft(items, 0), goal);
    output.Append(Utf8("["));
    var k := 0;
    while k < |items|
      invariant 0 <= k <= |items|
      invariant forall i :: 0 <= i < k ==> InProfile(items[i])
      invariant Pending(output.bytes, ItemsLeft(items, k), goal)
    {
      ItemsLeftStep(items, k);
      ElementAppended(output.bytes, k == 0, Canon(items[k]), ItemsLeft(items, k), ItemsLeft(items, k + 1), goal);
      if k > 0 {
        output.Append(Utf8(","));
      }
      r := WriteCanonicalValue(items[k], output);
      if r.Fail? {
        return;
      }
      k := k + 1;
    }
    ItemsLeftEnd(items);
    output.Append(Utf8("]"));
    r := Pass;
  }

  method WriteMembers(v: Json, output: ByteBuffer) returns (r: Outcome)
    requires v.JObject? && WellFormed(v)
    modifies output
    ensures r.Pass? <==> InProfile(v)
    ensures r.Pass? ==> output.bytes == old(output.bytes) + Utf8(Canon(v))
    decreases v, 1
  {
    hide Utf8, Canon, MembersLeft, MemberText, SortedKeys;
    var keys := SortKeys(CodeUnits, v.members.Keys);
    ghost var goal := output.bytes + Utf8(Canon(v));
    MembersLeftStart(v, keys);
    Appended(output.bytes, "{", MembersLeft(v, keys, 0), goal);
    output.Append(Utf8("{"));
    var k := 0;
    while k < |keys|
      invariant 0 <= k <= |keys|
      invariant forall i :: 0 <= i < k ==> InProfile(v.members[keys[i]])
      invariant Pending(output.bytes, MembersLeft(v, keys, k), goal)
    {
      MembersLeftStep(v, keys, k);
      ElementAppended(output.bytes, k == 0, MemberText(v, keys[k]), MembersLeft(v, keys, k), MembersLeft(v, keys, k + 1), goal);
      if k > 0 {
        output.Append(Utf8(","));
      }
      r := WriteMember(v, keys[k], output);
      if r.Fail? {
        return;
      }
      k := k + 1;
    }
    MembersLeftEnd(v, keys);
    output.Append(Utf8("}"));
    r := Pass;
  }

  method WriteMember(v: Json, key: string, output: ByteBuffer) returns (r: Outcome)
    requires v.JObject? && WellFormed(v) && key in v.members
    modifies output
    ensures r.Pass? <==> InProfile(v.members[key])
    ensures r.Pass? ==> output.bytes == old(output.bytes) + Utf8(MemberText(v, key))
    decreases v, 0
  {
    ghost var goal := output.bytes + Utf8(MemberText(v, key));
    Appended(output.bytes, Quote(key), ":" + Canon(v.members[key]), goal);
    WriteString(key, output);
    Appended(output.bytes, ":", Canon(v.members[key]), goal);
    output.Append(Utf8(":"));
    r := WriteCanonicalValue(v.members[key], output);
  }

  /** The public entry: the bytes, or the reason there are none. */
  method CanonicalJsonBytes(v: Json) returns (r: Outcome, bytes: seq<Byte>)
    requires WellFormed(v)
    ensures r.Pass? <==> InProfile(v)
    ensures r.Pass? ==> bytes == Utf8(Canon(v)) && ReadJson(bytes) == Some(v)
  {
    var output := new ByteBuffer();
    r := WriteCanonicalValue(v, output);
    bytes := output.bytes;
  }

  // ---------------------------------------------------------------- limits

  datatype Entry = Entry(value: Json, depth: nat)

  ghost function StackCount(stack: seq<Entry>): nat {
    if stack == [] then 0 else StackCount(stack[..|stack| - 1]) + NodeCount(stack[|stack| - 1].value)
  }

  ghost predicate StackFits(stack: seq<Entry>) {
    forall i :: 0 <= i < |stack| ==> WithinDepth(stack[i].value, stack[i].depth) && InProfile(stack[i].value)
  }

  lemma StackPush(stack: seq<Entry>, e: Entry)
    ensures StackCount(stack + [e]) == StackCount(stack) + NodeCount(e.value)
    ensures StackFits(stack + [e]) <==> StackFits(stack) && WithinDepth(e.value, e.depth) && InProfile(e.value)
  {
    var longer := stack + [e];
    assert longer[..|longer| - 1] == stack;
    assert forall i :: 0 <= i < |stack| ==> longer[i] == stack[i];
    assert longer[|stack|] == e;
    if StackFits(longer) {
      forall i | 0 <= i < |stack|
        ensures WithinDepth(stack[i].value, stack[i].depth) && InProfile(stack[i].value)
      {
        assert longer[i] == stack[i];
      }
    }
  }

  ghost predicate StackWellFormed(stack: seq<Entry>) {
    forall i :: 0 <= i < |stack| ==> WellFormed(stack[i].value)
  }

  /** The children of the first `k` items fit at `depth`. */
  ghost predicate ItemsFit(items: seq<Json>, k: nat, depth: nat)
    requires k <= |items|
  {
    forall i :: 0 <= i < k ==> WithinDepth(items[i], depth) && InProfile(items[i])
  }

  ghost predicate MembersFit(v: Json, keys: set<string>, depth: nat)
    requires v.JObject? && keys <= v.members.Keys
  {
    forall k :: k in keys ==> WithinDepth(v.members[k], depth) && InProfile(v.members[k])
  }

  method PushItems(stack0: seq<Entry>, items: seq<Json>, depth: nat) returns (stack: seq<Entry>)
    requires StackWellFormed(stack0) && forall i :: 0 <= i < |items| ==> WellFormed(items[i])
    ensures StackWellFormed(stack)
    ensures StackCount(stack) == StackCount(stack0) + SeqCount(items)
    ensures StackFits(stack) <==> (StackFits(stack0) && ItemsFit(items, |items|, depth))
  {
    stack := stack0;
    for k := 0 to |items|
      invariant StackWellFormed(stack)
      invariant StackCount(stack) == StackCount(stack0) + SeqCount(items[..k])
      invariant StackFits(stack) <==> (StackFits(stack0) && ItemsFit(items, k, depth))
    {
      StackPush(stack, Entry(items[k], depth));
      assert items[..k + 1] == items[..k] + [items[k]];
      SeqCountConcat(items[..k], [items[k]]);
      assert [items[k]][1..] == [];
      stack := stack + [Entry(items[k], depth)];
    }
    assert items[..|items|] == items;
  }

  method PushMembers(stack0: seq<Entry>, v: Json, depth: nat) returns (stack: seq<Entry>)
    requires v.JObject? && StackWellFormed(stack0) && WellFormed(v)
    ensures StackWellFormed(stack)
    ensures StackCount(stack) == StackCount(stack0) + MemberCount(v, v.members.Keys)
    ensures StackFits(stack) <==> (StackFits(stack0) && MembersFit(v, v.members.Keys, depth))
  {
    stack := stack0;
    var rest := v.members.Keys;
    while rest != {}
      invariant rest <= v.members.Keys
      invariant StackWellFormed(stack)
      invariant StackCount(stack) + MemberCount(v, rest) == StackCount(stack0) + MemberCount(v, v.members.Keys)
      invariant StackFits(stack) <==> (StackFits(stack0) && MembersFit(v, v.members.Keys - rest, depth))
      decreases rest
    {
      var key :| key in rest;
      StackPush(stack, Entry(v.members[key], depth));
      MemberCountTakes(v, rest, key);
      stack := stack + [Entry(v.members[key], depth)];
      rest := rest - {key};
    }
    assert v.members.Keys - {} == v.members.Keys;
  }

  /** Replaces the popped value by its children, or refuses its number. */
  method Expand(rest: seq<Entry>, top: Entry) returns (r: Outcome, stack: seq<Entry>)
    requires StackWellFormed(rest) && WellFormed(top.value) && top.depth <= MAX_DEPTH
    ensures StackWellFormed(stack)
    ensures r.Fail? ==> !InProfile(top.value)
    ensures r.Pass? ==> StackCount(stack) + 1 == StackCount(rest) + NodeCount(top.value)
    ensures r.Pass? ==>
              (StackFits(stack) <==> (StackFits(rest) && WithinDepth(top.value, top.depth) && InProfile(top.value)))
  {
    r, stack := Pass, rest;
    match top.value
    case JArray(items) =>
      stack := PushItems(rest, items, top.depth + 1);
    case JObject(_) =>
      stack := PushMembers(rest, top.value, top.depth + 1);
    case JNumber(n) =>
      r := ValidateCanonicalNumber(n);
    case _ =>
  }

  /** What the loop keeps: the value is within the limits exactly when what is left to do is. */
  ghost predicate LimitsState(v: Json, nodes: nat, stack: seq<Entry>) {
    && StackWellFormed(stack)
    && (WithinLimits(v) <==> (nodes + StackCount(stack) <= MAX_NODES && StackFits(stack)))
  }

  lemma NodeCountPositive(v: Json)
    ensures NodeCount(v) >= 1
  {
  }

  /** The stack loop accepts exactly the values within the depth, node and integer limits. */
  method ValidateJsonLimits(v: Json) returns (r: Outcome)
    requires WellFormed(v)
    ensures r.Pass? <==> WithinLimits(v)
  {
    var stack := [Entry(v, 1)];
    StackPush([], Entry(v, 1));
    assert stack == [] + [Entry(v, 1)];
    var nodes := 0;
    while stack != []
      invariant nodes <= MAX_NODES
      invariant LimitsState(v, nodes, stack)
      decreases StackCount(stack)
    {
      var top, rest := stack[|stack| - 1], stack[..|stack| - 1];
      assert stack == rest + [top];
      StackPush(rest, top);
      NodeCountPositive(top.value);
      nodes := nodes + 1;
      if top.depth > MAX_DEPTH || nodes > MAX_NODES {
        return Fail(InvalidCandidate);
      }
      r, stack := Expand(rest, top);
      if r.Fail? {
        return;
      }
    }
    return Pass;
  }
}
