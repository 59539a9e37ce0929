/**
  The Python twin of the canonical encoder: one recursive function that counts nodes as
  it goes, escapes by table and sorts names by their UTF-16-BE bytes. It agrees with the
  Rust limits check on what is accepted and with the Rust encoder on the text.
 */
module PythonEncoder {
  import opened Wrappers
  import opened Sequences
  import opened Unicode
  import opened CanonicalJson
  import opened JsonReader
  import opened CanonicalEncoder

  datatype PyResult = Text(text: string) | ValueError

  // ---------------------------------------------------------------- json.dumps of a string

  const BACKSPACE: char := 8 as char
  const FORM_FEED: char := 12 as char

  /** The named entries of the escape dictionary. */
  const NAMED_ESCAPES: map<char, string> :=
    map['\\' := "\\\\", '"' := "\\\"", BACKSPACE := "\\b", FORM_FEED := "\\f",
        '\n' := "\\n", '\r' := "\\r", '\t' := "\\t"]

  /** `'{0:04x}'.format(n)` */
  function FourHexDigits(n: nat): string
    requires n < 0x1_0000
  {
    [HexDigit(n / 4096), HexDigit(n / 256 % 16), HexDigit(n / 16 % 16), HexDigit(n % 16)]
  }

  function PythonEscape(c: char): string {
    if c in NAMED_ESCAPES then NAMED_ESCAPES[c]
    else if c as int < 0x20 then "\\u" + FourHexDigits(c as int)
    else [c]
  }

  lemma EscapesAgree(c: char)
    ensures PythonEscape(c) == EscapeChar(c)
  {
    if c !in NAMED_ESCAPES && c as int < 0x20 {
      assert c as int != 8 && c as int != 9 && c as int != 10 && c as int != 12 && c as int != 13;
      assert FourHexDigits(c as int) == "00" + [HexDigit(c as int / 16), HexDigit(c as int % 16)];
    }
  }

  method Dumps(s: string) returns (text: string)
    ensures text == Quote(s)
  {
    text := "\"";
    for k := 0 to |s|
      invariant text == "\"" + Flatten(EscapeChar, s[..k])
    {
      EscapesAgree(s[k]);
      FlattenStep(EscapeChar, s, k);
      text := text + PythonEscape(s[k]);
    }
    assert s[..|s|] == s;
    text := text + "\"";
  }

  // ---------------------------------------------------------------- the encoder

  /** Visited at `depth` with `nodes` counted before, the value stays within every limit. */
  ghost predicate Fits(v: Json, depth: nat, nodes: nat) {
    WithinDepth(v, depth) && InProfile(v) && nodes + NodeCount(v) <= MAX_NODES
  }

  ghost predicate ItemsFitFrom(items: seq<Json>, depth: nat, nodes: nat) {
    ItemsFit(items, |items|, depth) && nodes + SeqCount(items) <= MAX_NODES
  }

  ghost predicate MembersFitFrom(v: Json, keys: set<string>, depth: nat, nodes: nat)
    requires v.JObject? && keys <= v.members.Keys
  {
    MembersFit(v, keys, depth) && nodes + MemberCount(v, keys) <= MAX_NODES
  }

  lemma ItemsFitStep(items: seq<Json>, depth: nat, nodes: nat)
    requires items != []
    ensures ItemsFitFrom(items, depth, nodes)
       <==> Fits(items[0], depth, nodes) && ItemsFitFrom(items[1..], depth, nodes + NodeCount(items[0]))
  {
    if Fits(items[0], depth, nodes) && ItemsFitFrom(items[1..], depth, nodes + NodeCount(items[0])) {
      forall i | 0 <= i < |items|
        ensures WithinDepth(items[i], depth) && InProfile(items[i])
      {
        if i > 0 {
          assert items[i] == items[1..][i - 1];
        }
      }
    }
  }

  lemma MembersFitStep(v: Json, keys: set<string>, k: string, depth: nat, nodes: nat)
    requires v.JObject? && keys <= v.members.Keys && k in keys
    ensures MembersFitFrom(v, keys, depth, nodes)
       <==> Fits(v.members[k], depth, nodes) && MembersFitFrom(v, keys - {k}, depth, nodes + NodeCount(v.members[k]))
    ensures MemberCount(v, keys) == NodeCount(v.members[k]) + MemberCount(v, keys - {k})
  {
    MemberCountTakes(v, keys, k);
  }

  class Encoder {
    var nodes: nat

    constructor ()
      ensures nodes == 0
    {
      nodes := 0;
    }

    /** Succeeds exactly within the limits, and then returns the canonical text. */
    method Encode(v: Json, depth: nat) returns (r: PyResult)
      modifies this
      ensures r.Text? <==> Fits(v, depth, old(nodes))
      ensures r.Text? ==> r.text == Canon(v) && nodes == old(nodes) + NodeCount(v)
      ensures r.Text? && WellFormed(v) ==> ReadValue(r.text) == Some((v, ""))
      decreases v, 1
    {
      hide ReadValue;
      if WellFormed(v) {
        TextIsRead(v);
      }
      NodeCountPositive(v);
      nodes := nodes + 1;
      if depth > MAX_DEPTH || nodes > MAX_NODES {
        return ValueError;
      }
      match v
      case JNull => return Text("null");
      case JBool(b) => return Text(if b then "true" else "false");
      case JNumber(PosInt(n)) =>
        return if n > MAX_SAFE_WIRE_INTEGER then ValueError else Text(Decimal(n));
      case JNumber(NegInt(m)) =>
        return if m > MAX_SAFE_WIRE_INTEGER then ValueError else Text("-" + Decimal(m));
      case JNumber(Float(_)) => return ValueError;
      case JString(s) =>
        var text := Dumps(s);
        return Text(text);
      case JArray(_) => r := EncodeItems(v, depth);
      case JObject(_) => r := EncodeMembers(v, depth);
    }

    method EncodeItems(v: Json, depth: nat) returns (r: PyResult)
      requires v.JArray? && depth <= MAX_DEPTH && 0 < nodes <= MAX_NODES
      modifies this
      ensures r.Text? <==> Fits(v, depth, old(nodes) - 1)
      ensures r.Text? ==> r.text == Canon(v) && nodes == old(nodes) - 1 + NodeCount(v)
      decreases v, 0
    {
      var items := v.items;
      var text := "[";
      var k := 0;
      ItemsTodoStart(v, depth, nodes);
      while k < |items|
        invariant 0 <= k <= |items| && nodes <= MAX_NODES
        invariant ItemsTodo(v, k, depth, old(nodes), nodes, text)
      {
        ItemsTodoStep(v, k, depth, old(nodes), nodes, text);
        if k > 0 {
          text := text + ",";
        }
        r := Encode(items[k], depth + 1);
        if r.ValueError? {
          return;
        }
        text := text + r.text;
        k := k + 1;
      }
      ItemsTodoEnd(v, depth, old(nodes), nodes, text);
      return Text(text + "]");
    }

    method EncodeMember(v: Json, key: string, depth: nat) returns (r: PyResult)
      requires v.JObject? && key in v.members
      modifies this
      ensures r.Text? <==> Fits(v.members[key], depth, old(nodes))
      ensures r.Text? ==> r.text == MemberText(v, key) && nodes == old(nodes) + NodeCount(v.members[key])
      decreases v, 0, 0
    {
      var name := Dumps(key);
      r := Encode(v.members[key], depth);
      if r.Text? {
        r := Text(name + (":" + r.text));
      }
    }

    method EncodeMembers(v: Json, depth: nat) returns (r: PyResult)
      requires v.JObject? && depth <= MAX_DEPTH && 0 < nodes <= MAX_NODES
      modifies this
      ensures r.Text? <==> Fits(v, depth, old(nodes) - 1)
      ensures r.Text? ==> r.text == Canon(v) && nodes == old(nodes) - 1 + NodeCount(v)
      decreases v, 0
    {
      var keys := SortKeys(BigEndianBytes, v.members.Keys);
      ghost var rest := v.members.Keys;
      var text := "{";
      MembersTodoStart(v, keys, depth, nodes);
      var k := 0;
      while k < |keys|
        invariant 0 <= k <= |keys| && nodes <= MAX_NODES
        invariant MembersTodo(v, keys, k, rest, depth, old(nodes), nodes, text)
      {
        MembersTodoStep(v, keys, k, rest, depth, old(nodes), nodes, text);
        if k > 0 {
          text := text + ",";
        }
        r := EncodeMember(v, keys[k], depth + 1);
        if r.ValueError? {
          return;
        }
        text := text + r.text;
        rest := rest - {keys[k]};
        k := k + 1;
      }
      MembersTodoEnd(v, keys, rest, depth, old(nodes), nodes, text);
      return Text(text + "}");
    }
  }

  /**
    The items from `k` on are still to do: the limits are kept exactly when they are kept on
    those, and the text so far lacks exactly theirs.
   */
  ghost predicate ItemsTodo(v: Json, k: nat, depth: nat, start: nat, nodes: nat, text: string) {
    && v.JArray? && k <= |v.items| && start > 0
    && nodes + SeqCount(v.items[k..]) == start + SeqCount(v.items)
    && (Fits(v, depth, start - 1) <==> ItemsFitFrom(v.items[k..], depth + 1, nodes))
    && LeftToWrite(text, ItemsLeft(v.items, k), Canon(v))
  }

  lemma ItemsTodoStart(v: Json, depth: nat, start: nat)
    requires v.JArray? && depth <= MAX_DEPTH && start > 0
    ensures ItemsTodo(v, 0, depth, start, start, "[")
  {
    assert v.items[0..] == v.items;
  }

  lemma ItemsLimitStep(v: Json, k: nat, depth: nat, start: nat, nodes: nat)
    requires v.JArray? && k < |v.items| && start > 0
    requires nodes + SeqCount(v.items[k..]) == start + SeqCount(v.items)
    requires Fits(v, depth, start - 1) <==> ItemsFitFrom(v.items[k..], depth + 1, nodes)
    ensures Fits(v, depth, start - 1) ==> Fits(v.items[k], depth + 1, nodes)
    ensures Fits(v.items[k], depth + 1, nodes) ==>
              && nodes + NodeCount(v.items[k]) + SeqCount(v.items[k + 1..]) == start + SeqCount(v.items)
              && (Fits(v, depth, start - 1) <==> ItemsFitFrom(v.items[k + 1..], depth + 1, nodes + NodeCount(v.items[k])))
  {
    ItemsFitStep(v.items[k..], depth + 1, nodes);
    assert v.items[k..][0] == v.items[k] && v.items[k..][1..] == v.items[k + 1..];
  }

  lemma ItemsTextStep(v: Json, k: nat, text: string)
    requires v.JArray? && k < |v.items|
    requires LeftToWrite(text, ItemsLeft(v.items, k), Canon(v))
    ensures LeftToWrite((if k > 0 then text + "," else text) + Canon(v.items[k]), ItemsLeft(v.items, k + 1), Canon(v))
  {
    ItemsLeftStep(v.items, k);
    ElementWritten(text, k == 0, Canon(v.items[k]), ItemsLeft(v.items, k), ItemsLeft(v.items, k + 1), Canon(v));
  }

  lemma ItemsTodoStep(v: Json, k: nat, depth: nat, start: nat, nodes: nat, text: string)
    requires ItemsTodo(v, k, depth, start, nodes, text) && k < |v.items|
    ensures Fits(v, depth, start - 1) ==> Fits(v.items[k], depth + 1, nodes)
    ensures Fits(v.items[k], depth + 1, nodes) ==>
              ItemsTodo(v, k + 1, depth, start, nodes + NodeCount(v.items[k]),
                (if k > 0 then text + "," else text) + Canon(v.items[k]))
  {
    ItemsLimitStep(v, k, depth, start, nodes);
    ItemsTextStep(v, k, text);
  }

  lemma ItemsTodoEnd(v: Json, depth: nat, start: nat, nodes: nat, text: string)
    requires v.JArray? && ItemsTodo(v, |v.items|, depth, start, nodes, text) && nodes <= MAX_NODES
    ensures Fits(v, depth, start - 1) && nodes == start - 1 + NodeCount(v)
    ensures text + "]" == Canon(v)
  {
    assert v.items[|v.items|..] == [];
    ItemsLeftEnd(v.items);
  }

  /** The names from `k` on are still to do, and the limits are kept exactly when they are kept on those. */
  ghost predicate CountTodo(
    v: Json, keys: seq<string>, k: nat, rest: set<string>, depth: nat, start: nat, nodes: nat)
  {
    && v.JObject? && k <= |keys| && rest <= v.members.Keys && start > 0
    && keys[k..] == SortedKeys(rest)
    && nodes + MemberCount(v, rest) == start + MemberCount(v, v.members.Keys)
    && (Fits(v, depth, start - 1) <==> MembersFitFrom(v, rest, depth + 1, nodes))
  }

  /** In addition, the text so far lacks exactly the members to come. */
  ghost predicate MembersTodo(
    v: Json, keys: seq<string>, k: nat, rest: set<string>, depth: nat, start: nat, nodes: nat, text: string)
  {
    && CountTodo(v, keys, k, rest, depth, start, nodes)
    && (forall key :: key in keys ==> key in v.members)
    && LeftToWrite(text, MembersLeft(v, keys, k), Canon(v))
  }

  lemma CountTodoStep(v: Json, keys: seq<string>, k: nat, rest: set<string>, depth: nat, start: nat, nodes: nat)
    requires CountTodo(v, keys, k, rest, depth, start, nodes) && k < |keys|
    ensures keys[k] in v.members
    ensures Fits(v, depth, start - 1) ==> Fits(v.members[keys[k]], depth + 1, nodes)
    ensures Fits(v.members[keys[k]], depth + 1, nodes) ==>
              CountTodo(v, keys, k + 1, rest - {keys[k]}, depth, start, nodes + NodeCount(v.members[keys[k]]))
  {
    SortedKeysHead(rest, keys, k);
    MembersFitStep(v, rest, keys[k], depth + 1, nodes);
  }

  lemma TextTodoStep(v: Json, keys: seq<string>, k: nat, text: string)
    requires v.JObject? && k < |keys| && forall key :: key in keys ==> key in v.members
    requires LeftToWrite(text, MembersLeft(v, keys, k), Canon(v))
    ensures LeftToWrite((if k > 0 then text + "," else text) + MemberText(v, keys[k]), MembersLeft(v, keys, k + 1), Canon(v))
  {
    MembersLeftStep(v, keys, k);
    ElementWritten(text, k == 0, MemberText(v, keys[k]), MembersLeft(v, keys, k), MembersLeft(v, keys, k + 1), Canon(v));
  }

  lemma MembersTodoStart(v: Json, keys: seq<string>, depth: nat, start: nat)
    requires v.JObject? && depth <= MAX_DEPTH && start > 0 && keys == SortedKeys(v.members.Keys)
    ensures MembersTodo(v, keys, 0, v.members.Keys, depth, start, start, "{")
  {
    assert keys[0..] == keys;
  }

  lemma MembersTodoStep(
    v: Json, keys: seq<string>, k: nat, rest: set<string>, depth: nat, start: nat, nodes: nat, text: string)
    requires MembersTodo(v, keys, k, rest, depth, start, nodes, text) && k < |keys|
    ensures keys[k] in v.members
    ensures Fits(v, depth, start - 1) ==> Fits(v.members[keys[k]], depth + 1, nodes)
    ensures Fits(v.members[keys[k]], depth + 1, nodes) ==>
              MembersTodo(v, keys, k + 1, rest - {keys[k]}, depth, start, nodes + NodeCount(v.members[keys[k]]),
                (if k > 0 then text + "," else text) + MemberText(v, keys[k]))
  {
    CountTodoStep(v, keys, k, rest, depth, start, nodes);
    TextTodoStep(v, keys, k, text);
  }

  lemma MembersTodoEnd(
    v: Json, keys: seq<string>, rest: set<string>, depth: nat, start: nat, nodes: nat, text: string)
    requires MembersTodo(v, keys, |keys|, rest, depth, start, nodes, text) && nodes <= MAX_NODES
    ensures Fits(v, depth, start - 1) && nodes == start - 1 + NodeCount(v)
    ensures text + "}" == Canon(v)
  {
    SortedKeysEmpty(rest);
    MembersLeftEnd(v, keys);
  }

  /** `rest` is what is still to be written of `goal`. */
  ghost predicate LeftToWrite(text: string, rest: string, goal: string) {
    text + rest == goal
  }

  lemma Append(text: string, head: string, rest: string, goal: string)
    requires LeftToWrite(text, head + rest, goal)
    ensures LeftToWrite(text + head, rest, goal)
  {
    assert text + (head + rest) == (text + head) + rest;
  }

  /** One element of a list: a separator unless it is the first, then its own text. */
  lemma ElementWritten(text: string, first: bool, head: string, left: string, rest: string, goal: string)
    requires left == if first then head + rest else "," + (head + rest)
    requires LeftToWrite(text, left, goal)
    ensures LeftToWrite((if first then text else text + ",") + head, rest, goal)
  {
    if !first {
      Append(text, ",", head + rest, goal);
    }
    Append(if first then text else text + ",", head, rest, goal);
  }

  lemma SortedKeysHead(rest: set<string>, keys: seq<string>, k: nat)
    requires k < |keys| && keys[k..] == SortedKeys(rest)
    ensures keys[k] in rest && keys[k + 1..] == SortedKeys(rest - {keys[k]})
    ensures keys[k..][0] == keys[k] && keys[k..][1..] == keys[k + 1..]
  {
    assert keys[k..][0] == keys[k] && keys[k..][1..] == keys[k + 1..];
    assert rest != {};
  }

  lemma SortedKeysEmpty(rest: set<string>)
    requires SortedKeys(rest) == []
    ensures rest == {}
  {
  }

  lemma TextIsRead(v: Json)
    requires WellFormed(v)
    ensures InProfile(v) ==> ReadValue(Canon(v)) == Some((v, ""))
  {
    if InProfile(v) {
      ReadsBack(v, "");
      assert Canon(v) + "" == Canon(v);
    }
  }

  /** `canonical_json_v1`: a fresh counter, depth one. */
  method CanonicalJsonText(v: Json) returns (r: PyResult)
    ensures r.Text? <==> WithinLimits(v)
    ensures r.Text? ==> r.text == Canon(v)
    ensures r.Text? && WellFormed(v) ==> ReadValue(r.text) == Some((v, ""))
  {
    hide ReadValue;
    var encoder := new Encoder();
    r := encoder.Encode(v, 1);
  }

  /** Both languages accept the same values, and on those they write the same bytes. */
  method EncodersAgree(v: Json) returns (python: PyResult, limits: Outcome, rust: Outcome, bytes: seq<Byte>)
    requires WellFormed(v)
    ensures python.Text? <==> limits.Pass?
    ensures python.Text? ==> rust.Pass? && bytes == Utf8(python.text) && ReadJson(bytes) == Some(v)
  {
    python := CanonicalJsonText(v);
    limits := ValidateJsonLimits(v);
    rust, bytes := CanonicalJsonBytes(v);
  }
}
