/**
  A reader of canonical JSON: the grammar of RFC 8259 without insignificant whitespace, with
  the names of each object in the strict order that RFC 8785, section 3.2.3, asks for, and
  integers as its only numbers. It reads every canonical text back to its value.
 */
module JsonReader {
  import opened Wrappers
  import opened Sequences
  import opened Unicode
  import opened CanonicalJson

  // ---------------------------------------------------------------- UTF-8

  /** A continuation byte's six bits. */
  predicate Continues(b: int) {
    0x80 <= b <= 0xBF
  }

  function Scalar(n: nat): Option<char> {
    if n < 0xD800 || 0xE000 <= n < 0x11_0000 then Some(n as char) else None
  }

  /** The code point at the head of some UTF-8 bytes, in its shortest form, and how many bytes it takes. */
  function ReadPoint(bytes: seq<int>): (int, nat)
    requires bytes != []
  {
    var b := bytes[0];
    if b <= 0x7F then (b, 1)
    else if 0xC2 <= b <= 0xDF && |bytes| >= 2 && Continues(bytes[1]) then ((b - 0xC0) * 0x40 + (bytes[1] - 0x80), 2)
    else if 0xE0 <= b <= 0xEF && |bytes| >= 3 && Continues(bytes[1]) && Continues(bytes[2]) then
      var n := (b - 0xE0) * 0x1000 + (bytes[1] - 0x80) * 0x40 + (bytes[2] - 0x80);
      if n < 0x800 then (-1, 0) else (n, 3)
    else if 0xF0 <= b <= 0xF4 && |bytes| >= 4 && Continues(bytes[1]) && Continues(bytes[2]) && Continues(bytes[3]) then
      var n := (b - 0xF0) * 0x4_0000 + (bytes[1] - 0x80) * 0x1000 + (bytes[2] - 0x80) * 0x40 + (bytes[3] - 0x80);
      if n < 0x1_0000 then (-1, 0) else (n, 4)
    else (-1, 0)
  }

  function ReadChar(bytes: seq<Byte>): (r: Option<(char, nat)>)
    ensures r.Some? ==> 0 < r.value.1 <= |bytes|
  {
    if bytes == [] then None
    else
      var (n, taken) := ReadPoint(bytes);
      if taken == 0 || n < 0 || Scalar(n).None? then None else Some((Scalar(n).value, taken))
  }

  function ReadUtf8(bytes: seq<Byte>): Option<string> {
    if bytes == [] then Some("")
    else
      var head := ReadChar(bytes);
      if head.None? then None
      else
        var rest := ReadUtf8(bytes[head.value.1..]);
        if rest.None? then None else Some([head.value.0] + rest.value)
  }

  lemma CharReadsBack(c: char, x: seq<Byte>)
    ensures ReadChar(Utf8Char(c) + x) == Some((c, |Utf8Char(c)|))
  {
    var n, bytes := c as int, Utf8Char(c) + x;
    assert forall i :: 0 <= i < |Utf8Char(c)| ==> bytes[i] == Utf8Char(c)[i];
    if n >= 0x1_0000 {
      assert n / 64 / 64 == n / 4096 && n / 4096 / 64 == n / 262144;
    } else if n >= 0x800 {
      assert n / 64 / 64 == n / 4096;
    }
  }

  lemma {:induction false} Utf8ReadsBack(s: string)
    ensures ReadUtf8(Utf8(s)) == Some(s)
  {
    if s != "" {
      var rest := Utf8(s[1..]);
      assert Utf8(s) == Utf8Char(s[0]) + rest;
      CharReadsBack(s[0], rest);
      assert (Utf8Char(s[0]) + rest)[|Utf8Char(s[0])|..] == rest;
      Utf8ReadsBack(s[1..]);
      assert s == [s[0]] + s[1..];
    }
  }

  // ---------------------------------------------------------------- strings

  function Nibble(c: char): Option<nat> {
    if '0' <= c <= '9' then Some(c as int - 48)
    else if 'A' <= c <= 'F' then Some(c as int - 55)
    else if 'a' <= c <= 'f' then Some(c as int - 87)
    else None
  }

  /** The code unit that four hexadecimal digits spell, unless it is half of a surrogate pair. */
  function ReadHex(t: string): Option<char> {
    if |t| < 4 || exists i :: 0 <= i < 4 && Nibble(t[i]).None? then None
    else Scalar(4096 * Nibble(t[0]).value + 256 * Nibble(t[1]).value + 16 * Nibble(t[2]).value + Nibble(t[3]).value)
  }

  /** One character of a string's content, and how many characters spell it. */
  function ReadContent(t: string): (r: Option<(char, nat)>)
    ensures r.Some? ==> 0 < r.value.1 <= |t|
  {
    if t == "" || t[0] == '"' || t[0] < ' ' then None
    else if t[0] != '\\' then Some((t[0], 1))
    else if |t| < 2 then None
    else
      match t[1]
      case '"' => Some(('"', 2))
      case '\\' => Some(('\\', 2))
      case '/' => Some(('/', 2))
      case 'b' => Some((8 as char, 2))
      case 'f' => Some((12 as char, 2))
      case 'n' => Some((10 as char, 2))
      case 'r' => Some((13 as char, 2))
      case 't' => Some((9 as char, 2))
      case 'u' => if |t| < 6 || ReadHex(t[2..6]).None? then None else Some((ReadHex(t[2..6]).value, 6))
      case _ => None
  }

  /** The content up to the closing quote, and what follows that. */
  function ReadText(t: string): (r: Option<(string, string)>)
    ensures r.Some? ==> |r.value.1| < |t|
    decreases |t|
  {
    if t != "" && t[0] == '"' then Some(("", t[1..]))
    else
      var head := ReadContent(t);
      if head.None? then None
      else
        var rest := ReadText(t[head.value.1..]);
        if rest.None? then None else Some(([head.value.0] + rest.value.0, rest.value.1))
  }

  lemma ContentReadsBack(c: char, x: string)
    ensures ReadContent(EscapeChar(c) + x) == Some((c, |EscapeChar(c)|)) && EscapeChar(c)[0] != '"'
  {
    var t := EscapeChar(c) + x;
    assert forall i :: 0 <= i < |EscapeChar(c)| ==> t[i] == EscapeChar(c)[i];
    if |EscapeChar(c)| == 6 {
      ControlReadsBack(c);
      assert t[2..6] == EscapeChar(c)[2..6];
    }
  }

  lemma ControlReadsBack(c: char)
    requires |EscapeChar(c)| == 6
    ensures ReadHex(EscapeChar(c)[2..6]) == Some(c)
  {
    var t := EscapeChar(c)[2..6];
    assert t[0] == '0' && t[1] == '0' && t[2] == HexDigit(c as int / 16) && t[3] == HexDigit(c as int % 16);
    NibbleReadsBack(c as int / 16);
    NibbleReadsBack(c as int % 16);
  }

  lemma NibbleReadsBack(d: nat)
    requires d < 16
    ensures Nibble(HexDigit(d)) == Some(d)
  {
  }

  lemma {:induction false} TextReadsBack(s: string, x: string)
    ensures ReadText(EscapeText(s) + ("\"" + x)) == Some((s, x))
  {
    var rest := "\"" + x;
    if s == "" {
      assert EscapeText(s) + rest == rest;
      assert rest[1..] == x;
    } else {
      var tail := EscapeText(s[1..]) + rest;
      assert EscapeText(s) + rest == EscapeChar(s[0]) + tail;
      ContentReadsBack(s[0], tail);
      assert (EscapeChar(s[0]) + tail)[|EscapeChar(s[0])|..] == tail;
      TextReadsBack(s[1..], x);
      assert s == [s[0]] + s[1..];
    }
  }

  // ---------------------------------------------------------------- numbers

  predicate Digit(c: char) {
    '0' <= c <= '9'
  }

  /** What no number can go on with. */
  predicate CannotExtend(x: string) {
    x == "" || !(Digit(x[0]) || x[0] == '.' || x[0] == 'e' || x[0] == 'E')
  }

  /** The leading digits. */
  function Digits(t: string): (r: string)
    ensures r <= t
  {
    if t == "" || !Digit(t[0]) then "" else [t[0]] + Digits(t[1..])
  }

  function Value(digits: string): int {
    if digits == "" then 0 else 10 * Value(digits[..|digits| - 1]) + (digits[|digits| - 1] as int - 48)
  }

  /** `0` or digits without a leading zero, and no fraction or exponent. */
  function ReadNatural(t: string): (r: Option<(nat, string)>)
    ensures r.Some? ==> |r.value.1| < |t|
  {
    var digits := Digits(t);
    if digits == "" || (digits[0] == '0' && digits != "0") || !CannotExtend(t[|digits|..]) || Value(digits) < 0 then None
    else Some((Value(digits), t[|digits|..]))
  }

  function ReadNumber(t: string): (r: Option<(Number, string)>)
    ensures r.Some? ==> |r.value.1| < |t|
  {
    if t != "" && t[0] == '-' then
      var n := ReadNatural(t[1..]);
      if n.None? || n.value.0 == 0 then None else Some((NegInt(n.value.0), n.value.1))
    else
      var n := ReadNatural(t);
      if n.None? then None else Some((PosInt(n.value.0), n.value.1))
  }

  lemma {:induction false} DigitsEnd(a: string, x: string)
    requires CannotExtend(x) && forall i :: 0 <= i < |a| ==> Digit(a[i])
    ensures Digits(a + x) == a
  {
    if a == "" {
      assert a + x == x;
    } else {
      DigitsEnd(a[1..], x);
      assert (a + x)[1..] == a[1..] + x;
      assert a == [a[0]] + a[1..];
    }
  }

  lemma {:induction false} DecimalSpells(n: nat)
    ensures Value(Decimal(n)) == n && Decimal(n) != ""
    ensures forall i :: 0 <= i < |Decimal(n)| ==> Digit(Decimal(n)[i])
    ensures Decimal(n)[0] == '0' <==> n == 0
    ensures n == 0 ==> Decimal(n) == "0"
  {
    if n >= 10 {
      DecimalSpells(n / 10);
      assert Decimal(n)[..|Decimal(n)| - 1] == Decimal(n / 10);
      assert Decimal(n)[0] == Decimal(n / 10)[0];
    } else {
      assert Decimal(n)[..0] == "";
    }
  }

  lemma NaturalReadsBack(n: nat, x: string)
    requires CannotExtend(x)
    ensures ReadNatural(Decimal(n) + x) == Some((n, x))
  {
    DecimalSpells(n);
    DigitsEnd(Decimal(n), x);
    assert (Decimal(n) + x)[|Decimal(n)|..] == x;
  }

  lemma NumberReadsBack(n: Number, x: string)
    requires SafeNumber(n) && n.WellFormed() && CannotExtend(x)
    ensures ReadNumber(NumberText(n) + x) == Some((n, x))
    ensures var t := NumberText(n) + x; t != "" && (t[0] == '-' || Digit(t[0]))
  {
    match n
    case PosInt(k) =>
      NaturalReadsBack(k, x);
      DecimalSpells(k);
      assert (Decimal(k) + x)[0] == Decimal(k)[0];
    case NegInt(m) =>
      NaturalReadsBack(m, x);
      assert (("-" + Decimal(m)) + x)[1..] == Decimal(m) + x;
  }

  // ---------------------------------------------------------------- values

  /** `a` is a proper prefix of `b`, or smaller where the two first differ. */
  ghost predicate FirstSmaller(a: seq<nat>, b: seq<nat>) {
    exists k: nat :: k <= |a| && k < |b| && a[..k] == b[..k] && (k == |a| || a[k] < b[k])
  }

  /** The strict order of names: by their UTF-16 code units. */
  ghost predicate Precedes(a: string, b: string) {
    FirstSmaller(Utf16(a), Utf16(b))
  }

  ghost function ReadValue(t: string): (r: Option<(Json, string)>)
    ensures r.Some? ==> |r.value.1| < |t|
    decreases |t|, 1
  {
    if t == "" then None
    else if t[0] == 'n' then
      if |t| >= 4 && t[..4] == ['n', 'u', 'l', 'l'] then Some((JNull, t[4..])) else None
    else if t[0] == 't' then
      if |t| >= 4 && t[..4] == ['t', 'r', 'u', 'e'] then Some((JBool(true), t[4..])) else None
    else if t[0] == 'f' then
      if |t| >= 5 && t[..5] == ['f', 'a', 'l', 's', 'e'] then Some((JBool(false), t[5..])) else None
    else if t[0] == '"' then
      var s := ReadText(t[1..]);
      if s.None? then None else Some((JString(s.value.0), s.value.1))
    else if t[0] == '[' then
      if |t| > 1 && t[1] == ']' then Some((JArray([]), t[2..]))
      else
        var items := ReadItems(t[1..]);
        if items.None? then None else Some((JArray(items.value.0), items.value.1))
    else if t[0] == '{' then
      if |t| > 1 && t[1] == '}' then Some((JObject(map[]), t[2..]))
      else
        var members := ReadMembers(t[1..], None);
        if members.None? then None else Some((JObject(members.value.0), members.value.1))
    else
      var n := ReadNumber(t);
      if n.None? then None else Some((JNumber(n.value.0), n.value.1))
  }

  /** One value or more, separated by commas, up to the closing bracket. */
  ghost function ReadItems(t: string): (r: Option<(seq<Json>, string)>)
    ensures r.Some? ==> |r.value.1| < |t|
    decreases |t|, 2
  {
    var head := ReadValue(t);
    if head.None? || head.value.1 == "" then None
    else
      var (v, rest) := head.value;
      if rest[0] == ']' then Some(([v], rest[1..]))
      else if rest[0] != ',' then None
      else
        var more := ReadItems(rest[1..]);
        if more.None? then None else Some(([v] + more.value.0, more.value.1))
  }

  /** One member or more up to the closing brace, each name after the one before. */
  ghost function ReadMembers(t: string, previous: Option<string>): (r: Option<(map<string, Json>, string)>)
    ensures r.Some? ==> |r.value.1| < |t|
    decreases |t|, 2
  {
    var name := if t != "" && t[0] == '"' then ReadText(t[1..]) else None;
    if name.None? || (previous.Some? && !Precedes(previous.value, name.value.0)) then None
    else
      var (key, afterKey) := name.value;
      if afterKey == "" || afterKey[0] != ':' then None
      else
        var value := ReadValue(afterKey[1..]);
        if value.None? || value.value.1 == "" then None
        else
          var (v, rest) := value.value;
          if rest[0] == '}' then Some((map[key := v], rest[1..]))
          else if rest[0] != ',' then None
          else
            var more := ReadMembers(rest[1..], Some(key));
            if more.None? then None else Some((more.value.0[key := v], more.value.1))
  }

  /** The value that the whole of some UTF-8 bytes spell. */
  ghost function ReadJson(bytes: seq<Byte>): Option<Json> {
    var text := ReadUtf8(bytes);
    if text.None? then None
    else
      var r := ReadValue(text.value);
      if r.Some? && r.value.1 == "" then Some(r.value.0) else None
  }

  // ---------------------------------------------------------------- names in order

  lemma {:induction false} SmallerIsFirst(a: seq<nat>, b: seq<nat>)
    requires LexLeq(a, b) && a != b
    ensures FirstSmaller(a, b)
  {
    assert a != [] ==> a == [a[0]] + a[1..];
    assert b != [] ==> b == [b[0]] + b[1..];
    if a == [] || a[0] != b[0] {
      assert a[..0] == b[..0];
    } else {
      SmallerIsFirst(a[1..], b[1..]);
      var k: nat :| k <= |a[1..]| && k < |b[1..]| && a[1..][..k] == b[1..][..k] && (k == |a[1..]| || a[1..][k] < b[1..][k]);
      assert a[..k + 1] == [a[0]] + a[1..][..k] && b[..k + 1] == [b[0]] + b[1..][..k];
    }
  }

  lemma SmallerNamePrecedes(a: string, b: string)
    requires KeyLeq(a, b) && a != b
    ensures Precedes(a, b)
  {
    if Utf16(a) == Utf16(b) {
      Utf16Injective(a, b);
    }
    SmallerIsFirst(Utf16(a), Utf16(b));
  }

  /** Each name comes before the next. */
  ghost predicate Ascending(keys: seq<string>) {
    forall i :: 0 <= i < |keys| - 1 ==> Precedes(keys[i], keys[i + 1])
  }

  /** The sorted names are ascending, and none comes twice. */
  lemma {:induction false} SortedNamesAscend(keys: set<string>)
    ensures Ascending(SortedKeys(keys))
    ensures forall i, j :: 0 <= i < j < |SortedKeys(keys)| ==> SortedKeys(keys)[i] != SortedKeys(keys)[j]
    decreases |keys|
  {
    hide Precedes;
    if keys != {} {
      var sorted := SortedKeys(keys);
      var rest := keys - {sorted[0]};
      assert sorted == [sorted[0]] + SortedKeys(rest);
      SortedNamesAscend(rest);
      if rest != {} {
        var next := SortedKeys(rest)[0];
        assert next in rest;
        SmallerNamePrecedes(sorted[0], next);
      }
      forall i | 0 <= i < |sorted| - 1
        ensures Precedes(sorted[i], sorted[i + 1])
      {
        if i > 0 {
          assert sorted[i] == SortedKeys(rest)[i - 1] && sorted[i + 1] == SortedKeys(rest)[i];
        }
      }
    }
  }

  // ---------------------------------------------------------------- reading back

  /** What `Canon` writes first is none of the closing brackets. */
  lemma HeadIsNoBracket(v: Json, x: string)
    requires InProfile(v)
    ensures var t := Canon(v) + x; t != "" && t[0] != ']' && t[0] != '}' && t[0] != ','
  {
    CanonHead(v, x);
  }

  /** A canonical text, with anything after it that cannot extend a number, reads back as its value. */
  lemma {:induction false} ReadsBack(v: Json, x: string)
    requires WellFormed(v) && InProfile(v) && CannotExtend(x)
    ensures ReadValue(Canon(v) + x) == Some((v, x))
    decreases v, 1
  {
    hide ReadItems, ReadMembers, ReadText, ReadNumber;
    var t := Canon(v) + x;
    match v
    case JNull =>
      assert t[..4] == ['n', 'u', 'l', 'l'] && t[4..] == x;
    case JBool(b) =>
      if b {
        assert t[..4] == ['t', 'r', 'u', 'e'] && t[4..] == x;
      } else {
        assert t[..5] == ['f', 'a', 'l', 's', 'e'] && t[5..] == x;
      }
    case JNumber(n) => NumberReadsBack(n, x);
    case JString(s) =>
      assert t == "\"" + (EscapeText(s) + ("\"" + x));
      assert t[1..] == EscapeText(s) + ("\"" + x);
      TextReadsBack(s, x);
    case JArray(items) => ArrayReadsBack(v, x);
    case JObject(_) => ObjectReadsBack(v, x);
  }

  lemma {:induction false} ArrayReadsBack(v: Json, x: string)
    requires v.JArray? && WellFormed(v) && InProfile(v)
    ensures ReadValue(Canon(v) + x) == Some((v, x))
    decreases v, 0
  {
    var t := Canon(v) + x;
    ContainerText(v, x);
    assert t == "[" + (ItemsText(v.items) + x);
    assert t[1..] == ItemsText(v.items) + x;
    if v.items == [] {
      assert t[1..] == "]" + x;
      assert t[1] == ']' && t[2..] == x;
    } else {
      ItemsSplit(v.items, x);
      HeadIsNoBracket(v.items[0], MoreItemsText(v.items[1..]) + x);
      assert t[1] == t[1..][0];
      ItemsReadBack(v.items, x);
    }
  }

  /** Reading one item. */
  lemma ItemRead(t: string, v: Json, rest: string)
    requires ReadValue(t) == Some((v, rest)) && rest != ""
    ensures rest[0] == ']' ==> ReadItems(t) == Some(([v], rest[1..]))
    ensures rest[0] == ',' && ReadItems(rest[1..]).Some? ==>
      var more := ReadItems(rest[1..]).value;
      ReadItems(t) == Some(([v] + more.0, more.1))
  {
    hide ReadValue;
  }

  lemma {:induction false} ItemsReadBack(items: seq<Json>, x: string)
    requires items != [] && forall i :: 0 <= i < |items| ==> WellFormed(items[i]) && InProfile(items[i])
    ensures ReadItems(ItemsText(items) + x) == Some((items, x))
    decreases items, 0
  {
    hide ReadItems, ReadValue, ItemsText, MoreItemsText, Canon, WellFormed, InProfile;
    var rest := MoreItemsText(items[1..]) + x;
    ItemsSplit(items, x);
    MoreItemsHead(items[1..], x);
    ReadsBack(items[0], rest);
    ItemRead(ItemsText(items) + x, items[0], rest);
    assert items == [items[0]] + items[1..];
    if items[1..] == [] {
      NoMoreItems(x);
      assert items == [items[0]];
    } else {
      ItemsSplit(items[1..], x);
      assert rest[1..] == ItemsText(items[1..]) + x;
      ItemsReadBack(items[1..], x);
    }
  }

  lemma NoMoreItems(x: string)
    ensures (MoreItemsText([]) + x)[1..] == x
  {
  }

  lemma NoNamesNoMembers(v: Json)
    requires v.JObject? && SortedKeys(v.members.Keys) == []
    ensures v.members == map[]
  {
    assert forall k :: k in v.members.Keys <==> k in SortedKeys(v.members.Keys);
  }

  lemma AllChosen(v: Json)
    requires v.JObject?
    ensures Chosen(v, SortedKeys(v.members.Keys)) == v.members
  {
  }

  lemma {:induction false} ObjectReadsBack(v: Json, x: string)
    requires v.JObject? && WellFormed(v) && InProfile(v)
    ensures ReadValue(Canon(v) + x) == Some((v, x))
    decreases v, 0
  {
    hide Canon, MembersText, SortedKeys, Chosen, WellFormed, InProfile, ReadMembers, Precedes, Ascending;
    var t, keys := Canon(v) + x, SortedKeys(v.members.Keys);
    ContainerText(v, x);
    assert t[1..] == MembersText(v, keys) + x;
    MembersHead(v, keys, x);
    assert t[1] == t[1..][0];
    if keys == [] {
      NoNamesNoMembers(v);
      EmptyMembers(v);
      assert t[1..] == "}" + x;
      assert t[2..] == x;
    } else {
      SortedNamesAscend(v.members.Keys);
      MembersReadBack(v, keys, None, x);
      AllChosen(v);
    }
  }

  lemma EmptyMembers(v: Json)
    requires v.JObject?
    ensures MembersText(v, []) == "}"
  {
  }

  /** The members with the given names. */
  ghost function Chosen(v: Json, keys: seq<string>): map<string, Json>
    requires v.JObject? && forall k :: k in keys ==> k in v.members
  {
    map k | k in keys :: v.members[k]
  }

  /** Reading one member. */
  lemma MemberRead(t: string, previous: Option<string>, key: string, value: string, v: Json, rest: string)
    requires t != "" && t[0] == '"' && ReadText(t[1..]) == Some((key, ":" + value))
    requires previous.Some? ==> Precedes(previous.value, key)
    requires ReadValue(value) == Some((v, rest)) && rest != ""
    ensures rest[0] == '}' ==> ReadMembers(t, previous) == Some((map[key := v], rest[1..]))
    ensures rest[0] == ',' && ReadMembers(rest[1..], Some(key)).Some? ==>
      var more := ReadMembers(rest[1..], Some(key)).value;
      ReadMembers(t, previous) == Some((more.0[key := v], more.1))
  {
    hide Precedes, ReadValue;
    assert (":" + value)[1..] == value;
  }

  lemma AscendingRest(keys: seq<string>)
    requires Ascending(keys) && |keys| > 1
    ensures Ascending(keys[1..]) && Precedes(keys[0], keys[1..][0])
  {
    hide Precedes;
    forall i | 0 <= i < |keys[1..]| - 1
      ensures Precedes(keys[1..][i], keys[1..][i + 1])
    {
      assert keys[1..][i] == keys[i + 1] && keys[1..][i + 1] == keys[i + 2];
    }
  }

  lemma ChosenOne(v: Json, keys: seq<string>)
    requires v.JObject? && keys != [] && forall k :: k in keys ==> k in v.members
    ensures Chosen(v, keys) == Chosen(v, keys[1..])[keys[0] := v.members[keys[0]]]
    ensures |keys| == 1 ==> Chosen(v, keys) == map[keys[0] := v.members[keys[0]]]
  {
    assert keys == [keys[0]] + keys[1..];
  }

  lemma {:induction false} MembersReadBack(v: Json, keys: seq<string>, previous: Option<string>, x: string)
    requires v.JObject? && WellFormed(v) && InProfile(v) && keys != [] && forall k :: k in keys ==> k in v.members
    requires Ascending(keys) && (previous.Some? ==> Precedes(previous.value, keys[0]))
    ensures ReadMembers(MembersText(v, keys) + x, previous) == Some((Chosen(v, keys), x))
    decreases v, 0, |keys|
  {
    hide Precedes, ReadMembers, ReadValue, ReadText, MembersText, MoreMembersText, MemberText, Canon, Chosen, Ascending;
    var key, more := keys[0], MoreMembersText(v, keys[1..]) + x;
    var value, t := Canon(v.members[key]) + more, MembersText(v, keys) + x;
    MembersSplit(v, keys, x);
    MemberSplit(v, key, more);
    assert t == "\"" + (EscapeText(key) + ("\"" + (":" + value)));
    assert t[1..] == EscapeText(key) + ("\"" + (":" + value));
    TextReadsBack(key, ":" + value);
    MembersHead(v, keys[1..], x);
    ReadsBack(v.members[key], more);
    MemberRead(t, previous, key, value, v.members[key], more);
    ChosenOne(v, keys);
    if keys[1..] == [] {
      EmptyMore(v, x);
    } else {
      MembersSplit(v, keys[1..], x);
      assert more[1..] == MembersText(v, keys[1..]) + x;
      AscendingRest(keys);
      MembersReadBack(v, keys[1..], Some(key), x);
    }
  }

  lemma EmptyMore(v: Json, x: string)
    requires v.JObject?
    ensures (MoreMembersText(v, []) + x)[1..] == x
  {
  }

  /** The canonical bytes of a value are the JSON text of that value. */
  lemma BytesReadBack(v: Json)
    requires WellFormed(v) && InProfile(v)
    ensures ReadJson(Utf8(Canon(v))) == Some(v)
  {
    Utf8ReadsBack(Canon(v));
    ReadsBack(v, "");
    assert Canon(v) + "" == Canon(v);
  }
}
