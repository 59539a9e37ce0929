/**
  UTF-8 and UTF-16 of well-formed strings (a `char` is a Unicode scalar value), and the
  lexicographic order on code units that both canonical encoders sort by.
 */
module Unicode {
  import opened Sequences

  type Byte = n: nat | n < 256

  type Unit = n: nat | n < 0x1_0000

  // ---------------------------------------------------------------- UTF-8

  function Utf8Char(c: char): seq<Byte> {
    var n := c as int;
    if n < 0x80 then [n]
    else if n < 0x800 then [0xC0 + n / 64, 0x80 + n % 64]
    else if n < 0x1_0000 then [0xE0 + n / 4096, 0x80 + n / 64 % 64, 0x80 + n % 64]
    else [0xF0 + n / 262144, 0x80 + n / 4096 % 64, 0x80 + n / 64 % 64, 0x80 + n % 64]
  }

  function Utf8(s: string): seq<Byte> {
    Flatten(Utf8Char, s)
  }

  lemma Utf8Concat(s: string, t: string)
    ensures Utf8(s + t) == Utf8(s) + Utf8(t)
  {
    FlattenConcat(Utf8Char, s, t);
  }

  function Utf8Length(first: Byte): nat {
    if first < 0x80 then 1 else if first < 0xE0 then 2 else if first < 0xF0 then 3 else 4
  }

  function Utf8Decode(bytes: seq<int>): int {
    if |bytes| == 1 then bytes[0]
    else if |bytes| == 2 then (bytes[0] - 0xC0) * 64 + (bytes[1] - 0x80)
    else if |bytes| == 3 then (bytes[0] - 0xE0) * 4096 + (bytes[1] - 0x80) * 64 + (bytes[2] - 0x80)
    else if |bytes| == 4 then
      (bytes[0] - 0xF0) * 262144 + (bytes[1] - 0x80) * 4096 + (bytes[2] - 0x80) * 64 + (bytes[3] - 0x80)
    else 0
  }

  /** The number of bytes is read off the first byte, and the bytes give back the code point. */
  lemma Utf8CharDecodes(c: char)
    ensures |Utf8Char(c)| == Utf8Length(Utf8Char(c)[0])
    ensures Utf8Decode(Utf8Char(c)) == c as int
  {
    var n := c as int;
    if n >= 0x1_0000 {
      assert n / 64 / 64 == n / 4096 && n / 4096 / 64 == n / 262144;
    } else if n >= 0x800 {
      assert n / 64 / 64 == n / 4096;
    }
  }

  lemma Utf8CharPrefix(c: char, d: char, x: seq<Byte>, y: seq<Byte>)
    requires Utf8Char(c) + x == Utf8Char(d) + y
    ensures c == d && x == y
  {
    Utf8CharDecodes(c);
    Utf8CharDecodes(d);
    assert (Utf8Char(c) + x)[0] == Utf8Char(c)[0] && (Utf8Char(d) + y)[0] == Utf8Char(d)[0];
    SplitEqual(Utf8Char(c), x, Utf8Char(d), y);
    assert c as int == d as int;
  }

  lemma {:induction false} Utf8Injective(s: string, t: string)
    requires Utf8(s) == Utf8(t)
    ensures s == t
  {
    if s == "" || t == "" {
    } else {
      Utf8CharPrefix(s[0], t[0], Utf8(s[1..]), Utf8(t[1..]));
      Utf8Injective(s[1..], t[1..]);
      assert s == [s[0]] + s[1..] && t == [t[0]] + t[1..];
    }
  }

  // ---------------------------------------------------------------- UTF-16

  function Utf16Char(c: char): seq<Unit> {
    var n := c as int;
    if n < 0x1_0000 then [n]
    else [0xD800 + (n - 0x1_0000) / 1024, 0xDC00 + (n - 0x1_0000) % 1024]
  }

  function Utf16(s: string): seq<Unit> {
    Flatten(Utf16Char, s)
  }

  function Utf16Decode(units: seq<int>): int {
    if |units| == 2 then 0x1_0000 + (units[0] - 0xD800) * 1024 + (units[1] - 0xDC00)
    else if |units| == 1 then units[0]
    else 0
  }

  /** A high surrogate announces the second unit; the units give back the code point. */
  lemma Utf16CharDecodes(c: char)
    ensures |Utf16Char(c)| == if 0xD800 <= Utf16Char(c)[0] < 0xDC00 then 2 else 1
    ensures Utf16Decode(Utf16Char(c)) == c as int
  {
  }

  lemma Utf16CharPrefix(c: char, d: char, x: seq<Unit>, y: seq<Unit>)
    requires Utf16Char(c) + x == Utf16Char(d) + y
    ensures c == d && x == y
  {
    Utf16CharDecodes(c);
    Utf16CharDecodes(d);
    assert (Utf16Char(c) + x)[0] == Utf16Char(c)[0] && (Utf16Char(d) + y)[0] == Utf16Char(d)[0];
    SplitEqual(Utf16Char(c), x, Utf16Char(d), y);
    assert c as int == d as int;
  }

  lemma {:induction false} Utf16Injective(s: string, t: string)
    requires Utf16(s) == Utf16(t)
    ensures s == t
  {
    if s == "" || t == "" {
    } else {
      Utf16CharPrefix(s[0], t[0], Utf16(s[1..]), Utf16(t[1..]));
      Utf16Injective(s[1..], t[1..]);
      assert s == [s[0]] + s[1..] && t == [t[0]] + t[1..];
    }
  }

  /** The big-endian bytes of a sequence of code units. */
  function BigEndian(units: seq<Unit>): seq<Byte> {
    if units == [] then [] else [units[0] / 256, units[0] % 256] + BigEndian(units[1..])
  }

  // ---------------------------------------------------------------- lexicographic order

  predicate LexLeq(a: seq<nat>, b: seq<nat>) {
    a == [] || (b != [] && (a[0] < b[0] || (a[0] == b[0] && LexLeq(a[1..], b[1..]))))
  }

  lemma {:induction false} LexTotal(a: seq<nat>, b: seq<nat>)
    ensures LexLeq(a, b) || LexLeq(b, a)
  {
    if a != [] && b != [] {
      LexTotal(a[1..], b[1..]);
    }
  }

  lemma {:induction false} LexAntisymmetric(a: seq<nat>, b: seq<nat>)
    requires LexLeq(a, b) && LexLeq(b, a)
    ensures a == b
  {
    if a != [] && b != [] {
      LexAntisymmetric(a[1..], b[1..]);
      assert a == [a[0]] + a[1..] && b == [b[0]] + b[1..];
    }
  }

  lemma {:induction false} LexTransitive(a: seq<nat>, b: seq<nat>, c: seq<nat>)
    requires LexLeq(a, b) && LexLeq(b, c)
    ensures LexLeq(a, c)
  {
    if a != [] && b != [] && c != [] && a[0] == b[0] == c[0] {
      LexTransitive(a[1..], b[1..], c[1..]);
    }
  }

  /** Comparing the UTF-16-BE bytes and comparing the UTF-16 code units is the same. */
  lemma {:induction false} BigEndianKeepsOrder(a: seq<Unit>, b: seq<Unit>)
    ensures LexLeq(BigEndian(a), BigEndian(b)) <==> LexLeq(a, b)
  {
    if a == [] || b == [] {
    } else {
      BigEndianKeepsOrder(a[1..], b[1..]);
      var x, y := BigEndian(a), BigEndian(b);
      assert x[1..] == [a[0] % 256] + BigEndian(a[1..]) && y[1..] == [b[0] % 256] + BigEndian(b[1..]);
      assert x[1..][1..] == BigEndian(a[1..]) && y[1..][1..] == BigEndian(b[1..]);
      assert LexLeq(x, y) <==> a[0] / 256 < b[0] / 256 || (a[0] / 256 == b[0] / 256 && LexLeq(x[1..], y[1..]));
      assert LexLeq(x[1..], y[1..]) <==>
        a[0] % 256 < b[0] % 256 || (a[0] % 256 == b[0] % 256 && LexLeq(BigEndian(a[1..]), BigEndian(b[1..])));
    }
  }

  // ---------------------------------------------------------------- property names

  /** Property names in the order of RFC 8785, section 3.2.3: by their UTF-16 code units. */
  predicate KeyLeq(a: string, b: string) {
    LexLeq(Utf16(a), Utf16(b))
  }

  /** The Python encoder's sort key order: by UTF-16-BE bytes. */
  predicate PythonKeyLeq(a: string, b: string) {
    LexLeq(BigEndian(Utf16(a)), BigEndian(Utf16(b)))
  }

  lemma KeyOrdersAgree(a: string, b: string)
    ensures PythonKeyLeq(a, b) <==> KeyLeq(a, b)
  {
    BigEndianKeepsOrder(Utf16(a), Utf16(b));
  }

  lemma KeyTotal(a: string, b: string)
    ensures KeyLeq(a, b) || KeyLeq(b, a)
    ensures KeyLeq(a, b) && KeyLeq(b, a) ==> a == b
  {
    LexTotal(Utf16(a), Utf16(b));
    if KeyLeq(a, b) && KeyLeq(b, a) {
      LexAntisymmetric(Utf16(a), Utf16(b));
      Utf16Injective(a, b);
    }
  }

  lemma KeyTransitive(a: string, b: string, c: string)
    requires KeyLeq(a, b) && KeyLeq(b, c)
    ensures KeyLeq(a, c)
  {
    LexTransitive(Utf16(a), Utf16(b), Utf16(c));
  }

  /** Every non-empty finite set of names has a least one. */
  lemma {:induction false} LeastKeyExists(keys: set<string>) returns (least: string)
    requires keys != {}
    ensures least in keys && forall k :: k in keys ==> KeyLeq(least, k)
    decreases |keys|
  {
    var first :| first in keys;
    if keys == {first} {
      KeyTotal(first, first);
      least := first;
    } else {
      assert keys == {first} + (keys - {first});
      var other := LeastKeyExists(keys - {first});
      KeyTotal(first, other);
      if KeyLeq(first, other) {
        least := first;
        forall k | k in keys
          ensures KeyLeq(first, k)
        {
          KeyTotal(first, first);
          if k != first {
            KeyTransitive(first, other, k);
          }
        }
      } else {
        least := other;
      }
    }
  }

  lemma HasLeastKey(keys: set<string>)
    requires keys != {}
    ensures exists least :: least in keys && forall k :: k in keys ==> KeyLeq(least, k)
  {
    var least := LeastKeyExists(keys);
  }

  /** The names of a set, in order. */
  ghost function SortedKeys(keys: set<string>): (sorted: seq<string>)
    ensures forall k :: k in sorted <==> k in keys
    decreases |keys|
  {
    if keys == {} then []
    else
      HasLeastKey(keys);
      var least :| least in keys && forall k :: k in keys ==> KeyLeq(least, k);
      [least] + SortedKeys(keys - {least})
  }

  lemma SortedKeysStep(keys: set<string>, least: string)
    requires least in keys && forall k :: k in keys ==> KeyLeq(least, k)
    ensures SortedKeys(keys) == [least] + SortedKeys(keys - {least})
  {
    var first := SortedKeys(keys)[0];
    assert first in keys;
    KeyTotal(first, least);
  }
}
