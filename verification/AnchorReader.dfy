/**
  A line of the anchor file as a JSON text: an object of three members, read by the grammar's
  own reader of names, strings and numbers.
 */
module AnchorReader {
  import opened Wrappers
  import opened Contracts
  import opened AnchorFormat
  import opened JsonReader
  import CanonicalJson

  /** A name, a colon and a value, and what follows. */
  ghost function ReadMember(t: string): Option<(string, CanonicalJson.Json, string)> {
    var name := if t != "" && t[0] == '"' then ReadText(t[1..]) else None;
    if name.None? || name.value.1 == "" || name.value.1[0] != ':' then None
    else
      var value := ReadValue(name.value.1[1..]);
      if value.None? then None else Some((name.value.0, value.value.0, value.value.1))
  }

  /** A member behind the given character. */
  ghost function MemberBehind(mark: char, t: string): Option<(string, CanonicalJson.Json, string)> {
    if t == "" || t[0] != mark then None else ReadMember(t[1..])
  }

  /** The record that an object with these three members is. */
  ghost function ReadRecord(t: string): Option<Anchor> {
    var first := MemberBehind('{', t);
    if first.None? then None
    else
      var second := MemberBehind(',', first.value.2);
      if second.None? then None
      else
        var third := MemberBehind(',', second.value.2);
        if third.None? || third.value.2 != ['}'] then None
        else
          var (n, d, p) := (first.value.1, second.value.1, third.value.1);
          if first.value.0 == "sequence" && second.value.0 == "snapshot_digest" && third.value.0 == "previous_snapshot_digest"
            && n.JNumber? && n.number.PosInt? && d.JString? && (p.JNull? || p.JString?)
          then Some(Anchor(n.number.n, d.text, if p.JNull? then None else Some(p.text)))
          else None
  }

  predicate Plain(s: string) {
    forall i :: 0 <= i < |s| ==> ' ' <= s[i] && s[i] != '"' && s[i] != '\\'
  }

  lemma {:induction false} PlainReadsBack(s: string, x: string)
    requires Plain(s)
    ensures ReadText(s + ("\"" + x)) == Some((s, x))
  {
    var t := s + ("\"" + x);
    if s == "" {
      assert t == "\"" + x && t[1..] == x;
    } else {
      assert t[0] == s[0] && t[1..] == s[1..] + ("\"" + x);
      PlainReadsBack(s[1..], x);
      assert s == [s[0]] + s[1..];
    }
  }

  /** A quoted plain text reads as that string. */
  lemma PlainValue(s: string, x: string)
    requires Plain(s)
    ensures ReadValue("\"" + (s + ("\"" + x))) == Some((CanonicalJson.JString(s), x))
  {
    var t := "\"" + (s + ("\"" + x));
    assert t[0] == '"' && t[1..] == s + ("\"" + x);
    PlainReadsBack(s, x);
  }

  lemma MemberReadsBack(mark: char, name: string, v: CanonicalJson.Json, value: string, x: string)
    requires Plain(name) && ReadValue(value) == Some((v, x))
    ensures MemberBehind(mark, [mark] + ("\"" + (name + ("\"" + (":" + value))))) == Some((name, v, x))
  {
    hide ReadValue;
    var t := "\"" + (name + ("\"" + (":" + value)));
    assert ([mark] + t)[1..] == t;
    assert t[0] == '"' && t[1..] == name + ("\"" + (":" + value));
    PlainReadsBack(name, ":" + value);
    assert (":" + value)[1..] == value;
  }

  lemma PreviousValue(previous: Option<string>)
    requires previous.Some? ==> Plain(previous.value)
    ensures ReadValue(PreviousText(previous)) ==
      Some((if previous.None? then CanonicalJson.JNull else CanonicalJson.JString(previous.value), ['}']))
  {
    if previous.None? {
      assert PreviousText(previous)[..4] == ['n', 'u', 'l', 'l'] && PreviousText(previous)[4..] == ['}'];
    } else {
      PlainValue(previous.value, "}");
      assert PreviousText(previous) == "\"" + (previous.value + ("\"" + "}"));
    }
  }

  lemma SequenceValue(n: nat, x: string)
    requires CannotExtend(x)
    ensures ReadValue(CanonicalJson.Decimal(n) + x) == Some((CanonicalJson.JNumber(CanonicalJson.PosInt(n)), x))
  {
    NaturalReadsBack(n, x);
    DecimalSpells(n);
    assert (CanonicalJson.Decimal(n) + x)[0] == CanonicalJson.Decimal(n)[0];
  }

  /** What stands before a member's value. */
  function Named(mark: char, name: string): string {
    [mark] + ("\"" + (name + ("\"" + ":")))
  }

  lemma NamedJoins(mark: char, name: string, value: string)
    ensures [mark] + ("\"" + (name + ("\"" + (":" + value)))) == Named(mark, name) + value
  {
  }

  lemma HeadSpelled()
    ensures HEAD == Named('{', "sequence")
  {
  }

  lemma MiddleSpelled()
    ensures MIDDLE == Named(',', "snapshot_digest") + "\""
  {
  }

  lemma SeparatorSpelled()
    ensures SEPARATOR == "\"" + Named(',', "previous_snapshot_digest")
  {
  }

  lemma LineSpelled(a: Anchor, third: string, afterDigest: string, second: string, afterSequence: string)
    requires third == PreviousText(a.previous)
    requires afterDigest == Named(',', "previous_snapshot_digest") + third
    requires second == "\"" + (a.digest + ("\"" + afterDigest))
    requires afterSequence == Named(',', "snapshot_digest") + second
    ensures EncodeAnchor(a) == Named('{', "sequence") + (CanonicalJson.Decimal(a.sequence) + afterSequence)
  {
    HeadSpelled();
    MiddleSpelled();
    SeparatorSpelled();
    hide Named, PreviousText, CanonicalJson.Decimal;
    assert SEPARATOR + third == "\"" + afterDigest;
    assert MIDDLE + (a.digest + (SEPARATOR + third)) == afterSequence;
  }

  lemma DigestsArePlain(a: Anchor)
    requires a.Valid()
    ensures Plain(a.digest) && (a.previous.Some? ==> Plain(a.previous.value))
  {
  }

  lemma NamesArePlain()
    ensures Plain("sequence") && Plain("snapshot_digest") && Plain("previous_snapshot_digest")
  {
  }

  /** Every line that is written reads as the JSON record of its anchor. */
  lemma LineReadsBack(a: Anchor)
    requires a.Valid()
    ensures ReadRecord(EncodeAnchor(a)) == Some(a)
  {
    DigestsArePlain(a);
    NamesArePlain();
    hide ReadValue, MemberBehind, EncodeAnchor, Named, PreviousText, Plain, Anchor.Valid, CannotExtend, CanonicalJson.Decimal;
    var third := PreviousText(a.previous);
    var afterDigest := Named(',', "previous_snapshot_digest") + third;
    var second := "\"" + (a.digest + ("\"" + afterDigest));
    var afterSequence := Named(',', "snapshot_digest") + second;
    var first := CanonicalJson.Decimal(a.sequence) + afterSequence;
    PreviousValue(a.previous);
    PlainValue(a.digest, afterDigest);
    CommaEnds(afterSequence, second);
    SequenceValue(a.sequence, afterSequence);
    NamedJoins(',', "previous_snapshot_digest", third);
    NamedJoins(',', "snapshot_digest", second);
    NamedJoins('{', "sequence", first);
    MemberReadsBack(',', "previous_snapshot_digest",
      if a.previous.None? then CanonicalJson.JNull else CanonicalJson.JString(a.previous.value), third, ['}']);
    MemberReadsBack(',', "snapshot_digest", CanonicalJson.JString(a.digest), second, afterDigest);
    MemberReadsBack('{', "sequence", CanonicalJson.JNumber(CanonicalJson.PosInt(a.sequence)), first, afterSequence);
    LineSpelled(a, third, afterDigest, second, afterSequence);
  }

  lemma CommaEnds(t: string, value: string)
    requires t == Named(',', "snapshot_digest") + value
    ensures CannotExtend(t)
  {
    assert t[0] == ',';
  }
}
