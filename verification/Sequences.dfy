/** Facts about sequences that several modules need. */
module Sequences {
  import opened Wrappers

  /** `i` is the first place in `s` where `p` holds, if there is one. */
  ghost predicate IsFirst<T>(s: seq<T>, p: T -> bool, i: Option<nat>) {
    && (i.Some? ==> i.value < |s| && p(s[i.value]) && forall j :: 0 <= j < i.value ==> !p(s[j]))
    && (i.None? ==> forall j :: 0 <= j < |s| ==> !p(s[j]))
  }

  function FirstIndex<T>(s: seq<T>, p: T -> bool): (i: Option<nat>)
    ensures IsFirst(s, p, i)
  {
    if s == [] then None
    else
      var earlier := FirstIndex(s[..|s| - 1], p);
      if earlier.Some? then earlier else if p(s[|s| - 1]) then Some(|s| - 1) else None
  }

  /** The search itself, from the front. */
  method Locate<T>(s: seq<T>, p: T -> bool) returns (i: Option<nat>)
    ensures IsFirst(s, p, i)
  {
    var k := 0;
    while k < |s|
      invariant k <= |s| && forall j :: 0 <= j < k ==> !p(s[j])
    {
      if p(s[k]) {
        return Some(k);
      }
      k := k + 1;
    }
    i := None;
  }

  function Flatten<A, B>(f: A -> seq<B>, s: seq<A>): seq<B> {
    if s == [] then [] else f(s[0]) + Flatten(f, s[1..])
  }

  lemma {:induction false} FlattenConcat<A, B>(f: A -> seq<B>, a: seq<A>, b: seq<A>)
    ensures Flatten(f, a + b) == Flatten(f, a) + Flatten(f, b)
  {
    if a == [] {
      assert a + b == b;
    } else {
      FlattenConcat(f, a[1..], b);
      assert (a + b)[1..] == a[1..] + b;
    }
  }

  lemma FlattenOne<A, B>(f: A -> seq<B>, x: A)
    ensures Flatten(f, [x]) == f(x)
  {
    assert [x][1..] == [];
  }

  lemma FlattenStep<A, B>(f: A -> seq<B>, s: seq<A>, k: nat)
    requires k < |s|
    ensures Flatten(f, s[..k + 1]) == Flatten(f, s[..k]) + f(s[k])
  {
    assert s[..k + 1] == s[..k] + [s[k]];
    FlattenConcat(f, s[..k], [s[k]]);
    FlattenOne(f, s[k]);
  }

  /** Two lists split after the same number of elements. */
  lemma SplitEqual<T>(a: seq<T>, x: seq<T>, b: seq<T>, y: seq<T>)
    requires a + x == b + y && |a| == |b|
    ensures a == b && x == y
  {
    assert a == (a + x)[..|a|] && b == (b + y)[..|b|];
    assert x == (a + x)[|a|..] && y == (b + y)[|b|..];
  }

  lemma StripHead<T>(head: seq<T>, x: seq<T>, y: seq<T>)
    requires head + x == head + y
    ensures x == y
  {
    SplitEqual(head, x, head, y);
  }
}
