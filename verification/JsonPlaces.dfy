/**
  The places of a JSON value: paths of array indices and member names. The resource limits
  are what they promise: no value deeper than the limit, no more places than the limit, and
  a safe integer wherever a number stands.
 */
module JsonPlaces {
  import opened Wrappers
  import opened CanonicalJson

  datatype Turn = Item(index: nat) | Member(name: string)

  /** The value at the end of a path, if the path leads anywhere. */
  function At(v: Json, path: seq<Turn>): Option<Json>
    decreases path
  {
    if path == [] then Some(v)
    else
      match (v, path[0])
      case (JArray(items), Item(i)) => if i < |items| then At(items[i], path[1..]) else None
      case (JObject(members), Member(k)) => if k in members then At(members[k], path[1..]) else None
      case _ => None
  }

  // ---------------------------------------------------------------- counting places

  function Behind(turn: Turn, paths: set<seq<Turn>>): set<seq<Turn>> {
    set path | path in paths :: [turn] + path
  }

  lemma {:induction false} AsManyBehind(turn: Turn, paths: set<seq<Turn>>)
    ensures |Behind(turn, paths)| == |paths|
  {
    if paths != {} {
      var path :| path in paths;
      AsManyBehind(turn, paths - {path});
      var front := Behind(turn, paths - {path});
      assert [turn] + path !in front by {
        forall other | other in paths - {path}
          ensures [turn] + other != [turn] + path
        {
          assert ([turn] + other)[1..] == other && ([turn] + path)[1..] == path;
        }
      }
      assert Behind(turn, paths) == front + {[turn] + path};
    }
  }

  lemma BehindExactly(turn: Turn, paths: set<seq<Turn>>, path: seq<Turn>)
    ensures path in Behind(turn, paths) <==> path != [] && path[0] == turn && path[1..] in paths
  {
    if path != [] && path[0] == turn && path[1..] in paths {
      assert path == [turn] + path[1..];
    }
  }

  /** A value has as many places as the limit counts. */
  lemma {:induction false} CountsPlaces(v: Json) returns (places: set<seq<Turn>>)
    ensures |places| == NodeCount(v)
    ensures forall path :: path in places <==> At(v, path).Some?
    decreases v, 1
  {
    match v
    case JArray(items) =>
      var rest := CountsItems(v, 0);
      assert items[0..] == items;
      places := {[]} + rest;
    case JObject(members) =>
      var rest := CountsMembers(v, members.Keys);
      places := {[]} + rest;
    case _ =>
      places := {[]};
  }

  lemma {:induction false} CountsItems(v: Json, from: nat) returns (places: set<seq<Turn>>)
    requires v.JArray? && from <= |v.items|
    ensures |places| == SeqCount(v.items[from..])
    ensures forall path: seq<Turn> :: path in places <==> path != [] && path[0].Item? && from <= path[0].index && At(v, path).Some?
    decreases v, 0, |v.items| - from
  {
    if from == |v.items| {
      places := {};
    } else {
      var item := v.items[from];
      var here := CountsPlaces(item);
      var later := CountsItems(v, from + 1);
      var first := Behind(Item(from), here);
      AsManyBehind(Item(from), here);
      forall path
        ensures path in first <==> path != [] && path[0] == Item(from) && At(v, path).Some?
      {
        BehindExactly(Item(from), here, path);
      }
      assert first !! later;
      places := first + later;
      assert v.items[from..][1..] == v.items[from + 1..];
    }
  }

  lemma {:induction false} CountsMembers(v: Json, keys: set<string>) returns (places: set<seq<Turn>>)
    requires v.JObject? && keys <= v.members.Keys
    ensures |places| == MemberCount(v, keys)
    ensures forall path: seq<Turn> :: path in places <==> path != [] && path[0].Member? && path[0].name in keys && At(v, path).Some?
    decreases v, 0, |keys|
  {
    if keys == {} {
      places := {};
    } else {
      var k :| k in keys;
      MemberCountTakes(v, keys, k);
      var here := CountsPlaces(v.members[k]);
      var others := CountsMembers(v, keys - {k});
      var first := Behind(Member(k), here);
      AsManyBehind(Member(k), here);
      forall path
        ensures path in first <==> path != [] && path[0] == Member(k) && At(v, path).Some?
      {
        BehindExactly(Member(k), here, path);
      }
      assert first !! others;
      places := first + others;
    }
  }

  // ---------------------------------------------------------------- what the limits promise

  /** An integer no further from zero than 2 to the 53rd, less one. */
  predicate Exact(n: Number) {
    match n
    case PosInt(k) => k < 0x20_0000_0000_0000
    case NegInt(m) => m < 0x20_0000_0000_0000
    case Float(_) => false
  }

  predicate NumberHolds(v: Json) {
    v.JNumber? ==> Exact(v.number)
  }

  /** A value as found at `depth`, and everything in it. */
  lemma {:induction false} LimitsReachPlaces(v: Json, depth: nat, path: seq<Turn>)
    requires At(v, path).Some?
    ensures WithinDepth(v, depth) ==> depth + |path| <= 32
    ensures InProfile(v) ==> NumberHolds(At(v, path).value)
    decreases |path|
  {
    if path != [] {
      var child := if path[0].Item? then v.items[path[0].index] else v.members[path[0].name];
      LimitsReachPlaces(child, depth + 1, path[1..]);
    }
  }

  /** Some place of a value that nests too deep. */
  lemma {:induction false} DeepPlace(v: Json, depth: nat) returns (path: seq<Turn>)
    requires !WithinDepth(v, depth)
    ensures At(v, path).Some? && depth + |path| > 32
    decreases v
  {
    if depth > 32 {
      path := [];
    } else if v.JArray? {
      var i: nat :| i < |v.items| && !WithinDepth(v.items[i], depth + 1);
      var rest := DeepPlace(v.items[i], depth + 1);
      path := [Item(i)] + rest;
      assert path[1..] == rest;
    } else {
      var k :| k in v.members && !WithinDepth(v.members[k], depth + 1);
      var rest := DeepPlace(v.members[k], depth + 1);
      path := [Member(k)] + rest;
      assert path[1..] == rest;
    }
  }

  /** Some place of a number outside the range. */
  lemma {:induction false} LargePlace(v: Json) returns (path: seq<Turn>)
    requires !InProfile(v)
    ensures At(v, path).Some? && !NumberHolds(At(v, path).value)
    decreases v
  {
    if v.JArray? {
      var i: nat :| i < |v.items| && !InProfile(v.items[i]);
      var rest := LargePlace(v.items[i]);
      path := [Item(i)] + rest;
      assert path[1..] == rest;
    } else if v.JObject? {
      var k :| k in v.members && !InProfile(v.members[k]);
      var rest := LargePlace(v.members[k]);
      path := [Member(k)] + rest;
      assert path[1..] == rest;
    } else {
      path := [];
    }
  }

  /**
    A value is within the limits exactly when it has at most 10,000 places, each fewer than 32
    steps from the root, and every number at one of them is an integer of that range.
   */
  lemma LimitsExactly(v: Json) returns (places: set<seq<Turn>>)
    ensures forall path :: path in places <==> At(v, path).Some?
    ensures WithinLimits(v) <==>
      |places| <= 10_000 && forall path :: path in places ==> |path| < 32 && NumberHolds(At(v, path).value)
  {
    places := CountsPlaces(v);
    forall path | path in places
      ensures WithinDepth(v, 1) ==> |path| < 32
      ensures InProfile(v) ==> NumberHolds(At(v, path).value)
    {
      LimitsReachPlaces(v, 1, path);
    }
    if !WithinDepth(v, 1) {
      var path := DeepPlace(v, 1);
    } else if !InProfile(v) {
      var path := LargePlace(v);
    }
  }
}
