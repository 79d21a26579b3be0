/** Exactly which differences a comparison reports, and where it says they are. */
module ComparisonResults {
  import opened Ordering
  import opened Events
  import opened Comparison

  /** One step down into a value. */
  datatype Way = Under(key: string) | At(index: nat)

  /** How a place reached from `path` is written. */
  function Shown(path: string, ways: seq<Way>): string
    decreases |ways|
  {
    if ways == [] then path else Shown(path + "/" + Name(ways[0]), ways[1..])
  }

  function Name(way: Way): string {
    match way
    case Under(key) => key
    case At(i) => Decimal(i)
  }

  /** At this place below them the two values contradict each other, or the actual one has something extra. */
  ghost predicate Differs(e: Json, a: Json, ways: seq<Way>, kind: Kind)
    decreases |ways|
  {
    if ways == [] then kind == Contradiction && (!SameType(e, a) || (!e.Object? && !e.List? && e != a))
    else match ways[0]
      case Under(key) =>
        e.Object? && a.Object? &&
        if key in e.fields && key in a.fields then Differs(e.fields[key], a.fields[key], ways[1..], kind)
        else |ways| == 1 && Lacking(key in e.fields, key in a.fields, kind)
      case At(i) =>
        e.List? && a.List? &&
        if i < |e.items| && i < |a.items| then Differs(e.items[i], a.items[i], ways[1..], kind)
        else |ways| == 1 && Lacking(i < |e.items|, i < |a.items|, kind)
  }

  /** What is expected but not there contradicts; what is there but not expected is unmapped. */
  predicate Lacking(expected: bool, actual: bool, kind: Kind) {
    (expected && !actual && kind == Contradiction) || (!expected && actual && kind == Unmapped)
  }

  ghost predicate Found(e: Json, a: Json, path: string, d: Difference) {
    exists ways: seq<Way> :: d.path == Shown(path, ways) && Differs(e, a, ways, d.kind)
  }

  /** The differences reported are exactly those there are, at every depth, each under the place where it is. */
  lemma {:induction false} DiffsAre(e: Json, a: Json, path: string, d: Difference)
    ensures d in Diffs(e, a, path) <==> Found(e, a, path, d)
    decreases e
  {
    hide Differs, Found, KeyDiffs, ItemDiffs, ExtraKeys, ExpectedKeys, SortedText;
    if !SameType(e, a) {
      FoundHere(e, a, path, d);
    } else if e.Object? {
      forall k | k in e.fields && k in a.fields
        ensures d in Diffs(e.fields[k], a.fields[k], Key(path, k)) <==> Found(e.fields[k], a.fields[k], Key(path, k), d)
      {
        DiffsAre(e.fields[k], a.fields[k], Key(path, k), d);
      }
      ObjectDiffsAre(e, a, path, d);
      FoundUnder(e, a, path, d);
    } else if e.List? {
      forall i | 0 <= i < |e.items| && i < |a.items|
        ensures d in Diffs(e.items[i], a.items[i], Index(path, i)) <==> Found(e.items[i], a.items[i], Index(path, i), d)
      {
        DiffsAre(e.items[i], a.items[i], Index(path, i), d);
      }
      ItemDiffsAre(e, a, 0, path, d);
      FoundAt(e, a, path, d);
    } else {
      FoundHere(e, a, path, d);
    }
  }

  lemma FoundHere(e: Json, a: Json, path: string, d: Difference)
    requires !SameType(e, a) || (!e.Object? && !e.List?)
    ensures Found(e, a, path, d) <==> d == Difference(path, Contradiction) && (!SameType(e, a) || e != a)
  {
    if d == Difference(path, Contradiction) && (!SameType(e, a) || e != a) {
      assert Shown(path, []) == path && Differs(e, a, [], Contradiction);
    }
  }

  // Under keys

  ghost predicate UnderKey(e: Json, a: Json, path: string, d: Difference, k: string)
    requires e.Object? && a.Object?
  {
    if k in e.fields && k in a.fields then Found(e.fields[k], a.fields[k], Key(path, k), d)
    else d.path == Key(path, k) && Lacking(k in e.fields, k in a.fields, d.kind)
  }

  lemma FoundUnder(e: Json, a: Json, path: string, d: Difference)
    requires e.Object? && a.Object?
    ensures Found(e, a, path, d) <==> exists k :: UnderKey(e, a, path, d, k)
  {
    if ways: seq<Way> :| d.path == Shown(path, ways) && Differs(e, a, ways, d.kind) {
      var k := ways[0].key;
      assert Shown(Key(path, k), ways[1..]) == d.path;
      if !(k in e.fields && k in a.fields) { assert ways[1..] == []; }
      assert UnderKey(e, a, path, d, k);
    }
    if k :| UnderKey(e, a, path, d, k) {
      if k in e.fields && k in a.fields {
        var ways: seq<Way> :| d.path == Shown(Key(path, k), ways) && Differs(e.fields[k], a.fields[k], ways, d.kind);
        StepDown(path, Under(k), ways);
        assert ([Under(k)] + ways)[1..] == ways;
        assert Differs(e, a, [Under(k)] + ways, d.kind);
      } else {
        StepDown(path, Under(k), []);
        assert Differs(e, a, [Under(k)] + [], d.kind);
      }
    }
  }

  lemma StepDown(path: string, way: Way, ways: seq<Way>)
    ensures Shown(path, [way] + ways) == Shown(if way.Under? then Key(path, way.key) else Index(path, way.index), ways)
  {
    assert ([way] + ways)[1..] == ways;
  }

  lemma ObjectDiffsAre(e: Json, a: Json, path: string, d: Difference)
    requires e.Object? && a.Object?
    requires forall k | k in e.fields && k in a.fields ::
      d in Diffs(e.fields[k], a.fields[k], Key(path, k)) <==> Found(e.fields[k], a.fields[k], Key(path, k), d)
    ensures d in Diffs(e, a, path) <==> exists k :: UnderKey(e, a, path, d, k)
  {
    hide Found, KeyDiffs, ExtraKeys, ExpectedKeys, SortedText;
    var keys, extras := ExpectedKeys(e), SortedText(a.fields.Keys - e.fields.Keys);
    KeyDiffsAre(e, a, keys, 0, path, d);
    ExtrasAre(extras, 0, path, d);
    assert Diffs(e, a, path) == KeyDiffs(e, a, keys, 0, path) + ExtraKeys(extras, 0, path);
    forall k ensures k in keys <==> k in e.fields {}
    if k :| UnderKey(e, a, path, d, k) {
      if k in e.fields {
        var i :| 0 <= i < |keys| && keys[i] == k;
        assert FromKey(e, a, path, d, keys[i]);
      } else {
        assert k in a.fields.Keys - e.fields.Keys && k in extras;
        var i :| 0 <= i < |extras| && extras[i] == k;
        assert IsExtra(path, d, extras[i]);
      }
    }
    if i :| 0 <= i < |keys| && FromKey(e, a, path, d, keys[i]) { assert UnderKey(e, a, path, d, keys[i]); }
    if i :| 0 <= i < |extras| && IsExtra(path, d, extras[i]) {
      assert extras[i] in extras;
      assert UnderKey(e, a, path, d, extras[i]);
    }
  }

  ghost predicate FromKey(e: Json, a: Json, path: string, d: Difference, k: string)
    requires e.Object? && a.Object? && k in e.fields
  {
    if k in a.fields then d in Diffs(e.fields[k], a.fields[k], Key(path, k))
    else d == Difference(Key(path, k), Contradiction)
  }

  predicate IsExtra(path: string, d: Difference, k: string) { d == Difference(Key(path, k), Unmapped) }

  lemma {:induction false} KeyDiffsAre(e: Json, a: Json, keys: seq<string>, from: nat, path: string, d: Difference)
    requires e.Object? && a.Object? && from <= |keys| && forall i | 0 <= i < |keys| :: keys[i] in e.fields
    ensures d in KeyDiffs(e, a, keys, from, path) <==> exists i | from <= i < |keys| :: FromKey(e, a, path, d, keys[i])
    decreases |keys| - from
  {
    hide Diffs;
    if from < |keys| { KeyDiffsAre(e, a, keys, from + 1, path, d); }
  }

  lemma {:induction false} ExtrasAre(keys: seq<string>, from: nat, path: string, d: Difference)
    requires from <= |keys|
    ensures d in ExtraKeys(keys, from, path) <==>
            exists i | from <= i < |keys| :: IsExtra(path, d, keys[i])
    decreases |keys| - from
  {
    if from < |keys| { ExtrasAre(keys, from + 1, path, d); }
  }

  // At list positions

  ghost predicate AtIndex(e: Json, a: Json, path: string, d: Difference, i: nat)
    requires e.List? && a.List?
  {
    if i < |e.items| && i < |a.items| then Found(e.items[i], a.items[i], Index(path, i), d)
    else d.path == Index(path, i) && Lacking(i < |e.items|, i < |a.items|, d.kind)
  }

  lemma FoundAt(e: Json, a: Json, path: string, d: Difference)
    requires e.List? && a.List?
    ensures Found(e, a, path, d) <==> exists i: nat :: AtIndex(e, a, path, d, i)
  {
    if ways: seq<Way> :| d.path == Shown(path, ways) && Differs(e, a, ways, d.kind) {
      var i := ways[0].index;
      assert Shown(Index(path, i), ways[1..]) == d.path;
      if !(i < |e.items| && i < |a.items|) { assert ways[1..] == []; }
      assert AtIndex(e, a, path, d, i);
    }
    if i: nat :| AtIndex(e, a, path, d, i) {
      if i < |e.items| && i < |a.items| {
        var ways: seq<Way> :| d.path == Shown(Index(path, i), ways) && Differs(e.items[i], a.items[i], ways, d.kind);
        StepDown(path, At(i), ways);
        assert ([At(i)] + ways)[1..] == ways;
        assert Differs(e, a, [At(i)] + ways, d.kind);
      } else {
        StepDown(path, At(i), []);
        assert Differs(e, a, [At(i)] + [], d.kind);
      }
    }
  }

  lemma {:induction false} ItemDiffsAre(e: Json, a: Json, from: nat, path: string, d: Difference)
    requires e.List? && a.List?
    requires forall i | 0 <= i < |e.items| && i < |a.items| ::
      d in Diffs(e.items[i], a.items[i], Index(path, i)) <==> Found(e.items[i], a.items[i], Index(path, i), d)
    ensures d in ItemDiffs(e, a, from, path) <==> exists i: nat :: from <= i && AtIndex(e, a, path, d, i)
    decreases |e.items| + |a.items| - from
  {
    hide Diffs, Found;
    if from < |e.items| || from < |a.items| {
      ItemDiffsAre(e, a, from + 1, path, d);
      assert d in ItemDiffs(e, a, from, path) <==> AtIndex(e, a, path, d, from) || d in ItemDiffs(e, a, from + 1, path);
    }
  }

  // Positions are written in decimal

  function Number(digits: string): int {
    if digits == "" then 0 else Number(digits[..|digits| - 1]) * 10 + (digits[|digits| - 1] as int - '0' as int)
  }

  /** A position is written in decimal digits, without a leading zero, and reads back. */
  lemma {:induction false} DecimalReads(n: nat)
    ensures Number(Decimal(n)) == n
    ensures forall i | 0 <= i < |Decimal(n)| :: '0' <= Decimal(n)[i] <= '9'
    ensures Decimal(n) != "" && (n > 0 ==> Decimal(n)[0] != '0')
  {
    if n < 10 {
      assert Decimal(n)[..0] == "";
    } else {
      DecimalReads(n / 10);
      assert Decimal(n)[..|Decimal(n)| - 1] == Decimal(n / 10);
    }
  }
}
