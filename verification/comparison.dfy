/** Comparing a derived view with an expected one, down to any depth. */
module Comparison {
  import opened Ordering
  import opened Events

  datatype Kind = Contradiction | Unmapped

  datatype Difference = Difference(path: string, kind: Kind)

  datatype Status = ExpectedByMapping | UnmappedExtras | Contradicted

  /** `type(expected) is type(actual)` */
  predicate SameType(e: Json, a: Json) {
    match e
    case Null => a.Null?
    case Bool(_) => a.Bool?
    case Number(_) => a.Number?
    case Text(_) => a.Text?
    case List(_) => a.List?
    case Object(_) => a.Object?
  }

  function Decimal(n: nat): string {
    if n < 10 then [('0' as int + n) as char] else Decimal(n / 10) + [('0' as int + n % 10) as char]
  }

  function Key(path: string, key: string): string { path + "/" + key }

  function Index(path: string, i: nat): string { path + "/" + Decimal(i) }

  /** The differences found under the expected keys from position `from` on. */
  ghost function KeyDiffs(e: Json, a: Json, keys: seq<string>, from: nat, path: string): seq<Difference>
    requires e.Object? && a.Object? && from <= |keys| && forall i | 0 <= i < |keys| :: keys[i] in e.fields
    decreases e, 0, |keys| - from
  {
    if from == |keys| then []
    else
      var key := keys[from];
      (if key in a.fields then Diffs(e.fields[key], a.fields[key], Key(path, key))
       else [Difference(Key(path, key), Contradiction)])
      + KeyDiffs(e, a, keys, from + 1, path)
  }

  ghost function ExpectedKeys(e: Json): (keys: seq<string>)
    requires e.Object?
    ensures forall i | 0 <= i < |keys| :: keys[i] in e.fields
    ensures forall k | k in e.fields :: k in keys
  {
    assert forall i | 0 <= i < |SortedText(e.fields.Keys)| :: SortedText(e.fields.Keys)[i] in SortedText(e.fields.Keys);
    SortedText(e.fields.Keys)
  }

  /** The differences from list position `from` on. */
  ghost function ItemDiffs(e: Json, a: Json, from: nat, path: string): seq<Difference>
    requires e.List? && a.List?
    decreases e, 0, |e.items| + |a.items| - from
  {
    if from < |e.items| && from < |a.items| then
      Diffs(e.items[from], a.items[from], Index(path, from)) + ItemDiffs(e, a, from + 1, path)
    else if from < |a.items| then [Difference(Index(path, from), Unmapped)] + ItemDiffs(e, a, from + 1, path)
    else if from < |e.items| then [Difference(Index(path, from), Contradiction)] + ItemDiffs(e, a, from + 1, path)
    else []
  }

  lemma SortedKeysAreExpected(e: Json)
    requires e.Object?
    ensures SortedText(e.fields.Keys) == ExpectedKeys(e)
  {
  }

  function ExtraKeys(keys: seq<string>, from: nat, path: string): seq<Difference>
    requires from <= |keys|
    decreases |keys| - from
  {
    if from == |keys| then [] else [Difference(Key(path, keys[from]), Unmapped)] + ExtraKeys(keys, from + 1, path)
  }

  /** What `_compare` appends for one pair of values. */
  ghost function Diffs(e: Json, a: Json, path: string): seq<Difference>
    decreases e, 1, 0
  {
    if !SameType(e, a) then [Difference(path, Contradiction)]
    else match e
      case Object(fields) =>
        KeyDiffs(e, a, ExpectedKeys(e), 0, path) + ExtraKeys(SortedText(a.fields.Keys - fields.Keys), 0, path)
      case List(_) => ItemDiffs(e, a, 0, path)
      case _ => if e != a then [Difference(path, Contradiction)] else []
  }

  /** `actual` has everything `expected` has, and perhaps extra keys or longer lists, at any depth. */
  ghost predicate Covers(e: Json, a: Json)
    decreases e
  {
    match e
    case Object(fields) => a.Object? && forall k | k in fields :: k in a.fields && Covers(fields[k], a.fields[k])
    case List(items) => a.List? && |items| <= |a.items| && forall i | 0 <= i < |items| :: Covers(items[i], a.items[i])
    case _ => e == a
  }

  /** The list of differences every level of the recursion appends to. */
  class DifferenceList {
    var items: seq<Difference>

    constructor ()
      ensures items == []
    {
      items := [];
    }

    method Append(path: string, kind: Kind)
      modifies this
      ensures items == old(items) + [Difference(path, kind)]
    {
      items := items + [Difference(path, kind)];
    }
  }

  /** `_compare` */
  method Compare(e: Json, a: Json, path: string, log: DifferenceList)
    modifies log
    ensures log.items == old(log.items) + Diffs(e, a, path)
    decreases e, 1
  {
    hide Lists, SortedText, ExpectedKeys, KeyDiffs, ItemDiffs;
    if !SameType(e, a) {
      log.Append(path, Contradiction);
    } else if e.Object? {
      CompareKeys(e, a, path, log);
      var extras := SortText(a.fields.Keys - e.fields.Keys);
      AppendExtras(extras, path, log);
    } else if e.List? {
      CompareItems(e, a, path, log);
    } else if e != a {
      log.Append(path, Contradiction);
    }
  }

  /** The loop of `_compare` over keys only the actual value has. */
  method AppendExtras(extras: seq<string>, path: string, log: DifferenceList)
    modifies log
    ensures log.items == old(log.items) + ExtraKeys(extras, 0, path)
  {
    for i := 0 to |extras|
      invariant log.items + ExtraKeys(extras, i, path) == old(log.items) + ExtraKeys(extras, 0, path)
    {
      log.Append(Key(path, extras[i]), Unmapped);
    }
  }

  /** The loop of `_compare` over expected keys. */
  method CompareKeys(e: Json, a: Json, path: string, log: DifferenceList)
    requires e.Object? && a.Object?
    modifies log
    ensures log.items == old(log.items) + KeyDiffs(e, a, ExpectedKeys(e), 0, path)
    decreases e, 0
  {
    hide Diffs, Lists, SortedText;
    var keys := SortText(e.fields.Keys);
    SortedKeysAreExpected(e);
    ghost var goal := log.items + KeyDiffs(e, a, keys, 0, path);
    for i := 0 to |keys|
      invariant log.items + KeyDiffs(e, a, keys, i, path) == goal
    {
      if keys[i] !in a.fields {
        log.Append(Key(path, keys[i]), Contradiction);
      } else {
        Compare(e.fields[keys[i]], a.fields[keys[i]], Key(path, keys[i]), log);
      }
    }
  }

  /** The loops of `_compare` over list positions. */
  method CompareItems(e: Json, a: Json, path: string, log: DifferenceList)
    requires e.List? && a.List?
    modifies log
    ensures log.items == old(log.items) + ItemDiffs(e, a, 0, path)
    decreases e, 0
  {
    hide Diffs;
    ghost var goal := log.items + ItemDiffs(e, a, 0, path);
    var shared := if |e.items| <= |a.items| then |e.items| else |a.items|;
    for i := 0 to shared
      invariant log.items + ItemDiffs(e, a, i, path) == goal
    {
      Compare(e.items[i], a.items[i], Index(path, i), log);
    }
    if |a.items| > |e.items| {
      for i := |e.items| to |a.items|
        invariant log.items + ItemDiffs(e, a, i, path) == goal
      {
        log.Append(Index(path, i), Unmapped);
      }
    } else if |e.items| > |a.items| {
      for i := |a.items| to |e.items|
        invariant log.items + ItemDiffs(e, a, i, path) == goal
      {
        log.Append(Index(path, i), Contradiction);
      }
    }
  }

  predicate Mentions(diffs: seq<Difference>, kind: Kind) {
    exists i | 0 <= i < |diffs| :: diffs[i].kind == kind
  }

  /** `compare_projection` */
  method CompareProjection(expected: Json, actual: Json) returns (status: Status, differences: seq<Difference>)
    ensures differences == Diffs(expected, actual, "")
    ensures status == ExpectedByMapping <==> expected == actual
    ensures status == UnmappedExtras <==> Covers(expected, actual) && expected != actual
    ensures status == Contradicted <==> !Covers(expected, actual)
  {
    var log := new DifferenceList();
    Compare(expected, actual, "", log);
    differences := log.items;
    DiffsDecide(expected, actual, "");
    status :=
      if Mentions(differences, Contradiction) then Contradicted
      else if Mentions(differences, Unmapped) then UnmappedExtras
      else ExpectedByMapping;
    if differences != [] { assert differences[0].kind == Contradiction || differences[0].kind == Unmapped; }
  }

  lemma MentionsConcat(a: seq<Difference>, b: seq<Difference>, kind: Kind)
    ensures Mentions(a + b, kind) <==> Mentions(a, kind) || Mentions(b, kind)
  {
    if i :| 0 <= i < |a| && a[i].kind == kind { assert (a + b)[i].kind == kind; }
    if i :| 0 <= i < |b| && b[i].kind == kind { assert (a + b)[|a| + i].kind == kind; }
  }

  /** No difference means equal; no contradiction means the actual value covers the expected one. */
  lemma {:induction false} DiffsDecide(e: Json, a: Json, path: string)
    ensures Diffs(e, a, path) == [] <==> e == a
    ensures Mentions(Diffs(e, a, path), Contradiction) <==> !Covers(e, a)
    decreases e, 1, 0
  {
    if !SameType(e, a) {
      assert Diffs(e, a, path)[0].kind == Contradiction;
    } else if e.Object? {
      ObjectDiffsDecide(e, a, path);
    } else if e.List? {
      ItemDiffsDecide(e, a, 0, path);
      assert (|e.items| == |a.items| && forall i | 0 <= i < |e.items| :: e.items[i] == a.items[i]) <==>
        e.items == a.items;
    } else if e != a {
      assert Diffs(e, a, path)[0].kind == Contradiction;
    }
  }

  lemma {:induction false} ObjectDiffsDecide(e: Json, a: Json, path: string)
    requires e.Object? && a.Object?
    ensures Diffs(e, a, path) == [] <==> e == a
    ensures Mentions(Diffs(e, a, path), Contradiction) <==> !Covers(e, a)
    decreases e, 0, |ExpectedKeys(e)| + 1
  {
    hide Lists, SortedText, ExpectedKeys, KeyDiffs, ExtraKeys, Mentions;
    var keys, extras := ExpectedKeys(e), SortedText(a.fields.Keys - e.fields.Keys);
    KeyDiffsDecide(e, a, keys, 0, path);
    ExtraKeysDecide(extras, 0, path);
    MentionsConcat(KeyDiffs(e, a, keys, 0, path), ExtraKeys(extras, 0, path), Contradiction);
    SortedTextEmpty(a.fields.Keys - e.fields.Keys);
    KeysTellEquality(e.fields, a.fields, keys);
    assert forall k | k in e.fields :: k in keys;
  }

  lemma KeysTellEquality(x: map<string, Json>, y: map<string, Json>, keys: seq<string>)
    requires (forall i | 0 <= i < |keys| :: keys[i] in x) && (forall k | k in x :: k in keys)
    ensures x == y <==> y.Keys - x.Keys == {} && forall i | 0 <= i < |keys| :: keys[i] in y && x[keys[i]] == y[keys[i]]
  {
    if y.Keys - x.Keys == {} && forall i | 0 <= i < |keys| :: keys[i] in y && x[keys[i]] == y[keys[i]] {
      forall k ensures k in y <==> k in x { if k in y { assert k !in y.Keys - x.Keys; } }
    }
  }

  lemma {:induction false} KeyDiffsDecide(e: Json, a: Json, keys: seq<string>, from: nat, path: string)
    requires e.Object? && a.Object? && from <= |keys| && forall i | 0 <= i < |keys| :: keys[i] in e.fields
    ensures KeyDiffs(e, a, keys, from, path) == [] <==>
            forall i | from <= i < |keys| :: keys[i] in a.fields && e.fields[keys[i]] == a.fields[keys[i]]
    ensures Mentions(KeyDiffs(e, a, keys, from, path), Contradiction) <==>
            !forall i | from <= i < |keys| :: keys[i] in a.fields && Covers(e.fields[keys[i]], a.fields[keys[i]])
    decreases e, 0, |keys| - from
  {
    if from < |keys| {
      var k := keys[from];
      var head := if k in a.fields then Diffs(e.fields[k], a.fields[k], Key(path, k))
        else [Difference(Key(path, k), Contradiction)];
      if k in a.fields {
        DiffsDecide(e.fields[k], a.fields[k], Key(path, k));
      } else {
        assert head[0].kind == Contradiction;
      }
      KeyDiffsDecide(e, a, keys, from + 1, path);
      MentionsConcat(head, KeyDiffs(e, a, keys, from + 1, path), Contradiction);
    }
  }

  lemma {:induction false} ExtraKeysDecide(keys: seq<string>, from: nat, path: string)
    requires from <= |keys|
    ensures ExtraKeys(keys, from, path) == [] <==> from == |keys|
    ensures !Mentions(ExtraKeys(keys, from, path), Contradiction)
    decreases |keys| - from
  {
    if from < |keys| {
      ExtraKeysDecide(keys, from + 1, path);
      MentionsConcat([Difference(Key(path, keys[from]), Unmapped)], ExtraKeys(keys, from + 1, path), Contradiction);
    }
  }

  lemma {:induction false} ItemDiffsDecide(e: Json, a: Json, from: nat, path: string)
    requires e.List? && a.List? && from <= |e.items| + |a.items|
    ensures from <= |e.items| && from <= |a.items| ==>
              (ItemDiffs(e, a, from, path) == [] <==>
               |e.items| == |a.items| && forall i | from <= i < |e.items| :: e.items[i] == a.items[i])
    ensures Mentions(ItemDiffs(e, a, from, path), Contradiction) <==>
            !(from < |e.items| ==>
                |e.items| <= |a.items| && forall i | from <= i < |e.items| :: Covers(e.items[i], a.items[i]))
    decreases e, 0, |e.items| + |a.items| - from
  {
    hide Diffs, Covers;
    var rest := ItemDiffs(e, a, from + 1, path);
    if from < |e.items| && from < |a.items| {
      DiffsDecide(e.items[from], a.items[from], Index(path, from));
      ItemDiffsDecide(e, a, from + 1, path);
      MentionsConcat(Diffs(e.items[from], a.items[from], Index(path, from)), rest, Contradiction);
    } else if from < |a.items| {
      ItemDiffsDecide(e, a, from + 1, path);
      MentionsConcat([Difference(Index(path, from), Unmapped)], rest, Contradiction);
    } else if from < |e.items| {
      assert ItemDiffs(e, a, from, path)[0].kind == Contradiction;
    }
  }
}
