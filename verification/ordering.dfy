/** Python's `sorted` over a set: the one strictly ascending listing of its elements. */
module Ordering {

  /** `less` is a strict total order on the elements of `items`. */
  ghost predicate StrictTotalOn<T(!new)>(less: (T, T) -> bool, items: set<T>) {
    && (forall x | x in items :: !less(x, x))
    && (forall x, y | x in items && y in items :: x == y || less(x, y) || less(y, x))
    && (forall x, y, z | x in items && y in items && z in items :: less(x, y) && less(y, z) ==> less(x, z))
  }

  ghost predicate Ascending<T(!new)>(less: (T, T) -> bool, s: seq<T>) {
    forall i, j | 0 <= i < j < |s| :: less(s[i], s[j])
  }

  /** `s` lists exactly `items`, in ascending order. */
  ghost predicate Lists<T(!new)>(less: (T, T) -> bool, s: seq<T>, items: set<T>) {
    Ascending(less, s) && forall x :: x in s <==> x in items
  }

  /** There is only one such listing, so a sort depends on the set alone. */
  lemma {:induction false} ListingUnique<T(!new)>(less: (T, T) -> bool, s: seq<T>, t: seq<T>, items: set<T>)
    requires StrictTotalOn(less, items) && Lists(less, s, items) && Lists(less, t, items)
    ensures s == t
    decreases |s|
  {
    ListingLength(less, s, items);
    ListingLength(less, t, items);
    if s != [] {
      assert s[0] in s && s[0] in t;
      assert t[0] in t && t[0] in s;
      var i :| 0 <= i < |s| && s[i] == t[0];
      var j :| 0 <= j < |t| && t[j] == s[0];
      assert s[0] == t[0];
      var rest := items - {s[0]};
      TailLists(less, s, items);
      TailLists(less, t, items);
      ListingUnique(less, s[1..], t[1..], rest);
    }
  }

  lemma TailLists<T(!new)>(less: (T, T) -> bool, s: seq<T>, items: set<T>)
    requires StrictTotalOn(less, items) && Lists(less, s, items) && s != []
    ensures Lists(less, s[1..], items - {s[0]})
  {
    forall x ensures x in s[1..] <==> x in items - {s[0]} {
      if x in s[1..] {
        var i :| 0 <= i < |s| - 1 && s[1..][i] == x;
        assert s[i + 1] == x && less(s[0], x);
        assert x in items && s[0] in items;
      }
      if x in items - {s[0]} {
        var i :| 0 <= i < |s| && s[i] == x;
        assert s[1..][i - 1] == x;
      }
    }
  }

  /** Sequence obtained by inserting `x` before the first larger element. */
  function Insert<T>(less: (T, T) -> bool, x: T, s: seq<T>): seq<T> {
    if s == [] || less(x, s[0]) then [x] + s else [s[0]] + Insert(less, x, s[1..])
  }

  lemma {:induction false} InsertLists<T(!new)>(less: (T, T) -> bool, x: T, s: seq<T>, items: set<T>)
    requires x !in items && StrictTotalOn(less, items + {x}) && Lists(less, s, items)
    ensures Lists(less, Insert(less, x, s), items + {x})
    decreases |s|
  {
    if s == [] {
    } else if less(x, s[0]) {
      forall j | 0 <= j < |s| ensures less(x, s[j]) {
        assert s[j] in s && s[0] in s;
        if j > 0 { assert less(s[0], s[j]); }
      }
    } else {
      assert s[0] in s;
      TailLists(less, s, items);
      InsertLists(less, x, s[1..], items - {s[0]});
      var r := Insert(less, x, s[1..]);
      assert Insert(less, x, s) == [s[0]] + r;
      forall j | 0 <= j < |r| ensures less(s[0], r[j]) {
        assert r[j] in r;
        assert r[j] in items - {s[0]} + {x};
        if r[j] != x {
          assert r[j] in s;
          var k :| 0 <= k < |s| && s[k] == r[j];
          assert less(s[0], s[k]);
        }
      }
      forall y ensures y in [s[0]] + r <==> y in items + {x} {
        assert y in [s[0]] + r <==> y == s[0] || y in r;
      }
    }
  }

  /** The ascending listing of a set. */
  ghost function Sorted<T(!new)>(less: (T, T) -> bool, items: set<T>): (s: seq<T>)
    requires StrictTotalOn(less, items)
    ensures Lists(less, s, items)
    decreases |items|
  {
    if items == {} then [] else
      var x :| x in items;
      var rest := items - {x};
      InsertLists(less, x, Sorted(less, rest), rest);
      assert rest + {x} == items;
      Insert(less, x, Sorted(less, rest))
  }

  /** Sorts a set whatever order its elements are enumerated in. */
  method Sort<T(==, !new)>(items: set<T>, less: (T, T) -> bool) returns (s: seq<T>)
    requires StrictTotalOn(less, items)
    ensures Lists(less, s, items)
    ensures s == Sorted(less, items)
  {
    s := [];
    var rest := items;
    ghost var done: set<T> := {};
    while rest != {}
      invariant rest !! done && rest + done == items
      invariant Lists(less, s, done)
      decreases rest
    {
      var x :| x in rest;
      InsertLists(less, x, s, done);
      s, rest, done := Insert(less, x, s), rest - {x}, done + {x};
    }
    assert done == items;
    ListingUnique(less, s, Sorted(less, items), items);
  }

  lemma {:induction false} ListingLength<T(!new)>(less: (T, T) -> bool, s: seq<T>, items: set<T>)
    requires StrictTotalOn(less, items) && Lists(less, s, items)
    ensures |s| == |items|
    decreases |s|
  {
    if s == [] {
      assert forall x :: x !in items;
    } else {
      assert s[0] in s;
      TailLists(less, s, items);
      ListingLength(less, s[1..], items - {s[0]});
    }
  }

  // Text, by code point

  predicate TextLess(a: string, b: string) {
    b != "" && (a == "" || a[0] < b[0] || (a[0] == b[0] && TextLess(a[1..], b[1..])))
  }

  lemma {:induction false} TextLessIrreflexive(a: string)
    ensures !TextLess(a, a)
  {
    if a != "" { TextLessIrreflexive(a[1..]); }
  }

  lemma {:induction false} TextLessTotal(a: string, b: string)
    ensures a == b || TextLess(a, b) || TextLess(b, a)
  {
    if a != "" && b != "" && a[0] == b[0] {
      TextLessTotal(a[1..], b[1..]);
      assert a == [a[0]] + a[1..] && b == [b[0]] + b[1..];
    }
  }

  /** Behind what both texts begin with, the lesser one ends, or goes on with the lesser character. */
  lemma {:induction false} TextLessIs(a: string, b: string)
    ensures TextLess(a, b) <==> exists k | 0 <= k < |b| :: LessAt(a, b, k)
  {
    if a != "" && b != "" && a[0] == b[0] {
      TextLessIs(a[1..], b[1..]);
      if k :| 0 <= k < |b| - 1 && LessAt(a[1..], b[1..], k) {
        assert a[..k + 1] == [a[0]] + a[1..][..k] && b[..k + 1] == [b[0]] + b[1..][..k];
        assert LessAt(a, b, k + 1);
      }
      if k :| 0 <= k < |b| && LessAt(a, b, k) {
        assert a[1..][..k - 1] == a[..k][1..] && b[1..][..k - 1] == b[..k][1..];
        assert LessAt(a[1..], b[1..], k - 1);
      }
    } else if TextLess(a, b) {
      assert LessAt(a, b, 0);
    }
  }

  predicate LessAt(a: string, b: string, k: nat)
    requires k < |b|
  {
    k <= |a| && a[..k] == b[..k] && (k == |a| || a[k] < b[k])
  }

  lemma {:induction false} TextLessTransitive(a: string, b: string, c: string)
    requires TextLess(a, b) && TextLess(b, c)
    ensures TextLess(a, c)
  {
    if a != "" && a[0] == b[0] == c[0] {
      TextLessTransitive(a[1..], b[1..], c[1..]);
    }
  }

  lemma TextOrderTotal(items: set<string>)
    ensures StrictTotalOn(TextLess, items)
  {
    forall x | x in items ensures !TextLess(x, x) { TextLessIrreflexive(x); }
    forall x, y | x in items && y in items ensures x == y || TextLess(x, y) || TextLess(y, x) { TextLessTotal(x, y); }
    forall x, y, z | x in items && y in items && z in items && TextLess(x, y) && TextLess(y, z) ensures TextLess(x, z) {
      TextLessTransitive(x, y, z);
    }
  }

  /** `sorted` over a set of strings. */
  ghost function SortedText(items: set<string>): (s: seq<string>)
    ensures Lists(TextLess, s, items)
  {
    TextOrderTotal(items);
    Sorted(TextLess, items)
  }

  method SortText(items: set<string>) returns (s: seq<string>)
    ensures s == SortedText(items)
    ensures Lists(TextLess, s, items)
  {
    TextOrderTotal(items);
    s := Sort(items, TextLess);
  }

  lemma SortedTextEmpty(items: set<string>)
    ensures SortedText(items) == [] <==> items == {}
  {
    TextOrderTotal(items);
    ListingLength(TextLess, SortedText(items), items);
  }

  /** `sorted` over a list of strings, repetitions kept. */
  function SortList(items: seq<string>): seq<string> {
    if items == [] then [] else Insert(TextLess, items[|items| - 1], SortList(items[..|items| - 1]))
  }

  lemma {:induction false} SortListOfDistinct(items: seq<string>)
    requires forall i, j | 0 <= i < j < |items| :: items[i] != items[j]
    ensures SortList(items) == SortedText(set x | x in items)
  {
    var all := set x | x in items;
    TextOrderTotal(all);
    if items != [] {
      var last, init := items[|items| - 1], items[..|items| - 1];
      SortListOfDistinct(init);
      var some := set x | x in init;
      assert all == some + {last} by { assert items == init + [last]; }
      InsertLists(TextLess, last, SortList(init), some);
    }
    ListingUnique(TextLess, SortList(items), SortedText(all), all);
  }
}
