/** The causal graph of a set of events: its cycles, heads and order. */
module Causal {
  import opened Prelude
  import opened Ordering
  import opened Events

  type Graph = map<string, Event>

  // Walks along parent edges, from a descendant towards its ancestors

  /** Every step leads from a known event to one of its parents; the last id may be unknown. */
  ghost predicate Walk(g: Graph, w: seq<string>) {
    w != [] && forall i | 0 <= i < |w| - 1 :: w[i] in g && w[i + 1] in g[w[i]].parents
  }

  ghost predicate WalkBetween(g: Graph, w: seq<string>, from: string, to: string) {
    Walk(g, w) && |w| >= 2 && w[0] == from && w[|w| - 1] == to
  }

  ghost predicate Ancestor(g: Graph, ancestor: string, descendant: string) {
    exists w :: WalkBetween(g, w, descendant, ancestor)
  }

  ghost predicate ClosedWalk(g: Graph, w: seq<string>) {
    w != [] && WalkBetween(g, w, w[0], w[0])
  }

  ghost predicate Acyclic(g: Graph) {
    forall w :: !ClosedWalk(g, w)
  }

  lemma ParentIsAncestor(g: Graph, p: string, d: string)
    requires d in g && p in g[d].parents
    ensures Ancestor(g, p, d)
  {
    assert WalkBetween(g, [d, p], d, p);
  }

  lemma AncestorTransitive(g: Graph, a: string, b: string, c: string)
    requires Ancestor(g, a, b) && Ancestor(g, b, c)
    ensures Ancestor(g, a, c)
  {
    var u :| WalkBetween(g, u, c, b);
    var v :| WalkBetween(g, v, b, a);
    assert WalkBetween(g, u + v[1..], c, a);
  }

  /** "Before" is irreflexive on an acyclic graph, hence (with transitivity) a strict order. */
  lemma AncestorIrreflexive(g: Graph, a: string)
    requires Acyclic(g)
    ensures !Ancestor(g, a, a)
  {
    forall w ensures !WalkBetween(g, w, a, a) {
      assert WalkBetween(g, w, a, a) ==> ClosedWalk(g, w);
    }
  }

  /** An ancestor is a direct parent of something on the way. */
  lemma AncestorHasChild(g: Graph, a: string, d: string) returns (child: string)
    requires Ancestor(g, a, d)
    ensures child in g && a in g[child].parents
    ensures child == d || Ancestor(g, child, d)
  {
    var w :| WalkBetween(g, w, d, a);
    child := w[|w| - 2];
    if |w| > 2 { assert WalkBetween(g, w[..|w| - 1], d, child); }
  }

  // Sets of events

  ghost predicate IdsUnique(events: set<Event>) {
    forall a, b | a in events && b in events && a.id == b.id :: a == b
  }

  ghost predicate SlotsUnique(events: set<Event>) {
    forall a, b | a in events && b in events && a.slot == b.slot :: a.id == b.id
  }

  ghost function Ids(events: set<Event>): set<string> {
    set e | e in events :: e.id
  }

  ghost function GraphOf(events: set<Event>): (g: Graph)
    requires IdsUnique(events)
    ensures g.Keys == Ids(events)
    ensures forall id | id in g :: g[id].id == id && g[id] in events
    ensures forall e | e in events :: e.id in g && g[e.id] == e
  {
    map id | id in Ids(events) :: (var e :| e in events && e.id == id; e)
  }

  ghost function ParentIds(events: set<Event>): set<string> {
    set e, p | e in events && p in e.parents :: p
  }

  ghost function MissingParents(events: set<Event>): set<string> {
    ParentIds(events) - Ids(events)
  }

  /** The first objection to the whole graph, in the order the validator raises them. */
  ghost function GraphCode(events: set<Event>): Option<Code> {
    if !IdsUnique(events) then Some(EventContentCollision)
    else if !SlotsUnique(events) then Some(ReplicaSequenceCollision)
    else if !Acyclic(GraphOf(events)) then Some(CausalCycle)
    else if MissingParents(events) != {} then Some(PendingDependencies)
    else None
  }

  datatype Validation = Validation(code: Option<Code>, missing: seq<string>, cycle: seq<string>)

  /** The graph laws an importer refuses to break: dangling parents are allowed. */
  ghost predicate Sound(events: set<Event>) {
    IdsUnique(events) && SlotsUnique(events) && Acyclic(GraphOf(events))
  }

  ghost function EventsIn(items: seq<Event>): set<Event> {
    set e | e in items
  }

  lemma EventsInPrefix(items: seq<Event>, i: nat)
    requires i < |items|
    ensures EventsIn(items[..i + 1]) == EventsIn(items[..i]) + {items[i]}
  {
    assert items[..i + 1] == items[..i] + [items[i]];
  }

  lemma EventsInLast(items: seq<Event>)
    requires items != []
    ensures EventsIn(items) == EventsIn(items[..|items| - 1]) + {items[|items| - 1]}
  {
    EventsInPrefix(items, |items| - 1);
    assert items[..|items|] == items;
  }

  /** `_event_map`: later events win, but only over identical content. */
  method EventMap(items: seq<Event>) returns (r: Result<Graph, Code>)
    ensures r.Err? <==> !IdsUnique(EventsIn(items))
    ensures r.Err? ==> r.error == EventContentCollision
    ensures r.Ok? ==> r.value == GraphOf(EventsIn(items))
  {
    var byId: Graph := map[];
    for i := 0 to |items|
      invariant forall k | 0 <= k < i :: items[k].id in byId && byId[items[k].id] == items[k]
      invariant forall id | id in byId :: byId[id] in items && byId[id].id == id
    {
      var event := items[i];
      if event.id in byId && CoreDigest(byId[event.id]) != CoreDigest(event) {
        assert byId[event.id] in EventsIn(items) && event in EventsIn(items);
        return Err(EventContentCollision);
      }
      byId := byId[event.id := event];
    }
    return Ok(byId);
  }

  // Depth-first search for a cycle

  /** Listing in which the known parents of every id come before it. */
  ghost predicate ParentsFirst(g: Graph, order: seq<string>) {
    forall i | 0 <= i < |order| :: order[i] in g && forall p | p in g[order[i]].parents && p in g :: p in order[..i]
  }

  /** Where an id first appears. */
  function IndexOf(s: seq<string>, x: string): (i: nat)
    requires x in s
    ensures i < |s| && s[i] == x && forall j | 0 <= j < i :: s[j] != x
  {
    if s[0] == x then 0 else 1 + IndexOf(s[1..], x)
  }

  lemma IndexInPrefix(s: seq<string>, x: string, n: nat)
    requires n <= |s| && x in s[..n]
    ensures x in s && IndexOf(s, x) < n
  {
    var k :| 0 <= k < n && s[..n][k] == x;
    assert s[k] == x;
  }

  lemma {:induction false} WalkDescends(g: Graph, order: seq<string>, w: seq<string>, j: nat)
    requires ParentsFirst(g, order) && (forall id | id in g :: id in order)
    requires Walk(g, w) && j < |w| && forall i | 0 <= i < |w| :: w[i] in g
    ensures IndexOf(order, w[j]) + j <= IndexOf(order, w[0])
    decreases j
  {
    if j > 0 {
      WalkDescends(g, order, w, j - 1);
      var k := IndexOf(order, w[j - 1]);
      assert order[k] == w[j - 1];
      IndexInPrefix(order, w[j], k);
    }
  }

  /** A graph that can be listed parents first has no cycle. */
  lemma ListedGraphIsAcyclic(g: Graph, order: seq<string>)
    requires ParentsFirst(g, order) && forall id | id in g :: id in order
    ensures Acyclic(g)
  {
    forall w ensures !ClosedWalk(g, w) {
      if ClosedWalk(g, w) {
        assert forall i | 0 <= i < |w| :: w[i] in g;
        WalkDescends(g, order, w, |w| - 1);
      }
    }
  }

  /** The ids being visited form one chain of parent edges, the innermost last. */
  ghost predicate OpenChain(g: Graph, visiting: set<string>, stack: seq<string>) {
    && visiting == (set x | x in stack) && visiting <= g.Keys
    && (forall i | 0 <= i < |stack| - 1 :: stack[i + 1] in g[stack[i]].parents)
  }

  /** The ids already left were left parents first. */
  ghost predicate LeftParentsFirst(g: Graph, visited: set<string>, finished: seq<string>) {
    visited == (set x | x in finished) && ParentsFirst(g, finished)
  }

  lemma EnterKeepsChain(g: Graph, visiting: set<string>, stack: seq<string>, id: string)
    requires OpenChain(g, visiting, stack) && id in g
    requires stack != [] ==> id in g[stack[|stack| - 1]].parents
    ensures OpenChain(g, visiting + {id}, stack + [id])
  {
  }

  lemma ReenteredIsCycle(g: Graph, visiting: set<string>, stack: seq<string>, id: string)
    requires OpenChain(g, visiting, stack) && id in visiting
    requires id in g[stack[|stack| - 1]].parents
    ensures id in stack && ClosedWalk(g, stack[IndexOf(stack, id)..] + [id])
  {
  }

  lemma LeaveKeepsOrder(g: Graph, visited: set<string>, finished: seq<string>, id: string)
    requires LeftParentsFirst(g, visited, finished) && id in g
    requires forall p | p in g[id].parents && p in g :: p in visited
    ensures LeftParentsFirst(g, visited + {id}, finished + [id])
  {
    var next := finished + [id];
    forall i | 0 <= i < |next| ensures next[i] in g && forall p | p in g[next[i]].parents && p in g :: p in next[..i] {
      assert next[..i] == finished[..i];
      if i == |finished| { assert finished[..i] == finished; }
    }
  }

  /** The state shared by the recursive visits of `_cycle`. */
  class CycleFinder {
    const g: Graph
    var visiting: set<string>
    var visited: set<string>
    var stack: seq<string>
    ghost var finished: seq<string>  // the visited ids, in the order they were left

    constructor (g: Graph)
      ensures this.g == g && Valid() && stack == [] && visited == {}
    {
      this.g := g;
      visiting, visited, stack, finished := {}, {}, [], [];
    }

    ghost predicate Valid()
      reads this
    {
      OpenChain(g, visiting, stack) && LeftParentsFirst(g, visited, finished)
    }

    method Visit(id: string) returns (found: seq<string>)
      requires Valid() && id in g
      requires stack != [] ==> stack[|stack| - 1] in g && id in g[stack[|stack| - 1]].parents
      modifies this
      ensures found == [] ==> Valid() && stack == old(stack) && visiting == old(visiting)
      ensures found == [] ==> id in visited && old(visited) <= visited
      ensures found != [] ==> ClosedWalk(g, found)
      decreases g.Keys - visiting - visited
    {
      hide OpenChain, LeftParentsFirst, ClosedWalk;
      if id in visited { return []; }
      if id in visiting {
        OpenStackNonEmpty(g, visiting, stack, id);
        ReenteredIsCycle(g, visiting, stack, id);
        return stack[IndexOf(stack, id)..] + [id];
      }
      ghost var chain := stack;
      EnterKeepsChain(g, visiting, stack, id);
      visiting, stack := visiting + {id}, stack + [id];
      var parents := g[id].parents;
      for i := 0 to |parents|
        invariant Valid() && stack == chain + [id] && visiting == old(visiting) + {id} && old(visited) <= visited
        invariant forall k | 0 <= k < i && parents[k] in g :: parents[k] in visited
      {
        if parents[i] in g {
          assert id in g.Keys - old(visiting) - old(visited) && id !in g.Keys - visiting - visited;
          found := Visit(parents[i]);
          if found != [] { return; }
        }
      }
      LeaveKeepsOrder(g, visited, finished, id);
      stack := stack[..|stack| - 1];
      assert stack == chain;
      visiting, visited, finished := visiting - {id}, visited + {id}, finished + [id];
      assert visiting == old(visiting);
      return [];
    }
  }

  lemma OpenStackNonEmpty(g: Graph, visiting: set<string>, stack: seq<string>, id: string)
    requires OpenChain(g, visiting, stack) && id in visiting
    ensures stack != []
  {
  }

  lemma AllLeftIsAcyclic(g: Graph, visited: set<string>, finished: seq<string>)
    requires LeftParentsFirst(g, visited, finished) && g.Keys <= visited
    ensures Acyclic(g)
  {
    ListedGraphIsAcyclic(g, finished);
  }

  /** `_cycle`: nothing exactly when the graph is acyclic, otherwise a closed walk. */
  method Cycle(g: Graph) returns (cycle: seq<string>)
    ensures cycle == [] <==> Acyclic(g)
    ensures cycle != [] ==> ClosedWalk(g, cycle)
  {
    hide OpenChain, LeftParentsFirst, ClosedWalk;
    var finder := new CycleFinder(g);
    var ids := SortText(g.Keys);
    for i := 0 to |ids|
      invariant finder.Valid() && finder.stack == [] && finder.g == g
      invariant forall k | 0 <= k < i :: ids[k] in finder.visited
    {
      assert ids[i] in ids;
      cycle := finder.Visit(ids[i]);
      if cycle != [] { return; }
    }
    assert forall id | id in g :: id in ids;
    AllLeftIsAcyclic(g, finder.visited, finder.finished);
    return [];
  }

  method Missing(items: seq<Event>, known: set<string>) returns (missing: set<string>)
    requires known == Ids(EventsIn(items))
    ensures missing == MissingParents(EventsIn(items))
  {
    missing := {};
    for i := 0 to |items|
      invariant missing == ParentIds(EventsIn(items[..i])) - known
    {
      assert EventsIn(items[..i + 1]) == EventsIn(items[..i]) + {items[i]};
      missing := missing + (set p | p in items[i].parents && p !in known);
      assert ParentIds(EventsIn(items[..i + 1])) == ParentIds(EventsIn(items[..i])) + (set p | p in items[i].parents);
    }
    assert items[..|items|] == items;
  }

  /** The loop over `sequence_owner`: does any slot belong to two ids? */
  method SlotCollision(items: seq<Event>) returns (found: bool)
    ensures found <==> !SlotsUnique(EventsIn(items))
  {
    var owner: map<Slot, string> := map[];
    for i := 0 to |items|
      invariant forall k | 0 <= k < i :: items[k].slot in owner && owner[items[k].slot] == items[k].id
      invariant forall slot | slot in owner :: exists k | 0 <= k < i ::
        items[k].slot == slot && items[k].id == owner[slot]
    {
      var event := items[i];
      if event.slot in owner && owner[event.slot] != event.id {
        var k :| 0 <= k < i && items[k].slot == event.slot && items[k].id == owner[event.slot];
        assert items[k] in EventsIn(items) && event in EventsIn(items);
        return true;
      }
      owner := owner[event.slot := event.id];
    }
    return false;
  }

  /** `validate_graph`: content collision, then slot collision, then cycle, then missing parents. */
  method ValidateGraph(items: seq<Event>) returns (v: Validation)
    ensures v.code == GraphCode(EventsIn(items))
    ensures v.missing == if v.code == Some(PendingDependencies) then SortedText(MissingParents(EventsIn(items))) else []
    ensures if v.code == Some(CausalCycle) then ClosedWalk(GraphOf(EventsIn(items)), v.cycle) else v.cycle == []
  {
    var byId := EventMap(items);
    if byId.Err? { return Validation(Some(byId.error), [], []); }
    var collision := SlotCollision(items);
    if collision { return Validation(Some(ReplicaSequenceCollision), [], []); }
    var cycle := Cycle(byId.value);
    if cycle != [] { return Validation(Some(CausalCycle), [], cycle); }
    var unknown := Missing(items, byId.value.Keys);
    if unknown != {} {
      var missing := SortText(unknown);
      return Validation(Some(PendingDependencies), missing, []);
    }
    return Validation(None, [], []);
  }

  // Heads

  ghost function HeadIds(events: set<Event>): set<string> {
    Ids(events) - ParentIds(events)
  }

  /** The ids of the listed events that are nobody's parent, in list order. */
  function HeadList(items: seq<Event>, parents: set<string>): seq<string> {
    if items == [] then []
    else
      var init, last := items[..|items| - 1], items[|items| - 1];
      HeadList(init, parents) + if last.id in parents then [] else [last.id]
  }

  /** `derive_heads`. */
  method DeriveHeads(items: seq<Event>) returns (r: Result<seq<string>, Code>)
    ensures r == match GraphCode(EventsIn(items))
                 case Some(code) => Err(code)
                 case None => Ok(SortList(HeadList(items, ParentIds(EventsIn(items)))))
  {
    var v := ValidateGraph(items);
    if v.code.Some? { return Err(v.code.value); }
    var parents := set e, p | e in items && p in e.parents :: p;
    var heads: seq<string> := [];
    for i := 0 to |items|
      invariant heads == HeadList(items[..i], parents)
    {
      assert items[..i + 1][..i] == items[..i];
      if items[i].id !in parents { heads := heads + [items[i].id]; }
    }
    assert items[..|items|] == items && parents == ParentIds(EventsIn(items));
    return Ok(SortList(heads));
  }

  /** Over events listed once each the heads are the ids that are nobody's parent, once each. */
  lemma HeadsOfDistinctEvents(items: seq<Event>)
    requires forall i, j | 0 <= i < j < |items| :: items[i].id != items[j].id
    ensures SortList(HeadList(items, ParentIds(EventsIn(items)))) == SortedText(HeadIds(EventsIn(items)))
  {
    var parents := ParentIds(EventsIn(items));
    HeadListDistinct(items, parents);
    assert (set x | x in HeadList(items, parents)) == HeadIds(EventsIn(items));
    SortListOfDistinct(HeadList(items, parents));
  }

  lemma {:induction false} HeadListDistinct(items: seq<Event>, parents: set<string>)
    requires forall i, j | 0 <= i < j < |items| :: items[i].id != items[j].id
    ensures var heads := HeadList(items, parents);
      && (forall i, j | 0 <= i < j < |heads| :: heads[i] != heads[j])
      && (forall x :: x in heads <==> x !in parents && exists k | 0 <= k < |items| :: items[k].id == x)
  {
    if items != [] {
      var init, last := items[..|items| - 1], items[|items| - 1];
      HeadListDistinct(init, parents);
      var heads := HeadList(items, parents);
      forall x ensures x in heads <==> x !in parents && exists k | 0 <= k < |items| :: items[k].id == x {
        if k :| 0 <= k < |items| && items[k].id == x {
          if k < |init| { assert init[k].id == x; }
        }
        if k :| 0 <= k < |init| && init[k].id == x { assert items[k].id == x; }
      }
      assert forall k | 0 <= k < |init| :: init[k].id != last.id;
    }
  }

  /** No head is an ancestor of anything, so the heads are pairwise unordered. */
  lemma HeadsAntichain(events: set<Event>, head: string, other: string)
    requires IdsUnique(events) && head in HeadIds(events)
    ensures !Ancestor(GraphOf(events), head, other)
  {
    if Ancestor(GraphOf(events), head, other) {
      var child := AncestorHasChild(GraphOf(events), head, other);
    }
  }

  ghost function Descendants(g: Graph, id: string): set<string> {
    set d | d in g && Ancestor(g, id, d)
  }

  /** Every event of an acyclic graph is a head or an ancestor of one. */
  lemma {:induction false} EveryEventUnderAHead(events: set<Event>, id: string) returns (head: string)
    requires IdsUnique(events) && Acyclic(GraphOf(events)) && id in Ids(events)
    ensures head in HeadIds(events)
    ensures head == id || Ancestor(GraphOf(events), id, head)
    decreases Descendants(GraphOf(events), id)
  {
    var g := GraphOf(events);
    if id !in ParentIds(events) { return id; }
    var child :| child in events && id in child.parents;
    ParentIsAncestor(g, id, child.id);
    AncestorIrreflexive(g, child.id);
    forall d | d in Descendants(g, child.id) ensures d in Descendants(g, id) {
      AncestorTransitive(g, id, child.id, d);
    }
    assert child.id in Descendants(g, id);
    head := EveryEventUnderAHead(events, child.id);
    if head != child.id { AncestorTransitive(g, id, child.id, head); }
  }

  lemma HeadsNonEmpty(events: set<Event>)
    requires IdsUnique(events) && Acyclic(GraphOf(events)) && events != {}
    ensures HeadIds(events) != {}
  {
    var e :| e in events;
    var head := EveryEventUnderAHead(events, e.id);
  }

  // Ancestry and the relation between two events

  /** `_is_ancestor`: the worklist decides the transitive closure of the parent edges. */
  method IsAncestor(g: Graph, ancestor: string, descendant: string) returns (found: bool)
    requires descendant in g
    ensures found <==> Ancestor(g, ancestor, descendant)
  {
    var pending := g[descendant].parents;
    var visited: set<string> := {};
    ghost var seen: set<string> := {};
    forall p | p in pending ensures Ancestor(g, p, descendant) { ParentIsAncestor(g, p, descendant); }
    while pending != []
      invariant forall p | p in pending :: Ancestor(g, p, descendant)
      invariant ancestor !in seen && visited == seen * g.Keys
      invariant forall p | p in g[descendant].parents :: p in seen || p in pending
      invariant forall x, p | x in seen && x in g && p in g[x].parents :: p in seen || p in pending
      decreases g.Keys - visited, |pending|
    {
      var current := pending[|pending| - 1];
      ghost var before := pending;
      assert current in before;
      pending := pending[..|pending| - 1];
      assert before == pending + [current];
      if current == ancestor { return true; }
      if current in visited || current !in g {
        seen := seen + {current};
        continue;
      }
      forall p | p in g[current].parents ensures Ancestor(g, p, descendant) {
        ParentIsAncestor(g, p, current);
        AncestorTransitive(g, p, current, descendant);
      }
      visited, seen := visited + {current}, seen + {current};
      pending := pending + g[current].parents;
    }
    SeenHoldsAllAncestors(g, seen, ancestor, descendant);
    return false;
  }

  /** A set holding the parents of `d` and closed under parents holds every ancestor of `d`. */
  lemma SeenHoldsAllAncestors(g: Graph, seen: set<string>, a: string, d: string)
    requires d in g && forall p | p in g[d].parents :: p in seen
    requires forall x, p | x in seen && x in g && p in g[x].parents :: p in seen
    ensures Ancestor(g, a, d) ==> a in seen
  {
    if Ancestor(g, a, d) {
      var w :| WalkBetween(g, w, d, a);
      for i := 1 to |w|
        invariant forall k | 1 <= k < i :: w[k] in seen
      {
        assert w[i - 1] in g && w[i - 1 + 1] in g[w[i - 1]].parents;
      }
    }
  }

  datatype Relation = Same | Before | After | Concurrent

  ghost function RelationOf(g: Graph, left: string, right: string): Relation {
    if left == right then Same
    else if Ancestor(g, left, right) then Before
    else if Ancestor(g, right, left) then After
    else Concurrent
  }

  ghost function Classified(events: set<Event>, left: string, right: string): Result<Relation, Code> {
    if GraphCode(events).Some? then Err(GraphCode(events).value)
    else if left !in Ids(events) || right !in Ids(events) then Err(EventNotFound)
    else Ok(RelationOf(GraphOf(events), left, right))
  }

  method ClassifyRelation(items: seq<Event>, left: string, right: string) returns (r: Result<Relation, Code>)
    ensures r == Classified(EventsIn(items), left, right)
  {
    var v := ValidateGraph(items);
    if v.code.Some? { return Err(v.code.value); }
    var byId := EventMap(items);
    var g := byId.value;
    if left !in g || right !in g { return Err(EventNotFound); }
    if left == right { return Ok(Same); }
    var before := IsAncestor(g, left, right);
    if before { return Ok(Before); }
    var after := IsAncestor(g, right, left);
    return Ok(if after then After else Concurrent);
  }

  function Converse(r: Relation): Relation {
    match r
    case Before => After
    case After => Before
    case _ => r
  }

  /** Swapping the arguments swaps before and after, errors included. */
  lemma ClassifiedConverse(events: set<Event>, left: string, right: string)
    ensures Classified(events, right, left) ==
            match Classified(events, left, right)
            case Err(code) => Err(code)
            case Ok(r) => Ok(Converse(r))
  {
    if GraphCode(events).None? && Ancestor(GraphOf(events), left, right) && Ancestor(GraphOf(events), right, left) {
      AncestorTransitive(GraphOf(events), left, right, left);
      AncestorIrreflexive(GraphOf(events), left);
    }
  }

  /** An id is reported as not found exactly on a valid graph that lacks it. */
  lemma UnknownIsNotFound(events: set<Event>, left: string, right: string)
    ensures Classified(events, left, right) == Err(EventNotFound) <==>
            GraphCode(events).None? && !exists a, b :: a in events && b in events && a.id == left && b.id == right
  {
  }

  /** On a valid graph "before" is exactly ancestry, and it composes. */
  lemma BeforeIsAStrictOrder(events: set<Event>, a: string, b: string, c: string)
    requires GraphCode(events).None? && {a, b, c} <= Ids(events)
    ensures Classified(events, a, b) == Ok(Before) <==> Ancestor(GraphOf(events), a, b)
    ensures Classified(events, a, b) == Ok(Before) && Classified(events, b, c) == Ok(Before)
            ==> Classified(events, a, c) == Ok(Before)
    ensures Classified(events, a, a) == Ok(Same)
  {
    var g := GraphOf(events);
    AncestorIrreflexive(g, a);
    if Ancestor(g, a, b) && Ancestor(g, b, c) { AncestorTransitive(g, a, b, c); }
  }
}
