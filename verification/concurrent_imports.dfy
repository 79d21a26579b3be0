/** Imports at the same time: each checks the graph before it writes, and no lock holds in between. */
module ConcurrentImports {
  import opened Prelude
  import opened Ordering
  import opened Events
  import opened SubmitProtocol
  import opened SubmitRuns
  import opened Causal
  import opened FederationStores
  import opened Importer
  import opened SequenceOrphans

  /** The graph check of an import that finds these files. */
  ghost predicate Passes(f: Files, e: Event) {
    !Refusing(GraphCode(Stored(f) + {e}))
  }

  /** Every submission that begins has just passed its graph check. */
  ghost predicate ChecksFirst(w: World, actions: seq<Action>)
    decreases |actions|
  {
    actions != [] ==>
      && (actions[0].Begin? ==> Passes(w.files, actions[0].submission.event))
      && ChecksFirst(Apply(w, actions[0]), actions[1..])
  }

  /** One of two submissions, each with its receiver's configuration. */
  datatype Pair = Pair(first: Submission, firstConfig: Config, second: Submission, secondConfig: Config)

  /** Only these two are begun, by however many callers and however often; anything may crash. */
  predicate Only(p: Pair, a: Action) {
    a.Begin? ==>
      || (a.submission == p.first && a.config == p.firstConfig)
      || (a.submission == p.second && a.config == p.secondConfig)
  }

  predicate Race(p: Pair, actions: seq<Action>) {
    forall i | 0 <= i < |actions| :: Only(p, actions[i])
  }

  ghost predicate Cyclic(events: set<Event>) {
    IdsUnique(events) && SlotsUnique(events) && !Acyclic(GraphOf(events))
  }

  ghost function Union(f: Files, p: Pair): set<Event> {
    Stored(f) + {p.first.event, p.second.event}
  }

  predicate Admitted(config: Config, s: Submission) {
    s.delivery != "" && Objection(config, s.event, s.payload).None?
  }

  /** What has been checked and admitted of a submission that has begun. */
  ghost predicate Begun(f: Files, p: Pair, s: Submission) {
    && Sound(Stored(f) + {s.event})
    && ((s == p.first && Admitted(p.firstConfig, s)) || (s == p.second && Admitted(p.secondConfig, s)))
  }

  ghost predicate EventBegun(f: Files, p: Pair, e: Event) {
    (e == p.first.event && Begun(f, p, p.first)) || (e == p.second.event && Begun(f, p, p.second))
  }

  ghost predicate CallFits(f: Files, p: Pair, c: Call) {
    c.pc.Done? || Begun(f, p, c.submission)
  }

  /** What every state of a race says about the files `f` it started from. */
  ghost predicate RaceInv(f: Files, p: Pair, w: World) {
    && WorldInv(w) && Extends(f, w.files)
    && Stored(f) <= Stored(w.files) <= Union(f, p)
    && (forall c | c in w.calls :: CallFits(f, p, w.calls[c]))
    && (forall e | e in Stored(w.files) && e !in Stored(f) :: EventBegun(f, p, e))
  }

  lemma StartInv(f: Files, p: Pair)
    requires FilesInv(f)
    ensures RaceInv(f, p, World(f, map[]))
  {
    hide FilesInv, Stored, Extends;
    ExtendsReflexive(f);
  }

  lemma BeginKeepsRace(f: Files, p: Pair, w: World, a: Action)
    requires RaceInv(f, p, w) && Sound(Stored(f)) && a.Begin? && Only(p, a) && Passes(w.files, a.submission.event)
    ensures RaceInv(f, p, Apply(w, a))
  {
    hide WorldInv, Extends, Stored, GraphCode, Sound, Objection;
    ApplyKeepsInv(w, a);
    if a.caller !in w.calls && Entry(a.config, a.submission) == CheckIndex {
      assert Admitted(a.config, a.submission);
      UnrefusedIsSound(Stored(w.files) + {a.submission.event});
      SoundBelow(Stored(f) + {a.submission.event}, Stored(w.files) + {a.submission.event});
      assert Begun(f, p, a.submission);
    }
  }

  lemma MoveKeepsRace(f: Files, p: Pair, w: World, c: nat)
    requires RaceInv(f, p, w) && Running(w, c)
    ensures RaceInv(f, p, Apply(w, Move(c)))
  {
    hide WorldInv, Extends, Begun, Stored, Step;
    var s, v := w.calls[c].submission, Apply(w, Move(c));
    MoveStores(w, c);
    ExtendsTransitive(f, w.files, v.files);
    BegunIsOne(f, p, s);
  }

  /** A move stores at most the event of its own submission. */
  lemma MoveStores(w: World, c: nat)
    requires WorldInv(w) && Running(w, c)
    ensures var s, v := w.calls[c].submission, Apply(w, Move(c));
      && WorldInv(v) && Extends(w.files, v.files)
      && Stored(w.files) <= Stored(v.files) <= Stored(w.files) + {s.event}
      && v.calls.Keys == w.calls.Keys && v.calls[c].submission == s
      && forall d | d in w.calls && d != c :: v.calls[d] == w.calls[d]
  {
    hide FilesInv, WorldInv, Extends, Step, Stored;
    var s, pc, v := w.calls[c].submission, w.calls[c].pc, Apply(w, Move(c));
    InvHasFiles(w);
    ApplyKeepsInv(w, Move(c));
    InvHasFiles(v);
    StepIndex(w.files, s, pc);
    StepExtends(w.files, s, pc);
    IndexGrowth(w.files, v.files, s.event);
  }

  lemma InvHasFiles(w: World)
    requires WorldInv(w)
    ensures FilesInv(w.files)
  {
  }

  lemma BegunIsOne(f: Files, p: Pair, s: Submission)
    requires Begun(f, p, s)
    ensures s.event in {p.first.event, p.second.event} && EventBegun(f, p, s.event)
  {
  }

  lemma ActionKeepsRace(f: Files, p: Pair, w: World, a: Action)
    requires RaceInv(f, p, w) && Sound(Stored(f)) && Only(p, a)
    requires a.Begin? ==> Passes(w.files, a.submission.event)
    ensures RaceInv(f, p, Apply(w, a))
  {
    hide WorldInv, Extends, Stored, Sound, CallFits, Begun, Passes, Step;
    match a
    case Begin(_, _, _) => BeginKeepsRace(f, p, w, a);
    case Move(c) => if Running(w, c) { MoveKeepsRace(f, p, w, c); }
    case Crash(c) => ApplyKeepsInv(w, a);
  }

  lemma {:induction false} RunKeepsRace(f: Files, p: Pair, w: World, actions: seq<Action>)
    requires RaceInv(f, p, w) && Sound(Stored(f)) && Race(p, actions) && ChecksFirst(w, actions)
    ensures RaceInv(f, p, Run(w, actions))
    decreases |actions|
  {
    hide RaceInv, Sound, Passes, Apply;
    if actions != [] {
      ActionKeepsRace(f, p, w, actions[0]);
      RunKeepsRace(f, p, Apply(w, actions[0]), actions[1..]);
    }
  }

  // When a cycle is left

  lemma StoredIsUnique(w: World)
    requires WorldInv(w)
    ensures IdsUnique(Stored(w.files)) && SlotsUnique(Stored(w.files))
    ensures Cyclic(Stored(w.files)) <==> !Sound(Stored(w.files))
  {
    StoredIsWhatGetEventReads(w.files);
  }

  /** Between a sound set and its union with two events, only the union itself can be unsound. */
  lemma OnlyUnionIsUnsound(base: set<Event>, now: set<Event>, x: Event, y: Event)
    requires Sound(base) && base <= now <= base + {x, y} && !Sound(now)
    requires x in now && x !in base ==> Sound(base + {x})
    requires y in now && y !in base ==> Sound(base + {y})
    ensures now == base + {x, y} && x !in base && y !in base && x != y
  {
    hide Sound;
    assert now != base && now != base + {x} && now != base + {y} by {
      assert x in base ==> base + {x} == base;
      assert y in base ==> base + {y} == base;
    }
    assert x !in now ==> now == base || now == base + {y};
    assert y !in now ==> now == base || now == base + {x};
    assert x in base ==> base + {x, y} == base + {y};
    assert y in base ==> base + {x, y} == base + {x};
    assert x == y ==> base + {x, y} == base + {x};
  }

  lemma BegunIsSound(f: Files, p: Pair, e: Event)
    requires EventBegun(f, p, e)
    ensures Sound(Stored(f) + {e})
    ensures e == p.first.event || e == p.second.event
    ensures p.first.event != p.second.event ==> Begun(f, p, if e == p.first.event then p.first else p.second)
  {
    hide Sound, Stored, Admitted;
  }

  /** A cycle is left only by both, and only if all their events together hold it. */
  lemma CycleNeedsBoth(f: Files, p: Pair, w: World)
    requires RaceInv(f, p, w) && Sound(Stored(f)) && Cyclic(Stored(w.files))
    ensures Stored(w.files) == Union(f, p)
    ensures p.first.event !in Stored(f) && p.second.event !in Stored(f) && p.first.event != p.second.event
    ensures Begun(f, p, p.first) && Begun(f, p, p.second)
  {
    hide WorldInv, Extends, Stored, CallFits, Begun, EventBegun, Sound, Cyclic;
    StoredIsUnique(w);
    var x, y, base, now := p.first.event, p.second.event, Stored(f), Stored(w.files);
    if x in now && x !in base { BegunIsSound(f, p, x); }
    if y in now && y !in base { BegunIsSound(f, p, y); }
    OnlyUnionIsUnsound(base, now, x, y);
  }

  /** Each time this submission began, that event was not stored yet. */
  ghost predicate BeganBefore(w: World, actions: seq<Action>, s: Submission, e: Event)
    decreases |actions|
  {
    actions != [] ==>
      && (actions[0].Begin? && actions[0].submission == s ==> e !in Stored(w.files))
      && BeganBefore(Apply(w, actions[0]), actions[1..], s, e)
  }

  /** Where all events together are unsound, no import of one passes its check once the other is stored. */
  lemma {:induction false} PassedBefore(f: Files, p: Pair, w: World, actions: seq<Action>, s: Submission, e: Event)
    requires RaceInv(f, p, w) && Sound(Stored(f)) && Race(p, actions) && ChecksFirst(w, actions)
    requires Union(f, p) == Stored(f) + {s.event, e} && !Sound(Union(f, p))
    ensures BeganBefore(w, actions, s, e)
    decreases |actions|
  {
    hide RaceInv, Sound, Apply, Stored, GraphCode;
    if actions != [] {
      ActionKeepsRace(f, p, w, actions[0]);
      PassedBefore(f, p, Apply(w, actions[0]), actions[1..], s, e);
      if actions[0].Begin? && actions[0].submission == s && e in Stored(w.files) {
        StoredBetween(f, p, w);
        assert Stored(w.files) + {s.event} == Union(f, p);
        UnrefusedIsSound(Union(f, p));
      }
    }
  }

  lemma StoredBetween(f: Files, p: Pair, w: World)
    requires RaceInv(f, p, w)
    ensures Stored(f) <= Stored(w.files) <= Union(f, p)
  {
  }

  /** What every race of imports leaves: a cycle exactly if both events were stored, all events together hold one,
    and then each import had passed its check before the other's event was stored. */
  lemma CycleIffBothPassed(f: Files, p: Pair, actions: seq<Action>)
    requires FilesInv(f) && Sound(Stored(f)) && Race(p, actions) && ChecksFirst(World(f, map[]), actions)
    ensures var start, end := World(f, map[]), Run(World(f, map[]), actions).files;
      && (Cyclic(Stored(end)) <==> {p.first.event, p.second.event} <= Stored(end) && Cyclic(Union(f, p)))
      && (Cyclic(Stored(end)) ==>
          BeganBefore(start, actions, p.first, p.second.event) && BeganBefore(start, actions, p.second, p.first.event))
  {
    hide FilesInv, RaceInv, Sound, Stored, Cyclic, BeganBefore;
    var start := World(f, map[]);
    StartInv(f, p);
    RunKeepsRace(f, p, start, actions);
    var w := Run(start, actions);
    StoredBetween(f, p, w);
    if Cyclic(Stored(w.files)) {
      CycleNeedsBoth(f, p, w);
      CyclicIsUnsound(Union(f, p));
      PassedBefore(f, p, start, actions, p.first, p.second.event);
      PassedBefore(f, p, start, actions, p.second, p.first.event);
    }
    if {p.first.event, p.second.event} <= Stored(w.files) { assert Stored(w.files) == Union(f, p); }
  }

  lemma CyclicIsUnsound(events: set<Event>)
    ensures Cyclic(events) ==> !Sound(events)
  {
  }

  // When a race can leave one

  /** What is stored in the end had no rival in the beginning. */
  lemma StoredHadNoRival(f: Files, g: Files, s: Submission)
    requires FilesInv(f) && FilesInv(g) && Extends(f, g) && s.event in Stored(g)
    requires Sha256(s.payload) == s.event.payloadSha
    ensures NoRival(f, s)
    ensures s.event.payloadRef in g.payloads && g.payloads[s.event.payloadRef] == s.payload
  {
    StoredIsWhatGetEventReads(g);
    assert Indexed(g, s.event);
    hide FilesInv, GetEvent;
  }

  predicate PayloadsAgree(p: Pair) {
    p.first.event.payloadRef == p.second.event.payloadRef ==> p.first.payload == p.second.payload
  }

  /** Each passes its check alone, is admitted and has no rival; their payload files do not clash; and together with
    what is stored they close a cycle. */
  ghost predicate CanRace(f: Files, p: Pair) {
    && Begun(f, p, p.first) && Begun(f, p, p.second)
    && NoRival(f, p.first) && NoRival(f, p.second) && PayloadsAgree(p)
    && Cyclic(Union(f, p))
  }

  /** A race of these two from these files that leaves a cycle. */
  ghost predicate LeavesCycle(f: Files, p: Pair, actions: seq<Action>) {
    && Race(p, actions) && ChecksFirst(World(f, map[]), actions)
    && Cyclic(Stored(Run(World(f, map[]), actions).files))
  }

  lemma CycleNeedsRace(f: Files, p: Pair, actions: seq<Action>)
    requires FilesInv(f) && Sound(Stored(f)) && LeavesCycle(f, p, actions)
    ensures CanRace(f, p)
  {
    hide FilesInv, RaceInv, Sound, Stored, Cyclic, NoRival, Begun, Extends;
    var start := World(f, map[]);
    StartInv(f, p);
    RunKeepsRace(f, p, start, actions);
    var w := Run(start, actions);
    CycleNeedsBoth(f, p, w);
    EndFiles(f, p, w);
    BegunHash(f, p, p.first);
    BegunHash(f, p, p.second);
    StoredHadNoRival(f, w.files, p.first);
    StoredHadNoRival(f, w.files, p.second);
  }

  lemma EndFiles(f: Files, p: Pair, w: World)
    requires RaceInv(f, p, w)
    ensures FilesInv(w.files) && Extends(f, w.files)
  {
  }

  lemma BegunHash(f: Files, p: Pair, s: Submission)
    requires Begun(f, p, s)
    ensures Sha256(s.payload) == s.event.payloadSha
  {
    hide Objection, Sound;
    var config := if s == p.first && Admitted(p.firstConfig, s) then p.firstConfig else p.secondConfig;
    AdmittedHash(config, s.event, s.payload);
  }

  /** Moves that take a call to its end. */
  lemma {:induction false} MovesToEnd(w: World, c: nat) returns (moves: seq<Action>)
    requires c in w.calls
    ensures forall i | 0 <= i < |moves| :: moves[i] == Move(c)
    ensures var s, pc := w.calls[c].submission, w.calls[c].pc;
      Run(w, moves) == World(Finish(w.files, s, pc).0, w.calls[c := Call(s, Done(Finish(w.files, s, pc).1))])
    decreases Remaining(w.calls[c].pc)
  {
    hide Step;
    var s, pc := w.calls[c].submission, w.calls[c].pc;
    if pc.Done? {
      moves := [];
      assert w.calls[c := Call(s, pc)] == w.calls;
    } else {
      var next := Apply(w, Move(c));
      StepLowers(w.files, s, pc);
      var rest := MovesToEnd(next, c);
      moves := [Move(c)] + rest;
      assert moves[1..] == rest;
      var end := Finish(w.files, s, pc);
      Unfold(w.files, s, pc);
      assert next.calls[c := Call(s, Done(end.1))] == w.calls[c := Call(s, Done(end.1))];
    }
  }

  predicate AllMoves(actions: seq<Action>) {
    forall i | 0 <= i < |actions| :: actions[i].Move?
  }

  lemma {:induction false} MovesNeedNoCheck(w: World, actions: seq<Action>)
    requires AllMoves(actions)
    ensures ChecksFirst(w, actions)
    decreases |actions|
  {
    hide Apply, Passes;
    if actions != [] { MovesNeedNoCheck(Apply(w, actions[0]), actions[1..]); }
  }

  function BothBegun(f: Files, p: Pair): World {
    World(f, map[0 := Call(p.first, CheckIndex), 1 := Call(p.second, CheckIndex)])
  }

  /** What lets both begin at once, and finish one after the other. */
  lemma BothFit(f: Files, p: Pair)
    requires CanRace(f, p)
    ensures Passes(f, p.first.event) && Passes(f, p.second.event)
    ensures Admitted(p.firstConfig, p.first) && Admitted(p.secondConfig, p.second)
    ensures Compatible(p.first, p.second)
  {
    hide Stored, NoRival, Objection, Sound, Cyclic, GraphCode, PayloadsAgree;
    var x, y := p.first.event, p.second.event;
    CyclicIsUnsound(Union(f, p));
    assert x == y ==> Union(f, p) == Stored(f) + {x};
    SoundIsUnrefused(Stored(f) + {x});
    SoundIsUnrefused(Stored(f) + {y});
    DistinctAreCompatible(f, p);
  }

  lemma DistinctAreCompatible(f: Files, p: Pair)
    requires Cyclic(Union(f, p)) && PayloadsAgree(p)
    ensures Compatible(p.first, p.second)
  {
    hide Stored, Acyclic;
    var x, y := p.first.event, p.second.event;
    assert x in Union(f, p) && y in Union(f, p);
  }

  lemma BeginTwo(f: Files, p: Pair)
    requires Admitted(p.firstConfig, p.first) && Admitted(p.secondConfig, p.second)
    ensures Run(World(f, map[]), [Begin(0, p.firstConfig, p.first), Begin(1, p.secondConfig, p.second)])
            == BothBegun(f, p)
  {
    hide Objection;
    var a, b := Begin(0, p.firstConfig, p.first), Begin(1, p.secondConfig, p.second);
    var start := World(f, map[]);
    assert [a, b][1..] == [b] && [b][1..] == [];
    assert Apply(Apply(start, a), b) == BothBegun(f, p);
    assert Run(start, [a, b]) == Run(Apply(start, a), [b]) == Run(Apply(Apply(start, a), b), []);
  }

  lemma ChecksOfTwo(f: Files, p: Pair, moves: seq<Action>)
    requires Passes(f, p.first.event) && Passes(f, p.second.event) && AllMoves(moves)
    ensures var begin := [Begin(0, p.firstConfig, p.first), Begin(1, p.secondConfig, p.second)];
      ChecksFirst(World(f, map[]), begin + moves) && Race(p, begin + moves)
  {
    hide Passes, Objection;
    var a, b := Begin(0, p.firstConfig, p.first), Begin(1, p.secondConfig, p.second);
    var start := World(f, map[]);
    var all := [a, b] + moves;
    assert all[0] == a && all[1..] == [b] + moves && ([b] + moves)[0] == b && ([b] + moves)[1..] == moves;
    assert Apply(start, a).files == f;
    MovesNeedNoCheck(Apply(Apply(start, a), b), moves);
    assert ChecksFirst(Apply(start, a), [b] + moves);
  }

  /** An admitted submission without rival stores its event when left to itself. */
  lemma Stores(config: Config, f: Files, s: Submission)
    requires FilesInv(f) && NoRival(f, s) && Admitted(config, s)
    ensures var g := Finish(f, s, CheckIndex).0; FilesInv(g) && Stored(g) == Stored(f) + {s.event}
  {
    hide FilesInv, NoRival, Objection, Finish, GetEvent, Extends, Indexed;
    SucceedsIffUnrivalled(config, f, s);
    SubmitEffect(config, f, s);
  }

  /** Running one of two compatible submissions leaves the other without rival. */
  lemma OtherStaysUnrivalled(f: Files, p: Pair, moves: seq<Action>)
    requires NoRival(f, p.second) && Compatible(p.first, p.second) && AllMoves(moves)
    ensures NoRival(Run(BothBegun(f, p), moves).files, p.second)
  {
    hide NoRival;
    CompatibleRunLeavesNoRival(BothBegun(f, p), moves, p.second);
  }

  /** Both pass their checks, then one submits to its end, then the other. */
  lemma RaceHappens(f: Files, p: Pair) returns (actions: seq<Action>)
    requires FilesInv(f) && Sound(Stored(f)) && CanRace(f, p)
    ensures LeavesCycle(f, p, actions)
  {
    hide FilesInv, Sound, Stored, Cyclic, NoRival, Admitted, Finish, Run, ChecksFirst, Begun, Passes, Compatible;
    var s, t := p.first, p.second;
    BothFit(f, p);
    var start, w := World(f, map[]), BothBegun(f, p);
    var one := MovesToEnd(w, 0);
    var half := Run(w, one);
    Stores(p.firstConfig, f, s);
    OtherStaysUnrivalled(f, p, one);
    var two := MovesToEnd(half, 1);
    Stores(p.secondConfig, half.files, t);
    var begin, moves := [Begin(0, p.firstConfig, s), Begin(1, p.secondConfig, t)], one + two;
    actions := begin + moves;
    BeginTwo(f, p);
    RunSplits(start, begin, moves);
    RunSplits(w, one, two);
    ChecksOfTwo(f, p, moves);
    assert Stored(Run(start, actions).files) == Union(f, p);
  }

  /** From given files two concurrent imports can leave a cycle if and only if each passes its check alone, is admitted
    and without rival, their payload files do not clash, and together with what is stored they close a cycle. */
  lemma RaceCanLeaveCycleIff(f: Files, p: Pair)
    requires FilesInv(f) && Sound(Stored(f))
    ensures (exists actions :: LeavesCycle(f, p, actions)) <==> CanRace(f, p)
  {
    hide FilesInv, Sound, LeavesCycle, CanRace;
    if actions :| LeavesCycle(f, p, actions) { CycleNeedsRace(f, p, actions); }
    if CanRace(f, p) { var actions := RaceHappens(f, p); }
  }

  lemma ClosedWalkStarts(g: Graph, w: seq<string>)
    requires ClosedWalk(g, w)
    ensures |w| >= 2 && w[0] in g && w[1] in g[w[0]].parents && (w[1] in g || w[1] == w[0])
  {
  }

  lemma OneAloneIsSound(e: Event)
    requires e.id !in e.parents
    ensures Sound({e})
  {
    var g := GraphOf({e});
    forall w ensures !ClosedWalk(g, w) {
      if ClosedWalk(g, w) { ClosedWalkStarts(g, w); }
    }
  }

  lemma MutualParentsCycle(x: Event, y: Event)
    requires x.id != y.id && x.slot != y.slot && y.id in x.parents && x.id in y.parents
    ensures Cyclic({x, y})
  {
    var events := {x, y};
    assert IdsUnique(events) && SlotsUnique(events);
    var g := GraphOf(events);
    assert x in events && y in events;
    assert WalkBetween(g, [x.id, y.id, x.id], x.id, x.id);
    assert ClosedWalk(g, [x.id, y.id, x.id]);
  }

  /** So two new events that name each other as parents can both be imported into an empty store. */
  lemma MutualParentsCanRace(p: Pair) returns (actions: seq<Action>)
    requires Admitted(p.firstConfig, p.first) && Admitted(p.secondConfig, p.second)
    requires var x, y := p.first.event, p.second.event;
      && x.id != y.id && x.slot != y.slot && x.payloadRef != y.payloadRef
      && y.id in x.parents && x.id in y.parents && x.id !in x.parents && y.id !in y.parents
    ensures LeavesCycle(NO_FILES, p, actions)
  {
    hide Sound, Cyclic, Objection, LeavesCycle, FilesInv;
    var x, y := p.first.event, p.second.event;
    OneAloneIsSound(x);
    OneAloneIsSound(y);
    MutualParentsCycle(x, y);
    NothingIsStored();
    assert Union(NO_FILES, p) == {x, y} && Stored(NO_FILES) + {x} == {x} && Stored(NO_FILES) + {y} == {y};
    actions := RaceHappens(NO_FILES, p);
  }

  lemma NothingIsStored()
    ensures Stored(NO_FILES) == {} && FilesInv(NO_FILES) && Sound(Stored(NO_FILES))
  {
    EmptyStoreInv();
  }
}
