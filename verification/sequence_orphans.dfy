/** A sequence record whose event never got its index record: which runs leave one, and exactly when. */
module SequenceOrphans {
  import opened Prelude
  import opened Events
  import opened SubmitProtocol
  import opened SubmitRuns

  /** The event owns its slot. */
  ghost predicate Sequenced(f: Files, e: Event) {
    e.slot in f.sequences && f.sequences[e.slot] == SequenceRecordOf(e)
  }

  /** The index holds the event's own record. */
  ghost predicate OwnIndex(f: Files, e: Event) {
    e.id in f.index && f.index[e.id] == IndexRecordOf(e)
  }

  ghost predicate RivalHoldsId(f: Files, e: Event) {
    e.id in f.index && f.index[e.id] != IndexRecordOf(e)
  }

  /** The call stands between the sequence record and the index record of `e`. */
  predicate Awaits(w: World, c: nat, e: Event) {
    Running(w, c) && w.calls[c].submission.event == e && (w.calls[c].pc.RecheckIndex? || w.calls[c].pc.PublishIndex?)
  }

  predicate CrashesBetween(w: World, a: Action, e: Event) {
    a.Crash? && Awaits(w, a.caller, e)
  }

  predicate GoesOn(w: World, a: Action, e: Event) {
    a.Move? && Awaits(w, a.caller, e) && !Awaits(Apply(w, a), a.caller, e)
  }

  /** Somewhere in the run a call crashes between the two publications for `e`. */
  predicate SomeCrashBetween(w: World, actions: seq<Action>, e: Event)
    decreases |actions|
  {
    actions != [] &&
    (CrashesBetween(w, actions[0], e) || SomeCrashBetween(Apply(w, actions[0]), actions[1..], e))
  }

  /** Somewhere in the run a call gets past them. */
  predicate SomeGoesOn(w: World, actions: seq<Action>, e: Event)
    decreases |actions|
  {
    actions != [] && (GoesOn(w, actions[0], e) || SomeGoesOn(Apply(w, actions[0]), actions[1..], e))
  }

  /** If the event is sequenced, a call is still seeing to its index record. */
  ghost predicate Attended(w: World, e: Event) {
    Sequenced(w.files, e) ==> exists c :: Awaits(w, c, e)
  }

  lemma NewlySequencedAwaits(w: World, c: nat, e: Event)
    requires Running(w, c) && !Sequenced(w.files, e) && Sequenced(Apply(w, Move(c)).files, e)
    ensures Awaits(Apply(w, Move(c)), c, e)
  {
  }

  lemma AwaitingUnlessMoved(w: World, a: Action, c: nat, e: Event)
    requires Awaits(w, c, e) && !CrashesBetween(w, a, e) && !GoesOn(w, a, e)
    ensures Awaits(Apply(w, a), c, e)
  {
    hide Step;
  }

  lemma StaysAttended(w: World, a: Action, e: Event)
    requires Attended(w, e) && !CrashesBetween(w, a, e) && !GoesOn(w, a, e)
    ensures Attended(Apply(w, a), e)
  {
    hide Awaits, CrashesBetween, GoesOn;
    if Sequenced(w.files, e) {
      var c :| Awaits(w, c, e);
      AwaitingUnlessMoved(w, a, c, e);
    } else if a.Move? && Running(w, a.caller) && Sequenced(Apply(w, a).files, e) {
      NewlySequencedAwaits(w, a.caller, e);
    }
  }

  lemma {:induction false} LeftAlone(w: World, actions: seq<Action>, e: Event)
    requires Attended(w, e) && !SomeCrashBetween(w, actions, e) && !SomeGoesOn(w, actions, e)
    ensures Attended(Run(w, actions), e)
    decreases |actions|
  {
    hide Attended, CrashesBetween, GoesOn;
    if actions != [] {
      StaysAttended(w, actions[0], e);
      LeftAlone(Apply(w, actions[0]), actions[1..], e);
    }
  }

  /** Going on means the id is indexed, by this event or by a rival. */
  lemma GoingOnIndexes(w: World, a: Action, e: Event)
    requires GoesOn(w, a, e)
    ensures e.id in Apply(w, a).files.index
  {
  }

  lemma {:induction false} WentOnIndexed(w: World, actions: seq<Action>, e: Event)
    requires WorldInv(w) && SomeGoesOn(w, actions, e)
    ensures e.id in Run(w, actions).files.index
    decreases |actions|
  {
    hide WorldInv, GoesOn;
    var next := Apply(w, actions[0]);
    ApplyKeepsInv(w, actions[0]);
    if GoesOn(w, actions[0], e) {
      GoingOnIndexes(w, actions[0], e);
      RunKeepsInv(next, actions[1..]);
    } else {
      WentOnIndexed(next, actions[1..], e);
    }
  }

  lemma OwnIndexIsPublished(f: Files, s: Submission, pc: Pc, e: Event)
    requires !pc.Done? && !OwnIndex(f, e) && OwnIndex(Step(f, s, pc).0, e)
    ensures s.event == e && pc.PublishIndex?
    ensures var next := Step(f, s, pc).1; !next.RecheckIndex? && !next.PublishIndex?
  {
    hide GetEvent, PathOf;
  }

  lemma OwnIndexNeedsGoingOn(w: World, a: Action, e: Event)
    requires !OwnIndex(w.files, e) && OwnIndex(Apply(w, a).files, e)
    ensures GoesOn(w, a, e)
  {
    hide Step, OwnIndex;
    OwnIndexIsPublished(w.files, w.calls[a.caller].submission, w.calls[a.caller].pc, e);
  }

  lemma {:induction false} OwnIndexWentOn(w: World, actions: seq<Action>, e: Event)
    requires !OwnIndex(w.files, e) && OwnIndex(Run(w, actions).files, e)
    ensures SomeGoesOn(w, actions, e)
    decreases |actions|
  {
    hide GoesOn, OwnIndex;
    var next := Apply(w, actions[0]);
    if OwnIndex(next.files, e) {
      OwnIndexNeedsGoingOn(w, actions[0], e);
    } else {
      OwnIndexWentOn(next, actions[1..], e);
    }
  }

  /** Once no call is running, a slot's event lacks its index record exactly when a rival holds its id, or a call
    crashed between the two publications and none got past them. */
  lemma OrphanedIff(actions: seq<Action>, slot: Slot)
    requires slot in Run(EMPTY, actions).files.sequences && forall c :: !Running(Run(EMPTY, actions), c)
    ensures var f := Run(EMPTY, actions).files;
      var e := f.sequences[slot].digest.core;
      && Sequenced(f, e)
      && (!OwnIndex(f, e) <==>
            RivalHoldsId(f, e) || (SomeCrashBetween(EMPTY, actions, e) && !SomeGoesOn(EMPTY, actions, e)))
  {
    RunKeepsInv(EMPTY, actions);
    hide Run, SomeCrashBetween, SomeGoesOn;
    var w := Run(EMPTY, actions);
    assert SequenceFileOk(w.files, slot);
    var e := w.files.sequences[slot].digest.core;
    if SomeGoesOn(EMPTY, actions, e) { WentOnIndexed(EMPTY, actions, e); }
    if OwnIndex(w.files, e) { OwnIndexWentOn(EMPTY, actions, e); }
    if !SomeCrashBetween(EMPTY, actions, e) && !SomeGoesOn(EMPTY, actions, e) { LeftAlone(EMPTY, actions, e); }
  }

  // A lost race leaves one

  lemma Unfold(f: Files, s: Submission, pc: Pc)
    requires !pc.Done?
    ensures Finish(f, s, pc) == Finish(Step(f, s, pc).0, s, Step(f, s, pc).1)
  {
  }

  lemma {:induction false} FinishExtends(f: Files, s: Submission, pc: Pc)
    ensures Extends(f, Finish(f, s, pc).0)
    decreases Remaining(pc)
  {
    hide Extends, Step;
    if pc.Done? {
      Same(f);
    } else {
      var next := Step(f, s, pc);
      StepExtends(f, s, pc);
      FinishExtends(next.0, s, next.1);
      ExtendsTransitive(f, next.0, Finish(f, s, pc).0);
    }
  }

  lemma Same(f: Files)
    ensures Extends(f, f)
  {
  }

  lemma StepExtends(f: Files, s: Submission, pc: Pc)
    requires !pc.Done?
    ensures Extends(f, Step(f, s, pc).0)
  {
    hide Extends, Publish, Check;
    Same(f);
    if Publishes(pc) { PublishExtends(f, s, pc); }
  }

  /** A submission writes at its own slot, payload reference and event path only. */
  predicate OthersAlone(f: Files, g: Files, e: Event) {
    && g.sequences.Keys <= f.sequences.Keys + {e.slot}
    && g.payloads.Keys <= f.payloads.Keys + {e.payloadRef}
    && g.events.Keys <= f.events.Keys + {PathOf(e)}
  }

  lemma StepLeavesOthers(f: Files, s: Submission, pc: Pc)
    requires !pc.Done?
    ensures OthersAlone(f, Step(f, s, pc).0, s.event)
  {
  }

  lemma {:induction false} FinishLeavesOthers(f: Files, s: Submission, pc: Pc)
    ensures OthersAlone(f, Finish(f, s, pc).0, s.event)
    decreases Remaining(pc)
  {
    hide Step;
    if !pc.Done? {
      StepLeavesOthers(f, s, pc);
      FinishLeavesOthers(Step(f, s, pc).0, s, Step(f, s, pc).1);
    }
  }

  lemma SequencesFromEvent(f: Files, t: Submission)
    requires t.event.slot !in f.sequences && PathOf(t.event) !in f.events
    ensures Sequenced(Finish(f, t, CheckEvent).0, t.event)
  {
    hide Finish, PathOf, GetEvent;
    var e := t.event;
    var g := f.(events := f.events[PathOf(e) := e]);
    var h := g.(sequences := g.sequences[e.slot := SequenceRecordOf(e)]);
    Unfold(f, t, CheckEvent);
    Unfold(f, t, PublishEvent);
    Unfold(g, t, RecheckSequence(true));
    Unfold(g, t, PublishSequence(true));
    FinishExtends(h, t, RecheckIndex(true));
  }

  /** With its slot, payload reference and event path free, a submission past the index check sequences its event. */
  lemma SequencesItsEvent(f: Files, t: Submission)
    requires t.event.slot !in f.sequences && t.event.payloadRef !in f.payloads && PathOf(t.event) !in f.events
    ensures Sequenced(Finish(f, t, CheckSequence).0, t.event)
  {
    hide Finish, PathOf, GetEvent;
    Unfold(f, t, CheckSequence);
    Unfold(f, t, CheckPayload);
    Unfold(f, t, PublishPayload);
    SequencesFromEvent(f.(payloads := f.payloads[t.event.payloadRef := t.payload]), t);
  }

  ghost predicate Reachable(w: World) {
    exists actions :: Run(EMPTY, actions) == w
  }

  lemma ReachableApply(w: World, a: Action)
    requires Reachable(w)
    ensures Reachable(Apply(w, a))
  {
    var first :| Run(EMPTY, first) == w;
    RunSplits(EMPTY, first, [a]);
    assert Run(w, [a]) == Apply(w, a);
  }

  /** A call left to itself returns, whatever the others wait for. */
  lemma {:induction false} ReachableFinish(w: World, c: nat)
    requires Reachable(w) && c in w.calls
    ensures var s, pc := w.calls[c].submission, w.calls[c].pc;
      Reachable(World(Finish(w.files, s, pc).0, w.calls[c := Call(s, Done(Finish(w.files, s, pc).1))]))
    decreases Remaining(w.calls[c].pc)
  {
    hide Reachable, Step;
    var s, pc := w.calls[c].submission, w.calls[c].pc;
    if pc.Done? {
      assert w.calls[c := Call(s, pc)] == w.calls;
    } else {
      var next := Apply(w, Move(c));
      ReachableApply(w, Move(c));
      ReachableFinish(next, c);
      var end := Finish(w.files, s, pc);
      assert next.calls[c := Call(s, Done(end.1))] == w.calls[c := Call(s, Done(end.1))];
    }
  }

  /** Two admitted submissions of different events under one id, for different slots and payload references: the
    one that loses the race for the id leaves its sequence record behind, with every call returned. */
  lemma LostRaceLeavesOrphan(config: Config, s: Submission, t: Submission)
    requires s.delivery != "" && t.delivery != ""
    requires Objection(config, s.event, s.payload).None? && Objection(config, t.event, t.payload).None?
    requires s.event.id == t.event.id && s.event.slot != t.event.slot && s.event.payloadRef != t.event.payloadRef
    ensures exists actions ::
      var w := Run(EMPTY, actions);
      && (forall c :: !Running(w, c))
      && OwnIndex(w.files, s.event) && Sequenced(w.files, t.event) && !OwnIndex(w.files, t.event)
  {
    hide Finish, Objection, FilesInv, Step, Extends, Run;
    var begun := EMPTY;
    assert Reachable(begun) by { NothingRun(); }
    ReachableApply(begun, Begin(0, config, s));
    begun := Apply(begun, Begin(0, config, s));
    ReachableApply(begun, Begin(1, config, t));
    begun := Apply(begun, Begin(1, config, t));
    ReachableApply(begun, Move(1));
    FirstCheckPasses(begun, t);
    begun := Apply(begun, Move(1));
    var won := Finish(NO_FILES, s, CheckIndex);
    WinnerIsIndexed(config, s);
    FinishLeavesOthers(NO_FILES, s, CheckIndex);
    ReachableFinish(begun, 0);
    var half := World(won.0, begun.calls[0 := Call(s, Done(won.1))]);
    SequencesItsEvent(won.0, t);
    FinishExtends(won.0, t, CheckSequence);
    ReachableFinish(half, 1);
    var lost := Finish(won.0, t, CheckSequence);
    var end := World(lost.0, half.calls[1 := Call(t, Done(lost.1))]);
    IndexKept(won.0, lost.0, s.event, t.event);
    assert forall c :: !Running(end, c);
    var actions :| Run(EMPTY, actions) == end;
  }

  lemma NothingRun()
    ensures Run(EMPTY, []) == EMPTY
  {
  }

  lemma FirstCheckPasses(w: World, t: Submission)
    requires w.files == NO_FILES && 1 in w.calls && w.calls[1] == Call(t, CheckIndex)
    ensures Apply(w, Move(1)) == World(NO_FILES, w.calls[1 := Call(t, CheckSequence)])
  {
  }

  lemma WinnerIsIndexed(config: Config, s: Submission)
    requires s.delivery != "" && Objection(config, s.event, s.payload).None?
    ensures OwnIndex(Finish(NO_FILES, s, CheckIndex).0, s.event)
  {
    hide Finish, Objection;
    assert Sha256(s.payload) == s.event.payloadSha by { Hashed(config, s); }
    SucceedsIffUnrivalled(config, NO_FILES, s);
    FinishKeepsInv(NO_FILES, s, CheckIndex);
  }

  lemma Hashed(config: Config, s: Submission)
    requires Objection(config, s.event, s.payload).None?
    ensures Sha256(s.payload) == s.event.payloadSha
  {
  }

  lemma IndexKept(f: Files, g: Files, e: Event, rival: Event)
    requires OwnIndex(f, e) && Extends(f, g) && e.id == rival.id && e != rival
    ensures OwnIndex(g, e) && !OwnIndex(g, rival)
  {
  }
}
