/** Any number of submissions, from any number of store instances, interleaved step by
  step over the same files and cut short by crashes anywhere. */
module SubmitRuns {
  import opened Prelude
  import opened Events
  import opened SubmitProtocol

  datatype Call = Call(submission: Submission, pc: Pc)

  /** A call that returned stays listed with its outcome; a crashed one is gone. */
  datatype World = World(files: Files, calls: map<nat, Call>)

  datatype Action =
    | Begin(caller: nat, config: Config, submission: Submission)
    | Move(caller: nat)
    | Crash(caller: nat)

  const EMPTY := World(NO_FILES, map[])

  predicate Running(w: World, caller: nat) {
    caller in w.calls && !w.calls[caller].pc.Done?
  }

  function Entry(config: Config, s: Submission): Pc {
    if s.delivery == "" then Done(Failed(DeliveryIdInvalid))
    else match Objection(config, s.event, s.payload)
      case Some(code) => Done(Failed(code))
      case None => CheckIndex
  }

  /** One action of the environment; an action that is not enabled changes nothing. */
  function Apply(w: World, a: Action): World {
    match a
    case Begin(c, config, s) =>
      if c in w.calls then w else w.(calls := w.calls[c := Call(s, Entry(config, s))])
    case Move(c) =>
      if !Running(w, c) then w
      else
        var next := Step(w.files, w.calls[c].submission, w.calls[c].pc);
        World(next.0, w.calls[c := w.calls[c].(pc := next.1)])
    case Crash(c) =>
      if !Running(w, c) then w else w.(calls := w.calls - {c})
  }

  function Run(w: World, actions: seq<Action>): World
    decreases |actions|
  {
    if actions == [] then w else Run(Apply(w, actions[0]), actions[1..])
  }

  /** The call at `pc` is the one that published its event file. */
  predicate OwnsEventFile(pc: Pc) {
    match pc
    case RecheckSequence(created) => created
    case PublishSequence(created) => created
    case RecheckIndex(created) => created
    case PublishIndex(created) => created
    case Done(outcome) => outcome == Created
    case _ => false
  }

  ghost predicate CallOk(f: Files, calls: map<nat, Call>, c: nat) {
    c in calls ==> PcInv(f, calls[c].submission, calls[c].pc)
  }

  ghost predicate CallsInv(f: Files, calls: map<nat, Call>) {
    forall c {:trigger CallOk(f, calls, c)} :: CallOk(f, calls, c)
  }

  ghost predicate OneOwner(calls: map<nat, Call>) {
    forall c, d | c in calls && d in calls && OwnsEventFile(calls[c].pc) && OwnsEventFile(calls[d].pc) &&
                  PathOf(calls[c].submission.event) == PathOf(calls[d].submission.event) :: c == d
  }

  ghost predicate WorldInv(w: World) {
    FilesInv(w.files) && CallsInv(w.files, w.calls) && OneOwner(w.calls)
  }

  lemma OwnershipNeedsEvent(f: Files, s: Submission, pc: Pc)
    requires PcInv(f, s, pc) && OwnsEventFile(pc)
    ensures PathOf(s.event) in f.events
  {
  }

  lemma OwnershipComesFromPublishing(f: Files, s: Submission, pc: Pc)
    requires !pc.Done? && OwnsEventFile(Step(f, s, pc).1) && !OwnsEventFile(pc)
    ensures PathOf(s.event) !in f.events
  {
    match pc
    case CheckIndex =>
    case PublishEvent =>
    case _ =>
  }

  lemma ExtendsTransitive(f: Files, g: Files, h: Files)
    requires Extends(f, g) && Extends(g, h)
    ensures Extends(f, h)
  {
  }

  lemma MoveKeepsCalls(w: World, c: nat)
    requires WorldInv(w) && Running(w, c)
    ensures var v := Apply(w, Move(c));
      FilesInv(v.files) && Extends(w.files, v.files) && CallsInv(v.files, v.calls)
  {
    var v := Apply(w, Move(c));
    assert CallOk(w.files, w.calls, c);
    StepKeepsInv(w.files, w.calls[c].submission, w.calls[c].pc);
    hide FilesInv, Extends, PcInv;
    forall d ensures CallOk(v.files, v.calls, d) {
      assert CallOk(w.files, w.calls, d);
      if d in w.calls && d != c { PcInvStable(w.files, v.files, w.calls[d].submission, w.calls[d].pc); }
    }
  }

  lemma MoveKeepsOwner(w: World, c: nat)
    requires WorldInv(w) && Running(w, c)
    ensures OneOwner(Apply(w, Move(c)).calls)
  {
    hide FilesInv, PcInv;
    var s, pc := w.calls[c].submission, w.calls[c].pc;
    if OwnsEventFile(Step(w.files, s, pc).1) && !OwnsEventFile(pc) {
      OwnershipComesFromPublishing(w.files, s, pc);
      forall d | d in w.calls && OwnsEventFile(w.calls[d].pc)
        ensures PathOf(w.calls[d].submission.event) != PathOf(s.event)
      {
        assert CallOk(w.files, w.calls, d);
        OwnershipNeedsEvent(w.files, w.calls[d].submission, w.calls[d].pc);
      }
    }
  }

  lemma ApplyKeepsInv(w: World, a: Action)
    requires WorldInv(w)
    ensures WorldInv(Apply(w, a)) && Extends(w.files, Apply(w, a).files)
  {
    var v := Apply(w, a);
    if a.Move? && Running(w, a.caller) {
      MoveKeepsCalls(w, a.caller);
      MoveKeepsOwner(w, a.caller);
    } else {
      forall c ensures CallOk(v.files, v.calls, c) { assert CallOk(w.files, w.calls, c); }
    }
  }

  lemma {:induction false} RunKeepsInv(w: World, actions: seq<Action>)
    requires WorldInv(w)
    ensures WorldInv(Run(w, actions)) && Extends(w.files, Run(w, actions).files)
    decreases |actions|
  {
    if actions != [] {
      ApplyKeepsInv(w, actions[0]);
      RunKeepsInv(Apply(w, actions[0]), actions[1..]);
      ExtendsTransitive(w.files, Apply(w, actions[0]).files, Run(w, actions).files);
    }
  }

  lemma {:induction false} RunSplits(w: World, before: seq<Action>, after: seq<Action>)
    ensures Run(w, before + after) == Run(Run(w, before), after)
    decreases |before|
  {
    if before == [] {
      assert before + after == after;
    } else {
      assert (before + after)[1..] == before[1..] + after;
      RunSplits(Apply(w, before[0]), before[1..], after);
    }
  }

  // Main results, for every interleaving and every crash

  /** Every indexed id has its event file, its payload and its sequence record. */
  lemma IndexAlwaysBacked(actions: seq<Action>, id: string)
    requires id in Run(EMPTY, actions).files.index
    ensures var f := Run(EMPTY, actions).files;
      && f.index[id].path in f.events
      && var e := f.events[f.index[id].path];
         && e.id == id && f.index[id] == IndexRecordOf(e)
         && e.payloadRef in f.payloads && Sha256(f.payloads[e.payloadRef]) == e.payloadSha
         && e.slot in f.sequences && f.sequences[e.slot] == SequenceRecordOf(e)
         && GetEvent(f, id) == Ok(e)
  {
    RunKeepsInv(EMPTY, actions);
    assert IndexFileOk(Run(EMPTY, actions).files, id);
  }

  /** No two indexed ids share a (replica, generation, sequence) slot. */
  lemma SlotsNeverShared(actions: seq<Action>, i: string, j: string)
    requires var index := Run(EMPTY, actions).files.index;
      i in index && j in index && index[i].path.slot == index[j].path.slot
    ensures i == j
  {
    RunKeepsInv(EMPTY, actions);
    assert IndexFileOk(Run(EMPTY, actions).files, i) && IndexFileOk(Run(EMPTY, actions).files, j);
  }

  /** Once published, a file keeps its content for ever. */
  lemma PublishedForever(before: seq<Action>, after: seq<Action>)
    ensures Extends(Run(EMPTY, before).files, Run(EMPTY, before + after).files)
  {
    RunKeepsInv(EMPTY, before);
    RunSplits(EMPTY, before, after);
    RunKeepsInv(Run(EMPTY, before), after);
  }

  /** No two submissions of one event id both return "created". */
  lemma CreatedOnce(actions: seq<Action>, c: nat, d: nat)
    requires var calls := Run(EMPTY, actions).calls;
      && c in calls && d in calls && calls[c].pc == Done(Created) && calls[d].pc == Done(Created)
      && calls[c].submission.event.id == calls[d].submission.event.id
    ensures c == d
  {
    RunKeepsInv(EMPTY, actions);
    var w := Run(EMPTY, actions);
    assert CallOk(w.files, w.calls, c);
    assert CallOk(w.files, w.calls, d);
  }

  /** What "created" and "duplicate" announce can be read back, then and ever after. */
  lemma ReturnedIsRetrievable(before: seq<Action>, c: nat, after: seq<Action>)
    requires var calls := Run(EMPTY, before).calls;
      c in calls && calls[c].pc.Done? && !calls[c].pc.outcome.Failed?
    ensures var s := Run(EMPTY, before).calls[c].submission;
      var later := Run(EMPTY, before + after).files;
      GetEvent(later, s.event.id) == Ok(s.event) && later.payloads[s.event.payloadRef] == s.payload
  {
    RunKeepsInv(EMPTY, before);
    PublishedForever(before, after);
    var w := Run(EMPTY, before);
    assert CallOk(w.files, w.calls, c);
    assert Indexed(Run(EMPTY, before + after).files, w.calls[c].submission.event);
  }

  // Retrying after a crash

  /** Nothing foreign sits at the submission's id, slot, payload path or event path. */
  ghost predicate NoRival(f: Files, s: Submission) {
    var e := s.event;
    && (e.id in f.index ==> f.index[e.id] == IndexRecordOf(e))
    && (e.slot in f.sequences ==> f.sequences[e.slot] == SequenceRecordOf(e))
    && (e.payloadRef in f.payloads ==> f.payloads[e.payloadRef] == s.payload)
    && (PathOf(e) in f.events ==> f.events[PathOf(e)] == e)
  }

  /** How an unrivalled submission at `pc` will return. */
  function Verdict(f: Files, s: Submission, pc: Pc): Outcome {
    match pc
    case Done(outcome) => outcome
    case CheckDuplicate => Duplicate
    case PublishDuplicate => Duplicate
    case RecheckSequence(created) => if created then Created else Duplicate
    case PublishSequence(created) => if created then Created else Duplicate
    case RecheckIndex(created) => if created then Created else Duplicate
    case PublishIndex(created) => if created then Created else Duplicate
    case _ => if PathOf(s.event) in f.events then Duplicate else Created
  }

  predicate OnTrack(f: Files, s: Submission, pc: Pc) {
    && !pc.CheckQuarantine? && !pc.PublishQuarantine? && !(pc.Done? && pc.outcome.Failed?)
    && (pc.PublishDuplicate? ==> DuplicateRecordOf(s).key !in f.duplicates)
  }

  lemma CheckStaysOnTrack(f: Files, s: Submission, pc: Pc)
    requires FilesInv(f) && PcInv(f, s, pc) && NoRival(f, s) && OnTrack(f, s, pc) && !pc.Done? && !Publishes(pc)
    ensures OnTrack(f, s, Check(f, s, pc)) && Verdict(f, s, Check(f, s, pc)) == Verdict(f, s, pc)
  {
    assert IndexFileOk(f, s.event.id);
    assert DuplicateFileOk(f, DuplicateRecordOf(s).key);
  }

  lemma PublishStaysOnTrack(f: Files, s: Submission, pc: Pc)
    requires NoRival(f, s) && OnTrack(f, s, pc) && Publishes(pc)
    ensures var next := Publish(f, s, pc);
      NoRival(next.0, s) && OnTrack(next.0, s, next.1) && Verdict(next.0, s, next.1) == Verdict(f, s, pc)
  {
  }

  lemma StepStaysOnTrack(f: Files, s: Submission, pc: Pc)
    requires FilesInv(f) && PcInv(f, s, pc) && NoRival(f, s) && OnTrack(f, s, pc) && !pc.Done?
    ensures var next := Step(f, s, pc);
      NoRival(next.0, s) && OnTrack(next.0, s, next.1) && Verdict(next.0, s, next.1) == Verdict(f, s, pc)
  {
    if Publishes(pc) {
      PublishStaysOnTrack(f, s, pc);
    } else {
      CheckStaysOnTrack(f, s, pc);
    }
  }

  lemma {:induction false} FinishUnrivalled(f: Files, s: Submission, pc: Pc)
    requires FilesInv(f) && PcInv(f, s, pc) && NoRival(f, s) && OnTrack(f, s, pc)
    ensures Finish(f, s, pc).1 == Verdict(f, s, pc)
    decreases Remaining(pc)
  {
    if !pc.Done? {
      StepStaysOnTrack(f, s, pc);
      StepKeepsInv(f, s, pc);
      var next := Step(f, s, pc);
      FinishUnrivalled(next.0, s, next.1);
    }
  }

  lemma {:induction false} FinishKeepsInv(f: Files, s: Submission, pc: Pc)
    requires FilesInv(f) && PcInv(f, s, pc)
    ensures var r := Finish(f, s, pc);
      Extends(f, r.0) && FilesInv(r.0) && PcInv(r.0, s, Done(r.1))
    decreases Remaining(pc)
  {
    if !pc.Done? {
      StepKeepsInv(f, s, pc);
      var next := Step(f, s, pc);
      FinishKeepsInv(next.0, s, next.1);
      ExtendsTransitive(f, next.0, Finish(f, s, pc).0);
    }
  }

  /** An admitted submission running alone succeeds exactly when it has no rival; it then
    leaves the event retrievable, and is "created" unless its event file was already there. */
  lemma SucceedsIffUnrivalled(config: Config, f: Files, s: Submission)
    requires FilesInv(f) && s.delivery != "" && Objection(config, s.event, s.payload).None?
    ensures var r := Submit(config, f, s);
      && (!r.1.Failed? <==> NoRival(f, s))
      && (!r.1.Failed? ==> r.1 == (if PathOf(s.event) in f.events then Duplicate else Created))
      && (!r.1.Failed? ==> GetEvent(r.0, s.event.id) == Ok(s.event))
  {
    FinishKeepsInv(f, s, CheckIndex);
    if NoRival(f, s) { FinishUnrivalled(f, s, CheckIndex); }
  }

  /** `t` cannot get in the way of `s`. */
  predicate Compatible(t: Submission, s: Submission) {
    && (t.event.id == s.event.id || t.event.slot == s.event.slot ==> t.event == s.event)
    && (t.event.payloadRef == s.event.payloadRef ==> t.payload == s.payload)
  }

  lemma {:induction false} CompatibleRunLeavesNoRival(w: World, actions: seq<Action>, s: Submission)
    requires NoRival(w.files, s)
    requires forall c | c in w.calls :: Compatible(w.calls[c].submission, s)
    requires forall a | a in actions && a.Begin? :: Compatible(a.submission, s)
    ensures NoRival(Run(w, actions).files, s)
    decreases |actions|
  {
    if actions != [] {
      var v := Apply(w, actions[0]);
      if actions[0].Move? && Running(w, actions[0].caller) {
        CompatibleStepLeavesNoRival(w.files, w.calls[actions[0].caller].submission, w.calls[actions[0].caller].pc, s);
      }
      assert actions[0] in actions;
      assert forall a | a in actions[1..] :: a in actions;
      CompatibleRunLeavesNoRival(v, actions[1..], s);
    }
  }

  lemma CompatibleStepLeavesNoRival(f: Files, t: Submission, pc: Pc, s: Submission)
    requires NoRival(f, s) && Compatible(t, s) && !pc.Done?
    ensures NoRival(Step(f, t, pc).0, s)
  {
  }

  /** Whatever crashed, and wherever: if no rival was ever submitted, submitting again succeeds. */
  lemma RetryAfterCrashSucceeds(actions: seq<Action>, config: Config, s: Submission)
    requires forall a | a in actions && a.Begin? :: Compatible(a.submission, s)
    requires s.delivery != "" && Objection(config, s.event, s.payload).None?
    ensures var r := Submit(config, Run(EMPTY, actions).files, s);
      !r.1.Failed? && GetEvent(r.0, s.event.id) == Ok(s.event)
  {
    RunKeepsInv(EMPTY, actions);
    CompatibleRunLeavesNoRival(EMPTY, actions, s);
    SucceedsIffUnrivalled(config, Run(EMPTY, actions).files, s);
  }
}
