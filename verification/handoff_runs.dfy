/** Any number of senders and receivers working on the same handoff files, interleaved step
  by step and cut short by crashes anywhere. */
module HandoffRuns {
  import opened Prelude
  import opened HandoffProtocol

  datatype Call = Call(config: Config, request: Request, pc: Pc)

  /** A call that returned stays listed with its outcome; a crashed one is gone. */
  datatype World = World(files: Files, calls: map<nat, Call>)

  datatype Action =
    | Begin(caller: nat, config: Config, request: Request)
    | Move(caller: nat)
    | Crash(caller: nat)

  const EMPTY := World(NO_FILES, map[])

  predicate Running(w: World, caller: nat) {
    caller in w.calls && !w.calls[caller].pc.Done? && Suits(w.calls[caller].request, w.calls[caller].pc)
  }

  /** One action of the environment; an action that is not enabled changes nothing. */
  function Apply(w: World, a: Action): World {
    match a
    case Begin(c, config, r) =>
      if c in w.calls then w else w.(calls := w.calls[c := Call(config, r, Entry(config, r))])
    case Move(c) =>
      if !Running(w, c) then w
      else
        var call := w.calls[c];
        var next := Step(call.config, w.files, call.request, call.pc);
        World(next.0, w.calls[c := call.(pc := next.1)])
    case Crash(c) =>
      if !Running(w, c) then w else w.(calls := w.calls - {c})
  }

  function Run(w: World, actions: seq<Action>): World
    decreases |actions|
  {
    if actions == [] then w else Run(Apply(w, actions[0]), actions[1..])
  }

  /** The write-once files calls race for. */
  datatype Prize =
    | TheEnvelope(id: string)
    | TheClaim(id: string)
    | TheMaterialization(id: string)
    | TheReceipt(id: string)

  predicate Taken(f: Files, p: Prize) {
    match p
    case TheEnvelope(id) => id in f.envelopes
    case TheClaim(id) => id in f.claims
    case TheMaterialization(id) => id in f.materializations
    case TheReceipt(id) => id in f.receipts
  }

  /** What a call that returned says it published. */
  function Won(r: Request, pc: Pc): Option<Prize> {
    if !pc.Done? then None
    else match r
      case Submit(envelope, _) => if pc.outcome.Created? then Some(TheEnvelope(envelope.core.handoffId)) else None
      case Claim(id, _, _, _, _, _, _) => if pc.outcome.Claimed? then Some(TheClaim(id)) else None
      case Materialize(id, _) => if pc.outcome.Materialized? then Some(TheMaterialization(id)) else None
      case Acknowledge(id, _, _, _, _) => if pc.outcome.Acknowledged? then Some(TheReceipt(id)) else None
  }

  ghost predicate CallOk(f: Files, calls: map<nat, Call>, c: nat) {
    c in calls ==> PcInv(f, calls[c].request, calls[c].pc)
  }

  ghost predicate CallsInv(f: Files, calls: map<nat, Call>) {
    forall c {:trigger CallOk(f, calls, c)} :: CallOk(f, calls, c)
  }

  ghost predicate OneWinner(calls: map<nat, Call>) {
    forall c, d | c in calls && d in calls && Won(calls[c].request, calls[c].pc).Some? &&
                  Won(calls[c].request, calls[c].pc) == Won(calls[d].request, calls[d].pc) :: c == d
  }

  ghost predicate WorldInv(w: World) {
    FilesInv(w.files) && CallsInv(w.files, w.calls) && OneWinner(w.calls)
  }

  lemma WinnerTook(f: Files, r: Request, pc: Pc)
    requires PcInv(f, r, pc) && Won(r, pc).Some?
    ensures Taken(f, Won(r, pc).value)
  {
  }

  lemma SubmissionWinsWhatWasFree(f: Files, r: Request, pc: Pc)
    requires r.Submit? && Suits(r, pc) && Publishes(pc)
    ensures var next := PublishSubmission(f, r, pc).1; Won(r, next).Some? ==> !Taken(f, Won(r, next).value)
  {
  }

  lemma ReceiverWinsWhatWasFree(f: Files, r: Request, pc: Pc)
    requires !r.Submit? && Suits(r, pc) && Publishes(pc)
    ensures var next := PublishByReceiver(f, r, pc).1; Won(r, next).Some? ==> !Taken(f, Won(r, next).value)
  {
  }

  lemma ReadingWinsNothing(config: Config, f: Files, r: Request, pc: Pc)
    requires Suits(r, pc) && !pc.Done? && !Publishes(pc)
    ensures Won(r, Step(config, f, r, pc).1).None?
  {
  }

  lemma WinningTakesWhatWasFree(config: Config, f: Files, r: Request, pc: Pc)
    requires Suits(r, pc) && !pc.Done? && Won(r, Step(config, f, r, pc).1).Some?
    ensures !Taken(f, Won(r, Step(config, f, r, pc).1).value)
  {
    hide Suits, Won, Taken, Publishes, PublishSubmission, PublishByReceiver, CheckSubmission, CheckReceiver;
    if !Publishes(pc) { ReadingWinsNothing(config, f, r, pc); }
    else if r.Submit? { SubmissionWinsWhatWasFree(f, r, pc); }
    else { ReceiverWinsWhatWasFree(f, r, pc); }
  }

  lemma MoveKeepsCalls(w: World, c: nat)
    requires WorldInv(w) && Running(w, c)
    ensures var v := Apply(w, Move(c)); FilesInv(v.files) && Extends(w.files, v.files) && CallsInv(v.files, v.calls)
  {
    var v := Apply(w, Move(c));
    assert CallOk(w.files, w.calls, c);
    StepKeepsInv(w.calls[c].config, w.files, w.calls[c].request, w.calls[c].pc);
    hide FilesInv, Extends, PcInv, Suits;
    forall d ensures CallOk(v.files, v.calls, d) {
      assert CallOk(w.files, w.calls, d);
      if d in w.calls && d != c { PcInvStable(w.files, v.files, w.calls[d].request, w.calls[d].pc); }
    }
  }

  lemma MoveKeepsWinner(w: World, c: nat)
    requires WorldInv(w) && Running(w, c)
    ensures OneWinner(Apply(w, Move(c)).calls)
  {
    hide FilesInv, PcInv, Won, Suits;
    assert CallOk(w.files, w.calls, c);
    var r, pc := w.calls[c].request, w.calls[c].pc;
    var won := Won(r, Step(w.calls[c].config, w.files, r, pc).1);
    if won.Some? {
      WinningTakesWhatWasFree(w.calls[c].config, w.files, r, pc);
      forall d | d in w.calls && d != c ensures Won(w.calls[d].request, w.calls[d].pc) != won {
        assert CallOk(w.files, w.calls, d);
        if Won(w.calls[d].request, w.calls[d].pc) == won { WinnerTook(w.files, w.calls[d].request, w.calls[d].pc); }
      }
    }
  }

  lemma BeginKeepsInv(w: World, c: nat, config: Config, r: Request)
    requires WorldInv(w) && c !in w.calls
    ensures WorldInv(Apply(w, Begin(c, config, r)))
  {
    var v := Apply(w, Begin(c, config, r));
    forall d ensures CallOk(v.files, v.calls, d) { assert CallOk(w.files, w.calls, d); }
  }

  lemma ApplyKeepsInv(w: World, a: Action)
    requires WorldInv(w)
    ensures WorldInv(Apply(w, a)) && Extends(w.files, Apply(w, a).files)
  {
    var v := Apply(w, a);
    NothingLost(w.files);
    hide FilesInv, Extends, PcInv, Won, Suits;
    match a
    case Begin(c, config, r) => if c !in w.calls { BeginKeepsInv(w, c, config, r); }
    case Move(c) =>
      if Running(w, c) {
        MoveKeepsCalls(w, c);
        MoveKeepsWinner(w, c);
      }
    case Crash(_) =>
      forall d ensures CallOk(v.files, v.calls, d) { assert CallOk(w.files, w.calls, d); }
  }

  lemma {:induction false} RunKeepsInv(w: World, actions: seq<Action>)
    requires WorldInv(w)
    ensures WorldInv(Run(w, actions)) && Extends(w.files, Run(w, actions).files)
    decreases |actions|
  {
    hide WorldInv, Extends;
    if actions == [] {
      NothingLost(w.files);
    } else {
      ApplyKeepsInv(w, actions[0]);
      RunKeepsInv(Apply(w, actions[0]), actions[1..]);
      ExtendsTransitive(w.files, Apply(w, actions[0]).files, Run(w, actions).files);
    }
  }

  lemma {:induction false} RunSplits(w: World, before: seq<Action>, after: seq<Action>)
    ensures Run(w, before + after) == Run(Run(w, before), after)
    decreases |before|
  {
    if before == [] {
      assert before + after == after;
    } else {
      assert (before + after)[1..] == before[1..] + after;
      RunSplits(Apply(w, before[0]), before[1..], after);
    }
  }

  lemma EmptyIsFine()
    ensures WorldInv(EMPTY)
  {
  }

  // Main results, for every interleaving and every crash

  /** A receipt stands on its materialization, that on its claim, that on the envelope and on
    payload bytes with the announced hash and length; one receiver and one core digest throughout. */
  lemma ReceiptStandsOnChain(actions: seq<Action>, id: string)
    ensures var f := Run(EMPTY, actions).files;
      && (id in f.receipts ==> id in f.materializations)
      && (id in f.materializations ==> id in f.claims)
      && (id in f.claims ==> id in f.envelopes)
    ensures var f := Run(EMPTY, actions).files;
      id in f.receipts ==>
        var r := f.receipts[id];
        && r.digest == f.materializations[id].digest == f.claims[id].digest == CoreDigest(f.envelopes[id].core)
        && r.receiver == f.materializations[id].receiver == f.claims[id].receiver
        && r.payloadSha == f.materializations[id].payloadSha == f.envelopes[id].core.payloadSha
        && (r.response.Some? ==>
            r.response.value in f.envelopes && f.envelopes[r.response.value].core.replyTo == Some(id))
    ensures var f := Run(EMPTY, actions).files;
      id in f.envelopes ==>
        var e := f.envelopes[id].core;
        && e.handoffId == id && e.payloadRef in f.payloads
        && Sha256(f.payloads[e.payloadRef]) == e.payloadSha && |f.payloads[e.payloadRef]| == e.payloadBytes
    ensures var f := Run(EMPTY, actions).files;
      id in f.claims ==> ReceiverFits(f.envelopes[id].core, f.claims[id])
  {
    RunKeepsInv(EMPTY, actions);
    hide ReceiverFits, Run;
    assert FileOk(Run(EMPTY, actions).files, id);
  }

  /** Every file is written at most once and never changes. */
  lemma WrittenOnce(before: seq<Action>, after: seq<Action>)
    ensures Extends(Run(EMPTY, before).files, Run(EMPTY, before + after).files)
  {
    hide WorldInv, Extends;
    EmptyIsFine();
    RunKeepsInv(EMPTY, before);
    RunSplits(EMPTY, before, after);
    RunKeepsInv(Run(EMPTY, before), after);
  }

  /** Of all calls racing to create, claim, materialize or acknowledge one handoff, at most one says it did. */
  lemma OneCallWins(actions: seq<Action>, c: nat, d: nat)
    requires var calls := Run(EMPTY, actions).calls;
      && c in calls && d in calls
      && Won(calls[c].request, calls[c].pc).Some?
      && Won(calls[c].request, calls[c].pc) == Won(calls[d].request, calls[d].pc)
    ensures c == d
  {
    EmptyIsFine();
    hide Won, Run, FilesInv;
    RunKeepsInv(EMPTY, actions);
  }

  lemma SuccessLeaves(f: Files, g: Files, r: Request, pc: Pc)
    requires PcInv(f, r, pc) && Extends(f, g) && pc.Done? && r.Submit? && !pc.outcome.Failed?
    ensures EnvelopeIs(g, r.envelope.core.handoffId, r.envelope.core)
    ensures r.envelope.core.payloadRef in g.payloads && g.payloads[r.envelope.core.payloadRef] == r.snapshot.data
  {
  }

  /** A submission that returned "created" or "duplicate" leaves exactly its core and its bytes behind, for ever. */
  lemma SubmittedStays(before: seq<Action>, c: nat, after: seq<Action>)
    requires var calls := Run(EMPTY, before).calls;
      c in calls && calls[c].pc.Done? && calls[c].request.Submit? && !calls[c].pc.outcome.Failed?
    ensures var r := Run(EMPTY, before).calls[c].request;
      var f := Run(EMPTY, before + after).files;
      var e := r.envelope.core;
      && e.handoffId in f.envelopes && f.envelopes[e.handoffId].core == e
      && e.payloadRef in f.payloads && f.payloads[e.payloadRef] == r.snapshot.data
  {
    EmptyIsFine();
    hide Run, FilesInv, OneWinner, Extends, PcInv;
    RunKeepsInv(EMPTY, before);
    WrittenOnce(before, after);
    var w := Run(EMPTY, before);
    assert CallOk(w.files, w.calls, c);
    SuccessLeaves(w.files, Run(EMPTY, before + after).files, w.calls[c].request, w.calls[c].pc);
  }

  /** The digest and the receiver a successful receiver's call recorded. */
  function Stamp(outcome: Outcome): Option<(CoreDigest, Option<string>)> {
    match outcome
    case Claimed(c) => Some((c.digest, c.receiver))
    case Materialized(m) => Some((m.digest, m.receiver))
    case Acknowledged(r) => Some((r.digest, r.receiver))
    case _ => None
  }

  lemma StampIsTheClaims(f: Files, r: Request, pc: Pc)
    requires !r.Submit? && PcInv(f, r, pc) && FileOk(f, r.id) && pc.Done? && !pc.outcome.Failed?
    ensures r.id in f.claims && Stamp(pc.outcome) == Some((f.claims[r.id].digest, f.claims[r.id].receiver))
  {
    hide ReceiverFits;
  }

  /** Whoever claimed a handoff is who materializes and acknowledges it. */
  lemma OneReceiverThroughout(actions: seq<Action>, c: nat, d: nat)
    requires var calls := Run(EMPTY, actions).calls;
      && c in calls && calls[c].pc.Done? && !calls[c].pc.outcome.Failed? && !calls[c].request.Submit?
      && d in calls && calls[d].pc.Done? && !calls[d].pc.outcome.Failed? && !calls[d].request.Submit?
      && calls[c].request.id == calls[d].request.id
    ensures var calls := Run(EMPTY, actions).calls;
      Stamp(calls[c].pc.outcome).Some? && Stamp(calls[c].pc.outcome) == Stamp(calls[d].pc.outcome)
  {
    EmptyIsFine();
    RunKeepsInv(EMPTY, actions);
    hide Run, OneWinner, PcInv, FileOk, Stamp;
    var w := Run(EMPTY, actions);
    assert CallOk(w.files, w.calls, c);
    assert CallOk(w.files, w.calls, d);
    assert FileOk(w.files, w.calls[c].request.id);
    StampIsTheClaims(w.files, w.calls[c].request, w.calls[c].pc);
    StampIsTheClaims(w.files, w.calls[d].request, w.calls[d].pc);
  }

  lemma StepFailsNothing(config: Config, f: Files, r: Request, pc: Pc)
    requires Suits(r, pc) && !pc.Done?
    ensures Step(config, f, r, pc).0.failures == f.failures
  {
    hide CheckSubmission, CheckReceiver;
  }

  lemma {:induction false} NothingFails(w: World, actions: seq<Action>)
    requires w.files.failures == {}
    ensures Run(w, actions).files.failures == {}
    decreases |actions|
  {
    hide Step, Suits, Entry;
    if actions != [] {
      var a := actions[0];
      if a.Move? && Running(w, a.caller) {
        var call := w.calls[a.caller];
        StepFailsNothing(call.config, w.files, call.request, call.pc);
      }
      NothingFails(Apply(w, a), actions[1..]);
    }
  }

  /** A handoff's status only moves forward, and is never "failed". */
  lemma StatusNeverRegresses(before: seq<Action>, after: seq<Action>, id: string)
    requires StatusOf(Run(EMPTY, before).files, id).Ok?
    ensures var first, last := StatusOf(Run(EMPTY, before).files, id), StatusOf(Run(EMPTY, before + after).files, id);
      && last.Ok? && Rank(first.value) <= Rank(last.value)
      && first.value != FailedStatus && last.value != FailedStatus
  {
    WrittenOnce(before, after);
    NothingFails(EMPTY, before);
    NothingFails(EMPTY, before + after);
    hide Run, Extends;
    StatusAdvances(Run(EMPTY, before).files, Run(EMPTY, before + after).files, id);
  }

  // Submitting again after a crash

  /** Nothing foreign sits at the handoff's id or at its payload path. */
  ghost predicate NoRival(f: Files, r: Request)
    requires r.Submit?
  {
    var e := r.envelope.core;
    && (e.handoffId in f.envelopes ==> f.envelopes[e.handoffId].core == e)
    && (e.payloadRef in f.payloads ==> f.payloads[e.payloadRef] == r.snapshot.data)
  }

  /** How an unrivalled submission at `pc` will return. */
  function Verdict(f: Files, r: Request, pc: Pc): Outcome
    requires r.Submit?
  {
    match pc
    case Done(outcome) => outcome
    case CheckDuplicate => Duplicate
    case PublishDuplicate => Duplicate
    case ReadExisting => Duplicate
    case ComparePayload => Duplicate
    case _ => if r.envelope.core.handoffId in f.envelopes then Duplicate else Created
  }

  predicate OnTrack(pc: Pc) {
    !pc.CheckQuarantine? && !pc.PublishQuarantine? && !(pc.Done? && pc.outcome.Failed?)
  }

  lemma CheckStaysOnTrack(f: Files, r: Request, pc: Pc)
    requires r.Submit? && PcInv(f, r, pc) && NoRival(f, r) && OnTrack(pc) && !pc.Done? && !Publishes(pc)
    requires FileOk(f, r.envelope.core.handoffId)
    ensures OnTrack(CheckSubmission(f, r, pc)) && Verdict(f, r, CheckSubmission(f, r, pc)) == Verdict(f, r, pc)
  {
  }

  lemma PublishStaysOnTrack(f: Files, r: Request, pc: Pc)
    requires r.Submit? && Suits(r, pc) && NoRival(f, r) && OnTrack(pc) && Publishes(pc)
    ensures var next := PublishSubmission(f, r, pc);
      NoRival(next.0, r) && OnTrack(next.1) && Verdict(next.0, r, next.1) == Verdict(f, r, pc)
  {
  }

  lemma {:induction false} FinishUnrivalled(config: Config, f: Files, r: Request, pc: Pc)
    requires r.Submit? && FilesInv(f) && PcInv(f, r, pc) && NoRival(f, r) && OnTrack(pc)
    ensures Finish(config, f, r, pc).1 == Verdict(f, r, pc)
    decreases Remaining(pc)
  {
    hide NoRival, CheckSubmission, PublishSubmission, SubmitPcInv, Suits;
    if !pc.Done? {
      StepKeepsInv(config, f, r, pc);
      if Publishes(pc) {
        PublishStaysOnTrack(f, r, pc);
      } else {
        assert FileOk(f, r.envelope.core.handoffId);
        CheckStaysOnTrack(f, r, pc);
      }
      var next := Step(config, f, r, pc);
      FinishUnrivalled(config, next.0, r, next.1);
    }
  }

  lemma {:induction false} FinishKeepsInv(config: Config, f: Files, r: Request, pc: Pc)
    requires FilesInv(f) && PcInv(f, r, pc)
    ensures var end := Finish(config, f, r, pc); Extends(f, end.0) && FilesInv(end.0) && PcInv(end.0, r, Done(end.1))
    decreases Remaining(pc)
  {
    hide FilesInv, Extends, SubmitPcInv, ReceiverPcInv, Suits;
    if pc.Done? {
      NothingLost(f);
    } else {
      StepKeepsInv(config, f, r, pc);
      var next := Step(config, f, r, pc);
      FinishKeepsInv(config, next.0, r, next.1);
      ExtendsTransitive(f, next.0, Finish(config, f, r, pc).0);
    }
  }

  /** A call run alone to its end keeps what the files say. */
  lemma CallKeepsInv(config: Config, f: Files, r: Request)
    requires FilesInv(f)
    ensures var end := Finish(config, f, r, Entry(config, r)).0; Extends(f, end) && FilesInv(end)
  {
    hide FilesInv, Extends, Finish;
    assert PcInv(f, r, Entry(config, r));
    FinishKeepsInv(config, f, r, Entry(config, r));
  }

  /** An admitted submission running alone, whatever crashed calls left behind, succeeds
    exactly when it has no rival; it is "created" exactly when no envelope was there yet. */
  lemma SucceedsIffUnrivalled(config: Config, actions: seq<Action>, r: Request)
    requires r.Submit? && Objection(config, r.envelope.core, r.snapshot).None?
    ensures var f := Run(EMPTY, actions).files;
      var outcome := Finish(config, f, r, CheckEnvelope).1;
      && (!outcome.Failed? <==> NoRival(f, r))
      && (!outcome.Failed? ==> outcome == if r.envelope.core.handoffId in f.envelopes then Duplicate else Created)
  {
    EmptyIsFine();
    RunKeepsInv(EMPTY, actions);
    hide Run, Extends, FilesInv;
    var f := Run(EMPTY, actions).files;
    FinishKeepsInv(config, f, r, CheckEnvelope);
    var end := Finish(config, f, r, CheckEnvelope);
    if NoRival(f, r) {
      FinishUnrivalled(config, f, r, CheckEnvelope);
    } else if !end.1.Failed? {
      SuccessHadNoRival(f, end.0, r, end.1);
    }
  }

  lemma SuccessHadNoRival(f: Files, g: Files, r: Request, outcome: Outcome)
    requires r.Submit? && Extends(f, g) && PcInv(g, r, Done(outcome)) && !outcome.Failed?
    ensures NoRival(f, r)
  {
  }

  // Claims are authorized

  /** A claim about to be published, or published, by this call was authorized under its configuration. */
  predicate Warranted(call: Call) {
    call.request.Claim? ==>
      match call.pc
      case PublishClaim(record) => ClaimObjection(call.config, record.digest.core, call.request).None?
      case Done(Claimed(record)) => ClaimObjection(call.config, record.digest.core, call.request).None?
      case _ => true
  }

  ghost predicate AllWarranted(w: World) {
    forall c | c in w.calls :: Warranted(w.calls[c])
  }

  lemma StepStaysWarranted(call: Call, f: Files)
    requires Suits(call.request, call.pc) && !call.pc.Done? && Warranted(call)
    ensures Warranted(call.(pc := Step(call.config, f, call.request, call.pc).1))
  {
    hide ClaimObjection, CheckSubmission, PublishSubmission;
  }

  lemma {:induction false} RunStaysWarranted(w: World, actions: seq<Action>)
    requires AllWarranted(w)
    ensures AllWarranted(Run(w, actions))
    decreases |actions|
  {
    hide Warranted, Step, Suits, Entry;
    if actions != [] {
      var a := actions[0];
      if a.Move? && Running(w, a.caller) { StepStaysWarranted(w.calls[a.caller], w.files); }
      if a.Begin? { EntryIsWarranted(a.config, a.request); }
      RunStaysWarranted(Apply(w, a), actions[1..]);
    }
  }

  lemma EntryIsWarranted(config: Config, r: Request)
    ensures Warranted(Call(config, r, Entry(config, r)))
  {
  }

  /** Whoever claimed a handoff was allowed to: by an allowed authority, with an instance wherever the binding
    names one, and, for an exact instance or an entity, with evidence a verifier confirmed. */
  lemma ClaimsAreAuthorized(actions: seq<Action>, c: nat)
    requires var calls := Run(EMPTY, actions).calls;
      c in calls && calls[c].request.Claim? && calls[c].pc.Done? && calls[c].pc.outcome.Claimed?
    ensures var call := Run(EMPTY, actions).calls[c];
      var r := call.request;
      var e := call.pc.outcome.claim.digest.core;
      && r.authority in call.config.authorities && !r.binding.OtherBinding?
      && (r.binding == Unresolved ==> r.receiver == None) && (r.binding != Unresolved ==> !Blank(r.receiver))
      && (e.targetKind == ExactInstance ==>
          r.verifier.Some? && r.verifier.value.exactInstance && !Blank(r.evidence) && !Blank(r.receiver))
      && (e.targetKind == ArcpEntity ==>
          r.verifier.Some? && r.verifier.value.entity && !Blank(r.evidence) && !Blank(r.entity))
  {
    RunStaysWarranted(EMPTY, actions);
    hide Run;
    assert Warranted(Run(EMPTY, actions).calls[c]);
  }
}
