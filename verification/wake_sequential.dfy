/** One watchdog at a time: an acknowledgement and a failure exclude each other.  Two at
  once can leave both. */
module WakeSequential {
  import opened Prelude
  import opened WakeProtocol
  import opened WakeRuns

  /** A watchdog's call on this wake that has not returned. */
  predicate Working(w: World, c: nat, id: string) {
    c in w.calls && w.calls[c].call.Process? && w.calls[c].call.id == id && !w.calls[c].pc.Done?
  }

  /** No watchdog starts on the wake while another is at work on it; submissions, and watchdogs on other
    wakes, may come and go. */
  ghost predicate Sequential(w: World, actions: seq<Action>, id: string)
    decreases |actions|
  {
    actions != [] ==>
      && (actions[0].Begin? && actions[0].call.Process? && actions[0].call.id == id ==> forall c :: !Working(w, c, id))
      && Sequential(Apply(w, actions[0]), actions[1..], id)
  }

  predicate On(call: Call, id: string) { call.Process? && call.id == id }

  /** What a watchdog working alone on the wake can rely on. */
  predicate StageOk(s: Shared, call: Call, pc: Pc, id: string) {
    On(call, id) ==>
      var settled := id in s.acks || id in s.failures;
      match pc
      case CheckFailure => id !in s.acks
      case CheckClaim => !settled
      case Assess => !settled
      case PublishClaim(_, _) => !settled
      case Invoke(_, _) => !settled
      case CheckOwnClaim(_) => !settled
      case PublishAck(_) => !settled
      case PublishFailure(_) => !settled
      case Done(Raised(code)) => code == WakeNotFound
      case _ => true
  }

  ghost predicate StagesOk(w: World, id: string) {
    forall c {:trigger c in w.calls} :: c in w.calls ==> StageOk(w.shared, w.calls[c].call, w.calls[c].pc, id)
  }

  ghost predicate OneWorking(w: World, id: string) {
    forall c, d {:trigger Working(w, c, id), Working(w, d, id)} :: Working(w, c, id) && Working(w, d, id) ==> c == d
  }

  predicate NotBoth(s: Shared, id: string) {
    !(id in s.acks && id in s.failures)
  }

  ghost predicate SoloInv(w: World, id: string) {
    WorldInv(w) && StagesOk(w, id) && OneWorking(w, id) && NotBoth(w.shared, id)
  }

  lemma StepKeepsStage(s: Shared, call: Call, pc: Pc, answer: Answer, id: string)
    requires PcInv(s, call, pc) && !pc.Done? && StageOk(s, call, pc, id) && NotBoth(s, id)
    ensures var next := Step(s, call, pc, answer); StageOk(next.0, call, next.1, id) && NotBoth(next.0, id)
  {
    hide PolicyRefusal, Licensed;
  }

  /** Only a watchdog on the wake acknowledges it or records its failure. */
  lemma OthersSettleNothing(s: Shared, call: Call, pc: Pc, answer: Answer, id: string)
    requires Suits(call, pc) && !pc.Done? && !On(call, id)
    ensures var t := Step(s, call, pc, answer).0;
      (id in t.acks <==> id in s.acks) && (id in t.failures <==> id in s.failures)
  {
    hide PolicyRefusal;
  }

  lemma MoveKeepsSolo(w: World, c: nat, answer: Answer, id: string)
    requires SoloInv(w, id) && Running(w, c)
    ensures SoloInv(Apply(w, Move(c, answer)), id)
  {
    var v := Apply(w, Move(c, answer));
    ApplyKeepsInv(w, Move(c, answer));
    assert CallOk(w.shared, w.calls, c);
    var call := w.calls[c].call;
    StepKeepsStage(w.shared, call, w.calls[c].pc, answer, id);
    if !On(call, id) { OthersSettleNothing(w.shared, call, w.calls[c].pc, answer, id); }
    hide WorldInv, PcInv, Suits, Step;
    forall d | d in v.calls ensures StageOk(v.shared, v.calls[d].call, v.calls[d].pc, id) {
      if d != c && On(call, id) { assert Working(w, c, id) && !Working(w, d, id); }
    }
    forall d, e | Working(v, d, id) && Working(v, e, id) ensures d == e {
      assert Working(w, d, id) && Working(w, e, id);
    }
  }

  lemma ApplyKeepsSolo(w: World, a: Action, id: string)
    requires SoloInv(w, id) && Sequential(w, [a], id)
    ensures SoloInv(Apply(w, a), id)
  {
    var v := Apply(w, a);
    if a.Move? && Running(w, a.caller) {
      MoveKeepsSolo(w, a.caller, a.answer, id);
    } else {
      ApplyKeepsInv(w, a);
      hide WorldInv, Suits;
      forall d, e | Working(v, d, id) && Working(v, e, id) ensures d == e {
        assert d in w.calls ==> Working(w, d, id);
        assert e in w.calls ==> Working(w, e, id);
      }
    }
  }

  lemma {:induction false} RunKeepsSolo(w: World, actions: seq<Action>, id: string)
    requires SoloInv(w, id) && Sequential(w, actions, id)
    ensures SoloInv(Run(w, actions), id)
    decreases |actions|
  {
    hide SoloInv;
    if actions != [] {
      assert Sequential(w, [actions[0]], id);
      ApplyKeepsSolo(w, actions[0], id);
      RunKeepsSolo(Apply(w, actions[0]), actions[1..], id);
    }
  }

  /** With one watchdog at a time on a wake, crashes included, that wake is never both acknowledged and failed,
    and no watchdog on it raises anything but "not found". */
  lemma AckExcludesFailure(actions: seq<Action>, id: string)
    requires Sequential(EMPTY, actions, id)
    ensures var s := Run(EMPTY, actions).shared; !(id in s.acks && id in s.failures)
    ensures forall c | c in Run(EMPTY, actions).calls ::
      var i := Run(EMPTY, actions).calls[c];
      On(i.call, id) && i.pc.Done? && i.pc.outcome.Raised? ==> i.pc.outcome.code == WakeNotFound
  {
    EmptyIsFine();
    hide Run, WorldInv;
    RunKeepsSolo(EMPTY, actions, id);
  }

  // Two watchdogs at once

  /** A continuation in which only these two calls move. */
  predicate OnlyMoves(actions: seq<Action>, c: nat, d: nat) {
    forall i | 0 <= i < |actions| :: actions[i].Move? && (actions[i].caller == c || actions[i].caller == d)
  }

  ghost predicate LeadsTo(w: World, v: World, c: nat, d: nat) {
    exists actions :: OnlyMoves(actions, c, d) && Run(w, actions) == v
  }

  lemma LeadsToItself(w: World, c: nat, d: nat)
    ensures LeadsTo(w, w, c, d)
  {
    assert OnlyMoves([], c, d) && Run(w, []) == w;
  }

  /** `n` moves of one call. */
  function Moves(w: World, c: nat, answer: Answer, n: nat): World
    decreases n
  {
    if n == 0 then w else Moves(Apply(w, Move(c, answer)), c, answer, n - 1)
  }

  lemma {:induction false} LeadsToMoves(w: World, v: World, c: nat, d: nat, mover: nat, answer: Answer, n: nat)
    requires LeadsTo(w, v, c, d) && (mover == c || mover == d)
    ensures LeadsTo(w, Moves(v, mover, answer, n), c, d)
    decreases n
  {
    hide Apply;
    if n > 0 {
      var actions :| OnlyMoves(actions, c, d) && Run(w, actions) == v;
      var next := Apply(v, Move(mover, answer));
      RunSplits(w, actions, [Move(mover, answer)]);
      assert Run(v, [Move(mover, answer)]) == next;
      assert OnlyMoves(actions + [Move(mover, answer)], c, d);
      LeadsToMoves(w, next, c, d, mover, answer, n - 1);
    }
  }

  function With(w: World, c: nat, pc: Pc): World
    requires c in w.calls
  {
    w.(calls := w.calls[c := w.calls[c].(pc := pc)])
  }

  lemma WithTwice(w: World, c: nat, first: Pc, second: Pc)
    requires c in w.calls
    ensures With(With(w, c, first), c, second) == With(w, c, second)
    ensures With(w, c, w.calls[c].pc) == w
  {
    assert w.calls[c := w.calls[c]] == w.calls;
  }

  lemma MovesUnfold(w: World, c: nat, answer: Answer, n: nat)
    requires n > 0 && Running(w, c)
    ensures var next := Step(w.shared, w.calls[c].call, w.calls[c].pc, answer);
      Moves(w, c, answer, n) == Moves(With(w.(shared := next.0), c, next.1), c, answer, n - 1)
  {
  }

  lemma AtRest(w: World, c: nat, answer: Answer)
    ensures Moves(w, c, answer, 0) == w
  {
  }

  lemma ReadsOn(s: Shared, call: Call, pc: Pc, answer: Answer)
    requires call.Process? && Assessing(pc) && pc != Assess && StatusOf(s, call.id) == Some(Pending)
    ensures Assessing(AssessStep(s, call, pc, answer))
  {
  }

  /** A watchdog's call on a pending wake reads its way to the assessment. */
  lemma {:induction false} ReachesAssess(w: World, c: nat, answer: Answer) returns (n: nat)
    requires c in w.calls && w.calls[c].call.Process? && Assessing(w.calls[c].pc)
    requires StatusOf(w.shared, w.calls[c].call.id) == Some(Pending)
    ensures Moves(w, c, answer, n) == With(w, c, Assess)
    decreases Remaining(w.calls[c].pc)
  {
    hide Moves, AssessStep;
    var call, pc := w.calls[c].call, w.calls[c].pc;
    if pc == Assess {
      WithTwice(w, c, pc, pc);
      AtRest(w, c, answer);
      n := 0;
    } else {
      var next := AssessStep(w.shared, call, pc, answer);
      ReadsOn(w.shared, call, pc, answer);
      n := ReachesAssess(With(w, c, next), c, answer);
      WithTwice(w, c, next, Assess);
      MovesUnfold(w, c, answer, n + 1);
      n := n + 1;
    }
  }

  const REPLY := ProviderResult("", "", "")

  /** Everything goes well for this request. */
  function InTime(r: Request): Answer { Answer(false, Ok(r.core.payloadSha.bytes), true, Replied(REPLY), None) }

  function TooLate(r: Request): Answer { InTime(r).(expired := true) }

  function AckOf(id: string, r: Request): AckRecord { AckRecord(id, r, r.core.payloadSha, REPLY) }

  lemma AllGoesWell(config: Config, r: Request)
    ensures PolicyRefusal(config, r.core).None? ==> Assessment(config, r, InTime(r)) == Ok(r.core.payloadSha.bytes)
    ensures Assessment(config, r, TooLate(r)).Err?
    ensures Sha256(r.core.payloadSha.bytes) == r.core.payloadSha
  {
  }

  /** At the assessment of a pending wake that its policy allows, a watchdog in time claims. */
  lemma Claims(w: World, c: nat)
    requires c in w.calls && w.calls[c].call.Process? && w.calls[c].pc == Assess
    requires StatusOf(w.shared, w.calls[c].call.id) == Some(Pending)
    requires PolicyRefusal(w.calls[c].call.config, w.shared.requests[w.calls[c].call.id].core).None?
    ensures var call := w.calls[c].call;
      var r := w.shared.requests[call.id];
      var v := Moves(w, c, InTime(r), 2);
      && v.calls == w.calls[c := Instance(call, Invoke(r, r.core.payloadSha.bytes))] && call.id in v.shared.claims
      && v.shared.requests == w.shared.requests && v.shared.acks == w.shared.acks
         && v.shared.failures == w.shared.failures
  {
    hide Moves, Assessment, PolicyRefusal;
    var call := w.calls[c].call;
    var id := call.id;
    var r := w.shared.requests[id];
    var claiming := PublishClaim(r, r.core.payloadSha.bytes);
    AllGoesWell(call.config, r);
    MovesUnfold(w, c, InTime(r), 2);
    MovesUnfold(With(w, c, claiming), c, InTime(r), 1);
    var claimed := w.shared.(claims := w.shared.claims[id := ClaimRecord(id, call.watchdog, r.core)]);
    WithTwice(w.(shared := claimed), c, claiming, Invoke(r, r.core.payloadSha.bytes));
    AtRest(With(w.(shared := claimed), c, Invoke(r, r.core.payloadSha.bytes)), c, InTime(r));
  }

  /** It invokes the provider, and is about to acknowledge. */
  lemma Invokes(w: World, c: nat, r: Request)
    requires c in w.calls && w.calls[c].call.Process? && w.calls[c].pc == Invoke(r, r.core.payloadSha.bytes)
    requires w.calls[c].call.id in w.shared.claims
    ensures var call := w.calls[c].call;
      var v := Moves(w, c, InTime(r), 2);
      && v.calls == w.calls[c := Instance(call, PublishAck(AckOf(call.id, r)))]
      && v.shared.requests == w.shared.requests && v.shared.failures == w.shared.failures
  {
    hide Moves;
    var call := w.calls[c].call;
    var ack := AckOf(call.id, r);
    AllGoesWell(call.config, r);
    MovesUnfold(w, c, InTime(r), 2);
    var replied := Step(w.shared, call, w.calls[c].pc, InTime(r)).0;
    MovesUnfold(With(w.(shared := replied), c, CheckOwnClaim(ack)), c, InTime(r), 1);
    WithTwice(w.(shared := replied), c, CheckOwnClaim(ack), PublishAck(ack));
    AtRest(With(w.(shared := replied), c, PublishAck(ack)), c, InTime(r));
  }

  /** Too late, a watchdog at the assessment records a failure, whatever its policy. */
  lemma Refuses(w: World, c: nat, r: Request)
    requires c in w.calls && w.calls[c].call.Process? && w.calls[c].pc == Assess
    requires var id := w.calls[c].call.id;
      id in w.shared.requests && w.shared.requests[id] == r && id !in w.shared.failures
    ensures var call := w.calls[c].call;
      var v := Moves(w, c, TooLate(r), 2);
      call.id in v.shared.failures && forall d | d in w.calls && d != c :: d in v.calls && v.calls[d] == w.calls[d]
  {
    hide Moves, Assessment;
    var call := w.calls[c].call;
    var id := call.id;
    AllGoesWell(call.config, r);
    var code := Assessment(call.config, r, TooLate(r)).error;
    MovesUnfold(w, c, TooLate(r), 2);
    MovesUnfold(With(w, c, PublishFailure(code)), c, TooLate(r), 1);
    var failed := w.shared.(failures := w.shared.failures[id := FailureRecord(id, code)]);
    WithTwice(w.(shared := failed), c, PublishFailure(code), Done(Refused(code)));
    AtRest(With(w.(shared := failed), c, Done(Refused(code))), c, TooLate(r));
  }

  lemma Acknowledges(w: World, c: nat, r: Request)
    requires c in w.calls && w.calls[c].call.Process? && w.calls[c].pc == PublishAck(AckOf(w.calls[c].call.id, r))
    ensures var v := Moves(w, c, InTime(r), 1);
      w.calls[c].call.id in v.shared.acks && v.shared.failures == w.shared.failures
  {
    hide Moves;
    MovesUnfold(w, c, InTime(r), 1);
    var next := Step(w.shared, w.calls[c].call, w.calls[c].pc, InTime(r));
    AtRest(With(w.(shared := next.0), c, next.1), c, InTime(r));
  }

  /** Two watchdogs stand before a pending wake, neither past its assessment. */
  predicate Overlap(w: World, c: nat, d: nat, id: string) {
    && c != d && c in w.calls && d in w.calls
    && On(w.calls[c].call, id) && On(w.calls[d].call, id)
    && Assessing(w.calls[c].pc) && Assessing(w.calls[d].pc)
    && StatusOf(w.shared, id) == Some(Pending)
  }

  predicate PolicyAllows(w: World, c: nat, id: string)
    requires c in w.calls && On(w.calls[c].call, id) && id in w.shared.requests
  {
    PolicyRefusal(w.calls[c].call.config, w.shared.requests[id].core).None?
  }

  predicate Both(s: Shared, id: string) { id in s.acks && id in s.failures }

  /** One allowed watchdog is enough: it acknowledges while the other, too late, records a failure. */
  lemma AllowedLeavesBoth(w: World, c: nat, d: nat, id: string) returns (v: World)
    requires Overlap(w, c, d, id) && PolicyAllows(w, c, id)
    ensures LeadsTo(w, v, c, d) && Both(v.shared, id)
  {
    hide Moves, LeadsTo, PolicyRefusal;
    var r := w.shared.requests[id];
    LeadsToItself(w, c, d);
    var n := ReachesAssess(w, d, InTime(r));
    LeadsToMoves(w, w, c, d, d, InTime(r), n);
    v := With(w, d, Assess);
    n := ReachesAssess(v, c, InTime(r));
    LeadsToMoves(w, v, c, d, c, InTime(r), n);
    v := With(v, c, Assess);
    Claims(v, c);
    LeadsToMoves(w, v, c, d, c, InTime(r), 2);
    v := Moves(v, c, InTime(r), 2);
    Invokes(v, c, r);
    LeadsToMoves(w, v, c, d, c, InTime(r), 2);
    v := Moves(v, c, InTime(r), 2);
    Refuses(v, d, r);
    LeadsToMoves(w, v, c, d, d, TooLate(r), 2);
    v := Moves(v, d, TooLate(r), 2);
    Acknowledges(v, c, r);
    LeadsToMoves(w, v, c, d, c, InTime(r), 1);
    v := Moves(v, c, InTime(r), 1);
  }

  /** A refused watchdog never gets past its assessment. */
  predicate Held(w: World, c: nat, id: string, r: Request) {
    && c in w.calls && On(w.calls[c].call, id) && PolicyRefusal(w.calls[c].call.config, r.core).Some?
    && (Assessing(w.calls[c].pc) || w.calls[c].pc.PublishFailure? || w.calls[c].pc.Done?)
  }

  predicate BothHeld(w: World, c: nat, d: nat, id: string, r: Request) {
    id in w.shared.requests && w.shared.requests[id] == r && id !in w.shared.acks && Held(w, c, id, r)
      && Held(w, d, id, r)
  }

  lemma {:induction false} HeldLeavesNoAck(w: World, actions: seq<Action>, c: nat, d: nat, id: string, r: Request)
    requires BothHeld(w, c, d, id, r) && OnlyMoves(actions, c, d)
    ensures id !in Run(w, actions).shared.acks
    decreases |actions|
  {
    hide PolicyRefusal, BothHeld;
    if actions != [] {
      MoveKeepsHeld(w, actions[0].caller, actions[0].answer, c, d, id, r);
      assert actions[0].Move?;
      HeldLeavesNoAck(Apply(w, actions[0]), actions[1..], c, d, id, r);
    } else {
      assert id !in w.shared.acks by { HeldUnacknowledged(w, c, d, id, r); }
    }
  }

  lemma HeldUnacknowledged(w: World, c: nat, d: nat, id: string, r: Request)
    requires BothHeld(w, c, d, id, r)
    ensures id !in w.shared.acks
  {
  }

  lemma MoveKeepsHeld(w: World, mover: nat, answer: Answer, c: nat, d: nat, id: string, r: Request)
    requires BothHeld(w, c, d, id, r) && (mover == c || mover == d)
    ensures BothHeld(Apply(w, Move(mover, answer)), c, d, id, r)
  {
    hide PolicyRefusal;
  }

  /** Where two watchdogs overlap on a pending wake, some continuation of theirs leaves both an acknowledgement and
    a failure if and only if the policy of at least one of them allows the request. */
  lemma OverlapLeavesBothIff(w: World, c: nat, d: nat, id: string)
    requires Overlap(w, c, d, id)
    ensures (exists v :: LeadsTo(w, v, c, d) && Both(v.shared, id)) <==>
      PolicyAllows(w, c, id) || PolicyAllows(w, d, id)
  {
    hide PolicyRefusal, Run;
    if PolicyAllows(w, c, id) {
      var v := AllowedLeavesBoth(w, c, d, id);
    } else if PolicyAllows(w, d, id) {
      var v := AllowedLeavesBoth(w, d, c, id);
      LeadsToSwapped(w, v, c, d);
    } else {
      forall v | LeadsTo(w, v, c, d) ensures !Both(v.shared, id) {
        var actions :| OnlyMoves(actions, c, d) && Run(w, actions) == v;
        HeldLeavesNoAck(w, actions, c, d, id, w.shared.requests[id]);
      }
    }
  }

  lemma LeadsToSwapped(w: World, v: World, c: nat, d: nat)
    requires LeadsTo(w, v, d, c)
    ensures LeadsTo(w, v, c, d)
  {
    hide Run;
    var actions :| OnlyMoves(actions, d, c) && Run(w, actions) == v;
    assert OnlyMoves(actions, c, d);
  }

  /** The same from the start: whenever a run brings two watchdogs before a pending wake, the run can go on to leave
    both records exactly when one of their policies allows the request. */
  lemma TwoWatchdogsCanLeaveBoth(actions: seq<Action>, c: nat, d: nat, id: string)
    requires Overlap(Run(EMPTY, actions), c, d, id)
    ensures var w := Run(EMPTY, actions);
      (exists more :: OnlyMoves(more, c, d) && Both(Run(EMPTY, actions + more).shared, id)) <==>
      PolicyAllows(w, c, id) || PolicyAllows(w, d, id)
  {
    hide Run, Overlap, PolicyAllows, OnlyMoves, Both;
    var w := Run(EMPTY, actions);
    OverlapLeavesBothIff(w, c, d, id);
    forall more ensures Run(EMPTY, actions + more) == Run(w, more) { RunSplits(EMPTY, actions, more); }
    if v :| LeadsTo(w, v, c, d) && Both(v.shared, id) {
      var more :| OnlyMoves(more, c, d) && Run(w, more) == v;
      assert Both(Run(EMPTY, actions + more).shared, id);
    }
    if more :| OnlyMoves(more, c, d) && Both(Run(EMPTY, actions + more).shared, id) {
      assert LeadsTo(w, Run(w, more), c, d);
    }
  }

  /** Every request can be brought before two watchdogs at once, whatever their configurations. */
  lemma OverlapHappens(r: Request, first: Call, second: Call, answer: Answer) returns (actions: seq<Action>)
    requires On(first, r.core.wakeId) && On(second, r.core.wakeId)
    ensures var w := Run(EMPTY, actions);
      && Overlap(w, 1, 2, r.core.wakeId) && w.shared.requests[r.core.wakeId] == r
      && w.calls[1].call == first && w.calls[2].call == second
  {
    var submitted := World(NOTHING.(requests := map[r.core.wakeId := r]), map[0 := Instance(Submit(r), Done(Created))]);
    var submit := [Begin(0, Submit(r)), Move(0, answer), Move(0, answer)];
    Submits(r, answer);
    actions := submit + [Begin(1, first), Begin(2, second)];
    RunSplits(EMPTY, submit, [Begin(1, first), Begin(2, second)]);
    BothBegin(submitted, first, second);
  }

  lemma Submits(r: Request, answer: Answer)
    ensures Run(EMPTY, [Begin(0, Submit(r)), Move(0, answer), Move(0, answer)]) ==
            World(NOTHING.(requests := map[r.core.wakeId := r]), map[0 := Instance(Submit(r), Done(Created))])
  {
    var begun := World(NOTHING, map[0 := Instance(Submit(r), CheckRequest)]);
    var checked := World(NOTHING, map[0 := Instance(Submit(r), PublishRequest)]);
    assert Apply(EMPTY, Begin(0, Submit(r))) == begun;
    assert Apply(begun, Move(0, answer)) == checked;
    RunOfThree(EMPTY, Begin(0, Submit(r)), Move(0, answer), Move(0, answer));
  }

  lemma RunOfThree(w: World, a: Action, b: Action, c: Action)
    ensures Run(w, [a, b, c]) == Apply(Apply(Apply(w, a), b), c)
  {
    hide Apply;
    assert [a, b, c][1..] == [b, c] && [b, c][1..] == [c];
    assert Run(w, [a, b, c]) == Run(Apply(w, a), [b, c]) == Run(Apply(Apply(w, a), b), [c]);
  }

  lemma BothBegin(w: World, first: Call, second: Call)
    requires 1 !in w.calls && 2 !in w.calls
    ensures Run(w, [Begin(1, first), Begin(2, second)]) ==
            w.(calls := w.calls[1 := Instance(first, Entry(first))][2 := Instance(second, Entry(second))])
  {
    assert [Begin(1, first), Begin(2, second)][1..] == [Begin(2, second)];
    assert Run(Apply(w, Begin(1, first)), [Begin(2, second)]) == Apply(Apply(w, Begin(1, first)), Begin(2, second));
  }

  /** So for every request that some configuration allows, two watchdogs do leave both records. */
  lemma AllowedRequestCanEndBoth(r: Request, first: Call, second: Call, answer: Answer)
    requires On(first, r.core.wakeId) && On(second, r.core.wakeId) && PolicyRefusal(first.config, r.core).None?
    ensures exists actions :: Both(Run(EMPTY, actions).shared, r.core.wakeId)
  {
    hide Run, PolicyRefusal, OnlyMoves, Both;
    var actions := OverlapHappens(r, first, second, answer);
    TwoWatchdogsCanLeaveBoth(actions, 1, 2, r.core.wakeId);
    var more :| OnlyMoves(more, 1, 2) && Both(Run(EMPTY, actions + more).shared, r.core.wakeId);
  }
}
