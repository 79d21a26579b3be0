/** Any number of submitters and watchdogs working on the same wake files, interleaved step
  by step and cut short by crashes anywhere. */
module WakeRuns {
  import opened Prelude
  import opened WakeProtocol

  datatype Instance = Instance(call: Call, pc: Pc)

  /** A call that returned stays listed with its outcome; a crashed one is gone. */
  datatype World = World(shared: Shared, calls: map<nat, Instance>)

  datatype Action =
    | Begin(caller: nat, call: Call)
    | Move(caller: nat, answer: Answer)
    | Crash(caller: nat)

  const EMPTY := World(NOTHING, map[])

  predicate Running(w: World, caller: nat) {
    caller in w.calls && !w.calls[caller].pc.Done? && Suits(w.calls[caller].call, w.calls[caller].pc)
  }

  /** One action of the environment; an action that is not enabled changes nothing. */
  function Apply(w: World, a: Action): World {
    match a
    case Begin(c, call) =>
      if c in w.calls then w else w.(calls := w.calls[c := Instance(call, Entry(call))])
    case Move(c, answer) =>
      if !Running(w, c) then w
      else
        var next := Step(w.shared, w.calls[c].call, w.calls[c].pc, answer);
        World(next.0, w.calls[c := w.calls[c].(pc := next.1)])
    case Crash(c) =>
      if !Running(w, c) then w else w.(calls := w.calls - {c})
  }

  function Run(w: World, actions: seq<Action>): World
    decreases |actions|
  {
    if actions == [] then w else Run(Apply(w, actions[0]), actions[1..])
  }

  ghost predicate CallOk(s: Shared, calls: map<nat, Instance>, c: nat) {
    c in calls ==> PcInv(s, calls[c].call, calls[c].pc)
  }

  ghost predicate CallsInv(s: Shared, calls: map<nat, Instance>) {
    forall c {:trigger CallOk(s, calls, c)} :: CallOk(s, calls, c)
  }

  predicate Invoking(calls: map<nat, Instance>, c: nat, id: string) {
    c in calls && calls[c].pc.Invoke? && IdOf(calls[c].call) == id
  }

  /** At most one call is about to invoke the provider for any one wake. */
  ghost predicate OneInvoker(calls: map<nat, Instance>) {
    forall c, d, id {:trigger Invoking(calls, c, id), Invoking(calls, d, id)} ::
      Invoking(calls, c, id) && Invoking(calls, d, id) ==> c == d
  }

  ghost predicate WorldInv(w: World) {
    SharedInv(w.shared) && CallsInv(w.shared, w.calls) && OneInvoker(w.calls)
  }

  lemma EmptyIsFine()
    ensures WorldInv(EMPTY)
  {
  }

  lemma InvokerHoldsClaim(s: Shared, call: Call, pc: Pc)
    requires PcInv(s, call, pc) && pc.Invoke?
    ensures call.Process? && IdOf(call) in s.claims
  {
  }

  lemma InvokerJustClaimed(s: Shared, call: Call, pc: Pc, answer: Answer)
    requires Suits(call, pc) && !pc.Done? && Step(s, call, pc, answer).1.Invoke?
    ensures IdOf(call) !in s.claims
  {
  }

  lemma MoveKeepsCalls(w: World, c: nat, answer: Answer)
    requires WorldInv(w) && Running(w, c)
    ensures var v := Apply(w, Move(c, answer));
      SharedInv(v.shared) && Extends(w.shared, v.shared) && CallsInv(v.shared, v.calls)
  {
    var v := Apply(w, Move(c, answer));
    var id := IdOf(w.calls[c].call);
    assert CallOk(w.shared, w.calls, c);
    StepKeepsInv(w.shared, w.calls[c].call, w.calls[c].pc, answer);
    InvocationsGrow(w.shared, w.calls[c].call, w.calls[c].pc, answer);
    hide Extends, PcInv, Suits, WakeOk;
    forall d ensures CallOk(v.shared, v.calls, d) {
      assert CallOk(w.shared, w.calls, d);
      if d in w.calls && d != c {
        assert WakeOk(v.shared, IdOf(w.calls[d].call));
        if w.calls[d].pc.Invoke? && w.calls[c].pc.Invoke? {
          assert Invoking(w.calls, d, IdOf(w.calls[d].call));
          assert Invoking(w.calls, c, id);
        }
        PcInvStable(w.shared, v.shared, w.calls[d].call, w.calls[d].pc);
      }
    }
  }

  lemma InvocationsGrow(s: Shared, call: Call, pc: Pc, answer: Answer)
    requires Suits(call, pc) && !pc.Done?
    ensures forall id :: Invoked(s, id) <= Invoked(Step(s, call, pc, answer).0, id)
  {
  }

  lemma MoveKeepsInvoker(w: World, c: nat, answer: Answer)
    requires WorldInv(w) && Running(w, c)
    ensures OneInvoker(Apply(w, Move(c, answer)).calls)
  {
    hide SharedInv, PcInv, Suits, Step;
    var v := Apply(w, Move(c, answer));
    var id := IdOf(w.calls[c].call);
    forall d, e, i | Invoking(v.calls, d, i) && Invoking(v.calls, e, i) ensures d == e {
      assert d != c ==> Invoking(w.calls, d, i);
      assert e != c ==> Invoking(w.calls, e, i);
      if d != e && (d == c || e == c) {
        InvokerJustClaimed(w.shared, w.calls[c].call, w.calls[c].pc, answer);
        var other := if d == c then e else d;
        assert CallOk(w.shared, w.calls, other);
        InvokerHoldsClaim(w.shared, w.calls[other].call, w.calls[other].pc);
      }
    }
  }

  lemma OthersKeepInv(w: World, a: Action)
    requires WorldInv(w) && !a.Move?
    ensures WorldInv(Apply(w, a)) && Apply(w, a).shared == w.shared
  {
    var v := Apply(w, a);
    hide SharedInv;
    forall d ensures CallOk(v.shared, v.calls, d) { assert CallOk(w.shared, w.calls, d); }
    forall c, d, id | Invoking(v.calls, c, id) && Invoking(v.calls, d, id) ensures c == d {
      assert Invoking(w.calls, c, id) && Invoking(w.calls, d, id);
    }
  }

  lemma ApplyKeepsInv(w: World, a: Action)
    requires WorldInv(w)
    ensures WorldInv(Apply(w, a)) && Extends(w.shared, Apply(w, a).shared)
  {
    NothingLost(w.shared);
    hide SharedInv, Extends, PcInv, Suits, Step, OneInvoker, CallsInv;
    if !a.Move? {
      OthersKeepInv(w, a);
    } else if Running(w, a.caller) {
      MoveKeepsCalls(w, a.caller, a.answer);
      MoveKeepsInvoker(w, a.caller, a.answer);
    }
  }

  lemma {:induction false} RunKeepsInv(w: World, actions: seq<Action>)
    requires WorldInv(w)
    ensures WorldInv(Run(w, actions)) && Extends(w.shared, Run(w, actions).shared)
    decreases |actions|
  {
    hide WorldInv, Extends;
    if actions == [] {
      NothingLost(w.shared);
    } else {
      ApplyKeepsInv(w, actions[0]);
      RunKeepsInv(Apply(w, actions[0]), actions[1..]);
      ExtendsTransitive(w.shared, Apply(w, actions[0]).shared, Run(w, actions).shared);
    }
  }

  lemma {:induction false} RunSplits(w: World, before: seq<Action>, after: seq<Action>)
    ensures Run(w, before + after) == Run(Run(w, before), after)
    decreases |before|
  {
    if before == [] {
      assert before + after == after;
    } else {
      assert (before + after)[1..] == before[1..] + after;
      RunSplits(Apply(w, before[0]), before[1..], after);
    }
  }

  // Main results, for every interleaving and every crash

  /** The provider is invoked at most once for any wake: only after a claim, only where policy
    allows it, and with the payload the request announced. */
  lemma InvokedAtMostOnce(actions: seq<Action>, id: string)
    ensures var s := Run(EMPTY, actions).shared;
      && |Invoked(s, id)| <= 1
      && (Invoked(s, id) != [] ==>
            var i := Invoked(s, id)[0];
            && id in s.claims && id in s.requests && i.request == s.requests[id]
            && PolicyRefusal(i.config, i.request.core).None? && Sha256(i.prompt) == i.request.core.payloadSha)
  {
    EmptyIsFine();
    RunKeepsInv(EMPTY, actions);
    hide Run, PolicyRefusal;
    assert WakeOk(Run(EMPTY, actions).shared, id);
  }

  /** An acknowledgement implies a claim and carries the result of that one invocation. */
  lemma AckCarriesTheInvocation(actions: seq<Action>, id: string)
    requires id in Run(EMPTY, actions).shared.acks
    ensures var s := Run(EMPTY, actions).shared;
      && id in s.claims && id in s.requests && s.acks[id].request == s.requests[id]
      && |Invoked(s, id)| == 1 && Invoked(s, id)[0].answer == Replied(s.acks[id].result)
      && s.acks[id].payloadSha == s.requests[id].core.payloadSha
  {
    EmptyIsFine();
    RunKeepsInv(EMPTY, actions);
    hide Run, Licensed;
    assert WakeOk(Run(EMPTY, actions).shared, id);
  }

  lemma WrittenOnce(before: seq<Action>, after: seq<Action>)
    ensures Extends(Run(EMPTY, before).shared, Run(EMPTY, before + after).shared)
  {
    EmptyIsFine();
    hide WorldInv, Extends;
    RunKeepsInv(EMPTY, before);
    RunSplits(EMPTY, before, after);
    RunKeepsInv(Run(EMPTY, before), after);
  }

  /** A claimed wake is never pending again, and an acknowledged one stays acknowledged with the same record. */
  lemma StatusIsFinal(before: seq<Action>, after: seq<Action>, id: string)
    requires id in Run(EMPTY, before).shared.requests
    ensures var s, t := Run(EMPTY, before).shared, Run(EMPTY, before + after).shared;
      && (id in s.claims || StatusOf(s, id) != Some(Pending) ==>
          StatusOf(t, id).Some? && StatusOf(t, id) != Some(Pending))
      && (StatusOf(s, id) == Some(AcknowledgedStatus) ==>
            StatusOf(t, id) == Some(AcknowledgedStatus) && t.acks[id] == s.acks[id])
  {
    WrittenOnce(before, after);
    hide Run;
  }
}
