/** The journal and the engine that drives a delivery through it, step by step. */
module BridgeEngines {
  import opened Prelude
  import opened BridgeModels
  import opened Capture
  import opened Delivery
  import opened DeliveryRuns
  import opened DeliveryResults

  class Journal {
    var messages: map<string, Message>
    var idempotency: map<string, string>
    var deliveries: map<Key, Record>
    var routes: set<Route>
    var locks: map<string, TargetLock>
    var agents: map<string, Binding>

    constructor ()
      ensures messages == map[] && idempotency == map[] && deliveries == map[] && routes == {} && locks == map[]
        && agents == map[]
    {
      messages, idempotency, deliveries, routes, locks, agents := map[], map[], map[], {}, map[], map[];
    }

    function Tables(prompts: map<Key, seq<string>>): Bridge
      reads this
    {
      Bridge(messages, idempotency, deliveries, routes, locks, agents, prompts)
    }

    /** `journal_message` */
    method Enter(m: Message, ghost prompts: map<Key, seq<string>>) returns (accepted: bool)
      modifies this`messages, this`idempotency
      ensures accepted <==> JournalMessage(old(Tables(prompts)), m).Some?
      ensures accepted ==> Some(Tables(prompts)) == JournalMessage(old(Tables(prompts)), m)
      ensures !accepted ==> Tables(prompts) == old(Tables(prompts))
    {
      var key := m.routing.idempotencyKey;
      if m.id !in messages && key !in idempotency {
        messages := messages[m.id := m];
        idempotency := idempotency[key := m.id];
        return true;
      }
      return key in idempotency && idempotency[key] in messages && messages[idempotency[key]] == m;
    }

    /** `ensure_delivery` */
    method Ensure(m: Message, ghost prompts: map<Key, seq<string>>)
      modifies this`deliveries
      ensures Tables(prompts) == EnsureDelivery(old(Tables(prompts)), m)
    {
      if KeyOf(m) !in deliveries {
        deliveries := deliveries[KeyOf(m) := Record([Journaled], None, None)];
      }
    }

    /** `transition_delivery`: an illegal move raises and changes nothing. */
    method TransitionDelivery(k: Key, to: State, reply: Option<string>, confidence: Option<Confidence>)
      returns (legal: bool)
      modifies this`deliveries
      ensures legal <==> k in old(deliveries) && old(deliveries)[k].history != [] &&
                         CanMove(old(deliveries)[k].history[|old(deliveries)[k].history| - 1], to)
      ensures legal ==> deliveries == old(deliveries)[k := Moving(old(deliveries)[k], to, reply, confidence)]
      ensures !legal ==> deliveries == old(deliveries)
    {
      if k !in deliveries || deliveries[k].history == [] { return false; }
      var h := deliveries[k].history;
      if to != h[|h| - 1] && to !in Allowed(h[|h| - 1]) { return false; }
      deliveries := deliveries[k := Moving(deliveries[k], to, reply, confidence)];
      return true;
    }
  }

  function ExecAll(b: Bridge, m: Message, c: Course): (after: Bridge)
    requires KeyOf(m) in b.deliveries
    ensures KeyOf(m) in after.deliveries
  {
    Exec(b, m, c, Length(c))
  }

  lemma ExecUnfold(b: Bridge, m: Message, c: Course)
    requires KeyOf(m) in b.deliveries
    ensures c.Stop? ==> ExecAll(b, m, c) == b
    ensures c.Then? ==> ExecAll(b, m, c) == ExecAll(Do(b, m, c.effect), m, c.rest)
  {
  }

  /** The last state on record. */
  ghost predicate At(b: Bridge, m: Message, s: State) {
    KeyOf(m) in b.deliveries && b.deliveries[KeyOf(m)].history != [] &&
    b.deliveries[KeyOf(m)].history[|b.deliveries[KeyOf(m)].history| - 1] == s
  }

  /** The number of effects a whole delivery takes, opening included. */
  function Whole(config: EngineConfig, b: Bridge, m: Message, a: Answers): nat {
    match JournalMessage(b, m)
    case None => 1
    case Some(journaled) => 2 + Length(CourseFrom(config, EnsureDelivery(journaled, m), m, a))
  }

  class BridgeEngine {
    const config: EngineConfig
    const journal: Journal
    var prompts: map<Key, seq<string>>

    constructor (config: EngineConfig, journal: Journal)
      ensures this.config == config && this.journal == journal && prompts == map[]
    {
      this.config, this.journal, prompts := config, journal, map[];
    }

    function State(): Bridge
      reads this, journal
    {
      journal.Tables(prompts)
    }

    /** `_transition`; that the move is legal is part of what every caller proves. */
    method Transition(m: Message, to: State, reply: Option<string>, confidence: Option<Confidence>)
      requires exists s :: At(State(), m, s) && CanMove(s, to)
      modifies journal`deliveries
      ensures State() == Do(old(State()), m, Moved(to, reply, confidence)) && At(State(), m, to)
    {
      var legal := journal.TransitionDelivery(KeyOf(m), to, reply, confidence);
      assert legal;
    }

    /** The last transition of a delivery. */
    method Conclude(m: Message, to: State, ghost from: State)
      requires At(State(), m, from) && CanMove(from, to)
      modifies journal`deliveries
      ensures State() == ExecAll(old(State()), m, Go(to, Stop))
    {
      ExecUnfold(State(), m, Go(to, Stop));
      Transition(m, to, None, None);
      ExecUnfold(State(), m, Stop);
    }

    /** `_complete_structured_reply`, and the like ending of a terminal capture. */
    method Complete(m: Message, text: string, confidence: Confidence, ghost from: State)
      requires At(State(), m, from) && from in {ActivityObserved, RuntimeSettled}
      modifies journal`deliveries
      ensures State() == ExecAll(old(State()), m, Captured(m, text, confidence))
    {
      hide ExecAll;
      ghost var course := Captured(m, text, confidence);
      ExecUnfold(State(), m, course);
      Transition(m, ReplyCaptured, Some(text), Some(confidence));
      ExecUnfold(State(), m, course.rest);
      if m.requireAck {
        Transition(m, Acknowledged, None, None);
        ExecUnfold(State(), m, Then(Boarded, Stop));
      }
      ExecUnfold(State(), m, Stop);
    }

    method ReadReply(m: Message, a: Answers)
      requires At(State(), m, RuntimeSettled)
      modifies journal`deliveries
      ensures State() == ExecAll(old(State()), m, AfterTurn(config, m, a))
    {
      hide ExecAll, Captured;
      if a.after.None? && a.finalReply.None? {
        Conclude(m, CaptureFailed, RuntimeSettled);
        return;
      }
      var before := if a.before.Some? then a.before.value else "";
      var after := if a.after.Some? then a.after.value else "";
      var capture := CaptureReplyFrom(before, after, m.marker, a.finalReply);
      if capture.text.None? || (m.requireAck && !Acceptable(config, capture.confidence)) {
        ghost var course := Then(Moved(CaptureFailed, capture.text, Some(capture.confidence)), Stop);
        ExecUnfold(State(), m, course);
        Transition(m, CaptureFailed, capture.text, Some(capture.confidence));
        ExecUnfold(State(), m, Stop);
        return;
      }
      Complete(m, capture.text.value, capture.confidence, RuntimeSettled);
    }

    method AwaitTurn(m: Message, a: Answers, observed: AgentInfo)
      requires At(State(), m, ActivityObserved)
      modifies journal`deliveries
      ensures State() == ExecAll(old(State()), m, AfterActivity(config, m, a, observed))
    {
      hide ExecAll, Captured, AfterTurn;
      if a.earlyReply.Some? {
        Complete(m, a.earlyReply.value, Structured, ActivityObserved);
        return;
      }
      var settled := observed;
      if !Settled(observed) {
        if a.settled.Err? {
          if a.lateReply.Some? {
            Complete(m, a.lateReply.value, Structured, ActivityObserved);
          } else {
            Conclude(m, if a.settled.error then Uncertain else FailedState, ActivityObserved);
          }
          return;
        }
        settled := a.settled.value;
      }
      if settled.status == Blocked {
        Conclude(m, BlockedState, ActivityObserved);
        return;
      }
      ExecUnfold(State(), m, Go(RuntimeSettled, AfterTurn(config, m, a)));
      Transition(m, RuntimeSettled, None, None);
      ReadReply(m, a);
    }

    /** `_observe_prompt_effect` */
    method ObservePromptEffect(before: AgentInfo, prompted: AgentInfo, polls: seq<Option<AgentInfo>>)
      returns (r: Result<Option<AgentInfo>, ()>)
      ensures r == Observe(before, prompted, polls)
    {
      if Stirred(before, prompted) { return Ok(Some(prompted)); }
      for i := 0 to |polls|
        invariant Observe(before, prompted, polls) == PollFrom(before, polls, i)
      {
        if polls[i].None? { return Err(()); }
        if Stirred(before, polls[i].value) { return Ok(Some(polls[i].value)); }
      }
      return Ok(None);
    }

    method WatchEffect(m: Message, a: Answers, live: AgentInfo, prompted: AgentInfo)
      requires At(State(), m, PromptSubmitted)
      modifies journal`deliveries
      ensures State() == ExecAll(old(State()), m, Watch(config, m, a, live, prompted))
    {
      hide ExecAll, AfterActivity;
      var observed := ObservePromptEffect(live, prompted, a.polls);
      if observed.Err? || observed.value.None? {
        Conclude(m, Uncertain, PromptSubmitted);
        return;
      }
      var now := observed.value.value;
      ExecUnfold(State(), m, Watch(config, m, a, live, prompted));
      Transition(m, ActivityObserved, None, None);
      if now.status == Blocked {
        Conclude(m, BlockedState, ActivityObserved);
      } else {
        AwaitTurn(m, a, now);
      }
    }

    /** Prompting the agent, and recording that it took the prompt. */
    method SendPrompt(m: Message, a: Answers, live: AgentInfo)
      requires At(State(), m, Ready)
      modifies this`prompts, journal`deliveries, journal`routes
      ensures State() == ExecAll(old(State()), m, AtReady(config, m, a, live))
    {
      hide ExecAll, Watch, PromptFrame;
      ExecUnfold(State(), m, AtReady(config, m, a, live));
      var k, frame := KeyOf(m), PromptFrame(m, m.recipient, config.journalDb);
      prompts := prompts[k := PromptsTo(State(), k) + [frame]];
      match a.prompted {
        case Err(AgentBlocked) => Conclude(m, BlockedState, Ready);
        case Err(Ambiguous) => Conclude(m, Uncertain, Ready);
        case Err(Rejected) => Conclude(m, FailedState, Ready);
        case Ok(prompted) =>
          ghost var watch := Watch(config, m, a, live, prompted);
          ExecUnfold(State(), m, Go(PromptSubmitted, Then(Routed, watch)));
          assert At(State(), m, Ready);
          Transition(m, PromptSubmitted, None, None);
          ExecUnfold(State(), m, Then(Routed, watch));
          journal.routes := journal.routes + {RouteOf(m)};
          WatchEffect(m, a, live, prompted);
      }
    }

    method ApproachTarget(m: Message, a: Answers, live: AgentInfo)
      requires At(State(), m, ResolvingTarget)
      modifies this`prompts, journal`deliveries, journal`routes
      ensures State() == ExecAll(old(State()), m, AtTarget(config, old(journal.routes), m, a, live))
    {
      hide ExecAll, AtReady, LoopSuspected;
      var now := live;
      if m.strictTurn {
        if now.status == Working {
          if a.waited.None? {
            Conclude(m, TargetUnavailable, ResolvingTarget);
            return;
          }
          now := a.waited.value;
        }
        if now.status == Blocked {
          ExecUnfold(State(), m, Go(Ready, Go(BlockedState, Stop)));
          Transition(m, Ready, None, None);
          Conclude(m, BlockedState, Ready);
          return;
        }
        if now.status == Unknown {
          Conclude(m, TargetUnavailable, ResolvingTarget);
          return;
        }
      }
      assert Approach(m, a, live) == Ok(now);
      ExecUnfold(State(), m, AtTarget(config, journal.routes, m, a, live));
      Transition(m, Ready, None, None);
      if LoopSuspected(journal.routes, m) {
        Conclude(m, Suppressed, Ready);
        return;
      }
      SendPrompt(m, a, now);
    }

    method FindTarget(m: Message, a: Answers)
      requires At(State(), m, ResolvingTarget)
      modifies this`prompts, journal`deliveries, journal`routes, journal`agents
      ensures State() == ExecAll(old(State()), m, Resolve(config, old(journal.agents), old(journal.routes), m, a))
    {
      hide ExecAll, AtTarget;
      if m.recipient !in journal.agents || a.live.None? || Stale(journal.agents[m.recipient], a.live.value) {
        Conclude(m, TargetUnavailable, ResolvingTarget);
        return;
      }
      var live := a.live.value;
      ExecUnfold(State(), m, Resolve(config, journal.agents, journal.routes, m, a));
      journal.agents := journal.agents[m.recipient :=
        journal.agents[m.recipient].(terminalId := live.terminalId, native := live.native)];
      ApproachTarget(m, a, live);
    }

    method Project(m: Message, a: Answers)
      requires At(State(), m, Journaled)
      modifies this`prompts, journal`deliveries, journal`routes, journal`agents
      ensures State() == ExecAll(old(State()), m, Dispatch(config, old(journal.agents), old(journal.routes), m, a))
    {
      hide ExecAll, Resolve;
      ghost var resolve := Resolve(config, journal.agents, journal.routes, m, a);
      ghost var suppress := Go(Ready, Go(Suppressed, Stop));
      ExecUnfold(State(), m, Then(Boarded, Go(ResolvingTarget, resolve)));
      ExecUnfold(State(), m, Then(Boarded, Go(ResolvingTarget, suppress)));
      ExecUnfold(State(), m, Go(ResolvingTarget, resolve));
      ExecUnfold(State(), m, Go(ResolvingTarget, suppress));
      Transition(m, ResolvingTarget, None, None);
      if m.projection == BoardOnly {
        ExecUnfold(State(), m, suppress);
        Transition(m, Ready, None, None);
        Conclude(m, Suppressed, Ready);
        return;
      }
      FindTarget(m, a);
    }

    /** `deliver`, uninterrupted: the whole of the course, and nothing at all when the delivery had
      already got beyond the journal. */
    method DeliverMessage(m: Message, a: Answers) returns (r: Result<Record, ()>)
      modifies this`prompts, journal
      ensures State() == Deliver(config, old(State()), m, a, Whole(config, old(State()), m, a))
      ensures r == if JournalMessage(old(State()), m).None? then Err(())
                   else if KeyOf(m) in State().deliveries then Ok(State().deliveries[KeyOf(m)]) else Err(())
      ensures var b := old(State());
        JournalMessage(b, m).Some? && NotBegun(b, KeyOf(m)) ==>
        State() == WithAccount(Started(b, m), m, AccountOf(config, b.locks, b.agents, b.routes, m, a))
    {
      hide CourseFrom, Exec, WithAccount, AccountOf, JournalMessage;
      ghost var before := State();
      if JournalMessage(before, m).Some? && NotBegun(before, KeyOf(m)) {
        DeliveryLeaves(config, before, m, a, Whole(config, before, m, a));
      }
      var accepted := journal.Enter(m, prompts);
      if !accepted { return Err(()); }
      journal.Ensure(m, prompts);
      Begin(m, a);
      return Ok(journal.deliveries[KeyOf(m)]);
    }

    method Begin(m: Message, a: Answers)
      requires KeyOf(m) in State().deliveries
      modifies this`prompts, journal`deliveries, journal`routes, journal`agents
      ensures State() == ExecAll(old(State()), m, CourseFrom(config, old(State()), m, a))
    {
      hide ExecAll, Dispatch, Preflight;
      ExecUnfold(State(), m, CourseFrom(config, State(), m, a));
      var h := journal.deliveries[KeyOf(m)].history;
      if h == [] || h[|h| - 1] != Journaled { return; }
      var gate := Preflight(config, journal.locks, journal.agents, m);
      if gate.Refuse? {
        RefusalIsLegal(config, journal.locks, journal.agents, m);
        Conclude(m, gate.state, Journaled);
        return;
      }
      assert At(State(), m, Journaled);
      Transition(m, Journaled, None, None);
      Project(m, a);
    }
  }

  lemma RefusalIsLegal(config: EngineConfig, locks: map<string, TargetLock>, agents: map<string, Binding>, m: Message)
    ensures var gate := Preflight(config, locks, agents, m); gate.Refuse? ==> CanMove(Journaled, gate.state)
  {
  }
}
