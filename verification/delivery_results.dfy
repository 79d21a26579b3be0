/** What a delivery leaves on record: every state it passes, the reply it keeps and how far that can be trusted. */
module DeliveryResults {
  import opened Prelude
  import opened BridgeModels
  import opened TerminalText
  import opened Capture
  import opened Delivery
  import opened DeliveryRuns

  /** The states a delivery passes after it was journaled, the reply and confidence it ends with, and what it did
    outside its record. */
  datatype Account = Account(
    path: seq<State>, reply: Option<string>, confidence: Option<Confidence>,
    prompts: seq<string>, routed: bool, rebound: Option<Binding>)

  // What a delivery comes to, told without its course

  function Passing(path: seq<State>): Account { Account(path, None, None, [], false, None) }

  /** A reply in hand. */
  function Replied(m: Message, text: string, confidence: Confidence): Account {
    var path := if m.requireAck then [ReplyCaptured, Acknowledged] else [ReplyCaptured];
    Account(path, Some(text), Some(confidence), [], false, None)
  }

  function After(state: State, account: Account): Account { account.(path := [state] + account.path) }

  /** What is seen after the prompt: first the answer to it, then each poll. */
  function Sights(prompted: AgentInfo, polls: seq<Option<AgentInfo>>)
    : seq<Option<AgentInfo>>
  {
    [Some(prompted)] + polls
  }

  predicate HasStirred(live: AgentInfo, sight: Option<AgentInfo>) {
    sight.Some? && (sight.value.changeSeq > live.changeSeq || sight.value.status != live.status)
  }

  /** The agent is first seen to have stirred at `k`, and was visible all the time before. */
  predicate FirstMoves(live: AgentInfo, sights: seq<Option<AgentInfo>>, k: nat) {
    && k < |sights| && HasStirred(live, sights[k])
    && forall j | 0 <= j < k :: sights[j].Some? && !HasStirred(live, sights[j])
  }

  /** From the moment the turn is over. */
  function AtTurnEnd(config: EngineConfig, m: Message, a: Answers): Account {
    if a.after.None? && a.finalReply.None? then Passing([CaptureFailed])
    else
      var before := match a.before case Some(text) => text case None => "";
      var after := match a.after case Some(text) => text case None => "";
      var read := CaptureReply(before, after, m.marker, a.finalReply);
      var enough := read.confidence in {Structured, TurnFenced}
        || (config.allowHeuristic && read.confidence == Heuristic);
      if read.text.Some? && (m.requireAck ==> enough) then Replied(m, read.text.value, read.confidence)
      else Account([CaptureFailed], read.text, Some(read.confidence), [], false, None)
  }

  /** From the moment the agent, seen as `now`, has stirred. */
  function AtActivity(config: EngineConfig, m: Message, a: Answers, now: AgentInfo): Account {
    var resting := now.status in {Idle, Done};
    if now.status == Blocked then Passing([BlockedState])
    else if a.earlyReply.Some? then Replied(m, a.earlyReply.value, Structured)
    else if resting || (a.settled.Ok? && a.settled.value.status != Blocked) then
      After(RuntimeSettled, AtTurnEnd(config, m, a))
    else if a.settled.Ok? then Passing([BlockedState])
    else if a.lateReply.Some? then Replied(m, a.lateReply.value, Structured)
    else Passing([if a.settled.error then Uncertain else FailedState])
  }

  /** From the moment the prompt was sent. */
  ghost function AtPrompt(config: EngineConfig, m: Message, a: Answers, live: AgentInfo): Account {
    match a.prompted
    case Err(AgentBlocked) => Passing([BlockedState])
    case Err(Ambiguous) => Passing([Uncertain])
    case Err(Rejected) => Passing([FailedState])
    case Ok(prompted) =>
      var sights := Sights(prompted, a.polls);
      After(PromptSubmitted,
        if k: nat :| FirstMoves(live, sights, k) then After(ActivityObserved, AtActivity(config, m, a, sights[k].value))
        else Passing([Uncertain])).(routed := true)
  }

  predicate SameTarget(binding: Binding, live: AgentInfo) {
    live.terminalId == binding.terminalId || (binding.native.Some? && binding.native == live.native)
  }

  /** The agent as it stands when a prompt may go out; none if it did not come to rest. */
  function Approached(m: Message, a: Answers, live: AgentInfo): Option<AgentInfo> {
    if m.strictTurn && live.status == Working then a.waited else Some(live)
  }

  ghost predicate Looping(routes: set<Route>, m: Message) {
    || m.routing.hopCount >= m.routing.maxHops || m.routing.autoReplyDepth >= m.routing.maxAutoReplyDepth
    || exists r :: r in routes && r.sender == m.sender && r.recipient == m.recipient && r.threadId == m.threadId
                   && r.payloadHash == m.routing.payloadHash
  }

  /** From the moment the target is being resolved. */
  ghost function AtResolving(config: EngineConfig, agents: map<string, Binding>, routes: set<Route>, m: Message,
                             a: Answers)
    : Account
  {
    if m.recipient !in agents || a.live.None? || !SameTarget(agents[m.recipient], a.live.value)
      then Passing([TargetUnavailable])
    else
      var live := a.live.value;
      var found := agents[m.recipient].(terminalId := live.terminalId, native := live.native);
      var now := Approached(m, a, live);
      var frame := PromptFrame(m, m.recipient, config.journalDb);
      var account :=
        if now.None? || (m.strictTurn && now.value.status == Unknown) then Passing([TargetUnavailable])
        else if m.strictTurn && now.value.status == Blocked then Passing([Ready, BlockedState])
        else if Looping(routes, m) then Passing([Ready, Suppressed])
        else After(Ready, AtPrompt(config, m, a, now.value)).(prompts := [frame]);
      account.(rebound := Some(found))
  }

  /** What a delivery that is only journaled comes to. */
  ghost function AccountOf(config: EngineConfig, locks: map<string, TargetLock>, agents: map<string, Binding>,
                           routes: set<Route>, m: Message, a: Answers): Account
  {
    var named := m.authority.lockId !in {None, Some("")};
    var stands := named && LockStands(locks, m);
    var bound := stands && m.recipient in agents && ThreadFits(locks[m.authority.lockId.value], agents[m.recipient]);
    if m.authority.mode != ParentDerived && (if named then !stands else config.requireLock)
      then Passing([TargetAuthorityMismatch])
    else if m.authority.mode != ParentDerived && named && !bound then Passing([ExactNativeTargetNotBound])
    else After(Journaled, After(ResolvingTarget,
      if m.projection == BoardOnly then Passing([Ready, Suppressed]) else AtResolving(config, agents, routes, m, a)))
  }

  // The course comes to just that

  /** What a course moves, sends and records. */
  function Tells(c: Course): Account {
    match c
    case Stop => Passing([])
    case Then(e, rest) =>
      var later := Tells(rest);
      match e
      case Moved(state, reply, confidence) =>
        later.(path := [state] + later.path, reply := Coalesce(later.reply, reply),
               confidence := Coalesce(later.confidence, confidence))
      case Boarded => later
      case Rebound(binding) => later.(rebound := Coalesce(later.rebound, Some(binding)))
      case Prompted(frame) => later.(prompts := [frame] + later.prompts)
      case Routed => later.(routed := true)
  }

  lemma GoTells(state: State, rest: Course)
    ensures Tells(Go(state, rest)) == After(state, Tells(rest))
    ensures Tells(Go(state, Stop)) == Passing([state])
  {
  }

  lemma CapturedTells(m: Message, text: string, confidence: Confidence)
    ensures Tells(Captured(m, text, confidence)) == Replied(m, text, confidence)
  {
    var last := Then(Boarded, Stop);
    assert Tells(last) == Passing([]);
    GoTells(Acknowledged, last);
    var rest := if m.requireAck then Go(Acknowledged, last) else last;
    assert Tells(rest) == Passing(if m.requireAck then [Acknowledged] else []);
    assert [ReplyCaptured] + [Acknowledged] == [ReplyCaptured, Acknowledged];
  }

  lemma AfterTurnTells(config: EngineConfig, m: Message, a: Answers)
    ensures Tells(AfterTurn(config, m, a)) == AtTurnEnd(config, m, a)
  {
    hide CaptureReply, Captured;
    GoTells(CaptureFailed, Stop);
    var before, after := if a.before.Some? then a.before.value else "", if a.after.Some? then a.after.value else "";
    var read := CaptureReply(before, after, m.marker, a.finalReply);
    assert Tells(Then(Moved(CaptureFailed, read.text, Some(read.confidence)), Stop)) ==
      Account([CaptureFailed], read.text, Some(read.confidence), [], false, None);
    if read.text.Some? { CapturedTells(m, read.text.value, read.confidence); }
  }

  lemma AfterActivityTells(config: EngineConfig, m: Message, a: Answers, now: AgentInfo)
    requires now.status != Blocked
    ensures Tells(AfterActivity(config, m, a, now)) == AtActivity(config, m, a, now)
  {
    hide AfterTurn, Captured, AtTurnEnd;
    AfterTurnTells(config, m, a);
    GoTells(RuntimeSettled, AfterTurn(config, m, a));
    GoTells(BlockedState, Stop);
    GoTells(Uncertain, Stop);
    GoTells(FailedState, Stop);
    if a.earlyReply.Some? { CapturedTells(m, a.earlyReply.value, Structured); }
    if a.lateReply.Some? { CapturedTells(m, a.lateReply.value, Structured); }
  }

  /** The polling loop stops where the agent is first seen to stir. */
  lemma {:induction false} PollsFindFirst(live: AgentInfo, prompted: AgentInfo, polls: seq<Option<AgentInfo>>, i: nat)
    requires i <= |polls|
    requires forall j | 0 <= j <= i :: Sights(prompted, polls)[j].Some? && !HasStirred(live, Sights(prompted, polls)[j])
    ensures var found := PollFrom(live, polls, i);
      if found.Ok? && found.value.Some? then
        exists k: nat :: k < |polls| + 1 && FirstMoves(live, Sights(prompted, polls), k)
                         && Sights(prompted, polls)[k] == found.value
      else forall k: nat :: !FirstMoves(live, Sights(prompted, polls), k)
    decreases |polls| - i
  {
    var sights := Sights(prompted, polls);
    if i < |polls| {
      assert sights[i + 1] == polls[i];
      if polls[i].Some? && !HasStirred(live, polls[i]) {
        PollsFindFirst(live, prompted, polls, i + 1);
      } else if polls[i].Some? {
        assert FirstMoves(live, sights, i + 1);
      }
    }
  }

  lemma FirstIsUnique(live: AgentInfo, sights: seq<Option<AgentInfo>>, j: nat, k: nat)
    requires FirstMoves(live, sights, j) && FirstMoves(live, sights, k)
    ensures j == k
  {
  }

  lemma ObserveFindsFirst(live: AgentInfo, prompted: AgentInfo, polls: seq<Option<AgentInfo>>)
    ensures var found, sights := Observe(live, prompted, polls), Sights(prompted, polls);
      if found.Ok? && found.value.Some? then
        exists k: nat :: k < |sights| && FirstMoves(live, sights, k) && sights[k] == found.value
      else forall k: nat :: !FirstMoves(live, sights, k)
  {
    if HasStirred(live, Some(prompted)) {
      assert FirstMoves(live, Sights(prompted, polls), 0);
    } else {
      PollsFindFirst(live, prompted, polls, 0);
    }
  }

  lemma WatchTells(config: EngineConfig, m: Message, a: Answers, live: AgentInfo)
    requires a.prompted.Ok?
    ensures After(PromptSubmitted, Tells(Watch(config, m, a, live, a.prompted.value))).(routed := true)
            == AtPrompt(config, m, a, live)
  {
    hide AfterActivity, AtActivity, Observe, FirstMoves;
    var prompted, sights := a.prompted.value, Sights(a.prompted.value, a.polls);
    ObserveFindsFirst(live, prompted, a.polls);
    GoTells(Uncertain, Stop);
    var found := Observe(live, prompted, a.polls);
    if found.Ok? && found.value.Some? {
      var now := found.value.value;
      var k: nat :| k < |sights| && FirstMoves(live, sights, k) && sights[k] == found.value;
      forall j: nat | FirstMoves(live, sights, j) ensures j == k { FirstIsUnique(live, sights, j, k); }
      GoTells(BlockedState, Stop);
      GoTells(ActivityObserved,
              if now.status == Blocked then Go(BlockedState, Stop) else AfterActivity(config, m, a, now));
      if now.status != Blocked { AfterActivityTells(config, m, a, now); } else { BlockedAtOnce(config, m, a, now); }
    }
  }

  lemma BlockedAtOnce(config: EngineConfig, m: Message, a: Answers, now: AgentInfo)
    requires now.status == Blocked
    ensures AtActivity(config, m, a, now) == Passing([BlockedState])
  {
  }

  lemma AtReadyTells(config: EngineConfig, m: Message, a: Answers, live: AgentInfo)
    ensures Tells(AtReady(config, m, a, live)) ==
            AtPrompt(config, m, a, live).(prompts := [PromptFrame(m, m.recipient, config.journalDb)])
  {
    hide PromptFrame, Watch;
    GoTells(BlockedState, Stop);
    GoTells(Uncertain, Stop);
    GoTells(FailedState, Stop);
    if a.prompted.Ok? {
      var watch := Watch(config, m, a, live, a.prompted.value);
      WatchTells(config, m, a, live);
      GoTells(PromptSubmitted, Then(Routed, watch));
      WatchSendsNothing(config, m, a, live);
    }
  }

  lemma WatchSendsNothing(config: EngineConfig, m: Message, a: Answers, live: AgentInfo)
    ensures var account := AtPrompt(config, m, a, live); account.prompts == [] && account.rebound.None?
  {
    hide CaptureReply;
  }

  lemma AtTargetTells(config: EngineConfig, routes: set<Route>, m: Message, a: Answers, live: AgentInfo)
    ensures Tells(AtTarget(config, routes, m, a, live)) ==
      var now := Approached(m, a, live);
      if now.None? || (m.strictTurn && now.value.status == Unknown) then Passing([TargetUnavailable])
      else if m.strictTurn && now.value.status == Blocked then Passing([Ready, BlockedState])
      else if Looping(routes, m) then Passing([Ready, Suppressed])
      else After(Ready, AtPrompt(config, m, a, now.value)).(prompts := [PromptFrame(m, m.recipient, config.journalDb)])
  {
    hide PromptFrame, AtReady, AtPrompt;
    GoTells(TargetUnavailable, Stop);
    GoTells(BlockedState, Stop);
    GoTells(Ready, Go(BlockedState, Stop));
    GoTells(Suppressed, Stop);
    GoTells(Ready, Go(Suppressed, Stop));
    LoopingIs(routes, m);
    var now := Approached(m, a, live);
    if now.Some? {
      AtReadyTells(config, m, a, now.value);
      GoTells(Ready, AtReady(config, m, a, now.value));
    }
  }

  lemma LoopingIs(routes: set<Route>, m: Message)
    ensures LoopSuspected(routes, m) <==> Looping(routes, m)
  {
    if RouteOf(m) in routes { assert Looping(routes, m); }
    if r :| r in routes && r.sender == m.sender && r.recipient == m.recipient && r.threadId == m.threadId
            && r.payloadHash == m.routing.payloadHash
    {
      assert r == RouteOf(m);
    }
  }

  lemma ResolveTells(config: EngineConfig, agents: map<string, Binding>, routes: set<Route>, m: Message, a: Answers)
    ensures Tells(Resolve(config, agents, routes, m, a)) == AtResolving(config, agents, routes, m, a)
  {
    hide PromptFrame, AtTarget, AtPrompt, Looping;
    GoTells(TargetUnavailable, Stop);
    if m.recipient in agents && a.live.Some? && SameTarget(agents[m.recipient], a.live.value) {
      AtTargetTells(config, routes, m, a, a.live.value);
      assert forall live :: AtPrompt(config, m, a, live).rebound.None? by {
        forall live ensures AtPrompt(config, m, a, live).rebound.None? { WatchSendsNothing(config, m, a, live); }
      }
    }
  }

  lemma DispatchTells(config: EngineConfig, agents: map<string, Binding>, routes: set<Route>, m: Message, a: Answers)
    ensures Tells(Dispatch(config, agents, routes, m, a)) == After(ResolvingTarget,
      if m.projection == BoardOnly then Passing([Ready, Suppressed]) else AtResolving(config, agents, routes, m, a))
  {
    hide Resolve, AtResolving;
    ResolveTells(config, agents, routes, m, a);
    GoTells(ResolvingTarget, Resolve(config, agents, routes, m, a));
    GoTells(Suppressed, Stop);
    GoTells(Ready, Go(Suppressed, Stop));
    GoTells(ResolvingTarget, Go(Ready, Go(Suppressed, Stop)));
  }

  /** The course of a fresh delivery tells its account. */
  lemma FreshTells(config: EngineConfig, locks: map<string, TargetLock>, agents: map<string, Binding>,
                   routes: set<Route>, m: Message, a: Answers)
    ensures Tells(Fresh(config, locks, agents, routes, m, a)) == AccountOf(config, locks, agents, routes, m, a)
  {
    hide Dispatch, AtResolving, Preflight, LockStands, ThreadFits;
    PreflightIs(config, locks, agents, m);
    RefusalsAreFinal(config, locks, agents, m);
    DispatchTells(config, agents, routes, m, a);
    GoTells(Journaled, Dispatch(config, agents, routes, m, a));
    GoTells(TargetAuthorityMismatch, Stop);
    GoTells(ExactNativeTargetNotBound, Stop);
  }

  // What is left behind

  /** The bridge after a delivery of `m` with this account. */
  function WithAccount(b: Bridge, m: Message, account: Account): Bridge
    requires KeyOf(m) in b.deliveries
  {
    var k, r := KeyOf(m), b.deliveries[KeyOf(m)];
    b.(deliveries := b.deliveries[k := Record(r.history + account.path, Coalesce(account.confidence, r.confidence),
                                              Coalesce(account.reply, r.reply))],
       routes := if account.routed then b.routes + {Route(m.sender, m.recipient, m.threadId, m.routing.payloadHash)}
                 else b.routes,
       agents := if account.rebound.Some? then b.agents[m.recipient := account.rebound.value] else b.agents,
       prompts := if account.prompts == [] then b.prompts else b.prompts[k := PromptsTo(b, k) + account.prompts])
  }

  lemma NothingTold(b: Bridge, m: Message)
    requires KeyOf(m) in b.deliveries
    ensures WithAccount(b, m, Passing([])) == b
  {
    var r := b.deliveries[KeyOf(m)];
    assert Record(r.history + [], r.confidence, r.reply) == r;
    assert b.deliveries[KeyOf(m) := r] == b.deliveries;
  }

  lemma MovedTold(b: Bridge, m: Message, e: Effect, later: Account)
    requires KeyOf(m) in b.deliveries && e.Moved?
    ensures KeyOf(m) in Do(b, m, e).deliveries
    ensures WithAccount(Do(b, m, e), m, later) ==
      WithAccount(b, m, later.(path := [e.state] + later.path, reply := Coalesce(later.reply, e.reply),
                               confidence := Coalesce(later.confidence, e.confidence)))
  {
    var r := b.deliveries[KeyOf(m)];
    assert (r.history + [e.state]) + later.path == r.history + ([e.state] + later.path);
  }

  lemma PromptedTold(b: Bridge, m: Message, frame: string, later: Account)
    requires KeyOf(m) in b.deliveries
    ensures KeyOf(m) in Do(b, m, Prompted(frame)).deliveries
    ensures WithAccount(Do(b, m, Prompted(frame)), m, later) ==
            WithAccount(b, m, later.(prompts := [frame] + later.prompts))
  {
    hide Coalesce;
    var sent := PromptsTo(b, KeyOf(m));
    var k, after := KeyOf(m), Do(b, m, Prompted(frame));
    assert (sent + [frame]) + later.prompts == sent + ([frame] + later.prompts) && [frame] + [] == [frame];
    assert PromptsTo(after, k) == sent + [frame];
    assert b.prompts[k := sent + [frame]][k := (sent + [frame]) + later.prompts]
        == b.prompts[k := sent + ([frame] + later.prompts)];
  }

  lemma RestTold(b: Bridge, m: Message, e: Effect, later: Account)
    requires KeyOf(m) in b.deliveries && (e.Rebound? || e.Routed? || e.Boarded?)
    ensures KeyOf(m) in Do(b, m, e).deliveries
    ensures WithAccount(Do(b, m, e), m, later) ==
      WithAccount(b, m, if e.Rebound? then later.(rebound := Coalesce(later.rebound, Some(e.binding)))
                        else if e.Routed? then later.(routed := true) else later)
  {
  }

  lemma OneMoreTold(b: Bridge, m: Message, e: Effect, rest: Course)
    requires KeyOf(m) in b.deliveries
    ensures KeyOf(m) in Do(b, m, e).deliveries
    ensures WithAccount(Do(b, m, e), m, Tells(rest)) == WithAccount(b, m, Tells(Then(e, rest)))
  {
    hide WithAccount, Do;
    match e
    case Moved(_, _, _) => MovedTold(b, m, e, Tells(rest));
    case Prompted(frame) => PromptedTold(b, m, frame, Tells(rest));
    case _ => RestTold(b, m, e, Tells(rest));
  }

  lemma {:induction false} ExecTells(b: Bridge, m: Message, c: Course, steps: nat)
    requires KeyOf(m) in b.deliveries && steps >= Length(c)
    ensures Exec(b, m, c, steps) == WithAccount(b, m, Tells(c))
    decreases c
  {
    hide WithAccount, Tells, Do;
    match c
    case Stop => NothingTold(b, m); TellsNothing();
    case Then(e, rest) =>
      OneMoreTold(b, m, e, rest);
      ExecTells(Do(b, m, e), m, rest, steps - 1);
  }

  lemma TellsNothing()
    ensures Tells(Stop) == Passing([])
  {
  }

  /** The bridge once the message and a record of its delivery are journaled. */
  function Started(b: Bridge, m: Message): (started: Bridge)
    requires JournalMessage(b, m).Some?
    ensures KeyOf(m) in started.deliveries
  {
    EnsureDelivery(JournalMessage(b, m).value, m)
  }

  /** The delivery is not cut short. */
  predicate Uncut(config: EngineConfig, b: Bridge, m: Message, a: Answers, steps: nat) {
    JournalMessage(b, m).Some? && steps >= 2 + Length(CourseFrom(config, Started(b, m), m, a))
  }

  /** Left alone, a delivery that had not got beyond the journal leaves exactly what its account says, and everything
    else as it was. */
  lemma DeliveryLeaves(config: EngineConfig, b: Bridge, m: Message, a: Answers, steps: nat)
    requires Uncut(config, b, m, a, steps) && NotBegun(b, KeyOf(m))
    ensures Deliver(config, b, m, a, steps) ==
      WithAccount(Started(b, m), m, AccountOf(config, b.locks, b.agents, b.routes, m, a))
  {
    hide AccountOf, Tells, Fresh, WithAccount, Exec;
    var ensured := EnsureDelivery(JournalMessage(b, m).value, m);
    EntryKeepsRest(b, m);
    FreshTells(config, b.locks, b.agents, b.routes, m, a);
    ExecTells(ensured, m, CourseFrom(config, ensured, m, a), steps - 2);
  }

  // The reply that was sent is the reply on record

  /** The agent at `live` takes the prompt, stirs, and ends its turn unblocked; no structured reply interferes, and
    the screen is read. */
  ghost predicate TurnIsRead(a: Answers, live: AgentInfo) {
    && a.prompted.Ok? && a.earlyReply.None? && a.finalReply.None? && a.after.Some?
    && exists k: nat :: FirstMoves(live, Sights(a.prompted.value, a.polls), k)
         && EndsTurn(a, Sights(a.prompted.value, a.polls)[k].value)
  }

  predicate EndsTurn(a: Answers, now: AgentInfo) {
    now.status in {Idle, Done} || (now.status != Blocked && a.settled.Ok? && a.settled.value.status != Blocked)
  }

  lemma TurnIsAccounted(config: EngineConfig, m: Message, a: Answers, live: AgentInfo)
    requires TurnIsRead(a, live)
    ensures var account, end := AtPrompt(config, m, a, live), AtTurnEnd(config, m, a);
      && account.reply == end.reply && account.confidence == end.confidence
      && account.path == [PromptSubmitted, ActivityObserved, RuntimeSettled] + end.path
  {
    hide AtTurnEnd;
    var sights := Sights(a.prompted.value, a.polls);
    var k: nat :| FirstMoves(live, sights, k) && EndsTurn(a, sights[k].value);
    forall j: nat | FirstMoves(live, sights, j) ensures j == k { FirstIsUnique(live, sights, j, k); }
  }

  /** The target is found and at rest, and no loop is suspected: the prompt goes out. */
  ghost predicate PromptGoesOut(config: EngineConfig, b: Bridge, m: Message, a: Answers) {
    AccountOf(config, b.locks, b.agents, b.routes, m, a).prompts != []
  }

  lemma PromptIsAccounted(config: EngineConfig, b: Bridge, m: Message, a: Answers)
    requires PromptGoesOut(config, b, m, a)
    ensures a.live.Some? && Approached(m, a, a.live.value).Some?
    ensures var account := AccountOf(config, b.locks, b.agents, b.routes, m, a);
      var rest := AtPrompt(config, m, a, Approached(m, a, a.live.value).value);
      && account.reply == rest.reply && account.confidence == rest.confidence
      && account.path == [Journaled, ResolvingTarget, Ready] + rest.path
  {
    hide AtPrompt, PromptFrame, SameTarget, Looping, LockStands, ThreadFits;
    assert forall path: seq<State> :: [Journaled] + ([ResolvingTarget] + ([Ready] + path))
                                   == [Journaled, ResolvingTarget, Ready] + path;
  }

  /** The record a new delivery leaves. */
  lemma NewRecord(config: EngineConfig, b: Bridge, m: Message, a: Answers, steps: nat)
    requires Uncut(config, b, m, a, steps) && KeyOf(m) !in b.deliveries
    ensures var after, account := Deliver(config, b, m, a, steps), AccountOf(config, b.locks, b.agents, b.routes, m, a);
      KeyOf(m) in after.deliveries
      && after.deliveries[KeyOf(m)] == Record([Journaled] + account.path, account.confidence, account.reply)
  {
    hide AccountOf, CourseFrom, Deliver;
    DeliveryLeaves(config, b, m, a, steps);
  }

  /** End to end: a new message is prompted, the turn ends, and the screen shows what stood there before, the frame,
    the reply and the marker.  The record keeps the reply, stripped, with the confidence of a turn fence, if and only
    if the reply is not blank and lacks the close tag; it is then acknowledged if that was asked for. */
  lemma ReplyIsRecordedIff(config: EngineConfig, b: Bridge, m: Message, a: Answers, steps: nat, before: string,
                           reply: string, r: Record)
    requires Uncut(config, b, m, a, steps) && KeyOf(m) !in b.deliveries && MarkerFits(m.marker)
    requires PromptGoesOut(config, b, m, a) && a.live.Some? && Approached(m, a, a.live.value).Some?
    requires TurnIsRead(a, Approached(m, a, a.live.value).value)
    requires before == (match a.before case Some(text) => text case None => "")
    requires a.after == Some(before + PromptFrame(m, m.recipient, config.journalDb) + reply + "\n" + m.marker + "\n")
    requires r == Recorded(Deliver(config, b, m, a, steps), KeyOf(m))
    ensures r.reply == Some(Strip(reply)) && r.confidence == Some(TurnFenced) <==>
            Strip(reply) != "" && !Contains(reply, CLOSE_TAG)
    ensures Strip(reply) != "" && !Contains(reply, CLOSE_TAG) ==>
      r.history == [Journaled, Journaled, ResolvingTarget, Ready, PromptSubmitted, ActivityObserved, RuntimeSettled]
        + if m.requireAck then [ReplyCaptured, Acknowledged] else [ReplyCaptured]
  {
    hide CourseFrom, Deliver, AccountOf, AtPrompt, PromptFrame, Strip, Contains, CaptureReply, TurnIsRead,
      PromptGoesOut, Uncut, JournalMessage, EnsureDelivery, MarkerFits;
    var live := Approached(m, a, a.live.value).value;
    NewRecord(config, b, m, a, steps);
    PromptIsAccounted(config, b, m, a);
    TurnIsAccounted(config, m, a, live);
    ReplyComesBackIff(before, m, m.recipient, config.journalDb, reply);
    ScreenIsRead(a, live);
  }

  lemma ScreenIsRead(a: Answers, live: AgentInfo)
    requires TurnIsRead(a, live)
    ensures a.finalReply.None? && a.after.Some?
  {
  }

  function Recorded(b: Bridge, k: Key): Record {
    if k in b.deliveries then b.deliveries[k] else Record([], None, None)
  }

  // What the journal accepts

  /** Messages are kept under their own ids, and each idempotency key leads to the one message that has it. */
  ghost predicate JournalInv(b: Bridge) {
    && (forall id | id in b.messages :: b.messages[id].id == id)
    && (forall id | id in b.messages ::
          var key := b.messages[id].routing.idempotencyKey; key in b.idempotency && b.idempotency[key] == id)
    && (forall key | key in b.idempotency ::
          b.idempotency[key] in b.messages && b.messages[b.idempotency[key]].routing.idempotencyKey == key)
  }

  lemma {:induction false} ExecKeepsEntries(b: Bridge, m: Message, c: Course, steps: nat)
    requires KeyOf(m) in b.deliveries
    ensures var after := Exec(b, m, c, steps); after.messages == b.messages && after.idempotency == b.idempotency
    decreases c
  {
    if c.Then? && steps > 0 { ExecKeepsEntries(Do(b, m, c.effect), m, c.rest, steps - 1); }
  }

  lemma EntryKeepsJournal(b: Bridge, m: Message)
    requires JournalInv(b) && JournalMessage(b, m).Some?
    ensures JournalInv(JournalMessage(b, m).value)
  {
  }

  lemma DeliverKeepsJournal(config: EngineConfig, b: Bridge, m: Message, a: Answers, steps: nat)
    requires JournalInv(b)
    ensures JournalInv(Deliver(config, b, m, a, steps))
  {
    hide JournalMessage, CourseFrom, Exec;
    if steps > 0 && JournalMessage(b, m).Some? {
      EntryKeepsJournal(b, m);
      var ensured := EnsureDelivery(JournalMessage(b, m).value, m);
      if steps > 1 { ExecKeepsEntries(ensured, m, CourseFrom(config, ensured, m, a), steps - 2); }
    }
  }

  lemma {:induction false} RunKeepsJournal(config: EngineConfig, b: Bridge, actions: seq<Action>)
    requires JournalInv(b)
    ensures JournalInv(Run(config, b, actions))
    decreases |actions|
  {
    hide Deliver;
    if actions != [] {
      if actions[0].Attempt? {
        DeliverKeepsJournal(config, b, actions[0].message, actions[0].answers, actions[0].steps);
      }
      RunKeepsJournal(config, Apply(config, b, actions[0]), actions[1..]);
    }
  }

  /** After any run the journal accepts a message if and only if whatever it has seen under its id or its idempotency
    key is that very message; it then holds just one message more, or the same. */
  lemma EnteredIff(config: EngineConfig, actions: seq<Action>, m: Message)
    ensures var b := Run(config, EMPTY, actions);
      && (JournalMessage(b, m).Some? <==>
          forall x | x in b.messages.Values && (x.id == m.id || x.routing.idempotencyKey == m.routing.idempotencyKey) ::
            x == m)
      && (JournalMessage(b, m).Some? ==>
          JournalMessage(b, m).value.messages.Values == b.messages.Values + {m}
          && JournalMessage(b, m).value.deliveries == b.deliveries)
  {
    RunKeepsJournal(config, EMPTY, actions);
    hide Run;
    var b := Run(config, EMPTY, actions);
    var key := m.routing.idempotencyKey;
    if m.id in b.messages { assert b.messages[m.id] in b.messages.Values; }
    if key in b.idempotency { assert b.messages[b.idempotency[key]] in b.messages.Values; }
    if m.id !in b.messages && key !in b.idempotency { ValuesGrow(b.messages, m); }
  }

  lemma ValuesGrow(messages: map<string, Message>, m: Message)
    requires m.id !in messages
    ensures messages[m.id := m].Values == messages.Values + {m}
  {
    var more := messages[m.id := m];
    forall x | x in messages.Values ensures x in more.Values {
      var id :| id in messages && messages[id] == x;
      assert more[id] == x;
    }
    assert more[m.id] == m;
  }

  // The transition graph, seen from where a delivery may come

  /** How far along a state is; whatever cannot be left is last. */
  function Progress(s: State): nat {
    match s
    case Journaled => 0
    case ResolvingTarget => 1
    case Ready => 2
    case PromptSubmitted => 3
    case ActivityObserved => 4
    case RuntimeSettled => 5
    case Uncertain => 6
    case ReplyCaptured => 7
    case _ => 8
  }

  /** A move never goes back, and every state that can be left at all can fail. */
  lemma MovesGoForward(from: State, to: State)
    requires from != to
    ensures CanMove(from, to) ==> Progress(from) < Progress(to)
    ensures from != FailedState ==> (CanMove(from, FailedState) <==> Progress(from) < 8)
  {
  }

  /** Each state but failure is reached only from where it makes sense. */
  lemma ReachedFrom(from: State, to: State)
    requires from != to && to != FailedState
    ensures CanMove(from, to) <==>
      match to
      case Journaled => false
      case ResolvingTarget => from == Journaled
      case Ready => from == ResolvingTarget
      case PromptSubmitted => from == Ready
      case ActivityObserved => from == PromptSubmitted
      case RuntimeSettled => from == ActivityObserved
      case ReplyCaptured => from in {ActivityObserved, RuntimeSettled, Uncertain}
      case Acknowledged => from == ReplyCaptured
      case TargetUnavailable => from == ResolvingTarget
      case BlockedState => from in {Ready, PromptSubmitted, ActivityObserved, RuntimeSettled}
      case Suppressed => from == Ready
      case Uncertain => from in {Ready, PromptSubmitted, ActivityObserved, RuntimeSettled}
      case CaptureFailed => from == RuntimeSettled
      case TargetAuthorityMismatch => from == Journaled
      case ExactNativeTargetNotBound => from == Journaled
  {
  }
}
