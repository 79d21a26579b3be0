/** One delivery: the course of effects `deliver` takes, given what the journal holds and how
  the runtime answers.  A crash cuts a course short between two effects. */
module Delivery {
  import opened Prelude
  import opened BridgeModels
  import opened Capture

  datatype EngineConfig = EngineConfig(requireLock: bool, allowHeuristic: bool, journalDb: string)

  datatype PromptFailure = AgentBlocked | Ambiguous | Rejected

  /** How the runtime, and others writing to the journal meanwhile, answer one delivery. */
  datatype Answers = Answers(
    live: Option<AgentInfo>,               // `get_agent`; None is a transport error
    waited: Option<AgentInfo>,             // waiting for work that was already going on
    before: Option<string>,                // the screen before the prompt
    prompted: Result<AgentInfo, PromptFailure>,
    polls: seq<Option<AgentInfo>>,         // `get_agent` while waiting for an effect
    earlyReply: Option<string>,            // structured reply found at once
    settled: Result<AgentInfo, bool>,      // waiting for the turn to end; an error is ambiguous or not
    lateReply: Option<string>,             // structured reply found after that wait failed
    finalReply: Option<string>,            // structured reply found once the runtime settled
    after: Option<string>)                 // the screen after the turn

  datatype Effect =
    | Moved(state: State, reply: Option<string>, confidence: Option<Confidence>)
    | Boarded
    | Rebound(binding: Binding)
    | Prompted(frame: string)
    | Routed

  /** What remains to be done, one effect after the other. */
  datatype Course = Stop | Then(effect: Effect, rest: Course)

  function Go(state: State, rest: Course): Course { Then(Moved(state, None, None), rest) }

  // Authority

  datatype Gate = Pass | Refuse(state: State)

  /** `_preflight_target_authority` */
  function Preflight(config: EngineConfig, locks: map<string, TargetLock>, agents: map<string, Binding>, m: Message)
    : Gate
  {
    if m.authority.mode == ParentDerived then Pass
    else if m.authority.lockId == None || m.authority.lockId == Some("") then
      if config.requireLock then Refuse(TargetAuthorityMismatch) else Pass
    else if m.authority.lockId.value !in locks then Refuse(TargetAuthorityMismatch)
    else
      var lock := locks[m.authority.lockId.value];
      if lock.revoked then Refuse(TargetAuthorityMismatch)
      else if m.recipient != lock.recipient then Refuse(TargetAuthorityMismatch)
      else if lock.recipient !in agents then Refuse(ExactNativeTargetNotBound)
      else
        var native := agents[lock.recipient].native;
        var resolved := if native.Some? then native.value.value else None;
        if lock.nativeThread.Some? && lock.nativeThread != Some("") && resolved != lock.nativeThread && !lock.allowProxy
        then Refuse(ExactNativeTargetNotBound)
        else Pass
  }

  /** The lock a message names exists, stands, and is for this very recipient. */
  predicate LockStands(locks: map<string, TargetLock>, m: Message) {
    m.authority.lockId.Some? && m.authority.lockId.value in locks &&
    !locks[m.authority.lockId.value].revoked && locks[m.authority.lockId.value].recipient == m.recipient
  }

  /** The thread the lock asks for is the one bound, or none is asked for, or a proxy will do. */
  predicate ThreadFits(lock: TargetLock, binding: Binding) {
    || lock.allowProxy || lock.nativeThread == None || lock.nativeThread == Some("")
    || (binding.native.Some? && binding.native.value.value == lock.nativeThread)
  }

  /** A reply passes by its parent.  Anything else passes with a standing lock whose recipient is bound to the
    right thread, or without any lock where none is required; a lock that stands but finds no such
    binding is refused as not bound, everything else as a mismatch. */
  lemma PreflightIs(config: EngineConfig, locks: map<string, TargetLock>, agents: map<string, Binding>, m: Message)
    ensures var gate := Preflight(config, locks, agents, m);
      var unlocked := m.authority.lockId in {None, Some("")};
      var bound := LockStands(locks, m) && m.recipient in agents
        && ThreadFits(locks[m.authority.lockId.value], agents[m.recipient]);
      && (gate == Pass <==> m.authority.mode == ParentDerived || (if unlocked then !config.requireLock else bound))
      && (gate == Refuse(ExactNativeTargetNotBound) <==>
            m.authority.mode != ParentDerived && !unlocked && LockStands(locks, m) && !bound)
      && (gate == Refuse(TargetAuthorityMismatch) <==>
            m.authority.mode != ParentDerived && (if unlocked then config.requireLock else !LockStands(locks, m)))
  {
  }

  // Identity of the recipient's terminal

  predicate NativeMatches(left: Option<NativeSession>, right: Option<NativeSession>) {
    left.Some? && left == right
  }

  predicate Stale(binding: Binding, live: AgentInfo) {
    live.terminalId != binding.terminalId && !NativeMatches(binding.native, live.native)
  }

  predicate Settled(a: AgentInfo) { a.status == Idle || a.status == Done || a.status == Blocked }

  // Loops

  datatype Route = Route(sender: string, recipient: string, threadId: string, payloadHash: PayloadHash)

  function RouteOf(m: Message): Route { Route(m.sender, m.recipient, m.threadId, m.routing.payloadHash) }

  predicate BudgetSpent(r: Routing) {
    r.hopCount >= r.maxHops || r.autoReplyDepth >= r.maxAutoReplyDepth
  }

  /** `_loop_reason` gives a reason. */
  predicate LoopSuspected(routes: set<Route>, m: Message) {
    BudgetSpent(m.routing) || RouteOf(m) in routes
  }

  // Observation

  predicate Stirred(before: AgentInfo, now: AgentInfo) {
    now.changeSeq > before.changeSeq || now.status != before.status
  }

  /** Polls until the agent stirs, an error, or the deadline: the end of `polls`. */
  function PollFrom(before: AgentInfo, polls: seq<Option<AgentInfo>>, i: nat): Result<Option<AgentInfo>, ()>
    requires i <= |polls|
    decreases |polls| - i
  {
    if i == |polls| then Ok(None)
    else match polls[i]
      case None => Err(())
      case Some(now) => if Stirred(before, now) then Ok(Some(now)) else PollFrom(before, polls, i + 1)
  }

  /** `_observe_prompt_effect` */
  function Observe(before: AgentInfo, prompted: AgentInfo, polls: seq<Option<AgentInfo>>)
    : Result<Option<AgentInfo>, ()>
  {
    if Stirred(before, prompted) then Ok(Some(prompted)) else PollFrom(before, polls, 0)
  }

  // The course, last leg first

  predicate Acceptable(config: EngineConfig, c: Confidence) {
    c == Structured || c == TurnFenced || (config.allowHeuristic && c == Heuristic)
  }

  /** The reply is in hand. */
  function Captured(m: Message, text: string, confidence: Confidence): Course {
    Then(Moved(ReplyCaptured, Some(text), Some(confidence)),
         if m.requireAck then Go(Acknowledged, Then(Boarded, Stop)) else Then(Boarded, Stop))
  }

  /** The turn is over: read the screen. */
  function AfterTurn(config: EngineConfig, m: Message, a: Answers): Course {
    if a.after.None? && a.finalReply.None? then Go(CaptureFailed, Stop)
    else
      var before, after := if a.before.Some? then a.before.value else "", if a.after.Some? then a.after.value else "";
      var capture := CaptureReply(before, after, m.marker, a.finalReply);
      if capture.text.None? || (m.requireAck && !Acceptable(config, capture.confidence))
      then Then(Moved(CaptureFailed, capture.text, Some(capture.confidence)), Stop)
      else Captured(m, capture.text.value, capture.confidence)
  }

  /** The agent has stirred: wait for its turn to end. */
  function AfterActivity(config: EngineConfig, m: Message, a: Answers, observed: AgentInfo): Course {
    if a.earlyReply.Some? then Captured(m, a.earlyReply.value, Structured)
    else if !Settled(observed) && a.settled.Err? then
      if a.lateReply.Some? then Captured(m, a.lateReply.value, Structured)
      else Go(if a.settled.error then Uncertain else FailedState, Stop)
    else
      var settled := if Settled(observed) then observed else a.settled.value;
      if settled.status == Blocked then Go(BlockedState, Stop)
      else Go(RuntimeSettled, AfterTurn(config, m, a))
  }

  /** The submission is on record: watch for its effect. */
  function Watch(config: EngineConfig, m: Message, a: Answers, live: AgentInfo, prompted: AgentInfo): Course {
    match Observe(live, prompted, a.polls)
    case Err(_) => Go(Uncertain, Stop)
    case Ok(None) => Go(Uncertain, Stop)
    case Ok(Some(observed)) =>
      Go(ActivityObserved,
        if observed.status == Blocked then Go(BlockedState, Stop) else AfterActivity(config, m, a, observed))
  }

  /** The prompt was accepted. */
  function AfterPrompt(config: EngineConfig, m: Message, a: Answers, live: AgentInfo, prompted: AgentInfo): Course {
    Go(PromptSubmitted, Then(Routed, Watch(config, m, a, live, prompted)))
  }

  /** Ready: the one place a prompt is sent from. */
  function AtReady(config: EngineConfig, m: Message, a: Answers, live: AgentInfo): Course {
    Then(Prompted(PromptFrame(m, m.recipient, config.journalDb)),
      match a.prompted
      case Err(AgentBlocked) => Go(BlockedState, Stop)
      case Err(Ambiguous) => Go(Uncertain, Stop)
      case Err(Rejected) => Go(FailedState, Stop)
      case Ok(prompted) => AfterPrompt(config, m, a, live, prompted))
  }

  /** The agent to prompt, once work already going on has ended; or why there is none. */
  function Approach(m: Message, a: Answers, live: AgentInfo): Result<AgentInfo, State> {
    if !m.strictTurn then Ok(live)
    else if live.status == Working && a.waited.None? then Err(TargetUnavailable)
    else
      var now := if live.status == Working then a.waited.value else live;
      if now.status == Blocked then Err(BlockedState)
      else if now.status == Unknown then Err(TargetUnavailable)
      else Ok(now)
  }

  /** The target's terminal is known and was re-identified. */
  function AtTarget(config: EngineConfig, routes: set<Route>, m: Message, a: Answers, live: AgentInfo): Course {
    match Approach(m, a, live)
    case Err(BlockedState) => Go(Ready, Go(BlockedState, Stop))
    case Err(_) => Go(TargetUnavailable, Stop)
    case Ok(now) => Go(Ready, if LoopSuspected(routes, m) then Go(Suppressed, Stop) else AtReady(config, m, a, now))
  }

  /** Finding the target. */
  function Resolve(config: EngineConfig, agents: map<string, Binding>, routes: set<Route>, m: Message, a: Answers)
    : Course
  {
    if m.recipient !in agents || a.live.None? || Stale(agents[m.recipient], a.live.value)
      then Go(TargetUnavailable, Stop)
    else
      var live := a.live.value;
      Then(Rebound(agents[m.recipient].(terminalId := live.terminalId, native := live.native)),
           AtTarget(config, routes, m, a, live))
  }

  /** Past the authority gate. */
  function Dispatch(config: EngineConfig, agents: map<string, Binding>, routes: set<Route>, m: Message, a: Answers)
    : Course
  {
    match m.projection
    case BoardOnly => Then(Boarded, Go(ResolvingTarget, Go(Ready, Go(Suppressed, Stop))))
    case BoardAndPrompt => Then(Boarded, Go(ResolvingTarget, Resolve(config, agents, routes, m, a)))
    case HerdrPrompt => Go(ResolvingTarget, Resolve(config, agents, routes, m, a))
  }

  /** A delivery that is still only journaled. */
  function Fresh(config: EngineConfig, locks: map<string, TargetLock>, agents: map<string, Binding>, routes: set<Route>,
                 m: Message, a: Answers): Course
  {
    match Preflight(config, locks, agents, m)
    case Refuse(state) => Go(state, Stop)
    case Pass => Go(Journaled, Dispatch(config, agents, routes, m, a))
  }

  // What every course respects

  /** What a delivery record and the runtime show of one delivery so far. */
  datatype View = View(history: seq<State>, prompts: nat, confidence: Option<Confidence>, reply: Option<string>)

  function StateOf(v: View): State
    requires v.history != []
  {
    v.history[|v.history| - 1]
  }

  /** `COALESCE(new, old)` */
  function Coalesce<T>(new_: Option<T>, old_: Option<T>): Option<T> { if new_.Some? then new_ else old_ }

  function Seen(v: View, e: Effect): View {
    match e
    case Moved(state, reply, confidence) =>
      View(v.history + [state], v.prompts, Coalesce(confidence, v.confidence), Coalesce(reply, v.reply))
    case Prompted(_) => v.(prompts := v.prompts + 1)
    case _ => v
  }

  /** States a delivery does not rest in. */
  predicate Intermediate(s: State) {
    s in {Journaled, ResolvingTarget, Ready, PromptSubmitted, ActivityObserved, RuntimeSettled}
  }

  /** States that tell no prompt was ever sent. */
  predicate Unprompted(s: State) {
    s in {Journaled, ResolvingTarget, TargetUnavailable, Suppressed, TargetAuthorityMismatch, ExactNativeTargetNotBound}
  }

  /** States that tell a prompt was sent and taken. */
  predicate PromptTaken(s: State) {
    s in {PromptSubmitted, ActivityObserved, RuntimeSettled, ReplyCaptured, Acknowledged, CaptureFailed}
  }

  /** The next effect is one the delivery may take. */
  predicate Fits(config: EngineConfig, v: View, e: Effect)
    requires v.history != []
  {
    var s := StateOf(v);
    match e
    case Moved(to, _, confidence) =>
      && CanMove(s, to) && (to == s ==> s == Journaled) && (Intermediate(s) || s == ReplyCaptured)
      && (Unprompted(to) ==> v.prompts == 0) && (PromptTaken(to) ==> v.prompts == 1)
      && (to == Acknowledged ==>
            confidence == None && v.confidence.Some? && Acceptable(config, v.confidence.value) && v.reply.Some?)
    case Prompted(_) => s == Ready && v.prompts == 0
    case Routed => s == PromptSubmitted
    case _ => true
  }

  /** The course takes only fitting effects and ends in a state a delivery rests in. */
  predicate Sound(config: EngineConfig, v: View, c: Course)
    requires v.history != []
    decreases c
  {
    match c
    case Stop => !Intermediate(StateOf(v))
    case Then(e, rest) => Fits(config, v, e) && Sound(config, Seen(v, e), rest)
  }

  lemma CapturedSound(config: EngineConfig, v: View, m: Message, text: string, confidence: Confidence)
    requires v.history != [] && StateOf(v) in {ActivityObserved, RuntimeSettled} && v.prompts == 1
    requires m.requireAck ==> Acceptable(config, confidence)
    ensures Sound(config, v, Captured(m, text, confidence))
  {
    var captured := Seen(v, Moved(ReplyCaptured, Some(text), Some(confidence)));
    if m.requireAck { assert Sound(config, Seen(captured, Moved(Acknowledged, None, None)), Then(Boarded, Stop)); }
  }

  lemma AfterTurnSound(config: EngineConfig, v: View, m: Message, a: Answers)
    requires v.history != [] && StateOf(v) == RuntimeSettled && v.prompts == 1
    ensures Sound(config, v, AfterTurn(config, m, a))
  {
    hide CaptureReply, Captured, Acceptable;
    var before, after := if a.before.Some? then a.before.value else "", if a.after.Some? then a.after.value else "";
    var capture := CaptureReply(before, after, m.marker, a.finalReply);
    if capture.text.Some? && (m.requireAck ==> Acceptable(config, capture.confidence)) {
      CapturedSound(config, v, m, capture.text.value, capture.confidence);
    }
  }

  lemma AfterActivitySound(config: EngineConfig, v: View, m: Message, a: Answers, observed: AgentInfo)
    requires v.history != [] && StateOf(v) == ActivityObserved && v.prompts == 1
    ensures Sound(config, v, AfterActivity(config, m, a, observed))
  {
    hide AfterTurn, Captured;
    AfterTurnSound(config, Seen(v, Moved(RuntimeSettled, None, None)), m, a);
    if a.earlyReply.Some? { CapturedSound(config, v, m, a.earlyReply.value, Structured); }
    if a.lateReply.Some? { CapturedSound(config, v, m, a.lateReply.value, Structured); }
  }

  lemma WatchSound(config: EngineConfig, v: View, m: Message, a: Answers, live: AgentInfo, prompted: AgentInfo)
    requires v.history != [] && StateOf(v) == PromptSubmitted && v.prompts == 1
    ensures Sound(config, v, Watch(config, m, a, live, prompted))
  {
    hide AfterActivity, Observe;
    var active := Seen(v, Moved(ActivityObserved, None, None));
    var observed := Observe(live, prompted, a.polls);
    if observed.Ok? && observed.value.Some? { AfterActivitySound(config, active, m, a, observed.value.value); }
  }

  lemma AfterPromptSound(config: EngineConfig, v: View, m: Message, a: Answers, live: AgentInfo, prompted: AgentInfo)
    requires v.history != [] && StateOf(v) == Ready && v.prompts == 1
    ensures Sound(config, v, AfterPrompt(config, m, a, live, prompted))
  {
    hide Watch;
    var submitted := Seen(v, Moved(PromptSubmitted, None, None));
    WatchSound(config, submitted, m, a, live, prompted);
    assert Sound(config, submitted, Then(Routed, Watch(config, m, a, live, prompted)));
  }

  lemma AtReadySound(config: EngineConfig, v: View, m: Message, a: Answers, live: AgentInfo)
    requires v.history != [] && StateOf(v) == Ready && v.prompts == 0
    ensures Sound(config, v, AtReady(config, m, a, live))
  {
    hide AfterPrompt, PromptFrame;
    var prompted := v.(prompts := 1);
    if a.prompted.Ok? { AfterPromptSound(config, prompted, m, a, live, a.prompted.value); }
  }

  lemma ResolveSound(config: EngineConfig, v: View, agents: map<string, Binding>, routes: set<Route>, m: Message,
                     a: Answers)
    requires v.history != [] && StateOf(v) == ResolvingTarget && v.prompts == 0
    ensures Sound(config, v, Resolve(config, agents, routes, m, a))
  {
    hide AtReady, LoopSuspected, Approach, Stale;
    var ready := Seen(v, Moved(Ready, None, None));
    if a.live.Some? {
      var approach := Approach(m, a, a.live.value);
      if approach.Ok? { AtReadySound(config, ready, m, a, approach.value); }
    }
  }

  lemma DispatchSound(config: EngineConfig, v: View, agents: map<string, Binding>, routes: set<Route>, m: Message,
                      a: Answers)
    requires v.history != [] && StateOf(v) == Journaled && v.prompts == 0
    ensures Sound(config, v, Dispatch(config, agents, routes, m, a))
  {
    hide Resolve;
    var resolving := Seen(v, Moved(ResolvingTarget, None, None));
    ResolveSound(config, resolving, agents, routes, m, a);
    var ready := Seen(resolving, Moved(Ready, None, None));
    assert Sound(config, ready, Go(Suppressed, Stop));
    assert Sound(config, resolving, Go(Ready, Go(Suppressed, Stop)));
    assert Sound(config, v, Go(ResolvingTarget, Go(Ready, Go(Suppressed, Stop))));
    assert Sound(config, v, Go(ResolvingTarget, Resolve(config, agents, routes, m, a)));
  }

  /** Every fresh delivery takes a legal path and rests in an outcome. */
  lemma FreshSound(config: EngineConfig, v: View, locks: map<string, TargetLock>, agents: map<string, Binding>,
                   routes: set<Route>, m: Message, a: Answers)
    requires v.history != [] && StateOf(v) == Journaled && v.prompts == 0
    ensures Sound(config, v, Fresh(config, locks, agents, routes, m, a))
  {
    hide Dispatch;
    DispatchSound(config, Seen(v, Moved(Journaled, None, None)), agents, routes, m, a);
  }

  // When the recipient is prompted

  predicate Prompts(c: Course) {
    match c
    case Stop => false
    case Then(e, rest) => e.Prompted? || Prompts(rest)
  }

  /** A fresh delivery sends its prompt if and only if authority lets it pass, the projection asks for
    a prompt, the recipient is bound, alive and still the same, it can be approached, and no loop is suspected. */
  lemma PromptsIff(config: EngineConfig, locks: map<string, TargetLock>, agents: map<string, Binding>,
                   routes: set<Route>, m: Message, a: Answers)
    ensures Prompts(Fresh(config, locks, agents, routes, m, a)) <==>
      && Preflight(config, locks, agents, m) == Pass
      && m.projection != BoardOnly
      && m.recipient in agents && a.live.Some? && !Stale(agents[m.recipient], a.live.value)
      && Approach(m, a, a.live.value).Ok?
      && !LoopSuspected(routes, m)
  {
    hide Preflight, Resolve;
    ResolvePromptsIff(config, agents, routes, m, a);
    var resolve := Resolve(config, agents, routes, m, a);
    assert Prompts(Go(ResolvingTarget, resolve)) == Prompts(resolve);
    assert Prompts(Dispatch(config, agents, routes, m, a)) <==> m.projection != BoardOnly && Prompts(resolve) by {
      assert !Prompts(Go(Ready, Go(Suppressed, Stop)));
    }
  }

  lemma ResolvePromptsIff(config: EngineConfig, agents: map<string, Binding>, routes: set<Route>, m: Message,
                          a: Answers)
    ensures Prompts(Resolve(config, agents, routes, m, a)) <==>
      && m.recipient in agents && a.live.Some? && !Stale(agents[m.recipient], a.live.value)
      && Approach(m, a, a.live.value).Ok?
      && !LoopSuspected(routes, m)
  {
    hide Stale, Approach, LoopSuspected, AfterPrompt, PromptFrame;
    if m.recipient in agents && a.live.Some? && !Stale(agents[m.recipient], a.live.value) {
      assert !Prompts(Go(Suppressed, Stop)) && !Prompts(Go(BlockedState, Stop));
      var target := AtTarget(config, routes, m, a, a.live.value);
      assert Prompts(target) <==> Approach(m, a, a.live.value).Ok? && !LoopSuspected(routes, m);
    }
  }

  // What a course does once it prompts

  predicate Submits(c: Course) {
    match c
    case Stop => false
    case Then(e, rest) => (e.Moved? && e.state == PromptSubmitted) || Submits(rest)
  }

  /** Every prompt carries this frame, and every submission is followed by recording its route. */
  predicate WellFormed(c: Course, frame: string) {
    match c
    case Stop => true
    case Then(e, rest) =>
      && (e.Prompted? ==> e.frame == frame)
      && (e.Moved? && e.state == PromptSubmitted ==> rest.Then? && rest.effect == Routed)
      && WellFormed(rest, frame)
  }

  /** No prompt and no submission comes after this point. */
  predicate Quiet(c: Course, frame: string) {
    !Prompts(c) && !Submits(c) && WellFormed(c, frame)
  }

  lemma ThenQuiet(e: Effect, rest: Course, frame: string)
    requires !e.Prompted? && !(e.Moved? && e.state == PromptSubmitted)
    ensures Quiet(Stop, frame)
    ensures Quiet(rest, frame) ==> Quiet(Then(e, rest), frame)
    ensures Prompts(Then(e, rest)) == Prompts(rest) && Submits(Then(e, rest)) == Submits(rest)
    ensures WellFormed(Then(e, rest), frame) == WellFormed(rest, frame)
  {
  }

  lemma GoQuiet(state: State, rest: Course, frame: string)
    requires state != PromptSubmitted
    ensures Quiet(Go(state, Stop), frame)
    ensures Quiet(rest, frame) ==> Quiet(Go(state, rest), frame)
    ensures Prompts(Go(state, rest)) == Prompts(rest) && Submits(Go(state, rest)) == Submits(rest)
    ensures WellFormed(Go(state, rest), frame) == WellFormed(rest, frame)
  {
    ThenQuiet(Moved(state, None, None), Stop, frame);
    ThenQuiet(Moved(state, None, None), rest, frame);
  }

  lemma CapturedQuiet(m: Message, text: string, confidence: Confidence, frame: string)
    ensures Quiet(Captured(m, text, confidence), frame)
  {
    var last := Then(Boarded, Stop);
    ThenQuiet(Boarded, Stop, frame);
    GoQuiet(Acknowledged, last, frame);
    var rest := if m.requireAck then Go(Acknowledged, last) else last;
    ThenQuiet(Moved(ReplyCaptured, Some(text), Some(confidence)), rest, frame);
  }

  lemma AfterTurnQuiet(config: EngineConfig, m: Message, a: Answers, frame: string)
    ensures Quiet(AfterTurn(config, m, a), frame)
  {
    hide Captured, CaptureReply, Acceptable, Quiet;
    GoQuiet(CaptureFailed, Stop, frame);
    var before, after := if a.before.Some? then a.before.value else "", if a.after.Some? then a.after.value else "";
    var capture := CaptureReply(before, after, m.marker, a.finalReply);
    ThenQuiet(Moved(CaptureFailed, capture.text, Some(capture.confidence)), Stop, frame);
    if capture.text.Some? { CapturedQuiet(m, capture.text.value, capture.confidence, frame); }
  }

  lemma AfterActivityQuiet(config: EngineConfig, m: Message, a: Answers, observed: AgentInfo, frame: string)
    ensures Quiet(AfterActivity(config, m, a, observed), frame)
  {
    hide Captured, AfterTurn, Quiet;
    AfterTurnQuiet(config, m, a, frame);
    GoQuiet(RuntimeSettled, AfterTurn(config, m, a), frame);
    GoQuiet(BlockedState, Stop, frame);
    GoQuiet(Uncertain, Stop, frame);
    GoQuiet(FailedState, Stop, frame);
    if a.earlyReply.Some? { CapturedQuiet(m, a.earlyReply.value, Structured, frame); }
    if a.lateReply.Some? { CapturedQuiet(m, a.lateReply.value, Structured, frame); }
  }

  lemma WatchQuiet(config: EngineConfig, m: Message, a: Answers, live: AgentInfo, prompted: AgentInfo, frame: string)
    ensures Quiet(Watch(config, m, a, live, prompted), frame)
  {
    hide AfterActivity, Observe, Quiet;
    GoQuiet(Uncertain, Stop, frame);
    GoQuiet(BlockedState, Stop, frame);
    var observed := Observe(live, prompted, a.polls);
    if observed.Ok? && observed.value.Some? {
      AfterActivityQuiet(config, m, a, observed.value.value, frame);
      GoQuiet(ActivityObserved, AfterActivity(config, m, a, observed.value.value), frame);
      GoQuiet(ActivityObserved, Go(BlockedState, Stop), frame);
    }
  }

  lemma AtReadyPrompts(config: EngineConfig, m: Message, a: Answers, live: AgentInfo)
    ensures var c := AtReady(config, m, a, live);
      Prompts(c) && WellFormed(c, PromptFrame(m, m.recipient, config.journalDb)) && (Submits(c) <==> a.prompted.Ok?)
  {
    hide PromptFrame, Watch;
    var frame := PromptFrame(m, m.recipient, config.journalDb);
    GoQuiet(BlockedState, Stop, frame);
    GoQuiet(Uncertain, Stop, frame);
    GoQuiet(FailedState, Stop, frame);
    if a.prompted.Ok? {
      WatchQuiet(config, m, a, live, a.prompted.value, frame);
      ThenQuiet(Routed, Watch(config, m, a, live, a.prompted.value), frame);
    }
  }

  lemma ResolveWellFormed(config: EngineConfig, agents: map<string, Binding>, routes: set<Route>, m: Message,
                          a: Answers)
    ensures var c := Resolve(config, agents, routes, m, a);
      WellFormed(c, PromptFrame(m, m.recipient, config.journalDb)) && (Submits(c) <==> Prompts(c) && a.prompted.Ok?)
  {
    hide Stale, Approach, LoopSuspected, PromptFrame, AtReady;
    var frame := PromptFrame(m, m.recipient, config.journalDb);
    GoQuiet(TargetUnavailable, Stop, frame);
    GoQuiet(Ready, Go(BlockedState, Stop), frame);
    GoQuiet(BlockedState, Stop, frame);
    GoQuiet(Suppressed, Stop, frame);
    GoQuiet(Ready, Go(Suppressed, Stop), frame);
    if m.recipient in agents && a.live.Some? && !Stale(agents[m.recipient], a.live.value) {
      var live := a.live.value;
      var approach := Approach(m, a, live);
      if approach.Ok? {
        AtReadyPrompts(config, m, a, approach.value);
        GoQuiet(Ready, AtReady(config, m, a, approach.value), frame);
      }
      ThenQuiet(Rebound(agents[m.recipient].(terminalId := live.terminalId, native := live.native)),
                AtTarget(config, routes, m, a, live), frame);
    }
  }

  lemma DispatchWellFormed(config: EngineConfig, agents: map<string, Binding>, routes: set<Route>, m: Message,
                           a: Answers)
    ensures var c := Dispatch(config, agents, routes, m, a);
      WellFormed(c, PromptFrame(m, m.recipient, config.journalDb)) && (Submits(c) <==> Prompts(c) && a.prompted.Ok?)
  {
    hide Resolve, PromptFrame, Prompts, Submits, WellFormed;
    var frame := PromptFrame(m, m.recipient, config.journalDb);
    ResolveWellFormed(config, agents, routes, m, a);
    var resolve := Resolve(config, agents, routes, m, a);
    GoQuiet(ResolvingTarget, resolve, frame);
    ThenQuiet(Boarded, Go(ResolvingTarget, resolve), frame);
    GoQuiet(Suppressed, Stop, frame);
    GoQuiet(Ready, Go(Suppressed, Stop), frame);
    GoQuiet(ResolvingTarget, Go(Ready, Go(Suppressed, Stop)), frame);
    ThenQuiet(Boarded, Go(ResolvingTarget, Go(Ready, Go(Suppressed, Stop))), frame);
  }

  /** A fresh delivery is submitted if and only if it prompts and the runtime accepts the prompt. */
  lemma SubmitsIff(config: EngineConfig, locks: map<string, TargetLock>, agents: map<string, Binding>,
                   routes: set<Route>, m: Message, a: Answers)
    ensures var c := Fresh(config, locks, agents, routes, m, a);
      WellFormed(c, PromptFrame(m, m.recipient, config.journalDb)) && (Submits(c) <==> Prompts(c) && a.prompted.Ok?)
  {
    hide Dispatch, PromptFrame, Prompts, Submits, WellFormed;
    var frame := PromptFrame(m, m.recipient, config.journalDb);
    DispatchWellFormed(config, agents, routes, m, a);
    GoQuiet(Journaled, Dispatch(config, agents, routes, m, a), frame);
    GoQuiet(TargetAuthorityMismatch, Stop, frame);
    GoQuiet(ExactNativeTargetNotBound, Stop, frame);
  }

  // How a delivery ends

  /** The last state a course moves to. */
  function Ends(c: Course, latest: State): State {
    match c
    case Stop => latest
    case Then(e, rest) => Ends(rest, if e.Moved? then e.state else latest)
  }

  /** The agent seen to stir after the prompt. */
  function Stirring(a: Answers, live: AgentInfo): Option<AgentInfo> {
    if a.prompted.Err? then None
    else
      var observed := Observe(live, a.prompted.value, a.polls);
      if observed.Ok? then observed.value else None
  }

  /** The turn is seen to end: the agent has settled, or the wait for it succeeded. */
  predicate TurnEnds(a: Answers, observed: AgentInfo) { Settled(observed) || a.settled.Ok? }

  function TurnEnd(a: Answers, observed: AgentInfo): AgentInfo
    requires TurnEnds(a, observed)
  {
    if Settled(observed) then observed else a.settled.value
  }

  /** What is read once the runtime has settled, if it can be read at all. */
  function Reading(m: Message, a: Answers): Option<CaptureResult> {
    if a.after.None? && a.finalReply.None? then None
    else Some(CaptureReply(if a.before.Some? then a.before.value else "",
                           if a.after.Some? then a.after.value else "", m.marker, a.finalReply))
  }

  predicate Read(config: EngineConfig, m: Message, a: Answers) {
    Reading(m, a).Some? && Reading(m, a).value.text.Some?
      && (m.requireAck ==> Acceptable(config, Reading(m, a).value.confidence))
  }

  /** A reply is in hand once the agent, seen as `now`, has stirred. */
  predicate ReplyObtained(config: EngineConfig, m: Message, a: Answers, now: AgentInfo) {
    || a.earlyReply.Some?
    || (if TurnEnds(a, now) then TurnEnd(a, now).status != Blocked && Read(config, m, a) else a.lateReply.Some?)
  }

  /** Nobody can tell whether the turn will end. */
  predicate TurnUnclear(a: Answers, now: AgentInfo) {
    a.earlyReply.None? && !TurnEnds(a, now) && a.lateReply.None? && a.settled.error
  }

  predicate StirsUnblocked(a: Answers, live: AgentInfo) {
    Stirring(a, live).Some? && Stirring(a, live).value.status != Blocked
  }

  predicate EndsWell(config: EngineConfig, m: Message, a: Answers, live: AgentInfo) {
    StirsUnblocked(a, live) && ReplyObtained(config, m, a, Stirring(a, live).value)
  }

  predicate EndsUnclear(a: Answers, live: AgentInfo) {
    || a.prompted == Err(Ambiguous)
    || (a.prompted.Ok? && Stirring(a, live).None?)
    || (StirsUnblocked(a, live) && TurnUnclear(a, Stirring(a, live).value))
  }

  function GoodEnd(m: Message): State { if m.requireAck then Acknowledged else ReplyCaptured }

  /** A prompted delivery ends well exactly when the agent took the prompt, stirred unblocked, and then either a
    structured reply came or its turn ended unblocked with a reply that can be read with enough confidence.
    It ends uncertain exactly when the submission was ambiguous, nothing was seen to stir, or the wait for the
    turn broke off ambiguously without a reply. */
  lemma PromptedEnds(config: EngineConfig, m: Message, a: Answers, live: AgentInfo)
    ensures Ends(AtReady(config, m, a, live), Ready) == GoodEnd(m) <==> EndsWell(config, m, a, live)
    ensures Ends(AtReady(config, m, a, live), Ready) == Uncertain <==> EndsUnclear(a, live)
  {
    hide PromptFrame, Observe, AfterActivity, ReplyObtained, TurnUnclear;
    if a.prompted.Ok? {
      AfterPromptEnds(config, m, a, live);
      if StirsUnblocked(a, live) { AfterActivityEnds(config, m, a, Stirring(a, live).value); }
    }
  }

  lemma AfterPromptEnds(config: EngineConfig, m: Message, a: Answers, live: AgentInfo)
    requires a.prompted.Ok?
    ensures Ends(AtReady(config, m, a, live), Ready) ==
      match Stirring(a, live)
      case None => Uncertain
      case Some(now) =>
        if now.status == Blocked then BlockedState else Ends(AfterActivity(config, m, a, now), ActivityObserved)
  {
    hide PromptFrame, Observe, AfterActivity;
    var watch := Watch(config, m, a, live, a.prompted.value);
    assert Ends(Then(Routed, watch), PromptSubmitted) == Ends(watch, PromptSubmitted);
    assert Ends(AfterPrompt(config, m, a, live, a.prompted.value), Ready) == Ends(watch, PromptSubmitted);
  }

  lemma AfterActivityEnds(config: EngineConfig, m: Message, a: Answers, now: AgentInfo)
    requires now.status != Blocked
    ensures var end := Ends(AfterActivity(config, m, a, now), ActivityObserved);
      (end == GoodEnd(m) <==> ReplyObtained(config, m, a, now)) && (end == Uncertain <==> TurnUnclear(a, now))
  {
    hide AfterTurn, Captured, Read;
    if a.earlyReply.Some? { CapturedEnds(m, a.earlyReply.value, Structured, ActivityObserved); }
    if a.lateReply.Some? { CapturedEnds(m, a.lateReply.value, Structured, ActivityObserved); }
    AfterTurnEnds(config, m, a);
  }

  lemma AfterTurnEnds(config: EngineConfig, m: Message, a: Answers)
    ensures Ends(AfterTurn(config, m, a), RuntimeSettled) == if Read(config, m, a) then GoodEnd(m) else CaptureFailed
  {
    hide CaptureReply, Acceptable, Captured;
    var reading := Reading(m, a);
    if Read(config, m, a) {
      CapturedEnds(m, reading.value.text.value, reading.value.confidence, RuntimeSettled);
    } else if reading.Some? {
      assert Ends(Then(Moved(CaptureFailed, reading.value.text, Some(reading.value.confidence)), Stop),
                  RuntimeSettled) == CaptureFailed;
    }
  }

  lemma CapturedEnds(m: Message, text: string, confidence: Confidence, s: State)
    ensures Ends(Captured(m, text, confidence), s) == GoodEnd(m)
  {
    assert Ends(Then(Boarded, Stop), Acknowledged) == Acknowledged
      && Ends(Then(Boarded, Stop), ReplyCaptured) == ReplyCaptured;
  }
}
