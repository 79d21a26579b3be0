/** Deliveries one after another over one journal, each of which a crash may cut short between
  any two effects, with locks and bindings administered in between. */
module DeliveryRuns {
  import opened Prelude
  import opened BridgeModels
  import opened Capture
  import opened Delivery

  datatype Key = Key(messageId: string, recipient: string)

  datatype Record = Record(history: seq<State>, confidence: Option<Confidence>, reply: Option<string>)

  /** The journal's tables, and the prompts each recipient's runtime received. */
  datatype Bridge = Bridge(
    messages: map<string, Message>,
    idempotency: map<string, string>,
    deliveries: map<Key, Record>,
    routes: set<Route>,
    locks: map<string, TargetLock>,
    agents: map<string, Binding>,
    prompts: map<Key, seq<string>>)

  const EMPTY := Bridge(map[], map[], map[], {}, map[], map[], map[])

  function KeyOf(m: Message): Key { Key(m.id, m.recipient) }

  function PromptsTo(b: Bridge, k: Key): seq<string> {
    if k in b.prompts then b.prompts[k] else []
  }

  function ViewOf(b: Bridge, k: Key): View {
    if k in b.deliveries
    then View(b.deliveries[k].history, |PromptsTo(b, k)|, b.deliveries[k].confidence, b.deliveries[k].reply)
    else View([], |PromptsTo(b, k)|, None, None)
  }

  /** `journal_message`: a message id or an idempotency key seen before must bring the same message again. */
  function JournalMessage(b: Bridge, m: Message): Option<Bridge> {
    var key := m.routing.idempotencyKey;
    if m.id !in b.messages && key !in b.idempotency then
      Some(b.(messages := b.messages[m.id := m], idempotency := b.idempotency[key := m.id]))
    else if key in b.idempotency && b.idempotency[key] in b.messages && b.messages[b.idempotency[key]] == m then Some(b)
    else None
  }

  /** `ensure_delivery` */
  function EnsureDelivery(b: Bridge, m: Message): Bridge {
    if KeyOf(m) in b.deliveries then b
    else b.(deliveries := b.deliveries[KeyOf(m) := Record([Journaled], None, None)])
  }

  function Moving(r: Record, state: State, reply: Option<string>, confidence: Option<Confidence>): Record {
    Record(r.history + [state], Coalesce(confidence, r.confidence), Coalesce(reply, r.reply))
  }

  /** One effect of delivering `m`. */
  function Do(b: Bridge, m: Message, e: Effect): Bridge
    requires KeyOf(m) in b.deliveries
  {
    var k := KeyOf(m);
    match e
    case Moved(state, reply, confidence) =>
      b.(deliveries := b.deliveries[k := Moving(b.deliveries[k], state, reply, confidence)])
    case Boarded => b
    case Rebound(binding) => b.(agents := b.agents[m.recipient := binding])
    case Prompted(frame) => b.(prompts := b.prompts[k := PromptsTo(b, k) + [frame]])
    case Routed => b.(routes := b.routes + {RouteOf(m)})
  }

  /** The first `steps` effects of a course. */
  function Exec(b: Bridge, m: Message, c: Course, steps: nat): (after: Bridge)
    requires KeyOf(m) in b.deliveries
    ensures KeyOf(m) in after.deliveries
    decreases c
  {
    match c
    case Stop => b
    case Then(e, rest) => if steps == 0 then b else Exec(Do(b, m, e), m, rest, steps - 1)
  }

  function Length(c: Course): nat {
    match c
    case Stop => 0
    case Then(_, rest) => 1 + Length(rest)
  }

  /** The course a delivery that found the journal at `b` is about to take; nothing is ever replayed. */
  function CourseFrom(config: EngineConfig, b: Bridge, m: Message, a: Answers): Course
    requires KeyOf(m) in b.deliveries
  {
    var h := b.deliveries[KeyOf(m)].history;
    if h == [] || h[|h| - 1] != Journaled then Stop else Fresh(config, b.locks, b.agents, b.routes, m, a)
  }

  /** `deliver`, cut short after `steps` effects. */
  function Deliver(config: EngineConfig, b: Bridge, m: Message, a: Answers, steps: nat): Bridge {
    if steps == 0 then b
    else match JournalMessage(b, m)
      case None => b
      case Some(journaled) =>
        if steps == 1 then journaled
        else
          var ensured := EnsureDelivery(journaled, m);
          Exec(ensured, m, CourseFrom(config, ensured, m, a), steps - 2)
  }

  datatype Action =
    | Attempt(message: Message, answers: Answers, steps: nat)
    | Administer(locks: map<string, TargetLock>, agents: map<string, Binding>)

  function Apply(config: EngineConfig, b: Bridge, action: Action): Bridge {
    match action
    case Attempt(m, a, steps) => Deliver(config, b, m, a, steps)
    case Administer(locks, agents) => b.(locks := locks, agents := agents)
  }

  function Run(config: EngineConfig, b: Bridge, actions: seq<Action>): Bridge
    decreases |actions|
  {
    if actions == [] then b else Run(config, Apply(config, b, actions[0]), actions[1..])
  }

  // What every record shows

  predicate Follows(s: State, t: State) {
    CanMove(s, t) && (t == s ==> s == Journaled) && (Intermediate(s) || s == ReplyCaptured)
  }

  /** A path through the transition graph, from the journal on. */
  predicate Path(h: seq<State>) {
    h != [] && h[0] == Journaled && forall i | 0 < i < |h| :: Follows(h[i - 1], h[i])
  }

  predicate ViewOk(config: EngineConfig, v: View) {
    && Path(v.history) && v.prompts <= 1
    && (Unprompted(StateOf(v)) ==> v.prompts == 0) && (PromptSubmitted in v.history ==> v.prompts == 1)
    && (StateOf(v) == Acknowledged ==> v.confidence.Some? && Acceptable(config, v.confidence.value) && v.reply.Some?)
  }

  /** Every prompt carried the frame of the message journaled under its id. */
  ghost predicate PromptsOk(config: EngineConfig, b: Bridge, k: Key) {
    forall frame | frame in PromptsTo(b, k) ::
      && k.messageId in b.messages
      && var m := b.messages[k.messageId];
         frame == PromptFrame(m, m.recipient, config.journalDb) && m.projection != BoardOnly
  }

  ghost predicate DeliveryOk(config: EngineConfig, b: Bridge, k: Key) {
    && (k in b.deliveries ==>
          ViewOk(config, ViewOf(b, k)) && k.messageId in b.messages && b.messages[k.messageId].recipient == k.recipient)
    && (k !in b.deliveries ==> PromptsTo(b, k) == [])
    && PromptsOk(config, b, k)
  }

  ghost predicate BridgeInv(config: EngineConfig, b: Bridge) {
    && (forall id | id in b.messages :: b.messages[id].id == id)
    && (forall k {:trigger DeliveryOk(config, b, k)} :: DeliveryOk(config, b, k))
  }

  lemma FitsKeepsView(config: EngineConfig, v: View, e: Effect)
    requires ViewOk(config, v) && Fits(config, v, e)
    ensures ViewOk(config, Seen(v, e))
  {
    var next := Seen(v, e);
    assert forall i | 0 < i < |v.history| :: Follows(v.history[i - 1], v.history[i]);
    forall i | 0 < i < |next.history| ensures Follows(next.history[i - 1], next.history[i]) {}
  }

  /** What a course may still do to its delivery. */
  ghost predicate Goes(config: EngineConfig, b: Bridge, m: Message, c: Course) {
    && m.id in b.messages && b.messages[m.id] == m && KeyOf(m) in b.deliveries
    && b.deliveries[KeyOf(m)].history != [] && Sound(config, ViewOf(b, KeyOf(m)), c)
    && WellFormed(c, PromptFrame(m, m.recipient, config.journalDb)) && (Prompts(c) ==> m.projection != BoardOnly)
  }

  lemma DoKeepsInv(config: EngineConfig, b: Bridge, m: Message, e: Effect, rest: Course)
    requires BridgeInv(config, b) && Goes(config, b, m, Then(e, rest))
    ensures BridgeInv(config, Do(b, m, e)) && Goes(config, Do(b, m, e), m, rest)
  {
    hide PromptFrame, ViewOk, Fits;
    var k, next := KeyOf(m), Do(b, m, e);
    assert DeliveryOk(config, b, k);
    FitsKeepsView(config, ViewOf(b, k), e);
    assert ViewOf(next, k) == Seen(ViewOf(b, k), e);
    forall other ensures DeliveryOk(config, next, other) {
      assert DeliveryOk(config, b, other);
      assert other != k ==> ViewOf(next, other) == ViewOf(b, other);
    }
  }

  /** The delivery has come to rest. */
  predicate Rests(b: Bridge, k: Key) {
    k in b.deliveries && b.deliveries[k].history != [] && !Intermediate(StateOf(ViewOf(b, k)))
  }

  lemma {:induction false} ExecKeepsInv(config: EngineConfig, b: Bridge, m: Message, c: Course, steps: nat)
    requires KeyOf(m) in b.deliveries && BridgeInv(config, b) && Goes(config, b, m, c)
    ensures BridgeInv(config, Exec(b, m, c, steps))
    ensures steps >= Length(c) ==> Rests(Exec(b, m, c, steps), KeyOf(m))
    decreases c
  {
    hide PromptFrame, BridgeInv, Fits, WellFormed, Prompts;
    if c.Then? && steps > 0 {
      DoKeepsInv(config, b, m, c.effect, c.rest);
      ExecKeepsInv(config, Do(b, m, c.effect), m, c.rest, steps - 1);
    }
  }

  lemma JournalKeepsInv(config: EngineConfig, b: Bridge, m: Message)
    requires BridgeInv(config, b) && JournalMessage(b, m).Some?
    ensures var journaled := JournalMessage(b, m).value;
      BridgeInv(config, journaled) && m.id in journaled.messages && journaled.messages[m.id] == m
  {
    hide PromptFrame, ViewOk;
    var journaled := JournalMessage(b, m).value;
    forall k ensures DeliveryOk(config, journaled, k) {
      assert DeliveryOk(config, b, k);
      assert ViewOf(journaled, k) == ViewOf(b, k);
    }
  }

  lemma NewViewOk(config: EngineConfig)
    ensures ViewOk(config, View([Journaled], 0, None, None))
  {
  }

  lemma EnsureKeepsInv(config: EngineConfig, b: Bridge, m: Message)
    requires BridgeInv(config, b) && m.id in b.messages && b.messages[m.id] == m
    ensures BridgeInv(config, EnsureDelivery(b, m))
  {
    hide PromptFrame, ViewOk;
    NewViewOk(config);
    var ensured := EnsureDelivery(b, m);
    forall k ensures DeliveryOk(config, ensured, k) {
      assert DeliveryOk(config, b, k);
      assert k != KeyOf(m) ==> ViewOf(ensured, k) == ViewOf(b, k);
    }
  }

  lemma CourseGoes(config: EngineConfig, b: Bridge, m: Message, a: Answers)
    requires BridgeInv(config, b) && m.id in b.messages && b.messages[m.id] == m && KeyOf(m) in b.deliveries
    requires CourseFrom(config, b, m, a) != Stop
    ensures Goes(config, b, m, CourseFrom(config, b, m, a))
  {
    hide PromptFrame, Fresh, Sound;
    assert DeliveryOk(config, b, KeyOf(m));
    FreshSound(config, ViewOf(b, KeyOf(m)), b.locks, b.agents, b.routes, m, a);
    SubmitsIff(config, b.locks, b.agents, b.routes, m, a);
    PromptsIff(config, b.locks, b.agents, b.routes, m, a);
  }

  /** An attempt cut short anywhere keeps what the journal shows; left alone, a delivery that had not
    got beyond the journal rests in an outcome, and one that had is left untouched. */
  lemma DeliverKeepsInv(config: EngineConfig, b: Bridge, m: Message, a: Answers, steps: nat)
    requires BridgeInv(config, b)
    ensures BridgeInv(config, Deliver(config, b, m, a, steps))
  {
    hide BridgeInv, Goes, CourseFrom;
    if steps > 0 && JournalMessage(b, m).Some? {
      JournalKeepsInv(config, b, m);
      EnsureKeepsInv(config, JournalMessage(b, m).value, m);
      var ensured := EnsureDelivery(JournalMessage(b, m).value, m);
      var course := CourseFrom(config, ensured, m, a);
      if steps > 1 && course != Stop {
        CourseGoes(config, ensured, m, a);
        ExecKeepsInv(config, ensured, m, course, steps - 2);
      }
    }
  }

  lemma {:induction false} RunKeepsInv(config: EngineConfig, b: Bridge, actions: seq<Action>)
    requires BridgeInv(config, b)
    ensures BridgeInv(config, Run(config, b, actions))
    decreases |actions|
  {
    hide PromptFrame, DeliveryOk, Deliver, Run;
    if actions == [] {
      NothingMore(config, b);
    } else {
      var next := Apply(config, b, actions[0]);
      RunUnfolds(config, b, actions);
      if actions[0].Attempt? {
        DeliverKeepsInv(config, b, actions[0].message, actions[0].answers, actions[0].steps);
      } else {
        AdministeringIsFine(config, b, next);
      }
      RunKeepsInv(config, next, actions[1..]);
    }
  }

  lemma NothingMore(config: EngineConfig, b: Bridge)
    ensures Run(config, b, []) == b
  {
  }

  lemma RunUnfolds(config: EngineConfig, b: Bridge, actions: seq<Action>)
    requires actions != []
    ensures Run(config, b, actions) == Run(config, Apply(config, b, actions[0]), actions[1..])
  {
    hide Apply;
  }

  lemma AdministeringIsFine(config: EngineConfig, b: Bridge, next: Bridge)
    requires BridgeInv(config, b) && next == b.(locks := next.locks, agents := next.agents)
    ensures BridgeInv(config, next)
  {
    hide PromptFrame, ViewOk;
    forall k ensures DeliveryOk(config, next, k) { assert DeliveryOk(config, b, k); }
  }

  lemma EmptyIsFine(config: EngineConfig)
    ensures BridgeInv(config, EMPTY)
  {
  }

  // Main results, for every run

  /** The deliveries a run leaves show what every record shows. */
  lemma RunShows(config: EngineConfig, actions: seq<Action>, k: Key)
    ensures DeliveryOk(config, Run(config, EMPTY, actions), k)
  {
    EmptyIsFine(config);
    RunKeepsInv(config, EMPTY, actions);
  }

  /** However the runtime answers and wherever crashes fall, one message prompts its recipient at most
    once, with its own frame; and never when it is board-only, or its delivery was refused, found no
    target, or was suppressed. */
  lemma PromptedAtMostOnce(config: EngineConfig, actions: seq<Action>, k: Key)
    ensures var b := Run(config, EMPTY, actions);
      && |PromptsTo(b, k)| <= 1
      && (PromptsTo(b, k) != [] ==>
            && k in b.deliveries && k.messageId in b.messages
            && var m := b.messages[k.messageId];
               PromptsTo(b, k) == [PromptFrame(m, k.recipient, config.journalDb)] && m.projection != BoardOnly)
    ensures var b := Run(config, EMPTY, actions);
      k in b.deliveries ==>
        var h := b.deliveries[k].history;
        && h != []
        && (h[|h| - 1] in {TargetAuthorityMismatch, ExactNativeTargetNotBound, TargetUnavailable, Suppressed} ==>
            PromptsTo(b, k) == [])
        && (PromptSubmitted in h ==> |PromptsTo(b, k)| == 1)
  {
    hide PromptFrame, Run;
    RunShows(config, actions, k);
    var b := Run(config, EMPTY, actions);
    if PromptsTo(b, k) != [] { assert PromptsTo(b, k)[0] in PromptsTo(b, k); }
  }

  lemma DoPrompts(b: Bridge, m: Message, e: Effect, k: Key)
    requires KeyOf(m) in b.deliveries
    ensures (e.Prompted? && k == KeyOf(m)) || PromptsTo(Do(b, m, e), k) == PromptsTo(b, k)
  {
  }

  lemma {:induction false} ExecPrompts(b: Bridge, m: Message, c: Course, steps: nat, k: Key)
    requires KeyOf(m) in b.deliveries
    ensures (Prompts(c) && k == KeyOf(m)) || PromptsTo(Exec(b, m, c, steps), k) == PromptsTo(b, k)
    decreases c
  {
    hide PromptsTo, Do;
    if c.Then? && steps != 0 {
      DoPrompts(b, m, c.effect, k);
      DoKeepsKey(b, m, c.effect);
      ExecPrompts(Do(b, m, c.effect), m, c.rest, steps - 1, k);
    }
  }

  lemma DoKeepsKey(b: Bridge, m: Message, e: Effect)
    requires KeyOf(m) in b.deliveries
    ensures KeyOf(m) in Do(b, m, e).deliveries
  {
  }

  lemma EntryKeepsRest(b: Bridge, m: Message)
    ensures var journaled := JournalMessage(b, m);
      journaled.Some? ==>
        var c := EnsureDelivery(journaled.value, m);
        && journaled.value.prompts == c.prompts == b.prompts && c.locks == b.locks && c.agents == b.agents
        && c.routes == b.routes && KeyOf(m) in c.deliveries
  {
  }

  /** What `m` may be prompted under: it is a reply, or carries a standing lock for this recipient on the
    right thread, or carries none where none is required. */
  predicate Authorized(config: EngineConfig, b: Bridge, m: Message) {
    || m.authority.mode == ParentDerived
    || (if m.authority.lockId in {None, Some("")} then !config.requireLock
        else LockStands(b.locks, m) && m.recipient in b.agents
             && ThreadFits(b.locks[m.authority.lockId.value], b.agents[m.recipient]))
  }

  /** Whatever the journal, the runtime and the crash, a delivery prompts nobody but its own recipient, and
    only under the locks and bindings that stand at that moment, off the board, with no loop suspected. */
  lemma OnlyAuthorizedPrompts(config: EngineConfig, b: Bridge, m: Message, a: Answers, steps: nat, k: Key)
    requires PromptsTo(Deliver(config, b, m, a, steps), k) != PromptsTo(b, k)
    ensures k == KeyOf(m) && Authorized(config, b, m)
    ensures m.projection != BoardOnly && m.recipient in b.agents && !LoopSuspected(b.routes, m)
  {
    hide Fresh, Exec, Preflight, Prompts, JournalMessage, EnsureDelivery, LoopSuspected, LockStands, ThreadFits,
      Approach, Stale;
    EntryKeepsRest(b, m);
    PreflightIs(config, b.locks, b.agents, m);
    PromptsIff(config, b.locks, b.agents, b.routes, m, a);
    NoPromptsInStop();
    if steps > 1 && JournalMessage(b, m).Some? {
      var ensured := EnsureDelivery(JournalMessage(b, m).value, m);
      ExecPrompts(ensured, m, CourseFrom(config, ensured, m, a), steps - 2, k);
    }
  }

  lemma NoPromptsInStop()
    ensures !Prompts(Stop)
  {
  }

  /** What a record shows is a path through the transition graph, self-steps only at its start. */
  lemma RecordsAreLegal(config: EngineConfig, actions: seq<Action>, k: Key)
    requires k in Run(config, EMPTY, actions).deliveries
    ensures Path(Run(config, EMPTY, actions).deliveries[k].history)
  {
    hide Run;
    RunShows(config, actions, k);
  }

  /** "Acknowledged" comes last, and straight after prompt submitted, activity observed, perhaps runtime
    settled, and reply captured, in that order; the reply was captured with enough confidence. */
  lemma AcknowledgedInOrder(config: EngineConfig, actions: seq<Action>, k: Key, n: nat)
    requires var b := Run(config, EMPTY, actions);
      k in b.deliveries && n < |b.deliveries[k].history| && b.deliveries[k].history[n] == Acknowledged
    ensures var r := Run(config, EMPTY, actions).deliveries[k];
      var h := r.history;
      && n == |h| - 1 && n >= 4 && h[n - 1] == ReplyCaptured
      && (|| (h[n - 2] == ActivityObserved && h[n - 3] == PromptSubmitted)
          || (h[n - 2] == RuntimeSettled && h[n - 3] == ActivityObserved && h[n - 4] == PromptSubmitted))
      && r.reply.Some? && r.confidence.Some?
      && (r.confidence.value in {Structured, TurnFenced} || (config.allowHeuristic && r.confidence.value == Heuristic))
  {
    hide PromptFrame, Run;
    RunShows(config, actions, k);
    var b := Run(config, EMPTY, actions);
    AcknowledgedAfter(b.deliveries[k].history, n);
  }

  lemma AcknowledgedAfter(h: seq<State>, n: nat)
    requires Path(h) && n < |h| && h[n] == Acknowledged
    ensures n == |h| - 1 && n >= 4 && h[n - 1] == ReplyCaptured
    ensures (h[n - 2] == ActivityObserved && h[n - 3] == PromptSubmitted) ||
            (h[n - 2] == RuntimeSettled && h[n - 3] == ActivityObserved && h[n - 4] == PromptSubmitted)
  {
    assert n + 1 < |h| ==> Follows(h[n + 1 - 1], h[n + 1]);
    assert Follows(h[n - 1], h[n]);
    assert Follows(h[n - 2], h[n - 1]);
    assert Follows(h[n - 3], h[n - 2]);
    assert Follows(h[n - 4], h[n - 3]);
  }

  predicate NotBegun(b: Bridge, k: Key) {
    k in b.deliveries ==> b.deliveries[k].history != [] && StateOf(ViewOf(b, k)) == Journaled
  }

  /** Left alone, a delivery that had not got beyond the journal rests in an outcome. */
  lemma UncutDeliveryRests(config: EngineConfig, actions: seq<Action>, m: Message, a: Answers, steps: nat)
    requires var b := Run(config, EMPTY, actions);
      && JournalMessage(b, m).Some? && NotBegun(b, KeyOf(m))
      && steps >= 2 + Length(CourseFrom(config, EnsureDelivery(JournalMessage(b, m).value, m), m, a))
    ensures Rests(Deliver(config, Run(config, EMPTY, actions), m, a, steps), KeyOf(m))
  {
    EmptyIsFine(config);
    RunKeepsInv(config, EMPTY, actions);
    hide BridgeInv, Run, CourseFrom, JournalMessage, Deliver, Rests;
    DeliveryRests(config, Run(config, EMPTY, actions), m, a, steps);
  }

  lemma DeliveryRests(config: EngineConfig, b: Bridge, m: Message, a: Answers, steps: nat)
    requires BridgeInv(config, b) && JournalMessage(b, m).Some? && NotBegun(b, KeyOf(m))
    requires steps >= 2 + Length(CourseFrom(config, EnsureDelivery(JournalMessage(b, m).value, m), m, a))
    ensures Rests(Deliver(config, b, m, a, steps), KeyOf(m))
  {
    hide BridgeInv, Goes, CourseFrom, Rests;
    JournalKeepsInv(config, b, m);
    var journaled := JournalMessage(b, m).value;
    EnsureKeepsInv(config, journaled, m);
    var ensured := EnsureDelivery(journaled, m);
    assert NotBegun(ensured, KeyOf(m));
    FreshMoves(config, ensured, m, a);
    CourseGoes(config, ensured, m, a);
    ExecKeepsInv(config, ensured, m, CourseFrom(config, ensured, m, a), steps - 2);
  }

  lemma FreshMoves(config: EngineConfig, b: Bridge, m: Message, a: Answers)
    requires KeyOf(m) in b.deliveries && NotBegun(b, KeyOf(m))
    ensures CourseFrom(config, b, m, a) != Stop
  {
    hide Preflight, Dispatch;
  }

  /** Delivering again what got beyond the journal does nothing at all. */
  lemma NothingIsReplayed(config: EngineConfig, actions: seq<Action>, m: Message, a: Answers, steps: nat)
    requires var b := Run(config, EMPTY, actions);
      KeyOf(m) in b.deliveries && b.deliveries[KeyOf(m)].history != []
      && b.deliveries[KeyOf(m)].history[|b.deliveries[KeyOf(m)].history| - 1] != Journaled
    ensures Deliver(config, Run(config, EMPTY, actions), m, a, steps) == Run(config, EMPTY, actions)
  {
    hide PromptFrame, Run, Fresh;
    RunShows(config, actions, KeyOf(m));
  }

  // One payload, one route: submitted once

  /** The crash falls between recording a submission and recording its route. */
  predicate CutAtSubmission(c: Course, steps: nat)
    decreases c
  {
    match c
    case Stop => false
    case Then(e, rest) =>
      if steps == 0 then false
      else if steps == 1 then e.Moved? && e.state == PromptSubmitted
      else CutAtSubmission(rest, steps - 1)
  }

  predicate AttemptCutAtSubmission(config: EngineConfig, b: Bridge, m: Message, a: Answers, steps: nat) {
    steps > 2 && JournalMessage(b, m).Some? &&
    CutAtSubmission(CourseFrom(config, EnsureDelivery(JournalMessage(b, m).value, m), m, a), steps - 2)
  }

  predicate RoutesAlwaysRecorded(config: EngineConfig, b: Bridge, actions: seq<Action>)
    decreases |actions|
  {
    actions != [] ==>
      && (actions[0].Attempt? ==>
            !AttemptCutAtSubmission(config, b, actions[0].message, actions[0].answers, actions[0].steps))
      && RoutesAlwaysRecorded(config, Apply(config, b, actions[0]), actions[1..])
  }

  predicate Submitted(b: Bridge, k: Key) {
    k in b.deliveries && PromptSubmitted in b.deliveries[k].history
  }

  function RouteAt(b: Bridge, k: Key): Route
    requires k.messageId in b.messages
  {
    RouteOf(b.messages[k.messageId])
  }

  ghost predicate RoutesInv(b: Bridge) {
    && (forall k | Submitted(b, k) :: k.messageId in b.messages && RouteAt(b, k) in b.routes)
    && (forall k, l | Submitted(b, k) && Submitted(b, l) && RouteAt(b, k) == RouteAt(b, l) :: k == l)
  }

  predicate IsSubmission(e: Effect) { e.Moved? && e.state == PromptSubmitted }

  lemma DoRoutes(b: Bridge, m: Message, e: Effect)
    requires KeyOf(m) in b.deliveries
    ensures var next := Do(b, m, e);
      && KeyOf(m) in next.deliveries && next.messages == b.messages
         && b.routes <= next.routes <= b.routes + {RouteOf(m)}
      && (Submitted(next, KeyOf(m)) <==> Submitted(b, KeyOf(m)) || IsSubmission(e))
    ensures forall k | k != KeyOf(m) :: Submitted(Do(b, m, e), k) == Submitted(b, k)
  {
  }

  lemma {:induction false} ExecRoutes(b: Bridge, m: Message, c: Course, steps: nat, frame: string)
    requires KeyOf(m) in b.deliveries && WellFormed(c, frame)
    ensures var after := Exec(b, m, c, steps);
      && after.messages == b.messages && b.routes <= after.routes <= b.routes + {RouteOf(m)}
      && (Submitted(after, KeyOf(m)) ==> Submitted(b, KeyOf(m)) || Submits(c))
      && (Submitted(after, KeyOf(m)) && !Submitted(b, KeyOf(m)) && !CutAtSubmission(c, steps) ==>
          RouteOf(m) in after.routes)
    ensures forall k | k != KeyOf(m) :: Submitted(Exec(b, m, c, steps), k) == Submitted(b, k)
    decreases c
  {
    hide Do, Submitted, RouteOf;
    if c.Then? && steps > 0 {
      var next := Do(b, m, c.effect);
      DoRoutes(b, m, c.effect);
      ExecRoutes(next, m, c.rest, steps - 1, frame);
      if IsSubmission(c.effect) && steps > 1 { RoutedNext(next, m, c.rest, steps - 1, frame); }
    }
  }

  lemma RoutedNext(b: Bridge, m: Message, c: Course, steps: nat, frame: string)
    requires KeyOf(m) in b.deliveries && c.Then? && c.effect == Routed && steps > 0 && WellFormed(c, frame)
    ensures RouteOf(m) in Exec(b, m, c, steps).routes
  {
    RoutesGrow(Do(b, m, Routed), m, c.rest, steps - 1);
  }

  lemma {:induction false} RoutesGrow(b: Bridge, m: Message, c: Course, steps: nat)
    requires KeyOf(m) in b.deliveries
    ensures b.routes <= Exec(b, m, c, steps).routes
    decreases c
  {
    if c.Then? && steps > 0 { RoutesGrow(Do(b, m, c.effect), m, c.rest, steps - 1); }
  }

  lemma DeliverKeepsRoutes(config: EngineConfig, b: Bridge, m: Message, a: Answers, steps: nat)
    requires BridgeInv(config, b) && RoutesInv(b) && !AttemptCutAtSubmission(config, b, m, a, steps)
    ensures RoutesInv(Deliver(config, b, m, a, steps))
  {
    hide BridgeInv, CourseFrom, CutAtSubmission, PromptFrame;
    if steps > 0 && JournalMessage(b, m).Some? {
      JournalKeepsInv(config, b, m);
      JournalKeepsRoutes(config, b, m);
      var journaled := JournalMessage(b, m).value;
      if steps > 1 {
        EnsureKeepsRoutes(journaled, m);
        var ensured := EnsureDelivery(journaled, m);
        CourseKeepsRoutes(config, ensured, m, a, steps - 2);
      }
    }
  }

  lemma JournalKeepsRoutes(config: EngineConfig, b: Bridge, m: Message)
    requires RoutesInv(b) && JournalMessage(b, m).Some?
    ensures RoutesInv(JournalMessage(b, m).value)
  {
    var journaled := JournalMessage(b, m).value;
    assert forall k :: Submitted(journaled, k) == Submitted(b, k);
    assert forall k | Submitted(b, k) :: RouteAt(journaled, k) == RouteAt(b, k);
  }

  lemma EnsureKeepsRoutes(b: Bridge, m: Message)
    requires RoutesInv(b)
    ensures RoutesInv(EnsureDelivery(b, m))
  {
    hide RouteOf;
    var ensured := EnsureDelivery(b, m);
    if KeyOf(m) !in b.deliveries {
      forall k ensures Submitted(ensured, k) == Submitted(b, k) {}
      assert ensured.messages == b.messages && ensured.routes == b.routes;
    }
  }

  lemma CourseKeepsRoutes(config: EngineConfig, b: Bridge, m: Message, a: Answers, steps: nat)
    requires RoutesInv(b) && KeyOf(m) in b.deliveries && m.id in b.messages && b.messages[m.id] == m
    requires steps > 0 ==> !CutAtSubmission(CourseFrom(config, b, m, a), steps)
    ensures RoutesInv(Exec(b, m, CourseFrom(config, b, m, a), steps))
  {
    hide Fresh, PromptFrame, Preflight, Stale, Approach, Exec, CutAtSubmission;
    var c := CourseFrom(config, b, m, a);
    var frame := PromptFrame(m, m.recipient, config.journalDb);
    SubmitsIff(config, b.locks, b.agents, b.routes, m, a);
    PromptsIff(config, b.locks, b.agents, b.routes, m, a);
    ExecRoutes(b, m, c, steps, frame);
    if steps == 0 { ExecNothing(b, m, c); }
    var after := Exec(b, m, c, steps);
    assert Submitted(after, KeyOf(m)) && !Submitted(b, KeyOf(m)) ==> RouteOf(m) !in b.routes;
    assert forall k | Submitted(b, k) :: RouteAt(after, k) == RouteAt(b, k);
  }

  lemma ExecNothing(b: Bridge, m: Message, c: Course)
    requires KeyOf(m) in b.deliveries
    ensures Exec(b, m, c, 0) == b && !CutAtSubmission(c, 0)
  {
  }

  lemma {:induction false} RunKeepsRoutes(config: EngineConfig, b: Bridge, actions: seq<Action>)
    requires BridgeInv(config, b) && RoutesInv(b) && RoutesAlwaysRecorded(config, b, actions)
    ensures RoutesInv(Run(config, b, actions))
    decreases |actions|
  {
    hide BridgeInv, Deliver, AttemptCutAtSubmission;
    if actions != [] {
      var next := Apply(config, b, actions[0]);
      RunKeepsInv(config, b, [actions[0]]);
      assert Run(config, b, [actions[0]]) == next;
      if actions[0].Attempt? {
        DeliverKeepsRoutes(config, b, actions[0].message, actions[0].answers, actions[0].steps);
      } else {
        assert forall k :: Submitted(next, k) == Submitted(b, k);
      }
      RunKeepsRoutes(config, next, actions[1..]);
    }
  }

  /** If no crash falls between recording a submission and recording its route, no sender's payload is
    submitted twice to one recipient on one thread. */
  lemma NoPayloadSubmittedTwice(config: EngineConfig, actions: seq<Action>, k: Key, l: Key)
    requires RoutesAlwaysRecorded(config, EMPTY, actions)
    requires var b := Run(config, EMPTY, actions);
      && Submitted(b, k) && Submitted(b, l)
      && k.messageId in b.messages && l.messageId in b.messages && RouteAt(b, k) == RouteAt(b, l)
    ensures k == l
  {
    hide PromptFrame, Deliver, Run, RoutesAlwaysRecorded, BridgeInv;
    NoRoutesYet();
    EmptyIsFine(config);
    RunKeepsRoutes(config, EMPTY, actions);
  }

  // The crash that lets a payload through twice

  /** Two messages were submitted on this route. */
  ghost predicate Repeated(b: Bridge, route: Route) {
    exists k, l :: k != l && SubmittedOn(b, k, route) && SubmittedOn(b, l, route)
  }

  predicate SubmittedOn(b: Bridge, k: Key, route: Route) {
    Submitted(b, k) && k.messageId in b.messages && RouteAt(b, k) == route
  }

  /** Up to its one submission the course records no route. */
  predicate RoutesLate(c: Course) {
    match c
    case Stop => true
    case Then(e, rest) => if IsSubmission(e) then !Submits(rest) else e != Routed && RoutesLate(rest)
  }

  lemma AtReadyRoutesLate(config: EngineConfig, m: Message, a: Answers, live: AgentInfo)
    ensures RoutesLate(AtReady(config, m, a, live))
  {
    hide PromptFrame, Watch;
    if a.prompted.Ok? {
      WatchQuiet(config, m, a, live, a.prompted.value, "");
      var watch := Watch(config, m, a, live, a.prompted.value);
      assert !Submits(Then(Routed, watch));
    }
  }

  lemma ResolveRoutesLate(config: EngineConfig, agents: map<string, Binding>, routes: set<Route>, m: Message,
                          a: Answers)
    ensures RoutesLate(Resolve(config, agents, routes, m, a))
  {
    hide Stale, Approach, LoopSuspected, AtReady;
    assert RoutesLate(Go(BlockedState, Stop)) && RoutesLate(Go(Suppressed, Stop))
      && RoutesLate(Go(TargetUnavailable, Stop));
    assert RoutesLate(Go(Ready, Go(BlockedState, Stop)));
    if m.recipient in agents && a.live.Some? {
      var approach := Approach(m, a, a.live.value);
      if approach.Ok? { AtReadyRoutesLate(config, m, a, approach.value); }
      assert RoutesLate(AtTarget(config, routes, m, a, a.live.value));
    }
  }

  lemma FreshRoutesLate(config: EngineConfig, locks: map<string, TargetLock>, agents: map<string, Binding>,
                        routes: set<Route>, m: Message, a: Answers)
    ensures RoutesLate(Fresh(config, locks, agents, routes, m, a))
  {
    hide Preflight, Resolve;
    ResolveRoutesLate(config, agents, routes, m, a);
    var resolve := Go(ResolvingTarget, Resolve(config, agents, routes, m, a));
    var suppress := Go(Ready, Go(Suppressed, Stop));
    assert RoutesLate(resolve) && RoutesLate(suppress) && RoutesLate(Go(ResolvingTarget, suppress));
    assert RoutesLate(Dispatch(config, agents, routes, m, a));
    RefusalsAreFinal(config, locks, agents, m);
  }

  lemma RefusalsAreFinal(config: EngineConfig, locks: map<string, TargetLock>, agents: map<string, Binding>, m: Message)
    ensures var gate := Preflight(config, locks, agents, m);
      gate.Refuse? ==> gate.state in {TargetAuthorityMismatch, ExactNativeTargetNotBound}
  {
  }

  /** Cut at its submission, a course has submitted its message and recorded no route. */
  lemma {:induction false} CutExec(b: Bridge, m: Message, c: Course, steps: nat)
    requires KeyOf(m) in b.deliveries && RoutesLate(c) && CutAtSubmission(c, steps)
    ensures var after := Exec(b, m, c, steps);
      Submitted(after, KeyOf(m)) && after.routes == b.routes && after.messages == b.messages
    ensures Submits(c)
    decreases c
  {
    hide Submitted, RouteOf;
    var next := Do(b, m, c.effect);
    DoRoutes(b, m, c.effect);
    DoRecordsRoute(b, m, c.effect);
    if steps == 1 {
      ExecNothing(next, m, c.rest);
    } else {
      CutNeedsSubmission(c.rest, steps - 1);
      CutExec(next, m, c.rest, steps - 1);
    }
  }

  lemma DoRecordsRoute(b: Bridge, m: Message, e: Effect)
    requires KeyOf(m) in b.deliveries
    ensures e != Routed ==> Do(b, m, e).routes == b.routes
  {
  }

  lemma {:induction false} CutNeedsSubmission(c: Course, steps: nat)
    requires CutAtSubmission(c, steps)
    ensures Submits(c)
    decreases c
  {
    if steps > 1 { CutNeedsSubmission(c.rest, steps - 1); }
  }

  lemma NothingToCut(steps: nat)
    ensures !CutAtSubmission(Stop, steps)
  {
  }

  /** A course that submits suspected no loop. */
  lemma CutIsUnsuspected(config: EngineConfig, b: Bridge, m: Message, a: Answers, steps: nat)
    requires KeyOf(m) in b.deliveries && CutAtSubmission(CourseFrom(config, b, m, a), steps)
    ensures !LoopSuspected(b.routes, m)
    ensures CourseFrom(config, b, m, a) == Fresh(config, b.locks, b.agents, b.routes, m, a)
  {
    hide Fresh, CutAtSubmission, Preflight, Stale, Approach, LoopSuspected, Submits, Prompts, WellFormed, PromptFrame;
    NothingToCut(steps);
    CutNeedsSubmission(CourseFrom(config, b, m, a), steps);
    SubmitsIff(config, b.locks, b.agents, b.routes, m, a);
    PromptsIff(config, b.locks, b.agents, b.routes, m, a);
  }

  lemma CutCourseLeavesRouteOpen(config: EngineConfig, b: Bridge, m: Message, a: Answers, steps: nat)
    requires KeyOf(m) in b.deliveries && CutAtSubmission(CourseFrom(config, b, m, a), steps)
    ensures var after := Exec(b, m, CourseFrom(config, b, m, a), steps);
      Submitted(after, KeyOf(m)) && after.routes == b.routes && after.messages == b.messages
    ensures RouteOf(m) !in b.routes && !BudgetSpent(m.routing)
  {
    hide Fresh, Exec, Submitted, RouteOf, CutAtSubmission, CourseFrom, BudgetSpent;
    CutIsUnsuspected(config, b, m, a, steps);
    FreshRoutesLate(config, b.locks, b.agents, b.routes, m, a);
    CutExec(b, m, CourseFrom(config, b, m, a), steps);
  }

  /** An attempt cut at its submission leaves its route open: submitted, unrecorded, budgets unspent. */
  lemma CutLeavesRouteOpen(config: EngineConfig, b: Bridge, m: Message, a: Answers, steps: nat)
    requires BridgeInv(config, b) && AttemptCutAtSubmission(config, b, m, a, steps)
    ensures var after := Deliver(config, b, m, a, steps);
      SubmittedOn(after, KeyOf(m), RouteOf(m)) && RouteOf(m) !in after.routes && !BudgetSpent(m.routing)
  {
    hide BridgeInv, CourseFrom, Exec, Submitted, RouteOf, CutAtSubmission, JournalMessage, BudgetSpent;
    JournalKeepsInv(config, b, m);
    CutCourseLeavesRouteOpen(config, EnsureDelivery(JournalMessage(b, m).value, m), m, a, steps - 2);
  }

  // A copy under a fresh id gets through

  lemma {:induction false} LongerThanAll(texts: set<string>) returns (n: nat)
    ensures forall t | t in texts :: |t| < n
  {
    if texts == {} {
      n := 0;
    } else {
      var t :| t in texts;
      n := LongerThanAll(texts - {t});
      n := if |t| < n then n else |t| + 1;
    }
  }

  lemma FreshText(taken: set<string>) returns (text: string)
    ensures text !in taken
  {
    var n := LongerThanAll(taken);
    text := seq(n, _ => 'x');
  }

  /** The same payload on the same route, as a reply under another id. */
  function Twin(m: Message, id: string): Message {
    m.(id := id, authority := TargetAuthority(ParentDerived, None, None), projection := HerdrPrompt,
       routing := m.routing.(idempotencyKey := id))
  }

  const NATIVE: Option<NativeSession> := None
  const BINDING := Binding("pane", "terminal", NATIVE)
  const LIVE := AgentInfo("terminal", Idle, 0, NATIVE)
  const STIRRED := LIVE.(changeSeq := 1)
  const READY_ANSWERS := Answers(Some(LIVE), None, None, Ok(STIRRED), [], None, Ok(LIVE), None, None, None)

  /** Nothing stands in the way of the message. */
  predicate Clear(b: Bridge, m: Message) {
    && m.authority.mode == ParentDerived && m.projection == HerdrPrompt
    && m.recipient in b.agents && b.agents[m.recipient] == BINDING
    && !LoopSuspected(b.routes, m)
    && KeyOf(m) in b.deliveries && b.deliveries[KeyOf(m)].history == [Journaled]
  }

  /** The course such a message takes. */
  function ClearCourse(config: EngineConfig, m: Message): Course {
    Go(Journaled, Go(ResolvingTarget, Then(Rebound(BINDING), Go(Ready,
      Then(Prompted(PromptFrame(m, m.recipient, config.journalDb)),
        Go(PromptSubmitted, Then(Routed, Watch(config, m, READY_ANSWERS, LIVE, STIRRED))))))))
  }

  lemma ClearTakesIt(config: EngineConfig, b: Bridge, m: Message)
    requires Clear(b, m)
    ensures CourseFrom(config, b, m, READY_ANSWERS) == ClearCourse(config, m)
  {
    hide PromptFrame, Watch, LoopSuspected;
    var a := READY_ANSWERS;
    assert Preflight(config, b.locks, b.agents, m) == Pass && Approach(m, a, LIVE) == Ok(LIVE) && !Stale(BINDING, LIVE);
  }

  /** Seven effects into its course it is submitted and its route recorded; nothing is cut there. */
  lemma SevenEffects(config: EngineConfig, b: Bridge, m: Message)
    requires Clear(b, m) && KeyOf(m) in b.deliveries
    ensures Submitted(Exec(b, m, CourseFrom(config, b, m, READY_ANSWERS), 7), KeyOf(m))
    ensures !CutAtSubmission(CourseFrom(config, b, m, READY_ANSWERS), 7)
  {
    hide PromptFrame, Watch, CourseFrom, Do, Submitted, Clear;
    ClearTakesIt(config, b, m);
    var frame, watch := PromptFrame(m, m.recipient, config.journalDb), Watch(config, m, READY_ANSWERS, LIVE, STIRRED);
    var last := Then(Routed, watch);
    var c2 := Go(PromptSubmitted, last);
    var c3 := Then(Prompted(frame), c2);
    var c4 := Go(Ready, c3);
    var c5 := Then(Rebound(BINDING), c4);
    var c6 := Go(ResolvingTarget, c5);
    assert !CutAtSubmission(c2, 2) && !CutAtSubmission(c3, 3) && !CutAtSubmission(c4, 4);
    assert !CutAtSubmission(c5, 5) && !CutAtSubmission(c6, 6);
    assert SubmitsAt(c2, 1) && SubmitsAt(c3, 2) && SubmitsAt(c4, 3) && SubmitsAt(c5, 4) && SubmitsAt(c6, 5);
    assert ClearCourse(config, m) == Go(Journaled, c6);
    SubmitsWithin(b, m, Go(Journaled, c6), 7, 6);
  }

  predicate SubmitsAt(c: Course, n: nat)
    decreases c
  {
    c.Then? && if n == 1 then IsSubmission(c.effect) else n > 1 && SubmitsAt(c.rest, n - 1)
  }

  lemma {:induction false} SubmitsWithin(b: Bridge, m: Message, c: Course, steps: nat, n: nat)
    requires KeyOf(m) in b.deliveries && SubmitsAt(c, n) && n <= steps
    ensures Submitted(Exec(b, m, c, steps), KeyOf(m))
    decreases c
  {
    hide Submitted;
    DoRoutes(b, m, c.effect);
    if n == 1 {
      SubmittedRemains(Do(b, m, c.effect), m, c.rest, steps - 1);
    } else {
      SubmitsWithin(Do(b, m, c.effect), m, c.rest, steps - 1, n - 1);
    }
  }

  lemma {:induction false} SubmittedRemains(b: Bridge, m: Message, c: Course, steps: nat)
    requires KeyOf(m) in b.deliveries && Submitted(b, KeyOf(m))
    ensures Submitted(Exec(b, m, c, steps), KeyOf(m))
    decreases c
  {
    hide Submitted;
    if c.Then? && steps > 0 {
      DoRoutes(b, m, c.effect);
      SubmittedRemains(Do(b, m, c.effect), m, c.rest, steps - 1);
    }
  }

  /** Where a submitted message left its route open, a copy of it under a fresh id is submitted as well, with
    nothing cut at a submission. */
  lemma CopyGetsThrough(config: EngineConfig, b: Bridge, m: Message) returns (more: seq<Action>)
    requires BridgeInv(config, b) && SubmittedOn(b, KeyOf(m), RouteOf(m))
    requires RouteOf(m) !in b.routes && !BudgetSpent(m.routing)
    ensures RoutesAlwaysRecorded(config, b, more) && Repeated(Run(config, b, more), RouteOf(m))
  {
    hide BridgeInv, Submitted, CourseFrom, Exec, CutAtSubmission, BudgetSpent, SubmittedOn;
    var id := FreshText(b.messages.Keys + b.idempotency.Keys);
    var twin := Twin(m, id);
    var bound := b.(locks := map[], agents := map[m.recipient := BINDING]);
    var journaled := JournalMessage(bound, twin).value;
    UnseenHasNoDelivery(config, b, id);
    var ensured := EnsureDelivery(journaled, twin);
    assert Clear(ensured, twin) by { hide RouteOf; TwinRoute(m, id); }
    SevenEffects(config, ensured, twin);
    var after := Exec(ensured, twin, CourseFrom(config, ensured, twin, READY_ANSWERS), 7);
    assert Deliver(config, bound, twin, READY_ANSWERS, 9) == after;
    StaysSubmitted(config, b, ensured, m, twin);
    TwinRoute(m, id);
    assert SubmittedOn(after, KeyOf(twin), RouteOf(m)) by { TwinSubmitted(config, ensured, twin, m); }
    var setup, attempt := Administer(map[], map[m.recipient := BINDING]), Attempt(twin, READY_ANSWERS, 9);
    more := [setup, attempt];
    RunOfTwo(config, b, setup, attempt);
    assert KeyOf(twin) != KeyOf(m) by { KnownId(b, m); }
  }

  lemma KnownId(b: Bridge, m: Message)
    requires SubmittedOn(b, KeyOf(m), RouteOf(m))
    ensures m.id in b.messages
  {
  }

  lemma TwinRoute(m: Message, id: string)
    ensures RouteOf(Twin(m, id)) == RouteOf(m) && BudgetSpent(Twin(m, id).routing) == BudgetSpent(m.routing)
  {
  }

  lemma UnseenHasNoDelivery(config: EngineConfig, b: Bridge, id: string)
    requires BridgeInv(config, b) && id !in b.messages
    ensures forall k | k in b.deliveries :: k.messageId != id
  {
    hide PromptFrame, ViewOk;
    forall k | k in b.deliveries ensures k.messageId != id { assert DeliveryOk(config, b, k); }
  }

  /** Delivering the copy leaves the first submission on record. */
  lemma StaysSubmitted(config: EngineConfig, b: Bridge, ensured: Bridge, m: Message, twin: Message)
    requires SubmittedOn(b, KeyOf(m), RouteOf(m)) && twin.id !in b.messages
    requires ensured.messages == b.messages[twin.id := twin] && KeyOf(twin) in ensured.deliveries
    requires ensured.deliveries == b.deliveries[KeyOf(twin) := Record([Journaled], None, None)]
    ensures SubmittedOn(Exec(ensured, twin, CourseFrom(config, ensured, twin, READY_ANSWERS), 7), KeyOf(m), RouteOf(m))
  {
    hide RouteOf, Fresh, Exec, PromptFrame;
    var c := CourseFrom(config, ensured, twin, READY_ANSWERS);
    SubmitsIff(config, ensured.locks, ensured.agents, ensured.routes, twin, READY_ANSWERS);
    ExecRoutes(ensured, twin, c, 7, PromptFrame(twin, twin.recipient, config.journalDb));
  }

  lemma TwinSubmitted(config: EngineConfig, ensured: Bridge, twin: Message, m: Message)
    requires KeyOf(twin) in ensured.deliveries && twin.id in ensured.messages && ensured.messages[twin.id] == twin
    requires RouteOf(twin) == RouteOf(m)
    requires Submitted(Exec(ensured, twin, CourseFrom(config, ensured, twin, READY_ANSWERS), 7), KeyOf(twin))
    ensures SubmittedOn(Exec(ensured, twin, CourseFrom(config, ensured, twin, READY_ANSWERS), 7), KeyOf(twin),
                        RouteOf(m))
  {
    hide RouteOf, Fresh, Exec, PromptFrame, Submitted;
    var c := CourseFrom(config, ensured, twin, READY_ANSWERS);
    SubmitsIff(config, ensured.locks, ensured.agents, ensured.routes, twin, READY_ANSWERS);
    ExecRoutes(ensured, twin, c, 7, PromptFrame(twin, twin.recipient, config.journalDb));
  }

  lemma RunOfTwo(config: EngineConfig, b: Bridge, x: Action, y: Action)
    ensures Run(config, b, [x, y]) == Apply(config, Apply(config, b, x), y)
    ensures x.Administer? && y.Attempt? ==>
      (RoutesAlwaysRecorded(config, b, [x, y]) <==>
        !AttemptCutAtSubmission(config, Apply(config, b, x), y.message, y.answers, y.steps))
  {
    hide Deliver, AttemptCutAtSubmission;
    assert [x, y][1..] == [y] && [y][1..] == [];
    assert Run(config, Apply(config, b, x), [y]) == Apply(config, Apply(config, b, x), y);
    assert RoutesAlwaysRecorded(config, Apply(config, Apply(config, b, x), y), []);
  }

  lemma {:induction false} RunSplits(config: EngineConfig, b: Bridge, before: seq<Action>, after: seq<Action>)
    ensures Run(config, b, before + after) == Run(config, Run(config, b, before), after)
    decreases |before|
  {
    hide Apply;
    if before == [] {
      assert before + after == after;
    } else {
      assert (before + after)[1..] == before[1..] + after;
      RunSplits(config, Apply(config, b, before[0]), before[1..], after);
    }
  }

  lemma RecordedIsUnrepeated(b: Bridge, route: Route)
    requires RoutesInv(b)
    ensures !Repeated(b, route)
  {
    hide Submitted, RouteOf;
  }

  /** After any run that recorded its routes and one more attempt at `m`: the route of `m` can still come to be
    submitted twice, with no further cut at a submission, if and only if this attempt was cut at its own. */
  lemma RepeatPossibleIffCut(config: EngineConfig, actions: seq<Action>, m: Message, a: Answers, steps: nat)
    requires RoutesAlwaysRecorded(config, EMPTY, actions)
    ensures var tried := actions + [Attempt(m, a, steps)];
      AttemptCutAtSubmission(config, Run(config, EMPTY, actions), m, a, steps) <==>
      exists more :: RoutesAlwaysRecorded(config, Run(config, EMPTY, tried), more) &&
                     Repeated(Run(config, EMPTY, tried + more), RouteOf(m))
  {
    hide BridgeInv, RoutesInv, AttemptCutAtSubmission, RoutesAlwaysRecorded, Deliver, Repeated, RouteOf, BudgetSpent,
      SubmittedOn;
    var tried := actions + [Attempt(m, a, steps)];
    var b, after := Run(config, EMPTY, actions), Run(config, EMPTY, tried);
    EmptyIsFine(config);
    NoRoutesYet();
    RunKeepsInv(config, EMPTY, actions);
    RunKeepsInv(config, EMPTY, tried);
    RunKeepsRoutes(config, EMPTY, actions);
    RunSplits(config, EMPTY, actions, [Attempt(m, a, steps)]);
    RunOfOne(config, b, Attempt(m, a, steps));
    if AttemptCutAtSubmission(config, b, m, a, steps) {
      CutLeavesRouteOpen(config, b, m, a, steps);
      var more := CopyGetsThrough(config, after, m);
      RunSplits(config, EMPTY, tried, more);
    } else {
      DeliverKeepsRoutes(config, b, m, a, steps);
      forall more | RoutesAlwaysRecorded(config, after, more)
        ensures !Repeated(Run(config, EMPTY, tried + more), RouteOf(m)) {
        RunKeepsRoutes(config, after, more);
        RunSplits(config, EMPTY, tried, more);
        RecordedIsUnrepeated(Run(config, after, more), RouteOf(m));
      }
    }
  }

  lemma NoRoutesYet()
    ensures RoutesInv(EMPTY)
  {
  }

  lemma RunOfOne(config: EngineConfig, b: Bridge, x: Action)
    ensures Run(config, b, [x]) == Apply(config, b, x)
  {
  }

  /** After every run that recorded its routes, an attempt cut at its submission lets its payload through again. */
  lemma CrashCanRepeatAPayload(config: EngineConfig, actions: seq<Action>, m: Message, a: Answers, steps: nat)
    requires RoutesAlwaysRecorded(config, EMPTY, actions)
    requires AttemptCutAtSubmission(config, Run(config, EMPTY, actions), m, a, steps)
    ensures exists more :: Repeated(Run(config, EMPTY, actions + [Attempt(m, a, steps)] + more), RouteOf(m))
  {
    hide RoutesAlwaysRecorded, AttemptCutAtSubmission, Repeated, RouteOf, Run;
    RepeatPossibleIffCut(config, actions, m, a, steps);
  }

  /** With its recipient bound and live, a reply within its budgets can be cut at its submission. */
  lemma CutHappens(config: EngineConfig, m: Message)
    requires m.authority.mode == ParentDerived && m.projection == HerdrPrompt && !BudgetSpent(m.routing)
    ensures var setup := [Administer(map[], map[m.recipient := BINDING])];
      && RoutesAlwaysRecorded(config, EMPTY, setup)
      && AttemptCutAtSubmission(config, Run(config, EMPTY, setup), m, READY_ANSWERS, 8)
  {
    hide PromptFrame, Watch, CourseFrom, CutAtSubmission, BudgetSpent;
    var setup := Administer(map[], map[m.recipient := BINDING]);
    var b := EMPTY.(agents := map[m.recipient := BINDING]);
    assert [setup][1..] == [];
    RunOfOne(config, EMPTY, setup);
    assert Run(config, EMPTY, [setup]) == b;
    var ensured := EnsureDelivery(JournalMessage(b, m).value, m);
    assert Clear(ensured, m);
    ClearTakesIt(config, ensured, m);
    ClearCanBeCut(config, m);
  }

  lemma ClearCanBeCut(config: EngineConfig, m: Message)
    ensures CutAtSubmission(ClearCourse(config, m), 6)
  {
    hide PromptFrame, Watch;
    var last := Then(Routed, Watch(config, m, READY_ANSWERS, LIVE, STIRRED));
    var c3 := Then(Prompted(PromptFrame(m, m.recipient, config.journalDb)), Go(PromptSubmitted, last));
    var c5 := Then(Rebound(BINDING), Go(Ready, c3));
    assert CutAtSubmission(Go(PromptSubmitted, last), 1) && CutAtSubmission(c3, 2) && CutAtSubmission(c5, 4);
    assert ClearCourse(config, m) == Go(Journaled, Go(ResolvingTarget, c5));
    assert CutAtSubmission(Go(ResolvingTarget, c5), 5);
  }

  /** So every such reply can come to be submitted twice. */
  lemma ReplyCanBeRepeated(config: EngineConfig, m: Message)
    requires m.authority.mode == ParentDerived && m.projection == HerdrPrompt && !BudgetSpent(m.routing)
    ensures exists actions :: Repeated(Run(config, EMPTY, actions), RouteOf(m))
  {
    hide RoutesAlwaysRecorded, AttemptCutAtSubmission, Repeated, RouteOf, Run, BudgetSpent;
    CutHappens(config, m);
    var setup := [Administer(map[], map[m.recipient := BINDING])];
    CrashCanRepeatAPayload(config, setup, m, READY_ANSWERS, 8);
    var more :| Repeated(Run(config, EMPTY, setup + [Attempt(m, READY_ANSWERS, 8)] + more), RouteOf(m));
  }
}
