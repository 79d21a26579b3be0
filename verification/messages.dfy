/** Building messages and replies, and what a chain of replies can do. */
module Messages {
  import opened Prelude
  import opened BridgeModels
  import opened TerminalText
  import opened Capture
  import opened Delivery
  import opened HardWrap
  import opened WrappedCapture
  import opened PaneCapture

  /** The identifiers `new_id` draws for one message. */
  datatype Ids = Ids(message: string, thread: string, correlation: string, marker: string, idempotency: string)

  /** `value or default` */
  function Or(value: Option<string>, default: string): string {
    if value.Some? && value.value != "" then value.value else default
  }

  /** `_target_authority` */
  function AuthorityOf(lock: Option<TargetLock>, derived: bool, parentAuthority: Option<TargetAuthority>,
                       parentId: Option<string>)
    : TargetAuthority
  {
    if lock.Some? then TargetAuthority(Locked, Some(lock.value.id), None)
    else if derived then
      TargetAuthority(ParentDerived, if parentAuthority.Some? then parentAuthority.value.lockId else None, parentId)
    else TargetAuthority(Unlocked, None, None)
  }

  /** `new_message` for a request; the remaining defaults are written out. */
  function NewMessage(ids: Ids, sender: string, recipient: string, text: string, thread: Option<string>,
                      correlation: Option<string>, projection: Projection, requireAck: bool, maxHops: int, depth: int,
                      maxDepth: int, lock: Option<TargetLock>): Message
  {
    Message(ids.message, Or(thread, ids.thread), Or(correlation, ids.correlation), None, "request", "direct", sender,
            recipient, AuthorityOf(lock, false, None, None), text, "EML_REPLY_" + ids.message + "_" + ids.marker,
            projection, true, requireAck, Routing(0, maxHops, depth, maxDepth, [sender], ids.idempotency, Sha256(text)))
  }

  /** `reply_message` */
  function ReplyMessage(ids: Ids, parent: Message, sender: string, text: string): Message {
    var r := parent.routing;
    Message(ids.message, Or(Some(parent.threadId), ids.thread), Or(Some(parent.correlationId), ids.correlation),
            Some(parent.id), "reply", "reply", sender, parent.sender,
            AuthorityOf(None, true, Some(parent.authority), Some(parent.id)), text,
            "EML_REPLY_" + ids.message + "_" + ids.marker, HerdrPrompt, true, false,
            Routing(r.hopCount + 1, r.maxHops, r.autoReplyDepth + 1, r.maxAutoReplyDepth, r.routeTrace + [sender],
                    ids.idempotency, Sha256(text)))
  }

  /** What a reply says, and what it inherits: it goes back to the sender under its own ids, in the same thread and
    correlation, with the hash of its own text, one hop and one automatic reply further on. */
  lemma ReplyIs(ids: Ids, parent: Message, sender: string, text: string)
    ensures var m := ReplyMessage(ids, parent, sender, text);
      && m.id == ids.message && m.sender == sender && m.recipient == parent.sender && m.text == text
      && m.routing.payloadHash.text == text && m.routing.idempotencyKey == ids.idempotency
      && m.threadId == (if parent.threadId != "" then parent.threadId else ids.thread)
      && m.correlationId == (if parent.correlationId != "" then parent.correlationId else ids.correlation)
      && m.parentId == Some(parent.id) && m.kind == "reply" && m.routeIntent == "reply"
      && m.authority == TargetAuthority(ParentDerived, parent.authority.lockId, Some(parent.id))
      && m.marker == "EML_REPLY_" + ids.message + "_" + ids.marker
      && m.projection == HerdrPrompt && m.strictTurn && !m.requireAck
      && m.routing.hopCount == parent.routing.hopCount + 1 && m.routing.maxHops == parent.routing.maxHops
      && m.routing.autoReplyDepth == parent.routing.autoReplyDepth + 1
      && m.routing.maxAutoReplyDepth == parent.routing.maxAutoReplyDepth
      && m.routing.routeTrace == parent.routing.routeTrace + [sender]
  {
  }

  datatype Reply = Reply(ids: Ids, sender: string, text: string)

  /** The last message of a chain of replies to `root`. */
  function Chain(root: Message, replies: seq<Reply>): Message {
    if replies == [] then root
    else
      var last := replies[|replies| - 1];
      ReplyMessage(last.ids, Chain(root, replies[..|replies| - 1]), last.sender, last.text)
  }

  function Min(a: int, b: int): int { if a < b then a else b }

  /** The number of replies the root's budgets leave room for. */
  function Budget(r: Routing): int { Min(r.maxHops - r.hopCount, r.maxAutoReplyDepth - r.autoReplyDepth) }

  /** What a new message says: to whom and from whom, under which ids, with the hash of its own text, nothing travelled
    yet, a lock exactly if one was given, and room for as many replies as the lesser of both budgets allows. */
  lemma RequestIs(ids: Ids, sender: string, recipient: string, text: string, thread: Option<string>,
                  correlation: Option<string>, projection: Projection, requireAck: bool, maxHops: int, depth: int,
                  maxDepth: int, lock: Option<TargetLock>)
    ensures var m := NewMessage(ids, sender, recipient, text, thread, correlation, projection, requireAck, maxHops,
                                depth, maxDepth, lock);
      && m.id == ids.message && m.sender == sender && m.recipient == recipient && m.text == text
      && m.routing.payloadHash.text == text && m.routing.idempotencyKey == ids.idempotency
      && (thread in {None, Some("")} || m.threadId == thread.value)
      && (correlation in {None, Some("")} || m.correlationId == correlation.value)
      && (thread in {None, Some("")} ==> m.threadId == ids.thread)
      && (correlation in {None, Some("")} ==> m.correlationId == ids.correlation)
      && m.parentId == None && m.kind == "request" && m.routeIntent == "direct"
      && m.projection == projection && m.requireAck == requireAck && m.strictTurn
      && (m.authority.mode == Locked <==> lock.Some?) && (m.authority.mode == Unlocked <==> lock.None?)
      && m.authority.derivedFrom == None && (lock.Some? ==> m.authority.lockId == Some(lock.value.id))
      && m.routing.hopCount == 0 && m.routing.routeTrace == [sender]
      && Budget(m.routing) == (if maxHops < maxDepth - depth then maxHops else maxDepth - depth)
      && m.routing.autoReplyDepth == depth && m.routing.maxHops == maxHops
  {
  }

  lemma {:induction false} ChainRouting(root: Message, replies: seq<Reply>)
    ensures var r := Chain(root, replies).routing;
      && r.hopCount == root.routing.hopCount + |replies| && r.maxHops == root.routing.maxHops
      && r.autoReplyDepth == root.routing.autoReplyDepth + |replies|
         && r.maxAutoReplyDepth == root.routing.maxAutoReplyDepth
      && |r.routeTrace| == |root.routing.routeTrace| + |replies|
    ensures root.threadId != "" ==> Chain(root, replies).threadId == root.threadId
  {
    if replies != [] { ChainRouting(root, replies[..|replies| - 1]); }
  }

  /** The k-th reply has spent its budget exactly when k has reached the smaller of the remaining hop
    and auto-reply budgets; from then on no reply is ever prompted, whatever journal and runtime. */
  lemma RepliesRunOut(config: EngineConfig, locks: map<string, TargetLock>, agents: map<string, Binding>,
                      routes: set<Route>, root: Message, replies: seq<Reply>, a: Answers)
    ensures BudgetSpent(Chain(root, replies).routing) <==> |replies| >= Budget(root.routing)
    ensures |replies| >= Budget(root.routing) ==>
      !Prompts(Fresh(config, locks, agents, routes, Chain(root, replies), a))
  {
    ChainRouting(root, replies);
    PromptsIff(config, locks, agents, routes, Chain(root, replies), a);
  }

  /** Down any chain the trace is the root's followed by the senders of the replies, in order. */
  lemma {:induction false} TraceGrowsByHop(root: Message, replies: seq<Reply>)
    ensures Chain(root, replies).routing.routeTrace ==
            root.routing.routeTrace + seq(|replies|, k requires 0 <= k < |replies| => replies[k].sender)
  {
    if replies != [] { TraceGrowsByHop(root, replies[..|replies| - 1]); }
  }

  /** Down any chain from a new message, the trace holds one sender per hop and the root's, in order. */
  lemma TraceIsOnePerHop(ids: Ids, sender: string, recipient: string, text: string, thread: Option<string>,
                         correlation: Option<string>, projection: Projection, requireAck: bool, maxHops: int,
                         depth: int, maxDepth: int, lock: Option<TargetLock>, replies: seq<Reply>)
    ensures var root := NewMessage(ids, sender, recipient, text, thread, correlation, projection, requireAck, maxHops,
                                   depth, maxDepth, lock);
      var m := Chain(root, replies);
      && |m.routing.routeTrace| == m.routing.hopCount + 1 == |replies| + 1
      && m.routing.routeTrace[0] == sender && m.routing.routeTrace[|replies|] == m.sender
      && forall k | 0 <= k < |replies| :: m.routing.routeTrace[k + 1] == replies[k].sender
  {
    var root := NewMessage(ids, sender, recipient, text, thread, correlation, projection, requireAck, maxHops, depth,
                           maxDepth, lock);
    TraceGrowsByHop(root, replies);
    ChainRouting(root, replies);
  }

  /** A reply goes back to whoever its parent came from, needs no lock of its own, and is not
    expected to be acknowledged in turn. */
  lemma RepliesGoBack(config: EngineConfig, locks: map<string, TargetLock>, agents: map<string, Binding>, root: Message,
                      replies: seq<Reply>, next: Reply)
    ensures var parent := Chain(root, replies);
      var reply := Chain(root, replies + [next]);
      && reply.recipient == parent.sender && reply.parentId == Some(parent.id) && !reply.requireAck
      && Preflight(config, locks, agents, reply) == Pass
  {
    assert (replies + [next])[..|replies|] == replies;
  }

  /** What the bridge asks for comes back: with a marker made by `new_message`, any non-blank reply
    without the close tag is read back from the terminal exactly, stripped. */
  lemma AnswerComesBack(before: string, ids: Ids, sender: string, recipient: string, text: string,
                        thread: Option<string>, correlation: Option<string>, requireAck: bool,
                        lock: Option<TargetLock>, journalDb: string, reply: string)
    requires ids.marker != "" && ids.marker[|ids.marker| - 1] != '\n' && '[' !in ids.message && '[' !in ids.marker
    ensures var m := NewMessage(ids, sender, recipient, text, thread, correlation, HerdrPrompt, requireAck, 8, 0, 6,
                                lock);
      var after := before + PromptFrame(m, recipient, journalDb) + reply + "\n" + m.marker + "\n";
      CaptureReply(before, after, m.marker, None) == CaptureResult(Some(Strip(reply)), TurnFenced)
      <==> Strip(reply) != "" && !Contains(reply, CLOSE_TAG)
  {
    hide PromptFrame, CaptureReply, Strip, Contains;
    BridgeMarkersFit(ids.message, ids.marker);
    var m := NewMessage(ids, sender, recipient, text, thread, correlation, HerdrPrompt, requireAck, 8, 0, 6, lock);
    ReplyComesBackIff(before, m, recipient, journalDb, reply);
  }

  /** It comes back through a narrow pane as well: what the pane shows of a reply is read back, stripped, if and only
    if the reply is not blank and the screen shows no tag and, where the pane wraps markers, no whole marker in it. */
  lemma AnswerComesBackThroughPane(p: Pane, before: string, ids: Ids, sender: string, recipient: string, text: string,
                                   thread: Option<string>, correlation: Option<string>, requireAck: bool,
                                   lock: Option<TargetLock>, journalDb: string, reply: string)
    requires PaneFits(p) && Even(p, CLOSE_TAG)
    requires ids.marker != "" && forall c | c in ids.message + ids.marker :: c != 'E' && c != '[' && !IsSpace(c)
    ensures
      var m := NewMessage(ids, sender, recipient, text, thread, correlation, HerdrPrompt, requireAck, 8, 0, 6, lock);
      var after := before + Screen(p, PromptFrame(m, recipient, journalDb) + reply + "\n" + m.marker + "\n");
      var shown := Screen(p, reply + "\n");
      CaptureReply(before, after, m.marker, None) == CaptureResult(Some(Strip(shown)), TurnFenced)
      <==> Strip(reply) != "" && TagFree(p, shown, HasRoom(p, CLOSE_TAG)) && MarkerFree(p, shown, m.marker)
  {
    hide PromptFrame, CaptureReply, Strip, TagFree, Screen, BridgeMarker, IsSpace;
    BridgeMarkersArePlain(ids.message, ids.marker);
    var m := NewMessage(ids, sender, recipient, text, thread, correlation, HerdrPrompt, requireAck, 8, 0, 6, lock);
    PaneReplyComesBackIff(p, before, m, recipient, journalDb, reply);
  }
}
