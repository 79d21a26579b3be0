/** Values of the bridge: messages, agents, locks, and the delivery states with their allowed transitions. */
module BridgeModels {
  import opened Prelude

  datatype State =
    | Journaled
    | ResolvingTarget
    | Ready
    | PromptSubmitted
    | ActivityObserved
    | RuntimeSettled
    | ReplyCaptured
    | Acknowledged
    | TargetUnavailable
    | BlockedState
    | Suppressed
    | Uncertain
    | CaptureFailed
    | FailedState
    | TargetAuthorityMismatch
    | ExactNativeTargetNotBound

  /** `ALLOWED_TRANSITIONS` */
  function Allowed(from: State): set<State> {
    match from
    case Journaled => {ResolvingTarget, TargetAuthorityMismatch, ExactNativeTargetNotBound, FailedState}
    case ResolvingTarget => {Ready, TargetUnavailable, FailedState}
    case Ready => {PromptSubmitted, BlockedState, Uncertain, Suppressed, FailedState}
    case PromptSubmitted => {ActivityObserved, BlockedState, Uncertain, FailedState}
    case ActivityObserved => {RuntimeSettled, ReplyCaptured, BlockedState, Uncertain, FailedState}
    case RuntimeSettled => {ReplyCaptured, BlockedState, CaptureFailed, Uncertain, FailedState}
    case ReplyCaptured => {Acknowledged, FailedState}
    case Uncertain => {ReplyCaptured, FailedState, Uncertain}
    case _ => {}
  }

  /** `transition_delivery` also lets a delivery stay where it is. */
  predicate CanMove(from: State, to: State) { to == from || to in Allowed(from) }

  datatype Confidence = Structured | TurnFenced | Heuristic | NoConfidence

  datatype CaptureResult = CaptureResult(text: Option<string>, confidence: Confidence)

  /** SHA-256 of a text, taken as injective. */
  datatype PayloadHash = Sha256(text: string)

  datatype AuthorityMode = ParentDerived | Unlocked | Locked

  datatype TargetAuthority = TargetAuthority(mode: AuthorityMode, lockId: Option<string>, derivedFrom: Option<string>)

  datatype Projection = HerdrPrompt | BoardOnly | BoardAndPrompt

  datatype Routing = Routing(
    hopCount: int, maxHops: int, autoReplyDepth: int, maxAutoReplyDepth: int,
    routeTrace: seq<string>, idempotencyKey: string, payloadHash: PayloadHash)

  datatype Message = Message(
    id: string,
    threadId: string,
    correlationId: string,
    parentId: Option<string>,
    kind: string,
    routeIntent: string,
    sender: string,
    recipient: string,
    authority: TargetAuthority,
    text: string,
    marker: string,
    projection: Projection,
    strictTurn: bool,
    requireAck: bool,
    routing: Routing)

  datatype TargetLock = TargetLock(id: string, recipient: string, nativeThread: Option<string>, allowProxy: bool,
                                   revoked: bool)

  datatype AgentStatus = Idle | Done | Blocked | Working | Unknown | OtherStatus(text: string)

  datatype NativeSession = NativeSession(agent: string, kind: string, value: Option<string>)

  datatype AgentInfo = AgentInfo(terminalId: string, status: AgentStatus, changeSeq: int, native: Option<NativeSession>)

  /** The part of a runtime binding that delivery reads. */
  datatype Binding = Binding(target: string, terminalId: string, native: Option<NativeSession>)
}
