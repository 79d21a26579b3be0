/** The wake store's write-once files, the provider, and the atomic steps of submitters and watchdogs. */
module WakeProtocol {
  import opened Prelude

  /** SHA-256 taken as an injective function of the bytes hashed. */
  datatype Digest = Sha256(bytes: seq<bv8>)

  datatype RequestCore = RequestCore(
    wakeId: string,
    targetKind: string,
    spawnAllowed: bool,
    model: string,
    tools: seq<string>,
    permissionMode: string,
    budgetMicrousd: int,
    timeoutMs: int,
    payloadSha: Digest,
    claims: string)  // the remaining fields, which nothing branches on

  /** Everything but the delivery id is core. */
  datatype Request = Request(delivery: string, core: RequestCore)

  datatype Config = Config(
    targetKinds: set<string>,
    models: set<string>,
    toolPolicies: set<seq<string>>,
    permissionModes: set<string>,
    maxBudgetMicrousd: int,
    maxTimeoutMs: int)

  datatype Code =
    | ExactInstanceSpawnRefused
    | TargetKindNotAllowed
    | SpawnAuthorityMissing
    | ModelNotAllowed
    | ToolsPolicyNotAllowed
    | PermissionModeNotAllowed
    | BudgetExceedsPolicy
    | TimeoutExceedsPolicy
    | RequestExpired
    | PayloadIntegrityFailed
    | PayloadInvalidUtf8
    | ProviderBusy
    | ProviderFailed
    | WakeContentCollision
    | DuplicateContentCollision
    | WakeNotFound
    | WakeNotClaimed
    | ImmutableFileExists
    | Reported(code: string)  // whatever the payload reader or the provider adapter reports

  datatype ProviderResult = ProviderResult(text: string, sessionId: string, claims: string)

  /** What the provider adapter does when it is invoked. */
  datatype ProviderAnswer =
    | Replied(result: ProviderResult)
    | ErrorResult(overloaded: bool)
    | RaisedReported(code: string)
    | RaisedOther

  datatype Invocation = Invocation(config: Config, request: Request, prompt: seq<bv8>, answer: ProviderAnswer)

  datatype ClaimRecord = ClaimRecord(wakeId: string, watchdog: string, request: RequestCore)

  datatype AckRecord = AckRecord(wakeId: string, request: Request, payloadSha: Digest, result: ProviderResult)

  datatype FailureRecord = FailureRecord(wakeId: string, code: Code)

  /** The shared files, and what the provider was asked so far for each wake. */
  datatype Shared = Shared(
    requests: map<string, Request>,
    claims: map<string, ClaimRecord>,
    acks: map<string, AckRecord>,
    failures: map<string, FailureRecord>,
    duplicates: map<(string, string), RequestCore>,
    notifications: set<(string, string)>,
    invocations: map<string, seq<Invocation>>)

  const NOTHING := Shared(map[], map[], map[], map[], map[], {}, map[])

  function Invoked(s: Shared, id: string): seq<Invocation> {
    if id in s.invocations then s.invocations[id] else []
  }

  /** What the surroundings would answer a step: clock, payload file, provider, notifier. */
  datatype Answer = Answer(
    expired: bool,
    payload: Result<seq<bv8>, string>,
    utf8: bool,
    provider: ProviderAnswer,
    notification: Option<string>)

  datatype Call =
    | Submit(request: Request)
    | Process(id: string, watchdog: string, config: Config)

  datatype Outcome =
    | Created
    | Duplicate
    | AlreadyAcknowledged
    | AlreadyFailed(code: Code)
    | ClaimedIncomplete
    | Refused(code: Code)
    | Acknowledged
    | Raised(code: Code)

  datatype Pc =
    | CheckRequest
    | PublishRequest
    | CompareRequest
    | CheckDuplicate
    | PublishDuplicate
    | FindRequest
    | CheckAck
    | CheckFailure
    | CheckClaim
    | Assess
    | PublishFailure(code: Code)
    | PublishClaim(request: Request, prompt: seq<bv8>)
    | Invoke(request: Request, prompt: seq<bv8>)
    | CheckOwnClaim(ack: AckRecord)
    | PublishAck(ack: AckRecord)
    | Notify
    | Done(outcome: Outcome)

  predicate Suits(call: Call, pc: Pc) {
    match call
    case Submit(_) =>
      pc.CheckRequest? || pc.PublishRequest? || pc.CompareRequest? || pc.CheckDuplicate? || pc.PublishDuplicate?
        || pc.Done?
    case Process(_, _, _) =>
      pc.FindRequest? || pc.CheckAck? || pc.CheckFailure? || pc.CheckClaim? || pc.Assess? || pc.PublishFailure? ||
      pc.PublishClaim? || pc.Invoke? || pc.CheckOwnClaim? || pc.PublishAck? || pc.Notify? || pc.Done?
  }

  function Entry(call: Call): (pc: Pc)
    ensures Suits(call, pc)
  {
    if call.Submit? then CheckRequest else FindRequest
  }

  function Remaining(pc: Pc): nat {
    match pc
    case CheckRequest => 5
    case PublishRequest => 4
    case CompareRequest => 3
    case CheckDuplicate => 2
    case PublishDuplicate => 1
    case FindRequest => 11
    case CheckAck => 10
    case CheckFailure => 9
    case CheckClaim => 8
    case Assess => 7
    case PublishClaim(_, _) => 6
    case Invoke(_, _) => 5
    case CheckOwnClaim(_) => 4
    case PublishAck(_) => 3
    case PublishFailure(_) => 2
    case Notify => 1
    case Done(_) => 0
  }

  /** `_policy_refusal` */
  function PolicyRefusal(config: Config, r: RequestCore): (refusal: Option<Code>)
    ensures refusal == None <==>
      && r.targetKind in config.targetKinds - {"exact_instance"} && r.spawnAllowed && r.model in config.models
      && r.tools in config.toolPolicies && r.permissionMode in config.permissionModes
      && r.budgetMicrousd <= config.maxBudgetMicrousd && r.timeoutMs <= config.maxTimeoutMs
  {
    if r.targetKind == "exact_instance" then Some(ExactInstanceSpawnRefused)
    else if r.targetKind !in config.targetKinds then Some(TargetKindNotAllowed)
    else if !r.spawnAllowed then Some(SpawnAuthorityMissing)
    else if r.model !in config.models then Some(ModelNotAllowed)
    else if r.tools !in config.toolPolicies then Some(ToolsPolicyNotAllowed)
    else if r.permissionMode !in config.permissionModes then Some(PermissionModeNotAllowed)
    else if r.budgetMicrousd > config.maxBudgetMicrousd then Some(BudgetExceedsPolicy)
    else if r.timeoutMs > config.maxTimeoutMs then Some(TimeoutExceedsPolicy)
    else None
  }

  /** Everything that can refuse a wake before it is claimed. */
  function Assessment(config: Config, r: Request, answer: Answer): Result<seq<bv8>, Code> {
    match PolicyRefusal(config, r.core)
    case Some(code) => Err(code)
    case None =>
      if answer.expired then Err(RequestExpired)
      else match answer.payload
        case Err(code) => Err(Reported(code))
        case Ok(data) =>
          if Sha256(data) != r.core.payloadSha then Err(PayloadIntegrityFailed)
          else if !answer.utf8 then Err(PayloadInvalidUtf8)
          else Ok(data)
  }

  /** Where a watchdog goes once the provider has answered. */
  function AfterInvocation(id: string, r: Request, prompt: seq<bv8>, answer: ProviderAnswer): Pc {
    match answer
    case Replied(result) => CheckOwnClaim(AckRecord(id, r, Sha256(prompt), result))
    case ErrorResult(overloaded) => PublishFailure(if overloaded then ProviderBusy else ProviderFailed)
    case RaisedReported(code) => PublishFailure(Reported(code))
    case RaisedOther => PublishFailure(ProviderFailed)
  }

  function SubmitStep(s: Shared, call: Call, pc: Pc): (next: (Shared, Pc))
    requires call.Submit? && Suits(call, pc) && !pc.Done?
    ensures Suits(call, next.1) && Remaining(next.1) < Remaining(pc)
  {
    var id := call.request.core.wakeId;
    var key := (id, call.request.delivery);
    match pc
    case CheckRequest => (s, if id in s.requests then CompareRequest else PublishRequest)
    case PublishRequest =>
      if id in s.requests then (s, Done(Raised(ImmutableFileExists)))
      else (s.(requests := s.requests[id := call.request]), Done(Created))
    case CompareRequest =>
      (s, if id !in s.requests then Done(Raised(WakeNotFound))
          else if s.requests[id].core != call.request.core then Done(Raised(WakeContentCollision))
          else CheckDuplicate)
    case CheckDuplicate =>
      (s, if key !in s.duplicates then PublishDuplicate
          else if s.duplicates[key] != call.request.core then Done(Raised(DuplicateContentCollision))
          else Done(Duplicate))
    case PublishDuplicate =>
      if key in s.duplicates then (s, Done(Raised(ImmutableFileExists)))
      else (s.(duplicates := s.duplicates[key := call.request.core]), Done(Duplicate))
  }

  /** A step of `process` up to the claim. */
  function AssessStep(s: Shared, call: Call, pc: Pc, answer: Answer): (next: Pc)
    requires call.Process?
    requires pc.FindRequest? || pc.CheckAck? || pc.CheckFailure? || pc.CheckClaim? || pc.Assess?
    ensures Suits(call, next) && Remaining(next) < Remaining(pc)
  {
    var id := call.id;
    match pc
    case FindRequest => if id in s.requests then CheckAck else Done(Raised(WakeNotFound))
    case CheckAck => if id in s.acks then Done(AlreadyAcknowledged) else CheckFailure
    case CheckFailure => if id in s.failures then Done(AlreadyFailed(s.failures[id].code)) else CheckClaim
    case CheckClaim => if id in s.claims then Done(ClaimedIncomplete) else Assess
    case Assess =>
      if id !in s.requests then Done(Raised(WakeNotFound))
      else match Assessment(call.config, s.requests[id], answer)
        case Err(code) => PublishFailure(code)
        case Ok(prompt) => PublishClaim(s.requests[id], prompt)
  }

  /** A step of `process` from the claim on, and every record of a failure. */
  function ActStep(s: Shared, call: Call, pc: Pc, answer: Answer): (next: (Shared, Pc))
    requires call.Process?
    requires pc.PublishClaim? || pc.Invoke? || pc.CheckOwnClaim? || pc.PublishAck? || pc.PublishFailure? || pc.Notify?
    ensures Suits(call, next.1) && Remaining(next.1) < Remaining(pc)
  {
    var id := call.id;
    match pc
    case PublishClaim(request, prompt) =>
      if id !in s.requests then (s, Done(Raised(WakeNotFound)))
      else if id in s.claims then (s, Done(ClaimedIncomplete))
      else (s.(claims := s.claims[id := ClaimRecord(id, call.watchdog, s.requests[id].core)]), Invoke(request, prompt))
    case Invoke(request, prompt) =>
      (s.(invocations :=
            s.invocations[id := Invoked(s, id) + [Invocation(call.config, request, prompt, answer.provider)]]),
       AfterInvocation(id, request, prompt, answer.provider))
    case CheckOwnClaim(ack) => (s, if id in s.claims then PublishAck(ack) else Done(Raised(WakeNotClaimed)))
    case PublishAck(ack) =>
      if id in s.acks then (s, Done(Raised(ImmutableFileExists)))
      else (s.(acks := s.acks[id := ack]), Notify)
    case PublishFailure(code) =>
      if id !in s.requests then (s, Done(Raised(WakeNotFound)))
      else if id in s.failures then (s, Done(Raised(ImmutableFileExists)))
      else (s.(failures := s.failures[id := FailureRecord(id, code)]), Done(Refused(code)))
    case Notify =>
      // whatever the notifier or its record raises is swallowed
      (match answer.notification
       case None => s
       case Some(n) => s.(notifications := s.notifications + {(id, n)}),
       Done(Acknowledged))
  }

  predicate Assessing(pc: Pc) {
    pc.FindRequest? || pc.CheckAck? || pc.CheckFailure? || pc.CheckClaim? || pc.Assess?
  }

  function Step(s: Shared, call: Call, pc: Pc, answer: Answer): (next: (Shared, Pc))
    requires Suits(call, pc) && !pc.Done?
    ensures Suits(call, next.1) && Remaining(next.1) < Remaining(pc)
  {
    if call.Submit? then SubmitStep(s, call, pc)
    else if Assessing(pc) then (s, AssessStep(s, call, pc, answer))
    else ActStep(s, call, pc, answer)
  }

  /** A call left to itself until it returns. */
  function Finish(s: Shared, call: Call, pc: Pc, answer: Answer): (Shared, Outcome)
    requires Suits(call, pc)
    decreases Remaining(pc)
  {
    match pc
    case Done(outcome) => (s, outcome)
    case _ => var next := Step(s, call, pc, answer); Finish(next.0, call, next.1, answer)
  }

  lemma Unfold(s: Shared, call: Call, pc: Pc, answer: Answer)
    requires Suits(call, pc) && !pc.Done?
    ensures var next := Step(s, call, pc, answer);
      Finish(s, call, pc, answer) == if next.1.Done? then (next.0, next.1.outcome)
        else Finish(next.0, call, next.1, answer)
  {
  }

  // What the files always say

  /** The invocation was allowed, and its prompt is the payload the request announced. */
  ghost predicate Licensed(i: Invocation) {
    PolicyRefusal(i.config, i.request.core).None? && Sha256(i.prompt) == i.request.core.payloadSha
  }

  /** The acknowledgement carries the result of the one invocation made for its wake. */
  ghost predicate AckFits(s: Shared, id: string, ack: AckRecord) {
    && ack.wakeId == id && id in s.claims && id in s.requests && ack.request == s.requests[id]
    && |Invoked(s, id)| == 1 && Invoked(s, id)[0].answer == Replied(ack.result)
    && ack.payloadSha == Sha256(Invoked(s, id)[0].prompt) == ack.request.core.payloadSha
  }

  ghost predicate WakeOk(s: Shared, id: string) {
    && (id in s.requests ==> s.requests[id].core.wakeId == id)
    && (id in s.claims ==>
          id in s.requests && s.claims[id].wakeId == id && s.claims[id].request == s.requests[id].core)
    && |Invoked(s, id)| <= 1
    && (Invoked(s, id) != [] ==>
        id in s.claims && Invoked(s, id)[0].request == s.requests[id] && Licensed(Invoked(s, id)[0]))
    && (id in s.acks ==> AckFits(s, id, s.acks[id]))
    && (id in s.failures ==> id in s.requests && s.failures[id].wakeId == id)
  }

  ghost predicate SharedInv(s: Shared) {
    forall id {:trigger WakeOk(s, id)} :: WakeOk(s, id)
  }

  /** Nothing published in `s` is missing or different in `t`. */
  ghost predicate Extends(s: Shared, t: Shared) {
    && Kept(s.requests, t.requests) && Kept(s.claims, t.claims) && Kept(s.acks, t.acks) && Kept(s.failures, t.failures)
    && Kept(s.duplicates, t.duplicates) && s.notifications <= t.notifications
  }

  lemma ExtendsTransitive(s: Shared, t: Shared, u: Shared)
    requires Extends(s, t) && Extends(t, u)
    ensures Extends(s, u)
  {
  }

  lemma NothingLost(s: Shared)
    ensures Extends(s, s)
  {
  }

  function IdOf(call: Call): string {
    if call.Submit? then call.request.core.wakeId else call.id
  }

  /** What a call at `pc` has secured. */
  ghost predicate PcInv(s: Shared, call: Call, pc: Pc) {
    var id := IdOf(call);
    Suits(call, pc) &&
    match pc
    case CompareRequest => id in s.requests
    case CheckAck => id in s.requests
    case CheckFailure => id in s.requests
    case CheckClaim => id in s.requests
    case Assess => id in s.requests
    case PublishFailure(_) => id in s.requests
    case PublishClaim(request, prompt) =>
      id in s.requests && request == s.requests[id] && Licensed(Invocation(call.config, request, prompt, RaisedOther))
    case Invoke(request, prompt) =>
      && id in s.requests && request == s.requests[id]
         && Licensed(Invocation(call.config, request, prompt, RaisedOther))
      && id in s.claims && Invoked(s, id) == []
    case CheckOwnClaim(ack) => AckFits(s, id, ack)
    case PublishAck(ack) => AckFits(s, id, ack)
    case Notify => id in s.acks
    case Done(Acknowledged) => id in s.acks
    case Done(AlreadyAcknowledged) => id in s.acks
    case Done(Created) => call.Submit? ==> id in s.requests && s.requests[id] == call.request
    case _ => true
  }

  /** Only an invocation for its own wake can unsettle what another call has secured. */
  lemma PcInvStable(s: Shared, t: Shared, call: Call, pc: Pc)
    requires Extends(s, t) && PcInv(s, call, pc) && WakeOk(t, IdOf(call))
    requires Invoked(s, IdOf(call)) <= Invoked(t, IdOf(call))
    requires pc.Invoke? ==> Invoked(t, IdOf(call)) == Invoked(s, IdOf(call))
    ensures PcInv(t, call, pc)
  {
    hide Licensed;
  }

  lemma SubmitStepExtends(s: Shared, call: Call, pc: Pc)
    requires call.Submit? && Suits(call, pc) && !pc.Done?
    ensures Extends(s, SubmitStep(s, call, pc).0) && SubmitStep(s, call, pc).0.invocations == s.invocations
  {
    NothingLost(s);
    hide Kept;
    var id, key := call.request.core.wakeId, (call.request.core.wakeId, call.request.delivery);
    if pc.PublishRequest? && id !in s.requests { KeptPut(s.requests, id, call.request); }
    if pc.PublishDuplicate? && key !in s.duplicates { KeptPut(s.duplicates, key, call.request.core); }
  }

  lemma ActStepExtends(s: Shared, call: Call, pc: Pc, answer: Answer)
    requires call.Process? && Suits(call, pc) && !pc.Done? && !Assessing(pc)
    ensures Extends(s, ActStep(s, call, pc, answer).0)
    ensures !pc.Invoke? ==> ActStep(s, call, pc, answer).0.invocations == s.invocations
  {
    NothingLost(s);
    hide Kept;
    var id := call.id;
    match pc
    case PublishClaim(_, _) =>
      if id in s.requests && id !in s.claims {
        KeptPut(s.claims, id, ClaimRecord(id, call.watchdog, s.requests[id].core));
      }
    case PublishAck(ack) => if id !in s.acks { KeptPut(s.acks, id, ack); }
    case PublishFailure(code) => if id !in s.failures { KeptPut(s.failures, id, FailureRecord(id, code)); }
    case _ =>
  }

  lemma SubmitStepKeepsWake(s: Shared, call: Call, pc: Pc, id: string)
    requires call.Submit? && Suits(call, pc) && !pc.Done? && WakeOk(s, id)
    ensures WakeOk(SubmitStep(s, call, pc).0, id)
  {
    hide Licensed;
  }

  lemma ActStepKeepsWake(s: Shared, call: Call, pc: Pc, answer: Answer, id: string)
    requires call.Process? && Suits(call, pc) && !pc.Done? && !Assessing(pc)
    requires PcInv(s, call, pc) && WakeOk(s, id)
    ensures WakeOk(ActStep(s, call, pc, answer).0, id)
  {
    hide PolicyRefusal;
  }

  lemma SubmitStepSecures(s: Shared, call: Call, pc: Pc)
    requires call.Submit? && !pc.Done? && PcInv(s, call, pc)
    ensures PcInv(SubmitStep(s, call, pc).0, call, SubmitStep(s, call, pc).1)
  {
  }

  lemma AssessStepSecures(s: Shared, call: Call, pc: Pc, answer: Answer)
    requires call.Process? && Assessing(pc) && PcInv(s, call, pc)
    ensures PcInv(s, call, AssessStep(s, call, pc, answer))
  {
    hide PolicyRefusal;
  }

  lemma ActStepSecures(s: Shared, call: Call, pc: Pc, answer: Answer)
    requires call.Process? && !pc.Done? && !Assessing(pc) && PcInv(s, call, pc) && WakeOk(s, call.id)
    ensures PcInv(ActStep(s, call, pc, answer).0, call, ActStep(s, call, pc, answer).1)
  {
    hide PolicyRefusal;
  }

  lemma StepKeepsInv(s: Shared, call: Call, pc: Pc, answer: Answer)
    requires SharedInv(s) && PcInv(s, call, pc) && !pc.Done?
    ensures var next := Step(s, call, pc, answer);
      && Extends(s, next.0) && SharedInv(next.0) && PcInv(next.0, call, next.1)
      && (!pc.Invoke? ==> next.0.invocations == s.invocations)
      && forall id | id != IdOf(call) :: Invoked(next.0, id) == Invoked(s, id)
  {
    assert Suits(call, pc);
    NothingLost(s);
    hide Suits, PcInv, WakeOk, Extends;
    var t := Step(s, call, pc, answer).0;
    if call.Submit? {
      SubmitStepExtends(s, call, pc);
      SubmitStepSecures(s, call, pc);
      forall id ensures WakeOk(t, id) { assert WakeOk(s, id); SubmitStepKeepsWake(s, call, pc, id); }
    } else if Assessing(pc) {
      AssessStepSecures(s, call, pc, answer);
    } else {
      assert WakeOk(s, call.id);
      ActStepExtends(s, call, pc, answer);
      ActStepSecures(s, call, pc, answer);
      forall id ensures WakeOk(t, id) { assert WakeOk(s, id); ActStepKeepsWake(s, call, pc, answer, id); }
    }
  }

  // Where a wake stands

  datatype Status = Pending | ClaimedOnly | FailedStatus | AcknowledgedStatus

  function StatusOf(s: Shared, id: string): Option<Status> {
    if id !in s.requests then None
    else if id in s.acks then Some(AcknowledgedStatus)
    else if id in s.failures then Some(FailedStatus)
    else if id in s.claims then Some(ClaimedOnly)
    else Some(Pending)
  }
}
