/** What one undisturbed pass over a wake, or one submission, comes to. */
module WakeResults {
  import opened Prelude
  import opened WakeProtocol

  /** What refuses a wake before it is claimed, in the order it is asked; none if the provider is to be invoked. */
  function Obstacle(config: Config, request: Request, answer: Answer): Option<Code> {
    var r := request.core;
    if r.targetKind == "exact_instance" then Some(ExactInstanceSpawnRefused)
    else if r.targetKind !in config.targetKinds then Some(TargetKindNotAllowed)
    else if !r.spawnAllowed then Some(SpawnAuthorityMissing)
    else if r.model !in config.models then Some(ModelNotAllowed)
    else if r.tools !in config.toolPolicies then Some(ToolsPolicyNotAllowed)
    else if r.permissionMode !in config.permissionModes then Some(PermissionModeNotAllowed)
    else if r.budgetMicrousd > config.maxBudgetMicrousd then Some(BudgetExceedsPolicy)
    else if r.timeoutMs > config.maxTimeoutMs then Some(TimeoutExceedsPolicy)
    else if answer.expired then Some(RequestExpired)
    else if answer.payload.Err? then Some(Reported(answer.payload.error))
    else if Sha256(answer.payload.value) != r.payloadSha then Some(PayloadIntegrityFailed)
    else if !answer.utf8 then Some(PayloadInvalidUtf8)
    else None
  }

  /** What a provider that did not reply is recorded as. */
  function Trouble(provider: ProviderAnswer): Option<Code> {
    if provider.Replied? then None
    else if provider == ErrorResult(true) then Some(ProviderBusy)
    else if provider.RaisedReported? then Some(Reported(provider.code))
    else Some(ProviderFailed)
  }

  /** The first thing that keeps a pending wake from being acknowledged. */
  function FailureOf(config: Config, request: Request, answer: Answer): Option<Code> {
    if Obstacle(config, request, answer).Some? then Obstacle(config, request, answer) else Trouble(answer.provider)
  }

  function Told(failures: map<string, FailureRecord>, id: string, code: Code): map<string, FailureRecord> {
    failures[id := FailureRecord(id, code)]
  }

  /** The wake claimed and its provider asked once, with the payload as the prompt. */
  function Asked(s: Shared, call: Call, answer: Answer): Shared
    requires call.Process? && call.id in s.requests && answer.payload.Ok?
  {
    var request := s.requests[call.id];
    var invocation := Invocation(call.config, request, answer.payload.value, answer.provider);
    s.(claims := s.claims[call.id := ClaimRecord(call.id, call.watchdog, request.core)],
       invocations := s.invocations[call.id := Invoked(s, call.id) + [invocation]])
  }

  function Noted(s: Shared, id: string, answer: Answer): set<(string, string)> {
    match answer.notification case None => s.notifications case Some(n) => s.notifications + {(id, n)}
  }

  /** A pass over a wake that is not pending changes nothing and says how it stands.  A pending one is acknowledged
    exactly if policy allows it, it is in time, its payload is read intact and as text, and the provider replies;
    otherwise the first of these that fails is recorded and reported.  The provider is asked exactly if nothing
    refused the wake before its claim. */
  lemma ProcessIs(s: Shared, call: Call, answer: Answer)
    requires call.Process?
    ensures var id := call.id;
      var end := Finish(s, call, FindRequest, answer);
      if id !in s.requests then end == (s, Raised(WakeNotFound))
      else if id in s.acks then end == (s, AlreadyAcknowledged)
      else if id in s.failures then end == (s, AlreadyFailed(s.failures[id].code))
      else if id in s.claims then end == (s, ClaimedIncomplete)
      else
        var request := s.requests[id];
        match Obstacle(call.config, request, answer)
        case Some(code) => end == (s.(failures := Told(s.failures, id, code)), Refused(code))
        case None =>
          var asked := Asked(s, call, answer);
          match Trouble(answer.provider)
          case Some(code) => end == (asked.(failures := Told(s.failures, id, code)), Refused(code))
          case None =>
            var ack := AckRecord(id, request, request.core.payloadSha, answer.provider.result);
            end == (asked.(acks := s.acks[id := ack], notifications := Noted(s, id, answer)), Acknowledged)
  {
    hide Finish, Assessment, Obstacle;
    Unfold(s, call, FindRequest, answer);
    Unfold(s, call, CheckAck, answer);
    Unfold(s, call, CheckFailure, answer);
    Unfold(s, call, CheckClaim, answer);
    if StatusOf(s, call.id) == Some(Pending) {
      AssessIs(s, call, answer);
      if Obstacle(call.config, s.requests[call.id], answer).None? { AnsweredIs(s, call, answer); }
    }
  }

  /** Once the provider has answered. */
  lemma AnsweredIs(s: Shared, call: Call, answer: Answer)
    requires call.Process? && StatusOf(s, call.id) == Some(Pending) && answer.payload.Ok?
    ensures var id, asked, prompt := call.id, Asked(s, call, answer), answer.payload.value;
      Finish(asked, call, AfterInvocation(id, s.requests[id], prompt, answer.provider), answer) ==
        match Trouble(answer.provider)
        case Some(code) => (asked.(failures := Told(s.failures, id, code)), Refused(code))
        case None =>
          (asked.(acks := s.acks[id := AckRecord(id, s.requests[id], Sha256(prompt), answer.provider.result)],
                  notifications := Noted(s, id, answer)), Acknowledged)
  {
    hide Finish;
    var id, asked, prompt := call.id, Asked(s, call, answer), answer.payload.value;
    match Trouble(answer.provider)
    case Some(code) => Unfold(asked, call, PublishFailure(code), answer);
    case None =>
      var ack := AckRecord(id, s.requests[id], Sha256(prompt), answer.provider.result);
      Unfold(asked, call, CheckOwnClaim(ack), answer);
      Unfold(asked, call, PublishAck(ack), answer);
      Unfold(asked.(acks := s.acks[id := ack]), call, Notify, answer);
  }

  lemma ObstacleIs(config: Config, request: Request, answer: Answer)
    ensures match Obstacle(config, request, answer)
            case Some(code) => Assessment(config, request, answer) == Err(code)
            case None =>
              answer.payload.Ok? && Assessment(config, request, answer) == Ok(answer.payload.value)
              && Sha256(answer.payload.value) == request.core.payloadSha
  {
  }

  lemma AssessIs(s: Shared, call: Call, answer: Answer)
    requires call.Process? && StatusOf(s, call.id) == Some(Pending)
    ensures var id := call.id;
      var end, request := Finish(s, call, Assess, answer), s.requests[id];
      match Obstacle(call.config, request, answer)
      case Some(code) => end == (s.(failures := Told(s.failures, id, code)), Refused(code))
      case None =>
        answer.payload.Ok? && Sha256(answer.payload.value) == request.core.payloadSha
        && end == Finish(Asked(s, call, answer), call,
                         AfterInvocation(id, request, answer.payload.value, answer.provider), answer)
  {
    hide Finish, Assessment, Obstacle;
    var request := s.requests[call.id];
    ObstacleIs(call.config, request, answer);
    Unfold(s, call, Assess, answer);
    match Obstacle(call.config, request, answer)
    case Some(code) => Unfold(s, call, PublishFailure(code), answer);
    case None =>
      var prompt := answer.payload.value;
      Unfold(s, call, PublishClaim(request, prompt), answer);
      var claimed := s.(claims := s.claims[call.id := ClaimRecord(call.id, call.watchdog, request.core)]);
      Unfold(claimed, call, Invoke(request, prompt), answer);
  }

  // What a pass reports

  /** What processing a pending wake reports. */
  function OutcomeOf(config: Config, request: Request, answer: Answer): Outcome {
    match FailureOf(config, request, answer)
    case Some(code) => Refused(code)
    case None => Acknowledged
  }

  /** What processing a pending wake leaves on record. */
  ghost predicate EndsAs(s: Shared, id: string, config: Config, request: Request, answer: Answer) {
    match FailureOf(config, request, answer)
    case Some(code) => id in s.failures && s.failures[id] == FailureRecord(id, code) && id !in s.acks
    case None =>
      id in s.acks && s.acks[id] == AckRecord(id, request, request.core.payloadSha, answer.provider.result)
      && id !in s.failures
  }

  lemma PassReports(s: Shared, call: Call, answer: Answer)
    requires call.Process? && StatusOf(s, call.id) == Some(Pending)
    ensures var end := Finish(s, call, FindRequest, answer);
      && end.1 == OutcomeOf(call.config, s.requests[call.id], answer)
      && EndsAs(end.0, call.id, call.config, s.requests[call.id], answer)
      && (call.id in end.0.claims <==> Obstacle(call.config, s.requests[call.id], answer).None?)
      && |Invoked(end.0, call.id)| == |Invoked(s, call.id)|
           + (if Obstacle(call.config, s.requests[call.id], answer).None? then 1 else 0)
  {
    hide Finish, Obstacle;
    ProcessIs(s, call, answer);
    if Obstacle(call.config, s.requests[call.id], answer).None? {
      PayloadIsRead(call.config, s.requests[call.id], answer);
    }
  }

  lemma PayloadIsRead(config: Config, request: Request, answer: Answer)
    requires Obstacle(config, request, answer).None?
    ensures answer.payload.Ok? && Sha256(answer.payload.value) == request.core.payloadSha
  {
  }

  /** A pass touches nothing of any other wake. */
  lemma OthersUntouched(s: Shared, call: Call, answer: Answer, other: string)
    requires call.Process? && other != call.id
    ensures var end := Finish(s, call, FindRequest, answer).0;
      && end.requests == s.requests && end.duplicates == s.duplicates
      && (other in end.acks <==> other in s.acks) && (other in s.acks ==> end.acks[other] == s.acks[other])
      && (other in end.failures <==> other in s.failures)
      && (other in s.failures ==> end.failures[other] == s.failures[other])
      && (other in end.claims <==> other in s.claims) && (other in s.claims ==> end.claims[other] == s.claims[other])
      && Invoked(end, other) == Invoked(s, other)
  {
    hide Finish, Obstacle, Trouble, Noted, PolicyRefusal;
    ProcessIs(s, call, answer);
    if StatusOf(s, call.id) == Some(Pending) && Obstacle(call.config, s.requests[call.id], answer).None? {
      PayloadIsRead(call.config, s.requests[call.id], answer);
    }
  }

  // Submitting, and the status

  /** A request is created where there was none; the same core again is a duplicate, recorded once per delivery; another
    core is a collision. */
  lemma SubmitIs(s: Shared, request: Request, answer: Answer)
    ensures var id, key := request.core.wakeId, (request.core.wakeId, request.delivery);
      Finish(s, Submit(request), CheckRequest, answer) ==
        if id !in s.requests then (s.(requests := s.requests[id := request]), Created)
        else if s.requests[id].core != request.core then (s, Raised(WakeContentCollision))
        else if key in s.duplicates && s.duplicates[key] != request.core then (s, Raised(DuplicateContentCollision))
        else (s.(duplicates := s.duplicates[key := request.core]), Duplicate)
  {
    hide Finish;
    var call := Submit(request);
    Unfold(s, call, CheckRequest, answer);
    Unfold(s, call, PublishRequest, answer);
    Unfold(s, call, CompareRequest, answer);
    Unfold(s, call, CheckDuplicate, answer);
    Unfold(s, call, PublishDuplicate, answer);
    var key := (request.core.wakeId, request.delivery);
    assert key in s.duplicates && s.duplicates[key] == request.core ==>
      s.duplicates[key := request.core] == s.duplicates;
  }

  /** A call that was about to publish when a rival did leaves the rival's record: a watchdog that lost its claim says
    so and does nothing more, anything else fails. */
  lemma LostRaceIs(s: Shared, call: Call, pc: Pc, answer: Answer)
    requires Suits(call, pc)
    ensures pc.PublishRequest? && call.request.core.wakeId in s.requests ==>
      Finish(s, call, pc, answer) == (s, Raised(ImmutableFileExists))
    ensures pc.PublishDuplicate? && (call.request.core.wakeId, call.request.delivery) in s.duplicates ==>
      Finish(s, call, pc, answer) == (s, Raised(ImmutableFileExists))
    ensures pc.PublishClaim? && call.id in s.requests && call.id in s.claims ==>
      Finish(s, call, pc, answer) == (s, Outcome.ClaimedIncomplete)
    ensures pc.PublishAck? && call.id in s.acks ==> Finish(s, call, pc, answer) == (s, Raised(ImmutableFileExists))
    ensures pc.PublishFailure? && call.id in s.requests && call.id in s.failures ==>
      Finish(s, call, pc, answer) == (s, Raised(ImmutableFileExists))
  {
    hide Finish;
    if !pc.Done? { Unfold(s, call, pc, answer); }
  }

  /** What `status` answers: the last record there is, an acknowledgement before all. */
  lemma StatusIs(s: Shared, id: string)
    ensures var status := StatusOf(s, id);
      && (status == None <==> id !in s.requests)
      && (status == Some(AcknowledgedStatus) <==> id in s.requests && id in s.acks)
      && (status == Some(FailedStatus) <==> id in s.requests && id in s.failures && id !in s.acks)
      && (status == Some(ClaimedOnly) <==> id in s.requests && id in s.claims && id !in s.failures && id !in s.acks)
      && (status == Some(Pending) <==> id in s.requests && id !in s.claims && id !in s.failures && id !in s.acks)
  {
  }
}
