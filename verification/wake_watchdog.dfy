/** One watchdog working through a wake store on its own. */
module WakeWatchdogs {
  import opened Prelude
  import opened WakeProtocol
  import opened WakeRuns
  import opened WakeResults

  // What one undisturbed pass over a wake comes to

  lemma {:induction false} FinishKeepsInv(s: Shared, call: Call, pc: Pc, answer: Answer)
    requires SharedInv(s) && PcInv(s, call, pc)
    ensures var end := Finish(s, call, pc, answer).0; SharedInv(end) && Extends(s, end)
    decreases Remaining(pc)
  {
    hide SharedInv, Extends;
    NothingLost(s);
    if !pc.Done? {
      StepKeepsInv(s, call, pc, answer);
      var next := Step(s, call, pc, answer);
      FinishKeepsInv(next.0, call, next.1, answer);
      ExtendsTransitive(s, next.0, Finish(s, call, pc, answer).0);
    }
  }

  predicate Settled(s: Shared, id: string) {
    StatusOf(s, id) == Some(AcknowledgedStatus) || StatusOf(s, id) == Some(FailedStatus)
  }

  ghost predicate SameElsewhere(s: Shared, t: Shared, id: string) {
    t.requests == s.requests && forall other | other != id :: StatusOf(t, other) == StatusOf(s, other)
  }

  /** No acknowledgement or failure of this wake was added or changed. */
  predicate SameRecords(s: Shared, t: Shared, id: string) {
    && (id in t.acks <==> id in s.acks) && (id in s.acks ==> t.acks[id] == s.acks[id])
    && (id in t.failures <==> id in s.failures) && (id in s.failures ==> t.failures[id] == s.failures[id])
  }

  lemma RefusalSettles(s: Shared, call: Call, code: Code, answer: Answer)
    requires call.Process? && call.id in s.requests && call.id !in s.failures
    ensures var end := Finish(s, call, PublishFailure(code), answer);
      Settled(end.0, call.id) && SameElsewhere(s, end.0, call.id) && end.1 == Refused(code)
  {
    hide Finish;
    Unfold(s, call, PublishFailure(code), answer);
  }

  lemma AckSettles(s: Shared, call: Call, ack: AckRecord, answer: Answer)
    requires call.Process? && call.id in s.requests && call.id in s.claims && call.id !in s.acks
    ensures var end := Finish(s, call, CheckOwnClaim(ack), answer);
      Settled(end.0, call.id) && SameElsewhere(s, end.0, call.id) && end.1 == Acknowledged
  {
    hide Finish;
    Unfold(s, call, CheckOwnClaim(ack), answer);
    Unfold(s, call, PublishAck(ack), answer);
    Unfold(s.(acks := s.acks[call.id := ack]), call, Notify, answer);
  }

  lemma InvocationSettles(s: Shared, call: Call, request: Request, prompt: seq<bv8>, answer: Answer)
    requires call.Process? && call.id in s.requests && call.id in s.claims && call.id !in s.acks
      && call.id !in s.failures
    ensures var end := Finish(s, call, Invoke(request, prompt), answer);
      Settled(end.0, call.id) && SameElsewhere(s, end.0, call.id)
  {
    hide Finish;
    Unfold(s, call, Invoke(request, prompt), answer);
    var next := Step(s, call, Invoke(request, prompt), answer);
    if next.1.CheckOwnClaim? {
      AckSettles(next.0, call, next.1.ack, answer);
    } else {
      RefusalSettles(next.0, call, next.1.code, answer);
    }
  }

  lemma AssessmentSettles(s: Shared, call: Call, answer: Answer)
    requires call.Process? && StatusOf(s, call.id) == Some(Pending)
    ensures var end := Finish(s, call, Assess, answer); Settled(end.0, call.id) && SameElsewhere(s, end.0, call.id)
  {
    hide Finish, Assessment;
    var id := call.id;
    Unfold(s, call, Assess, answer);
    match Assessment(call.config, s.requests[id], answer) {
      case Err(code) => RefusalSettles(s, call, code, answer);
      case Ok(prompt) =>
        Unfold(s, call, PublishClaim(s.requests[id], prompt), answer);
        var claimed := s.(claims := s.claims[id := ClaimRecord(id, call.watchdog, s.requests[id].core)]);
        InvocationSettles(claimed, call, s.requests[id], prompt, answer);
    }
  }

  /** Processed without interruption, a pending wake ends acknowledged or failed; any other wake,
    and every wake already begun, keeps its status. */
  lemma ProcessSettles(s: Shared, call: Call, answer: Answer)
    requires call.Process?
    ensures var end := Finish(s, call, FindRequest, answer).0;
      && SameElsewhere(s, end, call.id)
      && (if StatusOf(s, call.id) == Some(Pending) then Settled(end, call.id) else end == s)
  {
    hide Finish, Settled;
    Unfold(s, call, FindRequest, answer);
    Unfold(s, call, CheckAck, answer);
    Unfold(s, call, CheckFailure, answer);
    Unfold(s, call, CheckClaim, answer);
    if StatusOf(s, call.id) == Some(Pending) { AssessmentSettles(s, call, answer); }
  }

  class WakeStore {
    var requests: map<string, Request>
    var claims: map<string, ClaimRecord>
    var acks: map<string, AckRecord>
    var failures: map<string, FailureRecord>
    var duplicates: map<(string, string), RequestCore>
    var notifications: set<(string, string)>
    var invocations: map<string, seq<Invocation>>

    constructor ()
      ensures State() == NOTHING && Valid()
    {
      requests, claims, acks, failures := map[], map[], map[], map[];
      duplicates, notifications, invocations := map[], {}, map[];
    }

    function State(): Shared
      reads this
    {
      Shared(requests, claims, acks, failures, duplicates, notifications, invocations)
    }

    ghost predicate Valid()
      reads this
    {
      SharedInv(State())
    }

    /** `submit` */
    method SubmitRequest(request: Request, ghost answer: Answer) returns (outcome: Outcome)
      modifies this`requests, this`duplicates
      ensures (State(), outcome) == Finish(old(State()), Submit(request), CheckRequest, answer)
    {
      hide Finish;
      ghost var call := Submit(request);
      var id, key := request.core.wakeId, (request.core.wakeId, request.delivery);
      Unfold(State(), call, CheckRequest, answer);
      if id !in requests {
        Unfold(State(), call, PublishRequest, answer);
        requests := requests[id := request];
        return Created;
      }
      Unfold(State(), call, CompareRequest, answer);
      if requests[id].core != request.core { return Raised(WakeContentCollision); }
      Unfold(State(), call, CheckDuplicate, answer);
      if key in duplicates {
        return if duplicates[key] != request.core then Raised(DuplicateContentCollision) else Duplicate;
      }
      Unfold(State(), call, PublishDuplicate, answer);
      duplicates := duplicates[key := request.core];
      return Duplicate;
    }

    /** `pending_wake_ids`: `listed` is the order the request directory is enumerated in. */
    method PendingWakeIds(listed: seq<string>) returns (pending: seq<string>)
      requires Valid() && forall id :: id in listed <==> id in requests
      ensures pending == PendingAmong(State(), listed, |listed|)
      ensures forall id :: id in pending <==> StatusOf(State(), id) == Some(Pending)
    {
      pending := [];
      for n := 0 to |listed|
        invariant pending == PendingAmong(State(), listed, n)
      {
        var id := requests[listed[n]].core.wakeId;
        assert WakeOk(State(), listed[n]);
        if id !in claims && id !in failures { pending := pending + [id]; }
      }
      forall id ensures id in pending <==> StatusOf(State(), id) == Some(Pending) {
        PendingAmongIs(State(), listed, |listed|, id);
      }
    }
  }

  /** Those of the first `n` listed wakes that are pending, in listing order. */
  function PendingAmong(s: Shared, listed: seq<string>, n: nat): seq<string>
    requires n <= |listed|
  {
    if n == 0 then []
    else PendingAmong(s, listed, n - 1) + (if StatusOf(s, listed[n - 1]) == Some(Pending) then [listed[n - 1]] else [])
  }

  lemma {:induction false} PendingAmongIs(s: Shared, listed: seq<string>, n: nat, id: string)
    requires n <= |listed|
    ensures id in PendingAmong(s, listed, n) <==>
      StatusOf(s, id) == Some(Pending) && exists i | 0 <= i < n :: listed[i] == id
  {
    if n > 0 { PendingAmongIs(s, listed, n - 1, id); }
  }

  class WakeWatchdog {
    const store: WakeStore
    const config: Config
    const id: string

    constructor (store: WakeStore, config: Config, id: string)
      ensures this.store == store && this.config == config && this.id == id
    {
      this.store, this.config, this.id := store, config, id;
    }

    /** `_failure` */
    method Fail(wakeId: string, code: Code, ghost answer: Answer) returns (outcome: Outcome)
      modifies store`failures
      ensures (store.State(), outcome) ==
        Finish(old(store.State()), Process(wakeId, id, config), PublishFailure(code), answer)
    {
      hide Finish;
      Unfold(store.State(), Process(wakeId, id, config), PublishFailure(code), answer);
      if wakeId !in store.requests { return Raised(WakeNotFound); }
      if wakeId in store.failures { return Raised(ImmutableFileExists); }
      store.failures := store.failures[wakeId := FailureRecord(wakeId, code)];
      return Refused(code);
    }

    /** The provider has replied: commit the acknowledgement, then notify. */
    method Acknowledge(wakeId: string, ack: AckRecord, answer: Answer) returns (outcome: Outcome)
      modifies store`acks, store`notifications
      ensures (store.State(), outcome) ==
        Finish(old(store.State()), Process(wakeId, id, config), CheckOwnClaim(ack), answer)
    {
      hide Finish;
      ghost var call := Process(wakeId, id, config);
      Unfold(store.State(), call, CheckOwnClaim(ack), answer);
      if wakeId !in store.claims { return Raised(WakeNotClaimed); }
      Unfold(store.State(), call, PublishAck(ack), answer);
      if wakeId in store.acks { return Raised(ImmutableFileExists); }
      store.acks := store.acks[wakeId := ack];
      Unfold(store.State(), call, Notify, answer);
      if answer.notification.Some? {
        store.notifications := store.notifications + {(wakeId, answer.notification.value)};
      }
      return Acknowledged;
    }

    /** Claim, invoke, and record what came of it. */
    method ClaimAndInvoke(request: Request, prompt: seq<bv8>, wakeId: string, answer: Answer) returns (outcome: Outcome)
      modifies store`claims, store`invocations, store`acks, store`failures, store`notifications
      ensures (store.State(), outcome)
              == Finish(old(store.State()), Process(wakeId, id, config), PublishClaim(request, prompt), answer)
    {
      hide Finish;
      ghost var call := Process(wakeId, id, config);
      Unfold(store.State(), call, PublishClaim(request, prompt), answer);
      if wakeId !in store.requests { return Raised(WakeNotFound); }
      if wakeId in store.claims { return ClaimedIncomplete; }
      store.claims := store.claims[wakeId := ClaimRecord(wakeId, id, store.requests[wakeId].core)];
      Unfold(store.State(), call, Invoke(request, prompt), answer);
      store.invocations := store.invocations[wakeId :=
        Invoked(store.State(), wakeId) + [Invocation(config, request, prompt, answer.provider)]];
      match answer.provider {
        case Replied(result) =>
          outcome := Acknowledge(wakeId, AckRecord(wakeId, request, Sha256(prompt), result), answer);
        case ErrorResult(overloaded) =>
          outcome := Fail(wakeId, if overloaded then ProviderBusy else ProviderFailed, answer);
        case RaisedReported(code) => outcome := Fail(wakeId, Reported(code), answer);
        case RaisedOther => outcome := Fail(wakeId, ProviderFailed, answer);
      }
    }

    /** `process` */
    method ProcessWake(wakeId: string, answer: Answer) returns (outcome: Outcome)
      modifies store`claims, store`invocations, store`acks, store`failures, store`notifications
      ensures (store.State(), outcome) == Finish(old(store.State()), Process(wakeId, id, config), FindRequest, answer)
      ensures old(StatusOf(store.State(), wakeId)) == Some(Pending) ==> Settled(store.State(), wakeId)
      ensures old(StatusOf(store.State(), wakeId)) != Some(Pending) ==> store.State() == old(store.State())
      ensures SameElsewhere(old(store.State()), store.State(), wakeId)
      ensures old(StatusOf(store.State(), wakeId)) == Some(Pending) ==>
        && outcome == OutcomeOf(config, old(store.State()).requests[wakeId], answer)
        && EndsAs(store.State(), wakeId, config, old(store.State()).requests[wakeId], answer)
      ensures forall other | other != wakeId :: SameRecords(old(store.State()), store.State(), other)
      ensures old(store.Valid()) ==> store.Valid() && Extends(old(store.State()), store.State())
    {
      ghost var call := Process(wakeId, id, config);
      ProcessSettles(store.State(), call, answer);
      if StatusOf(store.State(), wakeId) == Some(Pending) { PassReports(store.State(), call, answer); }
      forall other | other != wakeId
        ensures SameRecords(store.State(), Finish(store.State(), call, FindRequest, answer).0, other)
      {
        OthersUntouched(store.State(), call, answer, other);
      }
      if SharedInv(store.State()) { FinishKeepsInv(store.State(), call, FindRequest, answer); }
      outcome := ProcessSteps(wakeId, answer);
    }

    method ProcessSteps(wakeId: string, answer: Answer) returns (outcome: Outcome)
      modifies store`claims, store`invocations, store`acks, store`failures, store`notifications
      ensures (store.State(), outcome) == Finish(old(store.State()), Process(wakeId, id, config), FindRequest, answer)
    {
      hide Finish, Assessment;
      ghost var call := Process(wakeId, id, config);
      Unfold(store.State(), call, FindRequest, answer);
      if wakeId !in store.requests { return Raised(WakeNotFound); }
      Unfold(store.State(), call, CheckAck, answer);
      if wakeId in store.acks { return AlreadyAcknowledged; }
      Unfold(store.State(), call, CheckFailure, answer);
      if wakeId in store.failures { return AlreadyFailed(store.failures[wakeId].code); }
      Unfold(store.State(), call, CheckClaim, answer);
      if wakeId in store.claims { return ClaimedIncomplete; }
      Unfold(store.State(), call, Assess, answer);
      var request := store.requests[wakeId];
      var assessment := Assessment(config, request, answer);
      if assessment.Err? {
        outcome := Fail(wakeId, assessment.error, answer);
        return;
      }
      outcome := ClaimAndInvoke(request, assessment.value, wakeId, answer);
    }

    /** `run_once`: whatever the surroundings answer, nothing is left pending, and every wake that
      was pending is now acknowledged or failed. */
    method RunOnce(listed: seq<string>, answers: string -> Answer) returns (outcomes: seq<Outcome>)
      requires store.Valid() && forall id :: id in listed <==> id in store.requests
      modifies store`claims, store`invocations, store`acks, store`failures, store`notifications
      ensures store.Valid() && Extends(old(store.State()), store.State()) && store.requests == old(store.requests)
      ensures |outcomes| == |PendingAmong(old(store.State()), listed, |listed|)|
      ensures forall id :: StatusOf(store.State(), id) != Some(Pending)
      ensures forall id :: StandsAfterPass(old(store.State()), store.State(), id)
      ensures Distinct(listed) ==>
        var before := old(store.State());
        var pending := PendingAmong(before, listed, |listed|);
        |outcomes| == |pending| && EachReported(before, store.State(), config, pending, answers, outcomes)
    {
      hide SharedInv, Settled, SameElsewhere, Finish, Extends, StatusOf, StandsAfterPass, Progress, OutcomeOf, EndsAs,
        SameRecords, EachReported;
      var pending := store.PendingWakeIds(listed);
      outcomes := [];
      ghost var before := store.State();
      NothingLost(before);
      NoProgressYet(before, pending);
      PendingIsDistinct(before, listed, |listed|);
      NothingReported(before, config, pending, answers);
      for n := 0 to |pending|
        invariant store.Valid() && Extends(before, store.State()) && store.requests == before.requests
        invariant |outcomes| == n
        invariant Progress(before, store.State(), pending, n)
        invariant Distinct(listed) ==> EachReported(before, store.State(), config, pending[..n], answers, outcomes)
      {
        ghost var now := store.State();
        if Distinct(listed) { StillPending(before, now, pending, n); }
        var outcome := ProcessWake(pending[n], answers(pending[n]));
        if Distinct(listed) {
          OneMoreReported(before, now, store.State(), config, pending, answers, outcomes, outcome);
        }
        outcomes := outcomes + [outcome];
        ExtendsTransitive(before, now, store.State());
        ProgressMade(before, now, store.State(), pending, n);
      }
      AllProgressed(before, store.State(), pending);
      assert pending[..|pending|] == pending;
    }
  }

  predicate Distinct(listed: seq<string>) {
    forall i, j | 0 <= i < j < |listed| :: listed[i] != listed[j]
  }

  /** For each of these wakes the pass reports what came of it, and that is on record. */
  ghost predicate EachReported(before: Shared, now: Shared, config: Config, pending: seq<string>,
                               answers: string -> Answer,
                           outcomes: seq<Outcome>)
  {
    |outcomes| == |pending|
    && forall n | 0 <= n < |pending| ::
         && pending[n] in before.requests
         && outcomes[n] == OutcomeOf(config, before.requests[pending[n]], answers(pending[n]))
         && EndsAs(now, pending[n], config, before.requests[pending[n]], answers(pending[n]))
  }

  lemma {:induction false} PendingIsDistinct(s: Shared, listed: seq<string>, n: nat)
    requires n <= |listed|
    ensures Distinct(listed) ==> Distinct(PendingAmong(s, listed, n))
  {
    if n > 0 {
      PendingIsDistinct(s, listed, n - 1);
      if Distinct(listed) { NotYetAmong(s, listed, n - 1); }
    }
  }

  lemma NotYetAmong(s: Shared, listed: seq<string>, n: nat)
    requires Distinct(listed) && n < |listed|
    ensures listed[n] !in PendingAmong(s, listed, n)
  {
    PendingAmongIs(s, listed, n, listed[n]);
  }

  lemma NothingReported(s: Shared, config: Config, pending: seq<string>, answers: string -> Answer)
    ensures EachReported(s, s, config, pending[..0], answers, [])
  {
  }

  lemma StillPending(before: Shared, now: Shared, pending: seq<string>, n: nat)
    requires n < |pending| && Distinct(pending) && Progress(before, now, pending, n) && now.requests == before.requests
    requires StatusOf(before, pending[n]) == Some(Pending)
    ensures StatusOf(now, pending[n]) == Some(Pending) && pending[n] in before.requests
  {
    assert pending[n] !in pending[..n];
  }

  lemma OneMoreReported(before: Shared, now: Shared, next: Shared, config: Config, pending: seq<string>,
                        answers: string -> Answer, outcomes: seq<Outcome>, outcome: Outcome)
    requires |outcomes| < |pending| && Distinct(pending)
    requires EachReported(before, now, config, pending[..|outcomes|], answers, outcomes)
    requires var id := pending[|outcomes|];
      && id in before.requests && outcome == OutcomeOf(config, before.requests[id], answers(id))
      && EndsAs(next, id, config, before.requests[id], answers(id))
      && forall other | other != id :: SameRecords(now, next, other)
    ensures EachReported(before, next, config, pending[..|outcomes| + 1], answers, outcomes + [outcome])
  {
    hide OutcomeOf, FailureOf;
    var n := |outcomes|;
    forall k | 0 <= k < n
      ensures EndsAs(next, pending[k], config, before.requests[pending[k]], answers(pending[k]))
    {
      assert pending[..n][k] == pending[k] && pending[k] != pending[n];
      assert SameRecords(now, next, pending[k]);
    }
    assert pending[..n + 1] == pending[..n] + [pending[n]];
  }

  /** A wake that was pending is settled; any other stands as it did. */
  predicate StandsAfterPass(before: Shared, after: Shared, id: string) {
    if StatusOf(before, id) == Some(Pending) then Settled(after, id) else StatusOf(after, id) == StatusOf(before, id)
  }

  /** After `n` pending wakes: those are settled, every other wake stands as before. */
  ghost predicate Progress(before: Shared, now: Shared, pending: seq<string>, n: nat)
    requires n <= |pending|
  {
    forall id :: if id in pending[..n] then Settled(now, id) else StatusOf(now, id) == StatusOf(before, id)
  }

  lemma NoProgressYet(before: Shared, pending: seq<string>)
    ensures Progress(before, before, pending, 0)
  {
  }

  lemma ProgressMade(before: Shared, now: Shared, next: Shared, pending: seq<string>, n: nat)
    requires n < |pending| && Progress(before, now, pending, n)
    requires SameElsewhere(now, next, pending[n])
    requires StatusOf(now, pending[n]) == Some(Pending) ==> Settled(next, pending[n])
    requires StatusOf(now, pending[n]) != Some(Pending) ==> next == now
    requires StatusOf(before, pending[n]) == Some(Pending)
    ensures Progress(before, next, pending, n + 1)
  {
    assert pending[..n + 1] == pending[..n] + [pending[n]];
  }

  lemma AllProgressed(before: Shared, now: Shared, pending: seq<string>)
    requires Progress(before, now, pending, |pending|)
    requires forall id :: id in pending <==> StatusOf(before, id) == Some(Pending)
    ensures forall id :: StatusOf(now, id) != Some(Pending)
    ensures forall id :: StandsAfterPass(before, now, id)
  {
    assert pending[..|pending|] == pending;
  }
}
