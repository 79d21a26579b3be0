/** What each handoff call does when it runs alone, from whatever files earlier calls left. */
module HandoffResults {
  import opened Prelude
  import opened HandoffProtocol
  import opened HandoffRuns

  /** A call run alone to its end. */
  function Alone(config: Config, f: Files, r: Request): (Files, Outcome) { Finish(config, f, r, Entry(config, r)) }

  predicate Says(o: Option<string>) { o.Some? && o.value != "" }

  // Claiming

  /** Why a claim of this envelope is refused, in the order it is asked; none if it is authorized. */
  function ClaimObstacle(config: Config, e: Core, r: Request): Option<Code>
    requires r.Claim?
  {
    if r.authority !in config.authorities then Some(ClaimAuthorityNotAllowed)
    else if r.binding !in {CodexThread, SessionUuid, ProviderSession, Unresolved} then Some(BindingKindUnsupported)
    else if r.binding == Unresolved && r.receiver.Some? then Some(UnresolvedBindingHasInstance)
    else if r.binding != Unresolved && !Says(r.receiver) then Some(ReceiverInstanceMissing)
    else if e.targetKind == ExactInstance && r.verifier.None? then Some(HostVerifierUnavailable)
    else if e.targetKind == ExactInstance && !(Says(r.receiver) && Says(r.evidence)) then Some(HostEvidenceMissing)
    else if e.targetKind == ExactInstance && !r.verifier.value.exactInstance then Some(ExactInstanceMismatch)
    else if e.targetKind == ArcpEntity && r.verifier.None? then Some(EntityVerifierUnavailable)
    else if e.targetKind == ArcpEntity && !(Says(r.entity) && Says(r.evidence)) then Some(EntityEvidenceMissing)
    else if e.targetKind == ArcpEntity && !r.verifier.value.entity then Some(EntityMismatch)
    else if r.entity == Some("") || r.evidence == Some("") then Some(FieldTypeInvalid)
    else None
  }

  /** A claim succeeds exactly if the envelope is there, no claim is, and it is authorized; its record then names the
    envelope's digest and whatever the call said of the receiver.  Otherwise nothing is written. */
  lemma ClaimIs(config: Config, f: Files, r: Request)
    requires r.Claim?
    ensures var end := Alone(config, f, r);
      if r.id in f.envelopes && r.id !in f.claims && ClaimObstacle(config, f.envelopes[r.id].core, r).None? then
        var record := ClaimRecord(r.id, CoreDigest(f.envelopes[r.id].core), r.receiver, r.binding, r.entity, r.evidence,
                                  r.authority);
        end == (f.(claims := f.claims[r.id := record]), Claimed(record))
      else
        end == (f, Failed(if r.id !in f.envelopes then HandoffNotFound
                          else if r.id in f.claims then HandoffAlreadyClaimed
                          else ClaimObstacle(config, f.envelopes[r.id].core, r).value))
  {
    hide Finish, ClaimObjection, ClaimObstacle;
    Unfold(config, f, r, FindEnvelope);
    if r.id in f.envelopes {
      var core := f.envelopes[r.id].core;
      ObstacleIs(config, core, r);
      Unfold(config, f, r, CheckClaim(core));
      Unfold(config, f, r, PublishClaim(ClaimRecordOf(core, r)));
    }
  }

  lemma ObstacleIs(config: Config, e: Core, r: Request)
    requires r.Claim?
    ensures ClaimObstacle(config, e, r) ==
      match ClaimObjection(config, e, r)
      case Some(code) => Some(code)
      case None => if r.entity == Some("") || r.evidence == Some("") then Some(FieldTypeInvalid) else None
  {
  }

  // Materializing

  /** A materialization succeeds exactly if the envelope is there, the claim is there with this receiver, and none is
    there yet: the payload behind an envelope is always intact.  Its record names the envelope's digest and hash. */
  lemma MaterializeIs(config: Config, f: Files, r: Request)
    requires r.Materialize? && FilesInv(f)
    ensures var end := Alone(config, f, r);
      if r.id in f.envelopes && r.id in f.claims && f.claims[r.id].receiver == r.receiver && r.id !in f.materializations
      then
        var e := f.envelopes[r.id].core;
        var record := MaterializationRecord(r.id, CoreDigest(e), e.payloadSha, r.receiver);
        end == (f.(materializations := f.materializations[r.id := record]), Materialized(record))
      else
        end == (f, Failed(if r.id !in f.envelopes then HandoffNotFound
                          else if r.id !in f.claims then HandoffNotClaimed
                          else if f.claims[r.id].receiver != r.receiver then ReceiverInstanceMismatch
                          else ImmutableFileExists))
  {
    hide Finish;
    assert FileOk(f, r.id);
    Unfold(config, f, r, FindEnvelope);
    if r.id in f.envelopes {
      var core := f.envelopes[r.id].core;
      Unfold(config, f, r, ReadClaim(core));
      Unfold(config, f, r, ReadPayload(core));
      var record := MaterializationRecord(r.id, CoreDigest(core), core.payloadSha, r.receiver);
      Unfold(config, f, r, PublishMaterialization(record));
    }
  }

  // Acknowledging

  /** The response, if one is named, exists and answers this handoff. */
  function ResponseObstacle(f: Files, r: Request): Option<Code>
    requires r.Acknowledge?
  {
    match r.response
    case None => None
    case Some(id) =>
      if id !in f.envelopes then Some(ResponseNotFound)
      else if f.envelopes[id].core.replyTo != Some(r.id) then Some(ResponseLinkMismatch)
      else if id == "" then Some(FieldTypeInvalid)
      else None
  }

  /** There is evidence, none of it blank and none cited twice. */
  predicate EvidenceFits(citations: seq<string>) {
    |citations| > 0 && (forall i | 0 <= i < |citations| :: citations[i] != "")
    && forall i, j | 0 <= i < |citations| && 0 <= j < |citations| && citations[i] == citations[j] :: i == j
  }

  /** Why a receipt is refused, in the order it is asked; none if it is due. */
  function ReceiptObstacle(f: Files, r: Request): Option<Code>
    requires r.Acknowledge?
  {
    if r.id !in f.envelopes then Some(HandoffNotFound)
    else if r.id in f.receipts then Some(HandoffAlreadyAcknowledged)
    else if r.id !in f.materializations then Some(PayloadNotMaterialized)
    else if f.materializations[r.id].receiver != r.receiver then Some(ReceiverInstanceMismatch)
    else if ResponseObstacle(f, r).Some? then ResponseObstacle(f, r)
    else if EvidenceFits(r.citations) then None
    else Some(if "" in r.citations then FieldTypeInvalid else if r.citations == [] then FieldEmpty
              else DuplicateListItem)
  }

  /** A receipt is committed exactly if the handoff was materialized by this receiver and not acknowledged yet, a named
    response answers it, and there is proper evidence; it then holds the decision, the response and the evidence. */
  lemma AcknowledgeIs(config: Config, f: Files, r: Request)
    requires r.Acknowledge?
    ensures var end, obstacle := Alone(config, f, r), ReceiptObstacle(f, r);
      if obstacle.None? then
        var e := f.envelopes[r.id].core;
        var record := ReceiptRecord(r.id, CoreDigest(e), e.payloadSha, r.receiver, r.decision, r.response, r.citations);
        end == (f.(receipts := f.receipts[r.id := record]), Acknowledged(record))
      else end == (f, Failed(obstacle.value))
  {
    hide Finish, EvidenceObjection, EvidenceFits, ResponseObstacle;
    Unfold(config, f, r, FindEnvelope);
    if r.id in f.envelopes {
      var core := f.envelopes[r.id].core;
      Unfold(config, f, r, CheckReceipt(core));
      Unfold(config, f, r, ReadMaterialization(core));
      if r.id !in f.receipts && r.id in f.materializations && f.materializations[r.id].receiver == r.receiver {
        ResponseRead(config, f, r, core);
      }
    }
  }

  /** From the response on. */
  lemma ResponseRead(config: Config, f: Files, r: Request, core: Core)
    requires r.Acknowledge? && r.id !in f.receipts
    ensures var end := Finish(config, f, r, ReadResponse(core));
      && (ResponseObstacle(f, r).Some? ==> end == (f, Failed(ResponseObstacle(f, r).value)))
      && (ResponseObstacle(f, r).None? && !EvidenceFits(r.citations) ==>
            end == (f, Failed(if "" in r.citations then FieldTypeInvalid else if r.citations == [] then FieldEmpty
                              else DuplicateListItem)))
      && (ResponseObstacle(f, r).None? && EvidenceFits(r.citations) ==>
            var record := ReceiptRecord(r.id, CoreDigest(core), core.payloadSha, r.receiver, r.decision, r.response,
                                        r.citations);
            end == (f.(receipts := f.receipts[r.id := record]), Acknowledged(record)))
    ensures r.response.None? ==>
      var next := BeforeReceipt(core, r);
      Finish(config, f, r, ReadResponse(core)) ==
        if next.Done? then (f, next.outcome) else Finish(config, f, r, next)
  {
    hide Finish, EvidenceObjection, EvidenceFits;
    EvidenceIs(r.citations);
    Unfold(config, f, r, ReadResponse(core));
    Unfold(config, f, r, PublishReceipt(ReceiptOf(core, r)));
  }

  lemma EvidenceIs(citations: seq<string>)
    ensures EvidenceObjection(citations).None? <==> EvidenceFits(citations)
    ensures var objection := EvidenceObjection(citations);
      objection.Some? ==>
        objection.value == (if "" in citations then FieldTypeInvalid else if citations == [] then FieldEmpty
                            else DuplicateListItem)
  {
  }

  // Submitting

  /** Why a receiver's configuration refuses a submission, in the order it is asked. */
  function SubmissionObstacle(config: Config, e: Core, s: Snapshot): Option<Code> {
    if e.targetKind !in config.targetKinds then Some(TargetKindNotAllowed)
    else if e.authority !in config.authorities then Some(AuthorityNotAllowed)
    else if e.payloadRef != KeyedRef(e.handoffId, s.extension) then Some(PayloadRefMismatch)
    else if e.payloadSha.bytes != s.data then Some(PayloadIntegrityFailed)
    else if e.payloadBytes != |s.data| then Some(PayloadSizeMismatch)
    else if e.mediaType != s.mediaType then Some(PayloadMediaMismatch)
    else None
  }

  /** A submission that is not refused creates the envelope, behind its payload, where there was none and nothing else
    sits at the payload's path; where the same core is there it records a duplicate; another core is quarantined as a
    collision. */
  lemma SubmitIs(config: Config, f: Files, r: Request)
    requires r.Submit? && FilesInv(f)
    ensures var e, data := r.envelope.core, r.snapshot.data;
      var end, obstacle := Alone(config, f, r), SubmissionObstacle(config, e, r.snapshot);
      if obstacle.Some? then end == (f, Failed(obstacle.value))
      else if e.handoffId !in f.envelopes then
        if e.payloadRef in f.payloads && f.payloads[e.payloadRef] != data
          then end == (f, Failed(PayloadIntegrityFailed))
        else
          end == (f.(payloads := f.payloads[e.payloadRef := data], envelopes := f.envelopes[e.handoffId := r.envelope]),
                  Created)
      else if f.envelopes[e.handoffId].core == e then
        var key := DuplicateKey(e.handoffId, r.envelope.delivery);
        end == (if key in f.duplicates then f else f.(duplicates := f.duplicates[key := CoreDigest(e)]), Duplicate)
      else
        var key := (e.handoffId, r.envelope.delivery, CoreDigest(e));
        var record := QuarantineRecord(e.handoffId, r.envelope.delivery, CoreDigest(f.envelopes[e.handoffId].core),
                                       CoreDigest(e));
        end == (if key in f.quarantine then f else f.(quarantine := f.quarantine[key := record]),
                Failed(HandoffContentCollision))
  {
    hide Finish, CheckSubmission, PublishSubmission;
    ObjectionIs(config, r.envelope.core, r.snapshot);
    if Objection(config, r.envelope.core, r.snapshot).Some? {
      RefusedAtOnce(config, f, r, Objection(config, r.envelope.core, r.snapshot).value);
    } else {
      if r.envelope.core.handoffId in f.envelopes { ExistingIs(config, f, r); } else { NewIs(config, f, r); }
    }
  }

  lemma RefusedAtOnce(config: Config, f: Files, r: Request, code: Code)
    requires r.Submit?
    ensures Finish(config, f, r, Done(Failed(code))) == (f, Failed(code))
  {
  }

  lemma ObjectionIs(config: Config, e: Core, s: Snapshot)
    ensures Objection(config, e, s) == SubmissionObstacle(config, e, s)
  {
  }

  lemma NewIs(config: Config, f: Files, r: Request)
    requires r.Submit? && r.envelope.core.handoffId !in f.envelopes
    ensures var e, data := r.envelope.core, r.snapshot.data;
      Finish(config, f, r, CheckEnvelope) ==
        if e.payloadRef in f.payloads && f.payloads[e.payloadRef] != data then (f, Failed(PayloadIntegrityFailed))
        else (f.(payloads := f.payloads[e.payloadRef := data], envelopes := f.envelopes[e.handoffId := r.envelope]),
              Created)
  {
    hide Finish;
    var e := r.envelope.core;
    Unfold(config, f, r, CheckEnvelope);
    Unfold(config, f, r, CheckPayload);
    Unfold(config, f, r, CompareOrphan);
    Unfold(config, f, r, PublishPayload);
    var g := f.(payloads := f.payloads[e.payloadRef := r.snapshot.data]);
    Unfold(config, g, r, PublishEnvelope);
    Unfold(config, f, r, PublishEnvelope);
    assert e.payloadRef in f.payloads && f.payloads[e.payloadRef] == r.snapshot.data ==> g == f;
  }

  lemma ExistingIs(config: Config, f: Files, r: Request)
    requires r.Submit? && FilesInv(f) && r.envelope.core.handoffId in f.envelopes
    requires r.envelope.core.payloadSha == Sha256(r.snapshot.data)
    ensures var e := r.envelope.core;
      Finish(config, f, r, CheckEnvelope) ==
        if f.envelopes[e.handoffId].core == e then
          var key := DuplicateKey(e.handoffId, r.envelope.delivery);
          (if key in f.duplicates then f else f.(duplicates := f.duplicates[key := CoreDigest(e)]), Duplicate)
        else
          var key := (e.handoffId, r.envelope.delivery, CoreDigest(e));
          var record := QuarantineRecord(e.handoffId, r.envelope.delivery, CoreDigest(f.envelopes[e.handoffId].core),
                                         CoreDigest(e));
          (if key in f.quarantine then f else f.(quarantine := f.quarantine[key := record]),
           Failed(HandoffContentCollision))
  {
    hide Finish;
    var e := r.envelope.core;
    assert FileOk(f, e.handoffId);
    Unfold(config, f, r, CheckEnvelope);
    Unfold(config, f, r, ReadExisting);
    Unfold(config, f, r, ComparePayload);
    Unfold(config, f, r, CheckDuplicate);
    Unfold(config, f, r, PublishDuplicate);
    var collision := CollisionCheck(r, f.envelopes[e.handoffId].core);
    Unfold(config, f, r, collision);
    Unfold(config, f, r, PublishQuarantine(collision.record));
  }

  // From submission to receipt

  // Losing a race

  /** What the call was about to write is there by now. */
  predicate Preceded(f: Files, r: Request, pc: Pc)
    requires Suits(r, pc)
  {
    match pc
    case PublishClaim(_) => r.id in f.claims
    case PublishMaterialization(_) => r.id in f.materializations
    case PublishReceipt(_) => r.id in f.receipts
    case PublishQuarantine(record) => (record.handoffId, record.delivery, record.submitted) in f.quarantine
    case _ => false
  }

  /** A receiver's call that was about to publish when a rival did fails and leaves the rival's record; so does one
    about to quarantine.  A submission finds the rival's payload or envelope and goes on from there. */
  lemma LostRaceIs(config: Config, f: Files, r: Request, pc: Pc)
    requires Suits(r, pc)
    ensures Preceded(f, r, pc) ==> Finish(config, f, r, pc) == (f, Failed(ImmutableFileExists))
    ensures FilesInv(f) && pc.PublishEnvelope? && r.envelope.core.handoffId in f.envelopes ==>
              Objection(config, r.envelope.core, r.snapshot).Some? || Finish(config, f, r, pc) == Alone(config, f, r)
    ensures pc.PublishPayload? && r.envelope.core.payloadRef in f.payloads ==>
              f.payloads[r.envelope.core.payloadRef] == r.snapshot.data
              || Finish(config, f, r, pc) == (f, Failed(PayloadIntegrityFailed))
  {
    hide Finish;
    if !pc.Done? { Unfold(config, f, r, pc); }
    if pc.PublishPayload? { Unfold(config, f, r, CompareRival); }
    if pc.PublishEnvelope? {
      Unfold(config, f, r, CheckEnvelope);
    }
  }

  /** What `status` answers: how far along the chain of records the handoff is. */
  lemma StatusIs(f: Files, id: string)
    requires FilesInv(f)
    ensures var status := StatusOf(f, id);
      && (status == Err(HandoffNotFound) <==> id !in f.envelopes)
      && (status == Ok(Status.Pending) <==> id in f.envelopes && id !in f.claims && id !in f.failures)
      && (status == Ok(FailedStatus) <==> id in f.envelopes && id !in f.claims && id in f.failures)
      && (status == Ok(ClaimedIncomplete) <==> id in f.claims && id !in f.materializations)
      && (status == Ok(MaterializedStatus) <==> id in f.materializations && id !in f.receipts)
      && (status == Ok(AcknowledgedStatus) <==> id in f.receipts)
  {
    hide ReceiverFits, PayloadKept;
    assert FileOk(f, id);
  }

  /** Nothing but refusals stands in the way: submitted to where its id and payload path are free, claimed with
    authority, materialized and acknowledged by the same receiver with evidence, a handoff goes all the way, and its
    receipt carries the decision. */
  lemma HandoffGoesThrough(config: Config, f: Files, submit: Request, claim: Request, materialize: Request,
                           acknowledge: Request)
    requires FilesInv(f) && submit.Submit? && claim.Claim? && materialize.Materialize? && acknowledge.Acknowledge?
    requires var id := submit.envelope.core.handoffId; claim.id == materialize.id == acknowledge.id == id
    requires claim.receiver == materialize.receiver == acknowledge.receiver
    requires var e := submit.envelope.core; e.handoffId !in f.envelopes && e.payloadRef !in f.payloads
    requires SubmissionObstacle(config, submit.envelope.core, submit.snapshot).None?
    requires ClaimObstacle(config, submit.envelope.core, claim).None?
    requires acknowledge.response.None? && EvidenceFits(acknowledge.citations)
    ensures var submitted := Alone(config, f, submit);
      var claimed := Alone(config, submitted.0, claim);
      var materialized := Alone(config, claimed.0, materialize);
      var acknowledged := Alone(config, materialized.0, acknowledge);
      && submitted.1 == Created && claimed.1.Claimed? && materialized.1.Materialized? && acknowledged.1.Acknowledged?
      && acknowledged.1.receipt.decision == acknowledge.decision
      && acknowledged.1.receipt.digest == CoreDigest(submit.envelope.core)
      && StatusOf(acknowledged.0, acknowledge.id) == Ok(AcknowledgedStatus)
  {
    hide FilesInv, Alone, SubmissionObstacle, ClaimObstacle, EvidenceFits;
    NothingAtId(f, claim.id);
    SubmitIs(config, f, submit);
    var submitted := Alone(config, f, submit);
    ClaimIs(config, submitted.0, claim);
    StaysFine(config, f, submit);
    var claimed := Alone(config, submitted.0, claim);
    StaysFine(config, submitted.0, claim);
    MaterializeIs(config, claimed.0, materialize);
    AcknowledgeIs(config, Alone(config, claimed.0, materialize).0, acknowledge);
  }

  lemma NothingAtId(f: Files, id: string)
    requires FilesInv(f) && id !in f.envelopes
    ensures id !in f.claims && id !in f.materializations && id !in f.receipts
  {
    hide ReceiverFits, PayloadKept;
    assert FileOk(f, id);
  }

  lemma StaysFine(config: Config, f: Files, r: Request)
    requires FilesInv(f)
    ensures FilesInv(Alone(config, f, r).0)
  {
    hide FilesInv, Finish;
    CallKeepsInv(config, f, r);
  }
}
