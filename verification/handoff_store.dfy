/** One handoff store used by one caller at a time: the methods behind the interleaved steps. */
module HandoffStores {
  import opened Prelude
  import opened HandoffProtocol
  import opened HandoffRuns

  class HandoffStore {
    const config: Config
    var payloads: map<PayloadRef, seq<bv8>>
    var envelopes: map<string, Envelope>
    var claims: map<string, ClaimRecord>
    var materializations: map<string, MaterializationRecord>
    var receipts: map<string, ReceiptRecord>
    var failures: set<string>
    var duplicates: map<DuplicateKey, CoreDigest>
    var quarantine: map<(string, string, CoreDigest), QuarantineRecord>

    constructor (config: Config)
      ensures this.config == config && State() == NO_FILES && Valid()
    {
      this.config := config;
      payloads, envelopes, claims, materializations, receipts := map[], map[], map[], map[], map[];
      failures, duplicates, quarantine := {}, map[], map[];
    }

    function State(): Files
      reads this
    {
      Files(payloads, envelopes, claims, materializations, receipts, failures, duplicates, quarantine)
    }

    ghost predicate Valid()
      reads this
    {
      FilesInv(State())
    }

    /** `_quarantine_collision`, and the error that follows it. */
    method QuarantineCollision(r: Request, existing: Core) returns (outcome: Outcome)
      requires r.Submit?
      modifies this`quarantine
      ensures (State(), outcome) == Finish(config, old(State()), r, CollisionCheck(r, existing))
    {
      hide Finish;
      var record := CollisionCheck(r, existing).record;
      var key := (record.handoffId, record.delivery, record.submitted);
      Unfold(config, State(), r, CheckQuarantine(record));
      if key !in quarantine {
        Unfold(config, State(), r, PublishQuarantine(record));
        quarantine := quarantine[key := record];
      }
      return Failed(HandoffContentCollision);
    }

    /** `_classify_existing_submission` */
    method ClassifyExisting(r: Request) returns (outcome: Outcome)
      requires r.Submit?
      modifies this`duplicates, this`quarantine
      ensures (State(), outcome) == Finish(config, old(State()), r, ReadExisting)
    {
      hide Finish;
      var e := r.envelope.core;
      Unfold(config, State(), r, ReadExisting);
      if e.handoffId !in envelopes { return Failed(HandoffNotFound); }
      var existing := envelopes[e.handoffId].core;
      if existing != e {
        outcome := QuarantineCollision(r, existing);
        return;
      }
      Unfold(config, State(), r, ComparePayload);
      if e.payloadRef !in payloads || payloads[e.payloadRef] != r.snapshot.data {
        return Failed(PayloadIntegrityFailed);
      }
      Unfold(config, State(), r, CheckDuplicate);
      var key := DuplicateKey(e.handoffId, r.envelope.delivery);
      if key !in duplicates {
        Unfold(config, State(), r, PublishDuplicate);
        duplicates := duplicates[key := CoreDigest(e)];
      }
      return Duplicate;
    }

    /** The payload file: published unless the same bytes are already there. */
    method KeepPayload(r: Request) returns (kept: bool)
      requires r.Submit?
      modifies this`payloads
      ensures kept ==> Finish(config, State(), r, PublishEnvelope) == Finish(config, old(State()), r, CheckPayload)
      ensures !kept ==> (State(), Failed(PayloadIntegrityFailed)) == Finish(config, old(State()), r, CheckPayload)
    {
      hide Finish;
      var ref := r.envelope.core.payloadRef;
      Unfold(config, State(), r, CheckPayload);
      if ref in payloads {
        Unfold(config, State(), r, CompareOrphan);
        return payloads[ref] == r.snapshot.data;
      }
      Unfold(config, State(), r, PublishPayload);
      payloads := payloads[ref := r.snapshot.data];
      return true;
    }

    /** `submit` */
    method SubmitEnvelope(r: Request) returns (outcome: Outcome)
      requires r.Submit?
      modifies this`payloads, this`envelopes, this`duplicates, this`quarantine
      ensures (State(), outcome) == Finish(config, old(State()), r, Entry(config, r))
      ensures old(Valid()) ==> Valid() && Extends(old(State()), State())
    {
      hide FilesInv, Extends;
      if FilesInv(State()) { CallKeepsInv(config, State(), r); }
      var e := r.envelope.core;
      var objection := Objection(config, e, r.snapshot);
      if objection.Some? { return Failed(objection.value); }
      outcome := SubmitAdmitted(r);
    }

    method SubmitAdmitted(r: Request) returns (outcome: Outcome)
      requires r.Submit?
      modifies this`payloads, this`envelopes, this`duplicates, this`quarantine
      ensures (State(), outcome) == Finish(config, old(State()), r, CheckEnvelope)
    {
      hide Finish;
      var id := r.envelope.core.handoffId;
      Unfold(config, State(), r, CheckEnvelope);
      if id in envelopes {
        outcome := ClassifyExisting(r);
        return;
      }
      var kept := KeepPayload(r);
      if !kept { return Failed(PayloadIntegrityFailed); }
      Unfold(config, State(), r, PublishEnvelope);
      envelopes := envelopes[id := r.envelope];
      return Created;
    }

    /** `claim` */
    method ClaimHandoff(r: Request) returns (outcome: Outcome)
      requires r.Claim?
      modifies this`claims
      ensures (State(), outcome) == Finish(config, old(State()), r, Entry(config, r))
      ensures old(Valid()) ==> Valid() && Extends(old(State()), State())
    {
      hide Finish, ClaimObjection, FilesInv, Extends;
      if FilesInv(State()) { CallKeepsInv(config, State(), r); }
      Unfold(config, State(), r, FindEnvelope);
      if r.id !in envelopes { return Failed(HandoffNotFound); }
      var core := envelopes[r.id].core;
      Unfold(config, State(), r, CheckClaim(core));
      if r.id in claims { return Failed(HandoffAlreadyClaimed); }
      var objection := ClaimObjection(config, core, r);
      if objection.Some? { return Failed(objection.value); }
      if r.entity == Some("") || r.evidence == Some("") { return Failed(FieldTypeInvalid); }
      var record := ClaimRecordOf(core, r);
      Unfold(config, State(), r, PublishClaim(record));
      claims := claims[r.id := record];
      return Claimed(record);
    }

    /** `materialize` */
    method MaterializeHandoff(r: Request) returns (outcome: Outcome)
      requires r.Materialize?
      modifies this`materializations
      ensures (State(), outcome) == Finish(config, old(State()), r, Entry(config, r))
      ensures old(Valid()) ==> Valid() && Extends(old(State()), State())
    {
      hide Finish, FilesInv, Extends;
      if FilesInv(State()) { CallKeepsInv(config, State(), r); }
      Unfold(config, State(), r, FindEnvelope);
      if r.id !in envelopes { return Failed(HandoffNotFound); }
      var core := envelopes[r.id].core;
      Unfold(config, State(), r, ReadClaim(core));
      if r.id !in claims { return Failed(HandoffNotClaimed); }
      if claims[r.id].receiver != r.receiver { return Failed(ReceiverInstanceMismatch); }
      Unfold(config, State(), r, ReadPayload(core));
      if core.payloadRef !in payloads { return Failed(PayloadUnreadable); }
      var data := payloads[core.payloadRef];
      if Sha256(data) != core.payloadSha || |data| != core.payloadBytes { return Failed(PayloadIntegrityFailed); }
      var record := MaterializationRecord(r.id, CoreDigest(core), Sha256(data), r.receiver);
      Unfold(config, State(), r, PublishMaterialization(record));
      if r.id in materializations { return Failed(ImmutableFileExists); }
      materializations := materializations[r.id := record];
      return Materialized(record);
    }

    /** `preflight_receipt`, and the check of the response if one is named. */
    method Preflight(r: Request) returns (refusal: Option<Code>)
      requires r.Acknowledge?
      ensures refusal.Some? ==> Finish(config, State(), r, FindEnvelope) == (State(), Failed(refusal.value))
      ensures refusal.None? ==> r.id in envelopes
      ensures refusal.None? ==>
        var next := BeforeReceipt(envelopes[r.id].core, r);
        Finish(config, State(), r, FindEnvelope)
          == if next.Done? then (State(), next.outcome) else Finish(config, State(), r, next)
    {
      hide Finish, BeforeReceipt;
      Unfold(config, State(), r, FindEnvelope);
      if r.id !in envelopes { return Some(HandoffNotFound); }
      var core := envelopes[r.id].core;
      Unfold(config, State(), r, CheckReceipt(core));
      if r.id in receipts { return Some(HandoffAlreadyAcknowledged); }
      Unfold(config, State(), r, ReadMaterialization(core));
      if r.id !in materializations { return Some(PayloadNotMaterialized); }
      if materializations[r.id].receiver != r.receiver { return Some(ReceiverInstanceMismatch); }
      if r.response.Some? {
        Unfold(config, State(), r, ReadResponse(core));
        if r.response.value !in envelopes { return Some(ResponseNotFound); }
        if envelopes[r.response.value].core.replyTo != Some(r.id) { return Some(ResponseLinkMismatch); }
      }
      return None;
    }

    /** `commit_receipt` */
    method CommitReceipt(r: Request) returns (outcome: Outcome)
      requires r.Acknowledge?
      modifies this`receipts
      ensures (State(), outcome) == Finish(config, old(State()), r, Entry(config, r))
      ensures old(Valid()) ==> Valid() && Extends(old(State()), State())
    {
      hide Finish, FilesInv, Extends;
      if FilesInv(State()) { CallKeepsInv(config, State(), r); }
      var refusal := Preflight(r);
      if refusal.Some? { return Failed(refusal.value); }
      var core := envelopes[r.id].core;
      if r.response == Some("") { return Failed(FieldTypeInvalid); }
      var objection := EvidenceObjection(r.citations);
      if objection.Some? { return Failed(objection.value); }
      Unfold(config, State(), r, PublishReceipt(ReceiptOf(core, r)));
      if r.id in receipts { return Failed(ImmutableFileExists); }
      receipts := receipts[r.id := ReceiptOf(core, r)];
      return Acknowledged(ReceiptOf(core, r));
    }

    /** `pending`: `listed` is the order the envelope directory is enumerated in. */
    method Pending(listed: seq<string>, targetKind: TargetKind, targetRef: string) returns (pending: seq<string>)
      requires Valid()
      requires forall id :: id in listed <==> id in envelopes
      ensures pending == AwaitingAmong(State(), listed, |listed|, targetKind, targetRef)
      ensures forall id :: id in pending <==> Awaits(State(), id, targetKind, targetRef)
    {
      hide FileOk;
      pending := [];
      for n := 0 to |listed|
        invariant pending == AwaitingAmong(State(), listed, n, targetKind, targetRef)
      {
        var core := envelopes[listed[n]].core;
        KeyedByOwnId(State(), listed[n]);
        if core.targetKind == targetKind && core.targetRef == targetRef {
          if core.handoffId !in claims && core.handoffId !in failures {
            pending := pending + [core.handoffId];
          }
        }
      }
      forall id ensures id in pending <==> Awaits(State(), id, targetKind, targetRef) {
        AwaitingAmongIs(State(), listed, |listed|, targetKind, targetRef, id);
      }
    }
  }

  /** The handoff is addressed to this target and its status is "pending". */
  predicate Awaits(f: Files, id: string, targetKind: TargetKind, targetRef: string) {
    && StatusOf(f, id) == Ok(Status.Pending)
    && f.envelopes[id].core.targetKind == targetKind && f.envelopes[id].core.targetRef == targetRef
  }

  /** Those of the first `n` listed handoffs that await this target, in listing order. */
  function AwaitingAmong(f: Files, listed: seq<string>, n: nat, targetKind: TargetKind, targetRef: string): seq<string>
    requires n <= |listed|
  {
    if n == 0 then []
    else
      AwaitingAmong(f, listed, n - 1, targetKind, targetRef)
      + (if Awaits(f, listed[n - 1], targetKind, targetRef) then [listed[n - 1]] else [])
  }

  lemma {:induction false} AwaitingAmongIs(f: Files, listed: seq<string>, n: nat, targetKind: TargetKind,
                                           targetRef: string, id: string)
    requires n <= |listed|
    ensures id in AwaitingAmong(f, listed, n, targetKind, targetRef)
            <==> Awaits(f, id, targetKind, targetRef) && exists i | 0 <= i < n :: listed[i] == id
  {
    if n > 0 {
      AwaitingAmongIs(f, listed, n - 1, targetKind, targetRef, id);
    }
  }

  /** A stored envelope carries its own id, and only a claim leads to anything further. */
  lemma KeyedByOwnId(f: Files, id: string)
    requires FilesInv(f) && id in f.envelopes
    ensures f.envelopes[id].core.handoffId == id
    ensures StatusOf(f, id) == Ok(Status.Pending) <==> id !in f.claims && id !in f.failures
  {
    hide ReceiverFits;
    assert FileOk(f, id);
  }
}
