/** The write-once handoff files and the atomic steps of the calls that read and publish them. */
module HandoffProtocol {
  import opened Prelude

  datatype TargetKind = SharedTopic | Task | ArcpEntity | ExactInstance

  datatype Binding = CodexThread | SessionUuid | ProviderSession | Unresolved | OtherBinding(kind: string)

  datatype Decision = Ack | NoAction | TakeAction | ReportError

  /** SHA-256 taken as an injective function of the bytes hashed. */
  datatype Digest = Sha256(bytes: seq<bv8>)

  /** `payloads/<hash of the handoff id><extension>`, or any other reference. */
  datatype PayloadRef = KeyedRef(handoffId: string, extension: string) | OtherRef(text: string)

  /** Payload bytes as read from their source, with the media type their extension stands for. */
  datatype Snapshot = Snapshot(data: seq<bv8>, extension: string, mediaType: string)

  datatype Core = Core(
    handoffId: string,
    targetKind: TargetKind,
    targetRef: string,
    authority: string,
    payloadRef: PayloadRef,
    mediaType: string,
    payloadSha: Digest,
    payloadBytes: nat,
    replyTo: Option<string>,
    claims: string)  // the remaining fields, which nothing branches on

  /** Everything but the delivery id is core. */
  datatype Envelope = Envelope(delivery: string, core: Core)

  datatype CoreDigest = CoreDigest(core: Core)

  datatype ClaimRecord = ClaimRecord(
    handoffId: string, digest: CoreDigest, receiver: Option<string>, binding: Binding,
    entity: Option<string>, evidence: Option<string>, authority: string)

  datatype MaterializationRecord = MaterializationRecord(
    handoffId: string, digest: CoreDigest, payloadSha: Digest, receiver: Option<string>)

  datatype ReceiptRecord = ReceiptRecord(
    handoffId: string, digest: CoreDigest, payloadSha: Digest, receiver: Option<string>,
    decision: Decision, response: Option<string>, citations: seq<string>)

  datatype DuplicateKey = DuplicateKey(handoffId: string, delivery: string)

  datatype QuarantineRecord = QuarantineRecord(handoffId: string, delivery: string, existing: CoreDigest,
                                               submitted: CoreDigest)

  datatype Files = Files(
    payloads: map<PayloadRef, seq<bv8>>,
    envelopes: map<string, Envelope>,
    claims: map<string, ClaimRecord>,
    materializations: map<string, MaterializationRecord>,
    receipts: map<string, ReceiptRecord>,
    failures: set<string>,
    duplicates: map<DuplicateKey, CoreDigest>,
    quarantine: map<(string, string, CoreDigest), QuarantineRecord>)

  const NO_FILES := Files(map[], map[], map[], map[], map[], {}, map[], map[])

  datatype Config = Config(targetKinds: set<TargetKind>, authorities: set<string>)

  datatype Code =
    | TargetKindNotAllowed
    | AuthorityNotAllowed
    | PayloadRefMismatch
    | PayloadIntegrityFailed
    | PayloadSizeMismatch
    | PayloadMediaMismatch
    | HandoffContentCollision
    | HandoffNotFound
    | HandoffAlreadyClaimed
    | HandoffNotClaimed
    | PayloadNotMaterialized
    | HandoffAlreadyAcknowledged
    | ReceiverInstanceMismatch
    | PayloadUnreadable
    | ClaimAuthorityNotAllowed
    | BindingKindUnsupported
    | UnresolvedBindingHasInstance
    | ReceiverInstanceMissing
    | HostVerifierUnavailable
    | HostEvidenceMissing
    | ExactInstanceMismatch
    | EntityVerifierUnavailable
    | EntityEvidenceMissing
    | EntityMismatch
    | ResponseNotFound
    | ResponseLinkMismatch
    | FieldTypeInvalid
    | FieldEmpty
    | DuplicateListItem
    | ImmutableFileExists

  /** What a host verifier would answer about this claim, should it be asked. */
  datatype Answers = Answers(exactInstance: bool, entity: bool)

  datatype Request =
    | Submit(envelope: Envelope, snapshot: Snapshot)
    | Claim(id: string, receiver: Option<string>, binding: Binding, authority: string, evidence: Option<string>,
            entity: Option<string>, verifier: Option<Answers>)
    | Materialize(id: string, receiver: Option<string>)
    | Acknowledge(id: string, receiver: Option<string>, decision: Decision, response: Option<string>,
                  citations: seq<string>)

  datatype Outcome =
    | Created
    | Duplicate
    | Claimed(claim: ClaimRecord)
    | Materialized(materialization: MaterializationRecord)
    | Acknowledged(receipt: ReceiptRecord)
    | Failed(code: Code)

  /** Where a call stands; what it has read so far travels with it. */
  datatype Pc =
    | CheckEnvelope
    | CheckPayload
    | CompareOrphan
    | PublishPayload
    | CompareRival
    | PublishEnvelope
    | ReadExisting
    | ComparePayload
    | CheckDuplicate
    | PublishDuplicate
    | CheckQuarantine(record: QuarantineRecord)
    | PublishQuarantine(record: QuarantineRecord)
    | FindEnvelope
    | CheckClaim(core: Core)
    | PublishClaim(claim: ClaimRecord)
    | ReadClaim(core: Core)
    | ReadPayload(core: Core)
    | PublishMaterialization(materialization: MaterializationRecord)
    | CheckReceipt(core: Core)
    | ReadMaterialization(core: Core)
    | ReadResponse(core: Core)
    | PublishReceipt(receipt: ReceiptRecord)
    | Done(outcome: Outcome)

  /** `_verify_submission` */
  function Objection(config: Config, e: Core, s: Snapshot): Option<Code> {
    if e.targetKind !in config.targetKinds then Some(TargetKindNotAllowed)
    else if e.authority !in config.authorities then Some(AuthorityNotAllowed)
    else if e.payloadRef != KeyedRef(e.handoffId, s.extension) then Some(PayloadRefMismatch)
    else if e.payloadSha != Sha256(s.data) then Some(PayloadIntegrityFailed)
    else if e.payloadBytes != |s.data| then Some(PayloadSizeMismatch)
    else if e.mediaType != s.mediaType then Some(PayloadMediaMismatch)
    else None
  }

  predicate Blank(o: Option<string>) {
    o == None || o == Some("")
  }

  /** `authorize_claim` */
  function ClaimObjection(config: Config, e: Core, r: Request): Option<Code>
    requires r.Claim?
  {
    if r.authority !in config.authorities then Some(ClaimAuthorityNotAllowed)
    else if r.binding.OtherBinding? then Some(BindingKindUnsupported)
    else if r.binding == Unresolved && r.receiver != None then Some(UnresolvedBindingHasInstance)
    else if r.binding != Unresolved && Blank(r.receiver) then Some(ReceiverInstanceMissing)
    else match e.targetKind
      case SharedTopic => None
      case Task => None
      case ExactInstance =>
        if r.verifier == None then Some(HostVerifierUnavailable)
        else if Blank(r.receiver) || Blank(r.evidence) then Some(HostEvidenceMissing)
        else if !r.verifier.value.exactInstance then Some(ExactInstanceMismatch)
        else None
      case ArcpEntity =>
        if r.verifier == None then Some(EntityVerifierUnavailable)
        else if Blank(r.entity) || Blank(r.evidence) then Some(EntityEvidenceMissing)
        else if !r.verifier.value.entity then Some(EntityMismatch)
        else None
  }

  function ClaimRecordOf(e: Core, r: Request): ClaimRecord
    requires r.Claim?
  {
    ClaimRecord(r.id, CoreDigest(e), r.receiver, r.binding, r.entity, r.evidence, r.authority)
  }

  /** The evidence list must hold distinct, non-empty strings, and at least one. */
  function EvidenceObjection(evidence: seq<string>): Option<Code> {
    if "" in evidence then Some(FieldTypeInvalid)
    else if evidence == [] then Some(FieldEmpty)
    else if exists i, j | 0 <= i < j < |evidence| :: evidence[i] == evidence[j] then Some(DuplicateListItem)
    else None
  }

  /** What a receiver may look like under its binding and the envelope's target. */
  predicate ReceiverFits(e: Core, c: ClaimRecord) {
    && !c.binding.OtherBinding?
    && (c.receiver == None <==> c.binding == Unresolved)
    && (e.targetKind == ExactInstance ==> !Blank(c.receiver) && !Blank(c.evidence))
    && (e.targetKind == ArcpEntity ==> !Blank(c.entity) && !Blank(c.evidence))
  }

  function ReceiptOf(e: Core, r: Request): ReceiptRecord
    requires r.Acknowledge?
  {
    ReceiptRecord(r.id, CoreDigest(e), e.payloadSha, r.receiver, r.decision, r.response, r.citations)
  }

  /** Every receipt is validated before it is published. */
  function BeforeReceipt(e: Core, r: Request): Pc
    requires r.Acknowledge?
  {
    if r.response == Some("") then Done(Failed(FieldTypeInvalid))
    else match EvidenceObjection(r.citations)
      case Some(code) => Done(Failed(code))
      case None => PublishReceipt(ReceiptOf(e, r))
  }

  predicate Publishes(pc: Pc) {
    pc.PublishPayload? || pc.PublishEnvelope? || pc.PublishDuplicate? || pc.PublishQuarantine? || pc.PublishClaim? ||
    pc.PublishMaterialization? || pc.PublishReceipt?
  }

  /** The steps each kind of call goes through. */
  predicate Suits(r: Request, pc: Pc) {
    match r
    case Submit(_, _) =>
      pc.CheckEnvelope? || pc.CheckPayload? || pc.CompareOrphan? || pc.PublishPayload? || pc.CompareRival? ||
      pc.PublishEnvelope? || pc.ReadExisting? || pc.ComparePayload? || pc.CheckDuplicate? || pc.PublishDuplicate? ||
      pc.CheckQuarantine? || pc.PublishQuarantine?
        || (pc.Done? && (pc.outcome.Created? || pc.outcome.Duplicate? || pc.outcome.Failed?))
    case Claim(_, _, _, _, _, _, _) =>
      pc.FindEnvelope? || pc.CheckClaim? || pc.PublishClaim?
        || (pc.Done? && (pc.outcome.Claimed? || pc.outcome.Failed?))
    case Materialize(_, _) =>
      pc.FindEnvelope? || pc.ReadClaim? || pc.ReadPayload? || pc.PublishMaterialization? ||
      (pc.Done? && (pc.outcome.Materialized? || pc.outcome.Failed?))
    case Acknowledge(_, _, _, _, _) =>
      pc.FindEnvelope? || pc.CheckReceipt? || pc.ReadMaterialization? || pc.ReadResponse? || pc.PublishReceipt? ||
      (pc.Done? && (pc.outcome.Acknowledged? || pc.outcome.Failed?))
  }

  function Remaining(pc: Pc): nat {
    match pc
    case CheckEnvelope => 12
    case CheckPayload => 11
    case CompareOrphan => 8
    case PublishPayload => 10
    case CompareRival => 9
    case PublishEnvelope => 7
    case ReadExisting => 6
    case ComparePayload => 5
    case CheckDuplicate => 4
    case PublishDuplicate => 3
    case CheckQuarantine(_) => 2
    case PublishQuarantine(_) => 1
    case FindEnvelope => 5
    case CheckClaim(_) => 4
    case ReadClaim(_) => 4
    case CheckReceipt(_) => 4
    case ReadPayload(_) => 3
    case ReadMaterialization(_) => 3
    case ReadResponse(_) => 2
    case PublishClaim(_) => 1
    case PublishMaterialization(_) => 1
    case PublishReceipt(_) => 1
    case Done(_) => 0
  }

  function CollisionCheck(r: Request, existing: Core): (pc: Pc)
    requires r.Submit?
    ensures pc.CheckQuarantine?
  {
    CheckQuarantine(QuarantineRecord(r.envelope.core.handoffId, r.envelope.delivery, CoreDigest(existing),
                                     CoreDigest(r.envelope.core)))
  }

  /** A reading step of `submit`. */
  function CheckSubmission(f: Files, r: Request, pc: Pc): (next: Pc)
    requires r.Submit? && Suits(r, pc) && !pc.Done? && !Publishes(pc)
    ensures Suits(r, next) && Remaining(next) < Remaining(pc)
  {
    var e := r.envelope.core;
    match pc
    case CheckEnvelope => if e.handoffId in f.envelopes then ReadExisting else CheckPayload
    case CheckPayload => if e.payloadRef in f.payloads then CompareOrphan else PublishPayload
    case CompareOrphan =>
      if e.payloadRef !in f.payloads then Done(Failed(PayloadUnreadable))
      else if f.payloads[e.payloadRef] != r.snapshot.data then Done(Failed(PayloadIntegrityFailed))
      else PublishEnvelope
    case CompareRival =>
      if e.payloadRef !in f.payloads || f.payloads[e.payloadRef] != r.snapshot.data
        then Done(Failed(PayloadIntegrityFailed))
      else PublishEnvelope
    case ReadExisting =>
      if e.handoffId !in f.envelopes then Done(Failed(HandoffNotFound))
      else if f.envelopes[e.handoffId].core != e then
        CollisionCheck(r, f.envelopes[e.handoffId].core)
      else ComparePayload
    case ComparePayload =>
      if e.payloadRef !in f.payloads || f.payloads[e.payloadRef] != r.snapshot.data
        then Done(Failed(PayloadIntegrityFailed))
      else CheckDuplicate
    case CheckDuplicate =>
      if DuplicateKey(e.handoffId, r.envelope.delivery) in f.duplicates then Done(Duplicate) else PublishDuplicate
    case CheckQuarantine(record) =>
      if (record.handoffId, record.delivery, record.submitted) in f.quarantine
        then Done(Failed(HandoffContentCollision))
      else PublishQuarantine(record)
  }

  /** A reading step of `claim`, `materialize` or `commit_receipt`. */
  function CheckReceiver(config: Config, f: Files, r: Request, pc: Pc): (next: Pc)
    requires !r.Submit? && Suits(r, pc) && !pc.Done? && !Publishes(pc)
    ensures Suits(r, next) && Remaining(next) < Remaining(pc)
  {
    match pc
    case FindEnvelope =>
      if r.id !in f.envelopes then Done(Failed(HandoffNotFound))
      else
        var core := f.envelopes[r.id].core;
        if r.Claim? then CheckClaim(core) else if r.Materialize? then ReadClaim(core) else CheckReceipt(core)
    case CheckClaim(core) =>
      if r.id in f.claims then Done(Failed(HandoffAlreadyClaimed))
      else (match ClaimObjection(config, core, r)
            case Some(code) => Done(Failed(code))
            case None =>
              if r.entity == Some("") || r.evidence == Some("") then Done(Failed(FieldTypeInvalid))
              else PublishClaim(ClaimRecordOf(core, r)))
    case ReadClaim(core) =>
      if r.id !in f.claims then Done(Failed(HandoffNotClaimed))
      else if f.claims[r.id].receiver != r.receiver then Done(Failed(ReceiverInstanceMismatch))
      else ReadPayload(core)
    case ReadPayload(core) =>
      if core.payloadRef !in f.payloads then Done(Failed(PayloadUnreadable))
      else
        var data := f.payloads[core.payloadRef];
        if Sha256(data) != core.payloadSha || |data| != core.payloadBytes then Done(Failed(PayloadIntegrityFailed))
        else PublishMaterialization(MaterializationRecord(r.id, CoreDigest(core), Sha256(data), r.receiver))
    case CheckReceipt(core) =>
      if r.id in f.receipts then Done(Failed(HandoffAlreadyAcknowledged)) else ReadMaterialization(core)
    case ReadMaterialization(core) =>
      if r.id !in f.materializations then Done(Failed(PayloadNotMaterialized))
      else if f.materializations[r.id].receiver != r.receiver then Done(Failed(ReceiverInstanceMismatch))
      else if r.response.Some? then ReadResponse(core)
      else BeforeReceipt(core, r)
    case ReadResponse(core) =>
      if r.response.None? then BeforeReceipt(core, r)
      else if r.response.value !in f.envelopes then Done(Failed(ResponseNotFound))
      else if f.envelopes[r.response.value].core.replyTo != Some(r.id) then Done(Failed(ResponseLinkMismatch))
      else BeforeReceipt(core, r)
  }

  /** A publication of `submit`: puts one file unless something is already there. */
  function PublishSubmission(f: Files, r: Request, pc: Pc): (next: (Files, Pc))
    requires r.Submit? && Suits(r, pc) && Publishes(pc)
    ensures Suits(r, next.1) && Remaining(next.1) < Remaining(pc)
  {
    match pc
    case PublishPayload =>
      var ref := r.envelope.core.payloadRef;
      if ref in f.payloads then (f, CompareRival)
      else (f.(payloads := f.payloads[ref := r.snapshot.data]), PublishEnvelope)
    case PublishEnvelope =>
      var id := r.envelope.core.handoffId;
      if id in f.envelopes then (f, ReadExisting)
      else (f.(envelopes := f.envelopes[id := r.envelope]), Done(Created))
    case PublishDuplicate =>
      var key := DuplicateKey(r.envelope.core.handoffId, r.envelope.delivery);
      if key in f.duplicates then (f, Done(Duplicate))
      else (f.(duplicates := f.duplicates[key := CoreDigest(r.envelope.core)]), Done(Duplicate))
    case PublishQuarantine(record) =>
      var key := (record.handoffId, record.delivery, record.submitted);
      if key in f.quarantine then (f, Done(Failed(ImmutableFileExists)))
      else (f.(quarantine := f.quarantine[key := record]), Done(Failed(HandoffContentCollision)))
  }

  /** A publication of `claim`, `materialize` or `commit_receipt`. */
  function PublishByReceiver(f: Files, r: Request, pc: Pc): (next: (Files, Pc))
    requires !r.Submit? && Suits(r, pc) && Publishes(pc)
    ensures Suits(r, next.1) && Remaining(next.1) < Remaining(pc)
  {
    match pc
    case PublishClaim(record) =>
      if r.id in f.claims then (f, Done(Failed(ImmutableFileExists)))
      else (f.(claims := f.claims[r.id := record]), Done(Claimed(record)))
    case PublishMaterialization(record) =>
      if r.id in f.materializations then (f, Done(Failed(ImmutableFileExists)))
      else (f.(materializations := f.materializations[r.id := record]), Done(Materialized(record)))
    case PublishReceipt(record) =>
      if r.id in f.receipts then (f, Done(Failed(ImmutableFileExists)))
      else (f.(receipts := f.receipts[r.id := record]), Done(Acknowledged(record)))
  }

  function Step(config: Config, f: Files, r: Request, pc: Pc): (next: (Files, Pc))
    requires Suits(r, pc) && !pc.Done?
    ensures Suits(r, next.1) && Remaining(next.1) < Remaining(pc)
  {
    if r.Submit? then
      if Publishes(pc) then PublishSubmission(f, r, pc) else (f, CheckSubmission(f, r, pc))
    else if Publishes(pc) then PublishByReceiver(f, r, pc)
    else (f, CheckReceiver(config, f, r, pc))
  }

  /** A call left to itself until it returns. */
  function Finish(config: Config, f: Files, r: Request, pc: Pc): (Files, Outcome)
    requires Suits(r, pc)
    decreases Remaining(pc)
  {
    match pc
    case Done(outcome) => (f, outcome)
    case _ => var next := Step(config, f, r, pc); Finish(config, next.0, r, next.1)
  }

  /** One step of a call left to itself. */
  lemma Unfold(config: Config, f: Files, r: Request, pc: Pc)
    requires Suits(r, pc) && !pc.Done?
    ensures var next := Step(config, f, r, pc);
      Finish(config, f, r, pc) == if next.1.Done? then (next.0, next.1.outcome) else Finish(config, next.0, r, next.1)
  {
  }

  function Entry(config: Config, r: Request): (pc: Pc)
    ensures Suits(r, pc)
  {
    if !r.Submit? then FindEnvelope
    else match Objection(config, r.envelope.core, r.snapshot)
      case Some(code) => Done(Failed(code))
      case None => CheckEnvelope
  }

  // What the files always say

  /** The envelope's payload is there, with the hash and the length it announces. */
  ghost predicate PayloadKept(f: Files, e: Core) {
    && e.payloadRef in f.payloads
    && Sha256(f.payloads[e.payloadRef]) == e.payloadSha
    && |f.payloads[e.payloadRef]| == e.payloadBytes
  }

  ghost predicate EnvelopeIs(f: Files, id: string, e: Core) {
    id in f.envelopes && f.envelopes[id].core == e
  }

  ghost predicate EnvelopeFileOk(f: Files, id: string) {
    id in f.envelopes ==>
      var e := f.envelopes[id].core;
      e.handoffId == id && e.payloadRef.KeyedRef? && e.payloadRef.handoffId == id && PayloadKept(f, e)
  }

  /** A claim of the envelope as it was and is, by a receiver that fits it. */
  ghost predicate ClaimFits(f: Files, id: string, c: ClaimRecord) {
    c.handoffId == id && EnvelopeIs(f, id, c.digest.core) && ReceiverFits(c.digest.core, c)
  }

  ghost predicate ClaimFileOk(f: Files, id: string) {
    id in f.claims ==> ClaimFits(f, id, f.claims[id])
  }

  ghost predicate MaterializationFits(f: Files, id: string, m: MaterializationRecord) {
    && m.handoffId == id && id in f.claims
    && m.digest == f.claims[id].digest && m.receiver == f.claims[id].receiver
    && m.payloadSha == m.digest.core.payloadSha
    && EnvelopeIs(f, id, m.digest.core)
  }

  ghost predicate MaterializationFileOk(f: Files, id: string) {
    id in f.materializations ==> MaterializationFits(f, id, f.materializations[id])
  }

  /** The response envelope exists and names the handoff it answers. */
  ghost predicate RespondsTo(f: Files, response: string, id: string) {
    response in f.envelopes && f.envelopes[response].core.replyTo == Some(id)
  }

  ghost predicate ReceiptFits(f: Files, id: string, r: ReceiptRecord) {
    && r.handoffId == id && id in f.materializations
    && r.digest == f.materializations[id].digest && r.receiver == f.materializations[id].receiver
    && r.payloadSha == r.digest.core.payloadSha
    && (r.response.Some? ==> RespondsTo(f, r.response.value, id))
  }

  ghost predicate ReceiptFileOk(f: Files, id: string) {
    id in f.receipts ==> ReceiptFits(f, id, f.receipts[id])
  }

  ghost predicate FileOk(f: Files, id: string) {
    EnvelopeFileOk(f, id) && ClaimFileOk(f, id) && MaterializationFileOk(f, id) && ReceiptFileOk(f, id)
  }

  ghost predicate FilesInv(f: Files) {
    forall id {:trigger FileOk(f, id)} :: FileOk(f, id)
  }

  /** Nothing published in `f` is missing or different in `g`; no failure is ever published. */
  ghost predicate Extends(f: Files, g: Files) {
    && Kept(f.payloads, g.payloads) && Kept(f.envelopes, g.envelopes) && Kept(f.claims, g.claims)
    && Kept(f.materializations, g.materializations) && Kept(f.receipts, g.receipts)
    && Kept(f.duplicates, g.duplicates) && Kept(f.quarantine, g.quarantine) && f.failures == g.failures
  }

  lemma ExtendsTransitive(f: Files, g: Files, h: Files)
    requires Extends(f, g) && Extends(g, h)
    ensures Extends(f, h)
  {
  }

  /** What a submission at `pc` has secured. */
  ghost predicate SubmitPcInv(f: Files, r: Request, pc: Pc)
    requires r.Submit?
  {
    var e := r.envelope.core;
    var admitted := e.payloadRef == KeyedRef(e.handoffId, r.snapshot.extension)
      && e.payloadSha == Sha256(r.snapshot.data)
      && e.payloadBytes == |r.snapshot.data|;
    var kept := e.payloadRef in f.payloads && f.payloads[e.payloadRef] == r.snapshot.data;
    && (admitted || (pc.Done? && pc.outcome.Failed?))
    && match pc
       case CompareOrphan => e.payloadRef in f.payloads
       case CompareRival => e.payloadRef in f.payloads
       case PublishEnvelope => kept
       case ReadExisting => e.handoffId in f.envelopes
       case ComparePayload => EnvelopeIs(f, e.handoffId, e)
       case CheckDuplicate => EnvelopeIs(f, e.handoffId, e) && kept
       case PublishDuplicate => EnvelopeIs(f, e.handoffId, e) && kept
       case Done(Created) => EnvelopeIs(f, e.handoffId, e) && kept && f.envelopes[e.handoffId] == r.envelope
       case Done(Duplicate) =>
         EnvelopeIs(f, e.handoffId, e) && kept && DuplicateKey(e.handoffId, r.envelope.delivery) in f.duplicates
       case _ => true
  }

  /** What a receiver's call at `pc` has secured. */
  ghost predicate ReceiverPcInv(f: Files, r: Request, pc: Pc)
    requires !r.Submit?
  {
    match pc
    case CheckClaim(core) => EnvelopeIs(f, r.id, core)
    case PublishClaim(record) => ClaimFits(f, r.id, record)
    case ReadClaim(core) => EnvelopeIs(f, r.id, core)
    case ReadPayload(core) => EnvelopeIs(f, r.id, core) && r.id in f.claims && f.claims[r.id].receiver == r.receiver
    case PublishMaterialization(record) => MaterializationFits(f, r.id, record)
    case CheckReceipt(core) => EnvelopeIs(f, r.id, core)
    case ReadMaterialization(core) => EnvelopeIs(f, r.id, core)
    case ReadResponse(core) =>
      EnvelopeIs(f, r.id, core) && r.id in f.materializations && f.materializations[r.id].receiver == r.receiver
    case PublishReceipt(record) => ReceiptFits(f, r.id, record)
    case Done(Claimed(record)) => r.id in f.claims && f.claims[r.id] == record
    case Done(Materialized(record)) => r.id in f.materializations && f.materializations[r.id] == record
    case Done(Acknowledged(record)) => r.id in f.receipts && f.receipts[r.id] == record
    case _ => true
  }

  ghost predicate PcInv(f: Files, r: Request, pc: Pc) {
    Suits(r, pc) && if r.Submit? then SubmitPcInv(f, r, pc) else ReceiverPcInv(f, r, pc)
  }

  lemma SubmitPcInvStable(f: Files, g: Files, r: Request, pc: Pc)
    requires r.Submit? && Extends(f, g) && SubmitPcInv(f, r, pc)
    ensures SubmitPcInv(g, r, pc)
  {
  }

  lemma ReceiverPcInvStable(f: Files, g: Files, r: Request, pc: Pc)
    requires !r.Submit? && Extends(f, g) && ReceiverPcInv(f, r, pc)
    ensures ReceiverPcInv(g, r, pc)
  {
    hide ReceiverFits;
  }

  lemma PcInvStable(f: Files, g: Files, r: Request, pc: Pc)
    requires Extends(f, g) && PcInv(f, r, pc)
    ensures PcInv(g, r, pc)
  {
    hide Extends, SubmitPcInv, ReceiverPcInv, Suits;
    if r.Submit? { SubmitPcInvStable(f, g, r, pc); } else { ReceiverPcInvStable(f, g, r, pc); }
  }

  // A step adds at most one file, disturbs nothing, and secures what the next step needs

  lemma NothingLost(f: Files)
    ensures Extends(f, f)
  {
  }

  lemma SubmissionExtends(f: Files, r: Request, pc: Pc)
    requires r.Submit? && Suits(r, pc) && Publishes(pc)
    ensures Extends(f, PublishSubmission(f, r, pc).0)
  {
    hide Kept;
    var e := r.envelope.core;
    KeptPut(f.claims, "", ClaimRecord("", CoreDigest(e), None, Unresolved, None, None, ""));
    KeptPut(f.materializations, "", MaterializationRecord("", CoreDigest(e), e.payloadSha, None));
    KeptPut(f.receipts, "", ReceiptRecord("", CoreDigest(e), e.payloadSha, None, Ack, None, []));
    KeptPut(f.payloads, e.payloadRef, r.snapshot.data);
    KeptPut(f.envelopes, e.handoffId, r.envelope);
    KeptPut(f.duplicates, DuplicateKey(e.handoffId, r.envelope.delivery), CoreDigest(e));
    var record := if pc.PublishQuarantine? then pc.record else QuarantineRecord("", "", CoreDigest(e), CoreDigest(e));
    KeptPut(f.quarantine, (record.handoffId, record.delivery, record.submitted), record);
  }

  lemma ReceiverExtends(f: Files, r: Request, pc: Pc)
    requires !r.Submit? && Suits(r, pc) && Publishes(pc)
    ensures Extends(f, PublishByReceiver(f, r, pc).0)
  {
    NothingLost(f);
    match pc
    case PublishClaim(record) => KeptPut(f.claims, r.id, record);
    case PublishMaterialization(record) => KeptPut(f.materializations, r.id, record);
    case PublishReceipt(record) => KeptPut(f.receipts, r.id, record);
  }

  lemma FileStaysOk(f: Files, g: Files, id: string)
    requires FileOk(f, id) && Extends(f, g)
    requires id !in f.envelopes ==> EnvelopeFileOk(g, id)
    requires id !in f.claims ==> ClaimFileOk(g, id)
    requires id !in f.materializations ==> MaterializationFileOk(g, id)
    requires id !in f.receipts ==> ReceiptFileOk(g, id)
    ensures FileOk(g, id)
  {
    hide ReceiverFits;
  }

  lemma SubmissionKeepsFile(f: Files, r: Request, pc: Pc, id: string)
    requires r.Submit? && Publishes(pc) && FileOk(f, id) && PcInv(f, r, pc)
    ensures FileOk(PublishSubmission(f, r, pc).0, id)
  {
    SubmissionExtends(f, r, pc);
    hide FileOk, Extends;
    FileStaysOk(f, PublishSubmission(f, r, pc).0, id);
  }

  lemma ReceiverLeavesEnvelope(f: Files, r: Request, pc: Pc, id: string)
    requires !r.Submit? && Publishes(pc) && Suits(r, pc) && id !in f.envelopes
    ensures EnvelopeFileOk(PublishByReceiver(f, r, pc).0, id)
  {
  }

  lemma NewClaimOk(f: Files, r: Request, pc: Pc, id: string)
    requires !r.Submit? && Publishes(pc) && Suits(r, pc) && ReceiverPcInv(f, r, pc) && id !in f.claims
    ensures ClaimFileOk(PublishByReceiver(f, r, pc).0, id)
  {
    hide ReceiverFits;
  }

  lemma NewMaterializationOk(f: Files, r: Request, pc: Pc, id: string)
    requires !r.Submit? && Publishes(pc) && Suits(r, pc) && ReceiverPcInv(f, r, pc) && id !in f.materializations
    ensures MaterializationFileOk(PublishByReceiver(f, r, pc).0, id)
  {
    hide ReceiverFits;
  }

  lemma NewReceiptOk(f: Files, r: Request, pc: Pc, id: string)
    requires !r.Submit? && Publishes(pc) && Suits(r, pc) && ReceiverPcInv(f, r, pc) && id !in f.receipts
    ensures ReceiptFileOk(PublishByReceiver(f, r, pc).0, id)
  {
    hide ReceiverFits;
  }

  lemma ReceiverKeepsFile(f: Files, r: Request, pc: Pc, id: string)
    requires !r.Submit? && Publishes(pc) && Suits(r, pc) && FileOk(f, id) && ReceiverPcInv(f, r, pc)
    ensures FileOk(PublishByReceiver(f, r, pc).0, id)
  {
    hide FileOk, Extends, Suits, Publishes, ReceiverPcInv, EnvelopeFileOk, ClaimFileOk, MaterializationFileOk,
      ReceiptFileOk;
    hide PublishByReceiver;
    ReceiverExtends(f, r, pc);
    if id !in f.envelopes { ReceiverLeavesEnvelope(f, r, pc, id); }
    if id !in f.claims { NewClaimOk(f, r, pc, id); }
    if id !in f.materializations { NewMaterializationOk(f, r, pc, id); }
    if id !in f.receipts { NewReceiptOk(f, r, pc, id); }
    FileStaysOk(f, PublishByReceiver(f, r, pc).0, id);
  }

  lemma SubmissionSecures(f: Files, r: Request, pc: Pc)
    requires r.Submit? && Publishes(pc) && PcInv(f, r, pc)
    ensures PcInv(PublishSubmission(f, r, pc).0, r, PublishSubmission(f, r, pc).1)
  {
  }

  lemma ReceiverSecures(f: Files, r: Request, pc: Pc)
    requires !r.Submit? && Publishes(pc) && PcInv(f, r, pc)
    ensures PcInv(PublishByReceiver(f, r, pc).0, r, PublishByReceiver(f, r, pc).1)
  {
  }

  lemma CheckSubmissionSecures(f: Files, r: Request, pc: Pc)
    requires r.Submit? && !pc.Done? && !Publishes(pc) && PcInv(f, r, pc) && FileOk(f, r.envelope.core.handoffId)
    ensures PcInv(f, r, CheckSubmission(f, r, pc))
  {
  }

  lemma CheckReceiverSecures(config: Config, f: Files, r: Request, pc: Pc)
    requires !r.Submit? && !pc.Done? && !Publishes(pc) && PcInv(f, r, pc) && FileOk(f, r.id)
    ensures PcInv(f, r, CheckReceiver(config, f, r, pc))
  {
  }

  lemma StepKeepsInv(config: Config, f: Files, r: Request, pc: Pc)
    requires !pc.Done? && FilesInv(f) && PcInv(f, r, pc)
    ensures var next := Step(config, f, r, pc);
      Extends(f, next.0) && FilesInv(next.0) && PcInv(next.0, r, next.1)
  {
    assert Suits(r, pc) && (!r.Submit? ==> ReceiverPcInv(f, r, pc));
    hide PcInv, Extends, FileOk, Suits;
    if Publishes(pc) && r.Submit? {
      SubmissionExtends(f, r, pc);
      SubmissionSecures(f, r, pc);
      forall id ensures FileOk(PublishSubmission(f, r, pc).0, id) { SubmissionKeepsFile(f, r, pc, id); }
    } else if Publishes(pc) {
      ReceiverExtends(f, r, pc);
      ReceiverSecures(f, r, pc);
      forall id ensures FileOk(PublishByReceiver(f, r, pc).0, id) { ReceiverKeepsFile(f, r, pc, id); }
    } else if r.Submit? {
      NothingLost(f);
      CheckSubmissionSecures(f, r, pc);
    } else {
      NothingLost(f);
      CheckReceiverSecures(config, f, r, pc);
    }
  }

  // Where a handoff stands

  datatype Status = Pending | FailedStatus | ClaimedIncomplete | MaterializedStatus | AcknowledgedStatus

  function StatusOf(f: Files, id: string): Result<Status, Code> {
    if id !in f.envelopes then Err(HandoffNotFound)
    else if id in f.receipts then Ok(AcknowledgedStatus)
    else if id in f.materializations then Ok(MaterializedStatus)
    else if id in f.claims then Ok(ClaimedIncomplete)
    else if id in f.failures then Ok(FailedStatus)
    else Ok(Pending)
  }

  function Rank(s: Status): nat {
    match s
    case Pending => 0
    case FailedStatus => 1
    case ClaimedIncomplete => 2
    case MaterializedStatus => 3
    case AcknowledgedStatus => 4
  }

  /** Publishing never takes a handoff back to an earlier status. */
  lemma StatusAdvances(f: Files, g: Files, id: string)
    requires Extends(f, g) && StatusOf(f, id).Ok?
    ensures StatusOf(g, id).Ok? && Rank(StatusOf(f, id).value) <= Rank(StatusOf(g, id).value)
  {
  }
}
