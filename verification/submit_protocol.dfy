/** The append-only event store as files and single-publication steps.

  A submission reads and publishes files one at a time; another store instance, or
  a crash, may come between any two steps.  Files are never replaced or removed, so
  a check that finds a file and the read that follows it are one step. */
module SubmitProtocol {
  import opened Prelude
  import opened Events

  /** `events/<replica key>/<sequence>-<event key>.json` */
  datatype EventPath = EventPath(slot: Slot, id: string)

  datatype SequenceRecord = SequenceRecord(slot: Slot, id: string, digest: CoreDigest, path: EventPath)

  datatype IndexRecord = IndexRecord(id: string, digest: CoreDigest, path: EventPath, payloadRef: string,
                                     payloadSha: Digest)

  datatype DuplicateKey = DuplicateKey(id: string, delivery: string)

  datatype DuplicateRecord = DuplicateRecord(key: DuplicateKey, digest: CoreDigest)

  /** Quarantine files are named by the hash of their own content. */
  datatype QuarantineRecord = QuarantineRecord(
    code: Code, id: string, digest: CoreDigest, existingId: Option<string>, existingDigest: Option<CoreDigest>)

  datatype Files = Files(
    payloads: map<string, Payload>,
    events: map<EventPath, Event>,
    sequences: map<Slot, SequenceRecord>,
    index: map<string, IndexRecord>,
    duplicates: map<DuplicateKey, DuplicateRecord>,
    quarantine: set<QuarantineRecord>)

  const NO_FILES := Files(map[], map[], map[], map[], map[], {})

  datatype Submission = Submission(event: Event, payload: Payload, delivery: string)

  datatype Outcome = Created | Duplicate | Failed(code: Code)

  /** Where a submission stands.  `created` remembers that this call published the event file. */
  datatype Pc =
    | CheckIndex
    | CheckSequence
    | CheckPayload
    | PublishPayload
    | CheckEvent
    | PublishEvent
    | RecheckSequence(created: bool)
    | PublishSequence(created: bool)
    | RecheckIndex(created: bool)
    | PublishIndex(created: bool)
    | CheckDuplicate
    | PublishDuplicate
    | CheckQuarantine(record: QuarantineRecord)
    | PublishQuarantine(record: QuarantineRecord)
    | Done(outcome: Outcome)

  function PathOf(e: Event): EventPath { EventPath(e.slot, e.id) }

  function SequenceRecordOf(e: Event): SequenceRecord {
    SequenceRecord(e.slot, e.id, CoreDigest(e), PathOf(e))
  }

  function IndexRecordOf(e: Event): IndexRecord {
    IndexRecord(e.id, CoreDigest(e), PathOf(e), e.payloadRef, e.payloadSha)
  }

  function DuplicateRecordOf(s: Submission): DuplicateRecord {
    DuplicateRecord(DuplicateKey(s.event.id, s.delivery), CoreDigest(s.event))
  }

  /** `get_event`: index record, event file and payload file must agree. */
  function GetEvent(f: Files, id: string): Result<Event, Code> {
    if id !in f.index then Err(EventNotFound)
    else if f.index[id].id != id then Err(EventIndexMismatch)
    else if f.index[id].path !in f.events then Err(FileUnreadable)
    else
      var event := f.events[f.index[id].path];
      if event.id != id || CoreDigest(event) != f.index[id].digest then Err(StoredEventIntegrityFailed)
      else if event.payloadRef !in f.payloads then Err(PayloadUnreadable)
      else if Sha256(f.payloads[event.payloadRef]) != event.payloadSha then Err(PayloadIntegrityFailed)
      else Ok(event)
  }

  function Collision(e: Event, existingId: Option<string>, existing: Option<CoreDigest>): Pc {
    CheckQuarantine(QuarantineRecord(EventContentCollision, e.id, CoreDigest(e), existingId, existing))
  }

  function SlotTaken(e: Event, owner: SequenceRecord): Pc {
    CheckQuarantine(QuarantineRecord(ReplicaSequenceCollision, e.id, CoreDigest(e), Some(owner.id), Some(owner.digest)))
  }

  function AfterIndex(created: bool): Pc {
    if created then Done(Created) else CheckDuplicate
  }

  /** How many steps a submission can still take. */
  function Remaining(pc: Pc): nat {
    match pc
    case CheckIndex => 14
    case CheckSequence => 13
    case CheckPayload => 12
    case PublishPayload => 11
    case CheckEvent => 10
    case PublishEvent => 9
    case RecheckSequence(_) => 8
    case PublishSequence(_) => 7
    case RecheckIndex(_) => 6
    case PublishIndex(_) => 5
    case CheckDuplicate => 4
    case PublishDuplicate => 3
    case CheckQuarantine(_) => 2
    case PublishQuarantine(_) => 1
    case Done(_) => 0
  }

  predicate Publishes(pc: Pc) {
    pc.PublishPayload? || pc.PublishEvent? || pc.PublishSequence? || pc.PublishIndex? || pc.PublishDuplicate? ||
    pc.PublishQuarantine?
  }

  /** A check: reads files and decides where to go. */
  function Check(f: Files, s: Submission, pc: Pc): (next: Pc)
    requires !pc.Done? && !Publishes(pc)
    ensures Remaining(next) < Remaining(pc)
  {
    var e := s.event;
    match pc
    case CheckIndex =>
      if e.id !in f.index then CheckSequence
      else if f.index[e.id].digest != CoreDigest(e) then
        Collision(e, Some(f.index[e.id].id), Some(f.index[e.id].digest))
      else
        (match GetEvent(f, e.id)
         case Err(code) => Done(Failed(code))
         case Ok(stored) =>
           if stored != e || e.payloadRef !in f.payloads || f.payloads[e.payloadRef] != s.payload
           then Done(Failed(StoredEventIntegrityFailed))
           else CheckDuplicate)
    case CheckSequence =>
      if e.slot in f.sequences && (f.sequences[e.slot].id != e.id || f.sequences[e.slot].digest != CoreDigest(e))
      then SlotTaken(e, f.sequences[e.slot])
      else CheckPayload
    case CheckPayload =>
      if e.payloadRef !in f.payloads then PublishPayload
      else if f.payloads[e.payloadRef] != s.payload then Done(Failed(PayloadIntegrityFailed))
      else CheckEvent
    case CheckEvent =>
      if PathOf(e) !in f.events then PublishEvent
      else if f.events[PathOf(e)] != e then Collision(e, Some(f.events[PathOf(e)].id), None)
      else RecheckSequence(false)
    case RecheckSequence(created) =>
      if e.slot !in f.sequences then PublishSequence(created)
      else if f.sequences[e.slot] != SequenceRecordOf(e) then SlotTaken(e, f.sequences[e.slot])
      else RecheckIndex(created)
    case RecheckIndex(created) =>
      if e.id !in f.index then PublishIndex(created)
      else if f.index[e.id] != IndexRecordOf(e) then
        Collision(e, Some(f.index[e.id].id), Some(f.index[e.id].digest))
      else AfterIndex(created)
    case CheckDuplicate =>
      var record := DuplicateRecordOf(s);
      if record.key !in f.duplicates then PublishDuplicate
      else if f.duplicates[record.key] != record then Done(Failed(DuplicateContentCollision))
      else Done(Duplicate)
    case CheckQuarantine(record) =>
      if record in f.quarantine then Done(Failed(record.code)) else PublishQuarantine(record)
  }

  /** A publication: puts one file unless it is already there. */
  function Publish(f: Files, s: Submission, pc: Pc): (r: (Files, Pc))
    requires Publishes(pc)
    ensures Remaining(r.1) < Remaining(pc)
  {
    var e := s.event;
    match pc
    case PublishPayload =>
      if e.payloadRef !in f.payloads then (f.(payloads := f.payloads[e.payloadRef := s.payload]), CheckEvent)
      else if f.payloads[e.payloadRef] != s.payload then (f, Done(Failed(PayloadIntegrityFailed)))
      else (f, CheckEvent)
    case PublishEvent =>
      if PathOf(e) !in f.events then (f.(events := f.events[PathOf(e) := e]), RecheckSequence(true))
      else if f.events[PathOf(e)] != e then (f, Done(Failed(EventContentCollision)))
      else (f, RecheckSequence(false))
    case PublishSequence(created) =>
      if e.slot !in f.sequences then
        (f.(sequences := f.sequences[e.slot := SequenceRecordOf(e)]), RecheckIndex(created))
      else if f.sequences[e.slot] != SequenceRecordOf(e) then (f, SlotTaken(e, f.sequences[e.slot]))
      else (f, RecheckIndex(created))
    case PublishIndex(created) =>
      if e.id !in f.index then (f.(index := f.index[e.id := IndexRecordOf(e)]), AfterIndex(created))
      else if f.index[e.id] != IndexRecordOf(e) then
        (f, Collision(e, Some(f.index[e.id].id), Some(f.index[e.id].digest)))
      else (f, AfterIndex(created))
    case PublishDuplicate =>
      var record := DuplicateRecordOf(s);
      if record.key !in f.duplicates then (f.(duplicates := f.duplicates[record.key := record]), Done(Duplicate))
      else (f, Done(Failed(ImmutableFileExists)))
    case PublishQuarantine(record) =>
      if record in f.quarantine then (f, Done(Failed(ImmutableFileExists)))
      else (f.(quarantine := f.quarantine + {record}), Done(Failed(record.code)))
  }

  function Step(f: Files, s: Submission, pc: Pc): (r: (Files, Pc))
    requires !pc.Done?
    ensures Remaining(r.1) < Remaining(pc)
  {
    if Publishes(pc) then Publish(f, s, pc) else (f, Check(f, s, pc))
  }

  /** The files after at most `steps` further steps: a call cut short by a crash. */
  function Advance(f: Files, s: Submission, pc: Pc, steps: nat): (Files, Pc)
    decreases steps
  {
    if steps == 0 || pc.Done? then (f, pc)
    else var next := Step(f, s, pc); Advance(next.0, s, next.1, steps - 1)
  }

  /** A submission left to itself until it returns. */
  function Finish(f: Files, s: Submission, pc: Pc): (Files, Outcome)
    decreases Remaining(pc)
  {
    match pc
    case Done(outcome) => (f, outcome)
    case _ => var next := Step(f, s, pc); Finish(next.0, s, next.1)
  }

  /** `submit`, alone: refused by the receiver's configuration or run to its end. */
  function Submit(config: Config, f: Files, s: Submission): (Files, Outcome) {
    if s.delivery == "" then (f, Failed(DeliveryIdInvalid))
    else match Objection(config, s.event, s.payload)
      case Some(code) => (f, Failed(code))
      case None => Finish(f, s, CheckIndex)
  }

  lemma StepLowers(f: Files, s: Submission, pc: Pc)
    requires !pc.Done?
    ensures Remaining(Step(f, s, pc).1) < Remaining(pc)
  {
  }

  // What the files always say

  /** An event file sits at its own path and its payload was published before it. */
  ghost predicate EventBacked(f: Files, e: Event) {
    && PathOf(e) in f.events && f.events[PathOf(e)] == e
    && e.payloadRef in f.payloads && Sha256(f.payloads[e.payloadRef]) == e.payloadSha
  }

  /** The event is indexed, owns its slot, and its event and payload files are there. */
  ghost predicate Indexed(f: Files, e: Event) {
    && EventBacked(f, e)
    && e.slot in f.sequences && f.sequences[e.slot] == SequenceRecordOf(e)
    && e.id in f.index && f.index[e.id] == IndexRecordOf(e)
  }

  ghost predicate EventFileOk(f: Files, p: EventPath) {
    p in f.events ==> PathOf(f.events[p]) == p && EventBacked(f, f.events[p])
  }

  ghost predicate SequenceFileOk(f: Files, slot: Slot) {
    slot in f.sequences ==>
      var r := f.sequences[slot];
      r.slot == slot && EventBacked(f, r.digest.core) && r == SequenceRecordOf(r.digest.core)
  }

  ghost predicate IndexFileOk(f: Files, id: string) {
    id in f.index ==> f.index[id].digest.core.id == id && Indexed(f, f.index[id].digest.core)
  }

  ghost predicate DuplicateFileOk(f: Files, k: DuplicateKey) {
    k in f.duplicates ==> k.id in f.index && f.duplicates[k] == DuplicateRecord(k, f.index[k.id].digest)
  }

  ghost predicate FilesInv(f: Files) {
    && (forall p {:trigger EventFileOk(f, p)} :: EventFileOk(f, p))
    && (forall slot {:trigger SequenceFileOk(f, slot)} :: SequenceFileOk(f, slot))
    && (forall id {:trigger IndexFileOk(f, id)} :: IndexFileOk(f, id))
    && (forall k {:trigger DuplicateFileOk(f, k)} :: DuplicateFileOk(f, k))
  }

  /** Nothing published in `f` is missing or different in `g`. */
  ghost predicate Extends(f: Files, g: Files) {
    && Kept(f.payloads, g.payloads) && Kept(f.events, g.events) && Kept(f.sequences, g.sequences)
    && Kept(f.index, g.index) && Kept(f.duplicates, g.duplicates) && f.quarantine <= g.quarantine
  }

  /** What a submission at `pc` has already secured. */
  ghost predicate PcInv(f: Files, s: Submission, pc: Pc) {
    var e := s.event;
    && (Sha256(s.payload) == e.payloadSha || (pc.Done? && pc.outcome.Failed?))
    && match pc
       case CheckEvent => e.payloadRef in f.payloads && f.payloads[e.payloadRef] == s.payload
       case PublishEvent => e.payloadRef in f.payloads && f.payloads[e.payloadRef] == s.payload
       case RecheckSequence(_) => EventBacked(f, e)
       case PublishSequence(_) => EventBacked(f, e)
       case RecheckIndex(_) => EventBacked(f, e) && e.slot in f.sequences && f.sequences[e.slot] == SequenceRecordOf(e)
       case PublishIndex(_) => EventBacked(f, e) && e.slot in f.sequences && f.sequences[e.slot] == SequenceRecordOf(e)
       case CheckDuplicate => Indexed(f, e)
       case PublishDuplicate => Indexed(f, e)
       case Done(Created) => Indexed(f, e)
       case Done(Duplicate) =>
         var record := DuplicateRecordOf(s);
         Indexed(f, e) && record.key in f.duplicates && f.duplicates[record.key] == record
       case _ => true
  }

  lemma PcInvStable(f: Files, g: Files, s: Submission, pc: Pc)
    requires Extends(f, g) && PcInv(f, s, pc)
    ensures PcInv(g, s, pc)
  {
  }

  // A step adds at most one file, disturbs nothing, and secures what the next step needs

  lemma PublishExtends(f: Files, s: Submission, pc: Pc)
    requires Publishes(pc)
    ensures Extends(f, Publish(f, s, pc).0)
  {
    hide Kept;
    KeptPut(f.payloads, s.event.payloadRef, s.payload);
    KeptPut(f.events, PathOf(s.event), s.event);
    KeptPut(f.sequences, s.event.slot, SequenceRecordOf(s.event));
    KeptPut(f.index, s.event.id, IndexRecordOf(s.event));
    KeptPut(f.duplicates, DuplicateRecordOf(s).key, DuplicateRecordOf(s));
  }

  // File by file, what the store says survives a publication

  lemma EventFileStaysOk(f: Files, s: Submission, pc: Pc, p: EventPath)
    requires Publishes(pc) && EventFileOk(f, p) && PcInv(f, s, pc)
    ensures EventFileOk(Publish(f, s, pc).0, p)
  {
    PublishExtends(f, s, pc);
  }

  lemma SequenceFileStaysOk(f: Files, s: Submission, pc: Pc, slot: Slot)
    requires Publishes(pc) && SequenceFileOk(f, slot) && PcInv(f, s, pc)
    ensures SequenceFileOk(Publish(f, s, pc).0, slot)
  {
    PublishExtends(f, s, pc);
  }

  lemma IndexFileStaysOk(f: Files, s: Submission, pc: Pc, id: string)
    requires Publishes(pc) && IndexFileOk(f, id) && PcInv(f, s, pc)
    ensures IndexFileOk(Publish(f, s, pc).0, id)
  {
    PublishExtends(f, s, pc);
  }

  lemma DuplicateFileStaysOk(f: Files, s: Submission, pc: Pc, k: DuplicateKey)
    requires Publishes(pc) && DuplicateFileOk(f, k) && PcInv(f, s, pc)
    ensures DuplicateFileOk(Publish(f, s, pc).0, k)
  {
    PublishExtends(f, s, pc);
  }

  lemma PublishKeepsFiles(f: Files, s: Submission, pc: Pc)
    requires Publishes(pc) && FilesInv(f) && PcInv(f, s, pc)
    ensures FilesInv(Publish(f, s, pc).0)
  {
    hide EventFileOk, SequenceFileOk, IndexFileOk, DuplicateFileOk, PcInv;
    var g := Publish(f, s, pc).0;
    forall p ensures EventFileOk(g, p) { assert EventFileOk(f, p); EventFileStaysOk(f, s, pc, p); }
    forall slot ensures SequenceFileOk(g, slot) { assert SequenceFileOk(f, slot); SequenceFileStaysOk(f, s, pc, slot); }
    forall id ensures IndexFileOk(g, id) { assert IndexFileOk(f, id); IndexFileStaysOk(f, s, pc, id); }
    forall k ensures DuplicateFileOk(g, k) { assert DuplicateFileOk(f, k); DuplicateFileStaysOk(f, s, pc, k); }
  }

  lemma PublishSecures(f: Files, s: Submission, pc: Pc)
    requires Publishes(pc) && PcInv(f, s, pc)
    ensures PcInv(Publish(f, s, pc).0, s, Publish(f, s, pc).1)
  {
    match pc
    case PublishPayload =>
    case PublishEvent =>
    case PublishSequence(_) =>
    case PublishIndex(_) =>
    case PublishDuplicate =>
    case PublishQuarantine(_) =>
  }

  lemma CheckSecures(f: Files, s: Submission, pc: Pc)
    requires !pc.Done? && !Publishes(pc) && PcInv(f, s, pc) && FilesInv(f)
    ensures PcInv(f, s, Check(f, s, pc))
  {
    assert IndexFileOk(f, s.event.id);
    match pc
    case CheckIndex =>
    case CheckSequence =>
    case CheckPayload =>
    case CheckEvent =>
    case RecheckSequence(_) =>
    case RecheckIndex(_) =>
    case CheckDuplicate =>
    case CheckQuarantine(_) =>
  }

  lemma StepKeepsInv(f: Files, s: Submission, pc: Pc)
    requires !pc.Done? && FilesInv(f) && PcInv(f, s, pc)
    ensures var next := Step(f, s, pc);
            Extends(f, next.0) && FilesInv(next.0) && PcInv(next.0, s, next.1)
  {
    if Publishes(pc) {
      PublishExtends(f, s, pc);
      PublishKeepsFiles(f, s, pc);
      PublishSecures(f, s, pc);
    } else {
      CheckSecures(f, s, pc);
    }
  }
}
