/** What a submission or an import comes to when it runs alone, from whatever files earlier calls left. */
module SubmissionResults {
  import opened Prelude
  import opened Ordering
  import opened Events
  import opened SubmitProtocol
  import opened SubmitRuns
  import opened Causal
  import opened FederationStores
  import opened Importer
  import opened SequenceOrphans

  /** Why a receiver's configuration refuses an event with this payload, in the order it is asked. */
  function Obstacle(config: Config, e: Event, payload: Payload): Option<Code> {
    var suffix := match e.mediaType case ApplicationJson => ".json" case TextMarkdown => ".md" case TextPlain => ".txt";
    var ends := |e.payloadRef| >= |suffix| && e.payloadRef[|e.payloadRef| - |suffix|..] == suffix;
    var spoken := e.authority.Some? && e.authority.value in config.allowedAuthorities;
    if |payload.raw| > config.maxPayloadBytes then Some(PayloadTooLarge)
    else if !payload.isText then Some(PayloadBinaryUnsupported)
    else if e.payloadSha.preimage != payload then Some(PayloadIntegrityFailed)
    else if !ends then Some(PayloadMediaMismatch)
    else if e.kind !in config.allowedKinds then Some(EventKindNotAllowed)
    else if !spoken && (e.authority.Some? || e.kind in config.authorityKinds) then Some(AuthorityNotAllowed)
    else None
  }

  lemma ObstacleIs(config: Config, e: Event, payload: Payload)
    ensures Objection(config, e, payload) == Obstacle(config, e, payload)
  {
  }

  function Quarantined(f: Files, record: QuarantineRecord): Files { f.(quarantine := f.quarantine + {record}) }

  /** The four files of an event, published; a duplicate record besides where another call had published the event. */
  function Stored4(f: Files, s: Submission): Files {
    var e := s.event;
    var path, digest := EventPath(e.slot, e.id), CoreDigest(e);
    var key := DuplicateKey(e.id, s.delivery);
    f.(payloads := f.payloads[e.payloadRef := s.payload],
       events := f.events[path := e],
       sequences := f.sequences[e.slot := SequenceRecord(e.slot, e.id, digest, path)],
       index := f.index[e.id := IndexRecord(e.id, digest, path, e.payloadRef, e.payloadSha)],
       duplicates := if path in f.events then f.duplicates[key := DuplicateRecord(key, digest)] else f.duplicates)
  }

  /** An admitted submission alone: the same event stored is a duplicate; another under its id, or in its slot, or at
    its path, is a collision and quarantined with what is known of the other; another payload at its reference is a
    broken payload; and otherwise all its files are there. */
  lemma SubmitIs(config: Config, f: Files, s: Submission)
    requires FilesInv(f)
    ensures var e := s.event;
      var end, digest, path := Submit(config, f, s), CoreDigest(e), EventPath(e.slot, e.id);
      if s.delivery == "" then end == (f, Failed(DeliveryIdInvalid))
      else if Obstacle(config, e, s.payload).Some? then end == (f, Failed(Obstacle(config, e, s.payload).value))
      else if e.id in f.index && f.index[e.id].digest == digest then
        var key := DuplicateKey(e.id, s.delivery);
        end == (f.(duplicates := f.duplicates[key := DuplicateRecord(key, digest)]), Duplicate)
      else if e.id in f.index then
        var record := QuarantineRecord(EventContentCollision, e.id, digest, Some(e.id), Some(f.index[e.id].digest));
        end == (Quarantined(f, record), Failed(EventContentCollision))
      else if e.slot in f.sequences && f.sequences[e.slot].digest != digest then
        var owner := f.sequences[e.slot];
        var record := QuarantineRecord(ReplicaSequenceCollision, e.id, digest, Some(owner.id), Some(owner.digest));
        end == (Quarantined(f, record), Failed(ReplicaSequenceCollision))
      else if e.payloadRef in f.payloads && f.payloads[e.payloadRef] != s.payload then
        end == (f, Failed(PayloadIntegrityFailed))
      else if path in f.events && f.events[path] != e then
        var record := QuarantineRecord(EventContentCollision, e.id, digest, Some(e.id), None);
        end == (Quarantined(f.(payloads := f.payloads[e.payloadRef := s.payload]), record),
                Failed(EventContentCollision))
      else end == (Stored4(f, s), if path in f.events then Duplicate else Created)
  {
    hide FilesInv, Finish, Objection, Obstacle, Check, Publish, Stored4;
    ObstacleIs(config, s.event, s.payload);
    if s.delivery != "" && Obstacle(config, s.event, s.payload).None? {
      HashIs(config, s);
      if s.event.id in f.index { IndexedIs(f, s); } else { UnindexedIs(f, s); }
    }
  }

  lemma HashIs(config: Config, s: Submission)
    requires Obstacle(config, s.event, s.payload).None?
    ensures Sha256(s.payload) == s.event.payloadSha
  {
  }

  lemma QuarantineIs(f: Files, s: Submission, record: QuarantineRecord)
    ensures Finish(f, s, CheckQuarantine(record)) == (Quarantined(f, record), Failed(record.code))
  {
    hide Finish;
    Unfold(f, s, CheckQuarantine(record));
    Unfold(f, s, PublishQuarantine(record));
    DoneIs(f, s, Failed(record.code));
    DoneIs(Quarantined(f, record), s, Failed(record.code));
    assert record in f.quarantine ==> f.quarantine + {record} == f.quarantine;
  }

  lemma DoneIs(f: Files, s: Submission, outcome: Outcome)
    ensures Finish(f, s, Done(outcome)) == (f, outcome)
  {
  }

  lemma DuplicateIs(f: Files, s: Submission)
    requires FilesInv(f) && s.event.id in f.index && f.index[s.event.id].digest == CoreDigest(s.event)
    ensures var key := DuplicateKey(s.event.id, s.delivery);
      Finish(f, s, CheckDuplicate) ==
        (f.(duplicates := f.duplicates[key := DuplicateRecord(key, CoreDigest(s.event))]), Duplicate)
  {
    hide Finish;
    var record := DuplicateRecordOf(s);
    assert DuplicateFileOk(f, record.key);
    Unfold(f, s, CheckDuplicate);
    Unfold(f, s, PublishDuplicate);
    DoneIs(f, s, Duplicate);
    DoneIs(f.(duplicates := f.duplicates[record.key := record]), s, Duplicate);
    assert record.key in f.duplicates ==> f.duplicates[record.key := record] == f.duplicates;
  }

  lemma IndexedIs(f: Files, s: Submission)
    requires FilesInv(f) && s.event.id in f.index && Sha256(s.payload) == s.event.payloadSha
    ensures var e := s.event;
      var digest, key := CoreDigest(e), DuplicateKey(e.id, s.delivery);
      Finish(f, s, CheckIndex) ==
        if f.index[e.id].digest == digest then
          (f.(duplicates := f.duplicates[key := DuplicateRecord(key, digest)]), Duplicate)
        else
          (Quarantined(f, QuarantineRecord(EventContentCollision, e.id, digest, Some(e.id),
                                           Some(f.index[e.id].digest))),
           Failed(EventContentCollision))
  {
    hide Finish, Quarantined;
    var e := s.event;
    assert IndexFileOk(f, e.id);
    Unfold(f, s, CheckIndex);
    if f.index[e.id].digest == CoreDigest(e) {
      DuplicateIs(f, s);
    } else {
      var record := QuarantineRecord(EventContentCollision, e.id, CoreDigest(e), Some(e.id),
                                     Some(f.index[e.id].digest));
      QuarantineIs(f, s, record);
    }
  }

  /** From the event file on, with the index still free. */
  lemma RecordsAre(f: Files, s: Submission, created: bool)
    requires var e := s.event;
      && e.id !in f.index && DuplicateKey(e.id, s.delivery) !in f.duplicates
      && (e.slot in f.sequences ==> f.sequences[e.slot] == SequenceRecordOf(e))
    ensures var e := s.event;
      var path, digest, key := EventPath(e.slot, e.id), CoreDigest(e), DuplicateKey(e.id, s.delivery);
      var g := f.(sequences := f.sequences[e.slot := SequenceRecord(e.slot, e.id, digest, path)],
                  index := f.index[e.id := IndexRecord(e.id, digest, path, e.payloadRef, e.payloadSha)]);
      Finish(f, s, RecheckSequence(created)) ==
        if created then (g, Created)
        else (g.(duplicates := f.duplicates[key := DuplicateRecord(key, digest)]), Duplicate)
  {
    hide Finish, GetEvent;
    var e := s.event;
    var g := f.(sequences := f.sequences[e.slot := SequenceRecordOf(e)]);
    assert e.slot in f.sequences ==> g == f;
    Unfold(f, s, RecheckSequence(created));
    Unfold(f, s, PublishSequence(created));
    IndexIs(g, s, created);
  }

  /** From the sequence record on. */
  lemma IndexIs(f: Files, s: Submission, created: bool)
    requires s.event.id !in f.index && DuplicateKey(s.event.id, s.delivery) !in f.duplicates
    ensures var e := s.event;
      var key := DuplicateKey(e.id, s.delivery);
      var g := f.(index := f.index[e.id := IndexRecord(e.id, CoreDigest(e), EventPath(e.slot, e.id), e.payloadRef,
                                                       e.payloadSha)]);
      Finish(f, s, RecheckIndex(created)) ==
        if created then (g, Created)
        else (g.(duplicates := f.duplicates[key := DuplicateRecord(key, CoreDigest(e))]), Duplicate)
  {
    hide Finish, GetEvent;
    var e, record := s.event, DuplicateRecordOf(s);
    var g := f.(index := f.index[e.id := IndexRecordOf(e)]);
    Unfold(f, s, RecheckIndex(created));
    Unfold(f, s, PublishIndex(created));
    if created {
      DoneIs(g, s, Created);
    } else {
      Unfold(g, s, CheckDuplicate);
      Unfold(g, s, PublishDuplicate);
      DoneIs(g.(duplicates := g.duplicates[record.key := record]), s, Duplicate);
    }
  }

  /** From the payload file on. */
  lemma EventIs(f: Files, s: Submission)
    requires var e := s.event;
      && e.id !in f.index && DuplicateKey(e.id, s.delivery) !in f.duplicates
      && (e.slot in f.sequences ==> f.sequences[e.slot] == SequenceRecordOf(e))
      && e.payloadRef in f.payloads && f.payloads[e.payloadRef] == s.payload
      && (PathOf(e) in f.events ==> f.events[PathOf(e)].id == e.id)
    ensures var e := s.event;
      var path := EventPath(e.slot, e.id);
      Finish(f, s, CheckEvent) ==
        if path in f.events && f.events[path] != e then
          (Quarantined(f, QuarantineRecord(EventContentCollision, e.id, CoreDigest(e), Some(e.id), None)),
           Failed(EventContentCollision))
        else (Stored4(f, s), if path in f.events then Duplicate else Created)
  {
    hide Finish, GetEvent;
    var e := s.event;
    var g := f.(events := f.events[PathOf(e) := e]);
    assert f.payloads[e.payloadRef := s.payload] == f.payloads;
    assert PathOf(e) in f.events && f.events[PathOf(e)] == e ==> g == f;
    Unfold(f, s, CheckEvent);
    Unfold(f, s, PublishEvent);
    QuarantineIs(f, s, QuarantineRecord(EventContentCollision, e.id, CoreDigest(e), Some(e.id), None));
    RecordsAre(g, s, PathOf(e) !in f.events);
  }

  /** What the files say of an event whose id is not indexed. */
  lemma UnindexedFiles(f: Files, e: Event, delivery: string)
    requires FilesInv(f) && e.id !in f.index
    ensures DuplicateKey(e.id, delivery) !in f.duplicates
    ensures e.slot in f.sequences ==>
      var owner := f.sequences[e.slot];
      && owner.id == owner.digest.core.id && (owner.digest == CoreDigest(e) <==> owner == SequenceRecordOf(e))
    ensures PathOf(e) in f.events ==> f.events[PathOf(e)].id == e.id
  {
    assert DuplicateFileOk(f, DuplicateKey(e.id, delivery)) && SequenceFileOk(f, e.slot) && EventFileOk(f, PathOf(e));
  }

  lemma UnindexedIs(f: Files, s: Submission)
    requires FilesInv(f) && s.event.id !in f.index && Sha256(s.payload) == s.event.payloadSha
    ensures var e := s.event;
      var digest, path, end := CoreDigest(e), EventPath(e.slot, e.id), Finish(f, s, CheckIndex);
      if e.slot in f.sequences && f.sequences[e.slot].digest != digest then
        var owner := f.sequences[e.slot];
        var record := QuarantineRecord(ReplicaSequenceCollision, e.id, digest, Some(owner.id), Some(owner.digest));
        end == (Quarantined(f, record), Failed(ReplicaSequenceCollision))
      else if e.payloadRef in f.payloads && f.payloads[e.payloadRef] != s.payload then
        end == (f, Failed(PayloadIntegrityFailed))
      else if path in f.events && f.events[path] != e then
        var record := QuarantineRecord(EventContentCollision, e.id, digest, Some(e.id), None);
        end == (Quarantined(f.(payloads := f.payloads[e.payloadRef := s.payload]), record),
                Failed(EventContentCollision))
      else end == (Stored4(f, s), if path in f.events then Duplicate else Created)
  {
    hide Finish, GetEvent, FilesInv, Stored4, Quarantined;
    var e := s.event;
    UnindexedFiles(f, e, s.delivery);
    Unfold(f, s, CheckIndex);
    Unfold(f, s, CheckSequence);
    if e.slot in f.sequences && f.sequences[e.slot].digest != CoreDigest(e) {
      var owner := f.sequences[e.slot];
      var record := QuarantineRecord(ReplicaSequenceCollision, e.id, CoreDigest(e), Some(owner.id), Some(owner.digest));
      QuarantineIs(f, s, record);
    } else {
      PayloadIs(f, s);
    }
  }

  /** From the payload check on. */
  lemma PayloadIs(f: Files, s: Submission)
    requires var e := s.event;
      && e.id !in f.index && DuplicateKey(e.id, s.delivery) !in f.duplicates
      && (e.slot in f.sequences ==> f.sequences[e.slot] == SequenceRecordOf(e))
      && (PathOf(e) in f.events ==> f.events[PathOf(e)].id == e.id)
    ensures var e := s.event;
      var path, end := EventPath(e.slot, e.id), Finish(f, s, CheckPayload);
      if e.payloadRef in f.payloads && f.payloads[e.payloadRef] != s.payload then
        end == (f, Failed(PayloadIntegrityFailed))
      else if path in f.events && f.events[path] != e then
        var record := QuarantineRecord(EventContentCollision, e.id, CoreDigest(e), Some(e.id), None);
        end == (Quarantined(f.(payloads := f.payloads[e.payloadRef := s.payload]), record),
                Failed(EventContentCollision))
      else end == (Stored4(f, s), if path in f.events then Duplicate else Created)
  {
    hide Finish, GetEvent, Quarantined;
    var e := s.event;
    var g := f.(payloads := f.payloads[e.payloadRef := s.payload]);
    Unfold(f, s, CheckPayload);
    Unfold(f, s, PublishPayload);
    DoneIs(f, s, Failed(PayloadIntegrityFailed));
    assert e.payloadRef in f.payloads && f.payloads[e.payloadRef] == s.payload ==> g == f;
    if !(e.payloadRef in f.payloads && f.payloads[e.payloadRef] != s.payload) { EventIs(g, s); }
    assert Stored4(g, s) == Stored4(f, s);
  }

  // Importing

  /** A submission about to publish what a rival has published meanwhile: a rival payload or event file fails it
    without a trace, a rival record of slot or id is a collision and quarantined, and a duplicate or quarantine record
    already there fails it. */
  lemma LostRaceIs(f: Files, s: Submission, pc: Pc)
    ensures var e, end, digest := s.event, Finish(f, s, pc), CoreDigest(s.event);
      var path, key := EventPath(e.slot, e.id), DuplicateKey(e.id, s.delivery);
      && (pc.PublishPayload? && e.payloadRef in f.payloads && f.payloads[e.payloadRef] != s.payload ==>
            end == (f, Failed(PayloadIntegrityFailed)))
      && (pc.PublishEvent? && path in f.events && f.events[path] != e ==> end == (f, Failed(EventContentCollision)))
      && (pc.PublishSequence? && e.slot in f.sequences
            && f.sequences[e.slot] != SequenceRecord(e.slot, e.id, digest, path) ==>
            var owner := f.sequences[e.slot];
            var record := QuarantineRecord(ReplicaSequenceCollision, e.id, digest, Some(owner.id), Some(owner.digest));
            end == (Quarantined(f, record), Failed(ReplicaSequenceCollision)))
      && (pc.PublishIndex? && e.id in f.index
            && f.index[e.id] != IndexRecord(e.id, digest, path, e.payloadRef, e.payloadSha) ==>
            var owner := f.index[e.id];
            var record := QuarantineRecord(EventContentCollision, e.id, digest, Some(owner.id), Some(owner.digest));
            end == (Quarantined(f, record), Failed(EventContentCollision)))
      && (pc.PublishDuplicate? && key in f.duplicates ==> end == (f, Failed(ImmutableFileExists)))
      && (pc.PublishQuarantine? && pc.record in f.quarantine ==> end == (f, Failed(ImmutableFileExists)))
  {
    hide Finish, Quarantined;
    if Publishes(pc) {
      Unfold(f, s, pc);
      var next := Publish(f, s, pc);
      if next.1.Done? { DoneIs(f, s, next.1.outcome); }
      if next.1.CheckQuarantine? { QuarantineIs(f, s, next.1.record); }
    }
  }

  /** Where the rival published the very same, the submission goes on as if it had come later. */
  lemma SamePublishedIs(f: Files, s: Submission, pc: Pc)
    ensures var e, end := s.event, Finish(f, s, pc);
      && (pc.PublishPayload? && e.payloadRef in f.payloads && f.payloads[e.payloadRef] == s.payload ==>
            end == Finish(f, s, CheckPayload))
      && (pc.PublishEvent? && EventPath(e.slot, e.id) in f.events && f.events[EventPath(e.slot, e.id)] == e ==>
            end == Finish(f, s, CheckEvent))
      && (pc.PublishSequence? && e.slot in f.sequences ==> end == Finish(f, s, RecheckSequence(pc.created)))
      && (pc.PublishIndex? && e.id in f.index ==> end == Finish(f, s, RecheckIndex(pc.created)))
  {
    hide Finish;
    if Publishes(pc) {
      Unfold(f, s, pc);
      Unfold(f, s, CheckPayload);
      Unfold(f, s, CheckEvent);
      if pc.PublishSequence? { Unfold(f, s, RecheckSequence(pc.created)); }
      if pc.PublishIndex? { Unfold(f, s, RecheckIndex(pc.created)); }
    }
  }

  /** What is wrong with the graph once the event is added, apart from parents that are missing. */
  ghost function GraphFault(all: set<Event>): Option<Code> {
    if exists a, b :: a in all && b in all && a.id == b.id && a != b then Some(EventContentCollision)
    else if exists a, b :: a in all && b in all && a.slot == b.slot && a.id != b.id then Some(ReplicaSequenceCollision)
    else if !Acyclic(GraphOf(all)) then Some(CausalCycle)
    else None
  }

  /** The parents some event names and none is. */
  ghost function Unknown(all: set<Event>): set<string> {
    set e, p | e in all && p in e.parents && (forall x | x in all :: x.id != p) :: p
  }

  /** What an import leaves in the store once its submission went well, and what it returns. */
  ghost function Observed(st: StoreState, files: Files, event: Event, observer: Observer, status: ImportStatus,
                          missing: seq<string>): (StoreState, Result<ImportResult, Code>)
  {
    var key := ObservationKey(event.id, observer.id);
    var record := Observation(key, CoreDigest(event), observer.claims, status, missing);
    if key in st.observations && st.observations[key] != record then
      (st.(files := files), Err(ObservationContentCollision))
    else
      (st.(files := files, observations := st.observations[key := record]), Ok(ImportResult(status, event.id, missing)))
  }

  /** An import checks the hash, then the graph, quarantining what breaks it under its code, then that every missing
    parent is advertised; it then submits, and records who observed the event, how, and what was missing. */
  lemma ImportIs(config: Config, st: StoreState, event: Event, payload: Payload, observer: Observer)
    requires FilesInv(st.files)
    ensures var all := Stored(st.files) + {event};
      var end, fault, missing := Import(config, st, event, payload, observer), GraphFault(all), Unknown(all);
      if event.payloadSha.preimage != payload then end == (st, Err(PayloadIntegrityFailed))
      else if fault.Some? then
        var record := QuarantineRecord(fault.value, event.id, CoreDigest(event), None, None);
        end == (st.(files := Quarantined(st.files, record)), Err(fault.value))
      else if !(missing <= observer.advertised) then end == (st, Err(MissingParentNotAdvertised))
      else
        var delivery := "import:" + observer.id + ":" + event.id;
        var submitted := Submit(config, st.files, Submission(event, payload, delivery));
        match submitted.1
        case Failed(code) => end == (st.(files := submitted.0), Err(code))
        case Created =>
          end == Observed(st, submitted.0, event, observer, if missing != {} then PendingImport else Imported,
                          SortedText(missing))
        case Duplicate =>
          end == Observed(st, submitted.0, event, observer, if missing != {} then PendingImport else DuplicateImport,
                          SortedText(missing))
  {
    hide FilesInv, Submit, GetEvent, GraphFault, GraphCode, Unknown, MissingAfter, Stored, SortedText, Observe,
      Observed;
    var all := Stored(st.files) + {event};
    FaultIs(all);
    UnknownIs(st.files, event);
    FinishedIsReadable(config, st.files, ImportSubmission(event, payload, observer));
    SortedTextEmpty(Unknown(all));
    forall files, status, missing | GetEvent(files, event.id).Ok?
      ensures Observe(st.(files := files), ObservationOf(event, observer, status, missing),
                      ImportResult(status, event.id, missing)) == Observed(st, files, event, observer, status, missing)
    {
      ObservedIs(st, files, event, observer, status, missing);
    }
  }

  lemma ObservedIs(st: StoreState, files: Files, event: Event, observer: Observer, status: ImportStatus,
                   missing: seq<string>)
    requires GetEvent(files, event.id).Ok?
    ensures Observe(st.(files := files), ObservationOf(event, observer, status, missing),
                    ImportResult(status, event.id, missing)) == Observed(st, files, event, observer, status, missing)
  {
    hide GetEvent;
    var record := ObservationOf(event, observer, status, missing);
    var seen := st.observations;
    assert record.key in seen && seen[record.key] == record ==> seen[record.key := record] == seen;
  }

  lemma FaultIs(all: set<Event>)
    ensures match GraphFault(all)
            case Some(code) => GraphCode(all) == Some(code) && Refusing(GraphCode(all))
            case None => !Refusing(GraphCode(all))
  {
    hide Acyclic;
  }

  lemma UnknownIs(f: Files, event: Event)
    ensures var all := Stored(f) + {event};
      GraphFault(all).None? ==> MissingAfter(f, event) == Unknown(all)
  {
    hide Stored, Acyclic;
    var all := Stored(f) + {event};
    assert Unknown(all) == MissingParents(all) by {
      forall p ensures p in Unknown(all) <==> p in MissingParents(all) {}
    }
  }
}
