/** One store instance used by one caller at a time: `submit`, `get_event` and `events`. */
module FederationStores {
  import opened Prelude
  import opened Ordering
  import opened Events
  import opened SubmitProtocol
  import opened SubmitRuns
  import opened Causal

  /** What an importer says about itself and about the parents it knows to be absent. */
  datatype Observer = Observer(id: string, claims: string, advertised: set<string>)

  datatype ImportStatus = Imported | DuplicateImport | PendingImport

  datatype ObservationKey = ObservationKey(eventId: string, observerId: string)

  datatype Observation = Observation(
    key: ObservationKey, digest: CoreDigest, claims: string, status: ImportStatus, missing: seq<string>)

  datatype ConflictClass =
    | ContentCollision
    | CausalHistoryConflict
    | AuthorityConflict
    | IdentityReferenceConflict
    | StateTransitionConflict
    | FieldValueConflict
    | ConcurrentNonexclusive

  /** The hashed part of a conflict record; its hash is the conflict id. */
  datatype ConflictCore = ConflictCore(
    class_: ConflictClass, subject: string, members: seq<string>, digests: seq<CoreDigest>)

  datatype ConflictId = ConflictId(core: ConflictCore)

  datatype ConflictRecord = ConflictRecord(id: ConflictId, core: ConflictCore)

  datatype ResolutionKey = ResolutionKey(conflict: ConflictId, eventId: string)

  datatype ResolutionRecord = ResolutionRecord(
    key: ResolutionKey, digest: CoreDigest, authority: Option<string>, evidence: Option<string>,
    members: set<string>, selected: string)

  datatype StoreState = StoreState(
    files: Files,
    observations: map<ObservationKey, Observation>,
    conflicts: map<ConflictId, ConflictRecord>,
    resolutions: map<ResolutionKey, ResolutionRecord>)

  const EMPTY_STORE := StoreState(NO_FILES, map[], map[], map[])

  // The events a store holds

  ghost function Stored(f: Files): set<Event> {
    set id | id in f.index :: f.index[id].digest.core
  }

  lemma StoredIsWhatGetEventReads(f: Files)
    requires FilesInv(f)
    ensures Ids(Stored(f)) == f.index.Keys && IdsUnique(Stored(f)) && SlotsUnique(Stored(f))
    ensures forall id | id in f.index :: GetEvent(f, id) == Ok(f.index[id].digest.core)
    ensures forall id | id !in f.index :: GetEvent(f, id) == Err(EventNotFound)
    ensures forall e | e in Stored(f) :: e.id in f.index && Indexed(f, e) && f.index[e.id].digest.core == e
  {
    forall id | id in f.index
      ensures f.index[id].digest.core.id == id && GetEvent(f, id) == Ok(f.index[id].digest.core)
        && Indexed(f, f.index[id].digest.core)
    {
      assert IndexFileOk(f, id);
    }
    forall id | id in f.index ensures id in Ids(Stored(f)) { assert f.index[id].digest.core in Stored(f); }
  }

  /** The key `events()` sorts by. */
  predicate EventLess(a: Event, b: Event) {
    || TextLess(a.realmId, b.realmId)
    || (a.realmId == b.realmId &&
        (|| TextLess(a.slot.replicaId, b.slot.replicaId)
         || (a.slot.replicaId == b.slot.replicaId &&
             (|| TextLess(a.slot.generation, b.slot.generation)
              || (a.slot.generation == b.slot.generation &&
                  (a.slot.seqNo < b.slot.seqNo || (a.slot.seqNo == b.slot.seqNo && TextLess(a.id, b.id))))))))
  }

  lemma EventLessTransitive(a: Event, b: Event, c: Event)
    requires EventLess(a, b) && EventLess(b, c)
    ensures EventLess(a, c)
  {
    if TextLess(a.realmId, b.realmId) && TextLess(b.realmId, c.realmId) {
      TextLessTransitive(a.realmId, b.realmId, c.realmId);
    }
    if TextLess(a.slot.replicaId, b.slot.replicaId) && TextLess(b.slot.replicaId, c.slot.replicaId) {
      TextLessTransitive(a.slot.replicaId, b.slot.replicaId, c.slot.replicaId);
    }
    if TextLess(a.slot.generation, b.slot.generation) && TextLess(b.slot.generation, c.slot.generation) {
      TextLessTransitive(a.slot.generation, b.slot.generation, c.slot.generation);
    }
    if TextLess(a.id, b.id) && TextLess(b.id, c.id) { TextLessTransitive(a.id, b.id, c.id); }
  }

  lemma EventLessIrreflexive(a: Event)
    ensures !EventLess(a, a)
  {
    TextLessIrreflexive(a.realmId);
    TextLessIrreflexive(a.slot.replicaId);
    TextLessIrreflexive(a.slot.generation);
    TextLessIrreflexive(a.id);
  }

  lemma EventLessTotal(a: Event, b: Event)
    ensures a.id == b.id || EventLess(a, b) || EventLess(b, a)
  {
    TextLessTotal(a.realmId, b.realmId);
    TextLessTotal(a.slot.replicaId, b.slot.replicaId);
    TextLessTotal(a.slot.generation, b.slot.generation);
    TextLessTotal(a.id, b.id);
  }

  lemma EventOrderTotal(events: set<Event>)
    requires IdsUnique(events)
    ensures StrictTotalOn(EventLess, events)
  {
    forall a | a in events ensures !EventLess(a, a) { EventLessIrreflexive(a); }
    forall a, b | a in events && b in events ensures a == b || EventLess(a, b) || EventLess(b, a) {
      EventLessTotal(a, b);
    }
    forall a, b, c | a in events && b in events && c in events && EventLess(a, b) && EventLess(b, c)
      ensures EventLess(a, c) {
      EventLessTransitive(a, b, c);
    }
  }

  /** The result of `events()`: a function of the set of stored events alone. */
  ghost function Listing(events: set<Event>): (s: seq<Event>)
    requires IdsUnique(events)
    ensures Lists(EventLess, s, events) && EventsIn(s) == events
  {
    EventOrderTotal(events);
    Sorted(EventLess, events)
  }

  lemma ListingIdsDistinct(events: set<Event>)
    requires IdsUnique(events)
    ensures var s := Listing(events); forall i, j | 0 <= i < j < |s| :: s[i].id != s[j].id
  {
    var s := Listing(events);
    forall i, j | 0 <= i < j < |s| ensures s[i].id != s[j].id {
      assert s[i] in s && s[j] in s && EventLess(s[i], s[j]);
      EventLessIrreflexive(s[i]);
    }
  }

  /** Events are listed by realm, then replica, then generation; those of one log in the order of its sequence
    numbers. */
  lemma ListingGoesBy(events: set<Event>, i: nat, j: nat)
    requires IdsUnique(events) && i < j < |Listing(events)|
    ensures var a, b := Listing(events)[i], Listing(events)[j];
      && !TextLess(b.realmId, a.realmId)
      && (a.realmId == b.realmId ==> !TextLess(b.slot.replicaId, a.slot.replicaId))
      && (a.realmId == b.realmId && a.slot.replicaId == b.slot.replicaId ==>
            !TextLess(b.slot.generation, a.slot.generation))
      && (a.realmId == b.realmId && a.slot.replicaId == b.slot.replicaId && a.slot.generation == b.slot.generation ==>
            a.slot.seqNo < b.slot.seqNo || (a.slot.seqNo == b.slot.seqNo && TextLess(a.id, b.id)))
  {
    var a, b := Listing(events)[i], Listing(events)[j];
    hide Listing, TextLess;
    assert EventLess(a, b);
    TextLessNotBoth(a.realmId, b.realmId);
    TextLessNotBoth(a.slot.replicaId, b.slot.replicaId);
    TextLessNotBoth(a.slot.generation, b.slot.generation);
  }

  lemma TextLessNotBoth(a: string, b: string)
    ensures !(TextLess(a, b) && TextLess(b, a)) && !TextLess(a, a)
  {
    TextLessIrreflexive(a);
    if TextLess(a, b) && TextLess(b, a) { TextLessTransitive(a, b, a); }
  }

  class FederationStore {
    const config: Config
    var payloads: map<string, Payload>
    var events: map<EventPath, Event>
    var sequences: map<Slot, SequenceRecord>
    var index: map<string, IndexRecord>
    var duplicates: map<DuplicateKey, DuplicateRecord>
    var quarantine: set<QuarantineRecord>
    var observations: map<ObservationKey, Observation>
    var conflicts: map<ConflictId, ConflictRecord>
    var resolutions: map<ResolutionKey, ResolutionRecord>

    constructor (config: Config)
      ensures this.config == config && State() == EMPTY_STORE && Valid()
    {
      this.config := config;
      payloads, events, sequences, index, duplicates, quarantine := map[], map[], map[], map[], map[], {};
      observations, conflicts, resolutions := map[], map[], map[];
    }

    function Snapshot(): Files
      reads this
    {
      Files(payloads, events, sequences, index, duplicates, quarantine)
    }

    function State(): StoreState
      reads this
    {
      StoreState(Snapshot(), observations, conflicts, resolutions)
    }

    ghost predicate Valid()
      reads this
    {
      FilesInv(Snapshot())
    }

    /** `_quarantine` */
    method Quarantine(s: Submission, record: QuarantineRecord) returns (outcome: Outcome)
      modifies this`quarantine
      ensures (Snapshot(), outcome) == Finish(old(Snapshot()), s, CheckQuarantine(record))
      ensures outcome == Failed(record.code) && quarantine == old(quarantine) + {record}
    {
      if record !in quarantine {
        assert Finish(Snapshot(), s, CheckQuarantine(record)) == Finish(Snapshot(), s, PublishQuarantine(record));
        quarantine := quarantine + {record};
        assert Finish(old(Snapshot()), s, PublishQuarantine(record)) == (Snapshot(), Failed(record.code));
      }
      assert quarantine == old(quarantine) + {record};
      return Failed(record.code);
    }

    /** `_record_duplicate` */
    method RecordDuplicate(s: Submission) returns (outcome: Outcome)
      modifies this`duplicates
      ensures (Snapshot(), outcome) == Finish(old(Snapshot()), s, CheckDuplicate)
    {
      var record := DuplicateRecordOf(s);
      if record.key !in duplicates {
        duplicates := duplicates[record.key := record];
      } else if duplicates[record.key] != record {
        return Failed(DuplicateContentCollision);
      }
      return Duplicate;
    }

    /** The payload file: published unless the same bytes are already there. */
    method KeepPayload(s: Submission) returns (refusal: Option<Outcome>)
      modifies this`payloads
      ensures refusal.Some? ==> (Snapshot(), refusal.value) == Finish(old(Snapshot()), s, CheckPayload)
      ensures refusal.None? ==> Finish(Snapshot(), s, CheckEvent) == Finish(old(Snapshot()), s, CheckPayload)
    {
      var ref := s.event.payloadRef;
      if ref in payloads {
        if payloads[ref] != s.payload { return Some(Failed(PayloadIntegrityFailed)); }
      } else {
        payloads := payloads[ref := s.payload];
      }
      return None;
    }

    /** The event file; `created` tells whether this call published it. */
    method KeepEvent(s: Submission) returns (refusal: Option<Outcome>, created: bool)
      modifies this`events, this`quarantine
      ensures refusal.Some? ==> (Snapshot(), refusal.value) == Finish(old(Snapshot()), s, CheckEvent)
      ensures refusal.None? ==>
        Finish(Snapshot(), s, RecheckSequence(created)) == Finish(old(Snapshot()), s, CheckEvent)
    {
      var e := s.event;
      created := false;
      if PathOf(e) in events {
        var existing := events[PathOf(e)];
        if existing != e {
          var outcome := Quarantine(s, QuarantineRecord(EventContentCollision, e.id, CoreDigest(e), Some(existing.id),
                                                        None));
          return Some(outcome), false;
        }
      } else {
        events := events[PathOf(e) := e];
        created := true;
      }
      return None, created;
    }

    /** The sequence record, owned by one event for ever. */
    method KeepSequence(s: Submission, created: bool) returns (refusal: Option<Outcome>)
      modifies this`sequences, this`quarantine
      ensures refusal.Some? ==> (Snapshot(), refusal.value) == Finish(old(Snapshot()), s, RecheckSequence(created))
      ensures refusal.None? ==>
        Finish(Snapshot(), s, RecheckIndex(created)) == Finish(old(Snapshot()), s, RecheckSequence(created))
    {
      var e := s.event;
      if e.slot in sequences {
        var owner := sequences[e.slot];
        if owner != SequenceRecordOf(e) {
          var outcome := Quarantine(s, QuarantineRecord(ReplicaSequenceCollision, e.id, CoreDigest(e), Some(owner.id),
                                                        Some(owner.digest)));
          return Some(outcome);
        }
      } else {
        sequences := sequences[e.slot := SequenceRecordOf(e)];
      }
      return None;
    }

    /** The index record, which makes the event visible, and the call's result. */
    method KeepIndex(s: Submission, created: bool) returns (outcome: Outcome)
      modifies this`index, this`quarantine, this`duplicates
      ensures (Snapshot(), outcome) == Finish(old(Snapshot()), s, RecheckIndex(created))
    {
      var e := s.event;
      if e.id in index {
        var existing := index[e.id];
        if existing != IndexRecordOf(e) {
          outcome := Quarantine(s, QuarantineRecord(EventContentCollision, e.id, CoreDigest(e), Some(existing.id),
                                                    Some(existing.digest)));
          return;
        }
      } else {
        assert Finish(Snapshot(), s, RecheckIndex(created)) == Finish(Snapshot(), s, PublishIndex(created));
        index := index[e.id := IndexRecordOf(e)];
        assert Finish(old(Snapshot()), s, PublishIndex(created)) == Finish(Snapshot(), s, AfterIndex(created));
      }
      if !created {
        outcome := RecordDuplicate(s);
        return;
      }
      return Created;
    }

    /** `submit` */
    method SubmitEvent(s: Submission) returns (outcome: Outcome)
      modifies this`payloads, this`events, this`sequences, this`index, this`duplicates, this`quarantine
      ensures (Snapshot(), outcome) == Submit(config, old(Snapshot()), s)
      ensures old(Valid()) ==> Valid() && Extends(old(Snapshot()), Snapshot())
    {
      var e := s.event;
      if s.delivery == "" { return Failed(DeliveryIdInvalid); }
      var objection := Objection(config, e, s.payload);
      if objection.Some? { return Failed(objection.value); }
      ghost var goal := Finish(Snapshot(), s, CheckIndex);
      if FilesInv(Snapshot()) { FinishKeepsInv(Snapshot(), s, CheckIndex); }
      hide FilesInv, Extends, PcInv;
      if e.id in index {
        var existing := index[e.id];
        if existing.digest != CoreDigest(e) {
          outcome := Quarantine(s, QuarantineRecord(EventContentCollision, e.id, CoreDigest(e), Some(existing.id),
                                                    Some(existing.digest)));
          return;
        }
        var stored := GetEvent(Snapshot(), e.id);
        if stored.Err? { return Failed(stored.error); }
        if stored.value != e || e.payloadRef !in payloads || payloads[e.payloadRef] != s.payload {
          return Failed(StoredEventIntegrityFailed);
        }
        outcome := RecordDuplicate(s);
        return;
      }
      if e.slot in sequences {
        var owner := sequences[e.slot];
        if owner.id != e.id || owner.digest != CoreDigest(e) {
          outcome := Quarantine(s, QuarantineRecord(ReplicaSequenceCollision, e.id, CoreDigest(e), Some(owner.id),
                                                    Some(owner.digest)));
          return;
        }
      }
      assert Finish(Snapshot(), s, CheckPayload) == goal;
      var refusal := KeepPayload(s);
      if refusal.Some? { return refusal.value; }
      var created;
      refusal, created := KeepEvent(s);
      if refusal.Some? { return refusal.value; }
      refusal := KeepSequence(s, created);
      if refusal.Some? { return refusal.value; }
      outcome := KeepIndex(s, created);
    }

    /** Reads every indexed event, whatever order the index directory is enumerated in. */
    method ReadAll() returns (found: set<Event>)
      requires Valid()
      ensures found == Stored(Snapshot())
    {
      var files := Snapshot();
      StoredIsWhatGetEventReads(files);
      hide FilesInv, Indexed, GetEvent;
      found := {};
      var rest := files.index.Keys;
      while rest != {}
        invariant rest <= files.index.Keys && found <= Stored(files)
        invariant forall id | id in files.index.Keys - rest :: files.index[id].digest.core in found
        decreases rest
      {
        var id :| id in rest;
        var event := GetEvent(files, id);
        found, rest := found + {event.value}, rest - {id};
      }
      forall e | e in Stored(files) ensures e in found {}
    }

    /** `events()` */
    method ListEvents() returns (listed: seq<Event>)
      requires Valid()
      ensures IdsUnique(Stored(Snapshot())) && listed == Listing(Stored(Snapshot()))
    {
      StoredIsWhatGetEventReads(Snapshot());
      EventOrderTotal(Stored(Snapshot()));
      hide FilesInv, Indexed, GetEvent, StrictTotalOn, EventLess;
      var found := ReadAll();
      listed := Sort(found, EventLess);
    }
  }
}
