/** Sequential imports: the graph is checked before the store is written. */
module Importer {
  import opened Prelude
  import opened Ordering
  import opened Events
  import opened SubmitProtocol
  import opened SubmitRuns
  import opened Causal
  import opened FederationStores

  datatype ImportResult = ImportResult(status: ImportStatus, eventId: string, missing: seq<string>)

  function ImportSubmission(event: Event, payload: Payload, observer: Observer): Submission {
    Submission(event, payload, "import:" + observer.id + ":" + event.id)
  }

  predicate Refusing(code: Option<Code>) {
    code == Some(CausalCycle) || code == Some(ReplicaSequenceCollision) || code == Some(EventContentCollision)
  }

  /** The parents missing from the whole store once the event is added. */
  ghost function MissingAfter(f: Files, event: Event): set<string> {
    var all := Stored(f) + {event};
    if GraphCode(all) == Some(PendingDependencies) then MissingParents(all) else {}
  }

  function StatusOf(missing: seq<string>, outcome: Outcome): ImportStatus {
    if missing != [] then PendingImport else if outcome == Duplicate then DuplicateImport else Imported
  }

  function ObservationOf(event: Event, observer: Observer, status: ImportStatus, missing: seq<string>): Observation {
    Observation(ObservationKey(event.id, observer.id), CoreDigest(event), observer.claims, status, missing)
  }

  /** What `import_event` does to the store, and what it returns. */
  ghost function Import(config: Config, st: StoreState, event: Event, payload: Payload, observer: Observer)
    : (StoreState, Result<ImportResult, Code>)
  {
    var code := GraphCode(Stored(st.files) + {event});
    if Sha256(payload) != event.payloadSha then (st, Err(PayloadIntegrityFailed))
    else if Refusing(code) then
      var record := QuarantineRecord(code.value, event.id, CoreDigest(event), None, None);
      (st.(files := st.files.(quarantine := st.files.quarantine + {record})), Err(code.value))
    else if !(MissingAfter(st.files, event) <= observer.advertised) then (st, Err(MissingParentNotAdvertised))
    else Admit(config, st, event, payload, observer, SortedText(MissingAfter(st.files, event)))
  }

  /** The writing half: submit, then record who observed the event and how. */
  function Admit(config: Config, st: StoreState, event: Event, payload: Payload, observer: Observer,
                 missing: seq<string>)
    : (StoreState, Result<ImportResult, Code>)
  {
    var submitted := Submit(config, st.files, ImportSubmission(event, payload, observer));
    if submitted.1.Failed? then (st.(files := submitted.0), Err(submitted.1.code))
    else
      var status := StatusOf(missing, submitted.1);
      Observe(st.(files := submitted.0), ObservationOf(event, observer, status, missing),
              ImportResult(status, event.id, missing))
  }

  /** `record_observation` */
  function Observe(st: StoreState, record: Observation, done: ImportResult): (StoreState, Result<ImportResult, Code>) {
    match GetEvent(st.files, record.key.eventId)
    case Err(code) => (st, Err(code))
    case Ok(_) =>
      if record.key !in st.observations then (st.(observations := st.observations[record.key := record]), Ok(done))
      else if st.observations[record.key] != record then (st, Err(ObservationContentCollision))
      else (st, Ok(done))
  }

  method SubmitAndObserve(store: FederationStore, event: Event, payload: Payload, observer: Observer,
                          missing: seq<string>)
    returns (r: Result<ImportResult, Code>)
    requires store.Valid()
    modifies store
    ensures store.Valid()
    ensures (store.State(), r) == Admit(store.config, old(store.State()), event, payload, observer, missing)
  {
    hide FilesInv;
    var outcome := store.SubmitEvent(ImportSubmission(event, payload, observer));
    hide Submit, Extends;
    if outcome.Failed? { return Err(outcome.code); }
    var status := StatusOf(missing, outcome);
    var record := ObservationOf(event, observer, status, missing);
    var stored := GetEvent(store.Snapshot(), event.id);
    hide GetEvent;
    if stored.Err? { return Err(stored.error); }
    if record.key in store.observations {
      if store.observations[record.key] != record { return Err(ObservationContentCollision); }
    } else {
      store.observations := store.observations[record.key := record];
    }
    return Ok(ImportResult(status, event.id, missing));
  }

  /** `import_event`, after its bytes were parsed. */
  method ImportEvent(store: FederationStore, event: Event, payload: Payload, observer: Observer)
    returns (r: Result<ImportResult, Code>)
    requires store.Valid()
    modifies store
    ensures store.Valid()
    ensures (store.State(), r) == Import(store.config, old(store.State()), event, payload, observer)
  {
    hide FilesInv, Admit;
    if Sha256(payload) != event.payloadSha { return Err(PayloadIntegrityFailed); }
    var listed := store.ListEvents();
    assert EventsIn(listed + [event]) == Stored(store.Snapshot()) + {event};
    var validation := ValidateGraph(listed + [event]);
    hide Listing, GraphCode, Stored;
    if Refusing(validation.code) {
      store.quarantine := store.quarantine +
        {QuarantineRecord(validation.code.value, event.id, CoreDigest(event), None, None)};
      QuarantineKeepsFiles(old(store.Snapshot()), store.Snapshot());
      return Err(validation.code.value);
    }
    ghost var missing := MissingAfter(store.Snapshot(), event);
    assert validation.missing == SortedText(missing) by { SortedTextEmpty({}); }
    if !(forall p | p in validation.missing :: p in observer.advertised) { return Err(MissingParentNotAdvertised); }
    assert missing <= observer.advertised by { assert forall p | p in missing :: p in validation.missing; }
    r := SubmitAndObserve(store, event, payload, observer, validation.missing);
  }

  lemma QuarantineKeepsFiles(f: Files, g: Files)
    requires FilesInv(f) && g == f.(quarantine := g.quarantine)
    ensures FilesInv(g)
  {
    forall p ensures EventFileOk(g, p) { assert EventFileOk(f, p); }
    forall slot ensures SequenceFileOk(g, slot) { assert SequenceFileOk(f, slot); }
    forall id ensures IndexFileOk(g, id) { assert IndexFileOk(f, id); }
    forall k ensures DuplicateFileOk(g, k) { assert DuplicateFileOk(f, k); }
  }

  // What a submission does to the index

  lemma StepIndex(f: Files, s: Submission, pc: Pc)
    requires !pc.Done?
    ensures var next := Step(f, s, pc);
      || next.0.index == f.index
      || (s.event.id !in f.index && next.0.index == f.index[s.event.id := IndexRecordOf(s.event)]
          && (next.1 == Done(Created) || next.1 == CheckDuplicate))
  {
  }

  lemma ExtendsReflexive(f: Files)
    ensures Extends(f, f)
  {
  }

  /** However far a submission gets, it indexes nothing but its own event. */
  lemma {:induction false} AdvanceIndex(f: Files, s: Submission, pc: Pc, steps: nat)
    requires FilesInv(f) && PcInv(f, s, pc)
    ensures var g := Advance(f, s, pc, steps).0;
      && FilesInv(g) && Extends(f, g)
      && (g.index == f.index || g.index == f.index[s.event.id := IndexRecordOf(s.event)])
    decreases steps
  {
    ExtendsReflexive(f);
    hide FilesInv, PcInv, Step, Extends;
    if steps != 0 && !pc.Done? {
      StepKeepsInv(f, s, pc);
      StepIndex(f, s, pc);
      var next := Step(f, s, pc);
      AdvanceIndex(next.0, s, next.1, steps - 1);
      ExtendsTransitive(f, next.0, Advance(next.0, s, next.1, steps - 1).0);
    }
  }

  lemma SecuredDuplicateSucceeds(f: Files, s: Submission)
    requires FilesInv(f) && PcInv(f, s, CheckDuplicate)
    ensures !Finish(f, s, CheckDuplicate).1.Failed?
  {
    FinishUnrivalled(f, s, CheckDuplicate);
  }

  /** A submission that fails leaves the index as it was. */
  lemma {:induction false} FinishIndex(f: Files, s: Submission, pc: Pc)
    requires FilesInv(f) && PcInv(f, s, pc)
    ensures var r := Finish(f, s, pc);
      && (r.1.Failed? ==> r.0.index == f.index)
      && (r.0.index == f.index || r.0.index == f.index[s.event.id := IndexRecordOf(s.event)])
    decreases Remaining(pc)
  {
    hide FilesInv, PcInv, Step, Extends;
    if !pc.Done? {
      StepKeepsInv(f, s, pc);
      StepIndex(f, s, pc);
      var next := Step(f, s, pc);
      if next.1.CheckDuplicate? { SecuredDuplicateSucceeds(next.0, s); }
      FinishIndex(next.0, s, next.1);
    }
  }

  // Sequential runs of imports, each complete or cut short by a crash

  /** `cut`: complete, or stopped after that many steps of the submission. */
  datatype ImportCall = ImportCall(config: Config, event: Event, payload: Payload, observer: Observer, cut: Option<nat>)

  ghost function Complete(st: StoreState, call: ImportCall): (StoreState, Result<ImportResult, Code>) {
    Import(call.config, st, call.event, call.payload, call.observer)
  }

  ghost predicate Reaches(st: StoreState, call: ImportCall) {
    && Sha256(call.payload) == call.event.payloadSha
    && !Refusing(GraphCode(Stored(st.files) + {call.event}))
    && MissingAfter(st.files, call.event) <= call.observer.advertised
  }

  ghost function Perform(st: StoreState, call: ImportCall): StoreState {
    match call.cut
    case None => Complete(st, call).0
    case Some(steps) =>
      var s := ImportSubmission(call.event, call.payload, call.observer);
      if !Reaches(st, call) then st
      else st.(files := Advance(st.files, s, Entry(call.config, s), steps).0)
  }

  ghost function PerformAll(st: StoreState, calls: seq<ImportCall>): StoreState
    decreases |calls|
  {
    if calls == [] then st else PerformAll(Perform(st, calls[0]), calls[1..])
  }

  ghost predicate OnlyStoredObserved(st: StoreState) {
    forall k | k in st.observations :: k.eventId in st.files.index
  }

  /** The stored graph is sound and only stored events have been observed. */
  ghost predicate StoreInv(st: StoreState) {
    && FilesInv(st.files)
    && Sound(Stored(st.files))
    && OnlyStoredObserved(st)
  }

  lemma SoundBelow(some: set<Event>, all: set<Event>)
    requires some <= all && Sound(all)
    ensures Sound(some)
  {
    var g, h := GraphOf(some), GraphOf(all);
    forall w ensures !ClosedWalk(g, w) {
      if ClosedWalk(g, w) { assert ClosedWalk(h, w); }
    }
  }

  lemma UnrefusedIsSound(events: set<Event>)
    requires !Refusing(GraphCode(events))
    ensures Sound(events)
  {
  }

  lemma IndexGrowth(f: Files, g: Files, e: Event)
    requires FilesInv(f) && FilesInv(g) && Extends(f, g)
    requires g.index == f.index || g.index == f.index[e.id := IndexRecordOf(e)]
    ensures Stored(f) <= Stored(g) <= Stored(f) + {e}
    ensures Indexed(g, e) ==> Stored(g) == Stored(f) + {e}
    ensures e.id in f.index ==> g.index == f.index
  {
    if e.id in f.index { assert g.index == f.index; }
    forall id | id in g.index ensures g.index[id].digest.core in Stored(f) + {e} {}
    forall id | id in f.index ensures f.index[id].digest.core in Stored(g) { assert g.index[id] == f.index[id]; }
    if Indexed(g, e) { assert g.index[e.id].digest.core == e; }
  }

  lemma IndexedIsReadable(f: Files, e: Event)
    requires Indexed(f, e)
    ensures GetEvent(f, e.id) == Ok(e) && e in Stored(f) && e.id in f.index
  {
    assert f.index[e.id].digest.core == e;
  }

  lemma IndexKeysGrow(f: Files, g: Files)
    requires Extends(f, g)
    ensures f.index.Keys <= g.index.Keys
  {
  }

  lemma AdmitEffect(config: Config, st: StoreState, e: Event, payload: Payload, observer: Observer,
                    missing: seq<string>)
    requires FilesInv(st.files) && OnlyStoredObserved(st)
    ensures var r := Admit(config, st, e, payload, observer, missing);
      && FilesInv(r.0.files) && OnlyStoredObserved(r.0)
      && Stored(r.0.files) <= Stored(st.files) + {e}
      && (r.1.Err? ==> Stored(r.0.files) == Stored(st.files))
      && (r.1.Ok? ==> Stored(r.0.files) == Stored(st.files) + {e})
  {
    var s := ImportSubmission(e, payload, observer);
    var submitted := Submit(config, st.files, s);
    SubmitEffect(config, st.files, s);
    IndexKeysGrow(st.files, submitted.0);
    if !submitted.1.Failed? { IndexedIsReadable(submitted.0, e); }
    hide FilesInv, Extends, Submit, Indexed, GetEvent, Observe, OnlyStoredObserved, Stored;
    if !submitted.1.Failed? {
      var status := StatusOf(missing, submitted.1);
      ObserveEffect(st, submitted.0, ObservationOf(e, observer, status, missing), ImportResult(status, e.id, missing));
    } else {
      SubmittedKeepsObserved(st, submitted.0);
    }
  }

  lemma SubmittedKeepsObserved(st: StoreState, g: Files)
    requires OnlyStoredObserved(st) && st.files.index.Keys <= g.index.Keys
    ensures OnlyStoredObserved(st.(files := g))
  {
  }

  lemma ObserveEffect(st: StoreState, g: Files, record: Observation, done: ImportResult)
    requires OnlyStoredObserved(st) && st.files.index.Keys <= g.index.Keys
    requires record.key.eventId in g.index && GetEvent(g, record.key.eventId).Ok?
    ensures var r := Observe(st.(files := g), record, done);
      && r.0.files == g && OnlyStoredObserved(r.0)
      && (r.1.Err? ==> record.key.eventId in st.files.index)
  {
  }

  /** Whatever an import returns, the invariant survives; if it raises, no event was added,
    and if it succeeds the event was. */
  lemma ImportEffect(st: StoreState, call: ImportCall)
    requires StoreInv(st)
    ensures var r := Complete(st, call);
      && StoreInv(r.0)
      && (r.1.Err? ==> Stored(r.0.files) == Stored(st.files))
      && (r.1.Ok? ==> Stored(r.0.files) == Stored(st.files) + {call.event})
  {
    var r := Complete(st, call);
    if Reaches(st, call) {
      var missing := SortedText(MissingAfter(st.files, call.event));
      AdmitEffect(call.config, st, call.event, call.payload, call.observer, missing);
      UnrefusedIsSound(Stored(st.files) + {call.event});
      SoundBelow(Stored(r.0.files), Stored(st.files) + {call.event});
    } else {
      QuarantineOnlyKeepsInv(st, r.0);
    }
  }

  lemma QuarantineOnlyKeepsInv(st: StoreState, after: StoreState)
    requires StoreInv(st) && after == st.(files := st.files.(quarantine := after.files.quarantine))
    ensures StoreInv(after) && Stored(after.files) == Stored(st.files)
  {
    QuarantineKeepsFiles(st.files, after.files);
  }

  lemma SubmitEffect(config: Config, f: Files, s: Submission)
    requires FilesInv(f)
    ensures var r := Submit(config, f, s);
      && FilesInv(r.0) && Extends(f, r.0)
      && Stored(f) <= Stored(r.0) <= Stored(f) + {s.event}
      && (r.1.Failed? ==> Stored(r.0) == Stored(f))
      && (!r.1.Failed? ==> Indexed(r.0, s.event) && Stored(r.0) == Stored(f) + {s.event})
      && (s.event.id in f.index ==> Stored(r.0) == Stored(f))
  {
    ExtendsReflexive(f);
    if s.delivery != "" && Objection(config, s.event, s.payload).None? {
      FinishKeepsInv(f, s, CheckIndex);
      FinishIndex(f, s, CheckIndex);
      IndexGrowth(f, Finish(f, s, CheckIndex).0, s.event);
    }
  }

  lemma CutImportEffect(st: StoreState, call: ImportCall)
    requires StoreInv(st) && call.cut.Some?
    ensures StoreInv(Perform(st, call))
    ensures Stored(st.files) <= Stored(Perform(st, call).files) <= Stored(st.files) + {call.event}
  {
    var f, g, e := st.files, Perform(st, call).files, call.event;
    var s := ImportSubmission(e, call.payload, call.observer);
    if Reaches(st, call) {
      AdvanceIndex(f, s, Entry(call.config, s), call.cut.value);
      IndexGrowth(f, g, e);
      UnrefusedIsSound(Stored(f) + {e});
      SoundBelow(Stored(g), Stored(f) + {e});
    }
  }

  lemma {:induction false} ImportsKeepInv(st: StoreState, calls: seq<ImportCall>)
    requires StoreInv(st)
    ensures StoreInv(PerformAll(st, calls))
    decreases |calls|
  {
    if calls != [] {
      if calls[0].cut.Some? { CutImportEffect(st, calls[0]); } else { ImportEffect(st, calls[0]); }
      ImportsKeepInv(Perform(st, calls[0]), calls[1..]);
    }
  }

  lemma EmptyStoreInv()
    ensures StoreInv(EMPTY_STORE)
  {
    assert Stored(NO_FILES) == {};
    forall w ensures !ClosedWalk(GraphOf({}), w) {}
  }

  /** From an empty store, in whatever order events arrive and wherever imports crash, the
    stored graph stays acyclic with unique ids and unique slots. */
  lemma ImportedGraphStaysSound(calls: seq<ImportCall>)
    ensures var events := Stored(PerformAll(EMPTY_STORE, calls).files);
      IdsUnique(events) && SlotsUnique(events) && Acyclic(GraphOf(events))
  {
    EmptyStoreInv();
    ImportsKeepInv(EMPTY_STORE, calls);
  }

  /** After any such history, an import that raises leaves `events()` as it was, and one
    that succeeds adds exactly its event. */
  lemma RaisingImportAddsNothing(calls: seq<ImportCall>, call: ImportCall)
    ensures var st := PerformAll(EMPTY_STORE, calls);
      var r := Import(call.config, st, call.event, call.payload, call.observer);
      && IdsUnique(Stored(st.files)) && IdsUnique(Stored(r.0.files))
      && (r.1.Err? ==> Listing(Stored(r.0.files)) == Listing(Stored(st.files)))
      && (r.1.Ok? ==> Stored(r.0.files) == Stored(st.files) + {call.event})
  {
    EmptyStoreInv();
    ImportsKeepInv(EMPTY_STORE, calls);
    ImportEffect(PerformAll(EMPTY_STORE, calls), call);
  }

  // Importing again

  lemma SoundIsUnrefused(events: set<Event>)
    requires Sound(events)
    ensures !Refusing(GraphCode(events))
  {
  }

  /** Submitting a stored event again is a duplicate. */
  lemma StoredIsDuplicate(config: Config, f: Files, s: Submission)
    requires FilesInv(f) && s.event in Stored(f) && s.delivery != "" && Objection(config, s.event, s.payload).None?
    ensures Submit(config, f, s).1 == Duplicate
  {
    StoredIsWhatGetEventReads(f);
    assert Indexed(f, s.event);
    hide FilesInv, GetEvent, Submit, Objection;
    assert Sha256(s.payload) == s.event.payloadSha by { AdmittedHash(config, s.event, s.payload); }
    assert NoRival(f, s);
    SucceedsIffUnrivalled(config, f, s);
  }

  lemma AdmittedHash(config: Config, event: Event, payload: Payload)
    requires Objection(config, event, payload).None?
    ensures Sha256(payload) == event.payloadSha
  {
  }

  /** What an import of a stored event records: "duplicate", or which parents are still missing. */
  ghost function RepeatRecord(st: StoreState, call: ImportCall): Observation {
    var missing := SortedText(MissingAfter(st.files, call.event));
    ObservationOf(call.event, call.observer, StatusOf(missing, Duplicate), missing)
  }

  /** Importing a stored event raises a collision exactly when the observer had recorded something else about
    it; otherwise it succeeds. */
  lemma ReimportIs(st: StoreState, call: ImportCall)
    requires StoreInv(st) && call.event in Stored(st.files) && Objection(call.config, call.event, call.payload).None?
    requires MissingAfter(st.files, call.event) <= call.observer.advertised
    ensures var key := ObservationKey(call.event.id, call.observer.id);
      var r := Complete(st, call).1;
      if key in st.observations && st.observations[key] != RepeatRecord(st, call)
        then r == Err(ObservationContentCollision)
      else r.Ok? && r.value.status == RepeatRecord(st, call).status
  {
    var f, e, s := st.files, call.event, ImportSubmission(call.event, call.payload, call.observer);
    hide FilesInv, Submit, Objection, GraphCode, GetEvent, Sound;
    assert Stored(f) + {e} == Stored(f);
    SoundIsUnrefused(Stored(f));
    AdmittedHash(call.config, e, call.payload);
    StoredIsDuplicate(call.config, f, s);
    FinishedIsReadable(call.config, f, s);
  }

  lemma FinishedIsReadable(config: Config, f: Files, s: Submission)
    requires FilesInv(f)
    ensures var r := Submit(config, f, s); !r.1.Failed? ==> GetEvent(r.0, s.event.id) == Ok(s.event)
  {
    SubmitEffect(config, f, s);
    hide FilesInv, Submit, Extends;
    if !Submit(config, f, s).1.Failed? { IndexedIsReadable(Submit(config, f, s).0, s.event); }
  }

  /** Importing the same event again, straight after it was imported by the same observer, raises a collision
    exactly when the first import reported "imported", and succeeds exactly when it reported a duplicate or
    missing parents: only then does it record the same again. */
  lemma RepeatRaisesIffImported(st: StoreState, call: ImportCall)
    requires StoreInv(st) && call.cut.None? && Complete(st, call).1.Ok?
    ensures var first := Complete(st, call).1.value.status;
      var again := Complete(Perform(st, call), call).1;
      && (again == Err(ObservationContentCollision) <==> first == Imported)
      && (again.Ok? <==> first == DuplicateImport || first == PendingImport)
  {
    var e, after := call.event, Perform(st, call);
    ImportEffect(st, call);
    FirstRecord(st, call);
    hide StoreInv, Complete, Objection, SortedText;
    assert Stored(after.files) + {e} == Stored(st.files) + {e};
    assert MissingAfter(after.files, e) == MissingAfter(st.files, e) by { SameMissing(st.files, after.files, e); }
    ReimportIs(after, call);
  }

  lemma SameMissing(f: Files, g: Files, e: Event)
    requires Stored(g) + {e} == Stored(f) + {e}
    ensures MissingAfter(g, e) == MissingAfter(f, e)
  {
    hide Stored;
  }

  /** What a first import leaves on record, and what let it pass. */
  lemma FirstRecord(st: StoreState, call: ImportCall)
    requires call.cut.None? && Complete(st, call).1.Ok?
    ensures Objection(call.config, call.event, call.payload).None?
      && MissingAfter(st.files, call.event) <= call.observer.advertised
    ensures var first := Complete(st, call).1.value;
      var key := ObservationKey(call.event.id, call.observer.id);
      && key in Perform(st, call).observations
      && Perform(st, call).observations[key] == ObservationOf(call.event, call.observer, first.status, first.missing)
      && first.missing == SortedText(MissingAfter(st.files, call.event))
      && (first.status == PendingImport <==> first.missing != [])
  {
    hide Objection, GetEvent, Finish, GraphCode, MissingAfter, SortedText;
  }
}
