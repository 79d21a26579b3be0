/** Two replicas that import what the other has and they lack end up the same. */
module Convergence {
  import opened Prelude
  import opened Ordering
  import opened Events
  import opened SubmitProtocol
  import opened SubmitRuns
  import opened Causal
  import opened FederationStores
  import opened Importer
  import opened Inventories
  import Projector

  ghost predicate EventKnown(f: Files, known: set<Event>, p: EventPath) {
    p in f.events ==> f.events[p] in known
  }

  ghost predicate SequenceKnown(f: Files, known: set<Event>, slot: Slot) {
    slot in f.sequences ==> f.sequences[slot].digest.core in known
  }

  ghost predicate PayloadKnown(f: Files, known: set<Event>, ref: string) {
    ref in f.payloads ==> exists e :: e in known && e.payloadRef == ref && Sha256(f.payloads[ref]) == e.payloadSha
  }

  /** Every event, sequence and payload file belongs to an event of `known`. */
  ghost predicate Tidy(f: Files, known: set<Event>) {
    && (forall p {:trigger EventKnown(f, known, p)} :: EventKnown(f, known, p))
    && (forall slot {:trigger SequenceKnown(f, known, slot)} :: SequenceKnown(f, known, slot))
    && (forall ref {:trigger PayloadKnown(f, known, ref)} :: PayloadKnown(f, known, ref))
  }

  /** A replica as sequential imports build it: what is not stored is left over from imports of `left`
    that a crash cut short. */
  ghost predicate Replica(st: StoreState, left: set<Event>) {
    StoreInv(st) && Tidy(st.files, left + Stored(st.files))
  }

  /** Two events may share a payload file only if they share its content. */
  ghost predicate PayloadRefsAgree(events: set<Event>) {
    forall a, b | a in events && b in events && a.payloadRef == b.payloadRef :: a.payloadSha == b.payloadSha
  }

  /** No other event of `known` has this one's id or slot. */
  ghost predicate Fits(e: Event, known: set<Event>) {
    forall x | x in known && (x.id == e.id || x.slot == e.slot) :: x == e
  }

  // What imports leave behind

  lemma TidyParts(f: Files, known: set<Event>, p: EventPath, slot: Slot, ref: string)
    requires Tidy(f, known)
    ensures EventKnown(f, known, p) && SequenceKnown(f, known, slot) && PayloadKnown(f, known, ref)
  {
  }

  lemma TidyFromParts(f: Files, known: set<Event>)
    requires forall p :: EventKnown(f, known, p)
    requires forall slot :: SequenceKnown(f, known, slot)
    requires forall ref :: PayloadKnown(f, known, ref)
    ensures Tidy(f, known)
  {
  }

  lemma TidyAbove(f: Files, g: Files, known: set<Event>, more: set<Event>)
    requires Tidy(f, known) && known <= more
    requires g == f.(index := g.index, duplicates := g.duplicates, quarantine := g.quarantine)
    ensures Tidy(g, more)
  {
    var (p, slot, ref) := (EventPath(Slot("", "", 0), ""), Slot("", "", 0), "");
    hide Tidy;
    forall p ensures EventKnown(g, more, p) { TidyParts(f, known, p, slot, ref); }
    forall slot ensures SequenceKnown(g, more, slot) { TidyParts(f, known, p, slot, ref); }
    forall ref ensures PayloadKnown(g, more, ref) { TidyParts(f, known, p, slot, ref); }
    TidyFromParts(g, more);
  }

  /** A submission writes only files of its own event. */
  lemma StepStaysTidy(f: Files, s: Submission, pc: Pc, known: set<Event>)
    requires Tidy(f, known) && s.event in known && Sha256(s.payload) == s.event.payloadSha && !pc.Done?
    ensures Tidy(Step(f, s, pc).0, known)
  {
    var g, e := Step(f, s, pc).0, s.event;
    StepWrites(f, s, pc);
    hide Tidy, Step;
    forall p ensures EventKnown(g, known, p) { TidyParts(f, known, p, e.slot, e.payloadRef); }
    forall slot ensures SequenceKnown(g, known, slot) { TidyParts(f, known, PathOf(e), slot, e.payloadRef); }
    forall ref ensures PayloadKnown(g, known, ref) { TidyParts(f, known, PathOf(e), e.slot, ref); }
    TidyFromParts(g, known);
  }

  lemma StepWrites(f: Files, s: Submission, pc: Pc)
    requires !pc.Done?
    ensures var g, e := Step(f, s, pc).0, s.event;
      && (g.payloads == f.payloads || g.payloads == f.payloads[e.payloadRef := s.payload])
      && (g.events == f.events || g.events == f.events[PathOf(e) := e])
      && (g.sequences == f.sequences || g.sequences == f.sequences[e.slot := SequenceRecordOf(e)])
  {
  }

  lemma {:induction false} AdvanceStaysTidy(f: Files, s: Submission, pc: Pc, steps: nat, known: set<Event>)
    requires Tidy(f, known) && s.event in known && Sha256(s.payload) == s.event.payloadSha
    ensures Tidy(Advance(f, s, pc, steps).0, known)
    decreases steps
  {
    hide Tidy, Step;
    if steps != 0 && !pc.Done? {
      StepStaysTidy(f, s, pc, known);
      AdvanceStaysTidy(Step(f, s, pc).0, s, Step(f, s, pc).1, steps - 1, known);
    }
  }

  lemma {:induction false} FinishStaysTidy(f: Files, s: Submission, pc: Pc, known: set<Event>)
    requires Tidy(f, known) && s.event in known && Sha256(s.payload) == s.event.payloadSha
    ensures Tidy(Finish(f, s, pc).0, known)
    decreases Remaining(pc)
  {
    if !pc.Done? {
      StepStaysTidy(f, s, pc, known);
      StepLowers(f, s, pc);
      FinishStaysTidy(Step(f, s, pc).0, s, Step(f, s, pc).1, known);
    }
    hide Tidy, Step;
  }

  /** Where it fits and its payload file is not taken, nothing stands in an event's way. */
  lemma FittingIsUnrivalled(f: Files, s: Submission, known: set<Event>)
    requires FilesInv(f) && Tidy(f, known) && Fits(s.event, known)
    requires s.event.payloadRef in f.payloads ==> f.payloads[s.event.payloadRef] == s.payload
    ensures NoRival(f, s)
  {
    var e := s.event;
    assert IndexFileOk(f, e.id) && SequenceFileOk(f, e.slot) && EventFileOk(f, PathOf(e));
    TidyParts(f, known, PathOf(e), e.slot, e.payloadRef);
    if e.id in f.index { TidyParts(f, known, PathOf(f.index[e.id].digest.core), e.slot, e.payloadRef); }
    hide FilesInv, Tidy;
  }

  /** An event that fits, whose payload file holds something else, is refused before anything is written. */
  lemma ClashIsRefused(f: Files, s: Submission, known: set<Event>)
    requires FilesInv(f) && Tidy(f, known) && Fits(s.event, known) && Sha256(s.payload) == s.event.payloadSha
    requires s.event.payloadRef in f.payloads && f.payloads[s.event.payloadRef] != s.payload
    ensures Finish(f, s, CheckIndex) == (f, Failed(PayloadIntegrityFailed))
  {
    var e := s.event;
    assert IndexFileOk(f, e.id) && SequenceFileOk(f, e.slot);
    TidyParts(f, known, PathOf(e), e.slot, e.payloadRef);
    if e.id in f.index { TidyParts(f, known, PathOf(f.index[e.id].digest.core), e.slot, e.payloadRef); }
    hide FilesInv, Tidy, Finish;
    FinishStep(f, s, CheckIndex);
    FinishStep(f, s, CheckSequence);
    FinishStep(f, s, CheckPayload);
  }

  lemma FinishStep(f: Files, s: Submission, pc: Pc)
    requires !pc.Done?
    ensures Finish(f, s, pc) == Finish(Step(f, s, pc).0, s, Step(f, s, pc).1)
    ensures forall outcome :: Finish(f, s, Done(outcome)) == (f, outcome)
  {
  }

  /** A complete submission of an event that fits leaves no file of it behind unless it is stored. */
  lemma FittingSubmitStaysTidy(config: Config, f: Files, s: Submission, known: set<Event>)
    requires FilesInv(f) && Tidy(f, known) && Fits(s.event, known) && Sha256(s.payload) == s.event.payloadSha
    ensures var g := Submit(config, f, s).0; Tidy(g, known + Stored(g))
  {
    var e, g := s.event, Submit(config, f, s).0;
    hide FilesInv, Tidy, Finish, GetEvent, Fits, NoRival, Extends, Indexed, Stored;
    if s.delivery == "" || Objection(config, e, s.payload).Some? {
      TidyAbove(f, f, known, known + Stored(f));
    } else if e.payloadRef in f.payloads && f.payloads[e.payloadRef] != s.payload {
      ClashIsRefused(f, s, known);
      TidyAbove(f, f, known, known + Stored(f));
    } else {
      FittingIsUnrivalled(f, s, known);
      SucceedsIffUnrivalled(config, f, s);
      SubmitEffect(config, f, s);
      TidyAbove(f, f, known, known + Stored(g));
      FinishStaysTidy(f, s, CheckIndex, known + Stored(g));
    }
  }

  /** The files a complete import leaves: those of its submission, or at most one more quarantine record. */
  lemma ImportFiles(st: StoreState, call: ImportCall)
    ensures var r := Complete(st, call);
      if Reaches(st, call) then
        r.0.files == Submit(call.config, st.files, ImportSubmission(call.event, call.payload, call.observer)).0
      else r.0.files == st.files.(quarantine := r.0.files.quarantine)
  {
    hide Submit, GetEvent, GraphCode, MissingAfter;
  }

  lemma UniqueFits(e: Event, events: set<Event>)
    requires e in events && IdsUnique(events) && SlotsUnique(events)
    ensures Fits(e, events)
  {
  }

  lemma FitsBoth(e: Event, a: set<Event>, b: set<Event>)
    requires Fits(e, a) && Fits(e, b)
    ensures Fits(e, a + b)
  {
  }

  lemma FitsBelow(e: Event, some: set<Event>, all: set<Event>)
    requires Fits(e, all) && some <= all
    ensures Fits(e, some)
  {
  }

  /** What an import may not do if nothing unknown is to be left behind: be cut short, or meet with files
    of another event at its id or slot, unless its event is in `left`. */
  ghost predicate Leaves(call: ImportCall, left: set<Event>) {
    call.event in left || (call.cut.None? && Fits(call.event, left))
  }

  lemma ReachingStaysTidy(st: StoreState, call: ImportCall, left: set<Event>)
    requires Replica(st, left) && Leaves(call, left) && Reaches(st, call)
    requires Stored(st.files) <= Stored(Perform(st, call).files)
    ensures Tidy(Perform(st, call).files, left + Stored(Perform(st, call).files))
  {
    var f, g, e := st.files, Perform(st, call).files, call.event;
    var s := ImportSubmission(e, call.payload, call.observer);
    hide StoreInv, FilesInv, Tidy, Stored, Fits, Submit, Finish, GraphCode, MissingAfter, IdsUnique, SlotsUnique;
    ReplicaFiles(st, left);
    if call.cut.None? { ImportFiles(st, call); }
    hide Complete;
    if e in left {
      TidyAbove(f, f, left + Stored(f), left + Stored(g));
      TidyWhereKnown(st, call, left + Stored(g));
    } else {
      FitsStored(st, call, left);
      FittingSubmitStaysTidy(call.config, f, s, left + Stored(f));
      TidyAbove(g, g, left + Stored(f) + Stored(g), left + Stored(g));
    }
  }

  lemma TidyWhereKnown(st: StoreState, call: ImportCall, known: set<Event>)
    requires Tidy(st.files, known) && call.event in known && Reaches(st, call)
    ensures Tidy(Perform(st, call).files, known)
  {
    var s := ImportSubmission(call.event, call.payload, call.observer);
    hide Tidy, Finish, Advance, Complete, Objection, GraphCode, MissingAfter;
    match call.cut
    case Some(steps) => AdvanceStaysTidy(st.files, s, Entry(call.config, s), steps, known);
    case None =>
      ImportFiles(st, call);
      FinishStaysTidy(st.files, s, CheckIndex, known);
  }

  /** The graph check lets only events through that fit what is stored. */
  lemma FitsStored(st: StoreState, call: ImportCall, left: set<Event>)
    requires Reaches(st, call) && Fits(call.event, left)
    ensures Fits(call.event, left + Stored(st.files))
  {
    var e, stored := call.event, Stored(st.files);
    UnrefusedIsSound(stored + {e});
    hide Stored, GraphCode, Fits, IdsUnique, SlotsUnique, Acyclic;
    UniqueFits(e, stored + {e});
    FitsBelow(e, stored, stored + {e});
    FitsBoth(e, left, stored);
  }

  /** Imports, complete or cut short, successful or not, keep a replica a replica. */
  lemma ImportKeepsReplica(st: StoreState, call: ImportCall, left: set<Event>)
    requires Replica(st, left) && Leaves(call, left)
    ensures Replica(Perform(st, call), left)
  {
    hide StoreInv, Tidy, Stored, Leaves, Reaches;
    if call.cut.Some? { CutImportEffect(st, call); } else { ImportEffect(st, call); }
    if Reaches(st, call) {
      ReachingStaysTidy(st, call, left);
    } else {
      if call.cut.None? { ImportFiles(st, call); }
      SameIndexSameStored(st.files, Perform(st, call).files);
      TidyAbove(st.files, Perform(st, call).files, left + Stored(st.files), left + Stored(st.files));
    }
    hide Complete, Perform;
  }

  lemma SameIndexSameStored(f: Files, g: Files)
    requires f.index == g.index
    ensures Stored(f) == Stored(g)
  {
  }

  /** So do runs of imports: an exchange may break off anywhere and be taken up again. */
  lemma {:induction false} ImportsKeepReplica(st: StoreState, calls: seq<ImportCall>, left: set<Event>)
    requires Replica(st, left) && forall c | c in calls :: Leaves(c, left)
    ensures Replica(PerformAll(st, calls), left)
    decreases |calls|
  {
    hide Replica, Leaves, Perform;
    if calls != [] {
      assert calls[0] in calls;
      ImportKeepsReplica(st, calls[0], left);
      ImportsKeepReplica(Perform(st, calls[0]), calls[1..], left);
    }
  }

  /** Whatever sequence of imports built it, crashes included, a store holds no files but those of its stored
    events and of `left`, if `left` has every event whose import was cut and every one that clashes with it. */
  lemma ReplicasAreWhatImportsBuild(calls: seq<ImportCall>, left: set<Event>)
    requires forall c | c in calls :: Leaves(c, left)
    ensures Replica(PerformAll(EMPTY_STORE, calls), left)
  {
    EmptyStoreInv();
    ImportsKeepReplica(EMPTY_STORE, calls, left);
  }

  // Pulling what is missing

  /** An event the receiver lacks, admits, and is offered with its true payload and with all
    missing parents advertised. */
  ghost predicate Offer(st: StoreState, call: ImportCall) {
    && call.cut.None?
    && call.event !in Stored(st.files)
    && Objection(call.config, call.event, call.payload).None?
    && MissingAfter(st.files, call.event) <= call.observer.advertised
  }

  /** No payload file stands in the way of an event whose payload reference clashes with none. */
  lemma PayloadFree(f: Files, e: Event, payload: Payload, known: set<Event>)
    requires Tidy(f, known) && e in known && PayloadRefsAgree(known) && Sha256(payload) == e.payloadSha
    ensures e.payloadRef in f.payloads ==> f.payloads[e.payloadRef] == payload
  {
    TidyParts(f, known, PathOf(e), e.slot, e.payloadRef);
    hide Tidy;
  }

  /** The submission behind an offer succeeds; it is a duplicate where a cut import left the event file. */
  lemma OfferIsSubmitted(st: StoreState, call: ImportCall, all: set<Event>)
    requires FilesInv(st.files) && Tidy(st.files, all) && Offer(st, call)
    requires call.event in all && Sound(all) && PayloadRefsAgree(all)
    ensures var r := Submit(call.config, st.files, ImportSubmission(call.event, call.payload, call.observer));
      && r.1 == (if PathOf(call.event) in st.files.events then Duplicate else Created)
      && GetEvent(r.0, call.event.id) == Ok(call.event)
  {
    var s := ImportSubmission(call.event, call.payload, call.observer);
    AdmittedHash(call.config, call.event, call.payload);
    hide FilesInv, Tidy, Acyclic, PayloadRefsAgree, GetEvent, NoRival, Objection, MissingAfter;
    UniqueFits(call.event, all);
    PayloadFree(st.files, call.event, call.payload, all);
    FittingIsUnrivalled(st.files, s, all);
    SucceedsIffUnrivalled(call.config, st.files, s);
  }

  /** What an offer is reported as: missing parents come first, then whether its file was there already. */
  ghost function OfferStatus(st: StoreState, call: ImportCall): ImportStatus {
    if MissingAfter(st.files, call.event) != {} then PendingImport
    else if PathOf(call.event) in st.files.events then DuplicateImport
    else Imported
  }

  /** An event that is not stored has not been observed. */
  lemma UnstoredIsUnobserved(st: StoreState, e: Event, observer: string, all: set<Event>)
    requires StoreInv(st) && e !in Stored(st.files) && e in all && IdsUnique(all) && Stored(st.files) <= all
    ensures ObservationKey(e.id, observer) !in st.observations
  {
    IdIsStored(st.files, e.id);
  }

  lemma IdIsStored(f: Files, id: string)
    requires FilesInv(f)
    ensures id in f.index ==> f.index[id].digest.core in Stored(f) && f.index[id].digest.core.id == id
  {
    assert IndexFileOk(f, id);
  }

  /** A submission that went well, seen for the first time by this observer. */
  lemma AdmittedFirst(config: Config, st: StoreState, e: Event, payload: Payload, observer: Observer,
                      missing: seq<string>)
    requires ObservationKey(e.id, observer.id) !in st.observations
    requires var r := Submit(config, st.files, ImportSubmission(e, payload, observer));
      !r.1.Failed? && GetEvent(r.0, e.id).Ok?
    ensures var status := StatusOf(missing, Submit(config, st.files, ImportSubmission(e, payload, observer)).1);
      Admit(config, st, e, payload, observer, missing).1 == Ok(ImportResult(status, e.id, missing))
  {
    hide Submit, GetEvent;
  }

  lemma ReachesAdmit(st: StoreState, call: ImportCall)
    requires Reaches(st, call)
    ensures Complete(st, call) == Admit(call.config, st, call.event, call.payload, call.observer,
                                        SortedText(MissingAfter(st.files, call.event)))
  {
    hide Admit, GraphCode, MissingAfter, SortedText;
  }

  lemma OfferIsAdmitted(st: StoreState, call: ImportCall, all: set<Event>)
    requires StoreInv(st) && Tidy(st.files, all) && Offer(st, call) && Stored(st.files) <= all
    requires call.event in all && Sound(all) && PayloadRefsAgree(all)
    ensures Complete(st, call).1.Ok? && Complete(st, call).1.value.status == OfferStatus(st, call)
  {
    hide FilesInv, Sound, GraphCode, MissingAfter, Stored, Submit, GetEvent, Tidy, Objection, SortedText, Complete,
      Admit, OnlyStoredObserved, PayloadRefsAgree;
    var f, e := st.files, call.event;
    OfferIsSubmitted(st, call, all);
    SoundIdsUnique(all);
    UnstoredIsUnobserved(st, e, call.observer.id, all);
    SoundBelow(Stored(f) + {e}, all);
    SoundIsUnrefused(Stored(f) + {e});
    AdmittedHash(call.config, e, call.payload);
    SortedTextEmpty(MissingAfter(f, e));
    ReachesAdmit(st, call);
    AdmittedFirst(call.config, st, e, call.payload, call.observer, SortedText(MissingAfter(f, e)));
  }

  /** An offer among events that are sound together and clash on no payload file is imported. */
  lemma OfferIsImported(st: StoreState, call: ImportCall, left: set<Event>, all: set<Event>)
    requires Replica(st, left) && Offer(st, call) && Stored(st.files) + left + {call.event} <= all
    requires Sound(all) && PayloadRefsAgree(all)
    ensures Complete(st, call).1.Ok? && Complete(st, call).1.value.status == OfferStatus(st, call)
    ensures Replica(Perform(st, call), left) && Stored(Perform(st, call).files) == Stored(st.files) + {call.event}
  {
    hide StoreInv, Tidy, Stored, Fits, PayloadRefsAgree, Acyclic, IdsUnique, SlotsUnique, MissingAfter;
    TidyAbove(st.files, st.files, left + Stored(st.files), all);
    OfferIsAdmitted(st, call, all);
    UniqueFits(call.event, all);
    FitsBelow(call.event, left, all);
    ImportKeepsReplica(st, call, left);
    ImportEffect(st, call);
    hide Complete;
  }

  ghost function EventsOf(batch: seq<ImportCall>): set<Event> {
    set c | c in batch :: c.event
  }

  /** The receiver's configuration admits each event and its observer advertises every parent
    missing at that point. */
  ghost predicate Admitted(st: StoreState, batch: seq<ImportCall>)
    decreases |batch|
  {
    batch != [] ==>
      && batch[0].cut.None?
      && Objection(batch[0].config, batch[0].event, batch[0].payload).None?
      && MissingAfter(st.files, batch[0].event) <= batch[0].observer.advertised
      && Admitted(Perform(st, batch[0]), batch[1..])
  }

  ghost predicate AllImported(st: StoreState, batch: seq<ImportCall>)
    decreases |batch|
  {
    batch != [] ==> Complete(st, batch[0]).1.Ok? && AllImported(Perform(st, batch[0]), batch[1..])
  }

  /** The events of a batch are new to the store and come once each. */
  ghost predicate AllNew(f: Files, batch: seq<ImportCall>) {
    && (forall i, j | 0 <= i < j < |batch| :: batch[i].event.id != batch[j].event.id)
    && (forall i | 0 <= i < |batch| :: batch[i].event !in Stored(f))
  }

  lemma FirstIsOffer(st: StoreState, batch: seq<ImportCall>)
    requires batch != [] && Admitted(st, batch) && AllNew(st.files, batch)
    ensures Offer(st, batch[0])
  {
  }

  lemma AllNewRest(f: Files, g: Files, batch: seq<ImportCall>)
    requires batch != [] && AllNew(f, batch) && Stored(g) == Stored(f) + {batch[0].event}
    ensures AllNew(g, batch[1..])
  {
  }

  lemma {:induction false} BatchIsImported(st: StoreState, batch: seq<ImportCall>, left: set<Event>, all: set<Event>)
    requires Replica(st, left) && Admitted(st, batch) && AllNew(st.files, batch)
    requires Sound(all) && PayloadRefsAgree(all) && Stored(st.files) + left + EventsOf(batch) <= all
    ensures AllImported(st, batch) && Replica(PerformAll(st, batch), left)
    ensures Stored(PerformAll(st, batch).files) == Stored(st.files) + EventsOf(batch)
    decreases |batch|
  {
    hide EventsOf, Sound, PayloadRefsAgree, Replica, Stored, Complete, Perform, Offer, AllNew;
    EventsOfBatch(batch);
    if batch != [] {
      var first, rest := batch[0], batch[1..];
      FirstIsOffer(st, batch);
      OfferIsImported(st, first, left, all);
      AllNewRest(st.files, Perform(st, first).files, batch);
      BatchIsImported(Perform(st, first), rest, left, all);
    }
  }

  lemma EventsOfBatch(batch: seq<ImportCall>)
    ensures EventsOf(batch) == if batch == [] then {} else {batch[0].event} + EventsOf(batch[1..])
  {
    if batch != [] { assert batch == [batch[0]] + batch[1..]; }
  }

  // Inventories

  lemma IdsOneMore(events: set<Event>, e: Event)
    ensures Ids(events + {e}) == Ids(events) + {e.id}
  {
  }

  /** `m` has a record for each listed event, with its digest, and for nothing else. */
  ghost predicate Catalogues(m: map<string, InventoryRecord>, items: seq<Event>) {
    && m.Keys == Ids(EventsIn(items))
    && forall i | 0 <= i < |items| :: items[i].id in m && m[items[i].id].digest == CoreDigest(items[i])
  }

  lemma CataloguesOneMore(m: map<string, InventoryRecord>, f: Files, items: seq<Event>)
    requires items != [] && Catalogues(m, items[..|items| - 1])
    requires forall i | 0 <= i < |items| - 1 :: items[i].id != items[|items| - 1].id
    ensures var last := items[|items| - 1]; Catalogues(m[last.id := RecordOf(f, last)], items)
  {
    hide EventsIn, Ids;
    var init, last := items[..|items| - 1], items[|items| - 1];
    EventsInLast(items);
    IdsOneMore(EventsIn(init), last);
    forall i | 0 <= i < |items| - 1 ensures items[i].id in m && m[items[i].id].digest == CoreDigest(items[i]) {
      assert init[i] == items[i];
    }
  }

  lemma RecordsInit(f: Files, items: seq<Event>)
    requires items != []
    ensures Records(f, items) == Records(f, items[..|items| - 1]) + [RecordOf(f, items[|items| - 1])]
  {
    hide Records, RecordOf;
  }

  lemma {:induction false} ByIdOfRecords(f: Files, items: seq<Event>)
    requires forall i, j | 0 <= i < j < |items| :: items[i].id != items[j].id
    ensures Catalogues(ById(Records(f, items)), items)
  {
    if items == [] {
      assert EventsIn(items) == {};
    } else {
      hide Catalogues, Records, RecordOf;
      var init := items[..|items| - 1];
      ByIdOfRecords(f, init);
      CataloguesOneMore(ById(Records(f, init)), f, items);
      RecordsInit(f, items);
    }
  }

  /** An inventory lists exactly the stored ids, with their digests. */
  lemma InventoryListsStored(inv: Inventory, realmId: string, f: Files)
    requires Describes(inv, realmId, f)
    ensures var m := ById(inv.records);
      IdsUnique(Stored(f)) && m.Keys == Ids(Stored(f)) && forall e | e in Stored(f) :: m[e.id].digest == CoreDigest(e)
  {
    hide Stored, ById, Records, Listing, Covers, EventsIn;
    ListingIdsDistinct(Stored(f));
    ByIdOfRecords(f, Listing(Stored(f)));
    forall e | e in Stored(f) ensures ById(inv.records)[e.id].digest == CoreDigest(e) {
      assert e in Listing(Stored(f));
    }
  }

  lemma AgreementByDigest(a: set<Event>, b: set<Event>, l: map<string, InventoryRecord>,
                          r: map<string, InventoryRecord>)
    requires IdsUnique(a) && l.Keys == Ids(a) && forall e | e in a :: l[e.id].digest == CoreDigest(e)
    requires IdsUnique(b) && r.Keys == Ids(b) && forall e | e in b :: r[e.id].digest == CoreDigest(e)
    ensures (set id | id in l.Keys * r.Keys && l[id].digest != r[id].digest) == {} <==> IdsUnique(a + b)
  {
    var mismatched := set id | id in l.Keys * r.Keys && l[id].digest != r[id].digest;
    if mismatched == {} {
      forall x, y | x in a + b && y in a + b && x.id == y.id ensures x == y {
        assert x.id !in mismatched;
      }
    }
    if IdsUnique(a + b) {
      forall id | id in l.Keys * r.Keys ensures l[id].digest == r[id].digest {
        var x :| x in a && x.id == id;
        var y :| y in b && y.id == id;
        assert x in a + b && y in a + b;
      }
    }
  }

  /** No digest mismatch is reported exactly when the two stores agree on every shared id. */
  lemma NoMismatchMeansAgreement(a: Files, b: Files, invA: Inventory, invB: Inventory, realmA: string, realmB: string)
    requires Describes(invA, realmA, a) && Describes(invB, realmB, b)
    ensures Diff(invA, invB).digestMismatches == [] <==> IdsUnique(Stored(a) + Stored(b))
  {
    hide Describes, Stored, Ids, IdsUnique, ById;
    InventoryListsStored(invA, realmA, a);
    InventoryListsStored(invB, realmB, b);
    var l, r := ById(invA.records), ById(invB.records);
    SortedTextEmpty(set id | id in l.Keys * r.Keys && l[id].digest != r[id].digest);
    AgreementByDigest(Stored(a), Stored(b), l, r);
  }

  /** `batch` brings the receiver, in any order and once each, the events its diff against the
    sender reports missing, read back from the sender. */
  ghost predicate Pulls(receiver: StoreState, sender: StoreState, mine: Inventory, theirs: Inventory,
                        batch: seq<ImportCall>) {
    && (forall i, j | 0 <= i < j < |batch| :: batch[i].event.id != batch[j].event.id)
    && (forall id :: id in Diff(mine, theirs).missingFromLocal <==> exists c | c in batch :: c.event.id == id)
    && (forall c | c in batch ::
          && GetEvent(sender.files, c.event.id) == Ok(c.event)
          && c.payload == sender.files.payloads[c.event.payloadRef])
    && Admitted(receiver, batch)
  }

  /** The ids a diff reports missing are those of the events only the sender stores. */
  lemma MissingIdsAre(mine: Inventory, theirs: Inventory, receiver: Files, sender: Files, realmA: string,
                      realmB: string, id: string)
    requires Describes(mine, realmA, receiver) && Describes(theirs, realmB, sender)
    ensures id in Diff(mine, theirs).missingFromLocal <==> id in Ids(Stored(sender)) - Ids(Stored(receiver))
  {
    hide Describes, Stored, Ids, IdsUnique, ById;
    InventoryListsStored(mine, realmA, receiver);
    InventoryListsStored(theirs, realmB, sender);
  }

  /** What a pull brings: the events only the sender stores, all new to the receiver. */
  lemma PullBringsTheRest(receiver: StoreState, sender: StoreState, mine: Inventory, theirs: Inventory,
                          realmA: string, realmB: string, batch: seq<ImportCall>)
    requires Describes(mine, realmA, receiver.files) && Describes(theirs, realmB, sender.files)
    requires FilesInv(receiver.files) && FilesInv(sender.files)
    requires IdsUnique(Stored(receiver.files) + Stored(sender.files))
    requires Pulls(receiver, sender, mine, theirs, batch)
    ensures AllNew(receiver.files, batch)
    ensures Stored(receiver.files) + EventsOf(batch) == Stored(receiver.files) + Stored(sender.files)
  {
    hide FilesInv, Describes, Diff, Admitted, Stored, GetEvent, Indexed, SlotsUnique;
    var a, b := Stored(receiver.files), Stored(sender.files);
    StoredIsWhatGetEventReads(sender.files);
    forall c | c in batch ensures c.event in b && c.event !in a {
      MissingIdsAre(mine, theirs, receiver.files, sender.files, realmA, realmB, c.event.id);
      ReadEventIsStored(sender.files, c.event.id);
    }
    assert forall i | 0 <= i < |batch| :: batch[i] in batch;
    forall e | e in b ensures e in a + EventsOf(batch) {
      MissingIdsAre(mine, theirs, receiver.files, sender.files, realmA, realmB, e.id);
      if e.id in Ids(a) {
        var x :| x in a && x.id == e.id;
        assert x in a + b && e in a + b;
      } else {
        var c :| c in batch && c.event.id == e.id;
        assert c.event in a + b && e in a + b;
        assert c.event in EventsOf(batch);
      }
    }
  }

  lemma ReadEventIsStored(f: Files, id: string)
    requires GetEvent(f, id).Ok?
    ensures GetEvent(f, id).value in Stored(f)
  {
    assert f.index[id].digest.core in Stored(f);
  }

  lemma ReplicaFiles(st: StoreState, left: set<Event>)
    requires Replica(st, left)
    ensures FilesInv(st.files)
  {
  }

  lemma SoundIdsUnique(events: set<Event>)
    requires Sound(events)
    ensures IdsUnique(events)
  {
  }

  lemma PullIsAdmitted(receiver: StoreState, sender: StoreState, mine: Inventory, theirs: Inventory,
                       batch: seq<ImportCall>)
    requires Pulls(receiver, sender, mine, theirs, batch)
    ensures Admitted(receiver, batch)
  {
  }

  lemma PullIsImported(receiver: StoreState, sender: StoreState, mine: Inventory, theirs: Inventory,
                       realmA: string, realmB: string, batch: seq<ImportCall>, left: set<Event>)
    requires Replica(receiver, left) && Replica(sender, left)
    requires Describes(mine, realmA, receiver.files) && Describes(theirs, realmB, sender.files)
    requires Pulls(receiver, sender, mine, theirs, batch)
    requires var all := Stored(receiver.files) + Stored(sender.files) + left; Sound(all) && PayloadRefsAgree(all)
    ensures AllImported(receiver, batch) && Replica(PerformAll(receiver, batch), left)
    ensures Stored(PerformAll(receiver, batch).files) == Stored(receiver.files) + Stored(sender.files)
  {
    hide Replica, FilesInv, Describes, Diff, Pulls, Sound, PayloadRefsAgree, Stored, AllNew, EventsOf, IdsUnique,
      PerformAll, AllImported, Admitted;
    var both := Stored(receiver.files) + Stored(sender.files);
    ReplicaFiles(receiver, left);
    ReplicaFiles(sender, left);
    SoundBelow(both, both + left);
    SoundIdsUnique(both);
    PullBringsTheRest(receiver, sender, mine, theirs, realmA, realmB, batch);
    PullIsAdmitted(receiver, sender, mine, theirs, batch);
    BatchIsImported(receiver, batch, left, both + left);
  }

  /** Two replicas that exchange what their inventories report missing succeed at every import
    and end with equal `events()` and an empty diff both ways, whatever the import orders and whatever
    crashed imports left behind before, provided all these events together are sound and no two clash
    on a payload file. */
  lemma ReplicasConverge(a: StoreState, b: StoreState, invA: Inventory, invB: Inventory, realmA: string, realmB: string,
                         toA: seq<ImportCall>, toB: seq<ImportCall>, newA: Inventory, newB: Inventory, left: set<Event>)
    requires Replica(a, left) && Replica(b, left)
    requires Describes(invA, realmA, a.files) && Describes(invB, realmB, b.files)
    requires Pulls(a, b, invA, invB, toA) && Pulls(b, a, invB, invA, toB)
    requires var all := Stored(a.files) + Stored(b.files) + left; Sound(all) && PayloadRefsAgree(all)
    requires Describes(newA, realmA, PerformAll(a, toA).files) && Describes(newB, realmB, PerformAll(b, toB).files)
    ensures AllImported(a, toA) && AllImported(b, toB)
    ensures var a', b' := PerformAll(a, toA).files, PerformAll(b, toB).files;
      && Stored(a') == Stored(b') == Stored(a.files) + Stored(b.files)
      && IdsUnique(Stored(a')) && Listing(Stored(a')) == Listing(Stored(b'))
    ensures Diff(newA, newB) == InventoryDiff([], [], []) && Diff(newB, newA) == InventoryDiff([], [], [])
  {
    hide Replica, Describes, Diff, Pulls, Sound, PayloadRefsAgree, Stored, PerformAll, AllImported, IdsUnique;
    SoundBelow(Stored(a.files) + Stored(b.files), Stored(a.files) + Stored(b.files) + left);
    SoundIdsUnique(Stored(a.files) + Stored(b.files));
    assert Stored(a.files) + Stored(b.files) == Stored(b.files) + Stored(a.files);
    PullIsImported(a, b, invA, invB, realmA, realmB, toA, left);
    PullIsImported(b, a, invB, invA, realmB, realmA, toB, left);
    EqualStoresDiffEmpty(PerformAll(a, toA).files, PerformAll(b, toB).files, newA, newB, realmA, realmB);
  }

  lemma EqualStoresDiffEmpty(a: Files, b: Files, invA: Inventory, invB: Inventory, realmA: string, realmB: string)
    requires Describes(invA, realmA, a) && Describes(invB, realmB, b) && Stored(a) == Stored(b)
    ensures Diff(invA, invB) == InventoryDiff([], [], []) && Diff(invB, invA) == InventoryDiff([], [], [])
  {
    hide Describes, Stored, IdsUnique, Ids, ById;
    NoMismatchMeansAgreement(a, b, invA, invB, realmA, realmB);
    NoMismatchMeansAgreement(b, a, invB, invA, realmB, realmA);
    assert Stored(a) + Stored(b) == Stored(a) && Stored(b) + Stored(a) == Stored(a);
    InventoryListsStored(invA, realmA, a);
    InventoryListsStored(invB, realmB, b);
    SortedTextEmpty(ById(invA.records).Keys - ById(invB.records).Keys);
    SortedTextEmpty(ById(invB.records).Keys - ById(invA.records).Keys);
  }

  // The derived views

  lemma {:induction false} ImportsKeepRecords(st: StoreState, calls: seq<ImportCall>)
    ensures PerformAll(st, calls).conflicts == st.conflicts && PerformAll(st, calls).resolutions == st.resolutions
    decreases |calls|
  {
    if calls != [] {
      ImportKeepsRecords(st, calls[0]);
      ImportsKeepRecords(Perform(st, calls[0]), calls[1..]);
    }
  }

  lemma ImportKeepsRecords(st: StoreState, call: ImportCall)
    ensures Perform(st, call).conflicts == st.conflicts && Perform(st, call).resolutions == st.resolutions
  {
    hide Submit, GetEvent, GraphCode, MissingAfter, Advance, Reaches, Stored, Refusing, Objection;
  }

  /** With equal conflict and resolution records, replicas that exchanged their events derive
    the same view, in whatever order each imported. */
  lemma ConvergedViewsEqual(a: StoreState, b: StoreState, invA: Inventory, invB: Inventory, realmA: string,
                            realmB: string, toA: seq<ImportCall>, toB: seq<ImportCall>, p: Projector.Projection,
                            q: Projector.Projection, left: set<Event>)
    requires Replica(a, left) && Replica(b, left) && a.conflicts == b.conflicts && a.resolutions == b.resolutions
    requires Describes(invA, realmA, a.files) && Describes(invB, realmB, b.files)
    requires Pulls(a, b, invA, invB, toA) && Pulls(b, a, invB, invA, toB)
    requires var all := Stored(a.files) + Stored(b.files) + left; Sound(all) && PayloadRefsAgree(all)
    requires IdsUnique(Stored(PerformAll(a, toA).files)) && IdsUnique(Stored(PerformAll(b, toB).files))
    requires Projector.Projects(p, Listing(Stored(PerformAll(a, toA).files)),
                                PerformAll(a, toA).conflicts.Values, PerformAll(a, toA).resolutions.Values)
    requires Projector.Projects(q, Listing(Stored(PerformAll(b, toB).files)),
                                PerformAll(b, toB).conflicts.Values, PerformAll(b, toB).resolutions.Values)
    ensures p == q
  {
    hide Replica, Describes, Diff, Pulls, PayloadRefsAgree, Stored, PerformAll, AllImported, Projector.Projects,
      Listing, Sound, IdsUnique;
    var both := Stored(a.files) + Stored(b.files);
    assert both == Stored(b.files) + Stored(a.files);
    PullIsImported(a, b, invA, invB, realmA, realmB, toA, left);
    PullIsImported(b, a, invB, invA, realmB, realmA, toB, left);
    ImportsKeepRecords(a, toA);
    ImportsKeepRecords(b, toB);
    SoundBelow(both, both + left);
    ListingHolds(Stored(PerformAll(a, toA).files));
    SoundListing(both);
    Projector.ProjectionDetermined(p, q, Listing(Stored(PerformAll(a, toA).files)), a.conflicts.Values,
                                   a.resolutions.Values);
  }

  lemma SoundListing(events: set<Event>)
    requires Sound(events)
    ensures IdsUnique(events) && EventsIn(Listing(events)) == events && Acyclic(Projector.StoreGraph(Listing(events)))
  {
    ListingHolds(events);
  }

  lemma ListingHolds(events: set<Event>)
    requires IdsUnique(events)
    ensures EventsIn(Listing(events)) == events
  {
  }
}
