/** The derived view: which value, if any, each field of each subject shows. */
module Projector {
  import opened Prelude
  import opened Ordering
  import opened Events
  import opened SubmitProtocol
  import opened Causal
  import opened FederationStores

  const RESOLUTION_KIND := "pmw.conflict.resolution"

  datatype FieldKey = FieldKey(subject: string, field: string)

  datatype Candidate = Candidate(event: Event, value: Json)

  datatype FieldView = FieldView(source: string, value: Json)

  datatype SubjectView = SubjectView(
    fields: map<string, FieldView>, unresolvedConflicts: set<ConflictId>, unresolvedEvents: seq<string>)

  datatype EventRecord = EventRecord(
    id: string, digest: CoreDigest, kind: string, subject: string, fabricClass: string,
    correctionOf: Option<string>, withdraws: Option<string>)

  datatype Projection = Projection(
    records: seq<EventRecord>, heads: seq<string>, subjects: map<string, SubjectView>,
    conflicts: set<ConflictRecord>, resolutions: set<ResolutionRecord>)

  datatype FieldValue = FieldValue(field: string, value: Json)

  /** What a parsed payload says about a field: nothing, a value, or something unacceptable. */
  function FieldIn(payload: Payload): Result<Option<FieldValue>, Code> {
    match payload.json
    case None => Err(ProjectionPayloadInvalid)
    case Some(Object(fields)) =>
      if fields.Keys != {"field", "value"} then Ok(None)
      else if !fields["field"].Text? || fields["field"].s == "" then Err(ProjectionFieldInvalid)
      else Ok(Some(FieldValue(fields["field"].s, fields["value"])))
    case Some(_) => Ok(None)
  }

  /** Ids that some event withdraws or corrects. */
  function Superseded(events: seq<Event>): set<string> {
    (set e | e in events && e.withdraws.Some? :: e.withdraws.value) +
    (set e | e in events && e.correctionOf.Some? :: e.correctionOf.value)
  }

  /** The event may offer a value: it is no resolution, no withdrawal, and not superseded. */
  predicate Considered(e: Event, superseded: set<string>) {
    e.kind != RESOLUTION_KIND && e.id !in superseded && e.withdraws.None?
  }

  function Offer(e: Event, superseded: set<string>): Option<FieldValue> {
    if !Considered(e, superseded) then None
    else match FieldIn(e.payloadSha.preimage)
      case Err(_) => None
      case Ok(offer) => offer
  }

  /** The candidates for one field, in listing order. */
  function CandidatesFor(items: seq<Event>, superseded: set<string>, key: FieldKey): seq<Candidate> {
    if items == [] then []
    else
      var e := items[|items| - 1];
      var offer := Offer(e, superseded);
      CandidatesFor(items[..|items| - 1], superseded, key) +
      if offer.Some? && key == FieldKey(e.subject, offer.value.field) then [Candidate(e, offer.value.value)] else []
  }

  function ResolvedMembers(resolutions: set<ResolutionRecord>): set<string> {
    set r, m | r in resolutions && m in r.members :: m
  }

  function Selected(resolutions: set<ResolutionRecord>): set<string> {
    set r | r in resolutions :: r.selected
  }

  function KeepSelected(candidates: seq<Candidate>, selected: set<string>): seq<Candidate> {
    if candidates == [] then []
    else
      var c := candidates[|candidates| - 1];
      KeepSelected(candidates[..|candidates| - 1], selected) + if c.event.id in selected then [c] else []
  }

  /** Once any candidate of a field was a member of a resolved conflict, only selected ones stay. */
  function ActiveOf(candidates: seq<Candidate>, resolutions: set<ResolutionRecord>): seq<Candidate> {
    if exists i | 0 <= i < |candidates| :: candidates[i].event.id in ResolvedMembers(resolutions)
    then KeepSelected(candidates, Selected(resolutions)) else candidates
  }

  function ActiveFor(events: seq<Event>, resolutions: set<ResolutionRecord>, key: FieldKey): seq<Candidate> {
    ActiveOf(CandidatesFor(events, Superseded(events), key), resolutions)
  }

  /** `c` is active and has every other active candidate among its causal ancestors. */
  ghost predicate Dominates(g: Graph, active: seq<Candidate>, c: Candidate) {
    c in active && forall o | o in active :: o.event.id == c.event.id || Ancestor(g, o.event.id, c.event.id)
  }

  /** In an acyclic graph at most one event dominates, so the scan order does not matter. */
  lemma DominatorUnique(g: Graph, active: seq<Candidate>, c: Candidate, d: Candidate)
    requires Acyclic(g) && Dominates(g, active, c) && Dominates(g, active, d)
    ensures c.event.id == d.event.id
  {
    if c.event.id != d.event.id {
      AncestorTransitive(g, c.event.id, d.event.id, c.event.id);
      AncestorIrreflexive(g, c.event.id);
    }
  }

  /** The scan over the active candidates of one field. */
  method Choose(g: Graph, active: seq<Candidate>) returns (chosen: Option<Candidate>)
    requires forall c | c in active :: c.event.id in g
    ensures chosen.Some? ==> Dominates(g, active, chosen.value)
    ensures chosen.None? ==> forall c | c in active :: !Dominates(g, active, c)
  {
    if |active| == 1 { return Some(active[0]); }
    for i := 0 to |active|
      invariant forall k | 0 <= k < i :: !Dominates(g, active, active[k])
    {
      var all := true;
      for j := 0 to |active|
        invariant all <==> forall k | 0 <= k < j ::
          active[k].event.id == active[i].event.id || Ancestor(g, active[k].event.id, active[i].event.id)
      {
        if active[j].event.id != active[i].event.id {
          var older := IsAncestor(g, active[j].event.id, active[i].event.id);
          all := all && older;
        }
      }
      if all { return Some(active[i]); }
      assert !Dominates(g, active, active[i]) by {
        var k :| 0 <= k < |active| && active[k].event.id != active[i].event.id
          && !Ancestor(g, active[k].event.id, active[i].event.id);
        assert active[k] in active;
      }
    }
    return None;
  }

  // What the whole projection says

  ghost function StoreGraph(events: seq<Event>): Graph
    requires IdsUnique(EventsIn(events))
  {
    GraphOf(EventsIn(events))
  }

  ghost predicate HasDominator(events: seq<Event>, resolutions: set<ResolutionRecord>, key: FieldKey)
    requires IdsUnique(EventsIn(events))
  {
    exists c :: Dominates(StoreGraph(events), ActiveFor(events, resolutions, key), c)
  }

  /** An active candidate of a field that nothing dominates. */
  ghost predicate LeftOpen(events: seq<Event>, resolutions: set<ResolutionRecord>, key: FieldKey, id: string)
    requires IdsUnique(EventsIn(events))
  {
    !HasDominator(events, resolutions, key) &&
    exists c :: c in ActiveFor(events, resolutions, key) && c.event.id == id
  }

  /** The field shows some dominating candidate, or nothing when there is none. */
  ghost predicate FieldShown(view: SubjectView, events: seq<Event>, resolutions: set<ResolutionRecord>, key: FieldKey)
    requires IdsUnique(EventsIn(events))
  {
    if key.field in view.fields
    then exists c :: Dominates(StoreGraph(events), ActiveFor(events, resolutions, key), c)
                     && view.fields[key.field] == FieldView(c.event.id, c.value)
    else !HasDominator(events, resolutions, key)
  }

  function RecordFor(e: Event): EventRecord {
    EventRecord(e.id, CoreDigest(e), e.kind, e.subject, e.fabricClass, e.correctionOf, e.withdraws)
  }

  function RecordsFor(events: seq<Event>): (r: seq<EventRecord>)
    ensures |r| == |events| && forall i | 0 <= i < |r| :: r[i] == RecordFor(events[i])
  {
    seq(|events|, i requires 0 <= i < |events| => RecordFor(events[i]))
  }

  function SubjectsIn(events: seq<Event>): set<string> {
    set e | e in events && e.kind != RESOLUTION_KIND :: e.subject
  }

  function OpenConflicts(subject: string, conflicts: set<ConflictRecord>, resolutions: set<ResolutionRecord>)
    : set<ConflictId>
  {
    var resolved := set r | r in resolutions :: r.key.conflict;
    set c | c in conflicts && c.core.subject == subject && c.id !in resolved :: c.id
  }

  /** The ids a subject leaves open, over all its fields. */
  ghost predicate OpenIds(ids: seq<string>, events: seq<Event>, resolutions: set<ResolutionRecord>, subject: string)
    requires IdsUnique(EventsIn(events))
  {
    && Ascending(TextLess, ids)
    && forall id :: id in ids <==> exists field :: LeftOpen(events, resolutions, FieldKey(subject, field), id)
  }

  ghost predicate SubjectShown(view: SubjectView, events: seq<Event>, conflicts: set<ConflictRecord>,
                               resolutions: set<ResolutionRecord>, subject: string)
    requires IdsUnique(EventsIn(events))
  {
    && (forall field :: FieldShown(view, events, resolutions, FieldKey(subject, field)))
    && view.unresolvedConflicts == OpenConflicts(subject, conflicts, resolutions)
    && OpenIds(view.unresolvedEvents, events, resolutions, subject)
  }

  ghost predicate Projects(p: Projection, events: seq<Event>, conflicts: set<ConflictRecord>,
                           resolutions: set<ResolutionRecord>) {
    && IdsUnique(EventsIn(events))
    && p.records == RecordsFor(events)
    && p.heads == SortList(HeadList(events, ParentIds(EventsIn(events))))
    && p.conflicts == conflicts && p.resolutions == resolutions
    && p.subjects.Keys == SubjectsIn(events)
    && forall subject | subject in p.subjects ::
         SubjectShown(p.subjects[subject], events, conflicts, resolutions, subject)
  }

  /** The projection refuses the payload of the event at `i`. */
  predicate RefusedAt(events: seq<Event>, i: nat, superseded: set<string>)
    requires i < |events|
  {
    Considered(events[i], superseded) && FieldIn(events[i].payloadSha.preimage).Err?
  }

  /** Some considered event carries a payload the projection refuses. */
  predicate Refused(events: seq<Event>) {
    exists i: nat | i < |events| :: RefusedAt(events, i, Superseded(events))
  }

  /** The first such payload in listing order is refused with this code. */
  predicate FirstRefusal(events: seq<Event>, code: Code) {
    exists i: nat | i < |events| ::
      && RefusedAt(events, i, Superseded(events)) && FieldIn(events[i].payloadSha.preimage) == Err(code)
      && forall k: nat | k < i :: !RefusedAt(events, k, Superseded(events))
  }

  /** `event_payload` followed by `_payload_value`. */
  function FieldOf(f: Files, e: Event): Result<Option<FieldValue>, Code> {
    if e.payloadRef !in f.payloads || Sha256(f.payloads[e.payloadRef]) != e.payloadSha
      then Err(ProjectionPayloadInvalid)
    else FieldIn(f.payloads[e.payloadRef])
  }

  /** The payload of a stored event is the one its digest names. */
  lemma StoredFieldIsNamed(f: Files, e: Event)
    requires FilesInv(f) && e in Stored(f)
    ensures FieldOf(f, e) == FieldIn(e.payloadSha.preimage)
  {
    StoredIsWhatGetEventReads(f);
    assert Indexed(f, e);
  }

  function At(m: map<FieldKey, seq<Candidate>>, key: FieldKey): seq<Candidate> {
    if key in m then m[key] else []
  }

  /** `found` groups the candidates among `items` by field. */
  ghost predicate Groups(found: map<FieldKey, seq<Candidate>>, items: seq<Event>, superseded: set<string>) {
    forall key :: At(found, key) == CandidatesFor(items, superseded, key)
  }

  function Added(found: map<FieldKey, seq<Candidate>>, e: Event, offer: Option<FieldValue>)
    : map<FieldKey, seq<Candidate>>
  {
    match offer
    case None => found
    case Some(o) =>
      var key := FieldKey(e.subject, o.field);
      found[key := At(found, key) + [Candidate(e, o.value)]]
  }

  lemma AddedGroups(found: map<FieldKey, seq<Candidate>>, events: seq<Event>, i: nat, superseded: set<string>)
    requires i < |events| && Groups(found, events[..i], superseded)
    ensures Groups(Added(found, events[i], Offer(events[i], superseded)), events[..i + 1], superseded)
  {
    assert events[..i + 1][..i] == events[..i];
    var more := Added(found, events[i], Offer(events[i], superseded));
    forall key ensures At(more, key) == CandidatesFor(events[..i + 1], superseded, key) {
      assert At(found, key) == CandidatesFor(events[..i], superseded, key);
    }
  }

  /** One round of the first loop: what is found stays grouped, unless the payload is refused. */
  lemma CollectedNext(found: map<FieldKey, seq<Candidate>>, events: seq<Event>, i: nat)
    requires i < |events| && Groups(found, events[..i], Superseded(events))
    ensures var superseded, field := Superseded(events), FieldIn(events[i].payloadSha.preimage);
      if !Considered(events[i], superseded) then
        !RefusedAt(events, i, superseded) && Groups(found, events[..i + 1], superseded)
      else if field.Ok? then
        !RefusedAt(events, i, superseded) && Groups(Added(found, events[i], field.value), events[..i + 1], superseded)
      else RefusedAt(events, i, superseded)
  {
    hide Groups, Superseded, FieldIn;
    AddedGroups(found, events, i, Superseded(events));
  }

  /** The first loop: candidates grouped by field. */
  method Collect(files: Files, events: seq<Event>) returns (r: Result<map<FieldKey, seq<Candidate>>, Code>)
    requires forall e | e in events :: FieldOf(files, e) == FieldIn(e.payloadSha.preimage)
    ensures r.Err? <==> Refused(events)
    ensures r.Err? ==> FirstRefusal(events, r.error)
    ensures r.Ok? ==> Groups(r.value, events, Superseded(events))
  {
    var superseded := Superseded(events);
    var found: map<FieldKey, seq<Candidate>> := map[];
    assert Groups(found, events[..0], superseded);
    hide Groups, Superseded, Considered, FieldOf, FieldIn, Added, RefusedAt;
    for i := 0 to |events|
      invariant Groups(found, events[..i], superseded)
      invariant forall k: nat | k < i :: !RefusedAt(events, k, superseded)
    {
      CollectedNext(found, events, i);
      if Considered(events[i], superseded) {
        var field := FieldOf(files, events[i]);
        if field.Err? { return Err(field.error); }
        found := Added(found, events[i], field.value);
      }
    }
    assert events[..|events|] == events;
    return Ok(found);
  }

  lemma {:induction false} CandidatesAreListed(items: seq<Event>, superseded: set<string>, key: FieldKey)
    ensures forall c | c in CandidatesFor(items, superseded, key) :: c.event in items && c.event.subject == key.subject
                                                                     && c.event.kind != RESOLUTION_KIND
  {
    if items != [] { CandidatesAreListed(items[..|items| - 1], superseded, key); }
  }

  lemma {:induction false} KeptAreCandidates(candidates: seq<Candidate>, selected: set<string>)
    ensures forall c | c in KeepSelected(candidates, selected) :: c in candidates
  {
    if candidates != [] { KeptAreCandidates(candidates[..|candidates| - 1], selected); }
  }

  lemma ActiveAreListed(events: seq<Event>, resolutions: set<ResolutionRecord>, key: FieldKey)
    ensures forall c | c in ActiveFor(events, resolutions, key) :: c.event in events && c.event.subject == key.subject
                                                                   && c.event.kind != RESOLUTION_KIND
  {
    CandidatesAreListed(events, Superseded(events), key);
    KeptAreCandidates(CandidatesFor(events, Superseded(events), key), Selected(resolutions));
  }

  /** What the second loop has settled for the fields it has visited. */
  datatype Settled = Settled(shown: map<FieldKey, FieldView>, open: set<FieldKey>)

  ghost predicate KeySettled(s: Settled, events: seq<Event>, resolutions: set<ResolutionRecord>, key: FieldKey)
    requires IdsUnique(EventsIn(events))
  {
    && (key in s.open <==> !HasDominator(events, resolutions, key))
    && (key in s.shown <==> HasDominator(events, resolutions, key))
    && (key in s.shown ==> exists c :: Dominates(StoreGraph(events), ActiveFor(events, resolutions, key), c)
                                       && s.shown[key] == FieldView(c.event.id, c.value))
  }

  function Decided(s: Settled, key: FieldKey, chosen: Option<Candidate>): Settled {
    match chosen
    case Some(c) => s.(shown := s.shown[key := FieldView(c.event.id, c.value)])
    case None => s.(open := s.open + {key})
  }

  lemma DecidedSettles(s: Settled, events: seq<Event>, resolutions: set<ResolutionRecord>, key: FieldKey,
                       chosen: Option<Candidate>)
    requires IdsUnique(EventsIn(events)) && key !in s.shown.Keys + s.open
    requires chosen.Some? ==> Dominates(StoreGraph(events), ActiveFor(events, resolutions, key), chosen.value)
    requires chosen.None? ==> !HasDominator(events, resolutions, key)
    ensures KeySettled(Decided(s, key, chosen), events, resolutions, key)
    ensures forall k | k != key && KeySettled(s, events, resolutions, k) ::
      KeySettled(Decided(s, key, chosen), events, resolutions, k)
  {
  }

  /** The second loop: choose for every field that has candidates. */
  method Settle(events: seq<Event>, resolutions: set<ResolutionRecord>, found: map<FieldKey, seq<Candidate>>)
    returns (s: Settled)
    requires IdsUnique(EventsIn(events))
    requires Groups(found, events, Superseded(events))
    ensures forall key | key in found :: KeySettled(s, events, resolutions, key)
    ensures s.shown.Keys + s.open <= found.Keys
  {
    hide Dominates, CandidatesFor, ActiveOf, KeySettled;
    var byId := EventMap(events);
    var g := byId.value;
    s := Settled(map[], {});
    var rest := found.Keys;
    while rest != {}
      invariant rest <= found.Keys && s.shown.Keys + s.open <= found.Keys - rest
      invariant forall key | key in found.Keys - rest :: KeySettled(s, events, resolutions, key)
      decreases rest
    {
      var key :| key in rest;
      var active := ActiveOf(found[key], resolutions);
      assert At(found, key) == found[key];
      ActiveAreListed(events, resolutions, key);
      var chosen := Choose(g, active);
      DominatorIsActive(g, active);
      DecidedSettles(s, events, resolutions, key, chosen);
      s, rest := Decided(s, key, chosen), rest - {key};
    }
  }

  lemma DominatorIsActive(g: Graph, active: seq<Candidate>)
    ensures forall c | Dominates(g, active, c) :: c in active
  {
  }

  lemma UnfoundIsEmpty(found: map<FieldKey, seq<Candidate>>, events: seq<Event>, resolutions: set<ResolutionRecord>,
                       key: FieldKey)
    requires IdsUnique(EventsIn(events)) && Groups(found, events, Superseded(events)) && key !in found
    ensures ActiveFor(events, resolutions, key) == [] && !HasDominator(events, resolutions, key)
  {
    assert At(found, key) == [];
    assert CandidatesFor(events, Superseded(events), key) == [];
  }

  /** Every field of a subject shows what was settled for it. */
  lemma SettledShows(view: SubjectView, events: seq<Event>, resolutions: set<ResolutionRecord>, subject: string,
                     field: string, found: map<FieldKey, seq<Candidate>>, s: Settled)
    requires IdsUnique(EventsIn(events)) && Groups(found, events, Superseded(events))
    requires s.shown.Keys <= found.Keys
    requires forall key | key in found :: KeySettled(s, events, resolutions, key)
    requires view.fields == map key | key in s.shown && key.subject == subject :: key.field := s.shown[key]
    ensures FieldShown(view, events, resolutions, FieldKey(subject, field))
  {
    hide Groups, Dominates, ActiveFor, CandidatesFor;
    var key := FieldKey(subject, field);
    if key !in found { UnfoundIsEmpty(found, events, resolutions, key); }
  }

  /** A field left open is one that was found and settled so. */
  lemma LeftOpenIsSettled(events: seq<Event>, resolutions: set<ResolutionRecord>, key: FieldKey, id: string,
                          found: map<FieldKey, seq<Candidate>>, s: Settled)
    requires IdsUnique(EventsIn(events)) && Groups(found, events, Superseded(events))
    requires s.open <= found.Keys
    requires forall k | k in found :: KeySettled(s, events, resolutions, k)
    ensures LeftOpen(events, resolutions, key, id) <==>
            key in s.open && exists c :: c in ActiveFor(events, resolutions, key) && c.event.id == id
  {
    hide Groups, Dominates, ActiveFor, CandidatesFor;
    if key !in found { UnfoundIsEmpty(found, events, resolutions, key); }
  }

  /** The candidates of the fields left open. */
  function Unresolved(events: seq<Event>, resolutions: set<ResolutionRecord>, subject: string, s: Settled)
    : set<string>
  {
    set key, c | key in s.open && key.subject == subject && c in ActiveFor(events, resolutions, key) :: c.event.id
  }

  lemma UnresolvedAreLeftOpen(events: seq<Event>, resolutions: set<ResolutionRecord>, subject: string,
                              found: map<FieldKey, seq<Candidate>>, s: Settled, id: string)
    requires IdsUnique(EventsIn(events)) && Groups(found, events, Superseded(events))
    requires s.open <= found.Keys
    requires forall k | k in found :: KeySettled(s, events, resolutions, k)
    ensures id in Unresolved(events, resolutions, subject, s) <==>
            exists field :: LeftOpen(events, resolutions, FieldKey(subject, field), id)
  {
    hide Groups, HasDominator, ActiveFor, KeySettled, LeftOpen, IdsUnique;
    forall field { LeftOpenIsSettled(events, resolutions, FieldKey(subject, field), id, found, s); }
    if id in Unresolved(events, resolutions, subject, s) {
      var key, c :| key in s.open && key.subject == subject && c in ActiveFor(events, resolutions, key)
                    && c.event.id == id;
      assert key == FieldKey(subject, key.field);
    }
  }

  /** One subject's view, put together from what the second loop settled. */
  method ViewOf(subject: string, events: seq<Event>, conflicts: set<ConflictRecord>,
                resolutions: set<ResolutionRecord>, found: map<FieldKey, seq<Candidate>>, s: Settled)
    returns (view: SubjectView)
    requires IdsUnique(EventsIn(events)) && Groups(found, events, Superseded(events))
    requires s.shown.Keys + s.open <= found.Keys
    requires forall key | key in found :: KeySettled(s, events, resolutions, key)
    ensures SubjectShown(view, events, conflicts, resolutions, subject)
  {
    hide Groups, HasDominator, ActiveFor, KeySettled, FieldShown, LeftOpen, IdsUnique, OpenConflicts, Unresolved;
    var fields := map key | key in s.shown && key.subject == subject :: key.field := s.shown[key];
    var ids := SortText(Unresolved(events, resolutions, subject, s));
    view := SubjectView(fields, OpenConflicts(subject, conflicts, resolutions), ids);
    forall field ensures FieldShown(view, events, resolutions, FieldKey(subject, field)) {
      SettledShows(view, events, resolutions, subject, field, found, s);
    }
    forall id ensures id in ids <==> exists field :: LeftOpen(events, resolutions, FieldKey(subject, field), id) {
      UnresolvedAreLeftOpen(events, resolutions, subject, found, s, id);
    }
  }

  /** Every subject's view. */
  method Views(events: seq<Event>, conflicts: set<ConflictRecord>, resolutions: set<ResolutionRecord>,
               found: map<FieldKey, seq<Candidate>>, settled: Settled) returns (subjects: map<string, SubjectView>)
    requires IdsUnique(EventsIn(events)) && Groups(found, events, Superseded(events))
    requires settled.shown.Keys + settled.open <= found.Keys
    requires forall key | key in found :: KeySettled(settled, events, resolutions, key)
    ensures subjects.Keys == SubjectsIn(events)
    ensures forall subject | subject in subjects ::
      SubjectShown(subjects[subject], events, conflicts, resolutions, subject)
  {
    hide Groups, KeySettled, SubjectShown, SubjectsIn, IdsUnique;
    subjects := map[];
    var rest := SubjectsIn(events);
    while rest != {}
      invariant rest <= SubjectsIn(events) && subjects.Keys == SubjectsIn(events) - rest
      invariant forall subject | subject in subjects ::
        SubjectShown(subjects[subject], events, conflicts, resolutions, subject)
      decreases rest
    {
      var subject :| subject in rest;
      var view := ViewOf(subject, events, conflicts, resolutions, found, settled);
      subjects, rest := subjects[subject := view], rest - {subject};
    }
  }

  lemma StoredFieldsAreNamed(f: Files)
    requires FilesInv(f)
    ensures IdsUnique(Stored(f)) && EventsIn(Listing(Stored(f))) == Stored(f)
    ensures forall e | e in Listing(Stored(f)) :: FieldOf(f, e) == FieldIn(e.payloadSha.preimage)
  {
    StoredIsWhatGetEventReads(f);
    hide FilesInv, FieldOf, FieldIn;
    forall e | e in Listing(Stored(f)) ensures FieldOf(f, e) == FieldIn(e.payloadSha.preimage) {
      StoredFieldIsNamed(f, e);
    }
  }

  lemma AllParents(events: seq<Event>)
    ensures (set e, p | e in events && p in e.parents :: p) == ParentIds(EventsIn(events))
  {
  }

  /** `_projection_value` */
  method ProjectionValue(store: FederationStore) returns (r: Result<Projection, Code>)
    requires store.Valid()
    ensures IdsUnique(Stored(store.Snapshot()))
    ensures r.Err? <==> Refused(Listing(Stored(store.Snapshot())))
    ensures r.Err? ==> FirstRefusal(Listing(Stored(store.Snapshot())), r.error)
    ensures r.Ok? ==> Projects(r.value, Listing(Stored(store.Snapshot())), store.conflicts.Values,
                               store.resolutions.Values)
  {
    hide FilesInv, Stored, Listing, FieldOf, FieldIn, Groups, KeySettled, SubjectShown, Refused, FirstRefusal;
    var events := store.ListEvents();
    StoredFieldsAreNamed(store.Snapshot());
    var found := Collect(store.Snapshot(), events);
    if found.Err? { return Err(found.error); }
    var conflicts, resolutions := store.conflicts.Values, store.resolutions.Values;
    var settled := Settle(events, resolutions, found.value);
    var subjects := Views(events, conflicts, resolutions, found.value, settled);
    var parents := set e, p | e in events && p in e.parents :: p;
    AllParents(events);
    return Ok(Projection(RecordsFor(events), SortList(HeadList(events, parents)), subjects, conflicts, resolutions));
  }

  // What the view means

  lemma CandidateValueIsItsEvents(items: seq<Event>, superseded: set<string>, key: FieldKey)
    ensures forall c | c in CandidatesFor(items, superseded, key) ::
      c.event in items && Offer(c.event, superseded) == Some(FieldValue(key.field, c.value))
  {
    if items != [] { CandidateValueIsItsEvents(items[..|items| - 1], superseded, key); }
  }

  lemma ActiveByIdUnique(events: seq<Event>, resolutions: set<ResolutionRecord>, key: FieldKey, c: Candidate,
                         d: Candidate)
    requires IdsUnique(EventsIn(events)) && c.event.id == d.event.id
    requires c in ActiveFor(events, resolutions, key) && d in ActiveFor(events, resolutions, key)
    ensures c == d
  {
    CandidateValueIsItsEvents(events, Superseded(events), key);
    KeptAreCandidates(CandidatesFor(events, Superseded(events), key), Selected(resolutions));
    assert c.event in EventsIn(events) && d.event in EventsIn(events);
  }

  /** In an acyclic store a field shows a value exactly when some active candidate dominates;
    that candidate is unique and is the one shown; otherwise every active one is listed open. */
  lemma ShownExactlyWhenDominated(p: Projection, events: seq<Event>, conflicts: set<ConflictRecord>,
                                  resolutions: set<ResolutionRecord>, subject: string, field: string)
    requires Projects(p, events, conflicts, resolutions) && Acyclic(StoreGraph(events)) && subject in p.subjects
    ensures var active := ActiveFor(events, resolutions, FieldKey(subject, field));
      var view := p.subjects[subject];
      && (field in view.fields <==> exists c :: Dominates(StoreGraph(events), active, c))
      && (forall c | Dominates(StoreGraph(events), active, c) ::
          field in view.fields && view.fields[field] == FieldView(c.event.id, c.value))
      && (forall c, d | Dominates(StoreGraph(events), active, c) && Dominates(StoreGraph(events), active, d) :: c == d)
      && (field !in view.fields ==> forall c | c in active :: c.event.id in view.unresolvedEvents)
  {
    var key := FieldKey(subject, field);
    var active, g := ActiveFor(events, resolutions, key), StoreGraph(events);
    assert SubjectShown(p.subjects[subject], events, conflicts, resolutions, subject);
    assert FieldShown(p.subjects[subject], events, resolutions, key);
    forall c, d | Dominates(g, active, c) && Dominates(g, active, d) ensures c == d {
      DominatorUnique(g, active, c, d);
      ActiveByIdUnique(events, resolutions, key, c, d);
    }
    if field !in p.subjects[subject].fields {
      forall c | c in active ensures c.event.id in p.subjects[subject].unresolvedEvents {
        assert LeftOpen(events, resolutions, key, c.event.id);
      }
    }
  }

  lemma {:induction false} KeptExactlySelected(candidates: seq<Candidate>, selected: set<string>)
    ensures forall c :: c in KeepSelected(candidates, selected) <==> c in candidates && c.event.id in selected
  {
    if candidates != [] {
      var init, last := candidates[..|candidates| - 1], candidates[|candidates| - 1];
      KeptExactlySelected(init, selected);
      assert candidates == init + [last];
    }
  }

  /** Once any candidate of a field was a member of a resolved conflict, exactly the selected
    candidates stay: unselected ones are dropped even if they arrived later. */
  lemma ResolutionDropsUnselected(events: seq<Event>, resolutions: set<ResolutionRecord>, key: FieldKey,
                                  member: Candidate)
    requires member in CandidatesFor(events, Superseded(events), key) && member.event.id in ResolvedMembers(resolutions)
    ensures forall c :: c in ActiveFor(events, resolutions, key) <==>
                        c in CandidatesFor(events, Superseded(events), key) && c.event.id in Selected(resolutions)
  {
    KeptExactlySelected(CandidatesFor(events, Superseded(events), key), Selected(resolutions));
  }

  // The view is a function of the stored events and records

  lemma SameIdsSameListing(a: seq<string>, b: seq<string>)
    requires Ascending(TextLess, a) && Ascending(TextLess, b) && forall x :: x in a <==> x in b
    ensures a == b
  {
    var items := set x | x in a;
    TextOrderTotal(items);
    ListingUnique(TextLess, a, b, items);
  }

  lemma SubjectDetermined(v: SubjectView, w: SubjectView, events: seq<Event>, conflicts: set<ConflictRecord>,
                          resolutions: set<ResolutionRecord>, subject: string)
    requires IdsUnique(EventsIn(events)) && Acyclic(StoreGraph(events))
    requires SubjectShown(v, events, conflicts, resolutions, subject)
      && SubjectShown(w, events, conflicts, resolutions, subject)
    ensures v == w
  {
    var g := StoreGraph(events);
    hide OpenIds, ActiveFor, IdsUnique, Acyclic, OpenConflicts;
    OpenIdsDetermined(v.unresolvedEvents, w.unresolvedEvents, events, resolutions, subject);
    forall field ensures field in v.fields <==> field in w.fields
      ensures field in v.fields ==> v.fields[field] == w.fields[field]
    {
      var key := FieldKey(subject, field);
      assert FieldShown(v, events, resolutions, key) && FieldShown(w, events, resolutions, key);
      if field in v.fields && field in w.fields {
        var active := ActiveFor(events, resolutions, key);
        var c :| Dominates(g, active, c) && v.fields[field] == FieldView(c.event.id, c.value);
        var d :| Dominates(g, active, d) && w.fields[field] == FieldView(d.event.id, d.value);
        DominatorUnique(g, active, c, d);
        ActiveByIdUnique(events, resolutions, key, c, d);
      }
    }
    assert v.fields == w.fields;
  }

  lemma OpenIdsDetermined(a: seq<string>, b: seq<string>, events: seq<Event>, resolutions: set<ResolutionRecord>,
                          subject: string)
    requires IdsUnique(EventsIn(events)) && OpenIds(a, events, resolutions, subject)
      && OpenIds(b, events, resolutions, subject)
    ensures a == b
  {
    SameIdsSameListing(a, b);
  }

  /** Two projections of the same events and records are equal. */
  lemma ProjectionDetermined(p: Projection, q: Projection, events: seq<Event>, conflicts: set<ConflictRecord>,
                             resolutions: set<ResolutionRecord>)
    requires Projects(p, events, conflicts, resolutions) && Projects(q, events, conflicts, resolutions)
    requires Acyclic(StoreGraph(events))
    ensures p == q
  {
    forall subject | subject in p.subjects ensures p.subjects[subject] == q.subjects[subject] {
      SubjectDetermined(p.subjects[subject], q.subjects[subject], events, conflicts, resolutions, subject);
    }
    assert p.subjects == q.subjects;
  }
}
