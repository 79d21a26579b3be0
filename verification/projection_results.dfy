/** What a projection shows, told over the stored events and the records alone. */
module ProjectionResults {
  import opened Prelude
  import opened Ordering
  import opened Events
  import opened SubmitProtocol
  import opened Causal
  import opened FederationStores
  import opened Projector

  /** A stored event sets a field: it resolves and withdraws nothing, no stored event withdraws or corrects it, and its
    payload is exactly a field name and a value. */
  predicate Sets(events: seq<Event>, e: Event, field: string, value: Json) {
    && e in events && e.kind != "pmw.conflict.resolution" && e.withdraws == None
    && (forall o | o in events :: o.withdraws != Some(e.id) && o.correctionOf != Some(e.id))
    && field != "" && e.payloadSha.preimage.json == Some(Object(map["field" := Text(field), "value" := value]))
  }

  /** Some event that sets this field was a member of a resolved conflict. */
  ghost predicate Touched(events: seq<Event>, resolutions: set<ResolutionRecord>, subject: string, field: string) {
    exists e, value, r :: Sets(events, e, field, value) && e.subject == subject && r in resolutions && e.id in r.members
  }

  ghost predicate Chosen(resolutions: set<ResolutionRecord>, id: string) {
    exists r :: r in resolutions && r.selected == id
  }

  /** The event still counts for its field: none that sets it was in a resolved conflict, or a resolution chose it. */
  ghost predicate Counts(events: seq<Event>, resolutions: set<ResolutionRecord>, subject: string, field: string,
                         e: Event, value: Json) {
    Sets(events, e, field, value) && e.subject == subject
    && (Touched(events, resolutions, subject, field) ==> Chosen(resolutions, e.id))
  }

  /** Every other event that counts for the field came before this one. */
  ghost predicate Prevails(events: seq<Event>, resolutions: set<ResolutionRecord>, subject: string, field: string,
                           e: Event, value: Json)
    requires IdsUnique(EventsIn(events))
  {
    && Counts(events, resolutions, subject, field, e, value)
    && forall o, other | Counts(events, resolutions, subject, field, o, other) ::
         o.id == e.id || Ancestor(GraphOf(EventsIn(events)), o.id, e.id)
  }

  // Candidates are the events that set a field

  lemma {:induction false} CandidatesOffer(items: seq<Event>, superseded: set<string>, key: FieldKey, c: Candidate)
    ensures c in CandidatesFor(items, superseded, key) <==>
      c.event in items && c.event.subject == key.subject
      && Offer(c.event, superseded) == Some(FieldValue(key.field, c.value))
  {
    if items != [] {
      var init, e := items[..|items| - 1], items[|items| - 1];
      CandidatesOffer(init, superseded, key, c);
      assert items == init + [e];
    }
  }

  lemma OfferIs(events: seq<Event>, e: Event, field: string, value: Json)
    requires e in events
    ensures Offer(e, Superseded(events)) == Some(FieldValue(field, value)) <==> Sets(events, e, field, value)
  {
    var superseded := Superseded(events);
    assert e.id in superseded <==>
      exists o :: o in events && (o.withdraws == Some(e.id) || o.correctionOf == Some(e.id));
    if FieldIn(e.payloadSha.preimage) == Ok(Some(FieldValue(field, value))) {
      var fields := e.payloadSha.preimage.json.value.fields;
      assert fields == map["field" := Text(field), "value" := value];
    }
  }

  lemma CandidateSets(events: seq<Event>, key: FieldKey, c: Candidate)
    ensures c in CandidatesFor(events, Superseded(events), key) <==>
            Sets(events, c.event, key.field, c.value) && c.event.subject == key.subject
  {
    hide Offer, Superseded;
    CandidatesOffer(events, Superseded(events), key, c);
    if c.event in events { OfferIs(events, c.event, key.field, c.value); }
  }

  lemma ActiveCounts(events: seq<Event>, resolutions: set<ResolutionRecord>, key: FieldKey, c: Candidate)
    ensures c in ActiveFor(events, resolutions, key) <==>
            Counts(events, resolutions, key.subject, key.field, c.event, c.value)
  {
    hide Sets, Superseded, CandidatesFor, KeepSelected;
    var candidates := CandidatesFor(events, Superseded(events), key);
    forall d ensures d in candidates <==> Sets(events, d.event, key.field, d.value) && d.event.subject == key.subject {
      CandidateSets(events, key, d);
    }
    KeptExactlySelected(candidates, Selected(resolutions));
    TouchedIs(events, resolutions, key, candidates);
    assert c.event.id in Selected(resolutions) <==> Chosen(resolutions, c.event.id);
  }

  lemma TouchedIs(events: seq<Event>, resolutions: set<ResolutionRecord>, key: FieldKey, candidates: seq<Candidate>)
    requires forall d :: d in candidates <==>
      Sets(events, d.event, key.field, d.value) && d.event.subject == key.subject
    ensures Touched(events, resolutions, key.subject, key.field) <==>
            exists i | 0 <= i < |candidates| :: candidates[i].event.id in ResolvedMembers(resolutions)
  {
    hide Sets;
    if i :| 0 <= i < |candidates| && candidates[i].event.id in ResolvedMembers(resolutions) {
      assert candidates[i] in candidates;
    }
    if e, value, r :|
      Sets(events, e, key.field, value) && e.subject == key.subject && r in resolutions && e.id in r.members
    {
      assert Candidate(e, value) in candidates;
      var i :| 0 <= i < |candidates| && candidates[i] == Candidate(e, value);
    }
  }

  // What the view says

  lemma DominatesIs(events: seq<Event>, resolutions: set<ResolutionRecord>, subject: string, field: string,
                    c: Candidate)
    requires IdsUnique(EventsIn(events))
    ensures Dominates(StoreGraph(events), ActiveFor(events, resolutions, FieldKey(subject, field)), c) <==>
            Prevails(events, resolutions, subject, field, c.event, c.value)
  {
    hide Counts, ActiveFor, Ancestor;
    var key := FieldKey(subject, field);
    var active := ActiveFor(events, resolutions, key);
    forall d ensures d in active <==> Counts(events, resolutions, subject, field, d.event, d.value) {
      ActiveCounts(events, resolutions, key, d);
    }
    forall o, other ensures Counts(events, resolutions, subject, field, o, other) <==> Candidate(o, other) in active {}
  }

  /** Nothing that counts for the field prevails. */
  ghost predicate Undecided(events: seq<Event>, resolutions: set<ResolutionRecord>, subject: string, field: string)
    requires IdsUnique(EventsIn(events))
  {
    forall e, value :: !Prevails(events, resolutions, subject, field, e, value)
  }

  lemma UndecidedIs(events: seq<Event>, resolutions: set<ResolutionRecord>, subject: string, field: string)
    requires IdsUnique(EventsIn(events))
    ensures Undecided(events, resolutions, subject, field) <==>
            !HasDominator(events, resolutions, FieldKey(subject, field))
  {
    hide Prevails, Dominates;
    var key := FieldKey(subject, field);
    forall c ensures Dominates(StoreGraph(events), ActiveFor(events, resolutions, key), c) <==>
                     Prevails(events, resolutions, subject, field, c.event, c.value)
    {
      DominatesIs(events, resolutions, subject, field, c);
    }
    forall e, value
      ensures Prevails(events, resolutions, subject, field, e, value) <==>
        Dominates(StoreGraph(events), ActiveFor(events, resolutions, FieldKey(subject, field)), Candidate(e, value))
    {
      DominatesIs(events, resolutions, subject, field, Candidate(e, value));
    }
  }

  lemma FieldOfView(p: Projection, events: seq<Event>, conflicts: set<ConflictRecord>,
                    resolutions: set<ResolutionRecord>, subject: string, field: string)
    requires Projects(p, events, conflicts, resolutions) && subject in p.subjects
    ensures FieldShown(p.subjects[subject], events, resolutions, FieldKey(subject, field))
    ensures OpenIds(p.subjects[subject].unresolvedEvents, events, resolutions, subject)
  {
    hide FieldShown, OpenIds, RecordsFor;
    assert SubjectShown(p.subjects[subject], events, conflicts, resolutions, subject);
  }

  /** Whatever a field shows is the value of a prevailing event; it shows something exactly if one prevails. */
  lemma ShownPrevails(p: Projection, events: seq<Event>, conflicts: set<ConflictRecord>,
                      resolutions: set<ResolutionRecord>, subject: string, field: string)
    requires Projects(p, events, conflicts, resolutions) && subject in p.subjects
    ensures var fields := p.subjects[subject].fields;
      && (field in fields <==> !Undecided(events, resolutions, subject, field))
      && (field in fields ==> exists e, value :: Prevails(events, resolutions, subject, field, e, value)
                                                 && fields[field] == FieldView(e.id, value))
  {
    hide Prevails, Dominates, RecordsFor, SubjectShown;
    FieldOfView(p, events, conflicts, resolutions, subject, field);
    UndecidedIs(events, resolutions, subject, field);
    if field in p.subjects[subject].fields {
      var c :| Dominates(StoreGraph(events), ActiveFor(events, resolutions, FieldKey(subject, field)), c)
               && p.subjects[subject].fields[field] == FieldView(c.event.id, c.value);
      DominatesIs(events, resolutions, subject, field, c);
    }
  }

  /** An id is listed unresolved exactly if its event counts for a field that nothing prevails in. */
  lemma UnresolvedIsUndecided(p: Projection, events: seq<Event>, conflicts: set<ConflictRecord>,
                              resolutions: set<ResolutionRecord>, subject: string, id: string)
    requires Projects(p, events, conflicts, resolutions) && subject in p.subjects
    ensures id in p.subjects[subject].unresolvedEvents <==>
      exists field, e, value :: Counts(events, resolutions, subject, field, e, value) && e.id == id
                                && Undecided(events, resolutions, subject, field)
  {
    hide Counts, Undecided, HasDominator, RecordsFor, SubjectShown, FieldShown;
    FieldOfView(p, events, conflicts, resolutions, subject, "");
    forall field ensures LeftOpen(events, resolutions, FieldKey(subject, field), id) <==>
      Undecided(events, resolutions, subject, field)
      && exists e, value :: Counts(events, resolutions, subject, field, e, value) && e.id == id
    {
      OpenIs(events, resolutions, subject, field, id);
    }
  }

  lemma OpenIs(events: seq<Event>, resolutions: set<ResolutionRecord>, subject: string, field: string, id: string)
    requires IdsUnique(EventsIn(events))
    ensures LeftOpen(events, resolutions, FieldKey(subject, field), id) <==>
      Undecided(events, resolutions, subject, field)
      && exists e, value :: Counts(events, resolutions, subject, field, e, value) && e.id == id
  {
    hide Counts, Undecided, HasDominator, ActiveFor;
    UndecidedIs(events, resolutions, subject, field);
    var key := FieldKey(subject, field);
    forall c ensures c in ActiveFor(events, resolutions, key) <==>
                     Counts(events, resolutions, subject, field, c.event, c.value)
    {
      ActiveCounts(events, resolutions, key, c);
    }
    if e, value :| Counts(events, resolutions, subject, field, e, value) && e.id == id {
      assert Candidate(e, value) in ActiveFor(events, resolutions, key);
    }
  }

  /** What a view shows or lists as unresolved was set by a stored event that still stands, for just that subject, field
    and value. */
  lemma ViewIsSet(p: Projection, events: seq<Event>, conflicts: set<ConflictRecord>, resolutions: set<ResolutionRecord>,
                  subject: string)
    requires Projects(p, events, conflicts, resolutions) && subject in p.subjects
    ensures var view := p.subjects[subject];
      && (forall field | field in view.fields ::
            exists e :: Sets(events, e, field, view.fields[field].value) && e.subject == subject
                        && e.id == view.fields[field].source)
      && (forall id | id in view.unresolvedEvents ::
            exists field, e, value :: Sets(events, e, field, value) && e.subject == subject && e.id == id)
  {
    hide Sets, Undecided, Projects;
    var view := p.subjects[subject];
    forall field | field in view.fields
      ensures exists e :: Sets(events, e, field, view.fields[field].value) && e.subject == subject
                          && e.id == view.fields[field].source
    {
      ProjectsUnique(p, events, conflicts, resolutions);
      ShownPrevails(p, events, conflicts, resolutions, subject, field);
    }
    forall id | id in view.unresolvedEvents
      ensures exists field, e, value :: Sets(events, e, field, value) && e.subject == subject && e.id == id
    {
      ProjectsUnique(p, events, conflicts, resolutions);
      UnresolvedIsUndecided(p, events, conflicts, resolutions, subject, id);
    }
  }

  lemma ProjectsUnique(p: Projection, events: seq<Event>, conflicts: set<ConflictRecord>,
                       resolutions: set<ResolutionRecord>)
    requires Projects(p, events, conflicts, resolutions)
    ensures IdsUnique(EventsIn(events))
  {
  }

  /** Nothing that sets a field is lost: it is shown, or came before what is shown, or is listed unresolved, or was
    dropped because a resolution touched the field and none chose it. */
  lemma NothingSetIsLost(p: Projection, events: seq<Event>, conflicts: set<ConflictRecord>,
                         resolutions: set<ResolutionRecord>, e: Event, field: string, value: Json)
    requires Projects(p, events, conflicts, resolutions) && Sets(events, e, field, value)
    ensures e.subject in p.subjects
    ensures var view := p.subjects[e.subject];
      || (field in view.fields
          && (view.fields[field] == FieldView(e.id, value)
              || Ancestor(GraphOf(EventsIn(events)), e.id, view.fields[field].source)))
      || (field !in view.fields && e.id in view.unresolvedEvents)
      || (Touched(events, resolutions, e.subject, field) && !Chosen(resolutions, e.id))
  {
    hide Touched, Undecided, RecordsFor, SubjectShown, Ancestor;
    assert e.subject in SubjectsIn(events);
    if Counts(events, resolutions, e.subject, field, e, value) {
      ShownPrevails(p, events, conflicts, resolutions, e.subject, field);
      UnresolvedIsUndecided(p, events, conflicts, resolutions, e.subject, e.id);
      if field in p.subjects[e.subject].fields {
        var o, other :| Prevails(events, resolutions, e.subject, field, o, other)
                        && p.subjects[e.subject].fields[field] == FieldView(o.id, other);
        if o.id == e.id { SameEventSameValue(events, e, o, field, value, other); }
      }
    }
  }

  lemma SameEventSameValue(events: seq<Event>, e: Event, o: Event, field: string, value: Json, other: Json)
    requires IdsUnique(EventsIn(events)) && Sets(events, e, field, value) && Sets(events, o, field, other)
      && e.id == o.id
    ensures value == other
  {
    assert e in EventsIn(events) && o in EventsIn(events);
    assert map["field" := Text(field), "value" := value]["value"] == value;
    assert map["field" := Text(field), "value" := other]["value"] == other;
  }

  /** The rest of a projection: one record per event in listing order, the heads, every subject some event other than a
    resolution is about, and under each the conflicts about it that nothing resolved. */
  lemma FrameOfView(p: Projection, events: seq<Event>, conflicts: set<ConflictRecord>,
                    resolutions: set<ResolutionRecord>)
    requires Projects(p, events, conflicts, resolutions)
    requires forall i, j | 0 <= i < j < |events| :: events[i].id != events[j].id
    ensures |p.records| == |events|
    ensures forall i | 0 <= i < |events| ::
      var e := events[i];
      p.records[i] == EventRecord(e.id, CoreDigest(e), e.kind, e.subject, e.fabricClass, e.correctionOf, e.withdraws)
    ensures Ascending(TextLess, p.heads)
    ensures forall id :: id in p.heads <==>
      (exists e :: e in events && e.id == id) && forall e | e in events :: id !in e.parents
    ensures forall subject :: subject in p.subjects <==>
      exists e :: e in events && e.kind != "pmw.conflict.resolution" && e.subject == subject
    ensures forall subject, id | subject in p.subjects :: id in p.subjects[subject].unresolvedConflicts <==>
      (exists c :: c in conflicts && c.core.subject == subject && c.id == id)
      && forall r | r in resolutions :: r.key.conflict != id
    ensures p.conflicts == conflicts && p.resolutions == resolutions
  {
    hide FieldShown, OpenIds;
    SortedHeads(events);
    forall subject | subject in p.subjects ensures p.subjects[subject].unresolvedConflicts ==
                                                   OpenConflicts(subject, conflicts, resolutions)
    {
      assert SubjectShown(p.subjects[subject], events, conflicts, resolutions, subject);
    }
  }

  lemma SortedHeads(events: seq<Event>)
    requires forall i, j | 0 <= i < j < |events| :: events[i].id != events[j].id
    ensures var heads := SortList(HeadList(events, ParentIds(EventsIn(events))));
      && Ascending(TextLess, heads)
      && forall id :: id in heads <==>
           (exists e :: e in events && e.id == id) && forall e | e in events :: id !in e.parents
  {
    hide HeadList, SortList;
    HeadsOfDistinctEvents(events);
    var ids := HeadIds(EventsIn(events));
    forall id ensures id in ids <==>
      (exists e :: e in events && e.id == id) && forall e | e in events :: id !in e.parents
    {
      HeadIs(events, id);
    }
  }

  lemma HeadIs(events: seq<Event>, id: string)
    ensures id in HeadIds(EventsIn(events)) <==>
      (exists e :: e in events && e.id == id) && forall e | e in events :: id !in e.parents
  {
    assert forall e :: e in EventsIn(events) <==> e in events;
  }

  // When there is no view

  /** The event may set a field as far as the other events are concerned. */
  predicate StillStands(events: seq<Event>, e: Event) {
    && e.kind != "pmw.conflict.resolution" && e.withdraws == None
    && forall o | o in events :: o.withdraws != Some(e.id) && o.correctionOf != Some(e.id)
  }

  /** What is wrong with a payload: it does not parse, or it has just a field and a value but the field is no name. */
  function Fault(e: Event): Option<Code> {
    match e.payloadSha.preimage.json
    case None => Some(ProjectionPayloadInvalid)
    case Some(json) =>
      if json.Object? && json.fields.Keys == {"field", "value"}
        && (json.fields["field"] == Text("") || !json.fields["field"].Text?)
      then Some(ProjectionFieldInvalid) else None
  }

  /** The projection is refused exactly if a payload of an event that still stands is faulty, with the code of the first
    such in the listing. */
  lemma RefusalMeans(events: seq<Event>, code: Code)
    ensures FirstRefusal(events, code) <==>
      exists i | 0 <= i < |events| ::
        && StillStands(events, events[i]) && Fault(events[i]) == Some(code)
        && forall k | 0 <= k < i && StillStands(events, events[k]) :: Fault(events[k]) == None
    ensures Refused(events) <==>
      exists i | 0 <= i < |events| :: StillStands(events, events[i]) && Fault(events[i]).Some?
  {
    hide Superseded, StillStands, Fault, FieldIn, RefusedAt;
    var superseded := Superseded(events);
    forall i: nat | i < |events|
      ensures RefusedAt(events, i, superseded) <==> StillStands(events, events[i]) && Fault(events[i]).Some?
      ensures Fault(events[i]).Some? ==> FieldIn(events[i].payloadSha.preimage) == Err(Fault(events[i]).value)
    {
      RefusedAtIs(events, i);
    }
  }

  lemma RefusedAtIs(events: seq<Event>, i: nat)
    requires i < |events|
    ensures RefusedAt(events, i, Superseded(events)) <==> StillStands(events, events[i]) && Fault(events[i]).Some?
    ensures Fault(events[i]).Some? ==> FieldIn(events[i].payloadSha.preimage) == Err(Fault(events[i]).value)
  {
    hide Superseded, StillStands, Fault, FieldIn, Considered;
    StandsIs(events, events[i]);
    FaultIs(events[i]);
  }

  lemma StandsIs(events: seq<Event>, e: Event)
    ensures Considered(e, Superseded(events)) <==> StillStands(events, e)
  {
    assert e.id in Superseded(events) <==>
           exists o :: o in events && (o.withdraws == Some(e.id) || o.correctionOf == Some(e.id));
  }

  lemma FaultIs(e: Event)
    ensures FieldIn(e.payloadSha.preimage).Err? <==> Fault(e).Some?
    ensures Fault(e).Some? ==> FieldIn(e.payloadSha.preimage) == Err(Fault(e).value)
  {
  }
}
