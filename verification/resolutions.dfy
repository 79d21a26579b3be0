/** Resolving a recorded conflict by a verified resolution event. */
module Resolutions {
  import opened Prelude
  import opened Events
  import opened SubmitProtocol
  import opened SubmitRuns
  import opened FederationStores
  import opened Causal
  import opened Reconcile
  import opened Projector

  function Texts(v: Json): Option<seq<string>> {
    if v.List? && forall i | 0 <= i < |v.items| :: v.items[i].Text?
    then Some(seq(|v.items|, i requires 0 <= i < |v.items| => v.items[i].s)) else None
  }

  /** Everything `resolve_conflict` checks before it writes; `name` is the conflict id as text.  The
    selected event, if nothing is amiss. */
  function Selection(config: Config, conflict: ConflictRecord, name: string, event: Event, payload: Payload,
                     answer: Option<Verification>): Result<string, Code>
  {
    var members := conflict.core.members;
    if event.kind != RESOLUTION_KIND || event.subject != name then Err(ResolutionSubjectMismatch)
    else match Authority(config, event, answer, "resolve_conflict", name)
      case Err(code) => Err(code)
      case Ok(status) =>
        if status != Verified then Err(ResolutionAuthorityUnverified)
        else match PayloadObject(payload)
          case Err(code) => Err(code)
          case Ok(fields) =>
            if fields.Keys != {"conflict_id", "member_event_ids", "selected_event_id"}
              then Err(ResolutionPayloadInvalid)
            else if fields["conflict_id"] != Text(name) then Err(ResolutionSubjectMismatch)
            else if Texts(fields["member_event_ids"]).None?
              || multiset(Texts(fields["member_event_ids"]).value) != multiset(members)
              then Err(ConflictMembersIncomplete)
            else if !fields["selected_event_id"].Text? || fields["selected_event_id"].s !in members
              then Err(ResolutionSelectionInvalid)
            else if (set p | p in event.parents) != (set m | m in members) then Err(ResolutionParentsIncomplete)
            else Ok(fields["selected_event_id"].s)
  }

  function ResolutionOf(conflict: ConflictRecord, event: Event, answer: Option<Verification>, selected: string)
    : ResolutionRecord
  {
    ResolutionRecord(ResolutionKey(conflict.id, event.id), CoreDigest(event), event.authority,
                     if answer.Some? then answer.value.evidence else None,
                     (set m | m in conflict.core.members), selected)
  }

  function ResolutionSubmission(event: Event, payload: Payload): Submission {
    Submission(event, payload, "resolution:" + event.id)
  }

  function TextList(texts: seq<string>): Json {
    List(seq(|texts|, i requires 0 <= i < |texts| => Text(texts[i])))
  }

  /** The one payload that selects `selected`, with the members listed in some order. */
  function ResolutionPayload(name: string, members: seq<string>, selected: string): Json {
    Object(map[
      "conflict_id" := Text(name),
      "member_event_ids" := TextList(members),
      "selected_event_id" := Text(selected)])
  }

  /** Reading a list of texts undoes writing it. */
  lemma TextsReadBack(v: Json, texts: seq<string>)
    ensures Texts(v) == Some(texts) <==> v == TextList(texts)
  {
    if v == TextList(texts) { assert Texts(v).value == texts; }
    if Texts(v) == Some(texts) { assert v.items == TextList(texts).items; }
  }

  ghost predicate SameMembers(event: Event, conflict: ConflictRecord) {
    forall m :: m in event.parents <==> m in conflict.core.members
  }

  lemma SameMembersIs(event: Event, conflict: ConflictRecord)
    ensures SameMembers(event, conflict) <==> (set p | p in event.parents) == (set m | m in conflict.core.members)
  {
    var parents, members := set p | p in event.parents, set m | m in conflict.core.members;
    forall m ensures (m in event.parents <==> m in parents) && (m in conflict.core.members <==> m in members) {}
  }

  /** A verifier vouched for this authority to resolve this conflict. */
  predicate Vouched(config: Config, name: string, event: Event, answer: Option<Verification>) {
    && event.kind in config.authorityKinds && answer.Some? && answer.value.status == Verified
    && answer.value.authority == event.authority && answer.value.action == "resolve_conflict"
    && answer.value.subject == name
  }

  /** A payload selects `x` in this shape only. */
  ghost predicate SelectsBy(payload: Payload, name: string, members: seq<string>, x: string) {
    exists listed: seq<string> ::
      multiset(listed) == multiset(members) && payload.json == Some(ResolutionPayload(name, listed, x))
  }

  /** What the payload checks of `Selection` let through. */
  predicate PayloadAccepted(payload: Payload, name: string, members: seq<string>, x: string) {
    && PayloadObject(payload).Ok?
    && var fields := PayloadObject(payload).value;
       && fields.Keys == {"conflict_id", "member_event_ids", "selected_event_id"}
       && fields["conflict_id"] == Text(name)
       && Texts(fields["member_event_ids"]).Some?
       && multiset(Texts(fields["member_event_ids"]).value) == multiset(members)
       && fields["selected_event_id"] == Text(x)
  }

  lemma AcceptedIffSelectsBy(payload: Payload, name: string, members: seq<string>, x: string)
    ensures PayloadAccepted(payload, name, members, x) <==> SelectsBy(payload, name, members, x)
  {
    if PayloadAccepted(payload, name, members, x) {
      var fields := PayloadObject(payload).value;
      var listed := Texts(fields["member_event_ids"]).value;
      TextsReadBack(fields["member_event_ids"], listed);
      assert fields == ResolutionPayload(name, listed, x).fields;
    }
    if listed: seq<string> :| multiset(listed) == multiset(members)
                              && payload.json == Some(ResolutionPayload(name, listed, x))
    {
      TextsReadBack(TextList(listed), listed);
    }
  }

  /** A member is selected exactly when a vouched authority, in a resolution event about this conflict
    whose parents are exactly the members, carries the payload naming it and all members. */
  lemma SelectionIsWarranted(config: Config, conflict: ConflictRecord, name: string, event: Event, payload: Payload,
                             answer: Option<Verification>, x: string)
    ensures Selection(config, conflict, name, event, payload, answer) == Ok(x) <==>
      && event.kind == RESOLUTION_KIND && event.subject == name && Vouched(config, name, event, answer)
      && x in conflict.core.members && SameMembers(event, conflict)
      && SelectsBy(payload, name, conflict.core.members, x)
  {
    hide SelectsBy, SameMembers, Texts;
    AcceptedIffSelectsBy(payload, name, conflict.core.members, x);
    SameMembersIs(event, conflict);
  }

  /** A vouched resolution event about this conflict. */
  predicate Entitled(config: Config, name: string, event: Event, answer: Option<Verification>) {
    event.kind == RESOLUTION_KIND && event.subject == name && Vouched(config, name, event, answer)
  }

  /** The payload has just the three keys; under `conflict_id` it may still name another conflict. */
  predicate Filled(payload: Payload) {
    && payload.json.Some? && payload.json.value.Object?
    && payload.json.value.fields.Keys == {"conflict_id", "member_event_ids", "selected_event_id"}
  }

  predicate FieldIs(payload: Payload, key: string, value: Json) {
    Filled(payload) && key in payload.json.value.fields && payload.json.value.fields[key] == value
  }

  ghost predicate ListsMembers(payload: Payload, members: seq<string>) {
    exists listed: seq<string> :: multiset(listed) == multiset(members)
                                  && FieldIs(payload, "member_event_ids", TextList(listed))
  }

  ghost predicate SelectsMember(payload: Payload, members: seq<string>) {
    exists m :: m in members && FieldIs(payload, "selected_event_id", Text(m))
  }

  /** Which refusal means what. */
  lemma RefusalMeans(config: Config, conflict: ConflictRecord, name: string, event: Event, payload: Payload,
                     answer: Option<Verification>)
    ensures var r, members := Selection(config, conflict, name, event, payload, answer), conflict.core.members;
      var about := event.kind == RESOLUTION_KIND && event.subject == name;
      var entitled, named := Entitled(config, name, event, answer), FieldIs(payload, "conflict_id", Text(name));
      var elsewhere := event.kind in config.authorityKinds && answer.Some?
        && !(answer.value.authority == event.authority && answer.value.action == "resolve_conflict"
             && answer.value.subject == name);
      && (r == Err(ResolutionSubjectMismatch) <==> !about || (entitled && Filled(payload) && !named))
      && (r == Err(AuthorityScopeMismatch) <==> about && elsewhere)
      && (r == Err(ResolutionAuthorityUnverified) <==> about && !elsewhere && !entitled)
      && (r == Err(ConflictPayloadInvalid) <==> entitled && !(payload.json.Some? && payload.json.value.Object?))
      && (r == Err(ResolutionPayloadInvalid) <==>
            entitled && payload.json.Some? && payload.json.value.Object? && !Filled(payload))
      && (r == Err(ConflictMembersIncomplete) <==> entitled && named && !ListsMembers(payload, members))
      && (r == Err(ResolutionSelectionInvalid) <==>
            entitled && named && ListsMembers(payload, members) && !SelectsMember(payload, members))
      && (r == Err(ResolutionParentsIncomplete) <==>
            && entitled && named && ListsMembers(payload, members) && SelectsMember(payload, members)
            && !SameMembers(event, conflict))
  {
    hide SameMembers, Texts;
    SameMembersIs(event, conflict);
    if Filled(payload) { ListingIs(payload, conflict.core.members); }
  }

  lemma ListingIs(payload: Payload, members: seq<string>)
    requires Filled(payload)
    ensures var read := Texts(payload.json.value.fields["member_event_ids"]);
      ListsMembers(payload, members) <==> read.Some? && multiset(read.value) == multiset(members)
  {
    hide Texts, TextList;
    var v := payload.json.value.fields["member_event_ids"];
    if Texts(v).Some? {
      var listed := Texts(v).value;
      TextsReadBack(v, listed);
      assert multiset(listed) == multiset(members) ==> FieldIs(payload, "member_event_ids", TextList(listed));
    }
    if listed: seq<string> :| multiset(listed) == multiset(members)
                              && FieldIs(payload, "member_event_ids", TextList(listed))
    {
      TextsReadBack(v, listed);
    }
  }

  /** `record_resolution`: the code it fails with, or `None`. */
  method RecordResolution(store: FederationStore, id: ConflictId, record: ResolutionRecord)
    returns (code: Option<Code>)
    modifies store`resolutions
    ensures code == (if id !in store.conflicts then Some(ConflictNotFound)
                     else if record.key !in old(store.resolutions) || old(store.resolutions)[record.key] == record
                       then None
                     else Some(ResolutionContentCollision))
    ensures code.None? ==> store.resolutions == old(store.resolutions)[record.key := record]
    ensures code.Some? ==> store.resolutions == old(store.resolutions)
    ensures Kept(old(store.resolutions), store.resolutions)
  {
    if id !in store.conflicts { return Some(ConflictNotFound); }
    if record.key in store.resolutions {
      return if store.resolutions[record.key] == record then None else Some(ResolutionContentCollision);
    }
    store.resolutions := store.resolutions[record.key := record];
    return None;
  }

  /** `resolve_conflict`: check, submit the resolution event, then record what it selected. */
  method ResolveConflict(store: FederationStore, id: ConflictId, name: string, event: Event, payload: Payload,
                         answer: Option<Verification>) returns (r: Result<ResolutionRecord, Code>)
    requires store.Valid()
    modifies store`payloads, store`events, store`sequences, store`index, store`duplicates, store`quarantine,
      store`resolutions
    ensures store.Valid() && Extends(old(store.Snapshot()), store.Snapshot())
    ensures id !in store.conflicts ==> r == Err(ConflictNotFound) && store.State() == old(store.State())
    ensures id in store.conflicts ==>
      var conflict := store.conflicts[id];
      var selection := Selection(store.config, conflict, name, event, payload, answer);
      if selection.Err? then r == Err(selection.error) && store.State() == old(store.State())
      else
        var submitted := Submit(store.config, old(store.Snapshot()), ResolutionSubmission(event, payload));
        var record := ResolutionOf(conflict, event, answer, selection.value);
        && store.Snapshot() == submitted.0
        && (r.Ok? <==>
              !submitted.1.Failed?
              && (record.key !in old(store.resolutions) || old(store.resolutions)[record.key] == record))
        && (r.Ok? ==> r.value == record && store.resolutions == old(store.resolutions)[record.key := record]
                      && GetEvent(store.Snapshot(), event.id) == Ok(event))
    ensures r.Err? ==> store.resolutions == old(store.resolutions)
    ensures Kept(old(store.resolutions), store.resolutions)
    ensures r.Ok? ==>
      && id in store.conflicts && r.value in store.resolutions.Values
      && (NamedByContent(store.conflicts) ==> r.value.key.conflict == id)
      && r.value.members == (set m | m in store.conflicts[id].core.members) && r.value.selected in r.value.members
      && r.value.key.eventId == event.id && r.value.digest == CoreDigest(event) && r.value.authority == event.authority
      && answer.Some? && r.value.evidence == answer.value.evidence
  {
    hide FilesInv, Extends, GetEvent, Selection, Submit;
    NothingPublished(store.Snapshot());
    if id !in store.conflicts { return Err(ConflictNotFound); }
    var conflict := store.conflicts[id];
    var selection := Selection(store.config, conflict, name, event, payload, answer);
    if selection.Err? { return Err(selection.error); }
    var submission := ResolutionSubmission(event, payload);
    SubmittedIsThere(store.config, store.Snapshot(), submission);
    var outcome := store.SubmitEvent(submission);
    if outcome.Failed? { return Err(outcome.code); }
    var record := ResolutionOf(conflict, event, answer, selection.value);
    SelectionIsWarranted(store.config, conflict, name, event, payload, answer, selection.value);
    var code := RecordResolution(store, id, record);
    if code.Some? { return Err(code.value); }
    assert store.resolutions[record.key] == record;
    return Ok(record);
  }

  lemma NothingPublished(f: Files)
    ensures Extends(f, f)
  {
  }

  lemma SubmittedIsThere(config: Config, f: Files, s: Submission)
    requires FilesInv(f)
    ensures var r := Submit(config, f, s); !r.1.Failed? ==> GetEvent(r.0, s.event.id) == Ok(s.event)
  {
    hide FilesInv, GetEvent;
    if s.delivery != "" && Objection(config, s.event, s.payload).None? { SucceedsIffUnrivalled(config, f, s); }
  }

  // What a resolution does to every later view

  /** No later projection lists the conflict as unresolved, under any subject. */
  lemma ResolvedIsClosed(p: Projection, events: seq<Event>, conflicts: set<ConflictRecord>,
                         before: map<ResolutionKey, ResolutionRecord>, after: map<ResolutionKey, ResolutionRecord>,
                         record: ResolutionRecord)
    requires record in before.Values && Kept(before, after) && Projects(p, events, conflicts, after.Values)
    ensures record in after.Values
    ensures forall subject | subject in p.subjects :: record.key.conflict !in p.subjects[subject].unresolvedConflicts
  {
    hide FieldShown, OpenIds, RecordsFor;
    var key :| key in before && before[key] == record;
    assert after[key] == record;
    forall subject | subject in p.subjects
      ensures record.key.conflict !in p.subjects[subject].unresolvedConflicts
    {
      assert SubjectShown(p.subjects[subject], events, conflicts, after.Values, subject);
      ClosedByRecord(subject, conflicts, after.Values, record);
    }
  }

  lemma ClosedByRecord(subject: string, conflicts: set<ConflictRecord>, resolutions: set<ResolutionRecord>,
                       record: ResolutionRecord)
    requires record in resolutions
    ensures record.key.conflict !in OpenConflicts(subject, conflicts, resolutions)
  {
  }

  /** Some resolution selected the event of this candidate. */
  ghost predicate Chosen(c: Candidate, resolutions: set<ResolutionRecord>) {
    exists r :: r in resolutions && r.selected == c.event.id
  }

  /** From the resolution on, whatever is imported, recorded or resolved later: no subject lists the conflict as
    unresolved; of a field for which any member of the conflict stands, exactly the candidates some resolution
    selected stay active, and a candidate is shown exactly when it is selected and every other selected one is among
    its ancestors. */
  lemma ResolutionTakesEffect(p: Projection, events: seq<Event>, conflicts: set<ConflictRecord>,
                              before: map<ResolutionKey, ResolutionRecord>, after: map<ResolutionKey, ResolutionRecord>,
                              record: ResolutionRecord, key: FieldKey, member: Candidate, c: Candidate)
    requires record in before.Values && Kept(before, after) && Projects(p, events, conflicts, after.Values)
    requires Acyclic(StoreGraph(events))
    requires member in CandidatesFor(events, Superseded(events), key) && member.event.id in record.members
    requires c in CandidatesFor(events, Superseded(events), key)
    ensures key.subject in p.subjects
    ensures forall subject | subject in p.subjects :: record.key.conflict !in p.subjects[subject].unresolvedConflicts
    ensures c in ActiveFor(events, after.Values, key) <==> Chosen(c, after.Values)
    ensures (key.field in p.subjects[key.subject].fields &&
             p.subjects[key.subject].fields[key.field] == FieldView(c.event.id, c.value)) <==>
      && Chosen(c, after.Values)
      && forall o | o in CandidatesFor(events, Superseded(events), key) && Chosen(o, after.Values) ::
           o.event.id == c.event.id || Ancestor(StoreGraph(events), o.event.id, c.event.id)
  {
    ResolvedIsClosed(p, events, conflicts, before, after, record);
    SubjectHasView(p, events, conflicts, after.Values, key, member);
    assert member.event.id in ResolvedMembers(after.Values);
    OnlyChosenStay(events, after.Values, key, member);
    ShownIsDominator(p, events, conflicts, after.Values, key, c);
  }

  lemma SubjectHasView(p: Projection, events: seq<Event>, conflicts: set<ConflictRecord>,
                       resolutions: set<ResolutionRecord>, key: FieldKey, member: Candidate)
    requires Projects(p, events, conflicts, resolutions)
    requires member in CandidatesFor(events, Superseded(events), key)
    ensures key.subject in p.subjects
  {
    hide SubjectShown, RecordsFor, IdsUnique;
    CandidatesAreListed(events, Superseded(events), key);
    assert member.event in events;
  }

  lemma OnlyChosenStay(events: seq<Event>, resolutions: set<ResolutionRecord>, key: FieldKey, member: Candidate)
    requires member in CandidatesFor(events, Superseded(events), key) && member.event.id in ResolvedMembers(resolutions)
    ensures forall c :: c in ActiveFor(events, resolutions, key) <==>
      c in CandidatesFor(events, Superseded(events), key) && Chosen(c, resolutions)
  {
    ResolutionDropsUnselected(events, resolutions, key, member);
    hide ActiveFor, CandidatesFor, Superseded;
  }

  /** A candidate of a field is shown exactly when it dominates. */
  lemma ShownIsDominator(p: Projection, events: seq<Event>, conflicts: set<ConflictRecord>,
                         resolutions: set<ResolutionRecord>, key: FieldKey, c: Candidate)
    requires Projects(p, events, conflicts, resolutions) && Acyclic(StoreGraph(events)) && key.subject in p.subjects
    requires c in CandidatesFor(events, Superseded(events), key)
    ensures (key.field in p.subjects[key.subject].fields &&
             p.subjects[key.subject].fields[key.field] == FieldView(c.event.id, c.value)) <==>
      Dominates(StoreGraph(events), ActiveFor(events, resolutions, key), c)
  {
    ShownExactlyWhenDominated(p, events, conflicts, resolutions, key.subject, key.field);
    CandidateDetermined(p, events, conflicts, resolutions, key, c);
  }

  /** A shown candidate is told by its event: ids are unique. */
  lemma CandidateDetermined(p: Projection, events: seq<Event>, conflicts: set<ConflictRecord>,
                            resolutions: set<ResolutionRecord>, key: FieldKey, c: Candidate)
    requires Projects(p, events, conflicts, resolutions)
    requires c in CandidatesFor(events, Superseded(events), key)
    ensures forall d | d in ActiveFor(events, resolutions, key) && d.event.id == c.event.id :: d == c
  {
    hide SubjectShown, RecordsFor;
    CandidateValueIsItsEvents(events, Superseded(events), key);
    KeptAreCandidates(CandidatesFor(events, Superseded(events), key), Selected(resolutions));
    forall d | d in ActiveFor(events, resolutions, key) && d.event.id == c.event.id ensures d == c {
      assert c.event in EventsIn(events) && d.event in EventsIn(events);
    }
  }
}
