/** What reconciling an event decides, told over the stored events alone. */
module ReconcileResults {
  import opened Prelude
  import opened Ordering
  import opened Events
  import opened SubmitProtocol
  import opened Causal
  import opened FederationStores
  import opened Reconcile

  // Equality of parsed values

  /** A value with its truth values written as the integers they equal. */
  function Plain(v: Json): (p: Json)
    ensures v.List? ==>
      p.List? && |p.items| == |v.items| && forall i | 0 <= i < |v.items| :: p.items[i] == Plain(v.items[i])
  {
    match v
    case Bool(truth) => Number(if truth then 1 else 0)
    case List(items) => List(seq(|items|, i requires 0 <= i < |items| => Plain(items[i])))
    case Object(fields) => Object(map k | k in fields :: Plain(fields[k]))
    case _ => v
  }

  /** Two parsed values are equal in Python exactly if they are the same once truth values are integers. */
  lemma {:induction false} PyEqualIs(a: Json, b: Json)
    ensures PyEqual(a, b) <==> Plain(a) == Plain(b)
    decreases a
  {
    match a
    case List(items) =>
      if b.List? && |items| == |b.items| {
        forall i | 0 <= i < |items| ensures PyEqual(items[i], b.items[i]) <==> Plain(items[i]) == Plain(b.items[i]) {
          PyEqualIs(items[i], b.items[i]);
        }
        SameItems(items, b.items);
      }
    case Object(fields) =>
      if b.Object? && fields.Keys == b.fields.Keys {
        forall k | k in fields ensures PyEqual(fields[k], b.fields[k]) <==> Plain(fields[k]) == Plain(b.fields[k]) {
          PyEqualIs(fields[k], b.fields[k]);
        }
        SameFields(fields, b.fields);
      } else if b.Object? {
        assert Plain(a).fields.Keys == fields.Keys && Plain(b).fields.Keys == b.fields.Keys;
      }
    case _ =>
  }

  lemma SameItems(a: seq<Json>, b: seq<Json>)
    requires |a| == |b|
    ensures Plain(List(a)) == Plain(List(b)) <==> forall i | 0 <= i < |a| :: Plain(a[i]) == Plain(b[i])
  {
    var p, q := Plain(List(a)), Plain(List(b));
    assert p.items == q.items <==> forall i | 0 <= i < |a| :: p.items[i] == q.items[i];
    assert forall i | 0 <= i < |a| :: p.items[i] == Plain(a[i]) && q.items[i] == Plain(b[i]);
  }

  lemma SameFields(a: map<string, Json>, b: map<string, Json>)
    requires a.Keys == b.Keys
    ensures Plain(Object(a)) == Plain(Object(b)) <==> forall k | k in a :: Plain(a[k]) == Plain(b[k])
  {
    var p, q := Plain(Object(a)).fields, Plain(Object(b)).fields;
    assert p.Keys == a.Keys && q.Keys == b.Keys;
    assert (forall k | k in a :: p[k] == q[k]) ==> p == q;
  }

  // What one event holds against another

  /** Neither event came before the other, and both are about one subject. */
  ghost predicate Unordered(listed: seq<Event>, o: Event, e: Event)
    requires IdsUnique(EventsIn(listed))
  {
    var g := GraphOf(EventsIn(listed));
    o.id != e.id && o.subject == e.subject && !Ancestor(g, o.id, e.id) && !Ancestor(g, e.id, o.id)
  }

  predicate Readable(e: Event) {
    var json := e.payloadSha.preimage.json;
    json.Some? && json.value.Object?
  }

  /** What the payload says under a key; an absent key reads like JSON null. */
  function Said(e: Event, key: string): Json
    requires Readable(e)
  {
    var fields := e.payloadSha.preimage.json.value.fields;
    if key in fields then fields[key] else Null
  }

  predicate AboutIdentity(e: Event) { |e.kind| >= 13 && e.kind[..13] == "ral.identity." }

  predicate AboutState(e: Event) { |e.kind| >= 16 && e.kind[|e.kind| - 16..] == "state_transition" }

  /** What makes two unordered events on one subject conflict, class by class. */
  ghost predicate Holds(class_: ConflictClass, listed: seq<Event>, o: Event, e: Event)
    requires IdsUnique(EventsIn(listed))
  {
    && Unordered(listed, o, e)
    && match class_
       case AuthorityConflict => o.authority != e.authority
       case IdentityReferenceConflict =>
         o.authority == e.authority && Readable(o) && Readable(e) && (AboutIdentity(o) || AboutIdentity(e))
       case StateTransitionConflict =>
         o.authority == e.authority && Readable(o) && Readable(e) && !AboutIdentity(o) && !AboutIdentity(e)
         && (AboutState(o) || AboutState(e))
       case FieldValueConflict =>
         o.authority == e.authority && Readable(o) && Readable(e) && !AboutIdentity(o) && !AboutIdentity(e)
         && !AboutState(o) && !AboutState(e)
         && Plain(Said(o, "field")) == Plain(Said(e, "field")) && Plain(Said(o, "value")) != Plain(Said(e, "value"))
       case _ => false
  }

  /** Their contents would have to be compared, but one payload is no object. */
  ghost predicate Illegible(listed: seq<Event>, o: Event, e: Event)
    requires IdsUnique(EventsIn(listed))
  {
    Unordered(listed, o, e) && o.authority == e.authority && !(Readable(o) && Readable(e))
  }

  /** The first stored event that holds a conflict of this class against `e`. */
  ghost predicate FirstToHold(class_: ConflictClass, listed: seq<Event>, e: Event, j: nat)
    requires IdsUnique(EventsIn(listed))
  {
    j < |listed| && Holds(class_, listed, listed[j], e) && forall i | 0 <= i < j :: !Holds(class_, listed, listed[i], e)
  }

  /** The record of a conflict between two events: its class and subject, both ids in order, each with its digest, under
    the hash of all that. */
  ghost predicate RecordsPair(record: ConflictRecord, class_: ConflictClass, o: Event, e: Event) {
    var core := record.core;
    && record.id == ConflictId(core) && core.class_ == class_
    && core.subject == (if o.subject == e.subject then e.subject else "multiple")
    && |core.members| == 2 && |core.digests| == 2 && Ascending(TextLess, core.members)
    && (forall id :: id in core.members <==> id == o.id || id == e.id)
    && (forall i | 0 <= i < 2 :: core.digests[i] == if core.members[i] == e.id then CoreDigest(e) else CoreDigest(o))
  }

  /** The conflict decided on is of this class, with the event at `j`, and is now on record. */
  ghost predicate DecidedOn(class_: ConflictClass, listed: seq<Event>, e: Event, j: nat, before: Conflicts,
                            after: Conflicts, r: Result<Decision, Code>)
    requires j < |listed|
  {
    && r.Ok? && r.value.Conflicting? && r.value.class_ == class_ && r.value.id in after
    && RecordsPair(after[r.value.id], class_, listed[j], e)
    && after == before[r.value.id := after[r.value.id]]
  }

  /** On valid histories detection finds exactly that. */
  lemma OpposingIs(listed: seq<Event>, o: Event, e: Event)
    requires o in listed && e in listed && o.id != e.id && GraphCode(EventsIn(listed)).None?
    ensures var r := Opposing(listed, o, e);
      && (r.Err? <==> Illegible(listed, o, e))
      && (r.Ok? ==> (r.value.class_ == AuthorityConflict <==> Holds(AuthorityConflict, listed, o, e)))
      && (r.Ok? ==> (r.value.class_ == IdentityReferenceConflict <==> Holds(IdentityReferenceConflict, listed, o, e)))
      && (r.Ok? ==> (r.value.class_ == StateTransitionConflict <==> Holds(StateTransitionConflict, listed, o, e)))
      && (r.Ok? ==> (r.value.class_ == FieldValueConflict <==> Holds(FieldValueConflict, listed, o, e)))
      && (r.Ok? ==> r.value.class_ in {AuthorityConflict, IdentityReferenceConflict, StateTransitionConflict,
                                       FieldValueConflict, ConcurrentNonexclusive})
  {
    hide PyEqual, ContentAnalysis;
    UnorderedIs(listed, o, e);
    ContentsAre(o, e, SortedPair(o.id, e.id));
  }

  lemma UnorderedIs(listed: seq<Event>, o: Event, e: Event)
    requires o in listed && e in listed && o.id != e.id && GraphCode(EventsIn(listed)).None?
    ensures OrderedIn(o, e, Some(listed)) ==
      Ok(Some(Ancestor(GraphOf(EventsIn(listed)), o.id, e.id) || Ancestor(GraphOf(EventsIn(listed)), e.id, o.id)))
  {
    assert o.id in Ids(EventsIn(listed)) && e.id in Ids(EventsIn(listed));
  }

  /** What the contents of two events of one authority say, in the order it is asked. */
  lemma ContentsAre(o: Event, e: Event, members: seq<string>)
    ensures ContentAnalysis(o, o.payloadSha.preimage, e, e.payloadSha.preimage, members) ==
      if !Readable(o) || !Readable(e) then Err(ConflictPayloadInvalid)
      else
        var subject := if o.subject == e.subject then o.subject else "multiple";
        if AboutIdentity(o) || AboutIdentity(e)
          then Ok(Analysis(InConflict, IdentityReferenceConflict, members, subject))
        else if AboutState(o) || AboutState(e) then Ok(Analysis(InConflict, StateTransitionConflict, members, subject))
        else if Plain(Said(o, "field")) == Plain(Said(e, "field")) && Plain(Said(o, "value")) != Plain(Said(e, "value"))
        then Ok(Analysis(InConflict, FieldValueConflict, members, subject))
        else Ok(Analysis(ParallelBranch, ConcurrentNonexclusive, members, subject))
  {
    hide PyEqual, Plain;
    assert AboutIdentity(o) == StartsWith(o.kind, "ral.identity.")
      && AboutIdentity(e) == StartsWith(e.kind, "ral.identity.");
    assert AboutState(o) == EndsWith(o.kind, "state_transition")
      && AboutState(e) == EndsWith(e.kind, "state_transition");
    if Readable(o) && Readable(e) {
      PyEqualIs(Said(o, "field"), Said(e, "field"));
      PyEqualIs(Said(o, "value"), Said(e, "value"));
    }
  }

  // The decision

  ghost predicate SomeHolds(class_: ConflictClass, listed: seq<Event>, e: Event)
    requires IdsUnique(EventsIn(listed))
  {
    exists j | 0 <= j < |listed| :: Holds(class_, listed, listed[j], e)
  }

  /** The foremost conflict on a valid history: the first event to hold the gravest class anything holds. */
  lemma ForemostIs(listed: seq<Event>, e: Event, j: nat)
    requires e in listed && GraphCode(EventsIn(listed)).None? && j < |listed| && Foremost(listed, e, j)
    ensures var class_ := Opposing(listed, listed[j], e).value.class_;
      && class_ in {AuthorityConflict, IdentityReferenceConflict, StateTransitionConflict, FieldValueConflict}
      && FirstToHold(class_, listed, e, j)
      && (class_ != AuthorityConflict ==> !SomeHolds(AuthorityConflict, listed, e))
      && (class_ in {StateTransitionConflict, FieldValueConflict} ==> !SomeHolds(IdentityReferenceConflict, listed, e))
      && (class_ == FieldValueConflict ==> !SomeHolds(StateTransitionConflict, listed, e))
  {
    hide Opposing, Holds;
    forall i | 0 <= i < |listed| && listed[i].id != e.id ensures HeldIs(listed, e, i) { HeldAt(listed, e, i); }
    forall i, class_ | 0 <= i < |listed| && Holds(class_, listed, listed[i], e)
      ensures listed[i].id != e.id && HeldIs(listed, e, i) && Contests(listed, e, i)
    {
      HoldsOthers(class_, listed, listed[i], e);
      HeldAt(listed, e, i);
    }
    var class_ := Opposing(listed, listed[j], e).value.class_;
    assert HeldIs(listed, e, j) && Holds(class_, listed, listed[j], e);
    HoldsOthers(class_, listed, listed[j], e);
  }

  /** The record kept is that of the pair. */
  lemma RecordIsOfPair(listed: seq<Event>, e: Event, j: nat)
    requires j < |listed| && Contests(listed, e, j)
    ensures RecordsPair(RecordAt(listed, e, j), Opposing(listed, listed[j], e).value.class_, listed[j], e)
  {
    hide OrderedIn, ContentAnalysis;
    var o := listed[j];
    DetectMembers(o, o.payloadSha.preimage, e, e.payloadSha.preimage, Some(listed));
    OpposingSubject(listed, o, e);
    hide Opposing;
    PairAscends(o.id, e.id);
  }

  lemma OpposingSubject(listed: seq<Event>, o: Event, e: Event)
    ensures var r := Opposing(listed, o, e);
      r.Ok? && r.value.class_ != ConcurrentNonexclusive ==>
      r.value.subject == if o.subject == e.subject then e.subject else "multiple"
  {
    hide OrderedIn, PyEqual;
  }

  lemma PairAscends(a: string, b: string)
    requires a != b
    ensures var pair := SortedPair(a, b);
      |pair| == 2 && Ascending(TextLess, pair) && forall id :: id in pair <==> id == a || id == b
  {
    TextLessTotal(a, b);
  }

  ghost predicate Settles(class_: ConflictClass, listed: seq<Event>, e: Event, before: Conflicts, after: Conflicts,
                          r: Result<Decision, Code>)
    requires IdsUnique(EventsIn(listed))
  {
    exists j | 0 <= j < |listed| :: FirstToHold(class_, listed, e, j)
      && DecidedOn(class_, listed, e, j, before, after, r)
  }

  /** On valid histories: it fails exactly if a payload that has to be compared is no object; it adopts exactly if
    nothing holds a conflict; otherwise another authority comes before a claim of identity, that before a state
    transition, and that before another value for one field, and within a class the first event in the listing. */
  lemma ReconcileMeans(listed: seq<Event>, e: Event, before: Conflicts, after: Conflicts, r: Result<Decision, Code>)
    requires e in listed && Decides(listed, e, before, after, r) && GraphCode(EventsIn(listed)).None?
    ensures
      if exists j | 0 <= j < |listed| :: Illegible(listed, listed[j], e) then
        r == Err(ConflictPayloadInvalid) && after == before
      else if SomeHolds(AuthorityConflict, listed, e) then Settles(AuthorityConflict, listed, e, before, after, r)
      else if SomeHolds(IdentityReferenceConflict, listed, e) then
        Settles(IdentityReferenceConflict, listed, e, before, after, r)
      else if SomeHolds(StateTransitionConflict, listed, e) then
        Settles(StateTransitionConflict, listed, e, before, after, r)
      else if SomeHolds(FieldValueConflict, listed, e) then Settles(FieldValueConflict, listed, e, before, after, r)
      else r == Ok(Adopted) && after == before
  {
    hide Opposing, Holds, Illegible, RecordsPair, RecordAt, Foremost, Settles;
    forall i | 0 <= i < |listed| ensures Comparable(listed, e, i) <==> !Illegible(listed, listed[i], e) {
      if listed[i].id != e.id { HeldAt(listed, e, i); } else { NotIllegible(listed, listed[i], e); }
    }
    if r.Ok? && r.value != Adopted {
      var j := DecidedFrom(listed, e, before, after, r);
      ForemostSettles(listed, e, j, before, after, r);
    } else if r.Ok? {
      forall class_ ensures !SomeHolds(class_, listed, e) {
        if SomeHolds(class_, listed, e) { var i := HoldingContests(class_, listed, e); }
      }
    }
  }

  lemma DecidedFrom(listed: seq<Event>, e: Event, before: Conflicts, after: Conflicts, r: Result<Decision, Code>)
    returns (j: nat)
    requires Decides(listed, e, before, after, r) && r.Ok? && r.value != Adopted
    ensures j < |listed| && Foremost(listed, e, j)
    ensures r == Ok(Conflicting(RecordAt(listed, e, j).id, RecordAt(listed, e, j).core.class_))
    ensures after == before[RecordAt(listed, e, j).id := RecordAt(listed, e, j)]
  {
    hide Opposing, ConflictRecordOf, Urgency;
    j :| 0 <= j < |listed| && Foremost(listed, e, j) && (var record := RecordAt(listed, e, j);
      r.value == Conflicting(record.id, record.core.class_) && after == before[record.id := record]);
  }

  lemma NotIllegible(listed: seq<Event>, o: Event, e: Event)
    requires IdsUnique(EventsIn(listed)) && o.id == e.id
    ensures !Illegible(listed, o, e)
  {
  }

  lemma HoldingContests(class_: ConflictClass, listed: seq<Event>, e: Event) returns (i: nat)
    requires e in listed && GraphCode(EventsIn(listed)).None? && SomeHolds(class_, listed, e)
    ensures i < |listed| && Contests(listed, e, i)
  {
    hide Opposing, Holds;
    i :| 0 <= i < |listed| && Holds(class_, listed, listed[i], e);
    HoldsOthers(class_, listed, listed[i], e);
    HeldAt(listed, e, i);
  }

  lemma ForemostSettles(listed: seq<Event>, e: Event, j: nat, before: Conflicts, after: Conflicts,
                        r: Result<Decision, Code>)
    requires e in listed && GraphCode(EventsIn(listed)).None? && j < |listed| && Foremost(listed, e, j)
    requires r == Ok(Conflicting(RecordAt(listed, e, j).id, RecordAt(listed, e, j).core.class_))
    requires after == before[RecordAt(listed, e, j).id := RecordAt(listed, e, j)]
    ensures var class_ := Opposing(listed, listed[j], e).value.class_;
      && Settles(class_, listed, e, before, after, r) && SomeHolds(class_, listed, e)
      && class_ in {AuthorityConflict, IdentityReferenceConflict, StateTransitionConflict, FieldValueConflict}
      && (class_ != AuthorityConflict ==> !SomeHolds(AuthorityConflict, listed, e))
      && (class_ in {StateTransitionConflict, FieldValueConflict} ==> !SomeHolds(IdentityReferenceConflict, listed, e))
      && (class_ == FieldValueConflict ==> !SomeHolds(StateTransitionConflict, listed, e))
  {
    hide Opposing, Holds, RecordsPair, SomeHolds;
    ForemostIs(listed, e, j);
    RecordIsOfPair(listed, e, j);
    var class_ := Opposing(listed, listed[j], e).value.class_;
    assert DecidedOn(class_, listed, e, j, before, after, r);
    FirstHolds(class_, listed, e, j);
  }

  lemma FirstHolds(class_: ConflictClass, listed: seq<Event>, e: Event, j: nat)
    requires IdsUnique(EventsIn(listed)) && FirstToHold(class_, listed, e, j)
    ensures SomeHolds(class_, listed, e)
  {
    hide Holds;
  }

  /** What the event at `i` holds is what detection finds. */
  ghost predicate HeldIs(listed: seq<Event>, e: Event, i: nat)
    requires i < |listed| && IdsUnique(EventsIn(listed))
  {
    var r := Opposing(listed, listed[i], e);
    forall class_ | class_ != ConcurrentNonexclusive ::
      (r.Ok? && r.value.class_ == class_ <==> Holds(class_, listed, listed[i], e))
  }

  lemma HoldsOthers(class_: ConflictClass, listed: seq<Event>, o: Event, e: Event)
    requires IdsUnique(EventsIn(listed)) && Holds(class_, listed, o, e)
    ensures o.id != e.id && class_ != ConcurrentNonexclusive && !Illegible(listed, o, e)
    ensures class_ in {AuthorityConflict, IdentityReferenceConflict, StateTransitionConflict, FieldValueConflict}
  {
  }

  lemma HeldAt(listed: seq<Event>, e: Event, i: nat)
    requires i < |listed| && e in listed && listed[i].id != e.id && GraphCode(EventsIn(listed)).None?
    ensures HeldIs(listed, e, i)
    ensures Comparable(listed, e, i) <==> !Illegible(listed, listed[i], e)
  {
    hide Opposing, Illegible, Holds;
    OpposingIs(listed, listed[i], e);
    forall class_ | class_ != ConcurrentNonexclusive
      ensures Opposing(listed, listed[i], e).Ok? && Opposing(listed, listed[i], e).value.class_ == class_
              <==> Holds(class_, listed, listed[i], e)
    {
      if Holds(class_, listed, listed[i], e) { HoldsOthers(class_, listed, listed[i], e); }
    }
  }

  /** The first event in the listing that is not this one. */
  predicate FirstOther(listed: seq<Event>, e: Event, j: nat) {
    j < |listed| && listed[j].id != e.id && forall i | 0 <= i < j :: listed[i].id == e.id
  }

  /** On a history that is no valid graph, whatever else is stored conflicts, and the first of it is recorded. */
  lemma IncompleteHistoryConflicts(listed: seq<Event>, e: Event, before: Conflicts, after: Conflicts,
                                   r: Result<Decision, Code>)
    requires e in listed && Decides(listed, e, before, after, r) && GraphCode(EventsIn(listed)).Some?
    ensures
      if exists j | 0 <= j < |listed| :: listed[j].id != e.id then
        exists j | 0 <= j < |listed| ::
          FirstOther(listed, e, j) && DecidedOn(CausalHistoryConflict, listed, e, j, before, after, r)
      else r == Ok(Adopted) && after == before
  {
    hide Opposing, RecordAt, GraphCode;
    forall j | 0 <= j < |listed| && listed[j].id != e.id
      ensures Contests(listed, e, j) && Opposing(listed, listed[j], e).value.class_ == CausalHistoryConflict
    {
      HistoryIsIncomplete(listed, listed[j], e);
    }
    if r.Ok? && r.value != Adopted {
      var j := DecidedFrom(listed, e, before, after, r);
      RecordIsOfPair(listed, e, j);
      assert FirstOther(listed, e, j) && DecidedOn(CausalHistoryConflict, listed, e, j, before, after, r);
    }
  }

  lemma HistoryIsIncomplete(listed: seq<Event>, o: Event, e: Event)
    requires GraphCode(EventsIn(listed)).Some? && o.id != e.id
    ensures var r := Opposing(listed, o, e); r.Ok? && r.value.class_ == CausalHistoryConflict
  {
    hide ContentAnalysis;
  }

  // Detection by itself

  /** Besides its class, an analysis says whether the events conflict, are ordered or run in parallel, about which
    subject, and names both, in order. */
  lemma AnalysisMeans(listed: seq<Event>, o: Event, e: Event)
    requires o in listed && e in listed && o.id != e.id && GraphCode(EventsIn(listed)).None?
    requires Opposing(listed, o, e).Ok?
    ensures var a, g := Opposing(listed, o, e).value, GraphOf(EventsIn(listed));
      && (a.verdict == InConflict <==> a.class_ != ConcurrentNonexclusive)
      && (a.verdict == Ordered <==> Ancestor(g, o.id, e.id) || Ancestor(g, e.id, o.id))
      && a.subject == (if o.subject == e.subject then o.subject else "multiple")
      && |a.members| == 2 && Ascending(TextLess, a.members)
      && forall id :: id in a.members <==> id == o.id || id == e.id
  {
    hide PyEqual, StartsWith, EndsWith;
    UnorderedIs(listed, o, e);
    PairAscends(o.id, e.id);
  }

  /** Where no history is given: two events of one id collide unless they are the same; a parent that is neither of the
    two makes history incomplete; a parent that is one of them orders them; otherwise the answer is that of any valid
    history that leaves the two unordered. */
  lemma WithoutHistory(o: Event, e: Event)
    ensures var p, q := o.payloadSha.preimage, e.payloadSha.preimage;
      var a, subject := Detect(o, p, e, q, None), if o.subject == e.subject then o.subject else "multiple";
      var apart := exists id :: (id in o.parents || id in e.parents) && id != o.id && id != e.id;
      if o.id == e.id && o != e then a == Ok(Analysis(InConflict, ContentCollision, [o.id, e.id], subject))
      else if apart then a == Ok(Analysis(InConflict, CausalHistoryConflict, SortedPair(o.id, e.id), subject))
      else if o.id in e.parents || e.id in o.parents then
        a == Ok(Analysis(Ordered, ConcurrentNonexclusive, SortedPair(o.id, e.id), subject))
      else forall listed | LeavesApart(listed, o, e) :: a == Detect(o, p, e, q, Some(listed))
  {
    hide ContentAnalysis, LeavesApart;
    assert forall id :: id in o.parents + e.parents <==> id in o.parents || id in e.parents;
    forall listed | LeavesApart(listed, o, e) ensures OrderedIn(o, e, Some(listed)) == Ok(Some(false)) {
      ApartIs(listed, o, e);
    }
  }

  /** A valid history with both events in it, neither before the other. */
  ghost predicate LeavesApart(listed: seq<Event>, o: Event, e: Event) {
    && o in listed && e in listed && o.id != e.id && GraphCode(EventsIn(listed)).None?
    && !Ancestor(GraphOf(EventsIn(listed)), o.id, e.id) && !Ancestor(GraphOf(EventsIn(listed)), e.id, o.id)
  }

  lemma ApartIs(listed: seq<Event>, o: Event, e: Event)
    requires LeavesApart(listed, o, e)
    ensures OrderedIn(o, e, Some(listed)) == Ok(Some(false))
  {
    UnorderedIs(listed, o, e);
  }

  /** Reconciling goes on exactly if the kind needs no authority, or a verifier answering just this question for this
    authority verifies it or finds none required; a missing or undecided answer measures nothing, a negative one
    refuses, and an answer to another question is an error. */
  lemma AuthorityMeans(config: Config, e: Event, answer: Option<Verification>)
    ensures var authority := Authority(config, e, answer, "adopt_event", e.subject);
      var needed := e.kind in config.authorityKinds;
      var answers := answer.Some? && answer.value.authority == e.authority && answer.value.action == "adopt_event"
        && answer.value.subject == e.subject;
      var unanswered := answer.None? || (answers && answer.value.status == Unmeasured);
      && (Permits(authority) <==> !needed || (answers && answer.value.status in {Verified, NotRequired}))
      && (!Permits(authority) ==>
            Withheld(authority) == (if unanswered then Ok(NotMeasured)
                                    else if answers then Ok(Refused) else Err(AuthorityScopeMismatch)))
  {
  }
}
