/** Pairwise conflict detection and the adopt-or-record decision built on it. */
module Reconcile {
  import opened Prelude
  import opened Ordering
  import opened Events
  import opened SubmitProtocol
  import opened Causal
  import opened FederationStores

  datatype Verdict = Ordered | ParallelBranch | InConflict

  datatype Analysis = Analysis(verdict: Verdict, class_: ConflictClass, members: seq<string>, subject: string)

  function Priority(c: ConflictClass): nat {
    match c
    case ContentCollision => 0
    case CausalHistoryConflict => 1
    case AuthorityConflict => 2
    case IdentityReferenceConflict => 3
    case StateTransitionConflict => 4
    case FieldValueConflict => 5
    case ConcurrentNonexclusive => 6
  }

  function SortedPair(a: string, b: string): seq<string> {
    if TextLess(b, a) then [b, a] else [a, b]
  }

  lemma SortedPairSymmetric(a: string, b: string)
    ensures SortedPair(a, b) == SortedPair(b, a)
  {
    TextLessTotal(a, b);
    if TextLess(a, b) && TextLess(b, a) {
      TextLessTransitive(a, b, a);
      TextLessIrreflexive(a);
    }
  }

  /** The integer Python sees in a number or a truth value. */
  function AsInt(v: Json): int
    requires v.Number? || v.Bool?
  {
    if v.Number? then v.n else if v.truth then 1 else 0
  }

  /** Python's `==` on parsed JSON: truth values equal the integers 0 and 1. */
  predicate PyEqual(a: Json, b: Json)
    decreases a
  {
    match a
    case Null => b.Null?
    case Text(s) => b.Text? && s == b.s
    case Bool(_) => (b.Bool? || b.Number?) && AsInt(a) == AsInt(b)
    case Number(_) => (b.Bool? || b.Number?) && AsInt(a) == AsInt(b)
    case List(items) => b.List? && |items| == |b.items| && forall i | 0 <= i < |items| :: PyEqual(items[i], b.items[i])
    case Object(fields) =>
      b.Object? && fields.Keys == b.fields.Keys && forall k | k in fields :: PyEqual(fields[k], b.fields[k])
  }

  lemma {:induction false} PyEqualSymmetric(a: Json, b: Json)
    ensures PyEqual(a, b) <==> PyEqual(b, a)
    decreases a
  {
    if a.List? && b.List? && |a.items| == |b.items| {
      forall i | 0 <= i < |a.items| ensures PyEqual(a.items[i], b.items[i]) <==> PyEqual(b.items[i], a.items[i]) {
        PyEqualSymmetric(a.items[i], b.items[i]);
      }
    } else if a.Object? && b.Object? && a.fields.Keys == b.fields.Keys {
      forall k | k in a.fields ensures PyEqual(a.fields[k], b.fields[k]) <==> PyEqual(b.fields[k], a.fields[k]) {
        PyEqualSymmetric(a.fields[k], b.fields[k]);
      }
    }
  }

  /** `_payload_object` */
  function PayloadObject(p: Payload): Result<map<string, Json>, Code> {
    if p.json.Some? && p.json.value.Object? then Ok(p.json.value.fields) else Err(ConflictPayloadInvalid)
  }

  /** `.get(key)`: an absent key reads like JSON null. */
  function Get(fields: map<string, Json>, key: string): Json {
    if key in fields then fields[key] else Null
  }

  function SubjectOf(left: Event, right: Event): string {
    if left.subject == right.subject then left.subject else "multiple"
  }

  /** What two unordered events of one subject and one authority say against each other. */
  function ContentAnalysis(left: Event, leftPayload: Payload, right: Event, rightPayload: Payload, members: seq<string>)
    : Result<Analysis, Code>
  {
    var l, r := PayloadObject(leftPayload), PayloadObject(rightPayload);
    if l.Err? then Err(l.error)
    else if r.Err? then Err(r.error)
    else if StartsWith(left.kind, "ral.identity.") || StartsWith(right.kind, "ral.identity.") then
      Ok(Analysis(InConflict, IdentityReferenceConflict, members, SubjectOf(left, right)))
    else if EndsWith(left.kind, "state_transition") || EndsWith(right.kind, "state_transition") then
      Ok(Analysis(InConflict, StateTransitionConflict, members, SubjectOf(left, right)))
    else if PyEqual(Get(l.value, "field"), Get(r.value, "field"))
      && !PyEqual(Get(l.value, "value"), Get(r.value, "value")) then
      Ok(Analysis(InConflict, FieldValueConflict, members, SubjectOf(left, right)))
    else Ok(Analysis(ParallelBranch, ConcurrentNonexclusive, members, SubjectOf(left, right)))
  }

  /** Are the two events causally ordered?  `None` when history is too incomplete to say. */
  ghost function OrderedIn(left: Event, right: Event, known: Option<seq<Event>>): Result<Option<bool>, Code> {
    match known
    case None =>
      if (exists p | p in left.parents + right.parents :: p != left.id && p != right.id) then Ok(None)
      else Ok(Some(left.id in right.parents || right.id in left.parents))
    case Some(events) =>
      if GraphCode(EventsIn(events)).Some? then Ok(None)
      else match Classified(EventsIn(events), left.id, right.id)
        case Err(code) => Err(code)
        case Ok(relation) => Ok(Some(relation != Concurrent))
  }

  /** `detect_conflict` */
  ghost function Detect(left: Event, leftPayload: Payload, right: Event, rightPayload: Payload,
                        known: Option<seq<Event>>)
    : Result<Analysis, Code>
  {
    var members := SortedPair(left.id, right.id);
    var subject := SubjectOf(left, right);
    if left.id == right.id && CoreDigest(left) != CoreDigest(right) then
      Ok(Analysis(InConflict, ContentCollision, members, subject))
    else match OrderedIn(left, right, known)
      case Err(code) => Err(code)
      case Ok(None) => Ok(Analysis(InConflict, CausalHistoryConflict, members, subject))
      case Ok(Some(ordered)) =>
        if ordered then Ok(Analysis(Ordered, ConcurrentNonexclusive, members, subject))
        else if left.subject != right.subject
          then Ok(Analysis(ParallelBranch, ConcurrentNonexclusive, members, "multiple"))
        else if left.authority != right.authority then Ok(Analysis(InConflict, AuthorityConflict, members, subject))
        else ContentAnalysis(left, leftPayload, right, rightPayload, members)
  }

  method DetectConflict(left: Event, leftPayload: Payload, right: Event, rightPayload: Payload,
                        known: Option<seq<Event>>)
    returns (r: Result<Analysis, Code>)
    ensures r == Detect(left, leftPayload, right, rightPayload, known)
  {
    var members := SortedPair(left.id, right.id);
    var subject := SubjectOf(left, right);
    if left.id == right.id && CoreDigest(left) != CoreDigest(right) {
      return Ok(Analysis(InConflict, ContentCollision, members, subject));
    }
    var ordered;
    if known.None? {
      if exists p | p in left.parents + right.parents :: p != left.id && p != right.id {
        return Ok(Analysis(InConflict, CausalHistoryConflict, members, subject));
      }
      ordered := left.id in right.parents || right.id in left.parents;
    } else {
      var graph := ValidateGraph(known.value);
      if graph.code.Some? { return Ok(Analysis(InConflict, CausalHistoryConflict, members, subject)); }
      var relation := ClassifyRelation(known.value, left.id, right.id);
      if relation.Err? { return Err(relation.error); }
      ordered := relation.value in {Before, After, Same};
    }
    if ordered { return Ok(Analysis(Ordered, ConcurrentNonexclusive, members, subject)); }
    if left.subject != right.subject {
      return Ok(Analysis(ParallelBranch, ConcurrentNonexclusive, members, "multiple"));
    }
    if left.authority != right.authority { return Ok(Analysis(InConflict, AuthorityConflict, members, subject)); }
    return ContentAnalysis(left, leftPayload, right, rightPayload, members);
  }

  lemma OrderedInSymmetric(left: Event, right: Event, known: Option<seq<Event>>)
    ensures OrderedIn(left, right, known) == OrderedIn(right, left, known)
  {
    if known.Some? {
      ClassifiedConverse(EventsIn(known.value), left.id, right.id);
    } else {
      assert forall p :: p in left.parents + right.parents <==> p in right.parents + left.parents;
    }
  }

  lemma ContentAnalysisSymmetric(left: Event, leftPayload: Payload, right: Event, rightPayload: Payload,
                                 members: seq<string>)
    ensures ContentAnalysis(left, leftPayload, right, rightPayload, members)
            == ContentAnalysis(right, rightPayload, left, leftPayload, members)
  {
    hide PyEqual, StartsWith, EndsWith;
    var l, r := PayloadObject(leftPayload), PayloadObject(rightPayload);
    if l.Ok? && r.Ok? {
      PyEqualSymmetric(Get(l.value, "field"), Get(r.value, "field"));
      PyEqualSymmetric(Get(l.value, "value"), Get(r.value, "value"));
    }
  }

  /** Two events with different ids get the same analysis whichever is asked about first. */
  lemma DetectionSymmetric(left: Event, leftPayload: Payload, right: Event, rightPayload: Payload,
                           known: Option<seq<Event>>)
    requires left.id != right.id
    ensures Detect(left, leftPayload, right, rightPayload, known) ==
      Detect(right, rightPayload, left, leftPayload, known)
  {
    hide OrderedIn, ContentAnalysis, SortedPair;
    SortedPairSymmetric(left.id, right.id);
    OrderedInSymmetric(left, right, known);
    ContentAnalysisSymmetric(left, leftPayload, right, rightPayload, SortedPair(left.id, right.id));
  }

  /** `_conflict_record`: digests are looked up by id, the second event's last. */
  function ConflictRecordOf(analysis: Analysis, left: Event, right: Event): (record: ConflictRecord)
    ensures record.id == ConflictId(record.core) && record.core.class_ == analysis.class_
  {
    var digest := (id: string) => if id == right.id then CoreDigest(right) else CoreDigest(left);
    var core := ConflictCore(analysis.class_, analysis.subject, analysis.members,
                             seq(|analysis.members|, i requires 0 <= i < |analysis.members| =>
                                 digest(analysis.members[i])));
    ConflictRecord(ConflictId(core), core)
  }

  /** Both orders build the identical record, conflict id included, exactly when the ids
    differ or the events are the same. */
  lemma RecordSymmetricIff(analysis: Analysis, left: Event, right: Event)
    requires analysis.members == SortedPair(left.id, right.id)
    ensures ConflictRecordOf(analysis, left, right) == ConflictRecordOf(analysis, right, left)
            <==> left.id != right.id || left == right
  {
    var a, b := ConflictRecordOf(analysis, left, right), ConflictRecordOf(analysis, right, left);
    if left.id != right.id || left == right {
      assert a.core.digests == b.core.digests;
    } else {
      assert a.core.digests[0] == CoreDigest(right) && b.core.digests[0] == CoreDigest(left);
    }
  }

  lemma DetectMembers(left: Event, leftPayload: Payload, right: Event, rightPayload: Payload, known: Option<seq<Event>>)
    ensures var a := Detect(left, leftPayload, right, rightPayload, known);
      a.Ok? ==> a.value.members == SortedPair(left.id, right.id)
  {
  }

  /** What the contents of two events on one matter say against each other. */
  predicate ContentsClash(left: Event, leftPayload: Payload, right: Event, rightPayload: Payload) {
    var l, r := PayloadObject(leftPayload), PayloadObject(rightPayload);
    && l.Ok? && r.Ok?
    && (|| StartsWith(left.kind, "ral.identity.") || StartsWith(right.kind, "ral.identity.")
        || EndsWith(left.kind, "state_transition") || EndsWith(right.kind, "state_transition")
        || (PyEqual(Get(l.value, "field"), Get(r.value, "field"))
            && !PyEqual(Get(l.value, "value"), Get(r.value, "value"))))
  }

  /** In a valid known graph, two events conflict exactly when neither came before the other, they are about
    one subject, and either two authorities speak or their contents clash; unordered events on different
    subjects never do. */
  lemma ConflictsAreConcurrent(left: Event, leftPayload: Payload, right: Event, rightPayload: Payload,
                               events: seq<Event>)
    requires left.id != right.id && GraphCode(EventsIn(events)).None? && left in events && right in events
    ensures var r := Detect(left, leftPayload, right, rightPayload, Some(events));
      (r.Ok? && r.value.verdict == InConflict) <==>
      && !Ancestor(GraphOf(EventsIn(events)), left.id, right.id)
         && !Ancestor(GraphOf(EventsIn(events)), right.id, left.id)
      && left.subject == right.subject
      && (left.authority != right.authority || ContentsClash(left, leftPayload, right, rightPayload))
    ensures var r := Detect(left, leftPayload, right, rightPayload, Some(events));
      r.Ok? ==> (r.value.verdict == InConflict <==> r.value.class_ != ConcurrentNonexclusive)
  {
    hide PyEqual, StartsWith, EndsWith;
    assert left.id in Ids(EventsIn(events)) && right.id in Ids(EventsIn(events));
  }

  /** Detection and recording together do not depend on the order of two distinct events. */
  lemma ConflictIndependentOfOrder(left: Event, leftPayload: Payload, right: Event, rightPayload: Payload,
                                   known: Option<seq<Event>>)
    requires left.id != right.id
    ensures var a := Detect(left, leftPayload, right, rightPayload, known);
      var b := Detect(right, rightPayload, left, leftPayload, known);
      a == b && (a.Ok? ==> ConflictRecordOf(a.value, left, right) == ConflictRecordOf(b.value, right, left))
  {
    hide Detect, ConflictRecordOf;
    DetectionSymmetric(left, leftPayload, right, rightPayload, known);
    DetectMembers(left, leftPayload, right, rightPayload, known);
    var a := Detect(left, leftPayload, right, rightPayload, known);
    if a.Ok? { RecordSymmetricIff(a.value, left, right); }
  }

  // Authority

  datatype AuthorityStatus = Verified | Rejected | Unmeasured | NotRequired

  /** A verifier's answer, with the question it says it answers. */
  datatype Verification = Verification(
    status: AuthorityStatus, authority: Option<string>, action: string, subject: string, evidence: Option<string>)

  /** `verify_event_authority`; `answer` is what the verifier says, if there is a verifier. */
  function Authority(config: Config, event: Event, answer: Option<Verification>, action: string, target: string)
    : Result<AuthorityStatus, Code>
  {
    if event.kind !in config.authorityKinds then Ok(NotRequired)
    else match answer
      case None => Ok(Unmeasured)
      case Some(v) =>
        if v.authority != event.authority || v.action != action || v.subject != target then Err(AuthorityScopeMismatch)
        else Ok(v.status)
  }

  predicate Permits(authority: Result<AuthorityStatus, Code>) {
    authority == Ok(Verified) || authority == Ok(NotRequired)
  }

  // Reconciliation

  datatype Decision = Adopted | NotMeasured | Refused | Conflicting(id: ConflictId, class_: ConflictClass)

  /** How a stored event stands to the one being reconciled. */
  ghost function Opposing(listed: seq<Event>, other: Event, event: Event): Result<Analysis, Code> {
    Detect(other, other.payloadSha.preimage, event, event.payloadSha.preimage, Some(listed))
  }

  ghost predicate Comparable(listed: seq<Event>, event: Event, j: nat)
    requires j < |listed|
  {
    listed[j].id == event.id || Opposing(listed, listed[j], event).Ok?
  }

  ghost predicate Contests(listed: seq<Event>, event: Event, j: nat)
    requires j < |listed|
  {
    && listed[j].id != event.id
    && Opposing(listed, listed[j], event).Ok?
    && Opposing(listed, listed[j], event).value.class_ != ConcurrentNonexclusive
  }

  ghost function Urgency(listed: seq<Event>, event: Event, j: nat): nat
    requires j < |listed| && Contests(listed, event, j)
  {
    Priority(Opposing(listed, listed[j], event).value.class_)
  }

  /** `j` is the earliest of the most urgent conflicts. */
  ghost predicate Foremost(listed: seq<Event>, event: Event, j: nat)
    requires j < |listed|
  {
    && Contests(listed, event, j)
    && (forall i {:trigger Contests(listed, event, i)} | 0 <= i < |listed| && Contests(listed, event, i) ::
          Urgency(listed, event, j) <= Urgency(listed, event, i)
            && (i < j ==> Urgency(listed, event, j) < Urgency(listed, event, i)))
  }

  ghost function RecordAt(listed: seq<Event>, event: Event, j: nat): ConflictRecord
    requires j < |listed| && Contests(listed, event, j)
  {
    ConflictRecordOf(Opposing(listed, listed[j], event).value, listed[j], event)
  }

  /** Conflict files are named by the hash of what they hold. */
  ghost predicate NamedByContent(conflicts: map<ConflictId, ConflictRecord>) {
    forall id | id in conflicts :: conflicts[id] == ConflictRecord(id, id.core)
  }

  type Conflicts = map<ConflictId, ConflictRecord>

  /** What reconciling an event that authority permits decides, and the conflict records it leaves. */
  ghost predicate Decides(listed: seq<Event>, event: Event, before: Conflicts, after: Conflicts,
                          r: Result<Decision, Code>) {
    && (r == Ok(Adopted) <==>
        (forall j | 0 <= j < |listed| :: Comparable(listed, event, j))
        && forall j | 0 <= j < |listed| :: !Contests(listed, event, j))
    && (r.Err? <==> exists j | 0 <= j < |listed| :: !Comparable(listed, event, j))
    && (r.Err? || r == Ok(Adopted) ==> after == before)
    && (r.Err? ==> r.error == ConflictPayloadInvalid)
    && (r.Ok? && r.value != Adopted ==>
          exists j | 0 <= j < |listed| ::
            && Foremost(listed, event, j)
            && var record := RecordAt(listed, event, j);
               r.value == Conflicting(record.id, record.core.class_) && after == before[record.id := record])
  }

  method Earliest(listed: seq<Event>, event: Event, candidates: seq<(Analysis, Event)>, ghost at: seq<nat>)
    returns (k: nat)
    requires |candidates| == |at| > 0 && CandidatesFit(listed, event, candidates, at, |listed|)
    ensures k < |at| && Foremost(listed, event, at[k])
  {
    hide Opposing;
    k := 0;
    for n := 1 to |candidates|
      invariant k < n
      invariant forall m | 0 <= m < n :: Urgency(listed, event, at[k]) <= Urgency(listed, event, at[m])
      invariant forall m | 0 <= m < k :: Urgency(listed, event, at[k]) < Urgency(listed, event, at[m])
    {
      if Priority(candidates[n].0.class_) < Priority(candidates[k].0.class_) { k := n; }
    }
    forall i {:trigger Contests(listed, event, i)} | 0 <= i < |listed| && Contests(listed, event, i)
      ensures Urgency(listed, event, at[k]) <= Urgency(listed, event, i)
      ensures i < at[k] ==> Urgency(listed, event, at[k]) < Urgency(listed, event, i)
    {
      var m :| 0 <= m < |at| && at[m] == i;
    }
  }

  /** The candidates gathered from the first `n` events, and where each came from. */
  ghost predicate CandidatesFit(listed: seq<Event>, event: Event, candidates: seq<(Analysis, Event)>, at: seq<nat>,
                                n: nat)
    requires |candidates| == |at| && n <= |listed|
  {
    && (forall k | 0 <= k < |at| ::
          at[k] < n && Contests(listed, event, at[k])
          && candidates[k] == (Opposing(listed, listed[at[k]], event).value, listed[at[k]]))
    && (forall k, m | 0 <= k < m < |at| :: at[k] < at[m])
    && (forall j | 0 <= j < n && Contests(listed, event, j) :: exists k | 0 <= k < |at| :: at[k] == j)
  }

  lemma CandidatesSkip(listed: seq<Event>, event: Event, candidates: seq<(Analysis, Event)>, at: seq<nat>, n: nat)
    requires |candidates| == |at| && n < |listed| && CandidatesFit(listed, event, candidates, at, n)
    requires !Contests(listed, event, n)
    ensures CandidatesFit(listed, event, candidates, at, n + 1)
  {
    hide Opposing;
  }

  lemma CandidatesAdd(listed: seq<Event>, event: Event, candidates: seq<(Analysis, Event)>, at: seq<nat>, n: nat)
    requires |candidates| == |at| && n < |listed| && CandidatesFit(listed, event, candidates, at, n)
    requires Contests(listed, event, n)
    ensures CandidatesFit(listed, event, candidates + [(Opposing(listed, listed[n], event).value, listed[n])],
                          at + [n], n + 1)
  {
    hide Opposing;
    var longer := at + [n];
    forall j | 0 <= j < n + 1 && Contests(listed, event, j) ensures exists k | 0 <= k < |longer| :: longer[k] == j {
      if j < n {
        var k :| 0 <= k < |at| && at[k] == j;
        assert longer[k] == j;
      } else {
        assert longer[|at|] == j;
      }
    }
  }

  lemma OnlyPayloadsFail(listed: seq<Event>, other: Event, event: Event)
    requires event in listed && other in listed
    ensures Opposing(listed, other, event).Err? ==> Opposing(listed, other, event).error == ConflictPayloadInvalid
  {
    hide ContentAnalysis;
    ContentFailures(other, other.payloadSha.preimage, event, event.payloadSha.preimage, SortedPair(other.id, event.id));
  }

  lemma ContentFailures(left: Event, leftPayload: Payload, right: Event, rightPayload: Payload, members: seq<string>)
    ensures var r := ContentAnalysis(left, leftPayload, right, rightPayload, members);
      r.Err? ==> r.error == ConflictPayloadInvalid
  {
  }

  /** The scan over every other stored event: those that conflict, or the first failure. */
  method Gather(listed: seq<Event>, event: Event) returns (r: Result<seq<(Analysis, Event)>, Code>, ghost at: seq<nat>)
    requires event in listed
    ensures r.Ok? ==> |r.value| == |at| && CandidatesFit(listed, event, r.value, at, |listed|)
    ensures r.Ok? ==> forall j | 0 <= j < |listed| :: Comparable(listed, event, j)
    ensures r.Err? ==>
      r.error == ConflictPayloadInvalid && exists j | 0 <= j < |listed| :: !Comparable(listed, event, j)
  {
    hide Detect;
    var candidates: seq<(Analysis, Event)> := [];
    at := [];
    for n := 0 to |listed|
      invariant |candidates| == |at| && CandidatesFit(listed, event, candidates, at, n)
      invariant forall j | 0 <= j < n :: Comparable(listed, event, j)
    {
      var other := listed[n];
      if other.id != event.id {
        var analysis := DetectConflict(other, other.payloadSha.preimage, event, event.payloadSha.preimage,
                                       Some(listed));
        if analysis.Err? {
          OnlyPayloadsFail(listed, other, event);
          assert !Comparable(listed, event, n);
          return Err(analysis.error), at;
        }
        if analysis.value.class_ != ConcurrentNonexclusive {
          CandidatesAdd(listed, event, candidates, at, n);
          candidates, at := candidates + [(analysis.value, other)], at + [n];
        } else {
          CandidatesSkip(listed, event, candidates, at, n);
        }
      } else {
        CandidatesSkip(listed, event, candidates, at, n);
      }
    }
    return Ok(candidates), at;
  }

  /** `record_conflict`: published once; the same record again is no error. */
  method RecordConflict(store: FederationStore, record: ConflictRecord) returns (code: Option<Code>)
    modifies store`conflicts
    ensures code == None <==> record.id !in old(store.conflicts) || old(store.conflicts)[record.id] == record
    ensures code == None ==> store.conflicts == old(store.conflicts)[record.id := record]
    ensures code != None ==> store.conflicts == old(store.conflicts) && code == Some(ConflictContentCollision)
  {
    if record.id !in store.conflicts {
      store.conflicts := store.conflicts[record.id := record];
    } else if store.conflicts[record.id] != record {
      return Some(ConflictContentCollision);
    }
    return None;
  }

  /** Adopt, or record the most urgent conflict. */
  method Confront(store: FederationStore, event: Event, listed: seq<Event>) returns (r: Result<Decision, Code>)
    requires event in listed && NamedByContent(store.conflicts)
    modifies store`conflicts
    ensures Decides(listed, event, old(store.conflicts), store.conflicts, r)
    ensures NamedByContent(store.conflicts)
  {
    hide Detect, Opposing, ConflictRecordOf;
    ghost var at;
    var found;
    found, at := Gather(listed, event);
    if found.Err? { return Err(found.error); }
    var candidates := found.value;
    if candidates == [] {
      assert forall j | 0 <= j < |listed| :: !Contests(listed, event, j);
      return Ok(Adopted);
    }
    var k := Earliest(listed, event, candidates, at);
    var record := ConflictRecordOf(candidates[k].0, candidates[k].1, event);
    assert Foremost(listed, event, at[k]) && record == RecordAt(listed, event, at[k]);
    var code := RecordConflict(store, record);
    return Ok(Conflicting(record.id, candidates[k].0.class_));
  }

  /** What withholding authority answers. */
  function Withheld(authority: Result<AuthorityStatus, Code>): Result<Decision, Code>
    requires !Permits(authority)
  {
    match authority
    case Err(code) => Err(code)
    case Ok(status) => Ok(if status.Unmeasured? then NotMeasured else Refused)
  }

  /** The stored event with this id, found again in the listing. */
  method FindEvent(store: FederationStore, id: string) returns (r: Result<Event, Code>)
    requires store.Valid()
    ensures IdsUnique(Stored(store.Snapshot()))
    ensures r == if id in store.index then Ok(store.index[id].digest.core) else Err(EventNotFound)
    ensures r.Ok? ==> r.value in Listing(Stored(store.Snapshot()))
  {
    StoredIsWhatGetEventReads(store.Snapshot());
    hide FilesInv, Indexed;
    r := GetEvent(store.Snapshot(), id);
    if r.Ok? { assert r.value in EventsIn(Listing(Stored(store.Snapshot()))); }
  }

  /** `reconcile_event`: authority first, then every other stored event. */
  method ReconcileEvent(store: FederationStore, id: string, answer: Option<Verification>)
    returns (r: Result<Decision, Code>)
    requires store.Valid() && NamedByContent(store.conflicts)
    modifies store`conflicts
    ensures store.Valid() && NamedByContent(store.conflicts) && IdsUnique(Stored(store.Snapshot()))
    ensures id !in store.index ==> r == Err(EventNotFound) && store.conflicts == old(store.conflicts)
    ensures id in store.index ==>
      var event := store.index[id].digest.core;
      var authority := Authority(store.config, event, answer, "adopt_event", event.subject);
      if Permits(authority) then Decides(Listing(Stored(store.Snapshot())), event, old(store.conflicts),
                                         store.conflicts, r)
      else r == Withheld(authority) && store.conflicts == old(store.conflicts)
  {
    hide FilesInv, Decides, Stored, IdsUnique, NamedByContent;
    var event := FindEvent(store, id);
    if event.Err? { return Err(event.error); }
    var authority := Authority(store.config, event.value, answer, "adopt_event", event.value.subject);
    if authority.Err? { return Err(authority.error); }
    if authority.value == Unmeasured { return Ok(NotMeasured); }
    if authority.value == Rejected { return Ok(Refused); }
    var listed := store.ListEvents();
    r := Confront(store, event.value, listed);
  }

  /** Two events that each find only the other in conflict record one and the same conflict,
    whichever is reconciled, and in either store. */
  lemma MutualConflictHasOneRecord(listed: seq<Event>, i: nat, j: nat, before: Conflicts, after: Conflicts,
                                   otherBefore: Conflicts, otherAfter: Conflicts, r: Decision, s: Decision)
    requires i < |listed| && j < |listed| && listed[i].id != listed[j].id
    requires Decides(listed, listed[i], before, after, Ok(r))
      && Decides(listed, listed[j], otherBefore, otherAfter, Ok(s))
    requires forall k | 0 <= k < |listed| && k != j :: !Contests(listed, listed[i], k)
    requires forall k | 0 <= k < |listed| && k != i :: !Contests(listed, listed[j], k)
    ensures r == s
    ensures r != Adopted ==> r.Conflicting? && r.id in after && r.id in otherAfter && after[r.id] == otherAfter[r.id]
  {
    var left, right := listed[i], listed[j];
    ConflictIndependentOfOrder(left, left.payloadSha.preimage, right, right.payloadSha.preimage, Some(listed));
    hide Detect, ConflictRecordOf;
    assert Opposing(listed, left, right) == Opposing(listed, right, left);
    if r == Adopted {
      assert !Contests(listed, left, j) && !Contests(listed, right, i);
    } else {
      assert Contests(listed, left, j);
      assert Contests(listed, right, i);
    }
  }
}
