/** Inventories of two replicas, and how exchanging what is missing makes them equal. */
module Inventories {
  import opened Prelude
  import opened Ordering
  import opened Events
  import opened SubmitProtocol
  import opened SubmitRuns
  import opened Causal
  import opened FederationStores
  import opened Importer

  datatype InventoryRecord = InventoryRecord(
    eventId: string, digest: CoreDigest, slot: Slot, parents: seq<string>,
    payloadSha: Digest, payloadBytes: nat, fabricClass: string, available: bool)

  /** One generation of one replica's log. */
  datatype Log = Log(replicaId: string, generation: string)

  datatype ReplicaRange = ReplicaRange(log: Log, minimum: nat, maximum: nat, count: nat)

  datatype Inventory = Inventory(
    realmId: string, records: seq<InventoryRecord>, ranges: seq<ReplicaRange>, heads: seq<string>)

  function LogOf(e: Event): Log { Log(e.slot.replicaId, e.slot.generation) }

  predicate LogLess(a: Log, b: Log) {
    TextLess(a.replicaId, b.replicaId) || (a.replicaId == b.replicaId && TextLess(a.generation, b.generation))
  }

  lemma LogOrderTotal(logs: set<Log>)
    ensures StrictTotalOn(LogLess, logs)
  {
    forall a | a in logs ensures !LogLess(a, a) {
      TextLessIrreflexive(a.replicaId);
      TextLessIrreflexive(a.generation);
    }
    forall a, b | a in logs && b in logs ensures a == b || LogLess(a, b) || LogLess(b, a) {
      TextLessTotal(a.replicaId, b.replicaId);
      TextLessTotal(a.generation, b.generation);
    }
    forall a, b, c | a in logs && b in logs && c in logs && LogLess(a, b) && LogLess(b, c) ensures LogLess(a, c) {
      if TextLess(a.replicaId, b.replicaId) && TextLess(b.replicaId, c.replicaId) {
        TextLessTransitive(a.replicaId, b.replicaId, c.replicaId);
      }
      if TextLess(a.generation, b.generation) && TextLess(b.generation, c.generation) {
        TextLessTransitive(a.generation, b.generation, c.generation);
      }
    }
  }

  function RecordOf(f: Files, e: Event): InventoryRecord {
    var available := e.payloadRef in f.payloads;
    InventoryRecord(e.id, CoreDigest(e), e.slot, e.parents, e.payloadSha,
                    if available then |f.payloads[e.payloadRef].raw| else 0, e.fabricClass, available)
  }

  /** The listed events of one log. */
  ghost function InLog(events: set<Event>, log: Log): set<Event> {
    set e | e in events && LogOf(e) == log
  }

  /** `range` tells the least and greatest sequence number of its log, and how many events it has. */
  ghost predicate Covers(range: ReplicaRange, events: set<Event>) {
    && range.count == |InLog(events, range.log)| > 0
    && (forall e | e in InLog(events, range.log) :: range.minimum <= e.slot.seqNo <= range.maximum)
    && (exists e | e in InLog(events, range.log) :: e.slot.seqNo == range.minimum)
    && (exists e | e in InLog(events, range.log) :: e.slot.seqNo == range.maximum)
  }

  function Records(f: Files, items: seq<Event>): (r: seq<InventoryRecord>)
    ensures |r| == |items| && forall i | 0 <= i < |r| :: r[i] == RecordOf(f, items[i])
  {
    seq(|items|, i requires 0 <= i < |items| => RecordOf(f, items[i]))
  }

  /** What `build_inventory` promises about the stored events. */
  ghost predicate Describes(inv: Inventory, realmId: string, f: Files) {
    && IdsUnique(Stored(f))
    && inv.realmId == realmId
    && inv.records == Records(f, Listing(Stored(f)))
    && inv.heads == SortedText(HeadIds(Stored(f)))
    && Ascending((a: ReplicaRange, b: ReplicaRange) => LogLess(a.log, b.log), inv.ranges)
    && (forall r | r in inv.ranges :: Covers(r, Stored(f)))
    && (forall e | e in Stored(f) :: exists r | r in inv.ranges :: r.log == LogOf(e))
  }

  method Summarize(logs: map<Log, seq<nat>>, log: Log) returns (range: ReplicaRange)
    requires log in logs && logs[log] != []
    ensures range.log == log && range.count == |logs[log]|
    ensures range.minimum in logs[log] && range.maximum in logs[log]
    ensures forall n | n in logs[log] :: range.minimum <= n <= range.maximum
  {
    var sequences := logs[log];
    var least, greatest := sequences[0], sequences[0];
    for i := 0 to |sequences|
      invariant least in sequences && greatest in sequences
      invariant forall k | 0 <= k < i :: least <= sequences[k] <= greatest
    {
      if sequences[i] < least { least := sequences[i]; }
      if sequences[i] > greatest { greatest := sequences[i]; }
    }
    return ReplicaRange(log, least, greatest, |sequences|);
  }

  /** The events of one log, in listing order. */
  ghost function LogEvents(items: seq<Event>, log: Log): seq<Event> {
    if items == [] then []
    else
      var last := items[|items| - 1];
      LogEvents(items[..|items| - 1], log) + if LogOf(last) == log then [last] else []
  }

  ghost function SequencesIn(items: seq<Event>, log: Log): seq<nat> {
    var events := LogEvents(items, log);
    seq(|events|, i requires 0 <= i < |events| => events[i].slot.seqNo)
  }

  lemma {:induction false} LogEventsAre(items: seq<Event>, log: Log)
    requires forall i, j | 0 <= i < j < |items| :: items[i].id != items[j].id
    ensures EventsIn(LogEvents(items, log)) == InLog(EventsIn(items), log)
    ensures |LogEvents(items, log)| == |InLog(EventsIn(items), log)|
  {
    if items == [] {
      assert InLog(EventsIn(items), log) == {};
    } else {
      var init, last := items[..|items| - 1], items[|items| - 1];
      LogEventsAre(init, log);
      EventsInLast(items);
      assert last !in EventsIn(init);
      LogOneMore(EventsIn(init), last, log);
      hide EventsIn, InLog;
      if LogOf(last) == log {
        var events := LogEvents(init, log) + [last];
        EventsInLast(events);
        assert events[..|events| - 1] == LogEvents(init, log);
      }
    }
  }

  lemma LogOneMore(events: set<Event>, e: Event, log: Log)
    requires e !in events
    ensures InLog(events + {e}, log) == InLog(events, log) + (if LogOf(e) == log then {e} else {})
    ensures e !in InLog(events, log)
  {
  }

  /** `logs` groups the sequence numbers of `items` by log. */
  ghost predicate Grouped(logs: map<Log, seq<nat>>, items: seq<Event>) {
    forall log :: SequencesIn(items, log) == if log in logs then logs[log] else []
  }

  function Noted(logs: map<Log, seq<nat>>, e: Event): map<Log, seq<nat>> {
    logs[LogOf(e) := (if LogOf(e) in logs then logs[LogOf(e)] else []) + [e.slot.seqNo]]
  }

  lemma NotedGroups(logs: map<Log, seq<nat>>, items: seq<Event>, i: nat)
    requires i < |items| && Grouped(logs, items[..i])
    ensures Grouped(Noted(logs, items[i]), items[..i + 1])
    ensures (forall log | log in logs :: logs[log] != []) ==>
      forall log | log in Noted(logs, items[i]) :: Noted(logs, items[i])[log] != []
  {
    assert items[..i + 1][..i] == items[..i];
  }

  lemma ParentsOneMore(events: set<Event>, e: Event)
    ensures ParentIds(events + {e}) == ParentIds(events) + (set p | p in e.parents)
  {
  }

  /** What the loop of `build_inventory` has gathered from the first `n` events. */
  ghost predicate Tabulated(files: Files, events: seq<Event>, n: nat, records: seq<InventoryRecord>,
                            logs: map<Log, seq<nat>>, parents: set<string>)
    requires n <= |events|
  {
    && |records| == n && (forall k | 0 <= k < n :: records[k] == RecordOf(files, events[k]))
    && Grouped(logs, events[..n]) && (forall log | log in logs :: logs[log] != [])
    && parents == ParentIds(EventsIn(events[..n]))
  }

  lemma TabulatedNext(files: Files, events: seq<Event>, n: nat, records: seq<InventoryRecord>, logs: map<Log, seq<nat>>,
                      parents: set<string>)
    requires n < |events| && Tabulated(files, events, n, records, logs, parents)
    ensures Tabulated(files, events, n + 1, records + [RecordOf(files, events[n])], Noted(logs, events[n]),
                      parents + (set p | p in events[n].parents))
  {
    hide Grouped, EventsIn, ParentIds, RecordOf, Noted;
    NotedGroups(logs, events, n);
    EventsInPrefix(events, n);
    ParentsOneMore(EventsIn(events[..n]), events[n]);
  }

  lemma TabulatedAll(files: Files, events: seq<Event>, records: seq<InventoryRecord>, logs: map<Log, seq<nat>>,
                     parents: set<string>)
    requires Tabulated(files, events, |events|, records, logs, parents)
    ensures records == Records(files, events)
    ensures Grouped(logs, events) && forall log | log in logs :: logs[log] != []
    ensures parents == ParentIds(EventsIn(events))
  {
    hide Grouped, EventsIn, ParentIds, RecordOf;
    assert events[..|events|] == events;
  }

  /** The loop of `build_inventory` over the listed events. */
  method Tabulate(files: Files, events: seq<Event>)
    returns (records: seq<InventoryRecord>, logs: map<Log, seq<nat>>, parents: set<string>)
    ensures records == Records(files, events)
    ensures Grouped(logs, events) && forall log | log in logs :: logs[log] != []
    ensures parents == ParentIds(EventsIn(events))
  {
    records, logs, parents := [], map[], {};
    assert Tabulated(files, events, 0, records, logs, parents);
    hide Tabulated, Noted, RecordOf;
    for i := 0 to |events|
      invariant Tabulated(files, events, i, records, logs, parents)
    {
      TabulatedNext(files, events, i, records, logs, parents);
      records, logs := records + [RecordOf(files, events[i])], Noted(logs, events[i]);
      parents := parents + (set p | p in events[i].parents);
    }
    TabulatedAll(files, events, records, logs, parents);
  }

  /** `build_inventory` */
  method BuildInventory(store: FederationStore) returns (inv: Inventory)
    requires store.Valid()
    ensures Describes(inv, store.config.realmId, store.Snapshot())
  {
    var events := store.ListEvents();
    ListingIdsDistinct(Stored(store.Snapshot()));
    hide FilesInv, Stored, Grouped, Covers;
    var records, logs, parents := Tabulate(store.Snapshot(), events);
    var ranges := Ranges(logs, events);
    HeadsOfDistinctEvents(events);
    return Inventory(store.config.realmId, records, ranges, SortList(HeadList(events, parents)));
  }

  /** One range per log, in log order. */
  method Ranges(logs: map<Log, seq<nat>>, ghost items: seq<Event>) returns (ranges: seq<ReplicaRange>)
    requires forall i, j | 0 <= i < j < |items| :: items[i].id != items[j].id
    requires Grouped(logs, items) && forall log | log in logs :: logs[log] != []
    ensures Ascending((a: ReplicaRange, b: ReplicaRange) => LogLess(a.log, b.log), ranges)
    ensures forall r | r in ranges :: Covers(r, EventsIn(items))
    ensures forall e | e in items :: exists r | r in ranges :: r.log == LogOf(e)
  {
    hide Covers, Grouped, StrictTotalOn;
    LogOrderTotal(logs.Keys);
    var keys := Sort(logs.Keys, LogLess);
    ranges := [];
    for i := 0 to |keys|
      invariant |ranges| == i && forall k | 0 <= k < i :: ranges[k].log == keys[k] && Covers(ranges[k], EventsIn(items))
    {
      assert keys[i] in keys;
      var range := Summarize(logs, keys[i]);
      GroupOf(logs, items, keys[i]);
      SummaryCovers(items, logs[keys[i]], range);
      ranges := ranges + [range];
    }
    forall e | e in items ensures exists r | r in ranges :: r.log == LogOf(e) {
      EventHasLog(logs, items, e);
      assert LogOf(e) in keys;
      var k :| 0 <= k < |keys| && keys[k] == LogOf(e);
      assert ranges[k] in ranges;
    }
  }

  lemma EventHasLog(logs: map<Log, seq<nat>>, items: seq<Event>, e: Event)
    requires forall i, j | 0 <= i < j < |items| :: items[i].id != items[j].id
    requires Grouped(logs, items) && e in items
    ensures LogOf(e) in logs
  {
    LogEventsAre(items, LogOf(e));
    assert e in InLog(EventsIn(items), LogOf(e));
    assert |SequencesIn(items, LogOf(e))| > 0;
  }

  lemma GroupOf(logs: map<Log, seq<nat>>, items: seq<Event>, log: Log)
    requires Grouped(logs, items) && log in logs
    ensures logs[log] == SequencesIn(items, log)
  {
  }

  lemma SummaryCovers(items: seq<Event>, sequences: seq<nat>, range: ReplicaRange)
    requires forall i, j | 0 <= i < j < |items| :: items[i].id != items[j].id
    requires sequences == SequencesIn(items, range.log) && range.count == |sequences| > 0
    requires range.minimum in sequences && range.maximum in sequences
    requires forall n | n in sequences :: range.minimum <= n <= range.maximum
    ensures Covers(range, EventsIn(items))
  {
    var events := LogEvents(items, range.log);
    LogEventsAre(items, range.log);
    forall e | e in InLog(EventsIn(items), range.log) ensures range.minimum <= e.slot.seqNo <= range.maximum {
      assert e in EventsIn(events);
      var k :| 0 <= k < |events| && events[k] == e;
      assert sequences[k] == e.slot.seqNo && sequences[k] in sequences;
    }
    var least :| 0 <= least < |sequences| && sequences[least] == range.minimum;
    var greatest :| 0 <= greatest < |sequences| && sequences[greatest] == range.maximum;
    assert events[least] in EventsIn(events) && events[greatest] in EventsIn(events);
  }

  // Differences

  datatype InventoryDiff = InventoryDiff(
    missingFromLocal: seq<string>, missingFromRemote: seq<string>, digestMismatches: seq<string>)

  /** Records by event id, the last one winning. */
  function ById(records: seq<InventoryRecord>): map<string, InventoryRecord> {
    if records == [] then map[]
    else ById(records[..|records| - 1])[records[|records| - 1].eventId := records[|records| - 1]]
  }

  /** `diff_inventories` */
  ghost function Diff(local: Inventory, remote: Inventory): InventoryDiff {
    var l, r := ById(local.records), ById(remote.records);
    InventoryDiff(
      SortedText(r.Keys - l.Keys),
      SortedText(l.Keys - r.Keys),
      SortedText(set id | id in l.Keys * r.Keys && l[id].digest != r[id].digest))
  }

  method DiffInventories(local: Inventory, remote: Inventory) returns (diff: InventoryDiff)
    ensures diff == Diff(local, remote)
  {
    var l, r := ById(local.records), ById(remote.records);
    var missingLocal := SortText(r.Keys - l.Keys);
    var missingRemote := SortText(l.Keys - r.Keys);
    var mismatched := SortText(set id | id in l.Keys * r.Keys && l[id].digest != r[id].digest);
    return InventoryDiff(missingLocal, missingRemote, mismatched);
  }
}
