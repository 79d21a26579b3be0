/** What an inventory and a diff of two of them say, told over the stored events alone. */
module InventoryResults {
  import opened Prelude
  import opened Ordering
  import opened Events
  import opened SubmitProtocol
  import opened Causal
  import opened FederationStores
  import opened Inventories
  import opened Convergence

  /** The record of an event: what the event itself says, and the size of its payload. */
  function RecordFor(e: Event): InventoryRecord {
    InventoryRecord(e.id, CoreDigest(e), e.slot, e.parents, e.payloadSha, |e.payloadSha.preimage.raw|, e.fabricClass,
                    true)
  }

  /** `range` tells the first and last position and the number of the events of its log. */
  ghost predicate Spans(range: ReplicaRange, events: set<Event>) {
    var mine := set e | e in events && e.slot.replicaId == range.log.replicaId
      && e.slot.generation == range.log.generation;
    && range.count == |mine|
    && (forall e | e in mine :: range.minimum <= e.slot.seqNo <= range.maximum)
    && (exists e :: e in mine && e.slot.seqNo == range.minimum)
    && (exists e :: e in mine && e.slot.seqNo == range.maximum)
  }

  ghost predicate InOrder(a: Log, b: Log) {
    TextLess(a.replicaId, b.replicaId) || (a.replicaId == b.replicaId && TextLess(a.generation, b.generation))
  }

  /** One record per stored event, in listing order, and the ids nobody names as a parent, in order. */
  lemma InventoryMeans(inv: Inventory, realmId: string, f: Files)
    requires FilesInv(f) && Describes(inv, realmId, f)
    ensures var listed := Listing(Stored(f));
      |inv.records| == |listed| && forall i | 0 <= i < |listed| :: inv.records[i] == RecordFor(listed[i])
    ensures Ascending(TextLess, inv.heads)
    ensures forall id :: id in inv.heads <==>
      (exists e :: e in Stored(f) && e.id == id) && forall e | e in Stored(f) :: id !in e.parents
  {
    hide FilesInv, Stored, Listing, HeadIds, RecordFor, Records, Ascending, Covers;
    RecordsMean(f);
    HeadsAre(Stored(f));
  }

  lemma RecordsMean(f: Files)
    requires FilesInv(f) && IdsUnique(Stored(f))
    ensures var listed := Listing(Stored(f));
      forall i | 0 <= i < |listed| :: Records(f, listed)[i] == RecordFor(listed[i])
  {
    hide FilesInv, Stored, Listing, RecordOf, RecordFor;
    forall e | e in Stored(f) ensures RecordOf(f, e) == RecordFor(e) { RecordIs(f, e); }
    ListedAreStored(Stored(f));
  }

  lemma RecordIs(f: Files, e: Event)
    requires FilesInv(f) && e in Stored(f)
    ensures RecordOf(f, e) == RecordFor(e)
  {
    StoredIsWhatGetEventReads(f);
    assert Indexed(f, e);
    hide FilesInv;
  }

  lemma HeadsAre(events: set<Event>)
    ensures forall id :: id in HeadIds(events) <==>
      (exists e :: e in events && e.id == id) && forall e | e in events :: id !in e.parents
  {
  }

  lemma ListedAreStored(events: set<Event>)
    requires IdsUnique(events)
    ensures forall i | 0 <= i < |Listing(events)| :: Listing(events)[i] in events
  {
    ListingHolds(events);
    hide Listing;
    forall i | 0 <= i < |Listing(events)| ensures Listing(events)[i] in events {
      assert Listing(events)[i] in EventsIn(Listing(events));
    }
  }

  /** One range for every log that has events, and no other, in order of replica and generation. */
  lemma RangesMean(inv: Inventory, realmId: string, f: Files)
    requires Describes(inv, realmId, f)
    ensures forall i, j | 0 <= i < j < |inv.ranges| :: InOrder(inv.ranges[i].log, inv.ranges[j].log)
    ensures forall r | r in inv.ranges :: Spans(r, Stored(f))
    ensures forall e | e in Stored(f) :: exists r ::
      r in inv.ranges && r.log == Log(e.slot.replicaId, e.slot.generation)
  {
    hide Stored, Listing, Records, HeadIds, Spans, Covers;
    forall r | r in inv.ranges ensures Spans(r, Stored(f)) { SpansIs(r, Stored(f)); }
  }

  lemma SpansIs(range: ReplicaRange, events: set<Event>)
    requires Covers(range, events)
    ensures Spans(range, events)
  {
    assert InLog(events, range.log) ==
      set e | e in events && e.slot.replicaId == range.log.replicaId && e.slot.generation == range.log.generation;
  }

  /** A diff tells, each in order: the ids only the other side stores, those only this side stores, and those under
    which the two sides store different events. */
  lemma DiffMeans(mine: Inventory, theirs: Inventory, a: Files, b: Files, realmA: string, realmB: string)
    requires Describes(mine, realmA, a) && Describes(theirs, realmB, b)
    ensures var diff := Diff(mine, theirs);
      && Ascending(TextLess, diff.missingFromLocal) && Ascending(TextLess, diff.missingFromRemote)
      && Ascending(TextLess, diff.digestMismatches)
      && forall id ::
           && (id in diff.missingFromLocal <==> id in Ids(Stored(b)) && id !in Ids(Stored(a)))
           && (id in diff.missingFromRemote <==> id in Ids(Stored(a)) && id !in Ids(Stored(b)))
           && (id in diff.digestMismatches <==>
               exists x, y :: x in Stored(a) && y in Stored(b) && x.id == id && y.id == id && x != y)
  {
    hide Describes, Stored, ById, IdsUnique, Ids, Ascending, TextLess;
    InventoryListsStored(mine, realmA, a);
    InventoryListsStored(theirs, realmB, b);
    var l, r := ById(mine.records), ById(theirs.records);
    forall id ensures id in l.Keys * r.Keys && l[id].digest != r[id].digest <==>
      exists x, y :: x in Stored(a) && y in Stored(b) && x.id == id && y.id == id && x != y
    {
      MismatchIs(Stored(a), Stored(b), l, r, id);
    }
  }

  lemma MismatchIs(a: set<Event>, b: set<Event>, l: map<string, InventoryRecord>, r: map<string, InventoryRecord>,
                   id: string)
    requires IdsUnique(a) && l.Keys == Ids(a) && forall e | e in a :: l[e.id].digest == CoreDigest(e)
    requires IdsUnique(b) && r.Keys == Ids(b) && forall e | e in b :: r[e.id].digest == CoreDigest(e)
    ensures id in l.Keys * r.Keys && l[id].digest != r[id].digest <==>
            exists x, y :: x in a && y in b && x.id == id && y.id == id && x != y
  {
    if id in l.Keys * r.Keys {
      var x :| x in a && x.id == id;
      var y :| y in b && y.id == id;
    }
  }
}
