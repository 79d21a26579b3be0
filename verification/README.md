# A verified model of the offline federation, handoff, wake and bridge protocols

This project models, in Dafny 4.11, the parts of the repository in which agents on different machines share
work through write-once files, a journal and a terminal, and proves what those parts promise. `dafny verify
dfyconfig.toml` checks all of it.

**Offline federation** (`src/eml_pmw/federation`). An event is published as four files, none of which is
ever replaced. `submit_protocol.dfy` gives the atomic steps of one submission, `submit_runs.dfy` every
interleaving of any number of them with crashes anywhere, `sequence_orphans.dfy` what a lost race or a crash
leaves without an index record, and `federation_store.dfy` the store object whose methods end exactly where
those steps end; `submission_results.dfy` says what a submission and an import run alone come to. On top of
it stand the causal graph (`causal.dfy`: depth-first cycle search, worklist ancestor search, heads,
relations), imports (`importer.dfy`) and imports at the same time (`concurrent_imports.dfy`), inventories
and their diff (`inventory.dfy`, `inventory_results.dfy`), the convergence of two replicas
(`convergence.dfy`, after crashes too), conflict detection, reconciliation and resolution (`reconcile.dfy`,
`resolutions.dfy`), the derived view (`projector.dfy`) and its comparison (`comparison.dfy`,
`comparison_results.dfy`). What reconciling decides and what the view shows is told over the events alone in
`reconcile_results.dfy` and `projection_results.dfy`.

**Handoffs and wakes** (`src/eml_handoff/store.py`, `src/eml_wake`). The same primitive under several racing
actors: `handoff_protocol.dfy` and `wake_protocol.dfy` give the steps, `handoff_runs.dfy` and
`wake_runs.dfy` every interleaving with crashes, `wake_sequential.dfy` what one watchdog at a time on a wake
adds and exactly when two at once lose it, `handoff_results.dfy` and `wake_results.dfy` what each call run
alone comes to, outcome by outcome, `handoff_store.dfy` and `wake_watchdog.dfy` the objects on mutable
state.

**Bridge delivery** (`src/eml_bridge`). `bridge_models.dfy` holds the sixteen delivery states and their
transitions; `delivery.dfy` the course of effects one delivery takes against an arbitrary runtime;
`delivery_runs.dfy` deliveries in sequence, each cut short by a crash between any two effects;
`delivery_results.dfy` everything an uncut delivery leaves, reply text and confidence included;
`bridge_engine.dfy` the journal and the engine on mutable state. `messages.dfy` follows chains of replies,
`framing.dfy` says what a prompt frame tells its reader. `terminal_text.dfy`, `rightmost_search.dfy` and
`capture.dfy` model reading a reply back from the terminal, down to the backtracking of the hard-wrap
pattern; `hard_wrap.dfy` what a pane of given width and indentation shows of a text, and
`wrapped_capture.dfy`, `pane_capture.dfy` and `uneven_pane.dfy` what is then read back.

## How it is modelled

- `publish_bytes_no_replace` is one atomic put-if-absent step; a crash may come before or after it. A
  crashed call simply takes no further step, so every prefix of every call is covered.
- SHA-256 and the digests built on it are injective: a digest is a constructor applied to what it digests.
  File names that are hashes of keys are therefore the keys themselves.
- What lies outside is an answer handed to a step: clock, payload file, provider, notifier, authority
  verifier, agent runtime, and structured replies that others write to the journal meanwhile. Every theorem
  is for all answers.
- Strings are canonical already; JSON values are what the strict parser yields, without floats.
- Fields nothing branches on are gathered in one opaque `claims` field; time stamps are left out, since no
  decision reads them.
- An object whose methods change its fields is a class; its methods are proved to end in the state and
  result of the step-by-step specification, about which the theorems are stated.

## Where the code says less than one might expect

- An index record implies a sequence record but not the reverse. Once no call runs, a slot's event lacks its
  index record exactly when a rival holds its id or a call crashed between the two publications and none got
  past them (`SequenceOrphans.OrphanedIff`). Any two admitted events of one id, with different slots and
  payload references, can race to that end (`SequenceOrphans.LostRaceLeavesOrphan`), and a rival in the slot
  then blocks a retry (`SubmitRuns.SucceedsIffUnrivalled`).
- Only `import_event` checks the graph, and it checks before it writes, without a lock. In sequence that
  keeps the graph acyclic (`Importer.ImportedGraphStaysSound`); two imports at the same time can leave a
  cycle, and `ConcurrentImports.RaceCanLeaveCycleIff` says exactly which. Importing the same event again as
  the same observer raises an observation collision exactly when the first import reported "imported"
  (`Importer.RepeatRaisesIffImported`).
- `_conflict_record` looks digests up by event id, so it is symmetric exactly for distinct ids or equal
  events (`Reconcile.RecordSymmetricIff`).
- Two watchdogs that overlap on a pending wake can leave both an acknowledgement and a failure exactly when
  one of their policies allows the request (`WakeSequential.OverlapLeavesBothIff`), and every request can
  meet two (`WakeSequential.OverlapHappens`); without overlap on that wake they cannot
  (`WakeSequential.AckExcludesFailure`).
- The handoff store reads failure records, and `status` can answer "failed", but nothing in it ever writes
  one (`HandoffRuns.StatusNeverRegresses`).
- A payload can still be submitted twice exactly when an attempt was cut between recording a submission and
  recording its route (`DeliveryRuns.RepeatPossibleIffCut`), which can happen to every reply within its budgets
  (`DeliveryRuns.ReplyCanBeRepeated`).
- The docstring at src/eml_bridge/capture.py:15 promises the rightmost span. Among wrapped occurrences that
  holds exactly for tokens without a border (`RightmostSearch.WrappedRightmostIff`), as the close tag and
  the bridge's markers are; a whole occurrence wins over a wrapped one further right
  (`RightmostSearch.WholeRightmostIff`). On hard-wrapped screens a reply comes back under exactly the
  conditions of `WrappedCapture.WrappedReplyComesBackIff`. A frame's echo is never taken for a reply by a
  pane that indents first rows and continuations alike, of whatever width
  (`PaneCapture.PaneEchoIsNotAReply`); a pane that indents first rows further can make it one
  (`UnevenPane.UnevenPaneEchoIsAReply`), and `UnevenPane.EchoSafeIff` says exactly which panes cannot.
- The comment at src/eml_bridge/capture.py:95-96 says a marker without a visible frame is downgraded. The
  branch above it already accepts such a marker as turn-fenced (`Capture.FenceNeedsNoFrame`); the model
  follows the code.

## Model

| member | source | states |
|---|---|---|
| `SubmitProtocol.StepKeepsInv` | src/eml_pmw/federation/store.py:318-467 | One step of any submission, from any state the files can be in, changes no published file, keeps index, event, sequence and payload files consistent, and secures what the call needs for its next step |
| `SubmitProtocol.PublishExtends` | src/eml_wake/filesystem.py:22-45 | Publication is put-if-absent: nothing already published is replaced |
| `Events.Objection` | src/eml_pmw/federation/store.py:221-248 | A receiver objects to nothing exactly when size, text, hash, media suffix, kind and authority are all as its configuration asks |
| `SubmitRuns.IndexAlwaysBacked` | src/eml_pmw/federation/store.py:399-467 | After every interleaving of submissions and crashes, each indexed id has its event file with the indexed digest, a payload file with the announced hash, a sequence record naming that same event, and reads back with `get_event` |
| `SubmitRuns.SlotsNeverShared` | src/eml_pmw/federation/store.py:411-433 | No two indexed ids ever share a replica, generation and sequence number |
| `SubmitRuns.PublishedForever` | src/eml_pmw/federation/store.py:318-467 | Every published file keeps its content through whatever follows |
| `SubmitRuns.CreatedOnce` | src/eml_pmw/federation/store.py:399-467 | At most one submission of an event id ever returns "created" |
| `SubmitRuns.ReturnedIsRetrievable` | src/eml_pmw/federation/store.py:469-490 | Whatever "created" or "duplicate" announced is retrievable, event and payload bytes, then and ever after |
| `SubmitRuns.SucceedsIffUnrivalled` | src/eml_pmw/federation/store.py:318-467 | An admitted submission running alone succeeds if and only if nothing foreign sits at its id, slot, payload path or event path; it is "created" exactly when its event file was not there yet |
| `SubmitRuns.RetryAfterCrashSucceeds` | src/eml_pmw/federation/store.py:318-467 | Wherever earlier calls crashed, submitting again succeeds if no rival was ever submitted |
| `SubmissionResults.SubmitIs` | src/eml_pmw/federation/store.py:221-467 | All of a submission run alone, told by what is in its way, in the order it is asked: blank delivery, the receiver's refusals, the same event indexed, another under its id, in its slot, at its payload path or its event path; each with its code and just the quarantine or duplicate record it leaves, and otherwise the four files of the event |
| `SubmissionResults.LostRaceIs` | src/eml_pmw/federation/store.py:361-454 | A submission about to publish what a rival published meanwhile: other bytes or another event file fail it without a trace, a rival record of slot or id is quarantined with its owner, each with its code |
| `SubmissionResults.SamePublishedIs` | src/eml_pmw/federation/store.py:361-454 | Where the rival published the very same file, the submission goes on as if it had come later |
| `SequenceOrphans.OrphanedIff` | src/eml_pmw/federation/store.py:411-455 | After any interleaving and any crashes, once no call runs: a slot's event lacks its own index record if and only if a rival event holds its id, or a call crashed between publishing the sequence and the index record and no call got past that point |
| `SequenceOrphans.LostRaceLeavesOrphan` | src/eml_pmw/federation/store.py:411-455 | Any two admitted events of one id with different slots and payload references can race so that, with every call returned, one is indexed and the other leaves a sequence record without an index record |
| `FederationStores.FederationStore.SubmitEvent` | src/eml_pmw/federation/store.py:318-467 | `submit` on mutable state ends in exactly the files and outcome of its steps run to the end, and keeps every published file |
| `FederationStores.FederationStore.RecordDuplicate` | src/eml_pmw/federation/store.py:295-316 | A duplicate record is written once; a different one for the same delivery is a collision |
| `FederationStores.FederationStore.Quarantine` | src/eml_pmw/federation/store.py:271-293 | The quarantine record is kept, everything else stays, and the call fails with its code |
| `FederationStores.FederationStore.ListEvents` | src/eml_pmw/federation/store.py:492-508 | `events()` is the one ascending listing of the stored events, whatever order the directory is read in |
| `FederationStores.StoredIsWhatGetEventReads` | src/eml_pmw/federation/store.py:469-490 | The stored events are exactly what `get_event` returns for the indexed ids, and every other id is not found; ids and slots are unique among them |
| `FederationStores.EventOrderTotal` | src/eml_pmw/federation/store.py:497-508 | The sort key of `events()` is a strict total order on events with distinct ids |
| `FederationStores.ListingGoesBy` | src/eml_pmw/federation/store.py:497-508 | Events are listed by realm, then replica, then generation; those of one log in the order of their sequence numbers |
| `Ordering.TextLessIs` | src/eml_pmw/federation/store.py:497-508 | The order of text behind every sort: behind what two texts begin with, the lesser one ends or goes on with the lesser character |
| `Ordering.ListingUnique` | src/eml_pmw/federation/store.py:497-508 | Under a strict total order a set has only one ascending listing, so sorted results do not depend on enumeration order |
| `Causal.EventMap` | src/eml_pmw/federation/causal.py:18-25 | Succeeds exactly when ids are unique, and then maps each id to its parents |
| `Causal.CycleFinder.Visit` | src/eml_pmw/federation/causal.py:33-49 | One visit of the depth-first search: a closed walk along parent edges, or a state with more ids finished, each after its parents; terminates by the unvisited ids |
| `Causal.Cycle` | src/eml_pmw/federation/causal.py:28-55 | Empty exactly when the known parent edges are acyclic; otherwise a closed walk, first equal to last, each step a parent edge |
| `Causal.ListedGraphIsAcyclic` | src/eml_pmw/federation/causal.py:46-49 | A graph whose ids can be listed parents first has no cycle |
| `Causal.SlotCollision` | src/eml_pmw/federation/causal.py:65-75 | Found exactly when two events of different ids share a replica slot |
| `Causal.Missing` | src/eml_pmw/federation/causal.py:81-88 | The parents named by any event of the whole list and known to none |
| `Causal.ValidateGraph` | src/eml_pmw/federation/causal.py:58-93 | Reports the first of id collision, slot collision, cycle, missing parents that holds of the events, each exactly when it does, whatever their order |
| `Causal.DeriveHeads` | src/eml_pmw/federation/causal.py:96-102 | The sorted ids nobody names as a parent, or the graph's code |
| `Causal.HeadsAntichain` | src/eml_pmw/federation/causal.py:96-102 | No head is an ancestor of another event, so of no other head |
| `Causal.EveryEventUnderAHead` | src/eml_pmw/federation/causal.py:96-102 | On a valid graph every event is a head or an ancestor of one |
| `Causal.HeadsNonEmpty` | src/eml_pmw/federation/causal.py:96-102 | A non-empty valid graph has a head |
| `Causal.IsAncestor` | src/eml_pmw/federation/causal.py:105-118 | The worklist search terminates and decides exactly the transitive closure of the parent edges |
| `Causal.ClassifyRelation` | src/eml_pmw/federation/causal.py:121-137 | Exactly one of same, before, after and concurrent, by the transitive closure; errors for invalid graphs and unknown ids |
| `Causal.ClassifiedConverse` | src/eml_pmw/federation/causal.py:121-137 | Swapping the arguments swaps before and after and changes nothing else |
| `Causal.UnknownIsNotFound` | src/eml_pmw/federation/causal.py:121-137 | An id is reported as not found exactly on a valid graph that lacks it |
| `Causal.BeforeIsAStrictOrder` | src/eml_pmw/federation/causal.py:121-137 | On valid graphs "before" is the ancestor relation, transitive, and "same" is reflexive |
| `Causal.AncestorIrreflexive` | src/eml_pmw/federation/causal.py:28-55 | In an acyclic graph nothing is its own ancestor |
| `Importer.ImportEvent` | src/eml_pmw/federation/importer.py:68-127 | `import_event` on mutable state: hash check, graph check, quarantine, advertised parents, submission, observation, in that order, ending in exactly the specified state and result |
| `Importer.ImportEffect` | src/eml_pmw/federation/importer.py:87-127 | From any consistent store, an import that raises leaves the stored events alone and one that succeeds adds exactly its event; ids and slots stay unique and the graph acyclic |
| `Importer.CutImportEffect` | src/eml_pmw/federation/importer.py:87-127 | The same for an import cut short by a crash anywhere: at most its own event is added |
| `Importer.ImportedGraphStaysSound` | src/eml_pmw/federation/importer.py:87-94 | Every sequential run of imports from an empty store, crashes and parents arriving late included, keeps ids and replica slots unique and the graph acyclic |
| `Importer.RaisingImportAddsNothing` | src/eml_pmw/federation/importer.py:95-127 | After any such run an import that raises leaves `events()` unchanged; one that returns adds its event |
| `SubmissionResults.ImportIs` | src/eml_pmw/federation/importer.py:68-127 | All of an import run alone: hash mismatch, then duplicate id, slot or cycle with its quarantine record, then parents neither stored nor advertised, then the submission's own failure; otherwise the observation, with the status told by the submission and the missing parents, unless this observer has another on record |
| `Importer.ReimportIs` | src/eml_pmw/federation/importer.py:100-126 | Importing a stored event again collides exactly when this observer has something else on record about it; otherwise it succeeds with the status a duplicate has |
| `Importer.RepeatRaisesIffImported` | src/eml_pmw/federation/importer.py:100-126 | Repeating an import straight after it succeeded raises an observation collision if and only if the first reported "imported", and succeeds if and only if the first reported a duplicate or missing parents |
| `ConcurrentImports.CycleIffBothPassed` | src/eml_pmw/federation/importer.py:87-127 | Two events imported at the same time, by any number of callers, with crashes: the stored graph becomes cyclic if and only if both were stored and all events together are cyclic, and then every import of one had passed its graph check before the other was indexed |
| `ConcurrentImports.RaceCanLeaveCycleIff` | src/eml_pmw/federation/importer.py:87-127 | From given files some such race leaves a cycle if and only if each passes its check alone, is admitted and without rival, their payload files do not clash, and together with what is stored they close a cycle |
| `ConcurrentImports.MutualParentsCanRace` | src/eml_pmw/federation/importer.py:87-127 | Any two admitted events that name each other as parents, of different id, slot and payload file, can be raced so into an empty store |
| `Inventories.BuildInventory` | src/eml_pmw/federation/inventory.py:161-220 | One record per stored event in listing order, one range per log covering exactly its events, and the heads |
| `InventoryResults.InventoryMeans` | src/eml_pmw/federation/inventory.py:161-220 | Told over the stored events alone: each record holds its event's id, digest, slot, parents, hash, payload length and class, and is available; the heads are the ids nobody names as a parent, in order |
| `InventoryResults.RangesMean` | src/eml_pmw/federation/inventory.py:189-200 | One range for every replica and generation that has events and no other, in order, with the first and last position and the number of these events |
| `Inventories.Summarize` | src/eml_pmw/federation/inventory.py:189-198 | Minimum, maximum and count of one log |
| `Inventories.SummaryCovers` | src/eml_pmw/federation/inventory.py:189-198 | A range's bounds and count are those of the stored events of its log |
| `Inventories.DiffInventories` | src/eml_pmw/federation/inventory.py:223-240 | The sorted ids only the other side has, both ways, and the shared ids whose digests differ |
| `InventoryResults.DiffMeans` | src/eml_pmw/federation/inventory.py:223-240 | The diff of two inventories tells, in order, the ids only the other store has, those only this one has, and those under which they store different events |
| `Convergence.ReplicasAreWhatImportsBuild` | src/eml_pmw/federation/importer.py:68-127 | Any sequential run of imports, crashes and failures included, leaves no event, sequence or payload file but those of stored events and of a set `left` that has every event whose import was cut and every one clashing with these in id or slot; `left` is empty for crash-free runs |
| `Convergence.ImportsKeepReplica` | src/eml_pmw/federation/importer.py:68-127 | The same from any such store: an exchange may break off anywhere and be taken up again |
| `Convergence.OfferIsImported` | src/eml_pmw/federation/importer.py:87-127 | An admitted event that is sound together with what is stored and left over is imported without error, reported as pending, as a duplicate where its event file was there already, or else as imported |
| `Convergence.BatchIsImported` | src/eml_pmw/federation/importer.py:87-127 | A whole batch of such events is imported, in any order, when missing parents are advertised |
| `Convergence.NoMismatchMeansAgreement` | src/eml_pmw/federation/inventory.py:223-240 | An inventory diff without mismatches means the two stores agree on every event they share |
| `Convergence.MissingIdsAre` | src/eml_pmw/federation/inventory.py:223-240 | What a diff reports missing are exactly the ids only the other store holds |
| `Convergence.ReplicasConverge` | src/eml_pmw/federation/inventory.py:161-240 | Two replicas, whatever crashed imports left behind in them, that import what their diffs report missing, in any order, succeed every time and end with equal `events()` and empty diffs both ways, if stored and left-over events together are sound and no payload files clash |
| `Convergence.EqualStoresDiffEmpty` | src/eml_pmw/federation/inventory.py:223-240 | Stores with the same events have empty diffs both ways |
| `Convergence.ConvergedViewsEqual` | src/eml_pmw/federation/projector.py:75-178 | With equal conflict and resolution records their projections are then equal, whatever the import orders |
| `Reconcile.DetectConflict` | src/eml_pmw/federation/reconcile.py:62-129 | Decides as specified: content collision, incomplete history, causal order, subject, authority, then contents |
| `Reconcile.DetectionSymmetric` | src/eml_pmw/federation/reconcile.py:62-129 | For distinct ids and any known events, asking about either event first gives the same status, class, members and subject, or the same error |
| `Reconcile.RecordSymmetricIff` | src/eml_pmw/federation/reconcile.py:132-157 | Both orders build the identical conflict record and id if and only if the ids differ or the events are the same one |
| `Reconcile.ConflictIndependentOfOrder` | src/eml_pmw/federation/reconcile.py:62-157 | Detection and record together do not depend on the order of two distinct events |
| `Reconcile.PyEqualSymmetric` | src/eml_pmw/federation/reconcile.py:122-126 | Equality of parsed payload values, truth values equal to 0 and 1, is symmetric |
| `Reconcile.Gather` | src/eml_pmw/federation/reconcile.py:179-193 | Collects exactly the stored events that conflict, in listing order, or fails on a payload that is no object |
| `ReconcileResults.ReconcileMeans` | src/eml_pmw/federation/reconcile.py:16-208 | On a valid history, over the events alone: it fails exactly if a payload that has to be compared is no object; it adopts exactly if nothing holds a conflict; otherwise it records the first event that holds a conflict of authority, failing that of identity, then state transition, then field value, each class by its condition on the two events, and the record is of that class, subject and pair, with both digests |
| `ReconcileResults.IncompleteHistoryConflicts` | src/eml_pmw/federation/reconcile.py:88-93 | On a history that is no valid graph the first other stored event conflicts, as incomplete history, and nothing else is asked |
| `ReconcileResults.AnalysisMeans` | src/eml_pmw/federation/reconcile.py:62-129 | An analysis on a valid history tells conflict, order or parallel branch, subject and members as the two events demand |
| `ReconcileResults.WithoutHistory` | src/eml_pmw/federation/reconcile.py:62-129 | Without a history given: a content collision for two events of one id, incomplete history for a foreign parent, order for a parent among the two; otherwise the answer of any valid history that leaves the two unordered |
| `ReconcileResults.AuthorityMeans` | src/eml_pmw/federation/reconcile.py:166-178 | Reconciling goes on exactly if the kind needs no authority, or a verifier answering just this question for this event vouches for it; otherwise it is withheld and no record is written |
| `ReconcileResults.PyEqualIs` | src/eml_pmw/federation/reconcile.py:122-126 | Two parsed values are equal exactly if they are the same once truth values are read as 0 and 1, at any depth |
| `Reconcile.Earliest` | src/eml_pmw/federation/reconcile.py:197-199 | The loop finds the first of the gravest conflicts |
| `Reconcile.RecordConflict` | src/eml_pmw/federation/store.py:161-168 | A conflict record is written once; writing it again is no error; nothing else changes |
| `Reconcile.ReconcileEvent` | src/eml_pmw/federation/reconcile.py:160-208 | Adopts exactly when authority permits and no stored event conflicts; otherwise records the earliest conflict of highest priority and nothing else; events and files stay as they are |
| `Reconcile.MutualConflictHasOneRecord` | src/eml_pmw/federation/reconcile.py:179-208 | Two events that conflict only with one another record one and the same conflict, whichever is reconciled |
| `Resolutions.SelectionIsWarranted` | src/eml_pmw/federation/reconcile.py:211-246 | A member is selected if and only if a verified authority scoped to this conflict, in a resolution event about it whose parents are exactly the members, carries the one payload that names the conflict, all members in some order, and that member |
| `Resolutions.RefusalMeans` | src/eml_pmw/federation/reconcile.py:211-246 | Each refusal arises exactly where its condition holds: wrong kind, subject or conflict, an answer to another question, no vouching authority, an illegible or ill-formed payload, incomplete members, a selection that is no member, other parents |
| `Resolutions.RecordResolution` | src/eml_pmw/federation/store.py:179-192 | A resolution record of a known conflict is written once; another one under its key is a collision; an unknown conflict is not found |
| `Resolutions.ResolveConflict` | src/eml_pmw/federation/reconcile.py:211-269 | Nothing changes when a check fails; on success the resolution event is stored and its record kept under the conflict's id and its own, with its digest, authority, the verifier's evidence, all members and the selected one; published files and earlier records stay |
| `Resolutions.ResolutionTakesEffect` | src/eml_pmw/federation/projector.py:84-148 | From a resolution on, in every projection of this and any later store: no subject lists its conflict as unresolved; of a field for which a member of the conflict stands, exactly the candidates some resolution selected stay active; a candidate is shown if and only if it is selected and every other selected one is among its ancestors |
| `Projector.Choose` | src/eml_pmw/federation/projector.py:128-139 | The candidate that has every other active one among its ancestors, if there is one |
| `Projector.DominatorUnique` | src/eml_pmw/federation/projector.py:131-139 | In an acyclic store there is at most one such candidate, so scan order does not matter |
| `Projector.Collect` | src/eml_pmw/federation/projector.py:88-108 | Groups the candidates of each field in listing order, after withdrawals and corrections, or fails with the code of the first refused payload |
| `Projector.ProjectionValue` | src/eml_pmw/federation/projector.py:75-178 | Fails exactly when a considered payload is refused, with the code of the first such; otherwise shows the derived view of the stored events and records |
| `ProjectionResults.ShownPrevails` | src/eml_pmw/federation/projector.py:75-148 | Told over events and resolutions alone: a field shows exactly the value of the event that prevails, and shows something exactly if one does. An event counts for a field if it is stored, resolves and withdraws nothing, is neither withdrawn nor corrected, sets just that field, and was not passed over by a resolution; it prevails if every other that counts came before it |
| `ProjectionResults.UnresolvedIsUndecided` | src/eml_pmw/federation/projector.py:128-148 | An id is listed unresolved exactly if its event counts for a field in which nothing prevails |
| `ProjectionResults.ViewIsSet` | src/eml_pmw/federation/projector.py:79-108 | Whatever is shown or listed unresolved was set by a stored event nobody withdraws or corrects, whose payload is just that field and value |
| `ProjectionResults.NothingSetIsLost` | src/eml_pmw/federation/projector.py:79-148 | Conversely every event that sets a field is shown, came before the one shown, is listed unresolved, or was passed over by a resolution |
| `ProjectionResults.FrameOfView` | src/eml_pmw/federation/projector.py:110-178 | The rest of the view: a record per event in listing order, the heads, a subject for each event that resolves nothing, its open conflicts and resolution records |
| `ProjectionResults.RefusalMeans` | src/eml_pmw/federation/projector.py:38-108 | It is refused exactly if the payload of an event that still stands does not parse or names its field badly, with the code of the first such |
| `Projector.ShownExactlyWhenDominated` | src/eml_pmw/federation/projector.py:123-148 | A field shows a value exactly when an active candidate dominates all others; that one is unique and shown; otherwise every active candidate is listed as unresolved |
| `Projector.ResolutionDropsUnselected` | src/eml_pmw/federation/projector.py:124-127 | Once a candidate was a member of a resolved conflict, exactly the selected candidates stay active, later arrivals included |
| `Projector.ProjectionDetermined` | src/eml_pmw/federation/projector.py:75-178 | The projection is a function of the stored events and the records |
| `Comparison.Compare` | src/eml_pmw/federation/projector.py:306-341 | Appends to the shared list exactly the differences between two nested values, in order |
| `Comparison.CompareProjection` | src/eml_pmw/federation/projector.py:344-354 | "expected_by_mapping" exactly for type-exact equality, "unmapped" exactly when the actual value strictly extends the expected one at any depth, "contradiction" otherwise |
| `Comparison.DiffsDecide` | src/eml_pmw/federation/projector.py:306-341 | No difference means equal; no contradiction means covered |
| `ComparisonResults.DiffsAre` | src/eml_pmw/federation/projector.py:306-341 | The differences reported are exactly those there are, at any depth: under a way down both values, a contradiction where they end in unlike values or the actual one lacks something, an extra where it has something more; each under the written form of that way |
| `ComparisonResults.DecimalReads` | src/eml_pmw/federation/projector.py:325-338 | Positions are written in decimal digits without leading zero and read back |
| `HandoffProtocol.StepKeepsInv` | src/eml_handoff/store.py:227-426 | One step of any submission, claim, materialization or receipt replaces nothing and keeps the chain of records consistent |
| `HandoffRuns.ReceiptStandsOnChain` | src/eml_handoff/store.py:335-413 | After every interleaving with crashes a receipt implies its materialization, that its claim, that its envelope and payload bytes of the announced hash and length; one receiver and one core digest throughout; a named response links back; the receiver fits its binding and target |
| `HandoffRuns.WrittenOnce` | src/eml_handoff/store.py:227-426 | Every file is written at most once and never changes |
| `HandoffRuns.OneCallWins` | src/eml_handoff/store.py:256-273 | Of all calls racing to create, claim, materialize or acknowledge one handoff at most one says it did |
| `HandoffRuns.SubmittedStays` | src/eml_handoff/store.py:181-273 | A submission that returned "created" or "duplicate" leaves exactly its core and its payload bytes, for ever |
| `HandoffRuns.OneReceiverThroughout` | src/eml_handoff/store.py:335-413 | Whoever claimed a handoff is who materializes and acknowledges it, for the same core digest |
| `HandoffRuns.ClaimsAreAuthorized` | src/eml_handoff/identity.py:28-90 | Whoever claimed was allowed to: an allowed authority, an instance where the binding names one, and for an exact instance or entity evidence a verifier confirmed |
| `HandoffRuns.StatusNeverRegresses` | src/eml_handoff/store.py:503-533 | A handoff's status only moves forward, and is never "failed" |
| `HandoffRuns.SucceedsIffUnrivalled` | src/eml_handoff/store.py:227-273 | Whatever crashed calls left behind, an admitted submission succeeds alone if and only if no other core holds its id and no other bytes its payload path; "created" exactly when no envelope was there |
| `HandoffResults.SubmitIs` | src/eml_handoff/store.py:181-273 | All of a submission run alone: the refusals in the order they are asked, then collision, integrity failure or duplicate where the envelope is, and otherwise payload and envelope as submitted |
| `HandoffResults.ClaimIs` | src/eml_handoff/store.py:293-333 | A claim run alone succeeds if and only if the envelope is there, no claim is, and receiver, realm, time and authority fit, each with its code in order; its record names the receiver and the digest, and nothing else changes |
| `HandoffResults.MaterializeIs` | src/eml_handoff/store.py:335-366 | A materialization run alone succeeds if and only if the envelope is there, the claim is there with this receiver, and none is there yet; its record carries the envelope's digest and payload hash |
| `HandoffResults.AcknowledgeIs` | src/eml_handoff/store.py:368-426 | A receipt run alone is committed if and only if the handoff was materialized by this receiver and not yet acknowledged, a named response exists and answers it, and the evidence fits; its record carries decision, response and citations as given |
| `HandoffResults.LostRaceIs` | src/eml_handoff/store.py:181-413 | A call that was about to publish when a rival did fails with its own code and leaves the rival alone; a submission that finds the envelope ends as if it had come later, one that finds other bytes at its payload path fails |
| `HandoffResults.StatusIs` | src/eml_handoff/store.py:503-533 | `status` tells the last record there is |
| `HandoffResults.HandoffGoesThrough` | src/eml_handoff/store.py:181-426 | Where id and payload path are free and nothing is refused, submitting, claiming, materializing and acknowledging in turn all succeed and end acknowledged |
| `HandoffRuns.CallKeepsInv` | src/eml_handoff/store.py:227-426 | Any call run alone to its end keeps what the files say |
| `HandoffStores.HandoffStore.SubmitEnvelope` | src/eml_handoff/store.py:227-273 | `submit` on mutable state ends in the files and outcome of its steps |
| `HandoffStores.HandoffStore.ClassifyExisting` | src/eml_handoff/store.py:181-225 | An existing envelope with another core is a quarantined collision, other payload bytes an integrity failure, else a duplicate |
| `HandoffStores.HandoffStore.ClaimHandoff` | src/eml_handoff/store.py:293-333 | `claim` on mutable state, authorization included, ends in the files and outcome of its steps |
| `HandoffStores.HandoffStore.MaterializeHandoff` | src/eml_handoff/store.py:335-366 | `materialize` likewise: claim, receiver, payload hash and length are checked first |
| `HandoffStores.HandoffStore.Preflight` | src/eml_handoff/store.py:415-426 | `preflight_receipt` and the response check refuse exactly as the steps do |
| `HandoffStores.HandoffStore.CommitReceipt` | src/eml_handoff/store.py:368-413 | `commit_receipt` on mutable state ends in the files and outcome of its steps |
| `HandoffStores.HandoffStore.Pending` | src/eml_handoff/store.py:490-501 | Lists exactly the handoffs addressed to the target whose status is "pending", in directory order |
| `WakeProtocol.StepKeepsInv` | src/eml_wake/watchdog.py:86-189 | One step of any submitter or watchdog replaces no file, touches no other wake's invocations, and keeps claims, invocations and acknowledgements consistent |
| `WakeProtocol.PolicyRefusal` | src/eml_wake/watchdog.py:57-76 | Refuses nothing exactly when kind, spawn permission, model, tools, mode, budget and timeout are all within policy |
| `WakeRuns.InvokedAtMostOnce` | src/eml_wake/watchdog.py:111-126 | Under every interleaving and crash the provider is invoked at most once per wake: after a claim, where policy allows it, with the payload the request announced |
| `WakeRuns.AckCarriesTheInvocation` | src/eml_wake/watchdog.py:128-175 | An acknowledgement implies a claim and carries the result of that one invocation, for the stored request |
| `WakeRuns.WrittenOnce` | src/eml_wake/store.py:73-155 | No request, claim, acknowledgement, failure or duplicate record is ever replaced |
| `WakeRuns.StatusIsFinal` | src/eml_wake/store.py:157-177 | A claimed or failed wake is never pending again; an acknowledged one stays acknowledged with the same record |
| `WakeSequential.AckExcludesFailure` | src/eml_wake/watchdog.py:86-189 | If no two watchdogs work on one wake at the same time, crashes included and whatever happens on other wakes, that wake never has both an acknowledgement and a failure, and no watchdog on it raises anything but "not found" |
| `WakeSequential.OverlapLeavesBothIff` | src/eml_wake/watchdog.py:86-189 | Where two watchdogs are before a pending wake at once, some continuation of these two leaves both records if and only if the policy of at least one of them allows the request |
| `WakeSequential.TwoWatchdogsCanLeaveBoth` | src/eml_wake/watchdog.py:86-189 | The same of every run from the start that brings two watchdogs before one pending wake |
| `WakeSequential.OverlapHappens` | src/eml_wake/watchdog.py:86-189 | Every request can be brought before two watchdogs at once, whatever their configurations |
| `WakeSequential.AllowedRequestCanEndBoth` | src/eml_wake/watchdog.py:86-189 | So for every request that some configuration allows, a run from an empty store leaves both records |
| `WakeWatchdogs.ProcessSettles` | src/eml_wake/watchdog.py:86-189 | Uninterrupted, a pending wake ends acknowledged or failed; every other wake and every wake already begun is left as it was |
| `WakeResults.ProcessIs` | src/eml_wake/watchdog.py:45-189 | All of an uninterrupted pass: a wake not pending is left alone and reported as it stands; a pending one is acknowledged if and only if policy allows it, it has not expired, its payload is read with the announced hash and is UTF-8, and the provider replies; otherwise the failure carries the code of the first obstacle; the provider is asked, with the payload, exactly where nothing refused the wake before |
| `WakeResults.PassReports` | src/eml_wake/watchdog.py:86-189 | What is reported agrees with what is on record |
| `WakeResults.OthersUntouched` | src/eml_wake/watchdog.py:86-189 | A pass touches nothing of any other wake |
| `WakeResults.SubmitIs` | src/eml_wake/store.py:73-101 | A request is created where there was none; the same core again is a duplicate, recorded once per delivery; another core is a collision |
| `WakeResults.LostRaceIs` | src/eml_wake/watchdog.py:45-189 | A call that was about to publish when a rival did leaves the rival alone: a watchdog that lost its claim says so and does nothing more, anything else fails |
| `WakeResults.StatusIs` | src/eml_wake/store.py:157-169 | `status` tells the last record there is, an acknowledgement before all |
| `WakeWatchdogs.WakeStore.SubmitRequest` | src/eml_wake/store.py:73-101 | `submit` on mutable state ends in the files and outcome of its steps |
| `WakeWatchdogs.WakeStore.PendingWakeIds` | src/eml_wake/store.py:171-177 | Lists exactly the wakes whose status is pending |
| `WakeWatchdogs.WakeWatchdog.Fail` | src/eml_wake/watchdog.py:45-55 | Records the failure and reports its code |
| `WakeWatchdogs.WakeWatchdog.ProcessWake` | src/eml_wake/watchdog.py:86-189 | `process` on mutable state ends in the files, invocations and outcome of its steps, and settles what was pending under the code of the first obstacle |
| `WakeWatchdogs.WakeWatchdog.RunOnce` | src/eml_wake/watchdog.py:191-192 | After one pass nothing is pending; the n-th outcome is that of the n-th pending wake, with its records; all others stand as they did |
| `Delivery.PromptsIff` | src/eml_bridge/core.py:403-532 | A fresh delivery prompts if and only if authority passes, the projection asks for it, the target is bound, live, the same and approachable, and no loop is suspected |
| `Delivery.SubmitsIff` | src/eml_bridge/core.py:499-546 | It is submitted exactly when it prompts and the runtime accepts; the prompt carries the message's frame and the route is recorded next |
| `Delivery.FreshSound` | src/eml_bridge/core.py:403-687 | Whatever the runtime answers, a fresh delivery takes only legal transitions and ends in a state a delivery rests in |
| `Delivery.PromptedEnds` | src/eml_bridge/core.py:508-687 | A prompted delivery ends well exactly when the agent takes the prompt, stirs unblocked, and a structured or readable reply follows; uncertain exactly when the submission was ambiguous, nothing stirred, or the wait broke off ambiguously without a reply |
| `DeliveryResults.DeliveryLeaves` | src/eml_bridge/core.py:403-687 | All that an uncut delivery leaves in the bridge, by the runtime's answers: the states passed, the prompt and its route, the state it ends in, and the reply and confidence recorded: the early structured reply, else what the screen at the turn's end reads, else the late structured one; a refused reading is kept |
| `DeliveryResults.ReplyIsRecordedIff` | src/eml_bridge/core.py:534-687 | End to end: a new message is prompted, the turn ends, the screen shows frame, reply and marker line; the stripped reply is recorded as turn-fenced if and only if it is not blank and lacks the close tag |
| `DeliveryResults.EnteredIff` | src/eml_bridge/journal.py:164-198 | After any run the journal accepts a message if and only if all it has seen under its id or its idempotency key is that very message |
| `DeliveryResults.MovesGoForward` | src/eml_bridge/models.py:34-79 | No transition goes back, and every state that can be left at all can fail |
| `DeliveryResults.ReachedFrom` | src/eml_bridge/models.py:34-79 | Each state other than failure is reached from exactly the states where it is due |
| `DeliveryRuns.PromptedAtMostOnce` | src/eml_bridge/core.py:403-532 | Over any sequence of deliveries with crashes between any two effects a message prompts at most once, with its own frame, never when board-only, refused, unavailable or suppressed |
| `DeliveryRuns.OnlyAuthorizedPrompts` | src/eml_bridge/core.py:288-532 | Whatever the journal, the runtime and the crash, one delivery prompts nobody but its own recipient, and only if it is a reply, or its lock stands and its thread is bound at that moment, or no lock is named nor required; off the board and with no loop suspected |
| `DeliveryRuns.RecordsAreLegal` | src/eml_bridge/journal.py:250-290 | Every history is a path through the transition graph from the journal on, self-steps only there |
| `DeliveryRuns.AcknowledgedInOrder` | src/eml_bridge/core.py:534-687 | "Acknowledged" comes last, straight after prompt submitted, activity observed, perhaps runtime settled, and reply captured; with structured or turn-fenced confidence unless heuristics are allowed |
| `DeliveryRuns.UncutDeliveryRests` | src/eml_bridge/core.py:403-687 | A delivery not yet beyond the journal, left alone, rests in an outcome state |
| `DeliveryRuns.NothingIsReplayed` | src/eml_bridge/core.py:409-411 | Delivering again what got beyond the journal does nothing at all |
| `DeliveryRuns.NoPayloadSubmittedTwice` | src/eml_bridge/core.py:257-270 | If no crash falls between recording a submission and recording its route, no sender, recipient, thread and payload hash is submitted twice |
| `DeliveryRuns.RepeatPossibleIffCut` | src/eml_bridge/core.py:534-546 | After any run that recorded its routes and one more attempt, a second submission on that attempt's route is still possible, without further cuts, if and only if the attempt was cut between recording its submission and recording its route |
| `DeliveryRuns.CutHappens` | src/eml_bridge/core.py:534-546 | With its recipient bound and live, every reply within its budgets can be cut just there |
| `DeliveryRuns.ReplyCanBeRepeated` | src/eml_bridge/core.py:534-546 | So for every such reply some run from an empty journal shows its route submitted twice |
| `BridgeEngines.Journal.Enter` | src/eml_bridge/journal.py:164-198 | A message id or idempotency key seen before is accepted only with the very same message |
| `BridgeEngines.Journal.TransitionDelivery` | src/eml_bridge/journal.py:250-290 | Accepts exactly the allowed transitions and self-steps; appends to the history, keeps earlier confidence and reply; otherwise changes nothing |
| `BridgeEngines.BridgeEngine.ObservePromptEffect` | src/eml_bridge/core.py:277-286 | The first observation that shows the agent stirred, an error, or nothing by the deadline |
| `BridgeEngines.BridgeEngine.Complete` | src/eml_bridge/core.py:226-255 | Reply captured, then acknowledged if required |
| `BridgeEngines.BridgeEngine.DeliverMessage` | src/eml_bridge/core.py:403-687 | `deliver` on mutable state, no transition ever illegal, ends in exactly the journal and prompts of its course, and for a new message in those of its account: states, end, reply, confidence, prompt, route |
| `Framing.FrameTellsMessage` | src/eml_bridge/framing.py:21-44 | A prompt frame can have been made of one message only: id, thread, correlation, sender, recipient, intent, marker and every character of the text can be told from it, even where the text imitates the frame |
| `Framing.HintNamesJournal` | src/eml_bridge/framing.py:4-18 | The suggested command names the message and its recipient, and the journal, quoted and ahead of `reply`, exactly if there is one |
| `Messages.RepliesRunOut` | src/eml_bridge/message.py:143-165 | The k-th reply has spent its budget exactly when k has reached the smaller of the remaining hop and auto-reply budgets, and is then never prompted |
| `Messages.TraceGrowsByHop` | src/eml_bridge/message.py:143-165 | Down any chain of replies the route trace is the first message's followed by the senders of the replies, in order |
| `Messages.AnswerComesBack` | src/eml_bridge/message.py:86-117 | With a marker made by `new_message` any reply is read back exactly if and only if it is not blank and lacks the close tag |
| `Messages.AnswerComesBackThroughPane` | src/eml_bridge/message.py:86-117 | The same through a pane that wraps everything shown, frame, reply and marker: what it shows of the reply is read back |
| `TerminalText.FindWrapped` | src/eml_bridge/capture.py:14-29 | The contiguous search and the scan over non-overlapping matches compute the specified span |
| `TerminalText.FindIs` | src/eml_bridge/capture.py:8-29 | A token is found exactly when the text spells it somewhere with at most one line break between two characters; what is found spells it; a contiguous occurrence is found at its rightmost place |
| `TerminalText.LastIsNotAlwaysRightmost` | src/eml_bridge/capture.py:25-29 | The last non-overlapping match need not be the rightmost spelling: an input |
| `RightmostSearch.WrappedRightmostIff` | src/eml_bridge/capture.py:14-29 | For any token without blank or line break: over all texts that do not hold it whole the search is rightmost, as its documentation says, if and only if no proper end of the token is also its beginning |
| `RightmostSearch.BorderedIsMissed` | src/eml_bridge/capture.py:25-29 | A token with such a border, spelled over itself with a line break between all characters, is not found at its rightmost place |
| `RightmostSearch.WholeRightmostIff` | src/eml_bridge/capture.py:22-24 | Where the token occurs whole the last whole occurrence is found, and for a solid token without border it is rightmost if and only if the text behind it spells no further one |
| `RightmostSearch.WholeHidesWrapped` | src/eml_bridge/capture.py:22-24 | A whole occurrence hides a wrapped one further right even for a token without border: an input |
| `RightmostSearch.FindTakes` | src/eml_bridge/capture.py:14-29 | For a solid token without border the search finds exactly the last whole occurrence if there is one, and otherwise the rightmost spelling |
| `RightmostSearch.PlaceFoundIff` | src/eml_bridge/capture.py:14-29 | Of the places where such a token is spelled, a given one is found if and only if, being whole, no whole one follows, or, being wrapped, no whole one stands anywhere and no wrapped one follows |
| `WrappedCapture.CloseTagIsUnbordered` | src/eml_bridge/framing.py:43-43 | The close tag has no border, so a search for it is rightmost wherever it occurs only wrapped |
| `WrappedCapture.BridgeMarkersArePlain` | src/eml_bridge/message.py:96-96 | Markers made by `new_message`, with ids and suffixes in lower case, are visible throughout, without border and without bracket |
| `TerminalText.StripIs` | src/eml_bridge/capture.py:112-114 | Stripping removes exactly the surrounding white space |
| `Capture.TerminalDelta` | src/eml_bridge/capture.py:32-58 | The overlap and common-prefix loops compute the specified delta |
| `Capture.DeltaIs` | src/eml_bridge/capture.py:32-58 | The delta is how the new screen ends, exactly the text appended to an old screen, and after scrolling what follows the widest overlap |
| `Capture.DeltaModeIs` | src/eml_bridge/capture.py:32-50 | A delta counts as without baseline, kept or scrolled exactly if the old screen is empty, is how the new one begins, or overlaps it by 32 to 32768 characters |
| `Capture.RedrawIs` | src/eml_bridge/capture.py:49-58 | A redraw keeps the longest common beginning if that has 64 characters or more; otherwise the whole screen counts |
| `Capture.CaptureReplyFrom` | src/eml_bridge/capture.py:61-128 | Takes each branch of `capture_reply` as specified |
| `Capture.GuessIs` | src/eml_bridge/capture.py:79-128 | Fenced, heuristic and empty results arise exactly in their cases: text before a marker behind the frame, else before any marker unless its last 2000 characters hold the frame, else what is visible behind the tag |
| `Capture.ReplyComesBackIff` | src/eml_bridge/capture.py:61-128 | On an unwrapped screen of before, frame, reply and marker line, for any marker without the close tag and no trailing newline, the result is turn-fenced with exactly the stripped reply if and only if the reply is not blank and lacks the close tag, whatever the message itself contains |
| `Capture.EchoIsNotAReply` | src/eml_bridge/framing.py:21-44 | The unwrapped echo of the frame alone is never taken for a fenced reply, even if the message text contains the close tag or the marker |
| `Capture.FenceNeedsNoFrame` | src/eml_bridge/capture.py:79-109 | Without a tag in sight, whatever precedes a found marker visibly is turn-fenced, so the branch that downgrades it is never reached there |
| `WrappedCapture.FrameFoundIff` | src/eml_bridge/capture.py:75-77 | On a hard-wrapped screen the capture goes on with exactly what follows the frame's own tag if and only if no whole tag follows (that tag being whole), or no whole tag stands anywhere and no wrapped one follows (that tag being wrapped) |
| `WrappedCapture.MarkerFoundIff` | src/eml_bridge/capture.py:80-80 | A last marker, whole or wrapped, is found if and only if it is whole or no whole one stands before it |
| `WrappedCapture.WrappedReplyComesBackIff` | src/eml_bridge/capture.py:61-128 | With the frame's tag and the last marker each wrapped or whole, the reply as shown is read back turn-fenced and stripped if and only if it is not blank and both are found in that sense, or by coincidence the same text stands between a whole tag above and a whole marker |
| `WrappedCapture.MarkerWithoutFrameIff` | src/eml_bridge/capture.py:79-93 | Without any tag, text above a last marker, wrapped or whole, is read back if and only if it is not blank and that marker is found |
| `WrappedCapture.WrappedEchoIsAReplyIff` | src/eml_bridge/capture.py:79-93 | A hard-wrapped echo is taken for a fenced reply if and only if its own tag is wrapped, a whole tag stands above, and behind the last such a marker is found (the last whole one, or else the rightmost spelling) that something visible precedes |
| `HardWrap.WrapCuts` | tests/test_bridge_capture_wrapping.py:17-25 | A pane shows a line that fits as it is, and cuts a longer one at the last column, the rest re-indented and cut likewise |
| `HardWrap.LineSpells` | src/eml_bridge/capture.py:8-11 | However narrow the pane, a line it shows still spells what it was |
| `HardWrap.ScreenRuns` | src/eml_bridge/capture.py:8-11 | On a screen no more characters run on without white space than a row has room for |
| `PaneCapture.WrappedMarkerComesBackIff` | tests/test_bridge_capture_wrapping.py:43-47 | Unwrapped frame, reply, and a marker wrapped by a pane of any width: turn-fenced with exactly the stripped reply if and only if the reply is not blank and holds no close tag, and no whole marker unless the pane has room for it |
| `PaneCapture.PaneReplyComesBackIff` | src/eml_bridge/capture.py:61-128 | Frame, reply and marker all shown through one pane: what it shows of the reply is read back, stripped, if and only if the reply is not blank, the screen shows no tag in it (whole, or spelled where the pane wraps tags), and no whole marker where the pane wraps markers |
| `PaneCapture.EvenPaneReplyComesBackIff` | src/eml_bridge/capture.py:61-128 | With continuations indented at least as far as first rows, markers in the reply do no harm where the pane wraps markers |
| `PaneCapture.PaneEchoIsNotAReply` | tests/test_bridge_capture_wrapping.py:56-60 | On such a pane, or any as even for the tag, the echo of a frame is never taken for a fenced reply, whatever its width, the message and the screen before |
| `UnevenPane.UnevenPaneEchoIsAReply` | src/eml_bridge/capture.py:61-93 | On a pane whose first rows have no room for the tag while continuations have, the echo of a message that fills a first row and goes on with the tag is taken for a fenced reply |
| `UnevenPane.EchoSafeIff` | src/eml_bridge/capture.py:61-93 | So a pane never makes any echo pass for a reply if and only if its first rows have room for the tag or its continuations have none |
| `Capture.BridgeMarkersFit` | src/eml_bridge/message.py:96-96 | Markers made by `new_message` satisfy what the round trip asks of a marker |

## Left out

- Command lines, configuration files, PowerShell scripts, demos and packaging: plumbing around the protocols.
- The Herdr, Claude, HTTP, subprocess and temporal adapters: their answers are arbitrary parameters of the steps.
- `rebuild_sqlite` and the SQLite layer of the journal: tables are maps with the same keys and uniqueness constraints.
- JSON parsing and printing, Unicode normalisation, path resolution and reparse-point checks: values are taken as parsed, canonical and resolved.
- Errors of the disk itself, such as a full volume: a publication either happens or finds its file there.
- Validation of single records (`from_dict`, `contracts.py`, `visibility.py`, `adoption.py`, `ral_adapter.py`): long lists of independent field checks; only those that later steps rely on are modelled.
- Inventory identifiers and digests, and inventories read back from a file: hashes of what the model compares directly.
- The order in which conflict and resolution records are listed, and order of a subject's conflict ids: they follow hashes, so the model keeps sets.
- `record_notification` of the handoff store and the board and provenance sinks: no property reads them.
- Timestamps inside records, so a duplicate or quarantine record that differs only in its time counts as the same.
- `bind_agent` and `reconcile_all`: locks and bindings change arbitrarily between deliveries instead.
- `new_message` options that only set an opaque field (`kind`, `route_intent`, `origin`, an explicit authority mode): fixed at their defaults.
- Python's recursion limit in the depth-first search and its integer conversions: recursion is bounded only by the number of events.
- A JSON member list of a resolution that is not a list of strings raises an unspecified error in the original; the model reports incomplete members.
- Importer.ImportEvent: the observer record is taken as already validated, because its checks are independent field checks.
- DeliveryRuns.NoPayloadSubmittedTwice: two deliveries of one message at the same time are not modelled, because the engine is used sequentially and self-steps would let both reach "ready".
- Inventories.BuildInventory: the inventory's own id and digest are left out, because they only hash the parts it is proved to have.
- Wide, combining and tab characters on a pane: every character takes one column.
- A pane that wraps again what was on the screen before: the screen before is a prefix of the screen after.
- The graph check of a concurrent import reads the store at one moment; the original lists the index first and then reads each event.
- ConcurrentImports.RaceCanLeaveCycleIff: parents missing at the check are taken as advertised, because the advertisement is an arbitrary answer.
- PaneCapture.PaneReplyComesBackIff: is about panes even for the close tag; for others `WrappedCapture.WrappedReplyComesBackIff` gives the condition on the screen itself, because there a whole tag in the message can come before the frame's own.
