# Verified model of the agentic context service

A Dafny model of the parts of the service where order, retries, interleaving or
arithmetic decide correctness, with proofs over every input, run or schedule.
`dafny verify dfyconfig.toml` checks the whole project.

## What is modelled

- **The version-fenced projection.** Change events reach a store late, repeated and
  reordered. `ContextStore` is the in-memory store as a class (event table, revision
  fence, rows, tombstone loop); `Convergence` proves that the live documents depend on
  the set of changes alone, and `IngestAnswers` what every call answers on any deliveries.
  `CanonicalIndex` is the search index under external
  versioning; `StoreRefinement` proves that the two implementations move together.
  `IndexerPlan`, `IndexerWorker` and `IndexerProcess` are the worker: parsing, the
  acknowledge-then-checkpoint protocol as a crash machine, and its code path as a class;
  `IndexerRows` says what its rows and announcements hold in the fields of the records read.
- **The showcase.** `ShowcaseLedger` and `LedgerHistory` are the bounded, replayable event
  ledger, `LedgerTables` decides acceptance on its recorded events alone, `EventStream` is a
  client polling it while others record, `ShowcaseTrail` what a client reads of each step;
  `ShowcaseSaga` the approval and the compensating reservation; `ShowcaseRegistry` every
  interleaving of deliveries and commands at their awaits, `ShowcaseGate` the history every
  inventory call has in them, `ShowcaseHoldings` what becomes of confirmed reservations, and
  `ShowcaseRuns` the run that reaches a reservation and strands it; `ShowcaseObjects` the same
  operations as objects; `SourceMutation` the concurrent start transactions on the source tables.
- **Retrieval.** `RankFusion` has both reciprocal rank fusions, `ContextBudget` both
  greedy budgets and freshness tests, `QueryTranslation` the filter clauses sent to the
  index against the check made on what returns, `RankingMetrics` the evaluator's metrics.
- **Memory.** `MemoryAuthority` is the governed memory service and its repository as
  classes, `MemoryHistory` what every run of its operations keeps.
- **Ids.** `StableIds` has the framed and joined ids and what they tell apart.

Conventions: times are integers (microseconds where seconds matter), floats are reals,
an exception is a `Raise(...)` result with the exception's class, and a Python dict whose
order matters is a sequence of items. SHA-256, with its cut to 24 digits, is idealised as
an injective function onto lower-case hex text. The embedder is an arbitrary deterministic function. An operation
that changes state is a method proved against a function of the old state, and the
theorems are about that function.

## Where the code and its documentation part, and where a promise has a condition

- `docs/specification.md` (lines 167-168 and AC-16) says agent memory cannot overwrite
  authoritative memory. The code lets an agent write replace any record with the same
  id: `MemoryHistory.AgentsDisplaceExactly` says exactly when, and
  `MemoryHistory.RepeatingDemotesAcceptedMemory` gives an input.
- The public request model admits 500 candidates, but every search above 100 is refused:
  `QueryTranslation.AcceptedUpToHundredCandidates`, at 101 candidates
  `QueryTranslation.HundredAndOneIsRefused`.
- A delete redacts title, content, keywords and vector of its row, but the structured facts of
  a pricing or fulfilment row stay in the tombstone: `IndexerRows.DeletedFactsRemain`.
- A showcase bundle is built after the index acknowledged and outside the dead-letter
  handling, so one malformed stamp blocks the log for good:
  `IndexerWorker.CommitsUnlessWedged`, with a blank run id in `IndexerWorker.BlankStampWedges`.
- A delivery is all-or-nothing exactly when its document id is display-safe or its first
  event is refused: `ShowcaseSaga.DeliveryIsAllOrNothing`; `ShowcaseSaga.PartialDelivery`
  leaves two events of three behind.
- A memory namespace is told apart from every other one exactly when none of its
  components can be cut at a slash, leaving something that is not blank, and the rest
  handed to the component beside it: `StableIds.KeyIsSharedExactly`,
  `StableIds.MemoryIdsSeparateExactly`, `MemoryHistory.NamespacesAreIsolated`, and
  `StableIds.ShiftableNamespaceExists`.
- Delivery ids have such a condition on colons. Among arbitrary correlations it is on
  correlation, system and record (`StableIds.DeliveryIdIsSharedExactly`), and the service's own
  "showcase:" plus run id can always be cut at its own colon (`StableIds.RunCorrelationShifts`).
  Among deliveries of runs it is on run, system and record
  (`StableIds.RunDeliveryIsSharedExactly`), and among runs the HTTP routes name, which have no
  colon, on system and record alone (`StableIds.RouteDeliveryIsSharedExactly`).
- A corrected memory stays out of recall exactly until a step revives it:
  `MemoryHistory.CorrectionHoldsExactly`. A deleted one stays gone exactly until a step writes
  its id again: `MemoryHistory.DeletionHoldsExactly`.
- A change event may carry version 0, which the index refuses: the two projections agree
  on a record exactly while it is not live at version 0: `StoreRefinement.VersionZeroDiverges`,
  and `StoreRefinement.VersionZeroDivergence` is a delivery where they part.
- A reservation the inventory tool confirmed is left held, with no further call, exactly
  when a later-stamped event reached its ledger during the call:
  `ShowcaseHoldings.HeldReservations`; `ShowcaseRuns.ReservationIsStranded` is such a run.
- The two fusions agree exactly on duplicate-free rankings:
  `RankFusion.FusionsAgreeExactly`, with a repeat in `RankFusion.FusionsCanDiffer`.

## Model

| member | source | states |
|---|---|---|
| StableIds.FrameRoundTrip | src/agentic_context_service/domain/ids.py:10-12 | a decoder recovers every list of parts from its length-prefixed framing |
| StableIds.FrameInjective | src/agentic_context_service/domain/ids.py:10-12 | equal frames come from equal lists of parts, whatever the parts contain |
| StableIds.StableIdInjective | src/agentic_context_service/domain/ids.py:10-12 | ids with one prefix are equal only for equal parts |
| StableIds.ChunkIdIdentifies | src/agentic_context_service/domain/ids.py:21-26 | a chunk id determines document, ordinal and content hash |
| StableIds.JoinIsSharedExactly | src/agentic_context_service/domain/models.py:373-385 | a list of non-blank parts shares its joined text with another such list of the same length iff some part can be cut at a separator and the rest handed to its neighbour |
| StableIds.MemoryIdIdentifies | src/agentic_context_service/domain/ids.py:29-34 | memory ids are equal iff namespace keys, types and contents are, for all inputs |
| StableIds.KeyIsSharedExactly | src/agentic_context_service/domain/models.py:361-385 | a constructible namespace shares its key with another one iff one of its components can be cut at a slash and shifted |
| StableIds.SlashFreeTwinExactly | src/agentic_context_service/domain/models.py:373-385 | some other namespace without a slash after the tenant has the same key iff this one hides a slash there |
| StableIds.MemoryIdsSeparateExactly | src/agentic_context_service/domain/ids.py:29-34 | the memory ids of a constructible namespace are told apart from all others, with type and content, iff it cannot be cut so |
| StableIds.SlashMergesNamespaces | src/agentic_context_service/domain/models.py:373-385 | every namespace that can be cut so has a different constructible namespace with all the same memory ids |
| StableIds.ShiftableNamespaceExists | src/agentic_context_service/domain/models.py:373-385 | there are constructible namespaces that can be cut at a slash and shifted |
| StableIds.RowIdIdentifies | src/agentic_context_service/adapters/opensearch.py:566-568 | index row ids separate tenants and colon-free chunk ids |
| StableIds.ChunkIdHasNoColon | src/agentic_context_service/domain/ids.py:10-26 | every minted chunk id is free of colons, so the row id condition always holds |
| StableIds.DeliveryIdIdentifies | src/agentic_context_service/application/showcase_cdc.py:34-44 | delivery ids are equal iff the versions and the joined correlation, system and record are, for all inputs |
| StableIds.ColonFreeDeliveries | src/agentic_context_service/application/showcase_cdc.py:34-44 | for colon-free systems and records that is iff correlation and source version are equal |
| StableIds.DeliveryIdIsSharedExactly | src/agentic_context_service/application/showcase_cdc.py:34-44 | a delivery shares its id with another one iff correlation, system and record can be cut at a colon and shifted |
| StableIds.RunCorrelationShifts | src/agentic_context_service/application/showcase_source.py:40-52 | the correlation the service gives a run can always be cut at its own colon, so among arbitrary correlations its delivery id is never alone |
| StableIds.RunDeliveryIsSharedExactly | src/agentic_context_service/application/showcase_cdc.py:34-44 | a run's delivery shares its id with another run's delivery iff run, system and record can be cut at a colon and shifted |
| StableIds.RouteDeliveryIsSharedExactly | src/agentic_context_service/api/showcase.py:315-326 | for run ids without a colon, as the routes demand, it shares its id with another such delivery iff system and record can be cut at a colon and shifted |
| ContextStore.InMemoryContextStore.Ingest | src/agentic_context_service/application/ingestion.py:18-50 | an unpaired change is refused untouched; a paired one does what the store's step relation says |
| ContextStore.InMemoryContextStore.ApplyChange | src/agentic_context_service/testing/memory.py:43-72 | disposition and new tables for duplicates, conflicts, late, applied and refused changes |
| ContextStore.InMemoryContextStore.Tombstone | src/agentic_context_service/testing/memory.py:74-93 | every row of the record is tombstoned, or some validity interval refuses and the pass stops part-way |
| IngestAnswers.AnswersExactly | src/agentic_context_service/testing/memory.py:43-72 | on any deliveries each answer follows from what was applied before: duplicate or conflict under a known event id, otherwise out of order, conflict or applied by the record's highest applied version |
| Convergence.InvHolds | src/agentic_context_service/testing/memory.py:43-93 | after every prefix the fence is the highest version seen and the change at the fence has had its effect |
| Convergence.StepEffect | src/agentic_context_service/testing/memory.py:43-72 | a coherent change alters the store iff its version is strictly above the fence |
| Convergence.LiveDocumentsAreTheWinners | src/agentic_context_service/testing/memory.py:43-93 | for any order and repetition the live rows are exactly each record's highest-version upsert, none if that is a delete |
| Convergence.SameChangesSameLiveView | src/agentic_context_service/testing/memory.py:43-93 | two deliveries of one set of changes end in the same live view |
| Convergence.FencesNeverFall | src/agentic_context_service/testing/memory.py:205-220 | on any deliveries, coherent or not, fences never fall and a change at or below one changes nothing |
| Convergence.DeletedStaysDeleted | src/agentic_context_service/testing/memory.py:74-93 | no older upsert revives a record whose highest version is a delete; its rows carry the end, version and event of that delete and otherwise the body of one of its upserts |
| Convergence.DeleteBeforeValidityIsRefused | src/agentic_context_service/testing/memory.py:74-93 | in any state a new delete above the fence is refused iff some row of the record became valid later; fences then stay and those rows are untouched, otherwise no live row remains |
| CanonicalIndex.RetryIsIdempotent | src/agentic_context_service/adapters/opensearch.py:191-218 | a write sent twice acts once and answers the same; rows change iff the version is strictly newer |
| CanonicalIndex.OpenSearchIndex.ExternalPut | src/agentic_context_service/adapters/opensearch.py:203-211 | the backend stores a write iff it is above the stored version |
| CanonicalIndex.OpenSearchIndex.CanonicalWrite | src/agentic_context_service/adapters/opensearch.py:191-218 | stored if newer, acknowledged if an equal replay, otherwise a ValueError and no change |
| StoreRefinement.Refines | src/agentic_context_service/testing/memory.py:43-72 | after every coherent delivery, version 0 included, a record has an index row iff its fence is at least 1, with the same fence and live document |
| StoreRefinement.StepForStep | src/agentic_context_service/adapters/opensearch.py:191-218 | the store changes state on exactly the changes strictly above the fence, the index on exactly those of them above version 0 |
| StoreRefinement.ReportsDiffer | src/agentic_context_service/adapters/opensearch.py:213-218 | at or below the fence the index acknowledges iff the version is the fence and at least 1; the store says duplicate at the fence and duplicate or out of order below |
| StoreRefinement.AllSettled | src/agentic_context_service/adapters/opensearch.py:213-218 | every delivered write from version 1 on is at or below its row and equals it at equal version, and every row was set by one |
| StoreRefinement.VersionZeroDiverges | src/agentic_context_service/adapters/opensearch.py:559-564 | after every delivery and for every record the live views are equal iff the record is not live at fence 0 |
| StoreRefinement.VersionZeroDivergence | src/agentic_context_service/adapters/opensearch.py:559-564 | however rows are named, one upsert at version 0 is a coherent delivery after which the store shows a document and the index none |
| StoreRefinement.LiveViewsAgree | src/agentic_context_service/adapters/opensearch.py:191-218 | with every version at least 1 the two live views are equal after every delivery |
| StoreRefinement.ServiceIdsNameRecords | src/agentic_context_service/indexer.py:187-195 | the chunk ids the worker mints name records and suit the index, as the convergence and refinement theorems ask |
| IndexerPlan.RowsNameRecords | src/agentic_context_service/indexer.py:187-195 | two events write the same row iff they name the same source, resource and record |
| IndexerRows.PlansExactly | src/agentic_context_service/indexer.py:93-166 | which events have a plan: those that parse, carry valid facts for their table and are not half stamped; every other is a dead letter |
| IndexerRows.ParsesExactly | src/agentic_context_service/indexer.py:93-166 | which events parse, and into which row image, table and operation |
| IndexerRows.DeletesAreRedacted | src/agentic_context_service/indexer.py:197-228 | a delete writes a row marked deleted and ended at its time, with fixed title and content, no keywords and a zero vector, and owes nothing |
| IndexerRows.UpsertsCarryTheRow | src/agentic_context_service/indexer.py:230-318 | any other event writes a live row with the title, content and keywords of its row image and the embedding of that content |
| IndexerRows.EveryWriteIsAddressed | src/agentic_context_service/indexer.py:264-318 | tenant, source, table, record, ids, log position, governance, dates and lineage of every write |
| IndexerRows.FactsAreTheRows | src/agentic_context_service/indexer.py:366-398 | the structured facts are those of the row image, exactly for the two tables that have them |
| IndexerRows.DeletedFactsRemain | src/agentic_context_service/indexer.py:197-228 | a tombstone of those two tables still carries the facts of the deleted row |
| IndexerRows.OwedExactly | src/agentic_context_service/indexer.py:400-414 | a bundle is owed exactly by a stamped row that was not deleted, under that stamp |
| IndexerRows.ColonFreeEventIds | src/agentic_context_service/indexer.py:347-349 | with no colon in table and record the event id tells source, table, record and version apart |
| IndexerWorker.PreparedIsPlanned | src/agentic_context_service/indexer.py:255-262 | with a sound vector cache a preparation equals the plan computed with a fresh embedding |
| IndexerWorker.InvHolds | src/agentic_context_service/indexer.py:320-337 | every reachable worker state, crashes included, satisfies the protocol invariant and has a sound cache |
| IndexerWorker.CrashesAreInvisible | src/agentic_context_service/indexer.py:320-337 | the index is that of one uninterrupted pass; below the checkpoint a record is in the dead letters iff dead and announced iff it owes a bundle |
| IndexerWorker.VersionsNeverFall | src/agentic_context_service/adapters/opensearch.py:201-218 | no continuation of any run lowers a row's version |
| IndexerWorker.CheckpointedIsCovered | src/agentic_context_service/indexer.py:320-337 | each record below the checkpoint is a dead letter or its row is at its version or later |
| IndexerRows.RowsSayTheirRecord | src/agentic_context_service/indexer.py:197-253 | over every run each row says what one read record says: deleted and redacted if that is a delete, live with its text and embedding otherwise |
| IndexerRows.DeletedRowsStayRedacted | src/agentic_context_service/indexer.py:197-228 | an accepted delete of the highest version keeps its row redacted through every run |
| IndexerRows.AnnouncementsCarryTheirRow | src/agentic_context_service/indexer.py:417-430 | over every run an announcement carries the stamp, record, version and time of the row read at its offset, and its bundle meets the receiver's constructor |
| IndexerWorker.DeadExactly | src/agentic_context_service/indexer.py:329-334 | a record is dead iff malformed, unidentified, or overtaken by an earlier accepted one |
| IndexerWorker.CommitsUnlessWedged | src/agentic_context_service/indexer.py:335-337 | some continuation commits the record at the checkpoint iff it does not owe a bundle that can never be built |
| IndexerWorker.BlankStampWedges | src/agentic_context_service/indexer.py:335-337 | under every configuration with a tenant, a log of one well-formed record stamped with a blank run id is never committed by any run |
| IndexerProcess.Worker.EmbedOnce | src/agentic_context_service/indexer.py:255-262 | the cached or newly embedded vector, and the cache that then holds it |
| IndexerProcess.Worker.ProcessDelete | src/agentic_context_service/indexer.py:197-228 | the redacted tombstone of the record's plan is written; a normal return iff the index accepts it |
| IndexerProcess.Worker.ProcessUpsert | src/agentic_context_service/indexer.py:230-253 | the planned document is written and the owed projection returned iff the index accepts it |
| IndexerProcess.Worker.Process | src/agentic_context_service/indexer.py:187-195 | one call is the crash machine's preparation and index write |
| IndexerProcess.Worker.ProcessRecord | src/agentic_context_service/indexer.py:320-337 | one call is a whole pass; it raises iff an acknowledged record owes a bundle that cannot be built now |
| ShowcaseLedger.ShowcaseEventLedger.Append | src/agentic_context_service/application/showcase_events.py:302-323 | sequence, status, version tables and retained tail after an accepted event |
| ShowcaseLedger.ShowcaseEventLedger.Record | src/agentic_context_service/application/showcase_events.py:178-204 | an acceptable draft becomes the next event; a refused one leaves the ledger unchanged |
| ShowcaseLedger.ShowcaseEventLedger.ReadAfter | src/agentic_context_service/application/showcase_events.py:206-210 | the retained events beyond the cursor, in order; a negative cursor is refused |
| ShowcaseLedger.ReplayLedger | src/agentic_context_service/application/showcase_events.py:228-251 | the replay loop succeeds iff the replay function does, with that ledger |
| ShowcaseLedger.ReplayStops | src/agentic_context_service/application/showcase_events.py:242-251 | a stream with a refused prefix is refused |
| LedgerHistory.InvHolds | src/agentic_context_service/application/showcase_events.py:199-314 | in every reachable ledger projected versions were received, received ones recorded, the latest is the maximum, numbering is gapless, time never falls, the newest events are kept |
| LedgerHistory.FullReplayRebuilds | src/agentic_context_service/application/showcase_events.py:228-251 | replaying everything ever recorded rebuilds the ledger, keeping the last min(n, capacity) events |
| LedgerHistory.ReplayAcceptsExactlyRecordings | src/agentic_context_service/application/showcase_events.py:228-251 | replay accepts a stream iff some sequence of record calls produces it |
| LedgerHistory.RetainedSuffixReplays | src/agentic_context_service/application/showcase_events.py:302-314 | the retained events replay iff nothing has been evicted |
| LedgerHistory.CursorReads | src/agentic_context_service/application/showcase_events.py:206-219 | a read is the recorded suffix beyond cursor and eviction horizon, a valid snapshot, and complete iff at most max_events were recorded since |
| LedgerHistory.SupersededForever | src/agentic_context_service/application/showcase_events.py:221-226 | a source version that stopped being the current projection never becomes current again |
| LedgerTables.RecordableExactly | src/agentic_context_service/application/showcase_events.py:253-300 | a draft is accepted iff it may be shown, does not go back in time, and follows the recorded events: newer change, receipt after its change, projection after its receipt, anything else after its projection |
| LedgerTables.CurrentExactly | src/agentic_context_service/application/showcase_events.py:221-226 | the current projection is the projected version above which no change was recorded |
| LedgerTables.EverythingShownIsPlain | src/agentic_context_service/application/showcase_events.py:326-351 | every text in every recorded event has 1 to 160 characters without blanks, controls, quotes or markup, and none stands under a raw-data key |
| LedgerTables.SnapshotExactly | src/agentic_context_service/application/showcase_events.py:354-375 | a snapshot is valid iff its events are of the run, rising and not beyond its sequence |
| EventStream.InvHolds | src/agentic_context_service/api/showcase.py:234-244 | from any valid ledger and cursor, however polls, yields and recordings interleave, what was sent or is pending is genuine, rising and unbroken unless a poll fell behind |
| EventStream.ClientsReceiveInOrder | src/agentic_context_service/api/showcase.py:234-244 | a client receives only recorded events, in order and once, and misses one iff some poll found more unread events than are retained |
| EventStream.KeepaliveMeansCaughtUp | src/agentic_context_service/api/showcase.py:234-244 | a poll finds nothing iff the client has caught up; it then holds everything beyond its first cursor unless it fell behind |
| ShowcaseSaga.SagaOutcomes | src/agentic_context_service/application/showcase_workflow.py:311-375 | for every ledger and tool outcome, exactly which calls are made and which final status results; no carrier call when resolve raises |
| ShowcaseSaga.StartOutcomes | src/agentic_context_service/application/showcase_workflow.py:478-490 | the first tool call follows only an approval of the current version in time; otherwise the run is rejected or failed, or nothing changed |
| ShowcaseGate.GateExactly | src/agentic_context_service/application/showcase_workflow.py:535-615 | the gate passes iff exactly one result is about the source version and it promises: at least one left, cutoff open, no hold, at most 300 seconds old |
| ShowcaseGate.CheckpointOpensExactly | src/agentic_context_service/application/showcase_workflow.py:249-309 | a checkpoint of five minutes opens iff the advice reserves, the results back it and everything can be recorded; the run then awaits approval, otherwise it fails |
| ShowcaseGate.UnavailableContextFails | src/agentic_context_service/application/showcase_workflow.py:253-256 | without retrieved context no checkpoint opens, no call is made, and whatever can be recorded ends in a failed run |
| ShowcaseTrail.DecisionIsSeen | src/agentic_context_service/application/showcase_workflow.py:311-375 | for every outcome a client that was caught up reads exactly the steps taken, in order, stamped with the decision |
| ShowcaseTrail.AdviceIsSeen | src/agentic_context_service/application/showcase_workflow.py:249-309 | after the advice it reads the tools in order, the decision with its reason, and the request for approval or the block |
| ShowcaseTrail.DeliveryIsSeen | src/agentic_context_service/api/showcase.py:136-160 | after a delivery it reads exactly its three events with their own times, event id and document id |
| ShowcaseSaga.DeliveryIsAllOrNothing | src/agentic_context_service/api/showcase.py:131-163 | a valid bundle is recorded whole iff its first event is accepted and its document id display-safe; partial exactly in the remaining case |
| ShowcaseSaga.PartialDelivery | src/agentic_context_service/api/showcase.py:131-163 | every valid bundle whose event id is display-safe and document id is not leaves exactly two events on a new run and is not delivered |
| ShowcaseRegistry.InvHolds | src/agentic_context_service/api/showcase.py:111-190 | in every interleaving the right to reserve for a delivery has at most one holder and every call made was justified |
| ShowcaseRegistry.AtMostOneReservation | src/agentic_context_service/api/showcase.py:131-190 | over every interleaving and despite eviction a delivery causes at most one inventory call, after an approval in time of the then-current version |
| ShowcaseGate.EveryCallHasItsHistory | src/agentic_context_service/api/showcase.py:131-190 | over every interleaving each inventory call has, in order, its delivery, its backing retrieval, its advice to reserve and a person's approval within five minutes on the run's own ledger where the version was current |
| ShowcaseRegistry.RunsBounded | src/agentic_context_service/api/showcase.py:120-129 | at most 32 runs, one slot each, in every interleaving |
| ShowcaseRegistry.LatestRunsAreHeld | src/agentic_context_service/api/showcase.py:120-129 | after any schedule the registry holds exactly the 32 runs created last, oldest first |
| ShowcaseRegistry.RouteRunIds | src/agentic_context_service/api/showcase.py:315-326 | which run ids the routes let through; none is blank or holds a separator |
| ShowcaseRegistry.RedeliveryIsNoOp | src/agentic_context_service/api/showcase.py:131-135 | a delivery once marked changes nothing ever after, even when its run was evicted |
| ShowcaseRegistry.DeliveryStepIsAllOrNothing | src/agentic_context_service/api/showcase.py:131-163 | a display-safe bundle is marked with its whole chain on the ledger, or unmarked with the ledger as it was |
| ShowcaseHoldings.AfterInventoryExactly | src/agentic_context_service/application/showcase_workflow.py:325-341 | once the inventory tool confirmed, the coroutine raises iff a later-stamped event was recorded meanwhile, else it calls the carrier |
| ShowcaseHoldings.AfterCarrierExactly | src/agentic_context_service/application/showcase_workflow.py:341-349 | after a carrier failure the coroutine raises iff a later-stamped event was recorded meanwhile, else it calls the release |
| ShowcaseHoldings.HeldReservations | src/agentic_context_service/application/showcase_workflow.py:311-375 | over every interleaving a confirmed inventory reservation is in its saga, confirmed, released, held after a failed release, or stranded, the last exactly when its ledger was overtaken during the call |
| ShowcaseHoldings.LaterDeliveryStrands | src/agentic_context_service/api/showcase.py:131-163 | a later-stamped delivery for the run during the inventory call strands the reservation |
| ShowcaseRuns.ReservationIsReached | src/agentic_context_service/api/showcase.py:131-190 | every valid display-safe bundle, delivered to a new registry, supported by its fact, proposed and approved in time, leads to exactly one inventory call |
| ShowcaseRuns.ReservationIsStranded | src/agentic_context_service/application/showcase_workflow.py:325-341 | the next version of its source delivered during that call strands the confirmed reservation |
| ShowcaseRuns.StrandedReservationExists | src/agentic_context_service/application/showcase_workflow.py:325-341 | there is a run that ends with a stranded reservation |
| ShowcaseObjects.CompensateInventory | src/agentic_context_service/application/showcase_workflow.py:350-375 | the compensation makes the calls and writes the ledger of the saga from its release step |
| ShowcaseObjects.ReserveRouteOrCompensate | src/agentic_context_service/application/showcase_workflow.py:330-375 | the carrier step, with compensation on failure, is the saga from its carrier step |
| ShowcaseObjects.ReserveWithCompensation | src/agentic_context_service/application/showcase_workflow.py:311-375 | the reservation is the saga from its inventory step |
| ShowcaseObjects.Resolve | src/agentic_context_service/application/showcase_workflow.py:478-490 | resolve run to its end is the saga: same ledger, same calls, raises iff it raises |
| ShowcaseObjects.RecordChain | src/agentic_context_service/api/showcase.py:136-160 | the three records made in order, stopping at the first refusal |
| ShowcaseObjects.ShowcaseRegistry.GetOrCreate | src/agentic_context_service/api/showcase.py:120-129 | the run's ledger, or a fresh one after evicting the oldest of 32 |
| ShowcaseObjects.ShowcaseRegistry.DeliverNew | src/agentic_context_service/api/showcase.py:131-163 | the chain on the run's ledger, new or found; marked iff all of it was recorded; other ledgers untouched |
| ShowcaseObjects.ShowcaseRegistry.ApplyCdcBundle | src/agentic_context_service/api/showcase.py:131-163 | a known delivery changes nothing; a new one is recorded on its own run's ledger and marked iff complete |
| ShowcaseObjects.ShowcaseRegistry.Decide | src/agentic_context_service/api/showcase.py:169-190 | the saga on the run's ledger, new or found; other ledgers untouched |
| ShowcaseObjects.ShowcaseRegistry.Command | src/agentic_context_service/api/showcase.py:169-190 | without a checkpoint unavailable and nothing happens; with one it is consumed and the saga runs on that run's ledger |
| RankFusion.AccumulateRanking | src/agentic_context_service/application/retrieval.py:48-59 | totals, documents and tactics after one more ranking |
| RankFusion.DocumentsKeepTheLast | src/agentic_context_service/application/retrieval.py:55-59 | the document kept for a chunk is that of its last candidate |
| RankFusion.TacticsCollectAll | src/agentic_context_service/application/retrieval.py:55-59 | the tactics of a chunk are exactly those of its candidates |
| RankFusion.ReciprocalRankFusion | src/agentic_context_service/application/retrieval.py:32-66 | a non-positive constant is refused; otherwise the fused order, each with its last document and HYBRID iff several tactics found it |
| RankFusion.FusedIsTheRanking | src/agentic_context_service/application/retrieval.py:32-59 | the fused list is strictly ordered, duplicate-free and holds exactly the union, each chunk with its whole credit |
| RankFusion.ScoresAreConserved | src/agentic_context_service/application/retrieval.py:55-59 | fused scores sum to the sum of 1/(k+r) over all positions of all rankings |
| RankFusion.DominanceIsKept | src/agentic_context_service/application/retrieval.py:32-59 | above another in every list where the other appears means fused above it, whatever else repeats, if no list names the other twice |
| RankFusion.RepeatsBreakDominance | src/agentic_context_service/application/retrieval.py:55-59 | a lower chunk listed twice is fused above a higher one |
| RankFusion.BothBeatOneExactly | src/agentic_context_service/application/retrieval.py:32-59 | every chunk found by both of two lists precedes every chunk found by one, for all lists up to L, iff L is at most k + 1 |
| RankFusion.ServiceBoundExactly | src/agentic_context_service/application/retrieval.py:32-59 | with the service's constant that bound is 61 |
| RankFusion.ShortListsFavourBoth | src/agentic_context_service/application/retrieval.py:32-59 | lists of at most k + 1 favour what both found |
| RankFusion.LongListsCanTie | src/agentic_context_service/application/retrieval.py:45 | lists of k + 2 can tie and the chunk id then decides the other way |
| RankFusion.Fuse | src/agentic_context_service/adapters/opensearch.py:526-534 | the first limit entries of the ranked order, each the merged hit with its score |
| RankFusion.BothRanks | src/agentic_context_service/adapters/opensearch.py:645-661 | a merged hit holds the chunk's last rank in each list |
| RankFusion.FuseOrderMembers | src/agentic_context_service/adapters/opensearch.py:526-534 | the ranked order is strictly sorted and scores each chunk of either list by its last ranks |
| RankFusion.FusionsAgreeExactly | src/agentic_context_service/adapters/opensearch.py:526-534 | the two implementations give the same scored list iff neither ranking repeats a chunk |
| RankFusion.FusionsCanDiffer | src/agentic_context_service/adapters/opensearch.py:526-534 | a chunk listed twice in one ranking makes the two fusions differ |
| RankFusion.MergedHits | src/agentic_context_service/adapters/opensearch.py:645-653 | a merged hit holds the document of the chunk's last hit, no score, and is degraded iff one of the chunk's hits is |
| RankFusion.ServiceFusionFavoursBoth | src/agentic_context_service/adapters/opensearch.py:526-534 | on duplicate-free searches of at most 61 hits every chunk both found precedes every chunk one found |
| ContextBudget.Retrieve | src/agentic_context_service/application/retrieval.py:74-90 | the results are the first result_limit of the greedy cut of the eligible candidates |
| ContextBudget.RetrievedIsBounded | src/agentic_context_service/application/retrieval.py:74-90 | count, tokens and text length (4 times the budget) are bounded, every result is eligible and none is marked stale |
| ContextBudget.EligibleExactly | src/agentic_context_service/application/retrieval.py:105-177 | which hits the retriever considers, field by field of the document, to the second of its age |
| ContextBudget.ResultsSayTheirDocument | src/agentic_context_service/application/retrieval.py:113-133 | each result carries chunk, text, trust and age in full seconds of its document and is not stale |
| ContextBudget.FitIsGreedy | src/agentic_context_service/adapters/service.py:604-614 | the cut is the subsequence of the one mask that keeps an item iff it fits what the kept items left |
| ContextBudget.FitStaysInBudget | src/agentic_context_service/adapters/service.py:604-614 | kept tokens are within the budget and kept text within four times it |
| ContextBudget.TokensExactly | src/agentic_context_service/adapters/service.py:609 | n tokens are enough for a text iff n is at least 1 and the text has at most 4n characters |
| ContextBudget.FitCutsOnLength | src/agentic_context_service/adapters/service.py:604-614 | an item is kept iff the kept items before it left at least one token and one for every four of its characters |
| ContextBudget.OneHitFits | src/agentic_context_service/adapters/service.py:604-614 | a single hit is kept iff the budget is at least 1 and four times it covers the text |
| ContextBudget.FitBudget | src/agentic_context_service/adapters/service.py:604-614 | the loop computes the greedy cut |
| ContextBudget.FailsExactlyOnStale | src/agentic_context_service/adapters/service.py:579-601 | under "fail" a request is refused iff some hit is stale and otherwise keeps every hit |
| ContextBudget.OmitKeepsExactlyFresh | src/agentic_context_service/adapters/service.py:586-601 | otherwise exactly the hits not older than the maximum age, to the microsecond, are kept |
| ContextBudget.FreshnessTestsDiffer | src/agentic_context_service/application/retrieval.py:173-177 | the two freshness tests differ iff the age is strictly between max and max + 1 seconds |
| ContextBudget.ServiceIsPrefix | src/agentic_context_service/adapters/service.py:213-214 | limiting before fitting returns a prefix of fitting before limiting |
| ContextBudget.SameListExactly | src/agentic_context_service/adapters/service.py:213-214 | the two are equal iff the first limit hits all fit or nothing after them fits the rest |
| ContextBudget.ServiceAgreesWithRetriever | src/agentic_context_service/adapters/service.py:213-214 | on one permitted ranking, with or without a maximum age, off the boundary second of any, the service's context is a prefix of the retriever's |
| QueryTranslation.Hits | src/agentic_context_service/adapters/opensearch.py:536-550 | the returned rows that the check permits, in order |
| QueryTranslation.InstitutionalMeaning | src/agentic_context_service/adapters/opensearch.py:465-480 | what the filter clauses say of a chunk, clause by clause in the fields of the document |
| QueryTranslation.PermittedMeaning | src/agentic_context_service/adapters/opensearch.py:698-779 | what the check on the way back asks of a chunk, key by key in the fields of the document |
| QueryTranslation.TranslationIsExact | src/agentic_context_service/adapters/opensearch.py:684-779 | for a non-memory request the clauses and the check accept the same chunks iff supported keys ask for values and unsupported ones for "None" |
| QueryTranslation.NothingIsDropped | src/agentic_context_service/adapters/opensearch.py:536-550 | on such requests post-filtering drops nothing, so ranks are the backend's |
| QueryTranslation.MemoryTranslation | src/agentic_context_service/adapters/opensearch.py:425-463 | permitted later implies matching earlier; a match fails the later check iff it expired in between |
| QueryTranslation.ServiceRequestsTranslate | src/agentic_context_service/adapters/service.py:566-571 | every non-memory request the service builds is translatable |
| QueryTranslation.PolicyIsNeverWidened | src/agentic_context_service/adapters/service.py:158-211 | every chunk such a request matches is live, of the tenant, in allowed and requested corpora and classifications, and meets purpose and filters |
| QueryTranslation.RetrieveAnswers | src/agentic_context_service/adapters/service.py:158-211 | which retrieve requests are refused, which are empty without a search, and every field of the search otherwise |
| QueryTranslation.LimitExactly | src/agentic_context_service/adapters/service.py:190-192 | the policy limit caps the requested one unless it is absent or zero |
| QueryTranslation.AcceptedUpToHundredCandidates | src/agentic_context_service/adapters/service.py:189-206 | a request within the public limits passes search validation iff it asks for at most 100 candidates |
| QueryTranslation.HundredAndOneIsRefused | src/agentic_context_service/adapters/service.py:189-206 | a permitted request within the public limits that asks for 101 candidates is refused |
| QueryTranslation.MemorySearchStaysInNamespace | src/agentic_context_service/adapters/service.py:276-298 | a memory search matches only live, unexpired memories of the requested, allowed namespace |
| QueryTranslation.MemorySearchExactly | src/agentic_context_service/adapters/service.py:276-298 | which memory searches are refused or empty, and exactly which memories the others match, in the fields of the memory |
| QueryTranslation.MemorySearchAccepted | src/agentic_context_service/adapters/opensearch.py:552-557 | a memory search is carried out iff it has a tenant and asks for 1 to 100 results |
| RankingMetrics.Rearrangement | scripts/evaluate.py:60-66 | gain is at most the ideal of the same number of hits, with equality iff the hits lead the list |
| RankingMetrics.NdcgWithHits | scripts/evaluate.py:60-71 | with at most min(expected, k) hits counting repetitions nDCG is in [0, 1] and is 1 iff the leading positions exist and are relevant |
| RankingMetrics.BoundedForEveryDiscountExactly | scripts/evaluate.py:60-71 | the gain stays within the ideal for every decreasing discount iff the hits do not outnumber the ideal's positions |
| RankingMetrics.NdcgIsNormalised | scripts/evaluate.py:60-71 | on distinct returned ids nDCG is in [0, 1], is 1 iff the first min(expected, k) positions exist and are relevant, and divides by zero iff there are none |
| RankingMetrics.RepeatedIdsExceedOne | scripts/evaluate.py:60-71 | a repeated returned id scores above 1 |
| RankingMetrics.OneHitEarnsItsDiscount | scripts/evaluate.py:60-66 | a single hit earns the discount of its own position |
| RankingMetrics.RecallIsNormalised | scripts/evaluate.py:55-57 | recall is in [0, 1] and is 1 iff the expected ids are distinct and all in the top k |
| RankingMetrics.RecallCounts | scripts/evaluate.py:55-57 | recall is the number of distinct expected ids in the top k over the length of the expected list |
| RankingMetrics.PerfectNdcgHasFullRecall | scripts/evaluate.py:55-71 | a perfect nDCG at a cutoff with room for every expected id means full recall |
| MemoryAuthority.InMemoryMemoryRepository.Put | src/agentic_context_service/testing/memory.py:130-131 | the record is stored under its own id |
| MemoryAuthority.InMemoryMemoryRepository.List | src/agentic_context_service/testing/memory.py:136-138 | exactly the namespace's records, oldest first, ties by id |
| MemoryAuthority.InMemoryMemoryRepository.ListPreferences | src/agentic_context_service/testing/memory.py:140-147 | exactly the preferences agreeing on everything but the session, in that order |
| MemoryAuthority.InMemoryMemoryRepository.Supersede | src/agentic_context_service/testing/memory.py:149-151 | both records are stored under their ids |
| MemoryAuthority.MemoryService.RememberAgent | src/agentic_context_service/application/memory.py:42-56 | result and repository after an agent's proposal, or its refusal |
| MemoryAuthority.MemoryService.Store | src/agentic_context_service/application/memory.py:58-60 | stored iff the actor may write such a record, else PermissionError and no change |
| MemoryAuthority.MemoryService.Recall | src/agentic_context_service/application/memory.py:62-70 | exactly the active records of the namespace, plus shared preferences when sharing is on, oldest first |
| MemoryAuthority.ListingIsUnique | src/agentic_context_service/application/memory.py:201-204 | that description determines the recalled list |
| MemoryHistory.RecallShowsExactly | src/agentic_context_service/application/memory.py:62-70 | exactly the records of the namespace, and with sharing the preferences differing in the session alone, that are unexpired and not superseded, oldest first |
| MemoryAuthority.MemoryService.Accept | src/agentic_context_service/application/memory.py:72-86 | result and repository for every actor, missing, foreign and settled record |
| MemoryAuthority.MemoryService.Correct | src/agentic_context_service/application/memory.py:88-115 | result and repository, refusing blank and unchanged content |
| MemoryAuthority.MemoryService.Expire | src/agentic_context_service/application/memory.py:117-127 | result and repository, refusing agents and an expiry not after creation |
| MemoryAuthority.MemoryService.Delete | src/agentic_context_service/application/memory.py:129-132 | the owned record is removed, or an error and no change |
| MemoryAuthority.MemoryService.GetOwned | src/agentic_context_service/application/memory.py:134-140 | KeyError when missing, PermissionError when foreign, else the record |
| MemoryHistory.EveryRecordIsAuthentic | src/agentic_context_service/application/memory.py:143-194 | in every reachable repository a record is proposed, untrusted and of agent origin, or non-proposed with exactly the human or the system pair of origin and trust |
| MemoryHistory.AgentsOnlyPropose | src/agentic_context_service/application/memory.py:173-187 | whatever an agent step adds or changes is proposed and untrusted, and it removes nothing |
| MemoryHistory.AgentsDisplaceExactly | src/agentic_context_service/application/memory.py:42-60 | an authoritative record survives a run of agent steps iff none of them writes its id |
| MemoryHistory.RepeatingDemotesAcceptedMemory | src/agentic_context_service/application/memory.py:42-86 | an accepted memory becomes a proposal again when the agent repeats it |
| MemoryHistory.RememberingTakesEffect | src/agentic_context_service/application/memory.py:42-56 | a text that is not blank becomes an untrusted proposal without expiry under its own id, and nothing else changes |
| MemoryHistory.StoringTakesEffect | src/agentic_context_service/application/memory.py:143-194 | which records each kind of actor may store, and that nothing else changes |
| MemoryHistory.AcceptanceTakesEffect | src/agentic_context_service/application/memory.py:72-86 | when accepting succeeds, and the origin and trust it then gives |
| MemoryHistory.ExpiryTakesEffect | src/agentic_context_service/application/memory.py:117-127 | when setting an expiry succeeds; then the record is recalled exactly before that time unless superseded |
| MemoryHistory.DeletionTakesEffect | src/agentic_context_service/application/memory.py:129-132 | when deleting succeeds; then the record is gone and shown by no recall at any time, and every other is as it was |
| MemoryHistory.DeletionHoldsExactly | src/agentic_context_service/application/memory.py:129-132 | through any run a deleted memory stays gone iff no step writes its id again |
| MemoryHistory.RefusalsExactly | src/agentic_context_service/application/memory.py:72-140 | which error each operation on an existing record raises, and when |
| MemoryHistory.CorrectionTakesEffect | src/agentic_context_service/application/memory.py:88-115 | right after a correction recall shows the replacement, hides the original under its successor's name, and nothing else changed; the replacement is the corrector's own |
| MemoryHistory.HiddenMeansNeverRecalled | src/agentic_context_service/application/memory.py:196-204 | absent or superseded means recalled by nobody, under either policy, at any instant, and conversely |
| MemoryHistory.HiddenStep | src/agentic_context_service/application/memory.py:42-132 | a step keeps a hidden record hidden iff it is not a repetition of its text, an allowed store over it, or a correction back to it |
| MemoryHistory.HiddenExactly | src/agentic_context_service/application/memory.py:42-132 | over every run a hidden record is hidden after every prefix iff no step revives it |
| MemoryHistory.CorrectionHoldsExactly | src/agentic_context_service/application/memory.py:88-115 | after any correction the original stays out of recall through any run iff no step of it revives the original |
| MemoryHistory.RepeatingRevivesTheOriginal | src/agentic_context_service/application/memory.py:42-60 | for every correction, repeating the original text is such a step and shows it again |
| MemoryHistory.ServiceRunsAreHonest | src/agentic_context_service/application/memory.py:42-132 | without raw store every record sits under the id of its own namespace, type and content |
| MemoryHistory.OtherKeysUntouched | src/agentic_context_service/application/memory.py:42-140 | an operation other than raw store leaves every record under another key untouched |
| MemoryHistory.NamespacesAreIsolated | src/agentic_context_service/application/memory.py:42-140 | no operation of any other namespace touches the records of a constructible namespace, in any repository of authentic records under their own ids, iff it cannot be cut at a slash and shifted |
| MemoryHistory.SlashBreaksIsolation | src/agentic_context_service/domain/models.py:373-385 | for every namespace that can be cut so there is another one whose write of the same type and content replaces its record, in any repository |
| SourceMutation.InvHolds | src/agentic_context_service/application/showcase_source.py:66-123 | in every interleaving locks are exclusive, committed versions dense, and every call's version fits |
| SourceMutation.EachRunBumpsOnce | src/agentic_context_service/application/showcase_source.py:66-123 | the source version rose by the number of committed runs, which hold exactly the versions in between |
| SourceMutation.CallersAgree | src/agentic_context_service/application/showcase_source.py:66-123 | two callers get the same version iff they named the same run |
| SourceMutation.OnlyAMissingRuleRaises | src/agentic_context_service/application/showcase_source.py:88-108 | a call that is not aborted raises iff the source record is missing; the second select always finds the row |
| SourceMutation.SomeCallCanMove | src/agentic_context_service/application/showcase_source.py:66-123 | no deadlock: while a call is in progress some call's next statement can run |
| SourceMutation.EveryCallCanFinish | src/agentic_context_service/application/showcase_source.py:66-123 | all calls in progress can be run to their end without an abort, in a bounded number of statements |
| SourceMutation.ShowcaseTables.Start | src/agentic_context_service/application/showcase_source.py:66-123 | one call alone: the run's version if known, else the next one, else an error and no change |
| SourceMutation.AloneItIsStart | src/agentic_context_service/application/showcase_source.py:66-123 | the interleaved machine given one call ends where the method does |

## Left out

- HTTP routes, server-sent event transport and the clients of Kafka, OpenSearch, OPA and PostgreSQL: only their visible effect is modelled (external-version compare-and-set, durable append, checkpoint, unique insert, row lock).
- Index provisioning, aliases, mappings and health checks: every filtered field is treated as an exact keyword.
- Relevance scoring, kNN, cosine and the embedding models: arbitrary rankings and a deterministic embedder; freshness of vectors is not modelled.
- Proposal providers and language models: a proposal is an arbitrary optional input.
- Hash collisions (the digest and its 24-digit cut), request signing and header validation: SHA-256 is idealised as injective.
- Floating-point rounding: scores, weights and metrics are exact reals; ages are compared as exact microseconds.
- Characters outside ASCII in blank and alphanumeric tests; JSON typing beyond required, optional and ill-typed fields.
- The example agents, settings, command line, observability, dashboard, evaluator reports and `_percentile`.
- Field projection of search hits and lineage redaction in the OpenSearch adapter.
- Retrieval over the memory corpus through the retrieve operation: the theorems on retrieve requests cover the institutional corpora, those on memory search the memory operation.
- ShowcaseObjects.ShowcaseRegistry.ApplyCdcBundle: covers the call up to its await; what processing adds afterwards is in the interleaved ShowcaseRegistry machine.
- ShowcaseObjects.Resolve: runs with no other writer on its ledger; interleaved writers are in the ShowcaseRegistry machine.
- RankFusion.DominanceIsKept: the lower chunk must not repeat within a list; `RankFusion.RepeatsBreakDominance` shows why.
- RankingMetrics.NdcgIsNormalised: the discount is any positive strictly decreasing function, of which 1/log2(rank + 2) is one.
