# Abacus: a verified model of the inventory pipeline

Abacus turns RFID reads into inventory. Devices post batches of observations; a durable
ledger and queue accept each event once; event workers judge the reads of an item in a
bounded evidence window kept in process memory; a stable decision moves the item and
writes a transition; transitions are applied, at least once, to a quantity projection that
replenishment reads. Around this pipeline stand effective-dated catalog imports, policy
rules and replenishment tasks, a lease queue, a login throttle, refresh-token families and
store connectivity.

This project models these components as Dafny values, functions and classes, and proves
what they keep over every run. Database tables are maps, a database transaction is one
atomic step, and a raised exception rolls the tables back but not process memory: that gap
is what the evidence checkpoint is for.

`dafny verify dfyconfig.toml` checks everything.

## How the files fit together

| file | content |
|---|---|
| `basics.dfy`, `observations.dfy`, `finite_sums.dfy`, `ordered_dicts.dfy`, `sorting.dfy`, `ranks.dfy`, `bindings.dfy` | shared values: options, observations, sums over tables, insertion-ordered dictionaries, stable sorting, ranks and medians by counting, effective-dated bindings |
| `recent_observations.dfy`, `stable_zone.dfy` | the evidence window with its hand-written undo, and the stable-zone decision |
| `inventory.dfy`, `readings.dfy`, `removals.dfy`, `inventory_invariants.dfy`, `inventory_runs.dfy`, `inventory_store.dfy` | item states, transition outbox, projection and rebuild; what a read and a removal do by the fields of the item; the invariant; whole runs; the tables as a class |
| `inbox.dfy`, `inbox_invariants.dfy`, `acceptance.dfy`, `inbox_outcomes.dfy`, `inbox_store.dfy` | ledger, queue, batch links and counters; what acceptance, finalizing, failing and replaying write, row by row |
| `event_worker.dfy`, `event_worker_invariants.dfy`, `event_worker_outcomes.dfy`, `event_worker_runs.dfy`, `event_worker_process.dfy` | one worker transaction; evidence at most once; how each attempt ends and under which SKU it moves an item; runs of the whole pipeline with any number of workers; the worker loop as a class |
| `connectivity.dfy`, `connectivity_order.dfy`, `reconciliation_flags.dfy` | receipts, backlog and freshness; what the order within a receipt can change; the fail-closed flag of stores with a poisoned transition |
| `catalog.dfy`, `catalog_proofs.dfy`, `catalog_outcomes.dfy`, `catalog_runs.dfy`, `catalog_store.dfy` | row checks, preview, promotion, the synchronized hierarchy; what is written for each key by the order of the rows |
| `policy.dfy`, `policy_versions.dfy`, `policy_outcomes.dfy` | rule selection; the life of policy versions; every refusal and effect by the fields of rules and versions |
| `tasks.dfy`, `task_outcomes.dfy`, `task_histories.dfy`, `task_board.dfy`, `evaluation.dfy`, `pipeline_tasks.dfy` | replenishment tasks; what evaluations ask for and which task a move is credited to; what a row tells of its past; what an evaluation reads of the inventory; the task board run together with the pipeline |
| `jobs.dfy`, `throttle.dfy`, `sessions.dfy` | lease queue, login throttle, refresh-token families |

Each component has specification functions on values, lemmas about them, and a class whose
methods work field by field and row by row as the service does and are proved equal to
those functions. What the functions answer is said a second time without them, by the fields
of requests and rows: which refusal is given when, and what is written otherwise.

## Main results

- Conservation. In every state the whole pipeline can reach, failed and poisoned attempts
  included, for every bucket, projection quantity plus pending deltas plus deltas of
  quarantined rows not yet reconciled plus what the last committed rebuild lost equals the
  number of items there. So the equation without the last term holds exactly when that
  rebuild lost nothing; a good rebuild heals what earlier ones lost.
- The rebuild is split into its statements, with item transactions committing between any
  two of them. What it loses are the deltas of rows that are quarantined when it marks the
  quarantined rows but did not exist when it counted the items; it leaves the equation true
  exactly when they cancel out in every bucket. The comment at
  `src/abacus/services/streaming_inventory.py:1152-1155` promises more than the code does:
  a transition that arrives after the second pending check and is quarantined before the
  quarantined rows are marked is reconciled away uncounted. `RebuildCanLose` is such a run.
- Fail closed. A store touched by an unreconciled quarantined transition is flagged, never
  counts as live and is not evaluated. The flags are cleared in a statement of their own, so
  a rebuild exposes exactly the stores of rows quarantined between its last two statements
  (`RebuildCanExpose` is such a run); over every run the stores fail closed exactly when no
  such exposure is left.
- Evidence at most once. With any number of workers, crashes, retries, poison quarantine
  and operator replays, an event id sits in at most one window of one worker, only after
  its ledger row is processed, and processed is final.
- Restoring a checkpoint undoes whatever one event did to the evidence.
- Judging a read. The first check that a read fails decides how it ends; one that passes them
  all becomes evidence. A transition is recorded only for such a read, under the SKU of the
  binding in effect when it was made (for the replay of its own unknown-EPC quarantine, of the
  one open now), for the place where the item's reads of the time window, none of them from
  before that binding, decisively put it: more reads than any other place, or as many with a
  median at least 3 higher, the median said by counting values on either side.
- Acceptance. Each read of an accepted batch whose id is new gets the place its device had when
  the read was made and what the request says; reads queue in request order; a batch is refused
  exactly for its token, for a time without assignment or for an id known with other contents.
- Removal. An authoritative removal is accepted exactly when the item is located in the
  requested store and nothing of it is later than the event; each refusal has its exact guard,
  and in every reachable state each accepted one stands behind the last row of its item.
- Verification. In every run of pipeline and task board together, a task's verified quantity
  is the number of transitions credited to it, each of which moved one unit of its SKU from
  the backroom to the floor of its store after the task was started.
- Evaluation. In the same runs, with a positive minimum confidence, whatever an evaluation
  adds to a task is what the rule's target lacks and is in the backroom: the projection rows
  it reads equal the items located there. The test for that sees only places that have a row;
  floor and task stay within the target exactly when the items it does not see fit into what
  the backroom cannot supply (`EvaluationCanOvershoot` is a run where they do not).
- Task rows tell the truth about their past: in every run a started task was claimed before and
  a completed one started before, each move made by the claimant or a manager.
- Leases hold and jobs are not taken early. A session lets its user in, while user and tenant
  are active, exactly until it or its token runs out or an exchange, replay or logout ends it.
- Backlog and status do not depend on the order within a receipt. Stored freshness and the
  throttled live time do; which values some order ends with, and when all orders agree, is
  said exactly.
- Ledger, queue, links and batch counters always agree.
- A catalog promotion never changes how an earlier read resolves, its preview predicts its
  counts, and promoting again changes nothing.
- The selected rule is the one that matches and comes first: store before tenant, SKU before
  style before category before default, then priority. The rule overlap test finds exactly the
  pairs this order leaves undecided, so after any history of policy versions rule selection
  never refuses and ignores the order of the rules.

Where code and prose disagree the model follows the code. Two such places besides the
rebuild: the hierarchy keeps the last row of a style or SKU while the promotion keeps the
first, so the two agree exactly when these rows do (`ProductsAgreeIff`, `VariantsAgreeIff`),
which the row checks ensure; and the stored freshness depends on the order within a receipt
although the docstring at `src/abacus/services/streaming_inventory.py:586` rules that out
(`StoredFreshnessDependsOnOrder`; the exact conditions are `LiveTimeOrderIff` and
`FreshnessOrderIff`).

## Model

| member | source | states |
|---|---|---|
| RecentObservations.RestoreUndoes | src/abacus/services/streaming_inventory.py:217-256 | after any forget, remember and add steps of one event, restoring its checkpoint gives back every window and the set of event ids, an evicted oldest entry included; recency order too, except that the event's own old entries may stay at the recent end |
| RecentObservations.OpsStayBounded | src/abacus/services/streaming_inventory.py:178-215 | both dictionaries keep unique keys and stay within their maximum sizes |
| RecentObservations.AddWindows | src/abacus/services/streaming_inventory.py:193-215 | an addition changes only the window of its own EPC; another window can only be evicted whole |
| RecentObservations.Extended | src/abacus/services/streaming_inventory.py:203-212 | what is retained was in the window or is the new event, and spans at most the window length |
| RecentObservations.Retain | src/abacus/services/streaming_inventory.py:205-210 | exactly the reads from the cutoff and from the binding start on are kept |
| RecentObservations.Newest | src/abacus/services/streaming_inventory.py:203 | the latest event time of a window, attained by one of its reads |
| RecentObservations.RecentObservationState.RememberEvent | src/abacus/services/streaming_inventory.py:178-186 | the object's new state and answer are those of remembering on values |
| RecentObservations.RecentObservationState.AddObservation | src/abacus/services/streaming_inventory.py:193-215 | the object's new state and the retained reads are those of adding on values |
| RecentObservations.RecentObservationState.Restore | src/abacus/services/streaming_inventory.py:237-256 | the object's new state is the rewound one |
| StableZones.DecisionIsDecisive | src/abacus/services/streaming_inventory.py:275-317 | a zone is returned exactly when some location has enough reads and every other has fewer reads, or as many and by every median a strength at least 3 lower; it is that location, with the times of its latest read |
| StableZones.MedianIsMiddle | src/abacus/services/streaming_inventory.py:288 | the middle of the sorted strengths is the only median by counting: a value with at most half of the values on either side, or midway between the two neighbours that split an even number in half |
| Ranks.NothingBetween | src/abacus/services/streaming_inventory.py:288 | of an even number of values none lies strictly between the two that the median is midway between |
| StableZones.DecidedConfidence | src/abacus/services/streaming_inventory.py:259-272 | a returned decision has confidence between 0.40 and 1 |
| StableZones.ConfidenceRises | src/abacus/services/streaming_inventory.py:259-272 | more reads, a wider margin, a fresher and a healthier newest read never lower the confidence |
| StableZones.FullConfidenceIff | src/abacus/services/streaming_inventory.py:259-272 | confidence is 1 exactly with enough reads, no rival within 12, no delay and a healthy reader |
| StableZones.ConfidenceShares | src/abacus/services/streaming_inventory.py:271 | reads count for 0.40, margin and freshness for 0.25 each and reader health for 0.10 |
| StableZones.DecisionIgnoresOrder | src/abacus/services/streaming_inventory.py:275-317 | every permutation of the reads gives the same decision, confidence included |
| StableZones.RankedTop | src/abacus/services/streaming_inventory.py:284-297 | the first ranked location beats all others and the second beats all but the first, with exactly their reads |
| StableZones.GroupedIsReadsAt | src/abacus/services/streaming_inventory.py:281-283 | each group holds exactly the reads of its location, in order |
| StableZones.NewestRead | src/abacus/services/streaming_inventory.py:305 | a read of the group that no other read is newer than, ties broken by receipt and id |
| InventoryInvariants.Regroup | src/abacus/services/streaming_inventory.py:978-987 | summing over outbox rows is summing item by item over versions |
| InventoryInvariants.Telescope | src/abacus/services/streaming_inventory.py:890-990 | the deltas of one item's first n rows add up to one unit where row n arrives |
| InventoryInvariants.AllIsLocated | src/abacus/services/streaming_inventory.py:925-990 | the deltas of all rows add up, in every bucket, to the number of items located there |
| InventoryInvariants.BalancedConserves | src/abacus/services/streaming_inventory.py:1046-1089 | if the projection is the settled part of the outbox, projection plus open deltas equals the item count |
| InventoryInvariants.MoveKeeps | src/abacus/services/streaming_inventory.py:890-990 | a confirmed move keeps versions, chain, settledness and event references |
| InventoryInvariants.RemoveKeeps | src/abacus/services/business_events.py:148-199 | an authoritative removal keeps versions, chain, settledness and event references |
| Readings.ConcludesAs | src/abacus/services/streaming_inventory.py:868-1009 | an admitted read leaves its item open, confirms it where it is or moves it, each exactly under its condition, with every field of item and row that changes |
| Readings.ObservesAs | src/abacus/services/streaming_inventory.py:841-866 | a read that is outdated by what is known of the item, or of a removed item, changes nothing |
| Removals.RemovalOutcome | src/abacus/services/business_events.py:84-147 | a removal is created exactly when the store exists, the time is within the skew, the key is unused and the item is there, in the requested store, with nothing known of it later than the event; it is a repetition exactly when its key is known with the same fingerprint |
| Removals.RemovalRefusal | src/abacus/services/business_events.py:60-147 | each refusal is given exactly under its own condition |
| Removals.RemovalEffect | src/abacus/services/business_events.py:148-210 | a repetition changes nothing; a new removal takes one unit from where the item is, in one row, and marks the item removed |
| Removals.ReachableRemovals | src/abacus/services/business_events.py:148-210 | in every reachable state each accepted removal stands behind the last row of its item, which took one unit from a bucket of the requested store at the time of the event, and no item is removed twice |
| Removals.ReachableStatus | src/abacus/services/business_events.py:44-52 | in every reachable state an accepted removal shows as projected exactly when its row was applied or reconciled, as failed when it is quarantined and as pending otherwise |
| InventoryInvariants.ItemStepsKeep | src/abacus/services/streaming_inventory.py:841-990 | any sequence of item transactions keeps the row invariants, appends only pending rows and leaves the projection alone |
| InventoryRuns.RowsValidate | src/abacus/processes/event_worker.py:124-138 | every row the component writes passes delta validation |
| InventoryRuns.ValidationOutcome | src/abacus/processes/event_worker.py:124-138 | a row is applied only if it has deltas, all of its own transition and EPC, and none twice; each refusal has its guard |
| InventoryRuns.PendingIsFresh | src/abacus/services/streaming_inventory.py:1026-1045 | nothing of a pending row has been applied before, so its whole quantity moves |
| InventoryRuns.PublishOutcome | src/abacus/processes/event_worker.py:315-331 | publishing touches one row and records exactly its delta ids |
| InventoryRuns.PublishMovesStock | src/abacus/services/streaming_inventory.py:1046-1089 | publishing moves each bucket by the sum of the row's deltas there |
| InventoryRuns.PublishKeeps | src/abacus/processes/event_worker.py:281-337 | applying an earliest pending row keeps the whole invariant |
| InventoryRuns.ApplyAgain | src/abacus/services/streaming_inventory.py:1026-1045 | applying the same deltas again succeeds, applies none and changes nothing |
| InventoryRuns.NeverNegative | src/abacus/services/streaming_inventory.py:1046-1089 | if nothing was ever quarantined, an earliest pending row is always applicable |
| InventoryRuns.RebuildEffect | src/abacus/services/streaming_inventory.py:1093-1184 | a committed split rebuild keeps the row invariants; projection equals the item count it took, which falls short of the settled rows by exactly the deltas of rows quarantined when marked and not there when counted |
| InventoryRuns.RebuildConservesIff | src/abacus/services/streaming_inventory.py:1093-1184 | whatever was lost before, a committed rebuild leaves the conservation equation true if and only if the rows that are quarantined when it marks them, but were not there when it counted, cancel out in every bucket; none such is enough |
| InventoryRuns.RebuildCanLose | src/abacus/services/streaming_inventory.py:1152-1184 | a concrete run in which a committed rebuild breaks the equation although nothing was quarantined between its count and its second check |
| InventoryRuns.StepKeeps | src/abacus/processes/event_worker.py:281-337 | every transaction keeps the row invariants, and the whole invariant if and only if it is not a committed rebuild with lost deltas in some bucket |
| InventoryRuns.RunKeepsShortfall | src/abacus/services/streaming_inventory.py:1093-1184 | over any run the projection falls short of the settled rows by exactly what the last committed rebuild lost, or by as much as at the start if none committed |
| InventoryRuns.ReachableConserved | src/abacus/services/streaming_inventory.py:1046-1184 | in every reachable state and bucket, projection plus pending plus unreconciled quarantined deltas plus what the last committed rebuild lost equals the items located there; without the last term the equation holds if and only if that loss is zero in every bucket |
| InventoryRuns.ReachableNeverNegative | src/abacus/services/streaming_inventory.py:1046-1089 | in any run in which nothing was quarantined, delta application never hits a negative error |
| InventoryRuns.UnquarantinedLosesNothing | src/abacus/services/streaming_inventory.py:1152-1184 | if no row is or was quarantined by the end of a run, none of its rebuilds lost anything |
| InventoryRuns.RunKeepsBase | src/abacus/services/streaming_inventory.py:890-990 | the row invariants hold over every run, whatever its rebuilds lose |
| InventoryRuns.RowLasts | src/abacus/processes/event_worker.py:281-337 | an applied or poisoned row is never pending again |
| InventoryRuns.ReachableChains | src/abacus/services/streaming_inventory.py:890-990 | outbox versions of an EPC are exactly 1..state_version and each row leaves where the one before arrived |
| InventoryRuns.ReachableTimesRise | src/abacus/services/streaming_inventory.py:841-866 | observed times of an item's rows never decrease |
| InventoryRuns.RemovalIsFinal | src/abacus/services/streaming_inventory.py:856-866 | after an authoritative removal no later step adds a transition or a location |
| InventoryRuns.ProjectedIsFinal | src/abacus/services/business_events.py:44-52 | once a business event is reported as projected it stays projected |
| InventoryRuns.StepKeepsEvent | src/abacus/services/business_events.py:84-115 | an accepted business event is never replaced: its key is idempotent |
| InventoryStores.InventoryStore.ConcludeObservation | src/abacus/services/streaming_inventory.py:868-1009 | the tables and the disposition after an admitted read are those of the specification |
| InventoryStores.InventoryStore.AcceptAuthoritativeRemoval | src/abacus/services/business_events.py:55-210 | the tables after the request and its answer are those of the specification whose outcome RemovalOutcome, RemovalRefusal and RemovalEffect fix; unchanged on error |
| InventoryStores.InventoryStore.ApplyInventoryDeltas | src/abacus/services/streaming_inventory.py:1012-1090 | deltas not applied before are summed per bucket and added, all or nothing, and counted |
| InventoryStores.InventoryStore.RebuildInventoryProjection | src/abacus/services/streaming_inventory.py:1093-1184 | with nothing pending the projection becomes the item counts and quarantined rows are reconciled; otherwise nothing changes |
| InventoryStores.CountItems | src/abacus/services/streaming_inventory.py:1115-1150 | one count per occupied bucket, equal to the number of items there |
| InventoryStores.GroupByBucket | src/abacus/services/streaming_inventory.py:1046-1056 | the totals of exactly the buckets that occur |
| InventoryStores.UpsertBucket | src/abacus/services/streaming_inventory.py:1057-1089 | one bucket moves by its total, or the whole application fails when that would be negative |
| Inboxes.ResolveAssignment | src/abacus/services/rfid_ingress.py:72-83 | an assignment whose half-open interval covers the time, or none if there is none |
| Inboxes.BuildEvents | src/abacus/services/rfid_ingress.py:156-182 | one event for each read of the request, in order, with its id, the batch and no replay mark |
| Acceptances.BuiltAs | src/abacus/services/rfid_ingress.py:157-181 | each event is placed by the first listed assignment in force at its own observed time and carries what read and request say; none is built exactly when some read has no such assignment |
| Inboxes.LedgerWithKeys | src/abacus/services/rfid_ingress.py:221-227 | accepting inserts exactly the new ids; rows already there keep their content |
| InboxInvariants.RecountedOk | src/abacus/services/streaming_inventory.py:733-750 | recounting links leaves counters and status that say what the links say |
| InboxInvariants.FinalizeKeepsBatches | src/abacus/services/streaming_inventory.py:668-752 | finalizing a pending event always succeeds, sets its row and every link, and keeps every batch consistent |
| InboxInvariants.SucceedKeeps | src/abacus/processes/event_worker.py:234-243 | a committed attempt keeps ledger, queue, links and batches in agreement |
| InboxInvariants.RejectKeeps | src/abacus/services/streaming_inventory.py:387-417 | quarantine keeps the agreement and changes only the event's own outcome |
| InboxInvariants.FailKeeps | src/abacus/processes/event_worker.py:244-270 | a failed attempt keeps the agreement; the last allowed one rejects the event |
| InboxInvariants.ReplayKeeps | src/abacus/services/rfid_ingress.py:298-474 | replay keeps the agreement and always succeeds for a quarantined event of the ledger |
| InboxInvariants.LinksOfNewBatchWith | src/abacus/services/rfid_ingress.py:108-129 | counting a new batch by ledger status equals recounting its links |
| InboxInvariants.AcceptKeeps | src/abacus/services/rfid_ingress.py:132-294 | an accepted batch, retried events included, keeps the agreement |
| Acceptances.AcceptedRows | src/abacus/services/rfid_ingress.py:132-275 | in an accepted batch every read with a new id gets ledger and queue rows with its own EPC, time, strength, antenna and place and the device, receipt time and status of the request; known ids keep their rows and no other id comes in |
| Acceptances.AcceptedInOrder | src/abacus/services/rfid_ingress.py:262-275 | new reads of one request are queued in request order |
| Acceptances.AcceptanceRefusal | src/abacus/services/rfid_ingress.py:141-250 | a batch is refused exactly for its token, for a receipt or observed time without assignment, or for an id known with another payload, in this order |
| InboxOutcomes.AcceptedLinks | src/abacus/services/rfid_ingress.py:242-277 | an accepted batch is linked to each of its reads with the outcome it has by then, and counts those that have ended |
| InboxOutcomes.FinalizeOutcome | src/abacus/services/streaming_inventory.py:668-752 | an event ends once, in ledger and links, and exactly the batches that carry it are recounted; the failures have their guards |
| InboxOutcomes.QuarantineOutcome | src/abacus/services/streaming_inventory.py:387-417 | quarantine rejects the event and keeps the reason it was first quarantined for |
| InboxOutcomes.FailOutcome | src/abacus/processes/event_worker.py:252-265 | a failed attempt counts, and the last allowed one rejects the event and takes its row off the queue |
| InboxOutcomes.ReplayOutcome | src/abacus/services/rfid_ingress.py:298-474 | only a rejected event is queued again, as a replay of its quarantine with the read accepted first, and its batches are open again; each refusal has its guard |
| InboxInvariants.ReachableInboxOk | src/abacus/services/rfid_ingress.py:108-129 | in every reachable state: pending iff unpublished, links mirror the ledger, counters equal a recount, complete iff nothing pending, with errors iff something was rejected |
| InboxInvariants.StepRetains | src/abacus/services/streaming_inventory.py:689-691 | no step removes a ledger row, changes its observation or touches a processed row |
| InboxInvariants.ProcessedIsFinal | src/abacus/services/rfid_ingress.py:353-375 | a processed event keeps its row and stays published however the run goes on |
| InboxInvariants.CompleteBatchIsSettled | src/abacus/services/streaming_inventory.py:740-748 | a complete batch has no pending event, a completed one only processed events |
| InboxStores.InboxStore.AdvanceBatch | src/abacus/services/streaming_inventory.py:668-752 | finalization row by row equals the specification, errors leave the tables alone |
| InboxStores.InboxStore.QuarantineObservation | src/abacus/services/streaming_inventory.py:387-417 | the first reason of an event is kept and the event rejected |
| InboxStores.InboxStore.RecordFailure | src/abacus/processes/event_worker.py:249-270 | the attempt is counted, and the last allowed one quarantines and publishes the row |
| InboxStores.InboxStore.QueueQuarantinedReplay | src/abacus/services/rfid_ingress.py:298-474 | all error cases and the requeued state; its batches go back to processing with recounted totals |
| InboxStores.InboxStore.AcceptObservationBatch | src/abacus/services/rfid_ingress.py:132-294 | device mismatch, missing assignment and id conflict change nothing; otherwise exactly the specified rows are written |
| InboxStores.CountLinks | src/abacus/services/streaming_inventory.py:733-739 | the number of links of a batch with a status |
| InboxStores.SetLinks | src/abacus/services/streaming_inventory.py:699-714 | every link of the event gets the outcome, and exactly the batches that carried it are returned |
| InboxStores.ResolveEvents | src/abacus/services/rfid_ingress.py:156-182 | the events of a request, or none as soon as one time has no assignment |
| Bindings.Latest | src/abacus/services/catalog.py:1357-1369 | of the qualifying bindings one with the latest start, or none if there is none |
| EventWorkers.ProcessedWatermark | src/abacus/services/streaming_inventory.py:647-665 | the latest event time among processed ledger rows of the EPC |
| EventWorkers.DrainFromStart | src/abacus/processes/event_worker.py:204-208 | what remains at the first row is the whole pass |
| EventWorkers.DrainStep | src/abacus/processes/event_worker.py:208-276 | a pass takes one row and goes on unless the attempt failed without being terminal |
| EventWorkerOutcomes.BindingForIs | src/abacus/services/streaming_inventory.py:794-831 | the SKU of a read is that of the latest binding that covers its time; without one, only a replay of its own unknown-EPC quarantine gets the SKU of the binding open now; otherwise there is none |
| EventWorkerOutcomes.TakenAs | src/abacus/services/streaming_inventory.py:773-859 | an attempt without a fault commits, and the first check that the read fails decides its outcome; a read that becomes no evidence leaves the inventory alone |
| EventWorkerOutcomes.EvidenceConcludes | src/abacus/services/streaming_inventory.py:788-1009 | a read that becomes evidence concludes by the SKU of its binding, the reads kept of the item in the time window from the binding on, the decisive place among them and the newest processed read |
| EventWorkerOutcomes.RecordedMove | src/abacus/services/streaming_inventory.py:868-990 | a transition is recorded only for the EPC of a read that becomes evidence, and the item then has the SKU of that binding and the decisive place of that window |
| EventWorkerOutcomes.FaultedAs | src/abacus/processes/event_worker.py:238-276 | an attempt with a fault is counted and changes no inventory; the last allowed one rejects the event |
| EventWorkerOutcomes.RememberedIsDuplicate | src/abacus/services/streaming_inventory.py:769-771 | an event that this worker remembers ends as a duplicate and leaves inventory and windows alone |
| EventWorkerOutcomes.EndedIsSkipped | src/abacus/processes/event_worker.py:231-236 | a queue row whose event has ended is only taken off the queue |
| EventWorkerInvariants.EvidenceOnce | src/abacus/services/streaming_inventory.py:763-771 | an event id held in any window of any worker has a processed ledger row and is held nowhere else |
| EventWorkerInvariants.PendingIsNew | src/abacus/services/streaming_inventory.py:763-771 | a worker never finds a pending event among the ids it remembers, so no event ends as a duplicate |
| EventWorkerInvariants.AdmittedReadIsNewest | src/abacus/services/streaming_inventory.py:841-872 | a read that passes the late check stays in its window as a newest one, and nothing there predates the binding |
| EventWorkerInvariants.DecisionIsStorable | src/abacus/services/streaming_inventory.py:873 | a decision always names a place that exists |
| EventWorkerInvariants.AdmittedInventory | src/abacus/services/streaming_inventory.py:830-1009 | the inventory half of an admitted read is one observation step of the inventory |
| EventWorkerInvariants.AdmittedKeeps | src/abacus/services/streaming_inventory.py:755-1009 | an admitted read commits and keeps inbox, evidence and ledger rules |
| EventWorkerInvariants.UnusedKeeps | src/abacus/services/streaming_inventory.py:755-866 | a refused, late or removed read commits without becoming evidence and keeps all rules |
| EventWorkerInvariants.FaultKeeps | src/abacus/processes/event_worker.py:244-276 | a failed attempt restores the evidence contents and keeps all rules |
| EventWorkerRuns.ReachableSystemOk | src/abacus/processes/event_worker.py:204-373 | inbox agreement and exclusive evidence hold over every run of accepts, workers, faults, restarts, replays, removals, applications, failed applications and rebuilds, with workers and acceptance going on between the statements of a rebuild |
| EventWorkerRuns.EvidenceNeverAgain | src/abacus/processes/event_worker.py:204-276 | once a read was committed as evidence, no worker ever takes that event again in any later run |
| EventWorkerRuns.ProcessedStays | src/abacus/services/streaming_inventory.py:689-691 | over whole pipeline runs a processed event keeps its ledger row and is never queued again |
| EventWorkerRuns.RunProjects | src/abacus/processes/event_worker.py:176-373 | the inventory half of every pipeline run is a run of the inventory alone |
| EventWorkerRuns.ReachableConserved | src/abacus/processes/event_worker.py:176-373 | the same equation, with the loss of the last committed rebuild, in every state the pipeline can reach, transitions quarantined after failed attempts included, and the conservation equation exactly when that loss is zero |
| EventWorkerRuns.DrainInOrder | src/abacus/processes/event_worker.py:208-276 | within a pass no row is finished while an earlier one is pending; the rows before the stop are counted, the stopping row gained one attempt, later rows are untouched |
| EventWorkerRuns.DrainTouchesOnly | src/abacus/processes/event_worker.py:190-203 | a pass changes no ledger or queue row outside its selection |
| EventWorkerProcesses.EventWorker.ProcessedObservationWatermark | src/abacus/services/streaming_inventory.py:647-665 | the loop over the ledger returns the specified watermark |
| EventWorkerProcesses.EventWorker.CheckObservation | src/abacus/services/streaming_inventory.py:775-866 | the checks in order give the specified verdict |
| EventWorkerProcesses.EventWorker.ProcessObservation | src/abacus/services/streaming_inventory.py:755-1009 | evidence, tables and disposition after one observation are those of the specification |
| EventWorkerProcesses.EventWorker.TakeOne | src/abacus/processes/event_worker.py:208-276 | one row: commit, or rollback, restored evidence and a counted failure |
| EventWorkerProcesses.EventWorker.DrainRaw | src/abacus/processes/event_worker.py:204-276 | the loop is the specified pass: same state, same count, same stop |
| Connectivity.ReceiptFolds | src/abacus/services/streaming_inventory.py:579-622 | processing a current receipt's observations one by one gives its order-free outlook |
| Connectivity.ReceiptIgnoresOrder | src/abacus/services/streaming_inventory.py:588-622 | any order of one receipt's observations ends with the same backlog, oldest buffered time, last live receipt, coverage and status time |
| Connectivity.LateReceiptsChangeNothing | src/abacus/services/connectivity.py:51-63 | observations of older receipts, however interleaved, change nothing that the newest receipt decides |
| Connectivity.FreshnessIff | src/abacus/services/streaming_inventory.py:324-363 | a store is live exactly when it is caught up, covered, not awaiting reconciliation and both ages are within the live window; stale exactly when it is not caught up or an age is beyond the stale window |
| Connectivity.FreshnessFalls | src/abacus/services/streaming_inventory.py:324-363 | without an update freshness only falls as time passes, and ends stale |
| Connectivity.LatestUpdates | src/abacus/services/streaming_inventory.py:579-644 | heartbeat and last live receipt are the latest there were, whatever receipts come in whatever order |
| Connectivity.ReceiptLeaves | src/abacus/services/streaming_inventory.py:586-623 | after a receipt the backlog is drained exactly when it says so and live reads have resumed or nothing was buffered; the oldest buffered time is forgotten when live reads drain the backlog and otherwise the earliest there was |
| Connectivity.LockOutcome | src/abacus/services/connectivity.py:51-65 | a receipt moves the status only when none newer has, and bad news makes the stored freshness stale at once |
| Connectivity.NewStoreIsStale | src/abacus/services/connectivity.py:27-39 | a store starts stale and stays so until a live event is known |
| Connectivity.StoredFreshnessDependsOnOrder | src/abacus/services/streaming_inventory.py:579-622 | for reads as ingress makes them and windows the settings allow, stored freshness and the throttled live time do depend on the order: two live observations, and a live with a buffered one when readers lack coverage |
| ConnectivityOrder.LiveEndsExact | src/abacus/services/streaming_inventory.py:603-614 | some order of the observations ends with a live time if and only if it is the time of an observation that reaches the flush distance and that no other such one would replace, or the old time if none reaches it |
| ConnectivityOrder.LiveTimeOrderIff | src/abacus/services/streaming_inventory.py:603-614 | all orders end with the same live time if and only if, of the live times that reach the flush distance, all but the greatest lie at least that distance below it |
| ConnectivityOrder.FreshnessFolds | src/abacus/services/streaming_inventory.py:579-622 | the freshness a current receipt stores in one order: that of its final live time, unless coverage is bad and a buffered observation comes last, or nothing live was computed |
| ConnectivityOrder.FreshnessEndsExact | src/abacus/services/streaming_inventory.py:579-622 | some order of a current receipt stores a freshness if and only if a possible final live time computes it, or it is stale and a buffered observation may come last without coverage |
| ConnectivityOrder.FreshnessOrderIff | src/abacus/services/streaming_inventory.py:579-622 | all orders of a current receipt store the same freshness if and only if its backlog is not drained, nothing in it is live, or every possible final live time computes the same freshness, stale if it lacks coverage and has a buffered observation |
| ReconciliationFlags.NeverLive | src/abacus/services/streaming_inventory.py:324-363 | while stores fail closed, a store with an unreconciled quarantined transition is live at no time |
| ReconciliationFlags.SpoiledIsNotEvaluated | src/abacus/services/replenishment.py:856-872 | while stores fail closed, evaluating such a store changes no task and reports suppressed connectivity |
| ReconciliationFlags.FailedKeeps | src/abacus/processes/event_worker.py:103-173 | quarantining a transition flags every store it touches and unflags none |
| ReconciliationFlags.FailureOutcome | src/abacus/processes/event_worker.py:141-173 | a failed transition counts its attempt; the last allowed one quarantines it and holds back the stores involved in it, or every store when none of those is known |
| ReconciliationFlags.WatchedIsInventory | src/abacus/services/streaming_inventory.py:1093-1184 | what a step does to the inventory is what the inventory alone does: the flags only watch |
| ReconciliationFlags.RebuildExposes | src/abacus/services/streaming_inventory.py:1169-1184 | a committed rebuild leaves unflagged with an unreconciled quarantined transition exactly the stores that one spoils when the flags are cleared; stores fail closed afterwards if and only if no row is quarantined |
| ReconciliationFlags.RunExposes | src/abacus/processes/event_worker.py:281-371 | over any run a store is exposed if and only if the last committed rebuild exposed it, or it was before, and no attempt that quarantined a row reaching the store followed |
| ReconciliationFlags.ReachableFailsClosed | src/abacus/processes/event_worker.py:141-173 | in every reachable state every touched store has its connectivity row, and stores fail closed if and only if the run left none exposed |
| ReconciliationFlags.RebuildCanExpose | src/abacus/services/streaming_inventory.py:1169-1184 | a concrete run after whose rebuild a store with an unreconciled quarantined transition is effectively live |
| Connectivity.StoreConnectivity.UpdateConnectivity | src/abacus/services/streaming_inventory.py:625-644 | locking and applying together give the specified row |
| CatalogProofs.NoIssuesIffConsistent | src/abacus/services/catalog.py:399-473 | no row is reported exactly when no two rows of the file contradict each other |
| CatalogOutcomes.IssuesReported | src/abacus/services/catalog.py:399-473 | a row is reported against the first earlier row of its style, SKU, UPC and EPC, each exactly when it differs from that row in what must agree |
| CatalogProofs.ReboundOpen | src/abacus/services/catalog.py:1093-1136 | a promotion keeps an EPC's intervals disjoint, at most the last open, and open for the file's SKU if listed |
| CatalogProofs.PromotionResolves | src/abacus/services/catalog.py:1093-1136 | earlier reads resolve as before; later ones to the file's SKU, or unlisted ones unchanged under delta and to nothing under full imports |
| CatalogProofs.PromotionKeepsOk | src/abacus/services/catalog.py:1008-1144 | a promotion keeps foreign keys, unique UPCs and timelines |
| CatalogProofs.PromotableIffNoConflicts | src/abacus/services/catalog.py:512-548 | a consistent file is promotable exactly when no row conflicts with the stored catalog |
| CatalogOutcomes.PromotionRefused | src/abacus/services/catalog.py:1019-1038 | a promotion is refused as a conflict exactly when the first row of some SKU has the UPC of another SKU or the SKU is stored under another style |
| CatalogOutcomes.StyleWritten | src/abacus/services/catalog.py:1040-1132 | a listed style is what its first row says; an unlisted one is switched off by a full import only |
| CatalogOutcomes.SkuWritten | src/abacus/services/catalog.py:1063-1128 | the same for SKUs |
| CatalogOutcomes.ProductWritten | src/abacus/services/catalog.py:1169-1252 | a product is what the last row of its style says, uncategorized without a category |
| CatalogOutcomes.VariantWritten | src/abacus/services/catalog.py:1206-1257 | a variant is active exactly when some row is of its style and color, or a delta import does not list it and it was |
| CatalogOutcomes.ReferenceWritten | src/abacus/services/catalog.py:1227-1260 | a SKU refers to the variant of its last row and a tag to the SKU of its last row; the others stay, tags switched off by a full import |
| CatalogRuns.PreviewPredicts | src/abacus/services/catalog.py:583-641 | the counts of the preview are the changes between the catalogs before and after the promotion |
| CatalogRuns.PromotingAgainChangesNothing | src/abacus/services/catalog.py:1008-1144 | promoting the same rows again is accepted and writes nothing |
| CatalogRuns.SecondPreviewIsUnchanged | src/abacus/services/catalog.py:583-641 | the second preview reports every supplied entity as unchanged and nothing else |
| CatalogRuns.TagsStayInStep | src/abacus/services/catalog.py:1223-1260 | active tags stay equal to open bindings |
| CatalogRuns.ProductsAgreeIff | src/abacus/services/catalog.py:1173-1199 | products stay equal to styles, category included, if and only if the first and the last row of each style say the same about it |
| CatalogRuns.ProductsStayInStep | src/abacus/services/catalog.py:1173-1199 | products stay equal to styles for files without contradictions |
| CatalogRuns.ProductsCanDisagree | src/abacus/services/catalog.py:1173-1199 | without the row checks one promotion can leave a product different from its style |
| CatalogRuns.VariantsAgreeIff | src/abacus/services/catalog.py:1201-1255 | every active SKU keeps referring to the active variant of its style and color if and only if the first and the last row of each SKU name the same ones |
| CatalogRuns.VariantsStayInStep | src/abacus/services/catalog.py:1201-1255 | for files without contradictions every active SKU refers to the active variant of its style and color |
| CatalogRuns.ReachableInStep | src/abacus/services/catalog.py:1263-1340 | after any sequence of validated imports tables are well formed and both representations agree |
| CatalogRuns.ImportsKeepHistory | src/abacus/services/catalog.py:1343-1369 | what an EPC resolved to at any past moment is never changed by later imports |
| CatalogStores.ValidateBatchConsistency | src/abacus/services/catalog.py:399-473 | every row gets the issues it has against the first rows of its keys |
| CatalogStores.EntityData | src/abacus/services/catalog.py:551-561 | the first row of each style and SKU and the last of each EPC |
| CatalogStores.PromoteStyles | src/abacus/services/catalog.py:1032-1055 | the style table after the loops and its counters, equal to the previewed ones |
| CatalogStores.PromoteSkus | src/abacus/services/catalog.py:1057-1085 | the SKU table after the loops and its counters, equal to the previewed ones |
| CatalogStores.PromoteBindings | src/abacus/services/catalog.py:1087-1136 | the bindings after the loops and their counters, equal to the previewed ones |
| CatalogStores.SyncHierarchy | src/abacus/services/catalog.py:1147-1260 | products with their category, variants, SKU references and tags after the loops are the specified ones |
| CatalogStores.CatalogStore.PromoteImport | src/abacus/services/catalog.py:1263-1340 | catalog and hierarchy change together or not at all, and the reported counts are the previewed ones |
| Policies.OverlapIffAmbiguous | src/abacus/services/replenishment.py:201-217 | two well-formed rules overlap exactly when some store and item make both apply at equal precedence and priority |
| Policies.SelectIsOnlyBest | src/abacus/services/replenishment.py:181-198 | a rule is selected exactly when it is the only best applicable one; none exactly when nothing applies |
| Policies.SelectedIsFirst | src/abacus/services/replenishment.py:151-198 | nothing is selected exactly when no rule matches by its fields; a rule is selected exactly when it matches, is listed once and comes before every other matching one: store over tenant, SKU over style over category over default, then higher priority |
| PolicyOutcomes.StoreDefaultNeverApplies | src/abacus/services/replenishment.py:176-178 | a rule of a store without a selector, which the checks refuse, never applies |
| Policies.OverlapIffUndecided | src/abacus/services/replenishment.py:201-217 | two stored rules overlap exactly when some store and item match both and neither comes first |
| Policies.SelectionIgnoresOrder | src/abacus/services/replenishment.py:181-198 | the selection, refusal included, does not depend on the order of the rules |
| Policies.DisjointNeverAmbiguous | src/abacus/services/replenishment.py:181-217 | rules that pass the overlap test never make selection refuse |
| Policies.FirstOverlap | src/abacus/services/replenishment.py:220-227 | a pair is found exactly when some pair overlaps, and it does |
| PolicyVersions.ActivateKeeps | src/abacus/services/replenishment.py:756-833 | activation keeps one active version per policy and no clash between active rules |
| PolicyVersions.ActiveSelection | src/abacus/services/replenishment.py:879-890 | whatever order the active rules are listed in, selection succeeds with the same result |
| PolicyVersions.ReachableSelection | src/abacus/services/replenishment.py:704-833 | in every run of creating, patching, cloning and activating, selection never refuses and ignores rule order |
| PolicyVersions.VersionsFreeze | src/abacus/services/replenishment.py:724-733 | a version that left DRAFT keeps its rules, a retired one never changes |
| PolicyOutcomes.ProblemReported | src/abacus/services/replenishment.py:264-372 | which problem of a set of rules is reported, by the fields of rules and of what they may refer to |
| PolicyOutcomes.CreateOutcome | src/abacus/services/replenishment.py:576-612 | a new policy starts with a first draft of its rules, if they are accepted |
| PolicyOutcomes.PatchOutcome | src/abacus/services/replenishment.py:704-753 | rewriting replaces the rules of a draft by accepted ones and nothing else; each refusal has its guard |
| PolicyOutcomes.CloneOutcome | src/abacus/services/replenishment.py:615-701 | a clone is a draft with the rules of the active version, or without one of the latest, and the next number of its policy |
| PolicyOutcomes.CloneIsPossible | src/abacus/services/replenishment.py:630-669 | whatever has a version can be cloned |
| PolicyOutcomes.ActivateOutcome | src/abacus/services/replenishment.py:756-833 | a draft becomes the active version of its policy, and retires the one before, exactly when it has rules, they are accepted and no active rule of another policy leaves an item undecided with one of them |
| PolicyOutcomes.DraftToActive | src/abacus/services/replenishment.py:576-833 | accepted rules can be drafted, activated and cloned in this order |
| PolicyVersions.PolicyStore.Patch | src/abacus/services/replenishment.py:704-753 | only drafts change, only to valid rules that name usable stores, SKUs, styles and categories; each refusal in the order of the checks |
| PolicyVersions.PolicyStore.Activate | src/abacus/services/replenishment.py:756-833 | all refusals, the repeated rule checks included, and the switch are those of the specification |
| Tasks.RepeatedEvaluation | src/abacus/services/replenishment.py:111-123 | n evaluations with unchanged stock and rule ask for min(target - floor, asked + n * backroom); floor plus task never passes target |
| Tasks.EvaluateKeeps | src/abacus/services/replenishment.py:1028-1068 | an evaluation keeps at most one active task per store and SKU, only raises versions and leaves verified tasks alone |
| Tasks.PatchKeeps | src/abacus/services/replenishment.py:1134-1246 | moving a task on keeps the board rules and raises its version |
| Tasks.CreditKeeps | src/abacus/services/streaming_inventory.py:562-576 | crediting a move keeps verified quantity equal to the evidence rows and within the quantity |
| Tasks.ChosenTask | src/abacus/services/streaming_inventory.py:528-560 | when some task is eligible for a move, exactly one comes first in the preference order, and it is the chosen one |
| Tasks.AttributedKeeps | src/abacus/services/streaming_inventory.py:498-576 | attributing any move keeps the board rules and rows, verified tasks included |
| Tasks.ShortageAccounted | src/abacus/services/replenishment.py:1028-1068 | every shortage of a trusted SKU with a rule is either asked for by its task or reported as deferred |
| TaskOutcomes.EvaluationOutcome | src/abacus/services/replenishment.py:1009-1068 | an evaluation asks for exactly what is missing of a trusted SKU with a rule: in a new task, in the open one, or not at all while somebody works on it |
| TaskOutcomes.ReportOutcome | src/abacus/services/replenishment.py:1009-1068 | the report counts the untrusted SKUs and those put off, and adds up what is put off |
| TaskOutcomes.DeferredIs | src/abacus/services/replenishment.py:1048-1056 | only the shortage of a SKU that somebody works on already is put off, and the whole of it |
| TaskOutcomes.OnlyLiveStores | src/abacus/services/replenishment.py:856-872 | a store is evaluated exactly when its connectivity row says it is live; otherwise nothing changes and the report says so |
| TaskOutcomes.AttributionOutcome | src/abacus/services/streaming_inventory.py:498-576 | a move is credited exactly when it restocks the floor from the backroom, is not evidence yet and a task waits for it: to the one that comes first, which gains one verified unit |
| TaskOutcomes.OneComesFirst | src/abacus/services/streaming_inventory.py:548-556 | the order of the waiting tasks leaves no choice |
| TaskOutcomes.VerificationIff | src/abacus/services/replenishment.py:53-67 | only completed tasks count; one that is not filled counts as unverified from its deadline on |
| TaskOutcomes.VerdictAfterDeadline | src/abacus/services/streaming_inventory.py:536-546 | once a task counts as unverified, no move observed after its deadline changes it |
| TaskHistories.PatchOutcome | src/abacus/services/replenishment.py:1134-1237 | anybody may claim an open task, only its claimant or a manager works on it, only managers end it before it is over, and only on the version seen; each refusal has its guard |
| TaskHistories.RowsTellThePast | src/abacus/services/replenishment.py:1198-1229 | in every run the claimant of a row claimed the task, a started task was claimed before and started by its claimant or a manager at that time, and a completed one was started before that |
| TaskHistories.LifeOfATask | src/abacus/services/replenishment.py:1134-1246 | a concrete run in which a task is asked for, claimed, started, verified by a move and completed |
| Tasks.ReachableBoardOk | src/abacus/services/replenishment.py:1028-1068 | the board rules hold in every state reachable from an empty board |
| Tasks.RunKeeps | src/abacus/services/replenishment.py:53-67 | over any run the board rules hold, versions rise with every change, evidence keeps its task and verified tasks are final |
| TaskBoards.TaskBoard.EvaluateStore | src/abacus/services/replenishment.py:856-1068 | only a live store is evaluated; tasks and report after the loop over snapshots are the specified ones |
| TaskBoards.TaskBoard.AttributeMove | src/abacus/services/streaming_inventory.py:498-576 | a move from the backroom to the floor credits the preferred eligible task; any other move, no eligible task or a move that is evidence already changes nothing |
| PipelineTasks.MoveIsNew | src/abacus/services/streaming_inventory.py:925-1007 | the transition of a recorded move is new, so crediting it never violates the unique constraint |
| PipelineTasks.MoveOutcome | src/abacus/services/streaming_inventory.py:925-1007 | a read is offered to the tasks exactly when it adds a row for an item known in the same store under the same SKU, as a move from there to the place decided on |
| PipelineTasks.CreditIsBacked | src/abacus/services/streaming_inventory.py:498-576 | a credited move has its outbox row, which takes one unit of the task's SKU from the backroom to the floor of its store after the task was started |
| PipelineTasks.PipelineCredits | src/abacus/services/streaming_inventory.py:925-1007 | from every state that satisfies the rules runs keep, a pipeline transaction credits exactly the row it records that restocks a floor some task waits for, to the first such task, and otherwise changes no task |
| PipelineTasks.RebuildKeeps | src/abacus/services/streaming_inventory.py:1093-1184 | whatever workers, evaluations and task changes commit between the statements of a rebuild, inbox, evidence, board and inventory rules hold after it |
| PipelineTasks.RunHalves | src/abacus/processes/event_worker.py:176-373 | the pipeline half of every run with the board is a run of the pipeline alone |
| PipelineTasks.VerifiedMeansMoved | src/abacus/services/streaming_inventory.py:498-576 | in every run of pipeline and board together, a task's verified quantity is the number of transitions credited to it, within its quantity, each a backroom-to-floor move of its SKU in its store observed after its start |
| PipelineTasks.CreditNeverConflicts | src/abacus/services/streaming_inventory.py:990-1007 | in every reachable state the next move a worker records is not evidence yet |
| PipelineTasks.AskedIsThere | src/abacus/services/replenishment.py:892-1068 | in every reachable state, an addition to a SKU's task is what the selected rule's target lacks, capped by the backroom items with a row; the rows read equal the items located there, and their open deltas and the last rebuild's loss cancel out |
| Evaluations.MismatchPassesIff | src/abacus/services/streaming_inventory.py:131-150 | a row that differs from its item count passes the confidence test if and only if the minimum is not positive |
| Evaluations.ConfirmedConfidence | src/abacus/services/streaming_inventory.py:131-148 | a row that the items confirm is trusted as far as its least trusted item, and fully when it is empty |
| Evaluations.LocatedCounts | src/abacus/services/streaming_inventory.py:105-128 | what counts as located is every item of the SKU whose place is a zone of that kind in the store, once |
| Evaluations.ProjectedMore | src/abacus/services/replenishment.py:902-984 | a projection row counts exactly when it is of the SKU and of a zone of that kind in the store |
| Evaluations.EvaluatesIff | src/abacus/services/replenishment.py:856-1027 | a store is evaluated exactly when it is live, rules are active and no trusted SKU has tied rules |
| Evaluations.Lowest | src/abacus/services/streaming_inventory.py:94-128 | the lowest aged confidence of the items in a bucket, attained by one of them, or none if it is empty |
| Evaluations.ConfirmedCounts | src/abacus/services/replenishment.py:949-983 | rows that equal their item counts add up to the items of the SKU in zones of that kind that have a row |
| Evaluations.EvaluationBears | src/abacus/services/replenishment.py:1009-1068 | the task of one SKU grows by nothing, or by exactly what that SKU's own trusted snapshot and rule require |
| Evaluations.ReadSnapshots | src/abacus/services/replenishment.py:949-984 | for every SKU, one pass over the projection rows gathers its floor and backroom quantities and its lowest row confidence, capped by 1 |
| Evaluations.ReadsSnapshot | src/abacus/services/replenishment.py:896-984 | what is gathered with the items' metadata is the snapshot that the evaluation goes by |
| Evaluations.AskedRestsOnItems | src/abacus/services/replenishment.py:892-1068 | the same for one evaluation of any board and inventory; floor and task stay within the target if and only if the floor items without a row fit into what the backroom cannot supply |
| Evaluations.EvaluationCanOvershoot | src/abacus/services/replenishment.py:909-983 | a concrete run after which an item on the floor without a projection row is not seen and the task passes the target |
| Jobs.AttemptsWithinBudget | src/abacus/services/jobs.py:44-129 | no job is attempted more often than the budget |
| Jobs.JobStays | src/abacus/services/jobs.py:132-220 | jobs are never removed, and completed or quarantined ones never change |
| Jobs.LostJobIsLost | src/abacus/services/jobs.py:132-220 | a worker that lost a job cannot renew, complete or fail it until it claims it again |
| Jobs.FinitelyManyChanges | src/abacus/services/jobs.py:44-129 | status changes and attempts of a job are bounded by its remaining budget |
| Jobs.RetryDelays | src/abacus/services/jobs.py:213-218 | retry delays never shrink and the 300 second cap is never reached |
| Jobs.ClaimedJob | src/abacus/services/jobs.py:65-128 | a job is leased only when it waits no longer or its lease has run out and it has budget left, and quarantined by a claim only without |
| Jobs.PassedOver | src/abacus/services/jobs.py:96-122 | no claimable job is passed over for a younger one, or while the limit is not reached |
| Jobs.OverBudget | src/abacus/services/jobs.py:65-95 | a due job without budget is quarantined, unless as many older ones are as one claim may |
| Jobs.LeaseHolds | src/abacus/services/jobs.py:96-161 | in any run a live lease is never taken away: until some claim looks at the clock after its end, the worker keeps every job it does not give back |
| Jobs.NotBeforeItsTime | src/abacus/services/jobs.py:96-122 | in any run a waiting job is left alone until some claim looks at the clock after its time |
| Jobs.AttemptEnds | src/abacus/services/jobs.py:164-220 | only the worker that holds a job completes or fails it; a failure waits twice as long each time up to 256 seconds, or is the last |
| Jobs.RenewalOutcome | src/abacus/services/jobs.py:132-161 | a lease is renewed by its holder while it runs, and for no one else |
| Jobs.JobQueue.ClaimJobs | src/abacus/services/jobs.py:44-129 | the oldest exhausted jobs are quarantined and the oldest claimable ones leased, within their limits |
| LoginThrottles.RunKeeps | src/abacus/security.py:238-355 | in every interleaving, clock readings in any order, each window counts its unfinished and retained reservations, between one and its limit, and windows stay within the maximum |
| LoginThrottles.FinishIsSafe | src/abacus/security.py:323-355 | however a run goes on, finishing a finished reservation changes nothing, and finishing any reservation touches no window but the two it was reserved in |
| LoginThrottles.BeginOutcome | src/abacus/security.py:271-321 | an attempt is admitted exactly when neither the running window of the address nor that of the account has reached its limit and the running windows leave room |
| LoginThrottles.BeginEffect | src/abacus/security.py:309-320 | an admitted attempt holds one place in each of its two windows; every other running window stays |
| LoginThrottles.FinishGivesBack | src/abacus/security.py:323-355 | the address gets its place back from an aborted attempt only, the account also from a successful one; a wrong password costs both |
| LoginThrottles.RetryAfterIsSound | src/abacus/security.py:289-300 | after Retry-After no window that was at its limit still runs, and the announcement is less than a second too long |
| LoginThrottles.CapacityRetryIsSound | src/abacus/security.py:265-269 | after a refusal for lack of room some window has ended by the announced time, and none had ended a second before |
| LoginThrottles.LoginThrottle.BeginAttempt | src/abacus/security.py:271-321 | the decision, that of a disabled throttle included, and the windows are those of the specification |
| LoginThrottles.LoginThrottle.CapacityRetryAfter | src/abacus/security.py:265-269 | the soonest end of any window, or a whole window without any, in whole seconds rounded up and at least one |
| Sessions.StepKeepsCurrent | src/abacus/services/identity.py:588-695 | every step keeps exactly one non-rotated session per family |
| Sessions.OneAcceptedPerFamily | src/abacus/security.py:524-535 | at any time at most one session of a family is accepted |
| Sessions.AcceptedIff | src/abacus/security.py:503-535 | whatever happens after a session was made, a token of it is accepted exactly as long as neither has run out, no exchange, replay or logout ended the session, and user and tenant are active |
| Sessions.RotateOutcome | src/abacus/services/identity.py:640-695 | an exchange succeeds exactly when its token is of a standing session within its lifetime and user and tenant are active; it is reported as reuse exactly when the session was replaced |
| Sessions.RotateReplaces | src/abacus/services/identity.py:685-695 | the new session is of the same user and family and lasts a whole lifetime; the old one is ended and no other touched |
| Sessions.RotateRefuses | src/abacus/services/identity.py:644-683 | a refused exchange ends the family of a replayed token, or a session that may not go on, or nothing |
| Sessions.OnlyIssuedTokens | src/abacus/security.py:517-535 | a token is accepted only if it matches its session and the present version of its user |
| Sessions.LoginStands | src/abacus/services/identity.py:588-619 | a login makes a standing session of the user and changes nothing else |
| Sessions.ReuseEnds | src/abacus/services/identity.py:650-661 | presenting a rotated token ends the family |
| Sessions.LogoutEnds | src/abacus/services/identity.py:698-724 | logging out the current session ends the family |
| Sessions.EndedForever | src/abacus/services/identity.py:622-695 | an ended family has no usable session in any later state |
| Sessions.ReuseLocksOut | src/abacus/services/identity.py:650-661 | after a reuse nobody is accepted by any session of that family again |
| Sessions.OldVersionsStayOut | src/abacus/services/identity.py:698-710 | tokens of an older token version are never accepted again |
| Sessions.SuspendedStayOut | src/abacus/security.py:517-523 | from a suspension of the user or the tenant on, until it is lifted, no token of the user is accepted |

## Left out

- HTTP routes, schemas, logging, command line, supervision and demo scripts.
- SQL text, row-level security and migrations: uniqueness, foreign keys and checks are table well-formedness, locks are atomicity, except in the rebuild whose statements are separate steps.
- Tenants: every table is that of one tenant, and the tenant half of keys is folded into the key.
- Hashing, tokens and passwords, deterministic ids and payload fingerprints: opaque injective values. Identifiers are integers, so string order of zone ids is integer order.
- CSV and JSON decoding and normalization: catalog rows, their category entry and observations start normalized, and the recovery of an undecodable queue payload is not modelled.
- Half-life decay of confidence, the confidence, freshness and as-of copies of projection rows, and rounding to four digits: confidence and signal strength are reals.
- Wall clocks: times are parameters, non-decreasing where the code uses one clock.
- InventoryStores.InventoryStore.ConcludeObservation: the tables of the inventory only; crediting the move to a task is proved beside it, in PipelineTasks.
- InventoryStores.InventoryStore.ApplyInventoryDeltas: quantities only; the as-of time, confidence and freshness that projection rows copy decide nothing proved here.
- InventoryStores.InventoryStore.RebuildInventoryProjection: one undisturbed rebuild; interleaving is the subject of RebuildEffect and the reset of the reconciliation flags that of RebuildExposes.
- InventoryStores.CountItems: quantities only, without the latest time and lowest confidence of a bucket.
- InventoryStores.UpsertBucket: quantity and the negative error only, without as-of time, confidence and freshness.
- InboxStores.InboxStore.AcceptObservationBatch: the connectivity row of the store, locked in the same transaction, is a component of its own.
- EventWorkerProcesses.EventWorker.ProcessObservation: the connectivity update and the task credited in the same transaction are components of their own.
- ReconciliationFlags.ReachableFailsClosed: a decision for a store without a connectivity row is not a step, because each read writes the row of its store before it becomes evidence.
- InboxInvariants.AcceptKeeps: assumes that batch ids are new and event ids unique within a request, which the request schema enforces.
- CatalogProofs.PromotionResolves: assumes that the database clock is past every stored binding boundary.
- CatalogStores.CatalogStore.PromoteImport: import status, job checkpoints and the choice of the reported error among several conflicts are not modelled; the two tables are fields that hold values.
- Jobs.JobQueue.ClaimJobs: rows locked elsewhere are a parameter, and ties of creation time may fall either way.
- LoginThrottles.LoginThrottle.BeginAttempt: window and reservation objects are numbered rows instead of heap objects; identity of windows is equality of numbers.
- EventWorkerProcesses.EventWorker.DrainRaw: the selection query is a parameter, and an exception is a fault at an arbitrary point given as a parameter.
- EventWorkerRuns.ReachableSystemOk: connectivity rows are not part of the composite state, and the task board is added to it in PipelineTasks.
- TaskBoards.TaskBoard.EvaluateStore: stock, confidence and the selected rule come as one snapshot per SKU; how they follow from projection, items and rules is proved beside it, in Evaluations.
- PipelineTasks.AskedIsThere: connectivity of the store, the list of SKUs, aged confidence and the active rules are given with each evaluation.
- PolicyVersions.PolicyStore.Patch: upper-casing and case folding of labels are one arbitrary function, and what rules may refer to is read at one moment.
- Tasks.RunKeeps: the status check and the version check of a patch are one atomic step.
- The worker's look-up of device and assignment: the place of a read, or the reason it has none, is given with each attempt.
- Roles, permissions, legacy grants, pagination, onboarding and device credentials.
- Deleting inventory buckets: a bucket without a projection row reads as zero stock.
