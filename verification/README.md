# Verified model of the memory store's agreement protocols

The memory server keeps one body of knowledge in several places: SQLite rows, receipts, an
outbox, a vector index, a graph snapshot and lock files. This project models the code that keeps
them in agreement while rows are deduplicated, indexed, rebuilt or contended for, and proves what
that code guarantees over every input, every run and every interleaving.

| files | component |
|---|---|
| `Options`, `Text`, `Ordering`, `Grouping` | Python strings, tuple order, sorting, keyset paging, grouping |
| `Dedup` | the dedup keys of facts and decisions |
| `FactTables`, `FactChecks`, `FactPaths`, `FactMigration`, `FactOutcome`, `FactDatabase`, `FactWitnesses` | the fact dedup migration, its self-checks, what it does in plain fields, and tables that fail it |
| `Outbox`, `OutboxProtocol` | the outbox repository and its protocol among many workers |
| `OutboxSingles`, `Journal`, `OutboxBatch`, `OutboxLeftovers`, `OutboxPolling`, `OutboxRefinement` | the worker: entries one at a time, chunks with their fallback, what failed calls leave, polling, and why its work is a run of the protocol |
| `ProjectionRecords`, `ProjectionMeaning`, `ProjectionGraph`, `GraphVerifier`, `RebuildRun` | canonical rows and what is derived from them, the two graph derivations, the artifact verifier, the resumable rebuild |
| `VectorPoints` | which point of the vector store a row gets from the worker and from the rebuild |
| `Decisions`, `DecisionDatabase`, `DecisionReads` | the two decision migrations, `find_existing`, the `get_context` collapse |
| `FactLookup` | the fact lookup with its LIKE prefilter, the FTS5 query builder |
| `Lifecycle`, `LifecycleRuns` | the compare-and-swap of one transition, and sessions interleaved |
| `StorageLocks`, `LockRuns` | root locks and maintenance locks, and their owners interleaved |
| `Ndcg`, `Baseline` | the ranking metric and the built-in baseline |

Code that changes state is modelled as classes and methods, each specified by functions of the old
state; the protocols are state machines whose steps use those same functions.

## Results

- **Fact migration.** `Upgrade` ends exactly as `StopOf` says from the tables it starts with and
  the parameter limit. Of the data self-checks after the preflight only three can fire: the
  parameter budget, the backfill count (a fact whose id is the empty string, which the pager starts
  after), and the deleted outbox count. The last fires exactly when an entry of another type shares a
  deleted fact's `record_id` with a fact entry, because the DELETE names no record type
  (`migrations/versions/b2f3a4c5d6e7_add_fact_dedup_key.py:906-915`). Otherwise, of the facts with the
  same words, the one survives that is active, most confident, oldest and of smallest id, in this order,
  references follow it, and relation paths are those of the old graph modulo equal keys.
- **Outbox.** Over every interleaving, a completed entry has been indexed and stays indexed. Its graph
  half is in the graph of the process, which the model shares among the workers and keeps across
  crashes: the code swallows a failed snapshot write (`src/memory_server/router/graph_router.py:198-204`,
  `src/memory_server/providers/graph_provider.py:942-972`), so a restart can lose that half of a
  completed entry. A late worker can still reopen a completed entry: `StaleWorkerReopensCompleted`
  gives the run, `CompletionUndoneIff` the only step that does it. Without stale resets of live
  claims, claims are disjoint, settled entries stay settled, and over any run of a closed queue all
  workers together settle no more claims than there are retries. A poll of the worker is a run of the
  protocol, so all this is said of the worker too. A batched call may write any part of its chunk and
  fail: the fallback then settles every entry as one-at-a-time processing does, and the stores differ
  from it only where toxic entries would have written. `AlwaysEqualIffHarmless` says exactly for which
  entries and stores they never differ; `LeftoverRemains` gives a batch after which they do. Entries
  share a point only if they are about one row, which keeps its own payload there, and the points of
  the worker are those a rebuild expects.
- **Projection.** Builder and verifier derive the same node ids and edges always, the same node types
  exactly when no fact name shares a node id with a decision. The verifier records no error exactly
  when the file, as it reads it, is the expected one. It passes over nodes without an id and reads an
  absent relation as "None" (`src/memory_server/projection_rebuild.py:599-609`), while a load gives
  such a node its key and such an edge the empty relation
  (`src/memory_server/providers/graph_provider.py:845-876`). So an accepted file loads as the
  expected graph exactly when every node spells its id and every edge its relation, as a rebuilt
  file does; `ExtraNodeAccepted` and `UnnamedRelationAccepted` give accepted files that load
  otherwise. Interrupted rebuilds resume only where store and checkpoint agree, and
  a call that returns has staged exactly the expected vectors. It may not have saved the graph:
  the snapshot write is best effort (`src/memory_server/providers/graph_provider.py:746-754`), and
  `ReturnsWithoutGraph` gives a call that returns and checkpoints without one.
- **Decisions.** Keys are equal exactly when the stripped contexts are and the joined words of the
  choices agree in their first 200 characters; `normalize_choice` is idempotent exactly when its cut
  does not end in a space (`ChoiceIdempotentIff`). Two migrations delete what one canonical pass would;
  no order of context updates ever upsets the unique index; the read path's winner is the write path's
  existing row.
- **Lifecycle.** Every committed revision is one transition; histories chain; a swap succeeds exactly
  when nobody committed a transition since the read; a unit of work commits what its transitions make
  one after the other, and one that is not committed leaves no trace.
- **Locks.** Exclusion over every run; a failed acquisition holds nothing. Circular waiting is
  impossible among ordered owners, and a maintenance run is ordered exactly when its graph lock is
  not a root lock entry or lies after all its roots. Otherwise a circle is reachable: the code
  (`src/memory_server/storage_lock.py:474-487`) orders the roots but never compares the graph path
  with them, and the timeout is what ends the wait.
- **nDCG.** Bounds, the exact condition for 1, monotonicity, and a duplicate that exceeds 1.

Where code and documentation differ the model follows the code. The docstring of `fact_dedup_key`
says the separator avoids ambiguity; the proof shows the reason, that `split` treats U+001F as
whitespace. `mark_processing` is documented as the claim of a poll, but `claim_pending` makes it.

## Model

| member | source | states |
|---|---|---|
| `Dedup.NormalizedIffSameWords` | storage/dedup.py:47-51 | two components normalize to one string exactly when they have the same words |
| `Dedup.FactKeyEqualIff` | storage/dedup.py:54-58 | fact keys are equal exactly when all three components have the same words, whatever characters they hold |
| `Dedup.DecisionKeyEqualIff` | storage/dedup.py:81-104 | two decision keys are equal exactly when the stripped contexts are and the joined words of the choices agree in their first 200 characters |
| `Dedup.ShortChoicesShareKeyIff` | storage/dedup.py:81-89 | choices whose joined words have at most 200 characters share a key exactly when they have the same words |
| `Dedup.ChoiceIdempotentIff` | storage/dedup.py:81-89 | normalizing a normalized choice leaves it as it is exactly when the joined words fit 200 characters or the cut does not end in a space |
| `Dedup.FactKeyNonEmpty` | storage/dedup.py:54-58 | no key is empty, so the pager's empty start key misses none |
| `Dedup.CanonicalContextIdempotent` | storage/dedup.py:61-78 | a canonical context is its own canonical form |
| `Text.SplitJoin` | storage/dedup.py:51-51 | splitting joined terms gives the terms back |
| `Text.SplitTermsOccur` | storage/repositories/fact_repo.py:171-173 | every split term of a text occurs in it |
| `Text.SplitAtSpace` | storage/dedup.py:51-51 | whitespace anywhere in a text splits it into the words before and after |
| `Text.SpacesSplit` | storage/dedup.py:51-51 | tab, line ends, separators and wide spaces split; visible ASCII, zero-width characters and letters do not |
| `Text.StripMeans` | storage/dedup.py:61-78 | stripping cuts whitespace off both ends, as much as there is |
| `Text.BeforeMeans` | storage/outbox.py:210-210 | texts are ordered by the first character in which they differ, a front part first |
| `Ordering.PageThenRest` | migrations/versions/b2f3a4c5d6e7_add_fact_dedup_key.py:376-394 | a keyset page followed by the pages after its last key is the whole remaining order, and only an empty remainder gives an empty page |
| `Ordering.SortBySorts` | migrations/versions/b2f3a4c5d6e7_add_fact_dedup_key.py:502-502 | the result of a sort is in order and a permutation |
| `Grouping.GroupBy` | migrations/versions/7a1b2c3d4e5f_canonical_decision_context.py:125-127 | one group per key, holding exactly its rows in order, keys without repetition |
| `Grouping.BestOfEachGroup` | migrations/versions/b2f3a4c5d6e7_add_fact_dedup_key.py:642-715 | one row of every group, preceded by none of its group |
| `FactMigration.BatchFits` | migrations/versions/b2f3a4c5d6e7_add_fact_dedup_key.py:176-183 | a batch exists exactly when one row fits the limit, and a batch of up to 400 rows stays within it |
| `FactMigration.BatchIsFull` | migrations/versions/b2f3a4c5d6e7_add_fact_dedup_key.py:176-183 | a batch of fewer than 400 rows could not have held one more |
| `FactTables.KeeperUnique` | migrations/versions/b2f3a4c5d6e7_add_fact_dedup_key.py:483-492 | a key has one keeper |
| `FactTables.KeeperActiveIfAny` | migrations/versions/b2f3a4c5d6e7_add_fact_dedup_key.py:483-492 | the keeper is active whenever a row of its key is |
| `FactTables.KeeperOfKeeps` | migrations/versions/b2f3a4c5d6e7_add_fact_dedup_key.py:860-864 | every row's keeper exists, has its key and keeps it |
| `FactTables.SurvivorsOnePerKey` | migrations/versions/b2f3a4c5d6e7_add_fact_dedup_key.py:964-970 | exactly one surviving row has the key of any original row |
| `FactTables.RemapSurvives` | migrations/versions/b2f3a4c5d6e7_add_fact_dedup_key.py:642-735 | a remapped id is never a deleted one |
| `FactTables.DeleteEffect` | migrations/versions/b2f3a4c5d6e7_add_fact_dedup_key.py:898-916 | what deletion by reference removes and leaves, and when its count differs from the rows owned |
| `FactOutcome.RankMeans` | migrations/versions/b2f3a4c5d6e7_add_fact_dedup_key.py:483-492 | of two facts, active before inactive, then the more confident, then the older, then the smaller id ranks first |
| `FactOutcome.LoserMeans` | migrations/versions/b2f3a4c5d6e7_add_fact_dedup_key.py:483-503 | a fact is deleted exactly when another of the same words is preferred to it in that order |
| `FactOutcome.RemapFollows` | migrations/versions/b2f3a4c5d6e7_add_fact_dedup_key.py:860-864 | a reference to a deleted fact goes to the fact of its words that none is preferred to; any other stays |
| `FactOutcome.FollowsUnique` | migrations/versions/b2f3a4c5d6e7_add_fact_dedup_key.py:860-864 | a reference can go to one place only |
| `FactOutcome.MigratedMeans` | migrations/versions/b2f3a4c5d6e7_add_fact_dedup_key.py:642-735 | in plain fields: the facts that stay, with the key spelled out; the receipts and entries that go; each reference followed; of colliding states the latest, most confident one and of relations an oldest one stays |
| `FactOutcome.StopMeans` | migrations/versions/b2f3a4c5d6e7_add_fact_dedup_key.py:811-930 | which check stops the migration, as a condition on the starting tables in plain fields |
| `FactOutcome.ReportMeans` | migrations/versions/b2f3a4c5d6e7_add_fact_dedup_key.py:1080-1110 | the summary lists exactly the facts kept, by id, and those deleted, and counts the rows that went with these |
| `FactMigration.DecideIsGood` | migrations/versions/b2f3a4c5d6e7_add_fact_dedup_key.py:499-503 | sorting a group yields its keeper first and every other row as a loser; `FactOutcome.LoserMeans` says which that is |
| `FactMigration.RunIsGroup` | migrations/versions/b2f3a4c5d6e7_add_fact_dedup_key.py:505-517 | a run of equal keys in the stream is exactly the rows of that key |
| `FactDatabase.StreamKeeperDecisions` | migrations/versions/b2f3a4c5d6e7_add_fact_dedup_key.py:495-517 | the streamed decisions partition the rows: every keeper once, every loser once beside its keeper |
| `FactDatabase.Database.UpdateDedupKeys` | migrations/versions/b2f3a4c5d6e7_add_fact_dedup_key.py:397-445 | every fact the pager reaches gets its own key, in batches that fit |
| `FactDatabase.Database.GroupFactRows` | migrations/versions/b2f3a4c5d6e7_add_fact_dedup_key.py:448-470 | every keyed row once, ordered by key and id |
| `FactDatabase.Database.StageDeletes` | migrations/versions/b2f3a4c5d6e7_add_fact_dedup_key.py:869-881 | the staged ids are exactly the losers |
| `FactDatabase.Database.DeletedIdChunks` | migrations/versions/b2f3a4c5d6e7_add_fact_dedup_key.py:883-896 | the chunks together list exactly the staged ids other than the empty one |
| `FactDatabase.Database.DeleteIds` | migrations/versions/b2f3a4c5d6e7_add_fact_dedup_key.py:520-543 | removes the rows with these references, of whatever type, and counts them |
| `FactDatabase.Database.DeleteOwnedChildren` | migrations/versions/b2f3a4c5d6e7_add_fact_dedup_key.py:898-916 | removes the rows that share a reference with a deleted fact's own rows |
| `FactDatabase.Database.DeleteFacts` | migrations/versions/b2f3a4c5d6e7_add_fact_dedup_key.py:920-920 | removes exactly the staged facts and counts them |
| `FactDatabase.Database.RebuildReferenceTables` | migrations/versions/b2f3a4c5d6e7_add_fact_dedup_key.py:642-735 | states collapse to the greatest row per memory, events are kept one for one, relations lose self-loops and repeated keys |
| `FactDatabase.Database.ChooseKeepers` | migrations/versions/b2f3a4c5d6e7_add_fact_dedup_key.py:857-866 | the keepers, the losers and the map from each loser to its keeper; `FactOutcome.LoserMeans` and `FactOutcome.RemapFollows` say who they are |
| `FactDatabase.Database.VerifyAndReport` | migrations/versions/b2f3a4c5d6e7_add_fact_dedup_key.py:922-1110 | the self-checks in order, and the summary |
| `FactDatabase.Database.Upgrade` | migrations/versions/b2f3a4c5d6e7_add_fact_dedup_key.py:811-1110 | the run is stopped by the check its starting tables and limit determine; otherwise exactly the facts to which none of the same words is preferred stay, every reference follows, and the summary says so, all in plain fields |
| `FactChecks.SelfChecks` | migrations/versions/b2f3a4c5d6e7_add_fact_dedup_key.py:963-1086 | of the final data checks only the outbox count can fire, exactly for entangled outbox rows |
| `FactWitnesses.SharedRecordIdFailsOutboxCount` | migrations/versions/b2f3a4c5d6e7_add_fact_dedup_key.py:906-915 | legal tables on which it fires |
| `FactWitnesses.EmptyIdFailsBackfill` | migrations/versions/b2f3a4c5d6e7_add_fact_dedup_key.py:822-825 | legal tables on which the backfill check fires |
| `FactWitnesses.TwoParametersFailBudget` | migrations/versions/b2f3a4c5d6e7_add_fact_dedup_key.py:176-183 | legal tables that fail under two bound parameters and pass under three |
| `FactPaths.RelationPathsAreTheQuotient` | migrations/versions/b2f3a4c5d6e7_add_fact_dedup_key.py:705-735 | the new graph has a path between keepers exactly when the old graph, modulo equal keys, has one between the rows |
| `FactPaths.RemapStaysInKey` | migrations/versions/b2f3a4c5d6e7_add_fact_dedup_key.py:860-864 | rows remap to one id exactly when they have one key |
| `Outbox.OutboxRepository.ClaimPending` | storage/outbox.py:202-231 | claims exactly those selected entries that are still pending at the update, whatever happened in between, and stamps them |
| `Outbox.CandidatesArePending` | storage/outbox.py:207-215 | the candidates are pending, and there are some whenever an entry is pending |
| `Outbox.CandidatesAreOldest` | storage/outbox.py:207-213 | candidates are pending, by ascending created_at and then id, and a pending entry left out comes after every one of as many as the limit allows |
| `Outbox.OutboxRepository.MarkProcessing` | storage/outbox.py:254-266 | marking an entry is claiming it as the only candidate |
| `Outbox.SettledTakesNoPart` | storage/outbox.py:268-298 | a completed or failed entry is no candidate, is claimed by no update and freed by no reset, and the other entries are as before |
| `Outbox.RetriesRunOut` | storage/outbox.py:300-312 | failures leave a live entry pending until its retries are used up, and the last of them fails it with its last message |
| `Outbox.ResetFreesTheStale` | storage/outbox.py:332-356 | a reset makes claimable exactly the pending and the stale entries, changes no other and has nothing left to do |
| `Outbox.SettlingCosts` | storage/outbox_worker.py:425-450 | completing, retrying or failing a live entry uses up retries left in the queue |
| `OutboxProtocol.StepKeepsSound` | storage/outbox_worker.py:413-450 | every step keeps: completed means indexed, live means a retry is left, failed means none is |
| `OutboxProtocol.RunKeepsSound` | storage/outbox_worker.py:222-324 | the same over every run |
| `OutboxProtocol.RunsAreSafe` | storage/outbox_worker.py:222-324 | after any run from an empty queue an entry awaiting work has a retry left, a failed one has none, a completed one has reached the stores its operation asks for |
| `OutboxProtocol.CompletedMeansIndexed` | storage/outbox_worker.py:413-427 | once an entry was completed its effect is in the stores its operation asks for, for the rest of any run, also if it is reopened |
| `OutboxProtocol.CompletionUndoneIff` | storage/outbox.py:300-312 | the only step that undoes a completion is a retry by a worker still holding a claim |
| `OutboxProtocol.StaleWorkerReopensCompleted` | storage/outbox.py:332-356 | a run of two workers in which it happens |
| `OutboxProtocol.StepKeepsExclusive` | storage/outbox.py:221-230 | if no live claim is reset, claims of different workers stay disjoint |
| `OutboxProtocol.QuietRunsAreExclusive` | storage/outbox.py:221-230 | over any run in which no live claim is reset, no two workers claim one entry, claimed entries are in processing, failed ones have used up exactly their retries |
| `OutboxProtocol.SettledStays` | storage/outbox.py:268-312 | if no live claim is reset, completed and failed entries never change |
| `OutboxProtocol.CrashIsRecovered` | storage/outbox.py:332-356 | after a crash nobody claims the worker's entries, and a reset that finds one old enough makes it pending again |
| `OutboxProtocol.StepSpendsPotential` | storage/outbox_worker.py:429-450 | no step adds work and each settled claim uses some up |
| `OutboxProtocol.PollSpendsPotential` | storage/outbox_worker.py:222-275 | over a poll, other workers interleaved, the work left drops by at least the number claimed |
| `OutboxProtocol.ClosedRunSpendsPotential` | storage/outbox_worker.py:222-275 | over any run of a closed queue, all workers together settle no more claims than there was work, less the work left |
| `OutboxProtocol.DrainedIff` | storage/outbox_worker.py:429-450 | the work is used up exactly when every entry is completed or failed |
| `Journal.ReplaysEqualIff` | storage/outbox_worker.py:305-324 | replaying all writes ends like replaying the kept ones exactly when no write that is last at its point and not kept differs from them |
| `OutboxBatch.ChunkIs` | storage/outbox_worker.py:326-388 | what a chunk leaves in table, vector store and graph when its calls pass and when they write a part and fail |
| `OutboxPolling.OutboxWorker.ProcessEntry` | storage/outbox_worker.py:390-450 | one entry settled, with the status it reports; `VectorPoints.RowHoldsItsPayload` says where its vector lies |
| `OutboxPolling.OutboxWorker.ProcessFactBatch` | storage/outbox_worker.py:277-324 | for any chunk size and calls that write any part and fail: the table of one-at-a-time processing, its vector store off the points of toxic entries, its graph but for triples of toxic entries, and all of it exactly when no left-over remains; `VectorPoints.BatchHoldsEachPayload` says what each row ends with |
| `OutboxBatch.BatchAgainstSingles` | storage/outbox_worker.py:277-324 | the same of the batch as a function of its inputs, entries of passed chunks counting as handled without error |
| `OutboxBatch.BatchSettlesEach` | storage/outbox_worker.py:305-324 | each entry is settled once: completed if it succeeds alone or its chunk passes, else one retry more |
| `OutboxBatch.SinglesArePlain` | storage/outbox_worker.py:305-324 | if only chunks of succeeding entries pass, the reference is plain one-at-a-time processing |
| `OutboxBatch.LeftoverRemains` | storage/outbox_worker.py:371-375 | a batch whose left-over stays in the vector store |
| `OutboxLeftovers.AlwaysEqualIffHarmless` | storage/outbox_worker.py:305-324 | the stores equal the reference for all chunk sizes and failures exactly when, by entries and stores alone, every write of a toxic entry that could stay is one the reference leaves anyway |
| `OutboxLeftovers.AllSucceedMeansEqual` | storage/outbox_worker.py:305-324 | if all entries succeed alone, the batch equals plain one-at-a-time processing whatever befalls its chunks |
| `OutboxLeftovers.LeftEntry` | storage/outbox_worker.py:371-375 | a write that stays after a failed call is of an entry from which on the reference writes nothing at its point |
| `OutboxSingles.EachSettledOnce` | storage/outbox_worker.py:425-450 | one at a time, an entry that succeeds ends completed, a toxic one gains exactly one retry |
| `OutboxPolling.OutboxWorker.PollOnce` | storage/outbox_worker.py:222-275 | a poll resets, claims and processes each claimed row once, whatever order the rows come back in; an empty claim changes nothing |
| `OutboxPolling.PollOfRestingQueue` | storage/outbox_worker.py:222-275 | a poll of a queue at rest leaves it at rest with less work for every row claimed, whichever chunks passed |
| `OutboxPolling.OutboxWorker.RunUntilIdle` | storage/outbox_worker.py:150-174 | polling a closed queue ends, with every entry completed or failed |
| `OutboxPolling.OutboxWorker.ProcessAllPending` | storage/outbox_worker.py:589-620 | the counters count the completed and the exhausted rows |
| `OutboxPolling.RowSettled` | storage/outbox_worker.py:589-620 | a row ends completed exactly when it counts as processed, failed exactly when it counts as failed |
| `OutboxRefinement.EntryIsRun` | storage/outbox_worker.py:390-450 | processing an entry is a run of enabled protocol steps, and what the protocol records as written is in the stores |
| `OutboxRefinement.ChunkIsRun` | storage/outbox_worker.py:305-324 | so is a chunk, passed or fallen back |
| `OutboxRefinement.BatchIsRun` | storage/outbox_worker.py:277-324 | so is a whole batch |
| `OutboxRefinement.PollIsRun` | storage/outbox_worker.py:241-275 | so is a poll, from its reset to its last row, by a worker idle before and after |
| `OutboxRefinement.CompletedIsStored` | storage/outbox_worker.py:413-427 | in such a state a completed entry has the point uuid5("fact:" or "belief:" and its record id) in the vector store and its triple in the graph |
| `VectorPoints.PointSharedIff` | storage/outbox_worker.py:354-356 | entries of facts and beliefs share a point exactly when kind and record id agree, if uuid5 never collides |
| `VectorPoints.RowHoldsItsPayload` | storage/outbox_worker.py:470-490 | one at a time, the last entry of a row that writes leaves its payload at uuid5("fact:" or "belief:" and the record id) |
| `VectorPoints.OnlyTheirPoints` | storage/outbox_worker.py:470-490 | no other point is written or changed |
| `VectorPoints.BatchHoldsEachPayload` | storage/outbox_worker.py:305-375 | in a batch about different rows, whatever its calls write before they fail, each entry that succeeds leaves its own payload at its own point |
| `VectorPoints.WorkerAgreesWithRebuild` | src/memory_server/projection_rebuild.py:146-147 | a store filled by the worker alone has exactly the vector ids the verifier expects of the same rows |
| `ProjectionRecords.OrderedMembers` | src/memory_server/projection_rebuild.py:235-235 | ordering keeps exactly the eligible records, by type and then id |
| `ProjectionMeaning.EligibleMeans` | src/memory_server/projection_rebuild.py:178-197 | which rows are projected: kind, lifecycle state and fields that hold more than whitespace |
| `ProjectionMeaning.BuiltMeans` | src/memory_server/projection_rebuild.py:232-280 | the builder's nodes, types and edges by the fields of the rows: a fact links subject to object under its predicate, a decision its choice to its context where that is a node |
| `ProjectionMeaning.ExpectedMeans` | src/memory_server/projection_rebuild.py:361-411 | the same of the verifier's derivation, in which decisions type a node before facts |
| `ProjectionMeaning.VectorIdsMean` | src/memory_server/projection_rebuild.py:380-388 | the expected vector ids are uuid5 of kind, colon and record id of the eligible facts and beliefs |
| `ProjectionMeaning.CountMeans` | src/memory_server/projection_rebuild.py:377-378 | a count is the number of eligible rows of the type |
| `ProjectionGraph.BuildSharedProjectionGraph` | src/memory_server/projection_rebuild.py:232-280 | the built graph has exactly the nodes and edges that `ProjectionMeaning.BuiltMeans` names by the fields of the rows, each edge once, and no insertion fails |
| `ProjectionGraph.ExpectedProjection` | src/memory_server/projection_rebuild.py:361-411 | the expectation's counts, vector ids, typed nodes and edges, by the fields of the rows |
| `ProjectionGraph.DerivationsAgree` | src/memory_server/projection_rebuild.py:361-411 | same node ids and edges always; same types exactly when no fact name collides with a decision's node id |
| `ProjectionGraph.NamesakeCollides` | src/memory_server/projection_rebuild.py:232-280 | a fact about "decision-X" and a decision for "X" collide, whatever names are mapped to |
| `ProjectionGraph.ExpectationClosed` | src/memory_server/projection_rebuild.py:395-405 | every expected edge joins expected nodes |
| `GraphVerifier.BuildStateFrom` | src/memory_server/providers/graph_provider.py:818-891 | a file loads exactly when its objects, field by field, say a graph, and then as that graph, absent ids and relations filled in |
| `GraphVerifier.ValidateSnapshot` | src/memory_server/providers/graph_provider.py:756-797 | valid exactly for files of at most 268435456 bytes that say a graph |
| `GraphVerifier.ObserveGraphArtifact` | src/memory_server/projection_rebuild.py:588-660 | no error exactly when a file of at most 67108864 bytes says a graph and, as the verifier reads it, has the expected typed nodes and the expected edges once each |
| `GraphVerifier.SaysIff` | src/memory_server/providers/graph_provider.py:818-891 | a structurally valid file says one graph, the one a load makes of it, and any other file none |
| `GraphVerifier.AcceptsIff` | src/memory_server/projection_rebuild.py:588-660 | what the verifier accepts, field by field |
| `GraphVerifier.AcceptedLoadsAsExpectedIff` | src/memory_server/projection_rebuild.py:599-609 | an accepted file loads as the expected graph exactly when every node spells its id and every edge its relation; a file that loads so is accepted exactly then |
| `GraphVerifier.ExtraNodeAccepted` | src/memory_server/projection_rebuild.py:599-603 | an accepted file that loads with a node nobody expects |
| `GraphVerifier.UnnamedRelationAccepted` | src/memory_server/projection_rebuild.py:604-608 | an accepted file that loads with another relation than the expected one |
| `GraphVerifier.SnapshotReadsBack` | src/memory_server/providers/graph_provider.py:535-562 | a saved graph is read back with the nodes, types and edges it had |
| `GraphVerifier.RebuiltArtifactAccepted` | src/memory_server/projection_rebuild.py:588-660 | the artifact of a rebuild is accepted, and loads as expected, exactly when no node ids collide |
| `RebuildRun.KeysDistinct` | src/memory_server/projection_rebuild.py:830-833 | the keys of canonical records are distinct |
| `RebuildRun.ImageOfPrefix` | src/memory_server/projection_rebuild.py:920-925 | the ids a resume expects are the vector ids of the checkpointed prefix |
| `RebuildRun.StagedAreExpected` | src/memory_server/projection_rebuild.py:380-388 | the vector ids of canonical records are those the verifier expects of them |
| `RebuildRun.Staging.TakeUp` | src/memory_server/projection_rebuild.py:912-928 | a resume is let in exactly when the staged ids are those of its checkpoint |
| `RebuildRun.Staging.RunBatch` | src/memory_server/projection_rebuild.py:935-965 | one batch: what is staged and checkpointed when it passes and when it raises |
| `RebuildRun.Staging.RunFrom` | src/memory_server/projection_rebuild.py:935-977 | the batches after the completed records: how many, what they leave staged, in the checkpoint and at the snapshot path |
| `RebuildRun.Staging.Finish` | src/memory_server/providers/graph_provider.py:746-754 | after the last batch a snapshot write that fails changes neither outcome nor checkpoint, and leaves the snapshot path as it was |
| `RebuildRun.Staging.Run` | src/memory_server/projection_rebuild.py:872-977 | when a call is refused; a call that returns leaves exactly the vector ids, and the builder's graph exactly if its snapshot write went through or that graph was there; when a call that raised can be resumed |
| `RebuildRun.Campaign` | src/memory_server/projection_rebuild.py:892-978 | over any calls, interruptions and batch sizes, once one has returned exactly the expected ids are staged for good; the builder's graph is saved exactly if some call got past a snapshot write that went through, else the path holds what it held |
| `RebuildRun.ReturnsWithoutGraph` | src/memory_server/projection_rebuild.py:966-977 | a call that returns with a complete checkpoint and no graph, and the resume that saves it |
| `Decisions.CollapsedKeepsTheBest` | migrations/versions/6a7b8c9d0e1f_add_decision_unique_constraint.py:125-136 | a pass keeps inactive rows and of each group's active rows only the most confident, then newest, then of greatest id |
| `Decisions.TwoStagesAreOnePass` | migrations/versions/7a1b2c3d4e5f_canonical_decision_context.py:123-139 | the raw pass and then the canonical one leave what one canonical pass leaves, row for row |
| `Decisions.AnyUpdatesKeepIndex` | migrations/versions/7a1b2c3d4e5f_canonical_decision_context.py:160-172 | after the collapse, context updates in any order and number satisfy the unique index |
| `Decisions.RawCollapseKeepsIndex` | migrations/versions/6a7b8c9d0e1f_add_decision_unique_constraint.py:157-166 | the first migration's index can be built |
| `Decisions.MigratedRowsAreCanonical` | storage/dedup.py:92-104 | after both migrations exactly the rows remain to which no active row of the same decision is better, their columns the stripped context and the joined words cut at 200 characters, and no two active ones alike |
| `DecisionDatabase.MaxByRank` | migrations/versions/6a7b8c9d0e1f_add_decision_unique_constraint.py:132-135 | a row of the list that none outranks |
| `DecisionDatabase.ChooseDeletions` | migrations/versions/6a7b8c9d0e1f_add_decision_unique_constraint.py:121-136 | the ids deleted are exactly those of active rows with a better active row in their group |
| `DecisionDatabase.NamedInStages` | migrations/versions/7a1b2c3d4e5f_canonical_decision_context.py:129-139 | the ids deleted in two stages are those of one canonical pass |
| `DecisionDatabase.Database.DeleteInChunks` | migrations/versions/7a1b2c3d4e5f_canonical_decision_context.py:95-103 | chunked deletion removes the named decisions and their own receipts and entries, nothing else |
| `DecisionDatabase.Database.BackfillKeys` | migrations/versions/6a7b8c9d0e1f_add_decision_unique_constraint.py:98-105 | every row's dedup_key becomes its normalized choice |
| `DecisionDatabase.Database.AddUniqueConstraint` | migrations/versions/6a7b8c9d0e1f_add_decision_unique_constraint.py:83-166 | the backfilled table collapsed on raw contexts, and the index holds |
| `DecisionDatabase.Database.RewriteContexts` | migrations/versions/7a1b2c3d4e5f_canonical_decision_context.py:163-172 | row by row every context becomes canonical and no update is rejected |
| `DecisionDatabase.Database.CanonicalizeContexts` | migrations/versions/7a1b2c3d4e5f_canonical_decision_context.py:106-187 | the table collapsed on canonical contexts and rewritten; the final query finds no collision |
| `DecisionDatabase.Database.Migrate` | migrations/versions/7a1b2c3d4e5f_canonical_decision_context.py:106-187 | both migrations succeed; which decisions, receipts and entries remain, and with which key columns, in plain fields |
| `DecisionDatabase.Database.FindExisting` | storage/repositories/decision_repo.py:80-97 | the most confident, then newest, then greatest-id active row stored under stripped context and cut phrase, none exactly when there is none |
| `DecisionReads.FirstOfEachKey` | src/memory_server/api/get_context.py:93-96 | setdefault over a list in order keeps the best row of each key, in order |
| `DecisionReads.CollapseDecisions` | src/memory_server/api/get_context.py:69-96 | the first max_results of the per-key winners of the eligible rows |
| `DecisionReads.TopIsTheBest` | src/memory_server/api/get_context.py:84-96 | different decisions, active and better ones first, each the best row of its decision, and no decision left out has a row ahead of a returned one |
| `DecisionReads.ReadAgreesWithWrite` | src/memory_server/api/get_context.py:75-96 | a fully fetched key with an active row is found by find_existing, has one winner, and they are one row, returned unless the budget is full of no worse ones |
| `FactLookup.PatternMeansContains` | storage/repositories/fact_repo.py:173-173 | an escaped pattern matches exactly the texts containing the token, ASCII case aside |
| `FactLookup.PrefilterLosesNothing` | storage/repositories/fact_repo.py:171-173 | a column that normalizes to the target passes its token filter |
| `FactLookup.ExactMatchIsKeyEquality` | storage/repositories/fact_repo.py:181-185 | the component check is equality of dedup keys |
| `FactLookup.FindExisting` | storage/repositories/fact_repo.py:159-187 | the most confident, then newest, then greatest-id active row with the same words in all three components, none exactly when there is none |
| `FactLookup.Fts5Query` | storage/repositories/fact_repo.py:126-146 | an independent reader recovers from the query exactly the split terms of the text, in order |
| `FactLookup.SplitStripped` | storage/repositories/fact_repo.py:138-141 | stripping loses no term, and a text that strips to something has one |
| `FactLookup.ReadDoubled` | storage/repositories/fact_repo.py:142-145 | a string with doubled quotes is read back whole |
| `Lifecycle.StoredVersionReadsBack` | storage/repositories/lifecycle_repo.py:54-54 | a revision written by a transition normalizes to itself |
| `Lifecycle.LegacySpellings` | storage/repositories/lifecycle_repo.py:18-34 | NULL, padded and zero-led spellings and non-positive integers denote the revisions they should |
| `Lifecycle.SpelledReadIff` | storage/repositories/lifecycle_repo.py:28-34 | a text is read as a revision exactly when it is, whitespace aside, "0.1.0" or zeros and a decimal number, and then as what that denotes |
| `Lifecycle.LifecycleRepository.CasTransition` | storage/repositories/lifecycle_repo.py:37-68 | succeeds exactly on the expected revision and state, an unreadable version is its own error, failure changes nothing |
| `Lifecycle.LifecycleRepository.ApplyTransition` | storage/repositories/lifecycle_repo.py:77-102 | on exactly the expected revision and state one more link of the memory's chain with its state row, event and the next revision in the column's own form, else nothing |
| `Lifecycle.LifecycleRepository.UnitOfWork` | storage/repositories/lifecycle_repo.py:90-94 | all transitions of a unit in turn, or none where one is not admitted |
| `Lifecycle.TransitionExtends` | storage/repositories/lifecycle_repo.py:52-101 | an admitted transition extends the database by exactly one chained link |
| `Lifecycle.ChainedCounts` | storage/repositories/lifecycle_repo.py:52-60 | along a chain revisions are consecutive and each event starts in the state the last one left |
| `LifecycleRuns.StepKeepsSound` | storage/repositories/lifecycle_repo.py:47-101 | every step of every session keeps: what is committed is whole transitions, what is pending completes to one |
| `LifecycleRuns.RunKeepsSound` | storage/repositories/lifecycle_repo.py:47-101 | the same over every run |
| `LifecycleRuns.CommittedIsWholeTransitions` | storage/repositories/lifecycle_repo.py:77-102 | a run's committed database extends its origin by whole transitions |
| `LifecycleRuns.RevisionsCountTransitions` | storage/repositories/lifecycle_repo.py:46-68 | the revision rises by the number of transitions, no revision is left twice, events chain |
| `LifecycleRuns.SwapSucceedsIffNoneCommitted` | storage/repositories/lifecycle_repo.py:47-66 | whatever others do between a session's read and its update, the swap succeeds exactly when no transition of the memory was committed in between |
| `LifecycleRuns.UnitCommits` | storage/repositories/lifecycle_repo.py:77-102 | a session's unit of work, taken step by step beside others and committed, commits exactly what its requests make of the database one after the other |
| `LifecycleRuns.UncommittedUnitLeavesNoTrace` | storage/repositories/lifecycle_repo.py:86-94 | a unit of work that conflicts or is given up leaves no trace: the run without it is a run and commits the same |
| `LifecycleRuns.UncommittedIsInvisible` | storage/repositories/lifecycle_repo.py:46-46 | until a commit no step shows in the committed database |
| `StorageLocks.FlockTable.Acquire` | src/memory_server/storage_lock.py:262-300 | granted exactly when every open descriptor on the entry is shared and so is the request; a refused descriptor holds nothing |
| `StorageLocks.RuntimeStorageLock.Acquire` | src/memory_server/storage_lock.py:322-339 | one shared or exclusive lock on an entry of the root, or nothing |
| `StorageLocks.RuntimeStorageLock.Release` | src/memory_server/storage_lock.py:395-401 | releases its descriptor once |
| `StorageLocks.MaintenanceTakes` | src/memory_server/storage_lock.py:474-487 | one exclusive lock on ".cmms-storage.lock" of each root in the order of their paths, then the graph lock |
| `StorageLocks.MaintenanceOrderedIff` | src/memory_server/storage_lock.py:474-487 | locks are taken in rank order exactly when the graph entry is no root lock entry or lies after all roots |
| `StorageLocks.MaintenanceDistinctIff` | src/memory_server/storage_lock.py:474-487 | no entry is taken twice exactly when the graph entry is not a root's own |
| `StorageLocks.WithThenWithout` | src/memory_server/storage_lock.py:495-506 | giving back what was taken restores the table |
| `StorageLocks.MaintenanceStorageLocks.Acquire` | src/memory_server/storage_lock.py:466-506 | succeeds exactly when every step is free and no two are one entry; a failure leaves the table as it was |
| `LockRuns.OpenSectionsProtect` | src/memory_server/storage_lock.py:530-552 | over any run without its crash, an owner keeps all its locks while more sections were begun than ended, and counts them |
| `StorageLocks.MaintenanceStorageLocks.Release` | src/memory_server/storage_lock.py:541-565 | refused inside a critical section with everything still held; otherwise removes exactly its own locks, once |
| `LockRuns.StepKeepsSound` | src/memory_server/storage_lock.py:262-300 | every step of every owner keeps mutual exclusion and how much each phase holds |
| `LockRuns.CriticalSectionKeepsLocks` | src/memory_server/storage_lock.py:541-552 | inside a critical section no step but its owner's crash takes a lock away |
| `LockRuns.ExclusiveIsAlone` | src/memory_server/storage_lock.py:303-316 | holders of one entry are all shared |
| `LockRuns.GrantedIff` | src/memory_server/storage_lock.py:262-300 | an owner gets what it waits for exactly when all holders of the entry are shared and so is the request |
| `LockRuns.GivesBack` | src/memory_server/storage_lock.py:495-506 | an owner that failed or let go can always give everything back by itself, which frees what it alone kept from others |
| `LockRuns.LocksLeaveOneByOne` | src/memory_server/storage_lock.py:495-506 | short of a crash an owner loses its locks one at a time and only after it failed or let go; every other step leaves it what it holds |
| `LockRuns.OrderedNeverDeadlocks` | src/memory_server/storage_lock.py:433-447 | owners that acquire in rank order never wait in a circle |
| `LockRuns.RunsAreSafe` | src/memory_server/storage_lock.py:433-447 | both over every run |
| `LockRuns.MaintenanceDeadlocksIff` | src/memory_server/storage_lock.py:474-487 | a maintenance acquisition can end in a circular wait among ordered owners exactly when its graph lock does not come last |
| `Ndcg.NdcgAtK` | src/memory_server/benchmarks/longmemeval.py:238-251 | the accumulated score is DCG over ideal DCG, also for negative k |
| `Ndcg.DcgAtMostIdeal` | src/memory_server/benchmarks/longmemeval.py:243-248 | hits count no more than as many hits in the first ranks, and as much only there |
| `Ndcg.ScoreBounds` | src/memory_server/benchmarks/longmemeval.py:238-251 | without duplicates the score is in [0, 1], and 1 exactly when the first min(relevant, k) ranks are relevant |
| `Ndcg.DuplicatesExceedOne` | src/memory_server/benchmarks/longmemeval.py:244-246 | an item ranked twice scores above 1 |
| `Ndcg.MovingUpNeverHurts` | src/memory_server/benchmarks/longmemeval.py:244-251 | moving a relevant item up never lowers the score |
| `Baseline.TurnIdInjective` | src/memory_server/benchmarks/longmemeval.py:476-477 | turn ids of a query are equal exactly for equal session ids and turns |
| `Baseline.DistinctItemsIff` | src/memory_server/benchmarks/longmemeval.py:429-450 | memory ids differ exactly when sessions that hold turns go by different ids |
| `Baseline.BuiltInMemoryBaseline.Ingest` | src/memory_server/benchmarks/longmemeval.py:429-450 | the items are the turns in order, named query:session:turn, and the cache holds them |
| `Baseline.BuiltInMemoryBaseline.Retrieve` | src/memory_server/benchmarks/longmemeval.py:452-473 | as many items as asked for, each of a higher score than the next or as high and ingested earlier, none left out ahead of one returned, without duplicates when the items have none |
| `Baseline.ScoreBaseline` | src/memory_server/benchmarks/longmemeval.py:254-278 | the baseline's nDCG is in [0, 1] for queries with distinct session ids |

## Left out

- SQL text, sessions, DDL, table recreation, index definitions, backups and schema checks: tables are maps or sequences, a statement is one step.
- The early return of the fact migration for schemas that already have `dedup_key`, and of both decision migrations.
- `created_at` and `updated_at` are integers or reals, so any two are comparable; mixed or unparseable values are not modelled.
- Rollback of the enclosing transaction when a migration raises: a failed `Upgrade` says only which check stopped it.
- SHA-256, `uuid5` and `_to_node_id` are functions given from outside; of `_to_node_id` it is assumed in `RebuiltArtifactAccepted`, as holds of it, that no nonempty name gets the empty id, and of `uuid5`, in `PointSharedIff`, `RowHoldsItsPayload` and `BatchHoldsEachPayload`, that no two names get one id; of the others nothing.
- Records that change between the calls of a rebuild, and checkpoints written by anything else: with records fixed a checkpoint's digests always match.
- Contents of vectors and payloads in the rebuild: the plan digest covers ids only, and so does the guarantee.
- Unread checkpoint fields (`last_completed_key`, `count`).
- Embedder and providers: an entry handled alone behaves as a function of the entry as claimed, and a batched call that reports success has written all of its chunk.
- Commit failure of the fallback session is a crash of the worker, a step of `OutboxProtocol` and no part of `OutboxPolling`.
- OutboxPolling.OutboxWorker.PollOnce: no other session acts between its reset and its claim, because the reset's UPDATE holds SQLite's write lock until the commit; `Outbox.OutboxRepository.ClaimPending` and `OutboxProtocol` model a claim without that.
- The worker's clock is one parameter for a call; compaction, metrics, task spawning and stop requests are not modelled.
- `SimpleGraph` persistence, replay and locking, and with them what a restart makes of the outbox's graph; only its nodes, edges and snapshot form are used.
- A snapshot between 64 MiB and 256 MiB passes validation and fails to be read; both limits are modelled, the intent is not judged.
- U+0000 in stored text, at which SQLite's LIKE stops reading, and SQLite's limit on the length of a pattern.
- `int()` on more than 4300 digits raises in Python; the model reads any number of digits.
- `FactRepository.update`, `DecisionRepository.update(choice=...)`, `update_lifecycle_state`, `increment_version`: they bypass keys and revisions and are no steps here.
- `LifecycleRepository.set_state` and `record_event`, `SimpleGraph.add_node` and `add_edge`, the critical section counters and the single context update have methods here but no row of their own: the rows of their callers state what they are for.
- Lock polling is one decisive attempt per step in the class; waiting and other owners are the steps of `LockRuns`. Permissions, symlinks, inode identity, metadata and failing `close` calls are not modelled.
- `MaintenanceStorageLocks.__exit__`, which zeroes the critical sections, and `remove_created_lock_entry`, which unlinks an entry.
- The facts half of `get_context`, a search result merged by id.
- Weights of nDCG are any positive, strictly decreasing reals; floating-point rounding and the lexical score itself are not modelled.
- `recall_at_k` and `build_target_sets`: set counts that would only add easy members.
- OutboxProtocol.StepKeepsExclusive: needs that no live claim is reset, because the code resets by age alone; `StaleWorkerReopensCompleted` shows what happens otherwise.
- DecisionReads.ReadAgreesWithWrite: needs canonically stored rows, because `DecisionRepository.update` can change a choice without its key.
