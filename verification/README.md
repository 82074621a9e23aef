# One tenant's knowledge graph: writes, deletions, versions

A Dafny model of the part of the GraphRAG plugin that changes one tenant's graph, and proofs of what
those changes keep. Each Cypher statement is one update of a graph value: a MERGE is an upsert, a
MATCH is a guard, a DETACH DELETE removes a node with its edges. The Python loops around the statements
are methods over that value, proved against specification functions; protocols in which several
workers take turns are state machines whose runs are sequences of states and events.

Run `dafny verify dfyconfig.toml` in this directory.

## Files

| file | what it models |
|---|---|
| Prelude, MapFold, Ordering, StableSort | Python lists, dict updates keyed by an identity, `sorted` |
| Metadata | entity metadata: merging inside a transaction and across chunks |
| Graph | the graph, the payloads, the statements of a write transaction |
| SourceGraphWriter, Deduplication | deduplication of a source's extraction output, planning its transactions |
| BatchedWrite | a sequence of planned transactions against one transaction |
| TransactionMeaning | what one transaction leaves of every entity, mention and relation |
| WriteTransactions | the transaction body that overwrites its own payload, rollbacks, retries, the whole write |
| Rerun | running a write again, also after a stop |
| Deletion, SourcePurge, PointDeletion | deletes in batches, the phase purge, the deletion of points |
| StoppedPurge, Interrupted | purges and deletions that stop inside any of their loops and are run again |
| Provenance, RoundTrip | the provenance invariant over whole runs; write followed by purge |
| Generation, GenerationSwap, Readers | the embedding-generation swap, everything it interleaves with, the readers |
| TenantLock | the re-entrant tenant write lock |
| ConceptFlip, ConceptFlipRuns | the concept-generation marker, the jobs of saves, collection of stale nodes; runs that lose something |
| Segmentation, Proximity | text segmentation, the proximity loop, entity deduplication |
| PendingTasks | background extraction tasks, their two lists, draining |
| Rerank | merging and ranking the recall results |
| LlmAccounting, PayloadRoundTrip | what is kept of a model's answer, and the dropped-item gate; payloads written out and parsed again |

## Where the code does not do what is said about it

Each of these is proved, with the condition under which the claim does hold.

- Splitting a payload into several transactions drops every mention that names an entity outside the
  payload (`BatchedWrite.SplitHarmlessIff`). Extraction only produces payloads without such mentions.
- README.md:128 of the repository calls re-running safe because every write is an idempotent MERGE. The
  weight of an existing RELATED_TO edge moves on every run, halving its distance to the written weight
  (`Rerun.RerunExact`); nothing else changes.
- A purge that stops while deleting edges or while pruning, and is run again, leaves entities behind:
  those whose last edges the first run deleted, and those it had not pruned. After a stop in its last two
  loops it is completed (`StoppedPurge.StoppedPurgeLeaves`, `StoppedPurge.StoppedPurgeCompletesIff`). A
  stopped deletion of points is always completed (`Interrupted.StoppedDeletionCompletes`). The second purge
  restores the provenance invariant if and only if none of those entities is tracked (`Interrupted.RerunTracedIff`).
- Nothing checks that the documents of an extracted batch are still stored when the batch is written. A
  deletion that takes the write lock after a drain has gathered the batch, and before it writes, leaves
  RELATED_TO edges that name a source nothing backs (`Provenance.DeletedInBetween`). A write keeps the
  provenance invariant if and only if both ends of every relation it joins are backed for their source or
  mentioned by a document of it that is still stored (`Provenance.WriteTracedIff`, `Provenance.RunTracedIff`).
- A purge undoes a write only if every written entity is mentioned by a stored document, no mentioned
  entity stood in the graph without an edge, and no updated edge had a null or an empty file list
  (`RoundTrip.WriteThenPurgeIff`).
- A swap that finds no documents flips to a generation without vector indexes
  (`GenerationSwap.EmptySwapLosesIndexes`); no other step ever does (`GenerationSwap.StepKeepsIntactIff`).
- A task spawned under the lock without `detached_write_task` writes beside the next owner
  (`TenantLock.PlainSpawnBreaksExclusion`, `TenantLock.WritersOwnIff`).
- Collection after a concept flip can delete a node tagged with the current generation, even when no two
  saves have the same fingerprint (`ConceptFlipRuns.CurrentTagCollected`): storing a concept again does not
  clear its flag. It happens if and only if a flip to another generation committed while the node carried
  the tag, a later flip returned to the tag, no source write merged the node in between and nothing mentions it
  (`ConceptFlip.CollectionSparesVisibleIff`, `ConceptFlip.OvertakenFlipsBack`).
- main.py:587 calls the jobs of saves latest-wins. Once everything has finished without an error, the marker
  can still be another configuration than the one saved last (`ConceptFlip.LatestSaveWinsIff`,
  `ConceptFlip.FreshSaveWinsIff`, `ConceptFlip.UnchangedSaveWinsIff` say exactly when):
  a job that looked before the save may flip after the job that serves it
  (`ConceptFlipRuns.OvertakenSaveLoses`); with a configuration saved a second time, a job that had flipped to
  it the first time may remove the new save unserved (`ConceptFlipRuns.RevertedSaveLoses`,
  `ConceptFlip.RemovedOnlyWhenServed`); and a save equal to the marker returns and leaves an older pending save
  in place, which is then carried out (`ConceptFlipRuns.UnchangedSaveLoses`).
- A query under way while a swap finishes raises if it names a vector index of the old generation, and the
  decorator that re-runs calls does not catch that: one swap is enough (`Readers.OneSwapFailsReader`). A run
  ends with a query error if and only if it executes a query whose index was dropped since it began
  (`Readers.QueryErrorIff`), which takes a token that moved (`Readers.Handler.RetryOnGenerationChange`). Six of
  the ten queries name no index and never raise for this reason.
- Entity embeddings are written under the generation the handler last saw, without a probe: after a swap by
  another worker they land under a collected generation and are not found
  (`GenerationSwap.EntityVisibleIff`, `GenerationSwap.StaleEntityWrite`).
- A swap that stops leaves its vectors under the next generation, and the next finished swap puts them in
  service for documents its own payload skips (`GenerationSwap.ForeignVectorIff`).
- A close cancels the tasks in the flat list; a task that a drain has taken out of it goes on
  (`PendingTasks.CloseCancels`).
- A finished extraction of a point without a source is tracked nowhere and never written, and the
  results of a drain whose caller is cancelled are lost (`PendingTasks.Conservation`).
- The documented score table is not applied to a document found twice when one score is zero and the
  other is not, unless the factor leaves the better score unchanged (`Rerank.BoostedIff`). Direct matches
  never score zero and related ones only with a decay of zero (`Rerank.DirectScore`,
  `Rerank.RelatedScore`); the entity-vector query (epoch.py:235-252) has no threshold and returns whatever
  similarity the index reports.
- Being found by both paths, with positive scores, gives at least the better score if and only if the factor
  is at least one and that score at most one (`Rerank.RewardedIff`). With the configured default decay of 0.8
  the factor for related entities is 1.04; with the handler's own default of 0.5 it is 0.65, and such
  documents score below the better of their two scores (`Rerank.IndirectDemoted`).
- On the structured-output branch the dropped-item gate compares what is kept with the candidates in the
  raw text. It lets a dropped record pass whenever the raw text shows fewer concepts or fewer relations
  than were validated, and no more of the other (`LlmAccounting.GateSoundIff`); without JSON in the raw
  text it is blind (`LlmAccounting.BlindGate`), and for a client with native structured output it is sound
  (`LlmAccounting.NativeGateSound`).

## Model

| member | source | states |
|---|---|---|
| Metadata.MergeEntityMetadata | graphrag_handler.py:224-254 | the merge inside a transaction equals `Merged`, whose meaning the next rows give |
| Metadata.MergeChunkMetadata | source_graph_writer.py:56-68 | the merge across chunks equals `MergedChunks`: union of documents in first-seen order, greatest confidence |
| Metadata.MergedTwice | graphrag_handler.py:224-254 | merging an already merged payload into the same stored metadata changes nothing |
| Metadata.MergedStored | graphrag_handler.py:224-254 | merging a payload again, once its merge is stored, changes nothing |
| Metadata.MergedMeaning | graphrag_handler.py:243-254 | the merged documents are the stored and the incoming ones; the confidence bounds both |
| Metadata.MergedSpelledOut | graphrag_handler.py:224-254 | the order of the merged documents: the stored ones first, or the single document of an older node without a list, then the new ones as first seen; malformed and missing values; the exact confidence |
| Metadata.AppendNewOrder | source_graph_writer.py:71-80 | a union keeps the base and appends, in first-seen order, what it lacks |
| Metadata.MergedChunksAppend | source_graph_writer.py:56-68 | chunks may be merged in two steps |
| Metadata.MergedChunksMeaning | source_graph_writer.py:56-68 | exactly the documents of the chunks, no duplicate, the greatest confidence, none if no chunk has one |
| Metadata.MergedChunksOrder | source_graph_writer.py:56-68 | the documents come in the order in which the chunks first name them |
| SourceGraphWriter.DedupeEntities | source_graph_writer.py:83-104 | the two dictionaries filled and updated in place give the sorted grouping by id |
| SourceGraphWriter.DedupeMentions | source_graph_writer.py:107-120 | one mention per pair, sorted |
| SourceGraphWriter.DedupeRelations | source_graph_writer.py:123-149 | one relation per source, target and type, sorted |
| Deduplication.DedupeIncremental | source_graph_writer.py:152-162 | dedupe(a ++ b) equals dedupe(dedupe(a) ++ b) |
| Deduplication.PrepareIncremental | source_graph_writer.py:152-162 | the same for the three lists of a source together |
| Deduplication.DedupedKeys | source_graph_writer.py:83-149 | the keys of the input, each exactly once, strictly sorted |
| Deduplication.DedupedUnique | source_graph_writer.py:83-149 | only one list is a deduplication of a given input |
| Deduplication.MentionConfidence | source_graph_writer.py:107-120 | a kept confidence is the maximum of its group |
| Deduplication.RelationMerged | source_graph_writer.py:123-149 | a merged weight lies between the smallest and the largest of its group; the files are exactly those of the group |
| Deduplication.RelationAverage | source_graph_writer.py:137-139 | a merged weight is exactly the running average of its group, in chunk order |
| Deduplication.RelationFileOrder | source_graph_writer.py:71-80 | the files of a merged relation: those of the first list of its group, then the others as first seen; missing lists are skipped |
| Deduplication.EntityMetadata | source_graph_writer.py:83-104 | the metadata of an entity merges that of all its chunks |
| Deduplication.EntityFirsts | source_graph_writer.py:94-99 | a merged entity has the first non-empty name, the first non-empty kind and the first embedding of its chunks |
| Deduplication.SortedByIdentity | source_graph_writer.py:83-149 | the order of the three lists, character by character: entities by id, mentions by document then entity, relations by source, target, type |
| SourceGraphWriter.PlanWriteTransactions | source_graph_writer.py:165-220 | for any payload: rejects a guard below one; otherwise one plan, or entity batches with their mentions followed by relation batches |
| BatchedWrite.PlannedFits | source_graph_writer.py:165-220 | a payload within the guard is one transaction; above it none mixes entities and relations or exceeds the guard, and all but the last of a kind are full |
| SourceGraphWriter.ChooseMentions | source_graph_writer.py:196-202 | a batch carries exactly the mentions of its entities, each as often as the payload does, whatever order the id set is iterated in |
| BatchedWrite.BatchSizeIndependent | source_graph_writer.py:165-242 | for every graph, guard and deduplicated closed payload, the planned transactions in sequence give the graph of one transaction |
| BatchedWrite.SplitHarmlessIff | source_graph_writer.py:190-209 | splitting is harmless for every graph if and only if the mentions name entities of the payload |
| BatchedWrite.TxWrote | graphrag_handler.py:2034-2130 | what one transaction does to every entity, mention and provenance edge of a closed payload, field by field, and that it does nothing else |
| BatchedWrite.MergeWrote | graphrag_handler.py:2034-2130 | two entity batches in a row equal one over both, for any order of the mentions |
| TransactionMeaning.EntityAfterWrite | graphrag_handler.py:2070-2096 | any deduplicated payload, closed or not: each entity has the item's name and metadata, its kind added to the old types or alone on a new node, the item's embedding or else the old one, no tag and no flag; an old node keeps its kind |
| TransactionMeaning.OtherAfterWrite | graphrag_handler.py:2098-2130 | every other entity is as before, at most tracked from now on |
| TransactionMeaning.MentionAfterWrite | graphrag_handler.py:2098-2130 | each mention that finds both nodes gets its two edges, with its own confidence; every other edge is as before |
| TransactionMeaning.RelationAfterWrite | graphrag_handler.py:2132-2156 | each relation that finds both ends: a new edge takes weight and files; an old one the mean weight and its other files in order followed by the item's; a missing list leaves the other |
| TransactionMeaning.RestAfterWrite | graphrag_handler.py:2132-2156 | no other edge, document or similarity edge changes |
| WriteTransactions.WriteGraphPlanInTx | graphrag_handler.py:2034-2156 | the body overwrites its payload's metadata and produces the graph of `WriteTx`, in which every payload entity is as `WroteItem` spells out field by field; or it breaks off at any stage with the payload unchanged or overwritten |
| WriteTransactions.OverwrittenTwice | graphrag_handler.py:2041-2069 | overwriting an overwritten payload changes nothing |
| WriteTransactions.UsedCommitsTheSame | graphrag_handler.py:2041-2096 | a payload used by rolled-back tries commits the graph of the original payload |
| WriteTransactions.CommitsIff | versioning.py:74-88 | a write commits if and only if a clean attempt comes, within the allowed number, after transient errors only |
| WriteTransactions.RaisesWhich | versioning.py:77-82 | a write that raises raises the first permanent error, or the transient one of its last allowed try |
| WriteTransactions.ExecutePlan | graphrag_handler.py:2008-2012 | any number of rolled-back tries, then one commit of the original transaction, or an error and an unchanged graph |
| WriteTransactions.WithTransientRetry | versioning.py:56-88 | commits exactly one transaction or raises with the graph unchanged; when it does which is given by the sequence of failures |
| WriteTransactions.WriteSourceGraph | graphrag_handler.py:1989-2032 | a closed payload is written as one transaction would; an error leaves a prefix of the planned transactions |
| Rerun.RerunExact | graphrag_handler.py:2070-2156 | after n runs all is as after one, except weights of earlier edges: exactly w + (w0 - w) / 2^n |
| Rerun.StopThenRerun | source_graph_writer.py:223-242 | a write stopped after any planned transaction and run in full, with any guard: only such weights differ, each averaged once more if its relation had run |
| Rerun.Absorb | graphrag_handler.py:2070-2130 | writing entities and mentions again, after any part of them, gives what one write gives |
| Deletion.DeleteInBatches | batched_delete.py:43-74 | rejects exactly the sizes outside 1 to 100; otherwise one statement per chunk, which for an additive statement is one statement on all ids |
| Deletion.BatchesAreOne | batched_delete.py:60-74 | chunks of any size delete what a single statement deletes |
| Deletion.StatementsAdditive | graphrag_handler.py:2980-3073 | every statement of the cascades may be split into batches |
| SourcePurge.PurgeSourceGraphArtifacts | graphrag_handler.py:2914-3082 | for any batch size the cascade is the one-shot deletion `Purged`, and returns the number of the source's documents |
| SourcePurge.PruneIsExact | graphrag_handler.py:2964-3011 | exactly the entities go that the source's documents point at and no other document does |
| SourcePurge.StripIsExact | graphrag_handler.py:3043-3073 | relations that exist only because of the source go, the others lose it from their lists |
| SourcePurge.PurgeTwice | graphrag_handler.py:2914-3082 | a second purge is the identity |
| SourcePurge.PurgeLeavesNothing | graphrag_handler.py:2917-2931 | no edge and no file list keeps a trace of the source |
| SourcePurge.PurgeSparesOthers | graphrag_handler.py:2917-2931 | every edge of a document of another source and the entity at its end stay as they were |
| SourcePurge.PurgeSparesRelations | graphrag_handler.py:3043-3073 | a relation between staying entities keeps its weight and its other files, and goes only if the source was its only file |
| SourcePurge.PurgeSparesSimilar | graphrag_handler.py:3013-3041 | a similarity edge goes if and only if one of its documents is from the source; no document goes |
| SourcePurge.PurgesCommute | graphrag_handler.py:2914-3082 | the order of two sources' purges does not matter |
| StoppedPurge.StoppedPurgeLeaves | graphrag_handler.py:2964-3073 | for a stop anywhere in the four loops: exactly which entities the second run leaves that an uninterrupted purge removes |
| StoppedPurge.StoppedPurgeCompletesIff | graphrag_handler.py:2964-3073 | the second run completes it if and only if, for a stop among the edges, every detached entity has an edge from another document; for one in the prune, everything was pruned; for one in the last two loops, always |
| SourcePurge.PurgeKeepsWellFormed | graphrag_handler.py:2914-3082 | no edge is left dangling |
| PointDeletion.DeleteTenantPoints | graphrag_handler.py:2733-2881 | for any batch size the cascade is the one-shot deletion `Deleted`, with and without a source; a document stays, unchanged, if and only if it is in another collection or lacks one of the given pairs |
| PointDeletion.NoPairMatchesAll | graphrag_handler.py:2741-2752 | an empty filter selects the whole collection |
| PointDeletion.PairNarrows | graphrag_handler.py:2744-2752 | one more pair keeps exactly the selected documents that carry it, whatever else they carry |
| PointDeletion.SourceAloneMatches | graphrag_handler.py:2744-2763 | the source alone selects the source's documents in the collection |
| PointDeletion.DeletionSparesRelations | graphrag_handler.py:2797-2827 | a relation between staying entities: as it was without a source; otherwise it loses the source from its list, keeps weight and other files, and goes only if the source was its only file |
| PointDeletion.DeletionSparesEdges | graphrag_handler.py:2781-2796 | every MENTIONS, PROVENANCE and similarity edge stays, unchanged, if and only if the nodes at both its ends do |
| PointDeletion.DeletionExact | graphrag_handler.py:2842-2881 | which entities go: with a source the tracked ones whose PROVENANCE came only from deleted documents, without one those no other document points at |
| PointDeletion.DeletionTwice | graphrag_handler.py:2733-2881 | a second deletion is the identity |
| PointDeletion.DeletionKeepsWellFormed | graphrag_handler.py:2733-2881 | no edge is left dangling |
| Interrupted.StoppedDeletionCompletes | graphrag_handler.py:2786-2881 | a deletion stopped anywhere in its loops and run again gives the graph of an uninterrupted one, with and without a source |
| Interrupted.StoppedPurgeTracedBut | graphrag_handler.py:2964-3073 | wherever a purge stops, the provenance invariant holds except that lists may still name its source, and that a tracked entity may lack provenance if it had some and all of it came from the source's documents |
| Interrupted.StoppedDeletionTracedBut | graphrag_handler.py:2786-2867 | the same for a deletion with a source |
| Interrupted.RerunTracedIff | graphrag_handler.py:2964-3073 | running a stopped purge again restores the invariant if and only if no tracked entity is left behind |
| Provenance.RunTracedIff | graphrag_handler.py:2098-2156 | over every run of inserts, complete or stopped source writes, purges and per-source deletions, whatever was deleted since a batch was extracted: every graph reached satisfies the invariant if and only if every write is supported. The invariant: every MENTIONS edge has its PROVENANCE edge, tracked entities have one, file lists are non-empty, duplicate-free and backed at both ends |
| Provenance.DeletedInBetween | graphrag_handler.py:1634-1671 | a deletion between the gathering of a drain and its write: the run that breaks the invariant |
| Provenance.ExtractedSupported | graphrag_handler.py:1722-1775 | a batch whose documents are all still stored is supported, however much of it is written |
| Provenance.StoredBatchesTraced | graphrag_handler.py:1634-1671 | a run keeps the invariant if every batch was extracted from one of its graphs and the documents it mentions are still stored when it is written |
| Provenance.EmptyGraphTraced | graphrag_handler.py:2098-2156 | the empty graph, from which such runs may start, satisfies the invariant |
| Provenance.WriteTracedIff | graphrag_handler.py:2034-2156 | a source write, complete or stopped after any planned transaction, keeps the invariant if and only if both ends of every relation it joined are already backed, or mentioned by the batch from a document of the source that is still stored |
| Provenance.PurgeKeepsTraced | graphrag_handler.py:2914-3082 | a purge keeps it |
| Provenance.DeletionKeepsTraced | graphrag_handler.py:2733-2881 | a deletion with a source keeps it |
| Provenance.PreparedExtracted | graphrag_handler.py:1900-1986 | deduplication keeps the shape extraction gives a batch |
| Provenance.DeletionSparesMentioned | graphrag_handler.py:2830-2867 | in a traced graph a per-source deletion spares what another document mentions |
| RoundTrip.WriteThenPurgeIff | graphrag_handler.py:2914-3082 | write then purge gives back entity ids, MENTIONS, PROVENANCE, RELATED_TO and file lists if and only if the batch was reversible there |
| RoundTrip.WriteThenPurgeRestores | graphrag_handler.py:2914-3082 | in a traced graph where every entity has an edge and no file list is null it always does, for any write batch size |
| RoundTrip.RelationRoundTrip | graphrag_handler.py:2145-2151 | what the strip leaves of an edge after the write |
| Generation.Database.GcGeneration | graphrag_handler.py:755-800 | no index, vector or similarity edge of the generation is left, everything of every other generation and the token, documents and entities stay |
| Generation.Database.ReembedLocked | graphrag_handler.py:861-958 | the locked part of a swap leaves the state `Swapped` describes: new vectors, carried entity vectors and no other entity vector under the new generation, new indexes, nothing of the old generation |
| Generation.LockedStatementsSwap | graphrag_handler.py:896-958 | run to its end: new vectors for the payload; the entity vectors carried over, every other id keeping what it had under the new generation; both new indexes, nothing of the old generation, other generations untouched |
| Generation.SwapLinks | graphrag_handler.py:723-749 | the new similarity edges are exactly those already there and both directions of what the searches of the linked documents reported |
| Generation.StatementTargets | graphrag_handler.py:896-958 | before the flip every statement aims at the new generation, after it at the old one |
| GenerationSwap.StepKeepsInv | graphrag_handler.py:837-963 | every step of swaps, inserts, deletions and other writers keeps the invariant: the lock keeps others out, the token is the one read, similarity edges are symmetric |
| GenerationSwap.RunKeepsAnchored | graphrag_handler.py:837-963 | over every run, wherever swaps and inserts stop: vectors belong to nodes that exist, similarity edges join two different documents that exist |
| GenerationSwap.DeletedDocument | graphrag_handler.py:2781-2796 | a deleted document takes its vectors and similarity edges of every generation along, and nothing else |
| GenerationSwap.SwapSpares | graphrag_handler.py:896-958 | no swap statement changes anything under the generation in service before or after it |
| GenerationSwap.StepKeepsIntactIff | graphrag_handler.py:861-874 | a step loses the indexes of the generation in service if and only if it is the flip of a swap without documents |
| GenerationSwap.RunIntactIff | graphrag_handler.py:837-963 | over whole runs with stops anywhere: always intact if and only if there is no such flip |
| GenerationSwap.EmptySwapLosesIndexes | graphrag_handler.py:861-874 | a run of four steps that loses them |
| GenerationSwap.FinishedSwap | graphrag_handler.py:896-963 | a finished swap has re-embedded every snapshot document that still exists and got a vector, and left nothing of the old generation |
| GenerationSwap.VectorAheadIff | graphrag_handler.py:884-910 | over whole runs: a document has a vector under the next generation if and only if a swap stored it, finished or not, the document stayed, and no swap has flipped since |
| GenerationSwap.ForeignVectorIff | graphrag_handler.py:884-910 | a finished swap serves a vector it did not compute, for a document its payload skips, if and only if an earlier, stopped swap had stored one when it took the lock |
| GenerationSwap.EntityVisibleIff | graphrag_handler.py:2034-2096 | the vector of an entity write is found under the generation in service if and only if the handler's generation is that one |
| GenerationSwap.StaleEntityWrite | graphrag_handler.py:2034-2096 | after any finished swap a handler that has not noticed it writes under the collected generation |
| GenerationSwap.OlderStays | graphrag_handler.py:896-958 | no later swap moves or removes what lies under an older generation |
| GenerationSwap.InsertStoresUnderToken | graphrag_handler.py:1449-1506 | a locked point insert stores its vector under the generation in service |
| GenerationSwap.TokenMovesForward | epoch.py:76-87 | the token only moves forward, one flip at a time |
| Readers.Handler.CompileQuery | epoch.py:107-120 | the per-generation cache returns the query of the key and generation asked for, and stays valid |
| Readers.Handler.RunOnce | graphrag_handler.py:3245-3274 | concurrent inner probes, adoptions, compilations and executions in any order: if the token stood still, every query was compiled for it; a query whose index is gone ends the run, and then the token has moved |
| Readers.PlayKeeps | graphrag_handler.py:3245-3274 | while the token stands still, all a run probes, compiles and executes belongs to its generation |
| Readers.ExecutedRan | graphrag_handler.py:3245-3274 | in a run without a query error every execution of a compiled query met its index and is on record under the generation it was compiled for |
| Readers.AdoptionTakesEffect | epoch.py:76-120 | a call that probes, adopts and compiles uses the generation in service at its probe, whatever the handler had |
| Readers.Handler.RetryOnGenerationChange | versioning.py:111-145 | a returned run lies entirely under one generation and met its indexes; giving up happens if and only if both probes after the first saw the token moved; where the generation in service keeps its indexes, a query error escapes only if the token moved during that run |
| Readers.AcceptedQueriesFindIndexes | versioning.py:111-145 | beside swaps that never flip to nothing every query of an accepted run finds the indexes of its generation |
| Readers.InServiceAliveIff | versioning.py:111-145 | beside a run of swaps no query of the generation in service raises if and only if no swap flips to nothing |
| Readers.OneSwapFailsReader | versioning.py:123-134 | beside any finished swap: a query compiled before it and executed after it raises if and only if its key is one of the four that search a vector index |
| Readers.QueryErrorIff | epoch.py:122-133 | a run that starts under the generation in service ends with a query error if and only if it executes a query whose index a swap has dropped since |
| Readers.TokensMoveForward | epoch.py:76-87 | the swap machine provides the forward-moving token readers rely on |
| TenantLock.WriteLocks.Acquire | tenant_write_lock.py:137-214 | re-enters, acquires, or times out without any effect, exactly as the held set and the owner say |
| TenantLock.WriteLocks.Release | tenant_write_lock.py:184-188 | leaving an outermost body restores the held set and frees the lock |
| TenantLock.WriteLocks.CreateTask | tenant_write_lock.py:251-264 | a child inherits the held set unless detached |
| TenantLock.StepKeepsInv | tenant_write_lock.py:137-214 | held sets, frame stacks and owners stay consistent |
| TenantLock.WritersOwnIff | tenant_write_lock.py:137-264 | in every state of a run all writers own their lock if and only if no task enters a tenant it merely inherited |
| TenantLock.WriterOwnsLock | tenant_write_lock.py:151-188 | a write happens only in a task that owns the lock |
| TenantLock.OneWriterAtATime | tenant_write_lock.py:13-25 | at most one task can write for a tenant |
| TenantLock.PlainSpawnBreaksExclusion | tenant_write_lock.py:48-51 | a run with a plain child in which two tasks write at once |
| TenantLock.ReentryNeverBlocks | tenant_write_lock.py:39-46 | an owner never waits for its own lock |
| TenantLock.DetachedChildWaits | tenant_write_lock.py:251-264 | a detached child has to acquire the lock itself |
| TenantLock.BalancedRunRestores | tenant_write_lock.py:183-202 | back at the same nesting depth, after anything in between, a task has its old held set and owns what it owned |
| ConceptFlip.Tenant.FlipConceptGen | graphrag_handler.py:4953-5038 | compare-and-swap: all collections marked and stale nodes flagged, or nothing changed |
| ConceptFlip.Tenant.GcStaleConceptNodes | graphrag_handler.py:5041-5058 | mentioned and unflagged nodes stay unchanged, no unmentioned flagged node is left; where flags are exact, exactly the stale nodes go |
| ConceptFlip.RunKeepsChain | graphrag_handler.py:4989-5038 | in every interleaving each committed flip expected the marker the previous one left |
| ConceptFlip.GuardMeansMarker | graphrag_handler.py:5584-5598 | the guard queries test the one marker all marked collections carry |
| ConceptFlip.RunKeepsFlagsExact | graphrag_handler.py:5599-5603 | a node is flagged if and only if it is tagged and a flip to another generation committed since it was created |
| ConceptFlip.CollectsExactly | graphrag_handler.py:5613-5617 | which nodes collection deletes: never an untagged or a mentioned one |
| ConceptFlip.NerWriteMeans | graphrag_handler.py:2070-2096 | after a source write every node with the id has the new name and neither tag nor flag; a node is created only if none had the id; no other node changes |
| ConceptFlip.StoreConceptMeans | graphrag_handler.py:5251-5265 | after a concept is stored one node has its id and its name; a node found keeps tag and flag, a new one alone is tagged; ids change only where no node had the id |
| ConceptFlip.CollectionSparesVisibleIff | epoch.py:23-37 | in every run from a state without flagged nodes: all collections spare all visible nodes (untagged or tagged with the marker) if and only if no unmentioned node kept its tag from a committed flip away from it to a collection under it |
| ConceptFlip.OvertakenFlipsBack | graphrag_handler.py:5251-5260 | such a run flips back to the tag in between |
| ConceptFlipRuns.CurrentTagCollected | graphrag_handler.py:5251-5260 | for any two configurations: a run that saves each once and whose first collection deletes a node tagged with the marker |
| ConceptFlip.RemovedOnlyWhenServed | main.py:595-621 | whatever is saved: a pending save is removed only after the marker has equalled it, or by a job that had flipped to the same configuration before the save |
| ConceptFlip.ServedMeans | main.py:603-621 | what served means: the marker has equalled the saved generation in some state since the save |
| ConceptFlip.GivesUpAfterFour | main.py:595-628 | over every run: how often a job has looked, at most four times, and that it gives up only after a fourth flip of its own lost |
| ConceptFlip.PendingIsAttended | main.py:567-628 | a save stays pending only while its job runs, or after that job raised or gave up |
| ConceptFlip.LatestSaveWinsIff | main.py:584-628 | once all jobs have finished without error, the marker is the configuration saved last if and only if the last flip after the save was by a job that looked after it or was at work on the same configuration; or, without such a flip, the marker was that configuration or no job was past it |
| ConceptFlip.FreshSaveWinsIff | main.py:584-628 | for a configuration no job is busy with: if and only if the last flip after the save, if any, was by a job that looked after it |
| ConceptFlip.UnchangedSaveWinsIff | main.py:560-566 | a save that finds the marker equal leaves an older pending save in place; when the marker stays |
| ConceptFlipRuns.OvertakenSaveLoses | main.py:584-628 | a run to its end with fresh saves in which the save made last is popped and the marker is the other one |
| ConceptFlipRuns.RevertedSaveLoses | main.py:613-621 | a run in which a configuration saved again is popped unserved by the job of its first save |
| ConceptFlipRuns.UnchangedSaveLoses | main.py:560-566 | a run in which the early return lets an older save be carried out |
| Segmentation.SegmentText | entity_extractor.py:115-156 | the segments concatenate to the text, respect the cap, sit at their offsets, and n of them need floor(n/2) * (cap + 1) characters |
| Segmentation.CutPlace | entity_extractor.py:98-112 | where a hard split cuts |
| Segmentation.HardPartsCut | entity_extractor.py:98-140 | every part but the last ends after the last space of the last quarter of the cap, or at the cap; the last part is what then fits |
| Segmentation.HardPartsConcat | entity_extractor.py:134-140 | hard splitting ends and loses nothing |
| Segmentation.PackPartitions | entity_extractor.py:142-148 | packing keeps the text and the cap, and no two neighbours would fit together |
| Segmentation.PackIsOptimal | entity_extractor.py:142-148 | no contiguous grouping of the same parts within the cap has fewer segments |
| Segmentation.SegmentsNeedLength | entity_extractor.py:142-148 | the bound on the number of segments |
| Segmentation.ShiftedSpan | entity_extractor.py:305-308 | a span shifted by its segment's offset is the same span of the text |
| Proximity.ProximityRelations | entity_extractor.py:515-547 | the loop with its break relates exactly the near, unfound pairs of the full double loop, in its order |
| Proximity.RelatePartners | entity_extractor.py:521-545 | one row of it |
| Proximity.RestFilters | entity_extractor.py:521-530 | the rows together are the filter over all pairs |
| Proximity.PairsMember | entity_extractor.py:521-524 | all pairs means the pairs i < j and no other |
| Proximity.EmittedExactly | entity_extractor.py:519-530 | a pair is emitted if and only if the second entity by start begins less than 100 characters after the first ends and its names are unrelated so far |
| Proximity.EmittedInRows | entity_extractor.py:521-524 | in the order of the double loop |
| Proximity.RelatedMeans | entity_extractor.py:532-545 | each relation joins the names of its pair; its kind is decided by the phrases between them, in any case: IS_A before BASED_ON before RELATED_TO |
| Proximity.DeduplicateEntities | entity_extractor.py:385-400 | the dictionary filled in the loop holds, in insertion order, what `Deduplicated` gives |
| Proximity.DeduplicatedMeans | entity_extractor.py:385-400 | one entity per normalized name, in the order the names are first seen: the first of those with the greatest confidence |
| Proximity.DeduplicatedTwice | entity_extractor.py:385-400 | deduplicating again changes nothing |
| StableSort.SortedSorts | entity_extractor.py:430 | `sorted` gives an ascending permutation |
| StableSort.SortedStable | graphrag_handler.py:3557-3560 | equal keys keep their order |
| StableSort.SortedPrecedence | graphrag_handler.py:3557-3560 | distinct elements come out by key, ties by place |
| PendingTasks.Handler.TrackSourceTask | graphrag_handler.py:1527-1531 | a new task joins the flat list and, with a source, that source's list |
| PendingTasks.Handler.PruneFinished | graphrag_handler.py:1549-1556 | pruning touches the flat list only |
| PendingTasks.Handler.DropSourceTasks | graphrag_handler.py:1585-1596 | forgets one source's list |
| PendingTasks.Handler.PopSourceTasks | graphrag_handler.py:1634-1637 | a drain takes a source's tasks out of both lists |
| PendingTasks.Handler.ForgetTasks | graphrag_handler.py:1243-1254 | closing clears both lists |
| PendingTasks.RunKeepsFlat | graphrag_handler.py:1527-1556 | in every run the flat list holds exactly those of the unfinished tasks that no drain has taken |
| PendingTasks.CloseCancels | graphrag_handler.py:1243-1254 | a close ends every unfinished task except exactly those a drain has taken out of the flat list |
| PendingTasks.DrainResults | graphrag_handler.py:1640-1671 | what is written, and counts if and only if there was a product and no extraction failed |
| PendingTasks.GatheredIncludes | graphrag_handler.py:1655-1658 | the written batch holds what the tasks returned and nothing else |
| PendingTasks.GatheredIsAll | graphrag_handler.py:1655-1658 | it is the returned batches one after the other, each once |
| PendingTasks.RunConserves | graphrag_handler.py:1571-1671 | in every state of every run each finished extraction with a product is conserved in the sense of the next row |
| PendingTasks.Conservation | graphrag_handler.py:1571-1671 | a finished result is tracked, in one drain, in one write, or was dropped, closed or abandoned; or it had no source |
| PendingTasks.HandedOnce | graphrag_handler.py:1625-1671 | a result handed over or discarded stays so |
| PendingTasks.DrainReports | graphrag_handler.py:1660-1671 | everything the tasks of a drain returned is in its one write |
| PendingTasks.DroppedStays | graphrag_handler.py:2939-2942 | after a purge drops its source, a result still tracked is never handed to a write; one handed over later was already in a drain |
| PendingTasks.DrainSurvivesDrop | graphrag_handler.py:1634-1671 | a drain under way at the drop hands over its results when it ends |
| Rerank.MergeAndRerank | graphrag_handler.py:3485-3580 | the registry describes the union of the three lists in first-seen order, and the result is its k best: ids from the lists only, and as many as k and the number of distinct ids allow, a negative k dropping that many from the end |
| Rerank.RegistryMeans | graphrag_handler.py:3521-3555 | content and entity score are those of the last direct row, failing that of the last indirect one, failing that the content of the first vector row; the vector score is that of the last vector row |
| Rerank.FirstSeenMeans | graphrag_handler.py:3521-3555 | the registry order is that in which the three lists first name a document |
| Rerank.KBestMeans | graphrag_handler.py:3557-3573 | no duplicates, scores never increase, nothing left out scores above anything returned |
| Rerank.RegisterIndirect | graphrag_handler.py:3537-3544 | direct rows take priority over indirect ones |
| Rerank.RegisterVector | graphrag_handler.py:3546-3555 | a vector row completes a known document or registers a new one |
| Rerank.ScoreFollowsTable | graphrag_handler.py:3500-3517 | the five documented rows hold for every document found once, and for one found twice with positive scores |
| Rerank.ScoreMeans | graphrag_handler.py:3500-3517 | the score written out: of one path alone, its own; of both, the better one times the boost, for an indirect match times the decay as well, at most one |
| Rerank.BoostedIff | graphrag_handler.py:3500-3517 | for both boosted rows, all non-negative scores, any boost and decay: exactly when a document found twice gets its boosted row |
| Rerank.RewardedIff | graphrag_handler.py:3506-3509 | being found twice gives at least the better score if and only if that is at most one and the factor at least one |
| Rerank.IndirectDemoted | graphrag_handler.py:281 | with the handler's default decay and boost a document found through related entities and by the vector search scores below the better of the two, so below a vector score that is the better one |
| Rerank.DirectScore | epoch.py:186-206 | times the number of query entities it is the number of matched ones; between zero and one, never zero, one exactly when all match |
| Rerank.RelatedScore | epoch.py:208-233 | zero only for a decay of zero |
| Rerank.RelatedScorePower | epoch.py:227-231 | one hop scores the decay, and hops compound |
| Rerank.IndirectPool | graphrag_handler.py:3300-3306 | one row per document of the two indirect lists, the better one, a tie going to the graph, in first-seen order |
| LlmAccounting.ParseConceptRelations | graphrag_handler.py:4697-4821 | the parsing loops keep exactly the records the specification keeps, which the round trips below read back |
| PayloadRoundTrip.ParseRoundTrip | graphrag_handler.py:4785-4821 | the object that lists any clean concepts and relations parses to exactly those, in order, origin and destination in their places |
| PayloadRoundTrip.LegacyRoundTrip | graphrag_handler.py:4740-4783 | so does the legacy list: the subject is the origin, the object the destination |
| PayloadRoundTrip.RelationsTold | graphrag_handler.py:4799-4821 | for any records, clean or not: what is parsed is, in order, what each record says when its fields are read, stripped and capitalized; a record that says nothing is left out |
| PayloadRoundTrip.LegacyRelationsTold | graphrag_handler.py:4740-4783 | the same for legacy records |
| PayloadRoundTrip.ConceptsTold | graphrag_handler.py:4785-4797 | the same for concepts, an unconfigured type becoming CONCEPT |
| LlmAccounting.NothingDroppedIff | graphrag_handler.py:4635-4695 | nothing counts as dropped if and only if every candidate record was kept, for objects, legacy lists and malformed containers |
| PayloadRoundTrip.DroppedExactly | graphrag_handler.py:4635-4695 | the count is exactly the number of candidates not kept, a malformed container counting for its entries and at least one |
| LlmAccounting.LenientExtraction | graphrag_handler.py:4521-4557 | done if and only if there is a product and every candidate was kept; a partial product reports exactly how many were dropped; kept relations have a configured type and non-blank endpoints |
| LlmAccounting.LegacyConceptsCover | graphrag_handler.py:4740-4768 | every endpoint of a kept legacy relation has its concept, no two with one norm |
| PayloadRoundTrip.LegacyConceptsTold | graphrag_handler.py:4740-4768 | the concepts of a legacy list are the ends of its relations, subject before object, of those with one norm the first |
| LlmAccounting.ParsedConceptsStorable | graphrag_handler.py:4785-4797 | every parsed concept has a configured type or CONCEPT, a text and its folded form |
| LlmAccounting.StripNotBlank | graphrag_handler.py:4748-4751 | a kept string is not blank |
| LlmAccounting.ValidatedExtraction | graphrag_handler.py:4466-4501 | done gives the storable records in order; with as many candidates in the raw text as were validated, a non-empty result is the whole product; with no more candidates than that, a product without blank records always passes; otherwise an error that counts by how much the candidates outnumber the records kept |
| LlmAccounting.StorableMeans | graphrag_handler.py:4619-4633 | a concept is storable if and only if its text has a character that is no space, a relation if and only if both ends and its text do |
| LlmAccounting.GateSoundIff | graphrag_handler.py:4489-4501 | for any raw text and numbers of validated records: every passing product is complete if and only if the raw text shows as many of both kinds, or more of one kind than were validated, or there is at most one record |
| LlmAccounting.NativeGateSound | structured_llm.py:66-70 | the gate is sound when the raw text is the product's own JSON |
| LlmAccounting.BlindGate | graphrag_handler.py:4650-4666 | without JSON in the raw text the gate is sound if and only if there is at most one record |

## Left out

- Neo4j sessions and index options, Redis, spaCy, language detection, embedders and the language model: their answers are parameters or may be anything.
- Timestamps, logging and JSON text: metadata is a record, and a document's source is a field instead of a CONTAINS match on its metadata. Two filter keys that differ only in `-`, `.` and `_` share a query parameter (graphrag_handler.py:2748), which is not modelled.
- Lock expiry: a held lock does not time out; the per-handler locks of the in-process fallback are not distinguished, and neither are index names shared between tenants.
- Generation tokens are their numbers: the parsing of `v<n>` and of malformed tokens, and the creation of a missing Epoch node, are not modelled.
- `initialize`, the lazy alignment of embedders, the technology refresh, the provenance backfill and the single-query decorator on its own.
- Documents added between a swap's snapshot and its locked phase: the code does not re-embed them.
- SourceFile nodes and the document-structure graph; the `concept_gen` tags of RELATED_TO edges, which collection does not read.
- Deleting a collection, and wiping a tenant, between concept flips.
- The storing of concept relations in the provenance invariant: a concept without relations gets no PROVENANCE edge.
- The dependency-parse phase of relation extraction, and the regular expressions; case folding is ASCII only.
- Pending tasks are cancelled and forgotten in one step by a close, although the code awaits the cancellations in between.
- Provenance.RunTracedIff: does not cover deletions without a source, because those leave file lists alone.
- Hooks, phase wrappers, the maintenance scripts and the configuration models.
