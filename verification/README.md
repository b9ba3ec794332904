# Memory core: a verified model

This project models the stateful algorithms of `core/src/arango_memory`, the agent-memory core kept
around a graph database, and proves what they promise. The collections are maps and sequences,
the language model is an arbitrary oracle, and what remains is the state and the arithmetic.

`dafny verify dfyconfig.toml` checks everything.

| part | files | what is proved |
|---|---|---|
| entity graph | `GraphModel`, `GraphBatch`, `GraphRefinement`, `GraphEquality`, `GraphNames`, `GraphSwap`, `GraphTotals`, `GraphEdges`, `GraphPairs`, `GraphResults`, `EntityWriter` | the bulk pass against the sequential one, with the exact condition; conservation of mentions and reliability; beliefs of entities and relations |
| supersession of memories | `SupersessionModel`, `SupersessionLaws`, `SupersessionFields`, `SupersessionPass` | links form a forest over any run; exactly what is linked; oldest-first linking; idle second pass |
| rank repair at retrieval | `RankRepair`, `RankRepairLaws`, `RankRepairOrder`, `RankRepairFields`, `RankRepairPass` | what may be marked, followed and pulled in; size and retention under the cap; exactly which stale memories end below their successors |
| Dream State | `DreamModel`, `DreamVerdicts`, `DreamPass`, `DreamSafety`, `DreamOverlap` | exactly what a pass decides; no verdicts wipe out a conflict cluster, in any run; exactly when overlapping passes make no cycle |
| PageRank | `PageRank`, `PageRankGraph`, `PageRankLaws` | the flow along undirected edges, conservation, contraction, error bounds, early stop |
| label propagation | `Communities`, `CommunityLaws`, `CommunitySettles`, `CommunityPass`, `Sorting` | components are respected; ids dense and ranked; early stop; it comes to rest; order independence |
| durable write path | `QueueModel`, `QueueSafety`, `QueueLeases`, `QueueReplay`, `QueueLiveness`, `QueueWorker` | nothing lost, everything can still be drained, exactly when leases overlap, exactly when a run loses an intent, the flush barrier, for any number of workers |
| store | `StoreModel`, `StoreRecords`, `StoreGraph`, `StoreReplay`, `StoreBuffer`, `StoreBulk`, `StorePass` | only redacted text is kept; replays do not count; crashes feed the graph at most once; the working buffer; bulk against one by one |
| embedding cache | `EmbeddingCache` | transparent, and exactly the most recently used keys |
| record revisions | `Revisions` | one live memory per record; exactly when it reads back |
| rate limiter | `Limiter` | bounds per window and per sliding span |
| fusion, rerank, MMR, packing | `Fusion`, `RankingTail`, `Packing`, `PackingTiers` | exact scores and dominance; strict head over tail; greedy choice; maximal packing in budget |

Each imperative part of the source is a class or a set of methods with its loops, whose postconditions
equate the new state with a specification function; the laws are lemmas about those functions and
about whole runs of them. `Common` holds facts about sequences without repeats.

## Conventions

- Floats are reals. Cosine similarity, the embedder, the extractor, the redactor, the topic blend, date
  parsing and exponentiation are function parameters; laws of exponentiation are stated where they are
  needed (`GraphTotals.PowLaws`). Replies of a language model are functions of what it is asked, with
  no law at all; no question is asked twice in one run, so this leaves every reply open.
- Hashes are injective. A document key made of a hash is the tuple that is hashed.
- An entity document is named by its natural key (name, label), which the unique index on
  `entities` makes equivalent to its generated key. A `relates_to` document is named by the unordered
  pair of its ends. One tenant is modelled; the scan path of entity resolution, not the ANN index.
- Node keys in the graph algorithms, memory keys in the retrieval parts and times are integers; only
  their order matters.
- Reading the clock is an argument. A clock that does not run backwards is assumed in the store, the limiter
  and, for workers that nack, in `QueueLeases.LeasesDisjoint`; `QueueLeases.OverlapIff` holds under any clocks.

## Where the code and its documentation part

- `write_entities_many` (`ingest/entities.py:558-566`) promises the result of the sequential passes up to
  two differences. Three more are possible: a memory that repeats an entity is counted once per memory in
  bulk and once per occurrence otherwise (`GraphNames.RepeatParts`); a relation may name an
  entity only another memory of the batch extracted (`GraphEquality.ForeignNameParts`); and a name may be
  closer to an entity created in the batch than to the stored one it would merge into
  (`GraphNames.DrawnAwayParts`). For memories that name no entity beside a new one that would absorb it, the exact
  condition is `GraphNames.BatchEqualsSequentialIff`; for others its part on separation is enough but not needed, as merges
  can cancel out (`GraphSwap.SwapAgrees`).
- `label_propagation` (`lifecycle/community.py:3-20`) is called synchronous in its module text; labels are updated
  in place, node by node, and that is what is modelled.
- `run_supersession` (`lifecycle/supersession.py:13-15`) promises each statement to the oldest memory that updates it. The
  candidate caps can hide the statement from that memory; it then goes to a younger one or stays unlinked
  (`SupersessionLaws.OldestLinksIff`, `SupersessionLaws.CapHides`).
- `_supersession` (`retrieve/search.py:682-685`) promises the current successor just above each stale memory. Chains
  are followed five links. A stale memory that is itself where another one's chain stops may be raised to
  its successor's score and stay listed before it (`RankRepairOrder.LongChainFails`). When is exact: for any list
  in `RankRepairOrder.StaleRankExact`, and on one in falling score in `RankRepairOrder.FallingExact`.
- `run_dream_state` (`lifecycle/dream.py:103-169`) takes no lock. Two overlapping passes of one tenant can decide one
  conflict oppositely, when scores moved in between, and deprecate both ends (`DreamOverlap.OverlapFails`). Exactly when
  overlapping passes leave Supersedes without a cycle is `DreamOverlap.AcyclicIff`; that is also enough
  for every conflict cluster to keep an entity (`DreamOverlap.ClusterSurvivesOverlap`).
- The dead letter (`ingest/worker.py:146-158`) is stored under the idempotency key, which does not fix the intent: that of a step
  leaves out its arguments, that of a memory write its reliability and type (`ingest/queue.py:45-53`, `ingest/queue.py:82-85`). A second
  dead letter can replace a different first one (`QueueReplay.DeadLetterReplaced`).
- `replay_failed` (`ingest/worker.py:169-181`) enqueues the intent of a letter and then deletes the letter by key. If a worker
  gives the new document up in between, its letter is the one deleted, and the ack loses the intent
  (`QueueReplay.ReplayRaces`). Exactly when a run loses an intent is `QueueReplay.PreservedIff`.
- The store (`ingest/store.py:386-443`) decides whether a turn is new by its episode, which it inserts first. A try that fails
  after that (the embedder is down, a crash) leaves the turn's entities out of the graph for good
  (`StoreReplay.FedExactly`, `StoreReplay.CutShortUnfed`) and may leave a working buffer one over its capacity
  (`StoreBuffer.FullThenCutShort`; exactly when: `StoreBuffer.DeliverBoundedIff`).
- `store_many` (`ingest/store.py:163-166`) says its gate mirrors the one of a single store. It does not when a
  working turn comes before a plain turn of the same new key (`StoreBulk.WorkingTwinParts`); exactly when is `StoreBulk.GatesAgreeIff`.
- `ArangoMemoryBackend.update` (`crewai/unified.py:246-261`): after a record is deleted its revision numbers start again, so
  saving a text it had before can find the old, invalidated memory under the same key, and the record does
  not read back (`Revisions.SavedAgainHidden`); exactly when is `Revisions.ReadsBackIff`. An update cut
  short and tried again with other content can leave two live memories, or the record invisible
  (`Revisions.CutShortFails`; exactly when: `Revisions.CutShortOrphans`, `Revisions.CutShortReads`).

## Model

| member | source | states |
|---|---|---|
| `EntityWriter.FindBest` | core/src/arango_memory/ingest/entities.py:151-162 | the scan returns the earliest of the most similar other rows, and nothing when no row is above -1 |
| `EntityWriter.FindBestMany` | core/src/arango_memory/ingest/entities.py:165-204 | each extracted name gets its first argmax over the pool, whatever the order of the batch |
| `EntityWriter.SearchesAgree` | core/src/arango_memory/ingest/entities.py:151-204 | the one-name search and the many-names search reach the same decision, so long as both thresholds lie above -1 |
| `GraphModel.BestMatch` | core/src/arango_memory/ingest/entities.py:151-162 | no other row is more similar than the match; without a match no row is above -1; a key never matches itself |
| `GraphPairs.BornFields` | core/src/arango_memory/ingest/entities.py:376-389 | what a new entity holds, field by field |
| `GraphPairs.BumpedFields` | core/src/arango_memory/ingest/entities.py:110-119 | what another mention changes of a stored one, and that nothing else |
| `EntityWriter.CollectPairs` | core/src/arango_memory/ingest/entities.py:399-416 | the pairs one memory asserts: typed relations first, the last one winning, then co-occurrence where no relation is known |
| `GraphPairs.PairsExactly` | core/src/arango_memory/ingest/entities.py:399-416 | a memory asserts a pair as its last relation that resolves to it, else as going together when capped co-occurrences resolve to it, else not; and never an entity with itself |
| `GraphPairs.NamesExactly` | core/src/arango_memory/ingest/entities.py:398-404 | a relation's name means the first entity extracted under it |
| `EntityWriter.EntityGraph.WriteResolved` | core/src/arango_memory/ingest/entities.py:367-397 | one resolved entity: a merge bumps the stored row, otherwise the row is inserted or upserted by natural key; both edges are added |
| `EntityWriter.EntityGraph.RelatePairs` | core/src/arango_memory/ingest/entities.py:417-421 | one corroboration per pair of the memory, and no other edge changes |
| `EntityWriter.EntityGraph.WriteEntities` | core/src/arango_memory/ingest/entities.py:305-427 | the whole sequential pass leaves the graph `WriteOne` describes, keeps it valid, and returns the distinct keys written to in order |
| `EntityWriter.Accumulate` | core/src/arango_memory/ingest/entities.py:604-614 | the accumulator holds, per distinct entity of the batch in first-seen order, how often and with what reliability it was named, its first explicit time and its references |
| `EntityWriter.Resolve` | core/src/arango_memory/ingest/entities.py:621-641 | each distinct entity is resolved once against the stored rows; merges collect increments, the rest keep their own row |
| `EntityWriter.EntityGraph.BulkIncrement` | core/src/arango_memory/ingest/entities.py:643-647 | every merge target is raised by the sum of what merged into it, in one statement |
| `EntityWriter.EntityGraph.BulkUpsert` | core/src/arango_memory/ingest/entities.py:649-662 | every own row is upserted with its totals; new rows are created in first-seen order |
| `EntityWriter.EntityGraph.BulkEdges` | core/src/arango_memory/ingest/entities.py:668-683 | the mention and provenance edges of all references, each to the entity its key resolved to |
| `EntityWriter.EntityGraph.BulkRelations` | core/src/arango_memory/ingest/entities.py:685-726 | each pair of the batch is corroborated by the number of memories asserting it, with the sum of their reliabilities |
| `EntityWriter.EntityGraph.WriteEntitiesMany` | core/src/arango_memory/ingest/entities.py:549-730 | the bulk pass leaves the graph `WriteBatch` describes by totals; it returns per memory the keys in the order the batch first saw the entities |
| `GraphRefinement.FoldIsBatch` | core/src/arango_memory/ingest/entities.py:500-528 | a fold of single mentions is the same as adding each entity its totals once |
| `GraphRefinement.RelateFoldIsBatch` | core/src/arango_memory/ingest/entities.py:530-546 | a fold of single corroborations is the same as corroborating each pair once with its totals |
| `GraphRefinement.DecisionStable` | core/src/arango_memory/ingest/entities.py:371-389 | new rows leave what a name does unchanged exactly when every one of them is harmless to it |
| `GraphRefinement.WriteOneValid` | core/src/arango_memory/ingest/entities.py:305-427 | a write keeps the rows and the creation order in step, without repeats |
| `GraphRefinement.FixedIsBatch` | core/src/arango_memory/ingest/entities.py:549-730 | memory by memory, with every decision taken against the graph at the start, is the batch by totals |
| `GraphEquality.BatchEqualsSequential` | core/src/arango_memory/ingest/entities.py:558-566 | the documented claim: the bulk pass leaves every counter, belief, flag, conflict pointer and edge the sequential passes leave, under distinct entities per memory, separation and local relation names |
| `GraphNames.BatchEqualsSequentialIff` | core/src/arango_memory/ingest/entities.py:558-566 | and, for fresh memories that name no entity beside one that would absorb it, exactly when: distinct entities, separation, and the same tally of each pair under the name table of the batch as under those of the memories |
| `GraphNames.PairSetsDecide` | core/src/arango_memory/ingest/entities.py:664-708 | with one label per name that last condition says: each memory's pair set is the same under both name tables, and the last memory asserting a pair gives it the same kind |
| `GraphSwap.SwapAgrees` | core/src/arango_memory/ingest/entities.py:363-397 | without the restriction on such memories separation is not needed: two memories naming two entities that would absorb each other, on which the passes agree |
| `GraphNames.RepeatParts` | core/src/arango_memory/ingest/entities.py:604-614 | a memory that repeats an entity, on which the passes part under any settings |
| `GraphNames.DrawnAwayParts` | core/src/arango_memory/ingest/entities.py:363-397 | a name that would merge into a stored entity but is closer to one the batch creates, on which the passes part |
| `GraphNames.LocalNamesAgree` | core/src/arango_memory/ingest/entities.py:664-694 | local relation names are enough for that condition |
| `GraphEquality.UnlikeNamesSeparate` | core/src/arango_memory/ingest/entities.py:558-566 | the documented hypothesis is enough for separation: unlike new names, a symmetric similarity and current embeddings |
| `GraphEquality.ForeignNameParts` | core/src/arango_memory/ingest/entities.py:664-694 | where the claim fails without local names: a relation to an entity only another memory of the batch extracted makes an edge in bulk and none one by one |
| `GraphTotals.WriteOneTotal` | core/src/arango_memory/ingest/entities.py:363-389 | one write raises the total mention count and reliability by exactly what its extracted entities carry, however merges fall |
| `GraphTotals.CarriedByMemory` | core/src/arango_memory/ingest/entities.py:363-389 | what a memory carries is the number of its extracted entities, and that many times its reliability |
| `GraphTotals.WriteBatchTotal` | core/src/arango_memory/ingest/entities.py:604-662 | a batch raises both totals by one mention per memory and distinct entity of it |
| `GraphTotals.WriteAllCount` | core/src/arango_memory/ingest/entities.py:363-389 | over any sequence of writes the total mention count is the number of (memory, entity) extractions |
| `GraphTotals.WriteAllReliability` | core/src/arango_memory/ingest/entities.py:363-389 | and the total reliability that of every memory once per entity extracted |
| `GraphTotals.WriteBatchCount` | core/src/arango_memory/ingest/entities.py:604-662 | the batch counts one per memory and distinct entity |
| `GraphTotals.BatchListShorter` | core/src/arango_memory/ingest/entities.py:604-614 | so the batch never counts more than the writes one by one, and as many exactly when no memory repeats an entity |
| `GraphResults.ReturnedExactly` | core/src/arango_memory/ingest/entities.py:671-730 | the keys returned for a memory are exactly the entities its own were written to, each once |
| `GraphTotals.WriteOneBelief` | core/src/arango_memory/ingest/entities.py:48-59 | a write keeps every set belief at confidence times (1 - (1 - base)^reliability_sum) and lowers none |
| `GraphTotals.BatchBelief` | core/src/arango_memory/ingest/entities.py:503-528 | so does the bulk pass |
| `GraphTotals.BeliefInRange` | core/src/arango_memory/ingest/entities.py:48-59 | such a belief lies between 0 and the confidence prior |
| `GraphEdges.WriteAllEdges` | core/src/arango_memory/ingest/entities.py:121-139 | after any writes an edge stands, field by field, at what was stored plus one corroboration and the reliability of every memory that asserted the pair, with the last kind and the first time, and 1 - (1 - base)^sum as its belief; other edges are untouched |
| `GraphEdges.WriteBatchEdges` | core/src/arango_memory/ingest/entities.py:530-546 | so it does after a batch |
| `GraphEdges.WriteOneEdgeBelief` | core/src/arango_memory/ingest/entities.py:121-139 | a write keeps the belief of every edge with a reliability sum at 1 - (1 - base)^sum, in [0, 1], and lowers none |
| `GraphEdges.WriteAllEdgeBelief` | core/src/arango_memory/ingest/entities.py:121-139 | so does any sequence of writes |
| `GraphEdges.WriteBatchEdgeBelief` | core/src/arango_memory/ingest/entities.py:530-546 | and a batch |
| `DreamSafety.PointsBack` | core/src/arango_memory/ingest/entities.py:373-389 | conflict_with always names an entity created earlier |
| `EntityWriter.CooccurringPairs` | core/src/arango_memory/ingest/extract.py:400-416 | the capped co-occurrence loop yields the first `max` index pairs, row by row |
| `DreamPass.DreamGraph.Decide` | core/src/arango_memory/lifecycle/dream.py:108-153 | the decision loop reads only the candidates as they stand and plans one outcome each |
| `DreamVerdicts.SupersededExactly` | core/src/arango_memory/lifecycle/dream.py:113-138 | a plan supersedes exactly in the contested conflicts, and the entity with the higher belief, then with more mentions, then the flagged one wins |
| `DreamVerdicts.WinnerIsBetter` | core/src/arango_memory/lifecycle/dream.py:131-138 | no winner has a lower belief than its loser, nor fewer mentions at the same belief |
| `DreamVerdicts.ClearedExactly` | core/src/arango_memory/lifecycle/dream.py:118-140 | exactly which flags a plan clears; not those of entities in different communities |
| `DreamVerdicts.SummarizedExactly` | core/src/arango_memory/lifecycle/dream.py:142-153 | exactly which entities get which summary |
| `DreamVerdicts.TrippedExactly` | core/src/arango_memory/lifecycle/dream.py:155-158 | the breaker trips exactly when more than that share of the reviewed entities would be superseded |
| `DreamPass.DreamGraph.ApplySupersessions` | core/src/arango_memory/lifecycle/dream.py:162-164 | every loser is soft-deprecated, every winner unflagged, every edge recorded, nothing else changed |
| `DreamPass.DreamGraph.ApplySummaries` | core/src/arango_memory/lifecycle/dream.py:167-168 | each distilled entity ends with the last summary planned for it |
| `DreamPass.DreamGraph.Apply` | core/src/arango_memory/lifecycle/dream.py:160-168 | the three apply loops together are `ApplyPlan` |
| `DreamPass.DreamGraph.RunDreamState` | core/src/arango_memory/lifecycle/dream.py:112-183 | a whole pass: the plan over the candidates, applied unless the breaker trips, with the counts it reports |
| `DreamVerdicts.PassExactly` | core/src/arango_memory/lifecycle/dream.py:160-168 | what a pass does to each entity, field by field |
| `DreamSafety.StepSound` | core/src/arango_memory/lifecycle/dream.py:112-168 | every event (single write, bulk write, labels, begin, finish) keeps the invariant: conflict pointers go back in creation order, each Supersedes edge lies along a conflict edge, each dead entity has a killer |
| `DreamSafety.DecidedOnce` | core/src/arango_memory/lifecycle/dream.py:130-138 | no step removes or reverses a Supersedes edge or revives an entity |
| `DreamSafety.ClusterSurvives` | core/src/arango_memory/lifecycle/dream.py:112-168 | every set of entities closed under conflict_with keeps one with invalid_at null |
| `DreamSafety.SupersedesAcyclic` | core/src/arango_memory/lifecycle/dream.py:130-138 | Supersedes has no cycle |
| `DreamSafety.RunIsSafe` | core/src/arango_memory/lifecycle/dream.py:112-168 | for passes that follow one another, from an empty store after any writes, labels and passes: every cluster has a survivor and Supersedes has no cycle |
| `DreamOverlap.AcyclicIff` | core/src/arango_memory/lifecycle/dream.py:103-169 | for any number of overlapping passes: Supersedes has no cycle exactly when no pass applies a decision that turns around one applied before |
| `DreamOverlap.ClusterSurvivesOverlap` | core/src/arango_memory/lifecycle/dream.py:103-169 | and when none does, no conflict cluster is wiped out |
| `DreamOverlap.OverlapFails` | core/src/arango_memory/lifecycle/dream.py:103-169 | from an empty store, two writes, a review begun, a write that turns the scores, a second review begun and both finished deprecate both entities of a conflict |
| `DreamSafety.PassIsTwoSteps` | core/src/arango_memory/lifecycle/dream.py:112-183 | an undisturbed pass is its decide step followed by its apply step |
| `DreamPass.DreamGraph.Supersede` | core/src/arango_memory/lifecycle/conflict.py:17-35 | one idempotent edge from winner to loser; the loser gets invalid_at and keeps everything else |
| `PageRankLaws.SweepTotal` | core/src/arango_memory/lifecycle/salience.py:57-67 | a sweep turns a total s into (1 - d) + d s, so total 1 stays 1, dangling nodes and repeated edges included |
| `PageRankGraph.AdjacencyExactly` | core/src/arango_memory/lifecycle/salience.py:50-54 | a node's list holds each other node as often as an edge joins the two, whichever way round, and nothing else |
| `PageRankGraph.SweepExactly` | core/src/arango_memory/lifecycle/salience.py:57-67 | each node gets an equal part of 1 - d and of the damped score of nodes without edges, and of every other node the damped share per join |
| `PageRankGraph.JoinsDecide` | core/src/arango_memory/lifecycle/salience.py:50-67 | the scores depend only on how often each two nodes are joined |
| `PageRankGraph.DirectionDoesNotMatter` | core/src/arango_memory/lifecycle/salience.py:50-54 | so not on which way round an edge is listed |
| `PageRankLaws.SweepFloor` | core/src/arango_memory/lifecycle/salience.py:56-67 | after a sweep every node holds at least the teleport share |
| `PageRankLaws.SweepContracts` | core/src/arango_memory/lifecycle/salience.py:57-67 | a sweep brings any two vectors closer in L1 by the factor d |
| `PageRankLaws.IterateFacts` | core/src/arango_memory/lifecycle/salience.py:55-71 | every iterate totals 1 and is nonnegative; from the first sweep on each score is at least the teleport share |
| `PageRankLaws.DistanceToFixed` | core/src/arango_memory/lifecycle/salience.py:57-71 | after t sweeps the distance to any fixed point is at most 2 d^t |
| `PageRankLaws.IteratesNear` | core/src/arango_memory/lifecycle/salience.py:57-71 | with no fixed point assumed: any two iterates from the t-th on are within 2 * d^t |
| `PageRankLaws.FixedUnique` | core/src/arango_memory/lifecycle/salience.py:57-67 | there is at most one fixed point |
| `PageRankLaws.EarlyStop` | core/src/arango_memory/lifecycle/salience.py:68-70 | stopping when a sweep moves less than tol leaves at most tol d / (1 - d) |
| `PageRankLaws.NormalizedRange` | core/src/arango_memory/lifecycle/salience.py:72-73 | returned scores lie in (0, 1] and the largest is exactly 1 |
| `PageRankLaws.NormalizedExactly` | core/src/arango_memory/lifecycle/salience.py:72-73 | each result is the score over the greatest one |
| `PageRankLaws.OneSweep` | core/src/arango_memory/lifecycle/salience.py:57-67 | the nested loops compute exactly one sweep |
| `PageRankLaws.Centrality` | core/src/arango_memory/lifecycle/salience.py:38-73 | the method returns the normalised scores of the sweep it stops at: the first that moved less than tol, or the last allowed |
| `CommunityPass.Adjacency` | core/src/arango_memory/lifecycle/community.py:63-67 | the adjacency table lists, per node, one neighbour per usable edge in order |
| `CommunityLaws.NeighboursExactly` | core/src/arango_memory/lifecycle/community.py:63-67 | a node's neighbours are the nodes edges join it to, each as often, whichever way round |
| `CommunityPass.MajorityLabel` | core/src/arango_memory/lifecycle/community.py:77-79 | the Counter, max and min loops give the smallest of the most frequent neighbour labels |
| `CommunityLaws.BestIsBest` | core/src/arango_memory/lifecycle/community.py:77-79 | `Best` is a most frequent neighbour label and the smallest of them |
| `CommunityLaws.BestUnique` | core/src/arango_memory/lifecycle/community.py:77-79 | only one label is |
| `CommunityPass.OnePass` | core/src/arango_memory/lifecycle/community.py:72-82 | one pass is the in-place sweep, and its flag says exactly whether any label moved |
| `CommunityPass.Propagation` | core/src/arango_memory/lifecycle/community.py:71-84 | the outer loop is at most `iterations` sweeps, stopped after one that changes nothing |
| `CommunityPass.Groups` | core/src/arango_memory/lifecycle/community.py:86-89 | the groups have the sizes of the label classes, in the order labels first come |
| `CommunityPass.LabelPropagation` | core/src/arango_memory/lifecycle/community.py:51-92 | the whole method returns the ids the model gives |
| `CommunityLaws.FinalAtHome` | core/src/arango_memory/lifecycle/community.py:69-84 | throughout, each node's label is the key of a node it is connected to |
| `CommunityLaws.CommunityConnected` | core/src/arango_memory/lifecycle/community.py:63-92 | two nodes with one id are connected |
| `CommunityLaws.IsolatedAlone` | core/src/arango_memory/lifecycle/community.py:56-59 | a node without usable edges shares its id with nobody |
| `CommunityLaws.IdsDense` | core/src/arango_memory/lifecycle/community.py:89-92 | the ids in use are exactly 0 .. c-1 |
| `CommunityLaws.IdsBySize` | core/src/arango_memory/lifecycle/community.py:90-91 | a smaller id is never a smaller community; equal sizes go by the smaller label |
| `CommunityLaws.EarlyStopIsFixed` | core/src/arango_memory/lifecycle/community.py:72-84 | more iterations leave the labels as they are if and only if every node has its neighbours' best label |
| `CommunitySettles.FinalSettled` | core/src/arango_memory/lifecycle/community.py:69-84 | with more than (n + 1) * edges + n * n iterations for n nodes propagation has come to rest: every node has its neighbours' best label |
| `CommunityLaws.OrderDoesNotMatter` | core/src/arango_memory/lifecycle/community.py:69-92 | the ids depend on which nodes there are and how often each pair is joined, not on the order of nodes or edges nor on an edge's direction |
| `DreamSafety.StoreEvents` | core/src/arango_memory/lifecycle/community.py:44-48 | labelling gives every live entity its label, or -1 when it has none, and touches no other field |
| `Sorting.SortedUnique` | core/src/arango_memory/lifecycle/community.py:69 | two sorted lists of the same elements are the same list |
| `QueueWorker.InProcessQueue.Enqueue` | core/src/arango_memory/ingest/queue.py:117-119 | appends to the waiting intents |
| `QueueLiveness.EnqueuedWaits` | core/src/arango_memory/ingest/queue.py:117-119 | whatever is enqueued waits behind what is there |
| `QueueWorker.InProcessQueue.TakeClaim` | core/src/arango_memory/ingest/queue.py:121-128 | moves the oldest waiting intent in flight under a new handle, or answers that there is none |
| `QueueWorker.InProcessQueue.Ack` | core/src/arango_memory/ingest/queue.py:130-132 | forgets the handle, whether or not it was in flight |
| `QueueWorker.InProcessQueue.Nack` | core/src/arango_memory/ingest/queue.py:134-138 | puts an intent still in flight back at the front |
| `QueueWorker.InProcessQueue.PendingCount` | core/src/arango_memory/ingest/queue.py:144-150 | counts the waiting and the in-flight intents of a tenant |
| `QueueWorker.ArangoQueue.Enqueue` | core/src/arango_memory/ingest/queue.py:197-206 | inserts an unleased document under a key never used before |
| `QueueWorker.ArangoQueue.FindFree` | core/src/arango_memory/ingest/queue.py:159-164 | an oldest document that is unleased or whose lease has run out, if there is one |
| `QueueWorker.ArangoQueue.TakeClaim` | core/src/arango_memory/ingest/queue.py:208-221 | leases such a document until now plus the lease time, and changes nothing else |
| `QueueLiveness.ClaimExactly` | core/src/arango_memory/ingest/queue.py:159-164 | a claim takes a free document than which no free one was enqueued earlier |
| `QueueWorker.ArangoQueue.Ack` | core/src/arango_memory/ingest/queue.py:223-225 | deletes the document if it is there |
| `QueueWorker.ArangoQueue.Nack` | core/src/arango_memory/ingest/queue.py:227-231 | clears the lease; an error when the document is gone |
| `QueueWorker.ArangoQueue.PendingCount` | core/src/arango_memory/ingest/queue.py:174-180 | counts every document of the tenant, leased or not |
| `QueueSafety.NothingLost` | core/src/arango_memory/ingest/queue.py:157-231 | in every run of enqueues, claims, commits, failures, dead letters, acks, nacks and crashes by any number of workers, an enqueued intent is still a document, or committed, or dead-lettered |
| `QueueLiveness.CanDrain` | core/src/arango_memory/ingest/queue.py:183-231 | after any run one worker can commit and ack every document left, and nothing else changes hands |
| `QueueLiveness.FreedAfter` | core/src/arango_memory/ingest/queue.py:223-231 | a worker that acked, gave back or crashed holds nothing, and what it gave back is unleased and otherwise unchanged |
| `QueueLeases.OverlapIff` | core/src/arango_memory/ingest/queue.py:157-231 | in any run, whatever the clocks: some claim of a document starts inside the lease of the one before it, not given back by its holder, exactly when a worker that is not the latest holder nacked it and it was claimed again before that lease had ended |
| `QueueLeases.LeasesDisjoint` | core/src/arango_memory/ingest/queue.py:157-165 | while only holders nack and clocks go forward, a later claim of a document starts after every earlier lease ran out or was given back by its holder; without nacks whatever the clocks say |
| `QueueLeases.LateNackOverlaps` | core/src/arango_memory/ingest/queue.py:227-231 | with a nack by a holder whose lease has run out, two leases overlap |
| `QueueSafety.FlushIsBarrier` | core/src/arango_memory/ingest/queue.py:174-180 | when no document of a tenant is left, everything it enqueued is committed or dead-lettered |
| `QueueSafety.LocalFlushIsBarrier` | core/src/arango_memory/ingest/queue.py:108-150 | the in-process queue balances (enqueued is outstanding plus acked, per intent), so an empty count means settled there too |
| `QueueLiveness.LocalCanDrain` | core/src/arango_memory/ingest/queue.py:108-138 | what waits in the in-process queue can be settled and acked in the order it was enqueued |
| `QueueLiveness.NackedComesNext` | core/src/arango_memory/ingest/queue.py:134-138 | an intent given back is the next one claimed |
| `QueueLiveness.LocalFreedAfter` | core/src/arango_memory/ingest/queue.py:130-138 | a worker that acked or crashed holds nothing; a handle that is gone is not given back |
| `QueueWorker.WriteWorker.Process` | core/src/arango_memory/ingest/worker.py:106-126 | commits on the first try that works and reports it; dead-letters under the key exactly when no try does |
| `QueueLiveness.TriesExactly` | core/src/arango_memory/ingest/worker.py:114-123 | a worker tries while it has failed fewer than `max_retries` times since its claim and dead-letters exactly after that many |
| `QueueWorker.WriteWorker.Drain` | core/src/arango_memory/ingest/worker.py:137-144 | settles everything queued, oldest first, and leaves what was in flight alone |
| `QueueWorker.DrainCommits` | core/src/arango_memory/ingest/worker.py:137-144 | a drain commits exactly the intents in whose turn some try succeeds |
| `QueueWorker.DrainLetters` | core/src/arango_memory/ingest/worker.py:137-158 | and leaves under each key the last intent in whose turn none did, or the letter that was there |
| `QueueWorker.DrainSettles` | core/src/arango_memory/ingest/worker.py:137-144 | each drained intent is committed if some try in its turn succeeds and has a dead letter under its key otherwise |
| `QueueReplay.LetterIsLast` | core/src/arango_memory/ingest/worker.py:146-158 | over any run: an intent is the dead letter under its key exactly when the last letter written under that key, and not cleared since, was of that intent |
| `QueueReplay.DeadLetterReplaced` | core/src/arango_memory/ingest/worker.py:146-158 | where it does not, the second dead letter replaces the first and the first intent is gone |
| `QueueReplay.ClearKeepsIff` | core/src/arango_memory/ingest/worker.py:169-181 | clearing a letter keeps every intent queued, committed or lettered exactly when the letter's intent is queued or committed under some document; the new one of a replay counts |
| `QueueReplay.StepPreserved` | core/src/arango_memory/ingest/worker.py:130-181 | one step keeps every intent queued, committed or lettered exactly when the intent of a letter it clears or replaces is queued or committed, and that of an uncommitted document it acks is carried by another document or is the dead letter |
| `QueueReplay.PreservedIff` | core/src/arango_memory/ingest/worker.py:130-181 | in any run with replays, crashes and races every intent is queued, committed or lettered at every point exactly when each step does so in the state it meets |
| `QueueReplay.GivenUpReturns` | core/src/arango_memory/ingest/worker.py:137-181 | a document given up still counts: after a crash before the ack and a clear of the letter it is claimed again |
| `QueueReplay.ReplaysLoseNothing` | core/src/arango_memory/ingest/worker.py:169-181 | where keys fix intents, a run that clears each letter while a document of its intent is there that was not given up keeps every intent at every point |
| `QueueReplay.ReplayAtOnce` | core/src/arango_memory/ingest/worker.py:178-179 | enqueueing the letter's intent and clearing the letter at once keeps every intent, and leaves a fresh document for it |
| `QueueReplay.ReplayRaces` | core/src/arango_memory/ingest/worker.py:178-179 | if a worker gives the new document up between the two, the intent is gone |
| `SupersessionPass.Memories.OlderThan` | core/src/arango_memory/lifecycle/supersession.py:166-180 | the candidates shown to the model: what the query finds, strictly earlier (and anchored), cut to the limit |
| `SupersessionPass.Memories.Link` | core/src/arango_memory/lifecycle/supersession.py:192-195 | the picked statements point to the new memory and carry its time; nothing else changes |
| `SupersessionPass.Memories.RunSupersession` | core/src/arango_memory/lifecycle/supersession.py:148-201 | a whole pass leaves the model's store and reports its tally |
| `SupersessionLaws.RowFacts` | core/src/arango_memory/lifecycle/supersession.py:162-197 | one row: exactly the statements it takes get its link and time, the row is stamped, nothing else moves |
| `SupersessionFields.LinkFields` | core/src/arango_memory/lifecycle/supersession.py:95-145 | what a row newly links, field by field: same agent, valid, not working, unlinked, strictly earlier by content time, checked and anchored where asked; with the row's key and time text |
| `SupersessionFields.RowsExactly` | core/src/arango_memory/lifecycle/supersession.py:57-63 | the rows of a pass are the scanned memories that are valid, not working and not checked |
| `SupersessionFields.RowsInTime` | core/src/arango_memory/lifecycle/supersession.py:162 | in the order of their content times |
| `SupersessionFields.CapsHold` | core/src/arango_memory/lifecycle/supersession.py:178-180 | at most the cap is shown of at most the fetch limit |
| `SupersessionFields.FilteredInOrder` | core/src/arango_memory/lifecycle/supersession.py:73-92 | the filters keep the order in which candidates came back |
| `SupersessionLaws.RowLinksAnswered` | core/src/arango_memory/lifecycle/supersession.py:188-197 | for any replies: a row links a statement exactly when its reply has an answer line that names it |
| `SupersessionLaws.PassLinksAnswered` | core/src/arango_memory/lifecycle/supersession.py:162-197 | after a pass a statement has the link it had, or else one to the first row whose answer named it; a reply without an answer line links nothing |
| `SupersessionLaws.LinkedOnce` | core/src/arango_memory/lifecycle/supersession.py:73-74 | a link, once set, is never set again through any inserts, promotions, invalidations and passes |
| `SupersessionLaws.LinksFormForest` | core/src/arango_memory/lifecycle/supersession.py:153-197 | after any run the links go to strictly later memories of the same agent and carry their time; from every memory they lead to one nothing updated, never back |
| `SupersessionLaws.EarlierAlreadyChecked` | core/src/arango_memory/lifecycle/supersession.py:88-97 | the filter on checked candidates is no restriction: when a row's turn comes every live earlier memory is checked |
| `SupersessionLaws.LinkedToFirstShown` | core/src/arango_memory/lifecycle/supersession.py:162-197 | for any caps: a statement is linked to the first row that was shown it at its turn and judged to update it, and to none when there was no such row |
| `SupersessionLaws.LinkedToOldest` | core/src/arango_memory/lifecycle/supersession.py:13-15 | a statement several new memories are judged to update, each with it among its first min(fetch, cap) neighbours, is linked to the oldest of them, and linked whenever there is one |
| `SupersessionLaws.OldestLinksIff` | core/src/arango_memory/lifecycle/supersession.py:178-180 | for any caps the oldest updater gets the statement exactly when it is among those shown at that row's turn |
| `SupersessionLaws.CapHides` | core/src/arango_memory/lifecycle/supersession.py:180 | with a cap of one, a statement that a new memory updates can stay unlinked |
| `SupersessionLaws.SecondPassIdle` | core/src/arango_memory/lifecycle/supersession.py:13-14 | a pass right after a pass compares nothing and changes nothing |
| `SupersessionLaws.TallyCounts` | core/src/arango_memory/lifecycle/supersession.py:197-201 | the number reported superseded is the number of links added |
| `SupersessionFields.TallyExactly` | core/src/arango_memory/lifecycle/supersession.py:184-201 | the counts are those of rows stamped, rows shown something, and replies without an answer line |
| `SupersessionModel.InRange` | core/src/arango_memory/lifecycle/supersession.py:136-145 | the picked indices are exactly the answered numbers between 1 and n, ascending, each once |
| `RankRepairPass.Follow` | core/src/arango_memory/retrieve/search.py:707-720 | the hop loop finds the statement the chain leads to within the limit, in the time view |
| `RankRepairPass.TakeTurn` | core/src/arango_memory/retrieve/search.py:707-728 | one candidate's turn: marked stale, its current statement pulled in if missing and raised a step above it |
| `RankRepairPass.CutTo` | core/src/arango_memory/retrieve/search.py:730-736 | the drop loop removes the lowest ranked that was not pulled in until k are left or none can go |
| `RankRepairPass.Supersession` | core/src/arango_memory/retrieve/search.py:673-736 | the whole call returns the model's ranking, scores and stale marks |
| `RankRepairFields.StaleExactly` | core/src/arango_memory/retrieve/search.py:691-723 | exactly those candidates are marked whose stored link, valid in the time view, leads to a candidate or to a stored, valid memory of the caller's in the time view |
| `RankRepairFields.TargetExactly` | core/src/arango_memory/retrieve/search.py:705-719 | what is put above lies one to five such links on, and is the last of its chain unless it is five |
| `RankRepairFields.ReturnedMayBeRead` | core/src/arango_memory/retrieve/search.py:177-186 | every key returned was selected, or is stored, valid, the caller's, and in the time view |
| `RankRepairOrder.RepairSound` | core/src/arango_memory/retrieve/search.py:682-685 | on at most k candidates: exactly min(k, selected + pulled in), no pulled-in one dropped, and a stale one that stays is listed below the one its chain leads to exactly when no later candidate, whose chain stops at it, takes it past that one |
| `RankRepairOrder.StaleRankExact` | core/src/arango_memory/retrieve/search.py:716-736 | for candidates in any order and any k: the exact condition, at the scores of each turn, for a stale one to end below the statement its chain leads to |
| `RankRepairOrder.FallingExact` | core/src/arango_memory/retrieve/search.py:673-736 | on candidates in falling score the condition reads off the call: a later candidate with the very same score leads to the stale one, no earlier one does, and the statement it leads to neither stands earlier nor scores higher from elsewhere |
| `RankRepairOrder.RepairReachesCurrent` | core/src/arango_memory/retrieve/search.py:682-685 | with chains that fit the hop limit, what is put above is the current statement: visible, in the view, updated by nothing visible |
| `RankRepairLaws.TrimFromBelow` | core/src/arango_memory/retrieve/search.py:730-736 | what ranked above something that stays and was not pulled in stays above it |
| `RankRepairLaws.NothingStale` | core/src/arango_memory/retrieve/search.py:673-736 | with nothing stale the call changes nothing |
| `RankRepairOrder.LongChainFails` | core/src/arango_memory/retrieve/search.py:195-196 | with a chain of six links such a call exists: the stale memory stays listed before its successor |
| `Fusion.Fuse` | core/src/arango_memory/retrieve/search.py:348-360 | each fused score is the exact sum of weight / (60 + rank) over the lists, the keys are their union, in non-increasing score |
| `Fusion.ScoreExactly` | core/src/arango_memory/retrieve/search.py:348-360 | place i of a list earns its weight over 61 + i, a document no list has earns nothing, and several lists add up |
| `Fusion.DominanceKept` | core/src/arango_memory/retrieve/search.py:348-360 | a document that does at least as well as another wherever that one appears never ends with a lower score |
| `Fusion.PoolGrows` | core/src/arango_memory/retrieve/search.py:617-636 | fusing further lists beside one loses none of its keys |
| `RankingTail.RerankHead` | core/src/arango_memory/retrieve/search.py:809-811 | otherwise the head is the same candidates with their new scores, sorted by them |
| `RankingTail.RerankKeeps` | core/src/arango_memory/retrieve/search.py:793-819 | reranking keeps the candidates whatever scoring answers, and the list when it fails |
| `RankingTail.RerankTail` | core/src/arango_memory/retrieve/search.py:812-819 | the tail follows in fused order, strictly falling and strictly below the whole head |
| `RankingTail.Pick` | core/src/arango_memory/retrieve/search.py:402-410 | the inner loop picks the first candidate of greatest value |
| `RankingTail.Select` | core/src/arango_memory/retrieve/search.py:382-413 | picks min(k, n) of the candidates, each of greatest value among those remaining |
| `RankingTail.PureRelevance` | core/src/arango_memory/retrieve/search.py:385-386 | at lambda 1 on a list sorted by score that is exactly the first k |
| `RankingTail.RelevanceRange` | core/src/arango_memory/retrieve/search.py:396-405 | relevance runs from 0 for the lowest score to 1 for the highest |
| `RankingTail.ClosestIsMax` | core/src/arango_memory/retrieve/search.py:406 | closeness is that to the closest of what is chosen, 0 when nothing is |
| `RankingTail.TradesOff` | core/src/arango_memory/retrieve/search.py:407-410 | against any other candidate left, the part lambda of what the pick is ahead in relevance is at least the part 1 - lambda of what it is closer |
| `RankingTail.PureDiversity` | core/src/arango_memory/retrieve/search.py:407-410 | at lambda 0 the pick is none closer to the chosen than any other |
| `Packing.AssembleTiered` | core/src/arango_memory/retrieve/search.py:416-448 | the two loops choose the model's memories and count their cost |
| `Packing.PackedExactly` | core/src/arango_memory/retrieve/search.py:427-442 | the cost stays within the budget, nothing is chosen twice, and whatever is left out would overflow what remains |
| `Packing.TierCapsHold` | core/src/arango_memory/retrieve/search.py:427-434 | the first pass keeps every tier within its share |
| `PackingTiers.CapsExactly` | core/src/arango_memory/retrieve/search.py:206 | the shares are 26.7, 46.7, 20 and 6.7 percent of the budget in whole tokens |
| `PackingTiers.TiersInOrder` | core/src/arango_memory/retrieve/search.py:423-426 | the first pass goes tier by tier from the highest score down, and the result by score alone |
| `PackingTiers.CostExactly` | core/src/arango_memory/retrieve/search.py:429-434 | token counts add up, over all and over a tier |
| `PackingTiers.FirstPassFull` | core/src/arango_memory/retrieve/search.py:427-434 | what the first pass leaves out would exceed the budget or its tier's share |
| `Packing.EntityBlock` | core/src/arango_memory/retrieve/search.py:275-295 | summaries are packed in order up to the first that does not fit, within the budget; none means no tokens |
| `PackingTiers.SumExactly` | core/src/arango_memory/retrieve/search.py:275-295 | line by line |
| `Packing.Assemble` | core/src/arango_memory/retrieve/search.py:936-947 | block and memories together stay within max_memory_tokens |
| `StorePass.RecordStore.AddEpisode` | core/src/arango_memory/ingest/store.py:386-396 | inserts the episode unless its key is there, and says which |
| `StorePass.RecordStore.Track` | core/src/arango_memory/ingest/store.py:295-342 | seeds, blends or, on a shift, replaces the session topic; a shift makes the working buffer episodic |
| `StorePass.RecordStore.Enforce` | core/src/arango_memory/ingest/store.py:247-269 | promotes all but the newest `capacity` working memories of the session |
| `StorePass.RecordStore.StoreTurn` | core/src/arango_memory/ingest/store.py:345-445 | the five steps of a commit, in order; a new turn that is not working returns the distinct entities it was written to, any other none |
| `StorePass.RecordStore.GraphInputs` | core/src/arango_memory/ingest/store.py:148-170 | the batch's gate: new, not working, each key once |
| `StorePass.RecordStore.StoreBatch` | core/src/arango_memory/ingest/store.py:89-186 | all episodes, all memories, then one bulk graph pass over the inputs; one result per item, with the keys its memory was written to |
| `StorePass.ResultExactly` | core/src/arango_memory/ingest/store.py:148-186 | what is reported of an item: the keys of its documents, and exactly the entities its memory's extraction was written to |
| `StoreReplay.ReplayIdle` | core/src/arango_memory/ingest/store.py:367-386 | committing a turn whose key was committed before changes nothing |
| `StoreRecords.AllSourced` | core/src/arango_memory/ingest/store.py:371-423 | after any deliveries each memory and episode is that of a delivered turn, with its redacted text and the embedding of that, working and expiring only if the turn was |
| `StoreRecords.RedactionHides` | core/src/arango_memory/ingest/store.py:370-377 | two turns that read the same after redaction leave the very same store and graph |
| `StoreRecords.TopicExactly` | core/src/arango_memory/ingest/store.py:304-342 | how a commit moves the topic of its session, and no other |
| `StoreRecords.WorkingAfter` | core/src/arango_memory/ingest/store.py:325-334 | which working memories a commit makes episodic |
| `StoreReplay.ReplaysDoNotCount` | core/src/arango_memory/ingest/store.py:366-367 | any sequence of complete deliveries with repeats leaves what delivering each distinct key once leaves, in first-delivery order |
| `StoreReplay.FedOnce` | core/src/arango_memory/ingest/store.py:386-443 | however commits are cut short and repeated, the graph is fed at most once per key |
| `StoreReplay.FedExactly` | core/src/arango_memory/ingest/store.py:386-443 | a key is fed exactly when the first delivery that stores its episode runs through and is not a working memory |
| `StoreReplay.CutShortUnfed` | core/src/arango_memory/ingest/store.py:386-443 | a try cut short after the episode, then a whole one: the turn is not fed and the graph stays as it was |
| `StoreReplay.GraphIsFed` | core/src/arango_memory/ingest/store.py:432-443 | after any deliveries the graph is one sequential pass per fed turn |
| `StoreGraph.EdgesAnchored` | core/src/arango_memory/ingest/store.py:386-443 | through any deliveries mention edges leave stored memories and provenance edges reach stored episodes |
| `StoreGraph.FedExtracts` | core/src/arango_memory/ingest/store.py:432-443 | what a fed turn brings to the graph is what the extractor finds in its redacted text, under its own keys and reliability |
| `StoreGraph.ReliabilityCounted` | core/src/arango_memory/ingest/store.py:432-443 | the reliability in the graph is that of the turns fed |
| `StoreReplay.MentionsCountedOnce` | core/src/arango_memory/ingest/store.py:366-367 | the mentions counted are those of the fed turns, each distinct key once |
| `StoreBuffer.EnforceKeepsNewest` | core/src/arango_memory/ingest/store.py:247-256 | the buffer keeps exactly its newest `capacity` memories, in order |
| `StoreBuffer.DeliverBoundedIff` | core/src/arango_memory/ingest/store.py:386-426 | one delivery, complete or cut short anywhere, keeps all buffers within the capacity exactly when it does not put a new working memory into a buffer full after topic tracking without coming to the capacity check, because it ends there or finds its episode already stored |
| `StoreBuffer.BoundedIff` | core/src/arango_memory/ingest/store.py:386-426 | through any deliveries no buffer ever exceeds the capacity exactly when no delivery does that in the state it meets |
| `StoreBuffer.BufferBounded` | core/src/arango_memory/ingest/store.py:244-269 | after any complete deliveries no session's buffer exceeds the capacity |
| `StoreBuffer.FullThenCutShort` | core/src/arango_memory/ingest/store.py:386-426 | for any capacity a run from an empty store that leaves a buffer one over it |
| `StoreBuffer.OverflowStays` | core/src/arango_memory/ingest/store.py:386-426 | delivering the same turn again, completely or not, does not put an overfull buffer right |
| `StoreBulk.StoreManyIsOneByOne` | core/src/arango_memory/ingest/store.py:100-110 | bulk ingestion of turns that are not working, in any sessions, leaves the graph, episodes and memories storing them one by one leaves, when the bulk graph pass agrees on their batch, save that topic tracking may have made working memories of those sessions episodic |
| `StoreBulk.StoreManyExactly` | core/src/arango_memory/ingest/store.py:100-110 | outside sessions the very same store |
| `StoreBulk.SameKeys` | core/src/arango_memory/ingest/store.py:143-176 | whatever the turns: the same episodes and the same memories in the same order |
| `StoreBulk.BatchAgainIdle` | core/src/arango_memory/ingest/store.py:104-106 | storing a batch again changes nothing |
| `StoreBulk.GatesAgreeIff` | core/src/arango_memory/ingest/store.py:163-166 | bulk and one-by-one ingestion feed the same turns to the graph exactly when the first turn of each new key that has a turn which is not working is itself not working |
| `StoreBulk.WorkingTwinParts` | core/src/arango_memory/ingest/store.py:163-166 | they part on a new turn stored as working and then not, in one batch |
| `EmbeddingCache.Cache.Embed` | core/src/arango_memory/embedding_cache.py:54-69 | always the embedder's vector; the key becomes the most recent, the least recent is evicted when over-full; counters exact |
| `EmbeddingCache.Cache.EmbedMany` | core/src/arango_memory/embedding_cache.py:77-100 | the embedder's vector for every text; hits are used first, then misses, in order |
| `EmbeddingCache.UseOnSuffix` | core/src/arango_memory/embedding_cache.py:60-68 | one bounded use is the unbounded use cut to the newest `max` |
| `EmbeddingCache.LatestByUse` | core/src/arango_memory/embedding_cache.py:60 | the recency order is the order of last use |
| `EmbeddingCache.HoldsMostRecent` | core/src/arango_memory/embedding_cache.py:54-100 | after any calls the cache holds the `max` most recently used distinct keys, oldest first |
| `EmbeddingCache.CachedExactly` | core/src/arango_memory/embedding_cache.py:66-67 | a key is cached exactly when fewer than `max` other keys were used since |
| `Revisions.Backend.UpdateRecord` | core/src/arango_memory/crewai/unified.py:246-261 | insert or replace by id: new revision stored, old memory retired, row rewritten; nothing for unchanged content |
| `Revisions.Backend.DeleteRecords` | core/src/arango_memory/crewai/unified.py:263-287 | invalidates the memories of the selected visible records, drops their rows, and counts them |
| `Revisions.OneLiveMemory` | core/src/arango_memory/crewai/unified.py:246-287 | in any run, ids saved again after a deletion included, at most one memory of a record is live: the one its row names |
| `Revisions.SaveVisible` | core/src/arango_memory/crewai/unified.py:246-261 | one save reads back exactly when, for unchanged content, the row is visible, and otherwise no invalidated memory lies under the next revision's key |
| `Revisions.ReadsBackIff` | core/src/arango_memory/crewai/unified.py:246-287 | in any run a record reads as its last saved content at every point exactly when no changed save of it repeats the redacted text of an earlier save at the same revision number |
| `Revisions.SavedAgainHidden` | core/src/arango_memory/crewai/unified.py:250-261 | saved, removed and saved again with the same content a record does not read back |
| `Revisions.RepeatsNeedRemoval` | core/src/arango_memory/crewai/unified.py:250-261 | such an earlier save lies before a removal of the record |
| `Revisions.NotReusedReads` | core/src/arango_memory/crewai/unified.py:246-287 | so a record whose id is not saved again after a deletion always reads back, also with content it had before |
| `Revisions.RetryHeals` | core/src/arango_memory/crewai/unified.py:254-261 | an update cut short after any step and tried again ends where one that ran through ends |
| `Revisions.CutShortOrphans` | core/src/arango_memory/crewai/unified.py:254-261 | tried again with any content after any number of steps, exactly when it leaves two live memories |
| `Revisions.CutShortReads` | core/src/arango_memory/crewai/unified.py:252-261 | and exactly when the second content reads back; the row's own does not once its memory was retired |
| `Revisions.CutShortFails` | core/src/arango_memory/crewai/unified.py:252-261 | both failures on a record saved once: two live memories, and none that reads back |
| `Limiter.RateLimiter.Check` | core/src/arango_memory/api/limits.py:72-82 | the key's window is opened or counted up and the wait answered; a limit of 0 or less changes nothing |
| `Limiter.OpensExactly` | core/src/arango_memory/api/limits.py:77-79 | exactly which calls open a window, and that it starts at them |
| `Limiter.AdmittedExactly` | core/src/arango_memory/api/limits.py:77-82 | of the calls less than a window after the one that opened it exactly the first `limit` are admitted, and the others told when it ends |
| `Limiter.WindowBound` | core/src/arango_memory/api/limits.py:77-82 | calls counted in one window are admitted at most `limit` times |
| `Limiter.SlidingBound` | core/src/arango_memory/api/limits.py:72-82 | over any span no longer than the window at most twice the limit is admitted |
| `Limiter.WaitIsEnough` | core/src/arango_memory/api/limits.py:82 | a rejected caller's wait lies in (0, window], and after it the next call on the key is admitted |

## Left out

- BM25, the vector and ANN indexes, the graph-traversal query and view consistency: engine behaviour; ranked lists and candidate lists are inputs.
- Extraction, named entities, redaction patterns, date parsing, tokenisation and the cross-encoder: functions without laws.
- Edge weights (an exponential moving average), decay, access times and float rounding: no structure beyond arithmetic.
- EntityWriter.EntityGraph.WriteEntitiesMany: an extractor that fails for one memory of a batch is not modelled.
- EntityWriter.EntityGraph.WriteEntities: an extractor that raises is not modelled; the conflict metric is left out.
- Purging, TTL expiry, tenant-level `forget` and the manual supersede endpoint in the graph, Dream, store and revision models.
- DreamSafety.RunIsSafe: passes of one tenant follow one another; `DreamOverlap` lets them overlap. Applying a plan is one step.
- Races between a synchronous and an asynchronous commit of one intent: commits follow one another, each possibly cut short after any of its stages.
- StoreReplay.ReplaysDoNotCount: write intents only; a step intent raises a use count on every delivery.
- StoreModel.Stages: a stage is atomic, so a crash inside the graph pass itself is not split further; prospective queries (full mode) are left out.
- StoreBuffer.BufferBounded: memories of one creation time count as older in the order they were inserted, where the query leaves the order open.
- QueueSafety.NothingLost: for runs without clears, and a letter counts by its key; runs with clears, and letters counted by their intent, are `QueueReplay.PreservedIff`.
- QueueSafety.LocalFlushIsBarrier: the in-process queue is lost with its process, so only worker threads may crash there.
- QueueWorker.WriteWorker.Drain: proved on the in-process queue without other producers; on the durable queue the same loop is the claim, commit and ack steps of `QueueModel`.
- SupersessionModel.Found: the per-entity limit of the entity gate is part of the engine's list; candidates are cut to the fetch limit after the state-dependent filters.
- SupersessionLaws.LinkedToFirstShown: for verdicts that judge each pair on its own; the forest, the tally and the idle second pass hold for any replies.
- RankRepairOrder.RepairSound: other fields of a candidate (signals, text) are left out; a fetched statement is read from the collection each time, where the code keeps it for the call.
- RankingTail.RerankHead: the blended scoring modes of the reranker come in as the final head scores.
- RankingTail.Select: relevance and closeness of candidates are real numbers; a missing embedding is a closeness of 0 given by the caller.
- Packing.PackedExactly: the cost counted is that of the text, as in the code; the line prefix (time, stale mark) is not counted there either.
- Fusion.Fuse: which arms found a document is left out; the decay boost after fusion is a positive factor per document and is left out.
- Communities.Ordered: node keys are given without repeats, as the query on entity keys returns them.
- Revisions.OneLiveMemory: metadata, scopes and filters are reduced to the set of ids a deletion selects.
- Routes, authentication, adapters, Redis variants, telemetry, schema bootstrap, evaluation scripts and the TypeScript demos: plumbing that would only add easy members.
