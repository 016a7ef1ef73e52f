# Verified model of the agent-memory store

The repository keeps an agent's memories in SQLite behind a Rust service, with a vendored C
vector index. This project models the parts whose correctness spans several functions or a
whole run, and proves what they promise. `dafny verify dfyconfig.toml` checks all of it.

| files | component |
|---|---|
| `DiskAnnTables`, `Candidates`, `VisitedRows`, `BeamSearch`, `Prune`, `GraphNode`, `Graph` | DiskANN graph index: bounded sorted candidate list, visited table, beam search, alpha-pruning, reverse edges, delete repair and scrub |
| `KMeans`, `IvfCells`, `IvfRebuild`, `IvfReachable`, `IvfIndex`, `IvfQuery` | IVF index: Lloyd's k-means, 64-slot cells and the rowid map, rebuild, what every reachable index keeps, KNN query |
| `Lcs`, `LineDiff` | longest common subsequence (full table and rolling row), the line diff and ROUGE-L built on it |
| `Wrappers`, `Order`, `RecallTypes`, `Filter`, `Fuse`, `Pack`, `PackTurns`, `Recall` | recall: hard filter, reciprocal rank fusion, rerank, token packing and what each hit gets at its turn, and the gates between them; sorting and options shared by all |
| `Lifecycle`, `LifecycleEffects`, `LifecycleRuns`, `MemoryStore`, `ImportEffects` | memories and the tables around them: provenance and trust, versions, pins, purge, retention, import; the effect of every operation on every row |
| `JobQueue` | the durable job table and its workers |
| `Writer` | the single-writer actor and its callers |

Code that works step by step is modelled by methods with loops over arrays or fields and
proved against specification functions; what the system promises is then proved about those
functions, for every input or every run, in terms that do not mention them where a caller would
not know them. Distances and scores are reals. SQLite tables are
maps and sequences held in fields; a lookup without `ORDER BY` may answer any matching row.
Clocks, embeddings, distances, the token counter, the decay curve, the visited table's hash
and job handlers are parameters about which nothing is assumed. The writer and its callers
are a state machine over all interleavings of their steps.

Where a promise is false of the code, the exact condition under which it holds is proved:

- An IVF delete only decrements its cell's counter, and inserts append at the counter, so after
  deleting anything but a cell's last row the next insert there overwrites a live row
  (`IvfIndex.InsertAfterDeleteOverwrites`, `IvfIndex.OverwriteRun`). An index stays coherent along
  a run exactly when every insert lands on a free slot (`IvfIndex.CoherentRunsExactly`). What
  survives on every run, overwrites included, is enough for queries to be exact over the live rows
  and for a rebuild to restore coherence (`IvfQuery.RunsAnswerExactly`, `IvfIndex.RebuildOfReachable`).
- `shutdown` is documented to drain the queue. Jobs queued behind the shutdown message are
  dropped and their callers get an error (`Writer.LateJobIsDropped`); exactly those in front
  of it run (`Writer.ShutdownDrainsExactly`).
- The vector table copies a row's status, trust and pin. A repeat remembered without a vector
  lowers the trust of the row alone (`LifecycleRuns.StaleTrustRun`), and nothing ever updates the
  status copy, so a pending row that is restored to active stays invisible to the vector leg
  (`LifecycleRuns.StaleStatusRun`). `LifecycleRuns.MirrorKeptExactly` says which steps keep the
  copies true.
- A purge deletes the row in one write and records the tombstone in a later one. An import between
  the two can leave a public id live and tombstoned (`LifecycleRuns.ReimportDuringPurge`);
  `LifecycleRuns.InterleavedPurge` says exactly when the purge ends consistently.
- `fail` and `complete` do not look at the job's status (`JobQueue.UnsafeCalls`);
  `JobQueue.FailIsSafeExactly` and `JobQueue.CompleteIsSafeExactly` say when calling them keeps the
  queue consistent. The worker loop only calls them for the job it holds.

The source itself allows rounded tier shares to exceed the token budget by a token or two; two is
the tight bound (`Pack.SharesOvershoot`, `Pack.OvershootHappens`), and the ceiling holds all the
same (`Pack.PackIsSound`).

## Model

| member | source | states |
|---|---|---|
| Candidates.OfferKeepsTop | crates/sqlite-vec-src/src/sqlite-vec-diskann.c:563-614 | one offer keeps the list the top-capacity of everything offered: sorted, each row at its least offered distance, a row left out only when the list is full of rows at least as near |
| Candidates.OfferDistinct | crates/sqlite-vec-src/src/sqlite-vec-diskann.c:563-614 | an offer never leaves one row twice in the list |
| Candidates.LeastOfIsMinimum | crates/sqlite-vec-src/src/sqlite-vec-diskann.c:563-614 | the recorded least distance of a row is the minimum over its offers and is attained |
| Candidates.ListIsTopOfHistory | crates/sqlite-vec-src/src/sqlite-vec-diskann.c:563-614 | after any offer sequence the list is the top capacity of the whole history |
| Candidates.CandidateList.Insert | crates/sqlite-vec-src/src/sqlite-vec-diskann.c:563-614 | the in-place insert with binary search and shifting performs exactly one offer; it returns false exactly when the offer is discarded |
| Candidates.CandidateList.InsertionPoint | crates/sqlite-vec-src/src/sqlite-vec-diskann.c:590-600 | the binary search finds the leftmost place for a distance |
| Candidates.PlaceIsLeftmost | crates/sqlite-vec-src/src/sqlite-vec-diskann.c:590-600 | a new entry goes in front of the entries at its own distance or more and behind all nearer ones |
| VisitedRows.EmptyEndsProbe | crates/sqlite-vec-src/src/sqlite-vec-diskann.c:658-668 | meeting an empty slot while probing proves the row is not stored |
| VisitedRows.FillKeepsReachable | crates/sqlite-vec-src/src/sqlite-vec-diskann.c:670-685 | filling the first empty slot keeps every stored row's probe path unbroken |
| VisitedRows.VisitedSet.Contains | crates/sqlite-vec-src/src/sqlite-vec-diskann.c:658-668 | linear probing answers membership exactly, for every hash |
| VisitedRows.VisitedSet.Insert | crates/sqlite-vec-src/src/sqlite-vec-diskann.c:670-685 | adds the row unless it is 0, already present or the table is full, and then changes nothing |
| VisitedRows.RoomLeft | crates/sqlite-vec-src/src/sqlite-vec-diskann.c:670-685 | the table has an empty slot exactly while it holds fewer rows than slots |
| VisitedRows.TableSizeDoubles | crates/sqlite-vec-src/src/sqlite-vec-diskann.c:640-646 | the size is a power of two, so that masking a hash is taking it modulo the size |
| BeamSearch.CreationIsStrict | crates/sqlite-vec-src/src/sqlite-vec-diskann.c:563-614 | an unvisited entry is created only when its row's least offered distance strictly drops |
| BeamSearch.NodeOffersExactly | crates/sqlite-vec-src/src/sqlite-vec-diskann.c:776-803 | expanding a node offers exactly its valid neighbours not yet visited, at their quantized distances |
| BeamSearch.OfferNeighbours | crates/sqlite-vec-src/src/sqlite-vec-diskann.c:776-803 | the neighbour loop makes those offers in slot order |
| BeamSearch.ExpandEntry | crates/sqlite-vec-src/src/sqlite-vec-diskann.c:756-829 | one turn of the search loop on the list and the visited table equals its specification, failed reads included |
| BeamSearch.ExpandStep | crates/sqlite-vec-src/src/sqlite-vec-diskann.c:756-829 | one turn keeps the search invariant and descends, with stale edges, evicted rows offered again, unreadable nodes and a full visited table |
| BeamSearch.RunKeepsInvariant | crates/sqlite-vec-src/src/sqlite-vec-diskann.c:756-829 | any number of turns keeps the invariant |
| BeamSearch.LastTurnDescends | crates/sqlite-vec-src/src/sqlite-vec-diskann.c:756-829 | termination: each turn spends possible offers, or leaves fewer unvisited rows |
| BeamSearch.RunKeepsChecked | crates/sqlite-vec-src/src/sqlite-vec-diskann.c:805-828 | after any number of turns every visited entry whose row has a node and a vector is confirmed |
| BeamSearch.RememberedExactly | crates/sqlite-vec-src/src/sqlite-vec-diskann.c:805-806 | a search remembers exactly the rows it has read and expanded, row 0 aside, as long as the visited table has room, and never others |
| BeamSearch.Run | crates/sqlite-vec-src/src/sqlite-vec-diskann.c:756-829 | the loop terminates on every stored graph with nothing unvisited left, as a run of turns |
| BeamSearch.Search | crates/sqlite-vec-src/src/sqlite-vec-diskann.c:694-844 | the search fails only when the medoid's vector cannot be read, is empty without a medoid, and otherwise returns the first k confirmed rows of a completed run: one that starts at the confirmed medoid, always expands the nearest unvisited entry and leaves none unvisited |
| BeamSearch.SearchIsCorrect | crates/sqlite-vec-src/src/sqlite-vec-diskann.c:694-844 | of every completed run: hits are at most k, sorted, distinct, stored, never above exact distance, unbeaten by listed rows; every listed row with a node and a vector is confirmed; the final list is the top of everything offered and locally best |
| BeamSearch.StopIsLocallyBest | crates/sqlite-vec-src/src/sqlite-vec-diskann.c:756-829 | when the search stops every valid neighbour of a listed row is listed or no better than every listed row |
| BeamSearch.HitsAreCandidates | crates/sqlite-vec-src/src/sqlite-vec-diskann.c:831-840 | what an insert relies on: hits sorted, distinct rows, all with stored vectors |
| BeamSearch.IntactHits | crates/sqlite-vec-src/src/sqlite-vec-diskann.c:831-840 | where no edge is stale the hits are the first min(k, n) of the n listed rows, and there is at least one |
| BeamSearch.ShortAnswerIsComplete | crates/sqlite-vec-src/src/sqlite-vec-diskann.c:694-844 | where no edge is stale, a search that answers fewer rows than asked has answered every row that any walk along edges from the medoid reaches |
| BeamSearch.Width | crates/sqlite-vec-src/src/sqlite-vec-diskann.c:705-710 | the requested list size, or the configured one when none is requested, but never below k |
| BeamSearch.MemoryIsWide | crates/sqlite-vec-src/src/sqlite-vec-diskann.c:739-740 | the visited table has at least 16 slots and four for each listed candidate, and fewer than eight for each beyond that |
| Prune.GreedyPicksInOrder | crates/sqlite-vec-src/src/sqlite-vec-diskann.c:873-913 | picks are candidates, in candidate order |
| Prune.GreedyIsDiverse | crates/sqlite-vec-src/src/sqlite-vec-diskann.c:873-913 | no pick is covered by an earlier pick |
| Prune.GreedyIsComplete | crates/sqlite-vec-src/src/sqlite-vec-diskann.c:873-913 | unless the limit was reached every unpicked candidate is covered by an earlier pick |
| Prune.RoundIsGreedy | crates/sqlite-vec-src/src/sqlite-vec-diskann.c:888-909 | one round on the active flags is one unfolding of the recursive greedy choice |
| Prune.PruneSelect | crates/sqlite-vec-src/src/sqlite-vec-diskann.c:873-913 | the flag loop over the distance matrix selects exactly the greedy picks |
| Prune.DropSelf | crates/sqlite-vec-src/src/sqlite-vec-diskann.c:931-944 | the node itself is removed from the candidate arrays in place |
| Prune.SortPairs | crates/sqlite-vec-src/src/sqlite-vec-diskann.c:946-960 | the two arrays are insertion-sorted together, stably |
| Prune.StableSortSorts | crates/sqlite-vec-src/src/sqlite-vec-diskann.c:946-960 | that sort is ascending and a permutation |
| Prune.CoverByVectors | crates/sqlite-vec-src/src/sqlite-vec-diskann.c:984-1012 | a round with lazily loaded vectors deactivates the pick and exactly what it covers |
| Prune.OnDemandIsMatrix | crates/sqlite-vec-src/src/sqlite-vec-diskann.c:915-1020 | when all vectors can be read, choosing on demand equals selecting over the distance matrix |
| Prune.ChosenAreCandidates | crates/sqlite-vec-src/src/sqlite-vec-diskann.c:915-1020 | chosen rows are candidates other than the node, each once |
| Prune.NearestIsChosen | crates/sqlite-vec-src/src/sqlite-vec-diskann.c:946-1020 | unless there is no room or no other row, the first row chosen is a nearest candidate |
| Prune.PassedOverIsCovered | crates/sqlite-vec-src/src/sqlite-vec-diskann.c:962-1020 | while room is left every candidate passed over is covered by a chosen row: alpha times its distance to that row is at most its distance to the node |
| Prune.ChosenAreDiverse | crates/sqlite-vec-src/src/sqlite-vec-diskann.c:962-1020 | chosen rows come nearest first and none is covered by one chosen before it |
| Prune.RobustPrune | crates/sqlite-vec-src/src/sqlite-vec-diskann.c:915-1020 | self-removal, sort and lazy selection together choose the specified rows |
| GraphNode.WritePicks | crates/sqlite-vec-src/src/sqlite-vec-diskann.c:1026-1080 | pick i goes to slot i of a fresh node; a pick whose vector cannot be read leaves its slot empty |
| GraphNode.PickNodeOk | crates/sqlite-vec-src/src/sqlite-vec-diskann.c:1026-1080 | such a node is well formed and its neighbours are exactly the picks |
| GraphNode.FindWorst | crates/sqlite-vec-src/src/sqlite-vec-diskann.c:1204-1218 | finds the first farthest valid neighbour above the starting bound |
| GraphNode.LinkNode | crates/sqlite-vec-src/src/sqlite-vec-diskann.c:1095-1243 | adding a reverse edge does one of what the code allows: nothing, fill an empty slot, or replace the worst |
| GraphNode.LinkKeepsNodeOk | crates/sqlite-vec-src/src/sqlite-vec-diskann.c:1095-1243 | a reverse edge keeps neighbour ids distinct, existing and other than the node |
| GraphNode.LinkOutcome | crates/sqlite-vec-src/src/sqlite-vec-diskann.c:1095-1243 | the edge is missing afterwards if and only if the node was full of others and its own vector could not be read or none it considers is farther than the target; then nothing changed |
| GraphNode.LinkGivesUp | crates/sqlite-vec-src/src/sqlite-vec-diskann.c:1200-1230 | an edge is given up only for a strictly nearer target, only in a full node, and only a farthest one of that node |
| GraphNode.RepairNode | crates/sqlite-vec-src/src/sqlite-vec-diskann.c:1591-1640 | one neighbour's repair: clear the deleted slot, refill it from the deleted node's neighbours |
| GraphNode.FillerIsFirst | crates/sqlite-vec-src/src/sqlite-vec-diskann.c:1591-1635 | the freed slot goes to the first of the deleted node's neighbours that may take it |
| GraphNode.RepairEdges | crates/sqlite-vec-src/src/sqlite-vec-diskann.c:1551-1645 | repair drops only the deleted row, adds at most one of its stored neighbours, keeps ids distinct, and does add one if and only if the node had the edge and some candidate may take the slot |
| GraphNode.ScrubEdges | crates/sqlite-vec-src/src/sqlite-vec-diskann.c:1647-1728 | scrubbing removes exactly the deleted row from a node's neighbours |
| Graph.InsertKeepsGraph | crates/sqlite-vec-src/src/sqlite-vec-diskann.c:1382-1471 | an insert keeps the graph invariant: every valid slot names another stored node, once; nodes and vectors agree; a medoid exactly when non-empty |
| Graph.DeleteKeepsGraph | crates/sqlite-vec-src/src/sqlite-vec-diskann.c:1730-1805 | a delete keeps it, and no valid slot anywhere names the deleted row |
| Graph.DeleteEdges | crates/sqlite-vec-src/src/sqlite-vec-diskann.c:1551-1728 | a delete costs a node no other edge and adds only edges of the deleted node; it adds one if and only if the two linked each other and some neighbour of the deleted node may take the slot |
| Graph.RunsKeepGraph | crates/sqlite-vec-src/src/sqlite-vec-diskann.c:1382-1805 | the invariant holds after every run of inserts and deletes |
| Graph.SearchGivesLegalPicks | crates/sqlite-vec-src/src/sqlite-vec-diskann.c:1415-1452 | search hits, pruned, are legal neighbours for the new node |
| Graph.AnsweredHits | crates/sqlite-vec-src/src/sqlite-vec-diskann.c:1415-1434 | the hits an insert prunes are stored rows, nearest first, each once, and there is at least one |
| Graph.InsertLinks | crates/sqlite-vec-src/src/sqlite-vec-diskann.c:1415-1462 | a new row in a non-empty index has neighbours: a nearest hit of its search first, and while slots are left every other hit is covered by a neighbour |
| Graph.InsertLinksBack | crates/sqlite-vec-src/src/sqlite-vec-diskann.c:1464-1468 | every neighbour of the new row links back unless its node was full and none of its edges was farther by quantized distance |
| Graph.RunsKeepCodes | crates/sqlite-vec-src/src/sqlite-vec-diskann.c:1026-1243 | over every run of inserts of new rows and deletes each valid slot carries the quantized vector of the row it names |
| Graph.Index.Insert | crates/sqlite-vec-src/src/sqlite-vec-diskann.c:1382-1506 | inserting stores the vector, completes a search, prunes its hits, writes the node and links back: one step of the run |
| Graph.Index.Delete | crates/sqlite-vec-src/src/sqlite-vec-diskann.c:1730-1805 | deleting repairs, removes, moves the medoid and scrubs: one step of the run, leaving no edge to the row |
| KMeans.NearestCentroid | crates/sqlite-vec-src/src/sqlite-vec-ivf-kmeans.c:44-56 | the first centroid at least squared distance |
| KMeans.MeanMinimisesCluster | crates/sqlite-vec-src/src/sqlite-vec-ivf-kmeans.c:176-190 | a cluster's mean has the least total squared distance of all points |
| KMeans.UpdateNeverRaises | crates/sqlite-vec-src/src/sqlite-vec-ivf-kmeans.c:176-206 | moving one centroid to its mean, or reseeding an empty one anywhere, never raises the cost |
| KMeans.IterationDescends | crates/sqlite-vec-src/src/sqlite-vec-ivf-kmeans.c:153-207 | cost never rises from one iteration to the next |
| KMeans.RunDescends | crates/sqlite-vec-src/src/sqlite-vec-ivf-kmeans.c:153-207 | cost never rises over any stretch of a run |
| KMeans.UnchangedIsFixed | crates/sqlite-vec-src/src/sqlite-vec-ivf-kmeans.c:153-170 | a run that stops unchanged is at a fixed point: every vector at a nearest centroid, every non-empty cluster's centroid its mean |
| KMeans.AssignAll | crates/sqlite-vec-src/src/sqlite-vec-ivf-kmeans.c:155-168 | assigns each vector its nearest centroid and answers true if and only if some assignment changed |
| KMeans.UpdateAll | crates/sqlite-vec-src/src/sqlite-vec-ivf-kmeans.c:172-206 | non-empty clusters move to their mean, empty ones to the farthest vector under the centroids of that moment |
| KMeans.Lloyd | crates/sqlite-vec-src/src/sqlite-vec-ivf-kmeans.c:129-212 | the whole loop is a Lloyd run, capped by the iteration limit, and stops early only at a fixed point |
| IvfCells.NearestIsFirstLeast | crates/sqlite-vec-src/src/sqlite-vec-ivf.c:567-575 | the centroid an insert uses is the first at least distance |
| IvfCells.HomeIsNearest | crates/sqlite-vec-src/src/sqlite-vec-ivf.c:536-594 | a trained index sends a row to a centroid none is nearer than, the first of those; an untrained one to the unassigned cells |
| IvfCells.OnePlacePerRow | crates/sqlite-vec-src/src/sqlite-vec-ivf.c:673-705 | on a coherent index a row is live exactly when the point query returns its vector, and it sits in one (cell, slot) |
| IvfCells.PutKeepsExactly | crates/sqlite-vec-src/src/sqlite-vec-ivf.c:385-449 | a cell insert keeps the index coherent if and only if the append slot is free and the rowid new |
| IvfCells.InsertKeeps | crates/sqlite-vec-src/src/sqlite-vec-ivf.c:536-594 | on a packed index an insert adds exactly its row and keeps it coherent, packed and assigned to nearest centroids |
| IvfCells.DeleteKeeps | crates/sqlite-vec-src/src/sqlite-vec-ivf.c:596-667 | a delete removes exactly its row and keeps the index coherent |
| IvfCells.DeleteKeepsPackedExactly | crates/sqlite-vec-src/src/sqlite-vec-ivf.c:611-642 | it keeps the valid slots a prefix if and only if the row is absent or its cell's last |
| IvfRebuild.LoadAll | crates/sqlite-vec-src/src/sqlite-vec-ivf.c:755-808 | loading scans valid slots of non-empty cells, capped by the sum of the counters |
| IvfReachable.LoadFindsAll | crates/sqlite-vec-src/src/sqlite-vec-ivf.c:755-808 | loading finds every live row of every index that satisfies the reachable invariant |
| IvfReachable.LiveRowsDistinct | crates/sqlite-vec-src/src/sqlite-vec-ivf.c:755-808 | live rowids are distinct, even after overwrites |
| IvfReachable.CounterCovers | crates/sqlite-vec-src/src/sqlite-vec-ivf.c:385-642 | no cell's counter ever falls below the number of rows live in it |
| IvfReachable.InsertKeepsGrounded | crates/sqlite-vec-src/src/sqlite-vec-ivf.c:536-594 | inserting a new rowid keeps the reachable invariant, free slot or not |
| IvfReachable.DeleteKeepsGrounded | crates/sqlite-vec-src/src/sqlite-vec-ivf.c:596-667 | so does every delete |
| IvfReachable.RebuildRepairs | crates/sqlite-vec-src/src/sqlite-vec-ivf.c:817-1019 | a rebuild of such an index is coherent, packed and assigned, with exactly the live rows, each in one slot |
| IvfRebuild.FlushKeeps | crates/sqlite-vec-src/src/sqlite-vec-ivf.c:919-936 | flushing a buffer of fresh rows keeps the index coherent and packed and adds those rows |
| IvfRebuild.RebuildPartitions | crates/sqlite-vec-src/src/sqlite-vec-ivf.c:841-978 | a rebuild partitions the rows: each in exactly one slot, mapped, in packed cells of its nearest centroid, same rows live |
| IvfRebuild.RebuildIsTight | crates/sqlite-vec-src/src/sqlite-vec-ivf.c:841-978 | a rebuild makes no empty cell and fills a centroid's cells one after the other |
| IvfIndex.RunsAreGrounded | crates/sqlite-vec-src/src/sqlite-vec-ivf.c:338-1019 | every reachable index, overwritten rows or not, satisfies that invariant and keeps live rows in cells of their nearest centroid |
| IvfIndex.PackedRuns | crates/sqlite-vec-src/src/sqlite-vec-ivf.c:338-594 | without deletes every reachable index is coherent, packed and assigned |
| IvfIndex.CoherentRunsExactly | crates/sqlite-vec-src/src/sqlite-vec-ivf.c:338-667 | with deletes an index stays coherent along a run if and only if every insert lands on a free slot |
| IvfIndex.RebuildOfReachable | crates/sqlite-vec-src/src/sqlite-vec-ivf.c:817-1019 | a rebuild loads exactly the live rows of any reachable index and makes it coherent, packed and assigned with those rows |
| IvfIndex.StepRows | crates/sqlite-vec-src/src/sqlite-vec-ivf.c:536-667 | what a step does to the live rows of any reachable index: an insert adds its row less the one it overwrites, a delete drops the row in the cleared slot, a rebuild keeps them all |
| IvfIndex.InsertAfterDeleteOverwrites | crates/sqlite-vec-src/src/sqlite-vec-ivf.c:396-430 | deleting any row of a packed cell but its last makes the next insert there overwrite a live row |
| IvfIndex.OverwriteRun | crates/sqlite-vec-src/src/sqlite-vec-ivf.c:396-430 | a concrete legal run in which rowid 2 reads rowid 3's vector |
| IvfIndex.Index.FindOrCreate | crates/sqlite-vec-src/src/sqlite-vec-ivf.c:338-379 | any cell of the centroid with room, or a new empty one |
| IvfIndex.Index.Insert | crates/sqlite-vec-src/src/sqlite-vec-ivf.c:536-594 | an insert fails only when trained without centroids and otherwise appends to such a cell; a new rowid of the column's dimension keeps the index valid |
| IvfIndex.Index.Delete | crates/sqlite-vec-src/src/sqlite-vec-ivf.c:596-667 | clears the validity bit, decrements the counter, forgets the rowid, and keeps every valid index valid |
| IvfIndex.Index.Rebuild | crates/sqlite-vec-src/src/sqlite-vec-ivf.c:817-1019 | fails without vectors, dimensions or nlist; else loads the live rows, trains centroids by Lloyd's k-means, assigns and writes cells as specified |
| IvfQuery.ScanCell | crates/sqlite-vec-src/src/sqlite-vec-ivf.c:1206-1221 | a cell yields its valid rows in slot order until the counter is used up |
| IvfQuery.SelectNearest | crates/sqlite-vec-src/src/sqlite-vec-ivf.c:1277-1284 | the partial selection sort permutes in place and puts the nearest p first |
| IvfQuery.SelectionIsNearest | crates/sqlite-vec-src/src/sqlite-vec-ivf.c:1255-1284 | the first p ids are p distinct centroids, none farther than one left out |
| IvfQuery.NearestAreProbes | crates/sqlite-vec-src/src/sqlite-vec-ivf.c:1277-1284 | exactly nprobe centroids are probed when there are more than that, all of them otherwise, and none is farther than one left out |
| IvfQuery.ProbesReadHomes | crates/sqlite-vec-src/src/sqlite-vec-ivf.c:1286-1310 | on every reachable index a scan reads exactly the live rows whose nearest centroid is probed |
| IvfQuery.AnswerIsNearest | crates/sqlite-vec-src/src/sqlite-vec-ivf.c:1332-1387 | an answer holds min(k, n) of the n candidates, and none left out is nearer than one answered |
| IvfQuery.AnswerIsSorted | crates/sqlite-vec-src/src/sqlite-vec-ivf.c:1332-1387 | an answer comes nearest first |
| IvfQuery.AnswerDistances | crates/sqlite-vec-src/src/sqlite-vec-ivf.c:1332-1387 | the distances answered are determined, however the sort breaks ties |
| IvfQuery.KnnIsExactOverProbes | crates/sqlite-vec-src/src/sqlite-vec-ivf.c:1225-1390 | on every reachable index the answer is the exact k nearest of the live rows at home in the nprobe nearest centroids, nprobe of them exactly, or all when there are not more |
| IvfQuery.FullProbeIsBruteForce | crates/sqlite-vec-src/src/sqlite-vec-ivf.c:1225-1390 | on every reachable index probing all centroids, or an untrained index, equals a brute-force scan of the live rows |
| IvfQuery.RunsAnswerExactly | crates/sqlite-vec-src/src/sqlite-vec-ivf.c:1225-1390 | both hold of the index after any run of inserts, deletes and rebuilds |
| IvfQuery.QueryKnn | crates/sqlite-vec-src/src/sqlite-vec-ivf.c:1225-1390 | the query computes such an answer, and fails if and only if the index is trained and nprobe is not positive or there is no centroid |
| Lcs.NoCommonIsLonger | src/storage/store.rs:195-227 | no common subsequence is longer than the table entry |
| Lcs.LcsLenIsMaximum | src/storage/store.rs:195-227 | the backtracked pairs are a common subsequence of maximum length |
| Lcs.ComputeLcs | src/storage/store.rs:195-227 | table fill and backtracking return strictly increasing matching pairs, as many as possible |
| Lcs.ComputeLcsLen | src/eval/rouge.rs:38-58 | the rolling-row computation on the shorter side returns the same maximum |
| Lcs.LenSymmetric | src/eval/rouge.rs:38-58 | the length is symmetric, so the shorter-side swap is harmless |
| Lcs.FullLengthIsSubsequence | src/eval/rouge.rs:38-58 | it equals one side's length if and only if that side is a subsequence of the other |
| Lcs.RougeIsDice | src/eval/rouge.rs:64-79 | ROUGE-L is twice the LCS over the sum of the lengths, 0 for an empty side; symmetric, within 0..1, and 1 exactly for equal non-empty token lists |
| LineDiff.WeaveRestores | src/storage/store.rs:149-186 | removed and matched lines, woven back by position, give the text |
| LineDiff.DiffIsFaithful | src/storage/store.rs:149-186 | for any matched pairs removed plus matched is the old text, added plus matched the new, sizes add up |
| LineDiff.DiffIsMinimal | src/storage/store.rs:149-186 | removed plus added is m + n - 2 LCS, least of all diffs whatsoever that weave both line sequences, empty exactly for equal line sequences |
| LineDiff.ComputeLineDiff | src/storage/store.rs:149-186 | the walk along the pairs produces that diff |
| JobQueue.RunsFromStart | src/memory/jobs.rs:48-196 | over every run from the empty queue queued jobs have attempts left, running ones 1..max, dead ones exactly one open dead letter and others none, one row per key, one worker per running job |
| JobQueue.RunsKeepSystem | src/memory/jobs.rs:48-196 | the same from any consistent queue |
| JobQueue.KeysArePermanent | src/memory/jobs.rs:48-82 | a row keeps its idempotency key for ever |
| JobQueue.KnownKeyIsNoOp | src/memory/jobs.rs:48-82 | enqueueing a known key changes nothing, whatever the job's status after any run |
| JobQueue.WorkIsFinite | src/memory/jobs.rs:85-170 | without enqueue or requeue the table changes a bounded number of times: only finitely many claims and outcomes happen |
| JobQueue.FailIsSafeExactly | src/memory/jobs.rs:136-170 | failing an arbitrary row keeps the queue consistent if and only if it is not dead and no worker holds it |
| JobQueue.CompleteIsSafeExactly | src/memory/jobs.rs:121-133 | completing an arbitrary row keeps the queue consistent if and only if it was attempted, is not dead and no worker holds it |
| JobQueue.UnsafeCalls | src/memory/jobs.rs:85-170 | reachable systems where both conditions fail: failing a held job lets a second worker claim it, completing an unclaimed job marks it done without an attempt |
| JobQueue.JobTable.Enqueue | src/memory/jobs.rs:48-82 | rejects unknown kinds, returns the existing row for a known key, else appends a queued job |
| JobQueue.JobTable.ClaimNext | src/memory/jobs.rs:85-118 | claims the lowest due queued job and counts the attempt |
| JobQueue.JobTable.Fail | src/memory/jobs.rs:136-170 | requeues with exponential backoff while attempts remain, else buries with a dead letter |
| JobQueue.JobTable.RequeueDead | src/memory/jobs.rs:173-196 | only a dead job is requeued, with its letters closed |
| JobQueue.JobTable.WorkerTurn | src/memory/worker.rs:101-134 | one turn claims one job and settles it once: complete on success, fail on error or unknown kind |
| JobQueue.RetryBacksOff | src/memory/jobs.rs:136-170 | a retry is due strictly later: after 2 seconds at first, twice as long after each further attempt, never more than 1024 seconds |
| JobQueue.FailSettles | src/memory/jobs.rs:136-170 | a failed job keeps its error and is queued, not due yet, while attempts remain; then it is dead and a letter carries its kind, payload, attempts and error; other jobs are untouched |
| JobQueue.ClaimIsFifo | src/memory/jobs.rs:85-118 | a claim takes the oldest job that is queued and due, and changes nothing when there is none |
| JobQueue.EnqueueAdds | src/memory/jobs.rs:48-82 | a new key of one of the five known kinds adds one job at the end, due at once, with five attempts; any other call changes nothing |
| JobQueue.RequeueRevives | src/memory/jobs.rs:173-196 | a dead job starts over with no attempts, due at once, its letters closed and no other; any other job is left alone |
| Lifecycle.MergedTrust | src/storage/store.rs:116-133 | merging sources yields untrusted exactly when the row or one of the sources was |
| Lifecycle.TrustForgetsOrder | src/storage/store.rs:116-133 | the merged trust does not depend on the order of the sources |
| Lifecycle.ChainFacts | src/storage/store.rs:733-747 | in a chain MAX(version) is its length and version v is its v-th entry |
| Lifecycle.UpdateExtendsChain | src/storage/store.rs:728-838 | an update appends version n+1 superseding n and leaves older versions alone |
| Lifecycle.PurgeLeavesNoReference | src/storage/store.rs:1094-1168 | after a purge no table references the id, so the fail-closed verification never fires |
| Lifecycle.PurgeCountIsTrue | src/storage/store.rs:1074-1092 | the recorded row count is exactly what was removed, and other rows keep their columns and versions |
| Lifecycle.OrphansKeep | src/storage/store.rs:1407-1418 | deleting orphaned versions finds none |
| Lifecycle.StepKeepsStore | src/storage/store.rs:728-1214 | every operation keeps references, identities, version chains and provenance consistent across the tables |
| Lifecycle.RunsKeepStore | src/storage/store.rs:728-1214 | so does every run of them |
| LifecycleEffects.OthersUntouched | src/storage/store.rs:728-1214 | a step changes no column, vector copy, pin or version of any row it does not name |
| LifecycleEffects.CreateStores | src/memory/persist.rs:191-248 | a creation stores the row under a new id with its text as version 1, and a vector row with the same tier, status, trust and pin exactly when embedded |
| LifecycleEffects.BumpIsExact | src/memory/persist.rs:114-161 | a repeat counts once, merges its source and leaves the rest of the row alone; the vector copy follows exactly on the path that keeps vectors |
| LifecycleEffects.UpdateIsExact | src/storage/store.rs:728-838 | an update replaces the text and, given a source, merges it; the trust reaches the vector copy; nothing else of the row changes |
| LifecycleEffects.PinIsExact | src/storage/store.rs:871-900 | row and vector copy are pinned, and the ledger holds the id, exactly when asked to |
| LifecycleEffects.RunsKeepPins | src/storage/store.rs:871-900 | over every run tier and pin agree between the two tables, and the ledger holds exactly the pinned rows if no row was created pinned |
| LifecycleEffects.RestoreUndoesDeprecate | src/storage/store.rs:936-1010 | restoring undoes the deprecation of an active row, the time of change aside, and both are audited |
| LifecycleEffects.FlagsKeepText | src/storage/store.rs:871-1010 | pinning, deprecating, restoring and repeats keep a row's text, versions and identity |
| LifecycleEffects.RefCountIsHistory | src/memory/persist.rs:114-161 | over every run a live row's reference count has grown by exactly its repeats |
| LifecycleEffects.StepLinks | src/storage/store.rs:1094-1130 | a repeat records its self-link once, a purge drops exactly the links of its row, nothing else touches links |
| LifecycleEffects.StepAudits | src/storage/store.rs:936-1214 | one audit entry with public id, action and time for a deprecation, a restoration and a purge, none for anything else |
| LifecycleEffects.RecallRecords | src/storage/audit.rs:143-167 | a recall records one entry for each returned row that still exists |
| LifecycleEffects.DropItemsExactly | src/storage/store.rs:1094-1130 | a purge drops exactly the recall entries of its row |
| LifecycleRuns.TrustIsHistory | src/storage/store.rs:783-811 | over every run a row is untrusted exactly when some source ever applied to it was, equivalently when its recorded source is an untrusted kind |
| LifecycleRuns.StepNeverUpgrades | src/storage/store.rs:783-811 | no step upgrades an untrusted row; rollback, pin, deprecate, restore leave trust and source alone |
| LifecycleRuns.ChainsOnlyGrow | src/storage/store.rs:728-838 | as long as a row lives old versions never change |
| LifecycleRuns.GoneStaysGone | src/storage/store.rs:1094-1130 | a purged id is never live again |
| LifecycleRuns.RollbackAppendsCopy | src/storage/store.rs:845-867 | rollback restores the target text as a new version and keeps provenance; an unknown version changes nothing |
| LifecycleRuns.TombstonedStaysOut | src/cli/export.rs:467-479 | a tombstoned public id is never live again in any run of completed operations |
| LifecycleRuns.MirrorKeptExactly | src/storage/store.rs:936-1010 | a step keeps the vector table's copies of tier, status, trust and pin in agreement if and only if it is not, on an embedded row, a trust-lowering repeat on the vectorless path, a deprecation of a row not deprecated or a restoration of a row not active |
| LifecycleRuns.StaleTrustRun | src/memory/persist.rs:350-370 | a run that leaves an untrusted row marked trusted in the vector table |
| LifecycleRuns.StaleStatusRun | src/storage/store.rs:982-1010 | a run that leaves an active row pending in the vector table, where the vector leg's filter skips it |
| LifecycleRuns.StatusCopyIsFrozen | src/memory/persist.rs:243-248 | over every run a vector row's status is the one its row was created with |
| LifecycleRuns.RecordKeepsExactly | src/storage/store.rs:1189-1214 | appending a tombstone keeps the store consistent if and only if its public id is not live |
| LifecycleRuns.InterleavedPurge | src/storage/store.rs:1063-1214 | whatever runs between the two writes of a purge, it ends consistently if and only if nothing made the public id live again |
| LifecycleRuns.ReimportDuringPurge | src/storage/store.rs:1063-1214 | an allowed import in between leaves the public id live and tombstoned |
| MemoryStore.ReaperIsExact | src/memory/ttl_reaper.rs:30-66 | with expiry in milliseconds since creation, per tier, days that are zero or negative never expiring: the reaper purges exactly the rows deprecated longer than the grace period, those it has just deprecated included, and deprecates exactly the other expired ones, each at its own clock reading |
| MemoryStore.ReaperIsIdempotent | src/memory/ttl_reaper.rs:30-66 | running again with the same lookup times changes nothing |
| MemoryStore.ReaperKeepsStore | src/memory/ttl_reaper.rs:30-66 | a reaper run keeps the store consistent |
| MemoryStore.ImportKeepsStore | src/cli/export.rs:452-707 | every outcome of a batch import keeps the store consistent and brings back no tombstoned id |
| MemoryStore.Database.Persist | src/memory/persist.rs:58-269 | a near duplicate bumps its row and both trust copies; otherwise a new row with version 1 and a vector row; it fails, changing nothing, exactly when that row or public id makes it impossible |
| MemoryStore.Database.PersistNoVector | src/memory/persist.rs:323-453 | the same text in an active or pending row is bumped, else a new row without a vector row, refused only for a public id in use |
| MemoryStore.Database.UpdateMemory | src/storage/store.rs:728-838 | next version, merged trust, kept source of an untrusted row, vector copy; unknown ids change nothing |
| MemoryStore.Database.Rollback | src/storage/store.rs:845-867 | rollback is an update without provenance, refused for an unknown version |
| MemoryStore.Database.SetPinned | src/storage/store.rs:871-900 | canonical row, vector copy and pin ledger change together |
| MemoryStore.Database.HardPurge | src/storage/store.rs:1050-1214 | unknown ids fail untouched; else the rows are erased and, in a later write, tombstone and audit row appended |
| MemoryStore.Database.RunReaper | src/memory/ttl_reaper.rs:30-66 | the two loops perform a reaper run, reading the clock once per row, and report its counts |
| MemoryStore.Database.ImportBatch | src/cli/export.rs:452-707 | one tombstoned row refuses the batch, a dry run only counts, a repeated public id stops it, else bumps and inserts in order and conflicts last |
| MemoryStore.RepeatsAreLive | src/cli/export.rs:491-501 | repeats are looked for among active and pending rows, an import's among rows of its own agent |
| ImportEffects.FateIsExact | src/cli/export.rs:480-506 | a row is new exactly when its public id is unknown and no live row of the agent has its text; it conflicts exactly when its public id is known with another text |
| ImportEffects.CountsAreTrue | src/cli/export.rs:513-706 | inserted, updated and repeated rows are counted as classified and add up to the batch |
| ImportEffects.ImportGrows | src/cli/export.rs:560-707 | the store has exactly as many more rows as were counted inserted and loses none |
| ImportEffects.ImportInserts | src/cli/export.rs:560-707 | every new row is in the store afterwards with the batch's public id, text, tier, status, times, pin and source, its trust from the source |
| ImportEffects.ImportTouches | src/cli/export.rs:560-707 | a row that was there has the text of the last conflicting row for it, one more reference for each repeat, and is untrusted exactly if it was or some row applied to it was |
| Filter.MirrorAgrees | src/recall/filter.rs:243-299 | the SQL predicate and its Rust mirror agree on every row of every table, however the successor subquery resolves it |
| Filter.LoadedRowsAreAdmitted | src/recall/filter.rs:306-352 | every loaded row resolves the table's row and is admitted |
| Filter.LoadByRowids | src/recall/filter.rs:306-352 | the two-gate load returns exactly the wanted rows satisfying the predicate |
| Filter.EligibleExactly | src/recall/filter.rs:179-260 | which rows a query may see, column by column: the agent's own, of an eligible tier, status and trust, not expired, not superseded either way, not referenced before it was created |
| Filter.RowIsFaithful | src/recall/filter.rs:154-176 | the loaded row carries every column under its own name |
| Fuse.FusedUsable | src/recall/fuse.rs:163-201 | nothing missing or rejected by the filter is ever scored |
| Fuse.FusedScore | src/recall/fuse.rs:163-201 | with distinct rowids per leg a row is scored exactly when usable and ranked by a leg; the fused score is the sum of the two rank shares, at most 2/61, attained exactly when both legs rank the row first; similarity and keyword rank are those of the leg that ranks it |
| Fuse.SharesFall | src/recall/fuse.rs:163-201 | the first rank is worth 1/61 and each later one strictly less |
| Fuse.FuseForgetsIteration | src/recall/fuse.rs:203-226 | the fused list does not depend on the hash map's iteration order |
| Fuse.FuseLegs | src/recall/fuse.rs:157-226 | the accumulation and sort loops compute that list |
| Fuse.FusedIsBestFirst | src/recall/fuse.rs:219-225 | fused hits come by falling fused score, equal ones by public id |
| Fuse.FusedListHolds | src/recall/fuse.rs:193-218 | every scored row becomes a hit with its row's labels and what the legs gave it |
| Fuse.ClampIsInactive | src/recall/rerank.rs:44-120 | the normalising clamp never acts, and the normalised term is 1 exactly for a row both legs rank first |
| Fuse.RerankForgetsOrder | src/recall/rerank.rs:105-145 | reranking does not depend on the order of its input |
| Fuse.RerankIsBestFirst | src/recall/rerank.rs:138-144 | reranked hits come by falling score, equal ones by public id |
| Fuse.RerankHolds | src/recall/rerank.rs:112-137 | every hit with a row is ranked, under its weighted score and otherwise unchanged |
| Fuse.RerankFrom | src/recall/rerank.rs:112-137 | nothing else is ranked |
| Fuse.ScoreIsPlain | src/recall/rerank.rs:87-131 | the score is the weighted sum of the fused score relative to 2/61, the importance, discounted by confidence for a pending row, and the decay, which is 1 for a pinned row |
| Fuse.ScoreIsMonotone | src/recall/rerank.rs:105-131 | with weights that are not negative a row at least as good in every term scores at least as much |
| Fuse.RerankHits | src/recall/rerank.rs:105-145 | the scoring and sorting loop computes the reranked list |
| Pack.RolloverConserves | src/recall/pack.rs:197-238 | through any prefix of the tiers what non-pinned hits took plus what is left equals the shares offered, unless adding shares saturates |
| Pack.PrefixWithinShares | src/recall/pack.rs:197-238 | non-pinned tokens of any tier prefix stay within that prefix's shares |
| Pack.PackIsSound | src/recall/pack.rs:153-244 | tokens used within budget, equal to the hits' sum and the tier totals, no hit left unpacked, every prefix within its shares |
| Pack.PackPermutes | src/recall/pack.rs:153-244 | packing permutes the hits: placements and token counts aside none is added, lost, repeated or changed |
| Pack.PackKeeps | src/recall/pack.rs:153-244 | each packed hit equals a hit of the input but for its placement and token count |
| Pack.PackHolds | src/recall/pack.rs:153-244 | every hit of the input is in the packing |
| PackTurns.PackedInTurn | src/recall/pack.rs:129-238 | what every hit gets at its turn: its full text at its measured cost if that fits what budget and tier have left, else its summary at the larger of recorded and measured cost if that fits, else it is dropped whole, the smaller of the two giving the reason |
| PackTurns.EverythingFits | src/recall/pack.rs:129-238 | when all texts fit the budget and every tier prefix fits its shares, every hit is placed in full |
| PackTurns.PackedInOrder | src/recall/pack.rs:163-171 | pinned hits come first, then higher scores, then smaller public ids |
| PackTurns.SharesAreNear | src/recall/pack.rs:81-94 | a tier's share is within half a token of its fraction of the budget |
| Pack.PackForgetsOrder | src/recall/pack.rs:163-171 | packing does not depend on the order of its input |
| Pack.SharesOvershoot | src/recall/pack.rs:81-94 | for fractions adding up to at most one, rounded shares exceed the budget by at most two tokens |
| Pack.OvershootHappens | src/recall/pack.rs:28-31 | the source's own example exceeds its budget by one; four equal shares of two tokens exceed it by two |
| Pack.PackHits | src/recall/pack.rs:153-244 | the pinned pass and the tier passes, in place, compute the packing |
| Recall.NothingLeaks | src/recall/mod.rs:250-305 | whatever the legs supply every reported hit is an admitted row with that row's public id, tier and trust, admitted again after fusion, scoring at least the floor; at most k |
| Recall.QueryIsHonoured | src/recall/filter.rs:179-240 | under the strict policy no untrusted hit; episodic and pending rows only on request; never another agent's, expired or superseded row |
| Recall.NothingIsMissed | src/recall/mod.rs:250-305 | an admitted row that a leg supplied and that is still admitted after fusion is reported, unless its score is below the floor or k other admitted rows score at least as much |
| Recall.RankedHolds | src/recall/mod.rs:250-285 | such a row is ranked under its weighted score |
| Recall.RankedFrom | src/recall/mod.rs:250-285 | every ranked candidate is an admitted row, still admitted after fusion, under its weighted score |
| Recall.ReportedOnce | src/recall/mod.rs:250-305 | no row is reported twice |
| Recall.ReportForgetsIteration | src/recall/mod.rs:250-305 | one report whatever order the fusion map iterates in |
| Recall.ReportIsSound | src/recall/mod.rs:286-320 | the report keeps the packing guarantees |
| Recall.RunRecall | src/recall/mod.rs:250-320 | gates, fusion, rerank, cuts and packing in order compute that report |
| Writer.RunsKeepWriter | src/storage/writer.rs:98-190 | the invariant of the actor holds over all interleavings of callers, timeouts, panics and shutdown |
| Writer.ChannelsAreBounded | src/storage/writer.rs:98-190 | over every run the queue keeps its capacity, only callers still listening have a buffered reply, and the thread ends only after a shutdown message or the last handle is dropped |
| Writer.SendsFindRoom | src/storage/writer.rs:98-190 | whenever the writer sends to a listening caller that caller's slot is free, so no reply is overwritten; a call is rejected only by a stopped thread or a queue exactly full |
| Writer.RunsInOrderAtMostOnce | src/storage/writer.rs:98-125 | closures run one at a time in accepted order, each at most once, timed-out ones included |
| Writer.ShutdownDrainsExactly | src/storage/writer.rs:98-125 | when the thread has ended exactly the closures accepted before the first shutdown message have run, or all of them |
| Writer.AnswersAreTrue | src/storage/writer.rs:136-190 | Ok(v) is the caller's own closure's value, and each error says what happened to that closure, when it is told and in every later state |
| Writer.AnswersStay | src/storage/writer.rs:136-190 | a returned call is never given another answer |
| Writer.WriterNeverStuck | src/storage/writer.rs:98-116 | the writer can move, or its second send waits on a reply its caller is able to receive |
| Writer.InternalRunsAreFinite | src/storage/writer.rs:98-190 | between outside calls only finitely many steps happen |
| Writer.QuietMeansAnswered | src/storage/writer.rs:136-190 | once the writer and its callers have nothing left to do but time out, every call has returned and the queue is empty: the two-send reply protocol needs no timeouts |
| Writer.EveryCallIsAnswered | src/storage/writer.rs:98-190 | from every state some stretch of steps without a single timeout answers every call |
| Writer.HealthIsTrue | src/storage/writer.rs:98-130 | healthy exactly while the thread runs and no closure has panicked |
| Writer.HealthOnlyFalls | src/storage/writer.rs:98-130 | health never comes back |
| Writer.LateJobIsDropped | src/storage/writer.rs:192-200 | a job accepted behind the shutdown message never runs and its caller gets an error |
| Writer.WriterLoop | src/storage/writer.rs:98-125 | the loop runs exactly the closures in front of the first shutdown message, replies success or panic for each, and ends unhealthy |

## Left out

- SQLite plumbing, blob handles, allocation failures and shadow-table creation in the C files: tables are maps and reads of existing rows succeed.
- Float rounding, infinities and NaN: distances and scores are reals, and `FLT_MAX` as a starting minimum is modelled by starting from the first element.
- Buffered DiskANN mode: its replacement medoid may be a vector that has no node yet, so the graph invariant does not hold there.
- DiskANN quantizers and distance kernels: parameters, arbitrary functions.
- IvfIndex.Index.Rebuild: the k-means++ seeding is a function parameter that picks as many starting centroids as asked, of the column's dimension.
- IVF quantizers with oversampling, and the `assign-vectors`, `set-centroid` and `clear-centroids` commands.
- The contents of invalid slots after a rebuild: the code leaves old vectors there, the model free slots; neither is read.
- SHA-256: equal text hashes stand for equal texts.
- The column `kind`, in both tables: no operation changes it and no filter reads it.
- The columns `supersedes_id` and `superseded_by_id` in the lifecycle: no operation writes them; the hard filter models them.
- MemoryStore.Database.RunReaper: other callers' writes between those of a run.
- LifecycleRuns.TombstonedStaysOut: a run is one of completed operations; other callers between the two writes of a purge are treated by `LifecycleRuns.InterleavedPurge`, a crash between them is not.
- MemoryStore.Database.ImportBatch: line parsing, row validation and embedding calls; which inserts carry a vector is a parameter.
- Writer.WriterLoop: only the thread's own loop; its interleaving with callers is in the state machine, where a queue of capacity 0 accepts nothing, unlike a rendezvous channel.
- Job leases, owners and timestamps other than the retry time.
- Fuse.RerankHits: the decay curve is a parameter; only its value 1 for pinned rows is fixed.
- Tokenizing, redaction, FTS5 matching and the vector scan of the recall legs: recall is proved for whatever they return.
- HTTP, MCP and JSON routes, CLI rendering, configuration, tracing, authentication and file locking.
- Markdown ingest, summaries, prompts, cost reports, evaluation metrics other than ROUGE-L, consolidation clustering and the read pool: they would add easier members only.
