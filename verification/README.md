# turbograph: models and proofs

turbograph is a graph-RAG engine: it cuts documents into chunks, embeds them, indexes the
embeddings in an HNSW graph and the text in a BM25 index, joins chunks and entities in weighted
graphs, and keeps the whole corpus in a store that is updated, merged, saved and resumed after a
crash. This project models its algorithms in Dafny and proves what they promise, for every input and
every sequence of operations.

Check everything with `dafny verify dfyconfig.toml`.

| Part | Files |
|---|---|
| Vector index | `Cosine`, `Links`, `LayerSearch`, `Hnsw`, `VisitedSet`, `Heap`, `Orders` |
| TurboQuant codec | `Vectors`, `WalshHadamard`, `Rotation`, `Codebook`, `Quantizer`, `CodecLaws` |
| Weighted graph, PageRank, communities | `Sums`, `WeightedGraph`, `PageRank`, `PageRankLaws`, `PageRankReach`, `Community` |
| Corpus store | `StoreStates` (one function per locked step), `Store` (the object, every method equal to its function), `StoreLaws`, `StoreRuns`, `StoreBatches`, `StoreEffects` (what each operation leaves for the next), `StoreFidelity`, `StoreGuards` (exact conditions), `StoreLosses` (what happens outside them) |
| Ingest and journal | `Journal`, `IngestTrace` (a run as data), `Ingest` |
| Chunks and spans | `Text`, `Chunkers`, `Spans` |
| Lexical and flat search | `BestHits`, `FlatIndex`, `Bm25` |
| Entities | `Levenshtein`, `Entities`, `EntityGraph`, `Canonical` |

Code that updates things in place is modelled by classes, arrays and loops proved against a
specification function or relation; the theorems are then about that specification.

## What the proofs brought out

- Sharing vectors with the index compares lengths only (`rag/store.go:612-619`), and `AddDocuments`
  does it while a rebuild is still pending (`rag/store.go:368`). An update that leaves the number of
  chunks unchanged therefore puts the old vectors back over the new ones:
  `StoreLosses.UpdateKeepsOldVectors` for every such update, `UpdateCanLoseAnEmbedding` on a store
  with one chunk. `StoreGuards.AddedExact` says exactly which calls are harmless on any store, and
  `CurrentAddExact` what that means for a store whose index is current.
- Restoring saved links compares lengths only as well (`rag/store.go:623-657`). An ingested update that
  keeps the number of chunks of a loaded store makes the first search adopt the old links and
  vectors, and so does a merge of as many chunks as were deleted:
  `StoreLosses.RestoreCanLoseAnEmbedding` and `MergeCanLoseAnEmbedding`, with `StoreGuards.SearchExact`
  and `MergedExact` for the exact conditions.
- `StoreGuards.StepExact` and `RunExact` put these together: an operation, or a run, keeps every
  embedding and every link exactly when a condition on the store and the call holds. Chunk ids agree
  between the arrays and both indexes in all cases (`StoreRuns.StepOk`).
- `Build` keeps the books on documents consistent exactly when no two documents share a text and
  none is blank: `StoreRuns.BuiltOk`, and `StoreLosses.EqualTextsBreakTheBooks` and
  `BlankBreaksTheBooks` for the two ways it fails.
- After a crash inside a journal line, the next line is written right behind it and a replay takes
  neither for done: `Journals.MarksReplay` says exactly when a finished `MarkDone` is replayed in
  full. The loss is harmless: a document that is not replayed is offered again and skipped by content.
- When its 32-bit epoch wraps, the visited set clears only the cells in use (`index/hnsw_heap.go:112-118`).
  `VisitedSets.LeftBehindIsMetAgain` and `GuardedRunsAreSets` say exactly which marks left behind make
  a later search start with a node it never visited; `MarksCanAlias` is such a run from a new set.

## Model

| member | source | states |
|---|---|---|
| LayerSearch.SearchLayerFiltered | index/hnsw.go:222-263 | the best-first search terminates and returns distinct accepted nodes sorted by distance that are exactly the best ef of the accepted nodes it visited; every link of a returned node was visited, and a result that is not full means everything reachable was; so no accepted neighbour of a result beats the worst result unless it is returned |
| LayerSearch.ExpandNode | index/hnsw.go:240-260 | the loop over one node's links keeps the search invariant: every visited node waits, is expanded, or lies beyond a full result, and the result holds the best ef accepted ones; unvisited nodes only decrease |
| LayerSearch.Offer | index/hnsw.go:252-258 | a result never outgrows ef: one more candidate drops the furthest, whoever it is |
| LayerSearch.GreedyDescend | index/hnsw.go:189-204 | the descent terminates: steepest steps, each to the nearest link and the first of equals, down to a node that none of its links improves on |
| LayerSearch.WideSearchIsExhaustive | index/hnsw.go:222-263 | with ef at least the number of reachable accepted nodes the result is exactly those nodes, sorted: a brute-force scan of them |
| LayerSearch.FirstOfNearest | index/hnsw.go:355-363 | cutting the nearest ef to k leaves the nearest k |
| Links.ClosedReach | index/hnsw.go:222-263 | a set without outgoing links that holds the start holds everything reachable from it |
| HnswIndex.Hnsw.Add | index/hnsw.go:133-186 | one insertion for any level: the stored id, unit vector and ordinal; the links as the relation Inserted describes them, which searches the first shared layer from where the descents from the entry node end and each layer below from the nearest candidate above; entry and top level; the whole structure kept |
| HnswIndex.InsertionKeepsGraph | index/hnsw.go:133-186 | any insertion of that shape keeps: lists distinct, without self, on the layer, within m or m0; the entry node on the top level, which is the highest; with two or more nodes every node has a link on layer 0 |
| HnswIndex.Hnsw.InsertLayer | index/hnsw.go:162-180 | one layer of an insertion: candidates of a search from the given node, selected neighbours linked both ways, over-full lists pruned, other layers untouched; the nearest candidate is handed down |
| HnswIndex.Hnsw.LinkLayer | index/hnsw.go:168-176 | exactly the selected neighbours gain the back link, pruned to the cap when over-full |
| HnswIndex.SelectNeighbors | index/hnsw.go:269-289 | computes the heuristic's selection, whose properties are the next three rows |
| HnswIndex.SelectedFacts | index/hnsw.go:269-289 | at most m distinct candidates are selected, and the nearest one always is |
| HnswIndex.SelectedCovers | index/hnsw.go:274-287 | a candidate is left out only when m are selected or some selected neighbour is closer to it than the query is |
| HnswIndex.SelectedSpread | index/hnsw.go:274-287 | a selected candidate is no closer to any neighbour selected before it than to the query |
| HnswIndex.PruneConnections | index/hnsw.go:293-303 | pruning is the heuristic over the list sorted by distance from its owner |
| HnswIndex.PrunedFacts | index/hnsw.go:293-303 | a pruned list keeps only old links, distinct, at most m, and at least one of a non-empty list |
| HnswIndex.Hnsw.SearchFiltered | index/hnsw.go:338-364 | the first k of a layer search of width max(ef, k) that starts where the descents from the entry node through the layers end; over the vectors handed to Add and the query: every hit carries the cosine of the two, hits come in descending cosine, and no accepted visited vector left out has a larger one, nor, when the width covers the reachable accepted nodes, any accepted reachable one |
| HnswIndex.DistanceIsCosine | index/hnsw.go:95-120 | every distance in the index, from a query or between nodes, is one minus the cosine of the vectors that were handed in, zero and short vectors included |
| HnswIndex.TopByCosine | index/hnsw.go:338-364 | the k best of a layer result are stored vectors with their cosines, and no accepted visited vector left out is closer to the query |
| HnswIndex.WideByCosine | index/hnsw.go:338-364 | when the width covers them, no accepted reachable vector left out is closer either |
| Cosines.NormalizedDot | index/hnsw.go:95-120 | the inner product of two normalized vectors is the cosine of the vectors themselves, padded with zeros |
| Cosines.CosineProduct | index/hnsw.go:117-119 | a cosine times both lengths is the inner product, for all vectors |
| HnswIndex.OrdInverts | index/hnsw.go:85-88 | with distinct ids Ord is the inverse of the id list |
| Heaps.Heap.Push | index/hnsw_heap.go:11-23 | sift-up keeps the heap and adds exactly one element |
| Heaps.Heap.Pop | index/hnsw_heap.go:25-49 | the root leaves, nothing in the heap came before it, the rest stays a heap |
| Heaps.Heap.ReplaceRoot | lexical/bm25.go:271-288 | overwriting the root and sifting down exchanges exactly that element |
| Heaps.RootIsFirst | index/hnsw_heap.go:71-95 | no element of a heap comes before its root |
| VisitedSets.VisitedSet.ResetTo | index/hnsw_heap.go:105-119 | reset is the stated change of buffer, slice and epoch; from sound marks it empties the set and stays sound exactly when no mark is left behind |
| VisitedSets.VisitedSet.Mark | index/hnsw_heap.go:121 | exactly one node joins the set |
| VisitedSets.EarlySearchesSeeTheirOwnMarks | index/hnsw_heap.go:105-122 | each of the first 2^32 - 1 borrowers sees exactly its own marks, whatever the graph sizes |
| VisitedSets.LeftBehindIsMetAgain | index/hnsw_heap.go:112-118 | a mark above 1 outside the cells in use at a wrap is read as visited by a later search that never marked it |
| VisitedSets.GuardedRunsAreSets | index/hnsw_heap.go:105-122 | without such marks at any wrap, every search of a run of any length sees exactly its own marks |
| WalshHadamard.Fwht | quant/rotation.go:105-116 | the nested in-place butterflies compute the Walsh transform |
| WalshHadamard.WalshIsMatrix | quant/rotation.go:103-116 | output i is the inner product with row i of the Hadamard matrix |
| WalshHadamard.WalshTwice | quant/rotation.go:103-116 | applied twice, the transform multiplies by the length |
| WalshHadamard.WalshDot | quant/rotation.go:103-116 | it multiplies every inner product by the length |
| WalshHadamard.WalshAdjoint | quant/rotation.go:83-101 | it is its own adjoint |
| Rotations.NextPow2IsLeast | quant/rotation.go:118-123 | nextPow2 is the least power of two that is large enough |
| Rotations.Rotation.Apply | quant/rotation.go:59-81 | the in-place passes compute the rotated image, for any rounds and signs |
| Rotations.Rotation.ApplyInverse | quant/rotation.go:86-101 | the reverse passes compute the preimage in place |
| Rotations.RotationInverse | quant/rotation.go:59-101 | applyInverse undoes Apply, and Apply undoes applyInverse |
| Rotations.RotationIsometry | quant/rotation.go:59-81 | Apply preserves every inner product |
| Rotations.PassSpreads | quant/rotation.go:59-81 | one round takes every basis vector to coordinates of equal size |
| Codebooks.InitialLevels | quant/codebook.go:48-73 | binary search in the cumulative masses finds the quantile of every level |
| Codebooks.InitialSorted | quant/codebook.go:67-73 | the quantile initialization is sorted |
| Codebooks.Moments | quant/codebook.go:80-89 | one sweep with an advancing cell pointer gives mass and first moment of every cell |
| Codebooks.LloydPass | quant/codebook.go:76-103 | one pass moves every level to the centroid of its cell, keeps them sorted, lowers the distortion by the weighted squared shifts, and reports the largest shift |
| Codebooks.CentroidInRange | quant/codebook.go:91-99 | a centroid stays between the bounds of its cell |
| Codebooks.CentroidGain | quant/codebook.go:91-99 | moving a level to its centroid saves exactly mass times squared shift |
| Codebooks.DistortionIsLeast | quant/codebook.go:106-120 | no assignment of the grid points costs less than the nearest levels |
| Codebooks.PassesImprove | quant/codebook.go:76-104 | after any number of passes, distortion plus everything saved is at most the initial distortion |
| Codebooks.BuildCodebook | quant/codebook.go:29-129 | the levels are those after the first pass that moves no level by 1e-12, or the 1000th; statistics are their distortion and power |
| Codebooks.Encode | quant/codebook.go:141-145 | binary search finds the cell of z |
| Codebooks.CellIsNearest | quant/codebook.go:141-145 | the level of that cell is a nearest level, for every z |
| Quantizers.Quantizer.EncodeInto | quant/quantizer.go:99-141 | the buffers and the code: rotated image, cell of every standardized coordinate, residual norm and signs |
| Quantizers.Quantizer.Decode | quant/quantizer.go:158-170 | levels scaled back, rotation undone in place, cut to the input dimension |
| Quantizers.Quantizer.PrepareQuery | quant/estimator.go:33-64 | the lookup table holds coordinate times level for every pair |
| Quantizers.Quantizer.RawMain | quant/estimator.go:68-77 | the table sum is the inner product of the rotated query with the levels of the code |
| Quantizers.Quantizer.Score | quant/estimator.go:94-112 | the score from the table equals the scaled inner product in the rotated frame |
| CodecLaws.ScoreIsInnerProduct | quant/estimator.go:107-112 | for queries no longer than the input dimension the score of any code is the debias constant times the inner product of the query with Decode of that code |
| CodecLaws.ScoreOfPadded | quant/estimator.go:107-112 | for a query of any length, the same against the reconstruction before cutting |
| CodecLaws.EncodedNorm | quant/quantizer.go:100-106 | the stored norm is the Euclidean norm of what is encoded |
| CodecLaws.EncodedIsNearest | quant/quantizer.go:115-127 | no other choice of levels reconstructs the input more closely |
| CodecLaws.CodesAreNearest | quant/quantizer.go:115-127 | the codes are a nearest choice for the standardized coordinates |
| CodecLaws.DecodedError | quant/quantizer.go:158-170 | the squared error of Decode is at most the stored residual, scaled back |
| WeightedGraph.Builder.AddEdge | graph/graph.go:32-40 | the maps hold exactly the strongest counted weight of every pair of the edges added so far |
| WeightedGraph.MaxWeightIsGreatest | graph/graph.go:32-40 | that weight is the greatest among counted edges of the pair, or 0 without any |
| WeightedGraph.MaxWeightAnyOrder | graph/graph.go:32-40 | the order of the AddEdge calls does not matter |
| WeightedGraph.Builder.Build | graph/graph.go:43-79 | compressed rows with ascending columns that hold exactly the maps |
| WeightedGraph.BuiltEdges | graph/graph.go:43-79 | the built graph is symmetric and loop-free and holds the greatest weight added per pair |
| WeightedGraph.BuiltIsOk | graph/graph.go:43-79 | every built graph is well formed: rows in range, positive weights, row sums right |
| PageRank.CollectSeeds | graph/graph.go:144-151 | the positive seed mass, whatever the map order |
| PageRank.StepInPlace | graph/graph.go:165-195 | the propagation loops compute one step and its L1 change |
| PageRank.PersonalizedPageRank | graph/graph.go:140-201 | the answer is the iterate at which the tolerance or the cap stops, from the normalized seeds; what an iterate is follows in the rows of PageRankReach |
| PageRankLaws.RestartIsDistribution | graph/graph.go:144-158 | normalized seeds are a distribution |
| PageRankLaws.KernelIsStochastic | graph/graph.go:168-186 | every node sends out exactly its mass, along edges or back to the seeds |
| PageRankLaws.StepKeepsMass | graph/graph.go:165-196 | a step of a distribution is a distribution |
| PageRankLaws.IteratesKeepMass | graph/graph.go:165-196 | every iterate is non-negative and sums to one |
| PageRankLaws.StepContracts | graph/graph.go:165-196 | a step brings any two distributions closer by the damping factor |
| PageRankLaws.ChangesShrink | graph/graph.go:188-199 | successive L1 changes shrink by at least the damping factor |
| PageRankLaws.DefaultAlwaysSettles | graph/graph.go:130-132 | with the default parameters the tolerance is always reached within the 100 iterations |
| PageRankLaws.ChangeBoundsError | graph/graph.go:188-199 | the last change bounds the distance to a stationary distribution |
| PageRankLaws.StationaryIsUnique | graph/graph.go:134-139 | there is at most one stationary distribution |
| PageRankLaws.DefaultIsAccurate | graph/graph.go:130-201 | the default answer is a distribution within 17/3 tolerances of a stationary one, where there is one |
| PageRankReach.MassFollowsEdges | graph/graph.go:165-186 | mass on one node reaches every other in proportion to the weight of the edge: next rank without the restart part, times the node's total weight, is damping times mass times edge weight |
| PageRankReach.IsolatedRestarts | graph/graph.go:173-190 | from a node without edges a step is the restart vector |
| PageRankReach.StepReaches | graph/graph.go:165-190 | a node has rank after a step exactly when it is a seed or has an edge from a node that had rank |
| PageRankReach.RankReaches | graph/graph.go:165-196 | after t steps exactly the nodes at most t edges from a node with restart mass have rank |
| PageRankReach.SeedsReach | graph/graph.go:140-196 | the same from the seed map of the call |
| PageRankReach.DegreesAreStationary | graph/graph.go:165-196 | without damping and isolated nodes, rank in proportion to a node's total weight is stationary on a symmetric graph |
| PageRankReach.BuiltDegreesAreStationary | graph/graph.go:165-196 | so it is on every built graph without isolated nodes |
| Communities.Shuffle | graph/community.go:65-72 | the in-place shuffle is the stated function of the order and the random stream |
| Communities.SwappedAt | graph/community.go:70 | one swap exchanges two positions, moves nothing else, and keeps entries distinct |
| Communities.DrawsAreDetermined | graph/community.go:65-72 | different draws, reduced to their ranges, never give one order |
| Communities.EveryOrderIsDrawn | graph/community.go:65-72 | every order of the same entries comes from some draws |
| Communities.BestLabel | graph/community.go:114-135 | the adopted label is the heaviest among the neighbours, the smallest of equals |
| Communities.AdoptedIsUnique | graph/community.go:124-135 | that label does not depend on map order |
| Communities.Sweep | graph/community.go:104-141 | one sweep visits the nodes in order, each seeing earlier changes; changed is exact; no change means every node carries the label it would adopt |
| Communities.SweptIsUnique | graph/community.go:104-141 | graph, order and labels determine a sweep |
| Communities.AdoptedStaysWithin | graph/community.go:114-140 | adopting a label never crosses a set that no edge leaves |
| Communities.Compact | graph/community.go:155-170 | an exact partition with ascending members, numbered by smallest member |
| Communities.PartitionIsUnique | graph/community.go:155-170 | there is only one such numbering and listing |
| Communities.DetectCommunities | graph/community.go:83-150 | the outcome of the sweeps: labels stay in their component, isolated nodes keep theirs, fewer sweeps than allowed means stable labels; no community crosses components, an isolated node is alone |
| Communities.CommunitiesAreDetermined | graph/community.go:74-82 | graph, seed stream and limit determine the communities |
| Levenshtein.EditDistance | entity/canonical.go:244-269 | the two-row loop computes the recurrence |
| Levenshtein.DistanceIsLeast | entity/canonical.go:242-269 | its value is the least cost of any edit script, and some script has that cost |
| Levenshtein.DistanceIsMetric | entity/canonical.go:242-269 | symmetric, zero exactly on equal strings, at most the longer length, triangle inequality |
| Levenshtein.EditRatio | entity/canonical.go:230-240 | between 0 and 1, 1 exactly on equal strings, and at least 0.9 exactly when ten times the distance fits the longer length |
| Text.FieldsOfJoin | rag/chunkers.go:378-386 | joined words split into the same words |
| Text.LastWordsInk | rag/chunkers.go:380-386 | the last words hold a tail of the non-space content |
| Text.SplitAfterFlat | rag/chunkers.go:106-125 | cutting behind a separator loses nothing |
| Chunkers.SplitWords | rag/chunkers.go:70-88 | windows of exactly the target words, but the last, that cover the text up to the overlap |
| Chunkers.SplitRecursive | rag/chunkers.go:106-125 | no content is lost, no fragment is blank, and one over the budget holds no separator it could be cut at |
| Chunkers.PackFragments | rag/chunkers.go:129-161 | greedy packing covers the content, repeats exactly the overlap, and flushes only pieces without room for another fragment; every piece behind its overlap is a run of consecutive whole fragments, and only blank fragments are left over |
| Chunkers.SplitSentences | rag/chunkers.go:322-357 | cut exactly behind the sentence boundaries; no content lost, no segment blank |
| Chunkers.ChunkBounds | rag/chunkers.go:54-64 | whatever is configured, the overlap ends up below the target |
| Chunkers.Split | rag/chunkers.go:40-173 | for the word, recursive and sentence strategies, dropping from each piece what it repeats gives back all non-space runes of the text; the pieces are windows of target words, or runs of whole fragments that are exactly the sentences, or exactly the recursive cuts |
| Chunkers.PiecesLieInOrder | rag/chunkers.go:129-161 | each piece of a covering split is a stretch of the content, at offsets that never decrease |
| Spans.MatchFrom | rag/document.go:50-75 | succeeds exactly when the content continues at the position, and returns tight bounds |
| Spans.LocateSpan | rag/document.go:17-45 | finds the first span with the content of the piece, exactly when there is one |
| Spans.Itoa | rag/chunk.go:101-113 | the buffer always suffices and holds the decimal numeral |
| Spans.NumeralRoundTrip | rag/chunk.go:101-113 | a numeral reads back as its number |
| Spans.ChunkIdsAreUnique | rag/chunk.go:65-99 | a chunk id names one document and one position, whatever the document ids contain |
| Spans.ChunkDoc | rag/chunk.go:65-99 | every chunk's span has the content of its piece, starts never decrease, and all pieces of a covering split are found |
| StoreStates.IdsAreDistinct | rag/store.go:553-571 | chunk ids of a store are distinct |
| Stores.Store.AppendChunks | rag/store.go:553-571 | arrays, document set and both indexes grow by exactly these chunks |
| Stores.Store.Compact | rag/update.go:89-110 | the in-place compaction keeps exactly the other documents' chunks, in order |
| Stores.Store.RemoveDoc | rag/update.go:89-110 | arrays and books without the document, a rebuild flagged when it had chunks |
| Stores.Store.RebuildIndexes | rag/update.go:164-188 | both indexes hold exactly the chunks again |
| Stores.Store.ShareVectors | rag/store.go:612-619 | embeddings replaced by the index's vectors when the counts agree |
| Stores.Store.RestoreHnsw | rag/store.go:623-657 | saved links adopted exactly when the counts agree, consumed either way |
| Stores.Store.EnsureSearch | rag/store.go:579-595 | the lazy build: a deferred index is restored or rebuilt, its vectors shared, and nothing is deferred or flagged afterwards |
| Stores.Store.ReindexLocked | rag/store.go:699-733 | a pending rebuild is done unless the index is deferred |
| Stores.Store.RecordVersion | rag/versions.go:37-46 | a version is added unless it repeats the newest |
| Stores.Store.ApplyPrepared | rag/update.go:193-243 | the step of AddDocuments and Ingest: refused, added or replaced, with all books |
| Stores.Store.NewDocuments | rag/store.go:389-411 | the documents whose content is not stored and whose content and id are new in the batch |
| Stores.Store.AddDocuments | rag/store.go:330-379 | the whole call, including the sharing before the pending rebuild; a store that is valid and ready for search stays so |
| Stores.Store.DeleteDocument | rag/update.go:115-146 | the arrays hold exactly the other documents' chunks, in order, the number removed is reported, and a store that is valid and ready for search stays so: both indexes hold exactly those chunks |
| Stores.Store.AddEmbedded | rag/store.go:498-519 | chunks appended behind an ensured index, refused on another dimension |
| Stores.Store.Merge | rag/merge.go:32-177 | exactly the documents unknown by id and by content are taken, with their books; a refused merge changes nothing; a store that is valid and ready for search stays so |
| Stores.Store.Save | rag/persist.go:130-174 | the snapshot of arrays and books, with links only from an index that is not deferred or stale |
| Stores.Store.Load | rag/persist.go:328-399 | the store of a snapshot, its indexes deferred, the books rebuilt from the saved hashes |
| Stores.Store.Build | rag/store.go:268-322 | the first build: arrays, indexes and books of all documents |
| StoreLaws.AppliedOk | rag/update.go:193-243 | an applied document keeps the invariant: parallel arrays, inverse hash maps, histories, and indexes deferred, flagged or in agreement |
| StoreLaws.DeletedOk | rag/update.go:115-146 | a delete keeps the invariant and removes exactly this document |
| StoreLaws.AddedOk | rag/store.go:330-379 | AddDocuments keeps the invariant for every batch |
| StoreLaws.EnsuredOk | rag/store.go:579-657 | ensuring the index keeps arrays and agreement, and leaves nothing deferred |
| StoreLaws.ReindexedOk | rag/store.go:699-733 | afterwards an index that is not deferred agrees with the arrays |
| StoreLaws.MergedOk | rag/merge.go:32-177 | a merge keeps the invariant and adds exactly the unknown documents |
| StoreRuns.BuiltBooks | rag/store.go:268-322 | the books of a build agree exactly when texts are distinct and no document is blank |
| StoreRuns.BuiltOk | rag/store.go:268-322 | a build is current, and satisfies the invariant exactly under that condition |
| StoreRuns.ReopenedOk | rag/persist.go:124-399 | saving and loading keeps chunks, embeddings, documents and books, and the invariant |
| StoreRuns.SavedLinksFit | rag/persist.go:418-433 | links on disk always have exactly one node per chunk beside them |
| StoreRuns.MergeKnowsAll | rag/merge.go:76-107 | after a merge every document of the source is known, by id or by content |
| StoreRuns.MergeTwice | rag/merge.go:32-177 | merging the same store a second time changes nothing and counts nothing |
| StoreRuns.StepOk | rag/store.go:330-733 | every operation keeps the invariant |
| StoreRuns.Run | rag/store.go:330-733 | so does every sequence of operations |
| StoreRuns.SearchesSeeCurrentChunks | rag/store.go:579-595 | after any sequence, an index ready for search holds the chunk ids, the texts and the normalized embeddings, in order, ids distinct |
| StoreEffects.StepSettles | rag/store.go:699-733 | every public operation leaves an index that is deferred, or holds exactly the chunks with nothing due |
| StoreEffects.RunSettles | rag/store.go:699-733 | so does every sequence of them |
| StoreEffects.ReindexSettlesRun | rag/store.go:524-529 | after any sequence, ingest steps included, a reindex does |
| StoreEffects.AddSettles | rag/store.go:330-379 | AddDocuments leaves a settled store, even from an unsettled one when something new was offered |
| StoreEffects.DeleteSettles | rag/update.go:115-146 | so does a delete, even from an unsettled store when the document was there |
| StoreEffects.DeleteLeavesOthers | rag/update.go:115-146 | after a delete on a store ready for search, arrays, vector index and lexical index hold exactly the other documents' chunks and normalized embeddings, in order, and the books forget only this document |
| StoreEffects.AddedHolds | rag/store.go:330-379 | every document with a new text of fitting dimension, in a call with distinct ids and texts, owns that text afterwards and has all its chunks stored |
| StoreEffects.AddedSpares | rag/store.go:330-379 | no other document loses a chunk or its content, and no chunk comes from anywhere else |
| StoreEffects.AppliedBooks | rag/update.go:193-243 | an apply that takes effect sets exactly this document's content and adds it to its history unless it is the newest there |
| StoreEffects.AppliedArrays | rag/update.go:193-243 | the chunks of the others stay in order and the new ones come last; no other content enters |
| StoreEffects.MergedHolds | rag/merge.go:32-177 | a merge puts exactly the chunks of the unknown documents behind what was there, with their contents and histories |
| StoreEffects.StepRemembers | rag/versions.go:37-46 | no operation but a delete forgets a document, and histories only grow at their end |
| StoreFidelity.ShareExact | rag/store.go:612-619 | sharing keeps every embedding exactly when it does nothing or the index holds the same vectors |
| StoreFidelity.EnsureExact | rag/store.go:579-657 | restoring keeps embeddings and links exactly when no count agrees by accident: the saved block holds the vectors, the links the chunks |
| StoreGuards.AddedExact | rag/store.go:330-379 | on any sound store AddDocuments keeps every embedding exactly when the vectors it ends with, read off the store and the call, are the given ones, and every link exactly when saved links it adopts fit or are rebuilt |
| StoreFidelity.AppliedSound | rag/update.go:193-243 | an ingest step never harms embeddings or links |
| StoreFidelity.DeletedSound | rag/update.go:115-146 | neither does a delete |
| StoreFidelity.ReopenedSound | rag/persist.go:124-399 | nor saving and loading |
| StoreFidelity.SavedLinksDescribe | rag/persist.go:418-433 | links written to disk were built over exactly the chunks written beside them |
| StoreGuards.MergedExact | rag/merge.go:32-177 | a merge keeps every embedding and link exactly when neither the index it shares nor the block it restores holds other vectors, and restored links fit the chunks |
| StoreGuards.StepExact | rag/store.go:330-733 | every operation keeps embeddings and links true to what the chunks were given exactly when its guard, a condition on the store and the call, holds |
| StoreGuards.RunExact | rag/store.go:330-733 | a run keeps them at every step exactly when each operation is within its guard when its turn comes |
| StoreLosses.UpdateKeepsOldVectors | rag/store.go:357-377 | every update with as many chunks as before ends with the old vectors |
| StoreLosses.IngestThenSearchKeepsOldVectors | rag/store.go:579-657 | every ingested update with as many chunks as before, of a freshly loaded store, ends with the old vectors at the next search |
| StoreLosses.UpdateCanLoseAnEmbedding | rag/store.go:357-377 | a concrete store and update whose embedding is lost |
| Journals.PartialReplay | rag/journal.go:31-49 | however a write is cut short, a replay finds nothing that was not being written and loses no finished line |
| Journals.WrittenReplays | rag/journal.go:31-49 | a finished write is replayed in full, except that an unfinished line swallows the first entry |
| Journals.MarksReplay | rag/journal.go:66-84 | a finished MarkDone is replayed in full exactly when the log did not end inside a line, or nothing new was marked |
| Journals.Journal.Open | rag/journal.go:31-49 | the replay loop finds exactly the ids of whole done entries |
| Journals.Journal.MarkDone | rag/journal.go:68-84 | each id not marked before is written once; nothing more is written after an error; a tidy journal stays tidy |
| Journals.Journal.MarkFailed | rag/journal.go:88-95 | writes one record that a replay ignores |
| IngestRuns.PrepareForIngest | rag/ingest.go:143-162 | a document is skipped exactly when it is marked done, stored with this content, a copy of another, or blank |
| IngestRuns.AppliedContent | rag/update.go:193-243 | without updates an apply only adds contents, its own among them |
| IngestRuns.Ingester.Checkpoint | rag/ingest.go:80-93 | saved first and only then marked: a finished checkpoint leaves the current store on disk and the pending ids in the log, a failed one keeps them pending; every crash on the way is safe |
| IngestRuns.Ingester.TakeResult | rag/ingest.go:96-120 | the collector's turn: exactly this document is applied and counted, and waits for a checkpoint |
| IngestRuns.Ingester.Run | rag/ingest.go:52-137 | for every interleaving of workers and collector: the store and the counts end as the ready documents applied in the order of collection, then reindexed; every new text arrives, an update too; every crash on the way is safe; without errors every installed document is found by a replay; a clean batch leaves every offered content in the store and on disk |
| IngestTraces.ReadyMeans | rag/ingest.go:143-162 | on a valid store exactly the unmarked documents whose text is not stored, that have chunks and can be prepared, are ready |
| IngestTraces.LastTaken | rag/ingest.go:96-131 | the last text taken for a document that takes effect is what the run leaves: its content, exactly its chunks in order, the newest version |
| IngestTraces.OthersEndAsTheyBegan | rag/ingest.go:96-131 | a document nothing was taken for keeps content, chunks in order and history |
| IngestTraces.QuietKeeps | rag/ingest.go:96-120 | so it is between any two events of a run |
| IngestTraces.EffectHolds | rag/update.go:193-243 | taking a fitting document with a text nobody owns leaves it stored with that content, exactly its chunks in order and that text as newest version |
| IngestTraces.EffectIsApplies | rag/update.go:193-243 | on a valid store an apply changes something exactly for a document with chunks, of fitting dimension, with a text nobody owns |
| IngestTraces.TurnSpares | rag/update.go:193-243 | every other document, and this one by a turn without effect, stays as it is |
| IngestTraces.NewTextsArrive | rag/ingest.go:52-137 | whatever the order of events and whatever else is offered, an unmarked document with a text not stored before and not offered twice is in the store with exactly its chunks at the end |
| IngestRuns.CutsAreSafe | rag/ingest.go:80-93 | a journal write cut anywhere leaves only saved documents marked |
| IngestRuns.Resume | rag/journal.go:31-49 | whatever a crash leaves loads, replays, and satisfies the invariant of the next run |
| IngestRuns.NothingTwice | rag/ingest.go:139-162 | no chunk is stored twice and no two documents have one content, also after resuming |
| BestHits.TopHeap.Push | index/topheap.go:25-36 | the bounded heap always holds the best of everything pushed |
| BestHits.EnoughUnion | index/index.go:250-286 | pools of separate shares together lose nothing that matters |
| BestHits.BestOfEnough | index/index.go:250-286 | the best of such a pool is the best of everything |
| BestHits.BestOfUnique | lexical/bm25.go:205-250 | under a total order the best k is unique |
| BestHits.SortedTake | index/index.go:241-286 | sorting and cutting gives a best-k part |
| FlatIndexes.Scan | index/index.go:250-286 | for every number of workers the merged, sorted and cut hits are the best of all codes |
| FlatIndexes.Search | index/index.go:205-234 | the best k codes, or the best k by exact score among the best k times overscan codes; exact when that pool is everything |
| Bm25s.PostingsAscend | lexical/bm25.go:83-101 | postings are strictly ascending by ordinal with the documents' own frequencies |
| Bm25s.PostingsComplete | lexical/bm25.go:83-101 | a posting list holds exactly the documents with the term |
| Bm25s.PostingsDetermined | lexical/bm25.go:83-101 | two indexes over the same documents hold the same postings |
| Bm25s.Index.Add | lexical/bm25.go:83-101 | the index of one more document |
| Bm25s.Index.AddBatch | lexical/bm25.go:324-368 | the index Add in order would leave, for the shorter of the two lists |
| Bm25s.Index.Accumulate | lexical/bm25.go:164-194 | postings give every document the score of a forward scan over the distinct query terms, and keep exactly the documents sharing one |
| Bm25s.ScoreSaturates | lexical/bm25.go:292-303 | a document that repeats a term more scores higher, but never idf * (k1 + 1) |
| Bm25s.LengthIsDiscounted | lexical/bm25.go:292-303 | a longer document scores lower for the same frequency when b and k1 are positive, never higher |
| Bm25s.RarerWeighsMore | lexical/bm25.go:124-140 | a rarer term weighs more, and every term more than nothing, for any growing logarithm that is 0 at 1 |
| Bm25s.Index.Search | lexical/bm25.go:156-200 | the k best of those scores, best first |
| Bm25s.TopK | lexical/bm25.go:205-229 | sorted or bounded-heap selection returns the best k by score and lower ordinal, for every map order |
| Bm25s.AnswerIsUnique | lexical/bm25.go:205-250 | scores alone determine the answer |
| Bm25s.ForwardAnyOrder | lexical/bm25.go:168-194 | the order of the query terms does not matter |
| Bm25s.SearchIsDetermined | lexical/bm25.go:156-200 | two searches for the same terms give the same answer, whatever the map orders |
| Entities.CleanKeeps | entity/entity.go:112-142 | exactly the relations with two plausible ends survive |
| Entities.CleanTwice | entity/entity.go:127-142 | cleaning twice is cleaning once |
| Entities.EffectGet | entity/entity.go:145-203 | every entity gains exactly its mentions, and the chunk once |
| Entities.EffectWeight | entity/entity.go:189-198 | every relation gains exactly its occurrences |
| Entities.GainMeans | entity/entity.go:145-203 | an extraction adds a mention per listing of a name, one for a mere endpoint, the chunk once, and the type and description any listing has |
| Entities.WeightCounts | entity/entity.go:189-198 | a pair gains one for every relation between the two, in either direction |
| Entities.AddsCommute | entity/entity.go:145-203 | Add calls commute on names, mentions, chunks and weights |
| EntityGraphs.EntityGraph.Add | entity/entity.go:145-203 | the loops with their running mention set add exactly that effect |
| EntityGraphs.EntityGraph.DropChunks | entity/entity.go:266-296 | entities lose exactly the gone chunks, those without evidence go, and with them their relations |
| EntityGraphs.EntityGraph.Prune | entity/canonical.go:146-195 | generic names go with their relations, then exactly the unlinked entities without type, description or a second mention |
| EntityGraphs.PruneTwice | entity/canonical.go:146-195 | pruning twice is pruning once |
| EntityGraphs.PruneKeepsExactly | entity/canonical.go:146-195 | exactly the names survive that are neither blank nor generic and have a type, a description, a second mention or a relation to such a name, with exactly the relations between such names |
| EntityGraphs.PruneKeepsProper | entity/canonical.go:146-195 | after pruning every relation joins two present, distinct, ordered entities |
| EntityGraphs.DropKeepsProper | entity/entity.go:266-296 | after dropping chunks too, and no gone chunk is cited |
| EntityGraphs.DropKeepsExactly | entity/entity.go:266-296 | exactly the entities survive that some chunk still cites, with exactly those citations, and exactly the relations between them |
| EntityGraphs.AddKeepsProper | entity/entity.go:145-203 | and after adding an extraction |
| Canonical.Cluster | entity/canonical.go:49-65 | in rank order a name becomes a head exactly when it merges with no head before it, and every other name joins the first head it merges with |
| Canonical.MentionsConserved | entity/canonical.go:67-98 | the heads' mentions add up to all mentions, and each head's to those of the names that joined it |
| Canonical.ChunksConserved | entity/canonical.go:67-98 | a head cites exactly the chunks its cluster cited |
| Canonical.WeightConserved | entity/canonical.go:109-135 | rewriting keeps the total weight of the relations that do not collapse |
| Canonical.RewrittenIsProper | entity/canonical.go:109-135 | every rewritten relation joins two present, distinct, ordered heads |
| Canonical.Canonicalize | entity/canonical.go:28-140 | the whole rewrite over the names and the merging relation: names are ranked, a name survives exactly when no survivor ranked before it merges with it, every other goes to the first survivor it merges with, no later survivor merges with an earlier one, and every pair of survivors weighs what the relations between their clusters weighed; graphs below two entities stay |
| HnswIndex.Hnsw.InsertLevels | index/hnsw.go:160-180 | all shared levels, highest first: each is searched from the nearest candidate of the level above and linked as the insertion relation says |
| HnswIndex.Hnsw.DescendTo | index/hnsw.go:155-159 | the descents from the entry node through every layer above the new node's level, one end the start of the next |
| HnswIndex.Hnsw.SearchAndBound | index/hnsw.go:338-364 | the layer-0 search with the brute-force guarantee for wide searches |
| Heaps.Heap.SiftUp | index/topheap.go:38-47 | restores a heap that is wrong at its last element only, exchanging nothing but positions |
| Heaps.Heap.SiftDown | index/topheap.go:49-66 | restores a heap that is wrong at its root only |
| Codebooks.Quantile | quant/codebook.go:56-67 | binary search returns the first grid point whose cumulative mass reaches the target |
| Codebooks.AdvanceCell | quant/codebook.go:83-86 | advancing the previous point's cell pointer finds the cell of the next point |
| Codebooks.UpdateLevels | quant/codebook.go:90-100 | every non-empty cell's level moves to its centroid, in place; the cost falls by exactly the gain |
| Codebooks.RunPasses | quant/codebook.go:76-104 | the loop ends at the first pass that settles or at the last one allowed |
| Codebooks.Statistics | quant/codebook.go:106-120 | the closing sweep gives distortion and power of the levels |
| Quantizers.Quantizer.Encode | quant/quantizer.go:87-94 | the code of the input, with buffers of its own |
| Quantizers.Quantizer.QuantizeCoordinates | quant/quantizer.go:118-127 | cell and residual of every standardized coordinate |
| Quantizers.Quantizer.Sketch | quant/quantizer.go:128-140 | one sign per projection of the residual |
| WeightedGraph.Builder.FillRows | graph/graph.go:52-77 | the emitting loop writes every row at its running position, columns ascending, with its sum |
| PageRank.PushAll | graph/graph.go:169-184 | the propagation loop adds exactly what each edge carries and collects the mass without edges |
| PageRank.RunIterations | graph/graph.go:164-200 | the loop stops at the first change below the tolerance, or at the cap |
| Communities.PickHeaviest | graph/community.go:124-135 | the loop over the map, in any order, finds the heaviest label, the smallest of equals |
| Communities.Visit | graph/community.go:107-140 | one visit, and whether the label changed |
| Communities.RunSweeps | graph/community.go:99-147 | the sweeps stop at the first that changes nothing, or at the limit |
| Levenshtein.FillRow | entity/canonical.go:254-266 | one row of the table from the row above it |
| Spans.TrimBounds | rag/document.go:18-26 | the trimmed needle keeps the content and starts and ends with it |
| Stores.Store.RebuildLexical | rag/update.go:176-188 | the lexical index holds exactly the chunks again |
| Stores.Store.Reindex | rag/store.go:524-529 | the public call ensures the index first; it leaves a valid store ready for search |
| Stores.Store.RecordHash | rag/store.go:415-422 | both maps gain the pair |
| Stores.Store.ApplyAll | rag/store.go:359-364 | a batch is applied document by document; the answer says whether any changed the store |
| Stores.Store.Untaken | rag/merge.go:76-106 | exactly the documents of the source unknown by id and by content, and how many are skipped |
| Stores.Store.TakeChunks | rag/merge.go:109-121 | exactly the chunks of the documents taken arrive, in order, or none when refused |
| Stores.Store.Book | rag/merge.go:123-147 | the books gain exactly the entries of the documents taken, whatever the map order |
| Stores.Store.RecordAll | rag/store.go:268-322 | the recording loop of a build |
| Stores.Store.FillHashes | rag/persist.go:328-399 | recording every saved hash, in any order, rebuilds both maps |
| StoreLaws.EmbeddedOk | rag/store.go:498-519 | adding embedded chunks keeps arrays and indexes in agreement |
| StoreFidelity.EnsuredSound | rag/store.go:579-657 | without a pending rebuild on a deferred index, ensuring harms nothing |
| StoreFidelity.AppliedAllSound | rag/update.go:193-243 | a batch of ingest steps never harms embeddings or links |
| Journals.SavedLoads | rag/persist.go:328-399 | what a valid store saves loads again, with the same documents |
| Journals.Disk.WriteStore | cmd/turbograph/main.go:660-680 | a rename replaces the store as a whole or not at all |
| IngestRuns.Ingester.Save | rag/ingest.go:80-85 | saving leaves the log alone and, when it succeeds, the current store on disk |
| IngestRuns.Ingester.FinalReindex | rag/ingest.go:126-131 | the closing reindex changes no document |
| IngestRuns.SavedContent | rag/persist.go:130-174 | every stored content is in the saved store |
| FlatIndexes.ScanPart | index/index.go:250-286 | a worker keeps the best of its share |
| FlatIndexes.Finish | index/index.go:250-286 | merged pools, sorted and cut, are the best of everything |
| FlatIndexes.Rerank | index/index.go:219-225 | the pool with exact scores, sorted |
| Bm25s.BoundedHeap | lexical/bm25.go:205-229 | the bounded heap keeps the best k, whatever the map order |
| Bm25s.Index.AddTerm | lexical/bm25.go:186-193 | one term's postings add its forward contribution to every document |
| Bm25s.Index.Finalize | lexical/bm25.go:124-149 | statistics of the documents added so far |
| EntityGraphs.EntityGraph.Ensure | entity/entity.go:82-100 | the entity for a cleaned name exists afterwards, others are untouched, a blank name makes none |
| EntityGraphs.EntityGraph.AddListed | entity/entity.go:147-169 | one listed entity |
| EntityGraphs.EntityGraph.AddRelation | entity/entity.go:170-202 | one relation: both ends exist, each mentioned once per extraction, the edge gains one |
| Canonical.MergeEntities | entity/canonical.go:67-98 | the merging loop leaves every head with its cluster's mentions and chunks |
| Canonical.RewriteRelations | entity/canonical.go:109-135 | the rewriting loop, in any map order, adds up the relations that do not collapse under their new keys |
| LayerSearch.DescentIsUnique | index/hnsw.go:189-204 | where a descent ends is determined by graph, query and start |
| HnswIndex.DescendedIsUnique | index/hnsw.go:351-354 | so is where the search on a layer starts |
| HnswIndex.Hnsw.DescendToBase | index/hnsw.go:351-354 | the descents from the entry node down to layer 0 |
| VisitedSets.MarksCanAlias | index/hnsw_heap.go:105-122 | a run from a new set of 2^32 + 1 searches: the last one marks nothing and finds node 1 visited |
| PageRankLaws.LaterIteratesStayClose | graph/graph.go:188-199 | however long the iteration goes on, it stays within the last change, scaled |
| PageRankLaws.DefaultAnswer | graph/graph.go:140-201 | what the call returns under the defaults, from the seeds on: a distribution, within the cap, that further iteration moves by less than 17/3 tolerances |
| StoreBatches.AppliedAllAfter | rag/update.go:193-243 | a batch in closed form: the rows of no document replaced, then those of every document of the right dimension; the index grows by those before the first replacement |
| StoreGuards.SearchExact | rag/store.go:579-657 | building the index keeps embeddings and links exactly when the vectors it settles on are the given ones and adopted links are over the chunks |
| StoreGuards.ReindexExact | rag/store.go:524-529 | so does Reindex |
| StoreGuards.CurrentAddExact | rag/store.go:357-377 | on a current store AddDocuments harms an embedding exactly when some document is replaced, the chunks replaced are as many as come in from the first replacement on, and the vectors differ |
| StoreGuards.EmbeddedExact | rag/store.go:498-519 | AddEmbedded keeps every embedding exactly when the index, if it counts as many vectors as there are embeddings, holds the given ones |
| StoreLosses.RestoreCanLoseAnEmbedding | rag/store.go:579-657 | a saved and loaded store, an ingested update, the first search: the step is harmless, the search loses the embedding |
| StoreLosses.MergeCanLoseAnEmbedding | rag/merge.go:32-177 | load, delete, merge one chunk: the deleted document's vector comes back over the new one |
| StoreLosses.OneChunkIsBuilt | rag/store.go:268-322 | the store of these examples is what Build makes of one document |
| StoreLosses.EqualTextsBreakTheBooks | rag/store.go:268-322 | a build of two documents with one text |
| StoreLosses.BlankBreaksTheBooks | rag/store.go:268-322 | a build with a blank document |
| Journals.TornLogLosesAMark | rag/journal.go:66-84 | a log cut inside a line, whose next mark a replay misses |

## Left out

- Floating point: all arithmetic is over the reals, so nothing is said about rounding or bit equality; integers other than the epoch of the visited set are unbounded.
- Square root, exponential, logarithm: the norm, the sample grid of the codebook and the logarithm of the BM25 weights are parameters with the properties the code relies on.
- Random numbers: node levels, rotation signs and the shuffle stream are arbitrary inputs; level distribution, recall and unbiasedness of the residual sketch are statistical claims.
- Library calls: the tokenizer, upper-case and abbreviation tables, lower-casing and Go's order on strings are parameters; sorting is any sorted rearrangement.
- Goroutines and locks: workers are arbitrary schedules or shares, and one locked section is one step.
- HnswIndex.Hnsw.SearchFiltered: also stands for `Search`, which is the same code without a filter; the flat vector array is a sequence of vectors.
- Heaps.Heap.Push: the four heaps of the source are one heap under four comparisons.
- LayerSearch.SearchLayerFiltered: the visited marks are a set, which `VisitedSets` shows them to be.
- Link snapshots of the HNSW index (`index/hnsw.go:378-456`): the store keeps only which chunks the links were built over.
- CodecLaws.ScoreIsInnerProduct: the residual sketch enters `unitIP`, not the score, and its estimate is not modelled beyond the sign bits.
- Quantizers.Quantizer.RawMain: packed bits and unrolled loops are the plain sum.
- Communities.DetectCommunities: modularity is not modelled.
- Chunkers.Split: the markdown strategy and custom chunkers; SplitRecursive says nothing of the words in a fragment that no separator cuts, such as text split only by tabs.
- Spans.ChunkDoc: pieces of other splitters may not be found; then the span is -1, as in the code.
- Stores.Store.AppendChunks: vectors of one dimension only; on others the source fails half way and leaves a part behind.
- Stores.Store.ApplyPrepared: vectors of one dimension only, as every embedder returns; the fallback for others is not modelled.
- Stores.Store.AddEmbedded: vectors of one dimension only, for the same reason.
- Stores.Store.ReindexLocked: the similarity graph and the communities that follow the rebuild are not modelled; so in Stores.Store.Reindex.
- Stores.Store.RecordVersion: of a version only its content hash, not its time, text and chunk count.
- Stores.Store.AddDocuments: redaction, reuse of embeddings and pruning of the extraction cache are not modelled.
- Stores.Store.DeleteDocument: clean-up of metadata and of the entity graph is not modelled.
- Stores.Store.Load: entity graph, metadata and caches are not modelled.
- Stores.Store.Build: the first step on a new store, with documents already chunked and embedded; reuse of embeddings of unchanged chunks is not modelled, an embedding is a value and not a view into a block.
- Stores.Store.Merge: encoder names, document metadata, the extraction cache and stores without content hashes are not modelled.
- Stores.Store.RestoreHnsw: a link structure that the index refuses as corrupt, and is then rebuilt, is not modelled.
- Stores.Store.Save: exact vectors only; gob encoding, packing of bytes, lean modes and old formats are not modelled.
- StoreStates: similarity graph, communities and summaries, entity index and retrieval belong to other layers.
- Journals.Journal.MarkDone: the log is a sequence of lines with an unfinished tail; JSON, the 4 MB line limit of the scanner and pages lost by the operating system are not modelled.
- IngestRuns.PrepareForIngest: its three reads, of the journal, the content owner and the document's hash, each take a lock of their own in the source; here they are one event on one store.
- IngestRuns.Ingester.Run: with `Save` and a journal set, and on a store that still holds every document the journal has as done; cancellation is a schedule that ends early.
- PageRankLaws.DefaultIsAccurate: that a stationary distribution exists is not proved; LaterIteratesStayClose and DefaultAnswer do without it.
- FlatIndexes.Search: scores are given by ordinal, and hits carry ordinals instead of ids.
- Bm25s.Index.Search: the natural logarithm inside the inverse document frequency is a parameter.
- EntityGraphs.EntityGraph.Add: display names, types and descriptions, also in Ensure and AddListed: of a type and a description only whether there is one.
- Entities.AddsCommute: display names, types and descriptions depend on arrival order; of a type only whether it is known is kept.
- Canonical.Canonicalize: which names merge is a parameter, since `mergeableNames` is not symmetric for names of equal length; merged descriptions are not modelled.
- Rank fusion, diversification, query rewriting, redaction, evaluation, servers, clients and model calls are not modelled.
