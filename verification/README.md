# Hallouminate: store, retrieval and daemon control loops

Hallouminate keeps a searchable index of document trees. This project models the parts whose
correctness spans several operations or several tasks, and proves what they promise.

- **Shared-content store** (`Records`, `ContentKeys`, `StoreTables`, `StoreProtocol`, `LateDeletes`,
  `LanceStore`, `RootCollection`). Content rows are shared between roots by content key; a second table maps
  `(corpus, root, file_ref)` to a key. A batch is embedded without the write gate and committed under
  it, unreferenced content is collected from scans that may be stale, and deletions take no gate.
  `StoreProtocol` interleaves all of these step by step. Any of them may stop anywhere; a collection
  dropped during a group delete leaves that delete running without the gate. The tables show every root
  what a store private to it would hold if and only if no such late delete takes content that is mapped
  by then or that a commit is about to map. `LanceStore` gives the same operations as a class with the
  loops of the code, any table or embedder call of which may fail.
- **Retrieval** (`TopK`, `ScopedRetrieval`, `Signals`, `PrivateReads`, `PhraseFilter`, `FtsRefresh`).
  Three ways to find one root's best hits in a table full of other roots' rows, all equal to sorting
  the root's own hits; indexing of the ranked lists; the anchor prefilter of phrase queries; the bound
  on full-text index rebuilds.
- **Daemon** (`ScanCache`, `Maintenance`, `Backpressure`). Single-flight corpus walks as an interleaved
  protocol; the maintenance loop's sleep, deferral and paced pass; the debt gate in front of mutations.
- **Checked algorithms** (`Crossencoder`, `FuzzChecks`, `TextBasics`).
- `Arithmetic` and `Collections` hold the few facts that several of these share.

## What the model assumes

- One table operation is atomic: it happens whole, or fails and changes nothing. A read is taken from
  one state of the tables. An add or merge whose caller is dropped has happened or never will; only the
  calls the code spawns (`supervise_scan`) can take effect after their caller is gone.
- The content hash and the chunk-id hash (with its cut to 32 digits) have no collisions. What is put
  into the hashers is modelled byte by byte and proved injective.
- Chunks of a prepared file are numbered 0, 1, 2, ... and all lengths fit a 64-bit word.
- Names in the map table are unique per `(corpus, root, file_ref)`, as the merge key makes them, and the
  file references within one batch are distinct. (For a repeated reference the model lets the last file
  win, which the merge does not promise.)
- The embedder answers text by text: the vector of a text does not depend on the other texts of the call.
- A scan returns each matching row once, ranked exactly, with a score that depends on the row and the
  query alone. Scores stand for places in the total order of 32-bit floats; ties may fall either way.
- Only sleeps advance the clock. Activity, I/O pressure, debt, cancellation, table failures and the
  outcome of a maintenance tick are parameters that may read anything at every look.
- `DebtLevel::Ok` is called `Low`. Text of phrases, chunks and gaps is a sequence of characters; where
  the code counts bytes (the longest segment) the model counts UTF-8 widths.

## Where the code falls short of its promises

Where code and comments disagree, the code is modelled, and each promise it does not keep has an input
that breaks it and the exact condition under which it holds.

- **Orphan collection and commits.** `delete_orphan_content` says it never removes content a batch
  references. Its group delete runs as a task of its own (`crates/hallouminate-adapters/src/lance.rs:1001-1009`,
  `2358`). When the collection is dropped at that point, as the supervisor does at shutdown, the gate is
  freed and a commit can find the content stored, map it, and lose it to the late delete.
  `LateDeletes.LateDeleteLosesContent` is that run, for every file with chunks, and
  `LateDeletes.LateDeleteUnderCommit` the one where the delete falls inside the commit.
  `StoreProtocol.StoreRefinesPrivateCopies` is the exact condition over all runs.
- **Counts of a failed collection.** `crates/hallouminate-daemon/src/maintenance.rs:527` says partial
  progress is never zeroed. A collection of more than 512 keys that fails after its first group has
  removed rows that no counter reports: `RootCollection.PartialCollectionIsNotCounted`, with the exact
  condition in `RootCollection.GcOrphansAfterDelete`.
- **Pace of a forced pass.** `crates/hallouminate-daemon/src/maintenance.rs:337-339` says that a pass
  forced by Hard debt always runs at full pace, but lines 282 and 293 use `forced_pace` for it too.
  `Maintenance.HardForcedPassNotFull` and `Maintenance.HardForcedPassIsPaced` state what happens.
- **Blank chunks.** `check_chunks` takes the first occurrence of each chunk, so it passes exactly the
  texts that have a tiling at first occurrences. That is every tiling as long as no chunk is blank. A
  blank chunk can be misplaced (`FuzzChecks.BlankPieceIsMisplaced`); a chunker that trims its chunks
  never produces one.

## Model

| member | source | states |
|---|---|---|
| ContentKeys.KeyInputInjective | crates/hallouminate-domain/src/indexer/content_key.rs:73-153 | Two files feed the hasher the same bytes only if everything a content row shows, the file name and the fingerprint are equal, through every length prefix, count and option tag |
| ContentKeys.LittleEndianReadsBack | crates/hallouminate-domain/src/indexer/content_key.rs:119-126 | A length is written lowest byte first and can be read back |
| ContentKeys.KeyInputIgnoresLocation | crates/hallouminate-domain/src/indexer/content_key.rs:73-101 | The key depends on content, file name and fingerprint only, so equal files in different roots share rows |
| StoreTables.StoredIsFaithful | crates/hallouminate-adapters/src/lance.rs:1820-1852 | While a key's ords are 0..n-1, the `ord = 0` lookup answers exactly whether the key has any row |
| StoreTables.NewContentEntries | crates/hallouminate-adapters/src/lance.rs:946-964 | The chosen entries have distinct keys, chunks, and none is stored |
| StoreTables.NewContentCovers | crates/hallouminate-adapters/src/lance.rs:946-964 | Every unstored key with chunks in the batch is chosen once |
| StoreTables.ContentRowsAreFaithful | crates/hallouminate-adapters/src/lance.rs:346-455 | The rows written for a file are its chunks in order, each with the vector of its own search text |
| StoreProtocol.AddContentStep | crates/hallouminate-adapters/src/lance.rs:1799-1810 | Adding content keeps every invariant and is invisible to all roots, even if a late delete fell between lookup and add |
| StoreProtocol.WriteMapStep | crates/hallouminate-adapters/src/lance.rs:1948-1967 | The map merge makes the whole batch visible at once as private copies, and keeps every count, if and only if the content of the batch is still there |
| StoreProtocol.PutHoldsBatch | crates/hallouminate-adapters/src/lance.rs:458-500 | A batch of distinct references puts each file under its own corpus, root and reference with its times, hash and one row per chunk, and leaves every other file as it was |
| StoreProtocol.WriteMapHoldsBatch | crates/hallouminate-adapters/src/lance.rs:1948-1967 | The same of the tables after a map write whose content is there |
| StoreProtocol.DeleteGroupStep | crates/hallouminate-adapters/src/lance.rs:2336-2362 | Under the gate, deleting a rechecked group takes exactly the rows of its keys and is invisible to all roots, although its candidates came from stale scans and map rows are deleted meanwhile |
| StoreProtocol.LateDeleteStep | crates/hallouminate-adapters/src/lance.rs:2356-2362 | A delete that outlives its collection keeps what every root sees, and every map count, if and only if no map row that counts chunks references one of its keys by then |
| StoreProtocol.UngatedStep | crates/hallouminate-adapters/src/lance.rs:2227-2299 | Deletions and mtime updates outside the gate do to the map what they do to private copies and disturb no operation in flight |
| StoreProtocol.StepKeepsCore | crates/hallouminate-adapters/src/lance.rs:1761-1818 | Every step, late deletes included, keeps the table sound, the gate exclusive and what operations in flight rely on |
| StoreProtocol.StepRefines | crates/hallouminate-adapters/src/lance.rs:1761-1818 | A step of any operation changes the private copies by exactly its own effect, or not at all, and keeps every map count, if and only if it is safe; only late deletes and map writes can be unsafe |
| StoreProtocol.StoreRefinesPrivateCopies | crates/hallouminate-adapters/src/lance.rs:1761-2365 | For every interleaving, stops included: in every state of the run the tables show one private copy per root, if and only if no late delete takes a referenced key and no map write maps content a late delete took |
| LateDeletes.CarefulRunsRefine | crates/hallouminate-adapters/src/lance.rs:2302-2365 | Runs refine, late deletes included, when no commit enters the gate for a key that an outstanding delete still has to take |
| LateDeletes.UnabandonedRunsRefine | crates/hallouminate-adapters/src/lance.rs:1761-2365 | Runs in which no collection is dropped during a group delete refine, whatever else is interleaved or stops |
| LateDeletes.LateDeleteLosesContent | crates/hallouminate-adapters/src/lance.rs:2334-2362 | For every file with chunks, a run from the empty store that ends with the file mapped, its map row counting chunks, and no content |
| LateDeletes.LateDeleteUnderCommit | crates/hallouminate-adapters/src/lance.rs:1797-1812 | The same loss when the late delete falls between a commit's lookup and its map write |
| StoreProtocol.ReachableTables | crates/hallouminate-adapters/src/lance.rs:1820-1930 | In every reachable state, late deletes included, each key has ords 0..n-1 once or no rows, and every row carries its own vector (none when embeddings are off); each map row points at as many rows as it counts in every state of a run if and only if every step of the run is safe |
| StoreProtocol.ReachableGate | crates/hallouminate-adapters/src/lance.rs:1778-1810 | At most one operation is inside the gate, an ended one never holds it, and a commit whose lookups are done can always add its content |
| StoreProtocol.OperationsGoOn | crates/hallouminate-adapters/src/lance.rs:1761-2365 | In every reachable state every operation has its next step, except that one outside the gate may wait for it, and whoever holds the gate can end and free it |
| StoreProtocol.CommitsAreOfOneCorpus | crates/hallouminate-adapters/src/lance.rs:1789-1794 | Only a batch of one corpus and root gets into the gate |
| StoreProtocol.ConfigWithEncodedKeys | crates/hallouminate-domain/src/indexer/content_key.rs:73-101 | The real key derivation meets the one assumption of the refinement: equal keys mean equal content |
| LanceStores.SelectNewContent | crates/hallouminate-adapters/src/lance.rs:948-964 | The loop with its `queued` set computes the specified choice |
| LanceStores.EmbedContent | crates/hallouminate-adapters/src/lance.rs:1857-1894 | Flattening all texts and splitting the answer is a round trip; success exactly when the embedder answers with one vector per text |
| LanceStores.SplitVectors | crates/hallouminate-adapters/src/lance.rs:1882-1893 | The vectors filed per key, read back in order, are the embedder's answer, and no other key is filed |
| LanceStores.SplitGivesOwnVectors | crates/hallouminate-adapters/src/lance.rs:1857-1894 | Each key ends up with the vectors of its own chunks |
| LanceStores.PairedRowsAreNewRows | crates/hallouminate-adapters/src/lance.rs:1899-1927 | Rows paired from prepared and late vectors are the protocol's rows, and the counter equals the chunk count of the new keys |
| LanceStores.CommitSteps | crates/hallouminate-adapters/src/lance.rs:1781-1818 | An uninterrupted commit is the protocol's content step followed by its map step |
| LanceStores.MappedRowsSurvive | crates/hallouminate-adapters/src/lance.rs:2336-2362 | Deleting unmapped keys never loses or reorders a mapped row |
| LanceStores.DropUnmapped | crates/hallouminate-adapters/src/lance.rs:2308-2365 | Deleting exactly the unmapped keys leaves exactly the mapped rows |
| LanceStores.RowKeyIsStored | crates/hallouminate-adapters/src/lance.rs:2309-2316 | In a sound table the `ord = 0` candidate scan misses no key |
| LanceStores.LanceStore.StoredContentKeys | crates/hallouminate-adapters/src/lance.rs:1821-1852 | Looking keys up 512 at a time finds exactly the stored ones; it fails exactly when one of its ceil(keys/512) calls does |
| LanceStores.LanceStore.Embed | crates/hallouminate-adapters/src/lance.rs:1857-1894 | Exactly the given keys are embedded, each to its own vectors, or none when embeddings are off; one call if there is anything to embed, and it fails exactly when that does |
| LanceStores.LanceStore.FindNewContent | crates/hallouminate-adapters/src/lance.rs:1794-1802 | The recheck finds exactly the batch's distinct unstored content; it fails exactly when a lookup does |
| LanceStores.LanceStore.PrepareBatch | crates/hallouminate-adapters/src/lance.rs:1768-1776 | Preparation yields the vectors of exactly the content that was new at the lookup, leaves both tables alone, and fails exactly when one of its calls does |
| LanceStores.LanceStore.BuildRecordBatch | crates/hallouminate-adapters/src/lance.rs:346-455 | One row per chunk with its vector; fails exactly when some vector count differs from its chunk count |
| LanceStores.LanceStore.GatherVectors | crates/hallouminate-adapters/src/lance.rs:1905-1922 | Each entry gets its prepared vectors, or ones made now if it lacks them; the embedder is called only if some entry does |
| LanceStores.LanceStore.WriteContent | crates/hallouminate-adapters/src/lance.rs:1899-1945 | Adds exactly the new rows with no vector missing and counts them; on any error the table is as before, and it fails exactly when one of its calls does |
| LanceStores.LanceStore.CommitBatch | crates/hallouminate-adapters/src/lance.rs:1781-1818 | On success every file of the batch is shown under its own corpus, root and reference with its chunks and vectors, every other file is as before, and the counters are exact; a batch with two different corpus keys is refused without a call; otherwise it fails exactly when one of its calls does, and each root then sees all of the batch or none according to whether the map write was made |
| LanceStores.LanceStore.DeleteFile | crates/hallouminate-adapters/src/lance.rs:2245-2252 | One private copy goes, everything else stays; fails exactly when its call does |
| LanceStores.LanceStore.DeleteRoot | crates/hallouminate-adapters/src/lance.rs:2284-2299 | Every map row of the root goes, in all corpora, and the count is the rows removed |
| LanceStores.LanceStore.TouchMtime | crates/hallouminate-adapters/src/lance.rs:2227-2241 | One private copy gets the new mtime and keeps all else; every other map row, the set of files and the content stay, and a missing file is not created |
| LanceStores.LanceStore.OrphanCandidates | crates/hallouminate-adapters/src/lance.rs:2308-2332 | The candidates are exactly the keys with content that no map row references, each once; the first failing scan ends it |
| LanceStores.LanceStore.CollectGroup | crates/hallouminate-adapters/src/lance.rs:2337-2362 | A group loses exactly its unmapped keys and the rows are counted, or a call failed and nothing changed |
| LanceStores.LanceStore.DeleteOrphanContent | crates/hallouminate-adapters/src/lance.rs:2308-2365 | Over any number of 512-key groups, exactly the mapped rows remain and the count is the rows removed; it fails exactly when one of its 2 + 2 ceil(keys/512) calls does, loses no mapped row, and has then removed rows exactly if the failure comes after the fourth call |
| RootCollection.CollectRoot | crates/hallouminate-daemon/src/maintenance.rs:688-715 | A root is deleted only if the recheck still finds it retired; a failure changes neither map nor counts and names its cause |
| RootCollection.GcDelete | crates/hallouminate-daemon/src/maintenance.rs:677-731 | The rows of exactly the candidates still retired are gone and counted, every other row is as it was; it stops short only at a cancellation, a panicked recheck or a delete whose own call failed, so without these it gets through the whole list |
| RootCollection.GcOrphansAfterDelete | crates/hallouminate-daemon/src/maintenance.rs:734-773 | Content is collected even after a failed delete, whose error comes before the collection's own; the count is exact if and only if no needed call fails or one up to the first delete does |
| RootCollection.PartialCollectionIsNotCounted | crates/hallouminate-daemon/src/maintenance.rs:744-746 | With 513 unreferenced keys and failures from the fifth call on, rows go, the pass fails and the count stays at zero |
| TopK.TopKRanksUnique | crates/hallouminate-adapters/src/lance.rs:562-568 | Any two best-first answers of one limit agree rank by rank, however ties fall |
| TopK.FoundIsEnough | crates/hallouminate-adapters/src/lance.rs:2453-2463 | Sorting and cutting what was found is exact once every hit not found has `limit` found hits ranked no worse |
| TopK.TopKMatchesSorted | crates/hallouminate-adapters/src/lance.rs:2519-2521 | A best-first answer has the ranks of the first `limit` of the full sorted list |
| ScopedRetrieval.DecodePermutation | crates/hallouminate-adapters/src/lance.rs:730-805 | The hits decoded from a scan do not depend on the order of its rows |
| ScopedRetrieval.AnswersAreBestFirst | crates/hallouminate-adapters/src/lance.rs:561-568 | Relevance comes highest first and distance lowest first; no omitted hit beats any returned one, for every limit, and a hit is omitted only when the limit is full |
| ScopedRetrieval.ScanOneGroup | crates/hallouminate-adapters/src/lance.rs:2478-2486 | One scan of the root's keys, decoded and cut, is exact |
| ScopedRetrieval.Fetched | crates/hallouminate-adapters/src/lance.rs:2494-2494 | The unscoped scan asks for eight times the limit, saturating, and at least 64 rows |
| ScopedRetrieval.ScanUnscoped | crates/hallouminate-adapters/src/lance.rs:2492-2504 | If the unscoped over-fetch yields `limit` of the root's hits, they are the root's best; otherwise it gives up, and it fails exactly when its scan does |
| ScopedRetrieval.ScanGroups | crates/hallouminate-adapters/src/lance.rs:2505-2522 | Scanning each key group for `limit` rows and merging by rank is exact for any grouping |
| ScopedRetrieval.ScopedHits | crates/hallouminate-adapters/src/lance.rs:2464-2523 | For every map, grouping and limit, whichever path runs, the answer has the scores of the first `limit` of the root's fully sorted hits and no foreign hit; it fails exactly when a scan it needs fails |
| Signals.CollectMapped | crates/hallouminate-adapters/src/lance.rs:571-590 | The loaded map holds exactly the root's map rows, each file once, under its own key |
| Signals.KeyGroups | crates/hallouminate-adapters/src/lance.rs:2446-2450 | The prefilters are disjoint, non-empty, within the group size, and together name every key |
| Signals.DecodedHitsDistinct | crates/hallouminate-adapters/src/lance.rs:730-805 | Distinct rows and distinct files decode to distinct `(file_ref, ord)` pairs |
| Signals.AnswerDistinct | crates/hallouminate-adapters/src/lance.rs:2464-2523 | In a sound store every exact answer names each `(file_ref, ord)` at most once, across groups too |
| Signals.ChunkIdInjective | crates/hallouminate-adapters/src/lance.rs:126-134 | `file_ref#ord` can be read back, whatever `#` and digits the reference contains |
| Signals.ChunkIdReadsBack | crates/hallouminate-adapters/src/lance.rs:126-131 | The hashed bytes are the reference, a `#` and the ord in decimal without leading zeros |
| Signals.DedupedOnce | crates/hallouminate-adapters/src/lance.rs:2766-2785 | Dropping repetitions keeps every id exactly once |
| Signals.DistinctHitsKept | crates/hallouminate-adapters/src/lance.rs:2594-2600 | On an answer without repetitions the dedupe drops nothing |
| Signals.IndexSignal | crates/hallouminate-adapters/src/lance.rs:2770-2785 | The order lists each id once by first place, the score map has exactly those ids with first scores, and pool entries that existed are never replaced |
| Signals.CombineSignals | crates/hallouminate-adapters/src/lance.rs:2594-2607 | Each score map has exactly its list's ids, each with the score of its first hit; the pool has exactly the union of both lists, each id with its first full-text hit, or its first nearest one if it has none; lists of distinct hits are kept whole |
| Signals.OwnScores | crates/hallouminate-adapters/src/lance.rs:2770-2785 | In a list without repetitions every hit has its own score |
| PrivateReads.QueriesSeePrivateCopies | crates/hallouminate-adapters/src/lance.rs:2429-2523 | After any run, a root's decoded hits (score, file, mtime, content) are exactly those of the copies its map shows, each once; after a safe run, exactly those of its private store |
| PrivateReads.RetrieveSignal | crates/hallouminate-adapters/src/lance.rs:2547-2592 | From loading the map to the cut list, on whichever path, the answer consists of the root's private hits and has the ranks of the first `limit` of them sorted |
| PrivateReads.AnswersArePrivate | crates/hallouminate-adapters/src/lance.rs:2429-2523 | After any safe run, an exact answer over the shared tables is the ranked answer of the store private to the root |
| PrivateReads.ShownChunkIsFound | crates/hallouminate-adapters/src/lance.rs:2429-2523 | A matching chunk of a committed file is a hit of the file's own corpus and root, and every answer shorter than its limit has it |
| PrivateReads.AnswersNameChunksOnce | crates/hallouminate-adapters/src/lance.rs:2594-2600 | After any run, safe or not, an exact answer names each chunk of a file at most once |
| PhraseFilter.LongestSegment | crates/hallouminate-adapters/src/lance.rs:2709-2714 | The anchor is the first of the segments with the most bytes |
| PhraseFilter.SegmentsJoin | crates/hallouminate-adapters/src/lance.rs:2710-2710 | The segments are the phrase cut at its spaces and nowhere else |
| PhraseFilter.FoldShape | crates/hallouminate-adapters/src/lance.rs:2724-2726 | Folding keeps every character that is not whitespace in order, turns whitespace into spaces, and never leaves two side by side |
| PhraseFilter.PhraseMeansWords | crates/hallouminate-adapters/src/lance.rs:2723-2727 | The folded text holds a phrase of words if and only if the text has the words in order with any whitespace between each two and nothing else |
| PhraseFilter.PhraseMeansPart | crates/hallouminate-adapters/src/lance.rs:2723-2727 | Any phrase at all stands in the folded text if and only if some part of the text folds to it |
| PhraseFilter.MatchesMeansWords | crates/hallouminate-adapters/src/lance.rs:2723-2728 | The predicate selects exactly the rows whose search text has the words in order and whose text has them too or holds a footnote mark |
| PhraseFilter.FoldKeepsWords | crates/hallouminate-adapters/src/lance.rs:2723-2727 | Whatever stands in the folded text without whitespace stands in the unfolded text |
| PhraseFilter.SegmentSurvivesFold | crates/hallouminate-adapters/src/lance.rs:2708-2727 | If the folded text contains the phrase, the text contains each of its segments |
| PhraseFilter.AnchorChangesNothing | crates/hallouminate-adapters/src/lance.rs:2715-2728 | For every table and phrase, adding the anchor condition selects the same rows |
| FtsRefresh.BuildsAreRecorded | crates/hallouminate-adapters/src/lance.rs:2000-2044 | A batch that changes what is indexed has built the index over the whole table, and that size is counted; a maintenance merge indexes every row |
| FtsRefresh.BuildsAreGeometric | crates/hallouminate-adapters/src/lance.rs:922-926 | Over any run without row deletions, failures included, the table sizes at all batch builds sum to at most eleven times the last |
| FtsRefresh.UnindexedStaysSmall | crates/hallouminate-adapters/src/lance.rs:1603-1613 | After a batch whose statistics and refresh succeed, no row is unindexed or ten times the unindexed rows are fewer than the indexed ones |
| FtsRefresh.SearchIndexes.ChooseRefreshed | crates/hallouminate-adapters/src/lance.rs:2001-2015 | Every index that is neither full-text nor FM is refreshed, and the full-text one exactly when due |
| FtsRefresh.SearchIndexes.RefreshIndexes | crates/hallouminate-adapters/src/lance.rs:2000-2044 | The batch's index work is the event of the run model, for every way its calls can fail |
| ScanCache.StepKeepsInv | crates/hallouminate-daemon/src/scan_cache.rs:88-120 | Every step of requests, tasks, guards and scan threads keeps the registry, mutex and permit invariants |
| ScanCache.SingleFlight | crates/hallouminate-daemon/src/scan_cache.rs:88-144 | In every reachable state a corpus has at most one live walk, every entry names the live walk of its own corpus, and permits held and free add up |
| ScanCache.MutexComesFree | crates/hallouminate-daemon/src/scan_cache.rs:46-120 | In every reachable state whoever holds the registry mutex can release it with one or two steps of its own that wait for nothing, so neither the window between spawn and insert nor a guard can block the others for good |
| ScanCache.OnlyHolderReleases | crates/hallouminate-daemon/src/scan_cache.rs:46-120 | No step of anyone else takes or frees a held mutex |
| ScanCache.WalksGoOn | crates/hallouminate-daemon/src/scan_cache.rs:79-144 | In every reachable state a walk has its next step unless it waits for a permit or the mutex, a taken permit can be given back, and requests can arrive, enter and give up |
| ScanCache.TwoRequestsOneWalk | crates/hallouminate-daemon/src/scan_cache.rs:88-144 | For every corpus there is a run in which two requests share one walk, both get its result, no entry is left and every permit is free |
| ScanCache.GuardRemovesOwnEntry | crates/hallouminate-daemon/src/scan_cache.rs:46-51 | A guard about to remove an entry always finds its own flight there, although the spawn precedes the insert |
| ScanCache.ConcurrentRequestsShare | crates/hallouminate-daemon/src/scan_cache.rs:88-92 | While a walk is live, a request for its corpus can only join it |
| ScanCache.LaterRequestsWalkAgain | crates/hallouminate-daemon/src/scan_cache.rs:100-120 | Once any caller has a walk's result, a request that arrives later is never given that walk |
| Maintenance.SleepWithHeartbeat | crates/hallouminate-daemon/src/maintenance.rs:238-252 | Bumps fall at every full chunk, and the sleep ends early exactly at the first chunk end that finds Hard debt |
| Maintenance.DeferPass | crates/hallouminate-daemon/src/maintenance.rs:270-336 | A due pass starts within the bound after at most ceil(bound/60s) counted deferrals, at exact sample times, and for a reason the last look gives; a cancellation at any moment of a sleep ends it then |
| Maintenance.HeldBackPassStartsAtBound | crates/hallouminate-daemon/src/maintenance.rs:284-331 | A pass held back throughout starts at exactly the bound after exactly ceil(bound/60s) deferrals |
| Maintenance.HardActedOnWithinRecheck | crates/hallouminate-daemon/src/maintenance.rs:284-331 | Hard debt that sets in and stays ends the wait within one recheck, with a forced pass if a reason stands at a look from then on |
| Maintenance.HardForcedPassIsPaced | crates/hallouminate-daemon/src/maintenance.rs:279-295 | A pass forced by Hard debt, at the due moment or later, runs at full pace exactly when pressure is not elevated |
| Maintenance.HardForcedPassNotFull | crates/hallouminate-daemon/src/maintenance.rs:279-283 | Hard debt under pressure at the due moment gives a pass that is not at full pace |
| Maintenance.WaitIsSpaced | crates/hallouminate-daemon/src/maintenance.rs:238-335 | Bumps are at most 60 s apart inside each phase and 120 s across both |
| Maintenance.GapIsReached | crates/hallouminate-daemon/src/maintenance.rs:251-335 | The 120 s gap does occur, so the bound is tight |
| Maintenance.AwaitPass | crates/hallouminate-daemon/src/maintenance.rs:264-336 | Over sleep and deferral together, for all readings, bumps are at most 120 s apart and the pass starts between due and due plus bound |
| Maintenance.ForcedPace | crates/hallouminate-daemon/src/maintenance.rs:74-85 | Paced exactly under pressure, with a budget of at least one and the configured sleep |
| Maintenance.RunPass | crates/hallouminate-daemon/src/maintenance.rs:419-473 | Every slice has the same budget, only the first may collect, a cancellation after a full slice stops the pass, k slices removed at least (k-1) budgets, so any bound B on removals gives at most B/budget + 1 slices |
| Backpressure.WorseSignalWins | crates/hallouminate-daemon/src/debt.rs:30-45 | The level is the worse of the levels the two signals call for alone |
| Backpressure.MoreDebtIsNoBetter | crates/hallouminate-daemon/src/debt.rs:30-45 | More debt in either signal never lowers the level, whatever the thresholds |
| Backpressure.DebtCache.FreshLevelAt | crates/hallouminate-daemon/src/debt.rs:74-78 | Gives the recorded level exactly while it is younger than the ttl; a zero ttl disables it |
| Backpressure.ProbeTimesAdvance | crates/hallouminate-daemon/src/backpressure.rs:213-226 | Before the deadline the next probe is one poll later or at the deadline, within the probe count |
| Backpressure.LastProbe | crates/hallouminate-daemon/src/backpressure.rs:213-226 | The probe at the deadline is number 1 + ceil(wait/poll) |
| Backpressure.ValidatedMeansReprobe | crates/hallouminate-config/src/lib.rs:1529-1538 | A configuration is accepted exactly when a blocked mutation re-probes strictly before its deadline or does not wait |
| Backpressure.DebtGate.RefreshObserved | crates/hallouminate-daemon/src/backpressure.rs:155-181 | Records the level of both tables' debt; a failed read admits and records nothing |
| Backpressure.DebtGate.TakeProbe | crates/hallouminate-daemon/src/backpressure.rs:87-116 | The answer is the cached level while it is fresh, else the level of the next debt read (none for a failed one), lowered to Soft exactly when it is Hard and maintenance is off |
| Backpressure.DebtGate.Block | crates/hallouminate-daemon/src/backpressure.rs:213-226 | Fails exactly when every probe up to and at the deadline saw Hard, after exactly 1 + ceil(wait/poll) probes |
| Backpressure.DebtGate.Gate | crates/hallouminate-daemon/src/backpressure.rs:186-229 | Exact times for each outcome; an error means every probe saw Hard and the clock is at the deadline |
| Backpressure.DebtGate.AwaitDebtGate | crates/hallouminate-daemon/src/backpressure.rs:54-65 | Hard debt that no read, cache entry or other mutation relieves fails at exactly the deadline; none admits at once and Soft after the soft delay; with maintenance off it always admits; with a validated wait it re-probes before the deadline; a probe one full poll later never reuses a reading from or before the last probe |
| Crossencoder.CheckOrder | crates/hallouminate-adapters/src/crossencoder.rs:81-108 | Length, range and duplicate checks accept exactly the permutations of 0..n |
| Crossencoder.DistinctPlacesFill | crates/hallouminate-adapters/src/crossencoder.rs:81-108 | Pigeonhole: n distinct places below n are all of them |
| Crossencoder.PermutationShape | crates/hallouminate-adapters/src/crossencoder.rs:81-108 | Conversely every permutation passes each check |
| Crossencoder.Rerank | crates/hallouminate-adapters/src/crossencoder.rs:69-117 | Hit i becomes the old hit at the answer's i-th index with its new score, contents apart from scores are kept as a multiset, and on any error the hits are unchanged |
| Crossencoder.ApplyPermutation | crates/hallouminate-adapters/src/crossencoder.rs:124-129 | Place i receives the old hit of place order[i] |
| FuzzChecks.CheckChunks | fuzz/src/lib.rs:128-177 | Passes exactly when the text is gap, chunk, gap, ..., chunk, gap with exact line numbers and each chunk at its first occurrence; when no chunk is blank, exactly when any such tiling exists |
| FuzzChecks.CheckPiece | fuzz/src/lib.rs:135-171 | Accepts exactly when the first occurrence after the cursor fits, and the running line counter equals the newlines before it |
| FuzzChecks.UnblankTilesFirst | fuzz/src/lib.rs:126-147 | A tiling by chunks that each hold a non-whitespace character has every chunk at its first occurrence |
| FuzzChecks.BlankPieceIsMisplaced | fuzz/src/lib.rs:126-147 | A text with a correct tiling by a blank chunk that has none at first occurrences |
| TextBasics.WhiteSpaceListed | fuzz/src/lib.rs:144-147 | What trimming takes away, and what a gap may hold, are exactly the 25 characters with the Unicode White_Space property |
| FuzzChecks.IsSingleInsertion | fuzz/src/lib.rs:236-261 | True exactly when some offset k has edited = doc[..k] + block + doc[k..], with every slice in bounds |

## Left out

- LanceDB, Arrow, FastEmbed and tokio themselves: compaction, pruning, ANN training and column encoding appear only through the assumptions above.
- A root or reference that is not valid UTF-8, and a chunk structure that fails to encode: paths are byte strings here and these errors do not occur.
- The content row's `chunk_id` column and its `indexed_at_ms`, which is the first writer's; no reader of hits sees either.
- Snapshot reads across steps: a query loads its map and scans content at different moments, and nothing is claimed about a write that falls between them.
- ScanCache, StoreProtocol and LateDeletes are step machines over values, because their subject is the interleaving; the classes beside them run one operation at a time.
- The bounded number of group scans in flight (`SCOPE_SCAN_CONCURRENCY`): scans only read, so they are taken in order.
- FtsRefresh.BuildsAreGeometric: covers runs without row deletions, because a deletion shrinks the index it compares against; builds made by a maintenance merge are not counted as batch builds.
- The FM and ANN index builds inside `ensure_search_indexes`, beyond whether they fail, and the latch that skips the check.
- `maintain` and the write lane: a tick is only its outcome, and waiting for the lane does not bump, so heartbeat spacing is claimed for the wait alone.
- The pause between two slices of a paced pass: it only takes time.
- Cancellation during the interval sleep ends the loop before anything the model states.
- The check for a text index in front of a query, which answers with nothing before the first batch.
- `store.lock` and its diagnostics, `meta.toml`, socket and process plumbing, IPC types, reports and logging.
- Config layers, path confinement and repository discovery, apart from the poll-versus-wait check.
- `churn.rs`, `ladder.rs`, `heartbeat.rs`, `backoff.rs`, `pressure.rs`: small counters that would only add easy members.
- Parsers, chunkers, the planner, `state.rs`, `watch.rs`, `supervisor.rs`, the installers and the site.
