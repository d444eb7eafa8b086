# The lattice store, modelled and proved

This project models the core of the mantle node in Dafny and proves what its parts maintain.

The **lattice store** keeps vertices and edges under one logical clock. Almost everything it answers
quickly is a quantity kept incrementally beside the rows: Merkle leaf digests, counters, a task
sidecar, a keyed index, an allocation ledger. The project defines each of them once from the rows
alone (`Tables.Rescan`, `Census`, `TaskOf`, `PostingsOf`) and proves that every write keeps the
incremental form equal to it, in every state any run of operations reaches, including runs in which
documents fail, transactions abort, peers' rows are consumed and rows vanish behind the store's back.
What vanished rows leave behind in counters, digests, ledger and task table is itself tracked exactly
(`Invariants.History`), so that the audits are proved to report exactly the damage.

On top of it stand: last-writer-wins consumption under a partial order of versions, the publish feed
and its backlog, the edge freshness stamp, version history, the bulk relabel, the reshard and the leaf
count, the work pool. Beside it stand the light cone over masked containment edges, the read decision
over grants, the tiered content store and the sliding-window rate limiter.

## Layout

| file | what it holds |
|---|---|
| Folds.dfy | XOR and multiset sums over tables, independent of the visiting order |
| Tables.dfy | documents, rows, the database, and what the rows alone determine |
| Invariants.dfy | what every reachable database satisfies; the history; how the store may move |
| Steps.dfy | the row-level steps of the write path, each proved to keep every invariant |
| Clock.dfy, Keyset.dfy | the seq allocator; keyset paging over any strict total order |
| Consume.dfy, Convergence.dfy | last-writer-wins, and independence of order, repetition and batching |
| Writes.dfy, Lattice.dfy | what one operation does, on values; the class `Store` whose methods do it |
| Documents.dfy, Audit.dfy | the same told from document keys and row columns alone; what each counter, task and digest is |
| Relabel.dfy, Pool.dfy, Maintenance.dfy, Resolution.dfy | relabel, work pool, rescans and reshard, the leaf count |
| Accounting.dfy, Runs.dfy | the allocation ledger; whole runs |
| Feed.dfy, KeyedIndex.dfy, Lineage.dfy | publish feed and edge mark, keyed lookups, version history |
| Attenuation.dfy, LightCone.dfy, Access.dfy | the mask algebra, the two walks, the read decision |
| Content.dfy, RateLimit.dfy | the content tiers, the rate limiter |

`Store.Valid()` is the invariant: `db` is what the open transaction sees and `disk` what was committed,
both satisfy `Invariants.Ok`, and the clock stands at the length of the log. Every public method of
`Store` ensures it together with `Invariants.Evolves`, which says how a later state may differ from an
earlier one: the log is only extended, and a local row is either at the version it had or at a new one.

## Assumptions

- Hashes are functions of an `Env`: nothing is asked of them except where a row says so. A key hash is
  identified with the triple it hashes; snapshot ids are injective where version history needs it
  (`Lineage.SnapIdsOk`). `str()` and `lower()` are functions of the `Env` as well, with `str` the
  identity on text, and the orders of ids and edge keys are strict and total.
- A transaction runs under one write lock, so transactions are a sequence; the allocator starts each of
  them with an empty cache, which is what any writer on any connection does.
- A consumed row that claims the local origin voids the ledger: the history remembers it (`echo`), and
  every statement about the local clock holds until it happens. All other invariants hold after it too.
- A document or an edge of a batch may fail before anything is done, in its row write, or after it took
  its seqs (`Writes.Fault`); a consumed one that is declined or refused never reaches the later two.
- The graph face and the artifact face of a store share one leaf count.
- The store starts empty, so its index is built and no row lacks a leaf.
- The at-rest cipher is ideal: a blob opens under one key, for one address, to one plaintext (AES-GCM as
  in section 5.2.1.1 of NIST SP 800-38D); the remote keeps what it stored and holds genuine objects only.

Where the code and its own documentation disagree the model follows the code, and the difference is a
theorem.

- `put_many` promises that one bad document does not roll back the batch. A document that takes a seq and
  then fails, such as one `json.dumps` refuses, aborts its whole transaction when no other write of its
  chunk keeps a seq, and the batch stops there: `Lattice.BadDocumentStopsTheBatch` shows it on a store,
  and `Lattice.Store.PutMany` says exactly when it raises and what is stored then.
- The sweep of the rate limiter is said to be exact. It leaves an aged-out window behind
  (`RateLimit.AgedWindowSurvives`) exactly when a refused client was moved behind a live one
  (`RateLimit.SweepIsCompleteWhen`, and told from the requests `RateLimit.SweepAfterRun`).
- `_patch_doc` is said to keep the task row and its document from ever disagreeing. They do after a release
  to an empty status, and after a settle whose facts name a projected or counted key with another value:
  exactly when is `Pool.Release`, `Pool.Settle` and `Pool.MisfitBreaks`.
- A queue depth is said to count a status. A status holding a colon is counted under the name of another
  bucket as well: exactly when is `Pool.DepthIsBucketSize`.
- The edge term of the backlog is negative exactly when the cap is, where the vertex term is clamped; it is
  never exact then (`Feed.BacklogIsTheRows`).

The order of versions is partial, so two orders of the same offers can end differently: for which keys
they do is `Consume.OrderMattersExactlyWhen`, and the statements of Convergence.dfy are about the others.

## Model

| member | source | states |
|---|---|---|
| Runs.Run | src/mantle/db/vertex.py:302-326 | for every sequence of puts, bulk puts with failing documents, edge batches, accounted deletes, evictions, relabels, pool transitions, rebuilds, repairs, reshards and rows that vanish outside the write path: the moments it goes through are a run (every one of them sound, every step as `Runs.Perform` says), and the guarantees of the next row hold of the store it ends in |
| Runs.RunGuarantees | src/mantle/db/seq.py:479-556 | what a run guarantees, by what was in it: without vanished rows every leaf digest is the rescan and every sidecar the projection; every counter is its recount (with evictions, all but `rows:<origin>`); the accounting scan reports exactly as many rows as there were operations that took a local row out unaccounted, counted over the tables of the run, and the counter mode none of them |
| Runs.Perform | src/mantle/db/seq.py:94-136 | every single operation keeps all invariants, only extends the log of allocated seqs, takes out exactly the row it names when it is a loss or an eviction and adds exactly that row to the books, leaves the task table alone unless it writes or removes documents or is a transition of the pool, and is one step of the pool |
| Runs.RunTracks | src/mantle/db/seq.py:343-393 | after any prefix of a run the history's count of losses is the number of operations of it that lost a local row |
| Runs.RunIsPoolRun | src/mantle/db/vertex.py:1547-1689 | every run of the store is a run of the pool: the four transitions step as themselves, a put or a removal at most re-holds the tasks of documents whose status, holder or type it changed, and no other operation moves any task's status or holder |
| Runs.RunClaimsOnce | src/mantle/db/vertex.py:1547-1567 | in any run, losses included, two successful claims of one task enclose a successful release or settle of it, or a put, bulk put or removal after which its document reads otherwise in status, holder or type or has come or gone |
| Runs.RunNeverSkips | src/mantle/db/edge.py:523-534 | over any run, polled at any of its moments with any limits, neither feed ever leaves behind a local row at or below its cursor |
| Runs.EffectUnrepaired | src/mantle/db/seq.py:505-509 | only a repair can tell the row counter about a loss: no other operation does |
| Clock.SeqAllocator.Allocate | src/mantle/db/seq.py:212-222 | the next value after what the open transaction sees, and the allocator is dirty |
| Clock.SeqAllocator.Flush | src/mantle/db/seq.py:196-210 | the durable mark becomes the maximum of itself and the cache; it fails exactly when the allocator is dirty with an empty cache |
| Clock.SeqAllocator.Restore | src/mantle/db/seq.py:232-233 | only the cache comes back: `dirty` keeps what the rolled-back write made it |
| Lattice.Store.Commit | src/mantle/db/seq.py:109-136 | a commit publishes the writer's state, or, when the flush fails, leaves exactly the last committed one |
| Lattice.Store.Rollback | src/mantle/db/seq.py:123-131 | the committed tables and the committed clock come back |
| Accounting.ScanFindsEveryLoss | src/mantle/db/seq.py:343-393 | `seq_accounting(scan=True).unaccounted` is exactly the number of local rows lost outside the accounted write path |
| Accounting.CounterModeSees | src/mantle/db/seq.py:505-509 | without a scan the books are off by the losses the row counter was told about, no more and no less |
| Accounting.EachSeqOnce | src/mantle/db/seq.py:212-222 | the values 1..last_seq are accounted once over both tables: no two local rows share one, and live rows, vacated seqs and losses add up to the mark |
| Accounting.LiveSeqsAreRows | src/mantle/db/seq.py:525-538 | the deduplicating UNION of seqs over both tables counts the live local rows |
| Accounting.MarkGrows | src/mantle/db/seq.py:281-291 | the durable mark never decreases and the log behind it is only extended |
| Accounting.CheckTail | src/mantle/db/seq.py:343-393 | which verdict each mode gives: undecidable for foreign origins and for vacated seqs without a scan; otherwise what the scan or the tail gap says |
| Accounting.LocalIsTheAuthor | src/mantle/db/seq.py:196-210 | the only origin ever judged local is the one that allocates here, from its first committed seq on |
| Accounting.BooksRead | src/mantle/db/seq.py:479-556 | what each field of the books says of the rows, the log and the counters, in each mode |
| Accounting.MaxObserved | src/mantle/db/seq.py:329-340 | the highest seq present, 0 when there is none |
| Accounting.TailGapIsLost | src/mantle/db/seq.py:386-389 | every seq no row holds was vacated or lost; the tail gap is the number of those above the newest row, and in an insert-only store each of them is a loss |
| Lattice.Store.PutRow | src/mantle/db/vertex.py:263-324 | the upserted row, and with it every derived quantity moved so that all invariants hold again |
| Steps.WriteVertexStep | src/mantle/db/vertex.py:302-324 | the XORs, the counter upserts, the vacated seq, the sidecar and the postings of one vertex write keep digests, counters, ledger and sidecars exact |
| Steps.WriteEdgeStep | src/mantle/db/edge.py:225-249 | the same for one edge write |
| Steps.RemoveVertexStep | src/mantle/db/vertex.py:993-1004 | the same for one vertex removal, accounted or evicted |
| Steps.RetireEdgeStep | src/mantle/db/edge.py:739-766 | the same for one edge retirement |
| Steps.PatchStep | src/mantle/db/vertex.py:1691-1709 | a document rewritten at the version it has moves no digest and keeps every invariant when its counters are moved by exactly the difference of its names |
| Invariants.MerkleVertex | src/mantle/db/vertex.py:303-306 | XOR out the old identity and XOR in the new one, both at the row's leaf, is the rescan of the changed table |
| Invariants.MerkleEdge | src/mantle/db/edge.py:225-234 | the same for an edge |
| Invariants.CountersVertex | src/mantle/db/vertex.py:328-386 | counters moved by the names that came minus the names that went stay the recount |
| Folds.XorRemove | src/mantle/db/vertex.py:1836-1856 | the XOR over a table does not depend on the order in which its rows are visited |
| Folds.XorEdit | src/mantle/db/seq.py:566-578 | changing one row changes the XOR of a table by that row's two contributions |
| Folds.SumCounts | src/mantle/db/vertex.py:1743-1757 | a name contributed once by each of some rows is counted as often as there are such rows |
| Tables.CounterDeltas | src/mantle/db/vertex.py:335-386 | the non-zero movements of every counter a document is counted in, whose names the rows of Audit.dfy tell from document keys |
| Audit.CountersAreRows | src/mantle/db/vertex.py:335-386 | where nothing vanished each counter is the number of rows it is named for, told from document keys: totals, labels, `ct`, `state`, collections and their live members, missing provenance and its live part |
| Audit.ProvenanceCensus | src/mantle/db/vertex.py:1190-1207 | the four null-audit counters are due once for each document that lacks the field, and once more for each live one |
| Audit.CollectionCensus | src/mantle/db/vertex.py:335-386 | a collection's counter counts the documents naming it, its `:committed` one the live ones, and ids that join to the same name add up |
| Tables.BumpAll | src/mantle/db/vertex.py:328-333 | every counter, absent ones included, moves by its delta |
| Lattice.Store.BumpCounters | src/mantle/db/vertex.py:328-333 | one upsert per name, in any order, moves every counter by its delta and nothing else |
| Lattice.Store.SyncTask | src/mantle/db/vertex.py:389-417 | the task row becomes the projection of the document; its old bucket loses one, its new one gains one |
| Lattice.Store.IndexLists | src/mantle/db/vertex.py:215-242 | delete, then one posting per non-null value of every indexed field |
| Audit.TasksReadDocuments | src/mantle/db/vertex.py:389-417 | the task table row by row: a task exactly when its document has a status and a type, each column the document's key of that name |
| Lattice.Store.Observe | src/mantle/db/seq.py:271-278 | a foreign seq is recorded as a high-water mark and touches nothing else |
| Lattice.Store.Place | src/mantle/db/vertex.py:619-685 | told from the document's keys: a document that names a collection which is a vertex and is not its own root is contained in it by one edge from the collection to the root of the artifact, labelled `contains`, canonical, without a mask; otherwise no edge moves |
| Lattice.Store.WriteRow | src/mantle/db/vertex.py:263-326 | the row reads the document key by key (stamps, columns, `created_time` first-write-wins), the placement as told from its keys, and exactly which seqs they took |
| Lattice.Store.SnapshotPrior | src/mantle/db/vertex.py:468-500 | the archived copy at a fresh seq when absent, and its placement |
| Lattice.Store.PutArtifact | src/mantle/db/vertex.py:420-466 | told from keys: it fails exactly on a fault, without an id, or consumed without a version; the copy a changed content owes, reading as the replaced document, at its own seq and named as the parent; then the document at its version (a consumed one at the very `_origin` and `_seq` it carries); their placements; no other row or edge; a failed put changes nothing; new seqs are above every earlier one |
| Lattice.Store.PutOne | src/mantle/db/vertex.py:590-610 | told from keys: when one document fails, when a consumed one is declined or refused by the version it carries, and otherwise the row it leaves, reading the document key by key and, consumed, at the version it carries; with the seqs it took |
| Lattice.Store.Lww | src/mantle/db/vertex.py:687-691 | write, decline or refuse, exactly as the partial order of versions and the policy say |
| Lattice.Store.PutGuarded | src/mantle/db/vertex.py:577-588 | a failed document is rolled back whole, clock cache included, and leaves nothing but a dirty allocator if it took a seq |
| Lattice.Store.PutChunk | src/mantle/db/vertex.py:571-588 | one transaction: what its documents leave behind one by one, or, exactly when some of them took a seq and none kept one, nothing at all and an exception |
| Lattice.Store.PutMany | src/mantle/db/vertex.py:518-569 | over chunks of any size: it raises exactly when some chunk aborts; what is stored and counted, also then, is what the documents before the first aborting chunk left; told from keys: local ones the last put under each id; consumed ones take no row away, move a row only to a document of the batch at the version it carries, and leave each id that was offered with a row not older than its offers of that origin |
| Lattice.BadDocumentStopsTheBatch | src/mantle/db/vertex.py:518-548 | one failing document can stop the documents after it: with chunks of one its transaction aborts on an allocator that is dirty with an empty cache and the store stays empty; in one chunk the second document is stored |
| Writes.ConsumedVersions | src/mantle/db/vertex.py:590-610 | the versions a consumed batch leaves are what its documents that did not fail leave by arriving in order |
| Writes.CountIsTheGuard | src/mantle/db/vertex.py:518-531 | the handled count reaches the length of the batch exactly when every document was written or rightly declined, and then no version the batch offered is missing |
| Writes.WholeBatchHandled | src/mantle/db/vertex.py:518-569 | a consumed batch on which nothing fails never raises, counts every document and leaves every version it offered, under any policy but `error` and any chunking |
| Lattice.Store.AddOne | src/mantle/db/edge.py:181-249 | told from the properties: a local edge takes a fresh seq, a consumed one is declined unless newer than the row of its own origin; the row keeps force, propagate and order key each in its column, `is_origin` as its truth, every plain property in the blob and no hidden one; no other edge moves; the mark of the carried origin rises, and a clash of two origins on one key is counted, once and as nothing else |
| Lattice.Store.EdgeLww | src/mantle/db/edge.py:203-209 | a consumed edge is written exactly when no row stands or it is newer than the row of its own origin; a declined one moves at most the conflict counter |
| Lattice.Store.AddChunk | src/mantle/db/edge.py:165-179 | told the same way for the last edge added under each key; the exact abort condition; a consumed chunk never aborts, takes no row away, and moves a row only to an offered edge at its version; its table and count are those of the fold |
| Writes.EdgeCountIsTheGuard | src/mantle/db/edge.py:146-149 | the versions consumed edges leave, and that the handled count reaches their number exactly when every edge was written or rightly declined |
| Lattice.Store.RetireEdgesTouching | src/mantle/db/edge.py:769-795 | exactly the edges with the node on either side go, each accounted |
| Lattice.Store.DeleteEdge | src/mantle/db/edge.py:274-282 | the edge goes, accounted, and is reported found exactly when it was there |
| Lattice.Store.DeleteArtifact | src/mantle/db/vertex.py:965-1005 | an accounted delete takes the edges along and vacates the seqs; an eviction drops the row and leaves its row count behind |
| Consume.ArriveSettles | src/mantle/db/vertex.py:596-609 | the version a key ends at wherever order cannot matter to it (one origin, or a key that is here and a policy that keeps it), characterised without the order |
| Consume.SameOffersSameEnd | src/mantle/db/constants.py:221-241 | where order can matter to no key, the same offers end at the same versions in any order, with any repetition |
| Consume.ReplayAcceptsNothing | src/mantle/db/constants.py:221-241 | a consumed segment has nothing left to offer for such a key |
| Consume.OrderMattersExactlyWhen | src/mantle/db/constants.py:221-241 | per key and policy: all orders of the offers end alike if and only if those of the key carry one origin, or the key is already here and the policy does not let an unordered offer replace it |
| Convergence.AnyOrderSameVertices | src/mantle/db/vertex.py:518-610 | two stores that consumed the same documents (up to those that failed) in any order and batching, where order can matter to no id, hold the same (origin, seq) per id and the same vertex part of the digests |
| Convergence.ReplayIsQuiet | src/mantle/db/vertex.py:518-548 | replaying any part of what was consumed moves nothing but conflict counters: no row, no digest, no task, no posting, no observed mark |
| Convergence.EdgeReplayIsQuiet | src/mantle/db/edge.py:147-149 | replaying any part of a consumed segment of edges leaves every edge row as it is |
| Maintenance.ScanRows | src/mantle/db/vertex.py:1836-1856 | the digests of a full scan of both tables, whatever order the rows come in |
| Maintenance.RebuildMerkle | src/mantle/db/vertex.py:1824-1858 | the rebuild leaves the digests as they were unless rows had vanished |
| Maintenance.SameContentSameLeaves | src/mantle/db/vertex.py:1824-1834 | stores with the same (id, seq) pairs and the same edges publish the same leaves, whatever histories led there |
| Audit.DigestOfVertex | src/mantle/db/constants.py:169-175 | a vertex row adds the hash of its id and seq to the leaf it is stamped with, and to no other |
| Audit.DigestOfEdge | src/mantle/db/constants.py:187-206 | an edge row adds the hash of its key and of its columns and properties that hold something, and nothing of origin, seq or key |
| Maintenance.ScanCounts | src/mantle/db/vertex.py:1740-1757 | the recount of both tables is the census of the rows |
| Maintenance.VerifyCounters | src/mantle/db/vertex.py:1722-1791 | on the counters it judges the drift is exactly what rows removed outside the accounted write path left behind, against a recount whose names the rows of Audit.dfy tell from document keys |
| Maintenance.RepairCounters | src/mantle/db/vertex.py:1792-1803 | after a repair every judged counter is its recount |
| Maintenance.RestampVertices | src/mantle/db/vertex.py:1900-1922 | the paged walk re-stamps every vertex for every page size |
| Maintenance.RestampEdges | src/mantle/db/vertex.py:1900-1922 | the same for the edges |
| Maintenance.Reshard | src/mantle/db/vertex.py:1871-1922 | both tables move to the new modulus together, nothing but stamps and digests changes, and the digests are the rescan |
| Resolution.NaturalLeavesIsCheapest | src/mantle/db/constants.py:16-30 | no power of two costs less per reconcile round than the natural leaf count |
| Resolution.RoundedBrackets | src/mantle/db/constants.py:16-30 | the rounded exponent is the nearest, by integer powers alone: the corpus lies between the two odd powers around it, and on a tie the exponent is the even one |
| Resolution.TableFolds | src/mantle/db/constants.py:161-166 | because a leaf is a hash modulo the leaf count, a finer tree folds onto any divisor |
| Resolution.ReshardFolds | src/mantle/db/vertex.py:1871-1922 | leaf i after a reshard to a divisor is the XOR of the old leaves congruent to i |
| Resolution.ReshardKeepsRoot | src/mantle/db/vertex.py:1871-1922 | any reshard keeps the XOR of all leaves |
| Resolution.MaybeReshard | src/mantle/db/vertex.py:1861-1869 | the store ends at its natural leaf count and moves exactly when it was not there |
| Relabel.RelabelState | src/mantle/db/vertex.py:882-963 | every row in the legacy state and not excluded reads live, or under a limit the lowest ids do; nothing else of them moves, nor any other row, and every counter stays the recount; every page but the last of a walk that is over is full, so the batches counted are the quotient rounded up |
| Relabel.SetUpdate | src/mantle/db/vertex.py:933-946 | moving two counters by the row count of the set update keeps every counter exact |
| Relabel.CommittedNames | src/mantle/db/vertex.py:878-880 | from `committed` to `live` no counter moves but the two states |
| Relabel.RowByRow | src/mantle/db/vertex.py:947-958 | `draft` rows move the counters of their own documents |
| Pool.TryClaim | src/mantle/db/vertex.py:1547-1567 | a compare-and-set on a pending task: status, holder and time of the claim move in its row and in its document, told column by column and key by key, with its bucket; no other column, key, row, edge, digest or clock moves |
| Pool.RenewLease | src/mantle/db/vertex.py:1569-1580 | only a claimed task is renewed: the time of the claim moves in row and document and nothing else |
| Pool.Release | src/mantle/db/vertex.py:1618-1636 | only a claimed task is released, whoever holds it and to whatever status: status, holder and retry time move in row and document, told column by column; the invariants hold after it except when the status is empty and the task has a document |
| Pool.Settle | src/mantle/db/vertex.py:1638-1682 | only the recorded holder settles, to whatever status and with whatever facts: status, holder, retry and completion time move in row and document, told column by column, and the document takes the facts; the invariants hold after it exactly when the document fits the row it leaves, as it does for a status that is not empty and facts no column projects and no counter counts |
| Pool.MisfitBreaks | src/mantle/db/vertex.py:1691-1709 | the task row and its document are kept in step only when the document will project to the moved row, be counted where it was and keep its type: otherwise a patched document and its sidecar or counters disagree |
| Pool.ClaimHolds | src/mantle/db/vertex.py:1547-1567 | a claimed task stays claimed by its claimer until something frees it |
| Pool.ClaimedOnce | src/mantle/db/vertex.py:1547-1567 | between two successful claims of one task there is a successful release or settle, or a write that left its document with another claim |
| Pool.OnlyTheHolderSettles | src/mantle/db/vertex.py:1638-1682 | until it is freed, a settle of the task succeeds exactly for its claimer |
| Pool.TasksAreProjections | src/mantle/db/vertex.py:389-417 | in a store that lost no vertex the task table is the projection of the documents |
| Pool.FreedByItsDocument | src/mantle/db/vertex.py:389-417 | per artifact and whatever else vanished: the status or the holder of a task moves only when its document comes, goes or reads otherwise in status, holder or type; a task whose document is gone stays as it was left |
| Pool.DepthIsBucketSize | src/mantle/db/vertex.py:1684-1689 | where nothing vanished each queue depth counter is the number of tasks whose type and status join to its name; that is the size of the bucket exactly when no other bucket joins to the same name, and always when no status holds a colon |
| Feed.PageByOrigin | src/mantle/db/vertex.py:1075-1089 | the rows above the cursor in seq order, cut only by the limit |
| Feed.FeedNeverSkips | src/mantle/db/edge.py:523-534 | a consumer that polls with the last seq it saw never leaves behind a row at or below its cursor that it did not receive at that version, whatever is written between polls |
| Feed.StoreMovesForward | src/mantle/db/seq.py:212-222 | any operations of the store move both tables as the feed needs |
| Feed.StoreNumbers | src/mantle/db/seq.py:212-222 | no two local rows of a table share a seq and none is above the log |
| Feed.BacklogIsTheRows | src/mantle/db/vertex.py:1109-1157 | an exact backlog is the number of authored rows above each table's own cursor, so exact and 0 says nothing is left; when it is exact; the edge term is negative exactly when the cap is, and is then the cap and inexact |
| Feed.DrainedFeed | src/mantle/db/vertex.py:1109-1145 | a feed that answered a poll with less than a full page is drained |
| Feed.EdgeMark | src/mantle/db/edge.py:697-719 | degree and newest seq of one side of a node, and when they are all of it |
| Feed.EdgeMarkIsAbaFree | src/mantle/db/edge.py:388-406 | equal exhaustive marks over locally authored edges mean the same edge rows, whatever ran between |
| KeyedIndex.PostedIff | src/mantle/db/vertex.py:215-242 | a posting is there exactly when the document carries its value in its field |
| KeyedIndex.IndexIsScan | src/mantle/db/vertex.py:1320-1342 | the index answers what the scan of all documents would |
| KeyedIndex.LookupByListField | src/mantle/db/vertex.py:1320-1342 | the lowest rows of the join, in id order and as often as the value is posted, flagged as truncated exactly when there are more than the limit; the join is the filter scan; a field outside the index is refused |
| KeyedIndex.LookupWithListField | src/mantle/db/vertex.py:1344-1356 | the next page of ids with any value in the field, flagged as truncated exactly when an id is left |
| KeyedIndex.WalkListField | src/mantle/db/vertex.py:1344-1356 | paging with any page size visits each matching id exactly once |
| Keyset.Select | src/mantle/db/vertex.py:928-932 | the first n keys above the cursor, in order |
| Keyset.Walk | src/mantle/db/vertex.py:1900-1922 | a keyset walk visits every key once for every page size |
| Lineage.RunPuts | src/mantle/db/vertex.py:420-466 | any run of local puts on one handle: as many snapshots as content changes, and the lineage of the next rows |
| Lineage.NextVersion | src/mantle/db/vertex.py:455-463 | one put extends the lineage by one archived copy exactly when it changes content, and the new head names it |
| Lineage.CopyIsNew | src/mantle/db/vertex.py:483-493 | the snapshot of the present head is never there yet |
| Lineage.VersionsAreTheChain | src/mantle/db/vertex.py:1462-1472 | `versions_of` lists the replaced versions oldest first and the handle last |
| Lineage.HeadIsTheHandle | src/mantle/db/vertex.py:1453-1460 | the handle is the head and the only live row of its lineage |
| Lineage.ParentsNewestFirst | src/mantle/db/vertex.py:461-463 | following `parent_id` from the head visits the replaced versions newest to oldest |
| Attenuation.MeetLaws | src/mantle/attenuation.py:256-267 | the meet is idempotent, commutative and associative, with TOP as unit and DENY as zero, and is the greatest lower bound |
| Attenuation.MeetAllows | src/mantle/attenuation.py:337-346 | the meet authorizes exactly what both sides authorize |
| Attenuation.Compose | src/mantle/attenuation.py:398-411 | a composed mask is below every mask on the path and authorizes exactly what each of them does |
| Attenuation.ComposeConcat | src/mantle/attenuation.py:401-404 | the authority of two paths in a row is the meet of theirs |
| Attenuation.Of | src/mantle/attenuation.py:137-149 | exactly the named known actions |
| Attenuation.Layout | src/mantle/attenuation.py:60-96 | the nine actions stand in their order from the lowest bit and the effect above them |
| Attenuation.FromPropagate | src/mantle/attenuation.py:190-232 | a column authorizes exactly what it has always let through, except that an unknown action passes nothing |
| Attenuation.Propagates | src/mantle/attenuation.py:414-421 | one test for both walks |
| Attenuation.ColumnRoundTrip | src/mantle/attenuation.py:234-252 | an allow mask survives the column and back |
| LightCone.PathConducts | src/mantle/attenuation.py:398-411 | a path's composed mask allows an action exactly when each of its edges does |
| LightCone.ListOriginDescendants | src/mantle/db/lattice_api.py:938-995 | exactly the non-seed nodes reached by an origin path whose composed mask allows the action, cycles or not; a clipped read is raised exactly when one is met |
| LightCone.OriginChain | src/mantle/db/lattice_api.py:868-930 | the artifact, its root and then each conducting parent, without repetition; it is raised exactly when the climb meets a clipped read, unterminated exactly past the ceiling, complete otherwise |
| LightCone.ParentReads | src/mantle/db/lattice_api.py:828-844 | the parent is the source and mask of the first canonical edge into the node in read order; none where the read failed; a clipped read is neither |
| LightCone.WalksAgree | src/mantle/db/lattice_api.py:868-930 | with one origin parent per node, a root is on the artifact's chain exactly when it is the artifact or its cone holds it |
| Access.Descendants | src/mantle/db/access.py:84-115 | exactly the transitive closure of the collection tree, cycles or not |
| Access.GatedCollections | src/mantle/db/access.py:152-180 | exactly what some active unexpired Read grant, allow or deny, gates |
| Access.GetActiveCollectionIds | src/mantle/db/lattice_api.py:1239-1267 | allowed and not denied on the same resource, in whatever order the grants come |
| Access.ReachableCollections | src/mantle/db/access.py:183-196 | the closure of the direct cone; nothing for an anonymous caller |
| Access.IsPublic | src/mantle/db/access.py:258-268 | born public or made public |
| Access.CanRead | src/mantle/db/access.py:271-281 | public, or in the principal's cone |
| Access.GrantNeverHidesFromItsGrantee | src/mantle/db/access.py:152-180 | adding a Read grant for p, on any resource, never takes a read away from p |
| Access.GrantHidesFromOthers | src/mantle/db/access.py:271-281 | what the same grant does to everybody else: exactly what was public for want of a grant and lies in its closure is hidden |
| Content.FileContentCache.Get | src/mantle/db/content_cache.py:236-274 | bytes that hash to the address, or the exact error; only a provably corrupt object is evicted, and one is resealed only when it opened under an older key |
| Content.FileContentCache.Put | src/mantle/db/content_cache.py:292-321 | present exactly when readable before, left alone exactly when it does not open; written means sealed under the address and readable; no other object changes, and none goes without an oracle |
| Content.FileContentCache.EnsureFree | src/mantle/db/content_cache.py:344-406 | every evicted object is one the oracle confirms, none goes without an oracle, and nothing held is lost |
| Content.CorruptForAll | src/mantle/db/content_cache.py:418-469 | what a read proves corrupt opens for no collection |
| Content.ReadReads | src/mantle/db/content_cache.py:418-469 | what a read yields, told from the address, the file, its key and its bytes |
| Content.TieredContentStore.Get | src/mantle/db/content_tier.py:175-242 | whatever is held is returned when the remote answers, and returned bytes hash to the address; what opens locally is the answer; without bytes the answer is the local error, or a remote miss exactly when the local one was a miss |
| Content.TieredContentStore.Put | src/mantle/db/content_tier.py:245-260 | success means held; a readable object is always a success; the remote changes only without a cache, only by this object, and only when it was not there |
| Content.TieredContentStore.PromoteOne | src/mantle/db/content_tier.py:273-289 | copied or skipped means the remote holds the genuine object; copied means it was not there and is now the bytes the local read verifies; otherwise the remote is as it was |
| Content.TieredContentStore.EvictLocal | src/mantle/db/content_tier.py:291-307 | the local copy goes only when the remote holds the genuine object, it alone, and the answer says whether it did |
| Content.TieredContentStore.EvictForSpace | src/mantle/db/content_tier.py:309-355 | the same for a bounded number of objects, each of them in the remote and counted; an error is an object that stays |
| Content.Run | src/mantle/db/content_tier.py:166-355 | no run of reads, writes, promotions and evictions loses what was held |
| Content.StoreRunRead | src/mantle/db/content_tier.py:245-261 | store, then run anything, then read: bytes of the same digest come back, the same bytes if no others share it |
| RateLimit.Limiter.Admit | src/mantle/main.py:965-982 | admits exactly when the limiter that keeps every hit does; every stored client was seen within the window; the exact order and windows it leaves |
| RateLimit.Limiter.EvictExpired | src/mantle/main.py:942-962 | drops the windows before the first live one and no live one |
| RateLimit.Serve | src/mantle/main.py:965-982 | for every non-decreasing clock the answers are those of the full log, no closed window exceeds the limit, and whether a sweep is complete is told from the requests and what was admitted of them |
| RateLimit.WindowBound | src/mantle/main.py:965-982 | no closed window of the admitted log holds more than the limit per client |
| RateLimit.SweepIsCompleteWhen | src/mantle/main.py:942-962 | the sweep drops every window whose newest hit aged out if and only if no live window stands before that of a client seen within the window whose newest hit is older |
| RateLimit.SweepAfterRun | src/mantle/main.py:942-962 | after any run a sweep drops every aged-out window if and only if no client that was refused ever since the cutoff asked last behind one admitted since |
| RateLimit.AllAdmittedIsComplete | src/mantle/main.py:942-962 | where every request was admitted no sweep leaves an aged-out window behind |
| RateLimit.AgedWindowSurvives | src/mantle/main.py:974-981 | it need not: a run of three requests with limit 1 after which the next sweep leaves an aged-out window stored |
| RateLimit.SurvivesWhen | src/mantle/main.py:942-962 | a client survives the sweep exactly when its window or one before it in the order is live |

## Left out

- Lattice.Store.AddChunk: the loop of `add_edges` over chunks is not modelled on its own; `Runs.Run` covers every sequence of chunks.
- Lattice.Store.DeleteArtifact: retires the edges before it removes the vertex, where the source removes the vertex first; the statements commute.
- Lattice.Store.IndexLists: the postings are grouped by artifact and carry no row order.
- Runs.Perform: a run releases and settles to a status that is not empty, and settles with facts no column projects and no counter counts, as the callers do; with others the store leaves its invariants, and when it does is `Pool.Release` and `Pool.Settle`.
- Maintenance.Reshard: the graph face is passed along, so both tables move; no other writer runs between its pages; a row written meanwhile would be stamped under the old modulus.
- Relabel.RelabelState: no other writer runs between the selection of a page and its rewrite; the guard that would skip a changed row is kept.
- Lineage.RunPuts: a caller that re-describes carries over the parent it read; `revise` is not modelled, since revising back to earlier content can make the parents cyclic.
- Feed.EdgeMarkIsAbaFree: identity is up to the leaf stamp, which a reshard moves; nothing is claimed for sides with consumed edges.
- LightCone.WalksAgree: stated for the chain that starts at the artifact itself, under the ceiling, with every read succeeding.
- Content.FileContentCache.EnsureFree: the order of eviction and the arithmetic of free space are left open; every order and every reading is covered.
- RateLimit.Limiter.Admit: clock readings are reals; the choice of the client identity from proxy headers is not modelled.
- Accounting.CheckTail: a store that never wrote has no clock row and is reported undecidable, as in the source.
- Columns that nothing here reads (`offer`, `created_by`, timestamps other than `created_time`), JSON text, and the conversion of a task's priority to a number.
- `_recover`, NULL leaves and uncertified index markers of older stores; DDL, pragmas, WAL checkpoints.
- `mid_key`, `page_by_ct`, `write_mark`, `content_type_mark`, `gated_owner_map`: their documentation promises more than their code keeps, or they add only easy members.
- The demand table, logging and the statistics counters of the content tiers and of unplaced documents.
- HTTP wiring, OAuth metadata, configuration, the mesh daemon, object-store clients, real cryptography.
