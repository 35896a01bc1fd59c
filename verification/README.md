# saucedust: a verified model

saucedust collects posts with many nodes that lease id ranges from one PostgreSQL table, embeds the images,
and keeps a flat binary vector index that it searches exhaustively. This project models its concurrent and
crash-prone parts and proves what they promise over whole runs. `dafny verify dfyconfig.toml` verifies it.

## What is modelled

**Leases** (`Lease`, `LeaseProtocol`, `LeaseRefinement`, `Ranges`). The rows of `crawl_ranges` and the frontiers
are the fields of a class whose methods are the SQL statements. `LeaseProtocol` lets any number of nodes
interleave them: the two transactions of a reuse (mark, then split at the floor) are separate steps, and nodes
crash, stall, renew, finish, release and reclaim in between. `attempts` is both the retry budget and the
fencing token and goes down on a release, so fencing rests on an invariant over all handles ever granted.
`LeaseRefinement` shows that each statement is a step of that protocol. `Ranges` gives the coverage query and
the planner that fills gaps.

**Crawling** (`Danbooru`, `Indexer`, `Crawler`, `Catchup`). Paging over a source whose listing may change
between any two requests; one `IndexBatch` with its goroutines, shared batch and two senders; a node's workers
sharing a budget through a compare-and-swap counter, on top of the lease protocol; catch-up by any number of
nodes against one watermark and one retry queue.

**The flat index** (`Codes`, `FlatFiles`, `Appends`, `RetriedAppends`, `Collection.dfy`, `Scan.dfy`, `Search.dfy`,
`Sorting`). Sign codes and word-wise distances; two append-only files under torn writes, failed appends followed
by others on the same handle, kills and power loss (what was written since the last sync survives as a prefix,
an unsynced truncation may come undone, and bytes rewritten with the value they had are not at risk); opening
and appending as methods that may fail at any byte; the sharded scan behind a falling threshold; de-duplication and rescoring.

**Ingesting** (`Ingest.dfy`, `IngestStore.dfy`). Submissions, rebuilds and re-embeddings as concurrent jobs over
the vector table and the collections, any of which may stop anywhere; and the same calls as methods run
alone, with operations that may fail.

**Limits** (`Limiter.dfy`, `RateLimiter.dfy`) and **the ClientHello** (`ClientHello.dfy`, `Fragments.dfy`): the
debt-based semaphore, the virtual-time request limiter, the host-name finder of RFC 8446 sections 4.1.2 and
5.1 and RFC 6066 section 3, and the split first write.

Clock readings, the source's answers, the embedder's results, I/O failures, the order in which goroutines
finish and the row a `SKIP LOCKED` query skips are parameters, so every theorem holds for all of them.

## Where the code falls short of its promise

Each of these has a run or an input at which the promise fails, and a theorem saying exactly when it holds.

- The renewal goroutine keeps a copy of a handle that was released (internal/app/crawler.go:281-311). The
  release gives the token back, so the copy can renew a later grant of the same node:
  `LeaseProtocol.ReturnedCopyCanAct`; exactly when: `LeaseProtocol.ReturnedCopyActsIff`.
- The shrink that splits a row at the floor looks at the row's status but not at its token
  (internal/adapter/postgres/lease.go:124-126). Two nodes with different floors can make rows overlap:
  `LeaseProtocol.TwoFloorsOverlap`; exactly when: `LeaseProtocol.SplitKeepsTilingIff`.
- A retry that gets no share of the budget is recorded as succeeded, since `retryOne` drops the `trimmed`
  result (internal/app/crawler.go:373-395). It happens while the node's last share is held by another batch still
  under way: `Catchup.RetryCanBeLost`; exactly when: `Catchup.RetryKeepsItsWordIff`, and for the promise about
  the watermark over whole runs `Catchup.RunKeepsIff`.
- A failed enqueue is only logged, so the watermark then passes the failed post
  (internal/app/crawler.go:445-452): `Catchup.LostEnqueueLeavesHole`; exactly when:
  `Catchup.AdvanceAfterEnqueueIff`, and over whole runs, whatever comes between, `Catchup.RunKeepsIff`.
- A submitted batch can be larger than `SubmitBatch` (internal/app/indexer.go:157-166):
  `Indexer.BatchCanExceedSize`; exactly when: `Indexer.SizeIsKeptIff`; by how much: `Indexer.BatchStaysBounded`.
- `giveBack` unlocks before it sends (internal/app/adaptive.go:107-110). A shrink in that gap lets the limit
  be exceeded and leaves debt behind when everything has been returned: `Limiters.ReturnInFlightExceedsLimit`,
  `Limiters.ReturnInFlightLeavesDebt`; exactly when, with acquisitions and returns interleaved with the shrink
  in any way: `Limiters.LimitBreaksIff`, `Limiters.DebtOutlivesIff`.
- Two submissions of one image can leave a row marked indexed whose vector is not in the index and which no
  rebuild looks at (internal/app/ingest.go:125-147): `Ingesting.OverlapLeavesStaleMark`; exactly when:
  `Ingesting.MarkIsHonestIff`, and over whole runs `Ingesting.RunIsHonestIff`.
- The planner is said to leave overlapping ranges alone (internal/adapter/postgres/ranges.go:183-184), but it
  only skips a block whose bounds exist already. A gap list planned twice in blocks of different sizes makes
  rows overlap: `Ranges.StaleGapsOverlap`; exactly when: `Ranges.PlanStaysDisjointIff`.
- A failed append leaves its handle open with the old count (internal/adapter/flatindex/flatindex.go:194-231),
  and the next one writes its codes under the ids that the failed one left. A crash before its own ids are
  written leaves a slot with the code of one image and the id of another, which no opening notices:
  `RetriedAppends.RetryMixesPoints`; exactly when: `RetriedAppends.RetryMixesIff`, and for the stronger
  promise that openings find the points last offered, over whole runs, `Appends.RunIsRecoverableIff`.
  Acknowledged points are never lost: `Appends.AcknowledgedStay`.

## Model

| member | source | states |
|---|---|---|
| `Lease.Store.PickCandidate` | internal/adapter/postgres/lease.go:46-75 | The reuse query picks an unlocked row that ends at or above the floor, has fewer than five tries, and is failed and rested or was leased more than 30 minutes ago; the first such by (attempts, id); and none only if there is none. |
| `Lease.Store.MarkCandidate` | internal/adapter/postgres/lease.go:38-93 | The first transaction marks exactly that row running for the node, with one try more and the lease time, and changes no other row. |
| `Lease.Store.SplitAtFloor` | internal/adapter/postgres/lease.go:106-140 | The second transaction keeps the part below the floor as its own row unless one exists, shrinks the leased row, and rolls back with a conflict if the row is no longer running. |
| `Lease.Store.ReuseRange` | internal/adapter/postgres/lease.go:38-104 | An undisturbed reuse leases the first candidate, cut at the floor; it fails only without a candidate and then changes nothing. |
| `Lease.Store.CarveRange` | internal/adapter/postgres/lease.go:142-212 | A carve leases the block under the frontier, never below the floor, and moves the frontier to its lower end; it fails exactly when nothing above the floor is left. |
| `Lease.Store.AcquireBackfillRange` | internal/adapter/postgres/lease.go:22-36 | Reuse comes before carving. A row leased or renewed within the last 30 minutes, or failed and not yet rested, stays as it is (unless it is the very block under the frontier, which `CarveIsStep` rules out); with such a free row overdue or rested, below five tries and reaching the floor, the call is a reuse of an old row. The granted row carries node, lease time and one try more, lies above the floor, and is the only old row changed; no work means neither a candidate nor an uncarved id. |
| `Lease.ReuseInFull` | internal/adapter/postgres/lease.go:38-140 | What a reuse leaves behind, field by field: the granted row, the cut at the floor, and below it a failed, rested row without tries. |
| `Lease.CarveInFull` | internal/adapter/postgres/lease.go:142-212 | What a carve leaves behind, field by field. |
| `Lease.Store.FinishRange` | internal/adapter/postgres/lease.go:216-248 | It takes effect exactly when the row is running under this token for this node, and then only on that row; a failure rests 1, 2, 4, 8, 16 or 30 minutes by the number of tries, any other end not at all. |
| `Lease.Store.RenewRange` | internal/adapter/postgres/lease.go:372-388 | Same guard; only the lease time of that row changes. |
| `Lease.Store.ReleaseRange` | internal/adapter/postgres/lease.go:392-407 | Same guard; the row becomes failed and free at once, and its attempt is given back. |
| `Lease.Store.ReclaimOwnLeases` | internal/adapter/postgres/nodes.go:91-130 | Exactly the running rows of the node are taken away, attempts untouched, and the count is how many changed. |
| `Lease.Store.ReclaimDeadNodeLeases` | internal/adapter/postgres/nodes.go:96-130 | Exactly the running rows of nodes that are not online are taken away, and the count is how many changed. |
| `Lease.Store.InitCatchupState` | internal/adapter/postgres/lease.go:250-261 | The watermark never falls and ends at the lowest value below neither `latest` nor the old one; a backfill frontier that is set never moves; a first boot fixes both at `latest`. |
| `Lease.Store.AdvanceWatermark` | internal/adapter/postgres/lease.go:280-286 | The watermark ends below neither its old value nor the id. |
| `Lease.FrontiersOverRuns` | internal/adapter/postgres/lease.go:250-286 | After the first boot, over any boots and advances in any order, the backfill frontier stays where that boot put it and the watermark is exactly the highest id reported. |
| `LeaseProtocol.StepKeeps` | internal/adapter/postgres/lease.go:22-407 | Every step of every node, including renewals by copies of returned handles, keeps the tiling, the fencing of handles, the readiness of pending splits and the attempt budget. |
| `LeaseRefinement.Acquire` | internal/adapter/postgres/lease.go:22-212 | Acquiring on a table that matches a reachable protocol state leaves it matching a reachable one, with exactly the returned handle as its newest grant. |
| `LeaseRefinement.CarveIsStep` | internal/adapter/postgres/lease.go:142-212 | On reachable tables a carve is one protocol step; the conflict branch of its insert is never taken. |
| `LeaseRefinement.ReuseIsRun` | internal/adapter/postgres/lease.go:38-140 | An undisturbed reuse is the marking step and, below the floor, the splitting step. |
| `LeaseRefinement.Split` | internal/adapter/postgres/lease.go:106-140 | The split transaction alone is one protocol step, whatever happened since the marking. |
| `LeaseRefinement.Release` | internal/adapter/postgres/lease.go:392-407 | A release is one protocol step. |
| `LeaseRefinement.Renew` | internal/adapter/postgres/lease.go:372-388 | So is a renewal, also with a handle that was returned. |
| `LeaseProtocol.RowsTileTheHistory` | internal/adapter/postgres/lease.go:106-212 | In every reachable state the rows are exactly [frontier, first boot's latest), each id in one row, and no carve can meet an existing row. |
| `LeaseProtocol.TokensFence` | internal/adapter/postgres/lease.go:216-248 | Unreturned handles of a row carry different tokens no higher than the row's; only the latest grant passes the guard, and it covers exactly the row's ids. |
| `LeaseProtocol.RenewedLeasesAreKept` | internal/adapter/postgres/lease.go:56-57 | Over any run in which every acquisition comes within 30 minutes of the row's last lease or renewal, the row is not reported back and its node not declared gone, the handle goes on passing the guard. |
| `LeaseProtocol.NeglectedLeaseIsOffered` | internal/adapter/postgres/lease.go:56-57 | A running row with tries left above the floor can be taken over exactly once 30 minutes have passed. |
| `LeaseProtocol.ReturnedCopyActsIff` | internal/app/crawler.go:278-311 | A copy of a released handle passes the guard if and only if the row is running and its latest grant, given later and not returned, went to the same node under the same token. |
| `LeaseProtocol.ReturnedCopyCanAct` | internal/app/crawler.go:281-311 | Such a state is reachable, and there the copy's renewal takes effect. |
| `LeaseProtocol.SplitKeepsTilingIff` | internal/adapter/postgres/lease.go:106-140 | For any running row and floor, the unfenced split keeps the tiling if and only if the row has the bounds that were read or was already cut at this floor. |
| `LeaseProtocol.TwoFloorsOverlap` | internal/adapter/postgres/lease.go:124-126 | With two floors in use at once the rows overlap. |
| `LeaseProtocol.BackfillTerminates` | internal/adapter/postgres/lease.go:38-93 | Under one floor, from any reachable state, grants not given back grow by at most five per uncarved id and five per row; attempts never exceed five. |
| `LeaseProtocol.StepCost` | internal/adapter/postgres/lease.go:142-212 | Every grant lowers, and every release gives back, a potential that no other step raises. |
| `Ranges.GapsAreExact` | internal/adapter/postgres/ranges.go:148-181 | For disjoint rows the query lists an interval if and only if it is a maximal uncovered interval between covered ids. |
| `Ranges.ReportIsExact` | internal/adapter/postgres/ranges.go:148-181 | The report lists maximal gaps from the highest down, at most the limit (20 by default), and one left out lies below a full report. |
| `Ranges.LeaseRowsHaveNoGaps` | internal/adapter/postgres/ranges.go:148-181 | The rows of every reachable lease table have no gaps. |
| `Ranges.LagCatches` | internal/adapter/postgres/ranges.go:150-165 | Every uncovered id between two covered ones lies in a listed gap. |
| `Ranges.PlanGapRanges` | internal/adapter/postgres/ranges.go:185-224 | The planner's loops insert exactly the planned blocks (of 10000 ids by default) behind the rows there were, as failed rows that can be leased at once, and report how many were new. |
| `Ranges.PiecesTile` | internal/adapter/postgres/ranges.go:197-214 | The blocks of a gap are disjoint, no longer than the range size, and cover exactly the gap. |
| `Ranges.PlanFillsGaps` | internal/adapter/postgres/ranges.go:185-224 | Planning over all gaps keeps rows disjoint and in place and adds exactly the ids of the gaps. |
| `Ranges.PlanClosesGaps` | internal/adapter/postgres/ranges.go:185-224 | After planning the coverage query has nothing left to report. |
| `Ranges.PlanStaysDisjointIff` | internal/adapter/postgres/ranges.go:183-224 | Over any list of gaps, however old and in whatever order, planning keeps the rows disjoint if and only if each block exists already or touches no covered id, and any two blocks are the same or apart, as they always are for separate gaps. |
| `Ranges.StaleGapsOverlap` | internal/adapter/postgres/ranges.go:183-224 | A reported gap planned twice, with block sizes 5 and 100, makes rows overlap. |
| `Danbooru.FetchCatches` | internal/adapter/danbooru/danbooru.go:223-247 | A page has at most 200 posts; a listed post in range is on it, or it has 200 and ends above that post, so that the scan comes to it. |
| `Danbooru.PostsInRange` | internal/adapter/danbooru/danbooru.go:120-157 | The scan ends, at the first page that is not full; what it returns is in range, strictly descending, was listed at some request, and includes every post listed at all of them, however the listing changes. |
| `Indexer.Triage` | internal/app/indexer.go:106-138 | The filter leaves exactly the posts neither skipped nor stored, in order, and its counts add up. |
| `Indexer.LiveBatchAccounts` | internal/app/indexer.go:140-242 | In every schedule that ends with a live context, accepted and failed posts make up the work exactly, and every embedded post was handed to the sink exactly once. |
| `Indexer.BatchStaysBounded` | internal/app/indexer.go:157-200 | At every moment at most two submissions are under way, no post is lost or doubled, and the batch is below its size plus the flushers still to take it. |
| `Indexer.SubmissionsAreFull` | internal/app/indexer.go:157-230 | If every full batch is taken before the next post is done, each submission but the last has exactly the nominal size. |
| `Indexer.CallEnds` | internal/app/indexer.go:140-242 | Every schedule of a call of n posts ends within 8 n + 5 steps, cancellations aside, and has a next step until it has returned. |
| `Indexer.SavedAndFailed` | internal/app/indexer.go:178-222 | If nothing fails all posts are saved; if the sink takes nothing, none is and all are listed as failed. |
| `Indexer.ErrorIffRejected` | internal/app/indexer.go:178-242 | The call ends with a submission error if and only if the sink refused some batch, and as cancelled if and only if it was cancelled, which may happen at any moment. |
| `Indexer.BatchCanExceedSize` | internal/app/indexer.go:157-166 | A schedule submits two posts at once with a batch size of one. |
| `Indexer.SizeIsKeptIff` | internal/app/indexer.go:157-230 | A whole run submits more than the nominal size at once if and only if some post arrived at a batch that was full already. |
| `Indexer.IndexBatchAccounts` | internal/app/indexer.go:106-242 | For the whole call, skipped, existing, saved and failed add up to the input and every post is in one of them. |
| `Crawler.CompletedMeansComplete` | internal/app/crawler.go:278-325 | In every run, every post that stayed listed during the scan behind a completed or empty row was skipped, stored already, or accepted by the sink; no such batch was cut short. |
| `Crawler.ClosedAs` | internal/app/crawler.go:278-325 | The row a range leaves, whatever happens between decision and statement: given back with its try if its batch was cut, the index was full or the node's budget is used; failed and resting after another error or a failed post; empty without posts; completed otherwise. |
| `Crawler.IndexReports` | internal/app/crawler.go:288-304 | A worker reports exactly whether its batch was cut, the error, and whether a post failed; paging that fails is an error. |
| `Crawler.WorkersGoOn` | internal/app/crawler.go:278-325 | Each worker has its next step whatever the others, the table and the source do, up to the closing while its grant is held. |
| `Crawler.HandledIsEarned` | internal/app/crawler.go:397-431 | Only posts of the share that are skipped, stored already or accepted by the sink become handled. |
| `Crawler.CutRangesAreGivenBack` | internal/app/crawler.go:297-304 | Closing a range whose batch the budget cut short never leaves its row completed or empty. |
| `Crawler.BudgetIsShared` | internal/app/crawler.go:413-431 | However the load and compare-and-swap steps of a node's range, catch-up and retry workers interleave, the counter accounts for every share handed out and they never exceed the budget together. |
| `Crawler.SharesAreExact` | internal/app/crawler.go:486-504 | Without a limit a batch gets all it wants, at the limit nothing; a successful swap raises the counter to the sum or the limit and gives exactly the difference. |
| `Crawler.ClientSharesAreExact` | internal/app/crawler.go:486-504 | The same for catch-up and retry workers. |
| `Crawler.StepKeeps` | internal/app/crawler.go:237-325 | Each step of table, source and workers keeps all of the above. |
| `Catchup.WatermarkLeavesNoHole` | internal/app/crawler.go:182-235 | Between boots, as long as no queueing error strikes a post new to the queue and no retry is finished without a share (unless its lease was lost or its post handled), the watermark never falls and every stably listed post it has passed was handled, waits for a retry or is being retried, or was given up after five tries. |
| `Catchup.FetchesAboveTheWatermark` | internal/app/crawler.go:187-193 | A node that reads the mark and fetches at once gets the oldest posts above the watermark, at most 200, and all of them if fewer. |
| `Catchup.RoundRaisesTheWatermark` | internal/app/crawler.go:182-235 | An undisturbed round with an uncut page leaves the watermark at the page's highest post, above where it was. |
| `Catchup.RoundIsPossible` | internal/app/crawler.go:182-235 | Such a round is possible whenever the node is idle, for the source's page and any indexing that accounts for it. |
| `Catchup.NodesGoOn` | internal/app/crawler.go:182-235 | However rounds interleave, each node has its next step, with or without errors. |
| `Catchup.NewPostsAreFetched` | internal/app/crawler.go:187-198 | As long as a newer post is listed the page is not empty, so that the watermark strictly rises. |
| `Catchup.AdvancePasses` | internal/app/crawler.go:222-233 | However rounds interleave, an advance leaves the watermark at or above all of an uncut page. |
| `Catchup.RetryEnds` | internal/app/crawler.go:373-395 | How each retry leaves its row and its post, for every share, error and failure, and that one that lost its row leaves the row alone. |
| `Catchup.LeaseUsesATry` | internal/adapter/postgres/lease.go:309-342 | A retry is leased exactly while it has not succeeded and has fewer than five tries, and each lease uses one. |
| `Catchup.EnqueueQueues` | internal/adapter/postgres/lease.go:288-303 | Queueing makes failed posts wait with the tries they have used, unless their retry succeeded. |
| `Catchup.StepKeepsIff` | internal/app/crawler.go:182-235 | A step keeps the promise about the watermark if and only if it is no advance that newly passes a stable post neither handled nor queued, and no retry recorded as succeeded without a share for an unhandled post that is promised; no other step can break it. |
| `Catchup.RunKeepsIff` | internal/app/crawler.go:182-235 | Between boots, in any interleaving, the promise holds at every moment if and only if each advance and each retry meets that guard. |
| `Catchup.StepKeepsBase` | internal/app/crawler.go:182-235 | Whatever is lost, every node's mark stays at or below the watermark, its page complete above the mark, and what it took from it handled or among its failures. |
| `Catchup.AdvanceAfterEnqueueIff` | internal/app/crawler.go:202-235 | Queueing the failures and raising the watermark keeps the promise if and only if the page was cut, the mark had passed it already, or each failed stable post was handled or queued before or is new to the queue and the queueing worked. |
| `Catchup.GivenUpIsFinal` | internal/adapter/postgres/lease.go:309-330 | A retry with five tries behind it is never leased again, and no later failure revives it. |
| `Catchup.FetchIsComplete` | internal/adapter/danbooru/danbooru.go:160-166 | A page of the oldest posts above the mark has no stable post missing below its end. |
| `Catchup.RetryKeepsItsWordIff` | internal/app/crawler.go:373-395 | Succeeded retries stay handled if and only if the finished one had lost its lease, had a share of the budget, or its post was handled anyway. |
| `Catchup.RetryCanBeLost` | internal/app/crawler.go:373-395 | A run from the start: a post fails and is queued; its retry runs on a node whose last share is held by another batch, and is recorded as succeeded with the post lost. |
| `Catchup.LostEnqueueLeavesHole` | internal/app/crawler.go:445-452 | A run from the start: after a failed enqueue the watermark passes an unhandled post. |
| `Codes.Hamming` | internal/adapter/flatindex/scan.go:144-155 | The word loop with its byte tail returns the bytewise count of differing bits modulo 65536. |
| `Codes.WordStep` | internal/adapter/flatindex/scan.go:157-161 | The population count of two little-endian words is the sum over their eight bytes. |
| `Codes.Encode` | internal/adapter/flatindex/flatindex.go:373-381 | The loop sets bit i, lowest first in each byte, exactly if dimension i is greater than zero. |
| `Codes.DistanceCountsDimensions` | internal/adapter/flatindex/flatindex.go:373-381 | For any dimension, the distance of two codes is the number of dimensions whose sign differs; sixteen bits keep it if and only if that is below 65536. |
| `FlatFiles.SlotsPair` | internal/adapter/flatindex/flatindex.go:316-327 | Files that start with the bytes of some points read back as those points, each code with its own id. |
| `FlatFiles.LittleEndian` | internal/adapter/flatindex/collection.go:155 | An id takes eight bytes, the lowest first. |
| `Appends.OpenCollectionsAreWhole` | internal/adapter/flatindex/collection.go:141-188 | After any appends, failures, kills, power losses and reopenings in which appends over the remains of failed ones offer the same points again, an open collection reads as whole points, those last offered for its slots. |
| `Appends.AcknowledgedStay` | internal/adapter/flatindex/collection.go:141-188 | In every run without exception, whatever failed and whatever was appended after it, each point ever acknowledged is read from its slot whenever the collection is open. |
| `Appends.AppendCanSucceed` | internal/adapter/flatindex/collection.go:141-188 | On any open handle, also after a failed append, a batch that meets no failure is written, synced and acknowledged, each point in its slot. |
| `Appends.RecoveryKeepsPrefix` | internal/adapter/flatindex/collection.go:73-134 | In such runs opening after a failure finds a prefix of the slots and of the batch under way, no shorter than the durable slots, with every acknowledged one. |
| `Appends.RunIsRecoverableIff` | internal/adapter/flatindex/collection.go:73-188 | At every moment of a run any kill or power loss leaves files that open as the points last offered, if and only if each append offers the same points again for whole slots that failed ones left. |
| `Appends.StepKeeps` | internal/adapter/flatindex/collection.go:73-188 | Every partial write, sync, failure, kill, power loss, truncation and reopening, and every append that so repeats, keeps code bytes, id bytes and acknowledgements consistent. |
| `RetriedAppends.RetryMixesIff` | internal/adapter/flatindex/collection.go:160-174 | Some crash during an append leaves a slot with neither the point that was there nor the batch's, if and only if a failed append left a whole slot behind the count and the batch puts a point there that differs from the one left in two bytes of its code, in two of its id, or in both code and id. |
| `RetriedAppends.RetryMixesPoints` | internal/adapter/flatindex/collection.go:160-174 | A run from the empty collection: an append fails at its last sync, the next is killed behind its codes, and opening finds the second point's code under the first one's id. |
| `Collections.Buffers` | internal/adapter/flatindex/collection.go:141-158 | A batch is refused at its first point of wrong dimension or negative id, with the error of the first of the two that applies, or encoded whole. |
| `Collections.Collection.Append` | internal/adapter/flatindex/collection.go:141-188 | On any open handle, also one whose last append failed: refused batches change nothing; acknowledged ones are added whole and synced, as they are when only closing the old mapping fails; any other failure leaves the slots as they were with exactly a torn part of the batch behind them, and unless whole ids of a failed append lay there, opening finds the earlier slots and a prefix of the batch. |
| `Collections.Collection.OpenFiles` | internal/adapter/flatindex/collection.go:73-134 | Opening files of any length keeps exactly the slots both hold in full, the lesser of code bytes over code size and id bytes over eight, and cuts the rest. |
| `Collections.TornAppend` | internal/adapter/flatindex/collection.go:160-174 | However far an append got, if it wrote no id before all its codes and went over no whole slot of a failed one, opening finds the earlier slots and whole points of the batch. |
| `Scanning.ScanRange` | internal/adapter/flatindex/scan.go:100-137 | A shard's answer has min(want, slots) distinct slots with correct distances and leaves out none that is closer, for any chunking and any reader that serves all chunks. |
| `Scanning.Consider` | internal/adapter/flatindex/scan.go:118-132 | One slot against the threshold: what is left out stays at or beyond the threshold, what is kept within it. |
| `Scanning.Join` | internal/adapter/flatindex/scan.go:59-83 | The answers of shards joined in any order still account for every slot of the finished shards. |
| `Scanning.Scan` | internal/adapter/flatindex/scan.go:37-94 | For any worker count and finishing order the scan returns the nearest slots, by rising distance and of equally near ones by rising slot, or an error if a chunk could not be read. |
| `Scanning.SameAsSortingAll` | internal/adapter/flatindex/scan.go:37-94 | The distances returned are the first distances of any sorted list of all slots. |
| `Searching.Distinct` | internal/adapter/flatindex/flatindex.go:298-312 | The candidates' images, each once; an error exactly when some slot holds no valid id. |
| `Searching.Rescore` | internal/adapter/flatindex/flatindex.go:334-353 | The best at most `limit` images: scores never rise, equal ones come by rising id, and no image with a vector of the right size that is left out scores higher than one returned. |
| `Searching.BestIsRanked` | internal/adapter/flatindex/flatindex.go:334-353 | The best answer is exactly the one so ranked by scores and ids. |
| `Searching.IdIs` | internal/adapter/flatindex/flatindex.go:316-327 | The id of a slot is read from its eight bytes and refused from 2^63 on. |
| `Searching.BestIsUnique` | internal/adapter/flatindex/flatindex.go:343-352 | A pool of images has only one such answer. |
| `Searching.Search` | internal/adapter/flatindex/flatindex.go:246-280 | The answer ranks the images of the nearest max(40, 4 * limit) slots by the scores of their current vectors, in falling order of score, and all images when there are at most 40 or 4 * limit slots. |
| `Searching.SmallIndexIsExact` | internal/adapter/flatindex/flatindex.go:258-280 | In that case it is the head of the exhaustive ranking. |
| `Limiters.SlotsAreConserved` | internal/app/adaptive.go:100-141 | In every interleaving, free, held and in-transit slots equal limit plus debt, that stays within the maximum, and no slot put back is dropped. |
| `Limiters.QuietRunsObeyTheLimit` | internal/app/adaptive.go:203-245 | If no slot is written off while one is on its way back, acquisitions are granted only below the limit, and when all is returned there is no debt and exactly the limit is free. |
| `Limiters.OneStepReturnsObeyTheLimit` | internal/app/adaptive.go:100-114 | The same for every run in which returning is one step. |
| `Limiters.LimitBreaksIff` | internal/app/adaptive.go:100-245 | Over all runs in which one adjustment is interleaved with acquisitions and returns: some run hands out a slot at or above the limit if and only if a slot was on its way back when the adjustment began and the limit was lowered. |
| `Limiters.UninterruptedBreaksIff` | internal/app/adaptive.go:203-245 | If nothing happens during the adjustment itself, this is so if and only if, besides, the reduction exceeded the idle slots. |
| `Limiters.DebtOutlivesIff` | internal/app/adaptive.go:100-245 | Over the same runs: everything can come back with debt still owed if and only if more slots were on their way back than the new limit. |
| `Limiters.DebtOvercommits` | internal/app/adaptive.go:100-141 | From any state with debt beside a free or returning slot, acquisitions and returns alone lead past the limit. |
| `Limiters.SetToIsARun` | internal/app/adaptive.go:203-245 | The result proved of the methods is that of the loop's single steps. |
| `Limiters.ReturnInFlightExceedsLimit` | internal/app/adaptive.go:107-110 | With a return in flight during a shrink, a slot can be acquired at the limit. |
| `Limiters.ReturnInFlightLeavesDebt` | internal/app/adaptive.go:107-110 | With two, everything is returned and debt remains while two slots are free under a limit of one. |
| `Limiters.Limiter.constructor` | internal/app/adaptive.go:65-97 | The start value is clamped to bounds that are themselves repaired, and that many slots are free. |
| `Limiters.Limiter.SetLocked` | internal/app/adaptive.go:203-245 | Shrinking removes idle slots before it adds debt; growing cancels debt before it adds slots. |
| `Limiters.Limiter.Report` | internal/app/adaptive.go:144-201 | Once the interval has passed since the last adjustment, a throttled or timed-out outcome in the window, or more than a quarter failed of at least eight, halves the limit (not below the minimum), otherwise a success raises it by one (not above the maximum), and the window starts over; before that only the outcome is counted. |
| `Limiters.Limiter.Tick` | internal/app/adaptive.go:165-201 | The same without an outcome. |
| `RateLimiters.WindowIsBounded` | internal/adapter/danbooru/ratelimit.go:44-73 | For any calls at any clock readings, the requests eligible within a window number at most the burst plus its length over the interval. |
| `RateLimiters.PenaltyPostpones` | internal/adapter/danbooru/ratelimit.go:76-87 | After a penalty of d at time t no slot assigned later lies before t + d. |
| `RateLimiters.BurstGoesAtOnce` | internal/adapter/danbooru/ratelimit.go:26-41 | From rest, a burst's worth of requests at one moment all go at that moment. |
| `RateLimiters.Timetable` | internal/adapter/danbooru/ratelimit.go:44-73 | From rest, of any number of requests at one moment the first burst go at once and each later one exactly an interval after the one before. |
| `RateLimiters.RateLimiter.Wait` | internal/adapter/danbooru/ratelimit.go:44-73 | One call takes the later of the next slot and a burst's time before the clock, moves the next slot an interval on, and waits exactly until its own. |
| `RateLimiters.RateLimiter.Penalize` | internal/adapter/danbooru/ratelimit.go:76-87 | A penalty moves the next slot to the clock plus the penalty if that is later. |
| `RateLimiters.NewRateLimiter` | internal/adapter/danbooru/ratelimit.go:26-41 | There is a limiter exactly when a rate is given, and it starts spaced. |
| `Ingesting.MarkedImagesAreIndexed` | internal/app/ingest.go:83-150 | Over all interleavings of submissions, rebuilds, re-embeddings and failures, an image marked indexed for a model is in that model's collection. |
| `Ingesting.AloneMarksAreCurrent` | internal/app/ingest.go:83-150 | If no two calls work on one image at once, every marked row has its current vector in the index. |
| `Ingesting.StepsInFull` | internal/app/ingest.go:113-147 | Key by key: saving stores a call's vectors as waiting, adding puts exactly its vectors of one collection there, marking marks exactly its rows, and a rebuild takes on the waiting rows with the vectors they hold. |
| `Ingesting.CallsGoOn` | internal/app/ingest.go:83-150 | Each call has its next step whatever the others do. |
| `Ingesting.MarkIsHonestIff` | internal/adapter/postgres/images.go:248-257 | One marking keeps that if and only if each vector that replaced one it carried has been added to the index already. |
| `Ingesting.RunIsHonestIff` | internal/app/ingest.go:83-150 | Over whole runs, marked rows are up to date at every moment if and only if every marking finds the replacing vectors added. |
| `Ingesting.OwnMarksStayHonest` | internal/app/ingest.go:83-150 | In particular whenever every marking finds the vectors its own call carried, however calls overlap and fail. |
| `Ingesting.OverlapLeavesStaleMark` | internal/app/ingest.go:125-147 | Two overlapping submissions of one image can leave a marked row whose vector nobody will add. |
| `IngestCalls.Store.Submit` | internal/app/ingest.go:83-150 | A batch with a missing, wrong-sized or unregistered vector changes nothing; an accepted one is saved and indexed whole; one that fails later was not saved or is waiting for a rebuild. |
| `IngestCalls.MarkedAreCarried` | internal/app/ingest.go:145-147 | The images and models a submission marks are exactly those it carries vectors for. |
| `IngestCalls.SubmittedInFull` | internal/app/ingest.go:83-150 | What is left in the table: the last vector for each image and model, waiting and then marked, and rows of other images as they were. |
| `IngestCalls.AcceptableInFull` | internal/app/ingest.go:90-135 | A batch is accepted if and only if each image has for every model a last vector of the model's size, and none of another model. |
| `IngestCalls.CarriedAreOffered` | internal/app/ingest.go:113-141 | Every vector a submission leaves in the table is among the points it adds to the index. |
| `IngestCalls.Store.RebuildIndex` | internal/app/ingest.go:234-288 | The loop ends; the count is exactly how many vectors stopped waiting, also on failure, and without failures nothing waits; vectors are unchanged and marks appear only on indexed ones. |
| `IngestCalls.Store.PendingVectors` | internal/adapter/postgres/images.go:271-298 | The page is the first waiting images by id. |
| `IngestCalls.Store.ThumbsMissingVector` | internal/adapter/postgres/images.go:381-441 | The page reaches over at most the limit of thumbnails (200 by default) and fewer only at the end; its last one is the next cursor, zero only past the last thumbnail, and the references are exactly those up to it without a vector. |
| `IngestCalls.Store.Reembed` | internal/app/reembed.go:88-147 | The loop ends; without failures each image with a thumbnail and no vector is counted once as done, missing or failed, exactly the done ones are stored, indexed and marked, and no other row changes. |
| `ClientHellos.SniRange` | internal/adapter/netpath/clienthello.go:19-64 | The reader's loop computes the range defined by stopping at the first overrun, wrong type or server name. |
| `ClientHellos.NameRange` | internal/adapter/netpath/clienthello.go:19-64 | A range found is non-empty and inside the buffer. |
| `ClientHellos.FindsExactlyTheName` | internal/adapter/netpath/clienthello.go:19-64 | In every well-formed ClientHello with one host name, whatever its session id, suites and other extensions, exactly the name's bytes are found. |
| `ClientHellos.PassesOver` | internal/adapter/netpath/clienthello.go:42-49 | Extensions of another type are passed over without changing the result. |
| `Fragments.SplitPoints` | internal/adapter/netpath/clienthello.go:147-185 | The cuts are exactly the one behind the record header and the evenly spaced ones in the name, in order and without repetition. |
| `Fragments.CutsInFull` | internal/adapter/netpath/clienthello.go:147-185 | In numbers: no cut in fewer than ten bytes, else one behind five; a name of at least `parts` bytes is cut at parts - 1 places an equal distance apart, a shorter one between any two bytes. |
| `Fragments.NoPieceHoldsTheName` | internal/adapter/netpath/clienthello.go:167-181 | No piece covers the whole of a name of two bytes or more, for any number of parts. |
| `Fragments.HelloNameIsSplit` | internal/adapter/netpath/clienthello.go:113-185 | So no piece of a printed ClientHello holds its whole host name. |
| `Fragments.PiecesJoin` | internal/adapter/netpath/clienthello.go:113-142 | The pieces put together again are the buffer. |
| `Fragments.FragmentConn.Write` | internal/adapter/netpath/clienthello.go:113-142 | Only the first write is split; what has gone out is always a prefix of the buffer, and all of it, piece by piece, unless the connection fails. |

## Left out

- Admin resets (`ResetRange`, `ResetExhaustedRanges`, `RetryFailedRanges`, `RetryPendingQueue`, `ResetRetryQueue`): they set the fencing token back to zero, so old handles could match again.
- Floors of concurrent nodes: `LeaseProtocol` has one floor at a time, changed only when no split is pending; two at once break the tiling, as `TwoFloorsOverlap` shows.
- Continuity of catch-up across boots, and the one id equal to the first boot's latest: the code covers neither, so `Catchup` speaks of runs between boots.
- The floor below which retries are not leased: such a retry counts as waiting until the floor is lowered.
- When a retry's lease goes stale: any leased retry may be leased again at any time. Its row is fenced by the try count alone, as the statements compare no node there, and so is it in `Catchup`.
- The node's own budget in `Catchup`: each retry runs under an arbitrary limit and counter, and catch-up batches are cut arbitrarily; `Crawler` has the shared counter.
- Row ids left unused by a rolled-back insert, and reporting columns such as saved counts, error texts and finish times.
- Transient request errors and their backoff in the source client: a request either answers or fails for good.
- Throughput estimates and range sizes: the range size of each carve is arbitrary.
- Collection descriptions, locking of the index folder, and read-only opening.
- Appends.OpenCollectionsAreWhole: asks an append over whole slots of a failed one to repeat its points. A single append is safe a little more often, when they differ in one byte (`RetriedAppends.RetryMixesIff`); over whole runs that case is left out, since a later append would then depend on which of the two bytes a power loss brings back.
- The wrap of distances beyond 65535 bits is part of `Codes.Hamming`; `Scanning` orders by the wrapped distance, as the code does.
- Float arithmetic: vector entries and scores are real numbers and the cosine is a parameter, so NaN scores and rounding do not occur.
- IngestCalls.Store.Reembed: results of a batch are gathered in any order; cancellation of the context is one of the failures and does not stop a batch half way through its embeddings.
- IngestCalls.Store.Submit: thumbnails, image rows and payloads are not modelled, since image ids are given; the capacity guard uses cached counts and admits overshoot.
- Ingesting.MarkedImagesAreIndexed: collections lose nothing that was acknowledged, which `Appends.AcknowledgedStay` proves for the flat index; the other index backend is not part of this model.
- LeaseProtocol.StepKeeps: one (site, scope) pair, since every statement is restricted to one.
- RateLimiters.WindowIsBounded: a request whose context ends while it waits still counts as eligible at its slot.
- HTTP, login, image decoding, embedding, the web UI, configuration and formatting.
