# Verified models of the block layer, the crypto layer and the FAT12 reader

A Dafny model of the hardest parts of a Linux 2.6.22 tree and of the FAT12 reader beside it, with
machine-checked proofs. `dafny verify dfyconfig.toml` checks all of it.

**Block layer.** The request queue is a step machine: the queue lock makes every entry point one atomic
step, and the driver and the submitters are the environment.

- `Barrier*`, `RequestQueue`: the ordered-write (barrier) protocol in its drain modes, with any number of barriers,
  merges, requeues and completions. The central invariant (`BarrierSafety`) orders the dispatch list by batches, the
  requests between two barriers; from it follow the promised order, the silence of every BUG_ON and WARN_ON and the
  sufficiency of two colours. `BarrierStages` says which flushes each mode completes around the write,
  `BarrierHistory` what modes, counts and marks mean over a run, and `BarrierProgress` bounds the work from any state,
  so that every barrier ends. `RequestQueue` is the record updated in place, and the order of sorted dispatches.
- `Completion`: ending a request in chunks over a chain of bios and vectors.
- `Deadline*`, `Anticipatory*`, `Cfq*`: the three schedulers. Each has a value model (`Deadline`, `Anticipatory`,
  `Cfq`), its invariants and theorems over every run (`*Safety`, `CfqOrder`), what it chooses among all that is queued
  (`DeadlineChoice`, `AnticipatoryTurns`, `CfqChoice`) and, for the anticipatory scheduler, when (`AnticipatoryClock`),
  and the record updated in place by the source's own loops (`*Queue`), tied to both.

**Crypto layer.** Fast forms proved equal to the simple ones they stand for; block ciphers, compression functions
and table contents are arbitrary functions.

- `Words`, `Camellia`, `CamelliaKeys`, `CamelliaSetup`: 128-bit Camellia with its folded key schedule against RFC 3713.
- `Gf128`, `Gf128Tables`, `Lrw`: table multiplication in GF(2^128), in both bit orders, and the LRW tweak built on it.
- `Scatterwalk`, `Cbc`, `CbcWalk`: CBC over scatterlists against CBC on the flattened bytes. Memory is one array of
  bytes in pages; source and destination are the same bytes or different ones.
- `Des*`: single DES and the fused triple DES, with the permutations (`DesBits`), the round function (`DesRound`), the
  key schedule (`DesSchedule`) and the whole cipher (`DesStandard`) against FIPS 46-3, bit by bit.
- `Md5`, `Hmac`: streaming digests and HMAC against their one-shot definitions.
- `CryptoQueue`, `AlgRemoval`: the backlog queue with its thread, and the removal of everything built on an algorithm.

**FAT12 reader.** `Fat12`: twelve-bit entries, where the parts of a volume are, and extraction along a cluster chain.

`Collections` holds what the models share: options, lists and sorted trees.

Some properties one would expect are false of the code. Each has the exact condition and a failing input:

- Barriers keep their promise on all runs exactly when only file-system requests carry REQ_HARDBARRIER
  (`BarrierSafety.DisciplineIsExact`); `drivers/block/pktcdvd.c` submits packet commands that carry it
  (`BarrierSafety.UndisciplinedRunBreaksPromise`).
- The anticipatory neighbour search can miss the best request when one starts inside the last:
  `AnticipatorySafety.SearchIsExact` says on which sort lists it does not, `OverlapExample` gives one on which it does.
- An expired batch of anticipatory reads is followed by a write exactly when nothing is outstanding at that moment
  (`AnticipatoryClock.WriteFollowsIff`), because a completion never starts the clock of a batch of writes; so there is
  no bound on how many batches pass over a queued write (`AnticipatoryClock.WritesStarve`).
- The deadline scheduler issues the next request in order of sectors exactly when nothing has arrived in the gap before
  the one it has cached (`DeadlineChoice.GapDecides`, `LateArrivalPassed`).
- The CFQ neighbour search finds the best request of a queue exactly when a neighbour is the best
  (`CfqChoice.FindBestIff`), as among requests of one kind (`FindIsBest`), but not in general (`ForegroundMissed`).
- Displacements and forced dispatches can mix anticipatory batches (`AnticipatorySafety.EvictionMixes`, `ForceMixes`);
  `PhaseIsExact` says exactly when a run does not.
- Ending a request in two chunks leaves different ended vectors behind (`Completion.EndedVectorsDiffer`,
  `TrimmedVectorStays`), and sector counts that differ unless the odd bytes stay below a sector
  (`Completion.EndInTwo`, `HalfSectorsLost`).
- The index that LRW takes into its table is one past the end exactly when the counter is all ones
  (`Lrw.GetIndex`, `LastCounter`).
- The FAT12 reader reaches the root directory exactly when there is a reserved sector, there is a table copy and a
  table's size is divisible by three (`Fat12.CursorMeetsBase`, `OneSectorTable`, `NoTableCopy`). It stores an entry
  past the room for them exactly when that size leaves two on division by three (`Fat12.PairsFit`, `OneSectorTable`).
- Extraction looks for clusters where the specification puts them exactly when the root directory fills whole sectors
  (`Fat12.ClusterIsWhereSpecified`, `DirectoryInPartSector`).
- A FAT12 file whose size is a multiple of the cluster size loses its last cluster (`Fat12.MultipleLosesCluster`,
  `OneClusterLost`).

How the source is represented: red-black trees are maps or in-order sequences, lists are sequences, jiffies and
sequence counters are unbounded, the word of finished stages is a record of flags (tied to the bits by
`BarrierSafety.CurSeqIsLowestClearBit`). History fields (`batch`, the logs of `Barrier.Queue`, `dispatched`, `out`) are
never read by a step. Where timers or statistics decide, an oracle argument decides, and the theorems hold for
every oracle. The comment at deadline-iosched.c:22 speaks of how often reads can starve a write; the code allows
`writes_starved` preferences after the batch in progress, hence the bound `fifo_batch * (writes_starved + 1)`.

## Model

| member | source | states |
|---|---|---|
| BarrierSafety.SameColourIsSameBatch | linux-2.6.22.19-cs543/block/ll_rw_blk.c:330-357 | Two colours suffice: during a sequence, a file-system request that wears the barrier's colour and is reached from the head before anything of the next stage belongs to the barrier's own batch, because every later same-coloured request sits behind another barrier |
| BarrierSafety.IdleHeadIsOldest | linux-2.6.22.19-cs543/block/ll_rw_blk.c:478-525 | While no sequence is active, a file-system request at the head belongs to the oldest open batch |
| BarrierSafety.ClosedBatchIsFollowed | linux-2.6.22.19-cs543/block/elevator.c:399-432 | A plain request of a closed batch in the dispatch list is always followed by a barrier or by the proxy of one |
| BarrierSafety.BehindBlockers | linux-2.6.22.19-cs543/block/elevator.c:399-432 | Whatever a sorted insertion may pass belongs to the newest batch |
| BarrierSafety.HeadStage | linux-2.6.22.19-cs543/block/ll_rw_blk.c:478-525 | The head's stage is never behind the current one, so the WARN_ON stays silent; if it is the current one, it is the head's turn |
| BarrierSafety.DrainCheckInv | linux-2.6.22.19-cs543/block/elevator.c:858-884 | The drain check at completion ends the drain stage only when the whole earlier batch has completed, fires no BUG_ON and leaves nobody stuck |
| BarrierSafety.StartInv | linux-2.6.22.19-cs543/block/ll_rw_blk.c:427-476 | Starting a sequence keeps the invariant, with or without requests in flight, and puts in place of the barrier the proxies its mode owes: the write alone, with a flush on either side, or with one before |
| BarrierSafety.RequeueWhere | linux-2.6.22.19-cs543/block/elevator.c:601-629 | A requeued request goes in front of the first request whose stage is not before its own, and to the head when no sequence is active |
| BarrierSafety.RequeueSorted | linux-2.6.22.19-cs543/block/elevator.c:601-629 | Requeueing keeps the dispatch list in the order of batches and stages; an ordinary request goes back to the head |
| BarrierSafety.ProxyDone | linux-2.6.22.19-cs543/block/ll_rw_blk.c:359-401 | The completion of a proxy sets its stage once; after the last stage the sequence ends and the next barrier may start |
| BarrierSafety.AddInv | linux-2.6.22.19-cs543/block/elevator.c:646-680 | Every submission keeps the invariant |
| BarrierSafety.DispatchInv | linux-2.6.22.19-cs543/block/elevator.c:399-432 | Every dispatch from the scheduler keeps the invariant |
| BarrierSafety.MergeInv | linux-2.6.22.19-cs543/block/elevator.c:502-515 | Merging two requests in the scheduler keeps the invariant, and records which request now carries the data |
| BarrierSafety.RequeueInv | linux-2.6.22.19-cs543/block/elevator.c:517-532 | Every requeue by the driver keeps the invariant |
| BarrierSafety.DequeueInv | linux-2.6.22.19-cs543/block/elevator.c:778-792 | Every dequeue by the driver keeps the invariant |
| BarrierSafety.CompleteInv | linux-2.6.22.19-cs543/block/elevator.c:858-884 | Every completion keeps the invariant |
| BarrierSafety.PeekInv | linux-2.6.22.19-cs543/block/elevator.c:712-774 | Every peek by the driver keeps the invariant |
| BarrierSafety.StepInv | linux-2.6.22.19-cs543/block/ll_rw_blk.c:323-525 | Every step of the protocol, in any order, keeps the invariant |
| BarrierSafety.RunInv | linux-2.6.22.19-cs543/block/ll_rw_blk.c:323-525 | The invariant holds in every state of every run |
| BarrierSafety.InvKeepsPromise | linux-2.6.22.19-cs543/block/ll_rw_blk.c:323-525 | From the invariant: nothing shown to the driver was submitted after a barrier that has not ended, and the pre-flush and the proxy are shown only when everything before the barrier is settled |
| BarrierSafety.EarlierSettled | linux-2.6.22.19-cs543/block/ll_rw_blk.c:359-383 | Once the queue is drained, every earlier file-system request has completed, or the request that carries its data has |
| BarrierSafety.BarrierSafety | linux-2.6.22.19-cs543/block/ll_rw_blk.c:323-525 | Over every run: the promised order holds, no BUG_ON or WARN_ON has fired, barriers end in the order of submission and each at most once |
| BarrierSafety.HandedIsShown | linux-2.6.22.19-cs543/block/elevator.c:712-774 | What a peek hands out counts as shown from then on |
| BarrierSafety.NeverStuck | linux-2.6.22.19-cs543/block/ll_rw_blk.c:478-525 | Over every run: when the driver owes nothing, a non-empty queue has something to hand out, and an active sequence leaves the queue non-empty |
| BarrierSafety.CurSeqIsLowestClearBit | linux-2.6.22.19-cs543/block/ll_rw_blk.c:323-328 | The lowest clear bit of the word of finished stages is the current stage, zero means no sequence, and finishing a stage is one bitwise or |
| BarrierSafety.UndisciplinedRunBreaksPromise | linux-2.6.22.19-cs543/drivers/block/pktcdvd.c:774-775 | A run in which a packet command carries REQ_HARDBARRIER, as this caller does, breaks the promise: a later write reaches the driver while the barrier's own write is in flight |
| BarrierSafety.DisciplineIsExact | linux-2.6.22.19-cs543/block/ll_rw_blk.c:330-357 | All runs keep the promise if and only if only file-system requests may carry REQ_HARDBARRIER |
| BarrierProgress.StartLeft | linux-2.6.22.19-cs543/block/ll_rw_blk.c:427-476 | A barrier outweighs the proxies of the sequence it starts, in all drain modes |
| BarrierProgress.StepLeft | linux-2.6.22.19-cs543/block/elevator.c:399-884 | Every step of the driver or the scheduler that changes anything leaves less to do |
| BarrierProgress.FinishedIsDone | linux-2.6.22.19-cs543/block/ll_rw_blk.c:323-525 | When neither driver nor scheduler can do anything more, every barrier has ended and every request submitted has completed, or the one that carries its data has |
| BarrierProgress.WorkIsBounded | linux-2.6.22.19-cs543/block/ll_rw_blk.c:323-525 | Over every stretch of a run without submissions and requeues, the number of steps that change anything is bounded by what there was to do at its start: four for a request in the scheduler, three for one in the dispatch list, ten for a barrier, one for what the driver holds |
| BarrierProgress.EveryBarrierEnds | linux-2.6.22.19-cs543/block/ll_rw_blk.c:323-525 | Over every such stretch, whatever the order of steps: once that many steps are made, or none is left to make, every barrier submitted has ended and everything is settled |
| RequestQueue.SortPos | linux-2.6.22.19-cs543/block/elevator.c:399-432 | The place found walking back from the tail: everything behind it may be passed, what is in front may not |
| RequestQueue.SortOp | linux-2.6.22.19-cs543/block/elevator.c:399-432 | A sorted dispatch never passes a barrier or a started request, so it is always an allowed step |
| RequestQueue.DispatchAllInv | linux-2.6.22.19-cs543/block/elevator.c:534-546 | Draining the scheduler into the dispatch list keeps the invariant of the protocol |
| RequestQueue.DispatchAllLeaves | linux-2.6.22.19-cs543/block/elevator.c:534-546 | A drain takes from the scheduler exactly the planned requests |
| RequestQueue.AddKeepsInv | linux-2.6.22.19-cs543/block/elevator.c:646-680 | A submission with the draining it implies keeps the invariant of the protocol |
| RequestQueue.RequestQueue.CompleteStage | linux-2.6.22.19-cs543/block/ll_rw_blk.c:359-383 | The method performs the specified completion of a stage |
| RequestQueue.RequestQueue.Complete | linux-2.6.22.19-cs543/block/elevator.c:858-884 | The method performs the specified completion of a request, with the drain check |
| RequestQueue.RequestQueue.Requeue | linux-2.6.22.19-cs543/block/elevator.c:517-532 | The method performs the specified requeue |
| RequestQueue.RequestQueue.FirstNotBefore | linux-2.6.22.19-cs543/block/elevator.c:620-628 | The scan finds the first request whose stage is not before the given one |
| RequestQueue.RequestQueue.Start | linux-2.6.22.19-cs543/block/ll_rw_blk.c:427-476 | The method performs the start: in place of the barrier stand the proxies its mode owes, and the first is handed out if and only if nothing is in flight |
| RequestQueue.RequestQueue.Peek | linux-2.6.22.19-cs543/block/elevator.c:712-774 | The method performs the specified peek |
| RequestQueue.RequestQueue.DispatchSort | linux-2.6.22.19-cs543/block/elevator.c:399-432 | The loop performs one allowed dispatch step |
| RequestQueue.RequestQueue.NextRequest | linux-2.6.22.19-cs543/block/elevator.c:696-710 | An empty dispatch list is first filled by the scheduler; then the head is decided on |
| RequestQueue.RequestQueue.AddRequest | linux-2.6.22.19-cs543/block/elevator.c:646-680 | Where a submission goes by its flags, that the scheduler is drained first for the back, and that the result is one allowed step |
| Collections.LeastFrom | linux-2.6.22.19-cs543/block/deadline-iosched.c:316-326 | The least sector of a sorted tree from a position on, none only if there is none |
| DeadlineSafety.AddInv | linux-2.6.22.19-cs543/block/deadline-iosched.c:58-104 | Adding, with the eviction of a request at the same sector, keeps the structure invariant |
| DeadlineSafety.FrontMergeInv | linux-2.6.22.19-cs543/block/deadline-iosched.c:147-159 | A front merge, which moves a request in the tree and may evict another, keeps it |
| DeadlineSafety.BackMergeInv | linux-2.6.22.19-cs543/block/elevator.c:489-500 | A back merge keeps it |
| DeadlineSafety.MergeRqsInv | linux-2.6.22.19-cs543/block/deadline-iosched.c:161-180 | A request that absorbs another and inherits its earlier deadline and place keeps it, in particular the order of deadlines |
| DeadlineSafety.MoveInv | linux-2.6.22.19-cs543/block/deadline-iosched.c:197-216 | Moving a request to the dispatch list keeps it |
| DeadlineSafety.HeadDetectsExpiry | linux-2.6.22.19-cs543/block/deadline-iosched.c:222-233 | The head of the FIFO has expired if and only if some queued request of that direction has |
| DeadlineSafety.FindFacts | linux-2.6.22.19-cs543/block/deadline-iosched.c:300-327 | The request to go on with is queued and of the chosen direction, and the batch counter is reset or kept; which one it is, is said by DeadlineChoice.FindPicks |
| DeadlineSafety.DispatchIssuesOne | linux-2.6.22.19-cs543/block/deadline-iosched.c:239-336 | A dispatch issues exactly one queued request, and none if and only if nothing is queued; which one, is said by DeadlineChoice.DispatchChooses |
| DeadlineSafety.ReadUsesPatience | linux-2.6.22.19-cs543/block/deadline-iosched.c:239-336 | While writes are queued, each read issued uses up part of what is left before a write |
| DeadlineSafety.PatienceBounded | linux-2.6.22.19-cs543/block/deadline-iosched.c:239-336 | What is left never exceeds fifo_batch * (writes_starved + 1), when fifo_batch is at least one |
| DeadlineSafety.StepInv | linux-2.6.22.19-cs543/block/deadline-iosched.c:58-336 | Every operation keeps the structure invariant, and only a dispatch changes the counters |
| DeadlineSafety.RunInv | linux-2.6.22.19-cs543/block/deadline-iosched.c:58-336 | Over every run: tree and FIFO of a direction hold the same requests at distinct sectors, next_rq is queued and set for at most one direction, the FIFO is ordered by deadline, nr_sorted is exact |
| DeadlineSafety.PatienceRunsOut | linux-2.6.22.19-cs543/block/deadline-iosched.c:239-336 | Over every stretch of a run whose dispatches all pass over queued writes, reads issued and what is left never exceed what was left at its start |
| DeadlineSafety.StarvationBound | linux-2.6.22.19-cs543/block/deadline-iosched.c:239-336 | Over every such stretch at most fifo_batch * (writes_starved + 1) reads are issued, whatever is added, merged or evicted meanwhile |
| DeadlineQueue.DeadlineQueue.Remove | linux-2.6.22.19-cs543/block/deadline-iosched.c:109-115 | The method performs the specified removal |
| DeadlineQueue.DeadlineQueue.Move | linux-2.6.22.19-cs543/block/deadline-iosched.c:197-216 | The method performs the specified move |
| DeadlineQueue.DeadlineQueue.AddRequest | linux-2.6.22.19-cs543/block/deadline-iosched.c:58-104 | The retry loop ends and performs the specified addition |
| DeadlineQueue.DeadlineQueue.FindRequest | linux-2.6.22.19-cs543/block/deadline-iosched.c:300-327 | The request found in a direction: the one whose deadline comes first if any has expired, else the one after the last issued, else the one at the lowest sector; the batch counter is kept or reset accordingly |
| DeadlineQueue.DeadlineQueue.DispatchRequests | linux-2.6.22.19-cs543/block/deadline-iosched.c:239-336 | A request is issued if and only if one is queued, and it is the one the rules choose among all queued; with nothing queued nothing changes |
| DeadlineQueue.DeadlineQueue.Drain | linux-2.6.22.19-cs543/block/elevator.c:534-546 | The drain loop ends with nothing queued, nr_sorted zero, and every request on the dispatch list once |
| Completion.SkipIsEat | linux-2.6.22.19-cs543/block/ll_rw_blk.c:3425-3475 | Walking over whole vectors and into one removes exactly that many bytes from the front |
| Completion.AdvanceData | linux-2.6.22.19-cs543/block/ll_rw_blk.c:3477-3489 | Advancing a bio leaves its data without the bytes ended |
| Completion.CompleteData | linux-2.6.22.19-cs543/block/ll_rw_blk.c:3390-3498 | Conservation: what is left is the data without its first k bytes, and nothing is left if and only if k reaches the end |
| Completion.ChunksDoNotMatter | linux-2.6.22.19-cs543/block/ll_rw_blk.c:3390-3498 | Ending k1 and then k2 bytes leaves the same chain, index, live vectors and size as ending k1 + k2 at once |
| Completion.EndedVectorsDiffer | linux-2.6.22.19-cs543/block/ll_rw_blk.c:3477-3489 | The vectors before the index do depend on the chunks: they agree if and only if the first chunk stops at the edge of a vector or in the one where the second stops |
| Completion.TrimmedVectorStays | linux-2.6.22.19-cs543/block/ll_rw_blk.c:3477-3489 | A bio of two vectors for which they do differ |
| Completion.SectorChunks | linux-2.6.22.19-cs543/block/ll_rw_blk.c:3361-3388 | Whole sectors of two chunks add up if and only if their odd bytes do not make up a sector |
| Completion.EndInTwo | linux-2.6.22.19-cs543/block/ll_rw_blk.c:3361-3498 | A request ended in two chunks and in one: the bios agree, and the sector counts do if and only if the odd bytes of the chunks do not make up a sector |
| Completion.HalfSectorsLost | linux-2.6.22.19-cs543/block/ll_rw_blk.c:3361-3498 | A request for which the counts differ: two half sectors ended one by one count for none |
| Completion.EndBytes | linux-2.6.22.19-cs543/block/ll_rw_blk.c:3390-3498 | The loop over bios and vectors computes the specified chain and the number of bytes ended |
| Completion.Request.End | linux-2.6.22.19-cs543/block/ll_rw_blk.c:3390-3498 | The return value is zero if and only if all is done; sector counts follow, the submission pointers never go back and are brought up to what has been ended unless ahead of it, and for whole sectors all of them keep agreeing with the data that is left |
| Completion.Request.Recalc | linux-2.6.22.19-cs543/block/ll_rw_blk.c:3361-3388 | The counts advance; submission pointers that are ahead stay, others follow with the length of the first vector left; a count below that length is botched and raised to it |
| AnticipatorySafety.ChooseIsTotalOrder | linux-2.6.22.19-cs543/block/as-iosched.c:280-348 | The choice of the better of two requests is a strict total order by wrap, weighted distance and sector |
| AnticipatorySafety.NeighbourBeats | linux-2.6.22.19-cs543/block/as-iosched.c:354-378 | Whatever else is queued, one of the two neighbours of the last request goes before it |
| AnticipatorySafety.NeighbourIsBest | linux-2.6.22.19-cs543/block/as-iosched.c:354-378 | Looking at two neighbours finds the best request of the whole sort list, and none only if nothing else is queued, provided nothing starts inside the last request |
| AnticipatorySafety.SearchIsExact | linux-2.6.22.19-cs543/block/as-iosched.c:354-378 | For a given sort list the search finds the best request if and only if nothing starts inside the last request, or just one request does and everything beyond is more than twice as far away, or everything is too far back and at most one request lies before |
| AnticipatorySafety.OverlapExample | linux-2.6.22.19-cs543/block/as-iosched.c:354-378 | For every last request of more than one sector, a sort list on which the search misses |
| AnticipatorySafety.OverlapDefeatsSearch | linux-2.6.22.19-cs543/block/as-iosched.c:354-378 | The search is right on every sort list if and only if the last request covers at most one sector |
| AnticipatorySafety.MoveHalfOk | linux-2.6.22.19-cs543/block/as-iosched.c:930-974 | Dispatch keeps tree and FIFO in agreement and makes the next request the best of what is left |
| AnticipatorySafety.AddHalfOk | linux-2.6.22.19-cs543/block/as-iosched.c:748-765 | Adding keeps tree and FIFO in agreement and the next request the best |
| AnticipatorySafety.MoveInv | linux-2.6.22.19-cs543/block/as-iosched.c:930-974 | Moving a queued request to the device keeps the invariant of the scheduler and moves nothing else |
| AnticipatorySafety.EvictInv | linux-2.6.22.19-cs543/block/as-iosched.c:250-258 | Displacing a request at the same sector keeps the invariant and moves only that request |
| AnticipatorySafety.AddInv | linux-2.6.22.19-cs543/block/as-iosched.c:1142-1168 | Adding a request, with what it displaces, keeps the invariant and loses nothing |
| AnticipatorySafety.EvictionKeepsBatches | linux-2.6.22.19-cs543/block/as-iosched.c:250-258 | A displacement keeps the batches apart if and only if the displaced request is of the kind now on the device |
| AnticipatorySafety.DispatchInv | linux-2.6.22.19-cs543/block/as-iosched.c:981-1137 | Every dispatch keeps the invariant, whatever the timers and statistics say |
| AnticipatorySafety.DispatchServes | linux-2.6.22.19-cs543/block/as-iosched.c:1017-1137 | An unforced dispatch moves nothing, or one queued request of the batch's kind onto a device that holds only its kind; no warning fires; when and which, is said by AnticipatoryTurns.DispatchIs |
| AnticipatorySafety.CompletedKeeps | linux-2.6.22.19-cs543/block/as-iosched.c:799-848 | A completion keeps the invariant and the batches apart; the last one ends a pending change of batch |
| AnticipatorySafety.ForceEmpties | linux-2.6.22.19-cs543/block/as-iosched.c:988-1015 | A forced dispatch puts every queued request on the device and resets the batch |
| AnticipatorySafety.ForceKeepsBatches | linux-2.6.22.19-cs543/block/as-iosched.c:988-1015 | A forced dispatch keeps the batches apart if and only if nothing asynchronous is queued or outstanding |
| AnticipatorySafety.StepInv | linux-2.6.22.19-cs543/block/as-iosched.c:799-1168 | Every operation keeps the invariant |
| AnticipatorySafety.NextIsBest | linux-2.6.22.19-cs543/block/as-iosched.c:748-974 | Over every run, displacements and forced dispatches included, the cached next request of a direction is the best one queued, and is missing if and only if nothing is queued |
| AnticipatorySafety.StepUnmixed | linux-2.6.22.19-cs543/block/as-iosched.c:799-1137 | Every operation in phase keeps the batches apart and fires no warning |
| AnticipatorySafety.BatchesNeverMix | linux-2.6.22.19-cs543/block/as-iosched.c:799-1137 | Over every run in phase: all outstanding requests are of the current kind, or of the other kind while a change is pending and at least one remains; no warning fires |
| AnticipatorySafety.PhaseIsExact | linux-2.6.22.19-cs543/block/as-iosched.c:799-1137 | A run keeps the batches apart throughout if and only if every operation in it is in phase |
| AnticipatorySafety.EvictionMixes | linux-2.6.22.19-cs543/block/as-iosched.c:250-258 | A run of two additions that mixes the batches |
| AnticipatorySafety.ForceMixes | linux-2.6.22.19-cs543/block/as-iosched.c:988-1015 | A run of an addition and a forced dispatch that mixes them |
| AnticipatoryQueue.AnticipatoryQueue.MoveToDispatch | linux-2.6.22.19-cs543/block/as-iosched.c:930-974 | The method performs the specified move |
| AnticipatoryQueue.AnticipatoryQueue.AddRequest | linux-2.6.22.19-cs543/block/as-iosched.c:1142-1168 | The retry loop ends and performs the specified addition |
| AnticipatoryQueue.AnticipatoryQueue.CompletedRequest | linux-2.6.22.19-cs543/block/as-iosched.c:799-848 | The method performs the specified completion |
| AnticipatoryQueue.AnticipatoryQueue.DrainDirection | linux-2.6.22.19-cs543/block/as-iosched.c:1002-1012 | Emptying one direction by its cached next request ends and moves every request of it |
| AnticipatoryQueue.AnticipatoryQueue.ForcedDispatch | linux-2.6.22.19-cs543/block/as-iosched.c:988-1015 | A forced dispatch ends, returns the number of requests moved and leaves nothing queued |
| AnticipatoryQueue.AnticipatoryQueue.FinishDispatch | linux-2.6.22.19-cs543/block/as-iosched.c:1116-1137 | The method performs the end of the specified dispatch |
| AnticipatoryQueue.AnticipatoryQueue.DispatchRequest | linux-2.6.22.19-cs543/block/as-iosched.c:981-1137 | The branches obey the law of AnticipatoryTurns.DispatchIs: which direction has its turn, which request moves, and when none does |
| CfqSafety.TakeOutOk | linux-2.6.22.19-cs543/block/cfq-iosched.c:653-667 | Taking a request out of its queue keeps the queue's books |
| CfqSafety.PutInOk | linux-2.6.22.19-cs543/block/cfq-iosched.c:573-596 | Putting a request into the sorted tree keeps them |
| CfqSafety.EraseOk | linux-2.6.22.19-cs543/block/cfq-iosched.c:396-403 | Erasing from the service tree keeps the cached leftmost node right |
| CfqSafety.LinkOk | linux-2.6.22.19-cs543/block/cfq-iosched.c:447-510 | Linking into the service tree keeps the cached leftmost node right |
| CfqSafety.ServiceTreeAddOk | linux-2.6.22.19-cs543/block/cfq-iosched.c:447-510 | Adding or moving a queue keeps tree, marks, count and cache in agreement |
| CfqSafety.PlaceIs | linux-2.6.22.19-cs543/block/cfq-iosched.c:467-498 | The search ends behind everything the queue does not precede and before the rest |
| CfqSafety.LinkKeepsOrder | linux-2.6.22.19-cs543/block/cfq-iosched.c:447-510 | The service tree stays in order of service |
| CfqSafety.EraseKeepsOrder | linux-2.6.22.19-cs543/block/cfq-iosched.c:396-403 | Erasing keeps the order of service |
| CfqSafety.DelRrOk | linux-2.6.22.19-cs543/block/cfq-iosched.c:541-553 | A queue that leaves the tree keeps the books; its BUG_ONs do not fire |
| CfqSafety.AddRrOk | linux-2.6.22.19-cs543/block/cfq-iosched.c:527-536 | A queue that enters the tree keeps the books; its BUG_ON does not fire |
| CfqSafety.RemoveOk | linux-2.6.22.19-cs543/block/cfq-iosched.c:653-667 | Removing a request, even in the middle of another operation, keeps the books and fires no check |
| CfqSafety.EvictOk | linux-2.6.22.19-cs543/block/cfq-iosched.c:573-596 | Displacing a request at the same sector keeps the books |
| CfqSafety.AddRqRbOk | linux-2.6.22.19-cs543/block/cfq-iosched.c:573-596 | Adding to the sorted tree, with what is displaced and the queue's entry into the service tree, keeps the books |
| CfqSafety.RemoveInv | linux-2.6.22.19-cs543/block/cfq-iosched.c:653-667 | Removal keeps the invariant and takes out exactly the request |
| CfqSafety.DispatchInv | linux-2.6.22.19-cs543/block/cfq-iosched.c:917-928 | Dispatch keeps the invariant and moves exactly the request |
| CfqSafety.InsertInv | linux-2.6.22.19-cs543/block/cfq-iosched.c:1763-1775 | Insertion keeps the invariant; only the displaced request leaves |
| CfqSafety.RepositionInv | linux-2.6.22.19-cs543/block/cfq-iosched.c:598-604 | A front merge keeps the invariant, and the request keeps everything but its sectors |
| CfqSafety.ResortInv | linux-2.6.22.19-cs543/block/cfq-iosched.c:515-522 | Moving a queue in the service tree keeps the invariant |
| CfqSafety.RbFirstOk | linux-2.6.22.19-cs543/block/cfq-iosched.c:388-394 | The cached first queue is the first of the tree, has requests, and is missing if and only if nothing is queued |
| CfqSafety.StepInv | linux-2.6.22.19-cs543/block/cfq-iosched.c:388-667 | Every operation keeps the invariant and fires no check |
| CfqSafety.RunInv | linux-2.6.22.19-cs543/block/cfq-iosched.c:388-667 | The invariant holds and no check has fired in every state of every run |
| CfqSafety.BooksAgree | linux-2.6.22.19-cs543/block/cfq-iosched.c:388-667 | A queue is marked if and only if its sort list is non-empty if and only if it is in the service tree; the counters add up to the list; next_rq is missing if and only if the list is empty; busy_queues and the cached left node are exact |
| CfqOrder.ServiceTreeAddOrder | linux-2.6.22.19-cs543/block/cfq-iosched.c:447-510 | Adding or moving a queue keeps the service tree in order of service |
| CfqOrder.StepOrder | linux-2.6.22.19-cs543/block/cfq-iosched.c:388-667 | Every operation keeps the service tree in order of service |
| CfqOrder.RunOrder | linux-2.6.22.19-cs543/block/cfq-iosched.c:388-667 | The service tree is in order of service in every state of every run |
| CfqOrder.FirstGoesFirst | linux-2.6.22.19-cs543/block/cfq-iosched.c:388-394 | Over every run, the queue cfq_rb_first returns is real-time if any queue with requests is, is idle only if all of its class are, and within its class has the least key |
| CfqQueue.MovedOne | linux-2.6.22.19-cs543/block/cfq-iosched.c:917-928 | One dispatch moves one queued request to the dispatch list once |
| CfqQueue.StepOnce | linux-2.6.22.19-cs543/block/cfq-iosched.c:388-667 | Every operation leaves each request queued in one place only |
| CfqQueue.RunOnce | linux-2.6.22.19-cs543/block/cfq-iosched.c:388-667 | So it is in every state of every run, which is what a forced dispatch starts from |
| CfqQueue.CfqQueue.constructor | linux-2.6.22.19-cs543/block/cfq-iosched.c:2078-2114 | The scheduler starts with nothing queued |
| CfqQueue.CfqQueue.InsertRequest | linux-2.6.22.19-cs543/block/cfq-iosched.c:1763-1775 | The retry loop ends and performs the specified insertion |
| CfqQueue.CfqQueue.ForceQueue | linux-2.6.22.19-cs543/block/cfq-iosched.c:1062-1073 | Emptying one queue ends and moves each of its requests once |
| CfqQueue.CfqQueue.ForcedDispatch | linux-2.6.22.19-cs543/block/cfq-iosched.c:1079-1095 | A forced dispatch ends, having moved every request exactly once, with nothing queued and no queue busy; its BUG_ONs do not fire |
| Camellia.PassIsLinear | linux-2.6.22.19-cs543/crypto/camellia.c:585-640 | Carrying a mask across an FL layer is linear |
| Camellia.FlCarries | linux-2.6.22.19-cs543/crypto/camellia.c:170-184 | FL of a masked half is FL of the half, masked by what the mask becomes |
| Camellia.FlInvCarries | linux-2.6.22.19-cs543/crypto/camellia.c:170-184 | The same for the inverse layer |
| Camellia.FlRoundTrip | linux-2.6.22.19-cs543/crypto/camellia.c:170-184 | FL and its inverse undo each other |
| Camellia.RoundSmIs | linux-2.6.22.19-cs543/crypto/camellia.c:186-203 | With half of the linear layer undone on the key, the fast round adds the plain key behind the round function |
| Camellia.MaskedRound | linux-2.6.22.19-cs543/crypto/camellia.c:186-203 | One fast round under masks is one standard round, with the masks moved on |
| Camellia.MaskedSix | linux-2.6.22.19-cs543/crypto/camellia.c:1214-1314 | Six fast rounds under masks are six standard rounds |
| Camellia.FoldedComputesCamellia | linux-2.6.22.19-cs543/crypto/camellia.c:1214-1314 | On the folded table of any raw subkeys, for any tables and block, the fast cipher is Camellia of section 2.3.1 of RFC 3713 on the raw subkeys |
| Camellia.DecryptInvertsEncrypt | linux-2.6.22.19-cs543/crypto/camellia.c:1316-1416 | Decryption inverts encryption for every subkey table, folded or not |
| CamelliaKeys.FIsStandard | linux-2.6.22.19-cs543/crypto/camellia.c:146-168 | On tables made from four substitution boxes, the table form of F is the linear layer P on the substituted bytes (section 2.4 of RFC 3713) |
| CamelliaKeys.RoldqIs | linux-2.6.22.19-cs543/crypto/camellia.c:122-139 | The word rotations of the key setup are rotations of the 128-bit value |
| CamelliaSetup.AbsorbKw2 | linux-2.6.22.19-cs543/crypto/camellia.c:585-612 | The loop of assignments absorbs kw2 into every other subkey, through the FL layers |
| CamelliaSetup.AbsorbKw4 | linux-2.6.22.19-cs543/crypto/camellia.c:613-640 | The same for kw4, from the other end |
| CamelliaSetup.DelayedIsDifference | linux-2.6.22.19-cs543/crypto/camellia.c:585-704 | After both absorptions every entry is the difference of its neighbours among the raw subkeys |
| CamelliaSetup.DelayKeys | linux-2.6.22.19-cs543/crypto/camellia.c:643-704 | The shift of key additions across rounds computes these entries |
| CamelliaSetup.UndoSix | linux-2.6.22.19-cs543/crypto/camellia.c:705-779 | Half of P is undone on six round keys |
| CamelliaSetup.Fold | linux-2.6.22.19-cs543/crypto/camellia.c:585-780 | The second part of the setup turns any raw subkeys into their folded table |
| CamelliaSetup.KaShort | linux-2.6.22.19-cs543/crypto/camellia.c:536-554 | KA needs the second sum with KL only once |
| CamelliaSetup.GenerateKa | linux-2.6.22.19-cs543/crypto/camellia.c:536-554 | KA is computed as section 2.2 of RFC 3713 defines it |
| CamelliaSetup.RawKeys | linux-2.6.22.19-cs543/crypto/camellia.c:479-584 | The accumulated rotations give the 26 raw subkeys of section 2.2 of RFC 3713 |
| CamelliaSetup.Setup128 | linux-2.6.22.19-cs543/crypto/camellia.c:479-780 | The setup leaves the folded table of the key's raw subkeys |
| CamelliaSetup.Encrypt128 | linux-2.6.22.19-cs543/crypto/camellia.c:1214-1314 | In place, for every table the fast cipher, and on a folded table Camellia on the raw subkeys |
| CamelliaSetup.Decrypt128 | linux-2.6.22.19-cs543/crypto/camellia.c:1316-1416 | In place, for every table, the block the encryption came from |
| Gf128.StepsAreShifts | linux-2.6.22.19-cs543/crypto/gf128mul.c:102-163 | The table-driven steps, in both bit orders, multiply by x and by x^8 modulo x^128+x^7+x^2+x+1 |
| Gf128.TimesLinear | linux-2.6.22.19-cs543/crypto/gf128mul.c:125-143 | Multiplication by x is linear |
| Gf128.ShiftProduct | linux-2.6.22.19-cs543/crypto/gf128mul.c:102-163 | Multiplying by a power of x commutes with the product |
| Gf128.ProductSplits | linux-2.6.22.19-cs543/crypto/gf128mul.c:349-372 | A product splits at any digit: the upper part acts on the shifted factor |
| Gf128.RevTimes | linux-2.6.22.19-cs543/crypto/gf128mul.c:125-143 | Bit reversal turns multiplication by x in one order into the other |
| Gf128.OrdersCorrespond | linux-2.6.22.19-cs543/crypto/gf128mul.c:102-163 | Bit reversal of the key turns the product in one order into the product in the other, for every polynomial |
| Gf128Tables.RevBitsTwice | linux-2.6.22.19-cs543/crypto/gf128mul.c:56-99 | Reversing the digits of a byte twice changes nothing |
| Gf128Tables.MirroredPolynomial | linux-2.6.22.19-cs543/crypto/gf128mul.c:349-372 | Sixteen bytes with all their bits reversed are, in the other order, the same polynomial |
| Gf128Tables.MultipliersCorrespond | linux-2.6.22.19-cs543/crypto/gf128mul.c:349-462 | With key and operand bit-reversed, the multiplier of one order returns the bit reversal of what the other returns |
| Gf128Tables.ByteSum | linux-2.6.22.19-cs543/crypto/gf128mul.c:255-336 | Adding a power of two to a smaller byte adds the products |
| Gf128Tables.FillSums | linux-2.6.22.19-cs543/crypto/gf128mul.c:278-281 | The nested loop fills a row with the product for every byte, from the powers of two |
| Gf128Tables.FirstRow | linux-2.6.22.19-cs543/crypto/gf128mul.c:273-281 | The first row holds the products of the key |
| Gf128Tables.NextRow | linux-2.6.22.19-cs543/crypto/gf128mul.c:277-290 | The next row holds the products of the key times x^8 |
| Gf128Tables.Init4k | linux-2.6.22.19-cs543/crypto/gf128mul.c:391-432 | The 4k table holds the product of the key with every byte, in both bit orders |
| Gf128Tables.Init64k | linux-2.6.22.19-cs543/crypto/gf128mul.c:255-336 | Row i of the 64k table holds the products of the key times x^8i, in both bit orders |
| Gf128Tables.Mul64k | linux-2.6.22.19-cs543/crypto/gf128mul.c:349-372 | The 64k multiplier returns the product in the field, in both bit orders |
| Gf128Tables.Mul4k | linux-2.6.22.19-cs543/crypto/gf128mul.c:435-462 | The 4k multiplier returns the product in the field, in both bit orders |
| Gf128Tables.HornerStep | linux-2.6.22.19-cs543/crypto/gf128mul.c:435-462 | One step of the 4k multiplier |
| Lrw.OnesShape | linux-2.6.22.19-cs543/crypto/lrw.c:107-122 | A number is a run of ones below a zero below the rest |
| Lrw.IncAdds | linux-2.6.22.19-cs543/crypto/lrw.c:92-96 | The increment adds one to the counter and wraps only from all ones |
| Lrw.NextTweak | linux-2.6.22.19-cs543/crypto/lrw.c:124-178 | The next tweak differs by the key times a run of ones one longer than the counter ends in |
| Lrw.FirstZero | linux-2.6.22.19-cs543/crypto/lrw.c:107-122 | The position of the lowest zero of a word |
| Lrw.GetIndex | linux-2.6.22.19-cs543/crypto/lrw.c:107-122 | The number of ones the counter ends in; 128, one past the table, if and only if the counter is all ones |
| Lrw.LastCounter | linux-2.6.22.19-cs543/crypto/lrw.c:107-122 | The counter of all ones, for which the index is the length of the table |
| Lrw.OnesValue | linux-2.6.22.19-cs543/crypto/lrw.c:77-84 | Setting bits from the lowest up gives runs of ones |
| Lrw.SetKey | linux-2.6.22.19-cs543/crypto/lrw.c:46-84 | Entry i of mulinc is the second key times a run of i + 1 ones |
| Lrw.Advance | linux-2.6.22.19-cs543/crypto/lrw.c:124-178 | One entry of mulinc takes the tweak from counter n to n + 1 |
| Lrw.CryptChunk | linux-2.6.22.19-cs543/crypto/lrw.c:124-178 | One chunk of the walk continues the tweaks and leaves the rest of the data alone |
| Lrw.Crypt | linux-2.6.22.19-cs543/crypto/lrw.c:124-178 | While the counter does not wrap, block n is the cipher of the block plus (IV + n) times the second key, plus the same again, whatever the chunks and in place or not |
| Lrw.DecryptInvertsEncrypt | linux-2.6.22.19-cs543/crypto/lrw.c:180-200 | With an inverse cipher, decryption undoes encryption of every block |
| Scatterwalk.PageLenFlat | linux-2.6.22.19-cs543/crypto/scatterwalk.h:35-53 | What fits on the page is the next stretch of the flattened list, and advancing moves by it |
| Scatterwalk.PageDoneKeeps | linux-2.6.22.19-cs543/crypto/scatterwalk.c:59-75 | Leaving a page or an entry does not move the flat position, and afterwards there is something to take |
| Scatterwalk.DoneKeeps | linux-2.6.22.19-cs543/crypto/scatterwalk.c:77-81 | The end of a step does not move the flat position; it leaves nothing to take on the page if and only if the entry ended in the middle of one |
| Scatterwalk.CopyIn | linux-2.6.22.19-cs543/crypto/scatterwalk.c:84-108 | Copying from a list gathers the flat bytes, across pages and entries |
| Scatterwalk.CopyOut | linux-2.6.22.19-cs543/crypto/scatterwalk.c:84-108 | Copying into a list writes exactly the flat bytes, across pages and entries |
| Cbc.DecInvertsEnc | linux-2.6.22.19-cs543/crypto/cbc.c:94-208 | CBC decryption undoes CBC encryption (section 6.2 of NIST SP 800-38A) |
| Cbc.EncAppend | linux-2.6.22.19-cs543/crypto/cbc.c:94-119 | CBC encryption in pieces is CBC encryption, chained by the last block |
| Cbc.DecAppend | linux-2.6.22.19-cs543/crypto/cbc.c:183-208 | The same for decryption |
| Cbc.WholeIsMultiple | linux-2.6.22.19-cs543/crypto/cbc.c:42-66 | The recursive account of whole blocks is divisibility by the block size |
| Cbc.EncryptSegment | linux-2.6.22.19-cs543/crypto/cbc.c:42-66 | From one place to another: the whole blocks, the chaining value and the number of bytes left |
| Cbc.EncryptInplace | linux-2.6.22.19-cs543/crypto/cbc.c:68-92 | The same in place |
| Cbc.DecryptSegment | linux-2.6.22.19-cs543/crypto/cbc.c:121-147 | The same for decryption from one place to another |
| Cbc.DecryptInplace | linux-2.6.22.19-cs543/crypto/cbc.c:149-181 | Decryption from the last block back to the first agrees with decryption from front to back |
| CbcWalk.SourceIntact | linux-2.6.22.19-cs543/crypto/blkcipher.c:105-143 | What has been written has not touched what is still to be read |
| CbcWalk.ChunkOut | linux-2.6.22.19-cs543/crypto/blkcipher.c:105-143 | The next chunk of the flat output follows from the chaining value so far |
| CbcWalk.NextChunk | linux-2.6.22.19-cs543/crypto/blkcipher.c:222-273 | What the walk hands out turns into the next chunk of the flat output |
| CbcWalk.Stretches | linux-2.6.22.19-cs543/crypto/blkcipher.c:195-220 | On the fast way, source and destination are page stretches that coincide or do not overlap |
| CbcWalk.BlkcipherWalk.constructor | linux-2.6.22.19-cs543/crypto/blkcipher.c:314-340 | The walk begins at the start of both lists |
| CbcWalk.BlkcipherWalk.Next | linux-2.6.22.19-cs543/crypto/blkcipher.c:222-273 | At least one block is handed out, and the walk fails if and only if less than one is left; the slow way is taken if and only if one of the stretches is shorter than a block, and otherwise the fast one if and only if both places are aligned |
| CbcWalk.BlkcipherWalk.NextSlow | linux-2.6.22.19-cs543/crypto/blkcipher.c:146-179 | A block is copied together from wherever it lies |
| CbcWalk.BlkcipherWalk.Process | linux-2.6.22.19-cs543/crypto/cbc.c:94-119 | One turn of the driver turns what was handed out into the next chunk of the output, in place or not |
| CbcWalk.BlkcipherWalk.Deliver | linux-2.6.22.19-cs543/crypto/blkcipher.c:71-103 | The chunk arrives at its destination and both cursors advance by it |
| CbcWalk.BlkcipherWalk.Done | linux-2.6.22.19-cs543/crypto/blkcipher.c:105-143 | The walk goes on with the rest, or is over, with an error if and only if bytes are left that make no block |
| CbcWalk.Crypt | linux-2.6.22.19-cs543/crypto/cbc.c:94-208 | For any fragmentation, alignment and mix of fast, copying and slow steps, source and destination identical or disjoint: memory and IV are those of CBC on the flattened bytes, nothing else is touched, and success means whole blocks |
| CbcWalk.DecryptAfterEncrypt | linux-2.6.22.19-cs543/crypto/cbc.c:94-208 | Decrypting what was encrypted, from wherever it went, gives the bytes back |
| Des.FpAfterIp | linux-2.6.22.19-cs543/crypto/des.c:530-594 | The final permutation undoes the initial one |
| Des.IpAfterFp | linux-2.6.22.19-cs543/crypto/des.c:530-594 | The initial permutation undoes the final one |
| DesBits.IpIsStandard | linux-2.6.22.19-cs543/crypto/des.c:530-561 | Bit by bit, IP is the initial permutation of FIPS 46-3 on little-endian words, with both halves turned left by one |
| DesBits.FpIsStandard | linux-2.6.22.19-cs543/crypto/des.c:563-594 | FP brings every bit back to its place |
| Des.RoundsAppend | linux-2.6.22.19-cs543/crypto/des.c:596-607 | Rounds under two schedules in turn are rounds under both together |
| Des.RoundsBack | linux-2.6.22.19-cs543/crypto/des.c:596-607 | The reversed schedule, with the halves exchanged, undoes the rounds |
| Des.DesInverse | linux-2.6.22.19-cs543/crypto/des.c:808-852 | DES under the reversed schedule inverts DES, for any boxes and keys |
| Des.EdeInverse | linux-2.6.22.19-cs543/crypto/des.c:889-949 | Triple DES is inverted by decrypt, encrypt, decrypt |
| Des.PairRounds | linux-2.6.22.19-cs543/crypto/des.c:808-829 | The loop of eight pairs of rounds is sixteen rounds under the schedule |
| Des.PairRoundsBack | linux-2.6.22.19-cs543/crypto/des.c:831-852 | Walking the table backwards is sixteen rounds under the reversed schedule |
| Des.DesEncrypt | linux-2.6.22.19-cs543/crypto/des.c:808-829 | The method is DES under the table; by DesStandard.DesIsStandard that is the cipher of FIPS 46-3 under the schedule of the key |
| Des.DesDecrypt | linux-2.6.22.19-cs543/crypto/des.c:831-852 | The method is DES under the reversed table, and gives back whatever was encrypted |
| Des.Des3Encrypt | linux-2.6.22.19-cs543/crypto/des.c:889-918 | Forty-eight rounds between one IP and one FP are encryption, decryption and encryption by single DES (section 3.1 of NIST SP 800-67) |
| Des.Des3Decrypt | linux-2.6.22.19-cs543/crypto/des.c:920-949 | The inverse, and it gives back whatever was encrypted |
| DesKeys.DecryptionIsReversed | linux-2.6.22.19-cs543/crypto/des.c:719-784 | The decryption schedule is the encryption schedule reversed, for every key |
| DesKeys.HalfKeys | linux-2.6.22.19-cs543/crypto/des.c:637-711 | The unrolled rotations of four quarter registers give the sixteen keys in order |
| DesKeys.FixupAll | linux-2.6.22.19-cs543/crypto/des.c:696-707 | The final loop exchanges half words in every key |
| DesKeys.Ekey | linux-2.6.22.19-cs543/crypto/des.c:637-711 | The table of the encryption schedule |
| DesKeys.Dkey | linux-2.6.22.19-cs543/crypto/des.c:719-784 | The table of the same keys in opposite order |
| DesKeys.TableOfThree | linux-2.6.22.19-cs543/crypto/des.c:867-887 | The middle table of triple DES is the reversed schedule of its key |
| DesKeys.Des3SetKey | linux-2.6.22.19-cs543/crypto/des.c:867-887 | Keys whose first two or last two parts agree are refused; otherwise the table is the one triple DES takes, for the three keys' own schedules |
| Words.RotationsAsSums | linux-2.6.22.19-cs543/crypto/camellia.c:116-120 | The source writes rotations as sums; they are rotations |
| Md5.FoldAppend | linux-2.6.22.19-cs543/crypto/md5.c:161-189 | Folding the compression function in pieces is folding it at once |
| Md5.Lengths | linux-2.6.22.19-cs543/crypto/md5.c:191-215 | The two length words are the length in bits modulo 2^64 |
| Md5.OneBlock | linux-2.6.22.19-cs543/crypto/md5.c:191-215 | A short rest needs one padded block |
| Md5.TwoBlocks | linux-2.6.22.19-cs543/crypto/md5.c:191-215 | A long rest needs two |
| Md5.Digest.Reset | linux-2.6.22.19-cs543/crypto/md5.c:150-159 | A context begins with the empty message |
| Md5.Digest.Update | linux-2.6.22.19-cs543/crypto/md5.c:161-189 | An update appends to the message, for any split into updates |
| Md5.Digest.Final | linux-2.6.22.19-cs543/crypto/md5.c:191-215 | The result is the fold over the padded message (sections 3.1 and 3.2 of RFC 1321) |
| Hmac.UpdatePage | linux-2.6.22.19-cs543/crypto/digest.c:53-73 | Cutting at the first aligned address does not change what is hashed |
| Hmac.UpdateEntry | linux-2.6.22.19-cs543/crypto/digest.c:43-76 | Nor does cutting at page boundaries |
| Hmac.UpdateSg | linux-2.6.22.19-cs543/crypto/digest.c:34-84 | Nor do entries and chained lists: the first nbytes of the flattened list are appended |
| Hmac.Chained | linux-2.6.22.19-cs543/crypto/hmac.c:143-171 | The pad's entry followed by a chain slot is the pad followed by the data |
| Hmac.HmacCtx.SetKey | linux-2.6.22.19-cs543/crypto/hmac.c:44-84 | The pads belong to the key, hashed first if it is longer than a block |
| Hmac.HmacCtx.PadLoop | linux-2.6.22.19-cs543/crypto/hmac.c:74-81 | The loop builds both pads |
| Hmac.HmacCtx.Init | linux-2.6.22.19-cs543/crypto/hmac.c:86-106 | The inner digest has taken in the inner pad |
| Hmac.HmacCtx.Update | linux-2.6.22.19-cs543/crypto/hmac.c:108-118 | An update appends the list's bytes |
| Hmac.HmacCtx.Final | linux-2.6.22.19-cs543/crypto/hmac.c:120-141 | The result is H(K xor opad, H(K xor ipad, m)) of section 2 of RFC 2104 |
| Hmac.HmacCtx.HmacDigest | linux-2.6.22.19-cs543/crypto/hmac.c:143-171 | In one call, the same |
| CryptoQueue.EnqueueKeeps | linux-2.6.22.19-cs543/crypto/algapi.c:532-550 | The backlog pointer stays at position max_qlen, or at the head; who is told what |
| CryptoQueue.DequeueKeeps | linux-2.6.22.19-cs543/crypto/algapi.c:553-569 | The same for taking; requests leave in order |
| CryptoQueue.SubmitInv | linux-2.6.22.19-cs543/crypto/cryptd.c:121-139 | A submission keeps the protocol's invariant |
| CryptoQueue.TakeInv | linux-2.6.22.19-cs543/crypto/cryptd.c:314-350 | So does taking a request |
| CryptoQueue.NotifyInv | linux-2.6.22.19-cs543/crypto/cryptd.c:72-101 | So does telling a backlogged request that it is in progress |
| CryptoQueue.CompleteInv | linux-2.6.22.19-cs543/crypto/cryptd.c:72-101 | So does a completion |
| CryptoQueue.RunInv | linux-2.6.22.19-cs543/crypto/cryptd.c:72-350 | The invariant holds in every state of every run, with submissions between any two steps of the thread |
| CryptoQueue.Protocol | linux-2.6.22.19-cs543/crypto/cryptd.c:72-350 | Over every run: the pointer is where it belongs, service is in order of acceptance and once each, nobody is told twice, and among finished requests exactly those told -EBUSY have been told -EINPROGRESS |
| CryptoQueue.NotedBeforeDone | linux-2.6.22.19-cs543/crypto/cryptd.c:72-101 | A request told -EBUSY is told -EINPROGRESS before it is completed |
| CryptoQueue.ServedOne | linux-2.6.22.19-cs543/crypto/cryptd.c:314-350 | One round of the thread completes the oldest request and no other |
| CryptoQueue.AllServed | linux-2.6.22.19-cs543/crypto/cryptd.c:314-350 | As many rounds as requests are queued complete everything accepted, in order, and notify exactly those told to wait |
| CryptoQueue.CryptoQueue.EnqueueRequest | linux-2.6.22.19-cs543/crypto/algapi.c:532-550 | The method performs the specified enqueue; it refuses if and only if the queue is full and the request may not wait |
| CryptoQueue.CryptoQueue.DequeueRequest | linux-2.6.22.19-cs543/crypto/algapi.c:553-569 | The method performs the specified dequeue |
| AlgRemoval.ProgressSpawn | linux-2.6.22.19-cs543/crypto/algapi.c:87-113 | Dealing with one spawn touches only a reachable instance and loses none that becomes reachable |
| AlgRemoval.PathDead | linux-2.6.22.19-cs543/crypto/algapi.c:115-132 | When nothing is left to do, everything on a path from the algorithm is dead |
| AlgRemoval.Finished | linux-2.6.22.19-cs543/crypto/algapi.c:115-132 | Then exactly the reachable instances are newly dead; each visited one is on the removal list once, off the list of algorithms and that of its template, and without users; the algorithm has no users left, and nothing else is touched |
| AlgRemoval.AlgApi.RemoveSpawns | linux-2.6.22.19-cs543/crypto/algapi.c:115-132 | The nested loops end, having computed reachability through the lists of users |
| AlgRemoval.AlgApi.RemoveAlg | linux-2.6.22.19-cs543/crypto/algapi.c:222-234 | An unregistered algorithm changes nothing; a registered one is removed with all that is reachable from it |
| Fat12.DecodeInvertsPack | FAT12/src/fat12.c:106-117 | Decoding three bytes inverts packing two twelve-bit entries |
| Fat12.PackInvertsDecode | FAT12/src/fat12.c:106-117 | Packing inverts decoding |
| Fat12.GroupIs | FAT12/src/fat12.c:106-117 | Each group of three bytes decodes to the entries that the "FAT Data Structure" section of Microsoft's FAT32 File System Specification defines by offset and parity |
| Fat12.ReservedSkipped | FAT12/src/fat12.c:161-169 | The reader finds the tables if and only if there is a reserved sector |
| Fat12.SkipReserved | FAT12/src/fat12.c:142-169 | The method arrives there, skipping an unsigned 32-bit number of bytes |
| Fat12.CursorMeetsBase | FAT12/src/fat12.c:171-203 | The position after the tables is that of the root directory if and only if there is a reserved sector, there is a table copy, and the size of a table is divisible by three |
| Fat12.OneSectorTable | FAT12/src/fat12.c:171-203 | A volume with one-sector tables, on which the reader is one byte past the root directory |
| Fat12.NoTableCopy | FAT12/src/fat12.c:202-202 | A volume with no table copy, on which it is four gigabytes past it |
| Fat12.PairsFit | FAT12/src/fat12.c:186-199 | Storing entries in pairs passes the room for them if and only if the size of a table leaves two on division by three |
| Fat12.StorePair | FAT12/src/fat12.c:191-199 | Two entries stored at i and behind it; what has no room is the rest |
| Fat12.ReadGroups | FAT12/src/fat12.c:191-199 | The loop stores every entry of the table at its cluster, and one beyond the room if and only if their number is odd |
| Fat12.ReadTables | FAT12/src/fat12.c:171-203 | Every entry stored is the table's entry for its cluster, one goes past the room if and only if the size leaves two on division by three, the second entry is the end marker, and the position reached is that of the root directory under the exact condition |
| Fat12.ChainVisitsOnce | FAT12/src/fat12.c:418-428 | A chain that ends visits no cluster twice and is no longer than the table |
| Fat12.ChainIffEnds | FAT12/src/fat12.c:418-428 | There is a chain from a cluster if and only if the walk from it meets the marker within as many steps as there are entries |
| Fat12.ReadCluster | FAT12/src/fat12.c:432-439 | The seek to a 32-bit address reads the cluster |
| Fat12.Extract | FAT12/src/fat12.c:408-430 | Extraction ends on every chain that ends, and writes the clusters at the place and of the size that the boot sector's figures give, the last cut to the remainder of the size |
| Fat12.ExtractedIsFile | FAT12/src/fat12.c:418-428 | What is written is the first filesize bytes if and only if the chain has filesize / cluster_size + 1 clusters |
| Fat12.MultipleLosesCluster | FAT12/src/fat12.c:423-423 | With as few clusters as hold the file, it is whole if and only if its size is no multiple of the cluster size; a multiple loses its last cluster |
| Fat12.OneClusterLost | FAT12/src/fat12.c:408-430 | On an image with a table and a file of exactly one cluster, reading and extracting give an empty file |
| BarrierStages.Begins | linux-2.6.22.19-cs543/block/ll_rw_blk.c:427-476 | A sequence begins with a peek, for the barrier at the head, with every stage open that its mode owes and no other |
| BarrierStages.GoesOn | linux-2.6.22.19-cs543/block/ll_rw_blk.c:359-401 | A stage is finished by the completion of its proxy and by nothing else; the sequence ends with the last stage owed, and with it one barrier |
| BarrierStages.CompletesInOrder | linux-2.6.22.19-cs543/block/ll_rw_blk.c:359-401 | Over every run: at any time in a sequence the proxies completed are the first of those its mode owes, in order |
| BarrierStages.SequenceCompletesOwed | linux-2.6.22.19-cs543/block/ll_rw_blk.c:427-476 | Over every run: when a sequence ends, exactly the proxies its mode owes have been completed, in order, and the barrier that ends is the one it began with |
| BarrierStages.SameBarrier | linux-2.6.22.19-cs543/block/ll_rw_blk.c:359-383 | The barrier in progress does not change on the way |
| BarrierHistory.ModeIsAsked | linux-2.6.22.19-cs543/block/ll_rw_blk.c:262-299 | Over every run: the mode of the next sequence is the one asked for last |
| BarrierHistory.InFlightIs | linux-2.6.22.19-cs543/block/elevator.c:858-864 | Over every run: the count of requests in flight is the number of file-system requests, and the barrier's own write, that the driver holds |
| BarrierHistory.DrainNotMissed | linux-2.6.22.19-cs543/block/elevator.c:866-882 | After a completion or a merge, a drain with nothing in flight has something of its own at the head |
| BarrierHistory.FrontGoesFirst | linux-2.6.22.19-cs543/block/elevator.c:559-563 | A request inserted at the front is the next one handed out, sequence or not |
| BarrierHistory.BackGoesLast | linux-2.6.22.19-cs543/block/elevator.c:565-582 | One inserted at the back stands behind all that is queued |
| BarrierHistory.NeverPassed | linux-2.6.22.19-cs543/block/elevator.c:399-432 | Over every run: what was inserted at the front or the back, or requeued, is never passed by a later dispatch |
| RequestQueue.SortPlace | linux-2.6.22.19-cs543/block/elevator.c:399-432 | A dispatch goes right in front of those it may pass: unheld requests of its own direction that it comes before in a sweep from the boundary |
| RequestQueue.SortKeepsSweeps | linux-2.6.22.19-cs543/block/elevator.c:399-432 | Neighbours in the dispatch list of one direction, which nothing holds in place, stay in sweep order: upwards from the boundary, then upwards from the start |
| RequestQueue.DispatchAllSweeps | linux-2.6.22.19-cs543/block/elevator.c:534-546 | So they do over a whole drain of the scheduler |
| DeadlineChoice.FindPicks | linux-2.6.22.19-cs543/block/deadline-iosched.c:300-327 | In a direction: the request whose deadline comes first of all queued if any has expired, else the one cached, else the one at the lowest sector of all queued |
| DeadlineChoice.DispatchChooses | linux-2.6.22.19-cs543/block/deadline-iosched.c:239-336 | A dispatch goes on with the batch if the cached request continues it and the batch is not full; else it takes writes if there are no reads or they have waited long enough, and in that direction the request above; it caches the successor in order of sectors and counts |
| DeadlineChoice.DispatchIs | linux-2.6.22.19-cs543/block/deadline-iosched.c:239-336 | And it issues one if and only if one is queued |
| DeadlineChoice.SweepsUp | linux-2.6.22.19-cs543/block/deadline-iosched.c:239-336 | Two dispatches in a row in one direction, nothing expired, issue requests in order of sectors, from the lowest again when there is none above |
| DeadlineChoice.AddIs | linux-2.6.22.19-cs543/block/deadline-iosched.c:58-104 | A new request gets the deadline of its direction and goes to the end of its FIFO; one at the same sector, and nothing else, goes to the dispatch list |
| DeadlineChoice.FrontMergeIs | linux-2.6.22.19-cs543/block/deadline-iosched.c:147-159 | A front merge lowers the start and leaves the end, the deadline and everything else, but for a request in the new place |
| DeadlineChoice.MergeIs | linux-2.6.22.19-cs543/block/deadline-iosched.c:161-180 | A request that absorbs another has both lengths and the earlier deadline, and takes the other's place in the FIFO if and only if that deadline was the other's |
| DeadlineChoice.MergeCaches | linux-2.6.22.19-cs543/block/deadline-iosched.c:197-216 | If the absorbed request was the cached one, its successor in order of sectors is cached instead |
| DeadlineChoice.GapDecides | linux-2.6.22.19-cs543/block/deadline-iosched.c:316-326 | Outside a batch and with nothing expired, what is issued is next in order of sectors if and only if nothing has arrived between the last request and the cached one |
| DeadlineChoice.LateArrivalPassed | linux-2.6.22.19-cs543/block/deadline-iosched.c:316-326 | A run in which something has, and is passed over |
| AnticipatoryTurns.DispatchIs | linux-2.6.22.19-cs543/block/as-iosched.c:1017-1137 | The law of a dispatch: nothing while waiting or changing batch; a turn to the other kind if the batch has expired with both queued, or has run out; else the batch goes on. Which request moves: the oldest if one has expired or reads begin, else the best by the order of the search; and a turn waits until the device is empty |
| AnticipatoryTurns.FinishIs | linux-2.6.22.19-cs543/block/as-iosched.c:1116-1137 | A request moves if and only if no change of batch is pending or the device is empty |
| AnticipatoryTurns.AddIs | linux-2.6.22.19-cs543/block/as-iosched.c:1142-1168 | A new request is the youngest of its direction; only one at its very sector gives way, to the device |
| AnticipatoryTurns.CompletedIs | linux-2.6.22.19-cs543/block/as-iosched.c:799-848 | A completion takes its request off the device and nothing else; a pending change ends with the last one, and after a change to reads their batch is then new |
| AnticipatoryTurns.WriteServedIff | linux-2.6.22.19-cs543/block/as-iosched.c:1029-1137 | In a batch of writes a dispatch serves a write if and only if the batch has not expired or no reads are queued |
| AnticipatoryTurns.ExpiredReadsTurn | linux-2.6.22.19-cs543/block/as-iosched.c:1029-1137 | An expired batch of reads turns to writes, and serves one at once if and only if the device is empty |
| AnticipatoryTurns.ReadsGiveWay | linux-2.6.22.19-cs543/block/as-iosched.c:1029-1137 | Over every run: once the batch has turned to writes and none is found expired, no read is served before a write |
| AnticipatoryClock.WriteFollowsIff | linux-2.6.22.19-cs543/block/as-iosched.c:799-1137 | Over every run with its clock: while both kinds stay queued, an expired batch of reads is followed by a write if and only if nothing was outstanding as it was found expired; if something was, the next dispatch turns back to reads, since the old clock runs on |
| AnticipatoryClock.WritesStarve | linux-2.6.22.19-cs543/block/as-iosched.c:799-1137 | For every tuning and every n, a run with n expired batches of reads, each turning to writes, in which a queued write is never served |
| AnticipatoryClock.OldClockRunsOn | linux-2.6.22.19-cs543/block/as-iosched.c:821-831 | The clock of the batch of reads runs on under the batch of writes |
| AnticipatoryClock.ClockStartsWithRead | linux-2.6.22.19-cs543/block/as-iosched.c:821-831 | The clock of a batch of reads starts with its first completion, and with no other; a completion starts none for writes |
| AnticipatoryClock.ReadsAloneRenew | linux-2.6.22.19-cs543/block/as-iosched.c:1045-1050 | While reads are alone each one served renews their batch |
| AnticipatoryClock.WriteBatchBounded | linux-2.6.22.19-cs543/block/as-iosched.c:911-925 | Over every run: while reads are queued, a batch of writes serves no more than write_batch_count, or one |
| CfqChoice.ChoiceIsOrder | linux-2.6.22.19-cs543/block/cfq-iosched.c:290-382 | The choice is by a strict total order: synchronous before other requests, then metadata, then by weighted distance, what wraps last |
| CfqChoice.InsertBestIff | linux-2.6.22.19-cs543/block/cfq-iosched.c:573-596 | After an insertion the cached request is the best of its queue if and only if it was before, or the new one is |
| CfqChoice.FindTakesNeighbour | linux-2.6.22.19-cs543/block/cfq-iosched.c:408-430 | The search looks at the neighbours, wrapping round at the end, and takes the better one |
| CfqChoice.FindBestIff | linux-2.6.22.19-cs543/block/cfq-iosched.c:408-430 | What it finds is the best of what is left if and only if one of the neighbours is |
| CfqChoice.FindIsBest | linux-2.6.22.19-cs543/block/cfq-iosched.c:408-430 | Among requests of one kind, none starting inside the one removed, it always is |
| CfqChoice.ForegroundMissed | linux-2.6.22.19-cs543/block/cfq-iosched.c:408-430 | A queue on which it is not: a synchronous request further off is missed |
| CfqOrder.ResortIs | linux-2.6.22.19-cs543/block/cfq-iosched.c:515-522 | A queue with requests is put where its new key says, the others keep their order, and a queue without requests is left alone |
| DesRound.FIsStandard | linux-2.6.22.19-cs543/crypto/des.c:596-607 | The round macro is the function f of FIPS 46-3: expansion, key, the eight boxes and the permutation, bit by bit, on tables made from any eight boxes |
| DesRound.SumOfBoxes | linux-2.6.22.19-cs543/crypto/des.c:596-607 | The sum of eight table entries is the eight boxes on the rows of the expanded half |
| DesSchedule.ScheduleIsStandard | linux-2.6.22.19-cs543/crypto/des.c:637-711 | Bit by bit, the key of every round is that of FIPS 46-3: permuted choice 1, the shifts, permuted choice 2 |
| DesSchedule.FirstIsD | linux-2.6.22.19-cs543/crypto/des.c:643-646 | The quarters taken from the first table are half D of permuted choice 1 |
| DesSchedule.SecondIsC | linux-2.6.22.19-cs543/crypto/des.c:671-674 | Those from the second are half C |
| DesSchedule.TurnedIs | linux-2.6.22.19-cs543/crypto/des.c:648-663 | The rotations before round m shift a half by the sum of the shifts of FIPS 46-3 |
| DesStandard.RoundIs | linux-2.6.22.19-cs543/crypto/des.c:596-607 | One round of the source is one round of FIPS 46-3 on halves turned left by one |
| DesStandard.RoundsIs | linux-2.6.22.19-cs543/crypto/des.c:808-829 | So are sixteen |
| DesStandard.DesIsStandard | linux-2.6.22.19-cs543/crypto/des.c:808-829 | For every key and block, bit by bit: the cipher under the schedule of the key is DES of FIPS 46-3 |
| Des.EdeIs | linux-2.6.22.19-cs543/crypto/des.c:889-918 | Triple DES is encryption by the third key of the block that the second key maps to what the first key makes of the input |
| Des.EdeOfOneKey | linux-2.6.22.19-cs543/crypto/des.c:889-918 | With one key three times it is single DES |
| Md5.Le32Inverse | linux-2.6.22.19-cs543/crypto/md5.c:128-142 | The bytes of a word, lowest first, are its digits to base 256, and give it back |
| Md5.Le64Inverse | linux-2.6.22.19-cs543/crypto/md5.c:191-215 | So are the eight bytes of the length |
| Md5.PaddingIs | linux-2.6.22.19-cs543/crypto/md5.c:191-215 | The padding is a byte 0x80, zeros up to the last eight bytes of a block, and the length in bits modulo 2^64, lowest byte first |
| Hmac.HmacIs | linux-2.6.22.19-cs543/crypto/hmac.c:44-141 | Byte by byte: the key, or its digest if longer than 64 bytes, filled with zeros and added to 0x36, goes before the message; added to 0x5c, before the inner digest |
| Cbc.EncBlock | linux-2.6.22.19-cs543/crypto/cbc.c:94-119 | Every block of the ciphertext is the encryption of the plaintext block plus the ciphertext block before it, or the IV |
| Cbc.DecBlock | linux-2.6.22.19-cs543/crypto/cbc.c:183-208 | Every byte of the plaintext is that of the decrypted block plus that of the ciphertext block before, or the IV |
| Scatterwalk.OnePage | linux-2.6.22.19-cs543/crypto/scatterwalk.h:35-53 | What is taken at a time lies on one page and stops only where the page or the entry does |
| Lrw.TwoSums | linux-2.6.22.19-cs543/crypto/lrw.c:86-105 | A masked block is two sums around the cipher |
| CamelliaKeys.SigmasAreRoots | linux-2.6.22.19-cs543/crypto/camellia.c:51-58 | The constants of the key schedule are the second to the seventeenth hexadecimal place of the square roots of the first four primes, as section 2.2 of RFC 3713 says |
| Fat12.RootEndsAtData | FAT12/src/fat12.c:412-414 | The root directory, read from behind the tables, ends where extraction takes the data to begin if and only if there is a reserved sector, there is a table copy and the size of a table is divisible by three |
| Fat12.ClusterIsWhereSpecified | FAT12/src/fat12.c:412-435 | Extraction looks for every cluster where Microsoft's specification puts it if and only if the root directory fills whole sectors |
| Fat12.DirectoryInPartSector | FAT12/src/fat12.c:412-414 | A volume on which it does not |
| Fat12.FloppyData | FAT12/src/fat12.c:412-416 | On a common floppy the data begins at byte 16896 |
| Fat12.ContentsAt | FAT12/src/fat12.c:432-439 | Byte i of the k-th cluster of a file is byte i of that cluster's place |

## Left out

- Barriers by tag, switching to no ordering at all, draining at a change of scheduler, and `flush_dry_bio_endio`.
- BarrierSafety.RunInv: front insertion of file-system requests is not a step, because no caller makes one; sorted insertion of others is the source's own BUG_ON.
- RequestQueue.RequestQueue.AddRequest: plugging and the immediate call of the driver after a back insertion are left out; that call is a later step of a run.
- Segment counts, the request hash, plugging, statistics and error codes of the block layer.
- DeadlineSafety.RunInv: tunables are fixed during a run and the clock does not go back; without this the FIFO is not ordered by deadline.
- AnticipatorySafety.NextIsBest: additions overlap no queued request of the same direction but may share a start sector; merges are left out, since a front merge moves a request without a new search.
- Anticipation itself: think times, seek distances and timers are the oracle's choice.
- AnticipatoryClock.WriteFollowsIff: the clock and the count of a batch are on values beside the record updated in place, and `write_batch_count` does not adapt; the result and `WritesStarve` hold for every count.
- CfqSafety.RunInv: a queue's class is fixed; changes of priority class, idle timers, slices, preemption and io contexts are left out, and the key of a queue in the service tree is an argument.
- Allocation failures and the error paths behind them, everywhere.
- Camellia with keys of 192 and 256 bits, which has the same structure, and the contents of its tables.
- `gf128mul_lle` and `gf128mul_bbe`, which clear only a pointer's width of their table.
- Lrw.SetKey: `__set_bit` is modelled as on a little-endian machine; the check of the key length is left out.
- Lrw.Crypt: the walk delivers whole blocks; how it finds them is the subject of `CbcWalk`.
- CbcWalk.Crypt: the block-wise exclusive-or variants, physical walks and the placing of buffers within the slow path's allocation are left out.
- DesStandard.DesIsStandard: the contents of the tables are not written out; it holds for all tables that agree with permuted choice 1, the shifts, permuted choice 2 and eight boxes as the predicates say.
- Weak keys of DES; the compression function of MD5; wiping of keys and contexts.
- Des.Des3Encrypt: the middle schedule is passed as the one whose reverse the table holds; every table holds one.
- CryptoQueue.Protocol: one queue and one thread; requests are told apart by number and a request is not submitted again in a run.
- AlgRemoval.AlgApi.RemoveAlg: an instance whose template cannot be referenced is marked dead without a visit to its users, as in the source; locks and the final release are left out.
- Fat12.ReadTables: a table of fewer than three bytes or of 2^31 and more, and a data base beyond 32 bits, overflow the source's integers and are excluded; so is a truncated image, where a short read goes unnoticed.
- Fat12.Extract: only an entry equal to the second entry of the table ends a chain, as in the source; walks that leave the table or never end, clusters outside the image and images over four gigabytes are excluded.
- Hmac.UpdateEntry: an entry's offset lies within its page; digest.c subtracts it from the page size as it is.
- BarrierProgress.EveryBarrierEnds: a driver that requeues for ever is excluded, and so are new submissions, which bring new work.
- Reading directory entries, names, permissions and printing in the FAT12 reader, and its two programs.
