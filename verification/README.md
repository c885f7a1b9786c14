# elastio-snap: the copy-on-write engine and its image updater

The driver freezes a block device in time. It holds every write back until the
blocks it touches have been read by *clones*, stores those old contents in a COW
file, and serves a snapshot device from the COW file and the live device. Between
snapshots it only marks changed blocks in the index of the same file, and
`update-img` uses that index to turn the image of one snapshot into the next.

This project models that engine in two layers that share their specifications
(`Blocks.dfy`, `BioQueue.dfy`, `Tracing.dfy`, `UpdateImg.dfy`).

* **Operations**, as the source writes them: classes and methods that update
  their state in place, loop where the source loops, and whose I/O may fail at any
  point. Each is proved against a specification function.
  `CowFile`, `Eviction`, `CowManager` (section cache, header, data area),
  `BioQueue` (the relinked list), `SnapIo` (storing clones, answering reads),
  `Tracing` (cutting clones, recording sector sets), `ExtentIo`, `UpdateImg`,
  and `CowRuns`, which composes them.
* **The protocol**, a state machine built from the same functions: `Protocol`
  (state, steps), `Promises` (what the queue owes each block), `Invariants`,
  `ShapeProof`, `TrackingProof`, `Runs`, `Periods` (what a run leaves behind of each
  period), `Marks` (which blocks end up marked), `Reads` (what becomes of reads),
  `Accounting` (what becomes of writes and clones), `Isolation`, `Exactness`,
  `Cycles`, `Counterexamples`, and `Example` (one whole cycle, concretely).

The main results:

1. *Incremental equals full*, for any number of cycles
   (`Cycles.IncrementalEqualsFull`): the image built from the closed COW files equals
   the snapshot it was last updated from. Exempt are only blocks that a step of the run
   changes by pages of a COW file on the device or by a discard in incremental mode, and
   marks missed while a file was being closed, each until a later file has the block
   marked; a run without such steps leaves the image equal byte for byte
   (`Cycles.IncrementalEqualsFullEverywhere`). What is exempt is read off the requests
   themselves, and exactly so (`Tracing.UnrecordedExactly`, `Periods.BypassedExactly`).
   That only marked blocks differ between two snapshots
   (`Cycles.ChangedBlocksAreMarked`) needs no ordering hypothesis, and neither does the
   converse bound: a block is marked for a period if and only if a write of that period
   got it captured or recorded (`Marks.MarksAreExact`). `Example.WholeCycle` is a run that
   meets all hypotheses.
2. *Snapshot isolation* over all orderly runs (`Isolation.SnapshotIsolation`), reads
   that complete after the change to incremental mode included. The code does not
   guarantee it over all runs: some orderings are not enforced, and `Counterexamples`
   has an error-free run for each of three that ends in a wrong answer. `Exactness`
   shows, for every state, exactly when each one matters, and with one-block clones
   overtaking never does (`Isolation.OneBlockRunsAreOrderly`). Every read that arrives is
   queued, in hand, answered over its full range, or ended by a failure, and in a finished
   period all are answered (`Reads.ReadsAreConserved`, `Reads.FinishedReadsAreAnswered`).
3. *Every traced write is released exactly once*, unchanged, after all its clones, and
   is then queued, at the device or completed (`Accounting.TracedWritesAreReleasedOnce`,
   `Accounting.ReleaseOrdering`); no write of any kind is lost or doubled
   (`Accounting.WritesAreConserved`).
4. *The cache is a plain map* over any operation sequence, keeps its memory bound,
   and settles after its limit changes (`CowRuns.RunOps`, `CowRuns.ResizeSettles`).
5. *Clean means recoverable*: part of `CowManager.Valid`, kept by every operation.

## Where the code falls short of its documentation

* A read at the head of the queue can pull a wide clone past an earlier one that
  shares a block with it but not with the read (`src/main.c:3384-3396`); the later
  contents are then stored. See `Counterexamples.OvertakingGivesWrongAnswer`.
* Nothing keeps a released write from reaching the device between a read's mapping
  lookup and its base read (`src/main.c:3787-3796`, `3974-3989`). See
  `Counterexamples.RaceGivesWrongAnswer`.
* The change to incremental mode redirects tracing before it drains the queue
  (`src/main.c:5648-5658`), so a read that is still queued, or arrives meanwhile, can
  find the device changed and completes without error all the same; the busy check
  (`src/main.c:5819`) is made well before. See `Counterexamples.SwitchGivesWrongAnswer`
  and `Exactness.ArrivalExactlyInTime`.
* The change back to snapshot mode never looks at the old device's fail code
  (`src/main.c:5745-5754`, unlike 5661-5675). If marking the last queued sector set fails
  after the thread was told to stop, the file is closed clean without the mark
  (`Periods.ClosedFilesHoldMarks`, `Counterexamples.MissedMarkGoesUnnoticed`).
* After one clone read error `sd_submitted_cnt` stays ahead of `sd_received_cnt`,
  so the COW thread's stop condition (`src/main.c:4007`) never holds again
  (`Accounting.ThreadMayStop`, `Accounting.StuckAfterReadError`,
  `Counterexamples.ReadErrorGetsStuck`).
* On a device that is not a whole number of blocks the updater reads the last block
  short, and with `errno` 0 counts no error although nothing is copied
  (`utils/update-img.c:36-38`, `219`). See `UpdateImg.PartialTail` and
  `UpdateImg.MarkedTailStaysStale`.
* `doc/STRUCTURE.md:84` says that reloading sets `has_data` for all sections;
  `cow_reload` (`src/main.c:2984-2994`) leaves it zero. Reloading is left out.

## Assumptions

* Block, page and header are 4096 bytes, so a clone's segment is one block
  (`snap_handle_write_bio` passes the same page for every block of a segment).
* The device is a whole number of blocks in the protocol, and requests lie inside it.
* Allocations in the tracing path succeed and a clone takes at least one page; index
  and sector arithmetic stays below 2^64.
* A completed clone covers the blocks it was allocated for: its recorded size is
  taken as restored (`src/main.c:4144-4150` restores only the sector).
* Freezing the file system around a mode change means that no traced or released
  write is under way at that instant; the mode changes themselves succeed (what happens
  to sector sets still queued, and to the file being closed, is part of the model).
* In incremental mode the sector sets of a write are queued by the step that submits it.
* A failed header write leaves the old or the new header; a failed write of anything
  else leaves any prefix. Writing the image either completes or sets `errno`.

## Model

| member | source | states |
|---|---|---|
| CowManagers.AllowedSects | src/main.c:2950-2953 | the largest number of resident sections that fits in the cache size beside the section table |
| CowManagers.CowManager.constructor | src/main.c:3038-3100 | a new manager is valid, stands for the all-zero map, has an empty store and begins its data area right after the index |
| CowManagers.CowManager.Create | src/main.c:3014-3118 | creating a file fails, or gives such a manager with a dirty header on disk that shows its state |
| CowManagers.CowManager.AllocSection | src/main.c:2428-2441 | one more resident section, which now counts as holding data; nothing changes on failure |
| CowManagers.CowManager.FreeSection | src/main.c:2422-2426 | one resident section less, everything else the same |
| CowManagers.CowManager.FillSection | src/main.c:2450-2456 | eight block reads fill a section with exactly its part of the on-disk index |
| CowManagers.CowManager.LoadSection | src/main.c:2443-2464 | reloading keeps the represented map; on error the section is absent again |
| CowManagers.CowManager.WriteSection | src/main.c:2466-2482 | writing back keeps the represented map even when torn, and on success the disk equals memory |
| CowManagers.CowManager.EvictSection | src/main.c:2519-2527 | write-back and release keep the represented map; on error the section stays |
| CowManagers.CowManager.SweepSections | src/main.c:2514-2529 | sections go in index order exactly if used at most the threshold, up to the first point where half the limit is free; usage counters of swept sections, and only theirs, become zero; the map is unchanged |
| CowManagers.CowManager.SyncAndFreeSections | src/main.c:2514-2537 | sections go as in the sweep; with threshold 0 nothing stays resident and the on-disk index is the whole map; data below the write position survives, and all data if the file is not filled ahead |
| CowManagers.CowManager.SyncAndFree | src/main.c:2686-2711 | closing for good leaves a clean header only when index and header on disk determine the map and all counters, the header shows every field of the manager, and the data is left alone |
| Eviction.HalvingSearch | src/main.c:2549-2563 | the halving search never underflows and ends strictly within one initial step of where it began |
| Eviction.HalvingSearchFollowsMajority | src/main.c:2549-2563 | the result lies on the side of the start on which most sections are |
| Eviction.HalvingSearchMoves | src/main.c:2549-2563 | it is strictly on that side if most sections are and the step is at least 2, and the start itself if they are balanced or the step is smaller |
| Eviction.HalvingSearchStops | src/main.c:2549-2563 | where the search stops the sections are balanced, or one threshold away it was still sent this way |
| Eviction.FindMax | src/main.c:2543-2546 | the largest usage counter |
| Eviction.CountAround | src/main.c:2553-2558 | how many sections are used more, and how many at most, the threshold |
| Eviction.Threshold | src/main.c:2539-2563 | the loops compute the maximum usage and the halving search; the threshold is 0 exactly if the maximum is at most 1, else in [1, max-1] |
| CowManagers.CowManager.CleanupMappings | src/main.c:2539-2573 | the cache ends within its limit or idle, its bound is re-established, and a section of maximum usage above 1 stays resident |
| CowManagers.CowManager.Touch | src/main.c:3135-3148 | counts a use of this section only and makes it resident, adding at most one section, so the peak is the limit plus 2 |
| CowManagers.CowManager.BringIn | src/main.c:3179-3187 | an empty section appears as zeros, another one is reloaded; no other section changes |
| CowManagers.CowManager.EnforceLimit | src/main.c:3197-3200 | over the limit the cache is cleaned up, which restores the bound; within it nothing changes |
| CowManagers.CowManager.ReadMapping | src/main.c:3130-3170 | returns the entry of the represented map, which is unchanged, and keeps the cache bound and which sections hold data; within the limit the use is counted and nothing is evicted |
| CowManagers.CowManager.WriteMapping | src/main.c:3172-3211 | updates exactly one entry of the represented map and keeps the changed-block count exact and the cache bounded; within the limit the use is counted and nothing is evicted |
| CowManagers.CowManager.PutEntry | src/main.c:3189-3195 | the changed-block count follows the number of nonzero entries |
| CowManagers.CowManager.ModifyCacheSize | src/main.c:3126-3128 | only the limit changes |
| CowManagers.CowManager.WriteHeader | src/main.c:2575-2604 | the header on disk shows every field of the manager, or on error is possibly the old one |
| CowManagers.CowManager.OpenHeader | src/main.c:2608-2659 | accepts only a clean header of the expected kind and marks it dirty; position, size limit, sequence number, uuid, version and count are each what they were when the file was closed; a dirty header changes nothing |
| CowManagers.CowManager.SyncAndClose | src/main.c:2904-2925 | a clean header is written only when index and header on disk determine the map and all counters, and shows every field of the manager |
| CowManagers.CowManager.Reopen | src/main.c:2927-2948 | every header field comes back as it was; fails if the file was not closed |
| CowManagers.CowManager.CloseAndReopen | src/main.c:2904-2948 | closing and reopening is the identity on the map, on each header field and on the stored data |
| CowManagers.CowManager.TruncateToIndex | src/main.c:3120-3124 | the file becomes index-only and the map stays; the data area is gone, or untouched if truncating fails |
| CowManagers.CaptureStep | src/main.c:3257-3276 | mapping a block to the write position and appending its data captures that block and changes no other |
| CowManagers.InjectiveStep | src/main.c:3212-3281 | no two blocks come to share a data position |
| CowManagers.CowManager.WriteData | src/main.c:3215-3255 | writes at the write position and advances it, or fails and leaves other data alone; EFBIG exactly at the size limit |
| CowManagers.CowManager.CaptureNew | src/main.c:3268-3276 | a block without mapping is captured; after an error its mapping may dangle and every other capture survives |
| CowManagers.CowManager.WriteCurrent | src/main.c:3257-3281 | first capture wins, mappings are never overwritten, and after an error at most the mapping of this block dangles |
| CowManagers.CowManager.ReadData | src/main.c:3283-3309 | returns the requested part of a stored block, or EINVAL for an offset outside it |
| CowRuns.LastWriteWins | src/main.c:3130-3211 | in the plain map an entry holds what was last written, and a nonzero entry never returns to zero |
| CowRuns.RunOp | src/main.c:2904-3211 | one operation acts as on the plain map, keeps the cache bound, and settles the cache if it gets to the limit check |
| CowRuns.RunOps | src/main.c:2422-3211 | any sequence of reads, writes, limit changes and close/reopen cycles returns and leaves what the plain map does; the cache is within its bound if it was and the limit did not change, or two operations have got to the check since |
| CowRuns.ReadsReturnLastWritten | src/main.c:3130-3211 | there is one result for each read, and it is what was last written there |
| CowRuns.ResizeSettles | src/main.c:3126-3211 | after any change of the limit any two writes, or reads of sections with data, are enough, whatever comes before, between and after |
| CowRuns.MarkedIsCaptured | src/main.c:3257-3281 | in snapshot mode the nonzero entries are exactly the captured blocks |
| CowRuns.StoreAll | src/main.c:4053-4063 | a list of clones captures exactly the blocks it covers besides those captured before, each with what the first clone covering it holds |
| CowRuns.MarkAll | src/main.c:4081-4112 | a list of sector sets marks exactly the blocks it touches besides those marked before |
| CowRuns.RunPeriod | src/main.c:3883-3961 | clones, truncation, sector sets and closing leave an index that marks exactly the blocks of the clones and sets, counted in a clean header with the period's sequence number and uuid |
| BioQueues.OverlapMeaning | src/main.c:3372-3374 | for nonempty requests the test is true exactly if they share a sector or touch end to end |
| BioQueues.DequeueConserves | src/main.c:3376-3405 | a dequeue loses and duplicates nothing |
| BioQueues.DequeueDelaysReads | src/main.c:3383-3398 | a read leaves only when no overlapping clone is queued; otherwise an overlapping clone leaves and the read waits |
| BioQueues.DequeueExactly | src/main.c:3376-3405 | the first overlapping clone leaves and the read takes its place among unmoved entries; without one the head leaves |
| BioQueues.BioList.Add | src/main.c:3352-3359 | appends to the list |
| BioQueues.BioList.Pop | src/main.c:3361-3370 | takes the head of the list |
| BioQueues.BioList.Replace | src/main.c:3386-3393 | one node takes the place of another in the linked list |
| BioQueues.BioList.FindOverlap | src/main.c:3384-3397 | the walk stops at the first overlapping clone, with its predecessor |
| BioQueues.BioList.Exchange | src/main.c:3384-3396 | relinking head, predecessor and tail puts the read in the slot of the first overlapping clone |
| BioQueues.BioList.DequeueDelayRead | src/main.c:3376-3405 | the relinking computes the dequeue of the specification and conserves the nodes |
| SnapIo.HandleWrite | src/main.c:3883-3944 | stores every page of a clone by first capture; nonzero mappings never change and stay injective; an error leaves one dangling mapping at most |
| SnapIo.Lookup | src/main.c:3835-3843 | a mapping is nonzero exactly if the block is captured, and then leads to its contents |
| SnapIo.ReadMode | src/main.c:3720-3759 | tells whether all, none or some of the blocks of any segmented byte range are captured |
| SnapIo.OverlayPiece | src/main.c:3833-3855 | one piece inside a block is overwritten exactly if the block is captured |
| SnapIo.OverlaySegment | src/main.c:3829-3855 | all pieces of a segment of any alignment are answered |
| SnapIo.Overlay | src/main.c:3820-3859 | all segments are answered, whatever the segmentation |
| SnapIo.HandleRead | src/main.c:3761-3881 | whichever mode is picked and however the request is segmented, the buffer is the byte-by-byte read through store and device |
| Tracing.BlocksAreSpan | src/main.c:4337-4339 | rounding outward gives exactly the blocks that the write touches |
| Tracing.MakeClones | src/main.c:4336-4379 | the retry loop ends and its clones tile the block-rounded range |
| Tracing.TilesOnce | src/main.c:4345-4379 | in such a tiling every block is read by exactly one clone |
| Tracing.MakeSet | src/main.c:4398-4415 | queues one sector set relative to the device start |
| Tracing.Coalesce | src/main.c:4452-4471 | the queued sets are separated and cover exactly the sectors of segments that are not pages of the COW file |
| Tracing.TraceIncremental | src/main.c:4417-4471 | the queued sets cover a sector exactly if some segment that counts for this kind of write and placement of the COW file covers it, and ask to mark only blocks the write touches |
| Tracing.MustRecordExactly | src/main.c:4436-4471 | the same for the sectors the protocol requires to be recorded |
| Tracing.SeparatedPairs | src/main.c:4452-4471 | any two recorded sets are at least one sector apart |
| Tracing.MarkedExactly | src/main.c:3946-3956 | a block is marked exactly if one of its sectors was recorded |
| Tracing.UnrecordedExactly | src/main.c:4425-4471 | a block that a write touches goes unrecorded exactly if, with the COW file on the device, the write is a discard or reaches into the block only from pages of that file |
| Tracing.HandleSet | src/main.c:3946-3961 | marks exactly the blocks a sector set touches |
| ExtentIo.SectorByOffset | src/main.c:1867-1877 | for the first extent that holds the offset the sector lies as far into it, and without one it is the invalid sector |
| ExtentIo.SectorAtExactly | src/main.c:1867-1877 | with aligned extents a sector is found exactly if it lies as far into the first extent holding the byte as the byte itself |
| ExtentIo.DistinctSectors | src/main.c:1867-1877 | with physically disjoint extents, different file sectors never share a physical one |
| ExtentIo.Run | src/main.c:1935-1942 | a batch is the longest physically consecutive run |
| ExtentIo.WriteBlock | src/main.c:1879-1980 | on success every sector of the transfer lies on the disk, by extent and offset, with its part of the block; sectors at which none lies are left alone even on failure; EFAULT only if some sector is unmapped |
| ExtentIo.ReadBlock | src/main.c:1982-2101 | on success the buffer holds what lies on the disk, by extent and offset; EFAULT only if some sector is unmapped |
| ExtentIo.WriteThenRead | src/main.c:1879-2101 | a read of the same range returns what was written |
| UpdateImg.CopyBlock | utils/update-img.c:31-57 | copies one whole block, or reports an error, or silently skips a block cut off by the end of the device |
| UpdateImg.CopyChunk | utils/update-img.c:214-222 | one chunk of the index is merged and counted |
| UpdateImg.UpdateImage | utils/update-img.c:85-228 | a file of another kind, series or period is refused and the image left alone, one that belongs is not refused; unmarked blocks are never touched, marked ones counted exactly; without errors every byte of a marked whole block comes from the snapshot and every other stays, which is all that is marked exactly if the partial last block is unmarked or unchanged |
| UpdateImg.WholeBlocks | utils/update-img.c:186-222 | on a device of whole blocks that is the merge of all marked blocks |
| UpdateImg.PartialTail | utils/update-img.c:36-38 | in general exactly if the partial last block is unmarked or unchanged |
| UpdateImg.MarkedTailStaysStale | utils/update-img.c:36-38 | on a device of one sector that is marked and has changed, every image an error-free walk can leave is the old one |
| Protocol.AnswerIsReadThrough | src/main.c:3820-3860 | an answer whose bytes were fetched at one instant is the simple read |
| Promises.DequeueKeepsWaiting | src/main.c:3376-3405 | unless a clone is overtaken for a block, the contents waiting for it stay the same |
| Promises.OvertakingPicksTheLater | src/main.c:3384-3396 | when one is, the later contents come first |
| Promises.OneBlockNeverOvertakes | src/main.c:3384-3396 | one-block clones never overtake each other for a block |
| Promises.ReadFindsNothingWaiting | src/main.c:3383-3398 | a read that leaves the queue touches no block with a waiting clone |
| TrackingProof.PromiseStored | src/main.c:4053-4063 | storing the clone in hand changes no block's promise |
| TrackingProof.LastReference | src/main.c:3465-3485 | when the last reference goes, every block of the write has been captured or queued |
| TrackingProof.IncrementCovers | src/main.c:4417-4480 | every block that an incremental write touches is marked or to be marked, or nothing in it had to be recorded |
| TrackingProof.TrackedKept | src/main.c:3963-4195 | every step keeps the device unchanged where nothing is captured, queued or recorded yet |
| Runs.ReachableInv | src/main.c:3963-4618 | every reachable state satisfies the protocol invariant, errors included |
| Runs.PeriodExplained | src/main.c:5706-5752 | at the next snapshot the period's marks explain every change of the device, up to exempt blocks |
| Periods.SnapshotsAreTheDevice | src/main.c:5706-5752 | in every run the snapshot of a period is the device at the instant the period began |
| Periods.BypassedExactly | src/main.c:4301-4471 | in every run the exempt blocks of a period are exactly those that one of its steps changes by nothing but pages of the COW file, or in incremental mode by such pages or a discard |
| Periods.NothingBypassed | src/main.c:4301-4471 | a run that writes no page of a COW file and discards nothing on a device holding one leaves no block exempt in any period |
| Periods.ClosedExactly | src/main.c:4105-4108 | the file that a step closes holds its period's marks exactly if the step misses none |
| Periods.ClosedFilesHoldMarks | src/main.c:5745-5751 | in every run a closed COW file holds only marks of its period, and all of them, sector sets still queued at the switch included, exactly if none was missed while closing |
| Marks.DueStep | src/main.c:3963-4480 | while the device has not failed a block comes to be captured, marked or on the way there exactly by a step that records it, and stays so |
| Marks.MarksAreExact | src/main.c:3946-4480 | in every run a block is marked for a finished period if and only if a write of that period got it captured or recorded |
| Reads.ReadIsAnsweredInFull | src/main.c:4037-4043 | a read that completes leaves exactly one answer, to itself, over its full range, and no other step answers anything |
| Reads.ReadsAreConserved | src/main.c:4001-4044 | in every run a read is queued, in hand, answered in full, or ended without an answer, as often as it arrived, and only a failure ends reads without one |
| Reads.FinishedReadsAreAnswered | src/main.c:4001-4044 | every read of a finished period was answered in full as often as it arrived, and the answers stay on record |
| Reads.FrozenForGood | src/main.c:4017-4049 | once a failure has been noticed nothing more is captured or answered |
| Accounting.ReleaseOrdering | src/main.c:3465-3485 | a write is released as it came in, for the first time, when none of its clones is outstanding, and unless the device failed all its blocks are captured or queued |
| Accounting.WritesAreConserved | src/main.c:4287-4486 | in every run a write that has arrived, traced, recorded or passed on, is in exactly one place: held by its record, queued, at the device, or completed |
| Accounting.TracedWritesAreReleasedOnce | src/main.c:3441-3485 | in every run a traced write still has its record and is not released, or it was put on the queue of originals exactly once and is on that queue, at the device or completed |
| Accounting.NothingIsHeldBack | src/main.c:3465-3485 | with no clone in flight and no write being cut into clones every traced write has been released |
| Accounting.OnlyTracedAreReleased | src/main.c:4332-4384 | only writes that some step of the run traced are released |
| Accounting.CloneConservation | src/main.c:4043-4063 | submitted clones are in flight, queued, in hand, processed or lost; equal counters mean none is outstanding |
| Accounting.ThreadMayStop | src/main.c:4007-4007 | the counters allow the COW thread to stop exactly if no clone is in flight and none was ever lost |
| Accounting.StuckAfterReadError | src/main.c:4188-4195 | once reading for a clone fails the counters never agree again, whatever follows |
| Isolation.IsolationKept | src/main.c:3998-4195 | every orderly step keeps captured, queued and fetched contents, and what queued reads will fetch, equal to the snapshot |
| Isolation.SnapshotIsolation | src/main.c:3761-4195 | in every orderly run each completed read of any period, also after the change to incremental mode, returns the device as it was at snapshot time, outside blocks that a step of the period changes untraced |
| Isolation.FirstCapture | src/main.c:3883-3930 | stored contents, and the first queued contents of a block not stored yet, are snapshot contents |
| Isolation.OneBlockRunsAreOrderly | src/main.c:3376-3405 | with one-block clones only the race with a released write has to be excluded |
| Exactness.DequeueExactlySafe | src/main.c:3376-3405 | a dequeue keeps promises right for all clone contents exactly if it overtakes nothing that is still needed |
| Exactness.OvertakingGoesWrong | src/main.c:3384-3396 | otherwise some contents of the very same requests go wrong |
| Exactness.WriteExactlyHarmless | src/main.c:3786-3796 | a device write leaves pending reads right for all data exactly if it misses the bytes that they still need |
| Exactness.ArrivalExactlyInTime | src/main.c:4584-4618 | a read that arrives while the queue is drained after the change to incremental mode finds snapshot contents in all possible contents of the device exactly if it is in time |
| Counterexamples.OvertakingGivesWrongAnswer | src/main.c:3384-3396 | an error-free run in which overtaking makes a completed read wrong |
| Counterexamples.RaceGivesWrongAnswer | src/main.c:3786-3796 | an error-free run in which a released write makes a completed read wrong |
| Counterexamples.SwitchGivesWrongAnswer | src/main.c:5648-5658 | an error-free run in which a write after the change to incremental mode makes a read left in the queue wrong |
| Counterexamples.MissedMarkGoesUnnoticed | src/main.c:4105-4108 | a run in which a mark fails after the switch and a closed file lacks the only changed block |
| Counterexamples.ReadErrorGetsStuck | src/main.c:4188-4195 | a run of a few steps after which the counters differ in every continuation |
| Cycles.ChangedBlocksAreMarked | src/main.c:5622-5752 | in every run a block that differs between two snapshots is marked, unless a step of that period changed it by pages of the COW file or a discard |
| Cycles.UpdaterMakesNextImage | utils/update-img.c:200-225 | merging by an index that marks what a closed file holds gives the next image |
| Cycles.NextImage | utils/update-img.c:180-228 | an error-free updater run with a file of the run, the image before it and the next copy leaves the next image; a file that does not belong is refused |
| Cycles.UpdateAfterPeriod | utils/update-img.c:180-228 | the file that a period on the real manager leaves is accepted for the next snapshot, and the update replaces exactly the blocks of its clones and sector sets |
| Cycles.IncrementalEqualsFull | utils/update-img.c:183-225 | after any number of cycles the updated image equals the snapshot outside blocks that steps of the run changed untraced, or whose mark was missed, and that no file has had marked since |
| Cycles.IncrementalEqualsFullEverywhere | utils/update-img.c:183-225 | if no step writes pages of the COW file or discards, and no mark was missed, it is equal byte for byte |
| Cycles.OnlyThePreviousFileIsAccepted | utils/update-img.c:92-111 | whatever its kind and uuid, a file is accepted exactly if both are as expected and it is the previous period's |
| Example.WholeCycle | utils/update-img.c:183-225 | a concrete orderly run with two snapshots that meets the hypotheses of the backup theorem, and its updated image |

## Left out

- Reloading at boot (`cow_reload`, src/main.c:2955-3012): the code does not set `has_data`, so there is no round trip to state.
- Writes handled while dormant (src/main.c:5420-5436): they change mappings after a clean header was written.
- Failed mode changes and their rollback (src/main.c:5698-5703, 5756-5764).
- Splitting oversized requests (src/main.c:4308-4327), which rests on block-layer functions.
- Obtaining the extent table (src/main.c:2730-2902); the table is an input.
- The path of allocation failures while tracing (src/main.c:3706-3715, 4386-4392).
- Kernel compatibility code, device and queue setup, ioctl plumbing, system-call hooks, `/proc` and netlink output, the command-line tool and the library.
- SnapIo.HandleRead: the base device is read at one instant here; reads that are served piecemeal are part of the protocol's steps.
- CowManagers.CowManager.OpenHeader: the variant that forgets the allocator flag (src/main.c:2639) is not modelled, because only reloading uses it.
- After a marking error that is noticed, the thread drops the section table that closing goes on to walk (src/main.c:4085-4090, 5751); the model stops at the removal of the file.
- Section mappings are values held in the section table, so page aliasing is not represented; the table itself is updated in place.
- Tracing.MakeClones: the interleaving of submission with completion is part of the protocol's steps, not of this method.
