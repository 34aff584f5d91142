# NCCL core and Opus control plane: a Dafny model

This project models the parts of the repository that decide correctness without any help from
CUDA or sockets, and proves what they are for. Each component is one module in a file of the
same name; `Arith` and `LinkedChains` hold shared mathematics (division, powers of two, pigeonhole,
index-linked chains).

| file | component | main results |
|---|---|---|
| `Space.dfy` | `ncclSpace`, an allocator whose state is a sorted `cuts[]` array | refines a set of occupied addresses over every run; complete first fit; canonical form, so alloc followed by free restores the array |
| `ShadowPool.dfy` | `ncclShadowPool`, hash table and slotted pages | refines a map from device to host objects through rehashing; page list is exact; every page freed once |
| `BootstrapRoot.dfy` | rank/root partition and `bootstrapRoot` | for any number of roots and any arrival order each rank gets exactly one message, with its successor's address |
| `DisseminationBarrier.dfy` | `bootstrapP2PBarrier` | safe for every number of ranks, never stuck |
| `RingAllGather.dfy` | simple and bidirectional ring all-gather | both end with every slice everywhere, in every interleaving |
| `P2pSchedule.dfy` | `ncclP2pSchedule` | the triangular walk is a permutation; every rank's send and receive peers are permutations and agree pairwise; the whole schedule in closed form; error exits unreachable |
| `ChannelSplit.dfy` | channel split of collectives | tiles the elements exactly, on 16-byte boundaries, within the channels; over a whole plan each channel's budget is filled before the next one is used |
| `WorkBatch.dfy`, `BatchPlacement.dfy` | work batches and their placement | what the device loads is exactly what was added, in order, in groups within the limits |
| `ProxyMerge.dfy` | merge of proxy ops | sorted interleaving that keeps every queue |
| `WorkFifo.dfy` | wrapping 32-bit work FIFO | no unreleased byte is overwritten, across wrap-around; exact condition for finding room |
| `PlanUpload.dfy` | a whole plan, from its works to the device | the m-th work a block loads is, word by word, the m-th work given to its channel, for all kinds of storage |
| `ProxyOpsPool.dfy` | op pool shared by clients and the progress thread | in every interleaving each op is in exactly one chain or lost, and it is known exactly when ops get lost; ops arrive in order; a client waits for ops it holds itself exactly when its post was refused |
| `ProxyProgress.dfy` | active list, per-connection chains and free pool of the progress thread | they partition all args; ops of a connection progress in append order |
| `ProxyDaemon.dfy` | op pool and progress lists together | from a client's append to completion, ops on a slot are done in order; a real refusal that loses ops |
| `CeSync.dfy`, `CeSyncExact.dfy`, `CeHost.dfy`, `CeStreams.dfy` | copy-engine synchronisation | barrier, no missed wait and no deadlock in every run if and only if consecutive syncs use different arrays and none awaits a stale value; which programs of captures and launches meet that; the prepared streams of operations are what the machine runs |
| `OpusController.dfy`, `LineReader.dfy` | rail controller, rail worker, line reassembly | one trigger per cohort; delta application equals overwriting; lines independent of chunking |
| `OpusSchedule.dfy` | schedule compiler | ranks agree on boundaries; same targets in both modes; stages are the maximal runs |

Protocols (bootstrap, barrier, all-gather, op pool, copy-engine sync) are state machines over their
messages, atomic accesses and lock-protected sections. Code that changes data in place is written as
classes and methods with loops, proved against specification functions.

## Where the code does not do what one might expect

- `ncclSpaceAlloc` compares with the limit only behind the last cut. An inner hole above the limit
  is used; `Space.LimitExceededIff` says exactly when, `Space.LimitExceededExample` gives an input.
- The copy-engine sync is not a barrier for every program. The sequence number and the choice of
  array advance when a collective is captured, not when its graph is launched.
  `CeSyncExact.SoundIffSafe` gives the exact condition on the executed syncs. Three programs that
  fail: the first direct collective leaves 1 in the ready array, which a captured one then awaits
  (`CeHost.FirstCaptureFails`); a graph of three syncs launched twice (`CeHost.OddGraphFails`, and
  `CeHost.OddCounts` for collectives with odd counts); an even graph, a collective of three syncs,
  and the graph again (`CeHost.EvenGraphFails`). The number of syncs also depends on whether a rank
  gathers in place (`CeHost.InPlaceAgreesIff`), and ranks that disagree cannot all finish
  (`CeHost.FinishIff`, `CeHost.InPlaceStuck`).
- All plans of a group are uploaded before the group's single `ncclLaunchFinish` records an event.
  Plans that pass the budget test one by one may not fit together, and then an upload never finds
  room: `WorkFifo.PlansInOneGroup`. In a small FIFO three plans suffice
  (`WorkFifo.ThreePlansInOneGroup`); in the default one of 1 MiB it takes at least five, because the 4 KiB of
  kernel arguments hold at most 254 batches of at most 1 KiB of work each.
  `WorkFifo.WorkQueue.WaitAvailable` gives the exact condition for one upload.
- A client whose pending ops all have one opCount is refused when all its ops are pending
  (`ProxyOpsPool.PartialPostOutcome`, with `ProxyOpsPool.RefusedRun` as a run); exactly then it would
  wait for ops it holds itself (`ProxyOpsPool.SelfWaitIff`).
- When `ProxyAppend` fails on an op, the ops drained before it in the same call end up in no chain
  and never come back. The same happens when the weak compare-and-swap that returns ops fails
  spuriously: it leaves the expected value unchanged, which the loop takes for success.
  `ProxyOpsPool.NothingLostIff` says that nothing else loses an op; `ProxyDaemon.LossyRun` (65 ops
  of one opCount on one shared slot) and `ProxyOpsPool.SpuriousRun` are runs.
- An op that `ProxyAppend` refuses because a compared field differs or the args already run has been
  added to these args before the test, and is offered again in the next call:
  `ProxyDaemon.RefusedStays`. Only without such refusals are the lists in step with the drained ops.
- A pipeline group number of 31 makes the topology id negative, and the rail worker then refuses it:
  part of `OpusController.Rail.HandleConfigReq`, with `OpusController.PipelineGroup31` as an input.

## Model

| member | source | states |
|---|---|---|
| `Space.FullInsertPair` | nccl/src/allocator.cc:149-164 | putting lo and hi into the sorted cuts toggles exactly the addresses of [lo,hi) |
| `Space.ScanKeep` | nccl/src/allocator.cc:175-192 | a cut that is kept by the compaction keeps every address's fullness |
| `Space.ScanDrop` | nccl/src/allocator.cc:175-192 | dropping an equal pair, or a zero at the start, keeps every address's fullness |
| `Space.CompactedMeaning` | nccl/src/allocator.cc:166-192 | the compaction yields positive, strictly increasing cuts with the same occupied set |
| `Space.CanonicalUnique` | nccl/src/allocator.cc:149-193 | canonical cuts with the same occupied set are the same array |
| `Space.InsertedToggles` | nccl/src/allocator.cc:149-193 | insertSegment as a whole toggles [lo,hi) and ends canonical |
| `Space.AddressSpace.InsertSegment` | nccl/src/allocator.cc:149-193 | the in-place array code (growth, shift, read and write cursors) computes the specified cuts |
| `Space.AddressSpace.FindSegment` | nccl/src/allocator.cc:199-219 | the scan finds the first empty segment that holds the aligned request, or shows that none does |
| `Space.AddressSpace.Alloc` | nccl/src/allocator.cc:195-220 | result is the least aligned offset that fits, disjoint from everything occupied; exactly old plus [start, off+size) is occupied after; None only if nothing fits, and then nothing changes |
| `Space.AllocMarks` | nccl/src/allocator.cc:206-214 | both the slow and the fast path mark exactly that interval, padding included on the fast path |
| `Space.AddressSpace.Free` | nccl/src/allocator.cc:222-249 | succeeds iff the interval is non-empty and wholly occupied, then removes exactly it; otherwise changes nothing |
| `Space.FreeTest` | nccl/src/allocator.cc:228-238 | the bounds test of the found segment decides whether the interval is wholly occupied |
| `Space.FreeUnmarks` | nccl/src/allocator.cc:240-247 | both fast paths and the slow path release exactly the interval |
| `Space.LimitExceededIff` | nccl/src/allocator.cc:203-207 | the result passes the limit iff nothing fits below it but something fits below the last cut |
| `Space.LimitExceededExample` | nccl/src/allocator.cc:203-207 | a concrete space and request whose result passes the limit |
| `Space.AllocIsStep` | nccl/src/allocator.cc:195-220 | what `Alloc` promises of a non-empty request is one step of the runs below |
| `Space.RunSafe` | nccl/src/allocator.cc:195-249 | over any run of allocs and frees, each with its own size, alignment and limit, live blocks stay disjoint, occupied and below the highest limit used, and the cuts canonical |
| `Space.RunExact` | nccl/src/allocator.cc:195-249 | when sizes are multiples of the alignments used, no padding is marked: the occupied set is the union of live blocks, and freeing all leaves no cuts |
| `Space.AllocFreeRestores` | nccl/src/allocator.cc:195-249 | an unpadded alloc followed by its free restores the identical cuts |
| `BootstrapRoot.Blocks` | nccl/src/bootstrap.cc:48-50 | the roots' blocks of ranks are consecutive and cover all ranks |
| `BootstrapRoot.Balanced` | nccl/src/bootstrap.cc:64-74 | blocks differ by at most one rank and the larger ones come first |
| `BootstrapRoot.RootOwns` | nccl/src/bootstrap.cc:53-62 | the root computed for a rank owns the rank |
| `BootstrapRoot.RootUnique` | nccl/src/bootstrap.cc:48-74 | no other root owns it |
| `BootstrapRoot.CheckInKeeps` | nccl/src/bootstrap.cc:331-355 | in any order of check-ins every pair of neighbours is either stored or already served, once and with the right data |
| `BootstrapRoot.SweepIsEmpty` | nccl/src/bootstrap.cc:361-371 | after all check-ins the final sweep has nothing left to send |
| `BootstrapRoot.SweepIs` | nccl/src/bootstrap.cc:361-371 | from any tables the sweep sends one message for each pair stored on both sides, in ascending order |
| `BootstrapRoot.RootServer.Receive` | nccl/src/bootstrap.cc:306-357 | one check-in, with its mismatch and double check-in errors, is the specified step |
| `BootstrapRoot.RootServer.SendRemaining` | nccl/src/bootstrap.cc:361-371 | the final loop sends exactly what the specification sweeps up |
| `BootstrapRoot.MailTarget` | nccl/src/bootstrap.cc:695-708 | each message of a rank lands at a valid place of the root it is sent to |
| `BootstrapRoot.MailInjective` | nccl/src/bootstrap.cc:695-708 | no two messages of the job land at the same place |
| `BootstrapRoot.MailSurjective` | nccl/src/bootstrap.cc:695-708 | every place of every root is filled by some message |
| `BootstrapRoot.RunInv` | nccl/src/bootstrap.cc:306-357 | the root invariant holds for all roots throughout every run |
| `BootstrapRoot.RingFormed` | nccl/src/bootstrap.cc:306-371 | when all messages have arrived each rank has been sent exactly one message, carrying the connect info of rank r+1 modulo nranks, and the sweeps are empty |
| `DisseminationBarrier.RoundPeers` | nccl/src/bootstrap.cc:1099-1104 | the peers of a round in the formulas of the original |
| `DisseminationBarrier.RunInv` | nccl/src/bootstrap.cc:1090-1106 | a rank in the round with mask m has heard from its predecessors within m, and messages in flight are accounted for |
| `DisseminationBarrier.BarrierSafe` | nccl/src/bootstrap.cc:1090-1106 | no rank returns before every rank has entered, for every number of ranks |
| `DisseminationBarrier.ReceivesOwnRound` | nccl/src/bootstrap.cc:1099-1104 | a receive takes the message of its own round |
| `DisseminationBarrier.NoDeadlock` | nccl/src/bootstrap.cc:1099-1104 | until all have returned some rank can go on |
| `RingAllGather.SimpleRing` | nccl/src/bootstrap.cc:1002-1018 | the simple ring uses one direction for all steps, a shape to which all results apply |
| `RingAllGather.DoubleRing` | nccl/src/bootstrap.cc:1033-1038 | the double ring takes half as many steps in both directions, a shape to which all results apply |
| `RingAllGather.SliceFormulas` | nccl/src/bootstrap.cc:1007-1008 | distances along the ring are the slice formulas of both all-gathers |
| `RingAllGather.FinalStepUnidirectional` | nccl/src/bootstrap.cc:1033-1038 | the second ring rests exactly in the last step of an even number of ranks |
| `RingAllGather.SendsHeldSlice` | nccl/src/bootstrap.cc:1036-1057 | every slice that is sent is already held |
| `RingAllGather.ReceivesMissingSlice` | nccl/src/bootstrap.cc:1036-1057 | every receive on the first ring fills a slice not yet held |
| `RingAllGather.ReceivesMissingSliceLeft` | nccl/src/bootstrap.cc:1042-1057 | the same on the second ring, so that every missing slice is received once |
| `RingAllGather.StepSlicesApart` | nccl/src/bootstrap.cc:1036-1057 | the slices of concurrent sends and receives of one step differ wherever one is written |
| `RingAllGather.RunInv` | nccl/src/bootstrap.cc:992-1062 | buffers and streams hold the right slices throughout every interleaving |
| `RingAllGather.AllGathered` | nccl/src/bootstrap.cc:992-1062 | a finished rank holds all slices, the same for the simple and the double ring |
| `RingAllGather.NoDeadlock` | nccl/src/bootstrap.cc:992-1062 | until all have finished some transfer can happen |
| `P2pSchedule.TriInjective` | nccl/src/init.cc:808-828 | triangular numbers are distinct modulo a power of two |
| `P2pSchedule.WalkPermutes` | nccl/src/init.cc:806-828 | the filtered walk visits every group distance exactly once |
| `P2pSchedule.DeltasWalk` | nccl/src/init.cc:806-830 | the accepted distances are the triangular numbers below the number of groups, in walk order |
| `P2pSchedule.Gcd` | nccl/src/init.cc:774-774 | the greatest common divisor, by its divisors |
| `P2pSchedule.GroupSize` | nccl/src/init.cc:771-776 | the greatest common divisor of all nodes' numbers of ranks and the parameter (several nodes) or the largest node (one node) |
| `P2pSchedule.WholeStart` | nccl/src/init.cc:771-776 | when it divides the ranks of every node, the group size is the parameter itself |
| `P2pSchedule.BuildGroups` | nccl/src/init.cc:786-803 | the group tables list every group of every node and the rank's own group |
| `P2pSchedule.EmitDistance` | nccl/src/init.cc:813-825 | the rounds emitted for one group distance |
| `P2pSchedule.EmitRounds` | nccl/src/init.cc:806-828 | the whole walk emits the rounds of all accepted distances in order |
| `P2pSchedule.Schedule` | nccl/src/init.cc:768-837 | never fails; every rank is the send and the receive peer of exactly one round; group size, order of group distances (k(k+1)/2 modulo the least power of two) and both peers of every round in closed form |
| `P2pSchedule.SendRecvAgree` | nccl/src/init.cc:814-822 | in every round a sends to b iff b receives from a |
| `P2pSchedule.SendsToEveryone` | nccl/src/init.cc:806-828 | every rank is the send peer of exactly one round |
| `P2pSchedule.ReceivesFromEveryone` | nccl/src/init.cc:806-828 | every rank is the receive peer of exactly one round |
| `P2pSchedule.FindRound` | nccl/src/enqueue.cc:2420-2424 | the search for the round of a peer ends at that round |
| `ShadowPool.PageSlots` | nccl/src/allocator.cc:373-383 | a new page has 2 to 64 slots, each large enough |
| `ShadowPool.PagedIff` | nccl/src/allocator.cc:373-373 | sizes up to a third of 64 KiB are paged |
| `ShadowPool.ObjSizeIs` | nccl/src/allocator.cc:374-375 | the object size is the least multiple of the right power of two not below the size, with four significant bits |
| `ShadowPool.SlotsFill` | nccl/src/allocator.cc:380-383 | the slots fill the page's memory up to less than one object |
| `ShadowPool.InsertKeeps` | nccl/src/allocator.cc:322-326 | inserting into a bucket adds exactly one entry to the map |
| `ShadowPool.RemoveKeeps` | nccl/src/allocator.cc:431-432 | unlinking an object removes exactly its entry |
| `ShadowPool.Rehash` | nccl/src/allocator.cc:352-369 | the table of twice the size holds the same map |
| `ShadowPool.FindInBucket` | nccl/src/allocator.cc:421-430 | the walk finds the object iff the map has it |
| `ShadowPool.Pool.Alloc` | nccl/src/allocator.cc:328-416 | a fresh device object is added to the map, in a page iff three of its size fit into 64 KiB, and then inside the page's memory in a slot of its rounded size; nothing for size zero; at most two objects per bucket |
| `ShadowPool.Pool.Reserve` | nccl/src/allocator.cc:339-367 | the table is made with 16 buckets and doubled exactly before it would hold more than two objects per bucket |
| `ShadowPool.Pool.ObjectsApart` | nccl/src/allocator.cc:390-392 | live objects of one page lie inside its memory and do not overlap |
| `ShadowPool.Pool.OfferingPage` | nccl/src/allocator.cc:376-397 | the first page of the list with the right object size; a page is created, at the head of the list, only if there is none |
| `ShadowPool.Pool.TakeSlot` | nccl/src/allocator.cc:390-395 | the lowest free slot is taken, and a page that becomes full leaves the list |
| `ShadowPool.Pool.Free` | nccl/src/allocator.cc:418-446 | removes exactly the object, or fails iff it is not live and changes nothing |
| `ShadowPool.Pool.ToHost` | nccl/src/allocator.cc:448-466 | the host object of the map, or an error |
| `ShadowPool.GiveKeeps` | nccl/src/allocator.cc:433-439 | a freed slot becomes free, and a full page returns to the list |
| `ShadowPool.Pool.RelistFullPages` | nccl/src/allocator.cc:279-298 | after the walk over all objects the list holds every page once |
| `ShadowPool.Pool.Destruct` | nccl/src/allocator.cc:274-313 | every page and every separate allocation is freed exactly once |
| `ChannelSplit.CellsCover` | nccl/src/enqueue.cc:601-603 | the cells cover the elements and the last cell is not empty |
| `ChannelSplit.CellSizeLeast` | nccl/src/enqueue.cc:601-602 | a cell is the least multiple of 16 bytes with at least 16K traffic |
| `ChannelSplit.FirstCells` | nccl/src/enqueue.cc:599-612 | the first channel gets just enough cells to fill its budget, or all on the last channel; no underflow |
| `ChannelSplit.SpreadRest` | nccl/src/enqueue.cc:613-620 | full channels hold the budgeted cells; when channels run out the rest is spread evenly over all that are left |
| `ChannelSplit.SplitCells` | nccl/src/enqueue.cc:613-624 | lo, mid and hi cells add up, mid channels are followed by a hi channel, and the channels suffice |
| `ChannelSplit.Counts` | nccl/src/enqueue.cc:630-649 | element counts tile the collective, with the slack of the last cell cut off at the end |
| `ChannelSplit.Advance` | nccl/src/enqueue.cc:672-686 | the next channel and its traffic: a channel whose budget is used up is left |
| `ChannelSplit.SplitTask` | nccl/src/enqueue.cc:598-677 | the split of one task is determined: the first channel is filled up to the budget, full channels and a rest follow, or an even spread when channels run out; it tiles the elements exactly |
| `ChannelSplit.TrafficIs` | nccl/src/enqueue.cc:604-605 | traffic is counted by whole cells |
| `ChannelSplit.Spills` | nccl/src/enqueue.cc:607-612 | a task that does not fit into what is left of a channel goes on to the next one |
| `ChannelSplit.ChannelsAbut` | nccl/src/enqueue.cc:688-703 | offsets and sizes of consecutive channels leave no gap and no overlap, from 0 to the count |
| `ChannelSplit.ChannelsAligned` | nccl/src/enqueue.cc:601-633 | every channel starts on a 16-byte boundary |
| `ChannelSplit.Estimate` | nccl/src/enqueue.cc:530-548 | the tasks from the front that pass the budget test, and for each kind the sum of their traffic (at least 16K each) and of their channels, capped |
| `ChannelSplit.SchedulePlan` | nccl/src/enqueue.cc:550-686 | all tasks of a plan are split with the budget of their kind, the average traffic per channel or 16K; each starts where the ones before it leave room, and channels are left when their budget is used up |
| `WorkBatch.NthSetBit` | nccl/src/device/common.h:138-155 | counting set bits below a set bit gives the place of its work |
| `WorkBatch.RefusesIff` | nccl/src/enqueue.cc:117-141 | a new batch is started iff fusing would break a limit |
| `WorkBatch.CountP2pIs` | nccl/src/enqueue.cc:167-169 | the counter is the number of fused p2p batches |
| `WorkBatch.LoadNewBatch` | nccl/src/device/common.h:130-240 | a batch that does not extend is loaded as a group of its own |
| `WorkBatch.LoadLastReplaced` | nccl/src/device/common.h:130-240 | changing the last batch so that it loads one more work adds that work to the last group only |
| `WorkBatch.WipChannel.NeedsNewBatch` | nccl/src/enqueue.cc:117-141 | the test, with its loop over p2p rounds, is the specified condition |
| `WorkBatch.WipChannel.AddWork` | nccl/src/enqueue.cc:110-180 | decoding the channel's batches gives exactly the works added, in order, in greedily fused groups within all limits; a batch is added iff the work starts a group or no bit of the last batch stands for its offset |
| `BatchPlacement.RunFollows` | nccl/src/device/common.h:226-240 | following jump links loads what the channel's list loads |
| `BatchPlacement.PlaceOne` | nccl/src/enqueue.cc:213-220 | linking one more batch keeps all channels' chains |
| `BatchPlacement.FinishPlan` | nccl/src/enqueue.cc:202-225 | from slot n the device loads exactly the batches of the n-th channel, and the array holds no others |
| `ProxyMerge.KeyOrder` | nccl/src/enqueue.cc:246-247 | the rotated key orders collectives before p2p ops and by opCount within each |
| `ProxyMerge.LeastHead` | nccl/src/enqueue.cc:241-249 | the scan finds the first channel with the least key, or none iff all heads are the mark |
| `ProxyMerge.ScanHeads` | nccl/src/enqueue.cc:227-238 | heads, number of heads and upper bound are right |
| `ProxyMerge.Merge` | nccl/src/enqueue.cc:227-255 | terminates; every queue appears in its own order and nothing else does; sorted by key, ties by channel |
| `ProxyMerge.MergedOrder` | nccl/src/enqueue.cc:239-255 | all collectives precede all p2p ops, each sort in opCount order |
| `WorkFifo.PlanWithinBudget` | nccl/src/enqueue.cc:275-284 | a plan that passed the budget test has its work in the kernel arguments, in at most half the FIFO, or in a buffer of its own of at most 2^30 bytes |
| `WorkFifo.BudgetIff` | nccl/src/enqueue.cc:275-284 | the test admits exactly the plans that fit: all in the kernel arguments, or the batches there and the work outside |
| `WorkFifo.RoomTest` | nccl/src/enqueue.cc:1122-1128 | the test on wrapped counters is the test on true positions |
| `WorkFifo.WorkQueue.WaitAvailable` | nccl/src/enqueue.cc:1122-1133 | returns iff what was written since the last recorded event leaves room |
| `WorkFifo.WorkQueue.Upload` | nccl/src/enqueue.cc:1166-1172 | the work is appended at the returned wrapped position; unconsumed bytes never exceed the FIFO and no unreleased chunk is overwritten |
| `WorkFifo.KeptPush` | nccl/src/enqueue.cc:1204-1211 | a masked write hits no slot of an unreleased chunk |
| `WorkFifo.WorkQueue.PollCallback` | nccl/src/enqueue.cc:1680-1688 | the oldest callback releases up to its recorded position |
| `WorkFifo.WorkQueue.LaunchFinish` | nccl/src/enqueue.cc:1703-1713 | an event is recorded iff more than an eighth of the FIFO is unrecorded, so any single plan within the budget finds room afterwards |
| `WorkFifo.WorkQueue.DeviceReads` | nccl/src/device/common.h:216-219 | masked reads behind a wrapped position give the chunks uploaded there until they are released |
| `WorkFifo.ThreePlansInOneGroup` | nccl/src/group.cc:288-320 | three plans of half the FIFO in one group: the third never finds room |
| `WorkFifo.PlansInOneGroup` | nccl/src/group.cc:288-320 | of the plans of one group exactly as many find room as fit into the FIFO together |
| `PlanUpload.ChunkPlace` | nccl/src/enqueue.cc:1199-1215 | a work lies in the uploaded chunks at the byte count at which it was added |
| `PlanUpload.GivenExact` | nccl/src/enqueue.cc:587-597 | the works of a channel are exactly those whose channels include it, each once, in the order of the plan |
| `PlanUpload.AddItem` | nccl/src/enqueue.cc:587-597 | a work is added to each of its channels at the plan's running byte count, and to no other |
| `PlanUpload.BuildPlan` | nccl/src/enqueue.cc:550-776 | the batches of each channel in the mask load exactly the works given to it, in order |
| `PlanUpload.Rebase` | nccl/src/enqueue.cc:1188-1197 | every batch's base is moved by the cursor, modulo 2^32 |
| `PlanUpload.RunRebased` | nccl/src/device/common.h:130-240 | rebasing moves every offset that the device loads by the same amount and changes nothing else |
| `PlanUpload.PlaceBatches` | nccl/src/enqueue.cc:200-225 | following the jumps from slot n, the m-th work loaded is the m-th one given to the n-th channel, at its place in the plan |
| `PlanUpload.FifoReads` | nccl/src/device/common.h:216-219 | in every later state of the FIFO, the m-th work that a block loads reads, through the mask, the chunks of the m-th work given to its channel, as long as that work is not released |
| `PlanUpload.LinearReads` | nccl/src/device/common.h:213-219 | the same for work in the kernel arguments and in a buffer of the plan's own |
| `PlanUpload.UploadWork` | nccl/src/enqueue.cc:1151-1218 | for all three kinds of storage the uploaded plan reads back block by block and work by work; the FIFO upload is stuck iff there is no room |
| `ProxyOpsPool.InitPool` | nccl/src/proxy.cc:1371-1375 | the initial free chains and heads |
| `ProxyOpsPool.FindCut` | nccl/src/proxy.cc:516-534 | where a full pending chain is cut; refused iff all ops have one opCount |
| `ProxyOpsPool.StepKeeps` | nccl/src/proxy.cc:468-544 | every step of every client and of the progress thread, failing or not, keeps partition, links, counts and order |
| `ProxyOpsPool.RunRep` | nccl/src/proxy.cc:780-853 | hence they hold at every point of every interleaving |
| `ProxyOpsPool.EachOpInOneChain` | nccl/src/proxy.cc:468-544 | each op index lies in exactly one chain, at one position, where the head variables reach it, or is lost |
| `ProxyOpsPool.OwnerDetermined` | nccl/src/proxy.cc:780-853 | the program's variables determine the chain of every op, and which ops are lost |
| `ProxyOpsPool.NothingLostIff` | nccl/src/proxy.cc:813-854 | no op is lost iff no call of the progress thread failed on an op after draining another one and no weak compare-and-swap failed spuriously |
| `ProxyOpsPool.SpuriousRun` | nccl/src/proxy.cc:840-854 | a run in which a spurious failure of the swap ends the loop and loses the op |
| `ProxyOpsPool.CallReturns` | nccl/src/proxy.cc:780-853 | from wherever the progress thread is in its call, also after a failure, its own steps lead to the return |
| `ProxyOpsPool.ProcessedInOrder` | nccl/src/proxy.cc:817-838 | each client's ops reach ProxyAppend in append order |
| `ProxyOpsPool.NoSelfWait` | nccl/src/proxy.cc:489-505 | a client that waits for a free op, no post of it having been refused, has an op outside its own chains |
| `ProxyOpsPool.SelfWaitIff` | nccl/src/proxy.cc:489-541 | a waiting client holds all its ops itself iff its last full post was refused |
| `ProxyOpsPool.PartialPostOutcome` | nccl/src/proxy.cc:516-541 | posting a full chain fails iff all ops have one opCount; otherwise no group of equal opCounts is split |
| `ProxyOpsPool.RefusedRun` | nccl/src/proxy.cc:516-541 | 2048 ops of one opCount, appended one after the other, end in the refusal, for every opCount |
| `ProxyProgress.ProgressState.AllocateArgs` | nccl/src/proxy.cc:201-225 | args come from the head of the pool, which is refilled when empty |
| `ProxyProgress.ProgressState.AddSub` | nccl/src/proxy.cc:359-429 | aggregation appends a sub, with the bounds, mismatch and running errors |
| `ProxyProgress.ProgressState.ProxyAppend` | nccl/src/proxy.cc:431-466 | an op is aggregated or gets args at the end of its chain, which become active iff the chain was empty; it is refused iff it would be aggregated with full, different or running args, and is added to its slot unless these are full |
| `ProxyProgress.ProgressState.RemoveOp` | nccl/src/proxy.cc:722-752 | the args return to the pool and the next ones of the chain take their place in the active list |
| `ProxyProgress.ProgressState.ProgressOps` | nccl/src/proxy.cc:754-776 | one pass: exact effect on the active list, on every chain and on the completed ops; the status is the first error, and the visited args that stay are running |
| `ProxyProgress.ProgressedInOrder` | nccl/src/proxy.cc:431-466 | whatever is active is the oldest unfinished args of its slot, holding the next ops the slot was given |
| `ProxyProgress.ArgsPartition` | nccl/src/proxy.cc:722-752 | pool, active list and chain rests partition all args, and each slot points to the last of its chain |
| `ProxyDaemon.Daemon.DrainOne` | nccl/src/proxy.cc:813-838 | the drain loop goes on iff `ProxyAppend` accepts the op; accepted ops are in the lists in the order in which they were drained |
| `ProxyDaemon.Daemon.Pass` | nccl/src/proxy.cc:960-967 | a pass keeps the connection between pool and lists |
| `ProxyDaemon.Daemon.DoneInOrder` | nccl/src/proxy.cc:780-853 | from the client's append to completion: the ops done on a client's slot are a first part of those the client appended for it, in order, as long as no refused op was left in the lists |
| `ProxyDaemon.LossyRun` | nccl/src/proxy.cc:359-364 | 65 ops of one opCount on one shared slot: the last is refused, and drained ops are lost |
| `ProxyDaemon.RefusedStays` | nccl/src/proxy.cc:386-406 | an op that is refused because a field differs has been added to the args all the same |
| `CeSync.StepKeeps` | nccl/src/ce_coll.cc:146-226 | for a safe script every memory operation keeps: a wait is passed only after its write, and flags hold the expected value |
| `CeSync.SeesStale` | nccl/src/ce_coll.cc:173-182 | before it is written, the awaited flag holds what the last sync on its array left there |
| `CeSync.SeesValue` | nccl/src/ce_coll.cc:173-182 | a flag that has been written keeps the awaited value until it is seen |
| `CeSync.BarrierSafe` | nccl/src/ce_coll.cc:101-235 | for a safe script no rank finishes sync k before all have issued it, and ranks stay within one sync |
| `CeSync.WaitNeverMissed` | nccl/src/ce_coll.cc:173-182 | for a safe script a wait whose flag has been written can be passed |
| `CeSync.NoDeadlock` | nccl/src/ce_coll.cc:191-235 | for a safe script some rank can always go on |
| `CeSyncExact.LockStep` | nccl/src/ce_coll.cc:191-235 | for every script all ranks can reach every sync together, with the flags that the syncs before it leave |
| `CeSyncExact.StaleBreaksBarrier` | nccl/src/ce_coll.cc:191-235 | a sync that awaits what its array already holds lets a rank through early |
| `CeSyncExact.OverwriteDeadlocks` | nccl/src/ce_coll.cc:173-182 | two consecutive syncs on one array with different values: a flag is overwritten before it is seen, and all ranks are stuck |
| `CeSyncExact.EraseMisses` | nccl/src/ce_coll.cc:212-222 | a sync that resets its array, followed by one on the same array: a flag is erased before it is seen |
| `CeSyncExact.EraseDeadlocks` | nccl/src/ce_coll.cc:212-222 | and then all ranks are stuck, unless the sync after that is unsafe itself |
| `CeSyncExact.SoundIffSafe` | nccl/src/ce_coll.cc:101-235 | barrier, no missed wait and no deadlock in every run iff consecutive syncs use different arrays and no sync awaits its stale value |
| `CeHost.CeColl.MemOpSync` | nccl/src/ce_coll.cc:191-235 | the k-th call yields the writes, waits and resets of sync k, alternating arrays, within the allocated space |
| `CeHost.PrepWrites` | nccl/src/ce_coll.cc:157-171 | the write operations of the unicast variant |
| `CeHost.PrepWaits` | nccl/src/ce_coll.cc:173-182 | the wait operations for all other ranks |
| `CeHost.PrepResets` | nccl/src/ce_coll.cc:212-222 | the reset operations, during capture only |
| `CeHost.StepExecutes` | nccl/src/ce_coll.cc:224-225 | the state machine executes these operations one by one |
| `CeStreams.SyncOpsAre` | nccl/src/ce_coll.cc:157-225 | the prepared operations are, in this order, the writes, the waits and the resets that the state machine performs in one sync |
| `CeStreams.VisibleStep` | nccl/src/ce_coll.cc:224-225 | a step of the machine executes the head of the rank's stream under the same condition and with the same effect |
| `CeStreams.RunIsStreamRun` | nccl/src/ce_coll.cc:191-235 | every run of the machine is an execution of the streams |
| `CeStreams.StreamRunIsRun` | nccl/src/ce_coll.cc:191-235 | every execution of the streams is a run of the machine |
| `CeStreams.StreamsFinish` | nccl/src/ce_coll.cc:191-235 | the streams of all ranks can be executed to the end |
| `CeStreams.StreamsGoOn` | nccl/src/ce_coll.cc:191-235 | for a safe script they never get stuck, in whatever order operations are executed |
| `CeStreams.EagerStreamsGoOn` | nccl/src/ce_coll.cc:191-235 | the same for the streams of any number of direct collectives |
| `CeStreams.Enqueue` | nccl/src/ce_coll.cc:191-235 | what successive calls enqueue on a rank is its stream |
| `CeHost.LaunchBatchOps` | nccl/src/ce_coll.cc:284-302 | the number of syncs that the copy loop issues |
| `CeHost.OddCounts` | nccl/src/ce_coll.cc:387-415 | a large all-gather on 16, 32 or 64 ranks issues 3, 5 or 9 syncs |
| `CeHost.ProgramSoundIff` | nccl/src/ce_coll.cc:107-113 | any program of direct collectives, captures and launches works in every run iff the script it executes is safe |
| `CeHost.MixedModes` | nccl/src/ce_coll.cc:107-113 | when captured syncs run once and in call order: safe iff no sync clashes with the one two before, across wrap-around |
| `CeHost.EagerProgramSound` | nccl/src/ce_coll.cc:107-113 | programs without graphs work in every run |
| `CeHost.CapturedSafeIff` | nccl/src/ce_coll.cc:211-228 | only captured syncs: safe iff they alternate |
| `CeHost.ReplayProgramSoundIff` | nccl/src/ce_coll.cc:211-228 | one graph launched repeatedly works iff it has an even number of syncs or runs once |
| `CeHost.WithinBefore` | nccl/src/ce_coll.cc:191-235 | progress never goes back, so a run that ends within the ranks' own numbers of syncs consists of such steps only |
| `CeHost.FinishIff` | nccl/src/ce_coll.cc:173-182 | when ranks issue different numbers of syncs of a safe script, all can finish iff the numbers are equal |
| `CeHost.ShortRankBlocks` | nccl/src/ce_coll.cc:173-182 | in no run does a rank get past the last sync of the rank that issues fewest |
| `CeHost.EagerFinishIff` | nccl/src/ce_coll.cc:173-182 | the same for collectives run directly, whatever their number |
| `CeHost.InPlaceAgreesIff` | nccl/src/ce_coll.cc:389-409 | when a rank that gathers in place issues as many syncs as the others |
| `CeHost.InPlaceStuck` | nccl/src/ce_coll.cc:389-409 | nine ranks, one of them in place: the others are stuck in their third sync |
| `CeHost.FirstCaptureFails` | nccl/src/ce_coll.cc:154-158 | a captured collective after the first direct one is no barrier |
| `CeHost.OddGraphFails` | nccl/src/ce_coll.cc:211-228 | a graph of three syncs launched twice can end with all ranks stuck |
| `CeHost.EvenGraphFails` | nccl/src/ce_coll.cc:211-228 | an even graph, a collective of three syncs, the graph again: a flag is missed and all ranks are stuck |
| `OpusController.RuntimeTopoMeaning` | src/opus-controller/controller.cpp:536-571 | which bits an update sets or clears, and that all others stay |
| `OpusController.ThrownIff` | src/opus-controller/controller.cpp:536-571 | which requests are rejected: a pipeline group other than that of the counter, or a negative stage |
| `OpusController.BitIs` | src/opus-controller/controller.cpp:536-555 | bit i is the binary digit of weight 2^i |
| `OpusController.StatesNumber` | src/opus-controller/config.py:135-137 | the worker's 64 states are the binary digits of the topology, most significant first |
| `OpusController.TriggerBounds` | src/opus-controller/controller.cpp:573-581 | whatever cohort sizes the requests of a key expect, each trigger stands for at least the least and at most the largest of them |
| `OpusController.OneTriggerPerCohort` | src/opus-controller/controller.cpp:573-581 | when they agree, after a requests there have been a divided by the cohort size triggers |
| `OpusController.Rail.Arrive` | src/opus-controller/controller.cpp:613-642 | a request completes its cohort iff it brings the count to the size it expects, and every key keeps its own tally |
| `OpusController.Rail.WorkerApply` | src/opus-controller/config.py:119-173 | applying the changed bits equals overwriting all; same and negative topologies change nothing |
| `OpusController.Rail.HandleConfigReq` | src/opus-controller/controller.cpp:584-673 | outcome for every request: two requests complete a pipeline cohort and the communicator's size any other; which requests are rejected, which bits change; when acknowledged, the worker's states spell the topology |
| `OpusController.PipelineGroup31` | src/opus-controller/controller.cpp:536-545 | the complete cohort of pipeline group 31 is refused |
| `LineReader.Chunks` | src/opus-controller/controller.cpp:756-767 | lines and rest do not depend on how the stream is cut |
| `LineReader.SentLinesReceived` | src/opus-controller/controller.cpp:758-767 | lines are received as sent |
| `LineReader.CarriageReturnDropped` | src/opus-controller/controller.cpp:758-767 | a carriage return in front of a newline is dropped, and nothing else |
| `LineReader.Connection.Receive` | src/opus-controller/controller.cpp:739-768 | the lines passed on so far are those of the stream so far |
| `OpusSchedule.Transitions` | scripts/compile_opus_schedule.py:40-52 | one transition for each change of kind, in order; with provisioning the event before triggers it, unless it is of another iteration |
| `OpusSchedule.TransitionKeys` | scripts/compile_opus_schedule.py:55-64 | exactly the keys at which some trace changes kind |
| `OpusSchedule.SynchronizedTransitions` | scripts/compile_opus_schedule.py:67-79 | one transition for each event whose key is a boundary, in order, with the same triggers |
| `OpusSchedule.RanksAgree` | scripts/compile_opus_schedule.py:55-79 | a rank emits an event iff its key is a boundary of any rank |
| `OpusSchedule.OwnChangesEmitted` | scripts/compile_opus_schedule.py:40-79 | a rank's own changes of kind are among its synchronized transitions |
| `OpusSchedule.SameTargets` | scripts/compile_opus_schedule.py:67-79 | baseline and provisioning emit the same targets in the same order, with triggers in the target's iteration |
| `OpusSchedule.LegacyStages` | scripts/compile_opus_schedule.py:82-96 | stages are the maximal runs of one kind and concatenate to the trace |

## Left out

- CUDA calls, streams, events, graph capture and kernel launch: foreign code; an event's completion is the step that runs its callback.
- Sockets, shared memory, RPC polling and thread life cycle: only the messages and list steps are kept; message delivery is a step.
- Integer overflow of `size_t` and `int` values other than the work FIFO counters, the proxy-op keys, the sequence numbers and the topology pattern.
- Space: sizes and offsets are unbounded and requests are not negative; destruction of the space is not modelled.
- P2pSchedule.GroupSize: a group-size parameter of zero or less, by which the original divides, is excluded.
- P2pSchedule.Schedule: the same.
- P2pSchedule: the peer-to-round search is modelled for peers of the communicator, as its callers ensure.
- BootstrapRoot.RootServer.Receive: a rank outside the root's places, which the original uses as an index unchecked, is not modelled.
- BootstrapRoot: mismatching check-ins and double check-ins end the root with an error in `Receive`; runs over all ranks assume each rank checks in once with non-zero addresses and 1 <= nRoots <= nRanks.
- ProxyOpsPool: the batch limit of the drain loop is any point at which the loop may stop; an op may fail at any time, whatever `ProxyAppend` finds wrong with it.
- ProxyProgress: pointers are indices into the memory allocated so far; the progress call is a parameter; the idle flag is not modelled.
- ProxyProgress.ProgressState.ProgressOps: the exit on args in state none, which are removed in the visit that sets this state, is not modelled.
- ProxyDaemon: a missing connection, which ends the drain loop like a refused op, is not among the causes of a failure there.
- CeHost.ProgramSoundIff: all ranks run the same program with the same number of syncs; `CeHost.FinishIff` covers direct collectives for which they do not.
- CeHost.EagerProgramSound: likewise, all ranks gather in place or none does.
- CeSync, CeHost: the copies between syncs are not modelled; a graph is captured from collectives of one communicator and launched as a whole.
- ChannelSplit: collnet tasks, chunk sizes and proxy ops built from the split; the budget tests are parameters.
- WorkBatch: sizes of the three work structs are parameters, positive and at most 1024 bytes; the shared-memory copy by threads is reduced to the list of offsets it loads.
- PlanUpload: a work goes to its channels in ascending order, which makes no difference to any channel; the bytes of header and batches in front of the works in the kernel arguments are not given values; the asynchronous copy of a persistent buffer to the device is immediate.
- BatchPlacement: the 14-bit width of `nextJump`, which the budget for kernel arguments keeps far from its limit.
- ProxyMerge: that the planner enqueues each channel's ops in key order is a premise.
- ShadowPool.Pool.Free: a pointer given to a pool never allocated from, which the original looks up in a table that does not exist, is not modelled.
- ShadowPool.Pool.ToHost: the same.
- ShadowPool: device addresses are page slots or allocations provided by CUDA, fresh when handed out; the hash function is a parameter; stream-ordered freeing is immediate.
- OpusController: requests are handled one at a time per rail; registration of communicators, address lists and the emulated delay are parameters or dropped.
- OpusController.Rail.HandleConfigReq: stages of 32 or more shift beyond the width of the topology, which is undefined in the original, and are excluded.
- OpusSchedule: reading and writing of CSV files and `legacy_counter`.
- The planner's algorithm choice and cost tables, symmetric kernels, GIN, windows and teams, plugin and transport code, ASTRA-sim, training scripts.
