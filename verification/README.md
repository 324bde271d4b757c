# Block layer: flushes, throttling, schedulers, merging, completion

This project models the parts of the Linux 3.18 block layer (and the number encoders of process accounting) where
correctness depends on many operations together, and proves what they promise.

Each component has a specification: value states, step functions and an invariant, with lemmas over every step and every
run. Where the source updates objects in place, a class beside it has the same fields; its methods carry the source's
loops and are proved to do what the specification does. The source's BUG_ON() and WARN_ON() conditions are preconditions
that every modelled caller meets, or assertions.

| modules | source | subject |
|---|---|---|
| Flush, FlushInvariant, FlushRuns, FlushNeeds, FlushQueue | kernel/block/blk-flush.c | sequencing of PREFLUSH, DATA, POSTFLUSH over shared flushes |
| ThrottleRate, ThrottleSlices, ThrottleGroup, ThrottleMeters | kernel/block/blk-throttle.c | slices, limits, waiting times |
| ThrottleTree, ThrottleTurns, ThrottleDrain, ThrottleDispatch, ThrottleLending, ThrottleRuns | kernel/block/blk-throttle.c | queueing, dispatch rounds and draining through the hierarchy |
| Deadline, DeadlineBound, DeadlineOrder, DeadlineMerge, DeadlineData | kernel/block/deadline-iosched.c | bounded waiting, order of dispatch |
| CfqCoop, CfqJoin, CfqData | kernel/block/cfq-iosched.c | cooperating queues: links, reference counts, who shares a queue |
| CfqGroups, CfqShares, CfqExact, CfqGroupTree, CfqGroupRuns | kernel/block/cfq-iosched.c | group weights and shares |
| ScatterGather | kernel/block/blk-merge.c | segment counting and mapping |
| Elevator, ElevatorQueue | kernel/block/elevator.c, blk-core.c, blk-merge.c | merging and the back-merge hash |
| BioChain, BioChainRaces, BioChainLoss | kernel/block/bio.c | chained bios |
| Completion | kernel/block/blk-core.c | partial completion |
| Tags, TagRaces, TagTight | kernel/block/blk-mq-tag.c | bitmap tags, alone and with searches racing |
| Blkg, BlkgRuns, BlkgIndex | kernel/block/blk-cgroup.c | the cgroup-queue index |
| Discard | kernel/block/blk-lib.c | splitting discards, waiting for a batch |
| Acct | kernel/acct.c | comp_t, comp2_t and binary32 encoders |
| Basics, Arith, Lists | | shared definitions; quotients and products; sequences as linked lists |

Conventions: time is a number of jiffies and does not wrap; counters and sizes are unbounded unless a limit is written
out; locks make a locked region one step; memory allocation, scheduler decisions, limits and flags that the modelled code
only consults are parameters, so that every answer is covered.

Three promises turned out not to hold as stated, and the model says exactly when they do:

- The byte test's waiting time can be one jiffy short (`ThrottleRate.BytesWaitCanFallShort`, `BytesWaitExact`).
- An io context that leaves its queue drops a reference along the whole chain behind it; a cgroup move drops only the first
  (`CfqCoop.ReferenceCanLeak`, `ChangeCgroupExact`).
- An error of a chained bio can be lost when its completion runs between another one's test of BIO_UPTODATE and its
  decrement (`BioChainRaces.ErrorCanBeLost`). On every chain, the outcomes that no interleaving reports wrongly are exactly
  those in which all bios fail or none does (`BioChainLoss.ReliableExact`). Nothing is lost when completions do not overlap
  (`BioChain.RootEndsOnce`), nor when no completion finishes a bio without error while the flag is cleared
  (`BioChainRaces.CleanRacesExact`). No interleaving invents an error (`BioChainRaces.NoErrorInvented`).

Three bounds need a condition of their own: the waiting of reads is bounded if and only if `writes_starved` is not zero
(`DeadlineBound.ReadBoundExact`); a group keeps to its plain rate if and only if children give it no credit
(`ThrottleRate.PlainBoundExact`); and the waiting bound follows an I/O through request merges that take over its place in the
FIFO (`DeadlineMerge.IoWaitBound`), which they do unless both requests expire at the same time with others between them
(`DeadlineMerge.PlaceExact`). A comp_t is exact only below a limit (`Acct.CompExact`).

## Model

| member | source | states |
|---|---|---|
| FlushRuns.EveryRunIsSafe | kernel/block/blk-flush.c:165-324 | After every run of inserts, fetches, flush and data completions: a request that needs a preflush starts its data only after a flush issued after its insertion has completed without error; one that needs a postflush ends without error only after a flush issued after its data finished has completed; every request ends once; each sequenced request is on exactly one of the three lists, the one of its lowest unset bit; a flush is in flight if and only if the two indices differ; when none is, the running list is empty and no waiter is without work under way |
| FlushNeeds.EveryRunKeepsItsWord | kernel/block/blk-flush.c:97-435 | In terms of the flags of the request and of the queue and of its sectors, after every run: data goes out only if there is any, with FUA just when the request asks for it and the device can, and with REQ_FLUSH on a caching device only after a flush issued after the insertion has completed; a request ends well only if its data went out and was done, and with REQ_FUA on a caching device that cannot write through only after a flush issued after that; one that needs no flush is given to the device or ended at once; and no request waits for a flush it does not need |
| FlushNeeds.DataJumpsTheQueue | kernel/block/blk-flush.c:132-217 | A completed stage queues the request's data, if that is next, ahead of everything, at most one flush behind everything, and nothing else |
| FlushNeeds.StepTold | kernel/block/blk-flush.c:97-435 | Each entry point keeps that the log and the requests tell the same story, stage by stage |
| FlushRuns.IdleMeansFinished | kernel/block/blk-flush.c:165-324 | In every reachable state with an idle device and an empty dispatch queue, every request, sequenced or not, has been ended |
| FlushRuns.RunKeeps | kernel/block/blk-flush.c:165-435 | Every run keeps the step-end invariant of the flush machine |
| FlushRuns.StepKeeps | kernel/block/blk-flush.c:165-435 | Each entry point (insert, fetch, flush end, data end, end of a request that bypassed the sequence) keeps the step-end invariant |
| FlushRuns.FlushEndIoKeeps | kernel/block/blk-flush.c:219-268 | Completing the flush, including the list walk during which new flushes may be kicked, keeps the invariant |
| FlushRuns.WalkStep | kernel/block/blk-flush.c:242-248 | Serving the head of the running list keeps the walk's invariant, strictly reduces the work left (so the walk ends), and leaves the list empty when the entry was the last and no flush was started |
| FlushRuns.WalkKeeps | kernel/block/blk-flush.c:242-248 | The whole walk ends in the step-end invariant even when a kick turns the walked list into the pending one |
| FlushRuns.WalkAdvances | kernel/block/blk-flush.c:242-248 | Every request that waited on the walked list has that stage recorded as done, and is over if the flush failed |
| FlushRuns.DataEndIoKeeps | kernel/block/blk-flush.c:326-337 | A data request that completes is sequenced and at its data stage; its completion keeps the invariant |
| FlushRuns.InsertFlushKeeps | kernel/block/blk-flush.c:371-435 | Insertion keeps the invariant on all three paths, chosen by flags and sectors: nothing to do, plain data, sequenced |
| FlushRuns.DirectEndIoKeeps | kernel/block/blk-flush.c:407-414 | A request that bypassed the sequence completes as the direct one it is, and its completion keeps the invariant |
| FlushInvariant.CompleteSeqKeeps | kernel/block/blk-flush.c:165-217 | Completing a stage moves the request to the list of its next stage, keeps the core invariant and leaves no waiter without a flush under way, or data in flight for less than 5*HZ |
| FlushInvariant.RouteKeeps | kernel/block/blk-flush.c:184-213 | The switch on the next stage keeps the core invariant in all four cases |
| FlushInvariant.KickKeeps | kernel/block/blk-flush.c:284-324 | Kicking keeps the core invariant; afterwards a waiter has a flush under way, or data in flight and has waited less than 5*HZ; a flush is issued only if none is in flight, somebody waits, and no data is in flight or that time is over |
| FlushInvariant.FlightIssues | kernel/block/blk-flush.c:301-323 | Issuing a flush while none is in flight: the log shows flushes one at a time |
| FlushInvariant.FlightLands | kernel/block/blk-flush.c:219-234 | Landing the flush in flight, with or without error, ends exactly that one |
| FlushInvariant.OwedAtEnd | kernel/block/blk-flush.c:165-217 | A request whose bits are all set has earned every flush its policy asks for |
| FlushQueue.BlkFlushQueue.constructor | kernel/block/blk-flush.c:490-518 | A new flush queue is idle and satisfies the invariant |
| FlushQueue.BlkFlushQueue.KickFlush | kernel/block/blk-flush.c:284-324 | Updates the object as the kick step does and reports whether a flush was queued |
| FlushQueue.BlkFlushQueue.MoveTo | kernel/block/blk-flush.c:184-213 | Updates the object as the switch does, reports whether data was queued; the list BUG_ON is a precondition every caller meets |
| FlushQueue.BlkFlushQueue.CompleteSeq | kernel/block/blk-flush.c:165-217 | Updates the object as the completion step does; its BUG_ON on repeated bits is a precondition every caller meets; returns whether something was queued |
| FlushQueue.BlkFlushQueue.FlushEndIo | kernel/block/blk-flush.c:219-268 | The walk loop ends, neither BUG_ON fires, and the object is the one the specification gives; the queue is run if and only if something was queued or was delayed |
| FlushQueue.BlkFlushQueue.FlushDataEndIo | kernel/block/blk-flush.c:326-337 | Updates the object as the data completion step does and keeps the invariant |
| FlushQueue.BlkFlushQueue.InsertFlush | kernel/block/blk-flush.c:371-435 | Updates the object as the insertion step does, from the flags of request and queue, and keeps the invariant |
| ThrottleRate.RateBound | kernel/block/blk-throttle.c:715-809 | Without credit from children, for every run of tests, dispatches and trims at any times: bytes charged by time t are at most bps*(t-S+slice)/HZ, S the first slice start, and likewise I/Os |
| ThrottleRate.RateBoundWithCredit | kernel/block/blk-throttle.c:693-809 | The same bound for every run that also starts slices with credit, plus the credit received |
| ThrottleRate.PlainBoundExact | kernel/block/blk-throttle.c:693-809 | For every limit and start, the bound without the credit term holds for all runs if and only if children give no credit |
| ThrottleRate.CreditBreaksPlainBound | kernel/block/blk-throttle.c:693-713 | For every limit and start a run with credit exceeds the plain bound |
| ThrottleRate.RunKeeps | kernel/block/blk-throttle.c:715-957 | The rate invariant holds after every run |
| ThrottleRate.DispatchKeeps | kernel/block/blk-throttle.c:907-991 | A dispatch that passes both tests keeps the rate invariant |
| ThrottleRate.MayDispatchKeeps | kernel/block/blk-throttle.c:907-957 | A test, whatever its verdict, keeps the rate invariant: restarts and extensions of the slice are paid for |
| ThrottleRate.RefreshKeeps | kernel/block/blk-throttle.c:715-751 | Replacing a used-up slice, or extending a live one, keeps the rate invariant and leaves a slice that covers now |
| ThrottleRate.TrimKeeps | kernel/block/blk-throttle.c:753-809 | Trimming whole slices keeps the rate invariant; what a trim takes off is stated by ThrottleSlices.TrimExact |
| ThrottleRate.CreditKeeps | kernel/block/blk-throttle.c:1068-1076 | Starting the parent's slice from the child's start keeps the rate invariant with the time reached back counted as credit |
| ThrottleRate.RestartBounded | kernel/block/blk-throttle.c:715-725 | Forgetting the charges of a slice that is over is covered by the time passed |
| ThrottleRate.ChargeBounded | kernel/block/blk-throttle.c:861-901 | A charge within the rounded-up budget stays within rate times elapsed time plus one slice |
| ThrottleRate.TrimBounded | kernel/block/blk-throttle.c:753-809 | Trimming gives back no more than the time cut off the slice is worth |
| ThrottleRate.CreditBounded | kernel/block/blk-throttle.c:693-713 | Restarting at an earlier start is worth exactly the time it reaches back |
| ThrottleRate.IosWaitSuffices | kernel/block/blk-throttle.c:811-859 | An I/O refused by the IOPS test passes it at any time at least *wait jiffies later |
| ThrottleRate.BytesWaitSuffices | kernel/block/blk-throttle.c:861-901 | A bio refused by the byte test passes it at any time at least *wait + 1 jiffies later |
| ThrottleRate.BytesWaitExact | kernel/block/blk-throttle.c:861-901 | Exactly *wait jiffies later the byte test still fails if and only if the excess takes at least one jiffy, a whole number of slices, and leaves a remainder larger than the remainder of the budget up to the rounded time; nothing but the state at the refusal is consulted |
| ThrottleRate.BytesWaitCanFallShort | kernel/block/blk-throttle.c:861-901 | A concrete refusal whose *wait is one jiffy short |
| ThrottleSlices.TrimExact | kernel/block/blk-throttle.c:753-809 | Trimming a live slice moves its start by all whole slices passed and takes exactly what they pay for off bytes and I/Os, not below zero; it leaves them alone only if that is nothing; the slice ends on the first slice boundary at least one slice from now |
| ThrottleSlices.TrimLeavesOneSlice | kernel/block/blk-throttle.c:753-809 | After a trim that cut, no bio larger than one slice pays for passes at once, and no I/O beyond that |
| ThrottleSlices.TrimIsNeutral | kernel/block/blk-throttle.c:753-901 | If the charges cover the time cut off, what may go at any later time is the same as without the trim, or one byte less |
| ThrottleSlices.AllowedBounds | kernel/block/blk-throttle.c:811-901 | What is allowed since the slice start is at least what the time passed pays for and at most what one slice more does |
| ThrottleSlices.VerdictWaits | kernel/block/blk-throttle.c:907-957 | After a refusal the slice lasts at least as long as the wait; once it and one jiffy are over the byte test passes; if only the I/O test refused, both pass as soon as it is over |
| ThrottleSlices.WaitsPositive | kernel/block/blk-throttle.c:811-901 | A test that refuses reports a positive wait |
| ThrottleSlices.RunHonest | kernel/block/blk-throttle.c:693-991 | In every run a slice is charged no more than really went, so no refusal is for bytes or I/Os that did not |
| ThrottleLending.NeverBack | kernel/block/blk-throttle.c:693-809 | In every run, credit included, no slice starts before an earlier one did |
| ThrottleLending.TestCovers | kernel/block/blk-throttle.c:907-957 | After a test of a limited group its slice has begun and lasts at least one more slice; a used-up one begins now |
| ThrottleLending.GiveSlices | kernel/block/blk-throttle.c:1068-1112 | A dispatch leaves less than one slice of the group's time untrimmed, unless that pays for nothing; a parent whose slice has expired begins one, uncharged, at the later of its own and the group's slice start, and a live one is left alone |
| ThrottleLending.DueWhenFirstMayGo | kernel/block/blk-throttle.c:1044-1057 | The wait for the dispatch time is no longer than that of either direction with bios, and zero exactly when the first bio of one may go |
| ThrottleGroup.ThrotlGrp.SetSliceEnd | kernel/block/blk-throttle.c:727-731 | The slice end is the first whole slice at or after the given time |
| ThrottleGroup.ThrotlGrp.TrimSlice | kernel/block/blk-throttle.c:753-809 | Start moves by the whole slices passed and the charges drop by what they pay for, not below zero, or nothing moves because they pay for nothing; the object is the specified one and the BUG_ON is the precondition |
| ThrottleGroup.ThrotlGrp.WithinBpsLimit | kernel/block/blk-throttle.c:861-901 | The verdict is the byte test and *wait its estimate; nothing is changed |
| ThrottleGroup.ThrotlGrp.WithinIopsLimit | kernel/block/blk-throttle.c:811-859 | The verdict is the I/O test and *wait its estimate; nothing is changed |
| ThrottleGroup.ThrotlGrp.MayDispatch | kernel/block/blk-throttle.c:907-957 | Verdict, wait and new slice are those of the specified test, whose waits ThrottleSlices.VerdictWaits shows to be enough |
| ThrottleGroup.ThrotlGrp.TryCharge | kernel/block/blk-throttle.c:1521-1544 | One level of the climb of a new bio: test, charge and trim, or leave the refreshed slice alone |
| ThrottleGroup.VerdictOrdered | kernel/block/blk-throttle.c:907-957 | A slice never ends before it starts, so the trim's BUG_ON does not fire |
| ThrottleDrain.Drain | kernel/block/blk-throttle.c:1624-1646 | After draining in post order every group is empty, off its tree and uncounted, every bio is still there exactly once, and the bios of every source are on the top service queue in their order |
| ThrottleDrain.DrainBios | kernel/block/blk-throttle.c:1601-1616 | Draining a node's children leaves all of them empty, loses and reorders nothing and leaves other nodes' queues alone; the loop ends |
| ThrottleDrain.DrainGroup | kernel/block/blk-throttle.c:1609-1614 | The two inner loops empty one group into its parent |
| ThrottleDrain.MovedPreserves | kernel/block/blk-throttle.c:1078-1118 | Moving one bio up keeps every bio somewhere, once, and behind whatever was ahead of it |
| ThrottleDrain.MovedUnique | kernel/block/blk-throttle.c:1078-1118 | If no bio is queued twice, none is after a move |
| ThrottleDrain.RbFirst | kernel/block/blk-throttle.c:553-566 | The cached or recomputed first child is the one with the earliest dispatch time, and there is one if and only if the count is not zero |
| ThrottleDrain.QueueBioKeeps | kernel/block/blk-throttle.c:1565-1568 | Queueing a bio keeps all counts and trees, appends it to its source's list and changes no other list; exactly this bio is held in addition, and if it was nowhere before no bio is held twice |
| ThrottleDispatch.Rounds | kernel/block/blk-throttle.c:1153-1179 | Through any number of dispatch rounds at any nodes and times, every limited group and direction lets through at most its rate times the time since its start plus one slice and its credit, in bytes and in I/Os; no bio is lost or reordered |
| ThrottleDispatch.SelectDispatch | kernel/block/blk-throttle.c:1153-1179 | The loop ends; unless the quantum is used up no child is due afterwards; a child not due is untouched, meters included, one that was due and is still pending waits exactly as long as the tests of its first bios say; every child is charged the bytes and I/Os it gave and nobody else anything; the count returned is what the children gave, below the quantum plus one group quantum; nothing is lost or reordered; all rate invariants hold |
| ThrottleDispatch.Turn | kernel/block/blk-throttle.c:1168-1174 | One child gives what its limits allow, is charged for it and is rescheduled to the earlier of the waits its tests report; if it gave nothing that is in the future |
| ThrottleDispatch.DispatchTg | kernel/block/blk-throttle.c:1120-1151 | In each direction bios leave until the queue is empty, the test of the next one refuses, or three quarters reads and one quarter writes have gone; each is charged; no sibling is touched |
| ThrottleDispatch.DispatchSome | kernel/block/blk-throttle.c:1130-1138 | One loop stops exactly at the first bio whose test refuses, at the end of the queue or at the maximum; as many I/Os and bytes are charged as left, the parent is charged nothing |
| ThrottleDispatch.GiveKeeps | kernel/block/blk-throttle.c:1078-1113 | Charging, lending the slice start to the parent and trimming keep every rate invariant and charge one bio to its group |
| ThrottleDispatch.FreshRates | kernel/block/blk-throttle.c:715-725 | Groups whose slices have just been started satisfy all rate invariants |
| ThrottleDispatch.PopBytes | kernel/block/blk-throttle.c:364-387 | Taking the first bio of a queue takes exactly its bytes |
| ThrottleMeters.DoKeeps | kernel/block/blk-throttle.c:693-957 | Every operation keeps a side's rate invariant; an unlimited side keeps its slice start in the past |
| ThrottleMeters.TestAgain | kernel/block/blk-throttle.c:907-957 | Testing the same bio twice at the same time gives the same verdict and wait, and a refusal always a positive wait |
| ThrottleRuns.EveryRunConserves | kernel/block/blk-throttle.c:1044-1179 | From a hierarchy without bios, after every run of queueing, first-child look-ups, dispatches, reschedulings and issues: counts, trees and marks are right; the bios that came in are exactly those held or issued, each once; the bios handed to one list are issued, and then still ahead on the way up, in the order they came |
| ThrottleRuns.NextSound | kernel/block/blk-throttle.c:1044-1179 | Each single step keeps counts, trees and marks |
| ThrottleRuns.NextHistory | kernel/block/blk-throttle.c:1044-1179 | Each single step keeps the account of the bios and their order |
| ThrottleRuns.BaseOk | kernel/block/blk-throttle.c:389-399 | A hierarchy of groups without bios satisfies the invariant |
| ThrottleRuns.DrainAfter | kernel/block/blk-throttle.c:1624-1646 | Draining after any such run leaves every group empty, every bio that came in on throtl_data or issued, once, and each list's bios in order |
| ThrottleDrain.RescheduleKeeps | kernel/block/blk-throttle.c:1044-1066 | Re-entering the tree with a new dispatch time keeps the invariant |
| ThrottleTree.DispatchOneKeeps | kernel/block/blk-throttle.c:1078-1118 | One dispatch keeps the totals, the counts, pending if and only if it holds bios, and the order and cache of every pending tree |
| ThrottleTree.DispatchOneMoves | kernel/block/blk-throttle.c:1078-1118 | One dispatch takes the head bio and appends it to the child's list on the parent, and moves nothing else |
| ThrottleTree.DispatchReady | kernel/block/blk-throttle.c:1078-1110 | A group on the tree has a bio to give and the BUG_ON on the total does not fire |
| ThrottleTree.AddBioKeeps | kernel/block/blk-throttle.c:323-335 | Adding a bio lists its qnode once and counts it |
| ThrottleTree.PopKeeps | kernel/block/blk-throttle.c:364-387 | Taking a bio takes the head of the first qnode and no other; the qnodes listed are the ones with bios, each once, and one bio fewer is held |
| ThrottleTurns.RoundRobin | kernel/block/blk-throttle.c:364-387 | In as many turns as sources wait, each gives its first bio once, in the order they wait |
| ThrottleTurns.JoinsBehind | kernel/block/blk-throttle.c:323-335 | A source that joins waits behind those already waiting, and a bio behind those of its source |
| ThrottleTree.PositionSplits | kernel/block/blk-throttle.c:594-620 | The link position has all earlier or equal dispatch times before it and all later ones behind |
| ThrottleTree.EnqueueKeeps | kernel/block/blk-throttle.c:594-633 | Enqueueing keeps every pending tree sorted, complete and rightly cached |
| ThrottleTree.DequeueKeeps | kernel/block/blk-throttle.c:574-581 | Dequeueing keeps every pending tree and counts down by one |
| ThrottleTree.FlowMoves | kernel/block/blk-throttle.c:1078-1118 | What is ahead of a source's bios on the way up stays ahead, in the same order |
| DeadlineBound.WriteWaitBound | kernel/block/deadline-iosched.c:243-325 | An expired write with k requests ahead of it leaves before (k+1)*(writes_starved+1)*max(1,fifo_batch) dispatches, for any arrivals and merges |
| DeadlineOrder.BatchGoesUp | kernel/block/deadline-iosched.c:204-325 | Of two dispatches in a row, within a batch the second is the next request up by sector; the batch ends only when it is full or nothing lies above; a new batch of the same direction goes on from there while the head of the FIFO has not expired |
| DeadlineOrder.ReadsGoFirst | kernel/block/deadline-iosched.c:262-290 | A new batch is of reads unless there are none, or writes wait and have been passed over writes_starved times; the count goes up by one exactly when a read batch passes waiting writes over, and to zero with each batch of writes |
| DeadlineOrder.ExpiredGoesFirst | kernel/block/deadline-iosched.c:226-325 | A new batch starts with a request that expires no later than any other of its direction, once one has expired or there is no place to go on |
| DeadlineBound.ReadWaitBound | kernel/block/deadline-iosched.c:243-325 | If writes_starved is not zero, an expired read with k ahead leaves before (k+1)*2*max(1,fifo_batch) dispatches |
| DeadlineBound.ReadBoundExact | kernel/block/deadline-iosched.c:243-325 | For every setting and place in the FIFO, some number bounds the dispatches during which an expired read still waits, over all states and runs, if and only if writes_starved is not zero |
| DeadlineBound.ReadsUnboundedWithoutQuota | kernel/block/deadline-iosched.c:243-325 | For every setting with writes_starved zero and every n there is a run in which an expired read at the head is passed over n times |
| DeadlineBound.WaitingCosts | kernel/block/deadline-iosched.c:243-325 | Along every run the dispatches made while a request waits are fewer than its rank |
| DeadlineBound.ServeStep | kernel/block/deadline-iosched.c:243-325 | Each dispatch that leaves an expired request waiting lowers its rank |
| DeadlineBound.QuietStep | kernel/block/deadline-iosched.c:99-187 | Arrivals, request merges and front merges do not raise the rank of a waiting request |
| DeadlineBound.RankBound | kernel/block/deadline-iosched.c:243-325 | The rank is at most the place in the FIFO times the length of a round |
| DeadlineMerge.IoWaitBound | kernel/block/deadline-iosched.c:168-325 | The same bound for the I/O itself, through any number of request merges that take over its place in the FIFO |
| DeadlineMerge.PlaceExact | kernel/block/deadline-iosched.c:168-187 | After a request merge the absorbed I/O stands no further back in the FIFO if and only if it is not the case that both requests expire at the same time and others stand between them |
| DeadlineMerge.Absorbs | kernel/block/deadline-iosched.c:168-187 | The absorbing request ends up at the place of the absorbed one if that expires strictly earlier, else at its own, and has the earlier expiry |
| DeadlineBound.AddKeeps | kernel/block/deadline-iosched.c:99-111 | An arrival keeps FIFO and sector order; the FIFO stays sorted by expiry |
| DeadlineData.AddMeans | kernel/block/deadline-iosched.c:99-111 | A new request stands last in its FIFO, expires its direction's time from now, stands behind requests at the same sector, and changes nothing else |
| DeadlineBound.RemoveKeeps | kernel/block/deadline-iosched.c:84-122 | Removal keeps both orders and moves the batch pointer off the request |
| DeadlineBound.MergedKeeps | kernel/block/deadline-iosched.c:168-187 | A request merge keeps both orders, also when the earlier expiry is taken over |
| DeadlineBound.FrontMergedKeeps | kernel/block/deadline-iosched.c:154-166 | Repositioning after a front merge keeps both orders |
| DeadlineBound.MoveKeeps | kernel/block/deadline-iosched.c:204-220 | Dispatching a request leaves at most one batch pointer, in its direction |
| DeadlineBound.DispatchKeeps | kernel/block/deadline-iosched.c:243-325 | A dispatch keeps the invariant |
| DeadlineBound.MergeIndex | kernel/block/deadline-iosched.c:168-187 | A request merge lets no other request fall back in the FIFO |
| DeadlineData.DeadlineQueue.AddRequest | kernel/block/deadline-iosched.c:99-111 | The object becomes the specified one; FIFO by expiry and list by sector stay sorted and complete |
| DeadlineData.DeadlineQueue.RemoveRequest | kernel/block/deadline-iosched.c:116-122 | Exactly this request leaves both lists of its direction, which keep their order; the other direction is as it was, and a batch that was to go on with the request goes on with the next one by sector |
| DeadlineData.DeadlineQueue.MergedRequests | kernel/block/deadline-iosched.c:168-187 | The object becomes the specified one; both orders hold, also when the earlier expiry is taken over |
| DeadlineData.DeadlineQueue.MoveRequest | kernel/block/deadline-iosched.c:204-220 | Exactly this request leaves, the batch goes on with the next one of its direction by sector, and the other direction has no batch |
| DeadlineData.DeadlineQueue.FrontTarget | kernel/block/deadline-iosched.c:124-152 | With front merges allowed it finds a request of the direction that starts where the bio ends if and only if there is one |
| DeadlineData.RbFind | kernel/block/elevator.c:330-347 | The search of the sorted tree ends, and finds a request at the sector if and only if there is one |
| DeadlineData.DeadlineQueue.StartBatch | kernel/block/deadline-iosched.c:262-308 | A new batch starts with the request the specification chooses, and the counters follow; neither BUG_ON fires |
| DeadlineData.DeadlineQueue.DispatchRequests | kernel/block/deadline-iosched.c:243-325 | The request chosen and the new state are the specified ones, whose order DeadlineOrder states; nothing is dispatched only when both FIFOs are empty |
| CfqCoop.Chain | kernel/block/cfq-iosched.c:2444-2457 | The walk along new_cfqq is defined for every queue, so it ends, and meets only existing queues |
| CfqCoop.ChainAcyclic | kernel/block/cfq-iosched.c:2831-2845 | No walk comes back to its start |
| CfqCoop.RootEnds | kernel/block/cfq-iosched.c:2453-2457 | Exactly the last queue of a chain has no link |
| CfqCoop.ChainLink | kernel/block/cfq-iosched.c:2464-2470 | Linking one root to another extends exactly the chains that ended in it |
| CfqCoop.ReachableIsLive | kernel/block/cfq-iosched.c:2805-2845 | A queue that some io context can walk to holds more references than requests: it is not freed |
| CfqCoop.NewQueueKeeps | kernel/block/cfq-iosched.c:3541-3543 | Giving an io context a new queue keeps: links form a forest, and every ref is allocated requests plus the io contexts that reach the queue |
| CfqCoop.TakeRequestKeeps | kernel/block/cfq-iosched.c:3556-3562 | Charging a request to a queue keeps the invariant |
| CfqCoop.PutRequestKeeps | kernel/block/cfq-iosched.c:3476-3493 | The queue of a request has an allocated request and a reference for it, so neither BUG_ON fires; putting the request keeps the invariant |
| CfqCoop.LinkKeeps | kernel/block/cfq-iosched.c:2464-2470 | Linking two roots keeps the invariant: the references handed over are exactly those of the io contexts that now reach the target |
| CfqCoop.SetupMergeKeeps | kernel/block/cfq-iosched.c:2444-2471 | For a queue without a link, as the caller checks, and any other queue: every queue the walk meets is alive, and setting up the merge keeps the invariant |
| CfqJoin.SetupMergeJoins | kernel/block/cfq-iosched.c:2444-2471 | A merge is set up exactly when both queues are in use and the first is not on the chain of the other; then everything that ended in either ends in the one that more io contexts use (the other side's on a tie), whose users are now those of both; everything else ends where it did, and no io context has moved |
| CfqJoin.MergedShare | kernel/block/cfq-iosched.c:2444-2471 | After that, any io context of the one and any of the other that each issue as many requests as there are queues share that queue |
| CfqJoin.ArrivesAtTheRoot | kernel/block/cfq-iosched.c:3495-3564 | An io context that goes on issuing requests without splitting off gets to the end of its chain and stays there |
| CfqJoin.SettleMoves | kernel/block/cfq-iosched.c:3506-3564 | An io context splits off exactly when asked to and sharing its queue: it is then alone on the new one and has left every queue of its old chain; one without a queue gets a new one; otherwise it follows the link, if any; no other io context moves or reaches other queues |
| CfqJoin.RefsAreUsers | kernel/block/cfq-iosched.c:2433-2442 | The process references of a queue are as many as the io contexts that reach it |
| CfqCoop.MergeCfqqsKeeps | kernel/block/cfq-iosched.c:3495-3504 | Following the link keeps the invariant |
| CfqCoop.LeaveChainKeeps | kernel/block/cfq-iosched.c:2831-2857 | Each queue of the chain holds a reference beyond its requests; leaving drops one on each and keeps the invariant |
| CfqCoop.ChangeCgroupExact | kernel/block/cfq-iosched.c:2979-2999 | A cgroup move keeps the invariant if and only if the abandoned queue has no link; in any case each queue behind it is left with exactly one reference that nobody owns |
| CfqCoop.ReferenceCanLeak | kernel/block/cfq-iosched.c:2979-2999 | A concrete run of two io contexts in which that reference is left over |
| CfqData.Cfq.SetupMerge | kernel/block/cfq-iosched.c:2444-2471 | The walk ends, meets only live queues and the new state is the specified one |
| CfqData.Cfq.PutCooperator | kernel/block/cfq-iosched.c:2831-2845 | The walk ends without the loop warning and takes one reference off each queue behind the first, none of which is freed before |
| CfqData.Cfq.PutQueue | kernel/block/cfq-iosched.c:2805-2829 | There is a reference to drop beyond the requests, so its BUG_ON does not fire; a queue that loses its last one has no request left |
| CfqData.Cfq.ExitCfqq | kernel/block/cfq-iosched.c:2847-2857 | The io context leaves its chain as specified; the invariant holds |
| CfqData.Cfq.MergeCfqqs | kernel/block/cfq-iosched.c:3495-3504 | The new state is the specified one |
| CfqData.Cfq.SetRequest | kernel/block/cfq-iosched.c:3506-3564 | The io context ends up on the queue the specification gives (new, split off, or merged), to which the request is charged; the invariant holds |
| CfqData.Cfq.PutRequest | kernel/block/cfq-iosched.c:3476-3493 | The new state is the specified one; neither BUG_ON fires |
| CfqShares.SharesFit | kernel/block/cfq-iosched.c:1101-1130 | Over one tree the floored shares of all groups on the service tree sum to at most 4096 |
| CfqShares.LocalsAreWhole | kernel/block/cfq-iosched.c:1101-1130 | The unrounded shares of the groups on the service tree sum to exactly one |
| CfqShares.NodeConserves | kernel/block/cfq-iosched.c:1115-1127 | Each active group keeps for itself and passes to its children exactly what it receives |
| CfqShares.AlongBelow | kernel/block/cfq-iosched.c:1119-1127 | The floored fraction computed on the climb is never above the exact product of weight ratios |
| CfqShares.ShareBelow | kernel/block/cfq-iosched.c:1104-1127 | A group's floored share is never above its exact share; CfqExact.ShareExact bounds it from below |
| CfqExact.ShareExact | kernel/block/cfq-iosched.c:1101-1130 | A group's share is its exact part of 4096 rounded down by less than one for itself and each group above it |
| CfqGroups.JoinKeeps | kernel/block/cfq-iosched.c:1119-1127 | Telling the parent of a newly active child keeps nr_active and children_weight exact up the tree |
| CfqGroups.LeaveKeeps | kernel/block/cfq-iosched.c:1161-1174 | Telling the parent of a child that went inactive keeps them exact, and nr_active does not go below zero |
| CfqGroups.InactiveHasNoWeight | kernel/block/cfq-iosched.c:1164-1166 | A group that went inactive has no children weight left: the warning does not fire |
| CfqGroupTree.EnterKeeps | kernel/block/cfq-iosched.c:1112-1117 | Entering the service tree keeps the counts but for the news owed to the parent |
| CfqGroupTree.QuitKeeps | kernel/block/cfq-iosched.c:1158-1159 | Leaving the service tree keeps the counts but for the news owed to the parent |
| CfqGroupTree.GroupTree.ClimbAdd | kernel/block/cfq-iosched.c:1119-1127 | One turn of the climb keeps the counts and multiplies the fraction by the floored weight ratio |
| CfqGroupTree.GroupTree.ServiceTreeAdd | kernel/block/cfq-iosched.c:1101-1130 | Keeps nr_active and children_weight exact for every group; the group uses the leaf weight last written, every group that turns active by it the weight last written, and no other weight changes; the group's vfraction is its floored share, at least one and at most 4096 |
| CfqGroupTree.GroupTree.ServiceTreeDel | kernel/block/cfq-iosched.c:1152-1179 | Keeps them exact, takes one off the group's nr_active, changes no weight, clears vfraction only of groups that are no longer active; the warning does not fire |
| CfqGroupTree.GroupTree.GroupServed | kernel/block/cfq-iosched.c:1221-1241 | A served group is back on the tree with its current share and the leaf weight last written; its weight is renewed exactly if nothing else below it is active |
| CfqGroupTree.GroupTree.constructor | kernel/block/cfq-iosched.c:1298-1307 | Groups without queues satisfy the invariant, for every tree and positive weights |
| CfqGroupRuns.RunFromIdle | kernel/block/cfq-iosched.c:1101-1241 | From idle groups, after every run of queues coming and going, groups being served and weights being written: on the service tree are exactly the groups with queues, active are exactly the groups with one of those at or below them, nr_active and children_weight are exact, every vfraction lies in 1 to 4096 and the shares sum to at most 4096 |
| CfqGroupRuns.ActiveExact | kernel/block/cfq-iosched.c:1101-1179 | A group's nr_active is positive if and only if it or a group below it is on the service tree |
| CfqGroupRuns.WrittenIsTaken | kernel/block/cfq-iosched.c:1081-1130 | A weight written counts from the next time the group turns active, a leaf weight from the next time it enters the tree, and until then the old one; the other weight is not touched |
| CfqGroupRuns.Do | kernel/block/cfq-iosched.c:1132-1199 | Each operation changes the queue counts as given and keeps the invariant and the service tree in step with them; a first queue makes written weights count, a further one changes nothing; a weight write within the limits only notes the weight, one outside them does nothing |
| ScatterGather.GreedyIsLeast | kernel/block/blk-merge.c:159-216 | The mapping uses the fewest segments of any partition that obeys the size, adjacency and boundary rules |
| ScatterGather.GreedyIsPartition | kernel/block/blk-merge.c:159-216 | The mapping is itself such a partition |
| ScatterGather.MappingFits | kernel/block/blk-merge.c:13-88 | The mapping never needs more entries than the recount gives, merging or not |
| ScatterGather.CountIsLeast | kernel/block/blk-merge.c:13-88 | No partition that obeys the rules and leaves every high vector, which is bounced, in a segment of its own has fewer segments than the recount |
| ScatterGather.CountIsPartition | kernel/block/blk-merge.c:13-88 | The recount is the number of segments of such a partition |
| ScatterGather.BouncedMappingFits | kernel/block/blk-merge.c:13-88 | Wherever the high vectors are bounced to after the count, the mapping needs no more entries |
| ScatterGather.UnmergedIsAll | kernel/block/blk-merge.c:13-88 | Without merging the recount is the number of vectors |
| ScatterGather.FitsMeans | kernel/block/blk-merge.c:167-176 | Two vectors may share a segment exactly if clustering is on, they adjoin, do not exceed the size together, and all bytes of both lie in one boundary window |
| ScatterGather.GreedySubadditive | kernel/block/blk-merge.c:318-342 | Mapping two lists joined needs no more entries than mapping each |
| ScatterGather.MergedMappingFits | kernel/block/blk-merge.c:318-342 | However a request was built from bios, counted each by its own flags, and from requests by adding counts, the mapping fits the count |
| ScatterGather.SegmentsAdd | kernel/block/blk-merge.c:318-342 | A request's count is that of its bios added up, and its vectors are theirs in order, however it was merged together |
| ScatterGather.MapSg | kernel/block/blk-merge.c:159-216 | The loop's entries cover exactly the request's bytes in order, as many as the greedy partition has, none above the maximum size or across a boundary unless it is a single vector |
| ScatterGather.RecalcSegments | kernel/block/blk-merge.c:13-88 | The loop counts as specified, the least number by CountIsLeast, and one for discard and write-same |
| ScatterGather.RecountSegments | kernel/block/blk-merge.c:99-121 | The count of a bio is the vector count where merging is off and it is below the limit, else the recount; the mapping of the bio never needs more |
| ScatterGather.MapRequest | kernel/block/blk-merge.c:202-286 | The entries filled are at most the room for them, for normal requests exactly the greedy partition, for discards the payload if there is one, for write-same the first vector |
| Elevator.FindAgrees | kernel/block/elevator.c:276-295 | The hash lookup finds a mergeable request ending at a sector if and only if a scan of all queued requests would, and loses no bio |
| Elevator.RehashKeeps | kernel/block/elevator.c:270-274 | Repositioning makes the index exact again for a request whose end moved |
| Elevator.AppendKeeps | kernel/block/blk-core.c:1432-1452 | A back merge keeps the request's bios contiguous and its length their total; only its own hash entry is stale |
| Elevator.PrependKeeps | kernel/block/blk-core.c:1454-1476 | A front merge keeps the request well formed, its end and the index |
| Elevator.JoinOk | kernel/block/blk-merge.c:537-540 | Two adjoining requests joined are well formed |
| Elevator.AbsorbKeeps | kernel/block/elevator.c:514-531 | A request merge keeps the index and every bio in exactly one request |
| Elevator.AbsorbNewKeeps | kernel/block/elevator.c:466-497 | The same when the absorbed request is not queued yet |
| Elevator.InsertKeeps | kernel/block/elevator.c:648-664 | A sorted insert adds exactly its bios and keeps the index |
| Elevator.ForbidKeeps | kernel/block/blk-merge.c:337-341 | Marking a request unmergeable keeps the index and the bios |
| Elevator.UnhashKeeps | kernel/block/elevator.c:285-288 | Dropping an unmergeable request from the hash keeps the index |
| Elevator.DispatchKeeps | kernel/block/elevator.c:400-413 | Dispatching takes out one request with its bios and nothing else |
| ElevatorQueue.ElvQueue.RqhashFind | kernel/block/elevator.c:276-295 | The chain walk answers as the specification and as a full scan does |
| ElevatorQueue.ElvQueue.AttemptMerge | kernel/block/blk-merge.c:482-557 | Merges exactly when both requests allow it, adjoin and go the same way; the result is the specified one |
| ElevatorQueue.ElvQueue.AttemptMergeNew | kernel/block/blk-merge.c:579-583 | The same into a queued request from one that is not queued |
| ElevatorQueue.ElvQueue.AttemptInsertMerge | kernel/block/elevator.c:466-497 | The bios of the new request are in the queue if and only if it reports a merge; without one nothing but stale hash entries changed, and, merges allowed, no request of its direction alone ends where it starts |
| ElevatorQueue.ElvQueue.FoldBack | kernel/block/elevator.c:484-498 | The chain of merges ends, conserves the bios and keeps those of the request together; if all merges are permitted, nothing is left to merge the result with |
| ElevatorQueue.ElvQueue.AddRequest | kernel/block/elevator.c:640-664 | After a sorted insert every bio of the request is in exactly one queued request; it is queued as it is if merging is not asked for, and, merges allowed, only if no request of its direction alone ends where it starts |
| ElevatorQueue.ElvQueue.BackMergeBio | kernel/block/blk-core.c:1589-1596 | A back merge conserves all bios and ends with an exact index; the neighbour is absorbed exactly when both allow it, adjoin and go the same way; a merge that does not fit only marks the request |
| ElevatorQueue.ElvQueue.FrontMergeBio | kernel/block/blk-core.c:1597-1604 | A front merge likewise, the request being absorbed by the one before it |
| ElevatorQueue.ElvQueue.ElvMerge | kernel/block/elevator.c:415-457 | What it returns allows merging, goes the bio's way and adjoins it; with merges allowed, no answer means that the scheduler has none and no request of that direction alone ends where the bio starts |
| ElevatorQueue.ElvQueue.QueueBio | kernel/block/blk-core.c:1587-1636 | Every bio ends up in exactly one queued request and no other bio is lost; it gets a request of its own, merges allowed and fitting, only if no request of its direction alone ends where it starts and the scheduler has none that starts where it ends |
| ElevatorQueue.ElvQueue.Dispatch | kernel/block/elevator.c:400-413 | Takes out exactly one request's bios |
| BioChain.RootEndsOnce | kernel/block/bio.c:301-325 | For every order of chaining and of non-overlapping completions, the root's end_io runs at most once, exactly when every bio has been ended, with an error if and only if some bio failed; no count goes negative |
| BioChain.EndIoKeeps | kernel/block/bio.c:1768-1800 | A completion keeps the counts of the whole tree and reports at the root only when it is done, with its flag's error |
| BioChain.ChainKeeps | kernel/block/bio.c:318-325 | Chaining keeps the counts |
| BioChain.RootDoneMeansAll | kernel/block/bio.c:1768-1800 | The root is done only after every bio |
| BioChain.AllEndedMeansDone | kernel/block/bio.c:1768-1800 | Once every owner has ended its bio, every bio is done |
| BioChain.RootErrorExact | kernel/block/bio.c:1768-1800 | With all bios done, the root's flag is cleared if and only if some bio failed |
| BioChain.BioTree.ChainBio | kernel/block/bio.c:318-325 | The tree becomes the specified one |
| BioChain.BioTree.EndBio | kernel/block/bio.c:1768-1800 | The loop up the parents ends and the tree becomes the specified one |
| BioChainRaces.RacesEndOnce | kernel/block/bio.c:1768-1800 | With completions interleaved between flag test and decrement, the root ends at most once, and it has ended if and only if every bio was ended and no completion is under way; then every bio is done; no decrement finds zero |
| BioChainRaces.ErrorCanBeLost | kernel/block/bio.c:1768-1800 | A concrete interleaving in which a failed bio is not reported at the root |
| BioChainLoss.ReliableExact | kernel/block/bio.c:1768-1800 | For every chain and every assignment of outcomes to its bios: the root's report is right under all interleavings of their completions if and only if all bios fail or none does |
| BioChainLoss.ReliableFromIdle | kernel/block/bio.c:301-325 | The same for every chain that chaining builds from one bio |
| BioChainLoss.Loses | kernel/block/bio.c:1768-1800 | From a completion without error that waits between its test and its decrement, the other completions can be ordered so that the root reports no error |
| BioChainRaces.CleanRacesExact | kernel/block/bio.c:1768-1800 | Under every interleaving in which no completion finishes a bio without error while the bio's flag is cleared, the root reports an error if and only if some bio failed |
| BioChainRaces.RootReportExact | kernel/block/bio.c:1773-1795 | With everything below finished that way, the root's report is right if and only if its own last completion carries an error or finds the flag set |
| BioChainRaces.EvidenceKeeps | kernel/block/bio.c:1768-1800 | Each step of a completion that finishes no bio wrongly keeps some record of a failure until it is reported |
| BioChainRaces.MoveKeeps | kernel/block/bio.c:1768-1800 | Each single step of a completion keeps the counts |
| BioChainRaces.DecrementSafe | kernel/block/bio.c:1771-1779 | A decrement never finds bi_remaining at or below zero |
| BioChainRaces.NoErrorInvented | kernel/block/bio.c:1768-1800 | Over every interleaving: no root report, completion under way or cleared flag carries an error unless some bio failed |
| Completion.RunIsBytewise | kernel/block/blk-core.c:2413-2525 | However completion is cut into chunks, each bio is ended once, in order, when its last byte completes, with an error if and only if a chunk touching it failed |
| Completion.ConsumeIsBytewise | kernel/block/blk-core.c:2470-2485 | One chunk does what its bytes one by one would |
| Completion.BytewiseComposes | kernel/block/blk-core.c:2470-2485 | Completing bytes in two parts is completing them at once |
| Completion.UpdatedComposes | kernel/block/blk-core.c:2413-2525 | Completing n and then m bytes leaves the same bios, ended bios and length as completing n+m, for every n and m; the whole request, sector included, is the same if and only if the first part finishes it, or less than a sector is lost in the parts, or the second finishes it and the first is under a sector |
| Completion.UpdatedAdvances | kernel/block/blk-core.c:2490-2504 | A request that is not finished is shorter by the bytes completed and starts at the sector that holds the next byte; in whole sectors its end stays |
| Completion.ConsumeComposes | kernel/block/blk-core.c:2470-2485 | Completing n and then m bytes hands back and leaves the bios as completing n+m does |
| Completion.LeftPositive | kernel/block/blk-core.c:2470-2485 | What is left is the total minus the bytes completed, in bios that are not empty |
| Completion.EndedInOrder | kernel/block/blk-core.c:123-139 | The ended bios are the first ones, in order, each once |
| Completion.Request.Update | kernel/block/blk-core.c:2413-2525 | Bios, ended bios, data length and sector are the specified ones; it returns false exactly when all bytes are done |
| TagRaces.NoTagTwice | kernel/block/blk-mq-tag.c:137-202 | For every interleaving of searches over all words, test-and-set steps and releases: no tag has two holders, a held tag is below the depth, and the busy bits are exactly the tags held |
| TagRaces.GivesUpOnlyIfAllBusy | kernel/block/blk-mq-tag.c:137-206 | Under every interleaving a search gives up only if every tag below the depth was busy at some moment since it began |
| TagTight.GivesUpThoughFree | kernel/block/blk-mq-tag.c:137-206 | That is all it means: a concrete run in which a search gives up although some tag is free at every moment |
| TagRaces.StepSharedKeeps | kernel/block/blk-mq-tag.c:137-202 | Each single step keeps both |
| TagRaces.OnwardOk | kernel/block/blk-mq-tag.c:147-202 | At the end of a word's range the search goes on before its start, then to the next word, and after the last word has seen every tag busy |
| Tags.GetWord | kernel/block/blk-mq-tag.c:137-164 | Without interference a word's search fails if and only if the word is full, and else takes a clear bit, the hinted one if it is clear |
| Tags.Scan | kernel/block/blk-mq-tag.c:186-202 | The rotating word loop fails if and only if all words are full |
| Tags.FullMeansTaken | kernel/block/blk-mq-tag.c:177-218 | All words full is all tags below the depth taken |
| Tags.SetBit | kernel/block/blk-mq-tag.c:177-218 | Setting or clearing one bit adds or removes one tag of the set |
| Tags.TagsPerWord | kernel/block/blk-mq-tag.c:467-489 | The shrinking loop ends with the largest power of two up to 64 that leaves four words or more, and with 64 for fewer than four tags |
| Tags.BlankMap | kernel/block/blk-mq-tag.c:440-453 | The word depths cover exactly the depth |
| Tags.BitmapTags.constructor | kernel/block/blk-mq-tag.c:462-515 | A new map has no tag taken |
| Tags.BitmapTags.Get | kernel/block/blk-mq-tag.c:177-218 | Fails if and only if the share check refuses or all tags are taken; else takes one free tag below the depth; the hint stays below the depth and follows the update rule |
| Tags.BitmapTags.Put | kernel/block/blk-mq-tag.c:339-346 | Gives back exactly one tag |
| Tags.BlkMqTags.constructor | kernel/block/blk-mq-tag.c:523-558 | A new tag set has no tag taken |
| Tags.BlkMqTags.GetReserved | kernel/block/blk-mq-tag.c:293-307 | A reserved tag is below the reserved count and was free; failure means all are taken |
| Tags.BlkMqTags.GetNormal | kernel/block/blk-mq-tag.c:281-291 | A normal tag is at or above the reserved count and was free; failure means refused or all taken |
| Tags.BlkMqTags.GetTag | kernel/block/blk-mq-tag.c:309-315 | Normal and reserved tags are disjoint; exactly the returned tag is added to those in use |
| Tags.BlkMqTags.PutTag | kernel/block/blk-mq-tag.c:379-391 | Gives back exactly the tag and makes it the hint if it is a normal one |
| BlkgRuns.EveryRunIsSafe | kernel/block/blk-cgroup.c:127-406 | After every run of lookups, creations, destructions, references and releases, with cgroups going offline from the leaves up: the hinted lookup is the tree lookup, a cgroup in the tree has all its ancestors there, and the parent of every unreleased blkg is unreleased with references left |
| BlkgRuns.RunKeeps | kernel/block/blk-cgroup.c:127-406 | Every run keeps the invariant |
| BlkgRuns.NextKeeps | kernel/block/blk-cgroup.c:127-406 | Every single operation keeps the invariant |
| Blkg.LookupAgrees | kernel/block/blk-cgroup.c:127-152 | The hinted lookup returns what the tree holds |
| Blkg.HintFollows | kernel/block/blk-cgroup.c:142-149 | After a lookup that updates the hint, the cgroup's hint is what was found, if anything was; nothing else changes |
| BlkgRuns.AncestorsIndexed | kernel/block/blk-cgroup.c:271-307 | A cgroup with a blkg on a queue has blkgs for all its ancestors |
| BlkgRuns.ListedBefore | kernel/block/blk-cgroup.c:222-234 | A queue lists every descendant before its ancestors |
| BlkgRuns.ParentAlive | kernel/block/blk-cgroup.c:387-406 | The parent of an unreleased blkg is unreleased and has a reference left |
| BlkgRuns.HeadMayLeave | kernel/block/blk-cgroup.c:364-377 | The head of a queue's list has no child in the tree |
| BlkgRuns.CreateKeeps | kernel/block/blk-cgroup.c:177-255 | Creation keeps the invariant on every path and succeeds if and only if the cgroup is online, memory is found, there is no blkg yet and the parent has one |
| BlkgRuns.DestroyKeeps | kernel/block/blk-cgroup.c:310-356 | Destroying a blkg without children in the tree keeps the invariant |
| BlkgRuns.ReleaseKeeps | kernel/block/blk-cgroup.c:387-406 | Releasing a blkg without references keeps the invariant, the parent's count included |
| BlkgRuns.HintKeeps | kernel/block/blk-cgroup.c:142-149 | Updating the hint keeps the invariant |
| BlkgRuns.UseKeeps | kernel/block/blk-cgroup.h:260-264 | Taking a reference keeps the invariant |
| BlkgRuns.UnuseKeeps | kernel/block/blk-cgroup.h:272-277 | Dropping a reference keeps the invariant |
| BlkgIndex.Index.constructor | kernel/block/blk-cgroup.c:826-848 | An empty index satisfies the invariant |
| BlkgIndex.Index.LookupBlkg | kernel/block/blk-cgroup.c:127-152 | Returns what the tree holds and updates the hint only when asked |
| BlkgIndex.Index.CreateBlkg | kernel/block/blk-cgroup.c:177-255 | State and result are the specified ones |
| BlkgIndex.Index.TopMissing | kernel/block/blk-cgroup.c:294-301 | The climb ends at the topmost cgroup of the path without a blkg |
| BlkgIndex.Index.CreateTop | kernel/block/blk-cgroup.c:294-306 | One turn makes exactly the topmost missing blkg, if the cgroup is online and memory is found |
| BlkgIndex.Index.LookupCreate | kernel/block/blk-cgroup.c:271-307 | Ends; on success the cgroup and all its ancestors have blkgs; only cgroups on the path gain any; it succeeds whenever they are online and memory is found |
| BlkgIndex.Index.DestroyBlkg | kernel/block/blk-cgroup.c:310-356 | The new state is the specified one |
| BlkgIndex.Index.DestroyAll | kernel/block/blk-cgroup.c:364-377 | Removes all blkgs of the queue, each only when no child of it is left in the tree, and no other |
| BlkgIndex.Index.CssOffline | kernel/block/blk-cgroup.c:794-816 | Removes all blkgs of the cgroup and no other |
| BlkgIndex.Index.ReleaseBlkg | kernel/block/blk-cgroup.c:387-406 | The new state is the specified one |
| Discard.IssueDiscard | kernel/block/blk-lib.c:40-131 | The loop ends; its bios are not empty, consecutive and cover exactly the range (or a proper part of it when memory runs out); none exceeds the rounded-down maximum, all after the first start aligned, all but the first and the last are of maximum size; the error codes come exactly when the source gives them |
| Discard.SplitUnique | kernel/block/blk-lib.c:85-130 | These properties determine the split: there is only one |
| Discard.EndBounds | kernel/block/blk-lib.c:95-109 | One piece is not empty, not too long, and if more is to come ends aligned and as late as that allows |
| Discard.WaitIsExact | kernel/block/blk-lib.c:12-27 | For every interleaving of submissions and completions: the issuer returns only after all bios ended, with an error if and only if one failed with something else than not supported; it is woken exactly when all have ended and complete() is called at most once |
| Discard.NextKeeps | kernel/block/blk-lib.c:18-27 | Each single step keeps the counter exact |
| Acct.EncodeComp | kernel/acct.c:314-339 | The loop yields the 16-bit cut of the code whose mantissa is the value rounded to nearest at the kept precision |
| Acct.CompWithinHalf | kernel/acct.c:314-339 | The code stands for a value within half a unit of the kept precision; values up to 8191 are exact |
| Acct.CompMono | kernel/acct.c:314-339 | Codes and the values they stand for grow with the value |
| Acct.CompExact | kernel/acct.c:336-338 | What is stored stands for the rounded value if and only if the value is below 17178820608; above, the exponent is cut |
| Acct.CompFits | kernel/acct.c:336-338 | The code fits 16 bits if and only if the value is below that limit |
| Acct.CompRoundTrip | kernel/acct.c:314-339 | Every code in normal form is the code of the value it stands for |
| Acct.EncodeComp2 | kernel/acct.c:356-382 | The loop yields the code whose mantissa is the value rounded to nearest, stopping at the largest code |
| Acct.Comp2Exact | kernel/acct.c:356-382 | Below the limit the code stands for the value within half a unit; from it on the code stays at the largest |
| Acct.Comp2Mono | kernel/acct.c:356-382 | Codes grow with the value |
| Acct.Comp2RoundTrip | kernel/acct.c:356-382 | Every 24-bit code is the code of the value it stands for |
| Acct.EncodeFloat | kernel/acct.c:389-402 | Zero gives zero; otherwise the result is a normal number and the value lies from it up to the next one |
| Acct.TowardZero | kernel/acct.c:389-402 | No number with a 24-bit significand lies between the result and the value: truncation toward zero |
| Acct.RelativeError | kernel/acct.c:389-402 | The relative error is below 2^-23 |

## Left out

- The multi-queue variant of the flush sequencer, and reading jiffies more than once in a locked step.
- Statistics, per-direction pairs of the throttle slice (one direction is modelled, both are alike), timers, and the issue loop at the end of blk_throtl_drain().
- Throttle hierarchy: modelled on values passed along, not on objects updated in place; time stands still during a dispatch round.
- ThrottleRuns.EveryRunConserves: leaves the times and limits open, because it holds for any.
- ThrottleRate.RateBound: does not model 64-bit wrap-around of the products, limit changes or the drain, because the bound is promised for fixed limits.
- ThrottleRate.IosWaitSuffices: does not model wrap-around of the 32-bit I/O count, because the count is taken to be below its maximum.
- Deadline: last_sector.
- CFQ: the fallback queue for failed allocations, async queues, idling, preemption and think time; queue identities are not reused after a free.
- CFQ groups: vdisktime and the choice of the next group; groups created or destroyed during a run.
- ScatterGather: the count adjustment in ll_merge_requests_fn(), front and back segment sizes, drain and padding entries, page mapping.
- Elevator: integrity, discard and failfast checks, plug lists, scheduler switching.
- ElevatorQueue.ElvQueue.ElvMerge: takes the scheduler's front-merge answer as given, any mergeable request of its direction that starts where the bio ends, because each scheduler has its own; the deadline scheduler's is DeadlineData.DeadlineQueue.FrontTarget.
- Completion: flush-sequence requests, mixed-merge failfast marks, the recount of segments, and accounting.
- BioChainRaces.CleanRacesExact: is one way, because an error dropped at one bio may still arrive by way of another; the exact condition, on the outcomes, is BioChainLoss.ReliableExact.
- Tags: depth changes, sleeping for a tag, wake-up batches and the share computation, whose verdict is a parameter.
- Blkg: lookups without the queue lock, per-policy data and callbacks, css references.
- Discard: the plug, secure-erase request types and the other users of the batch counter.
- Acct: the record layout and writing of accounting files; comp_t is taken to be 16 bits wide and comp2_t 24.
- sysfs, ioctl, tracing and cgroup file formatting: parsing and printing around the state modelled here, which no property above depends on.
