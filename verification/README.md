# LoomMem and LoomPar coordination protocols

This project models the coordination core of LoomMem, a software coherence layer over shared
memory, and three LoomPar protocols that use its queues, and proves what they keep.

LoomMem hands out shared objects divided into blocks. A block is written by the holder of its
write token and read by anybody: readers copy a block between two checks of its writeback epoch
and version and keep what they accept in a two-index replica cache. Token state moves between
hosts in messages over single-producer single-consumer rings. An object is retired in phases that
every host has to acknowledge before its storage returns to the allocator. Storage has no
generation, and versions and token epochs restart when it is reused, so everything else is sound
across reuse only because of that protocol.

Two kinds of files work together. Protocols are state machines whose steps are the calls, handlers
and shared-memory accesses of the program; theorems about them speak of every reachable state or
every run. The objects of the program are classes with the same fields, changed in place by
methods with the same loops, and each method is proved against the function or the list, queue
or map it stands for. What these functions do is stated again without them: the files named after
laws say when each call succeeds and what it leaves, those named after rounds that whole exchanges
get where they should.

| file | subject |
|---|---|
| `TokenSpec.dfy` | each call and handler of the token service as a function of one block's state |
| `TokenProtocol.dfy` | these functions on all hosts over an unordered network: invariant, single writer, conservation |
| `TokenLaws.dfy` | what one call of the token service gives its caller |
| `TokenRounds.dfy` | whole exchanges: a writeback, a request, a hand-over, a cancellation |
| `TokenHealth.dfy` | exactly when the token survives and stays usable |
| `TokenConservation.dfy` | the number of tokens, and exactly when it falls to none |
| `TokenCancelRace.dfy`, `TokenWedgeRace.dfy` | concrete runs in which a cancellation loses the token, or leaves the block held by nobody |
| `TokenService.dfy` | the service of one host as a class |
| `Retirement.dfy` | retirement and reuse over many objects and hosts |
| `RetirementRuns.dfy` | acknowledgements over whole runs |
| `RetirementLaws.dfy` | when a report counts, watermarks over runs, packets and references |
| `RetirementFinish.dfy` | a retirement can always be finished |
| `RetirementControl.dfy` | the shared control slot as a class |
| `Poller.dfy` | the queue poller's scan |
| `Coherence.dfy` | byte-wise writebacks and reads with the two-index cache, under release consistency |
| `CoherenceRounds.dfy` | undisturbed writes and reads |
| `RangeIO.dfy` | range writebacks and reads over blocks |
| `ReplicaCache.dfy` | replica accounting, eviction and boundaries as a class |
| `Extents.dfy` | free storage as a list: what allocating and freeing mean |
| `ExtentIndex.dfy` | address lists, size bins and bitmaps over the node array |
| `Allocator.dfy` | the extent allocator over an array of nodes |
| `Allocation.dfy` | objects with descriptor and sidecar, rollback, reclamation |
| `Reuse.dfy` | the allocator and the retirement machine together |
| `Discovery.dfy`, `DiscoveryRounds.dfy` | slot pins and exclusive slots at single-access steps, and undisturbed lookups and owners |
| `Ring.dfy`, `RingRounds.dfy`, `RingQueue.dfy` | the ring at single-word steps and its placement, whole pushes and pops, and the ring as a class |
| `Barrier.dfy`, `BarrierRounds.dfy`, `BarrierManager.dfy` | the world barrier over an unordered, duplicating network, its opening, and its class |
| `Manifest.dfy`, `ManifestLaws.dfy`, `ClusterRegistry.dfy` | the function-manifest rendezvous, its success, and its class |
| `RemoteThreads.dfy`, `RemoteResults.dfy`, `ThreadRuntime.dfy` | remote create and complete accounting, results over whole runs, and its classes |

## What turned out false, and exactly when

- That the token always has exactly one place, and that a block is held exactly while leased, fails
  after some cancellations. A cancellation goes straight to the current owner and can overtake the
  request it cancels; the waiter is then dropped, and a later grant finds nobody. When that grant
  arrives in a packet the token is lost (`src/loommem/token.cpp:464-465`): `TokenCancelRace` gives
  such a run. When the requester has meanwhile become the owner and grants to itself, the block
  stays held by nobody and every later request waits for ever
  (`src/loommem/token.cpp:328-330`, `433`, `655-663`): `TokenWedgeRace` gives such a run.
  `TokenHealth.HealthyExactly` proves for every run that the property holds if and only if neither
  kind of grant has happened, `TokenHealth.HandlerFailsExactly` that a handler fails exactly at one.
- That a version determines its content fails for raw tokens. One given back unmodified after
  direct stores changes bytes under the same version (`src/loommem/token.cpp:637-645`).
  `Coherence.AbortHarmlessExactly` proves that this is harmless if and only if the bytes are those
  of the version, and `Coherence.NoTornReads` that no other version suffers.

## Model

| member | source | states |
|---|---|---|
| `TokenProtocol.StepKeeps` | src/loommem/token.cpp:146-645 | Every public call and message handler, on any host, in any order of delivery, keeps the whole protocol invariant: token state only at the owner named by the metadata, at most one grant and then no token at the owner, matching epoch and version in the grant, at most one lease out, each request identity in at most one place |
| `TokenProtocol.RunKeeps` | src/loommem/token.cpp:319-398 | The invariant holds in every state of every run from allocation |
| `TokenProtocol.SingleWriter` | src/loommem/token.cpp:612-645 | In every reachable state only the recorded owner can hold the block, at most one request has a lease, every lease out names the current version and epoch, and the writeback epoch is odd only while the block is held |
| `TokenProtocol.ExactlyOneToken` | src/loommem/token.cpp:319-398 | Until a cancellation overtakes its request, either the owner has the token or exactly one grant travels to it with the current epoch and version, and the block is held exactly when somebody has a lease |
| `TokenProtocol.RequestConservation` | src/loommem/token.cpp:381-442 | Every waiting request is in exactly one place, only the owner queues requests, and a non-empty queue means the block is held or a grant is on its way |
| `TokenProtocol.HandlersSucceed` | src/loommem/token.cpp:444-496 | No handler of such a run fails: the metadata check of a delivered grant passes and its waiter is there |
| `TokenProtocol.StepMetadata` | src/loommem/token.cpp:628-645 | The version rises by exactly one on a modified release and on no other step, and a new owner always means a new epoch |
| `TokenProtocol.EpochsGrow` | src/loommem/token.cpp:365-367 | Over any stretch of a run epochs and versions never fall, and the epoch has risen if the owner changed |
| `TokenProtocol.StaleLeaseRejected` | src/loommem/token.cpp:612-626 | A lease from before any transfer is refused by release and by writeback, on every host, for good and without effect |
| `TokenRounds.WritebackPublishes` | src/loommem/token.cpp:595-645 | Whatever the hosts do in between, a writeback opened under a lease leaves an odd epoch until the lease's modified release, which raises the version by exactly one and gives the lease back; it reports an error only if the token cannot be passed on |
| `TokenRounds.RequestRound` | src/loommem/token.cpp:400-496 | From every reachable state a remote request that reaches the idle owner is served: the owner lets go, one grant travels, and on its arrival the requester has a lease on the current version under a new epoch |
| `TokenRounds.HandoverRound` | src/loommem/token.cpp:647-664 | A release hands the block to the first waiter on another host, and the forwarded requests wait there exactly as they waited before |
| `TokenRounds.CancelRound` | src/loommem/token.cpp:517-563 | Cancelling a request that waits at another host takes exactly that request out of the queue and settles its waiter; every other request, packet and waiter is as it was |
| `TokenLaws.WritebackRound` | src/loommem/token.cpp:595-645 | An owner nobody waits for can always open a writeback and release it modified: one version more, two writeback epochs more, token free |
| `TokenLaws.GrantedOnTheSpot` | src/loommem/token.cpp:146-211 | A request to the idle owner itself gets a current lease at once, with the writeback open exactly if it asked for that |
| `TokenLaws.GrantedLocally` | src/loommem/token.cpp:326-364 | So does a local waiter picked from the queue or by a late request |
| `TokenLaws.GrantedByPacket` | src/loommem/token.cpp:444-496 | And a waiter whose matching grant arrives |
| `TokenLaws.GrantRefused` | src/loommem/token.cpp:444-466 | A grant of another epoch or version, for a missing waiter, or against an open writeback changes nothing |
| `TokenLaws.QueueServed` | src/loommem/token.cpp:647-664 | A release with a local request at the head gives it the lease on what was just published, and the others wait on in their order |
| `TokenLaws.TurnsKept` | src/loommem/token.cpp:400-442 | A holder that receives a run of requests queues them in the order they arrive |
| `TokenLaws.GrantedTooLate` | src/loommem/token.cpp:477-495 | A grant for a request abandoned meanwhile decides it and leaves the token free |
| `TokenLaws.RequestRefused` | src/loommem/token.cpp:400-416 | A request by somebody who has seen a newer version than the block has is refused, at home or by message, and nothing else happens |
| `TokenLaws.CancelAtOwner` | src/loommem/token.cpp:517-546 | The owner removes the first queued request of that identity and no other, and answers; a local one that is not queued is too late |
| `TokenHealth.HealthyExactly` | src/loommem/token.cpp:319-398 | For every run until retirement, cancellations included: there is one token and the block is held exactly while somebody has a lease on it, if and only if no step granted to a waiter that was gone, neither by a grant packet nor by a local grant of the owner; otherwise there is no token, or the owner holds the block for nobody |
| `TokenHealth.HandlerFailsExactly` | src/loommem/token.cpp:444-496 | In every run a delivered message is answered with an error exactly when its delivery grants to a waiter that is gone |
| `TokenHealth.ReleaseFailsExactly` | src/loommem/token.cpp:612-664 | In every run the release of a lease that is out fails exactly for a modified release without an open epoch, or when passing the token on ends at a local waiter that is gone |
| `TokenHealth.WedgedForGood` | src/loommem/token.cpp:655-663 | A block held for nobody stays so for the rest of the run, retirement and closing included |
| `TokenHealth.SpoilNeedsOvertaking` | src/loommem/token.cpp:517-546 | Neither failure happens before a cancellation was acknowledged while its request was still travelling |
| `TokenConservation.TokenLostExactly` | src/loommem/token.cpp:462-466 | Counting tokens alone, the available flag and the grants on their way: until retirement there is exactly one if and only if no grant packet was ever delivered to a host whose waiter was gone, and none for ever after otherwise |
| `TokenConservation.LossNeedsOvertaking` | src/loommem/token.cpp:517-546 | Such a delivery happens only after a cancellation was acknowledged while its request was still travelling |
| `TokenConservation.StepTokens` | src/loommem/token.cpp:234-286 | No step other than such a delivery changes the number of tokens |
| `TokenCancelRace.CancelCanLoseToken` | src/loommem/token.cpp:517-546 | A concrete run, possible with first-in first-out channels, in which a cancellation overtakes its forwarded request and the token ends up nowhere |
| `TokenWedgeRace.CancelCanWedgeBlock` | src/loommem/token.cpp:325-330 | A concrete run, possible with first-in first-out channels and with no grant packet lost, in which a late forwarded request reaches its own requester, now the owner, and leaves the block held with no lease anywhere |
| `WriteTokens.TokenService.Grant` | src/loommem/token.cpp:319-398 | The call does to its block exactly the specified grant (local lease, hand-over with a new epoch, or nothing for a retiring object), and leaves every other block alone |
| `WriteTokens.TokenService.Transfer` | src/loommem/token.cpp:365-398 | The grant goes out first and the waiting requests follow it in their order on the same channel |
| `WriteTokens.SentTogether` | src/loommem/token.cpp:666-681 | Messages to one host arrive on its channel in the order they are sent, behind what is there |
| `WriteTokens.TokenService.Release` | src/loommem/token.cpp:612-664 | A release is refused when stale or not held; otherwise metadata is published and the head of the queue is granted |
| `WriteTokens.TokenService.Request` | src/loommem/token.cpp:146-211 | A fresh serial each time; the request is sent, queued, or granted on the spot, and a failed activation leaves no trace |
| `WriteTokens.TokenService.HandleMessage` | src/loommem/token.cpp:565-593 | Dispatch: packets for a retiring object do nothing, ill-addressed ones are refused without effect, unresolvable blocks are answered, all others do their specified step |
| `WriteTokens.OrphanDecides` | src/loommem/token.cpp:565-593 | A packet for a block that is gone leaves no request undecided: requests are refused to their requester, grants refuse their own waiter, cancellations succeed |
| `WriteTokens.TokenService.HandleGrant` | src/loommem/token.cpp:444-496 | A grant that does not match the metadata or has no waiter changes nothing; otherwise it confers the token |
| `WriteTokens.TokenService.HandleCancel` | src/loommem/token.cpp:517-546 | Forwarded unless owner; the queued request is removed and acknowledged, and a local one that is not queued is too late |
| `WriteTokens.Erase` | src/loommem/token.cpp:533-541 | The search loop finds a request exactly when it is queued and removes its first occurrence only |
| `WriteTokens.TokenService.CancelRequest` | src/loommem/token.cpp:234-286 | A granted request is released, a decided one reported and dropped, an active one marked and its cancellation sent; when the block does not resolve the requester acknowledges itself, and the request is gone or, if its caller waits for the outcome, cancelled |
| `WriteTokens.CancelOrphanSettles` | src/loommem/token.cpp:276-281 | Cancelling for a block that is gone settles the request at once, and only a caller that waits for the outcome keeps a waiter |
| `WriteTokens.TokenService.ProgressOutbound` | src/loommem/token.cpp:666-681 | Flushing loses, repeats and reorders nothing on any channel, and whatever stays queued faces a full ring |
| `WriteTokens.TokenService.CloseObject` | src/loommem/token.cpp:683-726 | Sealing succeeds exactly when no operation is active, every grant nobody collected is current and the only one of its block, and no block is held otherwise; it removes exactly the waiters of the object, never a lease somebody collected, publishes nothing, and discards the object's queues |
| `WriteTokens.TokenService.ForgetAllocation` | src/loommem/token.cpp:728-734 | Exactly the entries of the object go |
| `WriteTokens.TokenService.RegisterAllocation` | src/loommem/token.cpp:113-128 | Succeeds exactly when the host owns every block, and then every block is available |
| `WriteTokens.TokenService.BeginWriteback` | src/loommem/token.cpp:595-610 | Succeeds exactly for a current, held lease with an even writeback epoch, which is then one higher and odd |
| `WriteTokens.TokenService.Collect` | src/loommem/token.cpp:213-232 | A decided request is handed to its caller once |
| `Retirement.RunKeeps` | src/loommem/allocator.cpp:331-421 | All hosts, all interleavings of calls, handlers, deferred queues, rings and poller steps keep the retirement invariant, over any number of objects and reuses |
| `RetirementRuns.ReportIsCurrent` | src/loommem/allocator.cpp:387-421 | In every run a host that reports acts on the control slot as it read it, at every state since it read it, so no report is ever stale and one that is not accepted changes nothing; the cursors of a draining report are counts of packets popped and handled, each taken since then |
| `RetirementRuns.RunOnward` | src/loommem/allocator.cpp:361-366 | The control slot only moves forward through phases and transactions, so equal readings mean it stood still |
| `Retirement.PhaseNeedsAll` | src/loommem/allocator.cpp:395-418 | A phase advances only when every configured host has acknowledged it |
| `RetirementFinish.RetirementCanFinish` | src/loommem/allocator.cpp:387-421 | A retirement that has begun can be finished from every reachable state in which the hosts are between calls, hold nothing of the object and have handled what was sent: reports and one free lead to an idle slot without the object |
| `RetirementLaws.DrainedIsAccepted` | src/loommem/allocator.cpp:408-414 | In every run a draining report is accepted exactly when no cursor is below the watermark its producer recorded, which is what it had published when it closed; so a host that has handled all of that is always accepted |
| `RetirementLaws.ReportAnswered` | src/loommem/allocator.cpp:387-421 | A report counts exactly if it is for the slot's phase and transaction and, in closing, its host has no active operation, in draining, no cursor is below a watermark |
| `RetirementLaws.ReportRecorded` | src/loommem/allocator.cpp:395-418 | A counted report adds its host to the mask of the phase and nothing else, and advances the phase exactly when all configured hosts are in it |
| `RetirementLaws.AskedUntilCounted` | src/loommem/allocator.cpp:377-385 | A host is asked for a report exactly while one could count and has not |
| `RetirementLaws.PacketsFlow` | src/loommem/poller.cpp:145-192 | No packet between two hosts is lost, repeated or invented on its way through deferred queue, ring and pop; only sealing discards deferred packets of the retiring object |
| `RetirementLaws.ReferencesCounted` | src/loommem/allocator.cpp:302-329 | A host's count of active operations moves with its own references and nothing else while the object lives |
| `Retirement.CutIsComplete` | src/loommem/poller.cpp:194-209 | From the cleaning phase on, no deferred queue, ring or handler on any host has a packet of the object |
| `Retirement.SealedHasNoOperations` | src/loommem/allocator.cpp:302-319 | A host that has sealed a retiring object has no active operation and no waiter on it from then on |
| `Retirement.ReclaimableIsGone` | src/loommem/runtime.cpp:244-273 | When the last phase is reached every host has dropped its replicas, entries, waiters and references |
| `Retirement.ReclaimNeverBlocks` | src/loommem/allocator.cpp:578-588 | The holder and active-operation checks of reclamation cannot fail |
| `Retirement.FreeIsSafe` | src/loommem/allocator.cpp:560-615 | When extents are returned no host has any state or packet of the object, before or after |
| `Retirement.ReuseIsSafe` | src/loommem/allocator.cpp:217-233 | Whatever storage an allocation gets, whole or part, used or new, no packet, waiter, lease, entry or replica of an earlier object can be taken for it, and its token entries start as the token protocol starts |
| `RetirementControls.RetirementControl.AcknowledgeRetirement` | src/loommem/allocator.cpp:387-421 | The in-place call is the acknowledgement step of the retirement machine, watermark loop included |
| `RetirementControls.RetirementControl.BeginRetire` | src/loommem/allocator.cpp:331-359 | Each answer under exactly its own condition: a success on an idle slot starts the next sequence in closing with empty masks, a repeated call sees the running transaction, and every refusal leaves all as it was |
| `RetirementControls.RetirementControl.RetirementAcknowledged` | src/loommem/allocator.cpp:377-385 | Answers exactly whether this host has nothing left to report for the snapshot |
| `Poller.QueuePoller.ScanOnce` | src/loommem/poller.cpp:145-192 | With producers appending all the while, a failing pop or handler, and a stop from outside: each queue's packets are handled in order without gap or repetition, at most a batch from each; a scan that was not ended gave everything each queue had up to a batch; the next scan starts one queue further except after a failed handler |
| `Poller.QueuePoller.DrainQueue` | src/loommem/poller.cpp:151-187 | Every popped packet has been handed to the handler before the next is popped; draining ends at an empty queue, a full batch, a failed pop or a refused packet, which is then the last one handled |
| `Coherence.RunKeeps` | src/loommem/runtime.cpp:836-901 | Byte-wise writers and readers on all hosts keep the cache and seqlock invariant |
| `Coherence.NoTornReads` | src/loommem/runtime.cpp:857-890 | Every accepted copy is exactly what stood in shared memory when the version it reports was published, unless a raw lease of that very version was given back unmodified after changing bytes |
| `Coherence.BufferedPublishes` | src/loommem/runtime.cpp:987-1001 | A buffered release publishes the previous version with exactly its own range overwritten, byte by byte, provided that version was never given back with changed bytes |
| `Coherence.MonotoneReads` | src/loommem/runtime.cpp:842-850 | Versions returned to one host never decrease |
| `Coherence.AcquireBoundary` | src/loommem/runtime.cpp:1073-1082 | After an acquire boundary, or after dropping its copies, a host never returns a version older than the one then committed |
| `Coherence.EpochParity` | src/loommem/token.cpp:130-144 | The writeback epoch is odd exactly while a writer is active, and at rest the bytes are those of the current version unless it was given back with changed bytes |
| `Coherence.StepGrows` | src/loommem/token.cpp:628-645 | Only a modified release raises the version, by one, and published contents never change |
| `Coherence.QuietRead` | src/loommem/runtime.cpp:857-898 | A read no writer disturbs, without a valid copy at hand, succeeds with the shared version and bytes and keeps them as the current copy |
| `CoherenceRounds.WriteRound` | src/loommem/runtime.cpp:983-1001 | An undisturbed buffered writeback writes exactly its range, raises the version by one, closes the epoch two higher, and publishes exactly these bytes |
| `CoherenceRounds.PromoteRound` | src/loommem/runtime.cpp:857-890 | An old copy whose version is still current is used again without copying a byte, and becomes the current copy |
| `CoherenceRounds.ReadAfterBoundary` | src/loommem/runtime.cpp:1073-1082 | After a boundary a read returns the version then shared: the host's own copy if nobody has written since, the shared bytes otherwise |
| `Coherence.AbortHarmlessExactly` | src/loommem/token.cpp:637-645 | Giving a raw lease back unmodified is harmless if and only if the bytes are those of the version: then every read of the version is exact in every continuation on every host, and otherwise some continuation accepts torn bytes |
| `Coherence.DirtyAbortTears` | src/loommem/token.cpp:637-645 | After changed bytes were given back unmodified, every host in every state of its reader and cache can go on, with reads alone, to accept bytes that are not the content of the version they are reported with |
| `RangeIO.SharedObject.AcquireWriteRange` | src/loommem/runtime.cpp:934-969 | The token of every covered block is collected in order; the first one that cannot be had makes the call give back exactly those taken, last first; on success the buffer holds the current bytes of the range |
| `RangeIO.SharedObject.ReleaseWriteBuffer` | src/loommem/runtime.cpp:983-1018 | Byte by byte and version by version: the first block that is not admitted, not released or not passed on ends the writeback, with exactly the range's bytes in the admitted blocks written, exactly the released blocks' versions raised by one, and the leases not tried given back unmodified |
| `RangeIO.SharedObject.ReadRange` | src/loommem/runtime.cpp:826-904 | A range read of stable memory returns exactly that slice with one version per covered block, for any block size and short last block, and is refused exactly for an empty or outside range |
| `RangeIO.SharedObject.WriteThenRead` | src/loommem/runtime.cpp:972-1018 | Round trip: the written bytes come back under versions one higher and every other byte is as before |
| `RangeIO.CoveredIff` | src/loommem/runtime.cpp:829-830 | The first-to-last block range contains a block exactly when some byte of the range lies in it |
| `RangeIO.Piece` | src/loommem/runtime.cpp:897-900 | The parts of consecutive blocks meet: each starts where the previous one ended |
| `ReplicaCache.Cache.Erase` | src/loommem/runtime.cpp:701-714 | Counts, bytes, holder bit and version mark follow the removed copy; the bit is cleared only with the last copy |
| `ReplicaCache.Cache.Replace` | src/loommem/runtime.cpp:763-775 | Installing over an old or current copy never clears the holder bit on the way |
| `ReplicaCache.Cache.CacheReplica` | src/loommem/runtime.cpp:756-777 | After an installation the books balance, both bounds hold, the version mark is the cached version plus one, nothing was evicted needlessly, and the new copy itself stays unless it does not fit alone |
| `ReplicaCache.Cache.EvictReplicas` | src/loommem/runtime.cpp:738-754 | Eviction ends within both bounds, nothing evicted was used later than anything kept, and with the last evicted copy still there a bound would be exceeded |
| `ReplicaCache.Cache.FindVictim` | src/loommem/runtime.cpp:743-750 | The victim is a least recently used copy of both indexes |
| `ReplicaCache.Cache.InvalidateObject` | src/loommem/runtime.cpp:716-725 | Exactly the copies of the object go, and the holder bit with them |
| `ReplicaCache.Cache.SynchronizeAcquire` | src/loommem/runtime.cpp:1073-1082 | The boundary drops the unvalidated old copies and makes every current copy old |
| `ReplicaCache.Cache.DropBlock` | src/loommem/runtime.cpp:1002-1009 | A writeback drops this host's own copy of the block and nothing else |
| `ReplicaCache.Cache.Lookup` | src/loommem/runtime.cpp:842-850 | A hit returns the cached copy and makes it the most recently used |
| `Extents.CanonicalUnique` | src/loommem/allocator.cpp:539-558 | A sorted, fully coalesced free list is determined by its free bytes |
| `Extents.CarveCovers` | src/loommem/allocator.cpp:504-530 | Allocation removes exactly the allocated bytes |
| `Extents.GiveCovers` | src/loommem/allocator.cpp:549-557 | Freeing adds exactly the freed bytes |
| `Extents.ClashIff` | src/loommem/allocator.cpp:545-548 | The two-neighbour test refuses a freed extent exactly when it overlaps free bytes |
| `Extents.GiveCarve` | src/loommem/allocator.cpp:204-208 | Freeing what was just allocated restores the exact free list |
| `Extents.CarveKeeps` | src/loommem/allocator.cpp:492-537 | Free and live extents keep partitioning the pool when one is allocated |
| `Extents.GiveKeeps` | src/loommem/allocator.cpp:539-558 | A live extent is never refused as overlapping, and freeing it keeps the partition |
| `ExtentIndex.BinRange` | src/loommem/allocator.cpp:455-459 | Bin b holds exactly the sizes from 2^b to below 2^(b+1) |
| `ExtentIndex.SmallerBin` | src/loommem/allocator.cpp:497-499 | Extents of lower bins are too small for the request |
| `ExtentIndex.InsertBinOk` | src/loommem/allocator.cpp:461-471 | Linking a node in front of its bin keeps every list of the index consistent |
| `ExtentIndex.RemoveBinOk` | src/loommem/allocator.cpp:473-482 | Unlinking a node from its bin keeps them consistent and clears the bitmap bit with the last entry |
| `ExtentIndex.InsertAddressOk` | src/loommem/allocator.cpp:515-521 | Linking a node into the address list inserts exactly its extent |
| `ExtentIndex.RemoveAddressOk` | src/loommem/allocator.cpp:527-531 | Unlinking a node from the address list removes exactly its extent |
| `Allocator.AlignUpExact` | src/loommem/allocator.cpp:31-41 | 64-bit rounding gives the least aligned address, or 0 exactly when there is none |
| `Allocator.PowerOfTwoExactly` | src/loommem/allocator.cpp:31-36 | The power-of-two test accepts exactly the powers of two |
| `Allocator.FitsExactly` | src/loommem/allocator.cpp:507-513 | An extent is said to hold a request exactly if some aligned place inside it leaves room |
| `Allocator.IndexRefinesList` | src/loommem/allocator.cpp:461-482 | A free node is in exactly the bin of its size, and a bitmap bit is set exactly when some free extent has that size class |
| `Allocator.ListsPartitionNodes` | src/loommem/allocator.cpp:484-490 | Every node is in exactly one of the data, coherence and unused lists and is marked free exactly when in an address list |
| `Allocator.SharedExtents.constructor` | src/loommem/allocator.cpp:51-99 | Formatting leaves one free extent per pool and every other node unused |
| `Allocator.SharedExtents.FindFit` | src/loommem/allocator.cpp:496-507 | The bin search fails only when no free extent can hold the aligned request |
| `Allocator.SharedExtents.AllocateExtent` | src/loommem/allocator.cpp:492-537 | The pool is reported exhausted exactly when nothing fits, and metadata missing only when no node is unused and a fitting extent would have to be split on both sides; success carves the aligned front of one free extent and uses at most one node; every failure leaves both free lists as they were |
| `Allocator.SharedExtents.FreeExtent` | src/loommem/allocator.cpp:539-558 | An extent is refused exactly when empty, overlapping free bytes, or needing a node when none is left; otherwise it is joined with its neighbours; at most one node is used |
| `Allocator.SharedExtents.CountNodes` | src/loommem/allocator.cpp:593-597 | Counting nodes by their state counts exactly the unused list |
| `Allocator.SharedExtents.InsertBin` | src/loommem/allocator.cpp:461-471 | The in-place links keep the pool consistent and touch no address field |
| `Allocator.SharedExtents.RemoveBin` | src/loommem/allocator.cpp:473-482 | The in-place unlinking keeps the pool consistent and touches no address field |
| `Allocation.PlacementOk` | src/loommem/allocator.cpp:211-215 | The rounded object and its descriptor lie in the extent, each on its boundary |
| `Allocation.SharedAllocator.Allocate` | src/loommem/allocator.cpp:159-239 | Refused exactly for malformed arguments; without a slot exactly when every slot is in use or pinned; otherwise it fails only if a pool has no room for its extent or fewer than two nodes are unused. On any failure both free lists are unchanged; a new object gets storage no live object has |
| `Allocation.MalformedExactly` | src/loommem/allocator.cpp:164-181 | Malformed are exactly sizes of zero, alignments and block sizes that are no powers of two, blocks below 64 bytes, and 64-bit overflows |
| `Allocation.SharedAllocator.Rollback` | src/loommem/allocator.cpp:204-208 | Undoing the data extent after a failed sidecar allocation cannot fail and restores the exact list |
| `Allocation.SharedAllocator.Free` | src/loommem/allocator.cpp:560-615 | Each refusal (not retired by this host, no slot, slot pinned, bad address, replica holders, active operations, fewer than two nodes) happens exactly under its own condition; otherwise both extents are returned and the control slot is idle: never one pool only |
| `Reuse.KeysApart` | src/loommem/allocator.cpp:202-230 | Block records of different live objects have different addresses |
| `Reuse.JointRunIsRun` | src/loommem/allocator.cpp:159-239 | Every run in which objects come from the allocator is a run of the retirement machine: the fresh address and the disjoint block records that machine asks for are always what the allocator gives |
| `Reuse.AllocatedIsClean` | src/loommem/allocator.cpp:217-233 | In every such run a new object, in storage new or used, meets no packet of an earlier one, and its token entries start as the token protocol starts |
| `Reuse.AllocateObject` | src/loommem/allocator.cpp:159-239 | Each successful allocation of the class is a step the retirement machine can take, and both agree on objects and records afterwards |
| `Reuse.ReclaimObject` | src/loommem/allocator.cpp:560-615 | In every reachable state reclaiming a retired object is refused only for a pinned slot or too few nodes; a reclamation is the machine's step, control slot included |
| `Discovery.RunKeeps` | src/loommem/allocator.cpp:258-274 | Any number of lookups and one extent-lock holder keep the slot invariant at every shared load, store and swap |
| `Discovery.PinnedStaysBound` | src/loommem/allocator.cpp:262-271 | From a successful lookup until it unpins, the slot names the address it looked up and nobody owns the slot |
| `Discovery.CountExact` | src/loommem/allocator.cpp:183-192 | While a slot is owned nobody holds it; otherwise its count is exact and never the sentinel |
| `Discovery.AddressChangesOwned` | src/loommem/allocator.cpp:567-574 | An address of a slot changes only while its owner has it alone |
| `DiscoveryRounds.LookupAlone` | src/loommem/allocator.cpp:258-274 | In every reachable state an undisturbed lookup pins the first slot that names the address and can be pinned, adding one reader, and fails exactly when there is none |
| `DiscoveryRounds.UnpinGives` | src/loommem/allocator.cpp:321-329 | Leaving gives back exactly the one reader |
| `DiscoveryRounds.OwnerRound` | src/loommem/allocator.cpp:183-192 | A slot nobody is counted in can be taken, rewritten and left free with its new address |
| `Ring.StepRefines` | src/loommem/queue.cpp:222-322 | Each step of the ring is a step of a bounded first-in first-out queue; full is answered only to a full queue and empty to an empty one |
| `Ring.PoppedIsPrefix` | src/loommem/queue.cpp:273-322 | Popped messages are a prefix of the pushed ones, at most a capacity behind, and no pop reports corruption |
| `Ring.WriteReadApart` | src/loommem/queue.cpp:244-268 | The slot being written is never the slot being read |
| `RingRounds.PushAlone` | src/loommem/queue.cpp:222-271 | In every reachable state, whatever the consumer is in the middle of, a valid push appends its message exactly if there is room and answers full otherwise |
| `RingRounds.PopAlone` | src/loommem/queue.cpp:273-322 | In every reachable state, whatever the producer is in the middle of, a pop returns the front of the queue exactly if it is not empty |
| `Ring.SizeFits` | src/loommem/queue.cpp:17-37 | The region size never overflows for accepted dimensions |
| `Ring.PairsDistinct` | src/loommem/queue.cpp:39-51 | Every directed pair of hosts has its own index below the queue count |
| `Ring.PairOf` | src/loommem/queue.cpp:39-51 | Every index below the queue count belongs to a pair |
| `Ring.QueuesApart` | src/loommem/queue.cpp:124-140 | Queues of different pairs occupy disjoint ranges inside the region |
| `RingQueue.SpscQueue.Push` | src/loommem/queue.cpp:222-271 | A push appends a well-formed message unless the queue is full |
| `RingQueue.SpscQueue.TryPop` | src/loommem/queue.cpp:273-322 | A pop returns the oldest message, word for word, or finds the queue empty |
| `Barrier.RunKeeps` | src/loompar/barrier.cpp:39-92 | Any calls and any delivery order, repetition or loss keep the barrier invariant |
| `Barrier.PassedMeansAllArrived` | src/loompar/barrier.cpp:39-63 | A wait succeeds for a generation only after every host had exactly its participant count of calls in it, whatever callers do |
| `Barrier.WithinOne` | src/loompar/barrier.cpp:13-37 | No host is ahead of the coordinator or more than one generation behind it |
| `Barrier.NeverBroken` | src/loompar/barrier.cpp:21-28 | Callers that keep their counts and wait for their turn never see a broken barrier |
| `BarrierRounds.RoundOpens` | src/loompar/barrier.cpp:13-92 | When all hosts have reported a round of a disciplined run, deliveries alone bring every host to the next round, and every caller waiting in it can return with success |
| `BarrierRounds.CallParks` | src/loompar/barrier.cpp:39-63 | A caller that takes part for the first time in a round is never refused |
| `BarrierRounds.WaitCounts` | src/loompar/barrier.cpp:39-63 | A call is counted; the last of its host reports, and the last report at the coordinator opens the round for all hosts |
| `BarrierRounds.WaitRefused` | src/loompar/barrier.cpp:39-56 | A wrong count or an extra caller is refused and breaks the barrier for all hosts |
| `BarrierRounds.HandleCases` | src/loompar/barrier.cpp:65-92 | Late messages do nothing, a report is counted once, a release advances a host that has reported, and a message of a later round breaks the barrier |
| `BarrierManagers.BarrierManager.Wait` | src/loompar/barrier.cpp:39-63 | The in-place call is the specified wait step of its entry, with exactly the specified messages sent |
| `BarrierManagers.BarrierManager.Handle` | src/loompar/barrier.cpp:65-92 | The in-place handler is the specified step of its entry |
| `BarrierManagers.BarrierManager.Idle` | src/loompar/barrier.cpp:99-106 | Idle exactly when no unbroken barrier has a round in progress |
| `Manifest.OrderIrrelevant` | src/loompar/cluster_registry.cpp:37-51 | Tables registered in different orders install the same sorted table |
| `Manifest.RunKeeps` | src/loompar/cluster_registry.cpp:119-149 | Any order and repetition of genuine fragments, before or after installation, keeps every host's view exact |
| `Manifest.VerdictExact` | src/loompar/cluster_registry.cpp:96-117 | Ready and failed depend only on the installed table and the set of fragments received |
| `Manifest.ReadyMeansAgreement` | src/loompar/cluster_registry.cpp:173-182 | Readiness on one host means every peer installed the same table and resolves every identity alike |
| `Manifest.ResolveExact` | src/loompar/cluster_registry.cpp:173-182 | A resolved identity names exactly one table entry |
| `Manifest.FunctionId` | src/loompar/cluster_registry.cpp:31-35 | The hashing loop is the fold over the name |
| `ManifestLaws.OneByteDiffers` | src/loompar/cluster_registry.cpp:31-35 | Names that differ in exactly one byte, wherever it is, never share an identity |
| `ManifestLaws.KnownIdentities` | src/loompar/cluster_registry.cpp:31-35 | The identities of the empty name, "a" and "ab" are the published values of this hash |
| `ManifestLaws.InstallExactly` | src/loompar/cluster_registry.cpp:37-94 | A first installation succeeds exactly for at most 256 valid functions with different identities and callbacks, in any order, and then has exactly them |
| `ManifestLaws.InstallAgain` | src/loompar/cluster_registry.cpp:52-61 | Installing again changes nothing and succeeds exactly for the same table with the same callbacks |
| `ManifestLaws.HandleExactly` | src/loompar/cluster_registry.cpp:119-149 | A fragment is accepted exactly when it is addressed and formed properly and agrees with what its sender sent before; otherwise the registry fails, except on a wrong address |
| `ManifestLaws.RendezvousSucceeds` | src/loompar/cluster_registry.cpp:96-117 | Hosts that install the same table all become ready once what was sent has arrived, and none fails |
| `ManifestLaws.ResolveFinds` | src/loompar/cluster_registry.cpp:173-182 | Every installed function is found under its identity with its argument size, and refused with any other |
| `ManifestLaws.ResolveRefuses` | src/loompar/cluster_registry.cpp:173-182 | Unknown identities are not found, and a registry that failed or is not ready serves nothing |
| `ManifestLaws.BeforeExactly` | src/loompar/cluster_registry.cpp:40-40 | Names are in lexicographic order: the first different byte decides, and a proper beginning comes first |
| `ClusterRegistries.ClusterRegistry.Install` | src/loompar/cluster_registry.cpp:37-94 | The in-place call leaves the specified state and status, checking loops included, and a first success sends every entry to every other host; nothing is sent otherwise |
| `ClusterRegistries.ClusterRegistry.CheckLocked` | src/loompar/cluster_registry.cpp:96-117 | The checking loops compute the specified verdict |
| `ClusterRegistries.ClusterRegistry.Handle` | src/loompar/cluster_registry.cpp:119-149 | The in-place handler leaves the specified state and status |
| `ClusterRegistries.ClusterRegistry.Lookup` | src/loompar/cluster_registry.cpp:165-171 | An identity is found exactly when it is installed |
| `RemoteThreads.RunKeeps` | src/loompar/runtime.cpp:391-443 | Launches, executions, repeated and late acknowledgements and completions, joins and detaches keep the accounting invariant on all hosts |
| `RemoteThreads.PendingExact` | src/loompar/runtime.cpp:260-268 | The pending counter is the number of remote home records still launching or running |
| `RemoteThreads.SlotsExact` | src/loompar/runtime.cpp:296-308 | Each slot taken is given back exactly once, and the running count never exceeds a nonzero limit |
| `RemoteThreads.CountersPositive` | src/loompar/runtime.cpp:433-434 | No counter is ever decremented below zero |
| `RemoteThreads.CompletedIsFinal` | src/loompar/threading.cpp:124-138 | A record completes at most once, keeps its result until reclaimed, and never comes back |
| `RemoteThreads.OneResult` | src/loompar/runtime.cpp:453-464 | All completions ever sent for a thread carry the same result |
| `RemoteResults.JoinedResult` | src/loompar/runtime.cpp:391-443 | What a join returns is how the thread really ended: the code its callback returned, or the refusal the execution host gave |
| `RemoteResults.RemoteRound` | src/loompar/runtime.cpp:240-270 | A launch that is admitted and finds a slot can be carried through to a join that returns the callback's code, with every counter and table as before the launch |
| `RemoteResults.PendingBounded` | src/loompar/runtime.cpp:240-268 | The number of outstanding remote launches of a host never exceeds a nonzero limit |
| `RemoteResults.LaunchAdmitted` | src/loompar/runtime.cpp:240-268 | A remote launch is admitted exactly while that number is below the limit |
| `ThreadRuntime.ThreadManager.MarkRunning` | src/loompar/threading.cpp:112-122 | A delayed acknowledgement never undoes completion |
| `ThreadRuntime.ThreadManager.MarkCompleted` | src/loompar/threading.cpp:124-138 | Only the first completion takes effect; a detached record goes at once |
| `ThreadRuntime.ThreadManager.Join` | src/loompar/threading.cpp:222-246 | Refused exactly for the thread itself, a second joiner, and detached or unlaunched records; otherwise the record belongs to this joiner, who gets the recorded result and reclaims it |
| `ThreadRuntime.ThreadManager.FinishJoin` | src/loompar/threading.cpp:231-243 | After the wait the record gives its result and goes, also when memory could not be acquired |
| `ThreadRuntime.ThreadManager.Detach` | src/loompar/threading.cpp:248-258 | Detaching marks a live record and reclaims a completed one |
| `ThreadRuntime.Executor.HandleCreate` | src/loompar/runtime.cpp:391-424 | A create request starts at most one execution, takes at most one slot and is answered |
| `ThreadRuntime.Executor.Reap` | src/loompar/runtime.cpp:453-464 | One pass gives back one slot and sends one completion per finished execution, and keeps the others in order |
| `ThreadRuntime.ReapedAre` | src/loompar/runtime.cpp:453-464 | The finished executions are reported with their own code and result, the others stay, both in their order |
| `ThreadRuntime.Executor.FlushOutgoing` | src/loompar/runtime.cpp:466-473 | Exactly the accepted messages have gone out and exactly the refused ones wait again, each once and in their order |
| `ThreadRuntime.Executor.ReserveExecution` | src/loompar/runtime.cpp:296-304 | A slot is taken exactly when the limit allows |

## Left out

- TokenProtocol.HandlersSucceed: stated for runs without an overtaken cancellation, because a grant whose waiter is gone does fail; `TokenHealth.HandlerFailsExactly` says for every run when.
- TokenProtocol.ExactlyOneToken: stated for states without an overtaken cancellation, because an overtaken one may spoil the block; `TokenHealth.HealthyExactly` has the exact condition for every run.
- TokenProtocol.RequestConservation: stated for states without an overtaken cancellation or retirement, because both drop requests on purpose.
- Coherence.NoTornReads: says nothing of a version that was given back unmodified with changed bytes, because there it is false; `Coherence.AbortHarmlessExactly` shows that the exception is exact.
- Barrier.NeverBroken: stated for callers that keep their counts and call once per round, because the source breaks the barrier on purpose for the others.
- RemoteThreads.RunKeeps: create requests are delivered at most once, as the rings deliver them, because a repeated one after its execution was reaped would start the thread again.
- Message delivery is unordered for tokens, barriers, manifests and threads, which includes the first-in first-out order of the real channels; retirement uses first-in first-out channels because its watermarks need them.
- Shared memory is sequentially consistent; cache-line flushes, fences and visibility modes always succeed and are not part of this model.
- The 64-bit occupancy bitmaps and host masks are lists of booleans and sets; masking with `~(alignment - 1)` is division.
- Counters other than allocation sizes and addresses do not wrap; sequence exhaustion of the retirement slot is modelled.
- Timeouts and clocks: a call that times out is a step that does not happen, or a block that is not stable.
- Token state is proved for one block at a time, since calls on different blocks share no token state; the service class keeps them apart explicitly.
- The retirement machine lets token calls and handlers do anything to their own object, which is more than the code does.
- The mutexes of a host make each token call, handler and cache operation one step; the bodies of those calls do not interleave.
- The compile-time array of 4096 extent nodes is an array of any size, and the discovery slots a list of any length.
- Staged writes and their release at a synchronization point are sequences of modelled writebacks.
- RangeIO.SharedObject.ReleaseWriteBuffer: how the token service answers for each block is an argument, since the token protocol decides it; replica dropping is in `ReplicaCache`.
- Allocation.SharedAllocator.Free: the control slot, pins, holders and active operations it reads are arguments; `Reuse`, `Retirement` and `Discovery` supply them.
- Allocation.SharedAllocator.Allocate: which free slots are pinned is an argument; `Discovery` has the pins.
- WriteTokens.TokenService.CancelRequest: a cancellation for an unresolvable block number of a retiring object is treated as any unresolvable block; no request for such a block can exist.
- The coordinator's waiting loop of a free, region mapping, bootstrap, header formats and their validation, affinity setup and idle back-off of the poller.
- Fibers, worker loops, placement scoring, load samples, thread migration, condition bitmaps and the C and C++ interfaces.
- Liveness, fairness and host failure: the source does not promise them. What is proved is that the rest of an exchange is always possible, not that it happens.
