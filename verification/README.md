# Verified model of the NICC datapath

NICC chains components that run on a SmartNIC's ARM cores, on its DPA and in its flow engine. This
project models the parts of it where correctness depends on state kept over whole runs, and proves
what those parts keep.

**The SoC datapath.** `SoCWrapper::__launch` moves receive buffers between two queue pairs. From
the prior component block to the next a buffer goes through the receive ring, the worker's receive
queue, the user's handler, the worker's transmit queue, `_tx_queue` and the in-flight send ring,
and then back to the receive ring it came from. From the next component block to the prior the
worker is skipped. Each direction is a *lane*.

- `Lanes` is the abstract lane: seven stages, each a sequence of ring slots. Its invariant says
  that the stages one after the other are the ring in ring order, and that the packets received are
  the packets sent followed by those held. `Launches` composes the moves into one iteration and into
  any number of them. A `Choice` holds what the card does in one iteration; the theorems hold for
  every sequence of choices.
- `RdmaQp`, `ShmQueue`, `SocDatapath`, `SocTransmit` and `SocWrapper` are the code: classes with the
  original's fields, loops and in-place updates. Every method is proved to make exactly the move of
  the lane it belongs to, so the theorems about lanes become statements about the fields
  (`EndToEnd`, `OwnedOnce`, `PostedIsTheWindow`, `FreeIsTheRunAtRecvHead`, `CreditsAgree`).
- `SocChannel`, `SocMemory` and `SocSystem` build the initial state from one region of raw memory
  and run the system with the shipped constants (`StartAndRun`). The ring size and the batch sizes
  stay parameters everywhere else; `Launches.Fits` lists the inequalities they must meet.

The card is extra state of `RdmaSocQp`: the receives and the sends it holds, how many of them have
finished, and the frames it delivered and transmitted. It walks the chain of work requests it is
handed and finishes them in posting order. When it finishes how many is an input (`Card`) over which
every theorem quantifies; a poll reports all that have finished, up to its limit. The user's handler
is a class that records what it is called with.

**Progress.** The send completion queue is polled in `__tx_burst` only, and that runs only when
something is to be sent. So a lane stops for good exactly when the card holds no receive and no
buffer is free (`StalledIff`, `StalledForever`); in terms of the fields, when the sends in flight and
the messages held are the whole ring (`StalledOnFields`). With the shipped constants sixteen full
batches without a reported send completion lead there (`StallIsReachable`), on the direct lane as
well. Safety is not affected.

**The shared-memory queue.** `ShmQueue` is the queue used by one thread. `SpscRing` is the same queue
under every interleaving of one producer's and one consumer's single memory accesses: linearizable,
and every operation completes in a fixed number of its own accesses.

**The hugepage allocator.** `HugeAlloc` over `Tiling`: free and allocated blocks together exactly
tile the regions that were added, and every buffer carries the key of its region. `AddRawBuffer`
models the remainder branch as well, and shows that the freelists stay well formed exactly for sizes
that are a multiple of the largest class. `FreeBuf` takes any buffer of a class size, and keeps a
sound allocator sound exactly if that buffer was out.

**The DPA completion queue.** `DpaCq`: the owner-bit test against a card that writes whenever it has
room, including the wrap of the 32-bit consumer index.

**CRC and QPInfo.** `Crc32` over `Polynomials`: the value computed with the table is the remainder
of a division of polynomials, and nothing else is. `QpInfo`: what `serialize` writes is what
`deserialize` restores, exactly for records that fit. An integer of 2^31 or more makes `stoi`
throw, and a name with `;` or `:` in it is cut; no check in the code keeps such records out.

Where comments and code differ the model follows the code: the receive batch constant is the most
completions one poll may take (its comment calls it a minimum), and `alloc` returns null when nothing
is left (its comment promises an invalid buffer or an exception).

## Model

| member | source | states |
|---|---|---|
| `Lanes.StepKeepsInv` | lib/wrapper/soc/src/soc_wrapper.cc:157-284 | every move of the datapath keeps the stages equal to the ring in ring order, and received packets equal to sent packets followed by held ones |
| `Lanes.StageAt` | lib/wrapper/soc/src/soc_wrapper.cc:157-284 | each stage is one circular run of the ring at the index the code keeps for it, and the stages' sizes add up to the ring |
| `Lanes.StagesDisjoint` | lib/wrapper/soc/src/soc_wrapper.cc:157-284 | no slot is free, posted, held or in flight at the same time |
| `Lanes.ScanStops` | lib/wrapper/soc/src/soc_wrapper.cc:159-165 | the slot behind the free run is not free, unless the whole ring is free and the run comes back to its start |
| `Lanes.HandledStep` | lib/wrapper/soc/src/soc_wrapper.cc:106-141 | among all moves only the worker's hands messages on: exactly those in its queue, in order |
| `Launches.LaunchRxKeeps` | lib/wrapper/soc/src/soc_wrapper.cc:100-148 | an iteration from prior to next keeps the invariant and ends with at most 32 messages in the worker's queue, none collected, fewer than 32 in the transmit queue |
| `Launches.LaunchTxKeeps` | lib/wrapper/soc/src/soc_wrapper.cc:150-155 | an iteration from next to prior keeps the invariant and holds nothing back |
| `Launches.FlushHasCredit` | lib/wrapper/soc/src/soc_wrapper.cc:217-269 | at every flush there is a send slot for each queued buffer even if no send has finished, so one burst empties the queue |
| `Launches.NoDrop` | lib/wrapper/soc/src/soc_wrapper.cc:105-143 | dispatcher and worker never meet a full queue, and collection leaves nothing behind |
| `Launches.RunRxKeeps` | lib/wrapper/soc/src/soc_wrapper.cc:77-155 | the invariant and the bounded backlog hold after any number of iterations and any behaviour of the card |
| `Launches.RunTxKeeps` | lib/wrapper/soc/src/soc_wrapper.cc:77-155 | the same for the direct lane |
| `Launches.DisallowedIff` | lib/wrapper/soc/src/soc_wrapper.cc:150-155 | a run of the direct lane is impossible if and only if some iteration of it asks the card for what it cannot do |
| `Launches.RunRxLossless` | lib/wrapper/soc/src/soc_wrapper.cc:77-148 | from the initial state, for every run: packets delivered are packets sent followed by packets held, in order and with slot and length; fewer than 64 are held |
| `Launches.RunTxLossless` | lib/wrapper/soc/src/soc_wrapper.cc:77-155 | on the direct lane, packets delivered are packets sent, for every run |
| `Launches.AllOrNothing` | lib/wrapper/soc/src/soc_wrapper.cc:106-148 | when a worker's batch is enough for a flush, an iteration sends all of the worker's messages or none, by whether they exceed the batch size, and leaves `_tx_queue` empty |
| `Launches.ThirtyThreeGo` | lib/wrapper/soc/soc_wrapper.h:23-33 | with the shipped constants an iteration sends something if and only if the worker then has 33 messages, and then everything received is sent |
| `Launches.RunRxQueuesNothing` | lib/wrapper/soc/src/soc_wrapper.cc:77-148 | after every run from an empty transmit queue it is empty again, and the worker holds at most a batch |
| `Launches.ExclusiveOwnership` | lib/wrapper/soc/src/soc_wrapper.cc:157-284 | every receive buffer is in exactly one stage, once |
| `Lanes.FreeAt` | lib/wrapper/soc/src/soc_wrapper.cc:157-168 | free buffers are one circular run that starts at `_recv_head` and ends at the oldest buffer in use |
| `Launches.ReceiveKeeps` | lib/wrapper/soc/src/soc_wrapper.cc:157-179 | after the posting step no buffer is free and unposted, and what waits for dispatch is what waited followed by the oldest receives completed |
| `Launches.RunRxAppend` | lib/wrapper/soc/src/soc_wrapper.cc:85-95 | a run followed by one more iteration is a run |
| `Launches.StalledIff` | lib/wrapper/soc/src/soc_wrapper.cc:143-148 | no behaviour of the card changes the lane in an iteration if and only if the card holds no receive and no buffer is free |
| `Launches.StalledTxIff` | lib/wrapper/soc/src/soc_wrapper.cc:151-154 | the same condition for the direct lane |
| `Launches.StalledForever` | lib/wrapper/soc/src/soc_wrapper.cc:85-95 | a lane that stalls stays in that state in every run |
| `Launches.StalledTxForever` | lib/wrapper/soc/src/soc_wrapper.cc:85-95 | a direct lane that stalls stays in that state in every run |
| `Launches.StallIsReachable` | lib/wrapper/soc/src/soc_wrapper.cc:217-227 | with the shipped constants, sixteen full batches without a reported send completion stall the lane |
| `Launches.StallTxIsReachable` | lib/wrapper/soc/src/soc_wrapper.cc:217-227 | the same sixteen batches stall the direct lane |
| `ShmQueue.MaskAdvances` | lib/common/soc_queue.h:37 | masking the incremented index is the step to the next slot of the ring |
| `ShmQueue.MaskDistance` | lib/common/soc_queue.h:55-57 | the masked, wrapping difference of the indices is the number of queued elements, also when the tail is below the head |
| `ShmQueue.ShmLockFreeQueue.Enqueue` | lib/common/soc_queue.h:36-42 | refuses exactly when size-1 elements are queued; otherwise appends, whatever the pointer |
| `ShmQueue.ShmLockFreeQueue.Dequeue` | lib/common/soc_queue.h:43-48 | null when empty; otherwise removes and returns the oldest element |
| `ShmQueue.ShmLockFreeQueue.GetSize` | lib/common/soc_queue.h:55-57 | the number of queued elements |
| `SpscRing.StepInv` | lib/common/soc_queue.h:36-57 | every single memory access of either thread keeps the invariant of ring, producer, consumer and history |
| `SpscRing.Linearizable` | lib/common/soc_queue.h:36-57 | for every interleaving the queue is a linearizable FIFO of size-1 elements: events lie between call and return, respect real-time order, and replay to the ring's contents; values enqueued are values dequeued followed by contents |
| `SpscRing.HistoryConserves` | lib/common/soc_queue.h:36-48 | in every history, what was enqueued is what was dequeued followed by what is left, and the capacity is never exceeded |
| `SpscRing.SizePromises` | lib/common/soc_queue.h:55-57 | after a size of k, the consumer's next k dequeues are not null, whatever the producer does meanwhile |
| `SpscRing.SizeHolds` | lib/common/soc_queue.h:43-57 | the same promise for every interleaving of the two threads |
| `SpscRing.NeverBlocked` | lib/common/soc_queue.h:36-57 | a thread inside an operation can always make its next access |
| `SpscRing.RoomDecides` | lib/common/soc_queue.h:38 | the test of an enqueue goes on if and only if fewer than size-1 elements are queued at that moment |
| `SpscRing.EmptyDecides` | lib/common/soc_queue.h:44 | the test of a dequeue goes on if and only if something is queued at that moment |
| `SpscRing.EnqueueCompletes` | lib/common/soc_queue.h:36-42 | whatever the consumer does in between, an enqueue returns after five accesses of its own having enqueued its value, or after three having been refused |
| `SpscRing.DequeueCompletes` | lib/common/soc_queue.h:43-48 | whatever the producer does in between, a dequeue returns after five accesses of its own with a value, or after three with nothing |
| `SpscRing.SizeCompletes` | lib/common/soc_queue.h:55-57 | whatever the producer does in between, a size returns after three accesses of its own |
| `RdmaQp.CutChain` | lib/wrapper/soc/soc_wrapper.h:126-137 | cutting the circular chain behind the last request leaves exactly the wanted requests, in ring order, across the wrap |
| `RdmaQp.RdmaSocQp.PostRecv` | lib/wrapper/soc/soc_wrapper.h:132 | the card takes exactly the requests of the chain it is handed |
| `RdmaQp.RdmaSocQp.PostSend` | lib/wrapper/soc/src/soc_wrapper.cc:250 | the card takes exactly the requests of the chain and transmits what their scatter entries describe, key included |
| `RdmaQp.RdmaSocQp.PollRecvCq` | lib/wrapper/soc/src/soc_wrapper.cc:171 | exactly the receives that have finished, up to the limit, oldest first, of any lengths |
| `RdmaQp.RdmaSocQp.PollSendCq` | lib/wrapper/soc/src/soc_wrapper.cc:221 | exactly the sends that have finished, up to the limit, oldest first |
| `SocDatapath.PostRecvs` | lib/wrapper/soc/soc_wrapper.h:117-142 | hands over exactly `num_recvs` requests in ring order across the wrap, restores the circular chain, advances `_recv_head` |
| `SocDatapath.ScanFrom` | lib/wrapper/soc/src/soc_wrapper.cc:159-165 | the unbounded scan ends within one turn, marks exactly the free buffers, and counts them |
| `SocDatapath.PostFree` | lib/wrapper/soc/src/soc_wrapper.cc:158-168 | the posting step is the lane's move that posts every free buffer |
| `SocDatapath.RecordLengths` | lib/wrapper/soc/src/soc_wrapper.cc:172-175 | each completed buffer gets its own length, no other buffer changes |
| `SocDatapath.RxBurst` | lib/wrapper/soc/src/soc_wrapper.cc:157-179 | refines posting followed by the completion of the oldest receives, on fields, states and lengths; it takes all that have finished, up to a batch |
| `SocDatapath.TakeCompletions` | lib/wrapper/soc/src/soc_wrapper.cc:170-178 | takes exactly the finished receives, up to a batch, and refines their completion |
| `SocDatapath.DispatchEntry` | lib/wrapper/soc/src/soc_wrapper.cc:185-193 | queues the buffer for the application, or frees it when the queue is full |
| `SocDatapath.DispatchFrom` | lib/wrapper/soc/src/soc_wrapper.cc:185-194 | the walk along `next_` offers the waiting buffers in ring order; a prefix is queued, the rest freed, no other buffer touched |
| `SocDatapath.DispatchRxPkts` | lib/wrapper/soc/src/soc_wrapper.cc:181-198 | for any queue: a prefix as long as there is room is queued in order, the rest is freed in place, other buffers are untouched, the ring head moves past all |
| `SocDatapath.HandleMessage` | lib/wrapper/soc/src/soc_wrapper.cc:114-139 | a registered handler is called on the message, once and before it is forwarded; it is forwarded whatever the handler returns, unless the queue is full |
| `SocDatapath.RunWorker` | lib/wrapper/soc/src/soc_wrapper.cc:106-141 | above the batch size a registered handler is called on every message of the queue, once and in order, and each is forwarded as far as there is room; otherwise nothing happens |
| `SocDatapath.QueueForSending` | lib/wrapper/soc/src/soc_wrapper.cc:208-209 | the buffer is appended to what `_tx_queue` holds |
| `SocDatapath.CollectTxPkts` | lib/wrapper/soc/src/soc_wrapper.cc:200-215 | moves as many messages as fit, in order, behind what is already in `_tx_queue` |
| `SocTransmit.ReapSends` | lib/wrapper/soc/src/soc_wrapper.cc:221-227 | frees exactly the buffers of all finished sends, oldest first, and gives back their credits; none stays finished and not taken |
| `SocTransmit.FreeSends` | lib/wrapper/soc/src/soc_wrapper.cc:224-227 | walks the send ring over that many entries across the wrap and frees their buffers, no other |
| `SocTransmit.Reap` | lib/wrapper/soc/src/soc_wrapper.cc:221-227 | refines the lane's move that takes finished sends |
| `SocTransmit.MountOne` | lib/wrapper/soc/src/soc_wrapper.cc:232-244 | one buffer is marked, described with address, length and key, and mounted at the tail, for one credit |
| `SocTransmit.MountNext` | lib/wrapper/soc/src/soc_wrapper.cc:232-244 | one more buffer extends the send window and the described entries by exactly itself |
| `SocTransmit.MountSends` | lib/wrapper/soc/src/soc_wrapper.cc:229-245 | mounts as many queued buffers as there are credits, in order, each with its address, length and key |
| `SocTransmit.PostSends` | lib/wrapper/soc/src/soc_wrapper.cc:246-255 | the card gets exactly the newly mounted requests, and the circular chain is restored |
| `SocTransmit.MountFrames` | lib/wrapper/soc/src/soc_wrapper.cc:236-238 | what the scatter entries describe is the address, length and key of the lane's packets |
| `SocTransmit.MountAndPost` | lib/wrapper/soc/src/soc_wrapper.cc:228-256 | refines the lane's move that mounts queued buffers, with the window, the card's sends and the frames transmitted |
| `SocTransmit.TxBurst` | lib/wrapper/soc/src/soc_wrapper.cc:217-257 | takes every finished send, then mounts and posts as many queued buffers as there are credits; refines the two lane moves |
| `SocTransmit.TxFlush` | lib/wrapper/soc/src/soc_wrapper.cc:259-269 | ends with no assumption on send completions, sends the whole queue in one burst and takes every finished send; when all had finished only the newly mounted buffers are in flight; an empty queue polls nothing |
| `SocWrapper.DispatchLane` | lib/wrapper/soc/src/soc_wrapper.cc:181-198 | with room for all, dispatch refines the lane's move |
| `SocWrapper.WorkLane` | lib/wrapper/soc/src/soc_wrapper.cc:105-141 | with room for all, the worker refines the lane's move, and the handler has then been called on all messages handed on |
| `SocWrapper.CollectLane` | lib/wrapper/soc/src/soc_wrapper.cc:200-215 | collection refines the lane's move |
| `SocWrapper.DirectTxBurst` | lib/wrapper/soc/src/soc_wrapper.cc:271-284 | moves the waiting receives in ring order across the wrap to the other queue pair, as far as its transmit queue has room |
| `SocWrapper.DirectLane` | lib/wrapper/soc/src/soc_wrapper.cc:271-284 | the direct path refines the lane's move |
| `SocWrapper.ReceiveAndDispatch` | lib/wrapper/soc/src/soc_wrapper.cc:102-103 | receive and dispatch refine the lane's moves with no message dropped, for all receives that have finished up to a batch |
| `SocWrapper.WorkAndSend` | lib/wrapper/soc/src/soc_wrapper.cc:105-148 | worker, collection and flush refine the lane's moves |
| `SocWrapper.RxIteration` | lib/wrapper/soc/src/soc_wrapper.cc:101-148 | the first half of an iteration refines the lane's iteration on fields, states, lengths and both worker queues |
| `SocWrapper.TxIteration` | lib/wrapper/soc/src/soc_wrapper.cc:150-155 | the direct half of an iteration refines the lane's iteration |
| `SocWrapper.SocWrapper.constructor` | lib/wrapper/soc/src/soc_wrapper.cc:66-71 | prepared queue pairs and two empty worker queues represent the initial lanes |
| `SocWrapper.SocWrapper.RxDirection` | lib/wrapper/soc/src/soc_wrapper.cc:101-148 | moves its own lane by one iteration and leaves the other lane, which shares both queue pairs, as it was |
| `SocWrapper.SocWrapper.TxDirection` | lib/wrapper/soc/src/soc_wrapper.cc:150-155 | the same for the direct lane |
| `SocWrapper.SocWrapper.Launch` | lib/wrapper/soc/src/soc_wrapper.cc:100-155 | one iteration on the real fields is one iteration of both lanes and keeps every invariant; it takes a batch of the finished receives, and every finished send whenever it sends |
| `SocWrapper.SocWrapper.Run` | lib/wrapper/soc/src/soc_wrapper.cc:77-97 | any number of iterations is a run of both lanes |
| `SocWrapper.EndToEnd` | lib/wrapper/soc/src/soc_wrapper.cc:100-284 | frames delivered on one queue pair are the frames transmitted on the other followed by those in `_tx_queue` and the worker's queue: same order, address, length and key; the direct lane holds none |
| `SocWrapper.HandledAreSent` | lib/wrapper/soc/src/soc_wrapper.cc:111-140 | a registered handler was called on exactly the messages transmitted on next followed by those in `_tx_queue`, each once and in order |
| `SocWrapper.PostedIsExclusive` | lib/wrapper/soc/src/soc_wrapper.cc:157-284 | a buffer the card may write is marked as the card's and is neither with the worker, nor queued for sending, nor being sent |
| `SocWrapper.OwnedOnce` | lib/wrapper/soc/src/soc_wrapper.cc:157-284 | on the real fields, every receive buffer of both rings is exactly once in exactly one of: posted for receive, the worker's queue, `_tx_queue`, the in-flight window, marked free |
| `SocWrapper.StalledOnFields` | lib/wrapper/soc/src/soc_wrapper.cc:143-154 | on the real fields, a lane stalls if and only if in-flight sends and held messages together are the whole ring |
| `SocWrapper.PostedIsTheWindow` | lib/wrapper/soc/src/soc_wrapper.cc:157-179 | outstanding receives are the ring from `_ring_head` plus `_wait_for_disp` up to `_recv_head` |
| `SocWrapper.FreeIsTheRunAtRecvHead` | lib/wrapper/soc/src/soc_wrapper.cc:157-168 | a buffer is marked free if and only if it lies in the run at `_recv_head` |
| `SocWrapper.CreditsAgree` | lib/wrapper/soc/src/soc_wrapper.cc:217-257 | credits plus in-flight sends are the ring size; the in-flight sends are the window from `_send_head` to `_send_tail` |
| `SocChannel.InitRecvs` | runtime/src/datapath/channel_impl/soc_channel.cc:343-379 | one buffer per slot at its own offset, described with address, length and key, posted and linked in a circle |
| `SocChannel.CarveExtent` | runtime/src/datapath/channel_impl/soc_channel.cc:356-369 | slot i gets a fresh posted buffer at offset i times the buffer size; its scatter entry has that address, the buffer size and the extent's key |
| `SocChannel.LinkRing` | runtime/src/datapath/channel_impl/soc_channel.cc:371-374 | each buffer links to the one in the next slot, the last to the first |
| `SocChannel.InitSends` | runtime/src/datapath/channel_impl/soc_channel.cc:381-392 | the send requests form one circle |
| `SocChannel.FillRecvQueue` | runtime/src/datapath/channel_impl/soc_channel.cc:486-500 | the card gets every receive in ring order, and the circle is closed again |
| `SocChannel.PrepareQp` | runtime/src/datapath/channel_impl/soc_channel.cc:343-392 | a prepared queue pair represents the initial lane on both its halves, its buffers under the key of the extent |
| `SocChannel.IdleIsInitial` | lib/common/soc_queue.h:107-129 | the initial field values of the send side represent the initial lane |
| `SocChannel.FollowVisitsAll` | runtime/src/datapath/channel_impl/soc_channel.cc:371-374 | following `next_` from any entry reaches the slots in ring order and comes back after exactly one full turn |
| `SocMemory.ExtentsApart` | runtime/src/datapath/channel_impl/soc_channel.cc:343-363 | slices of two disjoint extents are pairwise disjoint and inside the region, for every depth and buffer size |
| `SocMemory.TakeExtents` | runtime/src/datapath/channel_impl/soc_channel.cc:307-348 | both extents are allocated, carry the region's key, and their slices never overlap, when the region holds two maximal buffers |
| `SocSystem.PrepareQps` | runtime/src/datapath/channel_impl/soc_channel.cc:307-392 | both queue pairs are ready to run, share no storage and no buffer, and own their memory under the region's key |
| `SocSystem.Start` | runtime/src/datapath/channel_impl/soc_channel.cc:307-392 | with the shipped sizes, every receive buffer of both rings has its own memory in the region under the region's key, and the wrapper starts on the initial lanes |
| `SocSystem.KeysStay` | runtime/src/datapath/channel_impl/soc_channel.cc:361-365 | in every reachable state each receive's scatter entry has its buffer's address, the full size and the region's key |
| `SocSystem.StartAndRun` | lib/wrapper/soc/src/soc_wrapper.cc:77-155 | from start-up, for every behaviour of the card over any number of iterations: a run of both lanes of that length, end-to-end delivery in order, every sent message handled once, `_tx_queue` empty and at most 32 messages held |
| `SocSystem.FewHeld` | lib/wrapper/soc/soc_wrapper.h:23-33 | with the shipped constants, after every run, nothing waits for a flush and at most 32 messages wait for the worker |
| `SocSystem.BacklogIs63` | lib/wrapper/soc/soc_wrapper.h:23-33 | from any state at rest, not only reachable ones, at most 63 messages are held between iterations |
| `Bits.AndMask` | lib/common/soc_queue.h:30 | masking with 2^k - 1 is reduction modulo 2^k |
| `Bits.PowerOfTwoIff` | lib/common/math_utils.h:14-17 | the bit trick recognises exactly the powers of two |
| `Bits.MsbIndexBounds` | lib/common/math_utils.h:33-39 | the index of the highest set bit places the number between consecutive powers of two |
| `HugeAlloc.GetClassIsLeast` | runtime/include/utils/huge_alloc.h:150-159 | the class of a size is valid and is the least one large enough |
| `HugeAlloc.GetClassInverts` | runtime/include/utils/huge_alloc.h:65-67 | a class size belongs to the class it came from |
| `HugeAlloc.GetClassSlow` | runtime/include/utils/huge_alloc.h:162-173 | the reference loop agrees with the bit trick on every size |
| `HugeAlloc.HandedOutDisjoint` | runtime/include/utils/huge_alloc.h:200-210 | two blocks that are out at the same time do not overlap and lie in regions that were added |
| `HugeAlloc.PopSound` | runtime/include/utils/huge_alloc.h:200-210 | taking a buffer keeps the tiling, the byte count and the statistic |
| `HugeAlloc.PushSound` | runtime/include/utils/huge_alloc.h:115-126 | giving a buffer back keeps the tiling, the byte count and the statistic |
| `HugeAlloc.SplitSound` | runtime/include/utils/huge_alloc.h:177-194 | replacing a buffer by its halves keeps the tiling and conserves bytes |
| `HugeAlloc.AddSound` | runtime/src/utils/huge_alloc.cc:213-223 | a region cut into maximal buffers joins the tiling, and its bytes are all accounted for |
| `HugeAlloc.SplitKeyed` | runtime/include/utils/huge_alloc.h:186-188 | splitting keeps every free buffer under the key of the region it lies in |
| `HugeAlloc.AddKeyed` | runtime/src/utils/huge_alloc.cc:218-222 | so does adding a region |
| `HugeAlloc.HugeAllocator.Split` | runtime/include/utils/huge_alloc.h:177-194 | the class below receives exactly the lower and the upper half with the key of the whole, nothing else changes |
| `HugeAlloc.HugeAllocator.AllocFromClass` | runtime/include/utils/huge_alloc.h:200-210 | takes the last buffer of the class, which has the key of its region, and adds its size to the statistic |
| `HugeAlloc.HugeAllocator.Alloc` | runtime/src/utils/huge_alloc.cc:149-190 | null if and only if every class from the wanted one up is empty; otherwise the least sufficient class size, cut with its key from the end of the last buffer of the first non-empty class, and only the classes up to that one change, each split once |
| `HugeAlloc.HugeAllocator.SplitDown` | runtime/src/utils/huge_alloc.cc:182-186 | each split meets an empty class below; afterwards each class passed holds one buffer and the wanted class two |
| `HugeAlloc.HugeAllocator.PushMaxBuffers` | runtime/src/utils/huge_alloc.cc:215-223 | the largest class receives exactly the blocks the region is cut into, in order, with the region's key |
| `HugeAlloc.HugeAllocator.AddRawBuffer` | runtime/src/utils/huge_alloc.cc:212-236 | the freelists afterwards, for every size, keys included: whole maximal blocks in the largest class, and for a remainder a buffer at the region's start whose size is its class; a region of whole maximal buffers keeps the allocator sound, any other size does not |
| `HugeAlloc.HugeAllocator.FreeBuf` | runtime/include/utils/huge_alloc.h:115-126 | any buffer of a class size returns to the class of its size; a sound allocator stays sound if and only if the buffer was out |
| `Tiling.SplitTiles` | runtime/include/utils/huge_alloc.h:182-193 | cutting a block in two keeps blocks disjoint, aligned to their size in their region, and covering every byte |
| `Tiling.AddTiles` | runtime/src/utils/huge_alloc.cc:216-223 | a new region cut into equal blocks joins the tiling |
| `DpaCq.WriteOwner` | runtime/src/datapath/channel_impl/dpa_channel.cc:931-933 | from all-ones bits, writing entry p changes the bit of its slot and of no other |
| `DpaCq.OwnerTest` | lib/wrapper/dpa/src/dpa_wrapper.c:62-63 | for a consumer at most one ring behind, the owner bit differs from the expected one if and only if the next entry was written |
| `DpaCq.StaleFlips` | lib/wrapper/dpa/include/dpa_wrapper.h:82-83 | the expected bit flips exactly when the ring index returns to zero |
| `DpaCq.WrapKeepsSlot` | lib/wrapper/dpa/include/dpa_wrapper.h:79-80 | the ring index of the wrapped counter is that of the unbounded one |
| `DpaCq.StepBits` | lib/wrapper/dpa/include/dpa_wrapper.h:79-83 | index, slot and expected bit agree with the unbounded count, also across the 32-bit wrap |
| `DpaCq.CompletionQueue.constructor` | lib/wrapper/dpa/include/dpa_wrapper.h:25-35 | the initial bits, index and expected bit satisfy the protocol's invariant |
| `DpaCq.CompletionQueue.HwWrite` | lib/wrapper/dpa/src/dpa_wrapper.c:62-63 | a card that keeps within one ring of the consumer keeps the invariant |
| `DpaCq.CompletionQueue.StepCq` | lib/wrapper/dpa/include/dpa_wrapper.h:76-87 | the current entry is taken and the invariant kept, with the card writing between any two assignments |
| `DpaCq.CompletionQueue.EventHandler` | lib/wrapper/dpa/src/dpa_wrapper.c:62-76 | every entry is taken once and in order, the loop stops exactly when none is left, and the count, the doorbell and the armed index agree with what was taken |
| `Crc32.TableEntry` | lib/common/crc32.h:9-74 | each of the 256 entries is what eight division steps make of its index |
| `Crc32.ByByteIsEightSteps` | lib/common/crc32.h:81 | one table step is eight single steps on the register with the byte added |
| `Crc32.Hash` | lib/common/crc32.h:78-85 | the loop computes the specified hash of the buffer |
| `Crc32.HashByBits` | lib/common/crc32.h:78-85 | the table-driven hash is the hash taken bit by bit |
| `Crc32.HashIsRemainder` | lib/common/crc32.h:78-85 | a value is the hash of a buffer if and only if it is the remainder of the message polynomial divided by 0x04C11DB7 with its leading term, for every initial value |
| `Crc32.HashAppend` | lib/common/crc32.h:78-85 | hashing a concatenation is hashing the second part from the hash of the first |
| `Crc32.HashLinear` | lib/common/crc32.h:78-85 | for buffers of equal length the hash of the exclusive-or is the exclusive-or of the hashes |
| `Polynomials.DivisionIsUnique` | lib/common/crc32.h:78-85 | division by a polynomial with leading coefficient one has one quotient and one remainder |
| `QpInfo.StoiOfDecimal` | runtime/include/utils/qpinfo.hh:178 | a printed number is read back below 2^31 and throws from there on |
| `QpInfo.StoiReads` | runtime/include/utils/qpinfo.hh:178 | `stoi` reads space, a sign and digits, ignores what follows, and throws outside 32 bits |
| `QpInfo.DecimalIsDigits` | runtime/include/utils/qpinfo.hh:146 | a printed number is its digits without leading zeros |
| `QpInfo.ReadBack` | runtime/include/utils/qpinfo.hh:185-187 | a printed byte list is restored over whatever the array held, trailing comma included |
| `QpInfo.ReadBytes` | runtime/include/utils/qpinfo.hh:185-187 | the loop over a list assigns what its specification says, also when it throws half-way |
| `QpInfo.Strncpy` | runtime/include/utils/qpinfo.hh:200 | copies up to the NUL, fills the rest of the limit with NULs and touches nothing behind it |
| `QpInfo.CopyName` | runtime/include/utils/qpinfo.hh:200-201 | the name array holds the truncated, padded and terminated value, for the limits of the parser and of the constructor |
| `QpInfo.NameHolds` | runtime/include/utils/qpinfo.hh:200-201 | read as a C string, the array gives back the value up to its first NUL, cut at 63 characters |
| `QpInfo.QPInfo.Serialize` | runtime/include/utils/qpinfo.hh:142-163 | writes the specified text |
| `QpInfo.TextSpeltOut` | runtime/include/utils/qpinfo.hh:146-160 | the text character by character, from the fields |
| `QpInfo.ListCommas` | runtime/include/utils/qpinfo.hh:149-156 | one comma per byte, the last one at the end |
| `QpInfo.KeysInOrder` | runtime/include/utils/qpinfo.hh:146-160 | cut at the delimiters, the text names the nine fields in the order of the code, unless a name breaks it up |
| `QpInfo.QPInfo.Deserialize` | runtime/include/utils/qpinfo.hh:165-209 | leaves the specified record, also after an exception |
| `QpInfo.NumbersWrap` | runtime/include/utils/qpinfo.hh:178-206 | a number that `stoi` accepts is cast to the width of its field, negative ones included; any number but zero sets the flag |
| `QpInfo.UnknownSkipped` | runtime/include/utils/qpinfo.hh:177-207 | a key that is none of the nine changes nothing |
| `QpInfo.QPInfo.AssignField` | runtime/include/utils/qpinfo.hh:177-207 | the branch of a field changes that field as specified and no other, or throws |
| `QpInfo.QPInfo.constructor` | runtime/include/utils/qpinfo.hh:30-49 | every field of a new record, names terminated |
| `QpInfo.RoundTrip` | runtime/include/utils/qpinfo.hh:142-209 | parsing the text of a record that fits restores every field over any prior record |
| `QpInfo.NamesStayPlain` | runtime/include/utils/qpinfo.hh:169-204 | no parsed name ever holds a delimiter, whatever the text |
| `QpInfo.RoundTripIff` | runtime/include/utils/qpinfo.hh:142-209 | the text restores the record without an exception if and only if both 32-bit numbers are below 2^31 and both names are free of the delimiters |
| `QpInfo.ColonIsLost` | runtime/include/utils/qpinfo.hh:158 | a record that the constructor accepts, with a colon in its host name, is not restored over any prior record |

## Left out

- The verbs library and the card: completions arrive in posting order, posting succeeds, polls never report an error. These are the contracts of the four card methods of `RdmaQp.RdmaSocQp`.
- The contents of packets and what the user's handler does: it returns anything and leaves `state_`, `next_` and `length_` alone.
- The opcode and the flags of a send request, which never change.
- Memory ordering: the shared queue's accesses are sequentially consistent; the original uses `volatile` only.
- `reset_head`, `reset_tail`, `is_empty`, `is_full` of the shared queue; nothing in the datapath uses them.
- SocWrapper.SocWrapper.Run: takes one behaviour of the card per iteration, so their number is given, where `__run` looks at the time-stamp counter.
- HugeAlloc.HugeAllocator.FreeBuf: the size must be one of the class sizes, as the assertion there demands; the statistic is an integer that does not wrap when a buffer is given back twice.
- `alloc_raw` and `reserve_hugepages`: shared-memory calls; the growth path of `alloc` is commented out in the original.
- DpaCq.CompletionQueue.EventHandler: the check of `is_initalized`, the fences and the rescheduling of the thread are not modelled, and the card writes at most a given number of entries during one call, any number, since otherwise the loop need not end.
- QpInfo.RoundTrip: `std::string` and the string streams are modelled by what they compute; allocation failure is not modelled.
- Crc32.Hash: a negative length is not modelled; the original then reads past the end of every buffer and counts down until a signed overflow, which C++ leaves undefined.
- Channel set-up with verbs, DOCA and FlexIO, sockets, threads, core binding, timers, logging.
- `__forward_packet_with_routing`: its body is commented out.
- Flow tables, routing, the AppDAG parser, resource quotas and connection flags: maps and counters that would only add easy members.
