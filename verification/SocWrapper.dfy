/** The event loop: one iteration on two real queue pairs, and any number of iterations. */
module SocWrapper {
  import opened Rings
  import opened Bits
  import opened Buffers
  import opened ShmQueue
  import opened RdmaQp
  import opened Lanes
  import opened Launches
  import opened SocDatapath
  import opened SocTransmit

  ghost predicate QueueRep(queue: ShmLockFreeQueue, ring: seq<Buffer>, slots: seq<nat>)
    reads queue, queue.queue
  {
    queue.Valid() && queue.Contents() == BuffersOf(ring, slots)
  }

  /** The handler, if there is one, was called on every message that was handed on, once and in order. */
  ghost predicate HandlerRep(handler: MsgHandler, ring: seq<Buffer>, l: Lane)
    reads handler`given
  {
    handler.given == if handler.registered then FramesOf(ring, l.Handled()) else []
  }

  lemma HandlerSame(handler: MsgHandler, ring: seq<Buffer>, l: Lane, m: Lane)
    requires HandlerRep(handler, ring, l) && l.Handled() == m.Handled()
    ensures HandlerRep(handler, ring, m)
  {
  }

  lemma HeldAre(ring: seq<Buffer>, l: Lane, slots: seq<nat>)
    requires LengthsRep(ring, l) && forall i :: 0 <= i < |slots| ==> slots[i] < |ring|
    ensures FramesOf(ring, Packets(slots, l.len)) == HeldFrames(BuffersOf(ring, slots))
  {
    var bs := BuffersOf(ring, slots);
    forall i | 0 <= i < |slots|
      ensures FramesOf(ring, Packets(slots, l.len))[i] == HeldFrames(bs)[i]
    {
      HeldFrameAt(bs, i);
    }
  }

  // ---------- each stage of the loop makes its lane move ----------

  lemma DispatchOwners(l: Lane)
    requires l.Inv()
    ensures forall s: nat :: OwnerOf(Next(l, Dispatch), s, false)
                          == (if s in l.awaiting then AppOwned else OwnerOf(l, s, false))
    ensures Slots(l.n, l.awaiting)
  {
    AwaitingAt(l);
    ArcDistinct(l.RingHead(), |l.awaiting|, l.n);
    StagesDisjoint(l);
    assert forall s :: s in l.awaiting ==> s in l.Pending();
  }

  lemma DispatchHeads(l: Lane)
    requires l.Inv()
    ensures l.RingHead() < l.n && |l.awaiting| <= l.n && l.awaiting == Arc(l.RingHead(), |l.awaiting|, l.n)
    ensures var m := Next(l, Dispatch);
            m.RingHead() == Wrap(l.RingHead() + |l.awaiting|, l.n) && m.RecvHead() == l.RecvHead()
  {
    AwaitingAt(l);
    StageTotal(l);
  }

  method DispatchLane(qp: RdmaSocQp, queue: ShmLockFreeQueue, ghost ring: seq<Buffer>, ghost l: Lane)
    returns (nbDisp: nat)
    requires l.Inv() && RxRep(qp, ring, l) && StatesRep(ring, l, false)
    requires QueueRep(queue, ring, l.workerRx) && |l.workerRx| + |l.awaiting| < queue.size
    requires queue.queue != qp.rxRing
    modifies qp`ringHead, qp`waitForDisp, queue`tail, queue.queue, ring`state
    ensures nbDisp == |l.awaiting|
    ensures var m := Next(l, Dispatch);
            RxRep(qp, ring, m) && StatesRep(ring, m, false) && QueueRep(queue, ring, m.workerRx)
  {
    hide Lane.Inv, OwnerOf, Circular, RxShape, FramesOf, BuffersOf, ShmLockFreeQueue.Valid, ShmLockFreeQueue.Contents;
    DispatchHeads(l);
    DispatchOwners(l);
    nbDisp := DispatchRxPkts(qp, queue, ring, l.awaiting);
    assert l.awaiting[..nbDisp] == l.awaiting;
    BuffersOfConcat(ring, l.workerRx, l.awaiting);
  }

  lemma HandleOwners(l: Lane, p: Params)
    ensures forall s: nat :: OwnerOf(Work(l, p), s, false) == OwnerOf(l, s, false)
  {
  }

  lemma QueueLengths(queue: ShmLockFreeQueue, ring: seq<Buffer>, slots: seq<nat>)
    requires QueueRep(queue, ring, slots)
    ensures |queue.Contents()| == |slots| < queue.size
  {
  }

  lemma NoNulls(ring: seq<Buffer>, slots: seq<nat>)
    requires forall i :: 0 <= i < |slots| ==> slots[i] < |ring|
    ensures null !in BuffersOf(ring, slots)
  {
    forall b | b in BuffersOf(ring, slots)
      ensures b != null
    {
      var i :| 0 <= i < |slots| && BuffersOf(ring, slots)[i] == b;
    }
  }

  lemma WorkerSlots(l: Lane)
    requires l.Inv()
    ensures forall i :: 0 <= i < |l.workerRx| ==> l.workerRx[i] < l.n
  {
    StagesDisjoint(l);
    assert forall i :: 0 <= i < |l.workerRx| ==> l.workerRx[i] in l.All();
  }

  method WorkLane(rxQueue: ShmLockFreeQueue, txQueue: ShmLockFreeQueue, handler: MsgHandler, p: Params,
                  ghost ring: seq<Buffer>, ghost l: Lane)
    requires l.Inv() && l.n == |ring| && LengthsRep(ring, l) && HandlerRep(handler, ring, l)
    requires rxQueue != txQueue && rxQueue.queue != txQueue.queue
    requires QueueRep(rxQueue, ring, l.workerRx) && QueueRep(txQueue, ring, l.workerTx)
    requires |l.workerTx| + |l.workerRx| < txQueue.size
    modifies rxQueue`head, txQueue`tail, txQueue.queue, handler`given, handler`ahead
    ensures QueueRep(rxQueue, ring, Work(l, p).workerRx) && QueueRep(txQueue, ring, Work(l, p).workerTx)
    ensures HandlerRep(handler, ring, Work(l, p))
  {
    hide Lane.Inv, Lane.Handled, BuffersOf, FramesOf, HeldFrames, Packets, LengthsRep,
      ShmLockFreeQueue.Valid, ShmLockFreeQueue.Contents;
    WorkerSlots(l);
    HeldAre(ring, l, l.workerRx);
    HandledStep(l, Handle);
    FramesOfConcat(ring, l.Handled(), Packets(l.workerRx, l.len));
    NoNulls(ring, l.workerRx);
    QueueLengths(rxQueue, ring, l.workerRx);
    QueueLengths(txQueue, ring, l.workerTx);
    ghost var work := rxQueue.Contents();
    ghost var given := handler.given;
    RunWorker(rxQueue, txQueue, p.appBatch, handler);
    assert given + [] == given;
    assert work[..|work|] == work;
    BuffersOfConcat(ring, l.workerTx, l.workerRx);
    NoBuffers(ring, []);
  }

  lemma CollectOwners(l: Lane, k: nat)
    requires k <= |l.workerTx|
    ensures forall s: nat :: OwnerOf(Next(l, Collect(k)), s, false) == OwnerOf(l, s, false)
  {
    assert l.workerTx == l.workerTx[..k] + l.workerTx[k..];
  }

  method CollectLane(qp: RdmaSocQp, queue: ShmLockFreeQueue, p: Params, ghost ring: seq<Buffer>, ghost l: Lane)
    returns (nbCollect: nat)
    requires l.Inv() && TxRep(qp, ring, l, 0) && QueueRep(queue, ring, l.workerTx)
    requires qp.txEntries == p.txRing && queue.queue != qp.txQueue && queue.queue != qp.swRing
    modifies qp`txQueueIdx, qp.txQueue, queue`head
    ensures TxRep(qp, ring, CollectAll(l, p), 0) && QueueRep(queue, ring, CollectAll(l, p).workerTx)
    ensures qp.txQueueIdx == |CollectAll(l, p).txQueued|
  {
    hide Lane.Inv, BuffersOf, Circular, Holds, FramesOf, Arc, Wrap, SendWindow, CollectAll, ShmLockFreeQueue.Valid,
      ShmLockFreeQueue.Contents;
    QueueLength(qp, ring, l);
    QueueLengths(queue, ring, l.workerTx);
    nbCollect := CollectTxPkts(qp, queue);
    BuffersOfDrop(ring, l.workerTx, nbCollect);
    CollectedRep(qp, p, ring, l, nbCollect);
  }

  /** A transmit queue behind which the collected buffers were appended represents the lane's move. */
  lemma CollectedRep(qp: RdmaSocQp, p: Params, ring: seq<Buffer>, l: Lane, k: nat)
    requires |l.txQueued| <= p.txRing && k == Min(|l.workerTx|, p.txRing - |l.txQueued|)
    requires TxSized(qp) && Circular(qp.sendWr[..]) && SendWindow(qp, ring, l.inFlight)
    requires qp.nicSend == Arc(qp.sendHead, |l.inFlight|, qp.txEntries) && qp.sendDone <= |l.inFlight|
    requires qp.txQueueIdx == |l.txQueued| + k <= qp.txEntries
    requires qp.txQueue[..qp.txQueueIdx] == BuffersOf(ring, l.txQueued) + BuffersOf(ring, l.workerTx)[..k]
    requires qp.sent == FramesOf(ring, l.sent)
    ensures TxRep(qp, ring, CollectAll(l, p), 0)
    ensures CollectAll(l, p).workerTx == l.workerTx[k..] && |CollectAll(l, p).txQueued| == qp.txQueueIdx
  {
    hide BuffersOf, Circular, FramesOf, Arc, SendWindow;
    BuffersOfTake(ring, l.workerTx, k);
    BuffersOfConcat(ring, l.txQueued, l.workerTx[..k]);
    assert qp.txQueue[0..qp.txQueueIdx] == qp.txQueue[..qp.txQueueIdx];
  }

  // ---------- __direct_tx_burst ----------

  /** Moves the waiting receives of one queue pair straight to the transmit queue of the other. */
  method DirectTxBurst(rxQp: RdmaSocQp, txQp: RdmaSocQp, ghost ring: seq<Buffer>, ghost slots: seq<nat>)
    returns (count: nat)
    requires RxSized(rxQp, |ring|) && RxShape(rxQp, ring) && rxQp != txQp && rxQp.rxRing != txQp.txQueue
    requires rxQp.ringHead < |ring| && rxQp.waitForDisp <= |ring|
    requires slots == Arc(rxQp.ringHead, rxQp.waitForDisp, |ring|)
    requires txQp.txQueueIdx <= txQp.txQueue.Length == txQp.txEntries
    modifies rxQp`ringHead, rxQp`waitForDisp, txQp`txQueueIdx, txQp.txQueue
    ensures count == Min(|slots|, txQp.txEntries - old(txQp.txQueueIdx))
    ensures txQp.txQueueIdx == old(txQp.txQueueIdx) + count
    ensures txQp.txQueue[..txQp.txQueueIdx] == old(txQp.txQueue[..txQp.txQueueIdx]) + BuffersOf(ring, slots[..count])
    ensures rxQp.ringHead == Wrap(old(rxQp.ringHead) + count, |ring|)
    ensures rxQp.waitForDisp == old(rxQp.waitForDisp) - count
  {
    hide BuffersOf, Arc;
    var room := txQp.txEntries - txQp.txQueueIdx;
    count := if room > rxQp.waitForDisp then rxQp.waitForDisp else room;
    ghost var idx := txQp.txQueueIdx;
    ghost var before := txQp.txQueue[..idx];
    for i := 0 to count
      invariant txQp.txQueueIdx == idx + i
      invariant txQp.txQueue[..txQp.txQueueIdx] == before + BuffersOf(ring, slots[..i])
      modifies txQp`txQueueIdx, txQp.txQueue
    {
      ModIsWrap(rxQp.ringHead + i, |ring|);
      BuffersOfSnoc(ring, slots, i);
      var m := rxQp.rxRing[(rxQp.ringHead + i) % rxQp.rxEntries];
      QueueForSending(txQp, m);
    }
    ModIsWrap(rxQp.ringHead + count, |ring|);
    rxQp.ringHead := (rxQp.ringHead + count) % rxQp.rxEntries;
    rxQp.waitForDisp := rxQp.waitForDisp - count;
  }

  lemma DirectOwners(l: Lane, k: nat)
    requires Enabled(l, Direct(k))
    ensures forall s: nat :: OwnerOf(Next(l, Direct(k)), s, true) == OwnerOf(l, s, true)
  {
  }

  lemma DirectHeads(l: Lane, k: nat)
    requires l.Inv() && Enabled(l, Direct(k))
    ensures l.RingHead() < l.n && |l.awaiting| <= l.n && l.awaiting == Arc(l.RingHead(), |l.awaiting|, l.n)
    ensures var m := Next(l, Direct(k));
            m.RingHead() == Wrap(l.RingHead() + k, l.n) && m.RecvHead() == l.RecvHead()
  {
    AwaitingAt(l);
    StageTotal(l);
  }

  method DirectLane(rxQp: RdmaSocQp, txQp: RdmaSocQp, p: Params, ghost ring: seq<Buffer>, ghost l: Lane)
    returns (nbDirect: nat)
    requires l.Inv() && l.workerTx == l.workerRx == []
    requires rxQp != txQp && rxQp.rxRing != txQp.txQueue && txQp.txEntries == p.txRing
    requires RxRep(rxQp, ring, l) && TxRep(txQp, ring, l, 0)
    modifies rxQp`ringHead, rxQp`waitForDisp, txQp`txQueueIdx, txQp.txQueue
    ensures |l.txQueued| <= p.txRing && nbDirect == Min(|l.awaiting|, p.txRing - |l.txQueued|)
    ensures RxRep(rxQp, ring, Next(l, Direct(nbDirect))) && TxRep(txQp, ring, Next(l, Direct(nbDirect)), 0)
  {
    hide Lane.Inv, BuffersOf, Circular, Holds, FramesOf, RxShape;
    DirectHeads(l, 0);
    QueueLength(txQp, ring, l);
    nbDirect := DirectTxBurst(rxQp, txQp, ring, l.awaiting);
    DirectHeads(l, nbDirect);
    BuffersOfConcat(ring, l.txQueued, l.awaiting[..nbDirect]);
  }

  // ---------- the wrapper ----------

  /** Two queue pairs share no storage. */
  ghost predicate QpsApart(a: RdmaSocQp, b: RdmaSocQp) {
    && a != b
    && a.sendWr != b.sendWr && a.sendWr != b.recvWr && a.recvWr != b.sendWr && a.recvWr != b.recvWr
    && a.sendSgl != b.sendSgl && a.sendSgl != b.recvSgl && a.recvSgl != b.sendSgl && a.recvSgl != b.recvSgl
    && a.swRing != b.swRing && a.swRing != b.txQueue && a.swRing != b.rxRing
    && a.txQueue != b.swRing && a.txQueue != b.txQueue && a.txQueue != b.rxRing
    && a.rxRing != b.swRing && a.rxRing != b.txQueue && a.rxRing != b.rxRing
  }

  ghost predicate RingsApart(a: seq<Buffer>, b: seq<Buffer>) {
    forall i, j :: 0 <= i < |a| && 0 <= j < |b| ==> a[i] != b[j]
  }

  ghost predicate QueueApart(queue: ShmLockFreeQueue, a: RdmaSocQp) {
    queue.queue != a.swRing && queue.queue != a.txQueue && queue.queue != a.rxRing
  }

  lemma DisjointQpsApart(a: RdmaSocQp, b: RdmaSocQp)
    requires a != b && a.Arrays() !! b.Arrays()
    ensures QpsApart(a, b)
  {
    assert forall o :: o in a.Arrays() ==> o !in b.Arrays();
  }

  /** `__rx_burst` and `__dispatch_rx_pkts`. */
  method ReceiveAndDispatch(qp: RdmaSocQp, queue: ShmLockFreeQueue, arrivals: nat, p: Params,
                            ghost ring: seq<Buffer>, ghost l: Lane)
    returns (ghost lens: seq<nat>)
    requires l.Inv() && AtRestRx(l, p) && Fits(p, l.n)
    requires RxRep(qp, ring, l) && StatesRep(ring, l, false) && LengthsRep(ring, l) && QueueRep(queue, ring, l.workerRx)
    requires QueueApart(queue, qp) && queue.size == p.queueSize
    modifies qp`recvHead, qp`ringHead, qp`waitForDisp, qp`nicRecv, qp`recvDone, qp`received
    modifies qp.recvWr, qp.recvWc, ring`state, ring`length, queue`tail, queue.queue
    ensures Allowed(l, Choice(lens, 0), p)
    ensures var finished := Finished(old(qp.recvDone), arrivals, |l.outstanding| + |l.free|);
            |lens| == Min(p.rxBatch, finished) && qp.recvDone == finished - |lens|
    ensures var m := Next(Receive(l, Choice(lens, 0), p), Dispatch);
            RxRep(qp, ring, m) && StatesRep(ring, m, false) && LengthsRep(ring, m) && QueueRep(queue, ring, m.workerRx)
  {
    hide RxRep, StatesRep, LengthsRep, QueueRep, Lane.Inv;
    var nbRx;
    nbRx, lens := RxBurst(qp, p.rxBatch, arrivals, ring, l, false);
    ghost var c := Choice(lens, 0);
    ReceiveKeeps(l, c, p);
    NoDrop(l, c, p);
    ghost var r := Receive(l, c, p);
    var nbDisp := DispatchLane(qp, queue, ring, r);
    LengthsSame(ring, r, Next(r, Dispatch));
  }

  /** The worker, `__collect_tx_pkts`, and the flush once enough is queued. */
  method WorkAndSend(qp: RdmaSocQp, rxQueue: ShmLockFreeQueue, txQueue: ShmLockFreeQueue, handler: MsgHandler,
                     finishes: nat, p: Params, ghost ring: seq<Buffer>, ghost l: Lane)
    returns (ghost done: nat)
    requires l.Inv() && l.n == |ring| <= p.txRing && Injective(ring) && qp.txEntries == p.txRing
    requires rxQueue != txQueue && rxQueue.queue != txQueue.queue && QueueApart(txQueue, qp) && QueueApart(rxQueue, qp)
    requires |l.workerTx| + |l.workerRx| < txQueue.size
    requires TxRep(qp, ring, l, 0) && StatesRep(ring, l, false) && LengthsRep(ring, l)
    requires QueueRep(rxQueue, ring, l.workerRx) && QueueRep(txQueue, ring, l.workerTx)
    requires HandlerRep(handler, ring, l)
    modifies qp`sendHead, qp`sendTail, qp`freeSendWrNum, qp`nicSend, qp`sendDone, qp`sent, qp`txQueueIdx
    modifies qp.sendWr, qp.sendSgl, qp.swRing, qp.txQueue, ring`state, rxQueue`head, txQueue, txQueue.queue
    modifies handler`given, handler`ahead
    ensures done <= |l.inFlight| && HandlerRep(handler, ring, AfterDispatch(l, done, p))
    ensures done == if FlushesAfter(l, p) then Finished(old(qp.sendDone), finishes, |l.inFlight|) else 0
    ensures qp.sendDone == if FlushesAfter(l, p) then 0 else old(qp.sendDone)
    ensures var m := AfterDispatch(l, done, p);
            && TxRep(qp, ring, m, 0) && StatesRep(ring, m, false) && LengthsRep(ring, m)
            && QueueRep(rxQueue, ring, m.workerRx) && QueueRep(txQueue, ring, m.workerTx)
  {
    hide TxRep, StatesRep, LengthsRep, QueueRep, HandlerRep, Lane.Inv, Lane.Handled;
    QueuedSends(qp, ring, l);
    WorkLane(rxQueue, txQueue, handler, p, ring, l);
    StepKeepsInv(l, Handle);
    ghost var v := Work(l, p);
    CollectLaneKeeps(v, p);
    TxSame(qp, ring, l, v);
    var nbCollect := CollectLane(qp, txQueue, p, ring, v);
    ghost var w := CollectAll(v, p);
    StatesThroughWorker(ring, l, p);
    LengthsSame(ring, l, w);
    done := 0;
    if qp.txQueueIdx >= p.txBatch {
      var nbTx;
      nbTx, done := TxFlush(qp, finishes, ring, w, false);
      LengthsSame(ring, w, if nbTx == 0 then w else Flush(w, done));
    }
    SendingHandsNothingOn(v, done, p);
    HandlerSame(handler, ring, v, AfterDispatch(l, done, p));
  }

  lemma TxSame(qp: RdmaSocQp, ring: seq<Buffer>, l: Lane, m: Lane)
    requires TxRep(qp, ring, l, 0)
    requires m.inFlight == l.inFlight && m.txQueued == l.txQueued && m.sent == l.sent
    ensures TxRep(qp, ring, m, 0)
  {
  }

  lemma RxSame(qp: RdmaSocQp, ring: seq<Buffer>, l: Lane, m: Lane)
    requires RxRep(qp, ring, l) && m.n == l.n && |m.free| <= m.n
    requires m.RecvHead() == l.RecvHead() && m.RingHead() == l.RingHead()
    requires m.awaiting == l.awaiting && m.outstanding == l.outstanding && m.received == l.received
    ensures RxRep(qp, ring, m)
  {
  }

  /** What happens behind the dispatcher does not move the receive ring. */
  lemma RxThroughWorker(qp: RdmaSocQp, ring: seq<Buffer>, l: Lane, p: Params)
    requires RxRep(qp, ring, l)
    ensures RxRep(qp, ring, CollectAll(Work(l, p), p))
  {
    hide RxRep;
    RxFreeFits(qp, ring, l);
    RxSame(qp, ring, l, CollectAll(Work(l, p), p));
  }

  lemma RxFreeFits(qp: RdmaSocQp, ring: seq<Buffer>, l: Lane)
    requires RxRep(qp, ring, l)
    ensures |l.free| <= l.n
  {
  }

  lemma FlushHeads(l: Lane, done: nat)
    requires l.Inv() && done <= |l.inFlight|
    ensures var m := Flush(l, done);
            && m.n == l.n && |m.free| <= m.n && m.RecvHead() == l.RecvHead() && m.RingHead() == l.RingHead()
            && m.awaiting == l.awaiting && m.outstanding == l.outstanding && m.received == l.received && m.len == l.len
            && m.workerRx == l.workerRx && m.workerTx == l.workerTx && m.txQueued == []
  {
    StageTotal(l);
  }

  lemma RxThroughFlush(qp: RdmaSocQp, ring: seq<Buffer>, l: Lane, done: nat)
    requires l.Inv() && done <= |l.inFlight| && RxRep(qp, ring, l)
    ensures RxRep(qp, ring, Flush(l, done))
  {
    hide RxRep, Lane.Inv;
    FlushHeads(l, done);
    RxSame(qp, ring, l, Flush(l, done));
  }

  lemma CollectLaneKeeps(v: Lane, p: Params)
    requires v.Inv()
    ensures CollectAll(v, p).Inv() && CollectAll(v, p).n == v.n && CollectAll(v, p).len == v.len
    ensures CollectAll(v, p).inFlight == v.inFlight && CollectAll(v, p).workerRx == v.workerRx
  {
    var room := if |v.txQueued| <= p.txRing then p.txRing - |v.txQueued| else 0;
    StepKeepsInv(v, Collect(Min(|v.workerTx|, room)));
  }

  lemma StatesThroughWorker(ring: seq<Buffer>, l: Lane, p: Params)
    requires StatesRep(ring, l, false)
    ensures StatesRep(ring, CollectAll(Work(l, p), p), false)
  {
    HandleOwners(l, p);
    var v := Work(l, p);
    var room := if |v.txQueued| <= p.txRing then p.txRing - |v.txQueued| else 0;
    CollectOwners(v, Min(|v.workerTx|, room));
  }

  /** What is left of an iteration once the receives are dispatched. */
  function AfterDispatch(l: Lane, done: nat, p: Params): Lane
    requires done <= |l.inFlight|
  {
    var w := CollectAll(Work(l, p), p);
    if FlushesAfter(l, p) then Flush(w, done) else w
  }

  /** Enough is queued for a flush. */
  predicate FlushesAfter(l: Lane, p: Params) {
    var w := CollectAll(Work(l, p), p);
    |w.txQueued| >= p.txBatch && |w.txQueued| > 0
  }

  lemma QueuedSends(qp: RdmaSocQp, ring: seq<Buffer>, l: Lane)
    requires TxRep(qp, ring, l, 0)
    ensures qp.sendDone <= |l.inFlight|
  {
  }

  lemma AfterDispatchIsLaunch(l: Lane, lens: seq<nat>, done: nat, p: Params)
    requires Allowed(l, Choice(lens, 0), p) && done <= |l.inFlight| && p.txBatch > 0
    ensures LaunchRx(l, Choice(lens, done), p)
         == AfterDispatch(Next(Receive(l, Choice(lens, 0), p), Dispatch), done, p)
    ensures FlushesRx(l, Choice(lens, done), p) <==> FlushesAfter(Next(Receive(l, Choice(lens, 0), p), Dispatch), p)
  {
  }

  lemma RxAfterDispatch(qp: RdmaSocQp, ring: seq<Buffer>, l: Lane, done: nat, p: Params)
    requires l.Inv() && RxRep(qp, ring, l) && done <= |l.inFlight|
    ensures RxRep(qp, ring, AfterDispatch(l, done, p))
  {
    hide RxRep, Lane.Inv;
    RxThroughWorker(qp, ring, l, p);
    StepKeepsInv(l, Handle);
    CollectLaneKeeps(Work(l, p), p);
    RxThroughFlush(qp, ring, CollectAll(Work(l, p), p), done);
  }

  lemma DispatchKeeps(l: Lane, c: Choice, p: Params)
    requires l.Inv() && AtRestRx(l, p) && Allowed(l, c, p) && Fits(p, l.n)
    ensures var m := Next(Receive(l, c, p), Dispatch);
            && m.Inv() && m.n == l.n && m.inFlight == l.inFlight && m.txQueued == l.txQueued && m.sent == l.sent
            && m.workerTx == l.workerTx && |m.workerTx| + |m.workerRx| < p.queueSize
  {
    hide Lane.Inv;
    ReceiveKeeps(l, c, p);
    NoDrop(l, c, p);
    StepKeepsInv(Receive(l, c, p), Dispatch);
  }

  /**
   An iteration takes the finished receives, as many as a batch allows, and if it sends at all every
   finished send; the rest stays finished and not taken.
  */
  predicate Took(c: Choice, rxBatch: nat, recvs: nat, recvsLeft: nat, sending: bool, sends: Polled) {
    && |c.lens| == Min(rxBatch, recvs) && recvsLeft == recvs - |c.lens|
    && c.done == (if sending then sends.atPoll else 0)
    && sends.left == (if sending then 0 else sends.before)
  }

  /** How many sends had finished before, would have at a poll, and are finished and not taken after. */
  datatype Polled = Polled(before: nat, atPoll: nat, left: nat)

  /** The lane went from `l` to `m` by an iteration with the choice `c`, which is what the card had finished. */
  ghost predicate WentRx(l: Lane, m: Lane, c: Choice, p: Params,
                         recvs: nat, recvsLeft: nat, sends: Polled)
  {
    Allowed(l, c, p) && m == LaunchRx(l, c, p) &&
    Took(c, p.rxBatch, recvs, recvsLeft, FlushesRx(l, c, p), sends)
  }

  ghost predicate WentTx(l: Lane, m: Lane, c: Choice, p: Params,
                         recvs: nat, recvsLeft: nat, sends: Polled)
  {
    Allowed(l, c, p) && AtRestTx(l) && m == LaunchTx(l, c, p) &&
    Took(c, p.rxBatch, recvs, recvsLeft, |c.lens| > 0, sends)
  }

  /** One iteration of the lane from the prior component to the next. */
  method RxIteration(prior: RdmaSocQp, next: RdmaSocQp, rxQueue: ShmLockFreeQueue, txQueue: ShmLockFreeQueue,
                     handler: MsgHandler, arrivals: nat, finishes: nat, p: Params,
                     ghost ring: seq<Buffer>, ghost l: Lane)
    returns (ghost c: Choice)
    requires l.Inv() && AtRestRx(l, p) && Fits(p, l.n) && l.n == |ring| && Injective(ring) && next.txEntries == p.txRing
    requires QpsApart(prior, next) && rxQueue != txQueue && rxQueue.queue != txQueue.queue
    requires QueueApart(rxQueue, prior) && QueueApart(txQueue, prior)
    requires QueueApart(rxQueue, next) && QueueApart(txQueue, next)
    requires rxQueue.size == txQueue.size == p.queueSize
    requires RxRep(prior, ring, l) && TxRep(next, ring, l, 0) && StatesRep(ring, l, false) && LengthsRep(ring, l)
    requires QueueRep(rxQueue, ring, l.workerRx) && QueueRep(txQueue, ring, l.workerTx)
    requires HandlerRep(handler, ring, l)
    modifies prior`recvHead, prior`ringHead, prior`waitForDisp, prior`nicRecv, prior`recvDone, prior`received
    modifies prior.recvWr, prior.recvWc, ring`state, ring`length
    modifies rxQueue, rxQueue.queue, txQueue, txQueue.queue
    modifies next`sendHead, next`sendTail, next`freeSendWrNum, next`nicSend, next`sendDone, next`sent, next`txQueueIdx
    modifies next.sendWr, next.sendSgl, next.swRing, next.txQueue, handler`given, handler`ahead
    ensures Allowed(l, c, p)
    ensures var recvs := Finished(old(prior.recvDone), arrivals, |l.outstanding| + |l.free|);
            var sends := Finished(old(next.sendDone), finishes, |l.inFlight|);
            Took(c, p.rxBatch, recvs, prior.recvDone, FlushesRx(l, c, p),
                 Polled(old(next.sendDone), sends, next.sendDone))
    ensures HandlerRep(handler, ring, LaunchRx(l, c, p))
    ensures var m := LaunchRx(l, c, p);
            && RxRep(prior, ring, m) && TxRep(next, ring, m, 0) && StatesRep(ring, m, false) && LengthsRep(ring, m)
            && QueueRep(rxQueue, ring, m.workerRx) && QueueRep(txQueue, ring, m.workerTx)
  {
    hide RxRep, TxRep, StatesRep, LengthsRep, QueueRep, HandlerRep, Lane.Inv, Lane.Handled, Receive, Next, LaunchRx,
      FlushesRx, FlushesAfter, Finished, AtRestRx, AfterDispatch;
    ghost var lens := ReceiveAndDispatch(prior, rxQueue, arrivals, p, ring, l);
    DispatchKeeps(l, Choice(lens, 0), p);
    ghost var d := Next(Receive(l, Choice(lens, 0), p), Dispatch);
    TxSame(next, ring, l, d);
    ReceiveHandsNothingOn(l, Choice(lens, 0), p);
    HandlerSame(handler, ring, l, d);
    ghost var done := WorkAndSend(next, rxQueue, txQueue, handler, finishes, p, ring, d);
    c := Choice(lens, done);
    AfterDispatchIsLaunch(l, lens, done, p);
    RxAfterDispatch(prior, ring, d, done, p);
  }

  lemma TxSteps(l: Lane, c: Choice, p: Params)
    requires l.Inv() && AtRestTx(l) && Allowed(l, c, p) && Fits(p, l.n)
    ensures var m := Receive(l, c, p);
            && m.Inv() && m.n == l.n && m.inFlight == l.inFlight && m.txQueued == l.txQueued && m.sent == l.sent
            && m.workerTx == m.workerRx == [] && |m.awaiting| <= p.txRing
            && var d := Next(m, Direct(|m.awaiting|));
               && d.Inv() && d.n == l.n && d.inFlight == l.inFlight && d.len == m.len && |d.txQueued| == |c.lens|
               && LaunchTx(l, c, p) == (if |d.txQueued| > 0 then Flush(d, c.done) else d)
  {
    ReceiveKeeps(l, c, p);
    var m := Receive(l, c, p);
    StageTotal(m);
    StepKeepsInv(m, Direct(|m.awaiting|));
  }

  lemma StatesDirect(ring: seq<Buffer>, l: Lane, k: nat)
    requires StatesRep(ring, l, true) && Enabled(l, Direct(k))
    ensures StatesRep(ring, Next(l, Direct(k)), true)
  {
    DirectOwners(l, k);
  }

  /** One iteration of the lane from the next component to the prior. */
  method TxIteration(rxQp: RdmaSocQp, txQp: RdmaSocQp, arrivals: nat, finishes: nat, p: Params,
                     ghost ring: seq<Buffer>, ghost l: Lane)
    returns (ghost c: Choice)
    requires l.Inv() && AtRestTx(l) && Fits(p, l.n) && l.n == |ring| && Injective(ring) && txQp.txEntries == p.txRing
    requires QpsApart(rxQp, txQp)
    requires RxRep(rxQp, ring, l) && TxRep(txQp, ring, l, 0) && StatesRep(ring, l, true) && LengthsRep(ring, l)
    modifies rxQp`recvHead, rxQp`ringHead, rxQp`waitForDisp, rxQp`nicRecv, rxQp`recvDone, rxQp`received
    modifies rxQp.recvWr, rxQp.recvWc, ring`state, ring`length
    modifies txQp`sendHead, txQp`sendTail, txQp`freeSendWrNum, txQp`nicSend, txQp`sendDone, txQp`sent, txQp`txQueueIdx
    modifies txQp.sendWr, txQp.sendSgl, txQp.swRing, txQp.txQueue
    ensures Allowed(l, c, p)
    ensures var recvs := Finished(old(rxQp.recvDone), arrivals, |l.outstanding| + |l.free|);
            var sends := Finished(old(txQp.sendDone), finishes, |l.inFlight|);
            Took(c, p.rxBatch, recvs, rxQp.recvDone, |c.lens| > 0, Polled(old(txQp.sendDone), sends, txQp.sendDone))
    ensures var m := LaunchTx(l, c, p);
            RxRep(rxQp, ring, m) && TxRep(txQp, ring, m, 0) && StatesRep(ring, m, true) && LengthsRep(ring, m)
  {
    hide RxRep, TxRep, StatesRep, LengthsRep, Lane.Inv, Receive, Next, LaunchTx, Flush, Finished;
    var nbRx; ghost var lens;
    nbRx, lens := ReceiveOnly(rxQp, arrivals, p, ring, l);
    TxSteps(l, Choice(lens, 0), p);
    ghost var m := Receive(l, Choice(lens, 0), p);
    TxSame(txQp, ring, l, m);
    var nbDirect := DirectLane(rxQp, txQp, p, ring, m);
    ghost var d := Next(m, Direct(|m.awaiting|));
    StatesDirect(ring, m, |m.awaiting|);
    LengthsSame(ring, m, d);
    var nbTx; ghost var done;
    nbTx, done := TxFlush(txQp, finishes, ring, d, true);
    c := Choice(lens, done);
    SameReceive(l, lens, done, p);
    TxSteps(l, c, p);
    if nbTx > 0 {
      RxThroughFlush(rxQp, ring, d, done);
      FlushHeads(d, done);
      LengthsSame(ring, d, Flush(d, done));
    }
  }

  lemma SameReceive(l: Lane, lens: seq<nat>, done: nat, p: Params)
    requires Allowed(l, Choice(lens, 0), p) && done <= |l.inFlight|
    ensures Receive(l, Choice(lens, 0), p) == Receive(l, Choice(lens, done), p)
  {
  }

  method ReceiveOnly(qp: RdmaSocQp, arrivals: nat, p: Params, ghost ring: seq<Buffer>, ghost l: Lane)
    returns (nbRx: nat, ghost lens: seq<nat>)
    requires l.Inv() && RxRep(qp, ring, l) && StatesRep(ring, l, true) && LengthsRep(ring, l)
    modifies qp`recvHead, qp`waitForDisp, qp`nicRecv, qp`recvDone, qp`received
    modifies qp.recvWr, qp.recvWc, ring`state, ring`length
    ensures nbRx == |lens| && Allowed(l, Choice(lens, 0), p)
    ensures var finished := Finished(old(qp.recvDone), arrivals, |l.outstanding| + |l.free|);
            |lens| == Min(p.rxBatch, finished) && qp.recvDone == finished - |lens|
    ensures var m := Receive(l, Choice(lens, 0), p);
            RxRep(qp, ring, m) && StatesRep(ring, m, true) && LengthsRep(ring, m)
  {
    hide RxRep, StatesRep, LengthsRep, Lane.Inv;
    nbRx, lens := RxBurst(qp, p.rxBatch, arrivals, ring, l, true);
  }

  /** How many more requests the card finishes before each of the polls of one iteration. */
  datatype Card = Card(priorRecvs: nat, nextSends: nat, nextRecvs: nat, priorSends: nat)

  class SocWrapper {
    const prior: RdmaSocQp
    const next: RdmaSocQp
    const rxQueue: ShmLockFreeQueue    // _tmp_worker_rx_queue
    const txQueue: ShmLockFreeQueue    // _tmp_worker_tx_queue
    const handler: MsgHandler
    const p: Params

    ghost const priorRing: seq<Buffer>
    ghost const nextRing: seq<Buffer>
    ghost var rx: Lane                 // prior to next, through the worker
    ghost var tx: Lane                 // next to prior, direct

    /** Distinct members are distinct storage, and the two receive rings share no buffer. */
    ghost predicate Separate() {
      && QpsApart(prior, next) && prior.Separate() && next.Separate()
      && rxQueue != txQueue && rxQueue.queue != txQueue.queue
      && QueueApart(rxQueue, prior) && QueueApart(rxQueue, next)
      && QueueApart(txQueue, prior) && QueueApart(txQueue, next)
      && RingsApart(priorRing, nextRing)
      && Injective(priorRing) && Injective(nextRing)
      && rxQueue.size == txQueue.size == p.queueSize
      && prior.txEntries == next.txEntries == p.txRing
      && prior.rxEntries == |priorRing| && next.rxEntries == |nextRing|
      && Fits(p, |priorRing|) && Fits(p, |nextRing|)
    }

    ghost predicate RxLane()
      reads this`rx, prior`recvHead, prior`ringHead, prior`waitForDisp, prior`nicRecv, prior`recvDone, prior`received
      reads prior.rxRing, prior.recvWr, prior.recvSgl, priorRing
      reads next`sendHead, next`sendTail, next`freeSendWrNum, next`txQueueIdx, next`nicSend, next`sendDone, next`sent
      reads next.sendWr, next.swRing, next.txQueue
      reads rxQueue, rxQueue.queue, txQueue, txQueue.queue, handler`given
    {
      && rx.Inv() && rx.n == |priorRing|
      && RxRep(prior, priorRing, rx) && TxRep(next, priorRing, rx, 0)
      && StatesRep(priorRing, rx, false) && LengthsRep(priorRing, rx)
      && QueueRep(rxQueue, priorRing, rx.workerRx) && QueueRep(txQueue, priorRing, rx.workerTx)
      && HandlerRep(handler, priorRing, rx)
    }

    ghost predicate TxLane()
      reads this`tx, next`recvHead, next`ringHead, next`waitForDisp, next`nicRecv, next`recvDone, next`received
      reads next.rxRing, next.recvWr, next.recvSgl, nextRing
      reads prior`sendHead, prior`sendTail, prior`freeSendWrNum, prior`txQueueIdx, prior`nicSend, prior`sendDone
      reads prior`sent
      reads prior.sendWr, prior.swRing, prior.txQueue
    {
      && tx.Inv() && tx.n == |nextRing|
      && RxRep(next, nextRing, tx) && TxRep(prior, nextRing, tx, 0)
      && StatesRep(nextRing, tx, true) && LengthsRep(nextRing, tx)
    }

    ghost predicate Valid()
      reads this, prior, next, prior.Arrays(), next.Arrays(), priorRing, nextRing
      reads rxQueue, rxQueue.queue, txQueue, txQueue.queue, handler`given
    {
      && Separate() && RxLane() && TxLane()
      && AtRestRx(rx, p) && AtRestTx(tx)
    }

    /** Two freshly filled queue pairs and two empty worker queues. */
    constructor (prior: RdmaSocQp, next: RdmaSocQp, p: Params, handler: MsgHandler,
                 ghost priorRing: seq<Buffer>, ghost nextRing: seq<Buffer>)
      requires QpsApart(prior, next) && prior.Separate() && next.Separate() && handler.given == []
      requires RingsApart(priorRing, nextRing) && Injective(priorRing) && Injective(nextRing)
      requires Fits(p, |priorRing|) && Fits(p, |nextRing|) && IsPowerOfTwo(p.queueSize) && p.queueSize <= WORD
      requires prior.txEntries == next.txEntries == p.txRing
      requires prior.rxEntries == |priorRing| && next.rxEntries == |nextRing|
      requires RxRep(prior, priorRing, InitialLane(|priorRing|)) && TxRep(next, priorRing, InitialLane(|priorRing|), 0)
      requires StatesRep(priorRing, InitialLane(|priorRing|), false) && LengthsRep(priorRing, InitialLane(|priorRing|))
      requires RxRep(next, nextRing, InitialLane(|nextRing|)) && TxRep(prior, nextRing, InitialLane(|nextRing|), 0)
      requires StatesRep(nextRing, InitialLane(|nextRing|), true) && LengthsRep(nextRing, InitialLane(|nextRing|))
      ensures Valid() && rx == InitialLane(|priorRing|) && tx == InitialLane(|nextRing|)
      ensures this.prior == prior && this.next == next && this.p == p && this.handler == handler
      ensures this.priorRing == priorRing && this.nextRing == nextRing
      ensures fresh(rxQueue) && fresh(txQueue) && fresh(rxQueue.queue) && fresh(txQueue.queue)
    {
      hide RxRep, TxRep, StatesRep, LengthsRep, Lane.Inv;
      this.prior, this.next, this.p, this.handler := prior, next, p, handler;
      rxQueue := new ShmLockFreeQueue(p.queueSize);
      txQueue := new ShmLockFreeQueue(p.queueSize);
      this.priorRing, this.nextRing := priorRing, nextRing;
      rx, tx := InitialLane(|priorRing|), InitialLane(|nextRing|);
      new;
      InitialLaneInv(|priorRing|);
      InitialLaneInv(|nextRing|);
      NoBuffers(priorRing, []);
    }

    /** The receives and sends that have finished when an iteration polls for them. */
    ghost function PriorRecvs(card: Card): nat
      reads this`rx, prior`recvDone
    {
      Finished(prior.recvDone, card.priorRecvs, |rx.outstanding| + |rx.free|)
    }

    ghost function NextSends(card: Card): nat
      reads this`rx, next`sendDone
    {
      Finished(next.sendDone, card.nextSends, |rx.inFlight|)
    }

    ghost function NextRecvs(card: Card): nat
      reads this`tx, next`recvDone
    {
      Finished(next.recvDone, card.nextRecvs, |tx.outstanding| + |tx.free|)
    }

    ghost function PriorSends(card: Card): nat
      reads this`tx, prior`sendDone
    {
      Finished(prior.sendDone, card.priorSends, |tx.inFlight|)
    }

    /** RX direction, from the prior component block to the next. */
    method RxDirection(card: Card) returns (ghost c: Choice)
      requires Separate() && RxLane() && TxLane() && AtRestRx(rx, p)
      modifies this`rx
      modifies prior`recvHead, prior`ringHead, prior`waitForDisp, prior`nicRecv, prior`recvDone, prior`received
      modifies prior.recvWr, prior.recvWc, priorRing`state, priorRing`length
      modifies rxQueue, rxQueue.queue, txQueue, txQueue.queue, handler`given, handler`ahead
      modifies next`sendHead, next`sendTail, next`freeSendWrNum, next`nicSend, next`sendDone, next`sent
      modifies next`txQueueIdx, next.sendWr, next.sendSgl, next.swRing, next.txQueue
      ensures RxLane() && TxLane() && tx == old(tx)
      ensures next.recvDone == old(next.recvDone) && prior.sendDone == old(prior.sendDone)
      ensures AtRestRx(rx, p)
      ensures WentRx(old(rx), rx, c, p, old(PriorRecvs(card)), prior.recvDone,
                     Polled(old(next.sendDone), old(NextSends(card)), next.sendDone))
    {
      hide RxRep, TxRep, StatesRep, LengthsRep, QueueRep, HandlerRep, Lane.Inv;
      hide LaunchRx, FlushesRx, Finished, Took, AtRestRx, Fits, TxLane;
      c := RxIteration(prior, next, rxQueue, txQueue, handler, card.priorRecvs, card.nextSends, p, priorRing, rx);
      LaunchRxKeeps(rx, c, p);
      rx := LaunchRx(rx, c, p);
    }

    /** TX direction, from the next component block to the prior. */
    method TxDirection(card: Card) returns (ghost c: Choice)
      requires Separate() && RxLane() && TxLane() && AtRestTx(tx)
      modifies this`tx
      modifies next`recvHead, next`ringHead, next`waitForDisp, next`nicRecv, next`recvDone, next`received
      modifies next.recvWr, next.recvWc, nextRing`state, nextRing`length
      modifies prior`sendHead, prior`sendTail, prior`freeSendWrNum, prior`nicSend, prior`sendDone, prior`sent
      modifies prior`txQueueIdx, prior.sendWr, prior.sendSgl, prior.swRing, prior.txQueue
      ensures RxLane() && TxLane() && rx == old(rx)
      ensures prior.recvDone == old(prior.recvDone) && next.sendDone == old(next.sendDone)
      ensures AtRestTx(tx)
      ensures WentTx(old(tx), tx, c, p, old(NextRecvs(card)), next.recvDone,
                     Polled(old(prior.sendDone), old(PriorSends(card)), prior.sendDone))
    {
      hide RxRep, TxRep, StatesRep, LengthsRep, QueueRep, HandlerRep, Lane.Inv;
      hide LaunchTx, Finished, Took, Fits;
      c := TxIteration(next, prior, card.nextRecvs, card.priorSends, p, nextRing, tx);
      LaunchTxKeeps(tx, c, p);
      tx := LaunchTx(tx, c, p);
    }

    /**
     `__launch`. What it takes from the card is fixed by what the card has finished: of the receives
     a batch, and all sends whenever something is sent.
    */
    method Launch(card: Card) returns (ghost cRx: Choice, ghost cTx: Choice)
      requires Valid()
      modifies this`rx, this`tx, prior, next, rxQueue, txQueue, rxQueue.queue, txQueue.queue
      modifies handler`given, handler`ahead
      modifies prior.Arrays(), next.Arrays(), priorRing`state, priorRing`length, nextRing`state, nextRing`length
      ensures Valid()
      ensures WentRx(old(rx), rx, cRx, p, old(PriorRecvs(card)), prior.recvDone,
                     Polled(old(next.sendDone), old(NextSends(card)), next.sendDone))
      ensures WentTx(old(tx), tx, cTx, p, old(NextRecvs(card)), next.recvDone,
                     Polled(old(prior.sendDone), old(PriorSends(card)), prior.sendDone))
    {
      hide WentRx, WentTx, Finished, Separate, RxLane, TxLane;
      cRx := RxDirection(card);
      cTx := TxDirection(card);
    }

    /** Any number of iterations, as `__run` makes until its time is up. */
    method Run(cards: seq<Card>) returns (ghost csRx: seq<Choice>, ghost csTx: seq<Choice>)
      requires Valid()
      modifies this`rx, this`tx, prior, next, rxQueue, txQueue, rxQueue.queue, txQueue.queue
      modifies handler`given, handler`ahead
      modifies prior.Arrays(), next.Arrays(), priorRing`state, priorRing`length, nextRing`state, nextRing`length
      ensures Valid() && |csRx| == |csTx| == |cards|
      ensures RunRx(old(rx), csRx, p) == Reached(rx)
      ensures RunTx(old(tx), csTx, p) == Reached(tx)
    {
      hide LaunchTx, LaunchRx, RunRx, RunTx, WentRx, WentTx, PriorRecvs, NextSends, NextRecvs, PriorSends, Allowed,
        Valid;
      csRx, csTx := [], [];
      RunNone(rx, tx, p);
      for i := 0 to |cards|
        invariant Valid() && |csRx| == |csTx| == i
        invariant RunRx(old(rx), csRx, p) == Reached(rx)
        invariant RunTx(old(tx), csTx, p) == Reached(tx)
      {
        ghost var l, m := rx, tx;
        ghost var recvsRx, recvsTx := PriorRecvs(cards[i]), NextRecvs(cards[i]);
        ghost var sendsRx := Polled(next.sendDone, NextSends(cards[i]), 0);
        ghost var sendsTx := Polled(prior.sendDone, PriorSends(cards[i]), 0);
        ghost var cRx, cTx := Launch(cards[i]);
        RunRxOn(old(rx), csRx, l, rx, cRx, p, recvsRx, prior.recvDone, sendsRx.(left := next.sendDone));
        RunTxOn(old(tx), csTx, m, tx, cTx, p, recvsTx, next.recvDone, sendsTx.(left := prior.sendDone));
        csRx, csTx := csRx + [cRx], csTx + [cTx];
      }
    }
  }

  lemma RunRxOn(start: Lane, cs: seq<Choice>, l: Lane, m: Lane, c: Choice, p: Params,
                recvs: nat, recvsLeft: nat, sends: Polled)
    requires RunRx(start, cs, p) == Reached(l) && WentRx(l, m, c, p, recvs, recvsLeft, sends)
    ensures RunRx(start, cs + [c], p) == Reached(m)
  {
    RunRxAppend(start, cs, c, p);
  }

  lemma RunTxOn(start: Lane, cs: seq<Choice>, l: Lane, m: Lane, c: Choice, p: Params,
                recvs: nat, recvsLeft: nat, sends: Polled)
    requires RunTx(start, cs, p) == Reached(l) && WentTx(l, m, c, p, recvs, recvsLeft, sends)
    ensures RunTx(start, cs + [c], p) == Reached(m)
  {
    RunTxAppend(start, cs, c, p);
  }

  lemma RunNone(rx: Lane, tx: Lane, p: Params)
    ensures RunRx(rx, [], p) == Reached(rx) && RunTx(tx, [], p) == Reached(tx)
  {
  }

  // ---------- what holds between iterations, on the real fields ----------

  lemma RestSlots(l: Lane)
    requires l.Inv()
    ensures forall i :: 0 <= i < |l.txQueued + l.workerRx| ==> (l.txQueued + l.workerRx)[i] < l.n
  {
    StagesDisjoint(l);
    var q := l.txQueued + l.workerRx;
    assert forall i :: 0 <= i < |q| ==> q[i] in l.All();
  }

  /**
   Between iterations every message the card delivered on one side has been handed to the card on
   the other side or sits, untouched, in the transmit queue or the worker's queue: same order,
   same address, same length. The direct lane holds nothing back.
  */
  lemma EndToEnd(w: SocWrapper)
    requires w.Valid()
    ensures w.prior.received
         == w.next.sent + HeldFrames(w.next.txQueue[..w.next.txQueueIdx] + w.rxQueue.Contents())
    ensures w.txQueue.Contents() == []
    ensures w.next.received == w.prior.sent
  {
    hide StatesRep, Lane.Inv, Circular, SendWindow, RxShape;
    var l, ring := w.rx, w.priorRing;
    var q := l.txQueued + l.workerRx;
    RestBacklog(l, w.p);
    RestSlots(l);
    FramesOfConcat(ring, l.sent, Packets(q, l.len));
    HeldAre(ring, l, q);
    BuffersOfConcat(ring, l.txQueued, l.workerRx);
    assert w.next.txQueue[0..w.next.txQueueIdx] == w.next.txQueue[..w.next.txQueueIdx];
    DirectHoldsNothing(w.tx);
  }

  /**
   With a handler registered, it was called on exactly the messages that were transmitted on the
   next queue pair followed by those in its transmit queue: each once, and in order.
  */
  lemma HandledAreSent(w: SocWrapper)
    requires w.Valid()
    ensures w.handler.given ==
      if w.handler.registered then w.next.sent + HeldFrames(w.next.txQueue[..w.next.txQueueIdx]) else []
  {
    hide StatesRep, Lane.Inv, Circular, SendWindow, RxShape, RxRep, LengthsRep, QueueRep;
    var l, ring := w.rx, w.priorRing;
    StageSlots(l);
    HeldAre(ring, l, l.txQueued);
    FramesOfConcat(ring, l.sent, Packets(l.txQueued, l.len));
    assert l.txQueued + l.workerTx == l.txQueued;
    assert w.next.txQueue[0..w.next.txQueueIdx] == w.next.txQueue[..w.next.txQueueIdx];
  }

  lemma DirectHoldsNothing(l: Lane)
    requires l.Inv() && AtRestTx(l)
    ensures l.received == l.sent
  {
    assert l.Pending() == [];
    assert Packets(l.Pending(), l.len) == [];
  }

  function Window(sw: seq<Buffer?>, head: nat, k: nat): (r: seq<Buffer?>)
    requires head < |sw| && k <= |sw|
    ensures |r| == k
  {
    seq(k, j requires 0 <= j < k => sw[Wrap(head + j, |sw|)])
  }

  /** The buffers mounted on the send ring and not reported finished, oldest first. */
  ghost function InFlight(qp: RdmaSocQp): (r: seq<Buffer?>)
    requires TxSized(qp) && qp.freeSendWrNum <= qp.txEntries && qp.sendHead < qp.txEntries
    reads qp`freeSendWrNum, qp`sendHead, qp.swRing
  {
    Window(qp.swRing[..], qp.sendHead, qp.txEntries - qp.freeSendWrNum)
  }

  lemma LanePostedExclusive(rxQp: RdmaSocQp, txQp: RdmaSocQp, ring: seq<Buffer>, l: Lane, direct: bool, s: nat)
    requires l.Inv() && RxRep(rxQp, ring, l) && TxRep(txQp, ring, l, 0) && StatesRep(ring, l, direct)
    requires s in rxQp.nicRecv
    ensures s < |ring| && s !in l.Pending() && ring[s].state == Posted
    ensures txQp.freeSendWrNum <= txQp.txEntries && txQp.sendHead < txQp.txEntries
    ensures ring[s] !in txQp.txQueue[..txQp.txQueueIdx] && ring[s] !in InFlight(txQp)
  {
    hide Lane.Inv, Circular, FramesOf;
    StagesDisjoint(l);
    assert s in l.outstanding && s in l.All();
    NotAmong(ring, s, l.txQueued);
    assert txQp.txQueue[0..txQp.txQueueIdx] == txQp.txQueue[..txQp.txQueueIdx];
    assert InFlight(txQp) == BuffersOf(ring, l.inFlight);
    NotAmong(ring, s, l.inFlight);
  }

  /**
   A buffer the card may write at any moment is marked as the card's, and is neither with the
   worker, nor queued for sending, nor being sent.
  */
  lemma PostedIsExclusive(w: SocWrapper, s: nat)
    requires w.Valid()
    ensures w.next.freeSendWrNum <= w.next.txEntries && w.next.sendHead < w.next.txEntries
    ensures w.prior.freeSendWrNum <= w.prior.txEntries && w.prior.sendHead < w.prior.txEntries
    ensures s in w.prior.nicRecv ==>
      && s < |w.priorRing| && w.priorRing[s].state == Posted
      && w.priorRing[s] !in w.rxQueue.Contents() && w.priorRing[s] !in w.next.txQueue[..w.next.txQueueIdx]
      && w.priorRing[s] !in InFlight(w.next)
    ensures s in w.next.nicRecv ==>
      && s < |w.nextRing| && w.nextRing[s].state == Posted
      && w.nextRing[s] !in w.prior.txQueue[..w.prior.txQueueIdx] && w.nextRing[s] !in InFlight(w.prior)
  {
    hide Lane.Inv, RxRep, StatesRep, LengthsRep, InFlight;
    SendIndices(w);
    if s in w.prior.nicRecv {
      LanePostedExclusive(w.prior, w.next, w.priorRing, w.rx, false, s);
      NotAmong(w.priorRing, s, w.rx.workerRx);
    }
    if s in w.next.nicRecv {
      LanePostedExclusive(w.next, w.prior, w.nextRing, w.tx, true, s);
    }
  }

  lemma SendIndices(w: SocWrapper)
    requires w.Valid()
    ensures TxSized(w.next) && w.next.freeSendWrNum <= w.next.txEntries && w.next.sendHead < w.next.txEntries
    ensures TxSized(w.prior) && w.prior.freeSendWrNum <= w.prior.txEntries && w.prior.sendHead < w.prior.txEntries
  {
  }

  lemma NotAmong(ring: seq<Buffer>, s: nat, slots: seq<nat>)
    requires Injective(ring) && s < |ring| && s !in slots
    ensures ring[s] !in BuffersOf(ring, slots)
  {
    forall i | 0 <= i < |slots|
      ensures BuffersOf(ring, slots)[i] != ring[s]
    {
      assert slots[i] in slots;
    }
  }

  /**
   Between iterations a buffer is marked free exactly if it lies in the run of the ring that
   starts at `recvHead` and that the card has not been given back yet.
  */
  lemma FreeIsTheRunAtRecvHead(w: SocWrapper, s: nat)
    requires w.Valid()
    ensures |w.rx.free| <= |w.priorRing| && w.prior.recvHead < |w.priorRing|
    ensures |w.tx.free| <= |w.nextRing| && w.next.recvHead < |w.nextRing|
    ensures s < |w.priorRing| ==>
      (w.priorRing[s].state == Free <==> s in Arc(w.prior.recvHead, |w.rx.free|, |w.priorRing|))
    ensures s < |w.nextRing| ==>
      (w.nextRing[s].state == Free <==> s in Arc(w.next.recvHead, |w.tx.free|, |w.nextRing|))
  {
    hide Circular, FramesOf, RxShape, TxRep, QueueRep, Lane.Inv;
    FreeAt(w.rx);
    FreeAt(w.tx);
  }

  lemma LaneWindow(qp: RdmaSocQp, ring: seq<Buffer>, l: Lane)
    requires l.Inv() && RxRep(qp, ring, l)
    ensures qp.ringHead < |ring| && qp.waitForDisp + |qp.nicRecv| <= |ring|
    ensures var first := Wrap(qp.ringHead + qp.waitForDisp, |ring|);
            && qp.nicRecv == Arc(first, |qp.nicRecv|, |ring|)
            && Wrap(first + |qp.nicRecv|, |ring|) == qp.recvHead
  {
    hide Circular, RxShape, FramesOf, Lane.Inv;
    StageAt(l);
    OutstandingAt(l);
    RecvHeadAt(l);
  }

  lemma RecvHeadAt(l: Lane)
    requires l.Inv()
    ensures |l.free| <= l.n
    ensures l.RecvHead() == Wrap(Wrap(l.RingHead() + |l.awaiting|, l.n) + |l.outstanding|, l.n)
  {
    StageTotal(l);
  }

  /** The card holds the receives from behind the waiting ones up to `recvHead`, in ring order. */
  lemma PostedIsTheWindow(w: SocWrapper)
    requires w.Valid()
    ensures w.prior.ringHead < |w.priorRing| && w.prior.waitForDisp + |w.prior.nicRecv| <= |w.priorRing|
    ensures w.next.ringHead < |w.nextRing| && w.next.waitForDisp + |w.next.nicRecv| <= |w.nextRing|
    ensures var first := Wrap(w.prior.ringHead + w.prior.waitForDisp, |w.priorRing|);
            && w.prior.nicRecv == Arc(first, |w.prior.nicRecv|, |w.priorRing|)
            && Wrap(first + |w.prior.nicRecv|, |w.priorRing|) == w.prior.recvHead
    ensures var first := Wrap(w.next.ringHead + w.next.waitForDisp, |w.nextRing|);
            && w.next.nicRecv == Arc(first, |w.next.nicRecv|, |w.nextRing|)
            && Wrap(first + |w.next.nicRecv|, |w.nextRing|) == w.next.recvHead
  {
    hide RxRep, TxRep, StatesRep, LengthsRep, QueueRep, Lane.Inv;
    LaneWindow(w.prior, w.priorRing, w.rx);
    LaneWindow(w.next, w.nextRing, w.tx);
  }

  /**
   Send credits and sends the card has not reported finished add up to the ring, on both sides;
   those sends are the window of the send ring from its head to its tail.
  */
  lemma CreditsAgree(w: SocWrapper)
    requires w.Valid()
    ensures w.next.freeSendWrNum + |w.next.nicSend| == w.next.txEntries
    ensures w.prior.freeSendWrNum + |w.prior.nicSend| == w.prior.txEntries
    ensures w.next.sendHead < w.next.txEntries && w.prior.sendHead < w.prior.txEntries
    ensures w.next.nicSend == Arc(w.next.sendHead, |w.next.nicSend|, w.next.txEntries)
    ensures w.prior.nicSend == Arc(w.prior.sendHead, |w.prior.nicSend|, w.prior.txEntries)
    ensures w.next.sendTail == Wrap(w.next.sendHead + |w.next.nicSend|, w.next.txEntries)
    ensures w.prior.sendTail == Wrap(w.prior.sendHead + |w.prior.nicSend|, w.prior.txEntries)
  {
    hide Circular, FramesOf, Holds, RxRep, StatesRep, LengthsRep, QueueRep, Lane.Inv;
  }

  // ---------- every buffer has one owner ----------

  /** A buffer occurs in a list of buffers as often as its slot in the list of slots. */
  lemma {:induction false} BuffersCount(ring: seq<Buffer>, slots: seq<nat>, s: nat)
    requires Injective(ring) && s < |ring| && forall i :: 0 <= i < |slots| ==> slots[i] < |ring|
    ensures multiset(BuffersOf(ring, slots))[ring[s]] == multiset(slots)[s]
    decreases |slots|
  {
    if slots == [] {
    } else {
      var k := |slots| - 1;
      BuffersCount(ring, slots[..k], s);
      assert slots == slots[..k] + [slots[k]];
      BuffersOfConcat(ring, slots[..k], [slots[k]]);
      assert BuffersOf(ring, [slots[k]]) == [ring[slots[k]]];
    }
  }

  lemma LaneOwnership(rxQp: RdmaSocQp, txQp: RdmaSocQp, ring: seq<Buffer>, l: Lane, direct: bool, s: nat)
    requires l.Inv() && l.workerTx == l.awaiting == [] && s < |ring|
    requires RxRep(rxQp, ring, l) && TxRep(txQp, ring, l, 0) && StatesRep(ring, l, direct)
    ensures txQp.freeSendWrNum <= txQp.txEntries && txQp.sendHead < txQp.txEntries
    ensures multiset(rxQp.nicRecv)[s]
          + multiset(BuffersOf(ring, l.workerRx))[ring[s]]
          + multiset(txQp.txQueue[..txQp.txQueueIdx])[ring[s]]
          + multiset(InFlight(txQp))[ring[s]]
          + (if ring[s].state == Free then 1 else 0) == 1
  {
    hide Lane.Inv, Circular, FramesOf, BuffersOf;
    ExclusiveOwnership(l, s);
    StageSlots(l);
    BuffersCount(ring, l.workerRx, s);
    BuffersCount(ring, l.txQueued, s);
    BuffersCount(ring, l.inFlight, s);
    assert txQp.txQueue[0..txQp.txQueueIdx] == txQp.txQueue[..txQp.txQueueIdx];
    InFlightAre(txQp, ring, l);
  }

  lemma InFlightAre(qp: RdmaSocQp, ring: seq<Buffer>, l: Lane)
    requires TxRep(qp, ring, l, 0)
    ensures qp.freeSendWrNum <= qp.txEntries && qp.sendHead < qp.txEntries
    ensures InFlight(qp) == BuffersOf(ring, l.inFlight)
  {
    hide Circular, FramesOf;
  }

  lemma StageSlots(l: Lane)
    requires l.Inv()
    ensures forall i :: 0 <= i < |l.workerRx| ==> l.workerRx[i] < l.n
    ensures forall i :: 0 <= i < |l.txQueued| ==> l.txQueued[i] < l.n
    ensures forall i :: 0 <= i < |l.inFlight| ==> l.inFlight[i] < l.n
  {
    assert forall i :: 0 <= i < |l.All()| ==> l.All()[i] < l.n;
    assert forall x :: x in l.All() ==> x < l.n;
    assert forall i :: 0 <= i < |l.workerRx| ==> l.workerRx[i] in l.All();
    assert forall i :: 0 <= i < |l.txQueued| ==> l.txQueued[i] in l.All();
    assert forall i :: 0 <= i < |l.inFlight| ==> l.inFlight[i] in l.All();
  }

  /**
   Between iterations every receive buffer is exactly once in exactly one place: with the card for
   receiving, in the worker's queue, in the transmit queue, on the send ring, or marked free.
  */
  lemma OwnedOnce(w: SocWrapper, s: nat)
    requires w.Valid()
    ensures w.next.freeSendWrNum <= w.next.txEntries && w.next.sendHead < w.next.txEntries
    ensures w.prior.freeSendWrNum <= w.prior.txEntries && w.prior.sendHead < w.prior.txEntries
    ensures s < |w.priorRing| ==>
      var b := w.priorRing[s];
      multiset(w.prior.nicRecv)[s]
      + multiset(w.rxQueue.Contents())[b]
      + multiset(w.next.txQueue[..w.next.txQueueIdx])[b]
      + multiset(InFlight(w.next))[b]
      + (if b.state == Free then 1 else 0) == 1
    ensures s < |w.nextRing| ==>
      var b := w.nextRing[s];
      multiset(w.next.nicRecv)[s]
      + multiset(w.prior.txQueue[..w.prior.txQueueIdx])[b]
      + multiset(InFlight(w.prior))[b]
      + (if b.state == Free then 1 else 0) == 1
  {
    hide Lane.Inv, RxRep, StatesRep, LengthsRep, InFlight;
    SendIndices(w);
    if s < |w.priorRing| {
      LaneOwnership(w.prior, w.next, w.priorRing, w.rx, false, s);
    }
    if s < |w.nextRing| {
      LaneOwnership(w.next, w.prior, w.nextRing, w.tx, true, s);
    }
  }

  // ---------- progress, on the real fields ----------

  /**
   The lanes stall exactly when every buffer of their ring is waiting to be sent or is being sent,
   as far as the code knows: the finished sends are only looked for when something else is sent.
  */
  lemma StalledOnFields(w: SocWrapper)
    requires w.Valid()
    ensures Stalled(w.rx, w.p) <==>
      w.p.txRing - w.next.freeSendWrNum + w.next.txQueueIdx + |w.rxQueue.Contents()| == |w.priorRing|
    ensures StalledTx(w.tx, w.p) <==> w.p.txRing - w.prior.freeSendWrNum == |w.nextRing|
  {
    hide Stalled, StalledTx, RxRep, StatesRep, LengthsRep, Circular, FramesOf, Holds;
    StalledIff(w.rx, w.p);
    StalledTxIff(w.tx, w.p);
    StageAt(w.rx);
    StageAt(w.tx);
  }
}
