/** The whole SoC datapath with the shipped constants, from initialisation through any number of iterations. */
module SocSystem {
  import opened Bits
  import opened Buffers
  import opened RdmaQp
  import opened Lanes
  import opened Launches
  import opened SocDatapath
  import opened SocTransmit
  import opened Tiling
  import SocChannel
  import SocMemory
  import opened SocWrapper

  lemma QueueSizeIsPowerOfTwo()
    ensures IsPowerOfTwo(PRODUCTION.queueSize)
  {
    assert Pow2(5) == 32;
    Pow2Add(5, 5);
    assert PRODUCTION.queueSize == Pow2(10);
    PowerOfTwoIff(PRODUCTION.queueSize);
  }

  lemma RingsFreshApart(a: seq<Buffer>, b: seq<Buffer>)
    requires forall x :: x in a ==> x !in b
    ensures RingsApart(a, b)
  {
    forall i, j | 0 <= i < |a| && 0 <= j < |b|
      ensures a[i] != b[j]
    {
      assert a[i] in a;
    }
  }

  /** `kRecvMbufSize` and `kMemRegionSize` */
  const MBUF_SIZE: nat := 4096
  const REGION_SIZE: nat := 2 * (MBUF_SIZE * RING_SIZE + MBUF_SIZE * RING_SIZE)

  /** Every receive buffer of both rings has its own memory, all of it in the region. */
  ghost predicate OwnMemory(priorRing: seq<Buffer>, nextRing: seq<Buffer>, region: Region)
  {
    exists first: nat, second: nat ::
      && SocMemory.SlicesApart(region, first, second, MBUF_SIZE, RING_SIZE)
      && (forall i | 0 <= i < |priorRing| :: priorRing[i].buf == first + i * MBUF_SIZE)
      && (forall i | 0 <= i < |nextRing| :: nextRing[i].buf == second + i * MBUF_SIZE)
  }

  lemma OwnExtents(priorRing: seq<Buffer>, nextRing: seq<Buffer>, region: Region, first: nat, second: nat)
    requires SocMemory.SlicesApart(region, first, second, MBUF_SIZE, RING_SIZE)
    requires forall i | 0 <= i < |priorRing| :: priorRing[i].buf == first + i * MBUF_SIZE
    requires forall i | 0 <= i < |nextRing| :: nextRing[i].buf == second + i * MBUF_SIZE
    ensures OwnMemory(priorRing, nextRing, region)
  {
    hide SocMemory.SlicesApart;
  }

  /** Every receive buffer of a ring is described in full, under one key. */
  ghost predicate UnderKey(qp: RdmaSocQp, ring: seq<Buffer>, lkey: nat)
    requires qp.recvSgl.Length == |ring|
    reads qp.recvSgl
  {
    forall i | 0 <= i < |ring| :: ring[i].lkey == lkey && qp.recvSgl[i] == Sge(ring[i].buf, MBUF_SIZE, lkey)
  }

  lemma ShapeUnderKey(qp: RdmaSocQp, ring: seq<Buffer>, lkey: nat)
    requires RxSized(qp, |ring|) && RxShape(qp, ring)
    requires forall i :: 0 <= i < |ring| ==> ring[i].classSize == MBUF_SIZE && ring[i].lkey == lkey
    ensures UnderKey(qp, ring, lkey)
  {
  }

  lemma RepShape(qp: RdmaSocQp, ring: seq<Buffer>, l: Lane)
    requires RxRep(qp, ring, l)
    ensures RxSized(qp, |ring|) && RxShape(qp, ring)
  {
  }

  /** The key of every scatter entry of a receive, in every state of the system. */
  lemma KeysStay(w: SocWrapper, lkey: nat)
    requires w.Valid()
    requires forall b :: b in w.priorRing + w.nextRing ==> b.classSize == MBUF_SIZE && b.lkey == lkey
    ensures w.prior.recvSgl.Length == |w.priorRing| && UnderKey(w.prior, w.priorRing, lkey)
    ensures w.next.recvSgl.Length == |w.nextRing| && UnderKey(w.next, w.nextRing, lkey)
  {
    hide RxRep, TxRep, StatesRep, LengthsRep, QueueRep, HandlerRep, RxShape, UnderKey, Lane.Inv;
    assert forall i :: 0 <= i < |w.priorRing| ==> w.priorRing[i] in w.priorRing + w.nextRing;
    assert forall i :: 0 <= i < |w.nextRing| ==> w.nextRing[i] in w.priorRing + w.nextRing;
    RepShape(w.prior, w.priorRing, w.rx);
    RepShape(w.next, w.nextRing, w.tx);
    ShapeUnderKey(w.prior, w.priorRing, lkey);
    ShapeUnderKey(w.next, w.nextRing, lkey);
  }

  /** `allocate_channel`: memory for both rings, and both queue pairs ready to run. */
  method PrepareQps(base: nat, lkey: nat)
    returns (prior: RdmaSocQp, next: RdmaSocQp, ghost priorRing: seq<Buffer>, ghost nextRing: seq<Buffer>)
    ensures fresh(prior) && fresh(prior.Arrays()) && fresh(next) && fresh(next.Arrays())
    ensures fresh(priorRing) && fresh(nextRing)
    ensures QpsApart(prior, next) && prior.Separate() && next.Separate()
    ensures RingsApart(priorRing, nextRing) && Injective(priorRing) && Injective(nextRing)
    ensures prior.rxEntries == |priorRing| == next.rxEntries == |nextRing| == RING_SIZE
    ensures prior.txEntries == next.txEntries == PRODUCTION.txRing
    ensures RxRep(prior, priorRing, InitialLane(RING_SIZE)) && TxRep(next, priorRing, InitialLane(RING_SIZE), 0)
    ensures StatesRep(priorRing, InitialLane(RING_SIZE), false) && LengthsRep(priorRing, InitialLane(RING_SIZE))
    ensures RxRep(next, nextRing, InitialLane(RING_SIZE)) && TxRep(prior, nextRing, InitialLane(RING_SIZE), 0)
    ensures StatesRep(nextRing, InitialLane(RING_SIZE), true) && LengthsRep(nextRing, InitialLane(RING_SIZE))
    ensures OwnMemory(priorRing, nextRing, Region(base, REGION_SIZE))
    ensures forall b :: b in priorRing + nextRing ==> b.classSize == MBUF_SIZE && b.lkey == lkey
  {
    hide RxRep, TxRep, StatesRep, LengthsRep, SocChannel.TxIdle, QpsApart, OwnMemory, InitialLane,
      SocMemory.SlicesApart;
    var priorExtent, nextExtent := SocMemory.TakeExtents(base, lkey, REGION_SIZE, RING_SIZE, MBUF_SIZE);
    var txRing := PRODUCTION.txRing;
    prior, priorRing := SocChannel.PrepareQp(RING_SIZE, txRing, priorExtent.buf, priorExtent.lkey, MBUF_SIZE);
    next, nextRing := SocChannel.PrepareQp(RING_SIZE, txRing, nextExtent.buf, nextExtent.lkey, MBUF_SIZE);
    SocChannel.IdleIsInitial(prior, nextRing);
    SocChannel.IdleIsInitial(next, priorRing);
    DisjointQpsApart(prior, next);
    RingsFreshApart(priorRing, nextRing);
    OwnExtents(priorRing, nextRing, Region(base, REGION_SIZE), priorExtent.buf, nextExtent.buf);
  }

  method Start(base: nat, lkey: nat, registered: bool) returns (w: SocWrapper)
    ensures w.Valid() && w.p == PRODUCTION
    ensures w.rx == w.tx == InitialLane(RING_SIZE) && w.handler.registered == registered
    ensures fresh(w) && fresh(w.prior) && fresh(w.next) && fresh(w.prior.Arrays()) && fresh(w.next.Arrays())
    ensures fresh(w.rxQueue) && fresh(w.txQueue) && fresh(w.rxQueue.queue) && fresh(w.txQueue.queue)
    ensures fresh(w.priorRing) && fresh(w.nextRing) && fresh(w.handler)
    ensures OwnMemory(w.priorRing, w.nextRing, Region(base, REGION_SIZE))
    ensures forall b :: b in w.priorRing + w.nextRing ==> b.classSize == MBUF_SIZE && b.lkey == lkey
  {
    hide RxRep, TxRep, StatesRep, LengthsRep, IsPowerOfTwo, QpsApart, OwnMemory, InitialLane;
    QueueSizeIsPowerOfTwo();
    var prior, next; ghost var priorRing, nextRing;
    prior, next, priorRing, nextRing := PrepareQps(base, lkey);
    var handler := new MsgHandler(registered);
    w := new SocWrapper(prior, next, PRODUCTION, handler, priorRing, nextRing);
  }

  /** From start-up, for any number of iterations and any behaviour of the card. */
  method StartAndRun(base: nat, lkey: nat, registered: bool, cards: seq<Card>)
    returns (w: SocWrapper, ghost csRx: seq<Choice>, ghost csTx: seq<Choice>)
    ensures w.Valid() && |csRx| == |csTx| == |cards|
    ensures RunRx(InitialLane(RING_SIZE), csRx, PRODUCTION) == Reached(w.rx)
    ensures RunTx(InitialLane(RING_SIZE), csTx, PRODUCTION) == Reached(w.tx)
    ensures w.prior.received == w.next.sent + HeldFrames(w.next.txQueue[..w.next.txQueueIdx] + w.rxQueue.Contents())
    ensures w.next.txQueueIdx == 0 && |w.rxQueue.Contents()| <= 32
    ensures w.next.received == w.prior.sent
    ensures w.handler.given == if registered then w.next.sent else []
    ensures w.prior.recvSgl.Length == |w.priorRing| && UnderKey(w.prior, w.priorRing, lkey)
    ensures w.next.recvSgl.Length == |w.nextRing| && UnderKey(w.next, w.nextRing, lkey)
  {
    hide RunRx, RunTx, InitialLane, SocWrapper.Valid, UnderKey, OwnMemory;
    w := Start(base, lkey, registered);
    csRx, csTx := w.Run(cards);
    EndToEnd(w);
    HandledAreSent(w);
    FewHeld(w, csRx);
    KeysStay(w, lkey);
    assert w.next.txQueue[..0] == [];
  }

  /** With the shipped constants, after any run, nothing waits for a flush and at most 32 messages for the worker. */
  lemma FewHeld(w: SocWrapper, csRx: seq<Choice>)
    requires w.Valid() && w.p == PRODUCTION && RunRx(InitialLane(RING_SIZE), csRx, PRODUCTION) == Reached(w.rx)
    ensures w.next.txQueueIdx == 0 && |w.rxQueue.Contents()| <= 32
  {
    InitialLaneInv(RING_SIZE);
    RunRxQueuesNothing(InitialLane(RING_SIZE), csRx, PRODUCTION);
    QueueLength(w.next, w.priorRing, w.rx);
  }

  lemma BacklogIs63(w: SocWrapper)
    requires w.Valid() && w.p == PRODUCTION
    ensures w.next.txQueueIdx + |w.rxQueue.Contents()| <= 63
  {
    QueueLength(w.next, w.priorRing, w.rx);
  }
}
