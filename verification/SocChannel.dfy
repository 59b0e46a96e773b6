/** How `Channel_SoC` prepares a queue pair: the state every run of the event loop starts from. */
module SocChannel {
  import opened Rings
  import opened Buffers
  import opened RdmaQp
  import opened Launches
  import opened SocDatapath
  import opened SocTransmit

  /** `__init_recvs`: carves the extent into one receive buffer per slot and links them in a circle. */
  method InitRecvs(qp: RdmaSocQp, base: nat, lkey: nat, mbufSize: nat) returns (ghost ring: seq<Buffer>)
    requires RxSized(qp, qp.rxEntries)
    modifies qp.recvSgl, qp.recvWr, qp.rxRing
    ensures |ring| == qp.rxEntries && fresh(ring) && RxShape(qp, ring) && Circular(qp.recvWr[..])
    ensures forall i :: 0 <= i < |ring| ==> ring[i].buf == base + i * mbufSize && ring[i].classSize == mbufSize
    ensures forall i :: 0 <= i < |ring| ==> qp.recvSgl[i] == Sge(ring[i].buf, mbufSize, lkey) && ring[i].lkey == lkey
    ensures forall i :: 0 <= i < |ring| ==> ring[i].state == Posted && ring[i].length == 0
  {
    ring := CarveExtent(qp, base, lkey, mbufSize);
    LinkRing(qp, ring);
  }

  method CarveExtent(qp: RdmaSocQp, base: nat, lkey: nat, mbufSize: nat) returns (ghost ring: seq<Buffer>)
    requires RxSized(qp, qp.rxEntries)
    modifies qp.recvSgl, qp.recvWr, qp.rxRing
    ensures |ring| == qp.rxEntries && fresh(ring) && Injective(ring) && Circular(qp.recvWr[..])
    ensures forall i :: 0 <= i < |ring| ==> qp.rxRing[i] == ring[i] && ring[i].lkey == lkey
    ensures forall i :: 0 <= i < |ring| ==> qp.recvSgl[i] == Sge(ring[i].buf, mbufSize, lkey)
    ensures forall i :: 0 <= i < |ring| ==> ring[i].buf == base + i * mbufSize && ring[i].classSize == mbufSize
    ensures forall i :: 0 <= i < |ring| ==> ring[i].state == Posted && ring[i].length == 0
  {
    var n := qp.rxEntries;
    ring := [];
    for i := 0 to n
      invariant |ring| == i && fresh(ring) && Injective(ring)
      invariant forall j :: 0 <= j < i ==> qp.recvWr[j] == WorkRequest(j, To(Wrap(j + 1, n)))
      invariant forall j :: 0 <= j < i ==> qp.rxRing[j] == ring[j] && ring[j].lkey == lkey
      invariant forall j :: 0 <= j < i ==> qp.recvSgl[j] == Sge(ring[j].buf, mbufSize, lkey)
      invariant forall j :: 0 <= j < i ==> ring[j].buf == base + j * mbufSize && ring[j].classSize == mbufSize
      invariant forall j :: 0 <= j < i ==> ring[j].state == Posted && ring[j].length == 0
    {
      var offset := i * mbufSize;
      qp.recvSgl[i] := Sge(base + offset, mbufSize, lkey);
      var entry := new Buffer(base + offset, mbufSize, lkey);
      entry.state := Posted;
      qp.rxRing[i] := entry;
      qp.recvWr[i] := WorkRequest(i, To(if i < n - 1 then i + 1 else 0));
      ring := ring + [entry];
    }
  }

  method LinkRing(qp: RdmaSocQp, ghost ring: seq<Buffer>)
    requires RxSized(qp, |ring|) && Injective(ring)
    requires forall i :: 0 <= i < |ring| ==> qp.rxRing[i] == ring[i]
    modifies ring`next
    ensures forall i :: 0 <= i < |ring| ==> ring[i].next == ring[Wrap(i + 1, |ring|)]
  {
    for i := 0 to qp.rxEntries
      invariant forall j :: 0 <= j < i ==> ring[j].next == ring[Wrap(j + 1, |ring|)]
    {
      qp.rxRing[i].next := if i < qp.rxEntries - 1 then qp.rxRing[i + 1] else qp.rxRing[0];
    }
  }

  /** `__init_sends` */
  method InitSends(qp: RdmaSocQp)
    requires TxSized(qp)
    modifies qp.sendWr
    ensures Circular(qp.sendWr[..])
  {
    var n := qp.txEntries;
    for i := 0 to n
      invariant forall j :: 0 <= j < i ==> qp.sendWr[j] == WorkRequest(j, To(Wrap(j + 1, n)))
    {
      qp.sendWr[i] := WorkRequest(i, To(if i < n - 1 then i + 1 else 0));
    }
  }

  /** `__fill_recv_queue`: posts the whole ring as one chain, and closes the circle again. */
  method FillRecvQueue(qp: RdmaSocQp)
    requires 0 < qp.rxEntries == qp.recvWr.Length && Circular(qp.recvWr[..]) && qp.nicRecv == []
    modifies qp`nicRecv, qp.recvWr
    ensures qp.nicRecv == Arc(0, qp.rxEntries, qp.rxEntries)
    ensures qp.recvWr[..] == old(qp.recvWr[..])
  {
    var last := qp.rxEntries - 1;
    CutChain(qp.recvWr[..], 0, qp.rxEntries);
    qp.recvWr[last] := qp.recvWr[last].(next := Null);
    qp.PostRecv(0, Arc(0, qp.rxEntries, qp.rxEntries));
    qp.recvWr[last] := qp.recvWr[last].(next := To(0));
  }

  /** A send side that has nothing queued, mounted or posted. */
  ghost predicate TxIdle(qp: RdmaSocQp)
    reads qp`sendHead, qp`sendTail, qp`freeSendWrNum, qp`txQueueIdx, qp`nicSend, qp`sendDone, qp`sent, qp.sendWr
  {
    && TxSized(qp) && Circular(qp.sendWr[..])
    && qp.sendHead == qp.sendTail == qp.txQueueIdx == 0 && qp.freeSendWrNum == qp.txEntries
    && qp.nicSend == [] && qp.sendDone == 0 && qp.sent == []
  }

  lemma IdleIsInitial(qp: RdmaSocQp, peer: seq<Buffer>)
    requires TxIdle(qp) && |peer| > 0
    ensures TxRep(qp, peer, InitialLane(|peer|), 0)
  {
  }

  /** A queue pair set up this way represents the initial lane, on both its halves. */
  method PrepareQp(rxEntries: nat, txEntries: nat, base: nat, lkey: nat, mbufSize: nat)
    returns (qp: RdmaSocQp, ghost ring: seq<Buffer>)
    requires 0 < rxEntries <= txEntries
    ensures fresh(qp) && fresh(qp.Arrays()) && fresh(ring)
    ensures qp.rxEntries == rxEntries == |ring| && qp.txEntries == txEntries
    ensures qp.Separate() && Injective(ring)
    ensures forall i :: 0 <= i < |ring| ==> ring[i].buf == base + i * mbufSize
    ensures forall i :: 0 <= i < |ring| ==> ring[i].classSize == mbufSize && ring[i].lkey == lkey
    ensures RxRep(qp, ring, InitialLane(rxEntries))
    ensures StatesRep(ring, InitialLane(rxEntries), false) && StatesRep(ring, InitialLane(rxEntries), true)
    ensures LengthsRep(ring, InitialLane(rxEntries))
    ensures TxIdle(qp) && qp.recvDone == 0
  {
    qp := new RdmaSocQp(rxEntries, txEntries);
    ring := InitRecvs(qp, base, lkey, mbufSize);
    InitSends(qp);
    FillRecvQueue(qp);
  }

  // ---------- the linked ring ----------

  /** `next_`, followed `k` times. */
  ghost function Follow(ring: seq<Buffer>, b: Buffer?, k: nat): Buffer?
    reads ring
  {
    if k == 0 then b
    else if b == null || b !in ring then null
    else Follow(ring, b.next, k - 1)
  }

  /**
   Following `next_` from any entry for less than a full turn reaches the slot that many further
   round the ring; a full turn, and nothing shorter, comes back.
  */
  lemma FollowVisitsAll(qp: RdmaSocQp, ring: seq<Buffer>, s: nat, k: nat)
    requires RxSized(qp, |ring|) && RxShape(qp, ring) && s < |ring| && k <= |ring|
    ensures Follow(ring, ring[s], k) == ring[Wrap(s + k, |ring|)]
    ensures Follow(ring, ring[s], k) == ring[s] <==> k == 0 || k == |ring|
  {
    FollowReaches(qp, ring, s, k);
  }

  lemma {:induction false} FollowReaches(qp: RdmaSocQp, ring: seq<Buffer>, s: nat, k: nat)
    requires RxSized(qp, |ring|) && RxShape(qp, ring) && s < |ring| && k <= |ring|
    ensures Follow(ring, ring[s], k) == ring[Wrap(s + k, |ring|)]
    decreases k
  {
    if k == 0 {
    } else {
      assert ring[s].next == ring[Wrap(s + 1, |ring|)];
      FollowReaches(qp, ring, Wrap(s + 1, |ring|), k - 1);
      assert Wrap(Wrap(s + 1, |ring|) + (k - 1), |ring|) == Wrap(s + k, |ring|);
    }
  }
}
