/** The sending half of the event loop: reaping finished sends, mounting, posting, flushing. */
module SocTransmit {
  import opened Rings
  import opened Buffers
  import opened RdmaQp
  import opened Lanes
  import opened Launches
  import opened SocDatapath

  ghost predicate TxSized(qp: RdmaSocQp) {
    && qp.Separate()
    && 0 < qp.txEntries == qp.sendWr.Length == qp.sendSgl.Length == qp.swRing.Length == qp.txQueue.Length
  }

  /** Slots of a ring of `n`, each at most once. */
  predicate Slots(n: nat, a: seq<nat>) {
    && (forall i :: 0 <= i < |a| ==> a[i] < n)
    && (forall i, j :: 0 <= i < j < |a| ==> a[i] != a[j])
  }

  lemma SlotAt(n: nat, a: seq<nat>, i: nat)
    requires Slots(n, a) && i < |a|
    ensures a[i] < n
  {
  }

  /** From slot `head` on, the ring `sw` holds the buffers `a` of `ring`. */
  ghost predicate Holds(sw: seq<Buffer?>, head: nat, ring: seq<Buffer>, a: seq<nat>) {
    && head < |sw| && |a| <= |sw|
    && forall j :: 0 <= j < |a| ==> a[j] < |ring| && sw[Wrap(head + j, |sw|)] == ring[a[j]]
  }

  lemma HoldsPush(sw: seq<Buffer?>, head: nat, ring: seq<Buffer>, a: seq<nat>, s: nat)
    requires Holds(sw, head, ring, a) && |a| < |sw| && s < |ring|
    ensures Holds(sw[Wrap(head + |a|, |sw|) := ring[s]], head, ring, a + [s])
  {
  }

  lemma HoldsDrop(sw: seq<Buffer?>, head: nat, ring: seq<Buffer>, a: seq<nat>, k: nat)
    requires Holds(sw, head, ring, a) && k <= |a|
    ensures Holds(sw, Wrap(head + k, |sw|), ring, a[k..])
  {
    var h := Wrap(head + k, |sw|);
    forall j | 0 <= j < |a| - k
      ensures a[k..][j] < |ring| && sw[Wrap(h + j, |sw|)] == ring[a[k..][j]]
    {
      assert Wrap(h + j, |sw|) == Wrap(head + (k + j), |sw|);
    }
  }

  /** From slot `head` on, the scatter list describes the buffers `q` with the lengths `len`. */
  ghost predicate Describes(sgl: seq<Sge>, head: nat, ring: seq<Buffer>, len: seq<nat>, q: seq<nat>) {
    && head < |sgl| && |q| <= |sgl|
    && forall j :: 0 <= j < |q| ==>
         q[j] < |ring| &&
         sgl[Wrap(head + j, |sgl|)] == Sge(ring[q[j]].buf, LengthAt(len, q[j]), ring[q[j]].lkey)
  }

  lemma DescribesPush(sgl: seq<Sge>, head: nat, ring: seq<Buffer>, len: seq<nat>, q: seq<nat>, s: nat)
    requires Describes(sgl, head, ring, len, q) && |q| < |sgl| && s < |ring|
    ensures var sge := Sge(ring[s].buf, LengthAt(len, s), ring[s].lkey);
            Describes(sgl[Wrap(head + |q|, |sgl|) := sge], head, ring, len, q + [s])
  {
  }

  /** The send ring holds, from head to tail, the buffers `a`; every other entry is a free credit. */
  ghost predicate SendWindow(qp: RdmaSocQp, ring: seq<Buffer>, a: seq<nat>)
    requires TxSized(qp)
    reads qp`sendHead, qp`sendTail, qp`freeSendWrNum, qp.swRing
  {
    && |a| <= qp.txEntries && qp.freeSendWrNum == qp.txEntries - |a|
    && qp.sendHead < qp.txEntries && qp.sendTail == Wrap(qp.sendHead + |a|, qp.txEntries)
    && Holds(qp.swRing[..], qp.sendHead, ring, a)
  }

  /** Frees the buffers of all sends that have finished, oldest first. */
  method ReapSends(qp: RdmaSocQp, ghost ring: seq<Buffer>, ghost a: seq<nat>) returns (done: nat)
    requires Injective(ring) && Slots(|ring|, a) && TxSized(qp) && SendWindow(qp, ring, a)
    requires qp.nicSend == Arc(qp.sendHead, |a|, qp.txEntries) && qp.sendDone <= |a|
    modifies qp`sendHead, qp`freeSendWrNum, qp`nicSend, qp`sendDone, ring`state
    ensures done == old(qp.sendDone) <= |a| && qp.sendDone == 0
    ensures SendWindow(qp, ring, a[done..])
    ensures qp.nicSend == Arc(qp.sendHead, |a| - done, qp.txEntries)
    ensures qp.sendTail == old(qp.sendTail)
    ensures forall s :: 0 <= s < |ring| ==> ring[s].state == if s in a[..done] then Free else old(ring[s].state)
  {
    hide Slots;
    done := qp.PollSendCq(qp.txEntries);
    ArcSplit(qp.sendHead, done, |a| - done, qp.txEntries);
    HoldsDrop(qp.swRing[..], qp.sendHead, ring, a, done);
    qp.freeSendWrNum := qp.freeSendWrNum + done;
    FreeSends(qp, done, ring, a);
  }

  /** Walks the send ring over the finished sends and frees their buffers. */
  method FreeSends(qp: RdmaSocQp, done: nat, ghost ring: seq<Buffer>, ghost a: seq<nat>)
    requires Injective(ring) && Slots(|ring|, a) && TxSized(qp) && done <= |a|
    requires Holds(qp.swRing[..], qp.sendHead, ring, a)
    modifies qp`sendHead, ring`state
    ensures qp.sendHead == Wrap(old(qp.sendHead) + done, qp.txEntries)
    ensures forall s :: 0 <= s < |ring| ==> ring[s].state == if s in a[..done] then Free else old(ring[s].state)
  {
    ghost var head := qp.sendHead;
    for i := 0 to done
      invariant qp.sendHead == Wrap(head + i, qp.txEntries)
      invariant forall s :: 0 <= s < |ring| ==> ring[s].state == if s in a[..i] then Free else old(ring[s].state)
    {
      assert qp.swRing[qp.sendHead] == ring[a[i]];
      assert a[..i + 1] == a[..i] + [a[i]];
      qp.swRing[qp.sendHead].state := Free;
      ModIsWrap(qp.sendHead + 1, qp.txEntries);
      qp.sendHead := (qp.sendHead + 1) % qp.txEntries;
    }
  }

  /** Mounts one buffer on the slot at the tail. */
  method MountOne(qp: RdmaSocQp, m: Buffer, ghost ring: seq<Buffer>, ghost at: nat)
    requires Injective(ring) && at < |ring| && m == ring[at]
    requires TxSized(qp) && qp.freeSendWrNum > 0 && qp.sendTail < qp.txEntries
    modifies qp`sendTail, qp`freeSendWrNum, qp.sendSgl, qp.swRing, m`state
    ensures StatesOf(ring) == old(StatesOf(ring))[at := Posted]
    ensures qp.sendSgl[..] == old(qp.sendSgl[..])[old(qp.sendTail) := Sge(m.buf, m.length, m.lkey)]
    ensures qp.swRing[..] == old(qp.swRing[..])[old(qp.sendTail) := m]
    ensures qp.sendTail == Wrap(old(qp.sendTail) + 1, qp.txEntries)
    ensures qp.freeSendWrNum == old(qp.freeSendWrNum) - 1
  {
    m.state := Posted;
    qp.sendSgl[qp.sendTail] := Sge(m.buf, m.length, m.lkey);
    qp.swRing[qp.sendTail] := m;
    ModIsWrap(qp.sendTail + 1, qp.txEntries);
    qp.sendTail := (qp.sendTail + 1) % qp.txEntries;
    qp.freeSendWrNum := qp.freeSendWrNum - 1;
  }

  /** Mounting one buffer behind those mounted so far. */
  method MountNext(qp: RdmaSocQp, m: Buffer, ghost ring: seq<Buffer>, ghost len: seq<nat>,
                   ghost a: seq<nat>, ghost q: seq<nat>, ghost at: nat, ghost tail: nat)
    requires Injective(ring) && TxSized(qp) && SendWindow(qp, ring, a) && qp.freeSendWrNum > 0
    requires at < |ring| && m == ring[at] && m.length == LengthAt(len, at)
    requires Describes(qp.sendSgl[..], tail, ring, len, q) && |q| < qp.txEntries
    requires tail < qp.txEntries && qp.sendTail == Wrap(tail + |q|, qp.txEntries)
    modifies qp`sendTail, qp`freeSendWrNum, qp.sendSgl, qp.swRing, m`state
    ensures SendWindow(qp, ring, a + [at]) && Describes(qp.sendSgl[..], tail, ring, len, q + [at])
    ensures qp.sendTail == Wrap(tail + |q| + 1, qp.txEntries)
    ensures qp.freeSendWrNum == old(qp.freeSendWrNum) - 1
    ensures StatesOf(ring) == old(StatesOf(ring))[at := Posted]
  {
    hide Holds, Describes, LengthAt, StatesOf, Injective;
    HoldsPush(qp.swRing[..], qp.sendHead, ring, a, at);
    DescribesPush(qp.sendSgl[..], tail, ring, len, q, at);
    MountOne(qp, m, ring, at);
  }

  /** Mounts queued buffers on free send slots, as many as there are credits for. */
  method MountSends(qp: RdmaSocQp, off: nat, txSize: nat,
                    ghost ring: seq<Buffer>, ghost len: seq<nat>, ghost a: seq<nat>, ghost q: seq<nat>)
    returns (n: nat)
    requires Injective(ring) && Slots(|ring|, q) && TxSized(qp) && SendWindow(qp, ring, a)
    requires |q| == txSize && off + txSize <= qp.txEntries
    requires qp.txQueue[off..off + txSize] == BuffersOf(ring, q)
    requires forall s :: 0 <= s < |ring| ==> ring[s].length == LengthAt(len, s)
    modifies qp`sendTail, qp`freeSendWrNum, qp.sendSgl, qp.swRing, ring`state
    ensures n == Min(txSize, old(qp.freeSendWrNum))
    ensures SendWindow(qp, ring, a + q[..n])
    ensures Describes(qp.sendSgl[..], old(qp.sendTail), ring, len, q[..n])
    ensures forall s :: 0 <= s < |ring| ==> ring[s].state == if s in q[..n] then Posted else old(ring[s].state)
  {
    hide Holds, Describes, LengthAt, BuffersOf, StatesOf, Marked, Injective, Slots;
    ghost var was := StatesOf(ring);
    StatesAt(ring);
    MarkedAt(was, q[..0], Posted);
    n := 0;
    ghost var tail := qp.sendTail;
    assert a + q[..0] == a;
    DescribesNone(qp.sendSgl[..], tail, ring, len, q[..0]);
    while qp.freeSendWrNum > 0 && n < txSize
      invariant n <= txSize && SendWindow(qp, ring, a + q[..n])
      invariant qp.sendTail == Wrap(tail + n, qp.txEntries)
      invariant Describes(qp.sendSgl[..], tail, ring, len, q[..n])
      invariant StatesOf(ring) == Marked(was, q[..n], Posted)
    {
      var m := qp.txQueue[off + n];
      assert m == qp.txQueue[off..off + txSize][n];
      SlotAt(|ring|, q, n);
      BuffersOfAt(ring, q, n);
      assert q[..n + 1] == q[..n] + [q[n]];
      assert a + q[..n + 1] == (a + q[..n]) + [q[n]];
      MarkedNext(was, q, n, Posted);
      MountNext(qp, m, ring, len, a + q[..n], q[..n], q[n], tail);
      n := n + 1;
    }
    StatesAt(ring);
    MarkedAt(was, q[..n], Posted);
  }

  /** The states once the buffers in some slots were given the state `st`. */
  function Marked(was: seq<BufState>, slots: seq<nat>, st: BufState): (r: seq<BufState>)
    ensures |r| == |was|
  {
    seq(|was|, s requires 0 <= s < |was| => if s in slots then st else was[s])
  }

  lemma MarkedAt(was: seq<BufState>, slots: seq<nat>, st: BufState)
    ensures forall s :: 0 <= s < |was| ==> Marked(was, slots, st)[s] == if s in slots then st else was[s]
    ensures slots == [] ==> Marked(was, slots, st) == was
  {
  }

  lemma MarkedNext(was: seq<BufState>, slots: seq<nat>, n: nat, st: BufState)
    requires n < |slots| && slots[n] < |was|
    ensures Marked(was, slots[..n + 1], st) == Marked(was, slots[..n], st)[slots[n] := st]
  {
    assert slots[..n + 1] == slots[..n] + [slots[n]];
  }

  lemma DescribesNone(sgl: seq<Sge>, head: nat, ring: seq<Buffer>, len: seq<nat>, q: seq<nat>)
    requires head < |sgl| && q == []
    ensures Describes(sgl, head, ring, len, q)
  {
  }

  /** Cuts the chain behind the mounted requests, hands it to the card, and closes it again. */
  method PostSends(qp: RdmaSocQp, firstWr: nat, n: nat)
    requires TxSized(qp) && Circular(qp.sendWr[..])
    requires firstWr < qp.txEntries && 0 < n <= qp.txEntries
    requires qp.sendTail == Wrap(firstWr + n, qp.txEntries)
    modifies qp`nicSend, qp`sent, qp.sendWr
    ensures qp.sendWr[..] == old(qp.sendWr[..])
    ensures qp.nicSend == old(qp.nicSend) + Arc(firstWr, n, qp.txEntries)
    ensures qp.sent == old(qp.sent) + SentFrames(qp.sendSgl[..], Arc(firstWr, n, qp.txEntries))
  {
    var tailWr := Wrap(firstWr + n - 1, qp.txEntries);
    var temp := qp.sendWr[tailWr].next;
    CutChain(qp.sendWr[..], firstWr, n);
    qp.sendWr[tailWr] := qp.sendWr[tailWr].(next := Null);
    qp.PostSend(firstWr, Arc(firstWr, n, qp.txEntries));
    qp.sendWr[tailWr] := qp.sendWr[tailWr].(next := temp);
  }

  // ---------- how the send side represents a lane ----------

  /** `off` entries of the transmit queue are already sent; the rest is what the lane has queued. */
  ghost predicate TxRep(qp: RdmaSocQp, ring: seq<Buffer>, l: Lane, off: nat)
    reads qp`sendHead, qp`sendTail, qp`freeSendWrNum, qp`txQueueIdx, qp`nicSend, qp`sendDone, qp`sent
    reads qp.sendWr, qp.swRing, qp.txQueue
  {
    && TxSized(qp) && Circular(qp.sendWr[..]) && SendWindow(qp, ring, l.inFlight)
    && qp.nicSend == Arc(qp.sendHead, |l.inFlight|, qp.txEntries) && qp.sendDone <= |qp.nicSend|
    && off <= qp.txQueueIdx <= qp.txEntries
    && qp.txQueue[off..qp.txQueueIdx] == BuffersOf(ring, l.txQueued)
    && qp.sent == FramesOf(ring, l.sent)
  }

  lemma ReapOwners(l: Lane, done: nat, direct: bool)
    requires l.Inv() && done <= |l.inFlight|
    ensures forall s: nat :: OwnerOf(Next(l, SendComplete(done)), s, direct)
                          == (if s in l.inFlight[..done] then Free else OwnerOf(l, s, direct))
    ensures Slots(l.n, l.inFlight)
  {
    InFlightAt(l);
    ArcDistinct(l.base, |l.inFlight|, l.n);
  }

  lemma QueuedAlone(l: Lane)
    requires l.Inv()
    ensures Slots(l.n, l.txQueued)
    ensures forall s :: s in l.txQueued ==> s !in l.workerTx && s !in l.workerRx && s !in l.free
  {
    AllDistinct(l);
    var rest := l.workerTx + l.workerRx + l.awaiting + l.outstanding + l.free;
    assert l.inFlight + l.txQueued + rest == l.All();
    ArcPart(l.inFlight, l.txQueued, rest, l.base, l.n);
    ArcDistinct(Wrap(l.base + |l.inFlight|, l.n), |l.txQueued|, l.n);
    SplitDisjoint(l.inFlight, l.txQueued, rest, l.All());
  }

  lemma MountOwners(l: Lane, k: nat, direct: bool)
    requires l.Inv() && k <= |l.txQueued|
    ensures forall s: nat :: OwnerOf(Next(l, Mount(k)), s, direct)
                          == (if s in l.txQueued[..k] then Posted else OwnerOf(l, s, direct))
    ensures Slots(l.n, l.txQueued)
  {
    hide Lane.Inv;
    QueuedAlone(l);
    assert forall s :: s in l.txQueued <==> s in l.txQueued[..k] || s in l.txQueued[k..];
    assert forall s :: s in l.txQueued[..k] ==> s !in l.txQueued[k..];
  }

  /** What the card reads from the described slots is the lane's packets. */
  lemma MountFrames(sgl: seq<Sge>, tail: nat, ring: seq<Buffer>, len: seq<nat>, q: seq<nat>, sent: seq<Packet>)
    requires Describes(sgl, tail, ring, len, q)
    ensures FramesOf(ring, sent + Packets(q, len)) == FramesOf(ring, sent) + SentFrames(sgl, Arc(tail, |q|, |sgl|))
  {
    FramesOfConcat(ring, sent, Packets(q, len));
    assert FramesOf(ring, Packets(q, len)) == SentFrames(sgl, Arc(tail, |q|, |sgl|));
  }

  // ---------- __tx_burst ----------

  method Reap(qp: RdmaSocQp, ghost off: nat, ghost ring: seq<Buffer>, ghost l: Lane, ghost direct: bool)
    returns (done: nat)
    requires l.Inv() && l.n == |ring| && Injective(ring)
    requires TxRep(qp, ring, l, off) && StatesRep(ring, l, direct)
    modifies qp`sendHead, qp`freeSendWrNum, qp`nicSend, qp`sendDone, ring`state
    ensures done == old(qp.sendDone) <= |l.inFlight| && qp.sendDone == 0
    ensures TxRep(qp, ring, Next(l, SendComplete(done)), off)
    ensures StatesRep(ring, Next(l, SendComplete(done)), direct)
  {
    hide Lane.Inv, Holds, OwnerOf, Circular, FramesOf, BuffersOf;
    ReapOwners(l, 0, direct);
    done := ReapSends(qp, ring, l.inFlight);
    ReapOwners(l, done, direct);
  }

  method PostMounted(qp: RdmaSocQp, firstWr: nat, n: nat)
    requires TxSized(qp) && Circular(qp.sendWr[..])
    requires firstWr < qp.txEntries && n <= qp.txEntries
    requires qp.sendTail == Wrap(firstWr + n, qp.txEntries)
    modifies qp`nicSend, qp`sent, qp.sendWr
    ensures qp.sendWr[..] == old(qp.sendWr[..])
    ensures qp.nicSend == old(qp.nicSend) + Arc(firstWr, n, qp.txEntries)
    ensures qp.sent == old(qp.sent) + SentFrames(qp.sendSgl[..], Arc(firstWr, n, qp.txEntries))
  {
    if n > 0 {
      PostSends(qp, firstWr, n);
    }
  }

  lemma BuffersOfDrop(ring: seq<Buffer>, q: seq<nat>, n: nat)
    requires n <= |q|
    ensures BuffersOf(ring, q)[n..] == BuffersOf(ring, q[n..])
  {
  }

  /** A send side on which the first queued buffers were mounted and posted represents the lane's move. */
  lemma MountedRep(qp: RdmaSocQp, off: nat, ring: seq<Buffer>, l: Lane, n: nat)
    requires n <= |l.txQueued| && l.n == |ring|
    requires TxSized(qp) && Circular(qp.sendWr[..]) && SendWindow(qp, ring, l.inFlight + l.txQueued[..n])
    requires qp.nicSend == Arc(qp.sendHead, |l.inFlight|, qp.txEntries)
                         + Arc(Wrap(qp.sendHead + |l.inFlight|, qp.txEntries), n, qp.txEntries)
    requires qp.sendDone <= |l.inFlight|
    requires off <= qp.txQueueIdx <= qp.txEntries && qp.txQueue[off..qp.txQueueIdx] == BuffersOf(ring, l.txQueued)
    requires qp.sent == FramesOf(ring, l.sent + Packets(l.txQueued[..n], l.len))
    ensures TxRep(qp, ring, Next(l, Mount(n)), off + n)
  {
    hide BuffersOf, FramesOf, Packets, Circular, Holds;
    ArcSplit(qp.sendHead, |l.inFlight|, n, qp.txEntries);
    BuffersOfDrop(ring, l.txQueued, n);
    var queue := qp.txQueue[off..qp.txQueueIdx];
    assert |queue| == |l.txQueued|;
    assert qp.txQueue[off + n..qp.txQueueIdx] == queue[n..];
  }

  method MountAndPost(qp: RdmaSocQp, off: nat, txSize: nat, ghost ring: seq<Buffer>, ghost l: Lane, ghost direct: bool)
    returns (n: nat)
    requires l.Inv() && l.n == |ring| && Injective(ring)
    requires TxRep(qp, ring, l, off) && StatesRep(ring, l, direct) && LengthsRep(ring, l)
    requires txSize == qp.txQueueIdx - off
    modifies qp`sendTail, qp`freeSendWrNum, qp`nicSend, qp`sent
    modifies qp.sendWr, qp.sendSgl, qp.swRing, ring`state
    ensures n == Min(|l.txQueued|, qp.txEntries - |l.inFlight|)
    ensures TxRep(qp, ring, Next(l, Mount(n)), off + n)
    ensures StatesRep(ring, Next(l, Mount(n)), direct)
  {
    hide Lane.Inv, Holds, Describes, OwnerOf, Circular, FramesOf, SentFrames, Packets, BuffersOf, Arc, Next;
    MountOwners(l, 0, direct);
    var firstWr := qp.sendTail;
    n := MountSends(qp, off, txSize, ring, l.len, l.inFlight, l.txQueued);
    MountOwners(l, n, direct);
    MountFrames(qp.sendSgl[..], firstWr, ring, l.len, l.txQueued[..n], l.sent);
    PostMounted(qp, firstWr, n);
    MountedRep(qp, off, ring, l, n);
  }

  /** Until the poll the card finishes up to `finishes` more of the sends it holds. */
  method TxBurst(qp: RdmaSocQp, off: nat, txSize: nat, finishes: nat,
                 ghost ring: seq<Buffer>, ghost l: Lane, ghost direct: bool)
    returns (n: nat, ghost done: nat)
    requires l.Inv() && l.n == |ring| && Injective(ring)
    requires TxRep(qp, ring, l, off) && StatesRep(ring, l, direct) && LengthsRep(ring, l)
    requires txSize == qp.txQueueIdx - off
    modifies qp`sendHead, qp`sendTail, qp`freeSendWrNum, qp`nicSend, qp`sendDone, qp`sent
    modifies qp.sendWr, qp.sendSgl, qp.swRing, ring`state
    ensures done == Finished(old(qp.sendDone), finishes, |l.inFlight|) <= |l.inFlight| && qp.sendDone == 0
    ensures n == Min(|l.txQueued|, qp.txEntries - |l.inFlight| + done)
    ensures var m := Next(Next(l, SendComplete(done)), Mount(n));
            TxRep(qp, ring, m, off + n) && StatesRep(ring, m, direct)
  {
    hide Lane.Inv, TxRep, StatesRep;
    LetSendsFinish(qp, off, finishes, ring, l);
    done := Reap(qp, off, ring, l, direct);
    StepKeepsInv(l, SendComplete(done));
    n := MountAndPost(qp, off, txSize, ring, Next(l, SendComplete(done)), direct);
  }

  method LetSendsFinish(qp: RdmaSocQp, ghost off: nat, more: nat, ghost ring: seq<Buffer>, ghost l: Lane)
    requires TxRep(qp, ring, l, off)
    modifies qp`sendDone
    ensures TxRep(qp, ring, l, off) && qp.sendDone == Finished(old(qp.sendDone), more, |l.inFlight|) <= |l.inFlight|
  {
    hide Circular, Holds, FramesOf, BuffersOf;
    qp.FinishSends(more);
  }

  // ---------- __tx_flush ----------

  /**
   Sends the whole transmit queue. There is a credit for every queued buffer, so the loop ends
   after one burst whatever the card has finished; an empty queue polls nothing. All sends that
   have finished are taken, so when all had, only the newly mounted ones are in flight.
  */
  method TxFlush(qp: RdmaSocQp, finishes: nat, ghost ring: seq<Buffer>, ghost l: Lane, ghost direct: bool)
    returns (total: nat, ghost done: nat)
    requires l.Inv() && l.n == |ring| <= qp.txEntries && Injective(ring)
    requires TxRep(qp, ring, l, 0) && StatesRep(ring, l, direct) && LengthsRep(ring, l)
    modifies qp`sendHead, qp`sendTail, qp`freeSendWrNum, qp`nicSend, qp`sendDone, qp`sent, qp`txQueueIdx
    modifies qp.sendWr, qp.sendSgl, qp.swRing, ring`state
    ensures total == |l.txQueued| && done <= |l.inFlight|
    ensures done == if total == 0 then 0 else Finished(old(qp.sendDone), finishes, |l.inFlight|)
    ensures qp.sendDone == if total == 0 then old(qp.sendDone) else 0
    ensures total > 0 && done == |l.inFlight| ==> |qp.nicSend| == total
    ensures var m := if total == 0 then l else Flush(l, done);
            TxRep(qp, ring, m, 0) && StatesRep(ring, m, direct)
  {
    hide Lane.Inv, StatesRep, LengthsRep, Circular, SendWindow, FramesOf, BuffersOf;
    QueueLength(qp, ring, l);
    HasCredit(l);
    total, done := 0, 0;
    ghost var m := l;
    while total < qp.txQueueIdx
      invariant total == 0 || total == qp.txQueueIdx
      invariant qp.txQueueIdx == |l.txQueued| && done <= |l.inFlight|
      invariant done == if total == 0 then 0 else Finished(old(qp.sendDone), finishes, |l.inFlight|)
      invariant qp.sendDone == if total == 0 then old(qp.sendDone) else 0
      invariant m == if total == 0 then l else Flush(l, done)
      invariant TxRep(qp, ring, m, total) && StatesRep(ring, m, direct) && LengthsRep(ring, m)
      decreases qp.txQueueIdx - total
    {
      var nbTx;
      nbTx, done := TxBurst(qp, total, qp.txQueueIdx - total, finishes, ring, l, direct);
      m := Next(Next(l, SendComplete(done)), Mount(nbTx));
      LengthsSame(ring, l, m);
      total := total + nbTx;
    }
    SentLength(qp, ring, m, total);
    qp.txQueueIdx := 0;
    assert qp.txQueue[0..0] == BuffersOf(ring, m.txQueued) by {
      NoBuffers(ring, m.txQueued);
    }
  }

  lemma SentLength(qp: RdmaSocQp, ring: seq<Buffer>, l: Lane, off: nat)
    requires TxRep(qp, ring, l, off)
    ensures |qp.nicSend| == |l.inFlight| && qp.sendDone <= |l.inFlight|
  {
  }

  lemma NoBuffers(ring: seq<Buffer>, q: seq<nat>)
    requires q == []
    ensures BuffersOf(ring, q) == []
  {
  }

  lemma QueueLength(qp: RdmaSocQp, ring: seq<Buffer>, l: Lane)
    requires TxRep(qp, ring, l, 0)
    ensures qp.txQueueIdx == |l.txQueued|
  {
  }

  lemma HasCredit(l: Lane)
    requires l.Inv()
    ensures |l.inFlight| + |l.txQueued| <= l.n
  {
    StageTotal(l);
  }

  lemma LengthsSame(ring: seq<Buffer>, l: Lane, m: Lane)
    requires LengthsRep(ring, l) && l.len == m.len
    ensures LengthsRep(ring, m)
  {
  }
}
