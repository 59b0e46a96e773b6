/**
 The steps of the SoC event loop on real queue pairs, each proved to make exactly the moves of
 the lane it works on.
*/
module SocDatapath {
  import opened Rings
  import opened Buffers
  import opened ShmQueue
  import opened RdmaQp
  import opened Lanes
  import opened Launches

  // ---------- how the fields of a queue pair represent a lane ----------

  ghost predicate Injective(ring: seq<Buffer>) {
    forall i, j :: 0 <= i < j < |ring| ==> ring[i] != ring[j]
  }

  ghost predicate RxSized(qp: RdmaSocQp, n: nat) {
    && qp.Separate()
    && 0 < n == qp.rxEntries == qp.rxRing.Length == qp.recvWr.Length == qp.recvSgl.Length == qp.recvWc.Length
  }

  /** What `Channel_SoC` sets up once and nothing changes afterwards. */
  ghost predicate RxShape(qp: RdmaSocQp, ring: seq<Buffer>)
    requires RxSized(qp, |ring|)
    reads qp.rxRing, qp.recvSgl, ring`next
  {
    && Injective(ring)
    && (forall i :: 0 <= i < |ring| ==> qp.rxRing[i] == ring[i])
    && (forall i :: 0 <= i < |ring| ==> ring[i].next == ring[Wrap(i + 1, |ring|)])
    && (forall i :: 0 <= i < |ring| ==> qp.recvSgl[i] == Sge(ring[i].buf, ring[i].classSize, ring[i].lkey))
  }

  /** The frames the card saw for a lane's packets. */
  function FramesOf(ring: seq<Buffer>, ps: seq<Packet>): (r: seq<Frame>)
    ensures |r| == |ps|
  {
    seq(|ps|, i requires 0 <= i < |ps| =>
      if ps[i].slot < |ring| then Frame(ring[ps[i].slot].buf, ps[i].length, ring[ps[i].slot].lkey)
      else Frame(0, 0, 0))
  }

  ghost predicate RxRep(qp: RdmaSocQp, ring: seq<Buffer>, l: Lane)
    reads qp`recvHead, qp`ringHead, qp`waitForDisp, qp`nicRecv, qp`recvDone, qp`received
    reads qp.rxRing, qp.recvWr, qp.recvSgl, ring`next
  {
    && RxSized(qp, |ring|) && RxShape(qp, ring) && Circular(qp.recvWr[..])
    && l.n == |ring| && |l.free| <= l.n
    && qp.recvHead == l.RecvHead()
    && qp.ringHead == l.RingHead()
    && qp.waitForDisp == |l.awaiting|
    && qp.nicRecv == l.outstanding && qp.recvDone <= |qp.nicRecv|
    && qp.received == FramesOf(ring, l.received)
  }

  function OwnerOf(l: Lane, s: nat, direct: bool): BufState {
    if s in l.free then Free
    else if !direct && (s in l.txQueued || s in l.workerTx || s in l.workerRx) then AppOwned
    else Posted
  }

  ghost predicate StatesRep(ring: seq<Buffer>, l: Lane, direct: bool)
    reads ring`state
  {
    forall s :: 0 <= s < |ring| ==> ring[s].state == OwnerOf(l, s, direct)
  }

  ghost predicate LengthsRep(ring: seq<Buffer>, l: Lane)
    reads ring`length
  {
    |l.len| == |ring| && forall s :: 0 <= s < |ring| ==> ring[s].length == l.len[s]
  }

  // ---------- __post_recvs ----------

  method PostRecvs(qp: RdmaSocQp, numRecvs: nat)
    requires qp.recvWr.Length == qp.rxEntries && Circular(qp.recvWr[..])
    requires qp.recvHead < qp.rxEntries && 0 < numRecvs <= qp.rxEntries
    modifies qp`recvHead, qp`nicRecv, qp.recvWr
    ensures qp.nicRecv == old(qp.nicRecv) + Arc(old(qp.recvHead), numRecvs, qp.rxEntries)
    ensures qp.recvHead == Wrap(old(qp.recvHead) + numRecvs, qp.rxEntries)
    ensures qp.recvWr[..] == old(qp.recvWr[..])
  {
    var firstWr := qp.recvHead;
    var lastWr := firstWr + (numRecvs - 1);
    if lastWr >= qp.rxEntries { lastWr := lastWr - qp.rxEntries; }
    var temp := qp.recvWr[lastWr].next;
    CutChain(qp.recvWr[..], firstWr, numRecvs);
    qp.recvWr[lastWr] := qp.recvWr[lastWr].(next := Null);
    qp.PostRecv(firstWr, Arc(firstWr, numRecvs, qp.rxEntries));
    qp.recvWr[lastWr] := qp.recvWr[lastWr].(next := temp);
    qp.recvHead := lastWr;
    ModIsWrap(lastWr + 1, qp.rxEntries);
    qp.recvHead := (qp.recvHead + 1) % qp.rxEntries;
  }

  // ---------- __rx_burst ----------

  /** The slots from `head` that hold free buffers are exactly `free`, and the slot after them is in use. */
  ghost predicate FreeArc(head: nat, free: seq<nat>, n: nat) {
    && head < n && |free| <= n && free == Arc(head, |free|, n)
    && (|free| < n ==> Wrap(head + |free|, n) !in free)
  }

  lemma FreeArcAt(head: nat, free: seq<nat>, n: nat, i: nat)
    requires FreeArc(head, free, n) && i <= |free|
    ensures i < |free| ==> free[i] == Wrap(head + i, n) && free[i] !in free[..i] && free[i] in free
    ensures i < |free| ==> free[..i + 1] == free[..i] + [free[i]]
    ensures i == |free| ==> free[..i] == free && (Wrap(head + i, n) in free <==> i == n)
  {
    ArcDistinct(head, |free|, n);
    if i == |free| == n {
      assert free[0] == head;
    }
  }

  /** Marks the free run as posted; the scan ends by itself, even when the whole ring was free. */
  method ScanFrom(entry: Buffer, ghost head: nat, ghost ring: seq<Buffer>, ghost free: seq<nat>) returns (numRecvs: nat)
    requires head < |ring| && entry == ring[head] && Injective(ring)
    requires forall i :: 0 <= i < |ring| ==> ring[i].next == ring[Wrap(i + 1, |ring|)]
    requires FreeArc(head, free, |ring|)
    requires forall s :: 0 <= s < |ring| ==> (ring[s].state == Free <==> s in free)
    modifies ring`state
    ensures numRecvs == |free|
    ensures forall s :: 0 <= s < |ring| ==> ring[s].state == if s in free then Posted else old(ring[s].state)
  {
    ghost var n := |ring|;
    var ringEntry := entry;
    numRecvs := 0;
    while ringEntry.state == Free
      invariant 0 <= numRecvs <= |free|
      invariant ringEntry == ring[Wrap(head + numRecvs, n)]
      invariant forall s :: 0 <= s < n ==> ring[s].state == if s in free[..numRecvs] then Posted else old(ring[s].state)
      decreases |free| - numRecvs
    {
      FreeArcAt(head, free, n, numRecvs);
      ghost var h := Wrap(head + numRecvs, n);
      assert ringEntry == ring[h];
      numRecvs := numRecvs + 1;
      ringEntry.state := Posted;
      ringEntry := ringEntry.next;
      assert ringEntry == ring[Wrap(h + 1, n)];
      assert forall s :: 0 <= s < n && s != h ==> ring[s] != ring[h];
    }
    FreeArcAt(head, free, n, numRecvs);
  }

  method ScanFree(qp: RdmaSocQp, ghost ring: seq<Buffer>, ghost free: seq<nat>) returns (numRecvs: nat)
    requires RxSized(qp, |ring|) && RxShape(qp, ring) && FreeArc(qp.recvHead, free, |ring|)
    requires forall s :: 0 <= s < |ring| ==> (ring[s].state == Free <==> s in free)
    modifies ring`state
    ensures numRecvs == |free|
    ensures forall s :: 0 <= s < |ring| ==> ring[s].state == if s in free then Posted else old(ring[s].state)
  {
    numRecvs := ScanFrom(qp.rxRing[qp.recvHead], qp.recvHead, ring, free);
  }

  lemma LaneFreeArc(l: Lane)
    requires l.Inv()
    ensures FreeArc(l.RecvHead(), l.free, l.n)
    ensures forall s :: s in l.free ==> s !in l.Pending()
  {
    StageAt(l);
    ScanStops(l);
    StagesDisjoint(l);
  }

  lemma PostHeads(l: Lane)
    requires l.Inv()
    ensures l.RecvHead() < l.n && |l.free| <= l.n
    ensures var m := Next(l, Post);
            && m.RecvHead() == Wrap(l.RecvHead() + |l.free|, l.n) && m.RingHead() == l.RingHead()
            && m.outstanding == l.outstanding + Arc(l.RecvHead(), |l.free|, l.n)
  {
    FreeAt(l);
  }

  /** Posts every free buffer again. */
  method PostFree(qp: RdmaSocQp, ghost ring: seq<Buffer>, ghost l: Lane, ghost direct: bool)
    requires l.Inv() && RxRep(qp, ring, l) && StatesRep(ring, l, direct)
    modifies qp`recvHead, qp`nicRecv, qp.recvWr, ring`state
    ensures RxRep(qp, ring, Next(l, Post)) && StatesRep(ring, Next(l, Post), direct)
  {
    hide Lane.Inv, RxShape;
    LaneFreeArc(l);
    PostHeads(l);
    var numRecvs := ScanFree(qp, ring, l.free);
    if numRecvs > 0 {
      PostRecvs(qp, numRecvs);
    }
  }

  lemma FramesOfConcat(ring: seq<Buffer>, a: seq<Packet>, b: seq<Packet>)
    ensures FramesOf(ring, a + b) == FramesOf(ring, a) + FramesOf(ring, b)
  {
  }

  /** The card's record of a batch of completions is the lane's. */
  lemma CompletionFrames(qp: RdmaSocQp, ring: seq<Buffer>, l: Lane, lens: seq<nat>)
    requires l.Inv() && Enabled(l, Complete(lens)) && l.n == |ring|
    requires RxSized(qp, |ring|) && RxShape(qp, ring)
    ensures FramesOf(ring, Next(l, Complete(lens)).received)
         == FramesOf(ring, l.received) + Frames(qp.recvSgl[..], l.outstanding[..|lens|], lens)
  {
    var sgl := qp.recvSgl[..];
    OutstandingAt(l);
    var k := |lens|;
    var batch := seq(k, i requires 0 <= i < k => Packet(l.outstanding[i], lens[i]));
    FramesOfConcat(ring, l.received, batch);
    assert FramesOf(ring, batch) == Frames(sgl, l.outstanding[..k], lens);
  }

  lemma CompletionSlots(l: Lane)
    requires l.Inv()
    ensures |l.awaiting| + |l.outstanding| <= l.n && l.RingHead() < l.n
    ensures forall i :: 0 <= i < |l.outstanding| ==>
      (l.RingHead() + |l.awaiting| + i) % l.n == l.outstanding[i]
  {
    OutstandingAt(l);
    forall i | 0 <= i < |l.outstanding|
      ensures (l.RingHead() + |l.awaiting| + i) % l.n == l.outstanding[i]
    {
      ModIsWrap(l.RingHead() + |l.awaiting| + i, l.n);
    }
  }

  lemma SetNoLengths(len: seq<nat>, slots: seq<nat>)
    ensures SetLengths(len, slots, []) == len
  {
  }

  lemma SetOneLength(len: seq<nat>, slots: seq<nat>, lens: seq<nat>, i: nat)
    requires i < |lens| <= |slots| && forall j :: 0 <= j < |slots| ==> slots[j] < |len|
    ensures SetLengths(len, slots, lens[..i + 1]) == SetLengths(len, slots, lens[..i])[slots[i] := lens[i]]
  {
    assert lens[..i + 1][..i] == lens[..i];
  }

  method RecordLengths(qp: RdmaSocQp, ret: nat, ghost ring: seq<Buffer>, ghost slots: seq<nat>, ghost len: seq<nat>)
    requires RxSized(qp, |ring|) && RxShape(qp, ring) && |len| == |ring|
    requires ret <= |slots| && ret <= qp.recvWc.Length
    requires forall i :: 0 <= i < |slots| ==> (qp.ringHead + qp.waitForDisp + i) % qp.rxEntries == slots[i]
    requires forall s :: 0 <= s < |ring| ==> ring[s].length == len[s]
    modifies ring`length
    ensures forall s :: 0 <= s < |ring| ==> ring[s].length == SetLengths(len, slots, qp.recvWc[..ret])[s]
  {
    hide SetLengths;
    ghost var lens := qp.recvWc[..ret];
    SetNoLengths(len, slots);
    for i := 0 to ret
      invariant forall s :: 0 <= s < |ring| ==> ring[s].length == SetLengths(len, slots, lens[..i])[s]
    {
      SetOneLength(len, slots, lens, i);
      var at := (qp.ringHead + qp.waitForDisp + i) % qp.rxEntries;
      assert at == slots[i];
      qp.rxRing[at].length := qp.recvWc[i];
    }
    assert lens[..ret] == lens;
  }

  /**
   Posts the free run, then takes the receives that have finished, as many as a batch allows. Until
   the poll the card finishes up to `arrivals` more of those it holds.
  */
  method RxBurst(qp: RdmaSocQp, rxBatch: nat, arrivals: nat, ghost ring: seq<Buffer>, ghost l: Lane, ghost direct: bool)
    returns (ret: nat, ghost lens: seq<nat>)
    requires l.Inv() && RxRep(qp, ring, l) && StatesRep(ring, l, direct) && LengthsRep(ring, l)
    modifies qp`recvHead, qp`waitForDisp, qp`nicRecv, qp`recvDone, qp`received
    modifies qp.recvWr, qp.recvWc, ring`state, ring`length
    ensures |lens| <= rxBatch && |lens| <= |l.outstanding| + |l.free|
    ensures var finished := Finished(old(qp.recvDone), arrivals, |l.outstanding| + |l.free|);
            ret == |lens| == Min(rxBatch, finished) && qp.recvDone == finished - ret
    ensures var m := Next(Next(l, Post), Complete(lens));
            RxRep(qp, ring, m) && StatesRep(ring, m, direct) && LengthsRep(ring, m)
  {
    hide Lane.Inv, RxShape, Circular, OwnerOf, FramesOf;
    PostFree(qp, ring, l, direct);
    ghost var p := Next(l, Post);
    StepKeepsInv(l, Post);
    qp.FinishRecvs(arrivals);
    ret, lens := TakeCompletions(qp, rxBatch, ring, p, direct);
  }

  /** Every finished receive is taken, up to the limit of the poll. */
  method TakeCompletions(qp: RdmaSocQp, rxBatch: nat, ghost ring: seq<Buffer>, ghost l: Lane, ghost direct: bool)
    returns (ret: nat, ghost lens: seq<nat>)
    requires l.Inv() && RxRep(qp, ring, l) && StatesRep(ring, l, direct) && LengthsRep(ring, l)
    modifies qp`waitForDisp, qp`nicRecv, qp`recvDone, qp`received, qp.recvWc, ring`length
    ensures ret == |lens| == Min(rxBatch, old(qp.recvDone)) && |lens| <= |l.outstanding|
    ensures qp.recvDone == old(qp.recvDone) - ret
    ensures var m := Next(l, Complete(lens));
            RxRep(qp, ring, m) && StatesRep(ring, m, direct) && LengthsRep(ring, m)
  {
    hide Lane.Inv, RxShape, Circular, SetLengths, OwnerOf, FramesOf, Frames;
    CompletionSlots(l);
    ret := qp.PollRecvCq(rxBatch);
    lens := qp.recvWc[..ret];
    CompletionFrames(qp, ring, l, lens);
    RecordLengths(qp, ret, ring, l.outstanding, l.len);
    qp.waitForDisp := qp.waitForDisp + ret;
    CompleteOwners(l, lens, direct);
  }

  lemma CompleteOwners(l: Lane, lens: seq<nat>, direct: bool)
    requires l.Inv() && Enabled(l, Complete(lens))
    ensures forall s: nat :: OwnerOf(Next(l, Complete(lens)), s, direct) == OwnerOf(l, s, direct)
  {
  }

  // ---------- __dispatch_rx_pkts ----------

  function BuffersOf(ring: seq<Buffer>, slots: seq<nat>): (r: seq<Buffer?>)
    ensures |r| == |slots|
  {
    seq(|slots|, i requires 0 <= i < |slots| => if slots[i] < |ring| then ring[slots[i]] else null)
  }

  lemma BuffersOfConcat(ring: seq<Buffer>, a: seq<nat>, b: seq<nat>)
    ensures BuffersOf(ring, a + b) == BuffersOf(ring, a) + BuffersOf(ring, b)
  {
  }

  lemma BuffersOfTake(ring: seq<Buffer>, q: seq<nat>, n: nat)
    requires n <= |q|
    ensures BuffersOf(ring, q)[..n] == BuffersOf(ring, q[..n])
  {
  }

  lemma BuffersOfAt(ring: seq<Buffer>, slots: seq<nat>, i: nat)
    requires i < |slots| && slots[i] < |ring|
    ensures BuffersOf(ring, slots)[i] == ring[slots[i]]
  {
  }

  lemma BuffersOfSnoc(ring: seq<Buffer>, slots: seq<nat>, i: nat)
    requires i < |slots| && slots[i] < |ring|
    ensures BuffersOf(ring, slots[..i + 1]) == BuffersOf(ring, slots[..i]) + [ring[slots[i]]]
  {
  }

  ghost function StatesOf(ring: seq<Buffer>): (r: seq<BufState>)
    reads ring
    ensures |r| == |ring|
  {
    seq(|ring|, s requires 0 <= s < |ring| reads ring => ring[s].state)
  }

  /** The states once the first `i` of the slots were offered and the first `total` of them queued. */
  function Offered(was: seq<BufState>, slots: seq<nat>, total: nat, i: nat): (r: seq<BufState>)
    requires total <= i <= |slots|
    ensures |r| == |was|
  {
    seq(|was|, s requires 0 <= s < |was| =>
      if s in slots[..total] then AppOwned else if s in slots[..i] then Free else was[s])
  }

  lemma StatesAt(ring: seq<Buffer>)
    ensures forall s :: 0 <= s < |ring| ==> StatesOf(ring)[s] == ring[s].state
  {
  }

  lemma OfferedAll(was: seq<BufState>, slots: seq<nat>, total: nat)
    requires total <= |slots|
    ensures forall s :: 0 <= s < |was| ==>
      Offered(was, slots, total, |slots|)[s] ==
      if s in slots[..total] then AppOwned else if s in slots then Free else was[s]
  {
    assert slots[..|slots|] == slots;
  }

  lemma OfferedNone(was: seq<BufState>, slots: seq<nat>)
    ensures Offered(was, slots, 0, 0) == was
  {
  }

  lemma OfferedNext(was: seq<BufState>, slots: seq<nat>, total: nat, i: nat, ok: bool)
    requires total <= i < |slots| && (ok ==> total == i)
    requires forall j :: 0 <= j < |slots| ==> slots[j] < |was|
    requires forall j, k :: 0 <= j < k < |slots| ==> slots[j] != slots[k]
    ensures Offered(was, slots, total, i)[slots[i] := if ok then AppOwned else Free]
         == Offered(was, slots, if ok then total + 1 else total, i + 1)
  {
    assert slots[..i + 1] == slots[..i] + [slots[i]];
    assert slots[..i] == slots[..total] + slots[total..i];
  }

  /** Offers one buffer to the worker; a full queue frees it instead. */
  method DispatchEntry(queue: ShmLockFreeQueue, entry: Buffer, ghost ring: seq<Buffer>, ghost at: nat)
    returns (ok: bool)
    requires queue.Valid() && Injective(ring) && at < |ring| && entry == ring[at]
    modifies queue`tail, queue.queue, entry`state
    ensures queue.Valid()
    ensures ok == (|old(queue.Contents())| < queue.size - 1)
    ensures queue.Contents() == if ok then old(queue.Contents()) + [entry] else old(queue.Contents())
    ensures StatesOf(ring) == old(StatesOf(ring))[at := if ok then AppOwned else Free]
  {
    ok := queue.Enqueue(entry);
    if !ok {
      entry.state := Free;
      return;
    }
    entry.state := AppOwned;
  }

  /** Slots of the ring, each once, whose buffers are linked in this order. */
  ghost predicate Linked(ring: seq<Buffer>, slots: seq<nat>)
    reads ring`next
  {
    && (forall i :: 0 <= i < |slots| ==> slots[i] < |ring|)
    && (forall i, j :: 0 <= i < j < |slots| ==> slots[i] != slots[j])
    && (forall i :: 0 <= i < |slots| - 1 ==> ring[slots[i]].next == ring[slots[i + 1]])
    && (forall i :: 0 <= i < |slots| ==> ring[slots[i]].next != null)
  }

  lemma ArcLinked(qp: RdmaSocQp, ring: seq<Buffer>, start: nat, k: nat)
    requires RxSized(qp, |ring|) && RxShape(qp, ring) && start < |ring| && k <= |ring|
    ensures Linked(ring, Arc(start, k, |ring|))
    ensures k > 0 ==> Arc(start, k, |ring|)[0] == start
  {
    ArcDistinct(start, k, |ring|);
    var slots := Arc(start, k, |ring|);
    forall i | 0 <= i < k
      ensures ring[slots[i]].next == ring[Wrap(slots[i] + 1, |ring|)]
      ensures i < k - 1 ==> Wrap(slots[i] + 1, |ring|) == slots[i + 1]
    {
    }
  }

  /** Walks `count` linked buffers from `first` and offers each to the worker. */
  method DispatchFrom(first: Buffer, count: nat, queue: ShmLockFreeQueue,
                      ghost ring: seq<Buffer>, ghost slots: seq<nat>)
    returns (total: nat)
    requires Injective(ring) && Linked(ring, slots) && count == |slots|
    requires count > 0 ==> first == ring[slots[0]]
    requires queue.Valid()
    modifies queue`tail, queue.queue, ring`state
    ensures queue.Valid()
    ensures total == Min(|slots|, queue.size - 1 - |old(queue.Contents())|)
    ensures queue.Contents() == old(queue.Contents()) + BuffersOf(ring, slots[..total])
    ensures forall s :: 0 <= s < |ring| ==>
      ring[s].state == if s in slots[..total] then AppOwned else if s in slots then Free else old(ring[s].state)
  {
    if count > 0 {
      NextLinked(ring, slots, 0);
    }
    hide ShmLockFreeQueue.Valid, ShmLockFreeQueue.Contents, BuffersOf, Linked, Injective,
      StatesOf, Offered, Min;
    QueueRoom(queue);
    total := 0;
    StartOfOffers(queue.size - 1 - |queue.Contents()|);
    ghost var room := queue.size - 1 - |queue.Contents()|;
    ghost var queued := queue.Contents();
    ghost var items := BuffersOf(ring, slots);
    ghost var was := StatesOf(ring);
    StatesAt(ring);
    OfferedNone(was, slots);
    var ringEntry: Buffer? := first;
    for i := 0 to count
      invariant queue.Valid() && total <= i && total == Min(i, room)
      invariant i < count ==> ringEntry == ring[slots[i]]
      invariant queue.Contents() == queued + items[..total]
      invariant StatesOf(ring) == Offered(was, slots, total, i)
    {
      NextLinked(ring, slots, i);
      ghost var before := total;
      var ok := DispatchEntry(queue, ringEntry, ring, slots[i]);
      ringEntry := ringEntry.next;
      if ok {
        total := total + 1;
      }
      OfferStep(ring, slots, was, queued, room, before, i, ok);
    }
    BuffersOfTake(ring, slots, total);
    OfferedAll(was, slots, total);
    StatesAt(ring);
  }

  lemma NextLinked(ring: seq<Buffer>, slots: seq<nat>, i: nat)
    requires Linked(ring, slots) && i < |slots|
    ensures slots[i] < |ring| && ring[slots[i]].next != null
    ensures i + 1 < |slots| ==> slots[i + 1] < |ring| && ring[slots[i]].next == ring[slots[i + 1]]
  {
  }

  lemma StartOfOffers(room: nat)
    ensures Min(0, room) == 0
  {
  }

  /** What one offer makes of the queue, of the states and of the count. */
  lemma OfferStep(ring: seq<Buffer>, slots: seq<nat>, was: seq<BufState>, queued: seq<Buffer?>, room: nat,
                  total: nat, i: nat, ok: bool)
    requires Linked(ring, slots) && i < |slots| && |was| == |ring| && total <= i && total == Min(i, room)
    requires ok == (|queued + BuffersOf(ring, slots)[..total]| < |queued| + room)
    ensures var next := if ok then total + 1 else total;
      && next <= i + 1 && next == Min(i + 1, room)
      && Offered(was, slots, total, i)[slots[i] := if ok then AppOwned else Free] == Offered(was, slots, next, i + 1)
      && queued + BuffersOf(ring, slots)[..next] ==
         if ok then queued + BuffersOf(ring, slots)[..total] + [ring[slots[i]]]
         else queued + BuffersOf(ring, slots)[..total]
  {
    hide Offered, BuffersOf;
    BuffersOfAt(ring, slots, i);
    OfferedNext(was, slots, total, i, ok);
    Appended(queued, BuffersOf(ring, slots), i);
  }

  lemma QueueRoom(queue: ShmLockFreeQueue)
    requires queue.Valid()
    ensures |queue.Contents()| < queue.size
  {
  }

  /**
   Hands the waiting buffers to the worker in order. Those that meet a full queue are freed
   where they are.
  */
  method DispatchRxPkts(qp: RdmaSocQp, queue: ShmLockFreeQueue, ghost ring: seq<Buffer>, ghost slots: seq<nat>)
    returns (total: nat)
    requires RxSized(qp, |ring|) && RxShape(qp, ring)
    requires qp.ringHead < |ring| && qp.waitForDisp <= |ring| && slots == Arc(qp.ringHead, qp.waitForDisp, |ring|)
    requires queue.Valid()
    modifies qp`ringHead, qp`waitForDisp, queue`tail, queue.queue, ring`state
    ensures queue.Valid()
    ensures total == Min(|slots|, queue.size - 1 - |old(queue.Contents())|)
    ensures queue.Contents() == old(queue.Contents()) + BuffersOf(ring, slots[..total])
    ensures forall s :: 0 <= s < |ring| ==>
      ring[s].state == if s in slots[..total] then AppOwned else if s in slots then Free else old(ring[s].state)
    ensures qp.ringHead == Wrap(old(qp.ringHead) + |slots|, |ring|) && qp.waitForDisp == 0
  {
    ArcLinked(qp, ring, qp.ringHead, qp.waitForDisp);
    total := DispatchFrom(qp.rxRing[qp.ringHead], qp.waitForDisp, queue, ring, slots);
    ModIsWrap(qp.ringHead + qp.waitForDisp, qp.rxEntries);
    qp.ringHead := (qp.ringHead + qp.waitForDisp) % qp.rxEntries;
    qp.waitForDisp := 0;
  }

  lemma Appended<T>(before: seq<T>, items: seq<T>, i: nat)
    requires i < |items|
    ensures before + items[..i + 1] == before + items[..i] + [items[i]]
  {
  }

  lemma Front<T>(items: seq<T>, i: nat)
    requires i < |items|
    ensures items[i..] != [] && items[i..][0] == items[i] && items[i..][1..] == items[i + 1..]
  {
  }

  // ---------- the worker ----------

  /** What a message looks like to whoever holds its buffer. */
  function FrameOf(b: Buffer): Frame
    reads b`length
  {
    Frame(b.buf, b.length, b.lkey)
  }

  /** The messages a list of buffers holds. */
  ghost function HeldFrames(bs: seq<Buffer?>): (r: seq<Frame>)
    reads bs`length
    ensures |r| == |bs|
  {
    if bs == [] then []
    else
      var last := bs[|bs| - 1];
      HeldFrames(bs[..|bs| - 1]) + [if last == null then Frame(0, 0, 0) else FrameOf(last)]
  }

  /** The user's message handler, if one is registered: any result. It leaves the buffer's bookkeeping alone. */
  class MsgHandler {
    const registered: bool
    var given: seq<Frame>    // record: the messages it was called with
    ghost var ahead: nat     // how many messages were queued for sending when it was last called

    constructor (registered: bool)
      ensures this.registered == registered && given == []
    {
      this.registered := registered;
      given := [];
    }

    method Call(m: Buffer, ghost queued: nat) returns (success: bool)
      modifies this`given, this`ahead
      ensures given == old(given) + [FrameOf(m)] && ahead == queued
    {
      ahead := queued;
      given := given + [FrameOf(m)];
      success := *;
    }
  }

  /** Calls the handler on one message and then forwards it, whatever the handler says of it. */
  method HandleMessage(m: Buffer, handler: MsgHandler, txQueue: ShmLockFreeQueue) returns (ok: bool)
    requires txQueue.Valid()
    modifies txQueue`tail, txQueue.queue, handler`given, handler`ahead
    ensures txQueue.Valid()
    ensures handler.given == old(handler.given) + if handler.registered then [FrameOf(m)] else []
    ensures handler.registered ==> handler.ahead == |old(txQueue.Contents())|
    ensures ok == (|old(txQueue.Contents())| < txQueue.size - 1)
    ensures txQueue.Contents() == if ok then old(txQueue.Contents()) + [m] else old(txQueue.Contents())
  {
    if handler.registered {
      var ret := handler.Call(m, |txQueue.Contents()|);
      if ret {
        ok := txQueue.Enqueue(m);
      } else {
        ok := txQueue.Enqueue(m);
      }
    } else {
      ok := txQueue.Enqueue(m);
    }
  }

  /**
   Once the worker's queue holds more than a batch, the handler is called on every message in it,
   once and in order, and each is forwarded in turn.
  */
  method RunWorker(rxQueue: ShmLockFreeQueue, txQueue: ShmLockFreeQueue, appBatch: nat, handler: MsgHandler)
    requires rxQueue.Valid() && txQueue.Valid() && rxQueue != txQueue && rxQueue.queue != txQueue.queue
    requires null !in rxQueue.Contents()
    modifies rxQueue`head, txQueue`tail, txQueue.queue, handler`given, handler`ahead
    ensures rxQueue.Valid() && txQueue.Valid()
    ensures handler.given == old(handler.given)
      + if handler.registered && |old(rxQueue.Contents())| > appBatch then old(HeldFrames(rxQueue.Contents())) else []
    ensures var work := old(rxQueue.Contents());
            if |work| > appBatch then
              && rxQueue.Contents() == []
              && txQueue.Contents() == old(txQueue.Contents())
                   + work[..Min(|work|, txQueue.size - 1 - |old(txQueue.Contents())|)]
            else rxQueue.Contents() == work && txQueue.Contents() == old(txQueue.Contents())
  {
    hide ShmLockFreeQueue.Valid, ShmLockFreeQueue.Contents, HeldFrames, FrameOf;
    QueueRoom(txQueue);
    ghost var work, queued, given := rxQueue.Contents(), txQueue.Contents(), handler.given;
    ghost var room, frames := txQueue.size - 1 - |queued|, HeldFrames(work);
    var msgNum := rxQueue.GetSize();
    if msgNum <= appBatch {
      assert given + [] == given;
      return;
    }
    for i := 0 to msgNum
      invariant rxQueue.Valid() && txQueue.Valid()
      invariant rxQueue.Contents() == work[i..]
      invariant handler.given == given + if handler.registered then frames[..i] else []
      invariant frames == HeldFrames(work)
      invariant txQueue.Contents() == queued + work[..Min(i, room)]
    {
      Front(work, i);
      var m := rxQueue.Dequeue();
      assert m == work[i] && m in work;
      HeldFrameAt(work, i);
      var ok := HandleMessage(m, handler, txQueue);
      Appended(queued, work, i);
      Appended(given, frames, i);
    }
    assert frames[..msgNum] == frames;
  }

  lemma {:induction false} HeldFrameAt(bs: seq<Buffer?>, i: nat)
    requires i < |bs|
    ensures HeldFrames(bs)[i] == if bs[i] == null then Frame(0, 0, 0) else FrameOf(bs[i])
    decreases |bs|
  {
    if i == |bs| - 1 {
    } else {
      HeldFrameAt(bs[..|bs| - 1], i);
    }
  }

  // ---------- __collect_tx_pkts ----------

  /** The two assignments that put a buffer behind the others in the transmit queue. */
  method QueueForSending(qp: RdmaSocQp, m: Buffer?)
    requires qp.txQueueIdx < qp.txQueue.Length
    modifies qp`txQueueIdx, qp.txQueue
    ensures qp.txQueueIdx == old(qp.txQueueIdx) + 1
    ensures qp.txQueue[..qp.txQueueIdx] == old(qp.txQueue[..qp.txQueueIdx]) + [m]
  {
    qp.txQueue[qp.txQueueIdx] := m;
    qp.txQueueIdx := qp.txQueueIdx + 1;
  }

  method CollectTxPkts(qp: RdmaSocQp, queue: ShmLockFreeQueue) returns (txSize: nat)
    requires qp.txQueueIdx <= qp.txQueue.Length == qp.txEntries
    requires queue.Valid() && queue.queue != qp.txQueue
    modifies qp`txQueueIdx, qp.txQueue, queue`head
    ensures queue.Valid()
    ensures txSize == Min(|old(queue.Contents())|, qp.txEntries - old(qp.txQueueIdx))
    ensures queue.Contents() == old(queue.Contents())[txSize..]
    ensures qp.txQueueIdx == old(qp.txQueueIdx) + txSize
    ensures qp.txQueue[..qp.txQueueIdx] == old(qp.txQueue[..qp.txQueueIdx]) + old(queue.Contents())[..txSize]
  {
    hide ShmLockFreeQueue.Valid, ShmLockFreeQueue.Contents;
    var remainRingSize := qp.txEntries - qp.txQueueIdx;
    var size := queue.GetSize();
    txSize := if size > remainRingSize then remainRingSize else size;
    ghost var idx, items := qp.txQueueIdx, queue.Contents();
    ghost var before := qp.txQueue[..idx];
    for i := 0 to txSize
      invariant queue.Valid() && queue.Contents() == items[i..]
      invariant qp.txQueueIdx == idx + i
      invariant qp.txQueue[..qp.txQueueIdx] == before + items[..i]
    {
      Front(items, i);
      Appended(before, items, i);
      var m := queue.Dequeue();
      QueueForSending(qp, m);
    }
  }
}
