/**
 A queue pair: the host-side rings and what the network card holds.

 The card is modelled by six methods. It walks the chains of work requests it is handed,
 finishes them in posting order, and is told from outside how many it finishes when; a poll reports
 all that have finished, up to its limit.
*/
module RdmaQp {
  import opened Rings
  import opened Buffers

  datatype Link = Null | To(slot: nat)
  datatype WorkRequest = WorkRequest(sge: nat, next: Link)
  datatype Sge = Sge(addr: nat, length: nat, lkey: nat)

  /** A message on the wire side: where the card read or wrote it, how long it was, and under which key. */
  datatype Frame = Frame(addr: nat, length: nat, lkey: nat)

  /** Every request of a ring of `n` uses its own entry of the scatter list and links to the next slot. */
  ghost predicate Circular(wrs: seq<WorkRequest>) {
    forall i :: 0 <= i < |wrs| ==> wrs[i] == WorkRequest(i, To(Wrap(i + 1, |wrs|)))
  }

  /** Following `next` from `path[0]` visits `path` and then ends. */
  ghost predicate Chain(wrs: seq<WorkRequest>, path: seq<nat>) {
    && |path| > 0
    && (forall i :: 0 <= i < |path| ==> path[i] < |wrs| && wrs[path[i]].sge == path[i])
    && (forall i :: 0 <= i < |path| - 1 ==> wrs[path[i]].next == To(path[i + 1]))
    && wrs[path[|path| - 1]].next == Null
  }

  /** Cutting a circular chain after `k` requests leaves exactly those `k`, in ring order. */
  lemma CutChain(wrs: seq<WorkRequest>, start: nat, k: nat)
    requires Circular(wrs) && start < |wrs| && 0 < k <= |wrs|
    ensures var last := Wrap(start + k - 1, |wrs|);
            Chain(wrs[last := wrs[last].(next := Null)], Arc(start, k, |wrs|))
  {
    ArcDistinct(start, k, |wrs|);
  }

  function Frames(sgl: seq<Sge>, slots: seq<nat>, lens: seq<nat>): (r: seq<Frame>)
    requires |slots| == |lens|
    ensures |r| == |slots|
  {
    seq(|slots|, i requires 0 <= i < |slots| =>
      if slots[i] < |sgl| then Frame(sgl[slots[i]].addr, lens[i], sgl[slots[i]].lkey) else Frame(0, 0, 0))
  }

  function SentFrames(sgl: seq<Sge>, slots: seq<nat>): (r: seq<Frame>)
    ensures |r| == |slots|
  {
    seq(|slots|, i requires 0 <= i < |slots| =>
      if slots[i] < |sgl| then Frame(sgl[slots[i]].addr, sgl[slots[i]].length, sgl[slots[i]].lkey)
      else Frame(0, 0, 0))
  }

  /** Of `held` requests the card had finished `done` and finishes up to `more` others. */
  function Finished(done: nat, more: nat, held: nat): (r: nat)
    ensures done <= held ==> done <= r <= held
  {
    if done + more <= held then done + more else held
  }

  class RdmaSocQp {
    const rxEntries: nat
    const txEntries: nat

    // send side
    const sendWr: array<WorkRequest>
    const sendSgl: array<Sge>
    var sendHead: nat
    var sendTail: nat
    const swRing: array<Buffer?>
    const txQueue: array<Buffer?>
    var txQueueIdx: nat
    var freeSendWrNum: nat

    // receive side
    const recvWr: array<WorkRequest>
    const recvSgl: array<Sge>
    const recvWc: array<nat>       // byte_len of each polled completion
    const rxRing: array<Buffer?>
    var recvHead: nat
    var ringHead: nat
    var waitForDisp: nat

    // the card
    var nicRecv: seq<nat>    // posted receives, oldest first
    var recvDone: nat        // how many of them have finished
    var nicSend: seq<nat>    // posted sends whose completion is not polled yet
    var sendDone: nat        // how many of them have finished
    var received: seq<Frame>
    var sent: seq<Frame>

    constructor (rxEntries: nat, txEntries: nat)
      ensures this.rxEntries == rxEntries && this.txEntries == txEntries
      ensures sendWr.Length == sendSgl.Length == swRing.Length == txQueue.Length == txEntries
      ensures recvWr.Length == recvSgl.Length == recvWc.Length == rxRing.Length == rxEntries
      ensures sendHead == sendTail == txQueueIdx == recvHead == ringHead == waitForDisp == 0
      ensures freeSendWrNum == txEntries
      ensures nicRecv == nicSend == [] && recvDone == sendDone == 0 && received == sent == []
      ensures Separate() && fresh(Arrays())
    {
      this.rxEntries, this.txEntries := rxEntries, txEntries;
      sendWr := new WorkRequest[txEntries](_ => WorkRequest(0, Null));
      sendSgl := new Sge[txEntries](_ => Sge(0, 0, 0));
      swRing := new Buffer?[txEntries](_ => null);
      txQueue := new Buffer?[txEntries](_ => null);
      recvWr := new WorkRequest[rxEntries](_ => WorkRequest(0, Null));
      recvSgl := new Sge[rxEntries](_ => Sge(0, 0, 0));
      recvWc := new nat[rxEntries](_ => 0);
      rxRing := new Buffer?[rxEntries](_ => null);
      sendHead, sendTail, txQueueIdx, freeSendWrNum := 0, 0, 0, txEntries;
      recvHead, ringHead, waitForDisp := 0, 0, 0;
      nicRecv, nicSend, received, sent := [], [], [], [];
      recvDone, sendDone := 0, 0;
    }

    ghost function Arrays(): set<object> {
      {sendWr as object, sendSgl as object, swRing as object, txQueue as object,
       recvWr as object, recvSgl as object, recvWc as object, rxRing as object}
    }

    /** The members of the C++ object are distinct storage. */
    ghost predicate Separate() {
      && sendWr != recvWr && sendSgl != recvSgl
      && swRing != txQueue && swRing != rxRing && txQueue != rxRing
    }

    /** `ibv_post_recv`: the card takes every request of the chain. */
    method PostRecv(first: nat, ghost path: seq<nat>)
      requires Chain(recvWr[..], path) && path[0] == first
      modifies this`nicRecv
      ensures nicRecv == old(nicRecv) + path
    {
      var wr := To(first);
      ghost var i := 0;
      while wr != Null
        invariant 0 <= i <= |path|
        invariant wr == if i < |path| then To(path[i]) else Null
        invariant nicRecv == old(nicRecv) + path[..i]
        decreases |path| - i
      {
        nicRecv := nicRecv + [wr.slot];
        wr := recvWr[wr.slot].next;
        i := i + 1;
      }
    }

    /** `ibv_post_send`: the card takes every request of the chain and reads its scatter entry. */
    method PostSend(first: nat, ghost path: seq<nat>)
      requires Chain(sendWr[..], path) && path[0] == first && sendSgl.Length == sendWr.Length
      modifies this`nicSend, this`sent
      ensures nicSend == old(nicSend) + path
      ensures sent == old(sent) + SentFrames(sendSgl[..], path)
    {
      var wr := To(first);
      ghost var i := 0;
      while wr != Null
        invariant 0 <= i <= |path|
        invariant wr == if i < |path| then To(path[i]) else Null
        invariant nicSend == old(nicSend) + path[..i]
        invariant sent == old(sent) + SentFrames(sendSgl[..], path[..i])
        decreases |path| - i
      {
        var sge := sendSgl[sendWr[wr.slot].sge];
        nicSend := nicSend + [wr.slot];
        sent := sent + [Frame(sge.addr, sge.length, sge.lkey)];
        wr := sendWr[wr.slot].next;
        i := i + 1;
      }
    }

    /** The card finishes up to `more` of the receives it holds, oldest first. */
    method FinishRecvs(more: nat)
      requires recvDone <= |nicRecv|
      modifies this`recvDone
      ensures recvDone == Finished(old(recvDone), more, |nicRecv|)
    {
      recvDone := Finished(recvDone, more, |nicRecv|);
    }

    /** The card finishes up to `more` of the sends it holds, oldest first. */
    method FinishSends(more: nat)
      requires sendDone <= |nicSend|
      modifies this`sendDone
      ensures sendDone == Finished(old(sendDone), more, |nicSend|)
    {
      sendDone := Finished(sendDone, more, |nicSend|);
    }

    /** `ibv_poll_cq` on the receive queue: the finished receives, up to `max`, of any lengths. */
    method PollRecvCq(max: nat) returns (ret: nat)
      requires recvDone <= |nicRecv| <= recvWc.Length
      modifies this`nicRecv, this`recvDone, this`received, recvWc
      ensures ret == if max <= old(recvDone) then max else old(recvDone)
      ensures nicRecv == old(nicRecv)[ret..] && recvDone == old(recvDone) - ret
      ensures received == old(received) + Frames(recvSgl[..], old(nicRecv)[..ret], recvWc[..ret])
    {
      ret := if max <= recvDone then max else recvDone;
      for i := 0 to ret
        modifies recvWc
      {
        recvWc[i] := *;
      }
      received := received + Frames(recvSgl[..], nicRecv[..ret], recvWc[..ret]);
      nicRecv, recvDone := nicRecv[ret..], recvDone - ret;
    }

    /** `ibv_poll_cq` on the send queue: the finished sends, up to `max`. */
    method PollSendCq(max: nat) returns (ret: nat)
      requires sendDone <= |nicSend|
      modifies this`nicSend, this`sendDone
      ensures ret == if max <= old(sendDone) then max else old(sendDone)
      ensures nicSend == old(nicSend)[ret..] && sendDone == old(sendDone) - ret
    {
      ret := if max <= sendDone then max else sendDone;
      nicSend, sendDone := nicSend[ret..], sendDone - ret;
    }
  }
}
