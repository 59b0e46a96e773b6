/**
 One direction of the SoC datapath, seen as the stages a receive buffer passes through.

 A lane joins the receive half of one queue pair with the send half of the other. Its receive
 ring has `n` slots, and every slot is at each moment in exactly one stage. `received` and
 `sent` are what the network card saw: completed receives and posted sends.
*/
module Lanes {
  import opened Rings

  datatype Packet = Packet(slot: nat, length: nat)

  datatype Lane = Lane(
    n: nat,
    base: nat,               // ring slot of the oldest buffer not yet free again
    inFlight: seq<nat>,      // mounted in the send ring, completion not yet polled
    txQueued: seq<nat>,      // in the transmit queue
    workerTx: seq<nat>,      // in the worker's outgoing queue
    workerRx: seq<nat>,      // in the worker's incoming queue
    awaiting: seq<nat>,      // received, awaiting dispatch
    outstanding: seq<nat>,   // posted to the card for receiving
    free: seq<nat>,          // free, not yet posted again
    len: seq<nat>,           // length recorded in each slot's buffer
    received: seq<Packet>,
    sent: seq<Packet>
  ) {
    /** The stages, oldest buffer first. */
    function All(): seq<nat> {
      inFlight + txQueued + workerTx + workerRx + awaiting + outstanding + free
    }

    /** Received and not yet handed to the card for sending. */
    function Pending(): seq<nat> {
      txQueued + workerTx + workerRx + awaiting
    }

    /** What the worker has handed on: sent, or waiting to be sent. */
    function Handled(): seq<Packet> {
      sent + Packets(txQueued + workerTx, len)
    }

    /** Ring slot at which the free run starts. */
    function RecvHead(): nat
      requires |free| <= n
    {
      Wrap(base + (n - |free|), n)
    }

    /** Ring slot of the oldest receive that awaits dispatch. */
    function RingHead(): nat {
      Wrap(base + |inFlight| + |txQueued| + |workerTx| + |workerRx|, n)
    }

    /** The stages in order are the ring in order, and the packets are conserved in order. */
    ghost predicate Inv() {
      && base < n
      && |len| == n
      && All() == Arc(base, n, n)
      && received == sent + Packets(Pending(), len)
    }
  }

  function LengthAt(len: seq<nat>, s: nat): nat {
    if s < |len| then len[s] else 0
  }

  function Packets(slots: seq<nat>, len: seq<nat>): (r: seq<Packet>)
    ensures |r| == |slots|
  {
    seq(|slots|, i requires 0 <= i < |slots| => Packet(slots[i], LengthAt(len, slots[i])))
  }

  /** `len` after the card reported `lens[i]` for slot `slots[i]`, in order. */
  function SetLengths(len: seq<nat>, slots: seq<nat>, lens: seq<nat>): (r: seq<nat>)
    requires |lens| <= |slots|
    ensures |r| == |len|
    decreases |lens|
  {
    if lens == [] then len
    else
      var k := |lens| - 1;
      var r' := SetLengths(len, slots, lens[..k]);
      if slots[k] < |r'| then r'[slots[k] := lens[k]] else r'
  }

  // ---------- the moves ----------

  datatype Step =
    | Post
    | Complete(lens: seq<nat>)
    | Dispatch
    | Handle
    | Collect(count: nat)
    | Direct(count: nat)
    | SendComplete(count: nat)
    | Mount(count: nat)

  predicate Enabled(l: Lane, s: Step) {
    match s
    case Post => true
    case Complete(lens) => |lens| <= |l.outstanding|
    case Dispatch => true
    case Handle => true
    case Collect(k) => k <= |l.workerTx|
    case Direct(k) => k <= |l.awaiting| && l.workerTx == l.workerRx == []
    case SendComplete(k) => k <= |l.inFlight|
    case Mount(k) => k <= |l.txQueued|
  }

  function Next(l: Lane, s: Step): Lane
    requires Enabled(l, s)
  {
    match s
    case Post => l.(outstanding := l.outstanding + l.free, free := [])
    case Complete(lens) =>
      var k := |lens|;
      l.(awaiting := l.awaiting + l.outstanding[..k],
         outstanding := l.outstanding[k..],
         len := SetLengths(l.len, l.outstanding, lens),
         received := l.received + seq(k, i requires 0 <= i < k => Packet(l.outstanding[i], lens[i])))
    case Dispatch => l.(workerRx := l.workerRx + l.awaiting, awaiting := [])
    case Handle => l.(workerTx := l.workerTx + l.workerRx, workerRx := [])
    case Collect(k) => l.(txQueued := l.txQueued + l.workerTx[..k], workerTx := l.workerTx[k..])
    case Direct(k) => l.(txQueued := l.txQueued + l.awaiting[..k], awaiting := l.awaiting[k..])
    case SendComplete(k) =>
      l.(free := l.free + l.inFlight[..k], inFlight := l.inFlight[k..], base := Wrap(l.base + k, l.n))
    case Mount(k) =>
      l.(inFlight := l.inFlight + l.txQueued[..k],
         txQueued := l.txQueued[k..],
         sent := l.sent + Packets(l.txQueued[..k], l.len))
  }

  // ---------- what one move keeps ----------

  lemma InFlightAt(l: Lane)
    requires l.Inv()
    ensures |l.inFlight| <= l.n && l.inFlight == Arc(l.base, |l.inFlight|, l.n)
  {
    var after := l.txQueued + l.workerTx + l.workerRx + l.awaiting + l.outstanding + l.free;
    assert [] + l.inFlight + after == l.All();
    ArcPart([], l.inFlight, after, l.base, l.n);
  }

  lemma AwaitingAt(l: Lane)
    requires l.Inv()
    ensures |l.awaiting| <= l.n && l.RingHead() < l.n
    ensures l.awaiting == Arc(l.RingHead(), |l.awaiting|, l.n)
  {
    var before := l.inFlight + l.txQueued + l.workerTx + l.workerRx;
    assert before + l.awaiting + (l.outstanding + l.free) == l.All();
    ArcPart(before, l.awaiting, l.outstanding + l.free, l.base, l.n);
  }

  lemma OutstandingAt(l: Lane)
    requires l.Inv()
    ensures |l.awaiting| + |l.outstanding| <= l.n && l.RingHead() < l.n
    ensures l.outstanding == Arc(Wrap(l.RingHead() + |l.awaiting|, l.n), |l.outstanding|, l.n)
  {
    var before := l.inFlight + l.txQueued + l.workerTx + l.workerRx + l.awaiting;
    assert before + l.outstanding + l.free == l.All();
    ArcPart(before, l.outstanding, l.free, l.base, l.n);
  }

  lemma FreeAt(l: Lane)
    requires l.Inv()
    ensures |l.free| <= l.n && l.RecvHead() < l.n
    ensures l.free == Arc(l.RecvHead(), |l.free|, l.n)
    ensures Wrap(l.RecvHead() + |l.free|, l.n) == l.base
  {
    var before := l.inFlight + l.txQueued + l.workerTx + l.workerRx + l.awaiting + l.outstanding;
    assert before + l.free + [] == l.All();
    ArcPart(before, l.free, [], l.base, l.n);
  }

  /** Where each stage sits in the ring. */
  lemma StageAt(l: Lane)
    requires l.Inv()
    ensures |l.inFlight| + |l.txQueued| + |l.workerTx| + |l.workerRx| + |l.awaiting| + |l.outstanding| + |l.free| == l.n
    ensures l.inFlight == Arc(l.base, |l.inFlight|, l.n)
    ensures l.awaiting == Arc(l.RingHead(), |l.awaiting|, l.n)
    ensures l.outstanding == Arc(Wrap(l.RingHead() + |l.awaiting|, l.n), |l.outstanding|, l.n)
    ensures l.free == Arc(l.RecvHead(), |l.free|, l.n)
  {
    assert |l.All()| == l.n;
    InFlightAt(l);
    AwaitingAt(l);
    OutstandingAt(l);
    FreeAt(l);
  }

  lemma {:induction false} SetLengthsOther(len: seq<nat>, slots: seq<nat>, lens: seq<nat>, s: nat)
    requires |lens| <= |slots|
    requires s < |len| && forall i :: 0 <= i < |lens| ==> slots[i] != s
    ensures SetLengths(len, slots, lens)[s] == len[s]
    decreases |lens|
  {
    if lens == [] {
    } else {
      SetLengthsOther(len, slots, lens[..|lens| - 1], s);
    }
  }

  lemma {:induction false} SetLengthsHit(len: seq<nat>, slots: seq<nat>, lens: seq<nat>, i: nat)
    requires |lens| <= |slots| && i < |lens|
    requires forall j :: 0 <= j < |slots| ==> slots[j] < |len|
    requires forall j, k :: 0 <= j < k < |slots| ==> slots[j] != slots[k]
    ensures SetLengths(len, slots, lens)[slots[i]] == lens[i]
    decreases |lens|
  {
    var k := |lens| - 1;
    if i == k {
    } else {
      SetLengthsHit(len, slots, lens[..k], i);
    }
  }

  lemma PacketsConcat(a: seq<nat>, b: seq<nat>, len: seq<nat>)
    ensures Packets(a + b, len) == Packets(a, len) + Packets(b, len)
  {
  }

  /** A slot is in at most one stage, and in it once. */
  lemma AllDistinct(l: Lane)
    requires l.Inv()
    ensures forall i, j :: 0 <= i < j < |l.All()| ==> l.All()[i] != l.All()[j]
  {
    ArcDistinct(l.base, l.n, l.n);
  }

  /** The buffer after the free run is not free, unless the whole ring is. */
  lemma ScanStops(l: Lane)
    requires l.Inv()
    ensures Wrap(l.RecvHead() + |l.free|, l.n) == l.base
    ensures |l.free| < l.n ==> l.base !in l.free
    ensures |l.free| == l.n ==> l.free[0] == l.base
  {
    StageAt(l);
    AllDistinct(l);
    assert l.All()[0] == l.base;
    assert forall j :: 0 <= j < |l.free| ==> l.free[j] == l.All()[l.n - |l.free| + j];
  }

  /** A slot in one stage is in no other. */
  lemma StagesDisjoint(l: Lane)
    requires l.Inv()
    ensures forall s :: s in l.free ==> s !in l.inFlight && s !in l.Pending() && s !in l.outstanding
    ensures forall s :: s in l.outstanding ==> s !in l.inFlight && s !in l.Pending()
    ensures forall s :: s in l.awaiting ==> s !in l.inFlight && s !in l.txQueued && s !in l.workerTx && s !in l.workerRx
    ensures forall s :: s in l.inFlight ==> s !in l.Pending()
    ensures forall s: nat :: s in l.All() <==> s < l.n
  {
    AllDistinct(l);
    var a := l.All();
    forall s: nat | s < l.n ensures s in a { ArcCovers(l.base, l.n, s); }
    var p := l.inFlight;
    var q := p + l.txQueued + l.workerTx + l.workerRx;
    var r := q + l.awaiting;
    var t := r + l.outstanding;
    assert p + l.Pending() == r;
    assert a == r + l.outstanding + l.free == t + l.free;
    assert q <= a && r <= a && t <= a && p <= a;
    SplitDisjoint(p, l.Pending(), l.outstanding + l.free, a);
    SplitDisjoint(q, l.awaiting, l.outstanding + l.free, a);
    SplitDisjoint(r, l.outstanding, l.free, a);
    SplitDisjoint(t, l.free, [], a);
  }

  lemma SplitDisjoint(x: seq<nat>, y: seq<nat>, z: seq<nat>, all: seq<nat>)
    requires x + y + z == all
    requires forall i, j :: 0 <= i < j < |all| ==> all[i] != all[j]
    ensures forall s :: s in y ==> s !in x && s !in z
  {
    forall s | s in y
      ensures s !in x && s !in z
    {
      var i :| 0 <= i < |y| && y[i] == s;
      assert all[|x| + i] == s;
      assert forall j :: 0 <= j < |x| ==> x[j] == all[j];
      assert forall j :: 0 <= j < |z| ==> z[j] == all[|x| + |y| + j];
    }
  }

  /** Completing receives does not disturb the length of any buffer still on its way out. */
  lemma CompleteKeepsPending(l: Lane, lens: seq<nat>)
    requires l.Inv() && Enabled(l, Complete(lens))
    ensures Packets(l.Pending(), SetLengths(l.len, l.outstanding, lens)) == Packets(l.Pending(), l.len)
  {
    AllDistinct(l);
    var len' := SetLengths(l.len, l.outstanding, lens);
    var p := l.Pending();
    var off := |l.inFlight| + |p|;
    forall i | 0 <= i < |p|
      ensures Packets(p, len')[i] == Packets(p, l.len)[i]
    {
      assert p[i] == l.All()[|l.inFlight| + i];
      forall j | 0 <= j < |lens|
        ensures l.outstanding[j] != p[i]
      {
        assert l.outstanding[j] == l.All()[off + j];
      }
      SetLengthsOther(l.len, l.outstanding, lens, p[i]);
    }
  }

  lemma CompleteRecords(l: Lane, lens: seq<nat>)
    requires l.Inv() && Enabled(l, Complete(lens))
    ensures Packets(l.outstanding[..|lens|], SetLengths(l.len, l.outstanding, lens))
         == seq(|lens|, i requires 0 <= i < |lens| => Packet(l.outstanding[i], lens[i]))
  {
    StageAt(l);
    ArcDistinct(Wrap(l.RingHead() + |l.awaiting|, l.n), |l.outstanding|, l.n);
    RecordsOf(l.len, l.outstanding, lens);
  }

  lemma RecordsOf(len: seq<nat>, slots: seq<nat>, lens: seq<nat>)
    requires |lens| <= |slots|
    requires forall j :: 0 <= j < |slots| ==> slots[j] < |len|
    requires forall j, k :: 0 <= j < k < |slots| ==> slots[j] != slots[k]
    ensures Packets(slots[..|lens|], SetLengths(len, slots, lens))
         == seq(|lens|, i requires 0 <= i < |lens| => Packet(slots[i], lens[i]))
  {
    forall i | 0 <= i < |lens| ensures SetLengths(len, slots, lens)[slots[i]] == lens[i] {
      SetLengthsHit(len, slots, lens, i);
    }
  }

  lemma CompleteKeepsInv(l: Lane, lens: seq<nat>)
    requires l.Inv() && Enabled(l, Complete(lens))
    ensures Next(l, Complete(lens)).Inv()
  {
    var m := Next(l, Complete(lens));
    var k := |lens|;
    assert l.outstanding == l.outstanding[..k] + l.outstanding[k..];
    assert m.All() == l.All();
    CompleteKeepsPending(l, lens);
    CompleteRecords(l, lens);
    assert m.Pending() == l.Pending() + l.outstanding[..k];
    PacketsConcat(l.Pending(), l.outstanding[..k], m.len);
  }

  lemma SendCompleteKeepsInv(l: Lane, k: nat)
    requires l.Inv() && Enabled(l, SendComplete(k))
    ensures Next(l, SendComplete(k)).Inv()
  {
    hide Packets, Arc;
    var m := Next(l, SendComplete(k));
    var middle := l.txQueued + l.workerTx + l.workerRx + l.awaiting + l.outstanding;
    assert l.All() == l.inFlight + middle + l.free;
    assert m.All() == l.inFlight[k..] + middle + (l.free + l.inFlight[..k]);
    FrontToBack(l.inFlight, middle, l.free, k);
    ArcRotate(l.inFlight[..k], l.inFlight[k..] + middle + l.free, l.base, l.n);
  }

  lemma FrontToBack(a: seq<nat>, b: seq<nat>, c: seq<nat>, k: nat)
    requires k <= |a|
    ensures a + b + c == a[..k] + (a[k..] + b + c)
    ensures a[k..] + b + (c + a[..k]) == (a[k..] + b + c) + a[..k]
  {
    assert a == a[..k] + a[k..];
  }

  lemma MountKeepsInv(l: Lane, k: nat)
    requires l.Inv() && Enabled(l, Mount(k))
    ensures Next(l, Mount(k)).Inv()
  {
    hide Packets, Arc;
    var m := Next(l, Mount(k));
    var q := l.txQueued[..k];
    assert l.txQueued == q + l.txQueued[k..];
    assert m.All() == l.All();
    assert l.Pending() == q + m.Pending();
    PacketsConcat(q, m.Pending(), l.len);
  }

  lemma CollectKeepsInv(l: Lane, k: nat)
    requires l.Inv() && k <= |l.workerTx|
    ensures Next(l, Collect(k)).Inv()
  {
    hide Packets, Arc;
    var m := Next(l, Collect(k));
    CollectSame(l.inFlight, l.txQueued, l.workerTx, l.workerRx, l.awaiting, l.outstanding, l.free, k);
    assert m.All() == l.All() && m.Pending() == l.Pending();
  }

  lemma CollectSame(a: seq<nat>, q: seq<nat>, x: seq<nat>, y: seq<nat>, w: seq<nat>, o: seq<nat>, f: seq<nat>, k: nat)
    requires k <= |x|
    ensures a + (q + x[..k]) + x[k..] + y + w + o + f == a + q + x + y + w + o + f
    ensures q + x[..k] + x[k..] + y + w == q + x + y + w
  {
    assert q + x[..k] + x[k..] == q + x;
    assert a + (q + x[..k]) + x[k..] == a + q + x;
  }

  lemma DirectKeepsInv(l: Lane, k: nat)
    requires l.Inv() && Enabled(l, Direct(k))
    ensures Next(l, Direct(k)).Inv()
  {
    hide Packets, Arc;
    var m := Next(l, Direct(k));
    DirectSame(l.inFlight, l.txQueued, l.awaiting, l.outstanding, l.free, k);
    assert m.All() == l.All() && m.Pending() == l.Pending();
  }

  lemma DirectSame(a: seq<nat>, q: seq<nat>, w: seq<nat>, o: seq<nat>, f: seq<nat>, k: nat)
    requires k <= |w|
    ensures a + (q + w[..k]) + [] + [] + w[k..] + o + f == a + q + [] + [] + w + o + f
    ensures q + w[..k] + [] + [] + w[k..] == q + [] + [] + w
  {
    assert w == w[..k] + w[k..];
    assert a + (q + w[..k]) + [] + [] + w[k..] == a + q + [] + [] + w;
  }

  lemma PostKeepsInv(l: Lane)
    requires l.Inv()
    ensures Next(l, Post).Inv()
  {
    assert Next(l, Post).All() == l.All();
  }

  lemma DispatchKeepsInv(l: Lane)
    requires l.Inv()
    ensures Next(l, Dispatch).Inv()
  {
    assert Next(l, Dispatch).All() == l.All();
    assert Next(l, Dispatch).Pending() == l.Pending();
  }

  lemma HandleKeepsInv(l: Lane)
    requires l.Inv()
    ensures Next(l, Handle).Inv()
  {
    assert Next(l, Handle).All() == l.All();
    assert Next(l, Handle).Pending() == l.Pending();
  }

  /** Every move keeps the stages a rotation of the ring and keeps the packets in order. */
  lemma StepKeepsInv(l: Lane, s: Step)
    requires l.Inv() && Enabled(l, s)
    ensures Next(l, s).Inv()
    ensures Next(l, s).n == l.n
  {
    match s
    case Post => PostKeepsInv(l);
    case Complete(lens) => CompleteKeepsInv(l, lens);
    case Dispatch => DispatchKeepsInv(l);
    case Handle => HandleKeepsInv(l);
    case Collect(k) => CollectKeepsInv(l, k);
    case Direct(k) => DirectKeepsInv(l, k);
    case SendComplete(k) => SendCompleteKeepsInv(l, k);
    case Mount(k) => MountKeepsInv(l, k);
  }

  // ---------- what the worker has handed on ----------

  lemma PacketsPrefix(a: seq<nat>, b: seq<nat>, len: seq<nat>, len': seq<nat>)
    requires Packets(a + b, len) == Packets(a + b, len')
    ensures Packets(a, len) == Packets(a, len')
  {
    forall i | 0 <= i < |a|
      ensures Packets(a, len)[i] == Packets(a, len')[i]
    {
      assert Packets(a + b, len)[i] == Packets(a + b, len')[i];
    }
  }

  /** Only handling hands on messages: those in the worker's receive queue, in order. */
  lemma HandledStep(l: Lane, s: Step)
    requires l.Inv() && Enabled(l, s) && !s.Direct?
    ensures Next(l, s).Handled() == l.Handled() + if s.Handle? then Packets(l.workerRx, l.len) else []
  {
    hide Packets, SetLengths, Arc;
    var m := Next(l, s);
    match s
    case Complete(lens) =>
      CompleteKeepsPending(l, lens);
      var done := l.txQueued + l.workerTx;
      assert l.Pending() == done + (l.workerRx + l.awaiting);
      PacketsPrefix(done, l.workerRx + l.awaiting, l.len, m.len);
    case Handle =>
      assert m.txQueued + m.workerTx == (l.txQueued + l.workerTx) + l.workerRx;
      PacketsConcat(l.txQueued + l.workerTx, l.workerRx, l.len);
    case Collect(k) =>
      assert l.workerTx == l.workerTx[..k] + l.workerTx[k..];
      assert m.txQueued + m.workerTx == l.txQueued + l.workerTx;
    case Mount(k) =>
      assert l.txQueued == l.txQueued[..k] + l.txQueued[k..];
      assert l.txQueued + l.workerTx == l.txQueued[..k] + (m.txQueued + m.workerTx);
      PacketsConcat(l.txQueued[..k], m.txQueued + m.workerTx, l.len);
    case _ =>
  }
}
