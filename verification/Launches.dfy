/**
 One event-loop iteration of the datapath, and any number of them, on lanes.

 The network card is adversarial: a `Choice` fixes what it does during one iteration, namely
 the receive completions it reports (with their lengths) and how many finished sends it
 reports if the send completion queue is polled.
*/
module Launches {
  import opened Common
  import opened Rings
  import opened Lanes

  datatype Params = Params(
    appBatch: nat,    // the worker runs when its queue holds more than this
    txBatch: nat,     // the transmit queue is flushed once it holds this many
    rxBatch: nat,     // receive completions polled at once
    queueSize: nat,   // slots of a worker queue, one of which stays empty
    txRing: nat)      // slots of the send ring and of the transmit queue

  /** The constants of `SoCWrapper`, `RDMA_SoC_QP` and the worker queue. */
  const PRODUCTION := Params(32, 32, 128, 1024, 2048)
  const RING_SIZE: nat := 2048

  /** All that the proofs need of the constants, for a receive ring of `n` slots. */
  predicate Fits(p: Params, n: nat) {
    && 0 < n <= p.txRing
    && 0 < p.txBatch && 0 < p.rxBatch
    && p.appBatch + p.rxBatch < p.queueSize
    && p.appBatch + p.rxBatch + p.txBatch <= p.txRing + 1
  }

  datatype Choice = Choice(lens: seq<nat>, done: nat)

  predicate Allowed(l: Lane, c: Choice, p: Params) {
    && |c.lens| <= p.rxBatch
    && |c.lens| <= |l.outstanding| + |l.free|
    && c.done <= |l.inFlight|
  }

  function Min(a: nat, b: nat): nat { if a <= b then a else b }

  /** Post every free buffer, then take the completions the card reports. */
  function Receive(l: Lane, c: Choice, p: Params): Lane
    requires Allowed(l, c, p)
  {
    Next(Next(l, Post), Complete(c.lens))
  }

  /** Take the finished sends the card reports, then hand over the whole transmit queue. */
  function Flush(l: Lane, done: nat): Lane
    requires done <= |l.inFlight|
  {
    var m := Next(l, SendComplete(done));
    Next(m, Mount(|m.txQueued|))
  }

  function Work(l: Lane, p: Params): Lane {
    if |l.workerRx| > p.appBatch then Next(l, Handle) else l
  }

  function CollectAll(l: Lane, p: Params): Lane {
    var room := if |l.txQueued| <= p.txRing then p.txRing - |l.txQueued| else 0;
    Next(l, Collect(Min(|l.workerTx|, room)))
  }

  /** Dispatch, the worker, collection. */
  function ThroughWorker(l: Lane, p: Params): Lane {
    CollectAll(Work(Next(l, Dispatch), p), p)
  }

  /** One iteration of the lane from the prior component to the next. */
  function LaunchRx(l: Lane, c: Choice, p: Params): Lane
    requires Allowed(l, c, p)
  {
    var m := ThroughWorker(Receive(l, c, p), p);
    if |m.txQueued| >= p.txBatch then Flush(m, c.done) else m
  }

  /** Whether the iteration flushes. */
  predicate FlushesRx(l: Lane, c: Choice, p: Params)
    requires Allowed(l, c, p)
  {
    |ThroughWorker(Receive(l, c, p), p).txQueued| >= p.txBatch
  }

  /** One iteration of the lane from the next component to the prior. */
  function LaunchTx(l: Lane, c: Choice, p: Params): Lane
    requires Allowed(l, c, p) && l.workerTx == l.workerRx == [] && |l.txQueued| <= p.txRing
  {
    var m := Receive(l, c, p);
    var d := Next(m, Direct(Min(|m.awaiting|, p.txRing - |m.txQueued|)));
    if |d.txQueued| > 0 then Flush(d, c.done) else d
  }

  /** Between iterations: a bounded backlog on the worker's lane ... */
  predicate AtRestRx(l: Lane, p: Params) {
    && |l.workerRx| <= p.appBatch
    && l.workerTx == [] && l.awaiting == []
    && |l.txQueued| < p.txBatch
  }

  /** ... and none on the direct lane. */
  predicate AtRestTx(l: Lane) {
    l.workerRx == l.workerTx == l.awaiting == l.txQueued == []
  }

  /** The state `Channel_SoC` sets up: every receive posted, every buffer with the card. */
  function InitialLane(n: nat): Lane
    requires 0 < n
  {
    Lane(n, 0, [], [], [], [], [], Arc(0, n, n), [], seq(n, _ => 0), [], [])
  }

  lemma InitialLaneInv(n: nat)
    requires 0 < n
    ensures InitialLane(n).Inv() && AtRestTx(InitialLane(n))
  {
    var l := InitialLane(n);
    assert l.All() == Arc(0, n, n);
    assert Packets(l.Pending(), l.len) == [];
  }

  // ---------- one iteration ----------

  lemma StageTotal(l: Lane)
    requires l.Inv()
    ensures |l.Pending()| + |l.inFlight| + |l.outstanding| + |l.free| == l.n
  {
    StageAt(l);
  }

  lemma ReceiveKeeps(l: Lane, c: Choice, p: Params)
    requires l.Inv() && Allowed(l, c, p)
    ensures Receive(l, c, p).Inv()
    ensures Receive(l, c, p).free == [] && Receive(l, c, p).n == l.n
    ensures Receive(l, c, p).awaiting == l.awaiting + (l.outstanding + l.free)[..|c.lens|]
  {
    StepKeepsInv(l, Post);
    StepKeepsInv(Next(l, Post), Complete(c.lens));
  }

  /** A flush always has a send slot for every queued buffer, even if no send has finished. */
  lemma FlushHasCredit(l: Lane, done: nat, p: Params)
    requires l.Inv() && Fits(p, l.n) && done <= |l.inFlight|
    ensures |l.txQueued| <= p.txRing - |l.inFlight|
    ensures Flush(l, done).Inv()
    ensures Flush(l, done).txQueued == []
  {
    StageTotal(l);
    var m := Next(l, SendComplete(done));
    StepKeepsInv(l, SendComplete(done));
    StepKeepsInv(m, Mount(|m.txQueued|));
  }

  /** The worker never meets a full queue, and collection never leaves a buffer behind. */
  lemma NoDrop(l: Lane, c: Choice, p: Params)
    requires l.Inv() && AtRestRx(l, p) && Allowed(l, c, p) && Fits(p, l.n)
    ensures var m := Receive(l, c, p);
            |m.workerRx| + |m.awaiting| < p.queueSize
    ensures var d := Next(Receive(l, c, p), Dispatch);
            && |d.workerTx| + |d.workerRx| < p.queueSize
            && |Work(d, p).workerRx| <= p.appBatch
            && CollectAll(Work(d, p), p).workerTx == []
  {
  }

  lemma ThroughWorkerKeeps(r: Lane, p: Params)
    requires r.Inv() && Fits(p, r.n)
    requires r.workerTx == [] && |r.workerRx| + |r.awaiting| <= p.appBatch + p.rxBatch && |r.txQueued| < p.txBatch
    ensures var m := ThroughWorker(r, p);
            && m.Inv() && m.n == r.n && m.inFlight == r.inFlight
            && |m.workerRx| <= p.appBatch && m.workerTx == [] && m.awaiting == []
            && |m.txQueued| <= p.txRing
  {
    hide Lane.Inv;
    StepKeepsInv(r, Dispatch);
    var d := Next(r, Dispatch);
    StepKeepsInv(d, Handle);
    var w := Work(d, p);
    StepKeepsInv(w, Collect(|w.workerTx|));
  }

  lemma LaunchRxKeeps(l: Lane, c: Choice, p: Params)
    requires l.Inv() && AtRestRx(l, p) && Allowed(l, c, p) && Fits(p, l.n)
    ensures LaunchRx(l, c, p).Inv()
    ensures AtRestRx(LaunchRx(l, c, p), p)
    ensures LaunchRx(l, c, p).n == l.n
  {
    ReceiveKeeps(l, c, p);
    ThroughWorkerKeeps(Receive(l, c, p), p);
    var m := ThroughWorker(Receive(l, c, p), p);
    if |m.txQueued| >= p.txBatch {
      FlushHasCredit(m, c.done, p);
      FlushFrame(m, c.done);
    }
  }

  lemma FlushFrame(m: Lane, done: nat)
    requires done <= |m.inFlight|
    ensures var f := Flush(m, done);
            f.n == m.n && f.workerRx == m.workerRx && f.workerTx == m.workerTx && f.awaiting == m.awaiting
  {
  }

  lemma LaunchTxKeeps(l: Lane, c: Choice, p: Params)
    requires l.Inv() && AtRestTx(l) && Allowed(l, c, p) && Fits(p, l.n)
    ensures LaunchTx(l, c, p).Inv()
    ensures AtRestTx(LaunchTx(l, c, p))
    ensures LaunchTx(l, c, p).n == l.n
  {
    ReceiveKeeps(l, c, p);
    var m := Receive(l, c, p);
    StageTotal(m);
    assert |m.awaiting| <= p.txRing;
    StepKeepsInv(m, Direct(|m.awaiting|));
    var d := Next(m, Direct(|m.awaiting|));
    if |d.txQueued| > 0 {
      FlushHasCredit(d, c.done, p);
    }
  }

  // ---------- any number of iterations ----------

  /** The lane after iterations in which the card made the choices `cs`; none if one was not allowed. */
  datatype Outcome = Reached(lane: Lane) | Disallowed

  function RunRx(l: Lane, cs: seq<Choice>, p: Params): Outcome
    decreases |cs|
  {
    if cs == [] then Reached(l)
    else if !Allowed(l, cs[0], p) then Disallowed
    else RunRx(LaunchRx(l, cs[0], p), cs[1..], p)
  }

  function RunTx(l: Lane, cs: seq<Choice>, p: Params): Outcome
    decreases |cs|
  {
    if cs == [] then Reached(l)
    else if !Allowed(l, cs[0], p) || !AtRestTx(l) then Disallowed
    else RunTx(LaunchTx(l, cs[0], p), cs[1..], p)
  }

  /** A run followed by one more iteration. */
  lemma {:induction false} RunRxAppend(l: Lane, cs: seq<Choice>, c: Choice, p: Params)
    requires RunRx(l, cs, p).Reached? && Allowed(RunRx(l, cs, p).lane, c, p)
    ensures RunRx(l, cs + [c], p) == Reached(LaunchRx(RunRx(l, cs, p).lane, c, p))
    decreases |cs|
  {
    if cs == [] {
    } else {
      RunRxAppend(LaunchRx(l, cs[0], p), cs[1..], c, p);
      assert (cs + [c])[1..] == cs[1..] + [c];
    }
  }

  lemma {:induction false} RunTxAppend(l: Lane, cs: seq<Choice>, c: Choice, p: Params)
    requires RunTx(l, cs, p).Reached? && Allowed(RunTx(l, cs, p).lane, c, p) && AtRestTx(RunTx(l, cs, p).lane)
    ensures RunTx(l, cs + [c], p) == Reached(LaunchTx(RunTx(l, cs, p).lane, c, p))
    decreases |cs|
  {
    if cs == [] {
    } else {
      RunTxAppend(LaunchTx(l, cs[0], p), cs[1..], c, p);
      assert (cs + [c])[1..] == cs[1..] + [c];
    }
  }

  lemma {:induction false} RunRxKeeps(l: Lane, cs: seq<Choice>, p: Params)
    requires l.Inv() && AtRestRx(l, p) && Fits(p, l.n)
    ensures RunRx(l, cs, p).Reached? ==>
              var m := RunRx(l, cs, p).lane;
              m.Inv() && AtRestRx(m, p) && m.n == l.n
    decreases |cs|
  {
    if cs == [] {
    } else if Allowed(l, cs[0], p) {
      LaunchRxKeeps(l, cs[0], p);
      RunRxKeeps(LaunchRx(l, cs[0], p), cs[1..], p);
    }
  }

  lemma {:induction false} RunTxKeeps(l: Lane, cs: seq<Choice>, p: Params)
    requires l.Inv() && AtRestTx(l) && Fits(p, l.n)
    ensures RunTx(l, cs, p).Reached? ==>
              var m := RunTx(l, cs, p).lane;
              m.Inv() && AtRestTx(m) && m.n == l.n
    decreases |cs|
  {
    if cs == [] {
    } else if Allowed(l, cs[0], p) {
      LaunchTxKeeps(l, cs[0], p);
      RunTxKeeps(LaunchTx(l, cs[0], p), cs[1..], p);
    }
  }

  /** The run so far was possible and its next choice is not. */
  ghost predicate RefusedAt(l: Lane, cs: seq<Choice>, i: nat, p: Params) {
    i < |cs| && RunTx(l, cs[..i], p).Reached? && !Allowed(RunTx(l, cs[..i], p).lane, cs[i], p)
  }

  /** A run of the direct lane comes to nothing only through a choice that the card cannot make. */
  lemma {:induction false} DisallowedIff(l: Lane, cs: seq<Choice>, p: Params)
    requires l.Inv() && AtRestTx(l) && Fits(p, l.n)
    ensures RunTx(l, cs, p).Disallowed? <==> exists i: nat :: RefusedAt(l, cs, i, p)
    decreases |cs|
  {
    if cs == [] {
      assert forall i: nat :: !RefusedAt(l, cs, i, p);
    } else if !Allowed(l, cs[0], p) {
      assert cs[..0] == [];
      assert RefusedAt(l, cs, 0, p);
    } else {
      var m := LaunchTx(l, cs[0], p);
      LaunchTxKeeps(l, cs[0], p);
      DisallowedIff(m, cs[1..], p);
      hide RunTx, LaunchTx, Allowed;
      forall i: nat
        ensures RefusedAt(l, cs, i + 1, p) <==> RefusedAt(m, cs[1..], i, p)
      {
        RefusedLater(l, cs, i, p);
      }
      forall i: nat | RefusedAt(l, cs, i, p)
        ensures i > 0 && RefusedAt(m, cs[1..], i - 1, p)
      {
        RefusedNotFirst(l, cs, p);
        assert i > 0;
        RefusedLater(l, cs, i - 1, p);
      }
    }
  }

  lemma RefusedNotFirst(l: Lane, cs: seq<Choice>, p: Params)
    requires cs != [] && Allowed(l, cs[0], p)
    ensures !RefusedAt(l, cs, 0, p)
  {
    assert cs[..0] == [];
  }

  lemma RefusedLater(l: Lane, cs: seq<Choice>, i: nat, p: Params)
    requires cs != [] && Allowed(l, cs[0], p) && AtRestTx(l)
    ensures RefusedAt(l, cs, i + 1, p) <==> RefusedAt(LaunchTx(l, cs[0], p), cs[1..], i, p)
  {
    hide Allowed, LaunchTx;
    if i < |cs| - 1 {
      assert cs[..i + 1][0] == cs[0] && cs[..i + 1][1..] == cs[1..][..i] && cs[i + 1] == cs[1..][i];
    }
  }

  /**
   Lossless and in order: whatever the card does, the packets it was given to send, followed by
   those still held, are exactly the packets it delivered, each with the slot and the length it
   was delivered with; and at most `appBatch + txBatch - 1` are held.
  */
  lemma RunRxLossless(n: nat, cs: seq<Choice>, p: Params)
    requires Fits(p, n) && RunRx(InitialLane(n), cs, p).Reached?
    ensures var m := RunRx(InitialLane(n), cs, p).lane;
            && m.received == m.sent + Packets(m.txQueued + m.workerRx, m.len)
            && |m.txQueued + m.workerRx| < p.appBatch + p.txBatch
  {
    InitialLaneInv(n);
    RunRxKeeps(InitialLane(n), cs, p);
    RestBacklog(RunRx(InitialLane(n), cs, p).lane, p);
  }

  lemma RestBacklog(m: Lane, p: Params)
    requires m.Inv() && AtRestRx(m, p)
    ensures m.received == m.sent + Packets(m.txQueued + m.workerRx, m.len)
    ensures |m.txQueued + m.workerRx| < p.appBatch + p.txBatch
  {
    assert m.Pending() == m.txQueued + m.workerRx;
  }

  /** The direct lane holds nothing back between iterations. */
  lemma RunTxLossless(n: nat, cs: seq<Choice>, p: Params)
    requires Fits(p, n) && RunTx(InitialLane(n), cs, p).Reached?
    ensures var m := RunTx(InitialLane(n), cs, p).lane; m.received == m.sent
  {
    InitialLaneInv(n);
    RunTxKeeps(InitialLane(n), cs, p);
    var m := RunTx(InitialLane(n), cs, p).lane;
    assert m.Pending() == [];
    assert Packets(m.Pending(), m.len) == [];
  }

  // ---------- what the worker does with a batch ----------

  /** Receiving and dispatching hand nothing on. */
  lemma ReceiveHandsNothingOn(l: Lane, c: Choice, p: Params)
    requires l.Inv() && Allowed(l, c, p)
    ensures Next(Receive(l, c, p), Dispatch).Handled() == l.Handled()
  {
    hide Lane.Inv, Lane.Handled;
    StepKeepsInv(l, Post);
    HandledStep(l, Post);
    StepKeepsInv(Next(l, Post), Complete(c.lens));
    HandledStep(Next(l, Post), Complete(c.lens));
    HandledStep(Receive(l, c, p), Dispatch);
  }

  /** Neither do collecting and flushing. */
  lemma SendingHandsNothingOn(l: Lane, done: nat, p: Params)
    requires l.Inv()
    ensures CollectAll(l, p).Handled() == l.Handled()
    ensures done <= |l.inFlight| ==> Flush(CollectAll(l, p), done).Handled() == l.Handled()
  {
    hide Lane.Inv, Lane.Handled;
    var room := if |l.txQueued| <= p.txRing then p.txRing - |l.txQueued| else 0;
    var k := Min(|l.workerTx|, room);
    StepKeepsInv(l, Collect(k));
    HandledStep(l, Collect(k));
    if done <= |l.inFlight| {
      var w := CollectAll(l, p);
      StepKeepsInv(w, SendComplete(done));
      HandledStep(w, SendComplete(done));
      HandledStep(Next(w, SendComplete(done)), Mount(|w.txQueued|));
    }
  }

  /**
   If a batch for the worker is enough for a flush, an iteration that starts with an empty transmit
   queue sends all the worker's messages or none, and leaves the transmit queue empty.
  */
  lemma AllOrNothing(l: Lane, c: Choice, p: Params)
    requires l.Inv() && AtRestRx(l, p) && l.txQueued == [] && Allowed(l, c, p) && Fits(p, l.n)
    requires p.txBatch <= p.appBatch + 1
    ensures var m := LaunchRx(l, c, p);
            var work := l.workerRx + (l.outstanding + l.free)[..|c.lens|];
            && m.txQueued == []
            && m.workerRx == (if |work| > p.appBatch then [] else work)
            && |m.sent| == |l.sent| + (if |work| > p.appBatch then |work| else 0)
  {
    ReceiveKeeps(l, c, p);
    var r := Receive(l, c, p);
    var d := Next(r, Dispatch);
    assert d.workerRx == l.workerRx + (l.outstanding + l.free)[..|c.lens|];
    BatchGoesThrough(d, c.done, p);
  }

  lemma BatchGoesThrough(d: Lane, done: nat, p: Params)
    requires d.workerTx == [] && d.txQueued == [] && |d.workerRx| <= p.appBatch + p.rxBatch && done <= |d.inFlight|
    requires 0 < p.txBatch <= p.appBatch + 1 && p.appBatch + p.rxBatch + p.txBatch <= p.txRing + 1
    ensures var w := CollectAll(Work(d, p), p);
            var m := if |w.txQueued| >= p.txBatch then Flush(w, done) else w;
            && m.txQueued == []
            && m.workerRx == (if |d.workerRx| > p.appBatch then [] else d.workerRx)
            && |m.sent| == |d.sent| + (if |d.workerRx| > p.appBatch then |d.workerRx| else 0)
  {
  }

  /** With the shipped constants the worker waits for 33 messages, and its batch is sent at once. */
  lemma ThirtyThreeGo(l: Lane, c: Choice)
    requires l.Inv() && AtRestRx(l, PRODUCTION) && l.txQueued == [] && l.n == RING_SIZE && Allowed(l, c, PRODUCTION)
    ensures LaunchRx(l, c, PRODUCTION).sent != l.sent <==> |l.workerRx| + |c.lens| >= 33
    ensures |l.workerRx| + |c.lens| >= 33 ==> LaunchRx(l, c, PRODUCTION).received == LaunchRx(l, c, PRODUCTION).sent
  {
    AllOrNothing(l, c, PRODUCTION);
    LaunchRxKeeps(l, c, PRODUCTION);
    var m := LaunchRx(l, c, PRODUCTION);
    RestBacklog(m, PRODUCTION);
    if |l.workerRx| + |c.lens| < 33 {
      SentOnlyByFlush(l, c, PRODUCTION);
    } else {
      assert m.txQueued + m.workerRx == [];
    }
  }

  lemma SentOnlyByFlush(l: Lane, c: Choice, p: Params)
    requires Allowed(l, c, p) && |LaunchRx(l, c, p).sent| == |l.sent|
    ensures LaunchRx(l, c, p).sent == l.sent
  {
    var w := ThroughWorker(Receive(l, c, p), p);
    assert w.sent == l.sent;
    if |w.txQueued| >= p.txBatch {
      var m := Next(w, SendComplete(c.done));
      assert Flush(w, c.done).sent == l.sent + Packets(m.txQueued[..|m.txQueued|], m.len);
    }
  }

  /** From the initial state on the transmit queue is empty between iterations. */
  lemma {:induction false} RunRxQueuesNothing(l: Lane, cs: seq<Choice>, p: Params)
    requires l.Inv() && AtRestRx(l, p) && l.txQueued == [] && Fits(p, l.n) && p.txBatch <= p.appBatch + 1
    ensures RunRx(l, cs, p).Reached? ==>
              RunRx(l, cs, p).lane.txQueued == [] && |RunRx(l, cs, p).lane.workerRx| <= p.appBatch
    decreases |cs|
  {
    if cs == [] {
    } else if Allowed(l, cs[0], p) {
      LaunchRxKeeps(l, cs[0], p);
      AllOrNothing(l, cs[0], p);
      RunRxQueuesNothing(LaunchRx(l, cs[0], p), cs[1..], p);
    }
  }

  // ---------- ownership ----------

  /** Every buffer of the ring is in exactly one stage, once. */
  lemma ExclusiveOwnership(l: Lane, s: nat)
    requires l.Inv() && s < l.n
    ensures multiset(l.inFlight)[s] + multiset(l.txQueued)[s] + multiset(l.workerTx)[s] + multiset(l.workerRx)[s]
          + multiset(l.awaiting)[s] + multiset(l.outstanding)[s] + multiset(l.free)[s] == 1
  {
    ArcCovers(l.base, l.n, s);
    AllDistinct(l);
    DistinctOnce(l.All(), Wrap(s + l.n - l.base, l.n));
  }

  // ---------- progress ----------

  ghost predicate Stalled(l: Lane, p: Params) {
    forall c :: Allowed(l, c, p) ==> LaunchRx(l, c, p) == l
  }

  /**
   The code polls for finished sends only while it sends. An iteration can change the lane in
   some way exactly when a receive is posted or can be posted.
  */
  lemma StalledIff(l: Lane, p: Params)
    requires l.Inv() && AtRestRx(l, p) && Fits(p, l.n)
    ensures Stalled(l, p) <==> l.outstanding == [] && l.free == []
  {
    if l.outstanding == [] && l.free == [] {
      forall c | Allowed(l, c, p)
        ensures LaunchRx(l, c, p) == l
      {
        StalledStep(l, c, p);
      }
    } else {
      var c := Choice([0], 0);
      assert Allowed(l, c, p);
      assert |LaunchRx(l, c, p).received| == |l.received| + 1;
    }
  }

  lemma StalledStep(l: Lane, c: Choice, p: Params)
    requires AtRestRx(l, p) && l.outstanding == [] && l.free == [] && Allowed(l, c, p)
    ensures LaunchRx(l, c, p) == l
  {
    assert c.lens == [];
    var r := Receive(l, c, p);
    assert r.len == l.len && r.received == l.received;
    assert r == l;
    assert Next(r, Dispatch) == l;
    assert CollectAll(l, p) == l;
  }

  ghost predicate StalledTx(l: Lane, p: Params)
    requires AtRestTx(l)
  {
    forall c :: Allowed(l, c, p) ==> LaunchTx(l, c, p) == l
  }

  /** The direct lane stalls on the same condition. */
  lemma StalledTxIff(l: Lane, p: Params)
    requires l.Inv() && AtRestTx(l) && Fits(p, l.n)
    ensures StalledTx(l, p) <==> l.outstanding == [] && l.free == []
  {
    if l.outstanding == [] && l.free == [] {
      forall c | Allowed(l, c, p)
        ensures LaunchTx(l, c, p) == l
      {
        assert c.lens == [];
        var r := Receive(l, c, p);
        assert r.len == l.len && r.received == l.received;
        assert r == l;
        assert Next(l, Direct(0)) == l;
      }
    } else {
      var c := Choice([0], 0);
      assert Allowed(l, c, p);
      assert |LaunchTx(l, c, p).received| == |l.received| + 1;
    }
  }

  /** A stalled lane never leaves its state again, whatever the card does. */
  lemma {:induction false} StalledForever(l: Lane, cs: seq<Choice>, p: Params)
    requires Stalled(l, p) && RunRx(l, cs, p).Reached?
    ensures RunRx(l, cs, p) == Reached(l)
    decreases |cs|
  {
    if cs == [] {
    } else {
      StalledForever(l, cs[1..], p);
    }
  }

  /** Nor does a stalled direct lane. */
  lemma {:induction false} StalledTxForever(l: Lane, cs: seq<Choice>, p: Params)
    requires AtRestTx(l) && StalledTx(l, p) && RunTx(l, cs, p).Reached?
    ensures RunTx(l, cs, p) == Reached(l)
    decreases |cs|
  {
    if cs == [] {
    } else {
      StalledTxForever(l, cs[1..], p);
    }
  }

  /** Full batches arrive while no send is ever reported finished. */
  function Starvation(k: nat, p: Params): seq<Choice> {
    if k == 0 then [] else [Choice(seq(p.rxBatch, _ => 0), 0)] + Starvation(k - 1, p)
  }

  lemma StarveStep(l: Lane, p: Params)
    requires Fits(p, l.n) && p.appBatch < p.rxBatch && p.txBatch <= p.rxBatch
    requires AtRestTx(l) && l.free == [] && p.rxBatch <= |l.outstanding|
    ensures var c := Choice(seq(p.rxBatch, _ => 0), 0);
            && Allowed(l, c, p)
            && var m := LaunchRx(l, c, p);
               m.n == l.n && AtRestTx(m) && m.free == [] && m.outstanding == l.outstanding[p.rxBatch..]
  {
    var c := Choice(seq(p.rxBatch, _ => 0), 0);
    var r := Receive(l, c, p);
    assert r.awaiting == l.outstanding[..p.rxBatch];
    var d := Next(r, Dispatch);
    assert |d.workerRx| == p.rxBatch;
    var m := CollectAll(Work(d, p), p);
    assert |m.txQueued| == p.rxBatch;
    assert Flush(m, 0).txQueued == [];
  }

  lemma OneBatch(k: nat, batch: nat)
    requires k > 0
    ensures k * batch == batch + (k - 1) * batch >= batch
  {
  }

  lemma {:induction false} Starves(l: Lane, k: nat, p: Params)
    requires Fits(p, l.n) && p.appBatch < p.rxBatch && p.txBatch <= p.rxBatch
    requires AtRestTx(l) && l.free == [] && |l.outstanding| == k * p.rxBatch
    ensures RunRx(l, Starvation(k, p), p).Reached?
    ensures var m := RunRx(l, Starvation(k, p), p).lane; m.outstanding == [] && m.free == []
    decreases k
  {
    hide Fits, LaunchRx, AtRestTx, Allowed;
    if k == 0 {
    } else {
      OneBatch(k, p.rxBatch);
      StarveStep(l, p);
      var c := Choice(seq(p.rxBatch, _ => 0), 0);
      Starves(LaunchRx(l, c, p), k - 1, p);
      assert Starvation(k, p)[0] == c && Starvation(k, p)[1..] == Starvation(k - 1, p);
    }
  }

  /**
   With the shipped constants, sixteen full batches during which no send is reported finished
   stall the worker's lane for good.
  */
  lemma StallIsReachable()
    ensures Fits(PRODUCTION, RING_SIZE)
    ensures RunRx(InitialLane(RING_SIZE), Starvation(16, PRODUCTION), PRODUCTION).Reached?
    ensures Stalled(RunRx(InitialLane(RING_SIZE), Starvation(16, PRODUCTION), PRODUCTION).lane, PRODUCTION)
  {
    InitialLaneInv(RING_SIZE);
    Starves(InitialLane(RING_SIZE), 16, PRODUCTION);
    RunRxKeeps(InitialLane(RING_SIZE), Starvation(16, PRODUCTION), PRODUCTION);
    StalledIff(RunRx(InitialLane(RING_SIZE), Starvation(16, PRODUCTION), PRODUCTION).lane, PRODUCTION);
  }

  lemma StarveTxStep(l: Lane, p: Params)
    requires Fits(p, l.n) && l.Inv() && AtRestTx(l) && l.free == [] && p.rxBatch <= |l.outstanding|
    ensures var c := Choice(seq(p.rxBatch, _ => 0), 0);
            && Allowed(l, c, p)
            && var m := LaunchTx(l, c, p);
               m.free == [] && m.outstanding == l.outstanding[p.rxBatch..]
  {
    var c := Choice(seq(p.rxBatch, _ => 0), 0);
    ReceiveKeeps(l, c, p);
    StageTotal(l);
    var r := Receive(l, c, p);
    assert r.awaiting == l.outstanding[..p.rxBatch];
    var d := Next(r, Direct(p.rxBatch));
    assert d.txQueued == r.awaiting;
    assert LaunchTx(l, c, p) == Flush(d, 0);
  }

  lemma {:induction false} StarvesTx(l: Lane, k: nat, p: Params)
    requires Fits(p, l.n) && l.Inv() && AtRestTx(l) && l.free == [] && |l.outstanding| == k * p.rxBatch
    ensures RunTx(l, Starvation(k, p), p).Reached?
    ensures var m := RunTx(l, Starvation(k, p), p).lane; m.outstanding == [] && m.free == []
    decreases k
  {
    hide LaunchTx, Allowed, Lane.Inv;
    if k == 0 {
    } else {
      OneBatch(k, p.rxBatch);
      StarveTxStep(l, p);
      var c := Choice(seq(p.rxBatch, _ => 0), 0);
      LaunchTxKeeps(l, c, p);
      StarvesTx(LaunchTx(l, c, p), k - 1, p);
      assert Starvation(k, p)[0] == c && Starvation(k, p)[1..] == Starvation(k - 1, p);
    }
  }

  /** The direct lane stalls after the same sixteen batches. */
  lemma StallTxIsReachable()
    ensures Fits(PRODUCTION, RING_SIZE)
    ensures RunTx(InitialLane(RING_SIZE), Starvation(16, PRODUCTION), PRODUCTION).Reached?
    ensures var m := RunTx(InitialLane(RING_SIZE), Starvation(16, PRODUCTION), PRODUCTION).lane;
            AtRestTx(m) && StalledTx(m, PRODUCTION)
  {
    InitialLaneInv(RING_SIZE);
    StarvesTx(InitialLane(RING_SIZE), 16, PRODUCTION);
    RunTxKeeps(InitialLane(RING_SIZE), Starvation(16, PRODUCTION), PRODUCTION);
    StalledTxIff(RunTx(InitialLane(RING_SIZE), Starvation(16, PRODUCTION), PRODUCTION).lane, PRODUCTION);
  }
}
