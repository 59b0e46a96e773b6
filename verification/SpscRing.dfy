/**
 The same queue shared by one producer and one consumer, at the grain of single memory accesses.

 A state records where each thread stands between two accesses. A schedule is any sequence of
 such accesses by the two threads. Every operation is given the moment it takes effect by an
 event in `log`, and the log is a history of a bounded queue that nobody else touches.
*/
module SpscRing {
  import opened Common
  import opened Rings
  import opened Bits
  import opened ShmQueue

  datatype Event<T> = Enqueued(x: T) | Refused(x: T) | Dequeued(x: T) | Empty | Size(k: nat)

  /** A finished operation: the log's length when it began and ended, and its event's place. */
  datatype Op<T> = Op(start: nat, at: nat, end: nat, event: Event<T>)

  datatype Producer<T> =
    | PIdle
    | PCalled(start: nat, x: T)
    | PNext(start: nat, x: T, nextTail: nat)      // read tail_
    | PRoom(start: nat, x: T, nextTail: nat)      // read head_: there is room
    | PWritten(start: nat, x: T, nextTail: nat)   // wrote queue_[tail_]
    | PReturn(start: nat, at: nat, x: T, ok: bool)

  datatype Consumer<T> =
    | CIdle
    | CCalled(start: nat)
    | CHead(start: nat, head: nat)                // read head_
    | CReady(start: nat)                          // read tail_: not empty
    | CTaken(start: nat, v: T)                    // read queue_[head_]
    | CReturn(start: nat, at: nat, r: Option<T>)
    | SCalled(start: nat)
    | STail(start: nat, at: nat, tail: nat)       // get_size: read tail_
    | SReturn(start: nat, at: nat, k: nat)        // get_size: read head_

  datatype State<T> = State(
    slots: seq<T>, head: nat, tail: nat,
    prod: Producer<T>, cons: Consumer<T>,
    log: seq<Event<T>>, prodOps: seq<Op<T>>, consOps: seq<Op<T>>)

  datatype Access<T> =
    | CallEnqueue(x: T) | ReadTail | TestRoom | WriteSlot | PublishTail | ReturnEnqueue
    | CallDequeue | ReadHead | TestEmpty | ReadSlot | PublishHead | ReturnDequeue
    | CallSize | SizeTail | SizeHead | ReturnSize

  predicate Enabled<T(==)>(s: State<T>, a: Access<T>) {
    match a
    case CallEnqueue(_) => s.prod.PIdle?
    case ReadTail => s.prod.PCalled?
    case TestRoom => s.prod.PNext?
    case WriteSlot => s.prod.PRoom? && s.tail < |s.slots|
    case PublishTail => s.prod.PWritten?
    case ReturnEnqueue => s.prod.PReturn?
    case CallDequeue => s.cons.CIdle?
    case ReadHead => s.cons.CCalled?
    case TestEmpty => s.cons.CHead?
    case ReadSlot => s.cons.CReady? && s.head < |s.slots|
    case PublishHead => s.cons.CTaken? && |s.slots| > 0
    case ReturnDequeue => s.cons.CReturn?
    case CallSize => s.cons.CIdle?
    case SizeTail => s.cons.SCalled?
    case SizeHead => s.cons.STail? && |s.slots| > 0 && s.head < WORD && s.cons.tail < WORD
    case ReturnSize => s.cons.SReturn?
  }

  function NextProd<T>(s: State<T>, a: Access<T>): State<T>
    requires Enabled(s, a)
  {
    var log := s.log;
    var p := s.prod;
    match a
    case CallEnqueue(x) => s.(prod := PCalled(|log|, x))
    case ReadTail =>
      if |s.slots| == 0 then s else s.(prod := PNext(p.start, p.x, And(s.tail + 1, |s.slots| - 1)))
    case TestRoom =>
      if p.nextTail == s.head then s.(prod := PReturn(p.start, |log|, p.x, false), log := log + [Refused(p.x)])
      else s.(prod := PRoom(p.start, p.x, p.nextTail))
    case WriteSlot => s.(slots := s.slots[s.tail := p.x], prod := PWritten(p.start, p.x, p.nextTail))
    case PublishTail =>
      s.(tail := p.nextTail, prod := PReturn(p.start, |log|, p.x, true), log := log + [Enqueued(p.x)])
    case ReturnEnqueue =>
      s.(prod := PIdle,
         prodOps := s.prodOps + [Op(p.start, p.at, |log|, if p.ok then Enqueued(p.x) else Refused(p.x))])
    case _ => s
  }

  function NextCons<T>(s: State<T>, a: Access<T>): State<T>
    requires Enabled(s, a)
  {
    var log := s.log;
    var c := s.cons;
    match a
    case CallDequeue => s.(cons := CCalled(|log|))
    case ReadHead => s.(cons := CHead(c.start, s.head))
    case TestEmpty =>
      if c.head == s.tail then s.(cons := CReturn(c.start, |log|, None), log := log + [Empty])
      else s.(cons := CReady(c.start))
    case ReadSlot => s.(cons := CTaken(c.start, s.slots[s.head]))
    case PublishHead =>
      s.(head := And(s.head + 1, |s.slots| - 1),
         cons := CReturn(c.start, |log|, Some(c.v)),
         log := log + [Dequeued(c.v)])
    case ReturnDequeue =>
      s.(cons := CIdle,
         consOps := s.consOps + [Op(c.start, c.at, |log|, if c.r.Some? then Dequeued(c.r.value) else Empty)])
    case CallSize => s.(cons := SCalled(|log|))
    case SizeTail =>
      s.(cons := STail(c.start, |log|, s.tail),
         log := log + [Size(
           if s.head < |s.slots| && s.tail < |s.slots| then Distance(s.head, s.tail, |s.slots|) else 0)])
    case SizeHead => s.(cons := SReturn(c.start, c.at, And(SubWord(c.tail, s.head), |s.slots| - 1)))
    case ReturnSize => s.(cons := CIdle, consOps := s.consOps + [Op(c.start, c.at, |log|, Size(c.k))])
    case _ => s
  }

  predicate ByProducer<T>(a: Access<T>) {
    a.CallEnqueue? || a.ReadTail? || a.TestRoom? || a.WriteSlot? || a.PublishTail? || a.ReturnEnqueue?
  }

  function Next<T>(s: State<T>, a: Access<T>): State<T>
    requires Enabled(s, a)
  {
    if ByProducer(a) then NextProd(s, a) else NextCons(s, a)
  }

  // ---------- the queue nobody else touches ----------

  /** One operation on a queue of at most `cap` elements; none if the operation could not answer that. */
  ghost function Apply<T>(q: seq<T>, e: Event<T>, cap: nat): Option<seq<T>> {
    match e
    case Enqueued(x) => if |q| < cap then Some(q + [x]) else None
    case Refused(_) => if |q| == cap then Some(q) else None
    case Dequeued(x) => if q != [] && q[0] == x then Some(q[1..]) else None
    case Empty => if q == [] then Some(q) else None
    case Size(k) => if k == |q| then Some(q) else None
  }

  /** What a log leaves in a queue that starts empty. */
  ghost function Replay<T>(log: seq<Event<T>>, cap: nat): Option<seq<T>>
    decreases |log|
  {
    if log == [] then Some([])
    else
      var before := Replay(log[..|log| - 1], cap);
      if before.None? then None else Apply(before.value, log[|log| - 1], cap)
  }

  lemma ReplayAppend<T>(log: seq<Event<T>>, e: Event<T>, cap: nat)
    requires Replay(log, cap).Some?
    ensures Replay(log + [e], cap) == Apply(Replay(log, cap).value, e, cap)
  {
    assert (log + [e])[..|log|] == log;
  }

  // ---------- the invariant ----------

  ghost predicate RingInv<T>(s: State<T>) {
    && IsPowerOfTwo(|s.slots|) && |s.slots| <= WORD
    && s.head < |s.slots| && s.tail < |s.slots|
    && Replay(s.log, |s.slots| - 1) == Some(Items(s.slots, s.head, s.tail))
  }

  /** What the producer knows at each point, whatever the consumer does meanwhile. */
  ghost predicate ProdInv<T>(s: State<T>)
    requires RingInv(s)
  {
    var advanced := Wrap(s.tail + 1, |s.slots|);
    match s.prod
    case PIdle => true
    case PCalled(start, _) => start <= |s.log|
    case PNext(start, _, n) => start <= |s.log| && n == advanced
    case PRoom(start, _, n) => start <= |s.log| && n == advanced != s.head
    case PWritten(start, x, n) => start <= |s.log| && n == advanced != s.head && s.slots[s.tail] == x
    case PReturn(start, at, x, ok) =>
      start <= at < |s.log| && s.log[at] == if ok then Enqueued(x) else Refused(x)
  }

  /** What the consumer knows at each point, whatever the producer does meanwhile. */
  ghost predicate ConsInv<T>(s: State<T>)
    requires RingInv(s)
  {
    match s.cons
    case CIdle => true
    case CCalled(start) => start <= |s.log|
    case CHead(start, h) => start <= |s.log| && h == s.head
    case CReady(start) => start <= |s.log| && s.head != s.tail
    case CTaken(start, v) => start <= |s.log| && s.head != s.tail && v == s.slots[s.head]
    case CReturn(start, at, r) =>
      start <= at < |s.log| && s.log[at] == if r.Some? then Dequeued(r.value) else Empty
    case SCalled(start) => start <= |s.log|
    case STail(start, at, t) =>
      && start <= at < |s.log| && t < |s.slots|
      && s.log[at] == Size(Distance(s.head, t, |s.slots|))
    case SReturn(start, at, k) => start <= at < |s.log| && s.log[at] == Size(k)
  }

  /** The finished operations of one thread: one after the other, each with its own event in its own span. */
  ghost predicate OpsInv<T>(ops: seq<Op<T>>, log: seq<Event<T>>, limit: nat) {
    && limit <= |log|
    && (forall i :: 0 <= i < |ops| ==> ops[i].start <= ops[i].at < ops[i].end <= limit)
    && (forall i :: 0 <= i < |ops| ==> ops[i].at < |log| && log[ops[i].at] == ops[i].event)
    && (forall i, j :: 0 <= i < j < |ops| ==> ops[i].end <= ops[j].start)
  }

  function ProdStart<T>(s: State<T>): nat {
    if s.prod.PIdle? then |s.log| else s.prod.start
  }

  function ConsStart<T>(s: State<T>): nat {
    if s.cons.CIdle? then |s.log| else s.cons.start
  }

  /** Operations that have taken effect and not returned yet. */
  function TakenEffect<T>(s: State<T>): nat {
    (if s.prod.PReturn? then 1 else 0) + (if s.cons.CReturn? || s.cons.STail? || s.cons.SReturn? then 1 else 0)
  }

  ghost predicate Recorded<T>(s: State<T>) {
    && OpsInv(s.prodOps, s.log, ProdStart(s)) && OpsInv(s.consOps, s.log, ConsStart(s))
    && (forall i :: 0 <= i < |s.prodOps| ==> s.prodOps[i].event.Enqueued? || s.prodOps[i].event.Refused?)
    && (forall i :: 0 <= i < |s.consOps| ==> !s.consOps[i].event.Enqueued? && !s.consOps[i].event.Refused?)
    && |s.log| == |s.prodOps| + |s.consOps| + TakenEffect(s)
  }

  ghost predicate Inv<T>(s: State<T>) {
    RingInv(s) && ProdInv(s) && ConsInv(s) && Recorded(s)
  }

  function Initial<T>(slots: seq<T>): State<T> {
    State(slots, 0, 0, PIdle, CIdle, [], [], [])
  }

  lemma InitialInv<T>(slots: seq<T>)
    requires IsPowerOfTwo(|slots|) && |slots| <= WORD
    ensures Inv(Initial(slots))
  {
    assert Items(slots, 0, 0) == [];
  }

  // ---------- every access of the producer keeps the invariant ----------

  lemma RefuseKeepsRing<T>(s: State<T>)
    requires RingInv(s) && ProdInv(s) && s.prod.PNext?
    ensures RingInv(Next(s, TestRoom))
  {
    hide Replay, Items, And, IsPowerOfTwo;
    var q := Items(s.slots, s.head, s.tail);
    if s.prod.nextTail == s.head {
      assert |q| == |s.slots| - 1;
      ReplayAppend(s.log, Refused(s.prod.x), |s.slots| - 1);
    }
  }

  lemma WriteKeepsRing<T>(s: State<T>)
    requires RingInv(s) && s.prod.PRoom?
    ensures RingInv(Next(s, WriteSlot))
  {
    ItemsWrite(s.slots, s.head, s.tail, s.prod.x);
  }

  /** The slot at the tail is not part of the contents. */
  lemma ItemsWrite<T>(slots: seq<T>, head: nat, tail: nat, x: T)
    requires head < |slots| && tail < |slots|
    ensures Items(slots[tail := x], head, tail) == Items(slots, head, tail)
  {
  }

  lemma PublishTailKeepsRing<T>(s: State<T>)
    requires RingInv(s) && ProdInv(s) && s.prod.PWritten?
    ensures RingInv(Next(s, PublishTail))
  {
    hide Replay, Items, And, IsPowerOfTwo;
    ReplayAppend(s.log, Enqueued(s.prod.x), |s.slots| - 1);
    ItemsPush(s.slots, s.head, s.tail, s.prod.x);
    assert s.slots[s.tail := s.prod.x] == s.slots;
  }

  lemma ProducerKeepsRing<T>(s: State<T>, a: Access<T>)
    requires RingInv(s) && ProdInv(s) && ByProducer(a) && Enabled(s, a)
    ensures RingInv(Next(s, a)) && |Next(s, a).slots| == |s.slots|
  {
    hide Replay, Items, And, IsPowerOfTwo;
    match a
    case TestRoom => RefuseKeepsRing(s);
    case WriteSlot => WriteKeepsRing(s);
    case PublishTail => PublishTailKeepsRing(s);
    case _ =>
  }

  lemma ProducerKeepsProd<T>(s: State<T>, a: Access<T>)
    requires RingInv(s) && ProdInv(s) && ByProducer(a) && Enabled(s, a) && RingInv(Next(s, a))
    ensures ProdInv(Next(s, a))
  {
    hide Replay, Items, ConsInv;
    MaskAdvances(s.tail, |s.slots|);
  }

  lemma ProducerKeepsCons<T>(s: State<T>, a: Access<T>)
    requires RingInv(s) && ProdInv(s) && ConsInv(s) && ByProducer(a) && Enabled(s, a) && RingInv(Next(s, a))
    ensures ConsInv(Next(s, a))
  {
    hide Replay, Items;
  }

  // ---------- every access of the consumer keeps the invariant ----------

  lemma EmptyKeepsRing<T>(s: State<T>)
    requires RingInv(s) && ConsInv(s) && s.cons.CHead?
    ensures RingInv(Next(s, TestEmpty))
  {
    hide Replay, Items, And, IsPowerOfTwo;
    if s.cons.head == s.tail {
      assert Items(s.slots, s.head, s.tail) == [];
      ReplayAppend(s.log, Empty, |s.slots| - 1);
    }
  }

  lemma PublishHeadKeepsRing<T>(s: State<T>)
    requires RingInv(s) && ConsInv(s) && s.cons.CTaken?
    ensures RingInv(Next(s, PublishHead))
  {
    hide Replay, Items, And, IsPowerOfTwo;
    MaskAdvances(s.head, |s.slots|);
    ReplayAppend(s.log, Dequeued(s.cons.v), |s.slots| - 1);
    ItemsPop(s.slots, s.head, s.tail);
  }

  lemma SizeKeepsRing<T>(s: State<T>)
    requires RingInv(s) && s.cons.SCalled?
    ensures RingInv(Next(s, SizeTail))
  {
    hide Replay, Items, And, IsPowerOfTwo;
    ReplayAppend(s.log, Size(Distance(s.head, s.tail, |s.slots|)), |s.slots| - 1);
  }

  lemma ConsumerKeepsRing<T>(s: State<T>, a: Access<T>)
    requires RingInv(s) && ConsInv(s) && !ByProducer(a) && Enabled(s, a)
    ensures RingInv(Next(s, a)) && |Next(s, a).slots| == |s.slots|
  {
    hide Replay, Items, And, IsPowerOfTwo;
    match a
    case TestEmpty => EmptyKeepsRing(s);
    case PublishHead => PublishHeadKeepsRing(s);
    case SizeTail => SizeKeepsRing(s);
    case _ =>
  }

  lemma ConsumerKeepsProd<T>(s: State<T>, a: Access<T>)
    requires RingInv(s) && ProdInv(s) && ConsInv(s) && !ByProducer(a) && Enabled(s, a) && RingInv(Next(s, a))
    ensures ProdInv(Next(s, a))
  {
    hide Replay, Items, And, SubWord, IsPowerOfTwo;
    if a.PublishHead? {
      MaskAdvances(s.head, |s.slots|);
      RoomStays(s.head, s.tail, |s.slots|);
    }
  }

  /** Taking an element out leaves room where there was room. */
  lemma RoomStays(head: nat, tail: nat, n: nat)
    requires head < n && tail < n && head != tail
    ensures Wrap(tail + 1, n) != Wrap(head + 1, n)
  {
  }

  lemma ConsumerKeepsCons<T>(s: State<T>, a: Access<T>)
    requires RingInv(s) && ConsInv(s) && !ByProducer(a) && Enabled(s, a) && RingInv(Next(s, a))
    ensures ConsInv(Next(s, a))
  {
    hide Replay, Items, ProdInv, And, SubWord, IsPowerOfTwo;
    if a.SizeHead? {
      MaskDistance(s.head, s.cons.tail, |s.slots|);
    }
  }

  // ---------- the record of finished operations ----------

  lemma OpsLater<T>(ops: seq<Op<T>>, log: seq<Event<T>>, limit: nat, log': seq<Event<T>>, limit': nat)
    requires OpsInv(ops, log, limit) && log <= log' && limit <= limit' <= |log'|
    ensures OpsInv(ops, log', limit')
  {
  }

  lemma OpsFinish<T>(ops: seq<Op<T>>, log: seq<Event<T>>, op: Op<T>)
    requires OpsInv(ops, log, op.start)
    requires op.start <= op.at < op.end == |log| && log[op.at] == op.event
    ensures OpsInv(ops + [op], log, |log|)
  {
  }

  lemma OpsLimit<T>(ops: seq<Op<T>>, log: seq<Event<T>>, limit: nat)
    requires OpsInv(ops, log, limit)
    ensures limit <= |log|
  {
  }

  lemma LogGrows<T>(s: State<T>, a: Access<T>)
    requires Enabled(s, a)
    ensures s.log <= Next(s, a).log && |Next(s, a).log| <= |s.log| + 1
  {
  }

  lemma ProducerRecords<T>(s: State<T>, a: Access<T>)
    requires RingInv(s) && ProdInv(s) && Recorded(s) && ByProducer(a) && Enabled(s, a)
    ensures Recorded(Next(s, a))
  {
    hide RingInv, OpsInv, And;
    var t := Next(s, a);
    LogGrows(s, a);
    OpsLimit(s.consOps, s.log, ConsStart(s));
    OpsLater(s.consOps, s.log, ConsStart(s), t.log, ConsStart(t));
    if a.ReturnEnqueue? {
      OpsFinish(s.prodOps, s.log, t.prodOps[|s.prodOps|]);
    } else {
      OpsLater(s.prodOps, s.log, ProdStart(s), t.log, ProdStart(t));
    }
  }

  lemma ConsumerRecords<T>(s: State<T>, a: Access<T>)
    requires RingInv(s) && ConsInv(s) && Recorded(s) && !ByProducer(a) && Enabled(s, a)
    ensures Recorded(Next(s, a))
  {
    hide RingInv, OpsInv, And, SubWord, Distance;
    var t := Next(s, a);
    LogGrows(s, a);
    OpsLimit(s.prodOps, s.log, ProdStart(s));
    OpsLater(s.prodOps, s.log, ProdStart(s), t.log, ProdStart(t));
    if a.ReturnDequeue? || a.ReturnSize? {
      OpsFinish(s.consOps, s.log, t.consOps[|s.consOps|]);
    } else {
      OpsLater(s.consOps, s.log, ConsStart(s), t.log, ConsStart(t));
    }
  }

  // ---------- every schedule ----------

  lemma StepInv<T>(s: State<T>, a: Access<T>)
    requires Inv(s) && Enabled(s, a)
    ensures Inv(Next(s, a)) && |Next(s, a).slots| == |s.slots|
  {
    hide RingInv, ProdInv, ConsInv, Recorded, Next;
    if ByProducer(a) {
      ProducerKeepsRing(s, a);
      ProducerKeepsProd(s, a);
      ProducerKeepsCons(s, a);
      ProducerRecords(s, a);
    } else {
      ConsumerKeepsRing(s, a);
      ConsumerKeepsProd(s, a);
      ConsumerKeepsCons(s, a);
      ConsumerRecords(s, a);
    }
  }

  /** The state after a schedule of single accesses; none if one of them was not possible. */
  function Schedule<T(==)>(s: State<T>, accesses: seq<Access<T>>): Option<State<T>>
    decreases |accesses|
  {
    if accesses == [] then Some(s)
    else if !Enabled(s, accesses[0]) then None
    else Schedule(Next(s, accesses[0]), accesses[1..])
  }

  lemma {:induction false} ScheduleInv<T>(s: State<T>, accesses: seq<Access<T>>)
    requires Inv(s) && Schedule(s, accesses).Some?
    ensures Inv(Schedule(s, accesses).value) && |Schedule(s, accesses).value.slots| == |s.slots|
    decreases |accesses|
  {
    hide Inv, Next;
    if accesses == [] {
    } else {
      StepInv(s, accesses[0]);
      ScheduleInv(Next(s, accesses[0]), accesses[1..]);
    }
  }

  ghost function Values<T>(log: seq<Event<T>>, enqueued: bool): seq<T>
    decreases |log|
  {
    if log == [] then []
    else
      var e := log[|log| - 1];
      var before := Values(log[..|log| - 1], enqueued);
      if enqueued && e.Enqueued? then before + [e.x]
      else if !enqueued && e.Dequeued? then before + [e.x]
      else before
  }

  /** In a history of the bounded queue, what went in is what came out followed by what is left. */
  lemma {:induction false} HistoryConserves<T>(log: seq<Event<T>>, cap: nat)
    requires Replay(log, cap).Some?
    ensures Values(log, true) == Values(log, false) + Replay(log, cap).value
    ensures |Replay(log, cap).value| <= cap
    decreases |log|
  {
    if log == [] {
    } else {
      HistoryConserves(log[..|log| - 1], cap);
    }
  }

  /** Two finished operations, one of which returned before the other was called, take effect in that order. */
  ghost predicate RealTimeOrder<T>(a: seq<Op<T>>, b: seq<Op<T>>) {
    forall i, j :: 0 <= i < |a| && 0 <= j < |b| && a[i].end <= b[j].start ==> a[i].at < b[j].at
  }

  ghost predicate DistinctEvents<T>(a: seq<Op<T>>, b: seq<Op<T>>) {
    && (forall i, j :: 0 <= i < j < |a| ==> a[i].at != a[j].at)
    && (forall i, j :: 0 <= i < j < |b| ==> b[i].at != b[j].at)
    && (forall i, j :: 0 <= i < |a| && 0 <= j < |b| ==> a[i].at != b[j].at)
  }

  lemma OpsOrder<T>(a: seq<Op<T>>, b: seq<Op<T>>, log: seq<Event<T>>, limitA: nat, limitB: nat)
    requires OpsInv(a, log, limitA) && OpsInv(b, log, limitB)
    ensures RealTimeOrder(a, b)
  {
  }

  /**
   Linearizable FIFO, for every interleaving: the log is a history of a queue of `|slots| - 1`
   elements whose contents are what the ring holds; every finished operation answered what its
   own event says, and the event lies between its call and its return; the log has no other
   events than those of finished operations and of the at most two that are about to return;
   enqueued values come out once, in order.
  */
  lemma Linearizable<T>(slots: seq<T>, accesses: seq<Access<T>>)
    requires IsPowerOfTwo(|slots|) && |slots| <= WORD
    requires Schedule(Initial(slots), accesses).Some?
    ensures var s := Schedule(Initial(slots), accesses).value;
            && |s.slots| == |slots| && s.head < |slots| && s.tail < |slots|
            && Replay(s.log, |slots| - 1) == Some(Items(s.slots, s.head, s.tail))
            && (forall i :: 0 <= i < |s.prodOps| ==>
                  && s.prodOps[i].start <= s.prodOps[i].at < s.prodOps[i].end <= |s.log|
                  && s.log[s.prodOps[i].at] == s.prodOps[i].event)
            && (forall i :: 0 <= i < |s.consOps| ==>
                  && s.consOps[i].start <= s.consOps[i].at < s.consOps[i].end <= |s.log|
                  && s.log[s.consOps[i].at] == s.consOps[i].event)
            && RealTimeOrder(s.prodOps, s.prodOps) && RealTimeOrder(s.prodOps, s.consOps)
            && RealTimeOrder(s.consOps, s.prodOps) && RealTimeOrder(s.consOps, s.consOps)
            && DistinctEvents(s.prodOps, s.consOps)
            && |s.log| == |s.prodOps| + |s.consOps| + TakenEffect(s)
            && Values(s.log, true) == Values(s.log, false) + Items(s.slots, s.head, s.tail)
  {
    InitialInv(slots);
    ScheduleInv(Initial(slots), accesses);
    var s := Schedule(Initial(slots), accesses).value;
    FromInv(s);
  }

  lemma FromInv<T>(s: State<T>)
    requires Inv(s)
    ensures RealTimeOrder(s.prodOps, s.prodOps) && RealTimeOrder(s.prodOps, s.consOps)
    ensures RealTimeOrder(s.consOps, s.prodOps) && RealTimeOrder(s.consOps, s.consOps)
    ensures DistinctEvents(s.prodOps, s.consOps)
    ensures Values(s.log, true) == Values(s.log, false) + Items(s.slots, s.head, s.tail)
  {
    hide ProdInv, ConsInv, IsPowerOfTwo;
    HistoryConserves(s.log, |s.slots| - 1);
    OpsOrder(s.prodOps, s.prodOps, s.log, ProdStart(s), ProdStart(s));
    OpsOrder(s.prodOps, s.consOps, s.log, ProdStart(s), ConsStart(s));
    OpsOrder(s.consOps, s.prodOps, s.log, ConsStart(s), ProdStart(s));
    OpsOrder(s.consOps, s.consOps, s.log, ConsStart(s), ConsStart(s));
  }

  // ---------- what a size read promises ----------

  /** Dequeue attempts in a log. */
  ghost function Attempts<T>(log: seq<Event<T>>): nat
    decreases |log|
  {
    if log == [] then 0
    else Attempts(log[..|log| - 1]) + (if log[|log| - 1].Dequeued? || log[|log| - 1].Empty? then 1 else 0)
  }

  /**
   After the consumer read a size of `k`, none of its next `k` dequeues finds the queue empty,
   whatever the producer does in between.
  */
  lemma {:induction false} SizePromises<T>(log: seq<Event<T>>, later: seq<Event<T>>, k: nat, cap: nat)
    requires Replay(log + [Size(k)] + later, cap).Some?
    ensures k <= |Replay(log + [Size(k)] + later, cap).value| + Attempts(later)
    ensures Attempts(later) <= k ==> forall i :: 0 <= i < |later| ==> !later[i].Empty?
    decreases |later|
  {
    var all := log + [Size(k)] + later;
    if later == [] {
      assert all[..|all| - 1] == log;
    } else {
      var n := |later| - 1;
      assert all[..|all| - 1] == log + [Size(k)] + later[..n];
      SizePromises(log, later[..n], k, cap);
    }
  }

  /** The same for every interleaving: a size of `k` that was read stays a promise for `k` dequeues. */
  lemma SizeHolds<T>(slots: seq<T>, accesses: seq<Access<T>>, i: nat)
    requires IsPowerOfTwo(|slots|) && |slots| <= WORD
    requires Schedule(Initial(slots), accesses).Some?
    ensures var log := Schedule(Initial(slots), accesses).value.log;
      i < |log| && log[i].Size? ==>
        var later := log[i + 1..];
        Attempts(later) <= log[i].k ==> forall j :: 0 <= j < |later| ==> !later[j].Empty?
  {
    hide IsPowerOfTwo, Schedule, Attempts, Replay;
    Linearizable(slots, accesses);
    var log := Schedule(Initial(slots), accesses).value.log;
    if i < |log| && log[i].Size? {
      assert log == log[..i] + [Size(log[i].k)] + log[i + 1..];
      SizePromises(log[..i], log[i + 1..], log[i].k, |slots| - 1);
    }
  }

  // ---------- every operation completes ----------

  /** The accesses of one thread in a schedule. */
  function Own<T>(accesses: seq<Access<T>>, producer: bool): nat {
    if accesses == [] then 0
    else (if ByProducer(accesses[0]) == producer then 1 else 0) + Own(accesses[1..], producer)
  }

  predicate ConsumerCalls<T>(a: Access<T>) {
    a.CallDequeue? || a.CallSize?
  }

  /** What the producer does next when it is inside an operation. */
  function ProducerNext<T>(s: State<T>): Access<T>
    requires !s.prod.PIdle?
  {
    match s.prod
    case PCalled(_, _) => ReadTail
    case PNext(_, _, _) => TestRoom
    case PRoom(_, _, _) => WriteSlot
    case PWritten(_, _, _) => PublishTail
    case PReturn(_, _, _, _) => ReturnEnqueue
  }

  function ConsumerNext<T>(s: State<T>): Access<T>
    requires !s.cons.CIdle?
  {
    match s.cons
    case CCalled(_) => ReadHead
    case CHead(_, _) => TestEmpty
    case CReady(_) => ReadSlot
    case CTaken(_, _) => PublishHead
    case CReturn(_, _, _) => ReturnDequeue
    case SCalled(_) => SizeTail
    case STail(_, _, _) => SizeHead
    case SReturn(_, _, _) => ReturnSize
  }

  /** No thread inside an operation ever waits for the other. */
  lemma NeverBlocked<T>(s: State<T>)
    requires Inv(s)
    ensures !s.prod.PIdle? ==>
      Enabled(s, ProducerNext(s)) && ByProducer(ProducerNext(s)) && !ProducerNext(s).CallEnqueue?
    ensures !s.cons.CIdle? ==>
      Enabled(s, ConsumerNext(s)) && !ByProducer(ConsumerNext(s)) && !ConsumerCalls(ConsumerNext(s))
  {
  }

  /** The test of an enqueue finds room exactly if fewer than `|slots| - 1` elements are queued. */
  lemma RoomDecides<T>(s: State<T>)
    requires Inv(s) && s.prod.PNext?
    ensures var t := Next(s, TestRoom);
            if |Items(s.slots, s.head, s.tail)| < |s.slots| - 1 then t.prod.PRoom? && t.log == s.log
            else t.prod.PReturn? && !t.prod.ok && t.log == s.log + [Refused(s.prod.x)]
  {
    hide Replay, And, IsPowerOfTwo, Recorded, ConsInv;
  }

  /** The test of a dequeue finds an element exactly if one is queued. */
  lemma EmptyDecides<T>(s: State<T>)
    requires Inv(s) && s.cons.CHead?
    ensures var t := Next(s, TestEmpty);
            if Items(s.slots, s.head, s.tail) != [] then t.cons.CReady? && t.log == s.log
            else t.cons.CReturn? && t.cons.r == None && t.log == s.log + [Empty]
  {
    hide Replay, And, IsPowerOfTwo, Recorded, ProdInv;
  }

  /** How far an enqueue of `x` is after `n` accesses of its own; `ops` had finished before it. */
  ghost predicate Enqueuing<T>(s: State<T>, ops: seq<Op<T>>, x: T, n: nat) {
    match s.prod
    case PIdle =>
      && |s.prodOps| == |ops| + 1 && s.prodOps[..|ops|] == ops
      && var e := s.prodOps[|ops|].event; (n == 5 && e == Enqueued(x)) || (n == 3 && e == Refused(x))
    case PCalled(_, y) => s.prodOps == ops && y == x && n == 0
    case PNext(_, y, _) => s.prodOps == ops && y == x && n == 1
    case PRoom(_, y, _) => s.prodOps == ops && y == x && n == 2
    case PWritten(_, y, _) => s.prodOps == ops && y == x && n == 3
    case PReturn(_, _, y, ok) => s.prodOps == ops && y == x && n == if ok then 4 else 2
  }

  ghost predicate Dequeuing<T>(s: State<T>, ops: seq<Op<T>>, n: nat) {
    match s.cons
    case CIdle =>
      && |s.consOps| == |ops| + 1 && s.consOps[..|ops|] == ops
      && var e := s.consOps[|ops|].event; (n == 5 && e.Dequeued?) || (n == 3 && e.Empty?)
    case CCalled(_) => s.consOps == ops && n == 0
    case CHead(_, _) => s.consOps == ops && n == 1
    case CReady(_) => s.consOps == ops && n == 2
    case CTaken(_, _) => s.consOps == ops && n == 3
    case CReturn(_, _, r) => s.consOps == ops && n == if r.Some? then 4 else 2
    case _ => false
  }

  ghost predicate Sizing<T>(s: State<T>, ops: seq<Op<T>>, n: nat) {
    match s.cons
    case CIdle =>
      |s.consOps| == |ops| + 1 && s.consOps[..|ops|] == ops && s.consOps[|ops|].event.Size? && n == 3
    case SCalled(_) => s.consOps == ops && n == 0
    case STail(_, _, _) => s.consOps == ops && n == 1
    case SReturn(_, _, _) => s.consOps == ops && n == 2
    case _ => false
  }

  lemma EnqueueStep<T>(s: State<T>, a: Access<T>, ops: seq<Op<T>>, x: T, n: nat)
    requires Inv(s) && Enabled(s, a) && !a.CallEnqueue? && Enqueuing(s, ops, x, n)
    ensures Enqueuing(Next(s, a), ops, x, if ByProducer(a) then n + 1 else n)
  {
    hide Replay, And, SubWord, IsPowerOfTwo, Recorded, ConsInv, Items, Distance;
  }

  lemma DequeueStep<T>(s: State<T>, a: Access<T>, ops: seq<Op<T>>, n: nat)
    requires Inv(s) && Enabled(s, a) && !ConsumerCalls(a) && Dequeuing(s, ops, n)
    ensures Dequeuing(Next(s, a), ops, if ByProducer(a) then n else n + 1)
  {
    hide Replay, And, SubWord, IsPowerOfTwo, Recorded, ProdInv, Items, Distance;
  }

  lemma SizeStep<T>(s: State<T>, a: Access<T>, ops: seq<Op<T>>, n: nat)
    requires Inv(s) && Enabled(s, a) && !ConsumerCalls(a) && Sizing(s, ops, n)
    ensures Sizing(Next(s, a), ops, if ByProducer(a) then n else n + 1)
  {
    hide Replay, And, SubWord, IsPowerOfTwo, Recorded, ProdInv, Items, Distance;
  }

  lemma {:induction false} EnqueueRuns<T>(s: State<T>, rest: seq<Access<T>>, ops: seq<Op<T>>, x: T, n: nat)
    requires Inv(s) && Enqueuing(s, ops, x, n) && Schedule(s, rest).Some?
    requires forall i :: 0 <= i < |rest| ==> !rest[i].CallEnqueue?
    ensures Inv(Schedule(s, rest).value) && Enqueuing(Schedule(s, rest).value, ops, x, n + Own(rest, true))
    decreases |rest|
  {
    hide Inv, Enqueuing, Next;
    if rest == [] {
    } else {
      StepInv(s, rest[0]);
      EnqueueStep(s, rest[0], ops, x, n);
      EnqueueRuns(Next(s, rest[0]), rest[1..], ops, x, if ByProducer(rest[0]) then n + 1 else n);
    }
  }

  lemma {:induction false} DequeueRuns<T>(s: State<T>, rest: seq<Access<T>>, ops: seq<Op<T>>, n: nat)
    requires Inv(s) && Dequeuing(s, ops, n) && Schedule(s, rest).Some?
    requires forall i :: 0 <= i < |rest| ==> !ConsumerCalls(rest[i])
    ensures Inv(Schedule(s, rest).value) && Dequeuing(Schedule(s, rest).value, ops, n + Own(rest, false))
    decreases |rest|
  {
    hide Inv, Dequeuing, Next;
    if rest == [] {
    } else {
      StepInv(s, rest[0]);
      DequeueStep(s, rest[0], ops, n);
      DequeueRuns(Next(s, rest[0]), rest[1..], ops, if ByProducer(rest[0]) then n else n + 1);
    }
  }

  lemma {:induction false} SizeRuns<T>(s: State<T>, rest: seq<Access<T>>, ops: seq<Op<T>>, n: nat)
    requires Inv(s) && Sizing(s, ops, n) && Schedule(s, rest).Some?
    requires forall i :: 0 <= i < |rest| ==> !ConsumerCalls(rest[i])
    ensures Inv(Schedule(s, rest).value) && Sizing(Schedule(s, rest).value, ops, n + Own(rest, false))
    decreases |rest|
  {
    hide Inv, Sizing, Next;
    if rest == [] {
    } else {
      StepInv(s, rest[0]);
      SizeStep(s, rest[0], ops, n);
      SizeRuns(Next(s, rest[0]), rest[1..], ops, if ByProducer(rest[0]) then n else n + 1);
    }
  }

  /**
   An enqueue completes after five accesses of its own, or after three when it finds no room,
   whatever the consumer does in between; before that its next access is always possible.
  */
  lemma EnqueueCompletes<T>(s: State<T>, x: T, rest: seq<Access<T>>)
    requires Inv(s) && s.prod.PIdle?
    requires forall i :: 0 <= i < |rest| ==> !rest[i].CallEnqueue?
    requires Schedule(Next(s, CallEnqueue(x)), rest).Some?
    ensures var t, n := Schedule(Next(s, CallEnqueue(x)), rest).value, Own(rest, true);
            if t.prod.PIdle? then
              && |t.prodOps| == |s.prodOps| + 1 && t.prodOps[..|s.prodOps|] == s.prodOps
              && var e := t.prodOps[|s.prodOps|].event; (n == 5 && e == Enqueued(x)) || (n == 3 && e == Refused(x))
            else
              && t.prodOps == s.prodOps && n < 5
              && Enabled(t, ProducerNext(t)) && ByProducer(ProducerNext(t)) && !ProducerNext(t).CallEnqueue?
  {
    StepInv(s, CallEnqueue(x));
    EnqueueRuns(Next(s, CallEnqueue(x)), rest, s.prodOps, x, 0);
    NeverBlocked(Schedule(Next(s, CallEnqueue(x)), rest).value);
    hide Inv, Schedule, Own;
  }

  /** The same for a dequeue, which takes three accesses when it finds nothing. */
  lemma DequeueCompletes<T>(s: State<T>, rest: seq<Access<T>>)
    requires Inv(s) && s.cons.CIdle?
    requires forall i :: 0 <= i < |rest| ==> !ConsumerCalls(rest[i])
    requires Schedule(Next(s, CallDequeue), rest).Some?
    ensures var t, n := Schedule(Next(s, CallDequeue), rest).value, Own(rest, false);
            if t.cons.CIdle? then
              && |t.consOps| == |s.consOps| + 1 && t.consOps[..|s.consOps|] == s.consOps
              && var e := t.consOps[|s.consOps|].event; (n == 5 && e.Dequeued?) || (n == 3 && e.Empty?)
            else
              && t.consOps == s.consOps && n < 5
              && Enabled(t, ConsumerNext(t)) && !ByProducer(ConsumerNext(t)) && !ConsumerCalls(ConsumerNext(t))
  {
    StepInv(s, CallDequeue);
    DequeueRuns(Next(s, CallDequeue), rest, s.consOps, 0);
    NeverBlocked(Schedule(Next(s, CallDequeue), rest).value);
    hide Inv, Schedule, Own;
  }

  /** The same for a size, which always takes three. */
  lemma SizeCompletes<T>(s: State<T>, rest: seq<Access<T>>)
    requires Inv(s) && s.cons.CIdle?
    requires forall i :: 0 <= i < |rest| ==> !ConsumerCalls(rest[i])
    requires Schedule(Next(s, CallSize), rest).Some?
    ensures var t, n := Schedule(Next(s, CallSize), rest).value, Own(rest, false);
            if t.cons.CIdle? then
              && |t.consOps| == |s.consOps| + 1 && t.consOps[..|s.consOps|] == s.consOps
              && t.consOps[|s.consOps|].event.Size? && n == 3
            else
              && t.consOps == s.consOps && n < 3
              && Enabled(t, ConsumerNext(t)) && !ByProducer(ConsumerNext(t)) && !ConsumerCalls(ConsumerNext(t))
  {
    StepInv(s, CallSize);
    SizeRuns(Next(s, CallSize), rest, s.consOps, 0);
    NeverBlocked(Schedule(Next(s, CallSize), rest).value);
    hide Inv, Schedule, Own;
  }
}
