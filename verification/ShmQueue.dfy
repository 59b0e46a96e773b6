/** The queue that hands buffers between dispatcher and worker, used by one thread at a time. */
module ShmQueue {
  import opened Rings
  import opened Bits
  import opened Buffers

  const WORD: nat := 0x1_0000_0000_0000_0000

  /** Subtraction of `size_t` values, which wraps. */
  function SubWord(a: nat, b: nat): nat
    requires a < WORD && b < WORD
  {
    if a >= b then a - b else a + WORD - b
  }

  /** Masking advances an index by one slot of the ring. */
  lemma MaskAdvances(i: nat, size: nat)
    requires IsPowerOfTwo(size) && i < size
    ensures And(i + 1, size - 1) == Wrap(i + 1, size)
  {
    PowerOfTwoIff(size);
    var k: nat :| size == Pow2(k);
    AndMask(i + 1, k);
    ModIsWrap(i + 1, size);
  }

  lemma WordDivides(k: nat) returns (m: nat)
    requires Pow2(k) <= WORD
    ensures m > 0 && WORD == Pow2(k) * m
  {
    WordIsPow2();
    if k > 64 {
      Pow2Monotone(64, k);
    }
    Pow2Add(k, 64 - k);
    m := Pow2(64 - k);
  }

  /** The masked difference of two indices is the distance from one to the other round the ring. */
  lemma MaskDistance(head: nat, tail: nat, size: nat)
    requires IsPowerOfTwo(size) && head < size && tail < size <= WORD
    ensures And(SubWord(tail, head), size - 1) == Distance(head, tail, size)
  {
    PowerOfTwoIff(size);
    var k: nat :| size == Pow2(k);
    AndMask(SubWord(tail, head), k);
    if tail >= head {
      assert size * 0 == 0;
      ModUnique(tail - head, size, 0, tail - head);
    } else {
      var m := WordDivides(k);
      Bits.MulMonotone(size, 1, m);
      WrapsToDistance(size, m, tail + size - head);
    }
  }

  lemma WrapsToDistance(size: nat, m: nat, d: nat)
    requires m > 0 && d < size && size * m >= size
    ensures (size * m - size + d) % size == d
  {
    assert size * (m - 1) == size * m - size;
    ModUnique(size * m - size + d, size, m - 1, d);
  }

  lemma WordIsPow2()
    ensures WORD == Pow2(64)
  {
    assert Pow2(4) == 16;
    Pow2Add(4, 4);
    assert Pow2(8) == 0x100;
    Pow2Add(8, 8);
    assert Pow2(16) == 0x1_0000;
    Pow2Add(16, 16);
    assert Pow2(32) == 0x1_0000_0000;
    Pow2Add(32, 32);
  }

  /** How far round the ring `tail` is from `head`. */
  function Distance(head: nat, tail: nat, size: nat): (d: nat)
    requires head < size && tail < size
    ensures d < size
  {
    if tail >= head then tail - head else tail + size - head
  }

  /** What the slots from `head` up to `tail` hold, oldest first. */
  function Items<T>(slots: seq<T>, head: nat, tail: nat): (s: seq<T>)
    requires head < |slots| && tail < |slots|
    ensures |s| == Distance(head, tail, |slots|)
    ensures forall i :: 0 <= i < |s| ==> s[i] == slots[Wrap(head + i, |slots|)]
  {
    seq(Distance(head, tail, |slots|), i requires 0 <= i < Distance(head, tail, |slots|) =>
      slots[Wrap(head + i, |slots|)])
  }

  lemma ItemsPush<T>(slots: seq<T>, head: nat, tail: nat, x: T)
    requires head < |slots| && tail < |slots| && Wrap(tail + 1, |slots|) != head
    ensures Items(slots[tail := x], head, Wrap(tail + 1, |slots|)) == Items(slots, head, tail) + [x]
  {
  }

  lemma ItemsPop<T>(slots: seq<T>, head: nat, tail: nat)
    requires head < |slots| && tail < |slots| && head != tail
    ensures Items(slots, head, tail)[0] == slots[head]
    ensures Items(slots, Wrap(head + 1, |slots|), tail) == Items(slots, head, tail)[1..]
  {
  }

  class ShmLockFreeQueue {
    const size: nat
    const mask: nat
    const queue: array<Buffer?>
    var head: nat
    var tail: nat

    ghost predicate Valid()
      reads this
    {
      && IsPowerOfTwo(size) && size <= WORD && mask == size - 1
      && queue.Length == size
      && head < size && tail < size
    }

    /** What is queued, oldest first. */
    ghost function Contents(): (s: seq<Buffer?>)
      reads this, queue
      requires Valid()
      ensures |s| == Distance(head, tail, size)
    {
      Items(queue[..], head, tail)
    }

    constructor (size: nat)
      requires IsPowerOfTwo(size) && size <= WORD
      ensures Valid() && this.size == size && Contents() == [] && fresh(queue)
    {
      this.size := size;
      mask := size - 1;
      queue := new Buffer?[size](_ => null);
      head, tail := 0, 0;
    }

    method Enqueue(pkt: Buffer?) returns (ok: bool)
      requires Valid()
      modifies this`tail, queue
      ensures Valid()
      ensures ok == (|old(Contents())| < size - 1)
      ensures Contents() == if ok then old(Contents()) + [pkt] else old(Contents())
    {
      MaskAdvances(tail, size);
      var nextTail := And(tail + 1, mask);
      if nextTail == head { return false; }
      ItemsPush(queue[..], head, tail, pkt);
      queue[tail] := pkt;
      tail := nextTail;
      return true;
    }

    method Dequeue() returns (r: Buffer?)
      requires Valid()
      modifies this`head
      ensures Valid()
      ensures old(Contents()) == [] ==> r == null && Contents() == []
      ensures old(Contents()) != [] ==> r == old(Contents())[0] && Contents() == old(Contents())[1..]
    {
      if head == tail { return null; }
      MaskAdvances(head, size);
      ItemsPop(queue[..], head, tail);
      r := queue[head];
      head := And(head + 1, mask);
    }

    method GetSize() returns (n: nat)
      requires Valid()
      ensures n == |Contents()|
    {
      MaskDistance(head, tail, size);
      n := And(SubWord(tail, head), mask);
    }
  }
}
