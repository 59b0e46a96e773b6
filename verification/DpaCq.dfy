/**
 The completion queue polled by the DPA: entries carry an owner bit that the card flips on every
 round of the ring, and the consumer tells new entries from old ones by that bit alone.
*/
module DpaCq {
  import opened Bits

  const LOG_DEPTH: nat := 7
  const DEPTH: nat := 128
  const INDEX_MASK: nat := 127
  const UINT32: nat := 0x1_0000_0000

  datatype Cqe = Cqe(owner: nat, payload: nat)

  /** The owner bit the card writes into its `k`-th entry. */
  function OwnerOf(k: nat): nat {
    (k / DEPTH) % 2
  }

  /** The owner bit in slot `j` after the card has written `p` entries; at first every bit is one. */
  function SlotOwner(p: nat, j: nat): nat
    requires j < DEPTH
  {
    if p <= j then 1 else ((p - 1 - j) / DEPTH) % 2
  }

  /** The bit that marks an entry as not written yet, for a consumer that has taken `c` entries. */
  function StaleBit(c: nat): nat {
    1 - OwnerOf(c)
  }

  /** Writing entry `p` changes the bit of its slot and of no other. */
  lemma WriteOwner(p: nat, j: nat)
    requires j < DEPTH
    ensures SlotOwner(p + 1, j) == if j == p % DEPTH then OwnerOf(p) else SlotOwner(p, j)
  {
    var q, r := p / DEPTH, p % DEPTH;
    assert p == DEPTH * q + r;
    if j <= p {
      if j <= r {
        assert p - j == DEPTH * q + (r - j);
        assert (p - j) / DEPTH == q;
      } else {
        assert p - j == DEPTH * (q - 1) + (DEPTH + r - j);
        assert (p - j) / DEPTH == q - 1;
        assert (p - 1 - j) / DEPTH == q - 1;
      }
    }
  }

  /**
   The test of the polling loop is right: for a consumer that is at most one ring behind, the bit
   in its slot differs from its stale bit exactly if the next entry has been written.
  */
  lemma OwnerTest(c: nat, p: nat)
    requires c <= p <= c + DEPTH
    ensures SlotOwner(p, c % DEPTH) != StaleBit(c) <==> c < p
  {
    var q, r := c / DEPTH, c % DEPTH;
    assert c == DEPTH * q + r;
    if c < p {
      assert p - 1 - r == DEPTH * q + (p - 1 - c);
      assert (p - 1 - r) / DEPTH == q;
    } else if q > 0 {
      assert p - 1 - r == DEPTH * (q - 1) + (DEPTH - 1);
      assert (p - 1 - r) / DEPTH == q - 1;
    }
  }

  /** Counting modulo 2^32 one by one. */
  lemma CountWraps(c: nat)
    ensures (c % UINT32 + 1) % UINT32 == (c + 1) % UINT32
  {
    var q, r := c / UINT32, c % UINT32;
    assert c == UINT32 * q + r;
    if r + 1 == UINT32 {
      ModUnique(c + 1, UINT32, q + 1, 0);
    } else {
      ModUnique(c + 1, UINT32, q, r + 1);
      ModUnique(r + 1, UINT32, 0, r + 1);
    }
  }

  /** A 32-bit counter that started at `start` and was incremented `n` times. */
  function Counted(start: nat, n: nat): nat {
    (start + n) % UINT32
  }

  lemma CountNone(start: nat)
    requires start < UINT32
    ensures Counted(start, 0) == start
  {
  }

  lemma CountOne(start: nat, n: nat)
    ensures (Counted(start, n) + 1) % UINT32 == Counted(start, n + 1)
  {
    CountWraps(start + n);
  }

  /** The ring index of a wrapped counter is that of the counter. */
  lemma WrapKeepsSlot(x: nat)
    ensures And(x % UINT32, INDEX_MASK) == x % DEPTH
  {
    var q, r := x / UINT32, x % UINT32;
    var s, t := r / DEPTH, r % DEPTH;
    assert x == UINT32 * q + r && r == DEPTH * s + t;
    assert UINT32 * q == DEPTH * (0x200_0000 * q);
    ModUnique(x, DEPTH, 0x200_0000 * q + s, t);
    MaskIsDepth();
    AndMask(r, LOG_DEPTH);
  }

  lemma MaskIsDepth()
    ensures Pow2(LOG_DEPTH) == DEPTH
  {
    assert Pow2(3) == 8;
    Pow2Add(3, 4);
    assert Pow2(4) == 16;
  }

  /** The stale bit flips exactly when the ring index returns to zero. */
  lemma StaleFlips(c: nat)
    ensures StaleBit(c + 1) == if (c + 1) % DEPTH == 0 then 1 - StaleBit(c) else StaleBit(c)
  {
    var q, r := c / DEPTH, c % DEPTH;
    assert c == DEPTH * q + r;
    if r + 1 == DEPTH {
      assert (c + 1) / DEPTH == q + 1;
    } else {
      assert (c + 1) / DEPTH == q;
    }
  }

  /** One step of the consumer's index and bit, also where the 32-bit index wraps. */
  lemma StepBits(c: nat)
    ensures And((c % UINT32 + 1) % UINT32, INDEX_MASK) == (c + 1) % DEPTH
    ensures StaleBit(c + 1) == if (c + 1) % DEPTH == 0 then 1 - StaleBit(c) else StaleBit(c)
    ensures (c % UINT32 + 1) % UINT32 == (c + 1) % UINT32
  {
    hide And, StaleBit;
    CountWraps(c);
    WrapKeepsSlot(c + 1);
    StaleFlips(c);
  }

  lemma SlotsDiffer(k: nat, p: nat)
    requires k < p < k + DEPTH
    ensures k % DEPTH != p % DEPTH
  {
  }

  class CompletionQueue {
    const ring: array<Cqe>
    var cqIdx: nat          // uint32_t
    var cqe: nat            // slot of the current entry
    var cqHwOwnerBit: nat
    var doorbell: nat
    var packetsCount: nat   // uint32_t
    var written: seq<nat>    // model of the card: payloads of all entries the card wrote
    var taken: seq<nat>      // record: payloads of all entries the handler took

    /** The ring as the card leaves it, while it stays within one ring of the consumer. */
    ghost predicate Card()
      reads this`taken, this`written, ring
    {
      && ring.Length == DEPTH
      && taken <= written && |written| <= |taken| + DEPTH
      && (forall j :: 0 <= j < DEPTH ==> ring[j].owner == SlotOwner(|written|, j))
      && (forall k :: |taken| <= k < |written| ==> ring[k % DEPTH].payload == written[k])
    }

    ghost predicate Valid()
      reads this, ring
    {
      && Card()
      && cqIdx == |taken| % UINT32 && cqe == |taken| % DEPTH && cqHwOwnerBit == StaleBit(|taken|)
    }

    /** The ring as the host allocates it, and `init_cq`. */
    constructor ()
      ensures Valid() && written == taken == []
    {
      ring := new Cqe[DEPTH](_ => Cqe(1, 0));
      cqIdx, cqe, cqHwOwnerBit, doorbell, packetsCount := 0, 0, 1, 0, 0;
      written, taken := [], [];
    }

    /** The card writes its next entry, unless the consumer is a whole ring behind. */
    method HwWrite(payload: nat)
      requires Card() && |written| < |taken| + DEPTH
      modifies ring, this`written
      ensures Card() && written == old(written) + [payload]
    {
      hide SlotOwner, OwnerOf, StaleBit;
      var p := |written|;
      ghost var q := p + 1;
      forall j | 0 <= j < DEPTH
        ensures SlotOwner(q, j) == if j == p % DEPTH then OwnerOf(p) else ring[j].owner
      {
        WriteOwner(p, j);
      }
      forall k | |taken| <= k < p
        ensures k % DEPTH != p % DEPTH
      {
        SlotsDiffer(k, p);
      }
      ring[p % DEPTH] := Cqe(OwnerOf(p), payload);
      assert forall j :: 0 <= j < DEPTH ==> ring[j].owner == SlotOwner(q, j);
      written := written + [payload];
      assert |written| == q;
    }

    /** Any number of new entries up to `budget`, as far as there is room. */
    method HwRun(budget: nat) returns (left: nat)
      requires Card()
      modifies ring, this`written
      ensures Card() && old(written) <= written && left + |written| == budget + |old(written)|
    {
      left := budget;
      var more: bool := *;
      while more && left > 0 && |written| < |taken| + DEPTH
        invariant Card() && old(written) <= written && left + |written| == budget + |old(written)|
        decreases left
      {
        var payload: nat := *;
        HwWrite(payload);
        left := left - 1;
        more := *;
      }
    }

    /** `step_cq`, with the card writing between any two of its assignments. */
    method StepCq(mask: nat, budget: nat) returns (left: nat)
      requires Valid() && mask == INDEX_MASK && |taken| < |written|
      modifies this`cqIdx, this`cqe, this`cqHwOwnerBit, this`doorbell, this`taken, this`written, ring
      ensures Valid() && taken == old(taken) + [old(ring[cqe].payload)]
      ensures old(written) <= written && left + |written| == budget + |old(written)|
      ensures taken[|taken| - 1] == written[|taken| - 1]
      ensures doorbell == |taken| % UINT32
    {
      hide SlotOwner, OwnerOf, StaleBit, And;
      StepBits(|taken|);
      taken := taken + [ring[cqe].payload];
      cqIdx := (cqIdx + 1) % UINT32;
      left := HwRun(budget);
      cqe := And(cqIdx, mask);
      left := HwRun(left);
      if And(cqIdx, mask) == 0 {
        cqHwOwnerBit := 1 - cqHwOwnerBit;
      }
      left := HwRun(left);
      doorbell := cqIdx;
    }

    /**
     The polling loop of the event handler, while the card goes on writing up to `budget` entries
     whenever it likes: it takes every entry once, in order, and stops exactly when none is left.
    */
    method EventHandler(budget: nat) returns (left: nat, armed: nat)
      requires Valid() && packetsCount < UINT32
      modifies this, ring
      ensures Valid()
      ensures taken == written && old(written) <= written
      ensures left + |written| == budget + |old(written)|
      ensures old(taken) <= taken && packetsCount == Counted(old(packetsCount), |taken| - |old(taken)|)
      ensures armed == |taken| % UINT32 && (taken != old(taken) ==> doorbell == armed)
    {
      hide SlotOwner, OwnerOf, StaleBit, And, Card, Counted;
      left := HwRun(budget);
      Test();
      ghost var n := |taken|;
      ghost var count := packetsCount;
      CountNone(count);
      while ring[cqe].owner != cqHwOwnerBit
        invariant Valid() && old(written) <= written && taken <= written && n <= |taken| && old(taken) <= taken
        invariant left + |written| == budget + |old(written)|
        invariant cqe < ring.Length && (ring[cqe].owner != cqHwOwnerBit <==> |taken| < |written|)
        invariant packetsCount == Counted(count, |taken| - n)
        invariant |taken| > n ==> doorbell == |taken| % UINT32
        decreases budget + |old(written)| - |taken|
      {
        left := HwRun(left);
        CountOne(count, |taken| - n);
        packetsCount := (packetsCount + 1) % UINT32;
        left := HwRun(left);
        left := StepCq(INDEX_MASK, left);
        left := HwRun(left);
        Test();
      }
      armed := cqIdx;
    }

    lemma Test()
      requires Valid()
      ensures taken <= written && cqe < ring.Length
      ensures ring[cqe].owner != cqHwOwnerBit <==> |taken| < |written|
    {
      OwnerTest(|taken|, |written|);
    }
  }
}
