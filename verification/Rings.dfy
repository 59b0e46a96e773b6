/** Circular index arithmetic shared by every ring in the datapath. */
module Rings {

  /** The slot reached from a ring of `n` slots by an index that has gone round at most once. */
  function Wrap(i: nat, n: nat): (r: nat)
    ensures i < 2 * n ==> r < n
  {
    if i < n then i else i - n
  }

  /** The `k` consecutive slots of a ring of `n` slots that start at `start`. */
  function Arc(start: nat, k: nat, n: nat): (r: seq<nat>)
    requires start < n && k <= n
    ensures |r| == k
    ensures forall j :: 0 <= j < k ==> r[j] == Wrap(start + j, n)
  {
    seq<nat>(k, j requires 0 <= j < k => Wrap(start + j, n))
  }

  lemma ProductBounds(n: nat, q: int)
    ensures q <= 0 ==> n * q <= 0
    ensures q >= 2 ==> n * q >= 2 * n
  {
    if q >= 2 {
      assert n * q == 2 * n + n * (q - 2);
    }
  }

  lemma QuotientOne(i: nat, n: nat, q: int, r: nat)
    requires n <= i < 2 * n && r < n && i == n * q + r
    ensures r == i - n
  {
    ProductBounds(n, q);
    assert n * 1 == n;
    assert q == 1;
  }

  /** The `%` the code writes is `Wrap` for every index the datapath forms. */
  lemma ModIsWrap(i: nat, n: nat)
    requires i < 2 * n
    ensures i % n == Wrap(i, n)
  {
    if i >= n {
      QuotientOne(i, n, i / n, i % n);
    }
  }

  lemma ArcSplit(start: nat, j: nat, k: nat, n: nat)
    requires start < n && j + k <= n
    ensures Arc(start, j + k, n) == Arc(start, j, n) + Arc(Wrap(start + j, n), k, n)
  {
  }

  /** A middle part of a full turn is itself an arc. */
  lemma ArcPart(before: seq<nat>, part: seq<nat>, after: seq<nat>, start: nat, n: nat)
    requires start < n
    requires before + part + after == Arc(start, n, n)
    ensures |before| + |part| + |after| == n
    ensures part == Arc(Wrap(start + |before|, n), |part|, n)
  {
    var all := before + part + after;
    assert |all| == n;
    forall j | 0 <= j < |part|
      ensures part[j] == Wrap(Wrap(start + |before|, n) + j, n)
    {
      assert part[j] == all[|before| + j];
    }
  }

  /** Moving the oldest part of a full turn to its end gives the full turn from the next slot. */
  lemma ArcRotate(oldest: seq<nat>, rest: seq<nat>, start: nat, n: nat)
    requires start < n
    requires oldest + rest == Arc(start, n, n)
    ensures |oldest| + |rest| == n
    ensures rest + oldest == Arc(Wrap(start + |oldest|, n), n, n)
  {
    var all := oldest + rest;
    assert |all| == n;
    var k := |oldest|;
    forall i | 0 <= i < n
      ensures (rest + oldest)[i] == Wrap(Wrap(start + k, n) + i, n)
    {
      assert (rest + oldest)[i] == all[if i + k < n then i + k else i + k - n];
    }
  }

  /** No slot of a ring is visited twice by one turn. */
  lemma ArcDistinct(start: nat, k: nat, n: nat)
    requires start < n && k <= n
    ensures forall i, j :: 0 <= i < j < k ==> Arc(start, k, n)[i] != Arc(start, k, n)[j]
  {
  }

  /** A full turn visits every slot. */
  lemma ArcCovers(start: nat, n: nat, s: nat)
    requires start < n && s < n
    ensures Arc(start, n, n)[Wrap(s + n - start, n)] == s
  {
  }
}
