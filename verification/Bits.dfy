/** Machine-word arithmetic on naturals: masks, powers of two, the most significant bit. */
module Bits {

  function Pow2(k: nat): (r: nat)
    ensures r >= 1
  {
    if k == 0 then 1 else 2 * Pow2(k - 1)
  }

  /** Bitwise and. */
  function And(x: nat, y: nat): nat {
    if x == 0 || y == 0 then 0
    else 2 * And(x / 2, y / 2) + (if x % 2 == 1 && y % 2 == 1 then 1 else 0)
  }

  /** `is_power_of_two` */
  predicate IsPowerOfTwo(x: nat) {
    x != 0 && And(x, x - 1) == 0
  }

  lemma MulMonotone(d: nat, a: int, b: int)
    ensures a <= b ==> d * a <= d * b
  {
  }

  lemma ModUnique(x: nat, d: nat, q: int, r: nat)
    requires r < d && x == d * q + r
    ensures x % d == r
  {
    var q', r' := x / d, x % d;
    assert x == d * q' + r';
    MulMonotone(d, q + 1, q');
    MulMonotone(d, q' + 1, q);
    assert d * (q + 1) == d * q + d;
    assert d * (q' + 1) == d * q' + d;
    assert q == q';
  }

  lemma DoubleMod(y: nat, p: nat, b: nat)
    requires 0 < p && b < 2
    ensures (2 * y + b) % (2 * p) == 2 * (y % p) + b
  {
    var q, r := y / p, y % p;
    assert y == p * q + r;
    assert 2 * p * q == 2 * (p * q);
    ModUnique(2 * y + b, 2 * p, q, 2 * r + b);
  }

  /** Masking with `2^k - 1` is reduction modulo `2^k`. */
  lemma {:induction false} AndMask(x: nat, k: nat)
    ensures And(x, Pow2(k) - 1) == x % Pow2(k)
    decreases k
  {
    if k == 0 {
    } else {
      var p := Pow2(k - 1);
      AndMask(x / 2, k - 1);
      DoubleMod(x / 2, p, x % 2);
      assert x == 2 * (x / 2) + x % 2;
      assert (2 * p - 1) / 2 == p - 1 && (2 * p - 1) % 2 == 1;
    }
  }

  lemma {:induction false} AndSelf(x: nat)
    ensures And(x, x) == x
  {
    if x == 0 {
    } else {
      AndSelf(x / 2);
    }
  }

  /** The bit trick recognises exactly the powers of two. */
  lemma {:induction false} PowerOfTwoIff(x: nat)
    ensures IsPowerOfTwo(x) <==> exists k: nat :: x == Pow2(k)
  {
    if x == 0 {
    } else if x == 1 {
      assert x == Pow2(0);
    } else if x % 2 == 1 {
      AndSelf(x / 2);
      assert (x - 1) / 2 == x / 2;
      forall k: nat
        ensures x != Pow2(k)
      {
        assert k > 0 ==> Pow2(k) == 2 * Pow2(k - 1);
      }
    } else {
      PowerOfTwoIff(x / 2);
      assert (x - 1) / 2 == x / 2 - 1;
      assert IsPowerOfTwo(x) <==> IsPowerOfTwo(x / 2);
      if IsPowerOfTwo(x) {
        var k: nat :| x / 2 == Pow2(k);
        assert x == Pow2(k + 1);
      }
      forall k: nat | x == Pow2(k)
        ensures IsPowerOfTwo(x)
      {
        assert k > 0;
        assert x / 2 == Pow2(k - 1);
      }
    }
  }

  lemma {:induction false} Pow2Add(a: nat, b: nat)
    ensures Pow2(a + b) == Pow2(a) * Pow2(b)
  {
    if a == 0 {
    } else {
      Pow2Add(a - 1, b);
    }
  }

  lemma {:induction false} Pow2Monotone(a: nat, b: nat)
    requires a < b
    ensures Pow2(a) < Pow2(b)
    decreases b
  {
    if a == b - 1 {
    } else {
      Pow2Monotone(a, b - 1);
    }
  }

  /** `__builtin_clz` on a word of `width` bits: zero bits above the highest one. */
  function CountLeadingZeros(x: nat, width: nat): (z: nat)
    requires x < Pow2(width)
    ensures z <= width
  {
    if width == 0 then 0
    else if x >= Pow2(width - 1) then 0
    else 1 + CountLeadingZeros(x, width - 1)
  }

  lemma Pow2Word()
    ensures Pow2(32) == 0x1_0000_0000
  {
    assert Pow2(8) == 0x100;
    Pow2Add(8, 8);
    assert Pow2(16) == 0x1_0000;
    Pow2Add(16, 16);
  }

  /** `msb_index` */
  function MsbIndex(x: nat): (r: nat)
    requires x < 0x1_0000_0000
    ensures r <= 32
  {
    Pow2Word();
    if x == 0 then 0 else 32 - CountLeadingZeros(x, 32)
  }

  lemma {:induction false} LeadingZeros(x: nat, width: nat)
    requires 0 < x < Pow2(width)
    ensures width > CountLeadingZeros(x, width)
    ensures Pow2(width - CountLeadingZeros(x, width) - 1) <= x < Pow2(width - CountLeadingZeros(x, width))
    decreases width
  {
    if width == 0 || x >= Pow2(width - 1) {
    } else {
      LeadingZeros(x, width - 1);
    }
  }

  /** The index of the highest set bit, counted from one, is where the number lies between powers of two. */
  lemma MsbIndexBounds(x: nat)
    requires x < 0x1_0000_0000
    ensures x < Pow2(MsbIndex(x))
    ensures x > 0 ==> MsbIndex(x) > 0 && Pow2(MsbIndex(x) - 1) <= x
  {
    Pow2Word();
    if x > 0 {
      LeadingZeros(x, 32);
    }
  }
}
