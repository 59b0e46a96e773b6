/** Memory regions cut into blocks: disjoint, aligned, and covering every byte. */
module Tiling {
  import opened Common

  datatype Block = Block(addr: nat, size: nat)
  datatype Region = Region(base: nat, len: nat)

  predicate Contains(b: Block, a: int) {
    b.addr <= a < b.addr + b.size
  }

  predicate InRegion(r: Region, a: int) {
    r.base <= a < r.base + r.len
  }

  predicate Disjoint(b: Block, c: Block) {
    b.addr + b.size <= c.addr || c.addr + c.size <= b.addr
  }

  predicate Apart(r: Region, s: Region) {
    r.base + r.len <= s.base || s.base + s.len <= r.base
  }

  /** Block `b` is the `k`-th of its size in region `r`. */
  predicate Placed(b: Block, r: Region, k: nat) {
    b.size > 0 && b.addr == r.base + k * b.size && b.addr + b.size <= r.base + r.len
  }

  ghost predicate Aligned(b: Block, r: Region) {
    exists k: nat :: Placed(b, r, k)
  }

  ghost predicate Homed(b: Block, regions: seq<Region>) {
    exists i :: 0 <= i < |regions| && Aligned(b, regions[i])
  }

  ghost predicate Covered(m: multiset<Block>, a: int) {
    exists b :: b in m && Contains(b, a)
  }

  /** The blocks `m` exactly tile the regions. */
  ghost predicate Tiles(m: multiset<Block>, regions: seq<Region>) {
    && (forall b :: b in m ==> m[b] == 1)
    && (forall b, c :: b in m && c in m && b != c ==> Disjoint(b, c))
    && (forall b :: b in m ==> Homed(b, regions))
    && (forall i, a :: 0 <= i < |regions| && InRegion(regions[i], a) ==> Covered(m, a))
  }

  function Lower(b: Block): Block { Block(b.addr, b.size / 2) }

  function Upper(b: Block): Block { Block(b.addr + b.size / 2, b.size / 2) }

  lemma HalvesAligned(b: Block, r: Region)
    requires Aligned(b, r) && b.size % 2 == 0
    ensures Aligned(Lower(b), r) && Aligned(Upper(b), r)
  {
    var k: nat :| Placed(b, r, k);
    var h := b.size / 2;
    assert b.size == 2 * h;
    assert k * (2 * h) == (2 * k) * h;
    assert (2 * k + 1) * h == (2 * k) * h + h;
    assert Placed(Lower(b), r, 2 * k);
    assert Placed(Upper(b), r, 2 * k + 1);
  }

  lemma HalvesCover(b: Block, a: int)
    requires b.size % 2 == 0
    ensures Contains(b, a) <==> Contains(Lower(b), a) || Contains(Upper(b), a)
  {
  }

  /** Cutting one block in two keeps the tiling. */
  lemma SplitTiles(m: multiset<Block>, regions: seq<Region>, b: Block)
    requires Tiles(m, regions) && b in m && b.size % 2 == 0
    ensures Tiles(m - multiset{b} + multiset{Lower(b), Upper(b)}, regions)
  {
    var rest := m - multiset{b};
    var m' := rest + multiset{Lower(b), Upper(b)};
    assert b !in rest && b.size > 0;
    forall c | c in rest
      ensures Disjoint(c, Lower(b)) && Disjoint(c, Upper(b)) && c != Lower(b) && c != Upper(b)
    {
      assert c in m && Disjoint(b, c) && c.size > 0;
    }
    assert Lower(b) != Upper(b);
    var i :| 0 <= i < |regions| && Aligned(b, regions[i]);
    HalvesAligned(b, regions[i]);
    forall c | c in m'
      ensures Homed(c, regions)
    {
      if c in rest {
        assert c in m;
      }
    }
    forall j, a | 0 <= j < |regions| && InRegion(regions[j], a)
      ensures Covered(m', a)
    {
      assert Covered(m, a);
      var c :| c in m && Contains(c, a);
      HalvesCover(b, a);
      if c != b {
        assert c in m';
      } else if Contains(Lower(b), a) {
        assert Lower(b) in m';
      } else {
        assert Upper(b) in m';
      }
    }
  }

  /** The blocks of `size` bytes that fill `count * size` bytes from `base`. */
  function Cut(base: nat, size: nat, count: nat): (bs: seq<Block>)
    ensures |bs| == count
    ensures forall i :: 0 <= i < count ==> bs[i] == Block(base + i * size, size)
  {
    seq(count, i requires 0 <= i < count => Block(base + i * size, size))
  }

  lemma CutInside(base: nat, size: nat, count: nat, i: nat)
    requires size > 0 && i < count
    ensures Placed(Cut(base, size, count)[i], Region(base, count * size), i)
    ensures Aligned(Cut(base, size, count)[i], Region(base, count * size))
  {
    MulStep(i, count, size);
    assert Placed(Cut(base, size, count)[i], Region(base, count * size), i);
  }

  lemma CutDisjoint(base: nat, size: nat, count: nat, i: nat, j: nat)
    requires size > 0 && i < j < count
    ensures Disjoint(Cut(base, size, count)[i], Cut(base, size, count)[j])
    ensures Cut(base, size, count)[i] != Cut(base, size, count)[j]
  {
    MulStep(i, j, size);
  }

  lemma CutCovers(base: nat, size: nat, count: nat, a: int)
    requires size > 0 && InRegion(Region(base, count * size), a)
    ensures 0 <= (a - base) / size < count
    ensures Contains(Cut(base, size, count)[(a - base) / size], a)
  {
    var d := a - base;
    var q := d / size;
    assert d == q * size + d % size;
    assert (q + 1) * size == q * size + size;
    if q >= count {
      MulStep(count, q + 1, size);
    }
  }

  lemma AlignedInside(b: Block, r: Region)
    requires Aligned(b, r)
    ensures r.base <= b.addr && b.addr + b.size <= r.base + r.len && b.size > 0
  {
    var k: nat :| Placed(b, r, k);
    assert k * b.size >= 0;
  }

  lemma OldBlocksApart(m: multiset<Block>, regions: seq<Region>, r: Region, b: Block, c: Block)
    requires Tiles(m, regions) && b in m && Aligned(c, r)
    requires forall i :: 0 <= i < |regions| ==> Apart(regions[i], r)
    ensures Disjoint(b, c) && b != c
  {
    var i :| 0 <= i < |regions| && Aligned(b, regions[i]);
    AlignedInside(b, regions[i]);
    AlignedInside(c, r);
  }

  /** Blocks that are in neither multiset twice, nor in both, nor overlap. */
  lemma AddDisjoint(m: multiset<Block>, bs: seq<Block>)
    requires forall b :: b in m ==> m[b] == 1
    requires forall b, c :: b in m && c in m && b != c ==> Disjoint(b, c)
    requires forall i, j :: 0 <= i < j < |bs| ==> Disjoint(bs[i], bs[j]) && bs[i] != bs[j]
    requires forall b, i :: b in m && 0 <= i < |bs| ==> Disjoint(b, bs[i]) && b != bs[i]
    ensures forall b :: b in m + multiset(bs) ==> (m + multiset(bs))[b] == 1
    ensures forall b, c :: b in m + multiset(bs) && c in m + multiset(bs) && b != c ==> Disjoint(b, c)
  {
    forall i | 0 <= i < |bs| ensures multiset(bs)[bs[i]] == 1 && bs[i] !in m {
      DistinctOnce(bs, i);
    }
    forall b | b in m + multiset(bs) ensures (m + multiset(bs))[b] == 1 {
      assert b in m || b in bs;
    }
    forall b, c | b in m + multiset(bs) && c in m + multiset(bs) && b != c ensures Disjoint(b, c) {
      assert (b in m || b in bs) && (c in m || c in bs);
    }
  }

  /** A new region, cut into equal blocks, joins the tiling. */
  lemma AddTiles(m: multiset<Block>, regions: seq<Region>, base: nat, size: nat, count: nat)
    requires Tiles(m, regions) && size > 0
    requires forall i :: 0 <= i < |regions| ==> Apart(regions[i], Region(base, count * size))
    ensures Tiles(m + multiset(Cut(base, size, count)), regions + [Region(base, count * size)])
  {
    hide Placed, Aligned, Homed, Covered, Disjoint, InRegion;
    var bs := Cut(base, size, count);
    var r := Region(base, count * size);
    var rs := regions + [r];
    forall i, j | 0 <= i < j < count ensures Disjoint(bs[i], bs[j]) && bs[i] != bs[j] {
      CutDisjoint(base, size, count, i, j);
    }
    forall i | 0 <= i < count ensures Aligned(bs[i], r) {
      CutInside(base, size, count, i);
    }
    forall b, i | b in m && 0 <= i < count ensures Disjoint(b, bs[i]) && b != bs[i] {
      OldBlocksApart(m, regions, r, b, bs[i]);
    }
    AddDisjoint(m, bs);
    AddAligned(m, regions, bs, r);
    AddCovers(m, regions, base, size, count);
  }

  lemma AddAligned(m: multiset<Block>, regions: seq<Region>, bs: seq<Block>, r: Region)
    requires forall b :: b in m ==> Homed(b, regions)
    requires forall i :: 0 <= i < |bs| ==> Aligned(bs[i], r)
    ensures forall b :: b in m + multiset(bs) ==> Homed(b, regions + [r])
  {
    var rs := regions + [r];
    forall b | b in m + multiset(bs) ensures Homed(b, rs) {
      if b in m {
        var j :| 0 <= j < |regions| && Aligned(b, regions[j]);
        assert rs[j] == regions[j];
      } else {
        assert b in bs;
        assert rs[|regions|] == r;
      }
    }
  }

  lemma AddCovers(m: multiset<Block>, regions: seq<Region>, base: nat, size: nat, count: nat)
    requires Tiles(m, regions) && size > 0
    ensures var rs := regions + [Region(base, count * size)];
            forall i, a :: 0 <= i < |rs| && InRegion(rs[i], a) ==> Covered(m + multiset(Cut(base, size, count)), a)
  {
    var bs := Cut(base, size, count);
    var m', rs := m + multiset(bs), regions + [Region(base, count * size)];
    forall i, a | 0 <= i < |rs| && InRegion(rs[i], a)
      ensures Covered(m', a)
    {
      if i < |regions| {
        assert rs[i] == regions[i];
        assert Covered(m, a);
        var b :| b in m && Contains(b, a);
        assert b in m';
      } else {
        CutCovers(base, size, count, a);
        assert bs[(a - base) / size] in m';
      }
    }
  }
}
