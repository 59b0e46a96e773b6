/** The hugepage allocator: one freelist per power-of-two size class, split lazily. */
module HugeAlloc {
  import opened Bits
  import opened Buffers
  import opened Tiling

  const MIN_CLASS_SIZE: nat := 64
  const NUM_CLASSES: nat := 18
  const MAX_CLASS_SIZE: nat := 0x80_0000

  /** `class_max_size` */
  function ClassMaxSize(c: nat): (s: nat)
    ensures s >= MIN_CLASS_SIZE
  {
    MulMonotone(MIN_CLASS_SIZE, 1, Pow2(c));
    MIN_CLASS_SIZE * Pow2(c)
  }

  lemma MaxClass()
    ensures ClassMaxSize(NUM_CLASSES - 1) == MAX_CLASS_SIZE
  {
    assert Pow2(5) == 32;
    Pow2Add(5, 5);
    assert Pow2(7) == 128;
    Pow2Add(10, 7);
  }

  /** `get_class`: the bit trick. */
  function GetClass(size: nat): (c: nat)
    requires 1 <= size <= MAX_CLASS_SIZE
  {
    MsbIndex((size - 1) / MIN_CLASS_SIZE)
  }

  lemma ClassGrows(a: nat, b: nat)
    requires a < b
    ensures ClassMaxSize(a) < ClassMaxSize(b)
  {
    Pow2Monotone(a, b);
  }

  /** The fast class is the least one that is large enough, and there is one. */
  lemma GetClassIsLeast(size: nat)
    requires 1 <= size <= MAX_CLASS_SIZE
    ensures GetClass(size) < NUM_CLASSES
    ensures forall c: nat :: size <= ClassMaxSize(c) <==> GetClass(size) <= c
  {
    var x := (size - 1) / MIN_CLASS_SIZE;
    var g := GetClass(size);
    MsbIndexBounds(x);
    assert size <= ClassMaxSize(g);
    assert g > 0 ==> ClassMaxSize(g - 1) < size;
    forall c: nat
      ensures size <= ClassMaxSize(c) <==> g <= c
    {
      if g < c {
        ClassGrows(g, c);
      } else if c < g - 1 {
        ClassGrows(c, g - 1);
      }
    }
    MaxClass();
  }

  /** `get_class` gives back the class a class size came from. */
  lemma GetClassInverts(c: nat)
    requires c < NUM_CLASSES
    ensures 1 <= ClassMaxSize(c) <= MAX_CLASS_SIZE
    ensures GetClass(ClassMaxSize(c)) == c
  {
    MaxClass();
    if c < NUM_CLASSES - 1 {
      ClassGrows(c, NUM_CLASSES - 1);
    }
    GetClassIsLeast(ClassMaxSize(c));
    var g := GetClass(ClassMaxSize(c));
    if g < c {
      ClassGrows(g, c);
    }
  }

  /** `get_class_slow`: the reference loop, which agrees with the bit trick on every size. */
  method GetClassSlow(size: nat) returns (sizeClass: nat)
    requires 1 <= size <= MAX_CLASS_SIZE
    ensures sizeClass == GetClass(size)
  {
    GetClassIsLeast(size);
    sizeClass := 0;
    var classLim := MIN_CLASS_SIZE;
    while size > classLim
      invariant classLim == ClassMaxSize(sizeClass) && sizeClass <= GetClass(size)
      decreases GetClass(size) - sizeClass
    {
      assert size > ClassMaxSize(sizeClass);
      sizeClass := sizeClass + 1;
      classLim := classLim * 2;
    }
  }

  // ---------- what the freelists hold ----------

  function BlockOf(b: Buffer): Block { Block(b.buf, b.classSize) }

  function BlocksOf(bs: seq<Buffer>): (r: seq<Block>)
    ensures |r| == |bs|
  {
    seq(|bs|, i requires 0 <= i < |bs| => BlockOf(bs[i]))
  }

  function Bytes(bs: seq<Block>): nat {
    if bs == [] then 0 else Bytes(bs[..|bs| - 1]) + bs[|bs| - 1].size
  }

  function RegionBytes(rs: seq<Region>): nat {
    if rs == [] then 0 else RegionBytes(rs[..|rs| - 1]) + rs[|rs| - 1].len
  }

  ghost function FreeBlocks(fl: seq<seq<Buffer>>): multiset<Block> {
    if fl == [] then multiset{} else FreeBlocks(fl[..|fl| - 1]) + multiset(BlocksOf(fl[|fl| - 1]))
  }

  ghost function FreeBytes(fl: seq<seq<Buffer>>): nat {
    if fl == [] then 0 else FreeBytes(fl[..|fl| - 1]) + Bytes(BlocksOf(fl[|fl| - 1]))
  }

  lemma {:induction false} UpdateBlocks(fl: seq<seq<Buffer>>, c: nat, xs: seq<Buffer>)
    requires c < |fl|
    ensures FreeBlocks(fl[c := xs]) + multiset(BlocksOf(fl[c])) == FreeBlocks(fl) + multiset(BlocksOf(xs))
    decreases |fl|
  {
    hide BlocksOf;
    var n := |fl| - 1;
    if c < n {
      UpdateBlocks(fl[..n], c, xs);
      assert fl[c := xs][..n] == fl[..n][c := xs];
      AddBoth(FreeBlocks(fl[..n][c := xs]), multiset(BlocksOf(fl[c])), FreeBlocks(fl[..n]), multiset(BlocksOf(xs)),
              multiset(BlocksOf(fl[n])));
    } else {
      assert fl[c := xs][..n] == fl[..n];
    }
  }

  lemma {:induction false} UpdateBytes(fl: seq<seq<Buffer>>, c: nat, xs: seq<Buffer>)
    requires c < |fl|
    ensures FreeBytes(fl[c := xs]) + Bytes(BlocksOf(fl[c])) == FreeBytes(fl) + Bytes(BlocksOf(xs))
    decreases |fl|
  {
    hide Bytes, BlocksOf;
    var n := |fl| - 1;
    if c < n {
      UpdateBytes(fl[..n], c, xs);
      assert fl[c := xs][..n] == fl[..n][c := xs];
    } else {
      assert fl[c := xs][..n] == fl[..n];
    }
  }

  lemma AddBoth(a: multiset<Block>, x: multiset<Block>, b: multiset<Block>, y: multiset<Block>, m: multiset<Block>)
    requires a + x == b + y
    ensures (a + m) + x == (b + m) + y
  {
    forall e
      ensures ((a + m) + x)[e] == ((b + m) + y)[e]
    {
      assert (a + x)[e] == (b + y)[e];
    }
  }

  lemma CancelPop(before: multiset<Block>, after: multiset<Block>, init: multiset<Block>, b: Block)
    requires after + (init + multiset{b}) == before + init
    ensures before == after + multiset{b}
  {
    forall x
      ensures before[x] == (after + multiset{b})[x]
    {
      assert (after + (init + multiset{b}))[x] == (before + init)[x];
    }
  }

  lemma BlocksPush(bs: seq<Buffer>, b: Buffer)
    ensures BlocksOf(bs + [b]) == BlocksOf(bs) + [BlockOf(b)]
    ensures Bytes(BlocksOf(bs + [b])) == Bytes(BlocksOf(bs)) + b.classSize
  {
    BytesPush(BlocksOf(bs), BlockOf(b));
    assert BlocksOf(bs + [b]) == BlocksOf(bs) + [BlockOf(b)];
  }

  lemma BytesPush(bs: seq<Block>, b: Block)
    ensures Bytes(bs + [b]) == Bytes(bs) + b.size
  {
    assert (bs + [b])[..|bs|] == bs;
  }

  lemma {:induction false} BytesConcat(a: seq<Block>, b: seq<Block>)
    ensures Bytes(a + b) == Bytes(a) + Bytes(b)
    decreases |b|
  {
    if b == [] {
      assert a + b == a;
    } else {
      var n := |b| - 1;
      BytesConcat(a, b[..n]);
      assert (a + b)[..|a + b| - 1] == a + b[..n];
    }
  }

  // ---------- soundness ----------

  ghost predicate ClassSizes(fl: seq<seq<Buffer>>) {
    && |fl| == NUM_CLASSES
    && forall c, i :: 0 <= c < |fl| && 0 <= i < |fl[c]| ==> fl[c][i].classSize == ClassMaxSize(c)
  }

  ghost predicate IsClassSize(size: nat) {
    exists c: nat :: c < NUM_CLASSES && size == ClassMaxSize(c)
  }

  /**
   The free blocks and the blocks handed out are disjoint and exactly tile the regions added, each
   at a multiple of its size; the statistic counts what is handed out; no byte is lost.
  */
  ghost predicate Sound(fl: seq<seq<Buffer>>, tot: int, alloc: seq<Block>, regions: seq<Region>) {
    && ClassSizes(fl)
    && (forall i :: 0 <= i < |alloc| ==> IsClassSize(alloc[i].size))
    && Tiles(FreeBlocks(fl) + multiset(alloc), regions)
    && tot == Bytes(alloc)
    && FreeBytes(fl) + Bytes(alloc) == RegionBytes(regions)
  }

  /** Take the last buffer of a class. */
  function Pop(fl: seq<seq<Buffer>>, c: nat): seq<seq<Buffer>>
    requires c < |fl| && fl[c] != []
  {
    fl[c := fl[c][..|fl[c]| - 1]]
  }

  function Push(fl: seq<seq<Buffer>>, c: nat, b: Buffer): seq<seq<Buffer>>
    requires c < |fl|
  {
    fl[c := fl[c] + [b]]
  }

  function Last(bs: seq<Buffer>): Buffer
    requires bs != []
  {
    bs[|bs| - 1]
  }

  lemma PopMoves(fl: seq<seq<Buffer>>, c: nat)
    requires c < |fl| && fl[c] != []
    ensures FreeBlocks(fl) == FreeBlocks(Pop(fl, c)) + multiset{BlockOf(Last(fl[c]))}
    ensures FreeBytes(fl) == FreeBytes(Pop(fl, c)) + Last(fl[c]).classSize
  {
    hide FreeBlocks, FreeBytes, Bytes, BlocksOf;
    var init := fl[c][..|fl[c]| - 1];
    assert fl[c] == init + [Last(fl[c])];
    UpdateBlocks(fl, c, init);
    UpdateBytes(fl, c, init);
    BlocksPush(init, Last(fl[c]));
    CancelPop(FreeBlocks(fl), FreeBlocks(Pop(fl, c)), multiset(BlocksOf(init)), BlockOf(Last(fl[c])));
  }

  lemma PushMoves(fl: seq<seq<Buffer>>, c: nat, b: Buffer)
    requires c < |fl|
    ensures FreeBlocks(Push(fl, c, b)) == FreeBlocks(fl) + multiset{BlockOf(b)}
    ensures FreeBytes(Push(fl, c, b)) == FreeBytes(fl) + b.classSize
  {
    hide FreeBlocks, FreeBytes, Bytes, BlocksOf;
    UpdateBlocks(fl, c, fl[c] + [b]);
    UpdateBytes(fl, c, fl[c] + [b]);
    BlocksPush(fl[c], b);
    CancelPop(FreeBlocks(Push(fl, c, b)), FreeBlocks(fl), multiset(BlocksOf(fl[c])), BlockOf(b));
  }

  lemma LastOfClass(fl: seq<seq<Buffer>>, c: nat)
    requires ClassSizes(fl) && c < |fl| && fl[c] != []
    ensures Last(fl[c]).classSize == ClassMaxSize(c) && IsClassSize(Last(fl[c]).classSize)
  {
  }

  lemma SoundSizes(fl: seq<seq<Buffer>>, tot: int, alloc: seq<Block>, regions: seq<Region>)
    requires Sound(fl, tot, alloc, regions)
    ensures ClassSizes(fl)
  {
  }

  lemma PopSound(fl: seq<seq<Buffer>>, tot: int, alloc: seq<Block>, regions: seq<Region>, c: nat)
    requires Sound(fl, tot, alloc, regions) && c < |fl| && fl[c] != []
    ensures Sound(Pop(fl, c), tot + Last(fl[c]).classSize, alloc + [BlockOf(Last(fl[c]))], regions)
  {
    var b := BlockOf(Last(fl[c]));
    LastOfClass(fl, c);
    hide Tiles, Bytes, FreeBlocks, FreeBytes, IsClassSize, ClassMaxSize, RegionBytes;
    PopMoves(fl, c);
    BytesPush(alloc, b);
    assert FreeBlocks(Pop(fl, c)) + multiset(alloc + [b]) == FreeBlocks(fl) + multiset(alloc);
  }

  /** `alloc` without its `i`-th block. */
  function Without(alloc: seq<Block>, i: nat): seq<Block>
    requires i < |alloc|
  {
    alloc[..i] + alloc[i + 1..]
  }

  lemma WithoutBlocks(alloc: seq<Block>, i: nat)
    requires i < |alloc|
    ensures multiset(alloc) == multiset(Without(alloc, i)) + multiset{alloc[i]}
  {
    assert alloc == (alloc[..i] + [alloc[i]]) + alloc[i + 1..];
  }

  lemma WithoutBytes(alloc: seq<Block>, i: nat)
    requires i < |alloc|
    ensures Bytes(alloc) == Bytes(Without(alloc, i)) + alloc[i].size
  {
    hide Bytes;
    assert alloc == (alloc[..i] + [alloc[i]]) + alloc[i + 1..];
    BytesConcat(alloc[..i] + [alloc[i]], alloc[i + 1..]);
    BytesPush(alloc[..i], alloc[i]);
    BytesConcat(alloc[..i], alloc[i + 1..]);
  }

  lemma PushSound(fl: seq<seq<Buffer>>, tot: int, alloc: seq<Block>, regions: seq<Region>, c: nat, b: Buffer, i: nat)
    requires Sound(fl, tot, alloc, regions) && c < |fl| && b.classSize == ClassMaxSize(c)
    requires i < |alloc| && alloc[i] == BlockOf(b)
    ensures Sound(Push(fl, c, b), tot - b.classSize, Without(alloc, i), regions)
  {
    hide Tiles, Bytes, FreeBlocks, FreeBytes, IsClassSize, ClassMaxSize, RegionBytes;
    PushMoves(fl, c, b);
    WithoutBlocks(alloc, i);
    WithoutBytes(alloc, i);
    assert FreeBlocks(Push(fl, c, b)) + multiset(Without(alloc, i)) == FreeBlocks(fl) + multiset(alloc);
  }

  lemma ClassOfSize(size: nat)
    requires IsClassSize(size)
    ensures 1 <= size <= MAX_CLASS_SIZE && GetClass(size) < NUM_CLASSES && ClassMaxSize(GetClass(size)) == size
  {
    hide ClassMaxSize, GetClass;
    var c: nat :| c < NUM_CLASSES && size == ClassMaxSize(c);
    GetClassInverts(c);
  }

  /** A buffer that is given back without being out breaks the statistic. */
  lemma FreedTwice(fl: seq<seq<Buffer>>, tot: int, alloc: seq<Block>, regions: seq<Region>,
                   size: nat, fl': seq<seq<Buffer>>)
    requires Sound(fl, tot, alloc, regions) && size > 0
    ensures !Sound(fl', tot - size, alloc, regions)
  {
  }

  /** A class-`c` buffer replaced by its two halves in the class below. */
  function SplitLists(fl: seq<seq<Buffer>>, c: nat, b0: Buffer, b1: Buffer): seq<seq<Buffer>>
    requires 0 < c < |fl| && fl[c] != []
  {
    Push(Push(Pop(fl, c), c - 1, b0), c - 1, b1)
  }

  lemma SplitMoves(fl: seq<seq<Buffer>>, c: nat, b0: Buffer, b1: Buffer)
    requires 0 < c < |fl| && fl[c] != []
    ensures FreeBlocks(SplitLists(fl, c, b0, b1)) + multiset{BlockOf(Last(fl[c]))}
         == FreeBlocks(fl) + multiset{BlockOf(b0), BlockOf(b1)}
    ensures FreeBytes(SplitLists(fl, c, b0, b1)) + Last(fl[c]).classSize == FreeBytes(fl) + b0.classSize + b1.classSize
  {
    hide FreeBlocks, FreeBytes;
    PopMoves(fl, c);
    PushMoves(Pop(fl, c), c - 1, b0);
    PushMoves(Push(Pop(fl, c), c - 1, b0), c - 1, b1);
    hide Push, Pop, Last, BlockOf;
    Regroup(FreeBlocks(Pop(fl, c)), BlockOf(Last(fl[c])), BlockOf(b0), BlockOf(b1));
  }

  lemma Regroup(m: multiset<Block>, x: Block, y: Block, z: Block)
    ensures m + multiset{y} + multiset{z} + multiset{x} == m + multiset{x} + multiset{y, z}
  {
  }

  lemma SplitClassSizes(fl: seq<seq<Buffer>>, c: nat, b0: Buffer, b1: Buffer)
    requires ClassSizes(fl) && 0 < c < |fl| && fl[c] != []
    requires b0.classSize == b1.classSize == Last(fl[c]).classSize / 2
    ensures ClassSizes(SplitLists(fl, c, b0, b1))
    ensures Last(fl[c]).classSize == 2 * b0.classSize
  {
    hide ClassMaxSize;
    ClassDoubles(c);
  }

  lemma ClassDoubles(c: nat)
    requires c > 0
    ensures ClassMaxSize(c) == 2 * ClassMaxSize(c - 1)
  {
  }

  lemma SplitSound(fl: seq<seq<Buffer>>, tot: int, alloc: seq<Block>, regions: seq<Region>,
                   c: nat, b0: Buffer, b1: Buffer)
    requires Sound(fl, tot, alloc, regions) && 0 < c < |fl| && fl[c] != []
    requires BlockOf(b0) == Lower(BlockOf(Last(fl[c]))) && BlockOf(b1) == Upper(BlockOf(Last(fl[c])))
    ensures Sound(SplitLists(fl, c, b0, b1), tot, alloc, regions)
  {
    hide Tiles, Bytes, FreeBlocks, FreeBytes, IsClassSize, ClassSizes, RegionBytes, SplitLists;
    var b := BlockOf(Last(fl[c]));
    SplitMoves(fl, c, b0, b1);
    SplitClassSizes(fl, c, b0, b1);
    var m := FreeBlocks(fl) + multiset(alloc);
    FreeIn(fl, c, |fl[c]| - 1);
    SplitTiles(m, regions, b);
    SplitBlocks(FreeBlocks(fl), FreeBlocks(SplitLists(fl, c, b0, b1)), multiset(alloc), b);
  }

  lemma SplitBlocks(before: multiset<Block>, after: multiset<Block>, alloc: multiset<Block>, b: Block)
    requires b in before && after + multiset{b} == before + multiset{Lower(b), Upper(b)}
    ensures after + alloc == before + alloc - multiset{b} + multiset{Lower(b), Upper(b)}
  {
    forall x
      ensures (after + alloc)[x] == (before + alloc - multiset{b} + multiset{Lower(b), Upper(b)})[x]
    {
      assert (after + multiset{b})[x] == (before + multiset{Lower(b), Upper(b)})[x];
    }
  }

  lemma {:induction false} FreeIn(fl: seq<seq<Buffer>>, c: nat, i: nat)
    requires c < |fl| && i < |fl[c]|
    ensures BlockOf(fl[c][i]) in FreeBlocks(fl)
    decreases |fl|
  {
    if c < |fl| - 1 {
      FreeIn(fl[..|fl| - 1], c, i);
    } else {
      assert BlocksOf(fl[c])[i] in multiset(BlocksOf(fl[c]));
    }
  }

  lemma {:induction false} CutBytes(base: nat, size: nat, count: nat)
    ensures Bytes(Cut(base, size, count)) == count * size
    decreases count
  {
    if count == 0 {
    } else {
      CutBytes(base, size, count - 1);
      assert Cut(base, size, count)[..count - 1] == Cut(base, size, count - 1);
      assert count * size == (count - 1) * size + size;
    }
  }

  lemma BlocksConcat(a: seq<Buffer>, b: seq<Buffer>)
    ensures BlocksOf(a + b) == BlocksOf(a) + BlocksOf(b)
  {
  }

  lemma AddMoves(fl: seq<seq<Buffer>>, c: nat, bs: seq<Buffer>)
    requires c < |fl|
    ensures FreeBlocks(fl[c := fl[c] + bs]) == FreeBlocks(fl) + multiset(BlocksOf(bs))
    ensures FreeBytes(fl[c := fl[c] + bs]) == FreeBytes(fl) + Bytes(BlocksOf(bs))
  {
    hide FreeBlocks, FreeBytes, Bytes, BlocksOf;
    UpdateBlocks(fl, c, fl[c] + bs);
    UpdateBytes(fl, c, fl[c] + bs);
    BlocksConcat(fl[c], bs);
    BytesConcat(BlocksOf(fl[c]), BlocksOf(bs));
    var x, y := multiset(BlocksOf(fl[c])), multiset(BlocksOf(bs));
    var before, after := FreeBlocks(fl), FreeBlocks(fl[c := fl[c] + bs]);
    forall e
      ensures after[e] == (before + y)[e]
    {
      assert (after + x)[e] == (before + (x + y))[e];
    }
  }

  /** A new region cut into maximal buffers. */
  lemma AddSound(fl: seq<seq<Buffer>>, tot: int, alloc: seq<Block>, regions: seq<Region>,
                 base: nat, count: nat, bs: seq<Buffer>)
    requires Sound(fl, tot, alloc, regions) && BlocksOf(bs) == Cut(base, MAX_CLASS_SIZE, count)
    requires forall i :: 0 <= i < |regions| ==> Apart(regions[i], Region(base, count * MAX_CLASS_SIZE))
    ensures var c := NUM_CLASSES - 1;
            Sound(fl[c := fl[c] + bs], tot, alloc, regions + [Region(base, count * MAX_CLASS_SIZE)])
  {
    hide Tiles, Bytes, FreeBlocks, FreeBytes, IsClassSize, ClassMaxSize, RegionBytes, BlocksOf, Cut;
    var c := NUM_CLASSES - 1;
    AddMoves(fl, c, bs);
    AddTiles(FreeBlocks(fl) + multiset(alloc), regions, base, MAX_CLASS_SIZE, count);
    CutBytes(base, MAX_CLASS_SIZE, count);
    AddRegionBytes(regions, Region(base, count * MAX_CLASS_SIZE));
    AddClassSizes(fl, bs, base, count);
    assert FreeBlocks(fl[c := fl[c] + bs]) + multiset(alloc)
        == FreeBlocks(fl) + multiset(alloc) + multiset(Cut(base, MAX_CLASS_SIZE, count));
  }

  lemma WholeSound(fl: seq<seq<Buffer>>, tot: int, alloc: seq<Block>, regions: seq<Region>,
                   base: nat, count: nat, bs: seq<Buffer>)
    requires BlocksOf(bs) == Cut(base, MAX_CLASS_SIZE, count) && |fl| == NUM_CLASSES
    ensures var r, c := Region(base, count * MAX_CLASS_SIZE), NUM_CLASSES - 1;
            Sound(fl, tot, alloc, regions) && (forall i :: 0 <= i < |regions| ==> Apart(regions[i], r))
            ==> Sound(fl[c := fl[c] + bs], tot, alloc, regions + [r])
  {
    hide Sound;
    var r := Region(base, count * MAX_CLASS_SIZE);
    if Sound(fl, tot, alloc, regions) && forall i :: 0 <= i < |regions| ==> Apart(regions[i], r) {
      AddSound(fl, tot, alloc, regions, base, count, bs);
    }
  }

  lemma AddRegionBytes(regions: seq<Region>, r: Region)
    ensures RegionBytes(regions + [r]) == RegionBytes(regions) + r.len
  {
    assert (regions + [r])[..|regions|] == regions;
  }

  lemma AddClassSizes(fl: seq<seq<Buffer>>, bs: seq<Buffer>, base: nat, count: nat)
    requires ClassSizes(fl) && BlocksOf(bs) == Cut(base, MAX_CLASS_SIZE, count)
    ensures var c := NUM_CLASSES - 1; ClassSizes(fl[c := fl[c] + bs])
  {
    hide ClassMaxSize;
    MaxClass();
    forall i | 0 <= i < |bs|
      ensures bs[i].classSize == MAX_CLASS_SIZE
    {
      assert BlocksOf(bs)[i] == Cut(base, MAX_CLASS_SIZE, count)[i];
    }
  }

  lemma CountedTwice(alloc: seq<Block>, i: nat, j: nat)
    requires i < j < |alloc| && alloc[i] == alloc[j]
    ensures multiset(alloc)[alloc[i]] >= 2
  {
    assert alloc == alloc[..j] + alloc[j..];
    assert alloc[i] in alloc[..j] && alloc[j] in alloc[j..];
  }

  /** Two blocks that are out at the same time do not overlap, and lie in regions that were added. */
  lemma HandedOutDisjoint(fl: seq<seq<Buffer>>, tot: int, alloc: seq<Block>, regions: seq<Region>, i: nat, j: nat)
    requires Sound(fl, tot, alloc, regions) && i < j < |alloc|
    ensures Disjoint(alloc[i], alloc[j]) && Homed(alloc[i], regions) && Homed(alloc[j], regions)
  {
    hide FreeBlocks, FreeBytes, Bytes, RegionBytes, ClassSizes, IsClassSize, Disjoint, Homed;
    var m := FreeBlocks(fl) + multiset(alloc);
    assert alloc[i] in m && alloc[j] in m;
    if alloc[i] == alloc[j] {
      CountedTwice(alloc, i, j);
      assert false;
    }
  }

  // ---------- the allocator ----------

  /** Every class from `c` on is empty. */
  ghost predicate EmptyFrom(fl: seq<seq<Buffer>>, c: nat) {
    forall k :: c <= k < |fl| ==> fl[k] == []
  }

  /** `f` is the first class from `c` on that holds a buffer. */
  ghost predicate FirstFrom(fl: seq<seq<Buffer>>, c: nat, f: nat) {
    c <= f < |fl| && fl[f] != [] && forall k :: c <= k < f ==> fl[k] == []
  }

  /** A buffer as it is filed: its memory and the key to it. */
  datatype Filed = Filed(block: Block, lkey: nat)

  function FiledOf(bs: seq<Buffer>): (r: seq<Filed>)
    ensures |r| == |bs|
  {
    seq(|bs|, i requires 0 <= i < |bs| => Filed(BlockOf(bs[i]), bs[i].lkey))
  }

  function ListsOf(fl: seq<seq<Buffer>>): (r: seq<seq<Filed>>)
    ensures |r| == |fl|
  {
    seq(|fl|, c requires 0 <= c < |fl| => FiledOf(fl[c]))
  }

  /** The maximal blocks of a region, with its key. */
  function CutFiled(buf: nat, count: nat, lkey: nat): (r: seq<Filed>)
    ensures |r| == count
  {
    seq(count, i requires 0 <= i < count => Filed(Cut(buf, MAX_CLASS_SIZE, count)[i], lkey))
  }

  /**
   The freelists after a region was added: its whole maximal blocks in the largest class, and for
   what is left over a buffer that starts where the region starts and whose size is its class. All
   carry the key of the region.
  */
  function Added(lists: seq<seq<Filed>>, buf: nat, lkey: nat, size: nat): seq<seq<Filed>>
    requires |lists| == NUM_CLASSES
  {
    var top, left := NUM_CLASSES - 1, size % MAX_CLASS_SIZE;
    var whole := lists[top := lists[top] + CutFiled(buf, size / MAX_CLASS_SIZE, lkey)];
    if left == 0 then whole
    else
      var c := GetClass(left);
      if c < NUM_CLASSES then whole[c := whole[c] + [Filed(Block(buf, c), lkey)]] else whole
  }

  lemma AddedInSteps(lists: seq<seq<Filed>>, buf: nat, lkey: nat, size: nat)
    requires |lists| == NUM_CLASSES
    ensures var top, left := NUM_CLASSES - 1, size % MAX_CLASS_SIZE;
            var whole := lists[top := lists[top] + CutFiled(buf, size / MAX_CLASS_SIZE, lkey)];
            Added(whole, buf, lkey, left) == Added(lists, buf, lkey, size) && (size < MAX_CLASS_SIZE ==> whole == lists)
  {
    hide GetClass;
    var top, left := NUM_CLASSES - 1, size % MAX_CLASS_SIZE;
    var whole := lists[top := lists[top] + CutFiled(buf, size / MAX_CLASS_SIZE, lkey)];
    assert CutFiled(buf, left / MAX_CLASS_SIZE, lkey) == [];
    assert whole[top] + [] == whole[top];
    assert whole[top := whole[top]] == whole;
    if size < MAX_CLASS_SIZE {
      assert CutFiled(buf, size / MAX_CLASS_SIZE, lkey) == [];
      assert lists[top] + [] == lists[top];
      assert whole == lists;
    }
  }

  lemma ListsPush(fl: seq<seq<Buffer>>, c: nat, bs: seq<Buffer>)
    requires c < |fl|
    ensures ListsOf(fl[c := fl[c] + bs]) == ListsOf(fl)[c := ListsOf(fl)[c] + FiledOf(bs)]
  {
    assert FiledOf(fl[c] + bs) == FiledOf(fl[c]) + FiledOf(bs);
  }

  // ---------- keys ----------

  ghost predicate Within(b: Block, r: Region) {
    r.base <= b.addr && b.addr + b.size <= r.base + r.len
  }

  /** The buffer lies in a region and carries its key. */
  ghost predicate HasKey(b: Buffer, regions: seq<Region>, keys: seq<nat>) {
    exists i :: 0 <= i < |regions| && i < |keys| && Within(BlockOf(b), regions[i]) && b.lkey == keys[i]
  }

  /** Every free buffer carries the key of the region it lies in. */
  ghost predicate AllKeyed(fl: seq<seq<Buffer>>, regions: seq<Region>, keys: seq<nat>) {
    |keys| == |regions| && forall c, i :: 0 <= c < |fl| && 0 <= i < |fl[c]| ==> HasKey(fl[c][i], regions, keys)
  }

  lemma PopKeyed(fl: seq<seq<Buffer>>, c: nat, regions: seq<Region>, keys: seq<nat>)
    requires AllKeyed(fl, regions, keys) && c < |fl| && fl[c] != []
    ensures AllKeyed(Pop(fl, c), regions, keys) && HasKey(Last(fl[c]), regions, keys)
  {
    hide HasKey;
  }

  lemma PushKeyed(fl: seq<seq<Buffer>>, c: nat, b: Buffer, regions: seq<Region>, keys: seq<nat>)
    requires AllKeyed(fl, regions, keys) && c < |fl| && HasKey(b, regions, keys)
    ensures AllKeyed(Push(fl, c, b), regions, keys)
  {
    hide HasKey;
  }

  lemma SplitKeyed(fl: seq<seq<Buffer>>, c: nat, b0: Buffer, b1: Buffer, regions: seq<Region>, keys: seq<nat>)
    requires AllKeyed(fl, regions, keys) && 0 < c < |fl| && fl[c] != []
    requires BlockOf(b0) == Lower(BlockOf(Last(fl[c]))) && BlockOf(b1) == Upper(BlockOf(Last(fl[c])))
    requires b0.lkey == b1.lkey == Last(fl[c]).lkey
    ensures AllKeyed(SplitLists(fl, c, b0, b1), regions, keys)
  {
    PopKeyed(fl, c, regions, keys);
    var b := Last(fl[c]);
    var i :| 0 <= i < |regions| && i < |keys| && Within(BlockOf(b), regions[i]) && b.lkey == keys[i];
    assert Within(BlockOf(b0), regions[i]) && Within(BlockOf(b1), regions[i]);
    hide HasKey;
    PushKeyed(Pop(fl, c), c - 1, b0, regions, keys);
    PushKeyed(Push(Pop(fl, c), c - 1, b0), c - 1, b1, regions, keys);
  }

  lemma AddKeyed(fl: seq<seq<Buffer>>, regions: seq<Region>, keys: seq<nat>,
                 base: nat, count: nat, lkey: nat, bs: seq<Buffer>)
    requires AllKeyed(fl, regions, keys) && |fl| == NUM_CLASSES && FiledOf(bs) == CutFiled(base, count, lkey)
    ensures var c := NUM_CLASSES - 1;
            AllKeyed(fl[c := fl[c] + bs], regions + [Region(base, count * MAX_CLASS_SIZE)], keys + [lkey])
  {
    var r := Region(base, count * MAX_CLASS_SIZE);
    var rs, ks := regions + [r], keys + [lkey];
    forall c, i | 0 <= c < |fl| && 0 <= i < |fl[c]|
      ensures HasKey(fl[c][i], rs, ks)
    {
      var j :| 0 <= j < |regions| && j < |keys| && Within(BlockOf(fl[c][i]), regions[j]) && fl[c][i].lkey == keys[j];
      assert rs[j] == regions[j] && ks[j] == keys[j];
    }
    forall i | 0 <= i < |bs|
      ensures HasKey(bs[i], rs, ks)
    {
      assert FiledOf(bs)[i] == CutFiled(base, count, lkey)[i];
      CutInside(base, MAX_CLASS_SIZE, count, i);
      AlignedInside(BlockOf(bs[i]), r);
      assert rs[|regions|] == r && ks[|regions|] == lkey;
    }
  }

  /** Two buffers that end at the same address, with the same key. */
  predicate EndsWith(b: Buffer, whole: Buffer) {
    b.buf + b.classSize == whole.buf + whole.classSize && b.lkey == whole.lkey
  }

  class HugeAllocator {
    const freelist: array<seq<Buffer>>
    var userAllocTot: int
    ghost var handedOut: seq<Block>
    ghost var regions: seq<Region>
    ghost var keys: seq<nat>

    ghost predicate Valid()
      reads this`userAllocTot, this`handedOut, this`regions, freelist
    {
      freelist.Length == NUM_CLASSES && Sound(freelist[..], userAllocTot, handedOut, regions)
    }

    ghost predicate Keyed()
      reads this`regions, this`keys, freelist
    {
      AllKeyed(freelist[..], regions, keys)
    }

    constructor ()
      ensures Valid() && Keyed() && fresh(freelist) && handedOut == [] && regions == [] && keys == []
    {
      freelist := new seq<Buffer>[NUM_CLASSES](_ => []);
      userAllocTot, handedOut, regions, keys := 0, [], [], [];
      new;
      NoBlocks(freelist[..]);
    }

    /** Splits the last buffer of a class into two of the class below, which must be empty. */
    method Split(sizeClass: nat)
      requires Valid() && 1 <= sizeClass < NUM_CLASSES
      requires freelist[sizeClass] != [] && freelist[sizeClass - 1] == []
      modifies freelist
      ensures Valid() && |freelist[sizeClass - 1]| == 2
      ensures var b := Last(old(freelist[sizeClass]));
        && BlockOf(freelist[sizeClass - 1][0]) == Lower(BlockOf(b)) && freelist[sizeClass - 1][0].lkey == b.lkey
        && BlockOf(freelist[sizeClass - 1][1]) == Upper(BlockOf(b)) && freelist[sizeClass - 1][1].lkey == b.lkey
      ensures freelist[..] == Pop(old(freelist[..]), sizeClass)[sizeClass - 1 := freelist[sizeClass - 1]]
      ensures EndsWith(freelist[sizeClass - 1][1], Last(old(freelist[sizeClass])))
      ensures old(Keyed()) ==> Keyed()
    {
      hide AllKeyed;
      ghost var fl := freelist[..];
      var buffer := freelist[sizeClass][|freelist[sizeClass]| - 1];
      freelist[sizeClass] := freelist[sizeClass][..|freelist[sizeClass]| - 1];
      assert buffer.classSize == ClassMaxSize(sizeClass);
      var buffer0 := new Buffer(buffer.buf, buffer.classSize / 2, buffer.lkey);
      var buffer1 := new Buffer(buffer.buf + buffer.classSize / 2, buffer.classSize / 2, buffer.lkey);
      freelist[sizeClass - 1] := freelist[sizeClass - 1] + [buffer0];
      freelist[sizeClass - 1] := freelist[sizeClass - 1] + [buffer1];
      SplitSound(fl, userAllocTot, handedOut, regions, sizeClass, buffer0, buffer1);
      assert freelist[..] == SplitLists(fl, sizeClass, buffer0, buffer1);
      if AllKeyed(fl, regions, keys) {
        SplitKeyed(fl, sizeClass, buffer0, buffer1, regions, keys);
      }
      SplitClassSizes(fl, sizeClass, buffer0, buffer1);
    }

    method AllocFromClass(sizeClass: nat) returns (buffer: Buffer)
      requires Valid() && sizeClass < NUM_CLASSES && freelist[sizeClass] != []
      modifies freelist, this`userAllocTot, this`handedOut
      ensures Valid() && buffer == Last(old(freelist[sizeClass])) && buffer.classSize == ClassMaxSize(sizeClass)
      ensures freelist[..] == Pop(old(freelist[..]), sizeClass)
      ensures handedOut == old(handedOut) + [BlockOf(buffer)]
      ensures userAllocTot == old(userAllocTot) + buffer.classSize
      ensures old(Keyed()) ==> Keyed() && HasKey(buffer, regions, keys)
    {
      hide AllKeyed, HasKey, Sound, ClassSizes, ClassMaxSize;
      SoundSizes(freelist[..], userAllocTot, handedOut, regions);
      LastOfClass(freelist[..], sizeClass);
      if Keyed() {
        PopKeyed(freelist[..], sizeClass, regions, keys);
      }
      PopSound(freelist[..], userAllocTot, handedOut, regions, sizeClass);
      ghost var fl := freelist[..];
      buffer := freelist[sizeClass][|freelist[sizeClass]| - 1];
      freelist[sizeClass] := freelist[sizeClass][..|freelist[sizeClass]| - 1];
      userAllocTot := userAllocTot + buffer.classSize;
      handedOut := handedOut + [BlockOf(buffer)];
      assert freelist[..] == Pop(fl, sizeClass);
    }

    /**
     Allocates from the least sufficient class, splitting the first larger buffer down if that
     class is empty. Nothing is returned exactly when no class from there on holds a buffer. Every
     class that was split through is left with one buffer.
    */
    method Alloc(size: nat) returns (buffer: Buffer?, ghost first: nat)
      requires Valid() && 1 <= size <= MAX_CLASS_SIZE
      modifies freelist, this`userAllocTot, this`handedOut
      ensures Valid()
      ensures buffer == null <==> EmptyFrom(old(freelist[..]), GetClass(size))
      ensures buffer == null ==>
        freelist[..] == old(freelist[..]) && handedOut == old(handedOut) && userAllocTot == old(userAllocTot)
      ensures buffer != null ==>
        && buffer.classSize == ClassMaxSize(GetClass(size)) >= size
        && handedOut == old(handedOut) + [BlockOf(buffer)] && userAllocTot == old(userAllocTot) + buffer.classSize
        && FirstFrom(old(freelist[..]), GetClass(size), first)
        && EndsWith(buffer, Last(old(freelist[first])))
        && freelist[first] == old(freelist[first])[..|old(freelist[first])| - 1]
        && (forall c :: GetClass(size) <= c < first ==> |freelist[c]| == 1)
        && (forall c :: 0 <= c < NUM_CLASSES && !(GetClass(size) <= c <= first) ==> freelist[c] == old(freelist[c]))
      ensures old(Keyed()) ==> Keyed() && (buffer != null ==> HasKey(buffer, regions, keys))
    {
      hide Sound, GetClass, ClassMaxSize, AllKeyed, HasKey;
      GetClassIsLeast(size);
      var sizeClass := GetClass(size);
      first := sizeClass;
      ghost var before := freelist[..];
      assert forall c :: 0 <= c < NUM_CLASSES ==> freelist[c] == before[c];
      if freelist[sizeClass] != [] {
        buffer := AllocFromClass(sizeClass);
        return;
      }
      var nextClass := sizeClass + 1;
      while nextClass < NUM_CLASSES
        invariant sizeClass < nextClass <= NUM_CLASSES
        invariant forall k :: sizeClass <= k < nextClass ==> freelist[k] == []
      {
        if freelist[nextClass] != [] { break; }
        nextClass := nextClass + 1;
      }
      if nextClass == NUM_CLASSES {
        buffer := null;
        return;
      }
      first := nextClass;
      SplitDown(sizeClass, nextClass);
      buffer := AllocFromClass(sizeClass);
    }

    /** The loop of `alloc` that splits class after class down to the wanted one. */
    method SplitDown(sizeClass: nat, from: nat)
      requires Valid() && sizeClass < from < NUM_CLASSES && FirstFrom(freelist[..], sizeClass, from)
      modifies freelist
      ensures Valid()
      ensures |freelist[sizeClass]| == 2 && freelist[from] == old(freelist[from])[..|old(freelist[from])| - 1]
      ensures forall c :: sizeClass < c < from ==> |freelist[c]| == 1
      ensures forall c :: 0 <= c < NUM_CLASSES && !(sizeClass <= c <= from) ==> freelist[c] == old(freelist[c])
      ensures EndsWith(Last(freelist[sizeClass]), Last(old(freelist[from])))
      ensures old(Keyed()) ==> Keyed()
    {
      hide Sound, AllKeyed;
      var nextClass := from;
      while nextClass != sizeClass
        invariant Valid() && sizeClass <= nextClass <= from
        invariant forall c :: sizeClass <= c < nextClass ==> freelist[c] == []
        invariant nextClass < from ==> |freelist[nextClass]| == 2
        invariant freelist[nextClass] != [] && EndsWith(Last(freelist[nextClass]), Last(old(freelist[from])))
        invariant old(Keyed()) ==> Keyed()
        invariant freelist[from] ==
          if nextClass < from then old(freelist[from])[..|old(freelist[from])| - 1] else old(freelist[from])
        invariant forall c :: nextClass < c < from ==> |freelist[c]| == 1
        invariant forall c :: 0 <= c < NUM_CLASSES && !(sizeClass <= c <= from) ==> freelist[c] == old(freelist[c])
        decreases nextClass
      {
        ghost var fl := freelist[..];
        Split(nextClass);
        assert forall c :: 0 <= c < NUM_CLASSES ==> freelist[c] == freelist[..][c];
        nextClass := nextClass - 1;
      }
    }

    /**
     Adds a memory region. A region of a whole number of maximal buffers keeps the allocator
     sound. Anything left over, or a region smaller than that, is filed with the number of its
     class where its size should be, so that no such call leaves the freelists well formed.
    */
    method AddRawBuffer(buf: nat, lkey: nat, size: nat)
      requires freelist.Length == NUM_CLASSES && size >= 1
      modifies freelist, this`regions, this`keys
      ensures ListsOf(freelist[..]) == Added(ListsOf(old(freelist[..])), buf, lkey, size)
      ensures size % MAX_CLASS_SIZE == 0 && old(Keyed()) ==>
        Keyed() && regions == old(regions) + [Region(buf, size)] && keys == old(keys) + [lkey]
      ensures size % MAX_CLASS_SIZE != 0 ==> !ClassSizes(freelist[..])
      ensures size % MAX_CLASS_SIZE == 0 && old(Valid())
              && (forall i :: 0 <= i < |old(regions)| ==> Apart(old(regions)[i], Region(buf, size)))
              ==> Valid() && regions == old(regions) + [Region(buf, size)]
      ensures size % MAX_CLASS_SIZE == 0 ==>
        && |freelist[NUM_CLASSES - 1]| == old(|freelist[NUM_CLASSES - 1]|) + size / MAX_CLASS_SIZE
        && forall c :: 0 <= c < NUM_CLASSES - 1 ==> freelist[c] == old(freelist[c])
      decreases size
    {
      hide Sound, AllKeyed;
      if size >= MAX_CLASS_SIZE {
        var numBuffers := size / MAX_CLASS_SIZE;
        ghost var fl := freelist[..];
        ghost var bs := PushMaxBuffers(buf, lkey, numBuffers);
        ListsPush(fl, NUM_CLASSES - 1, bs);
        var remainingSize := size % MAX_CLASS_SIZE;
        if remainingSize > 0 {
          AddedInSteps(ListsOf(fl), buf, lkey, size);
          AddRawBuffer(buf, lkey, remainingSize);
        } else {
          assert size == numBuffers * MAX_CLASS_SIZE;
          WholeSound(fl, userAllocTot, handedOut, regions, buf, numBuffers, bs);
          if AllKeyed(fl, regions, keys) {
            AddKeyed(fl, regions, keys, buf, numBuffers, lkey, bs);
          }
          regions, keys := regions + [Region(buf, size)], keys + [lkey];
        }
      } else {
        GetClassIsLeast(size);
        AddedInSteps(ListsOf(freelist[..]), buf, lkey, size);
        var sizeClass := GetClass(size);
        var tmpBuf := new Buffer(buf, sizeClass, lkey);
        ghost var fl := freelist[..];
        freelist[sizeClass] := freelist[sizeClass] + [tmpBuf];
        assert freelist[..] == fl[sizeClass := fl[sizeClass] + [tmpBuf]];
        ListsPush(fl, sizeClass, [tmpBuf]);
        assert FiledOf([tmpBuf]) == [Filed(Block(buf, sizeClass), lkey)] && size % MAX_CLASS_SIZE == size;
        assert Last(freelist[..][sizeClass]).classSize == sizeClass < ClassMaxSize(sizeClass);
      }
    }

    method PushMaxBuffers(buf: nat, lkey: nat, numBuffers: nat) returns (ghost bs: seq<Buffer>)
      requires freelist.Length == NUM_CLASSES
      modifies freelist
      ensures BlocksOf(bs) == Cut(buf, MAX_CLASS_SIZE, numBuffers) && FiledOf(bs) == CutFiled(buf, numBuffers, lkey)
      ensures freelist[..] == old(freelist[..])[NUM_CLASSES - 1 := old(freelist[NUM_CLASSES - 1]) + bs]
      ensures |bs| == numBuffers && freelist[NUM_CLASSES - 1] == old(freelist[NUM_CLASSES - 1]) + bs
      ensures forall c :: 0 <= c < NUM_CLASSES - 1 ==> freelist[c] == old(freelist[c])
    {
      bs := [];
      for i := 0 to numBuffers
        invariant |bs| == i && freelist[NUM_CLASSES - 1] == old(freelist[NUM_CLASSES - 1]) + bs
        invariant forall c :: 0 <= c < NUM_CLASSES - 1 ==> freelist[c] == old(freelist[c])
        invariant forall j :: 0 <= j < i ==>
          BlockOf(bs[j]) == Block(buf + j * MAX_CLASS_SIZE, MAX_CLASS_SIZE) && bs[j].lkey == lkey
      {
        var tmpBuf := new Buffer(buf + i * MAX_CLASS_SIZE, MAX_CLASS_SIZE, lkey);
        freelist[NUM_CLASSES - 1] := freelist[NUM_CLASSES - 1] + [tmpBuf];
        bs := bs + [tmpBuf];
      }
    }

    /**
     Gives a buffer back to the class of its size. A sound allocator stays sound exactly if the
     buffer was out, which the code does not check.
    */
    method FreeBuf(buffer: Buffer)
      requires freelist.Length == NUM_CLASSES && IsClassSize(buffer.classSize)
      modifies freelist, this`userAllocTot, this`handedOut, buffer`length, buffer`state
      ensures buffer.length == 0 && buffer.state == Free
      ensures 1 <= buffer.classSize <= MAX_CLASS_SIZE && GetClass(buffer.classSize) < NUM_CLASSES
      ensures freelist[..] == Push(old(freelist[..]), GetClass(buffer.classSize), buffer)
      ensures userAllocTot == old(userAllocTot) - buffer.classSize
      ensures old(Valid()) ==> (Valid() <==> BlockOf(buffer) in old(handedOut))
      ensures BlockOf(buffer) in old(handedOut) ==>
        multiset(handedOut) == multiset(old(handedOut)) - multiset{BlockOf(buffer)}
      ensures old(Keyed()) && HasKey(buffer, regions, keys) ==> Keyed()
    {
      hide Sound, ClassMaxSize, GetClass, IsClassSize, AllKeyed, HasKey;
      ClassOfSize(buffer.classSize);
      buffer.length := 0;
      buffer.state := Free;
      var sizeClass := GetClass(buffer.classSize);
      ghost var fl, tot, out := freelist[..], userAllocTot, handedOut;
      freelist[sizeClass] := freelist[sizeClass] + [buffer];
      userAllocTot := userAllocTot - buffer.classSize;
      assert freelist[..] == Push(fl, sizeClass, buffer);
      if AllKeyed(fl, regions, keys) && HasKey(buffer, regions, keys) {
        PushKeyed(fl, sizeClass, buffer, regions, keys);
      }
      if BlockOf(buffer) in handedOut {
        ghost var i :| 0 <= i < |handedOut| && handedOut[i] == BlockOf(buffer);
        WithoutBlocks(handedOut, i);
        handedOut := Without(handedOut, i);
        if Sound(fl, tot, out, regions) {
          PushSound(fl, tot, out, regions, sizeClass, buffer, i);
        }
      } else if Sound(fl, tot, out, regions) {
        FreedTwice(fl, tot, out, regions, buffer.classSize, freelist[..]);
      }
    }
  }

  lemma NoBlocks(fl: seq<seq<Buffer>>)
    requires |fl| == NUM_CLASSES && forall c :: 0 <= c < |fl| ==> fl[c] == []
    ensures Sound(fl, 0, [], [])
  {
    NothingFree(fl);
  }

  lemma {:induction false} NothingFree(fl: seq<seq<Buffer>>)
    requires forall c :: 0 <= c < |fl| ==> fl[c] == []
    ensures FreeBlocks(fl) == multiset{} && FreeBytes(fl) == 0
    decreases |fl|
  {
    if fl == [] {
    } else {
      NothingFree(fl[..|fl| - 1]);
    }
  }
}
