/** How `Channel_SoC` gives its two receive rings their memory. */
module SocMemory {
  import opened Common
  import opened Buffers
  import opened Tiling
  import opened HugeAlloc

  /** The `i`-th receive buffer carved from an extent at `base`. */
  function Slice(base: nat, mbufSize: nat, i: nat): Block {
    Block(base + i * mbufSize, mbufSize)
  }

  /** The slices of two extents: inside the region, and no two of them overlap. */
  ghost predicate SlicesApart(region: Region, first: nat, second: nat, mbufSize: nat, depth: nat) {
    && (forall i | 0 <= i < depth :: Within(Slice(first, mbufSize, i), region))
    && (forall i | 0 <= i < depth :: Within(Slice(second, mbufSize, i), region))
    && (forall i, j | 0 <= i < j < depth :: Disjoint(Slice(first, mbufSize, i), Slice(first, mbufSize, j)))
    && (forall i, j | 0 <= i < j < depth :: Disjoint(Slice(second, mbufSize, i), Slice(second, mbufSize, j)))
    && (forall i, j | 0 <= i < depth && 0 <= j < depth ::
          Disjoint(Slice(first, mbufSize, i), Slice(second, mbufSize, j)))
  }

  lemma SliceInExtent(base: nat, mbufSize: nat, depth: nat, i: nat)
    requires i < depth
    ensures base <= Slice(base, mbufSize, i).addr
    ensures Slice(base, mbufSize, i).addr + mbufSize <= base + depth * mbufSize
  {
    MulStep(i, depth, mbufSize);
  }

  lemma ExtentsApart(region: Region, a: Block, b: Block, mbufSize: nat, depth: nat)
    requires Within(a, region) && Within(b, region) && Disjoint(a, b)
    requires depth * mbufSize <= a.size && depth * mbufSize <= b.size
    ensures SlicesApart(region, a.addr, b.addr, mbufSize, depth)
  {
    forall i | 0 <= i < depth
      ensures Within(Slice(a.addr, mbufSize, i), region) && Within(Slice(b.addr, mbufSize, i), region)
    {
      SliceInExtent(a.addr, mbufSize, depth, i);
      SliceInExtent(b.addr, mbufSize, depth, i);
    }
    forall i, j | 0 <= i < j < depth
      ensures Disjoint(Slice(a.addr, mbufSize, i), Slice(a.addr, mbufSize, j))
      ensures Disjoint(Slice(b.addr, mbufSize, i), Slice(b.addr, mbufSize, j))
    {
      MulStep(i, j, mbufSize);
    }
    forall i, j | 0 <= i < depth && 0 <= j < depth
      ensures Disjoint(Slice(a.addr, mbufSize, i), Slice(b.addr, mbufSize, j))
    {
      SliceInExtent(a.addr, mbufSize, depth, i);
      SliceInExtent(b.addr, mbufSize, depth, j);
    }
  }

  /**
   `__init_rings`: one region is added to the allocator and each ring takes an extent from it. Both
   allocations succeed when the region holds two maximal buffers.
  */
  method TakeExtents(base: nat, lkey: nat, regionSize: nat, depth: nat, mbufSize: nat)
    returns (priorExtent: Buffer, nextExtent: Buffer)
    requires 1 <= depth * mbufSize <= MAX_CLASS_SIZE
    requires regionSize % MAX_CLASS_SIZE == 0 && regionSize >= 2 * MAX_CLASS_SIZE
    ensures SlicesApart(Region(base, regionSize), priorExtent.buf, nextExtent.buf, mbufSize, depth)
    ensures priorExtent.lkey == nextExtent.lkey == lkey
  {
    hide Sound, GetClass, SlicesApart, ClassMaxSize, AllKeyed;
    var size := depth * mbufSize;
    var top := NUM_CLASSES - 1;
    GetClassIsLeast(size);
    var alloc := new HugeAllocator();
    alloc.AddRawBuffer(base, lkey, regionSize);
    assert alloc.regions == [Region(base, regionSize)];
    assert |alloc.freelist[..][top]| >= 2;
    var a, firstA := alloc.Alloc(size);
    assert !EmptyFrom(alloc.freelist[..], GetClass(size)) by {
      assert alloc.freelist[..][top] != [];
    }
    var b, firstB := alloc.Alloc(size);
    priorExtent, nextExtent := a, b;
    HandedOutDisjoint(alloc.freelist[..], alloc.userAllocTot, alloc.handedOut, alloc.regions, 0, 1);
    assert alloc.handedOut == [BlockOf(a), BlockOf(b)];
    HomedInside(BlockOf(a), Region(base, regionSize));
    HomedInside(BlockOf(b), Region(base, regionSize));
    ExtentsApart(Region(base, regionSize), BlockOf(a), BlockOf(b), mbufSize, depth);
  }

  lemma HomedInside(b: Block, r: Region)
    requires Homed(b, [r])
    ensures Within(b, r)
  {
    AlignedInside(b, r);
  }
}
