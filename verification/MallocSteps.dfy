/** The heap invariant of src/runtime/alloc/malloc.c as a whole, and the steps from which
    every operation is built: each takes a sound heap to a sound heap. */
module MallocSteps {
  import opened Lists
  import opened MallocSizes
  import opened MallocLayout
  import opened MallocBooks

  /** Chunks, segments and large regions; the two header words; the bins; and every live
      allocation with its size, which `Sound` leaves alone. */
  datatype Heap = Heap(
    L: Chunks, ends: Segments, mapped: map<int, Region>,
    ps: Words, cs: Words, bins: seq<seq<int>>, binmap: set<int>, live: map<int, int>)

  ghost predicate Laid(L: Chunks, ends: Segments, mapped: map<int, Region>, ps: Words, cs: Words) {
    && Shape(L, ends)
    && Segmented(L, ends)
    && Headers(L, ends, ps, cs)
    && Coalesced(L)
    && Mapped(mapped, ends, ps, cs)
  }

  ghost predicate Sound(h: Heap) {
    Laid(h.L, h.ends, h.mapped, h.ps, h.cs) && Binned(h.L, h.bins, h.binmap)
  }

  lemma Assemble(g: Heap)
    requires Laid(g.L, g.ends, g.mapped, g.ps, g.cs)
    requires Binned(g.L, g.bins, g.binmap)
    ensures Sound(g)
  {
  }

  lemma SizeInBins(h: Heap, c: int)
    requires Sound(h) && c in h.L
    ensures h.L[c].size >= SIZE_ALIGN && Whole(h.L[c].size) && OnGrid(c)
    ensures 0 <= BinIndex(h.L[c].size) < BINS
    ensures Free(h.L, c) ==> c in h.bins[BinIndex(h.L[c].size)]
  {
    assert Placed(h.L, c);
    BinIndexRange(h.L[c].size);
    assert Free(h.L, c) ==> Belongs(h.L, c, BinIndex(h.L[c].size));
  }

  lemma ChunkRange(h: Heap, c: int)
    requires Sound(h) && c in h.L
    ensures Range(h.L, h.ends, c, c + h.L[c].size)
  {
    assert Followed(h.L, h.ends, c);
  }

  /** Two neighbouring ranges make one. */
  lemma RangeJoin(L: Chunks, ends: Segments, lo: int, mid: int, hi: int)
    requires Range(L, ends, lo, mid) && Range(L, ends, mid, hi)
    ensures Range(L, ends, lo, hi)
  {
  }

  lemma BoundaryInSegment(h: Heap, x: int)
    requires Sound(h) && Boundary(h.L, h.ends, x)
    ensures InSegment(h.ends, x)
  {
    if x in h.L {
      assert Within(h.ends, x);
      var e :| e in h.ends && h.ends[e] <= x < e;
    } else {
      assert h.ends[x] in h.L;
    }
  }

  ghost predicate AllUsed(L: Chunks, lo: int, hi: int) { forall c :: c in L && lo <= c < hi ==> L[c].used }

  lemma MappedJoin(h: Heap, lo: int, hi: int, w: int)
    requires Sound(h) && Range(h.L, h.ends, lo, hi)
    ensures Mapped(h.mapped, h.ends, h.ps[hi := w], h.cs[lo := w])
  {
    BoundaryInSegment(h, lo);
    BoundaryInSegment(h, hi);
    MappedFrame(h.mapped, h.ends, h.ps, h.cs, h.ps[hi := w], h.cs[lo := w]);
  }

  /** Joining chunks keeps the layout. */
  lemma JoinedLaid(h: Heap, lo: int, hi: int, used: bool, w: int)
    requires w == Enc(Chunk(hi - lo, used))
    requires Sound(h) && Range(h.L, h.ends, lo, hi)
    requires used || (!Free(h.L, hi) && forall c :: Free(h.L, c) ==> c + h.L[c].size != lo)
    ensures Laid(Joined(h.L, lo, hi, used), h.ends, h.mapped, h.ps[hi := w], h.cs[lo := w])
  {
    JoinedShape(h.L, h.ends, lo, hi, used);
    JoinedSegmented(h.L, h.ends, lo, hi, used);
    JoinedHeaders(h.L, h.ends, h.ps, h.cs, lo, hi, used);
    JoinedCoalesced(h.L, h.ends, lo, hi, used);
    MappedJoin(h, lo, hi, w);
  }

  /** `unbin`: a free chunk leaves its bin and is marked in use. */
  function Unbinned(h: Heap, c: int, i: int): Heap
    requires c in h.L && 0 <= i < |h.bins|
  {
    var k := h.L[c].size;
    h.(L := Joined(h.L, c, c + k, true), ps := h.ps[c + k := k + 1], cs := h.cs[c := k + 1],
    bins := h.bins[i := Remove(h.bins[i], c)],
    binmap := if h.bins[i] == [c] then h.binmap - {i} else h.binmap)
  }

  lemma UnbinnedBinned(h: Heap, c: int, i: int)
    requires Sound(h) && Belongs(h.L, c, i) && 0 <= i < BINS
    ensures var g := Unbinned(h, c, i); Binned(g.L, g.bins, g.binmap)
  {
    UnbinnedFree(h, c);
    BinnedRemove(h.L, Joined(h.L, c, c + h.L[c].size, true), h.bins, h.binmap, c, i);
  }

  lemma UnbinnedSound(h: Heap, c: int, i: int, g: Heap)
    requires Sound(h) && Belongs(h.L, c, i) && 0 <= i < |h.bins| && g == Unbinned(h, c, i)
    ensures Sound(g)
  {
    UnbinnedLaid(h, c);
    UnbinnedBinned(h, c, i);
    var k := h.L[c].size;
    UnbinnedFields(h, c, i, k, g);
    AssembleFrom(g, Joined(h.L, c, c + k, true), h.ends, h.mapped, h.ps[c + k := k + 1], h.cs[c := k + 1]);
  }

  lemma UnbinnedFields(h: Heap, c: int, i: int, k: int, g: Heap)
    requires c in h.L && h.L[c].size == k && 0 <= i < |h.bins| && g == Unbinned(h, c, i)
    ensures g.L == Joined(h.L, c, c + k, true) && g.ends == h.ends && g.mapped == h.mapped
    ensures g.ps == h.ps[c + k := k + 1] && g.cs == h.cs[c := k + 1]
  {
  }

  lemma AssembleFrom(g: Heap, L: Chunks, ends: Segments, mapped: map<int, Region>, ps: Words, cs: Words)
    requires Laid(L, ends, mapped, ps, cs) && Binned(g.L, g.bins, g.binmap)
    requires g.L == L && g.ends == ends && g.mapped == mapped && g.ps == ps && g.cs == cs
    ensures Sound(g)
  {
  }

  lemma UnbinnedLaid(h: Heap, c: int)
    requires Sound(h) && Free(h.L, c)
    ensures var k := h.L[c].size;
            Laid(Joined(h.L, c, c + k, true), h.ends, h.mapped, h.ps[c + k := k + 1], h.cs[c := k + 1])
  {
    ChunkRange(h, c);
    JoinedLaid(h, c, c + h.L[c].size, true, h.L[c].size + 1);
  }

  /** A chunk has its range for itself, so no other free chunk is lost. */
  lemma UnbinnedFree(h: Heap, c: int)
    requires Sound(h) && Free(h.L, c)
    ensures FreesOnly(Joined(h.L, c, c + h.L[c].size, true), h.L, c)
  {
  }

  /** The end of `__bin_chunk`: in-use neighbours become one free chunk in its bin. */
  function Released(h: Heap, lo: int, hi: int, i: int): Heap
    requires 0 <= i < |h.bins|
  {
    h.(L := Joined(h.L, lo, hi, false), ps := h.ps[hi := hi - lo], cs := h.cs[lo := hi - lo],
    bins := h.bins[i := h.bins[i] + [lo]],
    binmap := if h.bins[i] == [] then h.binmap + {i} else h.binmap)
  }

  ghost predicate Releasable(h: Heap, lo: int, hi: int) {
    && Range(h.L, h.ends, lo, hi) && AllUsed(h.L, lo, hi)
    && !Free(h.L, hi) && (forall c :: Free(h.L, c) ==> c + h.L[c].size != lo)
  }

  lemma RangeSize(h: Heap, lo: int, hi: int)
    requires Sound(h) && Range(h.L, h.ends, lo, hi)
    ensures hi - lo >= SIZE_ALIGN && Whole(hi - lo) && 0 <= BinIndex(hi - lo) < BINS
  {
    BoundaryOnGrid(h.L, h.ends, lo);
    BoundaryOnGrid(h.L, h.ends, hi);
    GridSteps(lo, hi);
    BinIndexRange(hi - lo);
  }

  lemma ReleasedFree(h: Heap, lo: int, hi: int)
    requires Releasable(h, lo, hi)
    ensures FreesOnly(h.L, Joined(h.L, lo, hi, false), lo)
  {
  }

  lemma ReleasedBinned(h: Heap, lo: int, hi: int, i: int)
    requires Binned(h.L, h.bins, h.binmap) && Releasable(h, lo, hi)
    requires hi - lo >= SIZE_ALIGN && BinIndex(hi - lo) == i && 0 <= i < BINS
    ensures var g := Released(h, lo, hi, i); Binned(g.L, g.bins, g.binmap)
  {
    ReleasedFree(h, lo, hi);
    BinnedAdd(h.L, Joined(h.L, lo, hi, false), h.bins, h.binmap, lo, i);
  }

  lemma ReleasedLaid(h: Heap, lo: int, hi: int)
    requires Sound(h) && Releasable(h, lo, hi)
    ensures Laid(Joined(h.L, lo, hi, false), h.ends, h.mapped, h.ps[hi := hi - lo], h.cs[lo := hi - lo])
  {
    JoinedLaid(h, lo, hi, false, hi - lo);
  }

  lemma ReleasedSound(h: Heap, lo: int, hi: int, i: int, g: Heap)
    requires Sound(h) && Releasable(h, lo, hi)
    requires hi - lo >= SIZE_ALIGN && i == BinIndex(hi - lo) && 0 <= i < |h.bins|
    requires g == Released(h, lo, hi, i)
    ensures Sound(g)
  {
    ReleasedLaid(h, lo, hi);
    ReleasedBinned(h, lo, hi, i);
    Assemble(g);
  }

  /** In-use neighbours become one in-use chunk. */
  function Fused(h: Heap, lo: int, hi: int): Heap {
    h.(L := Joined(h.L, lo, hi, true), ps := h.ps[hi := hi - lo + 1], cs := h.cs[lo := hi - lo + 1])
  }

  lemma FusedSound(h: Heap, lo: int, hi: int)
    requires Sound(h) && Range(h.L, h.ends, lo, hi) && AllUsed(h.L, lo, hi)
    ensures Sound(Fused(h, lo, hi))
  {
    var M := Joined(h.L, lo, hi, true);
    JoinedLaid(h, lo, hi, true, hi - lo + 1);
    assert SameFree(h.L, M);
    BinnedSame(h.L, M, h.bins, h.binmap);
    Assemble(Fused(h, lo, hi));
  }

  lemma MappedCut(h: Heap, c: int, n: int, used: bool)
    requires Sound(h) && Cuttable(h.L, c, n)
    ensures Mapped(h.mapped, h.ends, CutBack(h.L, h.ps, c, n, used), CutSizes(h.L, h.cs, c, n, used))
  {
    var hi := c + h.L[c].size;
    assert Followed(h.L, h.ends, c);
    BoundaryInSegment(h, c);
    BoundaryInSegment(h, hi);
    assert InSegment(h.ends, c + n) by {
      assert Within(h.ends, c);
      var e :| e in h.ends && h.ends[e] <= c < e;
    }
    MappedFrame(h.mapped, h.ends, h.ps, h.cs, CutBack(h.L, h.ps, c, n, used), CutSizes(h.L, h.cs, c, n, used));
  }

  lemma CutLaid(h: Heap, c: int, n: int, used: bool)
    requires Sound(h) && Cuttable(h.L, c, n) && (used || !Free(h.L, c + h.L[c].size))
    ensures Laid(Cut(h.L, c, n, used), h.ends, h.mapped, CutBack(h.L, h.ps, c, n, used),
                 CutSizes(h.L, h.cs, c, n, used))
  {
    CutShape(h.L, h.ends, c, n, used);
    CutSegmented(h.L, h.ends, c, n, used);
    CutHeaders(h.L, h.ends, h.ps, h.cs, c, n, used);
    CutCoalesced(h.L, h.ends, c, n, used);
    MappedCut(h, c, n, used);
  }

  /** An in-use chunk in two, both in use. */
  function Split(h: Heap, c: int, n: int): Heap
    requires c in h.L
  {
    h.(L := Cut(h.L, c, n, true), ps := CutBack(h.L, h.ps, c, n, true), cs := CutSizes(h.L, h.cs, c, n, true))
  }

  lemma SplitSound(h: Heap, c: int, n: int)
    requires Sound(h) && Cuttable(h.L, c, n)
    ensures Sound(Split(h, c, n))
  {
    var M := Cut(h.L, c, n, true);
    CutLaid(h, c, n, true);
    assert SameFree(h.L, M) by { assert c + n !in h.L; }
    BinnedSame(h.L, M, h.bins, h.binmap);
  }

  /** `trim`: the tail of an in-use chunk becomes a free chunk in its bin. */
  function Trimmed(h: Heap, c: int, n: int, i: int): Heap
    requires c in h.L && 0 <= i < |h.bins|
  {
    h.(L := Cut(h.L, c, n, false), ps := CutBack(h.L, h.ps, c, n, false), cs := CutSizes(h.L, h.cs, c, n, false),
    bins := h.bins[i := h.bins[i] + [c + n]],
    binmap := if h.bins[i] == [] then h.binmap + {i} else h.binmap)
  }

  lemma CutSize(h: Heap, c: int, n: int)
    requires Sound(h) && Cuttable(h.L, c, n)
    ensures h.L[c].size - n >= SIZE_ALIGN && 0 <= BinIndex(h.L[c].size - n) < BINS
  {
    assert Placed(h.L, c);
    BinIndexRange(h.L[c].size - n);
  }

  lemma TrimmedBinned(h: Heap, c: int, n: int, i: int)
    requires Sound(h) && Cuttable(h.L, c, n)
    requires h.L[c].size - n >= SIZE_ALIGN && BinIndex(h.L[c].size - n) == i && 0 <= i < BINS
    ensures var g := Trimmed(h, c, n, i); Binned(g.L, g.bins, g.binmap)
  {
    assert FreesOnly(h.L, Cut(h.L, c, n, false), c + n) by { assert c + n !in h.L; }
    BinnedAdd(h.L, Cut(h.L, c, n, false), h.bins, h.binmap, c + n, i);
  }

  lemma TrimmedSound(h: Heap, c: int, n: int, i: int, g: Heap)
    requires Sound(h) && Cuttable(h.L, c, n) && !Free(h.L, c + h.L[c].size)
    requires h.L[c].size - n >= SIZE_ALIGN && i == BinIndex(h.L[c].size - n) && 0 <= i < |h.bins|
    requires g == Trimmed(h, c, n, i)
    ensures Sound(g)
  {
    CutLaid(h, c, n, false);
    TrimmedBinned(h, c, n, i);
    Assemble(g);
  }

  // ---- New memory ----

  /** [a, a + len) is memory the heap does not have yet. */
  ghost predicate Unused(h: Heap, a: int, len: int) {
    && Clear(h.ends, a, len)
    && forall m :: m in h.mapped ==> RegionsApart(h.mapped[m], Region(a, len))
  }

  /** `expand_heap` with a segment of its own. */
  function OpenedHeap(h: Heap, a: int, len: int): Heap {
    h.(L := Opened(h.L, a, len), ends := OpenedEnds(h.ends, a, len),
    ps := h.ps[a + 16 := 1][a + len - 16 := len - 32 + 1],
    cs := h.cs[a + len - 16 := 1][a + 16 := len - 32 + 1])
  }

  lemma OpenedMapped(h: Heap, a: int, len: int)
    requires Sound(h) && Unused(h, a, len)
    ensures var g := OpenedHeap(h, a, len); Mapped(g.mapped, g.ends, g.ps, g.cs)
  {
    var g := OpenedHeap(h, a, len);
    forall m | m in h.mapped
      ensures Clear(g.ends, h.mapped[m].base, h.mapped[m].len) && RegionOk(h.mapped[m], g.ps, g.cs, m)
    {
      assert Clear(h.ends, h.mapped[m].base, h.mapped[m].len) && RegionOk(h.mapped[m], h.ps, h.cs, m);
      assert RegionsApart(h.mapped[m], Region(a, len));
    }
  }

  lemma OpenedCoalesced(h: Heap, a: int, len: int)
    requires Sound(h) && Clear(h.ends, a, len)
    ensures Coalesced(Opened(h.L, a, len)) && SameFree(h.L, Opened(h.L, a, len))
  {
    var M := Opened(h.L, a, len);
    ClearSpot(h.L, h.ends, a, len, a + 16);
    forall c ensures !FreePair(M, c) { assert !FreePair(h.L, c); }
  }

  lemma OpenedSound(h: Heap, a: int, len: int)
    requires Sound(h) && Unused(h, a, len)
    ensures Sound(OpenedHeap(h, a, len))
  {
    OpenedShape(h.L, h.ends, a, len);
    OpenedSegmented(h.L, h.ends, a, len);
    OpenedHeaders(h.L, h.ends, h.ps, h.cs, a, len);
    OpenedCoalesced(h, a, len);
    OpenedMapped(h, a, len);
    BinnedSame(h.L, Opened(h.L, a, len), h.bins, h.binmap);
  }

  /** `expand_heap` at the end of the last segment. */
  function ExtendedHeap(h: Heap, e: int, len: int): Heap
    requires e in h.ends
  {
    h.(L := Extended(h.L, e, len), ends := ExtendedEnds(h.ends, e, len),
    ps := h.ps[e + len := len + 1], cs := h.cs[e + len := 1][e := len + 1])
  }

  lemma ExtendedMapped(h: Heap, e: int, len: int)
    requires Sound(h) && e in h.ends && Unused(h, e + 16, len)
    ensures var g := ExtendedHeap(h, e, len); Mapped(g.mapped, g.ends, g.ps, g.cs)
  {
    var g := ExtendedHeap(h, e, len);
    forall m | m in h.mapped
      ensures Clear(g.ends, h.mapped[m].base, h.mapped[m].len) && RegionOk(h.mapped[m], g.ps, g.cs, m)
    {
      assert Clear(h.ends, h.mapped[m].base, h.mapped[m].len) && RegionOk(h.mapped[m], h.ps, h.cs, m);
      assert RegionsApart(h.mapped[m], Region(e + 16, len));
    }
  }

  lemma ExtendedCoalesced(h: Heap, e: int, len: int)
    requires Sound(h) && e in h.ends
    ensures Coalesced(Extended(h.L, e, len)) && SameFree(h.L, Extended(h.L, e, len))
  {
    var M := Extended(h.L, e, len);
    assert e !in h.L;
    forall c ensures !FreePair(M, c) { assert !FreePair(h.L, c); }
  }

  lemma ExtendedSound(h: Heap, e: int, len: int)
    requires Sound(h) && e in h.ends && Unused(h, e + 16, len)
    ensures Sound(ExtendedHeap(h, e, len))
  {
    ExtendedShape(h.L, h.ends, e, len);
    ExtendedSegmented(h.L, h.ends, e, len);
    ExtendedHeaders(h.L, h.ends, h.ps, h.cs, e, len);
    ExtendedCoalesced(h, e, len);
    ExtendedMapped(h, e, len);
    BinnedSame(h.L, Extended(h.L, e, len), h.bins, h.binmap);
  }

  // ---- Large allocations ----

  /** Header words written away from every boundary leave the heap proper alone. */
  lemma HeadersFrame(L: Chunks, ends: Segments, ps: Words, cs: Words, x: int, v: int, w: int)
    requires Shape(L, ends) && Headers(L, ends, ps, cs) && !Boundary(L, ends, x)
    ensures Headers(L, ends, ps[x := v], cs[x := w])
  {
    forall c | c in L ensures HeaderOk(L, cs[x := w], c) && FooterOk(L, ps[x := v], c) {
      assert HeaderOk(L, cs, c) && FooterOk(L, ps, c) && Followed(L, ends, c);
    }
    forall y | Boundary(L, ends, y) ensures BackOk(L, ps[x := v], y) {
      assert BackOk(L, ps, y);
    }
  }

  function MappedHeap(h: Heap, a: int, len: int): Heap {
    h.(mapped := h.mapped[a + 16 := Region(a, len)], ps := h.ps[a + 16 := 16], cs := h.cs[a + 16 := len - 16])
  }

  lemma MappedSound(h: Heap, a: int, len: int)
    requires Sound(h) && Unused(h, a, len) && len > MMAP_THRESHOLD
    ensures Sound(MappedHeap(h, a, len))
    ensures a + 16 !in h.mapped && a + 16 !in h.L
  {
    ClearSpot(h.L, h.ends, a, len, a + 16);
    HeadersFrame(h.L, h.ends, h.ps, h.cs, a + 16, 16, len - 16);
    var g := MappedHeap(h, a, len);
    PagedGrid(a, len);
    forall m | m in h.mapped ensures RegionOk(h.mapped[m], g.ps, g.cs, m) && m != a + 16 {
      assert RegionOk(h.mapped[m], h.ps, h.cs, m) && RegionsApart(h.mapped[m], Region(a, len));
    }
  }

  function UnmappedHeap(h: Heap, m: int): Heap { h.(mapped := map k | k in h.mapped && k != m :: h.mapped[k]) }

  lemma UnmappedSound(h: Heap, m: int)
    requires Sound(h)
    ensures Sound(UnmappedHeap(h, m))
  {
  }

  /** An aligned address inside a large region becomes the allocation. */
  function Realigned(h: Heap, m: int, k: int): Heap
    requires m in h.mapped && m in h.ps && m in h.cs
  {
    h.(mapped := (map j | j in h.mapped && j != m :: h.mapped[j])[m + k := h.mapped[m]],
    ps := h.ps[m + k := h.ps[m] + k], cs := h.cs[m + k := h.cs[m] - k])
  }

  lemma RealignedMapped(h: Heap, m: int, k: int)
    requires m in h.mapped && k > 0 && Whole(k) && m + k + 16 <= h.mapped[m].base + h.mapped[m].len
    requires Mapped(h.mapped, h.ends, h.ps, h.cs) && m in h.ps && m in h.cs
    ensures var g := Realigned(h, m, k); Mapped(g.mapped, g.ends, g.ps, g.cs)
    ensures m + k !in h.mapped
  {
    var g := Realigned(h, m, k);
    var r := h.mapped[m];
    assert RegionOk(r, h.ps, h.cs, m) && Clear(h.ends, r.base, r.len);
    GridMoved(m, k);
    forall j | j in h.mapped && j != m
      ensures RegionOk(h.mapped[j], g.ps, g.cs, j)
      ensures j != m + k && RegionsApart(h.mapped[j], r) && RegionsApart(r, h.mapped[j])
    {
      assert RegionOk(h.mapped[j], h.ps, h.cs, j) && RegionsApart(h.mapped[j], r);
    }
    assert m + k !in h.mapped;
    assert RegionOk(r, g.ps, g.cs, m + k);
  }

  lemma RealignedSound(h: Heap, m: int, k: int)
    requires Sound(h) && m in h.mapped && k > 0 && Whole(k) && m + k + 16 <= h.mapped[m].base + h.mapped[m].len
    ensures m in h.ps && m in h.cs
    ensures Sound(Realigned(h, m, k))
    ensures m + k !in h.mapped && m + k !in h.L
  {
    var r := h.mapped[m];
    assert RegionOk(r, h.ps, h.cs, m) && Clear(h.ends, r.base, r.len);
    ClearSpot(h.L, h.ends, r.base, r.len, m + k);
    HeadersFrame(h.L, h.ends, h.ps, h.cs, m + k, h.ps[m] + k, h.cs[m] - k);
    RealignedMapped(h, m, k);
  }
}
