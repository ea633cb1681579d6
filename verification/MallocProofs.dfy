/** What each operation of src/runtime/alloc/malloc.c reads before it writes, and what
    its writes leave behind. */
module MallocProofs {
  import opened Arith
  import opened Lists
  import opened MallocSizes
  import opened MallocLayout
  import opened MallocBooks
  import opened MallocSteps
  import opened MallocOwners

  /** `CHUNK_SIZE`: a header word without its in-use bit. */
  function SizeOf(w: int): int { if InUse(w) then w - 1 else w }

  /** `w | C_INUSE`. */
  function Marked(w: int): int { if InUse(w) then w else w + 1 }

  /** Marks the proofs that look inside the invariant. */
  predicate Inspect(h: Heap, k: int) { true }

  /** The heap invariant, unfolded only where `Inspect` mentions the heap. */
  ghost predicate Consistent(h: Heap) {
    forall k {:trigger Inspect(h, k)} :: Inspect(h, k) ==> Sound(h) && h.live == Owned(h)
  }

  lemma Open(h: Heap)
    requires Consistent(h)
    ensures Sound(h) && h.live == Owned(h)
  {
    assert Inspect(h, 0);
  }

  lemma BooksAre(h: Heap)
    requires Consistent(h)
    ensures h.live == Owned(h)
  {
    assert Inspect(h, 0);
  }

  /** The part of it that does not speak of the books, unfolded in the same way. */
  ghost predicate Steady(h: Heap) {
    forall k {:trigger Inspect(h, k)} :: Inspect(h, k) ==> Sound(h)
  }

  lemma Unseal(h: Heap)
    requires Steady(h)
    ensures Sound(h)
  {
    assert Inspect(h, 0);
  }

  lemma Close(h: Heap)
    requires Steady(h) && h.live == Owned(h)
    ensures Consistent(h)
  {
  }

  lemma SoundSame(h: Heap, g: Heap)
    requires Sound(h) && g == h.(live := g.live)
    ensures Sound(g) && Owned(g) == Owned(h)
  {
  }

  /** Two sizes within DONTCARE of each other are the same. */
  lemma WholeNear(n: int, k: int)
    requires Whole(n) && Whole(k) && n <= k <= n + DONTCARE
    ensures n == k
  {
  }

  lemma HeaderFacts(h: Heap, c: int)
    requires Sound(h) && c in h.L
    ensures c in h.cs && SizeOf(h.cs[c]) == h.L[c].size && InUse(h.cs[c]) == h.L[c].used
    ensures c + h.L[c].size in h.ps && h.ps[c + h.L[c].size] == h.cs[c]
    ensures Marked(h.cs[c]) == h.L[c].size + 1
    ensures Boundary(h.L, h.ends, c + h.L[c].size)
  {
    assert HeaderOk(h.L, h.cs, c) && FooterOk(h.L, h.ps, c) && Placed(h.L, c) && Followed(h.L, h.ends, c);
    EncBit(h.L[c]);
  }

  /** What the header at any boundary says about the chunk there. */
  lemma BoundaryFacts(h: Heap, x: int)
    requires Sound(h) && Boundary(h.L, h.ends, x)
    ensures x in h.cs && x in h.ps
    ensures InUse(h.cs[x]) <==> !Free(h.L, x)
    ensures Free(h.L, x) ==> SizeOf(h.cs[x]) == h.L[x].size > 0
    ensures !InUse(h.ps[x]) ==> PredFree(h.L, x, h.ps[x]) && h.ps[x] > 0
    ensures InUse(h.ps[x]) ==> forall c :: Free(h.L, c) ==> c + h.L[c].size != x
  {
    assert BackOk(h.L, h.ps, x);
    if x in h.L { HeaderFacts(h, x); } else { assert InUse(1); }
    if InUse(h.ps[x]) {
      forall c | Free(h.L, c) ensures c + h.L[c].size != x {
        HeaderFacts(h, c);
      }
    }
  }

  /** Taking a free chunk into use changes that chunk's flag and nothing else. */
  lemma UnbinnedIs(h: Heap, c: int)
    requires Sound(h) && c in h.L
    ensures Joined(h.L, c, c + h.L[c].size, true) == h.L[c := Chunk(h.L[c].size, true)]
  {
    var k := h.L[c].size;
    var M, N := Joined(h.L, c, c + k, true), h.L[c := Chunk(k, true)];
    assert M.Keys == N.Keys;
  }

  lemma OwnedUnbinned(h: Heap, c: int, g: Heap)
    requires Sound(h) && Free(h.L, c) && g.mapped == h.mapped && g.L == h.L[c := Chunk(h.L[c].size, true)]
    ensures c !in Owned(h) && Owned(g) == Owned(h)[c := h.L[c].size]
  {
    OwnedIs(h, c);
    ChunkOrRegion(h, c);
    LiveNew(h.L, h.mapped, c, h.L[c].size);
  }

  /** From L to M the free chunks in [lo, hi) were taken into use, and `self` was the only
      one there in use before. */
  ghost predicate Taken(L: Chunks, M: Chunks, lo: int, hi: int, self: int) {
    && M.Keys == L.Keys
    && (forall x :: x in L ==> M[x].size == L[x].size)
    && (forall x :: x in L && lo <= x < hi ==> M[x].used && (L[x].used ==> x == self))
    && (forall x :: x in L && !(lo <= x < hi) ==> M[x] == L[x])
  }

  lemma LiveTaken(L: Chunks, M: Chunks, mapped: map<int, Region>, lo: int, hi: int, self: int)
    requires Taken(L, M, lo, hi, self) && lo <= self < hi
    requires forall m :: m in mapped ==> !(lo <= m < hi)
    ensures Live(Joined(M, lo, hi, false), mapped) == Forget(Live(L, mapped), self)
  {
    var a, b := Live(Joined(M, lo, hi, false), mapped), Forget(Live(L, mapped), self);
    forall x ensures At(a, x) == At(b, x) {
      LiveAt(L, mapped, x);
      LiveAt(Joined(M, lo, hi, false), mapped, x);
    }
    SameMap(a, b);
  }

  /** The kernel hands out page-aligned memory that nobody has. */
  ghost predicate Honest(h: Heap, sys: int -> Option<int>) {
    forall len :: Paged(len) && len >= PAGE_SIZE && sys(len).Some? ==> Unused(h, sys(len).value, len)
  }

  /** `PAGE_SIZE << mmap_step / 2` in 64 bits. */
  function LeastGrowth(step: nat): nat { if step / 2 < 52 then PAGE_SIZE * Pow2(step / 2) else 0 }

  /** The length that `expand_heap` asks for when `n` bytes are needed. */
  function Growth(n: nat, step: nat): nat {
    var want, least := AlignUp(n + SIZE_ALIGN, PAGE_SIZE), LeastGrowth(step);
    if want < least then least else want
  }

  lemma GrowthPaged(n: nat, step: nat)
    ensures Paged(Growth(n, step)) && Growth(n, step) >= n + SIZE_ALIGN
  {
    AlignUpFacts(n + SIZE_ALIGN, PAGE_SIZE);
    if step / 2 < 52 { DivExact(Pow2(step / 2), PAGE_SIZE); }
  }

  /** `expand_heap` got the `len` bytes at `a`: they continue the segment that ends there,
      or are a segment of their own. */
  ghost predicate Grown(was: Segments, end: int, a: int, len: int, c: int, ends: Segments, end': int) {
    && end' == a + len
    && (a != end ==> c == a + 16 && ends == OpenedEnds(was, a, len))
    && (a == end ==> c == a - 16 && c in was && ends == ExtendedEnds(was, c, len))
  }

  /** A request of adjusted size `a` that no bin can meet. */
  ghost predicate Unmet(L: Chunks, a: nat) { BinIndexUpDefined(a) && NoneFrom(L, BinIndexUp(a)) }

  /** When `mem_alloc` returns NULL: the size is refused, or the kernel refuses the one
      request it gets, which for sizes up to the threshold it gets only if no bin fits. */
  ghost predicate Refuses(L: Chunks, step: nat, sys: int -> Option<int>, n: nat) {
    var size := AdjustSize(n);
    || size.None?
    || (size.value > MMAP_THRESHOLD && sys(AlignUp(size.value + OVERHEAD, PAGE_SIZE)).None?)
    || (size.value <= MMAP_THRESHOLD && Unmet(L, size.value) && sys(Growth(size.value, step)).None?)
  }

  /** When `mem_realloc` of a large allocation fails: `small` and `again` are the refusals
      of its two attempts at a new block. */
  predicate LargeRefused(r: Region, m: int, n: nat, small: bool, again: bool)
    requires m >= r.base
  {
    var newlen := n + (m - r.base);
    (newlen < PAGE_SIZE ==> small) && AlignUp(newlen, PAGE_SIZE) != r.len && again
  }

  /** The size of the free chunk after `c`, or 0. */
  function FreeAfter(L: Chunks, c: int): int
    requires c in L
  {
    var d := c + L[c].size;
    if Free(L, d) then L[d].size else 0
  }

  /** When `mem_realloc` leaves a chunk of the heap proper where it is: on shrinking,
      unless a smaller bin has chunks; on growing, if the free chunk after it suffices. */
  predicate StaysPut(L: Chunks, binmap: set<int>, c: int, n: nat)
    requires c in L && n >= SIZE_ALIGN
  {
    if n < L[c].size then
      BinIndexUpDefined(n) && !(BinIndexUp(n) < BinIndex(L[c].size) && BinIndexUp(n) in binmap)
    else n <= L[c].size + FreeAfter(L, c)
  }

  /** Every allocation in `a` is still one in `b`. */
  ghost predicate Extends(a: map<int, int>, b: map<int, int>) { forall c :: c in a ==> c in b && b[c] == a[c] }

  lemma RetireIntact(live: map<int, int>, more: map<int, int>, self: int,
                     b0: map<int, int>, b1: map<int, int>, b2: map<int, int>, b3: map<int, int>)
    requires Intact(live, b0, b1) && Intact(more, b1, b2) && Intact(Forget(live, self), b2, b3)
    requires Extends(live, more)
    ensures Intact(Forget(live, self), b0, b3)
  {
    var f := Forget(live, self);
    IntactLess(live, f, b0, b1);
    IntactLess(more, f, b1, b2);
    IntactTrans(f, b0, b1, b2);
    IntactTrans(f, b0, b2, b3);
  }

  lemma IntactSame(live: map<int, int>, b: map<int, int>)
    ensures Intact(live, b, b)
  {
  }

  /** Two headers and two ring links written: no owned byte is lost. */
  lemma WritesIntact(g: Heap, x: int, y: int, prev: Option<int>, next: Option<int>, b: map<int, int>)
    requires Steady(g) && Boundary(g.L, g.ends, x) && Boundary(g.L, g.ends, y)
    requires (prev.None? || Free(g.L, prev.value)) && (next.None? || Free(g.L, next.value))
    ensures Intact(Owned(g), b, Erase(Erase(EraseLinks(EraseLinks(b, prev), next), x, 16), y, 16))
  {
    Unseal(g);
    IntactSame(Owned(g), b);
    LinksErased(g, prev, b, b);
    LinksErased(g, next, b, EraseLinks(b, prev));
    var d := EraseLinks(EraseLinks(b, prev), next);
    HeaderErased(g, x, b, d);
    HeaderErased(g, y, b, Erase(d, x, 16));
  }

  lemma SplitIntact(g: Heap, x: int, y: int, z: int, b: map<int, int>)
    requires Steady(g) && Boundary(g.L, g.ends, x) && Boundary(g.L, g.ends, y) && Boundary(g.L, g.ends, z)
    ensures Intact(Owned(g), b, Erase(Erase(Erase(b, x, 16), y, 16), z, 16))
  {
    Unseal(g);
    IntactSame(Owned(g), b);
    HeaderErased(g, x, b, b);
    HeaderErased(g, y, b, Erase(b, x, 16));
    HeaderErased(g, z, b, Erase(Erase(b, x, 16), y, 16));
  }

  lemma RingFree(h: Heap, c: int, i: int)
    requires Sound(h) && 0 <= i < BINS && c in h.bins[i]
    ensures var p := RingPrev(h.bins[i], c); p.None? || (p.value != c && Free(h.L, p.value))
    ensures var n := RingNext(h.bins[i], c); n.None? || (n.value != c && Free(h.L, n.value))
  {
    var s := h.bins[i];
    var k := Position(s, c);
    if k > 0 { assert s[k - 1] in s && Belongs(h.L, s[k - 1], i); }
    if k < |s| - 1 { assert s[k + 1] in s && Belongs(h.L, s[k + 1], i); }
  }

  /** What `unbin` reads before it writes. */
  lemma UnbinReads(h: Heap, c: int, i: int)
    requires Consistent(h) && Belongs(h.L, c, i)
    ensures 0 <= i < |h.bins| && c in h.bins[i]
    ensures c in h.cs && SizeOf(h.cs[c]) == h.L[c].size && Marked(h.cs[c]) == h.L[c].size + 1
    ensures c + h.L[c].size in h.ps && h.ps[c + h.L[c].size] == h.cs[c]
    ensures RingPrev(h.bins[i], c) == RingNext(h.bins[i], c) <==> h.bins[i] == [c]
  {
    Open(h);
    SizeInBins(h, c);
    HeaderFacts(h, c);
    RingAlone(h.bins[i], c);
  }

  lemma UnbinForm(h: Heap, c: int, i: int, g: Heap)
    requires Consistent(h) && Belongs(h.L, c, i) && 0 <= i < |h.bins| && c in h.bins[i]
    requires c in h.cs && c + h.L[c].size in h.ps
    requires var k := c + h.L[c].size;
             g == Heap(h.L[c := Chunk(h.L[c].size, true)], h.ends, h.mapped,
                       h.ps[k := Marked(h.ps[k])], h.cs[c := Marked(h.cs[c])],
                       h.bins[i := Remove(h.bins[i], c)],
                       if RingPrev(h.bins[i], c) == RingNext(h.bins[i], c) then h.binmap - {i} else h.binmap,
                       h.live[c := h.L[c].size])
    ensures g == Unbinned(h, c, i).(L := h.L[c := Chunk(h.L[c].size, true)], live := h.live[c := h.L[c].size])
  {
    UnbinReads(h, c, i);
  }

  lemma UnbinParts(h: Heap, c: int, i: int, g: Heap)
    requires Consistent(h) && Belongs(h.L, c, i) && 0 <= i < |h.bins| && c in h.bins[i]
    requires g == Unbinned(h, c, i).(L := h.L[c := Chunk(h.L[c].size, true)], live := g.live)
    ensures Steady(g) && Boundary(g.L, g.ends, c) && Boundary(g.L, g.ends, c + h.L[c].size)
  {
    Open(h);
    UnbinnedIs(h, c);
    UnbinnedSound(h, c, i, Unbinned(h, c, i));
    assert g == Unbinned(h, c, i).(live := g.live);
    SoundSame(Unbinned(h, c, i), g);
    ChunkRange(h, c);
  }

  lemma UnbinRing(h: Heap, c: int, i: int, g: Heap)
    requires Consistent(h) && Belongs(h.L, c, i) && 0 <= i < |h.bins| && c in h.bins[i]
    requires g.L == h.L[c := Chunk(h.L[c].size, true)] && g.mapped == h.mapped
    ensures var p := RingPrev(h.bins[i], c); p.None? || Free(g.L, p.value)
    ensures var n := RingNext(h.bins[i], c); n.None? || Free(g.L, n.value)
    ensures c !in h.live && Owned(g) == h.live[c := h.L[c].size]
  {
    Open(h);
    RingFree(h, c, i);
    OwnedUnbinned(h, c, g);
  }

  lemma UnbinWrites(h: Heap, c: int, i: int, g: Heap, b: map<int, int>)
    requires Consistent(h) && Belongs(h.L, c, i) && 0 <= i < |h.bins| && c in h.bins[i]
    requires g == Unbinned(h, c, i).(L := h.L[c := Chunk(h.L[c].size, true)], live := h.live[c := h.L[c].size])
    ensures Consistent(g) && c !in h.live
    ensures Intact(g.live, b, Erase(Erase(EraseLinks(EraseLinks(b, RingPrev(h.bins[i], c)), RingNext(h.bins[i], c)),
                                          c, 16), c + h.L[c].size, 16))
  {
    UnbinParts(h, c, i, g);
    UnbinRing(h, c, i, g);
    WritesIntact(g, c, c + h.L[c].size, RingPrev(h.bins[i], c), RingNext(h.bins[i], c), b);
    Close(g);
  }

  lemma ReleaseWrites(h: Heap, lo: int, hi: int, i: int, g: Heap, tail: Option<int>, b: map<int, int>)
    requires Consistent(h)
    requires Releasable(h, lo, hi) && hi - lo >= SIZE_ALIGN && i == BinIndex(hi - lo) && 0 <= i < |h.bins|
    requires g == Released(h, lo, hi, i).(live := Drop(h.live, lo, hi))
    requires tail == if h.bins[i] == [] then None else Some(h.bins[i][|h.bins[i]| - 1])
    ensures Consistent(g)
    ensures Intact(g.live, b, Erase(Erase(EraseLinks(EraseLinks(b, tail), Some(lo)), lo, 16), hi, 16))
  {
    Open(h);
    ReleasedSound(h, lo, hi, i, Released(h, lo, hi, i));
    SoundSame(Released(h, lo, hi, i), g);
    RegionsOutside(h, lo, hi);
    LiveReleased(h.L, h.mapped, lo, hi);
    if tail.Some? { TailFree(h, i); }
    ReleasedFree(h, lo, hi);
    WritesIntact(g, lo, hi, tail, Some(lo), b);
    Close(g);
  }

  /** After the free neighbour below was taken, if there is one: `lo` is where the chunk to
      be released starts. */
  ghost predicate MergedBelow(h: Heap, M: Chunks, lo: int, self: int) {
    && self in h.L && h.L[self].used
    && Taken(h.L, M, lo, self + h.L[self].size, self)
    && lo in M && lo <= self && (lo == self || lo + M[lo].size == self)
    && (forall c :: Free(M, c) ==> c + M[c].size != lo)
  }

  lemma MergedBelowNone(h: Heap, self: int)
    requires Consistent(h) && self in h.L && h.L[self].used && self in h.ps && InUse(h.ps[self])
    ensures MergedBelow(h, h.L, self, self)
  {
    Open(h);
    BoundaryFacts(h, self);
  }

  lemma MergedBelowSome(h: Heap, self: int)
    requires Consistent(h) && self in h.L && h.L[self].used && self in h.ps && !InUse(h.ps[self])
    ensures Free(h.L, self - h.ps[self]) && h.L[self - h.ps[self]].size == h.ps[self]
    ensures MergedBelow(h, h.L[self - h.ps[self] := Chunk(h.ps[self], true)], self - h.ps[self], self)
  {
    Open(h);
    BoundaryFacts(h, self);
    var p := self - h.ps[self];
    var M := h.L[p := Chunk(h.ps[self], true)];
    forall c | Free(M, c) ensures c + M[c].size != p {
      assert !FreePair(h.L, c);
    }
  }

  lemma MergedRange(g: Heap, lo: int, self: int, next: int, hi: int)
    requires Sound(g) && lo in g.L && self in g.L && self + g.L[self].size == next
    requires lo == self || lo + g.L[lo].size == self
    requires hi == next || (next in g.L && next + g.L[next].size == hi)
    ensures Range(g.L, g.ends, lo, hi)
  {
    ChunkRange(g, lo);
    ChunkRange(g, self);
    if lo != self { RangeJoin(g.L, g.ends, lo, self, next); }
    if hi != next {
      ChunkRange(g, next);
      RangeJoin(g.L, g.ends, lo, next, hi);
    }
  }

  /** Likewise above: [lo, hi) is ready to be released. */
  lemma MergedAbove(h: Heap, h1: Heap, g: Heap, lo: int, self: int)
    requires Sound(h) && MergedBelow(h, h1.L, lo, self)
    requires var next := self + h.L[self].size;
             if Free(h.L, next) then g.L == h1.L[next := Chunk(h.L[next].size, true)] else g.L == h1.L
    requires Sound(g) && g.ends == h.ends
    ensures var next := self + h.L[self].size;
            var hi := if Free(h.L, next) then next + h.L[next].size else next;
            Releasable(g, lo, hi) && Taken(h.L, g.L, lo, hi, self)
  {
    var next := self + h.L[self].size;
    var hi := if Free(h.L, next) then next + h.L[next].size else next;
    MergedTaken(h, h1, g, lo, self);
    MergedRange(g, lo, self, next, hi);
  }

  lemma MergedTaken(h: Heap, h1: Heap, g: Heap, lo: int, self: int)
    requires Sound(h) && MergedBelow(h, h1.L, lo, self)
    requires var next := self + h.L[self].size;
             if Free(h.L, next) then g.L == h1.L[next := Chunk(h.L[next].size, true)] else g.L == h1.L
    ensures var next := self + h.L[self].size;
            var hi := if Free(h.L, next) then next + h.L[next].size else next;
            && Taken(h.L, g.L, lo, hi, self) && AllUsed(g.L, lo, hi)
            && !Free(g.L, hi) && (forall c :: Free(g.L, c) ==> c + g.L[c].size != lo)
  {
    var next := self + h.L[self].size;
    assert !FreePair(h.L, next);
  }

  lemma RetireReady(h: Heap, h1: Heap, g: Heap, lo: int, self: int, hi: int)
    requires Consistent(h) && MergedBelow(h, h1.L, lo, self)
    requires var next := self + h.L[self].size;
             && hi == (next + if Free(h1.L, next) then h1.L[next].size else 0)
             && g.L == if Free(h1.L, next) then h1.L[next := Chunk(h1.L[next].size, true)] else h1.L
    requires Consistent(g) && g.ends == h.ends && g.mapped == h.mapped
    ensures Releasable(g, lo, hi)
    ensures Drop(g.live, lo, hi) == Forget(h.live, self)
  {
    Open(h);
    Open(g);
    var next := self + h.L[self].size;
    assert Free(h1.L, next) <==> Free(h.L, next);
    MergedAbove(h, h1, g, lo, self);
    RetiredLive(h, g, lo, self, hi);
  }

  lemma RetiredLive(h: Heap, g: Heap, lo: int, self: int, hi: int)
    requires Sound(g)
    requires g.mapped == h.mapped && Releasable(g, lo, hi) && Taken(h.L, g.L, lo, hi, self) && lo <= self < hi
    ensures Drop(Owned(g), lo, hi) == Forget(Owned(h), self)
  {
    RegionsOutside(g, lo, hi);
    LiveTaken(h.L, g.L, g.mapped, lo, hi, self);
    LiveReleased(g.L, g.mapped, lo, hi);
  }

  lemma CutSpot(h: Heap, c: int, n: int)
    requires Sound(h) && Cuttable(h.L, c, n)
    ensures c !in h.mapped && c + n !in h.mapped && c + n !in h.L
    ensures c in Owned(h) && c + n !in Owned(h) && Owned(h)[c] == h.L[c].size
  {
    OwnedIs(h, c);
    OwnedIs(h, c + n);
    ChunkRange(h, c);
    RegionsOutside(h, c, c + h.L[c].size);
  }

  lemma OwnedCut(h: Heap, c: int, n: int, used: bool)
    requires Sound(h) && Cuttable(h.L, c, n)
    ensures Live(Cut(h.L, c, n, used), h.mapped) ==
            if used then Owned(h)[c := n][c + n := h.L[c].size - n] else Owned(h)[c := n]
    ensures c in Owned(h) && c + n !in Owned(h) && Owned(h)[c] == h.L[c].size
  {
    CutSpot(h, c, n);
    LiveCut(h.L, h.mapped, c, n, h.L[c].size - n, used);
  }

  lemma LiveCut(L: Chunks, mapped: map<int, Region>, c: int, n: int, k: int, used: bool)
    requires c !in mapped && c + n !in mapped && c + n !in Live(L, mapped) && n != 0
    ensures Live(L[c := Chunk(n, true)][c + n := Chunk(k, used)], mapped) ==
            if used then Live(L, mapped)[c := n][c + n := k] else Live(L, mapped)[c := n]
  {
    var M := L[c := Chunk(n, true)];
    LiveNew(L, mapped, c, n);
    if used { LiveNew(M, mapped, c + n, k); } else { LiveNewFree(M, mapped, c + n, k); }
  }

  lemma TrimmedForm(h: Heap, c: int, n: int, n1: int, i: int, g: Heap)
    requires c in h.L && h.L[c].size == n1 && 0 <= i < |h.bins|
    requires g == h.(L := Cut(h.L, c, n, false),
                  ps := h.ps[c + n := n + 1][c + n1 := n1 - n], cs := h.cs[c := n + 1][c + n := n1 - n],
                  bins := h.bins[i := h.bins[i] + [c + n]],
                  binmap := if h.bins[i] == [] then h.binmap + {i} else h.binmap)
    ensures g == Trimmed(h, c, n, i)
  {
  }

  lemma TrimBytes(h: Heap, c: int, n: int, i: int, g: Heap, tail: Option<int>, b: map<int, int>)
    requires Sound(h) && Sound(g) && Cuttable(h.L, c, n) && 0 <= i < |h.bins|
    requires g.L == Cut(h.L, c, n, false) && g.ends == h.ends
    requires tail == if h.bins[i] == [] then None else Some(h.bins[i][|h.bins[i]| - 1])
    ensures Intact(Owned(g), b, EraseLinks(EraseLinks(
                     Erase(Erase(Erase(b, c, 16), c + n, 16), c + h.L[c].size, 16), tail), Some(c + n)))
  {
    var d := Erase(Erase(Erase(b, c, 16), c + n, 16), c + h.L[c].size, 16);
    if tail.Some? { TailFree(h, i); assert Free(g.L, tail.value); }
    ChunkRange(h, c);
    SplitIntact(g, c, c + n, c + h.L[c].size, b);
    LinksErased(g, tail, b, d);
    LinksErased(g, Some(c + n), b, EraseLinks(d, tail));
  }

  lemma TrimWrites(h: Heap, c: int, n: int, n1: int, i: int, g: Heap, tail: Option<int>, b: map<int, int>)
    requires Consistent(h) && Cuttable(h.L, c, n) && h.L[c].size == n1 && !Free(h.L, c + n1)
    requires n1 - n >= SIZE_ALIGN && i == BinIndex(n1 - n) && 0 <= i < |h.bins|
    requires g == h.(L := Cut(h.L, c, n, false),
                  ps := h.ps[c + n := n + 1][c + n1 := n1 - n], cs := h.cs[c := n + 1][c + n := n1 - n],
                  bins := h.bins[i := h.bins[i] + [c + n]],
                  binmap := if h.bins[i] == [] then h.binmap + {i} else h.binmap,
                  live := h.live[c := n])
    requires tail == if h.bins[i] == [] then None else Some(h.bins[i][|h.bins[i]| - 1])
    ensures Consistent(g) && c in h.live && c in g.L && g.L[c] == Chunk(n, true)
    ensures Intact(g.live, b, EraseLinks(EraseLinks(
                                           Erase(Erase(Erase(b, c, 16), c + n, 16), c + n1, 16), tail), Some(c + n)))
  {
    Open(h);
    var t := Trimmed(h, c, n, i);
    TrimmedForm(h, c, n, n1, i, g.(live := h.live));
    TrimmedSound(h, c, n, i, t);
    SoundSame(t, g);
    OwnedCut(h, c, n, false);
    TrimBytes(h, c, n, i, g, tail, b);
    Close(g);
  }

  lemma TailFree(h: Heap, i: int)
    requires Sound(h) && 0 <= i < BINS && h.bins[i] != []
    ensures Free(h.L, h.bins[i][|h.bins[i]| - 1])
  {
    assert Belongs(h.L, h.bins[i][|h.bins[i]| - 1], i);
  }

  // ---- The same facts, for the methods ----

  lemma ChunkReads(h: Heap, c: int)
    requires Consistent(h) && c in h.L
    ensures c in h.cs && SizeOf(h.cs[c]) == h.L[c].size && InUse(h.cs[c]) == h.L[c].used
    ensures c + h.L[c].size in h.ps && h.ps[c + h.L[c].size] == h.cs[c]
    ensures Boundary(h.L, h.ends, c + h.L[c].size)
    ensures c !in h.mapped && (c in h.live <==> h.L[c].used) && (h.L[c].used ==> h.live[c] == h.L[c].size)
  {
    Open(h);
    HeaderFacts(h, c);
    OwnedIs(h, c);
    ChunkOrRegion(h, c);
  }

  /** Asking for the size that a chunk has leaves it where it is. */
  lemma SameSize(h: Heap, c: int, binmap: set<int>)
    requires Consistent(h) && c in h.L && h.L[c].used
    ensures h.L[c].size >= SIZE_ALIGN && StaysPut(h.L, binmap, c, h.L[c].size)
    ensures c in h.live && h.live == h.live[c := h.L[c].size]
  {
    ChunkReads(h, c);
    SizeReads(h, c);
    if Free(h.L, c + h.L[c].size) { SizeReads(h, c + h.L[c].size); }
  }

  lemma SizeReads(h: Heap, c: int)
    requires Consistent(h) && c in h.L
    ensures OnGrid(c) && Whole(h.L[c].size) && h.L[c].size >= SIZE_ALIGN
  {
    Open(h);
    SizeInBins(h, c);
  }

  lemma BoundaryReads(h: Heap, x: int)
    requires Consistent(h) && Boundary(h.L, h.ends, x)
    ensures x in h.cs && x in h.ps
    ensures InUse(h.cs[x]) <==> !Free(h.L, x)
    ensures Free(h.L, x) ==> SizeOf(h.cs[x]) == h.L[x].size >= SIZE_ALIGN
    ensures !InUse(h.ps[x]) ==> PredFree(h.L, x, h.ps[x]) && h.ps[x] >= SIZE_ALIGN
  {
    Open(h);
    BoundaryFacts(h, x);
    if Free(h.L, x) { SizeInBins(h, x); }
    if !InUse(h.ps[x]) { SizeInBins(h, x - h.ps[x]); }
  }

  lemma ReleaseReads(h: Heap, lo: int, hi: int)
    requires Consistent(h) && Range(h.L, h.ends, lo, hi)
    ensures |h.bins| == BINS && hi - lo >= SIZE_ALIGN && 0 <= BinIndex(hi - lo) < BINS
  {
    Open(h);
    RangeSize(h, lo, hi);
  }

  lemma CutReads(h: Heap, c: int, n: int)
    requires Consistent(h) && Cuttable(h.L, c, n)
    ensures |h.bins| == BINS && h.L[c].size - n >= SIZE_ALIGN && 0 <= BinIndex(h.L[c].size - n) < BINS
  {
    Open(h);
    CutSize(h, c, n);
  }

  // ---- New memory ----

  lemma OpenWrites(h: Heap, a: int, len: int, g: Heap, b: map<int, int>)
    requires Consistent(h) && Unused(h, a, len) && g == OpenedHeap(h, a, len).(live := h.live[a + 16 := len - 32])
    ensures Consistent(g) && !Free(g.L, a + len - 16)
    ensures a + 16 !in h.live
    ensures Intact(g.live, b, Erase(Erase(b, a + 16, 16), a + len - 16, 16))
  {
    OpenParts(h, a, len, g);
    WritesIntact(g, a + 16, a + len - 16, None, None, b);
    Close(g);
  }

  lemma OpenParts(h: Heap, a: int, len: int, g: Heap)
    requires Consistent(h) && Unused(h, a, len) && g == OpenedHeap(h, a, len).(live := g.live)
    ensures Steady(g) && Boundary(g.L, g.ends, a + 16) && Boundary(g.L, g.ends, a + len - 16)
    ensures Owned(g) == h.live[a + 16 := len - 32]
    ensures a + 16 !in h.mapped && a + 16 !in h.live && !Free(g.L, a + len - 16)
  {
    Open(h);
    OpenedSound(h, a, len);
    SoundSame(OpenedHeap(h, a, len), g);
    ClearSpot(h.L, h.ends, a, len, a + 16);
    ClearSpot(h.L, h.ends, a, len, a + len - 16);
    OwnedIs(h, a + 16);
    ChunkOrRegion(g, a + 16);
    LiveNew(h.L, h.mapped, a + 16, len - 32);
  }

  lemma ExtendParts(h: Heap, e: int, len: int, g: Heap)
    requires Consistent(h) && e in h.ends && Unused(h, e + 16, len) && g == ExtendedHeap(h, e, len).(live := g.live)
    ensures Steady(g) && Boundary(g.L, g.ends, e) && Boundary(g.L, g.ends, e + len) && !Free(g.L, e + len)
    ensures e !in h.mapped && e !in h.live
  {
    Open(h);
    ExtendedSound(h, e, len);
    SoundSame(ExtendedHeap(h, e, len), g);
    ClearSpot(h.L, h.ends, e + 16, len, e + len);
    OwnedIs(h, e);
    ChunkOrRegion(g, e);
  }

  lemma ExtendOwned(h: Heap, e: int, len: int, g: Heap)
    requires Consistent(h) && e !in h.mapped && g.L == h.L[e := Chunk(len, true)] && g.mapped == h.mapped
    ensures Owned(g) == h.live[e := len]
  {
    BooksAre(h);
    LiveNew(h.L, h.mapped, e, len);
  }

  lemma ExtendWrites(h: Heap, e: int, a: int, len: int, g: Heap, b: map<int, int>)
    requires Consistent(h) && e in h.ends && e == a - 16 && Unused(h, a, len)
    requires g == ExtendedHeap(h, e, len).(live := h.live[e := len])
    ensures Consistent(g) && !Free(g.L, e + len) && e in g.L && g.L[e] == Chunk(len, true) && a + len - 16 in g.ends
    ensures e !in h.live
    ensures Intact(g.live, b, Erase(Erase(b, e, 16), e + len, 16))
  {
    assert a == e + 16;
    ExtendParts(h, e, len, g);
    ExtendOwned(h, e, len, g);
    WritesIntact(g, e, e + len, None, None, b);
    Close(g);
  }

  /** The bits of the bitmap at or above a bin lead to free chunks, all large enough. */
  lemma BinReads(h: Heap, i: int)
    requires Consistent(h)
    ensures |h.bins| == BINS && (i in h.binmap <==> 0 <= i < BINS && h.bins[i] != [])
    ensures i in h.binmap ==> Belongs(h.L, h.bins[i][0], i) && Whole(h.L[h.bins[i][0]].size)
    ensures i in h.binmap ==> !Free(h.L, h.bins[i][0] + h.L[h.bins[i][0]].size)
    ensures i in h.binmap ==> h.bins[i][0] in h.cs && SizeOf(h.cs[h.bins[i][0]]) == h.L[h.bins[i][0]].size
  {
    Open(h);
    if i in h.binmap {
      var c := h.bins[i][0];
      assert c in h.bins[i];
      SizeInBins(h, c);
      HeaderFacts(h, c);
      assert !FreePair(h.L, c);
    }
  }

  /** No chunk is left in a bin from `i` up. */
  ghost predicate NoneFrom(L: Chunks, i: int) {
    forall c :: Free(L, c) ==> L[c].size >= SIZE_ALIGN && BinIndex(L[c].size) < i
  }

  /** No free chunk is large enough for adjusted size `a` by a quarter, nor, for up to 33
      alignment units, large enough at all. */
  ghost predicate NoFit(L: Chunks, a: nat) {
    forall c :: Free(L, c) ==> 4 * L[c].size < 5 * a && (a <= 33 * SIZE_ALIGN ==> L[c].size < a)
  }

  lemma UnmetMeansNoFit(h: Heap, a: nat)
    requires Consistent(h) && Whole(a) && SIZE_ALIGN <= a <= MMAP_THRESHOLD && Unmet(h.L, a)
    ensures NoFit(h.L, a)
  {
    forall c | Free(h.L, c) ensures 4 * h.L[c].size < 5 * a && (a <= 33 * SIZE_ALIGN ==> h.L[c].size < a) {
      SizeReads(h, c);
      if h.L[c].size >= a && (a <= 33 * SIZE_ALIGN || 4 * h.L[c].size >= 5 * a) {
        BinReaches(h.L[c].size, a);
      }
    }
  }

  lemma BitReads(h: Heap, j: int)
    requires Consistent(h) && j in h.binmap
    ensures 0 <= j < |h.bins| == BINS
  {
    Open(h);
  }

  /** A bin from `i` up whose bit is set turned out to be empty, or its bit is clear. */
  ghost predicate Passed(h: Heap, i: int, j: int) { 0 <= j < |h.bins| && i <= j && j in h.binmap ==> h.bins[j] == [] }

  lemma EmptyBins(h: Heap, i: int)
    requires Consistent(h) && forall j :: Passed(h, i, j)
    ensures NoneFrom(h.L, i)
  {
    Open(h);
    forall c | Free(h.L, c) ensures h.L[c].size >= SIZE_ALIGN && BinIndex(h.L[c].size) < i {
      SizeInBins(h, c);
      assert Passed(h, i, BinIndex(h.L[c].size));
    }
  }

  lemma LowestBin(h: Heap, i: int, j: int)
    requires Consistent(h) && j in h.binmap && forall k :: k < j ==> Passed(h, i, k)
    ensures |h.bins| == BINS && forall k :: 0 <= k < BINS && i <= k < j ==> h.bins[k] == []
  {
    Open(h);
    forall k | 0 <= k < BINS && i <= k < j ensures h.bins[k] == [] {
      assert Passed(h, i, k);
    }
  }

  // ---- Large allocations ----

  lemma RegionHeaderUnowned(h: Heap, m: int)
    requires Sound(h) && m in h.mapped
    ensures Unowned(Owned(h), m, 16)
  {
    OwnedIs(h, m);
    forall c, y | Owns(Owned(h), c, y) ensures y < m || m + 16 <= y {
      OwnedIs(h, c);
      if c < m { LiveDisjoint(h, c, m); }
    }
  }

  lemma RegionWrites(g: Heap, m: int, b: map<int, int>)
    requires Steady(g) && m in g.mapped
    ensures Intact(Owned(g), b, Erase(b, m, 16))
  {
    Unseal(g);
    RegionHeaderUnowned(g, m);
    IntactSame(Owned(g), b);
    EraseIntact(Owned(g), b, b, m, 16);
  }

  lemma MapSound(h: Heap, a: int, len: int, g: Heap)
    requires Sound(h) && Unused(h, a, len) && len > MMAP_THRESHOLD
    requires g == MappedHeap(h, a, len).(live := g.live)
    ensures Sound(g) && a + 16 !in Owned(h)
  {
    MappedSound(h, a, len);
    SoundSame(MappedHeap(h, a, len), g);
    OwnedIs(h, a + 16);
  }

  lemma MapWrites(h: Heap, a: int, len: int, g: Heap, b: map<int, int>)
    requires Consistent(h) && Unused(h, a, len) && len > MMAP_THRESHOLD
    requires g == MappedHeap(h, a, len).(live := h.live[a + 16 := len - 16])
    ensures Consistent(g) && OnGrid(a + 16) && a + 16 !in h.live
    ensures Intact(g.live, b, Erase(b, a + 16, 16))
  {
    Open(h);
    MapSound(h, a, len, g);
    PagedGrid(a, len);
    LiveMap(h.L, h.mapped, a + 16, Region(a, len));
    RegionWrites(g, a + 16, b);
    Close(g);
  }

  lemma UnmapWrites(h: Heap, m: int, g: Heap)
    requires Consistent(h) && m in h.mapped && g == UnmappedHeap(h, m).(live := Forget(h.live, m))
    ensures Consistent(g)
  {
    Open(h);
    UnmappedSound(h, m);
    SoundSame(UnmappedHeap(h, m), g);
    MappedApart(h, m);
    LiveUnmap(h.L, h.mapped, m);
    assert g.mapped == Without(h.mapped, m);
    Close(g);
  }

  lemma RealignSound(h: Heap, m: int, k: int, g: Heap)
    requires Consistent(h) && m in h.mapped && m in h.ps && m in h.cs
    requires k > 0 && Whole(k) && m + k + 16 <= h.mapped[m].base + h.mapped[m].len
    requires g == Realigned(h, m, k).(live := g.live)
    ensures Steady(g) && m !in h.L && m + k !in h.live
  {
    Open(h);
    RealignedSound(h, m, k);
    SoundSame(Realigned(h, m, k), g);
    MappedApart(h, m);
    OwnedIs(h, m + k);
  }

  lemma LiveRealigned(L: Chunks, mapped: map<int, Region>, m: int, d: int)
    requires m !in L && m in mapped && d !in Live(L, mapped)
    ensures m in Live(L, mapped)
    ensures Live(L, Without(mapped, m)[d := mapped[m]]) == Forget(Live(L, mapped), m)[d := Live(L, mapped)[m] - (d - m)]
  {
    LiveAt(L, mapped, m);
    LiveUnmap(L, mapped, m);
    LiveMap(L, Without(mapped, m), d, mapped[m]);
  }

  lemma RealignOwned(h: Heap, m: int, k: int, g: Heap)
    requires Consistent(h) && m in h.mapped && m !in h.L && m + k !in h.live && m in h.live
    requires g.L == h.L && g.mapped == Without(h.mapped, m)[m + k := h.mapped[m]]
    ensures Owned(g) == Forget(h.live, m)[m + k := h.live[m] - k]
  {
    BooksAre(h);
    LiveRealigned(h.L, h.mapped, m, m + k);
  }

  lemma RealignWrites(h: Heap, m: int, k: int, g: Heap, b: map<int, int>)
    requires Consistent(h) && m in h.mapped && m in h.ps && m in h.cs && m in h.live
    requires k > 0 && Whole(k) && m + k + 16 <= h.mapped[m].base + h.mapped[m].len
    requires g == Realigned(h, m, k).(live := Forget(h.live, m)[m + k := h.live[m] - k])
    ensures Consistent(g) && m + k !in h.live
    ensures Intact(g.live, b, Erase(b, m + k, 16))
  {
    RealignSound(h, m, k, g);
    assert g.mapped == Without(h.mapped, m)[m + k := h.mapped[m]];
    RealignOwned(h, m, k, g);
    RegionWrites(g, m + k, b);
    Close(g);
  }

  /** What the header of a large allocation says. */
  lemma RegionReads(h: Heap, m: int)
    requires Consistent(h) && m in h.mapped
    ensures m !in h.L && m in h.cs && m in h.ps && !InUse(h.cs[m]) && !InUse(h.ps[m])
    ensures var r := h.mapped[m];
            && h.ps[m] == m - r.base >= 16 && h.cs[m] == r.base + r.len - m >= 16
            && Paged(r.len) && r.len > MMAP_THRESHOLD
    ensures m in h.live && h.live[m] == h.cs[m] && OnGrid(m)
  {
    Open(h);
    MappedApart(h, m);
    OwnedIs(h, m);
    assert RegionOk(h.mapped[m], h.ps, h.cs, m) && Clear(h.ends, h.mapped[m].base, h.mapped[m].len);
    EvenOffsets(m, h.mapped[m].base, h.mapped[m].len);
  }

  lemma EvenOffsets(m: int, base: int, len: int)
    requires OnGrid(m) && Paged(base) && Paged(len)
    ensures !InUse(m - base) && !InUse(base + len - m)
  {
  }

  /** Every live allocation is an in-use chunk or a large region. */
  lemma LiveReads(h: Heap, c: int)
    requires Consistent(h) && c in h.live
    ensures (c in h.L && h.L[c].used) || c in h.mapped
  {
    Open(h);
    OwnedIs(h, c);
  }

  /** A new allocation of `n` bytes at `p`, in memory that was nobody's, aligned like the
      strictest type. */
  ghost predicate Granted(before: map<int, int>, after: map<int, int>, p: int, n: int) {
    && p - OVERHEAD !in before && p - OVERHEAD in after
    && after == before[p - OVERHEAD := after[p - OVERHEAD]]
    && after[p - OVERHEAD] >= n + OVERHEAD
    && p % SIZE_ALIGN == 0
  }

  lemma IntactGrown(live: map<int, int>, c: int, n: int, b: map<int, int>, d: map<int, int>)
    requires c !in live && Intact(live[c := n], b, d)
    ensures Intact(live, b, d)
  {
    IntactLess(live[c := n], live, b, d);
  }

  // ---- Resizing ----

  lemma SplitWrites(h: Heap, c: int, n: int, n1: int, g: Heap, b: map<int, int>)
    requires Consistent(h) && Cuttable(h.L, c, n) && h.L[c].size == n1
    requires g == h.(L := Cut(h.L, c, n, true),
                  ps := h.ps[c + n := n + 1][c + n1 := n1 - n + 1], cs := h.cs[c := n + 1][c + n := n1 - n + 1],
                  live := h.live[c := n][c + n := n1 - n])
    ensures Consistent(g) && c + n in g.L && g.L[c + n].used && c in g.L && g.L[c].used
    ensures c in h.live && c + n !in h.live
    ensures Intact(g.live, b, Erase(Erase(Erase(b, c, 16), c + n, 16), c + n1, 16))
  {
    SplitForm(h, c, n, n1, g);
    SplitParts(h, c, n, n1, g);
    SplitOwned(h, c, n, n1, g);
    SplitIntact(g, c, c + n, c + n1, b);
    Close(g);
  }

  lemma SplitOwned(h: Heap, c: int, n: int, n1: int, g: Heap)
    requires Consistent(h)
    requires Cuttable(h.L, c, n) && h.L[c].size == n1 && g.L == Cut(h.L, c, n, true) && g.mapped == h.mapped
    ensures Owned(g) == h.live[c := n][c + n := n1 - n] && c in h.live && c + n !in h.live
  {
    Open(h);
    OwnedCut(h, c, n, true);
  }

  lemma SplitForm(h: Heap, c: int, n: int, n1: int, g: Heap)
    requires c in h.L && h.L[c] == Chunk(n1, true)
    requires g == h.(L := Cut(h.L, c, n, true),
                  ps := h.ps[c + n := n + 1][c + n1 := n1 - n + 1], cs := h.cs[c := n + 1][c + n := n1 - n + 1],
                  live := g.live)
    ensures g == Split(h, c, n).(live := g.live)
  {
  }

  lemma SplitParts(h: Heap, c: int, n: int, n1: int, g: Heap)
    requires Consistent(h) && Cuttable(h.L, c, n) && h.L[c].size == n1 && g == Split(h, c, n).(live := g.live)
    ensures Steady(g) && c in g.L && c + n in g.L && g.L[c + n].used && g.L[c].used
    ensures Boundary(g.L, g.ends, c) && Boundary(g.L, g.ends, c + n) && Boundary(g.L, g.ends, c + n1)
  {
    SplitSteady(h, c, n, g);
    ChunkReads(h, c);
  }

  lemma SplitSteady(h: Heap, c: int, n: int, g: Heap)
    requires Consistent(h) && Cuttable(h.L, c, n) && g == Split(h, c, n).(live := g.live)
    ensures Steady(g)
  {
    Open(h);
    SplitSound(h, c, n);
    SoundSame(Split(h, c, n), g);
  }

  lemma FuseReady(h: Heap, lo: int, next: int, hi: int)
    requires Consistent(h) && lo in h.L && h.L[lo].used && next == lo + h.L[lo].size
    requires next in h.L && h.L[next].used && hi == next + h.L[next].size
    ensures Range(h.L, h.ends, lo, hi) && AllUsed(h.L, lo, hi)
    ensures forall x :: x in h.L && lo <= x < hi ==> x == lo || x == next
  {
    Open(h);
    ChunkRange(h, lo);
    ChunkRange(h, next);
    RangeJoin(h.L, h.ends, lo, next, hi);
    forall x | x in h.L && lo <= x < hi ensures x == lo || x == next { }
  }

  lemma FuseDrops(h: Heap, lo: int, next: int, hi: int)
    requires Consistent(h) && Range(h.L, h.ends, lo, hi) && lo <= next < hi
    requires forall x :: x in h.L && lo <= x < hi ==> x == lo || x == next
    ensures Drop(h.live, lo, hi)[lo := hi - lo] == Forget(h.live, next)[lo := hi - lo]
  {
    Open(h);
    RegionsOutside(h, lo, hi);
    forall x | x in Owned(h) && lo <= x < hi ensures x == lo || x == next {
      OwnedIs(h, x);
    }
  }

  lemma FuseSound(h: Heap, lo: int, n0: int, k: int, g: Heap)
    requires Consistent(h)
    requires lo in h.L && h.L[lo] == Chunk(n0, true) && lo + n0 in h.L && h.L[lo + n0] == Chunk(k, true)
    requires g == Fused(h, lo, lo + n0 + k).(live := g.live)
    ensures Steady(g) && Boundary(g.L, g.ends, lo) && Boundary(g.L, g.ends, lo + n0 + k)
  {
    Open(h);
    var hi := lo + n0 + k;
    FuseReady(h, lo, lo + n0, hi);
    FusedSound(h, lo, hi);
    SoundSame(Fused(h, lo, hi), g);
  }

  lemma FuseOwned(h: Heap, lo: int, n0: int, k: int)
    requires Consistent(h)
    requires lo in h.L && h.L[lo] == Chunk(n0, true) && lo + n0 in h.L && h.L[lo + n0] == Chunk(k, true)
    ensures Live(Joined(h.L, lo, lo + n0 + k, true), h.mapped) == Forget(h.live, lo + n0)[lo := n0 + k]
  {
    FuseSpan(h, lo, lo + n0, lo + n0 + k, n0 + k);
  }

  lemma FuseSpan(h: Heap, lo: int, next: int, hi: int, n: int)
    requires Consistent(h) && lo in h.L && h.L[lo].used && next == lo + h.L[lo].size
    requires next in h.L && h.L[next].used && hi == next + h.L[next].size && n == hi - lo
    ensures Live(Joined(h.L, lo, hi, true), h.mapped) == Forget(h.live, next)[lo := n]
  {
    FuseReady(h, lo, next, hi);
    SizeReads(h, lo);
    SizeReads(h, next);
    FuseDrops(h, lo, next, hi);
    FuseLive(h, lo, hi);
  }

  lemma FuseLive(h: Heap, lo: int, hi: int)
    requires Consistent(h) && Range(h.L, h.ends, lo, hi)
    ensures Live(Joined(h.L, lo, hi, true), h.mapped) == Drop(h.live, lo, hi)[lo := hi - lo]
  {
    Open(h);
    RegionsOutside(h, lo, hi);
    LiveFused(h.L, h.mapped, lo, hi);
  }

  lemma FusedForm(h: Heap, lo: int, n0: int, k: int, g: Heap)
    requires g == h.(L := Joined(h.L, lo, lo + n0 + k, true),
                  ps := h.ps[lo + n0 + k := n0 + k + 1], cs := h.cs[lo := n0 + k + 1], live := g.live)
    ensures g == Fused(h, lo, lo + n0 + k).(live := g.live)
  {
  }

  lemma FuseWrites(h: Heap, lo: int, n0: int, k: int, g: Heap, b: map<int, int>)
    requires Consistent(h)
    requires lo in h.L && h.L[lo] == Chunk(n0, true) && lo + n0 in h.L && h.L[lo + n0] == Chunk(k, true)
    requires g == h.(L := Joined(h.L, lo, lo + n0 + k, true),
                  ps := h.ps[lo + n0 + k := n0 + k + 1], cs := h.cs[lo := n0 + k + 1],
                  live := Forget(h.live, lo + n0)[lo := n0 + k])
    ensures Consistent(g) && lo in g.L && g.L[lo] == Chunk(n0 + k, true)
    ensures Free(g.L, lo + n0 + k) <==> Free(h.L, lo + n0 + k)
    ensures Intact(g.live, b, Erase(Erase(b, lo, 16), lo + n0 + k, 16))
  {
    FusedForm(h, lo, n0, k, g);
    FuseSound(h, lo, n0, k, g);
    FuseOwned(h, lo, n0, k);
    WritesIntact(g, lo, lo + n0 + k, None, None, b);
    Close(g);
  }

  /** An in-use chunk before a free one; what follows the free chunk is not free. */
  lemma AbsorbReads(h: Heap, c: int)
    requires Consistent(h) && c in h.L && h.L[c].used && Free(h.L, c + h.L[c].size)
    ensures c in h.cs && SizeOf(h.cs[c]) == h.L[c].size && h.L[c].size > 0
    ensures c in h.live && h.live[c] == h.L[c].size
    ensures var d := c + h.L[c].size; h.L[d].size >= SIZE_ALIGN && !Free(h.L, d + h.L[d].size)
  {
    ChunkReads(h, c);
    SizeReads(h, c + h.L[c].size);
    Open(h);
    assert !FreePair(h.L, c + h.L[c].size);
  }

  /** The first `len` bytes at `p` are now the first `len` bytes at `q`. */
  ghost predicate Kept(b: map<int, int>, d: map<int, int>, p: int, q: int, len: int) {
    forall x :: p <= x < p + len && x in b ==> x - p + q in d && d[x - p + q] == b[x]
  }

  lemma KeptInPlace(live: map<int, int>, b: map<int, int>, d: map<int, int>, c: int, len: int)
    requires Intact(live, b, d) && c in live && len <= live[c] - OVERHEAD
    ensures Kept(b, d, c + OVERHEAD, c + OVERHEAD, len)
  {
    forall x | c + OVERHEAD <= x < c + OVERHEAD + len && x in b ensures x in d && d[x] == b[x] {
      assert Owns(live, c, x);
    }
  }

  /** From `before` to `after` the allocation at `c` became one of at least `n` bytes at
      `d`; all others are as they were. */
  ghost predicate Resized(before: map<int, int>, after: map<int, int>, c: int, d: int, n: int) {
    && c in before && d in after && (d == c || d !in before)
    && after == Forget(before, c)[d := after[d]]
    && after[d] >= n + OVERHEAD
  }

  function Min(a: int, b: int): int { if a < b then a else b }

  /** What holds for the adjusted size `a` holds for the size `n` asked for. */
  lemma Loosen(live: map<int, int>, after: map<int, int>, b: map<int, int>, d: map<int, int>, c: int, e: int, a: int,
               n: int)
    requires Resized(live, after, c, e, a - OVERHEAD) && n + OVERHEAD <= a
    requires Kept(b, d, c + OVERHEAD, e + OVERHEAD, Min(live[c], a) - OVERHEAD)
    ensures Resized(live, after, c, e, n) && Kept(b, d, c + OVERHEAD, e + OVERHEAD, Min(live[c] - OVERHEAD, n))
  {
  }

  /** A caller's block, the copy in a new one, and the old one gone. */
  lemma CopyIntact(live: map<int, int>, c: int, d: int, k: int, len: int,
                   b0: map<int, int>, b1: map<int, int>, b2: map<int, int>, b3: map<int, int>)
    requires c in live && d !in live && 0 <= len <= live[c] - OVERHEAD && len <= k - OVERHEAD
    requires Intact(live, b0, b1)
    requires forall x :: !(d + OVERHEAD <= x < d + OVERHEAD + len) && x in b1 ==> x in b2 && b2[x] == b1[x]
    requires Kept(b1, b2, c + OVERHEAD, d + OVERHEAD, len)
    requires Intact(Forget(live[d := k], c), b2, b3)
    requires forall e, x :: Owns(live, e, x) ==> x < d + OVERHEAD || d + k <= x
    ensures Intact(Forget(live, c), b0, b3)
    ensures Kept(b0, b3, c + OVERHEAD, d + OVERHEAD, len)
  {
    var after := Forget(live[d := k], c);
    forall e, x | Owns(Forget(live, c), e, x) && x in b0 ensures x in b3 && b3[x] == b0[x] {
      assert Owns(live, e, x) && Owns(after, e, x);
    }
    forall x | c + OVERHEAD <= x < c + OVERHEAD + len && x in b0
      ensures x - c + d in b3 && b3[x - c + d] == b0[x]
    {
      assert Owns(live, c, x) && Owns(after, d, x - c + d);
    }
  }

  /** A new block is nobody's. */
  lemma NewBlockApart(h: Heap, live: map<int, int>, d: int)
    requires Consistent(h) && d !in live && d in h.live && h.live == live[d := h.live[d]]
    ensures forall e, x :: Owns(live, e, x) ==> x < d + OVERHEAD || d + h.live[d] <= x
  {
    Open(h);
    forall e, x | Owns(live, e, x) ensures x < d + OVERHEAD || d + h.live[d] <= x {
      if e < d { LiveDisjoint(h, e, d); } else { LiveDisjoint(h, d, e); }
    }
  }

  lemma BlocksApart(h: Heap, c: int, d: int, len: int)
    requires Consistent(h) && c in h.live && d in h.live && c != d
    requires 0 <= len <= h.live[c] - OVERHEAD && len <= h.live[d] - OVERHEAD
    ensures c + OVERHEAD + len <= d + OVERHEAD || d + OVERHEAD + len <= c + OVERHEAD
  {
    Open(h);
    if c < d { LiveDisjoint(h, c, d); } else { LiveDisjoint(h, d, c); }
  }

  // ---- Bookkeeping of the resizing paths, away from the heap ----

  lemma ShrinkBooks(live: map<int, int>, c: int, n: int, d: int, k: int, b0: map<int, int>, b1: map<int, int>,
                    b2: map<int, int>)
    requires c in live && d !in live && d != c
    requires Intact(live[c := n][d := k], b0, b1) && Intact(Forget(live[c := n][d := k], d), b1, b2)
    ensures Forget(live[c := n][d := k], d) == live[c := n]
    ensures Intact(live[c := n], b0, b2)
  {
    var both := live[c := n][d := k];
    assert Forget(both, d) == live[c := n];
    IntactLess(both, live[c := n], b0, b1);
    IntactTrans(live[c := n], b0, b1, b2);
  }

  lemma AbsorbBooks(live: map<int, int>, c: int, d: int, k: int, m: int, b0: map<int, int>, b1: map<int, int>,
                    b2: map<int, int>)
    requires c in live && d !in live && d != c && live[c] <= m
    requires Intact(live[d := k], b0, b1) && Intact(Forget(live[d := k], d)[c := m], b1, b2)
    ensures Forget(live[d := k], d)[c := m] == live[c := m]
    ensures Intact(live, b0, b2)
  {
    assert Forget(live[d := k], d) == live;
    IntactLess(live[d := k], live, b0, b1);
    IntactLess(live[c := m], live, b1, b2);
    IntactTrans(live, b0, b1, b2);
  }

  lemma GrowBooks(live: map<int, int>, c: int, n: int, m: int, b0: map<int, int>, b1: map<int, int>, b2: map<int, int>)
    requires c in live && live[c] <= n && Intact(live, b0, b1) && Intact(live[c := m][c := n], b1, b2)
    ensures live[c := m][c := n] == live[c := n]
    ensures Intact(live, b0, b2)
  {
    assert live[c := m][c := n] == live[c := n];
    IntactLess(live[c := n], live, b1, b2);
    IntactTrans(live, b0, b1, b2);
  }

  lemma MoveBooks(live: map<int, int>, c: int, d: int, k: int)
    requires c in live && d !in live
    ensures Forget(live[d := k], c) == Forget(live, c)[d := k]
  {
  }

  lemma ShrunkBooks(live: map<int, int>, c: int, n: int, b: map<int, int>, d: map<int, int>)
    requires c in live && OVERHEAD <= n <= live[c] && Intact(live[c := n], b, d)
    ensures Resized(live, live[c := n], c, c, n - OVERHEAD) && Intact(Forget(live, c), b, d)
    ensures Kept(b, d, c + OVERHEAD, c + OVERHEAD, n - OVERHEAD)
  {
    assert live[c := n] == Forget(live, c)[c := n];
    IntactLess(live[c := n], Forget(live, c), b, d);
    KeptInPlace(live[c := n], b, d, c, n - OVERHEAD);
  }

  lemma GrownBooks(live: map<int, int>, c: int, n: int, b: map<int, int>, d: map<int, int>)
    requires c in live && OVERHEAD <= live[c] <= n && Intact(live, b, d)
    ensures Resized(live, live[c := n], c, c, n - OVERHEAD) && Intact(Forget(live, c), b, d)
    ensures Kept(b, d, c + OVERHEAD, c + OVERHEAD, live[c] - OVERHEAD)
  {
    assert live[c := n] == Forget(live, c)[c := n];
    IntactLess(live, Forget(live, c), b, d);
    KeptInPlace(live, b, d, c, live[c] - OVERHEAD);
  }

  lemma SameBooks(live: map<int, int>, c: int, n: int, len: int, b: map<int, int>)
    requires c in live && live[c] >= n + OVERHEAD
    ensures Resized(live, live, c, c, n) && Intact(Forget(live, c), b, b)
    ensures Kept(b, b, c + OVERHEAD, c + OVERHEAD, len)
  {
    assert live == Forget(live, c)[c := live[c]];
  }

  // ---- Aligned and zeroed blocks ----

  /** `(a & -a) == a`: at most one bit is set. */
  predicate OneBit(a: nat) { a <= 1 || (a % 2 == 0 && OneBit(a / 2)) }

  lemma OneBitLarge(a: nat)
    requires OneBit(a) && a > 32
    ensures a % 32 == 0
  {
    var b := a / 2;
    var c := b / 2;
    var d := c / 2;
    var e := d / 2;
    assert OneBit(b) && OneBit(c) && OneBit(d) && OneBit(e);
    assert a == 2 * b && b == 2 * c && c == 2 * d && d == 2 * e;
    DivExact(e / 2, 32);
  }

  lemma OneBitSmall(a: nat, p: int)
    requires OneBit(a) && 0 < a <= 32 && p % 32 == 0
    ensures p % a == 0
  {
    var b := a / 2;
    var c := b / 2;
    var d := c / 2;
    assert OneBit(b) && OneBit(c) && OneBit(d);
    assert a == 1 || a == 2 || a == 4 || a == 8 || a == 16 || a == 32;
    var q := p / 32;
    assert p == 32 * q;
    if a == 2 { DivExact(16 * q, 2); }
    else if a == 4 { DivExact(8 * q, 4); }
    else if a == 8 { DivExact(4 * q, 8); }
    else if a == 16 { DivExact(2 * q, 16); }
  }

  lemma PositiveBlock(h: Heap, c: int)
    requires Consistent(h) && c in h.live
    ensures c > 0
  {
    Open(h);
    OwnedIs(h, c);
    if c in h.mapped {
      assert RegionOk(h.mapped[c], h.ps, h.cs, c) && Clear(h.ends, h.mapped[c].base, h.mapped[c].len);
    } else {
      assert Within(h.ends, c);
      var e :| e in h.ends && h.ends[e] <= c < e;
    }
  }

  lemma MultipleOfMultiple(x: nat, a: nat)
    requires a > 0 && x % a == 0 && a % 32 == 0
    ensures x % 32 == 0
  {
    var q, t := x / a, a / 32;
    assert x == q * a && a == 32 * t;
    assert x == (q * t) * 32;
    DivExact(q * t, 32);
  }

  lemma AlignedFacts(mem: nat, align: nat)
    requires OneBit(align) && align > SIZE_ALIGN && mem % SIZE_ALIGN == 0
    ensures var start := AlignUp(mem, align);
            && start % align == 0 && mem <= start < mem + align && start % SIZE_ALIGN == 0 && Whole(start - mem)
  {
    OneBitLarge(align);
    AlignUpFacts(mem, align);
    MultipleOfMultiple(AlignUp(mem, align), align);
    WholeDiff(AlignUp(mem, align), mem);
  }

  lemma FrontBooks(live: map<int, int>, c: int, k: int, d: int, m: int, b0: map<int, int>, b1: map<int, int>,
                   b2: map<int, int>)
    requires c in live && d !in live && d != c
    requires Intact(live[c := k][d := m], b0, b1) && Intact(Forget(live[c := k][d := m], c), b1, b2)
    ensures Forget(live[c := k][d := m], c) == Forget(live, c)[d := m]
    ensures Intact(Forget(live, c)[d := m], b0, b2)
  {
    var f := Forget(live, c)[d := m];
    assert Forget(live[c := k][d := m], c) == f;
    IntactLess(live[c := k][d := m], f, b0, b1);
    IntactTrans(f, b0, b1, b2);
  }

  lemma AlignedBooks(live: map<int, int>, c: int, s: int, d: int, k: int, b0: map<int, int>, b1: map<int, int>,
                     b2: map<int, int>)
    requires c !in live && d !in live && d != c
    requires Intact(live, b0, b1) && Intact(Forget(live[c := s], c)[d := s - k], b1, b2)
    ensures Forget(live[c := s], c)[d := s - k] == live[d := s - k]
    ensures Intact(live, b0, b2)
  {
    assert Forget(live[c := s], c) == live;
    IntactLess(live[d := s - k], live, b1, b2);
    IntactTrans(live, b0, b1, b2);
  }

  lemma ProductBound(m: nat, n: nat, max: nat)
    requires n > 0
    ensures m > max / n <==> m * n > max
  {
    var q := max / n;
    assert q * n <= max < q * n + n;
    if m > q { ProductStep(q + 1, m, n); } else { ProductStep(m, q, n); }
  }

  lemma ProductStep(a: nat, b: nat, n: nat)
    requires a <= b
    ensures a * n <= b * n
    ensures (a + 1) * n == a * n + n
  {
  }

  /** Bytes changed inside a new block only. */
  lemma InsideBlock(live: map<int, int>, d: int, n: int, b: map<int, int>, b1: map<int, int>, b2: map<int, int>,
                    size: int)
    requires Intact(live, b, b1) && n + OVERHEAD <= size
    requires forall e, x :: Owns(live, e, x) ==> x < d + OVERHEAD || d + size <= x
    requires forall x :: !(d + OVERHEAD <= x < d + OVERHEAD + n) && x in b1 ==> x in b2 && b2[x] == b1[x]
    ensures Intact(live, b, b2)
  {
  }

  // ---- What the invariant comes to ----

  /** In every consistent heap the chunks of each segment tile it up to its sentinel, which
      is an in-use header of size zero; a chunk's footer equals its header. */
  lemma SegmentsTiled(h: Heap, e: int)
    requires Consistent(h) && e in h.ends
    ensures Tiles(h.L, h.ends[e], e) && e in h.cs && h.cs[e] == 1
    ensures forall c :: c in h.L ==>
                          c in h.cs && c + h.L[c].size in h.ps && h.ps[c + h.L[c].size] == h.cs[c] == Enc(h.L[c])
  {
    Open(h);
    SegmentTiles(h.L, h.ends, h.ends[e], e);
    forall c | c in h.L
      ensures c in h.cs && c + h.L[c].size in h.ps && h.ps[c + h.L[c].size] == h.cs[c] == Enc(h.L[c])
    {
      assert HeaderOk(h.L, h.cs, c) && FooterOk(h.L, h.ps, c);
    }
  }

  /** Every free chunk is in exactly one bin, the one of its size, once; bins hold nothing
      else; the bitmap shows which are not empty; and no two free chunks are neighbours. */
  lemma FreeChunksFiled(h: Heap, c: int)
    requires Consistent(h)
    ensures |h.bins| == BINS
    ensures forall i :: 0 <= i < BINS ==> NoDup(h.bins[i])
    ensures forall i :: i in h.binmap <==> 0 <= i < BINS && h.bins[i] != []
    ensures forall i :: 0 <= i < BINS && c in h.bins[i] ==>
                          Free(h.L, c) && h.L[c].size >= SIZE_ALIGN && i == BinIndex(h.L[c].size)
    ensures Free(h.L, c) ==>
              h.L[c].size >= SIZE_ALIGN && 0 <= BinIndex(h.L[c].size) < BINS && c in h.bins[BinIndex(h.L[c].size)]
    ensures Free(h.L, c) ==> !Free(h.L, c + h.L[c].size)
  {
    Open(h);
    if Free(h.L, c) { SizeInBins(h, c); }
    assert !FreePair(h.L, c);
    forall i | 0 <= i < BINS && c in h.bins[i]
      ensures Free(h.L, c) && h.L[c].size >= SIZE_ALIGN && i == BinIndex(h.L[c].size)
    {
      assert Belongs(h.L, c, i);
    }
  }

  /** Live allocations do not overlap each other or a free chunk. */
  lemma AllocationsApart(h: Heap, c: int, d: int)
    requires Consistent(h) && c in h.live
    ensures d in h.live && c < d ==> c + h.live[c] <= d
    ensures Free(h.L, d) ==> c + h.live[c] <= d || d + h.L[d].size <= c
  {
    Open(h);
    OwnedIs(h, c);
    if d in h.live && c < d { LiveDisjoint(h, c, d); }
    if Free(h.L, d) && c in h.mapped { ChunkRegionApart(h, d, c); }
  }
}
