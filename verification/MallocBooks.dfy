/** What the runtime heap keeps beside the chunks themselves: the bins of free chunks and
    their bitmap, the regions of large allocations, and the bytes that callers own
    (src/runtime/alloc/malloc.c). */
module MallocBooks {
  import opened Lists
  import opened MallocSizes
  import opened MallocLayout

  // ---- Bins ----

  /** Chunk `c` belongs in bin `i`. */
  predicate Belongs(L: Chunks, c: int, i: int) {
    Free(L, c) && L[c].size >= SIZE_ALIGN && BinIndex(L[c].size) == i
  }

  ghost predicate Binned(L: Chunks, bins: seq<seq<int>>, binmap: set<int>) {
    && |bins| == BINS
    && (forall i :: 0 <= i < BINS ==> NoDup(bins[i]))
    && (forall i, c :: 0 <= i < BINS ==> (c in bins[i] <==> Belongs(L, c, i)))
    && (forall i :: i in binmap <==> 0 <= i < BINS && bins[i] != [])
  }

  /** Neighbours in a bin's ring, where None is the bin's own head. */
  function Position(s: seq<int>, c: int): (i: nat)
    requires c in s
    ensures i < |s| && s[i] == c
  {
    if s[0] == c then 0 else 1 + Position(s[1..], c)
  }

  function RingPrev(s: seq<int>, c: int): Option<int>
    requires c in s
  {
    var i := Position(s, c);
    if i == 0 then None else Some(s[i - 1])
  }

  function RingNext(s: seq<int>, c: int): Option<int>
    requires c in s
  {
    var i := Position(s, c);
    if i == |s| - 1 then None else Some(s[i + 1])
  }

  /** The test by which `unbin` decides to clear the bitmap: both neighbours are the same
      only when both are the head. */
  lemma RingAlone(s: seq<int>, c: int)
    requires NoDup(s) && c in s
    ensures RingPrev(s, c) == RingNext(s, c) <==> s == [c]
  {
    var i := Position(s, c);
    if 0 < i < |s| - 1 { assert s[i - 1] != s[i + 1]; }
  }

  /** L and M have the same free chunks but for `x`, which is free in M only. */
  ghost predicate FreesOnly(L: Chunks, M: Chunks, x: int) {
    && !Free(L, x) && Free(M, x)
    && forall c :: c != x ==> (Free(L, c) <==> Free(M, c)) && (Free(L, c) ==> L[c] == M[c])
  }

  ghost predicate SameFree(L: Chunks, M: Chunks) {
    forall c :: (Free(L, c) <==> Free(M, c)) && (Free(L, c) ==> L[c] == M[c])
  }

  lemma BinnedSame(L: Chunks, M: Chunks, bins: seq<seq<int>>, binmap: set<int>)
    requires Binned(L, bins, binmap) && SameFree(L, M)
    ensures Binned(M, bins, binmap)
  {
    forall i, c | 0 <= i < BINS ensures c in bins[i] <==> Belongs(M, c, i) {
      assert Belongs(L, c, i) <==> Belongs(M, c, i);
    }
  }

  lemma BinnedAdd(L: Chunks, M: Chunks, bins: seq<seq<int>>, binmap: set<int>, x: int, i: int)
    requires Binned(L, bins, binmap) && FreesOnly(L, M, x) && Belongs(M, x, i) && 0 <= i < BINS
    ensures Binned(M, bins[i := bins[i] + [x]], if bins[i] == [] then binmap + {i} else binmap)
  {
    var B := bins[i := bins[i] + [x]];
    assert !Belongs(L, x, i);
    assert NoDup(B[i]);
    forall j, c | 0 <= j < BINS ensures c in B[j] <==> Belongs(M, c, j) {
      assert c != x ==> (Belongs(L, c, j) <==> Belongs(M, c, j));
      assert !Belongs(L, x, j);
    }
  }

  lemma BinnedRemove(L: Chunks, M: Chunks, bins: seq<seq<int>>, binmap: set<int>, x: int, i: int)
    requires Binned(L, bins, binmap) && FreesOnly(M, L, x) && Belongs(L, x, i) && 0 <= i < BINS
    ensures Binned(M, bins[i := Remove(bins[i], x)], if bins[i] == [x] then binmap - {i} else binmap)
  {
    var B := bins[i := Remove(bins[i], x)];
    RemoveSpec(bins[i], x);
    assert x in bins[i];
    forall j, c | 0 <= j < BINS ensures c in B[j] <==> Belongs(M, c, j) {
      assert c != x ==> (Belongs(L, c, j) <==> Belongs(M, c, j));
      assert Belongs(L, x, j) ==> j == i;
    }
    assert B[i] == [] <==> bins[i] == [x] by {
      if |bins[i]| == 1 { assert bins[i][0] == x; }
    }
  }

  // ---- Large allocations ----

  ghost predicate InSegment(ends: Segments, x: int) { exists e :: e in ends && ends[e] <= x <= e }

  predicate RegionOk(r: Region, ps: Words, cs: Words, m: int) {
    && OnGrid(m) && r.base + 16 <= m && m + 16 <= r.base + r.len && r.len > MMAP_THRESHOLD
    && m in ps && ps[m] == m - r.base
    && m in cs && cs[m] == r.base + r.len - m
  }

  predicate RegionsApart(r: Region, q: Region) { r.base + r.len <= q.base || q.base + q.len <= r.base }

  ghost predicate Mapped(mapped: map<int, Region>, ends: Segments, ps: Words, cs: Words) {
    && (forall m {:trigger mapped[m]} :: m in mapped ==> Clear(ends, mapped[m].base, mapped[m].len))
    && (forall m {:trigger mapped[m]} :: m in mapped ==> RegionOk(mapped[m], ps, cs, m))
    && (forall m, k :: m in mapped && k in mapped && m != k ==> RegionsApart(mapped[m], mapped[k]))
  }

  lemma MappedOutside(mapped: map<int, Region>, ends: Segments, ps: Words, cs: Words, m: int, x: int)
    requires Mapped(mapped, ends, ps, cs) && m in mapped && InSegment(ends, x)
    ensures x + 16 <= mapped[m].base || mapped[m].base + mapped[m].len + 16 <= x
    ensures m != x
  {
    var e :| e in ends && ends[e] <= x <= e;
    assert Clear(ends, mapped[m].base, mapped[m].len) && RegionOk(mapped[m], ps, cs, m);
  }

  /** Header words written inside segments leave those of large allocations alone. */
  lemma MappedFrame(mapped: map<int, Region>, ends: Segments, ps: Words, cs: Words, q: Words, z: Words)
    requires Mapped(mapped, ends, ps, cs)
    requires forall x :: x in ps && !InSegment(ends, x) ==> x in q && q[x] == ps[x]
    requires forall x :: x in cs && !InSegment(ends, x) ==> x in z && z[x] == cs[x]
    ensures Mapped(mapped, ends, q, z)
  {
    forall m | m in mapped ensures RegionOk(mapped[m], q, z, m) {
      assert RegionOk(mapped[m], ps, cs, m);
      if InSegment(ends, m) { MappedOutside(mapped, ends, ps, cs, m, m); }
    }
  }

  // ---- What callers own ----

  /** Allocations in the heap proper: in-use chunks, with their sizes. */
  function LiveIn(L: Chunks): map<int, int> { map c | c in L && L[c].used :: L[c].size }

  function LiveMapped(mapped: map<int, Region>): map<int, int> {
    map c | c in mapped :: mapped[c].base + mapped[c].len - c
  }

  /** Every allocation, as a chunk address and the distance to where it ends. */
  function Live(L: Chunks, mapped: map<int, Region>): map<int, int> { LiveIn(L) + LiveMapped(mapped) }

  /** The bytes a caller owns in an allocation. */
  predicate Owns(live: map<int, int>, c: int, x: int) { c in live && c + OVERHEAD <= x < c + live[c] }

  /** The user bytes of the allocations in `live` are the same in both memories. */
  ghost predicate Intact(live: map<int, int>, b: map<int, int>, d: map<int, int>) {
    forall c, x :: Owns(live, c, x) && x in b ==> x in d && d[x] == b[x]
  }

  /** Memory after the allocator itself wrote over [a, a + n). */
  function Erase(b: map<int, int>, a: int, n: int): map<int, int> {
    map x | x in b && !(a <= x < a + n) :: b[x]
  }

  /** None of the bytes [a, a + n) belongs to an allocation. */
  ghost predicate Unowned(live: map<int, int>, a: int, n: int) {
    forall c, x :: Owns(live, c, x) ==> x < a || a + n <= x
  }

  lemma EraseIntact(live: map<int, int>, b: map<int, int>, d: map<int, int>, a: int, n: int)
    requires Intact(live, b, d) && Unowned(live, a, n)
    ensures Intact(live, b, Erase(d, a, n))
  {
  }

  /** Ownership shrinks, so what stays is intact a fortiori. */
  lemma IntactLess(live: map<int, int>, less: map<int, int>, b: map<int, int>, d: map<int, int>)
    requires Intact(live, b, d)
    requires forall c :: c in less ==> c in live && less[c] <= live[c]
    ensures Intact(less, b, d)
  {
    forall c, x | Owns(less, c, x) && x in b ensures x in d && d[x] == b[x] {
      assert Owns(live, c, x);
    }
  }

  lemma IntactTrans(live: map<int, int>, b: map<int, int>, d: map<int, int>, f: map<int, int>)
    requires Intact(live, b, d) && Intact(live, d, f)
    ensures Intact(live, b, f)
  {
  }
}
