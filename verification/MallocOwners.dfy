/** Who owns which byte of the runtime heap (src/runtime/alloc/malloc.c): live allocations
    do not overlap, and nothing the allocator writes for itself is inside one. */
module MallocOwners {
  import opened Lists
  import opened MallocSizes
  import opened MallocLayout
  import opened MallocBooks
  import opened MallocSteps

  function Owned(h: Heap): map<int, int> { Live(h.L, h.mapped) }

  lemma MappedApart(h: Heap, m: int)
    requires Sound(h) && m in h.mapped
    ensures !Boundary(h.L, h.ends, m)
  {
    assert Clear(h.ends, h.mapped[m].base, h.mapped[m].len) && RegionOk(h.mapped[m], h.ps, h.cs, m);
    ClearSpot(h.L, h.ends, h.mapped[m].base, h.mapped[m].len, m);
  }

  lemma ChunkOrRegion(h: Heap, c: int)
    requires Sound(h) && c in h.L
    ensures c !in h.mapped
  {
    if c in h.mapped { MappedApart(h, c); }
  }

  /** What is live: in-use chunks, and large regions from their chunk on. */
  lemma OwnedIs(h: Heap, c: int)
    requires Sound(h)
    ensures c in Owned(h) <==> (c in h.L && h.L[c].used) || c in h.mapped
    ensures c in h.L && h.L[c].used ==> Owned(h)[c] == h.L[c].size
    ensures c in h.mapped ==> Owned(h)[c] == h.mapped[c].base + h.mapped[c].len - c
  {
    if c in h.L { ChunkOrRegion(h, c); }
  }

  lemma ChunkRegionApart(h: Heap, c: int, m: int)
    requires Sound(h) && c in h.L && m in h.mapped
    ensures var r := h.mapped[m]; c + h.L[c].size + 16 <= r.base || r.base + r.len + 16 <= c
    ensures h.mapped[m].base + 16 <= m && m + 16 <= h.mapped[m].base + h.mapped[m].len
  {
    assert Clear(h.ends, h.mapped[m].base, h.mapped[m].len) && RegionOk(h.mapped[m], h.ps, h.cs, m);
    ClearOfChunks(h.L, h.ends, h.mapped[m].base, h.mapped[m].len, c);
  }

  /** No two live allocations overlap, headers included. */
  lemma LiveDisjoint(h: Heap, c: int, d: int)
    requires Sound(h) && c in Owned(h) && d in Owned(h) && c < d
    ensures c + Owned(h)[c] <= d
  {
    OwnedIs(h, c);
    OwnedIs(h, d);
    if c in h.mapped && d in h.mapped {
      assert RegionsApart(h.mapped[c], h.mapped[d]);
      assert RegionOk(h.mapped[c], h.ps, h.cs, c) && RegionOk(h.mapped[d], h.ps, h.cs, d);
    } else if c in h.mapped {
      ChunkRegionApart(h, d, c);
    } else if d in h.mapped {
      ChunkRegionApart(h, c, d);
    }
  }

  // ---- Bytes the allocator writes ----

  lemma HeaderUnowned(h: Heap, x: int)
    requires Sound(h) && Boundary(h.L, h.ends, x)
    ensures Unowned(Owned(h), x, 16)
  {
    BoundaryInSegment(h, x);
    forall c, y | Owns(Owned(h), c, y) ensures y < x || x + 16 <= y {
      OwnedIs(h, c);
      if c in h.mapped {
        MappedOutside(h.mapped, h.ends, h.ps, h.cs, c, x);
        assert RegionOk(h.mapped[c], h.ps, h.cs, c);
      }
    }
  }

  lemma LinksUnowned(h: Heap, f: int)
    requires Sound(h) && Free(h.L, f)
    ensures Unowned(Owned(h), f + 16, 16)
  {
    SizeInBins(h, f);
    forall c, y | Owns(Owned(h), c, y) ensures y < f + 16 || f + 32 <= y {
      OwnedIs(h, c);
      if c in h.mapped { ChunkRegionApart(h, f, c); }
    }
  }

  /** Writing a header keeps every owned byte. */
  lemma HeaderErased(h: Heap, x: int, b: map<int, int>, d: map<int, int>)
    requires Sound(h) && Boundary(h.L, h.ends, x) && Intact(Owned(h), b, d)
    ensures Intact(Owned(h), b, Erase(d, x, 16))
  {
    HeaderUnowned(h, x);
    EraseIntact(Owned(h), b, d, x, 16);
  }

  /** So does writing the links of a free chunk, or of a bin's head. */
  function EraseLinks(d: map<int, int>, f: Option<int>): map<int, int> {
    if f.None? then d else Erase(d, f.value + 16, 16)
  }

  lemma LinksErased(h: Heap, f: Option<int>, b: map<int, int>, d: map<int, int>)
    requires Sound(h) && (f.None? || Free(h.L, f.value)) && Intact(Owned(h), b, d)
    ensures Intact(Owned(h), b, EraseLinks(d, f))
  {
    if f.Some? {
      LinksUnowned(h, f.value);
      EraseIntact(Owned(h), b, d, f.value + 16, 16);
    }
  }

  // ---- How the steps change ownership ----

  function At(live: map<int, int>, x: int): Option<int> { if x in live then Some(live[x]) else None }

  lemma LiveAt(L: Chunks, mapped: map<int, Region>, x: int)
    ensures At(Live(L, mapped), x) ==
            if x in mapped then Some(mapped[x].base + mapped[x].len - x)
            else if x in L && L[x].used then Some(L[x].size) else None
  {
  }

  lemma SameMap(a: map<int, int>, b: map<int, int>)
    requires forall x :: At(a, x) == At(b, x)
    ensures a == b
  {
    forall x ensures x in a <==> x in b { assert At(a, x) == At(b, x); }
    forall x | x in a ensures a[x] == b[x] { assert At(a, x) == At(b, x); }
  }

  /** `live` without the allocations that start in [lo, hi). */
  function Drop(live: map<int, int>, lo: int, hi: int): map<int, int> {
    map c | c in live && !(lo <= c < hi) :: live[c]
  }

  /** `live` without one allocation. */
  function Forget(live: map<int, int>, m: int): map<int, int> { map c | c in live && c != m :: live[c] }

  lemma LiveReleased(L: Chunks, mapped: map<int, Region>, lo: int, hi: int)
    requires forall m :: m in mapped ==> !(lo <= m < hi)
    requires lo < hi
    ensures Live(Joined(L, lo, hi, false), mapped) == Drop(Live(L, mapped), lo, hi)
  {
    var a, b := Live(Joined(L, lo, hi, false), mapped), Drop(Live(L, mapped), lo, hi);
    forall x ensures At(a, x) == At(b, x) {
      LiveAt(L, mapped, x);
      LiveAt(Joined(L, lo, hi, false), mapped, x);
    }
    SameMap(a, b);
  }

  lemma LiveFused(L: Chunks, mapped: map<int, Region>, lo: int, hi: int)
    requires forall m :: m in mapped ==> !(lo <= m < hi)
    requires lo < hi
    ensures Live(Joined(L, lo, hi, true), mapped) == Drop(Live(L, mapped), lo, hi)[lo := hi - lo]
  {
    var a, b := Live(Joined(L, lo, hi, true), mapped), Drop(Live(L, mapped), lo, hi)[lo := hi - lo];
    forall x ensures At(a, x) == At(b, x) {
      LiveAt(L, mapped, x);
      LiveAt(Joined(L, lo, hi, true), mapped, x);
    }
    SameMap(a, b);
  }

  lemma LiveNew(L: Chunks, mapped: map<int, Region>, c: int, n: int)
    requires c !in mapped
    ensures Live(L[c := Chunk(n, true)], mapped) == Live(L, mapped)[c := n]
  {
    var a, b := Live(L[c := Chunk(n, true)], mapped), Live(L, mapped)[c := n];
    forall x ensures At(a, x) == At(b, x) {
      LiveAt(L, mapped, x);
      LiveAt(L[c := Chunk(n, true)], mapped, x);
    }
    SameMap(a, b);
  }

  lemma LiveNewFree(L: Chunks, mapped: map<int, Region>, c: int, n: int)
    requires c !in mapped && c !in Live(L, mapped)
    ensures Live(L[c := Chunk(n, false)], mapped) == Live(L, mapped)
  {
    var a, b := Live(L[c := Chunk(n, false)], mapped), Live(L, mapped);
    forall x ensures At(a, x) == At(b, x) {
      LiveAt(L, mapped, x);
      LiveAt(L[c := Chunk(n, false)], mapped, x);
    }
    SameMap(a, b);
  }

  lemma LiveMap(L: Chunks, mapped: map<int, Region>, m: int, r: Region)
    ensures Live(L, mapped[m := r]) == Live(L, mapped)[m := r.base + r.len - m]
  {
    var a, b := Live(L, mapped[m := r]), Live(L, mapped)[m := r.base + r.len - m];
    forall x ensures At(a, x) == At(b, x) {
      LiveAt(L, mapped, x);
      LiveAt(L, mapped[m := r], x);
    }
    SameMap(a, b);
  }

  function Without(mapped: map<int, Region>, m: int): map<int, Region> {
    map k | k in mapped && k != m :: mapped[k]
  }

  lemma LiveUnmap(L: Chunks, mapped: map<int, Region>, m: int)
    requires m !in L
    ensures Live(L, Without(mapped, m)) == Forget(Live(L, mapped), m)
  {
    var a, b := Live(L, Without(mapped, m)), Forget(Live(L, mapped), m);
    forall x ensures At(a, x) == At(b, x) {
      LiveAt(L, mapped, x);
      LiveAt(L, Without(mapped, m), x);
    }
    SameMap(a, b);
  }

  lemma RegionOutside(h: Heap, lo: int, hi: int, m: int)
    requires Sound(h) && Range(h.L, h.ends, lo, hi) && m in h.mapped
    ensures !(lo <= m < hi)
  {
    var r := h.mapped[m];
    assert Clear(h.ends, r.base, r.len) && RegionOk(r, h.ps, h.cs, m) && Within(h.ends, lo);
    var e :| e in h.ends && h.ends[e] <= lo < e;
  }

  lemma RegionsOutside(h: Heap, lo: int, hi: int)
    requires Sound(h) && Range(h.L, h.ends, lo, hi)
    ensures forall m :: m in h.mapped ==> !(lo <= m < hi)
  {
    forall m | m in h.mapped ensures !(lo <= m < hi) { RegionOutside(h, lo, hi, m); }
  }
}
