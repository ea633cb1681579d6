/** The kernel's object allocators on top of its page allocator: every slab is a page that
    `phys_alloc` handed out (src/kernel/mem/alloc.c, src/kernel/mem/phys.c). */
module KernelHeap {
  import opened Arith
  import opened Lists
  import opened BuddyBlocks
  import Buddy
  import opened Slab

  /** The block of the one page `p`. */
  function OnePage(p: nat): Block { Block(p, 0) }

  lemma OnePageIs(p: nat)
    ensures Page(OnePage(p)) == p && BlockAt(p, 0) == OnePage(p)
    ensures forall x :: Contains(OnePage(p), x) <==> x == p
  {
    assert Pow2(0) == 1;
  }

  lemma PageLevel()
    ensures Buddy.LevelBySize(PAGE) == 0
  {
    Buddy.LevelBySizeLeast(PAGE);
  }

  /** The slab pages of each allocator are live blocks of one page, and no page is a slab of
      two of them. */
  ghost predicate Apart(pages: seq<set<nat>>, live: set<Block>) {
    && (forall i, p :: 0 <= i < |pages| && p in pages[i] ==> OnePage(p) in live)
    && (forall i, j, p :: 0 <= i < j < |pages| && p in pages[i] ==> p !in pages[j])
  }

  lemma AddPage(pages: seq<set<nat>>, live: set<Block>, i: nat, p: nat)
    requires Apart(pages, live) && i < |pages| && OnePage(p) !in live
    ensures Apart(pages[i := pages[i] + {p}], live + {OnePage(p)})
  {
  }

  lemma DropPage(pages: seq<set<nat>>, live: set<Block>, i: nat, p: nat)
    requires Apart(pages, live) && i < |pages| && p in pages[i]
    ensures Apart(pages[i := pages[i] - {p}], live - {OnePage(p)})
  {
  }

  lemma KeysWith(live: map<nat, set<int>>, p: nat, s: set<int>)
    ensures live[p := s].Keys == live.Keys + if p in live then {} else {p}
  {
  }

  /** The slabs of which no object is in use. */
  ghost function Idle(live: map<nat, set<int>>): set<nat> { set p | p in live && live[p] == {} }

  ghost function Emptied(live: map<nat, set<int>>, gone: set<nat>): map<nat, set<int>> {
    map p | p in live && p !in gone :: live[p]
  }

  ghost function Blocks(pages: set<nat>): set<Block> { set p | p in pages :: OnePage(p) }

  lemma NoneGone(live: map<nat, set<int>>, held: set<Block>)
    ensures Emptied(live, {}) == live && held - Blocks({}) == held
  {
    assert Blocks({}) == {};
  }

  lemma GoneMore(live: map<nat, set<int>>, held: set<Block>, gone: set<nat>, p: nat)
    requires gone <= Idle(live) && p in Emptied(live, gone) && Emptied(live, gone)[p] == {}
    ensures gone + {p} <= Idle(live) && Emptied(live, gone + {p}) == Emptied(live, gone) - {p}
    ensures held - Blocks(gone + {p}) == held - Blocks(gone) - {OnePage(p)}
  {
    assert Blocks(gone + {p}) == Blocks(gone) + {OnePage(p)};
  }

  lemma AllGone(live: map<nat, set<int>>, gone: set<nat>)
    requires gone <= Idle(live) && Idle(Emptied(live, gone)) == {}
    ensures gone == Idle(live)
  {
    assert forall p :: p in Idle(live) && p !in gone ==> p in Idle(Emptied(live, gone));
  }

  class Kernel {
    const phys: Buddy.Phys
    const allocs: seq<SlabAlloc>

    ghost function Pages(): (r: seq<set<nat>>)
      reads set a | a in allocs
      ensures |r| == |allocs| && forall i :: 0 <= i < |allocs| ==> r[i] == allocs[i].live.Keys
    {
      seq(|allocs|, i requires 0 <= i < |allocs| reads set a | a in allocs => allocs[i].live.Keys)
    }

    ghost predicate Sound(i: int)
      reads set a | a in allocs
    {
      0 <= i < |allocs| ==> allocs[i].Valid()
    }

    ghost predicate Valid()
      reads phys, set a | a in allocs
    {
      phys.Valid() && NoDup(allocs) && Apart(Pages(), phys.live) && forall i :: Sound(i)
    }

    constructor (phys: Buddy.Phys, allocs: seq<SlabAlloc>)
      requires phys.Valid() && NoDup(allocs)
      requires forall i :: 0 <= i < |allocs| ==> allocs[i].Valid() && allocs[i].live == map[]
      ensures Valid() && this.phys == phys && this.allocs == allocs
    {
      this.phys, this.allocs := phys, allocs;
    }

    /** What a change to allocator `i` alone leaves of the others. */
    twostate lemma Elsewhere(i: int)
      requires 0 <= i < |allocs| && NoDup(allocs) && (forall j :: old(Sound(j))) && allocs[i].Valid()
      requires forall j :: 0 <= j < |allocs| && j != i ==> unchanged(allocs[j])
      ensures forall j :: Sound(j)
      ensures Pages() == old(Pages())[i := allocs[i].live.Keys]
    {
      forall j ensures Sound(j) {
        assert old(Sound(j));
      }
    }

    /** `mem_free`. */
    method MemFree(i: nat, ptr: Option<nat>)
      requires Valid() && i < |allocs|
      requires ptr.Some? ==> ptr.value in allocs[i].InUse(SlabOf(ptr.value))
      modifies allocs[i]
      ensures Valid()
      ensures ptr.None? ==> allocs[i].live == old(allocs[i].live)
      ensures ptr.Some? ==>
                var p, was := SlabOf(ptr.value), old(allocs[i].live);
                p in was && allocs[i].live == was[p := was[p] - {ptr.value}]
    {
      assert Sound(i);
      allocs[i].Free(ptr);
      Elsewhere(i);
      assert allocs[i].live.Keys == old(allocs[i].live.Keys) == old(Pages())[i];
    }

    /** `slab_create`: a page for a slab, which is nobody's yet. */
    method NewPage() returns (page: Option<nat>)
      requires Valid()
      modifies phys
      ensures forall j :: Sound(j)
      ensures phys.Valid() && phys.owner.Keys == old(phys.owner.Keys)
      ensures page.None? <==> forall x: nat :: !old(phys.IsFree(x))
      ensures page.None? ==> phys.live == old(phys.live)
      ensures page.Some? ==>
                && OnePage(page.value) !in old(phys.live) && old(phys.IsFree(page.value))
                && phys.live == old(phys.live) + {OnePage(page.value)}
    {
      PageLevel();
      forall x: nat ensures FreeRun(phys.free, phys.owner, OnePage(x)) <==> phys.IsFree(x) {
        OnePageIs(x);
      }
      assert forall b: Block :: b.level == 0 ==> b == OnePage(b.index);
      page := phys.Alloc(PAGE);
      assert forall j :: old(Sound(j)) ==> Sound(j);
      if page.Some? {
        OnePageIs(page.value);
      }
    }

    /** `mem_alloc`, the page for a new slab being at hand if one is needed. */
    method AllocWith(i: nat, page: Option<nat>) returns (r: Option<nat>)
      requires i < |allocs| && NoDup(allocs) && (forall j :: Sound(j)) && (page.Some? ==> page.value !in allocs[i].live)
      modifies allocs[i]
      ensures forall j :: Sound(j)
      ensures r.None? <==> page.None? && old(allocs[i].partial) == [] && old(allocs[i].empty) == []
      ensures Pages() == old(Pages())[i := allocs[i].live.Keys]
      ensures r.None? ==> allocs[i].live == old(allocs[i].live)
      ensures r.Some? ==>
                var p, was := SlabOf(r.value), old(allocs[i].InUse(SlabOf(r.value)));
                && r.value !in was && allocs[i].live == old(allocs[i].live)[p := was + {r.value}]
                && Fetched(page, old(allocs[i].partial), old(allocs[i].empty)) ==
                   if p in old(allocs[i].live) then {} else {p}
    {
      assert Sound(i);
      r := allocs[i].Alloc(page);
      Elsewhere(i);
    }

    /** `mem_alloc`: an object that nobody holds, from a page that nobody has if a new one
        is needed; refused exactly if no slab has room and no page is free. */
    method MemAlloc(i: nat) returns (r: Option<nat>)
      requires Valid() && i < |allocs|
      modifies phys, allocs[i]
      ensures Valid()
      ensures r.None? <==>
              && old(allocs[i].partial) == [] && old(allocs[i].empty) == []
              && forall x: nat :: !old(phys.IsFree(x))
      ensures r.None? ==> allocs[i].live == old(allocs[i].live) && phys.live == old(phys.live)
      ensures r.Some? ==>
                var p, was := SlabOf(r.value), old(allocs[i].InUse(SlabOf(r.value)));
                && r.value !in was && allocs[i].live == old(allocs[i].live)[p := was + {r.value}]
                && (p in old(allocs[i].live) ==> phys.live == old(phys.live))
                && (p !in old(allocs[i].live) ==> old(phys.IsFree(p)) && phys.live == old(phys.live) + {OnePage(p)})
    {
      if allocs[i].partial == [] && allocs[i].empty == [] {
        r := AllocFresh(i);
      } else {
        ghost var pages, live := Pages(), allocs[i].live;
        r := AllocWith(i, None);
        KeysWith(live, SlabOf(r.value), allocs[i].live[SlabOf(r.value)]);
        assert pages[i] == live.Keys && live.Keys + {} == live.Keys;
      }
    }

    /** The same when no slab has room. */
    method AllocFresh(i: nat) returns (r: Option<nat>)
      requires Valid() && i < |allocs| && allocs[i].partial == [] && allocs[i].empty == []
      modifies phys, allocs[i]
      ensures Valid()
      ensures r.None? <==> forall x: nat :: !old(phys.IsFree(x))
      ensures r.None? ==> allocs[i].live == old(allocs[i].live) && phys.live == old(phys.live)
      ensures r.Some? ==>
                var p, was := SlabOf(r.value), old(allocs[i].InUse(SlabOf(r.value)));
                && r.value !in was && allocs[i].live == old(allocs[i].live)[p := was + {r.value}]
                && (p in old(allocs[i].live) ==> phys.live == old(phys.live))
                && (p !in old(allocs[i].live) ==> old(phys.IsFree(p)) && phys.live == old(phys.live) + {OnePage(p)})
    {
      ghost var pages, live := Pages(), phys.live;
      ghost var was := allocs[i].live;
      assert pages[i] == was.Keys;
      var page := NewPage();
      if page.Some? { AddPage(pages, live, i, page.value); }
      r := AllocWith(i, page);
      if r.Some? { KeysWith(was, SlabOf(r.value), allocs[i].live[SlabOf(r.value)]); }
    }

    /** `mem_lock`, before it protects the pages: the slabs with no object in use go back to
        the page allocator, and no others. */
    method MemLock(i: nat)
      requires Valid() && i < |allocs|
      modifies phys, allocs[i]
      ensures Valid() && allocs[i].live == Emptied(old(allocs[i].live), Idle(old(allocs[i].live)))
      ensures phys.live == old(phys.live) - Blocks(Idle(old(allocs[i].live)))
    {
      ghost var live, held, gone := allocs[i].live, phys.live, {};
      NoneGone(live, held);
      while allocs[i].empty != []
        invariant Valid() && gone <= Idle(live) && allocs[i].live == Emptied(live, gone)
        invariant phys.live == held - Blocks(gone)
        decreases |allocs[i].empty|
      {
        ghost var page := GiveUp(i);
        GoneMore(live, held, gone, page);
        gone := gone + {page};
      }
      NoneIdle(i);
      AllGone(live, gone);
    }

    lemma NoneIdle(i: nat)
      requires Valid() && i < |allocs| && allocs[i].empty == []
      ensures Idle(allocs[i].live) == {}
    {
      assert Sound(i);
      forall p | p in allocs[i].live ensures allocs[i].live[p] != {} { allocs[i].NotIdle(p); }
    }

    method GiveUp(i: nat) returns (ghost page: nat)
      requires Valid() && i < |allocs| && allocs[i].empty != []
      modifies phys, allocs[i]
      ensures Valid() && page in old(allocs[i].live) && old(allocs[i].live)[page] == {}
      ensures allocs[i].live == old(allocs[i].live) - {page} && phys.live == old(phys.live) - {OnePage(page)}
      ensures |allocs[i].empty| < |old(allocs[i].empty)|
    {
      ghost var pages, live := Pages(), phys.live;
      var p := DropSlab(i);
      assert Apart(pages, live) && p in pages[i];
      DropPage(pages, live, i, p);
      page := p;
      ReturnPage(p);
    }

    method DropSlab(i: nat) returns (p: nat)
      requires i < |allocs| && NoDup(allocs) && (forall j :: Sound(j)) && allocs[i].empty != []
      modifies allocs[i]
      ensures forall j :: Sound(j)
      ensures p in old(allocs[i].live) && old(allocs[i].live)[p] == {} && allocs[i].live == old(allocs[i].live) - {p}
      ensures Pages() == old(Pages())[i := old(allocs[i].live.Keys) - {p}]
      ensures |allocs[i].empty| < |old(allocs[i].empty)|
    {
      assert Sound(i);
      p := allocs[i].DropEmpty();
      Elsewhere(i);
      assert allocs[i].live.Keys == old(allocs[i].live.Keys) - {p};
    }

    /** `phys_free` of a slab page. */
    method ReturnPage(p: nat)
      requires phys.Valid() && OnePage(p) in phys.live
      requires forall j :: Sound(j)
      modifies phys
      ensures phys.Valid() && phys.live == old(phys.live) - {OnePage(p)}
      ensures (forall j :: Sound(j)) && Pages() == old(Pages())
    {
      PageLevel();
      OnePageIs(p);
      phys.Free(Some(p), PAGE);
      assert forall j :: old(Sound(j)) ==> Sound(j);
    }

    /** Other holders of pages allocate and free beside the slabs. */
    method PhysAlloc(size: nat) returns (r: Option<nat>)
      requires Valid()
      modifies phys
      ensures Valid() && (r.None? ==> phys.live == old(phys.live))
      ensures r.Some? ==>
                && 0 <= Buddy.LevelBySize(size)
                && var b := BlockAt(r.value, Buddy.LevelBySize(size));
                b !in old(phys.live) && phys.live == old(phys.live) + {b} && Page(b) == r.value
    {
      r := phys.Alloc(size);
      assert forall j :: old(Sound(j)) ==> Sound(j);
    }

    /** They free their own blocks, which are not slabs. */
    method PhysFree(page: nat, size: nat)
      requires Valid() && 0 <= Buddy.LevelBySize(size)
      requires var b := BlockAt(page, Buddy.LevelBySize(size));
               && Page(b) == page && b in phys.live
               && forall i, p :: 0 <= i < |allocs| && p in Pages()[i] ==> b != OnePage(p)
      modifies phys
      ensures Valid() && phys.live == old(phys.live) - {BlockAt(page, Buddy.LevelBySize(size))}
    {
      phys.Free(Some(page), size);
      assert forall j :: old(Sound(j)) ==> Sound(j);
    }

    /** The bytes of a block. */
    ghost predicate Covers(b: Block, a: int, size: nat) {
      Page(b) * PAGE < a + size && a < (Page(b) + Pow2(b.level)) * PAGE
    }

    /** What a holder of an object may rely on, whoever else allocates: the page of its slab
        is not free, and no other block, live or free, has any of the object's bytes. */
    lemma HeldAlone(i: nat, p: nat, a: int, b: Block)
      requires Valid() && i < |allocs| && a in allocs[i].InUse(p) && b in phys.live + phys.free
      ensures OnePage(p) in phys.live && p * PAGE <= a && a + allocs[i].layout.size <= (p + 1) * PAGE
      ensures !phys.IsFree(p) && (b != OnePage(p) ==> !Covers(b, a, allocs[i].layout.size))
    {
      assert Sound(i) && Pages()[i] == allocs[i].live.Keys;
      allocs[i].Guarantee(p, a, p, a);
      OnlyOwner(p, b);
    }

    /** And no other object, of this allocator or of another, overlaps it. */
    lemma ObjectsDisjoint(i: nat, p: nat, a: int, j: nat, q: nat, c: int)
      requires Valid() && i < |allocs| && a in allocs[i].InUse(p)
      requires j < |allocs| && c in allocs[j].InUse(q) && (i != j || a != c)
      ensures a + allocs[i].layout.size <= c || c + allocs[j].layout.size <= a
    {
      assert Sound(i) && Sound(j) && Pages()[i] == allocs[i].live.Keys && Pages()[j] == allocs[j].live.Keys;
      if i == j {
        allocs[i].Guarantee(p, a, q, c);
      } else {
        allocs[i].Guarantee(p, a, p, a);
        allocs[j].Guarantee(q, c, q, c);
        assert p != q;
      }
    }

    lemma OnlyOwner(p: nat, b: Block)
      requires phys.Valid() && OnePage(p) in phys.live && b in phys.live + phys.free
      ensures !phys.IsFree(p) && (b != OnePage(p) ==> p < Page(b) || Page(b) + Pow2(b.level) <= p)
    {
      OnePageIs(p);
    }
  }
}
