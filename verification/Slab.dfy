/** The slab allocator of src/kernel/mem/alloc.c: pages cut into equal objects, each
    page on one of three lists by how many of its objects are in use. */
module Slab {
  import opened Arith
  import opened Lists
  import Buddy

  const PAGE: nat := 4096
  /** sizeof(slab_t): the header at the start of every slab page. */
  const HEADER: nat := 40
  /** sizeof(free_node_t). */
  const LINK: nat := 8
  const UINT16_MAX: nat := 65535

  /** The object metadata that `mem_alloc_init` computes. */
  datatype Layout = Layout(size: nat, align: nat, stride: nat, header: nat, total: nat)

  ghost predicate Sane(l: Layout) {
    && 0 < l.size <= l.stride && LINK <= l.stride && l.align > 0 && 0 < l.total
    && HEADER <= l.header && l.header + l.total * l.stride <= PAGE
    && l.stride % l.align == 0 && l.header % l.align == 0 && PAGE % l.align == 0
  }

  lemma {:induction false} PowerBelowPage(k: nat)
    requires Pow2(k) < PAGE
    ensures PAGE % Pow2(k) == 0
  {
    Buddy.PowerFacts();
    if k > 12 { Pow2Monotone(12, k); }
    PowerDivides(k, 12);
  }

  /** `mem_alloc_init`: None when one of its assertions fails. The objects that fit
      behind the header are as many as possible. */
  method Init(size: nat, align: nat, ghost log: nat) returns (r: Option<Layout>)
    requires align != 0 ==> align == Pow2(log)
    ensures r.Some? ==> Sane(r.value) && r.value.size == size && r.value.align == align
    ensures r.Some? ==> r.value.header + (r.value.total + 1) * r.value.stride > PAGE
    ensures r.None? <==>
            || size == 0 || align == 0 || size > UINT16_MAX || align > UINT16_MAX
            || AlignUp(if size < LINK then LINK else size, align) > UINT16_MAX
            || AlignUp(HEADER, align) + AlignUp(if size < LINK then LINK else size, align) > PAGE
  {
    if size == 0 || align == 0 || size > UINT16_MAX || align > UINT16_MAX {
      return None;
    }
    var stride := AlignUp(if size < LINK then LINK else size, align);
    AlignUpFacts(if size < LINK then LINK else size, align);
    if stride > UINT16_MAX {
      return None;
    }
    var header := AlignUp(HEADER, align);
    AlignUpFacts(HEADER, align);
    if header >= PAGE {
      return None;
    }
    assert header > 0;
    PowerBelowAlign(header, align, log);
    var usable := PAGE - header;
    DivBounds(usable, stride);
    var n := usable / stride;
    if n == 0 {
      return None;
    }
    return Some(Layout(size, align, stride, header, n));
  }

  lemma ModSmall(x: nat, a: nat)
    requires x < a
    ensures x % a == x
  {
  }

  lemma DivBounds(x: nat, s: nat)
    requires s > 0
    ensures 0 <= x / s && (x / s) * s <= x < (x / s + 1) * s
    ensures x / s == 0 <==> x < s
  {
    if x < s { DivSmall(x, s); }
  }

  lemma DivSmall(x: nat, s: nat)
    requires x < s
    ensures x / s == 0
  {
  }

  lemma MulMonotone(i: nat, j: nat, s: nat)
    requires i <= j
    ensures i * s <= j * s
  {
  }

  lemma {:induction false} PowerBelowAlign(header: nat, align: nat, log: nat)
    requires align == Pow2(log) && header % align == 0 && 0 < header < PAGE
    ensures PAGE % align == 0
  {
    if header < align { ModSmall(header, align); }
    PowerBelowPage(log);
  }

  // ---- Objects in a page ----

  /** The address of the first object of the slab at `page`. */
  function Area(l: Layout, page: nat): nat { page * PAGE + l.header }

  /** `a` is the address of an object of the slab at `page`. */
  ghost predicate IsObject(l: Layout, page: nat, a: int)
    requires Sane(l)
  {
    && Area(l, page) <= a && a + l.stride <= Area(l, page) + l.total * l.stride
    && (a - Area(l, page)) % l.stride == 0
  }

  /** `object_to_slab`. */
  function SlabOf(a: nat): nat { a / PAGE }

  /** An object lies behind the header of its page, inside the page, aligned, and its
      page can be told from its address. */
  lemma {:induction false} ObjectInPage(l: Layout, page: nat, a: int)
    requires Sane(l) && IsObject(l, page, a)
    ensures 0 <= a && SlabOf(a) == page && page * PAGE + HEADER <= a && a + l.size <= (page + 1) * PAGE
    ensures a % l.align == 0
  {
    var d := a - Area(l, page);
    var q := d / l.stride;
    assert d == q * l.stride;
    AlignedSum(page, l, q);
  }

  lemma {:induction false} AlignedSum(page: nat, l: Layout, q: nat)
    requires Sane(l)
    ensures (page * PAGE + l.header + q * l.stride) % l.align == 0
  {
    var n := l.align;
    var x, y, z := PAGE / n, l.header / n, l.stride / n;
    assert PAGE == x * n && l.header == y * n && l.stride == z * n;
    assert page * PAGE == (page * x) * n && q * l.stride == (q * z) * n;
    assert page * PAGE + l.header + q * l.stride == (page * x + y + q * z) * n;
    DivExact(page * x + y + q * z, n);
  }

  /** Two different objects do not overlap. */
  lemma {:induction false} ObjectsApart(l: Layout, page: nat, a: int, b: int)
    requires Sane(l) && IsObject(l, page, a) && IsObject(l, page, b) && a < b
    ensures a + l.stride <= b
  {
    var s := l.stride;
    var i, j := (a - Area(l, page)) / s, (b - Area(l, page)) / s;
    assert a - Area(l, page) == i * s && b - Area(l, page) == j * s;
    if i < j { MulApart(i, j, s); } else { MulMonotone(j, i, s); }
  }

  /** Nor do objects of different slabs. */
  lemma {:induction false} AllObjectsApart(l: Layout, p: nat, a: int, q: nat, b: int)
    requires Sane(l) && IsObject(l, p, a) && IsObject(l, q, b) && a != b
    ensures a + l.size <= b || b + l.size <= a
  {
    ObjectInPage(l, p, a);
    ObjectInPage(l, q, b);
    if p == q {
      if a < b { ObjectsApart(l, p, a, b); } else { ObjectsApart(l, p, b, a); }
    }
  }

  lemma {:induction false} ObjectAt(l: Layout, page: nat, i: nat)
    requires Sane(l) && i < l.total
    ensures IsObject(l, page, Area(l, page) + l.stride * i)
  {
    DivExact(i, l.stride);
    MulApart(i, l.total, l.stride);
  }

  // ---- The allocator ----

  /** A slab's free list, most recently freed first, and its use count. */
  datatype Record = Record(free: seq<int>, inUse: nat)

  /** The record of the slab at `page`, of which the objects in `live` are in use. */
  ghost predicate RecordOk(l: Layout, page: nat, r: Record, live: set<int>)
    requires Sane(l)
  {
    && NoDup(r.free) && |r.free| + r.inUse == l.total && |live| == r.inUse
    && (forall a :: a in r.free ==> IsObject(l, page, a))
    && (forall a :: a in live ==> IsObject(l, page, a) && a !in r.free)
  }

  ghost predicate Books(l: Layout, slabs: map<nat, Record>, live: map<nat, set<int>>) {
    && Sane(l) && live.Keys == slabs.Keys
    && (forall p :: p in slabs ==> RecordOk(l, p, slabs[p], live[p]))
  }

  lemma {:induction false} UpdateBooks(l: Layout, slabs: map<nat, Record>, live: map<nat, set<int>>, x: nat, r: Record,
                                       s: set<int>)
    requires Books(l, slabs, live) && RecordOk(l, x, r, s)
    ensures Books(l, slabs[x := r], live[x := s])
  {
  }

  lemma {:induction false} DropBooks(l: Layout, slabs: map<nat, Record>, live: map<nat, set<int>>, x: nat)
    requires Books(l, slabs, live) && x in slabs && slabs[x].inUse == 0
    ensures Books(l, slabs - {x}, live - {x}) && live[x] == {}
  {
    assert RecordOk(l, x, slabs[x], live[x]);
  }

  /** Every slab is on exactly the list that its use count dictates. */
  ghost predicate ListsOk(total: nat, slabs: map<nat, Record>, partial: seq<nat>, empty: seq<nat>, full: seq<nat>) {
    && NoDup(partial) && NoDup(empty) && NoDup(full)
    && (forall p :: p in partial <==> p in slabs && 0 < slabs[p].inUse < total)
    && (forall p :: p in empty <==> p in slabs && slabs[p].inUse == 0)
    && (forall p :: p in full <==> p in slabs && slabs[p].inUse == total)
  }

  /** The same of all slabs but `x`, which is on the partial list. */
  ghost predicate ListsBut(total: nat, slabs: map<nat, Record>, partial: seq<nat>, empty: seq<nat>, full: seq<nat>,
                           x: nat) {
    && NoDup(partial) && NoDup(empty) && NoDup(full) && x in slabs && x in partial && x !in empty && x !in full
    && (forall p :: p != x ==> (p in partial <==> p in slabs && 0 < slabs[p].inUse < total))
    && (forall p :: p != x ==> (p in empty <==> p in slabs && slabs[p].inUse == 0))
    && (forall p :: p != x ==> (p in full <==> p in slabs && slabs[p].inUse == total))
  }

  /** Back to the invariant once the slab is where its new record says. */
  lemma {:induction false} Settle(total: nat, slabs: map<nat, Record>, partial: seq<nat>, empty: seq<nat>,
                                  full: seq<nat>, x: nat, r: Record)
    requires ListsBut(total, slabs, partial, empty, full, x) && r.inUse <= total && total > 0
    ensures var slabs' := slabs[x := r];
            && (0 < r.inUse < total ==> ListsOk(total, slabs', partial, empty, full))
            && (r.inUse == total ==> ListsOk(total, slabs', Remove(partial, x), empty, [x] + full))
            && (r.inUse == 0 ==> ListsOk(total, slabs', Remove(partial, x), [x] + empty, full))
  {
    RemoveSpec(partial, x);
    NoDupCons(x, full);
    NoDupCons(x, empty);
  }

  lemma {:induction false} TakeObject(l: Layout, page: nat, r: Record, live: set<int>)
    requires Sane(l) && RecordOk(l, page, r, live) && r.inUse < l.total
    ensures r.free != [] && r.free[0] !in live && IsObject(l, page, r.free[0])
    ensures RecordOk(l, page, Record(r.free[1..], r.inUse + 1), live + {r.free[0]})
  {
    var x := r.free[0];
    assert x in r.free && x !in live;
    NoDupTail(r.free);
  }

  lemma {:induction false} PutObject(l: Layout, page: nat, r: Record, live: set<int>, a: int)
    requires Sane(l) && RecordOk(l, page, r, live) && a in live
    ensures r.inUse > 0 && RecordOk(l, page, Record([a] + r.free, r.inUse - 1), live - {a})
  {
    NoDupCons(a, r.free);
  }

  /** The new slab, if one is needed and to be had. */
  function Fetched(page: Option<nat>, partial: seq<nat>, empty: seq<nat>): set<nat> {
    if page.Some? && partial == [] && empty == [] then {page.value} else {}
  }

  /** The books with slabs added of which nothing is in use. */
  ghost function Opened(live: map<nat, set<int>>, pages: set<nat>): map<nat, set<int>> {
    live + map p | p in pages :: {}
  }

  lemma OpenedAdd(live: map<nat, set<int>>, p: nat, a: int)
    ensures var was := Opened(live, if p in live then {} else {p});
            var now := if p in live then live[p] else {};
            p in was && was[p] == now && was[p := now + {a}] == live[p := now + {a}]
  {
  }

  class SlabAlloc {
    const layout: Layout
    var slabs: map<nat, Record>
    var partial: seq<nat>
    var empty: seq<nat>
    var full: seq<nat>
    ghost var live: map<nat, set<int>>

    ghost predicate Valid()
      reads this
    {
      && Books(layout, slabs, live)
      && ListsOk(layout.total, slabs, partial, empty, full)
    }

    /** The objects of the slab at `p` that are handed out and not freed. */
    ghost function InUse(p: nat): set<int>
      reads this
    {
      if p in live then live[p] else {}
    }

    constructor (l: Layout)
      requires Sane(l)
      ensures Valid() && slabs == map[] && layout == l
    {
      layout := l;
      slabs, partial, empty, full, live := map[], [], [], [], map[];
    }

    /** `slab_create`: all objects of a new page are free. */
    method Create(page: nat) returns (r: Record)
      requires Sane(layout)
      ensures RecordOk(layout, page, r, {}) && r.inUse == 0
    {
      var free := [];
      var i := 0;
      while i < layout.total
        invariant 0 <= i <= layout.total && |free| == i && NoDup(free)
        invariant forall a :: a in free ==> IsObject(layout, page, a) && a < Area(layout, page) + i * layout.stride
      {
        var node := Area(layout, page) + layout.stride * i;
        ObjectAt(layout, page, i);
        NoDupCons(node, free);
        free := [node] + free;
        i := i + 1;
      }
      r := Record(free, 0);
    }

    /** The slab that `mem_alloc` chooses, now on the partial list. `page` is what
        `phys_alloc` returns if a new slab is needed. */
    method Choose(page: Option<nat>) returns (r: Option<nat>)
      requires Valid() && (page.Some? ==> page.value !in slabs)
      modifies this
      ensures Books(layout, slabs, live)
      ensures r.None? <==> page.None? && old(partial) == [] && old(empty) == []
      ensures live == Opened(old(live), Fetched(page, old(partial), old(empty)))
      ensures r.Some? ==> Fetched(page, old(partial), old(empty)) == if r.value in old(live) then {} else {r.value}
      ensures r.None? ==> Valid()
      ensures r.Some? ==>
                && ListsBut(layout.total, slabs, partial, empty, full, r.value)
                && slabs[r.value].inUse < layout.total
      ensures old(partial) != [] ==> r == Some(old(partial)[0])
      ensures old(partial) == [] && old(empty) != [] ==> r == Some(old(empty)[0])
    {
      assert Opened(live, {}) == live;
      if partial != [] {
        assert partial[0] in partial;
        return Some(partial[0]);
      } else if empty != [] {
        r := TakeEmpty();
      } else if page.Some? {
        r := AddSlab(page.value);
      } else {
        return None;
      }
    }

    /** An empty slab goes to the partial list. */
    method TakeEmpty() returns (r: Option<nat>)
      requires Valid() && empty != []
      modifies this`empty, this`partial
      ensures r == Some(old(empty)[0])
      ensures r.value in live && ListsBut(layout.total, slabs, partial, empty, full, r.value)
      ensures slabs[r.value].inUse < layout.total
    {
      var slab := empty[0];
      assert slab in empty;
      RemoveSpec(empty, slab);
      empty := Remove(empty, slab);
      partial := [slab] + partial;
      return Some(slab);
    }

    /** A new slab, on the partial list. */
    method AddSlab(page: nat) returns (r: Option<nat>)
      requires Valid() && page !in slabs
      modifies this
      ensures r == Some(page) && Books(layout, slabs, live) && live == Opened(old(live), {page})
      ensures ListsBut(layout.total, slabs, partial, empty, full, r.value) && slabs[r.value].inUse < layout.total
    {
      var rec := Create(page);
      UpdateBooks(layout, slabs, live, page, rec, {});
      assert live[page := {}] == Opened(live, {page});
      slabs, live := slabs[page := rec], live[page := {}];
      partial := [page] + partial;
      return Some(page);
    }

    /** The rest of `mem_alloc`: the first free object of the chosen slab. */
    method TakeFrom(slab: nat) returns (node: int)
      requires Books(layout, slabs, live) && ListsBut(layout.total, slabs, partial, empty, full, slab)
      requires slabs[slab].inUse < layout.total
      modifies this
      ensures Valid() && IsObject(layout, slab, node) && node !in old(live)[slab]
      ensures live == old(live)[slab := old(live)[slab] + {node}]
    {
      var rec := slabs[slab];
      TakeObject(layout, slab, rec, live[slab]);
      assert rec.free != [];  // ASSERT(node != NULL)
      node := rec.free[0];
      var rec' := Record(rec.free[1..], rec.inUse + 1);
      Settle(layout.total, slabs, partial, empty, full, slab, rec');
      UpdateBooks(layout, slabs, live, slab, rec', live[slab] + {node});
      slabs := slabs[slab := rec'];
      live := live[slab := live[slab] + {node}];
      if rec'.inUse == layout.total {
        partial := Remove(partial, slab);
        full := [slab] + full;
      }
    }

    /** `mem_alloc`: an object that nobody holds, or none if there is no slab left. */
    method Alloc(page: Option<nat>) returns (r: Option<nat>)
      requires Valid() && (page.Some? ==> page.value !in slabs)
      modifies this
      ensures Valid()
      ensures r.None? <==> page.None? && old(partial) == [] && old(empty) == []
      ensures r.None? ==> live == old(live)
      ensures r.Some? ==>
                var p := SlabOf(r.value);
                && r.value !in old(InUse(p)) && live == old(live)[p := old(InUse(p)) + {r.value}]
                && (old(partial) != [] ==> p == old(partial)[0])
                && (old(partial) == [] && old(empty) != [] ==> p == old(empty)[0])
                && Fetched(page, old(partial), old(empty)) == if p in old(live) then {} else {p}
    {
      var slab := Choose(page);
      if slab.None? {
        return None;
      }
      var node := TakeFrom(slab.value);
      ObjectInPage(layout, slab.value, node);
      OpenedAdd(old(live), slab.value, node);
      return Some(node);
    }

    /** The body of `mem_free`, the slab having been found from the address. */
    method PutBack(slab: nat, a: int)
      requires Valid() && slab in slabs && a in live[slab]
      modifies this
      ensures Valid() && live == old(live)[slab := old(live)[slab] - {a}]
    {
      var rec := slabs[slab];
      PutObject(layout, slab, rec, live[slab], a);
      assert rec.inUse != 0;  // ASSERT(slab->in_use != 0)
      var rec' := Record([a] + rec.free, rec.inUse - 1);
      if rec.inUse == layout.total {
        MoveToPartial(slab);
      }
      Refile(slab, rec', live[slab] - {a});
    }

    /** The end of `mem_free`: a slab with no object in use goes to the empty list. */
    method Refile(slab: nat, rec: Record, ghost objects: set<int>)
      requires Books(layout, slabs, live) && ListsBut(layout.total, slabs, partial, empty, full, slab)
      requires RecordOk(layout, slab, rec, objects) && rec.inUse < layout.total
      modifies this
      ensures Valid() && live == old(live)[slab := objects] && slabs == old(slabs)[slab := rec]
    {
      Settle(layout.total, slabs, partial, empty, full, slab, rec);
      UpdateBooks(layout, slabs, live, slab, rec, objects);
      slabs, live := slabs[slab := rec], live[slab := objects];
      if rec.inUse == 0 {
        partial := Remove(partial, slab);
        empty := [slab] + empty;
      }
    }

    /** `mem_free` of an object in use, or of NULL. */
    method Free(ptr: Option<nat>)
      requires Valid() && (ptr.Some? ==> ptr.value in InUse(SlabOf(ptr.value)))
      modifies this
      ensures Valid()
      ensures ptr.None? ==> slabs == old(slabs) && live == old(live)
      ensures ptr.Some? ==>
                var p := SlabOf(ptr.value);
                p in old(live) && live == old(live)[p := old(live)[p] - {ptr.value}]
    {
      if ptr.Some? {
        PutBack(SlabOf(ptr.value), ptr.value);
      }
    }

    /** A full slab about to lose an object. */
    method MoveToPartial(slab: nat)
      requires Valid() && slab in slabs && slabs[slab].inUse == layout.total
      modifies this`full, this`partial
      ensures ListsBut(layout.total, slabs, partial, empty, full, slab)
    {
      RemoveSpec(full, slab);
      NoDupCons(slab, partial);
      full := Remove(full, slab);
      partial := [slab] + partial;
    }

    lemma NotIdle(p: nat)
      requires Valid() && empty == [] && p in live
      ensures live[p] != {}
    {
      assert RecordOk(layout, p, slabs[p], live[p]) && p !in empty;
    }

    /** `mem_lock`, one turn of its loop: an empty slab is given up. */
    method DropEmpty() returns (page: nat)
      requires Valid() && empty != []
      modifies this
      ensures Valid() && page in old(live) && old(live)[page] == {} && live == old(live) - {page}
      ensures |empty| < |old(empty)|
    {
      page := empty[0];
      assert page in empty;
      RemoveSpec(empty, page);
      DropBooks(layout, slabs, live, page);
      slabs, live := slabs - {page}, live - {page};
      empty := Remove(empty, page);
    }

    /** What a holder may rely on: its object lies in its slab's page behind the
        header, aligned, and overlaps no other object in use. */
    lemma Guarantee(p: nat, a: int, q: nat, b: int)
      requires Valid() && a in InUse(p) && b in InUse(q)
      ensures a >= 0 && SlabOf(a) == p
      ensures p * PAGE + HEADER <= a && a + layout.size <= (p + 1) * PAGE && a % layout.align == 0
      ensures a != b ==> a + layout.size <= b || b + layout.size <= a
    {
      ObjectInPage(layout, p, a);
      if a != b { AllObjectsApart(layout, p, a, q, b); }
    }
  }
}
