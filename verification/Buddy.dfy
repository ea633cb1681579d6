/** The physical page allocator of src/kernel/mem/phys.c. Pages are numbered; the
    level word at the start of a free page and the free bitmap are memory that keeps
    whatever was last written there. */
module Buddy {
  import opened Arith
  import opened BuddyBlocks
  import opened BuddyState
  import opened Lists

  // ---- Sizes ----

  /** The number of bits needed to write `n`: 32 - clz(n) for a non-zero 32-bit n. */
  function BitLength(n: nat): nat { if n == 0 then 0 else 1 + BitLength(n / 2) }

  /** PHYS_BUDDY_MIN_SIZE and PHYS_BUDDY_MAX_SIZE, in bytes. */
  const MIN_SIZE: nat := 4096
  const MAX_SIZE: nat := 2097152
  const MIN_ORDER: nat := 12

  /** `get_level_by_size`. */
  function LevelBySize(size: nat): int {
    if size > MAX_SIZE then -1
    else
      var s := if size < MIN_SIZE then MIN_SIZE else size;
      BitLength(Pow2(BitLength(s - 1))) - 1 - MIN_ORDER
  }

  lemma {:induction false} BitLengthBounds(n: nat)
    requires n > 0
    ensures BitLength(n) > 0 && Pow2(BitLength(n) - 1) <= n < Pow2(BitLength(n))
  {
    if n > 1 { BitLengthBounds(n / 2); }
  }

  lemma {:induction false} BitLengthPower(k: nat)
    ensures BitLength(Pow2(k)) == k + 1
  {
    if k > 0 {
      BitLengthPower(k - 1);
      assert Pow2(k) / 2 == Pow2(k - 1);
    }
  }

  lemma {:induction false} BitLengthRange(s: nat)
    requires MIN_SIZE <= s <= MAX_SIZE
    ensures 12 <= BitLength(s - 1) <= 21
  {
    var k := BitLength(s - 1);
    BitLengthBounds(s - 1);
    PowerFacts();
    if k < 12 { Pow2Monotone(k, 11); }
    if k > 21 { Pow2Monotone(21, k - 1); }
  }

  lemma {:induction false} PagesOfLevel(k: nat)
    requires k >= 12
    ensures MIN_SIZE * Pow2(k - 12) == Pow2(k)
  {
    PowerFacts();
    Pow2Sum(12, k - 12);
  }

  /** Exactly the sizes up to 2 MiB have a level, and it is the least one whose blocks
      are large enough. */
  lemma {:induction false} LevelBySizeLeast(size: nat)
    ensures LevelBySize(size) == -1 <==> size > MAX_SIZE
    ensures size <= MAX_SIZE ==>
              var l := LevelBySize(size);
              0 <= l < LEVELS && size <= MIN_SIZE * Pow2(l) && (l > 0 ==> MIN_SIZE * Pow2(l - 1) < size)
  {
    if size <= MAX_SIZE {
      var s := if size < MIN_SIZE then MIN_SIZE else size;
      var k := BitLength(s - 1);
      BitLengthRange(s);
      BitLengthBounds(s - 1);
      LevelIs(size, s, k);
      PagesOfLevel(k);
      if k > 12 { PagesOfLevel(k - 1); }
    }
  }

  lemma {:induction false} LevelIs(size: nat, s: nat, k: nat)
    requires size <= MAX_SIZE && s == (if size < MIN_SIZE then MIN_SIZE else size) && k == BitLength(s - 1)
    ensures LevelBySize(size) == k - 12
  {
    BitLengthPower(k);
  }

  lemma {:induction false} PowerFacts()
    ensures Pow2(11) == 2048 && Pow2(12) == 4096 && Pow2(21) == 2097152
  {
    assert Pow2(3) == 8 && Pow2(6) == 64 && Pow2(9) == 512;
    assert Pow2(12) == 4096 && Pow2(15) == 32768 && Pow2(18) == 262144;
    assert Pow2(21) == 2097152;
  }

  /** No free block of a level from `level` up is of a lower level than `at`. */
  ghost predicate Lowest(free: set<Block>, level: nat, at: nat) {
    forall b :: b in free && level <= b.level ==> at <= b.level
  }

  class Phys {
    /** For each level the first pages of its free blocks, most recent first. */
    var freelists: seq<seq<nat>>
    /** The pages whose free bit is set. */
    var bitmap: set<int>
    /** The level word stored in a page. */
    var levels: map<int, nat>

    ghost var free: set<Block>
    ghost var live: set<Block>
    ghost var owner: Owner

    ghost predicate ValidBut(hot: set<Block>)
      reads this
    {
      Sound(freelists, bitmap, levels, free, live, owner, hot)
    }

    ghost predicate Valid()
      reads this
    {
      ValidBut({})
    }

    ghost predicate IsFree(x: int)
      reads this
    {
      FreePage(free, owner, x)
    }

    constructor ()
      ensures Valid() && owner == map[] && live == {}
    {
      freelists := seq(LEVELS, _ => []);
      bitmap, levels := {}, map[];
      free, live, owner := {}, {}, map[];
    }

    /** One turn of the splitting loop of `phys_alloc`: the upper half of the block at
        `page` goes on the free list of the next level down. */
    method SplitOnce(page: nat, level: nat, ghost hot: Block)
      requires ValidBut({hot}) && Page(hot) == page && hot.level == level && level > 0
      modifies this
      ensures ValidBut({Lower(hot)}) && live == old(live) && owner.Keys == old(owner).Keys
      ensures Page(Lower(hot)) == page
      ensures forall x :: IsFree(x) <==> old(IsFree(x)) || Contains(Upper(hot), x)
    {
      ghost var lower, up := Lower(hot), Upper(hot);
      HalfPages(hot);
      SplitHot(freelists, bitmap, levels, free, live, owner, hot);
      owner := Claim(Claim(owner, lower), up);
      var upper := page + Pow2(level - 1);
      levels := levels[upper := level - 1];
      freelists := freelists[level - 1 := [upper] + freelists[level - 1]];
      bitmap := bitmap + {upper};
      free := free + {up};
    }

    /** The search of `phys_alloc`: the first block of the lowest non-empty level from
        `level` up, taken off its list. */
    method TakeFirst(level: nat) returns (r: Option<nat>, at: nat)
      requires Valid() && level < LEVELS
      modifies this`freelists, this`free
      ensures live == old(live) && owner == old(owner)
      ensures r.None? ==> Valid() && free == old(free) && forall b :: b in free ==> b.level < level
      ensures r.Some? ==>
                level <= at < LEVELS && BlockAt(r.value, at) in old(free) && Page(BlockAt(r.value, at)) == r.value
      ensures r.Some? ==> ValidBut({BlockAt(r.value, at)})
      ensures r.Some? ==> Lowest(old(free), level, at) && old(freelists)[at] != [] && r.value == old(freelists)[at][0]
      ensures r.Some? ==> forall x :: IsFree(x) <==> old(IsFree(x)) && !Contains(BlockAt(r.value, at), x)
    {
      at := level;
      while at < LEVELS
        invariant level <= at <= LEVELS && forall l :: level <= l < at ==> freelists[l] == []
      {
        if freelists[at] != [] {
          var page := freelists[at][0];
          ghost var b := BlockAt(page, at);
          HeadBlock(freelists, free, at);
          forall c | c in free && level <= c.level ensures at <= c.level {
            assert Page(c) in freelists[c.level];
          }
          assert levels[page] == at;  // ASSERT(page->level == block_at_level)
          Take(freelists, bitmap, levels, free, live, owner, {}, b);
          assert {} + {b} == {b};
          freelists := freelists[at := freelists[at][1..]];
          free := free - {b};
          return Some(page), at;
        }
        at := at + 1;
      }
      forall b | b in free ensures b.level < level {
        assert Page(b) in freelists[b.level];
      }
      return None, at;
    }

    /** The splitting loop of `phys_alloc`: the block at `page` is cut down to `level`,
        everything cut off being free again. */
    method SplitDown(page: nat, at0: nat, level: nat, ghost whole: Block) returns (ghost hot: Block)
      requires ValidBut({whole}) && Page(whole) == page && whole.level == at0 && level <= at0
      modifies this
      ensures ValidBut({hot}) && live == old(live) && owner.Keys == old(owner).Keys
      ensures Page(hot) == page && hot.level == level && Within(hot, whole)
      ensures forall x :: IsFree(x) <==> old(IsFree(x)) || (Contains(whole, x) && !Contains(hot, x))
    {
      var at := at0;
      hot := whole;
      while at > level
        invariant level <= at && Page(hot) == page && hot.level == at && Within(hot, whole)
        invariant ValidBut({hot}) && live == old(live) && owner.Keys == old(owner).Keys
        invariant forall x :: IsFree(x) <==> old(IsFree(x)) || (Contains(whole, x) && !Contains(hot, x))
      {
        HalfPages(hot);
        SplitOnce(page, at, hot);
        hot, at := Lower(hot), at - 1;
      }
    }

    /** `phys_alloc` at a level: the block handed out was free and is handed out to
        nobody else; nothing is handed out only when no aligned run of that many
        pages is free. */
    method AllocLevel(level: nat) returns (r: Option<nat>)
      requires Valid() && level < LEVELS
      modifies this
      ensures Valid() && owner.Keys == old(owner).Keys
      ensures r.None? <==> forall b: Block :: b.level == level ==> !old(FreeRun(free, owner, b))
      ensures r.None? ==> live == old(live) && free == old(free)
      ensures r.Some? ==>
                var b := BlockAt(r.value, level);
                && Page(b) == r.value && b !in old(live) && live == old(live) + {b}
                && old(FreeRun(free, owner, b))
                && (forall x :: IsFree(x) <==> old(IsFree(x)) && !Contains(b, x))
      ensures r.Some? ==>
                exists at :: level <= at < LEVELS && Lowest(old(free), level, at) &&
                             old(freelists)[at] != [] && r.value == old(freelists)[at][0]
    {
      var at;
      r, at := TakeFirst(level);
      if r.None? {
        NoRun(free + live + {}, owner, free, level);
        return;
      }
      var page := r.value;
      ghost var hot := SplitDown(page, at, level, BlockAt(page, at));
      BlockAtPage(hot);
      RunWithin(old(free + live + {}), old(owner), old(free), BlockAt(page, at), hot);
      HandOut(freelists, bitmap, levels, free, live, owner, hot);
      bitmap := bitmap - {page};
      live := live + {hot};
    }

    /** The merging loop of `phys_free_internal`: the block grows while its buddy is a
        free block of its own level, which is what the bit and the level word tell. */
    method MergeUp(page0: nat, level0: nat, ghost b: Block) returns (page: nat, level: nat, ghost hot: Block)
      requires ValidBut({b}) && Page(b) == page0 && b.level == level0
      modifies this`freelists, this`free, this`owner
      ensures ValidBut({hot}) && Page(hot) == page && hot.level == level < LEVELS
      ensures level < LEVELS - 1 ==> Buddy(hot) !in free
      ensures owner.Keys == old(owner).Keys && Within(b, hot)
      ensures forall x :: IsFree(x) || Contains(hot, x) <==> old(IsFree(x)) || Contains(b, x)
    {
      page, level, hot := page0, level0, b;
      while level < LEVELS - 1
        invariant ValidBut({hot}) && Page(hot) == page && hot.level == level < LEVELS && Within(b, hot)
        invariant owner.Keys == old(owner).Keys
        invariant forall x :: IsFree(x) || Contains(hot, x) <==> old(IsFree(x)) || Contains(b, x)
      {
        var neighbor := NeighborPage(page, level);
        NeighborIsBuddy(hot);
        NeighborAccurate(bitmap, levels, free, live, owner, hot);
        if neighbor !in bitmap {
          return;
        }
        if levels[neighbor] != level {
          return;
        }
        page := MergeOnce(page, neighbor, level, hot);
        ParentHalves(hot);
        hot, level := Parent(hot), level + 1;
      }
    }

    /** One merge: the buddy leaves its list and the lower of the two gives its page. */
    method MergeOnce(page: nat, neighbor: nat, level: nat, ghost hot: Block) returns (page': nat)
      requires ValidBut({hot}) && Page(hot) == page && hot.level == level < LEVELS - 1
      requires Buddy(hot) in free && neighbor == Page(Buddy(hot))
      modifies this`freelists, this`free, this`owner
      ensures ValidBut({Parent(hot)}) && page' == Page(Parent(hot)) && owner.Keys == old(owner).Keys
      ensures forall x :: IsFree(x) || Contains(Parent(hot), x) <==> old(IsFree(x)) || Contains(hot, x)
    {
      ghost var n := Buddy(hot);
      ParentHalves(hot);
      HalfPages(Parent(hot));
      Take(freelists, bitmap, levels, free, live, owner, {hot}, n);
      assert {hot} + {n} == {hot, n};
      freelists := freelists[level := Remove(freelists[level], neighbor)];
      free := free - {n};
      Unite(freelists, bitmap, levels, free, live, owner, hot);
      owner := Claim(owner, Parent(hot));
      page' := if page > neighbor then neighbor else page;
      forall x ensures IsFree(x) || Contains(Parent(hot), x) <==> old(IsFree(x)) || Contains(hot, x) {
        assert Contains(Parent(hot), x) <==> Contains(hot, x) || Contains(n, x);
        assert Contains(n, x) ==> old(IsFree(x)) by { assert n in old(free + live + {hot}); }
      }
    }

    /** The rest of `phys_free_internal`: the merged block goes on its free list. */
    method FreeBlock(page0: nat, level0: nat, ghost b: Block)
      requires ValidBut({b}) && Page(b) == page0 && b.level == level0
      modifies this
      ensures Valid() && live == old(live) && owner.Keys == old(owner).Keys
      ensures forall x :: IsFree(x) <==> old(IsFree(x)) || Contains(b, x)
    {
      var page, level;
      ghost var hot;
      page, level, hot := MergeUp(page0, level0, b);
      Release(freelists, bitmap, levels, free, live, owner, {hot}, hot);
      assert {hot} - {hot} == {};
      levels := levels[page := level];
      freelists := freelists[level := [page] + freelists[level]];
      bitmap := bitmap + {page};
      free := free + {hot};
    }

    /** `phys_free` of a live block at its own level: both assertions hold, and its
        pages are free again. */
    method FreeLevel(page: nat, level: nat)
      requires Valid() && Page(BlockAt(page, level)) == page && BlockAt(page, level) in live
      modifies this
      ensures Valid() && live == old(live) - {BlockAt(page, level)} && owner.Keys == old(owner).Keys
      ensures forall x :: IsFree(x) <==> old(IsFree(x)) || Contains(BlockAt(page, level), x)
    {
      ghost var b := BlockAt(page, level);
      BlockAtPage(b);
      assert page % Pow2(level) == 0;  // the block is aligned to its size
      Recall(freelists, bitmap, levels, free, live, owner, b);
      assert page !in bitmap;          // ASSERT(!buddy_is_block_free(ptr))
      bitmap := bitmap + {page};
      live := live - {b};
      FreeBlock(page, level, b);
    }

    /** Allocating and freeing again puts every free block back as it was. */
    method AllocThenFree(level: nat) returns (r: Option<nat>)
      requires Valid() && level < LEVELS
      modifies this
      ensures Valid() && free == old(free) && live == old(live)
    {
      r := AllocLevel(level);
      if r.Some? {
        ghost var b := BlockAt(r.value, level);
        FreeLevel(r.value, level);
        forall x ensures IsFree(x) <==> old(IsFree(x)) { assert Contains(b, x) ==> old(IsFree(x)); }
        Canonical(old(free + live + {}), old(owner), old(free), free + live + {}, owner, free);
      }
    }

    /** `phys_alloc`: None for more than 2 MiB, and otherwise the smallest level that
        fits. */
    method Alloc(size: nat) returns (r: Option<nat>)
      requires Valid()
      modifies this
      ensures Valid() && owner.Keys == old(owner).Keys
      ensures size > MAX_SIZE ==> r.None?
      ensures r.None? ==> live == old(live) && free == old(free)
      ensures size <= MAX_SIZE ==>
                && 0 <= LevelBySize(size) < LEVELS
                && (r.None? <==> forall b: Block :: b.level == LevelBySize(size) ==> !old(FreeRun(free, owner, b)))
      ensures r.Some? ==>
                var b := BlockAt(r.value, LevelBySize(size));
                && Page(b) == r.value && size <= MIN_SIZE * Pow2(b.level)
                && live == old(live) + {b} && b !in old(live)
                && (forall x :: Contains(b, x) ==> old(IsFree(x)))
                && (forall x :: IsFree(x) <==> old(IsFree(x)) && !Contains(b, x))
    {
      LevelBySizeLeast(size);
      var level := LevelBySize(size);
      if level < 0 {
        return None;
      }
      r := AllocLevel(level);
    }

    /** `phys_free`: the pointer may be NULL. */
    method Free(ptr: Option<nat>, size: nat)
      requires Valid()
      requires ptr.Some? ==>
                 && 0 <= LevelBySize(size)
                 && Page(BlockAt(ptr.value, LevelBySize(size))) == ptr.value
                 && BlockAt(ptr.value, LevelBySize(size)) in live
      modifies this
      ensures Valid() && owner.Keys == old(owner).Keys
      ensures ptr.None? ==> live == old(live) && free == old(free)
      ensures ptr.Some? ==>
                var b := BlockAt(ptr.value, LevelBySize(size));
                && live == old(live) - {b}
                && (forall x :: IsFree(x) <==> old(IsFree(x)) || Contains(b, x))
    {
      if ptr.None? {
        return;
      }
      FreeLevel(ptr.value, LevelBySize(size));
    }

    /** `get_best_level_for_block`: the largest level that fits before `end` and to
        which `start` is aligned. */
    method BestLevel(start: nat, end: nat) returns (level: int)
      ensures -1 <= level < LEVELS && (start < end ==> level >= 0)
      ensures level >= 0 ==> start + Pow2(level) <= end && start % Pow2(level) == 0
      ensures forall l: nat :: level < l < LEVELS ==> start + Pow2(l) > end || start % Pow2(l) != 0
    {
      level := LEVELS - 1;
      while level >= 0
        invariant -1 <= level < LEVELS
        invariant level == -1 ==> start + Pow2(0) > end || start % Pow2(0) != 0
        invariant forall l: nat :: level < l < LEVELS ==> start + Pow2(l) > end || start % Pow2(l) != 0
      {
        if start + Pow2(level) <= end && start % Pow2(level) == 0 {
          return;
        }
        level := level - 1;
      }
    }

    /** `phys_add_memory`: the pages from `start` to `end` become free, whatever is
        next to them. */
    method AddMemory(start0: nat, end: nat)
      requires Valid() && forall x :: start0 <= x < end ==> x !in owner
      modifies this
      ensures Valid() && live == old(live)
      ensures forall x :: x in owner <==> x in old(owner) || start0 <= x < end
      ensures forall x :: IsFree(x) <==> old(IsFree(x)) || start0 <= x < end
    {
      var start := start0;
      while start < end
        invariant start0 <= start && (start0 <= end ==> start <= end) && (end <= start0 ==> start == start0)
        invariant Valid() && live == old(live)
        invariant forall x :: x in owner <==> x in old(owner) || start0 <= x < start
        invariant forall x :: IsFree(x) <==> old(IsFree(x)) || start0 <= x < start
      {
        var level := BestLevel(start, end);
        ghost var b := BlockAt(start, level);
        PageBlockAt(start, level);
        Adopt(freelists, bitmap, levels, free, live, owner, b);
        owner := Extend(owner, b);
        FreeBlock(start, level, b);
        start := start + Pow2(level);
      }
    }

    /** A holder writes to a page of its block. */
    method Write(page: int, v: nat)
      requires Valid() && page in owner && owner[page] in live
      modifies this`levels
      ensures Valid()
    {
      Scribble(freelists, bitmap, levels, free, live, owner, page, v);
      levels := levels[page := v];
    }
  }
}
