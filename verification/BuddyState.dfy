/** The allocator's data against the blocks they stand for: the free lists, the free
    bitmap and the level words of src/kernel/mem/phys.c. */
module BuddyState {
  import opened Arith
  import opened BuddyBlocks
  import opened Lists

  // ---- Free lists ----

  /** List `l` holds exactly the first pages of the free blocks of level `l`. */
  ghost predicate ListsMatch(lists: seq<seq<nat>>, free: set<Block>) {
    && |lists| == LEVELS
    && (forall l :: 0 <= l < LEVELS ==> NoDup(lists[l]))
    && (forall l, p :: 0 <= l < LEVELS && p in lists[l] ==> BlockAt(p, l) in free && Page(BlockAt(p, l)) == p)
    && (forall b :: b in free ==> b.level < LEVELS && Page(b) in lists[b.level])
  }

  lemma {:induction false} PushList(lists: seq<seq<nat>>, free: set<Block>, b: Block)
    requires ListsMatch(lists, free) && b !in free && b.level < LEVELS
    ensures ListsMatch(lists[b.level := [Page(b)] + lists[b.level]], free + {b})
  {
    BlockAtPage(b);
    NoDupCons(Page(b), lists[b.level]);
  }

  lemma {:induction false} DropList(lists: seq<seq<nat>>, free: set<Block>, b: Block)
    requires ListsMatch(lists, free) && b in free
    ensures ListsMatch(lists[b.level := Remove(lists[b.level], Page(b))], free - {b})
  {
    BlockAtPage(b);
    RemoveSpec(lists[b.level], Page(b));
    var lists' := lists[b.level := Remove(lists[b.level], Page(b))];
    forall c | c in free - {b} ensures Page(c) in lists'[c.level] {
      BlockAtPage(c);
    }
  }

  lemma {:induction false} HeadBlock(lists: seq<seq<nat>>, free: set<Block>, l: nat)
    requires ListsMatch(lists, free) && l < LEVELS && lists[l] != []
    ensures var b := BlockAt(lists[l][0], l); b in free && Page(b) == lists[l][0] && b.level == l
    ensures Remove(lists[l], lists[l][0]) == lists[l][1..]
  {
    assert lists[l][0] in lists[l];
  }

  // ---- Free bits and level words ----

  /** The bit of the first page of every block is right, and so is the level word of
      every free block. Nothing is said of the pages inside a block: merging leaves
      their bits and words as they were. */
  ghost predicate BitsMatch(bits: set<int>, levels: map<int, nat>, free: set<Block>, live: set<Block>, owner: Owner) {
    && (forall b :: b in free ==> Page(b) in bits && Page(b) in levels && levels[Page(b)] == b.level)
    && (forall b :: b in live ==> Page(b) !in bits)
    && (forall x :: x in bits ==> x in owner)
  }

  lemma {:induction false} StartsApart(blocks: set<Block>, owner: Owner, a: Block, b: Block)
    requires Tiling(blocks, owner) && a in blocks && b in blocks && a != b
    ensures Page(a) != Page(b)
  {
    assert Contains(a, Page(a)) && Contains(b, Page(b));
  }

  lemma {:induction false} SetFree(bits: set<int>, levels: map<int, nat>, free: set<Block>, live: set<Block>,
                                   hot: set<Block>, owner: Owner, b: Block)
    requires BitsMatch(bits, levels, free, live, owner)
    requires Tiling(free + live + hot, owner) && b in hot && free !! hot && live !! hot
    ensures BitsMatch(bits + {Page(b)}, levels[Page(b) := b.level], free + {b}, live, owner)
  {
    assert Contains(b, Page(b));
    forall c | c in free + live ensures Page(c) != Page(b) { StartsApart(free + live + hot, owner, c, b); }
  }

  lemma {:induction false} SetAllocated(bits: set<int>, levels: map<int, nat>, free: set<Block>, live: set<Block>,
                                        owner: Owner, b: Block)
    requires BitsMatch(bits, levels, free, live, owner) && Tiling(free + live + {b}, owner) && b !in free && b !in live
    ensures BitsMatch(bits - {Page(b)}, levels, free, live + {b}, owner)
  {
    forall c | c in free ensures Page(c) != Page(b) { StartsApart(free + live + {b}, owner, c, b); }
  }

  /** The bit and the level word that decide about merging `hot` are accurate, stale
      ones notwithstanding: they hold exactly when its buddy is a free block of its
      own level. */
  lemma {:induction false} NeighborAccurate(bits: set<int>, levels: map<int, nat>, free: set<Block>, live: set<Block>,
                                            owner: Owner, hot: Block)
    requires BitsMatch(bits, levels, free, live, owner) && Tiling(free + live + {hot}, owner)
    ensures var n := Page(Buddy(hot));
            && (n in bits ==> n in levels)
            && ((n in bits && levels[n] == hot.level) <==> Buddy(hot) in free)
  {
    var n := Page(Buddy(hot));
    ParentHalves(hot);
    if n in bits {
      NeighborStarts(free + live + {hot}, owner, hot);
      HalfPages(Parent(hot));
      var c := owner[n];
      if c.level == hot.level {
        assert Contains(c, n) && Contains(Buddy(hot), n);
        SameLevel(c, Buddy(hot), n);
      }
    }
  }

  // ---- The whole state, one block being worked on ----

  /** The invariant while the blocks in `hot` are neither free nor handed out. */
  ghost predicate Sound(lists: seq<seq<nat>>, bits: set<int>, levels: map<int, nat>,
                        free: set<Block>, live: set<Block>, owner: Owner, hot: set<Block>) {
    && ListsMatch(lists, free) && BitsMatch(bits, levels, free, live, owner) && Coalesced(free)
    && free !! live && free !! hot && live !! hot && Tiling(free + live + hot, owner)
  }

  lemma {:induction false} CoalescedAdd(free: set<Block>, b: Block)
    requires Coalesced(free) && (b.level < LEVELS - 1 ==> Buddy(b) !in free)
    ensures Coalesced(free + {b})
  {
    forall c | c in free + {b} && c.level < LEVELS - 1 ensures Buddy(c) !in free + {b} {
      ParentHalves(b);
      ParentHalves(c);
    }
  }

  /** The hot block becomes free. */
  lemma {:induction false} Release(lists: seq<seq<nat>>, bits: set<int>, levels: map<int, nat>,
                                   free: set<Block>, live: set<Block>, owner: Owner, hot: set<Block>, b: Block)
    requires Sound(lists, bits, levels, free, live, owner, hot) && b in hot
    requires b.level < LEVELS - 1 ==> Buddy(b) !in free
    ensures b.level < LEVELS
    ensures Sound(lists[b.level := [Page(b)] + lists[b.level]], bits + {Page(b)}, levels[Page(b) := b.level],
                  free + {b}, live, owner, hot - {b})
    ensures forall x :: FreePage(free + {b}, owner, x) <==> FreePage(free, owner, x) || Contains(b, x)
  {
    PushList(lists, free, b);
    CoalescedAdd(free, b);
    assert (free + {b}) + live + (hot - {b}) == free + live + hot;
    SetFree(bits, levels, free, live, hot, owner, b);
  }

  /** The hot block is handed out. */
  lemma {:induction false} HandOut(lists: seq<seq<nat>>, bits: set<int>, levels: map<int, nat>,
                                   free: set<Block>, live: set<Block>, owner: Owner, b: Block)
    requires Sound(lists, bits, levels, free, live, owner, {b})
    ensures Sound(lists, bits - {Page(b)}, levels, free, live + {b}, owner, {})
  {
    SetAllocated(bits, levels, free, live, owner, b);
    assert free + (live + {b}) + {} == free + live + {b};
  }

  /** A free block is taken off its list and becomes hot. */
  lemma {:induction false} Take(lists: seq<seq<nat>>, bits: set<int>, levels: map<int, nat>,
                                free: set<Block>, live: set<Block>, owner: Owner, hot: set<Block>, b: Block)
    requires Sound(lists, bits, levels, free, live, owner, hot) && b in free
    ensures Sound(lists[b.level := Remove(lists[b.level], Page(b))], bits, levels, free - {b}, live, owner, hot + {b})
    ensures forall x :: FreePage(free - {b}, owner, x) <==> FreePage(free, owner, x) && !Contains(b, x)
  {
    DropList(lists, free, b);
    assert (free - {b}) + live + (hot + {b}) == free + live + hot;
  }

  /** The hot block is split, or merged with its hot buddy: only who owns which page
      changes. */
  lemma {:induction false} Halve(lists: seq<seq<nat>>, bits: set<int>, levels: map<int, nat>,
                                 free: set<Block>, live: set<Block>, owner: Owner, b: Block)
    requires Sound(lists, bits, levels, free, live, owner, {b}) && b.level > 0
    ensures var owner' := Claim(Claim(owner, Lower(b)), Upper(b));
            && Sound(lists, bits, levels, free, live, owner', {Lower(b), Upper(b)})
            && (forall x :: FreePage(free, owner', x) <==> FreePage(free, owner, x))
    ensures Lower(b) != Upper(b)
  {
    TilingSplit(free + live + {b}, owner, b);
    var owner' := Claim(Claim(owner, Lower(b)), Upper(b));
    assert free + live + {Lower(b), Upper(b)} == (free + live + {b}) - {b} + {Lower(b), Upper(b)};
    HalfPages(b);
    forall x ensures FreePage(free, owner', x) <==> FreePage(free, owner, x) {
      assert Contains(b, x) <==> Contains(Lower(b), x) || Contains(Upper(b), x);
    }
  }

  lemma {:induction false} Unite(lists: seq<seq<nat>>, bits: set<int>, levels: map<int, nat>,
                                 free: set<Block>, live: set<Block>, owner: Owner, b: Block)
    requires Sound(lists, bits, levels, free, live, owner, {b, Buddy(b)}) && b.level < LEVELS - 1
    ensures var owner' := Claim(owner, Parent(b));
            && Sound(lists, bits, levels, free, live, owner', {Parent(b)})
            && (forall x :: FreePage(free, owner', x) <==> FreePage(free, owner, x))
  {
    TilingMerge(free + live + {b, Buddy(b)}, owner, b);
    var owner' := Claim(owner, Parent(b));
    assert free + live + {Parent(b)} == (free + live + {b, Buddy(b)}) - {b, Buddy(b)} + {Parent(b)};
    ParentHalves(b);
    HalfPages(Parent(b));
    forall x ensures FreePage(free, owner', x) <==> FreePage(free, owner, x) {
      assert Contains(Parent(b), x) <==> Contains(b, x) || Contains(Buddy(b), x);
    }
  }

  /** A block that was handed out comes back. */
  lemma {:induction false} Recall(lists: seq<seq<nat>>, bits: set<int>, levels: map<int, nat>,
                                  free: set<Block>, live: set<Block>, owner: Owner, b: Block)
    requires Sound(lists, bits, levels, free, live, owner, {}) && b in live
    ensures Page(b) !in bits
    ensures Sound(lists, bits + {Page(b)}, levels, free, live - {b}, owner, {b})
  {
    assert free + (live - {b}) + {b} == free + live + {};
    assert Contains(b, Page(b));
    forall c | c in live - {b} ensures Page(c) != Page(b) { StartsApart(free + live + {}, owner, b, c); }
  }

  ghost function Extend(owner: Owner, b: Block): Owner {
    owner + map x: int | Page(b) <= x < Page(b) + Pow2(b.level) && Contains(b, x) :: b
  }

  /** A block of pages never seen before comes under management. */
  lemma {:induction false} Adopt(lists: seq<seq<nat>>, bits: set<int>, levels: map<int, nat>,
                                 free: set<Block>, live: set<Block>, owner: Owner, b: Block)
    requires Sound(lists, bits, levels, free, live, owner, {}) && b.level < LEVELS
    requires forall x :: Contains(b, x) ==> x !in owner
    ensures Sound(lists, bits, levels, free, live, Extend(owner, b), {b})
    ensures forall x :: FreePage(free, Extend(owner, b), x) <==> FreePage(free, owner, x)
    ensures forall x :: x in Extend(owner, b) <==> x in owner || Contains(b, x)
  {
    assert Contains(b, Page(b));
    assert b !in free + live + {};
  }

  /** What the holder of a block writes into it is none of the allocator's concern. */
  lemma {:induction false} Scribble(lists: seq<seq<nat>>, bits: set<int>, levels: map<int, nat>,
                                    free: set<Block>, live: set<Block>, owner: Owner, x: int, v: nat)
    requires Sound(lists, bits, levels, free, live, owner, {}) && x in owner && owner[x] in live
    ensures Sound(lists, bits, levels[x := v], free, live, owner, {})
  {
    forall b | b in free ensures Page(b) != x { assert Contains(b, Page(b)) && b in free + live + {}; }
  }

  /** The hot block is split and its upper half becomes free. */
  lemma {:induction false} SplitHot(lists: seq<seq<nat>>, bits: set<int>, levels: map<int, nat>,
                                    free: set<Block>, live: set<Block>, owner: Owner, b: Block)
    requires Sound(lists, bits, levels, free, live, owner, {b}) && b.level > 0
    ensures b.level <= LEVELS && |lists| == LEVELS
    ensures var u, owner' := Upper(b), Claim(Claim(owner, Lower(b)), Upper(b));
            && Sound(lists[u.level := [Page(u)] + lists[u.level]], bits + {Page(u)}, levels[Page(u) := u.level],
                     free + {u}, live, owner', {Lower(b)})
            && (forall x :: FreePage(free + {u}, owner', x) <==> FreePage(free, owner, x) || Contains(u, x))
  {
    var u, owner' := Upper(b), Claim(Claim(owner, Lower(b)), Upper(b));
    Halve(lists, bits, levels, free, live, owner, b);
    HalfPages(b);
    Release(lists, bits, levels, free, live, owner', {Lower(b), u}, u);
    assert {Lower(b), u} - {u} == {Lower(b)};
  }
}
