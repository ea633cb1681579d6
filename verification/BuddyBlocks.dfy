/** Naturally aligned blocks of pages, and tilings of a set of pages by them. */
module BuddyBlocks {
  import opened Arith

  /** PHYS_BUDDY_MAX_LEVEL: blocks of 2^0 to 2^9 pages. */
  const LEVELS: nat := 10

  /** The `index`-th block of 2^level pages. */
  datatype Block = Block(index: nat, level: nat)

  /** Its first page. */
  function Page(b: Block): nat { b.index * Pow2(b.level) }

  predicate Contains(b: Block, x: int) { Page(b) <= x < Page(b) + Pow2(b.level) }

  predicate Within(a: Block, b: Block) {
    Page(b) <= Page(a) && Page(a) + Pow2(a.level) <= Page(b) + Pow2(b.level)
  }

  /** The other half of the enclosing block. */
  function Buddy(b: Block): Block {
    Block(if b.index % 2 == 0 then b.index + 1 else b.index - 1, b.level)
  }

  /** The block whose halves are `b` and its buddy. */
  function Parent(b: Block): Block { Block(b.index / 2, b.level + 1) }

  function Lower(b: Block): Block
    requires b.level > 0
  { Block(2 * b.index, b.level - 1) }

  function Upper(b: Block): Block
    requires b.level > 0
  { Block(2 * b.index + 1, b.level - 1) }

  lemma MulTwo(i: int, s: int)
    ensures (2 * i) * s == i * (2 * s) && (2 * i + 1) * s == i * (2 * s) + s
  {
  }

  /** The lower half starts where the whole does and the upper half starts where the
      lower one ends. */
  lemma {:induction false} HalfPages(b: Block)
    requires b.level > 0
    ensures Page(Lower(b)) == Page(b) && Page(Upper(b)) == Page(b) + Pow2(b.level - 1)
    ensures Pow2(b.level) == 2 * Pow2(b.level - 1)
    ensures Buddy(Upper(b)) == Lower(b) && Buddy(Lower(b)) == Upper(b) && Parent(Upper(b)) == b && Parent(Lower(b)) == b
  {
    MulTwo(b.index, Pow2(b.level - 1));
  }

  lemma {:induction false} ParentHalves(b: Block)
    ensures (b == Lower(Parent(b)) && Buddy(b) == Upper(Parent(b))) ||
            (b == Upper(Parent(b)) && Buddy(b) == Lower(Parent(b)))
    ensures Within(b, Parent(b)) && Buddy(Buddy(b)) == b && Parent(Buddy(b)) == Parent(b) && Buddy(b) != b
  {
    HalfPages(Parent(b));
  }

  lemma {:induction false} SameLevel(a: Block, b: Block, x: int)
    requires a.level == b.level && Contains(a, x) && Contains(b, x)
    ensures a == b
  {
    if a.index < b.index { MulApart(a.index, b.index, Pow2(a.level)); }
    if b.index < a.index { MulApart(b.index, a.index, Pow2(a.level)); }
  }

  /** Blocks share a page only by nesting. */
  lemma {:induction false} Nested(a: Block, b: Block, x: int)
    requires a.level <= b.level && Contains(a, x) && Contains(b, x)
    ensures Within(a, b)
    decreases b.level - a.level
  {
    if a.level == b.level {
      SameLevel(a, b, x);
    } else {
      ParentHalves(a);
      Nested(Parent(a), b, x);
    }
  }

  // ---- Page numbers as the allocator computes them ----

  /** The block of level `level` at `page`. */
  function BlockAt(page: nat, level: nat): Block {
    QuotientNat(page, Pow2(level));
    Block(page / Pow2(level), level)
  }

  lemma {:induction false} BlockAtPage(b: Block)
    ensures BlockAt(Page(b), b.level) == b && Page(b) % Pow2(b.level) == 0
  {
    DivExact(b.index, Pow2(b.level));
  }

  lemma {:induction false} PageBlockAt(page: nat, level: nat)
    requires page % Pow2(level) == 0
    ensures Page(BlockAt(page, level)) == page
  {
  }

  /** `ptr ^ block_size`: bit `level` of the page number flipped. */
  function NeighborPage(page: nat, level: nat): int {
    if (page / Pow2(level)) % 2 == 0 then page + Pow2(level) else page - Pow2(level)
  }

  lemma {:induction false} NeighborIsBuddy(b: Block)
    ensures NeighborPage(Page(b), b.level) == Page(Buddy(b))
  {
    BlockAtPage(b);
    ParentHalves(b);
    HalfPages(Parent(b));
  }

  // ---- Tilings ----

  type Owner = map<int, Block>

  /** `blocks` tile the pages in `owner`, which says of each page which block holds
      it; so no two of them overlap. */
  ghost predicate Tiling(blocks: set<Block>, owner: Owner) {
    && (forall x :: x in owner ==> owner[x] in blocks && Contains(owner[x], x))
    && (forall b :: b in blocks ==> b.level < LEVELS)
    && (forall b, x :: b in blocks && Contains(b, x) ==> x in owner && owner[x] == b)
  }

  /** The same pages with those of `b` given to `b`. */
  ghost function Claim(owner: Owner, b: Block): Owner {
    map x | x in owner.Keys :: if Contains(b, x) then b else owner[x]
  }

  lemma {:induction false} TilingReplace(blocks: set<Block>, owner: Owner, gone: set<Block>, come: set<Block>,
                                         owner': Owner)
    requires Tiling(blocks, owner) && owner'.Keys == owner.Keys
    requires forall x :: x in owner && owner[x] !in gone ==> owner'[x] == owner[x]
    requires forall x :: x in owner && owner[x] in gone ==> owner'[x] in come && Contains(owner'[x], x)
    requires forall c, x :: c in come && Contains(c, x) ==> x in owner && owner[x] in gone && owner'[x] == c
    requires forall c :: c in come ==> c.level < LEVELS
    ensures Tiling(blocks - gone + come, owner')
  {
  }

  /** A page of a block is in exactly one of its halves. */
  lemma {:induction false} HalvesCover(b: Block, x: int)
    requires b.level > 0
    ensures Contains(b, x) <==> Contains(Lower(b), x) || Contains(Upper(b), x)
    ensures !(Contains(Lower(b), x) && Contains(Upper(b), x))
  {
    HalfPages(b);
  }

  lemma {:induction false} TilingSplit(blocks: set<Block>, owner: Owner, b: Block)
    requires Tiling(blocks, owner) && b in blocks && b.level > 0
    ensures Tiling(blocks - {b} + {Lower(b), Upper(b)}, Claim(Claim(owner, Lower(b)), Upper(b)))
    ensures Lower(b) !in blocks && Upper(b) !in blocks && Lower(b) != Upper(b)
  {
    var l, u := Lower(b), Upper(b);
    var o := Claim(Claim(owner, l), u);
    forall x | x in owner
      ensures owner[x] != b ==> o[x] == owner[x]
      ensures owner[x] == b ==> (o[x] == l || o[x] == u) && Contains(o[x], x)
    {
      HalvesCover(b, x);
    }
    forall x | Contains(l, x) || Contains(u, x)
      ensures x in owner && owner[x] == b && o[x] == if Contains(l, x) then l else u
    {
      HalvesCover(b, x);
    }
    HalfPages(b);
    assert Contains(l, Page(b)) && Contains(u, Page(u));
    TilingReplace(blocks, owner, {b}, {l, u}, o);
  }

  lemma {:induction false} TilingMerge(blocks: set<Block>, owner: Owner, b: Block)
    requires Tiling(blocks, owner) && b in blocks && Buddy(b) in blocks && b.level < LEVELS - 1
    ensures Tiling(blocks - {b, Buddy(b)} + {Parent(b)}, Claim(owner, Parent(b))) && Parent(b) !in blocks
  {
    ParentHalves(b);
    HalfPages(Parent(b));
    assert Contains(b, Page(b)) && Contains(Parent(b), Page(b));
    TilingReplace(blocks, owner, {b, Buddy(b)}, {Parent(b)}, Claim(owner, Parent(b)));
  }

  /** A block next to `b` in the same tiling starts where `b`'s buddy does, or not
      even that page is in the tiling: the one address consulted is never inside a
      block. */
  lemma {:induction false} NeighborStarts(blocks: set<Block>, owner: Owner, b: Block)
    requires Tiling(blocks, owner) && b in blocks
    ensures var n := Page(Buddy(b)); n in owner ==> Page(owner[n]) == n && owner[n].level <= b.level
  {
    var n := Page(Buddy(b));
    if n in owner {
      var c := owner[n];
      ParentHalves(b);
      HalfPages(Parent(b));
      if c.level > b.level {
        Nested(Parent(b), c, n);
        assert Contains(c, Page(b)) && Contains(b, Page(b));
      } else {
        Nested(c, Buddy(b), n);
      }
    }
  }

  /** No two free halves of the same block. */
  ghost predicate Coalesced(free: set<Block>) {
    forall b :: b in free && b.level < LEVELS - 1 ==> Buddy(b) !in free
  }

  ghost predicate FreePage(free: set<Block>, owner: Owner, x: int) { x in owner && owner[x] in free }

  /** Every page of `r` is free. */
  ghost predicate FreeRun(free: set<Block>, owner: Owner, r: Block) {
    forall x :: Contains(r, x) ==> FreePage(free, owner, x)
  }

  /** When everything is coalesced, an aligned run of free pages lies inside one free
      block. */
  lemma {:induction false} FreeRunHeld(blocks: set<Block>, owner: Owner, free: set<Block>, r: Block)
    requires Tiling(blocks, owner) && free <= blocks && Coalesced(free) && r.level < LEVELS && FreeRun(free, owner, r)
    ensures Page(r) in owner && owner[Page(r)] in free && Within(r, owner[Page(r)]) && r.level <= owner[Page(r)].level
    decreases r.level
  {
    assert Contains(r, Page(r));
    if r.level > 0 {
      var l, u := Lower(r), Upper(r);
      HalfPages(r);
      FreeRunHeld(blocks, owner, free, l);
      FreeRunHeld(blocks, owner, free, u);
      var cl, cu := owner[Page(l)], owner[Page(u)];
      if cl.level >= r.level {
        Nested(r, cl, Page(r));
      } else if cu.level >= r.level {
        assert Contains(r, Page(u)) && Contains(cu, Page(u));
        Nested(r, cu, Page(u));
      } else {
        SameLevel(l, cl, Page(l));
        SameLevel(u, cu, Page(u));
      }
    }
  }

  /** With every free block below `level`, no aligned run of that level is free. */
  lemma {:induction false} NoRun(blocks: set<Block>, owner: Owner, free: set<Block>, level: nat)
    requires Tiling(blocks, owner) && free <= blocks && Coalesced(free) && level < LEVELS
    requires forall b :: b in free ==> b.level < level
    ensures forall b: Block :: b.level == level ==> !FreeRun(free, owner, b)
  {
    forall b: Block | b.level == level ensures !FreeRun(free, owner, b) {
      if FreeRun(free, owner, b) { FreeRunHeld(blocks, owner, free, b); }
    }
  }

  /** A free block is a run of free pages, and so is everything within it. */
  lemma {:induction false} RunWithin(blocks: set<Block>, owner: Owner, free: set<Block>, whole: Block, b: Block)
    requires Tiling(blocks, owner) && free <= blocks && whole in free && Within(b, whole)
    ensures FreeRun(free, owner, b)
  {
  }

  /** The free blocks are determined by the free pages alone. */
  lemma {:induction false} CanonicalHalf(blocks: set<Block>, owner: Owner, free: set<Block>,
                                         blocks': set<Block>, owner': Owner, free': set<Block>, b: Block)
    requires Tiling(blocks, owner) && free <= blocks && Coalesced(free)
    requires Tiling(blocks', owner') && free' <= blocks' && Coalesced(free')
    requires forall x :: FreePage(free, owner, x) <==> FreePage(free', owner', x)
    requires b in free
    ensures b in free'
  {
    assert Contains(b, Page(b));
    assert FreeRun(free, owner, b) && FreeRun(free', owner', b);
    FreeRunHeld(blocks', owner', free', b);
    var c := owner'[Page(b)];
    assert Contains(c, Page(c));
    assert FreeRun(free', owner', c) && FreeRun(free, owner, c);
    FreeRunHeld(blocks, owner, free, c);
    var d := owner[Page(c)];
    assert Contains(d, Page(b));
    assert d == b;
    SameBlock(b, c);
  }

  lemma {:induction false} SameBlock(b: Block, c: Block)
    requires Within(b, c) && Within(c, b) && c.level >= b.level && b.level >= c.level
    ensures b == c
  {
    assert Contains(b, Page(b)) && Contains(c, Page(b));
    SameLevel(b, c, Page(b));
  }

  lemma {:induction false} Canonical(blocks: set<Block>, owner: Owner, free: set<Block>,
                                     blocks': set<Block>, owner': Owner, free': set<Block>)
    requires Tiling(blocks, owner) && free <= blocks && Coalesced(free)
    requires Tiling(blocks', owner') && free' <= blocks' && Coalesced(free')
    requires forall x :: FreePage(free, owner, x) <==> FreePage(free', owner', x)
    ensures free == free'
  {
    forall b | b in free ensures b in free' { CanonicalHalf(blocks, owner, free, blocks', owner', free', b); }
    forall b | b in free' ensures b in free { CanonicalHalf(blocks', owner', free', blocks, owner, free, b); }
  }
}
