/** A run of the runtime heap, from the start, in which `mem_realloc` reads past the end
    of its bin table: a chunk at the threshold grows in place into memory freed behind it,
    beyond what the table covers, and is then shrunk by one alignment unit. */
module MallocOverrun {
  import opened Arith
  import opened Lists
  import opened MallocSizes
  import opened MallocLayout
  import opened MallocBooks
  import opened MallocSteps
  import opened MallocOwners
  import opened MallocProofs
  import opened Malloc

  /** Where the kernel puts the first segment, and how much it hands out at a time. */
  const BASE: nat := 4096
  const SPAN: nat := 233472
  const FIRST: nat := BASE + 16

  /** The largest request that is served from the bins. */
  const LARGEST: nat := MMAP_THRESHOLD - OVERHEAD

  lemma LargestSizes()
    ensures AdjustSize(LARGEST) == Some(MMAP_THRESHOLD)
    ensures Growth(MMAP_THRESHOLD, 0) == Growth(MMAP_THRESHOLD, 1) == SPAN
    ensures BinIndexUpDefined(MMAP_THRESHOLD) && BinIndexUp(MMAP_THRESHOLD) == 63 && BinIndex(4064) < 63
  {
    assert Pow2(0) == 1;
  }

  /** One segment with one block: what is behind the block is one free chunk, and there is
      no other. */
  lemma OneBlock(h: Heap, e: int, c: int, n: int)
    requires Consistent(h) && h.ends == map[e := c] && h.live == map[c := n] && h.mapped == map[] && c + n < e
    ensures c in h.L && h.L[c] == Chunk(n, true)
    ensures Free(h.L, c + n) && h.L[c + n].size == e - c - n
    ensures forall d :: Free(h.L, d) ==> d == c + n
  {
    Open(h);
    OwnedIs(h, c);
    forall d | d in h.L && d != c ensures !h.L[d].used { OwnedIs(h, d); }
    assert Followed(h.L, h.ends, c);
    var d := c + n;
    assert Followed(h.L, h.ends, d) && !FreePair(h.L, d);
    forall f | Free(h.L, f) ensures f == d {
      assert Within(h.ends, f);
      assert Followed(h.L, h.ends, f);
    }
  }

  lemma SpanBehind(h: Heap, a: int, e: int)
    requires h.mapped == map[] && e > 0 && a == e + 16 && Paged(a) && h.ends == map[e := FIRST]
    ensures Honest(h, _ => Some(a))
  {
  }

  lemma FirstSpan(h: Heap)
    requires h.mapped == map[] && h.ends == map[]
    ensures Honest(h, _ => Some(BASE))
  {
  }

  /** Two blocks of the largest size, the second one freed: the first is followed by more
      free memory than itself. */
  method TwoBlocks() returns (arena: Arena)
    ensures fresh(arena) && arena.Valid()
    ensures arena.live == map[FIRST := MMAP_THRESHOLD] && arena.mapped == map[]
    ensures arena.ends == map[BASE + 2 * SPAN - 16 := FIRST]
  {
    LargestSizes();
    arena := new Arena();
    FirstSpan(arena.State());
    assert NoneFrom(arena.chunks, 63);
    var p := arena.Alloc(LARGEST, _ => Some(BASE));
    assert arena.ends == map[BASE + SPAN - 16 := FIRST];
    assert arena.live == map[FIRST := MMAP_THRESHOLD];
    OneBlock(arena.State(), BASE + SPAN - 16, FIRST, MMAP_THRESHOLD);
    SpanBehind(arena.State(), BASE + SPAN, BASE + SPAN - 16);
    var q := arena.Alloc(LARGEST, _ => Some(BASE + SPAN));
    assert arena.ends == map[BASE + 2 * SPAN - 16 := FIRST];
    arena.MemFree(q);
    assert arena.live == map[FIRST := MMAP_THRESHOLD];
  }

  /** `mem_realloc` to 8195 units and then to 8194. */
  method Overrun() returns (r: Outcome)
    ensures r.Stray?
  {
    var arena := TwoBlocks();
    OneBlock(arena.State(), BASE + 2 * SPAN - 16, FIRST, MMAP_THRESHOLD);
    var p := Some(FIRST + OVERHEAD);
    r := arena.Realloc(p, 8195 * SIZE_ALIGN - OVERHEAD, _ => None, _ => None);
    assert arena.live == map[FIRST := 8195 * SIZE_ALIGN];
    LiveReads(arena.State(), FIRST);
    ChunkReads(arena.State(), FIRST);
    r := arena.Realloc(p, 8194 * SIZE_ALIGN - OVERHEAD, _ => None, _ => None);
  }
}
