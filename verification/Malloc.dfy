/** The allocator of the user-mode runtime: boundary tags, 64 bins of free chunks, splitting
    and two-sided coalescing (src/runtime/alloc/malloc.c, src/runtime/alloc/aligned_alloc.c).
    Public calls are atomic here; the kernel's answer to a request for pages is a
    parameter of the call. */
module Malloc {
  import opened Arith
  import opened Lists
  import opened MallocSizes
  import opened MallocLayout
  import opened MallocBooks
  import opened MallocSteps
  import opened MallocOwners
  import opened MallocProofs

  /** The result of `mem_realloc`: a block, a null pointer, or a read outside the bin
      table whose result the language leaves open. */
  datatype Outcome = Block(p: int) | Null | Stray

  class Arena {
    /** The header words of chunks, by chunk address. */
    var psize: Words
    var csize: Words
    /** The free chunks of each bin, in list order. */
    var bins: seq<seq<int>>
    /** The set bits of `binmap`. */
    var binmap: set<int>
    /** The bytes that hold caller data; what the allocator writes over is gone. */
    var bytes: map<int, int>
    /** End of the segment that can grow in place. */
    var end: int
    var step: nat

    ghost var chunks: Chunks
    ghost var ends: Segments
    ghost var mapped: map<int, Region>
    /** Every live allocation: its chunk and how far it reaches. */
    ghost var live: map<int, int>

    ghost function State(): Heap
      reads this
    {
      Heap(chunks, ends, mapped, psize, csize, bins, binmap, live)
    }

    ghost predicate Valid()
      reads this
    {
      Consistent(State()) && (end == 0 || end - 16 in ends)
    }

    constructor ()
      ensures Valid() && live == map[] && chunks == map[] && ends == map[] && mapped == map[] && end == 0 && step == 0
    {
      psize, csize, bytes := map[], map[], map[];
      bins, binmap := seq(BINS, _ => []), {};
      end, step := 0, 0;
      chunks, ends, mapped, live := map[], map[], map[], map[];
      new;
      Close(State());
    }

    /** `unbin`. */
    method Unbin(c: int, i: int)
      requires Valid() && Free(chunks, c) && chunks[c].size >= SIZE_ALIGN && BinIndex(chunks[c].size) == i
      modifies `psize, `csize, `bins, `binmap, `bytes, `chunks, `live
      ensures Valid() && chunks == old(chunks)[c := Chunk(old(chunks)[c].size, true)]
      ensures c !in old(live) && live == old(live)[c := old(chunks)[c].size]
      ensures Intact(live, old(bytes), bytes)
    {
      ghost var h := State();
      UnbinReads(h, c, i);
      Unlink(c, i);
      MarkUsed(c, c + SizeOf(csize[c]));
      chunks, live := chunks[c := Chunk(chunks[c].size, true)], live[c := chunks[c].size];
      ghost var g := State();
      UnbinForm(h, c, i, g);
      UnbinWrites(h, c, i, g, old(bytes));
    }

    /** `unbin`, the ring: clear the bit if both neighbours are the bin's head. */
    method Unlink(c: int, i: int)
      requires 0 <= i < |bins| && c in bins[i]
      modifies `bins, `binmap, `bytes
      ensures bins == old(bins)[i := Remove(old(bins)[i], c)]
      ensures binmap == if RingPrev(old(bins)[i], c) == RingNext(old(bins)[i], c) then old(binmap) - {i}
                        else old(binmap)
      ensures bytes == EraseLinks(EraseLinks(old(bytes), RingPrev(old(bins)[i], c)), RingNext(old(bins)[i], c))
    {
      var prev, next := RingPrev(bins[i], c), RingNext(bins[i], c);
      if prev == next {
        binmap := binmap - {i};
      }
      bins := bins[i := Remove(bins[i], c)];
      bytes := EraseLinks(EraseLinks(bytes, prev), next);
    }

    /** `unbin`, the header words. */
    method MarkUsed(c: int, after: int)
      requires c in csize && after in psize
      modifies `psize, `csize, `bytes
      ensures psize == old(psize)[after := Marked(old(psize)[after])]
      ensures csize == old(csize)[c := Marked(old(csize)[c])]
      ensures bytes == Erase(Erase(old(bytes), c, 16), after, 16)
    {
      csize := csize[c := Marked(csize[c])];
      psize := psize[after := Marked(psize[after])];
      bytes := Erase(Erase(bytes, c, 16), after, 16);
    }

    /** `bin_chunk`, the links only: append to the bin and set its bit if it was empty. */
    method BinChunk(c: int, i: int) returns (ghost tail: Option<int>)
      requires 0 <= i < |bins|
      modifies `bins, `binmap, `bytes
      ensures bins == old(bins)[i := old(bins)[i] + [c]]
      ensures binmap == if old(bins)[i] == [] then old(binmap) + {i} else old(binmap)
      ensures tail == if old(bins)[i] == [] then None else Some(old(bins)[i][|old(bins)[i]| - 1])
      ensures bytes == EraseLinks(EraseLinks(old(bytes), tail), Some(c))
    {
      var s := bins[i];
      var last := if s == [] then None else Some(s[|s| - 1]);
      tail := last;
      bins := bins[i := s + [c]];
      bytes := EraseLinks(EraseLinks(bytes, last), Some(c));
      if last.None? {
        binmap := binmap + {i};
      }
    }

    /** The end of `__bin_chunk`: [lo, hi) becomes one free chunk. */
    method Release(lo: int, hi: int)
      requires Valid() && Releasable(State(), lo, hi)
      modifies `psize, `csize, `bins, `binmap, `bytes, `chunks, `live
      ensures Valid() && chunks == Joined(old(chunks), lo, hi, false) && live == Drop(old(live), lo, hi)
      ensures hi - lo >= SIZE_ALIGN && 0 <= BinIndex(hi - lo) < |old(bins)|
      ensures bins == old(bins)[BinIndex(hi - lo) := old(bins)[BinIndex(hi - lo)] + [lo]]
      ensures Intact(live, old(bytes), bytes)
    {
      ghost var h := State();
      ReleaseReads(h, lo, hi);
      var i := BinIndex(hi - lo);
      csize := csize[lo := hi - lo];
      psize := psize[hi := hi - lo];
      ghost var tail := BinChunk(lo, i);
      chunks, live := Joined(chunks, lo, hi, false), Drop(live, lo, hi);
      bytes := Erase(Erase(bytes, lo, 16), hi, 16);
      ghost var g := State();
      assert g == Released(h, lo, hi, i).(live := Drop(h.live, lo, hi));
      ReleaseWrites(h, lo, hi, i, g, tail, old(bytes));
    }

    /** `__bin_chunk`, the neighbour below: take it if it is free. */
    method TakeBelow(self: int) returns (lo: int)
      requires Valid() && self in chunks && chunks[self].used
      modifies `psize, `csize, `bins, `binmap, `bytes, `chunks, `live
      ensures Valid() && MergedBelow(old(State()), chunks, lo, self)
      ensures Extends(old(live), live)
      ensures Intact(old(live), old(bytes), bytes)
    {
      ghost var h := State();
      BoundaryReads(h, self);
      var before := if InUse(psize[self]) then 0 else SizeOf(psize[self]);
      lo := self;
      if before != 0 {
        MergedBelowSome(h, self);
        lo := self - before;
        Unbin(lo, BinIndex(before));
        IntactLess(live, old(live), old(bytes), bytes);
      } else {
        MergedBelowNone(h, self);
      }
    }

    /** The neighbour above. */
    method TakeAbove(next: int) returns (hi: int)
      requires Valid() && Boundary(chunks, ends, next)
      modifies `psize, `csize, `bins, `binmap, `bytes, `chunks, `live
      ensures Valid()
      ensures hi == next + if Free(old(chunks), next) then old(chunks)[next].size else 0
      ensures chunks == if Free(old(chunks), next) then old(chunks)[next := Chunk(old(chunks)[next].size, true)]
                        else old(chunks)
      ensures Free(old(chunks), next) ==> next !in old(live)
      ensures Free(old(chunks), next) ==> live == old(live)[next := old(chunks)[next].size]
      ensures Intact(live, old(bytes), bytes) && Intact(old(live), old(bytes), bytes)
    {
      ghost var h := State();
      BoundaryReads(h, next);
      var above := if InUse(csize[next]) then 0 else SizeOf(csize[next]);
      hi := next + above;
      if above != 0 {
        Unbin(next, BinIndex(above));
        IntactLess(live, old(live), old(bytes), bytes);
      }
      IntactSame(old(live), old(bytes));
    }

    /** `__bin_chunk`: merge with the free neighbours on both sides and file the result. */
    method Retire(self: int)
      requires Valid() && self in chunks && chunks[self].used
      modifies `psize, `csize, `bins, `binmap, `bytes, `chunks, `live
      ensures Valid() && live == Forget(old(live), self)
      ensures Intact(live, old(bytes), bytes)
    {
      ghost var h := State();
      ChunkReads(h, self);
      var next := self + SizeOf(csize[self]);
      assert psize[next] == csize[self];
      var lo := TakeBelow(self);
      ghost var h1, b1 := State(), bytes;
      var hi := TakeAbove(next);
      ghost var g, b2 := State(), bytes;
      RetireReady(h, h1, g, lo, self, hi);
      Release(lo, hi);
      RetireIntact(h.live, h1.live, self, old(bytes), b1, b2, bytes);
    }

    /** The header words of a chunk cut in two: `n` bytes in use, and a rest up to `next`
        whose header word is `w`. */
    method WriteSplit(self: int, n: int, next: int, w: int)
      modifies `psize, `csize, `bytes
      ensures psize == old(psize)[self + n := n + 1][next := w]
      ensures csize == old(csize)[self := n + 1][self + n := w]
      ensures bytes == Erase(Erase(Erase(old(bytes), self, 16), self + n, 16), next, 16)
    {
      psize := psize[self + n := n + 1][next := w];
      csize := csize[self := n + 1][self + n := w];
      bytes := Erase(Erase(Erase(bytes, self, 16), self + n, 16), next, 16);
    }

    /** `trim`, past its guard: the tail of an in-use chunk of `n1` bytes becomes a free
        chunk. */
    method CutTail(self: int, n: int, n1: int)
      requires Valid() && Cuttable(chunks, self, n) && chunks[self].size == n1 && !Free(chunks, self + n1)
      modifies `psize, `csize, `bins, `binmap, `bytes, `chunks, `live
      ensures Valid() && self in chunks && chunks[self] == Chunk(n, true)
      ensures self in old(live) && live == old(live)[self := n]
      ensures Intact(live, old(bytes), bytes)
    {
      ghost var h := State();
      var i := TailBin(self, n, n1);
      ghost var tail := WriteTail(self, n, n1, i);
      chunks, live := Cut(chunks, self, n, false), live[self := n];
      ghost var g := State();
      TrimWrites(h, self, n, n1, i, g, tail, old(bytes));
    }

    method TailBin(self: int, n: int, n1: int) returns (i: int)
      requires Valid() && Cuttable(chunks, self, n) && chunks[self].size == n1
      ensures 0 <= i < |bins| && n1 - n >= SIZE_ALIGN && i == BinIndex(n1 - n)
    {
      CutReads(State(), self, n);
      i := BinIndex(n1 - n);
    }

    method WriteTail(self: int, n: int, n1: int, i: int) returns (ghost tail: Option<int>)
      requires 0 <= i < |bins|
      modifies `psize, `csize, `bins, `binmap, `bytes
      ensures psize == old(psize)[self + n := n + 1][self + n1 := n1 - n]
      ensures csize == old(csize)[self := n + 1][self + n := n1 - n]
      ensures bins == old(bins)[i := old(bins)[i] + [self + n]]
      ensures binmap == if old(bins)[i] == [] then old(binmap) + {i} else old(binmap)
      ensures tail == if old(bins)[i] == [] then None else Some(old(bins)[i][|old(bins)[i]| - 1])
      ensures bytes == EraseLinks(EraseLinks(
                         Erase(Erase(Erase(old(bytes), self, 16), self + n, 16), self + n1, 16), tail), Some(self + n))
    {
      WriteSplit(self, n, self + n1, n1 - n);
      tail := BinChunk(self + n, i);
    }

    /** `trim`: cut an in-use chunk to `n` bytes, unless it is that long already. */
    method Trim(self: int, n: int)
      requires Valid() && self in chunks && chunks[self].used && 0 < n <= chunks[self].size && Whole(n)
      requires !Free(chunks, self + chunks[self].size)
      modifies `psize, `csize, `bins, `binmap, `bytes, `chunks, `live
      ensures Valid() && self in old(live) && live == old(live)[self := n]
      ensures self in chunks && chunks[self] == Chunk(n, true)
      ensures Intact(live, old(bytes), bytes)
    {
      ChunkReads(State(), self);
      if n < SizeOf(csize[self]) - DONTCARE {
        CutTail(self, n, SizeOf(csize[self]));
      } else {
        SizeReads(State(), self);
        WholeNear(n, chunks[self].size);
      }
    }

    /** `expand_heap`: an in-use chunk of at least `n` bytes in memory just obtained, either
        at the end of the last segment or in one of its own. */
    method Expand(n: nat, sys: int -> Option<int>) returns (c: Option<int>)
      requires Valid() && Honest(State(), sys)
      modifies `psize, `csize, `bytes, `end, `step, `chunks, `ends, `live
      ensures Valid() && Intact(live, old(bytes), bytes)
      ensures c.None? ==> State() == old(State()) && bytes == old(bytes) && end == old(end) && step == old(step)
      ensures c.None? <==> n + SIZE_ALIGN > SIZE_MAX / 2 - PAGE_SIZE || sys(Growth(n, old(step))).None?
      ensures c.Some? ==> step == old(step) + 1
      ensures c.Some? ==> var len := Growth(n, old(step));
                          Grown(old(ends), old(end), sys(len).value, len, c.value, ends, end)
      ensures c.Some? ==> (
                  && c.value in chunks && chunks[c.value].used && chunks[c.value].size >= n
                  && !Free(chunks, c.value + chunks[c.value].size) && c.value !in old(live)
                  && live == old(live)[c.value := chunks[c.value].size])
    {
      if n + SIZE_ALIGN > SIZE_MAX / 2 - PAGE_SIZE {
        return None;
      }
      var len := Growth(n, step);
      GrowthPaged(n, step);
      var area := sys(len);
      if area.None? {
        return None;
      }
      step := step + 1;
      ghost var h := State();
      if area.value != end {
        c := OpenSegment(area.value, len);
      } else {
        c := ExtendSegment(len);
      }
    }

    method OpenSegment(a: int, len: int) returns (c: Option<int>)
      requires Valid() && Unused(State(), a, len)
      modifies `psize, `csize, `bytes, `end, `chunks, `ends, `live
      ensures Valid() && Intact(live, old(bytes), bytes)
      ensures c == Some(a + 16) && a + 16 in chunks && chunks[a + 16] == Chunk(len - 32, true)
      ensures !Free(chunks, a + 16 + (len - 32)) && a + 16 !in old(live)
      ensures live == old(live)[a + 16 := len - 32]
      ensures end == a + len && ends == OpenedEnds(old(ends), a, len)
    {
      ghost var h := State();
      psize := psize[a + 16 := 1][a + len - 16 := len - 32 + 1];
      csize := csize[a + len - 16 := 1][a + 16 := len - 32 + 1];
      bytes := Erase(Erase(bytes, a + 16, 16), a + len - 16, 16);
      end := a + len;
      chunks, ends, live := Opened(chunks, a, len), OpenedEnds(ends, a, len), live[a + 16 := len - 32];
      OpenWrites(h, a, len, State(), old(bytes));
      return Some(a + 16);
    }

    method ExtendSegment(len: int) returns (c: Option<int>)
      requires Valid() && end != 0 && Unused(State(), end, len)
      modifies `psize, `csize, `bytes, `end, `chunks, `ends, `live
      ensures Valid() && Intact(live, old(bytes), bytes)
      ensures var e := old(end) - 16;
              && c == Some(e) && e in chunks && chunks[e] == Chunk(len, true)
              && !Free(chunks, e + len) && e !in old(live)
              && live == old(live)[e := len]
              && end == old(end) + len && e in old(ends) && ends == ExtendedEnds(old(ends), e, len)
    {
      ghost var h := State();
      var e := end - 16;
      WriteExtended(e, len);
      end := end + len;
      chunks, ends, live := Extended(chunks, e, len), ExtendedEnds(ends, e, len), live[e := len];
      ExtendWrites(h, e, old(end), len, State(), old(bytes));
      return Some(e);
    }

    method WriteExtended(e: int, len: int)
      modifies `psize, `csize, `bytes
      ensures psize == old(psize)[e + len := len + 1] && csize == old(csize)[e + len := 1][e := len + 1]
      ensures bytes == Erase(Erase(old(bytes), e, 16), e + len, 16)
    {
      psize := psize[e + len := len + 1];
      csize := csize[e + len := 1][e := len + 1];
      bytes := Erase(Erase(bytes, e, 16), e + len, 16);
    }

    /** The search of `mem_alloc`: the first chunk of the first non-empty bin from `i` up. */
    method FromBins(i: int) returns (c: Option<int>)
      requires Valid() && 0 <= i < BINS
      modifies `psize, `csize, `bins, `binmap, `bytes, `chunks, `live
      ensures Valid() && Intact(live, old(bytes), bytes)
      ensures c.None? ==> State() == old(State()) && bytes == old(bytes) && NoneFrom(chunks, i)
      ensures c.Some? ==> (
                  && Free(old(chunks), c.value) && Whole(old(chunks)[c.value].size)
                  && old(chunks)[c.value].size >= SIZE_ALIGN && BinIndex(old(chunks)[c.value].size) >= i
                  && BinIndex(old(chunks)[c.value].size) < |old(bins)|
                  && (forall j :: i <= j < BinIndex(old(chunks)[c.value].size) ==> old(bins)[j] == [])
                  && old(bins)[BinIndex(old(chunks)[c.value].size)] != []
                  && c.value == old(bins)[BinIndex(old(chunks)[c.value].size)][0]
                  && c.value in chunks && chunks[c.value] == Chunk(old(chunks)[c.value].size, true)
                  && !Free(chunks, c.value + chunks[c.value].size) && c.value !in old(live)
                  && live == old(live)[c.value := chunks[c.value].size])
    {
      ghost var h := State();
      var mask := set j | j in binmap && j >= i;
      while mask != {}
        invariant State() == h && bytes == old(bytes) && Valid()
        invariant forall j :: j in mask ==> j in binmap && j >= i
        invariant forall j :: j in mask || Passed(h, i, j)
        decreases |mask|
      {
        ghost var least := LeastMember(mask);
        var j :| j in mask && forall k :: k in mask ==> j <= k;
        BitReads(h, j);
        if bins[j] != [] {
          BinReads(h, j);
          LowestBin(h, i, j);
          c := Some(bins[j][0]);
          Unbin(c.value, j);
          return;
        }
        mask := mask - {j};
      }
      EmptyBins(h, i);
      return None;
    }

    /** The unlocked attempt of `mem_alloc`: the first chunk of bin `i`, if it fits exactly. */
    method FastPath(n: nat, i: int) returns (c: Option<int>)
      requires Valid() && Whole(n) && SIZE_ALIGN <= n <= MMAP_THRESHOLD && BinIndexUpDefined(n) && i == BinIndexUp(n)
      modifies `psize, `csize, `bins, `binmap, `bytes, `chunks, `live
      ensures Valid() && Intact(old(live), old(bytes), bytes)
      ensures c.None? ==> State() == old(State()) && bytes == old(bytes)
      ensures c.Some? ==> c.value in chunks && chunks[c.value] == Chunk(n, true)
      ensures c.Some? ==> c.value !in old(live) && live == old(live)[c.value := n]
      ensures c.Some? <==> i < 63 && i < |old(bins)| && old(bins)[i] != [] && old(bins)[i][0] in old(chunks) &&
                           old(chunks)[old(bins)[i][0]].size - n <= DONTCARE
      ensures c.Some? ==> c.value == old(bins)[i][0] && !NoneFrom(old(chunks), i)
    {
      BinIndexUpIsNext(n);
      BinReads(State(), i);
      if i < 63 && i in binmap {
        var first := bins[i][0];
        BinFits(chunks[first].size, n);
        if SizeOf(csize[first]) - n <= DONTCARE {
          WholeNear(n, chunks[first].size);
          Unbin(first, i);
          IntactGrown(old(live), first, n, old(bytes), bytes);
          return Some(first);
        }
      }
      return None;
    }

    /** The locked rest of it: a chunk from a larger bin or from new memory, trimmed. */
    method SlowPath(n: nat, i: int, sys: int -> Option<int>) returns (c: Option<int>)
      requires Valid() && Honest(State(), sys)
      requires Whole(n)
      requires SIZE_ALIGN <= n <= MMAP_THRESHOLD && BinIndexUpDefined(n) && i == BinIndexUp(n) && 0 <= i < BINS
      modifies `psize, `csize, `bins, `binmap, `bytes, `end, `step, `chunks, `ends, `live
      ensures Valid() && Intact(old(live), old(bytes), bytes)
      ensures c.None? ==> State() == old(State()) && bytes == old(bytes) && end == old(end) && step == old(step)
      ensures c.None? <==> NoneFrom(old(chunks), i) && sys(Growth(n, old(step))).None?
      ensures c.Some? ==> c.value in chunks && chunks[c.value] == Chunk(n, true)
      ensures c.Some? ==> c.value !in old(live) && live == old(live)[c.value := n]
      ensures c.Some? ==> Supplied(NoneFrom(old(chunks), i), n, sys, c.value)
    {
      c := FromBins(i);
      if c.None? {
        c := Expand(n, sys);
        if c.None? {
          return None;
        }
      } else {
        BinFits(chunks[c.value].size, n);
      }
      TrimGrown(c.value, n, old(live), old(bytes));
    }

    /** Whether the block at `c` came with new memory, and what that did to the segments. */
    twostate predicate Supplied(expanded: bool, n: nat, sys: int -> Option<int>, c: int)
      reads this
    {
      var len := Growth(n, old(step));
      && (!expanded ==> ends == old(ends) && end == old(end) && step == old(step))
      && (expanded ==>
            && sys(len).Some? && step == old(step) + 1
            && Grown(old(ends), old(end), sys(len).value, len, c, ends, end))
    }

    /** `trim` of a chunk just taken into use. */
    method TrimGrown(c: int, n: nat, ghost was: map<int, int>, ghost b: map<int, int>)
      requires Valid() && c in chunks && chunks[c].used && 0 < n <= chunks[c].size && Whole(n)
      requires !Free(chunks, c + chunks[c].size)
      requires c !in was && live == was[c := chunks[c].size] && Intact(live, b, bytes)
      modifies `psize, `csize, `bins, `binmap, `bytes, `chunks, `live
      ensures Valid() && c in chunks && chunks[c] == Chunk(n, true)
      ensures live == was[c := n] && Intact(was, b, bytes)
    {
      Trim(c, n);
      assert live == was[c := n];
      IntactGrown(was, c, old(chunks)[c].size, b, old(bytes));
      IntactGrown(was, c, n, old(bytes), bytes);
      IntactTrans(was, b, old(bytes), bytes);
    }

    /** The part of `mem_alloc` for requests up to the threshold, `n` already adjusted. */
    method AllocSmall(n: nat, sys: int -> Option<int>) returns (c: Option<int>)
      requires Valid() && Honest(State(), sys)
      requires Whole(n) && SIZE_ALIGN <= n <= MMAP_THRESHOLD
      modifies `psize, `csize, `bins, `binmap, `bytes, `end, `step, `chunks, `ends, `live
      ensures Valid() && Intact(old(live), old(bytes), bytes)
      ensures c.None? ==> State() == old(State()) && bytes == old(bytes) && end == old(end) && step == old(step)
      ensures c.None? <==> Unmet(old(chunks), n) && sys(Growth(n, old(step))).None?
      ensures c.Some? ==> c.value in chunks && chunks[c.value] == Chunk(n, true)
      ensures c.Some? ==> c.value !in old(live) && live == old(live)[c.value := n]
      ensures c.Some? ==> Supplied(Unmet(old(chunks), n), n, sys, c.value)
    {
      BinIndexUpIsNext(n);
      var i := BinIndexUp(n);
      c := FastPath(n, i);
      if c.None? {
        c := SlowPath(n, i, sys);
      }
    }

    /** The part of `mem_alloc` for larger requests: a region of its own. */
    method AllocLarge(n: nat, sys: int -> Option<int>) returns (c: Option<int>)
      requires Valid() && Honest(State(), sys) && n > MMAP_THRESHOLD
      modifies `psize, `csize, `bytes, `mapped, `live
      ensures Valid() && Intact(old(live), old(bytes), bytes)
      ensures c.None? ==> State() == old(State()) && bytes == old(bytes)
      ensures c.None? <==> sys(AlignUp(n + OVERHEAD, PAGE_SIZE)).None?
      ensures c.Some? ==> (
                  && c.value in mapped && OnGrid(c.value) && c.value !in old(live)
                  && c.value in live && n <= live[c.value] < n + PAGE_SIZE
                  && live == old(live)[c.value := live[c.value]])
    {
      var len := AlignUp(n + OVERHEAD, PAGE_SIZE);
      AlignUpFacts(n + OVERHEAD, PAGE_SIZE);
      var area := sys(len);
      if area.None? {
        return None;
      }
      MapRegion(area.value, len);
      return Some(area.value + 16);
    }

    method MapRegion(base: int, len: int)
      requires Valid() && Unused(State(), base, len) && len > MMAP_THRESHOLD
      modifies `psize, `csize, `bytes, `mapped, `live
      ensures Valid() && Intact(old(live), old(bytes), bytes)
      ensures base + 16 in mapped && OnGrid(base + 16) && base + 16 !in old(live)
      ensures live == old(live)[base + 16 := len - 16]
    {
      ghost var h := State();
      psize := psize[base + 16 := 16];
      csize := csize[base + 16 := len - 16];
      bytes := Erase(bytes, base + 16, 16);
      mapped, live := mapped[base + 16 := Region(base, len)], live[base + 16 := len - 16];
      MapWrites(h, base, len, State(), old(bytes));
      IntactGrown(old(live), base + 16, len - 16, old(bytes), bytes);
    }

    /** `mem_alloc`. */
    method Alloc(n: nat, sys: int -> Option<int>) returns (p: Option<int>)
      requires Valid() && Honest(State(), sys)
      modifies this
      ensures Valid() && Intact(old(live), old(bytes), bytes)
      ensures p.Some? ==> AdjustSize(n).Some? && Granted(old(live), live, p.value, n)
      ensures p.Some? && AdjustSize(n).value <= MMAP_THRESHOLD ==>
                && live[p.value - OVERHEAD] == AdjustSize(n).value && mapped == old(mapped)
                && Supplied(Unmet(old(chunks), AdjustSize(n).value), AdjustSize(n).value, sys, p.value - OVERHEAD)
      ensures p.None? ==> State() == old(State()) && bytes == old(bytes) && end == old(end) && step == old(step)
      ensures p.None? <==> Refuses(old(chunks), old(step), sys, n)
      ensures p.None? && AdjustSize(n).Some? && AdjustSize(n).value <= MMAP_THRESHOLD ==>
                NoFit(old(chunks), AdjustSize(n).value)
    {
      var size := AdjustSize(n);
      if size.None? {
        return None;
      }
      AdjustSizeFits(n);
      var c;
      if size.value > MMAP_THRESHOLD {
        c := AllocLarge(size.value, sys);
      } else {
        c := AllocSmall(size.value, sys);
        if c.Some? { SizeReads(State(), c.value); }
      }
      if c.None? {
        if size.value <= MMAP_THRESHOLD { UnmetMeansNoFit(State(), size.value); }
        return None;
      }
      assert (c.value + OVERHEAD) % SIZE_ALIGN == 0 by { assert OnGrid(c.value); }
      return Some(c.value + OVERHEAD);
    }

    /** `mem_free`. */
    method MemFree(p: Option<int>)
      requires Valid() && (p.Some? ==> p.value - OVERHEAD in live)
      modifies this
      ensures Valid()
      ensures p.None? ==> State() == old(State()) && bytes == old(bytes)
      ensures p.Some? ==> live == Forget(old(live), p.value - OVERHEAD)
      ensures Intact(live, old(bytes), bytes)
      ensures ends == old(ends) && end == old(end) && step == old(step)
      ensures p.Some? && p.value - OVERHEAD !in old(mapped) ==> mapped == old(mapped)
    {
      if p.None? {
        return;
      }
      var self := p.value - OVERHEAD;
      ghost var h := State();
      LiveReads(h, self);
      if self in mapped { RegionReads(h, self); } else { ChunkReads(h, self); }
      if !InUse(csize[self]) {
        var extra := psize[self];
        assert !InUse(extra);
        assert self - extra == mapped[self].base;
        mapped, live := map k | k in mapped && k != self :: mapped[k], Forget(live, self);
        UnmapWrites(h, self, State());
      } else {
        Retire(self);
      }
    }

    /** `memcpy` between blocks that do not overlap. */
    method Copy(q: int, p: int, len: nat)
      requires p + len <= q || q + len <= p
      modifies `bytes
      ensures Kept(old(bytes), bytes, p, q, len)
      ensures forall x :: !(q <= x < q + len) && x in old(bytes) ==> x in bytes && bytes[x] == old(bytes)[x]
    {
      var k := 0;
      while k < len
        invariant k <= len
        invariant Kept(old(bytes), bytes, p, q, k)
        invariant forall x :: !(q <= x < q + k) && x in old(bytes) ==> x in bytes && bytes[x] == old(bytes)[x]
        invariant forall x :: !(q <= x < q + k) && x in bytes ==> x in old(bytes)
      {
        if p + k in bytes {
          bytes := bytes[q + k := bytes[p + k]];
        } else {
          bytes := Erase(bytes, q + k, 1);
        }
        k := k + 1;
      }
    }

    /** `copy_realloc` and `copy_free_ret`: a new block, the first `len` bytes copied, the
        old block freed. */
    method MoveTo(c: int, n: nat, len: nat, sys: int -> Option<int>) returns (d: Option<int>)
      requires Valid() && Honest(State(), sys) && c in live
      requires OVERHEAD <= n && len <= live[c] - OVERHEAD && len <= n - OVERHEAD
      modifies this
      ensures Valid()
      ensures d.None? ==> State() == old(State()) && bytes == old(bytes) && end == old(end) && step == old(step)
      ensures d.None? <==> Refuses(old(chunks), old(step), sys, n - OVERHEAD)
      ensures d.Some? ==> d.value != c
      ensures d.Some? ==> (
                  && Resized(old(live), live, c, d.value, n - OVERHEAD)
                  && Intact(Forget(old(live), c), old(bytes), bytes)
                  && Kept(old(bytes), bytes, c + OVERHEAD, d.value + OVERHEAD, len))
    {
      ghost var was := live;
      var block := Alloc(n - OVERHEAD, sys);
      if block.None? {
        return None;
      }
      CopyFree(c, block.value - OVERHEAD, len, was, old(bytes));
      return Some(block.value - OVERHEAD);
    }

    /** `copy_free_ret`. */
    method CopyFree(c: int, d: int, len: nat, ghost was: map<int, int>, ghost b: map<int, int>)
      requires Valid() && c in was && d !in was && d in live && live == was[d := live[d]]
      requires len <= was[c] - OVERHEAD && len <= live[d] - OVERHEAD
      requires Intact(was, b, bytes)
      modifies this
      ensures Valid() && d in old(live) && live == Forget(was, c)[d := old(live)[d]]
      ensures Intact(Forget(was, c), b, bytes)
      ensures Kept(b, bytes, c + OVERHEAD, d + OVERHEAD, len)
    {
      ghost var h, b1, k := State(), bytes, live[d];
      NewBlockApart(h, was, d);
      BlocksApart(h, c, d, len);
      MoveBooks(was, c, d, k);
      Copy(d + OVERHEAD, c + OVERHEAD, len);
      ghost var b2 := bytes;
      MemFree(Some(c + OVERHEAD));
      CopyIntact(was, c, d, k, len, b, b1, b2, bytes);
    }

    /** `CHUNK_SIZE`: what the header says is the chunk's size. */
    method ChunkSize(c: int) returns (n: int)
      requires Valid() && c in chunks && chunks[c].used
      ensures n == chunks[c].size
    {
      ChunkReads(State(), c);
      n := SizeOf(csize[c]);
    }

    /** A chunk in two, both in use. */
    method SplitUsed(self: int, n: int)
      requires Valid() && Cuttable(chunks, self, n)
      modifies `psize, `csize, `bytes, `chunks, `live
      ensures Valid() && self + n in chunks && chunks[self + n].used && self in chunks && chunks[self].used
      ensures self in old(live) && self + n !in old(live)
      ensures live == old(live)[self := n][self + n := old(chunks)[self].size - n]
      ensures Intact(live, old(bytes), bytes)
    {
      ghost var h := State();
      var n0 := ChunkSize(self);
      WriteSplit(self, n, self + n0, n0 - n + 1);
      chunks, live := Cut(chunks, self, n, true), live[self := n][self + n := n0 - n];
      ghost var g := State();
      SplitWrites(h, self, n, n0, g, old(bytes));
    }

    /** `mem_realloc` of a chunk to a smaller size, in place: the tail is freed. */
    method ShrinkInPlace(self: int, n: int)
      requires Valid() && Cuttable(chunks, self, n)
      modifies `psize, `csize, `bins, `binmap, `bytes, `chunks, `live
      ensures Valid() && self in old(live) && live == old(live)[self := n]
      ensures Intact(live, old(bytes), bytes)
    {
      SplitUsed(self, n);
      ghost var b := bytes;
      Retire(self + n);
      ShrinkBooks(old(live), self, n, self + n, old(chunks)[self].size - n, old(bytes), b, bytes);
    }

    /** The in-use chunk `self` and the in-use chunk after it become one. */
    method Fuse(self: int, n0: int, k: int)
      requires Valid() && self in chunks && chunks[self] == Chunk(n0, true)
      requires self + n0 in chunks && chunks[self + n0] == Chunk(k, true)
      modifies `psize, `csize, `bytes, `chunks, `live
      ensures Valid() && self in chunks && chunks[self] == Chunk(n0 + k, true)
      ensures Free(chunks, self + n0 + k) <==> Free(old(chunks), self + n0 + k)
      ensures live == Forget(old(live), self + n0)[self := n0 + k]
      ensures Intact(live, old(bytes), bytes)
    {
      ghost var h := State();
      csize := csize[self := n0 + k + 1];
      psize := psize[self + n0 + k := n0 + k + 1];
      bytes := Erase(Erase(bytes, self, 16), self + n0 + k, 16);
      chunks, live := Joined(chunks, self, self + n0 + k, true), Forget(live, self + n0)[self := n0 + k];
      FuseWrites(h, self, n0, k, State(), old(bytes));
    }

    /** An in-use chunk of `n0` bytes takes over the free chunk of `k` bytes after it. */
    method Absorb(self: int, n0: int, k: int)
      requires Valid() && self in chunks && chunks[self] == Chunk(n0, true)
      requires Free(chunks, self + n0) && chunks[self + n0].size == k
      modifies `psize, `csize, `bins, `binmap, `bytes, `chunks, `live
      ensures Valid() && self in chunks && chunks[self] == Chunk(n0 + k, true) && !Free(chunks, self + n0 + k)
      ensures self in old(live) && old(live)[self] == n0
      ensures live == old(live)[self := n0 + k]
      ensures Intact(old(live), old(bytes), bytes)
    {
      ghost var was := live;
      AbsorbReads(State(), self);
      Unbin(self + n0, BinIndex(k));
      ghost var was1, b1 := live, bytes;
      assert was1 == was[self + n0 := k] && Intact(was1, old(bytes), b1);
      Fuse(self, n0, k);
      ghost var was2 := live;
      assert was2 == Forget(was1, self + n0)[self := n0 + k] && Intact(was2, b1, bytes);
      AbsorbBooks(was, self, self + n0, k, n0 + k, old(bytes), b1, bytes);
    }

    /** `mem_realloc` of a chunk to a larger size, into the free chunk after it. */
    method GrowInPlace(self: int, n: int, n0: int, k: int)
      requires Valid() && self in chunks && chunks[self] == Chunk(n0, true) && Whole(n) && 0 < n && n0 < n <= n0 + k
      requires Free(chunks, self + n0) && chunks[self + n0].size == k
      modifies `psize, `csize, `bins, `binmap, `bytes, `chunks, `live
      ensures Valid() && self in old(live) && live == old(live)[self := n]
      ensures Intact(old(live), old(bytes), bytes)
    {
      Absorb(self, n0, k);
      ghost var b := bytes;
      Trim(self, n);
      GrowBooks(old(live), self, n, n0 + k, old(bytes), b, bytes);
    }

    /** What `mem_realloc` promises: the block of at least `n` bytes that it returns holds
        the first `len` bytes of the old one, and every other block is untouched. */
    twostate predicate Reallocated(c: int, r: Outcome, n: int, len: int)
      reads this
    {
      && Valid()
      && (!r.Block? ==> State() == old(State()) && bytes == old(bytes) && end == old(end) && step == old(step))
      && (r.Block? ==>
            && Resized(old(live), live, c, r.p - OVERHEAD, n)
            && Intact(Forget(old(live), c), old(bytes), bytes)
            && Kept(old(bytes), bytes, c + OVERHEAD, r.p, len))
    }

    /** The chunk at `c` has `n` bytes now and has not moved. */
    twostate predicate KeptAt(c: int, n: int, r: Outcome)
      reads this
    {
      r == Block(c + OVERHEAD) && live == old(live)[c := n] && mapped == old(mapped) && ends == old(ends)
    }

    /** What becomes of a chunk of the heap proper: it stays if it can, and otherwise moves
        unless there is no memory or the bin table is overrun. */
    twostate predicate ChunkOutcome(c: int, n: nat, sys: int -> Option<int>, r: Outcome)
      requires c in old(chunks) && n >= SIZE_ALIGN
      reads this
    {
      if StaysPut(old(chunks), old(binmap), c, n) then KeptAt(c, n, r)
      else
        && r != Block(c + OVERHEAD)
        && (r.Null? <==> !r.Stray? && Refuses(old(chunks), old(step), sys, n - OVERHEAD))
    }

    /** What becomes of a large allocation. */
    twostate predicate LargeOutcome(c: int, n: nat, sys: int -> Option<int>, again: int -> Option<int>, r: Outcome)
      requires c in old(mapped) && c in old(live) && n >= SIZE_ALIGN
      reads this
    {
      && old(mapped)[c].base <= c
      && (r.Null? <==> !(n <= old(live)[c] <= n + DONTCARE) &&
                       LargeRefused(old(mapped)[c], c, n, Refuses(old(chunks), old(step), sys, n - OVERHEAD),
                                    Refuses(old(chunks), old(step), again, n - OVERHEAD)))
    }

    /** The copying end of `mem_realloc`. */
    method ReallocCopy(c: int, n: nat, len: nat, sys: int -> Option<int>) returns (r: Outcome)
      requires Valid() && Honest(State(), sys) && c in live
      requires OVERHEAD <= n && len <= live[c] - OVERHEAD && len <= n - OVERHEAD
      modifies this
      ensures Reallocated(c, r, n - OVERHEAD, len) && !r.Stray? && r != Block(c + OVERHEAD)
      ensures r.Null? <==> Refuses(old(chunks), old(step), sys, n - OVERHEAD)
    {
      var d := MoveTo(c, n, len, sys);
      return if d.Some? then Block(d.value + OVERHEAD) else Null;
    }

    /** `mem_realloc` of a chunk of the heap proper; `n` is the adjusted size. */
    method ReallocChunk(self: int, n: nat, sys: int -> Option<int>) returns (r: Outcome)
      requires Valid() && Honest(State(), sys) && self in chunks && chunks[self].used
      requires Whole(n) && SIZE_ALIGN <= n && chunks[self].size != n
      modifies this
      ensures self in old(live)
      ensures Reallocated(self, r, n - OVERHEAD, Min(old(live)[self], n) - OVERHEAD)
      ensures r.Stray? <==> n < old(chunks)[self].size && n > 8193 * SIZE_ALIGN
      ensures ChunkOutcome(self, n, sys, r)
    {
      ghost var h := State();
      ChunkReads(h, self);
      SizeReads(h, self);
      BinIndexUpBound(n);
      var n0 := SizeOf(csize[self]);
      var next := self + n0;
      assert psize[next] == csize[self];
      if n < n0 {
        if !BinIndexUpDefined(n) {
          return Stray;
        }
        var i, j := BinIndexUp(n), BinIndex(n0);
        if i < j && i in binmap {
          r := ReallocCopy(self, n, n - OVERHEAD, sys);
          return;
        }
        ShrinkInPlace(self, n);
        ShrunkBooks(old(live), self, n, old(bytes), bytes);
        return Block(self + OVERHEAD);
      }
      BoundaryReads(h, next);
      var size := if InUse(csize[next]) then 0 else SizeOf(csize[next]);
      if n0 + size >= n {
        GrowInPlace(self, n, n0, size);
        GrownBooks(old(live), self, n, old(bytes), bytes);
        return Block(self + OVERHEAD);
      }
      r := ReallocCopy(self, n, n0 - OVERHEAD, sys);
    }

    /** `mem_realloc` of a large allocation. When the first attempt at a small block fails,
        the kernel is asked again. */
    method ReallocLarge(self: int, n: nat, sys: int -> Option<int>, again: int -> Option<int>) returns (r: Outcome)
      requires Valid() && Honest(State(), sys) && Honest(State(), again) && self in mapped && SIZE_ALIGN <= n
      modifies this
      ensures self in old(live) && !r.Stray?
      ensures Reallocated(self, r, n - OVERHEAD, Min(old(live)[self], n) - OVERHEAD)
      ensures old(mapped)[self].base <= self
      ensures r.Null? <==> LargeRefused(old(mapped)[self], self, n, Refuses(old(chunks), old(step), sys, n - OVERHEAD),
                                        Refuses(old(chunks), old(step), again, n - OVERHEAD))
    {
      ghost var h := State();
      RegionReads(h, self);
      var n0, extra := SizeOf(csize[self]), psize[self];
      assert !InUse(extra);
      var oldlen, newlen := n0 + extra, n + extra;
      if newlen < PAGE_SIZE {
        r := ReallocCopy(self, n, n - OVERHEAD, sys);
        if r.Block? {
          return;
        }
      }
      AlignUpFacts(newlen, PAGE_SIZE);
      newlen := AlignUp(newlen, PAGE_SIZE);
      if oldlen == newlen {
        SameBooks(old(live), self, n - OVERHEAD, Min(n0, n) - OVERHEAD, old(bytes));
        return Block(self + OVERHEAD);
      }
      r := ReallocCopy(self, n, Min(n0, n) - OVERHEAD, again);
    }

    /** `mem_realloc`. The first bytes survive on every path; the one fault left is a shrink
        of a chunk to more than 8193 alignment units, for which the bin table is too short. */
    method Realloc(p: Option<int>, n: nat, sys: int -> Option<int>, again: int -> Option<int>) returns (r: Outcome)
      requires Valid() && Honest(State(), sys) && Honest(State(), again)
      requires p.Some? ==> p.value - OVERHEAD in live
      modifies this
      ensures p.None? ==> Valid() && Intact(old(live), old(bytes), bytes) && !r.Stray?
      ensures p.None? && r.Block? ==> Granted(old(live), live, r.p, n)
      ensures p.None? && r.Null? ==> State() == old(State()) && bytes == old(bytes)
      ensures p.None? ==> (r.Null? <==> Refuses(old(chunks), old(step), sys, n))
      ensures p.Some? && AdjustSize(n).None? ==> r.Null?
      ensures p.Some? && AdjustSize(n).Some? && p.value - OVERHEAD in old(chunks) ==>
                ChunkOutcome(p.value - OVERHEAD, AdjustSize(n).value, sys, r)
      ensures p.Some? && AdjustSize(n).Some? && p.value - OVERHEAD in old(mapped) ==>
                LargeOutcome(p.value - OVERHEAD, AdjustSize(n).value, sys, again, r)
      ensures p.Some? ==> Reallocated(p.value - OVERHEAD, r, n, Min(old(live)[p.value - OVERHEAD] - OVERHEAD, n))
      ensures r.Stray? <==> p.Some? && AdjustSize(n).Some? && p.value - OVERHEAD in old(chunks) &&
                            8193 * SIZE_ALIGN < AdjustSize(n).value < old(chunks)[p.value - OVERHEAD].size
    {
      if p.None? {
        var q := Alloc(n, sys);
        return if q.Some? then Block(q.value) else Null;
      }
      r := ReallocSome(p.value - OVERHEAD, n, sys, again);
    }

    /** `mem_realloc` of a block. */
    method ReallocSome(c: int, n: nat, sys: int -> Option<int>, again: int -> Option<int>) returns (r: Outcome)
      requires Valid() && Honest(State(), sys) && Honest(State(), again) && c in live
      modifies this
      ensures Reallocated(c, r, n, Min(old(live)[c] - OVERHEAD, n))
      ensures AdjustSize(n).None? ==> r.Null?
      ensures AdjustSize(n).Some? && c in old(chunks) ==> ChunkOutcome(c, AdjustSize(n).value, sys, r)
      ensures AdjustSize(n).Some? && c in old(mapped) ==> LargeOutcome(c, AdjustSize(n).value, sys, again, r)
      ensures r.Stray? <==> AdjustSize(n).Some? && c in old(chunks) &&
                            8193 * SIZE_ALIGN < AdjustSize(n).value < old(chunks)[c].size
    {
      var size := AdjustSize(n);
      if size.None? {
        return Null;
      }
      AdjustSizeFits(n);
      r := ReallocTo(c, size.value, sys, again);
      if r.Block? { Loosen(old(live), live, old(bytes), bytes, c, r.p - OVERHEAD, size.value, n); }
    }

    /** `mem_realloc` of the block at `self` to the adjusted size `n`. */
    method ReallocTo(self: int, n: nat, sys: int -> Option<int>, again: int -> Option<int>) returns (r: Outcome)
      requires Valid() && Honest(State(), sys) && Honest(State(), again) && self in live && Whole(n) && n >= SIZE_ALIGN
      modifies this
      ensures Reallocated(self, r, n - OVERHEAD, Min(old(live)[self], n) - OVERHEAD)
      ensures self in old(chunks) ==> ChunkOutcome(self, n, sys, r)
      ensures self in old(mapped) ==> LargeOutcome(self, n, sys, again, r)
      ensures r.Stray? <==> self in old(chunks) && 8193 * SIZE_ALIGN < n < old(chunks)[self].size
    {
      ghost var h := State();
      LiveReads(h, self);
      if self in mapped { RegionReads(h, self); } else { ChunkReads(h, self); SizeReads(h, self); }
      var n0 := SizeOf(csize[self]);
      if n <= n0 && n0 - n <= DONTCARE {
        SameBooks(old(live), self, n - OVERHEAD, n - OVERHEAD, old(bytes));
        if self in chunks {
          WholeNear(n, n0);
          SameSize(h, self, binmap);
        }
        return Block(self + OVERHEAD);
      }
      if !InUse(csize[self]) {
        r := ReallocLarge(self, n, sys, again);
      } else {
        r := ReallocChunk(self, n, sys);
      }
    }

    /** The aligned part of a large allocation takes over its region. */
    method Realign(c: int, k: int)
      requires Valid() && c in mapped && c in live && k > 0 && Whole(k) && k + 16 <= live[c]
      modifies `psize, `csize, `bytes, `mapped, `live
      ensures Valid() && c in old(live) && c + k !in old(live)
      ensures live == Forget(old(live), c)[c + k := old(live)[c] - k]
      ensures Intact(live, old(bytes), bytes)
    {
      ghost var h := State();
      RegionReads(h, c);
      var extra, size := psize[c], csize[c];
      psize := psize[c + k := extra + k];
      csize := csize[c + k := size - k];
      bytes := Erase(bytes, c + k, 16);
      mapped := (map j | j in mapped && j != c :: mapped[j])[c + k := mapped[c]];
      live := Forget(live, c)[c + k := live[c] - k];
      RealignWrites(h, c, k, State(), old(bytes));
    }

    /** The front of a block just allocated, up to the aligned address, is given back. */
    method Carve(c: int, k: int, ghost was: map<int, int>, ghost b: map<int, int>)
      requires Valid() && c in live && c !in was && live == was[c := live[c]]
      requires k > 0 && Whole(k) && k + 16 <= live[c] && Intact(was, b, bytes)
      modifies this
      ensures Valid() && c + k !in was && c in old(live)
      ensures live == was[c + k := old(live)[c] - k]
      ensures Intact(was, b, bytes)
    {
      ghost var h, s, b1 := State(), live[c], bytes;
      LiveReads(h, c);
      if c in mapped { RegionReads(h, c); } else { ChunkReads(h, c); }
      if !InUse(csize[c]) {
        Realign(c, k);
        AlignedBooks(was, c, s, c + k, k, b, b1, bytes);
      } else {
        DropFront(c, k);
        AlignedBooks(was, c, s, c + k, k, b, b1, bytes);
      }
    }

    /** A chunk in two, the first part freed. */
    method DropFront(c: int, k: int)
      requires Valid() && Cuttable(chunks, c, k)
      modifies `psize, `csize, `bins, `binmap, `bytes, `chunks, `live
      ensures Valid() && c in old(live) && c + k !in old(live)
      ensures live == Forget(old(live), c)[c + k := old(chunks)[c].size - k]
      ensures Intact(live, old(bytes), bytes)
    {
      SplitUsed(c, k);
      ghost var b := bytes;
      Retire(c);
      FrontBooks(old(live), c, k, c + k, old(chunks)[c].size - k, old(bytes), b, bytes);
    }

    /** `(mem + align - 1) & -align`. */
    method AlignedStart(mem: nat, align: nat) returns (start: nat)
      requires OneBit(align) && align > SIZE_ALIGN && mem % SIZE_ALIGN == 0
      ensures start % align == 0 && mem <= start < mem + align
      ensures start % SIZE_ALIGN == 0 && Whole(start - mem)
    {
      start := AlignUp(mem, align);
      AlignedFacts(mem, align);
    }

    /** `mem_alloc_aligned`: the block starts at a multiple of `align`. */
    method AllocAligned(len: nat, align: nat, sys: int -> Option<int>) returns (p: Option<int>)
      requires Valid() && Honest(State(), sys)
      modifies this
      ensures Valid() && Intact(old(live), old(bytes), bytes)
      ensures p.Some? ==> OneBit(align) && len + align <= SIZE_MAX && (align > 0 ==> p.value % align == 0)
      ensures p.Some? ==> Granted(old(live), live, p.value, len)
      ensures p.None? ==> State() == old(State()) && bytes == old(bytes)
      ensures p.None? <==> !OneBit(align) || len + align > SIZE_MAX ||
                           Refuses(old(chunks), old(step), sys, if align <= SIZE_ALIGN then len else len + align - 1)
    {
      if !OneBit(align) || len > SIZE_MAX - align {
        return None;
      }
      if align <= SIZE_ALIGN {
        p := Alloc(len, sys);
        if p.Some? && align > 0 { OneBitSmall(align, p.value); }
        return;
      }
      p := AllocOver(len, align, sys);
    }

    /** The same above the natural alignment: a larger block, its front given back. */
    method AllocOver(len: nat, align: nat, sys: int -> Option<int>) returns (p: Option<int>)
      requires Valid() && Honest(State(), sys) && OneBit(align) && align > SIZE_ALIGN
      modifies this
      ensures Valid() && Intact(old(live), old(bytes), bytes)
      ensures p.Some? ==> p.value % align == 0 && Granted(old(live), live, p.value, len)
      ensures p.None? ==> State() == old(State()) && bytes == old(bytes)
      ensures p.None? <==> Refuses(old(chunks), old(step), sys, len + align - 1)
    {
      var mem := Alloc(len + align - 1, sys);
      if mem.None? {
        return None;
      }
      PositiveBlock(State(), mem.value - OVERHEAD);
      var start := AlignedStart(mem.value, align);
      if start == mem.value {
        return mem;
      }
      Carve(mem.value - OVERHEAD, start - mem.value, old(live), old(bytes));
      return Some(start);
    }

    // ---- Zeroed blocks ----

    /** Memory that a fresh block finds at [p, p + |found|). */
    method Settle(p: int, found: seq<int>)
      modifies `bytes
      ensures forall x :: p <= x < p + |found| ==> x in bytes
      ensures forall x :: !(p <= x < p + |found|) && x in old(bytes) ==> x in bytes && bytes[x] == old(bytes)[x]
    {
      var k := 0;
      while k < |found|
        invariant k <= |found|
        invariant forall x :: p <= x < p + k ==> x in bytes
        invariant forall x :: !(p <= x < p + k) && x in old(bytes) ==> x in bytes && bytes[x] == old(bytes)[x]
      {
        bytes := bytes[p + k := found[k]];
        k := k + 1;
      }
    }

    /** `memset(lo, 0, len)`. */
    method Memset(lo: int, len: nat)
      modifies `bytes
      ensures forall x :: lo <= x < lo + len ==> x in bytes && bytes[x] == 0
      ensures forall x :: !(lo <= x < lo + len) && x in old(bytes) ==> x in bytes && bytes[x] == old(bytes)[x]
    {
      var k := 0;
      while k < len
        invariant k <= len
        invariant forall x :: lo <= x < lo + k ==> x in bytes && bytes[x] == 0
        invariant forall x :: !(lo <= x < lo + k) && x in old(bytes) ==> x in bytes && bytes[x] == old(bytes)[x]
      {
        bytes := bytes[lo + k := 0];
        k := k + 1;
      }
    }

    /** The scan of `mal0_clear` down one page, sixteen bytes at a time, as far as they are
        zero: `i` bytes of the page are left when it stops. */
    method ScanPage(top: int) returns (pp: int, i: int)
      requires forall x :: top - PAGE_SIZE <= x < top ==> x in bytes
      ensures 0 <= i <= PAGE_SIZE && pp - i == top - PAGE_SIZE
      ensures forall x :: pp <= x < top ==> x in bytes && bytes[x] == 0
    {
      pp, i := top, PAGE_SIZE;
      while i > 0
        invariant 0 <= i <= PAGE_SIZE && i % 16 == 0 && pp - i == top - PAGE_SIZE
        invariant forall x :: pp <= x < top ==> x in bytes && bytes[x] == 0
      {
        if exists x :: pp - 16 <= x < pp && bytes[x] != 0 {
          break;
        }
        i, pp := i - 16, pp - 16;
      }
    }

    /** `mal0_clear`: from the end of the block downwards, pages found to be zero are not
        written; the rest is cleared. What is left to clear is the first `k` bytes. */
    method Mal0Clear(p: nat, n: nat) returns (k: nat)
      requires forall x :: p <= x < p + n ==> x in bytes
      modifies `bytes
      ensures k <= n && forall x :: p + k <= x < p + n ==> x in bytes && bytes[x] == 0
      ensures forall x :: !(p <= x < p + n) && x in old(bytes) ==> x in bytes && bytes[x] == old(bytes)[x]
      ensures forall x :: p <= x < p + n ==> x in bytes
    {
      if n < PAGE_SIZE {
        return n;
      }
      var pp: int := p + n;
      var i := pp % PAGE_SIZE;
      while true
        invariant 0 <= i <= PAGE_SIZE && p <= pp - i && pp <= p + n
        invariant forall x :: pp <= x < p + n ==> x in bytes && bytes[x] == 0
        invariant forall x :: !(p <= x < p + n) && x in old(bytes) ==> x in bytes && bytes[x] == old(bytes)[x]
        invariant forall x :: p <= x < p + n ==> x in bytes
        decreases pp - i - p
      {
        Memset(pp - i, i);
        pp := pp - i;
        if pp - p < PAGE_SIZE {
          return pp - p;
        }
        pp, i := ScanPage(pp);
      }
    }

    /** `mem_calloc`: the block is zero whatever its memory held before. */
    method Calloc(m: nat, n: nat, sys: int -> Option<int>, found: seq<int>) returns (p: Option<int>)
      requires Valid() && Honest(State(), sys) && |found| == m * n
      modifies this
      ensures Valid() && Intact(old(live), old(bytes), bytes)
      ensures p.Some? ==> m * n <= SIZE_MAX && Granted(old(live), live, p.value, m * n)
      ensures p.Some? ==> forall x :: p.value <= x < p.value + m * n ==> x in bytes && bytes[x] == 0
      ensures p.None? ==> State() == old(State()) && bytes == old(bytes)
      ensures p.None? <==> m * n > SIZE_MAX || Refuses(old(chunks), old(step), sys, m * n)
    {
      if n != 0 { ProductBound(m, n, SIZE_MAX); }
      if n != 0 && m > SIZE_MAX / n {
        return None;
      }
      p := Alloc(m * n, sys);
      if p.None? {
        return;
      }
      ghost var d, b := p.value - OVERHEAD, bytes;
      NewBlockApart(State(), old(live), d);
      PositiveBlock(State(), d);
      ZeroFill(p.value, found);
      InsideBlock(old(live), d, m * n, old(bytes), b, bytes, live[d]);
    }

    method ZeroFill(p: nat, found: seq<int>)
      modifies `bytes
      ensures forall x :: p <= x < p + |found| ==> x in bytes && bytes[x] == 0
      ensures forall x :: !(p <= x < p + |found|) && x in old(bytes) ==> x in bytes && bytes[x] == old(bytes)[x]
    {
      Settle(p, found);
      var k := Mal0Clear(p, |found|);
      Memset(p, k);
    }
  }
}
