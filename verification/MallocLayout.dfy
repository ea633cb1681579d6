/** How the runtime heap lays chunks out in memory (src/runtime/alloc/malloc.c): chunks
    tile each segment from its first chunk to a zero-sized sentinel, and every chunk's
    size and in-use bit is written twice, in its own header and in the next one. */
module MallocLayout {
  import opened MallocSizes

  datatype Chunk = Chunk(size: int, used: bool)

  /** Chunks by address. */
  type Chunks = map<int, Chunk>

  /** Segments: the address of a sentinel, and of the first chunk of its segment. */
  type Segments = map<int, int>

  /** A region of its own, obtained for one large allocation. */
  datatype Region = Region(base: int, len: int)

  /** One header word of each chunk. */
  type Words = map<int, int>

  /** A header word: `size | C_INUSE`. */
  function Enc(k: Chunk): int { if k.used then k.size + 1 else k.size }

  predicate OnGrid(c: int) { c % 32 == 16 }
  predicate Whole(n: int) { n % 32 == 0 }

  predicate Boundary(L: Chunks, ends: Segments, x: int) { x in L || x in ends }

  /** A chunk, or the sentinel, starts where chunk `c` ends. */
  predicate Followed(L: Chunks, ends: Segments, c: int) { c in L && Boundary(L, ends, c + L[c].size) }

  predicate Placed(L: Chunks, c: int) { c in L && OnGrid(c) && Whole(L[c].size) }

  /** Chunks and sentinels do not overlap. */
  ghost predicate Ordered(L: Chunks, ends: Segments) {
    && (forall c, d :: c in L && d in L && c < d ==> c + L[c].size <= d)
    && (forall c, e :: c in L && e in ends && c <= e ==> c + L[c].size <= e)
  }

  ghost predicate Shape(L: Chunks, ends: Segments) {
    && (forall c :: c in L ==> L[c].size > 0)
    && (forall c {:trigger Placed(L, c)} :: c in L ==> Placed(L, c))
    && (forall e {:trigger OnGrid(e)} :: e in ends ==> OnGrid(e))
    && (forall c {:trigger Followed(L, ends, c)} :: c in L ==> Followed(L, ends, c))
    && Ordered(L, ends)
  }

  ghost predicate Within(ends: Segments, c: int) { exists e :: e in ends && ends[e] <= c < e }

  ghost predicate Spaced(ends: Segments) {
    forall e, f :: e in ends && f in ends && f < e ==> f + 32 <= ends[e]
  }

  ghost predicate Segmented(L: Chunks, ends: Segments) {
    && (forall e :: e in ends ==> ends[e] in L && 0 < ends[e] < e)
    && Spaced(ends)
    && (forall c {:trigger Within(ends, c)} :: c in L ==> Within(ends, c))
  }

  /** The chunk that ends at `x` is free and `k` bytes long. */
  predicate PredFree(L: Chunks, x: int, k: int) { x - k in L && L[x - k] == Chunk(k, false) }

  /** The in-use bit of a header word. */
  predicate InUse(w: int) { w % 2 == 1 }

  predicate HeaderOk(L: Chunks, cs: Words, c: int) { c in L && c in cs && cs[c] == Enc(L[c]) }

  predicate FooterOk(L: Chunks, ps: Words, c: int) {
    c in L && c + L[c].size in ps && ps[c + L[c].size] == Enc(L[c])
  }

  predicate BackOk(L: Chunks, ps: Words, x: int) {
    x in ps && (InUse(ps[x]) || PredFree(L, x, ps[x]))
  }

  /** Every chunk's header and footer say what it is, a sentinel is an in-use chunk of
      size zero, and a back link whose in-use bit is clear leads to a free chunk. */
  ghost predicate Headers(L: Chunks, ends: Segments, ps: Words, cs: Words) {
    && (forall c {:trigger HeaderOk(L, cs, c)} :: c in L ==> HeaderOk(L, cs, c))
    && (forall c {:trigger FooterOk(L, ps, c)} :: c in L ==> FooterOk(L, ps, c))
    && (forall e :: e in ends ==> e in cs && cs[e] == 1)
    && (forall x {:trigger BackOk(L, ps, x)} :: Boundary(L, ends, x) ==> BackOk(L, ps, x))
  }

  predicate Free(L: Chunks, c: int) { c in L && !L[c].used }

  predicate FreePair(L: Chunks, c: int) { Free(L, c) && Free(L, c + L[c].size) }

  /** No two neighbours are both free. */
  ghost predicate Coalesced(L: Chunks) { forall c :: !FreePair(L, c) }

  // ---- Tiling of a segment ----

  predicate Tiles(L: Chunks, c: int, e: int)
    decreases e - c
  {
    c == e || (c < e && c in L && L[c].size > 0 && Tiles(L, c + L[c].size, e))
  }

  /** Walking from the first chunk of a segment by sizes reaches its sentinel exactly. */
  lemma {:induction false} SegmentTiles(L: Chunks, ends: Segments, c: int, e: int)
    requires Shape(L, ends) && Segmented(L, ends)
    requires e in ends && c in L && ends[e] <= c < e
    ensures Tiles(L, c, e)
    decreases e - c
  {
    var d := c + L[c].size;
    assert Followed(L, ends, c);
    assert d <= e;
    if d < e {
      assert d !in ends;
      SegmentTiles(L, ends, d, e);
    }
  }

  // ---- Joining and splitting ----

  /** One chunk in place of all those in [lo, hi). With a single chunk there this sets
      its in-use bit. */
  function Joined(L: Chunks, lo: int, hi: int, used: bool): Chunks {
    (map c | c in L && !(lo <= c < hi) :: L[c])[lo := Chunk(hi - lo, used)]
  }

  /** An in-use chunk cut to its first `n` bytes, the rest a chunk of its own. */
  function Cut(L: Chunks, c: int, n: int, used: bool): Chunks
    requires c in L
  {
    L[c := Chunk(n, true)][c + n := Chunk(L[c].size - n, used)]
  }

  /** [lo, hi) is made of whole chunks. */
  ghost predicate Range(L: Chunks, ends: Segments, lo: int, hi: int) {
    && lo in L && Boundary(L, ends, hi) && lo < hi
    && (forall e :: e in ends ==> e < lo || hi <= e)
  }

  ghost predicate Cuttable(L: Chunks, c: int, n: int) {
    c in L && L[c].used && 0 < n < L[c].size && Whole(n)
  }

  lemma EncBit(k: Chunk)
    requires Whole(k.size)
    ensures InUse(Enc(k)) == k.used
  {
    var q := k.size / 32;
    assert k.size == 32 * q;
    OddOrEven(Enc(k), 16 * q, if k.used then 1 else 0);
  }

  lemma OddOrEven(x: int, q: int, r: int)
    requires x == 2 * q + r && (r == 0 || r == 1)
    ensures x % 2 == r
  {
  }

  lemma WholeDiff(a: int, b: int)
    requires Whole(a) && Whole(b)
    ensures Whole(a - b)
  {
    var i, j := a / 32, b / 32;
    assert a - b == 32 * (i - j);
  }

  lemma GridMoved(c: int, n: int)
    requires OnGrid(c) && Whole(n)
    ensures OnGrid(c + n)
  {
    var i, j := c / 32, n / 32;
    assert c + n == 32 * (i + j) + 16;
  }

  lemma GridSteps(lo: int, hi: int)
    requires OnGrid(lo) && OnGrid(hi)
    ensures Whole(hi - lo)
  {
    var i, j := lo / 32, hi / 32;
    assert hi - lo == 32 * (j - i);
  }

  lemma BoundaryOnGrid(L: Chunks, ends: Segments, x: int)
    requires Shape(L, ends) && Boundary(L, ends, x)
    ensures OnGrid(x)
  {
    if x in L { assert Placed(L, x); }
  }

  lemma JoinedPlaced(L: Chunks, ends: Segments, lo: int, hi: int, used: bool, c: int)
    requires Shape(L, ends) && Range(L, ends, lo, hi) && c in Joined(L, lo, hi, used)
    ensures Placed(Joined(L, lo, hi, used), c)
  {
    BoundaryOnGrid(L, ends, lo);
    BoundaryOnGrid(L, ends, hi);
    GridSteps(lo, hi);
    if c != lo { assert Placed(L, c); }
  }

  lemma JoinedShape(L: Chunks, ends: Segments, lo: int, hi: int, used: bool)
    requires Shape(L, ends) && Range(L, ends, lo, hi)
    ensures Shape(Joined(L, lo, hi, used), ends)
  {
    var M := Joined(L, lo, hi, used);
    forall c | c in M ensures Placed(M, c) {
      JoinedPlaced(L, ends, lo, hi, used, c);
    }
    forall c | c in M ensures Followed(M, ends, c) {
      JoinedFollowed(L, ends, lo, hi, used, c);
    }
    forall c, d | c in M && d in M && c < d ensures c + M[c].size <= d {
      if c == lo { assert d >= hi; }
    }
  }

  lemma JoinedFollowed(L: Chunks, ends: Segments, lo: int, hi: int, used: bool, c: int)
    requires Shape(L, ends) && Range(L, ends, lo, hi) && c in Joined(L, lo, hi, used)
    ensures Followed(Joined(L, lo, hi, used), ends, c)
  {
    if c in L { assert Followed(L, ends, c); }
    if c != lo && c < lo { assert c + L[c].size <= lo; }
  }

  lemma JoinedSegmented(L: Chunks, ends: Segments, lo: int, hi: int, used: bool)
    requires Shape(L, ends) && Segmented(L, ends) && Range(L, ends, lo, hi)
    ensures Segmented(Joined(L, lo, hi, used), ends)
  {
    var M := Joined(L, lo, hi, used);
    forall e | e in ends ensures ends[e] in M && 0 < ends[e] < e {
      if lo < ends[e] < hi {
        assert Within(ends, lo);
        var f :| f in ends && ends[f] <= lo < f;
        assert false;
      }
    }
  }

  lemma JoinedFooter(L: Chunks, ends: Segments, ps: Words, cs: Words, lo: int, hi: int, used: bool, c: int)
    requires Shape(L, ends) && Headers(L, ends, ps, cs) && Range(L, ends, lo, hi)
    requires c in Joined(L, lo, hi, used)
    ensures HeaderOk(Joined(L, lo, hi, used), cs[lo := Enc(Chunk(hi - lo, used))], c)
    ensures FooterOk(Joined(L, lo, hi, used), ps[hi := Enc(Chunk(hi - lo, used))], c)
  {
    if c != lo {
      assert HeaderOk(L, cs, c) && FooterOk(L, ps, c);
      if c < lo { assert c + L[c].size <= lo; }
    }
  }

  /** A chunk that ends at another remaining boundary is not in the range. */
  lemma JoinedApart(L: Chunks, ends: Segments, lo: int, hi: int, used: bool, p: int, x: int)
    requires Shape(L, ends) && Range(L, ends, lo, hi)
    requires Boundary(Joined(L, lo, hi, used), ends, x) && x != hi
    requires p in L && p + L[p].size == x
    ensures p in Joined(L, lo, hi, used) && Joined(L, lo, hi, used)[p] == L[p]
  {
    if lo <= p < hi {
      assert false;
    }
  }

  lemma JoinedBack(L: Chunks, ends: Segments, ps: Words, cs: Words, lo: int, hi: int, used: bool, x: int)
    requires Shape(L, ends) && Headers(L, ends, ps, cs) && Range(L, ends, lo, hi)
    requires Boundary(Joined(L, lo, hi, used), ends, x)
    ensures BackOk(Joined(L, lo, hi, used), ps[hi := Enc(Chunk(hi - lo, used))], x)
  {
    if x == hi {
      BoundaryOnGrid(L, ends, lo);
      BoundaryOnGrid(L, ends, hi);
      GridSteps(lo, hi);
      EncBit(Chunk(hi - lo, used));
    } else {
      assert BackOk(L, ps, x);
      if !InUse(ps[x]) {
        JoinedApart(L, ends, lo, hi, used, x - ps[x], x);
      }
    }
  }

  lemma JoinedHeaders(L: Chunks, ends: Segments, ps: Words, cs: Words, lo: int, hi: int, used: bool)
    requires Shape(L, ends) && Headers(L, ends, ps, cs) && Range(L, ends, lo, hi)
    ensures Headers(Joined(L, lo, hi, used), ends, ps[hi := Enc(Chunk(hi - lo, used))],
                    cs[lo := Enc(Chunk(hi - lo, used))])
  {
    var M := Joined(L, lo, hi, used);
    var w := Enc(Chunk(hi - lo, used));
    forall c | c in M ensures HeaderOk(M, cs[lo := w], c) && FooterOk(M, ps[hi := w], c) {
      JoinedFooter(L, ends, ps, cs, lo, hi, used, c);
    }
    forall x | Boundary(M, ends, x) ensures BackOk(M, ps[hi := w], x) {
      JoinedBack(L, ends, ps, cs, lo, hi, used, x);
    }
  }

  lemma JoinedCoalesced(L: Chunks, ends: Segments, lo: int, hi: int, used: bool)
    requires Shape(L, ends) && Range(L, ends, lo, hi) && Coalesced(L)
    requires used || !Free(L, hi)
    requires used || forall c :: Free(L, c) ==> c + L[c].size != lo
    ensures Coalesced(Joined(L, lo, hi, used))
  {
    var M := Joined(L, lo, hi, used);
    forall c | Free(M, c) ensures !FreePair(M, c) {
      if c != lo {
        assert Free(L, c) && !FreePair(L, c);
        var d := c + L[c].size;
        if d == lo { assert used; }
      }
    }
  }

  lemma CutApart(L: Chunks, ends: Segments, c: int, n: int, used: bool, x: int, y: int)
    requires Shape(L, ends) && Cuttable(L, c, n)
    requires x in Cut(L, c, n, used) && y in Cut(L, c, n, used) && x < y
    ensures x + Cut(L, c, n, used)[x].size <= y
  {
    if x in L && y in L { assert x + L[x].size <= y; }
    else if x in L && x < c { assert x + L[x].size <= c; }
    else if y in L { assert c < y; assert c + L[c].size <= y; }
  }

  lemma CutPlaced(L: Chunks, ends: Segments, c: int, n: int, used: bool, x: int)
    requires Shape(L, ends) && Cuttable(L, c, n) && x in Cut(L, c, n, used)
    ensures Placed(Cut(L, c, n, used), x)
  {
    assert Placed(L, c);
    if x != c && x != c + n { assert Placed(L, x); }
  }

  lemma CutFollowed(L: Chunks, ends: Segments, c: int, n: int, used: bool, x: int)
    requires Shape(L, ends) && Cuttable(L, c, n) && x in Cut(L, c, n, used)
    ensures Followed(Cut(L, c, n, used), ends, x)
  {
    if x != c && x != c + n { assert Followed(L, ends, x); }
    if x == c + n { assert Followed(L, ends, c); }
  }

  lemma CutShape(L: Chunks, ends: Segments, c: int, n: int, used: bool)
    requires Shape(L, ends) && Cuttable(L, c, n)
    ensures Shape(Cut(L, c, n, used), ends)
  {
    var M := Cut(L, c, n, used);
    forall x | x in M ensures Placed(M, x) {
      CutPlaced(L, ends, c, n, used, x);
    }
    forall x | x in M ensures Followed(M, ends, x) {
      CutFollowed(L, ends, c, n, used, x);
    }
    forall x, y | x in M && y in M && x < y ensures x + M[x].size <= y {
      CutApart(L, ends, c, n, used, x, y);
    }
    forall x, e | x in M && e in ends && x <= e ensures x + M[x].size <= e {
      if x == c || x == c + n { assert c + L[c].size <= e; }
    }
  }

  lemma CutSegmented(L: Chunks, ends: Segments, c: int, n: int, used: bool)
    requires Shape(L, ends) && Segmented(L, ends) && Cuttable(L, c, n)
    ensures Segmented(Cut(L, c, n, used), ends)
  {
    var M := Cut(L, c, n, used);
    forall x | x in M ensures Within(ends, x) {
      if x == c + n {
        assert Within(ends, c);
        var e :| e in ends && ends[e] <= c < e;
        assert c + L[c].size <= e;
      }
    }
  }

  /** The words `Cut` leaves behind. */
  function CutBack(L: Chunks, ps: Words, c: int, n: int, used: bool): Words
    requires c in L
  {
    ps[c + n := n + 1][c + L[c].size := Enc(Chunk(L[c].size - n, used))]
  }

  function CutSizes(L: Chunks, cs: Words, c: int, n: int, used: bool): Words
    requires c in L
  {
    cs[c := n + 1][c + n := Enc(Chunk(L[c].size - n, used))]
  }

  lemma CutFooter(L: Chunks, ends: Segments, ps: Words, cs: Words, c: int, n: int, used: bool, x: int)
    requires Shape(L, ends) && Headers(L, ends, ps, cs) && Cuttable(L, c, n)
    requires x in Cut(L, c, n, used)
    ensures HeaderOk(Cut(L, c, n, used), CutSizes(L, cs, c, n, used), x)
    ensures FooterOk(Cut(L, c, n, used), CutBack(L, ps, c, n, used), x)
  {
    if x != c && x != c + n {
      assert HeaderOk(L, cs, x) && FooterOk(L, ps, x);
      if x < c { assert x + L[x].size <= c; } else { assert c + L[c].size <= x; }
    }
  }

  lemma CutBackOk(L: Chunks, ends: Segments, ps: Words, cs: Words, c: int, n: int, used: bool, x: int)
    requires Shape(L, ends) && Headers(L, ends, ps, cs) && Cuttable(L, c, n)
    requires Boundary(Cut(L, c, n, used), ends, x)
    ensures BackOk(Cut(L, c, n, used), CutBack(L, ps, c, n, used), x)
  {
    assert Placed(L, c);
    if x == c + n {
      EncBit(Chunk(n, true));
    } else if x == c + L[c].size {
      WholeDiff(L[c].size, n);
      EncBit(Chunk(L[c].size - n, used));
    } else {
      assert BackOk(L, ps, x);
    }
  }

  lemma CutHeaders(L: Chunks, ends: Segments, ps: Words, cs: Words, c: int, n: int, used: bool)
    requires Shape(L, ends) && Headers(L, ends, ps, cs) && Cuttable(L, c, n)
    ensures Headers(Cut(L, c, n, used), ends, CutBack(L, ps, c, n, used), CutSizes(L, cs, c, n, used))
  {
    var M, q, z := Cut(L, c, n, used), CutBack(L, ps, c, n, used), CutSizes(L, cs, c, n, used);
    forall x | x in M ensures HeaderOk(M, z, x) && FooterOk(M, q, x) {
      CutFooter(L, ends, ps, cs, c, n, used, x);
    }
    forall x | Boundary(M, ends, x) ensures BackOk(M, q, x) {
      CutBackOk(L, ends, ps, cs, c, n, used, x);
    }
  }

  lemma CutCoalesced(L: Chunks, ends: Segments, c: int, n: int, used: bool)
    requires Shape(L, ends) && Cuttable(L, c, n) && Coalesced(L)
    requires used || !Free(L, c + L[c].size)
    ensures Coalesced(Cut(L, c, n, used))
  {
    var M := Cut(L, c, n, used);
    forall x | Free(M, x) ensures !FreePair(M, x) {
      if x != c + n {
        assert Free(L, x) && !FreePair(L, x) && Followed(L, ends, x);
        var y := x + L[x].size;
        assert y != c + n;
      }
    }
  }

  // ---- New memory ----

  predicate Paged(n: int) { n % PAGE_SIZE == 0 }

  lemma PagedGrid(a: int, len: int)
    requires Paged(a) && Paged(len)
    ensures OnGrid(a + 16) && OnGrid(a + len - 16) && OnGrid(a - 16 + len) && Whole(len) && Whole(len - 32)
  {
    PagedWhole(a);
    PagedWhole(len);
    var i, j := a / 32, len / 32;
    assert a == 32 * i && len == 32 * j;
    assert a + len - 16 == 32 * (i + j - 1) + 16;
    WholeDiff(len, 32);
  }

  lemma PagedWhole(n: int)
    requires Paged(n)
    ensures Whole(n)
  {
    var q := n / PAGE_SIZE;
    assert n == 32 * (128 * q);
  }

  /** [a, a + len) is page aligned and clear of every segment. */
  ghost predicate Clear(ends: Segments, a: int, len: int) {
    && Paged(a) && Paged(len) && 0 < a && PAGE_SIZE <= len
    && forall e :: e in ends ==> e + 16 <= a || a + len <= ends[e] - 16
  }

  lemma ClearOfChunks(L: Chunks, ends: Segments, a: int, len: int, c: int)
    requires Shape(L, ends) && Segmented(L, ends) && Clear(ends, a, len)
    requires c in L
    ensures c + L[c].size + 16 <= a || a + len + 16 <= c
  {
    assert Within(ends, c);
    var e :| e in ends && ends[e] <= c < e;
  }

  lemma ClearOfBoundaries(L: Chunks, ends: Segments, a: int, len: int, x: int)
    requires Shape(L, ends) && Segmented(L, ends) && Clear(ends, a, len)
    requires Boundary(L, ends, x)
    ensures x + 16 <= a || a + len + 16 <= x
  {
    if x in L { ClearOfChunks(L, ends, a, len, x); }
  }

  lemma ClearSpot(L: Chunks, ends: Segments, a: int, len: int, x: int)
    requires Shape(L, ends) && Segmented(L, ends) && Clear(ends, a, len) && a <= x < a + len
    ensures !Boundary(L, ends, x)
  {
    if Boundary(L, ends, x) { ClearOfBoundaries(L, ends, a, len, x); }
  }

  /** A segment of its own: one in-use chunk and a sentinel at the very end. */
  function Opened(L: Chunks, a: int, len: int): Chunks { L[a + 16 := Chunk(len - 32, true)] }
  function OpenedEnds(ends: Segments, a: int, len: int): Segments { ends[a + len - 16 := a + 16] }

  lemma OpenedPlaced(L: Chunks, ends: Segments, a: int, len: int, c: int)
    requires Shape(L, ends) && Clear(ends, a, len) && c in Opened(L, a, len)
    ensures Placed(Opened(L, a, len), c) && Followed(Opened(L, a, len), OpenedEnds(ends, a, len), c)
  {
    PagedGrid(a, len);
    if c != a + 16 { assert Placed(L, c) && Followed(L, ends, c); }
  }

  lemma OpenedShape(L: Chunks, ends: Segments, a: int, len: int)
    requires Shape(L, ends) && Segmented(L, ends) && Clear(ends, a, len)
    ensures Shape(Opened(L, a, len), OpenedEnds(ends, a, len))
  {
    var M, E := Opened(L, a, len), OpenedEnds(ends, a, len);
    PagedGrid(a, len);
    forall c | c in M ensures Placed(M, c) && Followed(M, E, c) {
      OpenedPlaced(L, ends, a, len, c);
    }
    forall c, d | c in M && d in M && c < d ensures c + M[c].size <= d {
      if c != a + 16 { ClearOfChunks(L, ends, a, len, c); }
      if d != a + 16 { ClearOfChunks(L, ends, a, len, d); }
    }
    forall c, e | c in M && e in E && c <= e ensures c + M[c].size <= e {
      if c != a + 16 { ClearOfChunks(L, ends, a, len, c); }
      if e != a + len - 16 { ClearOfBoundaries(L, ends, a, len, e); }
    }
  }

  lemma OpenedWithin(L: Chunks, ends: Segments, a: int, len: int, c: int)
    requires Segmented(L, ends) && Clear(ends, a, len) && c in Opened(L, a, len)
    ensures Within(OpenedEnds(ends, a, len), c)
  {
    var E := OpenedEnds(ends, a, len);
    if c == a + 16 {
      assert E[a + len - 16] == a + 16;
    } else {
      assert Within(ends, c);
      var e :| e in ends && ends[e] <= c < e;
      assert E[e] == ends[e];
    }
  }

  lemma OpenedSpaced(L: Chunks, ends: Segments, a: int, len: int)
    requires Segmented(L, ends) && Clear(ends, a, len)
    ensures Spaced(OpenedEnds(ends, a, len))
  {
    var E := OpenedEnds(ends, a, len);
    assert a + len - 16 !in ends;
    forall e, f | e in E && f in E && f < e ensures f + 32 <= E[e] {
      if e != a + len - 16 && f != a + len - 16 { assert f + 32 <= ends[e]; }
    }
  }

  lemma OpenedSegmented(L: Chunks, ends: Segments, a: int, len: int)
    requires Shape(L, ends) && Segmented(L, ends) && Clear(ends, a, len)
    ensures Segmented(Opened(L, a, len), OpenedEnds(ends, a, len))
  {
    var M, E := Opened(L, a, len), OpenedEnds(ends, a, len);
    forall c | c in M ensures Within(E, c) { OpenedWithin(L, ends, a, len, c); }
    OpenedSpaced(L, ends, a, len);
  }

  lemma OpenedHeaders(L: Chunks, ends: Segments, ps: Words, cs: Words, a: int, len: int)
    requires Shape(L, ends) && Segmented(L, ends) && Headers(L, ends, ps, cs) && Clear(ends, a, len)
    ensures Headers(Opened(L, a, len), OpenedEnds(ends, a, len),
                    ps[a + 16 := 1][a + len - 16 := len - 32 + 1], cs[a + len - 16 := 1][a + 16 := len - 32 + 1])
  {
    var M, E := Opened(L, a, len), OpenedEnds(ends, a, len);
    var q, z := ps[a + 16 := 1][a + len - 16 := len - 32 + 1], cs[a + len - 16 := 1][a + 16 := len - 32 + 1];
    forall c | c in M ensures HeaderOk(M, z, c) && FooterOk(M, q, c) {
      if c != a + 16 {
        assert HeaderOk(L, cs, c) && FooterOk(L, ps, c);
        ClearOfChunks(L, ends, a, len, c);
      }
    }
    forall e | e in E ensures e in z && z[e] == 1 {
      if e != a + len - 16 { ClearOfBoundaries(L, ends, a, len, e); }
    }
    ClearSpot(L, ends, a, len, a + 16);
    ClearSpot(L, ends, a, len, a + len - 16);
    PagedGrid(a, len);
    EncBit(Chunk(len - 32, true));
    assert InUse(1);
    forall x | Boundary(M, E, x) ensures BackOk(M, q, x) {
      if x != a + 16 && x != a + len - 16 { assert BackOk(L, ps, x); }
    }
  }

  /** A segment extended in place: its sentinel becomes an in-use chunk. */
  function Extended(L: Chunks, e: int, len: int): Chunks { L[e := Chunk(len, true)] }
  function ExtendedEnds(ends: Segments, e: int, len: int): Segments
    requires e in ends
  {
    (map f | f in ends && f != e :: ends[f])[e + len := ends[e]]
  }

  lemma ExtendedApart(L: Chunks, ends: Segments, e: int, len: int, c: int, x: int)
    requires Shape(L, ends) && Segmented(L, ends) && e in ends && Clear(ends, e + 16, len)
    requires c in Extended(L, e, len) && x in Extended(L, e, len) && c < x
    ensures c + Extended(L, e, len)[c].size <= x
  {
    if x != e { ClearOfChunks(L, ends, e + 16, len, x); }
  }

  lemma ExtendedPlaced(L: Chunks, ends: Segments, e: int, len: int, c: int)
    requires Shape(L, ends) && e in ends && Clear(ends, e + 16, len) && c in Extended(L, e, len)
    ensures Placed(Extended(L, e, len), c) && Followed(Extended(L, e, len), ExtendedEnds(ends, e, len), c)
  {
    PagedGrid(e + 16, len);
    if c != e { assert Placed(L, c) && Followed(L, ends, c); }
  }

  lemma ExtendedBelow(L: Chunks, ends: Segments, e: int, len: int, c: int, f: int)
    requires Shape(L, ends) && Segmented(L, ends) && e in ends && Clear(ends, e + 16, len)
    requires c in Extended(L, e, len) && f in ExtendedEnds(ends, e, len) && c <= f
    ensures c + Extended(L, e, len)[c].size <= f
  {
    if c == e {
      if f != e + len { ClearOfBoundaries(L, ends, e + 16, len, f); }
    } else if f == e + len {
      ClearOfChunks(L, ends, e + 16, len, c);
    } else {
      assert c + L[c].size <= f;
    }
  }

  lemma ExtendedOrdered(L: Chunks, ends: Segments, e: int, len: int)
    requires Shape(L, ends) && Segmented(L, ends) && e in ends && Clear(ends, e + 16, len)
    ensures Ordered(Extended(L, e, len), ExtendedEnds(ends, e, len))
  {
    var M, E := Extended(L, e, len), ExtendedEnds(ends, e, len);
    forall c, d | c in M && d in M && c < d ensures c + M[c].size <= d {
      ExtendedApart(L, ends, e, len, c, d);
    }
    forall c, f | c in M && f in E && c <= f ensures c + M[c].size <= f {
      ExtendedBelow(L, ends, e, len, c, f);
    }
  }

  lemma ExtendedShape(L: Chunks, ends: Segments, e: int, len: int)
    requires Shape(L, ends) && Segmented(L, ends) && e in ends && Clear(ends, e + 16, len)
    ensures Shape(Extended(L, e, len), ExtendedEnds(ends, e, len))
  {
    var M, E := Extended(L, e, len), ExtendedEnds(ends, e, len);
    forall c | c in M ensures Placed(M, c) && Followed(M, E, c) {
      ExtendedPlaced(L, ends, e, len, c);
    }
    forall f | f in E ensures OnGrid(f) {
      ExtendedEndPlaced(L, ends, e, len, f);
    }
    ExtendedOrdered(L, ends, e, len);
  }

  lemma ExtendedEndPlaced(L: Chunks, ends: Segments, e: int, len: int, f: int)
    requires Shape(L, ends) && e in ends && Clear(ends, e + 16, len) && f in ExtendedEnds(ends, e, len)
    ensures OnGrid(f)
  {
    PagedGrid(e + 16, len);
  }

  lemma ExtendedWithin(L: Chunks, ends: Segments, e: int, len: int, c: int)
    requires Segmented(L, ends) && e in ends && Clear(ends, e + 16, len) && c in Extended(L, e, len)
    ensures Within(ExtendedEnds(ends, e, len), c)
  {
    var E := ExtendedEnds(ends, e, len);
    assert E[e + len] == ends[e];
    if c != e {
      assert Within(ends, c);
      var f :| f in ends && ends[f] <= c < f;
      if f != e && f != e + len { assert E[f] == ends[f]; }
    }
  }

  lemma ExtendedOrder(L: Chunks, ends: Segments, e: int, len: int, g: int, f: int)
    requires Segmented(L, ends) && e in ends && Clear(ends, e + 16, len)
    requires g in ExtendedEnds(ends, e, len) && f in ExtendedEnds(ends, e, len) && f < g
    ensures f + 32 <= ExtendedEnds(ends, e, len)[g]
  {
    if g == e + len {
      assert f < e;
      assert f + 32 <= ends[e];
    } else if f == e + len {
      assert e + 32 <= ends[g];
    } else {
      assert f + 32 <= ends[g];
    }
  }

  lemma ExtendedSpaced(L: Chunks, ends: Segments, e: int, len: int)
    requires Segmented(L, ends) && e in ends && Clear(ends, e + 16, len)
    ensures Spaced(ExtendedEnds(ends, e, len))
  {
    var E := ExtendedEnds(ends, e, len);
    forall g, f | g in E && f in E && f < g ensures f + 32 <= E[g] {
      ExtendedOrder(L, ends, e, len, g, f);
    }
  }

  lemma ExtendedSegmented(L: Chunks, ends: Segments, e: int, len: int)
    requires Shape(L, ends) && Segmented(L, ends) && e in ends && Clear(ends, e + 16, len)
    ensures Segmented(Extended(L, e, len), ExtendedEnds(ends, e, len))
  {
    var M, E := Extended(L, e, len), ExtendedEnds(ends, e, len);
    forall c | c in M ensures Within(E, c) { ExtendedWithin(L, ends, e, len, c); }
    ExtendedSpaced(L, ends, e, len);
  }

  lemma ExtendedHeader(L: Chunks, ends: Segments, ps: Words, cs: Words, e: int, len: int, c: int)
    requires Shape(L, ends) && Segmented(L, ends) && Headers(L, ends, ps, cs)
    requires e in ends && Clear(ends, e + 16, len) && c in Extended(L, e, len)
    ensures HeaderOk(Extended(L, e, len), cs[e + len := 1][e := len + 1], c)
    ensures FooterOk(Extended(L, e, len), ps[e + len := len + 1], c)
  {
    if c != e {
      assert HeaderOk(L, cs, c) && FooterOk(L, ps, c);
      ClearOfChunks(L, ends, e + 16, len, c);
    }
  }

  lemma ExtendedHeaders(L: Chunks, ends: Segments, ps: Words, cs: Words, e: int, len: int)
    requires Shape(L, ends) && Segmented(L, ends) && Headers(L, ends, ps, cs)
    requires e in ends && Clear(ends, e + 16, len)
    ensures Headers(Extended(L, e, len), ExtendedEnds(ends, e, len),
                    ps[e + len := len + 1], cs[e + len := 1][e := len + 1])
  {
    var M, E := Extended(L, e, len), ExtendedEnds(ends, e, len);
    var q, z := ps[e + len := len + 1], cs[e + len := 1][e := len + 1];
    forall c | c in M ensures HeaderOk(M, z, c) && FooterOk(M, q, c) {
      ExtendedHeader(L, ends, ps, cs, e, len, c);
    }
    forall f | f in E ensures f in z && z[f] == 1 {
      ExtendedSentinel(L, ends, ps, cs, e, len, f);
    }
    forall x | Boundary(M, E, x) ensures BackOk(M, q, x) {
      ExtendedBack(L, ends, ps, cs, e, len, x);
    }
  }

  lemma ExtendedSentinel(L: Chunks, ends: Segments, ps: Words, cs: Words, e: int, len: int, f: int)
    requires Shape(L, ends) && Segmented(L, ends) && Headers(L, ends, ps, cs)
    requires e in ends && Clear(ends, e + 16, len) && f in ExtendedEnds(ends, e, len)
    ensures var z := cs[e + len := 1][e := len + 1]; f in z && z[f] == 1
  {
    if f != e + len { ClearOfBoundaries(L, ends, e + 16, len, f); }
  }

  lemma ExtendedBack(L: Chunks, ends: Segments, ps: Words, cs: Words, e: int, len: int, x: int)
    requires Shape(L, ends) && Headers(L, ends, ps, cs) && e in ends && Clear(ends, e + 16, len)
    requires Boundary(Extended(L, e, len), ExtendedEnds(ends, e, len), x)
    ensures BackOk(Extended(L, e, len), ps[e + len := len + 1], x)
  {
    if x == e + len {
      PagedGrid(e + 16, len);
      EncBit(Chunk(len, true));
    } else {
      assert Boundary(L, ends, x) && BackOk(L, ps, x);
      if !InUse(ps[x]) { assert x - ps[x] in L; }
    }
  }
}
