/** Chunk sizes, bins and request sizes of the runtime heap
    (src/runtime/alloc/malloc.c, src/runtime/alloc/malloc_impl.h). */
module MallocSizes {
  import opened Arith
  import opened Lists

  const SIZE_ALIGN: nat := 32
  const OVERHEAD: nat := 16
  const PAGE_SIZE: nat := 4096
  const MMAP_THRESHOLD: nat := 0x1c00 * 32
  const DONTCARE: nat := 16
  const BINS: nat := 64
  const SIZE_MAX: nat := 0xffff_ffff_ffff_ffff
  const PTRDIFF_MAX: nat := 0x7fff_ffff_ffff_ffff

  /** `bin_tab`, one sequence per line of the table. */
  const BIN_ROW0: seq<nat> := [32, 33, 34, 35, 36, 36, 37, 37, 38, 38, 39, 39]
  const BIN_ROW1: seq<nat> := [40, 40, 40, 40, 41, 41, 41, 41, 42, 42, 42, 42, 43, 43, 43, 43]
  const BIN_ROW2: seq<nat> := [44, 44, 44, 44, 44, 44, 44, 44, 45, 45, 45, 45, 45, 45, 45, 45]
  const BIN_ROW3: seq<nat> := [46, 46, 46, 46, 46, 46, 46, 46, 47, 47, 47, 47, 47, 47, 47, 47]

  const TAB_SIZE: nat := 60

  function BinTab(i: nat): nat
    requires i < TAB_SIZE
  {
    if i < 12 then BIN_ROW0[i]
    else if i < 28 then BIN_ROW1[i - 12]
    else if i < 44 then BIN_ROW2[i - 28]
    else BIN_ROW3[i - 44]
  }

  /** The same table by formula: single entries, then groups of two, four and eight. The
      functions below read it in this form, which `TabIsBinTab` shows to be the same. */
  function Tab(i: int): int {
    if i < 4 then 32 + i
    else if i < 12 then 36 + (i - 4) / 2
    else if i < 28 then 40 + (i - 12) / 4
    else 44 + (i - 28) / 8
  }

  lemma Row0(i: nat)
    requires i < 12
    ensures BIN_ROW0[i] == Tab(i)
  {
    var t := BIN_ROW0;
    assert t[0] == 32 && t[1] == 33 && t[2] == 34 && t[3] == 35 && t[4] == 36 && t[5] == 36 && t[6] == 37 && t[7] == 37
           && t[8] == 38 && t[9] == 38 && t[10] == 39 && t[11] == 39;
  }

  lemma Row1(i: nat)
    requires i < 16
    ensures BIN_ROW1[i] == Tab(i + 12)
  {
    var t := BIN_ROW1;
    assert t[0] == 40 && t[1] == 40 && t[2] == 40 && t[3] == 40 && t[4] == 41 && t[5] == 41 && t[6] == 41 && t[7] == 41
           && t[8] == 42 && t[9] == 42 && t[10] == 42 && t[11] == 42 && t[12] == 43 && t[13] == 43 && t[14] == 43 &&
           t[15] == 43;
  }

  lemma Row2(i: nat)
    requires i < 16
    ensures BIN_ROW2[i] == Tab(i + 28)
  {
    var t := BIN_ROW2;
    assert t[0] == 44 && t[1] == 44 && t[2] == 44 && t[3] == 44 && t[4] == 44 && t[5] == 44 && t[6] == 44 && t[7] == 44
           && t[8] == 45 && t[9] == 45 && t[10] == 45 && t[11] == 45 && t[12] == 45 && t[13] == 45 && t[14] == 45 &&
           t[15] == 45;
  }

  lemma Row3(i: nat)
    requires i < 16
    ensures BIN_ROW3[i] == Tab(i + 44)
  {
    var t := BIN_ROW3;
    assert t[0] == 46 && t[1] == 46 && t[2] == 46 && t[3] == 46 && t[4] == 46 && t[5] == 46 && t[6] == 46 && t[7] == 46
           && t[8] == 47 && t[9] == 47 && t[10] == 47 && t[11] == 47 && t[12] == 47 && t[13] == 47 && t[14] == 47 &&
           t[15] == 47;
  }

  lemma TabIsBinTab(i: nat)
    requires i < TAB_SIZE
    ensures BinTab(i) == Tab(i)
  {
    if i < 12 { Row0(i); }
    else if i < 28 { Row1(i - 12); }
    else if i < 44 { Row2(i - 28); }
    else { Row3(i - 44); }
  }

  /** The bin for `x + 1` alignment units. */
  function Bin(x: nat): int {
    if x <= 32 then x
    else if x < 512 then Tab(x / 8 - 4)
    else if x > 0x1c00 then 63
    else Tab(x / 128 - 4) + 16
  }

  /** `bin_index`. */
  function BinIndex(size: nat): int
    requires size >= SIZE_ALIGN
  {
    Bin(size / SIZE_ALIGN - 1)
  }

  /** Where `bin_index_up` reads its table; it does so without a bound. */
  function BinIndexUpSlot(size: nat): int {
    var x := size / SIZE_ALIGN - 1 - 1;
    if x < 512 then x / 8 - 4 else x / 128 - 4
  }

  /** `bin_index_up` looks at the table only inside it. */
  predicate BinIndexUpDefined(size: nat) {
    size / SIZE_ALIGN - 1 <= 32 || 0 <= BinIndexUpSlot(size) < TAB_SIZE
  }

  /** `bin_index_up`. */
  function BinIndexUp(size: nat): int
    requires BinIndexUpDefined(size)
  {
    var x := size / SIZE_ALIGN - 1;
    if x <= 32 then x
    else if x - 1 < 512 then Tab((x - 1) / 8 - 4) + 1
    else Tab((x - 1) / 128 - 4) + 17
  }

  /** It stays inside the table exactly up to 8193 alignment units, well above the
      threshold over which `mem_alloc` does not call it. */
  lemma BinIndexUpBound(size: nat)
    requires size % SIZE_ALIGN == 0 && size >= SIZE_ALIGN
    ensures BinIndexUpDefined(size) <==> size <= 8193 * SIZE_ALIGN
  {
  }

  /** One unit more and the read is past the end of the table. */
  lemma BinTableOverrun()
    ensures !BinIndexUpDefined(8194 * SIZE_ALIGN) && BinIndexUpSlot(8194 * SIZE_ALIGN) == TAB_SIZE
  {
  }

  lemma BinIndexRange(size: nat)
    requires size >= SIZE_ALIGN
    ensures 0 <= BinIndex(size) < BINS
  {
  }

  lemma BinMonotone(x: nat, y: nat)
    requires x <= y
    ensures Bin(x) <= Bin(y)
  {
  }

  lemma BinIndexUpIsNext(size: nat)
    requires SIZE_ALIGN <= size <= MMAP_THRESHOLD
    ensures BinIndexUpDefined(size)
    ensures var x := size / SIZE_ALIGN - 1;
            && 0 <= BinIndexUp(size) < BINS
            && (x <= 32 ==> BinIndexUp(size) == x)
            && (x > 32 ==> BinIndexUp(size) == Bin(x - 1) + 1)
  {
  }

  /** Every chunk in a bin at or above the one for a request is large enough for it. */
  lemma BinFits(s: nat, n: nat)
    requires s % SIZE_ALIGN == 0 && n % SIZE_ALIGN == 0 && SIZE_ALIGN <= s && SIZE_ALIGN <= n <= MMAP_THRESHOLD
    ensures BinIndexUpDefined(n)
    ensures BinIndex(s) >= BinIndexUp(n) ==> s >= n
  {
    BinIndexUpIsNext(n);
    var x, y := s / SIZE_ALIGN - 1, n / SIZE_ALIGN - 1;
    if s < n {
      BinMonotone(x, y - 1);
    }
  }

  /** A quarter more is always in a later bin: each power of two is cut into four. */
  lemma QuarterUp(x: nat)
    requires 32 < x <= 0x1c00
    ensures Bin(x + x / 4) >= Bin(x - 1) + 1
  {
    if x <= 64 {
    } else if x <= 128 {
    } else if x <= 256 {
    } else if x <= 512 {
    } else if x <= 1024 {
    } else if x <= 2048 {
    } else if x <= 4096 {
    }
  }

  /** The other way round the search misses no chunk that is large enough by a quarter, and
      for requests up to 33 alignment units none that is large enough at all. */
  lemma BinReaches(s: nat, n: nat)
    requires s % SIZE_ALIGN == 0 && n % SIZE_ALIGN == 0 && SIZE_ALIGN <= n <= MMAP_THRESHOLD && n <= s
    requires n <= 33 * SIZE_ALIGN || 4 * s >= 5 * n
    ensures BinIndexUpDefined(n) && BinIndex(s) >= BinIndexUp(n)
  {
    BinIndexUpIsNext(n);
    var x, y := s / SIZE_ALIGN - 1, n / SIZE_ALIGN - 1;
    if y <= 32 {
      BinMonotone(y, x);
    } else {
      QuarterUp(y);
      BinMonotone(y + y / 4, x);
    }
  }

  /** Above that an exact fit may be passed over: one bin holds several sizes, and the search
      begins with the next one. */
  lemma FitPassedOver()
    ensures BinIndexUpDefined(36 * SIZE_ALIGN) && BinIndex(36 * SIZE_ALIGN) < BinIndexUp(36 * SIZE_ALIGN)
  {
  }

  // ---- Request sizes ----

  /** `adjust_size`: None when the request is too large. */
  function AdjustSize(n: nat): (r: Option<nat>)
    ensures r.Some? ==> r.value >= SIZE_ALIGN
  {
    if n == 0 then Some(SIZE_ALIGN)
    else if n - 1 > PTRDIFF_MAX - SIZE_ALIGN - PAGE_SIZE then None
    else Some(AlignUp(n + OVERHEAD, SIZE_ALIGN))
  }

  /** The adjusted size holds the request and the header, and wastes less than one
      alignment unit. */
  lemma AdjustSizeFits(n: nat)
    requires AdjustSize(n).Some?
    ensures var a := AdjustSize(n).value;
            a % SIZE_ALIGN == 0 && a >= SIZE_ALIGN && n + OVERHEAD <= a < n + OVERHEAD + SIZE_ALIGN && a <= PTRDIFF_MAX
  {
  }
}
