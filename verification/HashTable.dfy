/** The slots of the runtime's hash map (src/runtime/lib/stb_ds.c): which entry each slot
    stands for, and why every entry is met before the first empty slot of its probe. */
module HashTable {
  import opened Arith
  import opened HashProbe

  /** STBDS_HASH_EMPTY and STBDS_HASH_DELETED, with the index words that go with them. */
  const EMPTY: nat := 0
  const DELETED: nat := 1
  const NO_INDEX: int := -1
  const GONE: int := -2

  datatype Table = Table(hashes: seq<nat>, index: seq<int>)

  /** Stored hash values are never EMPTY or DELETED. */
  function Stored(h: nat): nat { if h < 2 then h + 2 else h }

  ghost predicate Shaped(T: Table, m: nat) { m > 0 && |T.hashes| == BUCKET * m && |T.index| == BUCKET * m }

  /** The first `t` slots that a probe for `h` looks at are not empty. */
  ghost predicate Solid(T: Table, m: nat, h: nat, t: nat)
    requires Shaped(T, m)
  {
    forall u :: 0 <= u < t ==> Taken(T, m, h, u)
  }

  /** The slot in step `u` is not empty. */
  ghost predicate Taken(T: Table, m: nat, h: nat, u: nat)
    requires Shaped(T, m)
  {
    SlotHash(T, m, h, u) != EMPTY
  }

  ghost function SlotHash(T: Table, m: nat, h: nat, u: nat): nat
    requires Shaped(T, m)
  {
    SlotInRange(h, m, u);
    T.hashes[Slot(h, m, u)]
  }

  /** Slot `x`, where `hs` are the stored hashes of the entries and `place` the number of
      steps after which a probe for an entry meets it. */
  ghost predicate SlotOk(T: Table, m: nat, hs: seq<nat>, place: map<int, nat>, x: int)
    requires Shaped(T, m) && 0 <= x < BUCKET * m
  {
    && (T.hashes[x] == EMPTY <==> T.index[x] == NO_INDEX)
    && (T.hashes[x] == DELETED <==> T.index[x] == GONE)
    && (T.hashes[x] >= 2 ==>
          && T.index[x] in place && 0 <= T.index[x] < |hs|
          && T.hashes[x] == hs[T.index[x]] && Slot(hs[T.index[x]], m, place[T.index[x]]) == x)
  }

  ghost predicate EntryOk(T: Table, m: nat, hs: seq<nat>, place: map<int, nat>, i: int)
    requires Shaped(T, m)
  {
    && i in place && 0 <= i < |hs| && hs[i] >= 2 && place[i] < BUCKET * m
    && (SlotInRange(hs[i], m, place[i]); T.index[Slot(hs[i], m, place[i])] == i)
    && Solid(T, m, hs[i], place[i])
  }

  ghost predicate TableOk(T: Table, m: nat, hs: seq<nat>, place: map<int, nat>) {
    && Shaped(T, m)
    && (forall x {:trigger SlotOk(T, m, hs, place, x)} :: 0 <= x < BUCKET * m ==> SlotOk(T, m, hs, place, x))
    && (forall i {:trigger EntryOk(T, m, hs, place, i)} :: i in place ==> EntryOk(T, m, hs, place, i))
  }

  // ---- Counting ----

  function Used(T: Table): set<int> { set x | 0 <= x < |T.hashes| && T.hashes[x] >= 2 }
  function Dead(T: Table): set<int> { set x | 0 <= x < |T.hashes| && T.hashes[x] == DELETED }

  /** A table has an empty slot, or its slots in use and its deleted ones are all of them. */
  lemma EmptyOrFull(T: Table)
    ensures (exists x :: 0 <= x < |T.hashes| && T.hashes[x] == EMPTY) || |Used(T)| + |Dead(T)| == |T.hashes|
  {
    BelowSize(|T.hashes|);
    if forall x :: 0 <= x < |T.hashes| ==> T.hashes[x] != EMPTY {
      assert Used(T) + Dead(T) == Below(|T.hashes|);
      assert Used(T) * Dead(T) == {};
    }
  }

  /** An empty slot lies within every probe. */
  lemma ProbeEnds(T: Table, s: nat, h: nat)
    requires Shaped(T, Pow2(s)) && |Used(T)| + |Dead(T)| < |T.hashes|
    ensures exists t :: 0 <= t < BUCKET * Pow2(s) && !Taken(T, Pow2(s), h, t)
  {
    EmptyOrFull(T);
    var x :| 0 <= x < |T.hashes| && T.hashes[x] == EMPTY;
    EverySlot(h, s, x);
    var t :| 0 <= t < BUCKET * Pow2(s) && Slot(h, Pow2(s), t) == x;
    assert !Taken(T, Pow2(s), h, t);
  }

  /** Writing one slot. */
  function Write(T: Table, x: int, h: nat, i: int): Table
    requires 0 <= x < |T.hashes| && x < |T.index|
  {
    Table(T.hashes[x := h], T.index[x := i])
  }

  lemma UsedWrite(T: Table, x: int, h: nat, i: int)
    requires 0 <= x < |T.hashes| && x < |T.index|
    ensures Used(Write(T, x, h, i)) == (if h >= 2 then Used(T) + {x} else Used(T) - {x})
    ensures Dead(Write(T, x, h, i)) == (if h == DELETED then Dead(T) + {x} else Dead(T) - {x})
  {
  }

  // ---- The steps ----

  /** No slot in use. */
  function Blank(m: nat): Table { Table(seq(BUCKET * m, _ => EMPTY), seq(BUCKET * m, _ => NO_INDEX)) }

  lemma BlankOk(m: nat, hs: seq<nat>)
    requires m > 0
    ensures TableOk(Blank(m), m, hs, map[]) && Used(Blank(m)) == {} && Dead(Blank(m)) == {}
  {
  }

  /** Slots never become empty, so probes that got through still do. */
  lemma SolidKept(T: Table, m: nat, x: int, g: nat, i: int, h: nat, t: nat)
    requires Shaped(T, m) && 0 <= x < BUCKET * m && g != EMPTY && Solid(T, m, h, t)
    ensures Solid(Write(T, x, g, i), m, h, t)
  {
    var W := Write(T, x, g, i);
    forall u | 0 <= u < t ensures Taken(W, m, h, u) {
      assert Taken(T, m, h, u);
      SlotInRange(h, m, u);
    }
  }

  /** Entry `i` enters at the slot its probe reaches after `t` steps, empty or deleted. */
  lemma InsertOk(T: Table, m: nat, hs: seq<nat>, place: map<int, nat>, i: int, t: nat)
    requires TableOk(T, m, hs, place) && 0 <= i < |hs| && i !in place && hs[i] >= 2 && t < BUCKET * m
    requires Solid(T, m, hs[i], t) && SlotHash(T, m, hs[i], t) < 2
    ensures Slot(hs[i], m, t) < BUCKET * m
    ensures TableOk(Write(T, Slot(hs[i], m, t), hs[i], i), m, hs, place[i := t])
  {
    SlotInRange(hs[i], m, t);
    var x := Slot(hs[i], m, t);
    var W, p := Write(T, x, hs[i], i), place[i := t];
    forall y | 0 <= y < BUCKET * m ensures SlotOk(W, m, hs, p, y) {
      assert SlotOk(T, m, hs, place, y);
    }
    forall j | j in p ensures EntryOk(W, m, hs, p, j) {
      InsertEntry(T, m, hs, place, i, t, j);
    }
  }

  lemma InsertEntry(T: Table, m: nat, hs: seq<nat>, place: map<int, nat>, i: int, t: nat, j: int)
    requires TableOk(T, m, hs, place) && 0 <= i < |hs| && i !in place && hs[i] >= 2 && t < BUCKET * m
    requires Solid(T, m, hs[i], t) && SlotHash(T, m, hs[i], t) < 2 && (j == i || j in place)
    ensures Slot(hs[i], m, t) < BUCKET * m
    ensures EntryOk(Write(T, Slot(hs[i], m, t), hs[i], i), m, hs, place[i := t], j)
  {
    SlotInRange(hs[i], m, t);
    var x := Slot(hs[i], m, t);
    if j == i {
      SolidKept(T, m, x, hs[i], i, hs[i], t);
    } else {
      assert EntryOk(T, m, hs, place, j) && SlotOk(T, m, hs, place, x);
      SolidKept(T, m, x, hs[i], i, hs[j], place[j]);
    }
  }

  function Less(place: map<int, nat>, i: int): map<int, nat> { map j | j in place && j != i :: place[j] }

  /** Entry `i` leaves; its slot is marked deleted. */
  lemma RemoveOk(T: Table, m: nat, hs: seq<nat>, place: map<int, nat>, i: int)
    requires TableOk(T, m, hs, place) && i in place
    ensures 0 <= i < |hs| && Slot(hs[i], m, place[i]) < BUCKET * m
    ensures TableOk(Write(T, Slot(hs[i], m, place[i]), DELETED, GONE), m, hs, Less(place, i))
  {
    assert EntryOk(T, m, hs, place, i);
    SlotInRange(hs[i], m, place[i]);
    var x := Slot(hs[i], m, place[i]);
    var W, p := Write(T, x, DELETED, GONE), Less(place, i);
    forall y | 0 <= y < BUCKET * m ensures SlotOk(W, m, hs, p, y) {
      assert SlotOk(T, m, hs, place, y);
    }
    forall j | j in p ensures EntryOk(W, m, hs, p, j) {
      assert EntryOk(T, m, hs, place, j);
      SlotInRange(hs[j], m, place[j]);
      SolidKept(T, m, x, DELETED, GONE, hs[j], place[j]);
    }
  }

  /** Entry `f` is renumbered to `o`, which stands for no entry: only its slot's index word
      changes. */
  lemma RenameOk(T: Table, m: nat, hs: seq<nat>, gs: seq<nat>, place: map<int, nat>, f: int, o: int)
    requires TableOk(T, m, hs, place) && f in place && o !in place && 0 <= o < |gs|
    requires forall j :: j in place && j != f ==> 0 <= j < |gs| && j < |hs| && gs[j] == hs[j]
    requires 0 <= f < |hs| && gs[o] == hs[f]
    ensures Slot(hs[f], m, place[f]) < BUCKET * m
    ensures TableOk(Write(T, Slot(hs[f], m, place[f]), hs[f], o), m, gs, Less(place, f)[o := place[f]])
  {
    assert EntryOk(T, m, hs, place, f);
    SlotInRange(hs[f], m, place[f]);
    var x := Slot(hs[f], m, place[f]);
    var W, p := Write(T, x, hs[f], o), Less(place, f)[o := place[f]];
    forall y | 0 <= y < BUCKET * m ensures SlotOk(W, m, gs, p, y) {
      assert SlotOk(T, m, hs, place, y) && SlotOk(T, m, hs, place, x);
    }
    forall j | j in p ensures EntryOk(W, m, gs, p, j) {
      RenameEntry(T, m, hs, gs, place, f, o, j);
    }
  }

  lemma RenameEntry(T: Table, m: nat, hs: seq<nat>, gs: seq<nat>, place: map<int, nat>, f: int, o: int, j: int)
    requires TableOk(T, m, hs, place) && f in place && o !in place && 0 <= o < |gs|
    requires forall j :: j in place && j != f ==> 0 <= j < |gs| && j < |hs| && gs[j] == hs[j]
    requires 0 <= f < |hs| && gs[o] == hs[f] && j in Less(place, f)[o := place[f]]
    ensures Slot(hs[f], m, place[f]) < BUCKET * m
    ensures EntryOk(Write(T, Slot(hs[f], m, place[f]), hs[f], o), m, gs, Less(place, f)[o := place[f]], j)
  {
    assert EntryOk(T, m, hs, place, f);
    SlotInRange(hs[f], m, place[f]);
    var x := Slot(hs[f], m, place[f]);
    if j == o {
      SolidKept(T, m, x, hs[f], o, hs[f], place[f]);
    } else {
      assert EntryOk(T, m, hs, place, j);
      SlotInRange(hs[j], m, place[j]);
      SolidKept(T, m, x, hs[f], o, hs[j], place[j]);
    }
  }

  /** Only the hashes of the entries in the table matter. */
  lemma SameHashes(T: Table, m: nat, hs: seq<nat>, gs: seq<nat>, place: map<int, nat>)
    requires TableOk(T, m, hs, place)
    requires forall j :: j in place ==> 0 <= j < |gs| && j < |hs| && gs[j] == hs[j]
    ensures TableOk(T, m, gs, place)
  {
    forall y | 0 <= y < BUCKET * m ensures SlotOk(T, m, gs, place, y) {
      assert SlotOk(T, m, hs, place, y);
    }
    forall j | j in place ensures EntryOk(T, m, gs, place, j) {
      assert EntryOk(T, m, hs, place, j);
    }
  }

  // ---- Thresholds ----

  function UsedMax(n: nat): nat { n - n / 4 }
  function TombMax(n: nat): nat { n / 8 + n / 16 }
  function ShrinkMin(n: nat): nat { if n <= BUCKET then 0 else n / 4 }

  /** The slots after a put into a table of `n` slots with `used` in use, and after a delete that
      leaves `used` in use. */
  function PutSlots(n: nat, used: nat): nat { if n == 0 then BUCKET else if used >= UsedMax(n) then 2 * n else n }
  function DeleteSlots(n: nat, used: nat): nat { if used < ShrinkMin(n) && n > BUCKET then n / 2 else n }

  /** A table beyond the smallest is at least a quarter full. */
  predicate Lean(n: nat, used: nat) { n <= BUCKET || n <= 4 * used }

  lemma PutLean(n: nat, used: nat)
    requires Lean(n, used) && n % BUCKET == 0
    ensures Lean(PutSlots(n, used), used)
  {
    var k := n / BUCKET;
    assert n == 8 * k && n / 4 == 2 * k;
  }

  lemma DeleteLean(n: nat, used: nat)
    requires Lean(n, used + 1) && n % BUCKET == 0
    ensures Lean(DeleteSlots(n, used), used)
  {
    var k := n / BUCKET;
    assert n == 8 * k && n / 4 == 2 * k && n / 2 == 4 * k;
  }

  /** The assertion of `stbds_make_hash_index`: within both thresholds some slot is empty. */
  lemma ThresholdsLeaveRoom(s: nat)
    ensures var n := BUCKET * Pow2(s); UsedMax(n) + TombMax(n) < n
  {
  }

  /** Growing makes room for one more entry, and a table is only halved when it stays well
      below its new threshold. */
  lemma ResizeRoom(s: nat, used: nat)
    ensures var n := BUCKET * Pow2(s); used <= UsedMax(n) ==> used < UsedMax(2 * n)
    ensures var n := BUCKET * Pow2(s); s > 0 && used < ShrinkMin(n) ==> used < UsedMax(n / 2)
    ensures s > 0 ==> BUCKET * Pow2(s) / 2 == BUCKET * Pow2(s - 1)
    ensures s > 0 <==> BUCKET * Pow2(s) > BUCKET
  {
  }

  // ---- Moving along a probe ----

  lemma ModShift(x: nat, y: nat, m: nat)
    requires m > 0
    ensures (x % m + y) % m == (x + y) % m
  {
    var q := x / m;
    assert x + y == q * m + (x % m + y);
    ModMultiple(x % m + y, q, m);
  }

  lemma {:induction false} ModMultiple(x: nat, q: nat, m: nat)
    requires m > 0
    ensures (q * m + x) % m == x % m
  {
    var r, d := x % m, x / m;
    assert q * m + x == (q + d) * m + r;
    DivExact(q + d, m);
    ModSum(q + d, m, r);
  }

  lemma ModSum(k: nat, m: nat, r: nat)
    requires r < m
    ensures (k * m + r) % m == r
  {
    var d, e := (k * m + r) / m, (k * m + r) % m;
    assert k * m + r == d * m + e;
    if d > k { MulApart(k, d, m); }
    if d < k { MulApart(d, k, m); }
  }

  lemma FirstRound(h: nat, m: nat)
    requires m > 0
    ensures Start(h, m) == BUCKET * BucketAt(Start(h, m) / BUCKET, m, 0) + Start(h, m) % BUCKET
  {
    StartBucket(Start(h, m), m);
  }

  lemma StartBucket(p: nat, m: nat)
    requires p < BUCKET * m
    ensures p / BUCKET < m && (p / BUCKET) % m == p / BUCKET
  {
    SmallMod(p / BUCKET, m);
  }

  lemma SmallMod(x: nat, m: nat)
    requires x < m
    ensures x % m == x
  {
  }

  /** `pos += step; pos &= slot_count - 1` moves to the bucket of the next round and keeps
      the offset. */
  lemma NextRound(h: nat, m: nat, k: nat, pos: nat)
    requires m > 0 && pos == BUCKET * BucketAt(Start(h, m) / BUCKET, m, k) + Start(h, m) % BUCKET
    ensures (pos + BUCKET * (k + 1)) % (BUCKET * m) ==
            BUCKET * BucketAt(Start(h, m) / BUCKET, m, k + 1) + Start(h, m) % BUCKET
  {
    var b, o := Start(h, m) / BUCKET, Start(h, m) % BUCKET;
    var B := BucketAt(b, m, k);
    ModShift(b + Triangle(k), k + 1, m);
    assert (B + k + 1) % m == BucketAt(b, m, k + 1);
    ScaledMod(B + k + 1, o, m);
  }

  lemma ScaledMod(x: nat, o: nat, m: nat)
    requires m > 0 && o < BUCKET
    ensures (BUCKET * x + o) % (BUCKET * m) == BUCKET * (x % m) + o
  {
    var q, r := x / m, x % m;
    assert BUCKET * x + o == q * (BUCKET * m) + (BUCKET * r + o) by { assert x == q * m + r; }
    ModSum(q, BUCKET * m, BUCKET * r + o);
  }

  /** In the round whose bucket holds `pos`, offset `i` of the bucket is looked at after the
      offsets from that of `pos` up, then those from zero. */
  lemma ScanOrder(h: nat, m: nat, k: nat, pos: nat, i: nat)
    requires m > 0 && pos == BUCKET * BucketAt(Start(h, m) / BUCKET, m, k) + Start(h, m) % BUCKET && i < BUCKET
    ensures pos / BUCKET * BUCKET + i < BUCKET * m
    ensures i >= pos % BUCKET ==> Slot(h, m, BUCKET * k + (i - pos % BUCKET)) == pos / BUCKET * BUCKET + i
    ensures i < pos % BUCKET ==> Slot(h, m, BUCKET * k + (BUCKET - pos % BUCKET + i)) == pos / BUCKET * BUCKET + i
  {
    var o := Start(h, m) % BUCKET;
    var B := BucketAt(Start(h, m) / BUCKET, m, k);
    StepParts(B, o);
    WithinTable(B, m, i);
    Wraps(o, i);
    if i >= o { SlotAt(h, m, k, i - o); } else { SlotAt(h, m, k, BUCKET - o + i); }
  }

  lemma WithinTable(B: nat, m: nat, i: nat)
    requires B < m && i < BUCKET
    ensures BUCKET * B + i < BUCKET * m
  {
  }

  lemma Wraps(o: nat, i: nat)
    requires o < BUCKET && i < BUCKET
    ensures i >= o ==> (o + (i - o)) % BUCKET == i
    ensures i < o ==> (o + (BUCKET - o + i)) % BUCKET == i
  {
  }

  // ---- Copying into a new table ----

  /** The slots in use below `x`. */
  function UsedBelow(T: Table, x: int): set<int> { set y | 0 <= y < |T.hashes| && y < x && T.hashes[y] >= 2 }

  lemma UsedBelowStep(T: Table, x: int)
    requires 0 <= x < |T.hashes|
    ensures |UsedBelow(T, x + 1)| == |UsedBelow(T, x)| + (if T.hashes[x] >= 2 then 1 else 0)
  {
    if T.hashes[x] >= 2 {
      assert UsedBelow(T, x + 1) == UsedBelow(T, x) + {x};
    } else {
      assert UsedBelow(T, x + 1) == UsedBelow(T, x);
    }
  }

  lemma {:induction false} SubsetSize<A>(a: set<A>, b: set<A>)
    requires a <= b
    ensures |a| <= |b|
  {
    assert b == a + (b - a);
  }

  lemma UsedBelowSize(T: Table, x: int)
    ensures |UsedBelow(T, x)| <= |Used(T)|
    ensures x >= |T.hashes| ==> UsedBelow(T, x) == Used(T)
  {
    SubsetSize(UsedBelow(T, x), Used(T));
  }

  /** The copy `N` holds exactly the entries whose slot in `T` is below `x`. */
  ghost predicate Copied(T: Table, m: nat, place: map<int, nat>, N: Table, l: nat, copy: map<int, nat>, hs: seq<nat>,
                         x: int) {
    && TableOk(T, m, hs, place) && TableOk(N, l, hs, copy)
    && |Used(N)| == |UsedBelow(T, x)| && Dead(N) == {}
    && (forall i :: i in copy <==> i in place && 0 <= i < |hs| && Slot(hs[i], m, place[i]) < x)
  }

  /** A slot that is not in use adds nothing to the copy. */
  lemma CopySkip(T: Table, m: nat, place: map<int, nat>, N: Table, l: nat, copy: map<int, nat>, hs: seq<nat>, x: int)
    requires Copied(T, m, place, N, l, copy, hs, x) && 0 <= x < BUCKET * m && T.index[x] < 0
    ensures Copied(T, m, place, N, l, copy, hs, x + 1)
  {
    UsedBelowStep(T, x);
    assert SlotOk(T, m, hs, place, x);
    forall i | i in place && 0 <= i < |hs| ensures Slot(hs[i], m, place[i]) != x {
      assert EntryOk(T, m, hs, place, i);
    }
  }

  /** What the copy needs to know about a slot in use. */
  lemma CopyReads(T: Table, m: nat, place: map<int, nat>, N: Table, l: nat, copy: map<int, nat>, hs: seq<nat>, x: int)
    requires Copied(T, m, place, N, l, copy, hs, x) && 0 <= x < BUCKET * m && T.index[x] >= 0 && |Used(T)| < BUCKET * l
    ensures var i := T.index[x]; 0 <= i < |hs| && T.hashes[x] == hs[i] >= 2 && i !in copy && i in place
    ensures |Used(N)| + |Dead(N)| < |N.hashes|
  {
    assert SlotOk(T, m, hs, place, x);
    UsedBelowStep(T, x);
    UsedBelowSize(T, x + 1);
  }

  lemma CopyPut(T: Table, m: nat, place: map<int, nat>, N: Table, l: nat, copy: map<int, nat>, hs: seq<nat>, x: int,
                t: nat)
    requires Copied(T, m, place, N, l, copy, hs, x) && 0 <= x < BUCKET * m && T.index[x] >= 0
    requires var i := T.index[x]; 0 <= i < |hs| && T.hashes[x] == hs[i] >= 2 && i !in copy && i in place
    requires t < BUCKET * l && Solid(N, l, hs[T.index[x]], t) && !Taken(N, l, hs[T.index[x]], t)
    ensures var i := T.index[x]; var y := Slot(hs[i], l, t);
            y < BUCKET * l && Copied(T, m, place, Write(N, y, hs[i], i), l, copy[i := t], hs, x + 1)
  {
    var i := T.index[x];
    var y := Slot(hs[i], l, t);
    InsertOk(N, l, hs, copy, i, t);
    UsedWrite(N, y, hs[i], i);
    UsedBelowStep(T, x);
    assert SlotOk(T, m, hs, place, x);
    assert Dead(N) - {y} == {};
    forall j | j in place && 0 <= j < |hs| && j != i ensures Slot(hs[j], m, place[j]) != x {
      assert EntryOk(T, m, hs, place, j);
    }
  }
}
