/** The runtime's hash map (src/runtime/lib/stb_ds.c) with binary keys: a dense array of
    entries and an open-addressing table of indices into it. */
module HashMap {
  import opened Arith
  import opened HashProbe
  import opened HashTable

  datatype Entry<K, V> = Entry(key: K, value: V)

  /** The dense array holds each key once; `at` says where. */
  ghost predicate Dense<K, V>(entries: seq<Entry<K, V>>, at: map<K, int>) {
    && (forall i :: 0 <= i < |entries| ==> entries[i].key in at && at[entries[i].key] == i)
    && (forall k :: k in at ==> 0 <= at[k] < |entries| && entries[at[k]].key == k)
  }

  /** The finite map that the dense array stands for. */
  ghost function ContentsOf<K, V>(entries: seq<Entry<K, V>>, at: map<K, int>): map<K, V>
    requires Dense(entries, at)
  {
    map k | k in at :: entries[at[k]].value
  }

  /** The stored hashes of the entries. */
  ghost function HashesOf<K, V>(hash: K -> nat, entries: seq<Entry<K, V>>): (r: seq<nat>)
    ensures |r| == |entries| && forall i :: 0 <= i < |r| ==> r[i] == Stored(hash(entries[i].key))
  {
    if entries == [] then []
    else HashesOf(hash, entries[..|entries| - 1]) + [Stored(hash(entries[|entries| - 1].key))]
  }

  /** The invariant: array and index in step, `used` and `tombs` the true counts of slots in
      use and deleted, both within their thresholds. */
  ghost predicate Sound<K(!new), V>(hash: K -> nat, entries: seq<Entry<K, V>>, T: Table, used: nat, tombs: nat,
                                    s: nat, place: map<int, nat>, at: map<K, int>)
  {
    && Dense(entries, at)
    && (T.hashes == [] ==> T.index == [] && entries == [] && used == 0 && tombs == 0)
    && (T.hashes != [] ==>
          && Indexed(hash, entries, T, used, tombs, s, place)
          && used <= UsedMax(|T.hashes|) && tombs <= TombMax(|T.hashes|))
  }

  /** Thresholds aside. */
  ghost predicate Indexed<K(!new), V>(hash: K -> nat, entries: seq<Entry<K, V>>, T: Table, used: nat, tombs: nat,
                                      s: nat, place: map<int, nat>)
  {
    && TableOk(T, Pow2(s), HashesOf(hash, entries), place)
    && (forall i :: i in place <==> 0 <= i < |entries|)
    && used == |entries| == |Used(T)| && tombs == |Dead(T)|
  }

  /** What a search needs of the table; it need not be in step with the array. */
  ghost predicate Searchable<K, V>(T: Table, s: nat, entries: seq<Entry<K, V>>) {
    && Shaped(T, Pow2(s))
    && (forall x :: 0 <= x < |T.hashes| && T.hashes[x] >= 2 ==> 0 <= T.index[x] < |entries|)
    && |Used(T)| + |Dead(T)| < |T.hashes|
  }

  /** A search for `key`, whose stored hash is `h`, stops at slot `x`: it is empty, or it is
      the slot of that key. */
  predicate Stops<K(==), V>(T: Table, entries: seq<Entry<K, V>>, h: nat, key: K, x: int)
    requires 0 <= x < |T.hashes| && x < |T.index| && h >= 2
    requires T.hashes[x] >= 2 ==> 0 <= T.index[x] < |entries|
  {
    T.hashes[x] == EMPTY || (T.hashes[x] == h && entries[T.index[x]].key == key)
  }

  /** It goes past the slot it looks at in step `u`. */
  ghost predicate Passes<K, V>(T: Table, s: nat, entries: seq<Entry<K, V>>, h: nat, key: K, u: nat)
    requires Searchable(T, s, entries) && h >= 2
  {
    SlotInRange(h, Pow2(s), u);
    !Stops(T, entries, h, key, Slot(h, Pow2(s), u))
  }

  /** `pos` is where round `k` of a search for stored hash `h` begins. */
  ghost predicate InRound(h: nat, s: nat, pos: nat, k: nat) {
    var m := Pow2(s);
    pos == BUCKET * BucketAt(Start(h, m) / BUCKET, m, k) + Start(h, m) % BUCKET
  }

  /** Offset `i` of the bucket that starts at slot `base` comes up in step `t + (i - lo)`. */
  ghost predicate ComesUp(h: nat, s: nat, base: nat, lo: nat, t: nat, i: nat)
    requires lo <= i
  {
    base + i < BUCKET * Pow2(s) && Slot(h, Pow2(s), t + (i - lo)) == base + i
  }

  ghost predicate Run(h: nat, s: nat, base: nat, lo: nat, hi: nat, t: nat) {
    lo <= hi && forall i :: lo <= i < hi ==> ComesUp(h, s, base, lo, t, i)
  }

  /** The two runs over the bucket of round `k`: from the offset of `pos` up, then below it. */
  lemma Runs(h: nat, s: nat, pos: nat, k: nat, base: nat, o: nat, t: nat, u: nat)
    requires InRound(h, s, pos, k) && base == pos / BUCKET * BUCKET && o == pos % BUCKET
    requires t == BUCKET * k && u == t + (BUCKET - o)
    ensures Run(h, s, base, o, BUCKET, t) && Run(h, s, base, 0, o, u)
  {
    forall i | o <= i < BUCKET ensures ComesUp(h, s, base, o, t, i) { ScanOrder(h, Pow2(s), k, pos, i); }
    forall i | 0 <= i < o ensures ComesUp(h, s, base, 0, u, i) { ScanOrder(h, Pow2(s), k, pos, i); }
  }

  /** A deleted slot that a search met in step `tt`, before step `hi`. */
  ghost predicate Reusable(T: Table, s: nat, h: nat, x: int, tt: nat, hi: nat)
    requires Shaped(T, Pow2(s))
  {
    tt < hi && 0 <= x < |T.hashes| && x == Slot(h, Pow2(s), tt) && T.index[x] == GONE
  }

  /** The slot in step `u` of a search is a deleted one. */
  ghost predicate GoneAt(T: Table, s: nat, h: nat, u: nat)
    requires Shaped(T, Pow2(s))
  {
    SlotInRange(h, Pow2(s), u);
    T.index[Slot(h, Pow2(s), u)] == GONE
  }

  /** `x` is the first deleted slot in the first `hi` steps, in step `tt`; or there is none
      and `x` is negative. */
  ghost predicate FirstGone(T: Table, s: nat, h: nat, x: int, tt: nat, hi: nat)
    requires Shaped(T, Pow2(s))
  {
    && (x >= 0 ==> Reusable(T, s, h, x, tt, hi))
    && forall u :: 0 <= u < (if x >= 0 then tt else hi) ==> !GoneAt(T, s, h, u)
  }

  lemma GoneNext(T: Table, s: nat, h: nat, x: int, tt: nat, t: nat, y: nat)
    requires Shaped(T, Pow2(s)) && FirstGone(T, s, h, x, tt, t) && y < |T.hashes| && y == Slot(h, Pow2(s), t)
    ensures if x < 0 && T.index[y] == GONE then FirstGone(T, s, h, y, t, t + 1) else FirstGone(T, s, h, x, tt, t + 1)
  {
    assert GoneAt(T, s, h, t) <==> T.index[y] == GONE;
  }

  /** A step by which the search must have stopped. */
  lemma LastStep<K, V>(T: Table, s: nat, entries: seq<Entry<K, V>>, h: nat, key: K) returns (last: nat)
    requires Searchable(T, s, entries) && h >= 2
    ensures last < BUCKET * Pow2(s) && !Passes(T, s, entries, h, key, last)
  {
    ProbeEnds(T, s, h);
    last :| 0 <= last < BUCKET * Pow2(s) && !Taken(T, Pow2(s), h, last);
  }

  /** A search for a key that exactly one entry of the table has stops at the slot of that
      entry. */
  lemma SearchHits<K, V>(T: Table, s: nat, entries: seq<Entry<K, V>>, hs: seq<nat>, place: map<int, nat>, key: K,
                         i: int, t: nat)
    requires TableOk(T, Pow2(s), hs, place) && Searchable(T, s, entries)
    requires i in place && 0 <= i < |entries| && i < |hs| && entries[i].key == key && hs[i] >= 2
    requires forall j :: j in place && 0 <= j < |entries| && entries[j].key == key ==> j == i
    requires t < BUCKET * Pow2(s)
    requires (forall u :: 0 <= u < t ==> Passes(T, s, entries, hs[i], key, u)) && !Passes(T, s, entries, hs[i], key, t)
    ensures var x := Slot(hs[i], Pow2(s), t);
            x == Slot(hs[i], Pow2(s), place[i]) && x < |T.hashes| && T.index[x] == i && T.hashes[x] == hs[i]
  {
    var h, m := hs[i], Pow2(s);
    var x, y := Slot(h, m, t), Slot(h, m, place[i]);
    SlotInRange(h, m, t);
    SlotInRange(h, m, place[i]);
    assert EntryOk(T, m, hs, place, i) && SlotOk(T, m, hs, place, x) && SlotOk(T, m, hs, place, y);
    assert !Passes(T, s, entries, h, key, place[i]);
    assert t <= place[i] && (t < place[i] ==> Taken(T, m, h, t));
  }

  /** A search for a key that no entry of the table has stops at an empty slot. */
  lemma SearchMisses<K, V>(T: Table, s: nat, entries: seq<Entry<K, V>>, hs: seq<nat>, place: map<int, nat>, h: nat,
                           key: K, t: nat)
    requires TableOk(T, Pow2(s), hs, place) && Searchable(T, s, entries) && h >= 2
    requires forall j :: j in place && 0 <= j < |entries| ==> entries[j].key != key
    requires !Passes(T, s, entries, h, key, t)
    ensures var x := Slot(h, Pow2(s), t); x < |T.hashes| && T.hashes[x] == EMPTY
  {
    SlotInRange(h, Pow2(s), t);
    assert SlotOk(T, Pow2(s), hs, place, Slot(h, Pow2(s), t));
  }

  lemma AddDense<K, V>(entries: seq<Entry<K, V>>, at: map<K, int>, key: K, value: V)
    requires Dense(entries, at) && key !in at
    ensures Dense(entries + [Entry(key, value)], at[key := |entries|])
    ensures ContentsOf(entries + [Entry(key, value)], at[key := |entries|]) == ContentsOf(entries, at)[key := value]
  {
  }

  lemma UpdateDense<K, V>(entries: seq<Entry<K, V>>, at: map<K, int>, i: int, value: V)
    requires Dense(entries, at) && 0 <= i < |entries|
    ensures var e := entries[i := Entry(entries[i].key, value)];
            Dense(e, at) && ContentsOf(e, at) == ContentsOf(entries, at)[entries[i].key := value]
  {
  }

  /** The slots a search went past were not empty. */
  lemma PassedSolid<K, V>(T: Table, s: nat, entries: seq<Entry<K, V>>, h: nat, key: K, t: nat)
    requires Searchable(T, s, entries) && h >= 2 && forall u :: 0 <= u < t ==> Passes(T, s, entries, h, key, u)
    ensures Solid(T, Pow2(s), h, t)
  {
    forall u | 0 <= u < t ensures Taken(T, Pow2(s), h, u) {
      assert Passes(T, s, entries, h, key, u);
    }
  }

  /** A table with one entry more. */
  lemma AddOk(T: Table, s: nat, hs: seq<nat>, gs: seq<nat>, place: map<int, nat>, i: int, t: nat)
    requires TableOk(T, Pow2(s), hs, place) && (forall j :: j in place <==> 0 <= j < |hs|)
    requires |gs| == |hs| + 1 && gs[..|hs|] == hs && i == |hs| && gs[i] >= 2
    requires t < BUCKET * Pow2(s) && Solid(T, Pow2(s), gs[i], t)
    requires Slot(gs[i], Pow2(s), t) < |T.hashes| && T.hashes[Slot(gs[i], Pow2(s), t)] < 2
    ensures var x := Slot(gs[i], Pow2(s), t); var W := Write(T, x, gs[i], i);
                                              && TableOk(W, Pow2(s), gs, place[i := t])
                                              && |Used(W)| == |Used(T)| + 1
                                              && |Dead(W)| == |Dead(T)| - (if T.index[x] == GONE then 1 else 0)
  {
    var x := Slot(gs[i], Pow2(s), t);
    forall j | j in place ensures gs[j] == hs[j] { assert gs[..|hs|][j] == gs[j]; }
    SameHashes(T, Pow2(s), hs, gs, place);
    assert SlotOk(T, Pow2(s), gs, place, x);
    InsertOk(T, Pow2(s), gs, place, i, t);
    UsedWrite(T, x, gs[i], i);
    assert x !in Used(T) && (x in Dead(T) <==> T.index[x] == GONE);
  }

  lemma AddSound<K(!new), V>(hash: K -> nat, entries: seq<Entry<K, V>>, T: Table, used: nat, tombs: nat,
                             s: nat, place: map<int, nat>, at: map<K, int>, key: K, value: V, pos: nat, t: nat)
    requires Sound(hash, entries, T, used, tombs, s, place, at)
    requires T.hashes != [] && used < UsedMax(|T.hashes|) && key !in at
    requires t < BUCKET * Pow2(s) && Solid(T, Pow2(s), Stored(hash(key)), t)
    requires pos < |T.hashes| && pos == Slot(Stored(hash(key)), Pow2(s), t) && T.hashes[pos] < 2
    ensures T.index[pos] == GONE ==> tombs > 0
    ensures Sound(hash, entries + [Entry(key, value)], Write(T, pos, Stored(hash(key)), |entries|), used + 1,
                  if T.index[pos] == GONE then tombs - 1 else tombs, s, place[|entries| := t], at[key := |entries|])
  {
    var more := entries + [Entry(key, value)];
    AddHashes(hash, entries, key, value);
    AddOk(T, s, HashesOf(hash, entries), HashesOf(hash, more), place, |entries|, t);
    AddDense(entries, at, key, value);
  }

  lemma AddHashes<K, V>(hash: K -> nat, entries: seq<Entry<K, V>>, key: K, value: V)
    ensures HashesOf(hash, entries + [Entry(key, value)]) == HashesOf(hash, entries) + [Stored(hash(key))]
  {
  }

  lemma NothingToRemove<K, V>(m: map<K, V>, key: K)
    requires key !in m
    ensures m == m - {key}
  {
  }

  // ---- Deleting ----

  /** The array after entry `o` is overwritten by the last one and the last is dropped. */
  function SwapRemove<K, V>(entries: seq<Entry<K, V>>, o: nat): seq<Entry<K, V>>
    requires o < |entries|
  {
    entries[o := entries[|entries| - 1]][..|entries| - 1]
  }

  /** Where the keys are after that. */
  function SwapAt<K, V>(entries: seq<Entry<K, V>>, at: map<K, int>, o: nat): map<K, int>
    requires o < |entries|
  {
    map k | k in at && k != entries[o].key :: if at[k] == |entries| - 1 then o else at[k]
  }

  lemma SwapDense<K, V>(entries: seq<Entry<K, V>>, at: map<K, int>, o: nat)
    requires Dense(entries, at) && o < |entries|
    ensures Dense(SwapRemove(entries, o), SwapAt(entries, at, o))
    ensures ContentsOf(SwapRemove(entries, o), SwapAt(entries, at, o)) == ContentsOf(entries, at) - {entries[o].key}
  {
    var e, a := SwapRemove(entries, o), SwapAt(entries, at, o);
    forall k | k in a ensures 0 <= a[k] < |e| && e[a[k]].key == k && e[a[k]].value == entries[at[k]].value {
      assert at[k] != o;
    }
    forall i | 0 <= i < |e| ensures e[i].key in a && a[e[i].key] == i {
      assert e[i] == if i == o then entries[|entries| - 1] else entries[i];
    }
  }

  /** Between the two halves of a deletion: entry `o` has left the table, the array still
      has it. */
  ghost predicate Orphaned<K(!new), V>(hash: K -> nat, entries: seq<Entry<K, V>>, T: Table, used: nat, tombs: nat,
                                       s: nat, place: map<int, nat>, o: nat)
  {
    && TableOk(T, Pow2(s), HashesOf(hash, entries), place) && o < |entries|
    && (forall i :: i in place <==> 0 <= i < |entries| && i != o)
    && used == |entries| - 1 == |Used(T)| && tombs == |Dead(T)| && used + tombs < |T.hashes|
  }

  lemma OrphanSound<K(!new), V>(hash: K -> nat, entries: seq<Entry<K, V>>, T: Table, used: nat, tombs: nat,
                                s: nat, place: map<int, nat>, at: map<K, int>, o: nat)
    requires Sound(hash, entries, T, used, tombs, s, place, at) && T.hashes != [] && o < |entries|
    ensures o in place && Slot(HashesOf(hash, entries)[o], Pow2(s), place[o]) < |T.hashes| && used > 0
    ensures Orphaned(hash, entries, Write(T, Slot(HashesOf(hash, entries)[o], Pow2(s), place[o]), DELETED, GONE),
                     used - 1, tombs + 1, s, Less(place, o), o)
  {
    var hs, m := HashesOf(hash, entries), Pow2(s);
    var x := Slot(hs[o], m, place[o]);
    RemoveOk(T, m, hs, place, o);
    assert EntryOk(T, m, hs, place, o) && SlotOk(T, m, hs, place, x);
    UsedWrite(T, x, DELETED, GONE);
    ThresholdsLeaveRoom(s);
    assert x in Used(T) && x !in Dead(T);
  }

  /** The search for the last entry's key in the array where it stands twice. */
  lemma OrphanSearch<K(!new), V>(hash: K -> nat, entries: seq<Entry<K, V>>, T: Table, used: nat, tombs: nat,
                                 s: nat, place: map<int, nat>, at: map<K, int>, o: nat, t: nat)
    requires Dense(entries, at) && Orphaned(hash, entries, T, used, tombs, s, place, o) && o < |entries| - 1
    requires var f := |entries| - 1; var twice := entries[o := entries[f]]; var key := entries[f].key;
             && t < BUCKET * Pow2(s) && Searchable(T, s, twice)
             && (forall u :: 0 <= u < t ==> Passes(T, s, twice, Stored(hash(key)), key, u))
             && !Passes(T, s, twice, Stored(hash(key)), key, t)
    ensures var f := |entries| - 1; var h := Stored(hash(entries[f].key)); var x := Slot(h, Pow2(s), t);
            f in place && x < |T.hashes| && x == Slot(h, Pow2(s), place[f]) && T.index[x] == f && T.hashes[x] == h
  {
    var f := |entries| - 1;
    var twice := entries[o := entries[f]];
    forall j | j in place && 0 <= j < |twice| && twice[j].key == entries[f].key ensures j == f {
      assert at[entries[j].key] == j && at[entries[f].key] == f;
    }
    SearchHits(T, s, twice, HashesOf(hash, entries), place, entries[f].key, f, t);
  }

  lemma OrphanSearchable<K(!new), V>(hash: K -> nat, entries: seq<Entry<K, V>>, T: Table, used: nat, tombs: nat,
                                     s: nat, place: map<int, nat>, o: nat)
    requires Orphaned(hash, entries, T, used, tombs, s, place, o)
    ensures Searchable(T, s, entries[o := entries[|entries| - 1]])
  {
    forall x | 0 <= x < |T.hashes| && T.hashes[x] >= 2 ensures 0 <= T.index[x] < |entries| {
      assert SlotOk(T, Pow2(s), HashesOf(hash, entries), place, x);
    }
  }

  /** The index word of the last entry's slot is set to `o`: array and index are in step. */
  lemma AdoptedIndexed<K(!new), V>(hash: K -> nat, entries: seq<Entry<K, V>>, T: Table, used: nat, tombs: nat,
                                   s: nat, place: map<int, nat>, o: nat, x: nat)
    requires Orphaned(hash, entries, T, used, tombs, s, place, o) && o < |entries| - 1
    requires var f := |entries| - 1;
             f in place && x < |T.hashes| && x == Slot(HashesOf(hash, entries)[f], Pow2(s), place[f])
    ensures var f := |entries| - 1;
            && T.hashes[x] == HashesOf(hash, entries)[f]
            && Indexed(hash, SwapRemove(entries, o), Write(T, x, T.hashes[x], o), used, tombs, s,
                       Less(place, f)[o := place[f]])
  {
    var f, hs := |entries| - 1, HashesOf(hash, entries);
    var gs := HashesOf(hash, SwapRemove(entries, o));
    SwapHashes(hash, entries, o);
    AdoptedOk(T, Pow2(s), hs, gs, place, f, o, x);
    AdoptedKeys(place, f, o);
  }

  lemma AdoptedKeys(place: map<int, nat>, f: nat, o: nat)
    requires o < f && f in place && forall i :: i in place <==> 0 <= i <= f && i != o
    ensures var p := Less(place, f)[o := place[f]]; forall i :: i in p <==> 0 <= i < f
  {
  }

  lemma SwapHashes<K, V>(hash: K -> nat, entries: seq<Entry<K, V>>, o: nat)
    requires o < |entries|
    ensures var hs, gs, f := HashesOf(hash, entries), HashesOf(hash, SwapRemove(entries, o)), |entries| - 1;
            |gs| == f && forall j :: 0 <= j < f ==> gs[j] == if j == o then hs[f] else hs[j]
  {
  }

  lemma AdoptedOk(T: Table, m: nat, hs: seq<nat>, gs: seq<nat>, place: map<int, nat>, f: nat, o: nat, x: nat)
    requires TableOk(T, m, hs, place) && f in place && o !in place && o < f == |gs| < |hs| && hs[f] >= 2
    requires forall i :: i in place ==> 0 <= i <= f
    requires forall j :: 0 <= j < f ==> gs[j] == if j == o then hs[f] else hs[j]
    requires x < |T.hashes| && x == Slot(hs[f], m, place[f])
    ensures T.hashes[x] == hs[f]
    ensures TableOk(Write(T, x, hs[f], o), m, gs, Less(place, f)[o := place[f]])
    ensures Used(Write(T, x, hs[f], o)) == Used(T) && Dead(Write(T, x, hs[f], o)) == Dead(T)
  {
    assert EntryOk(T, m, hs, place, f) && SlotOk(T, m, hs, place, x);
    RenameOk(T, m, hs, gs, place, f, o);
    UsedWrite(T, x, hs[f], o);
  }

  lemma LastIndexed<K(!new), V>(hash: K -> nat, entries: seq<Entry<K, V>>, T: Table, used: nat, tombs: nat,
                                s: nat, place: map<int, nat>, o: nat)
    requires Orphaned(hash, entries, T, used, tombs, s, place, o) && o == |entries| - 1
    ensures Indexed(hash, SwapRemove(entries, o), T, used, tombs, s, place)
  {
    SameHashes(T, Pow2(s), HashesOf(hash, entries), HashesOf(hash, SwapRemove(entries, o)), place);
  }

  // ---- Finding room in a new table ----

  /** One run of the inner loops of `stbds_make_hash_index`: the first empty slot. */
  method EmptyInRun(T: Table, ghost s: nat, ghost h: nat, base: nat, lo: nat, hi: nat, ghost t0: nat)
    returns (r: int, ghost t: nat)
    requires Shaped(T, Pow2(s)) && Run(h, s, base, lo, hi, t0)
    ensures t0 <= t <= t0 + (hi - lo) && forall u :: t0 <= u < t ==> Taken(T, Pow2(s), h, u)
    ensures r == -1 ==> t == t0 + (hi - lo)
    ensures r != -1 ==>
              t < t0 + (hi - lo) && 0 <= r < |T.hashes| && r == Slot(h, Pow2(s), t) && !Taken(T, Pow2(s), h, t)
  {
    var i := lo;
    r, t := -1, t0;
    while i < hi
      invariant lo <= i <= hi && t == t0 + (i - lo)
      invariant forall u :: t0 <= u < t ==> Taken(T, Pow2(s), h, u)
    {
      assert ComesUp(h, s, base, lo, t0, i);
      if T.hashes[base + i] == EMPTY {
        r := base + i;
        return;
      }
      assert Taken(T, Pow2(s), h, t);
      i, t := i + 1, t + 1;
    }
  }

  method EmptyInBucket(T: Table, ghost s: nat, ghost h: nat, pos: nat, ghost k: nat) returns (r: int, ghost t: nat)
    requires Shaped(T, Pow2(s)) && InRound(h, s, pos, k)
    ensures BUCKET * k <= t <= BUCKET * k + BUCKET && forall u :: BUCKET * k <= u < t ==> Taken(T, Pow2(s), h, u)
    ensures r == -1 ==> t == BUCKET * k + BUCKET
    ensures r != -1 ==>
              t < BUCKET * k + BUCKET && 0 <= r < |T.hashes| && r == Slot(h, Pow2(s), t) && !Taken(T, Pow2(s), h, t)
  {
    var base, o := pos / BUCKET * BUCKET, pos % BUCKET;
    Runs(h, s, pos, k, base, o, BUCKET * k, BUCKET * k + (BUCKET - o));
    r, t := EmptyInRun(T, s, h, base, o, BUCKET, BUCKET * k);
    if r == -1 {
      r, t := EmptyInRun(T, s, h, base, 0, o, t);
    }
  }

  /** The probe of `stbds_make_hash_index`. */
  method FindEmpty(T: Table, ghost s: nat, h: nat) returns (r: nat, ghost t: nat)
    requires Shaped(T, Pow2(s)) && |Used(T)| + |Dead(T)| < |T.hashes|
    ensures t < BUCKET * Pow2(s) && Solid(T, Pow2(s), h, t)
    ensures r < |T.hashes| && r == Slot(h, Pow2(s), t) && !Taken(T, Pow2(s), h, t)
  {
    ProbeEnds(T, s, h);
    ghost var last :| 0 <= last < BUCKET * Pow2(s) && !Taken(T, Pow2(s), h, last);
    var pos := StartPos(T, s, h);
    var step := BUCKET;
    ghost var k := 0;
    r, t := 0, 0;
    while true
      invariant InRound(h, s, pos, k) && step == BUCKET * (k + 1) && k < Pow2(s)
      invariant forall u :: 0 <= u < BUCKET * k ==> Taken(T, Pow2(s), h, u)
      decreases Pow2(s) - k
    {
      var x;
      x, t := EmptyInBucket(T, s, h, pos, k);
      if x != -1 {
        r := x;
        return;
      }
      assert last >= BUCKET * (k + 1);
      pos := StepPos(T, s, h, pos, step, k);
      step, k := step + BUCKET, k + 1;
    }
  }

  /** `stbds_probe_position`. */
  method StartPos(T: Table, ghost s: nat, h: nat) returns (pos: nat)
    requires Shaped(T, Pow2(s))
    ensures InRound(h, s, pos, 0)
  {
    FirstRound(h, Pow2(s));
    pos := h % |T.hashes|;
  }

  /** `pos += step; pos &= slot_count - 1`. */
  method StepPos(T: Table, ghost s: nat, h: nat, pos: nat, step: nat, ghost k: nat) returns (next: nat)
    requires Shaped(T, Pow2(s)) && InRound(h, s, pos, k) && step == BUCKET * (k + 1)
    ensures InRound(h, s, next, k + 1)
  {
    NextRound(h, Pow2(s), k, pos);
    next := (pos + step) % |T.hashes|;
  }

  /** `stbds_make_hash_index` with an old table: every slot in use is entered into a blank
      table of `n` slots; deleted slots are left behind. */
  method CopyTable(T: Table, ghost s: nat, ghost place: map<int, nat>, ghost hs: seq<nat>, n: nat, ghost l: nat)
    returns (N: Table, ghost copy: map<int, nat>)
    requires TableOk(T, Pow2(s), hs, place) && n == BUCKET * Pow2(l) && |Used(T)| < n
    requires forall i :: i in place <==> 0 <= i < |hs|
    ensures TableOk(N, Pow2(l), hs, copy) && (forall i :: i in copy <==> 0 <= i < |hs|)
    ensures |Used(N)| == |Used(T)| && Dead(N) == {}
  {
    N, copy := Table(seq(n, _ => EMPTY), seq(n, _ => NO_INDEX)), map[];
    BlankOk(Pow2(l), hs);
    assert N == Blank(Pow2(l));
    assert UsedBelow(T, 0) == {};
    var x := 0;
    while x < |T.hashes|
      invariant 0 <= x <= |T.hashes| && Copied(T, Pow2(s), place, N, Pow2(l), copy, hs, x)
    {
      var i := T.index[x];
      if i >= 0 {
        CopyReads(T, Pow2(s), place, N, Pow2(l), copy, hs, x);
        var y;
        ghost var t;
        y, t := FindEmpty(N, l, T.hashes[x]);
        CopyPut(T, Pow2(s), place, N, Pow2(l), copy, hs, x, t);
        N, copy := Write(N, y, T.hashes[x], i), copy[i := t];
      } else {
        CopySkip(T, Pow2(s), place, N, Pow2(l), copy, hs, x);
      }
      x := x + 1;
    }
    UsedBelowSize(T, x);
    forall i ensures i in copy <==> 0 <= i < |hs| {
      if 0 <= i < |hs| { SlotInRange(hs[i], Pow2(s), place[i]); }
    }
  }

  datatype Op<K, V> = PutOp(key: K, value: V) | DeleteOp(key: K)

  ghost function Effect<K, V>(m: map<K, V>, op: Op<K, V>): map<K, V> {
    match op
    case PutOp(k, v) => m[k := v]
    case DeleteOp(k) => m - {k}
  }

  /** What a sequence of operations makes of a finite map. */
  ghost function Applied<K, V>(m: map<K, V>, ops: seq<Op<K, V>>): map<K, V> {
    if ops == [] then m else Effect(Applied(m, ops[..|ops| - 1]), ops[|ops| - 1])
  }

  class Map<K(==, !new), V> {
    /** The hash of a key under the table's seed, which is never changed. */
    const hash: K -> nat
    /** The dense array, without its default element. */
    var entries: seq<Entry<K, V>>
    /** The slots; none before the first put. */
    var table: Table
    var used: nat
    var tombs: nat

    ghost var log: nat
    ghost var place: map<int, nat>
    ghost var at: map<K, int>

    function HashOf(key: K): (h: nat)
      ensures h >= 2
    {
      Stored(hash(key))
    }

    ghost function Hashes(): seq<nat>
      reads this
    {
      HashesOf(hash, entries)
    }

    ghost predicate Valid()
      reads this
    {
      Sound(hash, entries, table, used, tombs, log, place, at)
    }

    /** The finite map that this is. */
    ghost function Contents(): map<K, V>
      requires Dense(entries, at)
      reads this
    {
      ContentsOf(entries, at)
    }

    constructor (hash: K -> nat)
      ensures Valid() && Tight() && Contents() == map[] && this.hash == hash
    {
      this.hash := hash;
      entries, table, used, tombs := [], Table([], []), 0, 0;
      log, place, at := 0, map[], map[];
    }

    // ---- Probing ----

    /** Offsets `lo` to `hi` of the bucket that starts at slot `base`, in the order of the probe: the
        slot where the search stops, or -1; and a deleted slot if none was met before. */
    method ScanRun(key: K, base: nat, lo: nat, hi: nat, tomb: int, ghost t0: nat, ghost tt0: nat)
      returns (r: int, free: int, ghost t: nat, ghost tt: nat)
      requires Searchable(table, log, entries) && Run(HashOf(key), log, base, lo, hi, t0)
      requires FirstGone(table, log, HashOf(key), tomb, tt0, t0)
      ensures t0 <= t <= t0 + (hi - lo) && forall u :: t0 <= u < t ==> Passes(table, log, entries, HashOf(key), key, u)
      ensures r == -1 ==> t == t0 + (hi - lo)
      ensures r != -1 ==>
                t < t0 + (hi - lo) && 0 <= r < |table.hashes| && r == Slot(HashOf(key), Pow2(log), t) &&
                Stops(table, entries, HashOf(key), key, r)
      ensures FirstGone(table, log, HashOf(key), free, tt, t)
    {
      var i := lo;
      r, free, t, tt := -1, tomb, t0, tt0;
      while i < hi
        invariant lo <= i <= hi && t == t0 + (i - lo)
        invariant forall u :: t0 <= u < t ==> Passes(table, log, entries, HashOf(key), key, u)
        invariant FirstGone(table, log, HashOf(key), free, tt, t)
      {
        assert ComesUp(HashOf(key), log, base, lo, t0, i);
        if Stops(table, entries, HashOf(key), key, base + i) {
          r := base + i;
          return;
        }
        GoneNext(table, log, HashOf(key), free, tt, t, base + i);
        if free < 0 && table.index[base + i] == GONE {
          free, tt := base + i, t;
        }
        i, t := i + 1, t + 1;
      }
    }

    /** One bucket, from `pos` to its end and then from its beginning. */
    method ScanBucket(key: K, pos: nat, tomb: int, ghost k: nat, ghost tt0: nat)
      returns (r: int, free: int, ghost t: nat, ghost tt: nat)
      requires Searchable(table, log, entries) && InRound(HashOf(key), log, pos, k)
      requires FirstGone(table, log, HashOf(key), tomb, tt0, BUCKET * k)
      ensures BUCKET * k <= t <= BUCKET * k + BUCKET
      ensures forall u :: BUCKET * k <= u < t ==> Passes(table, log, entries, HashOf(key), key, u)
      ensures r == -1 ==> t == BUCKET * k + BUCKET
      ensures r != -1 ==>
                t < BUCKET * k + BUCKET && 0 <= r < |table.hashes| && r == Slot(HashOf(key), Pow2(log), t) &&
                Stops(table, entries, HashOf(key), key, r)
      ensures FirstGone(table, log, HashOf(key), free, tt, t)
    {
      var base, o := pos / BUCKET * BUCKET, pos % BUCKET;
      Runs(HashOf(key), log, pos, k, base, o, BUCKET * k, BUCKET * k + (BUCKET - o));
      r, free, t, tt := ScanRun(key, base, o, BUCKET, tomb, BUCKET * k, tt0);
      if r == -1 {
        r, free, t, tt := ScanRun(key, base, 0, o, free, t, tt);
      }
    }

    /** The probe that finding and putting share: the slot where the search for `key` stops,
        and the first deleted slot met on the way, or -1. It ends because some slot is empty and
        every slot comes up. */
    method Probe(key: K) returns (r: nat, free: int, ghost t: nat, ghost tt: nat)
      requires Searchable(table, log, entries)
      ensures t < BUCKET * Pow2(log) && (forall u :: 0 <= u < t ==> Passes(table, log, entries, HashOf(key), key, u))
      ensures r < |table.hashes| && r == Slot(HashOf(key), Pow2(log), t) && Stops(table, entries, HashOf(key), key, r)
      ensures FirstGone(table, log, HashOf(key), free, tt, t)
    {
      ghost var last := LastStep(table, log, entries, HashOf(key), key);
      var pos := StartPos(table, log, HashOf(key));
      var step := BUCKET;
      ghost var k := 0;
      r, free, t, tt := 0, -1, 0, 0;
      while true
        invariant InRound(HashOf(key), log, pos, k) && step == BUCKET * (k + 1) && k < Pow2(log)
        invariant forall u :: 0 <= u < BUCKET * k ==> Passes(table, log, entries, HashOf(key), key, u)
        invariant FirstGone(table, log, HashOf(key), free, tt, BUCKET * k)
        decreases Pow2(log) - k
      {
        var x;
        x, free, t, tt := ScanBucket(key, pos, free, k, tt);
        if x != -1 {
          r := x;
          return;
        }
        assert last >= BUCKET * (k + 1);
        pos := StepPos(table, log, HashOf(key), pos, step, k);
        step, k := step + BUCKET, k + 1;
      }
    }

    /** `stbds_hm_find_slot`. */
    method FindSlot(key: K) returns (r: int, ghost t: nat)
      requires Searchable(table, log, entries)
      ensures t < BUCKET * Pow2(log) && (forall u :: 0 <= u < t ==> Passes(table, log, entries, HashOf(key), key, u))
      ensures var x := Slot(HashOf(key), Pow2(log), t);
              && x < |table.hashes| && Stops(table, entries, HashOf(key), key, x)
              && r == if table.hashes[x] == EMPTY then -1 else x
    {
      var x, free;
      ghost var tt;
      x, free, t, tt := Probe(key);
      return if table.hashes[x] == EMPTY then -1 else x, t;
    }

    lemma ValidSearchable()
      requires Valid() && table.hashes != []
      ensures Searchable(table, log, entries)
    {
      ThresholdsLeaveRoom(log);
      forall x | 0 <= x < |table.hashes| && table.hashes[x] >= 2 ensures 0 <= table.index[x] < |entries| {
        assert SlotOk(table, Pow2(log), Hashes(), place, x);
      }
    }

    /** A search stops at the slot of its key, if the map has it, and otherwise at an empty
        slot. */
    lemma SearchFinds(key: K, t: nat)
      requires Valid() && table.hashes != [] && Searchable(table, log, entries)
      requires t < BUCKET * Pow2(log) && (forall u :: 0 <= u < t ==> Passes(table, log, entries, HashOf(key), key, u))
      requires !Passes(table, log, entries, HashOf(key), key, t)
      ensures var x := Slot(HashOf(key), Pow2(log), t);
              && x < |table.hashes|
              && (key in at <==> table.hashes[x] != EMPTY)
              && (key in at ==>
                    table.index[x] == at[key] && at[key] in place && x == Slot(HashOf(key), Pow2(log), place[at[key]]))
    {
      if key in at {
        SearchHits(table, log, entries, Hashes(), place, key, at[key], t);
      } else {
        SearchMisses(table, log, entries, Hashes(), place, HashOf(key), key, t);
      }
    }

    /** `stbds_hmget_key`: the index of the entry with this key, or -1. */
    method Get(key: K) returns (i: int)
      requires Valid()
      ensures i == if key in at then at[key] else -1
      ensures key in Contents() <==> i >= 0
      ensures i >= 0 ==> i < |entries| && entries[i].key == key && Contents()[key] == entries[i].value
    {
      if table.hashes == [] {
        return -1;
      }
      ValidSearchable();
      var r;
      ghost var t;
      r, t := FindSlot(key);
      SearchFinds(key, t);
      return if r < 0 then -1 else table.index[r];
    }

    /** Replace the table by one of `n` slots. */
    method Rehash(n: nat, ghost l: nat)
      requires Indexed(hash, entries, table, used, tombs, log, place) && n == BUCKET * Pow2(l) && used < n
      modifies `table, `tombs, `log, `place
      ensures Indexed(hash, entries, table, used, tombs, log, place) && tombs == 0 && |table.hashes| == n && log == l
    {
      ghost var copy;
      table, copy := CopyTable(table, log, place, Hashes(), n, l);
      tombs, log, place := 0, l, copy;
    }

    /** The growth step of `stbds_hmput_key`. */
    method MakeRoom()
      requires Valid()
      modifies `table, `tombs, `log, `place
      ensures Valid() && table.hashes != [] && used < UsedMax(|table.hashes|)
      ensures |table.hashes| == PutSlots(|old(table).hashes|, used)
    {
      if table.hashes == [] {
        table, log, place := Table(seq(BUCKET, _ => EMPTY), seq(BUCKET, _ => NO_INDEX)), 0, map[];
        BlankOk(1, Hashes());
        assert table == Blank(1);
      } else if used >= UsedMax(|table.hashes|) {
        ResizeRoom(log, used);
        Rehash(2 * |table.hashes|, log + 1);
      }
    }

    /** A new entry goes into the deleted slot its probe met first, or else into the empty
        slot where the probe ended. */
    method AddEntry(key: K, value: V, pos: nat, ghost t: nat)
      requires Valid() && table.hashes != [] && used < UsedMax(|table.hashes|) && key !in at
      requires t < BUCKET * Pow2(log) && Solid(table, Pow2(log), HashOf(key), t)
      requires pos < |table.hashes| && pos == Slot(HashOf(key), Pow2(log), t) && table.hashes[pos] < 2
      modifies this
      ensures Valid() && entries == old(entries) + [Entry(key, value)] && at == old(at)[key := |old(entries)|]
      ensures |table.hashes| == |old(table).hashes| && used == old(used) + 1
    {
      var h := HashOf(key);
      AddSound(hash, entries, table, used, tombs, log, place, at, key, value, pos, t);
      Append(key, value, pos, h, if table.index[pos] == GONE then tombs - 1 else tombs, t);
    }

    /** The writes of it. */
    method Append(key: K, value: V, pos: nat, h: nat, left: nat, ghost t: nat)
      requires pos < |table.hashes| && pos < |table.index|
      modifies this
      ensures used == old(used) + 1 && tombs == left && entries == old(entries) + [Entry(key, value)] && log == old(log)
      ensures table == Write(old(table), pos, h, |old(entries)|)
      ensures place == old(place)[|old(entries)| := t] && at == old(at)[key := |old(entries)|]
    {
      var i := |entries|;
      used, tombs := used + 1, left;
      entries := entries + [Entry(key, value)];
      table, place, at := Write(table, pos, h, i), place[i := t], at[key := i];
    }

    /** `hmput`: the entry for `key` is updated, or added at the end. */
    method Put(key: K, value: V) returns (i: nat)
      requires Valid()
      modifies this
      ensures Valid() && Contents() == old(Contents())[key := value]
      ensures key in at && i == at[key]
      ensures entries == if key in old(at) then old(entries)[old(at)[key] := Entry(key, value)]
                         else old(entries) + [Entry(key, value)]
      ensures |table.hashes| == PutSlots(|old(table).hashes|, old(used))
      ensures used == old(used) + if key in old(at) then 0 else 1
    {
      MakeRoom();
      var x, free;
      ghost var t, tt;
      x, free, t, tt := Locate(key);
      if table.hashes[x] != EMPTY {
        i := table.index[x];
        UpdateEntry(i, value);
      } else {
        i := |entries|;
        PutNew(key, value, x, free, t, tt);
      }
    }

    /** The probe of `stbds_hmput_key`: it ends at the slot of the key if the map has it. */
    method Locate(key: K) returns (x: nat, free: int, ghost t: nat, ghost tt: nat)
      requires Valid() && table.hashes != []
      ensures Searchable(table, log, entries) && t < BUCKET * Pow2(log)
      ensures forall u :: 0 <= u < t ==> Passes(table, log, entries, HashOf(key), key, u)
      ensures x < |table.hashes| && x == Slot(HashOf(key), Pow2(log), t)
      ensures FirstGone(table, log, HashOf(key), free, tt, t)
      ensures key in at <==> table.hashes[x] != EMPTY
      ensures key in at ==> table.index[x] == at[key]
    {
      ValidSearchable();
      x, free, t, tt := Probe(key);
      SearchFinds(key, t);
    }

    /** The end of `stbds_hmput_key`, when the key is not there yet. */
    method PutNew(key: K, value: V, x: nat, free: int, ghost t: nat, ghost tt: nat)
      requires Valid() && table.hashes != [] && used < UsedMax(|table.hashes|) && key !in at
      requires Searchable(table, log, entries) && t < BUCKET * Pow2(log)
      requires forall u :: 0 <= u < t ==> Passes(table, log, entries, HashOf(key), key, u)
      requires x < |table.hashes| && x == Slot(HashOf(key), Pow2(log), t) && table.hashes[x] == EMPTY
      requires FirstGone(table, log, HashOf(key), free, tt, t)
      modifies this
      ensures Valid() && entries == old(entries) + [Entry(key, value)] && at == old(at)[key := |old(entries)|]
      ensures Contents() == old(Contents())[key := value]
      ensures |table.hashes| == |old(table).hashes| && used == old(used) + 1
    {
      AddDense(entries, at, key, value);
      if free >= 0 {
        PassedSolid(table, log, entries, HashOf(key), key, tt);
        assert SlotOk(table, Pow2(log), Hashes(), place, free);
        AddEntry(key, value, free, tt);
      } else {
        PassedSolid(table, log, entries, HashOf(key), key, t);
        AddEntry(key, value, x, t);
      }
    }

    method UpdateEntry(i: nat, value: V)
      requires Valid() && i < |entries|
      modifies `entries
      ensures Valid() && entries == old(entries)[i := Entry(old(entries)[i].key, value)]
      ensures Contents() == old(Contents())[old(entries)[i].key := value]
    {
      UpdateDense(entries, at, i, value);
      assert HashesOf(hash, entries[i := Entry(entries[i].key, value)]) == Hashes();
      entries := entries[i := Entry(entries[i].key, value)];
    }

    /** `stbds_hmdel_key`, the last entry moves into the gap: its slot is found again by its
        key and re-pointed. */
    method Adopt(o: nat)
      requires Dense(entries, at) && Orphaned(hash, entries, table, used, tombs, log, place, o) && o < |entries| - 1
      modifies `entries, `table, `place, `at
      ensures entries == SwapRemove(old(entries), o) && at == SwapAt(old(entries), old(at), o)
      ensures Indexed(hash, entries, table, used, tombs, log, place) && |table.hashes| == |old(table).hashes|
    {
      ghost var was := entries;
      var f := |entries| - 1;
      OrphanSearchable(hash, was, table, used, tombs, log, place, o);
      entries := entries[o := entries[f]];
      var slot;
      ghost var t;
      slot, t := FindSlot(entries[o].key);
      OrphanSearch(hash, was, table, used, tombs, log, place, at, o, t);
      assert slot >= 0 && table.index[slot] == f;
      AdoptedIndexed(hash, was, table, used, tombs, log, place, o, slot);
      Repoint(slot, f, o, was);
    }

    /** The slot of the moved entry names its new place, and the array loses its end. */
    method Repoint(slot: nat, f: nat, o: nat, ghost was: seq<Entry<K, V>>)
      requires slot < |table.hashes| && slot < |table.index| && f == |was| - 1 && o < f && f in place
      requires entries == was[o := was[f]]
      modifies `entries, `table, `place, `at
      ensures entries == SwapRemove(was, o) && at == SwapAt(was, old(at), o)
      ensures table == Write(old(table), slot, old(table).hashes[slot], o)
      ensures place == Less(old(place), f)[o := old(place)[f]]
    {
      table := Write(table, slot, table.hashes[slot], o);
      place, at := Less(place, f)[o := place[f]], SwapAt(was, at, o);
      entries := entries[..f];
    }

    /** The entry at `o`, in slot `x`, is taken out; array and index agree again. */
    method TakeOut(o: nat, x: nat)
      requires Valid() && table.hashes != []
      requires o < |entries| && o in place && x == Slot(HashOf(entries[o].key), Pow2(log), place[o])
      requires x < |table.hashes|
      modifies `entries, `table, `used, `tombs, `place, `at
      ensures entries == SwapRemove(old(entries), o) && at == SwapAt(old(entries), old(at), o)
      ensures Dense(entries, at) && ContentsOf(entries, at) == old(Contents()) - {old(entries)[o].key}
      ensures Indexed(hash, entries, table, used, tombs, log, place) && |table.hashes| == |old(table).hashes|
      ensures used == old(used) - 1 && tombs == old(tombs) + 1
    {
      OrphanSound(hash, entries, table, used, tombs, log, place, at, o);
      SwapDense(entries, at, o);
      used, tombs := used - 1, tombs + 1;
      table, place := Write(table, x, DELETED, GONE), Less(place, o);
      if o != |entries| - 1 {
        Adopt(o);
      } else {
        DropLast(o);
      }
    }

    method DropLast(o: nat)
      requires Orphaned(hash, entries, table, used, tombs, log, place, o) && o == |entries| - 1
      modifies `entries, `at
      ensures entries == SwapRemove(old(entries), o) && at == SwapAt(old(entries), old(at), o)
      ensures Indexed(hash, entries, table, used, tombs, log, place)
    {
      LastIndexed(hash, entries, table, used, tombs, log, place, o);
      at := SwapAt(entries, at, o);
      entries := entries[..|entries| - 1];
    }

    /** `stbds_hmdel_key`. The table shrinks when it is sparse, and is rebuilt when too many
        of its slots are deleted ones. */
    method Delete(key: K) returns (found: bool)
      requires Valid()
      modifies this
      ensures Valid() && Contents() == old(Contents()) - {key}
      ensures found <==> key in old(at)
      ensures entries == if found then SwapRemove(old(entries), old(at)[key]) else old(entries)
      ensures found ==> used + 1 == old(used) && |table.hashes| == DeleteSlots(|old(table).hashes|, used)
      ensures !found ==> used == old(used) && table == old(table)
    {
      if table.hashes == [] {
        return false;
      }
      ValidSearchable();
      var slot;
      ghost var t;
      slot, t := FindSlot(key);
      SearchFinds(key, t);
      if slot < 0 {
        NothingToRemove(ContentsOf(entries, at), key);
        return false;
      }
      TakeOut(table.index[slot], slot);
      Rebalance(old(used), old(tombs));
      return true;
    }

    /** The end of `stbds_hmdel_key`: shrink or rebuild. */
    method Rebalance(ghost used0: nat, ghost tombs0: nat)
      requires Dense(entries, at) && Indexed(hash, entries, table, used, tombs, log, place) && table.hashes != []
      requires used + 1 == used0 <= UsedMax(|table.hashes|) && tombs == tombs0 + 1
      modifies `table, `tombs, `log, `place
      ensures Valid() && |table.hashes| == DeleteSlots(|old(table).hashes|, used)
    {
      ResizeRoom(log, used);
      ThresholdsLeaveRoom(log);
      var n := |table.hashes|;
      if used < ShrinkMin(n) && n > BUCKET {
        Rehash(n / 2, log - 1);
      } else if tombs > TombMax(n) {
        Rehash(n, log);
      }
    }

    // ---- Whole runs ----

    /** The table takes space in proportion to the entries. */
    ghost predicate Tight()
      reads this
    {
      Lean(|table.hashes|, used)
    }

    lemma SlotsWhole()
      requires Valid()
      ensures |table.hashes| % BUCKET == 0
    {
      if table.hashes != [] { DivExact(Pow2(log), BUCKET); }
    }

    method Perform(op: Op<K, V>)
      requires Valid()
      modifies this
      ensures Valid() && Contents() == Effect(old(Contents()), op) && (old(Tight()) ==> Tight())
    {
      SlotsWhole();
      if Tight() {
        PutLean(|table.hashes|, used);
        if used > 0 { DeleteLean(|table.hashes|, used - 1); }
      }
      match op
      case PutOp(k, v) => var i := Put(k, v);
      case DeleteOp(k) => var found := Delete(k);
    }

    /** Any sequence of puts and deletes leaves the map that the same sequence makes of a
        finite map, in a table of at most eight slots or four times as many as entries. */
    method Replay(ops: seq<Op<K, V>>)
      requires Valid()
      modifies this
      ensures Valid() && Contents() == Applied(old(Contents()), ops) && (old(Tight()) ==> Tight())
    {
      var n := 0;
      ghost var start, now := Contents(), Contents();
      assert ops[..0] == [];
      while n < |ops|
        invariant old(Tight()) ==> Tight()
        invariant 0 <= n <= |ops| && Valid() && now == Contents() && now == Applied(start, ops[..n])
      {
        assert ops[..n + 1][..n] == ops[..n];
        Perform(ops[n]);
        now := Contents();
        n := n + 1;
      }
      assert ops[..n] == ops;
    }
  }
}
