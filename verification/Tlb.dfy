/** Unmapping with a shootdown of the other cores' translation caches
    (src/kernel/mem/virt.c, src/kernel/lib/ipi.c). Cores may load a translation that the page
    table holds, or lose one, at any time. The lock on the address space lets one core at a
    time unmap. */
module Tlb {
  import opened Lists

  /** A page-table entry; the frame stays in it while `present` is clear. */
  datatype Pte = Pte(frame: int, present: bool, global: bool)

  /** A cached translation. */
  datatype Cached = Cached(frame: int, global: bool)

  type Cache = map<int, Cached>

  const LIST: nat := 64
  const FLUSH_ALL: nat := 0xFF

  /** Where the unmapping core is in `virt_unmap`. */
  datatype Pc =
    | Clear(i: nat)                  // first loop
    | Queue(i: nat, global: bool)    // tlb_invl_queue, the entry's P bit is clear
    | Commit
    | Wait                           // ipi_broadcast
    | Release(i: nat)                // second loop

  datatype Op = Op(me: int, base: int, n: nat, free: bool, pc: Pc)

  /** `pending`: cores whose interrupt is still to be handled; `flushed`: cores that have
      flushed but not yet counted themselves out. */
  datatype Sys = Sys(
    pte: map<int, Pte>, cache: map<int, Cache>, pool: set<int>, op: Option<Op>,
    addrs: seq<int>, count: nat, global: bool, waiters: nat, pending: set<int>, flushed: set<int>, fault: bool)

  datatype Event =
    | Load(c: int, p: int)
    | Evict(c: int, p: int)
    | Map(p: int, f: int, g: bool)
    | MakeGlobal(p: int)
    | Unmap(c: int, base: int, n: nat, free: bool)
    | Next                           // the unmapping core's next step
    | Handle(c: int)                 // virt_handle_tlb_flush_ipi on core c
    | Count(c: int)                  // m_ipi_waiter_count--

  predicate Can(s: Sys, v: Event) {
    && !s.fault
    && match v
       case Load(c, p) => c in s.cache && p in s.pte && s.pte[p].present
       case Evict(c, p) => c in s.cache
       case Map(p, f, _) => s.op.None? && p !in s.pte && f in s.pool
       case MakeGlobal(p) => p in s.pte && s.pte[p].present
       case Unmap(c, _, _, _) => s.op.None? && c in s.cache
       case Next => s.op.Some? && (s.op.value.pc == Wait ==> s.waiters == 0)
       case Handle(c) => c in s.pending
       case Count(c) => c in s.flushed && s.waiters > 0
  }

  function Without(m: Cache, p: int): Cache { map q | q in m && q != p :: m[q] }

  /** `invlpg` of the listed addresses. */
  function WithoutAll(m: Cache, ps: seq<int>): Cache { map q | q in m && q !in ps :: m[q] }

  /** `invpcid`: all translations, or all but the global ones. */
  function Purged(m: Cache, global: bool): Cache { map q | q in m && !global && m[q].global :: m[q] }

  function SetPc(s: Sys, pc: Pc): Sys
    requires s.op.Some?
  {
    s.(op := Some(s.op.value.(pc := pc)))
  }

  /** `tlb_invl_queue`. */
  function Queued(s: Sys, me: int, p: int, g: bool): Sys
    requires me in s.cache
  {
    var t := s.(cache := s.cache[me := Without(s.cache[me], p)], global := s.global || g);
    if t.count >= LIST then t.(count := FLUSH_ALL)
    else t.(addrs := if t.count < |t.addrs| then t.addrs[t.count := p] else t.addrs, count := t.count + 1)
  }

  /** `virt_handle_tlb_flush_ipi`. */
  function Flushed(s: Sys, c: int): Sys
    requires c in s.cache
  {
    if s.count == 0 || (s.count != FLUSH_ALL && s.count > |s.addrs|) then s.(fault := true)
    else
      var m := if s.count == FLUSH_ALL then Purged(s.cache[c], s.global)
               else WithoutAll(s.cache[c], s.addrs[..s.count]);
      s.(cache := s.cache[c := m], pending := s.pending - {c}, flushed := s.flushed + {c})
  }

  function Step(s: Sys): Sys
    requires s.op.Some?
  {
    var o := s.op.value;
    match o.pc
    case Clear(i) =>
      var p := o.base + i;
      if i >= o.n then SetPc(s, Commit)
      else if p !in s.pte || !s.pte[p].present then SetPc(s, Clear(i + 1))
      else SetPc(s.(pte := s.pte[p := s.pte[p].(present := false)]), Queue(i, s.pte[p].global))
    case Queue(i, g) => if o.me in s.cache then SetPc(Queued(s, o.me, o.base + i, g), Clear(i + 1)) else s
    case Commit =>
      if s.count == 0 then SetPc(s, Release(0))
      else SetPc(s.(waiters := |s.cache.Keys - {o.me}|, pending := s.cache.Keys - {o.me}, flushed := {}), Wait)
    case Wait => SetPc(s.(count := 0, global := false), Release(0))
    case Release(i) =>
      var p := o.base + i;
      if i >= o.n then s.(op := None)
      else if p !in s.pte then SetPc(s, Release(i + 1))
      else
        SetPc(s.(pte := map q | q in s.pte && q != p :: s.pte[q],
                 pool := if o.free then s.pool + {s.pte[p].frame} else s.pool), Release(i + 1))
  }

  function Do(s: Sys, v: Event): Sys
    requires Can(s, v)
  {
    match v
    case Load(c, p) => s.(cache := s.cache[c := s.cache[c][p := Cached(s.pte[p].frame, s.pte[p].global)]])
    case Evict(c, p) => s.(cache := s.cache[c := Without(s.cache[c], p)])
    case Map(p, f, g) => s.(pte := s.pte[p := Pte(f, true, g)], pool := s.pool - {f})
    case MakeGlobal(p) => s.(pte := s.pte[p := s.pte[p].(global := true)])
    case Unmap(c, base, n, free) => s.(op := Some(Op(c, base, n, free, Clear(0))))
    case Next => Step(s)
    case Handle(c) => if c in s.cache then Flushed(s, c) else s
    case Count(c) => s.(waiters := s.waiters - 1, flushed := s.flushed - {c})
  }

  // ---- The invariant ----

  /** The flush under way will reach this translation. */
  predicate Covered(s: Sys, p: int, x: Cached) {
    && (x.global ==> s.global)
    && (s.count != FLUSH_ALL ==> s.count <= |s.addrs| && p in s.addrs[..s.count])
  }

  /** Core `c` may still have a translation for page `p` although its P bit is clear. */
  predicate Excused(s: Sys, c: int, p: int, x: Cached)
    requires p in s.pte
  {
    && s.op.Some?
    && var o := s.op.value;
    match o.pc
    case Clear(_) => c != o.me && Covered(s, p, x)
    case Queue(i, _) => if p == o.base + i then x.global ==> s.pte[p].global else c != o.me && Covered(s, p, x)
    case Commit => c != o.me && Covered(s, p, x)
    case Wait => c in s.pending && Covered(s, p, x)
    case Release(_) => false
  }

  /** A cached translation is one that the page table has, or had until just now. */
  predicate CachedOk(s: Sys, c: int, p: int) {
    && c in s.cache && p in s.cache[c] && p in s.pte
    && var x := s.cache[c][p];
    && s.pte[p].frame == x.frame
    && (if s.pte[p].present then x.global ==> s.pte[p].global else Excused(s, c, p, x))
  }

  predicate Within(o: Op, p: int, k: nat) { o.base <= p < o.base + o.n && p < o.base + k }

  /** How far the unmapping has got. */
  predicate OpOk(s: Sys) {
    if s.op.None? then s.count == 0 && !s.global
    else
      var o := s.op.value;
      && o.me in s.cache
      && match o.pc
         case Clear(i) => true
         case Queue(i, g) => i < o.n && o.base + i in s.pte && !s.pte[o.base + i].present &&
                             s.pte[o.base + i].global == g
         case Commit => true
         case Wait => s.count != 0 && s.pending <= s.cache.Keys && s.pending !! s.flushed &&
                      s.waiters == |s.pending| + |s.flushed|
         case Release(_) => s.count == 0 && !s.global
  }

  /** Pages `p` whose P bit is clear are those the loop has dealt with. */
  predicate Dealt(s: Sys, p: int) {
    && s.op.Some?
    && var o := s.op.value;
    match o.pc
    case Clear(i) => Within(o, p, i)
    case Queue(i, _) => Within(o, p, i + 1)
    case _ => Within(o, p, o.n)
  }

  /** The second loop is past page `p`. */
  predicate Released(s: Sys, p: int) { s.op.Some? && s.op.value.pc.Release? && Within(s.op.value, p, s.op.value.pc.i) }

  ghost predicate PagesOk(s: Sys) {
    && (forall p :: p in s.pte ==> s.pte[p].frame !in s.pool)
    && (forall p, q :: p in s.pte && q in s.pte && p != q ==> s.pte[p].frame != s.pte[q].frame)
    && (forall p :: p in s.pte ==> (s.pte[p].present <==> !Dealt(s, p)))
    && (forall p :: p in s.pte ==> !Released(s, p))
  }

  ghost predicate CachesOk(s: Sys) {
    forall c, p :: c in s.cache && p in s.cache[c] ==> CachedOk(s, c, p)
  }

  ghost predicate Good(s: Sys) {
    && !s.fault && |s.addrs| == LIST && (s.count <= LIST || s.count == FLUSH_ALL) && (s.count == 0 ==> !s.global)
    && (s.op.None? || s.op.value.pc != Wait ==> s.pending == {} && s.flushed == {})
    && OpOk(s) && PagesOk(s) && CachesOk(s)
  }

  // ---- Every step keeps it ----

  lemma LoadGood(s: Sys, v: Event)
    requires Good(s) && Can(s, v) && (v.Load? || v.Evict?)
    ensures Good(Do(s, v))
  {
    var r := Do(s, v);
    forall c, p | c in r.cache && p in r.cache[c] ensures CachedOk(r, c, p) {
      if p in s.cache[c] { assert CachedOk(s, c, p); }
    }
    forall p | p in r.pte ensures Dealt(r, p) <==> Dealt(s, p) { }
  }

  lemma PageGood(s: Sys, v: Event)
    requires Good(s) && Can(s, v) && (v.Map? || v.MakeGlobal?)
    ensures Good(Do(s, v))
  {
    var r := Do(s, v);
    forall c, p | c in r.cache && p in r.cache[c] ensures CachedOk(r, c, p) {
      assert CachedOk(s, c, p);
    }
    forall p ensures Dealt(r, p) <==> Dealt(s, p) { }
  }

  lemma UnmapGood(s: Sys, v: Event)
    requires Good(s) && Can(s, v) && v.Unmap?
    ensures Good(Do(s, v))
  {
    var r := Do(s, v);
    forall c, p | c in r.cache && p in r.cache[c] ensures CachedOk(r, c, p) {
      assert CachedOk(s, c, p);
    }
    forall p ensures !Dealt(r, p) && !Dealt(s, p) { }
  }

  lemma ClearSkips(s: Sys)
    requires Good(s) && s.op.Some? && s.op.value.pc.Clear?
    requires var p := s.op.value.base + s.op.value.pc.i;
             s.op.value.pc.i >= s.op.value.n || p !in s.pte || !s.pte[p].present
    ensures Good(Step(s))
  {
    var r, o, i := Step(s), s.op.value, s.op.value.pc.i;
    forall c, p | c in r.cache && p in r.cache[c] ensures CachedOk(r, c, p) {
      assert CachedOk(s, c, p);
    }
    forall p | p in s.pte ensures Dealt(r, p) <==> Dealt(s, p) {
      assert s.pte[p].present <==> !Dealt(s, p);
    }
  }

  lemma ClearsPage(s: Sys)
    requires Good(s) && s.op.Some? && s.op.value.pc.Clear? && s.op.value.pc.i < s.op.value.n
    requires var p := s.op.value.base + s.op.value.pc.i; p in s.pte && s.pte[p].present
    ensures Good(Step(s))
  {
    var r, o, i := Step(s), s.op.value, s.op.value.pc.i;
    forall c, p | c in r.cache && p in r.cache[c] ensures CachedOk(r, c, p) {
      assert CachedOk(s, c, p);
    }
    forall p ensures Dealt(r, p) <==> Dealt(s, p) || p == o.base + i { }
  }

  lemma ClearGood(s: Sys)
    requires Good(s) && s.op.Some? && s.op.value.pc.Clear?
    ensures Good(Step(s))
  {
    var p := s.op.value.base + s.op.value.pc.i;
    if s.op.value.pc.i < s.op.value.n && p in s.pte && s.pte[p].present { ClearsPage(s); } else { ClearSkips(s); }
  }

  lemma QueueGood(s: Sys)
    requires Good(s) && s.op.Some? && s.op.value.pc.Queue?
    ensures Good(Step(s))
  {
    var r, o, i := Step(s), s.op.value, s.op.value.pc.i;
    forall c, p | c in r.cache && p in r.cache[c] ensures CachedOk(r, c, p) {
      assert CachedOk(s, c, p);
      if !s.pte[p].present { QueueCovers(s, r, c, p); }
    }
    forall p ensures Dealt(r, p) <==> Dealt(s, p) { }
  }

  /** Queueing a page covers it and uncovers none. */
  lemma QueueCovers(s: Sys, r: Sys, c: int, p: int)
    requires Good(s) && s.op.Some? && s.op.value.pc.Queue? && r == Step(s)
    requires c in r.cache && p in r.cache[c] && CachedOk(s, c, p) && !s.pte[p].present
    ensures c != s.op.value.me && Covered(r, p, r.cache[c][p])
  {
    var o, i := s.op.value, s.op.value.pc.i;
    if r.count != FLUSH_ALL {
      assert r.count == s.count + 1 && r.addrs == s.addrs[s.count := o.base + i];
      assert r.addrs[..r.count] == s.addrs[..s.count] + [o.base + i];
    }
  }

  lemma CommitGood(s: Sys)
    requires Good(s) && s.op.Some? && s.op.value.pc == Commit
    ensures Good(Step(s))
  {
    var r := Step(s);
    forall c, p | c in r.cache && p in r.cache[c] ensures CachedOk(r, c, p) {
      assert CachedOk(s, c, p);
    }
    forall p ensures Dealt(r, p) <==> Dealt(s, p) { }
  }

  lemma WaitGood(s: Sys)
    requires Good(s) && s.op.Some? && s.op.value.pc == Wait && s.waiters == 0
    ensures Good(Step(s))
  {
    var r := Step(s);
    assert s.pending == {} && s.flushed == {};
    forall c, p | c in r.cache && p in r.cache[c] ensures CachedOk(r, c, p) {
      assert CachedOk(s, c, p);
    }
    forall p ensures Dealt(r, p) <==> Dealt(s, p) { }
  }

  lemma ReleaseGood(s: Sys)
    requires Good(s) && s.op.Some? && s.op.value.pc.Release?
    ensures Good(Step(s))
  {
    var r := Step(s);
    forall c, p | c in r.cache && p in r.cache[c] ensures CachedOk(r, c, p) {
      assert CachedOk(s, c, p);
    }
    forall p | p in r.pte ensures (r.pte[p].present <==> !Dealt(r, p)) && !Released(r, p) {
      assert s.pte[p].present <==> !Dealt(s, p);
      assert !Released(s, p);
    }
  }

  lemma HandleGood(s: Sys, c: int)
    requires Good(s) && Can(s, Handle(c))
    ensures Good(Do(s, Handle(c)))
  {
    var r := Do(s, Handle(c));
    forall d, p | d in r.cache && p in r.cache[d] ensures CachedOk(r, d, p) {
      assert CachedOk(s, d, p);
    }
    forall p ensures Dealt(r, p) <==> Dealt(s, p) { }
  }

  lemma CountGood(s: Sys, c: int)
    requires Good(s) && Can(s, Count(c))
    ensures Good(Do(s, Count(c)))
  {
    var r := Do(s, Count(c));
    forall d, p | d in r.cache && p in r.cache[d] ensures CachedOk(r, d, p) {
      assert CachedOk(s, d, p);
    }
    forall p ensures Dealt(r, p) <==> Dealt(s, p) { }
  }

  /** Every step keeps the invariant; in particular the assertions of the interrupt handler
      hold. */
  lemma StepGood(s: Sys, v: Event)
    requires Good(s) && Can(s, v)
    ensures Good(Do(s, v))
  {
    match v
    case Load(_, _) => LoadGood(s, v);
    case Evict(_, _) => LoadGood(s, v);
    case Map(_, _, _) => PageGood(s, v);
    case MakeGlobal(_) => PageGood(s, v);
    case Unmap(_, _, _, _) => UnmapGood(s, v);
    case Handle(c) => HandleGood(s, c);
    case Count(c) => CountGood(s, c);
    case Next =>
      match s.op.value.pc
      case Clear(_) => ClearGood(s);
      case Queue(_, _) => QueueGood(s);
      case Commit => CommitGood(s);
      case Wait => WaitGood(s);
      case Release(_) => ReleaseGood(s);
  }

  // ---- Runs ----

  ghost predicate Init(s: Sys) {
    && s.op.None? && !s.fault && |s.addrs| == LIST && s.count == 0 && !s.global && s.pending == {} && s.flushed == {}
    && s.pte == map[] && (forall c :: c in s.cache ==> s.cache[c] == map[])
  }

  ghost predicate Enabled(s: Sys, run: seq<Event>)
    decreases |run|
  {
    run == [] || (Can(s, run[0]) && Enabled(Do(s, run[0]), run[1..]))
  }

  ghost function Final(s: Sys, run: seq<Event>): Sys
    requires Enabled(s, run)
    decreases |run|
  {
    if run == [] then s else Final(Do(s, run[0]), run[1..])
  }

  lemma {:induction false} RunGood(s: Sys, run: seq<Event>)
    requires Good(s) && Enabled(s, run)
    ensures Good(Final(s, run))
    decreases |run|
  {
    if run != [] {
      StepGood(s, run[0]);
      RunGood(Do(s, run[0]), run[1..]);
    }
  }

  /** In every run, once an unmapping has committed, no core has a translation for any page of
      its range, however many pages there are and whatever was loaded meanwhile. */
  lemma CommitReachesAll(s: Sys, run: seq<Event>, c: int, p: int)
    requires Init(s) && Enabled(s, run)
    ensures var r := Final(s, run);
            r.op.Some? && r.op.value.pc.Release? && Within(r.op.value, p, r.op.value.n) && c in r.cache ==>
              p !in r.cache[c]
  {
    RunGood(s, run);
    var r := Final(s, run);
    if c in r.cache && p in r.cache[c] { assert CachedOk(r, c, p); }
  }

  /** In every state of every run no core can reach a frame in the pool, and the handler's
      assertions have not failed. */
  lemma FreeFramesUnreachable(s: Sys, run: seq<Event>, c: int, p: int)
    requires Init(s) && Enabled(s, run)
    ensures var r := Final(s, run);
            !r.fault && (c in r.cache && p in r.cache[c] ==> r.cache[c][p].frame !in r.pool)
  {
    RunGood(s, run);
    var r := Final(s, run);
    if c in r.cache && p in r.cache[c] { assert CachedOk(r, c, p); }
  }

  // ---- What a whole call of `virt_unmap` does ----

  /** The frames that pages `base` to `base + k` had. */
  function Frames(s: Sys, base: int, k: int): set<int> {
    set p | p in s.pte && base <= p < base + k :: s.pte[p].frame
  }

  /** Page `p` has an entry for the same frame in both, or in neither. */
  predicate SamePage(s: Sys, r: Sys, p: int) {
    (p in s.pte <==> p in r.pte) && (p in s.pte ==> r.pte[p].frame == s.pte[p].frame)
  }

  /** How many pages the second loop is past. */
  function Past(s: Sys): nat {
    if s.op.Some? && s.op.value.pc.Release? then
      if s.op.value.pc.i < s.op.value.n then s.op.value.pc.i else s.op.value.n
    else 0
  }

  /** `r` is on the way of a call made in `s`: the entries of the pages that the second loop is
      past are gone, and no other, and the pool has gained their frames if they are to be freed. */
  ghost predicate During(s: Sys, r: Sys, c: int, base: int, n: nat, free: bool) {
    && r.op.Some? && r.op.value == Op(c, base, n, free, r.op.value.pc)
    && (forall p :: if base <= p < base + Past(r) then p !in r.pte else SamePage(s, r, p))
    && r.pool == s.pool + if free then Frames(s, base, Past(r)) else {}
  }

  /** The call made in `s` is over in `r`. */
  ghost predicate Unmapped(s: Sys, r: Sys, base: int, n: nat, free: bool) {
    && r.op.None?
    && (forall p :: if base <= p < base + n then p !in r.pte else SamePage(s, r, p))
    && (forall p :: p in r.pte ==> r.pte[p].present)
    && (forall d, p :: d in r.cache && base <= p < base + n ==> p !in r.cache[d])
    && r.pool == s.pool + if free then Frames(s, base, n) else {}
  }

  lemma FramesNext(s: Sys, base: int, k: nat)
    ensures Frames(s, base, k + 1) == Frames(s, base, k) + if base + k in s.pte then {s.pte[base + k].frame} else {}
    ensures Frames(s, base, 0) == {}
  {
  }

  /** One turn of the second loop. */
  lemma ReleasePages(s: Sys, r: Sys, c: int, base: int, n: nat, free: bool)
    requires During(s, r, c, base, n, free) && r.op.value.pc.Release? && r.op.value.pc.i < n
    ensures var x := Step(r);
            && Past(x) == Past(r) + 1
            && forall p :: if base <= p < base + Past(x) then p !in x.pte else SamePage(s, x, p)
  {
    var x, i := Step(r), r.op.value.pc.i;
    forall p ensures if base <= p < base + Past(x) then p !in x.pte else SamePage(s, x, p) {
      assert if base <= p < base + Past(r) then p !in r.pte else SamePage(s, r, p);
    }
  }

  lemma ReleasePool(s: Sys, r: Sys, c: int, base: int, n: nat, free: bool)
    requires During(s, r, c, base, n, free) && r.op.value.pc.Release? && r.op.value.pc.i < n
    ensures Step(r).pool == s.pool + if free then Frames(s, base, Past(r) + 1) else {}
  {
    var i := r.op.value.pc.i;
    FramesNext(s, base, i);
    assert SamePage(s, r, base + i);
  }

  /** Any other step leaves entries and pool alone. */
  lemma OtherDuring(s: Sys, r: Sys, v: Event, c: int, base: int, n: nat, free: bool)
    requires Can(r, v) && During(s, r, c, base, n, free) && (v.Next? ==> !r.op.value.pc.Release?)
    ensures During(s, Do(r, v), c, base, n, free)
  {
    OtherSame(r, v);
    var x := Do(r, v);
    forall p ensures if base <= p < base + Past(x) then p !in x.pte else SamePage(s, x, p) {
      assert if base <= p < base + Past(r) then p !in r.pte else SamePage(s, r, p);
      OtherPage(r, v, p);
    }
  }

  lemma OtherSame(r: Sys, v: Event)
    requires Can(r, v) && r.op.Some? && (v.Next? ==> !r.op.value.pc.Release?)
    ensures var x := Do(r, v);
            x.op.Some? && x.op.value == r.op.value.(pc := x.op.value.pc) && Past(x) == Past(r) && x.pool == r.pool
  {
    if v.Next? { StepSame(r); }
  }

  lemma StepSame(r: Sys)
    requires r.op.Some? && !r.op.value.pc.Release?
    ensures var x := Step(r);
            x.op.Some? && x.op.value == r.op.value.(pc := x.op.value.pc) && Past(x) == Past(r) && x.pool == r.pool
  {
    var x, o := Step(r), r.op.value;
    match o.pc
    case Clear(i) => assert x.op == Some(o.(pc := x.op.value.pc));
    case Queue(i, g) => QueueSame(r);
    case Commit => assert x.op == Some(o.(pc := x.op.value.pc));
    case Wait => assert x.op == Some(o.(pc := Release(0)));
  }

  lemma QueueSame(r: Sys)
    requires r.op.Some? && r.op.value.pc.Queue?
    ensures var x := Step(r);
            x.op.Some? && x.op.value == r.op.value.(pc := x.op.value.pc) && Past(x) == Past(r) && x.pool == r.pool
  {
    var o := r.op.value;
    if o.me in r.cache {
      var q := Queued(r, o.me, o.base + o.pc.i, o.pc.global);
      assert q.op == r.op && q.pool == r.pool;
    }
  }

  lemma OtherPage(r: Sys, v: Event, p: int)
    requires Can(r, v) && r.op.Some? && (v.Next? ==> !r.op.value.pc.Release?)
    ensures SamePage(r, Do(r, v), p)
  {
  }

  lemma StepDuring(s: Sys, r: Sys, v: Event, c: int, base: int, n: nat, free: bool)
    requires Good(r) && Can(r, v) && During(s, r, c, base, n, free)
    ensures var x := Do(r, v);
            if x.op.Some? then During(s, x, c, base, n, free) else Unmapped(s, x, base, n, free)
  {
    if !v.Next? || !r.op.value.pc.Release? {
      OtherDuring(s, r, v, c, base, n, free);
    } else if r.op.value.pc.i < n {
      ReleasePages(s, r, c, base, n, free);
      ReleasePool(s, r, c, base, n, free);
    } else {
      NothingLeft(r, Do(r, v));
      CallEnds(s, r, c, base, n, free);
    }
  }

  lemma CallEnds(s: Sys, r: Sys, c: int, base: int, n: nat, free: bool)
    requires During(s, r, c, base, n, free) && r.op.value.pc.Release? && r.op.value.pc.i >= n
    requires forall p :: p in r.pte ==> r.pte[p].present
    requires forall d, p :: d in r.cache && p in r.cache[d] ==> p in r.pte
    ensures Unmapped(s, Step(r), base, n, free)
  {
    var x := Step(r);
    forall p ensures if base <= p < base + n then p !in x.pte else SamePage(s, x, p) {
      assert if base <= p < base + Past(r) then p !in r.pte else SamePage(s, r, p);
    }
    forall d, p | d in x.cache && base <= p < base + n ensures p !in x.cache[d] {
      assert p in r.cache[d] ==> p in r.pte;
    }
  }

  /** Once the call is over every entry is present and only pages with entries are cached. */
  lemma NothingLeft(r: Sys, x: Sys)
    requires Good(r) && Can(r, Next) && x == Do(r, Next) && x.op.None?
    ensures (forall p :: p in x.pte ==> x.pte[p].present)
    ensures forall d, p :: d in x.cache && p in x.cache[d] ==> p in x.pte
  {
    StepGood(r, Next);
    forall d, p | d in x.cache && p in x.cache[d] ensures p in x.pte { assert CachedOk(x, d, p); }
    forall p | p in x.pte ensures x.pte[p].present { assert !Dealt(x, p); }
  }

  /** The machine after the first `n` events. */
  ghost function After(s: Sys, run: seq<Event>, n: nat): Sys
    requires Enabled(s, run) && n <= |run|
    decreases n
  {
    if n == 0 then s else After(Do(s, run[0]), run[1..], n - 1)
  }

  lemma {:induction false} AfterStep(s: Sys, run: seq<Event>, n: nat)
    requires Good(s) && Enabled(s, run) && n <= |run|
    ensures Good(After(s, run, n))
    ensures n < |run| ==> Can(After(s, run, n), run[n]) && After(s, run, n + 1) == Do(After(s, run, n), run[n])
    decreases n
  {
    if n > 0 {
      StepGood(s, run[0]);
      AfterStep(Do(s, run[0]), run[1..], n - 1);
    }
  }

  lemma CallBegins(s: Sys, c: int, base: int, n: nat, free: bool)
    requires Can(s, Unmap(c, base, n, free))
    ensures During(s, Do(s, Unmap(c, base, n, free)), c, base, n, free)
  {
    FramesNext(s, base, 0);
  }

  /** Event `m` of the run is a call of `virt_unmap`, which is under way until event `i`. */
  ghost predicate Calls(s: Sys, run: seq<Event>, m: nat, i: nat, c: int, base: int, n: nat, free: bool)
    requires Enabled(s, run)
  {
    && m < i <= |run| && run[m] == Unmap(c, base, n, free)
    && forall j :: m < j < i ==> After(s, run, j).op.Some?
  }

  lemma {:induction false} CallUnderWay(s: Sys, run: seq<Event>, m: nat, i: nat, c: int, base: int, n: nat, free: bool)
    requires Good(s) && Enabled(s, run) && Calls(s, run, m, i, c, base, n, free)
    ensures var s0, r := After(s, run, m), After(s, run, i);
            if r.op.Some? then During(s0, r, c, base, n, free) else Unmapped(s0, r, base, n, free)
    decreases i
  {
    AfterStep(s, run, m);
    AfterStep(s, run, i - 1);
    var s0 := After(s, run, m);
    if i == m + 1 {
      CallBegins(s0, c, base, n, free);
    } else {
      CallUnderWay(s, run, m, i - 1, c, base, n, free);
      StepDuring(s0, After(s, run, i - 1), run[i - 1], c, base, n, free);
    }
  }

  /** In every run, whatever the cores load and flush meanwhile: when a call of `virt_unmap` is
      over, exactly the pages it was asked to unmap have lost their entries, no core has a
      translation for any of them, and the pool has gained exactly their frames, or nothing if
      they were not to be freed. */
  lemma UnmapUnmaps(s: Sys, run: seq<Event>, m: nat, i: nat, c: int, base: int, n: nat, free: bool)
    requires Init(s) && Enabled(s, run) && Calls(s, run, m, i, c, base, n, free) && After(s, run, i).op.None?
    ensures Unmapped(After(s, run, m), After(s, run, i), base, n, free)
  {
    CallUnderWay(s, run, m, i, c, base, n, free);
  }

  // ---- A call comes to its end ----

  /** Steps of the unmapping core and of the interrupt handlers only. */
  predicate Ours(v: Event) { v.Next? || v.Handle? || v.Count? }

  function Stage(pc: Pc): nat {
    match pc
    case Clear(_) => 4
    case Queue(_, _) => 4
    case Commit => 3
    case Wait => 2
    case Release(_) => 1
  }

  function PagesLeft(o: Op): nat {
    match o.pc
    case Clear(i) => if i < o.n then 2 * (o.n - i) + 1 else 0
    case Queue(i, _) => if i < o.n then 2 * (o.n - i) else 0
    case Release(i) => if i < o.n then o.n - i else 0
    case _ => 0
  }

  lemma Member(a: set<int>) returns (x: int)
    requires a != {}
    ensures x in a
  {
    assert (forall y :: y !in a) ==> a == {};
    x :| x in a;
  }

  lemma OwnAdvances(s: Sys)
    requires Good(s) && s.op.Some? && (s.op.value.pc == Wait ==> s.waiters == 0)
    ensures var r := Step(s);
            r.op.Some? ==>
              var o, q := s.op.value, r.op.value;
              Stage(q.pc) < Stage(o.pc) || (Stage(q.pc) == Stage(o.pc) && PagesLeft(q) < PagesLeft(o))
  {
  }

  /** There is always a next step on the way to the end: of a handler that has yet to run, of a
      core that has yet to count itself out, or of the unmapping core. */
  lemma NextStep(s: Sys) returns (v: Event)
    requires Good(s) && s.op.Some?
    ensures Can(s, v) && Ours(v)
    ensures var r := Do(s, v);
            r.op.Some? ==>
              var o, q := s.op.value, r.op.value;
              || Stage(q.pc) < Stage(o.pc)
              || (Stage(q.pc) == Stage(o.pc) && PagesLeft(q) < PagesLeft(o))
              || (q == o && 2 * |r.pending| + |r.flushed| < 2 * |s.pending| + |s.flushed|)
  {
    if s.op.value.pc != Wait || s.waiters == 0 {
      OwnAdvances(s);
      v := Next;
    } else if s.pending != {} {
      var c := Member(s.pending);
      v := Handle(c);
    } else {
      var c := Member(s.flushed);
      v := Count(c);
    }
  }

  /** Every call of `virt_unmap` can be brought to its end from wherever it is, by steps of its
      own core and of the interrupt handlers: it is never stuck. */
  lemma {:induction false} UnmapCompletes(s: Sys) returns (run: seq<Event>)
    requires Good(s)
    ensures Enabled(s, run) && Final(s, run).op.None? && forall i :: 0 <= i < |run| ==> Ours(run[i])
    decreases if s.op.Some? then Stage(s.op.value.pc) else 0, if s.op.Some? then PagesLeft(s.op.value) else 0,
              2 * |s.pending| + |s.flushed|
  {
    run := [];
    if s.op.Some? {
      var v := NextStep(s);
      StepGood(s, v);
      var rest := UnmapCompletes(Do(s, v));
      run := [v] + rest;
      assert run[0] == v && run[1..] == rest;
    }
  }
}
