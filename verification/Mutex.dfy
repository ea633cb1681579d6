/** The three-state mutex of the runtime (src/runtime/sync/mutex.c, src/runtime/sync/mutex.h)
    over the kernel's wait queue: one step per atomic access to the word, one per critical
    section of the queue, any number of threads. */
module Mutex {
  import opened Lists
  import opened WaitQueue

  const UNLOCKED: int := 0
  const LOCKED: int := 1
  const CONTENDED: int := 2
  const SPIN_LIMIT: nat := 40
  const ALL: bv64 := 0xFFFF_FFFF_FFFF_FFFF

  /** Where a thread is in `mutex_lock` or `mutex_unlock`. */
  datatype Pc =
    | Out
    | Spin(i: nat, seen: int)    // head of the spin loop
    | SpinCas(i: nat)            // saw UNLOCKED, about to compare-exchange
    | Exchange                   // about to exchange in CONTENDED
    | Preparing                    // about to queue itself
    | Asleep                     // queued, parking or parked
    | Woken                      // unparked, its entry perhaps still queued
    | Holding
    | Notifying                  // unlocked, saw CONTENDED, about to notify

  /** The word, the wait queue of its bucket, and the threads. */
  datatype Sys = Sys(word: int, queue: seq<Entry>, pcs: map<int, Pc>, key: nat)

  /** The entry of thread `t`, on its own stack. */
  function EntryOf(key: nat, t: int): Entry { Entry(t, t, key, ALL, CONTENDED) }

  datatype Event =
    | Lock(t: int, spurious: bool)
    | SpinStep(t: int)
    | SpinTry(t: int, spurious: bool)
    | Swap(t: int)
    | Enqueue(t: int)
    | Stir(t: int)                // woken by a timer or otherwise without a notification
    | Unqueue(t: int)
    | Unlock(t: int)
    | Wake(t: int)
    | Join(e: Entry)               // waiters on other keys come to the same queue
    | Leave(e: Entry)              // and leave it

  predicate At(s: Sys, t: int, p: Pc) { t in s.pcs && s.pcs[t] == p }

  predicate Can(s: Sys, v: Event) {
    match v
    case Lock(t, _) => At(s, t, Out)
    case SpinStep(t) => t in s.pcs && s.pcs[t].Spin?
    case SpinTry(t, _) => t in s.pcs && s.pcs[t].SpinCas?
    case Swap(t) => At(s, t, Exchange)
    case Enqueue(t) => At(s, t, Preparing)
    case Stir(t) => At(s, t, Asleep)
    case Unqueue(t) => At(s, t, Woken)
    case Unlock(t) => At(s, t, Holding)
    case Wake(t) => At(s, t, Notifying)
    case Join(e) => e.key != s.key && e !in s.queue
    case Leave(e) => e.key != s.key
  }

  function Go(s: Sys, t: int, p: Pc): Sys { s.(pcs := s.pcs[t := p]) }

  /** The threads that an unpark would wake. */
  function Sleepers(s: Sys): set<int> { set t | t in s.pcs && s.pcs[t] == Asleep }

  /** `sys_atomic_notify(&mutex->state, UINT64_MAX, 1)`. */
  function Notified(s: Sys): Outcome { Walk(s.queue, s.key, ALL, 1, Sleepers(s), 0) }

  function Do(s: Sys, v: Event): Sys
    requires Can(s, v)
  {
    match v
    case Lock(t, spurious) =>
      if s.word == UNLOCKED && !spurious then Go(s.(word := LOCKED), t, Holding) else Go(s, t, Spin(0, s.word))
    case SpinStep(t) =>
      var p := s.pcs[t];
      if p.i < SPIN_LIMIT && p.seen != CONTENDED then
        if s.word == UNLOCKED then Go(s, t, SpinCas(p.i)) else Go(s, t, Spin(p.i + 1, s.word))
      else Go(s, t, Exchange)
    case SpinTry(t, spurious) =>
      if s.word == UNLOCKED && !spurious then Go(s.(word := LOCKED), t, Holding)
      else Go(s, t, Spin(s.pcs[t].i + 1, s.word))
    case Swap(t) => Go(s.(word := CONTENDED), t, if s.word == UNLOCKED then Holding else Preparing)
    case Enqueue(t) =>
      if s.word == CONTENDED then Go(s.(queue := [EntryOf(s.key, t)] + s.queue), t, Asleep) else Go(s, t, Exchange)
    case Stir(t) => Go(s, t, Woken)
    case Unqueue(t) => Go(s.(queue := Remove(s.queue, EntryOf(s.key, t))), t, Exchange)
    case Unlock(t) => Go(s.(word := UNLOCKED), t, if s.word == CONTENDED then Notifying else Out)
    case Wake(t) =>
      var r := Notified(s);
      Go(s.(queue := r.queue,
         pcs := map u | u in s.pcs :: if s.pcs[u] == Asleep && u !in r.parked then Woken else s.pcs[u]), t, Out)
    case Join(e) => s.(queue := [e] + s.queue)
    case Leave(e) => s.(queue := Remove(s.queue, e))
  }

  // ---- The invariant ----

  /** The word is UNLOCKED exactly when nobody holds the mutex, and at most one thread does. */
  ghost predicate Owned(s: Sys) {
    && s.word in {UNLOCKED, LOCKED, CONTENDED}
    && (s.word == UNLOCKED <==> forall t :: !At(s, t, Holding))
    && (forall t, u :: At(s, t, Holding) && At(s, u, Holding) ==> t == u)
  }

  /** Sleepers are queued, and entries for the mutex are those of sleepers and of threads just
      woken. */
  ghost predicate Listed(s: Sys) {
    && NoDup(s.queue)
    && (forall t :: At(s, t, Asleep) ==> EntryOf(s.key, t) in s.queue)
    && (forall e :: e in s.queue && e.key == s.key ==>
                      e == EntryOf(s.key, e.thread) && (At(s, e.thread, Asleep) || At(s, e.thread, Woken)))
  }

  /** Thread `u` will notify, or exchange in CONTENDED. */
  predicate Saves(s: Sys, u: int) { At(s, u, Notifying) || At(s, u, Woken) || At(s, u, Exchange) }

  /** A sleeper is not stranded. */
  ghost predicate Safe(s: Sys) {
    forall t :: At(s, t, Asleep) ==> s.word == CONTENDED || exists u :: Saves(s, u)
  }

  ghost predicate Good(s: Sys) { Owned(s) && Listed(s) && Safe(s) }

  // ---- Every step keeps it ----

  /** Steps that change only the word and the place of one thread that is not asleep, woken
      or about to become asleep. */
  lemma ListedKept(s: Sys, r: Sys, t: int)
    requires Listed(s)
    requires r.queue == s.queue && r.key == s.key && t in s.pcs && t in r.pcs && r.pcs == s.pcs[t := r.pcs[t]]
    requires !At(s, t, Asleep) && !At(s, t, Woken) && r.pcs[t] != Asleep
    ensures Listed(r)
  {
    forall e | e in r.queue && e.key == r.key
      ensures e == EntryOf(r.key, e.thread) && (At(r, e.thread, Asleep) || At(r, e.thread, Woken))
    {
      assert e in s.queue;
    }
  }

  lemma SafeKept(s: Sys, r: Sys, t: int)
    requires Safe(s) && t in s.pcs && t in r.pcs && r.pcs == s.pcs[t := r.pcs[t]]
    requires At(r, t, Asleep) ==> At(s, t, Asleep) || r.word == CONTENDED
    requires s.word == CONTENDED ==> r.word == CONTENDED || Saves(r, t)
    requires Saves(s, t) ==> Saves(r, t) || r.word == CONTENDED
    ensures Safe(r)
  {
    forall u | At(r, u, Asleep) ensures r.word == CONTENDED || exists x :: Saves(r, x) {
      if r.word != CONTENDED {
        if s.word == CONTENDED {
          assert Saves(r, t);
        } else {
          assert At(s, u, Asleep);
          var x :| Saves(s, x);
          assert Saves(r, x) || x == t;
        }
      }
    }
  }

  /** The holders are the same, and the word is as free as it was. */
  lemma OwnedKept(s: Sys, r: Sys)
    requires Owned(s) && r.word in {UNLOCKED, LOCKED, CONTENDED} && (r.word == UNLOCKED <==> s.word == UNLOCKED)
    requires forall u :: At(r, u, Holding) <==> At(s, u, Holding)
    ensures Owned(r)
  {
  }

  /** A thread takes the free mutex. */
  lemma OwnedTaken(s: Sys, r: Sys, t: int)
    requires Owned(s) && s.word == UNLOCKED && r.word in {LOCKED, CONTENDED}
    requires At(r, t, Holding) && forall u :: u != t ==> (At(r, u, Holding) <==> At(s, u, Holding))
    ensures Owned(r)
  {
  }

  lemma LockGood(s: Sys, v: Event)
    requires Good(s) && Can(s, v) && (v.Lock? || v.SpinStep? || v.SpinTry?)
    ensures Good(Do(s, v))
  {
    ListedKept(s, Do(s, v), v.t);
    SafeKept(s, Do(s, v), v.t);
    if At(Do(s, v), v.t, Holding) { OwnedTaken(s, Do(s, v), v.t); } else { OwnedKept(s, Do(s, v)); }
  }

  lemma SwapGood(s: Sys, t: int)
    requires Good(s) && Can(s, Swap(t))
    ensures Good(Do(s, Swap(t)))
  {
    var r := Do(s, Swap(t));
    ListedKept(s, r, t);
    SafeKept(s, r, t);
    if s.word == UNLOCKED { OwnedTaken(s, r, t); } else { OwnedKept(s, r); }
  }

  lemma EnqueueGood(s: Sys, t: int)
    requires Good(s) && Can(s, Enqueue(t))
    ensures Good(Do(s, Enqueue(t)))
  {
    var r := Do(s, Enqueue(t));
    SafeKept(s, r, t);
    OwnedKept(s, r);
    if s.word == CONTENDED {
      assert EntryOf(s.key, t) !in s.queue;
      NoDupCons(EntryOf(s.key, t), s.queue);
    } else {
      ListedKept(s, r, t);
    }
  }

  lemma StirGood(s: Sys, t: int)
    requires Good(s) && Can(s, Stir(t))
    ensures Good(Do(s, Stir(t)))
  {
    var r := Do(s, Stir(t));
    SafeKept(s, r, t);
    OwnedKept(s, r);
  }

  lemma UnqueueGood(s: Sys, t: int)
    requires Good(s) && Can(s, Unqueue(t))
    ensures Good(Do(s, Unqueue(t)))
  {
    var r := Do(s, Unqueue(t));
    RemoveSpec(s.queue, EntryOf(s.key, t));
    SafeKept(s, r, t);
    OwnedKept(s, r);
  }

  lemma UnlockGood(s: Sys, t: int)
    requires Good(s) && Can(s, Unlock(t))
    ensures Good(Do(s, Unlock(t)))
  {
    var r := Do(s, Unlock(t));
    ListedKept(s, r, t);
    SafeKept(s, r, t);
    forall u ensures !At(r, u, Holding) { assert u != t && At(s, u, Holding) ==> false; }
  }

  /** The notification finds a sleeper to wake, or there is none. */
  lemma WakeFinds(s: Sys)
    requires Listed(s)
    ensures var r := Notified(s);
            && r.parked <= Sleepers(s)
            && (Sleepers(s) == {} || exists u :: u in Sleepers(s) && u !in r.parked)
            && (forall e :: e in s.queue ==> e in r.queue || e.thread !in r.parked)
            && NoDup(r.queue) && (forall e :: e in r.queue ==> e in s.queue)
  {
    var r := Notified(s);
    WalkSpec(s.queue, s.key, ALL, 1, Sleepers(s), 0);
    WalkRemoves(s.queue, s.key, ALL, 1, Sleepers(s), 0);
    WalkNoDup(s.queue, s.key, ALL, 1, Sleepers(s), 0);
    if forall u :: u in Sleepers(s) ==> u in r.parked {
      assert r.parked == Sleepers(s);
      forall u ensures u !in Sleepers(s) {
        if u in Sleepers(s) {
          assert EntryOf(s.key, u) in s.queue && Matches(EntryOf(s.key, u), s.key, ALL);
        }
      }
    }
  }

  lemma WakeGood(s: Sys, t: int)
    requires Good(s) && Can(s, Wake(t))
    ensures Good(Do(s, Wake(t)))
  {
    var r := Do(s, Wake(t));
    WakeFinds(s);
    OwnedKept(s, r);
    forall u | At(r, u, Asleep) ensures exists x :: Saves(r, x) {
      assert u in Sleepers(s);
      var x :| x in Sleepers(s) && x !in Notified(s).parked;
      assert At(r, x, Woken);
      assert Saves(r, x);
    }
  }

  lemma ForeignGood(s: Sys, v: Event)
    requires Good(s) && Can(s, v) && (v.Join? || v.Leave?)
    ensures Good(Do(s, v))
  {
    var r := Do(s, v);
    if v.Leave? { RemoveSpec(s.queue, v.e); } else { NoDupCons(v.e, s.queue); }
    forall u, p ensures At(r, u, p) <==> At(s, u, p) { }
    forall u ensures Saves(r, u) <==> Saves(s, u) { }
  }

  lemma StepGood(s: Sys, v: Event)
    requires Good(s) && Can(s, v)
    ensures Good(Do(s, v))
  {
    match v
    case Lock(_, _) => LockGood(s, v);
    case SpinStep(_) => LockGood(s, v);
    case SpinTry(_, _) => LockGood(s, v);
    case Swap(t) => SwapGood(s, t);
    case Enqueue(t) => EnqueueGood(s, t);
    case Stir(t) => StirGood(s, t);
    case Unqueue(t) => UnqueueGood(s, t);
    case Unlock(t) => UnlockGood(s, t);
    case Wake(t) => WakeGood(s, t);
    case Join(_) => ForeignGood(s, v);
    case Leave(_) => ForeignGood(s, v);
  }

  // ---- Runs ----

  ghost predicate Init(s: Sys) {
    && s.word == UNLOCKED && NoDup(s.queue)
    && (forall t :: t in s.pcs ==> s.pcs[t] == Out)
    && (forall e :: e in s.queue ==> e.key != s.key)
  }

  ghost predicate Enabled(s: Sys, run: seq<Event>)
    decreases |run|
  {
    run == [] || (Can(s, run[0]) && Enabled(Do(s, run[0]), run[1..]))
  }

  ghost function Final(s: Sys, run: seq<Event>): Sys
    requires Enabled(s, run)
    decreases |run|
  {
    if run == [] then s else Final(Do(s, run[0]), run[1..])
  }

  lemma {:induction false} RunGood(s: Sys, run: seq<Event>)
    requires Good(s) && Enabled(s, run)
    ensures Good(Final(s, run))
    decreases |run|
  {
    if run != [] {
      StepGood(s, run[0]);
      RunGood(Do(s, run[0]), run[1..]);
    }
  }

  /** In every state of every run at most one thread holds the mutex, and the word is UNLOCKED
      exactly when none does. */
  lemma MutualExclusion(s: Sys, run: seq<Event>, t: int, u: int)
    requires Init(s) && Enabled(s, run)
    ensures var r := Final(s, run);
            && (At(r, t, Holding) && At(r, u, Holding) ==> t == u)
            && (r.word == UNLOCKED <==> forall h :: !At(r, h, Holding))
  {
    RunGood(s, run);
  }

  /** In every state of every run, if a thread sleeps on the mutex then the word says so, or
      an unlocker has yet to notify, or a thread that was woken is about to say so again. */
  lemma NoSleeperStranded(s: Sys, run: seq<Event>, t: int)
    requires Init(s) && Enabled(s, run) && At(Final(s, run), t, Asleep)
    ensures var r := Final(s, run);
            r.word == CONTENDED || exists u :: At(r, u, Notifying) || At(r, u, Woken) || At(r, u, Exchange)
  {
    RunGood(s, run);
    var r := Final(s, run);
    if r.word != CONTENDED {
      var u :| Saves(r, u);
      assert At(r, u, Notifying) || At(r, u, Woken) || At(r, u, Exchange);
    }
  }

  /** So when every thread is outside, asleep or holding, a sleeper has a holder to wake it,
      and that holder's unlock will notify. */
  lemma HolderWillNotify(s: Sys, run: seq<Event>, t: int)
    requires Init(s) && Enabled(s, run) && At(Final(s, run), t, Asleep)
    requires forall u :: u in Final(s, run).pcs ==> Final(s, run).pcs[u] in {Out, Asleep, Holding}
    ensures var r := Final(s, run);
            exists h :: At(r, h, Holding) && At(Do(r, Unlock(h)), h, Notifying)
  {
    NoSleeperStranded(s, run, t);
    MutualExclusion(s, run, t, t);
    var r := Final(s, run);
    assert r.word == CONTENDED;
    var h :| At(r, h, Holding);
    assert At(Do(r, Unlock(h)), h, Notifying);
  }

  // ---- What a call does to its thread ----

  /** Inside `mutex_lock`. */
  predicate Locking(p: Pc) { !p.Out? && !p.Holding? && !p.Notifying? }

  /** The step is one of thread `t`'s own. */
  predicate Own(v: Event, t: int) { !v.Join? && !v.Leave? && v.t == t }

  /** `mutex_lock` returns only with the mutex, which was free; only the holder's own unlock
      ends its holding; and a thread moves only by its own steps, except that a sleeper may be
      woken by a notifier. */
  lemma CallsReturn(s: Sys, v: Event, t: int)
    requires Can(s, v) && t in s.pcs
    ensures t in Do(s, v).pcs
    ensures var p, q := s.pcs[t], Do(s, v).pcs[t];
            && (!Own(v, t) && q != p ==> v.Wake? && p == Asleep && q == Woken)
            && (Locking(p) ==> Locking(q) || q == Holding)
            && (p == Out && q != Out ==> v.Lock? && (Locking(q) || q == Holding))
            && (p == Holding && q != Holding ==> v == Unlock(t) && q in {Out, Notifying})
            && (p == Notifying && q != Notifying ==> v == Wake(t) && q == Out)
            && (p != Holding && q == Holding ==> s.word == UNLOCKED && Do(s, v).word != UNLOCKED)
  {
  }

  /** An unlock releases: nobody holds the mutex afterwards and the word says so; it goes on to
      notify exactly if the word was CONTENDED. */
  lemma UnlockReleases(s: Sys, t: int)
    requires Good(s) && Can(s, Unlock(t))
    ensures var r := Do(s, Unlock(t));
            && r.word == UNLOCKED && (forall u :: !At(r, u, Holding))
            && r.pcs[t] == if s.word == CONTENDED then Notifying else Out
  {
    UnlockGood(s, t);
  }

  /** How many steps of its own a spinning thread has left. */
  function SpinLeft(p: Pc): int {
    match p
    case Spin(i, _) => 2 * (SPIN_LIMIT - i) + 1
    case SpinCas(i) => 2 * (SPIN_LIMIT - i)
    case _ => 0
  }

  predicate Spinning(p: Pc) { (p.Spin? && p.i <= SPIN_LIMIT) || (p.SpinCas? && p.i < SPIN_LIMIT) }

  /** A locker spins for at most eighty-one steps; then it has the mutex or is about to
      exchange in CONTENDED. */
  lemma SpinningEnds(s: Sys, v: Event)
    requires Can(s, v) && (v.Lock? || v.SpinStep? || v.SpinTry?) && (!v.Lock? ==> Spinning(s.pcs[v.t]))
    ensures var p, q := s.pcs[v.t], Do(s, v).pcs[v.t];
            && (Spinning(q) || q == Holding || q == Exchange)
            && (v.Lock? ==> SpinLeft(q) <= 2 * SPIN_LIMIT + 1) && (!v.Lock? ==> 0 <= SpinLeft(q) < SpinLeft(p))
  {
  }

  /** A notification wakes one sleeper if there is any, and never more. */
  lemma WakesOne(s: Sys, t: int)
    requires Good(s) && Can(s, Wake(t))
    ensures var r := Do(s, Wake(t));
            && Sleepers(r) <= Sleepers(s) && t !in Sleepers(s) && r.word == s.word && At(r, t, Out)
            && |Sleepers(s)| - |Sleepers(r)| == (if Sleepers(s) == {} then 0 else 1)
            && forall u :: u in Sleepers(s) && u !in Sleepers(r) ==> At(r, u, Woken)
  {
    WakeCounts(s);
    WakeLeaves(s, t);
  }

  lemma WakeLeaves(s: Sys, t: int)
    requires Listed(s) && Can(s, Wake(t)) && Notified(s).parked <= Sleepers(s)
    ensures Sleepers(Do(s, Wake(t))) == Notified(s).parked
  {
  }

  lemma WakeCounts(s: Sys)
    requires Listed(s)
    ensures Notified(s).parked <= Sleepers(s)
    ensures |Sleepers(s)| - |Notified(s).parked| == if Sleepers(s) == {} then 0 else 1
  {
    var o := Notified(s);
    WakeFinds(s);
    WalkSpec(s.queue, s.key, ALL, 1, Sleepers(s), 0);
    if Sleepers(s) != {} {
      var u :| u in Sleepers(s) && u !in o.parked;
      SmallerSubset(o.parked, Sleepers(s), u);
    }
  }

  lemma SmallerSubset(a: set<int>, b: set<int>, x: int)
    requires a <= b && x in b && x !in a
    ensures |a| < |b|
  {
    assert b == a + (b - a) && x in b - a;
    assert |b| == |a| + |b - a|;
  }

  lemma Missing(a: set<int>, b: set<int>) returns (x: int)
    requires a <= b && |a| < |b|
    ensures x in b && x !in a
  {
    assert (forall y :: y in b ==> y in a) ==> a == b;
    x :| x in b && x !in a;
  }

  /** The waiters on other keys that share the queue stay in it, in their order, whatever the
      mutex does. */
  lemma OthersKept(s: Sys, v: Event)
    requires Good(s) && Can(s, v) && !v.Join? && !v.Leave?
    ensures Others(Do(s, v).queue, s.key, ALL) == Others(s.queue, s.key, ALL)
  {
    match v
    case Enqueue(t) => {
      var e := EntryOf(s.key, t);
      assert Matches(e, s.key, ALL) && ([e] + s.queue)[1..] == s.queue;
    }
    case Unqueue(t) => OthersRemove(s.queue, EntryOf(s.key, t), s.key);
    case Wake(t) => WalkSpec(s.queue, s.key, ALL, 1, Sleepers(s), 0);
    case _ =>
  }

  lemma {:induction false} OthersRemove(q: seq<Entry>, e: Entry, key: nat)
    requires Matches(e, key, ALL)
    ensures Others(Remove(q, e), key, ALL) == Others(q, key, ALL)
  {
    if q != [] && q[0] != e {
      OthersRemove(q[1..], e, key);
      assert ([q[0]] + Remove(q[1..], e))[1..] == Remove(q[1..], e);
    }
  }

  // ---- A thread that wants the mutex can get it ----

  /** No timeout, no failure of a compare-exchange without a reason, nothing from outside. */
  predicate Plain(v: Event) {
    match v
    case Lock(_, spurious) => !spurious
    case SpinTry(_, spurious) => !spurious
    case Stir(_) => false
    case Join(_) => false
    case Leave(_) => false
    case _ => true
  }

  ghost predicate PlainRun(run: seq<Event>) { forall i :: 0 <= i < |run| ==> Plain(run[i]) }

  lemma {:induction false} RunConcat(s: Sys, a: seq<Event>, b: seq<Event>)
    requires Enabled(s, a) && Enabled(Final(s, a), b)
    ensures Enabled(s, a + b) && Final(s, a + b) == Final(Final(s, a), b)
    decreases |a|
  {
    if a == [] {
      assert a + b == b;
    } else {
      assert (a + b)[0] == a[0] && (a + b)[1..] == a[1..] + b;
      RunConcat(Do(s, a[0]), a[1..], b);
    }
  }

  lemma OneStep(s: Sys, v: Event)
    requires Can(s, v)
    ensures Enabled(s, [v]) && Final(s, [v]) == Do(s, v)
  {
    assert [v][1..] == [] && Enabled(Do(s, v), []);
  }

  /** One step more at the front of a run. */
  lemma Then(s: Sys, v: Event, rest: seq<Event>) returns (run: seq<Event>)
    requires Can(s, v) && Enabled(Do(s, v), rest)
    ensures run == [v] + rest && Enabled(s, run) && Final(s, run) == Final(Do(s, v), rest)
  {
    run := [v] + rest;
    assert run[0] == v && run[1..] == rest;
  }

  /** While the mutex is free any thread outside or inside `mutex_lock`, but for a sleeper,
      takes it by steps of its own. */
  lemma {:induction false} FreeIsTaken(s: Sys, t: int) returns (run: seq<Event>)
    requires s.word == UNLOCKED && t in s.pcs && (s.pcs[t] == Out || Locking(s.pcs[t])) && s.pcs[t] != Asleep
    ensures Enabled(s, run) && At(Final(s, run), t, Holding) && PlainRun(run)
    ensures forall i :: 0 <= i < |run| ==> Own(run[i], t)
    decreases if s.pcs[t].Spin? then 2 else if s.pcs[t].Preparing? || s.pcs[t].Woken? then 1 else 0
  {
    match s.pcs[t]
    case Out => { OneStep(s, Lock(t, false)); run := [Lock(t, false)]; }
    case SpinCas(i) => { OneStep(s, SpinTry(t, false)); run := [SpinTry(t, false)]; }
    case Exchange => { OneStep(s, Swap(t)); run := [Swap(t)]; }
    case Spin(i, seen) => {
      var rest := FreeIsTaken(Do(s, SpinStep(t)), t);
      run := Then(s, SpinStep(t), rest);
    }
    case Preparing => {
      var rest := FreeIsTaken(Do(s, Enqueue(t)), t);
      run := Then(s, Enqueue(t), rest);
    }
    case Woken => {
      var rest := FreeIsTaken(Do(s, Unqueue(t)), t);
      run := Then(s, Unqueue(t), rest);
    }
  }

  /** A thread that was woken takes the free mutex, leaving CONTENDED behind, and so notifies
      when it unlocks. */
  lemma {:induction false} Relay(s: Sys, x: int) returns (run: seq<Event>)
    requires Good(s) && s.word == UNLOCKED && (At(s, x, Woken) || At(s, x, Exchange))
    ensures Enabled(s, run) && PlainRun(run)
    ensures var r := Final(s, run);
            Good(r) && r.word == UNLOCKED && At(r, x, Notifying) && Sleepers(r) == Sleepers(s)
    decreases if At(s, x, Woken) then 1 else 0
  {
    if At(s, x, Woken) {
      StepGood(s, Unqueue(x));
      var rest := Relay(Do(s, Unqueue(x)), x);
      run := Then(s, Unqueue(x), rest);
    } else {
      var s1 := Do(s, Swap(x));
      var s2 := Do(s1, Unlock(x));
      StepGood(s, Swap(x));
      StepGood(s1, Unlock(x));
      OneStep(s1, Unlock(x));
      run := Then(s, Swap(x), [Unlock(x)]);
    }
  }

  /** Each notification wakes one sleeper, who notifies in turn: sooner or later it is `t`. */
  lemma {:induction false} ChainReaches(s: Sys, u: int, t: int) returns (run: seq<Event>)
    requires Good(s) && s.word == UNLOCKED && At(s, u, Notifying) && At(s, t, Asleep)
    ensures Enabled(s, run) && PlainRun(run) && At(Final(s, run), t, Holding)
    decreases |Sleepers(s)|
  {
    var r := Do(s, Wake(u));
    WakesOne(s, u);
    StepGood(s, Wake(u));
    assert t in Sleepers(s);
    var rest;
    if t !in Sleepers(r) {
      rest := FreeIsTaken(r, t);
    } else {
      var x := Missing(Sleepers(r), Sleepers(s));
      var relay := Relay(r, x);
      var more := ChainReaches(Final(r, relay), x, t);
      RunConcat(r, relay, more);
      rest := relay + more;
    }
    run := Then(s, Wake(u), rest);
  }

  lemma {:induction false} SleeperCanWin(s: Sys, t: int) returns (run: seq<Event>)
    requires Good(s) && s.word == UNLOCKED && At(s, t, Asleep)
    ensures Enabled(s, run) && PlainRun(run) && At(Final(s, run), t, Holding)
  {
    var u :| Saves(s, u);
    if At(s, u, Notifying) {
      run := ChainReaches(s, u, t);
    } else {
      var relay := Relay(s, u);
      assert t in Sleepers(s);
      var more := ChainReaches(Final(s, relay), u, t);
      RunConcat(s, relay, more);
      run := relay + more;
    }
  }

  /** No deadlock: in every state of every run, a thread inside `mutex_lock` can still get the
      mutex, by steps of the threads alone, without timeouts and spurious wake-ups. */
  lemma {:induction false} EveryLockerCanWin(s: Sys, past: seq<Event>, t: int) returns (run: seq<Event>)
    requires Init(s) && Enabled(s, past) && t in Final(s, past).pcs && Locking(Final(s, past).pcs[t])
    ensures Enabled(Final(s, past), run) && PlainRun(run) && At(Final(Final(s, past), run), t, Holding)
  {
    RunGood(s, past);
    var r := Final(s, past);
    if r.word == UNLOCKED {
      run := FreeCanWin(r, t);
    } else {
      var h :| At(r, h, Holding);
      UnlockReleases(r, h);
      StepGood(r, Unlock(h));
      var rest := FreeCanWin(Do(r, Unlock(h)), t);
      run := Then(r, Unlock(h), rest);
    }
  }

  lemma FreeCanWin(s: Sys, t: int) returns (run: seq<Event>)
    requires Good(s) && s.word == UNLOCKED && t in s.pcs && Locking(s.pcs[t])
    ensures Enabled(s, run) && PlainRun(run) && At(Final(s, run), t, Holding)
  {
    if At(s, t, Asleep) { run := SleeperCanWin(s, t); } else { run := FreeIsTaken(s, t); }
  }
}
