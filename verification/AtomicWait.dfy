/** `atomic_wait` and `atomic_notify` as a whole (src/kernel/thread/wait.c): the wait queues
    and the scheduler in one machine, on any number of cores. Every atomic access, every use
    of a queue by a waiter and every turn of a notifier's loop is one step; the notifier
    holds the lock of its queue from its first step to its last, also while it unparks. */
module AtomicWait {
  import opened Lists
  import S = Scheduler
  import Q = WaitQueue

  /** Where a thread is in `atomic_wait`, with the entries yet to be queued and those that
      it has queued and not removed. */
  datatype Phase =
    | Outside
    | Announced                                               // PARKING stored, interrupts on
    | Preparing(todo: seq<Q.Entry>, done: seq<Q.Entry>)       // interrupts off from here on
    | Aborting(done: seq<Q.Entry>)                            // a word was not as expected
    | Asleep(done: seq<Q.Entry>)                              // inside scheduler_schedule
    | Finishing(done: seq<Q.Entry>)

  /** Where a core is in the loop of `atomic_notify`. */
  datatype Stage =
    | Look                    // about to look at the next entry
    | Call(t: int)            // has unlinked an entry, about to unpark its thread
    | Trying(t: int)          // scheduler_try_unpark, before its compare-exchange
    | Putting(t: int)         // scheduler_try_unpark, after it

  /** A notification under way: `pos` entries of the list are behind the indirect pointer. */
  datatype Notice = Notice(key: nat, mask: bv64, count: nat, pos: nat, woken: nat, stage: Stage)

  datatype World = World(sched: S.Sys, words: map<int, int>, queues: seq<seq<Q.Entry>>,
                         calls: map<int, Phase>, notices: map<int, Notice>)

  datatype Event =
    | Sched(e: S.Event)                                       // anything else in the kernel
    | Store(key: int, value: int)                             // user memory
    | Announce | Mask(entries: seq<Q.Entry>) | Prepare | Abort | Sleep | Return | Finish | Leave
    | Notify(nkey: nat, mask: bv64, count: nat)
    | Walk(spurious: bool)

  // ---- The machine ----

  function PhaseOf(w: World, t: int): Phase { if t in w.calls then w.calls[t] else Outside }

  function Done(p: Phase): seq<Q.Entry> { if p.Outside? || p.Announced? then [] else p.done }

  function Todo(p: Phase): seq<Q.Entry> { if p.Preparing? then p.todo else [] }

  function View(w: World): Q.World { Q.World(w.words, w.queues, {}) }

  predicate Queued(w: World, e: Q.Entry) { Q.Queued(View(w), e) }

  function SetPhase(w: World, t: int, p: Phase): World { w.(calls := w.calls[t := p]) }

  function SetNotice(w: World, c: int, n: Notice): World { w.(notices := w.notices[c := n]) }

  /** No notification is under way in the queue of `key`. */
  predicate LockFree(w: World, key: nat) {
    forall c :: c in w.notices ==> Q.Bucket(w.notices[c].key) != Q.Bucket(key)
  }

  /** The core runs a thread, which is not notifying. */
  predicate Runs(w: World, c: int) {
    && c in w.sched.cores && c !in w.notices && w.sched.cores[c].pc == S.Normal
    && w.sched.cores[c].current in w.sched.threads
  }

  function Me(w: World, c: int): int
    requires c in w.sched.cores
  {
    w.sched.cores[c].current
  }

  predicate Interruptible(p: Phase) { p.Outside? || p.Announced? }

  /** The code of the kernel does this on core `c` only in these situations. */
  predicate Can(w: World, c: int, v: Event) {
    && w.sched.halt == S.Live && |w.queues| == Q.WAIT_HASH_SIZE
    && match v
       case Sched(e) => CanSched(w, c, e)
       case Store(_, _) => true
       case Announce => Runs(w, c) && PhaseOf(w, Me(w, c)).Outside? && S.Can(w.sched, c, S.BeginPark)
       case Mask(es) =>
         && Runs(w, c) && PhaseOf(w, Me(w, c)).Announced?
         && (forall e :: e in es ==> e.thread == Me(w, c)) && (forall i, j :: 0 <= i < j < |es| ==> es[i] != es[j])
       case Prepare =>
         && Runs(w, c) && PhaseOf(w, Me(w, c)).Preparing? && Todo(PhaseOf(w, Me(w, c))) != []
         && LockFree(w, Todo(PhaseOf(w, Me(w, c)))[0].key)
       case Abort => Runs(w, c) && PhaseOf(w, Me(w, c)).Aborting?
       case Sleep =>
         && Runs(w, c) && PhaseOf(w, Me(w, c)).Preparing? && Todo(PhaseOf(w, Me(w, c))) == []
         && S.Can(w.sched, c, S.Enter)
       case Return => Runs(w, c) && PhaseOf(w, Me(w, c)).Asleep?
       case Finish =>
         && Runs(w, c) && PhaseOf(w, Me(w, c)).Finishing? && Done(PhaseOf(w, Me(w, c))) != []
         && LockFree(w, Done(PhaseOf(w, Me(w, c)))[0].key)
       case Leave => Runs(w, c) && PhaseOf(w, Me(w, c)) == Finishing([])
       case Notify(key, _, _) => Runs(w, c) && PhaseOf(w, Me(w, c)).Outside? && LockFree(w, key)
       case Walk(spurious) => c in w.notices && CanWalk(w, c, w.notices[c], spurious)
  }

  /** A tick or a timer comes only while interrupts are on. */
  predicate CanSched(w: World, c: int, e: S.Event) {
    && c !in w.notices && S.Can(w.sched, c, e)
    && match e
       case BeginPark => false
       case AbortPark => false
       case Exit => PhaseOf(w, Me(w, c)).Outside?
       case Start(_) => PhaseOf(w, Me(w, c)).Outside?
       case Enter => Interruptible(PhaseOf(w, Me(w, c)))
       case Unpark(_) => Interruptible(PhaseOf(w, Me(w, c)))
       case Spurious => true
       case Step => true
  }

  predicate CanWalk(w: World, c: int, n: Notice, spurious: bool)
    requires |w.queues| == Q.WAIT_HASH_SIZE
  {
    Q.BucketInRange(n.key);
    match n.stage
    case Look => !spurious && n.pos <= |w.queues[Q.Bucket(n.key)]|
    case Call(t) => !spurious && S.Can(w.sched, c, S.Unpark(t))
    case Trying(t) =>
      && S.Can(w.sched, c, if spurious then S.Spurious else S.Step)
      && w.sched.cores[c].pc.UnparkTry? && w.sched.cores[c].pc.t == t && t in w.sched.threads
    case Putting(t) => !spurious && S.Can(w.sched, c, S.Step)
  }

  function Do(w: World, c: int, v: Event): World
    requires Can(w, c, v)
  {
    match v
    case Sched(e) => w.(sched := S.Do(w.sched, c, e))
    case Store(key, value) => w.(words := w.words[key := value])
    case Announce => SetPhase(w.(sched := S.Do(w.sched, c, S.BeginPark)), Me(w, c), Announced)
    case Mask(es) => SetPhase(w, Me(w, c), Preparing(es, []))
    case Prepare => DoPrepare(w, Me(w, c))
    case Abort => SetPhase(w.(sched := Aborted(w.sched, c)), Me(w, c), Finishing(Done(PhaseOf(w, Me(w, c)))))
    case Sleep => SetPhase(w.(sched := S.Do(w.sched, c, S.Enter)), Me(w, c), Asleep(Done(PhaseOf(w, Me(w, c)))))
    case Return => SetPhase(w, Me(w, c), Finishing(Done(PhaseOf(w, Me(w, c)))))
    case Finish => DoFinish(w, Me(w, c))
    case Leave => SetPhase(w, Me(w, c), Outside)
    case Notify(key, mask, count) => SetNotice(w, c, Notice(key, mask, count, 0, 0, Look))
    case Walk(spurious) => DoWalk(w, c, w.notices[c], spurious)
  }

  /** The store of RUNNING on giving up. */
  function Aborted(s: S.Sys, c: int): S.Sys
    requires s.halt == S.Live && c in s.cores && s.cores[c].pc == S.Normal && s.cores[c].current in s.threads
  {
    if s.threads[s.cores[c].current].state in {S.Parking, S.Ready} then S.Do(s, c, S.AbortPark) else s
  }

  function DoPrepare(w: World, t: int): World
    requires |w.queues| == Q.WAIT_HASH_SIZE && PhaseOf(w, t).Preparing? && Todo(PhaseOf(w, t)) != []
  {
    var p := PhaseOf(w, t);
    var e := p.todo[0];
    Q.BucketInRange(e.key);
    if Q.Holds(View(w), e.key, e.expected) then
      SetPhase(w.(queues := Q.Prepared(View(w), e).queues), t, Preparing(p.todo[1..], p.done + [e]))
    else SetPhase(w, t, Aborting(p.done))
  }

  function DoFinish(w: World, t: int): World
    requires |w.queues| == Q.WAIT_HASH_SIZE && Done(PhaseOf(w, t)) != []
  {
    var done := Done(PhaseOf(w, t));
    Q.BucketInRange(done[0].key);
    SetPhase(w.(queues := Q.Finished(View(w), done[0]).queues), t, Finishing(done[1..]))
  }

  /** The end of a turn of the notifier's loop. */
  function Counted(w: World, c: int, n: Notice, won: bool): World {
    var woken := if won then n.woken + 1 else n.woken;
    if n.count != 0 && n.count == woken then w.(notices := w.notices - {c})
    else SetNotice(w, c, n.(woken := woken, stage := Look))
  }

  function DoWalk(w: World, c: int, n: Notice, spurious: bool): World
    requires |w.queues| == Q.WAIT_HASH_SIZE && CanWalk(w, c, n, spurious)
  {
    Q.BucketInRange(n.key);
    match n.stage
    case Look =>
      var b := Q.Bucket(n.key);
      if n.pos == |w.queues[b]| then w.(notices := w.notices - {c})
      else if Q.Matches(w.queues[b][n.pos], n.key, n.mask) then
        SetNotice(w.(queues := w.queues[b := w.queues[b][..n.pos] + w.queues[b][n.pos + 1..]]), c,
                  n.(stage := Call(w.queues[b][n.pos].thread)))
      else SetNotice(w, c, n.(pos := n.pos + 1))
    case Call(t) =>
      var s := S.Do(w.sched, c, S.Unpark(t));
      if s.cores[c].pc.UnparkTry? then SetNotice(w.(sched := s), c, n.(stage := Trying(t)))
      else Counted(w.(sched := s), c, n, false)
    case Trying(t) =>
      var s := S.Do(w.sched, c, if spurious then S.Spurious else S.Step);
      if s.cores[c].pc.UnparkTry? then w.(sched := s)
      else if s.cores[c].pc.UnparkEnqueue? then SetNotice(w.(sched := s), c, n.(stage := Putting(t)))
      else Counted(w.(sched := s), c, n, s.threads[t].wakes != w.sched.threads[t].wakes)
    case Putting(t) => Counted(w.(sched := S.Do(w.sched, c, S.Step)), c, n, true)
  }

  // ---- What a step of the scheduler does to the threads ----

  predicate Sleepy(s: S.Sys, t: int) { S.InState(s, t, S.Parking, S.Parked) }

  /** A thread that is still PARKING on a core is just entering the scheduler there. */
  predicate Entering(s: S.Sys, t: int) {
    t in s.threads && s.threads[t].state == S.Parking && s.threads[t].place.OnCore? ==>
      var c := s.threads[t].place.c;
      c in s.cores && s.cores[c].current == t && s.cores[c].pc.Loaded?
  }

  /** A step of core `c` in which no thread but perhaps `but` starts to park. */
  ghost predicate Calm(s: S.Sys, r: S.Sys, c: int, but: set<int>) {
    && r.threads.Keys == s.threads.Keys && r.cores.Keys == s.cores.Keys
    && (forall d :: d in s.cores && d != c ==> r.cores[d] == s.cores[d])
    && (forall t :: t !in but && Sleepy(r, t) ==> Sleepy(s, t))
    && (forall t :: t !in but && Entering(s, t) ==> Entering(r, t))
  }

  lemma DoLocal(s: S.Sys, c: int, e: S.Event)
    requires S.Good(s) && S.Can(s, c, e)
    ensures var r := S.Do(s, c, e);
            && r.threads.Keys == s.threads.Keys && r.cores.Keys == s.cores.Keys
            && forall d :: d in s.cores && d != c ==> r.cores[d] == s.cores[d]
  {
    assert S.CoreOk(s, c);
  }

  lemma DoCalmAt(s: S.Sys, c: int, e: S.Event, t: int)
    requires S.Good(s) && S.Can(s, c, e) && e != S.BeginPark && t in s.threads
    ensures Sleepy(S.Do(s, c, e), t) ==> Sleepy(s, t)
    ensures Entering(s, t) ==> Entering(S.Do(s, c, e), t)
  {
    assert S.CoreOk(s, c) && S.ThreadOk(s.threads[t]);
  }

  lemma DoCalm(s: S.Sys, c: int, e: S.Event)
    requires S.Good(s) && S.Can(s, c, e) && e != S.BeginPark
    ensures Calm(s, S.Do(s, c, e), c, {}) && S.Good(S.Do(s, c, e))
  {
    S.StepGood(s, c, e);
    DoLocal(s, c, e);
    var r := S.Do(s, c, e);
    forall t | t in s.threads ensures (Sleepy(r, t) ==> Sleepy(s, t)) && (Entering(s, t) ==> Entering(r, t)) {
      DoCalmAt(s, c, e, t);
    }
  }

  lemma ParkCalm(s: S.Sys, c: int)
    requires S.Good(s) && S.Can(s, c, S.BeginPark)
    ensures Calm(s, S.Do(s, c, S.BeginPark), c, {s.cores[c].current}) && S.Good(S.Do(s, c, S.BeginPark))
  {
    S.StepGood(s, c, S.BeginPark);
  }

  // ---- The invariant ----

  /** A core has unlinked an entry of `t` and has not unparked it yet. */
  ghost predicate InHand(w: World, t: int) { exists c :: Wakes(w, c, t) }

  predicate Wakes(w: World, c: int, t: int) { c in w.notices && w.notices[c].stage in {Call(t), Trying(t)} }

  predicate PhaseOk(t: int, p: Phase) {
    var all := Done(p) + Todo(p);
    && (forall i, j :: 0 <= i < j < |all| ==> all[i] != all[j])
    && (forall e :: e in all ==> e.thread == t)
  }

  /** What is queued belongs to a thread inside `atomic_wait` that will remove it. */
  ghost predicate Owned(w: World) {
    && (forall e :: Queued(w, e) ==> e.thread in w.sched.threads && e in Done(PhaseOf(w, e.thread)))
    && (forall t :: PhaseOk(t, PhaseOf(w, t)))
  }

  /** A waiter with an entry that is queued no more is not parked, or is about to be
      unparked. */
  ghost predicate Settled(w: World, t: int, e: Q.Entry) {
    || !Sleepy(w.sched, t)
    || (!PhaseOf(w, t).Finishing? && (Queued(w, e) || InHand(w, t)))
  }

  ghost predicate Accounted(w: World) {
    && (forall t, e :: e in Done(PhaseOf(w, t)) ==> Settled(w, t, e))
    && (forall t :: PhaseOf(w, t).Asleep? ==> Entering(w.sched, t))
  }

  predicate StageOk(s: S.Sys, c: int, stage: Stage) {
    && c in s.cores
    && match stage
       case Look => s.cores[c].pc == S.Normal
       case Call(t) => s.cores[c].pc == S.Normal && t in s.threads
       case Trying(t) => s.cores[c].pc.UnparkTry? && s.cores[c].pc.t == t && t in s.threads
       case Putting(t) => s.cores[c].pc == S.UnparkEnqueue(t)
  }

  /** The entries that a notification has passed are not for it, and it has not yet woken as
      many as it may. */
  predicate NoticeOk(w: World, c: int, n: Notice) {
    && StageOk(w.sched, c, n.stage) && Q.Bucket(n.key) < |w.queues| && (n.count != 0 ==> n.woken < n.count)
    && var q := w.queues[Q.Bucket(n.key)];
    n.pos <= |q| && forall i :: 0 <= i < n.pos ==> !Q.Matches(q[i], n.key, n.mask)
  }

  ghost predicate Noticed(w: World) {
    && (forall c :: c in w.notices ==> NoticeOk(w, c, w.notices[c]))
    && (forall c, d :: c in w.notices && d in w.notices && c != d ==>
                         Q.Bucket(w.notices[c].key) != Q.Bucket(w.notices[d].key))
  }

  ghost predicate Good(w: World) {
    S.Good(w.sched) && Q.Valid(View(w)) && Owned(w) && Accounted(w) && Noticed(w)
  }

  // ---- Every step keeps it ----

  /** The notifications of other cores are the same. */
  ghost predicate Beside(w: World, r: World, c: int) {
    forall d :: d != c ==> (d in w.notices <==> d in r.notices) && (d in w.notices ==> r.notices[d] == w.notices[d])
  }

  lemma CarryAccounted(w: World, r: World, c: int)
    requires Accounted(w) && r.queues == w.queues && r.calls == w.calls && Calm(w.sched, r.sched, c, {})
    requires Beside(w, r, c)
    requires forall t :: Wakes(w, c, t) ==> Wakes(r, c, t) || !Sleepy(r.sched, t)
    ensures Accounted(r)
  {
    forall t, e | e in Done(PhaseOf(r, t)) ensures Settled(r, t, e) {
      assert e in Done(PhaseOf(w, t)) && Settled(w, t, e);
      if InHand(w, t) {
        var d :| Wakes(w, d, t);
        assert d != c ==> Wakes(r, d, t);
      }
    }
    forall t | PhaseOf(r, t).Asleep? ensures Entering(r.sched, t) {
      assert PhaseOf(w, t).Asleep?;
    }
  }

  lemma CarryNoticed(w: World, r: World, c: int, but: set<int>)
    requires Noticed(w) && r.queues == w.queues && Calm(w.sched, r.sched, c, but) && Beside(w, r, c)
    requires c in r.notices ==> NoticeOk(r, c, r.notices[c])
    requires c in r.notices ==>
               if c in w.notices then r.notices[c].key == w.notices[c].key else LockFree(w, r.notices[c].key)
    ensures Noticed(r)
  {
    forall d | d in r.notices && d != c ensures NoticeOk(r, d, r.notices[d]) {
      assert NoticeOk(w, d, w.notices[d]);
    }
  }

  /** A step that changes neither queues nor calls. */
  lemma Carry(w: World, r: World, c: int)
    requires Good(w) && r.queues == w.queues && r.calls == w.calls && S.Good(r.sched) && Calm(w.sched, r.sched, c, {})
    requires Beside(w, r, c)
    requires forall t :: Wakes(w, c, t) ==> Wakes(r, c, t) || !Sleepy(r.sched, t)
    requires c in r.notices ==> NoticeOk(r, c, r.notices[c])
    requires c in r.notices ==>
               if c in w.notices then r.notices[c].key == w.notices[c].key else LockFree(w, r.notices[c].key)
    ensures Good(r)
  {
    CarryAccounted(w, r, c);
    CarryNoticed(w, r, c, {});
    forall e | Queued(r, e) ensures e.thread in r.sched.threads && e in Done(PhaseOf(r, e.thread)) {
      assert Queued(w, e);
    }
    forall t ensures PhaseOk(t, PhaseOf(r, t)) {
      assert PhaseOk(t, PhaseOf(w, t));
    }
  }

  lemma RephaseAccounted(w: World, r: World, t: int, p: Phase, s: S.Sys)
    requires Accounted(w) && r == SetPhase(w.(sched := s), t, p) && Done(p) == Done(PhaseOf(w, t))
    requires forall u :: (u != t || Done(p) != []) && Sleepy(s, u) ==> Sleepy(w.sched, u)
    requires forall u :: u != t && Entering(w.sched, u) ==> Entering(s, u)
    requires p.Finishing? && Done(p) != [] ==> !Sleepy(s, t)
    requires PhaseOf(w, t).Finishing? && Done(p) != [] ==> p.Finishing?
    requires p.Asleep? ==> Entering(s, t)
    ensures Accounted(r)
  {
    forall u, e | e in Done(PhaseOf(r, u)) ensures Settled(r, u, e) {
      assert e in Done(PhaseOf(w, u)) && Settled(w, u, e);
      SameHand(w, r, u);
    }
    forall u | PhaseOf(r, u).Asleep? ensures Entering(r.sched, u) {
      assert u != t ==> PhaseOf(w, u).Asleep?;
    }
  }

  /** A step in which thread `t` only moves on in `atomic_wait`. */
  lemma Rephase(w: World, r: World, c: int, t: int, p: Phase, s: S.Sys)
    requires Good(w) && c !in w.notices && r == SetPhase(w.(sched := s), t, p) && S.Good(s)
    requires Calm(w.sched, s, c, if Done(p) == [] then {t} else {}) && Done(p) == Done(PhaseOf(w, t)) && PhaseOk(t, p)
    requires p.Finishing? && Done(p) != [] ==> !Sleepy(s, t)
    requires PhaseOf(w, t).Finishing? && Done(p) != [] ==> p.Finishing?
    requires p.Asleep? ==> Entering(s, t)
    ensures Good(r)
  {
    RephaseAccounted(w, r, t, p, s);
    CarryNoticed(w, r, c, if Done(p) == [] then {t} else {});
    forall e | Queued(r, e) ensures e.thread in r.sched.threads && e in Done(PhaseOf(r, e.thread)) {
      assert Queued(w, e);
    }
    forall u ensures PhaseOk(u, PhaseOf(r, u)) {
      assert PhaseOk(u, PhaseOf(w, u));
    }
  }

  lemma PlainGood(w: World, c: int, v: Event)
    requires Good(w) && Can(w, c, v) && (v.Store? || v.Sched?)
    ensures Good(Do(w, c, v))
  {
    if v.Sched? { DoCalm(w.sched, c, v.e); }
    Carry(w, Do(w, c, v), c);
  }

  lemma NotifyGood(w: World, c: int, v: Event)
    requires Good(w) && Can(w, c, v) && v.Notify?
    ensures Good(Do(w, c, v))
  {
    Q.BucketInRange(v.nkey);
    Carry(w, Do(w, c, v), c);
  }

  /** Steps of a waiter that leave the queues alone. */
  lemma PhaseGood(w: World, c: int, v: Event)
    requires Good(w) && Can(w, c, v) && (v.Announce? || v.Mask? || v.Leave?)
    ensures Good(Do(w, c, v))
  {
    var t, r := Me(w, c), Do(w, c, v);
    match v
    case Announce => { ParkCalm(w.sched, c); Rephase(w, r, c, t, Announced, r.sched); }
    case Mask(es) => {
      assert Done(Preparing(es, [])) + Todo(Preparing(es, [])) == es;
      Rephase(w, r, c, t, Preparing(es, []), r.sched);
    }
    case Leave => Rephase(w, r, c, t, Outside, r.sched);
  }

  lemma SleepGood(w: World, c: int)
    requires Good(w) && Can(w, c, Sleep)
    ensures Good(Do(w, c, Sleep))
  {
    var t, r := Me(w, c), Do(w, c, Sleep);
    assert PhaseOk(t, PhaseOf(w, t));
    DoCalm(w.sched, c, S.Enter);
    SleepEnters(w.sched, c);
    Rephase(w, r, c, t, Asleep(Done(PhaseOf(w, t))), r.sched);
  }

  lemma ReturnGood(w: World, c: int)
    requires Good(w) && Can(w, c, Return)
    ensures Good(Do(w, c, Return))
  {
    var t, r := Me(w, c), Do(w, c, Return);
    assert PhaseOk(t, PhaseOf(w, t)) && Entering(w.sched, t);
    OnCoreAwake(w.sched, c);
    Rephase(w, r, c, t, Finishing(Done(PhaseOf(w, t))), r.sched);
  }

  lemma OnCoreAwake(s: S.Sys, c: int)
    requires S.Good(s) && c in s.cores && s.cores[c].pc == S.Normal && Entering(s, s.cores[c].current)
    ensures !Sleepy(s, s.cores[c].current)
  {
    assert S.CoreOk(s, c) && S.ThreadOk(s.threads[s.cores[c].current]);
  }

  lemma SleepEnters(s: S.Sys, c: int)
    requires S.Good(s) && S.Can(s, c, S.Enter)
    ensures Entering(S.Do(s, c, S.Enter), s.cores[c].current)
  {
    assert S.CoreOk(s, c);
  }

  lemma AbortGood(w: World, c: int)
    requires Good(w) && Can(w, c, Abort)
    ensures Good(Do(w, c, Abort))
  {
    var t, r := Me(w, c), Do(w, c, Abort);
    assert PhaseOk(t, PhaseOf(w, t)) && S.CoreOk(w.sched, c) && S.ThreadOk(w.sched.threads[t]);
    if w.sched.threads[t].state in {S.Parking, S.Ready} { DoCalm(w.sched, c, S.AbortPark); }
    Rephase(w, r, c, t, Finishing(Done(PhaseOf(w, t))), r.sched);
  }

  // ---- Steps that change a queue ----

  /** The queues other than the one of `key` are the same. */
  ghost predicate OnlyQueue(w: World, r: World, key: nat) {
    && |r.queues| == |w.queues|
    && forall b :: 0 <= b < |w.queues| && b != Q.Bucket(key) ==> r.queues[b] == w.queues[b]
  }

  lemma WaiterNoticed(w: World, r: World, key: nat)
    requires Noticed(w) && r.sched == w.sched && r.notices == w.notices && OnlyQueue(w, r, key) && LockFree(w, key)
    ensures Noticed(r)
  {
    forall d | d in r.notices ensures NoticeOk(r, d, r.notices[d]) {
      assert NoticeOk(w, d, w.notices[d]);
    }
  }

  /** What the waiter `t` does to its own entries does not concern the others. */
  lemma WaiterAccounted(w: World, r: World, t: int)
    requires Accounted(w) && Owned(w) && r.sched == w.sched && r.notices == w.notices
    requires forall u :: u != t ==> PhaseOf(r, u) == PhaseOf(w, u)
    requires forall e: Q.Entry :: e.thread != t ==> (Queued(r, e) <==> Queued(w, e))
    requires forall e :: e in Done(PhaseOf(r, t)) ==> Settled(r, t, e)
    requires PhaseOf(r, t).Asleep? ==> Entering(r.sched, t)
    ensures Accounted(r)
  {
    forall u, e | e in Done(PhaseOf(r, u)) ensures Settled(r, u, e) {
      if u != t {
        assert PhaseOk(u, PhaseOf(w, u)) && e in Done(PhaseOf(w, u)) + Todo(PhaseOf(w, u));
        assert Settled(w, u, e);
        SameHand(w, r, u);
      }
    }
    forall u | PhaseOf(r, u).Asleep? ensures Entering(r.sched, u) {
      assert u != t ==> PhaseOf(w, u).Asleep?;
    }
  }

  lemma SameHand(w: World, r: World, t: int)
    requires r.notices == w.notices
    ensures InHand(w, t) <==> InHand(r, t)
  {
    assert forall c :: Wakes(w, c, t) <==> Wakes(r, c, t);
  }

  lemma PrepareGood(w: World, c: int)
    requires Good(w) && Can(w, c, Prepare)
    ensures Good(Do(w, c, Prepare))
  {
    var t := Me(w, c);
    var p, r := PhaseOf(w, t), Do(w, c, Prepare);
    var e := p.todo[0];
    assert PhaseOk(t, p);
    PhaseMoves(t, p);
    if Q.Holds(View(w), e.key, e.expected) {
      assert !Queued(w, e);
      Q.PreparedQueues(View(w), e);
      assert View(r) == Q.Prepared(View(w), e);
      WaiterNoticed(w, r, e.key);
      PreparedAccounted(w, r, t, p, e);
    } else {
      Rephase(w, r, c, t, Aborting(p.done), w.sched);
    }
  }

  lemma PhaseMoves(t: int, p: Phase)
    requires PhaseOk(t, p) && p.Preparing? && p.todo != []
    ensures p.todo[0] !in p.done && p.todo[0].thread == t
    ensures PhaseOk(t, Preparing(p.todo[1..], p.done + [p.todo[0]])) && PhaseOk(t, Aborting(p.done))
  {
    var all := p.done + p.todo;
    assert all == Done(p) + Todo(p) && all[|p.done|] == p.todo[0];
    assert forall i :: 0 <= i < |p.done| ==> p.done[i] == all[i] && all[i] != all[|p.done|];
    assert (p.done + [p.todo[0]]) + p.todo[1..] == all && all[..|p.done|] == p.done;
    assert Done(Aborting(p.done)) + Todo(Aborting(p.done)) == p.done;
  }

  lemma PreparedAccounted(w: World, r: World, t: int, p: Phase, e: Q.Entry)
    requires Accounted(w) && Owned(w) && p == PhaseOf(w, t) && p.Preparing? && e.thread == t
    requires r.sched == w.sched
    requires r.notices == w.notices && r.calls == w.calls[t := Preparing(Todo(PhaseOf(r, t)), p.done + [e])]
    requires t in w.sched.threads && PhaseOk(t, PhaseOf(r, t))
    requires forall x :: Queued(r, x) <==> Queued(w, x) || x == e
    ensures Accounted(r) && Owned(r)
  {
    forall x | x in Done(PhaseOf(r, t)) ensures Settled(r, t, x) {
      if x != e { assert Settled(w, t, x); SameHand(w, r, t); }
    }
    WaiterAccounted(w, r, t);
    forall u ensures PhaseOk(u, PhaseOf(r, u)) {
      assert PhaseOk(u, PhaseOf(w, u));
    }
  }

  lemma FinishGood(w: World, c: int)
    requires Good(w) && Can(w, c, Finish)
    ensures Good(Do(w, c, Finish))
  {
    var t := Me(w, c);
    var done, r := Done(PhaseOf(w, t)), Do(w, c, Finish);
    assert PhaseOk(t, PhaseOf(w, t)) && done + Todo(PhaseOf(w, t)) == done;
    Q.FinishedQueues(View(w), done[0]);
    assert View(r) == Q.Finished(View(w), done[0]);
    WaiterNoticed(w, r, done[0].key);
    FinishedAccounted(w, r, t, done);
  }

  lemma FinishedAccounted(w: World, r: World, t: int, done: seq<Q.Entry>)
    requires Accounted(w) && Owned(w) && PhaseOf(w, t) == Finishing(done) && done != []
    requires r.sched == w.sched && r.notices == w.notices && r.calls == w.calls[t := Finishing(done[1..])]
    requires forall x :: Queued(r, x) <==> Queued(w, x) && x != done[0]
    ensures Accounted(r) && Owned(r)
  {
    assert PhaseOk(t, Finishing(done)) && done + Todo(Finishing(done)) == done;
    assert done[0].thread == t && Done(Finishing(done[1..])) + Todo(Finishing(done[1..])) == done[1..];
    assert done[0] !in done[1..] && forall x :: x in done <==> x == done[0] || x in done[1..];
    forall x | x in Done(PhaseOf(r, t)) ensures Settled(r, t, x) {
      assert x in done && Settled(w, t, x);
    }
    WaiterAccounted(w, r, t);
    forall u ensures PhaseOk(u, PhaseOf(r, u)) {
      assert PhaseOk(u, PhaseOf(w, u));
    }
  }

  // ---- Steps of a notifier ----

  /** The notifier goes on to another stage; the scheduler is now in state `s`. */
  lemma StageGood(w: World, s: S.Sys, c: int, n: Notice, stage: Stage)
    requires Good(w)
    requires c in w.notices && n == w.notices[c] && S.Good(s) && Calm(w.sched, s, c, {}) && StageOk(s, c, stage)
    requires n.stage.Call? || n.stage.Trying? ==> stage == Trying(n.stage.t) || !Sleepy(s, n.stage.t)
    ensures Good(SetNotice(w.(sched := s), c, n.(stage := stage)))
  {
    assert NoticeOk(w, c, n);
    Carry(w, SetNotice(w.(sched := s), c, n.(stage := stage)), c);
  }

  lemma CountedGood(w: World, s: S.Sys, c: int, n: Notice, won: bool)
    requires Good(w)
    requires c in w.notices && n == w.notices[c] && S.Good(s) && Calm(w.sched, s, c, {}) && StageOk(s, c, Look)
    requires n.stage.Call? || n.stage.Trying? ==> !Sleepy(s, n.stage.t)
    ensures Good(Counted(w.(sched := s), c, n, won))
  {
    assert NoticeOk(w, c, n);
    Carry(w, Counted(w.(sched := s), c, n, won), c);
  }

  lemma CallGood(w: World, c: int, n: Notice, r: World)
    requires Good(w) && |w.queues| == Q.WAIT_HASH_SIZE && c in w.notices && n == w.notices[c]
    requires n.stage.Call? && CanWalk(w, c, n, false) && r == DoWalk(w, c, n, false)
    ensures Good(r)
  {
    var t := n.stage.t;
    assert NoticeOk(w, c, n);
    var s := S.Do(w.sched, c, S.Unpark(t));
    DoCalm(w.sched, c, S.Unpark(t));
    TryEnds(w.sched, c, S.Unpark(t), t);
    if s.cores[c].pc.UnparkTry? { StageGood(w, s, c, n, Trying(t)); } else { CountedGood(w, s, c, n, false); }
  }

  lemma TryGood(w: World, c: int, n: Notice, spurious: bool, r: World)
    requires Good(w) && |w.queues| == Q.WAIT_HASH_SIZE && c in w.notices && n == w.notices[c]
    requires n.stage.Trying? && CanWalk(w, c, n, spurious) && r == DoWalk(w, c, n, spurious)
    ensures Good(r)
  {
    var t, e := n.stage.t, if spurious then S.Spurious else S.Step;
    var s := S.Do(w.sched, c, e);
    DoCalm(w.sched, c, e);
    TryEnds(w.sched, c, e, t);
    if s.cores[c].pc.UnparkTry? {
      StageGood(w, s, c, n, n.stage);
      assert w.notices[c := n] == w.notices;
    } else if s.cores[c].pc.UnparkEnqueue? {
      StageGood(w, s, c, n, Putting(t));
    } else {
      CountedGood(w, s, c, n, s.threads[t].wakes != w.sched.threads[t].wakes);
    }
  }

  /** `scheduler_try_unpark` ends only with the thread neither PARKING nor PARKED. */
  lemma TryEnds(s: S.Sys, c: int, e: S.Event, t: int)
    requires S.Good(s) && S.Can(s, c, e) && t in s.threads
    requires e == S.Unpark(t) || (s.cores[c].pc.UnparkTry? && s.cores[c].pc.t == t && (e == S.Spurious || e == S.Step))
    ensures var r := S.Do(s, c, e);
            match r.cores[c].pc
            case UnparkTry(u, _) => u == t
            case UnparkEnqueue(u) => u == t && !Sleepy(r, t)
            case _ => r.cores[c].pc == S.Normal && !Sleepy(r, t)
  {
  }

  lemma PutGood(w: World, c: int, n: Notice, r: World)
    requires Good(w) && |w.queues| == Q.WAIT_HASH_SIZE && c in w.notices && n == w.notices[c]
    requires n.stage.Putting? && CanWalk(w, c, n, false) && r == DoWalk(w, c, n, false)
    ensures Good(r)
  {
    assert NoticeOk(w, c, n);
    DoCalm(w.sched, c, S.Step);
    UnparkStays(w.sched, c, S.Step);
    CountedGood(w, S.Do(w.sched, c, S.Step), c, n, true);
  }

  lemma LookGood(w: World, c: int, n: Notice, r: World)
    requires Good(w) && |w.queues| == Q.WAIT_HASH_SIZE && c in w.notices && n == w.notices[c]
    requires n.stage.Look? && CanWalk(w, c, n, false) && r == DoWalk(w, c, n, false)
    ensures Good(r)
  {
    Q.BucketInRange(n.key);
    assert NoticeOk(w, c, n);
    var q := w.queues[Q.Bucket(n.key)];
    if n.pos < |q| && Q.Matches(q[n.pos], n.key, n.mask) {
      TakeGood(w, c, n, q, r);
    } else {
      Carry(w, r, c);
    }
  }

  /** A list without its entry at `i`. */
  function Cut(q: seq<Q.Entry>, i: nat): seq<Q.Entry>
    requires i < |q|
  {
    q[..i] + q[i + 1..]
  }

  lemma CutIs(q: seq<Q.Entry>, i: nat)
    requires NoDup(q) && i < |q|
    ensures NoDup(Cut(q, i)) && forall e :: e in Cut(q, i) <==> e in q && e != q[i]
  {
    forall e | e in q && e != q[i] ensures e in Cut(q, i) {
      var j :| 0 <= j < |q| && q[j] == e;
      assert Cut(q, i)[if j < i then j else j - 1] == e;
    }
  }

  /** An entry is unlinked: its thread is in the notifier's hand. */
  lemma TakeGood(w: World, c: int, n: Notice, q: seq<Q.Entry>, r: World)
    requires Good(w) && c in w.notices && n == w.notices[c] && n.stage == Look && Q.Bucket(n.key) < |w.queues|
    requires q == w.queues[Q.Bucket(n.key)] && n.pos < |q| && Q.Matches(q[n.pos], n.key, n.mask)
    requires r == SetNotice(w.(queues := w.queues[Q.Bucket(n.key) := Cut(q, n.pos)]), c,
                            n.(stage := Call(q[n.pos].thread)))
    ensures Good(r)
  {
    var x := q[n.pos];
    assert x in q && Queued(w, x);
    TakeQueues(w, n, q, r);
    TakeAccounted(w, r, c, x);
    TakeNoticed(w, c, n, q, r);
  }

  lemma TakeQueues(w: World, n: Notice, q: seq<Q.Entry>, r: World)
    requires Q.Valid(View(w)) && Q.Bucket(n.key) < |w.queues| && q == w.queues[Q.Bucket(n.key)] && n.pos < |q|
    requires r.queues == w.queues[Q.Bucket(n.key) := Cut(q, n.pos)]
    ensures Q.Valid(View(r)) && forall e :: Queued(r, e) <==> Queued(w, e) && e != q[n.pos]
  {
    CutIs(q, n.pos);
    assert q[n.pos] in q;
  }

  lemma TakeNoticed(w: World, c: int, n: Notice, q: seq<Q.Entry>, r: World)
    requires Noticed(w) && c in w.notices && n == w.notices[c] && n.stage == Look && Q.Bucket(n.key) < |w.queues|
    requires q == w.queues[Q.Bucket(n.key)] && n.pos < |q| && q[n.pos].thread in w.sched.threads
    requires r == SetNotice(w.(queues := w.queues[Q.Bucket(n.key) := Cut(q, n.pos)]), c,
                            n.(stage := Call(q[n.pos].thread)))
    ensures Noticed(r)
  {
    forall d | d in r.notices ensures NoticeOk(r, d, r.notices[d]) {
      assert NoticeOk(w, d, w.notices[d]);
    }
  }

  lemma TakeAccounted(w: World, r: World, c: int, x: Q.Entry)
    requires Accounted(w) && Owned(w) && r.sched == w.sched && r.calls == w.calls && Beside(w, r, c)
    requires c in w.notices && w.notices[c].stage == Look && Wakes(r, c, x.thread)
    requires forall e :: Queued(r, e) <==> Queued(w, e) && e != x
    ensures Accounted(r) && Owned(r)
  {
    forall t, e | e in Done(PhaseOf(r, t)) ensures Settled(r, t, e) {
      assert PhaseOk(t, PhaseOf(w, t)) && e in Done(PhaseOf(w, t)) + Todo(PhaseOf(w, t));
      assert Settled(w, t, e);
      if InHand(w, t) {
        var d :| Wakes(w, d, t);
        assert Wakes(r, d, t);
      }
    }
    forall t ensures PhaseOk(t, PhaseOf(r, t)) {
      assert PhaseOk(t, PhaseOf(w, t));
    }
    forall t | PhaseOf(r, t).Asleep? ensures Entering(r.sched, t) {
      assert PhaseOf(w, t).Asleep?;
    }
  }

  /** Every step of every core keeps the invariant. */
  lemma StepGood(w: World, c: int, v: Event)
    requires Good(w) && Can(w, c, v)
    ensures Good(Do(w, c, v))
  {
    match v
    case Sched(_) => PlainGood(w, c, v);
    case Store(_, _) => PlainGood(w, c, v);
    case Prepare => PrepareGood(w, c);
    case Abort => AbortGood(w, c);
    case Sleep => SleepGood(w, c);
    case Return => ReturnGood(w, c);
    case Finish => FinishGood(w, c);
    case Notify(_, _, _) => NotifyGood(w, c, v);
    case Walk(spurious) => {
      var n, r := w.notices[c], Do(w, c, v);
      match n.stage
      case Look => LookGood(w, c, n, r);
      case Putting(_) => PutGood(w, c, n, r);
      case Call(_) => CallGood(w, c, n, r);
      case Trying(_) => TryGood(w, c, n, spurious, r);
    }
    case _ => PhaseGood(w, c, v);
  }

  // ---- Where a parked thread can be ----

  /** The thread runs on a core that is in no code of the scheduler. */
  predicate OnCpu(s: S.Sys, t: int) {
    t in s.threads && s.threads[t].place.OnCore? &&
    var c := s.threads[t].place.c;
    c in s.cores && s.cores[c].current == t && s.cores[c].pc == S.Normal
  }

  predicate Busy(p: Phase) { p.Preparing? || p.Aborting? || p.Finishing? }

  /** With interrupts off a waiter stays on its core; outside the call, and after it was
      woken, a thread is not parked. */
  ghost predicate Placed(w: World) {
    && (forall t :: Busy(PhaseOf(w, t)) ==> OnCpu(w.sched, t))
    && (forall t :: PhaseOf(w, t).Outside? || PhaseOf(w, t).Finishing? ==> !Sleepy(w.sched, t))
    && (forall c :: c in w.notices ==> c in w.sched.cores && PhaseOf(w, w.sched.cores[c].current).Outside?)
  }

  lemma OnCpuKept(s: S.Sys, c: int, e: S.Event, t: int)
    requires S.Good(s) && S.Can(s, c, e) && OnCpu(s, t) && s.threads[t].place.c != c
    ensures OnCpu(S.Do(s, c, e), t)
  {
    DoLocal(s, c, e);
    PlaceKept(s, c, e, t);
  }

  lemma PlaceKept(s: S.Sys, c: int, e: S.Event, t: int)
    requires S.Good(s) && S.Can(s, c, e) && t in s.threads && s.threads[t].place.OnCore? && s.threads[t].place.c != c
    ensures t in S.Do(s, c, e).threads && S.Do(s, c, e).threads[t].place == s.threads[t].place
  {
    assert S.CoreOk(s, c) && S.ThreadOk(s.threads[t]);
    if e == S.Step { AdvancePlaceKept(s, c, t); }
  }

  lemma AdvancePlaceKept(s: S.Sys, c: int, t: int)
    requires S.CoreOk(s, c) && t in s.threads && s.threads[t].place.OnCore? && s.threads[t].place.c != c
    requires S.ThreadOk(s.threads[t]) && s.cores[c].current in s.threads
    ensures t in S.Advance(s, c).threads && S.Advance(s, c).threads[t].place == s.threads[t].place
  {
    var q := s.cores[c].queue;
    assert q != [] ==> q[0] in q;
  }

  /** Steps of the scheduler on a core whose thread is not in the middle of a call. */
  lemma SchedPlaced(w: World, c: int, e: S.Event, r: World)
    requires Good(w) && Placed(w) && S.Can(w.sched, c, e) && e != S.BeginPark && !Busy(PhaseOf(w, Me(w, c)))
    requires r.sched == S.Do(w.sched, c, e) && r.calls == w.calls
    requires forall d :: d in r.notices ==> d in w.notices && (d == c ==> Me(r, d) == Me(w, d))
    ensures Placed(r)
  {
    DoCalm(w.sched, c, e);
    forall t | Busy(PhaseOf(r, t)) ensures OnCpu(r.sched, t) {
      assert PhaseOf(r, t) == PhaseOf(w, t);
      OnCpuKept(w.sched, c, e, t);
    }
    forall t | PhaseOf(r, t).Outside? || PhaseOf(r, t).Finishing? ensures !Sleepy(r.sched, t) {
      assert PhaseOf(r, t) == PhaseOf(w, t);
    }
  }

  /** A thread in the middle of a call keeps its core out of the scheduler. */
  lemma BusyIsNormal(s: S.Sys, c: int)
    requires S.Good(s) && c in s.cores && OnCpu(s, s.cores[c].current)
    ensures s.cores[c].pc == S.Normal && s.threads[s.cores[c].current].place == S.OnCore(c)
  {
    assert S.CoreOk(s, c);
  }

  lemma NormalOnCpu(s: S.Sys, c: int)
    requires S.Good(s) && c in s.cores && s.cores[c].pc == S.Normal
    ensures OnCpu(s, s.cores[c].current) && s.threads[s.cores[c].current].place == S.OnCore(c)
  {
    assert S.CoreOk(s, c);
  }

  /** A step of thread `t` on core `c` in its call. */
  lemma PhasePlaced(w: World, r: World, c: int, t: int, p: Phase)
    requires Good(w) && Placed(w) && Runs(w, c) && t == Me(w, c) && r.calls == w.calls[t := p] && r.notices == w.notices
    requires Calm(w.sched, r.sched, c, {t})
    requires forall u :: u != t && OnCpu(w.sched, u) ==> OnCpu(r.sched, u)
    requires Busy(p) ==> OnCpu(r.sched, t)
    requires p.Outside? || p.Finishing? ==> !Sleepy(r.sched, t)
    ensures Placed(r)
  {
    forall d | d in r.notices ensures d in r.sched.cores && PhaseOf(r, r.sched.cores[d].current).Outside? {
      assert NoticeOk(w, d, w.notices[d]);
      OneCore(w.sched, c, d);
    }
    forall u | u != t ensures PhaseOf(r, u) == PhaseOf(w, u) { }
  }

  lemma OneCore(s: S.Sys, c: int, d: int)
    requires S.Good(s) && c in s.cores && s.cores[c].pc == S.Normal && d in s.cores && d != c
    requires s.cores[d].pc == S.Normal || s.cores[d].pc.UnparkTry? || s.cores[d].pc.UnparkEnqueue?
    ensures s.cores[d].current != s.cores[c].current
  {
    assert S.CoreOk(s, c) && S.CoreOk(s, d);
  }

  lemma OthersStay(s: S.Sys, c: int, e: S.Event)
    requires S.Good(s) && S.Can(s, c, e) && s.cores[c].pc == S.Normal
    ensures var r := S.Do(s, c, e); forall u :: u != s.cores[c].current && OnCpu(s, u) ==> OnCpu(r, u)
  {
    forall u | u != s.cores[c].current && OnCpu(s, u) ensures OnCpu(S.Do(s, c, e), u) {
      OnCpuKept(s, c, e, u);
    }
  }

  lemma CallPlaced(w: World, c: int, v: Event)
    requires Good(w) && Placed(w) && Can(w, c, v)
    requires v.Mask? || v.Prepare? || v.Return? || v.Finish? || v.Leave?
    ensures Placed(Do(w, c, v))
  {
    var t, r := Me(w, c), Do(w, c, v);
    NormalOnCpu(w.sched, c);
    if v.Return? { assert Entering(w.sched, t); OnCoreAwake(w.sched, c); }
    PhasePlaced(w, r, c, t, r.calls[t]);
  }

  lemma StorePlaced(w: World, c: int, v: Event)
    requires Good(w) && Placed(w) && Can(w, c, v) && (v.Announce? || v.Sleep?)
    ensures Placed(Do(w, c, v))
  {
    var t, r, e := Me(w, c), Do(w, c, v), if v.Sleep? then S.Enter else S.BeginPark;
    if v.Sleep? { DoCalm(w.sched, c, e); } else { ParkCalm(w.sched, c); }
    OthersStay(w.sched, c, e);
    PhasePlaced(w, r, c, t, r.calls[t]);
  }

  lemma AbortPlaced(w: World, c: int)
    requires Good(w) && Placed(w) && Can(w, c, Abort)
    ensures Placed(Do(w, c, Abort))
  {
    var t, r := Me(w, c), Do(w, c, Abort);
    NormalOnCpu(w.sched, c);
    assert S.ThreadOk(w.sched.threads[t]);
    if w.sched.threads[t].state in {S.Parking, S.Ready} {
      DoCalm(w.sched, c, S.AbortPark);
      OthersStay(w.sched, c, S.AbortPark);
    }
    PhasePlaced(w, r, c, t, r.calls[t]);
  }

  lemma UnparkPlaced(w: World, c: int, e: S.Event, r: World)
    requires Good(w) && Placed(w) && c in w.notices && S.Can(w.sched, c, e)
    requires e.Unpark? || w.sched.cores[c].pc.UnparkTry? || w.sched.cores[c].pc.UnparkEnqueue?
    requires e.Unpark? || e == S.Spurious || e == S.Step
    requires r.sched == S.Do(w.sched, c, e) && r.calls == w.calls && r.notices.Keys <= w.notices.Keys
    ensures Placed(r)
  {
    UnparkStays(w.sched, c, e);
    SchedPlaced(w, c, e, r);
  }

  lemma UnparkStays(s: S.Sys, c: int, e: S.Event)
    requires S.Can(s, c, e) && (e.Unpark? || e == S.Spurious || e == S.Step)
    requires e.Unpark? || s.cores[c].pc.UnparkTry? || s.cores[c].pc.UnparkEnqueue?
    ensures c in S.Do(s, c, e).cores && S.Do(s, c, e).cores[c].current == s.cores[c].current
    ensures s.cores[c].pc.UnparkEnqueue? ==> S.Do(s, c, e).cores[c].pc == S.Normal
  {
  }

  /** What a turn of the notifier does to the scheduler. */
  function WalkEvent(n: Notice, spurious: bool): S.Event {
    if n.stage.Call? then S.Unpark(n.stage.t) else if spurious then S.Spurious else S.Step
  }

  lemma WalkShape(w: World, c: int, n: Notice, spurious: bool)
    requires |w.queues| == Q.WAIT_HASH_SIZE && CanWalk(w, c, n, spurious) && c in w.notices
    ensures var r := DoWalk(w, c, n, spurious);
            && r.calls == w.calls && r.notices.Keys <= w.notices.Keys
            && (n.stage.Look? ==> r.sched == w.sched)
            && (!n.stage.Look? ==> S.Can(w.sched, c, WalkEvent(n, spurious)) &&
                                   r.sched == S.Do(w.sched, c, WalkEvent(n, spurious)))
  {
  }

  lemma WalkPlaced(w: World, c: int, n: Notice, e: S.Event, r: World)
    requires Good(w) && Placed(w) && c in w.notices && n == w.notices[c]
    requires r.calls == w.calls && r.notices.Keys <= w.notices.Keys && (e.Unpark? || e == S.Spurious || e == S.Step)
    requires if n.stage.Look? then r.sched == w.sched else S.Can(w.sched, c, e) && r.sched == S.Do(w.sched, c, e)
    requires n.stage.Call? ==> e.Unpark?
    ensures Placed(r)
  {
    assert NoticeOk(w, c, n);
    if n.stage.Look? {
      assert forall t :: PhaseOf(r, t) == PhaseOf(w, t);
    } else {
      UnparkPlaced(w, c, e, r);
    }
  }

  lemma StepPlaced(w: World, c: int, v: Event)
    requires Good(w) && Placed(w) && Can(w, c, v)
    ensures Placed(Do(w, c, v))
  {
    match v
    case Sched(e) => {
      if Busy(PhaseOf(w, Me(w, c))) { BusyIsNormal(w.sched, c); }
      SchedPlaced(w, c, e, Do(w, c, v));
    }
    case Store(_, _) => assert forall t :: PhaseOf(Do(w, c, v), t) == PhaseOf(w, t);
    case Notify(_, _, _) => assert forall t :: PhaseOf(Do(w, c, v), t) == PhaseOf(w, t);
    case Announce => StorePlaced(w, c, v);
    case Sleep => StorePlaced(w, c, v);
    case Abort => AbortPlaced(w, c);
    case Walk(spurious) => {
      WalkShape(w, c, w.notices[c], spurious);
      WalkPlaced(w, c, w.notices[c], WalkEvent(w.notices[c], spurious), Do(w, c, v));
    }
    case _ => CallPlaced(w, c, v);
  }

  // ---- The whole invariant ----

  /** Marks the proofs that look inside the invariant. */
  predicate Inspect(w: World, k: int) { true }

  /** The invariant, unfolded only where `Inspect` mentions the world. */
  ghost predicate Inv(w: World) { forall k {:trigger Inspect(w, k)} :: Inspect(w, k) ==> Good(w) && Placed(w) }

  lemma Open(w: World)
    requires Inv(w)
    ensures Good(w) && Placed(w)
  {
    assert Inspect(w, 0);
  }

  lemma StepInv(w: World, c: int, v: Event)
    requires Inv(w) && Can(w, c, v)
    ensures Inv(Do(w, c, v))
  {
    Open(w);
    StepGood(w, c, v);
    StepPlaced(w, c, v);
  }

  // ---- Runs ----

  ghost predicate Init(w: World) {
    && S.Init(w.sched) && w.calls == map[] && w.notices == map[]
    && |w.queues| == Q.WAIT_HASH_SIZE && forall b :: 0 <= b < |w.queues| ==> w.queues[b] == []
  }

  ghost predicate Enabled(w: World, run: seq<(int, Event)>)
    decreases |run|
  {
    run == [] || (Can(w, run[0].0, run[0].1) && Enabled(Do(w, run[0].0, run[0].1), run[1..]))
  }

  /** The world after the first `n` events. */
  ghost function After(w: World, run: seq<(int, Event)>, n: nat): World
    requires Enabled(w, run) && n <= |run|
    decreases n
  {
    if n == 0 then w else After(Do(w, run[0].0, run[0].1), run[1..], n - 1)
  }

  lemma InitInv(w: World)
    requires Init(w)
    ensures Inv(w)
  {
    S.InitGood(w.sched);
    assert forall e :: !Queued(w, e);
    forall t | t in w.sched.threads ensures !Sleepy(w.sched, t) { assert S.NewThread(w.sched.threads[t]); }
  }

  lemma {:induction false} AfterStep(w: World, run: seq<(int, Event)>, n: nat)
    requires Enabled(w, run) && n < |run|
    ensures Can(After(w, run, n), run[n].0, run[n].1)
    ensures After(w, run, n + 1) == Do(After(w, run, n), run[n].0, run[n].1)
    decreases n
  {
    if n > 0 { AfterStep(Do(w, run[0].0, run[0].1), run[1..], n - 1); }
  }

  lemma {:induction false} AfterInv(w: World, run: seq<(int, Event)>, n: nat)
    requires Inv(w) && Enabled(w, run) && n <= |run|
    ensures Inv(After(w, run, n))
    decreases n
  {
    if n > 0 {
      StepInv(w, run[0].0, run[0].1);
      AfterInv(Do(w, run[0].0, run[0].1), run[1..], n - 1);
    }
  }

  /** In every run an entry that is queued belongs to a thread that is inside `atomic_wait`
      and has yet to remove it: when the call returns, and its stack frame with the entries
      is gone, none of them is queued. */
  lemma NoEntryLeftBehind(w: World, run: seq<(int, Event)>, n: nat, e: Q.Entry)
    requires Init(w) && Enabled(w, run) && n <= |run|
    ensures var r := After(w, run, n);
            Queued(r, e) ==> !Interruptible(PhaseOf(r, e.thread)) && e in Done(PhaseOf(r, e.thread))
  {
    InitInv(w);
    AfterInv(w, run, n);
    Open(After(w, run, n));
  }

  /** No entry is queued of a waiter on `key` that expects `value` and that a notification
      with `mask` is for. */
  ghost predicate Clear(w: World, key: nat, value: int, mask: bv64) {
    forall e :: Queued(w, e) ==> !Q.Waits(e, key, value, mask)
  }

  /** No entry that a notification is for is queued. */
  ghost predicate Drained(w: World, key: nat, mask: bv64) { forall e :: Queued(w, e) ==> !Q.Matches(e, key, mask) }

  lemma ListDrained(w: World, c: int, n: Notice)
    requires Good(w) && c in w.notices && n == w.notices[c] && Q.Bucket(n.key) < |w.queues|
    requires n.pos == |w.queues[Q.Bucket(n.key)]|
    ensures Drained(w, n.key, n.mask)
  {
    assert NoticeOk(w, c, n);
    forall e | Queued(w, e) ensures !Q.Matches(e, n.key, n.mask) {
      if e.key == n.key {
        var q := w.queues[Q.Bucket(n.key)];
        var i :| 0 <= i < |q| && q[i] == e;
      }
    }
  }

  /** What `atomic_notify` returns if it ends with this step. */
  function Returned(w: World, c: int, n: Notice, spurious: bool): nat
    requires |w.queues| == Q.WAIT_HASH_SIZE && CanWalk(w, c, n, spurious)
  {
    match n.stage
    case Putting(_) => n.woken + 1
    case Trying(t) =>
      var s := S.Do(w.sched, c, if spurious then S.Spurious else S.Step);
      if s.threads[t].wakes != w.sched.threads[t].wakes then n.woken + 1 else n.woken
    case _ => n.woken
  }

  /** Only `Notify` and `Walk` touch the notifications under way, and only their own core's. */
  lemma NoticesApart(w: World, d: int, v: Event)
    requires Can(w, d, v) && !v.Walk?
    ensures Do(w, d, v).notices == if v.Notify? then w.notices[d := Notice(v.nkey, v.mask, v.count, 0, 0, Look)]
            else w.notices
  {
  }

  lemma WalkNotices(w: World, c: int, n: Notice, spurious: bool)
    requires |w.queues| == Q.WAIT_HASH_SIZE && CanWalk(w, c, n, spurious) && c in w.notices && n == w.notices[c]
    ensures var r := DoWalk(w, c, n, spurious);
            && (forall d :: d != c ==> (d in r.notices <==> d in w.notices))
            && (forall d :: d != c && d in w.notices ==> r.notices[d] == w.notices[d])
            && (c in r.notices ==>
                  var m := r.notices[c]; m.key == n.key && m.mask == n.mask && m.count == n.count)
  {
  }

  lemma WalkEnds(w: World, c: int, n: Notice, spurious: bool)
    requires Good(w)
    requires |w.queues| == Q.WAIT_HASH_SIZE && CanWalk(w, c, n, spurious) && c in w.notices && n == w.notices[c]
    requires c !in DoWalk(w, c, n, spurious).notices
    ensures n.count != 0 ==> Returned(w, c, n, spurious) <= n.count
    ensures n.count == 0 || Returned(w, c, n, spurious) < n.count ==>
              n.stage == Look && n.pos == |w.queues[Q.Bucket(n.key)]|
  {
    assert NoticeOk(w, c, n);
  }

  /** A notification ends only by a step of its own core: at the end of the list, where no
      entry that it is for is left, or having woken as many as it was asked to. So one that may
      wake all ends at the end of the list. */
  lemma NoticeEnds(w: World, d: int, v: Event, c: int)
    requires Inv(w) && Can(w, d, v) && c in w.notices && c !in Do(w, d, v).notices
    ensures d == c && v.Walk?
    ensures var n, r := w.notices[c], Do(w, d, v);
            && (n.count != 0 ==> Returned(w, c, n, v.spurious) <= n.count)
            && (n.count == 0 || Returned(w, c, n, v.spurious) < n.count ==> Drained(r, n.key, n.mask))
  {
    if !v.Walk? { NoticesApart(w, d, v); }
    WalkNotices(w, d, w.notices[d], v.spurious);
    Open(w);
    var n := w.notices[c];
    WalkEnds(w, c, n, v.spurious);
    if n.stage == Look && n.pos == |w.queues[Q.Bucket(n.key)]| {
      ListDrained(w, c, n);
      SameQueues(w, Do(w, d, v), n);
    }
  }

  lemma SameQueues(w: World, r: World, n: Notice)
    requires r.queues == w.queues && Drained(w, n.key, n.mask)
    ensures Drained(r, n.key, n.mask)
  {
    assert forall e :: Queued(r, e) <==> Queued(w, e);
  }

  /** While it is under way it is for the same key and mask. */
  lemma NoticeFixed(w: World, d: int, v: Event, c: int)
    requires Can(w, d, v) && c in w.notices && c in Do(w, d, v).notices
    ensures var n, m := w.notices[c], Do(w, d, v).notices[c]; m.key == n.key && m.mask == n.mask && m.count == n.count
  {
    if v.Walk? { WalkNotices(w, d, w.notices[d], v.spurious); } else { NoticesApart(w, d, v); }
  }

  /** The wakes that a notification under way has to its account. */
  function Tally(n: Notice): nat { if n.stage.Putting? then n.woken + 1 else n.woken }

  /** What it counts is what it does: its account grows by one exactly when its compare-exchange
      wakes the thread it has in hand, and no other thread is woken. */
  lemma WalkCounts(w: World, c: int, n: Notice, spurious: bool, t: int)
    requires Good(w)
    requires |w.queues| == Q.WAIT_HASH_SIZE && CanWalk(w, c, n, spurious) && c in w.notices && n == w.notices[c]
    requires t in w.sched.threads
    ensures var r := DoWalk(w, c, n, spurious);
            var gain := (if c in r.notices then Tally(r.notices[c]) else Returned(w, c, n, spurious)) - Tally(n);
            && 0 <= gain <= 1 && t in r.sched.threads
            && r.sched.threads[t].wakes == w.sched.threads[t].wakes + if n.stage == Trying(t) then gain else 0
  {
    assert NoticeOk(w, c, n);
    match n.stage
    case Look =>
    case Call(u) => CallWakes(w.sched, c, u, t);
    case Trying(u) => TryWakes(w.sched, c, u, if spurious then S.Spurious else S.Step, t);
    case Putting(u) => PutWakes(w.sched, c, u, t);
  }

  lemma CallWakes(s: S.Sys, c: int, u: int, t: int)
    requires S.Can(s, c, S.Unpark(u)) && t in s.threads
    ensures t in S.Do(s, c, S.Unpark(u)).threads && S.Do(s, c, S.Unpark(u)).threads[t].wakes == s.threads[t].wakes
  {
  }

  lemma TryWakes(s: S.Sys, c: int, u: int, e: S.Event, t: int)
    requires S.Can(s, c, e) && (e == S.Spurious || e == S.Step) && t in s.threads && u in s.threads
    requires s.cores[c].pc.UnparkTry? && s.cores[c].pc.t == u
    ensures var r := S.Do(s, c, e);
            && t in r.threads && u in r.threads
            && (t != u ==> r.threads[t].wakes == s.threads[t].wakes)
            && (r.threads[u].wakes == s.threads[u].wakes || r.threads[u].wakes == s.threads[u].wakes + 1)
            && (r.cores[c].pc.UnparkTry? ==> r.threads[u].wakes == s.threads[u].wakes)
            && (r.cores[c].pc.UnparkEnqueue? ==> r.threads[u].wakes == s.threads[u].wakes + 1)
  {
  }

  lemma PutWakes(s: S.Sys, c: int, u: int, t: int)
    requires S.Can(s, c, S.Step) && t in s.threads && s.cores[c].pc == S.UnparkEnqueue(u)
    ensures t in S.Do(s, c, S.Step).threads && S.Do(s, c, S.Step).threads[t].wakes == s.threads[t].wakes
  {
  }

  lemma StaysClear(w: World, c: int, v: Event, key: nat, value: int, mask: bv64)
    requires Inv(w) && Can(w, c, v) && Clear(w, key, value, mask) && !Q.Holds(View(w), key, value)
    ensures Clear(Do(w, c, v), key, value, mask)
  {
    var r := Do(w, c, v);
    forall e | Queued(r, e) ensures !Q.Waits(e, key, value, mask) {
      NewlyQueued(w, c, v, e);
    }
  }

  /** Only `wait_queue_prepare` queues an entry, and only if the word is as expected. */
  lemma NewlyQueued(w: World, c: int, v: Event, e: Q.Entry)
    requires Inv(w) && Can(w, c, v) && Queued(Do(w, c, v), e)
    ensures Queued(w, e) || Q.Holds(View(w), e.key, e.expected)
  {
    Open(w);
    if v.Prepare? {
      Q.PreparedQueues(View(w), Todo(PhaseOf(w, Me(w, c)))[0]);
    } else if v.Finish? {
      Q.FinishedQueues(View(w), Done(PhaseOf(w, Me(w, c)))[0]);
    } else if v.Walk? {
      WalkUnqueues(w, c, w.notices[c], v.spurious, e);
    }
  }

  lemma WalkUnqueues(w: World, c: int, n: Notice, spurious: bool, e: Q.Entry)
    requires |w.queues| == Q.WAIT_HASH_SIZE && CanWalk(w, c, n, spurious) && Queued(DoWalk(w, c, n, spurious), e)
    ensures Queued(w, e)
  {
    Q.BucketInRange(n.key);
    var q := w.queues[Q.Bucket(n.key)];
    if n.stage.Look? && n.pos < |q| {
      assert forall x :: x in q[..n.pos] + q[n.pos + 1..] ==> x in q;
    }
  }

  lemma DrainedIsClear(w: World, key: nat, value: int, mask: bv64)
    requires Drained(w, key, mask)
    ensures Clear(w, key, value, mask)
  {
  }

  /** Core `c` began a notification of all waiters with event `m` and ended it with event `n`. */
  ghost predicate NotifiesAll(w: World, run: seq<(int, Event)>, m: nat, n: nat, c: int, key: nat, mask: bv64)
    requires Enabled(w, run)
  {
    && m < n < |run| && run[m] == (c, Notify(key, mask, 0))
    && (forall j :: m < j <= n ==> c in After(w, run, j).notices) && c !in After(w, run, n + 1).notices
  }

  lemma {:induction false} NoticeLasts(w: World, run: seq<(int, Event)>, m: nat, n: nat, j: nat, c: int,
                                       key: nat, mask: bv64)
    requires Enabled(w, run) && NotifiesAll(w, run, m, n, c, key, mask) && m < j <= n
    ensures c in After(w, run, j).notices
    ensures var x := After(w, run, j).notices[c]; x.key == key && x.mask == mask && x.count == 0
    decreases j
  {
    AfterStep(w, run, j - 1);
    if j > m + 1 {
      NoticeLasts(w, run, m, n, j - 1, c, key, mask);
      NoticeFixed(After(w, run, j - 1), run[j - 1].0, run[j - 1].1, c);
    }
  }

  lemma {:induction false} ClearAfter(w: World, run: seq<(int, Event)>, m: nat, n: nat, i: nat, c: int,
                                      key: nat, value: int, mask: bv64)
    requires Inv(w) && Enabled(w, run) && NotifiesAll(w, run, m, n, c, key, mask) && n < i <= |run|
    requires forall j :: n < j < i ==> !Q.Holds(View(After(w, run, j)), key, value)
    ensures Clear(After(w, run, i), key, value, mask)
    decreases i
  {
    AfterInv(w, run, i - 1);
    AfterStep(w, run, i - 1);
    var u := After(w, run, i - 1);
    if i == n + 1 {
      NoticeLasts(w, run, m, n, n, c, key, mask);
      NoticeEnds(u, run[n].0, run[n].1, c);
      DrainedIsClear(After(w, run, i), key, value, mask);
    } else {
      ClearAfter(w, run, m, n, i - 1, c, key, value, mask);
      StaysClear(u, run[i - 1].0, run[i - 1].1, key, value, mask);
    }
  }

  lemma ClearMeansAwake(w: World, key: nat, value: int, mask: bv64, t: int, e: Q.Entry)
    requires Inv(w) && Clear(w, key, value, mask) && e in Done(PhaseOf(w, t)) && Q.Waits(e, key, value, mask)
    ensures !Sleepy(w.sched, t) || InHand(w, t)
  {
    Open(w);
    assert Settled(w, t, e);
  }

  /** No lost wake-up: once a notification of all waiters on `key` has ended, and as long as
      the word there is not `value`, no thread that waits for it to change from `value` is
      parked or parking, unless a core is unparking it at this moment. */
  lemma NoLostWakeup(w: World, run: seq<(int, Event)>, m: nat, n: nat, i: nat, c: int,
                     key: nat, value: int, mask: bv64, t: int, e: Q.Entry)
    requires Init(w) && Enabled(w, run) && NotifiesAll(w, run, m, n, c, key, mask) && n < i <= |run|
    requires forall j :: n < j < i ==> !Q.Holds(View(After(w, run, j)), key, value)
    requires e in Done(PhaseOf(After(w, run, i), t)) && Q.Waits(e, key, value, mask)
    ensures var r := After(w, run, i); !Queued(r, e) && (!Sleepy(r.sched, t) || InHand(r, t))
  {
    InitInv(w);
    ClearAfter(w, run, m, n, i, c, key, value, mask);
    AfterInv(w, run, i);
    ClearMeansAwake(After(w, run, i), key, value, mask, t, e);
  }

  /** A thread that is parked in `atomic_wait` with entries prepared has them all queued,
      unless a core is unparking it at this moment. */
  lemma ParkedIsQueued(w: World, run: seq<(int, Event)>, n: nat, t: int, e: Q.Entry)
    requires Init(w) && Enabled(w, run) && n <= |run|
    requires Sleepy(After(w, run, n).sched, t) && e in Done(PhaseOf(After(w, run, n), t))
    ensures Queued(After(w, run, n), e) || InHand(After(w, run, n), t)
  {
    InitInv(w);
    AfterInv(w, run, n);
    Open(After(w, run, n));
    assert Settled(After(w, run, n), t, e);
  }

  /** In every run a thread is PARKED only inside `atomic_wait`: either it is waiting, and
      each of its entries is queued unless a core is unparking it at this moment; or it has
      stored PARKING and was interrupted before it masked interrupts, and none is. */
  lemma ParkedWhere(w: World, run: seq<(int, Event)>, n: nat, t: int)
    requires Init(w) && Enabled(w, run) && n <= |run| && Parked(After(w, run, n), t)
    ensures var r := After(w, run, n);
            && (PhaseOf(r, t).Asleep? || PhaseOf(r, t).Announced?)
            && (PhaseOf(r, t).Asleep? ==> InHand(r, t) || forall e :: e in Done(PhaseOf(r, t)) ==> Queued(r, e))
            && (PhaseOf(r, t).Announced? ==> forall e :: Queued(r, e) ==> e.thread != t)
  {
    InitInv(w);
    AfterInv(w, run, n);
    var r := After(w, run, n);
    Open(r);
    assert S.ThreadOk(r.sched.threads[t]) && Sleepy(r.sched, t);
    forall e | e in Done(PhaseOf(r, t)) ensures InHand(r, t) || Queued(r, e) {
      assert Settled(r, t, e);
    }
  }

  predicate Parked(w: World, t: int) { t in w.sched.threads && w.sched.threads[t].state == S.Parked }

  // ---- A notification comes to its end ----

  function Left(w: World, n: Notice): int
    requires Q.Bucket(n.key) < |w.queues|
  {
    |w.queues[Q.Bucket(n.key)]| - n.pos
  }

  /** How far the notifier is from the end of its turn; a compare-exchange on a stale value has
      to be repeated. */
  function Rank(w: World, c: int, n: Notice): nat {
    match n.stage
    case Look => 0
    case Putting(_) => 1
    case Trying(t) =>
      if c in w.sched.cores && w.sched.cores[c].pc.UnparkTry? && t in w.sched.threads &&
         w.sched.cores[c].pc.seen == w.sched.threads[t].state then 2 else 3
    case Call(_) => 4
  }

  lemma WalkCan(w: World, c: int)
    requires Good(w) && w.sched.halt == S.Live && c in w.notices
    ensures Can(w, c, Walk(false))
  {
    Q.BucketInRange(w.notices[c].key);
    assert NoticeOk(w, c, w.notices[c]) && S.CoreOk(w.sched, c);
  }

  lemma WalkAdvances(w: World, c: int, n: Notice)
    requires Good(w) && w.sched.halt == S.Live && |w.queues| == Q.WAIT_HASH_SIZE
    requires CanWalk(w, c, n, false) && c in w.notices && n == w.notices[c]
    ensures var r := DoWalk(w, c, n, false);
            && r.sched.halt == S.Live && |r.queues| == |w.queues| && Q.Bucket(n.key) < |w.queues|
            && (c in r.notices ==>
                  var m := r.notices[c];
                  && m.key == n.key
                  && 0 <= Left(r, m) <= Left(w, n) && (Left(r, m) == Left(w, n) ==> Rank(r, c, m) < Rank(w, c, n)))
  {
    Q.BucketInRange(n.key);
    assert NoticeOk(w, c, n);
    match n.stage
    case Look => LookAdvances(w, c, n);
    case Call(t) => TryAdvances(w.sched, c, S.Unpark(t), t);
    case Trying(t) => TryAdvances(w.sched, c, S.Step, t);
    case Putting(t) => PutAdvances(w.sched, c, t);
  }

  lemma LookAdvances(w: World, c: int, n: Notice)
    requires |w.queues| == Q.WAIT_HASH_SIZE
    requires CanWalk(w, c, n, false) && c in w.notices && n == w.notices[c] && n.stage.Look?
    ensures var r := DoWalk(w, c, n, false);
            && |r.queues| == |w.queues| && Q.Bucket(n.key) < |w.queues| && r.sched == w.sched
            && (c in r.notices ==> var m := r.notices[c]; m.key == n.key && 0 <= Left(r, m) < Left(w, n))
  {
    Q.BucketInRange(n.key);
  }

  lemma TryAdvances(s: S.Sys, c: int, e: S.Event, t: int)
    requires S.Can(s, c, e) && t in s.threads
    requires e == S.Unpark(t) || (s.cores[c].pc.UnparkTry? && s.cores[c].pc.t == t && e == S.Step)
    ensures var r := S.Do(s, c, e);
            && r.halt == S.Live && c in r.cores && t in r.threads
            && (r.cores[c].pc.UnparkTry? ==> r.cores[c].pc.seen == r.threads[t].state)
            && (e == S.Step && s.cores[c].pc.seen == s.threads[t].state ==> !r.cores[c].pc.UnparkTry?)
  {
  }

  lemma PutAdvances(s: S.Sys, c: int, t: int)
    requires S.Can(s, c, S.Step) && s.cores[c].pc == S.UnparkEnqueue(t)
    ensures S.Do(s, c, S.Step).halt == S.Live
  {
  }

  /** From every world in which a notification is under way, its core ends it by its own steps,
      whatever the others have done before. */
  lemma {:induction false} NotifyCompletes(w: World, c: int) returns (run: seq<(int, Event)>)
    requires Inv(w) && w.sched.halt == S.Live && c in w.notices && Q.Bucket(w.notices[c].key) < |w.queues|
    ensures Enabled(w, run) && c !in After(w, run, |run|).notices
    ensures forall i :: 0 <= i < |run| ==> run[i] == (c, Walk(false))
    decreases Left(w, w.notices[c]), Rank(w, c, w.notices[c])
  {
    Open(w);
    WalkCan(w, c);
    var n, r := w.notices[c], Do(w, c, Walk(false));
    assert NoticeOk(w, c, n);
    WalkAdvances(w, c, n);
    var rest := [];
    if c in r.notices {
      StepInv(w, c, Walk(false));
      rest := NotifyCompletes(r, c);
    }
    run := [(c, Walk(false))] + rest;
    assert run[0] == (c, Walk(false)) && run[1..] == rest;
  }

  // ---- A call comes to its end, or to sleep ----

  /** Thread `t` runs on core `c`, in the middle of a call, and no lock is taken. */
  predicate Alone(w: World, c: int, t: int) {
    && Runs(w, c) && Me(w, c) == t && w.notices == map[] && w.sched.halt == S.Live && |w.queues| == Q.WAIT_HASH_SIZE
  }

  ghost predicate OwnRun(run: seq<(int, Event)>, c: int) {
    forall i :: 0 <= i < |run| ==> run[i].0 == c && !run[i].1.Sched? && !run[i].1.Store?
  }

  lemma Front(w: World, c: int, v: Event, rest: seq<(int, Event)>) returns (run: seq<(int, Event)>)
    requires Can(w, c, v) && Enabled(Do(w, c, v), rest)
    ensures run == [(c, v)] + rest && Enabled(w, run) && After(w, run, |run|) == After(Do(w, c, v), rest, |rest|)
  {
    run := [(c, v)] + rest;
    assert run[0] == (c, v) && run[1..] == rest;
  }

  /** A thread that has come back from the scheduler, or gives up, or finds a word changed,
      removes what it has queued and leaves the call. */
  lemma {:induction false} CallReturns(w: World, c: int, t: int) returns (run: seq<(int, Event)>)
    requires Inv(w) && Alone(w, c, t) && t in w.calls
    requires var p := w.calls[t];
             p.Finishing? || p.Aborting? || p.Asleep? ||
             (p.Preparing? && p.todo != [] && !Q.Holds(View(w), p.todo[0].key, p.todo[0].expected))
    ensures Enabled(w, run) && OwnRun(run, c)
    ensures var r := After(w, run, |run|); PhaseOf(r, t) == Outside && forall e :: Queued(r, e) ==> e.thread != t
    decreases if w.calls[t].Preparing? then 2 else if w.calls[t].Finishing? then 0 else 1, |Done(w.calls[t])|
  {
    var v := match w.calls[t]
             case Preparing(_, _) => Prepare
             case Aborting(_) => Abort
             case Finishing(done) => if done == [] then Leave else Finish
             case _ => Return;
    assert Can(w, c, v);
    var r := Do(w, c, v);
    StepInv(w, c, v);
    var rest := [];
    if v == Leave {
      Open(r);
    } else {
      StaysAlone(w, c, t, v);
      rest := CallReturns(r, c, t);
    }
    run := Front(w, c, v, rest);
  }

  lemma StaysAlone(w: World, c: int, t: int, v: Event)
    requires Alone(w, c, t) && Can(w, c, v) && (v.Prepare? || v.Abort? || v.Return? || v.Finish?)
    ensures Alone(Do(w, c, v), c, t)
  {
  }

  /** If every word is as expected, the thread queues all its entries and enters the
      scheduler. */
  lemma {:induction false} CallSleeps(w: World, c: int, t: int) returns (run: seq<(int, Event)>)
    requires Inv(w) && Alone(w, c, t) && t in w.calls && w.calls[t].Preparing?
    requires forall e :: e in w.calls[t].todo ==> Q.Holds(View(w), e.key, e.expected)
    ensures Enabled(w, run) && OwnRun(run, c)
    ensures PhaseOf(After(w, run, |run|), t) == Asleep(w.calls[t].done + w.calls[t].todo)
    decreases |w.calls[t].todo|
  {
    var p := w.calls[t];
    if p.todo == [] {
      assert p.done + p.todo == p.done && Can(w, c, Sleep);
      OneStep(w, c, Sleep);
      run := [(c, Sleep)];
    } else {
      var r := Do(w, c, Prepare);
      StepInv(w, c, Prepare);
      StaysAlone(w, c, t, Prepare);
      assert p.todo[0] in p.todo;
      assert (p.done + [p.todo[0]]) + p.todo[1..] == p.done + p.todo;
      var rest := CallSleeps(r, c, t);
      run := Front(w, c, Prepare, rest);
    }
  }

  // ---- A tick in the window before interrupts are masked ----

  lemma {:induction false} Lift(w: World, run: seq<(int, S.Event)>) returns (up: seq<(int, Event)>)
    requires w.notices == map[] && |w.queues| == Q.WAIT_HASH_SIZE && S.Enabled(w.sched, run)
    requires forall i :: 0 <= i < |run| ==> run[i].1 in {S.Step, S.Enter} || (run[i].1.Start? && w.calls == map[])
    requires forall t :: Interruptible(PhaseOf(w, t))
    ensures |up| == |run| && Enabled(w, up) && After(w, up, |up|) == w.(sched := S.Final(w.sched, run))
    decreases |run|
  {
    if run == [] {
      up := [];
    } else {
      var c, e := run[0].0, run[0].1;
      var r := w.(sched := S.Do(w.sched, c, e));
      assert forall t :: PhaseOf(r, t) == PhaseOf(w, t);
      assert Can(w, c, Sched(e)) && Do(w, c, Sched(e)) == r;
      var rest := Lift(r, run[1..]);
      up := [(c, Sched(e))] + rest;
      assert up[1..] == rest;
    }
  }

  lemma OneStep(w: World, c: int, v: Event)
    requires Can(w, c, v)
    ensures Enabled(w, [(c, v)]) && After(w, [(c, v)], 1) == Do(w, c, v)
  {
    var run := [(c, v)];
    assert run[1..] == [] && Enabled(Do(w, c, v), run[1..]);
    assert After(Do(w, c, v), run[1..], 0) == Do(w, c, v);
  }

  lemma {:induction false} Concat(w: World, a: seq<(int, Event)>, b: seq<(int, Event)>)
    requires Enabled(w, a) && Enabled(After(w, a, |a|), b)
    ensures Enabled(w, a + b) && After(w, a + b, |a + b|) == After(After(w, a, |a|), b, |b|)
    decreases |a|
  {
    if a == [] {
      assert a + b == b;
    } else {
      var r := Do(w, a[0].0, a[0].1);
      assert (a + b)[0] == a[0] && (a + b)[1..] == a[1..] + b;
      Concat(r, a[1..], b);
    }
  }

  /** The scheduler is entered by the tick, and the thread parked. */
  function Tick(c: int): seq<(int, S.Event)> {
    [(c, S.Enter), (c, S.Step), (c, S.Step), (c, S.Step), (c, S.Step), (c, S.Step)]
  }

  /** Thread `t` on core `c` has stored PARKING, and the core has nothing else to run. */
  predicate Ticking(s: S.Sys, c: int, t: int) {
    && s.halt == S.Live && c in s.cores && t in s.threads && s.threads[t].state == S.Parking
    && var k := s.cores[c];
    && k.pc == S.Normal && k.current == t != k.idle && k.queue == [] && k.action == S.NoAction
    && k.idle in s.threads && s.threads[k.idle].state == S.Ready
  }

  lemma TickSelects(s: S.Sys, c: int, t: int) returns (r: S.Sys)
    requires Ticking(s, c, t)
    ensures S.Enabled(s, Tick(c)[..3]) && r == S.Final(s, Tick(c)[..3])
    ensures r == S.Sys(s.cores[c := s.cores[c].(pc := S.Selected(s.cores[c].idle), last := t, action := S.Park)],
                       s.threads[t := s.threads[t].(place := S.Leaving(c))]
                       [s.cores[c].idle := s.threads[s.cores[c].idle].(place := S.Chosen(c))], S.Live)
  {
    var run := Tick(c);
    assert run[..0] == [] && S.Final(s, []) == s;
    r := S.Extend(s, run[..0], c, S.Enter, run[..1]);
    r := S.Extend(s, run[..1], c, S.Step, run[..2]);
    r := S.Extend(s, run[..2], c, S.Step, run[..3]);
  }

  lemma TickParks(s: S.Sys, c: int, t: int)
    requires Ticking(s, c, t)
    ensures S.Enabled(s, Tick(c)) && t in S.Final(s, Tick(c)).threads
    ensures S.Final(s, Tick(c)).threads[t].state == S.Parked
  {
    var run := Tick(c);
    var r := TickSelects(s, c, t);
    r := S.Extend(s, run[..3], c, S.Step, run[..4]);
    r := S.Extend(s, run[..4], c, S.Step, run[..5]);
    r := S.Extend(s, run[..5], c, S.Step, run[..6]);
    assert run[..6] == run;
  }

  lemma AnnounceRuns(w: World, c: int, t: int) returns (run: seq<(int, Event)>)
    requires Init(w) && c in w.sched.cores && t in w.sched.threads && w.sched.threads[t].place == S.Fresh
    ensures Enabled(w, run)
    ensures var r := After(w, run, |run|);
            r == World(r.sched, w.words, w.queues, map[t := Announced], map[]) && Ticking(r.sched, c, t)
  {
    S.BootRuns(w.sched, c, t);
    assert S.NewCore(w.sched, c, w.sched.cores[c]);
    run := Lift(w, S.Boot(c, t));
    var w1 := After(w, run, |run|);
    var more := [(c, Announce)];
    OneStep(w1, c, Announce);
    Concat(w, run, more);
    run := run + more;
  }

  /** A parked thread need not be in any queue: a tick between the store of PARKING and the
      masking of interrupts parks it before it has queued anything, and no notification will
      find it. So it goes from the initial state of every machine with such a thread. */
  lemma TickTooEarly(w: World, c: int, t: int) returns (run: seq<(int, Event)>)
    requires Init(w) && c in w.sched.cores && t in w.sched.threads && w.sched.threads[t].place == S.Fresh
    ensures Enabled(w, run)
    ensures var r := After(w, run, |run|);
            && Parked(r, t) && PhaseOf(r, t) == Announced
            && forall e :: !Queued(r, e)
  {
    run := AnnounceRuns(w, c, t);
    var r := After(w, run, |run|);
    TickParks(r.sched, c, t);
    var tick := Lift(r, Tick(c));
    Concat(w, run, tick);
    run := run + tick;
  }
}
