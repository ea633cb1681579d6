/** Scheduling, parking and unparking of threads on any number of cores
    (src/kernel/thread/sched.c, src/kernel/thread/thread.c), as a state machine. Every atomic
    access is one step; a core's run queue is touched only by that core, with interrupts off.
    An assertion that fails stops the machine. */
module Scheduler {
  import opened Lists

  datatype ThreadState = Idle | Dead | Ready | Running | Parking | Parked

  /** Where a thread is, which the code does not store: with core `c`, or with none. */
  datatype Place =
    | Fresh                 // created, not started
    | Asleep                // parked
    | Gone                  // dead and put
    | OnCore(c: int)        // running
    | Yielding(c: int)      // made READY by its own core, not yet in the queue
    | Both(c: int)          // in the queue of the core that is still switching away from it
    | Queued(c: int)        // in the queue
    | Leaving(c: int)       // parking or dead, being switched away from
    | Carried(c: int)       // woken, about to be put into the core's queue
    | Starting(c: int)      // started, about to be put into the core's queue
    | Chosen(c: int)        // taken out of the queue, about to run
    | Resting(c: int)       // the core's idle thread, not running

  /** `wakes` counts the unparks of this thread that succeeded, `settled` those after which
      it was put into a queue or went on running. */
  datatype Thread = Thread(state: ThreadState, place: Place, wakes: nat, settled: nat)

  datatype Action = NoAction | Park | Put

  /** Where a core is in the code of the scheduler. */
  datatype Pc =
    | Normal                            // running its current thread
    | Loaded(seen: ThreadState)         // scheduler_schedule: state loaded
    | Yielded                           // RUNNING replaced by READY
    | Selecting
    | Selected(next: int)
    | Switching
    | After                             // scheduler_after_schedule, on the new thread's stack
    | Requeue                           // scheduler_finish_park lost the race
    | UnparkTry(t: int, seen: ThreadState)
    | UnparkEnqueue(t: int)
    | StartEnqueue(t: int)

  datatype Core = Core(current: int, idle: int, queue: seq<int>, last: int, action: Action, pc: Pc)

  /** Why the machine stopped: a thread was not in a schedulable state on entry, the thread
      selected was not READY, or a thread was started twice. */
  datatype Halt = Live | BadState | NotReady | BadStart

  datatype Sys = Sys(cores: map<int, Core>, threads: map<int, Thread>, halt: Halt)

  datatype Event =
    | BeginPark | AbortPark | Exit      // the current thread's own stores
    | Start(t: int) | Enter | Unpark(t: int)
    | Spurious                          // a weak compare-exchange fails for no reason
    | Step                              // the next step of whatever the core is in

  // ---- The machine ----

  function SetThread(s: Sys, t: int, x: Thread): Sys { s.(threads := s.threads[t := x]) }
  function SetCore(s: Sys, c: int, k: Core): Sys { s.(cores := s.cores[c := k]) }

  /** The code runs event `e` on core `c` only in these situations. */
  predicate Can(s: Sys, c: int, e: Event) {
    && s.halt == Live && c in s.cores && s.cores[c].current in s.threads
    && var k := s.cores[c];
    var me := s.threads[k.current];
    match e
    case BeginPark => k.pc == Normal && k.current != k.idle && me.state == Running
    case Exit => k.pc == Normal && k.current != k.idle && me.state == Running
    case AbortPark => k.pc == Normal && me.state in {Parking, Ready}
    case Start(t) => k.pc == Normal && t in s.threads
    case Enter => k.pc == Normal
    case Unpark(t) => k.pc == Normal && t in s.threads
    case Spurious => k.pc.UnparkTry? && k.pc.t in s.threads
    case Step => k.pc != Normal
  }

  /** `scheduler_try_unpark`, on reading `seen`. */
  function TryFrom(t: int, seen: ThreadState): Pc { if seen in {Parking, Parked} then UnparkTry(t, seen) else Normal }

  /** What the event does. */
  function Do(s: Sys, c: int, e: Event): Sys
    requires Can(s, c, e)
  {
    var k := s.cores[c];
    var me := s.threads[k.current];
    match e
    case BeginPark => SetThread(s, k.current, me.(state := Parking))
    case Exit => SetThread(s, k.current, me.(state := Dead))
    case AbortPark =>
      var settled := if me.state == Ready then me.settled + 1 else me.settled;
      SetThread(s, k.current, me.(state := Running, settled := settled))
    case Start(t) =>
      if s.threads[t].state != Idle then s.(halt := BadStart)
      else SetCore(SetThread(s, t, s.threads[t].(state := Ready, place := Starting(c))), c, k.(pc := StartEnqueue(t)))
    case Enter =>
      if me.state in {Dead, Parking, Running} then SetCore(s, c, k.(pc := Loaded(me.state))) else s.(halt := BadState)
    case Unpark(t) => SetCore(s, c, k.(pc := TryFrom(t, s.threads[t].state)))
    case Spurious => SetCore(s, c, k.(pc := TryFrom(k.pc.t, s.threads[k.pc.t].state)))
    case Step => Advance(s, c)
  }

  function Advance(s: Sys, c: int): Sys
    requires c in s.cores && s.cores[c].current in s.threads
  {
    var k := s.cores[c];
    match k.pc
    case Normal => s
    case Loaded(seen) => AfterLoad(s, c, seen)
    case Yielded => AfterYield(s, c)
    case Selecting => Select(s, c)
    case Selected(n) => Dispatch(s, c, n)
    case Switching => Switched(s, c)
    case After => CleanUp(s, c)
    case Requeue => Enqueue(s, c, k.last, true)
    case UnparkTry(t, seen) => TryUnpark(s, c, t, seen)
    case UnparkEnqueue(t) => Enqueue(s, c, t, true)
    case StartEnqueue(t) => Enqueue(s, c, t, false)
  }

  function AfterLoad(s: Sys, c: int, seen: ThreadState): Sys
    requires c in s.cores && s.cores[c].current in s.threads
  {
    var k := s.cores[c];
    var me := s.threads[k.current];
    if seen == Running then
      SetCore(SetThread(s, k.current, me.(state := Ready, place := Yielding(c))), c, k.(pc := Yielded))
    else
      SetCore(SetThread(s, k.current, me.(place := Leaving(c))), c,
              k.(pc := Selecting, action := if seen == Dead then Put else Park))
  }

  /** Only threads other than the idle thread go into the queue. */
  function AfterYield(s: Sys, c: int): Sys
    requires c in s.cores && s.cores[c].current in s.threads
  {
    var k := s.cores[c];
    var me := s.threads[k.current];
    if k.current != k.idle then
      SetCore(SetThread(s, k.current, me.(place := Both(c))), c, k.(pc := Selecting, queue := k.queue + [k.current]))
    else
      SetCore(SetThread(s, k.current, me.(place := Resting(c))), c, k.(pc := Selecting))
  }

  /** `scheduler_select_thread`. */
  function Select(s: Sys, c: int): Sys
    requires c in s.cores
  {
    var k := s.cores[c].(last := s.cores[c].current);
    var n := if k.queue == [] then k.idle else k.queue[0];
    var r := SetCore(s, c, k.(pc := Selected(n), queue := if k.queue == [] then [] else k.queue[1..]));
    if n in s.threads then SetThread(r, n, s.threads[n].(place := Chosen(c))) else r
  }

  function Dispatch(s: Sys, c: int, n: int): Sys
    requires c in s.cores
  {
    var k := s.cores[c];
    if n !in s.threads || s.threads[n].state != Ready then s.(halt := NotReady)
    else
      SetCore(SetThread(s, n, s.threads[n].(state := Running, place := OnCore(c))), c,
              k.(current := n, pc := if n != k.last then Switching else After))
  }

  /** The core is on the new thread's stack. */
  function Switched(s: Sys, c: int): Sys
    requires c in s.cores
  {
    var k := s.cores[c];
    var r := SetCore(s, c, k.(pc := After));
    if k.last in s.threads && s.threads[k.last].place == Both(c)
    then SetThread(r, k.last, s.threads[k.last].(place := Queued(c))) else r
  }

  /** `scheduler_after_schedule`, with the compare-exchange of `scheduler_finish_park`. */
  function CleanUp(s: Sys, c: int): Sys
    requires c in s.cores
  {
    var k := s.cores[c];
    var done := SetCore(s, c, k.(pc := Normal, action := NoAction));
    if k.last !in s.threads then done
    else
      var x := s.threads[k.last];
      match k.action
      case NoAction => done
      case Put => SetThread(done, k.last, x.(place := Gone))
      case Park =>
        if x.state == Parking then SetThread(done, k.last, x.(state := Parked, place := Asleep))
        else if x.state == Ready then
          SetThread(SetCore(s, c, k.(pc := Requeue, action := NoAction)), k.last, x.(place := Carried(c)))
        else done
  }

  /** The compare-exchange of `scheduler_try_unpark`. */
  function TryUnpark(s: Sys, c: int, t: int, seen: ThreadState): Sys
    requires c in s.cores
  {
    var k := s.cores[c];
    if t !in s.threads then SetCore(s, c, k.(pc := Normal))
    else
      var x := s.threads[t];
      if x.state != seen then SetCore(s, c, k.(pc := TryFrom(t, x.state)))
      else if seen == Parked then
        SetCore(SetThread(s, t, x.(state := Ready, place := Carried(c), wakes := x.wakes + 1)), c,
                k.(pc := UnparkEnqueue(t)))
      else
        SetCore(SetThread(s, t, x.(state := Ready, wakes := x.wakes + 1)), c, k.(pc := Normal))
  }

  /** `scheduler_enqueue`, on the core's own queue. */
  function Enqueue(s: Sys, c: int, t: int, woken: bool): Sys
    requires c in s.cores
  {
    var k := s.cores[c];
    var r := SetCore(s, c, k.(queue := k.queue + [t], pc := Normal));
    if t in s.threads then
      SetThread(r, t, s.threads[t].(place := Queued(c), settled := s.threads[t].settled + if woken then 1 else 0))
    else r
  }

  // ---- The invariant ----

  /** A successful unpark of the thread has not had its effect yet. */
  predicate Pending(x: Thread) { x.place.Carried? || (x.state == Ready && (x.place.OnCore? || x.place.Leaving?)) }

  predicate ThreadOk(x: Thread) {
    && (match x.place
        case Fresh => x.state == Idle
        case Asleep => x.state == Parked
        case Gone => x.state == Dead
        case OnCore(_) => x.state in {Running, Parking, Ready, Dead}
        case Leaving(_) => x.state in {Parking, Ready, Dead}
        case _ => x.state == Ready)
    && x.wakes == x.settled + if Pending(x) then 1 else 0
  }

  predicate At(s: Sys, t: int, p: Place) { t in s.threads && s.threads[t].place == p }

  predicate InState(s: Sys, t: int, a: ThreadState, b: ThreadState) {
    t in s.threads && (s.threads[t].state == a || s.threads[t].state == b)
  }

  /** The thread a core is switching away from, by what will be done with it. */
  predicate LastOk(s: Sys, c: int, k: Core, t: int) {
    match k.action
    case NoAction => t != k.idle ==> At(s, t, Both(c))
    case Park => At(s, t, Leaving(c)) && InState(s, t, Parking, Ready)
    case Put => At(s, t, Leaving(c)) && InState(s, t, Dead, Dead)
  }

  ghost predicate QueueOk(s: Sys, c: int, k: Core) {
    && NoDup(k.queue)
    && (forall t :: t in k.queue ==> At(s, t, Queued(c)) || At(s, t, Both(c)))
    && (forall t :: At(s, t, Both(c)) ==> t in k.queue)
  }

  predicate PcOk(s: Sys, c: int, k: Core) {
    var idle := if k.current == k.idle then InState(s, k.idle, Running, Running) else At(s, k.idle, Resting(c));
    match k.pc
    case Normal => At(s, k.current, OnCore(c)) && idle && k.action == NoAction
    case UnparkTry(_, seen) => At(s, k.current, OnCore(c)) && idle && k.action == NoAction && seen in {Parking, Parked}
    case Loaded(seen) =>
      && At(s, k.current, OnCore(c)) && idle && k.action == NoAction && seen in {Running, Parking, Dead}
      && InState(s, k.current, seen, if seen == Parking then Ready else seen)
      && (seen != Running ==> k.current != k.idle)
    case Yielded =>
      At(s, k.current, Yielding(c)) && (k.current == k.idle || At(s, k.idle, Resting(c))) && k.action == NoAction
    case Selecting =>
      && At(s, k.idle, Resting(c)) && LastOk(s, c, k, k.current) && (k.action != NoAction ==> k.current != k.idle)
    case Selected(n) =>
      && At(s, n, Chosen(c)) && (n == k.idle || At(s, k.idle, Resting(c))) && k.last == k.current
      && (n != k.last ==> LastOk(s, c, k, k.last)) && (n == k.last ==> k.action == NoAction)
    case Switching =>
      && At(s, k.current, OnCore(c)) && idle && k.last != k.current && LastOk(s, c, k, k.last)
    case After =>
      && At(s, k.current, OnCore(c)) && idle &&
         (k.action != NoAction ==> LastOk(s, c, k, k.last) && k.last != k.current)
    case Requeue => At(s, k.current, OnCore(c)) && idle && k.action == NoAction && At(s, k.last, Carried(c))
    case UnparkEnqueue(t) => At(s, k.current, OnCore(c)) && idle && k.action == NoAction && At(s, t, Carried(c))
    case StartEnqueue(t) => At(s, k.current, OnCore(c)) && idle && k.action == NoAction && At(s, t, Starting(c))
  }

  ghost predicate CoreOk(s: Sys, c: int) {
    c in s.cores && QueueOk(s, c, s.cores[c]) && PcOk(s, c, s.cores[c])
  }

  ghost predicate Good(s: Sys) {
    && (forall t :: t in s.threads ==> ThreadOk(s.threads[t]))
    && (forall c {:trigger CoreOk(s, c)} :: c in s.cores ==> CoreOk(s, c))
  }

  // ---- Steps of one core leave the others alone ----

  predicate Near(c: int, p: Place) { p.Fresh? || p.Asleep? || p.Gone? || p.c == c }

  /** A thread that was with core `c` or with none still is; or it was caught parking. */
  predicate Change(c: int, x: Thread, y: Thread) {
    || y == x
    || (Near(c, x.place) && Near(c, y.place))
    || (x.state == Parking && y == x.(state := Ready, wakes := x.wakes + 1))
  }

  ghost predicate Confined(s: Sys, r: Sys, c: int) {
    && r.threads.Keys == s.threads.Keys && r.cores.Keys == s.cores.Keys
    && (forall d :: d in s.cores && d != c ==> r.cores[d] == s.cores[d])
    && (forall t :: t in s.threads ==> Change(c, s.threads[t], r.threads[t]))
  }

  lemma AtElsewhere(s: Sys, r: Sys, c: int, t: int, p: Place)
    requires Confined(s, r, c) && !Near(c, p)
    ensures At(s, t, p) <==> At(r, t, p)
  {
    if t in s.threads { assert Change(c, s.threads[t], r.threads[t]); }
  }

  lemma StateElsewhere(s: Sys, r: Sys, c: int, d: int, t: int, p: Place)
    requires Confined(s, r, c) && !Near(c, p) && At(s, t, p)
    ensures r.threads[t].state == s.threads[t].state || (s.threads[t].state == Parking && r.threads[t].state == Ready)
  {
    assert Change(c, s.threads[t], r.threads[t]);
  }

  lemma QueueElsewhere(s: Sys, r: Sys, c: int, d: int)
    requires Confined(s, r, c) && d in s.cores && d != c && QueueOk(s, d, s.cores[d])
    ensures QueueOk(r, d, s.cores[d])
  {
    forall t ensures (At(r, t, Queued(d)) <==> At(s, t, Queued(d))) && (At(r, t, Both(d)) <==> At(s, t, Both(d))) {
      AtElsewhere(s, r, c, t, Queued(d));
      AtElsewhere(s, r, c, t, Both(d));
    }
  }

  lemma LastElsewhere(s: Sys, r: Sys, c: int, d: int, k: Core, t: int)
    requires Confined(s, r, c) && d != c && LastOk(s, d, k, t)
    ensures LastOk(r, d, k, t)
  {
    AtElsewhere(s, r, c, t, Both(d));
    AtElsewhere(s, r, c, t, Leaving(d));
    if At(s, t, Leaving(d)) { StateElsewhere(s, r, c, d, t, Leaving(d)); }
  }

  lemma PcElsewhere(s: Sys, r: Sys, c: int, d: int)
    requires Confined(s, r, c) && d in s.cores && d != c && PcOk(s, d, s.cores[d])
    ensures PcOk(r, d, s.cores[d])
  {
    var k := s.cores[d];
    AtElsewhere(s, r, c, k.current, OnCore(d));
    AtElsewhere(s, r, c, k.current, Yielding(d));
    AtElsewhere(s, r, c, k.idle, Resting(d));
    if At(s, k.current, OnCore(d)) { StateElsewhere(s, r, c, d, k.current, OnCore(d)); }
    match k.pc
    case Selecting => LastElsewhere(s, r, c, d, k, k.current);
    case Selected(n) =>
      AtElsewhere(s, r, c, n, Chosen(d));
      if n != k.last { LastElsewhere(s, r, c, d, k, k.last); }
    case Switching => LastElsewhere(s, r, c, d, k, k.last);
    case After => if k.action != NoAction { LastElsewhere(s, r, c, d, k, k.last); }
    case Requeue => AtElsewhere(s, r, c, k.last, Carried(d));
    case UnparkEnqueue(t) => AtElsewhere(s, r, c, t, Carried(d));
    case StartEnqueue(t) => AtElsewhere(s, r, c, t, Starting(d));
    case _ =>
  }

  /** So a step keeps the invariant if it does for the core that makes it. */
  lemma KeepsGood(s: Sys, r: Sys, c: int)
    requires Good(s) && Confined(s, r, c) && CoreOk(r, c)
    requires forall t :: t in r.threads ==> ThreadOk(r.threads[t])
    ensures Good(r)
  {
    forall d | d in r.cores ensures CoreOk(r, d) {
      if d != c {
        assert CoreOk(s, d);
        QueueElsewhere(s, r, c, d);
        PcElsewhere(s, r, c, d);
      }
    }
  }

  // ---- Every step keeps the invariant ----

  /** Steps in which the current thread changes only its own state word. */
  lemma OwnStoreGood(s: Sys, c: int, e: Event)
    requires Good(s) && Can(s, c, e) && e in {BeginPark, AbortPark, Exit}
    ensures Good(Do(s, c, e))
  {
    assert CoreOk(s, c);
    KeepsGood(s, Do(s, c, e), c);
  }

  lemma StartGood(s: Sys, c: int, t: int)
    requires Good(s) && Can(s, c, Start(t)) && s.threads[t].state == Idle
    ensures Good(Do(s, c, Start(t)))
  {
    assert CoreOk(s, c) && ThreadOk(s.threads[t]);
    KeepsGood(s, Do(s, c, Start(t)), c);
  }

  /** Steps that only move the core on in its code. */
  lemma PlainGood(s: Sys, c: int, e: Event)
    requires Good(s) && Can(s, c, e) && (e.Enter? || e.Unpark? || e.Spurious?) && Do(s, c, e).halt == Live
    ensures Good(Do(s, c, e))
  {
    assert CoreOk(s, c);
    KeepsGood(s, Do(s, c, e), c);
  }

  lemma AfterLoadGood(s: Sys, c: int, seen: ThreadState)
    requires Good(s) && c in s.cores && s.cores[c].current in s.threads && s.cores[c].pc == Loaded(seen)
    ensures Good(AfterLoad(s, c, seen))
  {
    assert CoreOk(s, c) && ThreadOk(s.threads[s.cores[c].current]);
    KeepsGood(s, AfterLoad(s, c, seen), c);
  }

  lemma AfterYieldGood(s: Sys, c: int)
    requires Good(s) && c in s.cores && s.cores[c].current in s.threads && s.cores[c].pc == Yielded
    ensures Good(AfterYield(s, c))
  {
    assert CoreOk(s, c) && ThreadOk(s.threads[s.cores[c].current]);
    NoDupSnoc(s.cores[c].queue, s.cores[c].current);
    KeepsGood(s, AfterYield(s, c), c);
  }

  lemma SelectGood(s: Sys, c: int)
    requires Good(s) && c in s.cores && s.cores[c].pc == Selecting
    ensures Good(Select(s, c))
  {
    var k := s.cores[c];
    assert CoreOk(s, c);
    var n := if k.queue == [] then k.idle else k.queue[0];
    if k.queue != [] { NoDupTail(k.queue); }
    assert At(s, n, Resting(c)) || At(s, n, Queued(c)) || At(s, n, Both(c));
    assert ThreadOk(s.threads[n]);
    KeepsGood(s, Select(s, c), c);
  }

  /** The thread selected is READY: the assertion before it is made RUNNING holds. */
  lemma SelectedReady(s: Sys, c: int, n: int)
    requires Good(s) && c in s.cores && s.cores[c].pc == Selected(n)
    ensures n in s.threads && s.threads[n].state == Ready
  {
    assert CoreOk(s, c) && ThreadOk(s.threads[n]);
  }

  lemma DispatchGood(s: Sys, c: int, n: int)
    requires Good(s) && c in s.cores && s.cores[c].pc == Selected(n)
    ensures Good(Dispatch(s, c, n)) && Dispatch(s, c, n).halt == s.halt
  {
    SelectedReady(s, c, n);
    assert CoreOk(s, c) && ThreadOk(s.threads[n]);
    KeepsGood(s, Dispatch(s, c, n), c);
  }

  lemma SwitchedGood(s: Sys, c: int)
    requires Good(s) && c in s.cores && s.cores[c].pc == Switching
    ensures Good(Switched(s, c))
  {
    assert CoreOk(s, c);
    KeepsGood(s, Switched(s, c), c);
  }

  lemma CleanUpConfined(s: Sys, c: int)
    requires Good(s) && c in s.cores && s.cores[c].pc == After
    ensures Confined(s, CleanUp(s, c), c)
  {
    assert CoreOk(s, c);
  }

  lemma CleanUpThreads(s: Sys, c: int)
    requires Good(s) && c in s.cores && s.cores[c].pc == After
    ensures forall t :: t in CleanUp(s, c).threads ==> ThreadOk(CleanUp(s, c).threads[t])
  {
    assert CoreOk(s, c);
  }

  lemma CleanUpGood(s: Sys, c: int)
    requires Good(s) && c in s.cores && s.cores[c].pc == After
    ensures Good(CleanUp(s, c))
  {
    assert CoreOk(s, c);
    CleanUpConfined(s, c);
    CleanUpThreads(s, c);
    KeepsGood(s, CleanUp(s, c), c);
  }

  lemma TryUnparkGood(s: Sys, c: int, t: int, seen: ThreadState)
    requires Good(s) && c in s.cores && s.cores[c].pc == UnparkTry(t, seen)
    ensures Good(TryUnpark(s, c, t, seen))
  {
    assert CoreOk(s, c);
    if t in s.threads { assert ThreadOk(s.threads[t]); }
    KeepsGood(s, TryUnpark(s, c, t, seen), c);
  }

  lemma EnqueueGood(s: Sys, c: int, t: int, woken: bool)
    requires Good(s) && c in s.cores && s.cores[c].action == NoAction
    requires s.cores[c].pc in {Requeue, UnparkEnqueue(t), StartEnqueue(t)}
    requires (s.cores[c].pc == Requeue ==> t == s.cores[c].last)
    requires woken <==> s.cores[c].pc != StartEnqueue(t)
    ensures Good(Enqueue(s, c, t, woken))
  {
    assert CoreOk(s, c);
    assert At(s, t, Carried(c)) || At(s, t, Starting(c));
    assert ThreadOk(s.threads[t]);
    NoDupSnoc(s.cores[c].queue, t);
    KeepsGood(s, Enqueue(s, c, t, woken), c);
  }

  lemma AdvanceGood(s: Sys, c: int)
    requires Good(s) && Can(s, c, Step)
    ensures Good(Advance(s, c)) && Advance(s, c).halt == Live
  {
    assert CoreOk(s, c);
    match s.cores[c].pc
    case Normal =>
    case Loaded(seen) => AfterLoadGood(s, c, seen);
    case Yielded => AfterYieldGood(s, c);
    case Selecting => SelectGood(s, c);
    case Selected(n) => DispatchGood(s, c, n);
    case Switching => SwitchedGood(s, c);
    case After => CleanUpGood(s, c);
    case Requeue => EnqueueGood(s, c, s.cores[c].last, true);
    case UnparkTry(t, seen) => TryUnparkGood(s, c, t, seen);
    case UnparkEnqueue(t) => EnqueueGood(s, c, t, true);
    case StartEnqueue(t) => EnqueueGood(s, c, t, false);
  }

  /** Every step keeps the invariant. The machine stops only when a thread that was woken
      before it left enters the scheduler, or when a thread is started twice; never because
      a selected thread is not READY. */
  lemma StepGood(s: Sys, c: int, e: Event)
    requires Good(s) && Can(s, c, e)
    ensures Good(Do(s, c, e))
    ensures Do(s, c, e).halt == BadState <==> e == Enter && s.threads[s.cores[c].current].state == Ready
    ensures Do(s, c, e).halt == BadStart <==> e.Start? && s.threads[e.t].state != Idle
    ensures Do(s, c, e).halt != NotReady
  {
    assert CoreOk(s, c) && ThreadOk(s.threads[s.cores[c].current]);
    match e
    case BeginPark => OwnStoreGood(s, c, e);
    case AbortPark => OwnStoreGood(s, c, e);
    case Exit => OwnStoreGood(s, c, e);
    case Start(t) => if s.threads[t].state == Idle { StartGood(s, c, t); } else { HaltGood(s, BadStart); }
    case Enter => if Do(s, c, e).halt == Live { PlainGood(s, c, e); } else { HaltGood(s, BadState); }
    case Unpark(t) => PlainGood(s, c, e);
    case Spurious => PlainGood(s, c, e);
    case Step => AdvanceGood(s, c);
  }

  lemma HaltGood(s: Sys, h: Halt)
    requires Good(s)
    ensures Good(s.(halt := h))
  {
    var r := s.(halt := h);
    forall d | d in r.cores ensures CoreOk(r, d) {
      assert CoreOk(s, d);
      assert QueueOk(r, d, r.cores[d]);
      assert PcOk(r, d, r.cores[d]);
    }
  }

  // ---- Runs ----

  predicate NewThread(x: Thread) {
    && x.wakes == 0 && x.settled == 0
    && if x.place.OnCore? then x.state == Running else x.state == Idle && x.place == Fresh
  }

  predicate NewCore(s: Sys, c: int, k: Core) {
    && k.current == k.idle && k.queue == [] && k.pc == Normal && k.action == NoAction
    && At(s, k.idle, OnCore(c)) && InState(s, k.idle, Running, Running)
  }

  /** The thread is the idle thread of the core that its place names. */
  predicate OwnIdle(s: Sys, t: int)
    requires t in s.threads && s.threads[t].place.OnCore?
  {
    s.threads[t].place.c in s.cores && s.cores[s.threads[t].place.c].idle == t
  }

  /** Every core runs its idle thread; every other thread is yet to be started. */
  ghost predicate Init(s: Sys) {
    && s.halt == Live
    && (forall c :: c in s.cores ==> NewCore(s, c, s.cores[c]))
    && (forall t :: t in s.threads ==> NewThread(s.threads[t]))
    && (forall t :: t in s.threads && s.threads[t].place.OnCore? ==> OwnIdle(s, t))
  }

  ghost predicate Enabled(s: Sys, run: seq<(int, Event)>)
    decreases |run|
  {
    run == [] || (Can(s, run[0].0, run[0].1) && Enabled(Do(s, run[0].0, run[0].1), run[1..]))
  }

  ghost function Final(s: Sys, run: seq<(int, Event)>): Sys
    requires Enabled(s, run)
    decreases |run|
  {
    if run == [] then s else Final(Do(s, run[0].0, run[0].1), run[1..])
  }

  lemma InitGood(s: Sys)
    requires Init(s)
    ensures Good(s)
  {
  }

  lemma {:induction false} RunGood(s: Sys, run: seq<(int, Event)>)
    requires Good(s) && s.halt != NotReady && Enabled(s, run)
    ensures Good(Final(s, run)) && Final(s, run).halt != NotReady
    decreases |run|
  {
    if run != [] {
      StepGood(s, run[0].0, run[0].1);
      RunGood(Do(s, run[0].0, run[0].1), run[1..]);
    }
  }

  lemma {:induction false} RunSnoc(s: Sys, run: seq<(int, Event)>, c: int, e: Event)
    requires Enabled(s, run) && Can(Final(s, run), c, e)
    ensures Enabled(s, run + [(c, e)]) && Final(s, run + [(c, e)]) == Do(Final(s, run), c, e)
    decreases |run|
  {
    var more := run + [(c, e)];
    if run == [] {
      assert more[1..] == [];
    } else {
      RunSnoc(Do(s, run[0].0, run[0].1), run[1..], c, e);
      assert more[0] == run[0] && more[1..] == run[1..] + [(c, e)];
    }
  }

  lemma Extend(s: Sys, run: seq<(int, Event)>, c: int, e: Event, more: seq<(int, Event)>) returns (r: Sys)
    requires Enabled(s, run) && Can(Final(s, run), c, e) && more == run + [(c, e)]
    ensures Enabled(s, more) && r == Final(s, more) == Do(Final(s, run), c, e)
  {
    RunSnoc(s, run, c, e);
    r := Final(s, more);
  }

  /** The idle thread of core `c` starts thread `t` and yields to it. */
  function Boot(c: int, t: int): seq<(int, Event)> {
    [(c, Start(t)), (c, Step), (c, Enter), (c, Step), (c, Step), (c, Step), (c, Step), (c, Step), (c, Step)]
  }

  /** The machine that differs from `s` in core `c`, its idle thread and thread `t`. */
  function Booting(s: Sys, c: int, t: int, k: Core, idle: Thread, x: Thread): Sys
    requires c in s.cores
  {
    Sys(s.cores[c := k], s.threads[s.cores[c].idle := idle][t := x], Live)
  }

  lemma BootQueues(s: Sys, c: int, t: int) returns (r: Sys)
    requires Init(s) && c in s.cores && t in s.threads && s.threads[t].place == Fresh
    ensures Enabled(s, Boot(c, t)[..4]) && r == Final(s, Boot(c, t)[..4]) && t != s.cores[c].idle
    ensures r == Booting(s, c, t, s.cores[c].(queue := [t], pc := Yielded),
                         Thread(Ready, Yielding(c), 0, 0), Thread(Ready, Queued(c), 0, 0))
  {
    assert NewCore(s, c, s.cores[c]) && NewThread(s.threads[t]) && NewThread(s.threads[s.cores[c].idle]);
    var run := Boot(c, t);
    assert run[..0] == [] && Final(s, []) == s;
    r := Extend(s, run[..0], c, Start(t), run[..1]);
    r := Extend(s, run[..1], c, Step, run[..2]);
    assert r.cores[c].queue == [t];
    r := Extend(s, run[..2], c, Enter, run[..3]);
    r := Extend(s, run[..3], c, Step, run[..4]);
  }

  lemma BootSelects(s: Sys, c: int, t: int) returns (r: Sys)
    requires Init(s) && c in s.cores && t in s.threads && s.threads[t].place == Fresh
    ensures Enabled(s, Boot(c, t)[..6]) && r == Final(s, Boot(c, t)[..6]) && t != s.cores[c].idle
    ensures r == Booting(s, c, t, s.cores[c].(pc := Selected(t), last := s.cores[c].idle),
                         Thread(Ready, Resting(c), 0, 0), Thread(Ready, Chosen(c), 0, 0))
  {
    assert NewCore(s, c, s.cores[c]);
    var run := Boot(c, t);
    r := BootQueues(s, c, t);
    r := Extend(s, run[..4], c, Step, run[..5]);
    r := Extend(s, run[..5], c, Step, run[..6]);
  }

  lemma BootRuns(s: Sys, c: int, t: int)
    requires Init(s) && c in s.cores && t in s.threads && s.threads[t].place == Fresh
    ensures Enabled(s, Boot(c, t)) && t != s.cores[c].idle
    ensures Final(s, Boot(c, t)) == Booting(s, c, t, s.cores[c].(current := t, last := s.cores[c].idle),
                                            Thread(Ready, Resting(c), 0, 0), Thread(Running, OnCore(c), 0, 0))
  {
    assert NewCore(s, c, s.cores[c]);
    var run := Boot(c, t);
    var r := BootSwitches(s, c, t);
    r := Extend(s, run[..8], c, Step, run[..9]);
    assert run[..9] == run;
  }

  lemma BootSwitches(s: Sys, c: int, t: int) returns (r: Sys)
    requires Init(s) && c in s.cores && t in s.threads && s.threads[t].place == Fresh
    ensures Enabled(s, Boot(c, t)[..8]) && r == Final(s, Boot(c, t)[..8]) && t != s.cores[c].idle
    ensures r == Booting(s, c, t, s.cores[c].(current := t, last := s.cores[c].idle, pc := After),
                         Thread(Ready, Resting(c), 0, 0), Thread(Running, OnCore(c), 0, 0))
  {
    assert NewCore(s, c, s.cores[c]);
    var run := Boot(c, t);
    r := BootSelects(s, c, t);
    r := Extend(s, run[..6], c, Step, run[..7]);
    r := Extend(s, run[..7], c, Step, run[..8]);
  }

  /** The stop is real, from the initial state of any machine with two cores and a thread
      besides the idle ones: a thread that has announced that it will park, and is unparked
      by another core before it enters the scheduler, stops the machine there. */
  lemma WokenTooEarly(s: Sys, c: int, d: int, t: int) returns (run: seq<(int, Event)>)
    requires Init(s) && c in s.cores && d in s.cores && c != d && t in s.threads && s.threads[t].place == Fresh
    ensures run == Boot(c, t) + [(c, BeginPark), (d, Unpark(t)), (d, Step), (c, Enter)]
    ensures Enabled(s, run) && Final(s, run).halt == BadState
  {
    BootRuns(s, c, t);
    assert NewCore(s, d, s.cores[d]);
    run := Boot(c, t);
    var s1 := Extend(s, run, c, BeginPark, run + [(c, BeginPark)]);
    run := run + [(c, BeginPark)];
    var s2 := Extend(s, run, d, Unpark(t), run + [(d, Unpark(t))]);
    run := run + [(d, Unpark(t))];
    var s3 := Extend(s, run, d, Step, run + [(d, Step)]);
    run := run + [(d, Step)];
    var s4 := Extend(s, run, c, Enter, run + [(c, Enter)]);
    run := run + [(c, Enter)];
  }

  /** Core `c` is running `t`, or has not finished switching away from it. */
  predicate Occupies(s: Sys, c: int, t: int) {
    c in s.cores && (s.cores[c].current == t || (s.cores[c].pc == Switching && s.cores[c].last == t))
  }

  /** In every state of every run, on any number of cores: a thread is in at most one run
      queue, at most once; no two cores occupy it; and no core has it in its queue while
      another still occupies it. */
  lemma RunsSafe(s: Sys, run: seq<(int, Event)>, t: int, c: int, d: int)
    requires Init(s) && Enabled(s, run)
    ensures var r := Final(s, run);
            && (c in r.cores ==> forall i, j :: 0 <= i < j < |r.cores[c].queue| ==>
                                                  r.cores[c].queue[i] != r.cores[c].queue[j])
            && (c in r.cores && d in r.cores && t in r.cores[c].queue && t in r.cores[d].queue ==> c == d)
            && (Occupies(r, c, t) && Occupies(r, d, t) ==> c == d)
            && (Occupies(r, c, t) && d in r.cores && t in r.cores[d].queue ==> c == d)
            && r.halt != NotReady
  {
    InitGood(s);
    RunGood(s, run);
    var r := Final(s, run);
    if c in r.cores { assert CoreOk(r, c); }
    if d in r.cores { assert CoreOk(r, d); }
    if Occupies(r, c, t) { OccupiedHome(r, c, t); }
    if Occupies(r, d, t) { OccupiedHome(r, d, t); }
  }

  lemma OccupiedHome(s: Sys, c: int, t: int)
    requires Good(s) && Occupies(s, c, t)
    ensures t in s.threads && !s.threads[t].place.Fresh? && !s.threads[t].place.Asleep? && !s.threads[t].place.Gone?
    ensures s.threads[t].place.c == c
  {
    assert CoreOk(s, c);
  }

  /** In every run the unparks of a thread that succeeded are as many as the times it was put
      into a queue or went on running because of one, but for at most one still under way:
      none is lost and none has its effect twice. */
  lemma RunsSettle(s: Sys, run: seq<(int, Event)>, t: int)
    requires Init(s) && Enabled(s, run) && t in Final(s, run).threads
    ensures var x := Final(s, run).threads[t]; x.wakes == x.settled + if Pending(x) then 1 else 0
  {
    InitGood(s);
    RunGood(s, run);
    assert ThreadOk(Final(s, run).threads[t]);
  }

  /** How one step accounts for an unpark: the compare-exchange that makes the thread READY
      is the only one that counts a wake, and the wake is settled by exactly one enqueueing,
      by the unparking core or by the core that switched the thread out, or by the thread
      itself if it gives up parking. */
  lemma StepSettles(s: Sys, c: int, e: Event, t: int)
    requires Good(s) && Can(s, c, e) && t in s.threads
    ensures t in Do(s, c, e).threads
    ensures var x, y := s.threads[t], Do(s, c, e).threads[t];
            && (y.wakes != x.wakes ==> y.wakes == x.wakes + 1 && x.state in {Parking, Parked} && y.state == Ready)
            && (y.settled != x.settled ==> y.settled == x.settled + 1 && Pending(x) && !Pending(y))
            && (y.settled != x.settled && e != AbortPark ==> Do(s, c, e).cores[c].queue == s.cores[c].queue + [t])
            && (y.settled != x.settled && e == AbortPark ==> s.cores[c].current == t && y.state == Running)
  {
    assert CoreOk(s, c) && ThreadOk(s.threads[t]);
    if e == Step && s.cores[c].pc.Selected? { SelectedReady(s, c, s.cores[c].pc.next); }
  }

  // ---- The run queues are first in, first out ----

  /** Core `c` is about to select a thread. */
  predicate Selects(s: Sys, c: int, e: Event) { e == Step && c in s.cores && s.cores[c].pc == Selecting }

  /** A step leaves the queues of the other cores alone and changes its own core's in one of
      two ways: a thread is appended, or, when the core selects one, the first thread leaves
      and is the one selected. The idle thread is selected only if the queue is empty. */
  lemma QueueStep(s: Sys, c: int, e: Event, d: int)
    requires Good(s) && Can(s, c, e) && d in s.cores
    ensures d in Do(s, c, e).cores
    ensures var q, k := s.cores[d].queue, Do(s, c, e).cores[d];
            && (d != c ==> k == s.cores[d])
            && (d == c && Selects(s, c, e) ==>
                  if q == [] then k.queue == [] && k.pc == Selected(k.idle)
                  else k.queue == q[1..] && k.pc == Selected(q[0]))
            && (d == c && !Selects(s, c, e) ==> k.queue == q || (|k.queue| == |q| + 1 && k.queue[..|q|] == q))
  {
    assert CoreOk(s, c);
    if e == Step { AdvanceQueue(s, c); }
  }

  lemma AdvanceQueue(s: Sys, c: int)
    requires CoreOk(s, c) && s.cores[c].current in s.threads
    ensures var q, k := s.cores[c].queue, Advance(s, c).cores[c];
            && c in Advance(s, c).cores
            && (forall d :: d in s.cores && d != c ==> d in Advance(s, c).cores && Advance(s, c).cores[d] == s.cores[d])
            && (s.cores[c].pc == Selecting ==>
                  if q == [] then k.queue == [] && k.pc == Selected(k.idle)
                  else k.queue == q[1..] && k.pc == Selected(q[0]))
            && (s.cores[c].pc != Selecting ==> k.queue == q || (|k.queue| == |q| + 1 && k.queue[..|q|] == q))
  {
  }

  /** Marks the proofs that look inside the invariant. */
  predicate Look(s: Sys, k: int) { true }

  /** The invariant, unfolded only where `Look` mentions the machine. */
  ghost predicate Sealed(s: Sys) { forall k {:trigger Look(s, k)} :: Look(s, k) ==> Good(s) }

  lemma StepSealed(s: Sys, c: int, e: Event)
    requires Sealed(s) && Can(s, c, e)
    ensures Sealed(Do(s, c, e))
  {
    assert Look(s, 0);
    StepGood(s, c, e);
  }

  /** So a thread moves up by one with every selection of its core, and at the front is the one
      selected. */
  lemma QueueIndex(s: Sys, d: int, e: Event, c: int, i: nat, t: int)
    requires Sealed(s) && Can(s, d, e) && c in s.cores && i < |s.cores[c].queue| && s.cores[c].queue[i] == t
    ensures c in Do(s, d, e).cores
    ensures var k := Do(s, d, e).cores[c];
            if d == c && Selects(s, c, e) then
              (i == 0 ==> k.pc == Selected(t)) && (i > 0 ==> i - 1 < |k.queue| && k.queue[i - 1] == t)
            else i < |k.queue| && k.queue[i] == t
  {
    assert Look(s, 0);
    QueueStep(s, d, e, c);
    var q, k := s.cores[c].queue, Do(s, d, e).cores[c].queue;
    if |k| > |q| { assert k[i] == k[..|q|][i]; }
  }

  /** How often core `c` selects a thread in the run. */
  ghost function Selections(s: Sys, run: seq<(int, Event)>, c: int): nat
    requires Enabled(s, run)
    decreases |run|
  {
    if run == [] then 0
    else
      (if run[0].0 == c && Selects(s, c, run[0].1) then 1 else 0) + Selections(Do(s, run[0].0, run[0].1), run[1..], c)
  }

  lemma {:induction false} QueueMoves(s: Sys, run: seq<(int, Event)>, c: int, i: nat, t: int)
    requires Sealed(s) && Enabled(s, run) && c in s.cores && i < |s.cores[c].queue| && s.cores[c].queue[i] == t
    ensures var k := Selections(s, run, c);
            && (k <= i ==> var r := Final(s, run);
                           c in r.cores && i - k < |r.cores[c].queue| && r.cores[c].queue[i - k] == t)
            && (k > i ==> exists n: nat :: SelectedBy(s, run, n, c, t))
    decreases |run|
  {
    if run != [] {
      var d, e, r := run[0].0, run[0].1, Do(s, run[0].0, run[0].1);
      StepSealed(s, d, e);
      QueueIndex(s, d, e, c, i, t);
      if d == c && Selects(s, c, e) {
        if i == 0 {
          assert Reached(s, run, 1) == Reached(r, run[1..], 0) == r;
          assert SelectedBy(s, run, 1, c, t);
        } else {
          QueueMoves(r, run[1..], c, i - 1, t);
          if Selections(r, run[1..], c) > i - 1 { Later(s, run, c, t); }
        }
      } else {
        QueueMoves(r, run[1..], c, i, t);
        if Selections(r, run[1..], c) > i { Later(s, run, c, t); }
      }
    }
  }

  /** The machine after the first `n` events. */
  ghost function Reached(s: Sys, run: seq<(int, Event)>, n: nat): Sys
    requires Enabled(s, run) && n <= |run|
    decreases n
  {
    if n == 0 then s else Reached(Do(s, run[0].0, run[0].1), run[1..], n - 1)
  }

  /** After `n` events core `c` has just selected `t`. */
  ghost predicate SelectedBy(s: Sys, run: seq<(int, Event)>, n: nat, c: int, t: int)
    requires Enabled(s, run)
  {
    n <= |run| && c in Reached(s, run, n).cores && Reached(s, run, n).cores[c].pc == Selected(t)
  }

  lemma Later(s: Sys, run: seq<(int, Event)>, c: int, t: int)
    requires Enabled(s, run) && run != []
    requires exists n: nat :: SelectedBy(Do(s, run[0].0, run[0].1), run[1..], n, c, t)
    ensures exists n: nat :: SelectedBy(s, run, n, c, t)
  {
    var n: nat :| SelectedBy(Do(s, run[0].0, run[0].1), run[1..], n, c, t);
    assert SelectedBy(s, run, n + 1, c, t);
  }

  /** In every run a queued thread waits for those before it and for no others: as long as its core
      has selected at most as many threads as were before it, it is that much nearer to the
      front; one selection more and it has been selected. */
  lemma FirstInFirstOut(s: Sys, past: seq<(int, Event)>, run: seq<(int, Event)>, c: int, i: nat, t: int)
    requires Init(s) && Enabled(s, past) && Enabled(Final(s, past), run)
    requires var u := Final(s, past); c in u.cores && i < |u.cores[c].queue| && u.cores[c].queue[i] == t
    ensures var u := Final(s, past);
            var k := Selections(u, run, c);
            && (k <= i ==> var r := Final(u, run);
                           c in r.cores && i - k < |r.cores[c].queue| && r.cores[c].queue[i - k] == t)
            && (k > i ==> exists n: nat :: SelectedBy(u, run, n, c, t))
  {
    RunSealed(s, past);
    QueueMoves(Final(s, past), run, c, i, t);
  }

  lemma RunSealed(s: Sys, run: seq<(int, Event)>)
    requires Init(s) && Enabled(s, run)
    ensures Sealed(Final(s, run))
  {
    InitGood(s);
    RunGood(s, run);
  }

  // ---- No thread is lost ----

  /** The core that a thread's place names has the thread where that place says. */
  predicate Home(s: Sys, t: int)
    requires t in s.threads
  {
    var p := s.threads[t].place;
    p.Fresh? || p.Asleep? || p.Gone? ||
    (p.c in s.cores &&
     var k := s.cores[p.c];
     match p
     case OnCore(_) => k.current == t && !k.pc.Yielded? && !k.pc.Selecting? && !k.pc.Selected?
     case Yielding(_) => k.current == t && k.pc == Yielded
     case Both(_) =>
       && t in k.queue && k.action == NoAction
       && ((k.pc == Selecting && k.current == t) || ((k.pc.Selected? || k.pc == Switching) && k.last == t))
     case Queued(_) => t in k.queue
     case Leaving(_) =>
       && k.action != NoAction
       && ((k.pc == Selecting && k.current == t) ||
          ((k.pc.Selected? || k.pc == Switching || k.pc == After) && k.last == t))
     case Carried(_) => (k.pc == Requeue && k.last == t) || k.pc == UnparkEnqueue(t)
     case Starting(_) => k.pc == StartEnqueue(t)
     case Chosen(_) => k.pc == Selected(t)
     case _ => k.idle == t)
  }

  ghost predicate AllHome(s: Sys) { forall t :: t in s.threads ==> Home(s, t) }

  /** A step by core `c` does nothing to a thread with another core but perhaps wake it. */
  lemma HomeElsewhere(s: Sys, c: int, e: Event, t: int)
    requires Good(s) && Can(s, c, e) && t in s.threads && !Near(c, s.threads[t].place)
    ensures t in Do(s, c, e).threads && Do(s, c, e).threads[t].place == s.threads[t].place
    ensures forall d :: d in s.cores && d != c ==> d in Do(s, c, e).cores && Do(s, c, e).cores[d] == s.cores[d]
  {
    assert CoreOk(s, c) && ThreadOk(s.threads[t]);
    var q := s.cores[c].queue;
    assert q != [] ==> q[0] in q;
  }

  lemma HomeHere(s: Sys, c: int, e: Event, t: int)
    requires Good(s) && Can(s, c, e) && t in s.threads && Near(c, s.threads[t].place) && Home(s, t) && e != Step
    ensures t in Do(s, c, e).threads && Home(Do(s, c, e), t)
  {
    assert CoreOk(s, c) && ThreadOk(s.threads[t]);
  }

  lemma HomeSelects(s: Sys, c: int, t: int)
    requires Good(s) && Can(s, c, Step) && t in s.threads && Near(c, s.threads[t].place) && Home(s, t)
    requires s.cores[c].pc == Selecting
    ensures t in Select(s, c).threads && Home(Select(s, c), t)
  {
    assert CoreOk(s, c) && ThreadOk(s.threads[t]);
    var q := s.cores[c].queue;
    if q != [] { NoDupTail(q); }
  }

  lemma HomeSwitches(s: Sys, c: int, t: int)
    requires Good(s) && Can(s, c, Step) && t in s.threads && Near(c, s.threads[t].place) && Home(s, t)
    requires s.cores[c].pc.Selected? || s.cores[c].pc == Switching
    ensures t in Advance(s, c).threads && Home(Advance(s, c), t)
  {
    assert CoreOk(s, c) && ThreadOk(s.threads[t]);
    if s.cores[c].pc.Selected? { SelectedReady(s, c, s.cores[c].pc.next); }
  }

  lemma HomeAdvances(s: Sys, c: int, t: int)
    requires Good(s) && Can(s, c, Step) && t in s.threads && Near(c, s.threads[t].place) && Home(s, t)
    requires s.cores[c].pc != Selecting && !s.cores[c].pc.Selected? && s.cores[c].pc != Switching
    ensures t in Advance(s, c).threads && Home(Advance(s, c), t)
  {
    assert CoreOk(s, c) && ThreadOk(s.threads[t]);
  }

  lemma StepHome(s: Sys, c: int, e: Event)
    requires Good(s) && AllHome(s) && Can(s, c, e)
    ensures AllHome(Do(s, c, e))
  {
    var r := Do(s, c, e);
    forall t | t in r.threads ensures Home(r, t) {
      assert t in s.threads && Home(s, t);
      if !Near(c, s.threads[t].place) {
        HomeElsewhere(s, c, e, t);
      } else if e == Step {
        if s.cores[c].pc == Selecting {
          HomeSelects(s, c, t);
        } else if s.cores[c].pc.Selected? || s.cores[c].pc == Switching {
          HomeSwitches(s, c, t);
        } else {
          HomeAdvances(s, c, t);
        }
      } else {
        HomeHere(s, c, e, t);
      }
    }
  }

  lemma {:induction false} RunHome(s: Sys, run: seq<(int, Event)>)
    requires Good(s) && AllHome(s) && Enabled(s, run)
    ensures Good(Final(s, run)) && AllHome(Final(s, run))
    decreases |run|
  {
    if run != [] {
      StepGood(s, run[0].0, run[0].1);
      StepHome(s, run[0].0, run[0].1);
      RunHome(Do(s, run[0].0, run[0].1), run[1..]);
    }
  }

  lemma InitHome(s: Sys)
    requires Init(s)
    ensures Good(s) && AllHome(s)
  {
    InitGood(s);
    forall t | t in s.threads ensures Home(s, t) {
      assert NewThread(s.threads[t]);
      if s.threads[t].place.OnCore? { assert NewCore(s, s.threads[t].place.c, s.cores[s.threads[t].place.c]); }
    }
  }

  /** The thread is READY or RUNNING and with core `c`. */
  predicate Awake(s: Sys, c: int, t: int) {
    && InState(s, t, Ready, Running)
    && var p := s.threads[t].place; !p.Fresh? && !p.Asleep? && !p.Gone? && p.c == c
  }

  /** In every run a READY thread is with a core that has it in its queue, is running or idling
      with it, or is at the very step of its code that puts it there. */
  lemma NoThreadLost(s: Sys, run: seq<(int, Event)>, t: int)
    requires Init(s) && Enabled(s, run) && InState(Final(s, run), t, Ready, Ready)
    ensures var r := Final(s, run); var p := r.threads[t].place; !p.Fresh? && !p.Asleep? && !p.Gone? && Home(r, t)
  {
    InitHome(s);
    RunHome(s, run);
    assert ThreadOk(Final(s, run).threads[t]);
  }

  /** The steps that a core has left until it is out of the code of the scheduler. */
  function StepsLeft(s: Sys, c: int): nat
    requires c in s.cores
  {
    match s.cores[c].pc
    case Normal => 0
    case Loaded(_) => 9
    case Yielded => 8
    case Selecting => 7
    case Selected(_) => 6
    case Switching => 5
    case After => 4
    case Requeue => 1
    case UnparkTry(t, seen) => if t in s.threads && s.threads[t].state == seen then 2 else 3
    case UnparkEnqueue(_) => 1
    case StartEnqueue(_) => 1
  }

  lemma StepProgress(s: Sys, c: int, t: int)
    requires Good(s) && Can(s, c, Step) && Awake(s, c, t)
    ensures var r := Do(s, c, Step);
            r.halt == Live && c in r.cores && StepsLeft(r, c) < StepsLeft(s, c) && Awake(r, c, t)
  {
    assert CoreOk(s, c) && ThreadOk(s.threads[t]);
    AdvanceGood(s, c);
    if s.cores[c].pc.Selected? { SelectedReady(s, c, s.cores[c].pc.next); }
  }

  /** A core in the code of the scheduler comes out of it by its own steps, and then each READY
      thread that was with it is in its queue, or is its current thread or its idle one. */
  lemma {:induction false} ReadyGetsQueued(s: Sys, c: int, t: int) returns (run: seq<(int, Event)>)
    requires Good(s) && AllHome(s) && s.halt == Live && c in s.cores && Awake(s, c, t)
    ensures |run| <= 9 && Enabled(s, run) && forall i :: 0 <= i < |run| ==> run[i] == (c, Step)
    ensures var r := Final(s, run);
            && c in r.cores && r.cores[c].pc == Normal
            && (t in r.cores[c].queue || t == r.cores[c].current || t == r.cores[c].idle)
    ensures |run| <= StepsLeft(s, c)
    decreases StepsLeft(s, c)
  {
    assert CoreOk(s, c) && Home(s, t) && ThreadOk(s.threads[t]);
    if s.cores[c].pc == Normal {
      run := [];
    } else {
      var r := Do(s, c, Step);
      StepGood(s, c, Step);
      StepHome(s, c, Step);
      StepProgress(s, c, t);
      var rest := ReadyGetsQueued(r, c, t);
      run := [(c, Step)] + rest;
      assert run[0] == (c, Step) && run[1..] == rest;
    }
  }

  /** The thread has been switched out for good or to sleep. */
  predicate Left(s: Sys, t: int, was: ThreadState) {
    && t in s.threads
    && (was == Parking ==> s.threads[t].state == Parked && s.threads[t].place == Asleep)
    && (was == Dead ==> s.threads[t].state == Dead && s.threads[t].place == Gone)
  }

  lemma LeavingStep(s: Sys, c: int, t: int)
    requires Good(s) && Can(s, c, Step) && t in s.threads && Home(s, t) && s.threads[t].place == Leaving(c)
    requires s.threads[t].state in {Parking, Dead}
    ensures var r := Do(s, c, Step);
            && r.halt == Live && c in r.cores && StepsLeft(r, c) < StepsLeft(s, c) && t in r.threads
            && (Left(r, t, s.threads[t].state) || (r.threads[t] == s.threads[t] && r.cores[c].pc != Normal))
  {
    assert CoreOk(s, c) && ThreadOk(s.threads[t]);
    AdvanceGood(s, c);
    if s.cores[c].pc.Selected? { SelectedReady(s, c, s.cores[c].pc.next); }
  }

  /** A thread that its core switches away from while PARKING ends up PARKED, and a dead one is
      put, unless another core wakes it first. */
  lemma {:induction false} LeaverLeaves(s: Sys, c: int, t: int) returns (run: seq<(int, Event)>)
    requires Good(s) && AllHome(s) && s.halt == Live && c in s.cores && t in s.threads
    requires s.threads[t].place == Leaving(c) && s.threads[t].state in {Parking, Dead} && s.cores[c].pc != Normal
    ensures |run| <= StepsLeft(s, c) && Enabled(s, run) && Left(Final(s, run), t, s.threads[t].state)
    ensures forall i :: 0 <= i < |run| ==> run[i] == (c, Step)
    decreases StepsLeft(s, c)
  {
    assert CoreOk(s, c) && Home(s, t);
    var r := Do(s, c, Step);
    LeavingStep(s, c, t);
    var rest := [];
    if !Left(r, t, s.threads[t].state) {
      StepGood(s, c, Step);
      StepHome(s, c, Step);
      rest := LeaverLeaves(r, c, t);
    }
    run := [(c, Step)] + rest;
    assert run[0] == (c, Step) && run[1..] == rest;
  }

  /** Dead is for good. */
  lemma DeadStaysDead(s: Sys, c: int, e: Event, t: int)
    requires Good(s) && Can(s, c, e) && t in s.threads && s.threads[t].state == Dead
    ensures t in Do(s, c, e).threads && Do(s, c, e).threads[t].state == Dead
  {
    assert CoreOk(s, c) && ThreadOk(s.threads[t]);
  }
}
