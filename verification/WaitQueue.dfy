/** The wait queues behind `atomic_wait` and `atomic_notify` (src/kernel/thread/wait.c): a
    hash table of singly linked lists, each under a lock, so that every access to a list is
    one step. */
module WaitQueue {
  import opened Lists

  /** A waiter, at address `addr`. `expected` is the value it wants the word at `key` to have;
      the kernel checks it when the entry is queued and does not keep it. */
  datatype Entry = Entry(addr: int, thread: int, key: nat, mask: bv64, expected: int)

  const WAIT_HASH_SIZE: nat := 256
  const GOLDEN_RATIO_64: nat := 0x61C8864680B583EB

  /** `get_wait_queue_for_key`: the top eight bits of the product modulo 2^64. */
  function Bucket(key: nat): nat { (key * GOLDEN_RATIO_64) % 0x1_0000_0000_0000_0000 / 0x100_0000_0000_0000 }

  lemma BucketInRange(key: nat)
    ensures Bucket(key) < WAIT_HASH_SIZE
  {
  }

  /** The notification is for this entry. */
  predicate Matches(e: Entry, key: nat, mask: bv64) { e.key == key && (e.mask & mask) != 0 }

  /** What a notification leaves: the list, the threads that can still be unparked, and how
      many it woke. */
  datatype Outcome = Outcome(queue: seq<Entry>, parked: set<int>, woken: nat)

  /** `atomic_notify` from the front of a list: entries that match leave it, their threads are
      unparked if they can be, until `count` have been (zero means all). */
  function Walk(queue: seq<Entry>, key: nat, mask: bv64, count: nat, parked: set<int>, woken: nat): Outcome
    decreases |queue|
  {
    if queue == [] then Outcome([], parked, woken)
    else if !Matches(queue[0], key, mask) then
      var r := Walk(queue[1..], key, mask, count, parked, woken);
      r.(queue := [queue[0]] + r.queue)
    else
      var hit := queue[0].thread in parked;
      var now := if hit then woken + 1 else woken;
      var left := parked - {queue[0].thread};
      if count != 0 && count == now then Outcome(queue[1..], left, now)
      else Walk(queue[1..], key, mask, count, left, now)
  }

  /** The entries of a list that a notification is not for, in order. */
  function Others(queue: seq<Entry>, key: nat, mask: bv64): seq<Entry> {
    if queue == [] then []
    else if Matches(queue[0], key, mask) then Others(queue[1..], key, mask)
    else [queue[0]] + Others(queue[1..], key, mask)
  }

  /** Only matching entries leave, in order; threads are only ever taken out of `parked`, one
      for each that counts as woken; and the walk stops short only when it has woken as many
      as it was asked to. */
  lemma {:induction false} WalkSpec(queue: seq<Entry>, key: nat, mask: bv64, count: nat, parked: set<int>, woken: nat)
    requires count == 0 || woken < count
    ensures var r := Walk(queue, key, mask, count, parked, woken);
            && Others(r.queue, key, mask) == Others(queue, key, mask)
            && (forall e :: e in r.queue ==> e in queue)
            && r.parked <= parked && r.woken - woken == |parked| - |r.parked|
            && (count != 0 ==> r.woken <= count)
            && (count == 0 || r.woken < count ==> r.queue == Others(queue, key, mask))
            && (forall t :: t in parked && t !in r.parked ==>
                              exists e :: e in queue && e.thread == t && Matches(e, key, mask))
            && (count == 0 || r.woken < count ==>
                  forall e :: e in queue && Matches(e, key, mask) ==> e.thread !in r.parked)
  {
    if queue != [] {
      var first, rest := queue[0], queue[1..];
      assert queue == [first] + rest;
      if !Matches(first, key, mask) {
        WalkSpec(rest, key, mask, count, parked, woken);
        var r := Walk(rest, key, mask, count, parked, woken);
        assert ([first] + r.queue)[1..] == r.queue;
      } else {
        var now := if first.thread in parked then woken + 1 else woken;
        var left := parked - {first.thread};
        if !(count != 0 && count == now) {
          WalkSpec(rest, key, mask, count, left, now);
        }
      }
    }
  }

  /** The threads that a notification is for. */
  function Called(queue: seq<Entry>, key: nat, mask: bv64): set<int> {
    set e | e in queue && Matches(e, key, mask) :: e.thread
  }

  /** The walk went through the first `k` entries: those of them that match have left, and
      their threads are parked no more. */
  ghost predicate UpTo(queue: seq<Entry>, key: nat, mask: bv64, parked: set<int>, r: Outcome, k: nat) {
    && k <= |queue|
    && r.queue == Others(queue[..k], key, mask) + queue[k..]
    && r.parked == parked - Called(queue[..k], key, mask)
  }

  /** The `k`-th entry is for the notification and its thread was parked. */
  predicate Hit(queue: seq<Entry>, key: nat, mask: bv64, parked: set<int>, k: nat) {
    0 < k <= |queue| && Matches(queue[k - 1], key, mask) && queue[k - 1].thread in parked
  }

  lemma UpToNone(queue: seq<Entry>, key: nat, mask: bv64, parked: set<int>, woken: nat)
    ensures UpTo(queue, key, mask, parked, Outcome(queue, parked, woken), 0)
  {
    assert Others([], key, mask) + queue == queue && Called([], key, mask) == {};
  }

  lemma UpToSkip(first: Entry, rest: seq<Entry>, key: nat, mask: bv64, parked: set<int>, r: Outcome, j: nat)
    requires !Matches(first, key, mask) && UpTo(rest, key, mask, parked, r, j)
    ensures UpTo([first] + rest, key, mask, parked, r.(queue := [first] + r.queue), j + 1)
  {
    PrefixStep(first, rest, j, key, mask);
    var o := Others(rest[..j], key, mask);
    assert [first] + (o + rest[j..]) == ([first] + o) + rest[j..];
  }

  lemma UpToTake(first: Entry, rest: seq<Entry>, key: nat, mask: bv64, parked: set<int>, r: Outcome, j: nat)
    requires Matches(first, key, mask) && UpTo(rest, key, mask, parked - {first.thread}, r, j)
    ensures UpTo([first] + rest, key, mask, parked, r, j + 1)
  {
    PrefixStep(first, rest, j, key, mask);
    assert [] + Others(rest[..j], key, mask) == Others(rest[..j], key, mask);
  }

  /** Which entries leave: those that match among the first `k`, where `k` is the whole list
      unless the limit was reached, and then the `k`-th entry is the one that reached it. */
  lemma {:induction false} WalkPrefix(queue: seq<Entry>, key: nat, mask: bv64, count: nat, parked: set<int>, woken: nat)
    returns (k: nat)
    requires count == 0 || woken < count
    ensures var r := Walk(queue, key, mask, count, parked, woken);
            && UpTo(queue, key, mask, parked, r, k)
            && (k < |queue| ==> count != 0 && r.woken == count)
            && (count != 0 && r.woken == count ==> Hit(queue, key, mask, parked, k))
  {
    if queue == [] {
      k := 0;
    } else {
      var first, rest := queue[0], queue[1..];
      assert queue == [first] + rest;
      if !Matches(first, key, mask) {
        var j := WalkPrefix(rest, key, mask, count, parked, woken);
        UpToSkip(first, rest, key, mask, parked, Walk(rest, key, mask, count, parked, woken), j);
        k := j + 1;
      } else {
        var now, left := if first.thread in parked then woken + 1 else woken, parked - {first.thread};
        if count != 0 && count == now {
          UpToNone(rest, key, mask, left, now);
          UpToTake(first, rest, key, mask, parked, Outcome(rest, left, now), 0);
          k := 1;
        } else {
          var j := WalkPrefix(rest, key, mask, count, left, now);
          UpToTake(first, rest, key, mask, parked, Walk(rest, key, mask, count, left, now), j);
          k := j + 1;
        }
      }
    }
  }

  lemma PrefixStep(first: Entry, rest: seq<Entry>, j: nat, key: nat, mask: bv64)
    requires j <= |rest|
    ensures var q, hit := [first] + rest, Matches(first, key, mask);
            && q[..j + 1] == [first] + rest[..j] && q[j + 1..] == rest[j..]
            && Others(q[..j + 1], key, mask) == (if hit then [] else [first]) + Others(rest[..j], key, mask)
            && Called(q[..j + 1], key, mask) == (if hit then {first.thread} else {}) + Called(rest[..j], key, mask)
  {
    var q := [first] + rest;
    assert q[..j + 1] == [first] + rest[..j] && q[..j + 1][1..] == rest[..j];
  }

  /** An entry leaves the list only together with its thread leaving the parked ones. */
  lemma {:induction false} WalkRemoves(queue: seq<Entry>, key: nat, mask: bv64, count: nat, parked: set<int>,
                                       woken: nat)
    ensures var r := Walk(queue, key, mask, count, parked, woken);
            && r.parked <= parked
            && forall e :: e in queue ==> e in r.queue || e.thread !in r.parked
  {
    if queue != [] {
      var first, rest := queue[0], queue[1..];
      assert queue == [first] + rest;
      if !Matches(first, key, mask) {
        WalkRemoves(rest, key, mask, count, parked, woken);
      } else {
        var now := if first.thread in parked then woken + 1 else woken;
        WalkRemoves(rest, key, mask, count, parked - {first.thread}, now);
      }
    }
  }

  /** A notification that may wake all leaves no entry that matches. */
  lemma {:induction false} OthersDoNotMatch(queue: seq<Entry>, key: nat, mask: bv64)
    ensures forall e :: e in Others(queue, key, mask) <==> e in queue && !Matches(e, key, mask)
  {
    if queue != [] {
      OthersDoNotMatch(queue[1..], key, mask);
      assert queue == [queue[0]] + queue[1..];
    }
  }

  // ---- The table ----

  /** User memory, the queues, and the threads that an unpark would wake. */
  datatype World = World(words: map<int, int>, queues: seq<seq<Entry>>, parked: set<int>)

  /** Every entry is in the queue of its key, once. */
  ghost predicate Valid(w: World) {
    && |w.queues| == WAIT_HASH_SIZE
    && (forall b :: 0 <= b < WAIT_HASH_SIZE ==> NoDup(w.queues[b]))
    && (forall b, e :: 0 <= b < WAIT_HASH_SIZE && e in w.queues[b] ==> Bucket(e.key) == b)
  }

  predicate Holds(w: World, key: int, value: int) { key in w.words && w.words[key] == value }

  predicate Queued(w: World, e: Entry) { Bucket(e.key) < |w.queues| && e in w.queues[Bucket(e.key)] }

  function SetQueue(w: World, b: nat, q: seq<Entry>): World
    requires b < |w.queues|
  {
    w.(queues := w.queues[b := q])
  }

  /** `wait_queue_prepare`: queue the entry if the word still has the expected value. */
  function Prepared(w: World, e: Entry): World
    requires Bucket(e.key) < |w.queues|
  {
    if Holds(w, e.key, e.expected) then SetQueue(w, Bucket(e.key), [e] + w.queues[Bucket(e.key)]) else w
  }

  /** `wait_queue_finish`. */
  function Finished(w: World, e: Entry): World
    requires Bucket(e.key) < |w.queues|
  {
    SetQueue(w, Bucket(e.key), Remove(w.queues[Bucket(e.key)], e))
  }

  /** `atomic_notify`. */
  function Notified(w: World, key: nat, mask: bv64, count: nat): World
    requires Bucket(key) < |w.queues|
  {
    var r := Walk(w.queues[Bucket(key)], key, mask, count, w.parked, 0);
    SetQueue(w, Bucket(key), r.queue).(parked := r.parked)
  }

  lemma PreparedQueues(w: World, e: Entry)
    requires Valid(w)
    ensures Bucket(e.key) < |w.queues|
    ensures forall x :: Queued(Prepared(w, e), x) <==> Queued(w, x) || (Holds(w, e.key, e.expected) && x == e)
    ensures !Queued(w, e) ==> Valid(Prepared(w, e))
  {
    BucketInRange(e.key);
    if !Queued(w, e) { NoDupCons(e, w.queues[Bucket(e.key)]); }
  }

  lemma FinishedQueues(w: World, e: Entry)
    requires Valid(w)
    ensures Bucket(e.key) < |w.queues|
    ensures Valid(Finished(w, e)) && forall x :: Queued(Finished(w, e), x) <==> Queued(w, x) && x != e
  {
    BucketInRange(e.key);
    RemoveSpec(w.queues[Bucket(e.key)], e);
  }

  class WaitTable {
    var words: map<int, int>
    var queues: seq<seq<Entry>>
    var parked: set<int>

    ghost function Now(): World
      reads this
    {
      World(words, queues, parked)
    }

    /** `wait_queue_prepare`. */
    method Prepare(e: Entry) returns (queued: bool)
      requires Valid(Now())
      modifies `queues
      ensures Now() == Prepared(old(Now()), e)
      ensures queued <==> Holds(old(Now()), e.key, e.expected)
      ensures forall x :: Queued(Now(), x) <==> Queued(old(Now()), x) || (queued && x == e)
      ensures !Queued(old(Now()), e) ==> Valid(Now())
    {
      PreparedQueues(Now(), e);
      BucketInRange(e.key);
      var b := Bucket(e.key);
      if !Holds(World(words, queues, parked), e.key, e.expected) {
        return false;
      }
      queues := queues[b := [e] + queues[b]];
      return true;
    }

    /** `wait_queue_finish`: walk the list up to the entry and link past it. */
    method Finish(e: Entry)
      requires Valid(Now())
      modifies `queues
      ensures Now() == Finished(old(Now()), e) && Valid(Now())
      ensures forall x :: Queued(Now(), x) <==> Queued(old(Now()), x) && x != e
    {
      FinishedQueues(Now(), e);
      BucketInRange(e.key);
      var b := Bucket(e.key);
      var kept, rest := [], queues[b];
      while rest != []
        invariant kept + rest == queues[b] && e !in kept && queues == old(queues)
        decreases |rest|
      {
        if rest[0] == e {
          RemoveAfter(kept, rest, e);
          queues := queues[b := kept + rest[1..]];
          return;
        }
        assert kept + rest == (kept + [rest[0]]) + rest[1..];
        kept, rest := kept + [rest[0]], rest[1..];
      }
      RemoveAbsent(queues[b], e);
      assert queues == queues[b := queues[b]];
    }

    /** `atomic_notify`. */
    method Notify(key: nat, mask: bv64, count: nat) returns (woken: nat)
      requires Valid(Now())
      modifies `queues, `parked
      ensures Now() == Notified(old(Now()), key, mask, count)
      ensures woken == |old(parked)| - |parked| && (count != 0 ==> woken <= count)
    {
      BucketInRange(key);
      var b := Bucket(key);
      WalkSpec(queues[b], key, mask, count, parked, 0);
      var q, left;
      q, left, woken := NotifyList(queues[b], key, mask, count, parked);
      queues, parked := queues[b := q], left;
    }
  }

  /** The loop of `atomic_notify`: the list behind the indirect pointer is `kept`, the list
      from it on is `rest`. */
  method NotifyList(list: seq<Entry>, key: nat, mask: bv64, count: nat, sleepers: set<int>)
    returns (queue: seq<Entry>, parked: set<int>, woken: nat)
    ensures Outcome(queue, parked, woken) == Walk(list, key, mask, count, sleepers, 0)
  {
    var kept, rest := [], list;
    parked, woken := sleepers, 0;
    ghost var goal := Walk(list, key, mask, count, sleepers, 0);
    assert goal == goal.(queue := [] + goal.queue);
    while rest != []
      invariant count == 0 || woken < count
      invariant var r := Walk(rest, key, mask, count, parked, woken); goal == r.(queue := kept + r.queue)
      decreases |rest|
    {
      var e := rest[0];
      if Matches(e, key, mask) {
        rest := rest[1..];
        if e.thread in parked {
          parked := parked - {e.thread};
          woken := woken + 1;
        } else {
          assert parked - {e.thread} == parked;
        }
        if count != 0 && count == woken {
          return kept + rest, parked, woken;
        }
      } else {
        ghost var r := Walk(rest[1..], key, mask, count, parked, woken);
        assert kept + ([e] + r.queue) == (kept + [e]) + r.queue;
        kept, rest := kept + [e], rest[1..];
      }
    }
    return kept, parked, woken;
  }

  lemma {:induction false} RemoveAfter(kept: seq<Entry>, rest: seq<Entry>, e: Entry)
    requires e !in kept && rest != [] && rest[0] == e
    ensures Remove(kept + rest, e) == kept + rest[1..]
  {
    if kept != [] {
      RemoveAfter(kept[1..], rest, e);
      assert (kept + rest)[1..] == kept[1..] + rest;
      assert kept + rest[1..] == [kept[0]] + (kept[1..] + rest[1..]);
    } else {
      assert kept + rest == rest && kept + rest[1..] == rest[1..];
    }
  }

  lemma {:induction false} RemoveAbsent(s: seq<Entry>, e: Entry)
    requires e !in s
    ensures Remove(s, e) == s
  {
    if s != [] {
      RemoveAbsent(s[1..], e);
      assert s == [s[0]] + s[1..];
    }
  }

  // ---- Runs ----

  /** A user store; a waiter queueing or removing its entry; a notification; a thread becoming
      one that an unpark wakes, or ceasing to be (a timer may wake it). */
  datatype Event =
    | Store(key: int, value: int)
    | Prepare(e: Entry)
    | Finish(e: Entry)
    | Notify(nkey: nat, mask: bv64, count: nat)
    | Sleep(t: int)
    | Rouse(t: int)

  /** A waiter queues an entry that is not queued already. */
  predicate Can(w: World, v: Event) { v.Prepare? ==> !Queued(w, v.e) }

  function Apply(w: World, v: Event): World
    requires |w.queues| == WAIT_HASH_SIZE
  {
    match v
    case Store(key, value) => w.(words := w.words[key := value])
    case Prepare(e) => BucketInRange(e.key); Prepared(w, e)
    case Finish(e) => BucketInRange(e.key); Finished(w, e)
    case Notify(key, mask, count) => BucketInRange(key); Notified(w, key, mask, count)
    case Sleep(t) => w.(parked := w.parked + {t})
    case Rouse(t) => w.(parked := w.parked - {t})
  }

  lemma {:induction false} WalkNoDup(queue: seq<Entry>, key: nat, mask: bv64, count: nat, parked: set<int>, woken: nat)
    requires NoDup(queue)
    ensures var r := Walk(queue, key, mask, count, parked, woken);
            NoDup(r.queue) && forall e :: e in r.queue ==> e in queue
  {
    if queue != [] {
      NoDupTail(queue);
      if !Matches(queue[0], key, mask) {
        WalkNoDup(queue[1..], key, mask, count, parked, woken);
        NoDupCons(queue[0], Walk(queue[1..], key, mask, count, parked, woken).queue);
      } else {
        var now := if queue[0].thread in parked then woken + 1 else woken;
        WalkNoDup(queue[1..], key, mask, count, parked - {queue[0].thread}, now);
      }
    }
  }

  lemma ApplyValid(w: World, v: Event)
    requires Valid(w) && Can(w, v)
    ensures Valid(Apply(w, v))
  {
    match v
    case Prepare(e) => PreparedQueues(w, e);
    case Finish(e) => FinishedQueues(w, e);
    case Notify(key, mask, count) => {
      BucketInRange(key);
      WalkNoDup(w.queues[Bucket(key)], key, mask, count, w.parked, 0);
    }
    case _ =>
  }

  /** An entry of a waiter on `key` that expects `value` and that a notification with `mask`
      would be for. */
  predicate Waits(e: Entry, key: nat, value: int, mask: bv64) { Matches(e, key, mask) && e.expected == value }

  /** No such entry is queued. */
  ghost predicate Clear(w: World, key: nat, value: int, mask: bv64) {
    forall e :: Queued(w, e) ==> !Waits(e, key, value, mask)
  }

  lemma NotifyAllClears(w: World, key: nat, value: int, mask: bv64)
    requires Valid(w)
    ensures Clear(Apply(w, Notify(key, mask, 0)), key, value, mask)
  {
    BucketInRange(key);
    var q := w.queues[Bucket(key)];
    WalkSpec(q, key, mask, 0, w.parked, 0);
    OthersDoNotMatch(q, key, mask);
  }

  /** While the word differs no such entry gets queued. */
  lemma StaysClear(w: World, v: Event, key: nat, value: int, mask: bv64)
    requires Valid(w) && Can(w, v) && Clear(w, key, value, mask) && !Holds(w, key, value)
    ensures Clear(Apply(w, v), key, value, mask)
  {
    var r := Apply(w, v);
    forall e | Queued(r, e) ensures !Waits(e, key, value, mask) {
      match v
      case Prepare(x) => PreparedQueues(w, x);
      case Finish(x) => FinishedQueues(w, x);
      case Notify(k, m, n) => {
        BucketInRange(k);
        WalkNoDup(w.queues[Bucket(k)], k, m, n, w.parked, 0);
        assert Queued(w, e);
      }
      case _ => assert Queued(w, e);
    }
  }

  ghost predicate Enabled(w: World, run: seq<Event>)
    requires Valid(w)
    decreases |run|
  {
    run == [] || (Can(w, run[0]) && (ApplyValid(w, run[0]); Enabled(Apply(w, run[0]), run[1..])))
  }

  /** The world after the first `n` events. */
  ghost function After(w: World, run: seq<Event>, n: nat): (r: World)
    requires Valid(w) && Enabled(w, run) && n <= |run|
    ensures Valid(r)
    decreases n
  {
    if n == 0 then w else ApplyValid(w, run[0]); After(Apply(w, run[0]), run[1..], n - 1)
  }

  lemma {:induction false} AfterStep(w: World, run: seq<Event>, n: nat)
    requires Valid(w) && Enabled(w, run) && n < |run|
    ensures Can(After(w, run, n), run[n]) && After(w, run, n + 1) == Apply(After(w, run, n), run[n])
    decreases n
  {
    ApplyValid(w, run[0]);
    if n > 0 { AfterStep(Apply(w, run[0]), run[1..], n - 1); }
  }

  /** No missed notification: if the word at `key` is not `value` throughout a run, then from
      the first notify-all with an overlapping mask on, no waiter that expected `value` is
      queued. */
  lemma {:induction false} NoMissedNotification(w: World, run: seq<Event>, n: nat, i: nat, key: nat, value: int,
                                                mask: bv64)
    requires Valid(w) && Enabled(w, run) && n < i <= |run| && run[n] == Notify(key, mask, 0)
    requires forall j :: 0 <= j <= |run| ==> !Holds(After(w, run, j), key, value)
    ensures Clear(After(w, run, i), key, value, mask)
    decreases i
  {
    AfterStep(w, run, i - 1);
    if i == n + 1 {
      NotifyAllClears(After(w, run, n), key, value, mask);
    } else {
      NoMissedNotification(w, run, n, i - 1, key, value, mask);
      StaysClear(After(w, run, i - 1), run[i - 1], key, value, mask);
    }
  }
}
