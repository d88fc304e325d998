/** Source/Common/GPSOpenClBoundedQueue.hpp: the ring as a class, and its blocking operations as a
  * step relation over any number of threads.
  */
module BoundedQueues {
  import opened Numbers

  // ----- the ring

  /** Cell of the k-th oldest element. */
  function Slot(head: nat, k: nat, capacity: nat): (i: nat)
    requires capacity > 0
    ensures i < capacity
  {
    (head + k) % capacity
  }

  /** The queued elements, oldest first. */
  function Ring<T>(storage: seq<T>, head: nat, count: nat): (contents: seq<T>)
    requires |storage| > 0
    ensures |contents| == count
    ensures forall k | 0 <= k < count :: contents[k] == storage[Slot(head, k, |storage|)]
  {
    seq(count, (k: nat) => storage[Slot(head, k, |storage|)])
  }

  lemma SlotsDiffer(head: nat, j: nat, k: nat, capacity: nat)
    requires j < k < capacity
    ensures Slot(head, j, capacity) != Slot(head, k, capacity)
  {
    var d := (head + k) / capacity - (head + j) / capacity;
    assert d * capacity == (k - j) - (Slot(head, k, capacity) - Slot(head, j, capacity));
    assert d >= 1 ==> d * capacity >= capacity;
    assert d <= 0 ==> d * capacity <= 0;
  }

  lemma SlotShift(head: nat, k: nat, capacity: nat)
    requires capacity > 0
    ensures Slot(Slot(head, 1, capacity), k, capacity) == Slot(head, k + 1, capacity)
  {
    var q := (head + 1) / capacity;
    assert head + 1 == q * capacity + (head + 1) % capacity;
    var rest := (head + 1) % capacity + k;
    assert head + 1 + k == q * capacity + rest;
    var p, t := rest / capacity, rest % capacity;
    assert head + 1 + k == (q + p) * capacity + t;
    var d := (head + 1 + k) / capacity - (q + p);
    assert d * capacity == t - (head + 1 + k) % capacity;
    assert d >= 1 ==> d * capacity >= capacity;
    assert d <= -1 ==> d * capacity <= -(capacity as int);
  }

  lemma SmallSlot(head: nat, capacity: nat)
    requires head < capacity
    ensures Slot(head, 0, capacity) == head
  {
  }

  lemma RingPushed<T>(storage: seq<T>, head: nat, count: nat, item: T)
    requires count < |storage|
    ensures Ring(storage[Slot(head, count, |storage|) := item], head, count + 1) == Ring(storage, head, count) + [item]
  {
    forall k: nat | k < count ensures Slot(head, k, |storage|) != Slot(head, count, |storage|) {
      SlotsDiffer(head, k, count, |storage|);
    }
  }

  lemma RingPopped<T>(storage: seq<T>, head: nat, count: nat)
    requires head < |storage| && count > 0
    ensures Ring(storage, head, count) == [storage[head]] + Ring(storage, Slot(head, 1, |storage|), count - 1)
  {
    SmallSlot(head, |storage|);
    var rest := Ring(storage, Slot(head, 1, |storage|), count - 1);
    forall k: nat | k < count - 1 ensures rest[k] == Ring(storage, head, count)[k + 1] {
      SlotShift(head, k, |storage|);
    }
  }

  class BoundedQueue<T(0)> {
    var storage: array<T>
    var maxCapacity: nat
    var head: nat
    var count: nat
    var finished: bool

    ghost predicate Valid()
      reads this
    {
      storage.Length == maxCapacity > 0 && head < maxCapacity && count <= maxCapacity
    }

    ghost function Contents(): seq<T>
      requires Valid()
      reads this, storage
    {
      Ring(storage[..], head, count)
    }

    /** A capacity of zero is taken for one. */
    constructor (capacity: nat)
      ensures Valid() && fresh(storage) && Contents() == [] && !finished
      ensures maxCapacity == if capacity == 0 then 1 else capacity
    {
      maxCapacity := if capacity == 0 then 1 else capacity;
      storage := new T[if capacity == 0 then 1 else capacity];
      head, count, finished := 0, 0, false;
    }

    method EnqueueLocked(item: T)
      requires Valid() && count < maxCapacity
      modifies this`count, storage
      ensures Valid() && Contents() == old(Contents()) + [item]
    {
      RingPushed(storage[..], head, count, item);
      storage[(head + count) % maxCapacity] := item;
      count := count + 1;
    }

    method DequeueLocked() returns (item: T)
      requires Valid() && count > 0
      modifies this`head, this`count
      ensures Valid() && old(Contents()) == [item] + Contents()
    {
      RingPopped(storage[..], head, count);
      item := storage[head];
      head := (head + 1) % maxCapacity;
      count := count - 1;
    }

    /** Never blocks: refuses when full or finished. */
    method TryPush(item: T) returns (ok: bool)
      requires Valid()
      modifies this`count, storage
      ensures Valid() && ok == (!finished && |old(Contents())| < maxCapacity)
      ensures Contents() == if ok then old(Contents()) + [item] else old(Contents())
    {
      if finished || count >= maxCapacity {
        return false;
      }
      EnqueueLocked(item);
      return true;
    }

    /** Never blocks: refuses when empty, whether finished or not. */
    method TryPop(previous: T) returns (ok: bool, item: T)
      requires Valid()
      modifies this`head, this`count
      ensures Valid() && ok == (|old(Contents())| > 0)
      ensures if ok then old(Contents()) == [item] + Contents() else Contents() == old(Contents()) && item == previous
    {
      if count == 0 {
        return false, previous;
      }
      item := DequeueLocked();
      return true, item;
    }

    method Finish()
      modifies this`finished
      ensures finished
    {
      finished := true;
    }
  }

  // ----- the blocking operations, interleaved

  datatype Thread<T> =
    | Idle                   // outside the queue
    | PushReady(item: T)     // in push, about to evaluate its predicate under the mutex
    | PushAsleep(item: T)    // in the wait set of m_cvPush
    | NotifyPop              // enqueued, about to notify one popper
    | PopReady
    | PopAsleep              // in the wait set of m_cvPop
    | NotifyPush             // dequeued, about to notify one pusher

  datatype Kind = Outside | ReadyToPush | SleepingPusher | PopNotifier | ReadyToPop | SleepingPopper | PushNotifier

  function KindOf<T>(t: Thread<T>): Kind {
    match t
    case Idle => Outside
    case PushReady(_) => ReadyToPush
    case PushAsleep(_) => SleepingPusher
    case NotifyPop => PopNotifier
    case PopReady => ReadyToPop
    case PopAsleep => SleepingPopper
    case NotifyPush => PushNotifier
  }

  /** accepted and popped are history: all items ever enqueued and dequeued. */
  datatype System<T> = System(
    storage: seq<T>, head: nat, count: nat, finished: bool,
    threads: seq<Thread<T>>, accepted: seq<T>, popped: seq<T>
  )

  datatype Step<T> =
    | CallPush(i: nat, item: T)
    | CallPop(i: nat)
    | TryPush(i: nat, item: T)
    | TryPop(i: nat)
    | EvalPush(i: nat)            // the predicate of push, and what follows under the mutex
    | EvalPop(i: nat)
    | Notify(i: nat, waiter: nat) // notify_one picks any one of the waiters, if there are any
    | Finish
    | Spurious(i: nat)

  function Waken<T>(t: Thread<T>): Thread<T> {
    match t
    case PushAsleep(item) => PushReady(item)
    case PopAsleep => PopReady
    case _ => t
  }

  function WakenAll<T>(ts: seq<Thread<T>>): (r: seq<Thread<T>>)
    ensures |r| == |ts| && forall i | 0 <= i < |ts| :: r[i] == Waken(ts[i])
  {
    seq(|ts|, i requires 0 <= i < |ts| => Waken(ts[i]))
  }

  /** The kind of thread that a notifier wakes. */
  function Wakes(k: Kind): Kind { if k == PopNotifier then SleepingPopper else SleepingPusher }

  ghost predicate Sleeps<T>(ts: seq<Thread<T>>, k: Kind) { exists i :: 0 <= i < |ts| && KindOf(ts[i]) == k }

  ghost predicate Enabled<T>(s: System<T>, step: Step<T>) {
    match step
    case CallPush(i, _) => i < |s.threads| && s.threads[i] == Idle
    case CallPop(i) => i < |s.threads| && s.threads[i] == Idle
    case TryPush(i, _) => i < |s.threads| && s.threads[i] == Idle
    case TryPop(i) => i < |s.threads| && s.threads[i] == Idle
    case EvalPush(i) => i < |s.threads| && s.threads[i].PushReady?
    case EvalPop(i) => i < |s.threads| && s.threads[i] == PopReady
    case Notify(i, w) =>
      && i < |s.threads| && (s.threads[i] == NotifyPop || s.threads[i] == NotifyPush)
      && (Sleeps(s.threads, Wakes(KindOf(s.threads[i]))) ==>
            w < |s.threads| && KindOf(s.threads[w]) == Wakes(KindOf(s.threads[i])))
    case Finish => true
    case Spurious(i) => i < |s.threads| && (s.threads[i].PushAsleep? || s.threads[i].PopAsleep?)
  }

  function Enqueued<T>(s: System<T>, i: nat, item: T): System<T>
    requires i < |s.threads| && s.count < |s.storage|
  {
    s.(storage := s.storage[Slot(s.head, s.count, |s.storage|) := item], count := s.count + 1,
       threads := s.threads[i := NotifyPop], accepted := s.accepted + [item])
  }

  function Dequeued<T>(s: System<T>, i: nat): System<T>
    requires i < |s.threads| && s.head < |s.storage| && s.count > 0
  {
    s.(head := Slot(s.head, 1, |s.storage|), count := s.count - 1,
       threads := s.threads[i := NotifyPush], popped := s.popped + [s.storage[s.head]])
  }

  ghost function Apply<T>(s: System<T>, step: Step<T>): System<T>
    requires Enabled(s, step) && s.head < |s.storage| && s.count <= |s.storage|
  {
    match step
    case CallPush(i, item) => s.(threads := s.threads[i := PushReady(item)])
    case CallPop(i) => s.(threads := s.threads[i := PopReady])
    case TryPush(i, item) => if s.finished || s.count >= |s.storage| then s else Enqueued(s, i, item)
    case TryPop(i) => if s.count == 0 then s else Dequeued(s, i)
    case EvalPush(i) =>
      if s.finished then s.(threads := s.threads[i := Idle])
      else if s.count < |s.storage| then Enqueued(s, i, s.threads[i].item)
      else s.(threads := s.threads[i := PushAsleep(s.threads[i].item)])
    case EvalPop(i) =>
      if s.count > 0 then Dequeued(s, i)
      else if s.finished then s.(threads := s.threads[i := Idle])
      else s.(threads := s.threads[i := PopAsleep])
    case Notify(i, w) =>
      var ts := s.threads[i := Idle];
      if Sleeps(s.threads, Wakes(KindOf(s.threads[i]))) then s.(threads := ts[w := Waken(s.threads[w])])
      else s.(threads := ts)
    case Finish => s.(finished := true, threads := WakenAll(s.threads))
    case Spurious(i) => s.(threads := s.threads[i := Waken(s.threads[i])])
  }

  function Tally<T>(ts: seq<Thread<T>>, k: Kind): nat {
    if ts == [] then 0 else Tally(ts[..|ts| - 1], k) + (if KindOf(ts[|ts| - 1]) == k then 1 else 0)
  }

  lemma {:induction false} TallyUpdate<T>(ts: seq<Thread<T>>, i: nat, t: Thread<T>, k: Kind)
    requires i < |ts|
    ensures Tally(ts[i := t], k)
         == Tally(ts, k) - (if KindOf(ts[i]) == k then 1 else 0) + (if KindOf(t) == k then 1 else 0)
  {
    var last := |ts| - 1;
    if i == last {
      assert ts[i := t][..last] == ts[..last];
    } else {
      TallyUpdate(ts[..last], i, t, k);
      assert ts[i := t][..last] == ts[..last][i := t];
    }
  }

  lemma {:induction false} TallyZero<T>(ts: seq<Thread<T>>, k: Kind)
    ensures Tally(ts, k) == 0 <==> !Sleeps(ts, k)
  {
    if ts != [] {
      var rest := ts[..|ts| - 1];
      TallyZero(rest, k);
      if i :| 0 <= i < |rest| && KindOf(rest[i]) == k {
        assert KindOf(ts[i]) == k;
      }
    }
  }

  /** First in, first out: what was accepted is what was popped followed by what is queued. */
  ghost predicate Fifo<T>(s: System<T>) {
    && s.head < |s.storage| && s.count <= |s.storage|
    && s.accepted == s.popped + Ring(s.storage, s.head, s.count)
  }

  /** If a popper sleeps, every item is spoken for by a pending notification or an awake popper; and
    * dually for pushers and free cells.  After finish nobody sleeps. */
  ghost predicate NoLostWakeup<T>(s: System<T>) {
    && (Tally(s.threads, SleepingPopper) > 0 ==>
          !s.finished && s.count <= Tally(s.threads, PopNotifier) + Tally(s.threads, ReadyToPop))
    && (Tally(s.threads, SleepingPusher) > 0 ==>
          !s.finished && |s.storage| - s.count <= Tally(s.threads, PushNotifier) + Tally(s.threads, ReadyToPush))
  }

  ghost predicate Inv<T>(s: System<T>) { Fifo(s) && NoLostWakeup(s) }

  function Fresh<T>(storage: seq<T>, n: nat): System<T> {
    System(storage, 0, 0, false, seq(n, _ => Idle), [], [])
  }

  lemma {:induction false} FreshInv<T>(storage: seq<T>, n: nat)
    requires |storage| > 0
    ensures Inv(Fresh(storage, n))
  {
    TallyZero(Fresh(storage, n).threads, SleepingPopper);
    TallyZero(Fresh(storage, n).threads, SleepingPusher);
  }

  /** How replacing one thread changes the numbers that matter. */
  lemma Recount<T>(ts: seq<Thread<T>>, i: nat, t: Thread<T>)
    requires i < |ts|
    ensures forall k ::
              Tally(ts[i := t], k)
              == Tally(ts, k) - (if KindOf(ts[i]) == k then 1 else 0) + (if KindOf(t) == k then 1 else 0)
  {
    forall k
      ensures Tally(ts[i := t], k)
           == Tally(ts, k) - (if KindOf(ts[i]) == k then 1 else 0) + (if KindOf(t) == k then 1 else 0)
    {
      TallyUpdate(ts, i, t, k);
    }
  }

  lemma EnqueuedKeeps<T>(s: System<T>, i: nat, item: T)
    requires Inv(s) && i < |s.threads| && s.count < |s.storage| && !s.finished
    requires s.threads[i] == Idle || s.threads[i] == PushReady(item)
    ensures Inv(Enqueued(s, i, item))
  {
    RingPushed(s.storage, s.head, s.count, item);
    Recount(s.threads, i, NotifyPop);
  }

  lemma DequeuedKeeps<T>(s: System<T>, i: nat)
    requires Inv(s) && i < |s.threads| && s.count > 0
    requires s.threads[i] == Idle || s.threads[i] == PopReady
    ensures Inv(Dequeued(s, i))
  {
    RingPopped(s.storage, s.head, s.count);
    Recount(s.threads, i, NotifyPush);
  }

  lemma NotifyKeeps<T>(s: System<T>, i: nat, w: nat)
    requires Inv(s) && Enabled(s, Notify(i, w))
    ensures Inv(Apply(s, Notify(i, w)))
  {
    var ts := s.threads[i := Idle];
    Recount(s.threads, i, Idle);
    var sleeper := Wakes(KindOf(s.threads[i]));
    TallyZero(s.threads, sleeper);
    if Sleeps(s.threads, sleeper) {
      Recount(ts, w, Waken(s.threads[w]));
    }
  }

  lemma FinishKeeps<T>(s: System<T>)
    requires Inv(s)
    ensures Inv(Apply(s, Finish))
  {
    TallyZero(WakenAll(s.threads), SleepingPopper);
    TallyZero(WakenAll(s.threads), SleepingPusher);
  }

  lemma EvalPushKeeps<T>(s: System<T>, i: nat)
    requires Inv(s) && Enabled(s, EvalPush(i))
    ensures Inv(Apply(s, EvalPush(i)))
  {
    if s.finished {
      Recount(s.threads, i, Idle);
    } else if s.count < |s.storage| {
      EnqueuedKeeps(s, i, s.threads[i].item);
    } else {
      Recount(s.threads, i, PushAsleep(s.threads[i].item));
    }
  }

  lemma EvalPopKeeps<T>(s: System<T>, i: nat)
    requires Inv(s) && Enabled(s, EvalPop(i))
    ensures Inv(Apply(s, EvalPop(i)))
  {
    if s.count > 0 {
      DequeuedKeeps(s, i);
    } else {
      Recount(s.threads, i, if s.finished then Idle else PopAsleep);
    }
  }

  lemma StepKeeps<T>(s: System<T>, step: Step<T>)
    requires Inv(s) && Enabled(s, step)
    ensures Inv(Apply(s, step))
  {
    match step
    case CallPush(i, item) => Recount(s.threads, i, PushReady(item));
    case CallPop(i) => Recount(s.threads, i, PopReady);
    case TryPush(i, item) => if !s.finished && s.count < |s.storage| { EnqueuedKeeps(s, i, item); }
    case TryPop(i) => if s.count > 0 { DequeuedKeeps(s, i); }
    case EvalPush(i) => EvalPushKeeps(s, i);
    case EvalPop(i) => EvalPopKeeps(s, i);
    case Notify(i, w) => NotifyKeeps(s, i, w);
    case Finish => FinishKeeps(s);
    case Spurious(i) => Recount(s.threads, i, Waken(s.threads[i]));
  }

  /** Any interleaving of any number of threads. */
  ghost predicate Execution<T>(states: seq<System<T>>, steps: seq<Step<T>>, storage: seq<T>, n: nat) {
    && |states| == |steps| + 1 && |storage| > 0 && states[0] == Fresh(storage, n)
    && (forall k | 0 <= k < |states| :: states[k].head < |states[k].storage| && states[k].count <= |states[k].storage|)
    && (forall k | 0 <= k < |steps| :: Enabled(states[k], steps[k]) && states[k + 1] == Apply(states[k], steps[k]))
  }

  lemma {:induction false} ExecutionInv<T>(states: seq<System<T>>, steps: seq<Step<T>>, storage: seq<T>, n: nat, k: nat)
    requires Execution(states, steps, storage, n) && k < |states|
    ensures Inv(states[k])
  {
    if k == 0 {
      FreshInv(storage, n);
    } else {
      ExecutionInv(states, steps, storage, n, k - 1);
      StepKeeps(states[k - 1], steps[k - 1]);
    }
  }

  // ----- what goes in is what was brought

  /** What thread i brought to its latest call of push. */
  function Brought<T>(steps: seq<Step<T>>, i: nat): Option<T> {
    if steps == [] then None
    else
      var last := steps[|steps| - 1];
      if last.CallPush? && last.i == i then Some(last.item) else Brought(steps[..|steps| - 1], i)
  }

  /** A thread inside push, awake or asleep, still holds what it brought. */
  ghost predicate Holds<T>(ts: seq<Thread<T>>, steps: seq<Step<T>>) {
    forall i: nat | i < |ts| :: StillHolds(ts[i], Brought(steps, i))
  }

  ghost predicate StillHolds<T>(t: Thread<T>, brought: Option<T>) {
    match t
    case PushReady(item) => Some(item) == brought
    case PushAsleep(item) => Some(item) == brought
    case _ => true
  }

  lemma BroughtAfter<T>(steps: seq<Step<T>>, k: nat, i: nat)
    requires k < |steps|
    ensures Brought(steps[..k + 1], i)
         == if steps[k].CallPush? && steps[k].i == i then Some(steps[k].item) else Brought(steps[..k], i)
  {
    assert steps[..k + 1][..k] == steps[..k];
  }

  lemma StepHolds<T>(s: System<T>, steps: seq<Step<T>>, k: nat)
    requires k < |steps| && Enabled(s, steps[k]) && s.head < |s.storage| && s.count <= |s.storage|
    requires Holds(s.threads, steps[..k])
    ensures Holds(Apply(s, steps[k]).threads, steps[..k + 1])
  {
    var ts := Apply(s, steps[k]).threads;
    forall i: nat | i < |ts| ensures StillHolds(ts[i], Brought(steps[..k + 1], i)) {
      BroughtAfter(steps, k, i);
      assert StillHolds(s.threads[i], Brought(steps[..k], i));
    }
  }

  lemma {:induction false} ExecutionHolds<T>(states: seq<System<T>>, steps: seq<Step<T>>, storage: seq<T>, n: nat,
                                             k: nat)
    requires Execution(states, steps, storage, n) && k < |states|
    ensures Holds(states[k].threads, steps[..k])
  {
    if k > 0 {
      ExecutionHolds(states, steps, storage, n, k - 1);
      StepHolds(states[k - 1], steps, k - 1);
    }
  }

  /** What a step adds to the accepted items: what its thread brought, when there is room and no finish. */
  function Accepts<T>(s: System<T>, steps: seq<Step<T>>, k: nat): seq<T>
    requires k < |steps|
  {
    if s.finished || s.count >= |s.storage| then []
    else
      match steps[k]
      case TryPush(_, item) => [item]
      case EvalPush(i) => if Brought(steps[..k], i).Some? then [Brought(steps[..k], i).value] else []
      case _ => []
  }

  /** What a step takes: the oldest accepted item that was not popped yet, if any. */
  function Takes<T>(s: System<T>, step: Step<T>): seq<T> {
    if (step.TryPop? || step.EvalPop?) && |s.popped| < |s.accepted| then [s.accepted[|s.popped|]] else []
  }

  /** In every execution the items that go in are the arguments of the pushes, however often their threads slept,
    * the items that come out are those, oldest first, and only finish makes a blocking call return without either. */
  lemma ItemsAreTheArguments<T>(states: seq<System<T>>, steps: seq<Step<T>>, storage: seq<T>, n: nat, k: nat)
    requires Execution(states, steps, storage, n) && k < |steps|
    ensures states[k + 1].accepted == states[k].accepted + Accepts(states[k], steps, k)
    ensures states[k + 1].popped == states[k].popped + Takes(states[k], steps[k])
    ensures steps[k].EvalPush? ==> Brought(steps[..k], steps[k].i).Some?
    ensures steps[k].EvalPush? && Accepts(states[k], steps, k) == [] ==>
              (states[k + 1].threads[steps[k].i] == Idle <==> states[k].finished)
    ensures steps[k].EvalPop? && Takes(states[k], steps[k]) == [] ==>
              (states[k + 1].threads[steps[k].i] == Idle <==> states[k].finished)
  {
    ExecutionInv(states, steps, storage, n, k);
    ExecutionHolds(states, steps, storage, n, k);
    var s, step := states[k], steps[k];
    if step.EvalPush? {
      assert StillHolds(s.threads[step.i], Brought(steps[..k], step.i));
    }
    if s.count > 0 {
      RingPopped(s.storage, s.head, s.count);
    }
  }

  /** When no thread can move, a sleeping popper faces an empty queue and a sleeping pusher a full
    * one, so they never sleep both; and after finish nobody sleeps. */
  lemma QuiescentSleepersAreRight<T>(states: seq<System<T>>, steps: seq<Step<T>>, storage: seq<T>, n: nat, k: nat)
    requires Execution(states, steps, storage, n) && k < |states|
    requires forall i | 0 <= i < |states[k].threads| ::
               states[k].threads[i] == Idle || states[k].threads[i].PushAsleep? || states[k].threads[i] == PopAsleep
    ensures var s := states[k];
            && (Sleeps(s.threads, SleepingPopper) ==> !s.finished && s.count == 0)
            && (Sleeps(s.threads, SleepingPusher) ==> !s.finished && s.count == |s.storage|)
            && !(Sleeps(s.threads, SleepingPopper) && Sleeps(s.threads, SleepingPusher))
  {
    ExecutionInv(states, steps, storage, n, k);
    var ts := states[k].threads;
    TallyZero(ts, SleepingPopper);
    TallyZero(ts, SleepingPusher);
    TallyZero(ts, PopNotifier);
    TallyZero(ts, ReadyToPop);
    TallyZero(ts, PushNotifier);
    TallyZero(ts, ReadyToPush);
  }

  /** Popped items are the accepted ones in order, none lost, none duplicated. */
  lemma PoppedIsPrefix<T>(states: seq<System<T>>, steps: seq<Step<T>>, storage: seq<T>, n: nat, k: nat)
    requires Execution(states, steps, storage, n) && k < |states|
    ensures states[k].popped <= states[k].accepted
    ensures |states[k].accepted| - |states[k].popped| == states[k].count <= |states[k].storage|
  {
    ExecutionInv(states, steps, storage, n, k);
  }

  /** After finish: nothing more is accepted, a pop takes the next accepted item, and once all are
    * taken a pop returns at once without an item. */
  lemma FinishedDrains<T>(states: seq<System<T>>, steps: seq<Step<T>>, storage: seq<T>, n: nat, k: nat)
    requires Execution(states, steps, storage, n) && k < |steps| && states[k].finished
    ensures var s, s' := states[k], states[k + 1];
            && s'.finished && s'.accepted == s.accepted
            && (steps[k].EvalPop? && |s.popped| < |s.accepted| ==> s'.popped == s.popped + [s.accepted[|s.popped|]])
            && (steps[k].EvalPop? && |s.popped| == |s.accepted| ==>
                s'.popped == s.popped && s'.threads[steps[k].i] == Idle)
            && (steps[k].EvalPush? ==> s'.threads[steps[k].i] == Idle)
  {
    ExecutionInv(states, steps, storage, n, k);
    if states[k].count > 0 {
      RingPopped(states[k].storage, states[k].head, states[k].count);
    }
  }
}
