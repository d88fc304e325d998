/** The barrier of Source/Tracking/GPSOpenClTrackingWorkerPool.cpp as a step relation over one caller
  * and n worker threads.
  *
  * Every critical section is one step.  A thread that waits on a condition variable is either asleep
  * in its wait set or ready to evaluate its predicate again, and notifications are steps of their
  * own.  The cursor is fetched, compared with the item count and handed to the callback in separate
  * steps.  The call counter `run`, the claims and the log are history variables.
  */
module WorkerPool {

  /** Where a thread stands in drainCursor; Out if it is not inside. */
  datatype Drain = Out | Fetching | Comparing(item: int) | Working(item: int)

  datatype Worker =
    | Ready                 // about to evaluate the wait predicate of m_startCv
    | Asleep                // in the wait set of m_startCv
    | Draining
    | Finishing             // about to decrement m_pendingWorkers
    | NotifyingDone         // decremented it to zero, about to notify m_doneCv
    | Exited

  datatype Caller =
    | Idle                  // between calls
    | NotifyingStart        // published a run, about to notify all workers
    | Running(inPlace: bool)  // inside drainCursor, alone or with helpers
    | CheckingDone          // about to evaluate the wait predicate of m_doneCv
    | Sleeping              // in the wait set of m_doneCv
    | NotifyingShutdown
    | Joining
    | Gone

  datatype Record = Record(itemCount: int, begun: multiset<int>)

  datatype Pool = Pool(
    workers: seq<Worker>,
    lastSeen: seq<nat>,       // lastSeenGeneration of each worker
    caller: Caller,
    drains: seq<Drain>,       // of the workers, then of the caller
    itemCount: int,
    cursor: int,
    generation: nat,
    pending: int,
    target: int,
    claimed: int,
    shutdown: bool,
    // history
    run: nat,                 // calls of run that had something to do
    claims: seq<nat>,         // the run in which each worker last claimed a slot
    begun: multiset<int>,     // callbacks begun in this run
    log: seq<Record>          // the runs that returned
  )

  datatype Step =
    | Start(count: int)       // run(count) is called
    | NotifyStart
    | Fetch(t: nat)
    | Compare(t: nat)
    | Complete(t: nat)        // the callback returns
    | CheckDone
    | Shutdown                // the destructor is called
    | NotifyShutdown
    | Join
    | Check(i: nat)           // worker i evaluates its wait predicate
    | Finish(i: nat)
    | NotifyDone(i: nat)
    | WakeWorker(i: nat)      // spurious wakeups
    | WakeCaller

  function Size(s: Pool): nat { |s.workers| }

  ghost predicate Shaped(s: Pool) {
    |s.lastSeen| == |s.claims| == Size(s) && |s.drains| == Size(s) + 1
  }

  function Init(n: nat): Pool {
    Pool(seq(n, _ => Ready), seq(n, _ => 0), Idle, seq(n + 1, _ => Out), 0, 0, 0, 0, 0, 0, false,
         0, seq(n, _ => 0), multiset{}, [])
  }

  /** Wakes every waiter of m_startCv. */
  function Awake(ws: seq<Worker>): (r: seq<Worker>)
    ensures |r| == |ws| && forall i | 0 <= i < |ws| :: r[i] == if ws[i] == Asleep then Ready else ws[i]
  {
    seq(|ws|, i requires 0 <= i < |ws| => if ws[i] == Asleep then Ready else ws[i])
  }

  function Helpers(n: nat, count: int): int {
    if n == 0 then 0 else if n < count - 1 then n else count - 1
  }

  ghost predicate Enabled(s: Pool, step: Step)
    requires Shaped(s)
  {
    match step
    case Start(_) => s.caller == Idle
    case NotifyStart => s.caller == NotifyingStart
    case Fetch(t) => t <= Size(s) && s.drains[t] == Fetching
    case Compare(t) => t <= Size(s) && s.drains[t].Comparing?
    case Complete(t) => t <= Size(s) && s.drains[t].Working?
    case CheckDone => s.caller == CheckingDone
    case Shutdown => s.caller == Idle
    case NotifyShutdown => s.caller == NotifyingShutdown
    case Join => s.caller == Joining && forall i | 0 <= i < Size(s) :: s.workers[i] == Exited
    case Check(i) => i < Size(s) && s.workers[i] == Ready
    case Finish(i) => i < Size(s) && s.workers[i] == Finishing
    case NotifyDone(i) => i < Size(s) && s.workers[i] == NotifyingDone
    case WakeWorker(i) => i < Size(s) && s.workers[i] == Asleep
    case WakeCaller => s.caller == Sleeping
  }

  function AfterStart(s: Pool, count: int): Pool
    requires |s.drains| == Size(s) + 1
  {
    if count <= 0 then s
    else
      var reset := s.(itemCount := count, cursor := 0, begun := multiset{}, run := s.run + 1);
      var helpers := Helpers(Size(s), count);
      if helpers <= 0
      then reset.(caller := Running(true), drains := s.drains[Size(s) := Fetching])
      else reset.(pending := helpers, target := helpers, claimed := 0, generation := s.generation + 1,
                  caller := NotifyingStart)
  }

  /** Leaving drainCursor: a helper reports, the caller waits or returns. */
  function AfterDrain(s: Pool, t: nat): Pool
    requires Shaped(s) && t <= Size(s)
  {
    var out := s.(drains := s.drains[t := Out]);
    if t < Size(s) then out.(workers := s.workers[t := Finishing])
    else if s.caller == Running(true) then Returned(out)
    else out.(caller := CheckingDone)
  }

  function Returned(s: Pool): Pool { s.(caller := Idle, log := s.log + [Record(s.itemCount, s.begun)]) }

  function AfterCheck(s: Pool, i: nat): Pool
    requires Shaped(s) && i < Size(s)
  {
    if s.shutdown then s.(workers := s.workers[i := Exited])
    else if s.generation == s.lastSeen[i] then s.(workers := s.workers[i := Asleep])
    else
      var seen := s.(lastSeen := s.lastSeen[i := s.generation]);
      if s.claimed >= s.target then seen
      else seen.(claimed := s.claimed + 1, claims := s.claims[i := s.run],
                 workers := s.workers[i := Draining], drains := s.drains[i := Fetching])
  }

  function Apply(s: Pool, step: Step): Pool
    requires Shaped(s) && Enabled(s, step)
  {
    var n := Size(s);
    match step
    case Start(count) => AfterStart(s, count)
    case NotifyStart => s.(workers := Awake(s.workers), caller := Running(false), drains := s.drains[n := Fetching])
    case Fetch(t) => s.(drains := s.drains[t := Comparing(s.cursor)], cursor := s.cursor + 1)
    case Compare(t) =>
      var item := s.drains[t].item;
      if item >= s.itemCount then AfterDrain(s, t)
      else s.(drains := s.drains[t := Working(item)], begun := s.begun + multiset{item})
    case Complete(t) => s.(drains := s.drains[t := Fetching])
    case CheckDone => if s.pending == 0 then Returned(s) else s.(caller := Sleeping)
    case Shutdown => if n == 0 then s.(caller := Gone) else s.(shutdown := true, caller := NotifyingShutdown)
    case NotifyShutdown => s.(workers := Awake(s.workers), caller := Joining)
    case Join => s.(caller := Gone)
    case Check(i) => AfterCheck(s, i)
    case Finish(i) =>
      s.(pending := s.pending - 1, workers := s.workers[i := if s.pending == 1 then NotifyingDone else Ready])
    case NotifyDone(i) =>
      s.(workers := s.workers[i := Ready], caller := if s.caller == Sleeping then CheckingDone else s.caller)
    case WakeWorker(i) => s.(workers := s.workers[i := Ready])
    case WakeCaller => s.(caller := CheckingDone)
  }

  // ----- counting threads

  predicate IsActive(w: Worker) { w == Draining || w == Finishing }

  function Active(ws: seq<Worker>): nat {
    if ws == [] then 0 else Active(ws[..|ws| - 1]) + (if IsActive(ws[|ws| - 1]) then 1 else 0)
  }

  lemma {:induction false} ActiveUpdate(ws: seq<Worker>, i: nat, w: Worker)
    requires i < |ws|
    ensures Active(ws[i := w]) == Active(ws) - (if IsActive(ws[i]) then 1 else 0) + (if IsActive(w) then 1 else 0)
  {
    var last := |ws| - 1;
    if i == last {
      assert ws[i := w][..last] == ws[..last];
    } else {
      ActiveUpdate(ws[..last], i, w);
      assert ws[i := w][..last] == ws[..last][i := w];
    }
  }

  lemma {:induction false} ActiveAwake(ws: seq<Worker>)
    ensures Active(Awake(ws)) == Active(ws)
  {
    if ws != [] {
      ActiveAwake(ws[..|ws| - 1]);
      assert Awake(ws)[..|ws| - 1] == Awake(ws[..|ws| - 1]);
    }
  }

  lemma {:induction false} NoneActive(ws: seq<Worker>)
    ensures Active(ws) == 0 <==> forall i | 0 <= i < |ws| :: !IsActive(ws[i])
  {
    if ws != [] {
      NoneActive(ws[..|ws| - 1]);
    }
  }

  /** Workers that have not seen generation g. */
  function Unseen(lastSeen: seq<nat>, g: nat): nat {
    if lastSeen == [] then 0
    else Unseen(lastSeen[..|lastSeen| - 1], g) + (if lastSeen[|lastSeen| - 1] != g then 1 else 0)
  }

  lemma {:induction false} UnseenUpdate(lastSeen: seq<nat>, g: nat, i: nat)
    requires i < |lastSeen| && lastSeen[i] != g
    ensures Unseen(lastSeen[i := g], g) == Unseen(lastSeen, g) - 1
  {
    var last := |lastSeen| - 1;
    if i == last {
      assert lastSeen[i := g][..last] == lastSeen[..last];
    } else {
      UnseenUpdate(lastSeen[..last], g, i);
      assert lastSeen[i := g][..last] == lastSeen[..last][i := g];
    }
  }

  lemma {:induction false} AllUnseen(lastSeen: seq<nat>, g: nat)
    requires forall i | 0 <= i < |lastSeen| :: lastSeen[i] != g
    ensures Unseen(lastSeen, g) == |lastSeen|
  {
    if lastSeen != [] { AllUnseen(lastSeen[..|lastSeen| - 1], g); }
  }

  lemma {:induction false} SomeUnseen(lastSeen: seq<nat>, g: nat)
    requires Unseen(lastSeen, g) > 0
    ensures exists i: nat | i < |lastSeen| :: lastSeen[i] != g
  {
    if lastSeen[|lastSeen| - 1] == g { SomeUnseen(lastSeen[..|lastSeen| - 1], g); }
  }

  // ----- invariants

  predicate Holding(d: Drain) { d.Comparing? || d.Working? }

  /** The items of the current run: handed out once each, by ascending cursor. */
  ghost predicate Items(drains: seq<Drain>, cursor: int, itemCount: int, begun: multiset<int>) {
    && cursor >= 0
    && (forall t | 0 <= t < |drains| && Holding(drains[t]) :: 0 <= drains[t].item < cursor)
    && (forall t | 0 <= t < |drains| && drains[t].Working? :: drains[t].item < itemCount && begun[drains[t].item] == 1)
    && (forall t | 0 <= t < |drains| && drains[t].Comparing? :: begun[drains[t].item] == 0)
    && (forall t, u | 0 <= t < |drains| && 0 <= u < |drains| && Holding(drains[t]) && Holding(drains[u])
                      && drains[t].item == drains[u].item :: t == u)
    && (forall item :: begun[item] <= 1 && (begun[item] == 1 ==> 0 <= item < cursor && item < itemCount))
    && (forall item | 0 <= item < cursor && item < itemCount && begun[item] == 0 :: Comparer(drains, item))
  }

  ghost predicate Comparer(drains: seq<Drain>, item: int) {
    exists t :: 0 <= t < |drains| && drains[t] == Comparing(item)
  }

  /** Every item 0, ..., itemCount-1 exactly once, and nothing else. */
  ghost predicate EachOnce(begun: multiset<int>, itemCount: int) {
    forall item :: begun[item] == if 0 <= item < itemCount then 1 else 0
  }

  /** The caller is inside a run that uses helpers. */
  predicate WithHelpers(c: Caller) { c == NotifyingStart || c == Running(false) || c == CheckingDone || c == Sleeping }

  /** The bookkeeping of slots and threads. */
  ghost predicate Slots(s: Pool)
    requires Shaped(s)
  {
    && 0 <= s.claimed <= s.target
    && s.pending == s.target - s.claimed + Active(s.workers)
    && (s.pending > 0 ==> WithHelpers(s.caller))
    && (s.shutdown <==> s.caller == NotifyingShutdown || s.caller == Joining || (s.caller == Gone && Size(s) > 0))
    && (s.caller == NotifyingShutdown || s.caller == Joining ==> Size(s) > 0)
    && (s.caller.Running? <==> s.drains[Size(s)] != Out)
    && (forall i | 0 <= i < Size(s) :: s.workers[i] == Draining <==> s.drains[i] != Out)
    && (forall i | 0 <= i < Size(s) :: IsActive(s.workers[i]) ==> s.claims[i] == s.run)
    && (s.caller == CheckingDone || s.caller == Sleeping ==> s.cursor >= s.itemCount)
  }

  /** Nobody who is needed sleeps without a notification under way. */
  ghost predicate Wakeups(s: Pool)
    requires Shaped(s)
  {
    && (forall i | 0 <= i < Size(s) :: s.lastSeen[i] <= s.generation)
    && (!s.shutdown ==> Unseen(s.lastSeen, s.generation) >= s.target - s.claimed)
    && (!s.shutdown ==> forall i | 0 <= i < Size(s) :: s.workers[i] != Exited)
    && (forall i | 0 <= i < Size(s) && s.workers[i] == Asleep ::
          (s.lastSeen[i] == s.generation && !s.shutdown) || s.caller == NotifyingStart || s.caller == NotifyingShutdown)
    && (s.caller == Sleeping ==> s.pending > 0 || SomeNotifier(s.workers))
  }

  ghost predicate SomeNotifier(ws: seq<Worker>) { exists i :: 0 <= i < |ws| && ws[i] == NotifyingDone }

  ghost predicate Inv(s: Pool) {
    && Shaped(s)
    && Items(s.drains, s.cursor, s.itemCount, s.begun)
    && Slots(s)
    && Wakeups(s)
    && (forall k | 0 <= k < |s.log| :: EachOnce(s.log[k].begun, s.log[k].itemCount))
  }

  lemma InitInv(n: nat)
    ensures Inv(Init(n))
  {
    NoneActive(Init(n).workers);
    assert forall t | 0 <= t < n + 1 :: Init(n).drains[t] == Out;
  }

  // ----- the items

  /** A thread that enters, leaves or idles in drainCursor without an item does not matter. */
  lemma ItemsUnheld(drains: seq<Drain>, cursor: int, itemCount: int, begun: multiset<int>, t: nat, d: Drain)
    requires t < |drains| && Items(drains, cursor, itemCount, begun)
    requires drains[t].Comparing? ==> drains[t].item >= itemCount
    requires d == Out || d == Fetching
    ensures Items(drains[t := d], cursor, itemCount, begun)
  {
    forall item | 0 <= item < cursor && item < itemCount && begun[item] == 0
      ensures Comparer(drains[t := d], item)
    {
      OtherComparer(drains, t, d, item);
    }
  }

  lemma OtherComparer(drains: seq<Drain>, t: nat, d: Drain, item: int)
    requires t < |drains| && Comparer(drains, item) && drains[t] != Comparing(item)
    ensures Comparer(drains[t := d], item)
  {
    var u :| 0 <= u < |drains| && drains[u] == Comparing(item);
    assert drains[t := d][u] == Comparing(item);
  }

  lemma ItemsFetched(drains: seq<Drain>, cursor: int, itemCount: int, begun: multiset<int>, t: nat)
    requires t < |drains| && drains[t] == Fetching && Items(drains, cursor, itemCount, begun)
    ensures Items(drains[t := Comparing(cursor)], cursor + 1, itemCount, begun)
  {
    var after := drains[t := Comparing(cursor)];
    forall item | 0 <= item < cursor + 1 && item < itemCount && begun[item] == 0
      ensures Comparer(after, item)
    {
      if item == cursor {
        assert after[t] == Comparing(item);
      } else {
        OtherComparer(drains, t, Comparing(cursor), item);
      }
    }
  }

  lemma ItemsBegun(drains: seq<Drain>, cursor: int, itemCount: int, begun: multiset<int>, t: nat)
    requires t < |drains| && drains[t].Comparing? && drains[t].item < itemCount
             && Items(drains, cursor, itemCount, begun)
    ensures begun[drains[t].item] == 0
    ensures Items(drains[t := Working(drains[t].item)], cursor, itemCount, begun + multiset{drains[t].item})
  {
    var k := drains[t].item;
    assert Holding(drains[t]);
    forall item | 0 <= item < cursor && item < itemCount && (begun + multiset{k})[item] == 0
      ensures Comparer(drains[t := Working(k)], item)
    {
      OtherComparer(drains, t, Working(k), item);
    }
  }

  lemma ItemsReset(drains: seq<Drain>, itemCount: int)
    requires forall t | 0 <= t < |drains| :: drains[t] == Out || drains[t] == Fetching
    ensures Items(drains, 0, itemCount, multiset{})
  {
  }

  /** When nobody is inside and the cursor is past the end, every item was begun exactly once. */
  lemma ItemsComplete(drains: seq<Drain>, cursor: int, itemCount: int, begun: multiset<int>)
    requires Items(drains, cursor, itemCount, begun) && cursor >= itemCount
    requires forall t | 0 <= t < |drains| :: drains[t] == Out
    ensures EachOnce(begun, itemCount)
  {
  }

  /** While no helper is at work, nobody but the caller is inside. */
  lemma NoHelpers(s: Pool)
    requires Shaped(s) && Slots(s) && s.pending == 0
    ensures s.claimed == s.target && Active(s.workers) == 0
    ensures forall i | 0 <= i < Size(s) :: !IsActive(s.workers[i]) && s.drains[i] == Out
  {
    NoneActive(s.workers);
  }

  // ----- every step keeps the invariants

  lemma StartKeeps(s: Pool, count: int)
    requires Inv(s) && s.caller == Idle
    ensures Inv(AfterStart(s, count))
  {
    if count > 0 {
      var s' := AfterStart(s, count);
      NoHelpers(s);
      ItemsReset(s'.drains, count);
      if Helpers(Size(s), count) > 0 {
        AllUnseen(s.lastSeen, s.generation + 1);
      }
    }
  }

  lemma NotifyStartKeeps(s: Pool)
    requires Inv(s) && s.caller == NotifyingStart
    ensures Inv(Apply(s, NotifyStart))
  {
    ActiveAwake(s.workers);
    ItemsUnheld(s.drains, s.cursor, s.itemCount, s.begun, Size(s), Fetching);
  }

  lemma FetchKeeps(s: Pool, t: nat)
    requires Inv(s) && t <= Size(s) && s.drains[t] == Fetching
    ensures Inv(Apply(s, Fetch(t)))
  {
    ItemsFetched(s.drains, s.cursor, s.itemCount, s.begun, t);
  }

  lemma BeginKeeps(s: Pool, t: nat)
    requires Inv(s) && t <= Size(s) && s.drains[t].Comparing? && s.drains[t].item < s.itemCount
    ensures Inv(Apply(s, Compare(t)))
  {
    ItemsBegun(s.drains, s.cursor, s.itemCount, s.begun, t);
  }

  lemma HelperLeaves(s: Pool, t: nat)
    requires Inv(s) && t < Size(s) && s.drains[t].Comparing? && s.drains[t].item >= s.itemCount
    ensures Inv(AfterDrain(s, t))
  {
    ItemsUnheld(s.drains, s.cursor, s.itemCount, s.begun, t, Out);
    ActiveUpdate(s.workers, t, Finishing);
    SleeperServed(s, t, Finishing);
  }

  lemma CallerLeaves(s: Pool)
    requires Inv(s) && s.drains[Size(s)].Comparing? && s.drains[Size(s)].item >= s.itemCount
    ensures Inv(AfterDrain(s, Size(s)))
  {
    var t := Size(s);
    assert Holding(s.drains[t]);
    ItemsUnheld(s.drains, s.cursor, s.itemCount, s.begun, t, Out);
    if s.caller == Running(true) {
      NoHelpers(s);
      ItemsComplete(s.drains[t := Out], s.cursor, s.itemCount, s.begun);
    }
  }

  /** Changing a worker that is not about to notify leaves whoever will wake the caller. */
  lemma SleeperServed(s: Pool, i: nat, w: Worker)
    requires Shaped(s) && i < Size(s) && s.workers[i] != NotifyingDone
    ensures SomeNotifier(s.workers) ==> SomeNotifier(s.workers[i := w])
  {
    if j :| 0 <= j < Size(s) && s.workers[j] == NotifyingDone {
      assert s.workers[i := w][j] == NotifyingDone;
    }
  }

  lemma CompleteKeeps(s: Pool, t: nat)
    requires Inv(s) && t <= Size(s) && s.drains[t].Working?
    ensures Inv(Apply(s, Complete(t)))
  {
    ItemsUnheld(s.drains, s.cursor, s.itemCount, s.begun, t, Fetching);
  }

  lemma CheckDoneKeeps(s: Pool)
    requires Inv(s) && s.caller == CheckingDone
    ensures Inv(Apply(s, CheckDone))
  {
    if s.pending == 0 {
      NoHelpers(s);
      ItemsComplete(s.drains, s.cursor, s.itemCount, s.begun);
    }
  }

  lemma DozeKeeps(s: Pool, i: nat)
    requires Inv(s) && i < Size(s) && s.workers[i] == Ready && (s.shutdown || s.generation == s.lastSeen[i])
    ensures Inv(AfterCheck(s, i))
  {
    var w := if s.shutdown then Exited else Asleep;
    ActiveUpdate(s.workers, i, w);
    SleeperServed(s, i, w);
  }

  lemma ClaimKeeps(s: Pool, i: nat)
    requires Inv(s) && i < Size(s) && s.workers[i] == Ready && !s.shutdown && s.generation != s.lastSeen[i]
    ensures Inv(AfterCheck(s, i))
  {
    UnseenUpdate(s.lastSeen, s.generation, i);
    if s.claimed < s.target {
      ActiveUpdate(s.workers, i, Draining);
      SleeperServed(s, i, Draining);
      ItemsUnheld(s.drains, s.cursor, s.itemCount, s.begun, i, Fetching);
    }
  }

  lemma FinishKeeps(s: Pool, i: nat)
    requires Inv(s) && i < Size(s) && s.workers[i] == Finishing
    ensures Inv(Apply(s, Finish(i)))
  {
    var w := if s.pending == 1 then NotifyingDone else Ready;
    ActiveUpdate(s.workers, i, w);
    assert s.pending == 1 ==> Apply(s, Finish(i)).workers[i] == NotifyingDone;
  }

  lemma NotifyDoneKeeps(s: Pool, i: nat)
    requires Inv(s) && i < Size(s) && s.workers[i] == NotifyingDone
    ensures Inv(Apply(s, NotifyDone(i)))
  {
    ActiveUpdate(s.workers, i, Ready);
  }

  lemma WakeWorkerKeeps(s: Pool, i: nat)
    requires Inv(s) && i < Size(s) && s.workers[i] == Asleep
    ensures Inv(Apply(s, WakeWorker(i)))
  {
    ActiveUpdate(s.workers, i, Ready);
    SleeperServed(s, i, Ready);
  }

  lemma CompareKeeps(s: Pool, t: nat)
    requires Inv(s) && Enabled(s, Compare(t))
    ensures Inv(Apply(s, Compare(t)))
  {
    if s.drains[t].item < s.itemCount {
      BeginKeeps(s, t);
    } else if t < Size(s) {
      HelperLeaves(s, t);
    } else {
      CallerLeaves(s);
    }
  }

  lemma CheckKeeps(s: Pool, i: nat)
    requires Inv(s) && Enabled(s, Check(i))
    ensures Inv(Apply(s, Check(i)))
  {
    if s.shutdown || s.generation == s.lastSeen[i] {
      DozeKeeps(s, i);
    } else {
      ClaimKeeps(s, i);
    }
  }

  lemma StepKeeps(s: Pool, step: Step)
    requires Inv(s) && Enabled(s, step)
    ensures Inv(Apply(s, step))
  {
    match step
    case Start(count) => StartKeeps(s, count);
    case NotifyStart => NotifyStartKeeps(s);
    case Fetch(t) => FetchKeeps(s, t);
    case Compare(t) => CompareKeeps(s, t);
    case Complete(t) => CompleteKeeps(s, t);
    case CheckDone => CheckDoneKeeps(s);
    case Shutdown => NoHelpers(s);
    case NotifyShutdown => ActiveAwake(s.workers);
    case Join =>
    case Check(i) => CheckKeeps(s, i);
    case Finish(i) => FinishKeeps(s, i);
    case NotifyDone(i) => NotifyDoneKeeps(s, i);
    case WakeWorker(i) => WakeWorkerKeeps(s, i);
    case WakeCaller =>
  }

  // ----- the barrier, over whole runs

  /** The states passed through by a sequence of steps, each of which was possible. */
  ghost predicate Execution(states: seq<Pool>, steps: seq<Step>, n: nat) {
    && |states| == |steps| + 1 && states[0] == Init(n)
    && (forall k | 0 <= k < |states| :: Shaped(states[k]))
    && (forall k | 0 <= k < |steps| :: Enabled(states[k], steps[k]) && states[k + 1] == Apply(states[k], steps[k]))
  }

  lemma {:induction false} ExecutionInv(states: seq<Pool>, steps: seq<Step>, n: nat, k: nat)
    requires Execution(states, steps, n) && k < |states|
    ensures Inv(states[k])
  {
    if k == 0 {
      InitInv(n);
    } else {
      ExecutionInv(states, steps, n, k - 1);
      StepKeeps(states[k - 1], steps[k - 1]);
    }
  }

  /** A step by which run returns to its caller. */
  ghost predicate Returns(s: Pool, step: Step)
    requires Shaped(s) && Enabled(s, step)
  {
    s.caller != Idle && Apply(s, step).caller == Idle
  }

  ghost predicate NobodyInside(drains: seq<Drain>) { forall t | 0 <= t < |drains| :: drains[t] == Out }

  /** When run returns, every item was executed exactly once and no callback is still running. */
  lemma Barrier(states: seq<Pool>, steps: seq<Step>, n: nat, k: nat)
    requires Execution(states, steps, n) && k < |steps| && Returns(states[k], steps[k])
    ensures EachOnce(states[k].begun, states[k].itemCount)
    ensures NobodyInside(states[k + 1].drains)
    ensures states[k + 1].log == states[k].log + [Record(states[k].itemCount, states[k].begun)]
  {
    ExecutionInv(states, steps, n, k);
    ReturnsComplete(states[k], steps[k]);
  }

  lemma ReturnsComplete(s: Pool, step: Step)
    requires Inv(s) && Enabled(s, step) && Returns(s, step)
    ensures EachOnce(s.begun, s.itemCount)
    ensures NobodyInside(Apply(s, step).drains)
    ensures Apply(s, step).log == s.log + [Record(s.itemCount, s.begun)]
  {
    StepKeeps(s, step);
    var t := Apply(s, step);
    NoHelpers(t);
    assert t.log[|s.log|] == Record(s.itemCount, s.begun);
  }

  /** Every run that ever returned executed each of its items exactly once. */
  lemma AllRunsComplete(states: seq<Pool>, steps: seq<Step>, n: nat, k: nat, run: nat)
    requires Execution(states, steps, n) && k < |states| && run < |states[k].log|
    ensures EachOnce(states[k].log[run].begun, states[k].log[run].itemCount)
  {
    ExecutionInv(states, steps, n, k);
  }

  // ----- what was asked for

  /** The item counts of the calls of run that had something to do, in order. */
  function Asked(steps: seq<Step>): seq<int> {
    if steps == [] then []
    else
      var last := steps[|steps| - 1];
      Asked(steps[..|steps| - 1]) + if last.Start? && last.count > 0 then [last.count] else []
  }

  /** Inside a call of run. */
  predicate Busy(c: Caller) { WithHelpers(c) || c == Running(true) }

  /** The runs that returned are those asked for first, and one more is under way while the caller is inside run. */
  ghost predicate Answers(s: Pool, asked: seq<int>) {
    && |asked| == |s.log| + (if Busy(s.caller) then 1 else 0)
    && (forall r | 0 <= r < |s.log| :: s.log[r].itemCount == asked[r])
    && (Busy(s.caller) ==> s.itemCount == asked[|s.log|] > 0)
    && (WithHelpers(s.caller) ==> HelpersFor(Size(s), asked[|s.log|], s.target))
    && (s.caller == Running(true) ==> Size(s) == 0 || asked[|s.log|] == 1)
  }

  /** As many helpers as there are workers, or one fewer than there are items. */
  predicate HelpersFor(workers: nat, items: int, target: int) {
    0 < target <= workers && target < items && (target == workers || target == items - 1)
  }

  lemma StartAnswers(s: Pool, asked: seq<int>, count: int)
    requires Inv(s) && Enabled(s, Start(count)) && Answers(s, asked)
    ensures Answers(Apply(s, Start(count)), if count > 0 then asked + [count] else asked)
  {
    var longer := asked + [count];
    assert forall r | 0 <= r < |asked| :: longer[r] == asked[r];
  }

  lemma OtherAnswers(s: Pool, asked: seq<int>, step: Step)
    requires Inv(s) && Enabled(s, step) && Answers(s, asked) && !step.Start?
    ensures Answers(Apply(s, step), asked)
  {
    if Returns(s, step) {
      ReturnsComplete(s, step);
    } else {
      SameRun(s, step);
    }
  }

  lemma SameRun(s: Pool, step: Step)
    requires Inv(s) && Enabled(s, step) && !step.Start? && !Returns(s, step)
    ensures var t := Apply(s, step);
            && t.log == s.log && t.itemCount == s.itemCount && t.target == s.target && Size(t) == Size(s)
            && Busy(t.caller) == Busy(s.caller) && WithHelpers(t.caller) == WithHelpers(s.caller)
            && (t.caller == Running(true) <==> s.caller == Running(true))
  {
  }

  lemma {:induction false} ExecutionAnswers(states: seq<Pool>, steps: seq<Step>, n: nat, k: nat)
    requires Execution(states, steps, n) && k < |states|
    ensures Answers(states[k], Asked(steps[..k]))
  {
    if k > 0 {
      ExecutionAnswers(states, steps, n, k - 1);
      ExecutionInv(states, steps, n, k - 1);
      AskedNext(steps, k - 1);
      var step := steps[k - 1];
      if step.Start? {
        StartAnswers(states[k - 1], Asked(steps[..k - 1]), step.count);
      } else {
        OtherAnswers(states[k - 1], Asked(steps[..k - 1]), step);
      }
    }
  }

  lemma {:induction false} AskedSince(steps: seq<Step>, j: nat, k: nat)
    requires j < k <= |steps| && steps[j].Start? && steps[j].count > 0
    requires forall i | j < i < k :: !steps[i].Start?
    ensures Asked(steps[..k]) == Asked(steps[..j]) + [steps[j].count]
  {
    AskedNext(steps, k - 1);
    if k > j + 1 {
      AskedSince(steps, j, k - 1);
    }
  }

  lemma NoStartInside(s: Pool, step: Step)
    requires Shaped(s) && Enabled(s, step) && s.caller != Idle
    ensures !step.Start?
  {
  }

  lemma AskedNext(steps: seq<Step>, k: nat)
    requires k < |steps|
    ensures Asked(steps[..k + 1])
         == if steps[k].Start? && steps[k].count > 0 then Asked(steps[..k]) + [steps[k].count] else Asked(steps[..k])
  {
    assert steps[..k + 1][..k] == steps[..k];
  }

  /** When run returns, the items executed, once each, are those from zero to one below the count it was called with. */
  lemma RunDoesWhatWasAsked(states: seq<Pool>, steps: seq<Step>, n: nat, j: nat, k: nat)
    requires Execution(states, steps, n) && j < k < |steps| && steps[j].Start? && steps[j].count > 0
    requires Returns(states[k], steps[k]) && forall i | j < i <= k :: states[i].caller != Idle
    ensures EachOnce(states[k].begun, steps[j].count)
    ensures states[k + 1].log == states[k].log + [Record(steps[j].count, states[k].begun)]
  {
    Barrier(states, steps, n, k);
    ExecutionAnswers(states, steps, n, k);
    forall i | j < i < k ensures !steps[i].Start? {
      NoStartInside(states[i], steps[i]);
    }
    AskedSince(steps, j, k);
    ExecutionInv(states, steps, n, k);
    ReturningIsBusy(states[k], steps[k]);
  }

  lemma ReturningIsBusy(s: Pool, step: Step)
    requires Inv(s) && Enabled(s, step) && Returns(s, step)
    ensures Busy(s.caller)
  {
  }

  /** The log lists the runs that returned: as many items as were asked for, in the order of the calls. */
  lemma LogIsWhatWasAsked(states: seq<Pool>, steps: seq<Step>, n: nat, k: nat, run: nat)
    requires Execution(states, steps, n) && k < |states| && run < |states[k].log|
    ensures run < |Asked(steps[..k])| && EachOnce(states[k].log[run].begun, Asked(steps[..k])[run])
    ensures |Asked(steps[..k])| == |states[k].log| + if Busy(states[k].caller) then 1 else 0
  {
    ExecutionAnswers(states, steps, n, k);
    ExecutionInv(states, steps, n, k);
  }

  /** A callback begins only on an item nobody has begun, by a thread that belongs to this run: the
    * caller, or a worker that claimed one of this run's slots. */
  lemma CallbackBelongs(states: seq<Pool>, steps: seq<Step>, n: nat, k: nat, t: nat)
    requires Execution(states, steps, n) && k < |states| && t <= Size(states[k]) && states[k].drains[t] != Out
    ensures var s := states[k];
            && (s.drains[t].Comparing? ==> s.begun[s.drains[t].item] == 0)
            && (forall u | 0 <= u <= Size(s) && u != t && Holding(s.drains[u]) && Holding(s.drains[t]) ::
                s.drains[u].item != s.drains[t].item)
            && (t < Size(s) ==> s.claims[t] == s.run && WithHelpers(s.caller) && s.caller != Running(true))
            && (t == Size(s) ==> s.caller.Running?)
  {
    ExecutionInv(states, steps, n, k);
    if t < Size(states[k]) {
      assert IsActive(states[k].workers[t]);
      NoneActive(states[k].workers);
    }
  }

  /** During a run that takes the inline path, and between runs, a worker that wakes cannot claim. */
  lemma LateWakerBacksOff(states: seq<Pool>, steps: seq<Step>, n: nat, k: nat, i: nat)
    requires Execution(states, steps, n) && k < |states| && i < Size(states[k]) && states[k].workers[i] == Ready
    requires !WithHelpers(states[k].caller)
    ensures AfterCheck(states[k], i).cursor == states[k].cursor && AfterCheck(states[k], i).drains == states[k].drains
  {
    ExecutionInv(states, steps, n, k);
    NoHelpers(states[k]);
  }

  // ----- progress

  /** While slots are unclaimed, at least that many workers have not seen this run; and once
    * notify_all has executed, none of those sleeps. */
  lemma SlotsAreServed(states: seq<Pool>, steps: seq<Step>, n: nat, k: nat)
    requires Execution(states, steps, n) && k < |states| && WithHelpers(states[k].caller)
    ensures var s := states[k];
            && Unseen(s.lastSeen, s.generation) >= s.target - s.claimed
            && (s.caller != NotifyingStart ==>
                  forall i | 0 <= i < Size(s) && s.lastSeen[i] != s.generation ::
                    s.workers[i] != Asleep && s.workers[i] != Exited)
  {
    ExecutionInv(states, steps, n, k);
  }

  /** Steps of the pool itself: not calls into it and not spurious wakeups. */
  predicate Internal(step: Step) {
    !step.Start? && !step.Shutdown? && !step.WakeWorker? && !step.WakeCaller?
  }

  function DrainRank(d: Drain, itemCount: int): nat {
    match d
    case Out => 0
    case Fetching => 7
    case Comparing(item) => if item < itemCount then 9 else 6
    case Working(_) => 8
  }

  function WorkerRank(w: Worker): nat {
    match w
    case Ready => 1
    case Asleep => 0
    case Draining => 0
    case Finishing => 5
    case NotifyingDone => 4
    case Exited => 0
  }

  function CallerRank(c: Caller, n: nat): nat {
    match c
    case Idle => 0
    case NotifyingStart => n + 8
    case Running(_) => 0
    case CheckingDone => 1
    case Sleeping => 0
    case NotifyingShutdown => n + 2
    case Joining => 1
    case Gone => 0
  }

  function DrainRanks(ds: seq<Drain>, itemCount: int): nat {
    if ds == [] then 0 else DrainRanks(ds[..|ds| - 1], itemCount) + DrainRank(ds[|ds| - 1], itemCount)
  }

  function WorkerRanks(ws: seq<Worker>): nat {
    if ws == [] then 0 else WorkerRanks(ws[..|ws| - 1]) + WorkerRank(ws[|ws| - 1])
  }

  /** Bounds the internal steps that can still be made. */
  function Measure(s: Pool): nat {
    (if s.cursor < s.itemCount then 3 * (s.itemCount - s.cursor) else 0) + 7 * Unseen(s.lastSeen, s.generation)
    + WorkerRanks(s.workers) + DrainRanks(s.drains, s.itemCount) + CallerRank(s.caller, Size(s))
  }

  lemma {:induction false} WorkerRanksUpdate(ws: seq<Worker>, i: nat, w: Worker)
    requires i < |ws|
    ensures WorkerRanks(ws[i := w]) == WorkerRanks(ws) - WorkerRank(ws[i]) + WorkerRank(w)
  {
    var last := |ws| - 1;
    if i == last {
      assert ws[i := w][..last] == ws[..last];
    } else {
      WorkerRanksUpdate(ws[..last], i, w);
      assert ws[i := w][..last] == ws[..last][i := w];
    }
  }

  lemma {:induction false} DrainRanksUpdate(ds: seq<Drain>, i: nat, d: Drain, itemCount: int)
    requires i < |ds|
    ensures DrainRanks(ds[i := d], itemCount)
            == DrainRanks(ds, itemCount) - DrainRank(ds[i], itemCount) + DrainRank(d, itemCount)
  {
    var last := |ds| - 1;
    if i == last {
      assert ds[i := d][..last] == ds[..last];
    } else {
      DrainRanksUpdate(ds[..last], i, d, itemCount);
      assert ds[i := d][..last] == ds[..last][i := d];
    }
  }

  lemma {:induction false} WorkerRanksAwake(ws: seq<Worker>)
    ensures WorkerRanks(Awake(ws)) <= WorkerRanks(ws) + |ws|
  {
    if ws != [] {
      WorkerRanksAwake(ws[..|ws| - 1]);
      assert Awake(ws)[..|ws| - 1] == Awake(ws[..|ws| - 1]);
    }
  }

  lemma CheckDecreases(s: Pool, i: nat)
    requires Shaped(s) && i < Size(s) && s.workers[i] == Ready
    ensures Measure(AfterCheck(s, i)) < Measure(s)
  {
    if s.shutdown {
      WorkerRanksUpdate(s.workers, i, Exited);
    } else if s.generation == s.lastSeen[i] {
      WorkerRanksUpdate(s.workers, i, Asleep);
    } else {
      UnseenUpdate(s.lastSeen, s.generation, i);
      if s.claimed < s.target {
        WorkerRanksUpdate(s.workers, i, Draining);
        DrainRanksUpdate(s.drains, i, Fetching, s.itemCount);
      }
    }
  }

  lemma BeginDecreases(s: Pool, t: nat)
    requires Shaped(s) && t <= Size(s) && s.drains[t].Comparing? && s.drains[t].item < s.itemCount
    ensures Measure(Apply(s, Compare(t))) < Measure(s)
  {
    DrainRanksUpdate(s.drains, t, Working(s.drains[t].item), s.itemCount);
  }

  lemma LeaveDecreases(s: Pool, t: nat)
    requires Shaped(s) && Slots(s) && t <= Size(s) && s.drains[t].Comparing? && s.drains[t].item >= s.itemCount
    ensures Measure(AfterDrain(s, t)) < Measure(s)
  {
    DrainRanksUpdate(s.drains, t, Out, s.itemCount);
    if t < Size(s) {
      WorkerRanksUpdate(s.workers, t, Finishing);
    }
  }

  lemma NotifyStartDecreases(s: Pool)
    requires Shaped(s) && Slots(s) && s.caller == NotifyingStart
    ensures Measure(Apply(s, NotifyStart)) < Measure(s)
  {
    WorkerRanksAwake(s.workers);
    DrainRanksUpdate(s.drains, Size(s), Fetching, s.itemCount);
  }

  lemma FetchDecreases(s: Pool, t: nat)
    requires Shaped(s) && t <= Size(s) && s.drains[t] == Fetching
    ensures Measure(Apply(s, Fetch(t))) < Measure(s)
  {
    DrainRanksUpdate(s.drains, t, Comparing(s.cursor), s.itemCount);
  }

  lemma WorkerStepDecreases(s: Pool, step: Step)
    requires Shaped(s) && Enabled(s, step) && (step.Finish? || step.NotifyDone?)
    ensures Measure(Apply(s, step)) < Measure(s)
  {
    if step.Finish? {
      WorkerRanksUpdate(s.workers, step.i, if s.pending == 1 then NotifyingDone else Ready);
    } else {
      WorkerRanksUpdate(s.workers, step.i, Ready);
    }
  }

  lemma CompareDecreases(s: Pool, t: nat)
    requires Shaped(s) && Slots(s) && t <= Size(s) && s.drains[t].Comparing?
    ensures Measure(Apply(s, Compare(t))) < Measure(s)
  {
    if s.drains[t].item < s.itemCount { BeginDecreases(s, t); } else { LeaveDecreases(s, t); }
  }

  lemma CompleteDecreases(s: Pool, t: nat)
    requires Shaped(s) && t <= Size(s) && s.drains[t].Working?
    ensures Measure(Apply(s, Complete(t))) < Measure(s)
  {
    DrainRanksUpdate(s.drains, t, Fetching, s.itemCount);
  }

  lemma StepDecreases(s: Pool, step: Step)
    requires Inv(s) && Enabled(s, step) && Internal(step)
    ensures Measure(Apply(s, step)) < Measure(s)
  {
    match step
    case NotifyStart => NotifyStartDecreases(s);
    case Fetch(t) => FetchDecreases(s, t);
    case Compare(t) => CompareDecreases(s, t);
    case Complete(t) => CompleteDecreases(s, t);
    case CheckDone =>
    case NotifyShutdown => WorkerRanksAwake(s.workers);
    case Join =>
    case Check(i) => CheckDecreases(s, i);
    case Finish(_) => WorkerStepDecreases(s, step);
    case NotifyDone(_) => WorkerStepDecreases(s, step);
  }

  /** A worker that neither sleeps nor has exited can move. */
  lemma WorkerCanMove(s: Pool, i: nat) returns (step: Step)
    requires Inv(s) && i < Size(s) && s.workers[i] != Asleep && s.workers[i] != Exited
    ensures Enabled(s, step) && Internal(step)
  {
    match s.workers[i]
    case Ready => step := Check(i);
    case Draining => step := DrainStep(s, i);
    case Finishing => step := Finish(i);
    case NotifyingDone => step := NotifyDone(i);
  }

  lemma DrainStep(s: Pool, t: nat) returns (step: Step)
    requires Inv(s) && t <= Size(s) && s.drains[t] != Out
    ensures Enabled(s, step) && Internal(step)
  {
    step := if s.drains[t] == Fetching then Fetch(t) else if s.drains[t].Comparing? then Compare(t) else Complete(t);
  }

  /** Inside run and inside the destructor some internal step is always possible: no wakeup is lost. */
  lemma NeverStuck(s: Pool) returns (step: Step)
    requires Inv(s) && s.caller != Idle && s.caller != Gone
    ensures Enabled(s, step) && Internal(step)
  {
    match s.caller
    case NotifyingStart => step := NotifyStart;
    case Running(_) => step := DrainStep(s, Size(s));
    case CheckingDone => step := CheckDone;
    case NotifyingShutdown => step := NotifyShutdown;
    case Joining =>
      if forall i | 0 <= i < Size(s) :: s.workers[i] == Exited {
        step := Join;
      } else {
        var i :| 0 <= i < Size(s) && s.workers[i] != Exited;
        step := WorkerCanMove(s, i);
      }
    case Sleeping =>
      if j :| 0 <= j < Size(s) && (IsActive(s.workers[j]) || s.workers[j] == NotifyingDone) {
        step := WorkerCanMove(s, j);
      } else {
        NoneActive(s.workers);
        SomeUnseen(s.lastSeen, s.generation);
        var i: nat :| i < Size(s) && s.lastSeen[i] != s.generation;
        step := WorkerCanMove(s, i);
      }
  }

  /** A continuation by internal steps only. */
  ghost predicate InternalRun(s: Pool, steps: seq<Step>)
    decreases |steps|
  {
    steps == [] || (Shaped(s) && Enabled(s, steps[0]) && Internal(steps[0])
                    && InternalRun(Apply(s, steps[0]), steps[1..]))
  }

  function EndOf(s: Pool, steps: seq<Step>): Pool
    requires InternalRun(s, steps)
    decreases |steps|
  {
    if steps == [] then s else EndOf(Apply(s, steps[0]), steps[1..])
  }

  /** Without spurious wakeups, every schedule of internal steps is shorter than the measure, and one
    * that cannot be continued has brought run back to its caller or joined every worker. */
  lemma {:induction false} EverythingReturns(s: Pool, steps: seq<Step>)
    requires Inv(s) && InternalRun(s, steps)
    ensures |steps| <= Measure(s) && Inv(EndOf(s, steps))
    ensures (forall step :: Enabled(EndOf(s, steps), step) ==> !Internal(step)) ==>
              EndOf(s, steps).caller == Idle || EndOf(s, steps).caller == Gone
    decreases |steps|
  {
    if steps == [] {
      if s.caller != Idle && s.caller != Gone {
        var step := NeverStuck(s);
      }
    } else {
      StepKeeps(s, steps[0]);
      StepDecreases(s, steps[0]);
      EverythingReturns(Apply(s, steps[0]), steps[1..]);
    }
  }

  // ----- why the start notifies all workers

  /** Steps that lead from one state to another. */
  ghost predicate Leads(s: Pool, steps: seq<Step>, t: Pool)
    decreases |steps|
  {
    if steps == [] then s == t else Shaped(s) && Enabled(s, steps[0]) && Leads(Apply(s, steps[0]), steps[1..], t)
  }

  lemma Prepend(s: Pool, a: Step, m: Pool, rest: seq<Step>, t: Pool)
    requires Shaped(s) && Enabled(s, a) && Apply(s, a) == m && Leads(m, rest, t)
    ensures Leads(s, [a] + rest, t)
  {
    assert ([a] + rest)[1..] == rest;
  }

  lemma Leads1(s: Pool, a: Step, t: Pool)
    requires Shaped(s) && Enabled(s, a) && Apply(s, a) == t
    ensures Leads(s, [a], t)
  {
  }

  lemma {:induction false} LeadsOn(s: Pool, first: seq<Step>, m: Pool, rest: seq<Step>, t: Pool)
    requires Leads(s, first, m) && Leads(m, rest, t)
    ensures Leads(s, first + rest, t)
    decreases |first|
  {
    if first == [] {
      assert first + rest == rest;
    } else {
      LeadsOn(Apply(s, first[0]), first[1..], m, rest, t);
      assert (first + rest)[1..] == first[1..] + rest;
    }
  }

  /** Two workers and three items, with the second worker asleep since before the run. */
  function Scene(first: Worker, seen: nat, caller: Caller, mine: Drain, callers: Drain, cursor: int, pending: int,
                 claimed: nat, begun: multiset<int>): (s: Pool)
    ensures Shaped(s)
  {
    Pool([first, Asleep], [seen, 0], caller, [mine, Out, callers], 3, cursor, 1, pending, 2, claimed, false, 1,
         [claimed, 0], begun, [])
  }

  /** All three items begun. */
  function Everything(): multiset<int> { multiset{} + multiset{0} + multiset{1} + multiset{2} }

  lemma BothFallAsleep()
    ensures Leads(Init(2), [Check(0), Check(1), Start(3)],
                  Scene(Asleep, 0, NotifyingStart, Out, Out, 0, 2, 0, multiset{}))
  {
    var a := Init(2);
    assert a.workers == [Ready, Ready] && a.lastSeen == [0, 0] && a.drains == [Out, Out, Out] && a.claims == [0, 0];
    var b := Apply(a, Check(0));
    assert b == a.(workers := [Asleep, Ready]);
    var c := Apply(b, Check(1));
    assert c == a.(workers := [Asleep, Asleep]);
    assert Apply(c, Start(3)) == Scene(Asleep, 0, NotifyingStart, Out, Out, 0, 2, 0, multiset{});
    Leads1(c, Start(3), Apply(c, Start(3)));
    Leads1(b, Check(1), c);
    Leads1(a, Check(0), b);
    LeadsOn(b, [Check(1)], c, [Start(3)], Apply(c, Start(3)));
    LeadsOn(a, [Check(0)], b, [Check(1), Start(3)], Apply(c, Start(3)));
  }

  lemma OneItem(k: int, begun: multiset<int>)
    requires 0 <= k < 3
    ensures Leads(Scene(Draining, 1, NotifyingStart, Fetching, Out, k, 2, 1, begun),
                  [Fetch(0), Compare(0), Complete(0)],
                  Scene(Draining, 1, NotifyingStart, Fetching, Out, k + 1, 2, 1, begun + multiset{k}))
  {
    var a := Scene(Draining, 1, NotifyingStart, Fetching, Out, k, 2, 1, begun);
    var b := Scene(Draining, 1, NotifyingStart, Comparing(k), Out, k + 1, 2, 1, begun);
    var c := Scene(Draining, 1, NotifyingStart, Working(k), Out, k + 1, 2, 1, begun + multiset{k});
    var d := Scene(Draining, 1, NotifyingStart, Fetching, Out, k + 1, 2, 1, begun + multiset{k});
    assert Apply(a, Fetch(0)) == b;
    assert Apply(b, Compare(0)) == c;
    assert Apply(c, Complete(0)) == d;
    Leads1(a, Fetch(0), b);
    Leads1(b, Compare(0), c);
    Leads1(c, Complete(0), d);
    LeadsOn(b, [Compare(0)], c, [Complete(0)], d);
    LeadsOn(a, [Fetch(0)], b, [Compare(0), Complete(0)], d);
  }

  /** A worker that was woken does everything and falls asleep again. */
  lemma WorkerDoesAll(b: Pool, h: Pool) returns (steps: seq<Step>)
    requires b == Scene(Ready, 0, NotifyingStart, Out, Out, 0, 2, 0, multiset{})
    requires h == Scene(Asleep, 1, NotifyingStart, Out, Out, 4, 1, 1, Everything())
    ensures Leads(b, steps, h) && Unnotified(steps)
  {
    var c := Scene(Draining, 1, NotifyingStart, Fetching, Out, 0, 2, 1, multiset{});
    assert Apply(b, Check(0)) == c;
    var rest := DrainsAll(c, h);
    Prepend(b, Check(0), c, rest, h);
    steps := [Check(0)] + rest;
  }

  lemma DrainsAll(c: Pool, h: Pool) returns (steps: seq<Step>)
    requires c == Scene(Draining, 1, NotifyingStart, Fetching, Out, 0, 2, 1, multiset{})
    requires h == Scene(Asleep, 1, NotifyingStart, Out, Out, 4, 1, 1, Everything())
    ensures Leads(c, steps, h) && Unnotified(steps)
  {
    var d := Scene(Draining, 1, NotifyingStart, Fetching, Out, 3, 2, 1, Everything());
    var items := ThreeItems(c, d);
    var tail := FallsAsleep(d, h);
    Joined(c, items, d, tail, h);
    steps := items + tail;
  }

  lemma Joined(c: Pool, items: seq<Step>, d: Pool, tail: seq<Step>, h: Pool)
    requires Leads(c, items, d) && Leads(d, tail, h) && Unnotified(items) && Unnotified(tail)
    ensures Leads(c, items + tail, h) && Unnotified(items + tail)
  {
    LeadsOn(c, items, d, tail, h);
  }

  lemma ThreeItems(c: Pool, d: Pool) returns (steps: seq<Step>)
    requires c == Scene(Draining, 1, NotifyingStart, Fetching, Out, 0, 2, 1, multiset{})
    requires d == Scene(Draining, 1, NotifyingStart, Fetching, Out, 3, 2, 1, Everything())
    ensures Leads(c, steps, d) && Unnotified(steps)
  {
    var one, two, three := multiset{} + multiset{0}, multiset{} + multiset{0} + multiset{1},
        multiset{} + multiset{0} + multiset{1} + multiset{2};
    var e := Scene(Draining, 1, NotifyingStart, Fetching, Out, 1, 2, 1, one);
    var f := Scene(Draining, 1, NotifyingStart, Fetching, Out, 2, 2, 1, two);
    OneItem(0, multiset{});
    OneItem(1, one);
    OneItem(2, two);
    var item := [Fetch(0), Compare(0), Complete(0)];
    LeadsOn(e, item, f, item, d);
    LeadsOn(c, item, e, item + item, d);
    steps := item + (item + item);
  }

  lemma FallsAsleep(d: Pool, h: Pool) returns (steps: seq<Step>)
    requires d == Scene(Draining, 1, NotifyingStart, Fetching, Out, 3, 2, 1, Everything())
    requires h == Scene(Asleep, 1, NotifyingStart, Out, Out, 4, 1, 1, Everything())
    ensures Leads(d, steps, h) && Unnotified(steps)
  {
    var e := Scene(Draining, 1, NotifyingStart, Comparing(3), Out, 4, 2, 1, Everything());
    var f := Scene(Finishing, 1, NotifyingStart, Out, Out, 4, 2, 1, Everything());
    assert Apply(d, Fetch(0)) == e;
    assert Apply(e, Compare(0)) == f;
    var rest := Reports(f, h);
    Prepend(e, Compare(0), f, rest, h);
    Prepend(d, Fetch(0), e, [Compare(0)] + rest, h);
    steps := [Fetch(0)] + ([Compare(0)] + rest);
  }

  lemma Reports(f: Pool, h: Pool) returns (steps: seq<Step>)
    requires f == Scene(Finishing, 1, NotifyingStart, Out, Out, 4, 2, 1, Everything())
    requires h == Scene(Asleep, 1, NotifyingStart, Out, Out, 4, 1, 1, Everything())
    ensures Leads(f, steps, h) && Unnotified(steps)
  {
    var g := Scene(Ready, 1, NotifyingStart, Out, Out, 4, 1, 1, Everything());
    assert Apply(f, Finish(0)) == g;
    assert Apply(g, Check(0)) == h;
    Leads1(g, Check(0), h);
    Prepend(f, Finish(0), g, [Check(0)], h);
    steps := [Finish(0)] + [Check(0)];
  }

  // the pool that notifies one worker per slot

  /** The pool and how often the caller has called notify_one since it published its run. */
  datatype OneByOne = OneByOne(pool: Pool, notified: nat)

  /** NotifyOne wakes a sleeper, if there is one; the caller then enters drainCursor. */
  datatype OneStep = NotifyOne(w: nat) | NotifyNobody | Enter | Other(step: Step)

  /** A step that is neither the notification of all workers nor a spurious wakeup. */
  predicate Plain(step: Step) { !step.NotifyStart? && !step.WakeWorker? && !step.WakeCaller? }

  ghost predicate OneEnabled(o: OneByOne, a: OneStep)
    requires Shaped(o.pool)
  {
    var s := o.pool;
    match a
    case NotifyOne(w) => s.caller == NotifyingStart && o.notified < s.target && w < Size(s) && s.workers[w] == Asleep
    case NotifyNobody =>
      s.caller == NotifyingStart && o.notified < s.target && forall w | 0 <= w < Size(s) :: s.workers[w] != Asleep
    case Enter => s.caller == NotifyingStart && o.notified == s.target
    case Other(step) => Plain(step) && Enabled(s, step)
  }

  function OneApply(o: OneByOne, a: OneStep): OneByOne
    requires Shaped(o.pool) && OneEnabled(o, a)
  {
    var s := o.pool;
    match a
    case NotifyOne(w) => OneByOne(s.(workers := s.workers[w := Ready]), o.notified + 1)
    case NotifyNobody => OneByOne(s, o.notified + 1)
    case Enter => OneByOne(s.(caller := Running(false), drains := s.drains[Size(s) := Fetching]), o.notified)
    case Other(step) => OneByOne(Apply(s, step), if step.Start? then 0 else o.notified)
  }

  ghost predicate OneLeads(o: OneByOne, steps: seq<OneStep>, e: OneByOne)
    decreases |steps|
  {
    if steps == [] then o == e
    else Shaped(o.pool) && OneEnabled(o, steps[0]) && OneLeads(OneApply(o, steps[0]), steps[1..], e)
  }

  lemma OneFirst(o: OneByOne, a: OneStep, m: OneByOne, rest: seq<OneStep>, e: OneByOne)
    requires Shaped(o.pool) && OneEnabled(o, a) && OneApply(o, a) == m && OneLeads(m, rest, e)
    ensures OneLeads(o, [a] + rest, e)
  {
    assert ([a] + rest)[1..] == rest;
  }

  ghost predicate Unnotified(steps: seq<Step>) { forall i | 0 <= i < |steps| :: Plain(steps[i]) && !steps[i].Start? }

  function Others(steps: seq<Step>): (r: seq<OneStep>)
    ensures |r| == |steps| && forall i | 0 <= i < |r| :: r[i] == Other(steps[i])
  {
    seq(|steps|, i requires 0 <= i < |steps| => Other(steps[i]))
  }

  /** Steps of the source's pool that notify nobody at the start are steps of this one. */
  lemma {:induction false} OthersLead(s: Pool, steps: seq<Step>, t: Pool, notified: nat, rest: seq<OneStep>,
                                      e: OneByOne)
    requires Leads(s, steps, t)
    requires forall i | 0 <= i < |steps| :: Plain(steps[i]) && (steps[i].Start? ==> notified == 0)
    requires OneLeads(OneByOne(t, notified), rest, e)
    ensures OneLeads(OneByOne(s, notified), Others(steps) + rest, e)
    decreases |steps|
  {
    if steps == [] {
      assert Others(steps) + rest == rest;
    } else {
      OthersLead(Apply(s, steps[0]), steps[1..], t, notified, rest, e);
      var all := Others(steps) + rest;
      assert all[0] == Other(steps[0]) && all[1..] == Others(steps[1..]) + rest;
    }
  }

  /** With one notify_one per slot in place of notify_all a run can hang without any spurious wakeup: both
    * calls wake the same worker, the other slot stays unclaimed, the caller sleeps and nothing can move. */
  lemma NotifyOneCanHang() returns (steps: seq<OneStep>, e: OneByOne)
    ensures OneLeads(OneByOne(Init(2), 0), steps, e) && Shaped(e.pool)
    ensures e.notified == e.pool.target == 2 && NotifyNobody !in steps
    ensures e.pool.caller == Sleeping && e.pool.claimed < e.pool.target
    ensures forall a :: !OneEnabled(e, a)
  {
    var a := Scene(Asleep, 0, NotifyingStart, Out, Out, 0, 2, 0, multiset{});
    var h := Scene(Asleep, 1, NotifyingStart, Out, Out, 4, 1, 1, Everything());
    e := OneByOne(Scene(Asleep, 1, Sleeping, Out, Out, 5, 1, 1, Everything()), 2);
    var last := SecondCallIsWasted(h, e.pool);
    var first := FirstCallServes(a, h, last, e);
    steps := RunIsPublished(a, first, e);
    NothingMoves(e);
  }

  lemma RunIsPublished(a: Pool, first: seq<OneStep>, e: OneByOne) returns (steps: seq<OneStep>)
    requires a == Scene(Asleep, 0, NotifyingStart, Out, Out, 0, 2, 0, multiset{})
    requires OneLeads(OneByOne(a, 0), first, e) && NotifyNobody !in first
    ensures OneLeads(OneByOne(Init(2), 0), steps, e) && NotifyNobody !in steps
  {
    var before := [Check(0), Check(1), Start(3)];
    BothFallAsleep();
    OthersLead(Init(2), before, a, 0, first, e);
    steps := Others(before) + first;
  }

  lemma FirstCallServes(a: Pool, h: Pool, last: seq<OneStep>, e: OneByOne) returns (steps: seq<OneStep>)
    requires a == Scene(Asleep, 0, NotifyingStart, Out, Out, 0, 2, 0, multiset{})
    requires h == Scene(Asleep, 1, NotifyingStart, Out, Out, 4, 1, 1, Everything())
    requires OneLeads(OneByOne(h, 1), last, e) && NotifyNobody !in last
    ensures OneLeads(OneByOne(a, 0), steps, e) && NotifyNobody !in steps
  {
    var b := Scene(Ready, 0, NotifyingStart, Out, Out, 0, 2, 0, multiset{});
    var serving := WorkerDoesAll(b, h);
    assert OneApply(OneByOne(a, 0), NotifyOne(0)) == OneByOne(b, 1);
    steps := NotifiedThen(OneByOne(a, 0), 0, OneByOne(b, 1), serving, h, last, e);
  }

  lemma NotifiedThen(o: OneByOne, w: nat, m: OneByOne, serving: seq<Step>, h: Pool, last: seq<OneStep>, e: OneByOne)
    returns (steps: seq<OneStep>)
    requires Shaped(o.pool) && OneEnabled(o, NotifyOne(w)) && OneApply(o, NotifyOne(w)) == m
    requires Leads(m.pool, serving, h) && Unnotified(serving)
    requires OneLeads(OneByOne(h, m.notified), last, e) && NotifyNobody !in last
    ensures OneLeads(o, steps, e) && NotifyNobody !in steps
  {
    OthersLead(m.pool, serving, h, m.notified, last, e);
    OneFirst(o, NotifyOne(w), m, Others(serving) + last, e);
    steps := [NotifyOne(w)] + (Others(serving) + last);
  }

  lemma SecondCallIsWasted(h: Pool, t: Pool) returns (steps: seq<OneStep>)
    requires h == Scene(Asleep, 1, NotifyingStart, Out, Out, 4, 1, 1, Everything())
    requires t == Scene(Asleep, 1, Sleeping, Out, Out, 5, 1, 1, Everything())
    ensures OneLeads(OneByOne(h, 1), steps, OneByOne(t, 2)) && NotifyNobody !in steps
  {
    var all := Everything();
    var g := Scene(Ready, 1, NotifyingStart, Out, Out, 4, 1, 1, all);
    var u := Scene(Asleep, 1, Running(false), Out, Fetching, 4, 1, 1, all);
    var e := OneByOne(t, 2);
    var after := CallerFallsAsleep(u, t);
    assert OneLeads(e, [], e);
    OthersLead(u, after, t, 2, [], e);
    steps := Others(after) + [];
    assert OneApply(OneByOne(h, 2), Enter) == OneByOne(u, 2);
    OneFirst(OneByOne(h, 2), Enter, OneByOne(u, 2), steps, e);
    steps := [Enter] + steps;
    assert Apply(g, Check(0)) == h;
    OneFirst(OneByOne(g, 2), Other(Check(0)), OneByOne(h, 2), steps, e);
    steps := [Other(Check(0))] + steps;
    assert OneApply(OneByOne(h, 1), NotifyOne(0)) == OneByOne(g, 2);
    OneFirst(OneByOne(h, 1), NotifyOne(0), OneByOne(g, 2), steps, e);
    steps := [NotifyOne(0)] + steps;
  }

  lemma CallerFallsAsleep(u: Pool, t: Pool) returns (after: seq<Step>)
    requires u == Scene(Asleep, 1, Running(false), Out, Fetching, 4, 1, 1, Everything())
    requires t == Scene(Asleep, 1, Sleeping, Out, Out, 5, 1, 1, Everything())
    ensures Leads(u, after, t) && Unnotified(after)
  {
    var all := Everything();
    var v := Scene(Asleep, 1, Running(false), Out, Comparing(4), 5, 1, 1, all);
    var w := Scene(Asleep, 1, CheckingDone, Out, Out, 5, 1, 1, all);
    assert Apply(u, Fetch(2)) == v;
    assert Apply(v, Compare(2)) == w;
    assert Apply(w, CheckDone) == t;
    after := [CheckDone];
    Leads1(w, CheckDone, t);
    Prepend(v, Compare(2), w, after, t);
    after := [Compare(2)] + after;
    Prepend(u, Fetch(2), v, after, t);
    after := [Fetch(2)] + after;
  }

  lemma NothingMoves(e: OneByOne)
    requires e == OneByOne(Scene(Asleep, 1, Sleeping, Out, Out, 5, 1, 1, Everything()), 2)
    ensures forall a :: !OneEnabled(e, a)
  {
  }
}
