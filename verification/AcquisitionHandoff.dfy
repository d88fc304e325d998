/** The search hand-off of Source/Application/GPSOpenClApplication.cpp: the consumer thread runs
  * processBlock, the acquisition thread runs acquisitionWorkerLoop, and they meet in a job queue of
  * capacity 1 and a result queue of capacity 4.  Every access to a queue or to the busy flag is a
  * step of its own.
  */
module AcquisitionHandoff {
  import opened Lifecycle

  const CHANNELS: nat := 32
  const JOB_CAPACITY: nat := 1
  const RESULT_CAPACITY: nat := 4

  /** Where the consumer stands in processBlock. */
  datatype Phase =
    | Polling             // about to try the result queue
    | Clearing            // finalized a result, about to clear the busy flag
    | Scheduling
    | Setting             // pushed a job, about to set the busy flag
    | Selecting           // about to choose the channels to track
    | InTracking(active: set<nat>)
    | Destroyed           // the destructor finished the job queue

  datatype App = App(
    phase: Phase,
    channels: seq<ChannelState>,
    busy: bool,
    next: nat,            // m_nextAcquisitionChannel
    sweepDone: bool,
    jobs: seq<nat>,
    worker: seq<nat>,     // the channel the acquisition thread is searching, if any
    results: seq<nat>,
    // history
    submitted: seq<nat>,
    dropped: nat,         // results or jobs that a full queue refused
    misapplied: nat       // results finalized on a channel that was not Acquiring
  )

  datatype Step =
    | Poll(strong: bool)                          // strong: the C/N0 reached the threshold
    | Clear
    | Schedule(blockIndex: nat, interval: int)
    | Set
    | Select
    | Track(after: seq<ChannelState>)             // the barrier ends; lock decisions are arbitrary
    | Destroy
    | TakeJob                                     // the acquisition thread pops a job
    | Deliver                                     // ... and pushes its result

  function Init(): App {
    App(Polling, seq(CHANNELS, _ => Acquiring), false, 0, false, [], [], [], [], 0, 0)
  }

  function SlotWidth(interval: int): (w: nat)
    requires interval > 0
    ensures w >= 1
  {
    if interval / 32 < 1 then 1 else interval / 32
  }

  /** The channel that a block re-searches once the sweep is over, or -1. */
  function ReacquisitionChannel(blockIndex: nat, interval: int): (c: int)
    ensures -1 <= c < CHANNELS
  {
    if interval > 0 && blockIndex % SlotWidth(interval) == 0
    then (blockIndex / SlotWidth(interval)) % CHANNELS
    else -1
  }

  /** What tracking a block may do to a channel. */
  predicate MayBecome(before: ChannelState, after: ChannelState) {
    match before
    case Acquiring => after == Acquiring
    case Confirming => true
    case Tracking => after == Tracking || after == Acquiring
  }

  ghost predicate Enabled(s: App, step: Step) {
    match step
    case Poll(_) => s.phase == Polling && (s.results != [] ==> s.results[0] < |s.channels|)
    case Clear => s.phase == Clearing
    case Schedule(_, _) => s.phase == Scheduling && |s.channels| == CHANNELS
    case Set => s.phase == Setting
    case Select => s.phase == Selecting
    case Track(after) =>
      && s.phase.InTracking? && |after| == |s.channels|
      && forall c | 0 <= c < |after| ::
         if c in s.phase.active then MayBecome(s.channels[c], after[c]) else after[c] == s.channels[c]
    case Destroy => s.phase == Polling
    case TakeJob => s.worker == [] && s.jobs != []
    case Deliver => |s.worker| == 1
  }

  /** The end of processBlock's scheduling part, for a chosen channel or -1. */
  function Submitted(s: App, c: int): App
    requires c < |s.channels|
  {
    if c < 0 || s.channels[c] != Acquiring then s.(phase := Selecting)
    else if |s.jobs| >= JOB_CAPACITY then s.(phase := Selecting, dropped := s.dropped + 1)
    else s.(phase := Setting, jobs := s.jobs + [c], submitted := s.submitted + [c])
  }

  function Apply(s: App, step: Step): App
    requires Enabled(s, step)
  {
    match step
    case Poll(strong) =>
      if s.results == [] then s.(phase := Scheduling)
      else
        var c := s.results[0];
        s.(phase := Clearing, results := s.results[1..],
           channels := if strong then s.channels[c := Confirming] else s.channels,
           misapplied := s.misapplied + (if s.channels[c] == Acquiring then 0 else 1))
    case Clear => s.(phase := Scheduling, busy := false)
    case Schedule(blockIndex, interval) =>
      if s.busy then s.(phase := Selecting)
      else if !s.sweepDone then
        if s.next < CHANNELS then Submitted(s.(next := s.next + 1), s.next)
        else s.(phase := Selecting, sweepDone := true)
      else Submitted(s, ReacquisitionChannel(blockIndex, interval))
    case Set => s.(phase := Selecting, busy := true)
    case Select => s.(phase := InTracking(set c: nat | c < |s.channels| && s.channels[c] != Acquiring :: c))
    case Track(after) => s.(phase := Polling, channels := after)
    case Destroy => s.(phase := Destroyed)
    case TakeJob => s.(worker := [s.jobs[0]], jobs := s.jobs[1..])
    case Deliver =>
      if |s.results| >= RESULT_CAPACITY then s.(worker := [], dropped := s.dropped + 1)
      else s.(worker := [], results := s.results + s.worker)
  }

  /** The searches that exist anywhere between submission and finalization. */
  function InFlight(s: App): seq<nat> { s.jobs + s.worker + s.results }

  /** The cold-start sweep so far: channels 0, 1, ... once each, in order. */
  ghost predicate SweepPrefix(submitted: seq<nat>, n: nat) {
    n <= |submitted| && forall i: nat | i < n :: submitted[i] == i
  }

  ghost predicate Inv(s: App) {
    && |s.channels| == CHANNELS && s.next <= CHANNELS
    && s.dropped == 0 && s.misapplied == 0
    && |InFlight(s)| <= 1
    && (s.phase == Clearing ==> s.busy && |InFlight(s)| == 0)
    && (s.phase == Setting ==> !s.busy && |InFlight(s)| == 1)
    && (s.phase != Clearing && s.phase != Setting ==> (s.busy <==> |InFlight(s)| == 1))
    && (forall c | c in InFlight(s) :: c < CHANNELS && s.channels[c] == Acquiring)
    && (s.phase.InTracking? ==> forall c | c in InFlight(s) :: c !in s.phase.active)
    && (s.sweepDone ==> s.next == CHANNELS)
    && SweepPrefix(s.submitted, s.next)
    && (!s.sweepDone ==> |s.submitted| == s.next)
    && (forall c: nat | s.next <= c < CHANNELS :: s.channels[c] == Acquiring && c !in InFlight(s))
    && (s.phase.InTracking? ==> forall c | c in s.phase.active :: c < s.next)
  }

  lemma SubmittedKeeps(s: App, c: int)
    requires Inv(s) && s.phase == Scheduling && !s.busy && s.sweepDone && -1 <= c < CHANNELS
    ensures Inv(Submitted(s, c))
  {
    if c >= 0 && s.channels[c] == Acquiring {
      assert InFlight(Submitted(s, c)) == [c];
    }
  }

  lemma SweepKeeps(s: App)
    requires Inv(s) && s.phase == Scheduling && !s.busy && !s.sweepDone && s.next < CHANNELS
    ensures Inv(Submitted(s.(next := s.next + 1), s.next))
    ensures Submitted(s.(next := s.next + 1), s.next).submitted == s.submitted + [s.next]
  {
    assert s.channels[s.next] == Acquiring;
    assert InFlight(Submitted(s.(next := s.next + 1), s.next)) == [s.next];
  }

  lemma PollKeeps(s: App, strong: bool)
    requires Inv(s) && Enabled(s, Poll(strong))
    ensures Inv(Apply(s, Poll(strong)))
  {
    if s.results != [] {
      assert s.results[0] in InFlight(s);
      assert InFlight(Apply(s, Poll(strong))) == [];
    }
  }

  lemma ScheduleKeeps(s: App, blockIndex: nat, interval: int)
    requires Inv(s) && Enabled(s, Schedule(blockIndex, interval))
    ensures Inv(Apply(s, Schedule(blockIndex, interval)))
  {
    if !s.busy {
      if !s.sweepDone {
        if s.next < CHANNELS { SweepKeeps(s); }
      } else {
        SubmittedKeeps(s, ReacquisitionChannel(blockIndex, interval));
      }
    }
  }

  /** A step that moves the search along, or none. */
  lemma MoveKeeps(s: App, step: Step)
    requires Inv(s) && Enabled(s, step) && (step.TakeJob? || step.Deliver?)
    ensures Inv(Apply(s, step))
  {
    assert InFlight(Apply(s, step)) == InFlight(s);
  }

  lemma TrackKeeps(s: App, after: seq<ChannelState>)
    requires Inv(s) && Enabled(s, Track(after))
    ensures Inv(Apply(s, Track(after)))
  {
  }

  /** The steps that only change the consumer's phase or flag. */
  lemma PhaseKeeps(s: App, step: Step)
    requires Inv(s) && Enabled(s, step) && (step.Clear? || step.Set? || step.Select? || step.Destroy?)
    ensures Inv(Apply(s, step))
  {
  }

  lemma StepKeeps(s: App, step: Step)
    requires Inv(s) && Enabled(s, step)
    ensures Inv(Apply(s, step))
  {
    match step
    case Poll(strong) => PollKeeps(s, strong);
    case Schedule(blockIndex, interval) => ScheduleKeeps(s, blockIndex, interval);
    case Track(after) => TrackKeeps(s, after);
    case TakeJob => MoveKeeps(s, step);
    case Deliver => MoveKeeps(s, step);
    case _ => PhaseKeeps(s, step);
  }

  /** Any interleaving of the two threads. */
  ghost predicate Execution(states: seq<App>, steps: seq<Step>) {
    && |states| == |steps| + 1 && states[0] == Init()
    && (forall k | 0 <= k < |steps| :: Enabled(states[k], steps[k]) && states[k + 1] == Apply(states[k], steps[k]))
  }

  lemma {:induction false} ExecutionInv(states: seq<App>, steps: seq<Step>, k: nat)
    requires Execution(states, steps) && k < |states|
    ensures Inv(states[k])
  {
    if k == 0 {
      assert InFlight(states[0]) == [];
    } else {
      ExecutionInv(states, steps, k - 1);
      StepKeeps(states[k - 1], steps[k - 1]);
    }
  }

  /** The busy flag says whether one search is under way, and there is never more than one.  Only
    * between the push and the store (or the pop and the store) does the flag lag behind. */
  lemma BusyMeansOneSearch(states: seq<App>, steps: seq<Step>, k: nat)
    requires Execution(states, steps) && k < |states|
    ensures var s := states[k];
            && |s.jobs| + |s.worker| + |s.results| <= 1
            && (s.phase != Clearing && s.phase != Setting ==> (s.busy <==> |s.jobs| + |s.worker| + |s.results| == 1))
  {
    ExecutionInv(states, steps, k);
  }

  /** No queue ever refuses a job or a result, and results only ever reach channels in Acquiring. */
  lemma NothingIsLost(states: seq<App>, steps: seq<Step>, k: nat)
    requires Execution(states, steps) && k < |states|
    ensures states[k].dropped == 0 && states[k].misapplied == 0
  {
    ExecutionInv(states, steps, k);
  }

  /** A channel under search stays in Acquiring and is not among the channels being tracked. */
  lemma SearchedIsNotTracked(states: seq<App>, steps: seq<Step>, k: nat, c: nat)
    requires Execution(states, steps) && k < |states| && c in InFlight(states[k])
    ensures c < |states[k].channels| && states[k].channels[c] == Acquiring
    ensures states[k].phase.InTracking? ==> c !in states[k].phase.active
  {
    ExecutionInv(states, steps, k);
  }

  /** The sweep submits each of the 32 channels exactly once and in order, before anything else. */
  lemma SweepSubmitsEachOnce(states: seq<App>, steps: seq<Step>, k: nat)
    requires Execution(states, steps) && k < |states|
    ensures var s := states[k];
            && SweepPrefix(s.submitted, s.next)
            && (!s.sweepDone ==> |s.submitted| == s.next <= CHANNELS)
            && (s.sweepDone ==> s.next == CHANNELS)
  {
    ExecutionInv(states, steps, k);
  }

  lemma ExecutionAt(states: seq<App>, steps: seq<Step>, k: nat)
    requires Execution(states, steps) && k < |steps|
    ensures Enabled(states[k], steps[k]) && states[k + 1] == Apply(states[k], steps[k]) && Inv(states[k])
  {
    ExecutionInv(states, steps, k);
  }

  /** What is under way is the channel submitted last. */
  ghost predicate LastUnderWay(s: App) {
    InFlight(s) == [] || (s.submitted != [] && InFlight(s) == [s.submitted[|s.submitted| - 1]])
  }

  lemma StaysLast(s: App, step: Step)
    requires Inv(s) && Enabled(s, step) && LastUnderWay(s)
    ensures LastUnderWay(Apply(s, step))
  {
    match step
    case Poll(strong) => PolledStaysLast(s, strong);
    case Schedule(blockIndex, interval) => ScheduledStaysLast(s, blockIndex, interval);
    case _ => MovedStaysLast(s, step);
  }

  lemma PolledStaysLast(s: App, strong: bool)
    requires Inv(s) && Enabled(s, Poll(strong)) && LastUnderWay(s)
    ensures LastUnderWay(Apply(s, Poll(strong)))
  {
    if s.results != [] {
      assert InFlight(Apply(s, Poll(strong))) == [];
    }
  }

  lemma SubmittedIsLast(s: App, c: int)
    requires c < |s.channels| && InFlight(s) == []
    ensures LastUnderWay(Submitted(s, c))
  {
    if c >= 0 && s.channels[c] == Acquiring {
      assert InFlight(Submitted(s, c)) == [c];
    }
  }

  lemma ScheduledStaysLast(s: App, blockIndex: nat, interval: int)
    requires Inv(s) && Enabled(s, Schedule(blockIndex, interval)) && LastUnderWay(s)
    ensures LastUnderWay(Apply(s, Schedule(blockIndex, interval)))
  {
    if !s.busy {
      assert InFlight(s) == [];
      if !s.sweepDone {
        if s.next < CHANNELS { SubmittedIsLast(s.(next := s.next + 1), s.next); }
      } else {
        SubmittedIsLast(s, ReacquisitionChannel(blockIndex, interval));
      }
    }
  }

  /** The other steps at most move a search from one queue to the next. */
  lemma MovedStaysLast(s: App, step: Step)
    requires Inv(s) && Enabled(s, step) && LastUnderWay(s) && !step.Poll? && !step.Schedule?
    ensures LastUnderWay(Apply(s, step))
  {
    assert InFlight(Apply(s, step)) == InFlight(s);
  }

  lemma {:induction false} LastIsUnderWay(states: seq<App>, steps: seq<Step>, k: nat)
    requires Execution(states, steps) && k < |states|
    ensures LastUnderWay(states[k])
  {
    if k > 0 {
      LastIsUnderWay(states, steps, k - 1);
      ExecutionAt(states, steps, k - 1);
      StaysLast(states[k - 1], steps[k - 1]);
    }
  }

  /** A result makes the channel submitted last Confirming when it is strong, and leaves it in Acquiring when not. */
  lemma ResultDecides(states: seq<App>, steps: seq<Step>, k: nat, strong: bool)
    requires Execution(states, steps) && k < |steps| && steps[k] == Poll(strong) && states[k].results != []
    ensures var c := states[k].results[0];
            && c < CHANNELS && states[k].submitted != [] && c == states[k].submitted[|states[k].submitted| - 1]
            && states[k].channels[c] == Acquiring
            && states[k + 1].channels == states[k].channels[c := if strong then Confirming else Acquiring]
            && states[k + 1].jobs == [] && states[k + 1].worker == [] && states[k + 1].results == []
  {
    ExecutionAt(states, steps, k);
    LastIsUnderWay(states, steps, k);
    assert states[k].results[0] in InFlight(states[k]);
  }

  lemma StepAcquires(s: App, step: Step, c: nat)
    requires Inv(s) && Enabled(s, step) && c < CHANNELS && s.channels[c] == Acquiring
    ensures |Apply(s, step).channels| == CHANNELS
    ensures Apply(s, step).channels[c] == Acquiring
            || (step == Poll(true) && s.results == [c] && Apply(s, step).channels[c] == Confirming)
  {
  }

  /** Nothing else takes a channel out of Acquiring. */
  lemma OnlyStrongResultAcquires(states: seq<App>, steps: seq<Step>, k: nat, c: nat)
    requires Execution(states, steps) && k < |steps| && c < CHANNELS
    ensures |states[k].channels| == |states[k + 1].channels| == CHANNELS
    ensures states[k].channels[c] == Acquiring && states[k + 1].channels[c] != Acquiring ==>
              steps[k] == Poll(true) && states[k].results == [c] && states[k + 1].channels[c] == Confirming
  {
    ExecutionAt(states, steps, k);
    ExecutionInv(states, steps, k + 1);
    if states[k].channels[c] == Acquiring {
      StepAcquires(states[k], steps[k], c);
    }
  }

  /** The channels that a block tracks are exactly those that are not in Acquiring. */
  lemma {:induction false} TracksTheRest(states: seq<App>, steps: seq<Step>, k: nat)
    requires Execution(states, steps) && k < |states| && states[k].phase.InTracking?
    ensures forall c: nat :: c in states[k].phase.active <==>
              c < |states[k].channels| && states[k].channels[c] != Acquiring
  {
    assert k > 0;
    ExecutionAt(states, steps, k - 1);
    if !steps[k - 1].Select? {
      TracksTheRest(states, steps, k - 1);
    }
  }

  /** After the sweep, every channel has exactly one slot in every period of 32 slots. */
  lemma EverySlotReturns(interval: int, c: nat, first: nat) returns (block: nat)
    requires interval > 0 && c < CHANNELS
    ensures first <= block < first + CHANNELS * SlotWidth(interval) && ReacquisitionChannel(block, interval) == c
    ensures forall b: nat | first <= b < first + CHANNELS * SlotWidth(interval) ::
              ReacquisitionChannel(b, interval) == c ==> b == block
  {
    var w := SlotWidth(interval);
    // the first slot at or after `first`, then the first one whose number is c modulo 32
    var slot := if first % w == 0 then first / w else first / w + 1;
    CeilingSlot(first, w, slot);
    var wanted := slot + (c - slot) % 32;
    NextCongruent(slot, c);
    block := SlotBlock(first, w, slot, wanted);
    forall b: nat | first <= b < first + CHANNELS * w && ReacquisitionChannel(b, interval) == c
      ensures b == block
    {
      SameSlot(first, w, slot, wanted, b, c);
    }
  }

  /** A period of 32 slots is the interval, but for what does not divide by 32; at least a block a slot. */
  lemma PeriodIsInterval(interval: int)
    requires interval > 0
    ensures interval >= 32 ==> interval - 32 < CHANNELS * SlotWidth(interval) <= interval
    ensures interval < 32 ==> CHANNELS * SlotWidth(interval) == 32
  {
  }

  lemma SlotBlock(first: nat, w: nat, slot: nat, wanted: nat) returns (block: nat)
    requires w > 0 && first <= slot * w < first + w && slot <= wanted < slot + 32
    ensures first <= block < first + 32 * w && block % w == 0 && block / w == wanted && block == wanted * w
  {
    block := wanted * w;
    WithinPeriod(first, w, slot, wanted);
    ProductQuotient(wanted, w);
  }

  lemma SameSlot(first: nat, w: nat, slot: nat, wanted: nat, b: nat, c: nat)
    requires w > 0 && first <= slot * w < first + w && slot <= wanted < slot + 32 && wanted % 32 == c
    requires first <= b < first + 32 * w && b % w == 0 && (b / w) % 32 == c
    ensures b == wanted * w
  {
    var q := b / w;
    assert b == q * w + b % w;
    SlotInPeriod(first, w, slot, q);
    SameResidue(slot, wanted, q, c);
  }

  lemma CeilingSlot(first: nat, w: nat, slot: nat)
    requires w > 0 && slot == if first % w == 0 then first / w else first / w + 1
    ensures first <= slot * w < first + w
  {
    assert first == (first / w) * w + first % w;
    assert (first / w + 1) * w == (first / w) * w + w;
  }

  lemma NextCongruent(slot: nat, c: nat)
    requires c < 32
    ensures 0 <= (c - slot) % 32 < 32 && (slot + (c - slot) % 32) % 32 == c
  {
  }

  lemma WithinPeriod(first: nat, w: nat, slot: nat, wanted: nat)
    requires w > 0 && first <= slot * w < first + w && slot <= wanted < slot + 32
    ensures first <= wanted * w < first + 32 * w
  {
    var d := wanted - slot;
    Distributes(slot, d, w);
    Distributes(31 - d, d, w);
  }

  lemma Distributes(a: nat, b: nat, w: nat)
    ensures (a + b) * w == a * w + b * w && b * w >= 0 && a * w >= 0
  {
  }

  lemma ProductQuotient(q: nat, w: nat)
    requires w > 0
    ensures (q * w) / w == q && (q * w) % w == 0
  {
    var d := (q * w) / w - q;
    assert d * w == -((q * w) % w);
    assert d >= 1 ==> d * w >= w;
    assert d <= -1 ==> d * w <= -(w as int);
  }

  lemma SlotInPeriod(first: nat, w: nat, slot: nat, q: nat)
    requires w > 0 && first <= slot * w < first + w && first <= q * w < first + 32 * w
    ensures slot <= q < slot + 32
  {
    var d := q - slot;
    assert d * w == q * w - slot * w;
    assert d <= -1 ==> d * w <= -(w as int);
    assert d >= 32 ==> d * w >= 32 * w;
  }

  lemma SameResidue(slot: nat, a: nat, b: nat, c: nat)
    requires slot <= a < slot + 32 && slot <= b < slot + 32 && a % 32 == c && b % 32 == c
    ensures a == b
  {
  }
}
