/** The lifecycle of a channel in Source/Tracking/GPSOpenClChannel.cpp: leaky buckets that confirm a
  * lock and declare it lost.  Whether a block was good is an arbitrary input.
  */
module Lifecycle {
  import opened Numbers

  datatype ChannelState = Acquiring | Confirming | Tracking

  datatype Thresholds = Thresholds(confirmDebounce: int, confirmTimeout: int, lossDebounce: int)

  /** The lifecycle fields of a channel. */
  datatype Life = Life(state: ChannelState, acquired: bool, confirmProgress: int, lossProgress: int,
                       blocksInConfirming: int)

  /** computeNextState and evaluateLockState. */
  function NextLife(t: Thresholds, l: Life, good: bool): Life {
    match l.state
    case Acquiring => l
    case Confirming =>
      var confirm := if good then l.confirmProgress + 1 else Max(0, l.confirmProgress - 1);
      var l' := l.(confirmProgress := confirm, blocksInConfirming := l.blocksInConfirming + 1);
      if confirm >= t.confirmDebounce then l'.(state := Tracking, lossProgress := 0)
      else if l'.blocksInConfirming >= t.confirmTimeout then l'.(state := Acquiring, acquired := false)
      else l'
    case Tracking =>
      var loss := if good then Max(0, l.lossProgress - 1) else l.lossProgress + 1;
      var l' := l.(lossProgress := loss);
      if loss >= t.lossDebounce then l'.(state := Acquiring, acquired := false) else l'
  }

  class Channel {
    var state: ChannelState
    var isAcquired: bool
    var confirmProgress: int
    var lossProgress: int
    var blocksInConfirming: int
    var thresholds: Thresholds

    function Fields(): Life
      reads this
    {
      Life(state, isAcquired, confirmProgress, lossProgress, blocksInConfirming)
    }

    /** The flag agrees with the state. */
    ghost predicate Valid()
      reads this
    {
      isAcquired <==> state != Acquiring
    }

    constructor ()
      ensures Valid() && state == Acquiring
    {
      state, isAcquired := Acquiring, false;
      confirmProgress, lossProgress, blocksInConfirming := 0, 0, 0;
      thresholds := Thresholds(50, 200, 200);
    }

    /** setAcquired(true) and initTracking, as finalizeAcquisition calls them. */
    method StartTracking(t: Thresholds)
      modifies this
      ensures Valid() && thresholds == t && Fields() == STARTED
    {
      isAcquired := true;
      thresholds := t;
      state := Confirming;
      confirmProgress, lossProgress, blocksInConfirming := 0, 0, 0;
    }

    /** trackBlock, for a block whose lock indicators were good or not. */
    method TrackBlock(good: bool)
      requires Valid()
      modifies this
      ensures Valid() && thresholds == old(thresholds)
      ensures Fields() == NextLife(thresholds, old(Fields()), good)
    {
      if isAcquired {
        var previous := state;
        ComputeNextState(good);
        if state == Acquiring {
          isAcquired := false;
        }
      }
    }

    method ComputeNextState(good: bool)
      requires isAcquired
      modifies this`state, this`confirmProgress, this`lossProgress, this`blocksInConfirming
      ensures Fields().(acquired := true) == NextLife(thresholds, old(Fields()), good).(acquired := true)
    {
      if state == Confirming {
        confirmProgress := if good then confirmProgress + 1 else Max(0, confirmProgress - 1);
        blocksInConfirming := blocksInConfirming + 1;
        if confirmProgress >= thresholds.confirmDebounce {
          lossProgress := 0;
          state := Tracking;
        } else if blocksInConfirming >= thresholds.confirmTimeout {
          state := Acquiring;
        }
      } else if state == Tracking {
        lossProgress := if good then Max(0, lossProgress - 1) else lossProgress + 1;
        if lossProgress >= thresholds.lossDebounce {
          state := Acquiring;
        }
      }
    }
  }

  /** The lifecycle right after an acquisition. */
  const STARTED := Life(Confirming, true, 0, 0, 0)

  // ----- what the buckets measure

  /** Blocks that are `want`, less those that are not. */
  function Net(blocks: seq<bool>, want: bool): int {
    if blocks == [] then 0 else (if blocks[0] == want then 1 else -1) + Net(blocks[1..], want)
  }

  /** The net score of the blocks from j on. */
  function Score(blocks: seq<bool>, j: int, want: bool): int
    requires 0 <= j <= |blocks|
  {
    Net(blocks[j..], want)
  }

  /** score is the largest net score of a suffix of the blocks, the empty one included. */
  ghost predicate IsBestSuffix(blocks: seq<bool>, want: bool, score: int) {
    && (exists j :: 0 <= j <= |blocks| && Score(blocks, j, want) == score)
    && (forall j | 0 <= j <= |blocks| :: Score(blocks, j, want) <= score)
  }

  /** A bucket filled by `want` blocks and leaking on the others. */
  function Bucket(blocks: seq<bool>, want: bool): int {
    if blocks == [] then 0
    else
      var before := Bucket(blocks[..|blocks| - 1], want);
      if blocks[|blocks| - 1] == want then before + 1 else Max(0, before - 1)
  }

  lemma {:induction false} NetAppend(blocks: seq<bool>, b: bool, want: bool)
    ensures Net(blocks + [b], want) == Net(blocks, want) + (if b == want then 1 else -1)
  {
    if blocks == [] {
      assert blocks + [b] == [b];
      assert Net([b], want) == (if b == want then 1 else -1) + Net([], want);
    } else {
      NetAppend(blocks[1..], b, want);
      assert (blocks + [b])[1..] == blocks[1..] + [b];
    }
  }

  lemma ScoreAppend(front: seq<bool>, b: bool, j: int, want: bool)
    requires 0 <= j <= |front|
    ensures Score(front + [b], j, want) == Score(front, j, want) + (if b == want then 1 else -1)
    ensures Score(front + [b], |front| + 1, want) == 0
  {
    NetAppend(front[j..], b, want);
    assert (front + [b])[j..] == front[j..] + [b];
  }

  lemma BestOfMore(front: seq<bool>, b: bool, want: bool, best: int)
    requires IsBestSuffix(front, want, best)
    ensures IsBestSuffix(front + [b], want, if b == want then best + 1 else Max(0, best - 1))
  {
    var n, blocks := |front|, front + [b];
    forall j | 0 <= j <= n
      ensures Score(blocks, j, want) == Score(front, j, want) + (if b == want then 1 else -1)
              && Score(blocks, n + 1, want) == 0
    {
      ScoreAppend(front, b, j, want);
    }
    assert Score(front, n, want) <= best;
    var j :| 0 <= j <= n && Score(front, j, want) == best;
    assert Score(blocks, j, want) == best + (if b == want then 1 else -1);
  }

  /** A leaky bucket holds the largest net score over all suffixes. */
  lemma {:induction false} BucketIsBestSuffix(blocks: seq<bool>, want: bool)
    ensures IsBestSuffix(blocks, want, Bucket(blocks, want))
  {
    if blocks == [] {
      assert Score(blocks, 0, want) == 0;
    } else {
      var n := |blocks| - 1;
      BucketIsBestSuffix(blocks[..n], want);
      BestOfMore(blocks[..n], blocks[n], want, Bucket(blocks[..n], want));
      assert blocks == blocks[..n] + [blocks[n]];
    }
  }

  // ----- the lifecycle over any sequence of blocks

  function Run(t: Thresholds, blocks: seq<bool>): Life {
    if blocks == [] then STARTED else NextLife(t, Run(t, blocks[..|blocks| - 1]), blocks[|blocks| - 1])
  }

  /** Some suffix of the first k blocks reaches the threshold. */
  ghost predicate Reached(blocks: seq<bool>, k: int, want: bool, threshold: int)
    requires 0 <= k <= |blocks|
  {
    exists j :: 0 <= j <= k && Score(blocks[..k], j, want) >= threshold
  }

  lemma ReachedIsBucket(blocks: seq<bool>, k: int, want: bool, threshold: int)
    requires 0 <= k <= |blocks|
    ensures Reached(blocks, k, want, threshold) <==> Bucket(blocks[..k], want) >= threshold
  {
    BucketIsBestSuffix(blocks[..k], want);
  }

  /** Blocks 1 to k neither confirmed the lock nor used up the time allowed. */
  ghost predicate Undecided(t: Thresholds, blocks: seq<bool>, k: int)
    requires 0 <= k <= |blocks|
  {
    forall i | 1 <= i <= k :: !Reached(blocks, i, true, t.confirmDebounce) && i < t.confirmTimeout
  }

  /** Block k is the first at which a suffix of good blocks reaches the confirm threshold. */
  ghost predicate ConfirmedAt(t: Thresholds, blocks: seq<bool>, k: int) {
    1 <= k <= |blocks| && Undecided(t, blocks, k - 1) && Reached(blocks, k, true, t.confirmDebounce)
  }

  /** Since block k, no suffix of bad blocks has reached the loss threshold. */
  ghost predicate KeptSince(t: Thresholds, blocks: seq<bool>, k: int)
    requires 0 <= k <= |blocks|
  {
    forall i | 1 <= i <= |blocks| - k :: !Reached(blocks[k..], i, false, t.lossDebounce)
  }

  lemma ConfirmedOnce(t: Thresholds, blocks: seq<bool>, j: int, k: int)
    requires ConfirmedAt(t, blocks, j) && ConfirmedAt(t, blocks, k)
    ensures j == k
  {
  }

  /** The lock is confirmed at some block and no later bad suffix reaches the loss threshold. */
  ghost predicate StillTracking(t: Thresholds, blocks: seq<bool>) {
    exists k :: ConfirmedAt(t, blocks, k) && KeptSince(t, blocks, k)
  }

  /** The counters and verdicts after any sequence of blocks. */
  ghost predicate RunSpec(t: Thresholds, blocks: seq<bool>, l: Life) {
    match l.state
    case Confirming =>
      && l.acquired && Undecided(t, blocks, |blocks|)
      && l.confirmProgress == Bucket(blocks, true) && l.blocksInConfirming == |blocks|
    case Tracking =>
      && l.acquired
      && exists k ::
           ConfirmedAt(t, blocks, k) && KeptSince(t, blocks, k) && l.lossProgress == Bucket(blocks[k..], false)
    case Acquiring =>
      && !l.acquired
      && !Undecided(t, blocks, |blocks|) && !StillTracking(t, blocks)
  }

  /** A verdict about fewer blocks is unchanged by more of them. */
  lemma Prefix(t: Thresholds, front: seq<bool>, b: bool, k: int)
    requires 0 <= k <= |front|
    ensures Undecided(t, front + [b], k) <==> Undecided(t, front, k)
    ensures ConfirmedAt(t, front + [b], k) <==> ConfirmedAt(t, front, k)
    ensures forall i | 0 <= i <= |front| ::
              Reached(front + [b], i, true, t.confirmDebounce) <==> Reached(front, i, true, t.confirmDebounce)
  {
    forall i | 0 <= i <= |front|
      ensures Reached(front + [b], i, true, t.confirmDebounce) <==> Reached(front, i, true, t.confirmDebounce)
    {
      assert (front + [b])[..i] == front[..i];
    }
  }

  lemma ConfirmedIsDecided(t: Thresholds, blocks: seq<bool>, k: int)
    requires ConfirmedAt(t, blocks, k)
    ensures !Undecided(t, blocks, |blocks|)
  {
    assert Reached(blocks, k, true, t.confirmDebounce);
  }

  lemma KeptPrefix(t: Thresholds, front: seq<bool>, b: bool, k: int)
    requires 0 <= k <= |front|
    ensures KeptSince(t, front + [b], k) <==>
              KeptSince(t, front, k) && Bucket((front + [b])[k..], false) < t.lossDebounce
  {
    var blocks, rest := front + [b], front[k..];
    assert blocks[k..] == rest + [b];
    forall i | 1 <= i <= |rest|
      ensures Reached(blocks[k..], i, false, t.lossDebounce) <==> Reached(rest, i, false, t.lossDebounce)
    {
      assert (rest + [b])[..i] == rest[..i];
    }
    assert blocks[k..][..|rest| + 1] == blocks[k..];
    ReachedIsBucket(blocks[k..], |rest| + 1, false, t.lossDebounce);
  }

  lemma ConfirmingStep(t: Thresholds, front: seq<bool>, b: bool, l: Life)
    requires l.state == Confirming && RunSpec(t, front, l)
    ensures RunSpec(t, front + [b], NextLife(t, l, b))
  {
    var blocks, n := front + [b], |front|;
    Prefix(t, front, b, n);
    assert blocks[..n] == front && blocks[..n + 1] == blocks;
    ReachedIsBucket(blocks, n + 1, true, t.confirmDebounce);
    forall k | ConfirmedAt(t, blocks, k) ensures k == n + 1 {
      if k <= n { Prefix(t, front, b, k - 1); }
    }
    if Bucket(blocks, true) >= t.confirmDebounce {
      assert ConfirmedAt(t, blocks, n + 1);
      assert blocks[n + 1..] == [];
    }
  }

  lemma TrackingStep(t: Thresholds, front: seq<bool>, b: bool, l: Life)
    requires l.state == Tracking && RunSpec(t, front, l)
    ensures RunSpec(t, front + [b], NextLife(t, l, b))
  {
    var blocks := front + [b];
    var k :| ConfirmedAt(t, front, k) && KeptSince(t, front, k) && l.lossProgress == Bucket(front[k..], false);
    Prefix(t, front, b, k);
    KeptPrefix(t, front, b, k);
    BucketSince(front, b, k);
    ConfirmedIsDecided(t, blocks, k);
    forall k' | ConfirmedAt(t, blocks, k') ensures k' == k {
      ConfirmedOnce(t, blocks, k', k);
    }
  }

  lemma BucketSince(front: seq<bool>, b: bool, k: nat)
    requires k <= |front|
    ensures Bucket((front + [b])[k..], false)
         == if b then Max(0, Bucket(front[k..], false) - 1) else Bucket(front[k..], false) + 1
  {
    var rest := (front + [b])[k..];
    assert rest[..|rest| - 1] == front[k..] && rest[|rest| - 1] == b;
  }

  lemma AcquiringStep(t: Thresholds, front: seq<bool>, b: bool)
    requires !Undecided(t, front, |front|) && !StillTracking(t, front)
    ensures !Undecided(t, front + [b], |front| + 1) && !StillTracking(t, front + [b])
  {
    var blocks, n := front + [b], |front|;
    Prefix(t, front, b, n);
    forall k | 0 <= k <= n
      ensures !(ConfirmedAt(t, blocks, k) && KeptSince(t, blocks, k))
    {
      Prefix(t, front, b, k);
      KeptPrefix(t, front, b, k);
    }
  }

  lemma {:induction false} RunMeetsSpec(t: Thresholds, blocks: seq<bool>)
    ensures RunSpec(t, blocks, Run(t, blocks))
  {
    if blocks != [] {
      var n := |blocks| - 1;
      var front := blocks[..n];
      assert blocks == front + [blocks[n]];
      RunMeetsSpec(t, front);
      match Run(t, front).state
      case Confirming => ConfirmingStep(t, front, blocks[n], Run(t, front));
      case Tracking => TrackingStep(t, front, blocks[n], Run(t, front));
      case Acquiring => AcquiringStep(t, front, blocks[n]);
    }
  }

  /** After any run of good and bad blocks since the acquisition, the state is decided by the best
    * suffixes alone: still confirming iff nothing has been decided; tracking iff some suffix of good
    * blocks reached its threshold in time and no suffix of bad blocks has since; acquiring otherwise.
    * The acquired flag always says the same as the state. */
  lemma Debouncing(t: Thresholds, blocks: seq<bool>)
    ensures Run(t, blocks).state == Confirming <==> Undecided(t, blocks, |blocks|)
    ensures Run(t, blocks).state == Tracking <==> StillTracking(t, blocks)
    ensures Run(t, blocks).acquired <==> Run(t, blocks).state != Acquiring
  {
    RunMeetsSpec(t, blocks);
    forall k | ConfirmedAt(t, blocks, k) ensures !Undecided(t, blocks, |blocks|) {
      ConfirmedIsDecided(t, blocks, k);
    }
  }
}
