/** The sample history of a channel: the bit-edge search that reads it
  * (Source/NavDecode/GPSOpenClNavigationDecoder.cpp) and the compaction that cuts it
  * (Source/Tracking/GPSOpenClChannel.cpp).
  */
module NavHistory {
  import opened Numbers
  import opened NavDecoding
  import opened NavBits

  // ----- the search for subframes

  /** Phase is -1 until the bit edge is known; until then each phase has a cursor of its own. */
  datatype Sync = Sync(phase: int, positions: seq<nat>, offset: nat)

  predicate IsSync(s: Sync) { -1 <= s.phase < PERIODS }

  function Zeros(n: nat): (z: seq<nat>)
    ensures |z| == n && forall i | 0 <= i < n :: z[i] == 0
  {
    seq(n, i => 0)
  }

  /** The cursors, filled in on the first call. */
  function Cursors(s: Sync): (positions: seq<nat>)
    ensures |positions| == PERIODS
  {
    if |s.positions| != PERIODS then Zeros(PERIODS) else s.positions
  }

  /** What a check finds at each phase and bit position of one history. */
  type Findings = (nat, nat) -> Attempt

  function Attempts(x: seq<real>, codes: seq<real>, read: Reader): Findings {
    (phase: nat, position: nat) => Try(x, codes, phase, position, read)
  }

  /** Tries phases p and up until one decodes; a phase with data that fails moves on one bit. */
  function Search(found: Findings, positions: seq<nat>, offset: nat, p: nat): (r: (Sync, Attempt))
    requires |positions| == PERIODS && p <= PERIODS
    ensures IsSync(r.0) && (r.0.phase < 0 ==> r.1.Rejected?)
    decreases PERIODS - p
  {
    if p == PERIODS then (Sync(-1, positions, offset), Rejected)
    else
      var attempt := found(p, positions[p]);
      if attempt.Decoded? then (Sync(p, positions, positions[p] + SUBFRAME_BITS), attempt)
      else if attempt.Rejected? then Search(found, positions[p := positions[p] + 1], offset, p + 1)
      else Search(found, positions, offset, p + 1)
  }

  /** The cursor after an attempt: on by a subframe, by a bit, or waiting. */
  function Advanced(s: Sync, result: Attempt): (Sync, Attempt) {
    if result.Decoded? then (s.(offset := s.offset + SUBFRAME_BITS), result)
    else if result.Rejected? then (s.(offset := s.offset + 1), Rejected)
    else (s, Rejected)
  }

  function ProcessSynced(found: Findings, s: Sync): (Sync, Attempt)
    requires 0 <= s.phase < PERIODS
  {
    Advanced(s, found(s.phase, s.offset))
  }

  /** One call of processPromptSignal. */
  function Process(found: Findings, s: Sync): (r: (Sync, Attempt))
    requires IsSync(s)
    ensures IsSync(r.0)
  {
    if s.phase >= 0 then ProcessSynced(found, s)
    else Search(found, Cursors(s), s.offset, 0)
  }

  method Advance(s: Sync, attempt: Attempt) returns (s': Sync, result: Attempt)
    ensures (s', result) == Advanced(s, attempt)
  {
    s', result := s, attempt;
    if attempt.Decoded? {
      s' := s.(offset := s.offset + SUBFRAME_BITS);
    } else if attempt.Rejected? {
      s' := s.(offset := s.offset + 1);
    } else {
      result := Rejected;
    }
  }

  method Attempting(decoder: NavigationDecoder, x: seq<real>, codes: seq<real>, phase: nat, position: nat)
    returns (attempt: Attempt)
    modifies decoder
    ensures attempt == Attempts(x, codes, FieldReader(decoder.searchMask))(phase, position)
  {
    attempt := decoder.TryDecodeAtBitPosition(x, codes, phase, position);
  }

  method DecodeAtPhaseOffset(decoder: NavigationDecoder, x: seq<real>, codes: seq<real>, s: Sync)
    returns (s': Sync, result: Attempt)
    requires 0 <= s.phase < PERIODS
    modifies decoder
    ensures (s', result) == ProcessSynced(Attempts(x, codes, FieldReader(decoder.searchMask)), s)
  {
    var attempt := Attempting(decoder, x, codes, s.phase, s.offset);
    s', result := Advance(s, attempt);
  }

  method ProcessPromptSignal(decoder: NavigationDecoder, x: seq<real>, codes: seq<real>, s: Sync)
    returns (s': Sync, result: Attempt)
    requires IsSync(s)
    modifies decoder
    ensures (s', result) == Process(Attempts(x, codes, FieldReader(decoder.searchMask)), s)
  {
    if s.phase >= 0 {
      s', result := DecodeAtPhaseOffset(decoder, x, codes, s);
    } else {
      var positions := s.positions;
      if |positions| != PERIODS {
        positions := Zeros(PERIODS);
      }
      ghost var found := Attempts(x, codes, FieldReader(decoder.searchMask));
      for p := 0 to PERIODS
        invariant |positions| == PERIODS
        invariant Search(found, Cursors(s), s.offset, 0) == Search(found, positions, s.offset, p)
      {
        result := Attempting(decoder, x, codes, p, positions[p]);
        if result.Decoded? {
          return Sync(p, positions, positions[p] + SUBFRAME_BITS), result;
        }
        if result.Rejected? {
          positions := positions[p := positions[p] + 1];
        }
      }
      s', result := Sync(-1, positions, s.offset), Rejected;
    }
  }

  // ----- the channel's navigation state

  datatype Nav = Nav(prompts: seq<real>, codes: seq<real>, drifts: seq<real>, lastCode: real, drift: real,
                     sync: Sync, anchor: nat, tow: nat)

  const FRESH := Nav([], [], [], 0.0, 0.0, Sync(-1, [], 0), 0, 0)
  const COMPACT_THRESHOLD: nat := 30000
  const COMPACT_MIN_DROP: nat := 10000
  const SECONDS_PER_COUNT: nat := 6

  /** The code phase change of one block, unwrapped into half a code either way. */
  function DriftDelta(code: real, last: real): real {
    Fmod(code - last + CODE_LENGTH + CODE_LENGTH / 2.0, CODE_LENGTH) - CODE_LENGTH / 2.0
  }

  /** One tracked sample. */
  function Tracked(n: Nav, prompt: real, code: real): Nav {
    var drift := if n.drifts != [] then n.drift + DriftDelta(code, n.lastCode) else n.drift;
    n.(prompts := n.prompts + [prompt], codes := n.codes + [code], drifts := n.drifts + [drift], lastCode := code,
       drift := drift)
  }

  function Smallest(s: seq<nat>): (m: nat)
    requires s != []
    ensures m in s && forall i | 0 <= i < |s| :: m <= s[i]
  {
    if |s| == 1 then s[0]
    else
      var m := Smallest(s[..|s| - 1]);
      if s[|s| - 1] < m then s[|s| - 1] else m
  }

  function WholeBits(samples: nat): nat { samples / PERIODS * PERIODS }

  /** The samples neither the decoder nor the anchor needs any more. */
  function Unneeded(n: Nav): nat
    requires IsSync(n.sync)
  {
    if n.sync.phase >= 0 then
      var anchor := Min(n.anchor, StartSample(n.sync.phase, n.sync.offset));
      var margin := n.sync.phase + 40;
      if anchor > margin then WholeBits(anchor - margin) else 0
    else if n.sync.positions != [] then
      var searched := Smallest(n.sync.positions);
      if searched > 2 then (searched - 2) * PERIODS else 0
    else 0
  }

  /** The samples one compaction drops. */
  function Dropped(n: Nav): nat
    requires IsSync(n.sync)
  {
    var drop := Unneeded(n);
    if |n.prompts| < COMPACT_THRESHOLD || drop < COMPACT_MIN_DROP || drop > |n.prompts| then 0 else drop
  }

  function Rebase(positions: seq<nat>, bits: nat): (r: seq<nat>)
    ensures |r| == |positions|
    ensures forall i | 0 <= i < |r| :: r[i] == if positions[i] > bits then positions[i] - bits else 0
  {
    seq(|positions|, i requires 0 <= i < |positions| => if positions[i] > bits then positions[i] - bits else 0)
  }

  predicate Level(n: Nav) { |n.prompts| == |n.codes| == |n.drifts| && IsSync(n.sync) }

  /** Rebasing never underflows. */
  lemma DropFits(n: Nav)
    requires IsSync(n.sync)
    ensures Dropped(n) % PERIODS == 0 && Dropped(n) <= |n.prompts|
    ensures n.sync.phase >= 0 && Dropped(n) > 0 ==>
            Dropped(n) + n.sync.phase + 40 <= n.anchor && Dropped(n) / PERIODS + 2 <= n.sync.offset
    ensures n.sync.phase < 0 && Dropped(n) > 0 ==>
            n.sync.positions != [] && Dropped(n) / PERIODS + 2 <= Smallest(n.sync.positions)
  {
  }

  function Compacted(n: Nav): (c: Nav)
    requires Level(n)
    ensures Level(c)
  {
    var drop := Dropped(n);
    DropFits(n);
    if drop == 0 then n
    else
      var cut := n.(prompts := n.prompts[drop..], codes := n.codes[drop..], drifts := n.drifts[drop..]);
      if n.sync.phase >= 0 then
        cut.(anchor := n.anchor - drop, sync := n.sync.(offset := n.sync.offset - drop / PERIODS))
      else cut.(sync := n.sync.(positions := Rebase(n.sync.positions, drop / PERIODS)))
  }

  /** One navigation update without compaction. */
  function Decoded1(n: Nav, read: Reader): (r: (Nav, Attempt))
    requires Level(n)
    ensures Level(r.0)
  {
    var (sync, result) := Process(Attempts(n.prompts, n.codes, read), n.sync);
    var m := n.(sync := sync);
    (if result.Decoded? then m.(anchor := result.start, tow := result.subframe.towCount * SECONDS_PER_COUNT)
     else m, result)
  }

  /** One navigation update as the channel does it. */
  function Updated(n: Nav, read: Reader): (r: (Nav, Attempt))
    requires Level(n)
    ensures Level(r.0)
  {
    Decoded1(Compacted(n), read)
  }

  /** The channel object whose fields these are. */
  class Channel {
    var promptHistory: seq<real>
    var codePhaseHistory: seq<real>
    var cumulativeDriftChipsHistory: seq<real>
    var lastRawCodePhaseForDrift: real
    var cumulativeDriftChips: real
    var bitSyncPhase: int
    var bitSyncSearchPositions: seq<nat>
    var navBitOffset: nat
    var lastSubframeStartSample: nat
    var lastSubframeTow: nat

    ghost function State(): Nav
      reads this
    {
      Nav(promptHistory, codePhaseHistory, cumulativeDriftChipsHistory, lastRawCodePhaseForDrift, cumulativeDriftChips,
          Sync(bitSyncPhase, bitSyncSearchPositions, navBitOffset), lastSubframeStartSample, lastSubframeTow)
    }

    constructor ()
      ensures State() == FRESH
    {
      promptHistory, codePhaseHistory, cumulativeDriftChipsHistory := [], [], [];
      lastRawCodePhaseForDrift, cumulativeDriftChips := 0.0, 0.0;
      bitSyncPhase, bitSyncSearchPositions, navBitOffset := -1, [], 0;
      lastSubframeStartSample, lastSubframeTow := 0, 0;
    }

    method ResetNavigationState()
      modifies this
      ensures State() == FRESH
    {
      promptHistory, codePhaseHistory, cumulativeDriftChipsHistory := [], [], [];
      lastRawCodePhaseForDrift, cumulativeDriftChips := 0.0, 0.0;
      bitSyncPhase, bitSyncSearchPositions, navBitOffset := -1, [], 0;
      lastSubframeStartSample, lastSubframeTow := 0, 0;
    }

    /** The history part of trackBlock while tracking. */
    method RecordBlock(prompt: real, rawCodePhase: real)
      modifies this
      ensures State() == Tracked(old(State()), prompt, rawCodePhase)
    {
      promptHistory := promptHistory + [prompt];
      codePhaseHistory := codePhaseHistory + [rawCodePhase];
      if cumulativeDriftChipsHistory != [] {
        cumulativeDriftChips := cumulativeDriftChips + DriftDelta(rawCodePhase, lastRawCodePhaseForDrift);
      }
      lastRawCodePhaseForDrift := rawCodePhase;
      cumulativeDriftChipsHistory := cumulativeDriftChipsHistory + [cumulativeDriftChips];
    }

    method SmallestPosition() returns (m: nat)
      requires bitSyncSearchPositions != []
      ensures m == Smallest(bitSyncSearchPositions)
    {
      m := bitSyncSearchPositions[0];
      for i := 0 to |bitSyncSearchPositions|
        invariant i == 0 ==> m == bitSyncSearchPositions[0]
        invariant i > 0 ==> m == Smallest(bitSyncSearchPositions[..i])
      {
        ghost var longer := bitSyncSearchPositions[..i + 1];
        assert longer[..i] == bitSyncSearchPositions[..i];
        m := if bitSyncSearchPositions[i] < m then bitSyncSearchPositions[i] else m;
      }
      assert bitSyncSearchPositions[..|bitSyncSearchPositions|] == bitSyncSearchPositions;
    }

    method UnneededSamples() returns (dropSamples: nat)
      requires Level(State())
      ensures dropSamples == Unneeded(State())
    {
      dropSamples := 0;
      if bitSyncPhase >= 0 {
        var currentReadSample := bitSyncPhase + navBitOffset * PERIODS;
        var anchorSample :=
          if lastSubframeStartSample < currentReadSample then lastSubframeStartSample else currentReadSample;
        var margin := bitSyncPhase + 40;
        if anchorSample > margin {
          dropSamples := (anchorSample - margin) / PERIODS * PERIODS;
        }
      } else if bitSyncSearchPositions != [] {
        var minSearchedBits := SmallestPosition();
        if minSearchedBits > 2 {
          dropSamples := (minSearchedBits - 2) * PERIODS;
        }
      }
    }

    method CompactNavigationHistory()
      requires Level(State())
      modifies this
      ensures State() == Compacted(old(State()))
    {
      if |promptHistory| < COMPACT_THRESHOLD {
        return;
      }
      DropFits(State());
      var dropSamples := UnneededSamples();
      if dropSamples < COMPACT_MIN_DROP || dropSamples > |promptHistory| {
        return;
      }
      promptHistory := promptHistory[dropSamples..];
      codePhaseHistory := codePhaseHistory[dropSamples..];
      cumulativeDriftChipsHistory := cumulativeDriftChipsHistory[dropSamples..];
      var dropBits := dropSamples / PERIODS;
      if bitSyncPhase >= 0 {
        lastSubframeStartSample := lastSubframeStartSample - dropSamples;
        navBitOffset := navBitOffset - dropBits;
      } else {
        RebasePositions(dropBits);
      }
    }

    method RebasePositions(dropBits: nat)
      modifies this`bitSyncSearchPositions
      ensures bitSyncSearchPositions == Rebase(old(bitSyncSearchPositions), dropBits)
    {
      ghost var before := bitSyncSearchPositions;
      for i := 0 to |bitSyncSearchPositions|
        invariant |bitSyncSearchPositions| == |before|
        invariant forall k | 0 <= k < i :: bitSyncSearchPositions[k] == Rebase(before, dropBits)[k]
        invariant forall k | i <= k < |before| :: bitSyncSearchPositions[k] == before[k]
      {
        var position := bitSyncSearchPositions[i];
        bitSyncSearchPositions := bitSyncSearchPositions[i := if position > dropBits then position - dropBits else 0];
      }
    }

    method UpdateNavigation(decoder: NavigationDecoder) returns (result: Attempt)
      requires Level(State())
      modifies this, decoder
      ensures (State(), result) == Updated(old(State()), FieldReader(decoder.searchMask))
    {
      CompactNavigationHistory();
      var sync;
      sync, result := ProcessPromptSignal(decoder, promptHistory, codePhaseHistory,
                                          Sync(bitSyncPhase, bitSyncSearchPositions, navBitOffset));
      bitSyncPhase, bitSyncSearchPositions, navBitOffset := sync.phase, sync.positions, sync.offset;
      if result.Decoded? {
        lastSubframeTow := result.subframe.towCount * SECONDS_PER_COUNT;
        lastSubframeStartSample := result.start;
      }
    }
  }

  // ----- an attempt only reads the samples around its position

  lemma {:induction false} SumShifts(x: seq<real>, drop: nat, base: nat, n: nat)
    requires drop + base + n <= |x|
    ensures SumFrom(x[drop..], base, n) == SumFrom(x, base + drop, n)
  {
    if n > 0 { SumShifts(x, drop, base, n - 1); }
  }

  lemma {:induction false} BitsShift(x: seq<real>, drop: nat, base: nat, n: nat)
    requires drop + base + PERIODS * n <= |x|
    ensures BitsFrom(x[drop..], base, n) == BitsFrom(x, base + drop, n)
  {
    if n > 0 {
      BitsShift(x, drop, base, n - 1);
      SumShifts(x, drop, base + PERIODS * (n - 1), PERIODS);
    }
  }

  lemma {:induction false} MatchShifts(x: seq<real>, bits: BitString, drop: nat, start: nat, edge: real, n: nat)
    requires |bits| == SUBFRAME_BITS && drop + start + SUBFRAME_SAMPLES <= |x| && n <= SUBFRAME_BITS
    ensures Match(x[drop..], bits, start, edge, n) == Match(x, bits, start + drop, edge, n)
  {
    if n > 0 {
      MatchShifts(x, bits, drop, start, edge, n - 1);
      var base := start + PERIODS * (n - 1);
      SumShifts(x, drop, base + 1, 19);
      assert x[drop..][base] == x[base + drop];
    }
  }

  lemma {:induction false} BestShifts(x: seq<real>, bits: BitString, drop: nat, start: nat, edge: real, limit: int)
    requires |bits| == SUBFRAME_BITS && drop <= |x| && -2 <= limit && start >= 2
    ensures BestCandidate(x[drop..], bits, start, edge, limit) == BestCandidate(x, bits, start + drop, edge, limit)
    decreases limit + 2
  {
    if limit > -2 {
      var c := limit - 1;
      BestShifts(x, bits, drop, start, edge, c);
      MetricShifts(x, bits, drop, start, edge, c);
      var before := BestCandidate(x[drop..], bits, start, edge, c);
      if before.Some? {
        MetricShifts(x, bits, drop, start, edge, before.value);
      }
    }
  }

  lemma MetricShifts(x: seq<real>, bits: BitString, drop: nat, start: nat, edge: real, c: int)
    requires |bits| == SUBFRAME_BITS && drop <= |x| && -2 <= c && start >= 2
    ensures Eligible(|x[drop..]|, start, c) <==> Eligible(|x|, start + drop, c)
    ensures Eligible(|x|, start + drop, c) ==>
            Metric(x[drop..], bits, start, edge, c) == Metric(x, bits, start + drop, edge, c)
  {
    if Eligible(|x|, start + drop, c) {
      MatchShifts(x, bits, drop, start + c, edge, SUBFRAME_BITS);
      assert start + drop + c == (start + c) + drop;
    }
  }

  /** The same finding, at a start sample drop later. */
  predicate SameFinding(full: Attempt, cut: Attempt, drop: nat) {
    && (full.Decoded? <==> cut.Decoded?) && (full.Rejected? <==> cut.Rejected?)
    && (full.Decoded? ==> full.words == cut.words && full.subframe == cut.subframe && full.start == cut.start + drop)
  }

  /** With both feedback bits still in the history, an attempt does not see what was cut before them. */
  lemma TryShifts(x: seq<real>, codes: seq<real>, bits: nat, phase: nat, position: nat, read: Reader, x': seq<real>,
                  codes': seq<real>)
    requires |codes| == |x| && PERIODS * bits <= |x| && (position >= 2 || bits == 0)
    requires x' == x[PERIODS * bits..] && codes' == codes[PERIODS * bits..]
    ensures SameFinding(Try(x, codes, phase, position + bits, read), Try(x', codes', phase, position, read),
                        PERIODS * bits)
  {
    var drop := PERIODS * bits;
    if bits == 0 {
      assert x' == x && codes' == codes;
    } else {
      ShiftedStart(phase, position, bits);
      var start := StartSample(phase, position);
      if start + drop + SUBFRAME_SAMPLES <= |x| {
        ReadsShift(x, drop, start, position, bits, x');
        StartShifts(x, codes, drop, start, BitsFrom(x, start + drop, SUBFRAME_BITS), x', codes');
      }
    }
  }

  lemma ReadsShift(x: seq<real>, drop: nat, start: nat, position: nat, bits: nat, x': seq<real>)
    requires drop == PERIODS * bits && position >= 2 && start >= PERIODS * position
    requires start + drop + SUBFRAME_SAMPLES <= |x| && x' == x[drop..]
    ensures BitsFrom(x', start, SUBFRAME_BITS) == BitsFrom(x, start + drop, SUBFRAME_BITS)
    ensures PriorBits(x', start, position) == PriorBits(x, start + drop, position + bits)
  {
    BitsShift(x, drop, start, SUBFRAME_BITS);
    PriorShifts(x, drop, start, position, bits, x');
  }

  lemma PriorShifts(x: seq<real>, drop: nat, start: nat, position: nat, bits: nat, x': seq<real>)
    requires position >= 2 && start >= PERIODS * position && drop + start <= |x| && x' == x[drop..]
    requires drop == PERIODS * bits
    ensures PriorBits(x', start, position) == PriorBits(x, start + drop, position + bits)
  {
    var base := start - 2 * PERIODS;
    BitsShift(x, drop, base, 2);
    PriorAt(x', start, position, base);
    PriorAt(x, start + drop, position + bits, base + drop);
  }

  lemma PriorAt(x: seq<real>, start: nat, position: nat, base: nat)
    requires start <= |x| && start >= PERIODS * position && position >= 2 && base == start - 2 * PERIODS
    ensures PriorBits(x, start, position) == BitsFrom(x, base, 2)
  {
  }

  lemma StartShifts(x: seq<real>, codes: seq<real>, drop: nat, start: nat, b: BitString, x': seq<real>,
                    codes': seq<real>)
    requires |codes| == |x| && |b| == SUBFRAME_BITS && start >= 2
    requires start + drop + SUBFRAME_SAMPLES <= |x| && x' == x[drop..] && codes' == codes[drop..]
    ensures RefinedStart(x, b, start + drop, EdgeFraction(codes, start + drop))
            == RefinedStart(x', b, start, EdgeFraction(codes', start)) + drop
  {
    var edge := EdgeFraction(codes, start + drop);
    assert edge == EdgeFraction(codes', start);
    BestShifts(x, b, drop, start, edge, 3);
  }

  lemma ShiftedStart(phase: nat, position: nat, bits: nat)
    ensures StartSample(phase, position + bits) == StartSample(phase, position) + PERIODS * bits
  {
  }

  // ----- so compaction is invisible

  /** What one history shows, the other shows bits positions later. */
  ghost predicate Shows(full: Findings, cut: Findings, bits: nat) {
    forall p: nat, k: nat :: ShowsAt(full, cut, bits, p, k)
  }

  ghost predicate ShowsAt(full: Findings, cut: Findings, bits: nat, p: nat, k: nat) {
    k >= 2 || bits == 0 ==> SameFinding(full(p, k + bits), cut(p, k), PERIODS * bits)
  }

  lemma AttemptAt(x: seq<real>, codes: seq<real>, read: Reader, p: nat, k: nat)
    ensures Attempts(x, codes, read)(p, k) == Try(x, codes, p, k, read)
  {
  }

  lemma TriedShifts(x: seq<real>, codes: seq<real>, bits: nat, p: nat, k: nat, read: Reader, x': seq<real>,
                    codes': seq<real>, a: Attempt, b: Attempt)
    requires |codes| == |x| && PERIODS * bits <= |x| && x' == x[PERIODS * bits..] && codes' == codes[PERIODS * bits..]
    requires k >= 2 || bits == 0
    requires a == Try(x, codes, p, k + bits, read) && b == Try(x', codes', p, k, read)
    ensures SameFinding(a, b, PERIODS * bits)
  {
    TryShifts(x, codes, bits, p, k, read, x', codes');
  }

  lemma AttemptsShift(x: seq<real>, codes: seq<real>, bits: nat, read: Reader, x': seq<real>, codes': seq<real>)
    requires |codes| == |x| && PERIODS * bits <= |x| && x' == x[PERIODS * bits..] && codes' == codes[PERIODS * bits..]
    ensures Shows(Attempts(x, codes, read), Attempts(x', codes', read), bits)
  {
    forall p: nat, k: nat ensures ShowsAt(Attempts(x, codes, read), Attempts(x', codes', read), bits, p, k) {
      AttemptShifts(x, codes, bits, p, k, read, x', codes');
    }
  }

  lemma AttemptShifts(x: seq<real>, codes: seq<real>, bits: nat, p: nat, k: nat, read: Reader, x': seq<real>,
                      codes': seq<real>)
    requires |codes| == |x| && PERIODS * bits <= |x| && x' == x[PERIODS * bits..] && codes' == codes[PERIODS * bits..]
    ensures ShowsAt(Attempts(x, codes, read), Attempts(x', codes', read), bits, p, k)
  {
    if k >= 2 || bits == 0 {
      AttemptAt(x, codes, read, p, k + bits);
      AttemptAt(x', codes', read, p, k);
      TriedShifts(x, codes, bits, p, k, read, x', codes', Attempts(x, codes, read)(p, k + bits),
                  Attempts(x', codes', read)(p, k));
    }
  }

  ghost predicate Ahead(full: seq<nat>, cut: seq<nat>, bits: nat) {
    && |full| == |cut|
    && (forall i | 0 <= i < |cut| :: full[i] == cut[i] + bits)
    && (bits > 0 ==> |cut| == PERIODS && forall i | 0 <= i < |cut| :: cut[i] >= 2)
  }

  /** Synced state with its cursor bits positions ahead, or searching state with every cursor so. */
  ghost predicate SyncAhead(full: Sync, cut: Sync, bits: nat) {
    && full.phase == cut.phase
    && if cut.phase < 0 then Ahead(full.positions, cut.positions, bits) && full.offset == cut.offset
       else full.offset == cut.offset + bits && (bits > 0 ==> cut.offset >= 2)
  }

  lemma {:induction false} SearchShifts(f: Findings, g: Findings, bits: nat, full: seq<nat>, cut: seq<nat>,
                                        offset: nat, p: nat)
    requires Shows(f, g, bits) && Ahead(full, cut, bits) && |cut| == PERIODS && p <= PERIODS
    ensures var a, b := Search(f, full, offset, p), Search(g, cut, offset, p);
            SameFinding(a.1, b.1, PERIODS * bits) && SyncAhead(a.0, b.0, bits) && (b.0.phase >= 0 ==> b.1.Decoded?)
    decreases PERIODS - p
  {
    if p < PERIODS {
      assert full[p] == cut[p] + bits;
      assert ShowsAt(f, g, bits, p, cut[p]);
      if g(p, cut[p]).Rejected? {
        SearchShifts(f, g, bits, full[p := full[p] + 1], cut[p := cut[p] + 1], offset, p + 1);
      } else if g(p, cut[p]).NotEnoughData? {
        SearchShifts(f, g, bits, full, cut, offset, p + 1);
      }
    }
  }

  lemma ProcessShifts(f: Findings, g: Findings, bits: nat, full: Sync, cut: Sync)
    requires Shows(f, g, bits) && IsSync(full) && IsSync(cut) && SyncAhead(full, cut, bits)
    ensures var a, b := Process(f, full), Process(g, cut);
            SameFinding(a.1, b.1, PERIODS * bits) && SyncAhead(a.0, b.0, bits)
            && (cut.phase < 0 && b.0.phase >= 0 ==> b.1.Decoded?) && (b.0.phase < 0 ==> b.1.Rejected?)
  {
    if cut.phase >= 0 {
      assert ShowsAt(f, g, bits, cut.phase, cut.offset);
    } else {
      SearchShifts(f, g, bits, Cursors(full), Cursors(cut), cut.offset, 0);
    }
  }

  /** The three histories agree after the cut, and so does all that was computed from them. */
  ghost predicate CutAt(full: Nav, c: Nav, drop: nat) {
    && Level(full) && Level(c) && drop <= |full.prompts|
    && c.prompts == full.prompts[drop..] && c.codes == full.codes[drop..] && c.drifts == full.drifts[drop..]
    && (c.drifts == [] ==> full.drifts == [])
    && full.lastCode == c.lastCode && full.drift == c.drift && full.tow == c.tow
    && full.anchor == if c.sync.phase < 0 then c.anchor else c.anchor + drop
  }

  /** c is full with its first 20 * bits samples cut off, cursors and anchor rebased. */
  ghost predicate Rebased(full: Nav, c: Nav, bits: nat) {
    CutAt(full, c, PERIODS * bits) && SyncAhead(full.sync, c.sync, bits)
  }

  /** An update without compaction keeps the two histories in step and finds the same. */
  lemma DecodeShifts(full: Nav, c: Nav, bits: nat, read: Reader)
    requires Rebased(full, c, bits)
    ensures var f, g := Decoded1(full, read), Decoded1(c, read);
            Rebased(f.0, g.0, bits) && SameFinding(f.1, g.1, PERIODS * bits)
  {
    AttemptsShift(full.prompts, full.codes, bits, read, c.prompts, c.codes);
    ProcessShifts(Attempts(full.prompts, full.codes, read), Attempts(c.prompts, c.codes, read), bits, full.sync,
                  c.sync);
  }

  lemma TrackShifts(full: Nav, c: Nav, bits: nat, prompt: real, code: real)
    requires Rebased(full, c, bits)
    ensures Rebased(Tracked(full, prompt, code), Tracked(c, prompt, code), bits)
  {
    var drop := PERIODS * bits;
    AppendAfterCut(full.prompts, drop, prompt);
    AppendAfterCut(full.codes, drop, code);
    AppendAfterCut(full.drifts, drop, Tracked(full, prompt, code).drift);
  }

  lemma AppendAfterCut(s: seq<real>, drop: nat, v: real)
    requires drop <= |s|
    ensures (s + [v])[drop..] == s[drop..] + [v]
  {
  }

  // ----- the read cursor

  /** No cursor passes the end of the history. */
  predicate Within(n: Nav) {
    && Level(n) && (|n.sync.positions| == 0 || |n.sync.positions| == PERIODS)
    && SyncWithin(n.sync, |n.prompts|)
  }

  predicate SyncWithin(s: Sync, size: nat) {
    if s.phase >= 0 then StartSample(s.phase, s.offset) <= size
    else forall i | 0 <= i < |s.positions| :: s.positions[i] > 0 ==> StartSample(i, s.positions[i]) <= size
  }

  /** Nothing is found where the history ends too early. */
  ghost predicate Bounded(found: Findings, size: nat) {
    forall p: nat, k: nat :: found(p, k).NotEnoughData? <==> StartSample(p, k) + SUBFRAME_SAMPLES > size
  }

  lemma AttemptsBounded(x: seq<real>, codes: seq<real>, read: Reader)
    ensures Bounded(Attempts(x, codes, read), |x|)
  {
  }

  lemma {:induction false} SearchStaysWithin(found: Findings, positions: seq<nat>, offset: nat, size: nat, p: nat)
    requires Bounded(found, size) && |positions| == PERIODS && p <= PERIODS
             && SyncWithin(Sync(-1, positions, offset), size)
    ensures var r := Search(found, positions, offset, p); SyncWithin(r.0, size) && |r.0.positions| == PERIODS
    decreases PERIODS - p
  {
    if p < PERIODS {
      var attempt := found(p, positions[p]);
      if attempt.Rejected? {
        SearchStaysWithin(found, positions[p := positions[p] + 1], offset, size, p + 1);
      } else if attempt.NotEnoughData? {
        SearchStaysWithin(found, positions, offset, size, p + 1);
      }
    }
  }

  /** The read cursors never pass the end of the history. */
  lemma UpdateStaysWithin(n: Nav, read: Reader)
    requires Within(n)
    ensures Within(Decoded1(n, read).0)
  {
    AttemptsBounded(n.prompts, n.codes, read);
    var found := Attempts(n.prompts, n.codes, read);
    if n.sync.phase < 0 {
      SearchStaysWithin(found, Cursors(n.sync), n.sync.offset, |n.prompts|, 0);
    } else {
      assert found(n.sync.phase, n.sync.offset).NotEnoughData?
             <==> StartSample(n.sync.phase, n.sync.offset) + SUBFRAME_SAMPLES > |n.prompts|;
    }
  }

  lemma CompactionStaysWithin(n: Nav)
    requires Within(n)
    ensures Within(Compacted(n)) && (Dropped(n) > 0 ==> Dropped(n) < |n.prompts|)
  {
    DropFits(n);
    var drop := Dropped(n);
    if drop > 0 && n.sync.phase < 0 {
      var s := n.sync.positions;
      forall i | 0 <= i < |s|
        ensures s[i] > drop / PERIODS && StartSample(i, s[i] - drop / PERIODS) <= |n.prompts| - drop
                && drop < |n.prompts|
      {
        assert Smallest(s) <= s[i];
      }
      assert s[0] > drop / PERIODS;
    }
  }

  /** Compaction only moves the channel further from the full history. */
  lemma CompactionRebases(full: Nav, c: Nav, bits: nat)
    requires Rebased(full, c, bits) && Within(c)
    ensures Rebased(full, Compacted(c), bits + Dropped(c) / PERIODS)
  {
    var drop := Dropped(c);
    DropFits(c);
    CompactionStaysWithin(c);
    if drop > 0 {
      var more := drop / PERIODS;
      assert PERIODS * (bits + more) == PERIODS * bits + drop;
      CutTwice(full.prompts, PERIODS * bits, drop);
      CutTwice(full.codes, PERIODS * bits, drop);
      CutTwice(full.drifts, PERIODS * bits, drop);
      SyncCompacted(full.sync, c, bits);
      assert CutAt(full, Compacted(c), PERIODS * (bits + more));
    }
  }

  lemma SyncCompacted(full: Sync, c: Nav, bits: nat)
    requires Level(c) && SyncAhead(full, c.sync, bits) && Within(c) && Dropped(c) > 0
    ensures SyncAhead(full, Compacted(c).sync, bits + Dropped(c) / PERIODS)
  {
    DropFits(c);
    if c.sync.phase < 0 {
      CompactedCursors(full.positions, c.sync.positions, bits, Dropped(c) / PERIODS);
    }
  }

  lemma CutTwice(s: seq<real>, a: nat, b: nat)
    requires a + b <= |s|
    ensures s[a..][b..] == s[a + b..]
  {
  }

  lemma CompactedCursors(full: seq<nat>, cut: seq<nat>, bits: nat, more: nat)
    requires Ahead(full, cut, bits) && cut != [] && more > 0 && more + 2 <= Smallest(cut) && |cut| == PERIODS
    ensures Ahead(full, Rebase(cut, more), bits + more)
  {
  }

  // ----- whole runs

  datatype Event = Block(prompt: real, code: real) | Update | Reset

  /** What the rest of the receiver learns from an update, in samples back from the newest. */
  datatype Report = Nothing | Found(words: seq<nat>, subframe: Subframe, age: int, codeAtStart: real)

  function At(s: seq<real>, i: nat): real { if i < |s| then s[i] else 0.0 }

  function ReportOf(n: Nav, r: Attempt): Report {
    if r.Decoded? then Found(r.words, r.subframe, |n.prompts| - r.start, At(n.codes, r.start)) else Nothing
  }

  /** A step of a channel, compacting or not. */
  function Step(n: Nav, e: Event, compacts: bool, read: Reader): (r: (Nav, Report))
    requires Level(n)
    ensures Level(r.0)
  {
    match e
    case Block(prompt, code) => (Tracked(n, prompt, code), Nothing)
    case Reset => (FRESH, Nothing)
    case Update =>
      var (m, attempt) := if compacts then Updated(n, read) else Decoded1(n, read);
      (m, ReportOf(m, attempt))
  }

  function Run(events: seq<Event>, compacts: bool, read: Reader): (r: (Nav, seq<Report>))
    ensures Level(r.0)
  {
    if events == [] then (FRESH, [])
    else
      var (n, reports) := Run(events[..|events| - 1], compacts, read);
      var (m, report) := Step(n, events[|events| - 1], compacts, read);
      (m, reports + [report])
  }

  /** What the measurement of a synced channel reads: time of week, samples and drift since the anchor, code
    * phase there. */
  datatype Reading = Reading(phase: int, tow: nat, samplesSince: int, codeAtAnchor: real, driftSince: real)

  function ReadingOf(n: Nav): Reading {
    Reading(n.sync.phase, n.tow, |n.prompts| - n.anchor, At(n.codes, n.anchor), n.drift - At(n.drifts, n.anchor))
  }

  lemma SameReading(full: Nav, c: Nav, bits: nat)
    requires Rebased(full, c, bits) && c.sync.phase >= 0
    ensures ReadingOf(full) == ReadingOf(c)
  {
  }

  lemma StepsAgree(full: Nav, c: Nav, bits: nat, e: Event, read: Reader) returns (more: nat)
    requires Rebased(full, c, bits) && Within(c)
    ensures var f, g := Step(full, e, false, read), Step(c, e, true, read);
            Rebased(f.0, g.0, more) && Within(g.0) && f.1 == g.1
  {
    match e
    case Block(prompt, code) =>
      more := bits;
      TrackShifts(full, c, bits, prompt, code);
    case Reset =>
      more := 0;
    case Update =>
      more := bits + Dropped(c) / PERIODS;
      CompactionRebases(full, c, bits);
      CompactionStaysWithin(c);
      UpdateStaysWithin(Compacted(c), read);
      DecodeShifts(full, Compacted(c), more, read);
      SameReport(Decoded1(full, read), Decoded1(Compacted(c), read), more);
  }

  lemma SameReport(f: (Nav, Attempt), g: (Nav, Attempt), bits: nat)
    requires Rebased(f.0, g.0, bits) && SameFinding(f.1, g.1, PERIODS * bits)
    ensures ReportOf(f.0, f.1) == ReportOf(g.0, g.1)
  {
  }

  ghost predicate InStep(full: Nav, c: Nav) { Within(c) && exists bits: nat :: Rebased(full, c, bits) }

  /** A channel that compacts and one that keeps everything report the same, after any events. */
  lemma {:induction false} CompactionIsInvisible(events: seq<Event>, read: Reader)
    ensures Run(events, false, read).1 == Run(events, true, read).1
    ensures InStep(Run(events, false, read).0, Run(events, true, read).0)
    ensures Run(events, true, read).0.sync.phase == Run(events, false, read).0.sync.phase
    ensures Run(events, true, read).0.sync.phase >= 0 ==>
              ReadingOf(Run(events, true, read).0) == ReadingOf(Run(events, false, read).0)
  {
    if events == [] {
      assert Rebased(FRESH, FRESH, 0);
    } else {
      var init, last := events[..|events| - 1], events[|events| - 1];
      CompactionIsInvisible(init, read);
      var full, c := Run(init, false, read).0, Run(init, true, read).0;
      var bits: nat :| Rebased(full, c, bits);
      var more := StepsAgree(full, c, bits, last, read);
      var f, g := Step(full, last, false, read).0, Step(c, last, true, read).0;
      assert Rebased(f, g, more);
      if g.sync.phase >= 0 {
        SameReading(f, g, more);
      }
    }
  }

  // ----- one update per sample

  /** Samples tracked and updated one at a time. */
  function Paired(samples: seq<(real, real)>): (events: seq<Event>) {
    if samples == [] then [] else
      Paired(samples[..|samples| - 1]) + [Block(samples[|samples| - 1].0, samples[|samples| - 1].1), Update]
  }

  /** The state after tracking and updating each sample. */
  function Lockstep(samples: seq<(real, real)>, compacts: bool, read: Reader): (n: Nav)
    ensures Level(n)
  {
    if samples == [] then FRESH
    else
      var (prompt, code) := samples[|samples| - 1];
      var before := Tracked(Lockstep(samples[..|samples| - 1], compacts, read), prompt, code);
      if compacts then Updated(before, read).0 else Decoded1(before, read).0
  }

  lemma {:induction false} LockstepIsRun(samples: seq<(real, real)>, compacts: bool, read: Reader)
    ensures Run(Paired(samples), compacts, read).0 == Lockstep(samples, compacts, read)
  {
    if samples != [] {
      var init := samples[..|samples| - 1];
      LockstepIsRun(init, compacts, read);
      var events := Paired(samples);
      var one := events[..|events| - 1];
      assert one[..|one| - 1] == Paired(init);
    }
  }

  /** The bits at phase p whose 6000 samples lie within the first n. */
  function Due(n: nat, p: nat): nat { if n < SUBFRAME_SAMPLES + p then 0 else (n - SUBFRAME_SAMPLES - p) / PERIODS + 1 }

  /** Exactly one phase has a new bit with each sample. */
  lemma OneIsDue(n: nat, p: nat)
    requires n > 0 && p < PERIODS
    ensures StartSample(p, Due(n - 1, p)) + SUBFRAME_SAMPLES <= n
       <==> n >= SUBFRAME_SAMPLES && p == (n - SUBFRAME_SAMPLES) % PERIODS
    ensures n >= SUBFRAME_SAMPLES && p == (n - SUBFRAME_SAMPLES) % PERIODS ==>
            Due(n - 1, p) == (n - SUBFRAME_SAMPLES) / PERIODS
    ensures Due(n, p) == Due(n - 1, p) + if n >= SUBFRAME_SAMPLES && p == (n - SUBFRAME_SAMPLES) % PERIODS then 1 else 0
  {
    if n >= SUBFRAME_SAMPLES {
      var q, k := (n - SUBFRAME_SAMPLES) % PERIODS, (n - SUBFRAME_SAMPLES) / PERIODS;
      assert n - SUBFRAME_SAMPLES == PERIODS * k + q;
    }
  }

  ghost predicate AllDue(positions: seq<nat>, n: nat) {
    |positions| == PERIODS && forall p | 0 <= p < PERIODS :: positions[p] == Due(n, p)
  }

  /** Phase and bit position of the newest possible start. */
  function NewestPhase(n: nat): nat
    requires n >= SUBFRAME_SAMPLES
  {
    (n - SUBFRAME_SAMPLES) % PERIODS
  }

  function NewestBit(n: nat): nat
    requires n >= SUBFRAME_SAMPLES
  {
    (n - SUBFRAME_SAMPLES) / PERIODS
  }

  /** A check of one start sample, and what it found. */
  datatype Check = Check(start: nat, decoded: bool)

  function ChecksOf(found: Findings, p: nat, k: nat): seq<Check> {
    var attempt := found(p, k);
    if attempt.NotEnoughData? then [] else [Check(StartSample(p, k), attempt.Decoded?)]
  }

  function SearchChecks(found: Findings, positions: seq<nat>, p: nat): seq<Check>
    requires |positions| == PERIODS && p <= PERIODS
    decreases PERIODS - p
  {
    if p == PERIODS then []
    else
      ChecksOf(found, p, positions[p])
      + if found(p, positions[p]).Decoded? then [] else SearchChecks(found, positions, p + 1)
  }

  /** The starts one call checks with all their samples present. */
  function CallChecks(found: Findings, s: Sync): seq<Check>
    requires IsSync(s)
  {
    if s.phase >= 0 then ChecksOf(found, s.phase, s.offset) else SearchChecks(found, Cursors(s), 0)
  }

  /** While searching, a call checks exactly the newest start, at its one phase. */
  lemma {:induction false} SearchFindsDue(found: Findings, positions: seq<nat>, offset: nat, n: nat, p: nat)
    requires n > 0 && Bounded(found, n) && p <= PERIODS && AllDue(positions, n - 1)
    ensures var r, checks := Search(found, positions, offset, p), SearchChecks(found, positions, p);
            if n < SUBFRAME_SAMPLES || NewestPhase(n) < p then
              r == (Sync(-1, positions, offset), Rejected) && checks == []
            else
              var q, k := NewestPhase(n), NewestBit(n);
              && checks == [Check(n - SUBFRAME_SAMPLES, found(q, k).Decoded?)]
              && r == if found(q, k).Decoded? then (Sync(q, positions, k + SUBFRAME_BITS), found(q, k))
                      else (Sync(-1, positions[q := k + 1], offset), Rejected)
    decreases PERIODS - p
  {
    if p < PERIODS {
      OneIsDue(n, p);
      assert found(p, positions[p]).NotEnoughData? <==> StartSample(p, positions[p]) + SUBFRAME_SAMPLES > n;
      if found(p, positions[p]).NotEnoughData? {
        SearchFindsDue(found, positions, offset, n, p + 1);
      } else {
        if found(p, positions[p]).Rejected? {
          SearchPassesOver(found, positions, offset, n, p);
        }
      }
    }
  }

  /** After the one due phase, the others have nothing new. */
  lemma SearchPassesOver(found: Findings, positions: seq<nat>, offset: nat, n: nat, q: nat)
    requires n >= SUBFRAME_SAMPLES && Bounded(found, n) && q == NewestPhase(n) && AllDue(positions, n - 1)
    ensures Search(found, positions[q := positions[q] + 1], offset, q + 1)
            == (Sync(-1, positions[q := positions[q] + 1], offset), Rejected)
    ensures SearchChecks(found, positions, q + 1) == []
  {
    NothingDue(found, positions[q := positions[q] + 1], offset, n, q + 1);
    NothingDue(found, positions, offset, n, q + 1);
  }

  lemma {:induction false} NothingDue(found: Findings, positions: seq<nat>, offset: nat, n: nat, p: nat)
    requires n >= SUBFRAME_SAMPLES && Bounded(found, n) && NewestPhase(n) < p <= PERIODS && |positions| == PERIODS
    requires forall i | p <= i < PERIODS :: positions[i] == Due(n - 1, i)
    ensures Search(found, positions, offset, p) == (Sync(-1, positions, offset), Rejected)
            && SearchChecks(found, positions, p) == []
    decreases PERIODS - p
  {
    if p < PERIODS {
      OneIsDue(n, p);
      assert found(p, positions[p]).NotEnoughData? <==> StartSample(p, positions[p]) + SUBFRAME_SAMPLES > n;
      NothingDue(found, positions, offset, n, p + 1);
    }
  }

  /** The starts an update without compaction checks. */
  function UpdateChecks(n: Nav, read: Reader): seq<Check>
    requires Level(n)
  {
    CallChecks(Attempts(n.prompts, n.codes, read), n.sync)
  }

  /** The checks of every call of a lockstep run that keeps its history. */
  function UncutChecks(samples: seq<(real, real)>, read: Reader): seq<Check> {
    if samples == [] then []
    else
      UncutChecks(samples[..|samples| - 1], read) + UpdateChecks(BeforeUpdate(samples, read), read)
  }

  /** The uncompacted state the last update of a run starts from. */
  function BeforeUpdate(samples: seq<(real, real)>, read: Reader): (n: Nav)
    requires samples != []
    ensures Level(n)
  {
    var (prompt, code) := samples[|samples| - 1];
    Tracked(Lockstep(samples[..|samples| - 1], false, read), prompt, code)
  }

  /** The cursor of a locked channel waits for its 6000 samples. */
  predicate Waiting(s: Sync, n: nat) {
    0 <= s.phase < PERIODS && StartSample(s.phase, s.offset) <= n < StartSample(s.phase, s.offset) + SUBFRAME_SAMPLES
  }

  ghost predicate Covered(checks: seq<Check>, s: nat) {
    exists i :: 0 <= i < |checks| && Covers(checks[i], s)
  }

  predicate Covers(c: Check, s: nat) { c.start == s || (c.decoded && c.start < s < c.start + SUBFRAME_SAMPLES) }

  ghost predicate AllFailed(checks: seq<Check>, k: nat) {
    k <= |checks| && forall i | 0 <= i < k :: checks[i] == Check(i, false)
  }

  /** Until lock, every start sample was checked, in order, and failed. */
  ghost predicate SearchedAll(s: Sync, checks: seq<Check>, n: nat) {
    && s.phase == -1 && AllDue(Cursors(s), n)
    && |checks| == (if n < SUBFRAME_SAMPLES then 0 else n - SUBFRAME_SAMPLES + 1)
    && AllFailed(checks, |checks|)
  }

  /** After it, everything before the cursor on the locked phase was checked or lies inside a decoded subframe. */
  ghost predicate LockedAll(s: Sync, checks: seq<Check>, n: nat) {
    && Waiting(s, n)
    && (exists first :: FirstDecoded(checks, first, s.phase))
    && (forall t: nat | t < StartSample(s.phase, s.offset) && t % PERIODS == s.phase :: Covered(checks, t))
  }

  /** Searching or locked, nothing was passed over. */
  ghost predicate AllCovered(s: Sync, checks: seq<Check>, n: nat) {
    SearchedAll(s, checks, n) || LockedAll(s, checks, n)
  }

  /** Start sample first is where the run locked: the first check that decoded. */
  ghost predicate FirstDecoded(checks: seq<Check>, first: nat, phase: int) {
    && first < |checks| && AllFailed(checks, first) && checks[first] == Check(first, true) && first % PERIODS == phase
    && forall i | first <= i < |checks| :: checks[i].start % PERIODS == phase
  }

  /** Every check is made by the first call that has its 6000 samples. */
  ghost predicate Newest(checks: seq<Check>, n: nat) {
    |checks| <= 1 && forall i | 0 <= i < |checks| :: checks[i].start + SUBFRAME_SAMPLES == n
  }

  lemma {:induction false} LockstepSize(samples: seq<(real, real)>, read: Reader)
    ensures |Lockstep(samples, false, read).prompts| == |samples|
  {
    if samples != [] { LockstepSize(samples[..|samples| - 1], read); }
  }

  lemma CoveredStays(checks: seq<Check>, more: seq<Check>, t: nat)
    requires Covered(checks, t)
    ensures Covered(checks + more, t)
  {
    var i :| 0 <= i < |checks| && Covers(checks[i], t);
    assert Covers((checks + more)[i], t);
  }

  lemma CoveredByLast(checks: seq<Check>, last: Check, t: nat)
    requires Covers(last, t)
    ensures Covered(checks + [last], t)
  {
    assert Covers((checks + [last])[|checks|], t);
  }

  /** One call while searching. */
  lemma SearchingStep(found: Findings, s: Sync, checks: seq<Check>, n: nat)
    requires n > 0 && Bounded(found, n) && SearchedAll(s, checks, n - 1)
    ensures var r, added := Process(found, s).0, CallChecks(found, s);
            && Newest(added, n) && (added == [] <==> n < SUBFRAME_SAMPLES)
            && (SearchedAll(r, checks + added, n) || LockedAll(r, checks + added, n))
            && (r.phase >= 0 <==> n >= SUBFRAME_SAMPLES && found(NewestPhase(n), NewestBit(n)).Decoded?)
  {
    SearchFindsDue(found, Cursors(s), s.offset, n, 0);
    var r, added := Process(found, s).0, CallChecks(found, s);
    if r.phase < 0 {
      Misses(checks, added, Cursors(s), r, n);
    } else {
      Locks(checks, added[0], r, n);
    }
  }

  lemma Misses(checks: seq<Check>, added: seq<Check>, before: seq<nat>, r: Sync, n: nat)
    requires n > 0 && r.phase == -1 && |r.positions| == PERIODS && AllDue(before, n - 1) && AllFailed(checks, |checks|)
    requires |checks| == if n - 1 < SUBFRAME_SAMPLES then 0 else n - SUBFRAME_SAMPLES
    requires added == if n < SUBFRAME_SAMPLES then [] else [Check(n - SUBFRAME_SAMPLES, false)]
    requires r.positions == if n < SUBFRAME_SAMPLES then before else before[NewestPhase(n) := NewestBit(n) + 1]
    ensures SearchedAll(r, checks + added, n)
  {
    NextDue(before, r.positions, n);
  }

  lemma NextDue(before: seq<nat>, after: seq<nat>, n: nat)
    requires n > 0 && AllDue(before, n - 1)
    requires after == if n < SUBFRAME_SAMPLES then before else before[NewestPhase(n) := NewestBit(n) + 1]
    ensures AllDue(after, n)
  {
    forall p | 0 <= p < PERIODS ensures after[p] == Due(n, p) {
      OneIsDue(n, p);
    }
  }

  lemma Locks(checks: seq<Check>, last: Check, r: Sync, n: nat)
    requires n >= SUBFRAME_SAMPLES && |checks| == n - SUBFRAME_SAMPLES && AllFailed(checks, |checks|)
    requires last == Check(n - SUBFRAME_SAMPLES, true) && r.phase == NewestPhase(n)
             && r.offset == NewestBit(n) + SUBFRAME_BITS
    ensures LockedAll(r, checks + [last], n)
  {
    var all := checks + [last];
    assert StartSample(r.phase, r.offset) == n;
    assert FirstDecoded(all, |checks|, r.phase);
    forall t: nat | t < n && t % PERIODS == r.phase ensures Covered(all, t) {
      if t < |checks| {
        assert Covers(checks[t], t);
        CoveredStays(checks, [last], t);
      } else {
        CoveredByLast(checks, last, t);
      }
    }
  }

  /** One call while locked. */
  lemma LockedStep(found: Findings, s: Sync, checks: seq<Check>, n: nat)
    requires n > 0 && Bounded(found, n) && LockedAll(s, checks, n - 1)
    ensures var r, added := Process(found, s).0, CallChecks(found, s);
            && Newest(added, n) && (added == [] <==> StartSample(s.phase, s.offset) + SUBFRAME_SAMPLES > n)
            && LockedAll(r, checks + added, n)
  {
    var cursor := StartSample(s.phase, s.offset);
    var r, added := Process(found, s).0, CallChecks(found, s);
    assert found(s.phase, s.offset).NotEnoughData? <==> cursor + SUBFRAME_SAMPLES > n;
    if found(s.phase, s.offset).NotEnoughData? {
      assert checks + added == checks;
    } else {
      MovesOn(checks, added[0], s, r, n);
    }
  }

  lemma MovesOn(checks: seq<Check>, last: Check, s: Sync, r: Sync, n: nat)
    requires n > 0 && LockedAll(s, checks, n - 1) && n == StartSample(s.phase, s.offset) + SUBFRAME_SAMPLES
    requires last.start == StartSample(s.phase, s.offset)
    requires r == s.(offset := s.offset + if last.decoded then SUBFRAME_BITS else 1)
    ensures LockedAll(r, checks + [last], n)
  {
    var all := checks + [last];
    var first :| FirstDecoded(checks, first, s.phase);
    assert last.start % PERIODS == s.phase;
    assert AllFailed(all, first);
    assert FirstDecoded(all, first, r.phase);
    forall t: nat | t < StartSample(r.phase, r.offset) && t % PERIODS == r.phase ensures Covered(all, t) {
      if t < last.start {
        CoveredStays(checks, [last], t);
      } else {
        CoveredByLast(checks, last, t);
      }
    }
  }

  lemma {:induction false} UncutCoverage(samples: seq<(real, real)>, read: Reader)
    ensures var n := Lockstep(samples, false, read);
            AllCovered(n.sync, UncutChecks(samples, read), |samples|)
    ensures samples != [] ==>
              exists added :: && Newest(added, |samples|)
                              && UncutChecks(samples, read) == UncutChecks(samples[..|samples| - 1], read) + added
  {
    if samples != [] {
      var init := samples[..|samples| - 1];
      UncutCoverage(init, read);
      LockstepSize(init, read);
      CoverageStep(BeforeUpdate(samples, read), UncutChecks(init, read), |samples|, read);
    }
  }

  lemma CoverageStep(before: Nav, checks: seq<Check>, n: nat, read: Reader)
    requires Level(before) && |before.prompts| == n > 0
    requires AllCovered(before.sync, checks, n - 1)
    ensures var added := UpdateChecks(before, read);
            && Newest(added, n)
            && AllCovered(Decoded1(before, read).0.sync, checks + added, n)
  {
    var found := Attempts(before.prompts, before.codes, read);
    AttemptsBounded(before.prompts, before.codes, read);
    if before.sync.phase < 0 {
      SearchingStep(found, before.sync, checks, n);
    } else {
      LockedStep(found, before.sync, checks, n);
    }
  }

  // ----- how long the history gets

  lemma PhaseStays(n: Nav, read: Reader)
    requires Level(n)
    ensures n.sync.phase >= 0 ==>
            Updated(n, read).0.sync.phase == n.sync.phase && Decoded1(n, read).0.sync.phase == n.sync.phase
    ensures |Updated(n, read).0.prompts| == |n.prompts| - Dropped(n)
  {
    DropFits(n);
  }

  /** A full history and the compacted one of the same samples. */
  lemma LockstepInStep(samples: seq<(real, real)>, read: Reader) returns (bits: nat)
    ensures Rebased(Lockstep(samples, false, read), Lockstep(samples, true, read), bits)
            && Within(Lockstep(samples, true, read))
    ensures |Lockstep(samples, false, read).prompts| == |samples|
  {
    CompactionIsInvisible(Paired(samples), read);
    LockstepIsRun(samples, false, read);
    LockstepIsRun(samples, true, read);
    LockstepSize(samples, read);
    bits :| Rebased(Lockstep(samples, false, read), Lockstep(samples, true, read), bits);
  }

  // ----- the checks of the channel that compacts

  /** The bits of 20 samples its compactions have dropped. */
  function Cut(samples: seq<(real, real)>, read: Reader): nat {
    if samples == [] then 0
    else Cut(samples[..|samples| - 1], read) + Dropped(BeforeCompaction(samples, read)) / PERIODS
  }

  function BeforeCompaction(samples: seq<(real, real)>, read: Reader): (n: Nav)
    requires samples != []
    ensures Level(n)
  {
    var (prompt, code) := samples[|samples| - 1];
    Tracked(Lockstep(samples[..|samples| - 1], true, read), prompt, code)
  }

  /** The same checks with their starts counted from drop samples earlier. */
  function Later(checks: seq<Check>, drop: nat): (r: seq<Check>)
    ensures |r| == |checks|
  {
    seq(|checks|, i requires 0 <= i < |checks| => Check(checks[i].start + drop, checks[i].decoded))
  }

  /** The checks of every call, their starts counted from the first sample ever tracked. */
  function Checks(samples: seq<(real, real)>, read: Reader): seq<Check> {
    if samples == [] then []
    else
      Checks(samples[..|samples| - 1], read)
          + Later(UpdateChecks(Compacted(BeforeCompaction(samples, read)), read), PERIODS * Cut(samples, read))
  }

  /** The cursors counted from the first sample ever tracked. */
  function Absolute(s: Sync, bits: nat): Sync {
    if s.phase >= 0 then s.(offset := s.offset + bits)
    else s.(positions := seq(|s.positions|, i requires 0 <= i < |s.positions| => s.positions[i] + bits))
  }

  lemma {:induction false} CutIsMissing(samples: seq<(real, real)>, read: Reader)
    ensures |Lockstep(samples, true, read).prompts| + PERIODS * Cut(samples, read) == |samples|
  {
    if samples != [] {
      CutIsMissing(samples[..|samples| - 1], read);
      var before := BeforeCompaction(samples, read);
      PhaseStays(before, read);
      DropFits(before);
      WholeMore(Cut(samples[..|samples| - 1], read), Dropped(before));
    }
  }

  lemma WholeMore(bits: nat, drop: nat)
    requires drop % PERIODS == 0
    ensures PERIODS * (bits + drop / PERIODS) == PERIODS * bits + drop
  {
  }

  lemma ChecksOfShift(f: Findings, g: Findings, bits: nat, p: nat, k: nat)
    requires ShowsAt(f, g, bits, p, k) && (k >= 2 || bits == 0)
    ensures ChecksOf(f, p, k + bits) == Later(ChecksOf(g, p, k), PERIODS * bits)
  {
    ShiftedStart(p, k, bits);
  }

  lemma LaterAppend(a: seq<Check>, b: seq<Check>, drop: nat)
    ensures Later(a + b, drop) == Later(a, drop) + Later(b, drop)
  {
  }

  lemma LaterJoin(a: seq<Check>, b: seq<Check>, c: seq<Check>, d: seq<Check>, done: bool, drop: nat)
    requires a == Later(b, drop) && c == Later(d, drop)
    ensures a + (if done then [] else c) == Later(b + (if done then [] else d), drop)
  {
    LaterAppend(b, if done then [] else d, drop);
  }

  lemma {:induction false} SearchChecksShift(f: Findings, g: Findings, bits: nat, full: seq<nat>, cut: seq<nat>, p: nat)
    requires Shows(f, g, bits) && Ahead(full, cut, bits) && |cut| == PERIODS && p <= PERIODS
    ensures SearchChecks(f, full, p) == Later(SearchChecks(g, cut, p), PERIODS * bits)
    decreases PERIODS - p
  {
    if p < PERIODS {
      assert full[p] == cut[p] + bits;
      assert ShowsAt(f, g, bits, p, cut[p]);
      ChecksOfShift(f, g, bits, p, cut[p]);
      SearchChecksShift(f, g, bits, full, cut, p + 1);
      LaterJoin(ChecksOf(f, p, full[p]), ChecksOf(g, p, cut[p]), SearchChecks(f, full, p + 1),
                SearchChecks(g, cut, p + 1), g(p, cut[p]).Decoded?, PERIODS * bits);
    }
  }

  /** A call on the cut history checks the same samples. */
  lemma CallChecksShift(f: Findings, g: Findings, bits: nat, full: Sync, cut: Sync)
    requires Shows(f, g, bits) && IsSync(full) && IsSync(cut) && SyncAhead(full, cut, bits)
    ensures CallChecks(f, full) == Later(CallChecks(g, cut), PERIODS * bits)
  {
    if cut.phase >= 0 {
      assert ShowsAt(f, g, bits, cut.phase, cut.offset);
      ChecksOfShift(f, g, bits, cut.phase, cut.offset);
    } else {
      SearchChecksShift(f, g, bits, Cursors(full), Cursors(cut), 0);
    }
  }

  lemma SameChecks(full: Nav, c: Nav, bits: nat, cut: nat, read: Reader)
    requires Rebased(full, c, bits) && Within(c) && cut == bits + Dropped(c) / PERIODS
    ensures UpdateChecks(full, read) == Later(UpdateChecks(Compacted(c), read), PERIODS * cut)
  {
    CompactionRebases(full, c, bits);
    ShiftedChecks(full, Compacted(c), cut, read);
  }

  lemma ShiftedChecks(full: Nav, c: Nav, bits: nat, read: Reader)
    requires Rebased(full, c, bits)
    ensures UpdateChecks(full, read) == Later(UpdateChecks(c, read), PERIODS * bits)
  {
    AttemptsShift(full.prompts, full.codes, bits, read, c.prompts, c.codes);
    CallChecksShift(Attempts(full.prompts, full.codes, read), Attempts(c.prompts, c.codes, read), bits, full.sync,
                    c.sync);
  }

  /** Compacting or not, a channel checks the same samples in the same order. */
  lemma {:induction false} ChecksAreUncut(samples: seq<(real, real)>, read: Reader)
    ensures Checks(samples, read) == UncutChecks(samples, read)
  {
    if samples != [] {
      ChecksAreUncut(samples[..|samples| - 1], read);
      LastChecks(samples, read);
    }
  }

  lemma LastChecks(samples: seq<(real, real)>, read: Reader)
    requires samples != []
    ensures Later(UpdateChecks(Compacted(BeforeCompaction(samples, read)), read), PERIODS * Cut(samples, read))
         == UpdateChecks(BeforeUpdate(samples, read), read)
  {
    TrackedInStep(samples, read);
    SameChecks(BeforeUpdate(samples, read), BeforeCompaction(samples, read), Cut(samples[..|samples| - 1], read),
               Cut(samples, read), read);
  }

  lemma TrackedInStep(samples: seq<(real, real)>, read: Reader)
    requires samples != []
    ensures Rebased(BeforeUpdate(samples, read), BeforeCompaction(samples, read), Cut(samples[..|samples| - 1], read))
    ensures Within(BeforeCompaction(samples, read))
  {
    var init, last := samples[..|samples| - 1], samples[|samples| - 1];
    CutInStep(init, read);
    TrackShifts(Lockstep(init, false, read), Lockstep(init, true, read), Cut(init, read), last.0, last.1);
  }

  /** The search checks every start once, at the first call with its samples, and after lock every bit outside a
    * decoded subframe. */
  lemma Coverage(samples: seq<(real, real)>, read: Reader)
    ensures AllCovered(Absolute(Lockstep(samples, true, read).sync, Cut(samples, read)), Checks(samples, read),
                       |samples|)
    ensures samples != [] ==>
              exists added :: && Newest(added, |samples|)
                              && Checks(samples, read) == Checks(samples[..|samples| - 1], read) + added
  {
    UncutCoverage(samples, read);
    ChecksAreUncut(samples, read);
    if samples != [] {
      ChecksAreUncut(samples[..|samples| - 1], read);
    }
    CutInStep(samples, read);
    AbsoluteCoverage(Lockstep(samples, false, read).sync, Lockstep(samples, true, read).sync, Cut(samples, read),
                     Checks(samples, read), |samples|);
  }

  /** The full and the compacted history of the same samples are apart by what was cut. */
  lemma CutInStep(samples: seq<(real, real)>, read: Reader)
    ensures Rebased(Lockstep(samples, false, read), Lockstep(samples, true, read), Cut(samples, read))
    ensures SyncAhead(Lockstep(samples, false, read).sync, Lockstep(samples, true, read).sync, Cut(samples, read))
    ensures Within(Lockstep(samples, true, read))
  {
    var bits := LockstepInStep(samples, read);
    CutIsMissing(samples, read);
    SizesApart(Lockstep(samples, false, read), Lockstep(samples, true, read), bits, Cut(samples, read));
  }

  lemma SizesApart(full: Nav, c: Nav, bits: nat, cut: nat)
    requires Rebased(full, c, bits) && |c.prompts| + PERIODS * cut == |full.prompts|
    ensures bits == cut && SyncAhead(full.sync, c.sync, cut)
  {
  }

  lemma AbsoluteCoverage(full: Sync, cut: Sync, bits: nat, checks: seq<Check>, n: nat)
    requires SyncAhead(full, cut, bits) && AllCovered(full, checks, n)
    ensures AllCovered(Absolute(cut, bits), checks, n)
  {
    if cut.phase < 0 {
      assert Absolute(cut, bits).positions == full.positions;
    }
  }

  /** No sample is ever checked twice as a start. */
  lemma {:induction false} ChecksIncrease(samples: seq<(real, real)>, read: Reader)
    ensures var checks := Checks(samples, read);
            && (forall i | 0 <= i < |checks| :: checks[i].start + SUBFRAME_SAMPLES <= |samples|)
            && (forall i, j | 0 <= i < j < |checks| :: checks[i].start < checks[j].start)
  {
    if samples != [] {
      ChecksIncrease(samples[..|samples| - 1], read);
      Coverage(samples, read);
      var added :| Newest(added, |samples|) && Checks(samples, read) == Checks(samples[..|samples| - 1], read) + added;
    }
  }

  /** At the threshold, a searching channel has every cursor 1200 bits in, and drops all but 40 samples before them. */
  lemma DropWhileSearching(full: Nav, c: Nav, bits: nat, prompt: real, code: real)
    requires Rebased(full, c, bits) && c.sync.phase < 0 && AllDue(Cursors(full.sync), |full.prompts|)
    requires |c.prompts| == COMPACT_THRESHOLD - 1
    ensures Dropped(Tracked(c, prompt, code)) == 23960
  {
    assert |full.prompts| == 29999 + PERIODS * bits;
    var a := Cursors(full.sync);
    DueLater(bits, 0);
    assert a[0] == 1200 + bits;
    assert |c.sync.positions| == PERIODS;
    forall p | 0 <= p < PERIODS ensures c.sync.positions[p] == 1200 {
      DueLater(bits, p);
      assert a[p] == Due(|full.prompts|, p);
    }
  }

  lemma DueLater(bits: nat, p: nat)
    requires p < PERIODS
    ensures Due(29999 + PERIODS * bits, p) == 1200 + bits
  {
    assert 29999 + PERIODS * bits - SUBFRAME_SAMPLES - p == PERIODS * (1199 + bits) + (19 - p);
  }

  /** While searching, the history stays below the threshold after every call. */
  lemma {:induction false} SearchingStaysShort(samples: seq<(real, real)>, read: Reader)
    ensures var c := Lockstep(samples, true, read); c.sync.phase < 0 ==> |c.prompts| < COMPACT_THRESHOLD
  {
    if samples != [] {
      var init, last := samples[..|samples| - 1], samples[|samples| - 1];
      SearchingStaysShort(init, read);
      if Lockstep(init, true, read).sync.phase < 0 {
        SearchingGrows(samples, read);
      } else {
        PhaseStays(Tracked(Lockstep(init, true, read), last.0, last.1), read);
      }
    }
  }

  /** A locked channel compacts exactly when the history and its anchor are both far enough in. */
  lemma CompactsIff(n: Nav)
    requires Within(n) && 0 <= n.sync.phase
             && |n.prompts| <= StartSample(n.sync.phase, n.sync.offset) + SUBFRAME_SAMPLES
    ensures Dropped(n) > 0 <==> |n.prompts| >= COMPACT_THRESHOLD && n.anchor >= n.sync.phase + 10040
  {
    var read := StartSample(n.sync.phase, n.sync.offset);
    var anchor, margin := Min(n.anchor, read), n.sync.phase + 40;
    if anchor > margin {
      WholeBitsAtLeast(anchor - margin);
    }
  }

  lemma WholeBitsAtLeast(d: nat)
    ensures WholeBits(d) >= COMPACT_MIN_DROP <==> d >= COMPACT_MIN_DROP
    ensures WholeBits(d) <= d
  {
  }

  const RESERVED: nat := 60000

  /** At no call is the anchor of a locked channel older than age samples. */
  ghost predicate AnchorWithin(samples: seq<(real, real)>, age: nat, read: Reader) {
    forall k | 0 <= k <= |samples| :: AgeWithin(Lockstep(samples[..k], true, read), age)
  }

  predicate AgeWithin(c: Nav, age: nat) { c.sync.phase >= 0 ==> |c.prompts| - c.anchor <= age }

  lemma LockstepExtends(samples: seq<(real, real)>, prompt: real, code: real, read: Reader)
    ensures Lockstep(samples + [(prompt, code)], true, read)
            == Updated(Tracked(Lockstep(samples, true, read), prompt, code), read).0
  {
    var longer := samples + [(prompt, code)];
    assert longer[..|longer| - 1] == samples;
  }

  lemma LockstepWaits(samples: seq<(real, real)>, read: Reader)
    ensures var c := Lockstep(samples, true, read); Within(c) && (c.sync.phase >= 0 ==> Waiting(c.sync, |c.prompts|))
  {
    var bits := LockstepInStep(samples, read);
    UncutCoverage(samples, read);
    var full, c := Lockstep(samples, false, read), Lockstep(samples, true, read);
    if c.sync.phase >= 0 {
      ShiftedStart(c.sync.phase, c.sync.offset, bits);
    }
  }

  /** After an update the history has room for a sample exactly when it had, or could compact. */
  lemma RoomAfter(n: Nav, read: Reader)
    requires Within(n) && 0 <= n.sync.phase
             && |n.prompts| <= StartSample(n.sync.phase, n.sync.offset) + SUBFRAME_SAMPLES
    requires |n.prompts| <= RESERVED
    ensures |Updated(n, read).0.prompts| < RESERVED <==> MakesRoom(n)
  {
    CompactsIff(n);
    PhaseStays(n, read);
    DropFits(n);
  }

  /** There is room, or the last subframe is far enough in to compact up to it. */
  predicate MakesRoom(n: Nav) { |n.prompts| < RESERVED || n.anchor >= n.sync.phase + 10040 }

  /** The history has never outgrown its reservation. */
  ghost predicate StaysReserved(samples: seq<(real, real)>, read: Reader) {
    forall k | 0 < k <= |samples| :: FitsAt(samples, k, read)
  }

  predicate FitsAt(samples: seq<(real, real)>, k: nat, read: Reader)
    requires 0 < k <= |samples|
  {
    |BeforeCompaction(samples[..k], read).prompts| <= RESERVED
  }

  predicate RoomAt(samples: seq<(real, real)>, k: nat, read: Reader)
    requires 0 < k <= |samples|
  {
    MakesRoom(BeforeCompaction(samples[..k], read))
  }

  /** One sample further. */
  lemma NextFits(samples: seq<(real, real)>, k: nat, read: Reader)
    requires 0 < k < |samples| && FitsAt(samples, k, read)
    ensures FitsAt(samples, k + 1, read) <==> RoomAt(samples, k, read)
  {
    var init := samples[..k];
    var n := BeforeCompaction(init, read);
    assert samples[..k + 1][..k] == init;
    assert |BeforeCompaction(samples[..k + 1], read).prompts| == |Updated(n, read).0.prompts| + 1;
    if n.sync.phase >= 0 {
      LockstepWaits(init[..k - 1], read);
      RoomAfter(n, read);
    } else {
      SearchingStaysShort(init[..k - 1], read);
      PhaseStays(n, read);
    }
  }

  /** The history stays in its reservation exactly when no full one was left behind by its last subframe. */
  lemma {:induction false} ReservationIff(samples: seq<(real, real)>, read: Reader)
    ensures StaysReserved(samples, read) <==> forall k | 0 < k < |samples| :: RoomAt(samples, k, read)
  {
    forall k | 0 < k < |samples| && StaysReserved(samples, read) ensures RoomAt(samples, k, read) {
      assert FitsAt(samples, k, read) && FitsAt(samples, k + 1, read);
      NextFits(samples, k, read);
    }
    if forall k | 0 < k < |samples| :: RoomAt(samples, k, read) {
      forall k | 0 < k <= |samples| ensures FitsAt(samples, k, read) {
        FitsSoFar(samples, k, read);
      }
    }
  }

  lemma {:induction false} FitsSoFar(samples: seq<(real, real)>, k: nat, read: Reader)
    requires 0 < k <= |samples| && forall i | 0 < i < |samples| :: RoomAt(samples, i, read)
    ensures FitsAt(samples, k, read)
  {
    if k > 1 {
      FitsSoFar(samples, k - 1, read);
      NextFits(samples, k - 1, read);
    } else {
      assert samples[..1][..0] == [];
    }
  }

  lemma BoundStep(c: Nav, prompt: real, code: real, age: nat, read: Reader)
    requires Within(c) && c.sync.phase >= 0 && Waiting(c.sync, |c.prompts|)
    requires AgeWithin(c, age) && |c.prompts| < Max(COMPACT_THRESHOLD, 10060 + age)
    ensures |Updated(Tracked(c, prompt, code), read).0.prompts| < Max(COMPACT_THRESHOLD, 10060 + age)
  {
    var before := Tracked(c, prompt, code);
    PhaseStays(before, read);
    CompactsIff(before);
    DropFits(before);
  }

  lemma ShorterRuns(samples: seq<(real, real)>, age: nat, read: Reader)
    requires samples != [] && AnchorWithin(samples, age, read)
    ensures AnchorWithin(samples[..|samples| - 1], age, read)
            && AgeWithin(Lockstep(samples[..|samples| - 1], true, read), age)
  {
    var init := samples[..|samples| - 1];
    forall k | 0 <= k <= |init| ensures AgeWithin(Lockstep(init[..k], true, read), age) {
      assert init[..k] == samples[..k];
    }
    assert AgeWithin(Lockstep(samples[..|init|], true, read), age);
  }

  /** The history never exceeds the threshold, or the age of the anchor and 10060 samples more. */
  lemma {:induction false} HistoryIsBounded(samples: seq<(real, real)>, age: nat, read: Reader)
    requires AnchorWithin(samples, age, read)
    ensures |Lockstep(samples, true, read).prompts| < Max(COMPACT_THRESHOLD, 10060 + age)
  {
    if samples != [] {
      var init, last := samples[..|samples| - 1], samples[|samples| - 1];
      ShorterRuns(samples, age, read);
      HistoryIsBounded(init, age, read);
      LockstepWaits(init, read);
      LastStep(samples, read);
      if Lockstep(init, true, read).sync.phase >= 0 {
        BoundStep(Lockstep(init, true, read), last.0, last.1, age, read);
      } else {
        SearchingStaysShort(init, read);
        SearchingGrows(samples, read);
      }
    }
  }

  lemma LastStep(samples: seq<(real, real)>, read: Reader)
    requires samples != []
    ensures var last := samples[|samples| - 1];
            Lockstep(samples, true, read)
                == Updated(Tracked(Lockstep(samples[..|samples| - 1], true, read), last.0, last.1), read).0
  {
  }

  lemma SearchingGrows(samples: seq<(real, real)>, read: Reader)
    requires samples != [] && Lockstep(samples[..|samples| - 1], true, read).sync.phase < 0
    requires |Lockstep(samples[..|samples| - 1], true, read).prompts| < COMPACT_THRESHOLD
    ensures |Lockstep(samples, true, read).prompts| < COMPACT_THRESHOLD
  {
    var init, last := samples[..|samples| - 1], samples[|samples| - 1];
    var c := Lockstep(init, true, read);
    var before := Tracked(c, last.0, last.1);
    PhaseStays(before, read);
    if |before.prompts| == COMPACT_THRESHOLD {
      var bits := LockstepInStep(init, read);
      UncutCoverage(init, read);
      DropWhileSearching(Lockstep(init, false, read), c, bits, last.0, last.1);
    }
  }

  // ----- and that nothing else bounds it

  function Silence(m: nat): (s: seq<(real, real)>)
    ensures |s| == m
  {
    if m == 0 then [] else Silence(m - 1) + [(0.0, 0.0)]
  }

  lemma {:induction false} SilentSum(x: seq<real>, base: nat, n: nat)
    requires base + n <= |x| && forall i | base <= i < base + n :: x[i] == 0.0
    ensures SumFrom(x, base, n) == 0.0
  {
    if n > 0 { SilentSum(x, base, n - 1); }
  }

  /** A reader that wants a preamble, as the source's does. */
  ghost predicate WantsPreamble(read: Reader) {
    forall prior: BitString, bits: BitString | |bits| == SUBFRAME_BITS && Polarity(bits) == None ::
      read(prior, bits) == None
  }

  lemma FieldReaderWantsPreamble(searchMask: nat)
    ensures WantsPreamble(FieldReader(searchMask))
  {
  }

  lemma SilenceIsRejected(x: seq<real>, codes: seq<real>, p: nat, k: nat, read: Reader)
    requires WantsPreamble(read)
    requires forall i | StartSample(p, k) <= i < |x| :: x[i] == 0.0
    ensures !Try(x, codes, p, k, read).Decoded?
  {
    var start := StartSample(p, k);
    if start + SUBFRAME_SAMPLES <= |x| {
      var bits := BitsFrom(x, start, SUBFRAME_BITS);
      forall i | 0 <= i < SUBFRAME_BITS ensures !bits[i] {
        SilentSum(x, start + PERIODS * i, PERIODS);
      }
      Parity.NothingSpelled(bits[..8]);
      assert Polarity(bits) == None;
    }
  }

  /** The channel is c followed by m silent samples, its anchor where it was. */
  ghost predicate Idle(c: Nav, n: Nav, m: nat) {
    && Level(n) && |n.prompts| == |c.prompts| + m
    && (forall i | |c.prompts| <= i < |n.prompts| :: n.prompts[i] == 0.0)
    && c.sync.phase >= 0 && n.sync.phase == c.sync.phase && n.anchor == c.anchor
    && StartSample(n.sync.phase, n.sync.offset) >= |c.prompts|
  }

  lemma IdleStep(c: Nav, n: Nav, m: nat, read: Reader)
    requires WantsPreamble(read)
    requires c.sync.phase >= 0 && c.anchor < c.sync.phase + 10040 && Idle(c, n, m)
    ensures Idle(c, Updated(Tracked(n, 0.0, 0.0), read).0, m + 1)
  {
    var before := Tracked(n, 0.0, 0.0);
    DropFits(before);
    assert Dropped(before) == 0;
    SilenceIsRejected(before.prompts, before.codes, n.sync.phase, n.sync.offset, read);
    AttemptAt(before.prompts, before.codes, read, n.sync.phase, n.sync.offset);
  }

  /** After a decoded subframe no later than 10040 samples in, silence is kept for ever. */
  lemma {:induction false} SilenceIsKept(samples: seq<(real, real)>, m: nat, read: Reader)
    requires WantsPreamble(read)
    requires var c := Lockstep(samples, true, read);
             c.sync.phase >= 0 && c.anchor < c.sync.phase + 10040
                 && StartSample(c.sync.phase, c.sync.offset) >= |c.prompts|
    ensures Idle(Lockstep(samples, true, read), Lockstep(samples + Silence(m), true, read), m)
  {
    var c := Lockstep(samples, true, read);
    if m == 0 {
      assert samples + Silence(0) == samples;
    } else {
      SilenceIsKept(samples, m - 1, read);
      var shorter := samples + Silence(m - 1);
      assert samples + Silence(m) == shorter + [(0.0, 0.0)];
      IdleStep(c, Lockstep(shorter, true, read), m - 1, read);
      LockstepExtends(shorter, 0.0, 0.0, read);
    }
  }

  function Spread(bits: BitString): (s: seq<(real, real)>)
    ensures |s| == PERIODS * |bits|
    ensures forall i | 0 <= i < |s| :: s[i] == (Sign(bits[i / PERIODS]), 0.0)
  {
    seq(PERIODS * |bits|, i requires 0 <= i < PERIODS * |bits| => (Sign(bits[i / PERIODS]), 0.0))
  }

  function Prompts(samples: seq<(real, real)>): (x: seq<real>)
    ensures |x| == |samples| && forall i | 0 <= i < |x| :: x[i] == samples[i].0
  {
    seq(|samples|, i requires 0 <= i < |samples| => samples[i].0)
  }

  lemma {:induction false} LockstepPrompts(samples: seq<(real, real)>, read: Reader)
    ensures Lockstep(samples, false, read).prompts == Prompts(samples)
  {
    if samples != [] {
      LockstepPrompts(samples[..|samples| - 1], read);
      PromptsAppend(samples);
      var before := BeforeUpdate(samples, read);
      assert Lockstep(samples, false, read).prompts == before.prompts;
    }
  }

  lemma PromptsAppend(samples: seq<(real, real)>)
    requires samples != []
    ensures Prompts(samples) == Prompts(samples[..|samples| - 1]) + [samples[|samples| - 1].0]
  {
  }

  lemma {:induction false} ConstantSum(x: seq<real>, base: nat, n: nat, v: real)
    requires base + n <= |x| && forall i | base <= i < base + n :: x[i] == v
    ensures SumFrom(x, base, n) == n as real * v
  {
    if n > 0 {
      ConstantSum(x, base, n - 1, v);
      assert n as real * v == (n - 1) as real * v + v;
    }
  }

  lemma SpreadSignals(bits: BitString)
    ensures Signals(Prompts(Spread(bits)), 0, bits, false)
  {
    var x := Prompts(Spread(bits));
    forall i | 0 <= i < |bits| ensures SignalAt(x, PERIODS * i, bits[i]) {
      forall k | PERIODS * i <= k < PERIODS * i + PERIODS ensures x[k] == Sign(bits[i]) {
        assert k / PERIODS == i;
      }
      ConstantSum(x, PERIODS * i, PERIODS, Sign(bits[i]));
    }
  }

  /** Below the threshold the two channels are the same. */
  lemma {:induction false} ShortRunsAgree(samples: seq<(real, real)>, read: Reader)
    requires |samples| < COMPACT_THRESHOLD
    ensures Lockstep(samples, true, read) == Lockstep(samples, false, read)
  {
    if samples != [] {
      ShortRunsAgree(samples[..|samples| - 1], read);
      LockstepSize(samples[..|samples| - 1], read);
    }
  }

  lemma {:induction false} TooEarlyToLock(samples: seq<(real, real)>, read: Reader)
    requires |samples| < SUBFRAME_SAMPLES
    ensures SearchedAll(Lockstep(samples, false, read).sync, [], |samples|)
  {
    if samples != [] {
      var init := samples[..|samples| - 1];
      TooEarlyToLock(init, read);
      LockstepSize(init, read);
      var before := BeforeUpdate(samples, read);
      AttemptsBounded(before.prompts, before.codes, read);
      SearchingStep(Attempts(before.prompts, before.codes, read), before.sync, [], |samples|);
    }
  }

  function Filler(n: nat): (words: seq<BitString>)
    ensures |words| == n && Parity.AreWords(words)
  {
    if n == 0 then [] else Filler(n - 1) + [Parity.Ones(24)]
  }

  const FIRST := Subframe(0, Almanac(4))

  /** The bits of a subframe sent first. */
  function FirstBits(): (bits: BitString)
    ensures |bits| == SUBFRAME_BITS
  {
    Parity.Encode(Pack(FIRST, Filler(10)), false, false)
  }

  /** One subframe from the very first sample, then silence. */
  function OverflowRun(m: nat): seq<(real, real)> {
    Spread(FirstBits()) + Silence(m)
  }

  lemma StartsNearby(x: seq<real>, codes: seq<real>, p: nat, k: nat, read: Reader)
    ensures var result := Try(x, codes, p, k, read); result.Decoded? ==> result.start <= StartSample(p, k) + 2
  {
  }

  lemma DecodesAtStart(x: seq<real>, codes: seq<real>, searchMask: nat, sub: Subframe, spare: seq<BitString>)
    requires BodyFits(sub.body) && FitsUnsigned(sub.towCount, 17) && AreTen(spare)
             && BitAt(searchMask, IdOf(sub.body) - 1)
    requires Signals(x, 0, Parity.Encode(Pack(sub, spare), false, false), false)
    ensures var result := Try(x, codes, 0, 0, FieldReader(searchMask)); result.Decoded? && result.start <= 2
  {
    assert StartSample(0, 0) == 0;
    SubframeRoundTrip(x, codes, 0, 0, searchMask, sub, spare, false, false, false);
    StartsNearby(x, codes, 0, 0, FieldReader(searchMask));
  }

  lemma FirstSubframeDecodes(x: seq<real>, codes: seq<real>, searchMask: nat)
    requires |x| == SUBFRAME_SAMPLES && x == Prompts(Spread(FirstBits())) && BitAt(searchMask, 3)
    ensures var result := Try(x, codes, 0, 0, FieldReader(searchMask)); result.Decoded? && result.start <= 2
  {
    SpreadSignals(FirstBits());
    DecodesAtStart(x, codes, searchMask, FIRST, Filler(10));
  }

  /** Any subframe sent after D29 = 1 and D30 = 0, at the head of the history. */
  lemma UnequalAtHead(sent: BitString, codes: seq<real>, searchMask: nat, sub: Subframe, spare: seq<BitString>)
    requires BodyFits(sub.body) && FitsUnsigned(sub.towCount, 17) && AreTen(spare)
    requires sent == Parity.Encode(Pack(sub, spare), true, false)
    ensures Try(Prompts(Spread(sent)), codes, 0, 0, FieldReader(searchMask)) == Rejected
  {
    assert StartSample(0, 0) == 0;
    SpreadSignals(sent);
    SubframeRoundTrip(Prompts(Spread(sent)), codes, 0, 0, searchMask, sub, spare, true, false, false);
  }

  /** The same with the two bits before it. */
  lemma UnequalInside(sent: BitString, codes: seq<real>, searchMask: nat, sub: Subframe, spare: seq<BitString>)
    requires BodyFits(sub.body) && FitsUnsigned(sub.towCount, 17) && AreTen(spare)
             && BitAt(searchMask, IdOf(sub.body) - 1)
    requires sent == Parity.Encode(Pack(sub, spare), true, false)
    ensures var result := Try(Prompts(Spread([true, false] + sent)), codes, 0, 2, FieldReader(searchMask));
            result.Decoded? && result.subframe == sub
  {
    assert StartSample(0, 2) == 40;
    var y := Prompts(Spread([true, false] + sent));
    SpreadSignals([true, false] + sent);
    SignalsSplit(y, 0, [true, false], sent, false);
    SubframeRoundTrip(y, codes, 0, 2, searchMask, sub, spare, true, false, false);
  }

  /** A subframe sent after D29 = 1 and D30 = 0. */
  function BitsAfterUnequal(): (bits: BitString)
    ensures |bits| == SUBFRAME_BITS
  {
    Parity.Encode(Pack(FIRST, Filler(10)), true, false)
  }

  /** At the head of the history it is rejected; with its two feedback bits before it, it is read. */
  lemma UnequalFeedbackIsRejected(codes: seq<real>)
    ensures Try(Prompts(Spread(BitsAfterUnequal())), codes, 0, 0, FieldReader(0x1F)) == Rejected
    ensures var result := Try(Prompts(Spread([true, false] + BitsAfterUnequal())), codes, 0, 2, FieldReader(0x1F));
            result.Decoded? && result.subframe == FIRST
  {
    AllSubframes();
    FirstFits();
    UnequalAtHead(BitsAfterUnequal(), codes, 0x1F, FIRST, Filler(10));
    UnequalInside(BitsAfterUnequal(), codes, 0x1F, FIRST, Filler(10));
  }

  lemma FirstFits()
    ensures BodyFits(FIRST.body) && FitsUnsigned(FIRST.towCount, 17) && IdOf(FIRST.body) == 4 && AreTen(Filler(10))
  {
  }

  lemma AllSubframes()
    ensures BitAt(0x1F, 3)
  {
    assert ShiftRight(0x1F, 3) == ShiftRight(0xF, 2) == ShiftRight(0x7, 1) == 3;
  }

  lemma FirstSubframeLocks(samples: seq<(real, real)>, searchMask: nat)
    requires samples == Spread(FirstBits()) && BitAt(searchMask, 3)
    ensures var c := Lockstep(samples, true, FieldReader(searchMask));
            c.sync.phase == 0 && c.anchor <= 2
                && StartSample(c.sync.phase, c.sync.offset) == |c.prompts| == SUBFRAME_SAMPLES
  {
    var read := FieldReader(searchMask);
    var init := samples[..|samples| - 1];
    ShortRunsAgree(samples, read);
    LockstepSize(samples, read);
    LockstepSize(init, read);
    LockstepPrompts(samples, read);
    var before := BeforeUpdate(samples, read);
    assert before.prompts == Lockstep(samples, false, read).prompts;
    FirstSubframeDecodes(before.prompts, before.codes, searchMask);
    AttemptAt(before.prompts, before.codes, read, 0, 0);
    TooEarlyToLock(init, read);
    LocksAtOnce(before, read);
  }

  lemma LocksAtOnce(before: Nav, read: Reader)
    requires Level(before) && |before.prompts| == SUBFRAME_SAMPLES && SearchedAll(before.sync, [], SUBFRAME_SAMPLES - 1)
    requires var result := Attempts(before.prompts, before.codes, read)(0, 0); result.Decoded? && result.start <= 2
    ensures var n := Decoded1(before, read).0; n.sync.phase == 0 && n.sync.offset == SUBFRAME_BITS && n.anchor <= 2
  {
    var found := Attempts(before.prompts, before.codes, read);
    AttemptsBounded(before.prompts, before.codes, read);
    SearchFindsDue(found, Cursors(before.sync), before.sync.offset, SUBFRAME_SAMPLES, 0);
  }

  /** No reservation is enough when subframes stop decoding: the history keeps every silent sample. */
  lemma ReservationOverflows(m: nat)
    ensures |Lockstep(OverflowRun(m), true, FieldReader(0x1F)).prompts| == SUBFRAME_SAMPLES + m
  {
    AllSubframes();
    var samples := Spread(FirstBits());
    assert OverflowRun(m) == samples + Silence(m);
    FirstSubframeLocks(samples, 0x1F);
    FieldReaderWantsPreamble(0x1F);
    SilenceIsKept(samples, m, FieldReader(0x1F));
  }

  // ----- the cumulative drift

  ghost predicate Wraps(code: real, truth: real) {
    0.0 <= code < CODE_LENGTH && exists k: int :: WrapsBy(code, truth, k)
  }
  predicate WrapsBy(code: real, truth: real, k: int) { truth == code + k as real * CODE_LENGTH }

  /** A change of less than half a code is recovered from the wrapped phases. */
  lemma DeltaUnwraps(code: real, last: real, truth: real, before: real)
    requires Wraps(code, truth) && Wraps(last, before) && -CODE_LENGTH / 2.0 <= truth - before < CODE_LENGTH / 2.0
    ensures DriftDelta(code, last) == truth - before
  {
    var k: int :| WrapsBy(code, truth, k);
    var m: int :| WrapsBy(last, before, m);
    var a := code - last + CODE_LENGTH + CODE_LENGTH / 2.0;
    var f := (a / CODE_LENGTH).Floor;
    var q := a / CODE_LENGTH;
    assert f as real <= q < f as real + 1.0;
    assert DriftDelta(code, last) == code - last + CODE_LENGTH - f as real * CODE_LENGTH;
    var j := k - m - 1 + f;
    assert truth - before - DriftDelta(code, last) == j as real * CODE_LENGTH;
    assert j == 0;
  }

  /** Wrapped code phases of a signal that never moves half a code in one block. */
  ghost predicate Follows(samples: seq<(real, real)>, truth: seq<real>) {
    && |samples| == |truth|
    && (forall i | 0 <= i < |samples| :: Wraps(samples[i].1, truth[i]))
    && (forall i | 0 < i < |truth| :: -CODE_LENGTH / 2.0 <= truth[i] - truth[i - 1] < CODE_LENGTH / 2.0)
  }

  /** The drift history is the true movement since the first block, never aliased. */
  lemma {:induction false} DriftIsTrue(samples: seq<(real, real)>, truth: seq<real>, read: Reader)
    requires Follows(samples, truth)
    ensures var n := Lockstep(samples, false, read);
            && |n.drifts| == |samples| && (forall i | 0 <= i < |samples| :: n.drifts[i] == truth[i] - truth[0])
            && (samples != [] ==> n.lastCode == samples[|samples| - 1].1 && n.drift == truth[|samples| - 1] - truth[0])
            && (samples == [] ==> n.drift == 0.0)
  {
    if samples != [] {
      var k := |samples| - 1;
      FollowsPrefix(samples, truth, k);
      DriftIsTrue(samples[..k], truth[..k], read);
      if k > 0 {
        DeltaUnwraps(samples[k].1, samples[k - 1].1, truth[k], truth[k - 1]);
      }
      var before := BeforeUpdate(samples, read);
      var n := Lockstep(samples, false, read);
      assert n.drifts == before.drifts && n.drift == before.drift && n.lastCode == before.lastCode;
      forall i | 0 <= i < |samples| ensures n.drifts[i] == truth[i] - truth[0] {
        assert i < k ==> truth[..k][i] == truth[i] && truth[..k][0] == truth[0];
      }
    }
  }

  lemma FollowsPrefix(samples: seq<(real, real)>, truth: seq<real>, k: nat)
    requires Follows(samples, truth) && k <= |samples|
    ensures Follows(samples[..k], truth[..k])
  {
  }

  /** So differencing two samples of the compacted history gives the true movement between them. */
  lemma DriftDifferences(samples: seq<(real, real)>, truth: seq<real>, read: Reader) returns (cut: nat)
    requires Follows(samples, truth)
    ensures var drifts := Lockstep(samples, true, read).drifts;
            cut + |drifts| == |samples|
            && forall i, j | 0 <= i < |drifts| && 0 <= j < |drifts| ::
               drifts[j] - drifts[i] == truth[cut + j] - truth[cut + i]
  {
    cut := CutDrifts(samples, read);
    DriftIsTrue(samples, truth, read);
    var full, drifts := Lockstep(samples, false, read).drifts, Lockstep(samples, true, read).drifts;
    forall i, j | 0 <= i < |drifts| && 0 <= j < |drifts|
      ensures drifts[j] - drifts[i] == truth[cut + j] - truth[cut + i]
    {
      assert drifts[i] == full[cut + i] && drifts[j] == full[cut + j];
    }
  }

  lemma CutDrifts(samples: seq<(real, real)>, read: Reader) returns (cut: nat)
    ensures var full, c := Lockstep(samples, false, read).drifts, Lockstep(samples, true, read).drifts;
            cut <= |full| == |samples| && |c| == |full| - cut && forall i | 0 <= i < |c| :: c[i] == full[cut + i]
  {
    var bits := LockstepInStep(samples, read);
    cut := PERIODS * bits;
  }
}
