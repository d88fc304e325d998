/** The eight-lane correlator of Source/Tracking/GPSOpenClTracking.cpp, in ideal arithmetic. */
module Correlators {
  import opened Numbers

  datatype Complex = Complex(re: real, im: real)

  /** cos and sin, of which only the addition formulas are used. */
  datatype Trig = Trig(cos: real -> real, sin: real -> real, twoPi: real)

  ghost predicate Lawful(t: Trig) {
    && t.twoPi > 0.0
    && (forall a: real, b: real :: AddsCos(t, a, b))
    && (forall a: real, b: real :: AddsSin(t, a, b))
  }

  ghost predicate AddsCos(t: Trig, a: real, b: real) { t.cos(a + b) == t.cos(a) * t.cos(b) - t.sin(a) * t.sin(b) }
  ghost predicate AddsSin(t: Trig, a: real, b: real) { t.sin(a + b) == t.cos(a) * t.sin(b) + t.sin(a) * t.cos(b) }

  const CODE_LENGTH: nat := 1023
  const LANES: nat := 8

  // ----- what is to be computed

  /** In-phase and quadrature sums of the early, prompt and late correlators. */
  datatype Sums = Sums(ie: real, qe: real, ip: real, qp: real, il: real, ql: real)

  const NOTHING := Sums(0.0, 0.0, 0.0, 0.0, 0.0, 0.0)

  function Plus(a: Sums, b: Sums): Sums {
    Sums(a.ie + b.ie, a.qe + b.qe, a.ip + b.ip, a.qp + b.qp, a.il + b.il, a.ql + b.ql)
  }

  /** Chips under the three correlators at one sample. */
  datatype Chips = Chips(early: real, prompt: real, late: real)

  /** One sample times the conjugate carrier times each chip. */
  function Contribution(x: Complex, carrier: Complex, chips: Chips): Sums {
    var re := x.re * carrier.re + x.im * carrier.im;
    var im := x.im * carrier.re - x.re * carrier.im;
    Sums(re * chips.early, im * chips.early, re * chips.prompt, im * chips.prompt, re * chips.late, im * chips.late)
  }

  /** The code table entry under a code phase, by whole chips modulo the code length. */
  function ChipUnder(code: seq<real>, phase: real): real
    requires |code| == CODE_LENGTH
  {
    code[phase.Floor % CODE_LENGTH]
  }

  function ChipsAt(code: seq<real>, phase: real): Chips
    requires |code| == CODE_LENGTH
  {
    Chips(ChipUnder(code, phase - 0.5), ChipUnder(code, phase), ChipUnder(code, phase + 0.5))
  }

  function CarrierAt(t: Trig, angle: real): Complex { Complex(t.cos(angle), t.sin(angle)) }

  /** first plus i steps */
  function Ramp(first: real, step: real, i: nat): real { first + step * i as real }

  /** The plain sum over n samples. */
  ghost function PlainSum(f: nat -> Sums, n: nat): Sums {
    if n == 0 then NOTHING else Plus(PlainSum(f, n - 1), f(n - 1))
  }

  // ----- lanes

  /** The terms lane l has after some blocks: l, l + 8, l + 16, ... */
  ghost function LaneSum(f: nat -> Sums, l: nat, blocks: nat): Sums {
    if blocks == 0 then NOTHING else Plus(LaneSum(f, l, blocks - 1), f(LANES * (blocks - 1) + l))
  }

  ghost function LanesSum(f: nat -> Sums, lanes: nat, blocks: nat): Sums {
    if lanes == 0 then NOTHING else Plus(LanesSum(f, lanes - 1, blocks), LaneSum(f, lanes - 1, blocks))
  }

  lemma PlusLaws(a: Sums, b: Sums, c: Sums, d: Sums)
    ensures Plus(Plus(a, b), c) == Plus(a, Plus(b, c)) && Plus(a, NOTHING) == a == Plus(NOTHING, a)
    ensures Plus(Plus(a, b), Plus(c, d)) == Plus(Plus(a, c), Plus(b, d))
  {
  }

  /** The terms of one block, lane by lane. */
  ghost function BlockSum(f: nat -> Sums, lanes: nat, block: nat): Sums {
    if lanes == 0 then NOTHING else Plus(BlockSum(f, lanes - 1, block), f(LANES * block + lanes - 1))
  }

  lemma {:induction false} LanesGainBlock(f: nat -> Sums, lanes: nat, blocks: nat)
    ensures LanesSum(f, lanes, blocks + 1) == Plus(LanesSum(f, lanes, blocks), BlockSum(f, lanes, blocks))
  {
    if lanes > 0 {
      LanesGainBlock(f, lanes - 1, blocks);
      var l := lanes - 1;
      assert LaneSum(f, l, blocks + 1) == Plus(LaneSum(f, l, blocks), f(LANES * blocks + l));
      PlusLaws(LanesSum(f, l, blocks), BlockSum(f, l, blocks), LaneSum(f, l, blocks), f(LANES * blocks + l));
    } else {
      PlusLaws(NOTHING, NOTHING, NOTHING, NOTHING);
    }
  }

  lemma {:induction false} PlainGainsBlock(f: nat -> Sums, blocks: nat, lanes: nat)
    ensures PlainSum(f, LANES * blocks + lanes) == Plus(PlainSum(f, LANES * blocks), BlockSum(f, lanes, blocks))
  {
    var whole := PlainSum(f, LANES * blocks);
    if lanes > 0 {
      PlainGainsBlock(f, blocks, lanes - 1);
      PlusLaws(whole, BlockSum(f, lanes - 1, blocks), f(LANES * blocks + lanes - 1), NOTHING);
    } else {
      PlusLaws(whole, NOTHING, NOTHING, NOTHING);
    }
  }

  lemma {:induction false} NoLanes(f: nat -> Sums, lanes: nat)
    ensures LanesSum(f, lanes, 0) == NOTHING
  {
    if lanes > 0 { NoLanes(f, lanes - 1); }
  }

  /** Eight lanes added up are the plain sum over whole blocks. */
  lemma {:induction false} LanesAreTheSum(f: nat -> Sums, blocks: nat)
    ensures LanesSum(f, LANES, blocks) == PlainSum(f, LANES * blocks)
  {
    if blocks > 0 {
      LanesAreTheSum(f, blocks - 1);
      LanesGainBlock(f, LANES, blocks - 1);
      PlainGainsBlock(f, blocks - 1, LANES);
    } else {
      NoLanes(f, LANES);
    }
  }

  // ----- chips

  /** static_cast<int> of a real: toward zero. */
  function Truncate(x: real): int { if x >= 0.0 then x.Floor else -(-x).Floor }

  lemma FloorByTruncation(x: real)
    ensures Truncate(x) - (if Truncate(x) as real > x then 1 else 0) == x.Floor
  {
    var n := (-x).Floor;
    assert n as real <= -x < n as real + 1.0;
  }

  lemma HalfChips(phase: real)
    ensures var frac := phase - phase.Floor as real;
            && (phase - 0.5).Floor == (if frac < 0.5 then phase.Floor - 1 else phase.Floor)
            && (phase + 0.5).Floor == (if frac < 0.5 then phase.Floor else phase.Floor + 1)
  {
  }

  method WrapChip(raw: int) returns (index: int)
    ensures 0 <= index < CODE_LENGTH && index == raw % CODE_LENGTH
  {
    index := raw;
    while index >= CODE_LENGTH
      invariant index % CODE_LENGTH == raw % CODE_LENGTH
    {
      index := index - CODE_LENGTH;
    }
    while index < 0
      invariant index % CODE_LENGTH == raw % CODE_LENGTH && index < CODE_LENGTH
    {
      index := index + CODE_LENGTH;
    }
  }

  /** The three chips at one code phase. */
  method LookUpChips(code: seq<real>, phase: real) returns (chips: Chips)
    requires |code| == CODE_LENGTH
    ensures chips == ChipsAt(code, phase)
  {
    var rawPrompt := Truncate(phase);
    rawPrompt := rawPrompt - if rawPrompt as real > phase then 1 else 0;
    FloorByTruncation(phase);
    HalfChips(phase);
    var frac := phase - rawPrompt as real;
    var promptIndex := WrapChip(rawPrompt);
    var earlyIndex := if frac < 0.5 then promptIndex - 1 else promptIndex;
    earlyIndex := earlyIndex + if earlyIndex < 0 then CODE_LENGTH else 0;
    var lateIndex := if frac < 0.5 then promptIndex else promptIndex + 1;
    lateIndex := lateIndex - if lateIndex >= CODE_LENGTH then CODE_LENGTH else 0;
    assert earlyIndex == (if frac < 0.5 then rawPrompt - 1 else rawPrompt) % CODE_LENGTH;
    assert lateIndex == (if frac < 0.5 then rawPrompt else rawPrompt + 1) % CODE_LENGTH;
    chips := Chips(code[earlyIndex], code[promptIndex], code[lateIndex]);
  }

  /** The chips of each sample, by definition. */
  function ChipsOf(code: seq<real>, first: real, step: real): nat -> Chips
    requires |code| == CODE_LENGTH
  {
    (i: nat) => ChipsAt(code, Ramp(first, step, i))
  }

  method ChipsOfSample(code: seq<real>, first: real, step: real, i: nat) returns (chips: Chips)
    requires |code| == CODE_LENGTH
    ensures chips == ChipsOf(code, first, step)(i)
  {
    chips := LookUpChips(code, step * i as real + first);
  }

  // ----- the carrier

  lemma RampAdds(first: real, step: real, i: nat, k: nat)
    ensures Ramp(first, step, i) + step * k as real == Ramp(first, step, i + k)
  {
    assert step * (i + k) as real == step * i as real + step * k as real;
  }

  /** Turning a lane by the block angle moves it on by eight samples. */
  lemma LaneTurns(t: Trig, first: real, step: real, i: nat, lane: Complex, block: Complex)
    requires Lawful(t) && lane == CarrierAt(t, Ramp(first, step, i)) && block == CarrierAt(t, step * LANES as real)
    ensures Complex(lane.re * block.re - lane.im * block.im, lane.re * block.im + lane.im * block.re)
            == CarrierAt(t, Ramp(first, step, i + LANES))
  {
    RampAdds(first, step, i, LANES);
    assert AddsCos(t, Ramp(first, step, i), step * LANES as real)
           && AddsSin(t, Ramp(first, step, i), step * LANES as real);
  }

  function Turned(lane: Complex, block: Complex): Complex {
    Complex(lane.re * block.re - lane.im * block.im, lane.re * block.im + lane.im * block.re)
  }

  /** Turning by the block moves every sample's carrier on by eight. */
  ghost predicate Turns(want: nat -> Complex, block: Complex) { forall i: nat :: TurnsAt(want, block, i) }
  ghost predicate TurnsAt(want: nat -> Complex, block: Complex, i: nat) { Turned(want(i), block) == want(i + LANES) }

  /** The carrier of each sample, by definition. */
  function CarrierOf(t: Trig, first: real, step: real): nat -> Complex {
    (i: nat) => CarrierAt(t, Ramp(first, step, i))
  }

  lemma CarrierTurns(t: Trig, first: real, step: real)
    requires Lawful(t)
    ensures Turns(CarrierOf(t, first, step), CarrierAt(t, step * LANES as real))
  {
    var want, block := CarrierOf(t, first, step), CarrierAt(t, step * LANES as real);
    forall i: nat ensures TurnsAt(want, block, i) {
      LaneTurns(t, first, step, i, CarrierAt(t, Ramp(first, step, i)), block);
    }
  }

  method DirectCarrier(t: Trig, first: real, step: real, i: nat) returns (c: Complex)
    ensures c == CarrierOf(t, first, step)(i)
  {
    var angle := first + step * i as real;
    c := Complex(t.cos(angle), t.sin(angle));
  }

  /** The carrier by block recurrence, and directly in the tail. */
  method FillCarrier(t: Trig, first: real, step: real, length: nat) returns (carrier: array<Complex>)
    requires Lawful(t)
    ensures fresh(carrier) && carrier.Length == length
    ensures forall i: nat | i < length :: carrier[i] == CarrierOf(t, first, step)(i)
  {
    ghost var want := CarrierOf(t, first, step);
    carrier := new Complex[length](i => Complex(0.0, 0.0));
    var lane := StartLanes(t, first, step);
    var block := CarrierAt(t, step * LANES as real);
    CarrierTurns(t, first, step);
    var vectorLength := length - length % LANES;
    FillBlocks(carrier, lane, block, vectorLength, want);
    for j := vectorLength to length
      invariant forall k: nat | k < j :: carrier[k] == want(k)
    {
      carrier[j] := DirectCarrier(t, first, step, j);
    }
  }

  method StartLanes(t: Trig, first: real, step: real) returns (lane: array<Complex>)
    ensures fresh(lane) && lane.Length == LANES && LanesAt(lane, CarrierOf(t, first, step), 0)
  {
    ghost var want := CarrierOf(t, first, step);
    lane := new Complex[LANES](l => Complex(0.0, 0.0));
    for l := 0 to LANES
      invariant forall k: nat | k < l :: lane[k] == want(k)
    {
      lane[l] := DirectCarrier(t, first, step, l);
    }
  }

  method FillBlocks(carrier: array<Complex>, lane: array<Complex>, block: Complex, vectorLength: nat,
                    ghost want: nat -> Complex)
    requires lane.Length == LANES && vectorLength <= carrier.Length && vectorLength % LANES == 0 && lane != carrier
    requires Turns(want, block) && LanesAt(lane, want, 0)
    modifies carrier, lane
    ensures Filled(carrier, want, vectorLength)
  {
    var i := 0;
    ghost var left: nat := vectorLength / LANES;
    while i < vectorLength
      invariant i + LANES * left == vectorLength
      invariant Filled(carrier, want, i) && LanesAt(lane, want, i)
    {
      CopyLanes(carrier, lane, i, want);
      TurnLanes(i, lane, block, want);
      i, left := i + LANES, left - 1;
    }
  }

  /** The carriers below sample n are there. */
  ghost predicate Filled(carrier: array<Complex>, want: nat -> Complex, n: nat)
    requires n <= carrier.Length
    reads carrier
  {
    forall k: nat | k < n :: carrier[k] == want(k)
  }

  /** The lanes hold the carriers from sample i on. */
  ghost predicate LanesAt(lane: array<Complex>, want: nat -> Complex, i: nat)
    requires lane.Length == LANES
    reads lane
  {
    forall k: nat | k < LANES :: lane[k] == want(i + k)
  }

  method CopyLanes(carrier: array<Complex>, lane: array<Complex>, i: nat, ghost want: nat -> Complex)
    requires lane.Length == LANES && i + LANES <= carrier.Length && lane != carrier
    requires LanesAt(lane, want, i) && Filled(carrier, want, i)
    modifies carrier
    ensures Filled(carrier, want, i + LANES)
  {
    for l := 0 to LANES
      invariant forall k: nat | k < i + l :: carrier[k] == want(k)
    {
      carrier[i + l] := lane[l];
    }
  }

  method TurnLanes(i: nat, lane: array<Complex>, block: Complex, ghost want: nat -> Complex)
    requires lane.Length == LANES && Turns(want, block) && LanesAt(lane, want, i)
    modifies lane
    ensures LanesAt(lane, want, i + LANES)
  {
    for l := 0 to LANES
      invariant forall k: nat | k < l :: lane[k] == want(i + LANES + k)
      invariant forall k: nat | l <= k < LANES :: lane[k] == want(i + k)
    {
      assert TurnsAt(want, block, i + l);
      assert i + l + LANES == i + LANES + l;
      lane[l] := Turned(lane[l], block);
    }
  }

  // ----- accumulation

  /** f is the contribution of each sample. */
  ghost predicate AreTerms(f: nat -> Sums, input: seq<Complex>, carrier: seq<Complex>, chips: seq<Chips>)
    requires |carrier| == |chips| <= |input|
  {
    forall i: nat | i < |carrier| :: IsTerm(f, input, carrier, chips, i)
  }

  ghost predicate IsTerm(f: nat -> Sums, input: seq<Complex>, carrier: seq<Complex>, chips: seq<Chips>, i: nat)
    requires |carrier| == |chips| <= |input| && i < |carrier|
  {
    f(i) == Contribution(input[i], carrier[i], chips[i])
  }

  method Sample(input: seq<Complex>, carrier: array<Complex>, chips: array<Chips>, i: nat, ghost f: nat -> Sums)
    returns (s: Sums)
    requires carrier.Length == chips.Length <= |input| && i < carrier.Length
             && AreTerms(f, input, carrier[..], chips[..])
    ensures s == f(i)
  {
    assert IsTerm(f, input, carrier[..], chips[..], i);
    s := Contribution(input[i], carrier[i], chips[i]);
  }

  /** Adds one block of samples to the lanes. */
  method AddBlock(input: seq<Complex>, carrier: array<Complex>, chips: array<Chips>, lane: array<Sums>, i: nat,
                  ghost blocks: nat, ghost f: nat -> Sums)
    requires carrier.Length == chips.Length <= |input| && AreTerms(f, input, carrier[..], chips[..])
    requires lane.Length == LANES && i == LANES * blocks && i + LANES <= carrier.Length
    requires forall l: nat | l < LANES :: lane[l] == LaneSum(f, l, blocks)
    modifies lane
    ensures forall l: nat | l < LANES :: lane[l] == LaneSum(f, l, blocks + 1)
  {
    for l := 0 to LANES
      invariant forall k: nat | k < l :: lane[k] == LaneSum(f, k, blocks + 1)
      invariant forall k: nat | l <= k < LANES :: lane[k] == LaneSum(f, k, blocks)
    {
      var term := Sample(input, carrier, chips, i + l, f);
      lane[l] := Plus(lane[l], term);
    }
  }

  /** Eight lanes over whole blocks, their sum, then the tail. */
  method Accumulate(input: seq<Complex>, carrier: array<Complex>, chips: array<Chips>, ghost f: nat -> Sums)
    returns (sums: Sums)
    requires carrier.Length == chips.Length <= |input| && AreTerms(f, input, carrier[..], chips[..])
    ensures sums == PlainSum(f, carrier.Length)
  {
    var length := carrier.Length;
    var lane := new Sums[LANES](l => NOTHING);
    var vectorLength := length - length % LANES;
    var i := 0;
    ghost var blocks := 0;
    while i < vectorLength
      invariant i == LANES * blocks <= vectorLength
      invariant forall l: nat | l < LANES :: lane[l] == LaneSum(f, l, blocks)
    {
      AddBlock(input, carrier, chips, lane, i, blocks, f);
      i, blocks := i + LANES, blocks + 1;
    }
    sums := NOTHING;
    for l := 0 to LANES
      invariant sums == LanesSum(f, l, blocks)
    {
      sums := Plus(sums, lane[l]);
    }
    LanesAreTheSum(f, blocks);
    for j := vectorLength to length
      invariant sums == PlainSum(f, j)
    {
      var term := Sample(input, carrier, chips, j, f);
      sums := Plus(sums, term);
    }
  }

  // ----- the tracking state

  class Tracking {
    const trig: Trig
    const samplingFrequency: real
    const totalSamples: nat
    var carrierFrequency: real
    var codePhaseStep: real
    var remCodePhase: real
    var remCarrierPhase: real
    var sums: Sums

    constructor (trig: Trig, samplingFrequency: real, totalSamples: nat)
      ensures this.trig == trig && this.samplingFrequency == samplingFrequency && this.totalSamples == totalSamples
      ensures sums == NOTHING
    {
      this.trig, this.samplingFrequency, this.totalSamples := trig, samplingFrequency, totalSamples;
      carrierFrequency, codePhaseStep, remCodePhase, remCarrierPhase := 0.0, 0.0, 0.0, 0.0;
      sums := NOTHING;
    }

    function PhaseStep(): real
      requires samplingFrequency > 0.0
      reads this
    {
      trig.twoPi * carrierFrequency / samplingFrequency
    }

    /** The term of sample i, by definition: its own carrier angle and code phase. */
    ghost function Definition(input: seq<Complex>, code: seq<real>): nat -> Sums
      requires |code| == CODE_LENGTH && samplingFrequency > 0.0
      reads this
    {
      DefinedTerms(input, CarrierOf(trig, remCarrierPhase, PhaseStep()), ChipsOf(code, remCodePhase, codePhaseStep))
    }

    method FillChips(code: seq<real>, length: nat) returns (chips: array<Chips>)
      requires |code| == CODE_LENGTH
      ensures fresh(chips) && chips.Length == length
      ensures forall i: nat | i < length :: chips[i] == ChipsOf(code, remCodePhase, codePhaseStep)(i)
    {
      ghost var want := ChipsOf(code, remCodePhase, codePhaseStep);
      chips := new Chips[length](i => Chips(0.0, 0.0, 0.0));
      for i := 0 to length
        invariant forall k: nat | k < i :: chips[k] == want(k)
      {
        chips[i] := ChipsOfSample(code, remCodePhase, codePhaseStep, i);
      }
    }

    /** The sums over one block. */
    method CorrelateBlock(input: seq<Complex>, code: seq<real>) returns (result: Sums)
      requires Lawful(trig) && |code| == CODE_LENGTH && samplingFrequency > 0.0
      ensures result == PlainSum(Definition(input, code), Min(|input|, totalSamples))
    {
      var step := PhaseStep();
      var length := Min(|input|, totalSamples);
      var chips := FillChips(code, length);
      var carrier := FillCarrier(trig, remCarrierPhase, step, length);
      ghost var want, wantChips := CarrierOf(trig, remCarrierPhase, step), ChipsOf(code, remCodePhase, codePhaseStep);
      TermsAsDefined(input, want, wantChips, carrier[..], chips[..]);
      result := Accumulate(input, carrier, chips, DefinedTerms(input, want, wantChips));
    }

    /** Both phases a whole block later. */
    function NextCodePhase(): real
      reads this
    {
      Fmod(Ramp(remCodePhase, codePhaseStep, totalSamples), CODE_LENGTH as real)
    }

    function NextCarrierPhase(): real
      requires samplingFrequency > 0.0 && trig.twoPi > 0.0
      reads this
    {
      Fmod(Ramp(remCarrierPhase, PhaseStep(), totalSamples), trig.twoPi)
    }

    /** Correlates one block, then moves both phases on by a block. */
    method Correlator(input: seq<Complex>, code: seq<real>)
      requires Lawful(trig) && |code| == CODE_LENGTH
      modifies this`sums, this`remCodePhase, this`remCarrierPhase
      ensures samplingFrequency <= 0.0 ==>
              sums == old(sums) && remCodePhase == old(remCodePhase) && remCarrierPhase == old(remCarrierPhase)
      ensures samplingFrequency > 0.0 ==>
                && sums == PlainSum(old(Definition(input, code)), Min(|input|, totalSamples))
                && remCodePhase == old(NextCodePhase()) && remCarrierPhase == old(NextCarrierPhase())
    {
      if samplingFrequency <= 0.0 {
        return;
      }
      var result := CorrelateBlock(input, code);
      sums, remCodePhase, remCarrierPhase := result, NextCodePhase(), NextCarrierPhase();
    }
  }

  // ----- from one block to the next

  ghost predicate CongruentBy(a: real, b: real, m: real, k: int) { a == b + k as real * m }

  /** fmod drops whole multiples. */
  lemma FmodIsCongruent(a: real, m: real) returns (k: int)
    requires m > 0.0
    ensures CongruentBy(a, Fmod(a, m), m, k) && -m < Fmod(a, m) < m
  {
    if a >= 0.0 {
      k := (a / m).Floor;
      FloorBounds(a, m);
    } else {
      k := -(-a / m).Floor;
      FloorBounds(-a, m);
      assert k as real * m == -((-a / m).Floor as real * m);
    }
  }

  lemma FloorBounds(a: real, m: real)
    requires m > 0.0 && a >= 0.0
    ensures 0.0 <= a - (a / m).Floor as real * m < m
  {
    assert (a / m) * m == a;
    Remainder(a, m, a / m, (a / m).Floor as real);
  }

  lemma Remainder(a: real, m: real, q: real, f: real)
    requires m > 0.0 && q * m == a && f <= q < f + 1.0
    ensures 0.0 <= a - f * m < m
  {
    Distributes(q, f, m);
    PartOf(q - f, m, a - f * m);
  }

  lemma Distributes(q: real, f: real, m: real)
    ensures (q - f) * m == q * m - f * m
  {
  }

  lemma PartOf(x: real, m: real, p: real)
    requires 0.0 <= x < 1.0 && m > 0.0 && p == x * m
    ensures 0.0 <= p < m
  {
    Positive(1.0 - x, m);
    assert (1.0 - x) * m == m - x * m;
  }

  lemma Positive(x: real, m: real)
    requires x > 0.0 && m > 0.0
    ensures x * m > 0.0
  {
  }

  lemma ChipRepeats(code: seq<real>, phase: real, k: int)
    requires |code| == CODE_LENGTH
    ensures ChipUnder(code, phase + k as real * CODE_LENGTH as real) == ChipUnder(code, phase)
  {
    assert (phase + k as real * CODE_LENGTH as real).Floor == phase.Floor + k * CODE_LENGTH;
  }

  /** The chips of the next block are those the code would have had without a break. */
  lemma CodeCarriesOver(code: seq<real>, first: real, step: real, block: nat, i: nat)
    requires |code| == CODE_LENGTH
    ensures ChipsOf(code, Fmod(Ramp(first, step, block), CODE_LENGTH as real), step)(i)
            == ChipsOf(code, first, step)(block + i)
  {
    var m := CODE_LENGTH as real;
    var k := FmodIsCongruent(Ramp(first, step, block), m);
    var next := Ramp(Fmod(Ramp(first, step, block), m), step, i);
    RampAdds(first, step, block, i);
    assert Ramp(first, step, block + i) == next + k as real * m;
    ChipRepeats(code, next, k);
    ChipRepeats(code, next - 0.5, k);
    ChipRepeats(code, next + 0.5, k);
  }

  /** A whole turn changes nothing. */
  ghost predicate Periodic(t: Trig) { forall angle: real :: CarrierAt(t, angle + t.twoPi) == CarrierAt(t, angle) }

  lemma {:induction false} TurnsRepeat(t: Trig, angle: real, k: nat)
    requires Periodic(t)
    ensures CarrierAt(t, angle + k as real * t.twoPi) == CarrierAt(t, angle)
  {
    if k > 0 {
      TurnsRepeat(t, angle, k - 1);
      assert k as real * t.twoPi == (k - 1) as real * t.twoPi + t.twoPi;
      assert CarrierAt(t, (angle + (k - 1) as real * t.twoPi) + t.twoPi)
             == CarrierAt(t, angle + (k - 1) as real * t.twoPi);
    }
  }

  lemma Negated(k: int, m: real)
    ensures (-k) as real * m == -(k as real * m)
  {
  }

  /** And so are its carriers. */
  lemma CarrierCarriesOver(t: Trig, first: real, step: real, block: nat, i: nat)
    requires Periodic(t) && t.twoPi > 0.0
    ensures CarrierOf(t, Fmod(Ramp(first, step, block), t.twoPi), step)(i) == CarrierOf(t, first, step)(block + i)
  {
    var k := FmodIsCongruent(Ramp(first, step, block), t.twoPi);
    var next := Ramp(Fmod(Ramp(first, step, block), t.twoPi), step, i);
    RampAdds(first, step, block, i);
    WholeTurns(t, Ramp(first, step, block + i), next, k);
  }

  lemma WholeTurns(t: Trig, whole: real, next: real, k: int)
    requires Periodic(t) && whole == next + k as real * t.twoPi
    ensures CarrierAt(t, whole) == CarrierAt(t, next)
  {
    if k >= 0 {
      TurnsRepeat(t, next, k);
    } else {
      Negated(k, t.twoPi);
      TurnsRepeat(t, whole, -k);
      assert whole + (-k) as real * t.twoPi == next;
    }
  }

  ghost function DefinedTerms(input: seq<Complex>, carrier: nat -> Complex, chips: nat -> Chips): nat -> Sums {
    (i: nat) => if i < |input| then Contribution(input[i], carrier(i), chips(i)) else NOTHING
  }

  lemma TermsAsDefined(input: seq<Complex>,
                       want: nat -> Complex, wantChips: nat -> Chips, carrier: seq<Complex>, chips: seq<Chips>)
    requires |carrier| == |chips| <= |input|
    requires forall i: nat | i < |carrier| :: carrier[i] == want(i)
    requires forall i: nat | i < |chips| :: chips[i] == wantChips(i)
    ensures AreTerms(DefinedTerms(input, want, wantChips), input, carrier, chips)
  {
    var f := DefinedTerms(input, want, wantChips);
    forall i: nat | i < |carrier| ensures IsTerm(f, input, carrier, chips, i) {
      assert chips[i] == wantChips(i);
    }
  }
}
