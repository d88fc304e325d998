/** What the correlator of Source/Tracking/GPSOpenClTracking.cpp makes of the signal it tracks. */
module OwnSignal {
  import opened Correlators

  ghost predicate OnUnitCircle(t: Trig) { forall angle: real :: UnitAt(t, angle) }
  ghost predicate UnitAt(t: Trig, angle: real) {
    t.cos(angle) * t.cos(angle) + t.sin(angle) * t.sin(angle) == 1.0
  }

  ghost predicate IsBinary(code: seq<real>) { forall k | 0 <= k < |code| :: code[k] == 1.0 || code[k] == -1.0 }

  /** A sample that is v times the amplitude times the carrier. */
  ghost predicate Carries(x: Complex, amplitude: Complex, v: real, t: Trig, angle: real) {
    && x.re == v * (amplitude.re * t.cos(angle) - amplitude.im * t.sin(angle))
    && x.im == v * (amplitude.re * t.sin(angle) + amplitude.im * t.cos(angle))
  }

  /** Such a sample contributes v times the amplitude times each chip. */
  lemma CarrierIsWiped(x: Complex, amplitude: Complex, v: real, t: Trig, angle: real, chips: Chips)
    requires UnitAt(t, angle) && Carries(x, amplitude, v, t, angle)
    ensures var a, s := amplitude, Contribution(x, CarrierAt(t, angle), chips);
            && s.ie == a.re * (v * chips.early) && s.ip == a.re * (v * chips.prompt) && s.il == a.re * (v * chips.late)
            && s.qe == a.im * (v * chips.early) && s.qp == a.im * (v * chips.prompt) && s.ql == a.im * (v * chips.late)
  {
    Rotation(v, amplitude.re, amplitude.im, t.cos(angle), t.sin(angle));
    var re := x.re * t.cos(angle) + x.im * t.sin(angle);
    var im := x.im * t.cos(angle) - x.re * t.sin(angle);
    Reordered(v, amplitude.re, re, chips);
    Reordered(v, amplitude.im, im, chips);
  }

  lemma Rotation(v: real, p: real, q: real, c: real, s: real)
    requires c * c + s * s == 1.0
    ensures v * (p * c - q * s) * c + v * (p * s + q * c) * s == v * p
    ensures v * (p * s + q * c) * c - v * (p * c - q * s) * s == v * q
  {
    assert (p * c - q * s) * c + (p * s + q * c) * s == p * (c * c + s * s);
    assert (p * s + q * c) * c - (p * c - q * s) * s == q * (c * c + s * s);
    Factor(v, p * c - q * s, c, p * s + q * c, s);
    Factor(v, p * s + q * c, c, -(p * c - q * s), s);
  }

  lemma Factor(v: real, a: real, b: real, c: real, d: real)
    ensures v * a * b + v * c * d == v * (a * b + c * d)
  {
  }

  lemma Reordered(v: real, p: real, re: real, chips: Chips)
    requires re == v * p
    ensures re * chips.early == p * (v * chips.early) && re * chips.prompt == p * (v * chips.prompt)
            && re * chips.late == p * (v * chips.late)
  {
  }

  /** The code's chip under a phase times its chip under the shifted one. */
  function Agreement(code: seq<real>, phase: real, shift: real): real
    requires |code| == CODE_LENGTH
  {
    code[phase.Floor % CODE_LENGTH] * code[(phase + shift).Floor % CODE_LENGTH]
  }

  /** How far the code agrees with itself shifted, over n samples. */
  ghost function Overlap(code: seq<real>, first: real, step: real, shift: real, n: nat): real
    requires |code| == CODE_LENGTH
  {
    if n == 0 then 0.0
    else Overlap(code, first, step, shift, n - 1) + Agreement(code, Ramp(first, step, n - 1), shift)
  }

  /** The input is the code at these phases on a carrier at these angles. */
  ghost predicate IsReplica(input: seq<Complex>, t: Trig, code: seq<real>, amplitude: Complex, angle: real,
                            angleStep: real, first: real, step: real)
    requires |code| == CODE_LENGTH
  {
    forall i: nat | i < |input| :: ReplicaAt(input[i], t, code, amplitude, angle, angleStep, first, step, i)
  }

  ghost predicate ReplicaAt(x: Complex, t: Trig, code: seq<real>, amplitude: Complex, angle: real, angleStep: real,
                            first: real, step: real, i: nat)
    requires |code| == CODE_LENGTH
  {
    Carries(x, amplitude, code[Ramp(first, step, i).Floor % CODE_LENGTH], t, Ramp(angle, angleStep, i))
  }

  /** The amplitude times a share for each correlator. */
  function Spread(a: Complex, early: real, prompt: real, late: real): Sums {
    Sums(a.re * early, a.im * early, a.re * prompt, a.im * prompt, a.re * late, a.im * late)
  }

  lemma SpreadAdds(a: Complex, early: real, prompt: real, late: real, e: real, p: real, l: real)
    ensures Plus(Spread(a, early, prompt, late), Spread(a, e, p, l)) == Spread(a, early + e, prompt + p, late + l)
  {
  }

  /** What the correlators make of such a sample. */
  function Agreements(amplitude: Complex, code: seq<real>, phase: real): Sums
    requires |code| == CODE_LENGTH
  {
    Spread(amplitude, Agreement(code, phase, -0.5), Agreement(code, phase, 0.0), Agreement(code, phase, 0.5))
  }

  lemma SampleAgrees(x: Complex, t: Trig, code: seq<real>, amplitude: Complex, angle: real, phase: real)
    requires |code| == CODE_LENGTH && UnitAt(t, angle)
    requires Carries(x, amplitude, code[phase.Floor % CODE_LENGTH], t, angle)
    ensures Contribution(x, CarrierAt(t, angle), ChipsAt(code, phase)) == Agreements(amplitude, code, phase)
  {
    CarrierIsWiped(x, amplitude, code[phase.Floor % CODE_LENGTH], t, angle, ChipsAt(code, phase));
    assert phase - 0.5 == phase + -0.5 && phase == phase + 0.0;
  }

  lemma ReplicaTerm(input: seq<Complex>, t: Trig, code: seq<real>, amplitude: Complex, angle: real, angleStep: real,
                    first: real, step: real, i: nat)
    requires |code| == CODE_LENGTH && OnUnitCircle(t) && i < |input|
    requires IsReplica(input, t, code, amplitude, angle, angleStep, first, step)
    ensures DefinedTerms(input, CarrierOf(t, angle, angleStep), ChipsOf(code, first, step))(i)
         == Agreements(amplitude, code, Ramp(first, step, i))
  {
    assert ReplicaAt(input[i], t, code, amplitude, angle, angleStep, first, step, i);
    assert UnitAt(t, Ramp(angle, angleStep, i));
    SampleAgrees(input[i], t, code, amplitude, Ramp(angle, angleStep, i), Ramp(first, step, i));
  }

  /** Then each pair of sums is the amplitude times the overlap half a chip early, in place, or half a chip late. */
  lemma {:induction false} ReplicaSums(input: seq<Complex>, t: Trig, code: seq<real>, amplitude: Complex, angle: real,
                                       angleStep: real, first: real, step: real, n: nat)
    requires |code| == CODE_LENGTH && OnUnitCircle(t) && n <= |input|
    requires IsReplica(input, t, code, amplitude, angle, angleStep, first, step)
    ensures PlainSum(DefinedTerms(input, CarrierOf(t, angle, angleStep), ChipsOf(code, first, step)), n)
         == Spread(amplitude, Overlap(code, first, step, -0.5, n), Overlap(code, first, step, 0.0, n),
                   Overlap(code, first, step, 0.5, n))
  {
    if n > 0 {
      ReplicaSums(input, t, code, amplitude, angle, angleStep, first, step, n - 1);
      ReplicaTerm(input, t, code, amplitude, angle, angleStep, first, step, n - 1);
      var phase := Ramp(first, step, n - 1);
      SpreadAdds(amplitude, Overlap(code, first, step, -0.5, n - 1), Overlap(code, first, step, 0.0, n - 1),
                 Overlap(code, first, step, 0.5, n - 1), Agreement(code, phase, -0.5), Agreement(code, phase, 0.0),
                 Agreement(code, phase, 0.5));
    }
  }

  /** In place the code agrees with itself everywhere. */
  lemma {:induction false} OverlapInPlace(code: seq<real>, first: real, step: real, n: nat)
    requires |code| == CODE_LENGTH && IsBinary(code)
    ensures Overlap(code, first, step, 0.0, n) == n as real
  {
    if n > 0 {
      OverlapInPlace(code, first, step, n - 1);
      var phase := Ramp(first, step, n - 1);
      assert phase + 0.0 == phase;
      var k := phase.Floor % CODE_LENGTH;
      assert code[k] * code[k] == 1.0;
    }
  }

  lemma StepIs(t: Tracking, angleStep: real)
    requires t.samplingFrequency > 0.0 && angleStep * t.samplingFrequency == t.trig.twoPi * t.carrierFrequency
    ensures t.PhaseStep() == angleStep
  {
  }

  /** For input that is the satellite's own signal, at the frequency and phases the tracking holds, the prompt sums of
    * a block are the amplitude times the number of samples, and the early and late ones the amplitude times the
    * overlap half a chip before and after. */
  lemma OwnSignalSums(t: Tracking, input: seq<Complex>, code: seq<real>, amplitude: Complex, angleStep: real, n: nat)
    requires |code| == CODE_LENGTH && IsBinary(code) && t.samplingFrequency > 0.0 && OnUnitCircle(t.trig)
    requires angleStep * t.samplingFrequency == t.trig.twoPi * t.carrierFrequency && n <= |input|
    requires IsReplica(input, t.trig, code, amplitude, t.remCarrierPhase, angleStep, t.remCodePhase, t.codePhaseStep)
    ensures PlainSum(t.Definition(input, code), n)
         == Spread(amplitude, Overlap(code, t.remCodePhase, t.codePhaseStep, -0.5, n), n as real,
                   Overlap(code, t.remCodePhase, t.codePhaseStep, 0.5, n))
  {
    StepIs(t, angleStep);
    SameSums(t, input, code, angleStep, n);
    BinarySums(input, t.trig, code, amplitude, t.remCarrierPhase, angleStep, t.remCodePhase, t.codePhaseStep, n);
  }

  lemma SameSums(t: Tracking, input: seq<Complex>, code: seq<real>, angleStep: real, n: nat)
    requires |code| == CODE_LENGTH && t.samplingFrequency > 0.0 && t.PhaseStep() == angleStep
    ensures PlainSum(t.Definition(input, code), n)
         == PlainSum(DefinedTerms(input, CarrierOf(t.trig, t.remCarrierPhase, angleStep),
                                  ChipsOf(code, t.remCodePhase, t.codePhaseStep)), n)
  {
  }

  lemma BinarySums(input: seq<Complex>, t: Trig, code: seq<real>, amplitude: Complex, angle: real, angleStep: real,
                   first: real, step: real, n: nat)
    requires |code| == CODE_LENGTH && IsBinary(code) && OnUnitCircle(t) && n <= |input|
    requires IsReplica(input, t, code, amplitude, angle, angleStep, first, step)
    ensures PlainSum(DefinedTerms(input, CarrierOf(t, angle, angleStep), ChipsOf(code, first, step)), n)
         == Spread(amplitude, Overlap(code, first, step, -0.5, n), n as real, Overlap(code, first, step, 0.5, n))
  {
    ReplicaSums(input, t, code, amplitude, angle, angleStep, first, step, n);
    OverlapInPlace(code, first, step, n);
  }
}
