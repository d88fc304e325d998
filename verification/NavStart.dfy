/** Where the matched filter of Source/NavDecode/GPSOpenClNavigationDecoder.cpp puts the start of a
  * subframe that was sent without noise, whatever share of its bits' first samples belongs to the bit before.
  */
module NavStart {
  import opened Numbers
  import opened NavBits
  import opened Parity
  import opened NavDecoding
  import opened NavHistory

  // ----- the signal

  const SENT_BITS: nat := 302

  /** The share f of a bit's first sample still belongs to the bit before it. */
  function FirstSample(f: real, previous: bool, bit: bool): real { f * Sign(previous) + (1.0 - f) * Sign(bit) }

  /** Sample k of bit j, where bit 0 is the one before the subframe. */
  ghost predicate SampleAt(x: seq<real>, start: nat, sent: BitString, a: real, f: real, j: nat, k: nat)
    requires j < |sent| && start >= PERIODS
  {
    var first := start - PERIODS;
    && first + PERIODS * j + k < |x|
    && (k > 0 ==> x[first + PERIODS * j + k] == a * Sign(sent[j]))
    && (k == 0 && j > 0 ==> x[first + PERIODS * j] == a * FirstSample(f, sent[j - 1], sent[j]))
  }

  /** The 300 bits from sample start and one more on either side, twenty samples each, at amplitude a. */
  ghost predicate Carries(x: seq<real>, start: nat, sent: BitString, a: real, f: real) {
    && |sent| == SENT_BITS && start >= PERIODS
    && forall j: nat, k: nat | j < SENT_BITS && k < PERIODS :: SampleAt(x, start, sent, a, f, j, k)
  }

  predicate Turns(sent: BitString, j: nat)
    requires 0 < j < |sent|
  {
    sent[j] != sent[j - 1]
  }

  function One(b: bool): real { if b then 1.0 else 0.0 }

  /** How many of bits 2 to n differ from the bit before, bit 1 being the first of the subframe. */
  function Changes(sent: BitString, n: nat): (c: nat)
    requires n < |sent|
    ensures c <= n
    ensures n > 0 ==> c < n
  {
    if n < 2 then 0 else Changes(sent, n - 1) + if Turns(sent, n) then 1 else 0
  }

  // ----- what one bit adds

  lemma Stretch(x: seq<real>, start: nat, sent: BitString, a: real, f: real, j: nat, from: nat, n: nat)
    requires Carries(x, start, sent, a, f) && j < SENT_BITS && 0 < from && from + n <= PERIODS
    ensures start - PERIODS + PERIODS * j + from + n <= |x|
    ensures SumFrom(x, start - PERIODS + PERIODS * j + from, n) == n as real * (a * Sign(sent[j]))
  {
    var base := start - PERIODS + PERIODS * j;
    forall i | base + from <= i < base + from + n ensures i < |x| && x[i] == a * Sign(sent[j]) {
      assert SampleAt(x, start, sent, a, f, j, i - base);
    }
    assert SampleAt(x, start, sent, a, f, j, PERIODS - 1);
    ConstantSum(x, base + from, n, a * Sign(sent[j]));
  }

  lemma {:induction false} SumSplits(x: seq<real>, base: nat, m: nat, n: nat)
    requires base + m + n <= |x|
    ensures SumFrom(x, base, m + n) == SumFrom(x, base, m) + SumFrom(x, base + m, n)
  {
    if n > 0 { SumSplits(x, base, m, n - 1); }
  }

  lemma OneSample(x: seq<real>, base: nat)
    requires base < |x|
    ensures SumFrom(x, base, 1) == x[base]
  {
    assert SumFrom(x, base, 0) == 0.0;
  }

  /** The samples around bit j: the last two of the bit before, its own, and the first two of the next. */
  lemma Around(x: seq<real>, start: nat, sent: BitString, a: real, f: real, j: nat)
    requires Carries(x, start, sent, a, f) && 0 < j < SENT_BITS - 1
    ensures var b := start + PERIODS * (j - 1);
            && b >= 2 && b + PERIODS + 2 <= |x|
            && x[b - 2] == x[b - 1] == a * Sign(sent[j - 1]) && x[b] == a * FirstSample(f, sent[j - 1], sent[j])
            && x[b + 1] == x[b + 2] == a * Sign(sent[j])
            && x[b + PERIODS] == a * FirstSample(f, sent[j], sent[j + 1]) && x[b + PERIODS + 1] == a * Sign(sent[j + 1])
  {
    IsSample(x, start, sent, a, f, j - 1, 18);
    IsSample(x, start, sent, a, f, j - 1, 19);
    IsSample(x, start, sent, a, f, j, 0);
    IsSample(x, start, sent, a, f, j, 1);
    IsSample(x, start, sent, a, f, j, 2);
    IsSample(x, start, sent, a, f, j + 1, 0);
    IsSample(x, start, sent, a, f, j + 1, 1);
    IsSample(x, start, sent, a, f, j + 1, 2);
  }

  lemma IsSample(x: seq<real>, start: nat, sent: BitString, a: real, f: real, j: nat, k: nat)
    requires Carries(x, start, sent, a, f) && j < SENT_BITS && k < PERIODS
    ensures SampleAt(x, start, sent, a, f, j, k)
  {
  }

  /** The nineteen samples a candidate takes for bit j, as multiples of the amplitude. */
  function Nineteen(c: int, f: real, previous: bool, bit: bool, next: bool): real {
    if c == 0 then 19.0 * Sign(bit)
    else if c == -1 then FirstSample(f, previous, bit) + 18.0 * Sign(bit)
    else if c == -2 then Sign(previous) + FirstSample(f, previous, bit) + 17.0 * Sign(bit)
    else if c == 1 then 18.0 * Sign(bit) + FirstSample(f, bit, next)
    else 17.0 * Sign(bit) + FirstSample(f, bit, next) + Sign(next)
  }

  predicate IsCandidate(c: int) { -2 <= c <= 2 }

  lemma NineteenOwn(x: seq<real>, start: nat, sent: BitString, a: real, f: real, j: nat)
    requires Carries(x, start, sent, a, f) && 0 < j < SENT_BITS - 1
    ensures var b := start + PERIODS * (j - 1);
            b + 20 <= |x| && SumFrom(x, b + 1, 19) == a * Nineteen(0, f, sent[j - 1], sent[j], sent[j + 1])
  {
    Stretch(x, start, sent, a, f, j, 1, 19);
    Gathered(a, 0.0, 0.0, Sign(sent[j]), 19.0);
  }

  lemma NineteenEarly(x: seq<real>, start: nat, sent: BitString, a: real, f: real, j: nat)
    requires Carries(x, start, sent, a, f) && 0 < j < SENT_BITS - 1
    ensures var b := start + PERIODS * (j - 1);
            && b >= 2 && b + 20 <= |x|
            && SumFrom(x, b, 19) == a * Nineteen(-1, f, sent[j - 1], sent[j], sent[j + 1])
            && SumFrom(x, b - 1, 19) == a * Nineteen(-2, f, sent[j - 1], sent[j], sent[j + 1])
  {
    var b := start + PERIODS * (j - 1);
    Around(x, start, sent, a, f, j);
    Stretch(x, start, sent, a, f, j, 1, 18);
    Stretch(x, start, sent, a, f, j, 1, 17);
    OneSample(x, b);
    OneSample(x, b - 1);
    SumSplits(x, b, 1, 18);
    SumSplits(x, b, 1, 17);
    SumSplits(x, b - 1, 1, 18);
    var early := FirstSample(f, sent[j - 1], sent[j]);
    Gathered(a, early, Sign(sent[j - 1]), Sign(sent[j]), 18.0);
    Gathered(a, early, Sign(sent[j - 1]), Sign(sent[j]), 17.0);
  }

  lemma NineteenLate(x: seq<real>, start: nat, sent: BitString, a: real, f: real, j: nat)
    requires Carries(x, start, sent, a, f) && 0 < j < SENT_BITS - 1
    ensures var b := start + PERIODS * (j - 1);
            && b + 22 <= |x|
            && SumFrom(x, b + 2, 19) == a * Nineteen(1, f, sent[j - 1], sent[j], sent[j + 1])
            && SumFrom(x, b + 3, 19) == a * Nineteen(2, f, sent[j - 1], sent[j], sent[j + 1])
  {
    var b := start + PERIODS * (j - 1);
    Around(x, start, sent, a, f, j);
    Stretch(x, start, sent, a, f, j, 2, 18);
    Stretch(x, start, sent, a, f, j, 3, 17);
    OneSample(x, b + 20);
    OneSample(x, b + 21);
    SumSplits(x, b + 2, 18, 1);
    SumSplits(x, b + 3, 17, 1);
    SumSplits(x, b + 3, 18, 1);
    var late := FirstSample(f, sent[j], sent[j + 1]);
    Gathered(a, late, Sign(sent[j + 1]), Sign(sent[j]), 18.0);
    Gathered(a, late, Sign(sent[j + 1]), Sign(sent[j]), 17.0);
  }

  lemma Gathered(a: real, p: real, q: real, r: real, n: real)
    ensures a * p + n * (a * r) == a * (p + n * r)
    ensures a * q + a * p + n * (a * r) == a * (q + p + n * r)
  {
    assert n * (a * r) == a * (n * r);
  }

  lemma NineteenIs(x: seq<real>, start: nat, sent: BitString, a: real, f: real, j: nat, c: int)
    requires Carries(x, start, sent, a, f) && 0 < j < SENT_BITS - 1 && IsCandidate(c)
    ensures var b := start + PERIODS * (j - 1) + c + 1;
            0 <= b && b + 19 <= |x| && SumFrom(x, b, 19) == a * Nineteen(c, f, sent[j - 1], sent[j], sent[j + 1])
  {
    if c == 0 {
      NineteenOwn(x, start, sent, a, f, j);
    } else if c < 0 {
      NineteenEarly(x, start, sent, a, f, j);
    } else {
      NineteenLate(x, start, sent, a, f, j);
    }
  }

  // ----- what it loses

  /** Of 20, or of 19 for the first bit, each change of a bit costs a candidate: in the filter's model of the shared
    * sample, in the samples it takes of the bit before, and in those it takes of the bit after. */
  datatype Loss = Loss(shared: real, early: real, late: real)

  function LossOf(c: int, e: real, f: real): Loss {
    if c == 0 then Loss(2.0 * e + 2.0 * f - 4.0 * (e * f), 0.0, 0.0)
    else if c == -1 then Loss(2.0 - 2.0 * e, 2.0 * f, 0.0)
    else if c == -2 then Loss(2.0 - 2.0 * e, 2.0 + 2.0 * f, 0.0)
    else if c == 1 then Loss(2.0 * e, 0.0, 2.0 - 2.0 * f)
    else Loss(2.0 * e, 0.0, 4.0 - 2.0 * f)
  }

  function If(b: bool, v: real): real { if b then v else 0.0 }

  lemma NineteenLoses(c: int, e: real, f: real, previous: bool, bit: bool, next: bool)
    requires IsCandidate(c)
    ensures Sign(bit) * Nineteen(c, f, previous, bit, next)
         == 19.0 - If(bit != previous, LossOf(c, e, f).early) - If(next != bit, LossOf(c, e, f).late)
  {
  }

  /** The sample a candidate takes for the first of bit j. */
  function BoundarySample(c: int, f: real, previous: bool, bit: bool): real {
    if c == 0 then FirstSample(f, previous, bit) else if c < 0 then Sign(previous) else Sign(bit)
  }

  lemma BoundaryLoses(c: int, e: real, f: real, a: real, previous: bool, bit: bool)
    requires IsCandidate(c)
    ensures BoundaryTerm(e, previous, bit, a * BoundarySample(c, f, previous, bit))
         == a * (1.0 - If(bit != previous, LossOf(c, e, f).shared))
  {
  }

  lemma BoundaryIs(x: seq<real>, start: nat, sent: BitString, a: real, f: real, j: nat, c: int)
    requires Carries(x, start, sent, a, f) && 0 < j < SENT_BITS - 1 && IsCandidate(c)
    ensures var b := start + PERIODS * (j - 1) + c;
            0 <= b < |x| && x[b] == a * BoundarySample(c, f, sent[j - 1], sent[j])
  {
    Around(x, start, sent, a, f, j);
  }

  /** What bit i of the filter finds, in units of the amplitude. */
  function Gain(loss: Loss, previous: bool, bit: bool, next: bool, inner: bool): real {
    19.0 - If(bit != previous, loss.early) - If(next != bit, loss.late)
    + if inner then 1.0 - If(bit != previous, loss.shared) else 0.0
  }

  lemma TermIs(x: seq<real>, bits: BitString, start: nat, e: real, i: nat, sum: real, shared: real)
    requires |bits| == SUBFRAME_BITS && start + SUBFRAME_SAMPLES <= |x| && i < SUBFRAME_BITS
    requires SumFrom(x, start + PERIODS * i + 1, 19) == sum
    requires i > 0 ==> BoundaryTerm(e, bits[i - 1], bits[i], x[start + PERIODS * i]) == shared
    ensures MatchTerm(x, bits, start, e, i) == Sign(bits[i]) * sum + if i > 0 then shared else 0.0
  {
  }

  lemma AddsUp(a: real, s: real, v: real, g: real, kept: real, inner: bool)
    requires s * v == g
    ensures s * (a * v) + (if inner then a * kept else 0.0) == a * (g + if inner then kept else 0.0)
  {
    assert s * (a * v) == a * g;
  }

  /** The sum a candidate takes for bit i, in units of the amplitude. */
  lemma SumGains(x: seq<real>, start: nat, sent: BitString, a: real, e: real, f: real, c: int, i: nat, loss: Loss)
    returns (v: real)
    requires Carries(x, start, sent, a, f) && IsCandidate(c) && i < SUBFRAME_BITS && loss == LossOf(c, e, f)
    ensures var b := start + PERIODS * i + c + 1; 0 <= b && b + 19 <= |x| && SumFrom(x, b, 19) == a * v
    ensures Sign(sent[i + 1]) * v
         == 19.0 - If(sent[i + 1] != sent[i], loss.early) - If(sent[i + 2] != sent[i + 1], loss.late)
  {
    v := Nineteen(c, f, sent[i], sent[i + 1], sent[i + 2]);
    NineteenIs(x, start, sent, a, f, i + 1, c);
    NineteenLoses(c, e, f, sent[i], sent[i + 1], sent[i + 2]);
  }

  /** And its first sample, weighed by the filter. */
  lemma SharedGains(x: seq<real>, start: nat, sent: BitString, a: real, e: real, f: real, c: int, i: nat, loss: Loss)
    requires Carries(x, start, sent, a, f) && IsCandidate(c) && i < SUBFRAME_BITS && loss == LossOf(c, e, f)
    ensures var b := start + PERIODS * i + c;
            0 <= b < |x| && BoundaryTerm(e, sent[i], sent[i + 1], x[b])
                            == a * (1.0 - If(sent[i + 1] != sent[i], loss.shared))
  {
    BoundaryIs(x, start, sent, a, f, i + 1, c);
    BoundaryLoses(c, e, f, a, sent[i], sent[i + 1]);
  }

  lemma TermGains(x: seq<real>, start: nat, sent: BitString, bits: BitString, a: real, e: real, f: real, c: int, i: nat,
                  loss: Loss)
    requires Carries(x, start, sent, a, f) && bits == sent[1..301] && IsCandidate(c) && i < SUBFRAME_BITS
    requires start + c + SUBFRAME_SAMPLES <= |x| && loss == LossOf(c, e, f)
    ensures MatchTerm(x, bits, start + c, e, i) == a * Gain(loss, sent[i], sent[i + 1], sent[i + 2], i > 0)
  {
    var v := SumGains(x, start, sent, a, e, f, c, i, loss);
    SharedGains(x, start, sent, a, e, f, c, i, loss);
    TermAdds(x, sent, bits, start + c, a, e, i, v, loss);
  }

  lemma TermAdds(x: seq<real>, sent: BitString, bits: BitString, start: nat, a: real, e: real, i: nat, v: real,
                 loss: Loss)
    requires |sent| == SENT_BITS && bits == sent[1..301] && i < SUBFRAME_BITS && start + SUBFRAME_SAMPLES <= |x|
    requires SumFrom(x, start + PERIODS * i + 1, 19) == a * v
    requires Sign(sent[i + 1]) * v
          == 19.0 - If(sent[i + 1] != sent[i], loss.early) - If(sent[i + 2] != sent[i + 1], loss.late)
    requires BoundaryTerm(e, sent[i], sent[i + 1], x[start + PERIODS * i])
          == a * (1.0 - If(sent[i + 1] != sent[i], loss.shared))
    ensures MatchTerm(x, bits, start, e, i) == a * Gain(loss, sent[i], sent[i + 1], sent[i + 2], i > 0)
  {
    var kept := 1.0 - If(sent[i + 1] != sent[i], loss.shared);
    TermIs(x, bits, start, e, i, a * v, a * kept);
    AddsUp(a, Sign(sent[i + 1]), v, Sign(sent[i + 1]) * v, kept, i > 0);
  }

  // adding them up

  function SumOf(term: nat -> real, n: nat): real { if n == 0 then 0.0 else SumOf(term, n - 1) + term(n - 1) }

  lemma {:induction false} SumScales(a: real, term: nat -> real, gain: nat -> real, n: nat)
    requires forall i: nat | i < n :: term(i) == a * gain(i)
    ensures SumOf(term, n) == a * SumOf(gain, n)
  {
    if n > 0 {
      SumScales(a, term, gain, n - 1);
      StepAdds(a, SumOf(term, n - 1), SumOf(gain, n - 1), term(n - 1), gain(n - 1));
    }
  }

  lemma StepAdds(a: real, sum: real, gains: real, term: real, gain: real)
    requires sum == a * gains && term == a * gain
    ensures sum + term == a * (gains + gain)
  {
  }

  lemma {:induction false} MatchIsSum(x: seq<real>, bits: BitString, start: nat, e: real, term: nat -> real, n: nat)
    requires |bits| == SUBFRAME_BITS && start + SUBFRAME_SAMPLES <= |x| && n <= SUBFRAME_BITS
    requires forall i: nat | i < SUBFRAME_BITS :: term(i) == MatchTerm(x, bits, start, e, i)
    ensures Match(x, bits, start, e, n) == SumOf(term, n)
  {
    if n > 0 { MatchIsSum(x, bits, start, e, term, n - 1); }
  }

  function Terms(x: seq<real>, bits: BitString, start: nat, e: real): nat -> real
    requires |bits| == SUBFRAME_BITS && start + SUBFRAME_SAMPLES <= |x|
  {
    (i: nat) => if i < SUBFRAME_BITS then MatchTerm(x, bits, start, e, i) else 0.0
  }

  function GainOf(sent: BitString, loss: Loss, i: nat): real {
    if i + 2 < |sent| then Gain(loss, sent[i], sent[i + 1], sent[i + 2], i > 0) else 0.0
  }

  function Gains(sent: BitString, loss: Loss): nat -> real { (i: nat) => GainOf(sent, loss, i) }

  lemma TermIsGain(x: seq<real>, start: nat, sent: BitString, bits: BitString, a: real, e: real, f: real, c: int,
                   loss: Loss, at: nat, i: nat)
    requires Carries(x, start, sent, a, f) && bits == sent[1..301] && IsCandidate(c)
    requires at == start + c && at + SUBFRAME_SAMPLES <= |x| && loss == LossOf(c, e, f) && i < SUBFRAME_BITS
    ensures Terms(x, bits, at, e)(i) == a * Gains(sent, loss)(i)
  {
    TermGains(x, start, sent, bits, a, e, f, c, i, loss);
    TermsAt(x, bits, at, sent, e, loss, i);
  }

  lemma TermsAt(x: seq<real>, bits: BitString, at: nat, sent: BitString, e: real, loss: Loss, i: nat)
    requires |bits| == SUBFRAME_BITS && at + SUBFRAME_SAMPLES <= |x| && |sent| == SENT_BITS && i < SUBFRAME_BITS
    ensures Terms(x, bits, at, e)(i) == MatchTerm(x, bits, at, e, i)
    ensures Gains(sent, loss)(i) == Gain(loss, sent[i], sent[i + 1], sent[i + 2], i > 0)
  {
  }

  ghost predicate GainsEach(term: nat -> real, gain: nat -> real, a: real) {
    forall i: nat | i < SUBFRAME_BITS :: GainsAt(term, gain, a, i)
  }

  ghost predicate GainsAt(term: nat -> real, gain: nat -> real, a: real, i: nat) { term(i) == a * gain(i) }

  lemma EachGains(x: seq<real>, start: nat, sent: BitString, bits: BitString, a: real, e: real, f: real, c: int,
                  loss: Loss, at: nat)
    requires Carries(x, start, sent, a, f) && bits == sent[1..301] && IsCandidate(c)
    requires at == start + c && at + SUBFRAME_SAMPLES <= |x| && loss == LossOf(c, e, f)
    ensures GainsEach(Terms(x, bits, at, e), Gains(sent, loss), a)
  {
    forall i: nat | i < SUBFRAME_BITS ensures GainsAt(Terms(x, bits, at, e), Gains(sent, loss), a, i) {
      TermIsGain(x, start, sent, bits, a, e, f, c, loss, at, i);
    }
  }

  lemma EachScales(term: nat -> real, gain: nat -> real, a: real, n: nat)
    requires GainsEach(term, gain, a) && n <= SUBFRAME_BITS
    ensures SumOf(term, n) == a * SumOf(gain, n)
  {
    forall i: nat | i < n ensures term(i) == a * gain(i) {
      assert GainsAt(term, gain, a, i);
    }
    SumScales(a, term, gain, n);
  }

  lemma TermsSum(x: seq<real>, bits: BitString, at: nat, e: real, n: nat)
    requires |bits| == SUBFRAME_BITS && at + SUBFRAME_SAMPLES <= |x| && n <= SUBFRAME_BITS
    ensures Match(x, bits, at, e, n) == SumOf(Terms(x, bits, at, e), n)
  {
    MatchIsSum(x, bits, at, e, Terms(x, bits, at, e), n);
  }

  lemma MatchGains(x: seq<real>, bits: BitString, at: nat, e: real, a: real, gain: nat -> real, n: nat)
    requires |bits| == SUBFRAME_BITS && at + SUBFRAME_SAMPLES <= |x| && n <= SUBFRAME_BITS
    requires GainsEach(Terms(x, bits, at, e), gain, a)
    ensures Match(x, bits, at, e, n) == a * SumOf(gain, n)
  {
    TermsSum(x, bits, at, e, n);
    EachScales(Terms(x, bits, at, e), gain, a, n);
  }

  /** What a change inside costs. */
  function Lost(loss: Loss): real { loss.shared + loss.early + loss.late }

  /** What n bits gain, by the changes among them and at either end. */
  function Counted(loss: Loss, n: nat, inner: nat, before: bool, after: bool): real {
    20.0 * n as real - 1.0 - inner as real * Lost(loss)
    - If(before, loss.early) - If(after, loss.late)
  }

  lemma {:induction false} GainsCounted(sent: BitString, loss: Loss, n: nat)
    requires |sent| == SENT_BITS && 1 <= n <= SUBFRAME_BITS
    ensures SumOf(Gains(sent, loss), n) == Counted(loss, n, Changes(sent, n), Turns(sent, 1), Turns(sent, n + 1))
  {
    var gain := Gains(sent, loss);
    assert gain(n - 1) == Gain(loss, sent[n - 1], sent[n], sent[n + 1], n > 1);
    if n == 1 {
      assert SumOf(gain, 0) == 0.0;
    } else {
      GainsCounted(sent, loss, n - 1);
      CountOn(loss, n, Changes(sent, n - 1), Turns(sent, 1), Turns(sent, n), Turns(sent, n + 1));
    }
  }

  lemma CountOn(loss: Loss, n: nat, inner: nat, before: bool, turn: bool, after: bool)
    requires n > 1
    ensures Counted(loss, n - 1, inner, before, turn)
            + (20.0 - If(turn, loss.early) - If(after, loss.late) - If(turn, loss.shared))
         == Counted(loss, n, if turn then inner + 1 else inner, before, after)
  {
    OneMore(inner as real, (inner + 1) as real, Lost(loss));
  }

  lemma OneMore(n: real, m: real, v: real)
    requires m == n + 1.0
    ensures m * v == n * v + v
  {
  }

  // ----- so the best candidate is known

  predicate Share(f: real) { 0.0 <= f <= 1.0 }

  /** What the whole subframe gains at a candidate. */
  function Whole(sent: BitString, loss: Loss): real
    requires |sent| == SENT_BITS
  {
    Counted(loss, SUBFRAME_BITS, Changes(sent, SUBFRAME_BITS), Turns(sent, 1), Turns(sent, 301))
  }

  predicate Moderate(loss: Loss) { 0.0 <= loss.shared <= 2.0 && 0.0 <= loss.early <= 4.0 && 0.0 <= loss.late <= 4.0 }

  lemma LossIsModerate(c: int, e: real, f: real)
    requires Share(e) && Share(f)
    ensures Moderate(LossOf(c, e, f))
  {
    NotNegative(e, f);
    NotNegative(e, 1.0 - f);
    NotNegative(1.0 - e, f);
    NotNegative(1.0 - e, 1.0 - f);
  }

  lemma NotNegative(p: real, q: real)
    requires p >= 0.0 && q >= 0.0
    ensures p * q >= 0.0
  {
  }

  lemma WholeIsPositive(loss: Loss, inner: nat, before: bool, after: bool)
    requires Moderate(loss) && inner < SUBFRAME_BITS
    ensures Counted(loss, SUBFRAME_BITS, inner, before, after) > 0.0
  {
    AtMostAll(inner as real, Lost(loss));
  }

  lemma AtMostAll(n: real, v: real)
    requires 0.0 <= n <= 299.0 && 0.0 <= v <= 10.0
    ensures n * v <= 2990.0
  {
    var rest := 299.0 - n;
    NotNegative(rest, v);
    Distributes(v, 299.0, n, rest);
  }

  lemma Distributes(n: real, p: real, q: real, d: real)
    requires d == p - q
    ensures n * d == n * p - n * q
  {
  }

  lemma AbsOfProduct(a: real, v: real)
    requires v > 0.0
    ensures Abs(a * v) == Abs(a) * v
  {
  }

  lemma MetricGains(x: seq<real>, bits: BitString, start: nat, c: int, e: real, a: real, gain: nat -> real,
                    whole: real)
    requires |bits| == SUBFRAME_BITS && Eligible(|x|, start, c)
    requires GainsEach(Terms(x, bits, start + c, e), gain, a)
    requires whole > 0.0 && SumOf(gain, SUBFRAME_BITS) == whole
    ensures Metric(x, bits, start, e, c) == Abs(a) * whole
  {
    MatchGains(x, bits, start + c, e, a, gain, SUBFRAME_BITS);
    AbsOfProduct(a, whole);
  }

  lemma WholeGains(sent: BitString, loss: Loss)
    requires |sent| == SENT_BITS && Moderate(loss)
    ensures Whole(sent, loss) > 0.0 && SumOf(Gains(sent, loss), SUBFRAME_BITS) == Whole(sent, loss)
  {
    GainsCounted(sent, loss, SUBFRAME_BITS);
    WholeIsPositive(loss, Changes(sent, SUBFRAME_BITS), Turns(sent, 1), Turns(sent, 301));
  }

  lemma WholeOf(sent: BitString, c: int, e: real, f: real, loss: Loss)
    requires |sent| == SENT_BITS && Share(e) && Share(f) && loss == LossOf(c, e, f)
    ensures Whole(sent, loss) > 0.0 && SumOf(Gains(sent, loss), SUBFRAME_BITS) == Whole(sent, loss)
  {
    LossIsModerate(c, e, f);
    WholeGains(sent, loss);
  }

  lemma IsEligible(x: seq<real>, start: nat, sent: BitString, a: real, f: real, c: int)
    requires Carries(x, start, sent, a, f) && IsCandidate(c)
    ensures Eligible(|x|, start, c)
  {
    IsSample(x, start, sent, a, f, 301, 19);
  }

  lemma MetricIs(x: seq<real>, start: nat, sent: BitString, bits: BitString, a: real, e: real, f: real, c: int,
                 loss: Loss)
    requires Carries(x, start, sent, a, f) && bits == sent[1..301] && IsCandidate(c) && Share(e) && Share(f)
    requires loss == LossOf(c, e, f)
    ensures Eligible(|x|, start, c) && Whole(sent, loss) > 0.0
    ensures Metric(x, bits, start, e, c) == Abs(a) * Whole(sent, loss)
  {
    IsEligible(x, start, sent, a, f, c);
    EachGains(x, start, sent, bits, a, e, f, c, loss, start + c);
    WholeOf(sent, c, e, f, loss);
    MetricGains(x, bits, start, c, e, a, Gains(sent, loss), Whole(sent, loss));
  }

  function Lean(e: real, f: real): real { 4.0 * (e * (1.0 - f)) - 2.0 }

  /** The filter takes more than half of the shared sample for the bit before, the signal less: seen from the first
    * start, and with what the change before the subframe weighs against the changes inside it. */
  predicate LeansEarly(inner: nat, before: bool, e: real, f: real) {
    inner as real * Lean(e, f) >= If(before, 2.0 * f)
  }

  /** The other way round. */
  predicate LeansLate(inner: nat, after: bool, e: real, f: real) {
    inner as real * Lean(f, e) > If(after, 2.0 - 2.0 * f)
  }

  function Value(c: int, inner: nat, before: bool, after: bool, e: real, f: real): real {
    Counted(LossOf(c, e, f), SUBFRAME_BITS, inner, before, after)
  }

  lemma OuterAreWorse(inner: nat, before: bool, after: bool, e: real, f: real)
    requires inner > 0
    ensures Value(-2, inner, before, after, e, f) < Value(-1, inner, before, after, e, f)
    ensures Value(2, inner, before, after, e, f) < Value(1, inner, before, after, e, f)
  {
    MoreIsLost(LossOf(-1, e, f), LossOf(-2, e, f), inner, before, after);
    MoreIsLost(LossOf(1, e, f), LossOf(2, e, f), inner, before, after);
  }

  lemma MoreIsLost(inside: Loss, outside: Loss, inner: nat, before: bool, after: bool)
    requires Lost(outside) == Lost(inside) + 2.0
    requires outside.early >= inside.early && outside.late >= inside.late && inner > 0
    ensures Counted(outside, SUBFRAME_BITS, inner, before, after) < Counted(inside, SUBFRAME_BITS, inner, before, after)
  {
    Apart(inner as real, Lost(inside), Lost(outside));
  }

  lemma Apart(n: real, inside: real, outside: real)
    requires outside == inside + 2.0
    ensures n * outside == n * inside + 2.0 * n
  {
  }

  lemma EarlyIff(inner: nat, before: bool, after: bool, e: real, f: real)
    ensures Value(-1, inner, before, after, e, f) >= Value(0, inner, before, after, e, f)
       <==> LeansEarly(inner, before, e, f)
  {
    Distributes(inner as real, Lost(LossOf(0, e, f)), Lost(LossOf(-1, e, f)), Lean(e, f));
  }

  lemma LateIff(inner: nat, before: bool, after: bool, e: real, f: real)
    ensures Value(1, inner, before, after, e, f) > Value(0, inner, before, after, e, f)
       <==> LeansLate(inner, after, e, f)
  {
    Distributes(inner as real, Lost(LossOf(0, e, f)), Lost(LossOf(1, e, f)), Lean(f, e));
  }

  lemma NotBoth(inner: nat, before: bool, after: bool, e: real, f: real)
    requires inner > 0 && Share(e) && Share(f)
    ensures !(LeansEarly(inner, before, e, f) && LeansLate(inner, after, e, f))
  {
    LeansCancel(e, f);
    NotBothPositive(inner as real, Lean(e, f), Lean(f, e));
  }

  lemma LeansCancel(e: real, f: real)
    requires Share(e) && Share(f)
    ensures Lean(e, f) + Lean(f, e) <= 0.0
  {
    NotNegative(1.0 - e, 1.0 - f);
    NotNegative(e, f);
    assert (1.0 - e) * (1.0 - f) + e * f == 1.0 - e * (1.0 - f) - f * (1.0 - e);
  }

  lemma NotBothPositive(n: real, p: real, q: real)
    requires n > 0.0 && p + q <= 0.0
    ensures !(n * p >= 0.0 && n * q > 0.0)
  {
    var sum := p + q;
    Distributes(n, sum, q, p);
    NotNegative(n, -sum);
    assert n * sum <= 0.0;
  }

  /** The candidate that the metrics favour. */
  function Favoured(inner: nat, before: bool, after: bool, e: real, f: real): int {
    if LeansEarly(inner, before, e, f) then -1 else if LeansLate(inner, after, e, f) then 1 else 0
  }

  /** Candidate c has the metric of its value. */
  ghost predicate Valued(x: seq<real>, bits: BitString, start: nat, e: real, c: int, scale: real, value: real)
    requires |bits| == SUBFRAME_BITS
  {
    Eligible(|x|, start, c) && Metric(x, bits, start, e, c) == scale * value
  }

  lemma OrderKept(scale: real, v: real, w: real, p: real, q: real)
    requires scale > 0.0 && p == scale * v && q == scale * w
    ensures p < q <==> v < w
  {
    var d := v - w;
    Distributes(scale, v, w, d);
    if v < w { Negative(scale, d); } else { NotNegative(scale, d); }
  }

  lemma BetterIff(x: seq<real>, bits: BitString, start: nat, e: real, scale: real, c: int, v: real, d: int, w: real)
    requires |bits| == SUBFRAME_BITS && scale > 0.0
    requires Valued(x, bits, start, e, c, scale, v) && Valued(x, bits, start, e, d, scale, w)
    ensures Metric(x, bits, start, e, c) < Metric(x, bits, start, e, d) <==> v < w
  {
    var p, q := Metric(x, bits, start, e, c), Metric(x, bits, start, e, d);
    OrderKept(scale, v, w, p, q);
  }

  /** If the values say so, the favoured candidate is the first of the best. */
  lemma BestOfFive(x: seq<real>, bits: BitString, start: nat, e: real, scale: real, best: int,
                   v0: real, v1: real, v2: real, v3: real, v4: real)
    requires |bits| == SUBFRAME_BITS && scale > 0.0 && IsBest(x, bits, start, e, 3, best) && v0 < v1 && v4 < v3
    requires Valued(x, bits, start, e, -2, scale, v0) && Valued(x, bits, start, e, -1, scale, v1)
    requires Valued(x, bits, start, e, 0, scale, v2)
    requires Valued(x, bits, start, e, 1, scale, v3) && Valued(x, bits, start, e, 2, scale, v4)
    requires !(v1 >= v2 && v3 > v2)
    ensures best == if v1 >= v2 then -1 else if v3 > v2 then 1 else 0
  {
    BetterIff(x, bits, start, e, scale, -2, v0, -1, v1);
    BetterIff(x, bits, start, e, scale, -1, v1, 0, v2);
    BetterIff(x, bits, start, e, scale, 0, v2, 1, v3);
    BetterIff(x, bits, start, e, scale, -1, v1, 1, v3);
    BetterIff(x, bits, start, e, scale, 2, v4, 1, v3);
  }

  lemma IsValued(x: seq<real>, start: nat, sent: BitString, bits: BitString, a: real, e: real, f: real, c: int)
    requires Carries(x, start, sent, a, f) && bits == sent[1..301] && IsCandidate(c) && Share(e) && Share(f)
    ensures Valued(x, bits, start, e, c, Abs(a),
                   Value(c, Changes(sent, SUBFRAME_BITS), Turns(sent, 1), Turns(sent, 301), e, f))
  {
    MetricIs(x, start, sent, bits, a, e, f, c, LossOf(c, e, f));
  }

  /** Of a signal whose bits share their first sample f to 1 - f, and a filter that models it as e to 1 - e, the start
    * found is one early or one late exactly when the two shares lean that far apart, and else it is the true one. */
  lemma RefinedStartIff(x: seq<real>, start: nat, sent: BitString, bits: BitString, a: real, e: real, f: real)
    requires Carries(x, start, sent, a, f) && bits == sent[1..301] && a != 0.0 && Share(e) && Share(f)
    requires Changes(sent, SUBFRAME_BITS) > 0 && start + SUBFRAME_SAMPLES <= |x|
    ensures RefinedStart(x, bits, start, e) - start
         == Favoured(Changes(sent, SUBFRAME_BITS), Turns(sent, 1), Turns(sent, 301), e, f)
  {
    var inner, before, after := Changes(sent, SUBFRAME_BITS), Turns(sent, 1), Turns(sent, 301);
    RefinedStartIsBest(x, bits, start, e);
    IsValued(x, start, sent, bits, a, e, f, -2);
    IsValued(x, start, sent, bits, a, e, f, -1);
    IsValued(x, start, sent, bits, a, e, f, 0);
    IsValued(x, start, sent, bits, a, e, f, 1);
    IsValued(x, start, sent, bits, a, e, f, 2);
    FavouredIsBest(x, bits, start, e, f, Abs(a), inner, before, after, RefinedStart(x, bits, start, e) - start);
  }

  lemma FavouredIsBest(x: seq<real>, bits: BitString, start: nat, e: real, f: real, scale: real, inner: nat,
                       before: bool, after: bool, best: int)
    requires |bits| == SUBFRAME_BITS && scale > 0.0 && IsBest(x, bits, start, e, 3, best) && Share(e) && Share(f)
    requires inner > 0
    requires Valued(x, bits, start, e, -2, scale, Value(-2, inner, before, after, e, f))
    requires Valued(x, bits, start, e, -1, scale, Value(-1, inner, before, after, e, f))
    requires Valued(x, bits, start, e, 0, scale, Value(0, inner, before, after, e, f))
    requires Valued(x, bits, start, e, 1, scale, Value(1, inner, before, after, e, f))
    requires Valued(x, bits, start, e, 2, scale, Value(2, inner, before, after, e, f))
    ensures best == Favoured(inner, before, after, e, f)
  {
    OuterAreWorse(inner, before, after, e, f);
    EarlyIff(inner, before, after, e, f);
    LateIff(inner, before, after, e, f);
    NotBoth(inner, before, after, e, f);
    BestOfFive(x, bits, start, e, scale, best,
               Value(-2, inner, before, after, e, f), Value(-1, inner, before, after, e, f),
               Value(0, inner, before, after, e, f), Value(1, inner, before, after, e, f),
               Value(2, inner, before, after, e, f));
  }

  /** A filter that knows the true share leans nowhere. */
  lemma EqualSharesLeanNowhere(inner: nat, before: bool, after: bool, f: real)
    requires inner > 0 && Share(f)
    ensures Favoured(inner, before, after, f, f) == 0
  {
    AtMostQuarter(f);
    Negative(inner as real, Lean(f, f));
  }

  lemma AtMostQuarter(f: real)
    ensures f * (1.0 - f) <= 0.25
  {
    var v := 0.5 - f;
    assert v * v >= 0.0;
    assert f * (1.0 - f) == 0.25 - v * v;
  }

  lemma Negative(n: real, p: real)
    requires n > 0.0 && p < 0.0
    ensures n * p < 0.0
  {
  }

  // ----- what an attempt reports

  /** The signal's bits are received as sent, or all complemented. */
  lemma ReceivedAsSent(x: seq<real>, start: nat, sent: BitString, a: real, f: real)
    requires Carries(x, start, sent, a, f) && a != 0.0 && Share(f) && start + SUBFRAME_SAMPLES <= |x|
    ensures Signals(x, start, sent[1..301], a < 0.0)
    ensures BitsFrom(x, start, SUBFRAME_BITS) == Upright(sent[1..301], a < 0.0)
  {
    var bits, negated := sent[1..301], a < 0.0;
    forall i | 0 <= i < |bits| ensures SignalAt(x, start + PERIODS * i, bits[i] != negated) {
      BitReceived(x, start, sent, a, f, i + 1);
    }
    SignalsRead(x, start, bits, negated);
  }

  lemma BitReceived(x: seq<real>, start: nat, sent: BitString, a: real, f: real, j: nat)
    requires Carries(x, start, sent, a, f) && a != 0.0 && Share(f) && 0 < j < SENT_BITS - 1
    ensures var b := start + PERIODS * (j - 1);
            SignalAt(x, b, sent[j] != (a < 0.0))
  {
    var b := start + PERIODS * (j - 1);
    Around(x, start, sent, a, f, j);
    Stretch(x, start, sent, a, f, j, 1, 19);
    OneSample(x, b);
    SumSplits(x, b, 1, 19);
    Gathered(a, FirstSample(f, sent[j - 1], sent[j]), 0.0, Sign(sent[j]), 19.0);
    SignOfProduct(a, FirstSample(f, sent[j - 1], sent[j]) + 19.0 * Sign(sent[j]));
  }

  lemma SignOfProduct(a: real, v: real)
    requires a != 0.0 && v != 0.0
    ensures if a > 0.0 <==> v > 0.0 then a * v > 0.0 else a * v < 0.0
  {
  }

  /** A signal of the complemented bits has the negated amplitude. */
  lemma Complemented(x: seq<real>, start: nat, sent: BitString, a: real, f: real)
    requires Carries(x, start, sent, a, f)
    ensures Carries(x, start, Not(sent), -a, f)
  {
    var other, b := Not(sent), -a;
    forall j: nat, k: nat | j < SENT_BITS && k < PERIODS ensures SampleAt(x, start, other, b, f, j, k) {
      IsSample(x, start, sent, a, f, j, k);
      NegatedTwice(a, Sign(sent[j]));
      if j > 0 { NegatedTwice(a, FirstSample(f, sent[j - 1], sent[j])); }
    }
  }

  lemma NegatedTwice(a: real, v: real)
    ensures -a * -v == a * v
  {
  }

  lemma {:induction false} SameChanges(sent: BitString, n: nat)
    requires n < |sent|
    ensures Changes(Not(sent), n) == Changes(sent, n)
  {
    if n >= 2 { SameChanges(sent, n - 1); }
  }

  lemma {:induction false} ChangesGrow(sent: BitString, m: nat, n: nat)
    requires m <= n < |sent|
    ensures Changes(sent, m) <= Changes(sent, n)
  {
    if m < n { ChangesGrow(sent, m, n - 1); }
  }

  /** A preamble has a change. */
  lemma PreambleChanges(sent: BitString, bits: BitString)
    requires |sent| == SENT_BITS && bits == sent[1..301] && Polarity(bits).Some?
    ensures Changes(sent, SUBFRAME_BITS) > 0
  {
    PreambleBits(bits[..8]);
    assert bits[..8][0] == sent[1] && bits[..8][1] == sent[2];
    assert Turns(sent, 2);
    ChangesGrow(sent, 2, SUBFRAME_BITS);
  }

  /** The start that a successful attempt reports, at either polarity. */
  lemma DecodedStartIff(x: seq<real>, codePhases: seq<real>, phase: nat, position: nat, searchMask: nat,
                        sent: BitString, a: real, f: real)
    requires Carries(x, StartSample(phase, position), sent, a, f) && a != 0.0 && Share(f)
    ensures var start := StartSample(phase, position);
            var result := Try(x, codePhases, phase, position, FieldReader(searchMask));
            && (result.Decoded? ==>
                && Changes(sent, SUBFRAME_BITS) > 0
                && result.start - start == Favoured(Changes(sent, SUBFRAME_BITS), Turns(sent, 1), Turns(sent, 301),
                                                    EdgeFraction(codePhases, start), f))
  {
    var start := StartSample(phase, position);
    var bits := if a > 0.0 then sent else Not(sent);
    IsEligible(x, start, sent, a, f, 0);
    ReceivedAsSent(x, start, sent, a, f);
    TryReads(x, codePhases, phase, position, searchMask, start);
    if a < 0.0 { Complemented(x, start, sent, a, f); }
    assert BitsFrom(x, start, SUBFRAME_BITS) == bits[1..301];
    if Polarity(bits[1..301]).Some? {
      PreambleChanges(bits, bits[1..301]);
      SameChanges(sent, SUBFRAME_BITS);
      RefinedStartIff(x, start, bits, bits[1..301], Abs(a), EdgeFraction(codePhases, start), f);
    }
  }

  /** When the first samples are shared as the code phase at the start says, the attempt reports the true start. */
  lemma TrueStartIsReported(x: seq<real>, codePhases: seq<real>, phase: nat, position: nat, searchMask: nat,
                            sent: BitString, a: real, f: real)
    requires Carries(x, StartSample(phase, position), sent, a, f) && a != 0.0
    requires StartSample(phase, position) < |codePhases| && 0.0 <= codePhases[StartSample(phase, position)] <= 1023.0
    requires f * 1023.0 == 1023.0 - codePhases[StartSample(phase, position)]
    ensures var result := Try(x, codePhases, phase, position, FieldReader(searchMask));
            result.Decoded? ==> result.start == StartSample(phase, position)
  {
    EdgeByCodePhase(codePhases, StartSample(phase, position));
    DecodedStartIff(x, codePhases, phase, position, searchMask, sent, a, f);
    if Changes(sent, SUBFRAME_BITS) > 0 {
      EqualSharesLeanNowhere(Changes(sent, SUBFRAME_BITS), Turns(sent, 1), Turns(sent, 301), f);
    }
  }

  /** A packed subframe sent at either polarity is reported with its numbers and at its true start. */
  lemma SentSubframeIsFound(x: seq<real>, codePhases: seq<real>, phase: nat, position: nat, searchMask: nat,
                            sub: Subframe, spare: seq<BitString>, d29: bool, d30: bool, sent: BitString, a: real,
                            f: real)
    requires BodyFits(sub.body) && FitsUnsigned(sub.towCount, 17) && AreTen(spare)
    requires Carries(x, StartSample(phase, position), sent, a, f) && a != 0.0
    requires sent[1..301] == Encode(Pack(sub, spare), d29, d30)
    requires position >= 2 ==> Signals(x, StartSample(phase, position) - 2 * PERIODS, [d29, d30], a < 0.0)
    requires StartSample(phase, position) < |codePhases| && 0.0 <= codePhases[StartSample(phase, position)] <= 1023.0
    requires f * 1023.0 == 1023.0 - codePhases[StartSample(phase, position)]
    ensures var result := Try(x, codePhases, phase, position, FieldReader(searchMask));
            if (position >= 2 || d29 == d30) && BitAt(searchMask, IdOf(sub.body) - 1)
            then result.Decoded? && result.subframe == sub && result.start == StartSample(phase, position)
            else result == Rejected
  {
    IsEligible(x, StartSample(phase, position), sent, a, f, 0);
    EdgeByCodePhase(codePhases, StartSample(phase, position));
    ReceivedAsSent(x, StartSample(phase, position), sent, a, f);
    SubframeRoundTrip(x, codePhases, phase, position, searchMask, sub, spare, d29, d30, a < 0.0);
    TrueStartIsReported(x, codePhases, phase, position, searchMask, sent, a, f);
  }

  /** When no sample is shared, it reports the sample before unless the code phase is past the middle. */
  lemma CleanStartIsReported(x: seq<real>, codePhases: seq<real>, phase: nat, position: nat, searchMask: nat,
                             sent: BitString, a: real)
    requires Carries(x, StartSample(phase, position), sent, a, 0.0) && a != 0.0
    requires StartSample(phase, position) < |codePhases|
    ensures var start := StartSample(phase, position);
            var result := Try(x, codePhases, phase, position, FieldReader(searchMask));
            result.Decoded? ==> result.start == if codePhases[start] > 511.5 then start else start - 1
  {
    var start := StartSample(phase, position);
    EdgeByCodePhase(codePhases, start);
    DecodedStartIff(x, codePhases, phase, position, searchMask, sent, a, 0.0);
    if Changes(sent, SUBFRAME_BITS) > 0 {
      UnsharedLeans(Changes(sent, SUBFRAME_BITS), Turns(sent, 1), Turns(sent, 301), EdgeFraction(codePhases, start));
    }
  }

  lemma UnsharedLeans(inner: nat, before: bool, after: bool, e: real)
    requires inner > 0 && Share(e)
    ensures Favoured(inner, before, after, e, 0.0) == if e < 0.5 then 0 else -1
  {
    Negative(inner as real, Lean(0.0, e));
    if e < 0.5 { Negative(inner as real, Lean(e, 0.0)); } else { NotNegative(inner as real, Lean(e, 0.0)); }
  }

  lemma EdgeByCodePhase(codePhases: seq<real>, start: nat)
    requires start < |codePhases|
    ensures Share(EdgeFraction(codePhases, start))
    ensures EdgeFraction(codePhases, start) < 0.5 <==> codePhases[start] > 511.5
    ensures 0.0 <= codePhases[start] <= 1023.0 ==>
              EdgeFraction(codePhases, start) * 1023.0 == 1023.0 - codePhases[start]
  {
  }

  // ----- what the channel takes from it

  lemma SignalsCut(x: seq<real>, base: nat, sent: BitString, negated: bool, drop: nat)
    requires Signals(x, base, sent, negated) && drop <= base
    ensures Signals(x[drop..], base - drop, sent, negated)
  {
    var cut := x[drop..];
    forall i | 0 <= i < |sent| ensures SignalAt(cut, base - drop + PERIODS * i, sent[i] != negated) {
      assert SignalAt(x, base + PERIODS * i, sent[i] != negated);
      SumShifts(x, drop, base - drop + PERIODS * i, PERIODS);
    }
  }

  lemma CarriesCut(x: seq<real>, start: nat, sent: BitString, a: real, f: real, drop: nat)
    requires Carries(x, start, sent, a, f) && drop + PERIODS <= start && drop <= |x|
    ensures Carries(x[drop..], start - drop, sent, a, f)
  {
    var cut, left := x[drop..], start - drop;
    forall j: nat, k: nat | j < SENT_BITS && k < PERIODS ensures SampleAt(cut, left, sent, a, f, j, k) {
      IsSample(x, start, sent, a, f, j, k);
    }
  }

  /** The subframe whose bits these are starts at a sample of a history. */
  ghost predicate Arrives(x: seq<real>, codes: seq<real>, start: nat, sub: Subframe, spare: seq<BitString>, d29: bool,
                          d30: bool, sent: BitString, a: real, f: real)
  {
    && BodyFits(sub.body) && FitsUnsigned(sub.towCount, 17) && AreTen(spare) && start >= 2 * PERIODS
    && Carries(x, start, sent, a, f) && a != 0.0 && sent[1..301] == Encode(Pack(sub, spare), d29, d30)
    && Signals(x, start - 2 * PERIODS, [d29, d30], a < 0.0)
    && start < |codes| && 0.0 <= codes[start] <= 1023.0 && f * 1023.0 == 1023.0 - codes[start]
  }

  lemma ArrivesCut(x: seq<real>, codes: seq<real>, start: nat, sub: Subframe, spare: seq<BitString>, d29: bool,
                   d30: bool, sent: BitString, a: real, f: real, drop: nat)
    requires Arrives(x, codes, start, sub, spare, d29, d30, sent, a, f)
    requires drop + 2 * PERIODS <= start && drop <= |x| == |codes|
    ensures Arrives(x[drop..], codes[drop..], start - drop, sub, spare, d29, d30, sent, a, f)
  {
    CarriesCut(x, start, sent, a, f, drop);
    SignalsCut(x, start - 2 * PERIODS, [d29, d30], a < 0.0, drop);
  }

  lemma ArrivedIsFound(x: seq<real>, codes: seq<real>, phase: nat, position: nat, searchMask: nat, sub: Subframe,
                       spare: seq<BitString>, d29: bool, d30: bool, sent: BitString, a: real, f: real)
    requires Arrives(x, codes, StartSample(phase, position), sub, spare, d29, d30, sent, a, f) && position >= 2
    requires BitAt(searchMask, IdOf(sub.body) - 1)
    ensures var result := Try(x, codes, phase, position, FieldReader(searchMask));
            result.Decoded? && result.subframe == sub && result.start == StartSample(phase, position)
  {
    SentSubframeIsFound(x, codes, phase, position, searchMask, sub, spare, d29, d30, sent, a, f);
  }

  /** Compaction moves what a locked channel expects next by what it drops. */
  lemma CompactedMoves(n: Nav)
    requires Level(n) && n.sync.phase >= 0 && n.sync.offset >= 2
    ensures var c, drop := Compacted(n), Dropped(n);
            && c.sync == n.sync.(offset := n.sync.offset - drop / PERIODS) && c.sync.offset >= 2
            && drop + 2 * PERIODS <= StartSample(n.sync.phase, n.sync.offset)
            && StartSample(c.sync.phase, c.sync.offset) == StartSample(n.sync.phase, n.sync.offset) - drop
            && drop <= |n.prompts| && c.prompts == n.prompts[drop..] && c.codes == n.codes[drop..]
  {
    DropFits(n);
  }

  /** An update of a locked channel, with its compaction, reads the numbers sent: six seconds for each count of the
    * time of week, at the sample where the subframe starts. */
  lemma LockedUpdateReads(n: Nav, searchMask: nat, sub: Subframe, spare: seq<BitString>, d29: bool, d30: bool,
                          sent: BitString, a: real, f: real)
    requires Level(n) && n.sync.phase >= 0 && n.sync.offset >= 2
    requires Arrives(n.prompts, n.codes, StartSample(n.sync.phase, n.sync.offset), sub, spare, d29, d30, sent, a, f)
    requires BitAt(searchMask, IdOf(sub.body) - 1)
    ensures var (m, result) := Updated(n, FieldReader(searchMask));
            && result.Decoded? && result.subframe == sub && m.tow == 6 * sub.towCount
            && m.anchor == StartSample(n.sync.phase, n.sync.offset) - Dropped(n)
            && m.sync.offset == n.sync.offset + 300 - Dropped(n) / PERIODS
            && m.prompts == n.prompts[Dropped(n)..]
  {
    var c := Compacted(n);
    CompactedMoves(n);
    ArrivesCut(n.prompts, n.codes, StartSample(n.sync.phase, n.sync.offset), sub, spare, d29, d30, sent, a, f,
               Dropped(n));
    ArrivedIsFound(c.prompts, c.codes, c.sync.phase, c.sync.offset, searchMask, sub, spare, d29, d30, sent, a, f);
  }
}
