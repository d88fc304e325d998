/** The acquisition search of Source/Acquisition/GPSOpenClAcquisition.cpp on the host path of
  * Source/Gpu/GPSOpenClSpectrumEngine.cpp.  Only `reuseFactor` spectra of the mixed input are
  * computed; every other Doppler bin reads one of them through a circular index shift.
  */
module DopplerSearch {
  import opened Numbers
  import opened Rings
  import opened Bits
  import opened Fft

  /** The acquisition settings, in the units of the source (Hz, samples). */
  datatype Settings = Settings(
    dopplerMinimum: int,
    dopplerMaximum: int,
    spacing: int,
    samplesPerCode: int,
    samplingHz: real
  )

  // ----- the grid of frequencies

  /** C++ integer division truncates; both operands are positive where it is used. */
  function NumberOfBins(s: Settings): (bins: nat)
    ensures bins >= 1
  {
    var span, step := s.dopplerMaximum - s.dopplerMinimum, s.spacing;
    if span <= 0 || step <= 0 then 1 else (span + step - 1) / step + 1
  }

  /** The bins cover the configured range, and one bin fewer would not. */
  lemma BinsCoverRange(s: Settings)
    requires s.dopplerMaximum > s.dopplerMinimum && s.spacing > 0
    ensures var bins := NumberOfBins(s);
            && s.dopplerMinimum + (bins - 1) * s.spacing >= s.dopplerMaximum
            && s.dopplerMinimum + (bins - 2) * s.spacing < s.dopplerMaximum
  {
    var span, step := s.dopplerMaximum - s.dopplerMinimum, s.spacing;
    var q := (span + step - 1) / step;
    assert span + step - 1 == q * step + (span + step - 1) % step;
    assert (q - 1) * step == q * step - step;
  }

  function BinFrequency(s: Settings, bin: nat): real {
    s.dopplerMinimum as real + bin as real * s.spacing as real
  }

  /** How many spectra are computed: one per FFT bin if the spacing divides the resolution (within
    * a tolerance of 0.001), else one per Doppler bin. */
  function ReuseFactor(s: Settings): (k: nat)
    ensures 1 <= k <= NumberOfBins(s)
  {
    var bins := NumberOfBins(s);
    if !Positive(s) then bins
    else
      var rounded := Round(Ratio(s));
      if rounded < 1 || rounded > bins || Abs(Ratio(s) - rounded as real) > 0.001 then bins else rounded
  }

  predicate Positive(s: Settings) { s.samplesPerCode > 0 && s.spacing > 0 && s.samplingHz > 0.0 }

  /** The spacings in one FFT bin. */
  function Ratio(s: Settings): real
    requires Positive(s)
  {
    s.samplingHz / s.samplesPerCode as real / s.spacing as real
  }

  /** Exactly when spectra are reused, and how many are computed then. */
  lemma ReuseFactorIff(s: Settings, k: nat)
    requires 1 <= k < NumberOfBins(s)
    ensures ReuseFactor(s) == k <==> Positive(s) && k as real - 0.001 <= Ratio(s) <= k as real + 0.001
  {
    if Positive(s) && k as real - 0.001 <= Ratio(s) <= k as real + 0.001 {
      assert Round(Ratio(s)) == k;
    }
  }

  // ----- what a bin must hold

  function Mixed<T(!new)>(r: Ring<T>, x: seq<T>, carrier: seq<T>): (y: seq<T>)
    requires |x| <= |carrier|
    ensures |y| == |x| && forall j | 0 <= j < |y| :: y[j] == r.mul(x[j], carrier[j])
  {
    seq(|x|, j requires 0 <= j < |x| => r.mul(x[j], carrier[j]))
  }

  function CarrierAngle(frequency: real, samplingHz: real, n: nat): real
    requires samplingHz != 0.0
  {
    frequency * n as real * (1.0 / samplingHz)
  }

  function Carrier<T(!new)>(r: Ring<T>, frequency: real, samplingHz: real, length: nat): (c: seq<T>)
    requires samplingHz != 0.0
    ensures |c| == length && forall n | 0 <= n < length :: c[n] == r.turn(CarrierAngle(frequency, samplingHz, n))
  {
    seq(length, (n: nat) => r.turn(CarrierAngle(frequency, samplingHz, n)))
  }

  /** The forward spectrum of the input mixed with the carrier of one frequency. */
  function Spectrum<T(!new)>(r: Ring<T>, x: seq<T>, frequency: real, samplingHz: real): (y: seq<T>)
    requires samplingHz != 0.0
    ensures |y| == |x|
  {
    Transform(r, Mixed(r, x, Carrier(r, frequency, samplingHz, |x|)), Forward)
  }

  function Times<T(!new)>(r: Ring<T>, a: seq<T>, b: seq<T>): (y: seq<T>)
    requires |a| == |b|
    ensures |y| == |a| && forall i | 0 <= i < |y| :: y[i] == r.mul(a[i], b[i])
  {
    seq(|a|, i requires 0 <= i < |a| => r.mul(a[i], b[i]))
  }

  function Magnitudes<T(!new)>(r: Ring<T>, y: seq<T>): (m: seq<real>)
    ensures |m| == |y| && forall i | 0 <= i < |m| :: m[i] == r.norm2(y[i])
  {
    seq(|y|, i requires 0 <= i < |y| => r.norm2(y[i]))
  }

  /** The correlation powers of one bin, given the spectrum of its mixed input. */
  function Correlation<T(!new)>(r: Ring<T>, code: seq<T>, spectrum: seq<T>): (m: seq<real>)
    requires |code| == |spectrum|
    ensures |m| == |code|
  {
    Magnitudes(r, Transform(r, Times(r, code, spectrum), Inverse))
  }

  /** The naive search: mix with the bin's own carrier, transform, correlate. */
  function NaiveBin<T(!new)>(r: Ring<T>, s: Settings, x: seq<T>, code: seq<T>, bin: nat): (m: seq<real>)
    requires s.samplingHz != 0.0 && |code| == |x|
    ensures |m| == |x|
  {
    Correlation(r, code, Spectrum(r, x, BinFrequency(s, bin), s.samplingHz))
  }

  /** y[i] == x[(i - shift) mod n] */
  function Rotate<T>(x: seq<T>, shift: int): (y: seq<T>)
    ensures |y| == |x| && forall i | 0 <= i < |x| :: y[i] == x[(i - shift) % |x|]
  {
    if |x| == 0 then [] else seq(|x|, i requires 0 <= i < |x| => x[(i - shift) % |x|])
  }

  /** What the search reads for a bin: the spectrum of slot bin % k, rotated by bin / k. */
  function ReusedSpectrum<T(!new)>(r: Ring<T>, s: Settings, x: seq<T>, k: nat, bin: nat): (y: seq<T>)
    requires s.samplingHz != 0.0 && k > 0
    ensures |y| == |x|
  {
    Rotate(Spectrum(r, x, BinFrequency(s, bin % k), s.samplingHz), bin / k)
  }

  // ----- when the shifted spectrum is the bin's own spectrum

  /** The angle by which bins that are k apart drift from one sample to the next. */
  function SlotStep(s: Settings, k: nat): real
    requires s.samplingHz != 0.0
  {
    k as real * s.spacing as real * (1.0 / s.samplingHz)
  }

  /** k spacings fill one FFT bin without remainder. */
  predicate Divides(s: Settings, k: nat, n: nat) { k as real * s.spacing as real * n as real == s.samplingHz }

  /** k spacings are one FFT bin: their phasors agree. */
  ghost predicate Exact<T(!new)>(r: Ring<T>, s: Settings, k: nat, n: nat)
    requires s.samplingHz != 0.0
  {
    r.turn(SlotStep(s, k)) == Root(r, n, Inverse)
  }

  lemma ExactWhenSpacingDivides<T(!new)>(r: Ring<T>, s: Settings, k: nat, n: nat)
    requires r.Valid() && s.samplingHz != 0.0 && n > 0 && Divides(s, k, n)
    ensures Exact(r, s, k, n)
  {
    assert r.Fraction(1, n);
    var a, b := k as real * s.spacing as real, n as real;
    assert a * (1.0 / (a * b)) == 1.0 / b by {
      assert a * b != 0.0;
      assert (a * (1.0 / (a * b))) * b == 1.0;
    }
    assert SlotStep(s, k) == 1 as real / b;
  }

  lemma CarrierDrift(s: Settings, slot: nat, k: nat, shift: nat, n: nat)
    requires s.samplingHz != 0.0
    ensures CarrierAngle(BinFrequency(s, slot + shift * k), s.samplingHz, n)
         == CarrierAngle(BinFrequency(s, slot), s.samplingHz, n) + (shift * n) as real * SlotStep(s, k)
  {
    var f, d, m, g := BinFrequency(s, slot), s.spacing as real, n as real, 1.0 / s.samplingHz;
    var a, b := shift as real, k as real;
    assert (slot + shift * k) as real == slot as real + a * b;
    assert BinFrequency(s, slot + shift * k) == f + a * b * d;
    assert (shift * n) as real == a * m;
    Spread(f, a, b, d, m, g);
  }

  lemma Spread(f: real, a: real, b: real, d: real, m: real, g: real)
    ensures (f + a * b * d) * m * g == f * m * g + (a * m) * (b * d * g)
  {
  }

  /** The carrier of bin slot + shift*k is that of the slot, turned shift*n times further. */
  lemma CarrierOfBin<T(!new)>(r: Ring<T>, s: Settings, slot: nat, k: nat, shift: nat, n: nat, len: nat)
    requires r.Valid() && s.samplingHz != 0.0 && Exact(r, s, k, len)
    ensures r.turn(CarrierAngle(BinFrequency(s, slot + shift * k), s.samplingHz, n))
         == r.mul(r.turn(CarrierAngle(BinFrequency(s, slot), s.samplingHz, n)),
                  Pow(r, Root(r, len, Inverse), shift * n))
  {
    CarrierDrift(s, slot, k, shift, n);
    var a := CarrierAngle(BinFrequency(s, slot), s.samplingHz, n);
    var drift := (shift * n) as real * SlotStep(s, k);
    TurnPow(r, SlotStep(s, k), shift * n, drift);
    assert r.TurnAdd(a, drift);
  }

  lemma RootPeriod<T(!new)>(r: Ring<T>, n: nat)
    requires r.Valid() && n > 0
    ensures Pow(r, Root(r, n, Forward), n) == r.one
  {
    HalfTurns(r);
    assert r.Fraction(-1, n);
    TurnPow(r, -1.0 / n as real, n, -1.0);
  }

  /** w^(n*i) * v^(shift*n) == w^(n*j) when j is i - shift, reduced. */
  lemma RotatedPower<T(!new)>(r: Ring<T>, w: T, v: T, len: nat, n: nat, i: nat, j: nat, shift: nat, q: nat)
    requires r.Valid() && r.mul(w, v) == r.one && Pow(r, w, len) == r.one
    requires i + q * len == j + shift
    ensures r.mul(Pow(r, w, n * i), Pow(r, v, shift * n)) == Pow(r, w, n * j)
  {
    PowersAlign(len, n, i, j, shift, q);
    var turns, ns := len * (n * q), shift * n;
    PowAdd(r, w, n * i, turns);
    PowMul(r, w, len, n * q);
    PowOne(r, n * q);
    MulUnits(r, Pow(r, w, n * i));
    PowAdd(r, w, n * j, ns);
    assert r.MulAssoc(Pow(r, w, n * j), Pow(r, w, ns), Pow(r, v, ns));
    PowProduct(r, w, v, ns);
    PowOne(r, ns);
    MulUnits(r, Pow(r, w, n * j));
  }

  lemma PowersAlign(len: nat, n: nat, i: nat, j: nat, shift: nat, q: nat)
    requires i + q * len == j + shift
    ensures n * i + len * (n * q) == n * j + shift * n
  {
    assert n * (i + q * len) == n * (j + shift);
    assert n * (q * len) == len * (n * q);
  }

  lemma RotationQuotient(i: nat, shift: nat, len: nat) returns (q: nat)
    requires i < len
    ensures 0 <= (i - shift) % len < len && i + q * len == (i - shift) % len + shift
  {
    var d := (i - shift) / len;
    assert i - shift == d * len + (i - shift) % len;
    assert d >= 1 ==> d * len >= len;
    q := -d;
  }

  /** Under exact spacing, the slot's spectrum read shift bins lower is the bin's own spectrum. */
  lemma ShiftIsRemix<T(!new)>(r: Ring<T>, s: Settings, x: seq<T>, slot: nat, k: nat, shift: nat)
    requires r.Valid() && s.samplingHz != 0.0 && Exact(r, s, k, |x|)
    ensures Rotate(Spectrum(r, x, BinFrequency(s, slot), s.samplingHz), shift)
         == Spectrum(r, x, BinFrequency(s, slot + shift * k), s.samplingHz)
  {
    var len := |x|;
    var low, high := Carrier(r, BinFrequency(s, slot), s.samplingHz, len),
        Carrier(r, BinFrequency(s, slot + shift * k), s.samplingHz, len);
    forall i: nat | i < len
      ensures Sum(r, len, Term(r, Root(r, len, Forward), Mixed(r, x, low), (i - shift) % len))
           == Sum(r, len, Term(r, Root(r, len, Forward), Mixed(r, x, high), i))
    {
      var q := RotationQuotient(i, shift, len);
      var j: nat := (i - shift) % len;
      forall n: nat | n < len
        ensures Term(r, Root(r, len, Forward), Mixed(r, x, low), j)(n)
                == Term(r, Root(r, len, Forward), Mixed(r, x, high), i)(n)
      {
        CarrierOfBin(r, s, slot, k, shift, n, len);
        RemixedTerm(r, x, low, high, i, j, shift, q, n);
      }
      SumCongruence(r, len, Term(r, Root(r, len, Forward), Mixed(r, x, low), j),
                    Term(r, Root(r, len, Forward), Mixed(r, x, high), i));
    }
  }

  lemma RemixedTerm<T(!new)>(r: Ring<T>, x: seq<T>, low: seq<T>, high: seq<T>, i: nat, j: nat, shift: nat, q: nat,
                             n: nat)
    requires r.Valid() && |low| == |high| == |x| && n < |x| && i + q * |x| == j + shift
    requires high[n] == r.mul(low[n], Pow(r, Root(r, |x|, Inverse), shift * n))
    ensures Term(r, Root(r, |x|, Forward), Mixed(r, x, low), j)(n)
            == Term(r, Root(r, |x|, Forward), Mixed(r, x, high), i)(n)
  {
    var w, v := Root(r, |x|, Forward), Root(r, |x|, Inverse);
    RootsCancel(r, |x|);
    RootPeriod(r, |x|);
    RotatedPower(r, w, v, |x|, n, i, j, shift, q);
    var p, z, xl := Pow(r, v, shift * n), Pow(r, w, n * i), r.mul(x[n], low[n]);
    assert r.MulAssoc(x[n], low[n], p) && r.MulAssoc(xl, p, z) && r.MulComm(p, z);
    assert Mixed(r, x, high)[n] == r.mul(xl, p);
    TermAt(r, w, Mixed(r, x, high), i, n);
    TermAt(r, w, Mixed(r, x, low), j, n);
  }

  /** From one sample to the next, k spacings and one FFT bin turn apart by whole turns. */
  predicate Aligned(s: Settings, k: nat, n: nat)
    requires s.samplingHz != 0.0 && n > 0
  {
    IsWhole(SlotStep(s, k) - 1.0 / n as real)
  }

  lemma ExactIff<T(!new)>(r: Ring<T>, s: Settings, k: nat, n: nat)
    requires r.Valid() && r.Separates() && s.samplingHz != 0.0 && n > 0
    ensures Exact(r, s, k, n) <==> Aligned(s, k, n)
  {
    assert r.Fraction(1, n);
    HalfTurns(r);
    SamePhasorIff(r, SlotStep(s, k), 1.0 / n as real);
  }

  /** The reuse of k spectra gives every bin its own spectrum, for every input, exactly when no bin
    * needs a shift, the spacing is aligned with the FFT bins, or a lone sample has no carrier to see. */
  lemma ReuseIsNaiveIff<T(!new)>(r: Ring<T>, s: Settings, k: nat, n: nat)
    requires r.Valid() && r.Separates() && s.samplingHz != 0.0 && k > 0
    ensures IsNaive(r, s, k, n) <==> n <= 1 || k >= NumberOfBins(s) || Aligned(s, k, n)
  {
    if n <= 1 {
      forall x: seq<T>, bin: nat | |x| == n && bin < NumberOfBins(s) ensures BinIsNaive(r, s, x, k, bin) {
        LoneSample(r, s, x, k, bin);
      }
    } else {
      ExactIff(r, s, k, n);
      if k >= NumberOfBins(s) || Aligned(s, k, n) {
        forall x: seq<T>, bin: nat | |x| == n && bin < NumberOfBins(s) ensures BinIsNaive(r, s, x, k, bin) {
          BinReuse(r, s, x, k, bin);
        }
      } else {
        var x := Impulse(r, n);
        if BinIsNaive(r, s, x, k, k) {
          ImpulseDetects(r, s, k, n);
        }
      }
    }
  }

  lemma LoneSample<T(!new)>(r: Ring<T>, s: Settings, x: seq<T>, k: nat, bin: nat)
    requires s.samplingHz != 0.0 && k > 0 && |x| <= 1
    ensures BinIsNaive(r, s, x, k, bin)
  {
    var low, high := BinFrequency(s, bin % k), BinFrequency(s, bin);
    if |x| == 1 {
      StartAngle(low, s.samplingHz);
      StartAngle(high, s.samplingHz);
      assert Mixed(r, x, Carrier(r, low, s.samplingHz, 1)) == Mixed(r, x, Carrier(r, high, s.samplingHz, 1));
      DivModUnique(0 - bin / k, 1, 0 - bin / k, 0);
    }
  }

  lemma StartAngle(frequency: real, samplingHz: real)
    requires samplingHz != 0.0
    ensures CarrierAngle(frequency, samplingHz, 0) == 0.0
  {
  }

  /** The reuse of k spectra gives every bin its own, for every input of n samples. */
  ghost predicate IsNaive<T(!new)>(r: Ring<T>, s: Settings, k: nat, n: nat)
    requires s.samplingHz != 0.0 && k > 0
  {
    forall x: seq<T>, bin: nat | |x| == n && bin < NumberOfBins(s) :: BinIsNaive(r, s, x, k, bin)
  }

  /** The spectrum read for a bin is that of the input mixed with the bin's own carrier. */
  ghost predicate BinIsNaive<T(!new)>(r: Ring<T>, s: Settings, x: seq<T>, k: nat, bin: nat)
    requires s.samplingHz != 0.0 && k > 0
  {
    ReusedSpectrum(r, s, x, k, bin) == Spectrum(r, x, BinFrequency(s, bin), s.samplingHz)
  }

  /** For a factor that the tolerance accepts, aligned means that the spacing divides the resolution. */
  lemma AlignedIff(s: Settings, k: nat)
    requires Positive(s) && k >= 1 && k as real - 0.001 <= Ratio(s) <= k as real + 0.001
    ensures Aligned(s, k, s.samplesPerCode) <==> Divides(s, k, s.samplesPerCode)
  {
    var step, n, d, f := s.spacing as real, s.samplesPerCode as real,
        SlotStep(s, k) - 1.0 / s.samplesPerCode as real, s.samplingHz;
    StepApart(k as real, step, n, f, Ratio(s), d);
    if IsWhole(d) {
      assert d.Floor == 0;
    }
  }

  lemma StepApart(k: real, step: real, n: real, f: real, ratio: real, d: real)
    requires step > 0.0 && n >= 1.0 && f > 0.0 && k >= 1.0 && k - 0.001 <= ratio <= k + 0.001
    requires ratio == f / n / step && d == k * step * (1.0 / f) - 1.0 / n
    ensures -1.0 < d < 1.0 && (d == 0.0 <==> k * step * n == f)
  {
    var c := step * n;
    assert f == ratio * c;
    assert k * step * (1.0 / f) == k * step / f;
    assert d * f * n == k * step * n - f;
    assert k * step * n == k * c;
    assert d * f * n == (k - ratio) * c;
    assert d * n * ratio == k - ratio by {
      assert (d * n * ratio) * c == (k - ratio) * c;
    }
    SmallFactor(d, n, ratio, k - ratio);
  }

  lemma SmallFactor(d: real, n: real, ratio: real, e: real)
    requires n >= 1.0 && ratio >= 0.999 && -0.001 <= e <= 0.001 && d * n * ratio == e
    ensures -1.0 < d < 1.0 && (d == 0.0 <==> e == 0.0)
  {
    var m := n * ratio;
    assert m >= 0.999;
    assert d * m == e;
    assert d >= 1.0 ==> d * m >= m;
    assert d <= -1.0 ==> -d * m >= m;
  }

  /** The search's own factor gives every bin its own spectrum, for every input, exactly when there is
    * one spectrum per bin or the spacing divides the resolution without remainder. */
  lemma SearchIsNaiveIff<T(!new)>(r: Ring<T>, s: Settings)
    requires r.Valid() && r.Separates() && s.samplingHz != 0.0 && s.samplesPerCode >= 0
    ensures IsNaive(r, s, ReuseFactor(s), s.samplesPerCode)
       <==> s.samplesPerCode <= 1 || ReuseFactor(s) >= NumberOfBins(s) || Divides(s, ReuseFactor(s), s.samplesPerCode)
  {
    var k := ReuseFactor(s);
    ReuseIsNaiveIff(r, s, k, s.samplesPerCode);
    if k < NumberOfBins(s) {
      ReuseFactorIff(s, k);
      AlignedIff(s, k);
    }
  }

  lemma BinReuse<T(!new)>(r: Ring<T>, s: Settings, x: seq<T>, k: nat, bin: nat)
    requires r.Valid() && s.samplingHz != 0.0 && k > 0 && (bin < k || Exact(r, s, k, |x|))
    ensures ReusedSpectrum(r, s, x, k, bin) == Spectrum(r, x, BinFrequency(s, bin), s.samplingHz)
  {
    var slot, shift := bin % k, bin / k;
    assert bin == slot + shift * k;
    if bin < k {
      DivModUnique(bin, k, 0, bin);
      var y := Spectrum(r, x, BinFrequency(s, slot), s.samplingHz);
      forall i | 0 <= i < |y| ensures Rotate(y, 0)[i] == y[i] {
        DivModUnique(i, |y|, 0, i);
      }
    } else {
      ShiftIsRemix(r, s, x, slot, k, shift);
    }
  }

  /** The input that is one at sample 1 and zero elsewhere. */
  function Impulse<T(!new)>(r: Ring<T>, n: nat): (x: seq<T>)
    ensures |x| == n
  {
    seq(n, i => if i == 1 then r.one else r.zero)
  }

  lemma ImpulseSum<T(!new)>(r: Ring<T>, c: seq<T>, w: T, n: nat, i: nat)
    requires r.Valid() && n >= 2 && |c| == n
    ensures Sum(r, n, Term(r, w, Mixed(r, Impulse(r, n), c), i)) == r.mul(c[1], Pow(r, w, i))
  {
    var x := Impulse(r, n);
    var f := Term(r, w, Mixed(r, x, c), i);
    forall t: nat | t < n && t != 1 ensures f(t) == r.zero {
      TermAt(r, w, Mixed(r, x, c), i, t);
      MulZero(r, c[t]);
      MulZero(r, Pow(r, w, t * i));
    }
    SumOfOne(r, n, f, 1);
    TermAt(r, w, Mixed(r, x, c), i, 1);
    MulUnits(r, c[1]);
    assert 1 * i == i;
  }

  lemma ImpulseSpectrum<T(!new)>(r: Ring<T>, frequency: real, samplingHz: real, n: nat, i: nat)
    requires r.Valid() && samplingHz != 0.0 && n >= 2 && i < n
    ensures Spectrum(r, Impulse(r, n), frequency, samplingHz)[i]
         == r.mul(r.turn(CarrierAngle(frequency, samplingHz, 1)), Pow(r, Root(r, n, Forward), i))
  {
    ImpulseSum(r, Carrier(r, frequency, samplingHz, n), Root(r, n, Forward), n, i);
  }

  /** If bin k is reused correctly for the impulse, the spacing is exact. */
  lemma ImpulseDetects<T(!new)>(r: Ring<T>, s: Settings, k: nat, n: nat)
    requires r.Valid() && s.samplingHz != 0.0 && k > 0 && n >= 2 && BinIsNaive(r, s, Impulse(r, n), k, k)
    ensures Exact(r, s, k, n)
  {
    var x, w, v := Impulse(r, n), Root(r, n, Forward), Root(r, n, Inverse);
    var a := CarrierAngle(BinFrequency(s, 0), s.samplingHz, 1);
    var u := r.turn(SlotStep(s, k));
    DivModUnique(k, k, 1, 0);
    DivModUnique(0, n, 0, 0);
    assert ReusedSpectrum(r, s, x, k, k)[1] == Spectrum(r, x, BinFrequency(s, 0), s.samplingHz)[0];
    ImpulseSpectrum(r, BinFrequency(s, 0), s.samplingHz, n, 0);
    ImpulseSpectrum(r, BinFrequency(s, k), s.samplingHz, n, 1);
    CarrierDrift(s, 0, k, 1, 1);
    assert r.TurnAdd(a, SlotStep(s, k));
    MulUnits(r, w);
    MulUnits(r, r.turn(a));
    RootsCancel(r, n);
    PhasorCancels(r, a, u, w, v);
  }

  lemma PhasorCancels<T(!new)>(r: Ring<T>, a: real, u: T, w: T, v: T)
    requires r.Valid() && r.turn(a) == r.mul(r.mul(r.turn(a), u), w) && r.mul(w, v) == r.one
    ensures u == v
  {
    assert r.TurnAdd(-a, a) && r.MulAssoc(r.turn(a), u, w) && r.MulAssoc(r.turn(-a), r.turn(a), r.mul(u, w));
    MulUnits(r, r.mul(u, w));
    assert r.mul(u, w) == r.one;
    assert r.MulAssoc(u, w, v);
    MulUnits(r, u);
    MulUnits(r, v);
  }

  // ----- the peak of a grid of bins

  type Grid = seq<seq<real>>

  /** The largest cell of the grid, the first one in (bin, lag) order if there are several. */
  ghost predicate FirstMaximum(grid: Grid, bin: nat, lag: nat) {
    && bin < |grid| && lag < |grid[bin]|
    && (forall b, l | 0 <= b < |grid| && 0 <= l < |grid[b]| ::
          && grid[b][l] <= grid[bin][lag]
          && (b < bin || (b == bin && l < lag) ==> grid[b][l] < grid[bin][lag]))
  }

  function RowSum(row: seq<real>): real {
    if row == [] then 0.0 else RowSum(row[..|row| - 1]) + row[|row| - 1]
  }

  /** The sum over the rows of their means, divided by the number of bins. */
  function GridMean(grid: Grid, bins: nat): real {
    if grid == [] then 0.0
    else
      var last := |grid| - 1;
      var cells := |grid[last]| * bins;
      GridMean(grid[..last], bins) + (if cells == 0 then 0.0 else RowSum(grid[last]) / cells as real)
  }

  datatype Metrics = Metrics(peakValue: real, peakIndex: nat, peakFrequencyHz: real, meanValue: real)

  /** The metrics of a channel that was just reset. */
  const RESET_METRICS := Metrics(0.0, 0, 0.0, 0.0)

  /** Channel::insertAcquisitionMetrics: a peak is kept only if it beats the stored one. */
  function Insert(m: Metrics, peakValue: real, peakIndex: nat, peakFrequencyHz: real, meanValue: real): Metrics {
    var kept := if peakValue > m.peakValue then Metrics(peakValue, peakIndex, peakFrequencyHz, m.meanValue) else m;
    kept.(meanValue := m.meanValue + meanValue)
  }

  /** The sum of all cells. */
  function Total(grid: Grid): real {
    if grid == [] then 0.0 else Total(grid[..|grid| - 1]) + RowSum(grid[|grid| - 1])
  }

  ghost predicate Rectangular(grid: Grid, n: nat) { forall b | 0 <= b < |grid| :: |grid[b]| == n }

  /** The running mean of a grid of n columns is the sum of its cells over the number of cells of all bins. */
  lemma {:induction false} MeanIsTotal(grid: Grid, bins: nat, n: nat)
    requires bins > 0 && n > 0 && Rectangular(grid, n)
    ensures GridMean(grid, bins) * (bins * n) as real == Total(grid)
  {
    if grid != [] {
      var last := |grid| - 1;
      MeanIsTotal(grid[..last], bins, n);
      AddShare(GridMean(grid[..last], bins), RowSum(grid[last]), (n * bins) as real, Total(grid[..last]));
      assert n * bins == bins * n > 0;
    }
  }

  lemma AddShare(mean: real, sum: real, cells: real, total: real)
    requires cells != 0.0 && mean * cells == total
    ensures (mean + sum / cells) * cells == total + sum
  {
  }

  lemma {:induction false} RowSumCounts(row: seq<real>, l: nat, v: real)
    requires l < |row|
    ensures RowSum(row[l := v]) == RowSum(row) - row[l] + v
  {
    var last := |row| - 1;
    if l == last {
      assert row[l := v][..last] == row[..last];
    } else {
      RowSumCounts(row[..last], l, v);
      assert row[l := v][..last] == row[..last][l := v];
    }
  }

  /** Every cell counts once in the sum: changing one changes the sum by as much. */
  lemma {:induction false} TotalCounts(grid: Grid, b: nat, l: nat, v: real)
    requires b < |grid| && l < |grid[b]|
    ensures Total(grid[b := grid[b][l := v]]) == Total(grid) - grid[b][l] + v
  {
    var last, other := |grid| - 1, grid[b := grid[b][l := v]];
    if b == last {
      assert other[..last] == grid[..last];
      RowSumCounts(grid[b], l, v);
    } else {
      TotalCounts(grid[..last], b, l, v);
      assert other[..last] == grid[..last][b := grid[b][l := v]];
    }
  }

  /** The metrics of a search whose first maximum is that value at that bin and lag. */
  predicate ReportsPeak(s: Settings, value: real, bin: nat, lag: nat, m: Metrics) {
    if value > 0.0 then
      && m.peakValue == value && m.peakIndex == lag
      && m.peakFrequencyHz == s.dopplerMinimum as real + bin as real * s.spacing as real
    else m.peakValue == 0.0 && m.peakIndex == 0 && m.peakFrequencyHz == 0.0
  }

  /** m reports the first maximum of a grid of n columns, and the mean of its cells. */
  ghost predicate Reports(s: Settings, grid: Grid, n: nat, m: Metrics) {
    && (exists bin: nat, lag: nat | FirstMaximum(grid, bin, lag) :: ReportsPeak(s, grid[bin][lag], bin, lag, m))
    && m.meanValue * (NumberOfBins(s) * n) as real == Total(grid)
  }

  lemma PeakReported(s: Settings, value: real, bin: nat, lag: nat, mean: real)
    ensures ReportsPeak(s, value, bin, lag, Insert(RESET_METRICS, value, lag, BinFrequency(s, bin), mean))
    ensures Insert(RESET_METRICS, value, lag, BinFrequency(s, bin), mean).meanValue == mean
  {
  }

  lemma InsertReports(s: Settings, grid: Grid, n: nat, bin: nat, lag: nat, m: Metrics)
    requires FirstMaximum(grid, bin, lag) && n > 0 && Rectangular(grid, n)
    requires m == Insert(RESET_METRICS, grid[bin][lag], lag, BinFrequency(s, bin), GridMean(grid, NumberOfBins(s)))
    ensures Reports(s, grid, n, m)
  {
    MeanIsTotal(grid, NumberOfBins(s), n);
    PeakReported(s, grid[bin][lag], bin, lag, GridMean(grid, NumberOfBins(s)));
    ReportedBoth(s, grid, n, bin, lag, m);
  }

  lemma ReportedBoth(s: Settings, grid: Grid, n: nat, bin: nat, lag: nat, m: Metrics)
    requires FirstMaximum(grid, bin, lag) && ReportsPeak(s, grid[bin][lag], bin, lag, m)
    requires m.meanValue * (NumberOfBins(s) * n) as real == Total(grid)
    ensures Reports(s, grid, n, m)
  {
  }

  function NaiveGrid<T(!new)>(r: Ring<T>, s: Settings, x: seq<T>, code: seq<T>): (grid: Grid)
    requires s.samplingHz != 0.0 && |code| == |x|
    ensures |grid| == NumberOfBins(s)
  {
    seq(NumberOfBins(s), (b: nat) => NaiveBin(r, s, x, code, b))
  }

  function ReuseBin<T(!new)>(r: Ring<T>, s: Settings, x: seq<T>, code: seq<T>, bin: nat): (m: seq<real>)
    requires s.samplingHz != 0.0 && |code| == |x|
    ensures |m| == |x|
  {
    Correlation(r, code, ReusedSpectrum(r, s, x, ReuseFactor(s), bin))
  }

  function ReuseGrid<T(!new)>(r: Ring<T>, s: Settings, x: seq<T>, code: seq<T>): (grid: Grid)
    requires s.samplingHz != 0.0 && |code| == |x|
    ensures |grid| == NumberOfBins(s) && forall b | 0 <= b < |grid| :: grid[b] == ReuseBin(r, s, x, code, b)
  {
    seq(NumberOfBins(s), (b: nat) => ReuseBin(r, s, x, code, b))
  }

  /** One spectrum per bin, or a reuse factor that is exact. */
  ghost predicate ReuseIsExact<T(!new)>(r: Ring<T>, s: Settings, n: nat)
    requires s.samplingHz != 0.0
  {
    ReuseFactor(s) >= NumberOfBins(s) || Exact(r, s, ReuseFactor(s), n)
  }

  /** The whole search equals the naive one when the spacing is exact, and in the fallback. */
  lemma ReuseGridIsNaive<T(!new)>(r: Ring<T>, s: Settings, x: seq<T>, code: seq<T>)
    requires r.Valid() && s.samplingHz != 0.0 && |code| == |x|
    requires ReuseIsExact(r, s, |x|)
    ensures ReuseGrid(r, s, x, code) == NaiveGrid(r, s, x, code)
  {
    forall b: nat | b < NumberOfBins(s)
      ensures ReuseBin(r, s, x, code, b) == NaiveBin(r, s, x, code, b)
    {
      BinReuse(r, s, x, ReuseFactor(s), b);
    }
  }

  /** 2048 samples at 2.049 MHz resolve 1000.49 Hz, which is taken for two spacings of 500 Hz. */
  const INEXACT := Settings(-4000, 4000, 500, 2048, 2049000.0)

  /** The tolerance of 0.001 accepts a spacing that is not exact, and bin 2 of an impulse is wrong. */
  lemma ToleranceAcceptsInexactSpacing<T(!new)>(r: Ring<T>)
    requires r.Valid() && r.Separates()
    ensures ReuseFactor(INEXACT) == 2 && NumberOfBins(INEXACT) == 17
    ensures ReusedSpectrum(r, INEXACT, Impulse(r, 2048), 2, 2)
         != Spectrum(r, Impulse(r, 2048), BinFrequency(INEXACT, 2), INEXACT.samplingHz)
  {
    var s := INEXACT;
    assert Ratio(s) == 2049000.0 / 2048.0 / 500.0;
    ReuseFactorIff(s, 2);
    AlignedIff(s, 2);
    ExactIff(r, s, 2, 2048);
    if BinIsNaive(r, s, Impulse(r, 2048), 2, 2) {
      ImpulseDetects(r, s, 2, 2048);
    }
  }

  // ----- the engine's slots

  /** C++ remainder, which takes the sign of the dividend. */
  function Remainder(a: int, b: int): int
    requires b > 0
  {
    if a >= 0 then a % b else -((-a) % b)
  }

  lemma WholeTurns(a: int, q: int, len: nat)
    requires len > 0
    ensures (a + q * len) % len == a % len
  {
    DivModUnique(a + q * len, len, a / len + q, a % len);
  }

  /** The source's way to a non-negative remainder. */
  lemma ShiftIsModulo(shiftBins: int, len: nat)
    requires len > 0
    ensures Remainder(Remainder(shiftBins, len) + len, len) == shiftBins % len
  {
    var a := Remainder(shiftBins, len);
    assert -(len as int) < a < len;
    WholeTurns(a, 1, len);
    var q := if shiftBins >= 0 then shiftBins / len else -((-shiftBins) / len);
    assert shiftBins == a + q * len;
    WholeTurns(a, q, len);
  }

  /** Adding the offset and wrapping once reads the cell shiftBins lower, modulo the length. */
  lemma OffsetIsShift(shiftBins: int, shift: nat, len: nat, i: nat)
    requires len > 0 && i < len && shift == shiftBins % len
    ensures var j := i + (len - shift) % len;
            (if j >= len then j - len else j) == (i - shiftBins) % len
  {
    var offset := if shift == 0 then 0 else len - shift;
    DivModUnique(len - shift, len, if shift == 0 then 1 else 0, offset);
    WholeTurns(i - shift, -(shiftBins / len), len);
    assert i - shiftBins == (i - shift) + -(shiftBins / len) * len;
    var d := i - shift;
    DivModUnique(d, len, if d < 0 then -1 else 0, if d < 0 then d + len else d);
  }

  method ComplexMultiplier<T(!new)>(r: Ring<T>, input1: seq<T>, input2: seq<T>) returns (product: seq<T>)
    requires |input1| <= |input2|
    ensures product == Mixed(r, input1, input2)
  {
    product := [];
    for j := 0 to |input1|
      invariant product == Mixed(r, input1, input2)[..j]
    {
      product := product + [r.mul(input1[j], input2[j])];
    }
  }

  /** The product with a resident spectrum read from an offset, wrapping at its end. */
  method ShiftedMultiplier<T(!new)>(r: Ring<T>, input1: seq<T>, resident: seq<T>, shiftBins: int)
    returns (product: seq<T>)
    requires |input1| == |resident|
    ensures product == Times(r, input1, Rotate(resident, shiftBins))
  {
    var length := |resident|;
    if length == 0 {
      return [];
    }
    ShiftIsModulo(shiftBins, length);
    var shift := Remainder(Remainder(shiftBins, length) + length, length);
    var offset := (length - shift) % length;
    ghost var rotated := Rotate(resident, shiftBins);
    product := [];
    for i := 0 to length
      invariant |product| == i
      invariant forall t | 0 <= t < i :: product[t] == r.mul(input1[t], rotated[t])
    {
      OffsetIsShift(shiftBins, shift, length, i);
      var j := i + offset;
      if j >= length {
        j := j - length;
      }
      product := product + [r.mul(input1[i], resident[j])];
    }
  }

  method Absolute<T(!new)>(r: Ring<T>, input: seq<T>) returns (output: seq<real>)
    ensures output == Magnitudes(r, input)
  {
    output := [];
    for i := 0 to |input|
      invariant output == Magnitudes(r, input)[..i]
    {
      output := output + [r.norm2(input[i])];
    }
  }

  class SlotPool<T(!new)> {
    const engine: SpectrumEngine<T>
    var slots: map<int, seq<T>>     // the spectra of the valid slots

    constructor (engine: SpectrumEngine<T>)
      ensures this.engine == engine && slots == map[]
    {
      this.engine, slots := engine, map[];
    }

    method MultiplyThenFftToSlot(input1: seq<T>, input2: seq<T>, d: Direction, slot: int) returns (status: int)
      requires engine.Valid() && |input1| <= |input2|
      modifies this, engine
      ensures engine.Valid()
      ensures status == if slot >= 0 && (|input1| == 0 || IsPowerOfTwo(|input1|)) then 0 else -1
      ensures slots == if status == 0 then old(slots)[slot := Transform(engine.r, Mixed(engine.r, input1, input2), d)]
                       else old(slots) - (if slot < 0 then {} else {slot})
    {
      if slot < 0 {
        assert old(slots) - {} == old(slots);
        return -1;
      }
      slots := slots - {slot};
      var product := ComplexMultiplier(engine.r, input1, input2);
      var spectrum;
      status, spectrum := engine.FftCpu(product, d);
      if status != 0 {
        return -1;
      }
      slots := slots[slot := spectrum];
    }

    method MultiplyResidentThenFftThenAbsolute(input1: seq<T>, slot: int, shiftBins: int, d: Direction)
      returns (status: int, output: seq<real>)
      requires engine.Valid()
      modifies engine
      ensures engine.Valid()
      ensures status
           == if slot >= 0 && slot in slots && 0 < |slots[slot]| == |input1| && IsPowerOfTwo(|input1|) then 0 else -1
      ensures status == 0 ==>
              output == Magnitudes(engine.r,
                                   Transform(engine.r, Times(engine.r, input1, Rotate(slots[slot], shiftBins)), d))
    {
      if slot < 0 || slot !in slots || |slots[slot]| == 0 || |input1| != |slots[slot]| {
        return -1, [];
      }
      var product := ShiftedMultiplier(engine.r, input1, slots[slot], shiftBins);
      var y;
      status, y := engine.FftCpu(product, d);
      if status != 0 {
        return -1, [];
      }
      output := Absolute(engine.r, y);
    }
  }

  // ----- the search

  class Acquisition<T(!new)> {
    const settings: Settings
    const r: Ring<T>
    var dopplerSearch: seq<seq<T>>   // the carriers of the computed spectra

    ghost predicate Valid()
      reads this
    {
      && r.Valid() && settings.samplingHz != 0.0 && settings.samplesPerCode >= 0
      && |dopplerSearch| == ReuseFactor(settings)
      && forall b | 0 <= b < |dopplerSearch| ::
           dopplerSearch[b] == Carrier(r, BinFrequency(settings, b), settings.samplingHz, settings.samplesPerCode)
    }

    constructor (settings: Settings, r: Ring<T>)
      requires r.Valid() && settings.samplingHz != 0.0 && settings.samplesPerCode >= 0
      ensures Valid() && this.settings == settings && this.r == r
    {
      this.settings, this.r := settings, r;
      dopplerSearch := [];
      new;
      var frequency := settings.dopplerMinimum as real;
      for b := 0 to ReuseFactor(settings)
        invariant this.settings == settings && this.r == r
        invariant |dopplerSearch| == b && frequency == BinFrequency(settings, b)
        invariant forall t | 0 <= t < b ::
          dopplerSearch[t] == Carrier(r, BinFrequency(settings, t), settings.samplingHz, settings.samplesPerCode)
      {
        var carrier := Exp(r, settings.samplesPerCode, frequency, settings.samplingHz);
        dopplerSearch := dopplerSearch + [carrier];
        assert (b + 1) as real == b as real + 1.0;
        frequency := frequency + settings.spacing as real;
      }
    }

    /** All spectra, or the slots left invalid by the first failure. */
    method FillSlots(input: seq<T>, pool: SlotPool<T>) returns (ok: bool)
      requires Valid() && pool.engine.Valid() && pool.engine.r == r && |input| <= settings.samplesPerCode
      modifies pool, pool.engine
      ensures pool.engine.Valid()
      ensures ok == (|input| == 0 || IsPowerOfTwo(|input|))
      ensures ok ==> SlotsHold(r, pool.slots, settings, input)
    {
      for b := 0 to ReuseFactor(settings)
        invariant pool.engine.Valid()
        invariant b > 0 ==> |input| == 0 || IsPowerOfTwo(|input|)
        invariant forall t | 0 <= t < b :: t in pool.slots &&
                    pool.slots[t] == Spectrum(r, input, BinFrequency(settings, t), settings.samplingHz)
      {
        CarrierPrefix(r, input, BinFrequency(settings, b), settings.samplingHz, dopplerSearch[b]);
        var status := pool.MultiplyThenFftToSlot(input, dopplerSearch[b], Forward, b);
        if status != 0 {
          return false;
        }
      }
      return true;
    }
  }

  method Exp<T(!new)>(r: Ring<T>, length: nat, frequency: real, samplingHz: real) returns (output: seq<T>)
    requires samplingHz != 0.0
    ensures output == Carrier(r, frequency, samplingHz, length)
  {
    output := [];
    for n := 0 to length
      invariant output == Carrier(r, frequency, samplingHz, length)[..n]
    {
      output := output + [r.turn(CarrierAngle(frequency, samplingHz, n))];
    }
  }

  lemma CarrierPrefix<T(!new)>(r: Ring<T>, input: seq<T>, frequency: real, samplingHz: real, carrier: seq<T>)
    requires samplingHz != 0.0 && |input| <= |carrier| && carrier == Carrier(r, frequency, samplingHz, |carrier|)
    ensures Transform(r, Mixed(r, input, carrier), Forward) == Spectrum(r, input, frequency, samplingHz)
  {
    assert Mixed(r, input, carrier) == Mixed(r, input, Carrier(r, frequency, samplingHz, |input|));
  }

  /** One bin: its sum, its first maximum and the index of that. */
  method ScanBin(values: seq<real>) returns (sumVal: real, maxVal: real, maxIndex: nat)
    requires |values| > 0
    ensures sumVal == RowSum(values)
    ensures maxIndex < |values| && maxVal == values[maxIndex]
    ensures forall l | 0 <= l < |values| :: values[l] <= maxVal && (l < maxIndex ==> values[l] < maxVal)
  {
    sumVal, maxVal, maxIndex := 0.0, values[0], 0;
    for i := 0 to |values|
      invariant sumVal == RowSum(values[..i])
      invariant maxIndex < |values| && maxVal == values[maxIndex] && (maxIndex < i || maxIndex == 0)
      invariant forall l | 0 <= l < i :: values[l] <= maxVal && (l < maxIndex ==> values[l] < maxVal)
    {
      assert values[..i + 1][..i] == values[..i];
      sumVal := sumVal + values[i];
      if values[i] > maxVal {
        maxVal, maxIndex := values[i], i;
      }
    }
    assert values[..|values|] == values;
  }

  /** The running variables of a search. */
  datatype Best = Best(peakValue: real, peakIndex: nat, peakFrequencyHz: real, meanTotal: real, haveResult: bool)

  /** The running variables describe the bins scanned so far. */
  ghost predicate Describes(s: Settings, grid: Grid, best: Best) {
    && best.meanTotal == GridMean(grid, NumberOfBins(s)) && best.haveResult == (|grid| > 0)
    && (|grid| > 0 ==> exists bin: nat | FirstMaximum(grid, bin, best.peakIndex) ::
          best.peakValue == grid[bin][best.peakIndex] && best.peakFrequencyHz == BinFrequency(s, bin))
  }

  lemma BestReports(s: Settings, grid: Grid, n: nat, best: Best, m: Metrics)
    requires Describes(s, grid, best) && |grid| > 0 && n > 0 && Rectangular(grid, n)
    requires m == Insert(RESET_METRICS, best.peakValue, best.peakIndex, best.peakFrequencyHz, best.meanTotal)
    ensures Reports(s, grid, n, m)
  {
    var bin: nat :| FirstMaximum(grid, bin, best.peakIndex) && best.peakValue == grid[bin][best.peakIndex]
                    && best.peakFrequencyHz == BinFrequency(s, bin);
    InsertReports(s, grid, n, bin, best.peakIndex, m);
  }

  lemma MaximumOfMore(grid: Grid, bin: nat, lag: nat, row: seq<real>, at: nat)
    requires FirstMaximum(grid, bin, lag) && FirstMaximum([row], 0, at)
    ensures row[at] > grid[bin][lag] ==> FirstMaximum(grid + [row], |grid|, at)
    ensures row[at] <= grid[bin][lag] ==> FirstMaximum(grid + [row], bin, lag)
  {
    assert [row][0] == row;
  }

  method AccumulateBin(s: Settings, best: Best, values: seq<real>, frequency: real, ghost grid: Grid)
    returns (next: Best)
    requires |values| > 0 && Describes(s, grid, best) && frequency == BinFrequency(s, |grid|)
    ensures Describes(s, grid + [values], next)
  {
    var sumVal, maxVal, maxIndex := ScanBin(values);
    ghost var more := grid + [values];
    assert more[..|grid|] == grid;
    assert FirstMaximum([values], 0, maxIndex);
    next := best.(meanTotal := best.meanTotal + sumVal / (|values| * NumberOfBins(s)) as real);
    if grid != [] {
      ghost var bin: nat :| FirstMaximum(grid, bin, best.peakIndex) &&
        best.peakValue == grid[bin][best.peakIndex] && best.peakFrequencyHz == BinFrequency(s, bin);
      MaximumOfMore(grid, bin, best.peakIndex, values, maxIndex);
      assert maxVal <= best.peakValue ==> more[bin] == grid[bin];
    } else {
      assert more == [values];
    }
    if !best.haveResult || maxVal > best.peakValue {
      next := Best(maxVal, maxIndex, frequency, next.meanTotal, true);
      assert FirstMaximum(more, |grid|, maxIndex);
    }
  }

  /** The slots hold the spectra that the bins read. */
  ghost predicate SlotsHold<T(!new)>(r: Ring<T>, slots: map<int, seq<T>>, s: Settings, input: seq<T>)
    requires s.samplingHz != 0.0
  {
    forall b: nat | b < ReuseFactor(s) :: b in slots && slots[b] == Spectrum(r, input, BinFrequency(s, b), s.samplingHz)
  }

  /** The grid scanned so far. */
  ghost predicate Scanned<T(!new)>(r: Ring<T>, s: Settings, input: seq<T>, code: seq<T>, grid: Grid)
    requires s.samplingHz != 0.0
  {
    grid == [] || (|code| == |input| && forall b | 0 <= b < |grid| :: grid[b] == ReuseBin(r, s, input, code, b))
  }

  lemma ScannedMore<T(!new)>(r: Ring<T>, s: Settings, input: seq<T>, code: seq<T>, grid: Grid, values: seq<real>)
    requires s.samplingHz != 0.0 && Scanned(r, s, input, code, grid)
    requires |code| == |input| && values == ReuseBin(r, s, input, code, |grid|)
    ensures Scanned(r, s, input, code, grid + [values])
  {
  }

  lemma ScannedAll<T(!new)>(r: Ring<T>, s: Settings, input: seq<T>, code: seq<T>, grid: Grid)
    requires s.samplingHz != 0.0 && |grid| == NumberOfBins(s) && Scanned(r, s, input, code, grid)
    ensures |code| == |input| && grid == ReuseGrid(r, s, input, code)
  {
  }

  lemma NextFrequency(s: Settings, bin: nat)
    ensures BinFrequency(s, bin + 1) == BinFrequency(s, bin) + s.spacing as real
  {
    assert (bin + 1) as real == bin as real + 1.0;
  }

  method ResidentBin<T(!new)>(pool: SlotPool<T>, s: Settings, ghost input: seq<T>, codeSpectrum: seq<T>, bin: nat)
    returns (status: int, values: seq<real>)
    requires pool.engine.Valid() && s.samplingHz != 0.0 && SlotsHold(pool.engine.r, pool.slots, s, input)
    modifies pool.engine
    ensures pool.engine.Valid()
    ensures status == if IsPowerOfTwo(|input|) && |codeSpectrum| == |input| then 0 else -1
    ensures status == 0 ==> |values| > 0 && values == ReuseBin(pool.engine.r, s, input, codeSpectrum, bin)
  {
    var k := ReuseFactor(s);
    assert (bin % k) in pool.slots;
    status, values := pool.MultiplyResidentThenFftThenAbsolute(codeSpectrum, bin % k, bin / k, Inverse);
  }

  /** One bin: its correlation, added to what was found before. */
  method ScanNext<T(!new)>(pool: SlotPool<T>, s: Settings, ghost input: seq<T>, codeSpectrum: seq<T>, bin: nat,
                           best: Best, frequency: real, ghost grid: Grid)
    returns (status: int, next: Best, ghost more: Grid)
    requires pool.engine.Valid() && s.samplingHz != 0.0 && SlotsHold(pool.engine.r, pool.slots, s, input)
    requires |grid| == bin && frequency == BinFrequency(s, bin)
    requires Describes(s, grid, best) && Scanned(pool.engine.r, s, input, codeSpectrum, grid)
    modifies pool.engine
    ensures pool.engine.Valid()
    ensures status == if IsPowerOfTwo(|input|) && |codeSpectrum| == |input| then 0 else -1
    ensures status == 0 ==>
              |more| == bin + 1 && Describes(s, more, next) && Scanned(pool.engine.r, s, input, codeSpectrum, more)
  {
    var values;
    status, values := ResidentBin(pool, s, input, codeSpectrum, bin);
    next, more := best, grid;
    if status == 0 {
      next := AccumulateBin(s, best, values, frequency, grid);
      ScannedMore(pool.engine.r, s, input, codeSpectrum, grid, values);
      more := grid + [values];
    }
  }

  /** The loop over the bins. */
  method ScanBins<T(!new)>(pool: SlotPool<T>, s: Settings, ghost input: seq<T>, codeSpectrum: seq<T>)
    returns (ok: bool, best: Best, ghost grid: Grid)
    requires pool.engine.Valid() && s.samplingHz != 0.0 && SlotsHold(pool.engine.r, pool.slots, s, input)
    modifies pool.engine
    ensures pool.engine.Valid()
    ensures ok == (IsPowerOfTwo(|input|) && |codeSpectrum| == |input|)
    ensures ok ==>
            |grid| == NumberOfBins(s) && Scanned(pool.engine.r, s, input, codeSpectrum, grid)
            && Describes(s, grid, best)
  {
    best, grid := Best(0.0, 0, BinFrequency(s, 0), 0.0, false), [];
    var frequency := BinFrequency(s, 0);
    for bin := 0 to NumberOfBins(s)
      invariant pool.engine.Valid()
      invariant bin > 0 ==> IsPowerOfTwo(|input|) && |codeSpectrum| == |input|
      invariant |grid| == bin && frequency == BinFrequency(s, bin)
      invariant Describes(s, grid, best) && Scanned(pool.engine.r, s, input, codeSpectrum, grid)
    {
      var status;
      status, best, grid := ScanNext(pool, s, input, codeSpectrum, bin, best, frequency, grid);
      if status != 0 {
        return false, best, [];
      }
      NextFrequency(s, bin);
      frequency := frequency + s.spacing as real;
    }
    return true, best, grid;
  }

  /** Acquisition::correlate on the host path.  When the transform fails or the sizes disagree, the
    * channel keeps its reset metrics. */
  method Correlate<T(!new)>(acq: Acquisition<T>, pool: SlotPool<T>, input: seq<T>, codeSpectrum: seq<T>)
    returns (found: bool, metrics: Metrics)
    requires acq.Valid() && pool.engine.Valid() && pool.engine.r == acq.r && |input| <= acq.settings.samplesPerCode
    modifies pool, pool.engine
    ensures pool.engine.Valid()
    ensures found == (IsPowerOfTwo(|input|) && |codeSpectrum| == |input|)
    ensures !found ==> metrics == RESET_METRICS
    ensures found ==> Reports(acq.settings, ReuseGrid(acq.r, acq.settings, input, codeSpectrum), |input|, metrics)
    ensures found && ReuseIsExact(acq.r, acq.settings, |input|) ==>
              Reports(acq.settings, NaiveGrid(acq.r, acq.settings, input, codeSpectrum), |input|, metrics)
  {
    var ok := acq.FillSlots(input, pool);
    if !ok {
      return false, RESET_METRICS;
    }
    var best;
    ghost var grid;
    ok, best, grid := ScanBins(pool, acq.settings, input, codeSpectrum);
    if !ok {
      return false, RESET_METRICS;
    }
    ScannedAll(acq.r, acq.settings, input, codeSpectrum, grid);
    if ReuseIsExact(acq.r, acq.settings, |input|) {
      ReuseGridIsNaive(acq.r, acq.settings, input, codeSpectrum);
    }
    metrics := Insert(RESET_METRICS, best.peakValue, best.peakIndex, best.peakFrequencyHz, best.meanTotal);
    BestReports(acq.settings, grid, |input|, best, metrics);
    return true, metrics;
  }
}
