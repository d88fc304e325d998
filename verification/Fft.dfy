/** The radix-2 transform of Source/Gpu/GPSOpenClSpectrumEngine.cpp (fftCpu): a bit-reversed copy
  * made with a reverse-carry counter, then butterflies in place.
  */
module Fft {
  import opened Rings
  import opened Bits

  datatype Direction = Forward | Inverse

  // ----- the discrete Fourier transform

  function At<T(!new)>(r: Ring<T>, x: seq<T>): nat -> T { (i: nat) => if i < |x| then x[i] else r.zero }

  function Term<T(!new)>(r: Ring<T>, w: T, x: seq<T>, k: nat): nat -> T {
    (n: nat) => r.mul(At(r, x)(n), Pow(r, w, n * k))
  }

  lemma TermAt<T(!new)>(r: Ring<T>, w: T, x: seq<T>, k: nat, n: nat)
    requires n < |x|
    ensures Term(r, w, x, k)(n) == r.mul(x[n], Pow(r, w, n * k))
  {
    assert At(r, x)(n) == x[n];
  }

  /** Cell k holds the sum over n of x[n] * w^(n*k). */
  function Dft<T(!new)>(r: Ring<T>, w: T, x: seq<T>): (y: seq<T>)
    ensures |y| == |x|
    ensures forall k | 0 <= k < |y| :: y[k] == Sum(r, |x|, Term(r, w, x, k))
  {
    seq(|x|, (k: nat) => Sum(r, |x|, Term(r, w, x, k)))
  }

  function Scale<T(!new)>(r: Ring<T>, c: T, x: seq<T>): (y: seq<T>)
    ensures |y| == |x| && forall k | 0 <= k < |y| :: y[k] == r.mul(x[k], c)
  {
    seq(|x|, i requires 0 <= i < |x| => r.mul(x[i], c))
  }

  function Sign(d: Direction): int { if d.Forward? then -1 else 1 }

  /** The n-th root of unity of each direction; the inverse uses conjugate twiddles. */
  function Root<T(!new)>(r: Ring<T>, n: nat, d: Direction): T { r.phasor(Sign(d), n) }

  /** What a caller of fft receives: the plain transform, or the inverse with its 1/N factor. */
  function Transform<T(!new)>(r: Ring<T>, x: seq<T>, d: Direction): (y: seq<T>)
    ensures |y| == |x|
  {
    if |x| == 0 then []
    else
      var y := Dft(r, Root(r, |x|, d), x);
      if d.Forward? then y else Scale(r, r.recip(|x|), y)
  }

  /** w^h == -1 for h = half a full turn of 2h steps. */
  ghost predicate HalfTurn<T(!new)>(r: Ring<T>, w: T, h: nat) { Pow(r, w, h) == r.neg(r.one) }

  lemma MinusOneSquared<T(!new)>(r: Ring<T>)
    requires r.Valid()
    ensures r.mul(r.neg(r.one), r.neg(r.one)) == r.one
  {
    MulNeg(r, r.neg(r.one), r.one);
    MulUnits(r, r.neg(r.one));
    NegNeg(r, r.one);
  }

  lemma HalfTurns<T(!new)>(r: Ring<T>)
    requires r.Valid()
    ensures r.turn(1.0) == r.one && r.turn(-1.0) == r.one && r.turn(-0.5) == r.neg(r.one)
  {
    assert r.TurnAdd(0.5, 0.5) && r.TurnAdd(1.0, -1.0) && r.TurnAdd(-1.0, 0.5);
    MinusOneSquared(r);
    MulUnits(r, r.turn(-1.0));
    MulUnits(r, r.turn(0.5));
  }

  lemma RootHalfTurn<T(!new)>(r: Ring<T>, h: nat, d: Direction)
    requires r.Valid() && h > 0
    ensures HalfTurn(r, Root(r, 2 * h, d), h)
  {
    HalfTurns(r);
    assert r.Fraction(Sign(d), 2 * h);
    var angle := Sign(d) as real / (2 * h) as real;
    var half := if d.Forward? then -0.5 else 0.5;
    assert h as real * angle == half;
    TurnPow(r, angle, h, half);
  }

  lemma RootSquared<T(!new)>(r: Ring<T>, h: nat, d: Direction)
    requires r.Valid() && h > 0
    ensures Root(r, h, d) == r.mul(Root(r, 2 * h, d), Root(r, 2 * h, d))
  {
    assert r.Fraction(Sign(d), 2 * h) && r.Fraction(Sign(d), h);
    var angle := Sign(d) as real / (2 * h) as real;
    assert r.TurnAdd(angle, angle);
    assert Sign(d) as real / h as real == angle + angle;
  }

  // ----- bit reversal

  /** The m-bit number i read backwards. */
  function BitReverse(m: nat, i: nat): (j: nat)
    requires i < Pow2(m)
    ensures j < Pow2(m)
  {
    if m == 0 then 0 else (if i % 2 == 1 then Pow2(m - 1) else 0) + BitReverse(m - 1, i / 2)
  }

  lemma {:induction false} BitReverseTop(m: nat, i: nat)
    requires m > 0 && i < Pow2(m)
    ensures i < Pow2(m - 1) ==> BitReverse(m, i) == 2 * BitReverse(m - 1, i)
    ensures i >= Pow2(m - 1) ==> BitReverse(m, i) == 2 * BitReverse(m - 1, i - Pow2(m - 1)) + 1
  {
    if m > 1 {
      BitReverseTop(m - 1, i / 2);
      assert i >= Pow2(m - 1) ==> (i - Pow2(m - 1)) / 2 == i / 2 - Pow2(m - 2);
    }
  }

  lemma {:induction false} BitReverseTwice(m: nat, i: nat)
    requires i < Pow2(m)
    ensures BitReverse(m, BitReverse(m, i)) == i
  {
    if m > 0 {
      BitReverseTwice(m - 1, i / 2);
      BitReverseTop(m, BitReverse(m, i));
    }
  }

  lemma {:induction false} BitReverseZero(m: nat)
    ensures BitReverse(m, 0) == 0
  {
    if m > 0 { BitReverseZero(m - 1); }
  }

  /** What testing and flipping the top bit of a reversed number does. */
  lemma CarryStep(left: nat, low: nat, next: nat, bit: nat)
    requires low < Pow2(left) && next == BitReverse(left, low) && bit == Pow2(left) / 2
    ensures And(next, bit) != 0 <==> left > 0 && low % 2 == 1
    ensures And(next, bit) != 0 ==> Xor(next, bit) == BitReverse(left - 1, low / 2)
    ensures And(next, bit) == 0 && low + 1 < Pow2(left) ==> Xor(next, bit) == BitReverse(left, low + 1)
  {
    if left > 0 {
      TopBit(next, left - 1);
    }
  }

  /** The reverse-carry increment: clears leading ones from the top bit down, then sets one bit. */
  method ReverseIncrement(revIndex: nat, n: nat, ghost m: nat, ghost i: nat) returns (next: nat)
    requires n == Pow2(m) && i < n && revIndex == BitReverse(m, i)
    ensures i + 1 < n ==> next == BitReverse(m, i + 1)
  {
    next := revIndex;
    var bit := n / 2;
    ghost var left: nat, low: nat := m, i;
    while And(next, bit) != 0
      invariant left <= m && bit == Pow2(left) / 2 && low < Pow2(left)
      invariant next == BitReverse(left, low)
      invariant low + 1 < Pow2(left) && i + 1 < n ==> BitReverse(m, i + 1) == BitReverse(left, low + 1)
      invariant low + 1 == Pow2(left) ==> i + 1 == n
      decreases bit
    {
      CarryStep(left, low, next, bit);
      next := Xor(next, bit);
      low := low / 2;
      left := left - 1;
      bit := bit / 2;
    }
    CarryStep(left, low, next, bit);
    next := Xor(next, bit);
  }

  // ----- decimation in time

  function Even<T>(f: nat -> T): nat -> T { (t: nat) => f(2 * t) }
  function Odd<T>(f: nat -> T): nat -> T { (t: nat) => f(2 * t + 1) }

  /** f(t) * a^t */
  function Weighted<T(!new)>(r: Ring<T>, a: T, f: nat -> T): nat -> T { (t: nat) => r.mul(f(t), Pow(r, a, t)) }

  /** The n-point transform of f at the frequency whose phasor is a. */
  function DftAt<T(!new)>(r: Ring<T>, a: T, n: nat, f: nat -> T): T { Sum(r, n, Weighted(r, a, f)) }

  lemma {:induction false} PowSquare<T(!new)>(r: Ring<T>, a: T, t: nat)
    requires r.Valid()
    ensures Pow(r, r.mul(a, a), t) == Pow(r, a, t + t) == r.mul(Pow(r, a, t), Pow(r, a, t))
  {
    PowProduct(r, a, a, t);
    PowAdd(r, a, t, t);
  }

  lemma DftSplit<T(!new)>(r: Ring<T>, a: T, h: nat, f: nat -> T)
    requires r.Valid()
    ensures DftAt(r, a, 2 * h, f) == r.add(DftAt(r, r.mul(a, a), h, Even(f)),
                                           r.mul(a, DftAt(r, r.mul(a, a), h, Odd(f))))
  {
    var b := r.mul(a, a);
    var even, rest := Weighted(r, b, Even(f)), Weighted(r, b, Odd(f));
    var odd := (t: nat) => r.mul(a, rest(t));
    forall t: nat | t < h
      ensures even(t) == Weighted(r, a, f)(2 * t) && odd(t) == Weighted(r, a, f)(2 * t + 1)
    {
      PowSquare(r, a, t);
      assert t + t == 2 * t;
      MulLeftComm(r, a, f(2 * t + 1), Pow(r, a, 2 * t));
    }
    SumEvenOdd(r, h, Weighted(r, a, f), even, odd);
    SumScale(r, h, a, rest, odd);
  }

  /** One butterfly turns two half-size transforms into two cells of the full-size one. */
  lemma ButterflyStep<T(!new)>(r: Ring<T>, g: T, h: nat, k: nat, f: nat -> T)
    requires r.Valid() && HalfTurn(r, g, h)
    ensures var gg, tw := r.mul(g, g), Pow(r, g, k);
            var u := DftAt(r, Pow(r, gg, k), h, Even(f));
            var v := r.mul(DftAt(r, Pow(r, gg, k), h, Odd(f)), tw);
            && DftAt(r, tw, 2 * h, f) == r.add(u, v)
            && DftAt(r, Pow(r, g, k + h), 2 * h, f) == r.Sub(u, v)
  {
    var gg, tw, minus := r.mul(g, g), Pow(r, g, k), r.neg(r.one);
    var b := DftAt(r, Pow(r, gg, k), h, Odd(f));
    PowProduct(r, g, g, k);
    PowAdd(r, g, k, h);
    DftSplit(r, tw, h, f);
    assert r.MulComm(tw, b);
    var tw' := Pow(r, g, k + h);
    MulExchange(r, tw, minus, tw, minus);
    MinusOneSquared(r);
    MulUnits(r, r.mul(tw, tw));
    DftSplit(r, tw', h, f);
    MulNeg(r, tw, r.one);
    MulUnits(r, tw);
    MulNeg(r, b, tw);
  }

  // ----- the array after each pass

  /** g(j) is the 2^j-th root of unity used for blocks of 2^j cells. */
  ghost predicate Roots<T(!new)>(r: Ring<T>, g: nat -> T) {
    forall j: nat :: HalfTurn(r, g(j + 1), Pow2(j)) && g(j) == r.mul(g(j + 1), g(j + 1))
  }

  ghost predicate RootsOf<T(!new)>(r: Ring<T>, d: Direction, g: nat -> T) {
    forall j: nat :: g(j) == Root(r, Pow2(j), d)
  }

  lemma SomeRoots<T(!new)>(r: Ring<T>, d: Direction) returns (g: nat -> T)
    ensures RootsOf(r, d, g)
  {
    g := (j: nat) => Root(r, Pow2(j), d);
  }

  lemma RootsAreRoots<T(!new)>(r: Ring<T>, d: Direction, g: nat -> T)
    requires r.Valid() && RootsOf(r, d, g)
    ensures Roots(r, g)
  {
    forall j: nat
      ensures HalfTurn(r, g(j + 1), Pow2(j)) && g(j) == r.mul(g(j + 1), g(j + 1))
    {
      RootStep(r, d, Pow2(j), g(j), g(j + 1));
    }
  }

  lemma RootStep<T(!new)>(r: Ring<T>, d: Direction, h: nat, w: T, w': T)
    requires r.Valid() && h > 0 && w == Root(r, h, d) && w' == Root(r, 2 * h, d)
    ensures HalfTurn(r, w', h) && w == r.mul(w', w')
  {
    RootHalfTurn(r, h, d);
    RootSquared(r, h, d);
  }

  function DftCell<T(!new)>(r: Ring<T>, w: T, n: nat, f: nat -> T, k: nat): T { DftAt(r, Pow(r, w, k), n, f) }

  /** The whole transform of f(0), ..., f(n-1). */
  function DftSeq<T(!new)>(r: Ring<T>, w: T, n: nat, f: nat -> T): (y: seq<T>)
    ensures |y| == n && forall k | 0 <= k < n :: y[k] == DftCell(r, w, n, f, k)
  {
    seq(n, (k: nat) => DftCell(r, w, n, f, k))
  }

  /** The 2^m cells that will become the transform of f, when blocks of 2^j cells are finished. */
  function Stage<T(!new)>(r: Ring<T>, g: nat -> T, j: nat, m: nat, f: nat -> T): (y: seq<T>)
    requires j <= m
    ensures |y| == Pow2(m)
    decreases m
  {
    if j == m then DftSeq(r, g(m), Pow2(m), f)
    else Stage(r, g, j, m - 1, Even(f)) + Stage(r, g, j, m - 1, Odd(f))
  }

  /** The cells before any pass are f in bit-reversed order. */
  lemma {:induction false} StageZero<T(!new)>(r: Ring<T>, g: nat -> T, m: nat, f: nat -> T, p: nat)
    requires r.Valid() && p < Pow2(m)
    ensures Stage(r, g, 0, m, f)[p] == f(BitReverse(m, p))
  {
    if m == 0 {
      assert Weighted(r, r.one, f)(0) == r.mul(f(0), r.one);
      assert Sum(r, 1, Weighted(r, r.one, f)) == r.add(Sum(r, 0, Weighted(r, r.one, f)), Weighted(r, r.one, f)(0));
      MulUnits(r, f(0));
      AddUnits(r, f(0));
    } else {
      var h := Pow2(m - 1);
      BitReverseTop(m, p);
      if p < h {
        StageZero(r, g, m - 1, Even(f), p);
      } else {
        StageZero(r, g, m - 1, Odd(f), p - h);
      }
    }
  }

  lemma PermutedIsStageZero<T(!new)>(r: Ring<T>, g: nat -> T, m: nat, x: seq<T>, y: seq<T>)
    requires r.Valid() && |x| == |y| == Pow2(m)
    requires forall i | 0 <= i < Pow2(m) :: y[BitReverse(m, i)] == x[i]
    ensures y == Stage(r, g, 0, m, At(r, x))
  {
    forall p | 0 <= p < |y|
      ensures y[p] == Stage(r, g, 0, m, At(r, x))[p]
    {
      BitReverseTwice(m, p);
      StageZero(r, g, m, At(r, x), p);
      assert y[BitReverse(m, BitReverse(m, p))] == x[BitReverse(m, p)];
    }
  }

  lemma LastStageIsDft<T(!new)>(r: Ring<T>, g: nat -> T, m: nat, x: seq<T>)
    requires r.Valid() && |x| == Pow2(m)
    ensures Stage(r, g, m, m, At(r, x)) == Dft(r, g(m), x)
  {
    var n, w := |x|, g(m);
    forall k | 0 <= k < n
      ensures DftCell(r, w, n, At(r, x), k) == Dft(r, w, x)[k]
    {
      forall t: nat | t < n
        ensures Weighted(r, Pow(r, w, k), At(r, x))(t) == Term(r, w, x, k)(t)
      {
        PowMul(r, w, k, t);
        assert k * t == t * k;
      }
      SumCongruence(r, n, Weighted(r, Pow(r, w, k), At(r, x)), Term(r, w, x, k));
    }
  }

  /** The two assignments of one butterfly, on the cells p and p + half. */
  ghost predicate Butterfly<T(!new)>(r: Ring<T>, before: seq<T>, after: seq<T>, half: nat, p: nat, tw: T) {
    && |before| == |after| && p + half < |before|
    && var u, v := before[p], r.mul(before[p + half], tw);
       after[p] == r.add(u, v) && after[p + half] == r.Sub(u, v)
  }

  /** after holds what all butterflies over blocks of 2^(j+1) cells make of before. */
  ghost predicate Pass<T(!new)>(r: Ring<T>, w: T, j: nat, m: nat, before: seq<T>, after: seq<T>)
    requires j < m && |before| == |after| == Pow2(m)
    decreases m
  {
    if j + 1 == m
    then forall k: nat | k < Pow2(j) :: Butterfly(r, before, after, Pow2(j), k, Pow(r, w, k))
    else
      var h := Pow2(m - 1);
      Pass(r, w, j, m - 1, before[..h], after[..h]) && Pass(r, w, j, m - 1, before[h..], after[h..])
  }

  lemma LastPass<T(!new)>(r: Ring<T>, g: nat -> T, j: nat, f: nat -> T)
    requires r.Valid() && Roots(r, g)
    ensures Pass(r, g(j + 1), j, j + 1, Stage(r, g, j, j + 1, f), Stage(r, g, j + 1, j + 1, f))
  {
    var h, w := Pow2(j), g(j + 1);
    var even, odd := DftSeq(r, g(j), h, Even(f)), DftSeq(r, g(j), h, Odd(f));
    var before, after := even + odd, DftSeq(r, w, 2 * h, f);
    assert Stage(r, g, j, j + 1, f) == before;
    assert Stage(r, g, j + 1, j + 1, f) == DftSeq(r, w, Pow2(j + 1), f) == after;
    forall k: nat | k < h ensures Butterfly(r, before, after, h, k, Pow(r, w, k)) {
      ButterflyStep(r, w, h, k, f);
      assert before[k] == even[k] && before[k + h] == odd[k];
    }
  }

  lemma StageHalves<T(!new)>(r: Ring<T>, g: nat -> T, j: nat, m: nat, f: nat -> T)
    requires j < m
    ensures Stage(r, g, j, m, f)[..Pow2(m - 1)] == Stage(r, g, j, m - 1, Even(f))
    ensures Stage(r, g, j, m, f)[Pow2(m - 1)..] == Stage(r, g, j, m - 1, Odd(f))
  {
  }

  lemma PassOfHalves<T(!new)>(r: Ring<T>, g: nat -> T, j: nat, m: nat, f: nat -> T)
    requires j + 1 < m
    requires Pass(r, g(j + 1), j, m - 1, Stage(r, g, j, m - 1, Even(f)), Stage(r, g, j + 1, m - 1, Even(f)))
    requires Pass(r, g(j + 1), j, m - 1, Stage(r, g, j, m - 1, Odd(f)), Stage(r, g, j + 1, m - 1, Odd(f)))
    ensures Pass(r, g(j + 1), j, m, Stage(r, g, j, m, f), Stage(r, g, j + 1, m, f))
  {
    StageHalves(r, g, j, m, f);
    StageHalves(r, g, j + 1, m, f);
  }

  /** The butterflies of one pass lead from one stage to the next. */
  lemma {:induction false} StagePass<T(!new)>(r: Ring<T>, g: nat -> T, j: nat, m: nat, f: nat -> T)
    requires r.Valid() && Roots(r, g) && j < m
    ensures Pass(r, g(j + 1), j, m, Stage(r, g, j, m, f), Stage(r, g, j + 1, m, f))
    decreases m
  {
    if j + 1 == m {
      LastPass(r, g, j, f);
    } else {
      StagePass(r, g, j, m - 1, Even(f));
      StagePass(r, g, j, m - 1, Odd(f));
      PassOfHalves(r, g, j, m, f);
    }
  }

  /** i is a multiple of 2^j below 2^m. */
  ghost predicate Aligned(j: nat, m: nat, i: nat)
    requires j <= m
    decreases m
  {
    if j == m then i == 0
    else if i < Pow2(m - 1) then Aligned(j, m - 1, i)
    else Aligned(j, m - 1, i - Pow2(m - 1))
  }

  lemma {:induction false} AlignedFirst(j: nat, m: nat)
    requires j <= m
    ensures Aligned(j, m, 0)
    decreases m
  {
    if j < m { AlignedFirst(j, m - 1); }
  }

  lemma {:induction false} AlignedNext(j: nat, m: nat, i: nat)
    requires j <= m && Aligned(j, m, i)
    ensures i + Pow2(j) <= Pow2(m)
    ensures i + Pow2(j) < Pow2(m) ==> Aligned(j, m, i + Pow2(j))
    decreases m
  {
    if j < m {
      var h := Pow2(m - 1);
      if i < h {
        AlignedNext(j, m - 1, i);
        AlignedFirst(j, m - 1);
      } else {
        AlignedNext(j, m - 1, i - h);
      }
    }
  }

  /** Every block of a pass is made of butterflies. */
  lemma {:induction false} PassAt<T(!new)>(r: Ring<T>, w: T, j: nat, m: nat, before: seq<T>, after: seq<T>, i: nat,
        k: nat)
    requires j < m && |before| == |after| == Pow2(m) && Pass(r, w, j, m, before, after)
    requires Aligned(j + 1, m, i) && k < Pow2(j)
    ensures Butterfly(r, before, after, Pow2(j), i + k, Pow(r, w, k))
    decreases m
  {
    if j + 1 < m {
      var h := Pow2(m - 1);
      if i < h {
        PassAt(r, w, j, m - 1, before[..h], after[..h], i, k);
      } else {
        PassAt(r, w, j, m - 1, before[h..], after[h..], i - h, k);
      }
    }
  }

  // ----- the loops

  /** The phasor at -(k*stride)/n of a turn, or its conjugate, is the k-th power of the root. */
  lemma TwiddlePower<T(!new)>(r: Ring<T>, n: nat, d: Direction, len: nat, stride: nat, k: nat)
    requires r.Valid() && len > 0 && stride > 0 && n == stride * len
    ensures var tw := r.phasor(-(k * stride), n);
            (if d.Inverse? then r.conj(tw) else tw) == Pow(r, Root(r, len, d), k)
  {
    AngleOfEntry(n, len, stride, k);
    assert r.Fraction(-(k * stride), n) && r.Fraction(Sign(d), len);
    var angle := (-(k * stride)) as real / n as real;
    var unit := Sign(d) as real / len as real;
    assert r.TurnConj(angle);
    var total := if d.Inverse? then -angle else angle;
    assert total == k as real * unit;
    TurnPow(r, unit, k, total);
  }

  lemma AngleOfEntry(n: nat, len: nat, stride: nat, k: nat)
    requires len > 0 && stride > 0 && n == stride * len
    ensures n > 0 && (-(k * stride)) as real / n as real == -(k as real * (1.0 / len as real))
    ensures k as real * (-1.0 / len as real) == -(k as real * (1.0 / len as real))
  {
    var a, b, c := k as real, stride as real, len as real;
    assert (k * stride) as real == a * b && n as real == b * c;
    assert (a * b) / (b * c) == a * (1.0 / c) by {
      assert a * (1.0 / c) * (b * c) == a * b * ((1.0 / c) * c);
    }
  }

  /** k * stride, by repeated addition */
  ghost function Multiple(k: nat, stride: nat): nat { if k == 0 then 0 else stride + Multiple(k - 1, stride) }

  lemma {:induction false} MultipleIsProduct(k: nat, stride: nat)
    ensures Multiple(k, stride) == k * stride
  {
    if k > 0 { MultipleIsProduct(k - 1, stride); }
  }

  /** The table entry read for butterfly k is the k-th power of w. */
  ghost predicate Entry<T(!new)>(r: Ring<T>, table: seq<T>, d: Direction, stride: nat, w: T, k: nat) {
    var at := Multiple(k, stride);
    at < |table| && (if d.Inverse? then r.conj(table[at]) else table[at]) == Pow(r, w, k)
  }

  /** The table serves the pass over blocks of len cells. */
  ghost predicate ServesPass<T(!new)>(r: Ring<T>, table: seq<T>, d: Direction, stride: nat, w: T, half: nat) {
    forall k: nat | k < half :: Entry(r, table, d, stride, w, k)
  }

  /** The table serves every pass over 2^m cells. */
  ghost predicate ServesAll<T(!new)>(r: Ring<T>, table: seq<T>, d: Direction, g: nat -> T, m: nat) {
    forall j: nat | j < m :: ServesPass(r, table, d, Pow2(m - (j + 1)), g(j + 1), Pow2(j))
  }

  ghost predicate IsTable<T(!new)>(r: Ring<T>, table: seq<T>, n: nat) {
    && |table| == n / 2
    && (forall k | 0 <= k < |table| :: table[k] == r.phasor(-k, n))
  }

  lemma TableEntry<T(!new)>(r: Ring<T>, table: seq<T>, d: Direction, n: nat, half: nat, stride: nat, k: nat)
    requires r.Valid() && IsTable(r, table, n)
    requires n == stride * (2 * half) && k < half && stride > 0
    ensures Entry(r, table, d, stride, Root(r, 2 * half, d), k)
  {
    MultipleIsProduct(k, stride);
    TableIndex(k, stride, half, n);
    TwiddlePower(r, n, d, 2 * half, stride, k);
  }

  lemma TableServes<T(!new)>(r: Ring<T>, table: seq<T>, d: Direction, n: nat, half: nat, stride: nat, w: T)
    requires r.Valid() && IsTable(r, table, n)
    requires n == stride * (2 * half) && stride > 0 && half > 0 && w == Root(r, 2 * half, d)
    ensures ServesPass(r, table, d, stride, w, half)
  {
    forall k: nat | k < half ensures Entry(r, table, d, stride, w, k) {
      TableEntry(r, table, d, n, half, stride, k);
    }
  }

  lemma TableServesAll<T(!new)>(r: Ring<T>, table: seq<T>, d: Direction, m: nat, g: nat -> T)
    requires r.Valid() && IsTable(r, table, Pow2(m)) && RootsOf(r, d, g)
    ensures ServesAll(r, table, d, g, m)
  {
    forall j: nat | j < m
      ensures ServesPass(r, table, d, Pow2(m - (j + 1)), g(j + 1), Pow2(j))
    {
      TableServesStage(r, table, d, m, j, g(j + 1));
    }
  }

  lemma TableServesStage<T(!new)>(r: Ring<T>, table: seq<T>, d: Direction, m: nat, j: nat, w: T)
    requires r.Valid() && j < m && IsTable(r, table, Pow2(m)) && w == Root(r, 2 * Pow2(j), d)
    ensures ServesPass(r, table, d, Pow2(m - (j + 1)), w, Pow2(j))
  {
    StrideTimesLen(m, j);
    TableServes(r, table, d, Pow2(m), Pow2(j), Pow2(m - (j + 1)), w);
  }

  lemma StrideTimesLen(m: nat, j: nat)
    requires j < m
    ensures Pow2(m) == Pow2(m - (j + 1)) * (2 * Pow2(j))
  {
    Pow2Add(m - (j + 1), j + 1);
  }

  lemma TableIndex(k: nat, stride: nat, half: nat, n: nat)
    requires n == stride * (2 * half) && k < half && stride > 0
    ensures 0 <= k * stride < n / 2
  {
    assert stride * half == stride * k + stride * (half - k);
    assert stride * (half - k) > 0;
  }

  method Stride(n: nat, len: nat, ghost m: nat, ghost j: nat) returns (stride: nat)
    requires n == Pow2(m) && len == Pow2(j + 1) && j < m
    ensures stride == n / len == Pow2(m - (j + 1))
  {
    Pow2Add(m - (j + 1), j + 1);
    DivModUnique(n, len, Pow2(m - (j + 1)), 0);
    stride := n / len;
  }

  lemma {:induction false} Pow2Add(a: nat, b: nat)
    ensures Pow2(a + b) == Pow2(a) * Pow2(b)
  {
    if a > 0 {
      Pow2Add(a - 1, b);
      assert 2 * (Pow2(a - 1) * Pow2(b)) == (2 * Pow2(a - 1)) * Pow2(b);
    }
  }

  /** The cells below i are those of after, the others still those of before. */
  ghost predicate FinishedTo<T>(data: seq<T>, before: seq<T>, after: seq<T>, i: nat) {
    |data| == |before| == |after| && forall p | 0 <= p < |data| :: data[p] == if p < i then after[p] else before[p]
  }

  lemma PassOnBlock<T(!new)>(r: Ring<T>, w: T, j: nat, m: nat, before: seq<T>, after: seq<T>, i: nat)
    requires j < m && |before| == |after| == Pow2(m) && Pass(r, w, j, m, before, after) && Aligned(j + 1, m, i)
    ensures forall k: nat | k < Pow2(j) :: Butterfly(r, before, after, Pow2(j), i + k, Pow(r, w, k))
  {
    forall k: nat | k < Pow2(j) ensures Butterfly(r, before, after, Pow2(j), i + k, Pow(r, w, k)) {
      PassAt(r, w, j, m, before, after, i, k);
    }
  }

  class SpectrumEngine<T(!new)> {
    const r: Ring<T>
    var twiddleTable: seq<T>
    var twiddleTableN: nat

    ghost predicate Valid()
      reads this
    {
      r.Valid() && IsTable(r, twiddleTable, twiddleTableN)
    }

    constructor (r: Ring<T>)
      requires r.Valid()
      ensures Valid() && this.r == r
    {
      this.r := r;
      twiddleTable, twiddleTableN := [], 0;
    }

    /** Rebuilds the table of twiddles when the length changed. */
    method PrepareTwiddles(n: nat)
      requires Valid() && n > 0
      modifies this
      ensures Valid() && twiddleTableN == n
    {
      if twiddleTableN != n {
        var table := [];
        for k := 0 to n / 2
          invariant |table| == k
          invariant forall i | 0 <= i < k :: table[i] == r.phasor(-i, n)
        {
          table := table + [r.phasor(-k, n)];
        }
        twiddleTable, twiddleTableN := table, n;
      }
    }

    /** The copy data[rev(i)] = input[i]. */
    method PermuteInput(input: seq<T>, data: array<T>, ghost m: nat)
      requires |input| == data.Length == Pow2(m)
      modifies data
      ensures forall i | 0 <= i < Pow2(m) :: data[BitReverse(m, i)] == input[i]
    {
      var n, revIndex, i := |input|, 0, 0;
      BitReverseZero(m);
      while i < n
        invariant i <= n && (i < n ==> revIndex == BitReverse(m, i))
        invariant forall t | 0 <= t < i :: data[BitReverse(m, t)] == input[t]
      {
        data[revIndex] := input[i];
        forall t | 0 <= t < i ensures BitReverse(m, t) != revIndex {
          BitReverseTwice(m, t);
          BitReverseTwice(m, i);
        }
        revIndex := ReverseIncrement(revIndex, n, m, i);
        i := i + 1;
      }
    }

    /** The butterflies of the block that starts at cell i. */
    method BlockButterflies(data: array<T>, d: Direction, i: nat, half: nat, stride: nat, ghost w: T,
                            ghost before: seq<T>, ghost after: seq<T>)
      requires |before| == |after| == data.Length && i + 2 * half <= data.Length
      requires ServesPass(r, twiddleTable, d, stride, w, half)
      requires forall k: nat | k < half :: Butterfly(r, before, after, half, i + k, Pow(r, w, k))
      requires FinishedTo(data[..], before, after, i)
      modifies data
      ensures FinishedTo(data[..], before, after, i + 2 * half)
    {
      var n, k := data.Length, 0;
      while k < half
        invariant k <= half
        invariant forall p | 0 <= p < n ::
            (data[p] == if p < i + k || i + half <= p < i + half + k then after[p] else before[p])
      {
        assert Butterfly(r, before, after, half, i + k, Pow(r, w, k));
        assert Entry(r, twiddleTable, d, stride, w, k);
        MultipleIsProduct(k, stride);
        var tw := twiddleTable[k * stride];
        var u := data[i + k];
        var v := r.mul(data[i + k + half], if d.Inverse? then r.conj(tw) else tw);
        data[i + k] := r.add(u, v);
        data[i + k + half] := r.Sub(u, v);
        k := k + 1;
      }
    }

    /** One value of len: the loop over blocks. */
    method ButterflyPass(data: array<T>, len: nat, d: Direction, ghost j: nat, ghost m: nat, ghost w: T,
                         ghost after: seq<T>)
      requires data.Length == |after| == Pow2(m) && j < m && len == Pow2(j + 1)
      requires ServesPass(r, twiddleTable, d, Pow2(m - (j + 1)), w, Pow2(j))
      requires Pass(r, w, j, m, data[..], after)
      modifies data
      ensures data[..] == after
    {
      var n := data.Length;
      ghost var before := data[..];
      var half := len / 2;
      var stride := Stride(n, len, m, j);
      var i := 0;
      AlignedFirst(j + 1, m);
      while i < n
        invariant i <= n && (i < n ==> Aligned(j + 1, m, i))
        invariant FinishedTo(data[..], before, after, i)
      {
        AlignedNext(j + 1, m, i);
        PassOnBlock(r, w, j, m, before, after, i);
        BlockButterflies(data, d, i, half, stride, w, before, after);
        i := i + len;
      }
    }

    /** The outer loop: len = 2, 4, ..., n. */
    method AllPasses(data: array<T>, d: Direction, ghost m: nat, ghost g: nat -> T, ghost f: nat -> T)
      requires r.Valid() && Roots(r, g) && data.Length == Pow2(m)
      requires ServesAll(r, twiddleTable, d, g, m)
      requires data[..] == Stage(r, g, 0, m, f)
      modifies data
      ensures data[..] == Stage(r, g, m, m, f)
    {
      var n := data.Length;
      var len := 2;
      ghost var j: nat := 0;
      while len <= n
        invariant j <= m && len == Pow2(j + 1)
        invariant data[..] == Stage(r, g, j, m, f)
        decreases n + 1 - len
      {
        Pow2Strict(m, j + 1);
        StagePass(r, g, j, m, f);
        assert ServesPass(r, twiddleTable, d, Pow2(m - (j + 1)), g(j + 1), Pow2(j));
        ButterflyPass(data, len, d, j, m, g(j + 1), Stage(r, g, j + 1, m, f));
        len := 2 * len;
        j := j + 1;
      }
      Pow2Strict(m, j + 1);
    }

    method ScaleInPlace(data: array<T>)
      modifies data
      ensures data[..] == Scale(r, r.recip(data.Length), old(data[..]))
    {
      var n := data.Length;
      for i := 0 to n
        invariant forall p | 0 <= p < n :: (data[p] == if p < i then r.mul(old(data[p]), r.recip(n)) else old(data[p]))
      {
        data[i] := r.mul(data[i], r.recip(n));
      }
    }

    /** fftCpu: status -1 and no output for a length that is not a power of two. */
    method FftCpu(input: seq<T>, d: Direction) returns (status: int, output: seq<T>)
      requires Valid()
      modifies this
      ensures Valid()
      ensures status == if |input| == 0 || IsPowerOfTwo(|input|) then 0 else -1
      ensures output == if status == 0 then Transform(r, input, d) else []
    {
      var n := |input|;
      if n == 0 {
        return 0, [];
      }
      SingleBitMeansPowerOfTwo(n);
      if !SingleBit(n) {
        return -1, [];
      }
      ghost var m: nat :| n == Pow2(m);
      var data := new T[n](_ => r.zero);
      PermuteInput(input, data, m);
      ghost var g := SomeRoots(r, d);
      RootsAreRoots(r, d, g);
      PermutedIsStageZero(r, g, m, input, data[..]);
      PrepareTwiddles(n);
      TableServesAll(r, twiddleTable, d, m, g);
      AllPasses(data, d, m, g, At(r, input));
      LastStageIsDft(r, g, m, input);
      if d.Inverse? {
        ScaleInPlace(data);
      }
      return 0, data[..];
    }
  }

  // ----- the inverse direction undoes the forward one

  lemma SecondHalf<T(!new)>(r: Ring<T>, g: T, h: nat)
    requires r.Valid()
    ensures Sum(r, h + h, Powers(r, g)) == r.add(Sum(r, h, Powers(r, g)), r.mul(Pow(r, g, h), Sum(r, h, Powers(r, g))))
  {
    var q := Pow(r, g, h);
    var high := ScaledPowers(r, q, g);
    forall k: nat | k < h ensures high(k) == Powers(r, g)(h + k) {
      PowAdd(r, g, h, k);
    }
    SumSplit(r, h, h, Powers(r, g), high);
    SumScale(r, h, q, Powers(r, g), high);
  }

  /** The powers of g, summed. */
  function Powers<T(!new)>(r: Ring<T>, g: T): nat -> T { (k: nat) => Pow(r, g, k) }
  function ScaledPowers<T(!new)>(r: Ring<T>, c: T, g: T): nat -> T { (k: nat) => r.mul(c, Pow(r, g, k)) }

  lemma OnePlus<T(!new)>(r: Ring<T>, s: T, q: T)
    requires r.Valid()
    ensures r.add(s, r.mul(q, s)) == r.mul(s, r.add(r.one, q))
  {
    assert r.Distrib(s, r.one, q) && r.MulComm(s, q);
    MulUnits(r, s);
  }

  /** The powers of w^d, for 0 < d < 2^m and w a primitive 2^m-th root, sum to zero. */
  lemma {:induction false} GeometricSum<T(!new)>(r: Ring<T>, w: T, m: nat, d: nat)
    requires r.Valid() && 0 < d < Pow2(m) && (m > 0 ==> HalfTurn(r, w, Pow2(m - 1)))
    ensures Sum(r, Pow2(m), Powers(r, Pow(r, w, d))) == r.zero
  {
    var h, g := Pow2(m - 1), Pow(r, w, d);
    var s, q := Sum(r, h, Powers(r, g)), Pow(r, g, h);
    SecondHalf(r, g, h);
    OnePlus(r, s, q);
    if d % 2 == 1 {
      OddPower(r, w, h, d);
      AddUnits(r, r.one);
      MulZero(r, s);
    } else {
      var e := d / 2;
      PowSquare(r, w, e);
      if m > 1 { PowSquare(r, w, Pow2(m - 2)); }
      GeometricSum(r, r.mul(w, w), m - 1, e);
      MulZero(r, r.add(r.one, q));
    }
  }

  lemma {:induction false} OddPower<T(!new)>(r: Ring<T>, w: T, h: nat, d: nat)
    requires r.Valid() && d % 2 == 1 && HalfTurn(r, w, h)
    ensures HalfTurn(r, Pow(r, w, d), h)
  {
    PowCommute(r, w, d, h);
    PowOfMinusOne(r, d);
  }

  lemma PowCommute<T(!new)>(r: Ring<T>, a: T, d: nat, e: nat)
    requires r.Valid()
    ensures Pow(r, Pow(r, a, d), e) == Pow(r, Pow(r, a, e), d)
  {
    PowMul(r, a, d, e);
    PowMul(r, a, e, d);
    assert d * e == e * d;
  }

  lemma {:induction false} PowOfMinusOne<T(!new)>(r: Ring<T>, d: nat)
    requires r.Valid()
    ensures Pow(r, r.neg(r.one), d) == if d % 2 == 1 then r.neg(r.one) else r.one
  {
    if d > 0 {
      PowOfMinusOne(r, d - 1);
      MinusOneSquared(r);
      MulUnits(r, r.neg(r.one));
    }
  }

  /** w^n * v^j, where v is the inverse of w, is a power of one of the two. */
  lemma {:induction false} Ratio<T(!new)>(r: Ring<T>, w: T, v: T, n: nat, j: nat)
    requires r.Valid() && r.mul(w, v) == r.one
    ensures r.mul(Pow(r, w, n), Pow(r, v, j)) == if n >= j then Pow(r, w, n - j) else Pow(r, v, j - n)
  {
    if n == 0 {
      MulUnits(r, Pow(r, v, j));
    } else if j == 0 {
      MulUnits(r, Pow(r, w, n));
    } else {
      Ratio(r, w, v, n - 1, j - 1);
      var a, b := Pow(r, w, n - 1), Pow(r, v, j - 1);
      MulExchange(r, w, a, v, b);
      MulUnits(r, r.mul(a, b));
    }
  }

  lemma RootsCancel<T(!new)>(r: Ring<T>, n: nat)
    requires r.Valid() && n > 0
    ensures r.mul(Root(r, n, Forward), Root(r, n, Inverse)) == r.one
  {
    assert r.Fraction(-1, n) && r.Fraction(1, n);
    assert r.TurnAdd(-1.0 / n as real, 1.0 / n as real);
    assert -1.0 / n as real + 1.0 / n as real == 0.0;
  }

  /** Orthogonality of the phasor rows. */
  lemma Orthogonality<T(!new)>(r: Ring<T>, w: T, v: T, m: nat, n: nat, j: nat)
    requires r.Valid() && r.mul(w, v) == r.one
    requires m > 0 ==> HalfTurn(r, w, Pow2(m - 1)) && HalfTurn(r, v, Pow2(m - 1))
    requires n < Pow2(m) && j < Pow2(m)
    ensures Sum(r, Pow2(m), Powers(r, r.mul(Pow(r, w, n), Pow(r, v, j))))
         == if n == j then Sum(r, Pow2(m), Const(r.one)) else r.zero
  {
    var size := Pow2(m);
    Ratio(r, w, v, n, j);
    if n > j {
      GeometricSum(r, w, m, n - j);
    } else if n < j {
      GeometricSum(r, v, m, j - n);
    } else {
      forall k: nat | k < size ensures Powers(r, r.one)(k) == Const(r.one)(k) {
        PowOne(r, k);
      }
      SumCongruence(r, size, Powers(r, r.one), Const(r.one));
    }
  }

  /** x[n] * w^(n*k) * v^(k*j) */
  function Cross<T(!new)>(r: Ring<T>, w: T, v: T, x: seq<T>, j: nat): (nat, nat) -> T {
    (n: nat, k: nat) => r.mul(At(r, x)(n), Pow(r, r.mul(Pow(r, w, n), Pow(r, v, j)), k))
  }

  lemma CrossTerm<T(!new)>(r: Ring<T>, w: T, v: T, x: seq<T>, j: nat, n: nat, k: nat)
    requires r.Valid()
    ensures Cross(r, w, v, x, j)(n, k) == r.mul(Pow(r, v, k * j), Term(r, w, x, k)(n))
  {
    var a, b, xn := Pow(r, w, n * k), Pow(r, v, k * j), At(r, x)(n);
    PowProduct(r, Pow(r, w, n), Pow(r, v, j), k);
    PowMul(r, w, n, k);
    PowMul(r, v, j, k);
    assert j * k == k * j;
    assert r.MulAssoc(xn, a, b) && r.MulComm(r.mul(xn, a), b);
  }

  /** The unscaled inverse transform of the transform is N times the input. */
  lemma DftInverts<T(!new)>(r: Ring<T>, w: T, v: T, m: nat, x: seq<T>, j: nat)
    requires r.Valid() && r.mul(w, v) == r.one
    requires m > 0 ==> HalfTurn(r, w, Pow2(m - 1)) && HalfTurn(r, v, Pow2(m - 1))
    requires |x| == Pow2(m) && j < |x|
    ensures Dft(r, v, Dft(r, w, x))[j] == r.mul(x[j], Sum(r, |x|, Const(r.one)))
  {
    var size, y, f := |x|, Dft(r, w, x), Cross(r, w, v, x, j);
    forall k: nat | k < size
      ensures Term(r, v, y, j)(k) == ColumnSums(r, f, size)(k)
    {
      forall n: nat | n < size
        ensures Column(f, k)(n) == r.mul(Pow(r, v, k * j), Term(r, w, x, k)(n))
      {
        CrossTerm(r, w, v, x, j, n, k);
      }
      SumScale(r, size, Pow(r, v, k * j), Term(r, w, x, k), Column(f, k));
      assert ColumnSums(r, f, size)(k) == r.mul(Pow(r, v, k * j), y[k]);
      assert r.MulComm(Pow(r, v, k * j), y[k]);
      assert Term(r, v, y, j)(k) == r.mul(At(r, y)(k), Pow(r, v, k * j));
    }
    SumCongruence(r, size, Term(r, v, y, j), ColumnSums(r, f, size));
    SumSwap(r, size, size, f);
    forall n: nat | n < size
      ensures RowSums(r, f, size)(n) == if n == j then r.mul(x[j], Sum(r, size, Const(r.one))) else r.zero
    {
      var g := r.mul(Pow(r, w, n), Pow(r, v, j));
      forall k: nat | k < size ensures Row(f, n)(k) == r.mul(x[n], Powers(r, g)(k)) {
        assert Row(f, n)(k) == f(n, k);
        assert f(n, k) == r.mul(At(r, x)(n), Pow(r, g, k));
      }
      SumScale(r, size, x[n], Powers(r, g), Row(f, n));
      Orthogonality(r, w, v, m, n, j);
      MulZero(r, x[n]);
    }
    SumOfOne(r, size, RowSums(r, f, size), j);
  }

  /** Running fft forward and then inverse returns the original samples. */
  lemma InverseUndoesForward<T(!new)>(r: Ring<T>, x: seq<T>)
    requires r.Valid() && (|x| == 0 || IsPowerOfTwo(|x|))
    ensures Transform(r, Transform(r, x, Forward), Inverse) == x
  {
    if |x| > 0 {
      var m: nat :| |x| == Pow2(m);
      var n := |x|;
      var w, v := Root(r, n, Forward), Root(r, n, Inverse);
      if m > 0 {
        RootHalfTurn(r, Pow2(m - 1), Forward);
        RootHalfTurn(r, Pow2(m - 1), Inverse);
      }
      RootsCancel(r, n);
      var count := Sum(r, n, Const(r.one));
      forall j | 0 <= j < n
        ensures Transform(r, Transform(r, x, Forward), Inverse)[j] == x[j]
      {
        DftInverts(r, w, v, m, x, j);
        assert r.Recip(n) && r.MulComm(r.recip(n), count) && r.MulAssoc(x[j], count, r.recip(n));
        MulUnits(r, x[j]);
      }
    }
  }
}
