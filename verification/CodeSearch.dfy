/** What the bins of Source/Acquisition/GPSOpenClAcquisition.cpp hold: with the code spectra of
  * Source/Acquisition/GPSOpenClCaCodeGenerator.cpp, the circular correlation of the mixed input with the code.
  */
module CodeSearch {
  import opened Rings
  import opened Bits
  import opened Fft
  import opened DopplerSearch

  // ----- sums around the circle

  /** Index t, moved back by m on the circle. */
  function Back(n: nat, m: nat, t: nat): (j: nat)
    requires m < n && t < n
    ensures j < n
  {
    if t < m then n - m + t else t - m
  }

  /** g is f, moved around the circle of n indices. */
  ghost predicate Moved<T>(f: nat -> T, g: nat -> T, n: nat, m: nat) {
    m < n && forall t: nat | t < n :: MovedAt(f, g, n, m, t)
  }

  ghost predicate MovedAt<T>(f: nat -> T, g: nat -> T, n: nat, m: nat, t: nat)
    requires m < n && t < n
  {
    g(t) == f(Back(n, m, t))
  }

  function From<T>(f: nat -> T, m: nat): nat -> T { (i: nat) => f(m + i) }

  lemma BackIsModulo(n: nat, m: nat, t: nat)
    requires m < n && t < n
    ensures (t - m) % n == Back(n, m, t)
  {
    DivModUnique(t - m, n, if t < m then -1 else 0, Back(n, m, t));
  }

  lemma HalvesMove<T>(f: nat -> T, g: nat -> T, n: nat, m: nat)
    requires Moved(f, g, n, m)
    ensures forall t: nat | t < m :: g(t) == From(f, n - m)(t)
    ensures forall t: nat | t < n - m :: From(g, m)(t) == f(t)
  {
    forall t: nat | t < m ensures g(t) == From(f, n - m)(t) {
      assert MovedAt(f, g, n, m, t);
    }
    forall t: nat | t < n - m ensures From(g, m)(t) == f(t) {
      assert MovedAt(f, g, n, m, m + t);
    }
  }

  lemma SumMoves<T(!new)>(r: Ring<T>, f: nat -> T, g: nat -> T, n: nat, m: nat)
    requires r.Valid() && Moved(f, g, n, m)
    ensures Sum(r, n, g) == Sum(r, n, f)
  {
    var low: nat := n - m;
    HalvesMove(f, g, n, m);
    SumOfParts(r, low, m, f);
    SumOfParts(r, m, low, g);
    SumCongruence(r, m, g, From(f, low));
    SumCongruence(r, low, From(g, m), f);
    assert r.AddComm(Sum(r, low, f), Sum(r, m, From(f, low)));
  }

  lemma SumOfParts<T(!new)>(r: Ring<T>, a: nat, b: nat, f: nat -> T)
    requires r.Valid()
    ensures Sum(r, a + b, f) == r.add(Sum(r, a, f), Sum(r, b, From(f, a)))
  {
    SumSplit(r, a, b, f, From(f, a));
  }

  // ----- moving the code turns its spectrum

  lemma PowerMoves<T(!new)>(r: Ring<T>, v: T, n: nat, m: nat, t: nat, i: nat)
    requires r.Valid() && Pow(r, v, n) == r.one && m < n && t < n
    ensures Pow(r, v, t * i) == r.mul(Pow(r, v, Back(n, m, t) * i), Pow(r, v, m * i))
  {
    var j := Back(n, m, t);
    PowAdd(r, v, j * i, m * i);
    if t < m {
      Expand(j, m, n, t, i);
      PowAdd(r, v, n * i, t * i);
      PowMul(r, v, n, i);
      PowOne(r, i);
      MulUnits(r, Pow(r, v, t * i));
    } else {
      Expand(j, m, 0, t, i);
    }
  }

  lemma Expand(j: nat, m: nat, n: nat, t: nat, i: nat)
    requires j + m == n + t
    ensures j * i + m * i == n * i + t * i
  {
    assert (j + m) * i == (n + t) * i;
  }

  /** The terms of a spectrum's cell, each times c. */
  function TermTimes<T(!new)>(r: Ring<T>, v: T, x: seq<T>, i: nat, c: T): nat -> T {
    (t: nat) => r.mul(c, Term(r, v, x, i)(t))
  }

  /** The samples of code, moved around the circle. */
  ghost predicate IsDelayed<T(!new)>(code: seq<T>, moved: seq<T>, m: nat) {
    m < |code| == |moved| && forall t: nat | t < |code| :: DelayedAt(code, moved, m, t)
  }

  ghost predicate DelayedAt<T(!new)>(code: seq<T>, moved: seq<T>, m: nat, t: nat)
    requires m < |code| == |moved| && t < |code|
  {
    moved[t] == code[Back(|code|, m, t)]
  }

  lemma RotatedIsDelayed<T(!new)>(code: seq<T>, m: nat)
    requires m < |code|
    ensures IsDelayed(code, Rotate(code, m), m)
  {
    var moved := Rotate(code, m);
    forall t: nat | t < |code| ensures DelayedAt(code, moved, m, t) {
      BackIsModulo(|code|, m, t);
    }
  }

  lemma TermsApart<T(!new)>(r: Ring<T>, v: T, code: seq<T>, moved: seq<T>, m: nat, i: nat, t: nat)
    requires r.Valid() && Pow(r, v, |code|) == r.one && m < |code| && t < |moved| == |code|
    requires moved[t] == code[Back(|code|, m, t)]
    ensures Term(r, v, moved, i)(t) == r.mul(Pow(r, v, m * i), Term(r, v, code, i)(Back(|code|, m, t)))
  {
    var j := Back(|code|, m, t);
    PowerMoves(r, v, |code|, m, t, i);
    TermAt(r, v, moved, i, t);
    TermAt(r, v, code, i, j);
    OutOfTerm(r, code[j], Pow(r, v, j * i), Pow(r, v, m * i));
  }

  lemma OutOfTerm<T(!new)>(r: Ring<T>, x: T, p: T, c: T)
    requires r.Valid()
    ensures r.mul(x, r.mul(p, c)) == r.mul(c, r.mul(x, p))
  {
    assert r.MulAssoc(x, p, c) && r.MulComm(r.mul(x, p), c);
  }

  lemma TermMoves<T(!new)>(r: Ring<T>, v: T, code: seq<T>, moved: seq<T>, m: nat, i: nat)
    requires r.Valid() && Pow(r, v, |code|) == r.one && IsDelayed(code, moved, m)
    ensures Moved(TermTimes(r, v, code, i, Pow(r, v, m * i)), Term(r, v, moved, i), |code|, m)
  {
    var f, g := TermTimes(r, v, code, i, Pow(r, v, m * i)), Term(r, v, moved, i);
    forall t: nat | t < |code| ensures MovedAt(f, g, |code|, m, t) {
      assert DelayedAt(code, moved, m, t);
      TermsApart(r, v, code, moved, m, i, t);
    }
  }

  lemma CellTurns<T(!new)>(r: Ring<T>, v: T, code: seq<T>, moved: seq<T>, m: nat, i: nat, c: T)
    requires r.Valid() && Moved(TermTimes(r, v, code, i, c), Term(r, v, moved, i), |code|, m)
    requires |moved| == |code| && i < |code|
    ensures Dft(r, v, moved)[i] == r.mul(c, Dft(r, v, code)[i])
  {
    SumMoves(r, TermTimes(r, v, code, i, c), Term(r, v, moved, i), |code|, m);
    SumScale(r, |code|, c, Term(r, v, code, i), TermTimes(r, v, code, i, c));
    DftAtCell(r, v, code, i);
    DftAtCell(r, v, moved, i);
  }

  lemma SpectrumTurns<T(!new)>(r: Ring<T>, v: T, code: seq<T>, moved: seq<T>, m: nat, i: nat)
    requires r.Valid() && Pow(r, v, |code|) == r.one && i < |code| && IsDelayed(code, moved, m)
    ensures Dft(r, v, moved)[i] == r.mul(Pow(r, v, m * i), Dft(r, v, code)[i])
  {
    TermMoves(r, v, code, moved, m, i);
    CellTurns(r, v, code, moved, m, i, Pow(r, v, m * i));
  }

  lemma DftAtCell<T(!new)>(r: Ring<T>, v: T, x: seq<T>, i: nat)
    requires i < |x|
    ensures Dft(r, v, x)[i] == Sum(r, |x|, Term(r, v, x, i))
  {
  }

  // ----- the product of two spectra, transformed back

  /** a[i] * b[i] */
  function Product<T(!new)>(r: Ring<T>, a: seq<T>, b: seq<T>): nat -> T {
    (i: nat) => r.mul(At(r, a)(i), At(r, b)(i))
  }

  lemma ProductAt<T(!new)>(r: Ring<T>, a: seq<T>, b: seq<T>, i: nat)
    requires i < |a| && i < |b|
    ensures Product(r, a, b)(i) == r.mul(a[i], b[i])
  {
    assert At(r, a)(i) == a[i] && At(r, b)(i) == b[i];
  }

  function Pairs<T(!new)>(r: Ring<T>, v: T, a: seq<T>, b: seq<T>): (nat, nat) -> T {
    (i: nat, t: nat) => r.mul(r.mul(At(r, a)(i), At(r, b)(t)), Pow(r, v, t * i))
  }

  lemma PairAt<T(!new)>(r: Ring<T>, v: T, a: seq<T>, b: seq<T>, i: nat, t: nat)
    requires i < |a| && t < |b|
    ensures Pairs(r, v, a, b)(i, t) == r.mul(r.mul(a[i], b[t]), Pow(r, v, t * i))
  {
    assert At(r, a)(i) == a[i] && At(r, b)(t) == b[t];
  }

  lemma PairInRow<T(!new)>(r: Ring<T>, v: T, a: seq<T>, b: seq<T>, i: nat, t: nat)
    requires r.Valid() && i < |a| && t < |b|
    ensures Row(Pairs(r, v, a, b), i)(t) == r.mul(a[i], Term(r, v, b, i)(t))
  {
    PairAt(r, v, a, b, i, t);
    TermAt(r, v, b, i, t);
    assert r.MulAssoc(a[i], b[t], Pow(r, v, t * i));
    assert Row(Pairs(r, v, a, b), i)(t) == Pairs(r, v, a, b)(i, t);
  }

  lemma PairInColumn<T(!new)>(r: Ring<T>, v: T, a: seq<T>, b: seq<T>, i: nat, t: nat)
    requires r.Valid() && i < |a| && t < |b|
    ensures Column(Pairs(r, v, a, b), t)(i) == r.mul(b[t], Term(r, v, a, t)(i))
  {
    PairAt(r, v, a, b, i, t);
    TermAt(r, v, a, t, i);
    assert t * i == i * t;
    assert r.MulComm(a[i], b[t]) && r.MulAssoc(b[t], a[i], Pow(r, v, t * i));
    assert Column(Pairs(r, v, a, b), t)(i) == Pairs(r, v, a, b)(i, t);
  }

  lemma RowOfPairs<T(!new)>(r: Ring<T>, v: T, a: seq<T>, b: seq<T>, i: nat)
    requires r.Valid() && |a| == |b| && i < |a|
    ensures RowSums(r, Pairs(r, v, a, b), |a|)(i) == Product(r, a, Dft(r, v, b))(i)
  {
    var row := Row(Pairs(r, v, a, b), i);
    forall t: nat | t < |b| ensures row(t) == r.mul(a[i], Term(r, v, b, i)(t)) {
      PairInRow(r, v, a, b, i, t);
    }
    SumScale(r, |a|, a[i], Term(r, v, b, i), row);
    ProductAt(r, a, Dft(r, v, b), i);
    assert RowSums(r, Pairs(r, v, a, b), |a|)(i) == Sum(r, |a|, row);
  }

  lemma ColumnOfPairs<T(!new)>(r: Ring<T>, v: T, a: seq<T>, b: seq<T>, t: nat)
    requires r.Valid() && |a| == |b| && t < |b|
    ensures ColumnSums(r, Pairs(r, v, a, b), |a|)(t) == Product(r, b, Dft(r, v, a))(t)
  {
    var column := Column(Pairs(r, v, a, b), t);
    forall i: nat | i < |a| ensures column(i) == r.mul(b[t], Term(r, v, a, t)(i)) {
      PairInColumn(r, v, a, b, i, t);
    }
    SumScale(r, |a|, b[t], Term(r, v, a, t), column);
    ProductAt(r, b, Dft(r, v, a), t);
    assert ColumnSums(r, Pairs(r, v, a, b), |a|)(t) == Sum(r, |a|, column);
  }

  /** A sequence against the spectrum of another is the other against the spectrum of the one. */
  lemma PairingSwaps<T(!new)>(r: Ring<T>, v: T, a: seq<T>, b: seq<T>)
    requires r.Valid() && |a| == |b|
    ensures Sum(r, |a|, Product(r, a, Dft(r, v, b))) == Sum(r, |a|, Product(r, b, Dft(r, v, a)))
  {
    var n, f := |a|, Pairs(r, v, a, b);
    forall i: nat | i < n ensures RowSums(r, f, n)(i) == Product(r, a, Dft(r, v, b))(i) {
      RowOfPairs(r, v, a, b, i);
    }
    forall t: nat | t < n ensures ColumnSums(r, f, n)(t) == Product(r, b, Dft(r, v, a))(t) {
      ColumnOfPairs(r, v, a, b, t);
    }
    SumCongruence(r, n, RowSums(r, f, n), Product(r, a, Dft(r, v, b)));
    SumCongruence(r, n, ColumnSums(r, f, n), Product(r, b, Dft(r, v, a)));
    SumSwap(r, n, n, f);
  }

  lemma InversePeriod<T(!new)>(r: Ring<T>, n: nat)
    requires r.Valid() && n > 0
    ensures Pow(r, Root(r, n, Inverse), n) == r.one
  {
    HalfTurns(r);
    assert r.Fraction(1, n);
    TurnPow(r, 1.0 / n as real, n, 1.0);
  }

  /** Cell m of the transformed product is the other spectrum against the spectrum of the code moved by m. */
  lemma ProductTerm<T(!new)>(r: Ring<T>, v: T, code: seq<T>, other: seq<T>, m: nat, i: nat)
    requires r.Valid() && |code| == |other| && Pow(r, v, |code|) == r.one && m < |code| && i < |code|
    ensures Term(r, v, Times(r, Dft(r, v, code), other), m)(i)
         == Product(r, other, Dft(r, v, Rotate(code, m)))(i)
  {
    RotatedIsDelayed(code, m);
    SpectrumTurns(r, v, code, Rotate(code, m), m, i);
    TurnedTerm(r, v, Dft(r, v, code), other, Dft(r, v, Rotate(code, m)), m, i);
  }

  lemma TurnedTerm<T(!new)>(r: Ring<T>, v: T, c: seq<T>, other: seq<T>, moved: seq<T>, m: nat, i: nat)
    requires r.Valid() && |c| == |other| == |moved| && i < |c| && moved[i] == r.mul(Pow(r, v, m * i), c[i])
    ensures Term(r, v, Times(r, c, other), m)(i) == Product(r, other, moved)(i)
  {
    TimesTerm(r, v, c, other, m, i);
    ProductAt(r, other, moved, i);
    Regroup(r, c[i], other[i], Pow(r, v, m * i));
  }

  lemma TimesTerm<T(!new)>(r: Ring<T>, v: T, a: seq<T>, b: seq<T>, m: nat, i: nat)
    requires |a| == |b| && i < |a|
    ensures Term(r, v, Times(r, a, b), m)(i) == r.mul(r.mul(a[i], b[i]), Pow(r, v, m * i))
  {
    TermAt(r, v, Times(r, a, b), m, i);
    assert i * m == m * i;
  }

  lemma Regroup<T(!new)>(r: Ring<T>, c: T, o: T, p: T)
    requires r.Valid()
    ensures r.mul(r.mul(c, o), p) == r.mul(o, r.mul(p, c))
  {
    assert r.MulComm(c, o) && r.MulAssoc(o, c, p) && r.MulComm(c, p);
  }

  lemma ProductCell<T(!new)>(r: Ring<T>, v: T, code: seq<T>, other: seq<T>, m: nat)
    requires r.Valid() && |code| == |other| && Pow(r, v, |code|) == r.one && m < |code|
    ensures Dft(r, v, Times(r, Dft(r, v, code), other))[m]
         == Sum(r, |code|, Product(r, Rotate(code, m), Dft(r, v, other)))
  {
    var n := |code|;
    var left, right := Term(r, v, Times(r, Dft(r, v, code), other), m), Product(r, other, Dft(r, v, Rotate(code, m)));
    forall i: nat | i < n ensures left(i) == right(i) {
      ProductTerm(r, v, code, other, m, i);
    }
    SumCongruence(r, n, left, right);
    PairingSwaps(r, v, other, Rotate(code, m));
  }

  lemma ScaledProduct<T(!new)>(r: Ring<T>, a: seq<T>, b: seq<T>, c: T, d: seq<T>)
    requires r.Valid() && |a| == |b| && d == Scale(r, c, b)
    ensures r.mul(Sum(r, |a|, Product(r, a, b)), c) == Sum(r, |a|, Product(r, a, d))
  {
    forall i: nat | i < |a| ensures Product(r, a, d)(i) == r.mul(c, Product(r, a, b)(i)) {
      ProductAt(r, a, b, i);
      ProductAt(r, a, d, i);
      assert r.MulAssoc(a[i], b[i], c) && r.MulComm(r.mul(a[i], b[i]), c);
    }
    SumScale(r, |a|, c, Product(r, a, b), Product(r, a, d));
    assert r.MulComm(Sum(r, |a|, Product(r, a, b)), c);
  }

  /** The code's inverse spectrum times the input's spectrum, transformed back, holds at lag m the input against the
    * code delayed by m samples, around the circle. */
  lemma CorrelationIsCircular<T(!new)>(r: Ring<T>, code: seq<T>, y: seq<T>, m: nat)
    requires r.Valid() && |y| == |code| && m < |code| && IsPowerOfTwo(|code|)
    ensures Transform(r, Times(r, Dft(r, Root(r, |code|, Inverse), code), Transform(r, y, Forward)), Inverse)[m]
         == Sum(r, |code|, Product(r, Rotate(code, m), y))
  {
    var n := |code|;
    var v, spectrum := Root(r, n, Inverse), Transform(r, y, Forward);
    InversePeriod(r, n);
    ProductCell(r, v, code, spectrum, m);
    InverseUndoesForward(r, y);
    ScaledProduct(r, Rotate(code, m), Dft(r, v, spectrum), r.recip(n), y);
  }

  // ----- the code's own spectrum

  ghost predicate ConjAdd<T(!new)>(r: Ring<T>, a: T, b: T) { r.conj(r.add(a, b)) == r.add(r.conj(a), r.conj(b)) }
  ghost predicate ConjMul<T(!new)>(r: Ring<T>, a: T, b: T) { r.conj(r.mul(a, b)) == r.mul(r.conj(a), r.conj(b)) }

  /** Conjugation is a homomorphism. */
  ghost predicate Conjugates<T(!new)>(r: Ring<T>) {
    (forall a, b :: ConjAdd(r, a, b)) && forall a, b :: ConjMul(r, a, b)
  }

  /** What the lookup table holds for a code. */
  function CodeSpectrum<T(!new)>(r: Ring<T>, code: seq<T>): (c: seq<T>)
    ensures |c| == |code| && forall i | 0 <= i < |c| :: c[i] == r.conj(Transform(r, code, Forward)[i])
  {
    seq(|code|, i requires 0 <= i < |code| => r.conj(Transform(r, code, Forward)[i]))
  }

  ghost predicate IsReal<T(!new)>(r: Ring<T>, code: seq<T>) { forall j | 0 <= j < |code| :: r.conj(code[j]) == code[j] }

  lemma ConjUnits<T(!new)>(r: Ring<T>)
    requires r.Valid() && Conjugates(r)
    ensures r.conj(r.one) == r.one && r.conj(r.zero) == r.zero
  {
    assert r.TurnConj(0.0) && -0.0 == 0.0;
    assert ConjAdd(r, r.zero, r.zero);
    AddUnits(r, r.zero);
    AddUnits(r, r.conj(r.zero));
    AddCancel(r, r.conj(r.zero), r.zero, r.conj(r.zero));
  }

  lemma {:induction false} ConjPow<T(!new)>(r: Ring<T>, w: T, e: nat)
    requires r.Valid() && Conjugates(r)
    ensures r.conj(Pow(r, w, e)) == Pow(r, r.conj(w), e)
  {
    if e == 0 {
      ConjUnits(r);
    } else {
      ConjPow(r, w, e - 1);
      assert ConjMul(r, w, Pow(r, w, e - 1));
    }
  }

  lemma {:induction false} ConjSum<T(!new)>(r: Ring<T>, n: nat, f: nat -> T, g: nat -> T)
    requires r.Valid() && Conjugates(r) && forall i: nat | i < n :: g(i) == r.conj(f(i))
    ensures Sum(r, n, g) == r.conj(Sum(r, n, f))
  {
    if n == 0 {
      ConjUnits(r);
    } else {
      ConjSum(r, n - 1, f, g);
      assert ConjAdd(r, Sum(r, n - 1, f), f(n - 1));
    }
  }

  lemma RootsConjugate<T(!new)>(r: Ring<T>, n: nat)
    requires r.Valid() && n > 0
    ensures r.conj(Root(r, n, Forward)) == Root(r, n, Inverse)
  {
    assert r.Fraction(-1, n) && r.Fraction(1, n) && r.TurnConj(-1.0 / n as real);
    assert -(-1.0 / n as real) == 1.0 / n as real;
  }

  lemma ConjTerm<T(!new)>(r: Ring<T>, w: T, code: seq<T>, k: nat, j: nat)
    requires r.Valid() && Conjugates(r) && IsReal(r, code) && j < |code|
    ensures Term(r, r.conj(w), code, k)(j) == r.conj(Term(r, w, code, k)(j))
  {
    TermAt(r, w, code, k, j);
    TermAt(r, r.conj(w), code, k, j);
    ConjPow(r, w, j * k);
    assert ConjMul(r, code[j], Pow(r, w, j * k));
  }

  lemma ConjCell<T(!new)>(r: Ring<T>, w: T, code: seq<T>, k: nat)
    requires r.Valid() && Conjugates(r) && IsReal(r, code) && k < |code|
    ensures Dft(r, r.conj(w), code)[k] == r.conj(Dft(r, w, code)[k])
  {
    forall j: nat | j < |code| ensures Term(r, r.conj(w), code, k)(j) == r.conj(Term(r, w, code, k)(j)) {
      ConjTerm(r, w, code, k, j);
    }
    ConjSum(r, |code|, Term(r, w, code, k), Term(r, r.conj(w), code, k));
  }

  /** The conjugate of the forward spectrum of a real code is its unscaled inverse spectrum. */
  lemma SpectrumOfCode<T(!new)>(r: Ring<T>, code: seq<T>)
    requires r.Valid() && Conjugates(r) && IsReal(r, code) && code != []
    ensures CodeSpectrum(r, code) == Dft(r, Root(r, |code|, Inverse), code)
  {
    RootsConjugate(r, |code|);
    forall k | 0 <= k < |code| ensures CodeSpectrum(r, code)[k] == Dft(r, Root(r, |code|, Inverse), code)[k] {
      ConjCell(r, Root(r, |code|, Forward), code, k);
    }
  }

  // ----- a bin of the search

  /** Lag m of a bin is the power of the mixed input against the code delayed by m samples. */
  lemma BinIsCircular<T(!new)>(r: Ring<T>, s: Settings, x: seq<T>, code: seq<T>, bin: nat, m: nat)
    requires r.Valid() && Conjugates(r) && IsReal(r, code) && s.samplingHz != 0.0
    requires |x| == |code| && m < |code| && IsPowerOfTwo(|code|)
    ensures var mixed := Mixed(r, x, Carrier(r, BinFrequency(s, bin), s.samplingHz, |x|));
            NaiveBin(r, s, x, CodeSpectrum(r, code), bin)[m]
            == r.norm2(Sum(r, |code|, Product(r, Rotate(code, m), mixed)))
  {
    SpectrumOfCode(r, code);
    CorrelationIsCircular(r, code, Mixed(r, x, Carrier(r, BinFrequency(s, bin), s.samplingHz, |x|)), m);
  }

  lemma BinIs<T(!new)>(r: Ring<T>, s: Settings, x: seq<T>, code: seq<T>, bin: nat, f: real, m: nat, sum: T)
    requires r.Valid() && Conjugates(r) && IsReal(r, code) && s.samplingHz != 0.0 && f == BinFrequency(s, bin)
    requires |x| == |code| && m < |code| && IsPowerOfTwo(|code|)
    requires sum == Sum(r, |code|, Product(r, Rotate(code, m), Mixed(r, x, Carrier(r, f, s.samplingHz, |x|))))
    ensures NaiveBin(r, s, x, CodeSpectrum(r, code), bin)[m] == r.norm2(sum)
  {
    BinIsCircular(r, s, x, code, bin, m);
  }

  /** The code, delayed by d samples, on a carrier f Hz below zero. */
  ghost predicate Receives<T(!new)>(r: Ring<T>, x: seq<T>, a: T, code: seq<T>, d: nat, f: real, samplingHz: real)
    requires samplingHz != 0.0
  {
    |x| == |code| && d < |code| && forall t: nat | t < |x| :: ReceivesAt(r, x, a, code, d, f, samplingHz, t)
  }

  ghost predicate ReceivesAt<T(!new)>(r: Ring<T>, x: seq<T>, a: T, code: seq<T>, d: nat, f: real, samplingHz: real,
                                      t: nat)
    requires samplingHz != 0.0 && t < |x| == |code|
  {
    x[t] == r.mul(r.mul(a, code[(t - d) % |code|]), r.turn(-(f * t as real / samplingHz)))
  }

  lemma CarrierStripped<T(!new)>(r: Ring<T>, x: seq<T>, a: T, code: seq<T>, d: nat, f: real, samplingHz: real, t: nat)
    requires r.Valid() && samplingHz != 0.0 && Receives(r, x, a, code, d, f, samplingHz) && t < |x|
    ensures Mixed(r, x, Carrier(r, f, samplingHz, |x|))[t] == r.mul(a, Rotate(code, d)[t])
  {
    var angle, c := f * t as real / samplingHz, r.mul(a, code[(t - d) % |code|]);
    assert ReceivesAt(r, x, a, code, d, f, samplingHz, t);
    assert CarrierAngle(f, samplingHz, t) == angle;
    assert r.TurnAdd(-angle, angle) && -angle + angle == 0.0;
    assert r.MulAssoc(c, r.turn(-angle), r.turn(angle));
    MulUnits(r, c);
  }

  lemma ProductOfMultiple<T(!new)>(r: Ring<T>, left: seq<T>, right: seq<T>, multiple: seq<T>, a: T)
    requires r.Valid() && |left| == |right| == |multiple|
    requires forall t: nat | t < |left| :: multiple[t] == r.mul(a, right[t])
    ensures Sum(r, |left|, Product(r, left, multiple)) == r.mul(a, Sum(r, |left|, Product(r, left, right)))
  {
    forall t: nat | t < |left| ensures Product(r, left, multiple)(t) == r.mul(a, Product(r, left, right)(t)) {
      ProductAt(r, left, multiple, t);
      ProductAt(r, left, right, t);
      MulLeftComm(r, a, left[t], right[t]);
    }
    SumScale(r, |left|, a, Product(r, left, right), Product(r, left, multiple));
  }

  lemma MixedIsCode<T(!new)>(r: Ring<T>, x: seq<T>, a: T, code: seq<T>, d: nat, f: real, samplingHz: real, m: nat)
    requires r.Valid() && samplingHz != 0.0 && Receives(r, x, a, code, d, f, samplingHz) && m < |code|
    ensures Sum(r, |code|, Product(r, Rotate(code, m), Mixed(r, x, Carrier(r, f, samplingHz, |x|))))
         == r.mul(a, Sum(r, |code|, Product(r, Rotate(code, m), Rotate(code, d))))
  {
    var mixed := Mixed(r, x, Carrier(r, f, samplingHz, |x|));
    forall t: nat | t < |code| ensures mixed[t] == r.mul(a, Rotate(code, d)[t]) {
      CarrierStripped(r, x, a, code, d, f, samplingHz, t);
    }
    ProductOfMultiple(r, Rotate(code, m), Rotate(code, d), mixed, a);
  }

  lemma FrequencyIs(s: Settings, bin: nat, f: real)
    requires f == s.dopplerMinimum as real + bin as real * s.spacing as real
    ensures f == BinFrequency(s, bin)
  {
  }

  /** In the bin whose frequency removes that carrier, lag m is the amplitude against the code's own correlation. */
  lemma CodeIsFound<T(!new)>(r: Ring<T>, s: Settings, x: seq<T>, a: T, code: seq<T>, d: nat, bin: nat, f: real,
                                 m: nat)
    requires r.Valid() && Conjugates(r) && IsReal(r, code) && s.samplingHz != 0.0
    requires m < |code| && IsPowerOfTwo(|code|) && f == s.dopplerMinimum as real + bin as real * s.spacing as real
    requires Receives(r, x, a, code, d, f, s.samplingHz)
    ensures NaiveBin(r, s, x, CodeSpectrum(r, code), bin)[m]
         == r.norm2(r.mul(a, Sum(r, |code|, Product(r, Rotate(code, m), Rotate(code, d)))))
  {
    FrequencyIs(s, bin, f);
    MixedIsCode(r, x, a, code, d, f, s.samplingHz, m);
    BinIs(r, s, x, code, bin, f, m, r.mul(a, Sum(r, |code|, Product(r, Rotate(code, m), Rotate(code, d)))));
  }

  /** At the delay itself a code of units adds up in full. */
  lemma PeakAtDelay<T(!new)>(r: Ring<T>, code: seq<T>, d: nat)
    requires d < |code| && forall j | 0 <= j < |code| :: r.mul(code[j], code[j]) == r.one
    ensures Sum(r, |code|, Product(r, Rotate(code, d), Rotate(code, d))) == Sum(r, |code|, Const(r.one))
  {
    forall t: nat | t < |code| ensures Product(r, Rotate(code, d), Rotate(code, d))(t) == Const(r.one)(t) {
      ProductAt(r, Rotate(code, d), Rotate(code, d), t);
    }
    SumCongruence(r, |code|, Product(r, Rotate(code, d), Rotate(code, d)), Const(r.one));
  }
}
