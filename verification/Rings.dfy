/** Commutative rings given by their operations, finite sums and powers.
  *
  * The receiver computes with complex<float>.  Rounding is not modelled: samples and phasors are
  * elements of a commutative ring of characteristic zero, together with the map `turn` that sends
  * an angle, counted in turns, to the unit phasor e^(2*pi*i*angle).
  *
  * Each law is a named predicate, so that a law is instantiated only where its name is mentioned.
  */
module Rings {

  datatype Ring<!T(!new)> = Ring(
    zero: T,
    one: T,
    add: (T, T) -> T,
    neg: T -> T,
    mul: (T, T) -> T,
    conj: T -> T,         // complex conjugate
    norm2: T -> real,     // squared magnitude
    recip: nat -> T,      // 1/n for n > 0
    turn: real -> T,      // the unit phasor at an angle given in turns
    phasor: (int, nat) -> T   // the unit phasor at k/n of a turn
  ) {
    function Sub(a: T, b: T): T { add(a, neg(b)) }

    ghost predicate AddComm(a: T, b: T) { add(a, b) == add(b, a) }
    ghost predicate AddAssoc(a: T, b: T, c: T) { add(add(a, b), c) == add(a, add(b, c)) }
    ghost predicate AddUnit(a: T) { add(a, zero) == a && add(a, neg(a)) == zero }
    ghost predicate MulComm(a: T, b: T) { mul(a, b) == mul(b, a) }
    ghost predicate MulAssoc(a: T, b: T, c: T) { mul(mul(a, b), c) == mul(a, mul(b, c)) }
    ghost predicate MulUnit(a: T) { mul(a, one) == a }
    ghost predicate Distrib(a: T, b: T, c: T) { mul(a, add(b, c)) == add(mul(a, b), mul(a, c)) }
    ghost predicate Recip(n: nat) { n > 0 ==> mul(recip(n), Sum(this, n, Const(this.one))) == one }
    ghost predicate TurnAdd(a: real, b: real) { turn(a + b) == mul(turn(a), turn(b)) }
    ghost predicate Fraction(k: int, n: nat) { n > 0 ==> phasor(k, n) == turn(k as real / n as real) }
    ghost predicate TurnConj(a: real) { conj(turn(a)) == turn(-a) }
    ghost predicate OnlyWholeTurns(a: real) { turn(a) == one ==> IsWhole(a) }

    /** The laws of a commutative ring in which every positive integer is invertible, and those of
      * the phasor map: one turn is the identity and half a turn is minus one. */
    ghost predicate Valid() {
      && (forall a, b :: AddComm(a, b))
      && (forall a, b, c :: AddAssoc(a, b, c))
      && (forall a :: AddUnit(a))
      && (forall a, b :: MulComm(a, b))
      && (forall a, b, c :: MulAssoc(a, b, c))
      && (forall a :: MulUnit(a))
      && (forall a, b, c :: Distrib(a, b, c))
      && (forall n: nat :: Recip(n))
      && (forall a, b :: TurnAdd(a, b))
      && (forall a :: TurnConj(a))
      && (forall k, n: nat :: Fraction(k, n))
      && turn(0.0) == one
      && turn(0.5) == neg(one)
    }

    /** Different angles, up to whole turns, have different phasors. */
    ghost predicate Separates() { forall a :: OnlyWholeTurns(a) }
  }

  predicate IsWhole(a: real) { a == a.Floor as real }

  function Const<T>(c: T): nat -> T { (i: nat) => c }

  /** f(0) + ... + f(n-1) */
  function Sum<T(!new)>(r: Ring<T>, n: nat, f: nat -> T): T {
    if n == 0 then r.zero else r.add(Sum(r, n - 1, f), f(n - 1))
  }

  function Pow<T(!new)>(r: Ring<T>, a: T, e: nat): T {
    if e == 0 then r.one else r.mul(a, Pow(r, a, e - 1))
  }

  // ----- elementary consequences of the laws

  lemma AddUnits<T(!new)>(r: Ring<T>, a: T)
    requires r.Valid()
    ensures r.add(a, r.zero) == a && r.add(r.zero, a) == a
    ensures r.add(a, r.neg(a)) == r.zero && r.add(r.neg(a), a) == r.zero
  {
    assert r.AddUnit(a);
    assert r.AddComm(a, r.zero) && r.AddComm(a, r.neg(a));
  }

  lemma MulUnits<T(!new)>(r: Ring<T>, a: T)
    requires r.Valid()
    ensures r.mul(a, r.one) == a && r.mul(r.one, a) == a
  {
    assert r.MulUnit(a) && r.MulComm(a, r.one);
  }

  /** (a+b) + (c+d) == (a+c) + (b+d) */
  lemma AddExchange<T(!new)>(r: Ring<T>, a: T, b: T, c: T, d: T)
    requires r.Valid()
    ensures r.add(r.add(a, b), r.add(c, d)) == r.add(r.add(a, c), r.add(b, d))
  {
    assert r.AddAssoc(a, b, r.add(c, d)) && r.AddAssoc(b, c, d) && r.AddComm(b, c);
    assert r.AddAssoc(c, b, d) && r.AddAssoc(a, c, r.add(b, d));
  }

  lemma AddCancel<T(!new)>(r: Ring<T>, a: T, b: T, c: T)
    requires r.Valid() && r.add(a, c) == r.add(b, c)
    ensures a == b
  {
    assert r.AddAssoc(a, c, r.neg(c)) && r.AddAssoc(b, c, r.neg(c));
    AddUnits(r, c);
    AddUnits(r, a);
    AddUnits(r, b);
  }

  lemma MulZero<T(!new)>(r: Ring<T>, a: T)
    requires r.Valid()
    ensures r.mul(a, r.zero) == r.zero && r.mul(r.zero, a) == r.zero
  {
    var z := r.mul(a, r.zero);
    AddUnits(r, r.zero);
    assert r.Distrib(a, r.zero, r.zero);
    AddUnits(r, z);
    AddCancel(r, z, r.zero, z);
    assert r.MulComm(a, r.zero);
  }

  lemma MulNeg<T(!new)>(r: Ring<T>, a: T, b: T)
    requires r.Valid()
    ensures r.mul(a, r.neg(b)) == r.neg(r.mul(a, b))
    ensures r.mul(r.neg(b), a) == r.neg(r.mul(a, b))
  {
    assert r.Distrib(a, r.neg(b), b) && r.MulComm(a, r.neg(b));
    AddUnits(r, b);
    MulZero(r, a);
    AddUnits(r, r.mul(a, b));
    AddCancel(r, r.mul(a, r.neg(b)), r.neg(r.mul(a, b)), r.mul(a, b));
  }

  lemma NegNeg<T(!new)>(r: Ring<T>, a: T)
    requires r.Valid()
    ensures r.neg(r.neg(a)) == a
  {
    AddUnits(r, a);
    AddUnits(r, r.neg(a));
    AddCancel(r, r.neg(r.neg(a)), a, r.neg(a));
  }

  /** a * (b * c) == b * (a * c) */
  lemma MulLeftComm<T(!new)>(r: Ring<T>, a: T, b: T, c: T)
    requires r.Valid()
    ensures r.mul(a, r.mul(b, c)) == r.mul(b, r.mul(a, c))
  {
    assert r.MulAssoc(a, b, c) && r.MulComm(a, b) && r.MulAssoc(b, a, c);
  }

  /** (a*b) * (c*d) == (a*c) * (b*d) */
  lemma MulExchange<T(!new)>(r: Ring<T>, a: T, b: T, c: T, d: T)
    requires r.Valid()
    ensures r.mul(r.mul(a, b), r.mul(c, d)) == r.mul(r.mul(a, c), r.mul(b, d))
  {
    assert r.MulAssoc(a, b, r.mul(c, d)) && r.MulAssoc(a, c, r.mul(b, d));
    MulLeftComm(r, b, c, d);
  }

  // ----- powers

  lemma {:induction false} PowAdd<T(!new)>(r: Ring<T>, a: T, d: nat, e: nat)
    requires r.Valid()
    ensures Pow(r, a, d + e) == r.mul(Pow(r, a, d), Pow(r, a, e))
  {
    if d == 0 {
      MulUnits(r, Pow(r, a, e));
    } else {
      PowAdd(r, a, d - 1, e);
      assert Pow(r, a, d + e) == r.mul(a, Pow(r, a, d - 1 + e));
      assert r.MulAssoc(a, Pow(r, a, d - 1), Pow(r, a, e));
    }
  }

  lemma {:induction false} PowMul<T(!new)>(r: Ring<T>, a: T, d: nat, e: nat)
    requires r.Valid()
    ensures Pow(r, a, d * e) == Pow(r, Pow(r, a, d), e)
  {
    if e == 0 {
      assert d * e == 0;
    } else {
      PowMul(r, a, d, e - 1);
      assert d * e == d + d * (e - 1);
      PowAdd(r, a, d, d * (e - 1));
    }
  }

  lemma {:induction false} PowOne<T(!new)>(r: Ring<T>, e: nat)
    requires r.Valid()
    ensures Pow(r, r.one, e) == r.one
  {
    if e > 0 {
      PowOne(r, e - 1);
      MulUnits(r, r.one);
    }
  }

  lemma {:induction false} PowProduct<T(!new)>(r: Ring<T>, a: T, b: T, e: nat)
    requires r.Valid()
    ensures Pow(r, r.mul(a, b), e) == r.mul(Pow(r, a, e), Pow(r, b, e))
  {
    if e == 0 {
      MulUnits(r, r.one);
    } else {
      PowProduct(r, a, b, e - 1);
      MulExchange(r, a, b, Pow(r, a, e - 1), Pow(r, b, e - 1));
    }
  }

  /** Phasors turn multiples of an angle into powers. */
  lemma {:induction false} TurnPow<T(!new)>(r: Ring<T>, angle: real, e: nat, total: real)
    requires r.Valid() && total == e as real * angle
    ensures r.turn(total) == Pow(r, r.turn(angle), e)
  {
    if e == 0 {
      assert total == 0.0;
    } else {
      var rest := total - angle;
      assert rest == (e - 1) as real * angle by {
        assert (e - 1) as real == e as real - 1.0;
      }
      TurnPow(r, angle, e - 1, rest);
      assert r.TurnAdd(angle, rest);
      assert angle + rest == total;
    }
  }

  lemma WholeTurnsAreOne<T(!new)>(r: Ring<T>, a: real)
    requires r.Valid() && r.turn(1.0) == r.one && IsWhole(a)
    ensures r.turn(a) == r.one
  {
    var m := a.Floor;
    if m >= 0 {
      TurnPow(r, 1.0, m, a);
      PowOne(r, m);
    } else {
      TurnPow(r, 1.0, -m, -a);
      PowOne(r, -m);
      assert r.TurnAdd(a, -a);
      MulUnits(r, r.turn(a));
    }
  }

  /** Two angles have the same phasor exactly when they differ by whole turns. */
  lemma SamePhasorIff<T(!new)>(r: Ring<T>, a: real, b: real)
    requires r.Valid() && r.Separates() && r.turn(1.0) == r.one
    ensures r.turn(a) == r.turn(b) <==> IsWhole(a - b)
  {
    var d := a - b;
    assert r.TurnAdd(d, b) && d + b == a;
    assert r.TurnAdd(a, -b) && a + -b == d;
    assert r.TurnAdd(b, -b) && b + -b == 0.0;
    if r.turn(a) == r.turn(b) {
      assert r.OnlyWholeTurns(d);
    }
    if IsWhole(d) {
      WholeTurnsAreOne(r, d);
      MulUnits(r, r.turn(b));
    }
  }

  // ----- sums

  lemma {:induction false} SumCongruence<T(!new)>(r: Ring<T>, n: nat, f: nat -> T, g: nat -> T)
    requires forall i: nat | i < n :: f(i) == g(i)
    ensures Sum(r, n, f) == Sum(r, n, g)
  {
    if n > 0 {
      SumCongruence(r, n - 1, f, g);
    }
  }

  lemma {:induction false} SumOfZeros<T(!new)>(r: Ring<T>, n: nat, f: nat -> T)
    requires r.Valid()
    requires forall i: nat | i < n :: f(i) == r.zero
    ensures Sum(r, n, f) == r.zero
  {
    if n > 0 {
      SumOfZeros(r, n - 1, f);
      AddUnits(r, r.zero);
    }
  }

  /** A sum with one term that may differ from zero is that term. */
  lemma {:induction false} SumOfOne<T(!new)>(r: Ring<T>, n: nat, f: nat -> T, k: nat)
    requires r.Valid() && k < n
    requires forall i: nat | i < n && i != k :: f(i) == r.zero
    ensures Sum(r, n, f) == f(k)
  {
    AddUnits(r, f(k));
    if k == n - 1 {
      SumOfZeros(r, n - 1, f);
    } else {
      SumOfOne(r, n - 1, f, k);
      assert f(n - 1) == r.zero;
    }
  }

  lemma {:induction false} SumAdd<T(!new)>(r: Ring<T>, n: nat, f: nat -> T, g: nat -> T, h: nat -> T)
    requires r.Valid()
    requires forall i: nat | i < n :: h(i) == r.add(f(i), g(i))
    ensures Sum(r, n, h) == r.add(Sum(r, n, f), Sum(r, n, g))
  {
    if n == 0 {
      AddUnits(r, r.zero);
    } else {
      SumAdd(r, n - 1, f, g, h);
      AddExchange(r, Sum(r, n - 1, f), Sum(r, n - 1, g), f(n - 1), g(n - 1));
    }
  }

  lemma {:induction false} SumScale<T(!new)>(r: Ring<T>, n: nat, c: T, f: nat -> T, h: nat -> T)
    requires r.Valid()
    requires forall i: nat | i < n :: h(i) == r.mul(c, f(i))
    ensures Sum(r, n, h) == r.mul(c, Sum(r, n, f))
  {
    if n == 0 {
      MulZero(r, c);
    } else {
      SumScale(r, n - 1, c, f, h);
      assert r.Distrib(c, Sum(r, n - 1, f), f(n - 1));
    }
  }

  /** The even and the odd terms summed separately. */
  lemma {:induction false} SumEvenOdd<T(!new)>(r: Ring<T>, n: nat, f: nat -> T, even: nat -> T, odd: nat -> T)
    requires r.Valid()
    requires forall i: nat | i < n :: even(i) == f(2 * i) && odd(i) == f(2 * i + 1)
    ensures Sum(r, 2 * n, f) == r.add(Sum(r, n, even), Sum(r, n, odd))
  {
    if n == 0 {
      AddUnits(r, r.zero);
    } else {
      SumEvenOdd(r, n - 1, f, even, odd);
      var i := n - 1;
      assert even(i) == f(2 * i) && odd(i) == f(2 * i + 1);
      assert Sum(r, 2 * n, f) == r.add(r.add(Sum(r, 2 * i, f), f(2 * i)), f(2 * i + 1));
      assert r.AddAssoc(Sum(r, 2 * i, f), f(2 * i), f(2 * i + 1));
      AddExchange(r, Sum(r, i, even), Sum(r, i, odd), f(2 * i), f(2 * i + 1));
    }
  }

  lemma {:induction false} SumSplit<T(!new)>(r: Ring<T>, m: nat, n: nat, f: nat -> T, high: nat -> T)
    requires r.Valid()
    requires forall i: nat | i < n :: high(i) == f(m + i)
    ensures Sum(r, m + n, f) == r.add(Sum(r, m, f), Sum(r, n, high))
  {
    if n == 0 {
      AddUnits(r, Sum(r, m, f));
    } else {
      SumSplit(r, m, n - 1, f, high);
      assert high(n - 1) == f(m + (n - 1));
      assert r.AddAssoc(Sum(r, m, f), Sum(r, n - 1, high), f(m + n - 1));
    }
  }

  function Row<T>(f: (nat, nat) -> T, i: nat): nat -> T { (j: nat) => f(i, j) }
  function Column<T>(f: (nat, nat) -> T, j: nat): nat -> T { (i: nat) => f(i, j) }
  function RowSums<T(!new)>(r: Ring<T>, f: (nat, nat) -> T, n: nat): nat -> T { (i: nat) => Sum(r, n, Row(f, i)) }
  function ColumnSums<T(!new)>(r: Ring<T>, f: (nat, nat) -> T, m: nat): nat -> T { (j: nat) => Sum(r, m, Column(f, j)) }

  /** The order of a double summation does not matter. */
  lemma {:induction false} SumSwap<T(!new)>(r: Ring<T>, m: nat, n: nat, f: (nat, nat) -> T)
    requires r.Valid()
    ensures Sum(r, m, RowSums(r, f, n)) == Sum(r, n, ColumnSums(r, f, m))
  {
    if m == 0 {
      SumOfZeros(r, n, ColumnSums(r, f, m));
    } else {
      SumSwap(r, m - 1, n, f);
      forall j: nat | j < n
        ensures ColumnSums(r, f, m)(j) == r.add(ColumnSums(r, f, m - 1)(j), Row(f, m - 1)(j))
      {
        assert Column(f, j)(m - 1) == Row(f, m - 1)(j);
      }
      SumAdd(r, n, ColumnSums(r, f, m - 1), Row(f, m - 1), ColumnSums(r, f, m));
    }
  }
}
