/** The linear algebra of Source/Pvt/GPSOpenClPVTSolver.cpp over the reals: Gauss-Jordan inversion
  * with partial pivoting, and the weighted normal equations.
  */
module LeastSquares {
  import opened Numbers

  datatype Vec4 = Vec4(x0: real, x1: real, x2: real, x3: real) {
    function At(i: nat): real
      requires i < 4
    {
      if i == 0 then x0 else if i == 1 then x1 else if i == 2 then x2 else x3
    }

    function Set(i: nat, v: real): Vec4
      requires i < 4
    {
      if i == 0 then this.(x0 := v) else if i == 1 then this.(x1 := v) else if i == 2 then this.(x2 := v)
      else this.(x3 := v)
    }
  }

  function Dot(a: Vec4, b: Vec4): real { a.x0 * b.x0 + a.x1 * b.x1 + a.x2 * b.x2 + a.x3 * b.x3 }
  function Plus(a: Vec4, b: Vec4): Vec4 { Vec4(a.x0 + b.x0, a.x1 + b.x1, a.x2 + b.x2, a.x3 + b.x3) }
  function Times(k: real, a: Vec4): Vec4 { Vec4(k * a.x0, k * a.x1, k * a.x2, k * a.x3) }
  function Minus(a: Vec4, b: Vec4): Vec4 { Vec4(a.x0 - b.x0, a.x1 - b.x1, a.x2 - b.x2, a.x3 - b.x3) }
  const ZERO := Vec4(0.0, 0.0, 0.0, 0.0)

  function Unit(i: nat, j: nat): real { if i == j then 1.0 else 0.0 }

  /** A 4 by 4 matrix, by rows. */
  datatype Mat4 = Mat4(r0: Vec4, r1: Vec4, r2: Vec4, r3: Vec4) {
    function Row(i: nat): Vec4
      requires i < 4
    {
      if i == 0 then r0 else if i == 1 then r1 else if i == 2 then r2 else r3
    }

    function Column(j: nat): Vec4
      requires j < 4
    {
      Vec4(r0.At(j), r1.At(j), r2.At(j), r3.At(j))
    }

    function SetRow(i: nat, v: Vec4): Mat4
      requires i < 4
    {
      if i == 0 then this.(r0 := v) else if i == 1 then this.(r1 := v) else if i == 2 then this.(r2 := v)
      else this.(r3 := v)
    }
  }

  const IDENTITY := Mat4(Vec4(1.0, 0.0, 0.0, 0.0), Vec4(0.0, 1.0, 0.0, 0.0), Vec4(0.0, 0.0, 1.0, 0.0),
                         Vec4(0.0, 0.0, 0.0, 1.0))

  /** a times b is the identity. */
  ghost predicate Inverts(a: Mat4, b: Mat4) {
    forall i: nat, j: nat | i < 4 && j < 4 :: Dot(a.Row(i), b.Column(j)) == Unit(i, j)
  }

  lemma DotUpdate(x: Vec4, y: Vec4, i: nat, u: real, v: real)
    requires i < 4
    ensures Dot(x.Set(i, u), y.Set(i, v)) == Dot(x, y) - x.At(i) * y.At(i) + u * v
  {
  }

  lemma DotSet(x: Vec4, y: Vec4, i: nat, u: real)
    requires i < 4
    ensures Dot(x.Set(i, u), y) == Dot(x, y) + (u - x.At(i)) * y.At(i)
    ensures Dot(y, x.Set(i, u)) == Dot(y, x) + y.At(i) * (u - x.At(i))
  {
  }

  lemma DotScale(k: real, a: Vec4, y: Vec4)
    ensures Dot(Times(k, a), y) == k * Dot(a, y) == Dot(y, Times(k, a))
  {
    assert k * (a.x0 * y.x0 + a.x1 * y.x1 + a.x2 * y.x2 + a.x3 * y.x3)
        == k * (a.x0 * y.x0) + k * (a.x1 * y.x1) + k * (a.x2 * y.x2) + k * (a.x3 * y.x3);
  }

  lemma DotPlus(a: Vec4, b: Vec4, y: Vec4)
    ensures Dot(Plus(a, b), y) == Dot(a, y) + Dot(b, y) == Dot(y, Plus(a, b))
    ensures Dot(Minus(a, b), y) == Dot(a, y) - Dot(b, y) == Dot(y, Minus(a, b))
  {
  }

  // ----- the augmented matrix

  /** The 4 by 8 array [left | right], as two matrices. */
  datatype Augmented = Augmented(left: Mat4, right: Mat4) {
    function Row(i: nat): (Vec4, Vec4)
      requires i < 4
    {
      (left.Row(i), right.Row(i))
    }

    function SetRow(i: nat, l: Vec4, r: Vec4): Augmented
      requires i < 4
    {
      Augmented(left.SetRow(i, l), right.SetRow(i, r))
    }

    function At(i: nat, j: nat): real
      requires i < 4 && j < 8
    {
      if j < 4 then left.Row(i).At(j) else right.Row(i).At(j - 4)
    }
  }

  function Swapped(a: Augmented, i: nat, p: nat): Augmented
    requires i < 4 && p < 4
  {
    a.SetRow(i, a.left.Row(p), a.right.Row(p)).SetRow(p, a.left.Row(i), a.right.Row(i))
  }

  function Scaled(a: Augmented, i: nat, k: real): Augmented
    requires i < 4
  {
    a.SetRow(i, Times(k, a.left.Row(i)), Times(k, a.right.Row(i)))
  }

  function Cleared(a: Augmented, k: nat, i: nat, f: real): Augmented
    requires k < 4 && i < 4
  {
    a.SetRow(k, Minus(a.left.Row(k), Times(f, a.left.Row(i))), Minus(a.right.Row(k), Times(f, a.right.Row(i))))
  }

  /** Every left row is its right row times m: the right half records the row operations. */
  ghost predicate RowsFollow(a: Augmented, m: Mat4) {
    forall i: nat, c: nat | i < 4 && c < 4 :: a.left.Row(i).At(c) == Dot(a.right.Row(i), m.Column(c))
  }

  /** f undoes the row operations: f times left is m, f times right is the identity. */
  ghost predicate Undoes(f: Mat4, a: Augmented, m: Mat4) {
    forall i: nat, c: nat | i < 4 && c < 4 :: UndoesAt(f, a, m, i, c)
  }

  ghost predicate UndoesAt(f: Mat4, a: Augmented, m: Mat4, i: nat, c: nat)
    requires i < 4 && c < 4
  {
    Dot(f.Row(i), a.left.Column(c)) == m.Row(i).At(c) && Dot(f.Row(i), a.right.Column(c)) == Unit(i, c)
  }

  /** g takes the columns of b where f takes those of a. */
  ghost predicate SameAt(f: Mat4, a: Augmented, g: Mat4, b: Augmented, i: nat, c: nat)
    requires i < 4 && c < 4
  {
    && Dot(g.Row(i), b.left.Column(c)) == Dot(f.Row(i), a.left.Column(c))
    && Dot(g.Row(i), b.right.Column(c)) == Dot(f.Row(i), a.right.Column(c))
  }

  /** The first n columns are those of the identity. */
  ghost predicate UnitColumns(a: Augmented, n: nat) {
    forall i: nat, c: nat | i < 4 && c < n && c < 4 :: a.left.Row(i).At(c) == Unit(i, c)
  }

  ghost predicate Reducing(a: Augmented, m: Mat4, n: nat) {
    RowsFollow(a, m) && UnitColumns(a, n) && exists f :: Undoes(f, a, m)
  }

  lemma SetRowColumn(a: Mat4, i: nat, v: Vec4, c: nat)
    requires i < 4 && c < 4
    ensures a.SetRow(i, v).Column(c) == a.Column(c).Set(i, v.At(c))
    ensures a.Column(c).At(i) == a.Row(i).At(c)
  {
  }

  // column operations on the matrix that undoes the row operations

  function SwapColumns(f: Mat4, i: nat, p: nat): (g: Mat4)
    requires i < 4 && p < 4
    ensures forall r: nat | r < 4 :: g.Row(r) == SwapEntries(f.Row(r), i, p)
  {
    Mat4(SwapEntries(f.r0, i, p), SwapEntries(f.r1, i, p), SwapEntries(f.r2, i, p), SwapEntries(f.r3, i, p))
  }

  function SwapEntries(v: Vec4, i: nat, p: nat): Vec4
    requires i < 4 && p < 4
  {
    v.Set(i, v.At(p)).Set(p, v.At(i))
  }

  /** Multiplies column i by s, then adds t times column k. */
  function MixColumn(f: Mat4, i: nat, s: real, k: nat, t: real): (g: Mat4)
    requires i < 4 && k < 4
    ensures forall r: nat | r < 4 :: g.Row(r) == MixEntry(f.Row(r), i, s, k, t)
  {
    Mat4(MixEntry(f.r0, i, s, k, t), MixEntry(f.r1, i, s, k, t), MixEntry(f.r2, i, s, k, t), MixEntry(f.r3, i, s, k, t))
  }

  function MixEntry(v: Vec4, i: nat, s: real, k: nat, t: real): Vec4
    requires i < 4 && k < 4
  {
    v.Set(i, v.At(i) * s + t * v.At(k))
  }

  lemma UndoesToo(f: Mat4, a: Augmented, m: Mat4, g: Mat4, b: Augmented)
    requires Undoes(f, a, m)
    requires forall r: nat, c: nat | r < 4 && c < 4 :: SameAt(f, a, g, b, r, c)
    ensures Undoes(g, b, m)
  {
    forall r: nat, c: nat | r < 4 && c < 4 ensures UndoesAt(g, b, m, r, c) {
      UndoesTooAt(f, a, m, g, b, r, c);
    }
  }

  lemma UndoesTooAt(f: Mat4, a: Augmented, m: Mat4, g: Mat4, b: Augmented, r: nat, c: nat)
    requires r < 4 && c < 4 && UndoesAt(f, a, m, r, c) && SameAt(f, a, g, b, r, c)
    ensures UndoesAt(g, b, m, r, c)
  {
  }

  // ----- swapping two rows

  lemma DotSwap(x: Vec4, y: Vec4, i: nat, p: nat)
    requires i < 4 && p < 4
    ensures Dot(SwapEntries(x, i, p), SwapEntries(y, i, p)) == Dot(x, y)
  {
  }

  lemma SwapColumn(a: Mat4, i: nat, p: nat, c: nat)
    requires i < 4 && p < 4 && c < 4
    ensures a.SetRow(i, a.Row(p)).SetRow(p, a.Row(i)).Column(c) == SwapEntries(a.Column(c), i, p)
  {
  }

  lemma SwapRow(a: Mat4, i: nat, p: nat, r: nat)
    requires i < 4 && p < 4 && r < 4
    ensures a.SetRow(i, a.Row(p)).SetRow(p, a.Row(i)).Row(r) == a.Row(if r == i then p else if r == p then i else r)
  {
  }

  lemma SwappedKeeps(a: Augmented, m: Mat4, n: nat, i: nat, p: nat)
    requires n <= i < 4 && n <= p < 4 && Reducing(a, m, n)
    ensures Reducing(Swapped(a, i, p), m, n)
  {
    var b := Swapped(a, i, p);
    forall r: nat | r < 4
      ensures b.left.Row(r) == a.left.Row(if r == i then p else if r == p then i else r)
      ensures b.right.Row(r) == a.right.Row(if r == i then p else if r == p then i else r)
    {
      SwapRow(a.left, i, p, r);
      SwapRow(a.right, i, p, r);
    }
    var f :| Undoes(f, a, m);
    var g := SwapColumns(f, i, p);
    forall r: nat, c: nat | r < 4 && c < 4 ensures SameAt(f, a, g, b, r, c) {
      SwapColumn(a.left, i, p, c);
      SwapColumn(a.right, i, p, c);
      DotSwap(f.Row(r), a.left.Column(c), i, p);
      DotSwap(f.Row(r), a.right.Column(c), i, p);
    }
    UndoesToo(f, a, m, g, b);
  }

  // ----- scaling a row

  lemma ScaleCancels(x: Vec4, y: Vec4, i: nat, pivot: real, k: real)
    requires i < 4 && k * pivot == 1.0
    ensures Dot(MixEntry(x, i, pivot, i, 0.0), y.Set(i, k * y.At(i))) == Dot(x, y)
  {
    var u, v := x.At(i), y.At(i);
    assert (u * pivot) * (k * v) == u * v by {
      assert (u * pivot) * (k * v) == u * (k * pivot) * v;
    }
    assert u * pivot + 0.0 * u == u * pivot;
    DotUpdate(x, y, i, u * pivot, k * v);
  }

  function ScaledEntry(y: Vec4, i: nat, k: real): Vec4
    requires i < 4
  {
    y.Set(i, k * y.At(i))
  }

  lemma ScaledColumn(a: Mat4, i: nat, k: real, c: nat)
    requires i < 4 && c < 4
    ensures a.SetRow(i, Times(k, a.Row(i))).Column(c) == ScaledEntry(a.Column(c), i, k)
  {
    SetRowColumn(a, i, Times(k, a.Row(i)), c);
    TimesAt(k, a.Row(i), c);
  }

  lemma ScaledDot(x: Vec4, y: Vec4, x': Vec4, y': Vec4, i: nat, pivot: real, k: real)
    requires i < 4 && k * pivot == 1.0 && x' == MixEntry(x, i, pivot, i, 0.0) && y' == ScaledEntry(y, i, k)
    ensures Dot(x', y') == Dot(x, y)
  {
    ScaleCancels(x, y, i, pivot, k);
  }

  lemma SetRowRow(a: Mat4, i: nat, v: Vec4, r: nat)
    requires i < 4 && r < 4
    ensures a.SetRow(i, v).Row(r) == if r == i then v else a.Row(r)
  {
  }

  lemma TimesAt(k: real, v: Vec4, c: nat)
    requires c < 4
    ensures Times(k, v).At(c) == k * v.At(c)
  {
  }

  lemma ScaledRows(a: Augmented, m: Mat4, n: nat, i: nat, k: real)
    requires n <= i < 4 && RowsFollow(a, m) && UnitColumns(a, n)
    ensures RowsFollow(Scaled(a, i, k), m) && UnitColumns(Scaled(a, i, k), n)
  {
    var b := Scaled(a, i, k);
    forall r: nat, c: nat | r < 4 && c < 4
      ensures b.left.Row(r).At(c) == Dot(b.right.Row(r), m.Column(c))
      ensures c < n ==> b.left.Row(r).At(c) == Unit(r, c)
    {
      SetRowRow(a.left, i, Times(k, a.left.Row(i)), r);
      SetRowRow(a.right, i, Times(k, a.right.Row(i)), r);
      assert a.left.Row(i).At(c) == Dot(a.right.Row(i), m.Column(c));
      ScaledFollows(a.left.Row(i), a.right.Row(i), m.Column(c), k, c);
      assert c < n ==> a.left.Row(r).At(c) == Unit(r, c) && a.left.Row(i).At(c) == 0.0;
    }
  }

  lemma ScaledFollows(left: Vec4, right: Vec4, column: Vec4, k: real, c: nat)
    requires c < 4 && left.At(c) == Dot(right, column)
    ensures Times(k, left).At(c) == Dot(Times(k, right), column)
    ensures left.At(c) == 0.0 ==> Times(k, left).At(c) == 0.0
  {
    TimesAt(k, left, c);
    DotScale(k, right, column);
  }

  lemma ScaledSame(f: Mat4, a: Augmented, g: Mat4, b: Augmented, i: nat, pivot: real, k: real, r: nat, c: nat)
    requires i < 4 && k * pivot == 1.0 && r < 4 && c < 4
    requires g == MixColumn(f, i, pivot, i, 0.0) && b == Scaled(a, i, k)
    ensures SameAt(f, a, g, b, r, c)
  {
    assert b.left == a.left.SetRow(i, Times(k, a.left.Row(i)))
           && b.right == a.right.SetRow(i, Times(k, a.right.Row(i)));
    ScaledColumn(a.left, i, k, c);
    ScaledColumn(a.right, i, k, c);
    assert g.Row(r) == MixEntry(f.Row(r), i, pivot, i, 0.0);
    ScaledDot(f.Row(r), a.left.Column(c), g.Row(r), b.left.Column(c), i, pivot, k);
    ScaledDot(f.Row(r), a.right.Column(c), g.Row(r), b.right.Column(c), i, pivot, k);
  }

  lemma ScaledKeeps(a: Augmented, m: Mat4, n: nat, i: nat, pivot: real, k: real)
    requires n <= i < 4 && Reducing(a, m, n) && k * pivot == 1.0
    ensures Reducing(Scaled(a, i, k), m, n)
  {
    ScaledRows(a, m, n, i, k);
    var f :| Undoes(f, a, m);
    var g := MixColumn(f, i, pivot, i, 0.0);
    var b := Scaled(a, i, k);
    forall r: nat, c: nat | r < 4 && c < 4 ensures SameAt(f, a, g, b, r, c) {
      ScaledSame(f, a, g, b, i, pivot, k, r, c);
    }
    UndoesToo(f, a, m, g, b);
  }

  // ----- subtracting a multiple of one row from another

  lemma ClearCancels(x: Vec4, y: Vec4, k: nat, i: nat, f: real)
    requires i < 4 && k < 4 && i != k
    ensures Dot(MixEntry(x, i, 1.0, k, f), y.Set(k, y.At(k) - f * y.At(i))) == Dot(x, y)
  {
    var u, v := x.At(i) * 1.0 + f * x.At(k), y.At(k) - f * y.At(i);
    SetBoth(x, y, k, i, u, v);
    MovedAcross(f, x.At(k), x.At(i), y.At(k), y.At(i));
  }

  lemma SetBoth(x: Vec4, y: Vec4, k: nat, i: nat, u: real, v: real)
    requires i < 4 && k < 4 && i != k
    ensures Dot(x.Set(i, u), y.Set(k, v)) == Dot(x, y) + ((u - x.At(i)) * y.At(i) + x.At(k) * (v - y.At(k)))
  {
    SetAt(y, k, v, i);
    DotSet(x, y.Set(k, v), i, u);
    DotSet(y, x, k, v);
  }

  lemma SetAt(y: Vec4, k: nat, v: real, i: nat)
    requires k < 4 && i < 4
    ensures y.Set(k, v).At(i) == if i == k then v else y.At(i)
  {
  }

  lemma MovedAcross(f: real, p: real, u: real, v: real, q: real)
    ensures ((u * 1.0 + f * p) - u) * q + p * ((v - f * q) - v) == 0.0
  {
    assert (f * p) * q == p * (f * q);
  }

  lemma MinusTimesAt(a: Vec4, f: real, b: Vec4, c: nat)
    requires c < 4
    ensures Minus(a, Times(f, b)).At(c) == a.At(c) - f * b.At(c)
  {
  }

  lemma DotMinusTimes(a: Vec4, f: real, b: Vec4, y: Vec4)
    ensures Dot(Minus(a, Times(f, b)), y) == Dot(a, y) - f * Dot(b, y)
  {
    DotScale(f, b, y);
    DotPlus(a, Times(f, b), y);
  }

  lemma ClearedRows(a: Augmented, m: Mat4, n: nat, k: nat, i: nat, f: real)
    requires n <= i < 4 && k < 4 && k != i && RowsFollow(a, m) && UnitColumns(a, n)
    ensures RowsFollow(Cleared(a, k, i, f), m) && UnitColumns(Cleared(a, k, i, f), n)
  {
    var b := Cleared(a, k, i, f);
    forall r: nat, c: nat | r < 4 && c < 4
      ensures b.left.Row(r).At(c) == Dot(b.right.Row(r), m.Column(c))
      ensures c < n ==> b.left.Row(r).At(c) == Unit(r, c)
    {
      SetRowRow(a.left, k, Minus(a.left.Row(k), Times(f, a.left.Row(i))), r);
      SetRowRow(a.right, k, Minus(a.right.Row(k), Times(f, a.right.Row(i))), r);
      MinusTimesAt(a.left.Row(k), f, a.left.Row(i), c);
      DotMinusTimes(a.right.Row(k), f, a.right.Row(i), m.Column(c));
      assert a.left.Row(i).At(c) == Dot(a.right.Row(i), m.Column(c));
      assert c < n ==> a.left.Row(i).At(c) == 0.0;
    }
  }

  lemma ClearedColumn(a: Mat4, k: nat, i: nat, f: real, c: nat)
    requires i < 4 && k < 4 && c < 4
    ensures var y := a.Column(c);
            a.SetRow(k, Minus(a.Row(k), Times(f, a.Row(i)))).Column(c) == y.Set(k, y.At(k) - f * y.At(i))
  {
    SetRowColumn(a, k, Minus(a.Row(k), Times(f, a.Row(i))), c);
    SetRowColumn(a, i, a.Row(i), c);
    MinusTimesAt(a.Row(k), f, a.Row(i), c);
  }

  lemma ClearedDot(x: Vec4, y: Vec4, x': Vec4, y': Vec4, k: nat, i: nat, f: real)
    requires i < 4 && k < 4 && i != k && x' == MixEntry(x, i, 1.0, k, f) && y' == y.Set(k, y.At(k) - f * y.At(i))
    ensures Dot(x', y') == Dot(x, y)
  {
    ClearCancels(x, y, k, i, f);
  }

  lemma ClearedDots(e: Mat4, a: Mat4, g: Mat4, b: Mat4, k: nat, i: nat, f: real, r: nat, c: nat)
    requires i < 4 && k < 4 && i != k && r < 4 && c < 4
    requires g == MixColumn(e, i, 1.0, k, f) && b == a.SetRow(k, Minus(a.Row(k), Times(f, a.Row(i))))
    ensures Dot(g.Row(r), b.Column(c)) == Dot(e.Row(r), a.Column(c))
  {
    ClearedColumn(a, k, i, f, c);
    assert g.Row(r) == MixEntry(e.Row(r), i, 1.0, k, f);
    ClearedDot(e.Row(r), a.Column(c), g.Row(r), b.Column(c), k, i, f);
  }

  lemma ClearedSame(e: Mat4, a: Augmented, g: Mat4, b: Augmented, k: nat, i: nat, f: real, r: nat, c: nat)
    requires i < 4 && k < 4 && i != k && r < 4 && c < 4
    requires g == MixColumn(e, i, 1.0, k, f) && b == Cleared(a, k, i, f)
    ensures SameAt(e, a, g, b, r, c)
  {
    ClearedDots(e, a.left, g, b.left, k, i, f, r, c);
    ClearedDots(e, a.right, g, b.right, k, i, f, r, c);
  }

  lemma ClearedKeeps(a: Augmented, m: Mat4, n: nat, k: nat, i: nat, f: real)
    requires n <= i < 4 && k < 4 && k != i && Reducing(a, m, n)
    ensures Reducing(Cleared(a, k, i, f), m, n)
  {
    ClearedRows(a, m, n, k, i, f);
    var e :| Undoes(e, a, m);
    var g := MixColumn(e, i, 1.0, k, f);
    var b := Cleared(a, k, i, f);
    forall r: nat, c: nat | r < 4 && c < 4 ensures SameAt(e, a, g, b, r, c) {
      ClearedSame(e, a, g, b, k, i, f, r, c);
    }
    UndoesToo(e, a, m, g, b);
  }

  lemma UnitColumn(a: Augmented, c: nat)
    requires UnitColumns(a, 4) && c < 4
    ensures a.left.Column(c) == IDENTITY.Column(c)
  {
    assert a.left.Row(0).At(c) == Unit(0, c) && a.left.Row(1).At(c) == Unit(1, c);
    assert a.left.Row(2).At(c) == Unit(2, c) && a.left.Row(3).At(c) == Unit(3, c);
  }

  lemma DotUnit(v: Vec4, c: nat)
    requires c < 4
    ensures Dot(v, IDENTITY.Column(c)) == v.At(c)
  {
  }

  /** Fully reduced, the right half inverts m from both sides. */
  lemma ReducedInverts(a: Augmented, m: Mat4)
    requires Reducing(a, m, 4)
    ensures Inverts(a.right, m) && Inverts(m, a.right)
  {
    var f :| Undoes(f, a, m);
    forall i: nat | i < 4 ensures f.Row(i) == m.Row(i) {
      forall j: nat | j < 4 ensures f.Row(i).At(j) == m.Row(i).At(j) {
        assert UndoesAt(f, a, m, i, j);
        UnitColumn(a, j);
        DotUnit(f.Row(i), j);
      }
      SameVec(f.Row(i), m.Row(i));
    }
    forall i: nat, c: nat | i < 4 && c < 4
      ensures Dot(a.right.Row(i), m.Column(c)) == Unit(i, c)
      ensures Dot(m.Row(i), a.right.Column(c)) == Unit(i, c)
    {
      assert UndoesAt(f, a, m, i, c);
    }
  }

  lemma SameVec(a: Vec4, b: Vec4)
    requires forall j: nat | j < 4 :: a.At(j) == b.At(j)
    ensures a == b
  {
    assert a.At(0) == b.At(0) && a.At(1) == b.At(1) && a.At(2) == b.At(2) && a.At(3) == b.At(3);
  }

  // ----- the elimination

  const PIVOT_LIMIT: real := 0.000000000001

  /** The first row from i to k - 1 whose entry in column i is largest. */
  function PivotRow(a: Augmented, i: nat, k: nat): (p: nat)
    requires i < k <= 4
    ensures i <= p < k
    ensures forall t | i <= t < k :: Abs(a.At(t, i)) <= Abs(a.At(p, i))
    ensures forall t | i <= t < p :: Abs(a.At(t, i)) < Abs(a.At(p, i))
  {
    if k == i + 1 then i
    else
      var p := PivotRow(a, i, k - 1);
      if Abs(a.At(k - 1, i)) > Abs(a.At(p, i)) then k - 1 else p
  }

  function Raised(a: Augmented, i: nat, p: nat): Augmented
    requires i < 4 && p < 4
  {
    if p == i then a else Swapped(a, i, p)
  }

  /** Column i cleared in the first k rows but its own. */
  function Cleaned(a: Augmented, i: nat, k: nat): Augmented
    requires i < 4 && k <= 4
  {
    if k == 0 then a
    else
      var b := Cleaned(a, i, k - 1);
      if k - 1 == i then b else Cleared(b, k - 1, i, b.At(k - 1, i))
  }

  function Eliminated(a: Augmented, i: nat, p: nat): Augmented
    requires i < 4 && p < 4 && a.At(p, i) != 0.0
  {
    Cleaned(Scaled(Raised(a, i, p), i, 1.0 / a.At(p, i)), i, 4)
  }

  /** [m | identity] after eliminating the first i columns; None once a pivot is too small. */
  function Reduction(m: Mat4, i: nat): (r: Option<Augmented>)
    requires i <= 4
  {
    if i == 0 then Some(Augmented(m, IDENTITY))
    else
      match Reduction(m, i - 1)
      case None => None
      case Some(a) => NextColumn(a, i - 1)
  }

  function NextColumn(a: Augmented, i: nat): Option<Augmented>
    requires i < 4
  {
    var p := PivotRow(a, i, 4);
    if Abs(a.At(p, i)) < PIVOT_LIMIT then None else Some(Eliminated(a, i, p))
  }

  lemma {:induction false} CleanedKeeps(a: Augmented, m: Mat4, i: nat, k: nat)
    requires i < 4 && k <= 4 && Reducing(a, m, i) && a.At(i, i) == 1.0
    ensures var b := Cleaned(a, i, k);
            Reducing(b, m, i) && b.At(i, i) == 1.0 && forall r: nat | r < k && r != i :: b.At(r, i) == 0.0
  {
    if k > 0 {
      CleanedKeeps(a, m, i, k - 1);
      var b := Cleaned(a, i, k - 1);
      if k - 1 != i {
        var f := b.At(k - 1, i);
        ClearedKeeps(b, m, i, k - 1, i, f);
        var c := Cleared(b, k - 1, i, f);
        assert c == Cleaned(a, i, k);
        forall r: nat | r < 4 ensures c.At(r, i) == if r == k - 1 then 0.0 else b.At(r, i) {
          ClearedAt(b, k - 1, i, f, r, i);
        }
      }
    }
  }

  lemma RaisedKeeps(a: Augmented, m: Mat4, i: nat, p: nat)
    requires i < 4 && i <= p < 4 && Reducing(a, m, i)
    ensures Reducing(Raised(a, i, p), m, i) && Raised(a, i, p).At(i, i) == a.At(p, i)
  {
    if p != i {
      SwappedKeeps(a, m, i, i, p);
      SwappedAt(a, i, p, i, i);
    }
  }

  lemma ScaledToOne(a: Augmented, m: Mat4, i: nat, pivot: real, k: real)
    requires i < 4 && Reducing(a, m, i) && a.At(i, i) == pivot && k * pivot == 1.0
    ensures Reducing(Scaled(a, i, k), m, i) && Scaled(a, i, k).At(i, i) == 1.0
  {
    ScaledKeeps(a, m, i, i, pivot, k);
    ScaledAt(a, i, k, i, i);
  }

  /** Eliminating a column makes it a unit column and keeps the rows' bookkeeping. */
  lemma EliminatedReduces(a: Augmented, m: Mat4, i: nat, p: nat)
    requires i < 4 && i <= p < 4 && Reducing(a, m, i) && a.At(p, i) != 0.0
    ensures Reducing(Eliminated(a, i, p), m, i + 1)
  {
    var pivot := a.At(p, i);
    var k := 1.0 / pivot;
    RaisedKeeps(a, m, i, p);
    var b := Raised(a, i, p);
    ScaledToOne(b, m, i, pivot, k);
    var c := Scaled(b, i, k);
    CleanedKeeps(c, m, i, 4);
    OneMoreColumn(Cleaned(c, i, 4), m, i);
  }

  lemma OneMoreColumn(a: Augmented, m: Mat4, i: nat)
    requires i < 4 && Reducing(a, m, i) && a.At(i, i) == 1.0 && forall r: nat | r < 4 && r != i :: a.At(r, i) == 0.0
    ensures Reducing(a, m, i + 1)
  {
    forall r: nat, c: nat | r < 4 && c < i + 1 && c < 4 ensures a.left.Row(r).At(c) == Unit(r, c) {
      assert a.At(r, i) == a.left.Row(r).At(i);
    }
  }

  lemma {:induction false} ReductionReduces(m: Mat4, i: nat)
    requires i <= 4 && Reduction(m, i).Some?
    ensures Reducing(Reduction(m, i).value, m, i)
  {
    if i == 0 {
      StartsReducing(m);
    } else {
      ReductionReduces(m, i - 1);
      var a := Reduction(m, i - 1).value;
      EliminatedReduces(a, m, i - 1, PivotRow(a, i - 1, 4));
    }
  }

  /** No pivot fails. */
  ghost predicate Solvable(m: Mat4) { Reduction(m, 4).Some? }

  /** Then what stands beside the identity is the inverse, from both sides. */
  lemma ReductionInverts(m: Mat4)
    requires Solvable(m)
    ensures Inverts(Reduction(m, 4).value.right, m) && Inverts(m, Reduction(m, 4).value.right)
  {
    ReductionReduces(m, 4);
    ReducedInverts(Reduction(m, 4).value, m);
  }

  /** So a matrix that takes some vector to zero never passes. */
  lemma SingularFails(m: Mat4, v: Vec4)
    requires v != ZERO && Apply(m, v) == ZERO
    ensures !Solvable(m)
  {
    if Solvable(m) {
      ReductionInverts(m);
      ZeroToZero(Reduction(m, 4).value.right);
      InverseCancels(Reduction(m, 4).value.right, m, v);
    }
  }

  lemma ZeroToZero(m: Mat4)
    ensures Apply(m, ZERO) == ZERO
  {
  }

  lemma {:induction false} ReductionStops(m: Mat4, i: nat, j: nat)
    requires i <= j <= 4 && Reduction(m, i).None?
    ensures Reduction(m, j).None?
  {
    if i < j { ReductionStops(m, i, j - 1); }
  }

  // ----- the loops over the array

  ghost predicate IsAugmented(a: array2<real>) { a.Length0 == 4 && a.Length1 == 8 }

  ghost function Quarter(a: array2<real>, i: nat, j: nat): Vec4
    requires IsAugmented(a) && i < 4 && j <= 4
    reads a
  {
    Vec4(a[i, j], a[i, j + 1], a[i, j + 2], a[i, j + 3])
  }

  ghost function View(a: array2<real>): Augmented
    requires IsAugmented(a)
    reads a
  {
    Augmented(Mat4(Quarter(a, 0, 0), Quarter(a, 1, 0), Quarter(a, 2, 0), Quarter(a, 3, 0)),
              Mat4(Quarter(a, 0, 4), Quarter(a, 1, 4), Quarter(a, 2, 4), Quarter(a, 3, 4)))
  }

  lemma ViewAt(a: array2<real>, i: nat, j: nat)
    requires IsAugmented(a) && i < 4 && j < 8
    ensures View(a).At(i, j) == a[i, j]
  {
  }

  lemma SameAugmented(a: Augmented, b: Augmented)
    requires forall i: nat, j: nat | i < 4 && j < 8 :: a.At(i, j) == b.At(i, j)
    ensures a == b
  {
    forall i: nat | i < 4 ensures a.left.Row(i) == b.left.Row(i) && a.right.Row(i) == b.right.Row(i) {
      forall j: nat | j < 4
        ensures a.left.Row(i).At(j) == b.left.Row(i).At(j) && a.right.Row(i).At(j) == b.right.Row(i).At(j)
      {
        assert a.At(i, j) == b.At(i, j) && a.At(i, j + 4) == b.At(i, j + 4);
      }
      SameVec(a.left.Row(i), b.left.Row(i));
      SameVec(a.right.Row(i), b.right.Row(i));
    }
    assert a.left.Row(0) == b.left.Row(0) && a.left.Row(1) == b.left.Row(1) && a.left.Row(2) == b.left.Row(2)
           && a.left.Row(3) == b.left.Row(3);
  }

  /** The row that stands at r once rows i and p have changed places. */
  function Other(i: nat, p: nat, r: nat): nat { if r == i then p else if r == p then i else r }

  /** The same cells as rows of eight. */
  ghost function Cells(b: Augmented): (rows: seq<seq<real>>)
    ensures |rows| == 4 && forall r | 0 <= r < 4 :: |rows[r]| == 8
  {
    [RowCells(b, 0), RowCells(b, 1), RowCells(b, 2), RowCells(b, 3)]
  }

  ghost function RowCells(b: Augmented, r: nat): (row: seq<real>)
    requires r < 4
    ensures |row| == 8
  {
    seq(8, c requires 0 <= c < 8 => b.At(r, c))
  }

  lemma CellAt(b: Augmented, r: nat, c: nat)
    requires r < 4 && c < 8
    ensures Cells(b)[r][c] == b.At(r, c)
  {
    assert Cells(b)[r] == RowCells(b, r);
  }

  lemma CellsShown(a: array2<real>)
    requires IsAugmented(a)
    ensures forall r: nat, c: nat | r < 4 && c < 8 :: a[r, c] == Cells(View(a))[r][c]
  {
    forall r: nat, c: nat | r < 4 && c < 8 ensures a[r, c] == Cells(View(a))[r][c] {
      ViewAt(a, r, c);
      CellAt(View(a), r, c);
    }
  }

  lemma RowsSwapped(a: array2<real>, before: Augmented, i: nat, p: nat)
    requires IsAugmented(a) && i < 4 && p < 4
    requires forall r: nat, c: nat | r < 4 && c < 8 :: a[r, c] == Cells(before)[Other(i, p, r)][c]
    ensures View(a) == Swapped(before, i, p)
  {
    forall r: nat, c: nat | r < 4 && c < 8 ensures View(a).At(r, c) == Swapped(before, i, p).At(r, c) {
      ViewAt(a, r, c);
      CellAt(before, Other(i, p, r), c);
      SwappedAt(before, i, p, r, c);
    }
    SameAugmented(View(a), Swapped(before, i, p));
  }

  /** The exchange itself, cell by cell along the two rows. */
  method SwapCells(a: array2<real>, i: nat, p: nat, ghost rows: seq<seq<real>>)
    requires IsAugmented(a) && i < 4 && p < 4 && i != p
    requires |rows| == 4 && forall r | 0 <= r < 4 :: |rows[r]| == 8
    requires forall r: nat, c: nat | r < 4 && c < 8 :: a[r, c] == rows[r][c]
    modifies a
    ensures forall r: nat, c: nat | r < 4 && c < 8 :: a[r, c] == rows[Other(i, p, r)][c]
  {
    for j := 0 to 8
      invariant forall r: nat, c: nat | r < 4 && c < j :: a[r, c] == rows[Other(i, p, r)][c]
      invariant forall r: nat, c: nat | r < 4 && j <= c < 8 :: a[r, c] == rows[r][c]
    {
      var tmp := a[i, j];
      a[i, j] := a[p, j];
      a[p, j] := tmp;
    }
  }

  method SwapRows(a: array2<real>, i: nat, p: nat)
    requires IsAugmented(a) && i < 4 && p < 4 && i != p
    modifies a
    ensures View(a) == Swapped(old(View(a)), i, p)
  {
    CellsShown(a);
    SwapCells(a, i, p, Cells(View(a)));
    RowsSwapped(a, old(View(a)), i, p);
  }

  lemma SwappedAt(a: Augmented, i: nat, p: nat, r: nat, c: nat)
    requires i < 4 && p < 4 && r < 4 && c < 8
    ensures Swapped(a, i, p).At(r, c) == a.At(Other(i, p, r), c)
  {
    SwapRow(a.left, i, p, r);
    SwapRow(a.right, i, p, r);
  }

  /** The array holds before, with the first j entries of row i already those of after. */
  ghost predicate RowPartly(a: array2<real>, before: Augmented, after: Augmented, i: nat, j: nat)
    requires IsAugmented(a)
    reads a
  {
    forall r: nat, c: nat | r < 4 && c < 8 :: a[r, c] == PartlyAt(before, after, i, j, r, c)
  }

  function PartlyAt(before: Augmented, after: Augmented, i: nat, j: nat, r: nat, c: nat): real
    requires r < 4 && c < 8
  {
    if r == i && c < j then after.At(r, c) else before.At(r, c)
  }

  lemma RowStarts(a: array2<real>, after: Augmented, i: nat)
    requires IsAugmented(a)
    ensures RowPartly(a, View(a), after, i, 0)
  {
    forall r: nat, c: nat | r < 4 && c < 8 ensures View(a).At(r, c) == a[r, c] {
      ViewAt(a, r, c);
    }
  }

  lemma RowDone(a: array2<real>, before: Augmented, after: Augmented, i: nat, j: nat)
    requires IsAugmented(a) && j == 8 && RowPartly(a, before, after, i, j)
    requires forall r: nat, c: nat | r < 4 && c < 8 && r != i :: after.At(r, c) == before.At(r, c)
    ensures View(a) == after
  {
    forall r: nat, c: nat | r < 4 && c < 8 ensures View(a).At(r, c) == after.At(r, c) {
      ViewAt(a, r, c);
    }
    SameAugmented(View(a), after);
  }

  method DivideRow(a: array2<real>, i: nat, pivot: real, ghost k: real)
    requires IsAugmented(a) && i < 4 && pivot != 0.0 && k * pivot == 1.0
    modifies a
    ensures View(a) == Scaled(old(View(a)), i, k)
  {
    ghost var before := View(a);
    ghost var after := Scaled(before, i, k);
    RowStarts(a, after, i);
    for j := 0 to 8
      invariant RowPartly(a, before, after, i, j)
    {
      assert a[i, j] == before.At(i, j);
      DividedAt(before, i, pivot, k, j);
      a[i, j] := a[i, j] / pivot;
    }
    ScaledElsewhere(before, i, k);
    RowDone(a, before, after, i, 8);
  }

  lemma Quotient(x: real, pivot: real, k: real)
    requires pivot != 0.0 && k * pivot == 1.0
    ensures x / pivot == k * x
  {
    assert (k * x) * pivot == x * (k * pivot);
  }

  lemma DividedAt(a: Augmented, i: nat, pivot: real, k: real, j: nat)
    requires i < 4 && j < 8 && pivot != 0.0 && k * pivot == 1.0
    ensures a.At(i, j) / pivot == Scaled(a, i, k).At(i, j)
  {
    Quotient(a.At(i, j), pivot, k);
    ScaledAt(a, i, k, i, j);
  }

  lemma ScaledElsewhere(a: Augmented, i: nat, k: real)
    requires i < 4
    ensures forall r: nat, c: nat | r < 4 && c < 8 && r != i :: Scaled(a, i, k).At(r, c) == a.At(r, c)
  {
    forall r: nat, c: nat | r < 4 && c < 8 && r != i ensures Scaled(a, i, k).At(r, c) == a.At(r, c) {
      ScaledAt(a, i, k, r, c);
    }
  }

  lemma ScaledAt(a: Augmented, i: nat, k: real, r: nat, c: nat)
    requires i < 4 && r < 4 && c < 8
    ensures Scaled(a, i, k).At(r, c) == if r == i then k * a.At(r, c) else a.At(r, c)
  {
    SetRowRow(a.left, i, Times(k, a.left.Row(i)), r);
    SetRowRow(a.right, i, Times(k, a.right.Row(i)), r);
    if c < 4 {
      TimesAt(k, a.left.Row(i), c);
    } else {
      TimesAt(k, a.right.Row(i), c - 4);
    }
  }

  method ClearRow(a: array2<real>, k: nat, i: nat)
    requires IsAugmented(a) && k < 4 && i < 4 && k != i
    modifies a
    ensures View(a) == Cleared(old(View(a)), k, i, old(a[k, i]))
  {
    var factor := a[k, i];
    ghost var before := View(a);
    ghost var after := Cleared(before, k, i, factor);
    forall j: nat | j < 8 ensures ClearedEntry(before, after, k, i, factor, j) {
      ClearedAt(before, k, i, factor, k, j);
    }
    ClearedElsewhere(before, k, i, factor);
    SubtractRow(a, k, i, factor, before, after);
    RowDone(a, before, after, k, 8);
  }

  ghost predicate ClearedEntry(a: Augmented, b: Augmented, k: nat, i: nat, f: real, j: nat)
    requires k < 4 && i < 4 && j < 8
  {
    b.At(k, j) == a.At(k, j) - f * a.At(i, j)
  }

  method SubtractRow(a: array2<real>, k: nat, i: nat, factor: real, ghost before: Augmented, ghost after: Augmented)
    requires IsAugmented(a) && k < 4 && i < 4 && k != i && before == View(a)
    requires forall j: nat | j < 8 :: ClearedEntry(before, after, k, i, factor, j)
    modifies a
    ensures RowPartly(a, before, after, k, 8)
  {
    RowStarts(a, after, k);
    for j := 0 to 8
      invariant RowPartly(a, before, after, k, j)
    {
      assert a[k, j] == PartlyAt(before, after, k, j, k, j) && a[i, j] == PartlyAt(before, after, k, j, i, j);
      assert ClearedEntry(before, after, k, i, factor, j);
      a[k, j] := a[k, j] - factor * a[i, j];
    }
  }

  lemma ClearedElsewhere(a: Augmented, k: nat, i: nat, f: real)
    requires k < 4 && i < 4
    ensures forall r: nat, c: nat | r < 4 && c < 8 && r != k :: Cleared(a, k, i, f).At(r, c) == a.At(r, c)
  {
    forall r: nat, c: nat | r < 4 && c < 8 && r != k ensures Cleared(a, k, i, f).At(r, c) == a.At(r, c) {
      ClearedAt(a, k, i, f, r, c);
    }
  }

  lemma ClearedAt(a: Augmented, k: nat, i: nat, f: real, r: nat, c: nat)
    requires k < 4 && i < 4 && r < 4 && c < 8
    ensures Cleared(a, k, i, f).At(r, c) == if r == k then a.At(r, c) - f * a.At(i, c) else a.At(r, c)
  {
    SetRowRow(a.left, k, Minus(a.left.Row(k), Times(f, a.left.Row(i))), r);
    SetRowRow(a.right, k, Minus(a.right.Row(k), Times(f, a.right.Row(i))), r);
    if c < 4 {
      MinusTimesAt(a.left.Row(k), f, a.left.Row(i), c);
    } else {
      MinusTimesAt(a.right.Row(k), f, a.right.Row(i), c - 4);
    }
  }

  /** The row at or below i with the largest entry in column i. */
  method FindPivot(a: array2<real>, i: nat) returns (pivotRow: nat, pivotAbs: real)
    requires IsAugmented(a) && i < 4
    ensures pivotRow == PivotRow(View(a), i, 4) && pivotAbs == Abs(View(a).At(pivotRow, i))
  {
    ghost var v := View(a);
    ViewAt(a, i, i);
    pivotRow, pivotAbs := i, Abs(a[i, i]);
    for k := i + 1 to 4
      invariant pivotRow == PivotRow(v, i, k) && pivotAbs == Abs(v.At(pivotRow, i))
    {
      ViewAt(a, k, i);
      if Abs(a[k, i]) > pivotAbs {
        pivotRow, pivotAbs := k, Abs(a[k, i]);
      }
    }
  }

  /** Moves the pivot into place. */
  method BringUp(a: array2<real>, i: nat, pivotRow: nat)
    requires IsAugmented(a) && i < 4 && pivotRow < 4
    modifies a
    ensures View(a) == Raised(old(View(a)), i, pivotRow)
  {
    if pivotRow != i {
      SwapRows(a, i, pivotRow);
    }
  }

  /** Divides row i by its pivot. */
  method NormalizeRow(a: array2<real>, i: nat, ghost pivotValue: real)
    requires IsAugmented(a) && i < 4 && a[i, i] == pivotValue != 0.0
    modifies a
    ensures View(a) == Scaled(old(View(a)), i, 1.0 / pivotValue)
  {
    var pivot := a[i, i];
    DivideRow(a, i, pivot, 1.0 / pivotValue);
  }

  /** Clears column i below and above its pivot. */
  method ClearColumn(a: array2<real>, i: nat)
    requires IsAugmented(a) && i < 4
    modifies a
    ensures View(a) == Cleaned(old(View(a)), i, 4)
  {
    ghost var before := View(a);
    for k := 0 to 4
      invariant View(a) == Cleaned(before, i, k)
    {
      if k != i {
        ViewAt(a, k, i);
        ClearRow(a, k, i);
      }
    }
  }

  /** Gauss-Jordan on [m | identity]; false when a pivot is too small. */
  method GaussJordan(a: array2<real>, ghost m: Mat4) returns (ok: bool)
    requires IsAugmented(a) && View(a) == Augmented(m, IDENTITY)
    modifies a
    ensures ok == Solvable(m)
    ensures ok ==> View(a) == Reduction(m, 4).value
  {
    for i := 0 to 4
      invariant Reduction(m, i) == Some(View(a))
    {
      ghost var v := View(a);
      var pivotRow, pivotAbs := FindPivot(a, i);
      if pivotAbs < PIVOT_LIMIT {
        ReductionStops(m, i + 1, 4);
        return false;
      }
      BringUp(a, i, pivotRow);
      ViewAt(a, i, i);
      PivotInPlace(v, i, pivotRow);
      NormalizeRow(a, i, v.At(pivotRow, i));
      ClearColumn(a, i);
    }
    return true;
  }

  lemma PivotInPlace(a: Augmented, i: nat, p: nat)
    requires i < 4 && p < 4
    ensures Raised(a, i, p).At(i, i) == a.At(p, i)
  {
    if p != i { SwappedAt(a, i, p, i, i); }
  }

  lemma StartsReducing(m: Mat4)
    ensures Reducing(Augmented(m, IDENTITY), m, 0)
  {
    var a := Augmented(m, IDENTITY);
    forall i: nat, c: nat | i < 4 && c < 4 ensures UndoesAt(IDENTITY, a, m, i, c) {}
    assert Undoes(IDENTITY, a, m);
  }

  // ----- inverting a matrix

  ghost predicate IsSquare(m: array2<real>) { m.Length0 == 4 && m.Length1 == 4 }

  ghost function Matrix(m: array2<real>): Mat4
    requires IsSquare(m)
    reads m
  {
    Mat4(Vec4(m[0, 0], m[0, 1], m[0, 2], m[0, 3]), Vec4(m[1, 0], m[1, 1], m[1, 2], m[1, 3]),
         Vec4(m[2, 0], m[2, 1], m[2, 2], m[2, 3]), Vec4(m[3, 0], m[3, 1], m[3, 2], m[3, 3]))
  }

  lemma MatrixAt(m: array2<real>, i: nat, j: nat)
    requires IsSquare(m) && i < 4 && j < 4
    ensures Matrix(m).Row(i).At(j) == m[i, j]
  {
  }

  /** Copies m beside the identity. */
  method Augment(m: array2<real>) returns (a: array2<real>)
    requires IsSquare(m)
    ensures fresh(a) && IsAugmented(a) && View(a) == Augmented(Matrix(m), IDENTITY)
  {
    a := new real[4, 8]((r, c) => 0.0);
    for r := 0 to 4
      invariant forall i, j | 0 <= i < 4 && 0 <= j < 8 :: a[i, j] == if i < r then AugmentedAt(Matrix(m), i, j) else 0.0
    {
      for c := 0 to 4
        invariant forall i, j | 0 <= i < 4 && 0 <= j < 8 ::
          a[i, j] == if i < r || (i == r && j < c) then AugmentedAt(Matrix(m), i, j) else 0.0
      {
        MatrixAt(m, r, c);
        a[r, c] := m[r, c];
      }
      a[r, r + 4] := 1.0;
    }
    ghost var after := Augmented(Matrix(m), IDENTITY);
    forall r: nat, c: nat | r < 4 && c < 8 ensures View(a).At(r, c) == after.At(r, c) {
      ViewAt(a, r, c);
      assert c >= 4 ==> IDENTITY.Row(r).At(c - 4) == Unit(r, c - 4);
    }
    SameAugmented(View(a), after);
  }

  function AugmentedAt(m: Mat4, i: nat, j: nat): real
    requires i < 4 && j < 8
  {
    if j < 4 then m.Row(i).At(j) else Unit(i, j - 4)
  }

  /** Writes the inverse of m, or returns false and leaves inv alone. */
  method Invert4x4(m: array2<real>, inv: array2<real>) returns (ok: bool)
    requires IsSquare(m) && IsSquare(inv) && m != inv
    modifies inv
    ensures ok == Solvable(Matrix(m))
    ensures ok ==> Inverts(Matrix(inv), Matrix(m)) && Inverts(Matrix(m), Matrix(inv))
    ensures !ok ==> Matrix(inv) == old(Matrix(inv))
  {
    var a := Augment(m);
    ok := GaussJordan(a, Matrix(m));
    if ok {
      ReductionInverts(Matrix(m));
      CopyRight(a, inv);
    }
  }

  method CopyRight(a: array2<real>, inv: array2<real>)
    requires IsAugmented(a) && IsSquare(inv) && a != inv
    modifies inv
    ensures Matrix(inv) == View(a).right
  {
    for r := 0 to 4
      invariant forall i, j | 0 <= i < r && 0 <= j < 4 :: inv[i, j] == View(a).right.Row(i).At(j)
    {
      for c := 0 to 4
        invariant forall i, j | 0 <= i < r && 0 <= j < 4 :: inv[i, j] == View(a).right.Row(i).At(j)
        invariant forall j | 0 <= j < c :: inv[r, j] == View(a).right.Row(r).At(j)
      {
        ViewAt(a, r, c + 4);
        inv[r, c] := a[r, c + 4];
      }
    }
    forall r: nat | r < 4 ensures Matrix(inv).Row(r) == View(a).right.Row(r) {
      forall c: nat | c < 4 ensures Matrix(inv).Row(r).At(c) == View(a).right.Row(r).At(c) {
        MatrixAt(inv, r, c);
      }
      SameVec(Matrix(inv).Row(r), View(a).right.Row(r));
    }
    assert Matrix(inv).Row(0) == View(a).right.Row(0) && Matrix(inv).Row(1) == View(a).right.Row(1);
    assert Matrix(inv).Row(2) == View(a).right.Row(2) && Matrix(inv).Row(3) == View(a).right.Row(3);
  }

  // ----- the weighted normal equations

  /** One satellite's row of the linearised system: weight w, direction h, residual y. */
  datatype Observation = Observation(w: real, h: Vec4, y: real)

  type Term = Observation -> real

  ghost function Sum(obs: seq<Observation>, f: Term): real {
    if obs == [] then 0.0 else Sum(obs[..|obs| - 1], f) + f(obs[|obs| - 1])
  }

  ghost function CostTerm(d: Vec4): Term { (o: Observation) => Weighted(o.w, o.y - Dot(o.h, d)) }
  ghost function CurvatureTerm(e: Vec4): Term { (o: Observation) => Weighted(o.w, Dot(o.h, e)) }
  ghost function NormalTerm(r: nat, c: nat): Term
    requires r < 4 && c < 4
  {
    (o: Observation) => o.w * o.h.At(r) * o.h.At(c)
  }
  ghost function RightTerm(r: nat): Term
    requires r < 4
  {
    (o: Observation) => o.w * o.h.At(r) * o.y
  }
  /** A component of the gradient at d, negated and halved. */
  ghost function SlopeTerm(d: Vec4, r: nat): Term
    requires r < 4
  {
    (o: Observation) => (o.w * (o.y - Dot(o.h, d))) * o.h.At(r)
  }
  ghost function CrossTerm(d: Vec4, e: Vec4): Term { (o: Observation) => (o.w * (o.y - Dot(o.h, d))) * Dot(o.h, e) }
  ghost function NoTerm(): Term { (o: Observation) => 0.0 }

  function Weighted(w: real, e: real): real { w * (e * e) }

  /** The weighted squared residual left after moving the state by d. */
  ghost function Cost(obs: seq<Observation>, d: Vec4): real { Sum(obs, CostTerm(d)) }

  /** The sums HtWH and HtWy of the source. */
  ghost function NormalRow(obs: seq<Observation>, r: nat): Vec4
    requires r < 4
  {
    Vec4(Sum(obs, NormalTerm(r, 0)), Sum(obs, NormalTerm(r, 1)), Sum(obs, NormalTerm(r, 2)), Sum(obs, NormalTerm(r, 3)))
  }

  ghost function NormalMatrix(obs: seq<Observation>): Mat4 {
    Mat4(NormalRow(obs, 0), NormalRow(obs, 1), NormalRow(obs, 2), NormalRow(obs, 3))
  }

  ghost function NormalVector(obs: seq<Observation>): Vec4 {
    Vec4(Sum(obs, RightTerm(0)), Sum(obs, RightTerm(1)), Sum(obs, RightTerm(2)), Sum(obs, RightTerm(3)))
  }

  ghost predicate NonNegativeWeights(obs: seq<Observation>) { forall i | 0 <= i < |obs| :: obs[i].w >= 0.0 }

  ghost predicate Combines(f: Term, g: Term, k: Vec4, h0: Term, h1: Term, h2: Term, h3: Term, o: Observation) {
    f(o) == g(o) + Dot(k, Vec4(h0(o), h1(o), h2(o), h3(o)))
  }

  lemma {:induction false} SumCombines(obs: seq<Observation>, f: Term, g: Term, k: Vec4, h0: Term, h1: Term, h2: Term,
                                       h3: Term)
    requires forall o :: Combines(f, g, k, h0, h1, h2, h3, o)
    ensures Sum(obs, f) == Sum(obs, g) + Dot(k, Vec4(Sum(obs, h0), Sum(obs, h1), Sum(obs, h2), Sum(obs, h3)))
  {
    if obs != [] {
      var o, rest := obs[|obs| - 1], obs[..|obs| - 1];
      SumCombines(rest, f, g, k, h0, h1, h2, h3);
      assert Combines(f, g, k, h0, h1, h2, h3, o);
      DotOfSum(k, Vec4(Sum(rest, h0), Sum(rest, h1), Sum(rest, h2), Sum(rest, h3)), Vec4(h0(o), h1(o), h2(o), h3(o)));
    } else {
      assert Dot(k, ZERO) == 0.0;
    }
  }

  lemma {:induction false} SumExpands(obs: seq<Observation>, f: Term, g: Term, h: Term, q: Term)
    requires forall o :: f(o) == g(o) - 2.0 * h(o) + q(o)
    ensures Sum(obs, f) == Sum(obs, g) - 2.0 * Sum(obs, h) + Sum(obs, q)
  {
    if obs != [] {
      SumExpands(obs[..|obs| - 1], f, g, h, q);
    }
  }

  lemma {:induction false} NoSum(obs: seq<Observation>)
    ensures Sum(obs, NoTerm()) == 0.0
  {
    if obs != [] {
      NoSum(obs[..|obs| - 1]);
    }
  }

  ghost predicate Under(f: Term, g: Term, o: Observation) { f(o) >= 0.0 && (f(o) == 0.0 ==> g(o) == 0.0) }

  /** A sum of non-negative terms is non-negative, and zero only when every term is. */
  lemma {:induction false} SumPositive(obs: seq<Observation>, f: Term, g: Term)
    requires forall i | 0 <= i < |obs| :: Under(f, g, obs[i])
    ensures Sum(obs, f) >= 0.0 && (Sum(obs, f) == 0.0 ==> Sum(obs, g) == 0.0)
  {
    if obs != [] {
      SumPositive(obs[..|obs| - 1], f, g);
      assert Under(f, g, obs[|obs| - 1]);
    }
  }

  lemma DotOfSum(h: Vec4, a: Vec4, b: Vec4)
    ensures Dot(h, Plus(a, b)) == Dot(h, a) + Dot(h, b)
  {
  }

  // the identities of one satellite

  lemma SquareExpands(w: real, u: real, v: real)
    ensures Weighted(w, u + v) == Weighted(w, u) + 2.0 * ((w * u) * v) + Weighted(w, v)
  {
    assert (u + v) * (u + v) == u * u + 2.0 * (u * v) + v * v;
    assert (w * u) * v == w * (u * v);
    var p, q, s := u * u, u * v, v * v;
    assert w * (p + 2.0 * q + s) == w * p + 2.0 * (w * q) + w * s;
  }

  lemma CostTermExpands(o: Observation, d: Vec4, e: Vec4)
    ensures CostTerm(Plus(d, e))(o) == CostTerm(d)(o) - 2.0 * CrossTerm(d, e)(o) + CurvatureTerm(e)(o)
  {
    var u, v := o.y - Dot(o.h, d), Dot(o.h, e);
    DotOfSum(o.h, d, e);
    ExpandedTerm(o.w, u, v, o.y - Dot(o.h, Plus(d, e)));
  }

  lemma ExpandedTerm(w: real, u: real, v: real, x: real)
    requires x == u - v
    ensures Weighted(w, x) == Weighted(w, u) - 2.0 * ((w * u) * v) + Weighted(w, v)
  {
    SquareExpands(w, u, -v);
    assert (-v) * (-v) == v * v && (w * u) * (-v) == -((w * u) * v);
  }

  lemma CrossTermSplits(o: Observation, d: Vec4, e: Vec4)
    ensures Combines(CrossTerm(d, e), NoTerm(), e, SlopeTerm(d, 0), SlopeTerm(d, 1), SlopeTerm(d, 2),
                     SlopeTerm(d, 3), o)
  {
    var s := o.w * (o.y - Dot(o.h, d));
    SplitDot(s, o.h, e, Vec4(s * o.h.x0, s * o.h.x1, s * o.h.x2, s * o.h.x3));
  }

  lemma SplitDot(s: real, h: Vec4, e: Vec4, v: Vec4)
    requires v == Times(s, h)
    ensures s * Dot(h, e) == Dot(e, v)
  {
    DotScale(s, h, e);
  }

  lemma SlopeTermSplits(o: Observation, d: Vec4, r: nat)
    requires r < 4
    ensures Combines(SlopeTerm(d, r), RightTerm(r), Times(-1.0, d), NormalTerm(r, 0), NormalTerm(r, 1),
                     NormalTerm(r, 2), NormalTerm(r, 3), o)
  {
    SlopeSplits(o.w, o.y, o.h, d, o.h.At(r));
  }

  lemma SlopeSplits(w: real, y: real, h: Vec4, d: Vec4, a: real)
    ensures (w * (y - Dot(h, d))) * a
         == w * a * y + Dot(Times(-1.0, d), Vec4(w * a * h.x0, w * a * h.x1, w * a * h.x2, w * a * h.x3))
  {
    var p := w * a;
    Regroups(w, y, Dot(h, d), a);
    DotScale(p, h, d);
    DotScale(-1.0, d, Times(p, h));
  }

  lemma Regroups(w: real, y: real, z: real, a: real)
    ensures (w * (y - z)) * a == (w * a) * y - (w * a) * z
  {
  }

  lemma CurvatureTermIsOver(o: Observation, e: Vec4, r: nat)
    requires o.w >= 0.0 && r < 4
    ensures Under(CurvatureTerm(e), FlatTerm(e, r), o)
  {
    Squares(o.w, Dot(o.h, e));
    Annihilates(o.w * Dot(o.h, e), o.h.At(r));
  }

  ghost function FlatTerm(e: Vec4, r: nat): Term
    requires r < 4
  {
    (o: Observation) => (o.w * Dot(o.h, e)) * o.h.At(r)
  }

  lemma FlatTermSplits(o: Observation, e: Vec4, r: nat)
    requires r < 4
    ensures Combines(FlatTerm(e, r), NoTerm(), e, NormalTerm(r, 0), NormalTerm(r, 1), NormalTerm(r, 2),
                     NormalTerm(r, 3), o)
  {
    var a := o.h.At(r);
    FlatSplits(o.w, o.h, e, a);
  }

  lemma FlatSplits(w: real, h: Vec4, e: Vec4, a: real)
    ensures (w * Dot(h, e)) * a == Dot(e, Vec4(w * a * h.x0, w * a * h.x1, w * a * h.x2, w * a * h.x3))
  {
    Regrouped(w, Dot(h, e), a);
    DotScale(w * a, h, e);
  }

  lemma Regrouped(w: real, z: real, a: real)
    ensures (w * z) * a == (w * a) * z
  {
  }

  lemma Squares(w: real, e: real)
    requires w >= 0.0
    ensures Weighted(w, e) >= 0.0
    ensures Weighted(w, e) == 0.0 ==> w * e == 0.0
  {
    if e > 0.0 {
      Positive(e, e);
    } else if e < 0.0 {
      Positive(-e, -e);
      assert (-e) * (-e) == e * e;
    }
    if w > 0.0 && e != 0.0 {
      Positive(w, e * e);
    }
  }

  lemma Positive(a: real, b: real)
    requires a > 0.0 && b > 0.0
    ensures a * b > 0.0
  {
  }

  lemma Annihilates(x: real, y: real)
    ensures x == 0.0 ==> x * y == 0.0
  {
  }

  // and of the sums

  /** The slope at d is HtWy - HtWH d. */
  lemma SlopeIsResidual(obs: seq<Observation>, d: Vec4, r: nat)
    requires r < 4
    ensures Sum(obs, SlopeTerm(d, r)) == NormalVector(obs).At(r) - Dot(NormalRow(obs, r), d)
  {
    forall o
      ensures Combines(SlopeTerm(d, r), RightTerm(r), Times(-1.0, d), NormalTerm(r, 0), NormalTerm(r, 1),
                       NormalTerm(r, 2), NormalTerm(r, 3), o)
    {
      SlopeTermSplits(o, d, r);
    }
    SumCombines(obs, SlopeTerm(d, r), RightTerm(r), Times(-1.0, d), NormalTerm(r, 0), NormalTerm(r, 1),
                NormalTerm(r, 2), NormalTerm(r, 3));
    DotScale(-1.0, d, NormalRow(obs, r));
  }

  /** Moving by e from a point of zero slope costs exactly the curvature. */
  lemma CostExpands(obs: seq<Observation>, d: Vec4, e: Vec4)
    requires forall r: nat | r < 4 :: Sum(obs, SlopeTerm(d, r)) == 0.0
    ensures Cost(obs, Plus(d, e)) == Cost(obs, d) + Sum(obs, CurvatureTerm(e))
  {
    forall o ensures CostTerm(Plus(d, e))(o) == CostTerm(d)(o) - 2.0 * CrossTerm(d, e)(o) + CurvatureTerm(e)(o) {
      CostTermExpands(o, d, e);
    }
    SumExpands(obs, CostTerm(Plus(d, e)), CostTerm(d), CrossTerm(d, e), CurvatureTerm(e));
    forall o
      ensures Combines(CrossTerm(d, e), NoTerm(), e, SlopeTerm(d, 0), SlopeTerm(d, 1), SlopeTerm(d, 2),
                       SlopeTerm(d, 3), o)
    {
      CrossTermSplits(o, d, e);
    }
    SumCombines(obs, CrossTerm(d, e), NoTerm(), e, SlopeTerm(d, 0), SlopeTerm(d, 1), SlopeTerm(d, 2), SlopeTerm(d, 3));
    NoSum(obs);
    assert Dot(e, ZERO) == 0.0;
  }

  /** Curvature is never negative, and vanishes only where HtWH does. */
  lemma CurvatureIsPositive(obs: seq<Observation>, e: Vec4, r: nat)
    requires NonNegativeWeights(obs) && r < 4
    ensures Sum(obs, CurvatureTerm(e)) >= 0.0
    ensures Sum(obs, CurvatureTerm(e)) == 0.0 ==> Dot(NormalRow(obs, r), e) == 0.0
  {
    forall i | 0 <= i < |obs| ensures Under(CurvatureTerm(e), FlatTerm(e, r), obs[i]) {
      CurvatureTermIsOver(obs[i], e, r);
    }
    SumPositive(obs, CurvatureTerm(e), FlatTerm(e, r));
    forall o
      ensures Combines(FlatTerm(e, r), NoTerm(), e, NormalTerm(r, 0), NormalTerm(r, 1), NormalTerm(r, 2),
                       NormalTerm(r, 3), o)
    {
      FlatTermSplits(o, e, r);
    }
    SumCombines(obs, FlatTerm(e, r), NoTerm(), e, NormalTerm(r, 0), NormalTerm(r, 1), NormalTerm(r, 2),
                NormalTerm(r, 3));
    NoSum(obs);
    DotScale(1.0, e, NormalRow(obs, r));
  }

  function Apply(m: Mat4, y: Vec4): Vec4 { Vec4(Dot(m.r0, y), Dot(m.r1, y), Dot(m.r2, y), Dot(m.r3, y)) }

  function Across(v: Vec4, m: Mat4): Vec4 {
    Vec4(Dot(v, m.Column(0)), Dot(v, m.Column(1)), Dot(v, m.Column(2)), Dot(v, m.Column(3)))
  }

  /** v (m y) = (v m) y */
  lemma DotApply(v: Vec4, m: Mat4, y: Vec4)
    ensures Dot(v, Apply(m, y)) == Dot(Across(v, m), y)
  {
    var c0, c1, c2, c3 := Times(y.x0, m.Column(0)), Times(y.x1, m.Column(1)), Times(y.x2, m.Column(2)),
        Times(y.x3, m.Column(3));
    ApplyByColumns(m, y);
    DotPlus(Plus(Plus(c0, c1), c2), c3, v);
    DotPlus(Plus(c0, c1), c2, v);
    DotPlus(c0, c1, v);
    DotScale(y.x0, m.Column(0), v);
    DotScale(y.x1, m.Column(1), v);
    DotScale(y.x2, m.Column(2), v);
    DotScale(y.x3, m.Column(3), v);
  }

  lemma ApplyByColumns(m: Mat4, y: Vec4)
    ensures Apply(m, y) == Plus(Plus(Plus(Times(y.x0, m.Column(0)), Times(y.x1, m.Column(1))),
                                     Times(y.x2, m.Column(2))), Times(y.x3, m.Column(3)))
  {
    TurnedAbout(m, y, m.Column(0), m.Column(1), m.Column(2), m.Column(3));
  }

  lemma TurnedAbout(m: Mat4, y: Vec4, c0: Vec4, c1: Vec4, c2: Vec4, c3: Vec4)
    requires m.r0 == Vec4(c0.x0, c1.x0, c2.x0, c3.x0) && m.r1 == Vec4(c0.x1, c1.x1, c2.x1, c3.x1)
    requires m.r2 == Vec4(c0.x2, c1.x2, c2.x2, c3.x2) && m.r3 == Vec4(c0.x3, c1.x3, c2.x3, c3.x3)
    ensures Apply(m, y) == Plus(Plus(Plus(Times(y.x0, c0), Times(y.x1, c1)), Times(y.x2, c2)), Times(y.x3, c3))
  {
  }

  lemma UnitAcross(a: Mat4, b: Mat4, r: nat)
    requires Inverts(a, b) && r < 4
    ensures Across(a.Row(r), b) == UnitRow(r)
  {
    assert Dot(a.Row(r), b.Column(0)) == Unit(r, 0) && Dot(a.Row(r), b.Column(1)) == Unit(r, 1);
    assert Dot(a.Row(r), b.Column(2)) == Unit(r, 2) && Dot(a.Row(r), b.Column(3)) == Unit(r, 3);
  }

  function UnitRow(r: nat): Vec4 { Vec4(Unit(r, 0), Unit(r, 1), Unit(r, 2), Unit(r, 3)) }

  lemma DotUnitRow(r: nat, y: Vec4)
    requires r < 4
    ensures Dot(UnitRow(r), y) == y.At(r)
  {
  }

  lemma InverseCancels(a: Mat4, b: Mat4, y: Vec4)
    requires Inverts(a, b)
    ensures Apply(a, Apply(b, y)) == y
  {
    forall r: nat | r < 4 ensures Dot(a.Row(r), Apply(b, y)) == y.At(r) {
      DotApply(a.Row(r), b, y);
      UnitAcross(a, b, r);
      DotUnitRow(r, y);
    }
    assert Apply(a, Apply(b, y)).x0 == Dot(a.Row(0), Apply(b, y))
           && Apply(a, Apply(b, y)).x1 == Dot(a.Row(1), Apply(b, y));
    assert Apply(a, Apply(b, y)).x2 == Dot(a.Row(2), Apply(b, y))
           && Apply(a, Apply(b, y)).x3 == Dot(a.Row(3), Apply(b, y));
  }

  ghost predicate UniqueMinimum(obs: seq<Observation>, d: Vec4) {
    forall x: Vec4 :: Cost(obs, d) <= Cost(obs, x) && (Cost(obs, x) == Cost(obs, d) ==> x == d)
  }

  lemma SlopeVanishes(obs: seq<Observation>, inv: Mat4, d: Vec4)
    requires Inverts(NormalMatrix(obs), inv) && d == Apply(inv, NormalVector(obs))
    ensures forall r: nat | r < 4 :: Sum(obs, SlopeTerm(d, r)) == 0.0
  {
    var b, m := NormalVector(obs), NormalMatrix(obs);
    InverseCancels(m, inv, b);
    forall r: nat | r < 4 ensures Sum(obs, SlopeTerm(d, r)) == 0.0 {
      SlopeIsResidual(obs, d, r);
      ApplyAt(m, d, r);
    }
  }

  lemma ApplyAt(m: Mat4, y: Vec4, r: nat)
    requires r < 4
    ensures Apply(m, y).At(r) == Dot(m.Row(r), y)
  {
  }

  lemma Invertible(a: Mat4, b: Mat4, e: Vec4)
    requires Inverts(b, a)
    requires forall r: nat | r < 4 :: Dot(a.Row(r), e) == 0.0
    ensures e == ZERO
  {
    InverseCancels(b, a, e);
    forall r: nat | r < 4 ensures Apply(a, e).At(r) == ZERO.At(r) {
      ApplyAt(a, e, r);
    }
    SameVec(Apply(a, e), ZERO);
    assert Apply(b, ZERO) == ZERO;
  }

  lemma FlatOnlyAtZero(obs: seq<Observation>, inv: Mat4, e: Vec4)
    requires NonNegativeWeights(obs) && Inverts(inv, NormalMatrix(obs)) && Sum(obs, CurvatureTerm(e)) == 0.0
    ensures e == ZERO
  {
    var m := NormalMatrix(obs);
    forall r: nat | r < 4 ensures Dot(m.Row(r), e) == 0.0 {
      CurvatureIsPositive(obs, e, r);
      NormalMatrixRow(obs, r);
    }
    Invertible(m, inv, e);
  }

  lemma CostOfMove(obs: seq<Observation>, d: Vec4, x: Vec4, e: Vec4)
    requires NonNegativeWeights(obs) && e == Minus(x, d)
    requires forall r: nat | r < 4 :: Sum(obs, SlopeTerm(d, r)) == 0.0
    ensures Cost(obs, x) == Cost(obs, d) + Sum(obs, CurvatureTerm(e)) && Sum(obs, CurvatureTerm(e)) >= 0.0
  {
    assert Plus(d, e) == x;
    CostExpands(obs, d, e);
    CurvatureIsPositive(obs, e, 0);
  }

  lemma NormalMatrixRow(obs: seq<Observation>, r: nat)
    requires r < 4
    ensures NormalMatrix(obs).Row(r) == NormalRow(obs, r)
  {
  }

  /** The correction through a two-sided inverse of HtWH is the one weighted least-squares solution. */
  lemma CorrectionMinimises(obs: seq<Observation>, inv: Mat4)
    requires NonNegativeWeights(obs) && Inverts(inv, NormalMatrix(obs)) && Inverts(NormalMatrix(obs), inv)
    ensures UniqueMinimum(obs, Apply(inv, NormalVector(obs)))
  {
    var d := Apply(inv, NormalVector(obs));
    SlopeVanishes(obs, inv, d);
    forall x: Vec4 ensures Cost(obs, d) <= Cost(obs, x) && (Cost(obs, x) == Cost(obs, d) ==> x == d) {
      var e := Minus(x, d);
      CostOfMove(obs, d, x, e);
      if Cost(obs, x) == Cost(obs, d) {
        FlatOnlyAtZero(obs, inv, e);
      }
    }
  }
}
