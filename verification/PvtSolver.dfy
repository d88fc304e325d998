/** The position solver of Source/Pvt/GPSOpenClPVTSolver.cpp: Gauss-Newton passes over the
  * satellites in use, inside a loop that excludes one faulted satellite at a time.
  *
  * Orbits, geometry and atmosphere are function values the solver is given.
  */
module PvtSolver {
  import opened Numbers
  import opened LeastSquares

  datatype Ecef = Ecef(x: real, y: real, z: real)

  /** What the solver sees of one satellite from one receiver estimate. */
  datatype Sight = Sight(range: real, ux: real, uy: real, uz: real, ionoDelay: real, tropoDelay: real,
                         sinElevation: real)

  datatype Physics<!Ephemeris, !Orbit> = Physics(
    orbitAt: (Ephemeris, real) -> Orbit,
    clockBias: Orbit -> real,
    elevationDeg: (Ecef, Orbit) -> real,
    sight: (Orbit, real, Ecef) -> Sight)

  datatype Config = Config(minSatellites: nat, maxPseudorangeErr: real, elevationMask: real, tropoEnabled: bool)

  const SPEED_OF_LIGHT: real := 299792458.0
  const ITERATIONS: nat := 15
  const SQUARED_STEP_LIMIT: real := 0.00000001

  // ----- one linearisation

  function Observe<E(!new), O(!new)>(p: Physics<E, O>, tropoEnabled: bool, orbit: O, range: real, time: real,
                                     state: Vec4): Observation
  {
    var s := p.sight(orbit, time, Ecef(state.x0, state.x1, state.x2));
    var tropo := if tropoEnabled then s.tropoDelay else 0.0;
    Observation(s.sinElevation * s.sinElevation, Vec4(-s.ux, -s.uy, -s.uz, 1.0),
                (range - s.ionoDelay - tropo) - (s.range + state.x3))
  }

  /** A satellite in use: its entries of the three parallel lists. */
  datatype Satellite<!O> = Satellite(orbit: O, range: real, time: real)

  ghost function Observations<E(!new), O(!new)>(p: Physics<E, O>, tropo: bool, sats: seq<Satellite<O>>,
        state: Vec4): (obs: seq<Observation>)
    ensures |obs| == |sats|
    ensures forall i | 0 <= i < |sats| :: obs[i] == Observe(p, tropo, sats[i].orbit, sats[i].range, sats[i].time, state)
  {
    seq(|sats|, i requires 0 <= i < |sats| => Observe(p, tropo, sats[i].orbit, sats[i].range, sats[i].time, state))
  }

  lemma WeightsAreSquares<E(!new), O(!new)>(p: Physics<E, O>, tropo: bool, sats: seq<Satellite<O>>, state: Vec4)
    ensures NonNegativeWeights(Observations(p, tropo, sats, state))
  {
    forall i | 0 <= i < |sats| ensures Observations(p, tropo, sats, state)[i].w >= 0.0 {
      var s := p.sight(sats[i].orbit, sats[i].time, Ecef(state.x0, state.x1, state.x2));
      SquareIsNonNegative(s.sinElevation);
    }
  }

  lemma SquareIsNonNegative(x: real)
    ensures x * x >= 0.0
  {
  }

  function Unweighted(obs: seq<Observation>): (u: seq<Observation>)
    ensures |u| == |obs|
    ensures forall i | 0 <= i < |obs| :: u[i] == obs[i].(w := 1.0)
  {
    seq(|obs|, i requires 0 <= i < |obs| => obs[i].(w := 1.0))
  }

  /** The arrays H, deltaRho and weight hold these observations. */
  ghost predicate Holds(obs: seq<Observation>, h: array2<real>, rho: array<real>, w: array<real>)
    reads h, rho, w
  {
    h.Length0 == rho.Length == w.Length == |obs| && h.Length1 == 4 && forall i | 0 <= i < |obs| ::
        HoldsAt(obs[i], h, rho, w, i)
  }

  ghost predicate HoldsAt(o: Observation, h: array2<real>, rho: array<real>, w: array<real>, i: nat)
    requires h.Length0 == rho.Length == w.Length && h.Length1 == 4 && i < w.Length
    reads h, rho, w
  {
    o == Observation(w[i], Vec4(h[i, 0], h[i, 1], h[i, 2], h[i, 3]), rho[i])
  }

  ghost function Vector(v: array<real>): Vec4
    requires v.Length == 4
    reads v
  {
    Vec4(v[0], v[1], v[2], v[3])
  }

  // ----- the sums

  ghost function Partial(obs: seq<Observation>, i: nat, done: bool, f: Term): real
    requires i < |obs|
  {
    Sum(obs[..if done then i + 1 else i], f)
  }

  lemma SumStep(obs: seq<Observation>, i: nat, f: Term)
    requires i < |obs|
    ensures Partial(obs, i, true, f) == Partial(obs, i, false, f) + f(obs[i])
  {
    assert obs[..i + 1][..i] == obs[..i];
  }

  ghost predicate SumsTo(m: array2<real>, obs: seq<Observation>)
    requires IsSquare(m)
    reads m
  {
    forall r: nat, c: nat | r < 4 && c < 4 :: m[r, c] == Sum(obs, NormalTerm(r, c))
  }

  ghost predicate RowsAdded(m: array2<real>, obs: seq<Observation>, i: nat, r: nat, col: nat)
    requires IsSquare(m) && i < |obs|
    reads m
  {
    forall a: nat, c: nat | a < 4 && c < 4 :: m[a, c] == Partial(obs, i, a < r || (a == r && c < col), NormalTerm(a, c))
  }

  lemma MatrixOfSums(m: array2<real>, obs: seq<Observation>)
    requires IsSquare(m) && SumsTo(m, obs)
    ensures Matrix(m) == NormalMatrix(obs)
  {
    forall r: nat | r < 4 ensures Matrix(m).Row(r) == NormalRow(obs, r) {
      assert m[r, 0] == Sum(obs, NormalTerm(r, 0)) && m[r, 1] == Sum(obs, NormalTerm(r, 1));
      assert m[r, 2] == Sum(obs, NormalTerm(r, 2)) && m[r, 3] == Sum(obs, NormalTerm(r, 3));
    }
    assert Matrix(m).Row(0) == NormalRow(obs, 0) && Matrix(m).Row(1) == NormalRow(obs, 1);
    assert Matrix(m).Row(2) == NormalRow(obs, 2) && Matrix(m).Row(3) == NormalRow(obs, 3);
  }

  lemma ProductIsTerm(o: Observation, r: nat, c: nat, w: real, x: real, z: real)
    requires r < 4 && c < 4 && o.w == w && o.h.At(r) == x && o.h.At(c) == z
    ensures NormalTerm(r, c)(o) == w * x * z
  {
  }

  lemma ProductIsRightTerm(o: Observation, r: nat, w: real, x: real, y: real)
    requires r < 4 && o.w == w && o.h.At(r) == x && o.y == y
    ensures RightTerm(r)(o) == w * x * y
  {
  }

  lemma HeldAt(o: Observation, h: array2<real>, rho: array<real>, w: array<real>, i: nat, r: nat)
    requires h.Length0 == rho.Length == w.Length && h.Length1 == 4 && i < w.Length && r < 4 && HoldsAt(o, h, rho, w, i)
    ensures o.w == w[i] && o.y == rho[i] && o.h.At(r) == h[i, r]
  {
  }

  method AddCell(m: array2<real>, ghost obs: seq<Observation>, ghost i: nat, r: nat, col: nat, v: real)
    requires IsSquare(m) && r < 4 && col < 4 && i < |obs|
    requires RowsAdded(m, obs, i, r, col) && v == NormalTerm(r, col)(obs[i])
    modifies m
    ensures RowsAdded(m, obs, i, r, col + 1)
  {
    SumStep(obs, i, NormalTerm(r, col));
    m[r, col] := m[r, col] + v;
  }

  /** Adds row r of one satellite. */
  method AddRow(hth: array2<real>, plain: array2<real>, ghost obs: seq<Observation>, h: array2<real>,
                rho: array<real>, w: array<real>, i: nat, r: nat)
    requires IsSquare(hth) && IsSquare(plain) && hth != plain && h != hth && h != plain
    requires Holds(obs, h, rho, w) && i < |obs| && r < 4
    requires RowsAdded(hth, obs, i, r, 0) && RowsAdded(plain, Unweighted(obs), i, r, 0)
    modifies hth, plain
    ensures RowsAdded(hth, obs, i, r + 1, 0) && RowsAdded(plain, Unweighted(obs), i, r + 1, 0)
  {
    for col := 0 to 4
      invariant RowsAdded(hth, obs, i, r, col) && RowsAdded(plain, Unweighted(obs), i, r, col)
      invariant Holds(obs, h, rho, w)
    {
      ghost var o, u := obs[i], Unweighted(obs)[i];
      assert HoldsAt(obs[i], h, rho, w, i);
      HeldAt(o, h, rho, w, i, r);
      HeldAt(o, h, rho, w, i, col);
      ProductIsTerm(o, r, col, w[i], h[i, r], h[i, col]);
      ProductIsTerm(u, r, col, 1.0, h[i, r], h[i, col]);
      AddCell(hth, obs, i, r, col, w[i] * h[i, r] * h[i, col]);
      AddCell(plain, Unweighted(obs), i, r, col, h[i, r] * h[i, col]);
    }
  }

  method AddSatellite(hth: array2<real>, plain: array2<real>, hty: array<real>, ghost obs: seq<Observation>,
                      h: array2<real>, rho: array<real>, w: array<real>, i: nat)
    requires IsSquare(hth) && IsSquare(plain) && hty.Length == 4 && hth != plain && h != hth && h != plain
             && hty != rho && hty != w
    requires Holds(obs, h, rho, w) && i < |obs|
    requires SumsTo(hth, obs[..i]) && SumsTo(plain, Unweighted(obs)[..i]) && RightSums(hty, obs[..i])
    modifies hth, plain, hty
    ensures SumsTo(hth, obs[..i + 1]) && SumsTo(plain, Unweighted(obs)[..i + 1]) && RightSums(hty, obs[..i + 1])
  {
    for r := 0 to 4
      invariant Holds(obs, h, rho, w)
      invariant RowsAdded(hth, obs, i, r, 0) && RowsAdded(plain, Unweighted(obs), i, r, 0)
      invariant forall a: nat | a < 4 :: hty[a] == Partial(obs, i, a < r, RightTerm(a))
    {
      ghost var o := obs[i];
      assert HoldsAt(obs[i], h, rho, w, i);
      HeldAt(o, h, rho, w, i, r);
      ProductIsRightTerm(o, r, w[i], h[i, r], rho[i]);
      SumStep(obs, i, RightTerm(r));
      hty[r] := hty[r] + w[i] * h[i, r] * rho[i];
      AddRow(hth, plain, obs, h, rho, w, i, r);
    }
  }

  ghost predicate RightSums(hty: array<real>, obs: seq<Observation>)
    requires hty.Length == 4
    reads hty
  {
    forall r: nat | r < 4 :: hty[r] == Sum(obs, RightTerm(r))
  }

  /** HtWH, HtH and HtWy, one satellite at a time. */
  method Accumulate(ghost obs: seq<Observation>, h: array2<real>, rho: array<real>, w: array<real>)
    returns (hth: array2<real>, plain: array2<real>, hty: array<real>)
    requires Holds(obs, h, rho, w)
    ensures fresh(hth) && fresh(plain) && fresh(hty) && hth != plain && IsSquare(hth) && IsSquare(plain)
            && hty.Length == 4
    ensures Matrix(hth) == NormalMatrix(obs) && Matrix(plain) == NormalMatrix(Unweighted(obs))
            && Vector(hty) == NormalVector(obs)
  {
    hth := new real[4, 4]((r, c) => 0.0);
    plain := new real[4, 4]((r, c) => 0.0);
    hty := new real[4](r => 0.0);
    for i := 0 to w.Length
      invariant Holds(obs, h, rho, w)
      invariant SumsTo(hth, obs[..i]) && SumsTo(plain, Unweighted(obs)[..i]) && RightSums(hty, obs[..i])
    {
      AddSatellite(hth, plain, hty, obs, h, rho, w, i);
    }
    assert obs[..|obs|] == obs && Unweighted(obs)[..|obs|] == Unweighted(obs);
    MatrixOfSums(hth, obs);
    MatrixOfSums(plain, Unweighted(obs));
  }

  // ----- the correction

  function PartialDot(a: Vec4, y: Vec4, n: nat): real
    requires n <= 4
  {
    if n == 0 then 0.0 else PartialDot(a, y, n - 1) + a.At(n - 1) * y.At(n - 1)
  }

  lemma WholeDot(a: Vec4, y: Vec4)
    ensures PartialDot(a, y, 4) == Dot(a, y)
  {
    assert PartialDot(a, y, 1) == a.x0 * y.x0;
    assert PartialDot(a, y, 2) == a.x0 * y.x0 + a.x1 * y.x1;
    assert PartialDot(a, y, 3) == a.x0 * y.x0 + a.x1 * y.x1 + a.x2 * y.x2;
  }

  lemma VectorAt(v: array<real>, i: nat)
    requires v.Length == 4 && i < 4
    ensures Vector(v).At(i) == v[i]
  {
  }

  lemma DotStep(a: Vec4, y: Vec4, n: nat, p: real, q: real)
    requires n < 4 && p == a.At(n) && q == y.At(n)
    ensures PartialDot(a, y, n + 1) == PartialDot(a, y, n) + p * q
  {
  }

  /** Row i of the reduced right half times HtWy. */
  method RowTimes(a: array2<real>, hty: array<real>, i: nat) returns (sum: real)
    requires IsAugmented(a) && hty.Length == 4 && i < 4
    ensures sum == Dot(View(a).right.Row(i), Vector(hty))
  {
    ghost var row, y := View(a).right.Row(i), Vector(hty);
    sum := 0.0;
    for j := 0 to 4
      invariant sum == PartialDot(row, y, j)
    {
      ViewAt(a, i, j + 4);
      VectorAt(hty, j);
      DotStep(row, y, j, a[i, j + 4], hty[j]);
      sum := sum + a[i, j + 4] * hty[j];
    }
    WholeDot(row, y);
  }

  /** The state correction of one iteration; false when a pivot is too small. */
  method Correct(ghost obs: seq<Observation>, hth: array2<real>, hty: array<real>) returns (ok: bool, delta: Vec4)
    requires NonNegativeWeights(obs) && IsSquare(hth) && hty.Length == 4
    requires Matrix(hth) == NormalMatrix(obs) && Vector(hty) == NormalVector(obs)
    ensures ok == Solvable(NormalMatrix(obs))
    ensures ok ==> UniqueMinimum(obs, delta)
  {
    var a := Augment(hth);
    ok := GaussJordan(a, Matrix(hth));
    delta := ZERO;
    if ok {
      ReductionInverts(Matrix(hth));
      var d0 := RowTimes(a, hty, 0);
      var d1 := RowTimes(a, hty, 1);
      var d2 := RowTimes(a, hty, 2);
      var d3 := RowTimes(a, hty, 3);
      delta := Vec4(d0, d1, d2, d3);
      CorrectionMinimises(obs, View(a).right);
    }
  }

  // ----- what one call does

  datatype End = Singular | Settled | Wandering

  /** One Gauss-Newton pass: the satellites in use, the states visited, and how it ended. */
  datatype Pass = Pass(kept: seq<nat>, states: seq<Vec4>, end: End)

  /** The inputs of a call: physics, settings, the satellites offered, the reference position, and
    * the pivot test the normal matrix has to pass. */
  datatype Problem<!E, !O> = Problem(physics: Physics<E, O>, config: Config, offered: seq<Satellite<O>>,
                                     reference: Ecef, masked: bool,
                                     solvable: Mat4 -> bool)

  ghost function PivotTest(): Mat4 -> bool { (m: Mat4) => Solvable(m) }

  ghost predicate Agrees(test: Mat4 -> bool, m: Mat4) { test(m) == Solvable(m) }
  ghost predicate Judges(test: Mat4 -> bool) { forall m: Mat4 :: Agrees(test, m) }

  lemma PivotTestJudges()
    ensures Judges(PivotTest())
  {
  }

  ghost predicate Increasing(kept: seq<nat>, n: nat) {
    (forall i, j | 0 <= i < j < |kept| :: kept[i] < kept[j]) && (forall i | 0 <= i < |kept| :: kept[i] < n)
  }

  ghost function Pick<O>(offered: seq<Satellite<O>>, kept: seq<nat>): (sats: seq<Satellite<O>>)
    requires Increasing(kept, |offered|)
    ensures |sats| == |kept| && forall i | 0 <= i < |kept| :: sats[i] == offered[kept[i]]
  {
    seq(|kept|, i requires 0 <= i < |kept| => offered[kept[i]])
  }

  ghost function ObservationsAt<E(!new), O(!new)>(q: Problem<E, O>, kept: seq<nat>, state: Vec4): seq<Observation>
    requires Increasing(kept, |q.offered|)
  {
    Observations(q.physics, q.config.tropoEnabled, Pick(q.offered, kept), state)
  }

  function SquaredStep(d: Vec4): real { d.x0 * d.x0 + d.x1 * d.x1 + d.x2 * d.x2 }

  ghost function StartOf(reference: Ecef): Vec4 { Vec4(reference.x, reference.y, reference.z, 0.0) }

  /** The normal equations at a state pass the pivot test. */
  ghost predicate SolvableAt<E(!new), O(!new)>(q: Problem<E, O>, kept: seq<nat>, state: Vec4)
    requires Increasing(kept, |q.offered|)
  {
    q.solvable(NormalMatrix(ObservationsAt(q, kept, state)))
  }

  /** Step k moves to the unique weighted least-squares solution of the linearised problem. */
  ghost predicate GaussNewtonStep<E(!new), O(!new)>(q: Problem<E, O>, kept: seq<nat>, from: Vec4, to: Vec4)
    requires Increasing(kept, |q.offered|)
  {
    SolvableAt(q, kept, from) && exists d :: to == Plus(from, d) && UniqueMinimum(ObservationsAt(q, kept, from), d)
  }

  ghost predicate Small(from: Vec4, to: Vec4) { SquaredStep(Minus(to, from)) < SQUARED_STEP_LIMIT }

  ghost predicate Visits<E(!new), O(!new)>(q: Problem<E, O>, kept: seq<nat>, states: seq<Vec4>)
    requires Increasing(kept, |q.offered|)
  {
    && 1 <= |states| <= ITERATIONS + 1
    && states[0] == StartOf(q.reference)
    && forall k | 0 < k < |states| :: StepAt(q, kept, states, k)
  }

  /** State k is reached by a Gauss-Newton step, too long to stop at unless it is the last. */
  ghost predicate StepAt<E(!new), O(!new)>(q: Problem<E, O>, kept: seq<nat>, states: seq<Vec4>, k: nat)
    requires Increasing(kept, |q.offered|) && 0 < k < |states|
  {
    GaussNewtonStep(q, kept, states[k - 1], states[k]) && (k < |states| - 1 ==> !Small(states[k - 1], states[k]))
  }

  ghost predicate LastSmall(states: seq<Vec4>) { |states| >= 2 && Small(states[|states| - 2], states[|states| - 1]) }

  ghost predicate IsPass<E(!new), O(!new)>(q: Problem<E, O>, p: Pass) {
    && Increasing(p.kept, |q.offered|)
    && Visits(q, p.kept, p.states)
    && match p.end
       case Singular => !LastSmall(p.states) && |p.states| <= ITERATIONS
           && !SolvableAt(q, p.kept, p.states[|p.states| - 1])
       case Settled => LastSmall(p.states)
       case Wandering => !LastSmall(p.states) && |p.states| == ITERATIONS + 1
  }

  /** The residuals of the last linearisation, taken before its correction is applied. */
  ghost function Residuals<E(!new), O(!new)>(q: Problem<E, O>, p: Pass): (r: seq<real>)
    requires IsPass(q, p) && |p.states| >= 2
    ensures |r| == |p.kept|
  {
    var obs := ObservationsAt(q, p.kept, p.states[|p.states| - 2]);
    seq(|p.kept|, i requires 0 <= i < |p.kept| => obs[i].y)
  }

  ghost predicate WithinLimit(r: seq<real>, limit: real) {
    0.0 <= limit && forall i | 0 <= i < |r| :: Abs(r[i]) <= limit
  }

  /** The first of the largest residuals. */
  ghost predicate IsWorst(r: seq<real>, worst: nat) {
    && worst < |r|
    && (forall i | 0 <= i < |r| :: Abs(r[i]) <= Abs(r[worst]))
    && (forall i | 0 <= i < worst :: Abs(r[i]) < Abs(r[worst]))
  }

  function Without<T>(s: seq<T>, i: nat): (r: seq<T>)
    requires i < |s|
    ensures |r| == |s| - 1
    ensures forall k | 0 <= k < |r| :: r[k] == if k < i then s[k] else s[k + 1]
  {
    s[..i] + s[i + 1..]
  }

  ghost predicate NeedsExclusion<E(!new), O(!new)>(q: Problem<E, O>, p: Pass)
    requires IsPass(q, p)
  {
    p.end == Wandering || (p.end == Settled && !WithinLimit(Residuals(q, p), q.config.maxPseudorangeErr))
  }

  /** p failed with enough satellites left, and next runs without its worst one. */
  ghost predicate Excludes<E(!new), O(!new)>(q: Problem<E, O>, p: Pass, next: Pass) {
    && IsPass(q, p) && NeedsExclusion(q, p)
    && |p.kept| >= q.config.minSatellites + 2
    && exists worst :: IsWorst(Residuals(q, p), worst) && next.kept == Without(p.kept, worst)
  }

  /** The satellites that pass the elevation mask, in order. */
  ghost predicate PassesMask<E(!new), O(!new)>(q: Problem<E, O>, kept: seq<nat>) {
    && Increasing(kept, |q.offered|)
    && forall j | 0 <= j < |q.offered| :: j in kept <==> Seen(q, q.offered[j])
  }

  ghost predicate Seen<E(!new), O(!new)>(q: Problem<E, O>, s: Satellite<O>) {
    q.masked ==> q.physics.elevationDeg(q.reference, s.orbit) >= q.config.elevationMask
  }

  ghost predicate History<E(!new), O(!new)>(q: Problem<E, O>, trail: seq<Pass>) {
    && |trail| >= 1
    && PassesMask(q, trail[0].kept) && |trail[0].kept| >= q.config.minSatellites
    && (forall i | 0 <= i < |trail| :: PassAt(q, trail, i))
  }

  /** Entry i is a pass, over the satellites the pass before it left. */
  ghost predicate PassAt<E(!new), O(!new)>(q: Problem<E, O>, trail: seq<Pass>, i: nat)
    requires i < |trail|
  {
    IsPass(q, trail[i]) && (i > 0 ==> Excludes(q, trail[i - 1], trail[i]))
  }

  /** The call was accepted after this history. */
  ghost predicate Accepted<E(!new), O(!new)>(q: Problem<E, O>, trail: seq<Pass>) {
    && History(q, trail)
    && Fits(q, trail[|trail| - 1])
  }

  /** The call gave up after this history: a pivot failed, or too few satellites remain to drop one. */
  ghost predicate GaveUp<E(!new), O(!new)>(q: Problem<E, O>, trail: seq<Pass>) {
    History(q, trail) && Hopeless(q, trail[|trail| - 1])
  }

  ghost predicate Hopeless<E(!new), O(!new)>(q: Problem<E, O>, p: Pass) {
    p.end == Singular || (IsPass(q, p) && NeedsExclusion(q, p) && |p.kept| < q.config.minSatellites + 2)
  }

  /** Visiting one more state. */
  lemma VisitsOn<E(!new), O(!new)>(q: Problem<E, O>, kept: seq<nat>, states: seq<Vec4>, delta: Vec4)
    requires Increasing(kept, |q.offered|) && Visits(q, kept, states) && !LastSmall(states) && |states| <= ITERATIONS
    requires SolvableAt(q, kept, states[|states| - 1])
             && UniqueMinimum(ObservationsAt(q, kept, states[|states| - 1]), delta)
    ensures var longer := states + [Plus(states[|states| - 1], delta)];
            Visits(q, kept, longer) && (LastSmall(longer) <==> SquaredStep(delta) < SQUARED_STEP_LIMIT)
  {
    var n := |states|;
    var from, to := states[n - 1], Plus(states[n - 1], delta);
    var longer := states + [to];
    assert GaussNewtonStep(q, kept, from, to);
    assert Minus(to, from) == delta;
    forall k | 0 < k < n + 1 ensures StepAt(q, kept, longer, k) {
      if k < n {
        assert StepAt(q, kept, states, k);
        assert longer[k - 1] == states[k - 1] && longer[k] == states[k];
      }
    }
  }

  /** What a finished pass leaves behind: its state, its residuals and its dilution sums. */
  ghost predicate Leaves<E(!new), O(!new)>(q: Problem<E, O>, kept: seq<nat>, states: seq<Vec4>, state: Vec4,
        rho: seq<real>, plain: Mat4)
  {
    && Increasing(kept, |q.offered|) && |states| >= 2
    && state == states[|states| - 1]
    && var obs := ObservationsAt(q, kept, states[|states| - 2]);
       AreResiduals(rho, obs) && plain == NormalMatrix(Unweighted(obs))
  }

  ghost predicate AreResiduals(rho: seq<real>, obs: seq<Observation>) {
    |rho| == |obs| && forall i | 0 <= i < |rho| :: rho[i] == obs[i].y
  }

  lemma HeldResiduals(obs: seq<Observation>, h: array2<real>, rho: array<real>, w: array<real>)
    requires Holds(obs, h, rho, w)
    ensures AreResiduals(rho[..], obs)
  {
    forall i | 0 <= i < |obs| ensures rho[i] == obs[i].y {
      assert HoldsAt(obs[i], h, rho, w, i);
    }
  }

  lemma Advances<E(!new), O(!new)>(q: Problem<E, O>, kept: seq<nat>, states: seq<Vec4>, delta: Vec4, rho: seq<real>,
                                   plain: Mat4)
    requires Increasing(kept, |q.offered|) && Visits(q, kept, states) && !LastSmall(states) && |states| <= ITERATIONS
    requires var obs := ObservationsAt(q, kept, states[|states| - 1]);
             SolvableAt(q, kept, states[|states| - 1]) && UniqueMinimum(obs, delta) && AreResiduals(rho, obs)
                 && plain == NormalMatrix(Unweighted(obs))
    ensures var to := Plus(states[|states| - 1], delta);
            var longer := states + [to];
            && Visits(q, kept, longer) && (LastSmall(longer) <==> SquaredStep(delta) < SQUARED_STEP_LIMIT)
            && Leaves(q, kept, longer, to, rho, plain)
  {
    VisitsOn(q, kept, states, delta);
    assert (states + [Plus(states[|states| - 1], delta)])[|states| - 1] == states[|states| - 1];
  }

  lemma StartsPass<E(!new), O(!new)>(q: Problem<E, O>, kept: seq<nat>, states: seq<Vec4>)
    requires Increasing(kept, |q.offered|) && states == [StartOf(q.reference)]
    ensures Visits(q, kept, states) && !LastSmall(states)
  {
  }

  lemma EndsPass<E(!new), O(!new)>(q: Problem<E, O>, kept: seq<nat>, states: seq<Vec4>, end: End)
    requires Increasing(kept, |q.offered|) && Visits(q, kept, states) && (LastSmall(states) <==> end == Settled)
    requires end == Singular ==> |states| <= ITERATIONS && !SolvableAt(q, kept, states[|states| - 1])
    requires end == Wandering ==> |states| == ITERATIONS + 1
    ensures IsPass(q, Pass(kept, states, end))
  {
  }

  // ----- what every history keeps

  lemma WithoutIncreases(kept: seq<nat>, i: nat, n: nat)
    requires Increasing(kept, n) && i < |kept|
    ensures Increasing(Without(kept, i), n)
  {
  }

  lemma {:induction false} IncreasingIsShort(kept: seq<nat>, n: nat)
    requires Increasing(kept, n)
    ensures |kept| <= n
  {
    if kept != [] {
      var last := kept[|kept| - 1];
      assert Increasing(kept[..|kept| - 1], last);
      IncreasingIsShort(kept[..|kept| - 1], last);
    }
  }

  /** Each exclusion drops one satellite, and never leaves fewer than one above the minimum. */
  lemma {:induction false} ExclusionsCount<E(!new), O(!new)>(q: Problem<E, O>, trail: seq<Pass>, i: nat)
    requires History(q, trail) && i < |trail|
    ensures |trail[i].kept| == |trail[0].kept| - i
    ensures i > 0 ==> |trail[i].kept| >= q.config.minSatellites + 1
    ensures forall k | 0 <= k < |trail[i].kept| :: trail[i].kept[k] in trail[0].kept
  {
    if i > 0 {
      ExclusionsCount(q, trail, i - 1);
      HistoryAt(q, trail, i);
    }
  }

  /** The exclusion loop ends: there are at most as many passes as satellites to spare. */
  lemma PassesAreBounded<E(!new), O(!new)>(q: Problem<E, O>, trail: seq<Pass>)
    requires History(q, trail)
    ensures |trail| == 1 || |trail| <= |q.offered| - q.config.minSatellites
  {
    ExclusionsCount(q, trail, |trail| - 1);
    HistoryAt(q, trail, 0);
    IncreasingIsShort(trail[0].kept, |q.offered|);
  }

  lemma WorstIsUnique(r: seq<real>, a: nat, b: nat)
    requires IsWorst(r, a) && IsWorst(r, b)
    ensures a == b
  {
    assert Abs(r[a]) <= Abs(r[b]) <= Abs(r[a]);
  }

  lemma StepIsUnique<E(!new), O(!new)>(q: Problem<E, O>, kept: seq<nat>, from: Vec4, a: Vec4, b: Vec4)
    requires Increasing(kept, |q.offered|) && GaussNewtonStep(q, kept, from, a) && GaussNewtonStep(q, kept, from, b)
    ensures a == b
  {
    var obs := ObservationsAt(q, kept, from);
    var d :| a == Plus(from, d) && UniqueMinimum(obs, d);
    var e :| b == Plus(from, e) && UniqueMinimum(obs, e);
    assert Cost(obs, d) <= Cost(obs, e) && Cost(obs, e) <= Cost(obs, d);
  }

  lemma {:induction false} StatesAgree<E(!new), O(!new)>(q: Problem<E, O>, a: Pass, b: Pass, k: nat)
    requires IsPass(q, a) && IsPass(q, b) && a.kept == b.kept && k < |a.states| && k < |b.states|
    ensures a.states[k] == b.states[k]
  {
    if k > 0 {
      StatesAgree(q, a, b, k - 1);
      assert StepAt(q, a.kept, a.states, k) && StepAt(q, b.kept, b.states, k);
      StepIsUnique(q, a.kept, a.states[k - 1], a.states[k], b.states[k]);
    }
  }

  lemma PassNotLonger<E(!new), O(!new)>(q: Problem<E, O>, a: Pass, b: Pass)
    requires IsPass(q, a) && IsPass(q, b) && a.kept == b.kept
    ensures |b.states| <= |a.states|
  {
    var n := |a.states|;
    if n < |b.states| {
      GoesOn(q, b, n);
      if n >= 2 {
        StatesAgree(q, a, b, n - 2);
      }
      StatesAgree(q, a, b, n - 1);
    }
  }

  /** What a pass that goes beyond n states says of the last of them. */
  lemma GoesOn<E(!new), O(!new)>(q: Problem<E, O>, b: Pass, n: nat)
    requires IsPass(q, b) && 1 <= n < |b.states|
    ensures SolvableAt(q, b.kept, b.states[n - 1]) && n < ITERATIONS + 1
    ensures n >= 2 ==> !Small(b.states[n - 2], b.states[n - 1])
  {
    assert StepAt(q, b.kept, b.states, n);
    assert n >= 2 ==> StepAt(q, b.kept, b.states, n - 1);
  }

  /** A pass is determined by its satellites. */
  lemma PassIsUnique<E(!new), O(!new)>(q: Problem<E, O>, a: Pass, b: Pass)
    requires IsPass(q, a) && IsPass(q, b) && a.kept == b.kept
    ensures a == b
  {
    PassNotLonger(q, a, b);
    PassNotLonger(q, b, a);
    forall k | 0 <= k < |a.states| ensures a.states[k] == b.states[k] {
      StatesAgree(q, a, b, k);
    }
    assert a.states == b.states;
    SameEnd(q, a, b);
  }

  lemma SameEnd<E(!new), O(!new)>(q: Problem<E, O>, a: Pass, b: Pass)
    requires IsPass(q, a) && IsPass(q, b) && a.kept == b.kept && a.states == b.states
    ensures a.end == b.end
  {
  }

  lemma {:induction false} FirstMismatch(a: seq<nat>, b: seq<nat>, n: nat, i: nat)
    requires Increasing(a, n) && Increasing(b, n) && (forall j | 0 <= j < n :: j in a <==> j in b)
    requires i < |a|
    ensures i < |b| && a[i] == b[i]
  {
    assert a[i] in a && a[i] in b;
    var j :| 0 <= j < |b| && b[j] == a[i];
    forall t | 0 <= t < i ensures t < |b| && a[t] == b[t] < a[i] {
      FirstMismatch(a, b, n, t);
    }
    assert j >= i && b[i] <= a[i];
    assert b[i] in b && b[i] in a;
    var k :| 0 <= k < |a| && a[k] == b[i];
    forall t | 0 <= t < i ensures a[t] < b[i] {
      FirstMismatch(a, b, n, t);
    }
  }

  lemma MaskIsUnique<E(!new), O(!new)>(q: Problem<E, O>, a: seq<nat>, b: seq<nat>)
    requires PassesMask(q, a) && PassesMask(q, b)
    ensures a == b
  {
    var n := |q.offered|;
    forall i | 0 <= i < |a| ensures i < |b| && a[i] == b[i] {
      FirstMismatch(a, b, n, i);
    }
    assert |a| <= |b| by {
      if |a| > 0 { FirstMismatch(a, b, n, |a| - 1); }
    }
    assert |b| <= |a| by {
      if |b| > 0 { FirstMismatch(b, a, n, |b| - 1); }
    }
  }

  lemma NextIsUnique<E(!new), O(!new)>(q: Problem<E, O>, p: Pass, x: Pass, y: Pass)
    requires Excludes(q, p, x) && Excludes(q, p, y)
    ensures x.kept == y.kept
  {
    var r := Residuals(q, p);
    var u :| IsWorst(r, u) && x.kept == Without(p.kept, u);
    var v :| IsWorst(r, v) && y.kept == Without(p.kept, v);
    WorstIsUnique(r, u, v);
  }

  ghost predicate Fits<E(!new), O(!new)>(q: Problem<E, O>, p: Pass) {
    IsPass(q, p) && p.end == Settled && WithinLimit(Residuals(q, p), q.config.maxPseudorangeErr)
  }

  lemma HistoryAt<E(!new), O(!new)>(q: Problem<E, O>, trail: seq<Pass>, i: nat)
    requires History(q, trail) && i < |trail|
    ensures IsPass(q, trail[i]) && (i > 0 ==> Excludes(q, trail[i - 1], trail[i]))
  {
    assert PassAt(q, trail, i);
  }

  lemma KeptAgrees<E(!new), O(!new)>(q: Problem<E, O>, a: seq<Pass>, b: seq<Pass>, i: nat)
    requires History(q, a) && History(q, b) && i < |a| && i < |b| && (i > 0 ==> a[i - 1] == b[i - 1])
    ensures a[i].kept == b[i].kept
  {
    if i == 0 {
      MaskIsUnique(q, a[0].kept, b[0].kept);
    } else {
      HistoryAt(q, a, i);
      HistoryAt(q, b, i);
      NextIsUnique(q, a[i - 1], a[i], b[i]);
    }
  }

  /** Histories of the same call agree on every pass. */
  lemma {:induction false} HistoriesAgree<E(!new), O(!new)>(q: Problem<E, O>, a: seq<Pass>, b: seq<Pass>, i: nat)
    requires History(q, a) && History(q, b) && i < |a| && i < |b|
    ensures a[i] == b[i]
  {
    if i > 0 {
      HistoriesAgree(q, a, b, i - 1);
    }
    KeptAgrees(q, a, b, i);
    HistoryAt(q, a, i);
    HistoryAt(q, b, i);
    PassIsUnique(q, a[i], b[i]);
  }

  /** The history ends here: accepted, or given up. */
  ghost predicate Complete<E(!new), O(!new)>(q: Problem<E, O>, trail: seq<Pass>) {
    Accepted(q, trail) || GaveUp(q, trail)
  }

  /** An accepted history is never a given-up one. */
  lemma NotBoth<E(!new), O(!new)>(q: Problem<E, O>, trail: seq<Pass>)
    requires History(q, trail)
    ensures !(Accepted(q, trail) && GaveUp(q, trail))
  {
    HistoryAt(q, trail, |trail| - 1);
  }

  /** So the problem determines the whole history of the call, and whether it is accepted. */
  lemma HistoryIsDetermined<E(!new), O(!new)>(q: Problem<E, O>, a: seq<Pass>, b: seq<Pass>)
    requires Complete(q, a) && Complete(q, b)
    ensures a == b && Accepted(q, a) == !GaveUp(q, b)
  {
    NotLonger(q, a, b);
    NotLonger(q, b, a);
    forall i | 0 <= i < |a| ensures a[i] == b[i] {
      HistoriesAgree(q, a, b, i);
    }
    NotBoth(q, a);
  }

  ghost predicate Ends<E(!new), O(!new)>(q: Problem<E, O>, p: Pass) { Fits(q, p) || Hopeless(q, p) }

  lemma NotLonger<E(!new), O(!new)>(q: Problem<E, O>, a: seq<Pass>, b: seq<Pass>)
    requires History(q, a) && History(q, b) && Ends(q, a[|a| - 1])
    ensures |b| <= |a|
  {
    var n := |a|;
    if n < |b| {
      HistoriesAgree(q, a, b, n - 1);
      ExcludedGoesOn(q, b, n);
    }
  }

  /** A pass that is followed by another ends no call. */
  lemma ExcludedGoesOn<E(!new), O(!new)>(q: Problem<E, O>, b: seq<Pass>, n: nat)
    requires History(q, b) && 1 <= n < |b|
    ensures !Ends(q, b[n - 1])
  {
    HistoryAt(q, b, n);
  }

  // ----- the solver

  /** The accepted fix; covariance is missing when the dilution matrix has no inverse. */
  datatype Solution = Solution(position: Ecef, clockBias: real, clockBiasSeconds: real, satellitesUsed: nat,
                               maxResidual: real, covariance: Option<Mat4>)

  const SEED := Ecef(4180483.4, 851798.0, 4725999.8)

  /** The three lists hold the satellites in use. */
  ghost predicate Aligned<O>(offered: seq<Satellite<O>>, kept: seq<nat>, orbits: seq<O>, ranges: seq<real>,
                             times: seq<real>)
  {
    && Increasing(kept, |offered|)
    && |orbits| == |ranges| == |times| == |kept|
    && forall i | 0 <= i < |kept| :: offered[kept[i]] == Satellite(orbits[i], ranges[i], times[i])
  }

  lemma DropsAligned<O>(offered: seq<Satellite<O>>, kept: seq<nat>, orbits: seq<O>, ranges: seq<real>,
                        times: seq<real>, i: nat)
    requires Aligned(offered, kept, orbits, ranges, times) && i < |kept|
    ensures Aligned(offered, Without(kept, i), Without(orbits, i), Without(ranges, i), Without(times, i))
  {
    WithoutIncreases(kept, i, |offered|);
  }

  ghost function Everyone(n: nat): (kept: seq<nat>)
    ensures |kept| == n && Increasing(kept, n) && forall j | 0 <= j < n :: j in kept && kept[j] == j
  {
    if n == 0 then [] else Everyone(n - 1) + [n - 1]
  }

  ghost predicate KeptSoFar<E(!new), O(!new)>(q: Problem<E, O>, kept: seq<nat>, i: nat)
    requires i <= |q.offered|
  {
    Increasing(kept, i) && forall j | 0 <= j < i :: j in kept <==> Seen(q, q.offered[j])
  }

  /** The first i satellites have been filtered to the front of the lists. */
  ghost predicate Filtering<E(!new), O(!new)>(q: Problem<E, O>, kept: seq<nat>, orbits: seq<O>, ranges: seq<real>,
        times: seq<real>, i: nat)
  {
    && |orbits| == |ranges| == |times| == |q.offered|
    && |kept| <= i <= |q.offered| && KeptSoFar(q, kept, i)
    && (forall k | 0 <= k < |kept| :: q.offered[kept[k]] == Satellite(orbits[k], ranges[k], times[k]))
    && (forall j | i <= j < |q.offered| :: q.offered[j] == Satellite(orbits[j], ranges[j], times[j]))
  }

  lemma MovesUp<E(!new), O(!new)>(q: Problem<E, O>, kept: seq<nat>, orbits: seq<O>, ranges: seq<real>,
                                  times: seq<real>, i: nat)
    requires Filtering(q, kept, orbits, ranges, times, i) && i < |q.offered| && Seen(q, q.offered[i])
    ensures var n := |kept|;
            Filtering(q, kept + [i], orbits[n := orbits[i]], ranges[n := ranges[i]], times[n := times[i]], i + 1)
  {
    var longer := kept + [i];
    forall j | 0 <= j < i + 1 ensures j in longer <==> Seen(q, q.offered[j]) {}
    assert KeptSoFar(q, longer, i + 1);
  }

  lemma SkipsHidden<E(!new), O(!new)>(q: Problem<E, O>, kept: seq<nat>, orbits: seq<O>, ranges: seq<real>,
                                      times: seq<real>, i: nat)
    requires Filtering(q, kept, orbits, ranges, times, i) && i < |q.offered| && !Seen(q, q.offered[i])
    ensures Filtering(q, kept, orbits, ranges, times, i + 1)
  {
    assert i !in kept;
  }

  /** What the outputs of an accepted call say. */
  ghost predicate Reports<E(!new), O(!new)>(q: Problem<E, O>, last: Pass, s: Solution)
    requires IsPass(q, last) && |last.states| >= 2
  {
    var state, from := last.states[|last.states| - 1], last.states[|last.states| - 2];
    && s.position == Ecef(state.x0, state.x1, state.x2)
    && s.clockBias == state.x3 && s.clockBiasSeconds == state.x3 / SPEED_OF_LIGHT
    && s.satellitesUsed == |last.kept|
    && IsMaximum(Residuals(q, last), s.maxResidual)
    && IsCovariance(q.solvable, NormalMatrix(Unweighted(ObservationsAt(q, last.kept, from))), s.covariance)
  }

  /** The inverse of the dilution sums, exactly when they pass the pivot test. */
  ghost predicate IsCovariance(solvable: Mat4 -> bool, m: Mat4, covariance: Option<Mat4>) {
    if solvable(m) then covariance.Some? && Inverts(covariance.value, m) && Inverts(m, covariance.value)
    else covariance == None
  }

  method Covariance(plain: array2<real>, ghost solvable: Mat4 -> bool) returns (covariance: Option<Mat4>)
    requires IsSquare(plain) && Judges(solvable)
    ensures IsCovariance(solvable, Matrix(plain), covariance)
  {
    var inv := new real[4, 4]((r, c) => 0.0);
    var ok := Invert4x4(plain, inv);
    assert Agrees(solvable, Matrix(plain));
    covariance := None;
    if ok {
      var rows := Rows(inv);
      covariance := Some(rows);
    }
  }

  ghost predicate IsMaximum(r: seq<real>, m: real) {
    (forall i | 0 <= i < |r| :: Abs(r[i]) <= m) && (m == 0.0 || exists i :: 0 <= i < |r| && m == Abs(r[i]))
  }

  method LargestResidual(rho: array<real>) returns (m: real)
    ensures IsMaximum(rho[..], m) && m >= 0.0
  {
    m := 0.0;
    for i := 0 to rho.Length
      invariant IsMaximum(rho[..i], m) && m >= 0.0
    {
      ghost var was := m;
      var absResidual := Abs(rho[i]);
      m := if absResidual > m then absResidual else m;
      assert rho[..i + 1] == rho[..i] + [rho[i]];
      if m == was {
        assert m == 0.0 || exists k :: 0 <= k < i && m == Abs(rho[..i][k]);
        assert forall k | 0 <= k < i :: rho[..i + 1][k] == rho[..i][k];
      } else {
        assert rho[..i + 1][i] == rho[i];
      }
    }
    assert rho[..rho.Length] == rho[..];
  }

  method FindWorst(rho: array<real>) returns (worst: nat)
    requires rho.Length > 0
    ensures IsWorst(rho[..], worst)
  {
    worst := 0;
    for i := 1 to rho.Length
      invariant worst < i
      invariant forall k | 0 <= k < i :: Abs(rho[k]) <= Abs(rho[worst])
      invariant forall k | 0 <= k < worst :: Abs(rho[k]) < Abs(rho[worst])
    {
      if Abs(rho[i]) > Abs(rho[worst]) {
        worst := i;
      }
    }
  }

  class PVTSolver<E(!new), O(!new)> {
    const physics: Physics<E, O>
    const config: Config
    var referenceEcef: Ecef
    var hasValidFix: bool

    constructor (physics: Physics<E, O>, config: Config)
      ensures this.physics == physics && this.config == config
      ensures referenceEcef == SEED && !hasValidFix
    {
      this.physics, this.config := physics, config;
      referenceEcef, hasValidFix := SEED, false;
    }

    function Offer(ephemeris: E, pseudorange: real, time: real): Satellite<O> {
      var orbit := physics.orbitAt(ephemeris, time);
      Satellite(orbit, pseudorange + SPEED_OF_LIGHT * physics.clockBias(orbit), time)
    }

    /** The problem a call poses in the present state. */
    ghost function Posed(ephemerides: seq<E>, pseudoranges: seq<real>, times: seq<real>): Problem<E, O>
      requires |pseudoranges| >= |ephemerides| && |times| >= |ephemerides|
      reads this
    {
      Problem(physics, config,
              seq(|ephemerides|, i requires 0 <= i < |ephemerides| => Offer(ephemerides[i], pseudoranges[i], times[i])),
              referenceEcef, hasValidFix && config.elevationMask > 0.0, PivotTest())
    }

    /** Moves the satellites above the mask to the front of the lists and cuts the rest off. */
    method ApplyMask(ghost q: Problem<E, O>, orbits0: seq<O>, ranges0: seq<real>, times0: seq<real>)
      returns (orbits: seq<O>, ranges: seq<real>, times: seq<real>, ghost kept: seq<nat>)
      requires q.physics == physics && q.config == config && q.reference == referenceEcef
      requires q.masked == (hasValidFix && config.elevationMask > 0.0)
      requires |orbits0| == |ranges0| == |times0| == |q.offered|
      requires forall i | 0 <= i < |q.offered| :: q.offered[i] == Satellite(orbits0[i], ranges0[i], times0[i])
      ensures PassesMask(q, kept) && Aligned(q.offered, kept, orbits, ranges, times)
    {
      orbits, ranges, times := orbits0, ranges0, times0;
      if hasValidFix && config.elevationMask > 0.0 {
        orbits, ranges, times, kept := KeepVisible(q, orbits, ranges, times);
      } else {
        kept := Everyone(|orbits|);
      }
    }

    method KeepVisible(ghost q: Problem<E, O>, orbits0: seq<O>, ranges0: seq<real>, times0: seq<real>)
      returns (orbits: seq<O>, ranges: seq<real>, times: seq<real>, ghost kept: seq<nat>)
      requires q.physics == physics && q.config == config && q.reference == referenceEcef && q.masked
      requires |orbits0| == |ranges0| == |times0| == |q.offered|
      requires forall i | 0 <= i < |q.offered| :: q.offered[i] == Satellite(orbits0[i], ranges0[i], times0[i])
      ensures PassesMask(q, kept) && Aligned(q.offered, kept, orbits, ranges, times)
    {
      orbits, ranges, times := orbits0, ranges0, times0;
      var keptSats := 0;
      kept := [];
      for i := 0 to |orbits|
        invariant Filtering(q, kept, orbits, ranges, times, i) && keptSats == |kept|
      {
        if physics.elevationDeg(referenceEcef, orbits[i]) < config.elevationMask {
          SkipsHidden(q, kept, orbits, ranges, times, i);
          continue;
        }
        MovesUp(q, kept, orbits, ranges, times, i);
        orbits := orbits[keptSats := orbits[i]];
        ranges := ranges[keptSats := ranges[i]];
        times := times[keptSats := times[i]];
        keptSats := keptSats + 1;
        kept := kept + [i];
      }
      orbits, ranges, times := orbits[..keptSats], ranges[..keptSats], times[..keptSats];
    }

    ghost predicate Poses(q: Problem<E, O>)
      reads this
    {
      && q.physics == physics && q.config == config && q.reference == referenceEcef
      && q.masked == (hasValidFix && config.elevationMask > 0.0) && Judges(q.solvable)
    }

    /** Fills H, deltaRho and weight at the current state. */
    method Linearise(ghost q: Problem<E, O>, ghost kept: seq<nat>, orbits: seq<O>, ranges: seq<real>,
                     times: seq<real>, state: Vec4,
                     h: array2<real>, rho: array<real>, w: array<real>)
      requires q.physics == physics && q.config == config && Aligned(q.offered, kept, orbits, ranges, times)
      requires h.Length0 == rho.Length == w.Length == |kept| && h.Length1 == 4 && rho != w
      modifies h, rho, w
      ensures Holds(ObservationsAt(q, kept, state), h, rho, w)
    {
      ghost var obs := ObservationsAt(q, kept, state);
      for i := 0 to |orbits|
        invariant forall k: nat | k < i :: HoldsAt(obs[k], h, rho, w, k)
      {
        var o := Observe(physics, config.tropoEnabled, orbits[i], ranges[i], times[i], state);
        assert obs[i] == o;
        rho[i], w[i] := o.y, o.w;
        h[i, 0] := o.h.x0;
        h[i, 1] := o.h.x1;
        h[i, 2] := o.h.x2;
        h[i, 3] := o.h.x3;
        assert HoldsAt(obs[i], h, rho, w, i);
      }
    }

    /** One linearisation and its correction, with the sums it needs for the dilution matrix. */
    method Iterate(ghost q: Problem<E, O>, ghost kept: seq<nat>, orbits: seq<O>, ranges: seq<real>, times: seq<real>,
                   state: Vec4,
                   h: array2<real>, rho: array<real>, w: array<real>)
      returns (ok: bool, delta: Vec4, plain: array2<real>)
      requires q.physics == physics && q.config == config && Aligned(q.offered, kept, orbits, ranges, times)
               && Judges(q.solvable)
      requires h.Length0 == rho.Length == w.Length == |kept| && h.Length1 == 4 && rho != w
      modifies h, rho, w
      ensures Holds(ObservationsAt(q, kept, state), h, rho, w)
      ensures ok == SolvableAt(q, kept, state)
      ensures ok ==> UniqueMinimum(ObservationsAt(q, kept, state), delta)
      ensures fresh(plain) && IsSquare(plain)
              && Matrix(plain) == NormalMatrix(Unweighted(ObservationsAt(q, kept, state)))
    {
      ghost var obs := ObservationsAt(q, kept, state);
      Linearise(q, kept, orbits, ranges, times, state, h, rho, w);
      var hth, sums, hty := Accumulate(obs, h, rho, w);
      plain := sums;
      WeightsAreSquares(physics, config.tropoEnabled, Pick(q.offered, kept), state);
      ok, delta := Correct(obs, hth, hty);
      assert Agrees(q.solvable, NormalMatrix(obs));
    }

    /** One iteration: the next state, and whether the step was small. */
    method TakeStep(ghost q: Problem<E, O>, ghost kept: seq<nat>, orbits: seq<O>, ranges: seq<real>, times: seq<real>,
                    state: Vec4, ghost states: seq<Vec4>,
                    h: array2<real>, rho: array<real>, w: array<real>)
      returns (ok: bool, small: bool, next: Vec4, plain: array2<real>)
      requires q.physics == physics && q.config == config && Aligned(q.offered, kept, orbits, ranges, times)
               && Judges(q.solvable)
      requires h.Length0 == rho.Length == w.Length == |kept| && h.Length1 == 4 && rho != w
      requires Visits(q, kept, states) && !LastSmall(states) && |states| <= ITERATIONS && state == states[|states| - 1]
      modifies h, rho, w
      ensures ok == SolvableAt(q, kept, state) && fresh(plain) && IsSquare(plain)
      ensures ok ==> Visits(q, kept, states + [next]) && small == LastSmall(states + [next])
                     && Leaves(q, kept, states + [next], next, rho[..], Matrix(plain))
    {
      var delta;
      ok, delta, plain := Iterate(q, kept, orbits, ranges, times, state, h, rho, w);
      next, small := Plus(state, delta), SquaredStep(delta) < SQUARED_STEP_LIMIT;
      if ok {
        HeldResiduals(ObservationsAt(q, kept, state), h, rho, w);
        Advances(q, kept, states, delta, rho[..], Matrix(plain));
      }
    }

    /** Gauss-Newton from the reference position with the satellites in use. */
    method RunPass(ghost q: Problem<E, O>, ghost kept: seq<nat>, orbits: seq<O>, ranges: seq<real>, times: seq<real>)
      returns (end: End, state: Vec4, rho: array<real>, plain: array2<real>, ghost pass: Pass)
      requires Poses(q) && Aligned(q.offered, kept, orbits, ranges, times)
      ensures IsPass(q, pass) && pass.kept == kept && pass.end == end
      ensures fresh(rho) && fresh(plain) && IsSquare(plain)
      ensures end != Singular ==> Leaves(q, kept, pass.states, state, rho[..], Matrix(plain))
    {
      state := Vec4(referenceEcef.x, referenceEcef.y, referenceEcef.z, 0.0);
      var h := new real[|orbits|, 4]((i, c) => 0.0);
      rho := new real[|orbits|](i => 0.0);
      var w := new real[|orbits|](i => 1.0);
      plain := new real[4, 4]((r, c) => 0.0);
      ghost var states := [state];
      StartsPass(q, kept, states);
      for iter := 0 to ITERATIONS
        invariant fresh(plain) && IsSquare(plain)
        invariant Visits(q, kept, states) && |states| == iter + 1 && !LastSmall(states) && state == states[iter]
        invariant iter > 0 ==> Leaves(q, kept, states, state, rho[..], Matrix(plain))
      {
        var ok, small, next, sums := TakeStep(q, kept, orbits, ranges, times, state, states, h, rho, w);
        plain := sums;
        if !ok {
          EndsPass(q, kept, states, Singular);
          return Singular, state, rho, plain, Pass(kept, states, Singular);
        }
        state := next;
        states := states + [state];
        if small {
          EndsPass(q, kept, states, Settled);
          return Settled, state, rho, plain, Pass(kept, states, Settled);
        }
      }
      EndsPass(q, kept, states, Wandering);
      return Wandering, state, rho, plain, Pass(kept, states, Wandering);
    }

    method Prepare(ghost q: Problem<E, O>, ephemerides: seq<E>, pseudoranges: seq<real>, times: seq<real>)
      returns (orbits: seq<O>, ranges: seq<real>)
      requires |pseudoranges| >= |ephemerides| && |times| >= |ephemerides|
      requires q == Posed(ephemerides, pseudoranges, times)
      ensures |orbits| == |ranges| == |ephemerides|
      ensures forall i | 0 <= i < |ephemerides| :: q.offered[i] == Satellite(orbits[i], ranges[i], times[i])
    {
      orbits, ranges := [], [];
      for i := 0 to |ephemerides|
        invariant |orbits| == |ranges| == i
        invariant forall k | 0 <= k < i :: q.offered[k] == Satellite(orbits[k], ranges[k], times[k])
      {
        assert q.offered[i] == Offer(ephemerides[i], pseudoranges[i], times[i]);
        orbits := orbits + [physics.orbitAt(ephemerides[i], times[i])];
        ranges := ranges + [pseudoranges[i] + SPEED_OF_LIGHT * physics.clockBias(orbits[i])];
      }
    }

    /** Accepts the state of the last pass as the fix. */
    method Accept(ghost q: Problem<E, O>, ghost last: Pass, state: Vec4, numSats: nat, maxResidual: real,
                  plain: array2<real>, ghost rho: seq<real>)
      returns (s: Solution)
      requires IsPass(q, last) && IsSquare(plain) && Leaves(q, last.kept, last.states, state, rho, Matrix(plain))
      requires numSats == |last.kept| && IsMaximum(rho, maxResidual) && Judges(q.solvable)
      modifies this
      ensures Reports(q, last, s) && referenceEcef == s.position && hasValidFix
    {
      var position := Ecef(state.x0, state.x1, state.x2);
      var covariance := Covariance(plain, q.solvable);
      s := Solution(position, state.x3, state.x3 / SPEED_OF_LIGHT, numSats, maxResidual, covariance);
      referenceEcef, hasValidFix := position, true;
      LeavesResiduals(q, last, state, rho, Matrix(plain));
    }

    /** Weighted least squares with one exclusion per failed pass. */
    method SolvePosition(ephemerides: seq<E>, pseudoranges: seq<real>, transmitTimes: seq<real>)
      returns (solution: Option<Solution>, ghost trail: seq<Pass>)
      modifies this
      ensures solution.None? ==> referenceEcef == old(referenceEcef) && hasValidFix == old(hasValidFix)
      ensures solution.Some? ==> referenceEcef == solution.value.position && hasValidFix
      ensures var n := |ephemerides|;
              if n < config.minSatellites || |pseudoranges| < n || |transmitTimes| < n then solution == None
              else Explains(old(Posed(ephemerides, pseudoranges, transmitTimes)), solution, trail)
    {
      if |ephemerides| < config.minSatellites || |pseudoranges| < |ephemerides| || |transmitTimes| < |ephemerides| {
        return None, [];
      }
      ghost var q := Posed(ephemerides, pseudoranges, transmitTimes);
      PivotTestJudges();
      var allOrbits, allRanges := Prepare(q, ephemerides, pseudoranges, transmitTimes);
      var orbits, ranges, times, kept := ApplyMask(q, allOrbits, allRanges, transmitTimes[..|ephemerides|]);
      if |orbits| < config.minSatellites {
        return None, [];
      }
      solution, trail := ExcludeUntilFit(q, kept, orbits, ranges, times);
    }

    /** The exclusion loop. */
    method ExcludeUntilFit(ghost q: Problem<E, O>, ghost kept0: seq<nat>, orbits0: seq<O>, ranges0: seq<real>,
                           times0: seq<real>)
      returns (solution: Option<Solution>, ghost trail: seq<Pass>)
      requires Poses(q) && Aligned(q.offered, kept0, orbits0, ranges0, times0) && PassesMask(q, kept0)
               && |kept0| >= config.minSatellites
      modifies this
      ensures solution.None? ==> referenceEcef == old(referenceEcef) && hasValidFix == old(hasValidFix)
      ensures solution.Some? ==> referenceEcef == solution.value.position && hasValidFix
      ensures Explains(q, solution, trail)
    {
      trail := [];
      var orbits, ranges, times := orbits0, ranges0, times0;
      ghost var kept := kept0;
      while true
        invariant Poses(q) && Aligned(q.offered, kept, orbits, ranges, times) && Continues(q, trail, kept)
        invariant referenceEcef == old(referenceEcef) && hasValidFix == old(hasValidFix)
        decreases |orbits|
      {
        var done;
        done, solution, orbits, ranges, times, trail, kept := PassAndExclude(q, trail, kept, orbits, ranges, times);
        if done {
          return;
        }
      }
    }

    /** One pass, and what follows from it: the end of the call, or one satellite fewer. */
    method PassAndExclude(ghost q: Problem<E, O>, ghost trail0: seq<Pass>, ghost kept0: seq<nat>, orbits0: seq<O>,
                          ranges0: seq<real>, times0: seq<real>)
      returns (done: bool, solution: Option<Solution>, orbits: seq<O>, ranges: seq<real>, times: seq<real>,
               ghost trail: seq<Pass>, ghost kept: seq<nat>)
      requires Poses(q) && Aligned(q.offered, kept0, orbits0, ranges0, times0) && Continues(q, trail0, kept0)
      modifies this
      ensures done ==> Explains(q, solution, trail)
      ensures done && solution.Some? ==> referenceEcef == solution.value.position && hasValidFix
      ensures !done ==>
              Aligned(q.offered, kept, orbits, ranges, times) && Continues(q, trail, kept) && |orbits| < |orbits0|
      ensures !done || solution.None? ==> referenceEcef == old(referenceEcef) && hasValidFix == old(hasValidFix)
    {
      orbits, ranges, times, kept, solution := orbits0, ranges0, times0, kept0, None;
      var end, state, rho, plain, pass := RunPass(q, kept, orbits, ranges, times);
      RecordsPass(q, trail0, pass);
      trail := trail0 + [pass];
      if end == Singular {
        GivesUp(q, trail);
        return true, None, orbits, ranges, times, trail, kept;
      }
      var fits, maxResidual := JudgePass(q, pass, end, state, rho, Matrix(plain));
      if fits {
        var s := Accept(q, pass, state, |orbits|, maxResidual, plain, rho[..]);
        return true, Some(s), orbits, ranges, times, trail, kept;
      }
      if |orbits| < config.minSatellites + 2 {
        GivesUp(q, trail);
        return true, None, orbits, ranges, times, trail, kept;
      }
      orbits, ranges, times, kept := EraseWorst(q, trail, orbits, ranges, times, rho);
      done := false;
    }

    /** Gates the residuals of a pass that settled. */
    method JudgePass(ghost q: Problem<E, O>, ghost pass: Pass, end: End, ghost state: Vec4, rho: array<real>,
                     ghost plain: Mat4)
      returns (fits: bool, maxResidual: real)
      requires q.config == config && IsPass(q, pass) && pass.end == end != Singular
               && Leaves(q, pass.kept, pass.states, state, rho[..], plain)
      ensures fits == Fits(q, pass) && (!fits ==> NeedsExclusion(q, pass))
      ensures rho[..] == Residuals(q, pass) && (fits ==> IsMaximum(rho[..], maxResidual))
    {
      maxResidual := 0.0;
      LeavesResiduals(q, pass, state, rho[..], plain);
      fits := false;
      if end == Settled {
        maxResidual := LargestResidual(rho);
        LimitByMaximum(rho[..], maxResidual, config.maxPseudorangeErr);
        fits := maxResidual <= config.maxPseudorangeErr;
      }
    }

    /** Erases the satellite with the first largest residual from the three lists. */
    method EraseWorst(ghost q: Problem<E, O>, ghost trail: seq<Pass>, orbits0: seq<O>, ranges0: seq<real>,
                      times0: seq<real>, rho: array<real>)
      returns (orbits: seq<O>, ranges: seq<real>, times: seq<real>, ghost kept: seq<nat>)
      requires q.config == config && History(q, trail)
      requires var p := trail[|trail| - 1];
               && IsPass(q, p) && p.end != Singular && !Fits(q, p) && rho[..] == Residuals(q, p)
               && Aligned(q.offered, p.kept, orbits0, ranges0, times0)
               && |p.kept| >= config.minSatellites + 2
      ensures Aligned(q.offered, kept, orbits, ranges, times) && Continues(q, trail, kept) && |orbits| == |orbits0| - 1
    {
      var worst := FindWorst(rho);
      ghost var p := trail[|trail| - 1];
      DropsAligned(q.offered, p.kept, orbits0, ranges0, times0, worst);
      DropsWorst(q, trail, rho[..], worst);
      orbits := orbits0[..worst] + orbits0[worst + 1..];
      ranges := ranges0[..worst] + ranges0[worst + 1..];
      times := times0[..worst] + times0[worst + 1..];
      kept := Without(p.kept, worst);
    }
  }

  lemma GivesUp<E(!new), O(!new)>(q: Problem<E, O>, trail: seq<Pass>)
    requires History(q, trail) && Hopeless(q, trail[|trail| - 1])
    ensures Explains(q, None, trail)
  {
  }

  lemma LeavesResiduals<E(!new), O(!new)>(q: Problem<E, O>, pass: Pass, state: Vec4, rho: seq<real>, plain: Mat4)
    requires IsPass(q, pass) && Leaves(q, pass.kept, pass.states, state, rho, plain)
    ensures Residuals(q, pass) == rho
  {
  }

  lemma LimitByMaximum(r: seq<real>, m: real, limit: real)
    requires IsMaximum(r, m) && m >= 0.0
    ensures m <= limit <==> WithinLimit(r, limit)
  {
  }

  method Rows(m: array2<real>) returns (v: Mat4)
    requires IsSquare(m)
    ensures v == Matrix(m)
  {
    v := Mat4(Vec4(m[0, 0], m[0, 1], m[0, 2], m[0, 3]), Vec4(m[1, 0], m[1, 1], m[1, 2], m[1, 3]),
              Vec4(m[2, 0], m[2, 1], m[2, 2], m[2, 3]), Vec4(m[3, 0], m[3, 1], m[3, 2], m[3, 3]));
  }

  /** The history so far is one, and the next pass is to run with kept. */
  ghost predicate Continues<E(!new), O(!new)>(q: Problem<E, O>, trail: seq<Pass>, kept: seq<nat>) {
    if trail == [] then PassesMask(q, kept) && |kept| >= q.config.minSatellites
    else
      && History(q, trail)
      && Excludes(q, trail[|trail| - 1], Pass(kept, [], Singular))
  }

  lemma RecordsPass<E(!new), O(!new)>(q: Problem<E, O>, trail: seq<Pass>, pass: Pass)
    requires Continues(q, trail, pass.kept) && IsPass(q, pass)
    ensures History(q, trail + [pass])
  {
    var longer, n := trail + [pass], |trail|;
    forall i | 0 <= i < n ensures PassAt(q, longer, i) {
      SamePassAt(q, trail, longer, i);
    }
    LastPassAt(q, trail, pass);
    FirstStays(q, trail, pass);
  }

  lemma FirstStays<E(!new), O(!new)>(q: Problem<E, O>, trail: seq<Pass>, pass: Pass)
    requires Continues(q, trail, pass.kept)
    ensures var first := (trail + [pass])[0].kept; PassesMask(q, first) && |first| >= q.config.minSatellites
  {
  }

  lemma SamePassAt<E(!new), O(!new)>(q: Problem<E, O>, a: seq<Pass>, b: seq<Pass>, i: nat)
    requires i < |a| && i < |b| && a[i] == b[i] && (i > 0 ==> a[i - 1] == b[i - 1])
    requires History(q, a)
    ensures PassAt(q, b, i)
  {
    assert PassAt(q, a, i);
  }

  lemma LastPassAt<E(!new), O(!new)>(q: Problem<E, O>, trail: seq<Pass>, pass: Pass)
    requires Continues(q, trail, pass.kept) && IsPass(q, pass)
    ensures PassAt(q, trail + [pass], |trail|)
  {
    if trail != [] {
      ExcludesByKept(q, trail[|trail| - 1], Pass(pass.kept, [], Singular), pass);
    }
  }

  lemma DropsWorst<E(!new), O(!new)>(q: Problem<E, O>, trail: seq<Pass>, rho: seq<real>, worst: nat)
    requires History(q, trail)
    requires var p := trail[|trail| - 1];
             && IsPass(q, p) && p.end != Singular && rho == Residuals(q, p) && IsWorst(rho, worst)
             && |p.kept| >= q.config.minSatellites + 2 && !Fits(q, p)
    ensures Continues(q, trail, Without(trail[|trail| - 1].kept, worst))
  {
  }

  lemma ExcludesByKept<E(!new), O(!new)>(q: Problem<E, O>, p: Pass, a: Pass, b: Pass)
    requires Excludes(q, p, a) && a.kept == b.kept
    ensures Excludes(q, p, b)
  {
  }

  ghost predicate MaskedOut<E(!new), O(!new)>(q: Problem<E, O>) {
    exists kept :: PassesMask(q, kept) && |kept| < q.config.minSatellites
  }

  /** The outcome of a call whose inputs were long enough. */
  ghost predicate Explains<E(!new), O(!new)>(q: Problem<E, O>, solution: Option<Solution>, trail: seq<Pass>) {
    match solution
    case Some(s) => Accepted(q, trail) && Reports(q, trail[|trail| - 1], s)
    case None => if trail == [] then MaskedOut(q) else GaveUp(q, trail)
  }
}
