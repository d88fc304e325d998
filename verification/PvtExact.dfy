/** What the position solver of Source/Pvt/GPSOpenClPVTSolver.cpp makes of measurements without error: ranges that the
  * linearisation predicts, and pseudoranges that all fit one state.
  */
module PvtExact {
  import opened Numbers
  import opened LeastSquares
  import opened PvtSolver

  // ----- measurements without error

  function PositionOf(t: Vec4): Ecef { Ecef(t.x0, t.x1, t.x2) }

  function Apparent(s: Sight, tropoEnabled: bool): real {
    s.range + s.ionoDelay + if tropoEnabled then s.tropoDelay else 0.0
  }

  /** Seen from one state, the range and the line of sight say the range from the other. */
  ghost predicate Predicts<E(!new), O(!new)>(p: Physics<E, O>, tropoEnabled: bool, orbit: O, time: real, from: Vec4,
                                             t: Vec4)
  {
    var here, there := p.sight(orbit, time, PositionOf(from)), p.sight(orbit, time, PositionOf(t));
    Apparent(there, tropoEnabled)
    == Apparent(here, tropoEnabled)
       - (here.ux * (t.x0 - from.x0) + here.uy * (t.x1 - from.x1) + here.uz * (t.x2 - from.x2))
  }

  ghost predicate Straight<E(!new), O(!new)>(p: Physics<E, O>, tropoEnabled: bool, orbit: O, time: real, t: Vec4) {
    forall from: Vec4 :: Predicts(p, tropoEnabled, orbit, time, from, t)
  }

  /** A satellite's pseudorange is its range, the receiver's clock, the delays, less the satellite's own clock. */
  ghost predicate Measured<E(!new), O(!new)>(p: Physics<E, O>, tropoEnabled: bool, ephemeris: E, pseudorange: real,
                                             time: real, t: Vec4)
  {
    var orbit := p.orbitAt(ephemeris, time);
    var s := p.sight(orbit, time, PositionOf(t));
    && Straight(p, tropoEnabled, orbit, time, t)
    && pseudorange == s.range + t.x3 - 299792458.0 * p.clockBias(orbit) + s.ionoDelay
                      + if tropoEnabled then s.tropoDelay else 0.0
  }

  /** Every satellite offered fits the state. */
  ghost predicate Exact<E(!new), O(!new)>(q: Problem<E, O>, t: Vec4) {
    forall i | 0 <= i < |q.offered| :: ExactAt(q, q.offered[i], t)
  }

  ghost predicate ExactAt<E(!new), O(!new)>(q: Problem<E, O>, s: Satellite<O>, t: Vec4) {
    && Straight(q.physics, q.config.tropoEnabled, s.orbit, s.time, t)
    && s.range == Apparent(q.physics.sight(s.orbit, s.time, PositionOf(t)), q.config.tropoEnabled) + t.x3
  }

  lemma MeasuredIsExact<E(!new), O(!new)>(solver: PVTSolver<E, O>, ephemerides: seq<E>, pseudoranges: seq<real>,
                                          times: seq<real>, t: Vec4)
    requires |pseudoranges| >= |ephemerides| && |times| >= |ephemerides|
    requires forall i | 0 <= i < |ephemerides| ::
               Measured(solver.physics, solver.config.tropoEnabled, ephemerides[i], pseudoranges[i], times[i], t)
    ensures Exact(solver.Posed(ephemerides, pseudoranges, times), t)
  {
    var q := solver.Posed(ephemerides, pseudoranges, times);
    forall i | 0 <= i < |q.offered| ensures ExactAt(q, q.offered[i], t) {
      assert Measured(solver.physics, solver.config.tropoEnabled, ephemerides[i], pseudoranges[i], times[i], t);
      assert q.offered[i] == solver.Offer(ephemerides[i], pseudoranges[i], times[i]);
    }
  }

  // ----- one step

  /** The observation is met by moving d. */
  ghost predicate Meets(o: Observation, d: Vec4) { o.y == Dot(o.h, d) }
  ghost predicate AllMeet(obs: seq<Observation>, d: Vec4) { forall i | 0 <= i < |obs| :: Meets(obs[i], d) }

  lemma ObservesMove<E(!new), O(!new)>(q: Problem<E, O>, s: Satellite<O>, from: Vec4, t: Vec4)
    requires ExactAt(q, s, t)
    ensures Meets(Observe(q.physics, q.config.tropoEnabled, s.orbit, s.range, s.time, from), Minus(t, from))
  {
    assert Predicts(q.physics, q.config.tropoEnabled, s.orbit, s.time, from, t);
  }

  lemma ObservationsMeet<E(!new), O(!new)>(q: Problem<E, O>, kept: seq<nat>, from: Vec4, t: Vec4)
    requires Increasing(kept, |q.offered|) && Exact(q, t)
    ensures AllMeet(ObservationsAt(q, kept, from), Minus(t, from))
    ensures NonNegativeWeights(ObservationsAt(q, kept, from))
  {
    var obs, d := ObservationsAt(q, kept, from), Minus(t, from);
    forall i | 0 <= i < |obs| ensures Meets(obs[i], d) {
      assert ExactAt(q, q.offered[kept[i]], t);
      ObservesMove(q, q.offered[kept[i]], from, t);
    }
    WeightsAreSquares(q.physics, q.config.tropoEnabled, Pick(q.offered, kept), from);
  }

  lemma {:induction false} NothingLeft(obs: seq<Observation>, d: Vec4)
    requires AllMeet(obs, d)
    ensures Cost(obs, d) == 0.0
  {
    if obs != [] {
      NothingLeft(obs[..|obs| - 1], d);
      assert Meets(obs[|obs| - 1], d);
      assert Weighted(obs[|obs| - 1].w, 0.0) == 0.0;
    }
  }

  lemma CostIsPositive(obs: seq<Observation>, d: Vec4)
    requires NonNegativeWeights(obs)
    ensures Cost(obs, d) >= 0.0
  {
    forall i | 0 <= i < |obs| ensures Under(CostTerm(d), NoTerm(), obs[i]) {
      Squares(obs[i].w, obs[i].y - Dot(obs[i].h, d));
    }
    SumPositive(obs, CostTerm(d), NoTerm());
  }

  /** Each step reaches the true state, wherever it starts. */
  lemma StepReaches<E(!new), O(!new)>(q: Problem<E, O>, kept: seq<nat>, from: Vec4, to: Vec4, t: Vec4)
    requires Increasing(kept, |q.offered|) && Exact(q, t) && GaussNewtonStep(q, kept, from, to)
    ensures to == t
  {
    var obs := ObservationsAt(q, kept, from);
    var d :| to == Plus(from, d) && UniqueMinimum(obs, d);
    ObservationsMeet(q, kept, from, t);
    NothingLeft(obs, Minus(t, from));
    CostIsPositive(obs, d);
    assert Cost(obs, d) <= Cost(obs, Minus(t, from));
  }

  // ----- what a step minimises, whatever was measured

  /** What the linearisation at one state leaves of a pseudorange if the receiver is in another. */
  function Left<E(!new), O(!new)>(q: Problem<E, O>, s: Satellite<O>, from: Vec4, to: Vec4): real {
    var sight := q.physics.sight(s.orbit, s.time, PositionOf(from));
    s.range - Apparent(sight, q.config.tropoEnabled) - to.x3
    + (sight.ux * (to.x0 - from.x0) + sight.uy * (to.x1 - from.x1) + sight.uz * (to.x2 - from.x2))
  }

  function WeightOf<E(!new), O(!new)>(q: Problem<E, O>, s: Satellite<O>, from: Vec4): real {
    var sine := q.physics.sight(s.orbit, s.time, PositionOf(from)).sinElevation;
    sine * sine
  }

  /** The sum of its squares, weighted by the square of the sine of each satellite's elevation. */
  function SquaresLeft<E(!new), O(!new)>(q: Problem<E, O>, sats: seq<Satellite<O>>, from: Vec4, to: Vec4): real {
    if sats == [] then 0.0
    else
      var last := sats[|sats| - 1];
      var e := Left(q, last, from, to);
      SquaresLeft(q, sats[..|sats| - 1], from, to) + WeightOf(q, last, from) * (e * e)
  }

  lemma ObservedLeft<E(!new), O(!new)>(q: Problem<E, O>, s: Satellite<O>, from: Vec4, d: Vec4)
    ensures var o := Observe(q.physics, q.config.tropoEnabled, s.orbit, s.range, s.time, from);
            o.w == WeightOf(q, s, from) && o.y - Dot(o.h, d) == Left(q, s, from, Plus(from, d))
  {
  }

  lemma {:induction false} CostIsSquares<E(!new), O(!new)>(q: Problem<E, O>, sats: seq<Satellite<O>>, from: Vec4,
                                                           d: Vec4)
    ensures Cost(Observations(q.physics, q.config.tropoEnabled, sats, from), d)
         == SquaresLeft(q, sats, from, Plus(from, d))
  {
    if sats != [] {
      var n := |sats| - 1;
      var obs := Observations(q.physics, q.config.tropoEnabled, sats, from);
      CostIsSquares(q, sats[..n], from, d);
      ObservedLeft(q, sats[n], from, d);
      assert obs[..n] == Observations(q.physics, q.config.tropoEnabled, sats[..n], from);
      WeightedIs(obs[n], d, WeightOf(q, sats[n], from), Left(q, sats[n], from, Plus(from, d)));
    }
  }

  lemma WeightedIs(o: Observation, d: Vec4, w: real, e: real)
    requires o.w == w && o.y - Dot(o.h, d) == e
    ensures CostTerm(d)(o) == w * (e * e)
  {
  }

  /** A step goes to the one state that leaves the least. */
  lemma StepLeavesLeast<E(!new), O(!new)>(q: Problem<E, O>, kept: seq<nat>, from: Vec4, to: Vec4, other: Vec4)
    requires Increasing(kept, |q.offered|) && GaussNewtonStep(q, kept, from, to)
    ensures var sats := Pick(q.offered, kept);
            && SquaresLeft(q, sats, from, to) <= SquaresLeft(q, sats, from, other)
            && (SquaresLeft(q, sats, from, other) == SquaresLeft(q, sats, from, to) ==> other == to)
  {
    var obs, sats := ObservationsAt(q, kept, from), Pick(q.offered, kept);
    var d :| to == Plus(from, d) && UniqueMinimum(obs, d);
    var e := Minus(other, from);
    CostIsSquares(q, sats, from, d);
    CostIsSquares(q, sats, from, e);
    assert Plus(from, e) == other;
    assert Cost(obs, d) <= Cost(obs, e) && (Cost(obs, e) == Cost(obs, d) ==> e == d);
  }

  // ----- one pass

  /** The reference is less than a tenth of a millimetre from the true position. */
  ghost predicate Near(reference: Ecef, t: Vec4) {
    var x, y, z := t.x0 - reference.x, t.x1 - reference.y, t.x2 - reference.z;
    x * x + y * y + z * z < 0.0001 * 0.0001
  }

  lemma StepStops(reference: Ecef, t: Vec4)
    ensures StopTest()(StartOf(reference), t) <==> Near(reference, t)
  {
    var d := Minus(t, StartOf(reference));
    assert SquaredStep(d) == d.x0 * d.x0 + d.x1 * d.x1 + d.x2 * d.x2;
  }

  lemma StatesReach<E(!new), O(!new)>(q: Problem<E, O>, p: Pass, t: Vec4, k: nat)
    requires IsPass(q, p) && Exact(q, t) && k < |p.states|
    ensures p.states[k] == if k == 0 then StartOf(q.reference) else t
  {
    if k > 0 {
      assert StepAt(q, p.kept, p.states, k);
      StepReaches(q, p.kept, p.states[k - 1], p.states[k], t);
    }
  }

  /** Whether a step is small, as a value. */
  ghost function StopTest(): (Vec4, Vec4) -> bool { (a: Vec4, b: Vec4) => Small(a, b) }

  /** The states are the start and then t, with the pivot test passed at either as given. */
  ghost predicate GoesAlong(states: seq<Vec4>, start: Vec4, t: Vec4, stops: (Vec4, Vec4) -> bool, atStart: bool,
                            atTruth: bool)
  {
    && |states| >= 1 && states[0] == start
    && forall k | 1 <= k < |states| :: MovedAt(states, start, t, stops, atStart, atTruth, k)
  }

  ghost predicate MovedAt(states: seq<Vec4>, start: Vec4, t: Vec4, stops: (Vec4, Vec4) -> bool, atStart: bool,
                          atTruth: bool, k: nat)
    requires 1 <= k < |states|
  {
    && states[k] == t && (if k == 1 then atStart else atTruth)
    && (k >= 2 ==> !stops(if k == 2 then start else t, t))
  }

  /** The end is what the last of them says. */
  ghost predicate EndsAlong(states: seq<Vec4>, end: End, start: Vec4, t: Vec4, stops: (Vec4, Vec4) -> bool,
                            atStart: bool, atTruth: bool)
  {
    && GoesAlong(states, start, t, stops, atStart, atTruth)
    && (end == Settled <==> |states| >= 2 && stops(if |states| == 2 then start else t, t))
    && (end == Singular ==> !if |states| == 1 then atStart else atTruth)
    && (end == Wandering ==> |states| == ITERATIONS + 1)
  }

  lemma PassGoesAlong<E(!new), O(!new)>(q: Problem<E, O>, p: Pass, t: Vec4)
    requires IsPass(q, p) && Exact(q, t)
    ensures GoesAlong(p.states, StartOf(q.reference), t, StopTest(), SolvableAt(q, p.kept, StartOf(q.reference)),
                      SolvableAt(q, p.kept, t))
  {
    StatesReach(q, p, t, 0);
    forall k | 1 <= k < |p.states|
      ensures MovedAt(p.states, StartOf(q.reference), t, StopTest(), SolvableAt(q, p.kept, StartOf(q.reference)),
                      SolvableAt(q, p.kept, t), k)
    {
      Moved(q, p, t, k);
    }
  }

  lemma Moved<E(!new), O(!new)>(q: Problem<E, O>, p: Pass, t: Vec4, k: nat)
    requires IsPass(q, p) && Exact(q, t) && 1 <= k < |p.states|
    ensures p.states[k] == t && p.states[k - 1] == if k == 1 then StartOf(q.reference) else t
    ensures SolvableAt(q, p.kept, p.states[k - 1])
    ensures k >= 2 ==> !Small(if k == 2 then StartOf(q.reference) else t, t)
  {
    StatesReach(q, p, t, k);
    StatesReach(q, p, t, k - 1);
    if k >= 2 { StatesReach(q, p, t, k - 2); }
    GoesOn(q, p, k);
  }

  /** What the end of a pass says of its last states. */
  lemma EndSays<E(!new), O(!new)>(q: Problem<E, O>, p: Pass)
    requires IsPass(q, p)
    ensures p.end == Settled <==> |p.states| >= 2 && StopTest()(p.states[|p.states| - 2], p.states[|p.states| - 1])
    ensures p.end == Wandering ==> |p.states| == ITERATIONS + 1
  {
  }

  lemma SingularSays<E(!new), O(!new)>(q: Problem<E, O>, p: Pass, t: Vec4)
    requires IsPass(q, p) && Exact(q, t) && p.end == Singular
    ensures |p.states| >= 1
    ensures !SolvableAt(q, p.kept, if |p.states| == 1 then StartOf(q.reference) else t)
  {
    StatesReach(q, p, t, |p.states| - 1);
  }

  lemma EndsFrom(states: seq<Vec4>, end: End, start: Vec4, t: Vec4, stops: (Vec4, Vec4) -> bool, atStart: bool,
                 atTruth: bool)
    requires GoesAlong(states, start, t, stops, atStart, atTruth)
    requires end == Settled <==> |states| >= 2 && stops(states[|states| - 2], states[|states| - 1])
    requires end == Singular ==> !if |states| == 1 then atStart else atTruth
    requires end == Wandering ==> |states| == ITERATIONS + 1
    ensures EndsAlong(states, end, start, t, stops, atStart, atTruth)
  {
    var n := |states|;
    if n >= 2 { assert MovedAt(states, start, t, stops, atStart, atTruth, n - 1); }
    if n >= 3 { assert MovedAt(states, start, t, stops, atStart, atTruth, n - 2); }
  }

  lemma PassEndsAlong<E(!new), O(!new)>(q: Problem<E, O>, p: Pass, t: Vec4)
    requires IsPass(q, p) && Exact(q, t)
    ensures EndsAlong(p.states, p.end, StartOf(q.reference), t, StopTest(),
                      SolvableAt(q, p.kept, StartOf(q.reference)), SolvableAt(q, p.kept, t))
  {
    PassGoesAlong(q, p, t);
    EndSays(q, p);
    if p.end == Singular { SingularSays(q, p, t); }
    EndsFrom(p.states, p.end, StartOf(q.reference), t, StopTest(), SolvableAt(q, p.kept, StartOf(q.reference)),
             SolvableAt(q, p.kept, t));
  }

  lemma AtMostThree(states: seq<Vec4>, start: Vec4, t: Vec4, stops: (Vec4, Vec4) -> bool, atStart: bool, atTruth: bool)
    requires GoesAlong(states, start, t, stops, atStart, atTruth) && stops(t, t)
    ensures |states| <= 3 && (|states| >= 2 ==> states[1] == t && atStart)
    ensures |states| == 3 ==> states[2] == t && !stops(start, t) && atTruth
  {
    if |states| > 1 { assert MovedAt(states, start, t, stops, atStart, atTruth, 1); }
    if |states| > 2 { assert MovedAt(states, start, t, stops, atStart, atTruth, 2); }
    var fourth := |states| > 3 && MovedAt(states, start, t, stops, atStart, atTruth, 3);
  }

  /** The state a pass takes its last residuals at. */
  function LastSeenFrom(near: bool, start: Vec4, t: Vec4): Vec4 { if near then start else t }

  /** How a pass can go: it starts, steps to t and stays there. */
  ghost predicate Goes(states: seq<Vec4>, end: End, start: Vec4, t: Vec4, near: bool, atStart: bool, atTruth: bool) {
    && end != Wandering && (end == Settled <==> atStart && (near || atTruth))
    && (end == Settled ==>
        |states| >= 2 && states[|states| - 1] == t && states[|states| - 2] == LastSeenFrom(near, start, t))
  }

  lemma ShapeOf(states: seq<Vec4>, end: End, start: Vec4, t: Vec4, stops: (Vec4, Vec4) -> bool, atStart: bool,
                atTruth: bool)
    requires EndsAlong(states, end, start, t, stops, atStart, atTruth) && stops(t, t)
    ensures Goes(states, end, start, t, stops(start, t), atStart, atTruth)
  {
    AtMostThree(states, start, t, stops, atStart, atTruth);
  }

  lemma StaysStopped(t: Vec4)
    ensures StopTest()(t, t)
  {
  }

  /** A pass settles at the true state exactly when no pivot fails on the way. */
  lemma PassGoes<E(!new), O(!new)>(q: Problem<E, O>, p: Pass, t: Vec4)
    requires IsPass(q, p) && Exact(q, t)
    ensures Goes(p.states, p.end, StartOf(q.reference), t, StopTest()(StartOf(q.reference), t),
                 SolvableAt(q, p.kept, StartOf(q.reference)), SolvableAt(q, p.kept, t))
  {
    PassEndsAlong(q, p, t);
    StaysStopped(t);
    ShapeOf(p.states, p.end, StartOf(q.reference), t, StopTest(), SolvableAt(q, p.kept, StartOf(q.reference)),
            SolvableAt(q, p.kept, t));
  }

  // ----- the gate

  /** What is left of a satellite's pseudorange when the receiver is taken to be in a state. */
  function Misfit<E(!new), O(!new)>(q: Problem<E, O>, s: Satellite<O>, from: Vec4): real {
    s.range - Apparent(q.physics.sight(s.orbit, s.time, PositionOf(from)), q.config.tropoEnabled) - from.x3
  }

  ghost function Misfits<E(!new), O(!new)>(q: Problem<E, O>, kept: seq<nat>, from: Vec4): (r: seq<real>)
    requires Increasing(kept, |q.offered|)
    ensures |r| == |kept| && forall i | 0 <= i < |kept| :: r[i] == Misfit(q, q.offered[kept[i]], from)
  {
    seq(|kept|, i requires 0 <= i < |kept| => Misfit(q, q.offered[kept[i]], from))
  }

  lemma ResidualsAreMisfits<E(!new), O(!new)>(q: Problem<E, O>, p: Pass, from: Vec4)
    requires IsPass(q, p) && |p.states| >= 2 && from == p.states[|p.states| - 2]
    ensures Residuals(q, p) == Misfits(q, p.kept, from)
  {
  }

  lemma NoMisfitAtTruth<E(!new), O(!new)>(q: Problem<E, O>, kept: seq<nat>, t: Vec4)
    requires Increasing(kept, |q.offered|) && Exact(q, t)
    ensures forall i | 0 <= i < |kept| :: Misfits(q, kept, t)[i] == 0.0
  {
    forall i | 0 <= i < |kept| ensures Misfits(q, kept, t)[i] == 0.0 {
      assert ExactAt(q, q.offered[kept[i]], t);
    }
  }

  /** The residuals that are judged: those at the start when it is near, else none. */
  ghost function Judged<E(!new), O(!new)>(q: Problem<E, O>, kept: seq<nat>, near: bool): (r: seq<real>)
    requires Increasing(kept, |q.offered|)
  {
    if near then Misfits(q, kept, StartOf(q.reference)) else seq(|kept|, i => 0.0)
  }

  /** A pass settles exactly when no pivot fails on the way, and then has these residuals. */
  ghost predicate Follows<E(!new), O(!new)>(q: Problem<E, O>, p: Pass, t: Vec4, near: bool)
    requires IsPass(q, p)
  {
    && p.end != Wandering
    && (p.end == Settled <==>
        SolvableAt(q, p.kept, StartOf(q.reference)) && (near || SolvableAt(q, p.kept, t)))
    && (p.end == Settled ==> |p.states| >= 2 && Residuals(q, p) == Judged(q, p.kept, near))
  }

  lemma JudgedIs<E(!new), O(!new)>(q: Problem<E, O>, kept: seq<nat>, t: Vec4, near: bool)
    requires Increasing(kept, |q.offered|) && Exact(q, t)
    ensures Misfits(q, kept, LastSeenFrom(near, StartOf(q.reference), t)) == Judged(q, kept, near)
  {
    NoMisfitAtTruth(q, kept, t);
  }

  lemma FollowsFrom<E(!new), O(!new)>(q: Problem<E, O>, p: Pass, t: Vec4, near: bool, from: Vec4)
    requires IsPass(q, p)
    requires Goes(p.states, p.end, StartOf(q.reference), t, near, SolvableAt(q, p.kept, StartOf(q.reference)),
                  SolvableAt(q, p.kept, t))
    requires from == LastSeenFrom(near, StartOf(q.reference), t) && Misfits(q, p.kept, from) == Judged(q, p.kept, near)
    ensures Follows(q, p, t, near)
  {
    if p.end == Settled {
      ResidualsAreMisfits(q, p, from);
    }
  }

  lemma PassFollows<E(!new), O(!new)>(q: Problem<E, O>, p: Pass, t: Vec4)
    requires IsPass(q, p) && Exact(q, t)
    ensures Follows(q, p, t, StopTest()(StartOf(q.reference), t))
  {
    var near := StopTest()(StartOf(q.reference), t);
    PassGoes(q, p, t);
    JudgedIs(q, p.kept, t, near);
    FollowsFrom(q, p, t, near, LastSeenFrom(near, StartOf(q.reference), t));
  }

  /** Every pass of the call goes so. */
  ghost predicate AllFollow<E(!new), O(!new)>(q: Problem<E, O>, t: Vec4, near: bool) {
    forall p: Pass | IsPass(q, p) :: Follows(q, p, t, near)
  }

  lemma PassesFollow<E(!new), O(!new)>(q: Problem<E, O>, t: Vec4)
    requires Exact(q, t)
    ensures AllFollow(q, t, StopTest()(StartOf(q.reference), t))
  {
    var near := StopTest()(StartOf(q.reference), t);
    forall p: Pass | IsPass(q, p) ensures Follows(q, p, t, near) {
      PassFollows(q, p, t);
    }
  }

  lemma AllPassesFollow<E(!new), O(!new)>(q: Problem<E, O>, t: Vec4)
    requires Exact(q, t)
    ensures AllFollow(q, t, Near(q.reference, t))
  {
    PassesFollow(q, t);
    StepStops(q.reference, t);
  }

  /** A pass is accepted exactly when no pivot fails on the way and, of a receiver still at its reference, every
    * misfit there is within the limit. */
  lemma FitsIff<E(!new), O(!new)>(q: Problem<E, O>, p: Pass, t: Vec4, near: bool)
    requires AllFollow(q, t, near) && IsPass(q, p)
    ensures Fits(q, p) <==>
            && SolvableAt(q, p.kept, StartOf(q.reference)) && (near || SolvableAt(q, p.kept, t))
            && WithinLimit(Judged(q, p.kept, near), q.config.maxPseudorangeErr)
  {
    assert Follows(q, p, t, near);
  }

  // ----- the call

  /** Whatever is reported is the true state. */
  lemma FixIsExact<E(!new), O(!new)>(q: Problem<E, O>, t: Vec4, trail: seq<Pass>, s: Solution)
    requires Exact(q, t) && Accepted(q, trail) && Reports(q, trail[|trail| - 1], s)
    ensures s.position == PositionOf(t) && s.clockBias == t.x3 && s.clockBiasSeconds == t.x3 / 299792458.0
  {
    PassGoes(q, trail[|trail| - 1], t);
  }

  /** No choice of enough satellites fails the pivot test. */
  ghost predicate AlwaysSolvable<E(!new), O(!new)>(q: Problem<E, O>, t: Vec4) {
    forall kept | Increasing(kept, |q.offered|) && |kept| >= q.config.minSatellites :: SolvableBoth(q, kept, t)
  }

  ghost predicate SolvableBoth<E(!new), O(!new)>(q: Problem<E, O>, kept: seq<nat>, t: Vec4)
    requires Increasing(kept, |q.offered|)
  {
    SolvableAt(q, kept, StartOf(q.reference)) && SolvableAt(q, kept, t)
  }

  /** How many of these are beyond the limit. */
  function Beyond(r: seq<real>, limit: real): (n: nat) {
    if r == [] then 0 else Beyond(r[..|r| - 1], limit) + if Abs(r[|r| - 1]) > limit then 1 else 0
  }

  lemma {:induction false} BeyondOfConcat(a: seq<real>, b: seq<real>, limit: real)
    ensures Beyond(a + b, limit) == Beyond(a, limit) + Beyond(b, limit)
  {
    if b == [] {
      assert a + b == a;
    } else {
      assert (a + b)[..|a + b| - 1] == a + b[..|b| - 1];
      BeyondOfConcat(a, b[..|b| - 1], limit);
    }
  }

  lemma BeyondWithout(r: seq<real>, w: nat, limit: real)
    requires w < |r| && Abs(r[w]) > limit
    ensures Beyond(Without(r, w), limit) == Beyond(r, limit) - 1
  {
    BeyondOfConcat(r[..w], r[w + 1..], limit);
    BeyondOfConcat(r[..w], [r[w]], limit);
    BeyondOfConcat(r[..w] + [r[w]], r[w + 1..], limit);
    assert r == r[..w] + [r[w]] + r[w + 1..];
    assert Beyond([r[w]], limit) == 1 by { assert [r[w]][..0] == []; }
  }

  lemma {:induction false} NoneBeyond(r: seq<real>, limit: real)
    requires limit >= 0.0
    ensures Beyond(r, limit) == 0 <==> WithinLimit(r, limit)
  {
    if r != [] {
      NoneBeyond(r[..|r| - 1], limit);
      assert WithinLimit(r, limit) ==> WithinLimit(r[..|r| - 1], limit);
    }
  }

  /** How many misfits are judged to be beyond the limit. */
  ghost function BeyondOf<E(!new), O(!new)>(q: Problem<E, O>, kept: seq<nat>, near: bool): nat
    requires Increasing(kept, |q.offered|)
  {
    Beyond(Judged(q, kept, near), q.config.maxPseudorangeErr)
  }

  lemma PassSettles<E(!new), O(!new)>(q: Problem<E, O>, p: Pass, t: Vec4, near: bool)
    requires AllFollow(q, t, near) && AlwaysSolvable(q, t) && IsPass(q, p) && |p.kept| >= q.config.minSatellites
    ensures p.end == Settled && Residuals(q, p) == Judged(q, p.kept, near)
    ensures q.config.maxPseudorangeErr >= 0.0 ==> (Fits(q, p) <==> BeyondOf(q, p.kept, near) == 0)
  {
    assert SolvableBoth(q, p.kept, t) && Follows(q, p, t, near);
    FitsIff(q, p, t, near);
    if q.config.maxPseudorangeErr >= 0.0 {
      NoneBeyond(Judged(q, p.kept, near), q.config.maxPseudorangeErr);
    }
  }

  lemma JudgedWithout<E(!new), O(!new)>(q: Problem<E, O>, kept: seq<nat>, w: nat, near: bool)
    requires Increasing(kept, |q.offered|) && w < |kept|
    ensures Increasing(Without(kept, w), |q.offered|)
    ensures Judged(q, Without(kept, w), near) == Without(Judged(q, kept, near), w)
  {
    WithoutIncreases(kept, w, |q.offered|);
  }

  /** An exclusion drops one that was beyond the limit. */
  lemma ExclusionDropsBeyond<E(!new), O(!new)>(q: Problem<E, O>, p: Pass, next: Pass, t: Vec4, near: bool)
    requires AllFollow(q, t, near) && AlwaysSolvable(q, t) && Excludes(q, p, next)
    requires q.config.maxPseudorangeErr >= 0.0
    ensures Increasing(next.kept, |q.offered|) && BeyondOf(q, next.kept, near) == BeyondOf(q, p.kept, near) - 1
  {
    PassSettles(q, p, t, near);
    var worst :| IsWorst(Residuals(q, p), worst) && next.kept == Without(p.kept, worst);
    WorstIsBeyond(Residuals(q, p), worst, q.config.maxPseudorangeErr);
    BeyondWithout(Residuals(q, p), worst, q.config.maxPseudorangeErr);
    JudgedWithout(q, p.kept, worst, near);
  }

  lemma WorstIsBeyond(r: seq<real>, worst: nat, limit: real)
    requires IsWorst(r, worst) && limit >= 0.0 && !WithinLimit(r, limit)
    ensures Abs(r[worst]) > limit
  {
  }

  lemma BeyondDrops<E(!new), O(!new)>(q: Problem<E, O>, trail: seq<Pass>, t: Vec4, near: bool, i: nat)
    requires AllFollow(q, t, near) && AlwaysSolvable(q, t) && History(q, trail) && 0 < i < |trail|
    requires q.config.maxPseudorangeErr >= 0.0
    ensures Increasing(trail[i - 1].kept, |q.offered|) && Increasing(trail[i].kept, |q.offered|)
    ensures BeyondOf(q, trail[i].kept, near) == BeyondOf(q, trail[i - 1].kept, near) - 1
  {
    HistoryAt(q, trail, i);
    ExclusionDropsBeyond(q, trail[i - 1], trail[i], t, near);
  }

  /** Pass i judges one less beyond the limit than the pass before it. */
  ghost predicate Drops<E(!new), O(!new)>(q: Problem<E, O>, trail: seq<Pass>, near: bool, i: nat)
    requires 0 < i < |trail|
  {
    && Increasing(trail[i - 1].kept, |q.offered|) && Increasing(trail[i].kept, |q.offered|)
    && BeyondOf(q, trail[i].kept, near) == BeyondOf(q, trail[i - 1].kept, near) - 1
  }

  lemma {:induction false} BeyondFalls<E(!new), O(!new)>(q: Problem<E, O>, trail: seq<Pass>, near: bool, i: nat)
    requires i < |trail| && Increasing(trail[0].kept, |q.offered|)
    requires forall k: nat | 0 < k < |trail| :: Drops(q, trail, near, k)
    ensures Increasing(trail[i].kept, |q.offered|)
    ensures BeyondOf(q, trail[i].kept, near) == BeyondOf(q, trail[0].kept, near) - i
  {
    if i > 0 {
      BeyondFalls(q, trail, near, i - 1);
      assert Drops(q, trail, near, i);
    }
  }

  /** The first pass runs over the satellites that pass the mask. */
  lemma FirstKept<E(!new), O(!new)>(q: Problem<E, O>, kept: seq<nat>, solution: Option<Solution>, trail: seq<Pass>)
    requires Explains(q, solution, trail) && PassesMask(q, kept) && |kept| >= q.config.minSatellites
    ensures History(q, trail) && trail[0].kept == kept
    ensures if solution.Some? then Accepted(q, trail) else GaveUp(q, trail)
  {
    if trail == [] {
      var few :| PassesMask(q, few) && |few| < q.config.minSatellites;
      MaskIsUnique(q, kept, few);
      assert false;
    }
    MaskIsUnique(q, kept, trail[0].kept);
  }

  lemma LastPass<E(!new), O(!new)>(q: Problem<E, O>, trail: seq<Pass>)
    requires History(q, trail)
    ensures var last := trail[|trail| - 1];
            && IsPass(q, last) && |last.kept| == |trail[0].kept| - (|trail| - 1)
            && |last.kept| >= q.config.minSatellites + if |trail| > 1 then 1 else 0
  {
    HistoryAt(q, trail, |trail| - 1);
    ExclusionsCount(q, trail, |trail| - 1);
  }

  /** How a call with measurements without error ends. */
  lemma EndOfCall<E(!new), O(!new)>(q: Problem<E, O>, t: Vec4, near: bool, trail: seq<Pass>)
    requires AllFollow(q, t, near) && AlwaysSolvable(q, t) && Complete(q, trail)
    ensures Increasing(trail[0].kept, |q.offered|)
    ensures var n, beyond := |trail[0].kept|, BeyondOf(q, trail[0].kept, near);
            && (Accepted(q, trail) <==>
                q.config.maxPseudorangeErr >= 0.0 && (beyond == 0 || n >= beyond + q.config.minSatellites + 1))
            && (Accepted(q, trail) ==> |trail[|trail| - 1].kept| == n - beyond)
  {
    var last := trail[|trail| - 1];
    LastPass(q, trail);
    PassSettles(q, last, t, near);
    NotBoth(q, trail);
    HistoryAt(q, trail, 0);
    if q.config.maxPseudorangeErr >= 0.0 {
      forall k: nat | 0 < k < |trail| ensures Drops(q, trail, near, k) {
        BeyondDrops(q, trail, t, near, k);
      }
      BeyondFalls(q, trail, near, |trail| - 1);
    }
  }

  /** Measurements without error give a fix exactly when enough satellites are left without those whose misfit is
    * judged to be beyond the limit, and the fix is the true state. */
  lemma FixIff<E(!new), O(!new)>(q: Problem<E, O>, t: Vec4, kept: seq<nat>, solution: Option<Solution>,
                                 trail: seq<Pass>)
    requires Exact(q, t) && AlwaysSolvable(q, t) && Explains(q, solution, trail)
    requires PassesMask(q, kept) && |kept| >= q.config.minSatellites
    ensures var beyond := BeyondOf(q, kept, Near(q.reference, t));
            && (solution.Some? <==>
                && q.config.maxPseudorangeErr >= 0.0
                && (beyond == 0 || |kept| >= beyond + q.config.minSatellites + 1))
            && (solution.Some? ==> solution.value.satellitesUsed == |kept| - beyond)
  {
    FirstKept(q, kept, solution, trail);
    AllPassesFollow(q, t);
    EndOfCall(q, t, Near(q.reference, t), trail);
    NotBoth(q, trail);
  }

  lemma NoneBeyondTruth(r: seq<real>, limit: real)
    requires limit >= 0.0 && forall i | 0 <= i < |r| :: r[i] == 0.0
    ensures Beyond(r, limit) == 0
  {
    NoneBeyond(r, limit);
  }

  /** Pseudoranges that all fit one state, more than a tenth of a millimetre from the reference, give that state. */
  lemma MovedReceiverIsFixed<E(!new), O(!new)>(solver: PVTSolver<E, O>, ephemerides: seq<E>, pseudoranges: seq<real>,
                                               times: seq<real>, t: Vec4, kept: seq<nat>, solution: Option<Solution>,
                                               trail: seq<Pass>)
    requires |pseudoranges| >= |ephemerides| && |times| >= |ephemerides|
    requires forall i | 0 <= i < |ephemerides| ::
               Measured(solver.physics, solver.config.tropoEnabled, ephemerides[i], pseudoranges[i], times[i], t)
    requires var q := solver.Posed(ephemerides, pseudoranges, times);
             && AlwaysSolvable(q, t) && PassesMask(q, kept) && |kept| >= solver.config.minSatellites
             && Explains(q, solution, trail)
    requires !Near(solver.referenceEcef, t) && solver.config.maxPseudorangeErr >= 0.0
    ensures solution.Some? && solution.value.satellitesUsed == |kept|
    ensures solution.value.position == Ecef(t.x0, t.x1, t.x2) && solution.value.clockBias == t.x3
  {
    var q := solver.Posed(ephemerides, pseudoranges, times);
    MeasuredIsExact(solver, ephemerides, pseudoranges, times, t);
    FixIff(q, t, kept, solution, trail);
    NoneBeyondTruth(Judged(q, kept, false), q.config.maxPseudorangeErr);
    FixIsExact(q, t, trail, solution.value);
  }

  lemma {:induction false} AllOrNoneBeyond(r: seq<real>, v: real, limit: real)
    requires forall i | 0 <= i < |r| :: r[i] == v
    ensures Beyond(r, limit) == if Abs(v) > limit then |r| else 0
  {
    if r != [] {
      AllOrNoneBeyond(r[..|r| - 1], v, limit);
    }
  }

  lemma ClockIsTheMisfit<E(!new), O(!new)>(q: Problem<E, O>, kept: seq<nat>, t: Vec4)
    requires Increasing(kept, |q.offered|) && Exact(q, t) && PositionOf(t) == q.reference
    ensures forall i | 0 <= i < |kept| :: Misfits(q, kept, StartOf(q.reference))[i] == t.x3
  {
    forall i | 0 <= i < |kept| ensures Misfits(q, kept, StartOf(q.reference))[i] == t.x3 {
      assert ExactAt(q, q.offered[kept[i]], t);
    }
  }

  lemma NearItself(t: Vec4)
    ensures Near(PositionOf(t), t)
  {
  }

  /** A receiver that stands at its reference is fixed exactly when its clock error is within the limit on residuals:
    * they are those of the start, whose clock is zero. */
  lemma StillReceiverIff<E(!new), O(!new)>(q: Problem<E, O>, t: Vec4, kept: seq<nat>, solution: Option<Solution>,
                                           trail: seq<Pass>)
    requires Exact(q, t) && AlwaysSolvable(q, t) && Explains(q, solution, trail)
    requires PassesMask(q, kept) && |kept| >= q.config.minSatellites && kept != []
    requires PositionOf(t) == q.reference
    ensures solution.Some? <==> Abs(t.x3) <= q.config.maxPseudorangeErr
  {
    NearItself(t);
    FixIff(q, t, kept, solution, trail);
    ClockIsTheMisfit(q, kept, t);
    AllOrNoneBeyond(Misfits(q, kept, StartOf(q.reference)), t.x3, q.config.maxPseudorangeErr);
  }

  // ----- the pivot test: the elimination looks at its left half only

  function LeftCleaned(m: Mat4, i: nat, k: nat): Mat4
    requires i < 4 && k <= 4
  {
    if k == 0 then m
    else
      var b := LeftCleaned(m, i, k - 1);
      if k - 1 == i then b else b.SetRow(k - 1, Cancelled(b.Row(k - 1), i, b.Row(i)))
  }

  lemma {:induction false} CleanedLeft(a: Augmented, i: nat, k: nat)
    requires i < 4 && k <= 4
    ensures Cleaned(a, i, k).left == LeftCleaned(a.left, i, k)
  {
    if k > 0 { CleanedLeft(a, i, k - 1); }
  }

  function LeftEliminated(m: Mat4, i: nat): Mat4
    requires i < 4 && m.Row(i).At(i) != 0.0
  {
    LeftCleaned(m.SetRow(i, Times(1.0 / m.Row(i).At(i), m.Row(i))), i, 4)
  }

  lemma {:induction false} LeftRow(m: Mat4, i: nat, k: nat, r: nat)
    requires i < 4 && k <= 4 && r < 4
    ensures LeftCleaned(m, i, k).Row(r)
         == if r < k && r != i then Cancelled(m.Row(r), i, m.Row(i)) else m.Row(r)
  {
    if k > 0 {
      LeftRow(m, i, k - 1, r);
      LeftRow(m, i, k - 1, i);
      SetRowRow(LeftCleaned(m, i, k - 1), k - 1, Cancelled(LeftCleaned(m, i, k - 1).Row(k - 1), i, m.Row(i)), r);
    }
  }

  function Cancelled(v: Vec4, i: nat, row: Vec4): Vec4
    requires i < 4
  {
    Minus(v, Times(v.At(i), row))
  }

  /** The rows after eliminating column i, whose row divided by its pivot is v. */
  lemma LeftRows(m: Mat4, i: nat, v: Vec4, n: Mat4)
    requires i < 4 && m.Row(i).At(i) != 0.0 && v == Times(1.0 / m.Row(i).At(i), m.Row(i))
    requires forall r: nat | r < 4 :: n.Row(r) == if r == i then v else Cancelled(m.Row(r), i, v)
    ensures LeftEliminated(m, i) == n
  {
    var w := m.SetRow(i, v);
    SetRowRow(m, i, v, i);
    forall r: nat | r < 4 ensures LeftCleaned(w, i, 4).Row(r) == n.Row(r) {
      LeftRow(w, i, 4, r);
      SetRowRow(m, i, v, r);
    }
    SameRows(LeftCleaned(w, i, 4), n);
  }

  lemma SameRows(a: Mat4, b: Mat4)
    requires forall r: nat | r < 4 :: a.Row(r) == b.Row(r)
    ensures a == b
  {
    assert a.Row(0) == b.Row(0) && a.Row(1) == b.Row(1) && a.Row(2) == b.Row(2) && a.Row(3) == b.Row(3);
  }

  /** A column whose largest entry is its first. */
  lemma ColumnInPlace(a: Augmented, i: nat)
    requires i < 4 && forall t | i <= t < 4 :: Abs(a.left.Row(t).At(i)) <= Abs(a.left.Row(i).At(i))
    ensures NextColumn(a, i).Some? <==> Abs(a.left.Row(i).At(i)) >= 0.000000000001
    ensures NextColumn(a, i).Some? ==> NextColumn(a, i).value.left == LeftEliminated(a.left, i)
  {
    var p := PivotRow(a, i, 4);
    assert a.At(p, i) == a.left.Row(p).At(i) && a.At(i, i) == a.left.Row(i).At(i);
    assert p == i;
    if Abs(a.At(i, i)) >= PIVOT_LIMIT {
      CleanedLeft(Scaled(a, i, 1.0 / a.At(i, i)), i, 4);
    }
  }

  lemma ReductionOn(m: Mat4, i: nat, left: Mat4)
    requires i < 4 && Reduction(m, i).Some? && Reduction(m, i).value.left == left
    requires forall t | i <= t < 4 :: Abs(left.Row(t).At(i)) <= Abs(left.Row(i).At(i))
    ensures Reduction(m, i + 1).Some? <==> Abs(left.Row(i).At(i)) >= 0.000000000001
    ensures Reduction(m, i + 1).Some? ==> Reduction(m, i + 1).value.left == LeftEliminated(left, i)
  {
    ColumnInPlace(Reduction(m, i).value, i);
  }

  function Diagonal(a: real, b: real, c: real, d: real): Mat4 {
    Mat4(Vec4(a, 0.0, 0.0, 0.0), Vec4(0.0, b, 0.0, 0.0), Vec4(0.0, 0.0, c, 0.0), Vec4(0.0, 0.0, 0.0, d))
  }

  function DiagonalAfter(a: real, b: real, c: real, d: real, i: nat): Mat4 {
    Diagonal(if i > 0 then 1.0 else a, if i > 1 then 1.0 else b, if i > 2 then 1.0 else c, if i > 3 then 1.0 else d)
  }

  lemma DiagonalColumn(a: real, b: real, c: real, d: real, i: nat)
    requires i < 4 && DiagonalAfter(a, b, c, d, i).Row(i).At(i) != 0.0
    ensures LeftEliminated(DiagonalAfter(a, b, c, d, i), i) == DiagonalAfter(a, b, c, d, i + 1)
  {
    var m := DiagonalAfter(a, b, c, d, i);
    var pivot := m.Row(i).At(i);
    assert 1.0 / pivot * pivot == 1.0;
    LeftRows(m, i, Times(1.0 / pivot, m.Row(i)), DiagonalAfter(a, b, c, d, i + 1));
  }

  predicate PassesSoFar(a: real, b: real, c: real, d: real, i: nat) {
    && (i > 0 ==> Abs(a) >= 0.000000000001) && (i > 1 ==> Abs(b) >= 0.000000000001)
    && (i > 2 ==> Abs(c) >= 0.000000000001) && (i > 3 ==> Abs(d) >= 0.000000000001)
  }

  lemma {:induction false} DiagonalReduces(a: real, b: real, c: real, d: real, i: nat)
    requires i <= 4
    ensures Reduction(Diagonal(a, b, c, d), i).Some? <==> PassesSoFar(a, b, c, d, i)
    ensures Reduction(Diagonal(a, b, c, d), i).Some? ==>
              Reduction(Diagonal(a, b, c, d), i).value.left == DiagonalAfter(a, b, c, d, i)
  {
    if i > 0 {
      DiagonalReduces(a, b, c, d, i - 1);
      if Reduction(Diagonal(a, b, c, d), i - 1).Some? {
        ReductionOn(Diagonal(a, b, c, d), i - 1, DiagonalAfter(a, b, c, d, i - 1));
        if Reduction(Diagonal(a, b, c, d), i).Some? {
          DiagonalColumn(a, b, c, d, i - 1);
        }
      }
    }
  }

  lemma ReducesWhole(m: Mat4, n: nat)
    requires n == 4 && Reduction(m, n).Some?
    ensures Solvable(m)
  {
  }

  // ----- a sky in which this happens

  /** Line of sight o. */
  function Direction(o: nat): Ecef {
    if o == 0 then Ecef(0.6, 0.0, 0.8) else if o == 1 then Ecef(-0.6, 0.0, 0.8)
    else if o == 2 then Ecef(0.0, 0.6, -0.8) else Ecef(0.0, -0.6, -0.8)
  }

  /** A satellite so far away that its line of sight is the same from everywhere. */
  function FarSight(o: nat, at: Ecef): Sight {
    var u := Direction(o);
    Sight(20000000.0 - (u.x * at.x + u.y * at.y + u.z * at.z), u.x, u.y, u.z, 0.0, 0.0, 1.0)
  }

  function FarSky(): Physics<nat, nat> {
    Physics((e: nat, time: real) => e, (o: nat) => 0.0, (at: Ecef, o: nat) => 90.0,
            (o: nat, time: real, at: Ecef) => FarSight(o, at))
  }

  function FarSatellite(o: nat, t: Vec4): Satellite<nat> {
    Satellite(o, FarSight(o, PositionOf(t)).range + t.x3, 0.0)
  }

  /** Four such satellites, from a receiver in state t whose reference is the origin; the limit is 30 metres. */
  ghost function FarProblem(t: Vec4): Problem<nat, nat> {
    Problem(FarSky(), Config(4, 30.0, 0.0, false),
            [FarSatellite(0, t), FarSatellite(1, t), FarSatellite(2, t), FarSatellite(3, t)],
            Ecef(0.0, 0.0, 0.0), false, PivotTest())
  }

  lemma FarIsExact(t: Vec4)
    ensures Exact(FarProblem(t), t)
  {
    forall o: nat, from: Vec4 | o < 4 ensures Predicts(FarSky(), false, o, 0.0, from, t) {}
    forall i | 0 <= i < 4 ensures ExactAt(FarProblem(t), FarProblem(t).offered[i], t) {}
  }

  function FarMatrix(): Mat4 { Diagonal(0.72, 0.72, 2.56, 4.0) }

  function FarObservation(o: nat, y: real): Observation {
    Observation(1.0, Vec4(-Direction(o).x, -Direction(o).y, -Direction(o).z, 1.0), y)
  }

  lemma FourthSum(obs: seq<Observation>, f: Term)
    requires |obs| == 4
    ensures Sum(obs, f) == f(obs[0]) + f(obs[1]) + f(obs[2]) + f(obs[3])
  {
    assert obs[..3][..2] == obs[..2] && obs[..2][..1] == obs[..1] && obs[..1][..0] == [];
    assert Sum(obs[..1], f) == f(obs[0]);
    assert Sum(obs[..2], f) == Sum(obs[..1], f) + f(obs[1]);
    assert Sum(obs[..3], f) == Sum(obs[..2], f) + f(obs[2]);
  }

  lemma FarSum(obs: seq<Observation>, y0: real, y1: real, y2: real, y3: real, r: nat, c: nat)
    requires obs == [FarObservation(0, y0), FarObservation(1, y1), FarObservation(2, y2), FarObservation(3, y3)]
    requires r < 4 && c < 4
    ensures Sum(obs, NormalTerm(r, c)) == FarMatrix().Row(r).At(c)
  {
    FourthSum(obs, NormalTerm(r, c));
  }

  lemma FarNormal(obs: seq<Observation>, y0: real, y1: real, y2: real, y3: real)
    requires obs == [FarObservation(0, y0), FarObservation(1, y1), FarObservation(2, y2), FarObservation(3, y3)]
    ensures NormalMatrix(obs) == FarMatrix()
  {
    forall r: nat | r < 4 ensures NormalRow(obs, r) == FarMatrix().Row(r) {
      FarSum(obs, y0, y1, y2, y3, r, 0);
      FarSum(obs, y0, y1, y2, y3, r, 1);
      FarSum(obs, y0, y1, y2, y3, r, 2);
      FarSum(obs, y0, y1, y2, y3, r, 3);
    }
    assert NormalRow(obs, 0) == FarMatrix().Row(0) && NormalRow(obs, 1) == FarMatrix().Row(1);
    assert NormalRow(obs, 2) == FarMatrix().Row(2) && NormalRow(obs, 3) == FarMatrix().Row(3);
  }

  lemma FarIsSolvable(t: Vec4)
    ensures AlwaysSolvable(FarProblem(t), t)
  {
    var q := FarProblem(t);
    forall kept | Increasing(kept, 4) && |kept| >= 4 ensures SolvableBoth(q, kept, t) {
      FarSolvableAt(t, kept, StartOf(q.reference));
      FarSolvableAt(t, kept, t);
    }
  }

  lemma FarPasses(obs: seq<Observation>, y0: real, y1: real, y2: real, y3: real, n: nat)
    requires obs == [FarObservation(0, y0), FarObservation(1, y1), FarObservation(2, y2), FarObservation(3, y3)]
    requires n == 4
    ensures Reduction(NormalMatrix(obs), n).Some?
  {
    FarNormal(obs, y0, y1, y2, y3);
    DiagonalReduces(0.72, 0.72, 2.56, 4.0, n);
  }

  lemma FarObserved(t: Vec4, o: nat, from: Vec4)
    requires o < 4
    ensures var s := FarSatellite(o, t);
            var seen := Observe(FarSky(), false, s.orbit, s.range, s.time, from);
            seen == FarObservation(o, seen.y)
  {
  }

  lemma FarKept(t: Vec4, kept: seq<nat>, from: Vec4)
    requires Increasing(kept, 4) && |kept| >= 4
    ensures var obs := ObservationsAt(FarProblem(t), kept, from);
            |obs| == 4 && obs == [FarObservation(0, obs[0].y), FarObservation(1, obs[1].y),
                                  FarObservation(2, obs[2].y), FarObservation(3, obs[3].y)]
  {
    IncreasingIsShort(kept, 4);
    assert 0 <= kept[0] < kept[1] < kept[2] < kept[3] < 4;
    assert kept[0] == 0 && kept[1] == 1 && kept[2] == 2 && kept[3] == 3;
    FarObserved(t, 0, from);
    FarObserved(t, 1, from);
    FarObserved(t, 2, from);
    FarObserved(t, 3, from);
  }

  lemma FarSolvableAt(t: Vec4, kept: seq<nat>, from: Vec4)
    requires Increasing(kept, 4) && |kept| >= 4
    ensures SolvableAt(FarProblem(t), kept, from)
  {
    var obs := ObservationsAt(FarProblem(t), kept, from);
    FarKept(t, kept, from);
    FarPasses(obs, obs[0].y, obs[1].y, obs[2].y, obs[3].y, |obs|);
    ReducesWhole(NormalMatrix(obs), |obs|);
  }

  /** Under it, the receiver at its reference is fixed only while its clock is within 30 metres. */
  lemma FarStillReceiver(clock: real, solution: Option<Solution>, trail: seq<Pass>)
    requires Explains(FarProblem(Vec4(0.0, 0.0, 0.0, clock)), solution, trail)
    ensures solution.Some? <==> -30.0 <= clock <= 30.0
  {
    var t := Vec4(0.0, 0.0, 0.0, clock);
    FarIsExact(t);
    FarIsSolvable(t);
    StillReceiverIff(FarProblem(t), t, Everyone(4), solution, trail);
  }
}
