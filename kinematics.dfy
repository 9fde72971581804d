/** Inverse kinematics of a planar two-link arm, as all three versions of
    `RobotArm2.update` compute it. The floating-point library functions
    (square root, arc cosine, atan2, sine, cosine, hypot) are not
    interpreted; every other step is exact rational arithmetic. */
module Kinematics {
  import opened Wrappers

  /** The library functions the arm calls (`math.sqrt`, `np.arccos`,
      `np.math.atan2`, `np.sin`, `np.cos`, `np.hypot`). */
  datatype Trig = Trig(
    sqrt: real -> real,
    acos: real -> real,
    atan2: (real, real) -> real,
    sin: real -> real,
    cos: real -> real,
    hypot: (real, real) -> real)

  /** What a true square root satisfies on non-negative arguments. */
  ghost predicate IsSqrt(sqrt: real -> real)
  {
    forall d :: d >= 0.0 ==> sqrt(d) >= 0.0 && sqrt(d) * sqrt(d) == d
  }

  /** A coordinate value read from the configuration: a number, or a value
      that Python arithmetic rejects with a TypeError (null, a string). */
  datatype Scalar = Num(value: real) | NonNumber

  /** A destination `[x, y]` as the arm stores it. */
  datatype Coordinate = Coordinate(x: Scalar, y: Scalar)

  /** A numeric position (base, shoulder, wrist). */
  datatype Point = Point(x: real, y: real)

  predicate IsNumeric(c: Coordinate)
  {
    c.x.Num? && c.y.Num?
  }

  /** The destination `[0, 0]` every arm starts with. */
  const Origin: Coordinate := Coordinate(Num(0.0), Num(0.0))

  /** The two link lengths of an arm. */
  datatype Geometry = Geometry(shoulderToElbow: real, elbowToGripper: real)

  /** Why a destination cannot be solved, by the exception Python raises:
      a TypeError on non-numeric input, the two "Coordinates cannot be
      reached" failures, and a ZeroDivisionError for a zero-length link. */
  datatype IkError = NonNumericCoordinate | OutOfReach | ZeroLengthLink | CosineOutOfRange

  /** Goal joint angles for a destination. */
  datatype Goals = Goals(theta1: real, theta2: real)

  /** `np.pi` as a decimal. */
  const Pi: real := 3.141592653589793
  const TwoPi: real := 2.0 * Pi

  /** `GOAL_THRESHOLD` of every version. */
  const GoalThreshold: real := 0.01

  function Abs(r: real): (a: real)
    ensures a >= 0.0 && (a == r || a == -r)
  {
    if r < 0.0 then -r else r
  }

  /** The elbow-angle cosine `(x² + y² − L1² − L2²) / (2·L1·L2)`. */
  function CosineArgument(x: real, y: real, g: Geometry): real
    requires 2.0 * g.shoulderToElbow * g.elbowToGripper != 0.0
  {
    (x * x + y * y - g.shoulderToElbow * g.shoulderToElbow - g.elbowToGripper * g.elbowToGripper)
      / (2.0 * g.shoulderToElbow * g.elbowToGripper)
  }

  /** `x² + y²`. */
  function SquaredNorm(x: real, y: real): real
  {
    x * x + y * y
  }

  /** The correction `atan2(L2·sin θ2, L1 + L2·cos θ2)` applied to the
      shoulder goal. */
  function ElbowOffset(m: Trig, g: Geometry, theta2: real): real
  {
    m.atan2(g.elbowToGripper * m.sin(theta2), g.shoulderToElbow + g.elbowToGripper * m.cos(theta2))
  }

  /** The goal angles `update` computes for a destination, with the checks
      in the order the code makes them: arithmetic on the coordinates, the
      outer-reach test, the division, the cosine range. The shoulder goal
      adds the elbow correction when the elbow goal is negative and
      subtracts it otherwise. */
  function Solve(m: Trig, d: Coordinate, g: Geometry): (r: Result<Goals, IkError>)
    ensures r.Ok? ==> IsNumeric(d)
  {
    if !IsNumeric(d) then Err(NonNumericCoordinate)
    else
      var x, y := d.x.value, d.y.value;
      if m.sqrt(SquaredNorm(x, y)) > g.shoulderToElbow + g.elbowToGripper then Err(OutOfReach)
      else if 2.0 * g.shoulderToElbow * g.elbowToGripper == 0.0 then Err(ZeroLengthLink)
      else
        var c := CosineArgument(x, y, g);
        if c > 1.0 || c < -1.0 then Err(CosineOutOfRange)
        else
          var theta2 := m.acos(c);
          var theta1 := if theta2 < 0.0 then m.atan2(y, x) + ElbowOffset(m, g, theta2)
                        else m.atan2(y, x) - ElbowOffset(m, g, theta2);
          Ok(Goals(theta1, theta2))
  }

  /** A destination the arm can aim at: numeric, within the outer reach,
      links of non-zero length, and an elbow cosine in [-1, 1]. */
  ghost predicate Reachable(m: Trig, d: Coordinate, g: Geometry)
  {
    && IsNumeric(d)
    && m.sqrt(SquaredNorm(d.x.value, d.y.value)) <= g.shoulderToElbow + g.elbowToGripper
    && 2.0 * g.shoulderToElbow * g.elbowToGripper != 0.0
    && -1.0 <= CosineArgument(d.x.value, d.y.value, g) <= 1.0
  }

  /** Solving fails exactly on the unreachable destinations, and the
      elbow goal is the arc cosine of the cosine argument. */
  lemma SolveSucceedsIffReachable(m: Trig, d: Coordinate, g: Geometry)
    ensures Solve(m, d, g).Ok? <==> Reachable(m, d, g)
    ensures Solve(m, d, g).Ok? ==>
      Solve(m, d, g).value.theta2 == m.acos(CosineArgument(d.x.value, d.y.value, g))
  {
  }

  /** With a true square root and positive link lengths, every destination
      beyond the outer reach also fails the cosine range test. */
  lemma OuterReachImpliesCosineAboveOne(m: Trig, x: real, y: real, g: Geometry)
    requires IsSqrt(m.sqrt)
    requires g.shoulderToElbow > 0.0 && g.elbowToGripper > 0.0
    requires m.sqrt(SquaredNorm(x, y)) > g.shoulderToElbow + g.elbowToGripper
    ensures CosineArgument(x, y, g) > 1.0
  {
    var l1, l2 := g.shoulderToElbow, g.elbowToGripper;
    var n := SquaredNorm(x, y);
    assert n >= 0.0 by {
      SquareNonNegative(x);
      SquareNonNegative(y);
    }
    var r := m.sqrt(n);
    var reach := l1 + l2;
    assert r * r == n;
    SquareStrictlyMonotone(reach, r);
    assert reach * reach == l1 * l1 + 2.0 * l1 * l2 + l2 * l2;
    var den := 2.0 * l1 * l2;
    var num := n - l1 * l1 - l2 * l2;
    ProductPositive(l1, l2);
    assert num > den > 0.0;
    QuotientAboveOne(num, den);
    assert CosineArgument(x, y, g) == num / den;
  }

  lemma SquareNonNegative(a: real)
    ensures a * a >= 0.0
  {
  }

  lemma SquareStrictlyMonotone(a: real, b: real)
    requires 0.0 < a < b
    ensures a * a < b * b
  {
    assert a * a < a * b;
    assert a * b < b * b;
  }

  lemma SquareAtMost(a: real, b: real)
    requires 0.0 <= a <= b
    ensures a * a <= b * b
  {
    assert a * a <= a * b;
    assert a * b <= b * b;
  }

  lemma ProductPositive(a: real, b: real)
    requires a > 0.0 && b > 0.0
    ensures a * b > 0.0
  {
  }

  lemma QuotientAboveOne(num: real, den: real)
    requires num > den > 0.0
    ensures num / den > 1.0
  {
  }

  /** Lengths 1 and 1: (1.5, 0) can be solved, (3, 0) is beyond reach. */
  lemma ReachScenario(m: Trig)
    requires IsSqrt(m.sqrt)
    ensures Solve(m, Coordinate(Num(1.5), Num(0.0)), Geometry(1.0, 1.0)).Ok?
    ensures Solve(m, Coordinate(Num(3.0), Num(0.0)), Geometry(1.0, 1.0)) == Err(OutOfReach)
  {
    assert SquaredNorm(1.5, 0.0) == 2.25;
    var r := m.sqrt(2.25);
    assert r >= 0.0 && r * r == 2.25;
    assert r <= 2.0;
    assert SquaredNorm(3.0, 0.0) == 9.0;
    var r' := m.sqrt(9.0);
    assert r' >= 0.0 && r' * r' == 9.0;
    if r' <= 2.0 {
      SquareAtMost(r', 2.0);
      assert false;
    }
    assert CosineArgument(1.5, 0.0, Geometry(1.0, 1.0)) == 0.125;
  }

  /** If the arc cosine never returns a negative angle, the elbow goal is
      always taken on the subtracting branch. */
  lemma SubtractingBranchWhenAcosNonNegative(m: Trig, d: Coordinate, g: Geometry)
    requires forall c :: -1.0 <= c <= 1.0 ==> m.acos(c) >= 0.0
    requires Solve(m, d, g).Ok?
    ensures var t2 := Solve(m, d, g).value.theta2;
            Solve(m, d, g).value.theta1 == m.atan2(d.y.value, d.x.value) - ElbowOffset(m, g, t2)
  {
    var c := CosineArgument(d.x.value, d.y.value, g);
    assert -1.0 <= c <= 1.0;
    assert m.acos(c) >= 0.0;
  }

  /** Python's float `a % (2 * np.pi)`: the remainder has the sign of the
      divisor. */
  function ModTwoPi(a: real): (r: real)
    ensures 0.0 <= r < TwoPi
  {
    a - TwoPi * ((a / TwoPi).Floor as real)
  }

  /** `angle_difference(a, b) = (a - b + π) % (2π) - π`. */
  function AngleDifference(a: real, b: real): (r: real)
    ensures -Pi <= r < Pi
  {
    ModTwoPi(a - b + Pi) - Pi
  }

  /** The wrapped difference differs from `a - b` by whole turns. */
  lemma AngleDifferenceWraps(a: real, b: real) returns (k: int)
    ensures a - b - AngleDifference(a, b) == (k as real) * TwoPi
  {
    k := ((a - b + Pi) / TwoPi).Floor;
  }

  /** A difference already in [-π, π) is left as it is. */
  lemma AngleDifferenceOfSmall(a: real, b: real)
    requires -Pi <= a - b < Pi
    ensures AngleDifference(a, b) == a - b
  {
    var q := (a - b + Pi) / TwoPi;
    assert 0.0 <= q < 1.0;
    assert q.Floor == 0;
  }

  /** One proportional-control increment of a joint angle. */
  function StepAngle(theta: real, goal: real, gain: real, sampleTime: real): real
  {
    theta + gain * AngleDifference(goal, theta) * sampleTime
  }

  /** The wrist position relative to the shoulder: `wrist - shoulder` where
      `wrist = shoulder + L1·(cos θ1, sin θ1) + L2·(cos(θ1+θ2), sin(θ1+θ2))`. */
  function WristOffset(m: Trig, g: Geometry, theta1: real, theta2: real): Point
  {
    Point(g.shoulderToElbow * m.cos(theta1) + g.elbowToGripper * m.cos(theta1 + theta2),
          g.shoulderToElbow * m.sin(theta1) + g.elbowToGripper * m.sin(theta1 + theta2))
  }

  /** `abs(np.hypot(wrist - destination)) < GOAL_THRESHOLD`. */
  predicate AtGoal(m: Trig, g: Geometry, theta1: real, theta2: real, d: Coordinate)
    requires IsNumeric(d)
  {
    var w := WristOffset(m, g, theta1, theta2);
    Abs(m.hypot(w.x - d.x.value, w.y - d.y.value)) < GoalThreshold
  }
}
