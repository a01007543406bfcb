/** The differential gripper: the mix of control/control_service.py, its twin in
    tools/gripper_calibrate.py, and the interpolated park move. */
module GripperMix {
  import opened Prelude

  datatype Geometry = Geometry(
    servoRangeDeg: real,
    pitchSpanDeg: real,
    wristSpanDeg: real,
    pitchNeutralDeg: real,
    wristNeutralDeg: real,
    leftInvert: real,
    rightInvert: real)

  datatype Pair = Pair(left: real, right: real)

  function Range(g: Geometry): (r: real)
    ensures r >= 1.0
  {
    Max(1.0, g.servoRangeDeg)
  }

  function PitchDeg(g: Geometry, pitchNorm: real): real
  {
    (Clamp(pitchNorm, -1.0, 1.0) + 1.0) * 0.5 * g.pitchSpanDeg
  }

  function WristDeg(g: Geometry, yawNorm: real): real
  {
    (Clamp(yawNorm, -1.0, 1.0) + 1.0) * 0.5 * g.wristSpanDeg
  }

  /** Each input runs its angle from nought to the span; beyond full stick it stays at the end. */
  lemma InputEnds(g: Geometry, x: real)
    ensures x >= 1.0 ==> PitchDeg(g, x) == g.pitchSpanDeg && WristDeg(g, x) == g.wristSpanDeg
    ensures x <= -1.0 ==> PitchDeg(g, x) == 0.0 && WristDeg(g, x) == 0.0
    ensures PitchDeg(g, 0.0) == g.pitchSpanDeg / 2.0 && WristDeg(g, 0.0) == g.wristSpanDeg / 2.0
  {
  }

  /** Pitch is clipped to the range first. */
  function ClipPitch(range: real, d: real): real
  {
    Clamp(d, -range, range)
  }

  function Room(range: real, dPitch: real): (room: real)
    ensures room >= 0.0
  {
    Max(0.0, range - Abs(dPitch))
  }

  /** Wrist gets what pitch leaves. */
  function ClipWrist(range: real, dPitch: real, d: real): (w: real)
    ensures Abs(w) <= Room(range, dPitch)
  {
    Clamp(d, -Room(range, dPitch), Room(range, dPitch))
  }

  function ServoPair(g: Geometry, dPitch: real, dWrist: real): Pair
  {
    Pair(g.leftInvert * (dPitch + dWrist), g.rightInvert * (dPitch - dWrist))
  }

  /** The pair of normalised servo outputs before the final clamp. */
  function Unclamped(g: Geometry, pitchNorm: real, yawNorm: real): Pair
  {
    var rng := Range(g);
    var dPitch := ClipPitch(rng, PitchDeg(g, pitchNorm) - g.pitchNeutralDeg);
    var dWrist := ClipWrist(rng, dPitch, WristDeg(g, yawNorm) - g.wristNeutralDeg);
    var servo := ServoPair(g, dPitch, dWrist);
    Pair(servo.left / rng, servo.right / rng)
  }

  function DiffMixNorm(g: Geometry, pitchNorm: real, yawNorm: real): (p: Pair)
    ensures -1.0 <= p.left <= 1.0 && -1.0 <= p.right <= 1.0
  {
    var u := Unclamped(g, pitchNorm, yawNorm);
    Pair(Max(-1.0, Min(1.0, u.left)), Max(-1.0, Min(1.0, u.right)))
  }

  /** The calibration tool's mix, in degrees; its range is not raised to 1. */
  function ToolMixDeg(g: Geometry, pitchDeg: real, wristDeg: real): Pair
  {
    var dPitch := Max(-g.servoRangeDeg, Min(g.servoRangeDeg, pitchDeg - g.pitchNeutralDeg));
    var room := Max(0.0, g.servoRangeDeg - Abs(dPitch));
    var dWrist := Max(-room, Min(room, wristDeg - g.wristNeutralDeg));
    ServoPair(g, dPitch, dWrist)
  }

  predicate Inverts(g: Geometry)
  {
    (g.leftInvert == 1.0 || g.leftInvert == -1.0) && (g.rightInvert == 1.0 || g.rightInvert == -1.0)
  }

  // ---------------------------------------------------------------- the reachable diamond

  lemma InDiamond(range: real, d: real, w: real)
    requires range >= 1.0
    ensures var p := ClipPitch(range, d);
            Abs(p) + Abs(ClipWrist(range, p, w)) <= range
  {
  }

  /** Both servos fit exactly when pitch and wrist fit the diamond, so the last clamp has nothing to do. */
  lemma DiamondIsServoSquare(range: real, p: real, w: real)
    ensures Abs(p) + Abs(w) <= range <==> -range <= p + w <= range && -range <= p - w <= range
  {
  }

  lemma QuotientInUnit(x: real, r: real)
    requires r >= 1.0 && -r <= x <= r
    ensures -1.0 <= x / r <= 1.0
  {
    Inverse(r);
    MulMono(1.0 / r, x, r);
    MulMono(1.0 / r, -r, x);
  }

  lemma FinalClampIdle(g: Geometry, pitchNorm: real, yawNorm: real)
    requires Inverts(g)
    ensures DiffMixNorm(g, pitchNorm, yawNorm) == Unclamped(g, pitchNorm, yawNorm)
  {
    hide PitchDeg, WristDeg;
    var rng := Range(g);
    var p := ClipPitch(rng, PitchDeg(g, pitchNorm) - g.pitchNeutralDeg);
    var w := ClipWrist(rng, p, WristDeg(g, yawNorm) - g.wristNeutralDeg);
    InDiamond(rng, PitchDeg(g, pitchNorm) - g.pitchNeutralDeg, WristDeg(g, yawNorm) - g.wristNeutralDeg);
    DiamondIsServoSquare(rng, p, w);
    ServoInRange(g, p, w, rng);
    hide ServoPair, ClipPitch, ClipWrist;
    QuotientInUnit(ServoPair(g, p, w).left, rng);
    QuotientInUnit(ServoPair(g, p, w).right, rng);
  }

  lemma ServoInRange(g: Geometry, p: real, w: real, rng: real)
    requires Inverts(g) && -rng <= p + w <= rng && -rng <= p - w <= rng
    ensures -rng <= ServoPair(g, p, w).left <= rng && -rng <= ServoPair(g, p, w).right <= rng
  {
  }

  /** Pitch read back from the two servo outputs, in degrees from neutral. */
  function RecoverPitch(g: Geometry, p: Pair): real
  {
    (g.leftInvert * p.left + g.rightInvert * p.right) * Range(g) / 2.0
  }

  function RecoverWrist(g: Geometry, p: Pair): real
  {
    (g.leftInvert * p.left - g.rightInvert * p.right) * Range(g) / 2.0
  }

  lemma Recovers(g: Geometry, p: real, w: real)
    requires Inverts(g)
    ensures var servo := ServoPair(g, p, w);
            var out := Pair(servo.left / Range(g), servo.right / Range(g));
            RecoverPitch(g, out) == p && RecoverWrist(g, out) == w
  {
    var rng := Range(g);
    var servo := ServoPair(g, p, w);
    DivBack(servo.left, rng);
    DivBack(servo.right, rng);
    var l, r := servo.left / rng, servo.right / rng;
    assert g.leftInvert * l * rng == p + w;
    assert g.rightInvert * r * rng == p - w;
  }

  lemma DivBack(x: real, r: real)
    requires r >= 1.0
    ensures x / r * r == x
  {
  }

  /** Pitch priority: the pitch that reaches the servos is the clipped request, whatever the wrist asks;
      the wrist that reaches them is the closest to its request that the remaining room allows. */
  lemma PitchPriority(g: Geometry, pitchNorm: real, yawNorm: real, other: real)
    requires Inverts(g)
    ensures var out := DiffMixNorm(g, pitchNorm, yawNorm);
            var askedPitch := PitchDeg(g, pitchNorm) - g.pitchNeutralDeg;
            var askedWrist := WristDeg(g, yawNorm) - g.wristNeutralDeg;
            && RecoverPitch(g, out) == ClipPitch(Range(g), askedPitch)
            && Abs(RecoverPitch(g, out)) + Abs(RecoverWrist(g, out)) <= Range(g)
            && (Abs(RecoverPitch(g, out)) + Abs(other) <= Range(g) ==>
                  Abs(RecoverWrist(g, out) - askedWrist) <= Abs(other - askedWrist))
  {
    hide PitchDeg, WristDeg;
    FinalClampIdle(g, pitchNorm, yawNorm);
    var rng := Range(g);
    var p := ClipPitch(rng, PitchDeg(g, pitchNorm) - g.pitchNeutralDeg);
    var w := ClipWrist(rng, p, WristDeg(g, yawNorm) - g.wristNeutralDeg);
    InDiamond(rng, PitchDeg(g, pitchNorm) - g.pitchNeutralDeg, WristDeg(g, yawNorm) - g.wristNeutralDeg);
    Recovers(g, p, w);
    hide RecoverPitch, RecoverWrist, ServoPair;
  }

  // ---------------------------------------------------------------- the calibration tool

  /** With a range of at least one degree the two implementations agree up to the scale. */
  lemma ToolAgrees(g: Geometry, pitchNorm: real, yawNorm: real)
    requires Inverts(g) && g.servoRangeDeg >= 1.0
    ensures var tool := ToolMixDeg(g, PitchDeg(g, pitchNorm), WristDeg(g, yawNorm));
            DiffMixNorm(g, pitchNorm, yawNorm) == Pair(tool.left / g.servoRangeDeg, tool.right / g.servoRangeDeg)
  {
    hide PitchDeg, WristDeg, ServoPair;
    FinalClampIdle(g, pitchNorm, yawNorm);
  }

  /** One pose, mixed both ways and brought to the same scale. */
  predicate MixesAgree(g: Geometry, pitchNorm: real, yawNorm: real)
    requires g.servoRangeDeg > 0.0
  {
    var tool := ToolMixDeg(g, PitchDeg(g, pitchNorm), WristDeg(g, yawNorm));
    DiffMixNorm(g, pitchNorm, yawNorm) == Pair(tool.left / g.servoRangeDeg, tool.right / g.servoRangeDeg)
  }

  /** Half the range away from neutral. */
  function HalfwayOut(range: real): Geometry
  {
    Geometry(range, 90.0, 90.0, 45.0 - range / 2.0, 45.0, 1.0, 1.0)
  }

  /** Below one degree they do not: the control loop works with a range of 1, the tool with the configured one. */
  lemma ToolDisagreesBelowOne(range: real)
    requires 0.0 < range < 1.0
    ensures var g := HalfwayOut(range);
            var tool := ToolMixDeg(g, PitchDeg(g, 0.0), WristDeg(g, 0.0));
            && tool.left / range == 0.5 && DiffMixNorm(g, 0.0, 0.0).left == range / 2.0
            && !MixesAgree(g, 0.0, 0.0)
  {
    var g := HalfwayOut(range);
    assert PitchDeg(g, 0.0) == 45.0 && WristDeg(g, 0.0) == 45.0;
    assert ToolMixDeg(g, 45.0, 45.0).left == range / 2.0;
    HalfOf(range);
  }

  lemma HalfOf(range: real)
    requires range > 0.0
    ensures (range / 2.0) / range == 0.5
  {
  }

  /** The two mixes agree for every geometry of a positive range, at every pose, if and only if the range is at least one degree. */
  lemma ToolAgreesExactly(range: real)
    requires range > 0.0
    ensures (forall g: Geometry, pitch, yaw :: g.servoRangeDeg == range && Inverts(g) ==> MixesAgree(g, pitch, yaw)) <==> range >= 1.0
  {
    if range >= 1.0 {
      forall g: Geometry, pitch, yaw | g.servoRangeDeg == range && Inverts(g) ensures MixesAgree(g, pitch, yaw) {
        ToolAgrees(g, pitch, yaw);
      }
    } else {
      ToolDisagreesBelowOne(range);
      assert Inverts(HalfwayOut(range));
    }
    hide DiffMixNorm, ToolMixDeg, PitchDeg, WristDeg, MixesAgree;
  }

  /** Every pair of servo angles in range is the tool's answer to exactly the pose read back from it. */
  lemma ToolReachesSquare(g: Geometry, left: real, right: real)
    requires Inverts(g) && g.servoRangeDeg >= 0.0
    requires Abs(left) <= g.servoRangeDeg && Abs(right) <= g.servoRangeDeg
    ensures var p := (g.leftInvert * left + g.rightInvert * right) / 2.0;
            var w := (g.leftInvert * left - g.rightInvert * right) / 2.0;
            ToolMixDeg(g, g.pitchNeutralDeg + p, g.wristNeutralDeg + w) == Pair(left, right)
  {
    var l, r := g.leftInvert * left, g.rightInvert * right;
    var p, w := (l + r) / 2.0, (l - r) / 2.0;
    assert Abs(l) <= g.servoRangeDeg && Abs(r) <= g.servoRangeDeg;
    DiamondIsServoSquare(g.servoRangeDeg, p, w);
    assert Abs(w) <= g.servoRangeDeg - Abs(p);
    assert g.leftInvert * l == left && g.rightInvert * r == right;
    assert p + w == l && p - w == r;
  }

  // ---------------------------------------------------------------- the park move

  datatype ParkPlan = ParkPlan(start: Pair, target: Pair, rate: real, settleS: real, periodS: real)

  function MaxDist(k: ParkPlan): (d: real)
    ensures d >= 0.0
    ensures Abs(k.target.left - k.start.left) <= d && Abs(k.target.right - k.start.right) <= d
  {
    Max(Abs(k.target.left - k.start.left), Abs(k.target.right - k.start.right))
  }

  predicate Interpolates(k: ParkPlan, canSleep: bool)
  {
    k.rate > 0.0 && MaxDist(k) > 0.000001 && k.settleS > 0.0 && canSleep
  }

  function Duration(k: ParkPlan): real
  {
    Max(k.settleS, MaxDist(k) / Max(k.rate, 0.000001))
  }

  function StepS(k: ParkPlan): (s: real)
    ensures 0.02 <= s <= 0.05
  {
    Max(0.02, Min(0.05, if k.periodS == 0.0 then 0.02 else k.periodS))
  }

  function Steps(k: ParkPlan): (n: int)
    ensures n >= 1
  {
    var q := Duration(k) / StepS(k);
    var ceil := if q == q.Floor as real then q.Floor else q.Floor + 1;
    if ceil > 1 then ceil else 1
  }

  function AxisAt(from: real, to: real, idx: int, n: int): real
    requires n >= 1
  {
    from + (to - from) * (idx as real / n as real)
  }

  function Share(d: real, n: int): real
    requires n >= 1
  {
    d / n as real
  }

  function ParkAt(k: ParkPlan, idx: int): Pair
  {
    Pair(AxisAt(k.start.left, k.target.left, idx, Steps(k)), AxisAt(k.start.right, k.target.right, idx, Steps(k)))
  }

  function SleepS(k: ParkPlan): real
  {
    Share(Duration(k), Steps(k))
  }

  /** The move takes the least number of steps, at least one, that are no longer than the step time. */
  lemma LeastSteps(k: ParkPlan)
    ensures SleepS(k) <= StepS(k)
    ensures forall n :: 1 <= n < Steps(k) ==> Share(Duration(k), n) > StepS(k)
  {
    hide Duration, StepS;
    var q, n := Duration(k) / StepS(k), Steps(k);
    QuotientIs(Duration(k), StepS(k), n);
    assert n as real >= q;
    forall j | 1 <= j < n ensures Share(Duration(k), j) > StepS(k) {
      assert j as real < q;
      QuotientIs(Duration(k), StepS(k), j);
    }
  }

  lemma QuotientIs(d: real, step: real, n: int)
    requires step > 0.0 && n >= 1
    ensures n as real >= d / step ==> d / n as real <= step
    ensures (n as real) < d / step ==> d / n as real > step
  {
    var q, share := d / step, d / n as real;
    assert q * step == d && share * n as real == d;
    if n as real >= q {
      MulMono(step, q, n as real);
      if share > step {
        MulLess(step, share, n as real);
      }
    } else {
      MulLess(n as real, q, step);
      if share <= step {
        MulMono(n as real, share, step);
      }
    }
  }

  lemma MulLess(a: real, b: real, k: real)
    requires k > 0.0 && a < b
    ensures a * k < b * k
  {
  }

  /** The step time is the configured one within its bounds, and the shortest when there is none. The move lasts as long as
      the longer way at the configured rate, and at least the settling time. */
  lemma ParkTimes(k: ParkPlan)
    requires k.rate >= 0.000001
    ensures 0.02 <= k.periodS <= 0.05 ==> StepS(k) == k.periodS
    ensures k.periodS <= 0.02 ==> StepS(k) == 0.02
    ensures k.periodS >= 0.05 ==> StepS(k) == 0.05
    ensures Duration(k) >= k.settleS && Product(Duration(k), k.rate) >= MaxDist(k)
    ensures Duration(k) > k.settleS ==> Product(Duration(k), k.rate) == MaxDist(k)
  {
    var travel := MaxDist(k) / k.rate;
    assert travel * k.rate == MaxDist(k);
    MulMono(k.rate, travel, Duration(k));
    hide MaxDist;
  }

  lemma ParkEnds(k: ParkPlan)
    ensures ParkAt(k, 0) == k.start && ParkAt(k, Steps(k)) == k.target
  {
    var n := Steps(k) as real;
    DivBack(n, n);
    assert n / n == 1.0 by { Inverse(n); }
    assert 0.0 / n == 0.0;
  }

  /** One servo over one step: towards the target, never past it, and by an equal share of the distance. */
  lemma AxisStep(from: real, to: real, n: int, idx: int)
    requires n >= 1 && 0 <= idx < n
    ensures var a, b := AxisAt(from, to, idx, n), AxisAt(from, to, idx + 1, n);
            && (from <= a <= b <= to || to <= b <= a <= from)
            && b - a == Share(to - from, n)
  {
    var d := to - from;
    var f, g := idx as real / n as real, (idx + 1) as real / n as real;
    Fractions(idx, n);
    AxisIsProduct(from, to, idx, n);
    AxisIsProduct(from, to, idx + 1, n);
    ProductEnds(d);
    Monotone(d, 0.0, f);
    Monotone(d, f, g);
    Monotone(d, g, 1.0);
    ShareOf(d, f, g, n);
    hide Product, AxisAt, Share;
  }

  lemma AxisIsProduct(from: real, to: real, idx: int, n: int)
    requires n >= 1
    ensures AxisAt(from, to, idx, n) == from + Product(to - from, idx as real / n as real)
  {
  }

  lemma ProductEnds(d: real)
    ensures Product(d, 0.0) == 0.0 && Product(d, 1.0) == d
  {
  }

  lemma Monotone(d: real, a: real, b: real)
    requires a <= b
    ensures d >= 0.0 ==> Product(d, a) <= Product(d, b)
    ensures d <= 0.0 ==> Product(d, b) <= Product(d, a)
  {
    if d < 0.0 {
      MulMono(-d, a, b);
      assert -d * a == -(d * a) && -d * b == -(d * b);
    }
  }

  lemma ShareOf(d: real, f: real, g: real, n: int)
    requires n >= 1 && g - f == 1.0 / n as real
    ensures Product(d, g) - Product(d, f) == Share(d, n)
  {
    assert d * g - d * f == d * (g - f);
    assert d * (1.0 / n as real) == d / n as real;
  }

  lemma Fractions(idx: int, n: int)
    requires n >= 1 && 0 <= idx < n
    ensures var f, g := idx as real / n as real, (idx + 1) as real / n as real;
            0.0 <= f <= g <= 1.0 && g - f == 1.0 / n as real
  {
    var r := n as real;
    Inverse(r);
    var q := 1.0 / r;
    assert idx as real / r == idx as real * q;
    assert (idx + 1) as real / r == (idx + 1) as real * q;
    MulMono(q, 0.0, idx as real);
    MulMono(q, (idx + 1) as real, r);
  }

  /** Each step of the move is monotone towards the park pose and no faster than the configured rate
      (or than 1e-6 per second, if the rate is set below that). */
  lemma ParkStepWithinRate(k: ParkPlan, idx: int)
    requires k.rate > 0.0 && 0 <= idx < Steps(k)
    ensures var a, b := ParkAt(k, idx), ParkAt(k, idx + 1);
            && (k.start.left <= a.left <= b.left <= k.target.left || k.target.left <= b.left <= a.left <= k.start.left)
            && (k.start.right <= a.right <= b.right <= k.target.right || k.target.right <= b.right <= a.right <= k.start.right)
            && Abs(b.left - a.left) <= Product(Max(k.rate, 0.000001), SleepS(k))
            && Abs(b.right - a.right) <= Product(Max(k.rate, 0.000001), SleepS(k))
  {
    hide Duration, MaxDist, Product, AxisAt, Share, Steps, SleepS;
    var n := Steps(k);
    AxisStep(k.start.left, k.target.left, n, idx);
    AxisStep(k.start.right, k.target.right, n, idx);
    ShareWithinRate(k, k.target.left - k.start.left);
    ShareWithinRate(k, k.target.right - k.start.right);
  }

  lemma ShareWithinRate(k: ParkPlan, d: real)
    requires k.rate > 0.0 && Abs(d) <= MaxDist(k)
    ensures Abs(Share(d, Steps(k))) <= Product(Max(k.rate, 0.000001), SleepS(k))
  {
    var n := Steps(k) as real;
    var rate := Max(k.rate, 0.000001);
    hide Steps, MaxDist;
    DistanceInTime(MaxDist(k), rate, Duration(k));
    hide Duration, Product;
    SpreadOverSteps(d, MaxDist(k), rate, Duration(k), n);
  }

  lemma DistanceInTime(dist: real, rate: real, duration: real)
    requires dist >= 0.0 && rate > 0.0 && duration >= dist / rate
    ensures dist <= Product(rate, duration)
  {
    MulMono(rate, dist / rate, duration);
    assert rate * (dist / rate) == dist;
  }

  lemma SpreadOverSteps(d: real, dist: real, rate: real, duration: real, n: real)
    requires n >= 1.0 && Abs(d) <= dist <= Product(rate, duration)
    ensures Abs(d / n) <= Product(rate, duration / n)
  {
    Inverse(n);
    var q := 1.0 / n;
    assert d / n == d * q && duration / n == duration * q;
    assert Product(rate, duration * q) == Product(rate, duration) * q;
    hide Product;
    MulMono(q, Abs(d), Product(rate, duration));
    if d < 0.0 {
      assert q * Abs(d) == -(d * q);
    }
  }
}
