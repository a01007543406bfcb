/** control/current_model.py: predicted thruster current, and the shared scale that keeps its sum under a budget. */
module CurrentModel {
  import opened Prelude

  // ---------------------------------------------------------------- tables

  predicate Ascending(xs: seq<real>)
  {
    forall i, j :: 0 <= i < j < |xs| ==> xs[i] <= xs[j]
  }

  predicate StrictlyAscending(xs: seq<real>)
  {
    forall i, j :: 0 <= i < j < |xs| ==> xs[i] < xs[j]
  }

  /** Python's bisect_right on xs[lo..hi]: the first position whose entry exceeds x. */
  function BisectRight(xs: seq<real>, x: real, lo: nat, hi: nat): (r: nat)
    requires lo <= hi <= |xs| && Ascending(xs)
    ensures lo <= r <= hi
    ensures forall k :: lo <= k < r ==> xs[k] <= x
    ensures forall k :: r <= k < hi ==> x < xs[k]
    decreases hi - lo
  {
    if lo >= hi then lo else
    var mid := (lo + hi) / 2;
    if x < xs[mid] then BisectRight(xs, x, lo, mid) else BisectRight(xs, x, mid + 1, hi)
  }

  function Lerp(y0: real, y1: real, t: real): real
  {
    y0 + t * (y1 - y0)
  }

  /** Where x lies between x0 and x1, as a fraction. */
  function Fraction(x0: real, x1: real, x: real): real
    requires x0 < x1
  {
    (x - x0) / (x1 - x0)
  }

  function Interp(xs: seq<real>, ys: seq<real>, x: real): real
    requires |xs| == |ys| && Ascending(xs)
  {
    if |xs| == 0 then 0.0
    else if x <= xs[0] then ys[0]
    else if x >= xs[|xs| - 1] then ys[|ys| - 1]
    else
      var i := BisectRight(xs, x, 0, |xs|);
      if xs[i] == xs[i - 1] then ys[i - 1]
      else Lerp(ys[i - 1], ys[i], Fraction(xs[i - 1], xs[i], x))
  }

  datatype Curve = Curve(voltage: real, pwm: seq<real>, amps: seq<real>)

  datatype Model = Model(curves: seq<Curve>, neutralUs: real, halfSpanUs: real)

  function Voltages(m: Model): seq<real>
  {
    seq(|m.curves|, i requires 0 <= i < |m.curves| => m.curves[i].voltage)
  }

  /** What the constructor leaves for a payload whose grids ascend and match their currents. */
  predicate Loaded(m: Model)
  {
    && |m.curves| > 0
    && Ascending(Voltages(m))
    && m.halfSpanUs > 0.0
    && forall c :: c in m.curves ==> |c.pwm| == |c.amps| && Ascending(c.pwm)
  }

  function PwmForNorm(m: Model, norm: real): real
  {
    m.neutralUs + Product(m.halfSpanUs, Clamp(norm, -1.0, 1.0))
  }

  function CurveCurrent(c: Curve, pwm: real): real
    requires |c.pwm| == |c.amps| && Ascending(c.pwm)
  {
    Interp(c.pwm, c.amps, pwm)
  }

  function CurrentForNorm(m: Model, norm: real, voltage: real): real
    requires Loaded(m)
  {
    var pwm := PwmForNorm(m, norm);
    var vs := Voltages(m);
    var v := Clamp(voltage, vs[0], vs[|vs| - 1]);
    var j := BisectRight(vs, v, 0, |vs|);  // at least 1: the clamp keeps v at or above vs[0]
    if j >= |vs| then CurveCurrent(m.curves[|vs| - 1], pwm)
    else
      var c0 := CurveCurrent(m.curves[j - 1], pwm);
      if vs[j] == vs[j - 1] then c0
      else Lerp(c0, CurveCurrent(m.curves[j], pwm), Fraction(vs[j - 1], vs[j], v))
  }

  /** Predicted total with every command scaled by s. */
  function TotalAt(m: Model, norms: seq<real>, voltage: real, s: real): real
    requires Loaded(m)
  {
    if norms == [] then 0.0
    else CurrentForNorm(m, Product(s, norms[0]), voltage) + TotalAt(m, norms[1..], voltage, s)
  }

  method TotalCurrent(m: Model, norms: seq<real>, voltage: real, s: real) returns (total: real)
    requires Loaded(m)
    ensures total == TotalAt(m, norms, voltage, s)
  {
    hide CurrentForNorm, Product;
    total := 0.0;
    var i := |norms|;
    while i > 0
      invariant 0 <= i <= |norms|
      invariant total == TotalAt(m, norms[i..], voltage, s)
    {
      i := i - 1;
      total := CurrentForNorm(m, Product(s, norms[i]), voltage) + total;
      assert norms[i..][0] == norms[i] && norms[i..][1..] == norms[i + 1..];
    }
  }

  // ---------------------------------------------------------------- the bisection

  function Bisect(m: Model, norms: seq<real>, voltage: real, budget: real, lo: real, hi: real, n: nat): real
    requires Loaded(m)
    decreases n
  {
    if n == 0 then lo else
    var mid := 0.5 * (lo + hi);
    if TotalAt(m, norms, voltage, mid) > budget then Bisect(m, norms, voltage, budget, lo, mid, n - 1)
    else Bisect(m, norms, voltage, budget, mid, hi, n - 1)
  }

  function BudgetScale(m: Model, norms: seq<real>, voltage: real, budgetA: real, minScale: real, maxIter: nat): real
    requires Loaded(m)
  {
    var floor := Clamp(minScale, 0.0, 1.0);
    var budget := Max(0.0, budgetA);
    var before := TotalAt(m, norms, voltage, 1.0);
    if before <= budget || before <= 0.0 then 1.0
    else if TotalAt(m, norms, voltage, floor) >= budget then floor
    else Bisect(m, norms, voltage, budget, floor, 1.0, maxIter)
  }

  method CurrentBudgetScale(norms: seq<real>, m: Model, voltage: real, budgetA: real, minScale: real, maxIter: int)
    returns (scale: real, before: real, after: real)
    requires Loaded(m)
    ensures scale == BudgetScale(m, norms, voltage, budgetA, minScale, if maxIter > 0 then maxIter else 0)
    ensures before == TotalAt(m, norms, voltage, 1.0)
    ensures after == TotalAt(m, norms, voltage, scale)
  {
    hide TotalAt;
    var floor := Clamp(minScale, 0.0, 1.0);
    var budget := Max(0.0, budgetA);
    before := TotalCurrent(m, norms, voltage, 1.0);
    if before <= budget || before <= 0.0 {
      return 1.0, before, before;
    }
    var floorTotal := TotalCurrent(m, norms, voltage, floor);
    if floorTotal >= budget {
      return floor, before, floorTotal;
    }
    var lo, hi := floor, 1.0;
    var i := 0;
    while i < maxIter
      invariant 0 <= i && (maxIter > 0 ==> i <= maxIter)
      invariant Bisect(m, norms, voltage, budget, lo, hi, if maxIter > 0 then maxIter - i else 0)
             == Bisect(m, norms, voltage, budget, floor, 1.0, if maxIter > 0 then maxIter else 0)
    {
      var mid := 0.5 * (lo + hi);
      var total := TotalCurrent(m, norms, voltage, mid);
      if total > budget {
        hi := mid;
      } else {
        lo := mid;
      }
      i := i + 1;
    }
    after := TotalCurrent(m, norms, voltage, lo);
    scale := lo;
  }

  // ---------------------------------------------------------------- what holds for any table

  function Halvings(n: nat): (r: real)
    ensures r > 0.0
  {
    if n == 0 then 1.0 else 2.0 * Halvings(n - 1)
  }

  /** The bracket never lets go: its low end is within budget, its high end is not, and it halves every step. */
  lemma {:induction false} BisectBrackets(m: Model, norms: seq<real>, voltage: real, budget: real, lo: real, hi: real, n: nat)
    requires Loaded(m) && lo <= hi
    requires TotalAt(m, norms, voltage, lo) <= budget < TotalAt(m, norms, voltage, hi)
    ensures var r := Bisect(m, norms, voltage, budget, lo, hi, n);
            var top := r + (hi - lo) / Halvings(n);
            && lo <= r <= top <= hi
            && TotalAt(m, norms, voltage, r) <= budget < TotalAt(m, norms, voltage, top)
    decreases n
  {
    hide TotalAt;
    if n > 0 {
      var mid := 0.5 * (lo + hi);
      if TotalAt(m, norms, voltage, mid) > budget {
        BisectBrackets(m, norms, voltage, budget, lo, mid, n - 1);
        HalfWidth(lo, hi, mid - lo, Halvings(n - 1));
      } else {
        BisectBrackets(m, norms, voltage, budget, mid, hi, n - 1);
        HalfWidth(lo, hi, hi - mid, Halvings(n - 1));
      }
    }
  }

  lemma HalfWidth(lo: real, hi: real, half: real, p: real)
    requires p > 0.0 && half == 0.5 * (hi - lo)
    ensures half / p == (hi - lo) / (2.0 * p)
  {
  }

  /** For any table at all: the scale is in [floor,1], and if the floor is within budget so is the result. */
  lemma ScaleWithinBudget(m: Model, norms: seq<real>, voltage: real, budgetA: real, minScale: real, maxIter: nat)
    requires Loaded(m)
    ensures var floor, budget := Clamp(minScale, 0.0, 1.0), Max(0.0, budgetA);
            var scale := BudgetScale(m, norms, voltage, budgetA, minScale, maxIter);
            && floor <= scale <= 1.0
            && (TotalAt(m, norms, voltage, floor) <= budget ==> TotalAt(m, norms, voltage, scale) <= budget)
            && (scale == 1.0 && floor < 1.0 ==> TotalAt(m, norms, voltage, 1.0) <= budget)
  {
    hide TotalAt, Bisect;
    var floor, budget := Clamp(minScale, 0.0, 1.0), Max(0.0, budgetA);
    if TotalAt(m, norms, voltage, 1.0) > budget > TotalAt(m, norms, voltage, floor) {
      BisectBrackets(m, norms, voltage, budget, floor, 1.0, maxIter);
    }
  }

  // ---------------------------------------------------------------- V-shaped tables

  /** Currents fall up to knot k and rise after it. */
  predicate VShaped(ys: seq<real>, k: nat)
  {
    && k < |ys|
    && (forall i, j :: 0 <= i <= j <= k ==> ys[i] >= ys[j])
    && (forall i, j :: k <= i <= j < |ys| ==> ys[i] <= ys[j])
  }

  predicate CurveVShaped(c: Curve, neutral: real)
  {
    && |c.pwm| == |c.amps|
    && StrictlyAscending(c.pwm)
    && exists k :: 0 <= k < |c.pwm| && c.pwm[k] == neutral && VShaped(c.amps, k)
  }

  predicate ModelVShaped(m: Model)
  {
    Loaded(m) && forall c :: c in m.curves ==> CurveVShaped(c, m.neutralUs)
  }

  lemma FractionRange(x0: real, x1: real, x: real)
    requires x0 < x1 && x0 <= x <= x1
    ensures 0.0 <= Fraction(x0, x1, x) <= 1.0
  {
    FractionMono(x0, x1, x0, x);
    FractionMono(x0, x1, x, x1);
    FractionEnds(x0, x1);
  }

  lemma FractionEnds(x0: real, x1: real)
    requires x0 < x1
    ensures Fraction(x0, x1, x0) == 0.0 && Fraction(x0, x1, x1) == 1.0
  {
    SelfQuotient(x1 - x0);
  }

  lemma SelfQuotient(d: real)
    requires d > 0.0
    ensures d / d == 1.0 && 0.0 / d == 0.0
  {
  }

  lemma FractionMono(x0: real, x1: real, x: real, y: real)
    requires x0 < x1 && x <= y
    ensures Fraction(x0, x1, x) <= Fraction(x0, x1, y)
  {
    var d := x1 - x0;
    Inverse(d);
    MulMono(1.0 / d, x - x0, y - x0);
  }

  lemma LerpMono(y0: real, y1: real, t: real, u: real)
    requires t <= u
    ensures y0 <= y1 ==> Lerp(y0, y1, t) <= Lerp(y0, y1, u)
    ensures y0 >= y1 ==> Lerp(y0, y1, t) >= Lerp(y0, y1, u)
  {
    if y0 <= y1 {
      MulMono(y1 - y0, t, u);
    }
    if y0 >= y1 {
      MulMono(y0 - y1, t, u);
    }
  }

  lemma LerpBetween(y0: real, y1: real, t: real)
    requires 0.0 <= t <= 1.0
    ensures y0 <= y1 ==> y0 <= Lerp(y0, y1, t) <= y1
    ensures y0 >= y1 ==> y1 <= Lerp(y0, y1, t) <= y0
  {
    LerpMono(y0, y1, 0.0, t);
    LerpMono(y0, y1, t, 1.0);
  }

  lemma LerpStart(y0: real, y1: real)
    ensures Lerp(y0, y1, 0.0) == y0
  {
  }

  /** Both ends larger: the mixture at the same fraction is larger. */
  lemma LerpEnds(a0: real, a1: real, b0: real, b1: real, t: real)
    requires 0.0 <= t <= 1.0 && a0 <= b0 && a1 <= b1
    ensures Lerp(a0, a1, t) <= Lerp(b0, b1, t)
  {
    LerpAsMean(a0, a1, t);
    LerpAsMean(b0, b1, t);
    hide Lerp, Product;
    ProductMono(1.0 - t, a0, b0);
    ProductMono(t, a1, b1);
  }

  lemma LerpAsMean(a0: real, a1: real, t: real)
    ensures Lerp(a0, a1, t) == Product(1.0 - t, a0) + Product(t, a1)
  {
  }

  /** Inside the table: the bracketing knots, and the value between theirs. */
  lemma InterpInside(xs: seq<real>, ys: seq<real>, x: real) returns (i: nat)
    requires |xs| == |ys| > 0 && Ascending(xs)
    requires xs[0] < x < xs[|xs| - 1]
    ensures 0 < i < |xs| && xs[i - 1] <= x < xs[i]
    ensures i == BisectRight(xs, x, 0, |xs|)
    ensures Interp(xs, ys, x) == Lerp(ys[i - 1], ys[i], Fraction(xs[i - 1], xs[i], x))
    ensures ys[i - 1] <= ys[i] ==> ys[i - 1] <= Interp(xs, ys, x) <= ys[i]
    ensures ys[i - 1] >= ys[i] ==> ys[i] <= Interp(xs, ys, x) <= ys[i - 1]
  {
    hide Lerp, Fraction;
    i := BisectRight(xs, x, 0, |xs|);
    FractionRange(xs[i - 1], xs[i], x);
    LerpBetween(ys[i - 1], ys[i], Fraction(xs[i - 1], xs[i], x));
  }

  /** The table is reproduced at its own knots. */
  lemma InterpAtKnot(xs: seq<real>, ys: seq<real>, i: nat)
    requires |xs| == |ys| && StrictlyAscending(xs) && i < |xs|
    ensures Interp(xs, ys, xs[i]) == ys[i]
  {
    hide Lerp, Fraction;
    if 0 < i < |xs| - 1 {
      var j := InterpInside(xs, ys, xs[i]);
      assert j == i + 1;
      FractionEnds(xs[i], xs[j]);
      LerpStart(ys[i], ys[j]);
    }
  }

  lemma RisesRightOfNeutral(xs: seq<real>, ys: seq<real>, k: nat, x: real, y: real)
    requires |xs| == |ys| && StrictlyAscending(xs) && VShaped(ys, k)
    requires xs[k] <= x <= y
    ensures Interp(xs, ys, x) <= Interp(xs, ys, y)
  {
    hide Lerp, Fraction;
    var last := |xs| - 1;
    if xs[0] < x < xs[last] {
      var i := InterpInside(xs, ys, x);
      if y < xs[last] {
        var j := InterpInside(xs, ys, y);
        if i == j {
          FractionMono(xs[i - 1], xs[i], x, y);
          LerpMono(ys[i - 1], ys[i], Fraction(xs[i - 1], xs[i], x), Fraction(xs[i - 1], xs[i], y));
        } else {
          assert k < i <= j - 1;
        }
      } else {
        assert k < i;
      }
    } else if x <= xs[0] && xs[0] < y < xs[last] {
      assert k == 0;
      var j := InterpInside(xs, ys, y);
    }
  }

  lemma FallsLeftOfNeutral(xs: seq<real>, ys: seq<real>, k: nat, x: real, y: real)
    requires |xs| == |ys| && StrictlyAscending(xs) && VShaped(ys, k)
    requires x <= y <= xs[k]
    ensures Interp(xs, ys, x) >= Interp(xs, ys, y)
  {
    hide Lerp, Fraction;
    var last := |xs| - 1;
    if xs[0] < y < xs[last] {
      var j := InterpInside(xs, ys, y);
      if j == k + 1 {
        FractionEnds(xs[k], xs[j]);
        LerpStart(ys[k], ys[j]);
        assert Interp(xs, ys, y) == ys[k];
      }
      if xs[0] < x {
        var i := InterpInside(xs, ys, x);
        if i == j {
          FractionMono(xs[i - 1], xs[i], x, y);
          LerpMono(ys[i - 1], ys[i], Fraction(xs[i - 1], xs[i], x), Fraction(xs[i - 1], xs[i], y));
        }
      }
    } else if y >= xs[last] && xs[0] < x < xs[last] {
      assert k == last;
      var i := InterpInside(xs, ys, x);
    }
  }

  /** Two pulses on the same side of neutral, the second at least as far out. */
  predicate FurtherOut(neutral: real, p: real, q: real)
  {
    neutral <= p <= q || q <= p <= neutral
  }

  lemma CurveMonotone(c: Curve, neutral: real, p: real, q: real)
    requires CurveVShaped(c, neutral) && FurtherOut(neutral, p, q)
    ensures CurveCurrent(c, p) <= CurveCurrent(c, q)
  {
    hide Interp;
    var k: nat :| k < |c.pwm| && c.pwm[k] == neutral && VShaped(c.amps, k);
    if neutral <= p <= q {
      RisesRightOfNeutral(c.pwm, c.amps, k, p, q);
    } else {
      FallsLeftOfNeutral(c.pwm, c.amps, k, q, p);
    }
  }

  /** Scaling a command further from zero moves its pulse further from neutral on the same side. */
  lemma ScalingMovesOut(m: Model, norm: real, s: real, t: real)
    requires m.halfSpanUs > 0.0 && 0.0 <= s <= t
    ensures FurtherOut(m.neutralUs, PwmForNorm(m, Product(s, norm)), PwmForNorm(m, Product(t, norm)))
  {
    var h := m.halfSpanUs;
    ScaledApart(norm, s, t);
    hide Product;
    var a, b := Clamp(Product(s, norm), -1.0, 1.0), Clamp(Product(t, norm), -1.0, 1.0);
    assert 0.0 <= a <= b || b <= a <= 0.0;
    SpanMono(h, a, b);
  }

  lemma ScaledApart(norm: real, s: real, t: real)
    requires 0.0 <= s <= t
    ensures 0.0 <= Product(s, norm) <= Product(t, norm) || Product(t, norm) <= Product(s, norm) <= 0.0
  {
    if norm >= 0.0 {
      MulOrder(s, t, norm);
    } else {
      MulOrder(s, t, -norm);
      assert s * -norm == -Product(s, norm) && t * -norm == -Product(t, norm);
    }
  }

  lemma SpanMono(h: real, a: real, b: real)
    requires h > 0.0 && (0.0 <= a <= b || b <= a <= 0.0)
    ensures 0.0 <= Product(h, a) <= Product(h, b) || Product(h, b) <= Product(h, a) <= 0.0
  {
    if 0.0 <= a <= b {
      ProductMono(h, 0.0, a);
      ProductMono(h, a, b);
    } else {
      ProductMono(h, b, a);
      ProductMono(h, a, 0.0);
    }
  }

  /** Through both interpolations: a command scaled further out never draws less. */
  lemma CurrentMonotone(m: Model, norm: real, voltage: real, s: real, t: real)
    requires ModelVShaped(m) && 0.0 <= s <= t
    ensures CurrentForNorm(m, Product(s, norm), voltage) <= CurrentForNorm(m, Product(t, norm), voltage)
  {
    hide CurveCurrent, Lerp, Fraction, PwmForNorm, Product;
    var p, q := PwmForNorm(m, Product(s, norm)), PwmForNorm(m, Product(t, norm));
    ScalingMovesOut(m, norm, s, t);
    var vs := Voltages(m);
    var v := Clamp(voltage, vs[0], vs[|vs| - 1]);
    var j := BisectRight(vs, v, 0, |vs|);
    if j >= |vs| {
      CurveMonotone(m.curves[|vs| - 1], m.neutralUs, p, q);
    } else {
      var low, high := m.curves[j - 1], m.curves[j];
      CurveMonotone(low, m.neutralUs, p, q);
      CurveMonotone(high, m.neutralUs, p, q);
      FractionRange(vs[j - 1], vs[j], v);
      LerpEnds(CurveCurrent(low, p), CurveCurrent(high, p), CurveCurrent(low, q), CurveCurrent(high, q),
               Fraction(vs[j - 1], vs[j], v));
    }
  }

  lemma {:induction false} TotalMonotone(m: Model, norms: seq<real>, voltage: real, s: real, t: real)
    requires ModelVShaped(m) && 0.0 <= s <= t
    ensures TotalAt(m, norms, voltage, s) <= TotalAt(m, norms, voltage, t)
  {
    hide CurrentForNorm, Product;
    if norms != [] {
      CurrentMonotone(m, norms[0], voltage, s, t);
      TotalMonotone(m, norms[1..], voltage, s, t);
    }
  }

  // ---------------------------------------------------------------- when the total is monotone

  /** Grids and voltages without repeats, neutral a knot of every curve, and every knot within reach of a command. */
  predicate Gridded(m: Model)
  {
    && Loaded(m)
    && StrictlyAscending(Voltages(m))
    && forall c :: c in m.curves ==>
         && StrictlyAscending(c.pwm)
         && m.neutralUs in c.pwm
         && forall i :: 0 <= i < |c.pwm| ==> Abs(c.pwm[i] - m.neutralUs) <= m.halfSpanUs
  }

  /** At the voltage of a curve that curve alone counts. */
  lemma AtVoltageKnot(m: Model, j: nat, norm: real)
    requires Loaded(m) && StrictlyAscending(Voltages(m)) && j < |m.curves|
    ensures CurrentForNorm(m, norm, m.curves[j].voltage) == CurveCurrent(m.curves[j], PwmForNorm(m, norm))
  {
    hide CurveCurrent, PwmForNorm, Lerp, Fraction;
    var vs := Voltages(m);
    var v := vs[j];
    assert Clamp(v, vs[0], vs[|vs| - 1]) == v;
    assert v == vs[j] >= vs[0] && v <= vs[|vs| - 1];
    assert BisectRight(vs, v, 0, |vs|) == j + 1 by {
      assert j + 1 < |vs| ==> vs[j] < vs[j + 1];
    }
    if j + 1 < |vs| {
      FractionEnds(vs[j], vs[j + 1]);
      LerpStart(CurveCurrent(m.curves[j], PwmForNorm(m, norm)), CurveCurrent(m.curves[j + 1], PwmForNorm(m, norm)));
    }
  }

  /** Between adjacent voltages the current is the straight line through the two curves' values. */
  lemma BetweenVoltages(m: Model, norm: real, voltage: real, j: nat)
    requires Loaded(m) && StrictlyAscending(Voltages(m)) && j + 1 < |m.curves|
    requires m.curves[j].voltage <= voltage <= m.curves[j + 1].voltage
    ensures var lower, upper := CurveCurrent(m.curves[j], PwmForNorm(m, norm)), CurveCurrent(m.curves[j + 1], PwmForNorm(m, norm));
            var from, to := m.curves[j].voltage, m.curves[j + 1].voltage;
            Product(CurrentForNorm(m, norm, voltage) - lower, to - from) == Product(upper - lower, voltage - from)
  {
    hide CurrentForNorm, CurveCurrent, PwmForNorm, Lerp, Fraction, Product, BisectRight;
    var vs, lower, upper := Voltages(m), CurveCurrent(m.curves[j], PwmForNorm(m, norm)), CurveCurrent(m.curves[j + 1], PwmForNorm(m, norm));
    assert vs[j] < vs[j + 1];
    if voltage == vs[j + 1] {
      AtVoltageKnot(m, j + 1, norm);
    } else {
      BracketedVoltage(m, norm, voltage, j);
      OnTheLine(lower, upper, vs[j], vs[j + 1], voltage);
    }
  }

  lemma BracketedVoltage(m: Model, norm: real, voltage: real, j: nat)
    requires Loaded(m) && StrictlyAscending(Voltages(m)) && j + 1 < |m.curves| && Voltages(m)[j] <= voltage < Voltages(m)[j + 1]
    ensures CurrentForNorm(m, norm, voltage) == Lerp(CurveCurrent(m.curves[j], PwmForNorm(m, norm)),
              CurveCurrent(m.curves[j + 1], PwmForNorm(m, norm)), Fraction(Voltages(m)[j], Voltages(m)[j + 1], voltage))
  {
    hide CurveCurrent, PwmForNorm, Lerp, Fraction;
    var vs := Voltages(m);
    assert vs[0] <= vs[j] && vs[j + 1] <= vs[|vs| - 1];
    assert BisectRight(vs, voltage, 0, |vs|) == j + 1;
  }

  lemma OnTheLine(y0: real, y1: real, x0: real, x1: real, x: real)
    requires x0 < x1
    ensures Product(Lerp(y0, y1, Fraction(x0, x1, x)) - y0, x1 - x0) == Product(y1 - y0, x - x0)
  {
    var t := Fraction(x0, x1, x);
    assert t * (x1 - x0) == x - x0;
    assert t * (y1 - y0) * (x1 - x0) == (y1 - y0) * (t * (x1 - x0));
  }

  /** Beyond the outer voltages, and beyond full command, the nearest known value counts. Neutral and full command ask for
      the neutral pulse and for half the span to either side. */
  lemma BeyondTheTable(m: Model, norm: real, voltage: real)
    requires Loaded(m)
    ensures var lowest, highest := m.curves[0].voltage, m.curves[|m.curves| - 1].voltage;
            && (voltage <= lowest ==> CurrentForNorm(m, norm, voltage) == CurrentForNorm(m, norm, lowest))
            && (voltage >= highest ==> CurrentForNorm(m, norm, voltage) == CurrentForNorm(m, norm, highest))
            && (norm >= 1.0 ==> CurrentForNorm(m, norm, voltage) == CurrentForNorm(m, 1.0, voltage))
            && (norm <= -1.0 ==> CurrentForNorm(m, norm, voltage) == CurrentForNorm(m, -1.0, voltage))
    ensures PwmForNorm(m, 0.0) == m.neutralUs && PwmForNorm(m, 1.0) == m.neutralUs + m.halfSpanUs
    ensures PwmForNorm(m, -1.0) == m.neutralUs - m.halfSpanUs
  {
    hide CurveCurrent, Lerp, Fraction, BisectRight;
    assert Voltages(m)[0] <= Voltages(m)[|m.curves| - 1];
  }

  /** The command that asks for a pulse. */
  function NormFor(m: Model, pwm: real): real
    requires m.halfSpanUs > 0.0
  {
    (pwm - m.neutralUs) / m.halfSpanUs
  }

  lemma PulseReached(m: Model, pwm: real)
    requires m.halfSpanUs > 0.0 && Abs(pwm - m.neutralUs) <= m.halfSpanUs
    ensures PwmForNorm(m, NormFor(m, pwm)) == pwm && -1.0 <= NormFor(m, pwm) <= 1.0
  {
    var h, d := m.halfSpanUs, pwm - m.neutralUs;
    QuotientMonotone(-h, d, h);
    QuotientMonotone(d, h, h);
    SelfQuotient(h);
    NegativeQuotient(h);
    TimesQuotient(h, d);
    hide Product;
  }

  lemma NegativeQuotient(h: real)
    requires h > 0.0
    ensures -h / h == -1.0
  {
  }

  lemma TimesQuotient(h: real, d: real)
    requires h > 0.0
    ensures Product(h, d / h) == d
  {
  }

  lemma TotalOfOne(m: Model, norm: real, voltage: real, s: real)
    requires Loaded(m)
    ensures TotalAt(m, [norm], voltage, s) == CurrentForNorm(m, Product(s, norm), voltage)
  {
    hide CurrentForNorm, Product;
    assert [norm][1..] == [];
  }

  function Signed(up: bool, x: real): real
  {
    if up then x else -x
  }

  lemma SignedTwice(up: bool, x: real)
    ensures Product(Signed(up, x), Signed(up, 1.0)) == x
  {
  }

  /** The predicted total at a knot of a curve, at its voltage, by a single full command of either sign. */
  lemma KnotTotal(m: Model, j: nat, i: nat, up: bool)
    requires Gridded(m) && j < |m.curves| && i < |m.curves[j].pwm|
    ensures TotalAt(m, [Signed(up, 1.0)], m.curves[j].voltage, Signed(up, NormFor(m, m.curves[j].pwm[i]))) == m.curves[j].amps[i]
  {
    var c := m.curves[j];
    assert c in m.curves;
    hide Product, NormFor, CurrentForNorm, TotalAt, PwmForNorm, Interp, Signed, Ascending, StrictlyAscending;
    var norm := NormFor(m, c.pwm[i]);
    PulseReached(m, c.pwm[i]);
    SignedTwice(up, norm);
    TotalOfOne(m, Signed(up, 1.0), c.voltage, Signed(up, norm));
    AtVoltageKnot(m, j, norm);
    InterpAtKnot(c.pwm, c.amps, i);
  }

  ghost predicate TotalsMonotone(m: Model)
    requires Loaded(m)
  {
    forall norms, voltage, s, t :: 0.0 <= s <= t ==> TotalAt(m, norms, voltage, s) <= TotalAt(m, norms, voltage, t)
  }

  lemma KnotsOrdered(m: Model, j: nat, i: nat, l: nat, up: bool)
    requires Gridded(m) && TotalsMonotone(m) && j < |m.curves| && i < |m.curves[j].pwm| && l < |m.curves[j].pwm|
    requires var c := m.curves[j]; 0.0 <= Signed(up, c.pwm[i] - m.neutralUs) <= Signed(up, c.pwm[l] - m.neutralUs)
    ensures m.curves[j].amps[i] <= m.curves[j].amps[l]
  {
    var c := m.curves[j];
    assert c in m.curves;
    NormsOrdered(m, c.pwm[i], c.pwm[l], up);
    KnotTotal(m, j, i, up);
    KnotTotal(m, j, l, up);
    hide TotalAt, Gridded, NormFor, Signed;
    var s, t := Signed(up, NormFor(m, c.pwm[i])), Signed(up, NormFor(m, c.pwm[l]));
    assert TotalAt(m, [Signed(up, 1.0)], c.voltage, s) <= TotalAt(m, [Signed(up, 1.0)], c.voltage, t);
  }

  lemma NormsOrdered(m: Model, p: real, q: real, up: bool)
    requires m.halfSpanUs > 0.0
    requires 0.0 <= Signed(up, p - m.neutralUs) <= Signed(up, q - m.neutralUs)
    ensures 0.0 <= Signed(up, NormFor(m, p)) <= Signed(up, NormFor(m, q))
  {
    var n, h := m.neutralUs, m.halfSpanUs;
    SelfQuotient(h);
    if up {
      QuotientMonotone(0.0, p - n, h);
      QuotientMonotone(p - n, q - n, h);
    } else {
      QuotientMonotone(p - n, 0.0, h);
      QuotientMonotone(q - n, p - n, h);
    }
  }

  /** The predicted total grows with the scale, for every set of commands at every voltage, if and only if every curve
      falls to neutral and rises from it. */
  lemma TotalMonotoneExactly(m: Model)
    requires Gridded(m)
    ensures TotalsMonotone(m) <==> ModelVShaped(m)
  {
    if ModelVShaped(m) {
      forall norms, voltage, s, t | 0.0 <= s <= t ensures TotalAt(m, norms, voltage, s) <= TotalAt(m, norms, voltage, t) {
        TotalMonotone(m, norms, voltage, s, t);
      }
    }
    if TotalsMonotone(m) {
      forall c | c in m.curves ensures CurveVShaped(c, m.neutralUs) {
        var j: nat :| j < |m.curves| && m.curves[j] == c;
        MonotoneCurve(m, j);
      }
    }
    hide TotalAt, CurveVShaped;
  }

  lemma MonotoneCurve(m: Model, j: nat)
    requires Gridded(m) && TotalsMonotone(m) && j < |m.curves|
    ensures CurveVShaped(m.curves[j], m.neutralUs)
  {
    hide TotalsMonotone;
    var c := m.curves[j];
    assert c in m.curves;
    var k: nat :| k < |c.pwm| && c.pwm[k] == m.neutralUs;
    forall i, l | 0 <= i <= l <= k ensures c.amps[i] >= c.amps[l] {
      KnotsOrdered(m, j, l, i, false);
    }
    forall i, l | k <= i <= l < |c.amps| ensures c.amps[i] <= c.amps[l] {
      KnotsOrdered(m, j, i, l, true);
    }
    assert VShaped(c.amps, k);
  }

  /** V-shaped tables: when the budget binds and the floor is under it, no scale beyond the result
      by the final bracket width is admissible. */
  lemma ScaleNearMaximal(m: Model, norms: seq<real>, voltage: real, budgetA: real, minScale: real, maxIter: nat, s: real)
    requires ModelVShaped(m)
    requires TotalAt(m, norms, voltage, Clamp(minScale, 0.0, 1.0)) < Max(0.0, budgetA) < TotalAt(m, norms, voltage, 1.0)
    requires BudgetScale(m, norms, voltage, budgetA, minScale, maxIter)
             + (1.0 - Clamp(minScale, 0.0, 1.0)) / Halvings(maxIter) <= s
    ensures TotalAt(m, norms, voltage, s) > Max(0.0, budgetA)
  {
    hide TotalAt, Bisect, Halvings;
    var floor, budget := Clamp(minScale, 0.0, 1.0), Max(0.0, budgetA);
    BisectBrackets(m, norms, voltage, budget, floor, 1.0, maxIter);
    TotalMonotone(m, norms, voltage, Bisect(m, norms, voltage, budget, floor, 1.0, maxIter) + (1.0 - floor) / Halvings(maxIter), s);
  }

  /** V-shaped tables, whenever the budget binds: no scale beyond the result by the final bracket width is admissible
      if and only if the floor draws less than the budget, or that width above the floor already draws more. A floor
      that draws exactly the budget is returned as it is. */
  lemma NearMaximalExactly(m: Model, norms: seq<real>, voltage: real, budgetA: real, minScale: real, maxIter: nat)
    requires ModelVShaped(m) && TotalAt(m, norms, voltage, 1.0) > Max(0.0, budgetA)
    ensures var floor, budget := Clamp(minScale, 0.0, 1.0), Max(0.0, budgetA);
            var scale, width := BudgetScale(m, norms, voltage, budgetA, minScale, maxIter), (1.0 - floor) / Halvings(maxIter);
            (forall s :: scale + width <= s ==> TotalAt(m, norms, voltage, s) > budget)
            <==> TotalAt(m, norms, voltage, floor) < budget || TotalAt(m, norms, voltage, floor + width) > budget
  {
    hide TotalAt, Bisect, Halvings;
    var floor, budget := Clamp(minScale, 0.0, 1.0), Max(0.0, budgetA);
    var scale, width := BudgetScale(m, norms, voltage, budgetA, minScale, maxIter), (1.0 - floor) / Halvings(maxIter);
    WidthSign(1.0 - floor, Halvings(maxIter));
    if TotalAt(m, norms, voltage, floor) < budget {
      forall s | scale + width <= s ensures TotalAt(m, norms, voltage, s) > budget {
        ScaleNearMaximal(m, norms, voltage, budgetA, minScale, maxIter, s);
      }
    } else {
      forall s | floor + width <= s ensures TotalAt(m, norms, voltage, floor + width) <= TotalAt(m, norms, voltage, s) {
        TotalMonotone(m, norms, voltage, floor + width, s);
      }
    }
  }

  lemma WidthSign(d: real, n: real)
    requires d >= 0.0 && n > 0.0
    ensures d / n >= 0.0
  {
  }

  /** V-shaped tables: if even the floor is over budget, so is every scale above it. */
  lemma FloorOverBudget(m: Model, norms: seq<real>, voltage: real, budgetA: real, minScale: real, maxIter: nat, s: real)
    requires ModelVShaped(m)
    requires TotalAt(m, norms, voltage, Clamp(minScale, 0.0, 1.0)) > Max(0.0, budgetA)
    requires Clamp(minScale, 0.0, 1.0) <= s
    ensures TotalAt(m, norms, voltage, s) > Max(0.0, budgetA)
  {
    hide TotalAt;
    TotalMonotone(m, norms, voltage, Clamp(minScale, 0.0, 1.0), s);
  }

  // ---------------------------------------------------------------- without the V shape

  /** A table with one dip right of neutral, like the shipped 14 V curve between 1544 and 1548 us. */
  const DIPPED := Model([Curve(14.0, [1100.0, 1500.0, 1700.0, 1800.0, 1900.0], [20.0, 0.0, 10.0, 1.0, 20.0])], 1500.0, 400.0)

  lemma DippedLoaded()
    ensures Gridded(DIPPED) && !ModelVShaped(DIPPED)
  {
    var c := DIPPED.curves[0];
    DippedCurve();
    hide StrictlyAscending, Ascending, VShaped;
    OneCurve(DIPPED);
    assert c.pwm[1] == DIPPED.neutralUs;
  }

  lemma DippedCurve()
    ensures var c := DIPPED.curves[0];
            && StrictlyAscending(c.pwm) && Ascending(c.pwm) && (forall k: nat :: !VShaped(c.amps, k))
            && StrictlyAscending(Voltages(DIPPED)) && Ascending(Voltages(DIPPED))
            && forall i :: 0 <= i < |c.pwm| ==> Abs(c.pwm[i] - DIPPED.neutralUs) <= DIPPED.halfSpanUs
  {
    var c := DIPPED.curves[0];
    assert |c.pwm| == 5 && |c.amps| == 5;
    PeakIsNoV(c.amps, 2);
  }

  lemma PeakIsNoV(ys: seq<real>, i: nat)
    requires 0 < i < |ys| - 1 && ys[i - 1] < ys[i] && ys[i + 1] < ys[i]
    ensures forall k: nat :: !VShaped(ys, k)
  {
    forall k: nat ensures !VShaped(ys, k) {
      if k <= i {
        assert ys[i] > ys[i + 1];
      } else {
        assert ys[i - 1] < ys[i];
      }
    }
  }

  /** The draw of a command of 1 scaled by s, where that is a knot of the first curve. */
  lemma FullTotal(m: Model, i: nat, s: real)
    requires Gridded(m) && i < |m.curves[0].pwm|
    requires m.neutralUs == 1500.0 && m.halfSpanUs == 400.0 && m.curves[0].pwm[i] == 1500.0 + 400.0 * s
    ensures TotalAt(m, [1.0], m.curves[0].voltage, s) == m.curves[0].amps[i]
  {
    assert |m.curves| > 0;
    hide TotalAt, Gridded, NormFor;
    KnotTotal(m, 0, i, true);
    NormAt(m, m.curves[0].pwm[i], s);
  }

  lemma NormAt(m: Model, pwm: real, s: real)
    requires m.neutralUs == 1500.0 && m.halfSpanUs == 400.0 && pwm == 1500.0 + 400.0 * s
    ensures NormFor(m, pwm) == s
  {
    Hundredths(pwm - 1500.0, s);
  }

  lemma Hundredths(d: real, s: real)
    requires d == 400.0 * s
    ensures d / 400.0 == s
  {
  }

  lemma OneCurve(m: Model)
    requires |m.curves| == 1
    ensures |Voltages(m)| == 1 && forall c :: c in m.curves <==> c == m.curves[0]
  {
  }

  /** Whatever the table, wherever it dips: if the total exceeds the budget at a scale s and at 1, but neither at a
      larger scale t nor at the floor 2s - 1, then for that floor the bisection rejects s and everything above it,
      however long it runs, although t is admissible. */
  lemma DipBreaksPromise(m: Model, norms: seq<real>, voltage: real, budget: real, s: real, t: real, maxIter: nat)
    requires Loaded(m) && maxIter >= 1 && budget >= 0.0 && 0.5 <= s < t < 1.0
    requires TotalAt(m, norms, voltage, 2.0 * s - 1.0) < budget < TotalAt(m, norms, voltage, s)
    requires TotalAt(m, norms, voltage, t) <= budget < TotalAt(m, norms, voltage, 1.0)
    ensures BudgetScale(m, norms, voltage, budget, 2.0 * s - 1.0, maxIter) <= s
  {
    hide TotalAt, Halvings;
    BisectBrackets(m, norms, voltage, budget, 2.0 * s - 1.0, s, maxIter - 1);
  }

  /** There, a command of 1 under a 5 A budget is scaled to at most one half however long the
      bisection runs, although three quarters is admissible. */
  lemma DipLosesThrust(maxIter: nat)
    requires maxIter >= 1
    ensures Loaded(DIPPED) && !ModelVShaped(DIPPED)
    ensures BudgetScale(DIPPED, [1.0], 14.0, 5.0, 0.0, maxIter) <= 0.5
    ensures TotalAt(DIPPED, [1.0], 14.0, 0.75) <= 5.0
  {
    DippedLoaded();
    hide Gridded, TotalAt, BudgetScale;
    FullTotal(DIPPED, 1, 0.0);
    FullTotal(DIPPED, 2, 0.5);
    FullTotal(DIPPED, 3, 0.75);
    FullTotal(DIPPED, 4, 1.0);
    DipBreaksPromise(DIPPED, [1.0], 14.0, 5.0, 0.5, 0.75, maxIter);
  }

  // ---------------------------------------------------------------- a floor at the budget

  /** V-shaped and flat around neutral, as the shipped curves are. */
  const FLAT := Model([Curve(14.0, [1100.0, 1460.0, 1500.0, 1540.0, 1900.0], [20.0, 0.0, 0.0, 0.0, 20.0])], 1500.0, 400.0)

  /** With nothing to spend and no floor, a command of 1 is scaled to 0, although a tenth of it draws nothing either. */
  lemma FloorTieStops(maxIter: nat)
    ensures ModelVShaped(FLAT)
    ensures BudgetScale(FLAT, [1.0], 14.0, 0.0, 0.0, maxIter) == 0.0
    ensures TotalAt(FLAT, [1.0], 14.0, 0.1) == 0.0 < TotalAt(FLAT, [1.0], 14.0, 1.0)
  {
    FlatLoaded();
    hide Gridded, ModelVShaped, TotalAt;
    FullTotal(FLAT, 2, 0.0);
    FullTotal(FLAT, 3, 0.1);
    FullTotal(FLAT, 4, 1.0);
  }

  lemma FlatLoaded()
    ensures Gridded(FLAT) && ModelVShaped(FLAT)
  {
    var c := FLAT.curves[0];
    FlatCurve();
    hide StrictlyAscending, VShaped;
    OneCurve(FLAT);
    assert c.pwm[2] == FLAT.neutralUs;
  }

  lemma FlatCurve()
    ensures var c := FLAT.curves[0];
            && StrictlyAscending(c.pwm) && Ascending(c.pwm) && VShaped(c.amps, 2)
            && StrictlyAscending(Voltages(FLAT)) && Ascending(Voltages(FLAT))
            && forall i :: 0 <= i < |c.pwm| ==> Abs(c.pwm[i] - FLAT.neutralUs) <= FLAT.halfSpanUs
  {
    var c := FLAT.curves[0];
    assert |c.pwm| == 5 && |c.amps| == 5;
    FiveAmps(c.amps);
  }

  lemma FiveAmps(ys: seq<real>)
    requires |ys| == 5 && ys[0] >= ys[1] >= ys[2] && ys[2] <= ys[3] <= ys[4]
    ensures VShaped(ys, 2)
  {
  }
}
