/** control/current_model.py: for which tables and commands the bisection keeps its promise of the largest scale,
    decided for any table, V-shaped or not. */
module BudgetPromise {
  import opened Prelude
  import opened CurrentModel

  /** Grids without repeated pulse widths: interpolation without jumps. */
  predicate Smooth(m: Model)
  {
    Loaded(m) && forall c :: c in m.curves ==> StrictlyAscending(c.pwm)
  }

  predicate Between(x: real, l: real, y: real)
  {
    x < l < y || y < l < x
  }

  // ---------------------------------------------------------------- straight pieces of one curve

  lemma LerpSwap(x: real, y: real, t: real)
    ensures Lerp(x, y, t) == Lerp(y, x, 1.0 - t)
  {
  }

  lemma LerpSame(x: real, t: real)
    ensures Lerp(x, x, t) == x
  {
  }

  /** Interpolating two interpolations, in either order. */
  lemma LerpOfLerps(a: real, b: real, c: real, d: real, t: real, f: real)
    ensures Lerp(Lerp(a, b, t), Lerp(c, d, t), f) == Lerp(Lerp(a, c, f), Lerp(b, d, f), t)
  {
  }

  lemma FractionLerp(x0: real, x1: real, p: real, q: real, t: real)
    requires x0 < x1
    ensures Fraction(x0, x1, Lerp(p, q, t)) == Lerp(Fraction(x0, x1, p), Fraction(x0, x1, q), t)
  {
    var r := 1.0 / (x1 - x0);
    OverIsTimes(Lerp(p, q, t) - x0, x1 - x0);
    OverIsTimes(p - x0, x1 - x0);
    OverIsTimes(q - x0, x1 - x0);
    Stretched(p - x0, q - x0, t, r);
    assert Lerp(p, q, t) - x0 == Lerp(p - x0, q - x0, t);
    hide Lerp, Product;
  }

  lemma OverIsTimes(x: real, d: real)
    requires d > 0.0
    ensures x / d == Product(1.0 / d, x)
  {
    Inverse(d);
  }

  lemma Stretched(p: real, q: real, t: real, k: real)
    ensures Product(k, Lerp(p, q, t)) == Lerp(Product(k, p), Product(k, q), t)
  {
  }

  lemma LerpStaysBetween(p: real, q: real, t: real)
    requires 0.0 <= t <= 1.0 && p <= q
    ensures p <= Lerp(p, q, t) <= q
  {
    LerpBetween(p, q, t);
  }

  /** On a closed cell of the table, its ends included. */
  lemma CellValue(xs: seq<real>, ys: seq<real>, i: nat, x: real)
    requires |xs| == |ys| && StrictlyAscending(xs) && 0 < i < |xs| && xs[i - 1] <= x <= xs[i]
    ensures Interp(xs, ys, x) == Lerp(ys[i - 1], ys[i], Fraction(xs[i - 1], xs[i], x))
  {
    hide Lerp, Fraction;
    FractionEnds(xs[i - 1], xs[i]);
    LerpStart(ys[i - 1], ys[i]);
    LerpEnd(ys[i - 1], ys[i]);
    if x == xs[i - 1] {
      InterpAtKnot(xs, ys, i - 1);
    } else if x == xs[i] {
      InterpAtKnot(xs, ys, i);
    } else {
      var j := InterpInside(xs, ys, x);
      assert j == i;
    }
  }

  lemma LerpEnd(y0: real, y1: real)
    ensures Lerp(y0, y1, 1.0) == y1
  {
  }

  lemma InterpStraight(xs: seq<real>, ys: seq<real>, p: real, q: real, t: real)
    requires |xs| == |ys| && StrictlyAscending(xs) && 0.0 <= t <= 1.0 && p <= q
    requires forall i :: 0 <= i < |xs| ==> !(p < xs[i] < q)
    ensures Interp(xs, ys, Lerp(p, q, t)) == Lerp(Interp(xs, ys, p), Interp(xs, ys, q), t)
  {
    hide Fraction, Lerp;
    var x := Lerp(p, q, t);
    LerpStaysBetween(p, q, t);
    LerpSame(Interp(xs, ys, p), t);
    LerpSame(p, t);
    if |xs| > 0 && p < q && q > xs[0] && p < xs[|xs| - 1] {
      var i := CellOf(xs, p);
      assert q <= xs[i];
      CellValue(xs, ys, i, p);
      CellValue(xs, ys, i, q);
      CellValue(xs, ys, i, x);
      hide Interp;
      FractionLerp(xs[i - 1], xs[i], p, q, t);
      LerpInner(ys[i - 1], ys[i], Fraction(xs[i - 1], xs[i], p), Fraction(xs[i - 1], xs[i], q), t);
    } else if |xs| > 0 && q <= xs[0] {
      AtOrBelow(xs, ys, p);
      AtOrBelow(xs, ys, q);
      AtOrBelow(xs, ys, x);
    } else if |xs| > 0 && p >= xs[|xs| - 1] {
      AtOrAbove(xs, ys, p);
      AtOrAbove(xs, ys, q);
      AtOrAbove(xs, ys, x);
    }
  }

  lemma AtOrBelow(xs: seq<real>, ys: seq<real>, x: real)
    requires |xs| == |ys| > 0 && StrictlyAscending(xs) && x <= xs[0]
    ensures Interp(xs, ys, x) == ys[0]
  {
  }

  lemma AtOrAbove(xs: seq<real>, ys: seq<real>, x: real)
    requires |xs| == |ys| > 0 && StrictlyAscending(xs) && x >= xs[|xs| - 1]
    ensures Interp(xs, ys, x) == ys[|ys| - 1]
  {
  }

  lemma CellOf(xs: seq<real>, p: real) returns (i: nat)
    requires |xs| > 0 && StrictlyAscending(xs) && xs[0] <= p < xs[|xs| - 1]
    ensures 0 < i < |xs| && xs[i - 1] <= p < xs[i]
  {
    i := BisectRight(xs, p, 0, |xs|);
  }

  lemma LerpInner(y0: real, y1: real, f: real, g: real, t: real)
    ensures Lerp(y0, y1, Lerp(f, g, t)) == Lerp(Lerp(y0, y1, f), Lerp(y0, y1, g), t)
  {
  }

  lemma CurveStraight(c: Curve, p: real, q: real, t: real)
    requires |c.pwm| == |c.amps| && StrictlyAscending(c.pwm) && 0.0 <= t <= 1.0
    requires forall i :: 0 <= i < |c.pwm| ==> !Between(p, c.pwm[i], q)
    ensures CurveCurrent(c, Lerp(p, q, t)) == Lerp(CurveCurrent(c, p), CurveCurrent(c, q), t)
  {
    hide Interp, Lerp;
    if p <= q {
      InterpStraight(c.pwm, c.amps, p, q, t);
    } else {
      InterpStraight(c.pwm, c.amps, q, p, 1.0 - t);
      LerpSwap(p, q, t);
      LerpSwap(CurveCurrent(c, p), CurveCurrent(c, q), t);
    }
  }

  // ---------------------------------------------------------------- straight pieces of one thruster

  function KnotLevels(m: Model, c: Curve): seq<real>
    requires m.halfSpanUs > 0.0
  {
    seq(|c.pwm|, i requires 0 <= i < |c.pwm| => NormFor(m, c.pwm[i]))
  }

  function CurveLevels(m: Model, n: nat): seq<real>
    requires m.halfSpanUs > 0.0 && n <= |m.curves|
  {
    if n == 0 then [] else CurveLevels(m, n - 1) + KnotLevels(m, m.curves[n - 1])
  }

  /** The commands at which the prediction for one thruster may bend. */
  function Levels(m: Model): seq<real>
    requires m.halfSpanUs > 0.0
  {
    [-1.0, 1.0] + CurveLevels(m, |m.curves|)
  }

  lemma {:induction false} KnotIsLevel(m: Model, n: nat, j: nat, i: nat)
    requires m.halfSpanUs > 0.0 && j < n <= |m.curves| && i < |m.curves[j].pwm|
    ensures NormFor(m, m.curves[j].pwm[i]) in CurveLevels(m, n)
  {
    hide NormFor;
    if j < n - 1 {
      KnotIsLevel(m, n - 1, j, i);
    } else {
      assert KnotLevels(m, m.curves[j])[i] == NormFor(m, m.curves[j].pwm[i]);
    }
  }

  predicate StraightBetween(m: Model, x: real, y: real)
    requires m.halfSpanUs > 0.0
  {
    forall l :: l in Levels(m) ==> !Between(x, l, y)
  }

  lemma ClampStraight(x: real, y: real, t: real)
    requires 0.0 <= t <= 1.0 && !Between(x, 1.0, y) && !Between(x, -1.0, y)
    ensures Clamp(Lerp(x, y, t), -1.0, 1.0) == Lerp(Clamp(x, -1.0, 1.0), Clamp(y, -1.0, 1.0), t)
  {
    LerpBetween(x, y, t);
    LerpSame(1.0, t);
    LerpSame(-1.0, t);
    hide Lerp;
  }

  lemma PulseStraight(m: Model, x: real, y: real, t: real)
    requires 0.0 <= t <= 1.0 && !Between(x, 1.0, y) && !Between(x, -1.0, y)
    ensures PwmForNorm(m, Lerp(x, y, t)) == Lerp(PwmForNorm(m, x), PwmForNorm(m, y), t)
  {
    var a, b := Clamp(x, -1.0, 1.0), Clamp(y, -1.0, 1.0);
    ClampStraight(x, y, t);
    Stretched(a, b, t, m.halfSpanUs);
    Shifted(m.neutralUs, Product(m.halfSpanUs, a), Product(m.halfSpanUs, b), t);
    hide Lerp, Product, Clamp;
  }

  lemma Shifted(d: real, p: real, q: real, t: real)
    ensures Lerp(d + p, d + q, t) == d + Lerp(p, q, t)
  {
  }

  /** A knot between two pulses is a level between the commands that ask for them. */
  lemma KnotBetween(m: Model, x: real, y: real, pwm: real)
    requires m.halfSpanUs > 0.0 && Between(PwmForNorm(m, x), pwm, PwmForNorm(m, y))
    ensures Between(x, NormFor(m, pwm), y)
  {
    var h, d := m.halfSpanUs, pwm - m.neutralUs;
    var a, b := Clamp(x, -1.0, 1.0), Clamp(y, -1.0, 1.0);
    LevelOrder(h, a, d);
    LevelOrder(h, b, d);
    hide Product;
  }

  lemma LevelOrder(h: real, a: real, d: real)
    requires h > 0.0
    ensures Product(h, a) < d <==> a < d / h
    ensures d < Product(h, a) <==> d / h < a
  {
    TimesQuotient(h, d);
    var l := d / h;
    if a < l {
      Stretch(h, a, l);
    } else if l < a {
      Stretch(h, l, a);
    }
    hide Product;
  }

  lemma Stretch(h: real, a: real, b: real)
    requires h > 0.0 && a < b
    ensures Product(h, a) < Product(h, b)
  {
  }

  /** Between two commands with no level between them the prediction is a straight line, at any voltage. */
  lemma CurrentStraight(m: Model, voltage: real, x: real, y: real, t: real)
    requires Smooth(m) && 0.0 <= t <= 1.0 && StraightBetween(m, x, y)
    ensures CurrentForNorm(m, Lerp(x, y, t), voltage) == Lerp(CurrentForNorm(m, x, voltage), CurrentForNorm(m, y, voltage), t)
  {
    hide CurveCurrent, Lerp, Fraction, PwmForNorm, NormFor;
    assert Levels(m)[0] == -1.0 && Levels(m)[1] == 1.0;
    PulseStraight(m, x, y, t);
    var p, q := PwmForNorm(m, x), PwmForNorm(m, y);
    forall j: nat | j < |m.curves|
      ensures CurveCurrent(m.curves[j], Lerp(p, q, t)) == Lerp(CurveCurrent(m.curves[j], p), CurveCurrent(m.curves[j], q), t)
    {
      EveryCurveStraight(m, x, y, t, j);
    }
    hide StraightBetween;
    var vs := Voltages(m);
    var v := Clamp(voltage, vs[0], vs[|vs| - 1]);
    var j := BisectRight(vs, v, 0, |vs|);
    if j < |vs| && vs[j] != vs[j - 1] {
      var low, high := m.curves[j - 1], m.curves[j];
      LerpOfLerps(CurveCurrent(low, p), CurveCurrent(low, q), CurveCurrent(high, p), CurveCurrent(high, q), t,
                  Fraction(vs[j - 1], vs[j], v));
    }
  }

  lemma EveryCurveStraight(m: Model, x: real, y: real, t: real, j: nat)
    requires Smooth(m) && 0.0 <= t <= 1.0 && StraightBetween(m, x, y) && j < |m.curves|
    ensures var p, q, c := PwmForNorm(m, x), PwmForNorm(m, y), m.curves[j];
            CurveCurrent(c, Lerp(p, q, t)) == Lerp(CurveCurrent(c, p), CurveCurrent(c, q), t)
  {
    hide CurveCurrent, Lerp, PwmForNorm, NormFor;
    var p, q, c := PwmForNorm(m, x), PwmForNorm(m, y), m.curves[j];
    forall i | 0 <= i < |c.pwm| ensures !Between(p, c.pwm[i], q) {
      KnotIsLevel(m, |m.curves|, j, i);
      assert NormFor(m, c.pwm[i]) in Levels(m);
      if Between(p, c.pwm[i], q) {
        KnotBetween(m, x, y, c.pwm[i]);
      }
    }
    CurveStraight(c, p, q, t);
  }

  // ---------------------------------------------------------------- straight pieces of the total

  /** The scales at which one thruster's prediction may bend. */
  function Bends(levels: seq<real>, norm: real): seq<real>
  {
    if norm == 0.0 then [] else seq(|levels|, i requires 0 <= i < |levels| => levels[i] / norm)
  }

  function AllBends(m: Model, norms: seq<real>): seq<real>
    requires m.halfSpanUs > 0.0
  {
    if norms == [] then [] else Bends(Levels(m), norms[0]) + AllBends(m, norms[1..])
  }

  lemma LevelIsBend(levels: seq<real>, norm: real, l: real, a: real, b: real) returns (k: real)
    requires l in levels && a <= b && Between(Product(a, norm), l, Product(b, norm))
    ensures k in Bends(levels, norm) && a < k < b
  {
    var i :| 0 <= i < |levels| && levels[i] == l;
    ZeroProducts(a, b, norm);
    hide Product;
    ScaleBetween(a, b, norm, l);
    k := l / norm;
    assert Bends(levels, norm)[i] == k;
  }

  lemma ZeroProducts(a: real, b: real, norm: real)
    ensures norm == 0.0 ==> Product(a, norm) == Product(b, norm)
  {
  }

  lemma ScaleBetween(a: real, b: real, norm: real, l: real)
    requires norm != 0.0 && a <= b && Between(Product(a, norm), l, Product(b, norm))
    ensures a < l / norm < b
  {
    var k := l / norm;
    QuotientBack(l, norm);
    OrderOfScales(a, k, norm);
    OrderOfScales(k, b, norm);
    OrderOfScales(a, b, norm);
    hide Product;
  }

  lemma QuotientBack(l: real, norm: real)
    requires norm != 0.0
    ensures Product(l / norm, norm) == l
  {
  }

  lemma OrderOfScales(a: real, b: real, norm: real)
    ensures norm > 0.0 ==> (a < b <==> Product(a, norm) < Product(b, norm))
    ensures norm < 0.0 ==> (a < b <==> Product(b, norm) < Product(a, norm))
  {
    if norm > 0.0 {
      if a < b {
        Stretch(norm, a, b);
      } else if b < a {
        Stretch(norm, b, a);
      }
      Commutes(a, norm);
      Commutes(b, norm);
      hide Product;
    } else if norm < 0.0 {
      if a < b {
        Stretch(-norm, a, b);
      } else if b < a {
        Stretch(-norm, b, a);
      }
      Mirrored(a, norm);
      Mirrored(b, norm);
      hide Product;
    }
  }

  lemma Commutes(x: real, y: real)
    ensures Product(x, y) == Product(y, x)
  {
  }

  lemma Mirrored(x: real, y: real)
    ensures Product(-y, x) == -Product(x, y)
  {
  }

  predicate NoBend(bends: seq<real>, a: real, b: real)
  {
    forall k :: k in bends ==> !(a < k < b)
  }

  lemma NoBendParts(s: seq<real>, t: seq<real>, a: real, b: real)
    ensures NoBend(s + t, a, b) ==> NoBend(s, a, b) && NoBend(t, a, b)
  {
    assert forall k :: k in s || k in t ==> k in s + t;
  }

  lemma {:induction false} TotalStraight(m: Model, norms: seq<real>, voltage: real, a: real, b: real, t: real)
    requires Smooth(m) && a <= b && 0.0 <= t <= 1.0 && NoBend(AllBends(m, norms), a, b)
    ensures TotalAt(m, norms, voltage, Lerp(a, b, t)) == Lerp(TotalAt(m, norms, voltage, a), TotalAt(m, norms, voltage, b), t)
  {
    hide CurrentForNorm, Lerp, Product, Levels, Bends;
    if norms == [] {
      LerpSame(0.0, t);
    } else {
      var n := norms[0];
      NoBendParts(Bends(Levels(m), n), AllBends(m, norms[1..]), a, b);
      TotalStraight(m, norms[1..], voltage, a, b, t);
      forall l | l in Levels(m) ensures !Between(Product(a, n), l, Product(b, n)) {
        if Between(Product(a, n), l, Product(b, n)) {
          var k := LevelIsBend(Levels(m), n, l, a, b);
        }
      }
      CurrentStraight(m, voltage, Product(a, n), Product(b, n), t);
      ScaledLerp(a, b, t, n);
      LerpSum(CurrentForNorm(m, Product(a, n), voltage), CurrentForNorm(m, Product(b, n), voltage),
              TotalAt(m, norms[1..], voltage, a), TotalAt(m, norms[1..], voltage, b), t);
    }
  }

  lemma ScaledLerp(a: real, b: real, t: real, n: real)
    ensures Product(Lerp(a, b, t), n) == Lerp(Product(a, n), Product(b, n), t)
  {
  }

  lemma LerpSum(a: real, b: real, c: real, d: real, t: real)
    ensures Lerp(a + c, b + d, t) == Lerp(a, b, t) + Lerp(c, d, t)
  {
  }

  // ---------------------------------------------------------------- intermediate values

  function CountIn(bends: seq<real>, a: real, b: real): nat
  {
    if bends == [] then 0 else (if a < bends[0] < b then 1 else 0) + CountIn(bends[1..], a, b)
  }

  lemma {:induction false} CountNarrows(bends: seq<real>, a: real, b: real, k: real)
    requires a < k < b
    ensures CountIn(bends, a, k) <= CountIn(bends, a, b) && CountIn(bends, k, b) <= CountIn(bends, a, b)
    ensures k in bends ==> CountIn(bends, a, k) < CountIn(bends, a, b) && CountIn(bends, k, b) < CountIn(bends, a, b)
  {
    if bends != [] {
      CountNarrows(bends[1..], a, b, k);
      assert bends == [bends[0]] + bends[1..];
    }
  }

  /** A total that rises past a value takes it on the way. */
  lemma Crossing(m: Model, norms: seq<real>, voltage: real, a: real, b: real, v: real) returns (p: real)
    requires Smooth(m) && a <= b
    requires TotalAt(m, norms, voltage, a) <= v <= TotalAt(m, norms, voltage, b)
    ensures a <= p <= b && TotalAt(m, norms, voltage, p) == v
    decreases CountIn(AllBends(m, norms), a, b)
  {
    hide TotalAt, Lerp;
    var bends := AllBends(m, norms);
    if k :| k in bends && a < k < b {
      CountNarrows(bends, a, b, k);
      if TotalAt(m, norms, voltage, k) <= v {
        p := Crossing(m, norms, voltage, k, b, v);
      } else {
        p := Crossing(m, norms, voltage, a, k, v);
      }
    } else if TotalAt(m, norms, voltage, a) == v {
      p := a;
    } else {
      var low, high := TotalAt(m, norms, voltage, a), TotalAt(m, norms, voltage, b);
      var t := Fraction(low, high, v);
      FractionRange(low, high, v);
      hide Fraction;
      TotalStraight(m, norms, voltage, a, b, t);
      LerpStaysBetween(a, b, t);
      LerpFraction(low, high, v);
      p := Lerp(a, b, t);
    }
  }

  lemma LerpFraction(y0: real, y1: real, y: real)
    requires y0 < y1
    ensures Lerp(y0, y1, Fraction(y0, y1, y)) == y
  {
    TimesQuotient(y1 - y0, y - y0);
  }

  // ---------------------------------------------------------------- the promise

  /** Whatever the floor, the budget and the number of steps: whenever the budget binds and the floor is within it, no
      scale up to 1 beyond the result by the final bracket width is within the budget. */
  ghost predicate KeepsPromise(m: Model, norms: seq<real>, voltage: real)
    requires Loaded(m)
  {
    forall floor, budget, maxIter: nat, s ::
      0.0 <= floor <= 1.0 && 0.0 <= budget
      && TotalAt(m, norms, voltage, floor) <= budget < TotalAt(m, norms, voltage, 1.0)
      && BudgetScale(m, norms, voltage, budget, floor, maxIter) + (1.0 - floor) / Halvings(maxIter) <= s <= 1.0
      ==> TotalAt(m, norms, voltage, s) > budget
  }

  /** No total short of the full one is drawn at two scales. */
  ghost predicate NoTotalTwice(m: Model, norms: seq<real>, voltage: real)
    requires Loaded(m)
  {
    forall x, y :: 0.0 <= x < y <= 1.0 && 0.0 <= TotalAt(m, norms, voltage, y) < TotalAt(m, norms, voltage, 1.0) ==>
      TotalAt(m, norms, voltage, x) != TotalAt(m, norms, voltage, y)
  }

  lemma {:induction false} HalvingsGrow(n: nat)
    ensures Halvings(n) >= n as real
  {
    if n > 0 {
      HalvingsGrow(n - 1);
    }
  }

  /** The final bracket can be made as narrow as one likes. */
  lemma NarrowBracket(width: real, d: real) returns (n: nat)
    requires width >= 0.0 && d > 0.0
    ensures width / Halvings(n) <= d
  {
    n := (width / d).Floor + 1 as nat;
    HalvingsGrow(n);
    SmallQuotient(width, d, Halvings(n));
  }

  lemma SmallQuotient(w: real, d: real, h: real)
    requires w >= 0.0 && d > 0.0 && h >= 1.0 && h >= w / d
    ensures w / h <= d
  {
    TimesQuotient(d, w);
    TimesQuotient(h, w);
    MulMono(d, w / d, h);
    if w / h > d {
      Stretch(h, d, w / h);
    }
  }

  /** A call that leaves an admissible scale beyond its reach shows a total, the budget itself, that is drawn twice. */
  lemma MissedMeansTwice(m: Model, norms: seq<real>, voltage: real, floor: real, budget: real, maxIter: nat, s: real)
    returns (p: real, q: real)
    requires Smooth(m) && 0.0 <= floor <= 1.0 && 0.0 <= budget
    requires TotalAt(m, norms, voltage, floor) <= budget < TotalAt(m, norms, voltage, 1.0)
    requires BudgetScale(m, norms, voltage, budget, floor, maxIter) + (1.0 - floor) / Halvings(maxIter) <= s <= 1.0
    requires TotalAt(m, norms, voltage, s) <= budget
    ensures 0.0 <= p < q <= 1.0
    ensures TotalAt(m, norms, voltage, p) == TotalAt(m, norms, voltage, q) == budget
  {
    hide TotalAt, Bisect, Halvings;
    WidthPositive(1.0 - floor, Halvings(maxIter));
    q := Crossing(m, norms, voltage, s, 1.0, budget);
    p := floor;
    if TotalAt(m, norms, voltage, floor) < budget {
      BisectBrackets(m, norms, voltage, budget, floor, 1.0, maxIter);
      var r := Bisect(m, norms, voltage, budget, floor, 1.0, maxIter);
      p := Crossing(m, norms, voltage, r, r + (1.0 - floor) / Halvings(maxIter), budget);
    }
  }

  lemma WidthPositive(d: real, n: real)
    requires d >= 0.0 && n > 0.0
    ensures d / n >= 0.0 && (d > 0.0 ==> d / n > 0.0)
  {
    TimesQuotient(n, d);
  }

  /** A total drawn twice breaks it: with the first scale as the floor and that total as the budget the result is the
      floor, and the second scale is out of reach once the bracket is narrow enough. */
  lemma TwiceBreaksPromise(m: Model, norms: seq<real>, voltage: real, x: real, y: real)
    requires Loaded(m) && 0.0 <= x < y <= 1.0
    requires 0.0 <= TotalAt(m, norms, voltage, y) < TotalAt(m, norms, voltage, 1.0)
    requires TotalAt(m, norms, voltage, x) == TotalAt(m, norms, voltage, y)
    ensures !KeepsPromise(m, norms, voltage)
  {
    hide TotalAt, Halvings, Bisect;
    var budget := TotalAt(m, norms, voltage, y);
    var n := NarrowBracket(1.0 - x, y - x);
    assert BudgetScale(m, norms, voltage, budget, x, n) == x;
    assert BudgetScale(m, norms, voltage, budget, x, n) + (1.0 - x) / Halvings(n) <= y <= 1.0;
  }

  /** For any table without repeated pulse widths, any commands and any voltage: the bisection keeps its promise, for
      every floor, budget and number of steps, if and only if no total short of the full one is drawn at two scales. */
  lemma PromiseExactly(m: Model, norms: seq<real>, voltage: real)
    requires Smooth(m)
    ensures KeepsPromise(m, norms, voltage) <==> NoTotalTwice(m, norms, voltage)
  {
    hide TotalAt, BudgetScale, Halvings;
    if NoTotalTwice(m, norms, voltage) {
      forall floor, budget, maxIter: nat, s |
        0.0 <= floor <= 1.0 && 0.0 <= budget
        && TotalAt(m, norms, voltage, floor) <= budget < TotalAt(m, norms, voltage, 1.0)
        && BudgetScale(m, norms, voltage, budget, floor, maxIter) + (1.0 - floor) / Halvings(maxIter) <= s <= 1.0
        ensures TotalAt(m, norms, voltage, s) > budget
      {
        if TotalAt(m, norms, voltage, s) <= budget {
          var p, q := MissedMeansTwice(m, norms, voltage, floor, budget, maxIter, s);
        }
      }
    } else {
      var x, y :| 0.0 <= x < y <= 1.0 && 0.0 <= TotalAt(m, norms, voltage, y) < TotalAt(m, norms, voltage, 1.0)
                  && TotalAt(m, norms, voltage, x) == TotalAt(m, norms, voltage, y);
      TwiceBreaksPromise(m, norms, voltage, x, y);
    }
  }
}
