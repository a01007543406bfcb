/** control/mixer.py and the limiting chain of control/control_service.py: mixer output to the thrust that is sent. */
module ThrustLimit {
  import opened Prelude
  import CurrentModel

  /** Thruster names start with H_ or V_; anything else passes the current budget untouched. */
  datatype Group = Horizontal | Vertical | Other

  datatype Thr = Thr(name: string, group: Group, v: real)

  /** An insertion-ordered dictionary of thruster commands. */
  type Thrust = seq<Thr>

  // ---------------------------------------------------------------- the eight-thruster mixer

  datatype Cmd6 = Cmd6(surge: real, sway: real, heave: real, yaw: real, pitch: real, roll: real)

  function Mix(c: Cmd6): (thr: Thrust)
    ensures |thr| == 8
  {
    [ Thr("H_FL", Horizontal, c.surge + c.sway + c.yaw),
      Thr("H_FR", Horizontal, c.surge - c.sway - c.yaw),
      Thr("H_RL", Horizontal, c.surge - c.sway + c.yaw),
      Thr("H_RR", Horizontal, c.surge + c.sway - c.yaw),
      Thr("V_FL", Vertical, c.heave - c.pitch - c.roll),
      Thr("V_FR", Vertical, c.heave - c.pitch + c.roll),
      Thr("V_RL", Vertical, c.heave + c.pitch - c.roll),
      Thr("V_RR", Vertical, c.heave + c.pitch + c.roll) ]
  }

  /** Least-squares reading of eight outputs as six degrees of freedom. */
  function Unmix(t: Thrust): Cmd6
    requires |t| == 8
  {
    Cmd6((t[0].v + t[1].v + t[2].v + t[3].v) / 4.0,
         (t[0].v - t[1].v - t[2].v + t[3].v) / 4.0,
         (t[4].v + t[5].v + t[6].v + t[7].v) / 4.0,
         (t[0].v - t[1].v + t[2].v - t[3].v) / 4.0,
         (-t[4].v - t[5].v + t[6].v + t[7].v) / 4.0,
         (-t[4].v + t[5].v - t[6].v + t[7].v) / 4.0)
  }

  // ---------------------------------------------------------------- scaling

  function Scaled(thr: Thrust, k: real): Thrust
  {
    seq(|thr|, i requires 0 <= i < |thr| => thr[i].(v := Product(thr[i].v, k)))
  }

  predicate Within(thr: Thrust, cap: real)
  {
    forall t :: t in thr ==> -cap <= t.v <= cap
  }

  function Peak(thr: Thrust): (p: real)
    ensures p >= 0.0
    ensures forall t :: t in thr ==> Abs(t.v) <= p
    ensures p > 0.0 ==> exists t :: t in thr && Abs(t.v) == p
  {
    if thr == [] then 0.0
    else
      var rest := Peak(thr[1..]);
      assert forall t :: t in thr ==> t == thr[0] || t in thr[1..];
      Max(Abs(thr[0].v), rest)
  }

  function LimitFactor(thr: Thrust, maxAbs: real): real
  {
    if Peak(thr) <= maxAbs || Peak(thr) == 0.0 then 1.0 else maxAbs / Peak(thr)
  }

  /** global_limit, with its defensive clamp. */
  function GlobalLimit(thr: Thrust, maxAbs: real): (out: Thrust)
    ensures |out| == |thr|
  {
    var k := LimitFactor(thr, maxAbs);
    seq(|thr|, i requires 0 <= i < |thr| =>
      thr[i].(v := Max(-maxAbs, Min(maxAbs, if k == 1.0 then thr[i].v else Product(thr[i].v, k)))))
  }

  lemma FactorRange(thr: Thrust, maxAbs: real)
    requires maxAbs >= 0.0
    ensures 0.0 <= LimitFactor(thr, maxAbs) <= 1.0
    ensures Peak(thr) > maxAbs ==> Product(Peak(thr), LimitFactor(thr, maxAbs)) == maxAbs
  {
    hide Peak;
    var p := Peak(thr);
    if p > maxAbs {
      QuotientRange(maxAbs, p);
    }
  }

  lemma QuotientRange(a: real, p: real)
    requires 0.0 <= a < p
    ensures 0.0 <= a / p < 1.0 && Product(p, a / p) == a
  {
    Inverse(p);
    assert a / p == a * (1.0 / p);
    MulOrder(0.0, a, 1.0 / p);
    if a / p >= 1.0 {
      MulMono(p, 1.0, a / p);
    }
  }

  lemma ScaledMagnitude(v: real, p: real, k: real)
    requires Abs(v) <= p && k >= 0.0
    ensures Abs(Product(v, k)) <= Product(p, k)
  {
    if v >= 0.0 {
      MulMono(k, v, p);
    } else {
      MulMono(k, -v, p);
      assert k * -v == -Product(v, k);
    }
  }

  /** global_limit is one shared factor in [0,1], its clamp never acts, and its result is inside the cap. */
  lemma LimitIsSharedFactor(thr: Thrust, maxAbs: real)
    requires maxAbs >= 0.0
    ensures GlobalLimit(thr, maxAbs) == Scaled(thr, LimitFactor(thr, maxAbs))
    ensures Within(GlobalLimit(thr, maxAbs), maxAbs)
  {
    hide Peak;
    var k := LimitFactor(thr, maxAbs);
    var out := GlobalLimit(thr, maxAbs);
    FactorRange(thr, maxAbs);
    forall i | 0 <= i < |thr|
      ensures out[i] == Scaled(thr, k)[i] && -maxAbs <= out[i].v <= maxAbs
    {
      assert thr[i] in thr;
      assert Product(thr[i].v, 1.0) == thr[i].v;
      hide Product;
      ScaledMagnitude(thr[i].v, Peak(thr), k);
    }
  }

  /** No larger admissible factor exists: any k in [0,1] that keeps every command inside the cap is at most it. */
  lemma LimitFactorLargest(thr: Thrust, maxAbs: real, k: real)
    requires maxAbs >= 0.0 && 0.0 <= k <= 1.0
    requires Within(Scaled(thr, k), maxAbs)
    ensures k <= LimitFactor(thr, maxAbs)
  {
    if Peak(thr) > maxAbs {
      var p := Peak(thr);
      var t :| t in thr && Abs(t.v) == p;
      var i :| 0 <= i < |thr| && thr[i] == t;
      assert Scaled(thr, k)[i] in Scaled(thr, k);
      hide Peak;
      FactorRange(thr, maxAbs);
      PeakScaled(t.v, p, k, maxAbs);
      var best := LimitFactor(thr, maxAbs);
      if k > best {
        ProductStrict(p, best, k);
      }
    }
  }

  lemma PeakScaled(v: real, p: real, k: real, cap: real)
    requires Abs(v) == p && -cap <= Product(v, k) <= cap
    ensures Product(p, k) <= cap
  {
    if v < 0.0 {
      assert Product(v, k) == -Product(p, k);
    }
  }

  lemma ProductStrict(p: real, a: real, b: real)
    requires p > 0.0 && a < b
    ensures Product(p, a) < Product(p, b)
  {
  }

  lemma LimitIdempotent(thr: Thrust, maxAbs: real)
    requires maxAbs >= 0.0
    ensures GlobalLimit(GlobalLimit(thr, maxAbs), maxAbs) == GlobalLimit(thr, maxAbs)
  {
    LimitIsSharedFactor(thr, maxAbs);
    var out := GlobalLimit(thr, maxAbs);
    if Peak(out) > 0.0 {
      var t :| t in out && Abs(t.v) == Peak(out);
    }
    hide Peak;
    assert LimitFactor(out, maxAbs) == 1.0;
    assert GlobalLimit(out, maxAbs) == out by {
      forall i | 0 <= i < |out| ensures GlobalLimit(out, maxAbs)[i] == out[i] {
        assert out[i] in out;
      }
    }
  }

  // ---------------------------------------------------------------- the current budget

  /** The budget switch, its live override, and the table; no model means the budget is off. */
  datatype Budget = Budget(model: Option<CurrentModel.Model>, maxA: real, reserveA: real, voltage: real, minScale: real)

  ghost predicate UsableBudget(b: Budget)
  {
    b.model.Some? ==> CurrentModel.Loaded(b.model.value)
  }

  function ThrusterNorms(thr: Thrust): seq<real>
  {
    if thr == [] then []
    else if thr[0].group.Other? then ThrusterNorms(thr[1..])
    else [thr[0].v] + ThrusterNorms(thr[1..])
  }

  function BudgetAmps(b: Budget, maxOverride: Option<real>): real
  {
    var maxA := if maxOverride.Some? && maxOverride.value > 0.0 then maxOverride.value else b.maxA;
    Max(0.0, maxA - b.reserveA)
  }

  /** The shared factor the budget puts on the thrusters; 1 when it is off, idle or not binding. */
  function BudgetFactor(b: Budget, thr: Thrust, active: bool, maxOverride: Option<real>): real
    requires UsableBudget(b)
  {
    if b.model.None? || ThrusterNorms(thr) == [] || !active then 1.0
    else CurrentModel.BudgetScale(b.model.value, ThrusterNorms(thr), b.voltage, BudgetAmps(b, maxOverride), b.minScale, 40)
  }

  function ApplyBudget(b: Budget, thr: Thrust, active: bool, maxOverride: Option<real>): (out: Thrust)
    requires UsableBudget(b)
    ensures |out| == |thr|
  {
    var k := BudgetFactor(b, thr, active, maxOverride);
    if k < 1.0 then
      seq(|thr|, i requires 0 <= i < |thr| => if thr[i].group.Other? then thr[i] else thr[i].(v := Product(thr[i].v, k)))
    else thr
  }

  lemma BudgetFactorRange(b: Budget, thr: Thrust, active: bool, maxOverride: Option<real>)
    requires UsableBudget(b)
    ensures 0.0 <= BudgetFactor(b, thr, active, maxOverride) <= 1.0
  {
    hide CurrentModel.TotalAt, CurrentModel.BudgetScale;
    if b.model.Some? {
      CurrentModel.ScaleWithinBudget(b.model.value, ThrusterNorms(thr), b.voltage, BudgetAmps(b, maxOverride), b.minScale, 40);
    }
  }

  // ---------------------------------------------------------------- deadband and arm ramp

  datatype Deadbands = Deadbands(base: real, autopilot: real)

  function DeadbandFor(d: Deadbands, t: Thr, verticalCmd: bool, horizontalCmd: bool): real
  {
    if verticalCmd && t.group.Vertical? then d.autopilot
    else if horizontalCmd && t.group.Horizontal? then d.autopilot
    else d.base
  }

  function OutputDeadband(d: Deadbands, thr: Thrust, verticalCmd: bool, horizontalCmd: bool): (out: Thrust)
    ensures |out| == |thr|
  {
    seq(|thr|, i requires 0 <= i < |thr| =>
      if Abs(thr[i].v) < DeadbandFor(d, thr[i], verticalCmd, horizontalCmd) then thr[i].(v := 0.0) else thr[i])
  }

  /** Fraction of thrust let through after arming; `armedSince` may still lie ahead. */
  function Ramp(now: real, armedSince: Option<real>, rampS: real): (r: real)
    ensures 0.0 <= r <= 1.0
  {
    if armedSince.None? || rampS <= 0.0 then 1.0
    else
      var dt := now - armedSince.value;
      if dt <= 0.0 then 0.0 else Max(0.0, Min(1.0, dt / rampS))
  }

  function ApplyRamp(thr: Thrust, ramp: real): (out: Thrust)
    ensures |out| == |thr|
  {
    if ramp < 1.0 then Scaled(thr, ramp) else thr
  }

  // ---------------------------------------------------------------- the whole chain

  /** What one live tick brings besides the mixer output. */
  datatype Shaping = Shaping(
    cap: real,
    budgetActive: bool,
    budgetMaxA: Option<real>,
    verticalCmd: bool,
    horizontalCmd: bool,
    ramp: real)

  function Limited(b: Budget, raw: Thrust, s: Shaping): (out: Thrust)
    requires UsableBudget(b)
    ensures |out| == |raw|
  {
    ApplyBudget(b, GlobalLimit(raw, s.cap), s.budgetActive, s.budgetMaxA)
  }

  function Shape(b: Budget, d: Deadbands, raw: Thrust, s: Shaping): (out: Thrust)
    requires UsableBudget(b)
    ensures |out| == |raw|
  {
    ApplyRamp(OutputDeadband(d, Limited(b, raw, s), s.verticalCmd, s.horizontalCmd), s.ramp)
  }

  /** The pilot's gain multiplier: clamped to [0.05, 1], 1 when not given. */
  function PilotGain(requested: Option<real>): (g: real)
    ensures 0.05 <= g <= 1.0
  {
    if requested.None? then 1.0 else Clamp(requested.value, 0.05, 1.0)
  }

  function LiveCap(thrusterMaxAbs: real, requested: Option<real>): (cap: real)
    ensures 0.0 <= cap <= 1.0
  {
    Min(Max(0.0, Min(1.0, thrusterMaxAbs)), PilotGain(requested))
  }

  lemma ScaledWithin(thr: Thrust, cap: real, k: real)
    requires Within(thr, cap) && 0.0 <= k && cap >= 0.0
    ensures Within(Scaled(thr, k), Product(cap, k))
  {
    var out := Scaled(thr, k);
    forall t | t in out ensures -Product(cap, k) <= t.v <= Product(cap, k) {
      var i :| 0 <= i < |out| && out[i] == t;
      assert thr[i] in thr;
      ScaledMagnitude(thr[i].v, cap, k);
    }
  }

  lemma ShrinkWithin(v: real, cap: real, k: real)
    requires -cap <= v <= cap && 0.0 <= k <= 1.0 && cap >= 0.0
    ensures -cap <= Product(v, k) <= cap
  {
    ScaledMagnitude(v, cap, k);
    ProductMono(cap, k, 1.0);
    assert Product(cap, 1.0) == cap;
  }

  lemma LimitedWithin(b: Budget, raw: Thrust, s: Shaping)
    requires UsableBudget(b) && s.cap >= 0.0
    ensures Within(Limited(b, raw, s), s.cap)
  {
    hide BudgetFactor, GlobalLimit, Product;
    var thr := GlobalLimit(raw, s.cap);
    LimitIsSharedFactor(raw, s.cap);
    BudgetFactorRange(b, thr, s.budgetActive, s.budgetMaxA);
    var k := BudgetFactor(b, thr, s.budgetActive, s.budgetMaxA);
    var out := Limited(b, raw, s);
    forall t | t in out ensures -s.cap <= t.v <= s.cap {
      var i :| 0 <= i < |out| && out[i] == t;
      assert thr[i] in thr;
      ShrinkWithin(thr[i].v, s.cap, k);
    }
  }

  /** For any mixer output, every command sent is at most ramp times cap in magnitude. */
  lemma ShapeWithin(b: Budget, d: Deadbands, raw: Thrust, s: Shaping)
    requires UsableBudget(b) && s.cap >= 0.0 && 0.0 <= s.ramp <= 1.0
    ensures Within(Shape(b, d, raw, s), Product(s.cap, s.ramp))
  {
    hide Limited, Product;
    var limited := Limited(b, raw, s);
    LimitedWithin(b, raw, s);
    var quiet := OutputDeadband(d, limited, s.verticalCmd, s.horizontalCmd);
    assert Within(quiet, s.cap) by {
      forall t | t in quiet ensures -s.cap <= t.v <= s.cap {
        var i :| 0 <= i < |quiet| && quiet[i] == t;
        assert limited[i] in limited;
      }
    }
    ScaledWithin(quiet, s.cap, s.ramp);
    if s.ramp == 1.0 {
      ProductOne(s.cap);
    }
  }

  /** Before the deadband, thruster commands are the mixer output under one shared factor. */
  lemma LimitedIsSharedFactor(b: Budget, raw: Thrust, s: Shaping)
    requires UsableBudget(b) && s.cap >= 0.0
    requires forall t :: t in raw ==> !t.group.Other?
    ensures Limited(b, raw, s) ==
      Scaled(raw, Product(LimitFactor(raw, s.cap), BudgetFactor(b, GlobalLimit(raw, s.cap), s.budgetActive, s.budgetMaxA)))
  {
    hide BudgetFactor, GlobalLimit, LimitFactor;
    var thr := GlobalLimit(raw, s.cap);
    LimitIsSharedFactor(raw, s.cap);
    BudgetFactorRange(b, thr, s.budgetActive, s.budgetMaxA);
    var k := BudgetFactor(b, thr, s.budgetActive, s.budgetMaxA);
    forall i | 0 <= i < |raw|
      ensures Limited(b, raw, s)[i].v == Product(raw[i].v, Product(LimitFactor(raw, s.cap), k))
      ensures !thr[i].group.Other?
    {
      assert raw[i] in raw;
      ProductAssoc(raw[i].v, LimitFactor(raw, s.cap), k);
      hide Product;
      ProductOne(thr[i].v);
    }
  }

  lemma ProductAssoc(x: real, y: real, z: real)
    ensures Product(Product(x, y), z) == Product(x, Product(y, z))
  {
  }

  // ---------------------------------------------------------------- direction

  function Times(c: Cmd6, k: real): Cmd6
  {
    Cmd6(c.surge * k, c.sway * k, c.heave * k, c.yaw * k, c.pitch * k, c.roll * k)
  }

  /** Nothing is lost in mixing. */
  lemma UnmixMix(c: Cmd6)
    ensures Unmix(Mix(c)) == c
  {
  }

  /** The eight outputs that some command mixes to are exactly those with balanced diagonals. */
  lemma MixReaches(t: Thrust)
    requires |t| == 8
    ensures (forall i :: 0 <= i < 8 ==> Mix(Unmix(t))[i].v == t[i].v)
      <==> t[0].v + t[1].v == t[2].v + t[3].v && t[4].v + t[7].v == t[5].v + t[6].v
  {
    var m := Mix(Unmix(t));
    if t[0].v + t[1].v == t[2].v + t[3].v && t[4].v + t[7].v == t[5].v + t[6].v {
      forall i | 0 <= i < 8 ensures m[i].v == t[i].v {
        assert i in {0, 1, 2, 3, 4, 5, 6, 7};
      }
    } else {
      assert m[0].v + m[1].v == m[2].v + m[3].v && m[4].v + m[7].v == m[5].v + m[6].v;
    }
  }

  lemma UnmixScaled(t: Thrust, k: real)
    requires |t| == 8
    ensures Unmix(Scaled(t, k)) == Times(Unmix(t), k)
  {
  }

  /** Limiting a mixed command shortens it without turning it. */
  lemma LimitKeepsDirection(c: Cmd6, maxAbs: real)
    requires maxAbs >= 0.0
    ensures Unmix(GlobalLimit(Mix(c), maxAbs)) == Times(c, LimitFactor(Mix(c), maxAbs))
  {
    hide LimitFactor, GlobalLimit, Mix, Unmix;
    LimitIsSharedFactor(Mix(c), maxAbs);
    UnmixScaled(Mix(c), LimitFactor(Mix(c), maxAbs));
    UnmixMix(c);
  }

  // ---------------------------------------------------------------- end to end current

  ghost predicate Shrinks(from: Thr, to: Thr)
  {
    to.group == from.group && exists k :: 0.0 <= k <= 1.0 && to.v == Product(k, from.v)
  }

  lemma {:induction false} ShrunkDrawsLess(m: CurrentModel.Model, from: Thrust, to: Thrust, voltage: real)
    requires CurrentModel.ModelVShaped(m) && |from| == |to|
    requires forall i :: 0 <= i < |from| ==> Shrinks(from[i], to[i])
    ensures CurrentModel.TotalAt(m, ThrusterNorms(to), voltage, 1.0) <= CurrentModel.TotalAt(m, ThrusterNorms(from), voltage, 1.0)
  {
    if from != [] {
      hide CurrentModel.CurrentForNorm, Product;
      assert Shrinks(from[0], to[0]);
      var k :| 0.0 <= k <= 1.0 && to[0].v == Product(k, from[0].v);
      forall i | 0 <= i < |from[1..]| ensures Shrinks(from[1..][i], to[1..][i]) {
        assert Shrinks(from[i + 1], to[i + 1]);
      }
      ShrunkDrawsLess(m, from[1..], to[1..], voltage);
      CurrentModel.CurrentMonotone(m, from[0].v, voltage, k, 1.0);
      OneProduct(from[0].v);
      OneProduct(to[0].v);
      if !from[0].group.Other? {
        assert ThrusterNorms(from)[1..] == ThrusterNorms(from[1..]);
        assert ThrusterNorms(to)[1..] == ThrusterNorms(to[1..]);
      }
    }
  }

  lemma OneProduct(x: real)
    ensures Product(1.0, x) == x
  {
  }

  lemma {:induction false} BudgetedTotal(m: CurrentModel.Model, thr: Thrust, out: Thrust, voltage: real, k: real)
    requires CurrentModel.Loaded(m) && |thr| == |out|
    requires forall i :: 0 <= i < |thr| ==> out[i].group == thr[i].group && (!thr[i].group.Other? ==> out[i].v == Product(thr[i].v, k))
    ensures CurrentModel.TotalAt(m, ThrusterNorms(out), voltage, 1.0) == CurrentModel.TotalAt(m, ThrusterNorms(thr), voltage, k)
  {
    if thr != [] {
      hide CurrentModel.CurrentForNorm, Product;
      BudgetedTotal(m, thr[1..], out[1..], voltage, k);
      if !thr[0].group.Other? {
        OneProduct(out[0].v);
        ProductSwap(thr[0].v, k);
        assert ThrusterNorms(thr)[1..] == ThrusterNorms(thr[1..]);
        assert ThrusterNorms(out)[1..] == ThrusterNorms(out[1..]);
      }
    }
  }

  lemma ProductSwap(x: real, y: real)
    ensures Product(x, y) == Product(y, x)
  {
  }

  /** With an active budget over a V-shaped table, if the configured floor is within budget then so is the
      predicted draw of what is finally sent, after deadband and ramp. */
  lemma SentWithinBudget(b: Budget, d: Deadbands, raw: Thrust, s: Shaping)
    requires b.model.Some? && CurrentModel.ModelVShaped(b.model.value)
    requires s.cap >= 0.0 && 0.0 <= s.ramp <= 1.0 && s.budgetActive
    requires CurrentModel.TotalAt(b.model.value, ThrusterNorms(GlobalLimit(raw, s.cap)), b.voltage, Clamp(b.minScale, 0.0, 1.0))
             <= BudgetAmps(b, s.budgetMaxA)
    ensures CurrentModel.TotalAt(b.model.value, ThrusterNorms(Shape(b, d, raw, s)), b.voltage, 1.0) <= BudgetAmps(b, s.budgetMaxA)
  {
    var m := b.model.value;
    var thr, limited := GlobalLimit(raw, s.cap), Limited(b, raw, s);
    LimitedWithinBudget(b, thr, s.budgetMaxA);
    var sent := Shape(b, d, raw, s);
    forall i | 0 <= i < |limited| ensures Shrinks(limited[i], sent[i]) {
      ShapeShrinks(b, d, raw, s, i);
    }
    ShrunkDrawsLess(m, limited, sent, b.voltage);
  }

  lemma ShapeShrinks(b: Budget, d: Deadbands, raw: Thrust, s: Shaping, i: nat)
    requires UsableBudget(b) && 0.0 <= s.ramp <= 1.0 && i < |raw|
    ensures Shrinks(Limited(b, raw, s)[i], Shape(b, d, raw, s)[i])
  {
    hide Limited;
    var from, to := Limited(b, raw, s)[i], Shape(b, d, raw, s)[i];
    var quiet := OutputDeadband(d, Limited(b, raw, s), s.verticalCmd, s.horizontalCmd)[i];
    if s.ramp < 1.0 {
      if quiet.v == from.v {
        ProductSwap(s.ramp, from.v);
      } else {
        assert to.v == Product(0.0, from.v);
      }
    } else if quiet.v == from.v {
      OneProduct(from.v);
    } else {
      assert to.v == Product(0.0, from.v);
    }
  }

  lemma LimitedWithinBudget(b: Budget, thr: Thrust, maxOverride: Option<real>)
    requires UsableBudget(b) && b.model.Some?
    requires CurrentModel.TotalAt(b.model.value, ThrusterNorms(thr), b.voltage, Clamp(b.minScale, 0.0, 1.0)) <= BudgetAmps(b, maxOverride)
    ensures CurrentModel.TotalAt(b.model.value, ThrusterNorms(ApplyBudget(b, thr, true, maxOverride)), b.voltage, 1.0)
            <= BudgetAmps(b, maxOverride)
  {
    var m := b.model.value;
    var k := BudgetFactor(b, thr, true, maxOverride);
    BudgetFactorRange(b, thr, true, maxOverride);
    if ThrusterNorms(thr) != [] {
      hide CurrentModel.TotalAt, CurrentModel.BudgetScale;
      CurrentModel.ScaleWithinBudget(m, ThrusterNorms(thr), b.voltage, BudgetAmps(b, maxOverride), b.minScale, 40);
      if k < 1.0 {
        BudgetedTotal(m, thr, ApplyBudget(b, thr, true, maxOverride), b.voltage, k);
      }
    }
  }

  // ---------------------------------------------------------------- what is counted, and what is left alone

  /** Every thruster counts, horizontal or vertical, in order. */
  lemma {:induction false} EveryThrusterCounts(thr: Thrust)
    requires forall i :: 0 <= i < |thr| ==> thr[i].group.Horizontal? || thr[i].group.Vertical?
    ensures |ThrusterNorms(thr)| == |thr| && forall i :: 0 <= i < |thr| ==> ThrusterNorms(thr)[i] == thr[i].v
  {
    if thr != [] {
      EveryThrusterCounts(thr[1..]);
      forall i | 0 <= i < |thr| ensures ThrusterNorms(thr)[i] == thr[i].v {
        if i > 0 {
          assert thr[1..][i - 1] == thr[i];
        }
      }
    }
  }

  /** Amps drawn by whatever is a thruster, one by one. */
  function Draw(m: CurrentModel.Model, thr: Thrust, voltage: real): real
    requires CurrentModel.Loaded(m)
  {
    if thr == [] then 0.0
    else
      var last := thr[|thr| - 1];
      Draw(m, thr[..|thr| - 1], voltage)
      + if last.group.Horizontal? || last.group.Vertical? then CurrentModel.CurrentForNorm(m, last.v, voltage) else 0.0
  }

  lemma {:induction false} TotalIsDraw(m: CurrentModel.Model, thr: Thrust, voltage: real)
    requires CurrentModel.Loaded(m)
    ensures CurrentModel.TotalAt(m, ThrusterNorms(thr), voltage, 1.0) == Draw(m, thr, voltage)
  {
    hide CurrentModel.CurrentForNorm, Product;
    if thr != [] {
      var n := |thr| - 1;
      TotalIsDraw(m, thr[..n], voltage);
      NormsSplit(thr[..n], [thr[n]]);
      assert thr == thr[..n] + [thr[n]];
      assert [thr[n]][1..] == [];
      TotalSplit(m, ThrusterNorms(thr[..n]), ThrusterNorms([thr[n]]), voltage);
      OneProduct(thr[n].v);
    }
  }

  lemma {:induction false} NormsSplit(a: Thrust, b: Thrust)
    ensures ThrusterNorms(a + b) == ThrusterNorms(a) + ThrusterNorms(b)
  {
    if a == [] {
      assert a + b == b;
    } else {
      NormsSplit(a[1..], b);
      assert (a + b)[1..] == a[1..] + b;
    }
  }

  lemma {:induction false} TotalSplit(m: CurrentModel.Model, a: seq<real>, b: seq<real>, voltage: real)
    requires CurrentModel.Loaded(m)
    ensures CurrentModel.TotalAt(m, a + b, voltage, 1.0) == CurrentModel.TotalAt(m, a, voltage, 1.0) + CurrentModel.TotalAt(m, b, voltage, 1.0)
  {
    hide CurrentModel.CurrentForNorm, Product;
    if a == [] {
      assert a + b == b;
    } else {
      TotalSplit(m, a[1..], b, voltage);
      assert (a + b)[1..] == a[1..] + b;
    }
  }

  /** What may be spent: the live override if it is positive, else the configured cap, less the reserve. */
  lemma AmpsToSpend(b: Budget, override: real)
    requires b.reserveA >= 0.0
    ensures BudgetAmps(b, None) == Max(0.0, b.maxA - b.reserveA)
    ensures override > 0.0 ==> BudgetAmps(b, Some(override)) == Max(0.0, override - b.reserveA)
    ensures override <= 0.0 ==> BudgetAmps(b, Some(override)) == Max(0.0, b.maxA - b.reserveA)
  {
  }

  /** From the six-axis command to the eight currents of what is sent: their sum is within what may be spent, if that of
      the limited commands at the floor is. */
  lemma EightCurrentsWithinBudget(b: Budget, d: Deadbands, c: Cmd6, s: Shaping)
    requires b.model.Some? && CurrentModel.ModelVShaped(b.model.value)
    requires s.cap >= 0.0 && 0.0 <= s.ramp <= 1.0 && s.budgetActive
    requires Eight(b.model.value, Scaled(GlobalLimit(Mix(c), s.cap), Clamp(b.minScale, 0.0, 1.0)), b.voltage) <= BudgetAmps(b, s.budgetMaxA)
    ensures Eight(b.model.value, Shape(b, d, Mix(c), s), b.voltage) <= BudgetAmps(b, s.budgetMaxA)
  {
    hide CurrentModel.CurrentForNorm, BudgetAmps, CurrentModel.TotalAt, CurrentModel.ModelVShaped, Eight, Mix, GlobalLimit, Shape;
    var m, floor := b.model.value, Clamp(b.minScale, 0.0, 1.0);
    var raw := Mix(c);
    var limited := GlobalLimit(raw, s.cap);
    VShapedLoaded(m);
    MixedGroups(c);
    LimitKeepsGroups(raw, s.cap);
    ShapeKeepsGroups(b, d, raw, s);
    ScaledTotal(m, limited, b.voltage, floor);
    hide Scaled;
    SentWithinBudget(b, d, raw, s);
    EightIsTotal(m, Shape(b, d, raw, s), b.voltage);
  }

  lemma ScaledTotal(m: CurrentModel.Model, t: Thrust, voltage: real, k: real)
    requires CurrentModel.Loaded(m) && |t| == 8
    requires forall i :: 0 <= i < 8 ==> t[i].group.Horizontal? || t[i].group.Vertical?
    ensures Eight(m, Scaled(t, k), voltage) == CurrentModel.TotalAt(m, ThrusterNorms(t), voltage, k)
  {
    hide CurrentModel.CurrentForNorm, CurrentModel.TotalAt, CurrentModel.Loaded, Eight, Product;
    EightIsTotal(m, Scaled(t, k), voltage);
    BudgetedTotal(m, t, Scaled(t, k), voltage, k);
  }

  lemma MixedGroups(c: Cmd6)
    ensures forall i :: 0 <= i < 8 ==> Mix(c)[i].group.Horizontal? || Mix(c)[i].group.Vertical?
  {
  }

  lemma LimitKeepsGroups(thr: Thrust, maxAbs: real)
    ensures forall i :: 0 <= i < |thr| ==> GlobalLimit(thr, maxAbs)[i].group == thr[i].group
  {
    hide LimitFactor;
  }

  lemma VShapedLoaded(m: CurrentModel.Model)
    requires CurrentModel.ModelVShaped(m)
    ensures CurrentModel.Loaded(m)
  {
  }

  /** The eight predicted currents. */
  function Eight(m: CurrentModel.Model, t: Thrust, voltage: real): real
    requires CurrentModel.Loaded(m) && |t| == 8
  {
    CurrentModel.CurrentForNorm(m, t[0].v, voltage) + CurrentModel.CurrentForNorm(m, t[1].v, voltage)
    + CurrentModel.CurrentForNorm(m, t[2].v, voltage) + CurrentModel.CurrentForNorm(m, t[3].v, voltage)
    + CurrentModel.CurrentForNorm(m, t[4].v, voltage) + CurrentModel.CurrentForNorm(m, t[5].v, voltage)
    + CurrentModel.CurrentForNorm(m, t[6].v, voltage) + CurrentModel.CurrentForNorm(m, t[7].v, voltage)
  }

  lemma EightIsTotal(m: CurrentModel.Model, t: Thrust, voltage: real)
    requires CurrentModel.Loaded(m) && |t| == 8
    requires forall i :: 0 <= i < 8 ==> t[i].group.Horizontal? || t[i].group.Vertical?
    ensures Eight(m, t, voltage) == CurrentModel.TotalAt(m, ThrusterNorms(t), voltage, 1.0)
  {
    hide CurrentModel.CurrentForNorm, CurrentModel.Loaded, ThrusterNorms, CurrentModel.TotalAt;
    TotalIsDraw(m, t, voltage);
    DrawLast(m, t[..1], t[0], voltage, []);
    DrawLast(m, t[..2], t[1], voltage, t[..1]);
    DrawLast(m, t[..3], t[2], voltage, t[..2]);
    DrawLast(m, t[..4], t[3], voltage, t[..3]);
    DrawLast(m, t[..5], t[4], voltage, t[..4]);
    DrawLast(m, t[..6], t[5], voltage, t[..5]);
    DrawLast(m, t[..7], t[6], voltage, t[..6]);
    DrawLast(m, t, t[7], voltage, t[..7]);
    assert Draw(m, [], voltage) == 0.0;
    hide Draw;
  }

  lemma DrawLast(m: CurrentModel.Model, t: Thrust, last: Thr, voltage: real, front: Thrust)
    requires CurrentModel.Loaded(m) && t == front + [last] && (last.group.Horizontal? || last.group.Vertical?)
    ensures Draw(m, t, voltage) == Draw(m, front, voltage) + CurrentModel.CurrentForNorm(m, last.v, voltage)
  {
    hide CurrentModel.CurrentForNorm, CurrentModel.Loaded;
    assert t[..|t| - 1] == front;
  }

  lemma ShapeKeepsGroups(b: Budget, d: Deadbands, raw: Thrust, s: Shaping)
    requires UsableBudget(b)
    ensures forall i :: 0 <= i < |raw| ==> Shape(b, d, raw, s)[i].group == raw[i].group && Shape(b, d, raw, s)[i].name == raw[i].name
  {
    hide BudgetFactor, LimitFactor;
  }

  /** The budget only ever acts when it is on, has a table, and binds; and never on anything that is not a thruster. */
  lemma BudgetLeavesAlone(b: Budget, thr: Thrust, active: bool, maxOverride: Option<real>)
    requires UsableBudget(b)
    ensures b.model.None? || !active ==> ApplyBudget(b, thr, active, maxOverride) == thr
    ensures b.model.Some? && Draw(b.model.value, thr, b.voltage) <= BudgetAmps(b, maxOverride) ==> ApplyBudget(b, thr, active, maxOverride) == thr
    ensures forall i :: 0 <= i < |thr| && thr[i].group.Other? ==> ApplyBudget(b, thr, active, maxOverride)[i] == thr[i]
  {
    hide CurrentModel.TotalAt, BudgetAmps, CurrentModel.Bisect;
    if b.model.Some? {
      TotalIsDraw(b.model.value, thr, b.voltage);
    }
    hide Draw;
  }

  // ---------------------------------------------------------------- the parts of the chain, one thruster at a time

  /** A pure demand on one axis, by thruster name: forward and right are positive, a right turn drives the left side. */
  lemma PureMotions(x: real)
    ensures Speeds(Mix(Cmd6(x, 0.0, 0.0, 0.0, 0.0, 0.0))) == [x, x, x, x, 0.0, 0.0, 0.0, 0.0]
    ensures Speeds(Mix(Cmd6(0.0, x, 0.0, 0.0, 0.0, 0.0))) == [x, -x, -x, x, 0.0, 0.0, 0.0, 0.0]
    ensures Speeds(Mix(Cmd6(0.0, 0.0, x, 0.0, 0.0, 0.0))) == [0.0, 0.0, 0.0, 0.0, x, x, x, x]
    ensures Speeds(Mix(Cmd6(0.0, 0.0, 0.0, x, 0.0, 0.0))) == [x, -x, x, -x, 0.0, 0.0, 0.0, 0.0]
    ensures Speeds(Mix(Cmd6(0.0, 0.0, 0.0, 0.0, x, 0.0))) == [0.0, 0.0, 0.0, 0.0, -x, -x, x, x]
    ensures Speeds(Mix(Cmd6(0.0, 0.0, 0.0, 0.0, 0.0, x))) == [0.0, 0.0, 0.0, 0.0, -x, x, -x, x]
    ensures Names(Mix(Cmd6(0.0, 0.0, 0.0, 0.0, 0.0, 0.0))) == ["H_FL", "H_FR", "H_RL", "H_RR", "V_FL", "V_FR", "V_RL", "V_RR"]
  {
  }

  function Speeds(t: Thrust): seq<real>
  {
    seq(|t|, i requires 0 <= i < |t| => t[i].v)
  }

  function Names(t: Thrust): seq<string>
  {
    seq(|t|, i requires 0 <= i < |t| => t[i].name)
  }

  /** At full ramp, a command smaller than its band is silenced and any other is sent as limited. The band is the
      autopilot's for vertical thrusters while the vertical is held, for horizontal ones while the heading is. */
  lemma SilencedBelowBand(b: Budget, d: Deadbands, raw: Thrust, s: Shaping, i: nat)
    requires UsableBudget(b) && s.ramp == 1.0 && i < |raw|
    ensures var limited, sent := Limited(b, raw, s)[i], Shape(b, d, raw, s)[i].v;
            var band := match limited.group
                        case Vertical => if s.verticalCmd then d.autopilot else d.base
                        case Horizontal => if s.horizontalCmd then d.autopilot else d.base
                        case Other => d.base;
            sent == if Abs(limited.v) < band then 0.0 else limited.v
  {
    hide Limited;
  }

  /** The ramp scales everything that is left. */
  lemma RampScales(b: Budget, d: Deadbands, raw: Thrust, s: Shaping, i: nat)
    requires UsableBudget(b) && 0.0 <= s.ramp <= 1.0 && i < |raw|
    ensures Shape(b, d, raw, s)[i].v == s.ramp * Shape(b, d, raw, s.(ramp := 1.0))[i].v
  {
    hide ApplyBudget, GlobalLimit;
    assert Limited(b, raw, s) == Limited(b, raw, s.(ramp := 1.0));
    hide Limited;
    assert Product(Shape(b, d, raw, s.(ramp := 1.0))[i].v, s.ramp) == s.ramp * Shape(b, d, raw, s.(ramp := 1.0))[i].v;
  }
}
