/** control/depth_hold.py: which way the heave goes, and how far, in terms of depth, target and their changes alone. */
module DepthLaws {
  import opened Prelude
  import opened DepthHold
  import opened Feedback
  import Windup

  /** In control with the stick at rest, and not the first sample. */
  predicate Holding(c: Config, s: State, x: Input)
  {
    x.enabled && Usable(c, x) && !Overrides(c, x) && s.zF.Some? && s.zPrev == s.zF
  }

  /** How far the vehicle is below its target. */
  function Below(s: State): real
    requires s.zF.Some? && s.target.Some?
  {
    s.zF.value - s.target.value
  }

  /** How fast the filtered depth grew from s to s'. */
  function Sinking(s: State, s': State, x: Input): real
    requires s.zF.Some? && s'.zF.Some?
  {
    (s'.zF.value - s.zF.value) / StepLength(x.dt)
  }

  lemma HoldingStep(c: Config, s: State, x: Input)
    requires Holding(c, s, x)
    ensures var s' := After(c, s, x);
            && s'.zF.Some? && s'.target.Some?
            && Heave(c, s, x) == Output(Clamp(Drive(c, Error(c, s'.zF.value, s'.target.value), s'.iState, Sinking(s, s', x)),
                                              -c.outLimit, c.outLimit), true)
  {
    hide ClampTarget, NextIntegral, Filtered, Drive, Error;
    assert TakeCommand(c, s, x.target).zF == s.zF && TakeCommand(c, s, x.target).zPrev == s.zPrev;
  }

  /** Without integral gain, and without derivative gain or at a steady depth, the heave answers the depth error: up for
      sign 1 when too deep, by |sign| * kp * the error, within the limit. Inside the error deadband it is 0. */
  lemma HeaveAnswersDepth(c: Config, s: State, x: Input)
    requires Holding(c, s, x) && c.kp >= 0.0 && c.ki == 0.0 && c.outLimit >= 0.0
    requires c.kd == 0.0 || After(c, s, x).zF == s.zF
    ensures var s', o := After(c, s, x), Heave(c, s, x);
            && o.active
            && (Abs(Below(s')) < c.errorDeadbandM ==> o.heave == 0.0)
            && (Abs(Below(s')) >= c.errorDeadbandM ==> Answers(o.heave, c.sign, c.kp, Below(s'), c.outLimit))
  {
    hide Advance, Answers, Drive, Filtered;
    HoldingStep(c, s, x);
    var s' := After(c, s, x);
    DriveAnswers(c, Below(s'), s'.iState, Sinking(s, s', x));
  }

  lemma DriveAnswers(c: Config, y: real, i: real, dz: real)
    requires c.kp >= 0.0 && c.ki == 0.0 && c.outLimit >= 0.0 && (c.kd == 0.0 || dz == 0.0)
    ensures Answers(Clamp(Drive(c, y, i, dz), -c.outLimit, c.outLimit), c.sign, c.kp, y, c.outLimit)
    ensures Drive(c, 0.0, i, dz) == 0.0
  {
    hide Answers, Drive;
    ProportionalAnswers(c.sign, c.kp, y, c.outLimit);
    PurelyProportional(c, y, i, dz);
    PurelyProportional(c, 0.0, i, dz);
    ProductSign(c.kp, 0.0);
    ProductSign(c.sign, Product(c.kp, 0.0));
  }

  lemma PurelyProportional(c: Config, y: real, i: real, dz: real)
    requires c.ki == 0.0 && (c.kd == 0.0 || dz == 0.0)
    ensures Drive(c, y, i, dz) == Product(c.sign, Product(c.kp, y))
  {
    assert c.kd * dz == 0.0;
  }

  /** Of two steps under one configuration with sign >= 0, the one that is no less deep below its target, has no smaller
      integral and is sinking no more slowly gets no less heave. */
  lemma HeaveMonotone(c: Config, s1: State, x1: Input, s2: State, x2: Input)
    requires Holding(c, s1, x1) && Holding(c, s2, x2)
    requires c.sign >= 0.0 && c.kp >= 0.0 && c.ki >= 0.0 && c.kd >= 0.0 && c.outLimit >= 0.0
    requires Below(After(c, s1, x1)) <= Below(After(c, s2, x2))
    requires After(c, s1, x1).iState <= After(c, s2, x2).iState
    requires Sinking(s1, After(c, s1, x1), x1) <= Sinking(s2, After(c, s2, x2), x2)
    ensures Heave(c, s1, x1).heave <= Heave(c, s2, x2).heave
  {
    hide Advance, Sinking, Drive;
    HoldingStep(c, s1, x1);
    HoldingStep(c, s2, x2);
    var a, b := After(c, s1, x1), After(c, s2, x2);
    DriveMono(c, Error(c, a.zF.value, a.target.value), Error(c, b.zF.value, b.target.value), a.iState, b.iState,
              Sinking(s1, a, x1), Sinking(s2, b, x2));
  }

  lemma DriveMono(c: Config, e1: real, e2: real, i1: real, i2: real, dz1: real, dz2: real)
    requires c.sign >= 0.0 && c.kp >= 0.0 && c.ki >= 0.0 && c.kd >= 0.0 && c.outLimit >= 0.0
    requires e1 <= e2 && i1 <= i2 && dz1 <= dz2
    ensures Clamp(Drive(c, e1, i1, dz1), -c.outLimit, c.outLimit) <= Clamp(Drive(c, e2, i2, dz2), -c.outLimit, c.outLimit)
  {
    DriveIs(c, e1, i1, dz1);
    DriveIs(c, e2, i2, dz2);
    hide Drive, Sum;
    SumMono(c.sign, c.kp, c.ki, c.kd, e1, e2, i1, i2, dz1, dz2, c.outLimit);
  }

  /** The other sign turns the heave round and changes nothing else. */
  lemma SignTurnsHeave(c: Config, s: State, x: Input)
    requires Holding(c, s, x) && c.outLimit >= 0.0
    ensures After(c.(sign := -c.sign), s, x) == After(c, s, x)
    ensures Heave(c.(sign := -c.sign), s, x).heave == -Heave(c, s, x).heave
  {
    var c' := c.(sign := -c.sign);
    forall e, i, dz ensures Drive(c', e, i, dz) == -Drive(c, e, i, dz) {
      var sum := c.kp * e + c.ki * i + c.kd * dz;
      assert -c.sign * sum == -(c.sign * sum);
    }
    hide Drive, Windup.Next;
    assert forall i, e, dz, dt, walking :: NextIntegral(c', i, e, dz, dt, walking) == NextIntegral(c, i, e, dz, dt, walking);
    assert forall t :: ClampTarget(c', t) == ClampTarget(c, t);
    SameFilterGains(c, c');
    hide NextIntegral, ClampTarget, Filtered;
  }

  lemma SameFilterGains(c: Config, c': Config)
    requires c'.lpfTauS == c.lpfTauS
    ensures forall s, z, dt :: dt > 0.0 ==> Filtered(c', s, z, dt) == Filtered(c, s, z, dt)
  {
  }

  /** Engaging from rest does not jump: the depth of the first sample becomes the target and the heave is 0. */
  lemma EngagesSmoothly(c: Config, x: Input)
    requires x.enabled && Usable(c, x) && !Overrides(c, x) && x.target.None? && InBounds(c, x.depth.m) && c.outLimit >= 0.0 && c.iLimit >= 0.0
    ensures After(c, RESET, x).target == Some(x.depth.m) && After(c, RESET, x).zF == Some(x.depth.m)
    ensures Heave(c, RESET, x) == Output(0.0, true)
  {
    ClampTargetIdle(c, x.depth.m);
    if c.ki != 0.0 {
      Windup.NextGathers(c.iLimit, c.ki, 0.0, 0.0, StepLength(x.dt));
    }
    hide Windup.Next, ClampTarget, Filtered;
    assert Drive(c, 0.0, 0.0, 0.0) == 0.0 by {
      assert c.kp * 0.0 == 0.0 && c.ki * 0.0 == 0.0 && c.kd * 0.0 == 0.0 && c.sign * 0.0 == 0.0;
    }
    hide Drive;
    assert NextIntegral(c, 0.0, 0.0, 0.0, StepLength(x.dt), false) == 0.0;
  }

  /** Engaging without a command captures the depth of that moment, whatever target was there before. */
  lemma CapturesDepth(c: Config, s: State, x: Input)
    requires x.enabled && Usable(c, x) && !Overrides(c, x) && x.target.None? && !s.lastEnabled
    ensures var s' := After(c, s, x); s'.zF.Some? && s'.target == Some(ClampTarget(c, s'.zF.value)) && s'.lastEnabled
  {
    hide ClampTarget, Filtered, NextIntegral, Drive, Error;
  }

  /** The filter leaves the share tau / (tau + dt) of the gap to each sample; without a time constant it leaves none. */
  lemma FilterLeavesShare(c: Config, s: State, x: Input)
    requires x.enabled && Usable(c, x) && s.zF.Some?
    ensures var gap, left := x.depth.m - s.zF.value, x.depth.m - After(c, s, x).zF.value;
            && (c.lpfTauS >= 0.0 ==> left * (c.lpfTauS + StepLength(x.dt)) == gap * c.lpfTauS)
            && (c.lpfTauS <= 0.0 ==> left == 0.0)
  {
    FilterStep(c, s, x);
    hide Advance;
    var dt, tau := StepLength(x.dt), Max(0.0, c.lpfTauS);
    Share(x.depth.m - s.zF.value, dt, tau);
  }

  lemma Share(gap: real, dt: real, tau: real)
    requires dt > 0.0 && tau >= 0.0
    ensures (gap - Product(gap, dt / (tau + dt))) * (tau + dt) == gap * tau
    ensures tau == 0.0 ==> Product(gap, dt / (tau + dt)) == gap
  {
    var a := dt / (tau + dt);
    assert a * (tau + dt) == dt;
    assert gap * a * (tau + dt) == gap * (a * (tau + dt));
    assert (gap - gap * a) * (tau + dt) == gap * (tau + dt) - gap * dt;
    assert gap * (tau + dt) == gap * tau + gap * dt;
  }

  // ---------------------------------------------------------------- walking the target

  /** In control with the stick driving the target. */
  predicate Walks(c: Config, x: Input)
  {
    x.enabled && Usable(c, x) && Overrides(c, x) && c.walkTarget && x.target.None?
  }

  /** The stick, summed over time. */
  function StickTime(xs: seq<Input>): real
  {
    if xs == [] then 0.0 else StickTime(xs[..|xs| - 1]) + xs[|xs| - 1].heave * StepLength(xs[|xs| - 1].dt)
  }

  /** Over any run of walking steps an unbounded target gets shallower by the rate times the stick summed over time, and
      every one of them is an active step. */
  lemma {:induction false} WalkSums(c: Config, s: State, xs: seq<Input>)
    requires s.lastEnabled && s.target.Some? && c.targetMinM.None? && c.targetMaxM.None?
    requires forall i :: 0 <= i < |xs| ==> Walks(c, xs[i])
    ensures var s' := Run(c, s, xs);
            && s'.lastEnabled && s'.target == Some(s.target.value - Product(c.walkRateMps, StickTime(xs)))
            && (xs != [] ==> Heave(c, Run(c, s, xs[..|xs| - 1]), xs[|xs| - 1]).active)
  {
    hide After, Heave, Walks, InBounds, ClampTarget, Product;
    if xs == [] {
      ProductSplit(c.walkRateMps, 0.0, 0.0);
    } else {
      var n := |xs| - 1;
      WalkSums(c, s, xs[..n]);
      var before, sofar, more := Run(c, s, xs[..n]), StickTime(xs[..n]), xs[n].heave * StepLength(xs[n].dt);
      ProductSplit(c.walkRateMps, sofar, more);
      WalkStep(c, before, xs[n], more);
      NoBounds(c, before.target.value - Product(c.walkRateMps, more));
      assert StickTime(xs) == sofar + more;
    }
  }

  lemma ProductSplit(k: real, a: real, b: real)
    ensures Product(k, a + b) == Product(k, a) + Product(k, b)
    ensures Product(k, 0.0) == 0.0
  {
  }

  lemma NoBounds(c: Config, t: real)
    requires c.targetMinM.None? && c.targetMaxM.None?
    ensures ClampTarget(c, t) == t
  {
  }

  lemma WalkStep(c: Config, s: State, x: Input, stick: real)
    requires s.lastEnabled && s.target.Some? && Walks(c, x) && stick == x.heave * StepLength(x.dt)
    ensures var s', w := After(c, s, x), s.target.value - Product(c.walkRateMps, stick);
            && s'.lastEnabled && s'.iState == 0.98 * s.iState && Heave(c, s, x).active
            && s'.target == Some(ClampTarget(c, w))
  {
    hide ClampTarget, Filtered, Drive, Error, Walked, Product, InBounds;
    WalkedIs(c, s.target.value, x.heave, StepLength(x.dt), stick);
  }

  lemma WalkedIs(c: Config, target: real, heave: real, dt: real, stick: real)
    requires stick == heave * dt
    ensures Walked(c, target, heave, dt) == target - Product(c.walkRateMps, stick)
  {
  }

  /** The stick beyond its deadband either way takes the heave over, unless it walks the target: the pilot's command comes
      back, the target is where the vehicle is, within its bounds, and the integral is emptied. */
  lemma PilotTakesOver(c: Config, s: State, x: Input)
    requires x.enabled && Usable(c, x) && c.walkDeadband >= 0.0 && (x.heave > c.walkDeadband || x.heave < -c.walkDeadband)
    requires !c.walkTarget || x.target.Some?
    ensures var s' := After(c, s, x);
            && Heave(c, s, x) == Output(x.heave, false) && s'.iState == 0.0 && s'.lastEnabled
            && s'.zF.Some? && s'.target == Some(ClampTarget(c, s'.zF.value))
  {
    hide ClampTarget, Filtered;
  }

  /** Taking the command away, or sending another, ends the ignoring of the old one; the same one again does not. */
  lemma IgnoringEnds(c: Config, s: State, x: Input)
    requires Abs(x.heave) <= c.walkDeadband && x.enabled && !x.depth.Bad?
    ensures x.target.None? ==> After(c, s, x).ignored == None
    ensures x.target.Some? && s.ignored.Some? ==>
              After(c, s, x).ignored == if Abs(ClampTarget(c, x.target.value) - s.ignored.value) <= 0.000000001 then s.ignored else None
  {
    hide ClampTarget, Filtered, NextIntegral, Drive, Error;
  }

  // ---------------------------------------------------------------- the integral

  /** A settled hold: engaged on a target inside the bounds, with no command or the same one again. */
  predicate Settled(c: Config, s: State, x: Input)
  {
    Holding(c, s, x) && s.lastEnabled && s.target.Some? && InBounds(c, s.target.value)
    && (x.target.Some? ==> x.target == s.target && s.ignored.None?)
  }

  /** While the heave would be inside its limit the integral gathers the error over time, up to its band; while it would
      be outside, and inside the error deadband, the integral stands still. The target stays where it is throughout. */
  lemma IntegralGathers(c: Config, s: State, x: Input)
    requires Settled(c, s, x) && c.ki != 0.0 && c.iLimit >= 0.0 && c.outLimit >= 0.0 && Windup.Bounded(c.iLimit, c.ki, s.iState)
    ensures var s' := After(c, s, x);
            var y, band := Below(s'), c.iLimit / Abs(c.ki);
            var e := if Abs(y) < c.errorDeadbandM then 0.0 else y;
            var wanted := Sum(c.sign, c.kp, c.ki, c.kd, e, s.iState, Sinking(s, s', x));
            && s'.target == s.target
            && (e == 0.0 || Abs(wanted) > c.outLimit ==> s'.iState == s.iState)
            && (Abs(wanted) <= c.outLimit && e >= 0.0 ==> s'.iState == Min(band, s.iState + e * StepLength(x.dt)))
            && (Abs(wanted) <= c.outLimit && e <= 0.0 ==> s'.iState == Max(-band, s.iState + e * StepLength(x.dt)))
  {
    hide Advance, Filtered, ClampTarget, Sum, NextIntegral, Windup.Bounded, Sinking;
    SettledIntegral(c, s, x);
    var s' := After(c, s, x);
    NextIntegralGathers(c, s.iState, Error(c, s'.zF.value, s.target.value), Sinking(s, s', x), StepLength(x.dt));
  }

  lemma NextIntegralGathers(c: Config, i: real, e: real, dz: real, dt: real)
    requires c.ki != 0.0 && c.iLimit >= 0.0 && c.outLimit >= 0.0 && dt >= 0.0 && Windup.Bounded(c.iLimit, c.ki, i)
    ensures var next, band, wanted := NextIntegral(c, i, e, dz, dt, false), c.iLimit / Abs(c.ki), Sum(c.sign, c.kp, c.ki, c.kd, e, i, dz);
            && (e == 0.0 || Abs(wanted) > c.outLimit ==> next == i)
            && (Abs(wanted) <= c.outLimit && e >= 0.0 ==> next == Min(band, i + e * dt))
            && (Abs(wanted) <= c.outLimit && e <= 0.0 ==> next == Max(-band, i + e * dt))
  {
    hide Drive, Sum, Windup.Next, Windup.Bounded;
    DriveIs(c, e, i, dz);
    Windup.NextGathers(c.iLimit, c.ki, i, e, dt);
    Windup.BandHolds(c.iLimit, c.ki, i);
    assert e == 0.0 ==> e * dt == 0.0;
  }

  lemma DriveIs(c: Config, e: real, i: real, dz: real)
    ensures Drive(c, e, i, dz) == Sum(c.sign, c.kp, c.ki, c.kd, e, i, dz)
  {
  }

  lemma ClampTargetIdle(c: Config, t: real)
    requires InBounds(c, t)
    ensures ClampTarget(c, t) == t
  {
  }

  lemma SettledIntegral(c: Config, s: State, x: Input)
    requires Settled(c, s, x)
    ensures var s' := After(c, s, x);
            s'.zF.Some? && s'.target == s.target
            && s'.iState == NextIntegral(c, s.iState, Error(c, s'.zF.value, s.target.value), Sinking(s, s', x), StepLength(x.dt), false)
  {
    ClampTargetIdle(c, s.target.value);
    hide ClampTarget, NextIntegral, Filtered, Drive, Error;
  }

  /** The shipped gains, half a metre too deep at a steady depth: 0.426 up, and the integral has begun to grow. One and a
      half metres too deep the limit of 0.55 comes out and the integral stands still. */
  lemma ShippedHeave(c: Config, s: State, x: Input)
    requires c.kp == 0.85 && c.ki == 0.10 && c.kd == 0.18 && c.sign == 1.0 && c.outLimit == 0.55 && c.iLimit == 0.25 && c.errorDeadbandM == 0.008
    requires Settled(c, s, x) && After(c, s, x).zF == s.zF && s.iState == 0.0 && x.dt == 0.02
    ensures Below(s) == 0.5 ==> Heave(c, s, x) == Output(0.426, true) && After(c, s, x).iState == 0.01
    ensures Below(s) == 1.5 ==> Heave(c, s, x) == Output(0.55, true) && After(c, s, x).iState == 0.0
    ensures Below(s) == -0.5 ==> Heave(c, s, x) == Output(-0.426, true)
  {
    HoldingStep(c, s, x);
    SettledIntegral(c, s, x);
    hide Advance, Filtered, ClampTarget;
  }
}
