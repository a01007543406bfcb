/** control/autopilot.py: which way an attitude axis turns, and how far, in terms of directions alone. */
module AttitudeLaws {
  import opened Prelude
  import opened Attitude
  import opened Feedback
  import Windup

  // ---------------------------------------------------------------- whole turns do not matter

  ghost predicate SameDirection(a: Option<real>, b: Option<real>)
  {
    (a.Some? <==> b.Some?) && (a.Some? ==> SameAngle(a.value, b.value))
  }

  /** The same but for whole turns in the angles. */
  ghost predicate SameState(s: State, t: State)
  {
    && s.lastEnabled == t.lastEnabled && s.iState == t.iState
    && SameDirection(s.target, t.target) && SameDirection(s.ignored, t.ignored) && SameDirection(s.lastAngle, t.lastAngle)
  }

  ghost predicate SameInput(x: Input, y: Input)
  {
    SameDirection(x.angle, y.angle) && SameDirection(x.target, y.target) && y == x.(angle := y.angle, target := y.target)
  }

  lemma WrapSame(a: real, b: real)
    requires SameAngle(a, b)
    ensures WrapDeg(a) == WrapDeg(b)
  {
    var k :| Turned(a, b, k);
    WrapIsShortest(b, WrapDeg(b));
    var n :| Turned(b, WrapDeg(b), n);
    assert Turned(a, WrapDeg(b), k + n);
    WrapUnique(a, WrapDeg(b));
  }

  lemma SumSame(a: real, b: real, d: real, e: real)
    requires SameAngle(a, b) && SameAngle(d, e)
    ensures SameAngle(a - d, b - e) && SameAngle(a + d, b + e)
    ensures WrapDeg(a - d) == WrapDeg(b - e) && WrapDeg(a + d) == WrapDeg(b + e)
  {
    var k :| Turned(a, b, k);
    var n :| Turned(d, e, n);
    assert Turned(a - d, b - e, k - n) && Turned(a + d, b + e, k + n);
    WrapSame(a - d, b - e);
    WrapSame(a + d, b + e);
  }

  lemma SameItself()
    ensures forall x: real :: SameAngle(x, x)
  {
    forall x: real ensures SameAngle(x, x) {
      assert Turned(x, x, 0);
    }
  }

  lemma CommandTurns(c: Config, s: State, a: Option<real>, t: State, b: Option<real>)
    requires SameState(s, t) && SameDirection(a, b)
    ensures Command(c, s, a) == Command(c, t, b) && SameState(ReadCommand(c, s, a), ReadCommand(c, t, b))
  {
    hide WrapDeg, SameAngle;
    if a.Some? {
      WrapSame(a.value, b.value);
      SameItself();
      if s.ignored.Some? {
        SumSame(WrapDeg(a.value), WrapDeg(b.value), s.ignored.value, t.ignored.value);
      }
    }
  }

  lemma RateTurns(s: State, x: Input, t: State, y: Input)
    requires SameState(s, t) && SameInput(x, y) && x.angle.Some?
    ensures RateDps(s, x) == RateDps(t, y)
  {
    hide WrapDeg, SameAngle;
    if s.lastAngle.Some? {
      SumSame(x.angle.value, y.angle.value, s.lastAngle.value, t.lastAngle.value);
    }
  }

  lemma RegulateTurns(c: Config, s: State, angle: real, t: State, angle': real, rate: real, dt: real, driving: bool)
    requires SameState(s, t) && s.target.Some? && SameAngle(angle, angle')
    ensures SameState(Regulate(c, s, angle, rate, dt, driving).0, Regulate(c, t, angle', rate, dt, driving).0)
    ensures Regulate(c, s, angle, rate, dt, driving).1 == Regulate(c, t, angle', rate, dt, driving).1
  {
    hide WrapDeg, SameAngle, NextIntegral, Drive, Limit;
    SumSame(s.target.value, t.target.value, angle, angle');
  }

  lemma WalkedTurns(c: Config, a: real, x: Input, b: real, y: Input)
    requires SameAngle(a, b) && x.manual == y.manual && x.dt == y.dt
    ensures Walked(c, a, x) == Walked(c, b, y)
  {
    hide WrapDeg, SameAngle;
    SameItself();
    assert Push(c, x) == Push(c, y);
    hide Push;
    SumSame(a, b, Push(c, x), Push(c, y));
  }

  lemma HoldTurns(c: Config, s: State, x: Input, t: State, y: Input, cmd: Option<real>, rate: real)
    requires SameState(s, t) && SameInput(x, y) && x.angle.Some?
    ensures SameState(HoldStep(c, s, x, cmd, rate).0, HoldStep(c, t, y, cmd, rate).0)
    ensures HoldStep(c, s, x, cmd, rate).1 == HoldStep(c, t, y, cmd, rate).1
  {
    hide WrapDeg, SameAngle, Regulate;
    SameItself();
    if cmd.Some? && s.target.Some? {
      SumSame(cmd.value, cmd.value, s.target.value, t.target.value);
    }
    WrapSame(x.angle.value, y.angle.value);
    var s1, t1 := TakeTarget(s, cmd, x.angle.value), TakeTarget(t, cmd, y.angle.value);
    assert SameState(s1, t1);
    WalkedTurns(c, s1.target.value, x, t1.target.value, y);
    var walk := Walked(c, s1.target.value, x);
    hide Apart, Walked;
    if Driving(c, x) {
      RegulateTurns(c, s1.(target := Some(walk)), x.angle.value, t1.(target := Some(walk)), y.angle.value, rate, StepLength(x.dt), true);
    } else {
      RegulateTurns(c, s1, x.angle.value, t1, y.angle.value, rate, StepLength(x.dt), false);
    }
  }

  /** Whole turns in any angle that goes in change no output and nothing that is remembered. */
  lemma StepTurns(c: Config, s: State, x: Input, t: State, y: Input)
    requires SameState(s, t) && SameInput(x, y)
    ensures SameState(Advance(c, s, x).0, Advance(c, t, y).0)
    ensures Advance(c, s, x).1 == Advance(c, t, y).1
  {
    hide Command, ReadCommand, RateDps, HoldStep, Regulate, SameAngle, Damped, Limit;
    SameItself();
    CommandTurns(c, s, x.target, t, y.target);
    var s1, t1 := ReadCommand(c, s, x.target), ReadCommand(c, t, y.target);
    if Usable(x) {
      RateTurns(s1, x, t1, y);
      var rate := RateDps(s1, x);
      var s2, t2 := s1.(lastAngle := x.angle), t1.(lastAngle := y.angle);
      HoldTurns(c, s2, x, t2, y, Command(c, s, x.target), rate);
      RegulateTurns(c, s2.(target := Some(0.0)), x.angle.value, t2.(target := Some(0.0)), y.angle.value, rate, StepLength(x.dt), false);
    }
  }

  /** Nor do they over any run: two runs through the same directions put out the same commands throughout. */
  lemma {:induction false} RunTurns(c: Config, s: State, xs: seq<Input>, t: State, ys: seq<Input>)
    requires SameState(s, t) && |xs| == |ys| && forall i :: 0 <= i < |xs| ==> SameInput(xs[i], ys[i])
    ensures SameState(Run(c, s, xs), Run(c, t, ys))
    ensures forall n :: 0 <= n < |xs| ==> Advance(c, Run(c, s, xs[..n]), xs[n]).1 == Advance(c, Run(c, t, ys[..n]), ys[n]).1
  {
    hide Advance, SameState, SameInput;
    if xs != [] {
      var m := |xs| - 1;
      RunTurns(c, s, xs[..m], t, ys[..m]);
      StepTurns(c, Run(c, s, xs[..m]), xs[m], Run(c, t, ys[..m]), ys[m]);
      forall n | 0 <= n < |xs| ensures Advance(c, Run(c, s, xs[..n]), xs[n]).1 == Advance(c, Run(c, t, ys[..n]), ys[n]).1 {
        if n < m {
          assert xs[..m][..n] == xs[..n] && ys[..m][..n] == ys[..n] && xs[..m][n] == xs[n] && ys[..m][n] == ys[n];
        }
      }
    }
  }

  // ---------------------------------------------------------------- the answer to an error

  /** In control with the stick at rest, holding or levelling. */
  predicate Regulating(c: Config, x: Input)
  {
    (x.mode.Hold? || x.mode.Level?) && Usable(x) && !Driving(c, x)
  }

  /** y is the short way from the vehicle's angle to its target after the step. */
  ghost predicate ToTurn(s': State, x: Input, y: real)
    requires x.angle.Some?
  {
    s'.target.Some? && -180.0 < y < 180.0 && SameAngle(s'.target.value - x.angle.value, y)
  }

  /** The turn per second: as measured, else from the last angle to this one the short way, else none. */
  ghost predicate Turning(s: State, x: Input, rate: real)
    requires x.angle.Some?
  {
    if x.rate.Some? then rate == x.rate.value
    else if s.lastAngle.None? then rate == 0.0
    else -180.0 < Product(rate, StepLength(x.dt)) < 180.0 && SameAngle(x.angle.value - s.lastAngle.value, Product(rate, StepLength(x.dt)))
  }

  function Banded(c: Config, y: real): real
  {
    if Abs(y) < c.errorDeadbandDeg then 0.0 else y
  }

  lemma RegulatingStep(c: Config, s: State, x: Input, y: real, rate: real)
    requires Regulating(c, x) && ToTurn(Advance(c, s, x).0, x, y) && Turning(s, x, rate)
    ensures var (s', o) := Advance(c, s, x);
            o == Output(Limit(c, Drive(c, Banded(c, y), s'.iState, rate)), true)
  {
    hide NextIntegral, Drive, Limit, WrapDeg;
    WrapUnique(Advance(c, s, x).0.target.value - x.angle.value, y);
    RateIs(s, x, rate);
    hide RateDps, SameAngle;
    assert RateDps(ReadCommand(c, s, x.target), x) == RateDps(s, x) by {
      SameRate(c, s, x);
    }
  }

  lemma SameRate(c: Config, s: State, x: Input)
    requires x.angle.Some?
    ensures RateDps(ReadCommand(c, s, x.target), x) == RateDps(s, x)
  {
    hide WrapDeg;
  }

  lemma RateIs(s: State, x: Input, rate: real)
    requires x.angle.Some? && Turning(s, x, rate)
    ensures RateDps(s, x) == rate
  {
    hide WrapDeg, SameAngle, Product;
    if x.rate.None? && s.lastAngle.Some? {
      WrapUnique(x.angle.value - s.lastAngle.value, Product(rate, StepLength(x.dt)));
      PerStep(rate, StepLength(x.dt));
    }
  }

  lemma PerStep(rate: real, dt: real)
    requires dt > 0.0
    ensures Product(rate, dt) / dt == rate
  {
  }

  /** Without integral gain, and without derivative gain or at no rate, the output answers the short way to the target:
      for sign 1 with it, by |sign| * kp * its length, within the limit. Inside the error deadband it is 0. */
  lemma OutputAnswersTurn(c: Config, s: State, x: Input, y: real, rate: real)
    requires Regulating(c, x) && ToTurn(Advance(c, s, x).0, x, y) && Turning(s, x, rate)
    requires c.kp >= 0.0 && c.ki == 0.0 && c.outLimit >= 0.0 && (c.kd == 0.0 || rate == 0.0)
    ensures var o := Advance(c, s, x).1;
            && o.active
            && (Abs(y) < c.errorDeadbandDeg ==> o.u == 0.0)
            && (Abs(y) >= c.errorDeadbandDeg ==> Answers(o.u, c.sign, c.kp, y, c.outLimit))
  {
    hide Advance, Answers, Drive, ToTurn, Turning;
    RegulatingStep(c, s, x, y, rate);
    PurelyProportional(c, Banded(c, y), Advance(c, s, x).0.iState, rate);
    ProportionalAnswers(c.sign, c.kp, Banded(c, y), c.outLimit);
    ProductSign(c.kp, 0.0);
    ProductSign(c.sign, Product(c.kp, 0.0));
  }

  lemma PurelyProportional(c: Config, y: real, i: real, rate: real)
    requires c.ki == 0.0 && (c.kd == 0.0 || rate == 0.0)
    ensures Drive(c, y, i, rate) == Product(c.sign, Product(c.kp, y))
  {
    assert c.kd * rate == 0.0;
  }

  /** Of two steps under one configuration with sign >= 0, the one with no less to turn, no smaller integral and no faster
      turn already under way gets no less output. */
  lemma OutputMonotone(c: Config, s1: State, x1: Input, y1: real, rate1: real, s2: State, x2: Input, y2: real, rate2: real)
    requires Regulating(c, x1) && ToTurn(Advance(c, s1, x1).0, x1, y1) && Turning(s1, x1, rate1)
    requires Regulating(c, x2) && ToTurn(Advance(c, s2, x2).0, x2, y2) && Turning(s2, x2, rate2)
    requires c.sign >= 0.0 && c.kp >= 0.0 && c.ki >= 0.0 && c.kd >= 0.0 && c.outLimit >= 0.0
    requires y1 <= y2 && rate1 >= rate2 && Advance(c, s1, x1).0.iState <= Advance(c, s2, x2).0.iState
    ensures Advance(c, s1, x1).1.u <= Advance(c, s2, x2).1.u
  {
    hide Advance, Drive, ToTurn, Turning, Sum;
    RegulatingStep(c, s1, x1, y1, rate1);
    RegulatingStep(c, s2, x2, y2, rate2);
    var i1, i2 := Advance(c, s1, x1).0.iState, Advance(c, s2, x2).0.iState;
    DriveIs(c, Banded(c, y1), i1, rate1);
    DriveIs(c, Banded(c, y2), i2, rate2);
    SumMono(c.sign, c.kp, c.ki, c.kd, Banded(c, y1), Banded(c, y2), i1, i2, -rate1, -rate2, c.outLimit);
  }

  lemma DriveIs(c: Config, y: real, i: real, rate: real)
    ensures Drive(c, y, i, rate) == Sum(c.sign, c.kp, c.ki, c.kd, y, i, -rate)
  {
    assert c.kd * -rate == -(c.kd * rate);
  }

  // ---------------------------------------------------------------- the target, the integral, damping

  /** Levelling regulates to 0; holding regulates to a command that counts, else to the target it has, else to where the
      vehicle is as it engages. */
  lemma RegulatesTo(c: Config, s: State, x: Input)
    requires Regulating(c, x)
    ensures var s' := Advance(c, s, x).0;
            && s'.lastEnabled && s'.target.Some?
            && (x.mode.Level? ==> s'.target == Some(0.0))
            && (x.mode.Hold? && x.target.Some? && !c.manualLatch ==> Abs(WrapDeg(x.target.value - s'.target.value)) <= 0.000000001)
            && (x.mode.Hold? && x.target.None? && s.lastEnabled && s.target.Some? ==> s'.target == s.target)
            && (x.mode.Hold? && x.target.None? && (!s.lastEnabled || s.target.None?) ==> s'.target == x.angle)
  {
    hide WrapDeg, SameAngle, NextIntegral, Drive, Limit, RateDps, ErrorDeg;
    if x.target.Some? {
      var t := x.target.value;
      WrapIsShortest(t, t);
      SameItself();
      SumSame(t, WrapDeg(t), WrapDeg(t), WrapDeg(t));
      WrapZero();
      if s.target.Some? {
        SumSame(t, WrapDeg(t), s.target.value, s.target.value);
      }
    }
  }

  lemma WrapZero()
    ensures forall t :: t == 0.0 ==> WrapDeg(t) == 0.0
  {
    assert Turned(0.0, 0.0, 0);
    WrapUnique(0.0, 0.0);
  }

  /** The stick beyond its deadband either way takes the axis over: in levelling, and in holding with a latch or under a
      command, the pilot's command comes back and the integral is emptied. */
  lemma PilotTakesOver(c: Config, s: State, x: Input)
    requires Usable(x) && (x.manual > c.manualDeadband || x.manual < -c.manualDeadband) && c.manualDeadband >= 0.0
    requires x.mode.Level? || (x.mode.Hold? && (c.manualLatch || x.target.Some?))
    ensures Advance(c, s, x).1 == Output(x.manual, false) && Advance(c, s, x).0.iState == 0.0 && Advance(c, s, x).0.lastEnabled
  {
    hide WrapDeg, RateDps, Apart;
  }

  /** Taking the command away, or sending another, ends the ignoring of the old one. */
  lemma IgnoringEnds(c: Config, s: State, x: Input)
    requires c.manualLatch && Abs(x.manual) <= c.manualDeadband && !x.mode.Off?
    ensures x.target.None? ==> Advance(c, s, x).0.ignored == None
    ensures x.target.Some? && s.ignored.Some? && Apart(WrapDeg(x.target.value), s.ignored.value) ==> Advance(c, s, x).0.ignored == None
    ensures x.target.Some? && s.ignored.Some? && !Apart(WrapDeg(x.target.value), s.ignored.value) ==> Advance(c, s, x).0.ignored == s.ignored
  {
    hide WrapDeg, RateDps, Apart, NextIntegral, Drive, Limit, ErrorDeg;
  }

  /** Engaged on a target, with no command or the same one again. */
  ghost predicate OnTarget(c: Config, s: State, x: Input)
  {
    s.lastEnabled && s.target.Some? &&
    (x.target.Some? ==> SameAngle(x.target.value, s.target.value) && (c.manualLatch ==> s.ignored.None?))
  }

  /** On a target that is not being changed: while the output would be inside its limit, but for a tolerance, the integral
      gathers the turn over time, up to its band; while it would be outside, and inside the error deadband, it stands still. */
  lemma IntegralGathers(c: Config, s: State, x: Input, y: real, rate: real)
    requires Regulating(c, x) && x.mode.Hold? && OnTarget(c, s, x)
    requires ToTurn(s, x, y) && Turning(s, x, rate)
    requires c.ki != 0.0 && c.iLimit >= 0.0 && c.outLimit >= 0.0 && Windup.Bounded(c.iLimit, c.ki, s.iState)
    ensures var next, e, band := Advance(c, s, x).0.iState, Banded(c, y), c.iLimit / Abs(c.ki);
            var wanted := Sum(c.sign, c.kp, c.ki, c.kd, e, s.iState, -rate);
            && (e == 0.0 || Abs(wanted) > c.outLimit + 0.000000001 ==> next == s.iState)
            && (Abs(wanted) <= c.outLimit + 0.000000001 && e >= 0.0 ==> next == Min(band, s.iState + e * StepLength(x.dt)))
            && (Abs(wanted) <= c.outLimit + 0.000000001 && e <= 0.0 ==> next == Max(-band, s.iState + e * StepLength(x.dt)))
  {
    hide Advance, Sum, NextIntegral, Windup.Bounded, ToTurn, Turning, OnTarget;
    SettledIntegral(c, s, x, y, rate);
    NextIntegralGathers(c, s.iState, Banded(c, y), rate, StepLength(x.dt));
  }

  lemma SettledIntegral(c: Config, s: State, x: Input, y: real, rate: real)
    requires Regulating(c, x) && x.mode.Hold? && OnTarget(c, s, x)
    requires ToTurn(s, x, y) && Turning(s, x, rate)
    ensures Advance(c, s, x).0.iState == NextIntegral(c, s.iState, Banded(c, y), rate, StepLength(x.dt), false)
  {
    hide NextIntegral, Drive, Limit, WrapDeg, RateDps;
    WrapUnique(s.target.value - x.angle.value, y);
    RateIs(s, x, rate);
    SameRate(c, s, x);
    if x.target.Some? {
      var t := x.target.value;
      WrapIsShortest(t, t);
      SameItself();
      SumSame(t, WrapDeg(t), s.target.value, s.target.value);
      SumSame(t, s.target.value, s.target.value, s.target.value);
      WrapZero();
    }
    hide SameAngle;
  }

  lemma NextIntegralGathers(c: Config, i: real, e: real, rate: real, dt: real)
    requires c.ki != 0.0 && c.iLimit >= 0.0 && c.outLimit >= 0.0 && dt >= 0.0 && Windup.Bounded(c.iLimit, c.ki, i)
    ensures var next, band, wanted := NextIntegral(c, i, e, rate, dt, false), c.iLimit / Abs(c.ki), Sum(c.sign, c.kp, c.ki, c.kd, e, i, -rate);
            && (e == 0.0 || Abs(wanted) > c.outLimit + 0.000000001 ==> next == i)
            && (Abs(wanted) <= c.outLimit + 0.000000001 && e >= 0.0 ==> next == Min(band, i + e * dt))
            && (Abs(wanted) <= c.outLimit + 0.000000001 && e <= 0.0 ==> next == Max(-band, i + e * dt))
  {
    hide Drive, Sum, Windup.Next, Windup.Bounded;
    DriveIs(c, e, i, rate);
    Windup.NextGathers(c.iLimit, c.ki, i, e, dt);
    Windup.BandHolds(c.iLimit, c.ki, i);
    assert e == 0.0 ==> e * dt == 0.0;
  }

  /** Damping answers the turn under way against it, by |sign| * kd * the rate. */
  lemma DampOpposes(c: Config, s: State, x: Input, rate: real)
    requires x.mode.Damp? && Usable(x) && Turning(s, x, rate) && c.kd >= 0.0 && c.outLimit >= 0.0
    ensures var o := Advance(c, s, x).1;
            && o == Output(Clamp(x.manual + Product(c.sign, Product(c.kd, -rate)), -c.outLimit, c.outLimit), true)
            && (x.manual == 0.0 ==> Answers(o.u, c.sign, c.kd, -rate, c.outLimit))
  {
    hide WrapDeg, Answers;
    RateIs(s, x, rate);
    SameRate(c, s, x);
    hide RateDps, SameAngle;
    assert Damped(c, x.manual, rate) == x.manual + Product(c.sign, Product(c.kd, -rate)) by {
      assert -c.kd * rate == c.kd * -rate;
    }
    hide Damped;
    ProportionalAnswers(c.sign, c.kd, -rate, c.outLimit);
    hide Product;
  }

  /** Without a latch and without a command the stick turns the target at the walk rate, and the integral fades. */
  lemma StickTurnsTarget(c: Config, s: State, x: Input)
    requires x.mode.Hold? && Usable(x) && Driving(c, x) && !c.manualLatch && x.target.None? && s.lastEnabled && s.target.Some?
    ensures var (s', o) := Advance(c, s, x);
            && s'.target.Some? && SameAngle(s.target.value + x.manual * c.walkRateDps * StepLength(x.dt), s'.target.value)
            && s'.iState == 0.98 * s.iState && s'.lastEnabled && o.active
  {
    hide WrapDeg, RateDps, Drive, Limit, ErrorDeg, SameAngle, Push;
    WrapIsShortest(s.target.value + Push(c, x), 0.0);
    PushIs(c, x);
  }

  lemma PushIs(c: Config, x: Input)
    ensures Push(c, x) == x.manual * c.walkRateDps * StepLength(x.dt)
  {
  }

  /** The shipped yaw axis, set on 170 degrees with the vehicle at -170 and at rest: it turns the 20 degrees across the
      half turn, not the 340 degrees back. */
  lemma ShippedYawCrosses(s: State)
    requires s.lastEnabled && s.target == Some(170.0) && s.iState == 0.0
    ensures var yaw := Config(0.011, 0.0008, 0.002, 0.75, 0.05, 0.18, -1.0, 0.08, 35.0, true);
            && Advance(yaw, s, Input(Hold, 0.0, Some(-170.0), true, false, 0.02, None, Some(0.0))).1 == Output(0.18, true)
            && Advance(yaw, s, Input(Hold, 0.0, Some(160.0), true, false, 0.02, None, Some(0.0))).1.u < -0.11
  {
    assert Turned(170.0 - -170.0, -20.0, 1);
    assert Turned(170.0 - 160.0, 10.0, 0);
    WrapUnique(170.0 - -170.0, -20.0);
    WrapUnique(170.0 - 160.0, 10.0);
    hide WrapDeg;
  }
}
