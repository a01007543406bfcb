/** control/autopilot.py: angle wrapping and the per-axis attitude controller. */
module Attitude {
  import opened Prelude
  import Windup

  // ---------------------------------------------------------------- angles

  function FloorMod360(x: real): real
  {
    x - 360.0 * (x / 360.0).Floor as real
  }

  function WrapDeg(x: real): (w: real)
    ensures -180.0 <= w < 180.0
  {
    FloorMod360(x + 180.0) - 180.0
  }

  /** x and y name the same direction. */
  ghost predicate SameAngle(x: real, y: real)
  {
    exists k: int :: Turned(x, y, k)
  }

  predicate Turned(x: real, y: real, k: int)
  {
    x - y == 360.0 * k as real
  }

  /** The wrapped angle names the same direction, and no angle that does is smaller in magnitude. */
  lemma WrapIsShortest(x: real, y: real)
    ensures SameAngle(x, WrapDeg(x))
    ensures SameAngle(x, y) ==> Abs(WrapDeg(x)) <= Abs(y)
  {
    var n := ((x + 180.0) / 360.0).Floor;
    var w := WrapDeg(x);
    assert Turned(x, w, n);
    if SameAngle(x, y) {
      var k :| Turned(x, y, k);
      assert y - w == 360.0 * (n - k) as real;
      if n - k >= 1 {
        assert y >= w + 360.0;
      } else if n - k <= -1 {
        assert y <= w - 360.0;
      }
    }
  }

  /** It is the only one in [-180,180). */
  lemma WrapUnique(x: real, y: real)
    requires -180.0 <= y < 180.0
    ensures SameAngle(x, y) <==> y == WrapDeg(x)
  {
    WrapIsShortest(x, y);
    if SameAngle(x, y) {
      var n := ((x + 180.0) / 360.0).Floor;
      var k :| Turned(x, y, k);
      assert y - WrapDeg(x) == 360.0 * (n - k) as real;
    }
  }

  // ---------------------------------------------------------------- one axis

  datatype Mode = Off | Damp | Hold | Level | Unknown

  datatype Config = Config(
    kp: real,
    ki: real,
    kd: real,
    errorDeadbandDeg: real,
    iLimit: real,
    outLimit: real,
    sign: real,
    manualDeadband: real,
    walkRateDps: real,
    manualLatch: bool)

  datatype State = State(
    lastEnabled: bool,
    target: Option<real>,
    ignored: Option<real>,
    iState: real,
    lastAngle: Option<real>)

  datatype Input = Input(
    mode: Mode,
    manual: real,
    angle: Option<real>,
    ready: bool,
    stale: bool,
    dt: real,
    target: Option<real>,
    rate: Option<real>)

  datatype Output = Output(u: real, active: bool)

  const RESET := State(false, None, None, 0.0, None)

  predicate Apart(x: real, y: real)
  {
    Abs(WrapDeg(x - y)) > 0.000000001
  }

  function Command(c: Config, s: State, target: Option<real>): Option<real>
  {
    if target.None? then None
    else
      var t := WrapDeg(target.value);
      if c.manualLatch && s.ignored.Some? && !Apart(t, s.ignored.value) then None else Some(t)
  }

  function ReadCommand(c: Config, s: State, target: Option<real>): State
  {
    if c.manualLatch && !(target.Some? && Command(c, s, target).None?) then s.(ignored := None) else s
  }

  predicate Available(x: Input)
  {
    x.angle.Some? && x.ready
  }

  predicate Driving(c: Config, x: Input)
  {
    Abs(x.manual) > c.manualDeadband
  }

  function RateDps(s: State, x: Input): real
    requires x.angle.Some?
  {
    if x.rate.Some? then x.rate.value
    else if s.lastAngle.Some? then WrapDeg(x.angle.value - s.lastAngle.value) / StepLength(x.dt)
    else 0.0
  }

  /** In hold: a command sets the target when it differs; without one the angle is captured on (re-)engagement. */
  function TakeTarget(s: State, cmd: Option<real>, angle: real): (s': State)
    ensures s'.target.Some?
  {
    if cmd.Some? then
      if s.target.None? || Apart(cmd.value, s.target.value) then s.(target := cmd, iState := 0.0) else s
    else if !s.lastEnabled || s.target.None? then s.(target := Some(angle), iState := 0.0)
    else s
  }

  function Drive(c: Config, err: real, i: real, rate: real): real
  {
    c.sign * (c.kp * err + c.ki * i - c.kd * rate)
  }

  function Limit(c: Config, u: real): real
  {
    Clamp(u, -c.outLimit, c.outLimit)
  }

  function ErrorDeg(c: Config, target: real, angle: real): real
  {
    var e := WrapDeg(target - angle);
    if Abs(e) < c.errorDeadbandDeg then 0.0 else e
  }

  predicate Saturated(c: Config, u: real)
  {
    Abs(Limit(c, u) - u) > 0.000000001
  }

  function NextIntegral(c: Config, i: real, err: real, rate: real, dt: real, driving: bool): real
  {
    if !Saturated(c, Drive(c, err, i, rate)) && !driving && c.ki != 0.0 then Windup.Next(c.iLimit, c.ki, i, err, dt)
    else if driving then i * 0.98
    else i
  }

  function Regulate(c: Config, s: State, angle: real, rate: real, dt: real, driving: bool): (State, Output)
  {
    var err := ErrorDeg(c, if s.target.Some? then s.target.value else angle, angle);
    var i := NextIntegral(c, s.iState, err, rate, dt, driving);
    (s.(iState := i, lastEnabled := true), Output(Limit(c, Drive(c, err, i, rate)), true))
  }

  function PassWith(s: State, x: Input): (State, Output)
  {
    (s, Output(x.manual, false))
  }

  function HoldStep(c: Config, s: State, x: Input, cmd: Option<real>, rate: real): (State, Output)
    requires x.angle.Some?
  {
    var s1 := TakeTarget(s, cmd, x.angle.value);
    if !Driving(c, x) then Regulate(c, s1, x.angle.value, rate, StepLength(x.dt), false)
    else if c.manualLatch then
      PassWith(s1.(target := Some(WrapDeg(x.angle.value)), ignored := if cmd.Some? then cmd else s1.ignored,
                   iState := 0.0, lastEnabled := true), x)
    else if cmd.Some? then PassWith(s1.(iState := 0.0, lastEnabled := true), x)
    else Regulate(c, s1.(target := Some(Walked(c, s1.target.value, x))), x.angle.value, rate, StepLength(x.dt), true)
  }

  function Walked(c: Config, target: real, x: Input): real
  {
    WrapDeg(target + Push(c, x))
  }

  /** How far the stick turns the target in one step. */
  function Push(c: Config, x: Input): real
  {
    x.manual * c.walkRateDps * StepLength(x.dt)
  }

  /** Manual command less angular rate; the output limit applies to the pilot's part as well. */
  function Damped(c: Config, manual: real, rate: real): real
  {
    manual + c.sign * (-c.kd * rate)
  }

  function Advance(c: Config, s: State, x: Input): (State, Output)
  {
    var s1 := ReadCommand(c, s, x.target);
    if x.mode.Off? then PassWith(RESET, x)
    else if !Available(x) then PassWith(s1.(lastEnabled := false), x)
    else if x.stale then PassWith(s1, x)
    else
      var rate := RateDps(s1, x);
      var s2 := s1.(lastAngle := x.angle);
      match x.mode
      case Level =>
        var s3 := s2.(target := Some(0.0));
        if Driving(c, x) then PassWith(s3.(iState := 0.0, lastEnabled := true), x)
        else Regulate(c, s3, x.angle.value, rate, StepLength(x.dt), false)
      case Hold => HoldStep(c, s2, x, Command(c, s, x.target), rate)
      case Damp => (s2.(lastEnabled := true), Output(Limit(c, Damped(c, x.manual, rate)), true))
      case _ => PassWith(s2.(lastEnabled := false), x)
  }

  function Run(c: Config, s: State, xs: seq<Input>): State
  {
    if xs == [] then s else Advance(c, Run(c, s, xs[..|xs| - 1]), xs[|xs| - 1]).0
  }

  // ---------------------------------------------------------------- the axis object

  class AttitudeAxisController {
    const c: Config
    var lastEnabled: bool
    var target: Option<real>
    var ignored: Option<real>
    var iState: real
    var lastAngle: Option<real>

    ghost function Current(): State
      reads this
    {
      State(lastEnabled, target, ignored, iState, lastAngle)
    }

    constructor (c: Config)
      ensures this.c == c && Current() == RESET
    {
      this.c := c;
      lastEnabled, target, ignored, iState, lastAngle := false, None, None, 0.0, None;
    }

    method Reset()
      modifies this
      ensures Current() == RESET
    {
      lastEnabled, target, ignored, iState, lastAngle := false, None, None, 0.0, None;
    }

    method FilterCommand(raw: Option<real>) returns (cmd: Option<real>)
      modifies this`ignored
      ensures Current() == ReadCommand(c, old(Current()), raw)
      ensures cmd == Command(c, old(Current()), raw)
    {
      cmd := if raw.Some? then Some(WrapDeg(raw.value)) else None;
      if c.manualLatch {
        if cmd.None? {
          ignored := None;
        } else if ignored.Some? && !Apart(cmd.value, ignored.value) {
          cmd := None;
        } else {
          ignored := None;
        }
      }
    }

    method Regulates(angle: real, rate: real, dt: real, driving: bool) returns (out: Output)
      modifies this`iState, this`lastEnabled
      ensures Current() == Regulate(c, old(Current()), angle, rate, dt, driving).0
      ensures out == Regulate(c, old(Current()), angle, rate, dt, driving).1
    {
      hide ErrorDeg, Drive, Limit, Windup.Next;
      var err := ErrorDeg(c, if target.Some? then target.value else angle, angle);
      var u := Drive(c, err, iState, rate);
      if !Saturated(c, u) && !driving && c.ki != 0.0 {
        iState := Windup.Next(c.iLimit, c.ki, iState, err, dt);
        u := Drive(c, err, iState, rate);
      } else if driving {
        iState := iState * 0.98;
        u := Drive(c, err, iState, rate);
      }
      lastEnabled := true;
      out := Output(Limit(c, u), true);
    }

    method HoldMode(x: Input, cmd: Option<real>, rate: real) returns (out: Output)
      requires x.angle.Some?
      modifies this
      ensures Current() == HoldStep(c, old(Current()), x, cmd, rate).0
      ensures out == HoldStep(c, old(Current()), x, cmd, rate).1
    {
      hide Regulate, WrapDeg, Walked, Apart;
      if cmd.Some? {
        if target.None? || Apart(cmd.value, target.value) {
          target, iState := cmd, 0.0;
        }
      } else if !lastEnabled || target.None? {
        target, iState := x.angle, 0.0;
      }
      if Driving(c, x) {
        if c.manualLatch {
          target := Some(WrapDeg(x.angle.value));
          if cmd.Some? {
            ignored := cmd;
          }
          iState, lastEnabled := 0.0, true;
          return Output(x.manual, false);
        }
        if cmd.Some? {
          iState, lastEnabled := 0.0, true;
          return Output(x.manual, false);
        }
        target := Some(Walked(c, target.value, x));
      }
      out := Regulates(x.angle.value, rate, StepLength(x.dt), Driving(c, x));
    }

    method Step(x: Input) returns (out: Output)
      modifies this
      ensures Current() == Advance(c, old(Current()), x).0
      ensures out == Advance(c, old(Current()), x).1
    {
      hide HoldStep, Regulate, ReadCommand, Command, Limit, RateDps, Damped;
      var cmd := FilterCommand(x.target);
      if x.mode.Off? {
        Reset();
        return Output(x.manual, false);
      }
      if x.angle.None? || !x.ready {
        lastEnabled := false;
        return Output(x.manual, false);
      }
      if x.stale {
        return Output(x.manual, false);
      }
      var rate := MeasuredRate(x);
      lastAngle := x.angle;
      if x.mode.Level? {
        target := Some(0.0);
        if Driving(c, x) {
          iState, lastEnabled := 0.0, true;
          return Output(x.manual, false);
        }
        out := Regulates(x.angle.value, rate, StepLength(x.dt), false);
      } else if x.mode.Hold? {
        out := HoldMode(x, cmd, rate);
      } else if x.mode.Damp? {
        lastEnabled := true;
        out := Output(Limit(c, Damped(c, x.manual, rate)), true);
      } else {
        lastEnabled := false;
        out := Output(x.manual, false);
      }
    }

    method MeasuredRate(x: Input) returns (rate: real)
      requires x.angle.Some?
      ensures rate == RateDps(Current(), x)
    {
      rate := if x.rate.Some? then x.rate.value else 0.0;
      if x.rate.None? && lastAngle.Some? {
        rate := WrapDeg(x.angle.value - lastAngle.value) / StepLength(x.dt);
      }
    }
  }

  // ---------------------------------------------------------------- bounds

  lemma RegulateBounded(c: Config, s: State, angle: real, rate: real, dt: real, driving: bool)
    requires Windup.Bounded(c.iLimit, c.ki, s.iState)
    ensures var (s', o) := Regulate(c, s, angle, rate, dt, driving);
            o.active && Abs(o.u) <= Abs(c.outLimit) && Windup.Bounded(c.iLimit, c.ki, s'.iState)
  {
    hide Windup.Next, Windup.Bounded, Drive, WrapDeg;
    var err := ErrorDeg(c, if s.target.Some? then s.target.value else angle, angle);
    var i := NextIntegral(c, s.iState, err, rate, dt, driving);
    if c.ki != 0.0 {
      Windup.NextBounded(c.iLimit, c.ki, s.iState, err, dt);
    }
    Windup.DecayBounded(c.iLimit, c.ki, s.iState);
    ClampSymmetric(Drive(c, err, i, rate), c.outLimit);
  }

  /** Active output is inside the axis limit, inactive output is the pilot's command; the integral stays in its band. */
  lemma StepBounded(c: Config, s: State, x: Input)
    requires Windup.Bounded(c.iLimit, c.ki, s.iState)
    ensures var (s', o) := Advance(c, s, x);
            && Windup.Bounded(c.iLimit, c.ki, s'.iState)
            && (if o.active then Abs(o.u) <= Abs(c.outLimit) else o.u == x.manual)
  {
    hide Windup.Bounded, WrapDeg, RateDps, Regulate, Walked;
    Windup.ZeroBounded(c.iLimit, c.ki);
    forall s2: State, angle, rate, dt, driving | Windup.Bounded(c.iLimit, c.ki, s2.iState)
      ensures var (s', o) := Regulate(c, s2, angle, rate, dt, driving);
              o.active && Abs(o.u) <= Abs(c.outLimit) && Windup.Bounded(c.iLimit, c.ki, s'.iState)
    {
      RegulateBounded(c, s2, angle, rate, dt, driving);
    }
    if x.mode.Damp? && Available(x) && !x.stale {
      var rate := RateDps(ReadCommand(c, s, x.target), x);
      ClampSymmetric(Damped(c, x.manual, rate), c.outLimit);
    }
  }

  // ---------------------------------------------------------------- damping

  /** Damping in control passes the pilot's command plus the rate damping on if and only if their sum is inside the
      output limit; outside it the limit is what comes out. */
  lemma DampExactly(c: Config, s: State, x: Input)
    requires x.mode.Damp? && Available(x) && !x.stale
    ensures var wanted := Damped(c, x.manual, RateDps(ReadCommand(c, s, x.target), x));
            var o := Advance(c, s, x).1;
            && o.active
            && (o.u == wanted <==> Abs(wanted) <= c.outLimit)
            && (c.outLimit >= 0.0 && Abs(wanted) > c.outLimit ==> o.u == if wanted > 0.0 then c.outLimit else -c.outLimit)
  {
    hide RateDps, Damped;
  }

  /** At rest the damping adds nothing, and the pilot's command comes through if and only if it is inside the limit. */
  lemma DampAtRest(c: Config, s: State, x: Input)
    requires x.mode.Damp? && Available(x) && !x.stale && x.rate == Some(0.0)
    ensures Advance(c, s, x).1.u == x.manual <==> Abs(x.manual) <= c.outLimit
  {
    assert c.sign * (-c.kd * 0.0) == 0.0;
    DampExactly(c, s, x);
    hide Advance;
  }

  /** The shipped roll axis: a full stick on a vehicle at rest comes out as 0.16. */
  lemma DampCutsFullStick(s: State)
    ensures var roll := Config(0.012, 0.0, 0.002, 0.5, 0.10, 0.16, 1.0, 0.08, 35.0, false);
            var x := Input(Damp, 1.0, Some(0.0), true, false, 0.02, None, Some(0.0));
            Advance(roll, s, x).1 == Output(0.16, true)
  {
    var roll := Config(0.012, 0.0, 0.002, 0.5, 0.10, 0.16, 1.0, 0.08, 35.0, false);
    assert Damped(roll, 1.0, 0.0) == 1.0;
  }

  // ---------------------------------------------------------------- manual latch

  predicate LatchedOver(c: Config, s: State, t: real, latched: real)
  {
    c.manualLatch && s.lastEnabled && s.target == Some(latched) && s.ignored.Some? && !Apart(WrapDeg(t), s.ignored.value)
  }

  lemma OverrideLatches(c: Config, s: State, x: Input)
    requires c.manualLatch && x.mode.Hold? && Available(x) && !x.stale && Driving(c, x) && x.target.Some?
    ensures LatchedOver(c, Advance(c, s, x).0, x.target.value, WrapDeg(x.angle.value))
    ensures Advance(c, s, x).1 == Output(x.manual, false)
  {
  }

  /** Still holding and commanding t, stick in the deadband, attitude present and ready, fresh or stale. */
  predicate Repeats(c: Config, x: Input, t: real)
  {
    Commands(c, x, t) && Available(x)
  }

  lemma {:induction false} LatchSurvivesRepeats(c: Config, s: State, xs: seq<Input>, t: real, latched: real)
    requires LatchedOver(c, s, t, latched)
    requires forall i :: 0 <= i < |xs| ==> Repeats(c, xs[i], t)
    ensures LatchedOver(c, Run(c, s, xs), t, latched)
  {
    if xs != [] {
      hide WrapDeg, Apart, RateDps, NextIntegral, Drive, ErrorDeg;
      LatchSurvivesRepeats(c, s, xs[..|xs| - 1], t, latched);
      assert Repeats(c, xs[|xs| - 1], t);
    }
  }

  /** Holding and commanding t with the stick in the deadband, whatever becomes of the attitude. */
  predicate Commands(c: Config, x: Input, t: real)
  {
    x.mode.Hold? && x.target == Some(t) && !Driving(c, x)
  }

  predicate Usable(x: Input)
  {
    Available(x) && !x.stale
  }

  /** A step lost the attitude, and none has been usable since. */
  predicate Pending(xs: seq<Input>)
  {
    if xs == [] then false
    else
      var x := xs[|xs| - 1];
      if !Available(x) then true else if x.stale then Pending(xs[..|xs| - 1]) else false
  }

  /** The target after the run: the angle of the latest usable step that came after a lost one, else the latched angle. */
  function Kept(xs: seq<Input>, latched: real): real
  {
    if xs == [] then latched
    else
      var x := xs[|xs| - 1];
      if Usable(x) && Pending(xs[..|xs| - 1]) then x.angle.value else Kept(xs[..|xs| - 1], latched)
  }

  /** After a latch, over any run that repeats the old command, with attitude lost, stale or usable at any step: what
      the target and the latch are, exactly. The old command itself never comes back. */
  lemma {:induction false} LatchOverRun(c: Config, s: State, xs: seq<Input>, t: real, latched: real)
    requires LatchedOver(c, s, t, latched)
    requires forall i :: 0 <= i < |xs| ==> Commands(c, xs[i], t)
    ensures var s' := Run(c, s, xs);
            s'.target == Some(Kept(xs, latched)) && s'.ignored == s.ignored && s'.lastEnabled == !Pending(xs)
    ensures LatchedOver(c, Run(c, s, xs), t, latched) <==> !Pending(xs) && Kept(xs, latched) == latched
  {
    if xs != [] {
      hide WrapDeg, Apart, RateDps, NextIntegral, Drive, ErrorDeg;
      LatchOverRun(c, s, xs[..|xs| - 1], t, latched);
      assert Commands(c, xs[|xs| - 1], t);
    }
  }

  /** In particular, unless an angle happens to be the latched one, the latch survives exactly when no step loses the attitude. */
  lemma LatchSurvivesExactly(c: Config, s: State, xs: seq<Input>, t: real, latched: real)
    requires LatchedOver(c, s, t, latched)
    requires forall i :: 0 <= i < |xs| ==> Commands(c, xs[i], t)
    requires forall i :: 0 <= i < |xs| ==> xs[i].angle != Some(latched)
    ensures LatchedOver(c, Run(c, s, xs), t, latched) <==> forall i :: 0 <= i < |xs| ==> Available(xs[i])
  {
    LatchOverRun(c, s, xs, t, latched);
    hide Advance, Run;
    KeptExactly(xs, latched);
  }

  lemma {:induction false} KeptExactly(xs: seq<Input>, latched: real)
    requires forall i :: 0 <= i < |xs| ==> xs[i].angle != Some(latched)
    ensures !Pending(xs) && Kept(xs, latched) == latched <==> forall i :: 0 <= i < |xs| ==> Available(xs[i])
  {
    if xs != [] {
      var n := |xs| - 1;
      KeptExactly(xs[..n], latched);
      if forall i :: 0 <= i < |xs| ==> Available(xs[i]) {
        assert forall i :: 0 <= i < n ==> Available(xs[..n][i]);
      } else {
        var i :| 0 <= i < |xs| && !Available(xs[i]);
        if i < n {
          assert !Available(xs[..n][i]);
        }
      }
    }
  }

  /** A different command takes effect in the first usable step that brings it. */
  lemma NewCommandTakesOver(c: Config, s: State, x: Input, t: real)
    requires c.manualLatch && x.mode.Hold? && x.target == Some(t) && !Driving(c, x) && Available(x) && !x.stale
    requires s.ignored.Some? ==> Apart(WrapDeg(t), s.ignored.value)
    ensures Advance(c, s, x).0.target.Some? && !Apart(WrapDeg(t), Advance(c, s, x).0.target.value)
  {
  }

  /** Losing the attitude is the exception: the next usable repeat captures whatever angle the vehicle has by then. */
  lemma LostAttitudeRecaptures(c: Config, s: State, lost: Input, x: Input, t: real, latched: real)
    requires LatchedOver(c, s, t, latched)
    requires lost.mode.Hold? && lost.target == Some(t) && !Available(lost)
    requires Repeats(c, x, t) && !x.stale
    ensures Advance(c, Advance(c, s, lost).0, x).0.target == x.angle
  {
  }
}
