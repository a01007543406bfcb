/** control/depth_hold.py: the sticky depth-hold controller. */
module DepthHold {
  import opened Prelude
  import Windup

  datatype Config = Config(
    sensorStaleS: real,
    lpfTauS: real,
    kp: real,
    ki: real,
    kd: real,
    errorDeadbandM: real,
    iLimit: real,
    outLimit: real,
    sign: real,
    walkTarget: bool,
    walkDeadband: real,
    walkRateMps: real,
    targetMinM: Option<real>,
    targetMaxM: Option<real>)

  /** A depth reading: absent, not finite, or a number. */
  datatype Reading = Missing | Bad | Depth(m: real)

  datatype State = State(
    zF: Option<real>,
    zPrev: Option<real>,
    target: Option<real>,
    ignored: Option<real>,
    iState: real,
    lastEnabled: bool)

  /** `target` is None when absent or not finite. */
  datatype Input = Input(enabled: bool, heave: real, depth: Reading, ageS: Option<real>, dt: real, target: Option<real>)

  datatype Output = Output(heave: real, active: bool)

  const RESET := State(None, None, None, None, 0.0, false)

  // 1e-9, below which the source takes two targets for the same
  const SAME := 0.000000001

  function ClampTarget(c: Config, t: real): real
  {
    var low := if c.targetMinM.Some? then Max(c.targetMinM.value, t) else t;
    if c.targetMaxM.Some? then Min(c.targetMaxM.value, low) else low
  }

  predicate Differs(x: real, y: real)
  {
    Abs(x - y) > SAME
  }

  /** The commanded target once the one a manual override latched over has been ignored. */
  function EffectiveCommand(c: Config, s: State, target: Option<real>): Option<real>
  {
    if target.None? then None
    else
      var t := ClampTarget(c, target.value);
      if s.ignored.Some? && !Differs(t, s.ignored.value) then None else Some(t)
  }

  /** Target handling at the head of an enabled step. */
  function TakeCommand(c: Config, s: State, target: Option<real>): State
  {
    var cmd := EffectiveCommand(c, s, target);
    var s1 := if target.Some? && cmd.None? then s else s.(ignored := None);
    if cmd.None? then s1
    else
      var t := ClampTarget(c, cmd.value);
      if s1.target.None? || Differs(s1.target.value, t) then s1.(target := Some(t), iState := 0.0) else s1
  }

  predicate Stale(c: Config, x: Input)
  {
    x.ageS.Some? && x.ageS.value > c.sensorStaleS
  }

  predicate Usable(c: Config, x: Input)
  {
    x.depth.Depth? && !Stale(c, x)
  }

  predicate Overrides(c: Config, x: Input)
  {
    Abs(x.heave) > c.walkDeadband
  }

  function Alpha(c: Config, dt: real): (a: real)
    requires dt > 0.0
    ensures 0.0 < a <= 1.0
  {
    Quotient(dt, Max(0.0, c.lpfTauS));
    dt / (Max(0.0, c.lpfTauS) + dt)
  }

  lemma Quotient(dt: real, tau: real)
    requires dt > 0.0 && tau >= 0.0
    ensures 0.0 < dt / (tau + dt) <= 1.0
  {
    var d := tau + dt;
    Inverse(d);
    MulMono(1.0 / d, dt, d);
  }

  function Blend(a: real, from: real, to: real): real
  {
    from + Product(to - from, a)
  }

  function Filtered(c: Config, s: State, z: real, dt: real): real
    requires dt > 0.0
  {
    if s.zF.None? then z else Blend(Alpha(c, dt), s.zF.value, z)
  }

  /** Vertical speed seen by the derivative term; zero on the first sample. */
  function Rate(s: State, zF: real, dt: real): real
    requires dt > 0.0
  {
    if s.zF.None? then 0.0 else (zF - (if s.zPrev.Some? then s.zPrev.value else zF)) / dt
  }

  /** Filter update, then capture of the current depth on the rising edge unless a target was commanded. */
  function Engage(c: Config, s: State, commanded: bool, z: real, dt: real): (s': State)
    requires dt > 0.0
    ensures s'.zF.Some? && s'.target.Some? && s'.lastEnabled
  {
    var zF := Filtered(c, s, z, dt);
    var filtered := s.(zF := Some(zF), zPrev := Some(zF));
    var edge := if !s.lastEnabled then
                  filtered.(target := if commanded then filtered.target else Some(zF), iState := 0.0)
                else filtered;
    edge.(lastEnabled := true, target := if edge.target.None? then Some(zF) else edge.target)
  }

  /** Pilot drives heave: the target follows the depth and the commanded target is put aside. */
  function Latch(c: Config, s: State, target: Option<real>): State
    requires s.zF.Some?
  {
    s.(target := Some(ClampTarget(c, s.zF.value)),
       ignored := if target.Some? then Some(ClampTarget(c, target.value)) else s.ignored,
       iState := 0.0)
  }

  function Error(c: Config, zF: real, target: real): real
  {
    var e := zF - target;
    if Abs(e) < c.errorDeadbandM then 0.0 else e
  }

  function Drive(c: Config, e: real, i: real, dz: real): real
  {
    c.sign * (c.kp * e + c.ki * i + c.kd * dz)
  }

  function NextIntegral(c: Config, i: real, e: real, dz: real, dt: real, walking: bool): real
  {
    var u := Drive(c, e, i, dz);
    if walking then i * 0.98
    else if u == Clamp(u, -c.outLimit, c.outLimit) && c.ki != 0.0 then
      Windup.Next(c.iLimit, c.ki, i, e, dt)
    else i
  }

  function Hold(c: Config, s: State, dz: real, dt: real, walking: bool): (State, Output)
    requires s.zF.Some? && s.target.Some?
  {
    var t := ClampTarget(c, s.target.value);
    var e := Error(c, s.zF.value, t);
    var i := NextIntegral(c, s.iState, e, dz, dt, walking);
    (s.(target := Some(t), iState := i), Output(Clamp(Drive(c, e, i, dz), -c.outLimit, c.outLimit), true))
  }

  /** Heave up means the target gets shallower. */
  function Walked(c: Config, target: real, heave: real, dt: real): real
  {
    target + -heave * c.walkRateMps * dt
  }

  function Advance(c: Config, s: State, x: Input): (State, Output)
  {
    if !x.enabled then (RESET, Output(x.heave, false)) else
    var dt := StepLength(x.dt);
    var s1 := TakeCommand(c, s, x.target);
    if x.depth.Missing? || Stale(c, x) then (s1, Output(x.heave, false))
    else if x.depth.Bad? then (RESET, Output(x.heave, false))
    else
      var s2 := Engage(c, s1, EffectiveCommand(c, s, x.target).Some?, x.depth.m, dt);
      var dz := Rate(s1, s2.zF.value, dt);
      if !Overrides(c, x) then Hold(c, s2, dz, dt, false)
      else if c.walkTarget && x.target.None? then
        Hold(c, s2.(target := Some(Walked(c, s2.target.value, x.heave, dt))), dz, dt, true)
      else (Latch(c, s2, x.target), Output(x.heave, false))
  }

  function After(c: Config, s: State, x: Input): State
  {
    Advance(c, s, x).0
  }

  function Heave(c: Config, s: State, x: Input): Output
  {
    Advance(c, s, x).1
  }

  function Run(c: Config, s: State, xs: seq<Input>): State
  {
    if xs == [] then s else After(c, Run(c, s, xs[..|xs| - 1]), xs[|xs| - 1])
  }

  // ---------------------------------------------------------------- the controller object

  class DepthHoldController {
    const c: Config
    var zF: Option<real>
    var zPrev: Option<real>
    var target: Option<real>
    var ignored: Option<real>
    var iState: real
    var lastEnabled: bool

    ghost function Current(): State
      reads this
    {
      State(zF, zPrev, target, ignored, iState, lastEnabled)
    }

    constructor (c: Config)
      ensures this.c == c && Current() == RESET
    {
      this.c := c;
      zF, zPrev, target, ignored, iState, lastEnabled := None, None, None, None, 0.0, false;
    }

    method Reset()
      modifies this
      ensures Current() == RESET
    {
      zF, zPrev, target, ignored, iState, lastEnabled := None, None, None, None, 0.0, false;
    }

    method ApplyTargetCommand(cmd: Option<real>) returns (applied: bool)
      modifies this`target, this`iState
      ensures applied == cmd.Some?
      ensures Current() == if cmd.Some? && (old(target).None? || Differs(old(target).value, ClampTarget(c, cmd.value)))
                           then old(Current()).(target := Some(ClampTarget(c, cmd.value)), iState := 0.0)
                           else old(Current())
    {
      if cmd.None? {
        return false;
      }
      var t := ClampTarget(c, cmd.value);
      if target.None? || Differs(target.value, t) {
        target := Some(t);
        iState := 0.0;
      }
      return true;
    }

    method ReadCommand(raw: Option<real>) returns (commanded: bool)
      modifies this`target, this`iState, this`ignored
      ensures commanded == EffectiveCommand(c, old(Current()), raw).Some?
      ensures Current() == TakeCommand(c, old(Current()), raw)
    {
      var cmd: Option<real> := None;
      if raw.None? {
        ignored := None;
      } else {
        var t := ClampTarget(c, raw.value);
        if ignored.Some? && !Differs(t, ignored.value) {
          cmd := None;
        } else {
          ignored := None;
          cmd := Some(t);
        }
      }
      commanded := ApplyTargetCommand(cmd);
    }

    method FilterAndEngage(commanded: bool, z: real, dt: real) returns (dz: real)
      requires dt > 0.0
      modifies this`zF, this`zPrev, this`target, this`iState, this`lastEnabled
      ensures Current() == Engage(c, old(Current()), commanded, z, dt)
      ensures dz == Rate(old(Current()), zF.value, dt)
    {
      hide Alpha, Blend;
      if zF.None? {
        zF, zPrev := Some(z), Some(z);
      } else {
        zF := Some(Blend(Alpha(c, dt), zF.value, z));
      }
      var prev := if zPrev.Some? then zPrev.value else zF.value;
      dz := (zF.value - prev) / dt;
      zPrev := zF;
      if !lastEnabled {
        if !commanded {
          target := zF;
        }
        iState := 0.0;
      }
      lastEnabled := true;
      if target.None? {
        target := zF;
      }
    }

    method HoldTarget(dz: real, dt: real, walking: bool) returns (out: Output)
      requires zF.Some? && target.Some?
      modifies this`target, this`iState
      ensures Current() == Hold(c, old(Current()), dz, dt, walking).0
      ensures out == Hold(c, old(Current()), dz, dt, walking).1
    {
      hide ClampTarget, Drive, Error, Windup.Next;
      target := Some(ClampTarget(c, target.value));
      var e := Error(c, zF.value, target.value);
      var u := Drive(c, e, iState, dz);
      var saturated := u != Clamp(u, -c.outLimit, c.outLimit);
      if !walking && !saturated && c.ki != 0.0 {
        iState := Windup.Next(c.iLimit, c.ki, iState, e, dt);
      } else if walking {
        iState := iState * 0.98;
      }
      out := Output(Clamp(Drive(c, e, iState, dz), -c.outLimit, c.outLimit), true);
    }

    method Step(x: Input) returns (out: Output)
      modifies this
      ensures Current() == After(c, old(Current()), x) && out == Heave(c, old(Current()), x)
    {
      hide TakeCommand, EffectiveCommand, Engage, Hold, Rate, Walked, ClampTarget;
      ghost var s := Current();
      if !x.enabled {
        Reset();
        return Output(x.heave, false);
      }
      var dt := StepLength(x.dt);
      var commanded := ReadCommand(x.target);
      if x.depth.Missing? || Stale(c, x) {
        return Output(x.heave, false);
      }
      if x.depth.Bad? {
        Reset();
        return Output(x.heave, false);
      }
      ghost var s1 := Current();
      var dz := FilterAndEngage(commanded, x.depth.m, dt);
      ghost var s2 := Current();
      assert s2 == Engage(c, s1, EffectiveCommand(c, s, x.target).Some?, x.depth.m, dt);
      assert dz == Rate(s1, s2.zF.value, dt);
      var walking := false;
      if Overrides(c, x) {
        if c.walkTarget && x.target.None? {
          target := Some(Walked(c, target.value, x.heave, dt));
          walking := true;
        } else {
          target := Some(ClampTarget(c, zF.value));
          if x.target.Some? {
            ignored := Some(ClampTarget(c, x.target.value));
          }
          iState := 0.0;
          assert Current() == Latch(c, s2, x.target);
          return Output(x.heave, false);
        }
      }
      out := HoldTarget(dz, dt, walking);
    }
  }

  // ---------------------------------------------------------------- invariants of every run

  predicate TargetBounds(c: Config)
  {
    c.targetMinM.Some? && c.targetMaxM.Some? ==> c.targetMinM.value <= c.targetMaxM.value
  }

  predicate InBounds(c: Config, t: real)
  {
    (c.targetMinM.Some? ==> c.targetMinM.value <= t) && (c.targetMaxM.Some? ==> t <= c.targetMaxM.value)
  }

  lemma ClampTargetInBounds(c: Config, t: real)
    requires TargetBounds(c)
    ensures InBounds(c, ClampTarget(c, t))
    ensures InBounds(c, t) ==> ClampTarget(c, t) == t
  {
  }

  ghost predicate Sound(c: Config, s: State)
  {
    && (s.target.Some? ==> InBounds(c, s.target.value))
    && Windup.Bounded(c.iLimit, c.ki, s.iState)
    && (s.zF.Some? <==> s.zPrev.Some?)
  }

  lemma NextIntegralBounded(c: Config, i: real, e: real, dz: real, dt: real, walking: bool)
    requires Windup.Bounded(c.iLimit, c.ki, i)
    ensures Windup.Bounded(c.iLimit, c.ki, NextIntegral(c, i, e, dz, dt, walking))
  {
    hide Drive;
    hide Windup.Next, Windup.Bounded;
    if c.ki != 0.0 {
      Windup.NextBounded(c.iLimit, c.ki, i, e, dt);
    }
    Windup.DecayBounded(c.iLimit, c.ki, i);
  }

  /** One step keeps the target in its bounds and the integral contribution within its limit, from any sound state. */
  lemma StepKeepsSound(c: Config, s: State, x: Input)
    requires TargetBounds(c) && Sound(c, s)
    ensures Sound(c, After(c, s, x))
  {
    hide ClampTarget, NextIntegral, Windup.Bounded, Filtered, Rate;
    Windup.ZeroBounded(c.iLimit, c.ki);
    forall t ensures InBounds(c, ClampTarget(c, t)) {
      ClampTargetInBounds(c, t);
    }
    forall i, e, dz, dt, walking | Windup.Bounded(c.iLimit, c.ki, i) ensures Windup.Bounded(c.iLimit, c.ki, NextIntegral(c, i, e, dz, dt, walking)) {
      NextIntegralBounded(c, i, e, dz, dt, walking);
    }
  }

  lemma {:induction false} RunKeepsSound(c: Config, xs: seq<Input>)
    requires TargetBounds(c)
    ensures Sound(c, Run(c, RESET, xs))
  {
    if xs != [] {
      RunKeepsSound(c, xs[..|xs| - 1]);
      StepKeepsSound(c, Run(c, RESET, xs[..|xs| - 1]), xs[|xs| - 1]);
    }
  }

  /** Active output is inside the limit; inactive output is the pilot's own command. */
  lemma OutputBounded(c: Config, s: State, x: Input)
    ensures var o := Heave(c, s, x);
            if o.active then Abs(o.heave) <= Abs(c.outLimit) else o.heave == x.heave
  {
  }

  /** A dropout with no new command leaves target, integral and filter alone. */
  lemma DropoutKeepsTarget(c: Config, s: State, x: Input)
    requires x.enabled && (x.depth.Missing? || Stale(c, x))
    requires EffectiveCommand(c, s, x.target).Some? ==> s.target.Some? && !Differs(s.target.value, ClampTarget(c, ClampTarget(c, x.target.value)))
    ensures After(c, s, x) == s.(ignored := After(c, s, x).ignored)
    ensures Heave(c, s, x) == Output(x.heave, false)
  {
  }

  // ---------------------------------------------------------------- the filter

  /** Lowest and highest sample the filter has taken in since it was last empty. */
  datatype Hull = NoSamples | Hull(lo: real, hi: real)

  function HullAfter(c: Config, h: Hull, s: State, x: Input): Hull
  {
    if After(c, s, x).zF.None? then NoSamples
    else if !Usable(c, x) then h
    else if h.NoSamples? then Hull(x.depth.m, x.depth.m)
    else Hull(Min(h.lo, x.depth.m), Max(h.hi, x.depth.m))
  }

  function HullOf(c: Config, xs: seq<Input>): Hull
  {
    if xs == [] then NoSamples
    else HullAfter(c, HullOf(c, xs[..|xs| - 1]), Run(c, RESET, xs[..|xs| - 1]), xs[|xs| - 1])
  }

  lemma ProductFalls(k: real, a: real, b: real)
    requires k <= 0.0 && a <= b
    ensures Product(k, a) >= Product(k, b)
  {
    MulMono(-k, a, b);
    assert -k * a == -Product(k, a) && -k * b == -Product(k, b);
  }

  lemma BlendBetween(a: real, from: real, to: real)
    requires 0.0 <= a <= 1.0
    ensures from <= to ==> from <= Blend(a, from, to) <= to
    ensures to <= from ==> to <= Blend(a, from, to) <= from
  {
    ProductOne(to - from);
    assert Product(to - from, 0.0) == 0.0;
    if from <= to {
      ProductMono(to - from, 0.0, a);
      ProductMono(to - from, a, 1.0);
    } else {
      ProductFalls(to - from, 0.0, a);
      ProductFalls(to - from, a, 1.0);
    }
  }

  /** What a step does to the filter. */
  lemma FilterStep(c: Config, s: State, x: Input)
    ensures After(c, s, x).zF ==
      if !x.enabled || (x.depth.Bad? && !Stale(c, x)) then None
      else if !Usable(c, x) then s.zF
      else Some(Filtered(c, s, x.depth.m, StepLength(x.dt)))
  {
    hide ClampTarget, NextIntegral, Filtered, Rate;
    var s1 := TakeCommand(c, s, x.target);
    assert s1.zF == s.zF && s1.zPrev == s.zPrev;
    assert Filtered(c, s1, if x.depth.Depth? then x.depth.m else 0.0, StepLength(x.dt)) == Filtered(c, s, if x.depth.Depth? then x.depth.m else 0.0, StepLength(x.dt)) by {
      SameFilter(c, s1, s, if x.depth.Depth? then x.depth.m else 0.0, StepLength(x.dt));
    }
  }

  lemma SameFilter(c: Config, s1: State, s: State, z: real, dt: real)
    requires s1.zF == s.zF && dt > 0.0
    ensures Filtered(c, s1, z, dt) == Filtered(c, s, z, dt)
  {
  }

  /** Over any run the filtered depth lies between the lowest and the highest sample since the last reset. */
  lemma {:induction false} FilteredInHull(c: Config, xs: seq<Input>)
    ensures var s, h := Run(c, RESET, xs), HullOf(c, xs);
            (s.zF.Some? <==> h.Hull?) && (s.zF.Some? ==> h.lo <= s.zF.value <= h.hi)
  {
    if xs != [] {
      hide Advance, Alpha, Blend;
      var before, x := xs[..|xs| - 1], xs[|xs| - 1];
      FilteredInHull(c, before);
      var s := Run(c, RESET, before);
      FilterStep(c, s, x);
      if Usable(c, x) && s.zF.Some? {
        BlendBetween(Alpha(c, StepLength(x.dt)), s.zF.value, x.depth.m);
      }
    }
  }

  // ---------------------------------------------------------------- manual override

  /** The state after the pilot has driven heave away from commanded depth `t`. */
  predicate LatchedOver(c: Config, s: State, t: real, latched: real)
  {
    && s.lastEnabled
    && s.target == Some(latched)
    && InBounds(c, latched)
    && s.ignored.Some? && !Differs(ClampTarget(c, t), s.ignored.value)
  }

  /** A usable step with the stick beyond the deadband and a depth commanded latches the filtered depth. */
  lemma OverrideLatches(c: Config, s: State, x: Input)
    requires TargetBounds(c)
    requires x.enabled && Usable(c, x) && Overrides(c, x) && x.target.Some?
    ensures var s' := After(c, s, x);
            && s'.zF.Some?
            && LatchedOver(c, s', x.target.value, ClampTarget(c, s'.zF.value))
            && Heave(c, s, x) == Output(x.heave, false)
  {
  }

  /** Enabled, commanding t again, stick in the deadband, any reading but a non-finite one that counts. */
  predicate Repeats(c: Config, x: Input, t: real)
  {
    Commands(c, x, t) && (x.depth.Bad? ==> Stale(c, x))
  }

  lemma RepeatKeepsLatch(c: Config, s: State, x: Input, t: real, latched: real)
    requires TargetBounds(c) && LatchedOver(c, s, t, latched) && Repeats(c, x, t)
    ensures LatchedOver(c, After(c, s, x), t, latched)
  {
  }

  /** However often the old command is repeated, with whatever finite, missing or stale samples, the latched depth stays. */
  lemma {:induction false} LatchSurvivesRepeats(c: Config, s: State, xs: seq<Input>, t: real, latched: real)
    requires TargetBounds(c) && LatchedOver(c, s, t, latched)
    requires forall i :: 0 <= i < |xs| ==> Repeats(c, xs[i], t)
    ensures LatchedOver(c, Run(c, s, xs), t, latched)
    ensures Run(c, s, xs).target == Some(latched)
  {
    if xs != [] {
      var n := |xs| - 1;
      LatchSurvivesRepeats(c, s, xs[..n], t, latched);
      RepeatKeepsLatch(c, Run(c, s, xs[..n]), xs[n], t, latched);
    }
  }

  /** Enabled, commanding t again, stick in the deadband, any reading at all. */
  predicate Commands(c: Config, x: Input, t: real)
  {
    x.enabled && x.target == Some(t) && !Overrides(c, x)
  }

  /** Over any such run the latch survives if and only if no step brings a non-finite sample that is not stale. */
  lemma {:induction false} LatchSurvivesExactly(c: Config, s: State, xs: seq<Input>, t: real, latched: real)
    requires TargetBounds(c) && LatchedOver(c, s, t, latched)
    requires forall i :: 0 <= i < |xs| ==> Commands(c, xs[i], t)
    ensures LatchedOver(c, Run(c, s, xs), t, latched) <==> forall i :: 0 <= i < |xs| ==> xs[i].depth.Bad? ==> Stale(c, xs[i])
    ensures Run(c, s, xs).ignored.Some? ==> LatchedOver(c, Run(c, s, xs), t, latched)
  {
    if xs != [] {
      var n := |xs| - 1;
      var before, x := Run(c, s, xs[..n]), xs[n];
      LatchSurvivesExactly(c, s, xs[..n], t, latched);
      if Repeats(c, x, t) && LatchedOver(c, before, t, latched) {
        RepeatKeepsLatch(c, before, x, t, latched);
      }
      NeverRelatches(c, before, x, t);
      hide After, TargetBounds, InBounds;
      assert (forall i :: 0 <= i < |xs| ==> xs[i].depth.Bad? ==> Stale(c, xs[i]))
        <==> (forall i :: 0 <= i < n ==> xs[..n][i].depth.Bad? ==> Stale(c, xs[..n][i])) && (x.depth.Bad? ==> Stale(c, x));
    }
  }

  /** Without the stick nothing is put aside again. */
  lemma NeverRelatches(c: Config, s: State, x: Input, t: real)
    requires Commands(c, x, t)
    ensures s.ignored.None? || (x.depth.Bad? && !Stale(c, x)) ==> After(c, s, x).ignored.None?
  {
    hide ClampTarget, NextIntegral, Filtered, Rate;
  }

  /** A different command takes effect in the very step that brings it, sample or no sample. */
  lemma NewCommandTakesOver(c: Config, s: State, x: Input, t: real)
    requires TargetBounds(c)
    requires x.enabled && x.target == Some(t) && !Overrides(c, x) && (x.depth.Bad? ==> Stale(c, x))
    requires s.ignored.Some? && Differs(ClampTarget(c, t), s.ignored.value)
    requires s.target.Some? ==> InBounds(c, s.target.value)
    ensures After(c, s, x).target.Some? && !Differs(After(c, s, x).target.value, ClampTarget(c, t))
  {
  }

  /** A non-finite sample is the exception: it resets the controller, and the old command applies again at the next step. */
  lemma BadSampleForgetsLatch(c: Config, s: State, bad: Input, x: Input, t: real)
    requires TargetBounds(c)
    requires bad.enabled && bad.depth.Bad? && !Stale(c, bad)
    requires Repeats(c, x, t)
    ensures After(c, s, bad) == RESET
    ensures After(c, After(c, s, bad), x).target == Some(ClampTarget(c, t))
  {
  }
}
