/** control/autopilot.py: which input goes to which controller, and which of them reaches which command. */
module AutopilotLaws {
  import opened Prelude
  import opened Autopilot
  import opened Feedback
  import DepthHold
  import Attitude
  import AttitudeLaws
  import DepthLaws
  import StationKeep

  // ---------------------------------------------------------------- each axis on its own

  /** Two settings and inputs that agree in what every axis is told. */
  predicate SameAttitude(c: Config, x: Input, k: Config, y: Input)
  {
    x.attitudeAgeS == y.attitudeAgeS && x.dt == y.dt && c.attitudeEnable == k.attitudeEnable && c.attitudeStaleS == k.attitudeStaleS
  }

  /** The roll axis depends on its own settings, the roll stick, the roll input and the readiness of roll and pitch alone: the
      command it puts out and what it remembers are the same whatever pitch, yaw, depth and vision bring or are set to. */
  lemma RollAlone(c: Config, s: State, x: Input, k: Config, t: State, y: Input)
    requires SameAttitude(c, x, k, y) && c.roll == k.roll && s.roll == t.roll && x.roll == y.roll && x.rollPitchReady == y.rollPitchReady
    requires StationKeep.Get(x.cmd, StationKeep.Roll) == StationKeep.Get(y.cmd, StationKeep.Roll)
    ensures Next(c, s, x).roll == Next(k, t, y).roll
    ensures StationKeep.Get(AfterAttitude(c, s, x), StationKeep.Roll) == StationKeep.Get(AfterAttitude(k, t, y), StationKeep.Roll)
  {
    hide Attitude.Advance, DepthHold.Advance, StationKeep.Advance, AltAdvance;
  }

  lemma PitchAlone(c: Config, s: State, x: Input, k: Config, t: State, y: Input)
    requires SameAttitude(c, x, k, y) && c.pitch == k.pitch && s.pitch == t.pitch && x.pitch == y.pitch && x.rollPitchReady == y.rollPitchReady
    requires StationKeep.Get(x.cmd, StationKeep.Pitch) == StationKeep.Get(y.cmd, StationKeep.Pitch)
    ensures Next(c, s, x).pitch == Next(k, t, y).pitch
    ensures StationKeep.Get(AfterAttitude(c, s, x), StationKeep.Pitch) == StationKeep.Get(AfterAttitude(k, t, y), StationKeep.Pitch)
  {
    hide Attitude.Advance, DepthHold.Advance, StationKeep.Advance, AltAdvance;
  }

  lemma YawAlone(c: Config, s: State, x: Input, k: Config, t: State, y: Input)
    requires SameAttitude(c, x, k, y) && c.yaw == k.yaw && s.yaw == t.yaw && x.yaw == y.yaw && x.yawReady == y.yawReady
    requires StationKeep.Get(x.cmd, StationKeep.Yaw) == StationKeep.Get(y.cmd, StationKeep.Yaw)
    ensures Next(c, s, x).yaw == Next(k, t, y).yaw
    ensures StationKeep.Get(AfterAttitude(c, s, x), StationKeep.Yaw) == StationKeep.Get(AfterAttitude(k, t, y), StationKeep.Yaw)
  {
    hide Attitude.Advance, DepthHold.Advance, StationKeep.Advance, AltAdvance;
  }

  /** Nothing before station keeping touches surge and sway, and without station keeping nothing does. */
  lemma SurgeSwayUntouched(c: Config, s: State, x: Input, d: StationKeep.Dof)
    requires d.Surge? || d.Sway?
    ensures StationKeep.Get(AfterAttitude(c, s, x), d) == StationKeep.Get(x.cmd, d)
    ensures KeepIdle(c, s, x) ==> StationKeep.Get(Output(c, s, x), d) == StationKeep.Get(x.cmd, d)
  {
    hide Attitude.Advance, DepthHold.Advance, AltAdvance, StationKeep.ApplyAxes, StationKeep.Direct;
  }

  /** A hold that is switched off in the settings passes the pilot's commands on and remembers nothing new. */
  lemma SwitchedOff(c: Config, s: State, x: Input)
    ensures !c.attitudeEnable ==> var n := Next(c, s, x); n.roll == s.roll && n.pitch == s.pitch && n.yaw == s.yaw
    ensures !c.attitudeEnable ==> forall d :: d in {StationKeep.Roll, StationKeep.Pitch, StationKeep.Yaw} ==>
              StationKeep.Get(AfterAttitude(c, s, x), d) == StationKeep.Get(x.cmd, d)
    ensures !c.depthEnable ==> Next(c, s, x).depth == s.depth
    ensures !c.depthEnable ==> StationKeep.Get(AfterAttitude(c, s, x), StationKeep.Heave) == StationKeep.Get(x.cmd, StationKeep.Heave)
  {
    hide Attitude.Advance, DepthHold.Advance, StationKeep.Advance, AltAdvance;
  }

  // ---------------------------------------------------------------- levelling through the whole autopilot

  /** Attitude is read, and recently enough. */
  predicate AttitudeFresh(c: Config, x: Input)
  {
    x.attitudeAgeS.Some? && x.attitudeAgeS.value <= c.attitudeStaleS
  }

  /** An axis that is to be levelled, at rest, with its stick at rest, without integral gain. */
  predicate Levels(ac: Attitude.Config, a: AxisInput, stick: real)
  {
    && a.mode.Level? && a.angle.Some? && -180.0 < a.angle.value < 180.0 && a.rate == Some(0.0)
    && Abs(stick) <= ac.manualDeadband && ac.ki == 0.0 && ac.kp >= 0.0 && ac.outLimit >= 0.0
  }

  /** What such an axis puts out answers its own angle. */
  ghost predicate Righted(ac: Attitude.Config, a: AxisInput, u: real)
    requires a.angle.Some?
  {
    if Abs(a.angle.value) < ac.errorDeadbandDeg then u == 0.0 else Answers(u, ac.sign, ac.kp, -a.angle.value, ac.outLimit)
  }

  /** With station keeping idle, an axis that levels turns each command of the whole autopilot against its own angle. */
  lemma LevelsThrough(c: Config, s: State, x: Input)
    requires c.attitudeEnable && AttitudeFresh(c, x) && KeepIdle(c, s, x)
    ensures var out := Output(c, s, x);
            && (x.rollPitchReady && Levels(c.roll, x.roll, StationKeep.Get(x.cmd, StationKeep.Roll)) ==>
                  Righted(c.roll, x.roll, StationKeep.Get(out, StationKeep.Roll)))
            && (x.rollPitchReady && Levels(c.pitch, x.pitch, StationKeep.Get(x.cmd, StationKeep.Pitch)) ==>
                  Righted(c.pitch, x.pitch, StationKeep.Get(out, StationKeep.Pitch)))
            && (x.yawReady && Levels(c.yaw, x.yaw, StationKeep.Get(x.cmd, StationKeep.Yaw)) ==>
                  Righted(c.yaw, x.yaw, StationKeep.Get(out, StationKeep.Yaw)))
  {
    hide Attitude.Advance, DepthHold.Advance, AltAdvance, StationKeep.ApplyAxes, StationKeep.Direct, Levels, Righted;
    AxisLevels(c, c.roll, s.roll, x, x.roll, StationKeep.Get(x.cmd, StationKeep.Roll), x.rollPitchReady);
    AxisLevels(c, c.pitch, s.pitch, x, x.pitch, StationKeep.Get(x.cmd, StationKeep.Pitch), x.rollPitchReady);
    AxisLevels(c, c.yaw, s.yaw, x, x.yaw, StationKeep.Get(x.cmd, StationKeep.Yaw), x.yawReady);
    assert Output(c, s, x) == AfterAttitude(c, s, x);
  }

  lemma AxisLevels(c: Config, ac: Attitude.Config, s: Attitude.State, x: Input, a: AxisInput, stick: real, ready: bool)
    requires AttitudeFresh(c, x)
    ensures ready && Levels(ac, a, stick) ==> Righted(ac, a, Attitude.Advance(ac, s, AxisStepInput(c, x, a, stick, ready)).1.u)
  {
    if ready && Levels(ac, a, stick) {
      var z := AxisStepInput(c, x, a, stick, ready);
      AttitudeLaws.RegulatesTo(ac, s, z);
      assert Attitude.Turned(0.0 - a.angle.value, -a.angle.value, 0);
      hide Attitude.Advance, Answers;
      AttitudeLaws.OutputAnswersTurn(ac, s, z, -a.angle.value, 0.0);
    }
  }

  // ---------------------------------------------------------------- depth through the whole autopilot

  /** With station keeping idle, the heave of the whole autopilot is that of the depth controller on the pilot's heave. */
  lemma HeaveThrough(c: Config, s: State, x: Input)
    requires c.depthEnable && x.depthEnabled && KeepIdle(c, s, x) && !c.alt.fromEs
    requires x.depth.Depth? && (x.depthAgeS.Some? ==> x.depthAgeS.value <= c.depth.sensorStaleS)
    requires Abs(StationKeep.Get(x.cmd, StationKeep.Heave)) <= c.depth.walkDeadband && s.depth.zF.Some? && s.depth.zPrev == s.depth.zF
    requires c.depth.kp >= 0.0 && c.depth.ki == 0.0 && c.depth.kd == 0.0 && c.depth.outLimit >= 0.0
    ensures var d, u := Next(c, s, x).depth, StationKeep.Get(Output(c, s, x), StationKeep.Heave);
            && d.zF.Some? && d.target.Some?
            && (Abs(DepthLaws.Below(d)) < c.depth.errorDeadbandM ==> u == 0.0)
            && (Abs(DepthLaws.Below(d)) >= c.depth.errorDeadbandM ==> Answers(u, c.depth.sign, c.depth.kp, DepthLaws.Below(d), c.depth.outLimit))
            && (x.depthTarget.Some? && s.depth.ignored.None? ==> !DepthHold.Differs(d.target.value, DepthHold.ClampTarget(c.depth, x.depthTarget.value)))
  {
    var z := DepthInput(x, Inactive);
    assert DepthLaws.Holding(c.depth, s.depth, z);
    DepthLaws.HoldingStep(c.depth, s.depth, z);
    hide Attitude.Advance, Answers, StationKeep.ApplyAxes, StationKeep.Direct;
    DepthLaws.HeaveAnswersDepth(c.depth, s.depth, z);
    if x.depthTarget.Some? && s.depth.ignored.None? {
      CommandRules(c.depth, s.depth, z, x.depthTarget.value);
    }
    hide DepthHold.Advance;
  }

  lemma CommandRules(c: DepthHold.Config, s: DepthHold.State, z: DepthHold.Input, t: real)
    requires z.enabled && DepthHold.Usable(c, z) && !DepthHold.Overrides(c, z) && z.target == Some(t) && s.ignored.None?
    ensures DepthHold.After(c, s, z).target.Some? && !DepthHold.Differs(DepthHold.After(c, s, z).target.value, DepthHold.ClampTarget(c, t))
  {
    hide DepthHold.NextIntegral, DepthHold.Filtered, DepthHold.Drive;
  }

  /** While the altitude servo is engaged the depth controller is given the captured depth plus the offset; without a depth
      captured, no target at all; with the servo out, the pilot's. */
  lemma ServoGivesTarget(c: Config, s: State, x: Input)
    ensures var (alt', alt) := AltAdvance(c.alt, s.alt, x.stationKeepEnabled && x.depthEnabled, x.visual, x.depth, x.dt);
            && DepthInput(x, alt).target == (if !c.alt.fromEs || !x.stationKeepEnabled || !x.depthEnabled || x.depth.Missing? then x.depthTarget
                                             else if alt'.base.Base? then Some(alt'.base.m + alt'.offset) else None)
            && Next(c, s, x).alt == alt'
            && (c.depthEnable ==> Next(c, s, x).depth == DepthHold.After(c.depth, s.depth, DepthInput(x, alt)))
  {
    hide DepthHold.Advance, Attitude.Advance, StationKeep.Advance, Servoed;
  }

  /** The servo walks the offset, from 0 as it engages, by sign * kp * the size error * dt within its limit. With no lock, no
      size in it, or one within the deadband of the one wanted, the offset stays. */
  lemma ServoWalks(c: AltConfig, s: AltState, active: bool, v: Option<StationKeep.Visual>, depth: DepthHold.Reading, dt: real)
    requires Servoing(c, active, depth) && c.maxOffsetM >= 0.0 && Abs(s.offset) <= c.maxOffsetM
    ensures var was, offset := if s.prevActive && !s.base.NoBase? then s.offset else 0.0, AltAdvance(c, s, active, v, depth, dt).0.offset;
            var seen := v.Some? && v.value.valid && StationKeep.Es in v.value.errors;
            if !seen || Abs(v.value.errors[StationKeep.Es] - c.targetEs) <= c.deadband then offset == was
            else
              var walk := Product(Product(Product(c.sign, c.kp), v.value.errors[StationKeep.Es] - c.targetEs), dt);
              offset == Max(-c.maxOffsetM, Min(c.maxOffsetM, was + walk))
  {
    assert forall sign, kp, err :: Walk(sign, kp, err, dt) == Product(Product(Product(sign, kp), err), dt);
    hide Walk, Product;
  }
}
