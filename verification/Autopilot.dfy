/** control/autopilot.py: vision-servoed altitude, and the coordination of the three kinds of hold. */
module Autopilot {
  import opened Prelude
  import DepthHold
  import Attitude
  import StationKeep

  type Command = StationKeep.Command

  // ---------------------------------------------------------------- vision-servoed altitude

  datatype AltConfig = AltConfig(fromEs: bool, kp: real, maxOffsetM: real, sign: real, deadband: real, targetEs: real)

  /** The depth captured at engagement; NotFinite if the reading was not a number. */
  datatype Base = NoBase | NotFinite | Base(m: real)

  datatype AltState = AltState(offset: real, base: Base, prevActive: bool)

  datatype AltTarget = Inactive | Invalid | Target(m: real)

  const ALT_RESET := AltState(0.0, NoBase, false)

  predicate Servoing(c: AltConfig, active: bool, depth: DepthHold.Reading)
  {
    c.fromEs && active && !depth.Missing?
  }

  function SizeError(v: Option<StationKeep.Visual>): Option<real>
  {
    if v.Some? && v.value.valid && StationKeep.Es in v.value.errors then Some(v.value.errors[StationKeep.Es]) else None
  }

  /** How far one step moves the offset before it is clamped. */
  function Walk(sign: real, kp: real, err: real, dt: real): real
  {
    sign * kp * err * dt
  }

  function Servoed(c: AltConfig, offset: real, es: Option<real>, dt: real): real
  {
    if es.Some? && Abs(es.value - c.targetEs) > c.deadband then
      Clamp(offset + Walk(c.sign, c.kp, es.value - c.targetEs, dt), -c.maxOffsetM, c.maxOffsetM)
    else offset
  }

  function AltAdvance(c: AltConfig, s: AltState, active: bool, v: Option<StationKeep.Visual>, depth: DepthHold.Reading, dt: real): (AltState, AltTarget)
  {
    if !Servoing(c, active, depth) then (s.(prevActive := false), Inactive)
    else
      var engaging := !s.prevActive || s.base.NoBase?;
      var base := if !engaging then s.base else if depth.Depth? then Base(depth.m) else NotFinite;
      var offset := Servoed(c, if engaging then 0.0 else s.offset, SizeError(v), dt);
      (AltState(offset, base, true), if base.Base? then Target(base.m + offset) else Invalid)
  }

  datatype AltInput = AltInput(active: bool, visual: Option<StationKeep.Visual>, depth: DepthHold.Reading, dt: real)

  function AltRun(c: AltConfig, s: AltState, xs: seq<AltInput>): AltState
  {
    if xs == [] then s
    else
      var x := xs[|xs| - 1];
      AltAdvance(c, AltRun(c, s, xs[..|xs| - 1]), x.active, x.visual, x.depth, x.dt).0
  }

  /** From the engaging step on, for as long as the servo stays engaged, the base does not move and the
      target stays within the configured offset of it. */
  lemma {:induction false} EngagementBounded(c: AltConfig, s: AltState, xs: seq<AltInput>)
    requires xs != [] && !s.prevActive
    requires forall i :: 0 <= i < |xs| ==> Servoing(c, xs[i].active, xs[i].depth)
    ensures var s' := AltRun(c, s, xs);
            && s'.prevActive
            && s'.base == (if xs[0].depth.Depth? then Base(xs[0].depth.m) else NotFinite)
            && Abs(s'.offset) <= Abs(c.maxOffsetM)
  {
    var n := |xs| - 1;
    var x := xs[n];
    if n > 0 {
      EngagementBounded(c, s, xs[..n]);
    } else {
      assert xs[..0] == [];
    }
    var before := AltRun(c, s, xs[..n]);
    ServoedBounded(c, if n > 0 then before.offset else 0.0, SizeError(x.visual), x.dt);
    hide Servoed;
  }

  lemma ServoedBounded(c: AltConfig, offset: real, es: Option<real>, dt: real)
    requires Abs(offset) <= Abs(c.maxOffsetM)
    ensures Abs(Servoed(c, offset, es, dt)) <= Abs(c.maxOffsetM)
  {
    if es.Some? {
      hide Walk;
      ClampSymmetric(offset + Walk(c.sign, c.kp, es.value - c.targetEs, dt), c.maxOffsetM);
    }
  }

  /** The size error drives the target one way only: with sign -1 and a positive gain, a target that looks
      too small from where it should be never makes the set depth shallower. */
  lemma ServoDirection(c: AltConfig, offset: real, es: real, dt: real)
    requires c.sign == -1.0 && c.kp >= 0.0 && dt >= 0.0 && c.maxOffsetM >= 0.0
    requires Abs(offset) <= c.maxOffsetM
    ensures es <= c.targetEs ==> Servoed(c, offset, Some(es), dt) >= offset
    ensures es >= c.targetEs ==> Servoed(c, offset, Some(es), dt) <= offset
  {
    hide Walk;
    WalkSign(c.kp, es - c.targetEs, dt);
  }

  lemma WalkSign(kp: real, err: real, dt: real)
    requires kp >= 0.0 && dt >= 0.0
    ensures err <= 0.0 ==> Walk(-1.0, kp, err, dt) >= 0.0
    ensures err >= 0.0 ==> Walk(-1.0, kp, err, dt) <= 0.0
  {
    StepSign(kp, err, dt);
    WalkBack(kp, err, dt);
  }

  lemma WalkBack(kp: real, err: real, dt: real)
    ensures Walk(-1.0, kp, err, dt) == -(kp * err * dt)
  {
  }

  lemma StepSign(kp: real, err: real, dt: real)
    requires kp >= 0.0 && dt >= 0.0
    ensures err <= 0.0 ==> kp * err * dt <= 0.0
    ensures err >= 0.0 ==> kp * err * dt >= 0.0
  {
    if err >= 0.0 {
      MulOrder(0.0, kp, err);
      MulOrder(0.0, kp * err, dt);
    } else {
      MulOrder(0.0, kp, -err);
      MulOrder(0.0, kp * -err, dt);
      assert kp * err * dt == -(kp * -err * dt);
    }
  }

  // ---------------------------------------------------------------- one step of all holds

  datatype Config = Config(
    depthEnable: bool,
    attitudeEnable: bool,
    attitudeStaleS: real,
    depth: DepthHold.Config,
    roll: Attitude.Config,
    pitch: Attitude.Config,
    yaw: Attitude.Config,
    stationKeep: StationKeep.Config,
    alt: AltConfig)

  /** Mode, angle, commanded target and measured rate of one axis, as resolved from modes and telemetry. */
  datatype AxisInput = AxisInput(mode: Attitude.Mode, angle: Option<real>, target: Option<real>, rate: Option<real>)

  datatype Input = Input(
    cmd: Command,
    depthEnabled: bool,
    depthTarget: Option<real>,
    depth: DepthHold.Reading,
    depthAgeS: Option<real>,
    roll: AxisInput,
    pitch: AxisInput,
    yaw: AxisInput,
    rollPitchReady: bool,
    yawReady: bool,
    attitudeAgeS: Option<real>,
    stationKeepEnabled: bool,
    visual: Option<StationKeep.Visual>,
    dt: real)

  datatype State = State(
    depth: DepthHold.State,
    roll: Attitude.State,
    pitch: Attitude.State,
    yaw: Attitude.State,
    stationKeep: StationKeep.State,
    alt: AltState)

  const RESET := State(DepthHold.RESET, Attitude.RESET, Attitude.RESET, Attitude.RESET, StationKeep.RESET, ALT_RESET)

  predicate AttitudeStale(c: Config, x: Input)
  {
    x.attitudeAgeS.None? || x.attitudeAgeS.value > c.attitudeStaleS
  }

  /** An engaged altitude servo overrides the pilot's depth target, even with no usable value of its own. */
  function DepthTarget(alt: AltTarget, commanded: Option<real>): Option<real>
  {
    match alt
    case Inactive => commanded
    case Invalid => None
    case Target(m) => Some(m)
  }

  function DepthInput(x: Input, alt: AltTarget): DepthHold.Input
  {
    DepthHold.Input(x.depthEnabled, StationKeep.Get(x.cmd, StationKeep.Heave), x.depth, x.depthAgeS, x.dt, DepthTarget(alt, x.depthTarget))
  }

  function AxisStepInput(c: Config, x: Input, a: AxisInput, manual: real, ready: bool): Attitude.Input
  {
    Attitude.Input(a.mode, manual, a.angle, ready, AttitudeStale(c, x), x.dt, a.target, a.rate)
  }

  function RollInput(c: Config, x: Input): Attitude.Input
  {
    AxisStepInput(c, x, x.roll, StationKeep.Get(x.cmd, StationKeep.Roll), x.rollPitchReady)
  }

  function PitchInput(c: Config, x: Input): Attitude.Input
  {
    AxisStepInput(c, x, x.pitch, StationKeep.Get(x.cmd, StationKeep.Pitch), x.rollPitchReady)
  }

  function YawInput(c: Config, x: Input): Attitude.Input
  {
    AxisStepInput(c, x, x.yaw, StationKeep.Get(x.cmd, StationKeep.Yaw), x.yawReady)
  }

  /** The command after depth and attitude, before station keeping. */
  function AfterAttitude(c: Config, s: State, x: Input): Command
  {
    var alt := AltAdvance(c.alt, s.alt, x.stationKeepEnabled && x.depthEnabled, x.visual, x.depth, x.dt).1;
    var c1 := if c.depthEnable then x.cmd[StationKeep.Heave := DepthHold.Heave(c.depth, s.depth, DepthInput(x, alt)).heave] else x.cmd;
    if !c.attitudeEnable then c1
    else
      c1[StationKeep.Roll := Attitude.Advance(c.roll, s.roll, RollInput(c, x)).1.u]
        [StationKeep.Pitch := Attitude.Advance(c.pitch, s.pitch, PitchInput(c, x)).1.u]
        [StationKeep.Yaw := Attitude.Advance(c.yaw, s.yaw, YawInput(c, x)).1.u]
  }

  function KeepInput(c: Config, s: State, x: Input): StationKeep.Input
  {
    StationKeep.Input(x.stationKeepEnabled, AfterAttitude(c, s, x), x.visual, x.dt)
  }

  function Next(c: Config, s: State, x: Input): State
  {
    var (alt', alt) := AltAdvance(c.alt, s.alt, x.stationKeepEnabled && x.depthEnabled, x.visual, x.depth, x.dt);
    State(
      if c.depthEnable then DepthHold.After(c.depth, s.depth, DepthInput(x, alt)) else s.depth,
      if c.attitudeEnable then Attitude.Advance(c.roll, s.roll, RollInput(c, x)).0 else s.roll,
      if c.attitudeEnable then Attitude.Advance(c.pitch, s.pitch, PitchInput(c, x)).0 else s.pitch,
      if c.attitudeEnable then Attitude.Advance(c.yaw, s.yaw, YawInput(c, x)).0 else s.yaw,
      StationKeep.Advance(c.stationKeep, s.stationKeep, KeepInput(c, s, x)).s,
      alt')
  }

  function Output(c: Config, s: State, x: Input): Command
  {
    StationKeep.Advance(c.stationKeep, s.stationKeep, KeepInput(c, s, x)).out
  }

  function Run(c: Config, s: State, xs: seq<Input>): State
  {
    if xs == [] then s else Next(c, Run(c, s, xs[..|xs| - 1]), xs[|xs| - 1])
  }

  // ---------------------------------------------------------------- the autopilot object

  class AutopilotController {
    const c: Config
    const depthHold: DepthHold.DepthHoldController
    const stationKeep: StationKeep.StationKeepController
    const roll: Attitude.AttitudeAxisController
    const pitch: Attitude.AttitudeAxisController
    const yaw: Attitude.AttitudeAxisController
    var altOffset: real
    var altBase: Base
    var altPrevActive: bool

    ghost predicate Valid()
    {
      && roll != pitch && pitch != yaw && roll != yaw
      && depthHold.c == c.depth && stationKeep.c == c.stationKeep
      && roll.c == c.roll && pitch.c == c.pitch && yaw.c == c.yaw
    }

    ghost function Current(): State
      reads this, depthHold, stationKeep, roll, pitch, yaw
    {
      State(depthHold.Current(), roll.Current(), pitch.Current(), yaw.Current(), stationKeep.Current(),
            AltState(altOffset, altBase, altPrevActive))
    }

    constructor (c: Config)
      ensures Valid() && this.c == c && Current() == RESET
      ensures fresh(depthHold) && fresh(stationKeep) && fresh(roll) && fresh(pitch) && fresh(yaw)
    {
      this.c := c;
      depthHold := new DepthHold.DepthHoldController(c.depth);
      stationKeep := new StationKeep.StationKeepController(c.stationKeep);
      roll := new Attitude.AttitudeAxisController(c.roll);
      pitch := new Attitude.AttitudeAxisController(c.pitch);
      yaw := new Attitude.AttitudeAxisController(c.yaw);
      altOffset, altBase, altPrevActive := 0.0, NoBase, false;
    }

    method Reset()
      requires Valid()
      modifies this, depthHold, stationKeep, roll, pitch, yaw
      ensures Current() == RESET
    {
      depthHold.Reset();
      stationKeep.Reset();
      roll.Reset();
      pitch.Reset();
      yaw.Reset();
      altOffset, altBase, altPrevActive := 0.0, NoBase, false;
    }

    method AltStep(active: bool, v: Option<StationKeep.Visual>, depth: DepthHold.Reading, dt: real) returns (t: AltTarget)
      modifies this
      ensures AltState(altOffset, altBase, altPrevActive)
           == AltAdvance(c.alt, old(AltState(altOffset, altBase, altPrevActive)), active, v, depth, dt).0
      ensures t == AltAdvance(c.alt, old(AltState(altOffset, altBase, altPrevActive)), active, v, depth, dt).1
    {
      hide Servoed;
      if !Servoing(c.alt, active, depth) {
        altPrevActive := false;
        return Inactive;
      }
      if !altPrevActive || altBase.NoBase? {
        altBase := if depth.Depth? then Base(depth.m) else NotFinite;
        altOffset := 0.0;
      }
      altOffset := Servoed(c.alt, altOffset, SizeError(v), dt);
      altPrevActive := true;
      t := if altBase.Base? then Target(altBase.m + altOffset) else Invalid;
    }

    method StepAttitude(x: Input, cmd: Command) returns (out: Command)
      requires Valid()
      requires forall d :: d in {StationKeep.Roll, StationKeep.Pitch, StationKeep.Yaw} ==> StationKeep.Get(cmd, d) == StationKeep.Get(x.cmd, d)
      modifies roll, pitch, yaw
      ensures roll.Current() == if c.attitudeEnable then Attitude.Advance(c.roll, old(roll.Current()), RollInput(c, x)).0 else old(roll.Current())
      ensures pitch.Current() == if c.attitudeEnable then Attitude.Advance(c.pitch, old(pitch.Current()), PitchInput(c, x)).0 else old(pitch.Current())
      ensures yaw.Current() == if c.attitudeEnable then Attitude.Advance(c.yaw, old(yaw.Current()), YawInput(c, x)).0 else old(yaw.Current())
      ensures out == if !c.attitudeEnable then cmd else
        cmd[StationKeep.Roll := Attitude.Advance(c.roll, old(roll.Current()), RollInput(c, x)).1.u]
           [StationKeep.Pitch := Attitude.Advance(c.pitch, old(pitch.Current()), PitchInput(c, x)).1.u]
           [StationKeep.Yaw := Attitude.Advance(c.yaw, old(yaw.Current()), YawInput(c, x)).1.u]
    {
      hide Attitude.Advance;
      out := cmd;
      if !c.attitudeEnable {
        return;
      }
      var o := roll.Step(AxisStepInput(c, x, x.roll, StationKeep.Get(out, StationKeep.Roll), x.rollPitchReady));
      out := out[StationKeep.Roll := o.u];
      o := pitch.Step(AxisStepInput(c, x, x.pitch, StationKeep.Get(out, StationKeep.Pitch), x.rollPitchReady));
      out := out[StationKeep.Pitch := o.u];
      o := yaw.Step(AxisStepInput(c, x, x.yaw, StationKeep.Get(out, StationKeep.Yaw), x.yawReady));
      out := out[StationKeep.Yaw := o.u];
    }

    method Step(x: Input) returns (out: Command)
      requires Valid()
      modifies this, depthHold, stationKeep, roll, pitch, yaw
      ensures Current() == Next(c, old(Current()), x)
      ensures out == Output(c, old(Current()), x)
    {
      hide Attitude.Advance, DepthHold.Advance, StationKeep.Advance, AltAdvance;
      ghost var s := Current();
      out := x.cmd;
      var alt := AltStep(x.stationKeepEnabled && x.depthEnabled, x.visual, x.depth, x.dt);
      if c.depthEnable {
        var o := depthHold.Step(DepthInput(x, alt));
        out := out[StationKeep.Heave := o.heave];
      }
      out := StepAttitude(x, out);
      assert out == AfterAttitude(c, s, x);
      out := stationKeep.Step(StationKeep.Input(x.stationKeepEnabled, out, x.visual, x.dt));
    }
  }

  // ---------------------------------------------------------------- when nothing can act

  predicate DepthIdle(c: Config, x: Input)
  {
    !c.depthEnable || !x.depthEnabled || !x.depth.Depth? || (x.depthAgeS.Some? && x.depthAgeS.value > c.depth.sensorStaleS)
  }

  predicate AxisIdle(c: Config, x: Input, a: AxisInput, ready: bool)
  {
    !c.attitudeEnable || a.mode.Off? || a.mode.Unknown? || a.angle.None? || !ready || AttitudeStale(c, x)
  }

  predicate KeepIdle(c: Config, s: State, x: Input)
  {
    || !x.stationKeepEnabled || !c.stationKeep.enable
    || x.visual.None? || !x.visual.value.valid
    || StationKeep.Timed(s.stationKeep, x.visual.value, StepLength(x.dt)).staleTimer > c.stationKeep.staleS
  }

  predicate SixCommands(cmd: Command)
  {
    cmd.Keys == {StationKeep.Surge, StationKeep.Sway, StationKeep.Heave, StationKeep.Yaw, StationKeep.Roll, StationKeep.Pitch}
  }

  /** With depth, each attitude axis and the visual input each disabled, missing or stale, the pilot's six commands
      come back exactly, in any state. */
  lemma IdleReturnsPilot(c: Config, s: State, x: Input)
    requires SixCommands(x.cmd)
    requires DepthIdle(c, x)
    requires AxisIdle(c, x, x.roll, x.rollPitchReady) && AxisIdle(c, x, x.pitch, x.rollPitchReady) && AxisIdle(c, x, x.yaw, x.yawReady)
    requires KeepIdle(c, s, x)
    ensures Output(c, s, x) == x.cmd
  {
    var alt := AltAdvance(c.alt, s.alt, x.stationKeepEnabled && x.depthEnabled, x.visual, x.depth, x.dt).1;
    IdleDepth(c, s, x, alt);
    IdleAxis(c, x, c.roll, s.roll, x.roll, StationKeep.Get(x.cmd, StationKeep.Roll), x.rollPitchReady);
    IdleAxis(c, x, c.pitch, s.pitch, x.pitch, StationKeep.Get(x.cmd, StationKeep.Pitch), x.rollPitchReady);
    IdleAxis(c, x, c.yaw, s.yaw, x.yaw, StationKeep.Get(x.cmd, StationKeep.Yaw), x.yawReady);
    hide Attitude.Advance, DepthHold.Advance, AltAdvance, StationKeep.ApplyAxes, StationKeep.Direct;
    assert AfterAttitude(c, s, x) == x.cmd;
  }

  lemma IdleDepth(c: Config, s: State, x: Input, alt: AltTarget)
    requires DepthIdle(c, x)
    ensures c.depthEnable ==> DepthHold.Heave(c.depth, s.depth, DepthInput(x, alt)).heave == StationKeep.Get(x.cmd, StationKeep.Heave)
  {
  }

  lemma IdleAxis(c: Config, x: Input, ac: Attitude.Config, s: Attitude.State, a: AxisInput, manual: real, ready: bool)
    requires AxisIdle(c, x, a, ready)
    ensures c.attitudeEnable ==> Attitude.Advance(ac, s, AxisStepInput(c, x, a, manual, ready)).1.u == manual
  {
  }

  // ---------------------------------------------------------------- depth set point over whole runs

  /** In any run of the whole autopilot the depth target stays in its configured bounds, whoever set it. */
  lemma {:induction false} RunKeepsDepthSound(c: Config, xs: seq<Input>)
    requires DepthHold.TargetBounds(c.depth)
    ensures DepthHold.Sound(c.depth, Run(c, RESET, xs).depth)
  {
    hide DepthHold.Advance, Attitude.Advance, StationKeep.Advance, AltAdvance, DepthHold.Sound;
    if xs == [] {
      DepthHold.RunKeepsSound(c.depth, []);
    } else {
      var before, x := xs[..|xs| - 1], xs[|xs| - 1];
      RunKeepsDepthSound(c, before);
      var s := Run(c, RESET, before);
      var alt := AltAdvance(c.alt, s.alt, x.stationKeepEnabled && x.depthEnabled, x.visual, x.depth, x.dt).1;
      DepthHold.StepKeepsSound(c.depth, s.depth, DepthInput(x, alt));
    }
  }
}
