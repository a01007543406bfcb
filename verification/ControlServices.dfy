/** control/control_service.py: the control loop, its arming state, and the PWM writer it drives. */
module ControlServices {
  import opened Prelude
  import opened Pwm
  import opened ThrustWriters
  import PwmRuns
  import opened Arming
  import Limits = ThrustLimit
  import Windup
  import opened GripperMix

  /** The part of a pilot frame that shapes the output of a live tick. */
  datatype Demand = Demand(
    maxGain: Option<real>,
    budgetActive: bool,
    budgetMaxA: Option<real>,
    verticalHold: bool,
    horizontalHold: bool,
    leftTrigger: real,
    rightTrigger: real,
    wristGain: Option<real>,
    gripperPitch: Option<real>,
    gripperYaw: Option<real>)

  datatype Settings = Settings(
    rules: Rules,
    dryRun: bool,
    armHwInitHoldS: real,
    armRampS: real,
    thrusterMaxAbs: real,
    budget: Limits.Budget,
    deadbands: Limits.Deadbands,
    lightsAllowWhenDisarmed: bool,
    wristEnabled: bool,
    wristKey: string,
    wristDeadzone: real,
    wristSpeed: real,
    gripperEnabled: bool,
    gripperLeftKey: string,
    gripperRightKey: string,
    gripperHoldLast: bool,
    gripperPitchInvert: real,
    gripperYawInvert: real,
    pitchMin: real,
    pitchMax: real,
    yawMin: real,
    yawMax: real,
    geometry: Geometry,
    parkPitch: real,
    parkYaw: real,
    parkOnArmDisarm: bool,
    parkSettleS: real,
    parkSlewNormPerS: real,
    periodS: real)

  // ---------------------------------------------------------------- payloads

  /** A dictionary of thruster commands as the writer receives it; a repeated name keeps its last value. */
  function Named(thr: Limits.Thrust): (cmd: Command)
    ensures forall k :: k in cmd ==> exists t :: t in thr && k == Name(t.name) && cmd[k] == t.v
  {
    if thr == [] then map[]
    else
      var last := thr[|thr| - 1];
      Named(thr[..|thr| - 1])[Name(last.name) := last.v]
  }

  function TriggerMagnitude(v: real, deadzone: real): (m: real)
    ensures 0.0 <= m <= 1.0
  {
    var x := Max(0.0, Min(1.0, v));
    if x <= deadzone then 0.0
    else Max(0.0, Min(1.0, (x - deadzone) / Max(0.000001, 1.0 - deadzone)))
  }

  /** Trigger difference, scaled twice. */
  function Turn(net: real, speed: real, gain: real): real
  {
    net * speed * gain
  }

  function WristCommand(k: Settings, d: Demand): (w: real)
    ensures -1.0 <= w <= 1.0
  {
    var net := TriggerMagnitude(d.rightTrigger, k.wristDeadzone) - TriggerMagnitude(d.leftTrigger, k.wristDeadzone);
    var gain := if d.wristGain.None? then 1.0 else Clamp(d.wristGain.value, 0.0, 1.0);
    Max(-1.0, Min(1.0, Turn(net, k.wristSpeed, gain)))
  }

  predicate PwmOffConfigured(c: Config)
  {
    DisablesOnDisarm(c.thrust) && !AuxHoldsPwm(c)
  }

  /** The payload of one live tick: shaped thrust, then lights, wrist and gripper over it. */
  function LivePayload(k: Settings, thr: Limits.Thrust, d: Demand, lights: Option<real>, gripper: Pair): Command
  {
    var p0 := Named(thr);
    var p1 := if lights.Some? then p0[Name("lights") := lights.value] else p0;
    var p2 := if k.wristEnabled then p1[Name(k.wristKey) := WristCommand(k, d)] else p1;
    if k.gripperEnabled then
      p2[Name(k.gripperLeftKey) := gripper.left][Name(k.gripperRightKey) := gripper.right]
    else p2
  }

  /** Disarmed, or without a fresh frame: no thrust, at most the lights. */
  function IdlePayload(k: Settings, armed: bool, lights: Option<real>): Command
  {
    if lights.Some? && (armed || k.lightsAllowWhenDisarmed) then map[Name("lights") := lights.value] else map[]
  }

  /** Keys of a payload that do not come from the mixer. */
  predicate Auxiliary(k: Settings, key: Key)
  {
    key == Name("lights") || key == Name(k.wristKey) || key == Name(k.gripperLeftKey) || key == Name(k.gripperRightKey)
  }

  function ShapingAt(k: Settings, d: Demand, now: real, armedSince: Option<real>): Limits.Shaping
  {
    Limits.Shaping(Limits.LiveCap(k.thrusterMaxAbs, d.maxGain), d.budgetActive, d.budgetMaxA,
                   d.verticalHold, d.horizontalHold, Limits.Ramp(now, armedSince, k.armRampS))
  }

  /** For any mixer output, a live payload keeps every mixed command within ramp times
      min(THRUSTER_MAX_ABS, pilot gain). The wrist channel is bounded by neither. */
  lemma PayloadWithin(k: Settings, raw: Limits.Thrust, d: Demand, lights: Option<real>, gripper: Pair, s: Limits.Shaping)
    requires Limits.UsableBudget(k.budget) && s.cap >= 0.0 && 0.0 <= s.ramp <= 1.0
    ensures var p := LivePayload(k, Limits.Shape(k.budget, k.deadbands, raw, s), d, lights, gripper);
            forall key :: key in p && !Auxiliary(k, key) ==> -Product(s.cap, s.ramp) <= p[key] <= Product(s.cap, s.ramp)
  {
    hide Limits.Shape, Product, WristCommand;
    Limits.ShapeWithin(k.budget, k.deadbands, raw, s);
  }

  lemma WristIgnoresCapAndRamp(k: Settings, raw: Limits.Thrust, d: Demand, lights: Option<real>, gripper: Pair, s: Limits.Shaping)
    requires Limits.UsableBudget(k.budget) && k.wristEnabled
    requires k.wristKey != k.gripperLeftKey && k.wristKey != k.gripperRightKey
    ensures var p := LivePayload(k, Limits.Shape(k.budget, k.deadbands, raw, s), d, lights, gripper);
            Name(k.wristKey) in p && p[Name(k.wristKey)] == WristCommand(k, d)
  {
  }

  // ---------------------------------------------------------------- how far the wrist can go

  lemma TriggerMonotone(v: real, w: real, deadzone: real)
    requires v <= w
    ensures TriggerMagnitude(v, deadzone) <= TriggerMagnitude(w, deadzone)
  {
    var x, y, span := Max(0.0, Min(1.0, v)), Max(0.0, Min(1.0, w)), Max(0.000001, 1.0 - deadzone);
    if x > deadzone {
      QuotientMonotone(x - deadzone, y - deadzone, span);
    }
  }

  /** Most the two triggers can differ, at full gain. */
  function WristPeak(k: Settings): (peak: real)
  {
    Min(1.0, Product(TriggerMagnitude(1.0, k.wristDeadzone) - TriggerMagnitude(0.0, k.wristDeadzone), Abs(k.wristSpeed)))
  }

  /** Right trigger home, nothing else asked. */
  const FULL_RIGHT := Demand(None, false, None, false, false, 0.0, 1.0, None, None, None)

  lemma WristAtPeak(k: Settings)
    ensures Abs(WristCommand(k, FULL_RIGHT)) == WristPeak(k)
  {
    var net := TriggerMagnitude(1.0, k.wristDeadzone) - TriggerMagnitude(0.0, k.wristDeadzone);
    TriggerMonotone(0.0, 1.0, k.wristDeadzone);
    hide TriggerMagnitude, Turn, Product;
    SpeedSign(net, k.wristSpeed);
  }

  lemma SpeedSign(net: real, speed: real)
    requires net >= 0.0
    ensures Abs(Turn(net, speed, 1.0)) == Product(net, Abs(speed))
  {
    Windup.AbsProduct(net, speed);
    assert Turn(net, speed, 1.0) == Product(net, speed);
    hide Product, Turn;
  }

  lemma WristBounded(k: Settings, d: Demand)
    ensures Abs(WristCommand(k, d)) <= WristPeak(k)
  {
    var right, left := TriggerMagnitude(d.rightTrigger, k.wristDeadzone), TriggerMagnitude(d.leftTrigger, k.wristDeadzone);
    var full, none := TriggerMagnitude(1.0, k.wristDeadzone), TriggerMagnitude(0.0, k.wristDeadzone);
    var gain := if d.wristGain.None? then 1.0 else Clamp(d.wristGain.value, 0.0, 1.0);
    TriggerSaturates(d.rightTrigger, k.wristDeadzone);
    TriggerSaturates(d.leftTrigger, k.wristDeadzone);
    hide TriggerMagnitude, Turn, Product;
    ThreeFactors(right - left, full - none, k.wristSpeed, gain);
  }

  lemma TriggerSaturates(v: real, deadzone: real)
    ensures TriggerMagnitude(0.0, deadzone) <= TriggerMagnitude(v, deadzone) <= TriggerMagnitude(1.0, deadzone)
  {
    var x := Max(0.0, Min(1.0, v));
    TriggerMonotone(0.0, x, deadzone);
    TriggerMonotone(x, 1.0, deadzone);
  }

  lemma ThreeFactors(net: real, most: real, speed: real, gain: real)
    requires Abs(net) <= most && 0.0 <= gain <= 1.0
    ensures Abs(Turn(net, speed, gain)) <= Product(most, Abs(speed))
  {
    var turned := Product(net, speed);
    assert Turn(net, speed, gain) == Product(turned, gain);
    Windup.AbsProduct(turned, gain);
    Windup.AbsProduct(net, speed);
    MulOrder(Abs(net), most, Abs(speed));
    assert Product(Abs(net), Abs(speed)) <= Product(most, Abs(speed));
    ProductOne(Abs(turned));
    ProductMono(Abs(turned), gain, 1.0);
    hide Product, Turn;
  }

  predicate WristWithin(k: Settings, p: Command, bound: real)
  {
    Name(k.wristKey) in p && Abs(p[Name(k.wristKey)]) <= bound
  }

  /** Whatever the pilot may ask, the wrist channel keeps to ramp times cap if and only if its configured peak does:
      neither the ramp nor the cap acts on it. */
  lemma WristWithinExactly(k: Settings, raw: Limits.Thrust, lights: Option<real>, gripper: Pair, s: Limits.Shaping)
    requires Limits.UsableBudget(k.budget) && k.wristEnabled
    requires k.wristKey != k.gripperLeftKey && k.wristKey != k.gripperRightKey
    ensures (forall d :: WristWithin(k, LivePayload(k, Limits.Shape(k.budget, k.deadbands, raw, s), d, lights, gripper), Product(s.cap, s.ramp)))
       <==> WristPeak(k) <= Product(s.cap, s.ramp)
  {
    var thr, bound := Limits.Shape(k.budget, k.deadbands, raw, s), Product(s.cap, s.ramp);
    hide Limits.Shape, LivePayload, WristCommand, WristPeak, Product;
    WristAtPeak(k);
    WristIgnoresCapAndRamp(k, raw, FULL_RIGHT, lights, gripper, s);
    if WristPeak(k) <= bound {
      forall d ensures WristWithin(k, LivePayload(k, thr, d, lights, gripper), bound) {
        WristBounded(k, d);
        WristIgnoresCapAndRamp(k, raw, d, lights, gripper, s);
      }
    } else {
      assert !WristWithin(k, LivePayload(k, thr, FULL_RIGHT, lights, gripper), bound);
    }
  }

  /** With the shipped deadzone and speed the wrist goes half way while the ramp still holds every thruster at 0. */
  lemma WristMovesAtRampZero(k: Settings, raw: Limits.Thrust, lights: Option<real>, gripper: Pair, s: Limits.Shaping)
    requires Limits.UsableBudget(k.budget) && k.wristEnabled && k.wristDeadzone == 0.1 && k.wristSpeed == 0.5
    requires k.wristKey != k.gripperLeftKey && k.wristKey != k.gripperRightKey
    requires s.ramp == 0.0
    ensures var p := LivePayload(k, Limits.Shape(k.budget, k.deadbands, raw, s), FULL_RIGHT, lights, gripper);
            Name(k.wristKey) in p && p[Name(k.wristKey)] == 0.5 > Product(s.cap, s.ramp)
  {
    assert Product(s.cap, 0.0) == 0.0;
    assert TriggerMagnitude(1.0, 0.1) == 1.0 && TriggerMagnitude(0.0, 0.1) == 0.0;
    assert WristCommand(k, FULL_RIGHT) == 0.5;
    hide Limits.Shape, LivePayload, WristCommand, Product;
    WristIgnoresCapAndRamp(k, raw, FULL_RIGHT, lights, gripper, s);
  }

  /** With four distinct auxiliary keys each channel gets its own value, and every thruster the last one shaped for it. */
  lemma PayloadCarries(k: Settings, thr: Limits.Thrust, d: Demand, lights: Option<real>, gripper: Pair)
    requires "lights" != k.wristKey && k.wristKey != k.gripperLeftKey && k.wristKey != k.gripperRightKey
    requires "lights" != k.gripperLeftKey && "lights" != k.gripperRightKey && k.gripperLeftKey != k.gripperRightKey
    ensures var p := LivePayload(k, thr, d, lights, gripper);
            && (lights.Some? ==> Name("lights") in p && p[Name("lights")] == lights.value)
            && (k.wristEnabled ==> Name(k.wristKey) in p && p[Name(k.wristKey)] == WristCommand(k, d))
            && (k.gripperEnabled ==> Name(k.gripperLeftKey) in p && p[Name(k.gripperLeftKey)] == gripper.left)
            && (k.gripperEnabled ==> Name(k.gripperRightKey) in p && p[Name(k.gripperRightKey)] == gripper.right)
            && forall key :: !Auxiliary(k, key) ==> (key in p <==> key in Named(thr)) && (key in p ==> p[key] == Named(thr)[key])
  {
    hide WristCommand, Named;
  }

  // ---------------------------------------------------------------- calls on the writer

  /** A call the service makes on the writer, without its time. */
  datatype Call = CallArm | CallDisarm | CallShutdown | CallWrite(cmd: Command)

  function CallOf(e: Event): Call
  {
    match e
    case Arm(_, _) => CallArm
    case Disarm(_) => CallDisarm
    case Shutdown(_) => CallShutdown
    case Write(cmd, _) => CallWrite(cmd)
  }

  function Calls(events: seq<Event>): (calls: seq<Call>)
    ensures |calls| == |events|
  {
    seq(|events|, i requires 0 <= i < |events| => CallOf(events[i]))
  }

  lemma CallsPush(before: seq<Event>, after: seq<Event>)
    requires |after| == |before| + 1 && after[..|before|] == before
    ensures Calls(after) == Calls(before) + [CallOf(after[|before|])]
  {
    assert forall i :: 0 <= i < |before| ==> after[i] == before[i];
  }

  /** Neutral first, then off. */
  const SYNC_OFF := [CallWrite(map[]), CallDisarm]

  function SyncCalls(k: Settings, armed: bool): seq<Call>
  {
    if armed && !k.dryRun then [CallArm] else SYNC_OFF
  }

  function SendCalls(k: Settings, cmd: Command): seq<Call>
  {
    if k.dryRun then [] else [CallWrite(cmd)]
  }

  function Parked(k: Settings): Pair
  {
    DiffMixNorm(k.geometry, k.parkPitch, k.parkYaw)
  }

  function ParkPlanFrom(k: Settings, start: Pair): ParkPlan
  {
    ParkPlan(start, Parked(k), k.parkSlewNormPerS, Max(0.0, k.parkSettleS), k.periodS)
  }

  /** Every position of the interpolated move, or the park pose at once. */
  function ParkCalls(k: Settings, start: Pair): seq<Call>
  {
    var plan := ParkPlanFrom(k, start);
    if !k.parkOnArmDisarm || !k.gripperEnabled then []
    else if Interpolates(plan, !k.dryRun) then
      seq(Steps(plan), i requires 0 <= i < Steps(plan) => CallWrite(GripperPayload(k, ParkAt(plan, i + 1))))
    else SendCalls(k, GripperPayload(k, Parked(k)))
  }

  /** The writer is armed before the gripper moves, and disarmed after it has. */
  function ArmCalls(k: Settings, gripper: Pair): seq<Call>
  {
    SyncCalls(k, true) + ParkCalls(k, gripper)
  }

  function DisarmCalls(k: Settings, gripper: Pair): seq<Call>
  {
    ParkCalls(k, gripper) + SYNC_OFF
  }

  function DecisionCalls(k: Settings, d: Decision, gripper: Pair): seq<Call>
  {
    match d
    case Arms => ArmCalls(k, gripper)
    case KillDisarms => DisarmCalls(k, gripper)
    case ToggleDisarms => DisarmCalls(k, gripper)
    case ArmRefused => SYNC_OFF
    case _ => []
  }

  function DecisionGripper(k: Settings, d: Decision, gripper: Pair): Pair
  {
    match d
    case Arms => if k.parkOnArmDisarm && k.gripperEnabled then Parked(k) else gripper
    case KillDisarms => Parked(k)
    case ToggleDisarms => Parked(k)
    case ArmRefused => Parked(k)
    case _ => gripper
  }

  /** Calls so far in a tick, and the gripper pose remembered then. */
  datatype Doing = Doing(calls: seq<Call>, gripper: Pair)

  function ButtonsDo(k: Settings, s: Ctl, t: Tick, gripper: Pair): Doing
  {
    if !NewFrame(s, t) then Doing([], gripper)
    else
      var d := Decide(k.rules, s.armed, t.frame.value);
      Doing(DecisionCalls(k, d, gripper), DecisionGripper(k, d, gripper))
  }

  /** A check that may disarm. */
  function CheckDoes(k: Settings, before: Ctl, after: Ctl, gripper: Pair): Doing
  {
    if before.armed && !after.armed then Doing(DisarmCalls(k, gripper), Parked(k)) else Doing([], gripper)
  }

  /** What the arming part of one tick does to the writer and the gripper. */
  function ArmingDoes(k: Settings, s: Ctl, t: Tick, gripper: Pair): Doing
  {
    var s1 := Arming.AfterButtons(k.rules, s, t);
    var s2 := Arming.AfterFailsafe(k.rules, s1, t);
    var s3 := Arming.AfterDeadman(k.rules, s2, t);
    var a := ButtonsDo(k, s, t, gripper);
    var b := CheckDoes(k, s1, s2, a.gripper);
    var c := CheckDoes(k, s2, s3, b.gripper);
    Doing(a.calls + b.calls + c.calls, c.gripper)
  }

  /** A tick calls arm exactly when it arms (and is no dry run). */
  lemma ArmCalledExactlyOnArming(k: Settings, s: Ctl, t: Tick, gripper: Pair)
    ensures CallArm in ArmingDoes(k, s, t, gripper).calls
       <==> !k.dryRun && !s.armed && Arming.AfterButtons(k.rules, s, t).armed
  {
    var s1 := Arming.AfterButtons(k.rules, s, t);
    var s2 := Arming.AfterFailsafe(k.rules, s1, t);
    var a := ButtonsDo(k, s, t, gripper);
    hide Arming.AfterFailsafe, Arming.AfterDeadman, ButtonsDo, CheckDoes;
    ButtonsCallArm(k, s, t, gripper);
    ChecksNeverArm(k, s1, s2, a.gripper);
    ChecksNeverArm(k, s2, Arming.AfterDeadman(k.rules, s2, t), CheckDoes(k, s1, s2, a.gripper).gripper);
  }

  lemma ButtonsCallArm(k: Settings, s: Ctl, t: Tick, gripper: Pair)
    ensures CallArm in ButtonsDo(k, s, t, gripper).calls <==> !k.dryRun && !s.armed && Arming.AfterButtons(k.rules, s, t).armed
  {
    hide ParkCalls, Parked, Kills, Toggles, Centered;
    NoArmInPark(k, gripper);
  }

  lemma ChecksNeverArm(k: Settings, before: Ctl, after: Ctl, gripper: Pair)
    ensures CallArm !in CheckDoes(k, before, after, gripper).calls
  {
    hide ParkCalls, Parked;
    NoArmInPark(k, gripper);
  }

  predicate EndsOff(calls: seq<Call>)
  {
    |calls| >= 2 && calls[|calls| - 2..] == SYNC_OFF
  }

  /** A tick that disarms ends its arming calls with neutral and disarm. */
  lemma DisarmCalledLast(k: Settings, s: Ctl, t: Tick, gripper: Pair)
    requires s.armed && !Arming.Step(k.rules, s, t).armed
    ensures EndsOff(ArmingDoes(k, s, t, gripper).calls)
  {
    var s1 := Arming.AfterButtons(k.rules, s, t);
    var s2 := Arming.AfterFailsafe(k.rules, s1, t);
    var s3 := Arming.AfterDeadman(k.rules, s2, t);
    var a := ButtonsDo(k, s, t, gripper);
    var b := CheckDoes(k, s1, s2, a.gripper);
    var c := CheckDoes(k, s2, s3, b.gripper);
    ButtonsEndOff(k, s, t, gripper);
    CheckEndsOff(k, s1, s2, a.gripper);
    CheckEndsOff(k, s2, s3, b.gripper);
    assert !s1.armed ==> !s2.armed;
    assert !s2.armed ==> !s3.armed;
    hide CheckDoes, ButtonsDo;
    EndsOffAppend(a.calls, b.calls);
    EndsOffAppend(a.calls + b.calls, c.calls);
    hide EndsOff;
  }

  lemma ButtonsEndOff(k: Settings, s: Ctl, t: Tick, gripper: Pair)
    requires s.armed
    ensures !Arming.AfterButtons(k.rules, s, t).armed ==> EndsOff(ButtonsDo(k, s, t, gripper).calls)
  {
    hide ParkCalls, Parked, Kills, Toggles, Centered;
  }

  lemma CheckEndsOff(k: Settings, before: Ctl, after: Ctl, gripper: Pair)
    ensures if before.armed && !after.armed then EndsOff(CheckDoes(k, before, after, gripper).calls)
            else CheckDoes(k, before, after, gripper).calls == []
  {
    hide ParkCalls, Parked;
  }

  lemma EndsOffAppend(a: seq<Call>, b: seq<Call>)
    ensures EndsOff(b) ==> EndsOff(a + b)
    ensures EndsOff(a) && b == [] ==> EndsOff(a + b)
  {
    assert b == [] ==> a + b == a;
  }

  lemma NoArmInPark(k: Settings, gripper: Pair)
    ensures CallArm !in ParkCalls(k, gripper)
  {
    hide ParkPlanFrom, Interpolates, Steps, ParkAt, Parked, GripperPayload;
  }

  // ---------------------------------------------------------------- gripper demand

  /** One axis of the gripper: the demand when present, else the last value or centre; then its limits. */
  function GripperAxis(demand: Option<real>, invert: real, hold: bool, last: real, lo: real, hi: real): (p: real)
    ensures lo <= hi ==> lo <= p <= hi
  {
    var p := if demand.Some? then Max(-1.0, Min(1.0, demand.value * invert)) else if hold then last else 0.0;
    Max(lo, Min(hi, p))
  }

  class ControlService {
    const k: Settings
    const clock: Clock
    var armed: bool
    var lastSeqSeen: int
    var staleSince: Option<real>
    var armedSince: Option<real>
    var sinkArmed: bool
    var sink: ThrustWriter?
    var lastPitch: real
    var lastYaw: real
    var lastGripper: Pair
    ghost var ticks: seq<Tick>

    ghost function Devices(): set<object>
      reads this
    {
      if sink == null then {clock} else {clock, sink, sink.pwm}
    }

    /** Every call made on the writer attached. */
    ghost function Log(): seq<Call>
      requires sink != null
      reads this, sink
    {
      Calls(sink.trace)
    }

    ghost predicate DevicesValid()
      reads this, Devices()
    {
      && Limits.UsableBudget(k.budget)
      && 0.0 <= clock.now
      && (sink != null ==> sink.clock == clock && sink.Valid())
    }

    /** The arming state is what the arming rules make of every tick so far. */
    ghost predicate Valid()
      reads this, Devices()
    {
      && DevicesValid()
      && Ctl(armed, lastSeqSeen, staleSince) == Arming.Run(k.rules, ticks)
      && Ordered(ticks)
      && forall i :: 0 <= i < |ticks| ==> ticks[i].now <= clock.now
    }

    /** The writer agrees with the arming state. */
    ghost predicate Synced()
      reads this, Devices()
    {
      && (armed ==> armedSince.Some?)
      && (sink != null ==>
        && sinkArmed == sink.armed
        && sink.armed == (armed && !k.dryRun)
        && (PwmOffConfigured(sink.c) && !sink.armed ==> !sink.pwm.enabled))
    }

    constructor (k: Settings, clock: Clock)
      requires Limits.UsableBudget(k.budget) && clock.now >= 0.0
      ensures Valid() && Synced() && !armed && sink == null && this.k == k && this.clock == clock
      ensures ticks == [] && lastSeqSeen == -1 && staleSince == None && lastGripper == Parked(k)
    {
      this.k, this.clock := k, clock;
      armed, lastSeqSeen, staleSince, armedSince := false, -1, None, None;
      sinkArmed, sink := false, null;
      lastPitch, lastYaw := k.parkPitch, k.parkYaw;
      lastGripper := DiffMixNorm(k.geometry, k.parkPitch, k.parkYaw);
      ticks := [];
    }

    method SetHwSink(writer: ThrustWriter)
      requires Valid() && Synced() && writer.Valid() && writer.clock == clock
      modifies this`sink, this`sinkArmed, writer, writer.pwm, clock
      ensures Valid() && Synced() && sink == writer && clock.now >= old(clock.now)
      ensures Log() == old(Calls(writer.trace)) + SyncCalls(k, armed)
    {
      sink := writer;
      SyncSinkArmed(true);
    }

    /** Bring the writer to the arming state: arm it, or write neutral and disarm it. */
    method SyncSinkArmed(force: bool)
      requires DevicesValid()
      requires force || Synced()
      requires armed ==> armedSince.Some?
      modifies this`sinkArmed, Devices()
      ensures DevicesValid() && Synced() && clock.now >= old(clock.now)
      ensures sink != null ==>
        Log() == old(Log()) + if force || (armed && !k.dryRun) != old(sinkArmed) then SyncCalls(k, armed) else []
    {
      hide Pwm.Step, PwmRuns.History, Shaped;
      if sink == null {
        return;
      }
      var desired := armed && !k.dryRun;
      if !force && desired == sinkArmed {
        return;
      }
      if desired {
        ghost var before := sink.Current();
        sink.Arm();
        CallsPush(old(sink.trace), sink.trace);
        PwmRuns.StepArmed(sink.c, before, sink.trace[|sink.trace| - 1]);
      } else {
        sink.Write(map[]);
        ghost var before, soFar := sink.Current(), sink.trace;
        CallsPush(old(sink.trace), soFar);
        sink.Disarm();
        CallsPush(soFar, sink.trace);
        DisarmTurnsOff(sink.c, before, sink.trace[|sink.trace| - 1]);
      }
      sinkArmed := desired;
    }

    method SendToHw(cmd: Command)
      requires DevicesValid()
      modifies Devices()
      ensures DevicesValid() && clock.now >= old(clock.now)
      ensures sink != null ==> sink.armed == old(sink.armed)
      ensures sink != null && PwmOffConfigured(sink.c) && !old(sink.armed) && !old(sink.pwm.enabled) ==> !sink.pwm.enabled
      ensures sink != null && !k.dryRun ==>
        Wrote(old(sink.trace), sink.trace, cmd, old(clock.now), clock.now)
      ensures sink != null && k.dryRun ==> sink.trace == old(sink.trace)
      ensures sink != null ==> Log() == old(Log()) + SendCalls(k, cmd)
    {
      hide Pwm.Step, PwmRuns.History;
      if k.dryRun || sink == null {
        return;
      }
      ghost var before := sink.Current();
      sink.Write(cmd);
      CallsPush(old(sink.trace), sink.trace);
      PwmRuns.WriteKeeps(sink.c, before, cmd, sink.trace[|sink.trace| - 1].at);
    }

    method SetGripperParkPose()
      modifies this`lastPitch, this`lastYaw, this`lastGripper
      ensures lastPitch == k.parkPitch && lastYaw == k.parkYaw && lastGripper == Parked(k)
    {
      lastPitch, lastYaw, lastGripper := k.parkPitch, k.parkYaw, Parked(k);
    }

    method SendGripperParkPose()
      requires DevicesValid()
      modifies this`lastPitch, this`lastYaw, this`lastGripper, Devices()
      ensures DevicesValid() && clock.now >= old(clock.now)
      ensures sink != null ==> sink.armed == old(sink.armed)
      ensures sink != null && PwmOffConfigured(sink.c) && !old(sink.armed) && !old(sink.pwm.enabled) ==> !sink.pwm.enabled
      ensures lastGripper == if k.parkOnArmDisarm && k.gripperEnabled then Parked(k) else old(lastGripper)
      ensures sink != null ==> Log() == old(Log()) + ParkCalls(k, old(lastGripper))
      ensures var plan := ParkPlanFrom(k, old(lastGripper));
              k.parkOnArmDisarm && k.gripperEnabled && sink != null && Interpolates(plan, !k.dryRun) ==>
                ParkWrites(k, plan, old(sink.trace), sink.trace, Steps(plan))
    {
      hide ParkAt, Steps, SleepS, Duration, MaxDist, DiffMixNorm, PwmRuns.History, ParkWrites;
      if !k.parkOnArmDisarm || !k.gripperEnabled {
        return;
      }
      var plan := ParkPlanFrom(k, lastGripper);
      var canSleep := !k.dryRun && sink != null;
      if Interpolates(plan, canSleep) {
        ghost var before := sink.trace;
        ParkLoop(plan);
        ParkWritesAreCalls(k, lastGripper, before, sink.trace);
        SetGripperParkPose();
        return;
      }
      SetGripperParkPose();
      SendToHw(GripperPayload(k, lastGripper));
      if plan.settleS > 0.0 && canSleep && MaxDist(plan) > 0.000001 {
        IdleFor(plan.settleS);
      }
    }

    method ReadClock() returns (t: real)
      requires DevicesValid()
      modifies clock
      ensures DevicesValid() && t == clock.now >= old(clock.now)
      ensures sink != null ==> sink.trace == old(sink.trace)
    {
      hide PwmRuns.History;
      ghost var since := clock.now;
      t := clock.Read();
      if sink != null {
        PwmRuns.HistoryLater(sink.c, sink.start, sink.trace, since, clock.now, sink.Current());
      }
    }

    method IdleFor(s: real)
      requires DevicesValid()
      modifies clock
      ensures DevicesValid() && clock.now >= old(clock.now) && clock.now >= old(clock.now) + s
      ensures sink != null ==> sink.trace == old(sink.trace)
    {
      hide PwmRuns.History;
      ghost var since := clock.now;
      clock.Sleep(s);
      if sink != null {
        PwmRuns.HistoryLater(sink.c, sink.start, sink.trace, since, clock.now, sink.Current());
      }
    }

    method ParkLoop(plan: ParkPlan)
      requires DevicesValid() && sink != null && !k.dryRun
      modifies Devices()
      ensures DevicesValid() && clock.now >= old(clock.now)
      ensures sink.armed == old(sink.armed)
      ensures PwmOffConfigured(sink.c) && !old(sink.armed) && !old(sink.pwm.enabled) ==> !sink.pwm.enabled
      ensures ParkWrites(k, plan, old(sink.trace), sink.trace, Steps(plan))
    {
      hide ParkAt, Steps, SleepS, PwmRuns.History;
      var steps := Steps(plan);
      ghost var before := sink.trace;
      var idx := 1;
      while idx <= steps
        invariant 1 <= idx <= steps + 1
        invariant DevicesValid() && clock.now >= old(clock.now)
        invariant sink.armed == old(sink.armed)
        invariant PwmOffConfigured(sink.c) && !old(sink.armed) && !old(sink.pwm.enabled) ==> !sink.pwm.enabled
        invariant ParkWrites(k, plan, before, sink.trace, idx - 1)
        invariant 1 < idx <= steps ==> clock.now >= sink.trace[|sink.trace| - 1].at + SleepS(plan)
      {
        ghost var soFar := sink.trace;
        SendToHw(GripperPayload(k, ParkAt(plan, idx)));
        ParkGrows(k, plan, before, soFar, sink.trace, idx);
        if idx < steps {
          IdleFor(SleepS(plan));
        }
        idx := idx + 1;
      }
    }

    method ArmWithGripperPark()
      requires DevicesValid()
      modifies this, Devices()
      ensures DevicesValid() && Synced() && clock.now >= old(clock.now)
      ensures armed && lastSeqSeen == old(lastSeqSeen) && staleSince == old(staleSince) && sink == old(sink) && ticks == old(ticks)
      ensures armedSince.Some? && old(clock.now) <= armedSince.value - k.armHwInitHoldS <= clock.now
      ensures lastGripper == DecisionGripper(k, Decision.Arms, old(lastGripper))
      ensures sink != null ==> Log() == old(Log()) + ArmCalls(k, old(lastGripper))
    {
      hide PwmRuns.History, DiffMixNorm, ParkWrites, Shaped, PwmOffConfigured, ParkCalls, Calls;
      armed := true;
      var now := ReadClock();
      armedSince := Some(now + k.armHwInitHoldS);
      SyncSinkArmed(true);
      SendGripperParkPose();
    }

    method DisarmWithGripperPark()
      requires DevicesValid()
      modifies this, Devices()
      ensures DevicesValid() && Synced() && clock.now >= old(clock.now)
      ensures !armed && lastSeqSeen == old(lastSeqSeen) && staleSince == old(staleSince) && sink == old(sink) && ticks == old(ticks)
      ensures armedSince == None && lastGripper == Parked(k)
      ensures sink != null ==> Log() == old(Log()) + DisarmCalls(k, old(lastGripper))
    {
      hide PwmRuns.History, DiffMixNorm, ParkWrites, Shaped, PwmOffConfigured, ParkCalls, Calls;
      SendGripperParkPose();
      armed, armedSince := false, None;
      SetGripperParkPose();
      SyncSinkArmed(true);
    }

    method AnyKill(f: Frame) returns (hit: bool)
      ensures hit == Kills(k.rules, f)
    {
      for i := 0 to |k.rules.killButtons|
        invariant forall j :: 0 <= j < i ==> k.rules.killButtons[j] !in f.down && k.rules.killButtons[j] !in f.held
      {
        if k.rules.killButtons[i] in f.down || k.rules.killButtons[i] in f.held {
          return true;
        }
      }
      return false;
    }

    method AnyToggle(f: Frame) returns (hit: bool)
      ensures hit == Toggles(k.rules, f)
    {
      for i := 0 to |k.rules.armButtons|
        invariant forall j :: 0 <= j < i ==> k.rules.armButtons[j] !in f.down
      {
        if k.rules.armButtons[i] in f.down {
          return true;
        }
      }
      return false;
    }

    method HandleArming(f: Frame) returns (d: Decision)
      requires DevicesValid() && Synced()
      modifies this, Devices()
      ensures DevicesValid() && Synced() && clock.now >= old(clock.now)
      ensures lastSeqSeen == old(lastSeqSeen) && staleSince == old(staleSince) && sink == old(sink) && ticks == old(ticks)
      ensures d == Decide(k.rules, old(armed), f)
      ensures armed == (if d.Arms? then true else if d.KillDisarms? || d.ToggleDisarms? then false else old(armed))
      ensures lastGripper == DecisionGripper(k, d, old(lastGripper))
      ensures sink != null ==> Log() == old(Log()) + DecisionCalls(k, d, old(lastGripper))
    {
      hide PwmRuns.History, Parked, Shaped, PwmOffConfigured, ParkCalls, ArmCalls, DisarmCalls, Calls;
      var killed := AnyKill(f);
      if killed {
        if armed {
          DisarmWithGripperPark();
          return KillDisarms;
        }
        return KillIdle;
      }
      var toggled := AnyToggle(f);
      if !toggled {
        return NoChange;
      }
      if armed {
        DisarmWithGripperPark();
        return ToggleDisarms;
      }
      if k.rules.requireNeutral && !Centered(k.rules, f.axes) {
        armed, armedSince := false, None;
        SetGripperParkPose();
        SyncSinkArmed(true);
        return ArmRefused;
      }
      ArmWithGripperPark();
      return Arms;
    }

    /** Buttons of a new frame, then the stale failsafe, then the deadman. */
    method UpdateArming(t: Tick)
      requires DevicesValid() && Synced()
      modifies this, Devices()
      ensures DevicesValid() && Synced() && clock.now >= old(clock.now)
      ensures sink == old(sink) && ticks == old(ticks)
      ensures Ctl(armed, lastSeqSeen, staleSince) == Arming.Step(k.rules, old(Ctl(armed, lastSeqSeen, staleSince)), t)
      ensures var doing := ArmingDoes(k, old(Ctl(armed, lastSeqSeen, staleSince)), t, old(lastGripper));
              lastGripper == doing.gripper && (sink != null ==> Log() == old(Log()) + doing.calls)
    {
      hide PwmRuns.History, Arming.AfterButtons, Arming.AfterFailsafe, Arming.AfterDeadman, ButtonsDo, CheckDoes, Calls, PwmOffConfigured, Shaped;
      ReadButtons(t);
      var isFresh := t.frame.Some? && t.age <= k.rules.ttl;
      CheckFailsafe(t, isFresh);
      CheckDeadman(t, isFresh);
    }

    method ReadButtons(t: Tick)
      requires DevicesValid() && Synced()
      modifies this, Devices()
      ensures DevicesValid() && Synced() && clock.now >= old(clock.now)
      ensures sink == old(sink) && ticks == old(ticks)
      ensures Ctl(armed, lastSeqSeen, staleSince) == Arming.AfterButtons(k.rules, old(Ctl(armed, lastSeqSeen, staleSince)), t)
      ensures var doing := ButtonsDo(k, old(Ctl(armed, lastSeqSeen, staleSince)), t, old(lastGripper));
              lastGripper == doing.gripper && (sink != null ==> Log() == old(Log()) + doing.calls)
    {
      hide PwmRuns.History, Decide, Shaped, PwmOffConfigured, DecisionCalls, DecisionGripper, Calls;
      if t.frame.Some? && t.frame.value.seqNo != lastSeqSeen {
        var d := HandleArming(t.frame.value);
        lastSeqSeen := t.frame.value.seqNo;
      }
    }

    method CheckFailsafe(t: Tick, isFresh: bool)
      requires DevicesValid() && Synced()
      requires isFresh == Arming.Fresh(k.rules, t)
      modifies this, Devices()
      ensures DevicesValid() && Synced() && clock.now >= old(clock.now)
      ensures sink == old(sink) && ticks == old(ticks)
      ensures Ctl(armed, lastSeqSeen, staleSince) == Arming.AfterFailsafe(k.rules, old(Ctl(armed, lastSeqSeen, staleSince)), t)
      ensures var doing := CheckDoes(k, old(Ctl(armed, lastSeqSeen, staleSince)), Ctl(armed, lastSeqSeen, staleSince), old(lastGripper));
              lastGripper == doing.gripper && (sink != null ==> Log() == old(Log()) + doing.calls)
    {
      hide PwmRuns.History, Parked, Shaped, PwmOffConfigured, DisarmCalls, Calls;
      if armed && k.rules.failsafeDisarmS > 0.0 {
        if isFresh {
          staleSince := None;
        } else if staleSince.None? {
          staleSince := Some(t.now);
        } else if t.now - staleSince.value >= k.rules.failsafeDisarmS {
          DisarmWithGripperPark();
        }
      }
    }

    method CheckDeadman(t: Tick, isFresh: bool)
      requires DevicesValid() && Synced()
      requires isFresh == Arming.Fresh(k.rules, t)
      modifies this, Devices()
      ensures DevicesValid() && Synced() && clock.now >= old(clock.now)
      ensures sink == old(sink) && ticks == old(ticks)
      ensures Ctl(armed, lastSeqSeen, staleSince) == Arming.AfterDeadman(k.rules, old(Ctl(armed, lastSeqSeen, staleSince)), t)
      ensures var doing := CheckDoes(k, old(Ctl(armed, lastSeqSeen, staleSince)), Ctl(armed, lastSeqSeen, staleSince), old(lastGripper));
              lastGripper == doing.gripper && (sink != null ==> Log() == old(Log()) + doing.calls)
    {
      hide PwmRuns.History, Parked, Shaped, PwmOffConfigured, DisarmCalls, Calls;
      if armed && k.rules.deadmanButton != "" && isFresh {
        if k.rules.deadmanButton !in t.frame.value.held {
          DisarmWithGripperPark();
        }
      }
    }

    method ShapeThrust(raw: Limits.Thrust, s: Limits.Shaping) returns (thr: Limits.Thrust)
      requires Limits.UsableBudget(k.budget)
      ensures thr == Limits.Shape(k.budget, k.deadbands, raw, s)
    {
      hide Product, Limits.GlobalLimit, Limits.ApplyBudget;
      thr := Limits.ApplyBudget(k.budget, Limits.GlobalLimit(raw, s.cap), s.budgetActive, s.budgetMaxA);
      ghost var limited := thr;
      for i := 0 to |thr|
        invariant |thr| == |limited|
        invariant forall j :: 0 <= j < |thr| ==>
          thr[j] == if j < i && Abs(limited[j].v) < Limits.DeadbandFor(k.deadbands, limited[j], s.verticalCmd, s.horizontalCmd)
                    then limited[j].(v := 0.0) else limited[j]
      {
        if Abs(thr[i].v) < Limits.DeadbandFor(k.deadbands, thr[i], s.verticalCmd, s.horizontalCmd) {
          thr := thr[i := thr[i].(v := 0.0)];
        }
      }
      assert thr == Limits.OutputDeadband(k.deadbands, limited, s.verticalCmd, s.horizontalCmd);
      ghost var quiet := thr;
      if s.ramp < 1.0 {
        for i := 0 to |thr|
          invariant |thr| == |quiet|
          invariant forall j :: 0 <= j < |thr| ==>
            thr[j] == if j < i then quiet[j].(v := Product(quiet[j].v, s.ramp)) else quiet[j]
        {
          thr := thr[i := thr[i].(v := Product(thr[i].v, s.ramp))];
        }
        assert thr == Limits.Scaled(quiet, s.ramp);
      }
    }

    /** A present axis moves, an absent one holds its last value (or centres, if so configured). */
    method ComputeGripper(d: Demand) returns (p: Pair)
      modifies this`lastPitch, this`lastYaw, this`lastGripper
      ensures p == if k.gripperEnabled then lastGripper else Pair(0.0, 0.0)
      ensures k.gripperEnabled && (d.gripperPitch.Some? || d.gripperYaw.Some? || !k.gripperHoldLast) ==>
        && lastPitch == GripperAxis(d.gripperPitch, k.gripperPitchInvert, k.gripperHoldLast, old(lastPitch), k.pitchMin, k.pitchMax)
        && lastYaw == GripperAxis(d.gripperYaw, k.gripperYawInvert, k.gripperHoldLast, old(lastYaw), k.yawMin, k.yawMax)
        && lastGripper == DiffMixNorm(k.geometry, lastPitch, lastYaw)
      ensures !k.gripperEnabled || (d.gripperPitch.None? && d.gripperYaw.None? && k.gripperHoldLast) ==>
        lastPitch == old(lastPitch) && lastYaw == old(lastYaw) && lastGripper == old(lastGripper)
    {
      if !k.gripperEnabled {
        return Pair(0.0, 0.0);
      }
      if d.gripperPitch.None? && d.gripperYaw.None? && k.gripperHoldLast {
        return lastGripper;
      }
      lastPitch := GripperAxis(d.gripperPitch, k.gripperPitchInvert, k.gripperHoldLast, lastPitch, k.pitchMin, k.pitchMax);
      lastYaw := GripperAxis(d.gripperYaw, k.gripperYawInvert, k.gripperHoldLast, lastYaw, k.yawMin, k.yawMax);
      lastGripper := DiffMixNorm(k.geometry, lastPitch, lastYaw);
      p := lastGripper;
    }

    method BuildPayload(d: Demand, raw: Limits.Thrust, lights: Option<real>, now: real) returns (payload: Command)
      requires DevicesValid()
      modifies this`lastPitch, this`lastYaw, this`lastGripper
      ensures payload == LivePayload(k, Limits.Shape(k.budget, k.deadbands, raw, ShapingAt(k, d, now, armedSince)), d, lights, lastGripper)
    {
      hide DiffMixNorm, Limits.Shape, LivePayload, PwmRuns.History;
      var thr := ShapeThrust(raw, ShapingAt(k, d, now, armedSince));
      var gripper := ComputeGripper(d);
      payload := LivePayload(k, thr, d, lights, lastGripper);
    }

    /** What one pass does after reading the clock and the latest frame. */
    method Process(t: Tick, d: Demand, raw: Limits.Thrust, lights: Option<real>) returns (live: bool, payload: Command)
      requires DevicesValid() && Synced()
      modifies this, Devices()
      ensures DevicesValid() && Synced() && clock.now >= old(clock.now)
      ensures sink == old(sink) && ticks == old(ticks)
      ensures Ctl(armed, lastSeqSeen, staleSince) == Arming.Step(k.rules, old(Ctl(armed, lastSeqSeen, staleSince)), t)
      ensures live == (armed && Fresh(k.rules, t))
      ensures live ==> payload == LivePayload(k, Limits.Shape(k.budget, k.deadbands, raw, ShapingAt(k, d, t.now, armedSince)),
                                              d, lights, lastGripper)
      ensures !live ==> payload == IdlePayload(k, armed, lights)
      ensures var doing := ArmingDoes(k, old(Ctl(armed, lastSeqSeen, staleSince)), t, old(lastGripper));
              && (sink != null ==> Log() == old(Log()) + doing.calls + SendCalls(k, payload))
              && (!live ==> lastGripper == doing.gripper)
    {
      hide PwmRuns.History, DiffMixNorm, Limits.Shape, LivePayload, IdlePayload, Arming.Step, PwmOffConfigured, ArmingDoes, SendCalls;
      UpdateArming(t);
      live := armed && Fresh(k.rules, t);
      if live {
        payload := BuildPayload(d, raw, lights, t.now);
      } else {
        payload := IdlePayload(k, armed, lights);
      }
      SendToHw(payload);
    }

    /** One pass of the control loop. */
    method DoTick(frame: Option<Frame>, age: real, d: Demand, raw: Limits.Thrust, lights: Option<real>)
      returns (now: real, live: bool, payload: Command)
      requires Valid() && Synced()
      modifies this, Devices()
      ensures Valid() && Synced() && sink == old(sink)
      ensures old(clock.now) <= now <= clock.now
      ensures ticks == old(ticks) + [Tick(now, frame, age)]
      ensures live == (armed && Fresh(k.rules, Tick(now, frame, age)))
      ensures live ==> payload == LivePayload(k, Limits.Shape(k.budget, k.deadbands, raw, ShapingAt(k, d, now, armedSince)),
                                              d, lights, lastGripper)
      ensures !live ==> payload == IdlePayload(k, armed, lights)
      ensures var doing := ArmingDoes(k, old(Ctl(armed, lastSeqSeen, staleSince)), Tick(now, frame, age), old(lastGripper));
              && (sink != null ==> Log() == old(Log()) + doing.calls + SendCalls(k, payload))
              && (!live ==> lastGripper == doing.gripper)
    {
      hide PwmRuns.History, Shaped, PwmOffConfigured, DiffMixNorm, Limits.Shape, LivePayload, IdlePayload, Arming.Step, Arming.Run, ArmingDoes, SendCalls;
      now := ReadClock();
      var t := Tick(now, frame, age);
      live, payload := Process(t, d, raw, lights);
      TicksGrow(k.rules, ticks, t);
      ticks := ticks + [t];
    }

    /** The loop, over whatever frames and mixer outputs come. */
    method Run(inputs: seq<TickInput>)
      requires Valid() && Synced()
      modifies this, Devices()
      ensures Valid() && Synced() && sink == old(sink)
      ensures |ticks| == |old(ticks)| + |inputs| && ticks[..|old(ticks)|] == old(ticks)
      ensures forall i :: 0 <= i < |inputs| ==>
        ticks[|old(ticks)| + i].frame == inputs[i].frame && ticks[|old(ticks)| + i].age == inputs[i].age
    {
      hide PwmRuns.History, Shaped, PwmOffConfigured, DiffMixNorm, Limits.Shape, LivePayload, IdlePayload, Arming.Step, Arming.Run, ArmingDoes, SendCalls;
      for i := 0 to |inputs|
        invariant Valid() && Synced() && sink == old(sink)
        invariant |ticks| == |old(ticks)| + i && ticks[..|old(ticks)|] == old(ticks)
        invariant forall j :: 0 <= j < i ==>
          ticks[|old(ticks)| + j].frame == inputs[j].frame && ticks[|old(ticks)| + j].age == inputs[j].age
      {
        var x := inputs[i];
        var now, live, payload := DoTick(x.frame, x.age, x.demand, x.raw, x.lights);
      }
    }

    /** stop(): neutral, park if armed, and disarm for good. */
    method Stop()
      requires DevicesValid() && Synced()
      modifies this, Devices()
      ensures DevicesValid() && Synced() && !armed && sink == old(sink)
      ensures sink != null ==> !sink.armed && sink.pwm.thr == NeutralCounts(sink.c)
      ensures var off := if old(armed) then DisarmCalls(k, old(lastGripper)) else SYNC_OFF;
              sink != null ==> Log() == old(Log()) + SendCalls(k, map[]) + off
    {
      hide PwmRuns.History, Shaped, PwmOffConfigured, Parked, ParkWrites, ParkCalls, Calls, SendCalls;
      SendToHw(map[]);
      if armed {
        SendGripperParkPose();
      }
      armed := false;
      SetGripperParkPose();
      SyncSinkArmed(true);
      if sink != null {
        Safe(this);
      }
    }
  }

  datatype TickInput = TickInput(frame: Option<Frame>, age: real, demand: Demand, raw: Limits.Thrust, lights: Option<real>)

  lemma TicksGrow(r: Rules, ticks: seq<Tick>, t: Tick)
    requires Ordered(ticks) && forall i :: 0 <= i < |ticks| ==> ticks[i].now <= t.now
    ensures Ordered(ticks + [t])
    ensures Arming.Run(r, ticks + [t]) == Arming.Step(r, Arming.Run(r, ticks), t)
  {
  }

  lemma ParkGrows(k: Settings, plan: ParkPlan, before: seq<Event>, soFar: seq<Event>, after: seq<Event>, idx: int)
    requires idx >= 1 && ParkWrites(k, plan, before, soFar, idx - 1)
    requires |after| == |soFar| + 1 && after[..|soFar|] == soFar
    requires after[|soFar|].Write? && after[|soFar|].cmd == GripperPayload(k, ParkAt(plan, idx))
    requires idx > 1 ==> after[|soFar|].at >= soFar[|soFar| - 1].at + SleepS(plan)
    ensures ParkWrites(k, plan, before, after, idx)
  {
  }

  /** The calls after are those before and one write of `cmd`, made between the two times. */
  ghost predicate Wrote(before: seq<Event>, after: seq<Event>, cmd: Command, from: real, to: real)
  {
    |after| == |before| + 1 && after[..|before|] == before &&
    after[|before|].Write? && after[|before|].cmd == cmd && from <= after[|before|].at <= to
  }

  function GripperPayload(k: Settings, p: Pair): Command
  {
    map[Name(k.gripperLeftKey) := p.left][Name(k.gripperRightKey) := p.right]
  }

  /** The calls after are those before and the `n` first writes of a park move, each at least a sleep after the one before. */
  ghost predicate ParkWrites(k: Settings, plan: ParkPlan, before: seq<Event>, after: seq<Event>, n: nat)
  {
    && |after| == |before| + n && after[..|before|] == before
    && (forall i :: |before| <= i < |after| ==> after[i].Write? && after[i].cmd == GripperPayload(k, ParkAt(plan, i - |before| + 1)))
    && (forall i :: |before| < i < |after| ==> after[i].at >= after[i - 1].at + SleepS(plan))
  }

  lemma ParkWritesAreCalls(k: Settings, start: Pair, before: seq<Event>, after: seq<Event>)
    requires k.parkOnArmDisarm && k.gripperEnabled
    requires var plan := ParkPlanFrom(k, start); Interpolates(plan, !k.dryRun) && ParkWrites(k, plan, before, after, Steps(plan))
    ensures Calls(after) == Calls(before) + ParkCalls(k, start)
  {
    hide ParkPlanFrom, Interpolates, Steps, ParkAt, GripperPayload;
    assert forall i :: 0 <= i < |before| ==> after[i] == before[i];
  }

  lemma DisarmTurnsOff(c: Config, s: State, e: Event)
    requires Shaped(c, s) && e.Disarm?
    ensures !Pwm.Step(c, s, e).armed && (PwmOffConfigured(c) ==> !Pwm.Step(c, s, e).enabled)
  {
  }

  // ---------------------------------------------------------------- safety over all runs

  /** In every state a run can reach, the one that stop() leaves included: disarmed means a disarmed writer with neutral thruster counts out
      (and PWM off, if so configured); non-neutral counts mean armed, not a dry run, and a write made
      after the hold window of the arm before it. */
  lemma Safe(s: ControlService)
    requires s.DevicesValid() && s.Synced() && s.sink != null
    ensures !s.armed ==> !s.sink.armed && s.sink.pwm.thr == NeutralCounts(s.sink.c)
    ensures !s.armed && PwmOffConfigured(s.sink.c) ==> !s.sink.pwm.enabled
    ensures s.sink.pwm.thr != NeutralCounts(s.sink.c) ==>
      s.armed && !s.k.dryRun && s.sink.armed && s.sink.pwm.enabled && exists i :: PwmRuns.LiveTail(s.sink.c, s.sink.trace, i)
  {
    PwmRuns.NeutralUnlessLive(s.sink.c, s.sink.start, s.sink.trace);
  }

  /** The same at every moment inside the run, between any two calls the service ever made on the writer, those of stop() included. */
  lemma SafeThroughout(s: ControlService, n: nat)
    requires s.DevicesValid() && s.sink != null && n <= |s.sink.trace|
    ensures var w := Pwm.Run(s.sink.c, s.sink.start, s.sink.trace[..n]);
            w.thrOut != NeutralCounts(s.sink.c) ==> w.armed && w.enabled && exists i :: PwmRuns.LiveTail(s.sink.c, s.sink.trace[..n], i)
  {
    var events := s.sink.trace[..n];
    assert forall i :: 0 <= i < n ==> events[i] == s.sink.trace[i];
    PwmRuns.NeutralUnlessLive(s.sink.c, s.sink.start, events);
  }

  /** Nor is any command ever ahead of its slew rate: whatever the loop did, it is at most the rate times the time
      since the outputs were last forced neutral. */
  lemma SlewedThroughout(s: ControlService, i: nat)
    requires s.DevicesValid() && s.sink != null && s.sink.c.thrust.slewRate > 0.0
    requires i < |s.sink.c.thrusters|
    ensures var forced := PwmRuns.LastForced(s.sink.c, s.sink.start, s.sink.trace);
            && |s.sink.lastThr| == |s.sink.c.thrusters|
            && -1.0 <= s.sink.lastThr[i] <= 1.0
            && (forced.Some? ==> s.sink.lastThrT.Some?)
            && (forced.Some? ==> Abs(s.sink.lastThr[i]) <= PwmRuns.Travel(s.sink.c.thrust, s.sink.lastThrT.value - forced.value))
  {
    PwmRuns.SlewSinceForced(s.sink.c, s.sink.start, s.sink.trace);
  }

  /** And in time: armed after the latest tick means that tick was fresh, or the failsafe time has not run out. */
  lemma FailsafeReached(s: ControlService)
    requires s.Valid() && s.k.rules.failsafeDisarmS > 0.0 && s.armed && s.ticks != []
    ensures var last := s.ticks[|s.ticks| - 1];
            || Fresh(s.k.rules, last)
            || (FirstStale(s.k.rules, s.ticks).Some? && last.now - FirstStale(s.k.rules, s.ticks).value < s.k.rules.failsafeDisarmS)
  {
    FailsafeHolds(s.k.rules, s.ticks);
  }
}
