/** motion/pwm.py: normalised commands to PWM counts, and the writer that gates them. */
module Pwm {
  import opened Prelude

  // ---------------------------------------------------------------- configuration

  type Hz = f: real | f > 0.0 witness 50.0

  /** The three spellings under which a command can name a thruster. */
  datatype Key = Name(name: string) | Channel(channel: int) | ChannelText(channel: int)

  type Command = map<Key, real>

  datatype ThrustConfig = ThrustConfig(
    freqHz: Hz,
    neutralUs: int,
    spanUs: int,
    minUs: int,
    maxUs: int,
    deadbandNorm: real,
    deadbandUs: int,
    escInitHoldS: real,
    hardwareArmDisarm: bool,
    pwmRearmOffS: real,
    pwmDisarmHoldS: real,
    disablePwmOnDisarm: bool,
    keepPwmEnabledOnDisarm: bool,
    slewRate: real,
    slewReverseRate: Option<real>,
    slewDtMaxS: real)

  datatype Thruster = Thruster(name: string, channel: int, reversed: bool, trimUs: int)

  datatype AuxMode = Norm01 | Signed

  /** `spellings` is the name followed by its lower- and upper-case forms. */
  datatype AuxOutput = AuxOutput(
    spellings: seq<string>,
    minUs: int,
    maxUs: int,
    offUs: int,
    deadbandNorm: real,
    trimUs: int,
    mode: AuxMode,
    centerUs: int,
    allowWhenDisarmed: bool,
    forceOffOnDisarm: bool,
    centerOnDisarm: bool,
    disarmNorm: Option<real>,
    holdPwmOnDisarm: bool,
    slewNormPerS: real)

  datatype Config = Config(thrust: ThrustConfig, thrusters: seq<Thruster>, aux: seq<AuxOutput>)

  // ---------------------------------------------------------------- pulse arithmetic

  function UsToCount(pulseUs: real, freqHz: Hz): (count: int)
    ensures 0 <= count <= 4095
  {
    var periodUs := 1000000.0 / freqHz;
    var value := Round(4095.0 * (pulseUs / periodUs));
    if value < 0 then 0 else if value > 4095 then 4095 else value
  }

  function ThrustToUs(c: ThrustConfig, thrust: real): int
  {
    PulseFor(c, Clamp(if Abs(thrust) < c.deadbandNorm then 0.0 else thrust, -1.0, 1.0))
  }

  function PulseFor(c: ThrustConfig, t: real): int
  {
    LinePulse(c.neutralUs as real, c.spanUs as real, t, c.minUs as real, c.maxUs as real)
  }

  function LinePulse(neutral: real, span: real, t: real, lo: real, hi: real): int
  {
    Round(Clamp(neutral + Product(span, t), lo, hi))
  }

  /** Trim comes after the min/max clamp; the microsecond deadband comes after the trim. */
  function ChannelPulse(c: ThrustConfig, trimUs: int, t: real): int
  {
    var pulse := ThrustToUs(c, t) + trimUs;
    if -c.deadbandUs < pulse - c.neutralUs < c.deadbandUs then c.neutralUs else pulse
  }

  function ChannelCount(c: ThrustConfig, trimUs: int, t: real): int
  {
    UsToCount(ChannelPulse(c, trimUs, t) as real, c.freqHz)
  }

  function NeutralCount(c: ThrustConfig): int
  {
    UsToCount(c.neutralUs as real, c.freqHz)
  }

  function NeutralCounts(c: Config): seq<int>
  {
    seq(|c.thrusters|, i => NeutralCount(c.thrust))
  }

  function AuxNormToCount(c: Config, a: AuxOutput, norm: real): int
  {
    var lo := Min(a.minUs as real, a.maxUs as real);
    var hi := Max(a.minUs as real, a.maxUs as real);
    var pulse :=
      if a.mode.Signed? then
        var v := Clamp(if Abs(norm) < a.deadbandNorm then 0.0 else norm, -1.0, 1.0);
        var center := a.centerUs as real;
        if v >= 0.0 then center + (a.maxUs as real - center) * v
        else center + (center - a.minUs as real) * v
      else
        var v := Clamp(if norm < a.deadbandNorm then 0.0 else norm, 0.0, 1.0);
        if v <= 0.0 then a.offUs as real
        else a.minUs as real + (a.maxUs as real - a.minUs as real) * v;
    UsToCount(Clamp(pulse + a.trimUs as real, lo, hi), c.thrust.freqHz)
  }

  function AuxDisarmCount(c: Config, a: AuxOutput): int
  {
    if a.disarmNorm.Some? then AuxNormToCount(c, a, a.disarmNorm.value)
    else if a.mode.Signed? then
      var lo := Min(a.minUs as real, a.maxUs as real);
      var hi := Max(a.minUs as real, a.maxUs as real);
      UsToCount(Clamp(a.centerUs as real + a.trimUs as real, lo, hi), c.thrust.freqHz)
    else AuxNormToCount(c, a, 0.0)
  }

  function AuxDefaults(c: Config): seq<int>
  {
    seq(|c.aux|, i requires 0 <= i < |c.aux| => AuxNormToCount(c, c.aux[i], 0.0))
  }

  function AuxOnDisarm(c: Config, a: AuxOutput, last: int): int
  {
    if a.forceOffOnDisarm then AuxNormToCount(c, a, 0.0)
    else if a.centerOnDisarm || a.disarmNorm.Some? then AuxDisarmCount(c, a)
    else last
  }

  function AuxOnShutdown(c: Config, a: AuxOutput): int
  {
    AuxOnDisarm(c, a, AuxNormToCount(c, a, 0.0))
  }

  // ---------------------------------------------------------------- slew limiting

  function SlewDtCap(c: ThrustConfig): real
  {
    if c.slewDtMaxS == 0.0 then 0.10 else c.slewDtMaxS
  }

  /** Time credited to one slew step: never negative, capped so that a stalled loop does not catch up. */
  function SlewDt(c: ThrustConfig, last: Option<real>, now: real): (dt: real)
    ensures dt >= 0.0
    ensures last.Some? && last.value <= now ==> dt <= now - last.value
    ensures last.None? ==> dt == 0.0
    ensures SlewDtCap(c) > 0.0 ==> dt <= SlewDtCap(c)
    ensures last.Some? && last.value <= now && (SlewDtCap(c) <= 0.0 || now - last.value <= SlewDtCap(c)) ==> dt == now - last.value
  {
    var raw := if last.None? then 0.0 else Max(0.0, now - last.value);
    if SlewDtCap(c) > 0.0 then Min(raw, SlewDtCap(c)) else raw
  }

  function ReverseRate(c: ThrustConfig): real
  {
    if c.slewReverseRate.Some? && c.slewReverseRate.value > 0.0 then c.slewReverseRate.value else c.slewRate
  }

  /** Move `p` towards `t` by at most `maxDelta`. */
  function Approach(p: real, t: real, maxDelta: real): (v: real)
    ensures maxDelta >= 0.0 ==> (p <= v <= t || t <= v <= p) && Abs(v - p) <= maxDelta
    ensures Abs(t - p) <= maxDelta ==> v == t
  {
    var delta := t - p;
    if delta > maxDelta then p + maxDelta else if delta < -maxDelta then p - maxDelta else t
  }

  function Allowance(c: ThrustConfig, p: real, t: real, dt: real): real
  {
    var reversing := (p > 0.0 && t < 0.0) || (p < 0.0 && t > 0.0);
    (if reversing then Min(c.slewRate, ReverseRate(c)) else c.slewRate) * dt
  }

  function SlewOne(c: ThrustConfig, prev: real, target: real, dt: real): real
  {
    var p := Clamp(prev, -1.0, 1.0);
    var t := Clamp(target, -1.0, 1.0);
    Clamp(Approach(p, t, Allowance(c, p, t, dt)), -1.0, 1.0)
  }

  function SlewLimit(c: ThrustConfig, last: seq<real>, lastT: Option<real>, targets: seq<real>, now: real): (out: seq<real>)
    ensures |out| == |targets|
  {
    if c.slewRate <= 0.0 then
      seq(|targets|, i requires 0 <= i < |targets| => Clamp(targets[i], -1.0, 1.0))
    else
      var prev := if |last| == |targets| then last else Zeros(|targets|);
      seq(|targets|, i requires 0 <= i < |targets| => SlewOne(c, prev[i], targets[i], SlewDt(c, lastT, now)))
  }

  function Zeros(n: nat): seq<real>
  {
    seq(n, i => 0.0)
  }

  // ---------------------------------------------------------------- command lookup

  function CommandFor(cmd: Command, t: Thruster): real
  {
    if Name(t.name) in cmd then cmd[Name(t.name)]
    else if Channel(t.channel) in cmd then cmd[Channel(t.channel)]
    else if ChannelText(t.channel) in cmd then cmd[ChannelText(t.channel)]
    else 0.0
  }

  function Target(c: ThrustConfig, t: Thruster, cmd: Command): (r: real)
    ensures -1.0 <= r <= 1.0
  {
    var v := if t.reversed then -CommandFor(cmd, t) else CommandFor(cmd, t);
    Clamp(if Abs(v) < c.deadbandNorm then 0.0 else v, -1.0, 1.0)
  }

  function Targets(c: Config, cmd: Command): (targets: seq<real>)
    ensures |targets| == |c.thrusters|
  {
    seq(|c.thrusters|, i requires 0 <= i < |c.thrusters| => Target(c.thrust, c.thrusters[i], cmd))
  }

  function Counts(c: Config, slewed: seq<real>): seq<int>
    requires |slewed| == |c.thrusters|
  {
    seq(|slewed|, i requires 0 <= i < |slewed| => ChannelCount(c.thrust, c.thrusters[i].trimUs, slewed[i]))
  }

  function FirstSpelling(spellings: seq<string>, cmd: Command): Option<real>
  {
    if spellings == [] then None
    else if Name(spellings[0]) in cmd then Some(cmd[Name(spellings[0])])
    else FirstSpelling(spellings[1..], cmd)
  }

  /** The norm to remember for one aux output; None when the command does not mention it. */
  function AuxTarget(a: AuxOutput, cmd: Command, prev: Option<real>, dt: real): Option<real>
  {
    var v := FirstSpelling(a.spellings, cmd);
    if v.None? then None
    else if a.slewNormPerS > 0.0 && prev.Some? && dt > 0.0 then
      var maxDelta := a.slewNormPerS * dt;
      Some(if v.value > prev.value + maxDelta then prev.value + maxDelta
           else if v.value < prev.value - maxDelta then prev.value - maxDelta
           else v.value)
    else v
  }

  // ---------------------------------------------------------------- writer state

  datatype State = State(
    armed: bool,
    armingUntil: real,
    lastThr: seq<real>,
    lastThrT: Option<real>,
    lastAux: seq<int>,
    lastAuxNorm: seq<Option<real>>,
    lastAuxT: Option<real>,
    enabled: bool,
    thrOut: seq<int>,
    auxOut: seq<int>)

  /** What reaches the writer. Times are what the clock read inside the call. */
  datatype Event =
    | Arm(holdFrom: real, at: real)
    | Disarm(at: real)
    | Shutdown(at: real)
    | Write(cmd: Command, at: real)

  predicate Shaped(c: Config, s: State)
  {
    |s.lastThr| == |c.thrusters| && |s.lastAux| == |c.aux| && |s.lastAuxNorm| == |c.aux|
  }

  function NoNorms(n: nat): seq<Option<real>>
  {
    seq(n, i => None)
  }

  /** Just after construction, PWM not enabled. */
  function Boot(c: Config): (s: State)
    ensures Shaped(c, s)
  {
    State(false, 0.0, Zeros(|c.thrusters|), None, AuxDefaults(c), NoNorms(|c.aux|), None,
          false, NeutralCounts(c), AuxDefaults(c))
  }

  predicate DisablesOnDisarm(c: ThrustConfig)
  {
    if c.hardwareArmDisarm then c.disablePwmOnDisarm else !c.keepPwmEnabledOnDisarm
  }

  predicate AuxHoldsPwm(c: Config)
  {
    exists a :: a in c.aux && a.holdPwmOnDisarm
  }

  predicate Holding(s: State, now: real)
  {
    s.armingUntil != 0.0 && now < s.armingUntil
  }

  function ForceNeutral(c: Config, s: State, at: real, aux: seq<int>): State
  {
    s.(lastThr := Zeros(|c.thrusters|), lastThrT := Some(at), thrOut := NeutralCounts(c), auxOut := aux)
  }

  function ForgetAux(c: Config, s: State): State
  {
    s.(lastAuxNorm := NoNorms(|c.aux|), lastAuxT := None)
  }

  function ArmState(c: Config, s: State, holdFrom: real, at: real): State
  {
    var hold := c.thrust.escInitHoldS;
    var armed := s.(armed := true, armingUntil := if hold > 0.0 then holdFrom + hold else 0.0, enabled := true);
    ForceNeutral(c, ForgetAux(c, armed), at, s.lastAux)
  }

  function AuxAfterDisarm(c: Config, last: seq<int>): (aux: seq<int>)
    requires |last| == |c.aux|
    ensures |aux| == |c.aux|
  {
    seq(|c.aux|, i requires 0 <= i < |c.aux| => AuxOnDisarm(c, c.aux[i], last[i]))
  }

  function DisarmState(c: Config, s: State, at: real): State
    requires Shaped(c, s)
  {
    var aux := AuxAfterDisarm(c, s.lastAux);
    var off := DisablesOnDisarm(c.thrust) && !AuxHoldsPwm(c);
    var parked := s.(armed := false, armingUntil := 0.0, lastAux := aux, enabled := s.enabled && !off);
    ForceNeutral(c, ForgetAux(c, parked), at, aux)
  }

  /** shutdown() leaves the arming deadline, the aux memory and the aux slew history as they were. */
  function ShutdownState(c: Config, s: State, at: real): State
  {
    var aux := seq(|c.aux|, i requires 0 <= i < |c.aux| => AuxOnShutdown(c, c.aux[i]));
    ForceNeutral(c, s.(armed := false, enabled := false), at, aux)
  }

  function AuxStep(c: Config, s: State, cmd: Command, now: real): (s': State)
    requires Shaped(c, s)
    ensures Shaped(c, s')
  {
    if |c.aux| == 0 then s else
    var dt := SlewDt(c.thrust, s.lastAuxT, now);
    var norms := seq(|c.aux|, i requires 0 <= i < |c.aux| =>
      var v := AuxTarget(c.aux[i], cmd, s.lastAuxNorm[i], dt); if v.Some? then v else s.lastAuxNorm[i]);
    var counts := seq(|c.aux|, i requires 0 <= i < |c.aux| =>
      var v := AuxTarget(c.aux[i], cmd, s.lastAuxNorm[i], dt);
      if v.None? || (!s.armed && !c.aux[i].allowWhenDisarmed) then s.lastAux[i]
      else AuxNormToCount(c, c.aux[i], v.value));
    s.(lastAux := counts, lastAuxNorm := norms, lastAuxT := Some(now))
  }

  function WriteState(c: Config, s: State, cmd: Command, now: real): State
    requires Shaped(c, s)
  {
    var a := AuxStep(c, s, cmd, now);
    if !s.armed && DisablesOnDisarm(c.thrust) && !s.enabled then a
    else if !s.armed || Holding(s, now) then
      ForceNeutral(c, a.(enabled := true), now, a.lastAux)
    else
      var slewed := SlewLimit(c.thrust, a.lastThr, a.lastThrT, Targets(c, cmd), now);
      a.(enabled := true, lastThr := slewed, lastThrT := Some(now), thrOut := Counts(c, slewed), auxOut := a.lastAux)
  }

  function Step(c: Config, s: State, e: Event): (s': State)
    requires Shaped(c, s)
    ensures Shaped(c, s')
  {
    match e
    case Arm(holdFrom, at) => ArmState(c, s, holdFrom, at)
    case Disarm(at) => DisarmState(c, s, at)
    case Shutdown(at) => ShutdownState(c, s, at)
    case Write(cmd, at) => WriteState(c, s, cmd, at)
  }

  function Run(c: Config, s: State, events: seq<Event>): (s': State)
    requires Shaped(c, s)
    ensures Shaped(c, s')
  {
    if events == [] then s else Step(c, Run(c, s, events[..|events| - 1]), events[|events| - 1])
  }
}
