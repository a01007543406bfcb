/** motion/pwm.py: what a write puts out, in terms of the command, the configuration and the clock alone. */
module PwmLaws {
  import opened Prelude
  import opened Pwm

  // ---------------------------------------------------------------- from command to slewed value

  /** The value a command has for a thruster: by its name, else by its channel number, else by that number as text, else 0. */
  predicate Commands(cmd: Command, t: Thruster, v: real)
  {
    if Name(t.name) in cmd then cmd[Name(t.name)] == v
    else if Channel(t.channel) in cmd then cmd[Channel(t.channel)] == v
    else if ChannelText(t.channel) in cmd then cmd[ChannelText(t.channel)] == v
    else v == 0.0
  }

  /** A write that is let through: armed, and not before the end of the hold. */
  predicate Live(s: State, now: real)
  {
    s.armed && (s.armingUntil == 0.0 || s.armingUntil <= now)
  }

  /** Slewing is off, or enough time is credited for any move, in either direction. */
  predicate TimeEnough(c: ThrustConfig, s: State, now: real)
  {
    || c.slewRate <= 0.0
    || (c.slewRate * SlewDt(c, s.lastThrT, now) >= 2.0
        && (c.slewReverseRate.Some? && c.slewReverseRate.value > 0.0 ==> c.slewReverseRate.value * SlewDt(c, s.lastThrT, now) >= 2.0))
  }

  /** A settled thruster is driven to the commanded value, and to minus that value if it is reversed; a value inside the
      deadband is none, one beyond full is full. */
  lemma WriteReaches(c: Config, s: State, cmd: Command, now: real, i: nat, v: real)
    requires Shaped(c, s) && i < |c.thrusters| && -1.0 <= s.lastThr[i] <= 1.0
    requires Live(s, now) && TimeEnough(c.thrust, s, now) && Commands(cmd, c.thrusters[i], v)
    ensures var at := Step(c, s, Write(cmd, now)).lastThr[i];
            && (Abs(v) >= c.thrust.deadbandNorm && -1.0 <= v <= 1.0 ==> at == if c.thrusters[i].reversed then -v else v)
            && (Abs(v) >= c.thrust.deadbandNorm && v > 1.0 ==> at == if c.thrusters[i].reversed then -1.0 else 1.0)
            && (Abs(v) >= c.thrust.deadbandNorm && v < -1.0 ==> at == if c.thrusters[i].reversed then 1.0 else -1.0)
            && (Abs(v) < c.thrust.deadbandNorm ==> at == 0.0)
  {
    hide Step, SlewOne, SlewDt, Target;
    LiveSlews(c, s, cmd, now, i);
    TargetOf(c.thrust, c.thrusters[i], cmd, v);
    if c.thrust.slewRate > 0.0 {
      LandsInTime(c.thrust, s.lastThr[i], Target(c.thrust, c.thrusters[i], cmd), SlewDt(c.thrust, s.lastThrT, now));
    }
  }

  lemma TargetOf(c: ThrustConfig, t: Thruster, cmd: Command, v: real)
    requires Commands(cmd, t, v)
    ensures var w := if t.reversed then -v else v;
            Target(c, t, cmd) == if Abs(v) < c.deadbandNorm then 0.0 else if w > 1.0 then 1.0 else if w < -1.0 then -1.0 else w
  {
  }

  lemma LiveSlews(c: Config, s: State, cmd: Command, now: real, i: nat)
    requires Shaped(c, s) && i < |c.thrusters| && Live(s, now)
    ensures var s', target := Step(c, s, Write(cmd, now)), Target(c.thrust, c.thrusters[i], cmd);
            && s'.lastThr[i] == (if c.thrust.slewRate <= 0.0 then target
                                 else SlewOne(c.thrust, s.lastThr[i], target, SlewDt(c.thrust, s.lastThrT, now)))
            && |s'.thrOut| == |c.thrusters| && s'.thrOut[i] == ChannelCount(c.thrust, c.thrusters[i].trimUs, s'.lastThr[i])
            && s'.enabled && s'.lastThrT == Some(now)
  {
    hide SlewOne, SlewDt, Target, ChannelCount, AuxTarget;
  }

  lemma LandsInTime(c: ThrustConfig, p: real, t: real, dt: real)
    requires c.slewRate > 0.0 && dt >= 0.0 && -1.0 <= p <= 1.0 && -1.0 <= t <= 1.0
    requires c.slewRate * dt >= 2.0
    requires c.slewReverseRate.Some? && c.slewReverseRate.value > 0.0 ==> c.slewReverseRate.value * dt >= 2.0
    ensures SlewOne(c, p, t, dt) == t
  {
    assert Allowance(c, p, t, dt) >= 2.0;
    hide Allowance;
  }

  /** Two thrusters that differ only in being reversed, coming from opposite values, stay opposite under any command. */
  lemma ReversedGoesOpposite(c: Config, s: State, cmd: Command, now: real, i: nat, j: nat)
    requires Shaped(c, s) && i < |c.thrusters| && j < |c.thrusters| && Live(s, now)
    requires c.thrusters[j] == c.thrusters[i].(reversed := !c.thrusters[i].reversed)
    requires s.lastThr[j] == -s.lastThr[i]
    ensures Step(c, s, Write(cmd, now)).lastThr[j] == -Step(c, s, Write(cmd, now)).lastThr[i]
  {
    hide Step, SlewDt, SlewOne, Target;
    LiveSlews(c, s, cmd, now, i);
    LiveSlews(c, s, cmd, now, j);
    TargetOdd(c.thrust, c.thrusters[i], cmd);
    SlewOdd(c.thrust, s.lastThr[i], Target(c.thrust, c.thrusters[i], cmd), SlewDt(c.thrust, s.lastThrT, now));
  }

  lemma TargetOdd(c: ThrustConfig, t: Thruster, cmd: Command)
    ensures Target(c, t.(reversed := !t.reversed), cmd) == -Target(c, t, cmd)
  {
  }

  lemma SlewOdd(c: ThrustConfig, p: real, t: real, dt: real)
    requires dt >= 0.0
    ensures c.slewRate > 0.0 ==> SlewOne(c, -p, -t, dt) == -SlewOne(c, p, t, dt)
  {
    hide Allowance, Approach;
    var a, b := Clamp(p, -1.0, 1.0), Clamp(t, -1.0, 1.0);
    AllowanceOdd(c, a, b, dt);
    if c.slewRate > 0.0 {
      AllowanceSign(c, a, b, dt);
      ApproachOdd(a, b, Allowance(c, a, b, dt));
    }
  }

  lemma AllowanceOdd(c: ThrustConfig, p: real, t: real, dt: real)
    ensures Allowance(c, -p, -t, dt) == Allowance(c, p, t, dt)
  {
  }

  lemma ApproachOdd(p: real, t: real, step: real)
    requires step >= 0.0
    ensures Approach(-p, -t, step) == -Approach(p, t, step)
  {
  }

  lemma AllowanceSign(c: ThrustConfig, p: real, t: real, dt: real)
    requires c.slewRate > 0.0 && dt >= 0.0
    ensures Allowance(c, p, t, dt) >= 0.0
  {
    MulOrder(0.0, Min(c.slewRate, ReverseRate(c)), dt);
    MulOrder(0.0, c.slewRate, dt);
  }

  /** The slower of the two rates; a reverse rate that is absent or not positive does not count. */
  function SlowerRate(c: ThrustConfig): real
  {
    match c.slewReverseRate
    case Some(r) => if 0.0 < r < c.slewRate then r else c.slewRate
    case None => c.slewRate
  }

  /** The slewed value moves at the configured rate. While the sign is to change it moves at the reverse rate, if that is
      slower. */
  lemma SlewRates(c: ThrustConfig, p: real, t: real, dt: real)
    requires c.slewRate > 0.0 && dt >= 0.0 && -1.0 <= p <= 1.0 && -1.0 <= t <= 1.0
    ensures (p >= 0.0 && t >= 0.0) || (p <= 0.0 && t <= 0.0) ==>
              SlewOne(c, p, t, dt) == if t > p then Min(t, p + Product(c.slewRate, dt)) else Max(t, p - Product(c.slewRate, dt))
    ensures p > 0.0 > t ==>
              SlewOne(c, p, t, dt) == Max(t, p - Product(SlowerRate(c), dt))
  {
    hide Allowance, Approach, SlowerRate, Product;
    AllowanceIs(c, p, t, dt);
    AllowanceSign(c, p, t, dt);
    ApproachIs(p, t, Allowance(c, p, t, dt));
  }

  lemma AllowanceIs(c: ThrustConfig, p: real, t: real, dt: real)
    ensures (p >= 0.0 && t >= 0.0) || (p <= 0.0 && t <= 0.0) ==> Allowance(c, p, t, dt) == Product(c.slewRate, dt)
    ensures p > 0.0 > t ==> Allowance(c, p, t, dt) == Product(SlowerRate(c), dt)
  {
  }

  lemma ApproachIs(p: real, t: real, step: real)
    requires step >= 0.0
    ensures Approach(p, t, step) == if t > p then Min(t, p + step) else Max(t, p - step)
  {
  }

  /** The cap on credited time is the configured one; a cap of 0 stands for a tenth of a second, a negative one for none. */
  lemma CreditCap(c: ThrustConfig, last: real, now: real)
    requires last <= now
    ensures c.slewDtMaxS > 0.0 ==> SlewDt(c, Some(last), now) == Min(now - last, c.slewDtMaxS)
    ensures c.slewDtMaxS == 0.0 ==> SlewDt(c, Some(last), now) == Min(now - last, 0.10)
    ensures c.slewDtMaxS < 0.0 ==> SlewDt(c, Some(last), now) == now - last
  {
  }

  // ---------------------------------------------------------------- from slewed value to pulse and count

  /** Inside the limits the pulse is neutral plus the span times the value, to the nearest microsecond, plus the trim,
      unless that is within the microsecond deadband of neutral. */
  lemma PulseLine(c: ThrustConfig, trimUs: int, t: real)
    requires -1.0 <= t <= 1.0 && Abs(t) >= c.deadbandNorm
    requires c.minUs as real <= c.neutralUs as real + c.spanUs as real * t <= c.maxUs as real
    ensures var line, pulse := c.neutralUs as real + c.spanUs as real * t + trimUs as real, ChannelPulse(c, trimUs, t);
            pulse != c.neutralUs ==> -0.5 <= pulse as real - line <= 0.5 && (pulse - c.neutralUs >= c.deadbandUs || c.neutralUs - pulse >= c.deadbandUs)
    ensures var line := c.neutralUs as real + c.spanUs as real * t + trimUs as real;
            line - c.neutralUs as real > c.deadbandUs as real + 0.5 || c.neutralUs as real - line > c.deadbandUs as real + 0.5 ==>
              -0.5 <= ChannelPulse(c, trimUs, t) as real - line <= 0.5
  {
    assert Product(c.spanUs as real, t) == c.spanUs as real * t;
    hide Product, Round;
  }

  /** Neutral for a pulse closer to it than the microsecond deadband. */
  function Settle(c: ThrustConfig, pulse: int): int
  {
    if pulse - c.neutralUs < c.deadbandUs && c.neutralUs - pulse < c.deadbandUs then c.neutralUs else pulse
  }

  /** Beyond the limits the pulse is the limit plus the trim, unless that is within the deadband of neutral; full command is as far as any command goes. */
  lemma PulseLimits(c: ThrustConfig, trimUs: int, t: real)
    requires c.minUs <= c.maxUs && -1.0 <= t <= 1.0 && Abs(t) >= c.deadbandNorm
    ensures var line := c.neutralUs as real + Product(c.spanUs as real, t);
            && (line >= c.maxUs as real ==> ChannelPulse(c, trimUs, t) == Settle(c, c.maxUs + trimUs))
            && (line <= c.minUs as real ==> ChannelPulse(c, trimUs, t) == Settle(c, c.minUs + trimUs))
            && (c.minUs <= c.neutralUs <= c.maxUs ==> c.minUs <= ChannelPulse(c, 0, t) <= c.maxUs)
    ensures forall u :: u > 1.0 && c.deadbandNorm <= 1.0 ==> ChannelPulse(c, trimUs, u) == ChannelPulse(c, trimUs, 1.0)
    ensures forall u :: u < -1.0 && c.deadbandNorm <= 1.0 ==> ChannelPulse(c, trimUs, u) == ChannelPulse(c, trimUs, -1.0)
  {
    hide Product;
    var line := c.neutralUs as real + Product(c.spanUs as real, t);
    RoundMonotone(c.minUs as real, Clamp(line, c.minUs as real, c.maxUs as real));
    RoundMonotone(Clamp(line, c.minUs as real, c.maxUs as real), c.maxUs as real);
    hide Round;
    assert Round(c.minUs as real) == c.minUs && Round(c.maxUs as real) == c.maxUs;
  }

  /** A count is the pulse's share of the period, in 4095ths, to the nearest, and never outside the register. */
  lemma CountOfPulse(pulseUs: real, freqHz: Hz)
    ensures var share, count := 4095.0 * pulseUs * freqHz / 1000000.0, UsToCount(pulseUs, freqHz);
            && (0.0 <= share <= 4095.0 ==> -0.5 <= count as real - share <= 0.5)
            && (share < 0.0 ==> count == 0)
            && (share > 4095.0 ==> count == 4095)
  {
    ShareOfPeriod(pulseUs, freqHz);
    hide Round;
    var r := Round(4095.0 * (pulseUs / (1000000.0 / freqHz)));
  }

  lemma ShareOfPeriod(pulseUs: real, f: real)
    requires f > 0.0
    ensures 1000000.0 / f > 0.0 && 4095.0 * (pulseUs / (1000000.0 / f)) == 4095.0 * pulseUs * f / 1000000.0
  {
    var period := 1000000.0 / f;
    Inverse(f);
    assert period * f == 1000000.0;
    var q := pulseUs / period;
    assert q * period == pulseUs;
    assert q * (period * f) == pulseUs * f;
  }

  /** The shipped thrusters at 50 Hz: neutral, half and full, forward and reverse, as counts; a reversed one at half
      forward gets what a plain one gets at half reverse. */
  lemma ShippedCounts(c: ThrustConfig)
    requires c.freqHz == 50.0 && c.neutralUs == 1500 && c.spanUs == 400 && c.minUs == 1100 && c.maxUs == 1900
    requires c.deadbandNorm == 0.03 && c.deadbandUs == 12
    ensures ChannelCount(c, 0, 0.0) == NeutralCount(c) == 307
    ensures ChannelCount(c, 0, 0.5) == 348 && ChannelCount(c, 0, -0.5) == 266
    ensures ChannelCount(c, 0, 1.0) == 389 && ChannelCount(c, 0, -1.0) == 225
    ensures ChannelCount(c, 0, 0.02) == 307 && ChannelCount(c, 0, 2.0) == 389
    ensures ChannelCount(c, 10, 0.5) == 350 && ChannelCount(c, 10, 0.0) == 307 && ChannelCount(c, 20, 0.0) == 311
  {
    assert Product(400.0, 0.0) == 0.0 && Product(400.0, 0.5) == 200.0 && Product(400.0, -0.5) == -200.0;
    assert Product(400.0, 1.0) == 400.0 && Product(400.0, -1.0) == -400.0;
  }

  // ---------------------------------------------------------------- what disarming turns off

  /** A disarm leaves PWM on if and only if it was on and is kept so: by the switch that counts, one with
      hardware arming and another without, or by any auxiliary output that asks for it. */
  lemma OnAfterDisarmExactly(c: Config, s: State, at: real)
    requires Shaped(c, s)
    ensures var kept := if c.thrust.hardwareArmDisarm then !c.thrust.disablePwmOnDisarm else c.thrust.keepPwmEnabledOnDisarm;
            Step(c, s, Disarm(at)).enabled <==> s.enabled && (kept || exists i :: 0 <= i < |c.aux| && c.aux[i].holdPwmOnDisarm)
  {
    hide AuxOnDisarm;
    if a :| a in c.aux && a.holdPwmOnDisarm {
      var i :| 0 <= i < |c.aux| && c.aux[i] == a;
    }
    if i :| 0 <= i < |c.aux| && c.aux[i].holdPwmOnDisarm {
      assert c.aux[i] in c.aux;
    }
  }

  /** Where each call leaves the auxiliary outputs. */
  lemma AuxAfterCalls(c: Config, s: State, holdFrom: real, at: real, i: nat)
    requires Shaped(c, s) && i < |c.aux|
    ensures var a, off := c.aux[i], AuxNormToCount(c, c.aux[i], 0.0);
            && Boot(c).auxOut[i] == Boot(c).lastAux[i] == off
            && Step(c, s, Arm(holdFrom, at)).auxOut[i] == s.lastAux[i]
            && Step(c, s, Disarm(at)).auxOut[i] == Step(c, s, Disarm(at)).lastAux[i]
            && (a.forceOffOnDisarm ==> Step(c, s, Disarm(at)).auxOut[i] == off && Step(c, s, Shutdown(at)).auxOut[i] == off)
            && (!a.forceOffOnDisarm && a.disarmNorm.Some? ==>
                  Step(c, s, Disarm(at)).auxOut[i] == Step(c, s, Shutdown(at)).auxOut[i] == AuxNormToCount(c, a, a.disarmNorm.value))
            && (!a.forceOffOnDisarm && a.disarmNorm.None? && !a.centerOnDisarm ==>
                  Step(c, s, Disarm(at)).auxOut[i] == s.lastAux[i] && Step(c, s, Shutdown(at)).auxOut[i] == off)
            && Step(c, s, Shutdown(at)).lastAux == s.lastAux
  {
    hide AuxNormToCount;
  }

  // ---------------------------------------------------------------- auxiliary outputs

  /** A signed output with no trim: full either way, half, rest, and inside the deadband. */
  lemma SignedAux(c: Config, a: AuxOutput)
    requires a.mode.Signed? && a.trimUs == 0 && a.minUs <= a.centerUs <= a.maxUs && 0.0 <= a.deadbandNorm <= 0.5
    ensures AuxNormToCount(c, a, 1.0) == UsToCount(a.maxUs as real, c.thrust.freqHz)
    ensures AuxNormToCount(c, a, -1.0) == UsToCount(a.minUs as real, c.thrust.freqHz)
    ensures AuxNormToCount(c, a, 0.0) == UsToCount(a.centerUs as real, c.thrust.freqHz)
    ensures AuxNormToCount(c, a, 0.5) == UsToCount((a.centerUs as real + a.maxUs as real) / 2.0, c.thrust.freqHz)
    ensures AuxNormToCount(c, a, -0.5) == UsToCount((a.centerUs as real + a.minUs as real) / 2.0, c.thrust.freqHz)
    ensures AuxNormToCount(c, a, 5.0) == AuxNormToCount(c, a, 1.0) && AuxNormToCount(c, a, -5.0) == AuxNormToCount(c, a, -1.0)
    ensures forall v :: Abs(v) < a.deadbandNorm ==> AuxNormToCount(c, a, v) == AuxNormToCount(c, a, 0.0)
    ensures a.disarmNorm.None? ==> AuxDisarmCount(c, a) == AuxNormToCount(c, a, 0.0)
  {
    hide UsToCount, AuxNormToCount, Product;
    forall norm ensures AuxNormToCount(c, a, norm) == UsToCount(SignedPulse(a, norm), c.thrust.freqHz) {
      SignedCount(c, a, norm);
    }
    Halves(a.maxUs as real - a.centerUs as real);
    Halves(a.centerUs as real - a.minUs as real);
  }

  /** The pulse of a signed output. */
  function SignedPulse(a: AuxOutput, norm: real): real
  {
    var v := Clamp(if Abs(norm) < a.deadbandNorm then 0.0 else norm, -1.0, 1.0);
    var center, up, down := a.centerUs as real, a.maxUs as real - a.centerUs as real, a.centerUs as real - a.minUs as real;
    Clamp(center + Product(if v >= 0.0 then up else down, v) + a.trimUs as real,
          Min(a.minUs as real, a.maxUs as real), Max(a.minUs as real, a.maxUs as real))
  }

  lemma SignedCount(c: Config, a: AuxOutput, norm: real)
    requires a.mode.Signed?
    ensures AuxNormToCount(c, a, norm) == UsToCount(SignedPulse(a, norm), c.thrust.freqHz)
  {
    hide UsToCount;
  }

  lemma Halves(x: real)
    ensures Product(x, 0.0) == 0.0 && Product(x, 1.0) == x && Product(x, -1.0) == -x
    ensures Product(x, 0.5) == x / 2.0 && Product(x, -0.5) == -x / 2.0
  {
  }

  /** A one-sided output with no trim: off at rest and below the deadband, then from its least to its most. */
  lemma OneSidedAux(c: Config, a: AuxOutput)
    requires a.mode.Norm01? && a.trimUs == 0 && a.minUs <= a.offUs <= a.maxUs && 0.0 <= a.deadbandNorm <= 0.5
    ensures AuxNormToCount(c, a, 1.0) == UsToCount(a.maxUs as real, c.thrust.freqHz)
    ensures AuxNormToCount(c, a, 0.5) == UsToCount((a.minUs as real + a.maxUs as real) / 2.0, c.thrust.freqHz)
    ensures AuxNormToCount(c, a, 5.0) == AuxNormToCount(c, a, 1.0)
    ensures forall v :: v < a.deadbandNorm ==> AuxNormToCount(c, a, v) == UsToCount(a.offUs as real, c.thrust.freqHz)
    ensures AuxNormToCount(c, a, 0.0) == UsToCount(a.offUs as real, c.thrust.freqHz)
    ensures a.disarmNorm.None? ==> AuxDisarmCount(c, a) == AuxNormToCount(c, a, 0.0)
  {
    hide UsToCount, AuxNormToCount, Product;
    forall norm ensures AuxNormToCount(c, a, norm) == UsToCount(OneSidedPulse(a, norm), c.thrust.freqHz) {
      OneSidedCount(c, a, norm);
    }
    Halves(a.maxUs as real - a.minUs as real);
  }

  /** The pulse of a one-sided output. */
  function OneSidedPulse(a: AuxOutput, norm: real): real
  {
    var v := Clamp(if norm < a.deadbandNorm then 0.0 else norm, 0.0, 1.0);
    var pulse := if v <= 0.0 then a.offUs as real else a.minUs as real + Product(a.maxUs as real - a.minUs as real, v);
    Clamp(pulse + a.trimUs as real, Min(a.minUs as real, a.maxUs as real), Max(a.minUs as real, a.maxUs as real))
  }

  lemma OneSidedCount(c: Config, a: AuxOutput, norm: real)
    requires a.mode.Norm01?
    ensures AuxNormToCount(c, a, norm) == UsToCount(OneSidedPulse(a, norm), c.thrust.freqHz)
  {
    hide UsToCount;
  }

  /** At disarm an output goes to its disarm value, else to rest, trim and all, whichever way round its limits are. */
  lemma AuxAtDisarm(c: Config, a: AuxOutput)
    ensures a.disarmNorm.None? ==> AuxDisarmCount(c, a) == AuxNormToCount(c, a, 0.0)
    ensures a.disarmNorm.Some? ==> AuxDisarmCount(c, a) == AuxNormToCount(c, a, a.disarmNorm.value)
  {
    hide UsToCount, AuxNormToCount, Product;
    if a.mode.Signed? {
      SignedCount(c, a, 0.0);
    }
    Halves(a.maxUs as real - a.centerUs as real);
  }

  /** The trim moves the pulse before the clamp, for either kind. */
  lemma AuxTrim(c: Config, a: AuxOutput)
    requires a.minUs <= a.maxUs
    ensures a.mode.Signed? && a.minUs <= a.centerUs + a.trimUs <= a.maxUs ==>
              AuxNormToCount(c, a, 0.0) == UsToCount((a.centerUs + a.trimUs) as real, c.thrust.freqHz)
    ensures a.mode.Norm01? && a.minUs <= a.offUs + a.trimUs <= a.maxUs ==>
              AuxNormToCount(c, a, 0.0) == UsToCount((a.offUs + a.trimUs) as real, c.thrust.freqHz)
    ensures a.mode.Signed? && a.trimUs >= 0 && a.deadbandNorm <= 1.0 ==> AuxNormToCount(c, a, 1.0) == UsToCount(a.maxUs as real, c.thrust.freqHz)
  {
    hide UsToCount, AuxNormToCount, Product;
    if a.mode.Signed? {
      SignedCount(c, a, 0.0);
      SignedCount(c, a, 1.0);
    } else {
      OneSidedCount(c, a, 0.0);
    }
    Halves(a.maxUs as real - a.centerUs as real);
  }

  /** The first spelling that the command uses is the one that counts; without one the output keeps its count. */
  lemma AuxCommanded(c: Config, s: State, cmd: Command, now: real, i: nat)
    requires Shaped(c, s) && i < |c.aux| && |c.aux[i].spellings| == 3
    requires s.armed || c.aux[i].allowWhenDisarmed
    requires c.aux[i].slewNormPerS <= 0.0 || s.lastAuxNorm[i].None?
    ensures var a, out := c.aux[i], Step(c, s, Write(cmd, now)).lastAux[i];
            && (Name(a.spellings[0]) in cmd ==> out == AuxNormToCount(c, a, cmd[Name(a.spellings[0])]))
            && (Name(a.spellings[0]) !in cmd && Name(a.spellings[1]) in cmd ==> out == AuxNormToCount(c, a, cmd[Name(a.spellings[1])]))
            && (Name(a.spellings[0]) !in cmd && Name(a.spellings[1]) !in cmd && Name(a.spellings[2]) in cmd ==>
                  out == AuxNormToCount(c, a, cmd[Name(a.spellings[2])]))
            && (Name(a.spellings[0]) !in cmd && Name(a.spellings[1]) !in cmd && Name(a.spellings[2]) !in cmd ==> out == s.lastAux[i])
  {
    hide Step, AuxNormToCount, SlewDt, FirstSpelling;
    AuxPart(c, s, cmd, now);
    WhichSpelling(c.aux[i].spellings, cmd);
  }

  /** With slewing a commanded output goes to what it is told, as far as its rate times the time credited lets it from what
      it was told last; the first command, and one in the same instant, is taken at once. */
  lemma AuxSlews(c: Config, s: State, cmd: Command, now: real, i: nat)
    requires Shaped(c, s) && i < |c.aux| && FirstSpelling(c.aux[i].spellings, cmd).Some?
    ensures var a, v, s' := c.aux[i], FirstSpelling(c.aux[i].spellings, cmd).value, Step(c, s, Write(cmd, now));
            var dt := SlewDt(c.thrust, s.lastAuxT, now);
            var told := if a.slewNormPerS <= 0.0 || s.lastAuxNorm[i].None? || dt == 0.0 then v
                        else
                          var was, step := s.lastAuxNorm[i].value, Product(a.slewNormPerS, dt);
                          if Abs(v - was) <= step then v else if v > was then was + step else was - step;
            && s'.lastAuxNorm[i] == Some(told)
            && s'.lastAux[i] == if s.armed || a.allowWhenDisarmed then AuxNormToCount(c, a, told) else s.lastAux[i]
  {
    hide Step, AuxNormToCount, FirstSpelling, SlewDt;
    AuxPart(c, s, cmd, now);
    var dt := SlewDt(c.thrust, s.lastAuxT, now);
    if c.aux[i].slewNormPerS > 0.0 {
      MulOrder(0.0, c.aux[i].slewNormPerS, dt);
    }
    assert Product(c.aux[i].slewNormPerS, dt) == c.aux[i].slewNormPerS * dt;
    hide Product;
  }

  lemma WhichSpelling(sp: seq<string>, cmd: Command)
    requires |sp| == 3
    ensures var a, b, d, v := Name(sp[0]), Name(sp[1]), Name(sp[2]), FirstSpelling(sp, cmd);
            && (a in cmd ==> v == Some(cmd[a])) && (a !in cmd && b in cmd ==> v == Some(cmd[b]))
            && (a !in cmd && b !in cmd && d in cmd ==> v == Some(cmd[d])) && (a !in cmd && b !in cmd && d !in cmd ==> v == None)
  {
    assert sp[1..][0] == sp[1] && sp[1..][1..][0] == sp[2] && sp[1..][1..][1..] == [];
    assert FirstSpelling(sp[1..][1..], cmd) == if Name(sp[2]) in cmd then Some(cmd[Name(sp[2])]) else None;
  }

  lemma AuxPart(c: Config, s: State, cmd: Command, now: real)
    requires Shaped(c, s)
    ensures Step(c, s, Write(cmd, now)).lastAux == AuxStep(c, s, cmd, now).lastAux
    ensures Step(c, s, Write(cmd, now)).lastAuxNorm == AuxStep(c, s, cmd, now).lastAuxNorm
  {
    hide AuxTarget, SlewLimit, Targets, Counts, SlewDt;
  }
}
