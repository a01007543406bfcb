/** motion/pwm.py: the ThrustWriter object, its clock and its PWM backend. */
module ThrustWriters {
  import opened Prelude
  import opened Pwm
  import PwmRuns

  /** A wall clock that never goes back. How far it has moved between two reads is not known. */
  class Clock {
    var now: real

    constructor ()
      ensures now >= 0.0
    {
      var t: real :| t >= 0.0;
      now := t;
    }

    method Read() returns (t: real)
      modifies this
      ensures t == now >= old(now)
    {
      var d: real :| d >= 0.0;
      now := now + d;
      t := now;
    }

    method Sleep(s: real)
      modifies this
      ensures now >= old(now) && now >= old(now) + s
    {
      var late: real :| late >= 0.0;
      now := now + Max(0.0, s) + late;
    }
  }

  /** Stands in for the PWM hardware: it remembers whether outputs are enabled and the last counts, and never fails. */
  class PwmBackend {
    var enabled: bool
    var thr: seq<int>
    var aux: seq<int>
    ghost var rises: nat

    constructor ()
      ensures !enabled && thr == [] && aux == [] && rises == 0
    {
      enabled, thr, aux := false, [], [];
      rises := 0;
    }

    /** `rises` counts the times outputs went from off to on. */
    method Enable(on: bool)
      modifies this`enabled, this`rises
      ensures enabled == on
      ensures rises == old(rises) + if on && !old(enabled) then 1 else 0
    {
      rises := rises + if on && !enabled then 1 else 0;
      enabled := on;
    }

    method SetCounts(thr: seq<int>, aux: seq<int>)
      modifies this`thr, this`aux
      ensures this.thr == thr && this.aux == aux
    {
      this.thr, this.aux := thr, aux;
    }
  }

  class ThrustWriter {
    const c: Config
    const pwm: PwmBackend
    const clock: Clock
    var armed: bool
    var armingUntil: real
    var lastThr: seq<real>
    var lastThrT: Option<real>
    var lastAux: seq<int>
    var lastAuxNorm: seq<Option<real>>
    var lastAuxT: Option<real>
    ghost var start: State
    ghost var trace: seq<Event>

    ghost function Current(): State
      reads this, pwm
    {
      State(armed, armingUntil, lastThr, lastThrT, lastAux, lastAuxNorm, lastAuxT, pwm.enabled, pwm.thr, pwm.aux)
    }

    /** The writer is where its whole history of calls puts it, and that history is in time order. */
    ghost predicate Valid()
      reads this, pwm, clock
    {
      Shaped(c, Current()) && PwmRuns.History(c, start, trace, clock.now, Current())
    }

    constructor (c: Config, clock: Clock, autoEnable: bool)
      requires clock.now >= 0.0
      modifies clock
      ensures Valid() && fresh(pwm) && this.c == c && this.clock == clock
      ensures trace == [] && !armed && pwm.enabled == autoEnable && pwm.thr == NeutralCounts(c)
      ensures clock.now >= old(clock.now)
    {
      this.c := c;
      this.clock := clock;
      pwm := new PwmBackend();
      armed, armingUntil := false, 0.0;
      lastThr, lastThrT := Zeros(|c.thrusters|), None;
      lastAux, lastAuxNorm, lastAuxT := AuxDefaults(c), NoNorms(|c.aux|), None;
      trace := [];
      new;
      hide Run;
      pwm.SetCounts(NeutralCounts(c), AuxDefaults(c));
      start := Boot(c);
      if autoEnable {
        pwm.Enable(true);
        var at := DriveNeutral(c.thrust.escInitHoldS);
        start := ForceNeutral(c, Boot(c).(enabled := true), at, AuxDefaults(c));
      }
      PwmRuns.HistoryBegins(c, start, clock.now);
    }

    method DriveNeutral(holdS: real) returns (at: real)
      modifies this`lastAux, this`lastThr, this`lastThrT, pwm`thr, pwm`aux, clock
      ensures Current() == ForceNeutral(c, old(Current()).(lastAux := AuxDefaults(c)), at, AuxDefaults(c))
      ensures clock.now >= at >= old(clock.now)
    {
      lastAux := AuxDefaults(c);
      at := clock.Read();
      ResetSlew(at);
      pwm.SetCounts(NeutralCounts(c), lastAux);
      if holdS > 0.0 {
        clock.Sleep(holdS);
      }
    }

    method ResetSlew(now: real)
      modifies this`lastThr, this`lastThrT
      ensures lastThr == Zeros(|c.thrusters|) && lastThrT == Some(now)
    {
      lastThr, lastThrT := Zeros(|c.thrusters|), Some(now);
    }

    method ResetAuxSlew()
      modifies this`lastAuxNorm, this`lastAuxT
      ensures lastAuxNorm == NoNorms(|c.aux|) && lastAuxT == None
    {
      lastAuxNorm, lastAuxT := NoNorms(|c.aux|), None;
    }

    method EnsureEnabled()
      modifies pwm`enabled, pwm`rises
      ensures pwm.enabled
      ensures pwm.rises == old(pwm.rises) + if old(pwm.enabled) then 0 else 1
    {
      if !pwm.enabled {
        pwm.Enable(true);
      }
    }

    ghost method Record(e: Event, before: State, since: real)
      requires Shaped(c, before) && PwmRuns.History(c, start, trace, since, before)
      requires since <= PwmRuns.At(e) <= clock.now && (e.Arm? ==> since <= e.holdFrom <= e.at)
      requires Current() == Step(c, before, e)
      modifies this`trace
      ensures trace == old(trace) + [e] && Valid()
    {
      hide Step, PwmRuns.History;
      PwmRuns.HistoryStep(c, start, trace, since, before, e);
      PwmRuns.HistoryLater(c, start, trace + [e], PwmRuns.At(e), clock.now, Current());
      trace := trace + [e];
    }

    /** With hardware arm/disarm, outputs go off and on again even if they were on. */
    method EnableEdge()
      modifies pwm`enabled, pwm`rises, clock
      ensures pwm.enabled && clock.now >= old(clock.now)
      ensures pwm.rises == old(pwm.rises) + if c.thrust.hardwareArmDisarm || !old(pwm.enabled) then 1 else 0
    {
      if c.thrust.hardwareArmDisarm {
        pwm.Enable(false);
        if c.thrust.pwmRearmOffS > 0.0 {
          clock.Sleep(c.thrust.pwmRearmOffS);
        }
      }
      EnsureEnabled();
    }

    method Arm()
      requires Valid()
      modifies this, pwm, clock
      ensures Valid() && start == old(start) && clock.now >= old(clock.now)
      ensures |trace| == |old(trace)| + 1 && trace[..|old(trace)|] == old(trace)
      ensures trace[|old(trace)|].Arm? && trace[|old(trace)|].holdFrom >= old(clock.now)
      ensures pwm.rises == old(pwm.rises) + if c.thrust.hardwareArmDisarm || !old(pwm.enabled) then 1 else 0
      ensures Current() == Step(c, old(Current()), trace[|old(trace)|])
    {
      hide PwmRuns.History;
      ghost var before, since := Current(), clock.now;
      armed, armingUntil := true, 0.0;
      EnableEdge();
      var holdFrom := clock.Read();
      if c.thrust.escInitHoldS > 0.0 {
        armingUntil := holdFrom + c.thrust.escInitHoldS;
      }
      var at := clock.Read();
      ResetSlew(at);
      ResetAuxSlew();
      pwm.SetCounts(NeutralCounts(c), lastAux);
      Record(Event.Arm(holdFrom, at), before, since);
    }

    method AuxForDisarm() returns (aux: seq<int>)
      requires |lastAux| == |c.aux|
      ensures aux == AuxAfterDisarm(c, lastAux)
    {
      aux := [];
      for i := 0 to |c.aux|
        invariant |aux| == i
        invariant forall k :: 0 <= k < i ==> aux[k] == AuxOnDisarm(c, c.aux[k], lastAux[k])
      {
        aux := aux + [AuxOnDisarm(c, c.aux[i], lastAux[i])];
      }
    }

    method Disarm()
      requires Valid()
      modifies this, pwm, clock
      ensures Valid() && start == old(start) && clock.now >= old(clock.now)
      ensures |trace| == |old(trace)| + 1 && trace[..|old(trace)|] == old(trace) && trace[|old(trace)|].Disarm?
      ensures Current() == Step(c, old(Current()), trace[|old(trace)|])
      ensures !armed && pwm.thr == NeutralCounts(c)
    {
      hide PwmRuns.History;
      ghost var before, since := Current(), clock.now;
      armed, armingUntil := false, 0.0;
      var aux := AuxForDisarm();
      lastAux := aux;
      var at := clock.Read();
      ResetSlew(at);
      ResetAuxSlew();
      pwm.SetCounts(NeutralCounts(c), aux);
      if DisablesOnDisarm(c.thrust) && !AuxHoldsPwm(c) {
        if c.thrust.pwmDisarmHoldS > 0.0 {
          clock.Sleep(c.thrust.pwmDisarmHoldS);
        }
        pwm.Enable(false);
      }
      hide AuxAfterDisarm, NeutralCounts;
      Record(Event.Disarm(at), before, since);
    }

    method Shutdown()
      requires Valid()
      modifies this, pwm, clock
      ensures Valid() && start == old(start) && clock.now >= old(clock.now)
      ensures |trace| == |old(trace)| + 1 && trace[..|old(trace)|] == old(trace) && trace[|old(trace)|].Shutdown?
      ensures Current() == Step(c, old(Current()), trace[|old(trace)|])
      ensures !armed && !pwm.enabled && pwm.thr == NeutralCounts(c)
    {
      hide PwmRuns.History;
      ghost var before, since := Current(), clock.now;
      armed := false;
      var aux := seq(|c.aux|, i requires 0 <= i < |c.aux| => AuxOnShutdown(c, c.aux[i]));
      var at := clock.Read();
      ResetSlew(at);
      pwm.SetCounts(NeutralCounts(c), aux);
      clock.Sleep(0.25);
      pwm.Enable(false);
      Record(Event.Shutdown(at), before, since);
    }

    method ApplySlewLimit(targets: seq<real>, now: real) returns (out: seq<real>)
      requires |lastThr| == |targets|
      modifies this`lastThr, this`lastThrT
      ensures out == SlewLimit(c.thrust, old(lastThr), old(lastThrT), targets, now)
      ensures lastThr == out && lastThrT == Some(now)
    {
      out := [];
      if c.thrust.slewRate <= 0.0 {
        for i := 0 to |targets|
          invariant |out| == i
          invariant forall k :: 0 <= k < i ==> out[k] == Clamp(targets[k], -1.0, 1.0)
        {
          out := out + [Clamp(targets[i], -1.0, 1.0)];
        }
      } else {
        var dt := SlewDt(c.thrust, lastThrT, now);
        for i := 0 to |targets|
          invariant |out| == i
          invariant forall k :: 0 <= k < i ==> out[k] == SlewOne(c.thrust, lastThr[k], targets[k], dt)
        {
          out := out + [SlewOne(c.thrust, lastThr[i], targets[i], dt)];
        }
      }
      lastThr, lastThrT := out, Some(now);
    }

    method ExtractAux(cmd: Command, now: real) returns (counts: seq<int>)
      requires Shaped(c, Current())
      requires |c.aux| > 0
      modifies this`lastAuxNorm, this`lastAuxT
      ensures Current().(lastAux := counts) == AuxStep(c, old(Current()), cmd, now)
    {
      ghost var before := Current();
      var dt := SlewDt(c.thrust, lastAuxT, now);
      lastAuxT := Some(now);
      counts := [];
      var norms: seq<Option<real>> := [];
      ghost var want := AuxStep(c, before, cmd, now);
      for i := 0 to |c.aux|
        invariant |counts| == |norms| == i
        invariant forall k :: 0 <= k < i ==> counts[k] == want.lastAux[k] && norms[k] == want.lastAuxNorm[k]
      {
        var v := AuxTarget(c.aux[i], cmd, lastAuxNorm[i], dt);
        if v.None? {
          counts, norms := counts + [lastAux[i]], norms + [lastAuxNorm[i]];
        } else {
          var count := AuxNormToCount(c, c.aux[i], v.value);
          if !armed && !c.aux[i].allowWhenDisarmed {
            count := lastAux[i];
          }
          counts, norms := counts + [count], norms + [v];
        }
      }
      lastAuxNorm := norms;
    }

    method UpdateAux(cmd: Command, now: real)
      requires Shaped(c, Current())
      modifies this`lastAux, this`lastAuxNorm, this`lastAuxT
      ensures Current() == AuxStep(c, old(Current()), cmd, now)
    {
      if |c.aux| > 0 {
        lastAux := ExtractAux(cmd, now);
      }
    }

    method ComputeTargets(cmd: Command) returns (targets: seq<real>)
      ensures targets == Targets(c, cmd)
    {
      targets := [];
      for i := 0 to |c.thrusters|
        invariant |targets| == i
        invariant forall k :: 0 <= k < i ==> targets[k] == Target(c.thrust, c.thrusters[k], cmd)
      {
        targets := targets + [Target(c.thrust, c.thrusters[i], cmd)];
      }
    }

    method ComputeCounts(slewed: seq<real>) returns (counts: seq<int>)
      requires |slewed| == |c.thrusters|
      ensures counts == Counts(c, slewed)
    {
      counts := [];
      for i := 0 to |c.thrusters|
        invariant |counts| == i
        invariant forall k :: 0 <= k < i ==> counts[k] == ChannelCount(c.thrust, c.thrusters[k].trimUs, slewed[k])
      {
        counts := counts + [ChannelCount(c.thrust, c.thrusters[i].trimUs, slewed[i])];
      }
    }

    method Write(cmd: Command)
      requires Valid()
      modifies this, pwm, clock
      ensures Valid() && start == old(start) && clock.now >= old(clock.now)
      ensures |trace| == |old(trace)| + 1 && trace[..|old(trace)|] == old(trace)
      ensures trace[|old(trace)|].Write? && trace[|old(trace)|].cmd == cmd && old(clock.now) <= trace[|old(trace)|].at <= clock.now
      ensures Current() == Step(c, old(Current()), trace[|old(trace)|])
    {
      hide PwmRuns.History, SlewLimit, Targets, Counts, AuxStep, NeutralCounts, Zeros;
      ghost var before, since := Current(), clock.now;
      var now := clock.Read();
      UpdateAux(cmd, now);
      if !armed && DisablesOnDisarm(c.thrust) && !pwm.enabled {
        Record(Event.Write(cmd, now), before, since);
        return;
      }
      EnsureEnabled();
      if !armed || (armingUntil != 0.0 && now < armingUntil) {
        ResetSlew(now);
        pwm.SetCounts(NeutralCounts(c), lastAux);
        Record(Event.Write(cmd, now), before, since);
        return;
      }
      var targets := ComputeTargets(cmd);
      var slewed := ApplySlewLimit(targets, now);
      var counts := ComputeCounts(slewed);
      pwm.SetCounts(counts, lastAux);
      Record(Event.Write(cmd, now), before, since);
    }
  }
}
