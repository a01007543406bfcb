/** motion/pwm.py: what runs of writes do to the auxiliary outputs, and where a thruster at rest sits. */
module PwmAux {
  import opened Prelude
  import opened Pwm
  import PwmRuns

  predicate WritesOnly(events: seq<Event>)
  {
    forall k :: 0 <= k < |events| ==> events[k].Write?
  }

  // ---------------------------------------------------------------- held while disarmed

  /** While disarmed, no run of writes moves an auxiliary output that is not allowed to move then. */
  lemma {:induction false} HeldWhileDisarmed(c: Config, s: State, events: seq<Event>, i: nat)
    requires Shaped(c, s) && !s.armed && i < |c.aux| && !c.aux[i].allowWhenDisarmed
    requires WritesOnly(events)
    ensures var s' := Run(c, s, events); !s'.armed && s'.lastAux[i] == s.lastAux[i]
  {
    if events != [] {
      var n := |events| - 1;
      HeldWhileDisarmed(c, s, events[..n], i);
      WriteIsAuxStep(c, Run(c, s, events[..n]), events[n].cmd, events[n].at);
      hide AuxTarget, Step, SlewDt;
    }
  }

  /** The auxiliary part of a write is the same on every path through it. */
  lemma WriteIsAuxStep(c: Config, s: State, cmd: Command, now: real)
    requires Shaped(c, s)
    ensures var s', a := Step(c, s, Write(cmd, now)), AuxStep(c, s, cmd, now);
            s'.lastAux == a.lastAux && s'.lastAuxNorm == a.lastAuxNorm && s'.lastAuxT == a.lastAuxT && s'.armed == s.armed
  {
    hide AuxTarget, SlewLimit, Targets, Counts, SlewDt;
  }

  // ---------------------------------------------------------------- slew

  /** The limiter of one output holds for every command exactly when time has passed: at equal times the
      command goes through whole. */
  lemma SlewNeedsTime(a: AuxOutput, prev: real, dt: real, name: string)
    requires a.slewNormPerS > 0.0 && dt >= 0.0 && a.spellings != [] && a.spellings[0] == name
    ensures (forall cmd :: Name(name) in cmd ==> Limited(a, cmd, prev, dt)) <==> dt > 0.0
  {
    if dt == 0.0 {
      var jump: Command := map[Name(name) := prev + 1.0];
      assert AuxTarget(a, jump, Some(prev), dt) == Some(prev + 1.0);
      assert a.slewNormPerS * 0.0 == 0.0;
      assert !Limited(a, jump, prev, dt);
    } else {
      forall cmd: Command | Name(name) in cmd ensures Limited(a, cmd, prev, dt) {
        TargetMoves(a, cmd, prev, dt);
      }
    }
  }

  predicate Limited(a: AuxOutput, cmd: Command, prev: real, dt: real)
  {
    var v := AuxTarget(a, cmd, Some(prev), dt);
    v.Some? && Abs(v.value - prev) <= a.slewNormPerS * dt
  }

  lemma TargetMoves(a: AuxOutput, cmd: Command, prev: real, dt: real)
    requires a.slewNormPerS > 0.0 && dt > 0.0
    ensures var v := AuxTarget(a, cmd, Some(prev), dt);
            v.Some? ==> Abs(v.value - prev) <= Product(a.slewNormPerS, dt)
  {
    MulOrder(0.0, a.slewNormPerS, dt);
  }

  /** Every write is later than the one before it, and than what came before the run. */
  predicate Advancing(last: real, events: seq<Event>)
    decreases |events|
  {
    events == [] || (events[0].Write? && last < events[0].at && Advancing(events[0].at, events[1..]))
  }

  /** Over any run of writes at increasing times a slewed auxiliary moves at most its rate times the credited time. */
  lemma {:induction false} SlewedOverRun(c: Config, s: State, events: seq<Event>, i: nat)
    requires Shaped(c, s) && i < |c.aux| && c.aux[i].slewNormPerS > 0.0
    requires s.lastAuxNorm[i].Some? && s.lastAuxT.Some? && Advancing(s.lastAuxT.value, events)
    ensures var s' := Run(c, s, events);
            && s'.lastAuxNorm[i].Some?
            && Abs(s'.lastAuxNorm[i].value - s.lastAuxNorm[i].value)
               <= Product(c.aux[i].slewNormPerS, PwmRuns.Credited(c.thrust, s.lastAuxT, events))
    decreases |events|
  {
    hide Step, Product;
    var rate := c.aux[i].slewNormPerS;
    if events == [] {
      NoTimeNoTravel(rate);
    } else {
      var e, rest := events[0], events[1..];
      var s1 := Step(c, s, e);
      PwmRuns.RunFront(c, s, events);
      AuxWriteMoves(c, s, e, i);
      SlewedOverRun(c, s1, rest, i);
      Accumulates(rate, SlewDt(c.thrust, s.lastAuxT, e.at), PwmRuns.Credited(c.thrust, s1.lastAuxT, rest));
      hide SlewDt, Run;
    }
  }

  lemma AuxWriteMoves(c: Config, s: State, e: Event, i: nat)
    requires Shaped(c, s) && e.Write? && i < |c.aux| && c.aux[i].slewNormPerS > 0.0
    requires s.lastAuxNorm[i].Some? && s.lastAuxT.Some? && s.lastAuxT.value < e.at
    ensures var s' := Step(c, s, e);
            && s'.lastAuxT == Some(e.at)
            && s'.lastAuxNorm[i].Some?
            && Abs(s'.lastAuxNorm[i].value - s.lastAuxNorm[i].value)
               <= Product(c.aux[i].slewNormPerS, SlewDt(c.thrust, s.lastAuxT, e.at))
  {
    var dt := SlewDt(c.thrust, s.lastAuxT, e.at);
    WriteIsAuxStep(c, s, e.cmd, e.at);
    TimePasses(c.thrust, s.lastAuxT, e.at);
    TargetMoves(c.aux[i], e.cmd, s.lastAuxNorm[i].value, dt);
    Accumulates(c.aux[i].slewNormPerS, 0.0, dt);
    hide AuxTarget, Step, SlewDt, Product;
  }

  lemma NoTimeNoTravel(rate: real)
    ensures Product(rate, 0.0) == 0.0
  {
  }

  lemma Accumulates(rate: real, a: real, b: real)
    requires rate >= 0.0 && b >= 0.0
    ensures Product(rate, a + b) == Product(rate, a) + Product(rate, b) && Product(rate, b) >= 0.0
  {
    MulSplit(rate, a, b);
    MulOrder(0.0, rate, b);
  }

  lemma TimePasses(c: ThrustConfig, last: Option<real>, now: real)
    requires last.Some? && last.value < now
    ensures SlewDt(c, last, now) > 0.0
  {
  }

  // ---------------------------------------------------------------- pulse ranges

  lemma CountMonotone(p: real, q: real, freqHz: Hz)
    requires p <= q
    ensures UsToCount(p, freqHz) <= UsToCount(q, freqHz)
  {
    var period := 1000000.0 / freqHz;
    PeriodPositive(freqHz);
    QuotientMonotone(p, q, period);
    RoundMonotone(4095.0 * (p / period), 4095.0 * (q / period));
    hide Round;
  }

  lemma PeriodPositive(freqHz: Hz)
    ensures 1000000.0 / freqHz > 0.0
  {
  }

  /** Unlike a thruster's, an auxiliary's trim comes before its clamp: whatever is asked, its count is that of a
      pulse between its two limits. */
  lemma AuxInRange(c: Config, a: AuxOutput, norm: real)
    ensures var lo, hi := Min(a.minUs as real, a.maxUs as real), Max(a.minUs as real, a.maxUs as real);
            UsToCount(lo, c.thrust.freqHz) <= AuxNormToCount(c, a, norm) <= UsToCount(hi, c.thrust.freqHz)
  {
    var lo, hi := Min(a.minUs as real, a.maxUs as real), Max(a.minUs as real, a.maxUs as real);
    forall p: real ensures UsToCount(lo, c.thrust.freqHz) <= UsToCount(Clamp(p, lo, hi), c.thrust.freqHz) <= UsToCount(hi, c.thrust.freqHz) {
      CountMonotone(lo, Clamp(p, lo, hi), c.thrust.freqHz);
      CountMonotone(Clamp(p, lo, hi), hi, c.thrust.freqHz);
    }
    hide UsToCount, Clamp;
  }

  /** A thruster that has come to rest gets the neutral pulse exactly when its trim is zero or inside the
      microsecond deadband; a larger trim keeps it pushing. */
  lemma RestIsNeutral(c: ThrustConfig, trimUs: int)
    requires c.minUs <= c.neutralUs <= c.maxUs
    ensures ChannelPulse(c, trimUs, 0.0) == c.neutralUs <==> trimUs == 0 || -c.deadbandUs < trimUs < c.deadbandUs
  {
    assert Product(c.spanUs as real, 0.0) == 0.0;
    assert ThrustToUs(c, 0.0) == c.neutralUs;
  }
}
