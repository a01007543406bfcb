/** What every run of the thrust writer keeps. */
module PwmRuns {
  import opened Prelude
  import opened Pwm

  function At(e: Event): real
  {
    match e
    case Arm(_, at) => at
    case Disarm(at) => at
    case Shutdown(at) => at
    case Write(_, at) => at
  }

  /** The clock of the run does not go back, and starts at or after `from`. */
  predicate Timed(from: real, events: seq<Event>)
  {
    && (forall i :: 0 <= i < |events| ==> from <= At(events[i]))
    && (forall i :: 0 <= i < |events| && events[i].Arm? ==> from <= events[i].holdFrom <= events[i].at)
    && (forall i, j :: 0 <= i < j < |events| ==> At(events[i]) <= At(events[j]))
  }

  lemma TimedPrefix(from: real, events: seq<Event>, n: nat)
    requires Timed(from, events) && n <= |events|
    ensures Timed(from, events[..n])
  {
  }

  /** The two states a constructor can leave: PWM off, or enabled and holding neutral since `at`. */
  ghost predicate Initial(c: Config, s: State)
  {
    s == Boot(c) || exists at :: s == ForceNeutral(c, Boot(c).(enabled := true), at, AuxDefaults(c))
  }

  /** `s` is where the events put a writer that began in `start`, and none of them is later than `now`. */
  ghost predicate History(c: Config, start: State, events: seq<Event>, now: real, s: State)
  {
    && Initial(c, start)
    && s == Run(c, start, events)
    && Timed(0.0, events)
    && 0.0 <= now
    && forall i :: 0 <= i < |events| ==> At(events[i]) <= now
  }

  lemma HistoryBegins(c: Config, start: State, now: real)
    requires Initial(c, start) && 0.0 <= now
    ensures History(c, start, [], now, start)
  {
  }

  lemma HistoryLater(c: Config, start: State, events: seq<Event>, now: real, later: real, s: State)
    requires History(c, start, events, now, s) && now <= later
    ensures History(c, start, events, later, s)
  {
  }

  lemma HistoryStep(c: Config, start: State, events: seq<Event>, now: real, s: State, e: Event)
    requires Shaped(c, s) && History(c, start, events, now, s)
    requires now <= At(e) && (e.Arm? ==> now <= e.holdFrom <= e.at)
    ensures History(c, start, events + [e], At(e), Step(c, s, e))
  {
    hide Step;
    assert (events + [e])[..|events|] == events && (events + [e])[|events|] == e;
    assert Run(c, start, events + [e]) == Step(c, s, e);
    hide Run, Shaped;
  }

  // ---------------------------------------------------------------- neutral unless live

  /** The tail of the run is one Arm followed by writes only, the last of them past the ESC hold. */
  predicate LiveTail(c: Config, events: seq<Event>, i: int)
  {
    && 0 <= i < |events| - 1
    && events[i].Arm?
    && (forall k :: i < k < |events| ==> events[k].Write?)
    && (c.thrust.escInitHoldS > 0.0 ==> At(events[|events| - 1]) >= events[i].holdFrom + c.thrust.escInitHoldS)
  }

  predicate ArmedSince(c: Config, s: State, events: seq<Event>, i: int)
  {
    && 0 <= i < |events|
    && events[i].Arm?
    && (forall k :: i < k < |events| ==> events[k].Write?)
    && s.armingUntil == (if c.thrust.escInitHoldS > 0.0 then events[i].holdFrom + c.thrust.escInitHoldS else 0.0)
  }

  lemma StepArmed(c: Config, s: State, e: Event)
    requires Shaped(c, s)
    ensures var s' := Step(c, s, e);
            match e
            case Arm(from, _) => s'.armed && s'.armingUntil == if c.thrust.escInitHoldS > 0.0 then from + c.thrust.escInitHoldS else 0.0
            case Write(_, _) => s'.armed == s.armed && s'.armingUntil == s.armingUntil
            case _ => !s'.armed
  {
  }

  /** The writer is armed exactly when the latest call other than a write was an arm. */
  lemma {:induction false} ArmedHasArm(c: Config, s0: State, events: seq<Event>)
    requires Initial(c, s0)
    ensures Run(c, s0, events).armed <==> exists i :: LatestIsArm(events, i)
    ensures forall i :: LatestIsArm(events, i) ==> ArmedSince(c, Run(c, s0, events), events, i)
  {
    if events != [] {
      hide Step;
      var n := |events| - 1;
      var before, e := events[..n], events[n];
      ArmedHasArm(c, s0, before);
      StepArmed(c, Run(c, s0, before), e);
      assert events == before + [e];
      LatestArmOf(before, e);
      if e.Arm? {
        assert LatestIsArm(events, n);
      }
    }
  }

  predicate LatestIsArm(events: seq<Event>, i: int)
  {
    0 <= i < |events| && events[i].Arm? && forall k :: i < k < |events| ==> events[k].Write?
  }

  lemma LatestArmOf(before: seq<Event>, e: Event)
    ensures e.Arm? ==> forall i :: LatestIsArm(before + [e], i) <==> i == |before|
    ensures e.Write? ==> forall i :: LatestIsArm(before + [e], i) <==> LatestIsArm(before, i)
    ensures !e.Arm? && !e.Write? ==> forall i :: !LatestIsArm(before + [e], i)
  {
    var events := before + [e];
    assert events[|before|] == e;
    assert forall k :: 0 <= k < |before| ==> events[k] == before[k];
    forall i | LatestIsArm(before, i) && e.Write? ensures LatestIsArm(events, i) {
    }
  }

  lemma StepNeutral(c: Config, s: State, e: Event)
    requires Shaped(c, s)
    ensures var s' := Step(c, s, e);
            s'.thrOut != NeutralCounts(c) ==>
              || (e.Write? && s.armed && s'.armed && s'.enabled && !Holding(s, e.at))
              || (s'.thrOut == s.thrOut && s'.armed == s.armed && s'.enabled == s.enabled && e.Write? && !s.armed)
  {
  }

  lemma LiveWrite(c: Config, s: State, before: seq<Event>, e: Event, i: int)
    requires ArmedSince(c, s, before, i) && Timed(0.0, before)
    requires e.Write? && !Holding(s, e.at)
    ensures LiveTail(c, before + [e], i)
  {
  }

  lemma LiveNow(c: Config, s0: State, before: seq<Event>, e: Event)
    requires Initial(c, s0) && Timed(0.0, before)
    requires e.Write? && Run(c, s0, before).armed && !Holding(Run(c, s0, before), e.at)
    ensures exists i :: LiveTail(c, before + [e], i)
  {
    hide Step;
    ArmedHasArm(c, s0, before);
    var i :| LatestIsArm(before, i);
    LiveWrite(c, Run(c, s0, before), before, e, i);
  }

  /** Non-neutral counts are out only while armed, and only from a write made after the hold window of the latest arm. */
  lemma {:induction false} NeutralUnlessLive(c: Config, s0: State, events: seq<Event>)
    requires Initial(c, s0) && Timed(0.0, events)
    ensures var s := Run(c, s0, events);
            s.thrOut != NeutralCounts(c) ==> s.armed && s.enabled && exists i :: LiveTail(c, events, i)
  {
    if events != [] {
      hide Step;
      var n := |events| - 1;
      var before := events[..n];
      TimedPrefix(0.0, events, n);
      hide Timed;
      NeutralUnlessLive(c, s0, before);
      var s := Run(c, s0, before);
      StepNeutral(c, s, events[n]);
      assert events == before + [events[n]];
      assert Run(c, s0, events) == Step(c, s, events[n]);
      hide Run, Initial, LiveTail, Holding, NeutralCounts, Shaped;
      if s.armed && events[n].Write? && !Holding(s, events[n].at) {
        LiveNow(c, s0, before, events[n]);
      }
    }
  }

  // ---------------------------------------------------------------- PWM enable

  predicate ArmFree(events: seq<Event>)
  {
    forall i :: 0 <= i < |events| ==> !events[i].Arm?
  }

  predicate ShutdownFree(events: seq<Event>)
  {
    forall i :: 0 <= i < |events| ==> !events[i].Shutdown?
  }

  lemma {:induction false} StaysDisarmed(c: Config, s: State, events: seq<Event>)
    requires Shaped(c, s) && ArmFree(events) && !s.armed
    ensures !Run(c, s, events).armed
  {
    if events != [] {
      StaysDisarmed(c, s, events[..|events| - 1]);
    }
  }

  /** Every shutdown was followed by a write. */
  predicate WrittenSinceShutdown(events: seq<Event>)
  {
    forall i :: 0 <= i < |events| && events[i].Shutdown? ==> exists j :: i < j < |events| && events[j].Write?
  }

  /** From a disarm of live outputs to the next arm, through any disarms, shutdowns and writes: PWM is off exactly
      when the configuration asks for it and no auxiliary output holds it on, or a shutdown has turned it off and,
      where the configuration lets a disarmed write turn it on again, none has. */
  lemma {:induction false} PwmAfterDisarm(c: Config, s: State, at: real, events: seq<Event>)
    requires Shaped(c, s) && s.enabled && ArmFree(events)
    ensures Run(c, s, [Disarm(at)] + events).enabled <==>
      if DisablesOnDisarm(c.thrust) then AuxHoldsPwm(c) && ShutdownFree(events) else WrittenSinceShutdown(events)
    ensures !Run(c, s, [Disarm(at)] + events).armed
  {
    var all := [Disarm(at)] + events;
    if events == [] {
      assert all[..0] == [];
      assert Run(c, s, all) == Step(c, Run(c, s, []), Disarm(at));
    } else {
      var n := |events| - 1;
      PwmAfterDisarm(c, s, at, events[..n]);
      assert all[..|all| - 1] == [Disarm(at)] + events[..n];
      DisarmedStep(c, Run(c, s, [Disarm(at)] + events[..n]), events[n]);
      SinceShutdown(events);
      hide Step, WrittenSinceShutdown, ShutdownFree;
    }
  }

  lemma DisarmedStep(c: Config, s: State, e: Event)
    requires Shaped(c, s) && !s.armed && !e.Arm?
    ensures var s' := Step(c, s, e);
            && !s'.armed
            && (s'.enabled <==>
                  match e
                  case Disarm(_) => s.enabled && !(DisablesOnDisarm(c.thrust) && !AuxHoldsPwm(c))
                  case Shutdown(_) => false
                  case _ => s.enabled || !DisablesOnDisarm(c.thrust))
  {
    hide SlewLimit, Targets, Counts, AuxAfterDisarm;
  }

  lemma SinceShutdown(events: seq<Event>)
    requires events != []
    ensures var before, e := events[..|events| - 1], events[|events| - 1];
            && (ShutdownFree(events) <==> ShutdownFree(before) && !e.Shutdown?)
            && (WrittenSinceShutdown(events) <==> e.Write? || (WrittenSinceShutdown(before) && !e.Shutdown?))
  {
    var n := |events| - 1;
    var before, e := events[..n], events[n];
    if e.Write? {
      forall i | 0 <= i < |events| && events[i].Shutdown? ensures exists j :: i < j < |events| && events[j].Write? {
        assert i < n && events[n].Write?;
      }
    } else {
      if WrittenSinceShutdown(before) && !e.Shutdown? {
        forall i | 0 <= i < |events| && events[i].Shutdown? ensures exists j :: i < j < |events| && events[j].Write? {
          assert before[i].Shutdown?;
          var j :| i < j < n && before[j].Write?;
          assert events[j].Write?;
        }
      }
      if WrittenSinceShutdown(events) {
        forall i | 0 <= i < n && before[i].Shutdown? ensures exists j :: i < j < n && before[j].Write? {
          assert events[i].Shutdown?;
          var j :| i < j < |events| && events[j].Write?;
          assert before[j].Write?;
        }
      }
    }
  }

  /** What one write leaves alone. */
  lemma WriteKeeps(c: Config, s: State, cmd: Command, at: real)
    requires Shaped(c, s)
    ensures var s' := Step(c, s, Write(cmd, at));
            && s'.armed == s.armed
            && (!s.armed && !s.enabled && DisablesOnDisarm(c.thrust) ==> !s'.enabled)
  {
  }

  /** Once off and disarmed, nothing but an arm turns it on again. */
  lemma {:induction false} PwmStaysOff(c: Config, s: State, events: seq<Event>)
    requires Shaped(c, s) && !s.armed && !s.enabled
    requires ArmFree(events) && DisablesOnDisarm(c.thrust)
    ensures !Run(c, s, events).enabled && !Run(c, s, events).armed
    ensures Run(c, s, events).thrOut == s.thrOut || Run(c, s, events).thrOut == NeutralCounts(c)
  {
    if events != [] {
      PwmStaysOff(c, s, events[..|events| - 1]);
    }
  }

  lemma {:induction false} RunSplit(c: Config, s: State, a: seq<Event>, b: seq<Event>)
    requires Shaped(c, s)
    ensures Run(c, s, a + b) == Run(c, Run(c, s, a), b)
  {
    hide Step;
    if b == [] {
      assert a + b == a;
    } else {
      var n := |b| - 1;
      RunSplit(c, s, a, b[..n]);
      assert (a + b)[..|a + b| - 1] == a + b[..n];
    }
  }

  /** In any run, PWM is off at every moment between a disarm and the next arm, if so configured. */
  lemma OffBetweenDisarmAndArm(c: Config, s0: State, events: seq<Event>, i: nat)
    requires Shaped(c, s0) && i < |events| && events[i].Disarm?
    requires ArmFree(events[i + 1..])
    requires DisablesOnDisarm(c.thrust) && !AuxHoldsPwm(c)
    ensures !Run(c, s0, events).enabled && !Run(c, s0, events).armed
    ensures Run(c, s0, events).thrOut == NeutralCounts(c)
  {
    var upTo := events[..i + 1];
    assert upTo[..|upTo| - 1] == events[..i];
    assert events == upTo + events[i + 1..];
    RunSplit(c, s0, upTo, events[i + 1..]);
    PwmStaysOff(c, Run(c, s0, upTo), events[i + 1..]);
  }

  // ---------------------------------------------------------------- slew limiting

  /** How far a channel may move in `t` seconds. */
  function Travel(c: ThrustConfig, t: real): real
  {
    Product(c.slewRate, t)
  }

  /** One slew step: inside [-1,1], between where it was and where it is asked to go, and no faster than the rate. */
  lemma SlewOneBounds(c: ThrustConfig, prev: real, target: real, dt: real)
    requires c.slewRate > 0.0 && dt >= 0.0
    requires -1.0 <= prev <= 1.0 && -1.0 <= target <= 1.0
    ensures var v := SlewOne(c, prev, target, dt);
            && -1.0 <= v <= 1.0
            && (prev <= v <= target || target <= v <= prev)
            && Abs(v - prev) <= Travel(c, dt)
  {
    AllowanceBounds(c, prev, target, dt);
  }

  lemma AllowanceBounds(c: ThrustConfig, p: real, t: real, dt: real)
    requires c.slewRate > 0.0 && dt >= 0.0
    ensures 0.0 <= Allowance(c, p, t, dt) <= c.slewRate * dt
  {
    MulOrder(Min(c.slewRate, ReverseRate(c)), c.slewRate, dt);
  }

  /** When the outputs were last forced to neutral, by arming, disarming, or a write that was not let through. */
  function LastForced(c: Config, s0: State, events: seq<Event>): Option<real>
    requires Shaped(c, s0)
  {
    if events == [] then None else
    var n := |events| - 1;
    ForcedBy(c, Run(c, s0, events[..n]), events[n], LastForced(c, s0, events[..n]))
  }

  function ForcedBy(c: Config, s: State, e: Event, earlier: Option<real>): Option<real>
  {
    match e
    case Write(_, at) =>
      if s.armed && !Holding(s, at) then earlier
      else if !s.armed && DisablesOnDisarm(c.thrust) && !s.enabled then earlier
      else Some(at)
    case _ => Some(At(e))
  }

  predicate SlewBounded(c: Config, s: State, forced: Option<real>)
  {
    match forced
    case None => s.lastThr == Zeros(|s.lastThr|)
    case Some(t0) =>
      && s.lastThrT.Some? && t0 <= s.lastThrT.value
      && forall i :: 0 <= i < |s.lastThr| ==>
           -1.0 <= s.lastThr[i] <= 1.0 && Abs(s.lastThr[i]) <= Travel(c.thrust, s.lastThrT.value - t0)
  }

  /** What a write that is let through does to the slew state of one channel. */
  lemma WriteSlews(c: Config, s: State, cmd: Command, now: real, i: nat)
    requires Shaped(c, s) && c.thrust.slewRate > 0.0 && i < |c.thrusters|
    requires s.armed && !Holding(s, now)
    ensures var s' := WriteState(c, s, cmd, now);
            && s'.lastThrT == Some(now)
            && s'.lastThr[i] == SlewOne(c.thrust, s.lastThr[i], Target(c.thrust, c.thrusters[i], cmd), SlewDt(c.thrust, s.lastThrT, now))
  {
  }

  lemma BoundGrows(c: ThrustConfig, prev: real, target: real, last: real, now: real, t0: real)
    requires c.slewRate > 0.0 && t0 <= last <= now
    requires -1.0 <= prev <= 1.0 && -1.0 <= target <= 1.0
    requires Abs(prev) <= Travel(c, last - t0)
    ensures var v := SlewOne(c, prev, target, SlewDt(c, Some(last), now));
            -1.0 <= v <= 1.0 && Abs(v) <= Travel(c, now - t0)
  {
    hide SlewOne, SlewDt, Travel;
    var dt := SlewDt(c, Some(last), now);
    SlewOneBounds(c, prev, target, dt);
    TravelAdds(c, last - t0, now - last, dt);
  }

  lemma TravelAdds(c: ThrustConfig, a: real, b: real, dt: real)
    requires c.slewRate > 0.0 && dt <= b
    ensures Travel(c, a) + Travel(c, dt) <= Travel(c, a + b)
  {
    MulMono(c.slewRate, dt, b);
    MulSplit(c.slewRate, a, b);
  }

  lemma SlewStepBounded(c: Config, s: State, cmd: Command, now: real, t0: real)
    requires Shaped(c, s) && c.thrust.slewRate > 0.0
    requires s.armed && !Holding(s, now)
    requires SlewBounded(c, s, Some(t0)) && s.lastThrT.value <= now
    ensures SlewBounded(c, WriteState(c, s, cmd, now), Some(t0))
    ensures WriteState(c, s, cmd, now).lastThrT == Some(now)
  {
    hide SlewOne, SlewDt, Target, Counts, Travel;
    var s' := WriteState(c, s, cmd, now);
    assert s'.lastThrT == Some(now);
    assert |s'.lastThr| == |c.thrusters|;
    assert t0 <= now;
    forall i | 0 <= i < |s'.lastThr|
      ensures -1.0 <= s'.lastThr[i] <= 1.0 && Abs(s'.lastThr[i]) <= Travel(c.thrust, now - t0)
    {
      WriteSlews(c, s, cmd, now, i);
      BoundGrows(c.thrust, s.lastThr[i], Target(c.thrust, c.thrusters[i], cmd), s.lastThrT.value, now, t0);
    }
  }

  lemma ForcedZeroBounded(c: Config, s: State, at: real)
    requires c.thrust.slewRate > 0.0
    requires s.lastThr == Zeros(|c.thrusters|) && s.lastThrT == Some(at)
    ensures SlewBounded(c, s, Some(at))
  {
  }

  ghost predicate SlewInv(c: Config, s: State, forced: Option<real>, upTo: real)
  {
    && Shaped(c, s)
    && SlewBounded(c, s, forced)
    && (s.armed ==> forced.Some?)
    && (forced.Some? ==> s.lastThrT.value <= upTo)
  }

  lemma SlewEvent(c: Config, s: State, e: Event, forced: Option<real>, upTo: real)
    requires c.thrust.slewRate > 0.0
    requires SlewInv(c, s, forced, upTo) && upTo <= At(e)
    ensures SlewInv(c, Step(c, s, e), ForcedBy(c, s, e, forced), At(e))
  {
    hide SlewOne, SlewDt, Target, Counts, SlewLimit, SlewBounded;
    var s' := Step(c, s, e);
    if e.Write? && s.armed && !Holding(s, e.at) {
      SlewStepBounded(c, s, e.cmd, e.at, forced.value);
    } else if ForcedBy(c, s, e, forced) == Some(At(e)) && s'.lastThrT == Some(At(e)) && s'.lastThr == Zeros(|c.thrusters|) {
      ForcedZeroBounded(c, s', At(e));
    } else {
      SlewUntouched(c, s, s', forced);
    }
  }

  lemma SlewUntouched(c: Config, s: State, s': State, forced: Option<real>)
    requires SlewBounded(c, s, forced) && s'.lastThr == s.lastThr && s'.lastThrT == s.lastThrT
    ensures SlewBounded(c, s', forced)
  {
  }

  /** Over any run each slewed command is at most the rate times the time since the outputs were last forced neutral. */
  lemma {:induction false} SlewSinceForced(c: Config, s0: State, events: seq<Event>)
    requires Initial(c, s0) && c.thrust.slewRate > 0.0
    requires Timed(0.0, events)
    ensures SlewInv(c, Run(c, s0, events), LastForced(c, s0, events), if events == [] then 0.0 else At(events[|events| - 1]))
  {
    if events == [] {
    } else {
      hide Step, SlewBounded;
      var n := |events| - 1;
      var before := events[..n];
      SlewSinceForced(c, s0, before);
      assert n > 0 ==> before[n - 1] == events[n - 1];
      SlewEvent(c, Run(c, s0, before), events[n], LastForced(c, s0, before), if before == [] then 0.0 else At(before[n - 1]));
    }
  }

  // ---------------------------------------------------------------- coasting to rest

  /** What is left of `p` after giving back `travel` towards zero. */
  function Remainder(p: real, travel: real): real
  {
    if p >= 0.0 then Max(0.0, p - travel) else Min(0.0, p + travel)
  }

  /** Slew time credited over a run of writes. */
  function Credited(c: ThrustConfig, last: Option<real>, events: seq<Event>): (t: real)
    ensures t >= 0.0
    decreases |events|
  {
    if events == [] then 0.0
    else SlewDt(c, last, At(events[0])) + Credited(c, Some(At(events[0])), events[1..])
  }

  predicate Idle(c: Config, s: State, e: Event)
  {
    e.Write? && s.armed && !Holding(s, e.at) && Targets(c, e.cmd) == Zeros(|c.thrusters|)
  }

  lemma {:induction false} RunFront(c: Config, s: State, events: seq<Event>)
    requires Shaped(c, s) && events != []
    ensures Run(c, s, events) == Run(c, Step(c, s, events[0]), events[1..])
  {
    var n := |events| - 1;
    if n == 0 {
      assert events[..0] == [] && events[1..] == [];
    } else {
      RunFront(c, s, events[..n]);
      assert events[..n][1..] == events[1..][..n - 1];
    }
  }

  /** One write with a zero target gives back exactly rate times dt. */
  lemma CoastOne(c: ThrustConfig, p: real, dt: real)
    requires c.slewRate > 0.0 && dt >= 0.0 && -1.0 <= p <= 1.0
    ensures SlewOne(c, p, 0.0, dt) == Remainder(p, Travel(c, dt))
    ensures -1.0 <= Remainder(p, Travel(c, dt)) <= 1.0
  {
    MulOrder(c.slewRate, c.slewRate, dt);
    assert Allowance(c, p, 0.0, dt) == c.slewRate * dt;
  }

  lemma RemainderAdds(c: ThrustConfig, p: real, dt: real, rest: real)
    requires c.slewRate > 0.0 && dt >= 0.0 && rest >= 0.0
    ensures Remainder(Remainder(p, Travel(c, dt)), Travel(c, rest)) == Remainder(p, Travel(c, dt + rest))
  {
    MulOrder(c.slewRate, c.slewRate, dt);
    MulOrder(c.slewRate, c.slewRate, rest);
    MulSplit(c.slewRate, dt, rest);
  }

  lemma IdleStep(c: Config, s: State, e: Event, i: nat)
    requires Shaped(c, s) && c.thrust.slewRate > 0.0 && i < |c.thrusters|
    requires -1.0 <= s.lastThr[i] <= 1.0 && Idle(c, s, e)
    ensures var s1 := Step(c, s, e);
            && s1.lastThr[i] == Remainder(s.lastThr[i], Travel(c.thrust, SlewDt(c.thrust, s.lastThrT, e.at)))
            && -1.0 <= s1.lastThr[i] <= 1.0
            && s1.lastThrT == Some(e.at) && s1.armed == s.armed && s1.armingUntil == s.armingUntil
  {
    hide SlewOne, SlewDt, Remainder, Counts, Travel, Target;
    WriteSlews(c, s, e.cmd, e.at, i);
    assert Targets(c, e.cmd)[i] == 0.0;
    CoastOne(c.thrust, s.lastThr[i], SlewDt(c.thrust, s.lastThrT, e.at));
  }

  lemma StaysIdle(c: Config, s: State, s1: State, events: seq<Event>)
    requires events != [] && forall k :: 0 <= k < |events| ==> Idle(c, s, events[k])
    requires s1.armed == s.armed && s1.armingUntil == s.armingUntil
    ensures forall k :: 0 <= k < |events[1..]| ==> Idle(c, s1, events[1..][k])
  {
    hide Targets;
    forall k | 0 <= k < |events[1..]| ensures Idle(c, s1, events[1..][k]) {
      assert events[1..][k] == events[k + 1];
    }
  }

  /** Under all-zero commands every channel is exactly the remainder of where it started: it never
      changes sign, and it is exactly zero once rate times the credited time reaches its start value. */
  lemma {:induction false} CoastsToRest(c: Config, s: State, events: seq<Event>, i: nat)
    requires Shaped(c, s) && c.thrust.slewRate > 0.0 && i < |c.thrusters|
    requires -1.0 <= s.lastThr[i] <= 1.0
    requires forall k :: 0 <= k < |events| ==> Idle(c, s, events[k])
    ensures Run(c, s, events).lastThr[i] == Remainder(s.lastThr[i], Travel(c.thrust, Credited(c.thrust, s.lastThrT, events)))
    decreases |events|
  {
    if events == [] {
    } else {
      hide SlewDt, Remainder, Step, Travel, Run, Idle;
      var e := events[0];
      IdleStep(c, s, e, i);
      var s1 := Step(c, s, e);
      StaysIdle(c, s, s1, events);
      CoastsToRest(c, s1, events[1..], i);
      RunFront(c, s, events);
      RemainderAdds(c.thrust, s.lastThr[i], SlewDt(c.thrust, s.lastThrT, e.at), Credited(c.thrust, Some(e.at), events[1..]));
    }
  }

  lemma Spent(c: ThrustConfig, t: real, p: real)
    requires c.slewRate > 0.0 && t >= 1.0 / c.slewRate && -1.0 <= p <= 1.0
    ensures Remainder(p, Travel(c, t)) == 0.0
  {
    Inverse(c.slewRate);
    MulOrder(1.0 / c.slewRate, t, c.slewRate);
    AllGivenBack(p, c.slewRate * t);
  }

  lemma AllGivenBack(p: real, travel: real)
    requires travel >= 1.0 && -1.0 <= p <= 1.0
    ensures Remainder(p, travel) == 0.0
  {
  }

  /** Full command to rest needs at most 1/rate of credited time. */
  lemma AtRestAfter(c: Config, s: State, events: seq<Event>, i: nat)
    requires Shaped(c, s) && c.thrust.slewRate > 0.0 && i < |c.thrusters|
    requires -1.0 <= s.lastThr[i] <= 1.0
    requires forall k :: 0 <= k < |events| ==> Idle(c, s, events[k])
    requires Credited(c.thrust, s.lastThrT, events) >= 1.0 / c.thrust.slewRate
    ensures Run(c, s, events).lastThr[i] == 0.0
  {
    hide Remainder, Credited, Run, Idle, Travel;
    CoastsToRest(c, s, events, i);
    Spent(c.thrust, Credited(c.thrust, s.lastThrT, events), s.lastThr[i]);
  }

  // ---------------------------------------------------------------- pulse range

  predicate PulseInRange(c: ThrustConfig, trimUs: int, t: real)
  {
    c.minUs <= ChannelPulse(c, trimUs, t) <= c.maxUs
  }

  lemma ClampMonotone(x: real, y: real, lo: real, hi: real)
    requires x <= y && lo <= hi
    ensures Clamp(x, lo, hi) <= Clamp(y, lo, hi)
  {
  }

  lemma LineMonotone(n: real, k: real, a: real, b: real, lo: real, hi: real)
    requires k >= 0.0 && a <= b && lo <= hi
    ensures LinePulse(n, k, a, lo, hi) <= LinePulse(n, k, b, lo, hi)
  {
    hide Round, Clamp, Product;
    var p, q := Product(k, a), Product(k, b);
    ProductMono(k, a, b);
    ClampMonotone(n + p, n + q, lo, hi);
    RoundMonotone(Clamp(n + p, lo, hi), Clamp(n + q, lo, hi));
  }

  lemma PulseForMonotone(c: ThrustConfig, a: real, b: real)
    requires a <= b && c.minUs <= c.maxUs && c.spanUs >= 0
    ensures PulseFor(c, a) <= PulseFor(c, b)
  {
    hide LinePulse;
    LineMonotone(c.neutralUs as real, c.spanUs as real, a, b, c.minUs as real, c.maxUs as real);
  }

  /** For thrusts of any size: those outside [-1,1] are clamped. */
  lemma ThrustToUsMonotone(c: ThrustConfig, t: real, u: real)
    requires t <= u && c.minUs <= c.maxUs && c.spanUs >= 0
    ensures ThrustToUs(c, t) <= ThrustToUs(c, u)
  {
    hide PulseFor;
    var a := Clamp(if Abs(t) < c.deadbandNorm then 0.0 else t, -1.0, 1.0);
    var b := Clamp(if Abs(u) < c.deadbandNorm then 0.0 else u, -1.0, 1.0);
    PulseForMonotone(c, a, b);
  }

  /** Trim is added after the clamp, so the pulse can leave [min,max]. It stays inside for every
      command exactly when it does at the two extreme ones. */
  lemma PulseRangeDecidedAtExtremes(c: ThrustConfig, trimUs: int)
    requires c.minUs <= c.neutralUs <= c.maxUs && c.spanUs >= 0 && c.deadbandNorm <= 1.0
    ensures (forall t :: -1.0 <= t <= 1.0 ==> PulseInRange(c, trimUs, t))
            <==> PulseInRange(c, trimUs, -1.0) && PulseInRange(c, trimUs, 1.0)
  {
    hide ThrustToUs;
    if PulseInRange(c, trimUs, -1.0) && PulseInRange(c, trimUs, 1.0) {
      forall t | -1.0 <= t <= 1.0 ensures PulseInRange(c, trimUs, t) {
        ThrustToUsMonotone(c, -1.0, t);
        ThrustToUsMonotone(c, t, 1.0);
      }
    }
  }

  lemma FullSpanEnds(c: ThrustConfig)
    requires c.minUs == c.neutralUs - c.spanUs && c.maxUs == c.neutralUs + c.spanUs && c.spanUs >= 0
    requires c.deadbandNorm <= 1.0
    ensures ThrustToUs(c, -1.0) == c.minUs && ThrustToUs(c, 1.0) == c.maxUs
  {
    hide Round;
    assert Product(c.spanUs as real, 1.0) == c.spanUs as real;
    assert Product(c.spanUs as real, -1.0) == -(c.spanUs as real);
  }

  /** With a span that reaches both limits, as shipped, only a zero trim keeps every pulse in range. */
  lemma TrimEscapesFullSpan(c: ThrustConfig, trimUs: int)
    requires c.minUs == c.neutralUs - c.spanUs && c.maxUs == c.neutralUs + c.spanUs
    requires c.spanUs >= 0 && c.spanUs >= c.deadbandUs && c.deadbandNorm <= 1.0
    ensures (forall t :: -1.0 <= t <= 1.0 ==> PulseInRange(c, trimUs, t)) <==> trimUs == 0
  {
    hide ThrustToUs;
    PulseRangeDecidedAtExtremes(c, trimUs);
    FullSpanEnds(c);
  }
}
