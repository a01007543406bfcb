/** control/control_service.py: what one live tick sends, in terms of the settings, the clock and the pilot alone. */
module TickLaws {
  import opened Prelude
  import opened Pwm
  import opened GripperMix
  import opened ControlServices
  import Arming
  import Limits = ThrustLimit

  // ---------------------------------------------------------------- cap and ramp

  /** The cap of a tick is the largest number that is within both limits: the configured one, kept in [0,1], and the
      pilot's, kept in [0.05,1] and 1 when not given. */
  lemma CapIsBothLimits(k: Settings, d: Demand, now: real, armedSince: Option<real>, x: real)
    ensures x <= ShapingAt(k, d, now, armedSince).cap <==>
      && (x <= 0.0 || x <= k.thrusterMaxAbs) && x <= 1.0
      && (d.maxGain.Some? ==> x <= 0.05 || x <= d.maxGain.value)
  {
  }

  /** Arming lets thrust in slowly: none up to the start of the ramp, then the elapsed fraction of its length, then all.
      Without a start or a length there is no ramp. */
  lemma RampOverTime(k: Settings, d: Demand, now: real, since: real)
    ensures k.armRampS <= 0.0 ==> ShapingAt(k, d, now, Some(since)).ramp == 1.0
    ensures ShapingAt(k, d, now, None).ramp == 1.0
    ensures k.armRampS > 0.0 && now <= since ==> ShapingAt(k, d, now, Some(since)).ramp == 0.0
    ensures k.armRampS > 0.0 && since < now <= since + k.armRampS ==>
              ShapingAt(k, d, now, Some(since)).ramp * k.armRampS == now - since
    ensures k.armRampS > 0.0 && now > since + k.armRampS ==> ShapingAt(k, d, now, Some(since)).ramp == 1.0
  {
    if k.armRampS > 0.0 && since < now {
      RampFraction(now - since, k.armRampS);
    }
  }

  lemma RampFraction(dt: real, length: real)
    requires dt > 0.0 && length > 0.0
    ensures dt / length * length == dt && dt / length > 0.0
    ensures dt <= length ==> dt / length <= 1.0
    ensures dt > length ==> dt / length > 1.0
  {
    var f := dt / length;
    assert f * length == dt;
    QuotientMonotone(0.0, dt, length);
    if dt > length && f <= 1.0 {
      MulOrder(f, 1.0, length);
    }
    if dt <= length && f > 1.0 {
      MulOrder(1.0, f, length);
    }
  }

  /** The rest of what a tick passes on is what the pilot set. */
  lemma ShapingCarries(k: Settings, d: Demand, now: real, armedSince: Option<real>)
    ensures var s := ShapingAt(k, d, now, armedSince);
            && s.budgetActive == d.budgetActive && s.budgetMaxA == d.budgetMaxA
            && s.verticalCmd == d.verticalHold && s.horizontalCmd == d.horizontalHold
  {
  }

  /** In a live tick every mixed command, for any mixer output, is within the ramp times the configured limit and within
      the ramp times the pilot's gain. */
  lemma TickWithinLimits(k: Settings, raw: Limits.Thrust, d: Demand, lights: Option<real>, gripper: Pair,
                         now: real, armedSince: Option<real>, key: Key)
    requires Limits.UsableBudget(k.budget) && !Auxiliary(k, key)
    ensures var s := ShapingAt(k, d, now, armedSince);
            var p := LivePayload(k, Limits.Shape(k.budget, k.deadbands, raw, s), d, lights, gripper);
            key in p ==>
              && (0.0 <= k.thrusterMaxAbs <= 1.0 ==> Abs(p[key]) <= Product(s.ramp, k.thrusterMaxAbs))
              && (k.thrusterMaxAbs <= 0.0 ==> p[key] == 0.0)
              && (d.maxGain.Some? && 0.05 <= d.maxGain.value <= 1.0 ==> Abs(p[key]) <= Product(s.ramp, d.maxGain.value))
              && (d.maxGain.Some? && d.maxGain.value < 0.05 ==> Abs(p[key]) <= Product(s.ramp, 0.05))
              && Abs(p[key]) <= s.ramp
  {
    var s := ShapingAt(k, d, now, armedSince);
    CapIsBothLimits(k, d, now, armedSince, s.cap);
    CapNotNegative(k, d, now, armedSince);
    hide Limits.Shape, WristCommand, ShapingAt, LivePayload, Auxiliary, Product;
    PayloadWithin(k, raw, d, lights, gripper, s);
    CapMono(s.cap, k.thrusterMaxAbs, s.ramp);
    CapMono(s.cap, 1.0, s.ramp);
    CapMono(s.cap, 0.05, s.ramp);
    CapMono(s.cap, 0.0, s.ramp);
    if d.maxGain.Some? {
      CapMono(s.cap, d.maxGain.value, s.ramp);
    }
    RampEnds(s.ramp);
  }

  lemma CapNotNegative(k: Settings, d: Demand, now: real, armedSince: Option<real>)
    ensures ShapingAt(k, d, now, armedSince).cap >= 0.0 && 0.0 <= ShapingAt(k, d, now, armedSince).ramp <= 1.0
  {
  }

  lemma RampEnds(ramp: real)
    ensures Product(ramp, 0.0) == 0.0 && Product(ramp, 1.0) == ramp
  {
  }

  lemma CapMono(cap: real, limit: real, ramp: real)
    requires ramp >= 0.0
    ensures cap <= limit ==> Product(cap, ramp) <= Product(ramp, limit)
  {
    if cap <= limit {
      MulMono(ramp, cap, limit);
    }
  }

  // ---------------------------------------------------------------- the wrist

  /** Nothing up to the deadzone, and from there the rest of the travel, evenly. */
  lemma TriggerTravel(v: real, deadzone: real)
    requires 0.0 <= deadzone <= 0.9
    ensures v <= deadzone ==> TriggerMagnitude(v, deadzone) == 0.0
    ensures deadzone < v <= 1.0 ==> deadzone + TriggerMagnitude(v, deadzone) * (1.0 - deadzone) == v
    ensures v > 1.0 ==> TriggerMagnitude(v, deadzone) == 1.0
  {
    if v > deadzone {
      RampFraction((if v > 1.0 then 1.0 else v) - deadzone, 1.0 - deadzone);
    }
  }

  /** Exchanging the triggers turns the wrist the other way by as much; equal pressure holds it. */
  lemma WristSides(k: Settings, d: Demand)
    ensures WristCommand(k, d.(leftTrigger := d.rightTrigger, rightTrigger := d.leftTrigger)) == -WristCommand(k, d)
    ensures d.leftTrigger == d.rightTrigger ==> WristCommand(k, d) == 0.0
  {
    hide TriggerMagnitude, Turn;
    var net := TriggerMagnitude(d.rightTrigger, k.wristDeadzone) - TriggerMagnitude(d.leftTrigger, k.wristDeadzone);
    var gain := if d.wristGain.None? then 1.0 else Clamp(d.wristGain.value, 0.0, 1.0);
    TurnBack(net, k.wristSpeed, gain);
    assert -net == TriggerMagnitude(d.leftTrigger, k.wristDeadzone) - TriggerMagnitude(d.rightTrigger, k.wristDeadzone);
  }

  lemma TurnBack(net: real, speed: real, gain: real)
    ensures Turn(-net, speed, gain) == -Turn(net, speed, gain)
    ensures net == 0.0 ==> Turn(net, speed, gain) == 0.0
  {
    assert -net * speed == -(net * speed);
    assert -(net * speed) * gain == -(net * speed * gain);
    if net == 0.0 {
      assert net * speed == 0.0;
    }
  }

  /** The right trigger fully in, the left out: the wrist turns right by the configured speed times the pilot's gain. */
  lemma WristFullRight(k: Settings, gain: real)
    requires 0.0 <= k.wristDeadzone <= 0.9 && 0.0 <= k.wristSpeed <= 1.0 && 0.0 <= gain <= 1.0
    ensures WristCommand(k, FULL_RIGHT) == k.wristSpeed
    ensures WristCommand(k, FULL_RIGHT.(wristGain := Some(gain))) == k.wristSpeed * gain
  {
    TriggerTravel(0.0, k.wristDeadzone);
    TriggerTravel(1.0, k.wristDeadzone);
    FullTravel(TriggerMagnitude(1.0, k.wristDeadzone), 1.0 - k.wristDeadzone);
    hide TriggerMagnitude;
    assert 1.0 * k.wristSpeed * 1.0 == k.wristSpeed && 1.0 * k.wristSpeed * gain == k.wristSpeed * gain;
    MulOrder(k.wristSpeed, 1.0, gain);
  }

  lemma FullTravel(m: real, rest: real)
    requires rest > 0.0 && m * rest == rest
    ensures m == 1.0
  {
    assert (m - 1.0) * rest == 0.0;
  }

  // ---------------------------------------------------------------- idle, gripper, park

  /** Disarmed or without a fresh frame no thruster, wrist or gripper command is sent: at most the lights, and those only
      while armed or where they are allowed disarmed. */
  lemma IdleSendsLightsOnly(k: Settings, armed: bool, lights: Option<real>)
    ensures forall key :: key in IdlePayload(k, armed, lights) ==> key == Name("lights") && lights == Some(IdlePayload(k, armed, lights)[key])
    ensures Name("lights") in IdlePayload(k, armed, lights) <==> lights.Some? && (armed || k.lightsAllowWhenDisarmed)
  {
  }

  /** A demand inside the limits moves the axis exactly there, turned round where inverted; beyond full it
      counts as full. */
  lemma GripperFollows(demand: real, hold: bool, last: real, lo: real, hi: real)
    requires -1.0 <= demand <= 1.0
    ensures lo <= demand <= hi ==> GripperAxis(Some(demand), 1.0, hold, last, lo, hi) == demand
    ensures lo <= -demand <= hi ==> GripperAxis(Some(demand), -1.0, hold, last, lo, hi) == -demand
    ensures lo <= last <= hi ==> GripperAxis(None, 1.0, true, last, lo, hi) == last
    ensures lo <= 0.0 <= hi ==> GripperAxis(None, 1.0, false, last, lo, hi) == 0.0
    ensures forall x :: x > 1.0 ==> GripperAxis(Some(x), 1.0, hold, last, lo, hi) == GripperAxis(Some(1.0), 1.0, hold, last, lo, hi)
    ensures forall x :: x < -1.0 ==> GripperAxis(Some(x), 1.0, hold, last, lo, hi) == GripperAxis(Some(-1.0), 1.0, hold, last, lo, hi)
  {
  }

  /** The park move goes from the remembered servo pair to the one mixed from the configured park pose, no sooner than the
      configured settling time. */
  lemma ParkGoesHome(k: Settings, start: Pair)
    ensures var plan := ParkPlanFrom(k, start);
            && ParkAt(plan, 0) == start
            && ParkAt(plan, Steps(plan)) == DiffMixNorm(k.geometry, k.parkPitch, k.parkYaw)
            && (k.parkSettleS > 0.0 ==> Duration(plan) >= k.parkSettleS)
  {
    hide DiffMixNorm, Steps;
    ParkEnds(ParkPlanFrom(k, start));
    hide ParkAt;
  }

  /** Parking always ends with the park pose. It moves there in steps when it has a rate, a settling time and some way to go,
      and otherwise goes at once; with parking or the gripper off, or in a dry run, it sends nothing. */
  lemma ParkCallsExactly(k: Settings, start: Pair)
    ensures var home, calls := DiffMixNorm(k.geometry, k.parkPitch, k.parkYaw), ParkCalls(k, start);
            var away := Abs(start.left - home.left) > 0.000001 || Abs(start.right - home.right) > 0.000001;
            if !k.parkOnArmDisarm || !k.gripperEnabled || k.dryRun then calls == []
            else
              && calls != [] && calls[|calls| - 1] == CallWrite(GripperPayload(k, home))
              && |calls| == if k.parkSlewNormPerS > 0.0 && k.parkSettleS > 0.0 && away then Steps(ParkPlanFrom(k, start)) else 1
  {
    hide DiffMixNorm, Steps, ParkAt;
    ParkEnds(ParkPlanFrom(k, start));
  }

  /** The park position goes to the two gripper outputs, each its own. */
  lemma GripperKeys(k: Settings, p: Pair)
    requires k.gripperLeftKey != k.gripperRightKey
    ensures GripperPayload(k, p) == map[Name(k.gripperRightKey) := p.right, Name(k.gripperLeftKey) := p.left]
  {
  }

  /** Arming calls arm first and then parks, to the park pose if it parks at all. */
  lemma ArmsThenParks(k: Settings, pose: Pair)
    requires !k.dryRun
    ensures var home, parks := DiffMixNorm(k.geometry, k.parkPitch, k.parkYaw), k.parkOnArmDisarm && k.gripperEnabled;
            var calls := DecisionCalls(k, Arming.Arms, pose);
            && calls != [] && calls[0] == CallArm && calls[1..] == ParkCalls(k, pose)
            && (parks ==> |calls| > 1 && calls[|calls| - 1] == CallWrite(GripperPayload(k, home)))
            && DecisionGripper(k, Arming.Arms, pose) == if parks then home else pose
  {
    ParkCallsExactly(k, pose);
    hide DiffMixNorm, ParkCalls, GripperPayload;
    assert DecisionCalls(k, Arming.Arms, pose) == [CallArm] + ParkCalls(k, pose);
  }

  /** Disarming, by kill or by toggle, parks first, then sends neutral, then disarms, and remembers the park pose. */
  lemma ParksThenDisarms(k: Settings, d: Arming.Decision, pose: Pair)
    requires !k.dryRun && (d.KillDisarms? || d.ToggleDisarms?)
    ensures var home, parks := DiffMixNorm(k.geometry, k.parkPitch, k.parkYaw), k.parkOnArmDisarm && k.gripperEnabled;
            var calls, n := DecisionCalls(k, d, pose), |DecisionCalls(k, d, pose)|;
            && n >= 2 && calls[..n - 2] == ParkCalls(k, pose) && calls[n - 2..] == [CallWrite(map[]), CallDisarm]
            && (parks ==> n > 2 && calls[n - 3] == CallWrite(GripperPayload(k, home)))
            && DecisionGripper(k, d, pose) == home
  {
    ParkCallsExactly(k, pose);
    hide DiffMixNorm, ParkCalls, GripperPayload;
    assert DecisionCalls(k, d, pose) == ParkCalls(k, pose) + SYNC_OFF;
  }

  /** A refused arming sends neutral and disarms; with no decision nothing is called and nothing moves. */
  lemma RefusedOrNothing(k: Settings, pose: Pair)
    ensures DecisionCalls(k, Arming.ArmRefused, pose) == [CallWrite(map[]), CallDisarm]
    ensures DecisionCalls(k, Arming.NoChange, pose) == DecisionCalls(k, Arming.KillIdle, pose) == []
    ensures DecisionGripper(k, Arming.NoChange, pose) == DecisionGripper(k, Arming.KillIdle, pose) == pose
  {
  }

  /** A park move keeps its pace: each write comes at least its share of the sleeps after the first. */
  lemma {:induction false} ParkTakesTime(k: Settings, plan: ParkPlan, before: seq<Event>, after: seq<Event>, n: nat, j: nat)
    requires ParkWrites(k, plan, before, after, n) && j < n
    ensures after[|before| + j].at >= after[|before|].at + Product(j as real, SleepS(plan))
  {
    hide SleepS, Product;
    if j == 0 {
      ProductSteps(0, SleepS(plan));
    } else {
      ParkTakesTime(k, plan, before, after, n, j - 1);
      ProductSteps(j, SleepS(plan));
    }
  }

  lemma ProductSteps(j: nat, s: real)
    ensures Product(0.0, s) == 0.0
    ensures j > 0 ==> Product(j as real, s) == Product((j - 1) as real, s) + s
  {
    if j > 0 {
      MulSplit(s, (j - 1) as real, 1.0);
    }
  }

  // ---------------------------------------------------------------- the payload

  /** A live payload holds the thrusters' commands as shaped and, each under its own key, the lights when there is a
      demand, the wrist and the gripper pair when they are fitted, and nothing else. */
  lemma LivePayloadExactly(k: Settings, thr: Limits.Thrust, d: Demand, lights: Option<real>, gripper: Pair)
    requires "lights" != k.wristKey && k.wristKey != k.gripperLeftKey && k.wristKey != k.gripperRightKey
    requires "lights" != k.gripperLeftKey && "lights" != k.gripperRightKey && k.gripperLeftKey != k.gripperRightKey
    requires forall i, j :: 0 <= i < j < |thr| ==> thr[i].name != thr[j].name
    requires forall i :: 0 <= i < |thr| ==> !Auxiliary(k, Name(thr[i].name))
    ensures var p := LivePayload(k, thr, d, lights, gripper);
            && (forall i :: 0 <= i < |thr| ==> Name(thr[i].name) in p && p[Name(thr[i].name)] == thr[i].v)
            && (forall key :: key in p ==> Auxiliary(k, key) || exists i :: 0 <= i < |thr| && key == Name(thr[i].name))
            && (Name("lights") in p <==> lights.Some?) && (Name(k.wristKey) in p <==> k.wristEnabled)
            && (Name(k.gripperLeftKey) in p <==> k.gripperEnabled) && (Name(k.gripperRightKey) in p <==> k.gripperEnabled)
  {
    hide WristCommand, Named;
    NamedCarries(thr);
  }

  lemma {:induction false} NamedCarries(thr: Limits.Thrust)
    ensures (forall i, j :: 0 <= i < j < |thr| ==> thr[i].name != thr[j].name) ==>
              forall i :: 0 <= i < |thr| ==> Name(thr[i].name) in Named(thr) && Named(thr)[Name(thr[i].name)] == thr[i].v
    ensures forall key :: key in Named(thr) ==> exists i :: 0 <= i < |thr| && key == Name(thr[i].name)
  {
    if thr != [] {
      var front, last := thr[..|thr| - 1], thr[|thr| - 1];
      NamedCarries(front);
      assert Named(thr) == Named(front)[Name(last.name) := last.v];
      hide Named;
      forall key | key in Named(thr) ensures exists i :: 0 <= i < |thr| && key == Name(thr[i].name) {
        if key == Name(last.name) {
          assert key == Name(thr[|thr| - 1].name);
        } else {
          var i :| 0 <= i < |front| && key == Name(front[i].name);
          assert key == Name(thr[i].name);
        }
      }
      assert forall i :: 0 <= i < |front| ==> front[i] == thr[i];
    }
  }
}
