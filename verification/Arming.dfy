/** control/control_service.py: who may arm, who disarms, and when, over any run of ticks. */
module Arming {
  import opened Prelude

  /** None is a non-finite reading. */
  datatype Axes = Axes(lx: Option<real>, ly: Option<real>, rx: Option<real>, ry: Option<real>, lt: Option<real>, rt: Option<real>)

  /** What arming reads from a pilot frame: its number, the buttons with a down edge, the buttons held, the axes. */
  datatype Frame = Frame(seqNo: int, down: set<string>, held: set<string>, axes: Axes)

  datatype Rules = Rules(
    ttl: real,
    armButtons: seq<string>,
    killButtons: seq<string>,
    deadmanButton: string,
    failsafeDisarmS: real,
    requireNeutral: bool,
    centerTol: real,
    triggerTol: real)

  datatype Ctl = Ctl(armed: bool, lastSeqSeen: int, staleSince: Option<real>)

  /** One pass of the loop: the clock, the latest frame if any, and its age. */
  datatype Tick = Tick(now: real, frame: Option<Frame>, age: real)

  datatype Decision = KillDisarms | KillIdle | ArmRefused | Arms | ToggleDisarms | NoChange

  const IDLE := Ctl(false, -1, None)

  predicate StickCentered(v: Option<real>, tol: real)
  {
    v.Some? && Abs(v.value) <= tol
  }

  predicate TriggerReleased(v: Option<real>, tol: real)
  {
    v.Some? && v.value <= tol
  }

  predicate Centered(r: Rules, a: Axes)
  {
    && StickCentered(a.lx, r.centerTol) && StickCentered(a.ly, r.centerTol)
    && StickCentered(a.rx, r.centerTol) && StickCentered(a.ry, r.centerTol)
    && TriggerReleased(a.lt, r.triggerTol) && TriggerReleased(a.rt, r.triggerTol)
  }

  predicate Kills(r: Rules, f: Frame)
  {
    exists b :: b in r.killButtons && (b in f.down || b in f.held)
  }

  predicate Toggles(r: Rules, f: Frame)
  {
    exists b :: b in r.armButtons && b in f.down
  }

  function Decide(r: Rules, armed: bool, f: Frame): Decision
  {
    if Kills(r, f) then (if armed then KillDisarms else KillIdle)
    else if !Toggles(r, f) then NoChange
    else if armed then ToggleDisarms
    else if r.requireNeutral && !Centered(r, f.axes) then ArmRefused
    else Arms
  }

  predicate Fresh(r: Rules, t: Tick)
  {
    t.frame.Some? && t.age <= r.ttl
  }

  predicate NewFrame(s: Ctl, t: Tick)
  {
    t.frame.Some? && t.frame.value.seqNo != s.lastSeqSeen
  }

  function AfterButtons(r: Rules, s: Ctl, t: Tick): Ctl
  {
    if !NewFrame(s, t) then s else
    var s' := s.(lastSeqSeen := t.frame.value.seqNo);
    match Decide(r, s.armed, t.frame.value)
    case Arms => s'.(armed := true)
    case KillDisarms => s'.(armed := false)
    case ToggleDisarms => s'.(armed := false)
    case _ => s'
  }

  function AfterFailsafe(r: Rules, s: Ctl, t: Tick): Ctl
  {
    if !s.armed || r.failsafeDisarmS <= 0.0 then s
    else if Fresh(r, t) then s.(staleSince := None)
    else if s.staleSince.None? then s.(staleSince := Some(t.now))
    else if t.now - s.staleSince.value >= r.failsafeDisarmS then s.(armed := false)
    else s
  }

  function AfterDeadman(r: Rules, s: Ctl, t: Tick): Ctl
  {
    if s.armed && r.deadmanButton != "" && Fresh(r, t) && r.deadmanButton !in t.frame.value.held then s.(armed := false) else s
  }

  function Step(r: Rules, s: Ctl, t: Tick): Ctl
  {
    AfterDeadman(r, AfterFailsafe(r, AfterButtons(r, s, t), t), t)
  }

  function Run(r: Rules, ticks: seq<Tick>): Ctl
  {
    if ticks == [] then IDLE else Step(r, Run(r, ticks[..|ticks| - 1]), ticks[|ticks| - 1])
  }

  // ---------------------------------------------------------------- arming

  /** A tick that arms the buttons' way, whatever happens later in the same tick. */
  predicate ArmsAt(r: Rules, s: Ctl, t: Tick)
  {
    NewFrame(s, t) && Decide(r, s.armed, t.frame.value).Arms?
  }

  /** Exactly when a tick takes the vehicle from disarmed to armed. Freshness is not among the
      conditions: a new but stale frame arms, unless an old stale timer or the deadman undoes it at once. */
  lemma ArmedOnlyByEdge(r: Rules, s: Ctl, t: Tick)
    requires !s.armed
    ensures Step(r, s, t).armed <==>
      && NewFrame(s, t)
      && (exists b :: b in r.armButtons && b in t.frame.value.down)
      && (forall b :: b in r.killButtons ==> b !in t.frame.value.down && b !in t.frame.value.held)
      && (r.requireNeutral ==> Centered(r, t.frame.value.axes))
      && (r.failsafeDisarmS > 0.0 && !Fresh(r, t) && s.staleSince.Some? ==> t.now - s.staleSince.value < r.failsafeDisarmS)
      && (r.deadmanButton != "" && Fresh(r, t) ==> r.deadmanButton in t.frame.value.held)
  {
  }

  /** Where centring is asked for, a tick that would otherwise arm arms if and only if all six axes have a reading, each
      stick within the stick tolerance either way and each trigger up to the trigger tolerance. */
  lemma CentringDecides(r: Rules, s: Ctl, t: Tick)
    requires !s.armed && r.requireNeutral && Step(r.(requireNeutral := false), s, t).armed
    ensures var a := t.frame.value.axes;
            Step(r, s, t).armed <==>
              && (forall v :: v in [a.lx, a.ly, a.rx, a.ry] ==> v.Some? && -r.centerTol <= v.value <= r.centerTol)
              && (forall v :: v in [a.lt, a.rt] ==> v.Some? && v.value <= r.triggerTol)
  {
    ArmedOnlyByEdge(r, s, t);
    ArmedOnlyByEdge(r.(requireNeutral := false), s, t);
    hide Step;
    var a := t.frame.value.axes;
    assert a.lx in [a.lx, a.ly, a.rx, a.ry] && a.ly in [a.lx, a.ly, a.rx, a.ry] && a.rx in [a.lx, a.ly, a.rx, a.ry] && a.ry in [a.lx, a.ly, a.rx, a.ry];
    assert a.lt in [a.lt, a.rt] && a.rt in [a.lt, a.rt];
  }

  /** A frame of any age arms, if it is new. */
  lemma StaleFrameArms(r: Rules, now: real, age: real, b: string)
    requires b in r.armButtons && b !in r.killButtons && r.centerTol >= 0.0 && r.triggerTol >= 0.0
    requires age > r.ttl
    ensures var rest := Axes(Some(0.0), Some(0.0), Some(0.0), Some(0.0), Some(0.0), Some(0.0));
            var t := Tick(now, Some(Frame(0, {b}, {}, rest)), age);
            !Fresh(r, t) && Step(r, IDLE, t).armed
  {
  }

  /** The kill buttons win over everything, in a new frame of any age. */
  lemma KillWins(r: Rules, s: Ctl, t: Tick)
    requires NewFrame(s, t) && Kills(r, t.frame.value)
    ensures !Step(r, s, t).armed
  {
  }

  predicate SameFrame(seqNo: int, ticks: seq<Tick>)
  {
    forall i :: 0 <= i < |ticks| && ticks[i].frame.Some? ==> ticks[i].frame.value.seqNo == seqNo
  }

  function RunFrom(r: Rules, s: Ctl, ticks: seq<Tick>): Ctl
  {
    if ticks == [] then s else Step(r, RunFrom(r, s, ticks[..|ticks| - 1]), ticks[|ticks| - 1])
  }

  /** Reading the same frame again never acts on its buttons again: it cannot arm, and with the
      failsafe and the deadman off it changes nothing. */
  lemma {:induction false} SameFrameNeverToggles(r: Rules, s: Ctl, ticks: seq<Tick>)
    requires SameFrame(s.lastSeqSeen, ticks)
    ensures RunFrom(r, s, ticks).lastSeqSeen == s.lastSeqSeen
    ensures RunFrom(r, s, ticks).armed ==> s.armed
    ensures r.failsafeDisarmS <= 0.0 && r.deadmanButton == "" ==> RunFrom(r, s, ticks) == s
  {
    if ticks != [] {
      SameFrameNeverToggles(r, s, ticks[..|ticks| - 1]);
    }
  }

  // ---------------------------------------------------------------- failsafe

  predicate Ordered(ticks: seq<Tick>)
  {
    forall i, j :: 0 <= i <= j < |ticks| ==> ticks[i].now <= ticks[j].now
  }

  /** Time of the first stale tick after the last fresh tick, or at or after the last arming one. */
  function FirstStale(r: Rules, ticks: seq<Tick>): Option<real>
  {
    if ticks == [] then None else
    var before, t := ticks[..|ticks| - 1], ticks[|ticks| - 1];
    if Fresh(r, t) then None
    else if ArmsAt(r, Run(r, before), t) || FirstStale(r, before).None? then Some(t.now)
    else FirstStale(r, before)
  }

  /** While armed, the stale timer is running whenever it should, and started no later than FirstStale.
      It may have started earlier: it is not cleared while disarmed. */
  lemma {:induction false} StaleTimerRuns(r: Rules, ticks: seq<Tick>)
    requires Ordered(ticks) && r.failsafeDisarmS > 0.0
    ensures var s, first := Run(r, ticks), FirstStale(r, ticks);
            && (s.staleSince.Some? && ticks != [] ==> s.staleSince.value <= ticks[|ticks| - 1].now)
            && (first.Some? ==> ticks != [] && first.value <= ticks[|ticks| - 1].now)
            && (s.armed && first.None? ==> s.staleSince.None?)
            && (s.armed && first.Some? ==> s.staleSince.Some? && s.staleSince.value <= first.value
                                           && ticks[|ticks| - 1].now - s.staleSince.value < r.failsafeDisarmS)
            && (ticks == [] ==> s.staleSince.None?)
  {
    if ticks != [] {
      var n := |ticks| - 1;
      var before := ticks[..n];
      StaleTimerRuns(r, before);
      assert n > 0 ==> before[n - 1] == ticks[n - 1] && ticks[n - 1].now <= ticks[n].now;
      TimerStep(r, Run(r, before), ticks[n], FirstStale(r, before));
      hide Step, ArmsAt, Fresh;
    }
  }

  lemma TimerStep(r: Rules, s: Ctl, t: Tick, first: Option<real>)
    requires r.failsafeDisarmS > 0.0
    requires s.staleSince.Some? ==> s.staleSince.value <= t.now
    requires first.Some? ==> first.value <= t.now
    requires s.armed && first.None? ==> s.staleSince.None?
    requires s.armed && first.Some? ==> s.staleSince.Some? && s.staleSince.value <= first.value
    ensures var s', first' := Step(r, s, t), if Fresh(r, t) then None else if ArmsAt(r, s, t) || first.None? then Some(t.now) else first;
            && (s'.staleSince.Some? ==> s'.staleSince.value <= t.now)
            && (s'.armed && first'.None? ==> s'.staleSince.None?)
            && (s'.armed && first'.Some? ==> s'.staleSince.Some? && s'.staleSince.value <= first'.value
                                             && t.now - s'.staleSince.value < r.failsafeDisarmS)
  {
  }

  /** After every tick: armed means that the tick was fresh, or that less than the failsafe time has
      passed since the first stale tick following, or at, the last fresh-or-arming one. */
  lemma FailsafeHolds(r: Rules, ticks: seq<Tick>)
    requires Ordered(ticks) && ticks != [] && r.failsafeDisarmS > 0.0
    requires Run(r, ticks).armed
    ensures var last := ticks[|ticks| - 1];
            Fresh(r, last) || (FirstStale(r, ticks).Some? && last.now - FirstStale(r, ticks).value < r.failsafeDisarmS)
  {
    StaleTimerRuns(r, ticks);
  }

  /** Whether the running stale timer is older than the arming it counts for: the last stale arming tick since a
      fresh tick found a timer that was already running, left over from before a disarm. */
  predicate Inherited(r: Rules, ticks: seq<Tick>)
  {
    if ticks == [] then false else
    var before, t := ticks[..|ticks| - 1], ticks[|ticks| - 1];
    if Fresh(r, t) then false
    else if ArmsAt(r, Run(r, before), t) then FindsOlderTimer(Run(r, before), t)
    else Inherited(r, before)
  }

  predicate FindsOlderTimer(s: Ctl, t: Tick)
  {
    s.staleSince.Some? && s.staleSince.value < t.now
  }

  lemma InheritedStep(r: Rules, s: Ctl, t: Tick, first: Option<real>, inherited: bool)
    requires r.failsafeDisarmS > 0.0
    requires s.staleSince.Some? ==> s.staleSince.value <= t.now
    requires s.armed && first.None? ==> s.staleSince.None?
    requires s.armed && first.Some? ==> s.staleSince.Some? && s.staleSince.value <= first.value
    requires s.armed ==> (s.staleSince == first <==> !inherited)
    ensures var s' := Step(r, s, t);
            var first' := if Fresh(r, t) then None else if ArmsAt(r, s, t) || first.None? then Some(t.now) else first;
            var inherited' := if Fresh(r, t) then false else if ArmsAt(r, s, t) then FindsOlderTimer(s, t) else inherited;
            s'.armed ==> (s'.staleSince == first' <==> !inherited')
  {
  }

  /** While armed, the timer counts from the first stale tick if and only if no stale arming inherited an older one. */
  lemma {:induction false} TimerExact(r: Rules, ticks: seq<Tick>)
    requires Ordered(ticks) && r.failsafeDisarmS > 0.0
    ensures Run(r, ticks).armed ==> (Run(r, ticks).staleSince == FirstStale(r, ticks) <==> !Inherited(r, ticks))
  {
    if ticks != [] {
      var n := |ticks| - 1;
      var before := ticks[..n];
      TimerExact(r, before);
      StaleTimerRuns(r, before);
      assert n > 0 ==> before[n - 1] == ticks[n - 1] && ticks[n - 1].now <= ticks[n].now;
      InheritedStep(r, Run(r, before), ticks[n], FirstStale(r, before), Inherited(r, before));
      hide Step, ArmsAt, Fresh, FindsOlderTimer;
    }
  }

  /** The stale failsafe disarms in this tick. */
  predicate FailsafeFires(r: Rules, s: Ctl, t: Tick)
  {
    AfterButtons(r, s, t).armed && !AfterFailsafe(r, AfterButtons(r, s, t), t).armed
  }

  /** When the failsafe disarms a vehicle that its buttons leave armed: never on a fresh tick; on a stale one, without an
      inherited timer, exactly when the failsafe time has passed since the first stale tick. */
  lemma FailsafeOnTime(r: Rules, ticks: seq<Tick>, t: Tick)
    requires Ordered(ticks + [t]) && r.failsafeDisarmS > 0.0
    requires Run(r, ticks).armed && AfterButtons(r, Run(r, ticks), t).armed && !Inherited(r, ticks)
    ensures FailsafeFires(r, Run(r, ticks), t) <==>
      && !Fresh(r, t) && FirstStale(r, ticks).Some?
      && t.now - FirstStale(r, ticks).value >= r.failsafeDisarmS
  {
    assert forall i :: 0 <= i < |ticks| ==> (ticks + [t])[i] == ticks[i];
    TimerExact(r, ticks);
    hide Decide, Fresh, Run, FirstStale;
  }

  /** With an inherited timer it fires too soon: an older timer that a stale arming finds is kept. */
  lemma OlderTimerKept(r: Rules, ticks: seq<Tick>, t: Tick)
    requires Ordered(ticks + [t]) && r.failsafeDisarmS > 0.0
    requires ArmsAt(r, Run(r, ticks), t) && !Fresh(r, t) && FindsOlderTimer(Run(r, ticks), t)
    requires Step(r, Run(r, ticks), t).armed
    ensures Step(r, Run(r, ticks), t).staleSince == Run(r, ticks).staleSince
    ensures FirstStale(r, ticks + [t]) == Some(t.now) && Inherited(r, ticks + [t])
  {
    assert (ticks + [t])[..|ticks|] == ticks;
  }

  /** New but stale frames at 0, 1, 1.5 and 2 seconds: arm, toggle off, arm again, nothing. */
  function EarlyTicks(b: string): seq<Tick>
  {
    var rest := Axes(Some(0.0), Some(0.0), Some(0.0), Some(0.0), Some(0.0), Some(0.0));
    [Tick(0.0, Some(Frame(0, {b}, {}, rest)), 1.0), Tick(1.0, Some(Frame(1, {b}, {}, rest)), 1.0),
     Tick(1.5, Some(Frame(2, {b}, {}, rest)), 1.0), Tick(2.0, Some(Frame(3, {}, {}, rest)), 1.0)]
  }

  /** A failsafe of two seconds that disarms half a second after arming. */
  lemma FailsafeFiresEarly(b: string)
    ensures var r, ticks := Rules(0.5, [b], [], "", 2.0, true, 0.1, 0.1), EarlyTicks(b);
            && Run(r, ticks[..3]).armed && FirstStale(r, ticks[..3]) == Some(1.5)
            && FailsafeFires(r, Run(r, ticks[..3]), ticks[3]) && !Run(r, ticks).armed
            && ticks[3].now - 1.5 < r.failsafeDisarmS
  {
    var r, ticks := Rules(0.5, [b], [], "", 2.0, true, 0.1, 0.1), EarlyTicks(b);
    assert ticks[..4] == ticks && ticks[..4][..3] == ticks[..3] && ticks[..3][..2] == ticks[..2];
    assert ticks[..2][..1] == ticks[..1] && ticks[..1][..0] == [];
    assert b in r.armButtons;
    assert Run(r, ticks[..1]) == Ctl(true, 0, Some(0.0));
    assert Run(r, ticks[..2]) == Ctl(false, 1, Some(0.0));
    assert Run(r, ticks[..3]) == Ctl(true, 2, Some(0.0));
    assert ArmsAt(r, Run(r, ticks[..2]), ticks[2]);
  }

  /** Every tick is stale and none arms: there may be no frame, or old ones read again, the arming one among them. */
  predicate Silent(r: Rules, before: seq<Tick>, silent: seq<Tick>)
  {
    forall i :: 0 <= i < |silent| ==> !Fresh(r, silent[i]) && !ArmsAt(r, Run(r, before + silent[..i]), silent[i])
  }

  /** A stretch of ticks that are all stale and never arm ends disarmed once it has lasted the failsafe time. */
  lemma {:induction false} LongSilenceDisarms(r: Rules, before: seq<Tick>, silent: seq<Tick>)
    requires Ordered(before + silent) && silent != [] && r.failsafeDisarmS > 0.0
    requires Silent(r, before, silent)
    requires silent[|silent| - 1].now - silent[0].now >= r.failsafeDisarmS
    ensures !Run(r, before + silent).armed
  {
    var all := before + silent;
    if Run(r, all).armed {
      FailsafeHolds(r, all);
      assert all[|all| - 1] == silent[|silent| - 1];
      SilenceCounted(r, before, silent);
    }
  }

  lemma {:induction false} SilenceCounted(r: Rules, before: seq<Tick>, silent: seq<Tick>)
    requires Ordered(before + silent) && silent != [] && Silent(r, before, silent)
    ensures FirstStale(r, before + silent).Some? && FirstStale(r, before + silent).value <= silent[0].now
  {
    hide ArmsAt, Fresh, Run;
    var n := |silent| - 1;
    var all := before + silent;
    assert all[..|all| - 1] == before + silent[..n];
    assert all[|all| - 1] == silent[n];
    if n > 0 {
      assert Ordered(before + silent[..n]) by {
        assert forall i :: 0 <= i < |before + silent[..n]| ==> (before + silent[..n])[i] == all[i];
      }
      assert forall i :: 0 <= i < n ==> silent[..n][..i] == silent[..i];
      SilenceCounted(r, before, silent[..n]);
    } else {
      assert all[..|all| - 1] == before;
      StaleEarlier(r, before);
      assert before != [] ==> all[|before| - 1] == before[|before| - 1];
    }
  }

  lemma {:induction false} StaleEarlier(r: Rules, ticks: seq<Tick>)
    ensures FirstStale(r, ticks).Some? ==> exists i :: 0 <= i < |ticks| && ticks[i].now == FirstStale(r, ticks).value
  {
    if ticks != [] {
      var before := ticks[..|ticks| - 1];
      StaleEarlier(r, before);
      if FirstStale(r, before).Some? {
        var i :| 0 <= i < |before| && before[i].now == FirstStale(r, before).value;
        assert ticks[i] == before[i];
      }
    }
  }
}
