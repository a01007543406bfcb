/** control/station_keep.py: which way an axis pushes, and how far, in terms of the visual error and its changes alone. */
module KeepLaws {
  import opened Prelude
  import opened StationKeep
  import opened Feedback
  import Windup

  /** Enabled, with a valid lock that is not frozen for too long. */
  predicate InControl(c: Config, s: State, x: Input)
  {
    Enabled(c, x) && Locked(x) && Timed(s, x.visual.value, StepLength(x.dt)).staleTimer <= c.staleS
  }

  /** Axis k acts in this step. */
  predicate Acts(c: Config, s: State, x: Input, k: nat)
  {
    InControl(c, s, x) && k < |c.axes| && Known(c.axes[k]) && Abs(Get(x.manual, c.axes[k].dof.value)) <= c.axes[k].manualDeadband
  }

  /** What axis k adds to the command in this step. */
  function Pushes(c: Config, s: State, x: Input, k: nat): real
  {
    Get(Advance(c, s, x).s.lastU, k)
  }

  /** The published error that axis k works on. */
  function Seen(c: Config, x: Input, k: nat): (e: real)
    requires Locked(x) && k < |c.axes| && Known(c.axes[k])
  {
    Get(x.visual.value.errors, c.axes[k].key.value)
  }

  function Banded(ax: Axis, e: real): real
  {
    if Abs(e) < ax.errorDeadband then 0.0 else e
  }

  /** How fast the error grows; not known to an axis that has no error to compare with. */
  function Growth(c: Config, s: State, x: Input, k: nat): real
    requires Locked(x) && k < |c.axes| && Known(c.axes[k])
  {
    if k in s.lastError then (Banded(c.axes[k], Seen(c, x, k)) - s.lastError[k]) / StepLength(x.dt) else 0.0
  }

  // ---------------------------------------------------------------- from the whole step to one axis

  /** In the step of the whole controller each axis takes its own step, from its own memory. */
  lemma AxisStep(c: Config, s: State, x: Input, k: nat)
    requires Acts(c, s, x, k)
    ensures var ax, s' := c.axes[k], Advance(c, s, x).s;
            var own := Control(ax, s, k, Banded(ax, Seen(c, x, k)), StepLength(x.dt));
            && Pushes(c, s, x, k) == own.1 && Get(s'.iState, k) == Get(own.0.iState, k)
            && k in s'.lastError && s'.lastError[k] == Banded(ax, Seen(c, x, k))
  {
    var v, dt := x.visual.value, StepLength(x.dt);
    AxesStep(c, Timed(s, v, dt), v, x.manual, |c.axes|, dt, k);
    SameControl(c.axes[k], Timed(s, v, dt), s, k, Banded(c.axes[k], Seen(c, x, k)), dt);
    hide ApplyAxes, Control;
  }

  lemma {:induction false} AxesStep(c: Config, s: State, v: Visual, manual: Command, n: nat, dt: real, k: nat)
    requires k < n <= |c.axes| && dt > 0.0 && Known(c.axes[k]) && !Yields(c.axes[k], manual)
    ensures var f, own := ApplyAxes(c, s, v, manual, n, dt).s, Control(c.axes[k], s, k, AxisError(c.axes[k], v), dt);
            && Get(f.lastU, k) == own.1 && Get(f.iState, k) == Get(own.0.iState, k)
            && k in f.lastError && f.lastError[k] == AxisError(c.axes[k], v)
  {
    var before := ApplyAxes(c, s, v, manual, n - 1, dt);
    hide ApplyAxes, ApplyAxis, Control, AxisError;
    assert ApplyAxes(c, s, v, manual, n, dt) == ApplyAxis(c, before, v, manual, n - 1, dt) by {
      Unfolds(c, s, v, manual, n, dt);
    }
    if k == n - 1 {
      AxesKeepOthers(c, s, v, manual, k, dt, k);
      SameControl(c.axes[k], before.s, s, k, AxisError(c.axes[k], v), dt);
      OwnStep(c, before, v, manual, k, dt);
    } else {
      AxesStep(c, s, v, manual, n - 1, dt, k);
      AxisLeavesOthers(c, before, v, manual, n - 1, dt, k);
    }
  }

  lemma NoAxes(c: Config, s: State, v: Visual, manual: Command, dt: real)
    requires dt > 0.0
    ensures ApplyAxes(c, s, v, manual, 0, dt) == Folded(s, manual)
  {
  }

  lemma Unfolds(c: Config, s: State, v: Visual, manual: Command, n: nat, dt: real)
    requires 0 < n <= |c.axes| && dt > 0.0
    ensures ApplyAxes(c, s, v, manual, n, dt) == ApplyAxis(c, ApplyAxes(c, s, v, manual, n - 1, dt), v, manual, n - 1, dt)
  {
  }

  lemma OwnStep(c: Config, f: Folded, v: Visual, manual: Command, k: nat, dt: real)
    requires k < |c.axes| && dt > 0.0 && Known(c.axes[k]) && !Yields(c.axes[k], manual)
    ensures var g, own := ApplyAxis(c, f, v, manual, k, dt), Control(c.axes[k], f.s, k, AxisError(c.axes[k], v), dt);
            && Get(g.s.lastU, k) == own.1 && Get(g.s.iState, k) == Get(own.0.iState, k)
            && k in g.s.lastError && g.s.lastError[k] == AxisError(c.axes[k], v)
            && g.out == f.out[c.axes[k].dof.value := Clamp(Get(manual, c.axes[k].dof.value) + own.1, -1.0, 1.0)]
  {
    hide Slewed, Wanted, Integrates, NextIntegral;
  }

  lemma SameControl(ax: Axis, s: State, t: State, n: nat, err: real, dt: real)
    requires dt > 0.0 && Get(s.iState, n) == Get(t.iState, n) && Get(s.lastU, n) == Get(t.lastU, n)
    requires Get(s.lastError, n) == Get(t.lastError, n) && (n in s.lastError <==> n in t.lastError)
    ensures var a, b := Control(ax, s, n, err, dt), Control(ax, t, n, err, dt);
            a.1 == b.1 && Get(a.0.iState, n) == Get(b.0.iState, n)
  {
    hide Slewed, Wanted, Integrates, NextIntegral;
  }

  /** No other axis works on the degree of freedom of axis k, and no direct command does. */
  predicate Alone(c: Config, x: Input, k: nat)
    requires Locked(x) && k < |c.axes|
  {
    && (forall j :: 0 <= j < |c.axes| && j != k && Known(c.axes[j]) ==> c.axes[j].dof != c.axes[k].dof)
    && (c.axes[k].dof.Some? ==> c.axes[k].dof.value !in x.visual.value.command)
  }

  /** What an axis adds is added to the pilot's command on its own degree of freedom, within full command. */
  lemma PushIsAdded(c: Config, s: State, x: Input, k: nat)
    requires Acts(c, s, x, k) && Alone(c, x, k)
    ensures var d, out := c.axes[k].dof.value, Advance(c, s, x).out;
            d in out && out[d] == Clamp(Get(x.manual, d) + Pushes(c, s, x, k), -1.0, 1.0)
  {
    var v, dt := x.visual.value, StepLength(x.dt);
    AxesOut(c, Timed(s, v, dt), v, x.manual, |c.axes|, dt, k);
    hide ApplyAxes;
  }

  lemma {:induction false} AxesOut(c: Config, s: State, v: Visual, manual: Command, n: nat, dt: real, k: nat)
    requires n <= |c.axes| && k < |c.axes| && dt > 0.0 && Known(c.axes[k]) && !Yields(c.axes[k], manual)
    requires forall j :: 0 <= j < |c.axes| && j != k && Known(c.axes[j]) ==> c.axes[j].dof != c.axes[k].dof
    ensures var f, d := ApplyAxes(c, s, v, manual, n, dt), c.axes[k].dof.value;
            && (n > k ==> d in f.out && f.out[d] == Clamp(Get(manual, d) + Get(f.s.lastU, k), -1.0, 1.0))
            && (n <= k ==> Get(f.out, d) == Get(manual, d))
  {
    hide ApplyAxes, ApplyAxis, Control, AxisError, Yields, Clamp;
    if n == 0 {
      NoAxes(c, s, v, manual, dt);
    } else {
      var before := ApplyAxes(c, s, v, manual, n - 1, dt);
      AxesOut(c, s, v, manual, n - 1, dt, k);
      Unfolds(c, s, v, manual, n, dt);
      if k == n - 1 {
        OwnStep(c, before, v, manual, k, dt);
      } else {
        AxisLeavesOthers(c, before, v, manual, n - 1, dt, k);
        AxisLeavesOut(c, before, v, manual, n - 1, dt, c.axes[k].dof.value);
      }
    }
  }

  lemma AxisLeavesOut(c: Config, f: Folded, v: Visual, manual: Command, n: nat, dt: real, d: Dof)
    requires n < |c.axes| && dt > 0.0 && (Known(c.axes[n]) ==> c.axes[n].dof != Some(d))
    ensures var g := ApplyAxis(c, f, v, manual, n, dt); (d in g.out <==> d in f.out) && Get(g.out, d) == Get(f.out, d)
  {
    hide Control;
  }

  /** A direct command replaces whatever the axes say where the stick is at rest, cut to the direct limit and to full command. */
  lemma DirectReplaces(c: Config, s: State, x: Input, d: Dof)
    requires InControl(c, s, x) && d in x.visual.value.command && c.directLimit >= 0.0
    ensures var out, raw, limit := Advance(c, s, x).out, x.visual.value.command[d], Min(c.directLimit, 1.0);
            && (Abs(Get(x.manual, d)) <= 0.08 ==> d in out && out[d] == if raw > 0.0 then Min(raw, limit) else Max(raw, -limit))
            && (Abs(Get(x.manual, d)) > 0.08 ==> Get(out, d) == Get(ApplyAxes(c, Timed(s, x.visual.value, StepLength(x.dt)), x.visual.value, x.manual, |c.axes|, StepLength(x.dt)).out, d))
  {
    hide ApplyAxes;
  }

  /** The stick beyond an axis' deadband either way takes that axis over: it adds nothing and remembers no integral, and
      the pilot's command stands. */
  lemma PilotTakesOver(c: Config, s: State, x: Input, k: nat)
    requires InControl(c, s, x) && k < |c.axes| && Known(c.axes[k]) && Alone(c, x, k) && c.axes[k].manualDeadband >= 0.0
    requires var stick := Get(x.manual, c.axes[k].dof.value); stick > c.axes[k].manualDeadband || stick < -c.axes[k].manualDeadband
    ensures Pushes(c, s, x, k) == 0.0 && Get(Advance(c, s, x).s.iState, k) == 0.0
    ensures Get(Advance(c, s, x).out, c.axes[k].dof.value) == Get(x.manual, c.axes[k].dof.value)
  {
    var v, dt := x.visual.value, StepLength(x.dt);
    AxesYield(c, Timed(s, v, dt), v, x.manual, |c.axes|, dt, k);
    hide ApplyAxes;
  }

  lemma {:induction false} AxesYield(c: Config, s: State, v: Visual, manual: Command, n: nat, dt: real, k: nat)
    requires n <= |c.axes| && k < |c.axes| && dt > 0.0 && Known(c.axes[k]) && Yields(c.axes[k], manual)
    requires forall j :: 0 <= j < |c.axes| && j != k && Known(c.axes[j]) ==> c.axes[j].dof != c.axes[k].dof
    ensures var f, d := ApplyAxes(c, s, v, manual, n, dt), c.axes[k].dof.value;
            && Get(f.out, d) == Get(manual, d)
            && (n > k ==> Get(f.s.lastU, k) == 0.0 && Get(f.s.iState, k) == 0.0)
  {
    hide ApplyAxes, ApplyAxis, Control, AxisError, Yields, Clamp;
    if n == 0 {
      NoAxes(c, s, v, manual, dt);
    } else {
      var before := ApplyAxes(c, s, v, manual, n - 1, dt);
      AxesYield(c, s, v, manual, n - 1, dt, k);
      Unfolds(c, s, v, manual, n, dt);
      if k == n - 1 {
        OwnYield(c, before, v, manual, k, dt);
      } else {
        AxisLeavesOthers(c, before, v, manual, n - 1, dt, k);
        AxisLeavesOut(c, before, v, manual, n - 1, dt, c.axes[k].dof.value);
      }
    }
  }

  lemma OwnYield(c: Config, f: Folded, v: Visual, manual: Command, k: nat, dt: real)
    requires k < |c.axes| && dt > 0.0 && Known(c.axes[k]) && Yields(c.axes[k], manual)
    ensures var g := ApplyAxis(c, f, v, manual, k, dt); g.out == f.out && Get(g.s.lastU, k) == 0.0 && Get(g.s.iState, k) == 0.0
  {
    hide Control;
  }

  // ---------------------------------------------------------------- the answer to an error

  /** Without integral gain and slewing, and without derivative gain or anything to compare with, an axis answers the error
      it sees: with it for sign 1, by |sign| * kp * the error, within its limit. Inside the error deadband it adds nothing. */
  lemma PushAnswersError(c: Config, s: State, x: Input, k: nat)
    requires Acts(c, s, x, k)
    requires var ax := c.axes[k];
             ax.kp >= 0.0 && ax.ki == 0.0 && ax.slew <= 0.0 && ax.outLimit >= 0.0 && (ax.kd == 0.0 || k !in s.lastError)
    ensures var ax, e := c.axes[k], Seen(c, x, k);
            && (Abs(e) < ax.errorDeadband ==> Pushes(c, s, x, k) == 0.0)
            && (Abs(e) >= ax.errorDeadband ==> Answers(Pushes(c, s, x, k), ax.sign, ax.kp, e, ax.outLimit))
  {
    hide Advance, Answers, Drive, Timed;
    PushIs(c, s, x, k);
    var ax, e := c.axes[k], Banded(c.axes[k], Seen(c, x, k));
    PurelyProportional(ax, e, Get(Advance(c, s, x).s.iState, k), Growth(c, s, x, k));
    ProportionalAnswers(ax.sign, ax.kp, e, ax.outLimit);
    ProductSign(ax.kp, 0.0);
    ProductSign(ax.sign, Product(ax.kp, 0.0));
  }

  /** Without slewing an axis adds its feedback sum, with the integral as it is after the step, within its limit. */
  lemma PushIs(c: Config, s: State, x: Input, k: nat)
    requires Acts(c, s, x, k) && c.axes[k].slew <= 0.0
    ensures var ax, e, i := c.axes[k], Banded(c.axes[k], Seen(c, x, k)), Get(Advance(c, s, x).s.iState, k);
            Pushes(c, s, x, k) == Clamp(Drive(ax, e, i, Growth(c, s, x, k)), -ax.outLimit, ax.outLimit)
  {
    hide Advance, Drive, Integrates, NextIntegral;
    AxisStep(c, s, x, k);
  }

  lemma PurelyProportional(ax: Axis, e: real, i: real, d: real)
    requires ax.ki == 0.0 && (ax.kd == 0.0 || d == 0.0)
    ensures Drive(ax, e, i, d) == Product(ax.sign, Product(ax.kp, e))
  {
    assert ax.kd * d == 0.0;
  }

  /** Of two steps of an axis with sign >= 0, the one with no less error, no smaller integral and no slower growth of the
      error adds no less. */
  lemma PushMonotone(c: Config, s1: State, x1: Input, s2: State, x2: Input, k: nat)
    requires Acts(c, s1, x1, k) && Acts(c, s2, x2, k)
    requires var ax := c.axes[k];
             ax.sign >= 0.0 && ax.kp >= 0.0 && ax.ki >= 0.0 && ax.kd >= 0.0 && ax.slew <= 0.0 && ax.outLimit >= 0.0
    requires Seen(c, x1, k) <= Seen(c, x2, k) && Growth(c, s1, x1, k) <= Growth(c, s2, x2, k)
    requires Get(Advance(c, s1, x1).s.iState, k) <= Get(Advance(c, s2, x2).s.iState, k)
    ensures Pushes(c, s1, x1, k) <= Pushes(c, s2, x2, k)
  {
    hide Advance, Drive, Sum, Timed, Growth;
    PushIs(c, s1, x1, k);
    PushIs(c, s2, x2, k);
    var ax, i1, i2 := c.axes[k], Get(Advance(c, s1, x1).s.iState, k), Get(Advance(c, s2, x2).s.iState, k);
    var e1, e2, d1, d2 := Banded(ax, Seen(c, x1, k)), Banded(ax, Seen(c, x2, k)), Growth(c, s1, x1, k), Growth(c, s2, x2, k);
    DriveIs(ax, e1, i1, d1);
    DriveIs(ax, e2, i2, d2);
    SumMono(ax.sign, ax.kp, ax.ki, ax.kd, e1, e2, i1, i2, d1, d2, ax.outLimit);
  }

  lemma DriveIs(ax: Axis, e: real, i: real, d: real)
    ensures Drive(ax, e, i, d) == Sum(ax.sign, ax.kp, ax.ki, ax.kd, e, i, d)
  {
  }

  /** While an axis would be inside its limit, but for a tolerance, its integral gathers the error over time, up to its band;
      while it would be outside, and inside the error deadband, the integral stands still. */
  lemma IntegralGathers(c: Config, s: State, x: Input, k: nat)
    requires Acts(c, s, x, k)
    requires var ax := c.axes[k];
             ax.ki != 0.0 && ax.iLimit >= 0.0 && ax.outLimit >= 0.0 && Windup.Bounded(ax.iLimit, ax.ki, Get(s.iState, k))
    ensures var ax, e, i, next := c.axes[k], Banded(c.axes[k], Seen(c, x, k)), Get(s.iState, k), Get(Advance(c, s, x).s.iState, k);
            var wanted, band := Sum(ax.sign, ax.kp, ax.ki, ax.kd, e, i, Growth(c, s, x, k)), ax.iLimit / Abs(ax.ki);
            && (e == 0.0 || Abs(wanted) > ax.outLimit + 0.000000001 ==> next == i)
            && (Abs(wanted) <= ax.outLimit + 0.000000001 && e >= 0.0 ==> next == Min(band, i + e * StepLength(x.dt)))
            && (Abs(wanted) <= ax.outLimit + 0.000000001 && e <= 0.0 ==> next == Max(-band, i + e * StepLength(x.dt)))
  {
    hide Advance, Sum, Control, Windup.Bounded;
    AxisStep(c, s, x, k);
    ControlGathers(c.axes[k], s, k, Banded(c.axes[k], Seen(c, x, k)), StepLength(x.dt));
  }

  lemma ControlGathers(ax: Axis, s: State, n: nat, e: real, dt: real)
    requires dt > 0.0 && ax.ki != 0.0 && ax.iLimit >= 0.0 && ax.outLimit >= 0.0 && Windup.Bounded(ax.iLimit, ax.ki, Get(s.iState, n))
    ensures var d := if n in s.lastError then (e - s.lastError[n]) / dt else 0.0;
            var i, next, band := Get(s.iState, n), Get(Control(ax, s, n, e, dt).0.iState, n), ax.iLimit / Abs(ax.ki);
            var wanted := Sum(ax.sign, ax.kp, ax.ki, ax.kd, e, i, d);
            && (e == 0.0 || Abs(wanted) > ax.outLimit + 0.000000001 ==> next == i)
            && (Abs(wanted) <= ax.outLimit + 0.000000001 && e >= 0.0 ==> next == Min(band, i + e * dt))
            && (Abs(wanted) <= ax.outLimit + 0.000000001 && e <= 0.0 ==> next == Max(-band, i + e * dt))
  {
    hide Sum, Drive, Windup.Next, Windup.Bounded, Slewed, Wanted;
    var i := Get(s.iState, n);
    DriveIs(ax, e, i, if n in s.lastError then (e - s.lastError[n]) / dt else 0.0);
    Windup.NextGathers(ax.iLimit, ax.ki, i, e, dt);
    Windup.BandHolds(ax.iLimit, ax.ki, i);
    assert e == 0.0 ==> e * dt == 0.0;
  }

  /** With slewing an axis goes to what it would add without, as far as slew times dt lets it from what it last added. */
  lemma PushSlews(c: Config, s: State, x: Input, k: nat)
    requires Acts(c, s, x, k) && c.axes[k].slew > 0.0
    ensures var free := c.(axes := c.axes[k := c.axes[k].(slew := 0.0)]);
            var was, wanted, u, step := Get(s.lastU, k), Pushes(free, s, x, k), Pushes(c, s, x, k), Product(c.axes[k].slew, StepLength(x.dt));
            && (Abs(wanted - was) <= step ==> u == wanted)
            && (wanted > was + step ==> u == was + step)
            && (wanted < was - step ==> u == was - step)
  {
    var ax, e := c.axes[k], Banded(c.axes[k], Seen(c, x, k));
    var free := c.(axes := c.axes[k := ax.(slew := 0.0)]);
    hide Advance, Drive, Product;
    AxisStep(c, s, x, k);
    AxisStep(free, s, x, k);
    SlewAllowance(ax.slew, StepLength(x.dt));
    SameWanted(ax, s, k, e, StepLength(x.dt));
    hide Control;
  }

  lemma SameWanted(ax: Axis, s: State, n: nat, err: real, dt: real)
    requires dt > 0.0
    ensures Control(ax, s, n, err, dt).1 == Slewed(ax, Control(ax.(slew := 0.0), s, n, err, dt).1, Get(s.lastU, n), dt)
  {
    var free := ax.(slew := 0.0);
    assert forall e, i, d :: Drive(free, e, i, d) == Drive(ax, e, i, d);
    hide Drive, Windup.Next, Product;
  }
}
