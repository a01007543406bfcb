/** control/station_keep.py: the visual station-keeping controller. */
module StationKeep {
  import opened Prelude
  import Windup

  datatype Dof = Surge | Sway | Heave | Yaw | Roll | Pitch

  datatype ErrorKey = Ex | Ey | Es | Er | Violation

  type Command = map<Dof, real>

  /** A name the source does not know makes `dof` or `key` None, and the axis is skipped. */
  datatype Axis = Axis(
    dof: Option<Dof>,
    key: Option<ErrorKey>,
    kp: real,
    ki: real,
    kd: real,
    errorDeadband: real,
    iLimit: real,
    outLimit: real,
    sign: real,
    manualDeadband: real,
    slew: real)

  datatype Config = Config(enable: bool, staleS: real, axes: seq<Axis>, directLimit: real)

  /** What the vision side publishes; missing or non-finite numbers are read as 0. */
  datatype Visual = Visual(valid: bool, ts: Option<real>, errors: map<ErrorKey, real>, command: Command)

  /** Per-axis memory is keyed by the axis' position in the configuration. */
  datatype State = State(
    iState: map<nat, real>,
    lastError: map<nat, real>,
    lastU: map<nat, real>,
    staleTimer: real,
    everValid: bool,
    lastEnabled: bool,
    lastTs: Option<real>)

  datatype Input = Input(enabled: bool, manual: Command, visual: Option<Visual>, dt: real)

  const RESET := State(map[], map[], map[], 0.0, false, false, None)

  const DIRECT_DEADBAND := 0.08

  function Get<K>(m: map<K, real>, k: K): real
  {
    if k in m then m[k] else 0.0
  }

  function Deadbanded(x: real, band: real): real
  {
    if Abs(x) < band then 0.0 else x
  }

  // ---------------------------------------------------------------- one axis

  predicate Known(ax: Axis)
  {
    ax.dof.Some? && ax.key.Some?
  }

  function AxisError(ax: Axis, v: Visual): real
    requires Known(ax)
  {
    Deadbanded(Get(v.errors, ax.key.value), ax.errorDeadband)
  }

  predicate Yields(ax: Axis, manual: Command)
    requires Known(ax)
  {
    Abs(Get(manual, ax.dof.value)) > ax.manualDeadband
  }

  function Drive(ax: Axis, err: real, i: real, dErr: real): real
  {
    ax.sign * (ax.kp * err + ax.ki * i + ax.kd * dErr)
  }

  predicate Integrates(ax: Axis, err: real, i: real, dErr: real): (b: bool)
    ensures b ==> ax.ki != 0.0
  {
    var u := Drive(ax, err, i, dErr);
    Abs(Clamp(u, -ax.outLimit, ax.outLimit) - u) <= 0.000000001 && ax.ki != 0.0 && err != 0.0
  }

  function NextIntegral(ax: Axis, err: real, i: real, dt: real): real
    requires ax.ki != 0.0
  {
    Windup.Next(ax.iLimit, ax.ki, i, err, dt)
  }

  /** Contribution before slewing. */
  function Wanted(ax: Axis, err: real, i: real, dErr: real): real
  {
    Clamp(Drive(ax, err, i, dErr), -ax.outLimit, ax.outLimit)
  }

  function Slewed(ax: Axis, u: real, prev: real, dt: real): real
  {
    if ax.slew > 0.0 then
      var maxStep := Product(ax.slew, dt);
      Clamp(u, prev - maxStep, prev + maxStep)
    else u
  }

  /** Axis `n` in control: its memory and its contribution after one step. */
  function Control(ax: Axis, s: State, n: nat, err: real, dt: real): (State, real)
    requires dt > 0.0
  {
    var dErr := if n in s.lastError then (err - s.lastError[n]) / dt else 0.0;
    var i0 := Get(s.iState, n);
    var i1 := if Integrates(ax, err, i0, dErr) then NextIntegral(ax, err, i0, dt) else i0;
    var u := Slewed(ax, Wanted(ax, err, i1, dErr), Get(s.lastU, n), dt);
    (s.(iState := if Integrates(ax, err, i0, dErr) then s.iState[n := i1] else s.iState,
        lastError := s.lastError[n := err],
        lastU := s.lastU[n := u]), u)
  }

  function Yielded(s: State, n: nat, err: real): State
  {
    s.(iState := s.iState[n := 0.0], lastError := s.lastError[n := err], lastU := s.lastU[n := 0.0])
  }

  datatype Folded = Folded(s: State, out: Command)

  function ApplyAxis(c: Config, f: Folded, v: Visual, manual: Command, n: nat, dt: real): Folded
    requires n < |c.axes| && dt > 0.0
  {
    var ax := c.axes[n];
    if !Known(ax) then f
    else if Yields(ax, manual) then Folded(Yielded(f.s, n, AxisError(ax, v)), f.out)
    else
      var (s', u) := Control(ax, f.s, n, AxisError(ax, v), dt);
      Folded(s', f.out[ax.dof.value := Clamp(Get(manual, ax.dof.value) + u, -1.0, 1.0)])
  }

  /** The first n axes, in order; two axes on one degree of freedom: the later one wins. */
  function ApplyAxes(c: Config, s: State, v: Visual, manual: Command, n: nat, dt: real): Folded
    requires n <= |c.axes| && dt > 0.0
  {
    if n == 0 then Folded(s, manual)
    else ApplyAxis(c, ApplyAxes(c, s, v, manual, n - 1, dt), v, manual, n - 1, dt)
  }

  /** Direct model outputs replace the axis outputs wherever the pilot is not driving. */
  function Direct(c: Config, v: Visual, manual: Command): Command
  {
    DirectOf(c, v, manual, v.command.Keys)
  }

  function DirectOf(c: Config, v: Visual, manual: Command, dofs: set<Dof>): Command
    requires dofs <= v.command.Keys
  {
    map d | d in dofs && Abs(Get(manual, d)) <= DIRECT_DEADBAND :: DirectValue(c, v.command[d])
  }

  function DirectValue(c: Config, raw: real): real
  {
    Clamp(Clamp(raw, -c.directLimit, c.directLimit), -1.0, 1.0)
  }

  // ---------------------------------------------------------------- one step

  function Forget(s: State): State
  {
    s.(iState := map[], lastError := map[], lastU := map[])
  }

  /** Frozen-producer timer: it runs while a valid lock repeats its timestamp. */
  function Timed(s: State, v: Visual, dt: real): State
  {
    var frozen := v.ts.Some? && s.everValid && v.ts == s.lastTs;
    s.(staleTimer := if frozen then s.staleTimer + dt else 0.0, lastTs := v.ts, everValid := true)
  }

  predicate Enabled(c: Config, x: Input)
  {
    x.enabled && c.enable
  }

  predicate Locked(x: Input)
  {
    x.visual.Some? && x.visual.value.valid
  }

  function Advance(c: Config, s: State, x: Input): Folded
  {
    var dt := StepLength(x.dt);
    if !Enabled(c, x) then Folded(if s.lastEnabled then RESET else s.(lastEnabled := false), x.manual)
    else if !Locked(x) then Folded(Forget(s).(staleTimer := 0.0, lastEnabled := true), x.manual)
    else
      var v := x.visual.value;
      var s1 := Timed(s, v, dt);
      if s1.staleTimer > c.staleS then Folded(Forget(s1).(lastEnabled := true), x.manual)
      else
        var f := ApplyAxes(c, s1, v, x.manual, |c.axes|, dt);
        Folded(f.s.(lastEnabled := true), f.out + Direct(c, v, x.manual))
  }

  function Run(c: Config, s: State, xs: seq<Input>): State
  {
    if xs == [] then s else Advance(c, Run(c, s, xs[..|xs| - 1]), xs[|xs| - 1]).s
  }

  // ---------------------------------------------------------------- the controller object

  class StationKeepController {
    const c: Config
    var iState: map<nat, real>
    var lastError: map<nat, real>
    var lastU: map<nat, real>
    var staleTimer: real
    var everValid: bool
    var lastEnabled: bool
    var lastTs: Option<real>

    ghost function Current(): State
      reads this
    {
      State(iState, lastError, lastU, staleTimer, everValid, lastEnabled, lastTs)
    }

    constructor (c: Config)
      ensures this.c == c && Current() == RESET
    {
      this.c := c;
      iState, lastError, lastU, staleTimer, everValid, lastEnabled, lastTs := map[], map[], map[], 0.0, false, false, None;
    }

    method Reset()
      modifies this
      ensures Current() == RESET
    {
      iState, lastError, lastU, staleTimer, everValid, lastEnabled, lastTs := map[], map[], map[], 0.0, false, false, None;
    }

    method ClearIntegrators()
      modifies this`iState, this`lastError, this`lastU
      ensures Current() == Forget(old(Current()))
    {
      iState, lastError, lastU := map[], map[], map[];
    }

    method StepAxis(n: nat, v: Visual, manual: Command, dt: real, out: Command) returns (out': Command)
      requires n < |c.axes| && dt > 0.0
      modifies this`iState, this`lastError, this`lastU
      ensures Folded(Current(), out') == ApplyAxis(c, Folded(old(Current()), out), v, manual, n, dt)
    {
      hide Drive, Integrates, NextIntegral, Slewed, Wanted;
      var ax := c.axes[n];
      if !Known(ax) {
        return out;
      }
      var err := AxisError(ax, v);
      if Yields(ax, manual) {
        iState, lastError, lastU := iState[n := 0.0], lastError[n := err], lastU[n := 0.0];
        return out;
      }
      var dErr := if n in lastError then (err - lastError[n]) / dt else 0.0;
      lastError := lastError[n := err];
      var i := Get(iState, n);
      if Integrates(ax, err, i, dErr) {
        i := NextIntegral(ax, err, i, dt);
        iState := iState[n := i];
      }
      var u := Slewed(ax, Wanted(ax, err, i, dErr), Get(lastU, n), dt);
      lastU := lastU[n := u];
      out' := out[ax.dof.value := Clamp(Get(manual, ax.dof.value) + u, -1.0, 1.0)];
    }

    method ApplyDirect(v: Visual, manual: Command, out: Command) returns (out': Command)
      ensures out' == out + Direct(c, v, manual)
    {
      hide DirectValue;
      out' := out;
      var left := v.command.Keys;
      while left != {}
        invariant left <= v.command.Keys
        invariant out' == out + DirectOf(c, v, manual, v.command.Keys - left)
        decreases left
      {
        var d :| d in left;
        ghost var done := v.command.Keys - left;
        left := left - {d};
        assert v.command.Keys - left == done + {d};
        if Abs(Get(manual, d)) <= DIRECT_DEADBAND {
          assert DirectOf(c, v, manual, done + {d}) == DirectOf(c, v, manual, done)[d := DirectValue(c, v.command[d])];
          out' := out'[d := DirectValue(c, v.command[d])];
        } else {
          assert DirectOf(c, v, manual, done + {d}) == DirectOf(c, v, manual, done);
        }
      }
      assert v.command.Keys - left == v.command.Keys;
    }

    method Step(x: Input) returns (out: Command)
      modifies this
      ensures Folded(Current(), out) == Advance(c, old(Current()), x)
    {
      hide ApplyAxis, Direct;
      var dt := StepLength(x.dt);
      out := x.manual;
      if !x.enabled || !c.enable {
        if lastEnabled {
          Reset();
        }
        lastEnabled := false;
        return;
      }
      if x.visual.None? || !x.visual.value.valid {
        staleTimer := 0.0;
        ClearIntegrators();
        lastEnabled := true;
        return;
      }
      var v := x.visual.value;
      if v.ts.Some? && everValid && v.ts == lastTs {
        staleTimer := staleTimer + dt;
      } else {
        staleTimer := 0.0;
      }
      lastTs := v.ts;
      everValid := true;
      if staleTimer > c.staleS {
        ClearIntegrators();
        lastEnabled := true;
        return;
      }
      ghost var s1 := Current();
      for n := 0 to |c.axes|
        invariant Folded(Current(), out) == ApplyAxes(c, s1, v, x.manual, n, dt)
      {
        out := StepAxis(n, v, x.manual, dt, out);
      }
      out := ApplyDirect(v, x.manual, out);
      lastEnabled := true;
    }
  }

  // ---------------------------------------------------------------- bounds

  predicate IntegralBounded(ax: Axis, i: real)
  {
    Windup.Bounded(ax.iLimit, ax.ki, i)
  }

  ghost predicate Bounded(c: Config, s: State)
  {
    forall n :: 0 <= n < |c.axes| ==>
      IntegralBounded(c.axes[n], Get(s.iState, n)) && Abs(Get(s.lastU, n)) <= Abs(c.axes[n].outLimit)
  }

  lemma ControlBounded(ax: Axis, s: State, n: nat, err: real, dt: real)
    requires dt > 0.0
    requires IntegralBounded(ax, Get(s.iState, n)) && Abs(Get(s.lastU, n)) <= Abs(ax.outLimit)
    ensures var (s', u) := Control(ax, s, n, err, dt);
            && IntegralBounded(ax, Get(s'.iState, n)) && Get(s'.lastU, n) == u && Abs(u) <= Abs(ax.outLimit)
            && (ax.slew > 0.0 ==> Abs(u - Get(s.lastU, n)) <= Product(ax.slew, dt))
  {
    hide Integrates, NextIntegral, IntegralBounded, Wanted, Slewed, Product;
    var dErr := if n in s.lastError then (err - s.lastError[n]) / dt else 0.0;
    var i0 := Get(s.iState, n);
    IntegralStep(ax, err, i0, dErr, dt);
    var i1 := if Integrates(ax, err, i0, dErr) then NextIntegral(ax, err, i0, dt) else i0;
    SlewStep(ax, err, i1, dErr, Get(s.lastU, n), dt);
  }

  lemma IntegralStep(ax: Axis, err: real, i: real, dErr: real, dt: real)
    requires IntegralBounded(ax, i)
    ensures Integrates(ax, err, i, dErr) ==> IntegralBounded(ax, NextIntegral(ax, err, i, dt))
  {
    hide Drive;
    if ax.ki != 0.0 {
      Windup.NextBounded(ax.iLimit, ax.ki, i, err, dt);
    }
  }

  lemma SlewStep(ax: Axis, err: real, i: real, dErr: real, prev: real, dt: real)
    requires dt > 0.0 && Abs(prev) <= Abs(ax.outLimit)
    ensures var u := Slewed(ax, Wanted(ax, err, i, dErr), prev, dt);
            Abs(u) <= Abs(ax.outLimit) && (ax.slew > 0.0 ==> Abs(u - prev) <= Product(ax.slew, dt))
  {
    hide Drive, Product;
    ClampSymmetric(Drive(ax, err, i, dErr), ax.outLimit);
    if ax.slew > 0.0 {
      SlewAllowance(ax.slew, dt);
    }
  }

  lemma SlewAllowance(slew: real, dt: real)
    requires slew > 0.0 && dt > 0.0
    ensures Product(slew, dt) > 0.0
  {
  }

  /** What the axes do to axis k's memory: only axis k touches it. */
  lemma {:induction false} AxesKeepOthers(c: Config, s: State, v: Visual, manual: Command, n: nat, dt: real, k: nat)
    requires n <= |c.axes| && dt > 0.0 && k >= n
    ensures var f := ApplyAxes(c, s, v, manual, n, dt);
            && Get(f.s.iState, k) == Get(s.iState, k) && Get(f.s.lastU, k) == Get(s.lastU, k) && Get(f.s.lastError, k) == Get(s.lastError, k)
            && (k in f.s.lastError <==> k in s.lastError)
  {
    hide ApplyAxis, Get;
    if n > 0 {
      AxesKeepOthers(c, s, v, manual, n - 1, dt, k);
      AxisLeavesOthers(c, ApplyAxes(c, s, v, manual, n - 1, dt), v, manual, n - 1, dt, k);
    }
  }

  lemma AxisLeavesOthers(c: Config, f: Folded, v: Visual, manual: Command, n: nat, dt: real, k: nat)
    requires n < |c.axes| && dt > 0.0 && k != n
    ensures var g := ApplyAxis(c, f, v, manual, n, dt);
            && Get(g.s.iState, k) == Get(f.s.iState, k) && Get(g.s.lastU, k) == Get(f.s.lastU, k)
            && Get(g.s.lastError, k) == Get(f.s.lastError, k) && (k in g.s.lastError <==> k in f.s.lastError)
  {
    hide Slewed, Wanted, Integrates, NextIntegral, Yields;
  }

  lemma AxisOwnStep(c: Config, f: Folded, v: Visual, manual: Command, k: nat, dt: real)
    requires k < |c.axes| && dt > 0.0
    requires IntegralBounded(c.axes[k], Get(f.s.iState, k)) && Abs(Get(f.s.lastU, k)) <= Abs(c.axes[k].outLimit)
    ensures var ax, g := c.axes[k], ApplyAxis(c, f, v, manual, k, dt);
            && IntegralBounded(ax, Get(g.s.iState, k)) && Abs(Get(g.s.lastU, k)) <= Abs(ax.outLimit)
            && (Known(ax) && Yields(ax, manual) ==> Get(g.s.lastU, k) == 0.0 && Get(g.s.iState, k) == 0.0)
            && (Known(ax) && !Yields(ax, manual) && ax.slew > 0.0 ==>
                  Abs(Get(g.s.lastU, k) - Get(f.s.lastU, k)) <= Product(ax.slew, dt))
  {
    hide Control, Product;
    var ax := c.axes[k];
    if Known(ax) && !Yields(ax, manual) {
      ControlBounded(ax, f.s, k, AxisError(ax, v), dt);
    } else {
      ZeroBounded(ax);
    }
  }

  lemma ZeroBounded(ax: Axis)
    ensures IntegralBounded(ax, 0.0)
  {
  }

  /** Axis k over the first n axes: its contribution and integral stay bounded, and with slewing it moves
      at most slew times dt while in control, from what it last contributed, or from 0. */
  lemma {:induction false} AxisBounded(c: Config, s: State, v: Visual, manual: Command, n: nat, dt: real, k: nat)
    requires n <= |c.axes| && dt > 0.0 && k < |c.axes|
    requires Bounded(c, s)
    ensures var ax, f := c.axes[k], ApplyAxes(c, s, v, manual, n, dt);
            && IntegralBounded(ax, Get(f.s.iState, k)) && Abs(Get(f.s.lastU, k)) <= Abs(ax.outLimit)
            && (k < n && Known(ax) && Yields(ax, manual) ==> Get(f.s.lastU, k) == 0.0 && Get(f.s.iState, k) == 0.0)
            && (k < n && Known(ax) && !Yields(ax, manual) && ax.slew > 0.0 ==>
                  Abs(Get(f.s.lastU, k) - Get(s.lastU, k)) <= Product(ax.slew, dt))
  {
    hide ApplyAxis, Product, IntegralBounded, Known, Yields;
    if n > 0 {
      AxisBounded(c, s, v, manual, n - 1, dt, k);
      var f := ApplyAxes(c, s, v, manual, n - 1, dt);
      if k == n - 1 {
        AxesKeepOthers(c, s, v, manual, n - 1, dt, k);
        AxisOwnStep(c, f, v, manual, k, dt);
      } else {
        AxisLeavesOthers(c, f, v, manual, n - 1, dt, k);
      }
    }
  }

  /** Every step keeps every axis' contribution within its output limit and its integral within the integral limit. */
  lemma StepKeepsBounded(c: Config, s: State, x: Input)
    requires Bounded(c, s)
    ensures Bounded(c, Advance(c, s, x).s)
  {
    var dt := StepLength(x.dt);
    if Enabled(c, x) && Locked(x) {
      var s1 := Timed(s, x.visual.value, dt);
      forall k: nat | k < |c.axes|
        ensures var f := ApplyAxes(c, s1, x.visual.value, x.manual, |c.axes|, dt);
                IntegralBounded(c.axes[k], Get(f.s.iState, k)) && Abs(Get(f.s.lastU, k)) <= Abs(c.axes[k].outLimit)
      {
        AxisBounded(c, s1, x.visual.value, x.manual, |c.axes|, dt, k);
      }
    }
    hide ApplyAxes;
    EmptyBounded(c);
  }

  lemma EmptyBounded(c: Config)
    ensures forall s: State :: s.iState == map[] && s.lastU == map[] ==> Bounded(c, s)
  {
  }

  lemma {:induction false} RunKeepsBounded(c: Config, xs: seq<Input>)
    ensures Bounded(c, Run(c, RESET, xs))
  {
    EmptyBounded(c);
    if xs != [] {
      RunKeepsBounded(c, xs[..|xs| - 1]);
      StepKeepsBounded(c, Run(c, RESET, xs[..|xs| - 1]), xs[|xs| - 1]);
    }
  }

  /** A controller that is off remembers nothing. */
  lemma {:induction false} OffForgets(c: Config, xs: seq<Input>)
    ensures var s := Run(c, RESET, xs); !s.lastEnabled ==> s.lastU == map[] && s.iState == map[] && s.lastError == map[]
  {
    hide ApplyAxes, Direct;
    if xs != [] {
      OffForgets(c, xs[..|xs| - 1]);
    }
  }

  /** With slewing, from one step of any run to the next an axis moves at most slew times dt; after a lost or
      stale lock, after the pilot has driven it, or after disabling, it starts again from 0. */
  lemma SlewBetweenSteps(c: Config, xs: seq<Input>, x: Input, k: nat)
    requires k < |c.axes| && Known(c.axes[k]) && c.axes[k].slew > 0.0
    ensures var s := Run(c, RESET, xs);
            var s' := Advance(c, s, x).s;
            var ax := c.axes[k];
            var dt := StepLength(x.dt);
            if !Enabled(c, x) || !Locked(x) || Timed(s, x.visual.value, dt).staleTimer > c.staleS || Yields(ax, x.manual)
            then Get(s'.lastU, k) == 0.0
            else Abs(Get(s'.lastU, k) - Get(s.lastU, k)) <= Product(ax.slew, dt)
  {
    var s := Run(c, RESET, xs);
    var dt := StepLength(x.dt);
    RunKeepsBounded(c, xs);
    OffForgets(c, xs);
    hide Product, ApplyAxes, Run;
    if Enabled(c, x) && Locked(x) {
      AxisBounded(c, Timed(s, x.visual.value, dt), x.visual.value, x.manual, |c.axes|, dt, k);
    }
  }

  // ---------------------------------------------------------------- a frozen producer

  /** Station-keep left on, with a valid lock that repeats timestamp t. */
  predicate FrozenAt(c: Config, x: Input, t: real)
  {
    Enabled(c, x) && Locked(x) && x.visual.value.ts == Some(t)
  }

  function Elapsed(xs: seq<Input>): (t: real)
    ensures t >= 0.0
    ensures xs != [] ==> t > 0.0
  {
    if xs == [] then 0.0 else Elapsed(xs[..|xs| - 1]) + StepLength(xs[|xs| - 1].dt)
  }

  lemma {:induction false} AxesKeepTimer(c: Config, s: State, v: Visual, manual: Command, n: nat, dt: real)
    requires n <= |c.axes| && dt > 0.0
    ensures var f := ApplyAxes(c, s, v, manual, n, dt);
            f.s.staleTimer == s.staleTimer && f.s.lastTs == s.lastTs && f.s.everValid == s.everValid
  {
    hide Slewed, Wanted, Integrates, NextIntegral;
    if n > 0 {
      AxesKeepTimer(c, s, v, manual, n - 1, dt);
    }
  }

  /** Over any run that repeats the timestamp the timer is the time elapsed, and from the moment it passes
      the limit every output is the manual command: time only adds up. */
  lemma {:induction false} FrozenLockYields(c: Config, s: State, xs: seq<Input>, t: real)
    requires s.everValid && s.lastTs == Some(t)
    requires forall i :: 0 <= i < |xs| ==> FrozenAt(c, xs[i], t)
    ensures var s' := Run(c, s, xs);
            s'.everValid && s'.lastTs == Some(t) && s'.staleTimer == s.staleTimer + Elapsed(xs)
    ensures xs != [] && s.staleTimer + Elapsed(xs) > c.staleS ==>
              Advance(c, Run(c, s, xs[..|xs| - 1]), xs[|xs| - 1]).out == xs[|xs| - 1].manual
  {
    if xs != [] {
      var n := |xs| - 1;
      FrozenLockYields(c, s, xs[..n], t);
      var before := Run(c, s, xs[..n]);
      var dt := StepLength(xs[n].dt);
      var v := xs[n].visual.value;
      assert FrozenAt(c, xs[n], t);
      AxesKeepTimer(c, Timed(before, v, dt), v, xs[n].manual, |c.axes|, dt);
      hide ApplyAxes, Direct;
    }
  }

  /** Any change of the timestamp lets the axes act again in the same step. */
  lemma NewTimestampThaws(c: Config, s: State, x: Input)
    requires Enabled(c, x) && Locked(x) && x.visual.value.ts.Some? && x.visual.value.ts != s.lastTs && c.staleS >= 0.0
    ensures var s1 := Timed(s, x.visual.value, StepLength(x.dt));
            var f := ApplyAxes(c, s1, x.visual.value, x.manual, |c.axes|, StepLength(x.dt));
            s1.staleTimer == 0.0 && Advance(c, s, x).out == f.out + Direct(c, x.visual.value, x.manual)
  {
  }
}
