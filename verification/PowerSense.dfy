/** sensors/power_sense.py: median of a burst of samples, channel choice, and the outlier filter. */
module PowerSense {
  import opened Prelude

  // ---------------------------------------------------------------- median

  predicate Sorted(s: seq<real>)
  {
    forall j, k :: 0 <= j < k < |s| ==> s[j] <= s[k]
  }

  function Insert(x: real, s: seq<real>): seq<real>
  {
    if s == [] || x <= s[0] then [x] + s else [s[0]] + Insert(x, s[1..])
  }

  function Sort(s: seq<real>): seq<real>
  {
    if s == [] then [] else Insert(s[0], Sort(s[1..]))
  }

  function Median(xs: seq<real>): real
  {
    var s := Sort(xs);
    var mid := |s| / 2;
    if s == [] then 0.0
    else if |s| % 2 == 1 then s[mid]
    else (s[mid - 1] + s[mid]) / 2.0
  }

  /** How many values lie in [lo, hi]. */
  function Count(s: seq<real>, lo: real, hi: real): nat
  {
    if s == [] then 0 else (if lo <= s[0] <= hi then 1 else 0) + Count(s[1..], lo, hi)
  }

  lemma {:induction false} InsertSorted(x: real, s: seq<real>)
    requires Sorted(s)
    ensures Sorted(Insert(x, s)) && |Insert(x, s)| == |s| + 1
    ensures Insert(x, s)[0] == if s == [] || x <= s[0] then x else s[0]
  {
    if s != [] && x > s[0] {
      InsertSorted(x, s[1..]);
      var t := Insert(x, s[1..]);
      forall k | 0 <= k < |t| ensures s[0] <= t[k] {
        assert t[0] <= t[k];
      }
    }
  }

  lemma {:induction false} InsertCounts(x: real, s: seq<real>, lo: real, hi: real)
    ensures Count(Insert(x, s), lo, hi) == Count(s, lo, hi) + if lo <= x <= hi then 1 else 0
  {
    if s == [] || x <= s[0] {
      assert ([x] + s)[1..] == s;
    } else {
      InsertCounts(x, s[1..], lo, hi);
      var t := Insert(x, s[1..]);
      assert ([s[0]] + t)[1..] == t;
    }
  }

  lemma {:induction false} SortKeeps(s: seq<real>, lo: real, hi: real)
    ensures Sorted(Sort(s)) && |Sort(s)| == |s| && Count(Sort(s), lo, hi) == Count(s, lo, hi)
  {
    if s != [] {
      SortKeeps(s[1..], lo, hi);
      InsertSorted(s[0], Sort(s[1..]));
      InsertCounts(s[0], Sort(s[1..]), lo, hi);
    }
  }

  lemma {:induction false} CountAppend(s: seq<real>, t: seq<real>, lo: real, hi: real)
    ensures Count(s + t, lo, hi) == Count(s, lo, hi) + Count(t, lo, hi)
  {
    if s == [] {
      assert s + t == t;
    } else {
      CountAppend(s[1..], t, lo, hi);
      assert (s + t)[1..] == s[1..] + t;
    }
  }

  lemma {:induction false} CountRange(s: seq<real>, lo: real, hi: real)
    ensures Count(s, lo, hi) <= |s|
    ensures (forall k :: 0 <= k < |s| ==> !(lo <= s[k] <= hi)) ==> Count(s, lo, hi) == 0
  {
    if s != [] {
      CountRange(s[1..], lo, hi);
    }
  }

  /** An interval that misses a sorted prefix, or a sorted suffix, holds at most the rest. */
  lemma CountCut(s: seq<real>, k: nat, lo: real, hi: real)
    requires Sorted(s) && k < |s|
    ensures s[k] > hi ==> Count(s, lo, hi) <= k
    ensures s[k] < lo ==> Count(s, lo, hi) < |s| - k
  {
    if s[k] > hi {
      NoneAbove(s, k, lo, hi);
    }
    if s[k] < lo {
      NoneBelow(s, k, lo, hi);
    }
  }

  lemma NoneAbove(s: seq<real>, k: nat, lo: real, hi: real)
    requires Sorted(s) && k < |s| && s[k] > hi
    ensures Count(s, lo, hi) <= k
  {
    assert s == s[..k] + s[k..];
    CountAppend(s[..k], s[k..], lo, hi);
    CountRange(s[..k], lo, hi);
    CountRange(s[k..], lo, hi);
    hide Count;
  }

  lemma NoneBelow(s: seq<real>, k: nat, lo: real, hi: real)
    requires Sorted(s) && k < |s| && s[k] < lo
    ensures Count(s, lo, hi) < |s| - k
  {
    assert s == s[..k + 1] + s[k + 1..];
    CountAppend(s[..k + 1], s[k + 1..], lo, hi);
    CountRange(s[..k + 1], lo, hi);
    CountRange(s[k + 1..], lo, hi);
    hide Count;
  }

  /** When more than half the samples lie in an interval, so does their median. */
  lemma MajorityHoldsMedian(xs: seq<real>, lo: real, hi: real)
    requires 2 * Count(xs, lo, hi) > |xs|
    ensures lo <= Median(xs) <= hi
  {
    var s := Sort(xs);
    SortKeeps(xs, lo, hi);
    CountRange(xs, lo, hi);
    var mid := |s| / 2;
    CountCut(s, mid, lo, hi);
    CountCut(s, (|s| - 1) / 2, lo, hi);
    assert s[(|s| - 1) / 2] <= s[mid];
    hide Sort, Count, Sorted;
    if |s| % 2 == 0 {
      assert (|s| - 1) / 2 == mid - 1;
    }
  }

  /** Half is not enough. */
  lemma HalfDoesNotHoldMedian()
    ensures 2 * Count([0.0, 0.0, 8.0, 8.0], 0.0, 0.0) == 4 && Median([0.0, 0.0, 8.0, 8.0]) == 4.0
  {
    var a, b := [8.0, 8.0], [0.0, 8.0, 8.0];
    assert a[1..] == [8.0] && [8.0][1..] == [];
    assert b[1..] == a && [0.0, 0.0, 8.0, 8.0][1..] == b;
    assert Sort([8.0]) == [8.0] && Sort(a) == a && Sort(b) == b;
  }

  // ---------------------------------------------------------------- configuration and memory

  datatype Config = Config(
    voltMult: real, ampsPerVolt: real, ampsOffset: real,
    vMin: real, vMax: real, iMin: real, iMax: real,
    alpha: real, vStepMax: real, iStepMax: real, negativeClamp: real,
    holdLastGood: bool, track: bool, fixedChannels: bool, switchPenalty: real, reselectAfterBad: nat)

  /** What the constructor's clamps leave. */
  predicate Built(c: Config)
  {
    0.0 <= c.alpha <= 1.0 && c.vStepMax >= 0.0 && c.iStepMax >= 0.0 && c.negativeClamp >= 0.0 && c.switchPenalty >= 0.0
  }

  datatype State = State(
    vCh: Option<int>, iCh: Option<int>,
    lastV: Option<real>, lastI: Option<real>, emaV: Option<real>, emaI: Option<real>,
    badCount: nat)

  datatype Output = Failed | Published(v: real, i: real, ok: bool, held: bool)

  predicate Within(x: real, lo: real, hi: real)
  {
    lo <= x <= hi
  }

  predicate Plausible(c: Config, v: real, i: real)
  {
    Within(v, c.vMin, c.vMax) && Within(i, c.iMin, c.iMax)
  }

  predicate StepOk(last: Option<real>, x: real, stepMax: real)
  {
    last.Some? && stepMax > 0.0 ==> Abs(x - last.value) <= stepMax
  }

  predicate Accepted(c: Config, s: State, v: real, i: real)
  {
    Plausible(c, v, i) && StepOk(s.lastV, v, c.vStepMax) && StepOk(s.lastI, i, c.iStepMax)
  }

  // ---------------------------------------------------------------- the filter

  function Ema(alpha: real, x: real, ema: Option<real>): real
  {
    if ema.None? then x else alpha * x + (1.0 - alpha) * ema.value
  }

  /** Smoothed when there is smoothing, and as read otherwise. */
  function Smoothed(c: Config, s: State, v: real, i: real): (real, real)
  {
    if c.alpha > 0.0 then
      (Ema(c.alpha, v, s.emaV), if s.emaV.None? then i else Ema(c.alpha, i, s.emaI))
    else (v, i)
  }

  predicate Holds(c: Config, s: State)
  {
    c.holdLastGood && (s.emaV.Some? || s.lastV.Some?)
  }

  function Held(ema: Option<real>, last: Option<real>): real
  {
    if ema.Some? then ema.value else Or(last, 0.0)
  }

  predicate Reselects(c: Config, badCount: nat)
  {
    !c.fixedChannels && c.reselectAfterBad > 0 && badCount >= c.reselectAfterBad
  }

  function Rejected(c: Config, s: State): State
  {
    if Reselects(c, s.badCount + 1) then s.(vCh := None, iCh := None, badCount := 0)
    else s.(badCount := s.badCount + 1)
  }

  function Filter(c: Config, s: State, v: real, i: real): (State, Output)
  {
    if !Accepted(c, s, v, i) then
      (Rejected(c, s),
       if Holds(c, s) then Published(Held(s.emaV, s.lastV), Held(s.emaI, s.lastI), false, true)
       else Published(v, i, false, false))
    else
      var (v', i') := Smoothed(c, s, v, i);
      var e := c.alpha > 0.0;
      (s.(lastV := Some(v'), lastI := Some(i'),
          emaV := if e then Some(v') else s.emaV, emaI := if e then Some(i') else s.emaI, badCount := 0),
       Published(v', i', true, false))
  }

  /** Between reads the two memories agree, and hold nothing implausible. */
  predicate Settled(c: Config, s: State)
  {
    && s.lastV.Some? == s.lastI.Some?
    && (if c.alpha > 0.0 then s.emaV == s.lastV && s.emaI == s.lastI else s.emaV.None? && s.emaI.None?)
    && (s.lastV.Some? ==> Plausible(c, s.lastV.value, s.lastI.value))
  }

  /** How far one accepted reading can move what is published. */
  function Stride(c: Config, stepMax: real): real
  {
    if c.alpha > 0.0 then Product(c.alpha, stepMax) else stepMax
  }

  lemma EmaBetween(alpha: real, x: real, e: real, lo: real, hi: real)
    requires 0.0 <= alpha <= 1.0 && Within(x, lo, hi) && Within(e, lo, hi)
    ensures Within(Ema(alpha, x, Some(e)), lo, hi)
  {
    EmaFrom(alpha, x, e, lo);
    EmaFrom(alpha, x, e, hi);
    ProductSign(alpha, x - lo);
    ProductSign(1.0 - alpha, e - lo);
    ProductSign(alpha, x - hi);
    ProductSign(1.0 - alpha, e - hi);
    hide Ema, Product;
  }

  /** A smoothed value, seen from any point p. */
  lemma EmaFrom(q: real, x: real, e: real, p: real)
    ensures Ema(q, x, Some(e)) == p + Product(q, x - p) + Product(1.0 - q, e - p)
  {
    MixFrom(q, x, e, p);
  }

  lemma EmaMeans(q: real, x: real, ema: Option<real>)
    ensures Ema(q, x, ema) == if ema.None? then x else q * x + (1.0 - q) * ema.value
  {
  }

  lemma MixFrom(q: real, x: real, e: real, p: real)
    ensures q * x + (1.0 - q) * e == p + q * (x - p) + (1.0 - q) * (e - p)
  {
  }

  lemma ProductSign(k: real, d: real)
    requires k >= 0.0
    ensures d >= 0.0 ==> Product(k, d) >= 0.0
    ensures d <= 0.0 ==> Product(k, d) <= 0.0
    ensures d == 0.0 ==> Product(k, d) == 0.0
  {
  }

  lemma EmaMoves(alpha: real, x: real, e: real, step: real)
    requires 0.0 <= alpha <= 1.0 && Abs(x - e) <= step
    ensures Abs(Ema(alpha, x, Some(e)) - e) <= Product(alpha, step)
  {
    EmaFrom(alpha, x, e, e);
    ProductSign(1.0 - alpha, 0.0);
    StepWithin(alpha, x - e, step);
    hide Ema, Product;
  }

  lemma StepWithin(k: real, d: real, step: real)
    requires k >= 0.0 && Abs(d) <= step
    ensures Abs(Product(k, d)) <= Product(k, step)
  {
    MulMono(k, d, step);
    MulMono(k, -step, d);
    Opposite(k, step);
  }

  lemma Opposite(k: real, d: real)
    ensures k * -d == -(k * d)
  {
  }

  /** One reading keeps the memory settled; a rejected one leaves every remembered value as it was. */
  lemma FilterSettled(c: Config, s: State, v: real, i: real)
    requires Built(c) && Settled(c, s)
    ensures Settled(c, Filter(c, s, v, i).0)
    ensures s.lastV.Some? || Accepted(c, s, v, i) ==> Filter(c, s, v, i).0.lastV.Some?
    ensures !Accepted(c, s, v, i) ==>
              var t := Filter(c, s, v, i).0; t.lastV == s.lastV && t.lastI == s.lastI && t.emaV == s.emaV && t.emaI == s.emaI
  {
    if Accepted(c, s, v, i) && s.emaV.Some? {
      EmaBetween(c.alpha, v, s.emaV.value, c.vMin, c.vMax);
      EmaBetween(c.alpha, i, s.emaI.value, c.iMin, c.iMax);
    }
    hide Within, Ema;
  }

  /** After the first accepted reading, with holding on, what is published is what is remembered, plausible. */
  lemma PublishedPlausible(c: Config, s: State, v: real, i: real)
    requires Built(c) && Settled(c, s) && c.holdLastGood
    requires s.lastV.Some? || Accepted(c, s, v, i)
    ensures var (t, out) := Filter(c, s, v, i);
            && out.Published? && t.lastV == Some(out.v) && t.lastI == Some(out.i)
            && Plausible(c, out.v, out.i)
            && out.held == !Accepted(c, s, v, i)
  {
    FilterSettled(c, s, v, i);
    hide Within, Ema, StepOk;
  }

  /** With step limits on, one reading moves each remembered value by at most a stride. */
  lemma FilterStride(c: Config, s: State, v: real, i: real)
    requires Built(c) && Settled(c, s) && s.lastV.Some?
    ensures var t := Filter(c, s, v, i).0;
            && (c.vStepMax > 0.0 ==> Abs(Or(t.lastV, 0.0) - s.lastV.value) <= Stride(c, c.vStepMax))
            && (c.iStepMax > 0.0 ==> Abs(Or(t.lastI, 0.0) - s.lastI.value) <= Stride(c, c.iStepMax))
  {
    StrideNonNegative(c, c.vStepMax);
    StrideNonNegative(c, c.iStepMax);
    if Accepted(c, s, v, i) && s.emaV.Some? {
      if c.vStepMax > 0.0 {
        EmaMoves(c.alpha, v, s.emaV.value, c.vStepMax);
      }
      if c.iStepMax > 0.0 {
        EmaMoves(c.alpha, i, s.emaI.value, c.iStepMax);
      }
    }
    hide Within, Ema, Product;
  }

  lemma StrideNonNegative(c: Config, stepMax: real)
    requires Built(c) && stepMax >= 0.0
    ensures Stride(c, stepMax) >= 0.0
  {
  }

  // ---------------------------------------------------------------- channels

  function Outside(x: real, lo: real, hi: real): real
  {
    if x < lo then lo - x else if x > hi then x - hi else 0.0
  }

  function ConvertV(c: Config, adc: real): real
  {
    adc * c.voltMult
  }

  function ConvertI(c: Config, adc: real): real
  {
    (adc - c.ampsOffset) * c.ampsPerVolt
  }

  /** How unlikely two channels are to be the voltage and the current, before any preference. */
  function Unlikely(c: Config, s: State, adcV: real, adcI: real): real
  {
    var v, i := ConvertV(c, adcV), ConvertI(c, adcI);
    (if Within(v, c.vMin, c.vMax) then 0.0 else 1000.0 + Outside(v, c.vMin, c.vMax) * 10.0)
    + (if Within(i, c.iMin, c.iMax) then 0.0 else 1000.0 + Outside(i, c.iMin, c.iMax) * 5.0)
    + (if s.lastV.Some? then Abs(v - s.lastV.value) * 0.5 else Abs(v - 16.0) * 0.05)
    + (if s.lastI.Some? then Abs(i - s.lastI.value) * 0.05 else Abs(i - 0.0) * 0.01)
    + Abs(adcI - c.ampsOffset) * 0.2
    + (if adcV < 0.4 then 10.0 else 0.0)
  }

  function Switching(c: Config, preferred: Option<int>, ch: int): real
  {
    if preferred.Some? && ch != preferred.value then c.switchPenalty else 0.0
  }

  function Score(c: Config, s: State, chans: seq<real>, v: nat, i: nat): real
    requires v < |chans| && i < |chans|
  {
    Unlikely(c, s, chans[v], chans[i]) + Switching(c, s.vCh, v) + Switching(c, s.iCh, i)
  }

  predicate Before(v: nat, i: nat, w: nat, j: nat)
  {
    v < w || (v == w && i < j)
  }

  predicate IsPair(chans: seq<real>, v: nat, i: nat)
  {
    v < |chans| && i < |chans| && v != i
  }

  /** Lowest score among the ordered pairs; among equals, the first. */
  ghost predicate Best(c: Config, s: State, chans: seq<real>, v: nat, i: nat)
  {
    && IsPair(chans, v, i)
    && forall w, j | IsPair(chans, w, j) ::
         && Score(c, s, chans, v, i) <= Score(c, s, chans, w, j)
         && (Before(w, j, v, i) ==> Score(c, s, chans, v, i) < Score(c, s, chans, w, j))
  }

  ghost predicate Detects(c: Config, s: State, chans: seq<real>, det: Option<(nat, nat)>)
  {
    if det.Some? then Best(c, s, chans, det.value.0, det.value.1) else |chans| < 2
  }

  method Autodetect(c: Config, s: State, chans: seq<real>) returns (det: Option<(nat, nat)>)
    ensures Detects(c, s, chans, det)
  {
    hide Score;
    det := None;
    for v := 0 to |chans|
      invariant Leads(c, s, chans, det, v, 0)
    {
      for i := 0 to |chans|
        invariant Leads(c, s, chans, det, v, i)
      {
        if i != v && (det.None? || Score(c, s, chans, v, i) < Score(c, s, chans, det.value.0, det.value.1)) {
          Overtakes(c, s, chans, det, v, i);
          det := Some((v, i));
        }
      }
    }
    assert forall w, j | IsPair(chans, w, j) :: Before(w, j, |chans|, 0);
    if |chans| >= 2 {
      assert IsPair(chans, 0, 1);
    }
  }

  /** The best of the pairs before (w, j), if there is one. */
  ghost predicate Leads(c: Config, s: State, chans: seq<real>, det: Option<(nat, nat)>, w: nat, j: nat)
  {
    if det.Some? then BestBefore(c, s, chans, det.value.0, det.value.1, w, j)
    else forall x, y | IsPair(chans, x, y) :: !Before(x, y, w, j)
  }

  /** Best so far, among the pairs before (w, j). */
  ghost predicate BestBefore(c: Config, s: State, chans: seq<real>, v: nat, i: nat, w: nat, j: nat)
  {
    && IsPair(chans, v, i) && Before(v, i, w, j)
    && forall x, y | IsPair(chans, x, y) && Before(x, y, w, j) ::
         && Score(c, s, chans, v, i) <= Score(c, s, chans, x, y)
         && (Before(x, y, v, i) ==> Score(c, s, chans, v, i) < Score(c, s, chans, x, y))
  }

  lemma Overtakes(c: Config, s: State, chans: seq<real>, det: Option<(nat, nat)>, v: nat, i: nat)
    requires IsPair(chans, v, i) && Leads(c, s, chans, det, v, i)
    requires det.None? || Score(c, s, chans, v, i) < Score(c, s, chans, det.value.0, det.value.1)
    ensures BestBefore(c, s, chans, v, i, v, i + 1)
  {
    hide Score;
  }

  /** Tracking has hysteresis: it leaves a channel pair it has only for one that is better by the switch penalty. */
  lemma SwitchingNeedsAdvantage(c: Config, s: State, chans: seq<real>, v: nat, i: nat, hadV: nat, hadI: nat)
    requires Built(c) && Best(c, s, chans, v, i)
    requires s.vCh == Some(hadV) && s.iCh == Some(hadI) && IsPair(chans, hadV, hadI)
    requires (v, i) != (hadV, hadI)
    ensures Unlikely(c, s, chans[v], chans[i]) + c.switchPenalty <= Unlikely(c, s, chans[hadV], chans[hadI])
  {
    assert Score(c, s, chans, v, i) <= Score(c, s, chans, hadV, hadI);
    hide Unlikely;
  }

  // ---------------------------------------------------------------- one read

  function NonEmpty(raw: seq<seq<real>>): seq<seq<real>>
  {
    if raw == [] then [] else (if raw[0] == [] then [] else [raw[0]]) + NonEmpty(raw[1..])
  }

  /** Length of the shortest row. */
  function Width(rows: seq<seq<real>>): nat
    requires rows != []
  {
    if |rows| == 1 then |rows[0]|
    else if |rows[0]| <= Width(rows[1..]) then |rows[0]| else Width(rows[1..])
  }

  lemma {:induction false} WidthFits(rows: seq<seq<real>>)
    requires rows != []
    ensures forall r :: 0 <= r < |rows| ==> Width(rows) <= |rows[r]|
  {
    if |rows| > 1 {
      WidthFits(rows[1..]);
      forall r | 0 <= r < |rows| ensures Width(rows) <= |rows[r]| {
        assert r > 0 ==> rows[r] == rows[1..][r - 1];
      }
    }
  }

  function Column(rows: seq<seq<real>>, ch: nat): seq<real>
    requires rows != [] && ch < Width(rows)
  {
    WidthFits(rows);
    seq(|rows|, r requires 0 <= r < |rows| => rows[r][ch])
  }

  function Channels(rows: seq<seq<real>>): seq<real>
    requires rows != []
  {
    seq(Width(rows), ch requires 0 <= ch < Width(rows) => Median(Column(rows, ch)))
  }

  /** The mapping used for this read. */
  function Mapped(c: Config, s: State, det: Option<(nat, nat)>): State
  {
    if (c.track || s.vCh.None? || s.iCh.None?) && det.Some? then
      s.(vCh := Some(det.value.0), iCh := Some(det.value.1))
    else s
  }

  predicate ValidMapping(s: State, n: nat)
  {
    s.vCh.Some? && s.iCh.Some? && 0 <= s.vCh.value < n && 0 <= s.iCh.value < n && s.vCh != s.iCh
  }

  function Unmapped(c: Config, s: State): State
  {
    if s.vCh.None? || s.iCh.None? || c.fixedChannels then s else s.(vCh := None, iCh := None)
  }

  /** Small negative currents count as none. */
  function ClampNegative(c: Config, i: real): real
  {
    if i < 0.0 && Abs(i) <= c.negativeClamp then 0.0 else i
  }

  function Next(c: Config, s: State, raw: seq<seq<real>>, det: Option<(nat, nat)>): (State, Output)
  {
    var rows := NonEmpty(raw);
    if rows == [] then (s, Failed)
    else
      var chans := Channels(rows);
      var m := Mapped(c, s, det);
      if !ValidMapping(m, |chans|) then (Unmapped(c, m), Failed)
      else Filter(c, m, ConvertV(c, chans[m.vCh.value]), ClampNegative(c, ConvertI(c, chans[m.iCh.value])))
  }

  /** A whole read after the first accepted reading, with holding and step limits on, whatever the samples and
      the mapping: what is published, if anything, is plausible, is what is remembered, and lies within one stride
      of what was remembered before. */
  lemma ReadPublishes(c: Config, s: State, raw: seq<seq<real>>, det: Option<(nat, nat)>)
    requires Built(c) && Settled(c, s) && s.lastV.Some?
    requires c.holdLastGood && c.vStepMax > 0.0 && c.iStepMax > 0.0
    ensures var (t, out) := Next(c, s, raw, det);
            && t.lastV.Some? && t.lastI.Some? && Settled(c, t)
            && Abs(t.lastV.value - s.lastV.value) <= Stride(c, c.vStepMax)
            && Abs(t.lastI.value - s.lastI.value) <= Stride(c, c.iStepMax)
            && (out.Published? ==> out.v == t.lastV.value && out.i == t.lastI.value && Plausible(c, out.v, out.i))
  {
    StrideNonNegative(c, c.vStepMax);
    StrideNonNegative(c, c.iStepMax);
    var m := Mapped(c, s, det);
    if NonEmpty(raw) != [] && ValidMapping(m, |Channels(NonEmpty(raw))|) {
      var chans := Channels(NonEmpty(raw));
      var v, i := ConvertV(c, chans[m.vCh.value]), ClampNegative(c, ConvertI(c, chans[m.iCh.value]));
      FilterSettled(c, m, v, i);
      PublishedPlausible(c, m, v, i);
      FilterStride(c, m, v, i);
    }
    hide Filter, Channels, NonEmpty, Stride, ConvertV, ConvertI, ClampNegative, Within;
  }

  class PowerSenseSensor {
    const config: Config
    var vCh: Option<int>
    var iCh: Option<int>
    var lastV: Option<real>
    var lastI: Option<real>
    var emaV: Option<real>
    var emaI: Option<real>
    var badCount: nat

    ghost function Memory(): State
      reads this
    {
      State(vCh, iCh, lastV, lastI, emaV, emaI, badCount)
    }

    constructor (c: Config, v: Option<int>, i: Option<int>)
      requires Built(c)
      ensures config == c && Memory() == State(v, i, None, None, None, None, 0) && Settled(c, Memory())
    {
      config := c;
      vCh, iCh, badCount := v, i, 0;
      lastV, lastI, emaV, emaI := None, None, None, None;
    }

    /** One burst of samples. `det` is the mapping that was looked up, if one was needed. */
    method Read(raw: seq<seq<real>>) returns (out: Output, ghost det: Option<(nat, nat)>)
      requires Built(config) && Settled(config, Memory())
      modifies this
      ensures Memory() == Next(config, old(Memory()), raw, det).0
      ensures out == Next(config, old(Memory()), raw, det).1
      ensures NonEmpty(raw) != [] && (config.track || old(vCh).None? || old(iCh).None?) ==>
                Detects(config, old(Memory()), Channels(NonEmpty(raw)), det)
      ensures Settled(config, Memory())
    {
      det := None;
      var rows := NonEmpty(raw);
      if rows == [] {
        return Failed, det;
      }
      var chans := Channels(rows);
      if config.track || vCh.None? || iCh.None? {
        var found := Autodetect(config, State(vCh, iCh, lastV, lastI, emaV, emaI, badCount), chans);
        det := found;
        if found.Some? {
          vCh, iCh := Some(found.value.0), Some(found.value.1);
        }
      }
      hide Filter, Channels, Detects, Settled, NonEmpty;
      if vCh.None? || iCh.None? {
        return Failed, det;
      }
      if vCh.value < 0 || vCh.value >= |chans| || iCh.value < 0 || iCh.value >= |chans| || vCh == iCh {
        if !config.fixedChannels {
          vCh, iCh := None, None;
        }
        return Failed, det;
      }
      var v, i := ConvertV(config, chans[vCh.value]), ConvertI(config, chans[iCh.value]);
      if i < 0.0 && Abs(i) <= config.negativeClamp {
        i := 0.0;
      }
      out := Accept(v, i);
    }

    method Accept(v: real, i: real) returns (out: Output)
      requires Built(config) && Settled(config, Memory())
      modifies this
      ensures Memory() == Filter(config, old(Memory()), v, i).0
      ensures out == Filter(config, old(Memory()), v, i).1
      ensures Settled(config, Memory())
    {
      FilterSettled(config, Memory(), v, i);
      EmaMeans(config.alpha, v, None);
      EmaMeans(config.alpha, i, None);
      hide Settled, Ema;
      var ok := Plausible(config, v, i);
      if lastV.Some? && config.vStepMax > 0.0 && Abs(v - lastV.value) > config.vStepMax {
        ok := false;
      }
      if lastI.Some? && config.iStepMax > 0.0 && Abs(i - lastI.value) > config.iStepMax {
        ok := false;
      }
      var v', i', held := v, i, false;
      if !ok {
        badCount := badCount + 1;
        if config.holdLastGood && (emaV.Some? || lastV.Some?) {
          held := true;
          v' := if emaV.Some? then emaV.value else lastV.value;
          i' := if emaI.Some? then emaI.value else lastI.value;
        }
        if !config.fixedChannels && config.reselectAfterBad > 0 && badCount >= config.reselectAfterBad {
          vCh, iCh, badCount := None, None, 0;
        }
      } else {
        badCount := 0;
        if config.alpha > 0.0 {
          if emaV.None? {
            emaV, emaI := Some(v), Some(i);
          } else {
            var a := config.alpha;
            emaV := Some(Ema(a, v, emaV));
            emaI := Some(Ema(a, i, emaI));
          }
          v', i' := emaV.value, emaI.value;
        }
        lastV, lastI := Some(v'), Some(i');
      }
      out := Published(v', i', ok, held);
    }
  }

  // ---------------------------------------------------------------- runs of readings

  datatype Reading = Reading(v: real, i: real)

  /** Readings that reached the filter, in order. */
  function Run(c: Config, s: State, rs: seq<Reading>): State
  {
    if rs == [] then s
    else
      var last := rs[|rs| - 1];
      Filter(c, Run(c, s, rs[..|rs| - 1]), last.v, last.i).0
  }

  lemma {:induction false} RunKeepsSettled(c: Config, s: State, rs: seq<Reading>)
    requires Built(c) && Settled(c, s)
    ensures Settled(c, Run(c, s, rs))
    ensures s.lastV.Some? ==> Run(c, s, rs).lastV.Some?
  {
    if rs != [] {
      var last := rs[|rs| - 1];
      RunKeepsSettled(c, s, rs[..|rs| - 1]);
      FilterSettled(c, Run(c, s, rs[..|rs| - 1]), last.v, last.i);
      hide Filter, Settled;
    }
  }

  /** Over a whole run after the first accepted reading: n readings, however wild, move the published voltage
      and current by at most n strides. */
  lemma {:induction false} RunDrift(c: Config, s: State, rs: seq<Reading>)
    requires Built(c) && Settled(c, s) && s.lastV.Some?
    requires c.vStepMax > 0.0 && c.iStepMax > 0.0
    ensures var t := Run(c, s, rs);
            && Abs(Or(t.lastV, 0.0) - s.lastV.value) <= Product(|rs| as real, Stride(c, c.vStepMax))
            && Abs(Or(t.lastI, 0.0) - s.lastI.value) <= Product(|rs| as real, Stride(c, c.iStepMax))
  {
    if rs != [] {
      var last := rs[|rs| - 1];
      var before := Run(c, s, rs[..|rs| - 1]);
      RunDrift(c, s, rs[..|rs| - 1]);
      RunKeepsSettled(c, s, rs[..|rs| - 1]);
      FilterStride(c, before, last.v, last.i);
      hide Filter, Stride, Product, Settled;
      OneMore(|rs|, Stride(c, c.vStepMax));
      OneMore(|rs|, Stride(c, c.iStepMax));
    }
  }

  lemma OneMore(n: nat, k: real)
    requires n > 0
    ensures Product(n as real, k) == Product((n - 1) as real, k) + k
  {
    MulSplit(k, (n - 1) as real, 1.0);
  }

  /** Readings that are each more than a step away from a held voltage are rejected for ever: a battery
      that really changed is never taken up again, also when the channels are selected anew. */
  lemma {:induction false} LatchedOut(c: Config, s: State, rs: seq<Reading>)
    requires Built(c) && Settled(c, s) && s.lastV.Some? && c.vStepMax > 0.0
    requires forall k :: 0 <= k < |rs| ==> Abs(rs[k].v - s.lastV.value) > c.vStepMax
    ensures var t := Run(c, s, rs); t.lastV == s.lastV && t.lastI == s.lastI
  {
    if rs != [] {
      var last := rs[|rs| - 1];
      var before := Run(c, s, rs[..|rs| - 1]);
      LatchedOut(c, s, rs[..|rs| - 1]);
      RunKeepsSettled(c, s, rs[..|rs| - 1]);
      FilterSettled(c, before, last.v, last.i);
      assert !Accepted(c, before, last.v, last.i);
      hide Filter, Settled;
    }
  }

  /** What is remembered of the readings, without the channels and the count of bad ones. */
  predicate SameMemory(s: State, t: State)
  {
    s.lastV == t.lastV && s.lastI == t.lastI && s.emaV == t.emaV && s.emaI == t.emaI
  }

  /** Reading k of the run is accepted when it comes. */
  predicate TakenUp(c: Config, s: State, rs: seq<Reading>, k: nat)
    requires k < |rs|
  {
    Filter(c, Run(c, s, rs[..k]), rs[k].v, rs[k].i).1.ok
  }

  lemma AcceptedIsTaken(c: Config, s: State, v: real, i: real)
    ensures Filter(c, s, v, i).1.ok <==> Accepted(c, s, v, i)
    ensures !Accepted(c, s, v, i) ==> SameMemory(s, Filter(c, s, v, i).0)
  {
    hide Accepted, Smoothed;
  }

  /** For any readings, wild or steady: none of them is ever taken up if and only if none is acceptable to the memory
      the run began with. Implausible readings, and steps of either kind, latch the filter out alike. */
  lemma {:induction false} LatchedOutExactly(c: Config, s: State, rs: seq<Reading>)
    ensures (forall k :: 0 <= k < |rs| ==> !TakenUp(c, s, rs, k)) <==> (forall k :: 0 <= k < |rs| ==> !Accepted(c, s, rs[k].v, rs[k].i))
    ensures (forall k :: 0 <= k < |rs| ==> !Accepted(c, s, rs[k].v, rs[k].i)) ==> SameMemory(s, Run(c, s, rs))
  {
    if rs != [] {
      var n := |rs| - 1;
      var front, before := rs[..n], Run(c, s, rs[..n]);
      LatchedOutExactly(c, s, front);
      AcceptedIsTaken(c, before, rs[n].v, rs[n].i);
      assert forall k :: 0 <= k < n ==> front[k] == rs[k] && front[..k] == rs[..k];
      assert forall k :: 0 <= k < n ==> TakenUp(c, s, front, k) == TakenUp(c, s, rs, k);
      assert TakenUp(c, s, rs, n) == Accepted(c, before, rs[n].v, rs[n].i);
      SameAcceptance(c, s, before, rs[n]);
      hide Filter, Accepted, TakenUp;
    }
  }

  lemma SameAcceptance(c: Config, s: State, t: State, r: Reading)
    ensures SameMemory(s, t) ==> Accepted(c, s, r.v, r.i) == Accepted(c, t, r.v, r.i)
  {
  }

  /** A steady reading is taken up every time it comes, or never: the first time decides. */
  lemma {:induction false} SteadyTakenUpExactly(c: Config, s: State, r: Reading, n: nat)
    requires Built(c) && Settled(c, s)
    ensures Accepted(c, Run(c, s, Repeat(r, n)), r.v, r.i) <==> Accepted(c, s, r.v, r.i)
    ensures !Accepted(c, s, r.v, r.i) ==> SameMemory(s, Run(c, s, Repeat(r, n)))
  {
    if n > 0 {
      var before := Run(c, s, Repeat(r, n - 1));
      SteadyTakenUpExactly(c, s, r, n - 1);
      RunKeepsSettled(c, s, Repeat(r, n - 1));
      assert Repeat(r, n)[..n - 1] == Repeat(r, n - 1);
      if Accepted(c, before, r.v, r.i) {
        StaysAccepted(c, before, r);
      } else {
        AcceptedIsTaken(c, before, r.v, r.i);
        SameAcceptance(c, s, Filter(c, before, r.v, r.i).0, r);
      }
      hide Filter, Accepted, Settled;
    }
  }

  lemma StaysAccepted(c: Config, s: State, r: Reading)
    requires Built(c) && Settled(c, s) && Accepted(c, s, r.v, r.i)
    ensures Accepted(c, Filter(c, s, r.v, r.i).0, r.v, r.i)
  {
    if c.alpha > 0.0 && s.lastV.Some? {
      CloserOnce(c.alpha, r.v, s.lastV.value, c.vStepMax);
      CloserOnce(c.alpha, r.i, s.lastI.value, c.iStepMax);
    }
    hide Ema, Within, Product;
    EmaMeans(c.alpha, r.v, None);
    EmaMeans(c.alpha, r.i, None);
  }

  function Power(x: real, n: nat): real
  {
    if n == 0 then 1.0 else x * Power(x, n - 1)
  }

  function Repeat(r: Reading, n: nat): (rs: seq<Reading>)
    ensures |rs| == n
  {
    if n == 0 then [] else Repeat(r, n - 1) + [r]
  }

  /** A steady reading within reach is accepted every time, and what is published closes on it geometrically. */
  lemma {:induction false} SteadyReadingConverges(c: Config, s: State, r: Reading, n: nat)
    requires Built(c) && Settled(c, s) && c.alpha > 0.0 && s.lastV.Some?
    requires Accepted(c, s, r.v, r.i)
    ensures var t := Run(c, s, Repeat(r, n));
            && t.lastV.Some? && t.lastI.Some? && Accepted(c, t, r.v, r.i)
            && Or(t.lastV, 0.0) - r.v == Product(Power(1.0 - c.alpha, n), s.lastV.value - r.v)
            && Or(t.lastI, 0.0) - r.i == Product(Power(1.0 - c.alpha, n), s.lastI.value - r.i)
  {
    ProductOne(s.lastV.value - r.v);
    ProductOne(s.lastI.value - r.i);
    if n > 0 {
      var before := Run(c, s, Repeat(r, n - 1));
      SteadyReadingConverges(c, s, r, n - 1);
      RunKeepsSettled(c, s, Repeat(r, n - 1));
      assert Repeat(r, n)[..n - 1] == Repeat(r, n - 1);
      SteadyStep(c, before, r);
      hide Run, Filter, Accepted, Power, Product, Settled;
      GeometricStep(1.0 - c.alpha, n, s.lastV.value - r.v);
      GeometricStep(1.0 - c.alpha, n, s.lastI.value - r.i);
    }
  }

  lemma SteadyStep(c: Config, s: State, r: Reading)
    requires Built(c) && Settled(c, s) && c.alpha > 0.0 && s.lastV.Some?
    requires Accepted(c, s, r.v, r.i)
    ensures var t := Filter(c, s, r.v, r.i).0;
            && t.lastV.Some? && t.lastI.Some? && Accepted(c, t, r.v, r.i)
            && t.lastV.value - r.v == Product(1.0 - c.alpha, s.lastV.value - r.v)
            && t.lastI.value - r.i == Product(1.0 - c.alpha, s.lastI.value - r.i)
  {
    CloserOnce(c.alpha, r.v, s.lastV.value, c.vStepMax);
    CloserOnce(c.alpha, r.i, s.lastI.value, c.iStepMax);
    hide Ema, Within, Product;
  }

  lemma CloserOnce(alpha: real, x: real, e: real, step: real)
    requires 0.0 <= alpha <= 1.0
    ensures Ema(alpha, x, Some(e)) - x == Product(1.0 - alpha, e - x)
    ensures Abs(x - e) <= step ==> Abs(x - Ema(alpha, x, Some(e))) <= step
  {
    var q := 1.0 - alpha;
    EmaFrom(alpha, x, e, x);
    ProductSign(alpha, 0.0);
    StepWithin(q, e - x, Abs(e - x));
    NoLonger(q, Abs(e - x));
    hide Ema, Product;
  }

  lemma NoLonger(q: real, d: real)
    requires 0.0 <= q <= 1.0 && d >= 0.0
    ensures Product(q, d) <= d
  {
    MulOrder(q, 1.0, d);
  }

  lemma GeometricStep(q: real, n: nat, d: real)
    requires n > 0
    ensures Product(Power(q, n), d) == Product(q, Product(Power(q, n - 1), d))
  {
    Associative(q, Power(q, n - 1), d);
    hide Power;
  }

  lemma Associative(a: real, b: real, d: real)
    ensures a * b * d == a * (b * d)
  {
  }

  // ---------------------------------------------------------------- spikes

  /** A burst in which most samples of a channel lie in an interval gives that channel a value in it,
      whatever the other samples are. */
  lemma SpikesIgnored(raw: seq<seq<real>>, ch: nat, lo: real, hi: real)
    requires NonEmpty(raw) != [] && ch < Width(NonEmpty(raw))
    requires 2 * Count(Column(NonEmpty(raw), ch), lo, hi) > |NonEmpty(raw)|
    ensures lo <= Channels(NonEmpty(raw))[ch] <= hi
  {
    MajorityHoldsMedian(Column(NonEmpty(raw), ch), lo, hi);
    hide Median, Count;
  }
}
