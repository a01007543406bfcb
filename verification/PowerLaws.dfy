/** sensors/power_sense.py: which channels a read takes, and what it publishes from them. */
module PowerLaws {
  import opened Prelude
  import opened PowerSense

  // ---------------------------------------------------------------- from samples to channels

  /** Empty samples are dropped, the others are kept, in their order. */
  lemma {:induction false} NonEmptyKeeps(raw: seq<seq<real>>, r: seq<real>)
    ensures r in NonEmpty(raw) <==> r in raw && r != []
    ensures [] !in raw ==> NonEmpty(raw) == raw
  {
    if raw != [] {
      NonEmptyKeeps(raw[1..], r);
      assert raw == [raw[0]] + raw[1..];
    }
  }

  /** There are as many channels as the shortest sample has. */
  lemma {:induction false} WidthIsShortest(rows: seq<seq<real>>)
    requires rows != []
    ensures exists r :: 0 <= r < |rows| && |rows[r]| == Width(rows)
  {
    if |rows| == 1 || |rows[0]| <= Width(rows[1..]) {
      assert |rows[0]| == Width(rows);
    } else {
      WidthIsShortest(rows[1..]);
      var r :| 0 <= r < |rows[1..]| && |rows[1..][r]| == Width(rows[1..]);
      assert |rows[r + 1]| == Width(rows);
    }
  }

  // ---------------------------------------------------------------- from channels to volts and amps

  /** The conversion undoes the sensor: volts divided down, amps scaled down and shifted, are read back. */
  lemma ConversionRecovers(c: Config, volts: real, amps: real)
    ensures c.voltMult != 0.0 ==> ConvertV(c, volts / c.voltMult) == volts
    ensures c.ampsPerVolt != 0.0 ==> ConvertI(c, amps / c.ampsPerVolt + c.ampsOffset) == amps
  {
  }

  /** A first read through a known mapping publishes the volts and amps that the sensor put on the two channels; a small
      negative current is published as none. */
  lemma FirstReadPublishes(c: Config, s: State, raw: seq<seq<real>>, det: Option<(nat, nat)>, v: nat, i: nat, volts: real, amps: real)
    requires !c.track && s == State(Some(v), Some(i), None, None, None, None, 0) && v != i
    requires raw != [] && [] !in raw && v < Width(raw) && i < Width(raw)
    requires c.voltMult != 0.0 && Channels(raw)[v] == volts / c.voltMult
    requires c.ampsPerVolt != 0.0 && Channels(raw)[i] == amps / c.ampsPerVolt + c.ampsOffset
    requires c.vMin <= volts <= c.vMax && c.iMin <= amps <= c.iMax && c.iMin <= 0.0 <= c.iMax
    ensures var published := if -c.negativeClamp <= amps < 0.0 then 0.0 else amps;
            Next(c, s, raw, det).1 == Published(volts, published, true, false)
  {
    NonEmptyKeeps(raw, []);
    ConversionRecovers(c, volts, amps);
    hide ConvertV, ConvertI, NonEmpty, Width, Median;
    assert |Channels(raw)| == Width(raw) && NonEmpty(raw) == raw;
  }

  // ---------------------------------------------------------------- the mapping

  /** A read fails exactly when it has no samples or its mapping is not two different channels it has. A fixed or
      incomplete mapping is kept then, any other is forgotten. */
  lemma FailsExactly(c: Config, s: State, raw: seq<seq<real>>, det: Option<(nat, nat)>)
    ensures var rows, (t, out) := NonEmpty(raw), Next(c, s, raw, det);
            var looked := c.track || s.vCh.None? || s.iCh.None?;
            var v := if looked && det.Some? then Some(det.value.0 as int) else s.vCh;
            var i := if looked && det.Some? then Some(det.value.1 as int) else s.iCh;
            var fits := rows != [] && v.Some? && i.Some? && v != i && 0 <= v.value < Width(rows) && 0 <= i.value < Width(rows);
            && (out.Failed? <==> !fits)
            && (out.Failed? ==> t.lastV == s.lastV && t.lastI == s.lastI && t.badCount == s.badCount)
            && (rows == [] ==> t == s)
            && (rows != [] && out.Failed? && (c.fixedChannels || v.None? || i.None?) ==> t.vCh == v && t.iCh == i)
            && (rows != [] && out.Failed? && !c.fixedChannels && v.Some? && i.Some? ==> t.vCh == None && t.iCh == None)
            && (fits && (out.ok || c.fixedChannels) ==> t.vCh == v && t.iCh == i)
  {
    hide NonEmpty, Width, ConvertV, ConvertI, ClampNegative, Accepted, Smoothed;
  }

  /** A look-up finds a pair exactly when there are two channels. */
  lemma DetectsExactly(c: Config, s: State, chans: seq<real>, det: Option<(nat, nat)>)
    requires Detects(c, s, chans, det)
    ensures det.Some? <==> |chans| >= 2
  {
    hide Score;
  }

  /** The shipped conversion, ranges and penalty. */
  predicate Shipped(c: Config)
  {
    && c.voltMult == 11.0 && c.ampsPerVolt == 37.8788 && c.ampsOffset == 0.0 && c.switchPenalty == 80.0
    && c.vMin == 6.0 && c.vMax == 26.0 && c.iMin == -5.0 && c.iMax == 150.0
  }

  predicate PlausiblePair(c: Config, chans: seq<real>, v: nat, i: nat)
  {
    IsPair(chans, v, i) && Plausible(c, ConvertV(c, chans[v]), ConvertI(c, chans[i]))
  }

  /** With the shipped settings, from any settled memory: if some pair of channels is plausible, the pair found is. */
  lemma FindsPlausible(c: Config, s: State, chans: seq<real>, v: nat, i: nat, w: nat, j: nat)
    requires Shipped(c) && Settled(c, s) && Best(c, s, chans, v, i) && PlausiblePair(c, chans, w, j)
    ensures PlausiblePair(c, chans, v, i)
  {
    assert Score(c, s, chans, v, i) <= Score(c, s, chans, w, j);
    PlausibleIsLikely(c, s, chans[w], chans[j]);
    if !PlausiblePair(c, chans, v, i) {
      ImplausibleIsUnlikely(c, s, chans[v], chans[i]);
    }
    hide Unlikely, Plausible, Best;
  }

  lemma PlausibleIsLikely(c: Config, s: State, adcV: real, adcI: real)
    requires Shipped(c) && Settled(c, s) && Plausible(c, ConvertV(c, adcV), ConvertI(c, adcI))
    ensures Unlikely(c, s, adcV, adcI) <= 20.0
  {
  }

  lemma ImplausibleIsUnlikely(c: Config, s: State, adcV: real, adcI: real)
    requires Shipped(c) && !Plausible(c, ConvertV(c, adcV), ConvertI(c, adcI))
    ensures Unlikely(c, s, adcV, adcI) >= 1000.0
  {
  }

  /** Scores with the shipped settings: a pair in range and one out of range, without history; the same with history; and
      readings too high or too low on either channel. */
  lemma ShippedScores(c: Config, s: State)
    requires Shipped(c)
    ensures s.lastV.None? && s.lastI.None? ==>
              && Unlikely(c, s, 1.0, 0.0) == 0.25
              && Unlikely(c, s, 1.0, 1.0) == 0.25 + 0.378788 + 0.2
              && Unlikely(c, s, 3.0, 0.0) == 1000.0 + 70.0 + 0.85
              && Unlikely(c, s, 0.0, 0.0) == 1000.0 + 60.0 + 0.8 + 10.0
    ensures s.lastV == Some(12.0) && s.lastI == Some(10.0) ==>
              && Unlikely(c, s, 1.0, 0.0) == 0.5 + 0.5
              && Unlikely(c, s, 1.0, -1.0) == 0.5 + 2.39394 + 0.2 + 1000.0 + 164.394
              && Unlikely(c, s, 1.0, 5.0) == 0.5 + 8.9697 + 1.0 + 1000.0 + 196.97
  {
  }

  /** No pair scores lower than the one found, and of equal ones the first is found: by voltage channel, then by current
      channel. */
  lemma FirstOfTheLowest(c: Config, s: State, chans: seq<real>, v: nat, i: nat, w: nat, j: nat)
    requires Best(c, s, chans, v, i) && IsPair(chans, w, j) && Score(c, s, chans, w, j) <= Score(c, s, chans, v, i)
    ensures Score(c, s, chans, w, j) == Score(c, s, chans, v, i) && (v < w || (v == w && i <= j))
  {
    hide Score;
  }

  /** Two channels at 1.0 V and 0.1 V: eleven volts are the battery, whichever channel they are on. */
  lemma FindsTheBattery(c: Config, s: State, det: Option<(nat, nat)>)
    requires Shipped(c) && s == State(None, None, None, None, None, None, 0)
    ensures Detects(c, s, [1.0, 0.1], det) <==> det == Some((0, 1))
    ensures Detects(c, s, [0.1, 1.0], det) <==> det == Some((1, 0))
  {
    assert Score(c, s, [1.0, 0.1], 0, 1) < 1.0 && Score(c, s, [1.0, 0.1], 1, 0) > 1000.0;
    assert Score(c, s, [0.1, 1.0], 1, 0) < 1.0 && Score(c, s, [0.1, 1.0], 0, 1) > 1000.0;
    hide Score;
    forall chans: seq<real>, v, i | |chans| == 2 ensures IsPair(chans, v, i) <==> (v, i) == (0, 1) || (v, i) == (1, 0) {
    }
  }

  /** A current channel at its resting voltage costs nothing for that, one off it does, either way. */
  lemma RestIsLikely(c: Config, s: State)
    requires Shipped(c.(ampsOffset := 0.0)) && c.ampsOffset == 0.33 && s.lastV.None? && s.lastI.None?
    ensures Unlikely(c, s, 1.0, 0.33) == 0.25
    ensures Unlikely(c, s, 1.0, 0.53) == 0.25 + 0.0757576 + 0.04
    ensures Unlikely(c, s, 1.0, 0.23) == 0.25 + 0.0378788 + 0.02
  {
  }

  // ---------------------------------------------------------------- bad readings in a row

  /** Bad readings are counted; every reselectAfterBad-th of them forgets the channels and starts the count again. With
      fixed channels, or with the limit off, they are only counted. */
  lemma {:induction false} BadInARow(c: Config, s: State, rs: seq<Reading>)
    requires s.badCount == 0
    requires forall k :: 0 <= k < |rs| ==> !Accepted(c, s, rs[k].v, rs[k].i)
    ensures var t, n := Run(c, s, rs), c.reselectAfterBad;
            && SameMemory(s, t)
            && (c.fixedChannels || n == 0 ==> t.badCount == |rs| && t.vCh == s.vCh && t.iCh == s.iCh)
            && (!c.fixedChannels && n > 0 ==> t.badCount == LeftOver(|rs|, n))
            && (!c.fixedChannels && n > 0 && |rs| < n ==> t.vCh == s.vCh && t.iCh == s.iCh)
            && (!c.fixedChannels && n > 0 && |rs| >= n ==> t.vCh == None && t.iCh == None)
  {
    if rs != [] {
      var m := |rs| - 1;
      BadInARow(c, s, rs[..m]);
      SameAcceptance(c, s, Run(c, s, rs[..m]), rs[m]);
      hide Accepted;
      if c.reselectAfterBad > 0 {
        NextLeftOver(m, c.reselectAfterBad);
        hide LeftOver;
      }
    }
  }

  /** What is left of m when n is taken away as often as it goes. */
  function LeftOver(m: nat, n: nat): nat
    requires n > 0
  {
    if m < n then m else LeftOver(m - n, n)
  }

  lemma {:induction false} NextLeftOver(m: nat, n: nat)
    requires n > 0
    ensures LeftOver(m, n) < n
    ensures LeftOver(m + 1, n) == if LeftOver(m, n) == n - 1 then 0 else LeftOver(m, n) + 1
  {
    if m >= n {
      NextLeftOver(m - n, n);
    }
  }

  /** Without holding, a reading that is not accepted is published as it is, and marked. With holding and nothing to hold
      it is too. */
  lemma RejectedAsRead(c: Config, s: State, v: real, i: real)
    requires Settled(c, s) && !Accepted(c, s, v, i) && (!c.holdLastGood || s.lastV.None?)
    ensures Filter(c, s, v, i).1 == Published(v, i, false, false)
  {
    hide Accepted;
  }

  /** Without smoothing an accepted reading is published and remembered as it is. */
  lemma UnsmoothedAsRead(c: Config, s: State, v: real, i: real)
    requires c.alpha <= 0.0 && Accepted(c, s, v, i)
    ensures var (t, out) := Filter(c, s, v, i);
            out == Published(v, i, true, false) && t.lastV == Some(v) && t.lastI == Some(i) && t.badCount == 0
  {
  }
}
