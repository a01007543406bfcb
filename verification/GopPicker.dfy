/** video/gst_streamer.py: the ring of compressed access units, and the choice of a stereo pair from two rings. */
module GopPicker {
  import opened Prelude

  /** An access unit: its number, its instant on the shared clock if it has one, and whether it starts a GOP. */
  datatype Unit = Unit(seqNo: int, clockNs: Option<int>, keyframe: bool)

  type Units = seq<Unit>

  // ---------------------------------------------------------------- GOP segments

  predicate Contiguous(aus: Units, from: int, to: int)
    requires 0 <= from <= to < |aus|
  {
    forall j :: from < j <= to ==> aus[j].seqNo == aus[j - 1].seqNo + 1
  }

  predicate LeadsTo(aus: Units, from: int, to: int)
  {
    0 <= from <= to < |aus| && aus[from].keyframe && Contiguous(aus, from, to)
  }

  /** A keyframe is reachable from `idx` without crossing a gap in the numbering. */
  predicate Decodable(aus: Units, idx: int)
  {
    exists from :: 0 <= from < |aus| && LeadsTo(aus, from, idx)
  }

  /** The run from the latest keyframe at or before `idx`. */
  predicate IsGop(aus: Units, idx: int, from: int)
  {
    LeadsTo(aus, from, idx) && forall j :: from < j <= idx ==> !aus[j].keyframe
  }

  /** Walk back from the target. Succeeds exactly when the target is decodable, and then returns a
      keyframe-led run of consecutive numbers that ends at the target and holds no later keyframe. */
  method GopSegment(aus: Units, idx: int) returns (r: Option<Units>)
    ensures r.Some? <==> Decodable(aus, idx)
    ensures r.Some? ==> exists from :: 0 <= from <= idx < |aus| && IsGop(aus, idx, from) && r.value == aus[from..idx + 1]
  {
    if !(0 <= idx < |aus|) {
      return None;
    }
    var i := idx;
    while true
      invariant 0 <= i <= idx < |aus|
      invariant forall j :: i < j <= idx ==> !aus[j].keyframe
      invariant Contiguous(aus, i, idx)
      decreases i
    {
      if aus[i].keyframe {
        assert LeadsTo(aus, i, idx) && IsGop(aus, idx, i);
        return Some(aus[i..idx + 1]);
      }
      if i == 0 || aus[i].seqNo != aus[i - 1].seqNo + 1 {
        NoKeyframeBehind(aus, i, idx);
        return None;
      }
      i := i - 1;
    }
  }

  /** The run starts at the latest keyframe there is up to the target. */
  lemma GopFromLatestKeyframe(aus: Units, idx: int, from: int, j: int)
    requires IsGop(aus, idx, from) && 0 <= j <= idx && aus[j].keyframe
    ensures j <= from
  {
  }

  lemma NoKeyframeBehind(aus: Units, i: int, idx: int)
    requires 0 <= i <= idx < |aus|
    requires forall j :: i <= j <= idx ==> !aus[j].keyframe
    requires i == 0 || aus[i].seqNo != aus[i - 1].seqNo + 1
    ensures !Decodable(aus, idx)
  {
  }

  // ---------------------------------------------------------------- selection

  predicate Candidate(aus: Units, i: int)
  {
    0 <= i < |aus| && aus[i].clockNs.Some? && Decodable(aus, i)
  }

  predicate IsNewest(aus: Units, i: int)
  {
    Candidate(aus, i) && forall j :: i < j < |aus| ==> !Candidate(aus, j)
  }

  function Distance(x: int, y: int): nat
  {
    if x < y then y - x else x - y
  }

  function Instant(aus: Units, i: int): int
    requires Candidate(aus, i)
  {
    aus[i].clockNs.value
  }

  /** The earliest among the candidates that are nearest to the target instant. */
  ghost predicate IsClosest(aus: Units, target: int, i: int)
  {
    && Candidate(aus, i)
    && (forall j :: Candidate(aus, j) ==> Distance(Instant(aus, i), target) <= Distance(Instant(aus, j), target))
    && (forall j :: j < i && Candidate(aus, j) ==> Distance(Instant(aus, i), target) < Distance(Instant(aus, j), target))
  }

  method NewestDecodableIndex(aus: Units) returns (r: Option<int>)
    ensures r.Some? ==> IsNewest(aus, r.value)
    ensures r.None? ==> forall i :: !Candidate(aus, i)
  {
    hide Decodable;
    var i := |aus| - 1;
    while i >= 0
      invariant -1 <= i < |aus|
      invariant forall j :: i < j < |aus| ==> !Candidate(aus, j)
    {
      if aus[i].clockNs.Some? {
        var segment := GopSegment(aus, i);
        if segment.Some? {
          return Some(i);
        }
      }
      i := i - 1;
    }
    return None;
  }

  method ClosestDecodableIndex(aus: Units, target: int) returns (r: Option<int>)
    ensures r.Some? ==> IsClosest(aus, target, r.value)
    ensures r.None? ==> forall i :: !Candidate(aus, i)
  {
    hide Decodable;
    r := None;
    var bestD: nat := 0;
    for i := 0 to |aus|
      invariant r.None? ==> forall j :: 0 <= j < i ==> !Candidate(aus, j)
      invariant r.Some? ==> 0 <= r.value < i && Candidate(aus, r.value) && bestD == Distance(Instant(aus, r.value), target)
      invariant r.Some? ==> forall j :: 0 <= j < i && Candidate(aus, j) ==> bestD <= Distance(Instant(aus, j), target)
      invariant r.Some? ==> forall j :: 0 <= j < r.value && Candidate(aus, j) ==> bestD < Distance(Instant(aus, j), target)
    {
      if aus[i].clockNs.Some? {
        var segment := GopSegment(aus, i);
        if segment.Some? {
          assert Candidate(aus, i);
          var d := Distance(aus[i].clockNs.value, target);
          if r.None? || d < bestD {
            r, bestD := Some(i), d;
          }
        }
      }
    }
  }

  datatype Pair = Pair(deltaNs: nat, left: int, right: int)

  /** The instant both sides can show: the earlier of their newest decodable units. */
  function Shared(left: Units, right: Units, l: int, m: int): int
    requires Candidate(left, l) && Candidate(right, m)
  {
    if Instant(left, l) <= Instant(right, m) then Instant(left, l) else Instant(right, m)
  }

  ghost predicate Picks(left: Units, right: Units, l: int, m: int, p: Pair)
  {
    && IsNewest(left, l) && IsNewest(right, m)
    && IsClosest(left, Shared(left, right, l, m), p.left) && IsClosest(right, Shared(left, right, l, m), p.right)
    && p.deltaNs == Distance(Instant(left, p.left), Instant(right, p.right))
  }

  method PickDecodablePair(left: Units, right: Units) returns (r: Option<Pair>)
    ensures r.None? <==> (forall i :: !Candidate(left, i)) || (forall i :: !Candidate(right, i))
    ensures r.Some? ==> exists l, m :: Picks(left, right, l, m, r.value)
  {
    hide Decodable;
    var l := NewestDecodableIndex(left);
    var m := NewestDecodableIndex(right);
    if l.None? || m.None? {
      return None;
    }
    assert Candidate(left, l.value) && Candidate(right, m.value);
    var lc, rc := left[l.value].clockNs.value, right[m.value].clockNs.value;
    var target := if lc <= rc then lc else rc;
    var li := ClosestDecodableIndex(left, target);
    var ri := ClosestDecodableIndex(right, target);
    assert li.Some? && ri.Some?;
    r := Some(Pair(Distance(left[li.value].clockNs.value, right[ri.value].clockNs.value), li.value, ri.value));
    assert Picks(left, right, l.value, m.value, r.value);
  }

  /** What the choice means: both units are decodable, one sits exactly at the shared instant, the other is the
      closest candidate to it, and the pair is never further apart than the two newest decodable units. */
  lemma PairNoWorseThanNewest(left: Units, right: Units, l: int, m: int, p: Pair)
    requires Picks(left, right, l, m, p)
    ensures Candidate(left, p.left) && Candidate(right, p.right)
    ensures var t := Shared(left, right, l, m);
            || (Instant(left, p.left) == t && forall j :: Candidate(right, j) ==> p.deltaNs <= Distance(t, Instant(right, j)))
            || (Instant(right, p.right) == t && forall j :: Candidate(left, j) ==> p.deltaNs <= Distance(t, Instant(left, j)))
    ensures p.deltaNs <= Distance(Instant(left, l), Instant(right, m))
  {
  }

  /** Each side's newest decodable unit is at or after the instant picked, one of them exactly at it; of equally near
      candidates the earliest in the ring is taken. */
  lemma PicksEarlierInstant(left: Units, right: Units, l: int, m: int, p: Pair)
    requires Picks(left, right, l, m, p)
    ensures var t := Shared(left, right, l, m);
            && t <= Instant(left, l) && t <= Instant(right, m) && (t == Instant(left, l) || t == Instant(right, m))
            && (forall j :: Candidate(left, j) && Distance(Instant(left, j), t) == Distance(Instant(left, p.left), t) ==> p.left <= j)
            && (forall j :: Candidate(right, j) && Distance(Instant(right, j), t) == Distance(Instant(right, p.right), t) ==> p.right <= j)
  {
  }

  // ---------------------------------------------------------------- the ring and its counter

  /** What happens on one stream. A unit is numbered when it is pulled and appended later by the same
      thread; a capture takes a number of its own at any moment in between. */
  datatype Event = Pull(clockNs: Option<int>, keyframe: bool) | Append | Capture

  /** `log` is every unit ever appended. */
  datatype State = State(counter: int, pending: Option<Unit>, ring: Units, log: Units)

  const EMPTY := State(0, None, [], [])

  function Suffix(s: Units, n: nat): Units
  {
    if |s| <= n then s else s[|s| - n..]
  }

  function Pushed(ring: Units, u: Unit, maxLen: nat): Units
  {
    Suffix(ring + [u], maxLen)
  }

  /** The one ring thread pulls only with nothing in hand and appends only what it holds; other orders change nothing. */
  function Step(s: State, e: Event, maxLen: nat): State
  {
    match e
    case Pull(clockNs, keyframe) =>
      if s.pending.Some? then s
      else s.(counter := s.counter + 1, pending := Some(Unit(s.counter + 1, clockNs, keyframe)))
    case Append =>
      if s.pending.None? then s
      else s.(pending := None, ring := Pushed(s.ring, s.pending.value, maxLen), log := s.log + [s.pending.value])
    case Capture =>
      s.(counter := s.counter + 1)
  }

  function Run(events: seq<Event>, maxLen: nat): State
  {
    if events == [] then EMPTY else Step(Run(events[..|events| - 1], maxLen), events[|events| - 1], maxLen)
  }

  predicate Increasing(s: Units)
  {
    forall i, j :: 0 <= i < j < |s| ==> s[i].seqNo < s[j].seqNo
  }

  predicate RingInv(s: State, maxLen: nat)
  {
    && s.ring == Suffix(s.log, maxLen)
    && Increasing(s.log)
    && (forall i :: 0 <= i < |s.log| ==> s.log[i].seqNo <= s.counter)
    && (s.pending.Some? ==>
          && s.pending.value.seqNo <= s.counter
          && forall i :: 0 <= i < |s.log| ==> s.log[i].seqNo < s.pending.value.seqNo)
  }

  lemma StepKeepsRing(s: State, e: Event, maxLen: nat)
    requires RingInv(s, maxLen)
    ensures RingInv(Step(s, e, maxLen), maxLen)
  {
    if e.Append? && s.pending.Some? {
      PushedIsSuffix(s.log, s.pending.value, maxLen);
    }
    hide Pushed, Suffix;
  }

  lemma PushedIsSuffix(log: Units, u: Unit, maxLen: nat)
    ensures Pushed(Suffix(log, maxLen), u, maxLen) == Suffix(log + [u], maxLen)
  {
  }

  /** Under any interleaving of pulls, appends and captures the ring is the last maxLen units appended, in strictly
      increasing numbers. */
  lemma {:induction false} RingIsSuffix(events: seq<Event>, maxLen: nat)
    ensures RingInv(Run(events, maxLen), maxLen)
    ensures |Run(events, maxLen).ring| <= maxLen && Increasing(Run(events, maxLen).ring)
  {
    if events != [] {
      RingIsSuffix(events[..|events| - 1], maxLen);
      StepKeepsRing(Run(events[..|events| - 1], maxLen), events[|events| - 1], maxLen);
    }
  }

  function CaptureCount(events: seq<Event>): nat
  {
    if events == [] then 0 else CaptureCount(events[..|events| - 1]) + if events[|events| - 1].Capture? then 1 else 0
  }

  /** Every number is used once: by a unit appended, by the one in hand, or by a capture. */
  lemma {:induction false} NumbersUsed(events: seq<Event>, maxLen: nat)
    ensures var s := Run(events, maxLen);
            s.counter == |s.log| + CaptureCount(events) + if s.pending.Some? then 1 else 0
  {
    if events != [] {
      NumbersUsed(events[..|events| - 1], maxLen);
    }
  }

  /** Without captures the units are numbered in order from 1, so that the ring breaks no GOP: once the first unit held is a
      keyframe, every unit can be decoded. */
  lemma UndisturbedDecodes(events: seq<Event>, maxLen: nat)
    requires CaptureCount(events) == 0
    ensures var s := Run(events, maxLen);
            && (forall i :: 0 <= i < |s.log| ==> s.log[i].seqNo == i + 1)
            && (s.pending.Some? ==> s.pending.value.seqNo == |s.log| + 1)
            && (s.ring != [] && s.ring[0].keyframe ==> forall i :: 0 <= i < |s.ring| ==> Decodable(s.ring, i))
  {
    var s := Run(events, maxLen);
    NumberedInOrder(events, maxLen);
    RingIsSuffix(events, maxLen);
    hide Run;
    if s.ring != [] && s.ring[0].keyframe {
      forall i | 0 <= i < |s.ring| ensures Decodable(s.ring, i) {
        assert LeadsTo(s.ring, 0, i);
      }
    }
  }

  lemma {:induction false} NumberedInOrder(events: seq<Event>, maxLen: nat)
    requires CaptureCount(events) == 0
    ensures var s := Run(events, maxLen);
            && (forall i :: 0 <= i < |s.log| ==> s.log[i].seqNo == i + 1)
            && (s.pending.Some? ==> s.pending.value.seqNo == |s.log| + 1)
  {
    if events != [] {
      NumberedInOrder(events[..|events| - 1], maxLen);
      NumbersUsed(events[..|events| - 1], maxLen);
      hide Pushed;
    }
  }

  /** A segment taken from the ring misses nothing: every unit ever appended whose number lies in its span is in it. */
  lemma SegmentMissesNothing(s: State, maxLen: nat, idx: int, from: int, k: int)
    requires RingInv(s, maxLen) && IsGop(s.ring, idx, from)
    requires 0 <= k < |s.log| && s.ring[from].seqNo <= s.log[k].seqNo <= s.ring[idx].seqNo
    ensures s.log[k] in s.ring[from..idx + 1]
  {
  }

  /** A keyframe is decodable; a delta unit is exactly when it follows on from a decodable one. */
  lemma StepDecodable(r: Units, i: int)
    requires 0 <= i < |r|
    ensures Decodable(r, i) <==> r[i].keyframe || (i >= 1 && r[i].seqNo == r[i - 1].seqNo + 1 && Decodable(r, i - 1))
  {
    if r[i].keyframe {
      assert LeadsTo(r, i, i);
    } else {
      if from :| 0 <= from < |r| && LeadsTo(r, from, i) {
        assert LeadsTo(r, from, i - 1);
      }
      if i >= 1 && r[i].seqNo == r[i - 1].seqNo + 1 && Decodable(r, i - 1) {
        var from :| 0 <= from < |r| && LeadsTo(r, from, i - 1);
        assert LeadsTo(r, from, i);
      }
    }
  }

  function Captures(n: nat): seq<Event>
  {
    if n == 0 then [] else Captures(n - 1) + [Capture]
  }

  /** The run goes on with captures, the next unit's pull, more captures while it is in hand, and its append. */
  function Extended(events: seq<Event>, captures: nat, clockNs: Option<int>, keyframe: bool, late: nat): seq<Event>
  {
    events + Captures(captures) + [Pull(clockNs, keyframe)] + Captures(late) + [Append]
  }

  lemma {:induction false} CapturesCount(events: seq<Event>, n: nat, maxLen: nat)
    ensures Run(events + Captures(n), maxLen) == Run(events, maxLen).(counter := Run(events, maxLen).counter + n)
  {
    hide Run;
    if n == 0 {
      assert events + Captures(0) == events;
    } else {
      CapturesCount(events, n - 1, maxLen);
      RunPush(events + Captures(n - 1), Capture, maxLen);
      assert events + Captures(n) == events + Captures(n - 1) + [Capture];
    }
  }

  lemma RunPush(events: seq<Event>, e: Event, maxLen: nat)
    ensures Run(events + [e], maxLen) == Step(Run(events, maxLen), e, maxLen)
  {
    assert (events + [e])[..|events|] == events;
  }

  /** The unit is numbered by the captures before its pull alone. */
  lemma ExtendedRun(events: seq<Event>, captures: nat, clockNs: Option<int>, keyframe: bool, late: nat, maxLen: nat)
    requires Run(events, maxLen).pending.None?
    ensures var s, s' := Run(events, maxLen), Run(Extended(events, captures, clockNs, keyframe, late), maxLen);
            s'.pending.None? && s'.ring == Pushed(s.ring, Unit(s.counter + captures + 1, clockNs, keyframe), maxLen)
  {
    hide Run;
    var waiting := events + Captures(captures);
    var pulled := waiting + [Pull(clockNs, keyframe)];
    CapturesCount(events, captures, maxLen);
    RunPush(waiting, Pull(clockNs, keyframe), maxLen);
    CapturesCount(pulled, late, maxLen);
    RunPush(pulled + Captures(late), Append, maxLen);
  }

  /** When the unit just appended can be decoded, in any run. A delta unit needs the unit before it to be decodable
      still, and no capture to have taken a number in between: a capture makes everything up to the next keyframe
      undecodable. */
  lemma TailDecodable(events: seq<Event>, captures: nat, clockNs: Option<int>, keyframe: bool, late: nat, maxLen: nat)
    requires maxLen >= 1 && Run(events, maxLen).pending.None?
    ensures var s, s' := Run(events, maxLen), Run(Extended(events, captures, clockNs, keyframe, late), maxLen);
            var tail := |s'.ring| - 1;
            && tail >= 0
            && (Decodable(s'.ring, tail) <==>
                  || keyframe
                  || (tail >= 1 && s'.ring[tail - 1].seqNo == s.counter + captures && Decodable(s'.ring, tail - 1)))
  {
    hide Run, Decodable, Extended;
    ExtendedRun(events, captures, clockNs, keyframe, late, maxLen);
    var s, r := Run(events, maxLen), Run(Extended(events, captures, clockNs, keyframe, late), maxLen).ring;
    var tail := |r| - 1;
    assert r[tail] == Unit(s.counter + captures + 1, clockNs, keyframe);
    StepDecodable(r, tail);
  }

  /** One capture between an append and the next pull is enough: the delta unit pulled then cannot be decoded. */
  lemma CaptureBreaksGop(events: seq<Event>, captures: nat, clockNs: Option<int>, late: nat, maxLen: nat)
    requires maxLen >= 1 && Run(events, maxLen).pending.None? && captures >= 1
    ensures var s' := Run(Extended(events, captures, clockNs, false, late), maxLen);
            !Decodable(s'.ring, |s'.ring| - 1)
  {
    hide Run, Decodable, Extended;
    TailDecodable(events, captures, clockNs, false, late, maxLen);
    ExtendedRun(events, captures, clockNs, false, late, maxLen);
    var s := Run(events, maxLen);
    PushedTail(s.ring, Unit(s.counter + captures + 1, clockNs, false), maxLen);
    LastNumbered(events, maxLen);
    hide Pushed;
  }

  lemma PushedTail(ring: Units, u: Unit, maxLen: nat)
    ensures var p := Pushed(ring, u, maxLen); |p| >= 2 ==> ring != [] && p[|p| - 2] == ring[|ring| - 1]
  {
  }

  lemma LastNumbered(events: seq<Event>, maxLen: nat)
    ensures var s := Run(events, maxLen); s.ring != [] ==> s.ring[|s.ring| - 1].seqNo <= s.counter
  {
    RingIsSuffix(events, maxLen);
    hide Run;
    var s := Run(events, maxLen);
    if s.ring != [] {
      assert s.ring[|s.ring| - 1] == s.log[|s.log| - 1];
    }
  }

  // ---------------------------------------------------------------- keyframes often enough

  /** Every g units appended in a row include a keyframe with a clock. */
  predicate KeyEvery(log: Units, g: nat)
  {
    forall a :: 0 <= a && a + g <= |log| ==> ClockedKeyIn(log, a, g)
  }

  predicate ClockedKeyIn(log: Units, a: int, g: nat)
    requires 0 <= a && a + g <= |log|
  {
    exists j :: a <= j < a + g && log[j].keyframe && log[j].clockNs.Some?
  }

  /** Then, whatever the captures did, the newest decodable unit is among the last g of the ring. */
  lemma NewestNearTail(s: State, maxLen: nat, g: nat)
    requires RingInv(s, maxLen) && KeyEvery(s.log, g)
    requires g <= maxLen && g <= |s.log|
    ensures exists i :: IsNewest(s.ring, i)
    ensures forall i :: IsNewest(s.ring, i) ==> i >= |s.ring| - g
  {
    hide Decodable, KeyEvery, RingInv, IsNewest;
    var k := KeyNearTail(s, maxLen, g);
    var i := LastCandidate(s.ring, k);
    NothingNewer(s.ring, k);
  }

  lemma KeyNearTail(s: State, maxLen: nat, g: nat) returns (k: nat)
    requires RingInv(s, maxLen) && KeyEvery(s.log, g)
    requires g <= maxLen && g <= |s.log|
    ensures |s.ring| - g <= k < |s.ring| && Candidate(s.ring, k)
  {
    var base := |s.log| - |s.ring|;
    assert ClockedKeyIn(s.log, |s.log| - g, g);
    var j :| |s.log| - g <= j < |s.log| && s.log[j].keyframe && s.log[j].clockNs.Some?;
    k := j - base;
    assert s.ring[k] == s.log[j];
    hide RingInv, KeyEvery;
    assert LeadsTo(s.ring, k, k);
  }

  lemma NothingNewer(aus: Units, k: int)
    requires Candidate(aus, k)
    ensures forall i :: IsNewest(aus, i) ==> i >= k
  {
    hide Decodable;
  }

  lemma LastCandidate(aus: Units, k: int) returns (i: int)
    requires Candidate(aus, k)
    ensures IsNewest(aus, i) && i >= k
    decreases |aus| - k
  {
    hide Decodable;
    if j :| k < j < |aus| && Candidate(aus, j) {
      i := LastCandidate(aus, j);
    } else {
      i := k;
    }
  }

  // ---------------------------------------------------------------- the stream object

  class GstStream {
    const maxLen: nat
    var snapshotSeq: int
    var pending: Option<Unit>
    var ring: Units
    ghost var log: Units
    ghost var events: seq<Event>

    ghost function Current(): State
      reads this
    {
      State(snapshotSeq, pending, ring, log)
    }

    ghost predicate Valid()
      reads this
    {
      Current() == Run(events, maxLen)
    }

    constructor (maxLen: nat)
      ensures Valid() && this.maxLen == maxLen && events == []
    {
      this.maxLen := maxLen;
      snapshotSeq, pending, ring := 0, None, [];
      log, events := [], [];
    }

    ghost method Record(e: Event, before: State)
      requires before == Run(events, maxLen) && Current() == Step(before, e, maxLen)
      modifies this`events
      ensures Valid() && events == old(events) + [e]
    {
      events := events + [e];
      assert events[..|events| - 1] == old(events);
    }

    /** A sample becomes a numbered unit in the hands of the ring thread. */
    method PullUnit(clockNs: Option<int>, keyframe: bool)
      requires Valid() && pending.None?
      modifies this
      ensures Valid() && events == old(events) + [Pull(clockNs, keyframe)]
    {
      ghost var before := Current();
      snapshotSeq := snapshotSeq + 1;
      pending := Some(Unit(snapshotSeq, clockNs, keyframe));
      Record(Pull(clockNs, keyframe), before);
    }

    method AppendUnit()
      requires Valid() && pending.Some?
      modifies this
      ensures Valid() && events == old(events) + [Append]
    {
      ghost var before := Current();
      ring := ring + [pending.value];
      if |ring| > maxLen {
        ring := ring[|ring| - maxLen..];
      }
      log := log + [pending.value];
      pending := None;
      Record(Append, before);
    }

    /** Decode the unit at `idx` of a snapshot of the ring, and number the captured frame. */
    method CaptureFrame(aus: Units, idx: int) returns (segment: Option<Units>, seqNo: int)
      requires Valid()
      modifies this
      ensures Valid()
      ensures segment.Some? <==> Decodable(aus, idx)
      ensures segment.Some? ==> events == old(events) + [Capture] && seqNo == snapshotSeq == old(snapshotSeq) + 1
      ensures segment.None? ==> events == old(events) && Current() == old(Current())
    {
      hide Decodable;
      segment := GopSegment(aus, idx);
      seqNo := snapshotSeq;
      if segment.None? {
        return;
      }
      ghost var before := Current();
      snapshotSeq := snapshotSeq + 1;
      seqNo := snapshotSeq;
      Record(Capture, before);
    }
  }
}
