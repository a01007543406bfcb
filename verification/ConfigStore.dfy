/** utils/config_store.py: replacing assignments in a configuration file in place.
    The parser's line spans and the rendered assignments are inputs. */
module ConfigStore {
  /** First and last line of an assignment, counted from 0. */
  datatype Span = Span(start: nat, end: nat)

  datatype Replacement = Replacement(span: Span, text: string)

  datatype Update = Update(key: string, text: string)

  datatype Result = Done | UnknownKeys(keys: seq<string>)

  type Lines = seq<string>

  // ---------------------------------------------------------------- one edit

  function Least(a: nat, b: nat): nat
  {
    if a < b then a else b
  }

  /** lines[start : end + 1] = [text], with a slice's clipping at the end of the list. */
  function Splice(lines: Lines, r: Replacement): Lines
  {
    var from := Least(r.span.start, |lines|);
    var to := Least(r.span.end + 1, |lines|);
    lines[..from] + [r.text] + lines[if to < from then from else to..]
  }

  function Spliced(lines: Lines, reps: seq<Replacement>): Lines
  {
    if reps == [] then lines else Splice(Spliced(lines, reps[..|reps| - 1]), reps[|reps| - 1])
  }

  // ---------------------------------------------------------------- order

  /** Insert before the first replacement that starts earlier. */
  function Insert(r: Replacement, reps: seq<Replacement>): seq<Replacement>
  {
    if reps == [] || reps[0].span.start < r.span.start then [r] + reps else [reps[0]] + Insert(r, reps[1..])
  }

  /** By start line, highest first; equal starts in the order given. */
  function Ordered(reps: seq<Replacement>): seq<Replacement>
  {
    if reps == [] then [] else Insert(reps[|reps| - 1], Ordered(reps[..|reps| - 1]))
  }

  predicate Descending(reps: seq<Replacement>)
  {
    forall j, k :: 0 <= j < k < |reps| ==> reps[j].span.start >= reps[k].span.start
  }

  lemma {:induction false} InsertKeeps(r: Replacement, reps: seq<Replacement>)
    ensures multiset(Insert(r, reps)) == multiset(reps) + multiset{r}
    ensures forall k :: 0 <= k < |Insert(r, reps)| ==> Insert(r, reps)[k] == r || Insert(r, reps)[k] in reps
  {
    if reps != [] && reps[0].span.start >= r.span.start {
      InsertKeeps(r, reps[1..]);
      assert reps == [reps[0]] + reps[1..];
    }
  }

  lemma {:induction false} InsertOrders(r: Replacement, reps: seq<Replacement>)
    requires Descending(reps)
    ensures Descending(Insert(r, reps))
  {
    if reps != [] && reps[0].span.start >= r.span.start {
      InsertOrders(r, reps[1..]);
      InsertKeeps(r, reps[1..]);
    }
  }

  lemma {:induction false} OrderedOrders(reps: seq<Replacement>)
    ensures Descending(Ordered(reps)) && multiset(Ordered(reps)) == multiset(reps)
  {
    if reps != [] {
      OrderedOrders(reps[..|reps| - 1]);
      InsertOrders(reps[|reps| - 1], Ordered(reps[..|reps| - 1]));
      InsertKeeps(reps[|reps| - 1], Ordered(reps[..|reps| - 1]));
      assert reps == reps[..|reps| - 1] + [reps[|reps| - 1]];
    }
  }

  // ---------------------------------------------------------------- simultaneous substitution

  predicate Apart(a: Span, b: Span)
  {
    a.end < b.start || b.end < a.start
  }

  predicate InFile(reps: seq<Replacement>, n: nat)
  {
    forall k :: 0 <= k < |reps| ==> reps[k].span.start <= reps[k].span.end < n
  }

  predicate Disjoint(reps: seq<Replacement>)
  {
    forall j, k :: 0 <= j < k < |reps| ==> Apart(reps[j].span, reps[k].span)
  }

  predicate StartsAt(reps: seq<Replacement>, line: nat)
  {
    exists m :: 0 <= m < |reps| && reps[m].span.start == line
  }

  function At(reps: seq<Replacement>, line: nat): (r: Replacement)
    requires StartsAt(reps, line)
    ensures r in reps && r.span.start == line
  {
    if reps[0].span.start == line then reps[0] else At(reps[1..], line)
  }

  /** The file from a line on, every span replaced at once: read from the front, no line number ever moves. */
  function Substitute(lines: Lines, reps: seq<Replacement>, line: nat): Lines
    requires InFile(reps, |lines|) && line <= |lines|
    decreases |lines| - line
  {
    if line == |lines| then []
    else if StartsAt(reps, line) then
      var r := At(reps, line);
      [r.text] + Substitute(lines, reps, r.span.end + 1)
    else [lines[line]] + Substitute(lines, reps, line + 1)
  }

  lemma {:induction false} AtIsOnly(reps: seq<Replacement>, m: nat)
    requires Disjoint(reps) && m < |reps|
    requires forall k :: 0 <= k < |reps| ==> reps[k].span.start <= reps[k].span.end
    ensures StartsAt(reps, reps[m].span.start) && At(reps, reps[m].span.start) == reps[m]
  {
  }

  /** Between spans the file is copied. */
  lemma {:induction false} GapCopied(lines: Lines, reps: seq<Replacement>, a: nat, b: nat)
    requires InFile(reps, |lines|) && a <= b <= |lines|
    requires forall k :: 0 <= k < |reps| ==> !(a <= reps[k].span.start < b)
    ensures Substitute(lines, reps, a) == lines[a..b] + Substitute(lines, reps, b)
    decreases b - a
  {
    hide Substitute, At;
    if a < b {
      GapCopied(lines, reps, a + 1, b);
      LineCopied(lines, reps, a);
      FrontOfSlice(lines, a, b, Substitute(lines, reps, b));
    } else {
      assert lines[a..b] == [];
    }
  }

  lemma LineCopied(lines: Lines, reps: seq<Replacement>, a: nat)
    requires InFile(reps, |lines|) && a < |lines|
    requires forall k :: 0 <= k < |reps| ==> reps[k].span.start != a
    ensures Substitute(lines, reps, a) == [lines[a]] + Substitute(lines, reps, a + 1)
  {
    hide At;
    assert !StartsAt(reps, a);
  }

  lemma FrontOfSlice(lines: Lines, a: nat, b: nat, rest: Lines)
    requires a < b <= |lines|
    ensures [lines[a]] + (lines[a + 1..b] + rest) == lines[a..b] + rest
  {
    assert lines[a..b] == [lines[a]] + lines[a + 1..b];
  }

  /** One edit from the bottom: if everything from line p on is already replaced, and the next span above
      ends before p, editing it leaves everything from its start on replaced. */
  lemma EditAbove(lines: Lines, reps: seq<Replacement>, m: nat, p: nat)
    requires InFile(reps, |lines|) && Disjoint(reps) && m < |reps|
    requires reps[m].span.end < p <= |lines|
    requires forall k :: 0 <= k < |reps| ==> !(reps[m].span.start < reps[k].span.start < p)
    ensures Splice(lines[..p] + Substitute(lines, reps, p), reps[m])
         == lines[..reps[m].span.start] + Substitute(lines, reps, reps[m].span.start)
  {
    var r := reps[m];
    var s, e := r.span.start, r.span.end;
    hide Splice, Substitute;
    AtIsOnly(reps, m);
    GapCopied(lines, reps, e + 1, p);
    SpliceAbove(lines, Substitute(lines, reps, p), p, r);
    SubstituteAt(lines, reps, s);
    hide At, StartsAt, Disjoint;
    Regrouped(lines[..s], [r.text], lines[e + 1..p], Substitute(lines, reps, p));
  }

  lemma SubstituteAt(lines: Lines, reps: seq<Replacement>, line: nat)
    requires InFile(reps, |lines|) && line < |lines| && StartsAt(reps, line)
    ensures Substitute(lines, reps, line) == [At(reps, line).text] + Substitute(lines, reps, At(reps, line).span.end + 1)
  {
    hide At, StartsAt;
  }

  lemma SpliceAbove(lines: Lines, done: Lines, p: nat, r: Replacement)
    requires r.span.start <= r.span.end < p <= |lines|
    ensures Splice(lines[..p] + done, r) == lines[..r.span.start] + [r.text] + (lines[r.span.end + 1..p] + done)
  {
    var file := lines[..p] + done;
    assert file[..r.span.start] == lines[..r.span.start];
    assert file[r.span.end + 1..] == lines[r.span.end + 1..p] + done;
  }

  lemma Regrouped(a: Lines, b: Lines, c: Lines, d: Lines)
    ensures a + b + (c + d) == a + (b + (c + d))
  {
  }

  /** Where the first n edits, from the bottom, have got to. */
  function Front(lines: Lines, reps: seq<Replacement>, n: nat): nat
    requires n <= |reps|
  {
    if n == 0 then |lines| else reps[n - 1].span.start
  }

  /** The next span to edit lies wholly above the front, and no span begins between them. */
  lemma FrontMoves(lines: Lines, reps: seq<Replacement>, n: nat)
    requires InFile(reps, |lines|) && Disjoint(reps) && Descending(reps) && 0 < n <= |reps|
    ensures var p := Front(lines, reps, n - 1);
            && reps[n - 1].span.end < p <= |lines|
            && forall k :: 0 <= k < |reps| ==> !(reps[n - 1].span.start < reps[k].span.start < p)
    ensures Front(lines, reps, n) == reps[n - 1].span.start
  {
  }

  lemma SplicedLast(lines: Lines, reps: seq<Replacement>, n: nat)
    requires 0 < n <= |reps|
    ensures Spliced(lines, reps[..n]) == Splice(Spliced(lines, reps[..n - 1]), reps[n - 1])
  {
    assert reps[..n][..n - 1] == reps[..n - 1];
  }

  lemma {:induction false} EditsFromBottom(lines: Lines, reps: seq<Replacement>, n: nat)
    requires InFile(reps, |lines|) && Disjoint(reps) && Descending(reps) && n <= |reps|
    ensures var p := Front(lines, reps, n);
            Spliced(lines, reps[..n]) == lines[..p] + Substitute(lines, reps, p)
  {
    if n == 0 {
      assert reps[..0] == [] && lines[..|lines|] == lines;
    } else {
      hide Splice, Substitute, Front, Disjoint, Descending, InFile, Apart;
      EditsFromBottom(lines, reps, n - 1);
      SplicedLast(lines, reps, n);
      hide Spliced;
      FrontMoves(lines, reps, n);
      EditAbove(lines, reps, n - 1, Front(lines, reps, n - 1));
    }
  }

  /** Applying the edits in descending order is the simultaneous substitution. */
  lemma DescendingEditsSubstitute(lines: Lines, reps: seq<Replacement>)
    requires InFile(reps, |lines|) && Disjoint(reps) && Descending(reps)
    ensures Spliced(lines, reps) == Substitute(lines, reps, 0)
  {
    EditsFromBottom(lines, reps, |reps|);
    assert reps[..|reps|] == reps;
    var p := Front(lines, reps, |reps|);
    GapCopied(lines, reps, 0, p);
    assert lines[0..p] == lines[..p];
  }

  // ---------------------------------------------------------------- the order given does not matter

  lemma PermutedSpans(a: seq<Replacement>, b: seq<Replacement>, n: nat)
    requires multiset(a) == multiset(b) && InFile(a, n) && Disjoint(a)
    ensures InFile(b, n) && Disjoint(b)
  {
    forall k | 0 <= k < |b| ensures b[k] in a {
      assert b[k] in multiset(b);
    }
    forall j, k | 0 <= j < k < |b| ensures Apart(b[j].span, b[k].span) {
      if b[j] == b[k] {
        assert b == b[..j] + [b[j]] + b[j + 1..k] + [b[k]] + b[k + 1..];
        assert multiset(b)[b[k]] >= 2;
        Twice(a, b[k]);
      } else {
        assert b[j] in multiset(a) && b[k] in multiset(a);
      }
    }
  }

  lemma {:induction false} Twice(a: seq<Replacement>, r: Replacement)
    requires Disjoint(a) && r.span.start <= r.span.end
    ensures multiset(a)[r] <= 1
  {
    if a != [] {
      Twice(a[1..], r);
      assert a == [a[0]] + a[1..];
      if a[0] == r {
        forall k | 0 <= k < |a[1..]| ensures a[1..][k] != r {
          assert Apart(a[0].span, a[k + 1].span);
        }
      }
    }
  }

  ghost predicate SameSpans(a: seq<Replacement>, b: seq<Replacement>)
  {
    forall line :: StartsAt(a, line) == StartsAt(b, line) && (StartsAt(a, line) ==> At(a, line) == At(b, line))
  }

  lemma {:induction false} PermutedSubstitution(lines: Lines, a: seq<Replacement>, b: seq<Replacement>, line: nat)
    requires InFile(a, |lines|) && InFile(b, |lines|) && line <= |lines|
    requires SameSpans(a, b)
    ensures Substitute(lines, a, line) == Substitute(lines, b, line)
    decreases |lines| - line
  {
    hide StartsAt, At;
    if line < |lines| {
      if StartsAt(a, line) {
        PermutedSubstitution(lines, a, b, At(a, line).span.end + 1);
      } else {
        PermutedSubstitution(lines, a, b, line + 1);
      }
    }
  }

  lemma PermutedSame(a: seq<Replacement>, b: seq<Replacement>, n: nat)
    requires multiset(a) == multiset(b) && InFile(a, n) && Disjoint(a) && InFile(b, n) && Disjoint(b)
    ensures SameSpans(a, b)
  {
    forall line ensures StartsAt(a, line) == StartsAt(b, line) && (StartsAt(a, line) ==> At(a, line) == At(b, line)) {
      if StartsAt(a, line) {
        SameAt(a, b, line);
      } else if StartsAt(b, line) {
        SameAt(b, a, line);
      }
    }
  }

  lemma SameAt(a: seq<Replacement>, b: seq<Replacement>, line: nat)
    requires multiset(a) == multiset(b) && Disjoint(b) && StartsAt(a, line)
    requires forall k :: 0 <= k < |b| ==> b[k].span.start <= b[k].span.end
    ensures StartsAt(b, line) && At(b, line) == At(a, line)
  {
    var r := At(a, line);
    assert r in multiset(a);
    assert r in b;
    var m :| 0 <= m < |b| && b[m] == r;
    AtIsOnly(b, m);
  }

  /** What the program does to a file: whatever order the replacements come in, disjoint spans are all
      replaced as if at once. */
  lemma InPlaceIsSimultaneous(lines: Lines, reps: seq<Replacement>)
    requires InFile(reps, |lines|) && Disjoint(reps)
    ensures Spliced(lines, Ordered(reps)) == Substitute(lines, reps, 0)
  {
    OrderedOrders(reps);
    PermutedSpans(reps, Ordered(reps), |lines|);
    DescendingEditsSubstitute(lines, Ordered(reps));
    PermutedSame(reps, Ordered(reps), |lines|);
    PermutedSubstitution(lines, reps, Ordered(reps), 0);
  }

  // ---------------------------------------------------------------- every other line survives

  /** How many lines the spans above a line have lost. */
  function Lost(reps: seq<Replacement>, line: nat): int
  {
    if reps == [] then 0
    else (if reps[0].span.end < line then reps[0].span.end - reps[0].span.start else 0) + Lost(reps[1..], line)
  }

  /** Not in the middle of a span. */
  predicate Boundary(reps: seq<Replacement>, line: nat)
  {
    forall k :: 0 <= k < |reps| ==> !(reps[k].span.start < line <= reps[k].span.end)
  }

  lemma {:induction false} LostSame(reps: seq<Replacement>, a: nat, b: nat)
    requires forall k :: 0 <= k < |reps| ==> !(a <= reps[k].span.end < b)
    requires a <= b
    ensures Lost(reps, a) == Lost(reps, b)
  {
    if reps != [] {
      LostSame(reps[1..], a, b);
    }
  }

  lemma {:induction false} LostOver(reps: seq<Replacement>, m: nat)
    requires Disjoint(reps) && m < |reps|
    requires forall k :: 0 <= k < |reps| ==> reps[k].span.start <= reps[k].span.end
    ensures var s := reps[m].span; Lost(reps, s.end + 1) == Lost(reps, s.start) + s.end - s.start
  {
    var s := reps[m].span;
    if m == 0 {
      LostSame(reps[1..], s.start, s.end + 1);
    } else {
      LostOver(reps[1..], m - 1);
      assert Apart(reps[0].span, s);
    }
  }

  /** What stands for a line afterwards: the replacement that starts there, or the line itself. */
  function Standing(lines: Lines, reps: seq<Replacement>, line: nat): string
    requires line < |lines|
  {
    if StartsAt(reps, line) then At(reps, line).text else lines[line]
  }

  predicate Located(lines: Lines, reps: seq<Replacement>, from: nat, line: nat)
    requires InFile(reps, |lines|) && from <= line < |lines|
  {
    var rest := Substitute(lines, reps, from);
    var at := (line - Lost(reps, line)) - (from - Lost(reps, from));
    0 <= at < |rest| && rest[at] == Standing(lines, reps, line)
  }

  lemma {:induction false} EveryLineLocated(lines: Lines, reps: seq<Replacement>, from: nat)
    requires InFile(reps, |lines|) && Disjoint(reps) && from <= |lines| && Boundary(reps, from)
    ensures |Substitute(lines, reps, from)| == (|lines| - Lost(reps, |lines|)) - (from - Lost(reps, from))
    ensures forall line :: from <= line < |lines| && Boundary(reps, line) ==> Located(lines, reps, from, line)
    decreases |lines| - from
  {
    hide At, StartsAt, Lost, Disjoint, Boundary, Standing;
    if from < |lines| {
      var next := NextBoundary(lines, reps, from);
      hide Substitute;
      EveryLineLocated(lines, reps, next);
      forall line | from <= line < |lines| && Boundary(reps, line) ensures Located(lines, reps, from, line) {
        if line > from {
          assert line >= next;
          assert Located(lines, reps, next, line);
        }
      }
    }
  }

  lemma AfterSpan(reps: seq<Replacement>, m: nat)
    requires Disjoint(reps) && m < |reps|
    requires forall k :: 0 <= k < |reps| ==> reps[k].span.start <= reps[k].span.end
    ensures var s := reps[m].span;
            Boundary(reps, s.end + 1) && s.end + 1 - Lost(reps, s.end + 1) == s.start - Lost(reps, s.start) + 1
  {
    LostOver(reps, m);
    hide Lost;
    forall k | 0 <= k < |reps| && k != m ensures Apart(reps[m].span, reps[k].span) {
      if k < m {
        assert Apart(reps[k].span, reps[m].span);
      }
    }
  }

  lemma InsideSpan(reps: seq<Replacement>, m: nat)
    requires m < |reps|
    ensures forall line :: reps[m].span.start < line <= reps[m].span.end ==> !Boundary(reps, line)
  {
  }

  lemma AfterLine(reps: seq<Replacement>, line: nat)
    requires Boundary(reps, line) && !StartsAt(reps, line)
    requires forall k :: 0 <= k < |reps| ==> reps[k].span.start <= reps[k].span.end
    ensures Boundary(reps, line + 1) && Lost(reps, line + 1) == Lost(reps, line)
  {
    forall k | 0 <= k < |reps| ensures reps[k].span.end != line && !(reps[k].span.start < line + 1 <= reps[k].span.end) {
      assert reps[k].span.start != line;
    }
    LostSame(reps, line, line + 1);
  }

  /** The scan moves from boundary to boundary and writes one line each time. */
  lemma NextBoundary(lines: Lines, reps: seq<Replacement>, from: nat) returns (next: nat)
    requires InFile(reps, |lines|) && Disjoint(reps) && from < |lines| && Boundary(reps, from)
    ensures from < next <= |lines| && Boundary(reps, next)
    ensures Substitute(lines, reps, from) == [Standing(lines, reps, from)] + Substitute(lines, reps, next)
    ensures next - Lost(reps, next) == from - Lost(reps, from) + 1
    ensures forall line :: from < line < next ==> !Boundary(reps, line)
  {
    hide At, StartsAt, Lost, Disjoint, Boundary;
    if StartsAt(reps, from) {
      var r := At(reps, from);
      var m :| 0 <= m < |reps| && reps[m] == r;
      next := r.span.end + 1;
      AfterSpan(reps, m);
      InsideSpan(reps, m);
    } else {
      next := from + 1;
      AfterLine(reps, from);
    }
  }

  /** After the update every line outside a replaced span is still there, in order, moved up by the lines lost
      above it; each replacement stands where its span began; and there is nothing else. */
  lemma EveryOtherLineSurvives(lines: Lines, reps: seq<Replacement>)
    requires InFile(reps, |lines|) && Disjoint(reps)
    ensures |Spliced(lines, Ordered(reps))| == |lines| - Lost(reps, |lines|)
    ensures forall line :: 0 <= line < |lines| && Boundary(reps, line) ==> Survives(lines, reps, Spliced(lines, Ordered(reps)), line)
  {
    assert Boundary(reps, 0);
    hide Substitute, Spliced, Ordered, Standing, Boundary, Lost, Disjoint, InFile, Located, Survives;
    InPlaceIsSimultaneous(lines, reps);
    EveryLineLocated(lines, reps, 0);
    NoneLostAtTop(reps);
    forall line | 0 <= line < |lines| && Boundary(reps, line) ensures Survives(lines, reps, Substitute(lines, reps, 0), line) {
      LocatedFromTop(lines, reps, line);
    }
  }

  /** What stands for the line is in the file, moved up by the lines lost above it. */
  predicate Survives(lines: Lines, reps: seq<Replacement>, file: Lines, line: nat)
    requires line < |lines|
  {
    var at := line - Lost(reps, line);
    0 <= at < |file| && file[at] == Standing(lines, reps, line)
  }

  lemma LocatedFromTop(lines: Lines, reps: seq<Replacement>, line: nat)
    requires InFile(reps, |lines|) && line < |lines| && Located(lines, reps, 0, line) && Lost(reps, 0) == 0
    ensures Survives(lines, reps, Substitute(lines, reps, 0), line)
  {
  }

  lemma {:induction false} NoneLostAtTop(reps: seq<Replacement>)
    ensures Lost(reps, 0) == 0
  {
    if reps != [] {
      NoneLostAtTop(reps[1..]);
    }
  }

  /** Two assignments on one line: the spans are not disjoint, and the one given first is lost. */
  lemma SharedLineLosesFirst(lines: Lines, line: nat, a: string, b: string)
    requires line < |lines|
    ensures var s := Span(line, line);
            Spliced(lines, Ordered([Replacement(s, a), Replacement(s, b)])) == lines[line := b]
  {
    var s := Span(line, line);
    var x, y := Replacement(s, a), Replacement(s, b);
    hide Splice, Spliced, Ordered;
    OrderedPair(x, y);
    SplicedPair(lines, x, y);
    EditLine(lines, line, a);
    EditLine(lines[line := a], line, b);
    assert lines[line := a][line := b] == lines[line := b];
  }

  lemma EditLine(lines: Lines, line: nat, text: string)
    requires line < |lines|
    ensures Splice(lines, Replacement(Span(line, line), text)) == lines[line := text]
  {
  }

  lemma OrderedPair(x: Replacement, y: Replacement)
    requires x.span == y.span
    ensures Ordered([x, y]) == [x, y]
  {
    assert [x, y][..1] == [x] && [x][..0] == [] && [x][1..] == [];
    assert Ordered([x]) == Insert(x, []) == [x];
    assert Insert(y, [x]) == [x] + Insert(y, []) == [x, y];
  }

  lemma SplicedPair(lines: Lines, x: Replacement, y: Replacement)
    ensures Spliced(lines, [x, y]) == Splice(Splice(lines, x), y)
  {
    hide Splice;
    assert [x, y][..1] == [x] && [x][..0] == [];
    assert Spliced(lines, [x]) == Splice(lines, x);
  }

  /** One assignment ends on the line the next begins: whichever update is given first, the earlier assignment's text
      takes the whole of both spans, and the later one is lost. */
  lemma TouchingLosesLater(lines: Lines, a: nat, e: nat, f: nat, x: string, y: string)
    requires a < e <= f < |lines|
    ensures var first, second := Replacement(Span(a, e), x), Replacement(Span(e, f), y);
            && Spliced(lines, Ordered([first, second])) == lines[..a] + [x] + lines[f + 1..]
            && Spliced(lines, Ordered([second, first])) == lines[..a] + [x] + lines[f + 1..]
  {
    var first, second := Replacement(Span(a, e), x), Replacement(Span(e, f), y);
    hide Splice, Spliced, Ordered;
    OrderedApart(first, second);
    SplicedPair(lines, second, first);
    SplicedOver(lines, a, e, f, x, y);
  }

  lemma SplicedOver(lines: Lines, a: nat, e: nat, f: nat, x: string, y: string)
    requires a < e <= f < |lines|
    ensures Splice(Splice(lines, Replacement(Span(e, f), y)), Replacement(Span(a, e), x)) == lines[..a] + [x] + lines[f + 1..]
  {
    var once := Splice(lines, Replacement(Span(e, f), y));
    assert once == lines[..e] + [y] + lines[f + 1..];
    assert once[..a] == lines[..a] && once[e + 1..] == lines[f + 1..];
  }

  lemma OrderedApart(first: Replacement, second: Replacement)
    requires first.span.start < second.span.start
    ensures Ordered([first, second]) == [second, first] && Ordered([second, first]) == [second, first]
  {
    assert [first, second][..1] == [first] && [second, first][..1] == [second];
    assert [first][..0] == [] && [second][..0] == [] && [second][1..] == [];
    assert Ordered([first]) == Insert(first, []) == [first];
    assert Ordered([second]) == Insert(second, []) == [second];
    assert Insert(second, [first]) == [second, first];
    assert Insert(first, [second]) == [second] + Insert(first, []) == [second, first];
  }

  // ---------------------------------------------------------------- which updates survive

  /** Spans as the parser finds them: one may end on the line another begins, and no more. */
  predicate Touch(a: Span, b: Span)
  {
    a.end <= b.start || b.end <= a.start
  }

  predicate AtMostTouch(reps: seq<Replacement>)
  {
    forall j, k :: 0 <= j < k < |reps| ==> Touch(reps[j].span, reps[k].span)
  }

  /** Every text can be told from the others and from the lines of the file. */
  predicate Marked(lines: Lines, reps: seq<Replacement>)
  {
    && (forall j, k :: 0 <= j < k < |reps| ==> reps[j].text != reps[k].text)
    && (forall k :: 0 <= k < |reps| ==> reps[k].text !in lines)
  }

  predicate Stands(file: Lines, reps: seq<Replacement>, m: nat)
    requires m < |reps|
  {
    var at := reps[m].span.start - Lost(reps, reps[m].span.start);
    0 <= at < |file| && file[at] == reps[m].text
  }

  /** Every update is where its span began. */
  predicate AllSurvive(lines: Lines, reps: seq<Replacement>)
  {
    forall m :: 0 <= m < |reps| ==> Stands(Spliced(lines, Ordered(reps)), reps, m)
  }

  lemma DisjointSurvive(lines: Lines, reps: seq<Replacement>)
    requires InFile(reps, |lines|) && Disjoint(reps)
    ensures AllSurvive(lines, reps)
  {
    EveryOtherLineSurvives(lines, reps);
    hide Spliced, Ordered, Lost;
    forall m | 0 <= m < |reps| ensures Stands(Spliced(lines, Ordered(reps)), reps, m) {
      SpanStartsBoundary(reps, m);
      AtIsOnly(reps, m);
      assert Survives(lines, reps, Spliced(lines, Ordered(reps)), reps[m].span.start);
    }
  }

  lemma SpanStartsBoundary(reps: seq<Replacement>, m: nat)
    requires Disjoint(reps) && m < |reps|
    requires forall k :: 0 <= k < |reps| ==> reps[k].span.start <= reps[k].span.end
    ensures Boundary(reps, reps[m].span.start)
  {
    forall k | 0 <= k < |reps| ensures !(reps[k].span.start < reps[m].span.start <= reps[k].span.end) {
      if k < m {
        assert Apart(reps[k].span, reps[m].span);
      } else if m < k {
        assert Apart(reps[m].span, reps[k].span);
      }
    }
  }

  lemma SpliceHolds(lines: Lines, r: Replacement, text: string)
    ensures text in Splice(lines, r) ==> text in lines || text == r.text
  {
  }

  /** Before its own edit a text is not in the file, and once gone it does not come back. */
  lemma {:induction false} NotWritten(lines: Lines, reps: seq<Replacement>, i: nat, from: nat, n: nat)
    requires i < |reps| && Marked(lines, reps) && from <= n <= |reps|
    requires reps[i].text !in Spliced(lines, reps[..from])
    requires n <= i || i < from
    ensures reps[i].text !in Spliced(lines, reps[..n])
  {
    if from < n {
      NotWritten(lines, reps, i, from, n - 1);
      assert reps[..n][..n - 1] == reps[..n - 1];
      SpliceHolds(Spliced(lines, reps[..n - 1]), reps[n - 1], reps[i].text);
      hide Splice;
    }
  }

  /** The file always reaches past the start of the next edit. */
  lemma {:induction false} FileReaches(lines: Lines, reps: seq<Replacement>, n: nat)
    requires InFile(reps, |lines|) && Descending(reps) && n <= |reps|
    ensures |Spliced(lines, reps[..n])| >= if n == 0 then |lines| else reps[n - 1].span.start + 1
  {
    if n == 0 {
      assert reps[..0] == [];
    } else {
      FileReaches(lines, reps, n - 1);
      assert reps[..n][..n - 1] == reps[..n - 1];
    }
  }

  predicate OnlyAt(file: Lines, text: string, p: nat)
  {
    forall q :: 0 <= q < |file| && file[q] == text ==> q == p
  }

  lemma SpliceTracks(file: Lines, r: Replacement, text: string, p: nat)
    requires r.text != text && OnlyAt(file, text, p) && r.span.start <= r.span.end
    ensures r.span.start <= p <= r.span.end ==> text !in Splice(file, r)
    ensures r.span.start == r.span.end ==> OnlyAt(Splice(file, r), text, p)
  {
  }

  lemma SpliceWrites(file: Lines, r: Replacement)
    requires r.text !in file && r.span.start <= |file|
    ensures OnlyAt(Splice(file, r), r.text, r.span.start)
  {
  }

  /** From edit i to a later edit j whose span meets span i, every edit covers the start of span i or moves nothing;
      and j covers it. */
  lemma MeetingSpans(reps: seq<Replacement>, i: nat, j: nat)
    requires AtMostTouch(reps) && Descending(reps) && i < j < |reps|
    requires forall k :: 0 <= k < |reps| ==> reps[k].span.start <= reps[k].span.end
    requires !Apart(reps[i].span, reps[j].span)
    ensures var p := reps[i].span.start;
            && reps[j].span.start <= p <= reps[j].span.end
            && forall n :: i < n < j ==>
                 reps[n].span.start <= p <= reps[n].span.end || reps[n].span.start == reps[n].span.end
  {
    var p := reps[i].span.start;
    assert Touch(reps[i].span, reps[j].span);
    forall n | i < n < j ensures reps[n].span.start <= p <= reps[n].span.end || reps[n].span.start == reps[n].span.end {
      assert Touch(reps[n].span, reps[j].span);
    }
  }

  lemma {:induction false} TextStays(lines: Lines, reps: seq<Replacement>, i: nat, j: nat, n: nat)
    requires InFile(reps, |lines|) && AtMostTouch(reps) && Descending(reps) && Marked(lines, reps)
    requires i < n <= j < |reps| && !Apart(reps[i].span, reps[j].span)
    ensures OnlyAt(Spliced(lines, reps[..n]), reps[i].text, reps[i].span.start)
  {
    hide Splice;
    var before := Spliced(lines, reps[..n - 1]);
    assert reps[..n][..n - 1] == reps[..n - 1];
    if n == i + 1 {
      assert reps[..0] == [];
      NotWritten(lines, reps, i, 0, i);
      FileReaches(lines, reps, i);
      SpliceWrites(before, reps[i]);
    } else {
      TextStays(lines, reps, i, j, n - 1);
      MeetingSpans(reps, i, j);
      SpliceTracks(before, reps[n - 1], reps[i].text, reps[i].span.start);
    }
  }

  /** Of two spans that meet, the one edited first is lost. */
  lemma MeetingLoses(lines: Lines, reps: seq<Replacement>, i: nat, j: nat)
    requires InFile(reps, |lines|) && AtMostTouch(reps) && Descending(reps) && Marked(lines, reps)
    requires i < j < |reps| && !Apart(reps[i].span, reps[j].span)
    ensures reps[i].text !in Spliced(lines, reps)
  {
    TextStays(lines, reps, i, j, j);
    MeetingSpans(reps, i, j);
    var before := Spliced(lines, reps[..j]);
    assert reps[..j + 1][..j] == reps[..j];
    SpliceTracks(before, reps[j], reps[i].text, reps[i].span.start);
    hide Splice;
    NotWritten(lines, reps, i, j + 1, |reps|);
    assert reps[..|reps|] == reps;
  }

  /** The order of the edits keeps what is asked of the spans and texts. */
  lemma PermutedMarks(lines: Lines, a: seq<Replacement>, b: seq<Replacement>)
    requires multiset(a) == multiset(b) && Marked(lines, a) && AtMostTouch(a)
    ensures Marked(lines, b) && AtMostTouch(b)
  {
    forall k | 0 <= k < |b| ensures b[k] in a {
      assert b[k] in multiset(b);
    }
    forall j, k | 0 <= j < k < |b| ensures b[j].text != b[k].text && Touch(b[j].span, b[k].span) {
      if b[j] == b[k] {
        assert b == b[..j] + [b[j]] + b[j + 1..k] + [b[k]] + b[k + 1..];
        assert multiset(b)[b[k]] >= 2;
        MarkedOnce(lines, a, b[k]);
      } else {
        var p :| 0 <= p < |a| && a[p] == b[j];
        var q :| 0 <= q < |a| && a[q] == b[k];
        assert p != q;
      }
    }
  }

  lemma {:induction false} MarkedOnce(lines: Lines, a: seq<Replacement>, r: Replacement)
    requires Marked(lines, a)
    ensures multiset(a)[r] <= 1
  {
    if a != [] {
      MarkedOnce(lines, a[1..], r);
      assert a == [a[0]] + a[1..];
      if a[0] == r {
        assert forall k :: 0 <= k < |a[1..]| ==> a[1..][k].text != r.text;
      }
    }
  }

  /** For spans that at most touch, when texts can be told apart: every update is where it should be if and only if
      the spans are disjoint; otherwise some update's text is nowhere in the file. */
  lemma UpdatesSurviveExactly(lines: Lines, reps: seq<Replacement>)
    requires InFile(reps, |lines|) && AtMostTouch(reps) && Marked(lines, reps)
    ensures AllSurvive(lines, reps) <==> Disjoint(reps)
    ensures !Disjoint(reps) ==> exists m :: 0 <= m < |reps| && reps[m].text !in Spliced(lines, Ordered(reps))
  {
    if Disjoint(reps) {
      DisjointSurvive(lines, reps);
    } else {
      var m := SomeLost(lines, reps);
      assert !Stands(Spliced(lines, Ordered(reps)), reps, m);
    }
  }

  lemma SomeLost(lines: Lines, reps: seq<Replacement>) returns (m: nat)
    requires InFile(reps, |lines|) && AtMostTouch(reps) && Marked(lines, reps) && !Disjoint(reps)
    ensures m < |reps| && reps[m].text !in Spliced(lines, Ordered(reps))
  {
    hide Spliced;
    var o := Ordered(reps);
    OrderedOrders(reps);
    PermutedMarks(lines, reps, o);
    OrderedMeets(reps, |lines|);
    var i, j :| 0 <= i < j < |o| && !Apart(o[i].span, o[j].span);
    MeetingLoses(lines, o, i, j);
    m :| 0 <= m < |reps| && reps[m] == o[i];
  }

  lemma OrderedMeets(reps: seq<Replacement>, n: nat)
    requires InFile(reps, n)
    ensures InFile(Ordered(reps), n)
    ensures Disjoint(Ordered(reps)) ==> Disjoint(reps)
    ensures forall k :: 0 <= k < |Ordered(reps)| ==> Ordered(reps)[k] in reps
  {
    var o := Ordered(reps);
    OrderedOrders(reps);
    forall k | 0 <= k < |o| ensures o[k] in reps {
      assert o[k] in multiset(o);
    }
    if Disjoint(o) {
      PermutedSpans(o, reps, n);
    }
  }

  function Spans(reps: seq<Replacement>): (spans: seq<Span>)
    ensures |spans| == |reps|
  {
    seq(|reps|, k requires 0 <= k < |reps| => reps[k].span)
  }

  function Mark(n: nat): (s: string)
    ensures |s| == n + 1
  {
    seq(n + 1, k => 'x')
  }

  function WithMarks(spans: seq<Span>): seq<Replacement>
  {
    seq(|spans|, k requires 0 <= k < |spans| => Replacement(spans[k], Mark(k)))
  }

  /** Over all files of a length and all texts: spans that at most touch let every update survive, always, if and only
      if they are disjoint, which can be seen before any edit. */
  lemma SpansAreSafeExactly(reps: seq<Replacement>, n: nat)
    requires InFile(reps, n) && AtMostTouch(reps)
    ensures (forall lines: Lines, r: seq<Replacement> :: |lines| == n && Spans(r) == Spans(reps) ==> AllSurvive(lines, r)) <==> Disjoint(reps)
  {
    if Disjoint(reps) {
      forall lines: Lines, r: seq<Replacement> | |lines| == n && Spans(r) == Spans(reps) ensures AllSurvive(lines, r) {
        assert forall k :: 0 <= k < |reps| ==> r[k].span == Spans(r)[k] == reps[k].span;
        DisjointSurvive(lines, r);
      }
    } else {
      var lines: Lines := seq(n, k => "");
      var r := WithMarks(Spans(reps));
      assert forall k :: 0 <= k < |reps| ==> r[k].span == reps[k].span && r[k].text == Mark(k);
      assert Spans(r) == Spans(reps);
      MarksTellApart(lines, r);
      assert !Disjoint(r);
      UpdatesSurviveExactly(lines, r);
      assert !AllSurvive(lines, r);
    }
  }

  lemma MarksTellApart(lines: Lines, reps: seq<Replacement>)
    requires forall k :: 0 <= k < |reps| ==> reps[k].text == Mark(k)
    requires forall k :: 0 <= k < |lines| ==> lines[k] == ""
    ensures Marked(lines, reps)
  {
    forall j, k | 0 <= j < k < |reps| ensures reps[j].text != reps[k].text {
      assert |reps[j].text| == j + 1 && |reps[k].text| == k + 1;
    }
    forall k | 0 <= k < |reps| ensures reps[k].text !in lines {
      assert |reps[k].text| == k + 1;
    }
  }

  // ---------------------------------------------------------------- assignments nobody updates

  /** `A = 1; B = 2` on one line: updating A alone takes the line, and B with it. */
  lemma SoleUpdateTakesLine(lines: Lines, line: nat, a: string)
    requires line < |lines|
    ensures Spliced(lines, Ordered([Replacement(Span(line, line), a)])) == lines[line := a]
  {
    var r := Replacement(Span(line, line), a);
    assert [r][..0] == [];
    assert Ordered([r]) == Insert(r, []) == [r];
    assert Spliced(lines, [r]) == Splice(lines, r);
    EditLine(lines, line, a);
  }

  /** The lines of a span, as they were, one after another. */
  predicate BlockAt(file: Lines, lines: Lines, u: Span, at: int)
    requires u.start <= u.end < |lines|
  {
    0 <= at && at + u.end + 1 - u.start <= |file| && file[at..at + u.end + 1 - u.start] == lines[u.start..u.end + 1]
  }

  ghost predicate Keeps(lines: Lines, reps: seq<Replacement>, u: Span)
    requires u.start <= u.end < |lines|
  {
    exists at :: BlockAt(Spliced(lines, Ordered(reps)), lines, u, at)
  }

  predicate ApartFromAll(u: Span, reps: seq<Replacement>)
  {
    forall k :: 0 <= k < |reps| ==> Apart(u, reps[k].span)
  }

  predicate TouchesAll(u: Span, reps: seq<Replacement>)
  {
    forall k :: 0 <= k < |reps| ==> Touch(u, reps[k].span)
  }

  /** An edit wholly above or wholly below a block leaves it whole. */
  lemma BlockMoves(file: Lines, lines: Lines, u: Span, at: int, r: Replacement)
    requires u.start <= u.end < |lines| && BlockAt(file, lines, u, at) && r.span.start <= r.span.end
    requires r.span.end < at || at + u.end - u.start < r.span.start
    ensures BlockAt(Splice(file, r), lines, u, if r.span.end < at then at - (r.span.end - r.span.start) else at)
  {
    if r.span.end < at {
      BlockBelow(file, at, u.end + 1 - u.start, r);
    } else {
      BlockAbove(file, at, u.end + 1 - u.start, r);
    }
    hide Splice;
  }

  lemma BlockBelow(file: Lines, at: int, n: nat, r: Replacement)
    requires r.span.start <= r.span.end < at && at + n <= |file|
    ensures var to := at - (r.span.end - r.span.start);
            0 <= to && to + n <= |Splice(file, r)| && Splice(file, r)[to..to + n] == file[at..at + n]
  {
    var s, e := r.span.start, r.span.end;
    SliceOfTail(file[..s] + [r.text], file[e + 1..], at - e - 1, n);
    assert file[e + 1..][at - e - 1..at - e - 1 + n] == file[at..at + n];
  }

  lemma BlockAbove(file: Lines, at: int, n: nat, r: Replacement)
    requires 0 <= at && at + n <= |file| && at + n <= r.span.start <= r.span.end
    ensures at + n <= |Splice(file, r)| && Splice(file, r)[at..at + n] == file[at..at + n]
  {
    var from := Least(r.span.start, |file|);
    var to := Least(r.span.end + 1, |file|);
    var rest := [r.text] + file[if to < from then from else to..];
    assert Splice(file, r) == file[..from] + rest;
    hide Splice;
    SliceOfHead(file[..from], rest, at, n);
    assert file[..from][at..at + n] == file[at..at + n];
  }

  lemma SliceOfTail(a: Lines, b: Lines, i: nat, n: nat)
    requires i + n <= |b|
    ensures (a + b)[|a| + i..|a| + i + n] == b[i..i + n]
  {
  }

  lemma SliceOfHead(a: Lines, b: Lines, i: nat, n: nat)
    requires i + n <= |a|
    ensures (a + b)[i..i + n] == a[i..i + n]
  {
  }

  /** Where the block is after the first n edits: where it was, or below an edit that has moved it. */
  predicate BlockAfter(lines: Lines, reps: seq<Replacement>, u: Span, n: nat, at: int)
    requires u.start <= u.end < |lines| && n <= |reps|
  {
    && BlockAt(Spliced(lines, reps[..n]), lines, u, at)
    && (at == u.start || exists i :: 0 <= i < n && MovedBy(reps[i], u, at))
  }

  predicate MovedBy(r: Replacement, u: Span, at: int)
  {
    r.span.start < r.span.end < u.start && r.span.start < at
  }

  lemma {:induction false} BlockSurvives(lines: Lines, reps: seq<Replacement>, u: Span, n: nat) returns (at: int)
    requires InFile(reps, |lines|) && AtMostTouch(reps) && Descending(reps) && ApartFromAll(u, reps)
    requires u.start <= u.end < |lines| && n <= |reps|
    ensures BlockAfter(lines, reps, u, n, at)
  {
    hide Splice, BlockAt;
    if n == 0 {
      at := u.start;
      StartsWhole(lines, u);
      assert reps[..0] == [];
    } else {
      var before := BlockSurvives(lines, reps, u, n - 1);
      var r := reps[n - 1];
      SplicedLast(lines, reps, n);
      hide Spliced;
      ClearOfBlock(lines, reps, u, n, before);
      BlockMoves(Spliced(lines, reps[..n - 1]), lines, u, before, r);
      at := if r.span.end < before then before - (r.span.end - r.span.start) else before;
      if r.span.end < before && r.span.start < r.span.end {
        assert MovedBy(r, u, at);
      }
    }
  }

  lemma StartsWhole(lines: Lines, u: Span)
    requires u.start <= u.end < |lines|
    ensures BlockAt(lines, lines, u, u.start)
  {
  }

  /** The next edit is wholly above the block, if its span is above the assignment, and wholly below it otherwise. */
  lemma ClearOfBlock(lines: Lines, reps: seq<Replacement>, u: Span, n: nat, at: int)
    requires InFile(reps, |lines|) && AtMostTouch(reps) && Descending(reps) && ApartFromAll(u, reps)
    requires u.start <= u.end < |lines| && 0 < n <= |reps|
    requires at == u.start || exists i :: 0 <= i < n - 1 && MovedBy(reps[i], u, at)
    ensures var s := reps[n - 1].span;
            if s.end < u.start then s.end < at else at == u.start && at + u.end - u.start < s.start
  {
    var s := reps[n - 1].span;
    assert Apart(u, s);
    if at != u.start {
      var i :| 0 <= i < n - 1 && MovedBy(reps[i], u, at);
      assert reps[i].span.start >= s.start;
      assert Touch(reps[i].span, s);
    }
  }

  /** A line that an edit covers is gone, if it can be told from the rest. */
  predicate LinesDiffer(lines: Lines)
  {
    forall j, k :: 0 <= j < k < |lines| ==> lines[j] != lines[k]
  }

  predicate Covers(s: Span, q: nat)
  {
    s.start <= q <= s.end
  }

  lemma SpliceTracksLine(file: Lines, r: Replacement, text: string, q: nat)
    requires r.text != text && OnlyAt(file, text, q) && r.span.start <= r.span.end
    ensures Covers(r.span, q) ==> text !in Splice(file, r)
    ensures r.span.start == r.span.end || q < r.span.start ==> OnlyAt(Splice(file, r), text, q)
  {
  }

  lemma {:induction false} LineStays(lines: Lines, reps: seq<Replacement>, q: nat, n: nat)
    requires InFile(reps, |lines|) && Marked(lines, reps) && LinesDiffer(lines) && q < |lines| && n <= |reps|
    requires forall i :: 0 <= i < n ==>
      Covers(reps[i].span, q) || reps[i].span.start == reps[i].span.end || q < reps[i].span.start
    ensures OnlyAt(Spliced(lines, reps[..n]), lines[q], q)
  {
    hide Splice;
    if n == 0 {
      assert reps[..0] == [];
    } else {
      LineStays(lines, reps, q, n - 1);
      SplicedLast(lines, reps, n);
      assert lines[q] in lines;
      SpliceTracksLine(Spliced(lines, reps[..n - 1]), reps[n - 1], lines[q], q);
    }
  }

  lemma {:induction false} LineGone(lines: Lines, reps: seq<Replacement>, text: string, from: nat, n: nat)
    requires Marked(lines, reps) && text in lines && from <= n <= |reps|
    requires text !in Spliced(lines, reps[..from])
    ensures text !in Spliced(lines, reps[..n])
  {
    if from < n {
      LineGone(lines, reps, text, from, n - 1);
      SplicedLast(lines, reps, n);
      SpliceHolds(Spliced(lines, reps[..n - 1]), reps[n - 1], text);
      hide Splice;
    }
  }

  /** A replaced span that meets an assignment takes the line they share. */
  lemma SharedLineGone(lines: Lines, reps: seq<Replacement>, u: Span, j: nat) returns (q: nat)
    requires InFile(reps, |lines|) && AtMostTouch(reps) && Descending(reps) && Marked(lines, reps) && LinesDiffer(lines)
    requires u.start <= u.end < |lines| && j < |reps| && Touch(u, reps[j].span) && !Apart(u, reps[j].span)
    ensures u.start <= q <= u.end && lines[q] !in Spliced(lines, reps)
  {
    hide Splice, Spliced, OnlyAt;
    q := SharedLine(lines, reps, u, j);
    hide AtMostTouch, Descending;
    LineStays(lines, reps, q, j);
    SplicedLast(lines, reps, j + 1);
    assert lines[q] in lines;
    SpliceTracksLine(Spliced(lines, reps[..j]), reps[j], lines[q], q);
    LineGone(lines, reps, lines[q], j + 1, |reps|);
    assert reps[..|reps|] == reps;
  }

  /** The line they share, which every edit before that one covers, or leaves where it is. */
  lemma SharedLine(lines: Lines, reps: seq<Replacement>, u: Span, j: nat) returns (q: nat)
    requires InFile(reps, |lines|) && AtMostTouch(reps) && Descending(reps)
    requires u.start <= u.end < |lines| && j < |reps| && Touch(u, reps[j].span) && !Apart(u, reps[j].span)
    ensures u.start <= q <= u.end && Covers(reps[j].span, q)
    ensures forall i :: 0 <= i < j ==>
      Covers(reps[i].span, q) || reps[i].span.start == reps[i].span.end || q < reps[i].span.start
  {
    var s := reps[j].span;
    q := if s.start == u.end then u.end else u.start;
    forall i | 0 <= i < j
      ensures Covers(reps[i].span, q) || reps[i].span.start == reps[i].span.end || q < reps[i].span.start
    {
      assert Touch(reps[i].span, s);
    }
  }

  lemma ApartKeeps(lines: Lines, reps: seq<Replacement>, u: Span)
    requires InFile(reps, |lines|) && AtMostTouch(reps) && u.start <= u.end < |lines| && ApartFromAll(u, reps)
    ensures Keeps(lines, reps, u)
  {
    hide Spliced, BlockAt;
    var o := Ordered(reps);
    OrderedSpans(reps, u, |lines|);
    var at := BlockSurvives(lines, o, u, |o|);
    assert o[..|o|] == o;
  }

  /** Being ordered changes nothing that is asked of the spans one by one, nor of two different ones. */
  lemma OrderedSpans(reps: seq<Replacement>, u: Span, n: nat)
    requires InFile(reps, n) && AtMostTouch(reps)
    ensures var o := Ordered(reps);
            && InFile(o, n) && AtMostTouch(o) && Descending(o)
            && (ApartFromAll(u, reps) <==> ApartFromAll(u, o))
            && (TouchesAll(u, reps) <==> TouchesAll(u, o))
  {
    var o := Ordered(reps);
    OrderedOrders(reps);
    forall k | 0 <= k < |o| ensures o[k] in reps {
      assert o[k] in multiset(o);
    }
    forall k | 0 <= k < |reps| ensures reps[k] in o {
      assert reps[k] in multiset(reps);
    }
    OrderedTouch(reps, o);
  }

  lemma OrderedTouch(a: seq<Replacement>, b: seq<Replacement>)
    requires multiset(a) == multiset(b) && AtMostTouch(a)
    ensures AtMostTouch(b)
  {
    forall k | 0 <= k < |b| ensures b[k] in a {
      assert b[k] in multiset(b);
    }
    forall j, k | 0 <= j < k < |b| ensures Touch(b[j].span, b[k].span) {
      if b[j] == b[k] {
        assert b == b[..j] + [b[j]] + b[j + 1..k] + [b[k]] + b[k + 1..];
        assert multiset(b)[b[k]] >= 2;
        TwiceTouches(a, b[k]);
      } else {
        var p :| 0 <= p < |a| && a[p] == b[j];
        var q :| 0 <= q < |a| && a[q] == b[k];
        assert p != q;
      }
    }
  }

  lemma {:induction false} TwiceTouches(a: seq<Replacement>, r: Replacement)
    requires AtMostTouch(a) && multiset(a)[r] >= 2
    ensures Touch(r.span, r.span)
  {
    assert a == [a[0]] + a[1..];
    if a[0] == r {
      assert multiset(a[1..])[r] >= 1;
      var k :| 0 <= k < |a[1..]| && a[1..][k] == r;
      assert Touch(a[0].span, a[k + 1].span);
    } else {
      TwiceTouches(a[1..], r);
    }
  }

  /** An assignment that meets a replaced span loses a line, when lines and texts can be told apart. */
  lemma MeetingTakesLine(lines: Lines, reps: seq<Replacement>, u: Span)
    requires InFile(reps, |lines|) && AtMostTouch(reps) && Marked(lines, reps) && LinesDiffer(lines)
    requires u.start <= u.end < |lines| && TouchesAll(u, reps) && !ApartFromAll(u, reps)
    ensures !Keeps(lines, reps, u)
  {
    hide Spliced, Splice;
    var o := Ordered(reps);
    OrderedSpans(reps, u, |lines|);
    OrderedOrders(reps);
    PermutedMarks(lines, reps, o);
    var j :| 0 <= j < |o| && !Apart(u, o[j].span);
    var q := SharedLineGone(lines, o, u, j);
    forall at ensures !BlockAt(Spliced(lines, o), lines, u, at) {
      if BlockAt(Spliced(lines, o), lines, u, at) {
        BlockHasLine(Spliced(lines, o), lines, u, at, q);
      }
    }
  }

  lemma BlockHasLine(file: Lines, lines: Lines, u: Span, at: int, q: nat)
    requires u.start <= q <= u.end < |lines| && BlockAt(file, lines, u, at)
    ensures lines[q] in file
  {
    var n := u.end + 1 - u.start;
    assert file[at..at + n][q - u.start] == lines[u.start..u.end + 1][q - u.start];
    assert file[at + (q - u.start)] == lines[q];
  }

  /** Lines and texts that can all be told apart. */
  function Numbered(n: nat): (lines: Lines)
    ensures |lines| == n
  {
    seq(n, k requires 0 <= k < n => Mark(k))
  }

  function MarkedFrom(spans: seq<Span>, n: nat): seq<Replacement>
  {
    seq(|spans|, k requires 0 <= k < |spans| => Replacement(spans[k], Mark(n + k)))
  }

  lemma NumberedApart(spans: seq<Span>, n: nat)
    ensures LinesDiffer(Numbered(n)) && Marked(Numbered(n), MarkedFrom(spans, n))
  {
    var lines, reps := Numbered(n), MarkedFrom(spans, n);
    assert forall k :: 0 <= k < n ==> lines[k] == Mark(k);
    assert forall k :: 0 <= k < |reps| ==> reps[k].text == Mark(n + k);
    forall j: nat, k: nat | j < k ensures Mark(j) != Mark(k) {
      assert |Mark(j)| == j + 1 && |Mark(k)| == k + 1;
    }
  }

  /** An assignment that is not updated, among spans that at most touch: it keeps its lines in every file and with all
      texts if and only if its span is apart from every replaced one. */
  lemma BystanderKeptExactly(reps: seq<Replacement>, u: Span, n: nat)
    requires InFile(reps, n) && AtMostTouch(reps) && u.start <= u.end < n && TouchesAll(u, reps)
    ensures (forall lines: Lines, r: seq<Replacement> :: |lines| == n && Spans(r) == Spans(reps) ==> Keeps(lines, r, u))
       <==> ApartFromAll(u, reps)
  {
    hide Keeps;
    if ApartFromAll(u, reps) {
      forall lines: Lines, r: seq<Replacement> | |lines| == n && Spans(r) == Spans(reps) ensures Keeps(lines, r, u) {
        SameSpansAsked(reps, r, u, n);
        ApartKeeps(lines, r, u);
      }
    } else {
      var lines, r := Numbered(n), MarkedFrom(Spans(reps), n);
      NumberedApart(Spans(reps), n);
      assert Spans(r) == Spans(reps);
      SameSpansAsked(reps, r, u, n);
      MeetingTakesLine(lines, r, u);
      assert !Keeps(lines, r, u);
    }
  }

  lemma SameSpansAsked(a: seq<Replacement>, b: seq<Replacement>, u: Span, n: nat)
    requires Spans(a) == Spans(b)
    ensures InFile(a, n) <==> InFile(b, n)
    ensures AtMostTouch(a) <==> AtMostTouch(b)
    ensures ApartFromAll(u, a) <==> ApartFromAll(u, b)
    ensures TouchesAll(u, a) <==> TouchesAll(u, b)
  {
    assert forall k :: 0 <= k < |a| ==> a[k].span == Spans(a)[k] == b[k].span;
  }

  // ---------------------------------------------------------------- the update

  function Missing(updates: seq<Update>, assignments: map<string, Span>): seq<string>
  {
    if updates == [] then []
    else (if updates[0].key in assignments then [] else [updates[0].key]) + Missing(updates[1..], assignments)
  }

  lemma {:induction false} MissingIsUnknown(updates: seq<Update>, assignments: map<string, Span>)
    ensures Missing(updates, assignments) == [] <==> forall u :: u in updates ==> u.key in assignments
    ensures forall k :: k in Missing(updates, assignments) <==> k !in assignments && exists u :: u in updates && u.key == k
  {
    if updates != [] {
      MissingIsUnknown(updates[1..], assignments);
      assert updates == [updates[0]] + updates[1..];
      var rest := Missing(updates[1..], assignments);
      forall k ensures k in Missing(updates, assignments) <==> k !in assignments && exists u :: u in updates && u.key == k {
        if k !in assignments && k == updates[0].key {
          assert updates[0] in updates;
        }
        assert k in rest ==> exists u :: u in updates[1..] && u.key == k;
        if u :| u in updates && u.key == k {
          assert u == updates[0] || u in updates[1..];
        }
      }
    }
  }

  function Replacements(updates: seq<Update>, assignments: map<string, Span>): seq<Replacement>
    requires forall u :: u in updates ==> u.key in assignments
  {
    seq(|updates|, k requires 0 <= k < |updates| => Replacement(assignments[updates[k].key], updates[k].text))
  }

  lemma SplicedNone(lines: Lines)
    ensures Spliced(lines, []) == lines
  {
  }

  lemma NothingReplaced(lines: Lines, assignments: map<string, Span>)
    ensures Spliced(lines, Ordered(Replacements([], assignments))) == lines
  {
  }

  class ConfigFile {
    var lines: Lines

    constructor (text: Lines)
      ensures lines == text
    {
      lines := text;
    }

    /** `assignments` is where the parser found each editable name; an update carries its rendered assignment. */
    method Apply(updates: seq<Update>, assignments: map<string, Span>) returns (result: Result)
      modifies this
      ensures result == if Missing(updates, assignments) == [] then Done else UnknownKeys(Missing(updates, assignments))
      ensures result.UnknownKeys? || updates == [] ==> lines == old(lines)
      ensures result.Done? ==>
                && (forall u :: u in updates ==> u.key in assignments)
                && var reps := Replacements(updates, assignments);
                   && lines == Spliced(old(lines), Ordered(reps))
                   && (InFile(reps, |old(lines)|) && Disjoint(reps) ==> lines == Substitute(old(lines), reps, 0))
    {
      MissingIsUnknown(updates, assignments);
      var missing := Missing(updates, assignments);
      if missing != [] {
        return UnknownKeys(missing);
      }
      var reps := Replacements(updates, assignments);
      hide InFile, Disjoint, Substitute, Missing, Replacements, Spliced, Ordered;
      SpliceAll(Ordered(reps));
      if InFile(reps, |old(lines)|) && Disjoint(reps) {
        InPlaceIsSimultaneous(old(lines), reps);
      }
      if updates == [] {
        NothingReplaced(old(lines), assignments);
      }
      result := Done;
    }

    /** Each replacement in turn, in place. */
    method SpliceAll(ordered: seq<Replacement>)
      modifies this
      ensures lines == Spliced(old(lines), ordered)
    {
      hide Splice, Spliced;
      var n := 0;
      SplicedNone(lines);
      assert ordered[..0] == [];
      while n < |ordered|
        invariant 0 <= n <= |ordered|
        invariant lines == Spliced(old(lines), ordered[..n])
      {
        lines := Splice(lines, ordered[n]);
        n := n + 1;
        SplicedLast(old(lines), ordered, n);
      }
      assert ordered[..|ordered|] == ordered;
    }
  }
}
