/** Properties of the G-code interpreter model (gcode_spec.dfy) that relate several steps or a
    whole run: the line count, target resolution and unit conversion, the bounding box as the
    hull of the emitted segment ends, the sweep direction of arcs, and the statistics. */
module GcodeProperties {
  import opened Js
  import opened Constants
  import opened GcodeSpec

  // ---------------------------------------------------------------- lines

  /** `lineCount` is the number of newline-separated pieces of the text: one more than the
      number of newlines, blank and comment lines included. */
  lemma ParseLineCount(lib: MathLib, text: string, option: Option<int>)
    ensures ParseSpec(lib, text, option).stats.lineCount == Count(text, '\n') + 1
  {
    SplitPieces(text, '\n');
  }

  /** A line that has no `;` and is already trimmed is tokenised whole: text in parentheses after
      the first character is not a comment and its words are read. */
  lemma ParenthesesAreNotCommentsMidLine(line: string)
    requires line != [] && Trim(line) == line && ';' !in line && !StartsWith(line, '(')
    ensures LineCommands(line) == Some(CommandMap(Matches(line)))
  {
    assert StripComment(line) == line;
  }

  // ---------------------------------------------------------------- target resolution

  /** In absolute mode a written axis does not depend on where the tool is: from any other
      position the same words give the same value on that axis. */
  lemma AbsoluteIgnoresPosition(st: ParserState, p: Point3D, cmds: Commands)
    requires st.isAbsolute
    ensures var a, b := TargetOf(st, cmds), TargetOf(MoveTo(st, p), cmds);
      && (HasNumber(cmds, 'X') ==> a.x == b.x)
      && (HasNumber(cmds, 'Y') ==> a.y == b.y)
      && (HasNumber(cmds, 'Z') ==> a.z == b.z)
  {
  }

  /** In metric mode a line without axis words, or an incremental move by zero, stays where the
      tool is. */
  lemma MetricStaysPut(st: ParserState)
    requires st.isMetric
    ensures TargetOf(st, map[]) == Position(st)
    ensures TargetOf(st.(isAbsolute := false), AxisWords(Point3D(0.0, 0.0, 0.0))) == Position(st)
  {
  }

  /** The axis words of a move to `p`. */
  function AxisWords(p: Point3D): (cmds: Commands)
    ensures HasNumber(cmds, 'X') && HasNumber(cmds, 'Y') && HasNumber(cmds, 'Z')
    ensures cmds['X'].val == p.x && cmds['Y'].val == p.y && cmds['Z'].val == p.z
  {
    map['X' := Num(p.x), 'Y' := Num(p.y), 'Z' := Num(p.z)]
  }

  /** A move in inches of `v` on every axis resolves, in absolute mode, to the same millimetre
      position as the metric move of `25.4 * v`. */
  lemma InchRoundTrip(st: ParserState, v: Point3D)
    requires st.isAbsolute && !st.isMetric
    ensures TargetOf(st, AxisWords(v))
         == TargetOf(st.(isMetric := true), AxisWords(Point3D(v.x * 25.4, v.y * 25.4, v.z * 25.4)))
  {
  }

  /** The conversion is applied to the resolved value, so in inch mode an axis that is not
      written is multiplied by 25.4 as well: the current position (already in millimetres) is
      scaled again. A G20 `G0 X1` from (0, 10, 0) lands at (25.4, 254, 0). */
  lemma InchRescalesCarriedAxes(st: ParserState, cmds: Commands)
    requires !st.isMetric && !HasNumber(cmds, 'Y')
    ensures TargetOf(st, cmds).y == st.y * 25.4
    ensures st.y != 0.0 ==> TargetOf(st, cmds).y != st.y
  {
  }

  lemma InchCarryExample()
    ensures var st := InitialState.(y := 10.0, isMetric := false);
      TargetOf(st, map['X' := Num(1.0)]) == Point3D(25.4, 254.0, 0.0)
  {
  }

  /** In metric mode an incremental move by `d` reaches the same target as the absolute move to
      the current position plus `d`. */
  lemma IncrementalIsRelativeAbsolute(st: ParserState, d: Point3D)
    requires st.isMetric
    ensures TargetOf(st.(isAbsolute := false), AxisWords(d))
         == TargetOf(st.(isAbsolute := true), AxisWords(Point3D(st.x + d.x, st.y + d.y, st.z + d.z)))
  {
  }

  // ---------------------------------------------------------------- one line, in order

  /** `G1 X10 F300` from the initial state: the move is cut at the feed in force before the line
      (600), with spindle value 0 because the spindle is off; the feed becomes 300 afterwards. */
  lemma FeedAppliesAfterMotion(lib: MathLib)
    ensures var r := ExecuteStep(lib, Start, map['G' := Num(1.0), 'X' := Num(10.0), 'F' := Num(300.0)], DefaultArcSegments);
      && r.segments == [GCodeSegment(Linear, Point3D(0.0, 0.0, 0.0), Point3D(10.0, 0.0, 0.0),
                                     Some(Num(DefaultFeedRate)), Some(Num(0.0)), None, None)]
      && r.state.feedRate == Num(300.0)
      && Position(r.state) == Point3D(10.0, 0.0, 0.0)
  {
  }

  /** `M3 G1 X10` from a state with the spindle off: the move records spindle 0, and the spindle
      is on only afterwards. */
  lemma SpindleAppliesAfterMotion(lib: MathLib, m: Machine)
    requires !m.state.spindleOn
    ensures var r := ExecuteStep(lib, m, map['G' := Num(1.0), 'M' := Num(3.0), 'X' := Num(10.0)], DefaultArcSegments);
      && r.segments[|r.segments| - 1].spindle == Some(Num(0.0))
      && r.state.spindleOn
  {
  }

  // ---------------------------------------------------------------- bounding box

  /** The box is exactly the hull of the segment ends: widening the empty box by each `to`. */
  predicate Hull(m: Machine) {
    m.bbox == WidenAll(EmptyBox, Tos(m.segments))
  }

  lemma {:induction false} WidenAllAppend(b: BoundingBox, ps: seq<Point3D>, qs: seq<Point3D>)
    ensures WidenAll(b, ps + qs) == WidenAll(WidenAll(b, ps), qs)
  {
    if qs == [] {
      assert ps + qs == ps;
    } else {
      var init := qs[..|qs| - 1];
      WidenAllAppend(b, ps, init);
      assert (ps + qs)[..|ps + qs| - 1] == ps + init;
    }
  }

  lemma TosAppend(a: seq<GCodeSegment>, b: seq<GCodeSegment>)
    ensures Tos(a + b) == Tos(a) + Tos(b)
  {
    assert forall i :: 0 <= i < |a + b| ==> Tos(a + b)[i] == (Tos(a) + Tos(b))[i];
  }

  /** A machine whose new segments extend the old ones and whose box is the old box widened by
      the new ends keeps the hull property. */
  lemma ExtendHull(m: Machine, r: Machine)
    requires Hull(m)
    requires |m.segments| <= |r.segments| && r.segments[..|m.segments|] == m.segments
    requires r.bbox == WidenAll(m.bbox, Tos(r.segments[|m.segments|..]))
    ensures Hull(r)
  {
    var tail := r.segments[|m.segments|..];
    assert r.segments == m.segments + tail;
    TosAppend(m.segments, tail);
    WidenAllAppend(EmptyBox, Tos(m.segments), Tos(tail));
  }

  /** Every G word widens the box by exactly the ends of the segments it appends. */
  lemma GStepWidensByEnds(lib: MathLib, m: Machine, code: JsNum, cmds: Commands, n: int)
    requires n != 0
    ensures var r := GStep(lib, m, code, cmds, n);
      && |m.segments| <= |r.segments| && r.segments[..|m.segments|] == m.segments
      && r.bbox == WidenAll(m.bbox, Tos(r.segments[|m.segments|..]))
  {
    var r := GStep(lib, m, code, cmds, n);
    GStepShape(lib, m, code, cmds, n);
    if code == Num(0.0) || code == Num(1.0) {
      assert r.segments[|m.segments|..] == [r.segments[|m.segments|]];
      assert Tos(r.segments[|m.segments|..]) == [TargetOf(m.state, cmds)];
    } else if code == Num(2.0) {
      ArcStepShape(lib, m, cmds, true, n);
    } else if code == Num(3.0) {
      ArcStepShape(lib, m, cmds, false, n);
    } else {
      assert r.segments[|m.segments|..] == [];
    }
  }

  lemma LineStepHull(lib: MathLib, m: Machine, line: string, n: int)
    requires n != 0 && Hull(m)
    ensures Hull(LineStep(lib, m, line, n))
  {
    if LineCommands(line).Some? {
      var cmds := LineCommands(line).value;
      if 'G' in cmds {
        GStepWidensByEnds(lib, m, cmds['G'], cmds, n);
        ExtendHull(m, GStep(lib, m, cmds['G'], cmds, n));
      }
    }
  }

  lemma {:induction false} RunLinesHull(lib: MathLib, m: Machine, lines: seq<string>, n: int)
    requires n != 0 && Hull(m)
    ensures Hull(RunLines(lib, m, lines, n))
  {
    if lines != [] {
      RunLinesHull(lib, m, lines[..|lines| - 1], n);
      LineStepHull(lib, RunLines(lib, m, lines[..|lines| - 1], n), Trim(lines[|lines| - 1]), n);
    }
  }

  /** The box of a parse is the hull of the `to` points of its segments (never the first `from`):
      it holds every segment end, and it is still the infinite start box when nothing is emitted. */
  lemma ParseBoxIsHull(lib: MathLib, text: string, option: Option<int>)
    ensures var r := ParseSpec(lib, text, option);
      && r.bbox == WidenAll(EmptyBox, Tos(r.segments))
      && (forall k :: 0 <= k < |r.segments| ==> Contains(r.bbox, r.segments[k].to))
      && (r.segments == [] ==> r.bbox == EmptyBox)
  {
    RunLinesHull(lib, Start, Split(text, '\n'), ArcSegmentsOf(option));
  }

  /** `a` is a prefix of `b`. */
  predicate IsPrefix(a: seq<GCodeSegment>, b: seq<GCodeSegment>) {
    |a| <= |b| && b[..|a|] == a
  }

  lemma PrefixTransitive(a: seq<GCodeSegment>, b: seq<GCodeSegment>, c: seq<GCodeSegment>)
    requires IsPrefix(a, b) && IsPrefix(b, c)
    ensures IsPrefix(a, c)
  {
    assert c[..|a|] == c[..|b|][..|a|];
  }

  /** A line never shrinks the box and never removes or rewrites an emitted segment. */
  lemma LineStepMonotone(lib: MathLib, m: Machine, line: string, n: int)
    requires n != 0
    ensures var r := LineStep(lib, m, line, n);
      Widens(m.bbox, r.bbox) && IsPrefix(m.segments, r.segments)
  {
    if LineCommands(line).Some? {
      var cmds := LineCommands(line).value;
      if 'G' in cmds {
        GStepWidensByEnds(lib, m, cmds['G'], cmds, n);
      }
    }
  }

  /** Over a whole run, the segments emitted up to any line are a prefix of the final list. */
  lemma {:induction false} RunLinesPrefix(lib: MathLib, m: Machine, lines: seq<string>, i: int, n: int)
    requires n != 0 && 0 <= i <= |lines|
    ensures IsPrefix(RunLines(lib, m, lines[..i], n).segments, RunLines(lib, m, lines, n).segments)
  {
    if i < |lines| {
      var init := lines[..|lines| - 1];
      assert init[..i] == lines[..i];
      RunLinesPrefix(lib, m, init, i, n);
      var before := RunLines(lib, m, init, n);
      assert RunLines(lib, m, lines, n) == LineStep(lib, before, Trim(lines[|lines| - 1]), n);
      LineStepMonotone(lib, before, Trim(lines[|lines| - 1]), n);
      PrefixTransitive(RunLines(lib, m, lines[..i], n).segments, before.segments, RunLines(lib, m, lines, n).segments);
    } else {
      assert lines[..i] == lines;
    }
  }

  // ---------------------------------------------------------------- arcs

  /** With a positive segment count the angle step has the sign of the commanded direction, and
      all `n` steps together stay within one full turn. */
  lemma ArcStepDirection(startAngle: real, endAngle: real, clockwise: bool, n: int)
    requires n > 0 && InAtan2Range(startAngle) && InAtan2Range(endAngle)
    ensures var step := Sweep(startAngle, endAngle, clockwise) / (n as real);
      && (clockwise ==> step <= 0.0)
      && (!clockwise ==> 0.0 <= step)
      && step * (n as real) == Sweep(startAngle, endAngle, clockwise)
  {
    var a := Sweep(startAngle, endAngle, clockwise);
    DivMul(a, n as real);
    DivSign(a, n as real);
  }

  lemma DivSign(a: real, b: real)
    requires 0.0 < b
    ensures a <= 0.0 ==> a / b <= 0.0
    ensures 0.0 <= a ==> 0.0 <= a / b
  {
  }

  /** A full circle (target equal to the start, so equal angles) sweeps zero: every
      tessellation point has the same XY and the arc's chords all have zero horizontal length. */
  lemma FullCircleSweepsZero(lib: MathLib, center: Point3D, radius: real, angle: real,
                             clockwise: bool, n: int, endZ: real)
    requires n != 0
    ensures var pts := ArcPoints(lib, center, radius, angle, angle, clockwise, n, endZ);
      forall i :: 0 <= i < |pts| ==> pts[i].x == pts[0].x && pts[i].y == pts[0].y
  {
    ArcPointsShape(lib, center, radius, angle, angle, clockwise, n, endZ);
  }

  // ---------------------------------------------------------------- statistics

  function AddTotals(a: Totals, b: Totals): Totals {
    Totals(a.total + b.total, a.rapid + b.rapid, a.cut + b.cut, a.minutes + b.minutes)
  }

  /** The sums are additive over concatenation, so they do not depend on how the segment list
      is split into lines. */
  lemma {:induction false} AccumulateAppend(lib: MathLib, a: seq<GCodeSegment>, b: seq<GCodeSegment>)
    ensures Accumulate(lib, a + b) == AddTotals(Accumulate(lib, a), Accumulate(lib, b))
  {
    if b == [] {
      assert a + b == a;
    } else {
      var init := b[..|b| - 1];
      AccumulateAppend(lib, a, init);
      assert (a + b)[..|a + b| - 1] == a + init;
      assert (a + b)[|a + b| - 1] == b[|b| - 1];
    }
  }

  /** One segment on its own: its length goes to the rapid or the cut distance by its kind, and
      its time is the length over 6000 for a rapid and over the feed (600 when absent, zero or
      NaN) otherwise. */
  lemma AccumulateOne(lib: MathLib, s: GCodeSegment)
    ensures var t := Accumulate(lib, [s]);
      var d := SegmentLength(lib, s);
      && t.total == d
      && t.rapid == (if s.kind == Rapid then d else 0.0)
      && t.cut == (if s.kind == Rapid then 0.0 else d)
      && t.minutes == SegmentMinutes(lib, s)
  {
    assert [s][..0] == [];
  }

  /** Every segment's feed, as the statistics read it, is positive. */
  predicate PositiveFeeds(segs: seq<GCodeSegment>) {
    forall k :: 0 <= k < |segs| ==> segs[k].kind == Rapid || 0.0 < OrElse(segs[k].feed, DefaultFeedRate)
  }

  lemma {:induction false} MinutesNonNegative(lib: MathLib, segs: seq<GCodeSegment>)
    requires Sound(lib) && PositiveFeeds(segs)
    ensures 0.0 <= Accumulate(lib, segs).minutes
  {
    if segs != [] {
      var init := segs[..|segs| - 1];
      assert PositiveFeeds(init) by {
        forall k | 0 <= k < |init| ensures init[k] == segs[k] { }
      }
      MinutesNonNegative(lib, init);
      var s := segs[|segs| - 1];
      var d := SegmentLength(lib, s);
      assert 0.0 <= d;
      if s.kind != Rapid {
        DivSign(d, OrElse(s.feed, DefaultFeedRate));
      }
    }
  }

  /** The statistics of a parse: total = rapid + cut, all distances non-negative when the
      square root is sound, the estimated time is 60 times the minutes, and it is non-negative
      when every cutting feed is positive (a negative F word can make it negative). */
  lemma ParseStatistics(lib: MathLib, text: string, option: Option<int>)
    requires Sound(lib)
    ensures var r := ParseSpec(lib, text, option);
      && r.stats.totalDistance == r.stats.rapidDistance + r.stats.cutDistance
      && 0.0 <= r.stats.rapidDistance && 0.0 <= r.stats.cutDistance
      && r.stats.estimatedTime == Accumulate(lib, r.segments).minutes * 60.0
      && (PositiveFeeds(r.segments) ==> 0.0 <= r.stats.estimatedTime)
  {
    var r := ParseSpec(lib, text, option);
    if PositiveFeeds(r.segments) {
      MinutesNonNegative(lib, r.segments);
    }
  }
}
