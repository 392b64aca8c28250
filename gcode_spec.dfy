/** The G-code interpreter of lib/GcodeParser.ts as functions on values: the modal state, the
    per-line transition, arc tessellation, the bounding box and the statistics. The class
    `GCodeParser` (gcode_parser.dfy) runs the same steps imperatively and is proved equal to
    these functions; the properties of the interpreter are stated here. */
module GcodeSpec {
  import opened Js
  import opened Constants

  // ---------------------------------------------------------------- state

  /** The modal machine state. Coordinates are millimetres. */
  datatype ParserState = ParserState(
    x: real,
    y: real,
    z: real,
    feedRate: JsNum,
    spindleSpeed: JsNum,
    isAbsolute: bool,
    isMetric: bool,
    spindleOn: bool)

  /** What `resetState` installs: origin, feed 600, spindle 12000, absolute, metric, spindle off. */
  const InitialState: ParserState :=
    ParserState(0.0, 0.0, 0.0, Num(DefaultFeedRate), Num(DefaultSpindleSpeed), true, true, false)

  const EmptyBox: BoundingBox := BoundingBox(PosInf, NegInf, PosInf, NegInf, PosInf, NegInf)

  const ZeroStats: PathStatistics := PathStatistics(0.0, 0.0, 0.0, 0.0, 0)

  /** The command words of one line: upper-case letter to value. */
  type Commands = map<char, JsNum>

  /** Everything one line can change: modal state, emitted segments, bounding box. */
  datatype Machine = Machine(state: ParserState, segments: seq<GCodeSegment>, bbox: BoundingBox)

  const Start: Machine := Machine(InitialState, [], EmptyBox)

  /** `options.arcSegments || 60`; `None` stands for a missing option or NaN. */
  function ArcSegmentsOf(option: Option<int>): (n: int)
    ensures n != 0
    ensures option.Some? && option.value != 0 ==> n == option.value
    ensures option.None? || option.value == 0 ==> n == DefaultArcSegments
  {
    if option.Some? && option.value != 0 then option.value else DefaultArcSegments
  }

  // ---------------------------------------------------------------- one line's words

  /** Token `i` is the last one on the line with its (upper-cased) letter. */
  predicate IsLastOfLetter(ts: seq<Token>, i: int)
    requires 0 <= i < |ts|
  {
    forall j :: i < j < |ts| ==> AsciiUpper(ts[j].letter) != AsciiUpper(ts[i].letter)
  }

  /** The command map `extractCommands` fills: letters are upper-cased and a later word with the
      same letter overwrites an earlier one. */
  function CommandMap(ts: seq<Token>): Commands {
    if ts == [] then map[]
    else CommandMap(ts[..|ts| - 1])[AsciiUpper(ts[|ts| - 1].letter) := ParseFloat(ts[|ts| - 1].text)]
  }

  /** The letters of the map are exactly the (upper-cased) letters of the line's words. */
  lemma {:induction false} CommandMapKeys(ts: seq<Token>)
    ensures forall c :: c in CommandMap(ts) <==> exists i :: 0 <= i < |ts| && AsciiUpper(ts[i].letter) == c
  {
    if ts != [] {
      var init := ts[..|ts| - 1];
      CommandMapKeys(init);
      assert forall i :: 0 <= i < |init| ==> init[i] == ts[i];
      forall c | c in CommandMap(ts) ensures exists i :: 0 <= i < |ts| && AsciiUpper(ts[i].letter) == c {
        if c != AsciiUpper(ts[|ts| - 1].letter) {
          assert c in CommandMap(init);
          var i :| 0 <= i < |init| && AsciiUpper(init[i].letter) == c;
          assert AsciiUpper(ts[i].letter) == c;
        } else {
          assert AsciiUpper(ts[|ts| - 1].letter) == c;
        }
      }
      forall c | exists i :: 0 <= i < |ts| && AsciiUpper(ts[i].letter) == c ensures c in CommandMap(ts) {
        var i :| 0 <= i < |ts| && AsciiUpper(ts[i].letter) == c;
        if i < |ts| - 1 {
          assert AsciiUpper(init[i].letter) == c;
        }
      }
    }
  }

  /** Last write wins: a letter's value is that of its last word on the line. */
  lemma {:induction false} CommandMapLastWins(ts: seq<Token>, i: int)
    requires 0 <= i < |ts| && IsLastOfLetter(ts, i)
    ensures AsciiUpper(ts[i].letter) in CommandMap(ts)
    ensures CommandMap(ts)[AsciiUpper(ts[i].letter)] == ParseFloat(ts[i].text)
  {
    if i < |ts| - 1 {
      var init := ts[..|ts| - 1];
      assert init[i] == ts[i];
      assert IsLastOfLetter(init, i) by {
        forall j | i < j < |init| ensures AsciiUpper(init[j].letter) != AsciiUpper(init[i].letter) {
          assert init[j] == ts[j];
        }
      }
      CommandMapLastWins(init, i);
      assert AsciiUpper(ts[|ts| - 1].letter) != AsciiUpper(ts[i].letter);
    }
  }

  /** `commands.get(c)`. */
  function Get(cmds: Commands, c: char): Option<JsNum> {
    if c in cmds then Some(cmds[c]) else None
  }

  /** Word `c` is on the line with a numeric (non-NaN) value. */
  predicate HasNumber(cmds: Commands, c: char) {
    c in cmds && cmds[c].Num?
  }

  /** What `parseLine` tokenises for an already trimmed line, or `None` when it skips the line:
      empty lines, lines starting with `;` or `(`, and lines that are empty once a trailing
      `;` comment is cut off. A `(` later in the line is not special. */
  function LineCommands(line: string): (r: Option<Commands>)
    ensures line == [] || StartsWith(line, ';') || StartsWith(line, '(') ==> r.None?
    ensures r.Some? ==> r.value == CommandMap(Matches(Trim(StripComment(line))))
    ensures r.None? && line != [] && !StartsWith(line, ';') && !StartsWith(line, '(') ==>
      Trim(StripComment(line)) == []
  {
    if line == [] || StartsWith(line, ';') || StartsWith(line, '(') then None
    else
      var clean := Trim(StripComment(line));
      if clean == [] then None else Some(CommandMap(Matches(clean)))
  }

  // ---------------------------------------------------------------- target resolution

  /** One axis of `getNewPosition` before unit conversion: the word replaces (absolute) or is
      added to (incremental) the current value; an absent axis keeps it. */
  function ResolveAxis(st: ParserState, current: real, cmds: Commands, c: char): real {
    if HasNumber(cmds, c) then (if st.isAbsolute then cmds[c].val else current + cmds[c].val)
    else current
  }

  /** `getNewPosition`: each axis resolved, then all three (carried-over ones included) multiplied
      by 25.4 in inch mode. */
  function TargetOf(st: ParserState, cmds: Commands): Point3D {
    var x := ResolveAxis(st, st.x, cmds, 'X');
    var y := ResolveAxis(st, st.y, cmds, 'Y');
    var z := ResolveAxis(st, st.z, cmds, 'Z');
    if st.isMetric then Point3D(x, y, z) else Point3D(x * 25.4, y * 25.4, z * 25.4)
  }

  function MoveTo(st: ParserState, p: Point3D): ParserState {
    st.(x := p.x, y := p.y, z := p.z)
  }

  function Position(st: ParserState): Point3D {
    Point3D(st.x, st.y, st.z)
  }

  /** The spindle value a cutting segment records: the speed if the spindle is on, else 0. */
  function SpindleValue(st: ParserState): JsNum {
    if st.spindleOn then st.spindleSpeed else Num(0.0)
  }

  // ---------------------------------------------------------------- bounding box

  /** Box `b` contains point `p`. */
  predicate Contains(b: BoundingBox, p: Point3D) {
    && ExtLe(b.minX, Fin(p.x)) && ExtLe(Fin(p.x), b.maxX)
    && ExtLe(b.minY, Fin(p.y)) && ExtLe(Fin(p.y), b.maxY)
    && ExtLe(b.minZ, Fin(p.z)) && ExtLe(Fin(p.z), b.maxZ)
  }

  /** Box `b` is at least as wide as box `a` on every side. */
  predicate Widens(a: BoundingBox, b: BoundingBox) {
    && ExtLe(b.minX, a.minX) && ExtLe(a.maxX, b.maxX)
    && ExtLe(b.minY, a.minY) && ExtLe(a.maxY, b.maxY)
    && ExtLe(b.minZ, a.minZ) && ExtLe(a.maxZ, b.maxZ)
  }

  /** `updateBBox`: the box widened just enough to hold `p`. */
  function WidenBox(b: BoundingBox, p: Point3D): (r: BoundingBox)
    ensures Contains(r, p) && Widens(b, r)
    ensures r.minX in {b.minX, Fin(p.x)} && r.maxX in {b.maxX, Fin(p.x)}
    ensures r.minY in {b.minY, Fin(p.y)} && r.maxY in {b.maxY, Fin(p.y)}
    ensures r.minZ in {b.minZ, Fin(p.z)} && r.maxZ in {b.maxZ, Fin(p.z)}
  {
    BoundingBox(
      ExtMin(b.minX, p.x), ExtMax(b.maxX, p.x),
      ExtMin(b.minY, p.y), ExtMax(b.maxY, p.y),
      ExtMin(b.minZ, p.z), ExtMax(b.maxZ, p.z))
  }

  /** The box widened by each point in turn. */
  function WidenAll(b: BoundingBox, ps: seq<Point3D>): (r: BoundingBox)
    ensures Widens(b, r)
    ensures forall i :: 0 <= i < |ps| ==> Contains(r, ps[i])
  {
    if ps == [] then b
    else
      var r := WidenBox(WidenAll(b, ps[..|ps| - 1]), ps[|ps| - 1]);
      assert forall i :: 0 <= i < |ps| - 1 ==> ps[..|ps| - 1][i] == ps[i];
      WidensTransitive(b, WidenAll(b, ps[..|ps| - 1]), r);
      forall i | 0 <= i < |ps| - 1 ensures Contains(r, ps[i]) {
        WidensContains(WidenAll(b, ps[..|ps| - 1]), r, ps[i]);
      }
      r
  }

  lemma WidensTransitive(a: BoundingBox, b: BoundingBox, c: BoundingBox)
    requires Widens(a, b) && Widens(b, c)
    ensures Widens(a, c)
  {
  }

  lemma WidensContains(a: BoundingBox, b: BoundingBox, p: Point3D)
    requires Widens(a, b) && Contains(a, p)
    ensures Contains(b, p)
  {
  }

  /** The `to` points of a segment list, in order. */
  function Tos(segs: seq<GCodeSegment>): (ps: seq<Point3D>)
    ensures |ps| == |segs| && forall i :: 0 <= i < |segs| ==> ps[i] == segs[i].to
  {
    seq(|segs|, i requires 0 <= i < |segs| => segs[i].to)
  }

  // ---------------------------------------------------------------- G0 and G1

  /** `handleRapid`: one Rapid segment without feed or spindle to the target, which becomes the
      position; the box is widened by the target. */
  function RapidStep(m: Machine, cmds: Commands): (r: Machine)
    ensures r.segments == m.segments + [
      GCodeSegment(Rapid, Position(m.state), TargetOf(m.state, cmds), None, None, None, None)]
    ensures r.state == MoveTo(m.state, TargetOf(m.state, cmds))
    ensures r.bbox == WidenBox(m.bbox, TargetOf(m.state, cmds))
  {
    var target := TargetOf(m.state, cmds);
    Machine(
      MoveTo(m.state, target),
      m.segments + [GCodeSegment(Rapid, Position(m.state), target, None, None, None, None)],
      WidenBox(m.bbox, target))
  }

  /** `handleLinearMove`: one Linear segment carrying the current feed and spindle value. */
  function LinearStep(m: Machine, cmds: Commands): (r: Machine)
    ensures r.segments == m.segments + [
      GCodeSegment(Linear, Position(m.state), TargetOf(m.state, cmds),
                   Some(m.state.feedRate), Some(SpindleValue(m.state)), None, None)]
    ensures r.state == MoveTo(m.state, TargetOf(m.state, cmds))
    ensures r.bbox == WidenBox(m.bbox, TargetOf(m.state, cmds))
  {
    var target := TargetOf(m.state, cmds);
    Machine(
      MoveTo(m.state, target),
      m.segments + [GCodeSegment(Linear, Position(m.state), target,
                                 Some(m.state.feedRate), Some(SpindleValue(m.state)), None, None)],
      WidenBox(m.bbox, target))
  }

  // ---------------------------------------------------------------- arcs

  predicate InAtan2Range(a: real) {
    -PI < a <= PI
  }

  /** The swept angle `generateArcPoints` uses: the raw difference, moved by one full turn when
      it points against the commanded direction. Equal angles sweep zero. */
  function Sweep(startAngle: real, endAngle: real, clockwise: bool): (a: real)
    ensures startAngle == endAngle ==> a == 0.0
    ensures InAtan2Range(startAngle) && InAtan2Range(endAngle) ==>
      (clockwise ==> -2.0 * PI < a <= 0.0) && (!clockwise ==> 0.0 <= a < 2.0 * PI)
    ensures InAtan2Range(startAngle) && InAtan2Range(endAngle) && a == 0.0 ==> startAngle == endAngle
  {
    var d := endAngle - startAngle;
    if clockwise then (if d > 0.0 then d - 2.0 * PI else d)
    else (if d < 0.0 then d + 2.0 * PI else d)
  }

  /** Tessellation point `i`: angle `start + i*step` on the circle, height `center.z + i*zStep`. */
  function ArcPoint(lib: MathLib, center: Point3D, radius: real, startAngle: real, angleStep: real,
                    zStep: real, i: int): Point3D
  {
    var angle := startAngle + angleStep * (i as real);
    Point3D(center.x + radius * lib.cos(angle), center.y + radius * lib.sin(angle),
            center.z + zStep * (i as real))
  }

  /** `generateArcPoints`: `segments + 1` points (none for a negative count), evenly spaced in
      angle over the sweep and in height from `center.z` to `endZ`. */
  function ArcPoints(lib: MathLib, center: Point3D, radius: real, startAngle: real, endAngle: real,
                     clockwise: bool, segments: int, endZ: real): (pts: seq<Point3D>)
    requires segments != 0
    ensures |pts| == if segments < 0 then 0 else segments + 1
  {
    var angleStep := Sweep(startAngle, endAngle, clockwise) / (segments as real);
    var zStep := (endZ - center.z) / (segments as real);
    if segments < 0 then []
    else seq(segments + 1, i => ArcPoint(lib, center, radius, startAngle, angleStep, zStep, i))
  }

  /** The tessellation starts at the centre's height and ends exactly at `endZ`; when the sweep
      is zero (equal start and end angles, a full circle included) every point has the same XY:
      the arc degenerates to a vertical line. */
  lemma ArcPointsShape(lib: MathLib, center: Point3D, radius: real, startAngle: real, endAngle: real,
                       clockwise: bool, segments: int, endZ: real)
    requires segments != 0
    ensures var pts := ArcPoints(lib, center, radius, startAngle, endAngle, clockwise, segments, endZ);
      && (|pts| > 0 ==> pts[0].z == center.z && pts[|pts| - 1].z == endZ)
      && (Sweep(startAngle, endAngle, clockwise) == 0.0 ==>
            forall i :: 0 <= i < |pts| ==> pts[i].x == pts[0].x && pts[i].y == pts[0].y)
  {
    var pts := ArcPoints(lib, center, radius, startAngle, endAngle, clockwise, segments, endZ);
    var angleStep := Sweep(startAngle, endAngle, clockwise) / (segments as real);
    var zStep := (endZ - center.z) / (segments as real);
    if segments > 0 {
      assert pts[segments] == ArcPoint(lib, center, radius, startAngle, angleStep, zStep, segments);
      DivMul(endZ - center.z, segments as real);
      assert pts[0] == ArcPoint(lib, center, radius, startAngle, angleStep, zStep, 0);
      if Sweep(startAngle, endAngle, clockwise) == 0.0 {
        assert angleStep == 0.0;
        forall i | 0 <= i < |pts| ensures pts[i].x == pts[0].x && pts[i].y == pts[0].y {
          assert pts[i] == ArcPoint(lib, center, radius, startAngle, angleStep, zStep, i);
          assert angleStep * (i as real) == 0.0;
          assert startAngle + angleStep * (i as real) == startAngle;
        }
      }
    }
  }

  lemma DivMul(a: real, b: real)
    requires b != 0.0
    ensures (a / b) * b == a
  {
  }

  /** The chords `handleArc` emits between consecutive tessellation points. */
  function Chords(pts: seq<Point3D>, kind: SegmentType, feed: JsNum, spindle: JsNum,
                  center: Point3D, radius: real): (cs: seq<GCodeSegment>)
    ensures |cs| == if |pts| == 0 then 0 else |pts| - 1
    ensures forall k :: 0 <= k < |cs| ==>
      cs[k] == GCodeSegment(kind, pts[k], pts[k + 1], Some(feed), Some(spindle), Some(center), Some(radius))
  {
    if |pts| <= 1 then []
    else
      seq(|pts| - 1, k requires 0 <= k < |pts| - 1 =>
        GCodeSegment(kind, pts[k], pts[k + 1], Some(feed), Some(spindle), Some(center), Some(radius)))
  }

  /** `commands.get(c) || 0`: an I or J offset, 0 when absent, NaN or zero. */
  function Offset(cmds: Commands, c: char): real {
    OrElse(Get(cmds, c), 0.0)
  }

  function ArcKind(clockwise: bool): SegmentType {
    if clockwise then ArcCW else ArcCCW
  }

  /** The centre of the arc `handleArc` draws: current XY plus (I, J), at the current height. */
  function ArcCenter(st: ParserState, cmds: Commands): Point3D {
    Point3D(st.x + Offset(cmds, 'I'), st.y + Offset(cmds, 'J'), st.z)
  }

  /** `Math.sqrt(i * i + j * j)`. */
  function Radius(lib: MathLib, i: real, j: real): real {
    lib.sqrt(i * i + j * j)
  }

  function ArcRadius(lib: MathLib, cmds: Commands): real {
    Radius(lib, Offset(cmds, 'I'), Offset(cmds, 'J'))
  }

  /** The tessellation points of an arc from the position of `st` to `target` about `c`. */
  function ArcPointsFrom(lib: MathLib, st: ParserState, target: Point3D, c: Point3D, radius: real,
                         clockwise: bool, n: int): seq<Point3D>
    requires n != 0
  {
    var startAngle := Atan2(lib, st.y - c.y, st.x - c.x);
    var endAngle := Atan2(lib, target.y - c.y, target.x - c.x);
    ArcPoints(lib, c, radius, startAngle, endAngle, clockwise, n, target.z)
  }

  /** The tessellation points of the arc command `cmds` from state `st`. */
  function ArcPointsOf(lib: MathLib, st: ParserState, cmds: Commands, clockwise: bool, n: int): seq<Point3D>
    requires n != 0
  {
    ArcPointsFrom(lib, st, TargetOf(st, cmds), ArcCenter(st, cmds), ArcRadius(lib, cmds), clockwise, n)
  }

  /** `handleArc`: the chords of the tessellated arc; the box is widened by the chord ends; the
      position becomes the commanded target. `ArcStepShape` states what the chords share. */
  function ArcStep(lib: MathLib, m: Machine, cmds: Commands, clockwise: bool, n: int): Machine
    requires n != 0
  {
    var chords := Chords(ArcPointsOf(lib, m.state, cmds, clockwise, n), ArcKind(clockwise),
                         m.state.feedRate, SpindleValue(m.state), ArcCenter(m.state, cmds),
                         ArcRadius(lib, cmds));
    Machine(MoveTo(m.state, TargetOf(m.state, cmds)), m.segments + chords, WidenAll(m.bbox, Tos(chords)))
  }

  /** `ArcStep` in terms of the intermediate values `handleArc` computes: the target, the I and
      J offsets, the centre and the tessellation points. */
  lemma ArcStepFrom(lib: MathLib, m: Machine, cmds: Commands, clockwise: bool, n: int,
                    target: Point3D, i: real, j: real, c: Point3D, startAngle: real, endAngle: real,
                    radius: real, pts: seq<Point3D>)
    requires n != 0
    requires target == TargetOf(m.state, cmds) && i == Offset(cmds, 'I') && j == Offset(cmds, 'J')
    requires c == Point3D(m.state.x + i, m.state.y + j, m.state.z)
    requires startAngle == Atan2(lib, m.state.y - c.y, m.state.x - c.x)
    requires endAngle == Atan2(lib, target.y - c.y, target.x - c.x)
    requires radius == Radius(lib, i, j)
    requires pts == ArcPoints(lib, c, radius, startAngle, endAngle, clockwise, n, target.z)
    ensures ArcStep(lib, m, cmds, clockwise, n)
         == Machine(MoveTo(m.state, target),
                    m.segments + Chords(pts, ArcKind(clockwise), m.state.feedRate, SpindleValue(m.state), c, Radius(lib, i, j)),
                    WidenAll(m.bbox, Tos(Chords(pts, ArcKind(clockwise), m.state.feedRate, SpindleValue(m.state), c, Radius(lib, i, j)))))
  {
    assert c == ArcCenter(m.state, cmds) && Radius(lib, i, j) == ArcRadius(lib, cmds);
    assert pts == ArcPointsFrom(lib, m.state, target, c, Radius(lib, i, j), clockwise, n);
  }

  /** An arc appends `n` chords (none for a negative count) that join end to end and all carry
      the arc's direction, centre, radius and the feed and spindle value in force; the box is
      widened by exactly the chord ends, and the position becomes the target. */
  lemma ArcStepShape(lib: MathLib, m: Machine, cmds: Commands, clockwise: bool, n: int)
    requires n != 0
    ensures var r := ArcStep(lib, m, cmds, clockwise, n);
      && |r.segments| == |m.segments| + (if n < 0 then 0 else n)
      && r.segments[..|m.segments|] == m.segments
      && (forall k :: |m.segments| <= k < |r.segments| ==>
            && r.segments[k].kind == ArcKind(clockwise)
            && r.segments[k].center == Some(ArcCenter(m.state, cmds))
            && r.segments[k].radius == Some(ArcRadius(lib, cmds))
            && r.segments[k].feed == Some(m.state.feedRate)
            && r.segments[k].spindle == Some(SpindleValue(m.state)))
      && (forall k :: |m.segments| <= k < |r.segments| - 1 ==> r.segments[k].to == r.segments[k + 1].from)
      && r.state == MoveTo(m.state, TargetOf(m.state, cmds))
      && r.bbox == WidenAll(m.bbox, Tos(r.segments[|m.segments|..]))
  {
    var pts := ArcPointsOf(lib, m.state, cmds, clockwise, n);
    assert |pts| == if n < 0 then 0 else n + 1;
    var kind, feed, spindle := ArcKind(clockwise), m.state.feedRate, SpindleValue(m.state);
    var center, radius := ArcCenter(m.state, cmds), ArcRadius(lib, cmds);
    ChordsJoin(pts, kind, feed, spindle, center, radius);
    ChordsAppended(m.segments, Chords(pts, kind, feed, spindle, center, radius), kind, feed, spindle,
                   center, radius);
  }

  /** The chords through a run of points share their fields and join end to end. */
  lemma ChordsJoin(pts: seq<Point3D>, kind: SegmentType, feed: JsNum, spindle: JsNum,
                   center: Point3D, radius: real)
    ensures var chords := Chords(pts, kind, feed, spindle, center, radius);
      && (forall k :: 0 <= k < |chords| ==> SharesArc(chords[k], kind, feed, spindle, center, radius))
      && (forall k :: 0 <= k < |chords| - 1 ==> chords[k].to == chords[k + 1].from)
  {
    var chords := Chords(pts, kind, feed, spindle, center, radius);
    forall k | 0 <= k < |chords| - 1
      ensures chords[k].to == chords[k + 1].from
    {
      assert chords[k].to == pts[k + 1];
    }
  }

  predicate SharesArc(g: GCodeSegment, kind: SegmentType, feed: JsNum, spindle: JsNum,
                      center: Point3D, radius: real) {
    && g.kind == kind && g.center == Some(center) && g.radius == Some(radius)
    && g.feed == Some(feed) && g.spindle == Some(spindle)
  }

  /** Chords appended to a segment list keep the list as a prefix, and keep sharing their fields
      and joining end to end. */
  lemma ChordsAppended(segs: seq<GCodeSegment>, chords: seq<GCodeSegment>, kind: SegmentType,
                       feed: JsNum, spindle: JsNum, center: Point3D, radius: real)
    requires forall k :: 0 <= k < |chords| ==> SharesArc(chords[k], kind, feed, spindle, center, radius)
    requires forall k :: 0 <= k < |chords| - 1 ==> chords[k].to == chords[k + 1].from
    ensures var all := segs + chords;
      && all[..|segs|] == segs && all[|segs|..] == chords
      && (forall k :: |segs| <= k < |all| ==> SharesArc(all[k], kind, feed, spindle, center, radius))
      && (forall k :: |segs| <= k < |all| - 1 ==> all[k].to == all[k + 1].from)
  {
    var all := segs + chords;
    assert all[..|segs|] == segs && all[|segs|..] == chords;
    forall k | |segs| <= k < |all|
      ensures SharesArc(all[k], kind, feed, spindle, center, radius)
    {
      assert all[k] == chords[k - |segs|];
    }
    forall k | |segs| <= k < |all| - 1
      ensures all[k].to == all[k + 1].from
    {
      assert all[k] == chords[k - |segs|] && all[k + 1] == chords[k - |segs| + 1];
    }
  }

  // ---------------------------------------------------------------- G and M dispatch

  /** The G codes `handleGCode` acts on. G17-G19 are accepted and do nothing. */
  predicate IsActiveG(code: JsNum) {
    code.Num? && code.val in {0.0, 1.0, 2.0, 3.0, 20.0, 21.0, 90.0, 91.0}
  }

  predicate IsMotionG(code: JsNum) {
    code.Num? && code.val in {0.0, 1.0, 2.0, 3.0}
  }

  /** `handleGCode`. */
  function GStep(lib: MathLib, m: Machine, code: JsNum, cmds: Commands, n: int): Machine
    requires n != 0
  {
    if code == Num(0.0) then RapidStep(m, cmds)
    else if code == Num(1.0) then LinearStep(m, cmds)
    else if code == Num(2.0) then ArcStep(lib, m, cmds, true, n)
    else if code == Num(3.0) then ArcStep(lib, m, cmds, false, n)
    else if code == Num(20.0) then m.(state := m.state.(isMetric := false))
    else if code == Num(21.0) then m.(state := m.state.(isMetric := true))
    else if code == Num(90.0) then m.(state := m.state.(isAbsolute := true))
    else if code == Num(91.0) then m.(state := m.state.(isAbsolute := false))
    else m
  }

  /** What a G word can do: unrecognised codes (NaN and G17-G19 included) change nothing; mode
      codes flip one flag and emit nothing; motion codes only append segments, and every cutting
      segment they append carries the feed and spindle value in force. No G code touches feed,
      spindle speed or the spindle flag. */
  lemma GStepShape(lib: MathLib, m: Machine, code: JsNum, cmds: Commands, n: int)
    requires n != 0
    ensures var r := GStep(lib, m, code, cmds, n);
      && (!IsActiveG(code) ==> r == m)
      && (!IsMotionG(code) ==> r.segments == m.segments && r.bbox == m.bbox && Position(r.state) == Position(m.state))
      && |m.segments| <= |r.segments| && r.segments[..|m.segments|] == m.segments
      && (forall k :: |m.segments| <= k < |r.segments| && r.segments[k].kind != Rapid ==>
            r.segments[k].feed == Some(m.state.feedRate) && r.segments[k].spindle == Some(SpindleValue(m.state)))
      && r.state.feedRate == m.state.feedRate && r.state.spindleSpeed == m.state.spindleSpeed
      && r.state.spindleOn == m.state.spindleOn
      && (code == Num(20.0) ==> r.state == m.state.(isMetric := false))
      && (code == Num(21.0) ==> r.state == m.state.(isMetric := true))
      && (code == Num(90.0) ==> r.state == m.state.(isAbsolute := true))
      && (code == Num(91.0) ==> r.state == m.state.(isAbsolute := false))
  {
    var r := GStep(lib, m, code, cmds, n);
    if code == Num(0.0) {
      assert r == RapidStep(m, cmds);
    } else if code == Num(1.0) {
      assert r == LinearStep(m, cmds);
    } else if code == Num(2.0) {
      ArcStepShape(lib, m, cmds, true, n);
    } else if code == Num(3.0) {
      ArcStepShape(lib, m, cmds, false, n);
    } else {
      assert r.segments == m.segments && r.bbox == m.bbox && Position(r.state) == Position(m.state);
    }
  }

  /** `handleMCode`: M3 and M4 switch the spindle on, M5 off; M2, M30 and every other code
      change nothing. */
  function MStep(st: ParserState, code: JsNum): (r: ParserState)
    ensures r.spindleOn == (if code in {Num(3.0), Num(4.0)} then true
                            else if code == Num(5.0) then false else st.spindleOn)
    ensures r == st.(spindleOn := r.spindleOn)
  {
    if code == Num(3.0) || code == Num(4.0) then st.(spindleOn := true)
    else if code == Num(5.0) then st.(spindleOn := false)
    else st
  }

  /** `executeCommands`: G, then M, then F, then S. */
  function ExecuteStep(lib: MathLib, m: Machine, cmds: Commands, n: int): Machine
    requires n != 0
  {
    var m1 := if 'G' in cmds then GStep(lib, m, cmds['G'], cmds, n) else m;
    var st2 := if 'M' in cmds then MStep(m1.state, cmds['M']) else m1.state;
    var st3 := if 'F' in cmds then st2.(feedRate := cmds['F']) else st2;
    var st4 := if 'S' in cmds then st3.(spindleSpeed := cmds['S']) else st3;
    m1.(state := st4)
  }

  /** The order of `executeCommands`: F and S words set the feed and spindle speed for later
      lines, and the motion on the same line uses the feed, spindle speed and spindle flag in
      force before the line (so `M3 G1 ...` cuts with the spindle value of the previous state).
      A line without a G word emits nothing and does not move. */
  lemma ExecuteStepOrder(lib: MathLib, m: Machine, cmds: Commands, n: int)
    requires n != 0
    ensures var r := ExecuteStep(lib, m, cmds, n);
      && r.state.feedRate == (if 'F' in cmds then cmds['F'] else m.state.feedRate)
      && r.state.spindleSpeed == (if 'S' in cmds then cmds['S'] else m.state.spindleSpeed)
      && ('G' !in cmds ==> r.segments == m.segments && r.bbox == m.bbox && Position(r.state) == Position(m.state))
      && |m.segments| <= |r.segments| && r.segments[..|m.segments|] == m.segments
      && (forall k :: |m.segments| <= k < |r.segments| && r.segments[k].kind != Rapid ==>
            r.segments[k].feed == Some(m.state.feedRate) && r.segments[k].spindle == Some(SpindleValue(m.state)))
  {
    if 'G' in cmds {
      GStepShape(lib, m, cmds['G'], cmds, n);
    }
  }

  /** `parseLine` on an already trimmed line: a skipped line changes nothing. */
  function LineStep(lib: MathLib, m: Machine, line: string, n: int): (r: Machine)
    requires n != 0
    ensures LineCommands(line).None? ==> r == m
  {
    match LineCommands(line)
    case None => m
    case Some(cmds) => ExecuteStep(lib, m, cmds, n)
  }

  /** The loop of `parse`: every line, trimmed, in order. */
  function RunLines(lib: MathLib, m: Machine, lines: seq<string>, n: int): (r: Machine)
    requires n != 0
  {
    if lines == [] then m
    else LineStep(lib, RunLines(lib, m, lines[..|lines| - 1], n), Trim(lines[|lines| - 1]), n)
  }

  /** Running one more line extends the run by one `LineStep`. */
  lemma RunLinesSnoc(lib: MathLib, m: Machine, lines: seq<string>, i: int, n: int)
    requires n != 0 && 0 <= i < |lines|
    ensures RunLines(lib, m, lines[..i + 1], n) == LineStep(lib, RunLines(lib, m, lines[..i], n), Trim(lines[i]), n)
  {
    assert lines[..i + 1][..i] == lines[..i];
  }

  // ---------------------------------------------------------------- statistics

  /** Running sums of `calculateStatistics`; `minutes` is the time before the final `* 60`. */
  datatype Totals = Totals(total: real, rapid: real, cut: real, minutes: real)

  function SegmentLength(lib: MathLib, s: GCodeSegment): real {
    Hypot3(lib, s.to.x - s.from.x, s.to.y - s.from.y, s.to.z - s.from.z)
  }

  /** The minutes one segment takes: rapids at 6000 per minute, everything else at its feed, or
      at 600 when the feed is absent, zero or NaN. */
  function SegmentMinutes(lib: MathLib, s: GCodeSegment): real {
    if s.kind == Rapid then SegmentLength(lib, s) / 6000.0
    else SegmentLength(lib, s) / OrElse(s.feed, DefaultFeedRate)
  }

  /** The sums over a segment list. The total distance is the rapid plus the cut distance, and
      with a sound square root both are non-negative. */
  function Accumulate(lib: MathLib, segs: seq<GCodeSegment>): (t: Totals)
    ensures t.total == t.rapid + t.cut
    ensures Sound(lib) ==> 0.0 <= t.rapid && 0.0 <= t.cut
  {
    if segs == [] then Totals(0.0, 0.0, 0.0, 0.0)
    else
      var t := Accumulate(lib, segs[..|segs| - 1]);
      var s := segs[|segs| - 1];
      var d := SegmentLength(lib, s);
      if s.kind == Rapid then Totals(t.total + d, t.rapid + d, t.cut, t.minutes + d / 6000.0)
      else Totals(t.total + d, t.rapid, t.cut + d, t.minutes + d / OrElse(s.feed, DefaultFeedRate))
  }

  /** The statistics `calculateStatistics` writes, with the line count kept from `parse`. */
  function StatsOf(lib: MathLib, segs: seq<GCodeSegment>, lineCount: nat): (s: PathStatistics)
    ensures s.totalDistance == s.rapidDistance + s.cutDistance
    ensures s.lineCount == lineCount
  {
    var t := Accumulate(lib, segs);
    PathStatistics(t.total, t.rapid, t.cut, t.minutes * 60.0, lineCount)
  }

  // ---------------------------------------------------------------- parse

  /** `parse`: reset, run every line, compute the statistics. The result depends on nothing but
      the text and the arc option; the line count is the number of newline-separated pieces. */
  function ParseSpec(lib: MathLib, text: string, option: Option<int>): (r: ParseResult)
    ensures r.stats.totalDistance == r.stats.rapidDistance + r.stats.cutDistance
  {
    var lines := Split(text, '\n');
    var m := RunLines(lib, Start, lines, ArcSegmentsOf(option));
    ParseResult(m.segments, m.bbox, StatsOf(lib, m.segments, |lines|))
  }
}
