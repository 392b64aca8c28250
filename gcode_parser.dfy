/** `GcodeParser` of lib/GcodeParser.ts: an object whose fields (modal state, segment list,
    bounding box, statistics) its methods update line by line. Every method is proved to leave
    the object in the state the functions of `GcodeSpec` describe. */
module GcodeParser {
  import opened Js
  import opened Constants
  import opened GcodeSpec

  class GCodeParser {
    var state: ParserState
    var segments: seq<GCodeSegment>
    var bbox: BoundingBox
    var stats: PathStatistics

    /** The part of the object one line can change. */
    function Current(): Machine
      reads this
    {
      Machine(state, segments, bbox)
    }

    constructor ()
      ensures Current() == Start && stats == ZeroStats
    {
      state := InitialState;
      segments := [];
      bbox := EmptyBox;
      stats := ZeroStats;
    }

    /** `parse`: the result, and the object's fields afterwards, are those of `ParseSpec`. */
    method Parse(lib: MathLib, gcodeText: string, arcSegmentsOption: Option<int>) returns (r: ParseResult)
      modifies this
      ensures r == ParseSpec(lib, gcodeText, arcSegmentsOption)
      ensures segments == r.segments && bbox == r.bbox && stats == r.stats
      ensures Current() == RunLines(lib, Start, Split(gcodeText, '\n'), ArcSegmentsOf(arcSegmentsOption))
    {
      var arcSegments := ArcSegmentsOf(arcSegmentsOption);
      ResetState();
      var lines := Split(gcodeText, '\n');
      ParseLines(lib, lines, arcSegments);
      CalculateStatistics(lib);
      r := ParseResult(segments, bbox, stats);
    }

    /** The line loop of `parse`: counts each line and feeds it, trimmed, to `parseLine`. */
    method ParseLines(lib: MathLib, lines: seq<string>, arcSegments: int)
      requires arcSegments != 0
      requires Current() == Start && stats == ZeroStats
      modifies this
      ensures Current() == RunLines(lib, Start, lines, arcSegments)
      ensures stats == ZeroStats.(lineCount := |lines|)
    {
      assert lines[..0] == [];
      for i := 0 to |lines|
        invariant Current() == RunLines(lib, Start, lines[..i], arcSegments)
        invariant stats == ZeroStats.(lineCount := i)
      {
        stats := stats.(lineCount := stats.lineCount + 1);
        ParseNextLine(lib, lines, i, arcSegments);
      }
      assert lines[..|lines|] == lines;
    }

    /** One iteration of that loop: `parseLine` on line `i`, trimmed, extends the run by it. */
    method ParseNextLine(lib: MathLib, lines: seq<string>, i: int, arcSegments: int)
      requires arcSegments != 0 && 0 <= i < |lines|
      requires Current() == RunLines(lib, Start, lines[..i], arcSegments)
      modifies this
      ensures Current() == RunLines(lib, Start, lines[..i + 1], arcSegments) && stats == old(stats)
    {
      ParseLine(lib, Trim(lines[i]), arcSegments);
      RunLinesSnoc(lib, Start, lines, i, arcSegments);
    }

    /** `resetState`. */
    method ResetState()
      modifies this
      ensures Current() == Start && stats == ZeroStats
    {
      state := InitialState;
      segments := [];
      bbox := EmptyBox;
      stats := ZeroStats;
    }

    /** `parseLine` on an already trimmed line. */
    method ParseLine(lib: MathLib, line: string, arcSegments: int)
      requires arcSegments != 0
      modifies this
      ensures Current() == LineStep(lib, old(Current()), line, arcSegments) && stats == old(stats)
    {
      if line == [] || StartsWith(line, ';') || StartsWith(line, '(') {
        return;
      }
      var cleanLine := Trim(StripComment(line));
      if cleanLine == [] {
        return;
      }
      var commands := ExtractCommands(cleanLine);
      ExecuteCommands(lib, commands, arcSegments);
    }

    /** `extractCommands`: one map update per match, in order. */
    method ExtractCommands(line: string) returns (commands: Commands)
      ensures commands == CommandMap(Matches(line))
    {
      commands := StoreMatches(Matches(line));
    }

    /** The loop of `extractCommands` over the matches of the line. */
    method StoreMatches(matches: seq<Token>) returns (commands: Commands)
      ensures commands == CommandMap(matches)
    {
      commands := map[];
      assert matches[..0] == [];
      for k := 0 to |matches|
        invariant commands == CommandMap(matches[..k])
      {
        var letter := AsciiUpper(matches[k].letter);
        var value := ParseFloat(matches[k].text);
        commands := commands[letter := value];
        assert matches[..k + 1][..k] == matches[..k];
      }
      assert matches[..|matches|] == matches;
    }

    /** `executeCommands`. */
    method ExecuteCommands(lib: MathLib, commands: Commands, arcSegments: int)
      requires arcSegments != 0
      modifies this
      ensures Current() == ExecuteStep(lib, old(Current()), commands, arcSegments) && stats == old(stats)
    {
      if 'G' in commands {
        HandleGCode(lib, commands['G'], commands, arcSegments);
      }
      if 'M' in commands {
        HandleMCode(commands['M']);
      }
      if 'F' in commands {
        state := state.(feedRate := commands['F']);
      }
      if 'S' in commands {
        state := state.(spindleSpeed := commands['S']);
      }
    }

    /** `handleGCode`. */
    method HandleGCode(lib: MathLib, code: JsNum, commands: Commands, arcSegments: int)
      requires arcSegments != 0
      modifies this
      ensures Current() == GStep(lib, old(Current()), code, commands, arcSegments) && stats == old(stats)
    {
      if code == Num(0.0) {
        HandleRapid(commands);
      } else if code == Num(1.0) {
        HandleLinearMove(commands);
      } else if code == Num(2.0) {
        HandleArc(lib, commands, true, arcSegments);
      } else if code == Num(3.0) {
        HandleArc(lib, commands, false, arcSegments);
      } else if code == Num(20.0) {
        state := state.(isMetric := false);
      } else if code == Num(21.0) {
        state := state.(isMetric := true);
      } else if code == Num(90.0) {
        state := state.(isAbsolute := true);
      } else if code == Num(91.0) {
        state := state.(isAbsolute := false);
      }
    }

    /** `handleMCode`. */
    method HandleMCode(code: JsNum)
      modifies this
      ensures state == MStep(old(state), code)
      ensures segments == old(segments) && bbox == old(bbox) && stats == old(stats)
    {
      if code == Num(3.0) || code == Num(4.0) {
        state := state.(spindleOn := true);
      } else if code == Num(5.0) {
        state := state.(spindleOn := false);
      }
    }

    /** `handleRapid`. */
    method HandleRapid(commands: Commands)
      modifies this
      ensures Current() == RapidStep(old(Current()), commands) && stats == old(stats)
    {
      var newPos := GetNewPosition(commands);
      segments := segments + [GCodeSegment(Rapid, Point3D(state.x, state.y, state.z), newPos,
                                           None, None, None, None)];
      UpdateBBox(newPos);
      UpdatePosition(newPos);
    }

    /** `handleLinearMove`. */
    method HandleLinearMove(commands: Commands)
      modifies this
      ensures Current() == LinearStep(old(Current()), commands) && stats == old(stats)
    {
      var newPos := GetNewPosition(commands);
      var spindle := if state.spindleOn then state.spindleSpeed else Num(0.0);
      segments := segments + [GCodeSegment(Linear, Point3D(state.x, state.y, state.z), newPos,
                                           Some(state.feedRate), Some(spindle), None, None)];
      UpdateBBox(newPos);
      UpdatePosition(newPos);
    }

    /** `handleArc`: one chord and one box update per pair of consecutive points. */
    method HandleArc(lib: MathLib, commands: Commands, clockwise: bool, arcSegments: int)
      requires arcSegments != 0
      modifies this
      ensures Current() == ArcStep(lib, old(Current()), commands, clockwise, arcSegments) && stats == old(stats)
    {
      var newPos := GetNewPosition(commands);
      var st := state;
      var i := OrElse(Get(commands, 'I'), 0.0);
      var j := OrElse(Get(commands, 'J'), 0.0);
      var centerX := st.x + i;
      var centerY := st.y + j;
      var startAngle := Atan2(lib, st.y - centerY, st.x - centerX);
      var endAngle := Atan2(lib, newPos.y - centerY, newPos.x - centerX);
      var radius := Radius(lib, i, j);
      var center := Point3D(centerX, centerY, st.z);
      var arcPoints := GenerateArcPoints(lib, center, radius, startAngle, endAngle, clockwise,
                                         arcSegments, newPos.z);
      var kind := if clockwise then ArcCW else ArcCCW;
      var spindle := if st.spindleOn then st.spindleSpeed else Num(0.0);
      ArcStepFrom(lib, Machine(st, segments, bbox), commands, clockwise, arcSegments, newPos, i, j, center,
                  startAngle, endAngle, radius, arcPoints);
      AddChords(arcPoints, kind, st.feedRate, spindle, center, radius);
      UpdatePosition(newPos);
    }

    /** The chord loop of `handleArc`: one segment and one box update per pair of consecutive
        points. */
    method AddChords(arcPoints: seq<Point3D>, kind: SegmentType, feed: JsNum, spindle: JsNum,
                     center: Point3D, radius: real)
      modifies this
      ensures segments == old(segments) + Chords(arcPoints, kind, feed, spindle, center, radius)
      ensures bbox == WidenAll(old(bbox), Tos(Chords(arcPoints, kind, feed, spindle, center, radius)))
      ensures state == old(state) && stats == old(stats)
    {
      ghost var chords := Chords(arcPoints, kind, feed, spindle, center, radius);
      var k := 0;
      while k < |arcPoints| - 1
        invariant 0 <= k <= |chords|
        invariant segments == old(segments) + chords[..k]
        invariant bbox == WidenAll(old(bbox), Tos(chords[..k]))
        invariant state == old(state) && stats == old(stats)
      {
        segments := segments + [GCodeSegment(kind, arcPoints[k], arcPoints[k + 1], Some(feed),
                                             Some(spindle), Some(center), Some(radius))];
        UpdateBBox(arcPoints[k + 1]);
        assert chords[..k + 1] == chords[..k] + [chords[k]];
        ghost var tos := Tos(chords[..k + 1]);
        assert tos[..k] == Tos(chords[..k]) && tos[k] == arcPoints[k + 1];
        k := k + 1;
      }
      assert chords[..k] == chords;
    }

    /** `generateArcPoints`. */
    method GenerateArcPoints(lib: MathLib, center: Point3D, radius: real, startAngle: real,
                             endAngle: real, clockwise: bool, segments: int, endZ: real)
      returns (points: seq<Point3D>)
      requires segments != 0
      ensures points == ArcPoints(lib, center, radius, startAngle, endAngle, clockwise, segments, endZ)
    {
      points := [];
      var angle := endAngle - startAngle;
      if clockwise {
        if angle > 0.0 {
          angle := angle - 2.0 * PI;
        }
      } else {
        if angle < 0.0 {
          angle := angle + 2.0 * PI;
        }
      }
      assert angle == Sweep(startAngle, endAngle, clockwise);
      var angleStep := angle / (segments as real);
      var zStep := (endZ - center.z) / (segments as real);
      ghost var spec := ArcPoints(lib, center, radius, startAngle, endAngle, clockwise, segments, endZ);
      var i := 0;
      while i <= segments
        invariant 0 <= i <= |spec|
        invariant points == spec[..i]
      {
        var point := ArcPoint(lib, center, radius, startAngle, angleStep, zStep, i);
        assert spec[..i + 1] == spec[..i] + [point];
        points := points + [point];
        i := i + 1;
      }
      assert spec[..i] == spec;
    }

    /** `getNewPosition`. */
    method GetNewPosition(commands: Commands) returns (p: Point3D)
      ensures p == TargetOf(state, commands)
    {
      var x, y, z := state.x, state.y, state.z;
      if state.isAbsolute {
        if HasNumber(commands, 'X') { x := commands['X'].val; }
        if HasNumber(commands, 'Y') { y := commands['Y'].val; }
        if HasNumber(commands, 'Z') { z := commands['Z'].val; }
      } else {
        if HasNumber(commands, 'X') { x := x + commands['X'].val; }
        if HasNumber(commands, 'Y') { y := y + commands['Y'].val; }
        if HasNumber(commands, 'Z') { z := z + commands['Z'].val; }
      }
      if !state.isMetric {
        x := x * 25.4;
        y := y * 25.4;
        z := z * 25.4;
      }
      p := Point3D(x, y, z);
    }

    /** `updatePosition`. */
    method UpdatePosition(pos: Point3D)
      modifies this
      ensures state == MoveTo(old(state), pos)
      ensures segments == old(segments) && bbox == old(bbox) && stats == old(stats)
    {
      state := state.(x := pos.x, y := pos.y, z := pos.z);
    }

    /** `updateBBox`. */
    method UpdateBBox(pos: Point3D)
      modifies this
      ensures bbox == WidenBox(old(bbox), pos)
      ensures state == old(state) && segments == old(segments) && stats == old(stats)
    {
      bbox := BoundingBox(
        ExtMin(bbox.minX, pos.x), ExtMax(bbox.maxX, pos.x),
        ExtMin(bbox.minY, pos.y), ExtMax(bbox.maxY, pos.y),
        ExtMin(bbox.minZ, pos.z), ExtMax(bbox.maxZ, pos.z));
    }

    /** `calculateStatistics`: one pass over the segments. */
    method CalculateStatistics(lib: MathLib)
      modifies this
      ensures stats == StatsOf(lib, segments, old(stats).lineCount)
      ensures Current() == old(Current())
    {
      var totalDistance, rapidDistance, cutDistance, totalTime := 0.0, 0.0, 0.0, 0.0;
      assert segments[..0] == [];
      for i := 0 to |segments|
        invariant Totals(totalDistance, rapidDistance, cutDistance, totalTime) == Accumulate(lib, segments[..i])
      {
        var s := segments[i];
        var dx := s.to.x - s.from.x;
        var dy := s.to.y - s.from.y;
        var dz := s.to.z - s.from.z;
        var distance := Hypot3(lib, dx, dy, dz);
        totalDistance := totalDistance + distance;
        if s.kind == Rapid {
          rapidDistance := rapidDistance + distance;
          totalTime := totalTime + distance / 6000.0;
        } else {
          cutDistance := cutDistance + distance;
          totalTime := totalTime + distance / OrElse(s.feed, DefaultFeedRate);
        }
        assert segments[..i + 1][..i] == segments[..i];
      }
      assert segments[..|segments|] == segments;
      stats := PathStatistics(totalDistance, rapidDistance, cutDistance, totalTime * 60.0, stats.lineCount);
    }
  }
}
