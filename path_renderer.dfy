/** The path colouring rules and the line-buffer layout of lib/three/PathRenderer.ts. Colours are
    abstract RGB triples with components in [0, 1]; the three.js geometry is a list of drawn line
    sets, each holding the position and colour buffers `buildVisuals` hands to it. */
module ThreePaths {
  import opened Js
  import opened Constants

  /** A `THREE.Color`: red, green and blue in [0, 1]. */
  datatype Rgb = Rgb(r: real, g: real, b: real)

  predicate InUnitCube(c: Rgb) {
    0.0 <= c.r <= 1.0 && 0.0 <= c.g <= 1.0 && 0.0 <= c.b <= 1.0
  }

  /** `new THREE.Color(hex)`: the three bytes of a 0xRRGGBB value, each over 255. */
  function FromHex(hex: nat): (c: Rgb)
    ensures InUnitCube(c)
  {
    Rgb((hex / 65536 % 256) as real / 255.0, (hex / 256 % 256) as real / 255.0, (hex % 256) as real / 255.0)
  }

  /** `a.lerp(b, t)`: each component moved the fraction `t` of the way from `a` to `b`. */
  function ColorLerp(a: Rgb, b: Rgb, t: real): (c: Rgb)
    ensures t == 0.0 ==> c == a
    ensures t == 1.0 ==> c == b
  {
    Rgb(a.r + (b.r - a.r) * t, a.g + (b.g - a.g) * t, a.b + (b.b - a.b) * t)
  }

  /** `getDefaultColor`: by kind alone. */
  function DefaultColor(kind: SegmentType): (c: Rgb)
    ensures kind == Rapid ==> c == FromHex(RapidColor)
    ensures kind == Linear ==> c == FromHex(LinearCutColor)
    ensures kind == ArcCW || kind == ArcCCW ==> c == FromHex(ArcCutColor)
  {
    match kind
    case Rapid => FromHex(RapidColor)
    case Linear => FromHex(LinearCutColor)
    case ArcCW => FromHex(ArcCutColor)
    case ArcCCW => FromHex(ArcCutColor)
  }

  function Dx(s: GCodeSegment): real { Abs(s.to.x - s.from.x) }
  function Dy(s: GCodeSegment): real { Abs(s.to.y - s.from.y) }
  function Dz(s: GCodeSegment): real { Abs(s.to.z - s.from.z) }

  /** `getAxisColor`: rapids keep the rapid colour; otherwise the colour of the axis with the
      strictly largest travel, and white on a tie for largest. */
  function AxisColor(s: GCodeSegment): Rgb {
    if s.kind == Rapid then FromHex(RapidColor)
    else if Dx(s) > Dy(s) && Dx(s) > Dz(s) then FromHex(ProgressiveXColor)
    else if Dy(s) > Dx(s) && Dy(s) > Dz(s) then FromHex(ProgressiveYColor)
    else if Dz(s) > Dx(s) && Dz(s) > Dy(s) then FromHex(AxisZColor)
    else FromHex(0xffffff)
  }

  /** `getProgressiveColor` for segment number `index` of `count`: rapids keep the rapid colour;
      otherwise white blended toward red (more X than Y travel) or green by `index / count`. */
  function ProgressiveColor(s: GCodeSegment, index: nat, count: nat): Rgb
    requires 0 < count
  {
    if s.kind == Rapid then FromHex(RapidColor)
    else
      var target := if Dx(s) > Dy(s) then FromHex(ProgressiveXColor) else FromHex(ProgressiveYColor);
      ColorLerp(FromHex(ProgressiveStartColor), target, index as real / count as real)
  }

  /** `getSegmentColor`: the rule of the current mode. */
  function SegmentColor(mode: ColorMode, s: GCodeSegment, index: nat, count: nat): Rgb
    requires 0 < count
  {
    match mode
    case Default => DefaultColor(s.kind)
    case Axis => AxisColor(s)
    case Progressive => ProgressiveColor(s, index, count)
  }

  // ---------------------------------------------------------------- colour properties

  /** The palette: five distinct colours. */
  lemma PaletteValues()
    ensures FromHex(0xff0000) == Rgb(1.0, 0.0, 0.0)
    ensures FromHex(0x00ff00) == Rgb(0.0, 1.0, 0.0)
    ensures FromHex(0x0000ff) == Rgb(0.0, 0.0, 1.0)
    ensures FromHex(0xffffff) == Rgb(1.0, 1.0, 1.0)
    ensures FromHex(0xffd166) == Rgb(1.0, 209.0 / 255.0, 102.0 / 255.0)
  {
  }

  /** In axis mode each colour means exactly one thing: the rapid colour a rapid, red a cut with
      X travel strictly largest, green Y, blue Z, white a tie for largest. */
  lemma AxisColorMeaning(s: GCodeSegment)
    ensures AxisColor(s) == FromHex(RapidColor) <==> s.kind == Rapid
    ensures AxisColor(s) == Rgb(1.0, 0.0, 0.0) <==> s.kind != Rapid && Dx(s) > Dy(s) && Dx(s) > Dz(s)
    ensures AxisColor(s) == Rgb(0.0, 1.0, 0.0) <==> s.kind != Rapid && Dy(s) > Dx(s) && Dy(s) > Dz(s)
    ensures AxisColor(s) == Rgb(0.0, 0.0, 1.0) <==> s.kind != Rapid && Dz(s) > Dx(s) && Dz(s) > Dy(s)
    ensures AxisColor(s) == Rgb(1.0, 1.0, 1.0) <==>
      s.kind != Rapid && !(Dx(s) > Dy(s) && Dx(s) > Dz(s)) && !(Dy(s) > Dx(s) && Dy(s) > Dz(s))
                      && !(Dz(s) > Dx(s) && Dz(s) > Dy(s))
  {
    PaletteValues();
  }

  /** In progressive mode the blend fraction `index / count` lies in [0, 1): the first cut is
      white, the colour never reaches the target, and every cut colour stays a valid colour. */
  lemma ProgressiveBlend(s: GCodeSegment, index: nat, count: nat)
    requires index < count
    ensures s.kind != Rapid ==>
      var t := index as real / count as real;
      && 0.0 <= t < 1.0
      && ProgressiveColor(s, index, count)
           == ColorLerp(Rgb(1.0, 1.0, 1.0), if Dx(s) > Dy(s) then Rgb(1.0, 0.0, 0.0) else Rgb(0.0, 1.0, 0.0), t)
      && (index == 0 ==> ProgressiveColor(s, index, count) == Rgb(1.0, 1.0, 1.0))
    ensures InUnitCube(ProgressiveColor(s, index, count))
  {
    PaletteValues();
    var t := index as real / count as real;
    assert 0.0 <= t < 1.0 by {
      assert t * (count as real) == index as real;
    }
    if s.kind != Rapid {
      var target := if Dx(s) > Dy(s) then FromHex(ProgressiveXColor) else FromHex(ProgressiveYColor);
      LerpInCube(FromHex(ProgressiveStartColor), target, t);
    }
  }

  lemma LerpInCube(a: Rgb, b: Rgb, t: real)
    requires InUnitCube(a) && InUnitCube(b) && 0.0 <= t <= 1.0
    ensures InUnitCube(ColorLerp(a, b, t))
  {
    LerpBetween(a.r, b.r, t);
    LerpBetween(a.g, b.g, t);
    LerpBetween(a.b, b.b, t);
  }

  lemma LerpBetween(x: real, y: real, t: real)
    requires 0.0 <= x <= 1.0 && 0.0 <= y <= 1.0 && 0.0 <= t <= 1.0
    ensures 0.0 <= x + (y - x) * t <= 1.0
  {
    MulAtMost(x, 1.0 - t);
    MulAtMost(y, t);
    var xt, yt := x * t, y * t;
    assert x * (1.0 - t) == x - xt;
    assert (y - x) * t == yt - xt;
    assert 0.0 <= x - xt <= 1.0 - t;
    assert 0.0 <= yt <= t;
  }

  lemma MulAtMost(x: real, c: real)
    requires 0.0 <= x <= 1.0 && 0.0 <= c
    ensures 0.0 <= x * c <= c
  {
    assert c - x * c == (1.0 - x) * c;
  }

  // ---------------------------------------------------------------- buffers

  /** The six position numbers of one segment: `from`, then `to`, each as (x, z, y). */
  function SegmentVertices(s: GCodeSegment): seq<real> {
    [s.from.x, s.from.z, s.from.y, s.to.x, s.to.z, s.to.y]
  }

  /** The six colour numbers of one segment: the same colour on both vertices. */
  function SegmentColors(c: Rgb): seq<real> {
    [c.r, c.g, c.b, c.r, c.g, c.b]
  }

  /** The position buffer of the first segments, in order. */
  function PositionBuffer(segs: seq<GCodeSegment>): seq<real> {
    if segs == [] then [] else PositionBuffer(segs[..|segs| - 1]) + SegmentVertices(segs[|segs| - 1])
  }

  /** The colour buffer of the first `n` segments of `segs`, coloured as members of the whole list. */
  function ColorBuffer(mode: ColorMode, segs: seq<GCodeSegment>, n: nat): seq<real>
    requires n <= |segs|
  {
    if n == 0 then [] else ColorBuffer(mode, segs, n - 1) + SegmentColors(SegmentColor(mode, segs[n - 1], n - 1, |segs|))
  }

  /** Segment `i` owns numbers `6i .. 6i + 6` of the position buffer. */
  lemma {:induction false} PositionBufferAt(segs: seq<GCodeSegment>, i: int)
    requires 0 <= i < |segs|
    ensures |PositionBuffer(segs)| == 6 * |segs|
    ensures PositionBuffer(segs)[6 * i..6 * i + 6] == SegmentVertices(segs[i])
  {
    var init := segs[..|segs| - 1];
    if i < |segs| - 1 {
      PositionBufferAt(init, i);
      assert init[i] == segs[i];
      assert PositionBuffer(segs)[6 * i..6 * i + 6] == PositionBuffer(init)[6 * i..6 * i + 6];
    } else if init != [] {
      PositionBufferAt(init, 0);
    }
  }

  /** Segment `i` owns numbers `6i .. 6i + 6` of the colour buffer: its colour, twice. */
  lemma {:induction false} ColorBufferAt(mode: ColorMode, segs: seq<GCodeSegment>, n: nat, i: int)
    requires n <= |segs| && 0 <= i < n
    ensures |ColorBuffer(mode, segs, n)| == 6 * n
    ensures ColorBuffer(mode, segs, n)[6 * i..6 * i + 6] == SegmentColors(SegmentColor(mode, segs[i], i, |segs|))
  {
    var prev := ColorBuffer(mode, segs, n - 1);
    var last := SegmentColors(SegmentColor(mode, segs[n - 1], n - 1, |segs|));
    assert ColorBuffer(mode, segs, n) == prev + last;
    if i < n - 1 {
      ColorBufferAt(mode, segs, n - 1, i);
      BlockOfSnoc(prev, last, n - 1, i);
    } else {
      if n - 1 > 0 {
        ColorBufferAt(mode, segs, n - 1, 0);
      }
      BlockOfSnoc(prev, last, n - 1, i);
    }
  }

  /** Appending a block of six keeps the earlier blocks and adds the new one at the end. */
  lemma BlockOfSnoc(a: seq<real>, b: seq<real>, m: nat, i: int)
    requires |a| == 6 * m && |b| == 6 && 0 <= i <= m
    ensures |a + b| == 6 * (m + 1)
    ensures i < m ==> (a + b)[6 * i..6 * i + 6] == a[6 * i..6 * i + 6]
    ensures i == m ==> (a + b)[6 * i..6 * i + 6] == b
  {
  }

  /** What a `THREE.LineSegments` child of the path group holds. */
  datatype LineSet = LineSet(positions: seq<real>, colors: seq<real>)

  class PathRenderer {
    var segments: seq<GCodeSegment>
    var colorMode: ColorMode
    /** The children of the path group. */
    var drawn: seq<LineSet>
    /** Whether the path group is attached to the scene. */
    var inScene: bool

    /** The drawing shows the current list in the current mode. */
    predicate ShowsCurrent()
      reads this
    {
      if segments == [] then drawn == []
      else drawn == [LineSet(PositionBuffer(segments), ColorBuffer(colorMode, segments, |segments|))]
    }

    constructor ()
      ensures segments == [] && colorMode == Default && drawn == [] && inScene
    {
      segments := [];
      colorMode := Default;
      drawn := [];
      inScene := true;
    }

    /** `setSegments`: only stores the list; nothing is redrawn. */
    method SetSegments(s: seq<GCodeSegment>)
      modifies this
      ensures segments == s && colorMode == old(colorMode) && drawn == old(drawn) && inScene == old(inScene)
    {
      segments := s;
    }

    /** `setColorMode`: stores the mode and rebuilds. */
    method SetColorMode(mode: ColorMode)
      modifies this
      ensures colorMode == mode && segments == old(segments) && inScene == old(inScene)
      ensures segments != [] ==> ShowsCurrent()
      ensures segments == [] ==> drawn == old(drawn)
    {
      colorMode := mode;
      Rebuild();
    }

    /** `rebuild`: draws again only when there is something to draw. */
    method Rebuild()
      modifies this
      ensures segments == old(segments) && colorMode == old(colorMode) && inScene == old(inScene)
      ensures segments != [] ==> ShowsCurrent()
      ensures segments == [] ==> drawn == old(drawn)
    {
      if |segments| > 0 {
        BuildVisuals();
      }
    }

    /** `clearPaths`: removes every child of the group. */
    method ClearPaths()
      modifies this
      ensures drawn == [] && segments == old(segments) && colorMode == old(colorMode) && inScene == old(inScene)
    {
      while |drawn| > 0
        invariant segments == old(segments) && colorMode == old(colorMode) && inScene == old(inScene)
        decreases |drawn|
      {
        drawn := drawn[1..];
      }
    }

    /** `buildVisuals`: clears, then draws one line set with two vertices per segment. */
    method BuildVisuals()
      modifies this
      ensures ShowsCurrent()
      ensures segments == old(segments) && colorMode == old(colorMode) && inScene == old(inScene)
    {
      ClearPaths();
      if |segments| == 0 {
        return;
      }
      var positions: seq<real> := [];
      var colors: seq<real> := [];
      assert segments[..0] == [];
      for i := 0 to |segments|
        invariant positions == PositionBuffer(segments[..i])
        invariant colors == ColorBuffer(colorMode, segments, i)
      {
        var segment := segments[i];
        positions := positions + [segment.from.x, segment.from.z, segment.from.y];
        positions := positions + [segment.to.x, segment.to.z, segment.to.y];
        var color := SegmentColor(colorMode, segment, i, |segments|);
        colors := colors + [color.r, color.g, color.b];
        colors := colors + [color.r, color.g, color.b];
        assert segments[..i + 1][..i] == segments[..i];
      }
      assert segments[..|segments|] == segments;
      drawn := drawn + [LineSet(positions, colors)];
    }

    /** `dispose`: clears the drawing and detaches the group from the scene. */
    method Dispose()
      modifies this
      ensures drawn == [] && !inScene && segments == old(segments) && colorMode == old(colorMode)
    {
      ClearPaths();
      inScene := false;
    }
  }
}
