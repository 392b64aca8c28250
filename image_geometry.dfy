/** The geometric half of lib/ImageProcessor.ts: Douglas-Peucker simplification of a traced
    contour, the point-to-chord distance it uses, and the uniform fit of contours onto the stock. */
module ImageGeometry {
  import opened Js

  /** `ImageEdge`: a point of a contour, in pixels until it is scaled onto the stock. */
  datatype ImageEdge = ImageEdge(x: real, y: real)

  /** `ImageContour`. */
  datatype ImageContour = ImageContour(points: seq<ImageEdge>, isClosed: bool)

  // ---------------------------------------------------------------- distance to a chord

  /** The squared distance between two points, `dx * dx + dy * dy`. */
  function SquaredDistance(p: ImageEdge, q: ImageEdge): (r: real)
    ensures 0.0 <= r
    ensures p == q ==> r == 0.0
  {
    Square(p.x - q.x);
    Square(p.y - q.y);
    (p.x - q.x) * (p.x - q.x) + (p.y - q.y) * (p.y - q.y)
  }

  /** `perpendicularDistance(point, lineStart, lineEnd)`: the distance from `point` to the line
      through the chord, or to `lineStart` itself when the chord has zero length. */
  function PerpendicularDistance(m: MathLib, point: ImageEdge, lineStart: ImageEdge, lineEnd: ImageEdge): (r: real)
    ensures Sound(m) ==> 0.0 <= r
    ensures Sound(m) && lineStart == lineEnd ==> r == Sqrt(m, SquaredDistance(point, lineStart))
  {
    var dx := lineEnd.x - lineStart.x;
    var dy := lineEnd.y - lineStart.y;
    var norm := Sqrt(m, SquaredDistance(lineEnd, lineStart));
    if norm == 0.0 then Sqrt(m, SquaredDistance(point, lineStart))
    else Abs(dy * point.x - dx * point.y + lineEnd.x * lineStart.y - lineEnd.y * lineStart.x) / norm
  }

  /** Both ends of the chord lie on it: their distance is zero. */
  lemma ChordEndsOnChord(m: MathLib, a: ImageEdge, b: ImageEdge)
    requires Sound(m)
    ensures PerpendicularDistance(m, a, a, b) == 0.0
    ensures PerpendicularDistance(m, b, a, b) == 0.0
  {
    var dx := b.x - a.x;
    var dy := b.y - a.y;
    assert dy * a.x - dx * a.y + b.x * a.y - b.y * a.x == 0.0 by {
      assert dy * a.x == b.y * a.x - a.y * a.x;
      assert dx * a.y == b.x * a.y - a.x * a.y;
    }
    assert dy * b.x - dx * b.y + b.x * a.y - b.y * a.x == 0.0 by {
      assert dy * b.x == b.y * b.x - a.y * b.x;
      assert dx * b.y == b.x * b.y - a.x * b.y;
    }
  }

  // ---------------------------------------------------------------- the farthest point

  /** A point-to-chord distance: `PerpendicularDistance` in the source, any such function in
      the lemmas about the simplification. */
  type Distance = (ImageEdge, ImageEdge, ImageEdge) -> real

  /** `perpendicularDistance` as a function value. */
  function Perpendicular(m: MathLib): Distance {
    (p, a, b) => PerpendicularDistance(m, p, a, b)
  }

  /** Distance of point `i` from the chord joining the first and last points. */
  function ChordDistance(dist: Distance, points: seq<ImageEdge>, i: int): real
    requires 0 <= i < |points|
  {
    dist(points[i], points[0], points[|points| - 1])
  }

  /** The scan of `douglasPeucker` over points 1 .. n-1: the running maximum distance, starting
      at 0, and the index where it was first reached, starting at 0. */
  function Farthest(dist: Distance, points: seq<ImageEdge>, n: nat): (r: (real, nat))
    requires 1 <= n <= |points|
    ensures 0.0 <= r.0 && r.1 < n
    ensures r.1 == 0 <==> r.0 == 0.0
  {
    if n == 1 then (0.0, 0)
    else
      var best := Farthest(dist, points, n - 1);
      var d := ChordDistance(dist, points, n - 1);
      if d > best.0 then (d, n - 1) else best
  }

  /** The scan finds the first point of strictly greatest distance, if some point is at a
      positive distance; otherwise it reports index 0 and distance 0. */
  lemma {:induction false} FarthestFacts(dist: Distance, points: seq<ImageEdge>, n: nat)
    requires 1 <= n <= |points|
    ensures Farthest(dist, points, n).1 >= 1 ==> Farthest(dist, points, n).0 == ChordDistance(dist, points, Farthest(dist, points, n).1)
    ensures forall i :: 1 <= i < n ==> ChordDistance(dist, points, i) <= Farthest(dist, points, n).0
    ensures forall i :: 1 <= i < Farthest(dist, points, n).1 ==> ChordDistance(dist, points, i) < Farthest(dist, points, n).0
  {
    if n > 1 {
      FarthestFacts(dist, points, n - 1);
    }
  }

  // ---------------------------------------------------------------- Douglas-Peucker

  /** `douglasPeucker(points, epsilon)`: short lists unchanged; otherwise split at the farthest
      point when it lies beyond `epsilon`, else keep only the two ends. A negative `epsilon`
      makes the source recurse forever on a straight run, hence the precondition. */
  function Simplify(dist: Distance, points: seq<ImageEdge>, epsilon: real): (r: seq<ImageEdge>)
    requires 0.0 <= epsilon
    ensures |points| < 3 ==> r == points
    ensures 2 <= |points| ==> 2 <= |r| <= |points| && r[0] == points[0] && r[|r| - 1] == points[|points| - 1]
    decreases |points|, 1
  {
    if |points| < 3 then points
    else
      var best := Farthest(dist, points, |points| - 1);
      if best.0 > epsilon then SplitAt(dist, points, epsilon, best.1)
      else [points[0], points[|points| - 1]]
  }

  /** The split branch of `douglasPeucker`: both halves share point `k`, which appears once in
      the result. */
  function SplitAt(dist: Distance, points: seq<ImageEdge>, epsilon: real, k: nat): (r: seq<ImageEdge>)
    requires 0.0 <= epsilon && 1 <= k < |points| - 1
    ensures 2 <= |r| <= |points| && r[0] == points[0] && r[|r| - 1] == points[|points| - 1]
    decreases |points|, 0
  {
    var left := Simplify(dist, points[..k + 1], epsilon);
    var right := Simplify(dist, points[k..], epsilon);
    left[..|left| - 1] + right
  }

  /** `s` is `t` with some elements dropped, read through the strictly increasing positions `idx`. */
  ghost predicate SubsequenceAt(s: seq<ImageEdge>, t: seq<ImageEdge>, idx: seq<nat>) {
    && |idx| == |s|
    && (forall k :: 0 <= k < |s| ==> idx[k] < |t| && s[k] == t[idx[k]])
    && (forall k :: 0 <= k < |idx| - 1 ==> idx[k] < idx[k + 1])
  }

  /** The positions of the simplified points in the input: the first and the last are kept. */
  lemma {:induction false} SimplifyPositions(dist: Distance, points: seq<ImageEdge>, epsilon: real)
      returns (idx: seq<nat>)
    requires 0.0 <= epsilon
    ensures SubsequenceAt(Simplify(dist, points, epsilon), points, idx)
    ensures 2 <= |points| ==> idx[0] == 0 && idx[|idx| - 1] == |points| - 1
    decreases |points|, 1
  {
    if |points| < 3 {
      idx := seq(|points|, k requires 0 <= k < |points| => k);
    } else if Farthest(dist, points, |points| - 1).0 > epsilon {
      idx := SplitPositions(dist, points, epsilon);
    } else {
      assert Simplify(dist, points, epsilon) == [points[0], points[|points| - 1]];
      idx := [0, |points| - 1];
    }
  }

  /** The split case of `SimplifyPositions`. */
  lemma {:induction false} SplitPositions(dist: Distance, points: seq<ImageEdge>, epsilon: real)
      returns (idx: seq<nat>)
    requires 0.0 <= epsilon && 3 <= |points| && Farthest(dist, points, |points| - 1).0 > epsilon
    ensures SubsequenceAt(Simplify(dist, points, epsilon), points, idx)
    ensures idx[0] == 0 && idx[|idx| - 1] == |points| - 1
    decreases |points|, 0
  {
    FarthestFacts(dist, points, |points| - 1);
    var k := Farthest(dist, points, |points| - 1).1;
    var lp, rp := points[..k + 1], points[k..];
    var il := SimplifyPositions(dist, lp, epsilon);
    var ir := SimplifyPositions(dist, rp, epsilon);
    var left, right := Simplify(dist, lp, epsilon), Simplify(dist, rp, epsilon);
    assert Simplify(dist, points, epsilon) == SplitAt(dist, points, epsilon, k) == left[..|left| - 1] + right;
    idx := JoinPositions(left, right, points, k, il, ir);
  }

  /** Gluing the positions of the two halves, which share the split point `k`. */
  lemma JoinPositions(left: seq<ImageEdge>, right: seq<ImageEdge>, points: seq<ImageEdge>, k: nat,
                      il: seq<nat>, ir: seq<nat>) returns (idx: seq<nat>)
    requires k < |points| && 2 <= |left| && 1 <= |right|
    requires SubsequenceAt(left, points[..k + 1], il) && il[|il| - 1] == k
    requires SubsequenceAt(right, points[k..], ir) && ir[0] == 0
    ensures SubsequenceAt(left[..|left| - 1] + right, points, idx)
    ensures idx[0] == il[0] && idx[|idx| - 1] == ir[|ir| - 1] + k
  {
    var shifted := seq(|ir|, j requires 0 <= j < |ir| => ir[j] + k);
    idx := il[..|il| - 1] + shifted;
    var r := left[..|left| - 1] + right;
    forall q | 0 <= q < |r|
      ensures idx[q] < |points| && r[q] == points[idx[q]]
    {
      if q < |left| - 1 {
        assert r[q] == left[q] == points[..k + 1][il[q]];
      } else {
        var j := q - (|left| - 1);
        assert r[q] == right[j] == points[k..][ir[j]];
      }
    }
    assert il[|il| - 2] < il[|il| - 1] == k;
  }

  /** The simplified contour is a subsequence of the traced one; every kept point is an input
      point. */
  lemma SimplifyIsSubsequence(dist: Distance, points: seq<ImageEdge>, epsilon: real)
    requires 0.0 <= epsilon
    ensures exists idx :: SubsequenceAt(Simplify(dist, points, epsilon), points, idx)
    ensures forall p :: p in Simplify(dist, points, epsilon) ==> p in points
  {
    var idx := SimplifyPositions(dist, points, epsilon);
    var r := Simplify(dist, points, epsilon);
    forall p | p in r
      ensures p in points
    {
      var k :| 0 <= k < |r| && r[k] == p;
      assert points[idx[k]] == p;
    }
  }

  /** When no interior point lies beyond `epsilon`, only the two ends remain. */
  lemma AllCloseKeepsEnds(dist: Distance, points: seq<ImageEdge>, epsilon: real)
    requires 0.0 <= epsilon && 3 <= |points|
    requires forall i :: 1 <= i < |points| - 1 ==> ChordDistance(dist, points, i) <= epsilon
    ensures Simplify(dist, points, epsilon) == [points[0], points[|points| - 1]]
  {
    FarthestFacts(dist, points, |points| - 1);
  }

  /** When some interior point lies beyond `epsilon`, the split happens at the first point of
      greatest distance, and that point survives into the result. */
  lemma FarFirstMaximumKept(dist: Distance, points: seq<ImageEdge>, epsilon: real, far: int)
    requires 0.0 <= epsilon && 3 <= |points|
    requires 1 <= far < |points| - 1 && ChordDistance(dist, points, far) > epsilon
    ensures var k := Farthest(dist, points, |points| - 1).1;
      && 1 <= k < |points| - 1
      && epsilon < ChordDistance(dist, points, k)
      && (forall i :: 1 <= i < |points| - 1 ==> ChordDistance(dist, points, i) <= ChordDistance(dist, points, k))
      && (forall i :: 1 <= i < k ==> ChordDistance(dist, points, i) < ChordDistance(dist, points, k))
      && points[k] in Simplify(dist, points, epsilon)
  {
    FarthestFacts(dist, points, |points| - 1);
    var k := Farthest(dist, points, |points| - 1).1;
    var left := Simplify(dist, points[..k + 1], epsilon);
    var right := Simplify(dist, points[k..], epsilon);
    assert Simplify(dist, points, epsilon) == SplitAt(dist, points, epsilon, k) == left[..|left| - 1] + right;
    assert right[0] == points[k];
  }

  /** The method of the source: the scan is a loop, the halves are recursive calls. */
  method DouglasPeucker(m: MathLib, points: seq<ImageEdge>, epsilon: real) returns (r: seq<ImageEdge>)
    requires 0.0 <= epsilon
    ensures r == Simplify(Perpendicular(m), points, epsilon)
    decreases |points|
  {
    if |points| < 3 {
      return points;
    }
    var maxDist := 0.0;
    var index: nat := 0;
    var end := |points| - 1;
    for i := 1 to end
      invariant (maxDist, index) == Farthest(Perpendicular(m), points, i)
    {
      var dist := PerpendicularDistance(m, points[i], points[0], points[end]);
      if dist > maxDist {
        maxDist := dist;
        index := i;
      }
    }
    assert Farthest(Perpendicular(m), points, end) == (maxDist, index);
    if maxDist > epsilon {
      FarthestFacts(Perpendicular(m), points, end);
      var left := DouglasPeucker(m, points[..index + 1], epsilon);
      var right := DouglasPeucker(m, points[index..], epsilon);
      return left[..|left| - 1] + right;
    }
    return [points[0], points[end]];
  }

  // ---------------------------------------------------------------- fitting onto the stock

  datatype OriginX = Left | CenterX | Right
  datatype OriginY = Top | CenterY | Bottom

  /** The one scale used on both axes: the smaller of the two stock-to-image ratios. */
  function StockScale(imageWidth: real, imageHeight: real, stockWidth: real, stockHeight: real): (s: real)
    requires imageWidth != 0.0 && imageHeight != 0.0
    ensures s <= stockWidth / imageWidth && s <= stockHeight / imageHeight
    ensures s == stockWidth / imageWidth || s == stockHeight / imageHeight
  {
    Min(stockWidth / imageWidth, stockHeight / imageHeight)
  }

  /** Where the image's (0, 0) goes: the left edge, the middle or the right edge of the stock. */
  function OffsetX(origin: OriginX, stockWidth: real): real {
    match origin
    case CenterX => stockWidth / 2.0
    case Right => stockWidth
    case Left => 0.0
  }

  /** Likewise the top edge, the middle or the bottom edge. */
  function OffsetY(origin: OriginY, stockHeight: real): real {
    match origin
    case CenterY => stockHeight / 2.0
    case Bottom => stockHeight
    case Top => 0.0
  }

  function ScalePoints(points: seq<ImageEdge>, s: real, offX: real, offY: real): (r: seq<ImageEdge>)
    ensures |r| == |points|
  {
    seq(|points|, j requires 0 <= j < |points| => ImageEdge(points[j].x * s + offX, points[j].y * s + offY))
  }

  /** `scaleContoursToStock`: every point of every contour scaled by the one stock scale and
      shifted by the origin offsets. */
  function ScaleContoursToStock(contours: seq<ImageContour>, imageWidth: real, imageHeight: real,
                                stockWidth: real, stockHeight: real, originX: OriginX, originY: OriginY)
      : (r: seq<ImageContour>)
    requires imageWidth != 0.0 && imageHeight != 0.0
    ensures |r| == |contours|
    ensures forall i :: 0 <= i < |r| ==>
      && |r[i].points| == |contours[i].points|
      && r[i].isClosed == contours[i].isClosed
  {
    var s := StockScale(imageWidth, imageHeight, stockWidth, stockHeight);
    var offX := OffsetX(originX, stockWidth);
    var offY := OffsetY(originY, stockHeight);
    seq(|contours|, i requires 0 <= i < |contours| =>
      contours[i].(points := ScalePoints(contours[i].points, s, offX, offY)))
  }

  /** The fit is uniform: in every contour, any two points move apart by the same factor on
      both axes, so the drawing keeps its proportions. */
  lemma ScalingIsUniform(contours: seq<ImageContour>, imageWidth: real, imageHeight: real,
                         stockWidth: real, stockHeight: real, originX: OriginX, originY: OriginY,
                         i: int, j: int, k: int)
    requires imageWidth != 0.0 && imageHeight != 0.0
    requires 0 <= i < |contours| && 0 <= j < |contours[i].points| && 0 <= k < |contours[i].points|
    ensures var r := ScaleContoursToStock(contours, imageWidth, imageHeight, stockWidth, stockHeight, originX, originY);
      var s := StockScale(imageWidth, imageHeight, stockWidth, stockHeight);
      var p, q := contours[i].points[j], contours[i].points[k];
      && r[i].points[j].x - r[i].points[k].x == s * (p.x - q.x)
      && r[i].points[j].y - r[i].points[k].y == s * (p.y - q.y)
  {
    var s := StockScale(imageWidth, imageHeight, stockWidth, stockHeight);
    var p, q := contours[i].points[j], contours[i].points[k];
    assert p.x * s - q.x * s == s * (p.x - q.x);
    assert p.y * s - q.y * s == s * (p.y - q.y);
  }

  /** Where each point goes: scaled by the one factor and shifted so that the image's own (0, 0)
      lands on the chosen point of the stock, at x = 0, w/2 or w for left, centre or right and at
      y = 0, h/2 or h for top, centre or bottom. */
  lemma OriginPlacement(contours: seq<ImageContour>, imageWidth: real, imageHeight: real,
                        stockWidth: real, stockHeight: real, originX: OriginX, originY: OriginY,
                        i: int, j: int)
    requires imageWidth != 0.0 && imageHeight != 0.0
    requires 0 <= i < |contours| && 0 <= j < |contours[i].points|
    ensures var r := ScaleContoursToStock(contours, imageWidth, imageHeight, stockWidth, stockHeight, originX, originY);
      var s := StockScale(imageWidth, imageHeight, stockWidth, stockHeight);
      var p := contours[i].points[j];
      var ox := match originX case Left => 0.0 case CenterX => stockWidth / 2.0 case Right => stockWidth;
      var oy := match originY case Top => 0.0 case CenterY => stockHeight / 2.0 case Bottom => stockHeight;
      r[i].points[j] == ImageEdge(p.x * s + ox, p.y * s + oy)
  {
  }

  /** With the origin at the top left, an image-sized drawing lands inside the stock. */
  lemma TopLeftFitsStock(contours: seq<ImageContour>, imageWidth: real, imageHeight: real,
                         stockWidth: real, stockHeight: real)
    requires 0.0 < imageWidth && 0.0 < imageHeight && 0.0 <= stockWidth && 0.0 <= stockHeight
    requires forall i, j :: 0 <= i < |contours| && 0 <= j < |contours[i].points| ==>
      var p := contours[i].points[j];
      0.0 <= p.x <= imageWidth && 0.0 <= p.y <= imageHeight
    ensures var r := ScaleContoursToStock(contours, imageWidth, imageHeight, stockWidth, stockHeight, Left, Top);
      forall i, j :: 0 <= i < |r| && 0 <= j < |r[i].points| ==>
        var p := r[i].points[j];
        0.0 <= p.x <= stockWidth && 0.0 <= p.y <= stockHeight
  {
    var s := StockScale(imageWidth, imageHeight, stockWidth, stockHeight);
    var r := ScaleContoursToStock(contours, imageWidth, imageHeight, stockWidth, stockHeight, Left, Top);
    assert 0.0 <= s by {
      assert 0.0 <= stockWidth / imageWidth && 0.0 <= stockHeight / imageHeight;
    }
    forall i, j | 0 <= i < |r| && 0 <= j < |r[i].points|
      ensures 0.0 <= r[i].points[j].x <= stockWidth && 0.0 <= r[i].points[j].y <= stockHeight
    {
      var p := contours[i].points[j];
      assert r[i].points[j] == ImageEdge(p.x * s + 0.0, p.y * s + 0.0);
      FitsUnder(p.x, s, imageWidth, stockWidth);
      FitsUnder(p.y, s, imageHeight, stockHeight);
    }
  }

  /** A coordinate in [0, size] scaled by at most stock/size lands in [0, stock]. */
  lemma FitsUnder(v: real, s: real, size: real, stock: real)
    requires 0.0 < size && 0.0 <= v <= size && 0.0 <= s <= stock / size
    ensures 0.0 <= v * s <= stock
  {
    assert v * s <= size * s;
    assert size * s <= size * (stock / size);
  }
}
