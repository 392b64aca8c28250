/** The pixel half of lib/ImageProcessor.ts: threshold edge detection over RGBA bytes and the
    flood-fill tracing of edge pixels into contours, with one `visited` grid shared by all traces. */
module ImageProcessor {
  import opened Js
  import opened ImageGeometry

  type Byte = b: int | 0 <= b < 256

  /** `ImageData`: `width * height` pixels, row-major, four bytes (R, G, B, A) per pixel. */
  datatype ImageData = ImageData(width: nat, height: nat, data: seq<Byte>)

  predicate WellFormed(img: ImageData) {
    |img.data| == 4 * img.width * img.height
  }

  // ---------------------------------------------------------------- edge detection

  lemma MulLe(a: int, b: int, c: int)
    requires a <= b && 0 <= c
    ensures a * c <= b * c
  {
    assert b * c - a * c == (b - a) * c;
  }

  /** A pixel inside the image has its four bytes inside the data. */
  lemma PixelIndex(width: nat, height: nat, x: int, y: int)
    requires 0 <= x < width && 0 <= y < height
    ensures 0 <= (y * width + x) * 4 && (y * width + x) * 4 + 3 < 4 * width * height
  {
    MulLe(0, y, width);
    MulLe(y + 1, height, width);
    assert (y + 1) * width == y * width + width;
    assert 4 * width * height == 4 * (height * width);
  }

  /** `getBrightness`: the mean of the red, green and blue bytes of pixel (x, y); alpha is not read. */
  function GetBrightness(data: seq<Byte>, x: int, y: int, width: int): (b: real)
    requires 0 <= (y * width + x) * 4 && (y * width + x) * 4 + 2 < |data|
    ensures 0.0 <= b <= 255.0
  {
    var idx := (y * width + x) * 4;
    (data[idx] as real + data[idx + 1] as real + data[idx + 2] as real) / 3.0
  }

  /** The brightness of a pixel of a well-formed image. */
  function Brightness(img: ImageData, x: int, y: int): real
    requires WellFormed(img) && 0 <= x < img.width && 0 <= y < img.height
  {
    PixelIndex(img.width, img.height, x, y);
    GetBrightness(img.data, x, y, img.width)
  }

  /** A pixel off the one-pixel border. */
  predicate Interior(width: int, height: int, x: int, y: int) {
    1 <= x <= width - 2 && 1 <= y <= height - 2
  }

  /** An edge pixel: an interior pixel darker than the threshold with at least one of its four
      neighbours brighter than it. */
  predicate IsEdge(img: ImageData, threshold: real, x: int, y: int)
    requires WellFormed(img)
  {
    && Interior(img.width, img.height, x, y)
    && Brightness(img, x, y) < threshold
    && AnyAbove(NeighbourBrightness(img, x, y), threshold)
  }

  /** The brightness of the four neighbours, in the order `detectEdges` lists them. */
  function NeighbourBrightness(img: ImageData, x: int, y: int): seq<real>
    requires WellFormed(img) && Interior(img.width, img.height, x, y)
  {
    [Brightness(img, x - 1, y), Brightness(img, x + 1, y), Brightness(img, x, y - 1), Brightness(img, x, y + 1)]
  }

  /** `values.some(n => n > threshold)`. */
  predicate AnyAbove(values: seq<real>, threshold: real) {
    exists n :: n in values && n > threshold
  }

  /** The four neighbours are the pixels left, right, above and below. */
  lemma EdgeNeighbours(img: ImageData, threshold: real, x: int, y: int)
    requires WellFormed(img) && Interior(img.width, img.height, x, y)
    ensures AnyAbove(NeighbourBrightness(img, x, y), threshold) <==>
      || Brightness(img, x - 1, y) > threshold
      || Brightness(img, x + 1, y) > threshold
      || Brightness(img, x, y - 1) > threshold
      || Brightness(img, x, y + 1) > threshold
  {
    var ns := NeighbourBrightness(img, x, y);
    if Brightness(img, x - 1, y) > threshold { assert ns[0] in ns; }
    if Brightness(img, x + 1, y) > threshold { assert ns[1] in ns; }
    if Brightness(img, x, y - 1) > threshold { assert ns[2] in ns; }
    if Brightness(img, x, y + 1) > threshold { assert ns[3] in ns; }
  }

  /** `detectEdges`: a fresh `height` by `width` grid that is true exactly at the edge pixels,
      and so false on the whole border. */
  method DetectEdges(img: ImageData, threshold: real) returns (edges: array2<bool>)
    requires WellFormed(img)
    ensures fresh(edges) && edges.Length0 == img.height && edges.Length1 == img.width
    ensures forall y, x :: 0 <= y < img.height && 0 <= x < img.width ==>
      edges[y, x] == IsEdge(img, threshold, x, y)
  {
    edges := new bool[img.height, img.width]((_, _) => false);
    var y := 1;
    while y < img.height - 1
      invariant 1 <= y
      invariant forall r, c :: 0 <= r < img.height && 0 <= c < img.width ==>
        edges[r, c] == (r < y && IsEdge(img, threshold, c, r))
    {
      DetectRow(img, threshold, edges, y);
      y := y + 1;
    }
  }

  /** The inner loop of `detectEdges`: row `y`, still all false, becomes its edge pixels. */
  method DetectRow(img: ImageData, threshold: real, edges: array2<bool>, y: int)
    requires WellFormed(img) && edges.Length0 == img.height && edges.Length1 == img.width
    requires 1 <= y < img.height - 1
    requires forall c :: 0 <= c < img.width ==> !edges[y, c]
    modifies edges
    ensures forall r, c :: 0 <= r < img.height && 0 <= c < img.width ==>
      edges[r, c] == if r == y then IsEdge(img, threshold, c, r) else old(edges[r, c])
  {
    var x := 1;
    while x < img.width - 1
      invariant 1 <= x
      invariant forall r, c :: 0 <= r < img.height && 0 <= c < img.width ==>
        edges[r, c] == if r == y && c < x then IsEdge(img, threshold, c, r) else old(edges[r, c])
    {
      var edge := EdgeAt(img, threshold, x, y);
      if edge {
        edges[y, x] := true;
      }
      x := x + 1;
    }
  }

  /** The test of one interior pixel in `detectEdges`. */
  method EdgeAt(img: ImageData, threshold: real, x: int, y: int) returns (edge: bool)
    requires WellFormed(img) && Interior(img.width, img.height, x, y)
    ensures edge == IsEdge(img, threshold, x, y)
  {
    var brightness := Brightness(img, x, y);
    edge := false;
    if brightness < threshold {
      var neighbors := NeighbourBrightness(img, x, y);
      edge := AnyAbove(neighbors, threshold);
    }
  }

  // ---------------------------------------------------------------- contour tracing

  /** A pixel position (x, y). */
  type Cell = (int, int)

  /** The eight neighbours of a cell, in the order of `directions`. */
  function Neighbours(c: Cell): seq<Cell> {
    [(c.0 - 1, c.1), (c.0 + 1, c.1), (c.0, c.1 - 1), (c.0, c.1 + 1),
     (c.0 - 1, c.1 - 1), (c.0 - 1, c.1 + 1), (c.0 + 1, c.1 - 1), (c.0 + 1, c.1 + 1)]
  }

  /** 8-connectivity. */
  predicate Adjacent(p: Cell, q: Cell) {
    p != q && -1 <= q.0 - p.0 <= 1 && -1 <= q.1 - p.1 <= 1
  }

  /** The pushed directions are exactly the eight neighbours. */
  lemma NeighboursAreAdjacent(c: Cell)
    ensures forall q :: q in Neighbours(c) <==> Adjacent(c, q)
  {
    forall q | Adjacent(c, q)
      ensures q in Neighbours(c)
    {
      var dx, dy := q.0 - c.0, q.1 - c.1;
      if dx == -1 && dy == 0 { assert q == Neighbours(c)[0]; }
      else if dx == 1 && dy == 0 { assert q == Neighbours(c)[1]; }
      else if dx == 0 && dy == -1 { assert q == Neighbours(c)[2]; }
      else if dx == 0 && dy == 1 { assert q == Neighbours(c)[3]; }
      else if dx == -1 && dy == -1 { assert q == Neighbours(c)[4]; }
      else if dx == -1 && dy == 1 { assert q == Neighbours(c)[5]; }
      else if dx == 1 && dy == -1 { assert q == Neighbours(c)[6]; }
      else { assert q == Neighbours(c)[7]; }
    }
  }

  /** An in-bounds edge pixel. */
  predicate IsEdgeCell(edges: array2<bool>, c: Cell)
    reads edges
  {
    0 <= c.1 < edges.Length0 && 0 <= c.0 < edges.Length1 && edges[c.1, c.0]
  }

  /** An in-bounds visited pixel. */
  predicate Marked(visited: array2<bool>, c: Cell)
    reads visited
  {
    0 <= c.1 < visited.Length0 && 0 <= c.0 < visited.Length1 && visited[c.1, c.0]
  }

  /** Every edge neighbour of a visited pixel is visited: the visited pixels are whole
      8-connected components of the edge pixels. */
  ghost predicate Closed(edges: array2<bool>, visited: array2<bool>)
    reads edges, visited
  {
    forall p, q :: Marked(visited, p) && Adjacent(p, q) && IsEdgeCell(edges, q) ==> Marked(visited, q)
  }

  /** Some earlier recorded point is a neighbour of `q`. */
  ghost predicate Reached(points: seq<Cell>, q: Cell) {
    exists j :: 0 <= j < |points| && Adjacent(points[j], q)
  }

  ghost function Elements(s: seq<Cell>): set<Cell> {
    set c | c in s
  }

  ghost function Grid(width: nat, height: nat): set<Cell> {
    set x, y | 0 <= x < width && 0 <= y < height :: (x, y)
  }

  /** The pixel positions as contour points. */
  function Edges(cells: seq<Cell>): (r: seq<ImageEdge>)
    ensures |r| == |cells|
  {
    seq(|cells|, i requires 0 <= i < |cells| => ImageEdge(cells[i].0 as real, cells[i].1 as real))
  }

  /** The contour `traceContour` returns for the raw trace `points`. */
  function ContourOf(m: MathLib, points: seq<Cell>): ImageContour {
    ImageContour(Simplify(Perpendicular(m), Edges(points), 2.0), |points| > 10)
  }

  /** Popping the top leaves every other element of the stack on it. */
  lemma PopKeeps(stack: seq<Cell>, q: Cell)
    requires q in stack && q != stack[|stack| - 1]
    ensures q in stack[..|stack| - 1]
  {
    var i :| 0 <= i < |stack| && stack[i] == q;
    assert stack[..|stack| - 1][i] == q;
  }

  /** A set of cells closed under edge neighbours: a union of whole 8-connected components of
      the edge pixels. */
  ghost predicate ClosedSet(edges: array2<bool>, s: set<Cell>)
    reads edges
  {
    forall p, q :: p in s && Adjacent(p, q) && IsEdgeCell(edges, q) ==> q in s
  }

  /** Nothing more is owed for `q`: it is not an edge pixel, or it was visited before the walk,
      or it is recorded, or it is still on the stack. */
  ghost predicate Settled(edges: array2<bool>, pre: set<Cell>, raw: seq<Cell>, stack: seq<Cell>, q: Cell)
    reads edges
  {
    !IsEdgeCell(edges, q) || q in pre || q in raw || q in stack
  }

  /** The invariant of the walk of `traceContour` from `start`, given the cells `pre` visited
      before it: the trace so far and the stack. */
  ghost predicate WalkInv(edges: array2<bool>, pre: set<Cell>, start: Cell, raw: seq<Cell>, stack: seq<Cell>)
    reads edges
  {
    && (forall i, j :: 0 <= i < j < |raw| ==> raw[i] != raw[j])
    && (forall c :: c in raw ==> IsEdgeCell(edges, c) && c !in pre)
    && (raw == [] ==> stack == [start] || (stack == [] && !(IsEdgeCell(edges, start) && start !in pre)))
    && (raw != [] ==> raw[0] == start)
    && (forall s :: s in stack ==> s == start || Reached(raw, s))
    && (forall k :: 0 < k < |raw| ==> Reached(raw[..k], raw[k]))
    && (forall p, q :: p in raw && Adjacent(p, q) ==> Settled(edges, pre, raw, stack, q))
  }

  lemma ReachedGrows(raw: seq<Cell>, c: Cell, s: Cell)
    requires Reached(raw, s)
    ensures Reached(raw + [c], s)
  {
    var j :| 0 <= j < |raw| && Adjacent(raw[j], s);
    assert (raw + [c])[j] == raw[j];
  }

  /** A popped cell that is skipped keeps the invariant. */
  lemma SkipStep(edges: array2<bool>, pre: set<Cell>, start: Cell, raw: seq<Cell>, before: seq<Cell>, c: Cell)
    requires |before| > 0 && c == before[|before| - 1]
    requires WalkInv(edges, pre, start, raw, before)
    requires !IsEdgeCell(edges, c) || c in pre || c in raw
    ensures WalkInv(edges, pre, start, raw, before[..|before| - 1])
  {
    var stack := before[..|before| - 1];
    forall s | s in stack
      ensures s in before
    {
      var i :| 0 <= i < |stack| && stack[i] == s;
      assert before[i] == s;
    }
    forall p, q | p in raw && Adjacent(p, q)
      ensures Settled(edges, pre, raw, stack, q)
    {
      assert Settled(edges, pre, raw, before, q);
      if q != c && q in before {
        PopKeeps(before, q);
      }
    }
  }

  /** A popped cell that is recorded, with its eight neighbours pushed, keeps the invariant,
      and the set of unrecorded grid cells shrinks. */
  lemma VisitStep(edges: array2<bool>, pre: set<Cell>, start: Cell, raw: seq<Cell>, before: seq<Cell>, c: Cell)
    requires |before| > 0 && c == before[|before| - 1]
    requires WalkInv(edges, pre, start, raw, before)
    requires IsEdgeCell(edges, c) && c !in pre && c !in raw
    ensures WalkInv(edges, pre, start, raw + [c], before[..|before| - 1] + Neighbours(c))
    ensures Grid(edges.Length1, edges.Length0) - Elements(raw + [c]) < Grid(edges.Length1, edges.Length0) - Elements(raw)
  {
    assert c == start || Reached(raw, c);
    if raw != [] {
      assert raw[0] == start;
    }
    VisitReaches(start, raw, before, c);
    VisitLinks(raw, c);
    VisitSettles(edges, pre, raw, before, c);
    VisitShrinks(raw, c, edges.Length1, edges.Length0);
  }

  lemma VisitReaches(start: Cell, raw: seq<Cell>, before: seq<Cell>, c: Cell)
    requires |before| > 0 && c == before[|before| - 1]
    requires forall s :: s in before ==> s == start || Reached(raw, s)
    ensures forall s :: s in before[..|before| - 1] + Neighbours(c) ==> s == start || Reached(raw + [c], s)
  {
    NeighboursAreAdjacent(c);
    forall s | s in before[..|before| - 1] + Neighbours(c)
      ensures s == start || Reached(raw + [c], s)
    {
      if s in before[..|before| - 1] {
        var i :| 0 <= i < |before| - 1 && before[..|before| - 1][i] == s;
        assert before[i] == s;
        if s != start {
          ReachedGrows(raw, c, s);
        }
      } else {
        assert Adjacent((raw + [c])[|raw|], s);
      }
    }
  }

  lemma VisitLinks(raw: seq<Cell>, c: Cell)
    requires forall k :: 0 < k < |raw| ==> Reached(raw[..k], raw[k])
    requires raw != [] ==> Reached(raw, c)
    ensures forall k :: 0 < k < |raw + [c]| ==> Reached((raw + [c])[..k], (raw + [c])[k])
  {
    forall k | 0 < k < |raw + [c]|
      ensures Reached((raw + [c])[..k], (raw + [c])[k])
    {
      if k < |raw| {
        assert (raw + [c])[..k] == raw[..k];
      } else {
        assert (raw + [c])[..k] == raw;
      }
    }
  }

  lemma VisitSettles(edges: array2<bool>, pre: set<Cell>, raw: seq<Cell>, before: seq<Cell>, c: Cell)
    requires |before| > 0 && c == before[|before| - 1]
    requires forall p, q :: p in raw && Adjacent(p, q) ==> Settled(edges, pre, raw, before, q)
    ensures forall p, q :: p in raw + [c] && Adjacent(p, q) ==>
      Settled(edges, pre, raw + [c], before[..|before| - 1] + Neighbours(c), q)
  {
    NeighboursAreAdjacent(c);
    forall p, q | p in raw + [c] && Adjacent(p, q)
      ensures Settled(edges, pre, raw + [c], before[..|before| - 1] + Neighbours(c), q)
    {
      if p == c {
        assert q in Neighbours(c);
      } else {
        assert Settled(edges, pre, raw, before, q);
        if q != c && q in before {
          PopKeeps(before, q);
        }
      }
    }
  }

  lemma VisitShrinks(raw: seq<Cell>, c: Cell, width: nat, height: nat)
    requires 0 <= c.0 < width && 0 <= c.1 < height && c !in raw
    ensures Grid(width, height) - Elements(raw + [c]) < Grid(width, height) - Elements(raw)
  {
    assert c == (c.0, c.1);
    assert c in Grid(width, height);
    assert Elements(raw + [c]) == Elements(raw) + {c};
  }

  /** When the cells visited before form whole components, and every edge neighbour of the
      trace is in the trace or was visited before, the trace is itself whole components. */
  lemma TraceIsComponent(edges: array2<bool>, pre: set<Cell>, raw: seq<Cell>)
    requires ClosedSet(edges, pre)
    requires forall c :: c in raw ==> IsEdgeCell(edges, c) && c !in pre
    requires forall p, q :: p in raw && Adjacent(p, q) && IsEdgeCell(edges, q) ==> q in pre || q in raw
    ensures ClosedSet(edges, Elements(raw))
    ensures ClosedSet(edges, pre + Elements(raw))
  {
    forall p, q | p in raw && Adjacent(p, q) && IsEdgeCell(edges, q)
      ensures q in raw
    {
      if q in pre {
        assert Adjacent(q, p);
        assert false;
      }
    }
  }

  /** `traceContour`: a depth-first walk from the start over 8-neighbours, skipping cells out of
      bounds, already visited or not edges. The raw trace `points` lists distinct, previously
      unvisited edge pixels, starts at the start pixel and reaches each later point from an
      earlier one; exactly these pixels become visited; and when the visited pixels were whole
      components before, they still are and the trace is one whole component. */
  method TraceContour(m: MathLib, edges: array2<bool>, visited: array2<bool>, startX: int, startY: int,
                      width: nat, height: nat)
      returns (contour: ImageContour, ghost points: seq<Cell>)
    requires edges != visited
    requires edges.Length0 == height && edges.Length1 == width
    requires visited.Length0 == height && visited.Length1 == width
    modifies visited
    ensures contour == ContourOf(m, points)
    ensures forall i, j :: 0 <= i < j < |points| ==> points[i] != points[j]
    ensures forall c :: c in points ==> IsEdgeCell(edges, c) && !old(Marked(visited, c))
    ensures forall y, x :: 0 <= y < height && 0 <= x < width ==>
      visited[y, x] == (old(visited[y, x]) || (x, y) in points)
    ensures |points| > 0 <==> IsEdgeCell(edges, (startX, startY)) && !old(Marked(visited, (startX, startY)))
    ensures |points| > 0 ==> points[0] == (startX, startY)
    ensures forall k :: 0 < k < |points| ==> Reached(points[..k], points[k])
    ensures forall p, q :: p in points && Adjacent(p, q) && IsEdgeCell(edges, q) ==> Marked(visited, q)
    ensures old(Closed(edges, visited)) ==> Closed(edges, visited) && ClosedSet(edges, Elements(points))
  {
    var start := (startX, startY);
    ghost var pre := set x, y | 0 <= x < width && 0 <= y < height && visited[y, x] :: (x, y);
    PreMarked(edges, visited, pre, width, height);
    var raw := Walk(edges, visited, pre, start, width, height);
    WalkDone(edges, visited, pre, start, raw, width, height);
    points := raw;
    var simplified := DouglasPeucker(m, Edges(raw), 2.0);
    contour := ImageContour(simplified, |raw| > 10);
  }

  /** The depth-first walk of `traceContour` itself: pops the stack until it is empty, marking
      and recording each unvisited edge pixel in bounds and pushing its eight neighbours. */
  method Walk(edges: array2<bool>, visited: array2<bool>, ghost pre: set<Cell>, start: Cell,
              width: nat, height: nat)
      returns (raw: seq<Cell>)
    requires edges != visited
    requires edges.Length0 == height && edges.Length1 == width
    requires visited.Length0 == height && visited.Length1 == width
    requires forall y, x :: 0 <= y < height && 0 <= x < width ==> (visited[y, x] <==> (x, y) in pre)
    modifies visited
    ensures WalkInv(edges, pre, start, raw, [])
    ensures forall y, x :: 0 <= y < height && 0 <= x < width ==> visited[y, x] == ((x, y) in pre || (x, y) in raw)
  {
    raw := [];
    var stack: seq<Cell> := [start];
    while |stack| > 0
      invariant forall y, x :: 0 <= y < height && 0 <= x < width ==> visited[y, x] == ((x, y) in pre || (x, y) in raw)
      invariant WalkInv(edges, pre, start, raw, stack)
      decreases Grid(width, height) - Elements(raw), |stack|
    {
      var c := stack[|stack| - 1];
      ghost var before := stack;
      stack := stack[..|stack| - 1];
      var x, y := c.0, c.1;
      if x < 0 || x >= width || y < 0 || y >= height {
        SkipStep(edges, pre, start, raw, before, c);
        continue;
      }
      assert c == (x, y);
      if visited[y, x] || !edges[y, x] {
        SkipStep(edges, pre, start, raw, before, c);
        continue;
      }
      VisitStep(edges, pre, start, raw, before, c);
      visited[y, x] := true;
      raw := raw + [c];
      stack := stack + Neighbours(c);
    }
  }

  /** The cells visited before the walk, as a set. */
  lemma PreMarked(edges: array2<bool>, visited: array2<bool>, pre: set<Cell>, width: nat, height: nat)
    requires visited.Length0 == height && visited.Length1 == width
    requires pre == set x, y | 0 <= x < width && 0 <= y < height && visited[y, x] :: (x, y)
    ensures forall y, x :: 0 <= y < height && 0 <= x < width ==> (visited[y, x] <==> (x, y) in pre)
    ensures forall q :: Marked(visited, q) <==> q in pre
    ensures forall q :: q in pre ==> 0 <= q.0 < width && 0 <= q.1 < height
    ensures Closed(edges, visited) ==> ClosedSet(edges, pre)
  {
    forall q | Marked(visited, q)
      ensures q in pre
    {
      assert q == (q.0, q.1);
    }
  }

  /** What the empty stack leaves: every edge neighbour of the trace is visited, the trace is
      non-empty exactly when the start was an unvisited edge pixel, and visited components stay
      whole. */
  lemma WalkDone(edges: array2<bool>, visited: array2<bool>, pre: set<Cell>, start: Cell, raw: seq<Cell>,
                 width: nat, height: nat)
    requires edges.Length0 == height && edges.Length1 == width
    requires visited.Length0 == height && visited.Length1 == width
    requires WalkInv(edges, pre, start, raw, [])
    requires forall q :: q in pre ==> 0 <= q.0 < width && 0 <= q.1 < height
    requires forall y, x :: 0 <= y < height && 0 <= x < width ==> visited[y, x] == ((x, y) in pre || (x, y) in raw)
    ensures forall q :: Marked(visited, q) <==> q in pre || q in raw
    ensures forall p, q :: p in raw && Adjacent(p, q) && IsEdgeCell(edges, q) ==> Marked(visited, q)
    ensures |raw| > 0 <==> IsEdgeCell(edges, start) && start !in pre
    ensures ClosedSet(edges, pre) ==> Closed(edges, visited) && ClosedSet(edges, Elements(raw))
  {
    forall q | q in pre || q in raw
      ensures Marked(visited, q)
    {
      if q in raw {
        assert IsEdgeCell(edges, q);
      }
      assert q == (q.0, q.1);
    }
    forall p, q | p in raw && Adjacent(p, q) && IsEdgeCell(edges, q)
      ensures q in pre || q in raw
    {
      assert Settled(edges, pre, raw, [], q);
    }
    if raw != [] {
      assert raw[0] in raw;
    }
    if ClosedSet(edges, pre) {
      TraceIsComponent(edges, pre, raw);
      assert forall q :: Marked(visited, q) <==> q in pre + Elements(raw);
    }
  }

  /** A trace as `traceContour` leaves it: distinct edge pixels, each after the first adjacent to
      an earlier one, forming a whole 8-connected component of edge pixels. */
  ghost predicate Component(edges: array2<bool>, t: seq<Cell>)
    reads edges
  {
    && |t| > 0
    && (forall i, j :: 0 <= i < j < |t| ==> t[i] != t[j])
    && (forall c :: c in t ==> IsEdgeCell(edges, c))
    && (forall k :: 0 < k < |t| ==> Reached(t[..k], t[k]))
    && ClosedSet(edges, Elements(t))
  }

  /** No two traces share a pixel. */
  ghost predicate Disjoint(traced: seq<seq<Cell>>) {
    forall i, j :: 0 <= i < j < |traced| ==> Elements(traced[i]) !! Elements(traced[j])
  }

  /** Traces that are components and share no pixel. */
  ghost predicate Partition(edges: array2<bool>, traced: seq<seq<Cell>>)
    reads edges
  {
    (forall i :: 0 <= i < |traced| ==> Component(edges, traced[i])) && Disjoint(traced)
  }

  /** All pixels of a sequence of traces. */
  ghost function Union(ts: seq<seq<Cell>>): set<Cell> {
    if |ts| == 0 then {} else Union(ts[..|ts| - 1]) + Elements(ts[|ts| - 1])
  }

  lemma {:induction false} UnionHas(ts: seq<seq<Cell>>, c: Cell)
    ensures c in Union(ts) <==> exists i :: 0 <= i < |ts| && c in ts[i]
  {
    if |ts| > 0 {
      var front := ts[..|ts| - 1];
      UnionHas(front, c);
      if c in Union(front) {
        var i :| 0 <= i < |front| && c in front[i];
        assert c in ts[i];
      }
      if exists i :: 0 <= i < |ts| && c in ts[i] {
        var i :| 0 <= i < |ts| && c in ts[i];
        if i < |front| {
          assert c in front[i];
        }
      }
    }
  }

  /** Every pixel of a partition is an edge pixel. */
  lemma UnionCells(edges: array2<bool>, traced: seq<seq<Cell>>)
    requires Partition(edges, traced)
    ensures forall c :: c in Union(traced) ==> IsEdgeCell(edges, c)
  {
    forall c | c in Union(traced)
      ensures IsEdgeCell(edges, c)
    {
      UnionHas(traced, c);
      var i :| 0 <= i < |traced| && c in traced[i];
      assert Component(edges, traced[i]);
    }
  }

  /** A new component disjoint from the earlier traces extends the partition. */
  lemma AddTrace(edges: array2<bool>, traced: seq<seq<Cell>>, t: seq<Cell>)
    requires Partition(edges, traced)
    requires Component(edges, t)
    requires forall c :: c in t ==> c !in Union(traced)
    ensures Partition(edges, traced + [t])
    ensures Union(traced + [t]) == Union(traced) + Elements(t)
  {
    var next := traced + [t];
    assert next[..|next| - 1] == traced;
    forall i, j | 0 <= i < j < |next|
      ensures Elements(next[i]) !! Elements(next[j])
    {
      if j == |traced| {
        forall c | c in next[i]
          ensures c !in t
        {
          UnionHas(traced, c);
        }
      }
    }
  }

  /** With the visited pixels exactly the pixels of the traces, `Marked` is membership. */
  lemma MarkedIsUnion(edges: array2<bool>, visited: array2<bool>, traced: seq<seq<Cell>>)
    requires edges.Length0 == visited.Length0 && edges.Length1 == visited.Length1
    requires Partition(edges, traced)
    requires forall r, c :: 0 <= r < visited.Length0 && 0 <= c < visited.Length1 ==>
      visited[r, c] == ((c, r) in Union(traced))
    ensures forall q :: Marked(visited, q) <==> q in Union(traced)
  {
    UnionCells(edges, traced);
    forall q | q in Union(traced)
      ensures Marked(visited, q)
    {
      assert q == (q.0, q.1);
    }
    forall q | Marked(visited, q)
      ensures q in Union(traced)
    {
      assert q == (q.0, q.1);
    }
  }

  /** The contours of a sequence of traces, one per trace. */
  function ContoursOf(m: MathLib, traced: seq<seq<Cell>>): (r: seq<ImageContour>)
    ensures |r| == |traced|
  {
    seq(|traced|, i requires 0 <= i < |traced| => ContourOf(m, traced[i]))
  }

  lemma ContoursOfSnoc(m: MathLib, traced: seq<seq<Cell>>, t: seq<Cell>)
    ensures ContoursOf(m, traced + [t]) == ContoursOf(m, traced) + [ContourOf(m, t)]
  {
    var next := traced + [t];
    assert forall i :: 0 <= i < |traced| ==> next[i] == traced[i];
  }

  /** The noise filter of `traceContours`: in order, the contours with more than five points. */
  function Kept(cs: seq<ImageContour>): seq<ImageContour> {
    if |cs| == 0 then []
    else Kept(cs[..|cs| - 1]) + (if |cs[|cs| - 1].points| > 5 then [cs[|cs| - 1]] else [])
  }

  /** `Kept` keeps exactly the contours with more than five points. */
  lemma {:induction false} KeptMembers(cs: seq<ImageContour>)
    ensures forall c :: c in Kept(cs) <==> c in cs && |c.points| > 5
  {
    if |cs| > 0 {
      var n := |cs| - 1;
      KeptMembers(cs[..n]);
      assert cs == cs[..n] + [cs[n]];
    }
  }

  /** `Kept` is a subsequence: the kept contours appear in their original order. */
  lemma {:induction false} KeptIsFilter(cs: seq<ImageContour>) returns (idx: seq<nat>)
    ensures |idx| == |Kept(cs)|
    ensures forall k :: 0 <= k < |idx| ==> idx[k] < |cs| && Kept(cs)[k] == cs[idx[k]]
    ensures forall k, l :: 0 <= k < l < |idx| ==> idx[k] < idx[l]
  {
    if |cs| == 0 {
      return [];
    }
    var n := |cs| - 1;
    var front := cs[..n];
    var before := KeptIsFilter(front);
    assert cs == front + [cs[n]];
    KeptSnoc(front, cs[n]);
    assert forall k :: 0 <= k < |before| ==> front[before[k]] == cs[before[k]];
    if |cs[n].points| > 5 {
      idx := before + [n];
      assert Kept(cs) == Kept(front) + [cs[n]];
    } else {
      idx := before;
      assert Kept(cs) == Kept(front);
    }
  }

  /** Each contour's points are among the pixel coordinates of its own trace. */
  ghost predicate FromTraces(all: seq<ImageContour>, traced: seq<seq<Cell>>) {
    |all| == |traced| && forall i, e :: 0 <= i < |all| && e in all[i].points ==> e in Edges(traced[i])
  }

  lemma ContoursFromTraces(m: MathLib, traced: seq<seq<Cell>>)
    ensures FromTraces(ContoursOf(m, traced), traced)
  {
    var all := ContoursOf(m, traced);
    forall i, e | 0 <= i < |all| && e in all[i].points
      ensures e in Edges(traced[i])
    {
      SimplifyIsSubsequence(Perpendicular(m), Edges(traced[i]), 2.0);
    }
  }

  /** A pixel coordinate in `Edges(t)` is that of one of the cells of `t`. */
  lemma PixelOf(t: seq<Cell>, e: ImageEdge) returns (a: nat)
    requires e in Edges(t)
    ensures a < |t| && e == ImageEdge(t[a].0 as real, t[a].1 as real)
  {
    var edges := Edges(t);
    a :| 0 <= a < |edges| && edges[a] == e;
  }

  /** Distinct pixels have distinct coordinates. */
  lemma DistinctPixels(c: Cell, d: Cell)
    requires c != d
    ensures ImageEdge(c.0 as real, c.1 as real) != ImageEdge(d.0 as real, d.1 as real)
  {
  }

  /** Contours drawn from disjoint traces keep no point in common after filtering. */
  lemma KeptApart(all: seq<ImageContour>, traced: seq<seq<Cell>>)
    requires FromTraces(all, traced) && Disjoint(traced)
    ensures forall k, l, e :: 0 <= k < l < |Kept(all)| && e in Kept(all)[k].points ==> e !in Kept(all)[l].points
  {
    var kept := Kept(all);
    var idx := KeptIsFilter(all);
    forall k, l, e | 0 <= k < l < |kept| && e in kept[k].points
      ensures e !in kept[l].points
    {
      var t, u := traced[idx[k]], traced[idx[l]];
      var a := PixelOf(t, e);
      forall b | 0 <= b < |u|
        ensures Edges(u)[b] != e
      {
        assert t[a] in Elements(t) && u[b] in Elements(u);
        DistinctPixels(t[a], u[b]);
      }
    }
  }

  /** The points of contours drawn from edge-pixel traces are pixel coordinates of edge pixels. */
  lemma KeptOnEdges(edges: array2<bool>, all: seq<ImageContour>, traced: seq<seq<Cell>>)
    requires FromTraces(all, traced)
    requires forall i, c :: 0 <= i < |traced| && c in traced[i] ==> IsEdgeCell(edges, c)
    ensures forall k, e :: 0 <= k < |Kept(all)| && e in Kept(all)[k].points ==>
      exists c :: IsEdgeCell(edges, c) && e == ImageEdge(c.0 as real, c.1 as real)
  {
    var kept := Kept(all);
    var idx := KeptIsFilter(all);
    forall k, e | 0 <= k < |kept| && e in kept[k].points
      ensures exists c :: IsEdgeCell(edges, c) && e == ImageEdge(c.0 as real, c.1 as real)
    {
      var t := traced[idx[k]];
      var a := PixelOf(t, e);
      assert t[a] in t;
    }
  }

  /** The kept contours of a partition have more than five points each, their points are pixel
      coordinates of edge pixels, and no two of them share a point. */
  lemma KeptDisjoint(m: MathLib, edges: array2<bool>, traced: seq<seq<Cell>>)
    requires Partition(edges, traced)
    ensures forall k :: 0 <= k < |Kept(ContoursOf(m, traced))| ==> |Kept(ContoursOf(m, traced))[k].points| > 5
    ensures forall k, e :: 0 <= k < |Kept(ContoursOf(m, traced))| && e in Kept(ContoursOf(m, traced))[k].points ==>
      exists c :: IsEdgeCell(edges, c) && e == ImageEdge(c.0 as real, c.1 as real)
    ensures forall k, l, e :: 0 <= k < l < |Kept(ContoursOf(m, traced))| && e in Kept(ContoursOf(m, traced))[k].points ==>
      e !in Kept(ContoursOf(m, traced))[l].points
  {
    var all := ContoursOf(m, traced);
    ContoursFromTraces(m, traced);
    KeptMembers(all);
    forall k | 0 <= k < |Kept(all)|
      ensures |Kept(all)[k].points| > 5
    {
      assert Kept(all)[k] in Kept(all);
    }
    forall i, c | 0 <= i < |traced| && c in traced[i]
      ensures IsEdgeCell(edges, c)
    {
      assert Component(edges, traced[i]);
    }
    KeptOnEdges(edges, all, traced);
    KeptApart(all, traced);
  }

  /** What `traceContours` keeps between pixels: the traces so far partition the visited pixels,
      which form whole components, and the contours kept so far are those of the traces. */
  ghost predicate ScanInv(m: MathLib, edges: array2<bool>, visited: array2<bool>, traced: seq<seq<Cell>>,
                          contours: seq<ImageContour>)
    reads edges, visited
  {
    && edges.Length0 == visited.Length0 && edges.Length1 == visited.Length1
    && contours == Kept(ContoursOf(m, traced))
    && Partition(edges, traced)
    && Closed(edges, visited)
    && (forall q :: Marked(visited, q) <==> q in Union(traced))
  }

  /** Every edge pixel before (x, y) in row-major order is in `s`. */
  ghost predicate ScannedTo(edges: array2<bool>, s: set<Cell>, y: int, x: int)
    reads edges
  {
    forall r, c :: 0 <= r < edges.Length0 && 0 <= c < edges.Length1 && (r < y || (r == y && c < x)) && edges[r, c] ==>
      (c, r) in s
  }

  /** `a` comes before `b` in the row-major scan of `traceContours`. */
  predicate ScanBefore(a: Cell, b: Cell) {
    a.1 < b.1 || (a.1 == b.1 && a.0 < b.0)
  }

  /** The trace starts at its first pixel in scan order. */
  ghost predicate StartsFirst(t: seq<Cell>) {
    |t| > 0 && forall k :: 0 < k < |t| ==> ScanBefore(t[0], t[k])
  }

  /** Each trace starts at its first pixel, and the traces are in the order of their starts. */
  ghost predicate InScanOrder(traced: seq<seq<Cell>>) {
    && (forall i :: 0 <= i < |traced| ==> StartsFirst(traced[i]))
    && (forall i, j :: 0 <= i < j < |traced| ==> ScanBefore(traced[i][0], traced[j][0]))
  }

  /** Every trace so far started before pixel `c`. */
  ghost predicate StartedBefore(traced: seq<seq<Cell>>, c: Cell) {
    forall i :: 0 <= i < |traced| && |traced[i]| > 0 ==> ScanBefore(traced[i][0], c)
  }

  /** A new trace from the scan position (x, y), made of pixels not traced before, starts at its
      first pixel, after every earlier start. */
  lemma ScanOrderStep(edges: array2<bool>, traced: seq<seq<Cell>>, t: seq<Cell>, x: int, y: int)
    requires InScanOrder(traced) && StartedBefore(traced, (x, y))
    requires ScannedTo(edges, Union(traced), y, x)
    requires Component(edges, t) && t[0] == (x, y)
    requires forall c :: c in t ==> c !in Union(traced)
    ensures InScanOrder(traced + [t]) && StartedBefore(traced + [t], (x + 1, y))
  {
    forall k | 0 < k < |t|
      ensures ScanBefore(t[0], t[k])
    {
      var c := t[k];
      assert c in t && IsEdgeCell(edges, c);
      assert c != t[0] && c == (c.0, c.1) && c !in Union(traced);
      assert !ScanBefore(c, (x, y));
    }
    var all := traced + [t];
    assert forall i :: 0 <= i < |traced| ==> all[i] == traced[i];
  }

  /** The end of a row is before the start of the next. */
  lemma NextRow(traced: seq<seq<Cell>>, width: int, y: int)
    requires StartedBefore(traced, (width, y))
    ensures StartedBefore(traced, (0, y + 1))
  {
  }

  lemma KeptSnoc(cs: seq<ImageContour>, c: ImageContour)
    ensures Kept(cs + [c]) == Kept(cs) + (if |c.points| > 5 then [c] else [])
  {
    assert (cs + [c])[..|cs|] == cs;
  }

  /** `traceContour` from an unvisited edge pixel when the visited pixels `pre` are whole
      components: the trace is a new component containing the start, and the visited pixels
      become `pre` plus the trace. */
  method TraceFrom(m: MathLib, edges: array2<bool>, visited: array2<bool>, x: nat, y: nat, ghost pre: set<Cell>)
      returns (contour: ImageContour, ghost points: seq<Cell>)
    requires edges != visited
    requires edges.Length0 == visited.Length0 && edges.Length1 == visited.Length1
    requires y < edges.Length0 && x < edges.Length1 && edges[y, x] && !visited[y, x]
    requires Closed(edges, visited)
    requires forall q :: Marked(visited, q) <==> q in pre
    modifies visited
    ensures contour == ContourOf(m, points)
    ensures Component(edges, points) && points[0] == (x, y)
    ensures forall c :: c in points ==> c !in pre
    ensures Closed(edges, visited)
    ensures forall q :: Marked(visited, q) <==> q in pre || q in points
  {
    contour, points := TraceContour(m, edges, visited, x, y, edges.Length1, edges.Length0);
    assert points[0] in points;
    forall q
      ensures Marked(visited, q) <==> q in pre || q in points
    {
      if 0 <= q.1 < visited.Length0 && 0 <= q.0 < visited.Length1 {
        assert q == (q.0, q.1);
      }
    }
  }

  /** One pixel of the scan of `traceContours`: an edge pixel not yet visited starts a trace,
      whose contour is kept when it has more than five points. */
  method VisitPixel(m: MathLib, edges: array2<bool>, visited: array2<bool>, x: nat, y: nat,
                    contours: seq<ImageContour>, ghost traced: seq<seq<Cell>>)
      returns (contours': seq<ImageContour>, ghost traced': seq<seq<Cell>>)
    requires edges != visited
    requires y < edges.Length0 && x < edges.Length1
    requires ScanInv(m, edges, visited, traced, contours)
    requires ScannedTo(edges, Union(traced), y, x)
    requires InScanOrder(traced) && StartedBefore(traced, (x, y))
    modifies visited
    ensures ScanInv(m, edges, visited, traced', contours')
    ensures ScannedTo(edges, Union(traced'), y, x + 1)
    ensures InScanOrder(traced') && StartedBefore(traced', (x + 1, y))
  {
    contours', traced' := contours, traced;
    if edges[y, x] && !visited[y, x] {
      var contour, points := TraceFrom(m, edges, visited, x, y, Union(traced));
      ScanOrderStep(edges, traced, points, x, y);
      AddTrace(edges, traced, points);
      ContoursOfSnoc(m, traced, points);
      KeptSnoc(ContoursOf(m, traced), contour);
      traced' := traced + [points];
      if |contour.points| > 5 {
        contours' := contours + [contour];
      }
    } else if edges[y, x] {
      assert Marked(visited, (x, y));
    }
  }

  /** After the scan the traces cover exactly the edge pixels. */
  lemma ScanDone(edges: array2<bool>, traced: seq<seq<Cell>>)
    requires Partition(edges, traced)
    requires ScannedTo(edges, Union(traced), edges.Length0, 0)
    ensures forall c :: IsEdgeCell(edges, c) <==> c in Union(traced)
  {
    UnionCells(edges, traced);
    forall c | IsEdgeCell(edges, c)
      ensures c in Union(traced)
    {
      assert c == (c.0, c.1);
    }
  }

  /** `traceContours`: scans the pixels row by row and traces from every edge pixel not yet
      visited, keeping the contours with more than five simplified points. The traces are
      whole components of edge pixels that share no pixel and together cover every edge pixel;
      the result is their kept contours. Each trace starts at its first pixel in row-major
      order, and the traces come in the order of their starts. */
  method TraceContours(m: MathLib, edges: array2<bool>, width: nat, height: nat)
      returns (contours: seq<ImageContour>, ghost traced: seq<seq<Cell>>)
    requires edges.Length0 == height && edges.Length1 == width
    ensures contours == Kept(ContoursOf(m, traced))
    ensures Partition(edges, traced)
    ensures forall c :: IsEdgeCell(edges, c) <==> c in Union(traced)
    ensures InScanOrder(traced)
  {
    var visited := new bool[height, width]((_, _) => false);
    contours := [];
    traced := [];
    var y := 0;
    while y < height
      invariant 0 <= y <= height
      invariant ScanInv(m, edges, visited, traced, contours)
      invariant ScannedTo(edges, Union(traced), y, 0)
      invariant InScanOrder(traced) && StartedBefore(traced, (0, y))
    {
      var x := 0;
      while x < width
        invariant 0 <= x <= width
        invariant ScanInv(m, edges, visited, traced, contours)
        invariant ScannedTo(edges, Union(traced), y, x)
        invariant InScanOrder(traced) && StartedBefore(traced, (x, y))
      {
        contours, traced := VisitPixel(m, edges, visited, x, y, contours, traced);
        x := x + 1;
      }
      NextRow(traced, x, y);
      y := y + 1;
    }
    ScanDone(edges, traced);
  }
}
