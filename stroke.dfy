/** Painting sand with the mouse: a stroke between two integer mouse
    positions is sampled at evenly spaced points, and every sample that
    lies on the field stamps a clipped 10 x 10 square of sand. This module
    gives the value the grid has after one stroke; the in-place loop that
    produces it is Simulation.Game.HandleMouseDrawing. */
module Stroke {
  import opened Field

  /** A mouse position (pygame reports integer pixels). */
  datatype Point = Point(x: int, y: int)

  /** Half-width of the square stamped by one sample. */
  const StampHalf: int := 5

  /** Integer square root: the largest r with r * r <= n. */
  function ISqrt(n: nat): (r: nat)
    ensures r * r <= n < (r + 1) * (r + 1)
    decreases n
  {
    if n == 0 then 0
    else
      var h := ISqrt(n / 4);
      RootStep(n, h);
      if (2 * h + 1) * (2 * h + 1) <= n then 2 * h + 1 else 2 * h
  }

  /** Doubling the root of n / 4 brackets the root of n. */
  lemma RootStep(n: nat, h: nat)
    requires h * h <= n / 4 < (h + 1) * (h + 1)
    ensures (2 * h) * (2 * h) <= n < (2 * h + 2) * (2 * h + 2)
  {
    assert n == 4 * (n / 4) + n % 4;
    assert (2 * h) * (2 * h) == 4 * (h * h);
    assert (2 * h + 2) * (2 * h + 2) == 4 * ((h + 1) * (h + 1));
  }

  /** The number of samples of a stroke from a to b: its Euclidean length
      rounded down. It is 0 exactly when the stroke does not move. */
  function StrokeLength(a: Point, b: Point): (len: nat)
    ensures len * len <= (b.x - a.x) * (b.x - a.x) + (b.y - a.y) * (b.y - a.y) < (len + 1) * (len + 1)
    ensures len == 0 <==> a == b
  {
    var dx, dy := b.x - a.x, b.y - a.y;
    SquareSumZero(dx, dy);
    var r := ISqrt(dx * dx + dy * dy);
    assert r == 0 <==> dx * dx + dy * dy == 0 by { SmallRoot(r, dx * dx + dy * dy); }
    r
  }

  lemma SquareSumZero(dx: int, dy: int)
    ensures dx * dx + dy * dy >= 0
    ensures dx * dx + dy * dy == 0 <==> dx == 0 && dy == 0
  {
    if dx != 0 { assert dx * dx >= 1 by { if dx < 0 { assert dx * dx == (-dx) * (-dx); } } }
    if dy != 0 { assert dy * dy >= 1 by { if dy < 0 { assert dy * dy == (-dy) * (-dy); } } }
    assert dx * dx >= 0 && dy * dy >= 0;
  }

  lemma SmallRoot(r: nat, n: nat)
    requires r * r <= n < (r + 1) * (r + 1)
    ensures r == 0 <==> n == 0
  {
    if r > 0 { assert r * r >= r; }
  }

  /** Sample i of a stroke of len samples: the point at t = i / len on the
      segment from a to b, each coordinate truncated toward zero. */
  function Sample(a: Point, b: Point, len: nat, i: nat): (s: Point)
    requires len > 0
    ensures i == 0 ==> s == a
  {
    var t := i as real / len as real;
    Point(Trunc(a.x as real * (1.0 - t) + b.x as real * t),
          Trunc(a.y as real * (1.0 - t) + b.y as real * t))
  }

  /** Sample s lies on the field and cell (cx, cy) lies in the square
      [s.x - 5, s.x + 5) x [s.y - 5, s.y + 5) clipped to the field. */
  predicate Stamps(s: Point, cx: int, cy: int)
  {
    InField(s.x, s.y) &&
    Max(0, s.x - StampHalf) <= cx < Min(Width, s.x + StampHalf) &&
    Max(0, s.y - StampHalf) <= cy < Min(Height, s.y + StampHalf)
  }

  /** Cell (cx, cy) is stamped by one of the first n samples. */
  predicate CoveredBy(a: Point, b: Point, len: nat, n: nat, cx: int, cy: int)
    requires len > 0
    decreases n
  {
    n > 0 && (CoveredBy(a, b, len, n - 1, cx, cy) || Stamps(Sample(a, b, len, n - 1), cx, cy))
  }

  /** CoveredBy agrees with its existential reading. */
  lemma {:induction false} CoveredByExists(a: Point, b: Point, len: nat, n: nat, cx: int, cy: int)
    requires len > 0
    ensures CoveredBy(a, b, len, n, cx, cy) <==> exists i :: 0 <= i < n && Stamps(Sample(a, b, len, i), cx, cy)
    decreases n
  {
    if n > 0 {
      CoveredByExists(a, b, len, n - 1, cx, cy);
      if Stamps(Sample(a, b, len, n - 1), cx, cy) {
        assert 0 <= n - 1 < n;
      }
    }
  }

  /** Cell (cx, cy) is stamped by some sample of the stroke from a to b. */
  predicate StrokeCovers(a: Point, b: Point, cx: int, cy: int)
  {
    var len := StrokeLength(a, b);
    len > 0 && CoveredBy(a, b, len, len, cx, cy)
  }

  /** The grid after painting the stroke from a to b: stamped cells become
      1 and every other cell keeps its value. */
  function Paint(g: Grid, a: Point, b: Point): (h: Grid)
    requires IsGrid(g)
    ensures IsGrid(h)
  {
    seq(Width, x requires 0 <= x < Width =>
      seq(Height, y requires 0 <= y < Height =>
        if StrokeCovers(a, b, x, y) then 1 else g[x][y]))
  }

  /** Every on-field sample sets its whole clipped square to 1. */
  lemma PaintStampsSample(g: Grid, a: Point, b: Point, i: nat, cx: int, cy: int)
    requires IsGrid(g)
    requires i < StrokeLength(a, b)
    requires Stamps(Sample(a, b, StrokeLength(a, b), i), cx, cy)
    ensures Paint(g, a, b)[cx][cy] == 1
  {
    CoveredByExists(a, b, StrokeLength(a, b), StrokeLength(a, b), cx, cy);
  }

  /** A cell that no sample stamps keeps its value. */
  lemma PaintLeavesUnstamped(g: Grid, a: Point, b: Point, cx: int, cy: int)
    requires IsGrid(g) && InField(cx, cy)
    requires forall i :: 0 <= i < StrokeLength(a, b) ==> !Stamps(Sample(a, b, StrokeLength(a, b), i), cx, cy)
    ensures Paint(g, a, b)[cx][cy] == g[cx][cy]
  {
    if StrokeLength(a, b) > 0 {
      CoveredByExists(a, b, StrokeLength(a, b), StrokeLength(a, b), cx, cy);
    }
  }

  /** Painting only ever sets cells to 1, so it keeps a 0/1 grid 0/1. */
  lemma PaintOnlySets(g: Grid, a: Point, b: Point)
    requires IsGrid(g)
    ensures forall x, y :: 0 <= x < Width && 0 <= y < Height ==>
      Paint(g, a, b)[x][y] == 1 || Paint(g, a, b)[x][y] == g[x][y]
    ensures Binary(g) ==> Binary(Paint(g, a, b))
  {
  }

  /** A stroke that does not move paints nothing. */
  lemma PaintStill(g: Grid, a: Point)
    requires IsGrid(g)
    ensures Paint(g, a, a) == g
  {
    var h := Paint(g, a, a);
    forall x | 0 <= x < Width
      ensures h[x] == g[x]
    {
      assert |h[x]| == |g[x]|;
      forall y | 0 <= y < Height
        ensures h[x][y] == g[x][y]
      {
        assert !StrokeCovers(a, a, x, y);
      }
    }
  }

  /** Painting never lowers a window sum (and so never lowers a reading). */
  lemma PaintMono(g: Grid, a: Point, b: Point, x0: int, x1: int, y0: int, y1: int)
    requires IsGrid(g) && Binary(g)
    requires 0 <= x0 <= x1 <= Width && 0 <= y0 <= y1 <= Height
    ensures WindowSum(g, x0, x1, y0, y1) <= WindowSum(Paint(g, a, b), x0, x1, y0, y1)
  {
    WindowSumMono(g, Paint(g, a, b), x0, x1, y0, y1);
  }
}
