/** The sand field: an 800 x 600 occupancy grid indexed [x][y] (the first
    index is the column), the windowed counts taken over it, and the
    normalised reading a sensor probe gets from it. */
module Field {
  const Width: int := 800
  const Height: int := 600

  /** Half-width of a sensor window, and the number of cells of a full window. */
  const SensorHalf: int := 10
  const SensorCells: int := 400

  /** A point in field coordinates. */
  datatype Vec = Vec(x: real, y: real)

  /** Squared Euclidean distance. */
  function Dist2(p: Vec, q: Vec): real
  {
    (q.x - p.x) * (q.x - p.x) + (q.y - p.y) * (q.y - p.y)
  }

  /** A squared distance is never negative. */
  lemma Dist2NonNegative(p: Vec, q: Vec)
    ensures 0.0 <= Dist2(p, q)
  {
    Square(q.x - p.x);
    Square(q.y - p.y);
  }

  lemma Square(d: real)
    ensures 0.0 <= d * d
  {
    if d < 0.0 {
      assert d * d == (-d) * (-d);
    }
  }

  type Grid = seq<seq<int>>

  predicate IsGrid(g: Grid)
  {
    |g| == Width && forall x :: 0 <= x < Width ==> |g[x]| == Height
  }

  /** Every cell holds 0 (no sand) or 1 (sand). */
  predicate Binary(g: Grid)
    requires IsGrid(g)
  {
    forall x, y :: 0 <= x < Width && 0 <= y < Height ==> g[x][y] == 0 || g[x][y] == 1
  }

  /** Every cell holds 0. */
  predicate Blank(g: Grid)
    requires IsGrid(g)
  {
    forall x, y :: 0 <= x < Width && 0 <= y < Height ==> g[x][y] == 0
  }

  predicate InField(x: int, y: int)
  {
    0 <= x < Width && 0 <= y < Height
  }

  /** Two grids that agree on every cell are equal. */
  lemma GridExt(g: Grid, h: Grid)
    requires IsGrid(g) && IsGrid(h)
    requires forall x, y :: 0 <= x < Width && 0 <= y < Height ==> g[x][y] == h[x][y]
    ensures g == h
  {
    forall x | 0 <= x < Width
      ensures g[x] == h[x]
    {
      assert forall y :: 0 <= y < Height ==> g[x][y] == h[x][y];
    }
  }

  function Max(a: int, b: int): int { if a < b then b else a }
  function Min(a: int, b: int): int { if a < b then a else b }

  /** Python's int() applied to a float: truncation toward zero. */
  function Trunc(r: real): (n: int)
    ensures 0.0 <= r ==> n as real <= r < n as real + 1.0
    ensures r < 0.0 ==> n as real - 1.0 < r <= n as real
  {
    if r >= 0.0 then r.Floor else -((-r).Floor)
  }

  /** Sum of col[y0..y1). */
  function ColumnSum(col: seq<int>, y0: int, y1: int): int
    requires 0 <= y0 <= y1 <= |col|
    decreases y1 - y0
  {
    if y0 == y1 then 0 else ColumnSum(col, y0, y1 - 1) + col[y1 - 1]
  }

  /** Sum of the grid over the rectangle [x0, x1) x [y0, y1): the value of
      a two-dimensional slice sum. */
  function WindowSum(g: Grid, x0: int, x1: int, y0: int, y1: int): int
    requires IsGrid(g)
    requires 0 <= x0 <= x1 <= Width && 0 <= y0 <= y1 <= Height
    decreases x1 - x0
  {
    if x0 == x1 then 0 else WindowSum(g, x0, x1 - 1, y0, y1) + ColumnSum(g[x1 - 1], y0, y1)
  }

  lemma {:induction false} ColumnSumBounds(col: seq<int>, y0: int, y1: int)
    requires 0 <= y0 <= y1 <= |col|
    requires forall y :: y0 <= y < y1 ==> col[y] == 0 || col[y] == 1
    ensures 0 <= ColumnSum(col, y0, y1) <= y1 - y0
    decreases y1 - y0
  {
    if y0 < y1 {
      ColumnSumBounds(col, y0, y1 - 1);
    }
  }

  /** A window of 0/1 cells sums to at least 0 and at most its area. */
  lemma {:induction false} WindowSumBounds(g: Grid, x0: int, x1: int, y0: int, y1: int)
    requires IsGrid(g) && Binary(g)
    requires 0 <= x0 <= x1 <= Width && 0 <= y0 <= y1 <= Height
    ensures 0 <= WindowSum(g, x0, x1, y0, y1) <= (x1 - x0) * (y1 - y0)
    decreases x1 - x0
  {
    if x0 < x1 {
      WindowSumBounds(g, x0, x1 - 1, y0, y1);
      ColumnSumBounds(g[x1 - 1], y0, y1);
      assert (x1 - x0) * (y1 - y0) == (x1 - 1 - x0) * (y1 - y0) + (y1 - y0);
    }
  }

  lemma {:induction false} ColumnSumMono(c: seq<int>, d: seq<int>, y0: int, y1: int)
    requires 0 <= y0 <= y1 <= |c| == |d|
    requires forall y :: y0 <= y < y1 ==> c[y] <= d[y]
    ensures ColumnSum(c, y0, y1) <= ColumnSum(d, y0, y1)
    decreases y1 - y0
  {
    if y0 < y1 {
      ColumnSumMono(c, d, y0, y1 - 1);
    }
  }

  /** Raising cells never lowers a window sum. */
  lemma {:induction false} WindowSumMono(g: Grid, h: Grid, x0: int, x1: int, y0: int, y1: int)
    requires IsGrid(g) && IsGrid(h)
    requires 0 <= x0 <= x1 <= Width && 0 <= y0 <= y1 <= Height
    requires forall x, y :: x0 <= x < x1 && y0 <= y < y1 ==> g[x][y] <= h[x][y]
    ensures WindowSum(g, x0, x1, y0, y1) <= WindowSum(h, x0, x1, y0, y1)
    decreases x1 - x0
  {
    if x0 < x1 {
      WindowSumMono(g, h, x0, x1 - 1, y0, y1);
      ColumnSumMono(g[x1 - 1], h[x1 - 1], y0, y1);
    }
  }

  lemma {:induction false} ColumnSumZero(c: seq<int>, y0: int, y1: int)
    requires 0 <= y0 <= y1 <= |c|
    requires forall y :: y0 <= y < y1 ==> c[y] == 0
    ensures ColumnSum(c, y0, y1) == 0
    decreases y1 - y0
  {
    if y0 < y1 {
      ColumnSumZero(c, y0, y1 - 1);
    }
  }

  /** Every window of a blank grid sums to 0. */
  lemma {:induction false} WindowSumBlank(g: Grid, x0: int, x1: int, y0: int, y1: int)
    requires IsGrid(g) && Blank(g)
    requires 0 <= x0 <= x1 <= Width && 0 <= y0 <= y1 <= Height
    ensures WindowSum(g, x0, x1, y0, y1) == 0
    decreases x1 - x0
  {
    if x0 < x1 {
      WindowSumBlank(g, x0, x1 - 1, y0, y1);
      ColumnSumZero(g[x1 - 1], y0, y1);
    }
  }

  /** The count behind a sensor reading at the in-field cell (x, y): the
      sum over the 20 x 20 window centred on it, clipped to the field. */
  function SensorCount(g: Grid, x: int, y: int): int
    requires IsGrid(g) && InField(x, y)
  {
    WindowSum(g, Max(0, x - SensorHalf), Min(Width, x + SensorHalf),
                 Max(0, y - SensorHalf), Min(Height, y + SensorHalf))
  }

  /** The reading of a sensor probe at p. A probe whose truncated
      coordinates leave the field reads the maximum 1.0; otherwise the
      reading is the window count over 400. */
  function Signal(g: Grid, p: Vec): real
    requires IsGrid(g)
  {
    var x, y := Trunc(p.x), Trunc(p.y);
    if InField(x, y) then SensorCount(g, x, y) as real / SensorCells as real else 1.0
  }

  /** On a 0/1 grid every reading lies in [0, 1], and a probe off the
      field reads exactly 1. */
  lemma SignalBounds(g: Grid, p: Vec)
    requires IsGrid(g) && Binary(g)
    ensures 0.0 <= Signal(g, p) <= 1.0
    ensures !InField(Trunc(p.x), Trunc(p.y)) ==> Signal(g, p) == 1.0
  {
    if InField(Trunc(p.x), Trunc(p.y)) {
      SensorCountBounds(g, Trunc(p.x), Trunc(p.y));
    }
  }

  /** The clipped window holds at most 400 cells, so on a 0/1 grid the
      count lies in [0, 400]. */
  lemma SensorCountBounds(g: Grid, x: int, y: int)
    requires IsGrid(g) && Binary(g) && InField(x, y)
    ensures 0 <= SensorCount(g, x, y) <= SensorCells
  {
    var x0, x1 := Max(0, x - SensorHalf), Min(Width, x + SensorHalf);
    var y0, y1 := Max(0, y - SensorHalf), Min(Height, y + SensorHalf);
    WindowSumBounds(g, x0, x1, y0, y1);
    WidthsBound(x1 - x0, y1 - y0, 2 * SensorHalf);
  }

  lemma WidthsBound(a: int, b: int, n: int)
    requires 0 <= a <= n && 0 <= b <= n
    ensures a * b <= n * n
  {
    assert a * b <= a * n;
    assert a * n <= n * n;
  }

  /** Every cell holds 1. */
  predicate Full(g: Grid)
    requires IsGrid(g)
  {
    forall x, y :: 0 <= x < Width && 0 <= y < Height ==> g[x][y] == 1
  }

  lemma {:induction false} ColumnSumOnes(c: seq<int>, y0: int, y1: int)
    requires 0 <= y0 <= y1 <= |c|
    requires forall y :: y0 <= y < y1 ==> c[y] == 1
    ensures ColumnSum(c, y0, y1) == y1 - y0
    decreases y1 - y0
  {
    if y0 < y1 {
      ColumnSumOnes(c, y0, y1 - 1);
    }
  }

  /** Every window of a fully sanded grid sums to its area. */
  lemma {:induction false} WindowSumFull(g: Grid, x0: int, x1: int, y0: int, y1: int)
    requires IsGrid(g) && Full(g)
    requires 0 <= x0 <= x1 <= Width && 0 <= y0 <= y1 <= Height
    ensures WindowSum(g, x0, x1, y0, y1) == (x1 - x0) * (y1 - y0)
    decreases x1 - x0
  {
    if x0 < x1 {
      WindowSumFull(g, x0, x1 - 1, y0, y1);
      ColumnSumOnes(g[x1 - 1], y0, y1);
      assert (x1 - x0) * (y1 - y0) == (x1 - 1 - x0) * (y1 - y0) + (y1 - y0);
    }
  }

  /** On a fully sanded grid an in-field probe reads the share of a full
      20 x 20 window that the border leaves inside the field: the reading
      is divided by 400 however much of the window is clipped away. */
  lemma SignalOfFull(g: Grid, p: Vec)
    requires IsGrid(g) && Full(g) && InField(Trunc(p.x), Trunc(p.y))
    ensures var x, y := Trunc(p.x), Trunc(p.y);
            Signal(g, p) == ((Min(Width, x + SensorHalf) - Max(0, x - SensorHalf)) *
                             (Min(Height, y + SensorHalf) - Max(0, y - SensorHalf))) as real / SensorCells as real
  {
    var x, y := Trunc(p.x), Trunc(p.y);
    WindowSumFull(g, Max(0, x - SensorHalf), Min(Width, x + SensorHalf),
                     Max(0, y - SensorHalf), Min(Height, y + SensorHalf));
  }

  /** On a 0/1 grid an in-field probe reads at most the share of a full
      window that the border leaves inside the field. */
  lemma SignalAtMostArea(g: Grid, p: Vec)
    requires IsGrid(g) && Binary(g) && InField(Trunc(p.x), Trunc(p.y))
    ensures var x, y := Trunc(p.x), Trunc(p.y);
            Signal(g, p) <= ((Min(Width, x + SensorHalf) - Max(0, x - SensorHalf)) *
                             (Min(Height, y + SensorHalf) - Max(0, y - SensorHalf))) as real / SensorCells as real
  {
    var x, y := Trunc(p.x), Trunc(p.y);
    WindowSumBounds(g, Max(0, x - SensorHalf), Min(Width, x + SensorHalf),
                       Max(0, y - SensorHalf), Min(Height, y + SensorHalf));
  }

  /** A probe on the field's corner cell (0, 0), such as one at (0.0, 0.0),
      sees only a quarter of a window, so it reads at most 0.25 however
      much sand there is. */
  lemma CornerProbeReadsQuarter(g: Grid, p: Vec)
    requires IsGrid(g) && Binary(g) && Trunc(p.x) == 0 && Trunc(p.y) == 0
    ensures Signal(g, p) <= 0.25
  {
    SignalAtMostArea(g, p);
    var x, y := Trunc(p.x), Trunc(p.y);
    var w, h := Min(Width, x + SensorHalf) - Max(0, x - SensorHalf), Min(Height, y + SensorHalf) - Max(0, y - SensorHalf);
    QuarterShare(w, h);
  }

  lemma QuarterShare(w: int, h: int)
    requires w == SensorHalf && h == SensorHalf
    ensures (w * h) as real / SensorCells as real == 0.25
  {
  }

  /** On a blank grid every in-field probe reads 0. */
  lemma SignalOfBlank(g: Grid, p: Vec)
    requires IsGrid(g) && Blank(g) && InField(Trunc(p.x), Trunc(p.y))
    ensures Signal(g, p) == 0.0
  {
    var x, y := Trunc(p.x), Trunc(p.y);
    WindowSumBlank(g, Max(0, x - SensorHalf), Min(Width, x + SensorHalf),
                      Max(0, y - SensorHalf), Min(Height, y + SensorHalf));
  }

  /** Raising cells never lowers a reading. */
  lemma SignalMono(g: Grid, h: Grid, p: Vec)
    requires IsGrid(g) && IsGrid(h)
    requires forall x, y :: 0 <= x < Width && 0 <= y < Height ==> g[x][y] <= h[x][y]
    ensures Signal(g, p) <= Signal(h, p)
  {
    var x, y := Trunc(p.x), Trunc(p.y);
    if InField(x, y) {
      WindowSumMono(g, h, Max(0, x - SensorHalf), Min(Width, x + SensorHalf),
                          Max(0, y - SensorHalf), Min(Height, y + SensorHalf));
    }
  }

  /** A probe just left of the field edge truncates to column 0 and so is
      read as in-field, not as the out-of-field maximum. */
  lemma NearEdgeProbeReadsWindow(g: Grid)
    requires IsGrid(g) && Blank(g)
    ensures Signal(g, Vec(-0.5, 5.0)) == 0.0
  {
    SignalOfBlank(g, Vec(-0.5, 5.0));
  }
}
