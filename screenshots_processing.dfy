/**
 * The grid screenshot comparator (`ImageComparer` in
 * tools/visual/screenshots_processing.py).
 *
 * A screenshot is taken as already decoded: a rectangle of pixels
 * addressed by (x, y) as PIL's `getpixel((x, y))` addresses them, each
 * pixel being the sequence of its channel values. The comparison only
 * reads the screenshots, so they are values here. The staging screenshot is cut into
 * a 60 x 80 grid whose cells are visited with a stride one pixel larger
 * than the cell, the channel values of each cell are summed in both
 * screenshots, and a cell whose production/staging ratio differs from 1
 * by more than ACCURACY is outlined in red on the result image and counted.
 */
module ScreenshotsProcessing {
  import opened Wrappers

  /** The channel values of one pixel, as `getpixel` returns them. */
  type Pixel = seq<nat>

  /** Pixels by column: `columns[x][y]` is the pixel at (x, y). */
  datatype Bitmap = Bitmap(width: nat, height: nat, columns: seq<seq<Pixel>>)

  /** A decoded screenshot: `width` columns of `height` pixels each. */
  type Image = b: Bitmap | |b.columns| == b.width && forall x :: 0 <= x < |b.columns| ==> |b.columns[x]| == b.height
    witness Bitmap(0, 0, [])

  /** `image.getpixel((x, y))` for a pixel that exists. */
  function PixelAt(image: Image, x: nat, y: nat): Pixel
    requires x < image.width && y < image.height
  {
    image.columns[x][y]
  }

  /** Grid of the comparison proper. */
  const COLUMNS: nat := 60
  const ROWS: nat := 80

  /** Grid of the debug drawing `divide_to_cells`. */
  const DEBUG_COLUMNS: nat := 30
  const DEBUG_ROWS: nat := 40

  /** Largest tolerated deviation of the production/staging ratio from 1, in exact arithmetic. */
  const ACCURACY: real := 0.0001

  /** The top-left corner of one grid cell. */
  datatype Cell = Cell(x: nat, y: nat)

  /** A rectangle as PIL's `draw.rectangle` takes it: both corners are included. */
  datatype Rect = Rect(left: nat, top: nat, right: nat, bottom: nat)

  /** `region_production / region_staging` with a zero staging sum raises. */
  datatype CompareError = ZeroDivision

  function Abs(r: real): real { if r < 0.0 then -r else r }

  function IntAbs(n: int): nat { if n < 0 then -n else n }

  /** Ceiling of n / d. */
  function Ceil(n: nat, d: nat): nat
    requires d > 0
  {
    (n + d - 1) / d
  }

  // ---------------------------------------------------------------------
  // Grid geometry
  // ---------------------------------------------------------------------

  /**
   * `((dimension - 1) // count) + 1`, with Python's floor division (which
   * agrees with Dafny's for a positive divisor, also at dimension 0).
   * For a non-empty dimension it is the ceiling of dimension / count.
   */
  function BlockSize(dimension: nat, count: nat): (b: nat)
    requires count > 0
    ensures dimension == 0 ==> b == 0
    ensures dimension > 0 ==> 1 <= b && (b - 1) * count < dimension <= b * count
  {
    var q := (dimension - 1) / count;
    assert count * q <= dimension - 1 < count * q + count;
    assert q >= -1;
    (q + 1) as nat
  }

  /** The values `range(start, limit, step)` yields, in order. */
  function Range(start: nat, limit: nat, step: nat): seq<nat>
    requires step > 0
    decreases limit - start
  {
    if start >= limit then [] else [start] + Range(start + step, limit, step)
  }

  /** Every value of the stride lies in [start, limit). */
  lemma {:induction false} RangeBounds(start: nat, limit: nat, step: nat, i: nat)
    requires step > 0
    requires i < |Range(start, limit, step)|
    ensures start <= Range(start, limit, step)[i] < limit
    decreases limit - start
  {
    if i > 0 {
      RangeBounds(start + step, limit, step, i - 1);
    }
  }

  lemma {:induction false} RangeAt(start: nat, limit: nat, step: nat, i: nat)
    requires step > 0
    requires i < |Range(start, limit, step)|
    ensures Range(start, limit, step)[i] == start + i * step
    decreases limit - start
  {
    if i > 0 {
      RangeAt(start + step, limit, step, i - 1);
      assert (i - 1) * step + step == i * step;
    }
  }

  /** `range(0, limit, step)` has ceil(limit / step) elements. */
  lemma {:induction false} RangeLength(start: nat, limit: nat, step: nat)
    requires step > 0
    ensures |Range(start, limit, step)| == if start >= limit then 0 else Ceil(limit - start, step)
    decreases limit - start
  {
    if start < limit {
      RangeLength(start + step, limit, step);
      var n := limit - start;
      if start + step >= limit {
        assert step <= n + step - 1 < 2 * step;
        DivInRange(n + step - 1, step, 1);
      } else {
        DivShift(n - 1, step);
      }
    }
  }

  lemma DivInRange(n: nat, d: nat, q: nat)
    requires d > 0 && q * d <= n < q * d + d
    ensures n / d == q
  {
    var q' := n / d;
    assert d * q' <= n < d * q' + d;
    assert d * (q + 1) == d * q + d;
    assert d * (q' + 1) == d * q' + d;
    LessFromProduct(d, q', q + 1);
    LessFromProduct(d, q, q' + 1);
  }

  lemma LessFromProduct(d: nat, a: int, b: int)
    requires d > 0 && d * a < d * b
    ensures a < b
  {
  }

  lemma DivShift(n: nat, d: nat)
    requires d > 0
    ensures (n + d) / d == n / d + 1
  {
    var q := n / d;
    assert q * d <= n < q * d + d;
    DivInRange(n + d, d, q + 1);
  }

  /** Two elements of a stride are at least one step apart. */
  lemma {:induction false} RangeSpacing(start: nat, limit: nat, step: nat, i: nat, j: nat)
    requires step > 0
    requires i < j < |Range(start, limit, step)|
    ensures Range(start, limit, step)[i] + step <= Range(start, limit, step)[j]
    decreases i
  {
    var rest := Range(start + step, limit, step);
    assert Range(start, limit, step) == [start] + rest;
    if i > 0 {
      RangeSpacing(start + step, limit, step, i - 1, j - 1);
    } else {
      RangeBounds(start + step, limit, step, j - 1);
    }
  }

  /** The cells of one grid row, `for x in xs`. */
  function RowCells(xs: seq<nat>, y: nat): (cells: seq<Cell>)
    ensures |cells| == |xs|
  {
    if xs == [] then [] else [Cell(xs[0], y)] + RowCells(xs[1..], y)
  }

  lemma {:induction false} RowCellsAt(xs: seq<nat>, y: nat, i: nat)
    requires i < |xs|
    ensures RowCells(xs, y)[i] == Cell(xs[i], y)
  {
    if i > 0 {
      RowCellsAt(xs[1..], y, i - 1);
    }
  }

  /** The cells in visiting order: `for y in ys: for x in xs`. */
  function GridCells(ys: seq<nat>, xs: seq<nat>): seq<Cell>
  {
    if ys == [] then [] else RowCells(xs, ys[0]) + GridCells(ys[1..], xs)
  }

  lemma {:induction false} GridCellsSize(ys: seq<nat>, xs: seq<nat>)
    ensures |GridCells(ys, xs)| == |ys| * |xs|
  {
    if ys != [] {
      GridCellsSize(ys[1..], xs);
      assert |ys| * |xs| == |xs| + (|ys| - 1) * |xs|;
    }
  }

  lemma {:induction false} GridCellsMember(ys: seq<nat>, xs: seq<nat>, c: Cell)
    ensures c in GridCells(ys, xs) <==> c.x in xs && c.y in ys
  {
    if ys != [] {
      GridCellsMember(ys[1..], xs, c);
      var row := RowCells(xs, ys[0]);
      if c.x in xs && c.y == ys[0] {
        var i :| 0 <= i < |xs| && xs[i] == c.x;
        RowCellsAt(xs, ys[0], i);
      }
      if c in row {
        var i :| 0 <= i < |row| && row[i] == c;
        RowCellsAt(xs, ys[0], i);
      }
    }
  }

  /** The cells the comparison visits, for blocks of the given size. */
  function Grid(width: nat, height: nat, blockWidth: nat, blockHeight: nat): seq<Cell>
  {
    GridCells(Range(0, height, blockHeight + 1), Range(0, width, blockWidth + 1))
  }

  /** Every visited cell starts inside the image. */
  lemma GridInside(width: nat, height: nat, blockWidth: nat, blockHeight: nat, c: Cell)
    requires c in Grid(width, height, blockWidth, blockHeight)
    ensures c.x < width && c.y < height
  {
    var xs := Range(0, width, blockWidth + 1);
    var ys := Range(0, height, blockHeight + 1);
    GridCellsMember(ys, xs, c);
    var i :| 0 <= i < |xs| && xs[i] == c.x;
    var j :| 0 <= j < |ys| && ys[j] == c.y;
    RangeBounds(0, width, blockWidth + 1, i);
    RangeBounds(0, height, blockHeight + 1, j);
  }

  /** A grid walked from row y on: its first row, then the rows below. */
  lemma GridUnfold(y: nat, height: nat, step: nat, xs: seq<nat>)
    requires step > 0 && y < height
    ensures GridCells(Range(y, height, step), xs)
         == RowCells(xs, y) + GridCells(Range(y + step, height, step), xs)
  {
    var below := Range(y + step, height, step);
    assert Range(y, height, step) == [y] + below;
    assert ([y] + below)[1..] == below;
  }

  /** A row walked from column x on: its first cell, then the cells to the right. */
  lemma RowUnfold(x: nat, width: nat, step: nat, y: nat)
    requires step > 0 && x < width
    ensures RowCells(Range(x, width, step), y) == [Cell(x, y)] + RowCells(Range(x + step, width, step), y)
  {
    var right := Range(x + step, width, step);
    assert Range(x, width, step) == [x] + right;
    assert ([x] + right)[1..] == right;
  }

  /** Exactly ceil(W / (bw + 1)) * ceil(H / (bh + 1)) cells are visited. */
  lemma GridSize(width: nat, height: nat, blockWidth: nat, blockHeight: nat)
    ensures |Grid(width, height, blockWidth, blockHeight)|
         == Ceil(height, blockHeight + 1) * Ceil(width, blockWidth + 1)
  {
    RangeLength(0, height, blockHeight + 1);
    RangeLength(0, width, blockWidth + 1);
    GridCellsSize(Range(0, height, blockHeight + 1), Range(0, width, blockWidth + 1));
  }

  lemma StrideApart(limit: nat, step: nat, a: nat, b: nat)
    requires step > 0
    requires a in Range(0, limit, step) && b in Range(0, limit, step) && a < b
    ensures a + step <= b
  {
    var r := Range(0, limit, step);
    var i :| 0 <= i < |r| && r[i] == a;
    var j :| 0 <= j < |r| && r[j] == b;
    if j < i {
      RangeSpacing(0, limit, step, j, i);
    } else if i < j {
      RangeSpacing(0, limit, step, i, j);
    }
  }

  /**
   * Two different cells never overlap, not even their outlines (which
   * include the right and bottom edge): the one-pixel gap of the stride
   * keeps them apart.
   */
  lemma CellsDisjoint(width: nat, height: nat, blockWidth: nat, blockHeight: nat, c: Cell, d: Cell)
    requires c in Grid(width, height, blockWidth, blockHeight)
    requires d in Grid(width, height, blockWidth, blockHeight)
    requires c != d
    ensures c.x + blockWidth < d.x || d.x + blockWidth < c.x
         || c.y + blockHeight < d.y || d.y + blockHeight < c.y
  {
    var xs := Range(0, width, blockWidth + 1);
    var ys := Range(0, height, blockHeight + 1);
    GridCellsMember(ys, xs, c);
    GridCellsMember(ys, xs, d);
    if c.x != d.x {
      var (a, b) := if c.x < d.x then (c.x, d.x) else (d.x, c.x);
      StrideApart(width, blockWidth + 1, a, b);
    } else {
      var (a, b) := if c.y < d.y then (c.y, d.y) else (d.y, c.y);
      StrideApart(height, blockHeight + 1, a, b);
    }
  }

  /** The rectangle `(x, y, x + block_width, y + block_height)` drawn for a cell. */
  function Outline(c: Cell, blockWidth: nat, blockHeight: nat): Rect
  {
    Rect(c.x, c.y, c.x + blockWidth, c.y + blockHeight)
  }

  /** The outlines of `cells`, in drawing order. */
  function Outlines(cells: seq<Cell>, blockWidth: nat, blockHeight: nat): (rects: seq<Rect>)
    ensures |rects| == |cells|
  {
    if cells == [] then []
    else [Outline(cells[0], blockWidth, blockHeight)] + Outlines(cells[1..], blockWidth, blockHeight)
  }

  /** The i-th outline drawn is the outline of the i-th cell. */
  lemma {:induction false} OutlinesAt(cells: seq<Cell>, blockWidth: nat, blockHeight: nat, i: nat)
    requires i < |cells|
    ensures Outlines(cells, blockWidth, blockHeight)[i] == Outline(cells[i], blockWidth, blockHeight)
  {
    if i > 0 {
      OutlinesAt(cells[1..], blockWidth, blockHeight, i - 1);
    }
  }

  /** Outlining two runs of cells one after the other. */
  lemma {:induction false} OutlinesAppend(a: seq<Cell>, b: seq<Cell>, blockWidth: nat, blockHeight: nat)
    ensures Outlines(a + b, blockWidth, blockHeight)
         == Outlines(a, blockWidth, blockHeight) + Outlines(b, blockWidth, blockHeight)
    decreases |a|
  {
    if a == [] {
      assert a + b == b;
    } else {
      assert (a + b)[0] == a[0];
      assert (a + b)[1..] == a[1..] + b;
      var first := [Outline(a[0], blockWidth, blockHeight)];
      calc {
        Outlines(a + b, blockWidth, blockHeight);
        first + Outlines(a[1..] + b, blockWidth, blockHeight);
        { OutlinesAppend(a[1..], b, blockWidth, blockHeight); }
        first + (Outlines(a[1..], blockWidth, blockHeight) + Outlines(b, blockWidth, blockHeight));
        (first + Outlines(a[1..], blockWidth, blockHeight)) + Outlines(b, blockWidth, blockHeight);
      }
    }
  }

  /** The inner loop of `divide_to_cells` from column x of row y to the right edge. */
  function RowOutlines(width: nat, blockWidth: nat, blockHeight: nat, drawn: seq<Rect>,
                       x: nat, y: nat): seq<Rect>
    decreases width - x
  {
    if x >= width then drawn
    else RowOutlines(width, blockWidth, blockHeight, drawn + [Outline(Cell(x, y), blockWidth, blockHeight)],
                     x + (blockWidth + 1), y)
  }

  /** The outer loop of `divide_to_cells` from row y to the bottom edge. */
  function GridOutlines(width: nat, height: nat, blockWidth: nat, blockHeight: nat,
                        drawn: seq<Rect>, y: nat): seq<Rect>
    decreases height - y
  {
    if y >= height then drawn
    else GridOutlines(width, height, blockWidth, blockHeight,
                      RowOutlines(width, blockWidth, blockHeight, drawn, 0, y), y + (blockHeight + 1))
  }

  /** The inner loop appends the outlines of the row's remaining cells. */
  lemma {:induction false} RowOutlinesAreOutlines(width: nat, blockWidth: nat, blockHeight: nat,
                                                  drawn: seq<Rect>, x: nat, y: nat)
    ensures RowOutlines(width, blockWidth, blockHeight, drawn, x, y)
         == drawn + Outlines(RowCells(Range(x, width, blockWidth + 1), y), blockWidth, blockHeight)
    decreases width - x
  {
    if x < width {
      var c := Cell(x, y);
      var first := [Outline(c, blockWidth, blockHeight)];
      var right := RowCells(Range(x + (blockWidth + 1), width, blockWidth + 1), y);
      RowOutlinesAreOutlines(width, blockWidth, blockHeight, drawn + first, x + (blockWidth + 1), y);
      RowUnfold(x, width, blockWidth + 1, y);
      assert ([c] + right)[0] == c;
      assert ([c] + right)[1..] == right;
      assert drawn + first + Outlines(right, blockWidth, blockHeight)
          == drawn + (first + Outlines(right, blockWidth, blockHeight));
    } else {
      assert RowCells(Range(x, width, blockWidth + 1), y) == [];
      assert drawn + [] == drawn;
    }
  }

  /** The outer loop appends the outlines of the remaining rows' cells. */
  lemma {:induction false} GridOutlinesAreOutlines(width: nat, height: nat, blockWidth: nat, blockHeight: nat,
                                                   drawn: seq<Rect>, y: nat)
    ensures GridOutlines(width, height, blockWidth, blockHeight, drawn, y)
         == drawn + Outlines(GridCells(Range(y, height, blockHeight + 1), Range(0, width, blockWidth + 1)),
                             blockWidth, blockHeight)
    decreases height - y
  {
    var xs := Range(0, width, blockWidth + 1);
    if y < height {
      var row := RowCells(xs, y);
      var below := GridCells(Range(y + (blockHeight + 1), height, blockHeight + 1), xs);
      RowOutlinesAreOutlines(width, blockWidth, blockHeight, drawn, 0, y);
      GridOutlinesAreOutlines(width, height, blockWidth, blockHeight,
                              drawn + Outlines(row, blockWidth, blockHeight), y + (blockHeight + 1));
      GridUnfold(y, height, blockHeight + 1, xs);
      OutlinesAppend(row, below, blockWidth, blockHeight);
      assert drawn + Outlines(row, blockWidth, blockHeight) + Outlines(below, blockWidth, blockHeight)
          == drawn + (Outlines(row, blockWidth, blockHeight) + Outlines(below, blockWidth, blockHeight));
    } else {
      assert GridCells(Range(y, height, blockHeight + 1), xs) == [];
      assert drawn + [] == drawn;
    }
  }

  /** The row-by-row drawing outlines every cell of the grid, in visiting order. */
  lemma DrawnByRows(width: nat, height: nat, blockWidth: nat, blockHeight: nat)
    ensures GridOutlines(width, height, blockWidth, blockHeight, [], 0)
         == Outlines(Grid(width, height, blockWidth, blockHeight), blockWidth, blockHeight)
  {
    GridOutlinesAreOutlines(width, height, blockWidth, blockHeight, [], 0);
    assert [] + Outlines(Grid(width, height, blockWidth, blockHeight), blockWidth, blockHeight)
        == Outlines(Grid(width, height, blockWidth, blockHeight), blockWidth, blockHeight);
  }

  // ---------------------------------------------------------------------
  // Region sums
  // ---------------------------------------------------------------------

  /** `sum(pixel)`. */
  function ChannelSum(p: Pixel): nat
  {
    if p == [] then 0 else ChannelSum(p[..|p| - 1]) + p[|p| - 1]
  }

  /**
   * Every pixel of [x, x + width) x [y, y + height) exists; `getpixel`
   * raises for the first one that does not.
   */
  predicate Fits(image: Image, x: nat, y: nat, width: nat, height: nat)
  {
    width == 0 || height == 0 || (x + width <= image.width && y + height <= image.height)
  }

  /** Sum of the channel values of the pixels (x .. x + width - 1, y). */
  function RowTotal(image: Image, x: nat, y: nat, width: nat): nat
    requires width == 0 || (x + width <= image.width && y < image.height)
  {
    if width == 0 then 0
    else RowTotal(image, x, y, width - 1) + ChannelSum(PixelAt(image, x + width - 1, y))
  }

  /** Sum of the channel values of every pixel of the rectangle. */
  function RegionTotal(image: Image, x: nat, y: nat, width: nat, height: nat): nat
    requires Fits(image, x, y, width, height)
  {
    if height == 0 then 0
    else RegionTotal(image, x, y, width, height - 1) + RowTotal(image, x, y + height - 1, width)
  }

  /**
   * What `process_region` returns: None (Python's None) exactly when the
   * rectangle leaves the image (RegionTotalZero says when the sum is zero).
   */
  function Region(image: Image, x: nat, y: nat, width: nat, height: nat): (r: Option<nat>)
    ensures r.None? <==> !Fits(image, x, y, width, height)
  {
    if Fits(image, x, y, width, height) then Some(RegionTotal(image, x, y, width, height)) else None
  }

  lemma {:induction false} ChannelSumZero(p: Pixel)
    ensures ChannelSum(p) == 0 <==> forall i :: 0 <= i < |p| ==> p[i] == 0
  {
    if p != [] {
      ChannelSumZero(p[..|p| - 1]);
      assert forall i :: 0 <= i < |p| - 1 ==> p[..|p| - 1][i] == p[i];
    }
  }

  /** The pixel at (px, py) is black in every channel. */
  predicate Dark(image: Image, px: nat, py: nat)
    requires px < image.width && py < image.height
  {
    ChannelSum(PixelAt(image, px, py)) == 0
  }

  lemma {:induction false} RowTotalZero(image: Image, x: nat, y: nat, width: nat)
    requires width == 0 || (x + width <= image.width && y < image.height)
    ensures RowTotal(image, x, y, width) == 0 <==> forall px :: x <= px < x + width ==> Dark(image, px, y)
  {
    if width > 0 {
      var last := x + width - 1;
      RowTotalZero(image, x, y, width - 1);
      assert RowTotal(image, x, y, width) == RowTotal(image, x, y, width - 1) + ChannelSum(PixelAt(image, last, y));
      if RowTotal(image, x, y, width) == 0 {
        forall px | x <= px < x + width ensures Dark(image, px, y) {
          if px < last {
            assert RowTotal(image, x, y, width - 1) == 0;
          }
        }
      } else if RowTotal(image, x, y, width - 1) == 0 {
        assert !Dark(image, last, y);
      } else {
        var px :| x <= px < last && !Dark(image, px, y);
      }
    }
  }

  /**
   * A region sums to zero exactly when every pixel in it has all channels
   * zero: the cells on which the unguarded division fails.
   */
  lemma {:induction false} RegionTotalZero(image: Image, x: nat, y: nat, width: nat, height: nat)
    requires width > 0 && x + width <= image.width && y + height <= image.height
    ensures RegionTotal(image, x, y, width, height) == 0
        <==> forall px, py :: x <= px < x + width && y <= py < y + height ==> Dark(image, px, py)
  {
    if height > 0 {
      RegionTotalZero(image, x, y, width, height - 1);
      RowTotalZero(image, x, y + height - 1, width);
    }
  }

  // ---------------------------------------------------------------------
  // The threshold
  // ---------------------------------------------------------------------

  /** `abs(1 - production / staging) > ACCURACY`, in exact arithmetic. */
  predicate Mismatched(staging: nat, production: nat)
    requires staging > 0
    ensures production == 0 ==> Mismatched(staging, production)
  {
    Abs(1.0 - (production as real) / (staging as real)) > ACCURACY
  }

  /** The threshold in integers: |s - p| * 10000 > s. */
  lemma MismatchedExact(staging: nat, production: nat)
    requires staging > 0
    ensures Mismatched(staging, production) <==> IntAbs(staging - production) * 10000 > staging
  {
    var s := staging as real;
    var a := Abs(1.0 - (production as real) / s);
    var n := IntAbs(staging - production);
    assert Mismatched(staging, production) == (a > ACCURACY);
    DeviationScaled(staging, production);
    ScaleCompare(a, ACCURACY, s, n as real);
    ThresholdInIntegers(n, staging);
  }

  /** |1 - p / s| * s == |s - p|. */
  lemma DeviationScaled(staging: nat, production: nat)
    requires staging > 0
    ensures Abs(1.0 - (production as real) / (staging as real)) * (staging as real)
         == IntAbs(staging - production) as real
  {
    var s := staging as real;
    var p := production as real;
    var t := 1.0 - p / s;
    assert t * s == s - p;
    AbsScale(t, s);
    assert (staging - production) as real == s - p;
  }

  lemma AbsScale(t: real, s: real)
    requires s > 0.0
    ensures Abs(t * s) == Abs(t) * s
  {
    if t < 0.0 {
      assert t * s < 0.0;
    } else {
      assert t * s >= 0.0;
    }
  }

  lemma ScaleCompare(a: real, b: real, s: real, scaled: real)
    requires s > 0.0 && scaled == a * s
    ensures a > b <==> scaled > b * s
  {
  }

  lemma ThresholdInIntegers(n: nat, staging: nat)
    ensures n as real > ACCURACY * (staging as real) <==> n * 10000 > staging
  {
    assert (n * 10000) as real == (n as real) * 10000.0;
  }

  // ---------------------------------------------------------------------
  // The comparison, cell by cell
  // ---------------------------------------------------------------------

  /** Outlines drawn so far, and whether a division by zero has been raised. */
  datatype Progress = Progress(outlines: seq<Rect>, failed: bool)

  /** One iteration of the inner loop of `compare_pictures`. */
  function Step(staging: Image, production: Image, blockWidth: nat, blockHeight: nat,
                p: Progress, c: Cell): Progress
  {
    if p.failed then p
    else match (Region(staging, c.x, c.y, blockWidth, blockHeight),
                Region(production, c.x, c.y, blockWidth, blockHeight))
      case (Some(s), Some(q)) =>
        if s == 0 then Progress(p.outlines, true)
        else if Mismatched(s, q) then Progress(p.outlines + [Outline(c, blockWidth, blockHeight)], false)
        else p
      case _ => p
  }

  /** The iterations over `cells`, in order, starting from progress p. */
  function ScanFrom(staging: Image, production: Image, blockWidth: nat, blockHeight: nat,
                    p: Progress, cells: seq<Cell>): Progress
    decreases |cells|
  {
    if cells == [] then p
    else ScanFrom(staging, production, blockWidth, blockHeight,
                  Step(staging, production, blockWidth, blockHeight, p, cells[0]), cells[1..])
  }

  /** Both regions of the cell lie inside their screenshots. */
  predicate Comparable(staging: Image, production: Image, blockWidth: nat, blockHeight: nat, c: Cell)
  {
    Fits(staging, c.x, c.y, blockWidth, blockHeight) && Fits(production, c.x, c.y, blockWidth, blockHeight)
  }

  /** A comparable cell whose staging region sums to zero: the division raises. */
  predicate DividesByZero(staging: Image, production: Image, blockWidth: nat, blockHeight: nat, c: Cell)
  {
    Comparable(staging, production, blockWidth, blockHeight, c)
    && RegionTotal(staging, c.x, c.y, blockWidth, blockHeight) == 0
  }

  /** A comparable cell whose ratio deviates from 1 by more than ACCURACY. */
  predicate Differs(staging: Image, production: Image, blockWidth: nat, blockHeight: nat, c: Cell)
  {
    Comparable(staging, production, blockWidth, blockHeight, c)
    && RegionTotal(staging, c.x, c.y, blockWidth, blockHeight) > 0
    && Mismatched(RegionTotal(staging, c.x, c.y, blockWidth, blockHeight),
                  RegionTotal(production, c.x, c.y, blockWidth, blockHeight))
  }

  /** The cells of `cells` that differ, in order. */
  function Flagged(staging: Image, production: Image, blockWidth: nat, blockHeight: nat,
                   cells: seq<Cell>): (flagged: seq<Cell>)
    ensures |flagged| <= |cells|
  {
    if cells == [] then []
    else
      var rest := Flagged(staging, production, blockWidth, blockHeight, cells[1..]);
      if Differs(staging, production, blockWidth, blockHeight, cells[0]) then [cells[0]] + rest else rest
  }

  /** A cell is flagged exactly when it is one of `cells` and differs. */
  lemma {:induction false} FlaggedMember(staging: Image, production: Image, blockWidth: nat, blockHeight: nat,
                                         cells: seq<Cell>, c: Cell)
    ensures c in Flagged(staging, production, blockWidth, blockHeight, cells)
        <==> c in cells && Differs(staging, production, blockWidth, blockHeight, c)
  {
    if cells != [] {
      FlaggedMember(staging, production, blockWidth, blockHeight, cells[1..], c);
      assert cells == [cells[0]] + cells[1..];
    }
  }

  /** Once the division has raised, later cells change nothing. */
  lemma {:induction false} ScanFromFailed(staging: Image, production: Image, blockWidth: nat,
                                          blockHeight: nat, p: Progress, cells: seq<Cell>)
    requires p.failed
    ensures ScanFrom(staging, production, blockWidth, blockHeight, p, cells) == p
    decreases |cells|
  {
    if cells != [] {
      ScanFromFailed(staging, production, blockWidth, blockHeight, p, cells[1..]);
    }
  }

  /** Scanning a screenshot against itself never adds an outline. */
  lemma {:induction false} ScanSelf(image: Image, blockWidth: nat, blockHeight: nat, p: Progress, cells: seq<Cell>)
    ensures ScanFrom(image, image, blockWidth, blockHeight, p, cells).outlines == p.outlines
    decreases |cells|
  {
    if cells != [] {
      var c := cells[0];
      var next := Step(image, image, blockWidth, blockHeight, p, c);
      if !p.failed && Fits(image, c.x, c.y, blockWidth, blockHeight)
         && RegionTotal(image, c.x, c.y, blockWidth, blockHeight) > 0 {
        NotMismatchedSelf(RegionTotal(image, c.x, c.y, blockWidth, blockHeight));
      }
      assert next.outlines == p.outlines;
      ScanSelf(image, blockWidth, blockHeight, next, cells[1..]);
    }
  }

  /** Scanning two runs of cells one after the other. */
  lemma {:induction false} ScanFromAppend(staging: Image, production: Image, blockWidth: nat,
                                          blockHeight: nat, p: Progress, a: seq<Cell>, b: seq<Cell>)
    ensures ScanFrom(staging, production, blockWidth, blockHeight, p, a + b)
         == ScanFrom(staging, production, blockWidth, blockHeight,
                     ScanFrom(staging, production, blockWidth, blockHeight, p, a), b)
    decreases |a|
  {
    if a == [] {
      assert a + b == b;
    } else {
      ScanFromAppend(staging, production, blockWidth, blockHeight,
                     Step(staging, production, blockWidth, blockHeight, p, a[0]), a[1..], b);
      assert (a + b)[0] == a[0];
      assert (a + b)[1..] == a[1..] + b;
    }
  }

  /**
   * The inner loop of `compare_pictures` from column x of row y to the
   * right edge of the staging screenshot, starting from progress p.
   */
  function RowScan(staging: Image, production: Image, blockWidth: nat, blockHeight: nat,
                   p: Progress, x: nat, y: nat): Progress
    decreases staging.width - x
  {
    if x >= staging.width then p
    else RowScan(staging, production, blockWidth, blockHeight,
                 Step(staging, production, blockWidth, blockHeight, p, Cell(x, y)),
                 x + (blockWidth + 1), y)
  }

  /** The outer loop of `compare_pictures` from row y to the bottom edge. */
  function RowsScan(staging: Image, production: Image, blockWidth: nat, blockHeight: nat,
                    p: Progress, y: nat): Progress
    decreases staging.height - y
  {
    if y >= staging.height then p
    else RowsScan(staging, production, blockWidth, blockHeight,
                  RowScan(staging, production, blockWidth, blockHeight, p, 0, y),
                  y + (blockHeight + 1))
  }

  /** Once the division has raised, the rest of the row changes nothing. */
  lemma {:induction false} RowScanFailed(staging: Image, production: Image, blockWidth: nat,
                                         blockHeight: nat, p: Progress, x: nat, y: nat)
    requires p.failed
    ensures RowScan(staging, production, blockWidth, blockHeight, p, x, y) == p
    decreases staging.width - x
  {
    if x < staging.width {
      RowScanFailed(staging, production, blockWidth, blockHeight, p, x + (blockWidth + 1), y);
    }
  }

  /** Once the division has raised, the remaining rows change nothing. */
  lemma {:induction false} RowsScanFailed(staging: Image, production: Image, blockWidth: nat,
                                          blockHeight: nat, p: Progress, y: nat)
    requires p.failed
    ensures RowsScan(staging, production, blockWidth, blockHeight, p, y) == p
    decreases staging.height - y
  {
    if y < staging.height {
      RowScanFailed(staging, production, blockWidth, blockHeight, p, 0, y);
      RowsScanFailed(staging, production, blockWidth, blockHeight, p, y + (blockHeight + 1));
    }
  }

  /** The inner loop performs the Steps of the row's remaining cells, in order. */
  lemma {:induction false} RowScanIsScan(staging: Image, production: Image, blockWidth: nat,
                                         blockHeight: nat, p: Progress, x: nat, y: nat)
    ensures RowScan(staging, production, blockWidth, blockHeight, p, x, y)
         == ScanFrom(staging, production, blockWidth, blockHeight, p,
                     RowCells(Range(x, staging.width, blockWidth + 1), y))
    decreases staging.width - x
  {
    var width := staging.width;
    if x < width {
      var c := Cell(x, y);
      var right := RowCells(Range(x + (blockWidth + 1), width, blockWidth + 1), y);
      RowScanIsScan(staging, production, blockWidth, blockHeight,
                    Step(staging, production, blockWidth, blockHeight, p, c), x + (blockWidth + 1), y);
      RowUnfold(x, width, blockWidth + 1, y);
      assert ([c] + right)[0] == c;
      assert ([c] + right)[1..] == right;
    } else {
      assert RowCells(Range(x, width, blockWidth + 1), y) == [];
    }
  }

  /** The outer loop performs the Steps of the remaining rows' cells, in order. */
  lemma {:induction false} RowsScanIsScan(staging: Image, production: Image, blockWidth: nat,
                                          blockHeight: nat, p: Progress, y: nat)
    ensures RowsScan(staging, production, blockWidth, blockHeight, p, y)
         == ScanFrom(staging, production, blockWidth, blockHeight, p,
                     GridCells(Range(y, staging.height, blockHeight + 1), Range(0, staging.width, blockWidth + 1)))
    decreases staging.height - y
  {
    var height := staging.height;
    var xs := Range(0, staging.width, blockWidth + 1);
    if y < height {
      var row := RowCells(xs, y);
      var below := GridCells(Range(y + (blockHeight + 1), height, blockHeight + 1), xs);
      RowScanIsScan(staging, production, blockWidth, blockHeight, p, 0, y);
      RowsScanIsScan(staging, production, blockWidth, blockHeight,
                     ScanFrom(staging, production, blockWidth, blockHeight, p, row), y + (blockHeight + 1));
      GridUnfold(y, height, blockHeight + 1, xs);
      ScanFromAppend(staging, production, blockWidth, blockHeight, p, row, below);
    } else {
      assert GridCells(Range(y, height, blockHeight + 1), xs) == [];
    }
  }

  /**
   * One iteration from a progress that has not failed: it raises exactly
   * on a cell that divides by zero, and outlines the cell exactly when it
   * differs.
   */
  lemma StepMeaning(staging: Image, production: Image, blockWidth: nat, blockHeight: nat,
                    outlines: seq<Rect>, c: Cell)
    ensures Step(staging, production, blockWidth, blockHeight, Progress(outlines, false), c).failed
        <==> DividesByZero(staging, production, blockWidth, blockHeight, c)
    ensures Step(staging, production, blockWidth, blockHeight, Progress(outlines, false), c).outlines
         == if Differs(staging, production, blockWidth, blockHeight, c)
            then outlines + [Outline(c, blockWidth, blockHeight)] else outlines
  {
  }

  /**
   * Scanning from a progress that has not failed fails exactly when one of
   * the cells divides by zero.
   */
  lemma {:induction false} ScanFails(staging: Image, production: Image, blockWidth: nat,
                                     blockHeight: nat, outlines: seq<Rect>, cells: seq<Cell>)
    ensures ScanFrom(staging, production, blockWidth, blockHeight, Progress(outlines, false), cells).failed
        <==> exists i :: 0 <= i < |cells| && DividesByZero(staging, production, blockWidth, blockHeight, cells[i])
    decreases |cells|
  {
    if cells != [] {
      var c, rest := cells[0], cells[1..];
      var p := Step(staging, production, blockWidth, blockHeight, Progress(outlines, false), c);
      StepMeaning(staging, production, blockWidth, blockHeight, outlines, c);
      if DividesByZero(staging, production, blockWidth, blockHeight, c) {
        ScanFromFailed(staging, production, blockWidth, blockHeight, p, rest);
      } else {
        assert p == Progress(p.outlines, false);
        ScanFails(staging, production, blockWidth, blockHeight, p.outlines, rest);
        if exists i :: 0 <= i < |cells| && DividesByZero(staging, production, blockWidth, blockHeight, cells[i]) {
          var i :| 0 <= i < |cells| && DividesByZero(staging, production, blockWidth, blockHeight, cells[i]);
          assert rest[i - 1] == cells[i];
        }
        if exists j :: 0 <= j < |rest| && DividesByZero(staging, production, blockWidth, blockHeight, rest[j]) {
          var j :| 0 <= j < |rest| && DividesByZero(staging, production, blockWidth, blockHeight, rest[j]);
          assert cells[j + 1] == rest[j];
        }
      }
    }
  }

  /**
   * Scanning from a progress that has not failed, when it does not fail,
   * appends the outlines of exactly the cells that differ, in order.
   */
  lemma {:induction false} ScanOutlines(staging: Image, production: Image, blockWidth: nat,
                                        blockHeight: nat, outlines: seq<Rect>, cells: seq<Cell>)
    ensures !ScanFrom(staging, production, blockWidth, blockHeight, Progress(outlines, false), cells).failed
        ==> ScanFrom(staging, production, blockWidth, blockHeight, Progress(outlines, false), cells).outlines
            == outlines + Outlines(Flagged(staging, production, blockWidth, blockHeight, cells), blockWidth, blockHeight)
    decreases |cells|
  {
    if cells == [] {
      assert outlines + [] == outlines;
    } else {
      var c, rest := cells[0], cells[1..];
      var p := Step(staging, production, blockWidth, blockHeight, Progress(outlines, false), c);
      StepMeaning(staging, production, blockWidth, blockHeight, outlines, c);
      if p.failed {
        ScanFromFailed(staging, production, blockWidth, blockHeight, p, rest);
      } else {
        var differs := Differs(staging, production, blockWidth, blockHeight, c);
        var first := if differs then [Outline(c, blockWidth, blockHeight)] else [];
        assert p == Progress(outlines + first, false) by {
          if !differs { assert outlines + [] == outlines; }
        }
        ScanOutlines(staging, production, blockWidth, blockHeight, outlines + first, rest);
        var flagged := Flagged(staging, production, blockWidth, blockHeight, rest);
        var drawn := Outlines(flagged, blockWidth, blockHeight);
        assert Outlines(Flagged(staging, production, blockWidth, blockHeight, cells), blockWidth, blockHeight)
            == first + drawn by {
          if differs {
            assert ([c] + flagged)[0] == c;
            assert ([c] + flagged)[1..] == flagged;
          } else {
            assert [] + drawn == drawn;
          }
        }
        assert outlines + first + drawn == outlines + (first + drawn);
      }
    }
  }

  /** The red outlines `compare_pictures` draws on the result image; an image compared with itself gets none. */
  function Annotations(staging: Image, production: Image): (r: seq<Rect>)
    ensures staging == production ==> r == []
  {
    var blockWidth := BlockSize(staging.width, COLUMNS);
    var blockHeight := BlockSize(staging.height, ROWS);
    var grid := Grid(staging.width, staging.height, blockWidth, blockHeight);
    var p := ScanFrom(staging, production, blockWidth, blockHeight, Progress([], false), grid);
    if staging == production then
      ScanSelf(staging, blockWidth, blockHeight, Progress([], false), grid);
      p.outlines
    else p.outlines
  }

  /**
   * What `compare_pictures` returns: the number of mistaken blocks, one per
   * outline drawn and at most one per grid cell, or the division error.
   */
  function Compare(staging: Image, production: Image): (r: Result<nat, CompareError>)
    ensures r.Ok? ==> r.value == |Annotations(staging, production)|
    ensures r.Ok? ==> r.value <= Ceil(staging.height, BlockSize(staging.height, ROWS) + 1)
                               * Ceil(staging.width, BlockSize(staging.width, COLUMNS) + 1)
  {
    var blockWidth := BlockSize(staging.width, COLUMNS);
    var blockHeight := BlockSize(staging.height, ROWS);
    var grid := Grid(staging.width, staging.height, blockWidth, blockHeight);
    var p := ScanFrom(staging, production, blockWidth, blockHeight, Progress([], false), grid);
    if p.failed then Err(ZeroDivision)
    else
      ScanOutlines(staging, production, blockWidth, blockHeight, [], grid);
      GridSize(staging.width, staging.height, blockWidth, blockHeight);
      Ok(|p.outlines|)
  }

  /** Reading the comparison's result and outlines off its row-by-row loops. */
  lemma CompareByRows(staging: Image, production: Image, outlines: seq<Rect>, failed: bool)
    requires var blockWidth := BlockSize(staging.width, COLUMNS);
             var blockHeight := BlockSize(staging.height, ROWS);
             RowsScan(staging, production, blockWidth, blockHeight, Progress([], false), 0)
             == Progress(outlines, failed)
    ensures Compare(staging, production) == if failed then Err(ZeroDivision) else Ok(|outlines|)
    ensures Annotations(staging, production) == outlines
  {
    var blockWidth := BlockSize(staging.width, COLUMNS);
    var blockHeight := BlockSize(staging.height, ROWS);
    RowsScanIsScan(staging, production, blockWidth, blockHeight, Progress([], false), 0);
  }

  /**
   * The comparison raises exactly when a visited, comparable cell has a
   * zero staging sum; otherwise it counts exactly the visited cells that
   * differ, which is at most the number of cells visited, and outlines
   * each of them once, in visiting order.
   */
  lemma CompareMeaning(staging: Image, production: Image)
    ensures var blockWidth := BlockSize(staging.width, COLUMNS);
            var blockHeight := BlockSize(staging.height, ROWS);
            var grid := Grid(staging.width, staging.height, blockWidth, blockHeight);
            && (Compare(staging, production).Err?
                <==> exists i :: 0 <= i < |grid| && DividesByZero(staging, production, blockWidth, blockHeight, grid[i]))
            && (Compare(staging, production).Ok? ==>
                  && Compare(staging, production).value == |Flagged(staging, production, blockWidth, blockHeight, grid)|
                  && Compare(staging, production).value
                     <= Ceil(staging.height, blockHeight + 1) * Ceil(staging.width, blockWidth + 1)
                  && Annotations(staging, production)
                     == Outlines(Flagged(staging, production, blockWidth, blockHeight, grid), blockWidth, blockHeight))
  {
    var blockWidth := BlockSize(staging.width, COLUMNS);
    var blockHeight := BlockSize(staging.height, ROWS);
    var grid := Grid(staging.width, staging.height, blockWidth, blockHeight);
    ScanFails(staging, production, blockWidth, blockHeight, [], grid);
    ScanOutlines(staging, production, blockWidth, blockHeight, [], grid);
    GridSize(staging.width, staging.height, blockWidth, blockHeight);
    var flagged := Outlines(Flagged(staging, production, blockWidth, blockHeight, grid), blockWidth, blockHeight);
    assert [] + flagged == flagged;
  }

  lemma NotMismatchedSelf(total: nat)
    requires total > 0
    ensures !Mismatched(total, total)
  {
    assert (total as real) / (total as real) == 1.0;
  }

  /** No cell differs from itself. */
  lemma {:induction false} FlaggedSelf(image: Image, blockWidth: nat, blockHeight: nat, cells: seq<Cell>)
    ensures Flagged(image, image, blockWidth, blockHeight, cells) == []
  {
    if cells != [] {
      FlaggedSelf(image, blockWidth, blockHeight, cells[1..]);
      var c := cells[0];
      if Comparable(image, image, blockWidth, blockHeight, c)
         && RegionTotal(image, c.x, c.y, blockWidth, blockHeight) > 0 {
        NotMismatchedSelf(RegionTotal(image, c.x, c.y, blockWidth, blockHeight));
      }
    }
  }

  /**
   * Comparing a screenshot with itself finds no mistaken block and draws
   * nothing, provided no visited cell inside the image is completely black.
   */
  lemma CompareSelf(image: Image)
    requires var blockWidth := BlockSize(image.width, COLUMNS);
             var blockHeight := BlockSize(image.height, ROWS);
             forall c :: c in Grid(image.width, image.height, blockWidth, blockHeight)
                      && Fits(image, c.x, c.y, blockWidth, blockHeight)
                      ==> RegionTotal(image, c.x, c.y, blockWidth, blockHeight) > 0
    ensures Compare(image, image) == Ok(0)
    ensures Annotations(image, image) == []
  {
    var blockWidth := BlockSize(image.width, COLUMNS);
    var blockHeight := BlockSize(image.height, ROWS);
    var grid := Grid(image.width, image.height, blockWidth, blockHeight);
    ScanFails(image, image, blockWidth, blockHeight, [], grid);
    ScanOutlines(image, image, blockWidth, blockHeight, [], grid);
    FlaggedSelf(image, blockWidth, blockHeight, grid);
    forall i | 0 <= i < |grid| ensures !DividesByZero(image, image, blockWidth, blockHeight, grid[i]) {
      assert grid[i] in grid;
    }
    assert [] + Outlines([], blockWidth, blockHeight) == [];
  }

  // ---------------------------------------------------------------------
  // The comparer object
  // ---------------------------------------------------------------------

  /**
   * `ImageComparer`: the screenshots of the last comparison (None before
   * the first one) and the outlines drawn on its result image. The result
   * image is the staging screenshot decoded a second time, so its pixels
   * are the staging pixels; only the red outlines drawn on it are recorded.
   */
  class ImageComparer {
    var screenshotStaging: Option<Image>
    var screenshotProduction: Option<Image>
    var resultOutlines: seq<Rect>

    constructor ()
      ensures screenshotStaging == None && screenshotProduction == None && resultOutlines == []
    {
      screenshotStaging := None;
      screenshotProduction := None;
      resultOutlines := [];
    }

    /**
     * `process_region`: the channel total of the rectangle, or None as soon
     * as a pixel of it lies outside the image.
     */
    method ProcessRegion(image: Image, x: nat, y: nat, width: nat, height: nat)
      returns (regionTotal: Option<nat>)
      ensures regionTotal == Region(image, x, y, width, height)
    {
      var total: nat := 0;
      for coordinateY := y to y + height
        invariant coordinateY == y || width == 0 || (x + width <= image.width && coordinateY <= image.height)
        invariant total == RegionTotal(image, x, y, width, coordinateY - y)
      {
        for coordinateX := x to x + width
          invariant coordinateX == x || (coordinateX <= image.width && coordinateY < image.height)
          invariant total == RegionTotal(image, x, y, width, coordinateY - y)
                             + RowTotal(image, x, coordinateY, coordinateX - x)
        {
          if coordinateX < image.width && coordinateY < image.height {
            total := total + ChannelSum(PixelAt(image, coordinateX, coordinateY));
          } else {
            return None;
          }
        }
      }
      regionTotal := Some(total);
    }

    /**
     * `compare_pictures`: stores both screenshots, walks the grid of the
     * staging screenshot row by row, outlines every cell that differs on
     * the result image and returns their number; the first comparable cell
     * with a zero staging sum raises instead, leaving the outlines drawn
     * so far.
     */
    method ComparePictures(screenStaging: Image, screenProduction: Image)
      returns (mistakes: Result<nat, CompareError>)
      modifies this
      ensures screenshotStaging == Some(screenStaging) && screenshotProduction == Some(screenProduction)
      ensures mistakes == Compare(screenStaging, screenProduction)
      ensures resultOutlines == Annotations(screenStaging, screenProduction)
    {
      var screenWidth, screenHeight := screenStaging.width, screenStaging.height;
      var blockWidth := BlockSize(screenWidth, COLUMNS);
      var blockHeight := BlockSize(screenHeight, ROWS);
      ghost var final := RowsScan(screenStaging, screenProduction, blockWidth, blockHeight, Progress([], false), 0);
      var drawn: seq<Rect> := [];
      var mistakenBlocks: nat := 0;
      var failed := false;
      var y: nat := 0;
      label rows:
      while y < screenHeight
        invariant !failed
        invariant RowsScan(screenStaging, screenProduction, blockWidth, blockHeight, Progress(drawn, false), y) == final
        invariant mistakenBlocks == |drawn|
        decreases screenHeight - y
      {
        ghost var rowEnd := RowScan(screenStaging, screenProduction, blockWidth, blockHeight, Progress(drawn, false), 0, y);
        assert RowsScan(screenStaging, screenProduction, blockWidth, blockHeight, rowEnd, y + (blockHeight + 1)) == final;
        var x: nat := 0;
        while x < screenWidth
          invariant !failed
          invariant RowScan(screenStaging, screenProduction, blockWidth, blockHeight, Progress(drawn, false), x, y) == rowEnd
          invariant mistakenBlocks == |drawn|
          decreases screenWidth - x
        {
          var regionStaging := ProcessRegion(screenStaging, x, y, blockWidth, blockHeight);
          var regionProduction := ProcessRegion(screenProduction, x, y, blockWidth, blockHeight);
          if regionStaging.Some? && regionProduction.Some? {
            if regionStaging.value == 0 {
              RowScanFailed(screenStaging, screenProduction, blockWidth, blockHeight,
                            Progress(drawn, true), x + (blockWidth + 1), y);
              RowsScanFailed(screenStaging, screenProduction, blockWidth, blockHeight,
                             Progress(drawn, true), y + (blockHeight + 1));
              CompareByRows(screenStaging, screenProduction, drawn, true);
              failed := true;
              break rows;
            }
            if Mismatched(regionStaging.value, regionProduction.value) {
              drawn := drawn + [Outline(Cell(x, y), blockWidth, blockHeight)];
              mistakenBlocks := mistakenBlocks + 1;
            }
          }
          x := x + (blockWidth + 1);
        }
        y := y + (blockHeight + 1);
      }
      screenshotStaging := Some(screenStaging);
      screenshotProduction := Some(screenProduction);
      resultOutlines := drawn;
      if failed {
        mistakes := Err(ZeroDivision);
      } else {
        CompareByRows(screenStaging, screenProduction, drawn, false);
        mistakes := Ok(mistakenBlocks);
      }
    }

    /**
     * `divide_to_cells`: the blue outlines of a 30 x 40 grid with the same
     * striding rule, in drawing order (writing the picture to a file is
     * not part of this model).
     */
    method DivideToCells(image: Image) returns (outlines: seq<Rect>)
      ensures var blockWidth := BlockSize(image.width, DEBUG_COLUMNS);
              var blockHeight := BlockSize(image.height, DEBUG_ROWS);
              outlines == Outlines(Grid(image.width, image.height, blockWidth, blockHeight),
                                   blockWidth, blockHeight)
    {
      var screenWidth, screenHeight := image.width, image.height;
      var blockWidth := BlockSize(screenWidth, DEBUG_COLUMNS);
      var blockHeight := BlockSize(screenHeight, DEBUG_ROWS);
      ghost var final := GridOutlines(screenWidth, screenHeight, blockWidth, blockHeight, [], 0);
      outlines := [];
      var i: nat := 0;
      while i < screenHeight
        invariant GridOutlines(screenWidth, screenHeight, blockWidth, blockHeight, outlines, i) == final
        decreases screenHeight - i
      {
        ghost var rowEnd := RowOutlines(screenWidth, blockWidth, blockHeight, outlines, 0, i);
        var j: nat := 0;
        while j < screenWidth
          invariant RowOutlines(screenWidth, blockWidth, blockHeight, outlines, j, i) == rowEnd
          decreases screenWidth - j
        {
          outlines := outlines + [Outline(Cell(j, i), blockWidth, blockHeight)];
          j := j + (blockWidth + 1);
        }
        i := i + (blockHeight + 1);
      }
      DrawnByRows(screenWidth, screenHeight, blockWidth, blockHeight);
    }
  }
}
