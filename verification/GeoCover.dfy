/**
 * The cells a geo search has to look at: the cell of the centre and its neighbours, on a grid coarse
 * enough that nothing within reach is further than one cell away. Longitude wraps around.
 */
module GeoCover {
  import Powers
  import opened GeoHash

  datatype Interval = Interval(first: int, last: int)

  /** The scores of cell (x, y) of the grid whose cells are `2^shift` smallest cells wide. */
  function IntervalOf(x: nat, y: nat, shift: nat): Interval {
    var first := Interleave(ShiftLeft(x, shift), ShiftLeft(y, shift));
    Interval(first, first + ShiftScoreLeft(1, shift) - 1)
  }

  predicate Contains(i: Interval, h: nat) { i.first <= h <= i.last }

  /** The same column, or the one before or after it around the globe. */
  predicate NextTo(x: int, center: int, cells: int) {
    x == center || x == center - 1 || x == center + 1
    || (x == 0 && center == cells - 1) || (x == cells - 1 && center == 0)
  }

  predicate Near(x: int, y: int, cx: int, cy: int, cells: int) {
    NextTo(x, cx, cells) && -1 <= y - cy <= 1
  }

  function Wrap(x: int, cells: int): int {
    if x < 0 then x + cells else if x >= cells then x - cells else x
  }

  // ---- the grid --------------------------------------------------------------------------------------

  /** The width and the height of a cell, in degrees. */
  function CellWidth(step: nat): real {
    PowerPositive(step);
    360.0 / ShiftLeft(1, step) as real
  }

  function CellHeight(step: nat): real {
    PowerPositive(step);
    2.0 * LATITUDE_MAX / ShiftLeft(1, step) as real
  }

  /** Cells of this grid are at least as wide and as high as the reach. */
  predicate WideEnough(step: nat, lonReach: real, latReach: real) {
    CellWidth(step) >= lonReach && CellHeight(step) >= latReach
  }

  lemma {:induction false} PowerPositive(n: nat)
    ensures ShiftLeft(1, n) > 0
  {
    if n != 0 {
      PowerPositive(n - 1);
    }
  }

  /** The finest grid that is wide enough, or step 0 when even the coarsest is not. */
  method ChooseStep(lonReach: real, latReach: real) returns (step: nat)
    ensures step <= AXIS_BITS && (step > 0 ==> WideEnough(step, lonReach, latReach))
    ensures forall finer :: step < finer <= AXIS_BITS ==> !WideEnough(finer, lonReach, latReach)
  {
    step := AXIS_BITS;
    while step > 0 && !WideEnough(step, lonReach, latReach)
      invariant step <= AXIS_BITS
      invariant forall finer :: step < finer <= AXIS_BITS ==> !WideEnough(finer, lonReach, latReach)
    {
      step := step - 1;
    }
  }

  // ---- columns and rows --------------------------------------------------------------------------------

  lemma {:induction false} ShiftIsProduct(v: nat, n: nat)
    ensures ShiftLeft(v, n) == v * ShiftLeft(1, n)
  {
    if n != 0 {
      ShiftIsProduct(v, n - 1);
      assert 2 * (v * ShiftLeft(1, n - 1)) == v * (2 * ShiftLeft(1, n - 1));
    }
  }

  lemma {:induction false} ShiftSum(a: nat, b: nat)
    ensures ShiftLeft(1, a) * ShiftLeft(1, b) == ShiftLeft(1, a + b)
  {
    if a != 0 {
      ShiftSum(a - 1, b);
      assert 2 * (ShiftLeft(1, a - 1) * ShiftLeft(1, b)) == (2 * ShiftLeft(1, a - 1)) * ShiftLeft(1, b);
    }
  }

  lemma {:induction false} ShiftBlock(v: nat, n: nat)
    ensures ShiftLeft(ShiftRight(v, n), n) <= v < ShiftLeft(ShiftRight(v, n) + 1, n)
  {
    if n != 0 {
      ShiftBlock(v / 2, n - 1);
    }
  }

  /** Where a scaled coordinate lies in a grid of cells `m` wide. */
  predicate Inside(k: int, s: real, m: real, all: real) {
    k as real * m <= s && (s < all ==> s < (k as real + 1.0) * m)
  }

  lemma ColumnBounds(s: real, n: nat, m: nat)
    requires 0.0 <= s <= AXIS_CELLS as real && m == ShiftLeft(1, n)
    ensures var k := ShiftRight(Cell(s), n); k * m <= Cell(s) < (k + 1) * m
  {
    var k := ShiftRight(Cell(s), n);
    ShiftBlock(Cell(s), n);
    ShiftIsProduct(k, n);
    ShiftIsProduct(k + 1, n);
  }

  lemma ColumnInside(s: real, n: nat, m: nat)
    requires 0.0 <= s <= AXIS_CELLS as real && m == ShiftLeft(1, n)
    ensures Inside(ShiftRight(Cell(s), n), s, m as real, AXIS_CELLS as real)
  {
    var k := ShiftRight(Cell(s), n);
    CellRange(s);
    ColumnBounds(s, n, m);
    InsideBlock(k, m, Cell(s), s, AXIS_CELLS as real);
  }

  lemma InsideBlock(k: nat, m: nat, c: nat, s: real, all: real)
    requires k * m <= c < (k + 1) * m && c as real <= s && (s < all ==> s < c as real + 1.0)
    ensures Inside(k, s, m as real, all)
  {
    Reals(k, m, k * m);
    Reals(k + 1, m, (k + 1) * m);
    assert (c + 1) as real <= ((k + 1) * m) as real;
  }

  lemma Reals(a: nat, b: nat, ab: nat)
    requires ab == a * b
    ensures ab as real == a as real * b as real
  {
  }

  // ---- one cell is enough ------------------------------------------------------------------------------

  /** `j` turns around the globe bring the two within `m` of each other. */
  predicate Reach(p: real, c: real, j: int, m: real, all: real) {
    -m <= p - c + j as real * all <= m
  }

  /** The only two points a whole cell apart that are two columns apart: the seam counted twice. */
  predicate AcrossTheSeam(p: real, c: real, m: real, all: real) {
    (c == all && p == m) || (p == all && c == m)
  }

  /** Away from the seam, at most one column lies between two points within a cell's width. */
  lemma ColumnsMeet(p: real, c: real, j: int, kp: int, kc: int, cells: int, m: real, all: real)
    requires m > 0.0 && all == cells as real * m && Reach(p, c, j, m, all) && p < all && c < all
    requires Inside(kp, p, m, all) && Inside(kc, c, m, all)
    ensures -1 <= kp - kc + j * cells <= 1
  {
    var t := kp - kc + j * cells;
    assert t as real * m == kp as real * m - kc as real * m + j as real * all by {
      assert t as real == kp as real - kc as real + j as real * cells as real;
      assert (j as real * cells as real) * m == j as real * (cells as real * m);
    }
    Multiples(t, 2, m);
    Multiples(-2, t, m);
  }

  lemma Multiples(a: int, b: int, m: real)
    requires m > 0.0
    ensures a >= b ==> a as real * m >= b as real * m
    ensures a < b ==> a as real * m <= b as real * m - m
  {
    if a >= b {
      assert (a - b) as real * m >= 0.0;
    } else {
      assert (b - 1 - a) as real * m >= 0.0;
    }
  }

  /** A point of the axis and its column; the far edge belongs to the last column. */
  predicate InColumn(k: int, s: real, m: real, cells: int, all: real) {
    0 <= k < cells && 0.0 <= s <= all && Inside(k, s, m, all) && (s == all ==> k == cells - 1)
  }

  /** The far edge of the axis and a point within a cell of it. */
  lemma EdgeColumns(p: real, kp: int, j: int, cells: int, m: real, all: real)
    requires m > 0.0 && all == cells as real * m && cells >= 2 && -1 <= j <= 1
    requires InColumn(kp, p, m, cells, all) && p < all && Reach(p, all, j, m, all)
    ensures (j == 0 && kp == cells - 1) || (j == 1 && kp == if p < m then 0 else 1)
    ensures j == 1 ==> p <= m
  {
    if j == 0 {
      LastColumnFrom(p, kp, cells, m, all);
    } else if j == 1 {
      FirstColumnsTo(p, kp, m, all);
    } else {
      NotBehind(p, cells, m, all);
      assert false;
    }
  }

  lemma NotBehind(p: real, cells: int, m: real, all: real)
    requires m > 0.0 && all == cells as real * m && cells >= 2 && p < all
    ensures !Reach(p, all, -1, m, all)
  {
    Multiples(cells, 2, m);
    assert all >= 2.0 * m;
    assert (-1) as real * all == -all;
  }

  lemma LastColumnFrom(p: real, k: int, cells: int, m: real, all: real)
    requires m > 0.0 && all == cells as real * m && InColumn(k, p, m, cells, all) && all - m <= p < all
    ensures k == cells - 1
  {
    Multiples(k + 2, cells, m);
    assert (k + 2) as real * m == (k as real + 1.0) * m + m;
  }

  lemma FirstColumnsTo(p: real, k: int, m: real, all: real)
    requires m > 0.0 && k >= 0 && Inside(k, p, m, all) && 0.0 <= p <= m && p < all
    ensures k == if p < m then 0 else 1
  {
    if k == 0 {
      assert (0 as real + 1.0) * m == m;
    } else if k == 1 {
      assert 1 as real * m == m;
    } else {
      Multiples(k, 2, m);
      assert false;
    }
  }

  /** The column of the far edge and that of a point within a cell of it. */
  lemma EdgeNextTo(p: real, kp: int, j: int, cells: int, m: real, all: real)
    requires m > 0.0 && all == cells as real * m && (cells == 2 || cells >= 4) && -1 <= j <= 1
    requires InColumn(kp, p, m, cells, all) && p < all && Reach(p, all, j, m, all)
    ensures NextTo(kp, cells - 1, cells) <==> !(cells >= 4 && p == m)
    ensures NextTo(cells - 1, kp, cells) <==> !(cells >= 4 && p == m)
  {
    EdgeColumns(p, kp, j, cells, m, all);
    if j == 0 {
      EdgeIsFar(p, cells, m, all);
    }
  }

  /** Within a cell of the far edge is more than a cell from the near one, once there are four. */
  lemma EdgeIsFar(p: real, cells: int, m: real, all: real)
    requires m > 0.0 && all == cells as real * m && p >= all - m
    ensures cells >= 4 ==> p > m
  {
    Multiples(cells, 4, m);
  }

  lemma ReachBack(p: real, c: real, j: int, m: real, all: real)
    requires Reach(p, c, j, m, all)
    ensures Reach(c, p, -j, m, all)
  {
    assert (-j) as real * all == -(j as real * all);
  }

  /**
   * Two points within a cell's width are in the same or neighbouring columns, except across the
   * seam; there the exception is real as soon as the grid has four columns.
   */
  lemma ColumnsNextTo(p: real, c: real, j: int, kp: int, kc: int, cells: int, m: real, all: real)
    requires m > 0.0 && all == cells as real * m && (cells == 2 || cells >= 4) && -1 <= j <= 1
    requires InColumn(kp, p, m, cells, all) && InColumn(kc, c, m, cells, all) && Reach(p, c, j, m, all)
    ensures NextTo(kp, kc, cells) <==> !(cells >= 4 && AcrossTheSeam(p, c, m, all))
  {
    if p < all && c < all {
      ColumnsMeet(p, c, j, kp, kc, cells, m, all);
    } else if p < all {
      EdgeNextTo(p, kp, j, cells, m, all);
    } else if c < all {
      ReachBack(p, c, j, m, all);
      EdgeNextTo(c, kc, -j, cells, m, all);
    } else {
      Multiples(cells, 2, m);
    }
  }

  /** Rows do not wrap, and the poles' edges are no exception. */
  lemma RowsNextTo(p: real, c: real, kp: int, kc: int, cells: int, m: real, all: real)
    requires m > 0.0 && all == cells as real * m && cells >= 2
    requires InColumn(kp, p, m, cells, all) && InColumn(kc, c, m, cells, all) && Reach(p, c, 0, m, all)
    ensures -1 <= kp - kc <= 1
  {
    if p < all && c < all {
      ColumnsMeet(p, c, 0, kp, kc, cells, m, all);
    } else if p < all {
      EdgeColumns(p, kp, 0, cells, m, all);
    } else if c < all {
      ReachBack(p, c, 0, m, all);
      EdgeColumns(c, kc, 0, cells, m, all);
    }
  }

  // ---- in degrees ----------------------------------------------------------------------------------------

  function Shift(step: nat): nat
    requires step <= AXIS_BITS
  {
    AXIS_BITS - step
  }

  function Column(lon: real, step: nat): nat
    requires -180.0 <= lon <= 180.0 && step <= AXIS_BITS
  {
    ScaleRange(lon, 0.0);
    ShiftRight(Cell(ScaleLon(lon)), Shift(step))
  }

  function Row(lat: real, step: nat): nat
    requires -LATITUDE_MAX <= lat <= LATITUDE_MAX && step <= AXIS_BITS
  {
    ScaleRange(0.0, lat);
    ShiftRight(Cell(ScaleLat(lat)), Shift(step))
  }

  /** The scores a search around this centre looks at. */
  predicate Covered(step: nat, lon: real, lat: real, h: nat)
    requires ValidCoordinates(lon, lat) && step <= AXIS_BITS
  {
    step == 0 || Near(ShiftRight(Odds(h), Shift(step)), ShiftRight(Evens(h), Shift(step)),
                      Column(lon, step), Row(lat, step), ShiftLeft(1, step))
  }

  /** The two sizes of a grid. */
  lemma GridSizes(step: nat) returns (m: nat, cells: nat)
    requires step <= AXIS_BITS
    ensures m == ShiftLeft(1, Shift(step)) && cells == ShiftLeft(1, step) && m > 0 && cells > 0
    ensures AXIS_CELLS as real == cells as real * m as real
    ensures step >= 1 ==> cells >= 2
    ensures step == 1 ==> cells == 2
    ensures step >= 2 ==> cells >= 4
  {
    m, cells := ShiftLeft(1, Shift(step)), ShiftLeft(1, step);
    PowerPositive(Shift(step));
    PowerPositive(step);
    ShiftSum(step, Shift(step));
    Sizes();
    Reals(cells, m, cells * m);
    if step >= 2 {
      PowerPositive(step - 2);
    }
  }

  lemma ScaledInColumn(s: real, step: nat, m: nat, cells: nat)
    requires 0.0 <= s <= AXIS_CELLS as real && step <= AXIS_BITS
    requires m == ShiftLeft(1, Shift(step)) && cells == ShiftLeft(1, step)
    requires m > 0 && AXIS_CELLS as real == cells as real * m as real
    ensures InColumn(ShiftRight(Cell(s), Shift(step)), s, m as real, cells, AXIS_CELLS as real)
  {
    var k := ShiftRight(Cell(s), Shift(step));
    CellRange(s);
    Sizes();
    ColumnInside(s, Shift(step), m);
    ShiftBelow(Cell(s), Shift(step), step);
    if s == AXIS_CELLS as real {
      LastColumn(k, m, cells);
      ColumnBounds(s, Shift(step), m);
    }
  }

  lemma LastColumn(k: nat, m: nat, cells: nat)
    requires m > 0 && AXIS_CELLS as real == cells as real * m as real && k < cells
    ensures k * m <= AXIS_CELLS - 1 < (k + 1) * m ==> k == cells - 1
  {
    Reals(cells, m, cells * m);
    assert cells * m == AXIS_CELLS;
    if k + 1 < cells {
      assert (k + 2) * m <= cells * m;
    }
  }

  /** A reach no wider than a cell, in units of the smallest cell. */
  lemma ScaledReach(reach: real, span: real, m: real, cells: real, all: real)
    requires m > 0.0 && cells > 0.0 && span > 0.0 && all == cells * m && span / cells >= reach
    ensures reach * all <= span * m
  {
    assert reach * cells <= span;
    assert (reach * cells) * m <= span * m;
    assert (reach * cells) * m == reach * (cells * m);
  }

  lemma LonReach(p: real, c: real, j: int, reach: real, m: real)
    requires -reach <= p - c + j as real * 360.0 <= reach && reach * AXIS_CELLS as real <= 360.0 * m
    ensures Reach(ScaleLon(p), ScaleLon(c), j, m, AXIS_CELLS as real)
  {
    var d := p - c + j as real * 360.0;
    assert ScaleLon(p) - ScaleLon(c) + j as real * AXIS_CELLS as real == d / 360.0 * AXIS_CELLS as real;
  }

  lemma LatReach(p: real, c: real, reach: real, m: real)
    requires -reach <= p - c <= reach && reach * AXIS_CELLS as real <= 2.0 * LATITUDE_MAX * m
    ensures Reach(ScaleLat(p), ScaleLat(c), 0, m, AXIS_CELLS as real)
  {
    var d := p - c;
    assert ScaleLat(p) - ScaleLat(c) == d / (2.0 * LATITUDE_MAX) * AXIS_CELLS as real;
  }

  /** The point exactly one cell east of longitude 180. */
  predicate OneCellEast(step: nat, lon: real)
    requires step <= AXIS_BITS
  {
    ScaleLon(lon) == ShiftLeft(1, Shift(step)) as real
  }

  /** Longitude 180 and the point one cell east of it, in either role. */
  predicate Seam(step: nat, a: real, b: real)
    requires step <= AXIS_BITS
  {
    step >= 2 && ((a == 180.0 && OneCellEast(step, b)) || (b == 180.0 && OneCellEast(step, a)))
  }

  /** That point in degrees. */
  lemma EastInDegrees(step: nat, lon: real)
    requires step <= AXIS_BITS
    ensures OneCellEast(step, lon) <==> lon == -180.0 + CellWidth(step)
  {
    var m, cells := GridSizes(step);
    var width := CellWidth(step);
    EastIn(step, lon, m, cells, width);
  }

  lemma EastIn(step: nat, lon: real, m: nat, cells: nat, width: real)
    requires step <= AXIS_BITS && m == ShiftLeft(1, Shift(step)) && m > 0 && cells > 0
    requires AXIS_CELLS as real == cells as real * m as real && width == 360.0 / cells as real
    ensures OneCellEast(step, lon) <==> lon == -180.0 + width
  {
    EastFrom(lon, width, m as real, cells as real);
  }

  lemma EastFrom(lon: real, width: real, m: real, cells: real)
    requires cells > 0.0 && m > 0.0 && AXIS_CELLS as real == cells * m && width == 360.0 / cells
    ensures ScaleLon(lon) == m <==> lon == -180.0 + width
  {
    OneCell(lon + 180.0, m, cells);
  }

  lemma OneCell(x: real, m: real, cells: real)
    requires cells > 0.0 && m > 0.0 && AXIS_CELLS as real == cells * m
    ensures x == 360.0 / cells <==> x / 360.0 * AXIS_CELLS as real == m
  {
    var q := x / 360.0;
    assert q * (cells * m) == (q * cells) * m;
    assert q * cells == 1.0 <==> (q * cells) * m == m;
    assert q * cells == 1.0 <==> q == 1.0 / cells;
    assert 360.0 / cells == 360.0 * (1.0 / cells);
  }

  lemma EdgeScaled(p: real)
    ensures p == 180.0 <==> ScaleLon(p) == AXIS_CELLS as real
  {
  }

  /** The sizes of a grid, together. */
  predicate Grid(step: nat, m: nat, cells: nat) {
    && step <= AXIS_BITS && m == ShiftLeft(1, Shift(step)) && cells == ShiftLeft(1, step)
    && m > 0 && cells > 0 && AXIS_CELLS as real == cells as real * m as real
  }

  lemma LonColumn(lon: real, step: nat, m: nat, cells: nat)
    requires -180.0 <= lon <= 180.0 && Grid(step, m, cells)
    ensures InColumn(Column(lon, step), ScaleLon(lon), m as real, cells, AXIS_CELLS as real)
  {
    ScaleRange(lon, 0.0);
    ScaledInColumn(ScaleLon(lon), step, m, cells);
  }

  lemma LatRow(lat: real, step: nat, m: nat, cells: nat)
    requires -LATITUDE_MAX <= lat <= LATITUDE_MAX && Grid(step, m, cells)
    ensures InColumn(Row(lat, step), ScaleLat(lat), m as real, cells, AXIS_CELLS as real)
  {
    ScaleRange(0.0, lat);
    ScaledInColumn(ScaleLat(lat), step, m, cells);
  }

  lemma LonWithin(step: nat, reach: real, lon: real, plon: real, j: int, m: nat, cells: nat)
    requires Grid(step, m, cells) && CellWidth(step) >= reach && -reach <= plon - lon + j as real * 360.0 <= reach
    ensures Reach(ScaleLon(plon), ScaleLon(lon), j, m as real, AXIS_CELLS as real)
  {
    ScaledReach(reach, 360.0, m as real, cells as real, AXIS_CELLS as real);
    LonReach(plon, lon, j, reach, m as real);
  }

  lemma LatWithin(step: nat, reach: real, lat: real, plat: real, m: nat, cells: nat)
    requires Grid(step, m, cells) && CellHeight(step) >= reach && -reach <= plat - lat <= reach
    ensures Reach(ScaleLat(plat), ScaleLat(lat), 0, m as real, AXIS_CELLS as real)
  {
    ScaledReach(reach, 2.0 * LATITUDE_MAX, m as real, cells as real, AXIS_CELLS as real);
    LatReach(plat, lat, reach, m as real);
  }

  /** What the column lemma needs to know about one longitude. */
  predicate Scaled(lon: real, s: real, k: int, m: real, cells: int) {
    && InColumn(k, s, m, cells, AXIS_CELLS as real)
    && (lon == 180.0 <==> s == AXIS_CELLS as real)
  }

  lemma LonScaled(step: nat, lon: real, m: nat, cells: nat)
    requires -180.0 <= lon <= 180.0 && Grid(step, m, cells)
    ensures Scaled(lon, ScaleLon(lon), Column(lon, step), m as real, cells)
  {
    LonColumn(lon, step, m, cells);
    EdgeScaled(lon);
  }

  lemma LonPair(step: nat, reach: real, lon: real, plon: real, j: int, m: nat, cells: nat) returns (s: real, t: real)
    requires -180.0 <= lon <= 180.0 && -180.0 <= plon <= 180.0 && Grid(step, m, cells)
    requires CellWidth(step) >= reach && -reach <= plon - lon + j as real * 360.0 <= reach
    ensures Scaled(plon, s, Column(plon, step), m as real, cells)
    ensures Scaled(lon, t, Column(lon, step), m as real, cells)
    ensures (OneCellEast(step, plon) <==> s == m as real) && (OneCellEast(step, lon) <==> t == m as real)
    ensures Reach(s, t, j, m as real, AXIS_CELLS as real)
  {
    s, t := ScaleLon(plon), ScaleLon(lon);
    LonScaled(step, plon, m, cells);
    LonScaled(step, lon, m, cells);
    LonWithin(step, reach, lon, plon, j, m, cells);
  }

  lemma ColumnsFromPair(p: real, c: real, pEast: bool, cEast: bool, s: real, t: real, j: int, ks: int, kt: int,
                        cells: nat, m: nat)
    requires Scaled(p, s, ks, m as real, cells) && Scaled(c, t, kt, m as real, cells)
    requires Reach(s, t, j, m as real, AXIS_CELLS as real) && (pEast <==> s == m as real) && (cEast <==> t == m as real)
    requires m > 0 && AXIS_CELLS as real == cells as real * m as real && -1 <= j <= 1 && (cells == 2 || cells >= 4)
    ensures NextTo(ks, kt, cells) <==> !(cells >= 4 && ((c == 180.0 && pEast) || (p == 180.0 && cEast)))
  {
    ColumnsNextTo(s, t, j, ks, kt, cells, m as real, AXIS_CELLS as real);
  }

  lemma ColumnsCoveredIn(step: nat, reach: real, lon: real, plon: real, j: int, m: nat, cells: nat, kp: int, kc: int)
    requires -180.0 <= lon <= 180.0 && -180.0 <= plon <= 180.0 && Grid(step, m, cells)
    requires CellWidth(step) >= reach && -1 <= j <= 1 && -reach <= plon - lon + j as real * 360.0 <= reach
    requires (cells == 2 || cells >= 4) && kp == Column(plon, step) && kc == Column(lon, step)
    ensures NextTo(kp, kc, cells)
       <==> !(cells >= 4 && ((lon == 180.0 && OneCellEast(step, plon)) || (plon == 180.0 && OneCellEast(step, lon))))
  {
    var s, t := LonPair(step, reach, lon, plon, j, m, cells);
    ColumnsFromPair(plon, lon, OneCellEast(step, plon), OneCellEast(step, lon), s, t, j, kp, kc, cells, m);
  }

  lemma ColumnsCovered(step: nat, reach: real, lon: real, plon: real, j: int)
    requires -180.0 <= lon <= 180.0 && -180.0 <= plon <= 180.0 && 1 <= step <= AXIS_BITS
    requires CellWidth(step) >= reach && -1 <= j <= 1 && -reach <= plon - lon + j as real * 360.0 <= reach
    ensures NextTo(Column(plon, step), Column(lon, step), ShiftLeft(1, step)) <==> !Seam(step, lon, plon)
  {
    var m, cells := GridSizes(step);
    ColumnsCoveredIn(step, reach, lon, plon, j, m, cells, Column(plon, step), Column(lon, step));
  }

  lemma LatPair(step: nat, reach: real, lat: real, plat: real, m: nat, cells: nat) returns (s: real, t: real)
    requires -LATITUDE_MAX <= lat <= LATITUDE_MAX && -LATITUDE_MAX <= plat <= LATITUDE_MAX && Grid(step, m, cells)
    requires CellHeight(step) >= reach && -reach <= plat - lat <= reach
    ensures InColumn(Row(plat, step), s, m as real, cells, AXIS_CELLS as real)
    ensures InColumn(Row(lat, step), t, m as real, cells, AXIS_CELLS as real)
    ensures Reach(s, t, 0, m as real, AXIS_CELLS as real)
  {
    s, t := ScaleLat(plat), ScaleLat(lat);
    LatRow(lat, step, m, cells);
    LatRow(plat, step, m, cells);
    LatWithin(step, reach, lat, plat, m, cells);
  }

  lemma RowsCoveredIn(step: nat, reach: real, lat: real, plat: real, m: nat, cells: nat, kp: int, kc: int)
    requires -LATITUDE_MAX <= lat <= LATITUDE_MAX && -LATITUDE_MAX <= plat <= LATITUDE_MAX && Grid(step, m, cells)
    requires CellHeight(step) >= reach && -reach <= plat - lat <= reach
    requires cells >= 2 && kp == Row(plat, step) && kc == Row(lat, step)
    ensures -1 <= kp - kc <= 1
  {
    var s, t := LatPair(step, reach, lat, plat, m, cells);
    RowsFromPair(s, t, kp, kc, cells, m);
  }

  lemma RowsFromPair(s: real, t: real, kp: int, kc: int, cells: nat, m: nat)
    requires InColumn(kp, s, m as real, cells, AXIS_CELLS as real) && InColumn(kc, t, m as real, cells, AXIS_CELLS as real)
    requires Reach(s, t, 0, m as real, AXIS_CELLS as real)
    requires m > 0 && cells >= 2 && AXIS_CELLS as real == cells as real * m as real
    ensures -1 <= kp - kc <= 1
  {
    RowsNextTo(s, t, kp, kc, cells, m as real, AXIS_CELLS as real);
  }

  lemma RowsCovered(step: nat, reach: real, lat: real, plat: real)
    requires -LATITUDE_MAX <= lat <= LATITUDE_MAX && -LATITUDE_MAX <= plat <= LATITUDE_MAX && 1 <= step <= AXIS_BITS
    requires CellHeight(step) >= reach && -reach <= plat - lat <= reach
    ensures -1 <= Row(plat, step) - Row(lat, step) <= 1
  {
    var m, cells := GridSizes(step);
    RowsCoveredIn(step, reach, lat, plat, m, cells, Row(plat, step), Row(lat, step));
  }

  /** The cell of a point's score is the cell of the point. */
  lemma CellOfScore(lon: real, lat: real, step: nat)
    requires ValidCoordinates(lon, lat) && step <= AXIS_BITS
    ensures ShiftRight(Odds(EncodeSpec(lon, lat)), Shift(step)) == Column(lon, step)
    ensures ShiftRight(Evens(EncodeSpec(lon, lat)), Shift(step)) == Row(lat, step)
  {
    ScaleRange(lon, lat);
    Separates(Cell(ScaleLon(lon)), Cell(ScaleLat(lat)));
  }

  /**
   * Everything within reach of the centre is covered, with longitude taken around the globe, except
   * for one pair of points: longitude 180 and the point exactly one cell east of it.
   */
  lemma Covers(step: nat, lonReach: real, latReach: real, lon: real, lat: real, plon: real, plat: real, j: int)
    requires ValidCoordinates(lon, lat) && ValidCoordinates(plon, plat)
    requires step <= AXIS_BITS && (step > 0 ==> WideEnough(step, lonReach, latReach))
    requires -1 <= j <= 1 && -lonReach <= plon - lon + j as real * 360.0 <= lonReach
    requires -latReach <= plat - lat <= latReach
    ensures Covered(step, lon, lat, EncodeSpec(plon, plat)) <==> !Seam(step, lon, plon)
  {
    if step > 0 {
      PowerPositive(step);
      CellOfScore(plon, plat, step);
      ColumnsCovered(step, lonReach, lon, plon, j);
      RowsCovered(step, latReach, lat, plat);
    }
  }

  /** The exception is real: centre 180, and a point a full reach east of it, on a grid of that width. */
  lemma SeamIsMissed(step: nat)
    requires 2 <= step <= AXIS_BITS
    ensures var reach, plon := CellWidth(step), -180.0 + CellWidth(step);
      && ValidCoordinates(180.0, 0.0) && ValidCoordinates(plon, 0.0) && WideEnough(step, reach, 0.0)
      && plon - 180.0 + 360.0 == reach && !Covered(step, 180.0, 0.0, EncodeSpec(plon, 0.0))
  {
    var plon := -180.0 + CellWidth(step);
    PowerPositive(step);
    EastInDegrees(step, plon);
    assert 0.0 <= CellWidth(step) <= 360.0;
    assert 0.0 <= CellHeight(step);
    Covers(step, CellWidth(step), 0.0, 180.0, 0.0, plon, 0.0, 1);
  }

  /** The middle of a cell is never at the seam, so every stored score within reach is covered. */
  lemma StoredCovered(step: nat, lonReach: real, latReach: real, lon: real, lat: real, h: nat, j: int)
    requires ValidCoordinates(lon, lat) && h < SCORES
    requires step <= AXIS_BITS && (step > 0 ==> WideEnough(step, lonReach, latReach))
    requires -1 <= j <= 1 && -lonReach <= MiddleLon(Odds(h)) - lon + j as real * 360.0 <= lonReach
    requires -latReach <= MiddleLat(Evens(h)) - lat <= latReach
    ensures Covered(step, lon, lat, h)
  {
    EncodeDecoded(h);
    NotAtTheSeam(Odds(h), step, lon);
    Covers(step, lonReach, latReach, lon, lat, MiddleLon(Odds(h)), MiddleLat(Evens(h)), j);
  }

  lemma NotAtTheSeam(x: nat, step: nat, lon: real)
    requires step <= AXIS_BITS
    ensures !Seam(step, lon, MiddleLon(x))
  {
    ScaledMiddle(x);
    EdgeScaled(MiddleLon(x));
    Halfway(x, ShiftLeft(1, Shift(step)));
    Halfway(x, AXIS_CELLS);
  }

  lemma Halfway(x: nat, k: nat)
    ensures x as real + 0.5 != k as real
  {
    assert (x as real + 0.5).Floor == x && (k as real).Floor == k;
  }

  // ---- the intervals -------------------------------------------------------------------------------------

  ghost predicate SomeContains(intervals: seq<Interval>, h: nat) {
    exists i :: 0 <= i < |intervals| && Contains(intervals[i], h)
  }

  /** The interval of some cell next to the centre. */
  ghost predicate IsNear(i: Interval, cx: nat, cy: nat, cells: nat, shift: nat) {
    exists x: nat, y: nat :: x < cells && y < cells && Near(x, y, cx, cy, cells) && i == IntervalOf(x, y, shift)
  }

  /** What the list of intervals satisfies while it is built. */
  ghost predicate Listed(intervals: seq<Interval>, cx: nat, cy: nat, cells: nat, shift: nat) {
    && (forall i :: 0 <= i < |intervals| ==> IsNear(intervals[i], cx, cy, cells, shift))
    && (forall i, j :: 0 <= i < j < |intervals| ==> intervals[i].first != intervals[j].first)
  }

  /** The cell at an offset from the centre is in the list, if the grid has such a row. */
  ghost predicate Added(intervals: seq<Interval>, cx: nat, cy: nat, cells: nat, shift: nat, dx: int, dy: int) {
    0 <= cy + dy < cells && 0 <= Wrap(cx + dx, cells) ==> IntervalOf(Wrap(cx + dx, cells), cy + dy, shift) in intervals
  }

  predicate Center(step: nat, cx: nat, cy: nat, cells: nat, shift: nat) {
    1 <= step <= AXIS_BITS && shift == Shift(step) && cells == ShiftLeft(1, step) && cx < cells && cy < cells && cells >= 2
  }

  lemma {:induction false} ShiftLeftBelow(v: nat, n: nat, k: nat)
    requires v < ShiftLeft(1, k)
    ensures ShiftLeft(v, n) < ShiftLeft(1, n + k)
  {
    if n != 0 {
      ShiftLeftBelow(v, n - 1, k);
    }
  }

  /** Adds the cell at an offset, unless it is off the grid or already there. */
  method AddCell(intervals: seq<Interval>, step: nat, cx: nat, cy: nat, cells: nat, shift: nat, dx: int, dy: int)
    returns (more: seq<Interval>)
    requires Center(step, cx, cy, cells, shift) && Listed(intervals, cx, cy, cells, shift)
    requires -1 <= dx <= 1 && -1 <= dy <= 1
    ensures Listed(more, cx, cy, cells, shift) && Added(more, cx, cy, cells, shift, dx, dy) && intervals <= more
  {
    more := intervals;
    var y := cy + dy;
    if y < 0 || y >= cells {
      return;
    }
    var x := (cx + dx + cells) % cells;
    Wrapped(cx, dx, cells);
    ShiftLeftBelow(x, shift, step);
    ShiftLeftBelow(y, shift, step);
    Sizes();
    var high := Spread26(ShiftLeft(x, shift));
    var low := Spread26(ShiftLeft(y, shift));
    var first := 2 * high + low;
    var interval := Interval(first, first + ShiftScoreLeft(1, shift) - 1);
    assert interval == IntervalOf(x, y, shift) && IsNear(interval, cx, cy, cells, shift);
    for i := 0 to |intervals|
      invariant forall k :: 0 <= k < i ==> intervals[k].first != first
    {
      if intervals[i].first == first {
        SameFirst(intervals[i], cx, cy, cells, shift, interval);
        return;
      }
    }
    more := intervals + [interval];
  }

  lemma Wrapped(cx: nat, dx: int, cells: nat)
    requires cx < cells && -1 <= dx <= 1 && cells >= 2
    ensures (cx + dx + cells) % cells == Wrap(cx + dx, cells) && 0 <= Wrap(cx + dx, cells) < cells
    ensures NextTo(Wrap(cx + dx, cells), cx, cells)
  {
    var x := Wrap(cx + dx, cells);
    Remainder(cx + dx + cells, cells, if cx + dx < 0 then 0 else if cx + dx >= cells then 2 else 1, x);
  }

  lemma Remainder(a: nat, d: nat, q: nat, r: nat)
    requires d > 0 && r < d && a == d * q + r
    ensures a % d == r
  {
    assert a == d * (a / d) + a % d;
    Step(d, a / d, q);
    Step(d, q, a / d);
  }

  lemma Step(d: nat, a: int, b: int)
    ensures a < b ==> d * a + d <= d * b
  {
    if a < b {
      Powers.MulLessEq(d, a + 1, b);
      assert d * (a + 1) == d * a + d;
    }
  }

  /** Aligned intervals of one width are equal when they start together. */
  lemma SameFirst(i: Interval, cx: nat, cy: nat, cells: nat, shift: nat, other: Interval)
    requires IsNear(i, cx, cy, cells, shift) && i.first == other.first
    requires other.last == other.first + ShiftScoreLeft(1, shift) - 1
    ensures i == other
  {
  }

  /** A listed interval holds exactly the scores of a cell next to the centre. */
  lemma ListedIsNear(i: Interval, cx: nat, cy: nat, cells: nat, shift: nat, h: nat)
    requires IsNear(i, cx, cy, cells, shift) && Contains(i, h)
    ensures Near(ShiftRight(Odds(h), shift), ShiftRight(Evens(h), shift), cx, cy, cells)
  {
    var x: nat, y: nat :| x < cells && y < cells && Near(x, y, cx, cy, cells) && i == IntervalOf(x, y, shift);
    CellIsInterval(h, x, y, shift);
  }

  /** Two aligned intervals that share a score are one. */
  lemma SharedScore(a: Interval, b: Interval, cx: nat, cy: nat, cells: nat, shift: nat, h: nat)
    requires IsNear(a, cx, cy, cells, shift) && IsNear(b, cx, cy, cells, shift) && Contains(a, h) && Contains(b, h)
    ensures a == b
  {
    var x: nat, y: nat :| x < cells && y < cells && Near(x, y, cx, cy, cells) && a == IntervalOf(x, y, shift);
    var u: nat, v: nat :| u < cells && v < cells && Near(u, v, cx, cy, cells) && b == IntervalOf(u, v, shift);
    CellIsInterval(h, x, y, shift);
    CellIsInterval(h, u, v, shift);
  }

  const OFFSETS: seq<(int, int)> :=
    [(0, 0), (0, 1), (1, 0), (-1, 0), (0, -1), (1, 1), (1, -1), (-1, 1), (-1, -1)]

  /** All nine cells around the centre. */
  method AddNine(step: nat, cx: nat, cy: nat, cells: nat, shift: nat) returns (intervals: seq<Interval>)
    requires Center(step, cx, cy, cells, shift)
    ensures Listed(intervals, cx, cy, cells, shift)
    ensures forall dx, dy :: -1 <= dx <= 1 && -1 <= dy <= 1 ==> Added(intervals, cx, cy, cells, shift, dx, dy)
  {
    intervals := [];
    for k := 0 to |OFFSETS|
      invariant Listed(intervals, cx, cy, cells, shift)
      invariant forall i :: 0 <= i < k ==> Added(intervals, cx, cy, cells, shift, OFFSETS[i].0, OFFSETS[i].1)
    {
      intervals := AddCell(intervals, step, cx, cy, cells, shift, OFFSETS[k].0, OFFSETS[k].1);
    }
    forall dx, dy | -1 <= dx <= 1 && -1 <= dy <= 1
      ensures Added(intervals, cx, cy, cells, shift, dx, dy)
    {
      OffsetListed(dx, dy);
    }
  }

  lemma OffsetListed(dx: int, dy: int)
    requires -1 <= dx <= 1 && -1 <= dy <= 1
    ensures exists i :: 0 <= i < |OFFSETS| && OFFSETS[i].0 == dx && OFFSETS[i].1 == dy
  {
    var k := if dx == 0 then (if dy == 0 then 0 else if dy == 1 then 1 else 4)
             else if dx == 1 then (if dy == 0 then 2 else if dy == 1 then 5 else 6)
             else (if dy == 0 then 3 else if dy == 1 then 7 else 8);
    assert OFFSETS[k].0 == dx && OFFSETS[k].1 == dy;
  }

  /** A score of a cell next to the centre is in a listed interval. */
  lemma NearIsListed(intervals: seq<Interval>, cx: nat, cy: nat, cells: nat, shift: nat, h: nat)
    requires cx < cells && cy < cells && cells >= 2
    requires forall dx, dy :: -1 <= dx <= 1 && -1 <= dy <= 1 ==> Added(intervals, cx, cy, cells, shift, dx, dy)
    requires ShiftRight(Odds(h), shift) < cells && ShiftRight(Evens(h), shift) < cells
    requires Near(ShiftRight(Odds(h), shift), ShiftRight(Evens(h), shift), cx, cy, cells)
    ensures SomeContains(intervals, h)
  {
    var x, y := ShiftRight(Odds(h), shift), ShiftRight(Evens(h), shift);
    var dx := OffsetTo(x, cx, cells);
    assert Added(intervals, cx, cy, cells, shift, dx, y - cy);
    CellIsInterval(h, x, y, shift);
  }

  lemma OffsetTo(x: int, cx: int, cells: int) returns (dx: int)
    requires 0 <= x < cells && 0 <= cx < cells && cells >= 2 && NextTo(x, cx, cells)
    ensures -1 <= dx <= 1 && Wrap(cx + dx, cells) == x
  {
    dx := if x == cx then 0 else if x == cx + 1 || (x == 0 && cx == cells - 1) then 1 else -1;
  }

  /**
   * geo_neighbor_intervals: disjoint intervals of scores that together are exactly the covered
   * scores, for the finest grid that is wide enough.
   */
  method NeighborIntervals(lonReach: real, latReach: real, lon: real, lat: real)
    returns (step: nat, intervals: seq<Interval>)
    requires ValidCoordinates(lon, lat)
    ensures step <= AXIS_BITS && (step > 0 ==> WideEnough(step, lonReach, latReach))
    ensures forall finer :: step < finer <= AXIS_BITS ==> !WideEnough(finer, lonReach, latReach)
    ensures forall h: nat :: h < SCORES ==> (SomeContains(intervals, h) <==> Covered(step, lon, lat, h))
    ensures forall i, j :: 0 <= i < j < |intervals| ==> Apart(intervals[i], intervals[j])
    ensures forall i :: 0 <= i < |intervals| ==> 0 <= intervals[i].first <= intervals[i].last < SCORES
  {
    step := ChooseStep(lonReach, latReach);
    if step == 0 {
      intervals := [Interval(0, SCORES - 1)];
      forall h: nat | h < SCORES
        ensures SomeContains(intervals, h)
      {
        assert Contains(intervals[0], h);
      }
      return;
    }
    var cx, cy := CenterCell(lon, lat, step);
    var shift, cells := Shift(step), ShiftLeft(1, step);
    intervals := AddNine(step, cx, cy, cells, shift);
    IntervalsCover(intervals, step, lon, lat, cx, cy, cells, shift);
    forall i | 0 <= i < |intervals|
      ensures 0 <= intervals[i].first <= intervals[i].last < SCORES
    {
      NearInRange(intervals[i], step, cx, cy, cells, shift);
    }
  }

  /** The cell of the centre, out of its score. */
  method CenterCell(lon: real, lat: real, step: nat) returns (cx: nat, cy: nat)
    requires ValidCoordinates(lon, lat) && 0 < step <= AXIS_BITS
    ensures cx == Column(lon, step) && cy == Row(lat, step) && Center(step, cx, cy, ShiftLeft(1, step), Shift(step))
  {
    var center := Encode(lon, lat);
    CellOfScore(lon, lat, step);
    var x, y := Separate(center);
    var shift := Shift(step);
    cx, cy := ShiftRight(x, shift), ShiftRight(y, shift);
    Sizes();
    ShiftBelow(x, shift, step);
    ShiftBelow(y, shift, step);
    ghost var m, cells := GridSizes(step);
  }

  lemma NearInRange(i: Interval, step: nat, cx: nat, cy: nat, cells: nat, shift: nat)
    requires Center(step, cx, cy, cells, shift) && IsNear(i, cx, cy, cells, shift)
    ensures 0 <= i.first <= i.last < SCORES
  {
    var x: nat, y: nat :| x < cells && y < cells && Near(x, y, cx, cy, cells) && i == IntervalOf(x, y, shift);
    SpreadBelow(x, step);
    SpreadBelow(y, step);
    InterleaveShifted(x, y, shift);
    ScorePositive(shift);
    ScoreWidth(Interleave(x, y), shift);
    BlockInRange(Interleave(x, y), step, shift);
  }

  lemma BlockInRange(g: nat, step: nat, shift: nat)
    requires g < ShiftScoreLeft(1, step) && step + shift == AXIS_BITS
    ensures ShiftScoreLeft(g + 1, shift) <= SCORES
  {
    ScoreMonotone(g + 1, ShiftScoreLeft(1, step), shift);
    ScoreCompose(shift, step);
    Sizes();
  }

  lemma {:induction false} ScorePositive(n: nat)
    ensures ShiftScoreLeft(1, n) >= 1
  {
    if n != 0 {
      ScorePositive(n - 1);
    }
  }

  lemma {:induction false} ScoreMonotone(a: nat, b: nat, n: nat)
    ensures a <= b ==> ShiftScoreLeft(a, n) <= ShiftScoreLeft(b, n)
  {
    if n != 0 {
      ScoreMonotone(a, b, n - 1);
    }
  }

  lemma {:induction false} ScoreCompose(n: nat, k: nat)
    ensures ShiftScoreLeft(ShiftScoreLeft(1, k), n) == ShiftScoreLeft(1, n + k)
  {
    if n != 0 {
      ScoreCompose(n - 1, k);
    }
  }

  /** No score is in both. */
  ghost predicate Apart(a: Interval, b: Interval) {
    forall h: nat :: !(Contains(a, h) && Contains(b, h))
  }

  lemma IntervalsCover(intervals: seq<Interval>, step: nat, lon: real, lat: real, cx: nat, cy: nat, cells: nat, shift: nat)
    requires ValidCoordinates(lon, lat) && Center(step, cx, cy, cells, shift)
    requires cx == Column(lon, step) && cy == Row(lat, step)
    requires Listed(intervals, cx, cy, cells, shift)
    requires forall dx, dy :: -1 <= dx <= 1 && -1 <= dy <= 1 ==> Added(intervals, cx, cy, cells, shift, dx, dy)
    ensures forall h: nat :: h < SCORES ==> (SomeContains(intervals, h) <==> Covered(step, lon, lat, h))
    ensures forall i, j :: 0 <= i < j < |intervals| ==> Apart(intervals[i], intervals[j])
  {
    forall h: nat | h < SCORES
      ensures SomeContains(intervals, h) <==> Covered(step, lon, lat, h)
    {
      if SomeContains(intervals, h) {
        var i :| 0 <= i < |intervals| && Contains(intervals[i], h);
        ListedIsNear(intervals[i], cx, cy, cells, shift, h);
      }
      if Covered(step, lon, lat, h) {
        Sizes();
        EvensBelow(h, AXIS_BITS);
        ShiftBelow(Odds(h), shift, step);
        ShiftBelow(Evens(h), shift, step);
        NearIsListed(intervals, cx, cy, cells, shift, h);
      }
    }
    forall i, j, h: nat | 0 <= i < j < |intervals| && Contains(intervals[i], h) && Contains(intervals[j], h)
      ensures false
    {
      SharedScore(intervals[i], intervals[j], cx, cy, cells, shift, h);
    }
  }
}
