/** The zone mapper: classifies an absolute touch point against the measured
    rectangle of the 3x3 strike-zone grid, giving an inside flag, a row-major
    cell number and the offset normalised by the grid's width and height. */
module PitchUtils {
  import opened PitchTypes

  /** The measured position and size of the grid on screen. */
  datatype Layout = Layout(x: real, y: real, width: real, height: real)

  /** `cellNumber` 0 means outside; 1..9 count the cells row by row. */
  datatype CellInfo = CellInfo(cellNumber: int, isInside: bool, relX: real, relY: real)

  const Unmeasured: CellInfo := CellInfo(0, false, 0.0, 0.0)

  /** The source divides by the height without checking it, and its caller
      (src/screens/StrikeZoneScreen.js:128-129) checks only that a layout
      exists. For height 0 and a non-zero width the source returns a `relY`
      that is an infinity or NaN, which no real can stand for, so that case
      is excluded here. Without a layout, or with width 0, the source returns
      before dividing. */
  predicate Divisible(gridLayout: Option<Layout>) {
    gridLayout.None? || gridLayout.value.width == 0.0 || gridLayout.value.height != 0.0
  }

  /** `offset` lies in the `k`-th third of a size: between `k` and `k + 1`
      times a third of it. */
  predicate InThird(k: int, offset: real, size: real) {
    k as real * (size / 3.0) <= offset < (k + 1) as real * (size / 3.0)
  }

  /** The index of the third of `[0, size)` that holds `offset`: the floor of
      `offset / (size / 3)`. */
  function ThirdOf(offset: real, size: real): (t: int)
    requires size > 0.0 && 0.0 <= offset < size
    ensures 0 <= t < GridCellSize
    ensures InThird(t, offset, size)
  {
    var t := (offset / (size / GridCellSize as real)).Floor;
    ThirdBounds(offset, size);
    t
  }

  /** The floor of `offset / (size / 3)` for an offset inside the size. */
  lemma ThirdBounds(offset: real, size: real)
    requires size > 0.0 && 0.0 <= offset < size
    ensures var t := (offset / (size / 3.0)).Floor;
            && 0 <= t < 3
            && t as real * (size / 3.0) <= offset < (t + 1) as real * (size / 3.0)
  {
    var u := size / 3.0;
    var q := offset / u;
    assert q * u == offset;
    ScaledFloor(q, u, offset);
    QuotientBelow(offset, u, q);
  }

  /** An offset `q * u` with `u` positive lies between the floor of `q` and
      its successor, both scaled by `u`. */
  lemma ScaledFloor(q: real, u: real, offset: real)
    requires u > 0.0 && q * u == offset
    ensures q.Floor as real * u <= offset < (q.Floor + 1) as real * u
  {
    FloorProduct(q, u);
    var lo, hi := q.Floor as real * u, (q.Floor + 1) as real * u;
    assert lo <= q * u < hi;
  }

  lemma FloorProduct(q: real, u: real)
    requires u > 0.0
    ensures q.Floor as real * u <= q * u < (q.Floor + 1) as real * u
  {
    var t := q.Floor;
    ScaleWeak(t as real, q, u);
    ScaleStrict(q, t as real + 1.0, u);
    assert (t + 1) as real == t as real + 1.0;
  }

  /** A quotient by a third of a size of an offset inside the size lies in [0, 3). */
  lemma QuotientBelow(offset: real, u: real, q: real)
    requires u > 0.0 && 0.0 <= offset < 3.0 * u && q * u == offset
    ensures 0.0 <= q < 3.0
  {
    if q >= 3.0 {
      ScaleWeak(3.0, q, u);
    }
    if q < 0.0 {
      ScaleStrict(q, 0.0, u);
    }
  }

  lemma ScaleWeak(a: real, b: real, c: real)
    requires a <= b && c >= 0.0
    ensures a * c <= b * c
  {
  }

  lemma ScaleStrict(a: real, b: real, c: real)
    requires a < b && c > 0.0
    ensures a * c < b * c
  {
  }

  lemma UnitInterval(a: real, size: real)
    requires size > 0.0 && 0.0 <= a < size
    ensures 0.0 <= a / size < 1.0
  {
    ScaleStrict(a / size, 1.0, size);
  }

  lemma HalfOver(size: real)
    requires size != 0.0
    ensures (size / 2.0) / size == 0.5
  {
  }

  /** An offset divided by a non-zero size: the fraction that gives the
      offset back when scaled by the size. */
  function Normalise(offset: real, size: real): (q: real)
    requires size != 0.0
    ensures q * size == offset
  {
    offset / size
  }

  /** The row-major number, 1..9, of the cell holding the inside offset
      (`relX`, `relY`). */
  function CellIndex(relX: real, relY: real, width: real, height: real): (n: int)
    requires 0.0 <= relX < width && 0.0 <= relY < height
    ensures 1 <= n <= 9
  {
    var col := ThirdOf(relX, width);
    var row := ThirdOf(relY, height);
    row * GridCellSize + col + 1
  }

  /** The cell number names the column and the row of thirds holding the
      offset. */
  lemma {:induction false} CellIndexThirds(relX: real, relY: real, width: real, height: real)
    requires 0.0 <= relX < width && 0.0 <= relY < height
    ensures var n := CellIndex(relX, relY, width, height);
            (n - 1) % GridCellSize == ThirdOf(relX, width) && (n - 1) / GridCellSize == ThirdOf(relY, height)
  {
  }

  /** `getCellNumber`: the cell and the normalised offset of the point
      (`absoluteX`, `absoluteY`). */
  function GetCellNumber(absoluteX: real, absoluteY: real, gridLayout: Option<Layout>): (r: CellInfo)
    requires Divisible(gridLayout)
    ensures gridLayout.None? || gridLayout.value.width == 0.0 ==> r == Unmeasured
    ensures gridLayout.Some? && gridLayout.value.width != 0.0 ==>
              var g := gridLayout.value;
              && (r.isInside <==> 0.0 <= absoluteX - g.x < g.width && 0.0 <= absoluteY - g.y < g.height)
              && r.relX == Normalise(absoluteX - g.x, g.width)
              && r.relY == Normalise(absoluteY - g.y, g.height)
    ensures !r.isInside ==> r.cellNumber == 0
    ensures r.isInside ==> 1 <= r.cellNumber <= 9
  {
    if gridLayout.None? || gridLayout.value.width == 0.0 then Unmeasured
    else
      var g := gridLayout.value;
      var relX := absoluteX - g.x;
      var relY := absoluteY - g.y;
      var isInside := relX >= 0.0 && relX < g.width && relY >= 0.0 && relY < g.height;
      var cellNumber := if isInside then CellIndex(relX, relY, g.width, g.height) else 0;
      CellInfo(cellNumber, isInside, Normalise(relX, g.width), Normalise(relY, g.height))
  }

  /** An inside point lies in the cell its number names: column
      `(cellNumber - 1) % 3` and row `(cellNumber - 1) / 3`, each a third of the
      grid's width and height. */
  lemma {:induction false} CellContainsPoint(absoluteX: real, absoluteY: real, g: Layout)
    requires g.width != 0.0 && g.height != 0.0
    requires GetCellNumber(absoluteX, absoluteY, Some(g)).isInside
    ensures var n := GetCellNumber(absoluteX, absoluteY, Some(g)).cellNumber;
            var col, row := (n - 1) % 3, (n - 1) / 3;
            InThird(col, absoluteX - g.x, g.width) && InThird(row, absoluteY - g.y, g.height)
  {
    var relX, relY := absoluteX - g.x, absoluteY - g.y;
    InsideCellIndex(absoluteX, absoluteY, g);
    CellIndexContains(relX, relY, g.width, g.height);
  }

  /** An inside point's cell number is the cell index of its offset. */
  lemma {:induction false} InsideCellIndex(absoluteX: real, absoluteY: real, g: Layout)
    requires g.width != 0.0 && g.height != 0.0
    requires GetCellNumber(absoluteX, absoluteY, Some(g)).isInside
    ensures 0.0 <= absoluteX - g.x < g.width && 0.0 <= absoluteY - g.y < g.height
    ensures GetCellNumber(absoluteX, absoluteY, Some(g)).cellNumber == CellIndex(absoluteX - g.x, absoluteY - g.y, g.width, g.height)
  {
  }

  /** The column and row that a cell number names hold the offset. */
  lemma {:induction false} CellIndexContains(relX: real, relY: real, width: real, height: real)
    requires 0.0 <= relX < width && 0.0 <= relY < height
    ensures var n := CellIndex(relX, relY, width, height);
            var col, row := (n - 1) % 3, (n - 1) / 3;
            InThird(col, relX, width) && InThird(row, relY, height)
  {
    CellIndexThirds(relX, relY, width, height);
  }

  /** A point inside the grid has both normalised coordinates in [0, 1). */
  lemma {:induction false} InsideIsNormalised(absoluteX: real, absoluteY: real, g: Layout)
    requires g.width != 0.0 && g.height != 0.0
    requires GetCellNumber(absoluteX, absoluteY, Some(g)).isInside
    ensures var r := GetCellNumber(absoluteX, absoluteY, Some(g));
            0.0 <= r.relX < 1.0 && 0.0 <= r.relY < 1.0
  {
    UnitInterval(absoluteX - g.x, g.width);
    UnitInterval(absoluteY - g.y, g.height);
  }

  /** A point left of or above a measured grid is outside, with a negative
      normalised coordinate: the offset is not clamped. */
  lemma {:induction false} OutsideIsNotClamped(absoluteX: real, absoluteY: real, g: Layout)
    requires g.width > 0.0 && g.height > 0.0
    requires absoluteX < g.x || absoluteY < g.y
    ensures var r := GetCellNumber(absoluteX, absoluteY, Some(g));
            && !r.isInside && r.cellNumber == 0
            && (absoluteX < g.x ==> r.relX < 0.0)
            && (absoluteY < g.y ==> r.relY < 0.0)
  {
    var r := GetCellNumber(absoluteX, absoluteY, Some(g));
    if absoluteX < g.x {
      assert r.relX * g.width < 0.0;
    }
    if absoluteY < g.y {
      assert r.relY * g.height < 0.0;
    }
  }

  /** The right and bottom edges belong to the outside. */
  lemma {:induction false} FarEdgesAreOutside(absoluteX: real, absoluteY: real, g: Layout)
    requires g.width > 0.0 && g.height > 0.0
    requires absoluteX == g.x + g.width || absoluteY == g.y + g.height
    ensures GetCellNumber(absoluteX, absoluteY, Some(g)).cellNumber == 0
  {
  }

  /** The middle of a size lies in its middle third. */
  lemma {:induction false} ThirdOfHalf(size: real)
    requires size > 0.0
    ensures ThirdOf(size / 2.0, size) == 1
  {
    var t := ThirdOf(size / 2.0, size);
    var third := size / 3.0;
    if t >= 2 {
      ScaleWeak(2.0, t as real, third);
    }
  }

  /** The grid's centre is cell 5 and its top-left corner is cell 1. */
  lemma {:induction false} CentreAndCorner(g: Layout)
    requires g.width > 0.0 && g.height > 0.0
    ensures GetCellNumber(g.x + g.width / 2.0, g.y + g.height / 2.0, Some(g)) == CellInfo(5, true, 0.5, 0.5)
    ensures GetCellNumber(g.x, g.y, Some(g)) == CellInfo(1, true, 0.0, 0.0)
  {
    assert g.x + g.width / 2.0 - g.x == g.width / 2.0;
    assert g.y + g.height / 2.0 - g.y == g.height / 2.0;
    ThirdOfHalf(g.width);
    ThirdOfHalf(g.height);
    assert CellIndex(g.width / 2.0, g.height / 2.0, g.width, g.height) == 5;
    HalfOver(g.width);
    HalfOver(g.height);
    assert ThirdOf(0.0, g.width) == 0 && ThirdOf(0.0, g.height) == 0;
    assert CellIndex(0.0, 0.0, g.width, g.height) == 1;
  }
}
