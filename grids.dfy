/** Two-dimensional character and style grids, as the numpy arrays behind
    framework/core/graphics/canvas.py and app/core/render_engine.py use them: a grid
    has a shape (height, width) and that many rows of that many cells. */
module Grids {
  import opened Wrappers

  datatype RawGrid<C> = Grid(height: nat, width: nat, rows: seq<seq<C>>)

  predicate Rectangular<C>(g: RawGrid<C>)
  {
    |g.rows| == g.height && forall i :: 0 <= i < |g.rows| ==> |g.rows[i]| == g.width
  }

  /** A numpy array of two dimensions: every row has the width of the shape. */
  type Grid<C> = g: RawGrid<C> | Rectangular(g) witness Grid(0, 0, [])

  predicate SameShape<C, D>(a: Grid<C>, b: Grid<D>)
  {
    a.height == b.height && a.width == b.width
  }

  /** Cell (i, j) of `g`; for reading only inside the shape. */
  function Cell<C>(g: Grid<C>, i: nat, j: nat): C
    requires i < g.height && j < g.width
  {
    g.rows[i][j]
  }

  /** `np.full((height, width), fill)`: numpy refuses a negative dimension. */
  function Full<C>(width: int, height: int, fill: C): (r: Result<Grid<C>>)
    ensures r.Ok? <==> width >= 0 && height >= 0
    ensures r.Ok? ==> r.value.width == width && r.value.height == height
    ensures r.Ok? ==> forall i, j :: 0 <= i < height && 0 <= j < width ==> r.value.rows[i][j] == fill
  {
    if width < 0 || height < 0 then Err(ValueError)
    else Ok(Grid(height, width, seq(height, _ => seq(width, _ => fill))))
  }

  /** Row `row` with the cells from column `x` on replaced by `piece`. */
  function PasteRow<C>(row: seq<C>, piece: seq<C>, x: nat): (r: seq<C>)
    requires x + |piece| <= |row|
    ensures |r| == |row|
    ensures forall j :: 0 <= j < |row| ==> r[j] == if x <= j < x + |piece| then piece[j - x] else row[j]
  {
    row[..x] + piece + row[x + |piece|..]
  }

  /** Row `i` of the pasted copy. */
  function PastedRow<C>(base: Grid<C>, other: Grid<C>, x: nat, y: nat, i: nat): (r: seq<C>)
    requires x + other.width <= base.width && y + other.height <= base.height && i < base.height
    ensures |r| == base.width
    ensures forall j :: 0 <= j < base.width ==>
      r[j] == if y <= i < y + other.height && x <= j < x + other.width
              then other.rows[i - y][j - x] else base.rows[i][j]
  {
    if y <= i < y + other.height then PasteRow(base.rows[i], other.rows[i - y], x) else base.rows[i]
  }

  /** `r` is `base` with the block of `other`'s shape at column `x`, row `y`
      replaced by `other`: cells inside the block come from `other`, all others
      from `base`. */
  ghost predicate PastedFrom<C>(r: Grid<C>, base: Grid<C>, other: Grid<C>, x: int, y: int)
  {
    SameShape(r, base) && 0 <= x && 0 <= y && x + other.width <= base.width && y + other.height <= base.height &&
    forall i, j :: 0 <= i < base.height && 0 <= j < base.width ==>
      r.rows[i][j] == if y <= i < y + other.height && x <= j < x + other.width
                      then other.rows[i - y][j - x] else base.rows[i][j]
  }

  /** A copy of `base` whose block `[y, y + other.height) × [x, x + other.width)` is
      assigned `other`: `copy = np.copy(base); copy[y:y+h, x:x+w] = other`. */
  function Paste<C>(base: Grid<C>, other: Grid<C>, x: nat, y: nat): (r: Grid<C>)
    requires x + other.width <= base.width && y + other.height <= base.height
    ensures PastedFrom(r, base, other, x, y)
  {
    var rows := seq(base.height, i requires 0 <= i < base.height => PastedRow(base, other, x, y, i));
    assert forall i :: 0 <= i < base.height ==> rows[i] == PastedRow(base, other, x, y, i);
    Grid(base.height, base.width, rows)
  }

  /** The pasted grid is determined by the three inputs: two grids pasted from the
      same base and block agree everywhere. */
  lemma PastedFromUnique<C>(r1: Grid<C>, r2: Grid<C>, base: Grid<C>, other: Grid<C>, x: int, y: int)
    requires PastedFrom(r1, base, other, x, y) && PastedFrom(r2, base, other, x, y)
    ensures r1 == r2
  {
    assert forall i :: 0 <= i < base.height ==> r1.rows[i] == r2.rows[i];
  }

  /** Pasting the same block twice is pasting it once. */
  lemma PasteIdempotent<C>(base: Grid<C>, other: Grid<C>, x: nat, y: nat)
    requires x + other.width <= base.width && y + other.height <= base.height
    ensures Paste(Paste(base, other, x, y), other, x, y) == Paste(base, other, x, y)
  {
    var once := Paste(base, other, x, y);
    var twice := Paste(once, other, x, y);
    assert forall i :: 0 <= i < base.height ==> twice.rows[i] == once.rows[i];
  }

  /** Pasting a grid over the whole of a grid of its shape gives the pasted grid. */
  lemma PasteWhole<C>(base: Grid<C>, other: Grid<C>)
    requires SameShape(base, other)
    ensures Paste(base, other, 0, 0) == other
  {
    var r := Paste(base, other, 0, 0);
    assert forall i :: 0 <= i < base.height ==> r.rows[i] == other.rows[i];
  }

  /** Pasting a grid's own block back into it changes nothing. */
  lemma PasteOwnBlock<C>(base: Grid<C>, x: nat, y: nat, h: nat, w: nat)
    requires x + w <= base.width && y + h <= base.height
    ensures var block := Grid(h, w, seq(h, i requires 0 <= i < h => base.rows[y + i][x..x + w]));
            Paste(base, block, x, y) == base
  {
    var block := Grid(h, w, seq(h, i requires 0 <= i < h => base.rows[y + i][x..x + w]));
    var r := Paste(base, block, x, y);
    assert forall i :: 0 <= i < base.height ==> r.rows[i] == base.rows[i];
  }

  /** `np.vstack(rows)` on one-dimensional rows: numpy needs at least one row, and
      all rows of one length. */
  function VStack<C>(rows: seq<seq<C>>): (r: Result<Grid<C>>)
    ensures r.Ok? <==> |rows| > 0 && forall i :: 0 <= i < |rows| ==> |rows[i]| == |rows[0]|
    ensures r.Ok? ==> r.value.rows == rows && r.value.height == |rows| && r.value.width == |rows[0]|
  {
    if |rows| == 0 then Err(ValueError)
    else if forall i :: 0 <= i < |rows| ==> |rows[i]| == |rows[0]| then
      var g: Grid<C> := Grid(|rows|, |rows[0]|, rows);
      Ok(g)
    else Err(ValueError)
  }
}
