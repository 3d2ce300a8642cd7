/**
 * `MatrixArea` and the spell areas built from it: how the flat arrays are filled, which of the
 * four areas a spell uses, and which tiles it hits.
 */
module AreaRotation {
  import opened Basics
  import opened AreaMatrix

  /** `std::slice`: the position of the `k`-th element. */
  function SliceAt(start: nat, stride: nat, k: nat): nat {
    k * stride + start
  }

  predicate SliceFits(length: nat, start: nat, size: nat, stride: nat) {
    forall k :: 0 <= k < size ==> SliceAt(start, stride, k) < length
  }

  /** Assigning one slice to another of the same size. */
  method AssignSlice(to: array<bool>, start: nat, stride: nat, from: array<bool>, start': nat, stride': nat, size: nat)
    requires to != from && SliceFits(to.Length, start, size, stride) && SliceFits(from.Length, start', size, stride')
    requires forall k, j :: 0 <= k < j < size ==> SliceAt(start, stride, k) != SliceAt(start, stride, j)
    modifies to
    ensures forall k :: 0 <= k < size ==> to[SliceAt(start, stride, k)] == from[SliceAt(start', stride', k)]
    ensures forall p ::
      0 <= p < to.Length && (forall k :: 0 <= k < size ==> p != SliceAt(start, stride, k)) ==> to[p] == old(to[p])
  {
    hide SliceAt;
    for i := 0 to size
      invariant forall k :: 0 <= k < i ==> to[SliceAt(start, stride, k)] == from[SliceAt(start', stride', k)]
      invariant forall p ::
        0 <= p < to.Length && (forall k :: 0 <= k < size ==> p != SliceAt(start, stride, k)) ==> to[p] == old(to[p])
    {
      to[SliceAt(start, stride, i)] := from[SliceAt(start', stride', i)];
    }
  }

  /** A row of a matrix is a slice of stride one, a column one of stride `cols`. */
  lemma Slices(rows: nat, cols: nat)
    ensures forall r, k :: 0 <= r < rows && 0 <= k < cols ==> SliceAt(r * cols, 1, k) == Flat(cols, r, k) < rows * cols
    ensures forall c, k :: 0 <= c < cols && 0 <= k < rows ==> SliceAt(c, cols, k) == Flat(cols, k, c) < rows * cols
  {
    forall r, k | 0 <= r < rows && 0 <= k < cols ensures SliceAt(r * cols, 1, k) == Flat(cols, r, k) < rows * cols {
      FlatInside(rows, cols, r, k);
    }
    forall c, k | 0 <= c < cols && 0 <= k < rows ensures SliceAt(c, cols, k) == Flat(cols, k, c) < rows * cols {
      FlatInside(rows, cols, k, c);
    }
  }

  lemma Apart(cols: nat)
    ensures forall r, c, r', c' ::
      0 <= r && 0 <= r' && 0 <= c < cols && 0 <= c' < cols && Flat(cols, r, c) == Flat(cols, r', c') ==>
      r == r' && c == c'
  {
    forall r, c, r', c' | 0 <= r && 0 <= r' && 0 <= c < cols && 0 <= c' < cols && Flat(cols, r, c) == Flat(cols, r', c')
      ensures r == r' && c == c'
    {
      FlatInjective(cols, r, c, r', c');
    }
  }

  /** A column of a matrix of `cols` rows becomes the row `r` of one of `cols` columns. */
  method RowToColumn(to: array<bool>, i: nat, from: array<bool>, r: nat, rows: nat, cols: nat)
    requires to != from && to.Length == rows * cols == cols * rows == from.Length && i < rows && r < rows
    modifies to
    ensures forall k ::
      0 <= k < cols ==>
      Flat(rows, k, i) < to.Length && Flat(cols, r, k) < from.Length && to[Flat(rows, k, i)] == from[Flat(cols, r, k)]
    ensures forall j, k ::
      0 <= j < rows && j != i && 0 <= k < cols ==>
      Flat(rows, k, j) < to.Length && to[Flat(rows, k, j)] == old(to[Flat(rows, k, j)])
  {
    Slices(rows, cols);
    Slices(cols, rows);
    Apart(rows);
    hide SliceAt, Flat;
    AssignSlice(to, i, rows, from, r * cols, 1, cols);
  }

  /** A row of a matrix of `rows` columns becomes the column `c` of one of `rows` rows. */
  method ColumnToRow(to: array<bool>, i: nat, from: array<bool>, c: nat, rows: nat, cols: nat)
    requires to != from && to.Length == rows * cols == cols * rows == from.Length && i < cols && c < cols
    modifies to
    ensures forall k ::
      0 <= k < rows ==>
      Flat(rows, i, k) < to.Length && Flat(cols, k, c) < from.Length && to[Flat(rows, i, k)] == from[Flat(cols, k, c)]
    ensures forall j, k ::
      0 <= j < cols && j != i && 0 <= k < rows ==>
      Flat(rows, j, k) < to.Length && to[Flat(rows, j, k)] == old(to[Flat(rows, j, k)])
  {
    Slices(rows, cols);
    Slices(cols, rows);
    Apart(rows);
    hide SliceAt, Flat;
    AssignSlice(to, i * rows, 1, from, c, cols, rows);
  }

  class MatrixArea {
    const arr: array<bool>
    const rows: nat
    const cols: nat
    var cx: nat
    var cy: nat

    constructor (rows: nat, cols: nat)
      ensures Value().rows == rows && Value().cols == cols && Formed(Value()) && cx == 0 && cy == 0 && fresh(arr)
      ensures forall p :: 0 <= p < rows * cols ==> !arr[p]
    {
      arr := new bool[rows * cols](_ => false);
      this.rows, this.cols, cx, cy := rows, cols, 0, 0;
    }

    constructor Of(arr: array<bool>, rows: nat, cols: nat, cx: nat, cy: nat)
      ensures this.arr == arr && this.rows == rows && this.cols == cols && this.cx == cx && this.cy == cy
    {
      this.arr, this.rows, this.cols, this.cx, this.cy := arr, rows, cols, cx, cy;
    }

    ghost function Value(): Matrix
      reads this, arr
    {
      Matrix(arr[..], rows, cols, cx, cy)
    }

    method Rotate90() returns (m: MatrixArea)
      requires Sized(Value())
      ensures fresh(m) && fresh(m.arr) && Rotated90(Value(), m.Value())
    {
      hide Flat, Sub32;
      var newArr := new bool[arr.Length];
      Fits(rows, cols);
      for i := 0 to rows
        invariant forall j, k ::
          0 <= j < i && 0 <= k < cols ==> newArr[Flat(rows, k, j)] == arr[Flat(cols, rows - 1 - j, k)]
      {
        RowToColumn(newArr, i, arr, rows - i - 1, rows, cols);
      }
      m := new MatrixArea.Of(newArr, cols, rows, Sub32(rows, cy + 1), cx);
      forall r, c | 0 <= r < rows && 0 <= c < cols ensures At(m.Value(), c, rows - 1 - r) == At(Value(), r, c) {
        assert newArr[Flat(rows, c, rows - 1 - r)] == arr[Flat(cols, rows - 1 - (rows - 1 - r), c)];
      }
    }

    method Rotate180() returns (m: MatrixArea)
      requires Sized(Value())
      ensures fresh(m) && fresh(m.arr) && Rotated180(Value(), m.Value())
    {
      var newArr := new bool[arr.Length];
      for i := 0 to arr.Length
        invariant forall p :: 0 <= p < i ==> newArr[arr.Length - 1 - p] == arr[p]
      {
        newArr[arr.Length - 1 - i] := arr[i];
      }
      m := new MatrixArea.Of(newArr, rows, cols, Sub32(cols, cx + 1), Sub32(rows, cy + 1));
      hide Flat;
      forall r, c | 0 <= r < rows && 0 <= c < cols
        ensures At(m.Value(), rows - 1 - r, cols - 1 - c) == At(Value(), r, c)
      {
        FlatReversed(rows, cols, r, c);
      }
    }

    method Rotate270() returns (m: MatrixArea)
      requires Sized(Value())
      ensures fresh(m) && fresh(m.arr) && Rotated270(Value(), m.Value())
    {
      hide Flat, Sub32;
      var newArr := new bool[arr.Length];
      Fits(rows, cols);
      for i := 0 to cols
        invariant forall j, k ::
          0 <= j < i && 0 <= k < rows ==> newArr[Flat(rows, j, k)] == arr[Flat(cols, k, cols - 1 - j)]
      {
        ColumnToRow(newArr, i, arr, cols - i - 1, rows, cols);
      }
      m := new MatrixArea.Of(newArr, cols, rows, cy, Sub32(cols, cx + 1));
      forall r, c | 0 <= r < rows && 0 <= c < cols ensures At(m.Value(), cols - 1 - c, r) == At(Value(), r, c) {
        assert newArr[Flat(rows, cols - 1 - c, r)] == arr[Flat(cols, r, cols - 1 - (cols - 1 - c))];
      }
    }
  }

  lemma Fits(rows: nat, cols: nat)
    ensures rows * cols == cols * rows
    ensures forall j, k ::
      0 <= j < rows && 0 <= k < cols ==> Flat(rows, k, j) < rows * cols && Flat(cols, j, k) < rows * cols
  {
    forall j, k | 0 <= j < rows && 0 <= k < cols
      ensures Flat(rows, k, j) < rows * cols && Flat(cols, j, k) < rows * cols
    {
      FlatInside(cols, rows, k, j);
      FlatInside(rows, cols, j, k);
    }
  }

  /** Reversing the flat array reverses rows and columns. */
  lemma FlatReversed(rows: nat, cols: nat, r: nat, c: nat)
    requires r < rows && c < cols
    ensures
      Flat(cols, rows - 1 - r, cols - 1 - c) == rows * cols - 1 - Flat(cols, r, c) && Flat(cols, r, c) < rows * cols
  {
    FlatInside(rows, cols, r, c);
    assert (rows - 1 - r) * cols == rows * cols - cols - r * cols;
  }

  // ----- building an area -----

  predicate Hit(value: nat) { value == 1 || value == 3 }

  predicate Marks(value: nat) { value == 2 || value == 3 }

  /** The last marked entry is the centre; without one it is the first cell. */
  predicate CentreOf(vec: seq<nat>, cols: nat, cx: nat, cy: nat) {
    if forall p :: 0 <= p < |vec| ==> !Marks(vec[p]) then cx == 0 && cy == 0
    else cx < cols && Flat(cols, cy, cx) < |vec| && Marks(vec[Flat(cols, cy, cx)])
         && forall p :: Flat(cols, cy, cx) < p < |vec| ==> !Marks(vec[p])
  }

  /** `createArea`. The entries must fill the rows exactly. */
  method CreateArea(vec: seq<nat>, rows: nat) returns (area: MatrixArea)
    requires rows == 0 ==> vec == []
    requires rows > 0 ==> |vec| % rows == 0
    requires rows < TWO_TO_THE_32 && |vec| < TWO_TO_THE_32
    ensures fresh(area) && fresh(area.arr) && Sized(area.Value()) && area.rows == rows && rows * area.cols == |vec|
    ensures forall p :: 0 <= p < |vec| ==> area.arr[p] == Hit(vec[p])
    ensures CentreOf(vec, area.cols, area.cx, area.cy)
  {
    hide Flat, CentreOf;
    var cols := if rows == 0 then 0 else |vec| / rows;
    Divides(|vec|, rows, cols);
    area := new MatrixArea(rows, cols);
    NoCentre(vec, cols);
    var x, y := 0, 0;
    for i := 0 to |vec|
      invariant i == Flat(cols, y, x) && (x < cols || i == |vec|) && (i < |vec| ==> y < rows)
      invariant forall p :: 0 <= p < i ==> area.arr[p] == Hit(vec[p])
      invariant forall p :: i <= p < |vec| ==> !area.arr[p]
      invariant
        && CentreOf(vec[..i], cols, area.cx, area.cy) && (i > 0 ==> area.cx < cols && area.cy < rows)
        && (i == 0 ==> area.cx == area.cy == 0)
    {
      var value := vec[i];
      NextCentre(vec, i, cols, area.cx, area.cy, x, y);
      NextCell(|vec|, rows, cols, x, y);
      if value == 1 || value == 3 {
        area.arr[Flat(cols, y, x)] := true;
      }
      if value == 2 || value == 3 {
        area.cx, area.cy := x, y;
      }
      x := x + 1;
      if cols == x {
        x := 0;
        y := y + 1;
      }
    }
    assert vec[..|vec|] == vec;
  }

  lemma NoCentre(vec: seq<nat>, cols: nat)
    ensures CentreOf(vec[..0], cols, 0, 0) && Flat(cols, 0, 0) == 0
  {
  }

  /** The next entry either is the last marked one so far or leaves the centre where it is. */
  lemma NextCentre(vec: seq<nat>, i: nat, cols: nat, cx: nat, cy: nat, x: nat, y: nat)
    requires i < |vec| && i == Flat(cols, y, x) && x < cols && CentreOf(vec[..i], cols, cx, cy)
    ensures if Marks(vec[i]) then CentreOf(vec[..i + 1], cols, x, y) else CentreOf(vec[..i + 1], cols, cx, cy)
  {
    hide Flat;
    var was, now := vec[..i], vec[..i + 1];
    assert forall p :: 0 <= p < i ==> was[p] == now[p];
    assert now[i] == vec[i];
    if !Marks(vec[i]) && exists p :: 0 <= p < |was| && Marks(was[p]) {
      assert Marks(now[Flat(cols, cy, cx)]);
    }
  }

  /** The position of the entry after this one. */
  lemma NextCell(n: nat, rows: nat, cols: nat, x: nat, y: nat)
    requires rows * cols == n && x < cols && y < rows
    ensures Flat(cols, y, x) < n
    ensures Flat(cols, y, x) + 1 == if x + 1 == cols then Flat(cols, y + 1, 0) else Flat(cols, y, x + 1)
    ensures x + 1 == cols && Flat(cols, y + 1, 0) < n ==> y + 1 < rows
  {
    FlatInside(rows, cols, y, x);
    if x + 1 == cols && y + 1 >= rows {
      MulMonotone(rows, y + 1, cols);
    }
  }

  lemma Divides(n: nat, rows: nat, cols: nat)
    requires (rows == 0 ==> n == 0 && cols == 0) && (rows > 0 ==> n % rows == 0 && cols == n / rows)
    ensures rows * cols == n && (n > 0 ==> cols > 0) && cols <= n
  {
    if rows > 0 {
      assert n == rows * (n / rows) + n % rows;
      MulMonotone(1, rows, cols);
    }
  }

  // ----- the spell area -----

  class AreaCombat {
    var areas: seq<MatrixArea>

    constructor ()
      ensures areas == []
    {
      areas := [];
    }

    ghost predicate Ready()
      reads this, areas, set a | a in areas :: a.arr
    {
      && |areas| == 4 && Sized(areas[0].Value())
      && Faces(areas[0].Value(), areas[1].Value(), East)
      && Faces(areas[0].Value(), areas[2].Value(), South)
      && Faces(areas[0].Value(), areas[3].Value(), West)
    }

    /** `setupArea` from a list of entries, given facing north. */
    method SetupArea(vec: seq<nat>, rows: nat)
      requires rows == 0 ==> vec == []
      requires rows > 0 ==> |vec| % rows == 0
      requires rows < TWO_TO_THE_32 && |vec| < TWO_TO_THE_32
      modifies this
      ensures Ready()
      ensures
        areas[0].rows == rows && rows * areas[0].cols == |vec| && CentreOf(vec, areas[0].cols, areas[0].cx, areas[0].cy)
      ensures forall p :: 0 <= p < |vec| ==> areas[0].arr[p] == Hit(vec[p])
    {
      hide CentreOf, Rotated90, Rotated180, Rotated270, Formed;
      var area := CreateArea(vec, rows);
      var east := area.Rotate90();
      var south := area.Rotate180();
      var west := area.Rotate270();
      areas := [area, east, south, west];
    }

    /** `getArea`: the direction in which the target lies. */
    method GetArea(dx: int, dy: int) returns (area: MatrixArea, dir: Direction)
      requires Ready()
      ensures Faces(areas[0].Value(), area.Value(), dir)
      ensures dir == if dx < 0 then West else if dx > 0 then East else if dy < 0 then North else South
    {
      hide Rotated90, Rotated180, Rotated270, Formed;
      if dx < 0 {
        return areas[3], West;
      } else if dx > 0 {
        return areas[1], East;
      } else if dy < 0 {
        return areas[0], North;
      }
      return areas[2], South;
    }
  }

  datatype Spot = Spot(x: nat, y: nat)

  function Wrap16(i: int): nat { i % TWO_TO_THE_16 }

  /** The tile this far from the target, in 16-bit coordinates. */
  function SpotAt(tx: nat, ty: nat, dx: int, dy: int): Spot {
    Spot(Wrap16(tx + dx), Wrap16(ty + dy))
  }

  /** A cell of the matrix that hits its tile. */
  predicate CellHits(m: Matrix, tx: nat, ty: nat, clear: Spot -> bool, r: nat, c: nat, q: Spot)
    requires Formed(m) && r < m.rows && c < m.cols
  {
    At(m, r, c) && q == SpotAt(tx, ty, c - m.cx, r - m.cy) && clear(q)
  }

  /** What the cells before (`row`, `col`) hit, row by row. */
  function Targets(m: Matrix, tx: nat, ty: nat, clear: Spot -> bool, row: nat, col: nat): seq<Spot>
    requires Formed(m) && ((row < m.rows && col <= m.cols) || (row == m.rows && col == 0))
    decreases row, col
  {
    if col > 0 then
      var q := SpotAt(tx, ty, col - 1 - m.cx, row - m.cy);
      Targets(m, tx, ty, clear, row, col - 1) + if CellHits(m, tx, ty, clear, row, col - 1, q) then [q] else []
    else if row > 0 then Targets(m, tx, ty, clear, row - 1, m.cols)
    else []
  }

  /** The cell (`r`, `c`) has been gone through when (`row`, `col`) is next. */
  predicate Done(m: Matrix, row: nat, col: nat, r: nat, c: nat) {
    r < row || (r == row && c < col)
  }

  /** `getList`: the tiles the area hits around its target; `clear` tells which of them the caster
      can see, in the order of the cells. */
  method GetList(area: MatrixArea, tx: nat, ty: nat, clear: Spot -> bool) returns (list: seq<Spot>)
    requires Formed(area.Value())
    ensures forall q ::
      q in list <==> exists dx: int, dy: int :: Covers(area.Value(), dx, dy) && q == SpotAt(tx, ty, dx, dy) && clear(q)
    ensures list == Targets(area.Value(), tx, ty, clear, area.rows, 0)
  {
    hide Wrap16, Listed, Flat, At, SpotAt, CellHits;
    ghost var m := area.Value();
    list := [];
    NothingListed(m, tx, ty, clear);
    var tmpX, tmpY := Wrap16(tx - area.cx), Wrap16(ty - area.cy);
    for row := 0 to area.rows
      invariant tmpX == Wrap16(tx - area.cx) && tmpY == Wrap16(ty - area.cy + row)
      invariant Listed(m, tx, ty, clear, list, row, 0) && list == Targets(m, tx, ty, clear, row, 0)
    {
      for col := 0 to area.cols
        invariant tmpX == Wrap16(tx - area.cx + col) && tmpY == Wrap16(ty - area.cy + row)
        invariant Listed(m, tx, ty, clear, list, row, col) && list == Targets(m, tx, ty, clear, row, col)
      {
        var tmpPos := Spot(tmpX, tmpY);
        FlatInside(area.rows, area.cols, row, col);
        CellIs(m, row, col);
        ListMore(m, tx, ty, clear, list, row, col, tmpPos);
        if area.arr[Flat(area.cols, row, col)] {
          if clear(tmpPos) {
            list := list + [tmpPos];
          }
        }
        WrapTwice(tx - area.cx + col, 1);
        tmpX := Wrap16(tmpX + 1);
      }
      RowListed(m, tx, ty, clear, list, row);
      WrapTwice(tx - area.cx + area.cols, 0 - area.cols);
      WrapTwice(ty - area.cy + row, 1);
      tmpX := Wrap16(tmpX - area.cols);
      tmpY := Wrap16(tmpY + 1);
    }
    AllListed(m, tx, ty, clear, list);
  }

  lemma CellIs(m: Matrix, r: nat, c: nat)
    requires Formed(m) && r < m.rows && c < m.cols
    ensures Flat(m.cols, r, c) < |m.arr| && At(m, r, c) == m.arr[Flat(m.cols, r, c)]
  {
    FlatInside(m.rows, m.cols, r, c);
  }

  lemma WrapTwice(a: int, b: int)
    ensures Wrap16(Wrap16(a) + b) == Wrap16(a + b)
  {
  }

  /** The list holds exactly what the cells gone through so far hit. */
  ghost predicate Listed(m: Matrix, tx: nat, ty: nat, clear: Spot -> bool, list: seq<Spot>, row: nat, col: nat)
    requires Formed(m)
  {
    && (forall q ::
        q in list ==> exists r: nat, c: nat :: r < m.rows && c < m.cols && CellHits(m, tx, ty, clear, r, c, q))
    && (forall r, c, q ::
        0 <= r < m.rows && 0 <= c < m.cols && Done(m, row, col, r, c) && CellHits(m, tx, ty, clear, r, c, q) ==>
        q in list)
  }

  lemma NothingListed(m: Matrix, tx: nat, ty: nat, clear: Spot -> bool)
    requires Formed(m)
    ensures Listed(m, tx, ty, clear, [], 0, 0)
  {
  }

  lemma ListMore(m: Matrix, tx: nat, ty: nat, clear: Spot -> bool, list: seq<Spot>, row: nat, col: nat, q: Spot)
    requires Formed(m) && row < m.rows && col < m.cols && Listed(m, tx, ty, clear, list, row, col)
    requires q == Spot(Wrap16(tx - m.cx + col), Wrap16(ty - m.cy + row))
    ensures Listed(m, tx, ty, clear, if At(m, row, col) && clear(q) then list + [q] else list, row, col + 1)
    ensures Targets(m, tx, ty, clear, row, col + 1) == Targets(m, tx, ty, clear, row, col)
      + if At(m, row, col) && clear(q) then [q] else []
  {
    hide At, Wrap16;
    assert q == SpotAt(tx, ty, col - m.cx, row - m.cy) by {
      assert tx - m.cx + col == tx + (col - m.cx) && ty - m.cy + row == ty + (row - m.cy);
    }
    hide SpotAt;
    if At(m, row, col) && clear(q) {
      assert CellHits(m, tx, ty, clear, row, col, q);
    }
  }

  lemma RowListed(m: Matrix, tx: nat, ty: nat, clear: Spot -> bool, list: seq<Spot>, row: nat)
    requires Formed(m) && row < m.rows && Listed(m, tx, ty, clear, list, row, m.cols)
    ensures Listed(m, tx, ty, clear, list, row + 1, 0)
  {
    hide CellHits;
  }

  lemma AllListed(m: Matrix, tx: nat, ty: nat, clear: Spot -> bool, list: seq<Spot>)
    requires Formed(m) && Listed(m, tx, ty, clear, list, m.rows, 0)
    ensures forall q ::
      q in list <==> exists dx: int, dy: int :: Covers(m, dx, dy) && q == SpotAt(tx, ty, dx, dy) && clear(q)
  {
    hide CellHits;
    CellsAreOffsets(m, tx, ty, clear, list);
  }

  lemma CellsAreOffsets(m: Matrix, tx: nat, ty: nat, clear: Spot -> bool, list: seq<Spot>)
    requires Formed(m)
    requires forall q ::
      q in list ==> exists r: nat, c: nat :: r < m.rows && c < m.cols && CellHits(m, tx, ty, clear, r, c, q)
    requires forall r, c, q ::
      0 <= r < m.rows && 0 <= c < m.cols && Done(m, m.rows, 0, r, c) && CellHits(m, tx, ty, clear, r, c, q) ==>
      q in list
    ensures forall q ::
      q in list <==> exists dx: int, dy: int :: Covers(m, dx, dy) && q == SpotAt(tx, ty, dx, dy) && clear(q)
  {
    hide At, SpotAt;
    forall q | q in list
      ensures exists dx: int, dy: int :: Covers(m, dx, dy) && q == SpotAt(tx, ty, dx, dy) && clear(q)
    {
      var r: nat, c: nat :| r < m.rows && c < m.cols && CellHits(m, tx, ty, clear, r, c, q);
      assert Covers(m, c - m.cx, r - m.cy);
    }
    forall q | exists dx: int, dy: int :: Covers(m, dx, dy) && q == SpotAt(tx, ty, dx, dy) && clear(q)
      ensures q in list
    {
      var dx: int, dy: int :| Covers(m, dx, dy) && q == SpotAt(tx, ty, dx, dy) && clear(q);
      assert CellHits(m, tx, ty, clear, m.cy + dy, m.cx + dx, q);
    }
  }
}
