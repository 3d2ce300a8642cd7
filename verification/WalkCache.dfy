/**
 * The walk cache of a creature: which tiles around it can be walked on. After a step of one tile
 * the grid is shifted and only its edge is looked up again.
 */
module WalkCache {
  const SIDE := 33
  const REACH := 16

  /** Whether the creature can walk onto the tile with these coordinates. */
  type World = (int, int) -> bool

  /** The cells, row by row. */
  type Grid = seq<seq<bool>>

  predicate Square(g: Grid) {
    |g| == SIDE && forall r :: 0 <= r < SIDE ==> |g[r]| == SIDE
  }

  /** The tile a cell stands for, seen from (x, y). */
  function Look(w: World, x: int, y: int, r: int, c: int): bool {
    w(x + c - REACH, y + r - REACH)
  }

  // ----- what a step does to the grid -----

  /** The rows have been moved and the new row looked up; `sy` is 1 for a step south. */
  function Vertical(g: Grid, w: World, x: int, y: int, sy: int, r: int, c: int): bool
    requires Square(g) && 0 <= r < SIDE && 0 <= c < SIDE && -1 <= sy <= 1
  {
    if sy == -1 then if r == 0 then Look(w, x, y, 0, c) else g[r - 1][c]
    else if sy == 1 then if r == SIDE - 1 then Look(w, x, y, r, c) else g[r + 1][c]
    else g[r][c]
  }

  /** ... and then the columns: from row `|sy|` on they are moved, and the new column is looked up
      in every row. */
  function Horizontal(g: Grid, w: World, x: int, y: int, sx: int, sy: int, r: int, c: int): bool
    requires Square(g) && 0 <= r < SIDE && 0 <= c < SIDE && -1 <= sy <= 1 && -1 <= sx <= 1
  {
    var start := if sy == 0 then 0 else 1;
    if sx == 1 then
      if c == SIDE - 1 then Look(w, x, y, r, c) else Vertical(g, w, x, y, sy, r, if r >= start then c + 1 else c)
    else if sx == -1 then
      if c == 0 then Look(w, x, y, r, c) else Vertical(g, w, x, y, sy, r, if r >= start then c - 1 else c)
    else Vertical(g, w, x, y, sy, r, c)
  }

  function Moved(g: Grid, w: World, x: int, y: int, sx: int, sy: int): (h: Grid)
    requires Square(g) && -1 <= sy <= 1 && -1 <= sx <= 1
    ensures Square(h)
    ensures forall r, c :: 0 <= r < SIDE && 0 <= c < SIDE ==>
      h[r][c] == if r == REACH - sy && c == REACH - sx then Look(w, x, y, r, c)
        else Horizontal(g, w, x, y, sx, sy, r, c)
  {
    seq(SIDE, r requires 0 <= r < SIDE =>
      seq(SIDE, c requires 0 <= c < SIDE =>
        if r == REACH - sy && c == REACH - sx then Look(w, x, y, r, c) else Horizontal(g, w, x, y, sx, sy, r, c)))
  }

  // ----- which cells are right afterwards -----

  predicate Own(r: int, c: int) { r == REACH && c == REACH }

  /** Every cell but the creature's own, which is never consulted, shows the world. */
  predicate Coherent(g: Grid, w: World, x: int, y: int)
    requires Square(g)
  {
    forall r, c :: 0 <= r < SIDE && 0 <= c < SIDE && !Own(r, c) ==> g[r][c] == Look(w, x, y, r, c)
  }

  predicate RowCoherent(g: Grid, w: World, x: int, y: int, r: int)
    requires Square(g) && 0 <= r < SIDE
  {
    forall c :: 0 <= c < SIDE && !Own(r, c) ==> g[r][c] == Look(w, x, y, r, c)
  }

  /** A step changes the world only where the creature was and where it is. */
  ghost predicate StepOf(before: World, after: World, x: int, y: int, sx: int, sy: int) {
    forall i: int, j: int :: !(i == x && j == y) && !(i == x - sx && j == y - sy) ==> before(i, j) == after(i, j)
  }

  /** What a cell of a row shows after a southern diagonal step that leaves the row wrong. */
  function Skewed(w: World, x: int, y: int, sx: int, r: int, c: int): bool {
    if r == 0 then Look(w, x, y, r, c - sx) else Look(w, x, y, r, c + sx)
  }

  /** An old cell shows, unless the creature was or is there, the tile it now lies on. */
  lemma OldCell(g: Grid, before: World, after: World, x: int, y: int, sx: int, sy: int, r: int, c: int)
    requires Square(g) && Coherent(g, before, x - sx, y - sy) && StepOf(before, after, x, y, sx, sy)
    requires 0 <= r < SIDE && 0 <= c < SIDE && !Own(r, c) && !Own(r - sy, c - sx)
    ensures g[r][c] == Look(after, x, y, r - sy, c - sx)
  {
  }

  /** Exactly what every consultable cell shows after a step. */
  lemma MovedCell(g: Grid, before: World, after: World, x: int, y: int, sx: int, sy: int, r: int, c: int)
    requires Square(g) && Coherent(g, before, x - sx, y - sy) && StepOf(before, after, x, y, sx, sy)
    requires -1 <= sy <= 1 && -1 <= sx <= 1 && (sx != 0 || sy != 0)
    requires 0 <= r < SIDE && 0 <= c < SIDE && !Own(r, c)
    ensures var edge := if sx == 1 then SIDE - 1 else 0;
            Moved(g, after, x, y, sx, sy)[r][c] ==
              if sy == 1 && sx != 0 && (r == 0 || r == SIDE - 1) && c != edge then Skewed(after, x, y, sx, r, c)
                else Look(after, x, y, r, c)
  {
    hide Moved, Coherent, StepOf, Look;
    if r == REACH - sy && c == REACH - sx {
    } else {
      var start := if sy == 0 then 0 else 1;
      var c' := if r >= start then c + sx else c;
      if 0 <= c' < SIDE && 0 <= r + sy < SIDE {
        if !(r + sy == REACH && c' == REACH) && !(r == REACH && c' - sx == REACH) {
          OldCell(g, before, after, x, y, sx, sy, r + sy, c');
        }
      }
    }
  }

  /** After a step straight on or north-east or north-west the whole grid is right. */
  lemma StepKeepsCoherent(g: Grid, before: World, after: World, x: int, y: int, sx: int, sy: int)
    requires Square(g) && Coherent(g, before, x - sx, y - sy) && StepOf(before, after, x, y, sx, sy)
    requires -1 <= sy <= 1 && -1 <= sx <= 1 && (sx != 0 || sy != 0) && (sx == 0 || sy != 1)
    ensures Coherent(Moved(g, after, x, y, sx, sy), after, x, y)
  {
    var h := Moved(g, after, x, y, sx, sy);
    forall r, c | 0 <= r < SIDE && 0 <= c < SIDE && !Own(r, c) ensures h[r][c] == Look(after, x, y, r, c) {
      MovedCell(g, before, after, x, y, sx, sy, r, c);
    }
  }

  /** After any step every row but the first and the last is right. */
  lemma InnerRowsCoherent(g: Grid, before: World, after: World, x: int, y: int, sx: int, sy: int, r: int)
    requires Square(g) && Coherent(g, before, x - sx, y - sy) && StepOf(before, after, x, y, sx, sy)
    requires -1 <= sy <= 1 && -1 <= sx <= 1 && (sx != 0 || sy != 0) && 1 <= r < SIDE - 1
    ensures RowCoherent(Moved(g, after, x, y, sx, sy), after, x, y, r)
  {
    var h := Moved(g, after, x, y, sx, sy);
    forall c | 0 <= c < SIDE && !Own(r, c) ensures h[r][c] == Look(after, x, y, r, c) {
      MovedCell(g, before, after, x, y, sx, sy, r, c);
    }
  }

  /** The tiles of an edge row are walkable alike with the neighbour the grid confuses them with. */
  predicate Alike(w: World, x: int, y: int, sx: int, r: int) {
    forall c :: 0 <= c < SIDE && c != (if sx == 1 then SIDE - 1 else 0) ==>
      Skewed(w, x, y, sx, r, c) == Look(w, x, y, r, c)
  }

  /** After a step south-east or south-west the grid is right exactly when the map does not tell
      the confused tiles of its first and last row apart. */
  lemma SouthernDiagonalExactlyWhen(g: Grid, before: World, after: World, x: int, y: int, sx: int)
    requires
      Square(g) && Coherent(g, before, x - sx, y - 1) && StepOf(before, after, x, y, sx, 1) && (sx == 1 || sx == -1)
    ensures Coherent(Moved(g, after, x, y, sx, 1), after, x, y) <==>
      Alike(after, x, y, sx, 0) && Alike(after, x, y, sx, SIDE - 1)
  {
    var h := Moved(g, after, x, y, sx, 1);
    var edge := if sx == 1 then SIDE - 1 else 0;
    forall r, c | 0 <= r < SIDE && 0 <= c < SIDE && !Own(r, c)
      ensures h[r][c] == if (r == 0 || r == SIDE - 1) && c != edge then Skewed(after, x, y, sx, r, c)
        else Look(after, x, y, r, c)
    {
      MovedCell(g, before, after, x, y, sx, 1, r, c);
    }
    hide Moved, Skewed, Look;
    if Coherent(h, after, x, y) {
      forall r, c | (r == 0 || r == SIDE - 1) && 0 <= c < SIDE && c != edge
        ensures Skewed(after, x, y, sx, r, c) == Look(after, x, y, r, c)
      {
        assert h[r][c] == Look(after, x, y, r, c);
      }
    }
  }

  /** A wall that runs north to south is enough: after a step south-east the first row shows it
      one tile too far east. */
  lemma SouthEastGoesWrong()
    ensures !Alike((i, j) => i != 0, 16, 16, 1, 0)
  {
    var w: World := (i, j) => i != 0;
    assert Skewed(w, 16, 16, 1, 0, 1) != Look(w, 16, 16, 0, 1);
  }

  lemma SameGrid(g: Grid, h: Grid)
    requires Square(g) && Square(h) && forall r, c :: 0 <= r < SIDE && 0 <= c < SIDE ==> g[r][c] == h[r][c]
    ensures g == h
  {
    assert forall r :: 0 <= r < SIDE ==> g[r] == h[r];
  }

  /** The three stages of a step, one after the other. */
  lemma StepIsMoved(g: Grid, v: Grid, h: Grid, k: Grid, w: World, x: int, y: int, sx: int, sy: int)
    requires Square(g) && Square(v) && Square(h) && Square(k) && -1 <= sx <= 1 && -1 <= sy <= 1
    requires forall r, c :: 0 <= r < SIDE && 0 <= c < SIDE ==> v[r][c] == Vertical(g, w, x, y, sy, r, c)
    requires forall r, c ::
      0 <= r < SIDE && 0 <= c < SIDE ==> h[r][c] == ColumnsMoved(v, w, x, y, sx, if sy == 0 then 0 else 1, r, c)
    requires forall r, c ::
      0 <= r < SIDE && 0 <= c < SIDE ==>
      k[r][c] == if r == REACH - sy && c == REACH - sx then w(x - sx, y - sy) else h[r][c]
    ensures k == Moved(g, w, x, y, sx, sy)
  {
    hide Vertical, Moved;
    var m := Moved(g, w, x, y, sx, sy);
    forall r, c | 0 <= r < SIDE && 0 <= c < SIDE ensures k[r][c] == m[r][c] {
    }
    SameGrid(k, m);
  }

  function ColumnsMoved(v: Grid, w: World, x: int, y: int, sx: int, start: nat, r: int, c: int): bool
    requires Square(v) && 0 <= r < SIDE && 0 <= c < SIDE
  {
    if sx == 1 then if c == SIDE - 1 then Look(w, x, y, r, c) else v[r][if r >= start then c + 1 else c]
    else if sx == -1 then if c == 0 then Look(w, x, y, r, c) else v[r][if r >= start then c - 1 else c]
    else v[r][c]
  }

  // ----- the code -----

  class Creature {
    const localMapCache: array2<bool>
    var x: int
    var y: int

    constructor (x: int, y: int)
      ensures Valid() && fresh(localMapCache) && this.x == x && this.y == y
    {
      localMapCache := new bool[SIDE, SIDE]((_, _) => false);
      this.x, this.y := x, y;
    }

    predicate Valid() {
      localMapCache.Length0 == SIDE && localMapCache.Length1 == SIDE
    }

    ghost function Cells(): (g: Grid)
      requires Valid()
      reads localMapCache
      ensures Square(g) && forall r, c :: 0 <= r < SIDE && 0 <= c < SIDE ==> g[r][c] == localMapCache[r, c]
    {
      seq(SIDE, r requires 0 <= r < SIDE && Valid() reads localMapCache =>
        seq(SIDE, c requires 0 <= c < SIDE && 0 <= r < SIDE && Valid() reads localMapCache => localMapCache[r, c]))
    }

    /** `updateTileCache`: nothing happens outside the grid. */
    method UpdateTileCache(walkable: bool, dx: int, dy: int)
      requires Valid()
      modifies localMapCache
      ensures forall r, c :: 0 <= r < SIDE && 0 <= c < SIDE ==>
        localMapCache[r, c] == if r == REACH + dy && c == REACH + dx then walkable else old(localMapCache[r, c])
    {
      if -REACH <= dx <= REACH && -REACH <= dy <= REACH {
        localMapCache[REACH + dy, REACH + dx] := walkable;
      }
    }

    /** `memcpy` of one row onto another. */
    method CopyRow(to: nat, from: nat)
      requires Valid() && to < SIDE && from < SIDE && to != from
      modifies localMapCache
      ensures forall c :: 0 <= c < SIDE ==> localMapCache[to, c] == old(localMapCache[from, c])
      ensures forall r, c ::
        0 <= r < SIDE && r != to && 0 <= c < SIDE ==> localMapCache[r, c] == old(localMapCache[r, c])
    {
      for k := 0 to SIDE
        invariant forall c :: 0 <= c < k ==> localMapCache[to, c] == old(localMapCache[from, c])
        invariant forall r, c ::
          0 <= r < SIDE && r != to && 0 <= c < SIDE ==> localMapCache[r, c] == old(localMapCache[r, c])
      {
        localMapCache[to, k] := localMapCache[from, k];
      }
    }

    /** After a step north: the rows move down, the lowest first. */
    method ShiftRowsSouth()
      requires Valid()
      modifies localMapCache
      ensures forall r, c ::
        0 <= r < SIDE && 0 <= c < SIDE ==> localMapCache[r, c] == old(localMapCache[if r > 0 then r - 1 else r, c])
    {
      var k := SIDE - 1;
      while k > 0
        invariant 0 <= k < SIDE
        invariant forall r, c :: k < r < SIDE && 0 <= c < SIDE ==> localMapCache[r, c] == old(localMapCache[r - 1, c])
        invariant forall r, c :: 0 <= r <= k && 0 <= c < SIDE ==> localMapCache[r, c] == old(localMapCache[r, c])
      {
        k := k - 1;
        CopyRow(k + 1, k);
      }
    }

    /** After a step south: the rows move up, the highest first. */
    method ShiftRowsNorth()
      requires Valid()
      modifies localMapCache
      ensures forall r, c ::
        0 <= r < SIDE && 0 <= c < SIDE ==>
        localMapCache[r, c] == old(localMapCache[if r < SIDE - 1 then r + 1 else r, c])
    {
      for k := 0 to SIDE - 1
        invariant forall r, c ::
          0 <= r < SIDE && 0 <= c < SIDE ==> localMapCache[r, c] == old(localMapCache[if r < k then r + 1 else r, c])
      {
        CopyRow(k, k + 1);
      }
    }

    method LookUpRow(w: World, dy: int)
      requires Valid() && -REACH <= dy <= REACH
      modifies localMapCache
      ensures forall r, c :: 0 <= r < SIDE && 0 <= c < SIDE ==>
        localMapCache[r, c] == if r == REACH + dy then Look(w, x, y, r, c) else old(localMapCache[r, c])
    {
      for dx := -REACH to REACH + 1
        invariant forall r, c :: 0 <= r < SIDE && 0 <= c < SIDE ==>
          localMapCache[r, c] == if r == REACH + dy && c < REACH + dx then Look(w, x, y, r, c)
            else old(localMapCache[r, c])
      {
        UpdateTileCache(w(x + dx, y + dy), dx, dy);
      }
    }

    method LookUpColumn(w: World, dx: int)
      requires Valid() && -REACH <= dx <= REACH
      modifies localMapCache
      ensures forall r, c :: 0 <= r < SIDE && 0 <= c < SIDE ==>
        localMapCache[r, c] == if c == REACH + dx then Look(w, x, y, r, c) else old(localMapCache[r, c])
    {
      for dy := -REACH to REACH + 1
        invariant forall r, c :: 0 <= r < SIDE && 0 <= c < SIDE ==>
          localMapCache[r, c] == if c == REACH + dx && r < REACH + dy then Look(w, x, y, r, c)
            else old(localMapCache[r, c])
      {
        UpdateTileCache(w(x + dx, y + dy), dx, dy);
      }
    }

    /** After a step east: from row `start` on the columns move left. */
    method ShiftColumnsWest(start: nat)
      requires Valid() && start <= SIDE
      modifies localMapCache
      ensures forall r, c :: 0 <= r < SIDE && 0 <= c < SIDE ==>
        localMapCache[r, c] == old(localMapCache[r, if r >= start && c < SIDE - 1 then c + 1 else c])
    {
      for j := start to SIDE
        invariant forall r, c :: 0 <= r < SIDE && 0 <= c < SIDE ==>
          localMapCache[r, c] == old(localMapCache[r, if start <= r < j && c < SIDE - 1 then c + 1 else c])
      {
        for i := 0 to SIDE - 1
          invariant forall r, c :: 0 <= r < SIDE && 0 <= c < SIDE ==>
            localMapCache[r, c] == old(localMapCache[r,
              if (start <= r < j && c < SIDE - 1) || (r == j && c < i) then c + 1 else c])
        {
          localMapCache[j, i] := localMapCache[j, i + 1];
        }
      }
    }

    /** After a step west: from row `start` on the columns move right. */
    method ShiftColumnsEast(start: nat)
      requires Valid() && start <= SIDE
      modifies localMapCache
      ensures forall r, c :: 0 <= r < SIDE && 0 <= c < SIDE ==>
        localMapCache[r, c] == old(localMapCache[r, if r >= start && c > 0 then c - 1 else c])
    {
      for j := start to SIDE
        invariant forall r, c :: 0 <= r < SIDE && 0 <= c < SIDE ==>
          localMapCache[r, c] == old(localMapCache[r, if start <= r < j && c > 0 then c - 1 else c])
      {
        var i := SIDE - 1;
        while i > 0
          invariant 0 <= i < SIDE
          invariant forall r, c :: 0 <= r < SIDE && 0 <= c < SIDE ==>
            localMapCache[r, c] == old(localMapCache[r,
              if (start <= r < j && c > 0) || (r == j && c > i) then c - 1 else c])
        {
          i := i - 1;
          localMapCache[j, i + 1] := localMapCache[j, i];
        }
      }
    }

    /** The part of `onCreatureMove` that follows a step of one tile by the creature itself; it
        already stands on the new tile. */
    method OnStep(w: World, oldX: int, oldY: int)
      requires Valid() && -1 <= x - oldX <= 1 && -1 <= y - oldY <= 1
      modifies localMapCache
      ensures Cells() == Moved(old(Cells()), w, x, y, x - oldX, y - oldY)
    {
      hide Vertical, Look, Moved;
      ghost var g := Cells();
      MoveRows(w, oldY);
      ghost var v := Cells();
      MoveColumns(w, oldX, if oldY > y then oldY - y else y - oldY);
      ghost var h := Cells();
      UpdateTileCache(w(oldX, oldY), oldX - x, oldY - y);
      StepIsMoved(g, v, h, Cells(), w, x, y, x - oldX, y - oldY);
    }

    method MoveRows(w: World, oldY: int)
      requires Valid() && -1 <= y - oldY <= 1
      modifies localMapCache
      ensures forall r, c ::
        0 <= r < SIDE && 0 <= c < SIDE ==> localMapCache[r, c] == Vertical(old(Cells()), w, x, y, y - oldY, r, c)
    {
      if oldY > y {
        ShiftRowsSouth();
        LookUpRow(w, -REACH);
      } else if oldY < y {
        ShiftRowsNorth();
        LookUpRow(w, REACH);
      }
    }

    method MoveColumns(w: World, oldX: int, dy: nat)
      requires Valid() && -1 <= x - oldX <= 1 && dy <= 1
      modifies localMapCache
      ensures forall r, c :: 0 <= r < SIDE && 0 <= c < SIDE ==>
        localMapCache[r, c] == ColumnsMoved(old(Cells()), w, x, y, x - oldX, dy, r, c)
    {
      if oldX < x {
        ShiftColumnsWest(dy);
        LookUpColumn(w, REACH);
      } else if oldX > x {
        ShiftColumnsEast(dy);
        LookUpColumn(w, -REACH);
      }
    }

    /** `updateMapCache`. */
    method UpdateMapCache(w: World)
      requires Valid()
      modifies localMapCache
      ensures Coherent(Cells(), w, x, y)
    {
      for dy := -REACH to REACH + 1
        invariant forall r, c :: 0 <= r < REACH + dy && 0 <= c < SIDE ==> localMapCache[r, c] == Look(w, x, y, r, c)
      {
        LookUpRow(w, dy);
      }
    }

    /** `getWalkCache` on the creature's own floor. */
    method GetWalkCache(i: int, j: int) returns (answer: nat)
      requires Valid()
      ensures forall w :: Coherent(Cells(), w, x, y) && -REACH <= i - x <= REACH && -REACH <= j - y <= REACH ==>
        answer == if (i == x && j == y) || w(i, j) then 1 else 0
      ensures !(-REACH <= i - x <= REACH && -REACH <= j - y <= REACH) ==> answer == 2
    {
      if i == x && j == y {
        return 1;
      }
      var dx, dy := i - x, j - y;
      if -REACH <= dx <= REACH {
        if -REACH <= dy <= REACH {
          return if localMapCache[REACH + dy, REACH + dx] then 1 else 0;
        }
      }
      answer := 2;
    }
  }
}
