/**
 * The area of a spell as a matrix in a flat array with a centre, and its rotations.
 */
module AreaMatrix {
  import opened Basics

  datatype Matrix = Matrix(arr: seq<bool>, rows: nat, cols: nat, cx: nat, cy: nat)

  predicate Formed(m: Matrix) {
    |m.arr| == m.rows * m.cols && (m.rows > 0 && m.cols > 0 ==> m.cx < m.cols && m.cy < m.rows)
  }

  // ----- flat indices -----

  function Flat(cols: nat, r: nat, c: nat): nat {
    r * cols + c
  }

  lemma FlatInside(rows: nat, cols: nat, r: nat, c: nat)
    requires r < rows && c < cols
    ensures Flat(cols, r, c) < rows * cols
  {
    MulMonotone(r + 1, rows, cols);
  }

  /** Every flat index is that of one cell. */
  lemma FlatIsCell(rows: nat, cols: nat, p: nat) returns (r: nat, c: nat)
    requires p < rows * cols
    ensures r < rows && c < cols && Flat(cols, r, c) == p
  {
    r, c := p / cols, p % cols;
    if r >= rows {
      MulMonotone(rows, r, cols);
    }
  }

  lemma FlatInjective(cols: nat, r: nat, c: nat, r': nat, c': nat)
    requires c < cols && c' < cols && Flat(cols, r, c) == Flat(cols, r', c')
    ensures r == r' && c == c'
  {
    if r < r' {
      MulMonotone(r + 1, r', cols);
    } else if r' < r {
      MulMonotone(r' + 1, r, cols);
    }
  }

  function At(m: Matrix, r: nat, c: nat): bool
    requires Formed(m) && r < m.rows && c < m.cols
  {
    FlatInside(m.rows, m.cols, r, c);
    m.arr[Flat(m.cols, r, c)]
  }

  lemma SameMatrix(a: Matrix, b: Matrix)
    requires Formed(a) && Formed(b) && a.rows == b.rows && a.cols == b.cols && a.cx == b.cx && a.cy == b.cy
    requires forall r, c :: 0 <= r < a.rows && 0 <= c < a.cols ==> At(a, r, c) == At(b, r, c)
    ensures a == b
  {
    forall p | 0 <= p < |a.arr| ensures a.arr[p] == b.arr[p] {
      var r, c := FlatIsCell(a.rows, a.cols, p);
      assert At(a, r, c) == At(b, r, c);
    }
  }

  // ----- the rotations, cell by cell -----

  /** Subtraction in 32 bits. */
  function Sub32(a: nat, b: nat): (d: nat)
    ensures b <= a < TWO_TO_THE_32 ==> d == a - b
  {
    (a - b) % TWO_TO_THE_32
  }

  ghost predicate Rotated90(m: Matrix, n: Matrix)
    requires Formed(m)
  {
    && Formed(n) && n.rows == m.cols && n.cols == m.rows && n.cx == Sub32(m.rows, m.cy + 1) && n.cy == m.cx
    && forall r, c :: 0 <= r < m.rows && 0 <= c < m.cols ==> At(n, c, m.rows - 1 - r) == At(m, r, c)
  }

  ghost predicate Rotated180(m: Matrix, n: Matrix)
    requires Formed(m)
  {
    && Formed(n) && n.rows == m.rows && n.cols == m.cols && n.cx == Sub32(m.cols, m.cx + 1)
       && n.cy == Sub32(m.rows, m.cy + 1)
    && forall r, c :: 0 <= r < m.rows && 0 <= c < m.cols ==> At(n, m.rows - 1 - r, m.cols - 1 - c) == At(m, r, c)
  }

  ghost predicate Rotated270(m: Matrix, n: Matrix)
    requires Formed(m)
  {
    && Formed(n) && n.rows == m.cols && n.cols == m.rows && n.cx == m.cy && n.cy == Sub32(m.cols, m.cx + 1)
    && forall r, c :: 0 <= r < m.rows && 0 <= c < m.cols ==> At(n, m.cols - 1 - c, r) == At(m, r, c)
  }

  /** Rows and columns are counted in 32 bits. */
  predicate Sized(m: Matrix) {
    Formed(m) && m.rows < TWO_TO_THE_32 && m.cols < TWO_TO_THE_32
  }

  /** There is a cell. */
  predicate Proper(m: Matrix) {
    Sized(m) && m.rows > 0 && m.cols > 0
  }

  /** The area covers the tile this far from its centre. */
  predicate Covers(m: Matrix, dx: int, dy: int)
    requires Formed(m)
  {
    0 <= m.cy + dy < m.rows && 0 <= m.cx + dx < m.cols && At(m, m.cy + dy, m.cx + dx)
  }

  lemma Turn90(m: Matrix, n: Matrix, dx: int, dy: int)
    requires Proper(m) && Rotated90(m, n)
    ensures Covers(n, 0 - dy, dx) <==> Covers(m, dx, dy)
  {
    hide At;
    var r, c := m.cy + dy, m.cx + dx;
    if 0 <= r < m.rows && 0 <= c < m.cols {
      assert At(n, c, m.rows - 1 - r) == At(m, r, c);
    }
  }

  lemma Turn180(m: Matrix, n: Matrix, dx: int, dy: int)
    requires Proper(m) && Rotated180(m, n)
    ensures Covers(n, 0 - dx, 0 - dy) <==> Covers(m, dx, dy)
  {
    hide At;
    var r, c := m.cy + dy, m.cx + dx;
    if 0 <= r < m.rows && 0 <= c < m.cols {
      assert At(n, m.rows - 1 - r, m.cols - 1 - c) == At(m, r, c);
    }
  }

  lemma Turn270(m: Matrix, n: Matrix, dx: int, dy: int)
    requires Proper(m) && Rotated270(m, n)
    ensures Covers(n, dy, 0 - dx) <==> Covers(m, dx, dy)
  {
    hide At;
    var r, c := m.cy + dy, m.cx + dx;
    if 0 <= r < m.rows && 0 <= c < m.cols {
      assert At(n, m.cols - 1 - c, r) == At(m, r, c);
    }
  }

  /** A half turn is two quarter turns, ... */
  lemma HalfIsTwoQuarters(m: Matrix, n: Matrix, k: Matrix, half: Matrix)
    requires Proper(m) && Rotated90(m, n) && Rotated90(n, k) && Rotated180(m, half)
    ensures k == half
  {
    hide At;
    forall r, c | 0 <= r < k.rows && 0 <= c < k.cols ensures At(k, r, c) == At(half, r, c) {
      var r', c' := m.rows - 1 - r, m.cols - 1 - c;
      assert At(n, c', m.rows - 1 - r') == At(m, r', c');
      assert At(k, m.rows - 1 - r', n.rows - 1 - c') == At(n, c', m.rows - 1 - r');
      assert At(half, m.rows - 1 - r', m.cols - 1 - c') == At(m, r', c');
    }
    SameMatrix(k, half);
  }

  /** ... the turn to the other side is a half turn and a quarter turn, ... */
  lemma ThreeQuarters(m: Matrix, half: Matrix, k: Matrix, left: Matrix)
    requires Proper(m) && Rotated180(m, half) && Rotated90(half, k) && Rotated270(m, left)
    ensures k == left
  {
    hide At;
    forall r, c | 0 <= r < k.rows && 0 <= c < k.cols ensures At(k, r, c) == At(left, r, c) {
      var r', c' := c, m.cols - 1 - r;
      assert At(half, m.rows - 1 - r', m.cols - 1 - c') == At(m, r', c');
      assert At(k, m.cols - 1 - c', half.rows - 1 - (m.rows - 1 - r')) == At(half, m.rows - 1 - r', m.cols - 1 - c');
      assert At(left, m.cols - 1 - c', r') == At(m, r', c');
    }
    SameMatrix(k, left);
  }

  /** ... and one more quarter turn gives the matrix back. */
  lemma FourQuarters(m: Matrix, left: Matrix, k: Matrix)
    requires Proper(m) && Rotated270(m, left) && Rotated90(left, k)
    ensures k == m
  {
    hide At;
    forall r, c | 0 <= r < k.rows && 0 <= c < k.cols ensures At(k, r, c) == At(m, r, c) {
      assert At(left, m.cols - 1 - c, r) == At(m, r, c);
      assert At(k, r, left.rows - 1 - (m.cols - 1 - c)) == At(left, m.cols - 1 - c, r);
    }
    SameMatrix(k, m);
  }

  // ----- facing a direction -----

  datatype Direction = North | East | South | West

  /** A tile seen from the centre, after turning from north to the direction. */
  function TurnedX(dir: Direction, dx: int, dy: int): int {
    match dir case North => dx case East => 0 - dy case South => 0 - dx case West => dy
  }

  function TurnedY(dir: Direction, dx: int, dy: int): int {
    match dir case North => dy case East => dx case South => 0 - dy case West => 0 - dx
  }

  ghost predicate Faces(m: Matrix, n: Matrix, dir: Direction)
    requires Formed(m)
  {
    match dir
    case North => n == m
    case East => Rotated90(m, n)
    case South => Rotated180(m, n)
    case West => Rotated270(m, n)
  }

  /** The area that faces a direction covers exactly the turned tiles of its northern form. */
  lemma FacingArea(m: Matrix, n: Matrix, dir: Direction, dx: int, dy: int)
    requires Proper(m) && Faces(m, n, dir)
    ensures Covers(n, TurnedX(dir, dx, dy), TurnedY(dir, dx, dy)) <==> Covers(m, dx, dy)
  {
    match dir
    case North =>
    case East => Turn90(m, n, dx, dy);
    case South => Turn180(m, n, dx, dy);
    case West => Turn270(m, n, dx, dy);
  }
}
