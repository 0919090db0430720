/**
 * The request vocabulary behaviours emit (src/level/request.rs) and the
 * read-only view of a level they are given (the fields of Level, src/level.rs:14-28).
 */
module Requests {
  import opened Wrappers
  import opened Directions
  import opened Objects

  /** A terminal state of a level. */
  datatype State = Win | Lose

  datatype Request =
    | AddScore
    | AddMaxScore
    | UpdateState(state: State)
    | MoveObj(from: Point, to: Point)

  /** Rows of cells; rows may differ in length. matrix[y][x] is the cell at (x, y). */
  type Grid = seq<seq<Object>>

  /** Everything a Level holds, as a value. */
  datatype LevelView = LevelView(
    score: nat,
    maxScore: nat,
    state: Option<State>,
    player: Point,
    damaged: seq<Point>,
    matrix: Grid)

  predicate InBounds(p: Point, m: Grid)
  {
    p.1 < |m| && p.0 < |m[p.1]|
  }

  /** matrix[y][x], which panics in the source when (x, y) is outside the grid. */
  function At(m: Grid, p: Point): Object
    requires InBounds(p, m)
  {
    m[p.1][p.0]
  }

  /** The grid with the cell at p replaced. */
  function Set(m: Grid, p: Point, o: Object): (r: Grid)
    requires InBounds(p, m)
    ensures SameShape(r, m) && At(r, p) == o
    ensures forall q :: InBounds(q, m) && q != p ==> At(r, q) == At(m, q)
  {
    m[p.1 := m[p.1][p.0 := o]]
  }

  /** Two grids have the same number of rows and the same row lengths. */
  predicate SameShape(a: Grid, b: Grid)
  {
    |a| == |b| && forall y :: 0 <= y < |a| ==> |a[y]| == |b[y]|
  }

  /** Every index of the grid is a usize (a Vec's length never exceeds usize::MAX). */
  predicate Bounded(m: Grid)
  {
    |m| <= USIZE_MAX && forall y :: 0 <= y < |m| ==> |m[y]| <= USIZE_MAX
  }

  predicate RequestInBounds(r: Request, m: Grid)
  {
    r.MoveObj? ==> InBounds(r.from, m) && InBounds(r.to, m)
  }

  /** The requests name only cells of the grid, so applying them cannot panic. */
  predicate RequestsInBounds(rs: seq<Request>, m: Grid)
  {
    forall i :: 0 <= i < |rs| ==> RequestInBounds(rs[i], m)
  }

  /** Requests in bounds of a grid are in bounds of every grid of its shape. */
  lemma SameShapeRequests(rs: seq<Request>, a: Grid, b: Grid)
    requires SameShape(a, b) && RequestsInBounds(rs, a)
    ensures RequestsInBounds(rs, b)
  {
  }
}
