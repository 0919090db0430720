/**
 * Directions and the points they move (src/level/direction.rs and src/direction.rs,
 * which hold the same saturating step), plus the keyboard inputs that map to them.
 */
/** The inputs the editor's input match distinguishes (src/editor.rs:108-140). */
module Inputs {
  datatype Input =
    | Q | R | Space | Esc | Period | Comma
    | Up | Down | Left | Right
    | W | A | S | D
    | Unknown
}

module Directions {
  import opened Wrappers
  import Inputs

  /** usize::MAX on a 64-bit target. */
  const USIZE_MAX: nat := 0xFFFF_FFFF_FFFF_FFFF

  type Usize = n: nat | n <= USIZE_MAX

  /** A grid coordinate (x, y): x is the column, y is the row. */
  type Point = (Usize, Usize)

  datatype Direction = Up | Down | Left | Right

  /** The signed unit offset a direction adds to (x, y). */
  function Offset(d: Direction): (int, int)
  {
    match d
    case Up => (0, -1)
    case Down => (0, 1)
    case Left => (-1, 0)
    case Right => (1, 0)
  }

  /** usize::saturating_add_signed: the sum clamped to 0..USIZE_MAX. */
  function SaturatingAddSigned(a: Usize, delta: int): Usize
  {
    if a + delta < 0 then 0
    else if a + delta > USIZE_MAX then USIZE_MAX
    else a + delta
  }

  /** Direction::apply_to: one saturating unit step. */
  function ApplyTo(d: Direction, p: Point): Point
  {
    var (dx, dy) := Offset(d);
    (SaturatingAddSigned(p.0, dx), SaturatingAddSigned(p.1, dy))
  }

  /** Direction::from_input: the four arrow inputs name a direction, nothing else does. */
  function FromInput(i: Inputs.Input): Option<Direction>
  {
    match i
    case Up => Some(Up)
    case Down => Some(Down)
    case Left => Some(Left)
    case Right => Some(Right)
    case _ => None
  }

  /** The arrow input that names a direction: the reference inverse of FromInput. */
  function ArrowOf(d: Direction): Inputs.Input
  {
    match d
    case Up => Inputs.Up
    case Down => Inputs.Down
    case Left => Inputs.Left
    case Right => Inputs.Right
  }

  function Opposite(d: Direction): Direction
  {
    match d
    case Up => Down
    case Down => Up
    case Left => Right
    case Right => Left
  }

  predicate Vertical(d: Direction)
  {
    d == Up || d == Down
  }

  /** The step would leave the usize range, so it saturates and the point stays put. */
  predicate AtEdge(d: Direction, p: Point)
  {
    match d
    case Up => p.1 == 0
    case Down => p.1 == USIZE_MAX
    case Left => p.0 == 0
    case Right => p.0 == USIZE_MAX
  }

  function Dist(a: nat, b: nat): nat
  {
    if a <= b then b - a else a - b
  }

  lemma UpStep(p: Point)
    ensures ApplyTo(Up, p) == (p.0, if p.1 == 0 then 0 else p.1 - 1)
  {
  }

  lemma LeftStep(p: Point)
    ensures ApplyTo(Left, p) == (if p.0 == 0 then 0 else p.0 - 1, p.1)
  {
  }

  lemma DownRightStep(p: Point)
    ensures ApplyTo(Down, p) == (p.0, if p.1 == USIZE_MAX then p.1 else p.1 + 1)
    ensures ApplyTo(Right, p) == (if p.0 == USIZE_MAX then p.0 else p.0 + 1, p.1)
  {
  }

  /** A step moves along one axis only, by at most one, and moves exactly when not at the edge. */
  lemma StepIsUnit(d: Direction, p: Point)
    ensures var q := ApplyTo(d, p);
      (if Vertical(d) then q.0 == p.0 && Dist(q.1, p.1) <= 1 else q.1 == p.1 && Dist(q.0, p.0) <= 1)
      && (q == p <==> AtEdge(d, p))
  {
  }

  /** Stepping back undoes a step exactly when the step did not saturate
      (so Down then Up restores p iff p.1 < USIZE_MAX, Up then Down iff p.1 > 0). */
  lemma StepBack(d: Direction, p: Point)
    ensures ApplyTo(Opposite(d), ApplyTo(d, p)) == p <==> !AtEdge(d, p)
  {
  }

  /** from_input is the inverse of ArrowOf, and every non-arrow input gives None. */
  lemma FromInputInverse(i: Inputs.Input, d: Direction)
    ensures FromInput(i) == Some(d) <==> i == ArrowOf(d)
    ensures FromInput(i).None? <==> i !in {Inputs.Up, Inputs.Down, Inputs.Left, Inputs.Right}
  {
  }
}
