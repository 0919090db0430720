/** The rock's gravity and diagonal-slide rule (src/objects/rock.rs). */
module RockRule {
  import opened Directions
  import opened Objects
  import opened Requests

  /** A rock on the player's cell, or on the cell just above the player, is left alone. */
  predicate Guarded(v: LevelView, p: Point)
  {
    p == v.player || p == ApplyTo(Up, v.player)
  }

  /** Reading (s, y), and (s, y + 1) when the first is a placeholder, stays inside the grid. */
  predicate SideReadable(m: Grid, s: nat, y: nat)
    requires y + 1 < |m|
  {
    s < |m[y]| && (m[y][s].Placeholder() ==> s < |m[y + 1]|)
  }

  /** Both the side cell and the cell below it are placeholders. */
  predicate SideFree(m: Grid, s: nat, y: nat)
    requires y + 1 < |m| && SideReadable(m, s, y)
  {
    m[y][s].Placeholder() && m[y + 1][s].Placeholder()
  }

  /** Every cell Rock::tick reads at p lies in the grid, following its reads as they
      short-circuit; otherwise the source's `x - 1` underflows or an index is out of
      range, and it panics. */
  predicate Defined(v: LevelView, p: Point)
  {
    var (x, y) := p;
    var m := v.matrix;
    Guarded(v, p)
    || (y + 1 < |m| && x < |m[y + 1]|
        && (m[y + 1][x].Placeholder()
            || (x >= 1 && SideReadable(m, x - 1, y)
                && (SideFree(m, x - 1, y) || SideReadable(m, x + 1, y)))))
  }

  /** Rock::tick: fall into a placeholder below, else slide down-left, else down-right. */
  function Tick(v: LevelView, p: Point): (r: seq<Request>)
    requires Bounded(v.matrix) && InBounds(p, v.matrix) && Defined(v, p)
    ensures |r| <= 1
    ensures RequestsInBounds(r, v.matrix)
    ensures r != [] ==>
      && r[0].MoveObj? && r[0].from == p
      && r[0].to.1 == p.1 + 1 && Dist(r[0].to.0, p.0) <= 1
      && At(v.matrix, r[0].to).Placeholder()
  {
    var (x, y) := p;
    var m := v.matrix;
    if Guarded(v, p) then []
    else if m[y + 1][x].Placeholder() then [MoveObj(p, (x, y + 1))]
    else if SideFree(m, x - 1, y) then [MoveObj(p, (x - 1, y + 1))]
    else if SideFree(m, x + 1, y) then [MoveObj(p, (x + 1, y + 1))]
    else []
  }

  /** The simple sufficient condition: x >= 1 and rows y and y + 1 both cover x - 1 .. x + 1. */
  lemma EnclosedIsDefined(v: LevelView, p: Point)
    requires InBounds(p, v.matrix) && p.0 >= 1 && p.1 + 1 < |v.matrix|
    requires p.0 + 1 < |v.matrix[p.1]| && p.0 + 1 < |v.matrix[p.1 + 1]|
    ensures Defined(v, p)
  {
  }

  lemma GuardedRockStays(v: LevelView, p: Point)
    requires Bounded(v.matrix) && InBounds(p, v.matrix) && Defined(v, p)
    requires Guarded(v, p)
    ensures Tick(v, p) == []
  {
  }

  lemma RockFalls(v: LevelView, p: Point)
    requires Bounded(v.matrix) && InBounds(p, v.matrix) && Defined(v, p)
    requires !Guarded(v, p) && v.matrix[p.1 + 1][p.0].Placeholder()
    ensures Tick(v, p) == [MoveObj(p, (p.0, p.1 + 1))]
  {
  }

  /** With both sides free the rock goes left. */
  lemma RockPrefersLeft(v: LevelView, p: Point)
    requires Bounded(v.matrix) && InBounds(p, v.matrix) && Defined(v, p)
    requires !Guarded(v, p) && !v.matrix[p.1 + 1][p.0].Placeholder()
    requires SideFree(v.matrix, p.0 - 1, p.1)
    ensures Tick(v, p) == [MoveObj(p, (p.0 - 1, p.1 + 1))]
  {
  }

  /** Every move the rule makes is backed by its condition: straight down only onto a
      placeholder; sideways only when the cell below is taken and both the side cell
      and the cell below it are placeholders; right only when left is not free. */
  lemma RockMoveJustified(v: LevelView, p: Point)
    requires Bounded(v.matrix) && InBounds(p, v.matrix) && Defined(v, p)
    requires Tick(v, p) != []
    ensures !Guarded(v, p)
    ensures var t := Tick(v, p)[0].to;
      && (t.0 == p.0 ==> v.matrix[p.1 + 1][p.0].Placeholder())
      && (t.0 != p.0 ==>
            && !v.matrix[p.1 + 1][p.0].Placeholder()
            && v.matrix[p.1][t.0].Placeholder() && v.matrix[p.1 + 1][t.0].Placeholder())
      && (t.0 == p.0 + 1 ==> p.0 >= 1 && !SideFree(v.matrix, p.0 - 1, p.1))
  {
  }

  /** The rock stays exactly when it is guarded or all three targets are blocked. */
  lemma RockStaysIffBlocked(v: LevelView, p: Point)
    requires Bounded(v.matrix) && InBounds(p, v.matrix) && Defined(v, p)
    ensures Tick(v, p) == [] <==>
      Guarded(v, p)
      || (&& !v.matrix[p.1 + 1][p.0].Placeholder()
          && !SideFree(v.matrix, p.0 - 1, p.1)
          && !SideFree(v.matrix, p.0 + 1, p.1))
  {
  }
}
