/**
 * The level engine (src/level.rs): the request semantics as functions on a
 * LevelView, and the Level class whose methods perform them in place.
 */
module Levels {
  import opened Wrappers
  import opened Directions
  import opened Objects
  import opened Requests
  import opened Behaviours
  import opened Text
  import RockRule
  import GemRule

  // ---------------------------------------------------------------------------
  // Applying requests (Level::handle_requests and Level::move_obj)
  // ---------------------------------------------------------------------------

  /** Level::move_obj: from is replaced by the placeholder, and its old object is then
      written to to (so a move onto itself changes nothing). */
  function Moved(m: Grid, from: Point, to: Point): (r: Grid)
    requires InBounds(from, m) && InBounds(to, m)
    ensures SameShape(r, m)
  {
    Set(Set(m, from, GetPlaceholder()), to, At(m, from))
  }

  /** One request of Level::handle_requests. */
  function Apply(v: LevelView, r: Request): (w: LevelView)
    requires RequestInBounds(r, v.matrix)
    ensures SameShape(w.matrix, v.matrix)
  {
    match r
    case UpdateState(s) => if v.state.None? then v.(state := Some(s)) else v
    case AddScore => v.(score := v.score + 1)
    case AddMaxScore => v.(maxScore := v.maxScore + 1)
    case MoveObj(from, to) =>
      v.(player := if At(v.matrix, from).IsPlayer() then to else v.player,
         matrix := Moved(v.matrix, from, to),
         damaged := v.damaged + [from, to])
  }

  /** Level::handle_requests: the requests applied one after another, in list order. */
  function ApplyAll(v: LevelView, rs: seq<Request>): (w: LevelView)
    requires RequestsInBounds(rs, v.matrix)
    ensures SameShape(w.matrix, v.matrix)
    decreases |rs|
  {
    if rs == [] then v
    else
      var u := Apply(v, rs[0]);
      SameShapeRequests(rs[1..], v.matrix, u.matrix);
      ApplyAll(u, rs[1..])
  }

  function CountOf(rs: seq<Request>, q: Request): nat
  {
    if rs == [] then 0 else (if rs[0] == q then 1 else 0) + CountOf(rs[1..], q)
  }

  /** The state named by the first UpdateState request, if any. */
  function FirstState(rs: seq<Request>): Option<State>
  {
    if rs == [] then None
    else if rs[0].UpdateState? then Some(rs[0].state)
    else FirstState(rs[1..])
  }

  /** The from and to of every MoveObj request, in order. */
  function MovedPoints(rs: seq<Request>): seq<Point>
  {
    if rs == [] then []
    else (if rs[0].MoveObj? then [rs[0].from, rs[0].to] else []) + MovedPoints(rs[1..])
  }

  predicate NoMoves(rs: seq<Request>)
  {
    forall i :: 0 <= i < |rs| ==> !rs[i].MoveObj?
  }

  /** The counters grow by one per AddScore and AddMaxScore, the first UpdateState wins
      unless a state was already set, and every move appends its from and to to damaged. */
  lemma ApplyAllEffects(v: LevelView, rs: seq<Request>)
    requires RequestsInBounds(rs, v.matrix)
    ensures var w := ApplyAll(v, rs);
      && w.score == v.score + CountOf(rs, AddScore)
      && w.maxScore == v.maxScore + CountOf(rs, AddMaxScore)
      && w.state == (if v.state.Some? then v.state else FirstState(rs))
      && w.damaged == v.damaged + MovedPoints(rs)
  {
    ApplyAllCounters(v, rs);
    ApplyAllState(v, rs);
    ApplyAllDamaged(v, rs);
  }

  lemma {:induction false} ApplyAllCounters(v: LevelView, rs: seq<Request>)
    requires RequestsInBounds(rs, v.matrix)
    ensures ApplyAll(v, rs).score == v.score + CountOf(rs, AddScore)
    ensures ApplyAll(v, rs).maxScore == v.maxScore + CountOf(rs, AddMaxScore)
    decreases |rs|
  {
    if rs != [] {
      var u := Apply(v, rs[0]);
      SameShapeRequests(rs[1..], v.matrix, u.matrix);
      ApplyAllCounters(u, rs[1..]);
    }
  }

  lemma {:induction false} ApplyAllState(v: LevelView, rs: seq<Request>)
    requires RequestsInBounds(rs, v.matrix)
    ensures ApplyAll(v, rs).state == if v.state.Some? then v.state else FirstState(rs)
    decreases |rs|
  {
    if rs != [] {
      var u := Apply(v, rs[0]);
      SameShapeRequests(rs[1..], v.matrix, u.matrix);
      ApplyAllState(u, rs[1..]);
    }
  }

  lemma {:induction false} ApplyAllDamaged(v: LevelView, rs: seq<Request>)
    requires RequestsInBounds(rs, v.matrix)
    ensures ApplyAll(v, rs).damaged == v.damaged + MovedPoints(rs)
    decreases |rs|
  {
    if rs != [] {
      var u := Apply(v, rs[0]);
      SameShapeRequests(rs[1..], v.matrix, u.matrix);
      ApplyAllDamaged(u, rs[1..]);
      var head := if rs[0].MoveObj? then [rs[0].from, rs[0].to] else [];
      assert u.damaged == v.damaged + head;
      assert MovedPoints(rs) == head + MovedPoints(rs[1..]);
      assert v.damaged + head + MovedPoints(rs[1..]) == v.damaged + (head + MovedPoints(rs[1..]));
    }
  }

  /** Requests without a move leave the grid and the player where they were. */
  lemma {:induction false} NoMovesKeepGrid(v: LevelView, rs: seq<Request>)
    requires RequestsInBounds(rs, v.matrix) && NoMoves(rs)
    ensures ApplyAll(v, rs).matrix == v.matrix && ApplyAll(v, rs).player == v.player
    decreases |rs|
  {
    if rs != [] {
      var u := Apply(v, rs[0]);
      SameShapeRequests(rs[1..], v.matrix, u.matrix);
      assert NoMoves(rs[1..]) by {
        forall i | 0 <= i < |rs[1..]| ensures !rs[1..][i].MoveObj? {
          assert rs[1..][i] == rs[i + 1];
        }
      }
      NoMovesKeepGrid(u, rs[1..]);
    }
  }

  /** A move: to receives the object from had, from holds the placeholder unless the
      move is onto itself, no other cell changes, the player follows exactly when it is
      the object moved, and both points are appended to damaged. */
  lemma MoveObjEffect(v: LevelView, from: Point, to: Point)
    requires InBounds(from, v.matrix) && InBounds(to, v.matrix)
    ensures var w := Apply(v, MoveObj(from, to));
      && At(w.matrix, to) == At(v.matrix, from)
      && (from != to ==> At(w.matrix, from) == GetPlaceholder())
      && (forall q :: InBounds(q, v.matrix) && q != from && q != to ==> At(w.matrix, q) == At(v.matrix, q))
      && w.player == (if At(v.matrix, from).IsPlayer() then to else v.player)
      && w.damaged == v.damaged + [from, to]
      && w.score == v.score && w.maxScore == v.maxScore && w.state == v.state
  {
    var m1 := Set(v.matrix, from, GetPlaceholder());
    assert InBounds(to, m1);
  }

  /** A level's state is written once: the first UpdateState sticks for good. */
  lemma StateWriteOnce(v: LevelView, rs: seq<Request>)
    requires RequestsInBounds(rs, v.matrix)
    ensures v.state.Some? ==> ApplyAll(v, rs).state == v.state
    ensures v.state.None? && rs != [] && rs[0].UpdateState? ==> ApplyAll(v, rs).state == Some(rs[0].state)
  {
    ApplyAllEffects(v, rs);
  }

  /** Breaking a gem scores one and wins exactly when that score reaches the total, as
      judged before the AddScore is applied. */
  lemma GemBreakScoresAndMayWin(v: LevelView)
    ensures var w := ApplyAll(v, GemRule.OnBroken(v));
      && w.score == v.score + 1 && w.maxScore == v.maxScore
      && w.matrix == v.matrix && w.player == v.player
      && (v.state.None? ==> (w.state == Some(Win) <==> w.score == w.maxScore))
      && (v.state.Some? ==> w.state == v.state)
  {
    var rs := GemRule.OnBroken(v);
    var scored := Apply(v, AddScore);
    assert rs[1..] == [] ==> ApplyAll(v, rs) == scored;
    if |rs| == 2 {
      var tail := rs[1..];
      assert tail[0] == UpdateState(Win) && tail[1..] == [];
      assert ApplyAll(scored, tail) == Apply(scored, UpdateState(Win));
      assert ApplyAll(v, rs) == ApplyAll(scored, tail);
    }
  }

  /** A kind's init requests only raise the win total, one for a gem. */
  lemma InitEffect(v: LevelView, o: Object)
    ensures ApplyAll(v, Init(o)) == v.(maxScore := v.maxScore + if o == Gem then 1 else 0)
  {
    if o == Gem {
      assert Init(o) == [AddMaxScore];
    } else {
      assert Init(o) == [];
    }
  }

  // ---------------------------------------------------------------------------
  // The tick (Level::tick)
  // ---------------------------------------------------------------------------

  /** The player phase: the requests of the object on the player's cell, applied at once. */
  function PlayerPhase(v: LevelView, d: Option<Direction>, pt: PlayerTick): (w: LevelView)
    requires Bounded(v.matrix) && InBounds(v.player, v.matrix) && PlayerTickInBounds(pt)
    ensures SameShape(w.matrix, v.matrix)
  {
    var o := At(v.matrix, v.player);
    ApplyAll(v, Tick(o, v, v.player, d, pt))
  }

  /** The gravity pass over row y from column x to the end of the row: each movable
      object's requests are applied before the next cell is read. None when a rock's
      reads leave the grid (a panic in the source). */
  function RowPass(v: LevelView, y: nat, x: nat, pt: PlayerTick): (r: Option<LevelView>)
    requires Bounded(v.matrix) && y < |v.matrix| && x <= |v.matrix[y]| && PlayerTickInBounds(pt)
    ensures r.Some? ==> SameShape(r.value.matrix, v.matrix)
    decreases |v.matrix[y]| - x
  {
    if x == |v.matrix[y]| then Some(v)
    else
      var o := v.matrix[y][x];
      if !o.CanBeMoved() then RowPass(v, y, x + 1, pt)
      else if !TickDefined(o, v, (x, y)) then None
      else RowPass(ApplyAll(v, Tick(o, v, (x, y), None, pt)), y, x + 1, pt)
  }

  /** The gravity pass over rows y - 1 down to 0, bottom to top. */
  function Pass(v: LevelView, y: nat, pt: PlayerTick): (r: Option<LevelView>)
    requires Bounded(v.matrix) && y <= |v.matrix| && PlayerTickInBounds(pt)
    ensures r.Some? ==> SameShape(r.value.matrix, v.matrix)
    decreases y
  {
    if y == 0 then Some(v)
    else
      match RowPass(v, y - 1, 0, pt)
      case None => None
      case Some(w) => Pass(w, y - 1, pt)
  }

  /** Level::tick: the player phase, then the gravity pass over every row. */
  function TickSpec(v: LevelView, d: Option<Direction>, pt: PlayerTick): (r: Option<LevelView>)
    requires Bounded(v.matrix) && InBounds(v.player, v.matrix) && PlayerTickInBounds(pt)
    ensures r.Some? ==> SameShape(r.value.matrix, v.matrix)
  {
    var w := PlayerPhase(v, d, pt);
    Pass(w, |w.matrix|, pt)
  }

  /** A rock's requests leave the counters and the state alone, and write to no row
      but its own and the one below. */
  lemma RockStepEffect(v: LevelView, p: Point)
    requires Bounded(v.matrix) && InBounds(p, v.matrix) && RockRule.Defined(v, p)
    ensures var w := ApplyAll(v, RockRule.Tick(v, p));
      && w.score == v.score && w.maxScore == v.maxScore && w.state == v.state
      && forall r :: 0 <= r < |v.matrix| && r != p.1 && r != p.1 + 1 ==> w.matrix[r] == v.matrix[r]
  {
    var rs := RockRule.Tick(v, p);
    if rs != [] {
      var u := Apply(v, rs[0]);
      assert rs[1..] == [];
      assert ApplyAll(v, rs) == u;
      var m1 := Set(v.matrix, rs[0].from, GetPlaceholder());
      assert forall r :: 0 <= r < |v.matrix| && r != p.1 ==> m1[r] == v.matrix[r];
    }
  }

  /** The pass over row y from column x only moves objects: the counters and the state
      stay, and only rows y and y + 1 change, so the rows above are still as they were
      when their turn comes. */
  lemma {:induction false} RowPassEffect(v: LevelView, y: nat, x: nat, pt: PlayerTick)
    requires Bounded(v.matrix) && y < |v.matrix| && x <= |v.matrix[y]| && PlayerTickInBounds(pt)
    requires RowPass(v, y, x, pt).Some?
    ensures var w := RowPass(v, y, x, pt).value;
      && w.score == v.score && w.maxScore == v.maxScore && w.state == v.state
      && forall r :: 0 <= r < |v.matrix| && r != y && r != y + 1 ==> w.matrix[r] == v.matrix[r]
    decreases |v.matrix[y]| - x
  {
    if x < |v.matrix[y]| {
      var o := v.matrix[y][x];
      if !o.CanBeMoved() {
        RowPassEffect(v, y, x + 1, pt);
      } else {
        assert o == Rock;
        var u := ApplyAll(v, Tick(o, v, (x, y), None, pt));
        RockStepEffect(v, (x, y));
        RowPassEffect(u, y, x + 1, pt);
      }
    }
  }

  /** The pass over rows y - 1 .. 0 keeps the counters and the state, and never writes
      below row y: an object moves down into a row whose turn is over, so it is not
      visited again in the same tick. */
  lemma {:induction false} PassEffect(v: LevelView, y: nat, pt: PlayerTick)
    requires Bounded(v.matrix) && y <= |v.matrix| && PlayerTickInBounds(pt)
    requires Pass(v, y, pt).Some?
    ensures var w := Pass(v, y, pt).value;
      && w.score == v.score && w.maxScore == v.maxScore && w.state == v.state
      && forall r :: y < r < |v.matrix| ==> w.matrix[r] == v.matrix[r]
    decreases y
  {
    if y > 0 {
      RowPassEffect(v, y - 1, 0, pt);
      var w := RowPass(v, y - 1, 0, pt).value;
      PassEffect(w, y - 1, pt);
    }
  }

  /** A tick changes the counters and the state only through the player's requests, and
      once a level is won or lost it stays so. */
  lemma TickEffect(v: LevelView, d: Option<Direction>, pt: PlayerTick)
    requires Bounded(v.matrix) && InBounds(v.player, v.matrix) && PlayerTickInBounds(pt)
    requires TickSpec(v, d, pt).Some?
    ensures var u := PlayerPhase(v, d, pt); var w := TickSpec(v, d, pt).value;
      && w.score == u.score && w.maxScore == u.maxScore && w.state == u.state
      && SameShape(w.matrix, v.matrix)
      && (v.state.Some? ==> w.state == v.state)
  {
    var u := PlayerPhase(v, d, pt);
    PassEffect(u, |u.matrix|, pt);
    StateWriteOnce(v, Tick(At(v.matrix, v.player), v, v.player, d, pt));
  }

  /** Continue the pass with rows y - 1 .. 0 after a row has been finished. */
  function ThenPass(r: Option<LevelView>, y: nat, pt: PlayerTick): Option<LevelView>
    requires r.Some? ==> Bounded(r.value.matrix) && y <= |r.value.matrix|
    requires PlayerTickInBounds(pt)
  {
    match r
    case None => None
    case Some(w) => Pass(w, y, pt)
  }

  // ---------------------------------------------------------------------------
  // Parsing (Level::parse)
  // ---------------------------------------------------------------------------

  predicate RowMatches(row: seq<Object>, line: string)
  {
    |row| == |line| && forall x :: 0 <= x < |row| ==> ParseChar(line[x]) == Some(row[x])
  }

  /** One row per line and, in each, one cell per character, parsed by the table. */
  predicate GridMatches(m: Grid, lines: seq<string>)
  {
    |m| == |lines| && forall y :: 0 <= y < |m| ==> RowMatches(m[y], lines[y])
  }

  /** (x, y) is the first character of lines, in scan order, that does not parse. */
  predicate FirstBad(lines: seq<string>, y: int, x: int)
  {
    && 0 <= y < |lines| && 0 <= x < |lines[y]| && ParseChar(lines[y][x]).None?
    && (forall y', x' :: 0 <= y' < y && 0 <= x' < |lines[y']| ==> ParseChar(lines[y'][x']).Some?)
    && (forall x' :: 0 <= x' < x ==> ParseChar(lines[y][x']).Some?)
  }

  function RowGems(row: seq<Object>): nat
  {
    if row == [] then 0 else RowGems(row[..|row| - 1]) + if row[|row| - 1] == Gem then 1 else 0
  }

  /** The number of gem cells. */
  function GemCount(m: Grid): nat
  {
    if m == [] then 0 else GemCount(m[..|m| - 1]) + RowGems(m[|m| - 1])
  }

  /** The points (0, y) .. (n - 1, y). */
  function RowPoints(y: Usize, n: nat): (r: seq<Point>)
    requires n <= USIZE_MAX + 1
    ensures |r| == n && forall x :: 0 <= x < n ==> r[x] == (x, y)
  {
    seq(n, x requires 0 <= x < n => (x, y))
  }

  /** Every cell of the grid, row by row and left to right. */
  function RowMajor(m: Grid): seq<Point>
    requires Bounded(m)
  {
    if m == [] then [] else RowMajor(m[..|m| - 1]) + RowPoints(|m| - 1, |m[|m| - 1]|)
  }

  /** The last player cell of row y, or p when the row has none. */
  function ScanRow(row: seq<Object>, y: Usize, p: Point): Point
    requires |row| <= USIZE_MAX
  {
    if row == [] then p
    else if row[|row| - 1].IsPlayer() then (|row| - 1, y)
    else ScanRow(row[..|row| - 1], y, p)
  }

  /** The last player cell in scan order, or Level::default's (0, 0) when there is none. */
  function LastPlayer(m: Grid): Point
    requires Bounded(m)
  {
    if m == [] then (0, 0) else ScanRow(m[|m| - 1], |m| - 1, LastPlayer(m[..|m| - 1]))
  }

  lemma RowSnoc(row: seq<Object>, o: Object, y: Usize, p: Point)
    requires |row| + 1 <= USIZE_MAX
    ensures RowGems(row + [o]) == RowGems(row) + if o == Gem then 1 else 0
    ensures ScanRow(row + [o], y, p) == if o.IsPlayer() then (|row|, y) else ScanRow(row, y, p)
  {
    assert (row + [o])[..|row|] == row;
  }

  lemma BoundedPrefix(m: Grid, row: seq<Object>)
    requires Bounded(m + [row])
    ensures Bounded(m) && |row| <= USIZE_MAX && |m| < USIZE_MAX
  {
    var m' := m + [row];
    assert m'[|m|] == row;
    forall y | 0 <= y < |m| ensures |m[y]| <= USIZE_MAX {
      assert m[y] == m'[y];
    }
  }

  lemma GemCountSnoc(m: Grid, row: seq<Object>)
    ensures GemCount(m + [row]) == GemCount(m) + RowGems(row)
  {
    assert (m + [row])[..|m|] == m;
  }

  lemma RowMajorSnoc(m: Grid, row: seq<Object>)
    requires Bounded(m + [row]) && Bounded(m) && |row| <= USIZE_MAX
    ensures RowMajor(m + [row]) == RowMajor(m) + RowPoints(|m|, |row|)
  {
    BoundedPrefix(m, row);
    assert (m + [row])[..|m|] == m;
  }

  lemma LastPlayerSnoc(m: Grid, row: seq<Object>)
    requires Bounded(m + [row]) && Bounded(m)
    ensures LastPlayer(m + [row]) == ScanRow(row, |m|, LastPlayer(m))
  {
    BoundedPrefix(m, row);
    assert (m + [row])[..|m|] == m;
  }

  /** The parser stops at the first character that does not parse. */
  lemma FirstBadHere(lines: seq<string>, m: Grid, y: nat, x: nat)
    requires y < |lines| && x < |lines[y]| && ParseChar(lines[y][x]).None?
    requires GridMatches(m, lines[..y])
    requires forall x' :: 0 <= x' < x ==> ParseChar(lines[y][x']).Some?
    ensures FirstBad(lines, y, x)
    ensures exists y', x' :: 0 <= y' < |lines| && 0 <= x' < |lines[y']| && ParseChar(lines[y'][x']).None?
  {
    forall y', x' | 0 <= y' < y && 0 <= x' < |lines[y']|
      ensures ParseChar(lines[y'][x']).Some?
    {
      assert RowMatches(m[y'], lines[..y][y']);
    }
  }

  lemma GridMatchesSnoc(m: Grid, lines: seq<string>, y: nat, row: seq<Object>)
    requires y < |lines| && GridMatches(m, lines[..y]) && RowMatches(row, lines[y])
    ensures GridMatches(m + [row], lines[..y + 1])
  {
    assert lines[..y + 1] == lines[..y] + [lines[y]];
  }

  /** Appending row y, parsed from line y, keeps the parse's invariants. */
  lemma ParseRowStep(lines: seq<string>, y: nat, m: Grid, row: seq<Object>)
    requires y < |lines| <= USIZE_MAX && |lines[y]| <= USIZE_MAX
    requires Bounded(m) && GridMatches(m, lines[..y]) && RowMatches(row, lines[y])
    ensures Bounded(m + [row]) && GridMatches(m + [row], lines[..y + 1])
    ensures GemCount(m + [row]) == GemCount(m) + RowGems(row)
    ensures RowMajor(m + [row]) == RowMajor(m) + RowPoints(y, |row|)
    ensures LastPlayer(m + [row]) == ScanRow(row, y, LastPlayer(m))
  {
    assert Bounded(m + [row]) by {
      forall r | 0 <= r < |m + [row]| ensures |(m + [row])[r]| <= USIZE_MAX {
        if r < |m| {
          assert (m + [row])[r] == m[r];
        }
      }
    }
    GemCountSnoc(m, row);
    RowMajorSnoc(m, row);
    LastPlayerSnoc(m, row);
    GridMatchesSnoc(m, lines, y, row);
  }

  /** a comes strictly before b in scan order. */
  predicate ScanBefore(a: Point, b: Point)
  {
    a.1 < b.1 || (a.1 == b.1 && a.0 < b.0)
  }

  /** RowMajor lists every cell of the grid exactly in scan order: each entry is a cell,
      each cell is an entry, and the entries strictly increase (row, then column). */
  lemma {:induction false} RowMajorIsScanOrder(m: Grid)
    requires Bounded(m)
    ensures forall i :: 0 <= i < |RowMajor(m)| ==> InBounds(RowMajor(m)[i], m)
    ensures forall p :: InBounds(p, m) ==> p in RowMajor(m)
    ensures forall i, j :: 0 <= i < j < |RowMajor(m)| ==> ScanBefore(RowMajor(m)[i], RowMajor(m)[j])
  {
    if m != [] {
      var m' := m[..|m| - 1];
      var y := |m| - 1;
      var n := |m[y]|;
      assert Bounded(m') by {
        forall r | 0 <= r < |m'| ensures |m'[r]| <= USIZE_MAX { assert m'[r] == m[r]; }
      }
      RowMajorIsScanOrder(m');
      var a := RowMajor(m');
      var b := RowPoints(y, n);
      assert RowMajor(m) == a + b;
      forall i | 0 <= i < |a| ensures InBounds(a[i], m) && a[i].1 < y {
        assert m'[a[i].1] == m[a[i].1];
      }
      forall q: Point | InBounds(q, m) ensures q in RowMajor(m) {
        if q.1 == y {
          assert b[q.0] == q;
          assert (a + b)[|a| + q.0] == q;
        } else {
          assert m'[q.1] == m[q.1];
          assert InBounds(q, m');
          var i :| 0 <= i < |a| && a[i] == q;
          assert (a + b)[i] == q;
        }
      }
    }
  }

  /** ScanRow finds the last player cell of the row, and keeps p when there is none. */
  lemma {:induction false} ScanRowIsLast(row: seq<Object>, y: Usize, p: Point)
    requires |row| <= USIZE_MAX
    ensures var r := ScanRow(row, y, p);
      if exists x :: 0 <= x < |row| && row[x].IsPlayer() then
        && r.1 == y && r.0 < |row| && row[r.0].IsPlayer()
        && forall x :: r.0 < x < |row| ==> !row[x].IsPlayer()
      else r == p
  {
    if row != [] && !row[|row| - 1].IsPlayer() {
      var row' := row[..|row| - 1];
      ScanRowIsLast(row', y, p);
      if exists x :: 0 <= x < |row| && row[x].IsPlayer() {
        var x :| 0 <= x < |row| && row[x].IsPlayer();
        assert row'[x] == row[x];
      } else {
        forall x | 0 <= x < |row'| ensures !row'[x].IsPlayer() { assert row'[x] == row[x]; }
      }
    }
  }

  /** LastPlayer is the player cell that comes last in scan order, or (0, 0) when the
      grid holds no player. */
  lemma {:induction false} LastPlayerIsLast(m: Grid)
    requires Bounded(m)
    ensures var r := LastPlayer(m);
      if exists q :: InBounds(q, m) && At(m, q).IsPlayer() then
        && InBounds(r, m) && At(m, r).IsPlayer()
        && forall q :: InBounds(q, m) && At(m, q).IsPlayer() ==> q == r || ScanBefore(q, r)
      else r == (0, 0)
  {
    if m != [] {
      var m' := m[..|m| - 1];
      var y := |m| - 1;
      var row := m[y];
      assert Bounded(m') by {
        forall r | 0 <= r < |m'| ensures |m'[r]| <= USIZE_MAX { assert m'[r] == m[r]; }
      }
      LastPlayerIsLast(m');
      ScanRowIsLast(row, y, LastPlayer(m'));
      forall q: Point | InBounds(q, m') ensures InBounds(q, m) && At(m, q) == At(m', q) {
        assert m'[q.1] == m[q.1];
      }
      if exists x :: 0 <= x < |row| && row[x].IsPlayer() {
        var r := LastPlayer(m);
        forall q: Point | InBounds(q, m) && At(m, q).IsPlayer() ensures q == r || ScanBefore(q, r) {
          if q.1 < y {
            assert m'[q.1] == m[q.1];
          }
        }
      } else if exists q :: InBounds(q, m) && At(m, q).IsPlayer() {
        var q: Point :| InBounds(q, m) && At(m, q).IsPlayer();
        assert q.1 != y;
        assert m'[q.1] == m[q.1];
        assert InBounds(q, m') && At(m', q).IsPlayer();
        forall q: Point | InBounds(q, m) && At(m, q).IsPlayer() ensures InBounds(q, m') {
          assert q.1 != y;
        }
      } else {
        forall q: Point | InBounds(q, m') ensures !At(m', q).IsPlayer() {
          assert m'[q.1] == m[q.1];
        }
      }
    }
  }

  // ---------------------------------------------------------------------------
  // The level
  // ---------------------------------------------------------------------------

  class Level {
    var score: nat
    var maxScore: nat
    var state: Option<State>
    var player: Point
    var damaged: seq<Point>
    var matrix: Grid

    ghost predicate Valid()
      reads this
    {
      Bounded(matrix)
    }

    /** The level's fields as a value. */
    function View(): LevelView
      reads this
    {
      LevelView(score, maxScore, state, player, damaged, matrix)
    }

    /** Level::default. */
    constructor Default()
      ensures Valid() && View() == LevelView(0, 0, None, (0, 0), [], [])
    {
      score, maxScore, state, player, damaged, matrix := 0, 0, None, (0, 0), [], [];
    }

    /** Level::get_object. */
    function GetObject(p: Point): Object
      reads this
      requires InBounds(p, matrix)
    {
      At(matrix, p)
    }

    /** Level::get_damaged: hand over the damaged list and leave it empty. */
    method GetDamaged() returns (d: seq<Point>)
      modifies this
      ensures d == old(damaged)
      ensures View() == old(View()).(damaged := [])
    {
      d := damaged;
      damaged := [];
    }

    /** Level::move_obj. */
    method MoveObject(from: Point, to: Point)
      requires InBounds(from, matrix) && InBounds(to, matrix)
      modifies this
      ensures View() == old(View()).(matrix := Moved(old(matrix), from, to))
    {
      var obj := matrix[from.1][from.0];
      matrix := matrix[from.1 := matrix[from.1][from.0 := GetPlaceholder()]];
      matrix := matrix[to.1 := matrix[to.1][to.0 := obj]];
    }

    /** Level::handle_requests. */
    method HandleRequests(requests: seq<Request>)
      requires Valid() && RequestsInBounds(requests, matrix)
      modifies this
      ensures Valid() && View() == ApplyAll(old(View()), requests)
    {
      var i := 0;
      while i < |requests|
        invariant 0 <= i <= |requests|
        invariant Valid() && SameShape(matrix, old(matrix))
        invariant RequestsInBounds(requests[i..], matrix)
        invariant ApplyAll(View(), requests[i..]) == ApplyAll(old(View()), requests)
      {
        var request := requests[i];
        ghost var before := View();
        assert requests[i..][1..] == requests[i + 1..];
        match request {
          case UpdateState(s) =>
            if state.None? {
              state := Some(s);
            }
          case AddScore =>
            score := score + 1;
          case AddMaxScore =>
            maxScore := maxScore + 1;
          case MoveObj(from, to) =>
            if GetObject(from).IsPlayer() {
              player := to;
            }
            MoveObject(from, to);
            damaged := damaged + [from, to];
        }
        assert View() == Apply(before, request);
        SameShapeRequests(requests[i + 1..], before.matrix, matrix);
        i := i + 1;
      }
    }

    /** Level::tick, with the player's own rule supplied as pt. */
    method Tick(direction: Option<Direction>, pt: PlayerTick)
      requires Valid() && InBounds(player, matrix) && PlayerTickInBounds(pt)
      requires TickSpec(View(), direction, pt).Some?
      modifies this
      ensures Valid()
      ensures View() == TickSpec(old(View()), direction, pt).value
    {
      ghost var target := TickSpec(View(), direction, pt);
      var requests := Behaviours.Tick(GetObject(player), View(), player, direction, pt);
      HandleRequests(requests);
      var y: nat := |matrix|;
      while y > 0
        invariant y <= |matrix|
        invariant Valid()
        invariant Pass(View(), y, pt) == target
      {
        y := y - 1;
        var n := |matrix[y]|;
        var x := 0;
        while x < n
          invariant y < |matrix| && x <= n == |matrix[y]|
          invariant Valid()
          invariant ThenPass(RowPass(View(), y, x, pt), y, pt) == target
        {
          var o := GetObject((x, y));
          if o.CanBeMoved() {
            var rs := Behaviours.Tick(o, View(), (x, y), None, pt);
            HandleRequests(rs);
          }
          x := x + 1;
        }
      }
      assert Pass(View(), 0, pt) == Some(View());
    }

    /** The inner loop of Level::parse for line y: parse each character, run its init
        requests and record the cell as damaged. On failure, the index of the first
        character that does not parse. */
    method ParseLine(line: string, y: Usize) returns (r: Result<seq<Object>, nat>)
      requires Valid() && |line| <= USIZE_MAX
      modifies this
      ensures Valid() && matrix == old(matrix)
      ensures r.Err? ==> (r.error < |line| && ParseChar(line[r.error]).None?
        && forall x :: 0 <= x < r.error ==> ParseChar(line[x]).Some?)
      ensures r.Ok? ==> (&& RowMatches(r.value, line)
        && score == old(score) && state == old(state)
        && maxScore == old(maxScore) + RowGems(r.value)
        && damaged == old(damaged) + RowPoints(y, |line|)
        && player == ScanRow(r.value, y, old(player)))
    {
      var row: seq<Object> := [];
      var x := 0;
      while x < |line|
        invariant 0 <= x <= |line|
        invariant Valid() && matrix == old(matrix)
        invariant RowMatches(row, line[..x])
        invariant score == old(score) && state == old(state)
        invariant maxScore == old(maxScore) + RowGems(row)
        invariant damaged == old(damaged) + RowPoints(y, x)
        invariant player == ScanRow(row, y, old(player))
      {
        var c := line[x];
        var parsed := ParseChar(c);
        if parsed.None? {
          forall x' | 0 <= x' < x ensures ParseChar(line[x']).Some? {
            assert line[..x][x'] == line[x'];
          }
          return Err(x);
        }
        var obj := parsed.value;
        ghost var before := View();
        HandleRequests(Init(obj));
        InitEffect(before, obj);
        if obj.IsPlayer() {
          player := (x, y);
        }
        damaged := damaged + [(x, y)];
        RowSnoc(row, obj, y, old(player));
        assert RowPoints(y, x + 1) == RowPoints(y, x) + [(x, y)];
        row := row + [obj];
        assert line[..x + 1] == line[..x] + [c];
        x := x + 1;
      }
      assert line[..x] == line;
      return Ok(row);
    }

    /** Level::parse. */
    static method Parse(text: string) returns (r: Result<Level, string>)
      requires |text| <= USIZE_MAX
      ensures var lines := Lines(text);
        r.Err? <==> exists y, x :: 0 <= y < |lines| && 0 <= x < |lines[y]| && ParseChar(lines[y][x]).None?
      ensures r.Err? ==> exists y, x :: FirstBad(Lines(text), y, x) && r.error == ParseErrorMessage(Lines(text)[y][x])
      ensures r.Ok? ==> fresh(r.value) && r.value.Valid()
      ensures r.Ok? ==> var l := r.value;
        && GridMatches(l.matrix, Lines(text))
        && l.score == 0 && l.state == None
        && l.maxScore == GemCount(l.matrix)
        && l.damaged == RowMajor(l.matrix)
        && l.player == LastPlayer(l.matrix)
    {
      var lines := Lines(text);
      var level := new Level.Default();
      var y := 0;
      while y < |lines|
        invariant 0 <= y <= |lines|
        invariant fresh(level) && level.Valid()
        invariant GridMatches(level.matrix, lines[..y])
        invariant level.score == 0 && level.state == None
        invariant level.maxScore == GemCount(level.matrix)
        invariant level.damaged == RowMajor(level.matrix)
        invariant level.player == LastPlayer(level.matrix)
      {
        var line := lines[y];
        var m := level.matrix;
        var parsed := level.ParseLine(line, y);
        if parsed.Err? {
          FirstBadHere(lines, m, y, parsed.error);
          assert ParseChar(Lines(text)[y][parsed.error]).None?;
          return Err(ParseErrorMessage(line[parsed.error]));
        }
        var row := parsed.value;
        ParseRowStep(lines, y, m, row);
        level.matrix := m + [row];
        y := y + 1;
      }
      assert lines[..y] == lines;
      return Ok(level);
    }
  }
}
