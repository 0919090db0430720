/**
 * The level editor (src/editor.rs): a cursor over a grid of objects, a pen that
 * paints the selected palette entry, the set of cells to redraw, and the text
 * format levels are saved in and reloaded from.
 */
module Editing {
  import opened Wrappers
  import opened Directions
  import opened Objects
  import opened Requests
  import opened Text
  import Inputs

  /** The editor's fields, as a value (the file name is left out). */
  datatype EditorView = EditorView(
    penDown: bool,
    currentObject: nat,
    cursor: Point,
    damaged: set<Point>,
    matrix: Grid)

  /** How one input of Editor::run ends: the loop goes on, the editor quits after
      writing contents to its file, or run returns an error. */
  datatype StepResult = Continue | Quit(contents: string) | Failed(message: string)

  datatype Outcome = Outcome(view: EditorView, result: StepResult)

  // ---------------------------------------------------------------------------
  // Palette selection (Input::Period and Input::Comma)
  // ---------------------------------------------------------------------------

  /** The next palette entry, wrapping past the last to the first. */
  function NextObject(c: nat): (r: nat)
    requires c < |AllObjects()|
    ensures r < |AllObjects()| && r == (c + 1) % |AllObjects()|
  {
    if c + 1 >= |AllObjects()| then 0 else c + 1
  }

  /** The previous palette entry, wrapping before the first to the last. */
  function PrevObject(c: nat): (r: nat)
    requires c < |AllObjects()|
    ensures r < |AllObjects()| && r == (c + |AllObjects()| - 1) % |AllObjects()|
  {
    var c' := if c == 0 then |AllObjects()| else c;
    c' - 1
  }

  /** Stepping forward and back through the palette undo each other. */
  lemma SelectionInverse(c: nat)
    requires c < |AllObjects()|
    ensures PrevObject(NextObject(c)) == c && NextObject(PrevObject(c)) == c
  {
  }

  // ---------------------------------------------------------------------------
  // Saving (Editor::save)
  // ---------------------------------------------------------------------------

  /** The glyphs of a row, left to right. */
  function GlyphRow(row: seq<Object>, u: char): (r: string)
    ensures |r| == |row| && forall i :: 0 <= i < |r| ==> r[i] == Glyph(row[i], u)
  {
    if row == [] then [] else GlyphRow(row[..|row| - 1], u) + [Glyph(row[|row| - 1], u)]
  }

  /** The saved text: each row's glyphs followed by "\n", rows in order. */
  function Serialised(m: Grid, u: char): string
  {
    if m == [] then [] else Serialised(m[..|m| - 1], u) + GlyphRow(m[|m| - 1], u) + ['\n']
  }

  lemma GlyphRowSnoc(row: seq<Object>, o: Object, u: char)
    ensures GlyphRow(row + [o], u) == GlyphRow(row, u) + [Glyph(o, u)]
  {
    assert (row + [o])[..|row|] == row;
  }

  lemma SerialisedSnoc(m: Grid, row: seq<Object>, u: char)
    ensures Serialised(m + [row], u) == Serialised(m, u) + GlyphRow(row, u) + ['\n']
  {
    assert (m + [row])[..|m|] == m;
  }

  /** Saving two grids one after the other gives the text of each, in order. */
  lemma {:induction false} SerialisedAppend(a: Grid, b: Grid, u: char)
    ensures Serialised(a + b, u) == Serialised(a, u) + Serialised(b, u)
    decreases |b|
  {
    if b == [] {
      assert a + b == a;
    } else {
      var init := b[..|b| - 1];
      var row := b[|b| - 1];
      assert b == init + [row];
      assert a + b == (a + init) + [row];
      SerialisedSnoc(a + init, row, u);
      SerialisedSnoc(init, row, u);
      SerialisedAppend(a, init, u);
    }
  }

  /** Read from the front, the saved text is the first row's line and the rest. */
  lemma SerialisedCons(m: Grid, u: char)
    requires m != []
    ensures Serialised(m, u) == GlyphRow(m[0], u) + ['\n'] + Serialised(m[1..], u)
  {
    assert m == [m[0]] + m[1..];
    assert [m[0]] == [] + [m[0]];
    SerialisedSnoc([], m[0], u);
    SerialisedAppend([m[0]], m[1..], u);
  }

  // ---------------------------------------------------------------------------
  // Reloading (Editor::reload)
  // ---------------------------------------------------------------------------

  /** A line's characters, each mapped by Object::new. */
  function RowOf(line: string): (row: seq<Object>)
    ensures |row| == |line| && forall x :: 0 <= x < |row| ==> row[x] == New(line[x])
  {
    if line == [] then [] else RowOf(line[..|line| - 1]) + [New(line[|line| - 1])]
  }

  /** One row per line. */
  function RowsOf(lines: seq<string>): (m: Grid)
    ensures |m| == |lines| && forall y :: 0 <= y < |m| ==> m[y] == RowOf(lines[y])
  {
    if lines == [] then [] else RowsOf(lines[..|lines| - 1]) + [RowOf(lines[|lines| - 1])]
  }

  /** Every index of every line fits a usize. */
  predicate LinesBounded(lines: seq<string>)
  {
    |lines| <= USIZE_MAX && forall y :: 0 <= y < |lines| ==> |lines[y]| <= USIZE_MAX
  }

  /** The points (from, y) .. (to - 1, y). */
  function SpanCells(y: Usize, from: nat, to: nat): (r: set<Point>)
    requires to <= USIZE_MAX + 1
    ensures forall p: Point :: p in r <==> p.1 == y && from <= p.0 < to
  {
    set x: nat | from <= x < to :: (x, y)
  }

  lemma SpanCellsSnoc(y: Usize, from: nat, to: nat)
    requires from <= to <= USIZE_MAX
    ensures SpanCells(y, from, to + 1) == SpanCells(y, from, to) + {(to, y)}
  {
  }

  /** The cells of the rows reload builds, marked damaged one line at a time. */
  function CellsOf(lines: seq<string>): set<Point>
    requires LinesBounded(lines)
  {
    if lines == [] then {}
    else CellsOf(lines[..|lines| - 1]) + SpanCells(|lines| - 1, 0, |lines[|lines| - 1]|)
  }

  /** Taking one more line keeps the bound and adds that line's row and cells. */
  lemma ReloadSnoc(lines: seq<string>, y: nat)
    requires LinesBounded(lines) && y < |lines|
    ensures LinesBounded(lines[..y]) && LinesBounded(lines[..y + 1])
    ensures RowsOf(lines[..y + 1]) == RowsOf(lines[..y]) + [RowOf(lines[y])]
    ensures CellsOf(lines[..y + 1]) == CellsOf(lines[..y]) + SpanCells(y, 0, |lines[y]|)
  {
    var l := lines[..y + 1];
    assert l[..y] == lines[..y];
    assert l[y] == lines[y];
    forall k | 0 <= k < y + 1 ensures |l[k]| <= USIZE_MAX { assert l[k] == lines[k]; }
    forall k | 0 <= k < y ensures |lines[..y][k]| <= USIZE_MAX { assert lines[..y][k] == lines[k]; }
  }

  /** What reload does with the file's contents: the grid is emptied first; on a read
      error that is all, otherwise one row per line and every cell marked damaged. */
  function Reloaded(e: EditorView, read: Result<string, string>): (o: Outcome)
    requires read.Ok? ==> |read.value| <= USIZE_MAX
  {
    match read
    case Err(msg) => Outcome(e.(matrix := []), Failed(msg))
    case Ok(text) =>
      var lines := Lines(text);
      Outcome(e.(matrix := RowsOf(lines), damaged := e.damaged + CellsOf(lines)), Continue)
  }

  /** The cells reload marks are exactly the cells of the rows it builds. */
  lemma {:induction false} CellsOfIsGrid(lines: seq<string>)
    requires LinesBounded(lines)
    ensures forall p: Point :: p in CellsOf(lines) <==> InBounds(p, RowsOf(lines))
  {
    if lines != [] {
      var init := lines[..|lines| - 1];
      assert LinesBounded(init) by {
        forall y | 0 <= y < |init| ensures |init[y]| <= USIZE_MAX { assert init[y] == lines[y]; }
      }
      CellsOfIsGrid(init);
      forall p: Point ensures p in CellsOf(lines) <==> InBounds(p, RowsOf(lines)) {
        if p.1 < |init| {
          assert init[p.1] == lines[p.1];
        }
      }
    }
  }

  /** A reload replaces the grid by the file's lines and marks just their cells; a read
      error leaves an empty grid and is reported. */
  lemma ReloadEffect(e: EditorView, read: Result<string, string>)
    requires read.Ok? ==> |read.value| <= USIZE_MAX
    ensures var o := Reloaded(e, read);
      && o.view.penDown == e.penDown && o.view.currentObject == e.currentObject
      && o.view.cursor == e.cursor
      && (read.Err? ==> o.view.matrix == [] && o.view.damaged == e.damaged && o.result == Failed(read.error))
      && (read.Ok? ==>
            && o.result == Continue
            && o.view.matrix == RowsOf(Lines(read.value))
            && forall p: Point :: p in o.view.damaged <==> p in e.damaged || InBounds(p, o.view.matrix))
  {
    if read.Ok? {
      CellsOfIsGrid(Lines(read.value));
    }
  }

  /** A row's glyphs map back to the row, the Unknown glyph being one Object::new does
      not recognise. */
  lemma RowOfGlyphRow(row: seq<Object>, u: char)
    requires New(u) == Unknown
    ensures RowOf(GlyphRow(row, u)) == row
  {
    var line := GlyphRow(row, u);
    forall i | 0 <= i < |line| ensures RowOf(line)[i] == row[i] {
      GlyphRoundTrip(row[i], line[i], u);
    }
  }

  /** No glyph is a line break. */
  lemma GlyphRowHasNoBreak(row: seq<Object>, u: char)
    requires u != '\n' && u != '\r'
    ensures '\n' !in GlyphRow(row, u)
    ensures GlyphRow(row, u) == [] || GlyphRow(row, u)[|row| - 1] != '\r'
  {
    var line := GlyphRow(row, u);
    forall i | 0 <= i < |line| ensures line[i] != '\n' && line[i] != '\r' {
      assert line[i] == Glyph(row[i], u);
    }
  }

  lemma RowsOfCons(line: string, lines: seq<string>)
    ensures RowsOf([line] + lines) == [RowOf(line)] + RowsOf(lines)
  {
    var l := [line] + lines;
    forall y | 0 <= y < |l| ensures RowsOf(l)[y] == ([RowOf(line)] + RowsOf(lines))[y] {
      if y > 0 {
        assert l[y] == lines[y - 1];
      }
    }
  }

  /** A saved grid reloads as the same grid, provided the glyph written for Unknown is
      neither a line break nor one of the known kinds' glyphs. */
  lemma {:induction false} SaveReloadRoundTrip(m: Grid, u: char)
    requires New(u) == Unknown && u != '\n' && u != '\r'
    ensures RowsOf(Lines(Serialised(m, u))) == m
    decreases |m|
  {
    if m != [] {
      var line := GlyphRow(m[0], u);
      var rest := Serialised(m[1..], u);
      SerialisedCons(m, u);
      GlyphRowHasNoBreak(m[0], u);
      LinesCons(line, rest);
      SaveReloadRoundTrip(m[1..], u);
      RowsOfCons(line, Lines(rest));
      RowOfGlyphRow(m[0], u);
      assert [m[0]] + m[1..] == m;
    }
  }

  // ---------------------------------------------------------------------------
  // Reload as written marks bytes, not characters
  // ---------------------------------------------------------------------------

  /** The cells reload marks as written: x ranges over the line's byte length. */
  function ByteCellsOf(lines: seq<string>): set<Point>
    requires |lines| <= USIZE_MAX && forall y :: 0 <= y < |lines| ==> Utf8Len(lines[y]) <= USIZE_MAX
  {
    if lines == [] then {}
    else ByteCellsOf(lines[..|lines| - 1]) + SpanCells(|lines| - 1, 0, Utf8Len(lines[|lines| - 1]))
  }

  /** A file holding the single character 'é' (two bytes in UTF-8) reloads as one cell,
      yet the byte count marks (1, 0) as well, a point outside the grid that a redraw
      then looks up. */
  lemma ByteCellsOutsideGrid()
    ensures var lines := Lines("é");
      && lines == ["é"]
      && (1, 0) in ByteCellsOf(lines)
      && !InBounds((1, 0), RowsOf(lines))
  {
    var lines := Lines("é");
    assert IndexOf("é", '\n') == 1;
    assert Utf8Len("é") == 2 by {
      assert "é"[1..] == [];
    }
    assert ByteCellsOf(lines) == ByteCellsOf([]) + SpanCells(0, 0, 2);
  }

  // ---------------------------------------------------------------------------
  // Padding and painting (the end of each input in Editor::run)
  // ---------------------------------------------------------------------------

  /** The grid with empty rows pushed until it has n rows. */
  function PadRows(m: Grid, n: nat): (r: Grid)
    ensures |r| == if |m| < n then n else |m|
    ensures forall y :: 0 <= y < |m| ==> r[y] == m[y]
    ensures forall y :: |m| <= y < |r| ==> r[y] == []
    decreases n - |m|
  {
    if |m| >= n then m else PadRows(m + [[]], n)
  }

  /** The row with Void pushed until it has n cells. */
  function PadRow(row: seq<Object>, n: nat): (r: seq<Object>)
    ensures |r| == if |row| < n then n else |row|
    ensures forall x :: 0 <= x < |row| ==> r[x] == row[x]
    ensures forall x :: |row| <= x < |r| ==> r[x] == GetVoid()
    decreases n - |row|
  {
    if |row| >= n then row else PadRow(row + [GetVoid()], n)
  }

  /** The two padding loops: enough rows to reach the cursor's row, and enough cells in
      that row to reach the cursor, each new cell marked damaged. */
  function Padded(e: EditorView): (w: EditorView)
  {
    var (x, y) := e.cursor;
    var m := PadRows(e.matrix, y + 1);
    var row := m[y];
    e.(matrix := m[y := PadRow(row, x + 1)], damaged := e.damaged + SpanCells(y, |row|, x + 1))
  }

  /** With the pen down, the cursor's cell takes the selected object and is marked. */
  function Painted(e: EditorView): (w: EditorView)
    requires e.currentObject < |AllObjects()| && InBounds(e.cursor, e.matrix)
  {
    if e.penDown then
      e.(matrix := Set(e.matrix, e.cursor, AllObjects()[e.currentObject]),
         damaged := e.damaged + {e.cursor})
    else e
  }

  /** Padding, then painting. */
  function Settled(e: EditorView): (w: EditorView)
    requires e.currentObject < |AllObjects()|
  {
    var p := Padded(e);
    assert InBounds(e.cursor, p.matrix);
    Painted(p)
  }

  /** After padding and painting the cursor lies in the grid; the grid grows only as far
      as the cursor and only with Void; no cell that was there changes except the
      painted one; damaged gains exactly the new cells and, with the pen down, the
      cursor; and the painted cell holds the selected object. */
  lemma SettledEffect(e: EditorView)
    requires e.currentObject < |AllObjects()|
    ensures var w := Settled(e); var (x, y) := e.cursor;
      && w.penDown == e.penDown && w.currentObject == e.currentObject && w.cursor == e.cursor
      && InBounds(e.cursor, w.matrix)
      && |w.matrix| == (if |e.matrix| <= y then y + 1 else |e.matrix|)
      && (forall r :: 0 <= r < |w.matrix| && r != y ==>
            w.matrix[r] == if r < |e.matrix| then e.matrix[r] else [])
      && (forall p: Point :: InBounds(p, e.matrix) && p != e.cursor ==>
            InBounds(p, w.matrix) && At(w.matrix, p) == At(e.matrix, p))
      && (forall p: Point :: InBounds(p, w.matrix) && !InBounds(p, e.matrix) && p != e.cursor ==>
            At(w.matrix, p) == GetVoid())
      && (forall p: Point :: p in w.damaged <==>
            || p in e.damaged
            || (InBounds(p, w.matrix) && !InBounds(p, e.matrix))
            || (e.penDown && p == e.cursor))
      && (e.penDown ==> At(w.matrix, e.cursor) == AllObjects()[e.currentObject])
      && (!e.penDown ==>
            At(w.matrix, e.cursor) == if InBounds(e.cursor, e.matrix) then At(e.matrix, e.cursor) else GetVoid())
  {
    var (x, y) := e.cursor;
    var m := PadRows(e.matrix, y + 1);
    var p := Padded(e);
    forall q: Point | InBounds(q, e.matrix) ensures InBounds(q, p.matrix) && At(p.matrix, q) == At(e.matrix, q) {
      if q.1 == y {
        assert m[y] == e.matrix[y];
      }
    }
    forall q: Point ensures q in p.damaged <==> q in e.damaged || (InBounds(q, p.matrix) && !InBounds(q, e.matrix)) {
      if q.1 == y && y < |e.matrix| {
        assert m[y] == e.matrix[y];
      }
    }
  }

  // ---------------------------------------------------------------------------
  // One input of Editor::run
  // ---------------------------------------------------------------------------

  /** The body of Editor::run's loop for one input. read is what reading the level file
      gives (its contents or the error's message), consulted only by R; u is the glyph
      Unknown is saved as. Q quits with the saved text; Unknown is ignored; every other
      input makes its own change, then pads the grid to the cursor and paints. */
  function StepOutcome(e: EditorView, input: Inputs.Input, read: Result<string, string>, u: char): (o: Outcome)
    requires e.currentObject < |AllObjects()|
    requires input == Inputs.R && read.Ok? ==> |read.value| <= USIZE_MAX
  {
    match input
    case Q => Outcome(e, Quit(Serialised(e.matrix, u)))
    case Unknown => Outcome(e, Continue)
    case R =>
      var r := Reloaded(e, read);
      if r.result.Failed? then r else Outcome(Settled(r.view), Continue)
    case Space => Outcome(Settled(e.(penDown := !e.penDown)), Continue)
    case Esc => Outcome(Settled(e.(penDown := !e.penDown)), Continue)
    case Period => Outcome(Settled(e.(currentObject := NextObject(e.currentObject))), Continue)
    case Comma => Outcome(Settled(e.(currentObject := PrevObject(e.currentObject))), Continue)
    case _ =>
      var d := FromInput(input);
      Outcome(Settled(if d.Some? then e.(cursor := ApplyTo(d.value, e.cursor)) else e), Continue)
  }

  /** Q saves and quits without changing anything; Unknown changes nothing and goes on. */
  lemma QuitAndIgnore(e: EditorView, read: Result<string, string>, u: char)
    requires e.currentObject < |AllObjects()|
    ensures StepOutcome(e, Inputs.Q, read, u) == Outcome(e, Quit(Serialised(e.matrix, u)))
    ensures StepOutcome(e, Inputs.Unknown, read, u) == Outcome(e, Continue)
  {
  }

  /** Space and Esc flip the pen and keep the selection and the cursor; the step then
      pads and paints like every other. */
  lemma PenToggle(e: EditorView, input: Inputs.Input, read: Result<string, string>, u: char)
    requires e.currentObject < |AllObjects()| && input in {Inputs.Space, Inputs.Esc}
    ensures var o := StepOutcome(e, input, read, u);
      && o.result == Continue
      && o.view.penDown == !e.penDown
      && o.view.currentObject == e.currentObject && o.view.cursor == e.cursor
      && o.view == Settled(e.(penDown := !e.penDown))
  {
    SettledEffect(e.(penDown := !e.penDown));
  }

  /** Period and Comma move the selection one place forward or back around the palette. */
  lemma SelectionStep(e: EditorView, read: Result<string, string>, u: char)
    requires e.currentObject < |AllObjects()|
    ensures var o := StepOutcome(e, Inputs.Period, read, u);
      o.view.currentObject == (e.currentObject + 1) % |AllObjects()|
      && o.view.penDown == e.penDown && o.view.cursor == e.cursor
    ensures var o := StepOutcome(e, Inputs.Comma, read, u);
      o.view.currentObject == (e.currentObject + |AllObjects()| - 1) % |AllObjects()|
      && o.view.penDown == e.penDown && o.view.cursor == e.cursor
  {
    SettledEffect(e.(currentObject := NextObject(e.currentObject)));
    SettledEffect(e.(currentObject := PrevObject(e.currentObject)));
  }

  /** An arrow moves the cursor one saturating step; W, A, S and D leave it in place. */
  lemma CursorStep(e: EditorView, input: Inputs.Input, read: Result<string, string>, u: char)
    requires e.currentObject < |AllObjects()|
    requires input in {Inputs.Up, Inputs.Down, Inputs.Left, Inputs.Right, Inputs.W, Inputs.A, Inputs.S, Inputs.D}
    ensures var o := StepOutcome(e, input, read, u);
      && o.result == Continue
      && o.view.penDown == e.penDown && o.view.currentObject == e.currentObject
      && o.view.cursor == (match FromInput(input) case Some(d) => ApplyTo(d, e.cursor) case None => e.cursor)
      && (input in {Inputs.W, Inputs.A, Inputs.S, Inputs.D} ==> o.view.cursor == e.cursor)
  {
    var d := FromInput(input);
    SettledEffect(if d.Some? then e.(cursor := ApplyTo(d.value, e.cursor)) else e);
  }

  /** R reloads, then pads and paints; a failed read ends the editor with an empty grid. */
  lemma ReloadStep(e: EditorView, read: Result<string, string>, u: char)
    requires e.currentObject < |AllObjects()|
    requires read.Ok? ==> |read.value| <= USIZE_MAX
    ensures var o := StepOutcome(e, Inputs.R, read, u);
      && (read.Err? ==> o == Outcome(e.(matrix := []), Failed(read.error)))
      && (read.Ok? ==> o.result == Continue && o.view == Settled(Reloaded(e, read).view))
  {
    ReloadEffect(e, read);
  }

  // ---------------------------------------------------------------------------
  // The editor
  // ---------------------------------------------------------------------------

  class Editor {
    var penDown: bool
    var currentObject: nat
    var cursor: Point
    var damaged: set<Point>
    var matrix: Grid

    /** The selection always names a palette entry. */
    ghost predicate Valid()
      reads this
    {
      currentObject < |AllObjects()|
    }

    function View(): EditorView
      reads this
    {
      EditorView(penDown, currentObject, cursor, damaged, matrix)
    }

    /** Editor::default: pen up, the first palette entry, the cursor at the origin,
        nothing damaged and no rows. */
    constructor Default()
      ensures Valid() && View() == EditorView(false, 0, (0, 0), {}, [])
    {
      penDown, currentObject, cursor, damaged, matrix := false, 0, (0, 0), {}, [];
    }

    /** Editor::new: a default editor with the level file reloaded into it, or the
        read error (the file name is left out). */
    static method New(read: Result<string, string>) returns (r: Result<Editor, string>)
      requires read.Ok? ==> |read.value| <= USIZE_MAX
      ensures r.Err? <==> read.Err?
      ensures r.Err? ==> r.error == read.error
      ensures r.Ok? ==> (&& fresh(r.value) && r.value.Valid()
                         && r.value.View() == Reloaded(EditorView(false, 0, (0, 0), {}, []), read).view)
    {
      var editor := new Editor.Default();
      var result := editor.Reload(read);
      if result.Failed? {
        return Err(result.message);
      }
      return Ok(editor);
    }

    /** Editor::get_damaged: hand over the damaged set and leave it empty. */
    method GetDamaged() returns (d: set<Point>)
      modifies this
      ensures d == old(damaged)
      ensures View() == old(View()).(damaged := {})
    {
      d := damaged;
      damaged := {};
    }

    /** The text Editor::save writes (the write itself is left out). */
    method Save(u: char) returns (contents: string)
      ensures contents == Serialised(matrix, u)
    {
      contents := [];
      var y := 0;
      while y < |matrix|
        invariant 0 <= y <= |matrix|
        invariant contents == Serialised(matrix[..y], u)
      {
        var row := matrix[y];
        var line: string := [];
        var x := 0;
        while x < |row|
          invariant 0 <= x <= |row|
          invariant line == GlyphRow(row[..x], u)
        {
          assert row[..x + 1] == row[..x] + [row[x]];
          GlyphRowSnoc(row[..x], row[x], u);
          line := line + [Glyph(row[x], u)];
          x := x + 1;
        }
        assert row[..x] == row;
        line := line + ['\n'];
        assert matrix[..y + 1] == matrix[..y] + [row];
        SerialisedSnoc(matrix[..y], row, u);
        contents := contents + line;
        y := y + 1;
      }
      assert matrix[..y] == matrix;
    }

    /** Editor::reload, given what reading the file gave. */
    method Reload(read: Result<string, string>) returns (result: StepResult)
      requires read.Ok? ==> |read.value| <= USIZE_MAX
      modifies this
      ensures Outcome(View(), result) == Reloaded(old(View()), read)
    {
      matrix := [];
      if read.Err? {
        return Failed(read.error);
      }
      var lines := Lines(read.value);
      assert LinesBounded(lines);
      assert lines[..0] == [];
      var y := 0;
      while y < |lines|
        invariant 0 <= y <= |lines|
        invariant LinesBounded(lines[..y])
        invariant matrix == RowsOf(lines[..y])
        invariant damaged == old(damaged) + CellsOf(lines[..y])
        invariant penDown == old(penDown) && currentObject == old(currentObject) && cursor == old(cursor)
      {
        var line := lines[y];
        ReloadSnoc(lines, y);
        matrix := matrix + [RowOf(line)];
        damaged := damaged + SpanCells(y, 0, |line|);
        y := y + 1;
      }
      assert lines[..y] == lines;
      return Continue;
    }

    /** The two padding loops of Editor::run. */
    method Pad()
      modifies this
      ensures View() == Padded(old(View()))
    {
      var (x, y) := cursor;
      while |matrix| < y + 1
        invariant PadRows(matrix, y + 1) == PadRows(old(matrix), y + 1)
        invariant View() == old(View()).(matrix := matrix)
        decreases y + 1 - |matrix|
      {
        matrix := matrix + [[]];
      }
      ghost var m := matrix;
      ghost var row := matrix[y];
      if |matrix[y]| < x + 1 {
        while |matrix[y]| < x + 1
          invariant |matrix| == |m| && y < |m| && matrix == m[y := matrix[y]]
          invariant |row| <= |matrix[y]| <= x + 1
          invariant PadRow(matrix[y], x + 1) == PadRow(row, x + 1)
          invariant View() == old(View()).(matrix := matrix,
                                          damaged := old(damaged) + SpanCells(y, |row|, |matrix[y]|))
          decreases x + 1 - |matrix[y]|
        {
          SpanCellsSnoc(y, |row|, |matrix[y]|);
          matrix := matrix[y := matrix[y] + [GetVoid()]];
          damaged := damaged + {(|matrix[y]| - 1, y)};
        }
      } else {
        assert SpanCells(y, |row|, x + 1) == {};
      }
    }

    /** What follows every input but Q and Unknown: the cursor moves when a direction
        was given, the grid is padded to the cursor, and the pen paints. */
    method Settle(direction: Option<Direction>)
      requires Valid()
      modifies this
      ensures Valid()
      ensures View() == Settled(if direction.Some? then old(View()).(cursor := ApplyTo(direction.value, old(cursor)))
                                else old(View()))
    {
      if direction.Some? {
        cursor := ApplyTo(direction.value, cursor);
      }
      Pad();
      if penDown {
        var (x, y) := cursor;
        matrix := matrix[y := matrix[y][x := AllObjects()[currentObject]]];
        damaged := damaged + {cursor};
      }
    }

    /** One input of Editor::run's loop. */
    method Step(input: Inputs.Input, read: Result<string, string>, u: char) returns (r: StepResult)
      requires Valid()
      requires input == Inputs.R && read.Ok? ==> |read.value| <= USIZE_MAX
      modifies this
      ensures Valid()
      ensures Outcome(View(), r) == StepOutcome(old(View()), input, read, u)
    {
      var direction: Option<Direction> := None;
      match input {
        case Q =>
          var contents := Save(u);
          return Quit(contents);
        case R =>
          var reloaded := Reload(read);
          if reloaded.Failed? {
            return reloaded;
          }
        case Space =>
          penDown := !penDown;
        case Esc =>
          penDown := !penDown;
        case Period =>
          currentObject := currentObject + 1;
          if currentObject >= |AllObjects()| {
            currentObject := 0;
          }
        case Comma =>
          if currentObject == 0 {
            currentObject := |AllObjects()|;
          }
          currentObject := currentObject - 1;
        case Unknown =>
          return Continue;
        case _ =>
          direction := FromInput(input);
      }
      Settle(direction);
      return Continue;
    }
  }
}
