# boulder_dash in Dafny

A model of the game core of boulder_dash, a small Boulder Dash clone.

- **The playing field.** A level is a grid of objects: gem, wall, dirt, rock, void, unknown and player. It also holds a score, the number of gems needed to win (`maxScore`), an optional final state (win or lose), the player's position, and the list of cells to redraw (`damaged`).
- **Requests.** Objects never change the level themselves. They return requests (add score, add to the win total, set the state, move an object), and the level applies them in order.
- **A tick.** The player acts first. Then a gravity pass runs over the rows from bottom to top, and each rock falls or slides diagonally into a free cell.
- **Levels as text.** Levels are read from text, one character per cell.
- **The editor.** It moves a cursor over a grid, paints the selected palette entry with a pen, saves the grid as text and reloads it.
- **The command line.** Flags choose the front end and the frame delay; every other argument is a level path.

The model has the following modules:

- `Directions`: saturating unit steps on `usize` points. `Inputs` holds the editor's input keys.
- `Objects`: the kinds of cell, their character table and their capabilities.
- `Requests`: requests, grids and the `LevelView` value.
- `RockRule` and `GemRule`: the two kinds with behaviour of their own.
- `Behaviours`: the dispatch of the behaviour hooks.
- `Text`: `str::lines` and UTF-8 byte lengths.
- `Levels`: the request semantics as functions on `LevelView`, with a `Level` class whose methods do the same work in place. This covers parsing, `handle_requests`, `move_obj` and `tick`.
- `LegacyObjects`: the older property table of `src/level/objects.rs`.
- `Editing`: the editor's state, save, reload and one input of its loop. It has an `Editor` class whose methods are proved against functions on `EditorView`.
- `Args`: `Config::parse`. It is a method with a loop, proved equal to a recursive specification.

Coordinates are `(x, y)` pairs of `usize`, bounded by 2^64 - 1. Every grid row's length fits in a `usize`.

## Model

| member | source | states |
|---|---|---|
| Directions.UpStep | src/level/direction.rs:10-22 | Up lowers y by one and stops at 0; x is unchanged |
| Directions.LeftStep | src/level/direction.rs:10-22 | Left lowers x by one and stops at 0; y is unchanged |
| Directions.DownRightStep | src/direction.rs:21-33 | Down and Right add one, saturating at usize::MAX |
| Directions.StepIsUnit | src/direction.rs:21-33 | a step changes one axis only, by at most one, and leaves the point unchanged exactly at the usize edge |
| Directions.StepBack | src/direction.rs:21-33 | the opposite step undoes a step if and only if the step did not saturate |
| Directions.FromInputInverse | src/direction.rs:12-20 | from_input maps each arrow input to its direction, and every other input (W, A, S, D among them) to None |
| Objects.ParseErrorMessage | src/level/objects.rs:46 | the parse error message contains the offending character |
| Objects.AllObjects | src/objects.rs:40-49 | the palette has six distinct entries and no Unknown |
| Objects.PaletteOrder | src/objects.rs:40-49 | the palette runs gem, wall, dirt, rock, void, player, so a default editor paints gems |
| Objects.AllObjectsCover | src/objects.rs:40-49 | an object is in the palette if and only if it is not Unknown |
| Objects.GetVoid | src/objects.rs:37-39 | the void object is the placeholder and has no other capability |
| Objects.GetPlaceholder | src/level.rs:100-105 | the object a move leaves behind is a placeholder |
| Objects.NewTable | src/objects.rs:51-61 | Object::new recognises exactly the six glyphs '+', '#', '*', 'O', ' ' and 'p', each as its kind |
| Objects.GlyphRoundTrip | src/objects.rs:51-61 | every known kind returns to itself through its glyph, and every recognised character returns to itself through its kind |
| Objects.CapabilityOwners | src/objects.rs:74-87 | each capability is true for exactly the kinds that override it; wall and unknown have none |
| Requests.SameShapeRequests | src/level/request.rs:3-8 | requests in bounds for one grid are in bounds for any grid of the same shape |
| RockRule.Tick | src/objects/rock.rs:22-42 | a rock asks for at most one move, from its own cell, one row down, at most one column sideways, onto a placeholder |
| RockRule.EnclosedIsDefined | src/objects/rock.rs:29-39 | when x >= 1 and rows y and y + 1 cover x - 1 .. x + 1, every read the rule makes is in the grid |
| RockRule.GuardedRockStays | src/objects/rock.rs:23-27 | a rock on the player's cell or just above it asks for nothing |
| RockRule.RockFalls | src/objects/rock.rs:29-31 | an unguarded rock over a placeholder falls straight down |
| RockRule.RockPrefersLeft | src/objects/rock.rs:33-39 | when the cell below is taken and the left side is free, the rock goes down-left |
| RockRule.RockMoveJustified | src/objects/rock.rs:22-42 | each move is backed by its condition: down only onto a placeholder, sideways only through two placeholders, right only when left is blocked |
| RockRule.RockStaysIffBlocked | src/objects/rock.rs:22-42 | the rock stays if and only if it is guarded or all three targets are blocked |
| GemRule.OnBroken | src/level/objects/gem.rs:25-32 | a broken gem scores one and adds a win request if and only if score + 1 == max_score |
| Behaviours.Init | src/level/objects/gem.rs:22-24 | init only ever adds to the win total, once for a gem and never for any other kind |
| Behaviours.OnBroken | src/objects.rs:89-100 | on_broken is empty for every kind except a gem, whose requests start with AddScore |
| Behaviours.Tick | src/level/traits.rs:21-31 | a tick's requests stay in bounds, and every kind other than rock and player asks for nothing |
| Behaviours.InertKinds | src/level/traits.rs:5-31 | for wall and unknown, every capability is false and every hook is empty, for any level, point and direction |
| Text.Lines | src/level.rs:59 | str::lines gives no more lines than characters; no line holds '\n' or is longer than the text, in characters or in bytes |
| Text.LinesCons | src/editor.rs:74 | text made of a line without a break, then '\n', then more text splits into that line followed by the lines of the rest |
| Text.Utf8LenAppend | src/editor.rs:76 | the byte length of a concatenation is the sum of the byte lengths |
| Text.Utf8LenSlice | src/editor.rs:76 | a slice has at least as many bytes as characters and no more bytes than the whole |
| Text.Utf8LenAtLeastLength | src/editor.rs:76 | a string has at least as many UTF-8 bytes as characters |
| Levels.Moved | src/level.rs:100-105 | move_obj keeps the shape of the grid |
| Levels.Apply | src/level.rs:80-95 | one request keeps the shape of the grid |
| Levels.ApplyAll | src/level.rs:78-98 | the requests, applied in list order, keep the shape of the grid |
| Levels.PlayerPhase | src/level.rs:109-112 | the player's requests keep the shape of the grid |
| Levels.RowPass | src/level.rs:116-120 | the pass over one row, when no rock's read leaves the grid, keeps the shape of the grid |
| Levels.Pass | src/level.rs:115-121 | the bottom-to-top pass, when it does not panic, keeps the shape of the grid |
| Levels.TickSpec | src/level.rs:107-122 | a tick that does not panic keeps the shape of the grid |
| Levels.MoveObjEffect | src/level.rs:88-105 | a move puts from's object on to, leaves the placeholder on from unless from == to, changes no other cell, moves the player exactly when the player is moved, appends from and to to damaged, and leaves the counters and the state alone |
| Levels.ApplyAllEffects | src/level.rs:78-98 | handle_requests adds one to score per AddScore and one to max_score per AddMaxScore; the first UpdateState wins unless a state is already set; damaged gains every move's from and to, in order |
| Levels.NoMovesKeepGrid | src/level.rs:78-98 | requests with no move leave the grid and the player unchanged |
| Levels.StateWriteOnce | src/level.rs:81-85 | once a state is set no request changes it; with none set, a leading UpdateState decides it |
| Levels.GemBreakScoresAndMayWin | src/level/objects/gem.rs:25-32 | applying a gem's on_broken scores one and, with no state set, wins exactly when the new score equals max_score |
| Levels.InitEffect | src/level.rs:64 | applying a kind's init requests only adds one to max_score, and only for a gem |
| Levels.RockStepEffect | src/level.rs:117-118 | a rock's requests keep the counters and the state, and change no row but the rock's own and the one below |
| Levels.RowPassEffect | src/level.rs:116-120 | the pass over one row keeps the counters and the state and changes only that row and the one below |
| Levels.PassEffect | src/level.rs:115-121 | the bottom-to-top pass from row y keeps the counters and the state and never writes below row y |
| Levels.TickEffect | src/level.rs:107-122 | after a tick the counters and the state are those the player's requests produced, the shape of the grid is kept, and a decided level stays decided |
| Levels.RowMajorIsScanOrder | src/level.rs:59-71 | the cells parse marks as damaged are every cell of the grid, listed once each, in scan order |
| Levels.ScanRowIsLast | src/level.rs:65-67 | the player position a row leaves is the row's last player cell, or the earlier position when the row has none |
| Levels.LastPlayerIsLast | src/level.rs:56-76 | after parsing, the player is the last player cell in scan order, or the default (0, 0) when there is none |
| Levels.FirstBadHere | src/level.rs:62-63 | the parser stops at the first character in scan order that the table does not accept |
| Levels.ParseRowStep | src/level.rs:59-73 | pushing a parsed row keeps the parse invariants: one row per line, the gem count, the damaged order and the last player |
| Levels.Level.Default | src/level.rs:20-28 | Level::default has zero counters, no state, the player at (0, 0), and no damaged cells or rows |
| Levels.Level.GetDamaged | src/level.rs:41-43 | get_damaged returns the damaged list, empties it and changes nothing else |
| Levels.Level.MoveObject | src/level.rs:100-105 | move_obj changes only the grid, as Moved describes |
| Levels.Level.HandleRequests | src/level.rs:78-98 | handle_requests leaves the level that applying the requests in order gives |
| Levels.Level.Tick | src/level.rs:107-122 | tick applies the player's requests, then each rock's requests, row by row from the bottom; the result is TickSpec, whose effects TickEffect states |
| Levels.Level.ParseLine | src/level.rs:60-71 | one line gives one cell per character, the gem count of the row added to max_score, the row's cells appended to damaged and the last player cell kept; or the index of the first character that does not parse |
| Levels.Level.Parse | src/level.rs:56-76 | parse fails if and only if some character does not parse, with the message for the first one; otherwise the grid matches the text, the score is 0, there is no state, max_score is the number of gems, damaged is every cell in scan order, and the player is the last player cell |
| LegacyObjects.Parse | src/level/objects.rs:39-48 | a refused character appears in the error message |
| LegacyObjects.ParseRoundTrip | src/level/objects.rs:39-48 | the parser accepts a character as a kind if and only if it is that kind's letter |
| LegacyObjects.ParseRejects | src/level/objects.rs:46 | every other character is refused with the "Can't parse char" message |
| LegacyObjects.PropsByField | src/level/objects.rs:16-75 | only the wall keeps every default; broken_with is 2 exactly for gem and dirt, 1 for the player and u8::MAX otherwise; moved_with is 1 only for the rock; only the player has a move force; only rock and player have a break force |
| LegacyObjects.PropsOwners | src/level/objects.rs:50-75 | only a rock falls, only the player is controlled, only a gem scores, and only the player ends the game |
| LegacyObjects.BreakThresholds | src/level/objects.rs:50-75 | the player's break force reaches the broken_with threshold of gem, dirt and player, and a rock's reaches only the player's |
| Editing.NextObject | src/editor.rs:117-122 | Period selects the next palette entry, wrapping around |
| Editing.PrevObject | src/editor.rs:123-128 | Comma selects the previous palette entry, wrapping around |
| Editing.SelectionInverse | src/editor.rs:117-128 | Period and Comma undo each other |
| Editing.GlyphRow | src/editor.rs:86-89 | a saved line has one glyph per object, in order |
| Editing.SerialisedAppend | src/editor.rs:82-92 | saving two grids one after the other gives the text of each, in order |
| Editing.SerialisedCons | src/editor.rs:85-91 | the saved text is the first row's glyphs, then '\n', then the rest |
| Editing.RowOf | src/editor.rs:75 | a reloaded row has Object::new of each character, in order |
| Editing.RowsOf | src/editor.rs:74-75 | a reload gives one row per line |
| Editing.SpanCells | src/editor.rs:76 | the marked cells of a row are exactly the points (x, y) with x in from .. to |
| Editing.ReloadSnoc | src/editor.rs:74-77 | one more line adds its row and its cells |
| Editing.CellsOfIsGrid | src/editor.rs:74-77 | the cells the corrected reload marks are exactly the cells of the reloaded grid |
| Editing.ReloadEffect | src/editor.rs:70-80 | the corrected reload clears the grid; a read error is returned and leaves the grid empty; otherwise the grid holds the file's lines and damaged gains exactly its cells (see Findings); the pen, the selection and the cursor are kept |
| Editing.RowOfGlyphRow | src/editor.rs:75-89 | a saved row reloads as itself when Unknown's glyph is a character Object::new does not recognise |
| Editing.GlyphRowHasNoBreak | src/editor.rs:86-89 | a saved line holds no '\n' and does not end in '\r' |
| Editing.RowsOfCons | src/editor.rs:74-75 | the rows of a line followed by more lines are that line's row followed by the rest |
| Editing.SaveReloadRoundTrip | src/editor.rs:70-92 | reloading the saved text gives back the grid |
| Editing.ByteCellsOutsideGrid | src/editor.rs:76 | the text "é" marks (1, 0) although its grid is a single cell |
| Editing.PadRows | src/editor.rs:147-149 | padding pushes empty rows until the grid has enough rows and keeps the rows it had |
| Editing.PadRow | src/editor.rs:150-153 | padding pushes void cells until the row is long enough and keeps the cells it had |
| Editing.SettledEffect | src/editor.rs:146-158 | after padding and painting, the cursor lies in the grid; the grid grows no further than the cursor's row, and only with empty rows and void cells; no other cell changes; damaged gains exactly the new cells, plus the cursor when the pen is down; a lowered pen paints the selected object |
| Editing.QuitAndIgnore | src/editor.rs:109-112 | Q hands over the saved text and changes nothing; Unknown changes nothing |
| Editing.PenToggle | src/editor.rs:114-116 | Space and Esc flip the pen and keep the selection and the cursor, then pad and paint |
| Editing.SelectionStep | src/editor.rs:117-128 | Period and Comma move the selection one place around the palette and keep the pen and the cursor |
| Editing.CursorStep | src/editor.rs:130-144 | an arrow moves the cursor one saturating step; W, A, S and D leave it in place |
| Editing.ReloadStep | src/editor.rs:113 | R runs the corrected reload (see Findings), then pads and paints; a failed read stops with the error and an empty grid |
| Editing.Editor.Default | src/editor.rs:11-19 | Editor::default has the pen up, the first palette entry selected, the cursor at (0, 0), nothing damaged and no rows |
| Editing.Editor.New | src/editor.rs:61-68 | Editor::new fails exactly when reading the file fails, with its message; otherwise it is the default editor after the corrected reload (see Findings) |
| Editing.Editor.GetDamaged | src/editor.rs:25-27 | get_damaged returns the damaged set, empties it and changes nothing else |
| Editing.Editor.Save | src/editor.rs:82-92 | the contents written are the saved text of the grid |
| Editing.Editor.Reload | src/editor.rs:70-80 | the editor's new state and the result are those Reloaded gives, whose effects ReloadEffect states |
| Editing.Editor.Pad | src/editor.rs:146-153 | the two padding loops leave the grid and the damaged set that Padded gives |
| Editing.Editor.Settle | src/editor.rs:142-158 | the cursor step, the padding and the painting leave the state Settled gives |
| Editing.Editor.Step | src/editor.rs:108-158 | one input changes the editor as StepOutcome describes and ends the same way; R uses the corrected reload (see Findings) |
| Args.ParseU64 | src/args.rs:46-48 | an accepted number is non-empty digits, optionally after a '+' |
| Args.Digit | src/args.rs:46-48 | the digit character for d has the value d |
| Args.Decimal | src/args.rs:46-48 | a decimal numeral is non-empty and made of digits |
| Args.DecimalValue | src/args.rs:46-48 | a decimal numeral has the value it names |
| Args.ParseDecimal | src/args.rs:46-48 | every u64 written in decimal, with or without a leading '+', parses back to itself |
| Args.ParseRejects | src/args.rs:46-48 | the empty string, a lone '+', a negative numeral and a value past u64::MAX are refused |
| Args.Parse | src/args.rs:39-70 | the argument loop gives the outcome the recursive definition ParseArgs gives |
| Args.ParsedHasPath | src/args.rs:66-69 | a successful parse always has at least one level path |
| Args.FlagsAndPaths | src/args.rs:53-69 | with no -h and no -d, the delay is kept, the last mode flag wins, the other arguments are the level paths in order, and the parse fails when there are none |
| Args.PathsOnlyDefault | src/args.rs:28-36 | plain paths give the default configuration (delay 1000, terminal mode) with those paths |
| Args.PathsOfPaths | src/args.rs:62 | arguments that are all paths all become paths |
| Args.LastModeOfPaths | src/args.rs:59-60 | without mode flags the mode is unchanged |
| Args.DelayOption | src/args.rs:42-61 | -d takes the next argument through parse_num: a number sets the delay, anything else is the "Invalid `delay` value!" error, and nothing at all is the "Missing `delay` value!" error |
| Args.TrailingDelay | src/args.rs:61 | a -d at the end is a missing value, whatever came before it |
| Args.HelpStops | src/args.rs:55-58 | -h ends the parse at once, whatever follows |

## Left out

- Rendering, the terminal and GUI front ends, the game loop (src/game.rs, src/draw.rs, src/modes, src/interaction), threads, sleeping and process exit. They are I/O.
- Reading and writing files:
  - `Editing.Editor.Reload` takes the read's result (the contents or the error's message) as a parameter.
  - `Editing.Editor.Save` returns the text it would write.
  - `process::exit` after Q becomes the `Quit` result.
- Printing the help text: `-h` gives the `Help` outcome.
- `Editing.Editor.New` takes the result of reading the file instead of its name.
- The editor's file name and `get_status` text formatting are left out (display only).
- The player's own tick rule (src/level/objects/player.rs holds only its capability) is not part of this model. It is a parameter `PlayerTick`, assumed only to name cells of the level it is given.
- The Unknown kind's glyph (src/objects/unknown.rs) is not part of this model; its glyph is a parameter. Its capabilities and hooks are taken as the defaults of src/objects.rs:74-100 (all capabilities false, every hook empty), which is what `Objects.CapabilityOwners` and `Behaviours.InertKinds` state for it.
- Objects.Glyph: the save glyphs of dirt ('*') and player ('p') are taken as the inverse of Object::new's table, because src/objects/dirt.rs and src/objects/player.rs are not part of this model. The glyphs of gem, wall, rock and void agree with their `char` bodies (src/level/objects/gem.rs, src/objects/wall.rs, src/objects/rock.rs, src/level/objects/void.rs). The older src/level/objects/player.rs draws the player as a crab emoji. `Objects.GlyphRoundTrip`, `Editing.RowOfGlyphRow` and `Editing.SaveReloadRoundTrip` rest on this choice.
- Dirt's `can_be_broken` answer is taken from src/level/objects/dirt.rs, because src/objects/dirt.rs is not part of this model. The same goes for the other kinds' capabilities.
- `crate::objects::parse` and `get_placeholder`, which `Level::parse` and `move_obj` call, are not part of this model:
  - the parser is modelled as Object::new's table that fails on Unknown, with the message format of src/level/objects.rs:46;
  - the placeholder is modelled as Void.
- Levels.Level.Tick: it requires that the tick does not panic (`TickSpec(...).Some?`) and that the player lies in the grid.
  - The source panics when the player's cell is outside the grid, or when a rock's reads leave it: `x - 1` at column 0, or a short row below.
  - `RockRule.Defined` states exactly when the rock's reads stay in bounds.
- Levels.ApplyAll: score and max_score are unbounded. The source's `usize` additions would overflow only after 2^64 requests.
- Editing.Padded: the editor's `y + 1` and `x + 1` are unbounded. In the source they overflow only at a cursor of usize::MAX, where the padding loop could not allocate anyway.
- Levels.Level.Parse: it requires the text to be shorter than 2^64 characters, which any `&str` in memory is.
- Editing.PenToggle: Space and Esc do more than flip the pen. The loop goes on to pad and paint like every other input, so the lemma states the pen flip together with the padding and painting.
- Directions.StepBack: Down then Up restores a point only below usize::MAX, because the step saturates. The lemma states the exact condition.
- Args.ParseU64: u64's `FromStr` is modelled concretely as an optional '+' and decimal digits with a value at most u64::MAX.
- Editing.ReloadEffect: states the corrected reload, which marks damaged cells by the line's character count and not by `line.len()` bytes as src/editor.rs:76 does (see Findings).
- Editing.ReloadStep: R uses the corrected reload, which marks damaged cells by character count (see Findings).
- Editing.Editor.New: reloads with the corrected reload, which marks damaged cells by character count (see Findings).
- Editing.Editor.Step: its R arm uses the corrected reload, which marks damaged cells by character count (see Findings).
- Editing.Editor.Reload: marks damaged cells by the line's character count, the corrected behaviour (see Findings). The byte-count version is `Editing.ByteCellsOf`.

## Findings

| source | as written | input that shows it | evidently intended | confidence | as-written member | corrected member |
|---|---|---|---|---|---|---|
| src/editor.rs:76 | reload marks `(x, y)` damaged for `x` below `line.len()`, the line's length in UTF-8 bytes, while line 75 builds one cell per character | a level file holding `é` (two bytes, one character): (1, 0) is marked, and the redraw in src/interaction/cli.rs:31-33 looks it up outside the row | mark exactly the reloaded row's cells, `x` below the character count | not executed | Editing.ByteCellsOutsideGrid | Editing.CellsOfIsGrid |
