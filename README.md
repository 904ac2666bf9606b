# NyanRush in Dafny

NyanRush is a terminal game. A cat's head, trailing a rainbow tail, flies through a
width-by-height playfield. Walls with a four-row door scroll towards it from the right edge. The
player moves the head up and down to pass through each door. Touching a brick ends the game. The
score is the number of walls passed.

This project models the game's logic:

- `Primitives`: the positioned glyph, a record of column, row, character and colour.
- `Matrices`: the glyph grid every entity is drawn with. The class `Matrix` changes its list of
  glyphs in place:
  - its constructor lays out rows of text;
  - `Translate` shifts every glyph and then clips at the left edge;
  - `Clear` clips;
  - `Append` paints a column.

  Each operation is specified by a function on values: `Layout`, `Shifted`, `Clipped` and
  `Painted`. The lemmas are about those functions.
- `Nyans`: the head (`Head`, clamped vertical moves), the tail (`Tail`, regenerated each tick)
  and the character that composes them (`Nyan`).
- `Walls`: the wall (`Wall`), a column of bricks with a door, scrolling left once per tick.
- `Game`: the game (`NyanRush`), holding:
  - the tick with its wall counter, score and wall recycling;
  - exact-cell collision between the wall and the head;
  - the list of everything to draw;
  - the key bindings.

  The counter and score of a tick are specified by the value function `Advance`.
- `Scoreboard`: the score line.

Two inputs are parameters of the model:

- The game draws each wall's door at random from rows `[0, height - 5)`. In the model the door is
  a parameter of the wall's constructor, of the game's constructor and of `Tick`.
- The game stops by terminating the process. In the model it sets the flag `ended` instead.

## Model

| member | source | states |
|---|---|---|
| Matrices.Matrix.constructor | nyan_rush.rb:14-31 | the glyphs are the rows laid out from (x, y) in row-major order, all white; the height is the number of rows |
| Matrices.LayoutAt | nyan_rush.rb:22-29 | the character in row i, column j of the text is the glyph at (x + j, y + i), white, at the position where row i starts plus j |
| Matrices.LayoutLength | nyan_rush.rb:22-29 | a layout has exactly one glyph per character of its rows |
| Matrices.LayoutWithinRows | nyan_rush.rb:22-29 | every glyph of a layout of n rows from row y lies in rows [y, y + n) |
| Matrices.ShiftedLayout | nyan_rush.rb:33-37 | shifting a layout by (dx, dy) is the layout from (x + dx, y + dy) |
| Matrices.Matrix.Translate | nyan_rush.rb:33-39 | the new glyphs are the old ones, each moved by (dx, dy), in the same order, with those now left of the screen dropped |
| Matrices.Matrix.Clear | nyan_rush.rb:41-43 | the new glyphs are the old ones with x >= 0, in their original order |
| Matrices.ClippedMember | nyan_rush.rb:41-43 | a glyph survives clipping if and only if it was there and its x is not negative |
| Matrices.ClippedLength | nyan_rush.rb:41-43 | clipping never adds glyphs |
| Matrices.ClippedAppend | nyan_rush.rb:41-43 | clipping filters each glyph on its own: clipping a concatenation is concatenating the clipped parts |
| Matrices.ClippedKeepsAll | nyan_rush.rb:41-43 | a list with no glyph left of the screen is unchanged by clipping |
| Matrices.ClippedDropsAll | nyan_rush.rb:41-43 | a list whose glyphs are all left of the screen clips to nothing |
| Matrices.ClippedIdempotent | nyan_rush.rb:122-124 | clipping twice is clipping once, so the clear after the translate in the tail's step changes nothing |
| Matrices.ClippedWithinRows | nyan_rush.rb:41-43 | clipping keeps every glyph in the rows it was in |
| Matrices.ShiftedWithinRows | nyan_rush.rb:33-37 | a horizontal shift keeps every glyph in its row |
| Matrices.VerticalShiftWithinRows | nyan_rush.rb:33-37 | a vertical shift by dy moves the rows a list lies in by dy |
| Matrices.VerticalShiftCommutes | nyan_rush.rb:33-42 | a vertical shift commutes with clipping |
| Matrices.TranslateLayoutVertically | nyan_rush.rb:33-42 | translating a laid-out shape vertically, clipped or not, gives the shape laid out at the new row, clipped |
| Matrices.Matrix.Append | nyan_rush.rb:45-50 | the old glyphs are kept, followed by exactly one glyph per character: chars[i] in colors[i] at (x, y + i), with no clipping |
| Nyans.Head.constructor | nyan_rush.rb:65-77 | the head's corner is six columns left and two rows above the given centre; its glyphs are the four rows of art laid out there, not clipped |
| Nyans.Head.MoveUp | nyan_rush.rb:79-84 | when the head is at the top row (y <= 0) the move is refused and nothing changes; otherwise y decreases by one and the glyphs are translated by (0, -1) and clipped; a head inside the playfield stays inside it |
| Nyans.Head.MoveDown | nyan_rush.rb:86-91 | when the head's bottom row is the playfield's last row the move is refused and nothing changes; otherwise y increases by one and the glyphs are translated by (0, 1) and clipped; a head inside the playfield stays inside it |
| Nyans.HeadMoveKeepsDrawn | nyan_rush.rb:79-91 | after a move the head's glyphs are still its art, laid out at its new row and clipped, whether or not it had moved before |
| Nyans.Head.Primitives | nyan_rush.rb:93-95 | the head's glyphs all lie in its four rows |
| Nyans.Tail.constructor | nyan_rush.rb:105-120 | a new tail has no glyphs, because its grid is built from one empty row |
| Nyans.Tail.Generate | nyan_rush.rb:122-126 | the old dots move one column left and those left of the screen are dropped; then four 'o's are added at (head.x - 1, head.y + i), coloured red, yellow, green and blue; every tail glyph stays a coloured dot |
| Nyans.Tail.Primitives | nyan_rush.rb:128-130 | every tail glyph is an 'o' in a colour other than white |
| Nyans.Nyan.constructor | nyan_rush.rb:136-139 | the head is centred on the given point and the tail is empty |
| Nyans.Nyan.Update | nyan_rush.rb:141-143 | the tail takes one step and the head is unchanged; a character inside the playfield stays inside it |
| Nyans.Nyan.Primitives | nyan_rush.rb:145-147 | the head's glyphs followed by the tail's, all in the playfield's rows when the character is inside it |
| Nyans.Nyan.MoveUp | nyan_rush.rb:149-151 | forwards to the head: when y was positive it decreases by one and the head's glyphs are translated by (0, -1) and clipped; otherwise y and the glyphs are unchanged; a character inside the playfield stays inside it |
| Nyans.Nyan.MoveDown | nyan_rush.rb:153-155 | forwards to the head: when the head's bottom row is above the playfield's last row, y increases by one and the head's glyphs are translated by (0, 1) and clipped; otherwise y and the glyphs are unchanged; a character inside the playfield stays inside it |
| Walls.Wall.Generate | nyan_rush.rb:175-183 | the top pattern has one brick row per row above the door; the bottom pattern has one per row from door + 4 to the bottom |
| Walls.LayoutHashes | nyan_rush.rb:171-172 | laying out n brick rows from (c, y) gives the bricks of column c in rows [y, y + n) |
| Walls.Wall.constructor | nyan_rush.rb:165-173 | a new wall's glyphs are exactly the bricks of column width - 1 in rows [0, door) and [door + 4, height) |
| Walls.WallRows | nyan_rush.rb:165-183 | a glyph belongs to a wall if and only if it is a white '#' in the wall's column, in a playfield row outside the four door rows |
| Walls.ScrollBricks | nyan_rush.rb:185-188 | one scroll moves a column of bricks one column left; a column at x = 0 leaves the screen |
| Walls.Wall.Update | nyan_rush.rb:185-188 | both segments are translated by (-1, 0) and clipped; the wall is empty exactly when it has scrolled at least as many times as the screen is wide |
| Walls.Wall.Primitives | nyan_rush.rb:190-192 | the wall's glyphs are empty or the whole wall in its current column, and none lies in a door row |
| Walls.DoorZeroCrashes | nyan_rush.rb:14-18 | as written, a wall whose door is row 0 crashes while being built; every other door in range builds the intended wall |
| Game.NyanRush.constructor | nyan_rush.rb:198-205 | a new game has no score, a zero counter, a wall at the right edge with the given door, the head's art laid out unclipped at (width/2 - 6, height/2 - 2) and an empty tail; the game's invariant, which includes that the head's glyphs are its drawn art, holds |
| Game.InputMap | nyan_rush.rb:211-219 | exactly the keys w, s, k, j and q are bound: w and k move up, s and j move down, q quits |
| Game.NyanRush.Objects | nyan_rush.rb:225-227 | everything to draw lies in the playfield's rows |
| Game.NyanRush.CheckCollision | nyan_rush.rb:229-233 | the game ends if it had ended or the wall touches the head |
| Game.NyanRush.Exit | nyan_rush.rb:274-276 | the game has ended |
| Game.FindCollision | nyan_rush.rb:235-244 | the nested search answers true if and only if some brick and some glyph share a cell |
| Game.NyanRush.Collision | nyan_rush.rb:235-244 | the answer is whether the wall touches the head; the tail plays no part |
| Game.CollidesIffSharedCell | nyan_rush.rb:235-244 | a collision is exactly a cell occupied by both lists; characters and colours play no part |
| Game.Advance | nyan_rush.rb:249-255 | the score rises by one exactly when the counter has passed the width, and never falls; a counter in [0, width + 1] goes to [1, width + 1] |
| Game.AdvanceFromStart | nyan_rush.rb:246-256 | from a new game, after k >= 1 ticks without a collision, the counter is (k - 1) mod (width + 1) + 1 and the score is (k - 1) div (width + 1) |
| Game.NyanRush.Tick | nyan_rush.rb:246-256 | the tail takes its step; the wall scrolls or, once the counter has passed the width, is replaced by a fresh wall; counter and score follow Advance; the collision is checked against the wall as it is after any replacement; a collision ends the game before the counter advances |
| Game.NyanRush.Move | nyan_rush.rb:247-253 | the tail steps and the wall scrolls; when the counter has passed the width, the counter restarts, the score rises by one and a fresh wall is built |
| Game.NyanRush.UpdateNyan | nyan_rush.rb:247 | the tail takes its step and the invariant is kept |
| Game.NyanRush.UpdateWall | nyan_rush.rb:248 | the wall scrolls once and the invariant is kept |
| Game.NyanRush.Recycle | nyan_rush.rb:249-253 | the counter restarts, the score rises by one and a fresh wall stands at the right edge |
| Game.NyanRush.MoveUp | nyan_rush.rb:258-260 | forwards to the character: when y was positive it decreases by one and the head's glyphs are translated by (0, -1) and clipped; otherwise y and the glyphs are unchanged; the invariant, including the head's glyphs being its art drawn at its row, is kept |
| Game.NyanRush.MoveDown | nyan_rush.rb:262-264 | forwards to the character: when the head's bottom row is above the playfield's last row, y increases by one and the head's glyphs are translated by (0, 1) and clipped; otherwise y and the glyphs are unchanged; the invariant, including the head's glyphs being its art drawn at its row, is kept |
| Scoreboard.Decimal | nyan_rush.rb:268 | the numeral is a non-empty string of digits, with a leading '0' only for zero |
| Scoreboard.DecimalRoundTrip | nyan_rush.rb:268 | reading the numeral of n gives n back |
| Scoreboard.TextboxContent | nyan_rush.rb:266-272 | the score line is the banner, the numeral and " walls.", or " wall." for a score of exactly 1 |
| Scoreboard.TextboxInjective | nyan_rush.rb:266-272 | two scores give the same score line if and only if they are equal |

## Left out

- The curses screen, the Gaminator runner and `require`s are I/O and library code. Colours are
  an enumeration of their own.
- `Kernel.exit` terminates the process. It is modelled as the flag `ended`. The statements after
  it in a tick (the counter increment) are not executed, so the model leaves the counter as it is.
- The random door (`Random.new.rand`) is a parameter. Its range `[0, height - 5)` becomes the
  precondition `door + 5 < height`.
- `sleep_time` (a floating-point delay) and `wait?` are scheduling for the runner and are not
  modelled.
- `exit_message` is not modelled. For a score other than 1 it prints with `puts` and returns
  nothing; for a score of 1 it returns the text without printing it. That is output, with that
  quirk.
- The grid's `@width`, `@x` and `@y` are set at construction and never read, so they are not
  modelled.
- In the game, glyphs are mutable records that `Matrix#translate` changes in place. No glyph is
  ever shared between two grids, so the model treats glyphs as values and replaces them.
- `Nyans.Head.MoveUp`, `Nyans.Head.MoveDown`: the head's own invariant only keeps its glyphs
  within its four rows. The exact drawing (the art laid out at the head's row, clipped or not) is
  part of the game's invariant (`Game.NyanRush.Valid`), kept by the lemma
  `Nyans.HeadMoveKeepsDrawn`, so a head used outside a game is not promised it.
- The game's methods require the model's invariant (`Valid`). The game itself checks nothing.
  Its own constructor establishes that invariant whenever the door is in range.
- Heights too small for the random draw (`height < 6`) make `rand` fail in the game. They are
  excluded by the door precondition.
- Two facts about the code that a reader of the game might expect otherwise:
  - The door is drawn from `[0, height - 5)` (nyan_rush.rb:176), so at least two brick rows
    always lie below the door.
  - The first wall is passed on tick `width + 2`, and every later wall `width + 1` ticks after
    the one before (nyan_rush.rb:199, 249-255): the counter starts at 0 and must exceed the width
    before the score rises.

## Findings

| source | as written | input that shows it | evidently intended | confidence | as-written member | corrected member |
|---|---|---|---|---|---|---|
| nyan_rush.rb:18, nyan_rush.rb:171, nyan_rush.rb:176-179 | `Matrix.new` reads the length of the first row, so an empty list of rows raises. A wall whose random door is row 0 builds an empty top pattern, so building that wall crashes the game (one wall in `height - 5` on average). | `Wall.new(40, 20)` with the door drawn as 0 | A door at the top row gives a wall with no bricks above the door. An empty list of rows gives an empty grid. | not executed | Walls.DoorZeroCrashes | Walls.Wall.constructor |

The corrected grid constructor (`Matrices.Matrix.constructor`) accepts an empty list of rows and
produces no glyphs. With it, `Walls.Wall.constructor` builds the intended wall for every door in
`[0, height - 5)`, door 0 included. `Walls.WallRows` then states the door property for that wall.
