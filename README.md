# Tetris game core in Dafny

This project models the game logic of the browser Tetris in `game.js`. That is
the `Tetris` class without its drawing. The model keeps the 20 × 10 board of
locked cells, the falling (current), next and held pieces, and the counters
(score, cleared lines, level, drop interval). It also keeps the drop timer,
the once-per-piece hold flag, the pause flag and the game-over flag. The state
changes made by piece generation, collision, rotation, merge, line clearing,
drop, move, hold, the key handler (with its hard drop), pause, reset and the
per-frame timer step are modelled as well.

The model has four modules:

- `Shapes` holds the seven kinds, the canonical shape table and the
  clockwise rotation of a shape matrix. Shapes are immutable `seq<seq<bool>>`
  values; the source's 1 is `true`.
- `Grid` holds board cells, pieces and the three board rules as pure
  functions:
  - `Collides` (collision);
  - `Merged` (locking);
  - `Cleared` (line clearing);
  - `Moved`, `Turned` and `Resting` (where a move, a turn or a hard drop
    leaves a piece).
- `Scoring` holds the level and interval formulas and the award for a lock
  that clears rows.
- `Game` holds the class `Tetris`. Its fields are the source's fields, and
  its methods are the source's methods with their loops, each proved against
  the functions above.

`Math.random` becomes a constant `random: nat -> PieceIndex` given to the
constructor. The n-th generated piece (counting from 0) has kind
`KindAt(random(n))`, and the field `draws` counts the pieces generated so
far.

Between operations the object satisfies `Valid()`:

- the board is 20 × 10;
- every filled cell of the current piece lies on the board;
- the next and held pieces carry their canonical shapes;
- the next piece is at its spawn position;
- the counters satisfy `level == lines / 10 + 1` and
  `dropInterval == max(100, 1000 - (level - 1) * 100)`, with score and
  lines non-negative;
- `gameOver` is false, since drop() sets it and its reset() clears it at
  once.

`Valid()` does not promise that the current piece is free of locked cells.
hold() slides the swapped-in piece to its spawn position without a collision
test, so the piece can overlap locked cells. Freedom is the separate
predicate `Settled()`. The constructor, drop(), reset() and the lock
establish it, and move, rotate and the timer step keep it.

Two behaviours of the code are easy to miss, and the model keeps them:

- collide() also treats every row above the top as blocked. `board[-1]` is
  undefined, and undefined is not 0.
- Once paused, the key handler ignores every key, including P. So the game
  cannot be resumed from the keyboard.

## Model

| member | source | states |
|---|---|---|
| Shapes.CanonicalIsTable | game.js:42-50 | the shape table has an entry for every one of the seven kinds; each entry is a square matrix of side 2 to 4 with at least one filled cell |
| Shapes.Rotated | game.js:162-164 | the turned matrix swaps width and height, and its cell (i, j) is the old cell (n-1-j, i): a clockwise quarter turn |
| Shapes.RotatedKeepsCells | game.js:162-164 | every old filled cell (i, j) reappears at (j, n-1-i), so a shape with a filled cell keeps one after a turn |
| Shapes.RotatedTwice | game.js:162-164 | two turns map cell (i, j) to (h-1-i, w-1-j), the half turn |
| Shapes.RotatedFourTimes | game.js:162-164 | four turns give back exactly the original shape |
| Grid.EmptyBoard | game.js:23 | the fresh board is 20 rows of 10 cells, every one empty |
| Grid.SpawnX | game.js:74 | the spawn column floor(10/2) - floor(width/2) keeps every column of a shape at most 10 wide on the board |
| Grid.SpawnInGrid | game.js:67-77 | a generated piece (centred, row 0) has every filled cell on a 20 × 10 board |
| Grid.SpawnFree | game.js:67-77 | on an empty board a generated piece does not collide |
| Grid.Spawn | game.js:70-76 | the record generatePiece() returns for a kind: its table shape, centred at column SpawnX of that shape, in row 0; its properties are `SpawnInGrid` and `SpawnFree` |
| Grid.Collides | game.js:147-158 | the reference definition of collide(): some filled cell of the shape, offset by the piece's position, lies on a row that does not exist (above the top or below the floor), outside its row's columns, or on a locked cell; `Game.Tetris.Collide` is proved equal to it |
| Grid.CollidesBelowFloor | game.js:147-158 | a piece with a filled cell collides once it is at or below the floor, since a missing row counts as blocked |
| Grid.Moved | game.js:229-234 | move(dir) shifts the piece by dir exactly when the shifted piece does not collide, and otherwise leaves it; a free piece stays free |
| Grid.Turned | game.js:160-169 | rotate() installs the turned shape exactly when it does not collide, and otherwise keeps the old one; a free piece stays free and keeps a filled cell |
| Grid.FirstHit | game.js:281-283 | the hard-drop descent stops at the first row at or below the start where the piece collides, and every row passed on the way is free |
| Grid.FirstHitAbove | game.js:281-284 | the descent stops where it began or one row below a free position |
| Grid.Resting | game.js:281-284 | after backing off one row, the piece is in the same column at most one row above its start, and one row lower it collides |
| Grid.Merged | game.js:171-180 | merging keeps the board's dimensions |
| Grid.MergedLocksPiece | game.js:171-180 | merge() writes the piece's kind into exactly the cells under its filled cells, leaves every other cell as it was, clears no locked cell, and afterwards the piece collides where it is |
| Grid.Cleared | game.js:182-195 | the reference definition of clearLines() on the board: as many empty rows as there are full rows, on top of the rows that are not full, in their order; `Game.Tetris.ClearLines` is proved equal to it, and `ClearedIsBoard`, `ClearedIdempotent` and `ClearedWithoutFullRows` state its properties |
| Grid.IncompleteRows | game.js:184-195 | the kept rows are exactly the rows that are not full; kept and full rows count up to all rows |
| Grid.IncompleteAppend | game.js:184-195 | removing full rows works row by row, keeping the order of the rest: it distributes over concatenation, and so does the count of full rows |
| Grid.CountFullZero | game.js:184-195 | no row is counted as cleared exactly when no row is full |
| Grid.NoFullRowsKept | game.js:184-195 | a board without full rows keeps every row |
| Grid.ScanKeeps | game.js:185-189 | during the bottom-up scan a row that is not full is skipped and stays where it is |
| Grid.ScanClears | game.js:191-194 | during the scan a full row is cut out, an emptied row goes on top, and the same index is examined again |
| Grid.ScanEnds | game.js:184 | the scan starts with the unchanged board and ends with the full rows replaced by empty rows on top of the kept rows |
| Grid.ClearedIsBoard | game.js:182-195 | line clearing keeps a 20 × 10 board, leaves no full row, puts one empty row on top per cleared row, and below them keeps the non-full rows in their order |
| Grid.ClearedIdempotent | game.js:182-195 | clearing twice gives the same board as clearing once |
| Grid.ClearedWithoutFullRows | game.js:182-195 | with no full row, clearing changes nothing |
| Scoring.LevelFor | game.js:200 | the level is the one with (level-1)·10 ≤ lines < level·10, which is at least 1 |
| Scoring.IntervalFor | game.js:201 | from level 1 on, the interval lies between 100 and 1000 ms, and it is 100 exactly from level 10 on |
| Scoring.Award | game.js:197-201 | clearing n rows adds n lines and n·100·level points at the level before the clear; nothing changes when n is 0; the level/interval relation is kept; score and level never decrease and the interval never grows; a clear of at least one row strictly raises the score |
| Game.FreshGame | game.js:23-55 | a fresh game (empty board, two generated pieces, no held piece, initial counters) is playable and its first piece does not collide |
| Game.Tetris.AfterHold | game.js:236-262 | the reference definition of hold(): no change when hold is not allowed; a first hold stashes the current kind with its table shape, promotes the next piece and draws a new next piece; a later hold swaps the current kind with the held one, which comes back at its spawn position; hold is then disallowed. `Game.Tetris.Hold` is proved equal to it |
| Game.Tetris.constructor | game.js:2-65 | the new game has the canonical table and an empty board; its counters are 0, 0, 1 and 1000 ms; the current and next pieces are the first two draws; nothing is held; hold is allowed; it is neither paused nor over; after the first gameLoop() frame at time 0 the timer is 0; it is valid and its piece is free |
| Game.Tetris.Draw | game.js:67-77 | generatePiece() returns the next draw of the random source at its spawn position, and counts the draw |
| Game.Tetris.Collide | game.js:147-158 | the nested scan reports true exactly when some filled cell of the current piece sits on a locked cell, outside a row, or on a row that does not exist |
| Game.Tetris.Rotate | game.js:160-169 | the piece becomes the turned piece if that is free, or stays as it was; the rest of the state is unchanged and validity is kept |
| Game.Tetris.Merge | game.js:171-180 | the nested loop leaves exactly the merged board |
| Game.Tetris.ClearLines | game.js:182-208 | the bottom-up re-examining scan leaves exactly the cleared board, and the counters are awarded for the number of full rows |
| Game.Tetris.Drop | game.js:210-227 | one row down if that is free, otherwise the piece is locked (merge, clear, score, promotion, reset on game over); the drop timer is zeroed; after it the state is valid and the current piece free |
| Game.Tetris.Lock | game.js:212-225 | the lock leaves the promotion over the merged, cleared and scored board |
| Game.Tetris.MergeAndClear | game.js:214-215 | merge() then clearLines() give the cleared merged board and the award for its full rows |
| Game.Tetris.Promote | game.js:216-224 | the next piece becomes current, a new next piece is drawn and hold is re-enabled; when the promoted piece collides, the game is over and is reset |
| Game.Tetris.Move | game.js:229-234 | the piece becomes the shifted piece if that is free, or stays as it was; the rest of the state is unchanged and validity is kept |
| Game.Tetris.Hold | game.js:236-262 | no effect when hold is not allowed. The first hold stashes the current kind with its canonical shape, promotes the next piece and draws a new one. A later hold swaps the current kind with the held kind, which re-enters at its spawn position. Either way hold is then disallowed and the timer is untouched |
| Game.Tetris.Descend | game.js:281-283 | the descent loop ends at the first colliding row at or below the start |
| Game.Tetris.HardDrop | game.js:280-286 | the piece moves to its resting position and drop() locks it there, or it throws exactly when the resting position leaves the board; a piece that started free never throws |
| Game.Tetris.TogglePause | game.js:296-300 | the pause flag flips |
| Game.Tetris.Reset | game.js:302-318 | an empty board, the initial counters, no held piece, hold allowed, not over, and the next two draws as current and next pieces; the pause flag and timer are kept; the result is valid and the piece free |
| Game.Tetris.Tick | game.js:320-333 | the frame records its time. While paused nothing else changes. Otherwise the elapsed time is added to the drop counter, and a drop happens exactly when the counter then exceeds the interval (strict `>`), which zeroes it |
| Game.Tetris.HandleKey | game.js:264-294 | nothing changes while paused or over. Left and right move, up rotates, down drops, space hard-drops, C holds and P toggles the pause flag; every other key changes nothing. Only space can throw. Apart from C, a free piece stays free |

## Left out

- Drawing is display only and has no game state. This covers the canvas
  board, the grid, the next and held previews (game.js:79-145), the score,
  lines and level texts (game.js:203-206, 314-317) and the pause icon
  (game.js:298-299).
- Piece colours are display only. Held and generated pieces carry their kind
  and shape but no colour.
- The event-listener binding, `alert('Game Over!')`, `requestAnimationFrame`
  scheduling and the page's `onload` hook and SVG icons are browser I/O. Only
  the work of one frame is modelled (`Tick(time)`), and the frames' times
  are parameters. The server in `server.js` is not part of this model.
- `Math.random` is replaced by the `random` source described above.
- Game.Tetris.HardDrop: the thrown case is a dead end. This is a hard drop of
  a piece that already collides, which only hold() can produce, when backing
  off lifts it above the top row. merge() throws on the missing row before
  it writes any cell. The model reports this as `thrown`, with the piece
  left one row up and nothing else changed. `Valid()` is not promised after
  it, and the exception's effect on the browser's event loop is not
  modelled.
- Game.Tetris.Hold: `Settled()` is not promised after a hold, because the
  source does not test the swapped-in piece for collision (`Valid()` is).
- Game.Tetris.Drop: the timer is zeroed before the lock instead of after it.
  No step of the lock reads or writes the timer, so the final state is the
  same.
- drop()'s locking branch is split into the methods `Lock`, `MergeAndClear`
  and `Promote`, and the hard drop's loop into `Descend`, so that each part
  is proved on its own.
- Integers are unbounded. The source's numbers are doubles. Score, lines,
  level and board coordinates are whole numbers well inside the range where
  doubles are exact, so for them the integer model is the same.
- Game.Tetris.Tick: it takes whole-millisecond frame times. The browser
  passes fractional ones, which the drop counter adds up in floating point,
  so the frame on which `dropCounter > dropInterval` first holds can differ.
