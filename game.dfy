/** The game state machine: one Tetris object owns the board, the current,
    next and held pieces and the counters, and its methods are the game's
    operations (move, rotate, drop, hard drop, hold, pause, reset, the
    per-frame timer step and the key dispatch). */
module Game {
  import opened Shapes
  import opened Grid
  import opened Scoring

  datatype Option<T> = None | Some(value: T)

  /** The game state apart from the current piece and the drop timer. */
  datatype RestState = RestState(board: Board, next: Piece, held: Option<HeldPiece>, canHold: bool,
                                 stats: Counters, paused: bool, gameOver: bool, draws: nat)

  /** A held piece carries a kind and its canonical shape but no position. */
  datatype HeldPiece = HeldPiece(kind: Kind, shape: Shape)

  /** Key codes the dispatcher reacts to. */
  const LeftKey := 37
  const UpKey := 38
  const RightKey := 39
  const DownKey := 40
  const SpaceKey := 32
  const HoldKey := 67
  const PauseKey := 80

  /** The state invariant on plain values, for shape table t. */
  ghost predicate Playable(t: map<Kind, Shape>, board: Board, current: Piece, next: Piece,
                           held: Option<HeldPiece>, stats: Counters)
    requires IsTable(t)
  {
    && IsBoard(board)
    && IsShape(current.shape)
    && InGrid(board, current)
    && next.shape == t[next.kind] && next.x == SpawnX(next.shape) && next.y == 0
    && (held.Some? ==> held.value.shape == t[held.value.kind])
    && Consistent(stats)
  }

  /** A fresh game is playable and its first piece is free. */
  lemma FreshGame(t: map<Kind, Shape>, k1: Kind, k2: Kind)
    requires IsTable(t)
    ensures Playable(t, EmptyBoard(), Spawn(k1, t[k1]), Spawn(k2, t[k2]), None, Initial)
    ensures !Collides(EmptyBoard(), Spawn(k1, t[k1]))
  {
    SpawnFree(k1, t[k1]);
  }

  class Tetris {
    /** The shape table, built once by the constructor and never changed. */
    const shapes: map<Kind, Shape>
    var board: Board
    var current: Piece
    var next: Piece
    var held: Option<HeldPiece>
    var canHold: bool
    var score: int
    var lines: int
    var level: int
    var dropInterval: int
    var dropCounter: int
    var lastTime: int
    var paused: bool
    var gameOver: bool
    /** The random source that replaces Math.random: the n-th piece
        generated (n from 0) has kind KindAt(random(n)); `draws` pieces have
        been generated so far. */
    const random: nat -> PieceIndex
    var draws: nat

    /** The piece generatePiece() makes for kind k. */
    function Spawned(k: Kind): Piece
      requires IsTable(shapes)
    {
      Spawn(k, shapes[k])
    }

    /** The n-th piece generated (counting from 0). */
    function Drawn(n: nat): Piece
      requires IsTable(shapes)
    {
      Spawned(KindAt(random(n)))
    }

    function Stats(): Counters
      reads this`score, this`lines, this`level, this`dropInterval
    {
      Counters(score, lines, level, dropInterval)
    }

    /** What holds between any two operations. */
    ghost predicate Valid()
      requires IsTable(shapes)
      reads this`board, this`current, this`next, this`held, this`gameOver
      reads this`score, this`lines, this`level, this`dropInterval
    {
      Playable(shapes, board, current, next, held, Stats()) && !gameOver
    }

    /** The current piece overlaps no locked cell and no wall. */
    ghost predicate Settled()
      reads this`board, this`current
    {
      !Collides(board, current)
    }

    /** Everything but the current piece and the drop timer. */
    function Rest(): RestState
      reads this`board, this`next, this`held, this`canHold, this`paused, this`gameOver, this`draws
      reads this`score, this`lines, this`level, this`dropInterval
    {
      RestState(board, next, held, canHold, Stats(), paused, gameOver, draws)
    }

    /** The state reset() leaves, apart from the current piece, when n pieces
        had been generated before it and the pause flag was `paused`. */
    function FreshRest(n: nat, paused: bool): RestState
      requires IsTable(shapes)
    {
      RestState(EmptyBoard(), Drawn(n + 1), None, true, Initial, paused, false, n + 2)
    }

    /** Nothing but the current piece changed. */
    twostate predicate OnlyCurrentChanged()
      reads this
    {
      Rest() == old(Rest()) && dropCounter == old(dropCounter) && lastTime == old(lastTime)
    }

    /** The outcome of promoting r's next piece: a new next piece is drawn
        and hold is re-enabled; when the promoted piece collides on r's board,
        the game is reset instead (with two further draws). */
    ghost predicate PromotedFrom(r: RestState)
      requires IsTable(shapes)
      reads this`board, this`current, this`next, this`held, this`canHold, this`paused, this`gameOver, this`draws
      reads this`score, this`lines, this`level, this`dropInterval
    {
      if !Collides(r.board, r.next) then
        && current == r.next
        && Rest() == r.(next := Drawn(r.draws), canHold := true, draws := r.draws + 1)
      else
        && current == Drawn(r.draws + 1)
        && Rest() == FreshRest(r.draws + 1, r.paused)
    }

    /** The outcome of locking piece p over the state r: p is merged into r's
        board, the full rows are cleared and scored, and r's next piece is
        promoted over that board. */
    ghost predicate LockedFrom(r: RestState, p: Piece)
      requires IsTable(shapes)
      reads this`board, this`current, this`next, this`held, this`canHold, this`paused, this`gameOver, this`draws
      reads this`score, this`lines, this`level, this`dropInterval
    {
      var merged := Merged(r.board, p);
      PromotedFrom(r.(board := Cleared(merged), stats := Award(r.stats, CountFull(merged))))
    }

    /** The outcome of drop() on piece p over the state r: one row down if
        that is free, otherwise p is locked; the drop timer is zeroed in
        either case. */
    ghost predicate DroppedFrom(r: RestState, p: Piece)
      requires IsTable(shapes)
      reads this
    {
      && dropCounter == 0
      && if Collides(r.board, p.(y := p.y + 1)) then LockedFrom(r, p)
         else current == p.(y := p.y + 1) && Rest() == r
    }

    /** The outcome of hold() with current piece c over the state r: the
        new rest of the state and the new current piece. */
    function AfterHold(r: RestState, c: Piece): (RestState, Piece)
      requires IsTable(shapes)
    {
      if !r.canHold then (r, c)
      else if r.held.None? then
        (r.(next := Drawn(r.draws), held := Some(HeldPiece(c.kind, shapes[c.kind])), canHold := false, draws := r.draws + 1),
         r.next)
      else
        (r.(held := Some(HeldPiece(c.kind, shapes[c.kind])), canHold := false), Spawned(r.held.value.kind))
    }

    constructor (random: nat -> PieceIndex)
      ensures IsTable(shapes) && Valid() && Settled()
      ensures board == EmptyBoard() && Stats() == Initial
      ensures current == Drawn(0) && next == Drawn(1) && draws == 2
      ensures held == None && canHold && !paused && !gameOver
      ensures dropCounter == 0 && lastTime == 0
      ensures this.random == random && shapes == Canonical
    {
      shapes := Canonical;
      CanonicalIsTable();
      board := EmptyBoard();
      score, lines, level := 0, 0, 1;
      gameOver, paused := false, false;
      this.random := random;
      var k0, k1 := KindAt(random(0)), KindAt(random(1));
      current := Spawn(k0, Canonical[k0]);
      next := Spawn(k1, Canonical[k1]);
      draws := 2;
      held := None;
      canHold := true;
      lastTime, dropCounter, dropInterval := 0, 0, 1000;
      new;
      FreshGame(shapes, k0, k1);
      ghost var r, c := Rest(), current;
      Tick(0);
      assert Rest() == r && current == c;
    }

    /** generatePiece(), with Math.random replaced by the next value of the
        random source. */
    method Draw() returns (p: Piece)
      requires IsTable(shapes)
      modifies this`draws
      ensures p == Drawn(old(draws)) && draws == old(draws) + 1
    {
      p := Drawn(draws);
      draws := draws + 1;
    }

    /** collide(): scans the shape row by row for a filled cell on a blocked
        board position. */
    method Collide() returns (hit: bool)
      ensures hit == Collides(board, current)
    {
      var p := current;
      for i := 0 to |p.shape|
        invariant forall i', j :: 0 <= i' < i && 0 <= j < |p.shape[i']| && p.shape[i'][j] ==>
          !Blocked(board, p.y + i', p.x + j)
      {
        for j := 0 to |p.shape[i]|
          invariant forall j' :: 0 <= j' < j && p.shape[i][j'] ==> !Blocked(board, p.y + i, p.x + j')
        {
          if p.shape[i][j] && Blocked(board, p.y + i, p.x + j) {
            return true;
          }
        }
      }
      return false;
    }

    /** rotate(): turn clockwise, and turn back if the result collides. */
    method Rotate()
      requires IsTable(shapes) && Valid()
      modifies this`current
      ensures Valid() && OnlyCurrentChanged()
      ensures current == Turned(old(board), old(current))
      ensures old(Settled()) ==> Settled()
    {
      var original := current;
      current := current.(shape := Rotated(current.shape));
      var hit := Collide();
      if hit {
        current := original;
      } else {
        FreeIsInGrid(board, current);
        RotatedKeepsCells(original.shape);
      }
    }

    /** merge(): write the piece's kind into every cell under a filled cell
        of its shape. */
    method Merge()
      requires IsBoard(board) && InGrid(board, current)
      modifies this`board
      ensures board == Merged(old(board), current)
    {
      var p := current;
      for i := 0 to |p.shape|
        invariant |board| == |old(board)|
        invariant forall r :: 0 <= r < |board| ==> |board[r]| == |old(board)[r]|
        invariant forall r, c :: 0 <= r < |board| && 0 <= c < |board[r]| ==>
          board[r][c] == if Covers(p, r, c) && r - p.y < i then Block(p.kind) else old(board)[r][c]
      {
        for j := 0 to |p.shape[i]|
          invariant |board| == |old(board)|
          invariant forall r :: 0 <= r < |board| ==> |board[r]| == |old(board)[r]|
          invariant forall r, c :: 0 <= r < |board| && 0 <= c < |board[r]| ==>
            board[r][c] == if Covers(p, r, c) && (r - p.y < i || (r - p.y == i && c - p.x < j))
                           then Block(p.kind) else old(board)[r][c]
        {
          if p.shape[i][j] {
            var r, c := p.y + i, p.x + j;
            board := board[r := board[r][c := Block(p.kind)]];
          }
        }
      }
      ghost var m := Merged(old(board), p);
      forall r | 0 <= r < |board| ensures board[r] == m[r] {
        assert |board[r]| == |m[r]|;
      }
    }

    /** clearLines(): scan from the bottom row up; a full row is cut out and an
        emptied row is put on top, and the same index is examined again, since
        the row above has moved into it. Then the counters are updated. */
    method ClearLines()
      requires IsBoard(board)
      modifies this`board, this`score, this`lines, this`level, this`dropInterval
      ensures board == Cleared(old(board))
      ensures Stats() == Award(old(Stats()), CountFull(old(board)))
    {
      ghost var b0 := board;
      var cleared := 0;
      // b0[..m] are the rows not yet examined; they sit below `cleared`
      // emptied rows and above the rows already kept.
      ghost var m := |board|;
      ScanEnds(b0, 0);
      var y := |board| - 1;
      while y >= 0
        modifies this`board
        invariant 0 <= m <= |b0| && -1 <= y
        invariant y + 1 <= cleared + m && (m > 0 ==> y + 1 == cleared + m)
        invariant cleared == CountFull(b0[m..])
        invariant board == ScanBoard(b0, m, cleared)
        decreases y + 1 + m
      {
        ScanRow(b0, m, cleared, y);
        var x := 0;
        while x < |board[y]| && board[y][x] != Empty
          invariant 0 <= x <= |board[y]|
          invariant forall k :: 0 <= k < x ==> board[y][k] != Empty
        {
          x := x + 1;
        }
        if x < |board[y]| {
          if m > 0 {
            ScanKeeps(b0, m, cleared);
            m := m - 1;
          }
          y := y - 1;
        } else {
          // an emptied row is never full, so this row is unexamined
          assert board[y][0] != Empty;
          assert m > 0;
          var row := seq(|board[y]|, _ => Empty);
          ScanClears(b0, m, cleared, row);
          board := [row] + board[..y] + board[y + 1..];
          cleared := cleared + 1;
          m := m - 1;
        }
      }
      ScanEnds(b0, cleared);
      assert cleared == CountFull(old(board));
      if cleared > 0 {
        lines := lines + cleared;
        score := score + cleared * 100 * level;
        level := LevelFor(lines);
        dropInterval := IntervalFor(level);
      }
    }

    /** drop(): one row down; if that collides, the piece is locked where it
        was. The drop timer is zeroed in every case; zeroing it before the
        lock rather than after changes nothing, since no step of the lock
        reads or writes it. */
    method Drop()
      requires IsTable(shapes) && Valid()
      modifies this
      ensures Valid() && Settled()
      ensures DroppedFrom(old(Rest()), old(current))
      ensures lastTime == old(lastTime)
    {
      ghost var r, p := Rest(), current;
      current := current.(y := current.y + 1);
      var hit := Collide();
      if hit {
        current := current.(y := current.y - 1);
        dropCounter := 0;
        assert Rest() == r && current == p;
        Lock();
      } else {
        FreeIsInGrid(board, current);
        dropCounter := 0;
      }
    }

    /** drop()'s locking branch: merge(), clearLines(), then the promotion of
        the next piece. */
    method Lock()
      requires IsTable(shapes) && Valid()
      modifies this
      ensures Valid() && Settled()
      ensures LockedFrom(old(Rest()), old(current))
      ensures dropCounter == old(dropCounter) && lastTime == old(lastTime)
    {
      ghost var r, p := Rest(), current;
      MergeAndClear();
      ghost var merged := Merged(r.board, p);
      assert Rest() == r.(board := Cleared(merged), stats := Award(r.stats, CountFull(merged)));
      Promote();
    }

    /** The start of drop()'s locking branch: merge(), then clearLines(). */
    method MergeAndClear()
      requires IsTable(shapes) && Valid()
      modifies this`board, this`score, this`lines, this`level, this`dropInterval
      ensures Valid()
      ensures board == Cleared(Merged(old(board), current))
      ensures Stats() == Award(old(Stats()), CountFull(Merged(old(board), current)))
    {
      MergedIsBoard(board, current);
      ClearedIsBoard(Merged(board, current));
      Merge();
      ClearLines();
    }

    /** The rest of drop()'s locking branch: promote the next piece, draw a
        new next piece, re-enable hold, and when the promoted piece collides
        signal game over and reset. */
    method Promote()
      requires IsTable(shapes) && Valid()
      modifies this
      ensures Valid() && Settled()
      ensures PromotedFrom(old(Rest()))
      ensures dropCounter == old(dropCounter) && lastTime == old(lastTime)
    {
      ghost var r := Rest();
      current := next;
      next := Draw();
      canHold := true;
      SpawnInGrid(board, current.kind, shapes[current.kind]);
      var hit := Collide();
      if hit {
        gameOver := true;
        ghost var d := draws;
        assert d == r.draws + 1 && paused == r.paused;
        Reset();
      } else {
        assert Rest() == r.(next := Drawn(r.draws), canHold := true, draws := r.draws + 1);
      }
    }

    /** move(dir): shift, and shift back if the result collides. */
    method Move(dir: int)
      requires IsTable(shapes) && Valid()
      modifies this`current
      ensures Valid() && OnlyCurrentChanged()
      ensures current == Moved(old(board), old(current), dir)
      ensures old(Settled()) ==> Settled()
    {
      current := current.(x := current.x + dir);
      var hit := Collide();
      if hit {
        current := current.(x := current.x - dir);
      } else {
        FreeIsInGrid(board, current);
      }
    }

    /** hold(): once per piece; the first hold stashes the current kind and
        promotes the next piece, later holds swap the current kind with the
        held one, which re-enters at the spawn position. */
    method Hold()
      requires IsTable(shapes) && Valid()
      modifies this
      ensures Valid() && (Rest(), current) == AfterHold(old(Rest()), old(current))
      ensures dropCounter == old(dropCounter) && lastTime == old(lastTime)
    {
      if !canHold {
        return;
      }
      if held.None? {
        var stashed := HeldPiece(current.kind, shapes[current.kind]);
        var promoted := next;
        var drawn := Draw();
        SpawnInGrid(board, promoted.kind, shapes[promoted.kind]);
        held, current, next, canHold := Some(stashed), promoted, drawn, false;
      } else {
        var displaced := HeldPiece(current.kind, shapes[current.kind]);
        var back := Piece(held.value.kind, held.value.shape, SpawnX(held.value.shape), 0);
        SpawnInGrid(board, back.kind, back.shape);
        held, current, canHold := Some(displaced), back, false;
      }
    }

    /** The descent of the hard drop: `while (!collide()) y++`. */
    method Descend()
      requires IsTable(shapes) && Valid()
      modifies this`current
      ensures current == FirstHit(board, old(current))
    {
      var hit := Collide();
      while !hit
        invariant current == old(current).(y := current.y) && current.y >= old(current).y
        invariant FirstHit(board, current) == FirstHit(board, old(current))
        invariant hit == Collides(board, current)
        decreases |board| - current.y
      {
        if current.y >= |board| {
          CollidesBelowFloor(board, current);
        }
        current := current.(y := current.y + 1);
        hit := Collide();
      }
    }

    /** The hard drop of the key handler: descend while the piece does not
        collide, back off one row, then drop(). That drop always locks.
        When the piece already collides where it is (possible only right
        after a hold), backing off can lift a filled cell above the top row,
        and merge() then fails on a row that does not exist, before writing
        any cell and before drop() zeroes the timer. This is reported as
        `thrown`: the piece is left one row up and nothing else changes. */
    method HardDrop() returns (thrown: bool)
      requires IsTable(shapes) && Valid()
      modifies this
      ensures thrown <==> !InGrid(old(board), Resting(old(board), old(current)))
      ensures thrown ==>
        current == Resting(old(board), old(current)) && Rest() == old(Rest())
        && dropCounter == old(dropCounter) && lastTime == old(lastTime)
      ensures !thrown ==> Valid() && Settled() && lastTime == old(lastTime) && dropCounter == 0
      ensures !thrown ==> LockedFrom(old(Rest()), Resting(old(board), old(current)))
      ensures old(Settled()) ==> !thrown
    {
      ghost var r, start := Rest(), current;
      Descend();
      assert Rest() == r;
      var top := current;
      FirstHitAbove(board, start);
      var resting := top.(y := top.y - 1);
      assert resting == Resting(r.board, start);
      current := resting;
      if !InGrid(board, resting) {
        return true;
      }
      assert Rest() == r && resting.(y := resting.y + 1) == top;
      Drop();
      assert LockedFrom(old(Rest()), Resting(old(board), old(current)));
      return false;
    }

    /** togglePause(): flip the flag (the icon swap is display only). */
    method TogglePause()
      modifies this`paused
      ensures paused == !old(paused)
    {
      paused := !paused;
    }

    /** reset(): a fresh game. The pause flag and the drop timer are kept. */
    method Reset()
      requires IsTable(shapes)
      modifies this
      ensures Valid() && Settled()
      ensures current == Drawn(old(draws))
      ensures Rest() == FreshRest(old(draws), old(paused))
      ensures dropCounter == old(dropCounter) && lastTime == old(lastTime)
    {
      ghost var n := draws;
      var first := Draw();
      var second := Draw();
      FreshGame(shapes, first.kind, second.kind);
      board, current, next, held, canHold := EmptyBoard(), first, second, None, true;
      score, lines, level, dropInterval, gameOver := 0, 0, 1, 1000, false;
      assert Rest() == FreshRest(n, paused);
    }

    /** One frame of gameLoop(time): account the elapsed time unless paused,
        and drop once the accumulated time exceeds the interval. */
    method Tick(time: int)
      requires IsTable(shapes) && Valid()
      modifies this
      ensures Valid() && lastTime == time
      ensures var counter := old(dropCounter) + (time - old(lastTime));
        if old(paused) then dropCounter == old(dropCounter) && current == old(current) && Rest() == old(Rest())
        else if counter > old(dropInterval) then DroppedFrom(old(Rest()), old(current))
        else dropCounter == counter && current == old(current) && Rest() == old(Rest())
      ensures old(Settled()) ==> Settled()
    {
      var deltaTime := time - lastTime;
      lastTime := time;
      if !paused {
        dropCounter := dropCounter + deltaTime;
        if dropCounter > dropInterval {
          Drop();
        }
      }
    }

    /** handleKeyPress(): nothing while paused or over; otherwise one command
        per key code, other keys ignored. */
    method HandleKey(key: int) returns (thrown: bool)
      requires IsTable(shapes) && Valid()
      modifies this
      ensures !thrown ==> Valid()
      ensures old(paused) || old(gameOver) ==> unchanged(this) && !thrown
      ensures !old(paused) && key == LeftKey ==> current == Moved(old(board), old(current), -1) && OnlyCurrentChanged()
      ensures !old(paused) && key == RightKey ==> current == Moved(old(board), old(current), 1) && OnlyCurrentChanged()
      ensures !old(paused) && key == UpKey ==> current == Turned(old(board), old(current)) && OnlyCurrentChanged()
      ensures !old(paused) && key == DownKey ==> DroppedFrom(old(Rest()), old(current)) && lastTime == old(lastTime)
      ensures !old(paused) && key == SpaceKey ==>
          (thrown <==> !InGrid(old(board), Resting(old(board), old(current))))
          && (!thrown ==> LockedFrom(old(Rest()), Resting(old(board), old(current))) && dropCounter == 0 && lastTime == old(lastTime))
      ensures !old(paused) && key == HoldKey ==> (Rest(), current) == AfterHold(old(Rest()), old(current)) && dropCounter == old(dropCounter) && lastTime == old(lastTime)
      ensures !old(paused) && key == PauseKey ==>
        (paused && current == old(current) && board == old(board)
         && next == old(next) && held == old(held) && canHold == old(canHold) && Stats() == old(Stats())
         && dropCounter == old(dropCounter) && lastTime == old(lastTime) && draws == old(draws))
      ensures key !in {LeftKey, RightKey, UpKey, DownKey, SpaceKey, HoldKey, PauseKey} ==> unchanged(this)
      ensures thrown ==>
        key == SpaceKey && current == Resting(old(board), old(current)) && Rest() == old(Rest())
        && dropCounter == old(dropCounter) && lastTime == old(lastTime)
      ensures old(Settled()) && key != HoldKey ==> Settled() && !thrown
    {
      thrown := false;
      if gameOver || paused {
        return;
      }
      if key == LeftKey {
        Move(-1);
      } else if key == RightKey {
        Move(1);
      } else if key == DownKey {
        Drop();
      } else if key == UpKey {
        Rotate();
      } else if key == SpaceKey {
        thrown := HardDrop();
      } else if key == HoldKey {
        Hold();
      } else if key == PauseKey {
        TogglePause();
      }
    }
  }
}
