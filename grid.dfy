/** The 20 x 10 board of locked cells, pieces placed on it, and the three
    board rules of the game: collision, locking (merge) and line clearing. */
module Grid {
  import opened Shapes

  const Rows := 20
  const Cols := 10

  /** A board cell: the source's 0, or the letter of the piece locked there. */
  datatype Cell = Empty | Block(kind: Kind)

  /** Rows from top (index 0) to bottom. */
  type Board = seq<seq<Cell>>

  predicate IsBoard(b: Board)
  {
    |b| == Rows && forall r :: 0 <= r < |b| ==> |b[r]| == Cols
  }

  function EmptyRow(): seq<Cell>
  {
    seq(Cols, _ => Empty)
  }

  function EmptyRows(n: nat): Board
  {
    seq(n, _ => EmptyRow())
  }

  function EmptyBoard(): (b: Board)
    ensures IsBoard(b)
    ensures forall r, c :: 0 <= r < |b| && 0 <= c < |b[r]| ==> b[r][c] == Empty
  {
    EmptyRows(Rows)
  }

  /** A piece: its kind, its current shape and the board position of the
      shape's top-left cell. */
  datatype Piece = Piece(kind: Kind, shape: Shape, x: int, y: int)

  /** The centred spawn column, floor(cols / 2) - floor(width / 2). */
  function SpawnX(s: Shape): (x: int)
    requires |s| > 0
    ensures |s[0]| <= Cols ==> 0 <= x && x + |s[0]| <= Cols
  {
    Cols / 2 - |s[0]| / 2
  }

  /** A fresh piece of kind k with shape s, centred, in row 0. */
  function Spawn(k: Kind, s: Shape): Piece
    requires |s| > 0
  {
    Piece(k, s, SpawnX(s), 0)
  }

  /** A board position a filled cell cannot take: a row that does not exist
      (including every row above the top), a column outside the row, or a
      locked cell. */
  predicate Blocked(b: Board, r: int, c: int)
  {
    !(0 <= r < |b| && 0 <= c < |b[r]|) || b[r][c] != Empty
  }

  /** Some filled cell of the piece's shape, offset by its position, is blocked. */
  predicate Collides(b: Board, p: Piece)
  {
    exists i, j :: 0 <= i < |p.shape| && 0 <= j < |p.shape[i]| && p.shape[i][j] && Blocked(b, p.y + i, p.x + j)
  }

  /** Every filled cell of the piece lies on the board (locked or not). */
  predicate InGrid(b: Board, p: Piece)
  {
    forall i, j :: 0 <= i < |p.shape| && 0 <= j < |p.shape[i]| && p.shape[i][j] ==>
      0 <= p.y + i < |b| && 0 <= p.x + j < |b[p.y + i]|
  }

  lemma FreeIsInGrid(b: Board, p: Piece)
    requires !Collides(b, p)
    ensures InGrid(b, p)
  {
  }

  /** A piece with a filled cell collides once it is at or below the floor. */
  lemma CollidesBelowFloor(b: Board, p: Piece)
    requires HasFilledCell(p.shape) && p.y >= |b|
    ensures Collides(b, p)
  {
    FilledCellWitness(p.shape);
    var i, j :| 0 <= i < |p.shape| && 0 <= j < |p.shape[i]| && p.shape[i][j];
    assert Blocked(b, p.y + i, p.x + j);
  }

  /** A spawned shape that fits the board's size lies inside any 20 x 10
      board ... */
  lemma SpawnInGrid(b: Board, k: Kind, s: Shape)
    requires IsBoard(b) && IsMatrix(s) && |s| <= Rows && |s[0]| <= Cols
    ensures InGrid(b, Spawn(k, s))
  {
    var p := Spawn(k, s);
    forall i, j | 0 <= i < |s| && 0 <= j < |s[i]| && s[i][j]
      ensures 0 <= p.y + i < |b| && 0 <= p.x + j < |b[p.y + i]|
    {
      assert |s[i]| == |s[0]|;
    }
  }

  /** ... so on an empty board it never collides. */
  lemma SpawnFree(k: Kind, s: Shape)
    requires IsMatrix(s) && |s| <= Rows && |s[0]| <= Cols
    ensures !Collides(EmptyBoard(), Spawn(k, s))
  {
    SpawnInGrid(EmptyBoard(), k, s);
  }

  /** move(dir): the shifted piece if it does not collide, else the piece
      unchanged. */
  function Moved(b: Board, p: Piece, dir: int): (q: Piece)
    ensures q.kind == p.kind && q.shape == p.shape && q.y == p.y
    ensures if Collides(b, p.(x := p.x + dir)) then q == p else q.x == p.x + dir
    ensures !Collides(b, p) ==> !Collides(b, q)
  {
    var t := p.(x := p.x + dir);
    if Collides(b, t) then p else t
  }

  /** rotate(): the clockwise turn if it does not collide, else the piece
      unchanged. */
  function Turned(b: Board, p: Piece): (q: Piece)
    requires IsMatrix(p.shape)
    ensures q.kind == p.kind && q.x == p.x && q.y == p.y
    ensures if Collides(b, p.(shape := Rotated(p.shape))) then q == p else q.shape == Rotated(p.shape)
    ensures !Collides(b, p) ==> !Collides(b, q)
    ensures IsShape(p.shape) ==> IsShape(q.shape)
  {
    RotatedKeepsCells(p.shape);
    var t := p.(shape := Rotated(p.shape));
    if Collides(b, t) then p else t
  }

  /** Where the hard-drop descent stops: the first row at or below p.y at
      which the piece collides. */
  function FirstHit(b: Board, p: Piece): (q: Piece)
    requires HasFilledCell(p.shape)
    decreases |b| - p.y
    ensures q == p.(y := q.y) && q.y >= p.y
    ensures Collides(b, q)
    ensures forall y' :: p.y <= y' < q.y ==> !Collides(b, p.(y := y'))
  {
    if Collides(b, p) then p
    else
      assert p.y < |b| by {
        if p.y >= |b| { CollidesBelowFloor(b, p); }
      }
      FirstHit(b, p.(y := p.y + 1))
  }

  /** The hard drop stops right where it starts, or one row below a
      position where the piece is free. */
  lemma FirstHitAbove(b: Board, p: Piece)
    requires HasFilledCell(p.shape)
    ensures var q := FirstHit(b, p); q == p || !Collides(b, q.(y := q.y - 1))
  {
    var q := FirstHit(b, p);
    if q != p {
      assert p.(y := q.y - 1) == q.(y := q.y - 1);
    }
  }

  /** Where the hard drop puts the piece: one row above its first hit. */
  function Resting(b: Board, p: Piece): (q: Piece)
    requires HasFilledCell(p.shape)
    ensures q == p.(y := q.y) && q.y >= p.y - 1
    ensures Collides(b, q.(y := q.y + 1))
  {
    var top := FirstHit(b, p);
    top.(y := top.y - 1)
  }

  /** The board cell (r, c) lies under a filled cell of the piece. */
  predicate Covers(p: Piece, r: int, c: int)
  {
    0 <= r - p.y < |p.shape| && 0 <= c - p.x < |p.shape[r - p.y]| && p.shape[r - p.y][c - p.x]
  }

  /** merge(): the piece's kind written into every covered cell. */
  function Merged(b: Board, p: Piece): (m: Board)
    ensures |m| == |b| && forall r :: 0 <= r < |b| ==> |m[r]| == |b[r]|
  {
    seq(|b|, r requires 0 <= r < |b| =>
      seq(|b[r]|, c requires 0 <= c < |b[r]| => if Covers(p, r, c) then Block(p.kind) else b[r][c]))
  }

  /** After a merge the filled cells of the shape are locked with the piece's
      kind, every other cell keeps its value, no locked cell was cleared, and
      the piece now collides where it is. */
  lemma MergedLocksPiece(b: Board, p: Piece)
    requires InGrid(b, p)
    ensures forall i, j :: 0 <= i < |p.shape| && 0 <= j < |p.shape[i]| && p.shape[i][j] ==>
      Merged(b, p)[p.y + i][p.x + j] == Block(p.kind)
    ensures forall r, c :: 0 <= r < |b| && 0 <= c < |b[r]| && !Covers(p, r, c) ==> Merged(b, p)[r][c] == b[r][c]
    ensures forall r, c :: 0 <= r < |b| && 0 <= c < |b[r]| && b[r][c] != Empty ==> Merged(b, p)[r][c] != Empty
    ensures HasFilledCell(p.shape) ==> Collides(Merged(b, p), p)
  {
    var m := Merged(b, p);
    forall i, j | 0 <= i < |p.shape| && 0 <= j < |p.shape[i]| && p.shape[i][j]
      ensures m[p.y + i][p.x + j] == Block(p.kind)
    {
      assert Covers(p, p.y + i, p.x + j);
    }
    if HasFilledCell(p.shape) {
      FilledCellWitness(p.shape);
      var i, j :| 0 <= i < |p.shape| && 0 <= j < |p.shape[i]| && p.shape[i][j];
      assert Blocked(m, p.y + i, p.x + j);
    }
  }

  lemma MergedIsBoard(b: Board, p: Piece)
    requires IsBoard(b)
    ensures IsBoard(Merged(b, p))
  {
  }

  /** A row with no empty cell. */
  predicate IsFull(row: seq<Cell>)
  {
    forall c :: 0 <= c < |row| ==> row[c] != Empty
  }

  /** The rows that are not full, in their original order. */
  function Incomplete(rows: Board): Board
  {
    if rows == [] then []
    else (if IsFull(rows[0]) then [] else [rows[0]]) + Incomplete(rows[1..])
  }

  function CountFull(rows: Board): nat
  {
    if rows == [] then 0
    else (if IsFull(rows[0]) then 1 else 0) + CountFull(rows[1..])
  }

  /** clearLines(): the full rows removed and as many empty rows put on top. */
  function Cleared(b: Board): Board
  {
    EmptyRows(CountFull(b)) + Incomplete(b)
  }

  /** Incomplete keeps exactly the rows that are not full, and together with
      the full ones they account for every row. */
  lemma {:induction false} IncompleteRows(rows: Board)
    ensures |Incomplete(rows)| + CountFull(rows) == |rows|
    ensures forall row :: row in Incomplete(rows) <==> row in rows && !IsFull(row)
  {
    if rows != [] {
      IncompleteRows(rows[1..]);
      assert rows == [rows[0]] + rows[1..];
    }
  }

  /** Removing full rows preserves the relative order of the remaining rows:
      it distributes over concatenation. */
  lemma {:induction false} IncompleteAppend(a: Board, b: Board)
    ensures Incomplete(a + b) == Incomplete(a) + Incomplete(b)
    ensures CountFull(a + b) == CountFull(a) + CountFull(b)
  {
    if a == [] {
      assert a + b == b;
    } else {
      assert (a + b)[0] == a[0];
      assert (a + b)[1..] == a[1..] + b;
      IncompleteAppend(a[1..], b);
    }
  }

  /** No row is counted exactly when no row is full. */
  lemma {:induction false} CountFullZero(rows: Board)
    ensures CountFull(rows) == 0 <==> forall r :: 0 <= r < |rows| ==> !IsFull(rows[r])
  {
    if rows != [] {
      CountFullZero(rows[1..]);
      assert forall r :: 1 <= r < |rows| ==> rows[r] == rows[1..][r - 1];
    }
  }

  /** A board without full rows keeps all of them. */
  lemma {:induction false} NoFullRowsKept(rows: Board)
    requires CountFull(rows) == 0
    ensures Incomplete(rows) == rows
  {
    if rows != [] {
      NoFullRowsKept(rows[1..]);
      assert rows == [rows[0]] + rows[1..];
    }
  }

  /** The board during the bottom-up scan of clearLines() over b0: n emptied
      rows on top, then the unexamined rows b0[..m], then the kept rows of
      b0[m..]. */
  function ScanBoard(b0: Board, m: nat, n: nat): Board
    requires m <= |b0|
  {
    EmptyRows(n) + b0[..m] + Incomplete(b0[m..])
  }

  /** Row y of the scan is an emptied row or the unexamined row b0[y - n]. */
  lemma ScanRow(b0: Board, m: nat, n: nat, y: int)
    requires m <= |b0| && 0 <= y < n + m
    ensures y < |ScanBoard(b0, m, n)|
    ensures ScanBoard(b0, m, n)[y] == if y < n then EmptyRow() else b0[y - n]
  {
  }

  /** A scanned row that is not full is kept: one more row counts as examined. */
  lemma ScanKeeps(b0: Board, m: nat, n: nat)
    requires 0 < m <= |b0| && !IsFull(b0[m - 1])
    ensures ScanBoard(b0, m - 1, n) == ScanBoard(b0, m, n)
    ensures CountFull(b0[m - 1..]) == CountFull(b0[m..])
  {
    assert b0[m - 1..][1..] == b0[m..];
    assert b0[..m] == b0[..m - 1] + [b0[m - 1]];
  }

  /** A scanned row that is full is cut out and the emptied row goes on top. */
  lemma ScanClears(b0: Board, m: nat, n: nat, row: seq<Cell>)
    requires 0 < m <= |b0| && IsFull(b0[m - 1])
    requires |row| == Cols && forall c :: 0 <= c < |row| ==> row[c] == Empty
    ensures var board := ScanBoard(b0, m, n);
      [row] + board[..n + m - 1] + board[n + m..] == ScanBoard(b0, m - 1, n + 1)
    ensures CountFull(b0[m - 1..]) == CountFull(b0[m..]) + 1
  {
    var board := ScanBoard(b0, m, n);
    assert b0[m - 1..][1..] == b0[m..];
    assert board[..n + m - 1] == EmptyRows(n) + b0[..m - 1];
    assert board[n + m..] == Incomplete(b0[m..]);
    assert row == EmptyRow();
    assert [EmptyRow()] + EmptyRows(n) == EmptyRows(n + 1);
  }

  /** The scan starts with every row unexamined and ends with every row
      examined. */
  lemma ScanEnds(b0: Board, n: nat)
    ensures ScanBoard(b0, |b0|, 0) == b0
    ensures ScanBoard(b0, 0, n) == EmptyRows(n) + Incomplete(b0)
  {
    assert b0[|b0|..] == [];
    assert b0[..|b0|] == b0;
    assert b0[0..] == b0;
  }

  /** Line clearing keeps a 20 x 10 board, leaves no full row, and the kept
      rows sit at the bottom below CountFull(b) empty rows. */
  lemma ClearedIsBoard(b: Board)
    requires IsBoard(b)
    ensures IsBoard(Cleared(b))
    ensures forall r :: 0 <= r < |Cleared(b)| ==> !IsFull(Cleared(b)[r])
    ensures forall r :: 0 <= r < CountFull(b) ==> Cleared(b)[r] == EmptyRow()
    ensures Cleared(b)[CountFull(b)..] == Incomplete(b)
  {
    IncompleteRows(b);
    var c := Cleared(b);
    var n := CountFull(b);
    forall r | 0 <= r < |c|
      ensures |c[r]| == Cols && !IsFull(c[r])
    {
      if r < n {
        assert c[r] == EmptyRow();
        assert c[r][0] == Empty;
      } else {
        assert c[r] == Incomplete(b)[r - n];
        assert c[r] in Incomplete(b);
      }
    }
  }

  /** Clearing twice is clearing once. */
  lemma ClearedIdempotent(b: Board)
    requires IsBoard(b)
    ensures Cleared(Cleared(b)) == Cleared(b)
  {
    ClearedIsBoard(b);
    CountFullZero(Cleared(b));
    NoFullRowsKept(Cleared(b));
  }

  /** With no full row nothing changes. */
  lemma ClearedWithoutFullRows(b: Board)
    requires CountFull(b) == 0
    ensures Cleared(b) == b
  {
    NoFullRowsKept(b);
  }
}
