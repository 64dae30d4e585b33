/** The seven tetromino kinds, their canonical shape table and the clockwise
    rotation of a shape matrix. */
module Shapes {

  /** The piece-type letters of the game. */
  datatype Kind = I | O | T | S | Z | J | L

  /** The draw order of the generator: the letters of "IOTSZJL". */
  const Kinds: seq<Kind> := [I, O, T, S, Z, J, L]

  /** An index into Kinds, i.e. floor(random * 7). */
  type PieceIndex = i: int | 0 <= i < 7

  function KindAt(i: PieceIndex): Kind
  {
    Kinds[i]
  }

  /** A shape matrix; `true` is a filled cell (the source's 1). */
  type Shape = seq<seq<bool>>

  /** A rectangular matrix with at least one row and one column. */
  predicate IsMatrix(s: Shape)
  {
    |s| > 0 && |s[0]| > 0 && forall i :: 0 <= i < |s| ==> |s[i]| == |s[0]|
  }

  /** The number of filled cells of a row. */
  function RowCells(row: seq<bool>): nat
  {
    if row == [] then 0 else (if row[0] then 1 else 0) + RowCells(row[1..])
  }

  /** The number of filled cells of a shape. */
  function Cells(s: Shape): nat
  {
    if s == [] then 0 else RowCells(s[0]) + Cells(s[1..])
  }

  predicate HasFilledCell(s: Shape)
  {
    Cells(s) > 0
  }

  /** A row with a positive count has a filled cell, and conversely. */
  lemma {:induction false} RowCellsPositive(row: seq<bool>)
    ensures RowCells(row) > 0 <==> exists j :: 0 <= j < |row| && row[j]
  {
    if row != [] {
      RowCellsPositive(row[1..]);
      if RowCells(row[1..]) > 0 {
        var j :| 0 <= j < |row[1..]| && row[1..][j];
        assert row[j + 1];
      }
      if !row[0] && exists j :: 0 <= j < |row| && row[j] {
        var j :| 0 <= j < |row| && row[j];
        assert row[1..][j - 1];
      }
    }
  }

  /** A shape has a filled cell exactly when its count is positive. */
  lemma {:induction false} FilledCellWitness(s: Shape)
    ensures HasFilledCell(s) <==> exists i, j :: 0 <= i < |s| && 0 <= j < |s[i]| && s[i][j]
  {
    if s != [] {
      FilledCellWitness(s[1..]);
      RowCellsPositive(s[0]);
      if Cells(s[1..]) > 0 {
        var i, j :| 0 <= i < |s[1..]| && 0 <= j < |s[1..][i]| && s[1..][i][j];
        assert s[i + 1][j];
      }
      if RowCells(s[0]) == 0 && exists i, j :: 0 <= i < |s| && 0 <= j < |s[i]| && s[i][j] {
        var i, j :| 0 <= i < |s| && 0 <= j < |s[i]| && s[i][j];
        assert i > 0;
        assert s[1..][i - 1][j];
      }
    }
  }

  /** What every shape of a live piece is. */
  predicate IsShape(s: Shape)
  {
    IsMatrix(s) && HasFilledCell(s)
  }

  /** The game's shape table: the canonical (spawn) orientation of each kind. */
  const Canonical: map<Kind, Shape> := map[
    I := [[false, false, false, false], [true, true, true, true], [false, false, false, false], [false, false, false, false]],
    O := [[true, true], [true, true]],
    T := [[false, true, false], [true, true, true], [false, false, false]],
    S := [[false, true, true], [true, true, false], [false, false, false]],
    Z := [[true, true, false], [false, true, true], [false, false, false]],
    J := [[true, false, false], [true, true, true], [false, false, false]],
    L := [[false, false, true], [true, true, true], [false, false, false]]]

  /** What the game needs of a shape table: an entry for every kind, each a
      square shape of side 2 to 4. */
  predicate IsTable(t: map<Kind, Shape>)
  {
    forall k :: k in t && IsShape(t[k]) && |t[k]| == |t[k][0]| && 2 <= |t[k]| <= 4
  }

  lemma CanonicalIsTable()
    ensures IsTable(Canonical)
  {
    forall k ensures k in Canonical && IsShape(Canonical[k]) && |Canonical[k]| == |Canonical[k][0]| && 2 <= |Canonical[k]| <= 4 {
      match k
      case I => assert Canonical[I][1][1];
      case O => assert Canonical[O][1][1];
      case T => assert Canonical[T][1][1];
      case S => assert Canonical[S][1][1];
      case Z => assert Canonical[Z][1][1];
      case J => assert Canonical[J][1][1];
      case L => assert Canonical[L][1][1];
    }
  }

  /** The clockwise quarter turn: transpose, then reverse each new row, so
      that the new cell (i, j) is the old cell (n-1-j, i), n the old height. */
  function Rotated(s: Shape): (r: Shape)
    requires IsMatrix(s)
    ensures IsMatrix(r) && |r| == |s[0]| && |r[0]| == |s|
    ensures forall i, j :: 0 <= i < |r| && 0 <= j < |r[i]| ==> r[i][j] == s[|s| - 1 - j][i]
  {
    seq(|s[0]|, i requires 0 <= i < |s[0]| =>
      seq(|s|, j requires 0 <= j < |s| => s[|s| - 1 - j][i]))
  }

  /** A turn neither adds nor loses filled cells: old (i, j) is new (j, n-1-i). */
  lemma RotatedKeepsCells(s: Shape)
    requires IsMatrix(s)
    ensures forall i, j :: 0 <= i < |s| && 0 <= j < |s[i]| ==> Rotated(s)[j][|s| - 1 - i] == s[i][j]
    ensures IsShape(s) ==> IsShape(Rotated(s))
  {
    var r := Rotated(s);
    if IsShape(s) {
      FilledCellWitness(s);
      var i, j :| 0 <= i < |s| && 0 <= j < |s[i]| && s[i][j];
      assert r[j][|s| - 1 - i];
      FilledCellWitness(r);
    }
  }

  /** Two turns give the half turn: cell (i, j) becomes (h-1-i, w-1-j). */
  lemma RotatedTwice(s: Shape)
    requires IsMatrix(s)
    ensures |Rotated(Rotated(s))| == |s|
    ensures forall i, j :: 0 <= i < |s| && 0 <= j < |s[i]| ==>
      Rotated(Rotated(s))[i][j] == s[|s| - 1 - i][|s[0]| - 1 - j]
  {
    var r := Rotated(s);
    var rr := Rotated(r);
    forall i, j | 0 <= i < |s| && 0 <= j < |s[i]|
      ensures rr[i][j] == s[|s| - 1 - i][|s[0]| - 1 - j]
    {
      assert rr[i][j] == r[|r| - 1 - j][i];
    }
  }

  /** Four turns give back the original shape. */
  lemma RotatedFourTimes(s: Shape)
    requires IsMatrix(s)
    ensures Rotated(Rotated(Rotated(Rotated(s)))) == s
  {
    var h := Rotated(Rotated(s));
    RotatedTwice(s);
    RotatedTwice(h);
    var f := Rotated(Rotated(h));
    assert |f| == |s|;
    forall i | 0 <= i < |s| ensures f[i] == s[i] {
      assert |f[i]| == |s[i]|;
      forall j | 0 <= j < |s[i]| ensures f[i][j] == s[i][j] {
        assert f[i][j] == h[|h| - 1 - i][|h[0]| - 1 - j];
      }
    }
  }
}
