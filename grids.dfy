/** Rectangular character grids given as lists of rows, and Python's
    `zip(*rows)` transpose, which stops at the shortest row. */
module Grids {
  /** A cell of a grid: column `x` of row `y`. Tiles named `x{x}y{y}` are
      keyed by their position, since that name is injective in (x, y). */
  datatype Pos = Pos(x: int, y: int)

  /** Every row is long enough to read `width` characters from. */
  predicate Rectangular(rows: seq<string>, width: nat)
  {
    forall r :: 0 <= r < |rows| ==> |rows[r]| >= width
  }

  /** The length of the shortest row: how many tuples `zip(*rows)` yields. */
  function MinLength(rows: seq<string>): (r: nat)
    requires |rows| > 0
    ensures forall i :: 0 <= i < |rows| ==> r <= |rows[i]|
  {
    if |rows| == 1 then |rows[0]|
    else
      var m := MinLength(rows[1..]);
      assert forall i :: 1 <= i < |rows| ==> m <= |rows[i]| by {
        forall i | 1 <= i < |rows| ensures m <= |rows[i]| {
          assert rows[i] == rows[1..][i - 1];
        }
      }
      if |rows[0]| <= m then |rows[0]| else m
  }

  /** The shortest row has the minimum length. */
  lemma {:induction false} MinLengthAttained(rows: seq<string>)
    requires |rows| > 0
    ensures exists i :: 0 <= i < |rows| && MinLength(rows) == |rows[i]|
  {
    if |rows| == 1 {
      assert MinLength(rows) == |rows[0]|;
    } else {
      MinLengthAttained(rows[1..]);
      var i :| 0 <= i < |rows| - 1 && MinLength(rows[1..]) == |rows[1..][i]|;
      assert rows[1..][i] == rows[i + 1];
      if MinLength(rows) != |rows[0]| {
        assert MinLength(rows) == |rows[i + 1]|;
      }
    }
  }

  /** `zip(*rows)`: column `j` holds the `j`th character of every row, for
      every `j` below the shortest row's length. */
  function Transpose(rows: seq<string>): (r: seq<string>)
    ensures rows == [] ==> r == []
    ensures rows != [] ==> |r| == MinLength(rows)
    ensures forall j, i :: 0 <= j < |r| && 0 <= i < |rows| ==> |r[j]| == |rows| && r[j][i] == rows[i][j]
  {
    if rows == [] then []
    else
      seq(MinLength(rows), j requires 0 <= j < MinLength(rows) =>
        seq(|rows|, i requires 0 <= i < |rows| => rows[i][j]))
  }

  /** A grid of `h` rows of `w` characters. */
  predicate Shape(rows: seq<string>, h: nat, w: nat)
  {
    |rows| == h && forall i :: 0 <= i < h ==> |rows[i]| == w
  }

  /** Column `j` read from top to bottom. */
  function Column(rows: seq<string>, j: nat): (r: string)
    requires forall i :: 0 <= i < |rows| ==> j < |rows[i]|
    ensures |r| == |rows|
    ensures forall i :: 0 <= i < |rows| ==> r[i] == rows[i][j]
  {
    seq(|rows|, i requires 0 <= i < |rows| => rows[i][j])
  }

  lemma {:induction false} TransposeShape(rows: seq<string>, h: nat, w: nat)
    requires Shape(rows, h, w) && h > 0
    ensures Shape(Transpose(rows), w, h)
    ensures forall j :: 0 <= j < w ==> Transpose(rows)[j] == Column(rows, j)
  {
    MinLengthAttained(rows);
  }
}
