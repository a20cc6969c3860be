/**
  Two- and three-dimensional numeric arrays as values. A `Grid` is an array of
  shape (height, width) stored row by row; a `Volume` is an array of shape
  (height, width, depth), the result of stacking grids on a trailing axis.
  The shape is kept explicitly so that an array of shape (0, W) still has width W.
 */
module Grids {

  datatype Grid = Grid(height: nat, width: nat, rows: seq<seq<real>>)
  {
    /** The rows agree with the shape: `height` rows of `width` cells each. */
    predicate Valid() {
      |rows| == height && forall r :: 0 <= r < height ==> |rows[r]| == width
    }

    /** The cell `[r, c]`. */
    function At(r: nat, c: nat): real
      requires Valid() && r < height && c < width
    {
      rows[r][c]
    }
  }

  datatype Volume = Volume(height: nat, width: nat, depth: nat, cells: seq<seq<seq<real>>>)
  {
    /** The nested sequences agree with the shape (height, width, depth). */
    predicate Valid() {
      |cells| == height &&
      forall r :: 0 <= r < height ==>
        |cells[r]| == width && forall c :: 0 <= c < width ==> |cells[r][c]| == depth
    }

    /** The cell `[r, c, i]`. */
    function At(r: nat, c: nat, i: nat): real
      requires Valid() && r < height && c < width && i < depth
    {
      cells[r][c][i]
    }
  }

  /** Two well-formed grids of the same shape that agree on every cell are equal. */
  lemma GridExt(a: Grid, b: Grid)
    requires a.Valid() && b.Valid()
    requires a.height == b.height && a.width == b.width
    requires forall r, c :: 0 <= r < a.height && 0 <= c < a.width ==> a.At(r, c) == b.At(r, c)
    ensures a == b
  {
    forall r | 0 <= r < a.height
      ensures a.rows[r] == b.rows[r]
    {
      assert forall c :: 0 <= c < a.width ==> a.rows[r][c] == a.At(r, c) && b.rows[r][c] == b.At(r, c);
    }
  }

  /** The contents of a two-dimensional array, as a grid of its shape. */
  ghost function Cells(a: array2<real>): (g: Grid)
    reads a
    ensures g.Valid() && g.height == a.Length0 && g.width == a.Length1
  {
    Grid(a.Length0, a.Length1,
      seq(a.Length0, r requires 0 <= r < a.Length0 reads a =>
        seq(a.Length1, c requires 0 <= c < a.Length1 reads a => a[r, c])))
  }
}
