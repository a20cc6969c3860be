/**
  Model of complexity-visualization/evarr.py: nearest-neighbour 2x upsampling
  of a two-dimensional array (`x2`) and the stack of repeatedly blurred layers
  (`zoomstack`). The blur `zoom` itself is a parameter of the model, of which
  only one property is assumed: it keeps the shape of its input.
 */
module Evarr {
  import opened Grids

  // ---------------------------------------------------------------------------
  // x2: nearest-neighbour replication by a factor of two on both axes
  // ---------------------------------------------------------------------------

  /** Every element of `s` written twice in a row. */
  function Double<T>(s: seq<T>): (d: seq<T>)
    ensures |d| == 2 * |s|
  {
    if s == [] then [] else [s[0], s[0]] + Double(s[1..])
  }

  /** Position `i` of the doubled sequence holds element `i / 2` of the original. */
  lemma {:induction false} DoubleAt<T>(s: seq<T>, i: nat)
    requires i < 2 * |s|
    ensures Double(s)[i] == s[i / 2]
  {
    if i >= 2 {
      DoubleAt(s[1..], i - 2);
      assert Double(s)[i] == Double(s[1..])[i - 2];
    }
  }

  /**
    The 2x magnification of a grid, defined by replication: every cell is
    doubled along its row, then every row is doubled.
   */
  function Upsample(g: Grid): (u: Grid)
    requires g.Valid()
    ensures u.Valid()
    ensures u.height == 2 * g.height && u.width == 2 * g.width
  {
    var wide := seq(g.height, r requires 0 <= r < g.height => Double(g.rows[r]));
    assert forall r :: 0 <= r < 2 * g.height ==> Double(wide)[r] == wide[r / 2] by {
      forall r | 0 <= r < 2 * g.height
        ensures Double(wide)[r] == wide[r / 2]
      {
        DoubleAt(wide, r);
      }
    }
    Grid(2 * g.height, 2 * g.width, Double(wide))
  }

  /** Closed form: cell `[r, c]` of the magnified grid is cell `[r / 2, c / 2]` of the input. */
  lemma UpsampleAt(g: Grid, r: nat, c: nat)
    requires g.Valid() && r < 2 * g.height && c < 2 * g.width
    ensures Upsample(g).At(r, c) == g.At(r / 2, c / 2)
  {
    var wide := seq(g.height, i requires 0 <= i < g.height => Double(g.rows[i]));
    DoubleAt(wide, r);
    DoubleAt(g.rows[r / 2], c);
  }

  /** Each input cell `[i, j]` fills the 2x2 block at rows 2i..2i+1 and columns 2j..2j+1. */
  lemma UpsampleBlock(g: Grid, i: nat, j: nat)
    requires g.Valid() && i < g.height && j < g.width
    ensures Upsample(g).At(2 * i, 2 * j) == g.At(i, j)
    ensures Upsample(g).At(2 * i + 1, 2 * j) == g.At(i, j)
    ensures Upsample(g).At(2 * i, 2 * j + 1) == g.At(i, j)
    ensures Upsample(g).At(2 * i + 1, 2 * j + 1) == g.At(i, j)
  {
    UpsampleAt(g, 2 * i, 2 * j);
    UpsampleAt(g, 2 * i + 1, 2 * j);
    UpsampleAt(g, 2 * i, 2 * j + 1);
    UpsampleAt(g, 2 * i + 1, 2 * j + 1);
  }

  /** The worked example [[1, 2], [3, 4]] magnifies to a 4x4 grid of 2x2 blocks. */
  lemma UpsampleExample()
    ensures Upsample(Grid(2, 2, [[1.0, 2.0], [3.0, 4.0]]))
         == Grid(4, 4, [[1.0, 1.0, 2.0, 2.0],
                        [1.0, 1.0, 2.0, 2.0],
                        [3.0, 3.0, 4.0, 4.0],
                        [3.0, 3.0, 4.0, 4.0]])
  {
    var g := Grid(2, 2, [[1.0, 2.0], [3.0, 4.0]]);
    var e := Grid(4, 4, [[1.0, 1.0, 2.0, 2.0],
                         [1.0, 1.0, 2.0, 2.0],
                         [3.0, 3.0, 4.0, 4.0],
                         [3.0, 3.0, 4.0, 4.0]]);
    forall r, c | 0 <= r < 4 && 0 <= c < 4
      ensures Upsample(g).At(r, c) == e.At(r, c)
    {
      UpsampleAt(g, r, c);
    }
    GridExt(Upsample(g), e);
  }

  /**
    `x2`: allocates a zero-filled array of twice the rows and twice the columns,
    then copies each input cell into its 2x2 block, row pair by row pair.
    The input is not modified (the method modifies nothing that existed before).
   */
  method X2(arr: array2<real>) returns (out: array2<real>)
    ensures fresh(out)
    ensures out.Length0 == 2 * arr.Length0 && out.Length1 == 2 * arr.Length1
    ensures forall r, c :: 0 <= r < out.Length0 && 0 <= c < out.Length1 ==> out[r, c] == arr[r / 2, c / 2]
    ensures Cells(out) == Upsample(Cells(arr))
  {
    var h, w := arr.Length0, arr.Length1;
    out := new real[h * 2, w * 2]((r, c) => 0.0);
    for i := 0 to h
      invariant forall r, c :: 0 <= r < 2 * i && 0 <= c < 2 * w ==> out[r, c] == arr[r / 2, c / 2]
      invariant forall r, c :: 2 * i <= r < 2 * h && 0 <= c < 2 * w ==> out[r, c] == 0.0
    {
      for j := 0 to w
        invariant forall r, c :: 0 <= r < 2 * i && 0 <= c < 2 * w ==> out[r, c] == arr[r / 2, c / 2]
        invariant forall r, c :: 2 * i <= r < 2 * i + 2 && 0 <= c < 2 * j ==> out[r, c] == arr[r / 2, c / 2]
        invariant forall r, c :: 2 * i <= r < 2 * i + 2 && 2 * j <= c < 2 * w ==> out[r, c] == 0.0
        invariant forall r, c :: 2 * i + 2 <= r < 2 * h && 0 <= c < 2 * w ==> out[r, c] == 0.0
      {
        out[i * 2, j * 2] := arr[i, j];
        out[i * 2 + 1, j * 2] := arr[i, j];
        out[i * 2, j * 2 + 1] := arr[i, j];
        out[i * 2 + 1, j * 2 + 1] := arr[i, j];
      }
    }
    forall r, c | 0 <= r < 2 * h && 0 <= c < 2 * w
      ensures Cells(out).At(r, c) == Upsample(Cells(arr)).At(r, c)
    {
      UpsampleAt(Cells(arr), r, c);
    }
    GridExt(Cells(out), Upsample(Cells(arr)));
  }

  // ---------------------------------------------------------------------------
  // zoomstack: the layers arr, zoom(arr), zoom(zoom(arr)), ... stacked on axis 2
  // ---------------------------------------------------------------------------

  /** The property assumed of `zoom`: a "same"-mode convolution keeps the shape. */
  ghost predicate PreservesShape(zoom: Grid -> Grid) {
    forall g: Grid :: g.Valid() ==>
      zoom(g).Valid() && zoom(g).height == g.height && zoom(g).width == g.width
  }

  /** `zoom` applied `n` times to `g`, the last application outermost. */
  function Iterate(zoom: Grid -> Grid, g: Grid, n: nat): Grid
  {
    if n == 0 then g else zoom(Iterate(zoom, g, n - 1))
  }

  /** Every layer has the input's shape, given that `zoom` keeps shapes. */
  lemma {:induction false} IterateShape(zoom: Grid -> Grid, g: Grid, n: nat)
    requires PreservesShape(zoom) && g.Valid()
    ensures Iterate(zoom, g, n).Valid()
    ensures Iterate(zoom, g, n).height == g.height && Iterate(zoom, g, n).width == g.width
  {
    if n > 0 {
      IterateShape(zoom, g, n - 1);
    }
  }

  /** The layer recurrence composes: `n` zooms applied to layer `m` give layer `m + n`. */
  lemma {:induction false} IterateCompose(zoom: Grid -> Grid, g: Grid, m: nat, n: nat)
    ensures Iterate(zoom, Iterate(zoom, g, m), n) == Iterate(zoom, g, m + n)
  {
    if n > 0 {
      IterateCompose(zoom, g, m, n - 1);
    }
  }

  /** Layers of one shape stacked on a new trailing axis: cell `[r, c, i]` is cell `[r, c]` of layer `i`. */
  function Stack(layers: seq<Grid>): (v: Volume)
    requires |layers| > 0
    requires forall i :: 0 <= i < |layers| ==>
      layers[i].Valid() && layers[i].height == layers[0].height && layers[i].width == layers[0].width
    ensures v.Valid()
    ensures v.height == layers[0].height && v.width == layers[0].width && v.depth == |layers|
  {
    var h, w := layers[0].height, layers[0].width;
    Volume(h, w, |layers|,
      seq(h, r requires 0 <= r < h =>
        seq(w, c requires 0 <= c < w =>
          seq(|layers|, i requires 0 <= i < |layers| => layers[i].At(r, c)))))
  }

  /** The layer `v[:, :, i]` of a volume. */
  function Slice(v: Volume, i: nat): (g: Grid)
    requires v.Valid() && i < v.depth
    ensures g.Valid() && g.height == v.height && g.width == v.width
  {
    Grid(v.height, v.width,
      seq(v.height, r requires 0 <= r < v.height =>
        seq(v.width, c requires 0 <= c < v.width => v.At(r, c, i))))
  }

  /** Slicing a stack at depth `i` gives back layer `i` unchanged. */
  lemma StackSlice(layers: seq<Grid>, i: nat)
    requires |layers| > 0
    requires forall j :: 0 <= j < |layers| ==>
      layers[j].Valid() && layers[j].height == layers[0].height && layers[j].width == layers[0].width
    requires i < |layers|
    ensures Slice(Stack(layers), i) == layers[i]
  {
    var s := Slice(Stack(layers), i);
    forall r, c | 0 <= r < s.height && 0 <= c < s.width
      ensures s.At(r, c) == layers[i].At(r, c)
    {
    }
    GridExt(s, layers[i]);
  }

  /**
    `zoomstack`: starts the list of layers with the input, appends `zoom` of the
    last layer once per iteration of `range(k)` (none when `k <= 0`), then
    stacks the layers on axis 2.
   */
  method ZoomStack(zoom: Grid -> Grid, arr: Grid, k: int := 50) returns (zstack: Volume)
    requires arr.Valid()
    requires PreservesShape(zoom)
    ensures zstack.Valid()
    ensures zstack.height == arr.height && zstack.width == arr.width
    ensures zstack.depth == if k >= 0 then k + 1 else 1
    ensures Slice(zstack, 0) == arr
    ensures forall i :: 0 <= i < zstack.depth ==> Slice(zstack, i) == Iterate(zoom, arr, i)
    ensures forall i :: 1 <= i < zstack.depth ==> Slice(zstack, i) == zoom(Slice(zstack, i - 1))
  {
    var arrs := [arr];
    var i := 0;
    while i < k
      invariant 0 <= i && (i <= k || i == 0)
      invariant |arrs| == i + 1
      invariant forall j :: 0 <= j < |arrs| ==> arrs[j] == Iterate(zoom, arr, j)
    {
      arrs := arrs + [zoom(arrs[|arrs| - 1])];
      i := i + 1;
    }
    forall j | 0 <= j < |arrs|
      ensures arrs[j].Valid() && arrs[j].height == arr.height && arrs[j].width == arr.width
    {
      IterateShape(zoom, arr, j);
    }
    zstack := Stack(arrs);
    forall j | 0 <= j < |arrs|
      ensures Slice(zstack, j) == arrs[j]
    {
      StackSlice(arrs, j);
    }
  }
}
