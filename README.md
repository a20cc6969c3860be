# evarr: pixel replication and zoom stacks, in Dafny

This project models the array utilities of `complexity-visualization/evarr.py`,
a small script for exploring the visual complexity of two-dimensional arrays.

- `x2(arr)` is nearest-neighbour 2x magnification. It allocates a zero-filled
  array of shape (2H, 2W). Two nested loops then copy every input cell
  `arr[i, j]` into the 2x2 block at rows `2i..2i+1` and columns `2j..2j+1`.
  The model is the method `Evarr.X2` on Dafny's `array2<real>`. It fills a
  fresh array in place, with the same loops and the same four writes per cell.
  It is proved equal to the specification function `Evarr.Upsample`.
  `Upsample` is defined independently by replication: each cell is written
  twice along its row, then each row is written twice.
- `zoomstack(arr, k=50)` starts a list with the input. Each iteration of
  `range(k)` appends `zoom` of the last layer. The list is then stacked on a
  new trailing axis. The model is the method `Evarr.ZoomStack`, whose loop grows
  the list of layers. It is proved against `Evarr.Iterate`, which is `zoom`
  applied `n` times. `Evarr.Stack` and `Evarr.Slice` give the axis-2 indexing.
  The blur `zoom` is a parameter of type `Grid -> Grid`. Of it the model
  assumes only `PreservesShape`: a "same"-mode convolution returns an array of
  its input's shape.

Arrays that are only read or returned as values are the datatype `Grids.Grid`
of shape (height, width), and the stacked result is `Grids.Volume` of shape
(height, width, depth). The shape is kept explicitly, so an array of shape
(0, W) still has width W. Elements are `real`: `x2` and `zoomstack` only copy
elements, so no rounding is involved in what is modelled.

## Model

| member | source | states |
|---|---|---|
| `Evarr.Upsample` | complexity-visualization/evarr.py:13-14 | the magnified array is well formed with exactly twice the rows and twice the columns of the input, so it is empty when H = 0 or W = 0 |
| `Evarr.UpsampleAt` | complexity-visualization/evarr.py:14-21 | every result cell `[r, c]` equals input cell `[r / 2, c / 2]`, so no cell keeps the zero fill |
| `Evarr.UpsampleBlock` | complexity-visualization/evarr.py:16-21 | the four cells `(2i, 2j)`, `(2i+1, 2j)`, `(2i, 2j+1)` and `(2i+1, 2j+1)` all equal input cell `(i, j)` |
| `Evarr.UpsampleExample` | complexity-visualization/evarr.py:12-23 | `[[1, 2], [3, 4]]` magnifies to `[[1, 1, 2, 2], [1, 1, 2, 2], [3, 3, 4, 4], [3, 3, 4, 4]]` |
| `Evarr.X2` | complexity-visualization/evarr.py:12-23 | returns a freshly allocated array of shape (2H, 2W) whose cell `[r, c]` is `arr[r / 2, c / 2]`, equal to `Upsample` of the input; the input is not written (the method may modify nothing that existed before the call); the outer loop keeps rows `0..2i-1` final and all later rows zero |
| `Evarr.IterateShape` | complexity-visualization/evarr.py:30 | given that `zoom` keeps shapes, every layer `zoom` applied `n` times is well formed and has the input's (H, W) shape |
| `Evarr.IterateCompose` | complexity-visualization/evarr.py:36-39 | a property of the recurrence `arrs[i+1] = zoom(arrs[i])`, not a promise of the loop itself: `n` zooms applied to layer `m` give layer `m + n` |
| `Evarr.Stack` | complexity-visualization/evarr.py:41 | stacking non-empty layers of one shape (H, W) gives a well-formed volume of shape (H, W, number of layers) |
| `Evarr.StackSlice` | complexity-visualization/evarr.py:41 | slice `[:, :, i]` of the stack is layer `i` unchanged, i.e. `result[r, c, i] == layer_i[r, c]` |
| `Evarr.ZoomStack` | complexity-visualization/evarr.py:35-43 | the result has shape (H, W, k + 1) for `k >= 0` and depth 1 for `k < 0` (empty `range(k)`); slice 0 is the input; slice `i` is `zoom` applied `i` times; slice `i` is `zoom` of slice `i - 1` |

## Left out

- `compressed_size` (complexity-visualization/evarr.py:5-10) is not modelled. It writes, measures and deletes a file in numpy's compressed archive format. That is file-system I/O and a foreign format whose byte count cannot be stated here. The race on its shared default file name is concurrency, also out of scope.
- The arithmetic of `zoom` (complexity-visualization/evarr.py:25-33) is not modelled. It is a floating-point convolution with a 3x3 kernel and wrap-around boundary, done by a library. `zoom` is a parameter of `ZoomStack`, and its shape preservation is a precondition (`PreservesShape`). The mean-preserving and smoothing properties of the kernel are not stated.
- ZoomStack: the model does not capture a failure of the library convolution on an array with a zero dimension. The parameter `zoom` is total.
- X2: inputs that are not two-dimensional are not modelled; the input is typed `array2<real>`. The source never checks the number of dimensions. A 0-D or 1-D input fails when `shape[1]` is read (complexity-visualization/evarr.py:14). An input of shape (H, W, D) with D > 1 fails on the first cell write (complexity-visualization/evarr.py:18). An input of shape (H, W, 1), or one with H = 0 or W = 0, is accepted and returns a (2H, 2W) array.
- ZoomStack: the `Grid` type excludes inputs that are not two-dimensional. In the source such an input fails in the convolution when `k >= 1`, and when `k <= 0` a 3-D input is stacked unchecked into a 4-D result (complexity-visualization/evarr.py:41).
- Element types: numpy's float64 result of `np.zeros` and the cast of integer input cells to float are modelled as `real`. The memory layout of `np.stack` is not modelled. Only its index mapping is.
- ZoomStack: `k` is an integer; a non-integer `k`, which `range` would reject, has no counterpart.
