# Blocked matrix product kernels (kinference_play), modelled in Dafny

kinference stores a `DoubleNDArray` as a grid of blocks. Every row of the
matrix is cut into blocks of one width (`array.blockSize`), and only the last
block of a row may be narrower. The grid is a flat `Array<DoubleArray>`, row
after row. `NDArrayDot` (src/main/kotlin/NDArrayDot.kt) multiplies two such
matrices, A (m x t) and B (t x n), into C (m x n) in four ways:

- `old`: the untiled blocked product.
- `new`: a tiled product that walks the block grids with hand-advanced offset
  cursors.
- `copy`: converts A and B to one array per row, multiplies tile by tile, and
  copies the product into C's blocks.
- `resize`: re-blocks A, B and C to cache-sized widths where their blocks are
  too wide, multiplies block by block, and copies C back.

The helpers of src/main/kotlin/NDUtil.kt allocate zero grids (`emptyBlocks`),
copy elements between grids of any block widths (`copyBlocks`) and convert a
grid to dense rows (`toDoubleArray`).

The model keeps the imperative form of the source:

- A block grid is an `array<array<int>>` and a block is an `array<int>`.
- Every loop of the source is a `while` loop with invariants.
- Kernels that hold many loops are split into one method per loop, in the
  same nesting as the source.

Each kernel is proved against a specification on matrices as values (module
`DotSpec`):

- `old`, `new`, and `resize` when C keeps its own blocks leave C holding
  C + A·B.
- `copy`, and `resize` when C's blocks are wider than 512, leave C holding
  A·B.
- `old`, `new` and `resize` leave A and B with their values; they require
  C to share no block with A or B.
- `copy` reads A and B into dense rows before it writes C, so C may share
  blocks with them. An operand that shares no block with C keeps its values;
  one that does is not promised anything beyond C's result.

The loops are tied to the specification by one predicate, `DotSpec.Added`.
It says that a rectangle of cells of C has gained a range of the terms of
its dot products. The `Added*` lemmas glue such rectangles and ranges
together.

Modules:

| module | file | contents |
|---|---|---|
| `BlockLayout` | layout.dfy | block sizes, the layout of a grid, grids as values and the matrix they store |
| `NDUtil` | ndutil.dfy | `emptyBlocks`, `copyInto`, `copyBlocks`, `toDoubleArray` |
| `DotSpec` | dot.dfy | dot product, `MatMul`, `MatAdd`, `Added`, the tile heuristic and the tile end |
| `NDArrays` | ndarrays.dfy | the `DoubleNDArray` record and the loop steps the kernels share |
| `DotOld` | old.dfy | `old` |
| `DotNew` | new.dfy | `new` |
| `DotCopy` | copy.dfy | `copy` |
| `DotResize` | resize.dfy | `resize` |

The four kernels share one signature, but they do not all do the same thing
to C. `old` and `new` only add into C's blocks. `copy` builds the product in
fresh zero rows and overwrites C with it (NDArrayDot.kt:114, 157-167).
`resize` does the same when C's blocks are wider than the column tile
(NDArrayDot.kt:211-212, 244); otherwise it works in C's own blocks and adds
into them. The tests (src/test/kotlin/NDArrayDotTest.kt) always start from
a zero C, so they cannot tell adding from overwriting; the model states
what each kernel does.

## Model

| member | source | states |
|---|---|---|
| BlockLayout.BlocksInRow | src/main/kotlin/NDUtil.kt:32-38 | the blocks per row are the least count whose blocks cover the row, and are zero exactly for an empty row |
| BlockLayout.LastBlockSize | src/main/kotlin/NDUtil.kt:32-38 | the last block is between 1 and the block width long, and the full blocks before it plus the last block make exactly the row |
| BlockLayout.CellAddress | src/main/kotlin/NDArrayDot.kt:272-289 | cell (r, col) of a grid lies in block r * blocksInRow + col / width at offset col % width, which is the addressing every kernel uses |
| BlockLayout.DenseView | src/main/kotlin/NDUtil.kt:13-16 | a grid whose block width is its column count stores its blocks as its rows |
| NDUtil.EmptyBlocks | src/main/kotlin/NDUtil.kt:28-45 | returns a fresh, zero-filled grid of distinct blocks laid out as rows x cols at the given width, with the ceiling count of blocks per row |
| NDUtil.BlockArray | src/main/kotlin/NDUtil.kt:40-43 | block k is fresh, zero and `lastBlockSize` long exactly when k + 1 is a multiple of blocksInRow, and `blockSize` long otherwise |
| NDUtil.ZeroMatrix | src/main/kotlin/NDUtil.kt:40-43 | a zero-filled grid stores the zero matrix |
| NDUtil.CopyInto | src/main/kotlin/NDUtil.kt:64-69 | the destination is its old prefix, then the source slice [startIndex, endIndex), then its old suffix |
| NDUtil.CopyChunk | src/main/kotlin/NDUtil.kt:59-81 | one turn of the loop copies min(source left, destination left) elements; each cursor moves on by that many, and to offset 0 of its next block exactly when its block is used up; both cursors stay at the same flat position |
| NDUtil.CopyStep | src/main/kotlin/NDUtil.kt:62-69 | copying n elements at matching flat positions extends the copied prefix of the flattened destination by n |
| NDUtil.CopyDone | src/main/kotlin/NDUtil.kt:58 | when either cursor runs off its grid, the flattened destination is the source up to the shorter length followed by its own remainder |
| NDUtil.CopyBlocks | src/main/kotlin/NDUtil.kt:47-83 | the flattened destination becomes the flattened source spliced over it, the source keeps its values, and copying a grid onto itself changes nothing |
| NDUtil.CopyPreservesMatrix | src/main/kotlin/NDUtil.kt:47-83 | copying into a grid of the same rows and columns, at any block width, makes it store the source's matrix |
| NDUtil.RegridRoundTrip | src/main/kotlin/NDUtil.kt:47-83 | copying to another block width and back reproduces the original blocks exactly |
| NDUtil.ToDoubleArray | src/main/kotlin/NDUtil.kt:13-16 | returns fresh distinct rows, one per matrix row and cols long, that hold the matrix the grid stores; the grid keeps its values |
| DotSpec.MatMul | src/test/kotlin/NDArrayDotTest.kt:118-125 | the reference product that the contracts of all four kernels use, cell (i, j) being the sum over k < t of A[i][k] * B[k][j]; it is an m x n matrix |
| DotSpec.AddedTerms | src/main/kotlin/NDArrayDot.kt:47 | adding the inner terms [k0, k1) and then [k1, k2) adds [k0, k2) |
| DotSpec.AddedColumns | src/main/kotlin/NDArrayDot.kt:55 | two side-by-side column ranges that gained the same terms make one range |
| DotSpec.AddedRows | src/main/kotlin/NDArrayDot.kt:45 | two stacked row ranges that gained the same terms make one range |
| DotSpec.AddedAll | src/main/kotlin/NDArrayDot.kt:14-105 | when every cell of an m x n matrix C0 has gained all t terms, the result is C0 + A·B |
| DotSpec.AddedAllToZero | src/main/kotlin/NDArrayDot.kt:114-155 | when a zero matrix has gained all terms, the result is A·B |
| DotSpec.DotStep | src/main/kotlin/NDArrayDot.kt:90 | one inner step adds exactly the product A[r][k] * B[k][col] |
| DotSpec.TileSizes | src/main/kotlin/NDArrayDot.kt:19-33 | the column tile is 512 (one 4 KiB page of doubles); the row tile is 256 and the inner tile 24 exactly when m / t is at least 10, otherwise 24 and 30 |
| DotSpec.TileEnd | src/main/kotlin/NDArrayDot.kt:46 | `min(start, total - size) + size` is the start plus the tile size, clipped to the total |
| DotSpec.TileCover | src/main/kotlin/NDArrayDot.kt:45-56 | the tiles starting at the multiples of the tile size cover every index below the total, and each index lies in exactly one tile |
| NDArrays.AddScaled | src/main/kotlin/NDArrayDot.kt:148-150 | every element j in [lo, hi) gains alpha * src[j]; every other element is unchanged |
| NDArrays.BlockSpan | src/main/kotlin/NDUtil.kt:40-43 | block cb of row r exists and holds the columns from cb * width to the clipped tile end |
| NDArrays.GainedStep | src/main/kotlin/NDArrayDot.kt:291-293 | a block that gained terms [k0, k) gains term k from one pass of `dst[j] += A[r][k] * B[k][c0 + j]` |
| NDArrays.BlockAdded | src/main/kotlin/NDArrayDot.kt:272 | a block that gained some terms, written back into its grid, adds them to exactly its cells of the stored matrix |
| NDArrays.RightBlock | src/main/kotlin/NDArrayDot.kt:289 | block jt of row k of B holds row k of B from column jt * width on |
| NDArrays.ProductTerm | src/main/kotlin/NDArrayDot.kt:232-237 | one turn of the k loop of `resize` and `old`: every element of the destination block gains inner term k |
| NDArrays.FirstBlockWidth | src/main/kotlin/NDArrayDot.kt:202 | `kt * a[0].size` is the first column of block kt, since the first block is narrower only when it is the row's only block |
| NDArrays.FactorsHold | src/main/kotlin/NDArrayDot.kt:35-37 | the grids of A and B hold the matrices they store, block by block |
| NDArrays.StoredOperands | src/main/kotlin/NDArrayDot.kt:274-289 | the left block `i * lBlocksInRow + lCol` and the right blocks `(lCol * lBlockSize + k) * rdBlocksInRow + rdCol` hold the entries of A and B that the loops of `old` read |
| DotOld.BlocksInRowAsWritten | src/main/kotlin/NDArrayDot.kt:263-264 | the blocks-per-row counts as written have no value exactly when the operand as passed has rank below 2 |
| DotOld.BlocksInRowOf | src/main/kotlin/NDArrayDot.kt:263-264 | the count of the rank-2 view is the number of blocks of a row whenever the width divides the columns |
| DotOld.AsWrittenOnMatrices | src/main/kotlin/NDArrayDot.kt:263-264 | for rank-2 operands the counts as written equal the corrected ones |
| DotOld.RankOneOperandThrows | src/main/kotlin/NDArrayDot.kt:251-264 | a 3-vector times a 3 x 2 matrix passes both `require` checks, yet the count as written throws |
| DotOld.LeftBlockTerms | src/main/kotlin/NDArrayDot.kt:281-294 | the destination block gains the lBlockSize inner terms that left block lCol covers |
| DotOld.LeftBlocks | src/main/kotlin/NDArrayDot.kt:274-295 | the destination block gains every inner term of its dot products |
| DotOld.DestBlock | src/main/kotlin/NDArrayDot.kt:272-295 | block rdCol of row i adds its full dot products to its cells of C, and to no other cell |
| DotOld.ColumnOfBlocks | src/main/kotlin/NDArrayDot.kt:267-296 | column block rdCol of every row gains its full dot products |
| DotOld.OldKernel | src/main/kotlin/NDArrayDot.kt:266-297 | every cell of C gains every term of its dot product, and A and B keep their values |
| DotOld.Old | src/main/kotlin/NDArrayDot.kt:248-298 | throws on a rank outside 1..2 or on mismatched inner dimensions and leaves C untouched; otherwise C becomes C + A·B with rank-1 operands read as one row, and A and B keep their values. It counts blocks per row with the corrected `DotOld.BlocksInRowOf` of "## Findings"; the source as written throws at lines 263-264 for a rank-1 operand |
| DotNew.BlockOf | src/main/kotlin/NDArrayDot.kt:50-51 | `x / w` and `x % w` name a block of the row and an offset inside it |
| DotNew.Run | src/main/kotlin/NDArrayDot.kt:89-92 | the innermost loop adds term k to the elements it passes, and stops at the end of the block or of the column tile, with both cursors moved by the same amount |
| DotNew.RightOperand | src/main/kotlin/NDArrayDot.kt:82-86 | the block `bOffset` the cursors reach is block jb of row k of B |
| DotNew.LeftOperand | src/main/kotlin/NDArrayDot.kt:70-77 | the block `aOffset` the cursors reach is block kb of row i of A |
| DotNew.SpanBlock | src/main/kotlin/NDArrayDot.kt:85-94 | one turn of the `while (j < je)` loop: the columns it passes in one block of C gain term k |
| DotNew.RowSpan | src/main/kotlin/NDArrayDot.kt:79-94 | columns [jt, je) of row i gain term k, across as many blocks as the tile spans |
| DotNew.LeftRun | src/main/kotlin/NDArrayDot.kt:76-96 | the loop over one left block adds the inner terms it reaches, and leaves `brOffset` on row k of B's blocks |
| DotNew.RowTerms | src/main/kotlin/NDArrayDot.kt:67-98 | row i, columns [jt, je), gains the inner terms [kt, ke), across as many left blocks as the tile spans |
| DotNew.TileRows | src/main/kotlin/NDArrayDot.kt:66-101 | rows [it, ie) of the tile gain their terms, with the row cursors moved by one grid row per row |
| DotNew.ColumnTile | src/main/kotlin/NDArrayDot.kt:56-64 | with the cursors computed at the head of a column tile, rows [it, ie), columns [jt, je) of C gain the inner terms [kt, ke) |
| DotNew.ColumnTiles | src/main/kotlin/NDArrayDot.kt:55-102 | every column of the row tile gains the inner terms [kt, ke) |
| DotNew.InnerTile | src/main/kotlin/NDArrayDot.kt:48-53 | with the cursors computed at the head of an inner tile, rows [it, ie) of C gain the inner terms [kt, ke) in every column |
| DotNew.InnerTiles | src/main/kotlin/NDArrayDot.kt:47-103 | the rows of the row tile gain every inner term |
| DotNew.RowTiles | src/main/kotlin/NDArrayDot.kt:45-104 | every cell of C gains every term of its dot product |
| DotNew.New | src/main/kotlin/NDArrayDot.kt:14-105 | C becomes C + A·B, and A and B keep their values |
| DotCopy.ZeroRows | src/main/kotlin/NDArrayDot.kt:114 | m fresh, distinct rows of n zeros |
| DotCopy.TileRow | src/main/kotlin/NDArrayDot.kt:143-151 | each element j of row i in [jt, je) gains the inner terms [kt, ke), and the rest of the row is unchanged |
| DotCopy.TileRows | src/main/kotlin/NDArrayDot.kt:142-152 | rows [it, ie), columns [jt, je), gain the terms [kt, ke) |
| DotCopy.ColumnTiles | src/main/kotlin/NDArrayDot.kt:140-153 | every column of the row tile gains the terms [kt, ke) |
| DotCopy.InnerTiles | src/main/kotlin/NDArrayDot.kt:138-154 | the rows of the row tile gain every inner term |
| DotCopy.RowTiles | src/main/kotlin/NDArrayDot.kt:136-155 | every cell of the dense C gains every term of its dot product |
| DotCopy.ProductRows | src/main/kotlin/NDArrayDot.kt:114-155 | fresh dense rows holding A·B, shared with neither operand |
| DotCopy.CopyRowBlock | src/main/kotlin/NDArrayDot.kt:163-165 | block jb of row i receives its slice of the dense row |
| DotCopy.CopyRowBlocks | src/main/kotlin/NDArrayDot.kt:162-166 | every block of row i receives its slice of the dense row |
| DotCopy.CopyBackRow | src/main/kotlin/NDArrayDot.kt:160-166 | row i of the stored matrix becomes the dense row, and every other row is unchanged |
| DotCopy.RowsFromStep | src/main/kotlin/NDArrayDot.kt:159 | setting row i extends the rows already copied by one |
| DotCopy.CopyBack | src/main/kotlin/NDArrayDot.kt:157-167 | C's blocks store exactly the dense matrix, whatever they held before |
| DotCopy.Copy | src/main/kotlin/NDArrayDot.kt:111-168 | C becomes A·B, replacing what it held; an operand that shares no block with C keeps its values |
| DotResize.Rewidth | src/main/kotlin/NDArrayDot.kt:197-215 | the working block width keeps the operand's own width exactly when it fits the tile, and is the tile width otherwise |
| DotResize.ExactBlocksInRow | src/main/kotlin/NDArrayDot.kt:200 | `shape[1] / blockSize` is the number of blocks of a row when the width divides the row |
| DotResize.Prepare | src/main/kotlin/NDArrayDot.kt:197-201 | a fresh zero grid at the tile width when the blocks are wider than the tile, the operand's own grid otherwise, each with its blocks per row |
| DotResize.StageOperand | src/main/kotlin/NDArrayDot.kt:197-209 | the working grid is laid out at the working width; it is the operand's own grid exactly when its blocks fit the tile, and fresh and zero otherwise |
| DotResize.Stage | src/main/kotlin/NDArrayDot.kt:197-215 | working grids for A at the inner tile width and for B and C at the column tile width; each is its operand's own grid exactly when the operand's blocks fit the tile, and otherwise a fresh zero grid that shares no block with the operands or the other working grids |
| DotResize.Load | src/main/kotlin/NDArrayDot.kt:222-223 | `copyBlocks` into a working grid makes it store the operand's matrix, and the operand keeps its values |
| DotResize.LoadOperands | src/main/kotlin/NDArrayDot.kt:222-223 | the working grids store A and B, and the operands and C's working grid are unchanged |
| DotResize.BlockProduct | src/main/kotlin/NDArrayDot.kt:230-238 | block jt of row i of C gains the inner terms that block kt of row i of A covers |
| DotResize.ResultBlock | src/main/kotlin/NDArrayDot.kt:230 | `c[i * bBlocksInRow + jt]` is block jt of row i of C and spans that block's columns |
| DotResize.RowBlock | src/main/kotlin/NDArrayDot.kt:229-239 | one turn of the i loop adds the block's terms to its cells of C only |
| DotResize.TileRowBlocks | src/main/kotlin/NDArrayDot.kt:229-239 | rows [it, ie) of column block jt gain the terms of inner block kt |
| DotResize.BlockStarts | src/main/kotlin/NDArrayDot.kt:228 | block cb ends where block cb + 1 starts, clipped to the row |
| DotResize.ColumnBlock | src/main/kotlin/NDArrayDot.kt:228-240 | the columns covered so far extend by block jt |
| DotResize.ColumnBlocks | src/main/kotlin/NDArrayDot.kt:228-240 | every column of the row tile gains the terms of inner block kt |
| DotResize.InnerBlock | src/main/kotlin/NDArrayDot.kt:227-241 | the inner terms added so far extend by block kt |
| DotResize.InnerBlocks | src/main/kotlin/NDArrayDot.kt:227-241 | the rows of the row tile gain every inner term |
| DotResize.RowTileBlocks | src/main/kotlin/NDArrayDot.kt:225-242 | every cell of C's working grid gains every term of its dot product |
| DotResize.MultiplyStore | src/main/kotlin/NDArrayDot.kt:225-244 | C's own grid ends up storing its working grid's old matrix plus A·B, and the operands keep their values |
| DotResize.MultiplyGrids | src/main/kotlin/NDArrayDot.kt:222-244 | with a fresh zero working grid C ends up holding A·B, with its own grid C + A·B |
| DotResize.Resize | src/main/kotlin/NDArrayDot.kt:176-245 | C becomes A·B when its blocks are wider than 512 and C + A·B otherwise, and A and B keep their values |

## Left out

- Elements are mathematical integers, not doubles. Rounding and the order of floating-point additions are not modelled, so every kernel's result is stated as the exact product.
- The kinference library is not part of this model. `DoubleNDArray`, `MutableDoubleNDArray` and `reshape` are modelled only as far as the kernels use them: a shape, a block grid and a block width, with a rank-1 array read as one row.
- `toNDArray` (NDUtil.kt:4-11) is left out: it calls the `MutableDoubleNDArray` constructor, which is not part of this model.
- The benchmarks, the tests and the build script are left out: they drive the kernels but are not part of them.
- Kotlin's `Int` overflow in the offset arithmetic is not modelled: indices are unbounded naturals.
- DotSpec.TileSizes: requires t > 0, because Kotlin's `m / t` throws `ArithmeticException` for t == 0. The throw itself is not modelled, and `copy`, `resize` and `new` require t > 0.
- NDUtil.ToDoubleArray: requires at least one column, because `cols % blockSize` in `emptyBlocks` throws for a zero block width; the throw is not modelled.
- DotCopy.Copy: requires rank-2 operands and matching shapes, which `copy` does not check. A rank-1 operand throws at `shape[1]` in `toDoubleArray` (NDUtil.kt:14, called at NDArrayDot.kt:112-113); an A with more than t columns is multiplied using only its first t columns. Neither case is modelled.
- DotCopy.Copy: requires m, t and n positive, because `b[0]` and `blocksNum / m` throw otherwise; the throws are not modelled.
- DotCopy.Copy: promises that A or B keeps its values only when it shares no block with C. When C shares a block with an operand, the copy-back overwrites that block, and the model says nothing about the operand afterwards.
- DotResize.Resize: requires rank-2 operands and matching shapes, which `resize` does not check. A rank-1 B throws at `b_.shape[1]` (NDArrayDot.kt:179); a mismatched inner dimension or C shape is not modelled.
- DotResize.Resize: requires m, t and n positive, because `m / t`, `a[0].size` (NDArrayDot.kt:202) and `b[0].size` (NDArrayDot.kt:209) throw otherwise; the throws are not modelled.
- DotResize.Resize: requires what kinference arrays guarantee but `resize` does not check:
  - a width that fits the tile divides its operand's columns (the code counts blocks per row with `shape[1] / blockSize`);
  - C's working width equals B's, since C is indexed with B's blocks per row;
  - C shares no block with A or B.
- DotNew.New: requires what `new` assumes without checking:
  - rank-2 operands;
  - A's column count equals B's row count;
  - C is m x n;
  - A's block width divides t;
  - B has C's block width, and that width divides n;
  - C shares no block with A or B.
- DotOld.Old: requires, for operands that pass its checks, the same unchecked assumptions as `new` (C is m x n, A's width divides its columns, B has C's block width and it divides n, no shared blocks).
- DotOld.Old: follows the corrected code of "## Findings" for rank-1 operands. It counts blocks per row from the rank-2 view (`DotOld.BlocksInRowOf`) and returns C + A·B. The source as written reads `shape[1]` of the rank-1 shape at NDArrayDot.kt:263-264 and throws `ArrayIndexOutOfBoundsException` there; that behaviour is modelled only by `DotOld.BlocksInRowAsWritten` and `DotOld.RankOneOperandThrows`.
- NDArrays.ProductTerm: the j loop of `old` runs to `rdBlockSize` (NDArrayDot.kt:291). The model runs it over the destination block's length, which is `rdBlockSize` whenever C's width divides its columns, as `DotOld.Old` requires.
- Aliasing between A and B is allowed, since both are only read. For `old`, `new` and `resize`, C sharing a block with A or B is excluded, since those kernels would then read values they have already changed. `copy` allows it: it reads A and B into fresh dense rows (NDArrayDot.kt:112-114) before it writes C (NDArrayDot.kt:157-167).

## Findings

| source | as written | input that shows it | evidently intended | confidence | as-written member | corrected member |
|---|---|---|---|---|---|---|
| src/main/kotlin/NDArrayDot.kt:263-264 | `old` counts the blocks per row from `a.shape[1]` and `b.shape[1]`, the shapes as passed, after promoting rank-1 operands to one row at lines 252-253 | a of shape [3] (a vector of 3) times b of shape [3, 2]: both `require` checks pass, and `a.shape[1]` is out of bounds | count from the promoted arrays, `actualThis.shape[1]` and `actualOther.shape[1]`, so that rank-1 operands are multiplied as one row | not executed | DotOld.BlocksInRowAsWritten | DotOld.BlocksInRowOf |
