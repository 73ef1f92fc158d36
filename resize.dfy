/** `NDArrayDot.resize`: re-blocks A to the inner tile width and B and C to
    the column tile width, each only when its block width is larger than the
    tile, multiplies block by block, and copies C back. */
module DotResize {
  import opened BlockLayout
  import opened NDUtil
  import opened DotSpec
  import opened NDArrays

  /** The block width an operand is worked on at: its own width when that
      fits the tile, the tile width otherwise. */
  function Rewidth(w: nat, tile: nat): (r: nat)
    ensures r <= w
    ensures r == w <==> w <= tile
    ensures w > tile ==> r == tile
  {
    if w > tile then tile else w
  }

  /** Blocks per row by plain division equals the block count whenever the
      width divides the number of columns. */
  lemma ExactBlocksInRow(cols: nat, w: nat)
    requires w > 0 && cols % w == 0
    ensures cols / w == BlocksInRow(cols, w)
  {
  }

  /** The choice at the head of `resize`: a fresh zero grid at the tile
      width when the operand's blocks are wider than the tile
      (`emptyBlocks(shape, tile)`), the operand's own blocks otherwise
      (`blocks to shape[1] / blockSize`), with its blocks per row. */
  method Prepare(x: Grid, L: Layout, tile: nat) returns (g: Grid, bpr: nat)
    requires Fits(x, L) && Distinct(x) && tile > 0
    ensures Fits(g, Layout(L.rows, L.cols, Rewidth(L.width, tile))) && Distinct(g)
    ensures L.width > tile ==> bpr == BlocksInRow(L.cols, tile)
    ensures L.width <= tile ==> bpr == L.cols / L.width
    ensures L.width > tile ==> fresh(g) && fresh(Blocks(g)) && AllZero(g)
    ensures L.width <= tile ==> g == x
  {
    if L.width > tile {
      g, bpr := EmptyBlocks(L.rows, L.cols, tile);
    } else {
      g, bpr := x, L.cols / L.width;
    }
  }

  /** The k loop of `resize` for one block of C: with block `kt` of row `i`
      of A covering the inner indices [k0, k1), the block of C, columns
      from c0 on, gains exactly those terms of its dot products. */
  method BlockProduct(ci: array<int>, ai: array<int>, b: Grid,
                      ghost VB: seq<seq<int>>, ghost A: seq<seq<int>>, ghost B: seq<seq<int>>,
                      i: nat, kt: nat, jt: nat, aBlockSize: nat, bBlocksInRow: nat,
                      ghost c0: nat, ghost k0: nat, ghost k1: nat)
    requires k0 == kt * aBlockSize && k0 + ai.Length == k1 && Holds(ai[..], A, i, k0)
    requires forall ka {:trigger RightRow(VB, B, bBlocksInRow, jt, ka, c0, ci.Length)} :: k0 <= ka < k1 ==>
               RightRow(VB, B, bBlocksInRow, jt, ka, c0, ci.Length)
    requires Values(b) == VB && ci !in Blocks(b) && ci != ai
    modifies ci
    ensures Gained(ci[..], old(ci[..]), A, B, i, c0, 0, ci.Length, k0, k1)
  {
    ghost var x0 := ci[..];
    GainedNone(x0, A, B, i, c0, 0, ci.Length, k0);
    var k := 0;
    while k < ai.Length
      invariant k <= ai.Length
      invariant Values(b) == VB && Holds(ai[..], A, i, k0)
      invariant Gained(ci[..], x0, A, B, i, c0, 0, ci.Length, k0, k0 + k)
    {
      ghost var ka := k0 + k;
      assert RightRow(VB, B, bBlocksInRow, jt, ka, c0, ci.Length);
      ProductTerm(ci, ai, b, VB, A, B, i, kt, jt, k, aBlockSize, bBlocksInRow, x0, c0, k0, k0);
      k := k + 1;
    }
  }

  /** Block `jt` of row `i` of C starts at column c0 = LB.Start(jt) and is
      c1 - c0 long. */
  lemma ResultBlock(LB: Layout, LC: Layout, i: nat, jt: nat, bpr: nat, c0: nat, c1: nat)
    requires LB.Valid() && LC.Valid() && LB.cols == LC.cols && LB.width == LC.width
    requires i < LC.rows && jt < bpr == LB.Bpr() && c0 == LB.Start(jt) && c1 == TileEnd(c0, LB.width, LB.cols)
    ensures LC.Bpr() == bpr && i * bpr + jt < LC.Count() && c0 == jt * LC.width
    ensures c0 + LC.Len(i * bpr + jt) == c1
  {
    StartAt(LB, jt);
    BlockSpan(LC, i, jt);
  }

  /** One turn of the i loop: block `jt` of row `i` of C, the columns
      [c0, c1), gains the terms [k0, k1) of inner block `kt`. */
  method RowBlock(c: Grid, a: Grid, b: Grid,
                  ghost VA: seq<seq<int>>, ghost VB: seq<seq<int>>, ghost A: seq<seq<int>>, ghost B: seq<seq<int>>,
                  ghost LA: Layout, ghost LB: Layout, ghost LC: Layout,
                  i: nat, kt: nat, jt: nat, aBlockSize: nat, aBlocksInRow: nat, bBlocksInRow: nat,
                  ghost c0: nat, ghost c1: nat, ghost k0: nat, ghost k1: nat)
    requires Factors(VA, VB, A, B, LA, LB, LC) && Operands(c, a, b, VA, VB, LC)
    requires i < LA.rows && kt < aBlocksInRow == LA.Bpr() && jt < bBlocksInRow == LB.Bpr()
    requires aBlockSize == LA.Len(0) && k0 == LA.Start(kt) && k1 == TileEnd(k0, LA.width, LA.cols)
    requires c0 == LB.Start(jt) && c1 == TileEnd(c0, LB.width, LB.cols)
    modifies Blocks(c)
    ensures Operands(c, a, b, VA, VB, LC)
    ensures Added(old(Mat(c, LC)), Mat(c, LC), A, B, i, i + 1, c0, c1, k0, k1)
  {
    ResultBlock(LB, LC, i, jt, bBlocksInRow, c0, c1);
    FitsShaped(c, LC);
    ghost var V := Values(c);
    var bi := i * bBlocksInRow + jt;
    var ci := c[bi];
    RowBlockOperands(VA, VB, A, B, LA, LB, LC, i, kt, jt, aBlockSize, aBlocksInRow, bBlocksInRow, c0, ci.Length, k0, k1);
    var ai := a[i * aBlocksInRow + kt];
    BlockProduct(ci, ai, b, VB, A, B, i, kt, jt, aBlockSize, bBlocksInRow, c0, k0, k1);
    assert Values(c) == V[bi := ci[..]];
    BlockAdded(V, LC, i, jt, ci[..], A, B, c0, 0, ci.Length, k0, k1);
  }

  /** The i loop: rows [it, ie) of column block `jt` gain the terms of inner
      block `kt`. */
  method TileRowBlocks(c: Grid, a: Grid, b: Grid,
                       ghost VA: seq<seq<int>>, ghost VB: seq<seq<int>>, ghost A: seq<seq<int>>, ghost B: seq<seq<int>>,
                       ghost LA: Layout, ghost LB: Layout, ghost LC: Layout,
                       it: nat, ie: nat, kt: nat, jt: nat, aBlockSize: nat, aBlocksInRow: nat, bBlocksInRow: nat,
                       ghost c0: nat, ghost c1: nat, ghost k0: nat, ghost k1: nat)
    requires Factors(VA, VB, A, B, LA, LB, LC) && Operands(c, a, b, VA, VB, LC)
    requires it <= ie <= LA.rows && kt < aBlocksInRow == LA.Bpr() && jt < bBlocksInRow == LB.Bpr()
    requires aBlockSize == LA.Len(0) && k0 == LA.Start(kt) && k1 == TileEnd(k0, LA.width, LA.cols)
    requires c0 == LB.Start(jt) && c1 == TileEnd(c0, LB.width, LB.cols)
    modifies Blocks(c)
    ensures Operands(c, a, b, VA, VB, LC)
    ensures Added(old(Mat(c, LC)), Mat(c, LC), A, B, it, ie, c0, c1, k0, k1)
  {
    ghost var M0 := Mat(c, LC);
    AddedNothing(M0, A, B, it, it, c0, c1, k0, k1);
    var i := it;
    while i < ie
      invariant it <= i <= ie
      invariant Operands(c, a, b, VA, VB, LC)
      invariant Added(M0, Mat(c, LC), A, B, it, i, c0, c1, k0, k1)
    {
      ghost var M1 := Mat(c, LC);
      RowBlock(c, a, b, VA, VB, A, B, LA, LB, LC, i, kt, jt, aBlockSize, aBlocksInRow, bBlocksInRow, c0, c1, k0, k1);
      AddedRows(M0, M1, Mat(c, LC), A, B, it, i, i + 1, c0, c1, k0, k1);
      i := i + 1;
    }
  }

  /** The blocks of a row start at Start(0), Start(1), ..., each clipped to
      the row, and each ends where the next starts. */
  lemma BlockStarts(L: Layout, cb: nat)
    requires L.Valid() && cb < L.Bpr()
    ensures Min(L.Start(cb), L.cols) == L.Start(cb)
    ensures Min(L.Start(cb + 1), L.cols) == TileEnd(L.Start(cb), L.width, L.cols)
  {
    StartAt(L, cb);
    RowCover(L, cb);
    MulSucc(cb, L.width);
  }

  /** Past the last block of a row every column is covered. */
  lemma ColumnsDone(L: Layout, cb: nat)
    requires L.Valid() && cb == L.Bpr()
    ensures Min(L.Start(cb), L.cols) == L.cols
  {
    StartAt(L, cb);
    if cb > 0 {
      RowCover(L, cb - 1);
      MulSucc(cb - 1, L.width);
    }
  }

  /** The jt loop: every column block of the rows [it, ie) gains the terms
      [k0, k1) of inner block `kt`. */
  method ColumnBlocks(c: Grid, a: Grid, b: Grid,
                      ghost VA: seq<seq<int>>, ghost VB: seq<seq<int>>, ghost A: seq<seq<int>>, ghost B: seq<seq<int>>,
                      ghost LA: Layout, ghost LB: Layout, ghost LC: Layout,
                      it: nat, ie: nat, kt: nat, aBlockSize: nat, aBlocksInRow: nat, bBlocksInRow: nat,
                      ghost k0: nat, ghost k1: nat)
    requires Factors(VA, VB, A, B, LA, LB, LC) && Operands(c, a, b, VA, VB, LC)
    requires it <= ie <= LA.rows && kt < aBlocksInRow == LA.Bpr() && bBlocksInRow == LB.Bpr()
    requires aBlockSize == LA.Len(0) && k0 == LA.Start(kt) && k1 == TileEnd(k0, LA.width, LA.cols)
    modifies Blocks(c)
    ensures Operands(c, a, b, VA, VB, LC)
    ensures Added(old(Mat(c, LC)), Mat(c, LC), A, B, it, ie, 0, LB.cols, k0, k1)
  {
    ghost var M0 := Mat(c, LC);
    AddedNothing(M0, A, B, it, ie, 0, 0, k0, k1);
    var jt := 0;
    ghost var done: nat := 0;
    while jt < bBlocksInRow
      invariant jt <= bBlocksInRow && done == Min(LB.Start(jt), LB.cols)
      invariant Operands(c, a, b, VA, VB, LC)
      invariant Added(M0, Mat(c, LC), A, B, it, ie, 0, done, k0, k1)
    {
      ColumnBlock(c, a, b, VA, VB, A, B, LA, LB, LC, it, ie, kt, jt, aBlockSize, aBlocksInRow, bBlocksInRow,
                  k0, k1, M0);
      jt := jt + 1;
      done := Min(LB.Start(jt), LB.cols);
    }
    ColumnsDone(LB, jt);
  }

  /** One turn of the jt loop: the columns covered so far extend by block `jt`. */
  method ColumnBlock(c: Grid, a: Grid, b: Grid,
                     ghost VA: seq<seq<int>>, ghost VB: seq<seq<int>>, ghost A: seq<seq<int>>, ghost B: seq<seq<int>>,
                     ghost LA: Layout, ghost LB: Layout, ghost LC: Layout,
                     it: nat, ie: nat, kt: nat, jt: nat, aBlockSize: nat, aBlocksInRow: nat, bBlocksInRow: nat,
                     ghost k0: nat, ghost k1: nat, ghost M0: seq<seq<int>>)
    requires Factors(VA, VB, A, B, LA, LB, LC) && Operands(c, a, b, VA, VB, LC)
    requires it <= ie <= LA.rows && kt < aBlocksInRow == LA.Bpr() && jt < bBlocksInRow == LB.Bpr()
    requires aBlockSize == LA.Len(0) && k0 == LA.Start(kt) && k1 == TileEnd(k0, LA.width, LA.cols)
    requires Added(M0, Mat(c, LC), A, B, it, ie, 0, Min(LB.Start(jt), LB.cols), k0, k1)
    modifies Blocks(c)
    ensures Operands(c, a, b, VA, VB, LC)
    ensures Added(M0, Mat(c, LC), A, B, it, ie, 0, Min(LB.Start(jt + 1), LB.cols), k0, k1)
  {
    BlockStarts(LB, jt);
    ghost var c0 := LB.Start(jt);
    ghost var c1 := TileEnd(c0, LB.width, LB.cols);
    ghost var M1 := Mat(c, LC);
    TileRowBlocks(c, a, b, VA, VB, A, B, LA, LB, LC, it, ie, kt, jt, aBlockSize, aBlocksInRow, bBlocksInRow,
                  c0, c1, k0, k1);
    AddedColumns(M0, M1, Mat(c, LC), A, B, it, ie, 0, c0, c1, k0, k1);
  }

  /** The kt loop: the rows [it, ie) gain every term of their dot products. */
  method InnerBlocks(c: Grid, a: Grid, b: Grid,
                     ghost VA: seq<seq<int>>, ghost VB: seq<seq<int>>, ghost A: seq<seq<int>>, ghost B: seq<seq<int>>,
                     ghost LA: Layout, ghost LB: Layout, ghost LC: Layout,
                     it: nat, ie: nat, aBlockSize: nat, aBlocksInRow: nat, bBlocksInRow: nat)
    requires Factors(VA, VB, A, B, LA, LB, LC) && Operands(c, a, b, VA, VB, LC)
    requires it <= ie <= LA.rows && it < LA.rows
    requires aBlockSize == LA.Len(0) && aBlocksInRow == LA.Bpr() && bBlocksInRow == LB.Bpr()
    modifies Blocks(c)
    ensures Operands(c, a, b, VA, VB, LC)
    ensures Added(old(Mat(c, LC)), Mat(c, LC), A, B, it, ie, 0, LB.cols, 0, LA.cols)
  {
    ghost var M0 := Mat(c, LC);
    AddedNothing(M0, A, B, it, ie, 0, LB.cols, 0, 0);
    var kt := 0;
    ghost var done: nat := 0;
    while kt < aBlocksInRow
      invariant kt <= aBlocksInRow && done == Min(LA.Start(kt), LA.cols)
      invariant Operands(c, a, b, VA, VB, LC)
      invariant Added(M0, Mat(c, LC), A, B, it, ie, 0, LB.cols, 0, done)
    {
      InnerBlock(c, a, b, VA, VB, A, B, LA, LB, LC, it, ie, kt, aBlockSize, aBlocksInRow, bBlocksInRow, M0);
      kt := kt + 1;
      done := Min(LA.Start(kt), LA.cols);
    }
    ColumnsDone(LA, kt);
  }

  /** One turn of the kt loop: the terms added so far extend by inner block `kt`. */
  method InnerBlock(c: Grid, a: Grid, b: Grid,
                    ghost VA: seq<seq<int>>, ghost VB: seq<seq<int>>, ghost A: seq<seq<int>>, ghost B: seq<seq<int>>,
                    ghost LA: Layout, ghost LB: Layout, ghost LC: Layout,
                    it: nat, ie: nat, kt: nat, aBlockSize: nat, aBlocksInRow: nat, bBlocksInRow: nat,
                    ghost M0: seq<seq<int>>)
    requires Factors(VA, VB, A, B, LA, LB, LC) && Operands(c, a, b, VA, VB, LC)
    requires it <= ie <= LA.rows && it < LA.rows && kt < aBlocksInRow
    requires aBlockSize == LA.Len(0) && aBlocksInRow == LA.Bpr() && bBlocksInRow == LB.Bpr()
    requires Added(M0, Mat(c, LC), A, B, it, ie, 0, LB.cols, 0, Min(LA.Start(kt), LA.cols))
    modifies Blocks(c)
    ensures Operands(c, a, b, VA, VB, LC)
    ensures Added(M0, Mat(c, LC), A, B, it, ie, 0, LB.cols, 0, Min(LA.Start(kt + 1), LA.cols))
  {
    BlockStarts(LA, kt);
    ghost var k0 := LA.Start(kt);
    ghost var k1 := TileEnd(k0, LA.width, LA.cols);
    ghost var M1 := Mat(c, LC);
    ColumnBlocks(c, a, b, VA, VB, A, B, LA, LB, LC, it, ie, kt, aBlockSize, aBlocksInRow, bBlocksInRow, k0, k1);
    AddedTerms(M0, M1, Mat(c, LC), A, B, it, ie, 0, LB.cols, 0, k0, k1);
  }

  /** The it loop: C0 + A·B into the blocks of `c`. */
  method RowTileBlocks(c: Grid, a: Grid, b: Grid,
                       ghost VA: seq<seq<int>>, ghost VB: seq<seq<int>>, ghost A: seq<seq<int>>, ghost B: seq<seq<int>>,
                       ghost LA: Layout, ghost LB: Layout, ghost LC: Layout,
                       m: nat, mts: nat, aBlockSize: nat, aBlocksInRow: nat, bBlocksInRow: nat)
    requires Factors(VA, VB, A, B, LA, LB, LC) && Operands(c, a, b, VA, VB, LC)
    requires m == LA.rows && mts > 0 && aBlockSize == LA.Len(0) && aBlocksInRow == LA.Bpr() && bBlocksInRow == LB.Bpr()
    modifies Blocks(c)
    ensures Operands(c, a, b, VA, VB, LC)
    ensures Added(old(Mat(c, LC)), Mat(c, LC), A, B, 0, LA.rows, 0, LB.cols, 0, LA.cols)
  {
    ghost var M0 := Mat(c, LC);
    AddedNothing(M0, A, B, 0, 0, 0, LB.cols, 0, LA.cols);
    var it := 0;
    while it < m
      invariant Operands(c, a, b, VA, VB, LC)
      invariant Added(M0, Mat(c, LC), A, B, 0, Min(it, m), 0, LB.cols, 0, LA.cols)
    {
      var ie := TileEnd(it, mts, m);
      ghost var M1 := Mat(c, LC);
      InnerBlocks(c, a, b, VA, VB, A, B, LA, LB, LC, it, ie, aBlockSize, aBlocksInRow, bBlocksInRow);
      AddedRows(M0, M1, Mat(c, LC), A, B, 0, it, ie, 0, LB.cols, 0, LA.cols);
      it := it + mts;
    }
  }

  /** `copyBlocks(src, dst)` between grids of the same number of rows and
      columns: `dst` ends up storing the matrix `src` stores, and `src`
      keeps its values. */
  method Load(src: Grid, ghost LS: Layout, dst: Grid, ghost LD: Layout)
    requires Fits(src, LS) && Fits(dst, LD) && Distinct(dst)
    requires LS.rows == LD.rows && LS.cols == LD.cols
    requires src == dst ==> LS == LD
    requires src == dst || Disjoint(src, dst)
    modifies Blocks(dst)
    ensures Values(src) == old(Values(src))
    ensures Mat(dst, LD) == old(Mat(src, LS))
    ensures src == dst ==> unchanged(Blocks(dst))
  {
    FitsShaped(src, LS);
    FitsShaped(dst, LD);
    ghost var VS, VD := Values(src), Values(dst);
    CopyBlocks(src, dst);
    if src != dst {
      FitsShaped(dst, LD);
      CopyPreservesMatrix(VS, LS, VD, Values(dst), LD);
    }
  }

  /** The two copies into the working grids of `resize`,
      `copyBlocks(a_.array.blocks, a)` and `copyBlocks(b_.array.blocks, b)`:
      afterwards the working grids store A and B, and neither the operands
      nor C's working grid `cg` change. A working grid is the operand's own
      grid or a fresh one that shares no block with the older grids. */
  method LoadOperands(a: Grid, ghost LA0: Layout, b: Grid, ghost LB0: Layout,
                      ag: Grid, ghost LA: Layout, bg: Grid, ghost LB: Layout, ghost cg: Grid)
    requires Fits(a, LA0) && Fits(b, LB0) && Fits(ag, LA) && Fits(bg, LB) && Distinct(ag) && Distinct(bg)
    requires LA0.rows == LA.rows && LA0.cols == LA.cols && LB0.rows == LB.rows && LB0.cols == LB.cols
    requires ag == a ==> LA == LA0
    requires bg == b ==> LB == LB0
    requires ag == a || (Disjoint(ag, a) && Disjoint(ag, b) && Disjoint(ag, cg))
    requires bg == b || (Disjoint(bg, a) && Disjoint(bg, b) && Disjoint(bg, ag) && Disjoint(bg, cg))
    modifies Blocks(ag), Blocks(bg)
    ensures Values(a) == old(Values(a)) && Values(b) == old(Values(b)) && Values(cg) == old(Values(cg))
    ensures Mat(ag, LA) == old(Mat(a, LA0)) && Mat(bg, LB) == old(Mat(b, LB0))
  {
    Load(a, LA0, ag, LA);
    ghost var VA := Values(ag);
    Load(b, LB0, bg, LB);
    assert Values(ag) == VA;
  }

  /** The tiled loops of `resize` and the copy back,
      `copyBlocks(c, c_.array.blocks)`: C's own grid `c` ends up storing the
      matrix C's working grid `cg` held before plus A·B. */
  method MultiplyStore(ghost a: Grid, ghost b: Grid, c: Grid, ghost LC0: Layout, cg: Grid, ag: Grid, bg: Grid,
                       ghost A: seq<seq<int>>, ghost B: seq<seq<int>>,
                       ghost LA: Layout, ghost LB: Layout, ghost LC: Layout,
                       m: nat, mts: nat, aBlockSize: nat, aBlocksInRow: nat, bBlocksInRow: nat)
    requires Fits(c, LC0) && Distinct(c) && LC0.rows == LC.rows && LC0.cols == LC.cols
    requires cg == c ==> LC == LC0
    requires cg == c || Disjoint(cg, c)
    requires Layouts(LA, LB, LC) && Fits(ag, LA) && Fits(bg, LB) && A == Mat(ag, LA) && B == Mat(bg, LB)
    requires Fits(cg, LC) && Distinct(cg) && Disjoint(cg, ag) && Disjoint(cg, bg)
    requires Disjoint(cg, a) && Disjoint(cg, b) && Disjoint(c, a) && Disjoint(c, b)
    requires m == LA.rows && mts > 0 && aBlockSize == LA.Len(0) && aBlocksInRow == LA.Bpr() && bBlocksInRow == LB.Bpr()
    modifies Blocks(cg), Blocks(c)
    ensures Values(a) == old(Values(a)) && Values(b) == old(Values(b))
    ensures Fits(c, LC0) && Distinct(c)
    ensures Added(old(Mat(cg, LC)), Mat(c, LC0), A, B, 0, LA.rows, 0, LB.cols, 0, LA.cols)
  {
    FitsShaped(ag, LA);
    FitsShaped(bg, LB);
    ghost var VA, VB := Values(ag), Values(bg);
    FactorsHold(VA, VB, A, B, LA, LB, LC);
    RowTileBlocks(cg, ag, bg, VA, VB, A, B, LA, LB, LC, m, mts, aBlockSize, aBlocksInRow, bBlocksInRow);
    Load(cg, LC, c, LC0);
  }

  /** The working grids `resize` has chosen: `ag`, `bg` and `cg` are laid
      out by `LA`, `LB` and `LC` with the rows and columns of A, B and C; each
      is its operand's own grid (at the operand's own layout) or a fresh grid
      sharing no block with the grids before it, C's a zero one; C shares no
      block with A or B. */
  ghost predicate Staged(a: Grid, LA0: Layout, b: Grid, LB0: Layout, c: Grid, LC0: Layout,
                         ag: Grid, LA: Layout, bg: Grid, LB: Layout, cg: Grid, LC: Layout, zeroed: bool)
    reads a, b, c, ag, bg, cg, Blocks(cg)
  {
    && Fits(a, LA0) && Fits(b, LB0) && Fits(c, LC0) && Distinct(c)
    && Fits(ag, LA) && Fits(bg, LB) && Fits(cg, LC) && Distinct(ag) && Distinct(bg) && Distinct(cg)
    && Layouts(LA, LB, LC)
    && LA0.rows == LA.rows && LA0.cols == LA.cols && LB0.rows == LB.rows && LB0.cols == LB.cols
    && LC0.rows == LC.rows && LC0.cols == LC.cols
    && (ag == a ==> LA == LA0) && (bg == b ==> LB == LB0)
    && (zeroed <==> cg != c) && (!zeroed ==> LC == LC0) && (zeroed ==> AllZero(cg))
    && Disjoint(c, a) && Disjoint(c, b)
    && (ag == a || Blocks(ag) !! Blocks(a) + Blocks(b) + Blocks(c))
    && (bg == b || Blocks(bg) !! Blocks(a) + Blocks(b) + Blocks(c) + Blocks(ag))
    && (cg == c || Blocks(cg) !! Blocks(a) + Blocks(b) + Blocks(c) + Blocks(ag) + Blocks(bg))
  }

  /** One operand of `resize` made ready: `x` itself when its blocks are at
      most `tile` wide, otherwise a fresh zero grid of `tile`-wide blocks
      that shares no block with `others`; `bpr` is its blocks per row and
      `size` the width of its first block. */
  method StageOperand(x: Grid, L: Layout, tile: nat, ghost others: set<array<int>>)
    returns (g: Grid, bpr: nat, size: nat)
    requires Fits(x, L) && Distinct(x) && tile > 0 && L.rows > 0 && L.cols > 0
    requires L.width <= tile ==> L.cols % L.width == 0
    ensures var L' := Layout(L.rows, L.cols, Rewidth(L.width, tile));
            && Fits(g, L') && Distinct(g) && L'.Valid() && bpr == L'.Bpr() && size == L'.Len(0)
    ensures g == x <==> L.width <= tile
    ensures g != x ==> fresh(g) && fresh(Blocks(g)) && AllZero(g) && Blocks(g) !! others
  {
    g, bpr := Prepare(x, L, tile);
    ghost var L' := Layout(L.rows, L.cols, Rewidth(L.width, tile));
    FirstBlockWidth(L', 0);
    size := g[0].Length;
    if L.width <= tile { ExactBlocksInRow(L.cols, L.width); }
  }

  /** The head of `resize`: A is worked on at the inner tile width `tts`, B
      and C at the column tile width `nts`, each in a fresh zero grid when
      its blocks are wider than the tile; `aBlockSize` is `a[0].size` and
      `bBlockSize` is `b[0].size`. */
  method Stage(a: Grid, LA0: Layout, b: Grid, LB0: Layout, c: Grid, LC0: Layout,
               tts: nat, nts: nat)
    returns (ag: Grid, aBlocksInRow: nat, aBlockSize: nat, bg: Grid, bBlocksInRow: nat, bBlockSize: nat, cg: Grid)
    requires Fits(a, LA0) && Fits(b, LB0) && Fits(c, LC0) && Distinct(a) && Distinct(b) && Distinct(c)
    requires tts > 0 && nts > 0 && LA0.rows > 0 && LA0.cols > 0 && LB0.cols > 0
    requires LA0.cols == LB0.rows && LC0.rows == LA0.rows && LC0.cols == LB0.cols
    requires LA0.width <= tts ==> LA0.cols % LA0.width == 0
    requires LB0.width <= nts ==> LB0.cols % LB0.width == 0
    requires LC0.width <= nts ==> LC0.cols % LC0.width == 0
    requires Rewidth(LC0.width, nts) == Rewidth(LB0.width, nts)
    requires Disjoint(c, a) && Disjoint(c, b)
    ensures var LA := Layout(LA0.rows, LA0.cols, Rewidth(LA0.width, tts));
            var LB := Layout(LB0.rows, LB0.cols, Rewidth(LB0.width, nts));
            && Staged(a, LA0, b, LB0, c, LC0, ag, LA, bg, LB, cg, Layout(LC0.rows, LC0.cols, LB.width), LC0.width > nts)
            && aBlockSize == LA.Len(0) && aBlocksInRow == LA.Bpr() && bBlocksInRow == LB.Bpr()
    ensures (ag == a || fresh(Blocks(ag))) && (bg == b || fresh(Blocks(bg))) && (cg == c || fresh(Blocks(cg)))
    ensures (ag == a <==> LA0.width <= tts) && (bg == b <==> LB0.width <= nts) && (cg == c <==> LC0.width <= nts)
    ensures (ag != a ==> AllZero(ag)) && (bg != b ==> AllZero(bg))
  {
    ghost var LA := Layout(LA0.rows, LA0.cols, Rewidth(LA0.width, tts));
    ag, aBlocksInRow, aBlockSize := StageOperand(a, LA0, tts, Blocks(a) + Blocks(b) + Blocks(c));
    ghost var LB := Layout(LB0.rows, LB0.cols, Rewidth(LB0.width, nts));
    bg, bBlocksInRow, bBlockSize := StageOperand(b, LB0, nts, Blocks(a) + Blocks(b) + Blocks(c) + Blocks(ag));
    var cBlocksInRow, cBlockSize;
    cg, cBlocksInRow, cBlockSize := StageOperand(c, LC0, nts, Blocks(a) + Blocks(b) + Blocks(c) + Blocks(ag) + Blocks(bg));
  }

  /** Everything `resize` does after choosing its working grids: copy A and
      B in, multiply, copy C back. With a fresh zero working grid for C
      (`zeroed`), C ends up holding A·B; with C's own grid, C + A·B. */
  method MultiplyGrids(a: Grid, ghost LA0: Layout, b: Grid, ghost LB0: Layout, c: Grid, ghost LC0: Layout,
                       ag: Grid, ghost LA: Layout, bg: Grid, ghost LB: Layout, cg: Grid, ghost LC: Layout,
                       ghost zeroed: bool, m: nat, mts: nat, aBlockSize: nat, aBlocksInRow: nat, bBlocksInRow: nat)
    requires Staged(a, LA0, b, LB0, c, LC0, ag, LA, bg, LB, cg, LC, zeroed)
    requires m == LA.rows && mts > 0 && aBlockSize == LA.Len(0) && aBlocksInRow == LA.Bpr() && bBlocksInRow == LB.Bpr()
    modifies Blocks(ag), Blocks(bg), Blocks(cg), Blocks(c)
    ensures Values(a) == old(Values(a)) && Values(b) == old(Values(b))
    ensures Fits(c, LC0) && Distinct(c)
    ensures var P := MatMul(old(Mat(a, LA0)), old(Mat(b, LB0)), LA.rows, LA.cols, LB.cols);
            Mat(c, LC0) == if zeroed then P else MatAdd(old(Mat(c, LC0)), P, LA.rows, LB.cols)
  {
    ghost var MA, MB := Mat(a, LA0), Mat(b, LB0);
    if zeroed { ZeroMatrix(cg, LC); }
    ghost var C0 := Mat(cg, LC);
    LoadOperands(a, LA0, b, LB0, ag, LA, bg, LB, cg);
    assert Mat(cg, LC) == C0;
    assert Disjoint(cg, a) && Disjoint(cg, b);
    MultiplyStore(a, b, c, LC0, cg, ag, bg, MA, MB, LA, LB, LC, m, mts, aBlockSize, aBlocksInRow, bBlocksInRow);
    if zeroed {
      AddedAllToZero(C0, Mat(c, LC0), MA, MB, LA.rows, LA.cols, LB.cols);
    } else {
      AddedAll(C0, Mat(c, LC0), MA, MB, LA.rows, LA.cols, LB.cols);
    }
  }

  /** `resize(a_, b_, c_)`. When C's blocks are wider than the column tile,
      C is worked on in a fresh zero grid and copied back, so C ends up
      holding A·B; otherwise C is worked on in place and ends up holding
      C + A·B. A and B keep their values. Kotlin's `m / t`, `a[0]` and `b[0]`
      need t, m and n positive; `shape[1] / blockSize` counts the blocks of a
      row only when the width divides the row, and C is indexed with B's
      blocks per row, so C's working width must be B's. */
  method Resize(a: NDArray, b: NDArray, c: NDArray)
    requires a.Valid() && b.Valid() && c.Valid()
    requires |a.shape| == 2 && |b.shape| == 2 && |c.shape| == 2
    requires a.shape[1] == b.shape[0] && c.shape[0] == a.shape[0] && c.shape[1] == b.shape[1]
    requires a.shape[0] > 0 && b.shape[0] > 0 && b.shape[1] > 0
    requires a.blockSize <= TileSizes(a.shape[0], b.shape[0]).tts ==> a.shape[1] % a.blockSize == 0
    requires b.blockSize <= 512 ==> b.shape[1] % b.blockSize == 0
    requires c.blockSize <= 512 ==> c.shape[1] % c.blockSize == 0
    requires Rewidth(c.blockSize, 512) == Rewidth(b.blockSize, 512)
    requires Disjoint(c.blocks, a.blocks) && Disjoint(c.blocks, b.blocks)
    modifies Blocks(a.blocks), Blocks(b.blocks), Blocks(c.blocks)
    ensures Values(a.blocks) == old(Values(a.blocks)) && Values(b.blocks) == old(Values(b.blocks))
    ensures c.Valid()
    ensures var P := MatMul(old(a.Matrix()), old(b.Matrix()), a.shape[0], b.shape[0], b.shape[1]);
            c.Matrix() == if c.blockSize > 512 then P else MatAdd(old(c.Matrix()), P, a.shape[0], b.shape[1])
  {
    var m, t, n := a.shape[0], b.shape[0], b.shape[1];
    var ts := TileSizes(m, t);
    ghost var MA, MB, MC := a.Matrix(), b.Matrix(), c.Matrix();
    var LA0, LB0, LC0 := a.Lay(), b.Lay(), c.Lay();
    var ag, aBlocksInRow, aBlockSize, bg, bBlocksInRow, bBlockSize, cg :=
      Stage(a.blocks, LA0, b.blocks, LB0, c.blocks, LC0, ts.tts, ts.nts);
    ghost var LA := Layout(m, t, Rewidth(a.blockSize, ts.tts));
    ghost var LB := Layout(t, n, Rewidth(b.blockSize, ts.nts));
    assert Mat(a.blocks, LA0) == MA && Mat(b.blocks, LB0) == MB && Mat(c.blocks, LC0) == MC;
    MultiplyGrids(a.blocks, LA0, b.blocks, LB0, c.blocks, LC0, ag, LA, bg, LB, cg, Layout(m, n, LB.width),
                  c.blockSize > ts.nts, m, ts.mts, aBlockSize, aBlocksInRow, bBlocksInRow);
  }
}
