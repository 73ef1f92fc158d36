/** `NDArrayDot.old` (NDArrayDot.kt): the untiled blocked product. For each
    column block of C and each row, the destination block gains, left block by
    left block of the row of A, the products with the matching blocks of B.
    It adds to C in place and allocates nothing. */
module DotOld {
  import opened BlockLayout
  import opened NDUtil
  import opened DotSpec
  import opened NDArrays

  /** A value, or `None` where the source throws: in
      `BlocksInRowAsWritten`, `None` stands for the
      `ArrayIndexOutOfBoundsException` of reading `shape[1]` of a rank-1 shape. */
  datatype Option<T> = None | Some(value: T)

  /** How `old` ends: it multiplies, or one of its two `require` calls throws. */
  datatype Outcome = Done | BadRank | BadInner

  /** A rank `old` accepts. */
  predicate Ranked(shape: seq<nat>)
  {
    |shape| == 1 || |shape| == 2
  }

  /** The two checks of `old`: ranks in 1..2 and, rank-1 operands read as
      one row, the columns of A equal the rows of B. */
  predicate Admits(sa: seq<nat>, sb: seq<nat>)
  {
    Ranked(sa) && Ranked(sb) && ColsOf(sa) == RowsOf(sb)
  }

  /** The blocks-per-row counts of NDArrayDot.kt:263-264 as written: they read
      `shape[1]` of the operand as passed, not of its rank-2 view, so for a
      rank-1 operand the index is out of bounds and the call throws (None). */
  function BlocksInRowAsWritten(shape: seq<nat>, blockSize: nat): (r: Option<nat>)
    requires blockSize > 0
    ensures r.None? <==> |shape| < 2
  {
    if |shape| >= 2 then Some(shape[1] / blockSize) else None
  }

  /** The counts the loops need: columns of the rank-2 view per block. When
      the block width divides the columns these are the blocks of a row. */
  function BlocksInRowOf(shape: seq<nat>, blockSize: nat): (r: nat)
    requires blockSize > 0
    ensures ColsOf(shape) % blockSize == 0 ==>
              r == BlocksInRow(ColsOf(shape), blockSize) && r * blockSize == ColsOf(shape)
  {
    ColsOf(shape) / blockSize
  }

  /** On matrices the two counts agree: the correction changes nothing for
      rank-2 operands. */
  lemma AsWrittenOnMatrices(shape: seq<nat>, blockSize: nat)
    requires blockSize > 0 && |shape| == 2
    ensures BlocksInRowAsWritten(shape, blockSize) == Some(BlocksInRowOf(shape, blockSize))
  {
  }

  /** A 3-vector times a 3 x 2 matrix passes both checks of `old`, yet the
      count as written has no `shape[1]` to read for the vector; its rank-2
      view has one block of width 3. */
  lemma RankOneOperandThrows()
    ensures Admits([3], [3, 2])
    ensures BlocksInRowAsWritten([3], 3) == None
    ensures BlocksInRowOf([3], 3) == 1
  {
  }

  /** The k loop of `old`, `for (k in 0 until lBlockSize)`: the destination
      block `ci` (columns c0 on) gains the terms [k0, k0 + lBlockSize) that
      left block `lCol` of row `i` holds. */
  method LeftBlockTerms(ci: array<int>, ai: array<int>, b: Grid,
                        ghost VB: seq<seq<int>>, ghost A: seq<seq<int>>, ghost B: seq<seq<int>>,
                        i: nat, lCol: nat, rdCol: nat, lBlockSize: nat, rdBlocksInRow: nat,
                        ghost x0: seq<int>, ghost c0: nat, ghost k0: nat)
    requires ai.Length == lBlockSize && k0 == lCol * lBlockSize && Holds(ai[..], A, i, k0)
    requires forall ka {:trigger RightRow(VB, B, rdBlocksInRow, rdCol, ka, c0, ci.Length)} :: k0 <= ka < k0 + lBlockSize ==>
               RightRow(VB, B, rdBlocksInRow, rdCol, ka, c0, ci.Length)
    requires Values(b) == VB && ci !in Blocks(b) && ci != ai
    requires Gained(ci[..], x0, A, B, i, c0, 0, ci.Length, 0, k0)
    modifies ci
    ensures Gained(ci[..], x0, A, B, i, c0, 0, ci.Length, 0, k0 + lBlockSize)
  {
    var k := 0;
    while k < lBlockSize
      invariant k <= lBlockSize
      invariant Values(b) == VB && Holds(ai[..], A, i, k0)
      invariant Gained(ci[..], x0, A, B, i, c0, 0, ci.Length, 0, k0 + k)
    {
      assert RightRow(VB, B, rdBlocksInRow, rdCol, k0 + k, c0, ci.Length);
      ProductTerm(ci, ai, b, VB, A, B, i, lCol, rdCol, k, lBlockSize, rdBlocksInRow, x0, c0, k0, 0);
      k := k + 1;
    }
  }

  /** The lCol loop of `old`: the destination block `destBlock`, block
      `rdCol` of row `i` of C, gains every term of its dot products, left
      block by left block of row `i` of A. */
  method LeftBlocks(destBlock: array<int>, a: Grid, b: Grid,
                    ghost VA: seq<seq<int>>, ghost VB: seq<seq<int>>, ghost A: seq<seq<int>>, ghost B: seq<seq<int>>,
                    ghost LA: Layout, ghost LB: Layout, ghost LC: Layout,
                    i: nat, rdCol: nat, lBlockSize: nat, lBlocksInRow: nat, rdBlocksInRow: nat)
    requires Stored(VA, VB, A, B, LA, LB, LC)
    requires Values(a) == VA && Values(b) == VB && destBlock !in Blocks(a) && destBlock !in Blocks(b)
    requires i < LA.rows && rdCol < rdBlocksInRow == LB.Bpr() && destBlock.Length == LB.width
    requires lBlockSize == LA.width && lBlocksInRow == LA.Bpr()
    modifies destBlock
    ensures Gained(destBlock[..], old(destBlock[..]), A, B, i, rdCol * LB.width, 0, destBlock.Length, 0, LA.cols)
  {
    ghost var x0 := destBlock[..];
    ghost var c0 := rdCol * LB.width;
    GainedNone(x0, A, B, i, c0, 0, destBlock.Length, 0);
    var leftBlockOffset := i * lBlocksInRow;
    var lCol := 0;
    ghost var done := 0;
    while lCol < lBlocksInRow
      invariant lCol <= lBlocksInRow && done == lCol * lBlockSize
      invariant Values(a) == VA && Values(b) == VB
      invariant Gained(destBlock[..], x0, A, B, i, c0, 0, destBlock.Length, 0, done)
    {
      StoredOperands(VA, VB, A, B, LA, LB, LC, i, lCol, rdCol, done, c0);
      var leftBlock := a[leftBlockOffset + lCol];
      assert leftBlock in Blocks(a) && leftBlock[..] == VA[leftBlockOffset + lCol];
      LeftBlockTerms(destBlock, leftBlock, b, VB, A, B, i, lCol, rdCol, lBlockSize, rdBlocksInRow, x0, c0, done);
      lCol, done := lCol + 1, done + lBlockSize;
    }
    RowWidth(LA);
  }

  /** One turn of the i loop of `old`: destination block `rdCol` of row `i`
      gains every term of its dot products. */
  method DestBlock(c: Grid, a: Grid, b: Grid,
                   ghost VA: seq<seq<int>>, ghost VB: seq<seq<int>>, ghost A: seq<seq<int>>, ghost B: seq<seq<int>>,
                   ghost LA: Layout, ghost LB: Layout, ghost LC: Layout,
                   i: nat, rdCol: nat, lBlockSize: nat, lBlocksInRow: nat, rdBlocksInRow: nat,
                   ghost c0: nat)
    requires Stored(VA, VB, A, B, LA, LB, LC) && Operands(c, a, b, VA, VB, LC)
    requires i < LA.rows && rdCol < rdBlocksInRow == LB.Bpr() && c0 == rdCol * LC.width
    requires lBlockSize == LA.width && lBlocksInRow == LA.Bpr()
    modifies Blocks(c)
    ensures Operands(c, a, b, VA, VB, LC)
    ensures Added(old(Mat(c, LC)), Mat(c, LC), A, B, i, i + 1, c0, c0 + LC.width, 0, LA.cols)
  {
    FullBlock(LC, i, rdCol);
    FitsShaped(c, LC);
    ghost var V := Values(c);
    var bi := i * rdBlocksInRow + rdCol;
    var destBlock := c[bi];
    assert destBlock in Blocks(c);
    LeftBlocks(destBlock, a, b, VA, VB, A, B, LA, LB, LC, i, rdCol, lBlockSize, lBlocksInRow, rdBlocksInRow);
    assert Values(c) == V[bi := destBlock[..]];
    BlockAdded(V, LC, i, rdCol, destBlock[..], A, B, c0, 0, destBlock.Length, 0, LA.cols);
  }

  /** The i loop of `old`: column block `rdCol` of every row gains every
      term of its dot products. */
  method ColumnOfBlocks(c: Grid, a: Grid, b: Grid,
                        ghost VA: seq<seq<int>>, ghost VB: seq<seq<int>>, ghost A: seq<seq<int>>, ghost B: seq<seq<int>>,
                        ghost LA: Layout, ghost LB: Layout, ghost LC: Layout,
                        n: nat, rdCol: nat, lBlockSize: nat, lBlocksInRow: nat, rdBlocksInRow: nat,
                        ghost c0: nat)
    requires Stored(VA, VB, A, B, LA, LB, LC) && Operands(c, a, b, VA, VB, LC)
    requires n == LA.rows && rdCol < rdBlocksInRow == LB.Bpr() && c0 == rdCol * LC.width
    requires lBlockSize == LA.width && lBlocksInRow == LA.Bpr()
    modifies Blocks(c)
    ensures Operands(c, a, b, VA, VB, LC)
    ensures Added(old(Mat(c, LC)), Mat(c, LC), A, B, 0, n, c0, c0 + LC.width, 0, LA.cols)
  {
    ghost var M0 := Mat(c, LC);
    ghost var c1 := c0 + LC.width;
    AddedNothing(M0, A, B, 0, 0, c0, c1, 0, LA.cols);
    var i := 0;
    while i < n
      invariant i <= n
      invariant Operands(c, a, b, VA, VB, LC)
      invariant Added(M0, Mat(c, LC), A, B, 0, i, c0, c1, 0, LA.cols)
    {
      ghost var M1 := Mat(c, LC);
      DestBlock(c, a, b, VA, VB, A, B, LA, LB, LC, i, rdCol, lBlockSize, lBlocksInRow, rdBlocksInRow, c0);
      AddedRows(M0, M1, Mat(c, LC), A, B, 0, i, i + 1, c0, c1, 0, LA.cols);
      i := i + 1;
    }
  }

  /** The loops of `old`: every cell of C gains every term of its dot
      product, column block by column block. */
  method OldKernel(c: Grid, a: Grid, b: Grid,
                   ghost VA: seq<seq<int>>, ghost VB: seq<seq<int>>, ghost A: seq<seq<int>>, ghost B: seq<seq<int>>,
                   ghost LA: Layout, ghost LB: Layout, ghost LC: Layout,
                   n: nat, lBlockSize: nat, lBlocksInRow: nat, rdBlocksInRow: nat)
    requires Stored(VA, VB, A, B, LA, LB, LC) && Operands(c, a, b, VA, VB, LC)
    requires n == LA.rows && rdBlocksInRow == LB.Bpr()
    requires lBlockSize == LA.width && lBlocksInRow == LA.Bpr()
    modifies Blocks(c)
    ensures Operands(c, a, b, VA, VB, LC)
    ensures Added(old(Mat(c, LC)), Mat(c, LC), A, B, 0, n, 0, LC.cols, 0, LA.cols)
  {
    ghost var M0 := Mat(c, LC);
    AddedNothing(M0, A, B, 0, n, 0, 0, 0, LA.cols);
    var rdCol := 0;
    ghost var done := 0;
    while rdCol < rdBlocksInRow
      invariant rdCol <= rdBlocksInRow && done == rdCol * LC.width
      invariant Operands(c, a, b, VA, VB, LC)
      invariant Added(M0, Mat(c, LC), A, B, 0, n, 0, done, 0, LA.cols)
    {
      ghost var M1 := Mat(c, LC);
      ColumnOfBlocks(c, a, b, VA, VB, A, B, LA, LB, LC, n, rdCol, lBlockSize, lBlocksInRow, rdBlocksInRow, done);
      AddedColumns(M0, M1, Mat(c, LC), A, B, 0, n, 0, done, done + LC.width, 0, LA.cols);
      MulSucc(rdCol, LC.width);
      rdCol, done := rdCol + 1, done + LC.width;
    }
    RowWidth(LB);
  }

  /** What `old` silently assumes of operands that pass its checks: all three
      arrays well formed, C shaped as A·B, A's block width dividing its
      columns, B sharing C's block width and C's width dividing its columns,
      and C sharing no block with A or B. */
  ghost predicate OldOperands(a: NDArray, b: NDArray, c: NDArray)
    reads a.blocks, b.blocks, c.blocks
  {
    && a.Valid() && b.Valid() && c.Valid()
    && c.Rows() == a.Rows() && c.Cols() == b.Cols()
    && a.Cols() % a.blockSize == 0
    && b.blockSize == c.blockSize && c.Cols() % c.blockSize == 0
    && Disjoint(c.blocks, a.blocks) && Disjoint(c.blocks, b.blocks)
  }

  /** `NDArrayDot.old`: throws on a rank outside 1..2 or a mismatch of the
      inner dimensions, and otherwise adds A·B to C, reading a rank-1
      operand as one row (with the blocks-per-row counts taken from that
      rank-2 view). A and B are left as they were. */
  method Old(a: NDArray, b: NDArray, c: NDArray) returns (r: Outcome)
    requires Admits(a.shape, b.shape) ==> OldOperands(a, b, c)
    modifies Blocks(c.blocks)
    ensures r == if !Ranked(a.shape) || !Ranked(b.shape) then BadRank
                 else if ColsOf(a.shape) != RowsOf(b.shape) then BadInner else Done
    ensures r != Done ==> unchanged(Blocks(c.blocks))
    ensures r == Done ==>
              && Values(a.blocks) == old(Values(a.blocks)) && Values(b.blocks) == old(Values(b.blocks))
              && c.Valid()
              && c.Matrix() == MatAdd(old(c.Matrix()), MatMul(old(a.Matrix()), old(b.Matrix()),
                                      a.Rows(), a.Cols(), b.Cols()), a.Rows(), b.Cols())
  {
    if !Ranked(a.shape) || !Ranked(b.shape) {
      return BadRank;
    }
    if a.Cols() != b.Rows() {
      return BadInner;
    }
    var n := a.Rows();
    var lBlockSize := a.blockSize;
    var rdBlockSize := c.blockSize;
    var lBlocksInRow := BlocksInRowOf(a.shape, lBlockSize);
    var rdBlocksInRow := BlocksInRowOf(b.shape, rdBlockSize);
    ghost var LA, LB, LC := a.Lay(), b.Lay(), c.Lay();
    FitsShaped(a.blocks, LA);
    FitsShaped(b.blocks, LB);
    ghost var VA, VB := Values(a.blocks), Values(b.blocks);
    ghost var A, B, C0 := Mat(a.blocks, LA), Mat(b.blocks, LB), Mat(c.blocks, LC);
    FactorsHold(VA, VB, A, B, LA, LB, LC);
    OldKernel(c.blocks, a.blocks, b.blocks, VA, VB, A, B, LA, LB, LC, n, lBlockSize, lBlocksInRow, rdBlocksInRow);
    AddedAll(C0, Mat(c.blocks, LC), A, B, LA.rows, LA.cols, LB.cols);
    r := Done;
  }
}
