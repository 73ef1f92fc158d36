/** `NDArrayDot.new` (NDArrayDot.kt): the tiled product over the blocks as
    they are. Row tiles, inner tiles and column tiles split the iteration
    space as in `copy`, but every element is reached through offset cursors
    into the block grids of A, B and C that the loops advance by hand. It
    adds to C in place and allocates nothing. */
module DotNew {
  import opened BlockLayout
  import opened NDUtil
  import opened DotSpec
  import opened NDArrays

  /** A position x == q * w + o (o >= 0) of a row of `bpr` blocks of width
      `w` lies in a block of that row: q < bpr. */
  lemma BlockBound(x: nat, q: nat, o: nat, w: nat, bpr: nat)
    requires w > 0 && x == q * w + o && x < bpr * w
    ensures q < bpr
  {
    if q >= bpr {
      MulMono(bpr, q, w);
    }
  }

  /** `x / w` and `x % w` for a column `x` of a row laid out by `L`: the
      block of the row that holds it and the offset in that block. */
  method BlockOf(x: nat, w: nat, ghost L: Layout) returns (q: nat, o: nat)
    requires L.Valid() && w == L.width && x < L.cols
    ensures x == q * w + o && o < w && q < L.Bpr()
  {
    ColumnBlock(L, x);
    q := x / w;
    o := x % w;
  }

  /** The innermost loop of `new`, `while (jj < bBlockSize && j < je)`: the
      offset `jj` in the block and the column `j` advance together until the
      block or the column tile ends. With `aik` the element A[i][k] and `bb`
      holding row `k` of B from column c0 on, the block `cb` (columns c0 on)
      gains term k of its dot products at the offsets [jj0, jj) passed. */
  method Run(cb: array<int>, bb: array<int>, aik: int, jj0: nat, j0: nat, je: nat, bBlockSize: nat,
             ghost A: seq<seq<int>>, ghost B: seq<seq<int>>, ghost i: nat, ghost k: nat, ghost c0: nat)
    returns (jj: nat, j: nat)
    requires cb != bb && jj0 <= bBlockSize <= cb.Length && bBlockSize <= bb.Length && j0 <= je
    requires aik == Entry(A, i, k) && Holds(bb[..], B, k, c0)
    modifies cb
    ensures jj - jj0 == j - j0 && jj <= bBlockSize && j <= je && (jj == bBlockSize || j == je)
    ensures Gained(cb[..], old(cb[..]), A, B, i, c0, jj0, jj, k, k + 1)
  {
    ghost var before := cb[..];
    jj, j := jj0, j0;
    while jj < bBlockSize && j < je
      invariant jj0 <= jj <= bBlockSize && j0 <= j <= je && jj - jj0 == j - j0
      invariant forall o :: 0 <= o < cb.Length ==>
                  cb[o] == before[o] + if jj0 <= o < jj then aik * bb[o] else 0
    {
      cb[jj] := cb[jj] + aik * bb[jj];
      jj, j := jj + 1, j + 1;
    }
    GainedNone(before, A, B, i, c0, jj0, jj, k);
    GainedArrayStep(cb, before, bb, bb[..], before, A, B, i, c0, jj0, jj, k, k, aik);
  }

  /** Block `jb` of row `k` of B, inside the inner block `kb` of row `i` of
      A, is full width and holds that row of B from column c0 on. */
  lemma RightOperand(VA: seq<seq<int>>, VB: seq<seq<int>>, A: seq<seq<int>>, B: seq<seq<int>>,
                     LA: Layout, LB: Layout, LC: Layout, i: nat, k: nat, kb: nat, jb: nat, c0: nat)
    requires Stored(VA, VB, A, B, LA, LB, LC)
    requires i < LA.rows && kb < LA.Bpr() && kb * LA.width <= k < kb * LA.width + LA.width
    requires jb < LB.Bpr() && c0 == jb * LB.width
    ensures RightRow(VB, B, LB.Bpr(), jb, k, c0, LB.width)
  {
    StoredOperands(VA, VB, A, B, LA, LB, LC, i, kb, jb, kb * LA.width, c0);
  }

  /** Block `kb` of row `i` of A is full width and holds that row of A from
      column kb * width on. */
  lemma LeftOperand(VA: seq<seq<int>>, VB: seq<seq<int>>, A: seq<seq<int>>, B: seq<seq<int>>,
                    LA: Layout, LB: Layout, LC: Layout, i: nat, kb: nat, jb: nat)
    requires Stored(VA, VB, A, B, LA, LB, LC)
    requires i < LA.rows && kb < LA.Bpr() && jb < LB.Bpr()
    ensures i * LA.Bpr() + kb < |VA| && |VA[i * LA.Bpr() + kb]| == LA.width
    ensures Holds(VA[i * LA.Bpr() + kb], A, i, kb * LA.width)
  {
    StoredOperands(VA, VB, A, B, LA, LB, LC, i, kb, jb, kb * LA.width, jb * LB.width);
  }

  /** One turn of the j loop of `new` for row `i` and inner index `k`, with
      `aik` the element A[i][k]: the blocks at the cursors `bOffset` and
      `cOffset`, block `jb` of row `k` of B and of row `i` of C, from offset
      `jj` (column `j`) on. C gains term k at the columns [j, j') the run
      covers, and the run stops at the end of the block or of the tile. */
  method SpanBlock(c: Grid, a: Grid, b: Grid,
                   ghost VA: seq<seq<int>>, ghost VB: seq<seq<int>>, ghost A: seq<seq<int>>, ghost B: seq<seq<int>>,
                   ghost LC: Layout,
                   i: nat, k: nat, aik: int, jj: nat, j: nat, je: nat, bOffset: nat, cOffset: nat,
                   bBlockSize: nat, bBlocksInRow: nat, ghost jb: nat, ghost c0: nat)
    returns (jj': nat, j': nat)
    requires Operands(c, a, b, VA, VB, LC) && LC.Valid() && LC.Last() == LC.width
    requires i < LC.rows && jb < LC.Bpr() == bBlocksInRow && bBlockSize == LC.width
    requires c0 == jb * bBlockSize && j == c0 + jj && jj < bBlockSize && j < je <= LC.cols
    requires aik == Entry(A, i, k) && RightRow(VB, B, bBlocksInRow, jb, k, c0, bBlockSize)
    requires bOffset == k * bBlocksInRow + jb && cOffset == i * bBlocksInRow + jb
    modifies Blocks(c)
    ensures Operands(c, a, b, VA, VB, LC)
    ensures j < j' <= je && jj' - jj == j' - j && jj' <= bBlockSize && (jj' == bBlockSize || j' == je)
    ensures Added(old(Mat(c, LC)), Mat(c, LC), A, B, i, i + 1, j, j', k, k + 1)
  {
    FullBlock(LC, i, jb);
    FitsShaped(c, LC);
    ghost var V := Values(c);
    var bb := b[bOffset];
    var cb := c[cOffset];
    assert bb in Blocks(b) && cb in Blocks(c);
    jj', j' := Run(cb, bb, aik, jj, j, je, bBlockSize, A, B, i, k, c0);
    assert Values(c) == V[cOffset := cb[..]];
    BlockAdded(V, LC, i, jb, cb[..], A, B, c0, jj, jj', k, k + 1);
  }

  /** The j loop of `new`, `while (j < je)`, for row `i` and inner index `k`:
      from column jt, offset jbOff of block jb0, the cursors walk the blocks
      of row `k` of B and of row `i` of C until the column tile ends, and C
      gains term k at the columns [jt, je). */
  method RowSpan(c: Grid, a: Grid, b: Grid,
                 ghost VA: seq<seq<int>>, ghost VB: seq<seq<int>>, ghost A: seq<seq<int>>, ghost B: seq<seq<int>>,
                 ghost LA: Layout, ghost LB: Layout, ghost LC: Layout,
                 i: nat, k: nat, aik: int, jt: nat, je: nat, jbOff: nat, brOffset: nat, crOffset: nat,
                 bBlockSize: nat, bBlocksInRow: nat, ghost kb: nat, ghost jb0: nat)
    requires Stored(VA, VB, A, B, LA, LB, LC) && Operands(c, a, b, VA, VB, LC)
    requires i < LA.rows && kb < LA.Bpr() && kb * LA.width <= k < kb * LA.width + LA.width
    requires aik == Entry(A, i, k)
    requires bBlockSize == LB.width && bBlocksInRow == LB.Bpr()
    requires jt == jb0 * bBlockSize + jbOff && jbOff < bBlockSize && jt <= je <= LB.cols
    requires brOffset == k * bBlocksInRow + jb0 && crOffset == i * bBlocksInRow + jb0
    modifies Blocks(c)
    ensures Operands(c, a, b, VA, VB, LC)
    ensures Added(old(Mat(c, LC)), Mat(c, LC), A, B, i, i + 1, jt, je, k, k + 1)
  {
    ghost var M0 := Mat(c, LC);
    AddedNothing(M0, A, B, i, i + 1, jt, jt, k, k + 1);
    RowWidth(LB);
    var j: nat := jt;
    var jj: nat := jbOff;
    var bOffset: nat := brOffset;
    var cOffset: nat := crOffset;
    ghost var jb: nat := jb0;
    while j < je
      invariant jt <= j <= je && Operands(c, a, b, VA, VB, LC)
      invariant j < je ==> && j == jb * bBlockSize + jj && jj < bBlockSize
                           && bOffset == k * bBlocksInRow + jb && cOffset == i * bBlocksInRow + jb
      invariant Added(M0, Mat(c, LC), A, B, i, i + 1, jt, j, k, k + 1)
      decreases je - j
    {
      BlockBound(j, jb, jj, bBlockSize, bBlocksInRow);
      ghost var M1 := Mat(c, LC);
      ghost var j0 := j;
      RightOperand(VA, VB, A, B, LA, LB, LC, i, k, kb, jb, jb * bBlockSize);
      jj, j := SpanBlock(c, a, b, VA, VB, A, B, LC, i, k, aik, jj, j, je, bOffset, cOffset,
                         bBlockSize, bBlocksInRow, jb, jb * bBlockSize);
      AddedColumns(M0, M1, Mat(c, LC), A, B, i, i + 1, jt, j0, j, k, k + 1);
      MulSucc(jb, bBlockSize);
      jj, bOffset, cOffset, jb := 0, bOffset + 1, cOffset + 1, jb + 1;
    }
  }

  /** The kk loop of `new`, `while (kk < aBlockSize && k < ke)`: `ab` is
      block kb of row `i` of A, read at offset kk while k == kb * aBlockSize
      + kk, one inner index after the other until the block or the inner
      tile ends; each index k adds term k to the columns [jt, je) of row `i`
      of C, and the cursor `brOffset` moves one row of B down. */
  method LeftRun(c: Grid, a: Grid, b: Grid,
                 ghost VA: seq<seq<int>>, ghost VB: seq<seq<int>>, ghost A: seq<seq<int>>, ghost B: seq<seq<int>>,
                 ghost LA: Layout, ghost LB: Layout, ghost LC: Layout,
                 ab: array<int>, ghost aOffset: nat, i: nat, kk0: nat, k0: nat, ke: nat,
                 jt: nat, je: nat, jbOff: nat, brOffset0: nat, crOffset: nat,
                 aBlockSize: nat, bBlockSize: nat, bBlocksInRow: nat, ghost kb: nat, ghost jb0: nat)
    returns (kk: nat, k: nat, brOffset: nat)
    requires Stored(VA, VB, A, B, LA, LB, LC) && Operands(c, a, b, VA, VB, LC)
    requires i < LA.rows && kb < LA.Bpr() && aBlockSize == LA.width
    requires aOffset == i * LA.Bpr() + kb && aOffset < |VA| && |VA[aOffset]| == aBlockSize
    requires Holds(VA[aOffset], A, i, kb * aBlockSize) && aOffset < a.Length && a[aOffset] == ab
    requires k0 == kb * aBlockSize + kk0 && kk0 <= aBlockSize && k0 <= ke <= LA.cols
    requires bBlockSize == LB.width && bBlocksInRow == LB.Bpr() && jb0 < bBlocksInRow
    requires jt == jb0 * bBlockSize + jbOff && jbOff < bBlockSize && jt <= je <= LB.cols
    requires brOffset0 == k0 * bBlocksInRow + jb0 && crOffset == i * bBlocksInRow + jb0
    modifies Blocks(c)
    ensures Operands(c, a, b, VA, VB, LC)
    ensures k0 <= k <= ke && k == kb * aBlockSize + kk && kk <= aBlockSize && (kk == aBlockSize || k == ke)
    ensures brOffset == k * bBlocksInRow + jb0
    ensures Added(old(Mat(c, LC)), Mat(c, LC), A, B, i, i + 1, jt, je, k0, k)
  {
    ghost var M0 := Mat(c, LC);
    AddedNothing(M0, A, B, i, i + 1, jt, je, k0, k0);
    kk, k, brOffset := kk0, k0, brOffset0;
    while kk < aBlockSize && k < ke
      invariant k0 <= k <= ke && k == kb * aBlockSize + kk && kk <= aBlockSize
      invariant brOffset == k * bBlocksInRow + jb0
      invariant Operands(c, a, b, VA, VB, LC)
      invariant Added(M0, Mat(c, LC), A, B, i, i + 1, jt, je, k0, k)
    {
      assert ab[..] == VA[aOffset];
      var aik := ab[kk];
      ghost var M1 := Mat(c, LC);
      RowSpan(c, a, b, VA, VB, A, B, LA, LB, LC, i, k, aik, jt, je, jbOff, brOffset, crOffset,
              bBlockSize, bBlocksInRow, kb, jb0);
      AddedTerms(M0, M1, Mat(c, LC), A, B, i, i + 1, jt, je, k0, k, k + 1);
      MulSucc(k, bBlocksInRow);
      kk, k, brOffset := kk + 1, k + 1, brOffset + bBlocksInRow;
    }
  }

  /** The k loop of `new` for row `i`, `while (k < ke)`: from inner index kt,
      offset kbOff of block kb0 of row `i` of A, block after block of A is
      fetched at the cursor `aOffset` and run through; row `i` of C gains
      the terms [kt, ke) at the columns [jt, je). */
  method RowTerms(c: Grid, a: Grid, b: Grid,
                  ghost VA: seq<seq<int>>, ghost VB: seq<seq<int>>, ghost A: seq<seq<int>>, ghost B: seq<seq<int>>,
                  ghost LA: Layout, ghost LB: Layout, ghost LC: Layout,
                  i: nat, kt: nat, ke: nat, kbOff: nat, arOffset: nat,
                  jt: nat, je: nat, jbOff: nat, btOffset: nat, crOffset: nat,
                  aBlockSize: nat, bBlockSize: nat, bBlocksInRow: nat, ghost kb0: nat, ghost jb0: nat)
    requires Stored(VA, VB, A, B, LA, LB, LC) && Operands(c, a, b, VA, VB, LC)
    requires i < LA.rows && aBlockSize == LA.width
    requires kt == kb0 * aBlockSize + kbOff && kbOff < aBlockSize && kt <= ke <= LA.cols
    requires arOffset == i * LA.Bpr() + kb0
    requires bBlockSize == LB.width && bBlocksInRow == LB.Bpr() && jb0 < bBlocksInRow
    requires jt == jb0 * bBlockSize + jbOff && jbOff < bBlockSize && jt <= je <= LB.cols
    requires btOffset == kt * bBlocksInRow + jb0 && crOffset == i * bBlocksInRow + jb0
    modifies Blocks(c)
    ensures Operands(c, a, b, VA, VB, LC)
    ensures Added(old(Mat(c, LC)), Mat(c, LC), A, B, i, i + 1, jt, je, kt, ke)
  {
    ghost var M0 := Mat(c, LC);
    AddedNothing(M0, A, B, i, i + 1, jt, je, kt, kt);
    RowWidth(LA);
    var k: nat := kt;
    var kk: nat := kbOff;
    var aOffset: nat := arOffset;
    var brOffset: nat := btOffset;
    ghost var kb: nat := kb0;
    while k < ke
      invariant kt <= k <= ke && Operands(c, a, b, VA, VB, LC)
      invariant k < ke ==> && k == kb * aBlockSize + kk && kk < aBlockSize && aOffset == i * LA.Bpr() + kb
      invariant brOffset == k * bBlocksInRow + jb0
      invariant Added(M0, Mat(c, LC), A, B, i, i + 1, jt, je, kt, k)
      decreases ke - k
    {
      BlockBound(k, kb, kk, aBlockSize, LA.Bpr());
      LeftOperand(VA, VB, A, B, LA, LB, LC, i, kb, jb0);
      var ab := a[aOffset];
      ghost var M1 := Mat(c, LC);
      ghost var k1 := k;
      kk, k, brOffset := LeftRun(c, a, b, VA, VB, A, B, LA, LB, LC, ab, aOffset, i, kk, k, ke,
                                 jt, je, jbOff, brOffset, crOffset, aBlockSize, bBlockSize, bBlocksInRow, kb, jb0);
      AddedTerms(M0, M1, Mat(c, LC), A, B, i, i + 1, jt, je, kt, k1, k);
      MulSucc(kb, aBlockSize);
      kk, aOffset, kb := 0, aOffset + 1, kb + 1;
    }
  }

  /** The i loop of a tile, `for (i in it until ie)`: the cursors `arOffset`
      and `crOffset` move one row of A and of C down per row; the rows
      [it, ie) of C gain the terms [kt, ke) at the columns [jt, je). */
  method TileRows(c: Grid, a: Grid, b: Grid,
                  ghost VA: seq<seq<int>>, ghost VB: seq<seq<int>>, ghost A: seq<seq<int>>, ghost B: seq<seq<int>>,
                  ghost LA: Layout, ghost LB: Layout, ghost LC: Layout,
                  it: nat, ie: nat, kt: nat, ke: nat, kbOff: nat, atOffset: nat,
                  jt: nat, je: nat, jbOff: nat, btOffset: nat, ctOffset: nat,
                  aBlockSize: nat, aBlocksInRow: nat, bBlockSize: nat, bBlocksInRow: nat,
                  ghost kb0: nat, ghost jb0: nat)
    requires Stored(VA, VB, A, B, LA, LB, LC) && Operands(c, a, b, VA, VB, LC)
    requires it <= ie <= LA.rows && aBlockSize == LA.width && aBlocksInRow == LA.Bpr()
    requires kt == kb0 * aBlockSize + kbOff && kbOff < aBlockSize && kt <= ke <= LA.cols
    requires bBlockSize == LB.width && bBlocksInRow == LB.Bpr() && jb0 < bBlocksInRow
    requires jt == jb0 * bBlockSize + jbOff && jbOff < bBlockSize && jt <= je <= LB.cols
    requires atOffset == it * aBlocksInRow + kb0 && ctOffset == it * bBlocksInRow + jb0
    requires btOffset == kt * bBlocksInRow + jb0
    modifies Blocks(c)
    ensures Operands(c, a, b, VA, VB, LC)
    ensures Added(old(Mat(c, LC)), Mat(c, LC), A, B, it, ie, jt, je, kt, ke)
  {
    ghost var M0 := Mat(c, LC);
    AddedNothing(M0, A, B, it, it, jt, je, kt, ke);
    var crOffset: nat := ctOffset;
    var arOffset: nat := atOffset;
    var i: nat := it;
    while i < ie
      invariant it <= i <= ie && Operands(c, a, b, VA, VB, LC)
      invariant arOffset == i * aBlocksInRow + kb0 && crOffset == i * bBlocksInRow + jb0
      invariant Added(M0, Mat(c, LC), A, B, it, i, jt, je, kt, ke)
    {
      ghost var M1 := Mat(c, LC);
      RowTerms(c, a, b, VA, VB, A, B, LA, LB, LC, i, kt, ke, kbOff, arOffset,
               jt, je, jbOff, btOffset, crOffset, aBlockSize, bBlockSize, bBlocksInRow, kb0, jb0);
      AddedRows(M0, M1, Mat(c, LC), A, B, it, i, i + 1, jt, je, kt, ke);
      MulSucc(i, aBlocksInRow);
      MulSucc(i, bBlocksInRow);
      arOffset, crOffset := arOffset + aBlocksInRow, crOffset + bBlocksInRow;
      i := i + 1;
    }
  }

  /** The body of the jt loop of `new` for the column tile [jt, je): the
      block jb = jt / bBlockSize and offset jt % bBlockSize where the tile
      starts in a row of B and of C, and the cursors into A, B and C for the
      first row of the row tile, from which the i loop runs. */
  method ColumnTile(c: Grid, a: Grid, b: Grid,
                    ghost VA: seq<seq<int>>, ghost VB: seq<seq<int>>, ghost A: seq<seq<int>>, ghost B: seq<seq<int>>,
                    ghost LA: Layout, ghost LB: Layout, ghost LC: Layout,
                    it: nat, ie: nat, kt: nat, ke: nat, kbOff: nat, atOffset: nat, jt: nat, je: nat,
                    aBlockSize: nat, aBlocksInRow: nat, bBlockSize: nat, bBlocksInRow: nat, ghost kb0: nat)
    requires Stored(VA, VB, A, B, LA, LB, LC) && Operands(c, a, b, VA, VB, LC)
    requires it <= ie <= LA.rows && aBlockSize == LA.width && aBlocksInRow == LA.Bpr()
    requires kt == kb0 * aBlockSize + kbOff && kbOff < aBlockSize && kt <= ke <= LA.cols
    requires atOffset == it * aBlocksInRow + kb0
    requires bBlockSize == LB.width && bBlocksInRow == LB.Bpr() && jt < je <= LB.cols
    modifies Blocks(c)
    ensures Operands(c, a, b, VA, VB, LC)
    ensures Added(old(Mat(c, LC)), Mat(c, LC), A, B, it, ie, jt, je, kt, ke)
  {
    var jb, jbOff := BlockOf(jt, bBlockSize, LB);
    var crOffset := it * bBlocksInRow + jb;
    var arOffset := atOffset;
    var btOffset := kt * bBlocksInRow + jb;
    TileRows(c, a, b, VA, VB, A, B, LA, LB, LC, it, ie, kt, ke, kbOff, arOffset,
             jt, je, jbOff, btOffset, crOffset, aBlockSize, aBlocksInRow, bBlockSize, bBlocksInRow, kb0, jb);
  }

  /** The jt loop of `new`: column tile after column tile, the rows
      [it, ie) of C gain the terms [kt, ke) of their dot products. */
  method ColumnTiles(c: Grid, a: Grid, b: Grid,
                     ghost VA: seq<seq<int>>, ghost VB: seq<seq<int>>, ghost A: seq<seq<int>>, ghost B: seq<seq<int>>,
                     ghost LA: Layout, ghost LB: Layout, ghost LC: Layout,
                     n: nat, nts: nat, it: nat, ie: nat, kt: nat, ke: nat, kbOff: nat, atOffset: nat,
                     aBlockSize: nat, aBlocksInRow: nat, bBlockSize: nat, bBlocksInRow: nat, ghost kb0: nat)
    requires Stored(VA, VB, A, B, LA, LB, LC) && Operands(c, a, b, VA, VB, LC)
    requires n == LB.cols && nts > 0
    requires it <= ie <= LA.rows && aBlockSize == LA.width && aBlocksInRow == LA.Bpr()
    requires kt == kb0 * aBlockSize + kbOff && kbOff < aBlockSize && kt <= ke <= LA.cols
    requires atOffset == it * aBlocksInRow + kb0
    requires bBlockSize == LB.width && bBlocksInRow == LB.Bpr()
    modifies Blocks(c)
    ensures Operands(c, a, b, VA, VB, LC)
    ensures Added(old(Mat(c, LC)), Mat(c, LC), A, B, it, ie, 0, n, kt, ke)
  {
    ghost var M0 := Mat(c, LC);
    var jt := 0;
    ghost var done: nat := 0;
    while jt < n
      invariant done == Min(jt, n)
      invariant Operands(c, a, b, VA, VB, LC)
      invariant Added(M0, Mat(c, LC), A, B, it, ie, 0, done, kt, ke)
    {
      var je := TileEnd(jt, nts, n);
      ghost var M1 := Mat(c, LC);
      ColumnTile(c, a, b, VA, VB, A, B, LA, LB, LC, it, ie, kt, ke, kbOff, atOffset, jt, je,
                 aBlockSize, aBlocksInRow, bBlockSize, bBlocksInRow, kb0);
      AddedColumns(M0, M1, Mat(c, LC), A, B, it, ie, 0, jt, je, kt, ke);
      jt, done := jt + nts, je;
    }
  }

  /** The body of the kt loop of `new` for the inner tile [kt, ke): the
      block kb = kt / aBlockSize and offset kt % aBlockSize where the tile
      starts in a row of A, the cursor to that block in the first row of the
      row tile, and the jt loop. */
  method InnerTile(c: Grid, a: Grid, b: Grid,
                   ghost VA: seq<seq<int>>, ghost VB: seq<seq<int>>, ghost A: seq<seq<int>>, ghost B: seq<seq<int>>,
                   ghost LA: Layout, ghost LB: Layout, ghost LC: Layout,
                   n: nat, nts: nat, it: nat, ie: nat, kt: nat, ke: nat,
                   aBlockSize: nat, aBlocksInRow: nat, bBlockSize: nat, bBlocksInRow: nat)
    requires Stored(VA, VB, A, B, LA, LB, LC) && Operands(c, a, b, VA, VB, LC)
    requires n == LB.cols && nts > 0
    requires it <= ie <= LA.rows && aBlockSize == LA.width && aBlocksInRow == LA.Bpr()
    requires kt < ke <= LA.cols
    requires bBlockSize == LB.width && bBlocksInRow == LB.Bpr()
    modifies Blocks(c)
    ensures Operands(c, a, b, VA, VB, LC)
    ensures Added(old(Mat(c, LC)), Mat(c, LC), A, B, it, ie, 0, n, kt, ke)
  {
    var kb, kbOff := BlockOf(kt, aBlockSize, LA);
    var atOffset := it * aBlocksInRow + kb;
    ColumnTiles(c, a, b, VA, VB, A, B, LA, LB, LC, n, nts, it, ie, kt, ke, kbOff, atOffset,
                aBlockSize, aBlocksInRow, bBlockSize, bBlocksInRow, kb);
  }

  /** The kt loop of `new`: inner tile after inner tile, the rows [it, ie)
      of C gain every term of their dot products. */
  method InnerTiles(c: Grid, a: Grid, b: Grid,
                    ghost VA: seq<seq<int>>, ghost VB: seq<seq<int>>, ghost A: seq<seq<int>>, ghost B: seq<seq<int>>,
                    ghost LA: Layout, ghost LB: Layout, ghost LC: Layout,
                    t: nat, n: nat, tts: nat, nts: nat, it: nat, ie: nat,
                    aBlockSize: nat, aBlocksInRow: nat, bBlockSize: nat, bBlocksInRow: nat)
    requires Stored(VA, VB, A, B, LA, LB, LC) && Operands(c, a, b, VA, VB, LC)
    requires t == LA.cols && n == LB.cols && tts > 0 && nts > 0
    requires it <= ie <= LA.rows && aBlockSize == LA.width && aBlocksInRow == LA.Bpr()
    requires bBlockSize == LB.width && bBlocksInRow == LB.Bpr()
    modifies Blocks(c)
    ensures Operands(c, a, b, VA, VB, LC)
    ensures Added(old(Mat(c, LC)), Mat(c, LC), A, B, it, ie, 0, n, 0, t)
  {
    ghost var M0 := Mat(c, LC);
    var kt := 0;
    ghost var done: nat := 0;
    while kt < t
      invariant done == Min(kt, t)
      invariant Operands(c, a, b, VA, VB, LC)
      invariant Added(M0, Mat(c, LC), A, B, it, ie, 0, n, 0, done)
    {
      var ke := TileEnd(kt, tts, t);
      ghost var M1 := Mat(c, LC);
      InnerTile(c, a, b, VA, VB, A, B, LA, LB, LC, n, nts, it, ie, kt, ke,
                aBlockSize, aBlocksInRow, bBlockSize, bBlocksInRow);
      AddedTerms(M0, M1, Mat(c, LC), A, B, it, ie, 0, n, 0, kt, ke);
      kt, done := kt + tts, ke;
    }
  }

  /** The it loop of `new`: row tile after row tile, every cell of C gains
      every term of its dot product. */
  method RowTiles(c: Grid, a: Grid, b: Grid,
                  ghost VA: seq<seq<int>>, ghost VB: seq<seq<int>>, ghost A: seq<seq<int>>, ghost B: seq<seq<int>>,
                  ghost LA: Layout, ghost LB: Layout, ghost LC: Layout,
                  m: nat, t: nat, n: nat, ts: Tiles,
                  aBlockSize: nat, aBlocksInRow: nat, bBlockSize: nat, bBlocksInRow: nat)
    requires Stored(VA, VB, A, B, LA, LB, LC) && Operands(c, a, b, VA, VB, LC)
    requires m == LA.rows && t == LA.cols && n == LB.cols && ts.mts > 0 && ts.tts > 0 && ts.nts > 0
    requires aBlockSize == LA.width && aBlocksInRow == LA.Bpr()
    requires bBlockSize == LB.width && bBlocksInRow == LB.Bpr()
    modifies Blocks(c)
    ensures Operands(c, a, b, VA, VB, LC)
    ensures Added(old(Mat(c, LC)), Mat(c, LC), A, B, 0, m, 0, n, 0, t)
  {
    ghost var M0 := Mat(c, LC);
    var it := 0;
    ghost var done: nat := 0;
    while it < m
      invariant done == Min(it, m)
      invariant Operands(c, a, b, VA, VB, LC)
      invariant Added(M0, Mat(c, LC), A, B, 0, done, 0, n, 0, t)
    {
      var ie := TileEnd(it, ts.mts, m);
      ghost var M1 := Mat(c, LC);
      InnerTiles(c, a, b, VA, VB, A, B, LA, LB, LC, t, n, ts.tts, ts.nts, it, ie,
                 aBlockSize, aBlocksInRow, bBlockSize, bBlocksInRow);
      AddedRows(M0, M1, Mat(c, LC), A, B, 0, it, ie, 0, n, 0, t);
      it, done := it + ts.mts, ie;
    }
  }

  /** What `new` assumes without checking: A (m x t), B (t x n) and C
      (m x n) well formed and of rank 2, t > 0 (it divides by t), the block
      width of A dividing t, B laid out with C's block width and that width
      dividing n, and C sharing no block with A or B. */
  ghost predicate NewOperands(a: NDArray, b: NDArray, c: NDArray)
    reads a.blocks, b.blocks, c.blocks
  {
    && a.Valid() && b.Valid() && c.Valid()
    && |a.shape| == 2 && |b.shape| == 2 && |c.shape| == 2
    && a.shape[1] == b.shape[0] > 0
    && c.shape[0] == a.shape[0] && c.shape[1] == b.shape[1]
    && a.shape[1] % a.blockSize == 0
    && b.blockSize == c.blockSize && b.shape[1] % c.blockSize == 0
    && Disjoint(c.blocks, a.blocks) && Disjoint(c.blocks, b.blocks)
  }

  /** `NDArrayDot.new`: adds A·B to C, leaving A and B as they were. */
  method New(a: NDArray, b: NDArray, c: NDArray)
    requires NewOperands(a, b, c)
    modifies Blocks(c.blocks)
    ensures Values(a.blocks) == old(Values(a.blocks)) && Values(b.blocks) == old(Values(b.blocks))
    ensures c.Valid()
    ensures c.Matrix() == MatAdd(old(c.Matrix()), MatMul(old(a.Matrix()), old(b.Matrix()),
                                 a.shape[0], b.shape[0], b.shape[1]), a.shape[0], b.shape[1])
  {
    var m, t, n := a.shape[0], b.shape[0], b.shape[1];
    var ts := TileSizes(m, t);
    var aBlockSize := a.blockSize;
    var bBlockSize := c.blockSize;
    var aBlocksInRow := a.shape[1] / aBlockSize;
    var bBlocksInRow := b.shape[1] / bBlockSize;
    ghost var LA, LB, LC := a.Lay(), b.Lay(), c.Lay();
    FitsShaped(a.blocks, LA);
    FitsShaped(b.blocks, LB);
    ghost var VA, VB := Values(a.blocks), Values(b.blocks);
    ghost var A, B, C0 := Mat(a.blocks, LA), Mat(b.blocks, LB), Mat(c.blocks, LC);
    FactorsHold(VA, VB, A, B, LA, LB, LC);
    RowTiles(c.blocks, a.blocks, b.blocks, VA, VB, A, B, LA, LB, LC, m, t, n, ts,
             aBlockSize, aBlocksInRow, bBlockSize, bBlocksInRow);
    AddedAll(C0, Mat(c.blocks, LC), A, B, m, t, n);
  }
}
