/** The kinference arrays the kernels of NDArrayDot.kt work on, as far as the
    kernels use them, and the pieces the kernels share. */
module NDArrays {
  import opened BlockLayout
  import opened NDUtil
  import opened DotSpec

  /** A `DoubleNDArray`: its shape, its block grid (`array.blocks`) and its
      block width (`array.blockSize`). A rank-1 array of n elements is read as
      the single row 1 x n, which is what `reshape(intArrayOf(1, n))` gives. */
  datatype NDArray = NDArray(shape: seq<nat>, blocks: Grid, blockSize: nat)
  {
    function Rows(): nat
    {
      RowsOf(shape)
    }

    function Cols(): nat
    {
      ColsOf(shape)
    }

    function Lay(): Layout
    {
      Layout(Rows(), Cols(), blockSize)
    }

    /** Rank 1 or 2, and the blocks laid out as the shape and width prescribe. */
    ghost predicate Valid()
      reads blocks
    {
      && (|shape| == 1 || |shape| == 2)
      && Fits(blocks, Lay())
      && Distinct(blocks)
    }

    /** The matrix the array stores. */
    ghost function Matrix(): seq<seq<int>>
      reads blocks, Blocks(blocks)
      requires Valid()
    {
      Mat(blocks, Lay())
    }
  }

  /** Rows of the matrix a shape describes, a rank-1 shape being one row. */
  function RowsOf(shape: seq<nat>): nat
  {
    if |shape| == 2 then shape[0] else 1
  }

  /** Columns of the matrix a shape describes. */
  function ColsOf(shape: seq<nat>): nat
  {
    if |shape| == 2 then shape[1] else if |shape| == 1 then shape[0] else 0
  }

  /** The innermost loop of every kernel, `dst[j] += alpha * src[j]` for
      j in [lo, hi). */
  method AddScaled(dst: array<int>, src: array<int>, alpha: int, lo: nat, hi: nat)
    requires dst != src
    requires lo <= hi <= dst.Length && hi <= src.Length
    modifies dst
    ensures forall j :: 0 <= j < dst.Length ==>
              dst[j] == old(dst[j]) + if lo <= j < hi then alpha * src[j] else 0
  {
    var j := lo;
    while j < hi
      invariant lo <= j <= hi
      invariant forall p :: 0 <= p < dst.Length ==>
                  dst[p] == old(dst[p]) + if lo <= p < j then alpha * src[p] else 0
    {
      dst[j] := dst[j] + alpha * src[j];
      j := j + 1;
    }
  }

  /** Block `cb` of row `r` exists and holds the columns
      [cb * width, TileEnd(cb * width, width, cols)) of that row. */
  lemma BlockSpan(L: Layout, r: nat, cb: nat)
    requires L.Valid() && r < L.rows && cb < L.Bpr()
    ensures r * L.Bpr() + cb < L.Count()
    ensures cb * L.width < L.cols
    ensures L.Len(r * L.Bpr() + cb) == TileEnd(cb * L.width, L.width, L.cols) - cb * L.width
  {
    BlockIndex(L, r, cb);
    LenByColumn(L, r * L.Bpr() + cb);
    RowCover(L, cb);
    MulSucc(cb, L.width);
  }

  /** `x` is `x0` plus, at each offset o in [o0, o1), the terms [k0, k1) of
      the dot product of row `r` of A with column c0 + o of B. */
  ghost predicate Gained(x: seq<int>, x0: seq<int>, A: seq<seq<int>>, B: seq<seq<int>>,
                         r: nat, c0: nat, o0: nat, o1: nat, k0: nat, k1: nat)
  {
    && |x| == |x0|
    && forall o {:trigger x[o]} :: 0 <= o < |x| ==>
         x[o] == x0[o] + if o0 <= o < o1 then Dot(A, B, r, c0 + o, k1) - Dot(A, B, r, c0 + o, k0) else 0
  }

  /** No term yet: a block has gained nothing over itself. */
  lemma GainedNone(x: seq<int>, A: seq<seq<int>>, B: seq<seq<int>>, r: nat, c0: nat, o0: nat, o1: nat, k0: nat)
    ensures Gained(x, x, A, B, r, c0, o0, o1, k0, k0)
  {
  }

  /** One turn of `dst[j] += A[r][k] * src[j]` over [o0, o1), with `src`
      holding row `k` of B from column c0 on, adds term `k`. */
  lemma GainedStep(x: seq<int>, y: seq<int>, x0: seq<int>, A: seq<seq<int>>, B: seq<seq<int>>,
                   r: nat, c0: nat, o0: nat, o1: nat, k0: nat, k: nat, row: seq<int>, alpha: int)
    requires Gained(x, x0, A, B, r, c0, o0, o1, k0, k)
    requires |y| == |x| && o1 <= |row| && alpha == Entry(A, r, k)
    requires forall o {:trigger row[o]} :: o0 <= o < o1 ==> row[o] == Entry(B, k, c0 + o)
    requires forall o {:trigger y[o]} :: 0 <= o < |y| ==> y[o] == x[o] + if o0 <= o < o1 then alpha * row[o] else 0
    ensures Gained(y, x0, A, B, r, c0, o0, o1, k0, k + 1)
  {
    forall o | 0 <= o < |y|
      ensures y[o] == x0[o] + if o0 <= o < o1 then Dot(A, B, r, c0 + o, k + 1) - Dot(A, B, r, c0 + o, k0) else 0
    {
      assert x[o] == x0[o] + if o0 <= o < o1 then Dot(A, B, r, c0 + o, k) - Dot(A, B, r, c0 + o, k0) else 0;
      if o0 <= o < o1 {
        assert row[o] == Entry(B, k, c0 + o);
        DotStep(A, B, r, c0 + o, k);
      }
    }
  }

  /** A block `x` that replaces block `cb` of row `r` and has gained, at
      offsets [o0, o1), the terms [k0, k1) of the matching cells of A·B adds
      them to the stored matrix in the cells (r, c0 + o), where c0 is the
      first column of the block. */
  lemma BlockAdded(V: seq<seq<int>>, L: Layout, r: nat, cb: nat, x: seq<int>,
                   A: seq<seq<int>>, B: seq<seq<int>>, c0: nat, o0: nat, o1: nat, k0: nat, k1: nat)
    requires Shaped(V, L) && r < L.rows && cb < L.Bpr() && c0 == cb * L.width
    requires r * L.Bpr() + cb < |V| && o0 <= o1 <= |x|
    requires Gained(x, V[r * L.Bpr() + cb], A, B, r, c0, o0, o1, k0, k1)
    ensures Shaped(V[r * L.Bpr() + cb := x], L)
    ensures Added(ToMatrix(V, L), ToMatrix(V[r * L.Bpr() + cb := x], L), A, B,
                  r, r + 1, c0 + o0, c0 + o1, k0, k1)
  {
    var bi := r * L.Bpr() + cb;
    WriteBlockView(V, L, r, cb, x);
    var M0, M1 := ToMatrix(V, L), ToMatrix(V[bi := x], L);
    forall r', col | 0 <= r' < L.rows && 0 <= col < L.cols
      ensures M1[r'][col] == M0[r'][col] + if r <= r' < r + 1 && c0 + o0 <= col < c0 + o1
                                           then Dot(A, B, r', col, k1) - Dot(A, B, r', col, k0) else 0
    {
      if r' == r && c0 <= col < c0 + |x| {
        ViewAtRowBlock(V, L, r, cb, col - c0);
        assert x[col - c0] == V[bi][col - c0]
          + if o0 <= col - c0 < o1 then Dot(A, B, r, c0 + (col - c0), k1) - Dot(A, B, r, c0 + (col - c0), k0) else 0;
      }
    }
  }

  /** The state the loops of the kernels keep: A and B hold `VA` and `VB`, and
      C is laid out by `LC` and shares no block with A or B. */
  ghost predicate Operands(c: Grid, a: Grid, b: Grid, VA: seq<seq<int>>, VB: seq<seq<int>>, LC: Layout)
    reads c, a, b, Blocks(a), Blocks(b)
  {
    && Values(a) == VA && Values(b) == VB
    && Fits(c, LC) && Distinct(c) && Disjoint(c, a) && Disjoint(c, b)
  }

  /** `x` holds row `r` of `M` from column `c0` on. */
  ghost predicate Holds(x: seq<int>, M: seq<seq<int>>, r: nat, c0: nat)
  {
    forall o {:trigger x[o]} :: 0 <= o < |x| ==> x[o] == Entry(M, r, c0 + o)
  }

  /** Block `jt` of row `ka` of B is `len` elements long and holds row `ka`
      of B from column `c0` on. */
  ghost predicate RightRow(VB: seq<seq<int>>, B: seq<seq<int>>, bpr: nat, jt: nat, ka: nat, c0: nat, len: int)
  {
    && ka * bpr + jt < |VB|
    && |VB[ka * bpr + jt]| == len
    && Holds(VB[ka * bpr + jt], B, ka, c0)
  }

  /** Block `jt` of row `ka` of B holds that row from column c0 = jt * width on. */
  lemma RightBlock(VB: seq<seq<int>>, B: seq<seq<int>>, LB: Layout, jt: nat, ka: nat, c0: nat, len: nat)
    requires Shaped(VB, LB) && B == ToMatrix(VB, LB) && ka < LB.rows && jt < LB.Bpr()
    requires c0 == jt * LB.width && c0 + len == TileEnd(c0, LB.width, LB.cols)
    ensures RightRow(VB, B, LB.Bpr(), jt, ka, c0, len)
  {
    BlockSpan(LB, ka, jt);
    var bk := VB[ka * LB.Bpr() + jt];
    forall o | 0 <= o < |bk|
      ensures bk[o] == Entry(B, ka, c0 + o)
    {
      ViewAtRowBlock(VB, LB, ka, jt, o);
    }
  }

  /** One turn of the k loop of `resize` and of `old`: with `ai` block `kt`
      of a row of A, every element j of the block `ci` of C gains
      `ai[k] * b[(kt * aBlockSize + k) * bBlocksInRow + jt][j]`, so the block,
      columns from c0 on, having gained the terms [kg, k0 + k), gains inner
      term k0 + k. */
  method ProductTerm(ci: array<int>, ai: array<int>, b: Grid,
                     ghost VB: seq<seq<int>>, ghost A: seq<seq<int>>, ghost B: seq<seq<int>>,
                     i: nat, kt: nat, jt: nat, k: nat, aBlockSize: nat, bBlocksInRow: nat,
                     ghost x0: seq<int>, ghost c0: nat, ghost k0: nat, ghost kg: nat)
    requires k0 == kt * aBlockSize && k < ai.Length && Holds(ai[..], A, i, k0)
    requires RightRow(VB, B, bBlocksInRow, jt, k0 + k, c0, ci.Length)
    requires Values(b) == VB && ci !in Blocks(b) && ci != ai
    requires Gained(ci[..], x0, A, B, i, c0, 0, ci.Length, kg, k0 + k)
    modifies ci
    ensures Gained(ci[..], x0, A, B, i, c0, 0, ci.Length, kg, k0 + k + 1)
  {
    var ka := kt * aBlockSize + k;
    var bi := ka * bBlocksInRow + jt;
    var bk := b[bi];
    var aik := ai[k];
    assert ai[..][k] == aik;
    ghost var row := VB[bi];
    assert bk[..] == row;
    ghost var before := ci[..];
    AddScaled(ci, bk, aik, 0, ci.Length);
    GainedArrayStep(ci, before, bk, row, x0, A, B, i, c0, 0, ci.Length, kg, ka, aik);
  }

  /** The same step as `GainedStep`, read off the arrays the kernels update. */
  lemma GainedArrayStep(ci: array<int>, before: seq<int>, bk: array<int>, row: seq<int>, x0: seq<int>,
                        A: seq<seq<int>>, B: seq<seq<int>>, r: nat, c0: nat, o0: nat, o1: nat,
                        k0: nat, k: nat, alpha: int)
    requires Gained(before, x0, A, B, r, c0, o0, o1, k0, k)
    requires |before| == ci.Length && bk[..] == row && o1 <= |row| && alpha == Entry(A, r, k)
    requires Holds(row, B, k, c0)
    requires forall j :: 0 <= j < ci.Length ==> ci[j] == before[j] + if o0 <= j < o1 then alpha * bk[j] else 0
    ensures Gained(ci[..], x0, A, B, r, c0, o0, o1, k0, k + 1)
  {
    GainedStep(before, ci[..], x0, A, B, r, c0, o0, o1, k0, k, row, alpha);
  }

  /** `kt * aBlockSize`, with `aBlockSize` the width of the first block, is
      kt * width for every column block kt: the first block is narrower only
      when it is the only block of its row. */
  lemma FirstBlockWidth(L: Layout, kt: nat)
    requires L.Valid() && L.rows > 0 && kt < L.Bpr()
    ensures 0 < L.Count()
    ensures L.Start(kt) == kt * L.Len(0)
  {
    StartAt(L, kt);
    BlockIndex(L, 0, 0);
    if kt > 0 {
      LenByColumn(L, 0);
      assert L.ColBlock(0) == 0;
    }
  }

  /** The shapes the blocked kernels multiply: C is laid out with A's rows, B's
      columns and B's block width, and A's columns are B's rows. */
  ghost predicate Layouts(LA: Layout, LB: Layout, LC: Layout)
  {
    && LA.Valid() && LB.Valid()
    && LA.cols == LB.rows && LA.rows == LC.rows && LB.cols == LC.cols && LB.width == LC.width
  }

  /** What the blocked kernels know of their operands throughout: the shapes agree, and
      for every block of C and every inner block the blocks of `VA` and `VB`
      it reads hold the matching pieces of A and B. */
  ghost predicate Factors(VA: seq<seq<int>>, VB: seq<seq<int>>, A: seq<seq<int>>, B: seq<seq<int>>,
                          LA: Layout, LB: Layout, LC: Layout)
  {
    && Layouts(LA, LB, LC)
    && forall i: nat, kt: nat, jt: nat {:trigger TileOperands(VA, VB, A, B, LA, LB, i, kt, jt)} ::
         i < LA.rows && kt < LA.Bpr() && jt < LB.Bpr() ==> TileOperands(VA, VB, A, B, LA, LB, i, kt, jt)
  }

  /** Block `kt` of row `i` of A (`bprA` blocks a row) is k1 - k0 long and
      holds A[i][k0..k1], and for every inner index ka in [k0, k1) block `jt`
      of row `ka` of B (`bprB` blocks a row) holds the `len` entries of that
      row of B from column c0 on. */
  ghost predicate Feeds(VA: seq<seq<int>>, VB: seq<seq<int>>, A: seq<seq<int>>, B: seq<seq<int>>,
                        bprA: nat, bprB: nat, i: nat, kt: nat, jt: nat, k0: nat, k1: int, c0: nat, len: int)
  {
    && i * bprA + kt < |VA| && k0 + |VA[i * bprA + kt]| == k1
    && Holds(VA[i * bprA + kt], A, i, k0)
    && forall ka {:trigger RightRow(VB, B, bprB, jt, ka, c0, len)} :: k0 <= ka < k1 ==>
         RightRow(VB, B, bprB, jt, ka, c0, len)
  }

  /** The operands of block `jt` of row `i` of C for inner block `kt`, with
      the spans [k0, k1) and [c0, c0 + len) the layouts give the two blocks. */
  ghost predicate TileOperands(VA: seq<seq<int>>, VB: seq<seq<int>>, A: seq<seq<int>>, B: seq<seq<int>>,
                               LA: Layout, LB: Layout, i: nat, kt: nat, jt: nat)
    requires LA.Valid() && LB.Valid()
  {
    Feeds(VA, VB, A, B, LA.Bpr(), LB.Bpr(), i, kt, jt,
          LA.Start(kt), TileEnd(LA.Start(kt), LA.width, LA.cols),
          LB.Start(jt), TileEnd(LB.Start(jt), LB.width, LB.cols) - LB.Start(jt))
  }

  /** Blocks laid out by `LA` and `LB` that store A and B hold, for each
      block of C and each inner block, the pieces of A and B it needs. */
  lemma BlockOperands(VA: seq<seq<int>>, VB: seq<seq<int>>, A: seq<seq<int>>, B: seq<seq<int>>,
                      LA: Layout, LB: Layout, i: nat, kt: nat, jt: nat)
    requires Shaped(VA, LA) && Shaped(VB, LB) && A == ToMatrix(VA, LA) && B == ToMatrix(VB, LB)
    requires LA.cols == LB.rows && i < LA.rows && kt < LA.Bpr() && jt < LB.Bpr()
    ensures TileOperands(VA, VB, A, B, LA, LB, i, kt, jt)
  {
    StartAt(LA, kt);
    StartAt(LB, jt);
    BlockSpan(LA, i, kt);
    BlockSpan(LB, 0, jt);
    var k0, c0 := kt * LA.width, jt * LB.width;
    var len := TileEnd(c0, LB.width, LB.cols) - c0;
    var ai := VA[i * LA.Bpr() + kt];
    forall o | 0 <= o < |ai|
      ensures ai[o] == Entry(A, i, k0 + o)
    {
      ViewAtRowBlock(VA, LA, i, kt, o);
    }
    forall ka {:trigger RightRow(VB, B, LB.Bpr(), jt, ka, c0, len)} | k0 <= ka < TileEnd(k0, LA.width, LA.cols)
      ensures RightRow(VB, B, LB.Bpr(), jt, ka, c0, len)
    {
      RightBlock(VB, B, LB, jt, ka, c0, len);
    }
    assert Feeds(VA, VB, A, B, LA.Bpr(), LB.Bpr(), i, kt, jt, k0, TileEnd(k0, LA.width, LA.cols), c0, len);
  }

  /** Blocks that store A and B give a blocked kernel all its operands. */
  lemma FactorsHold(VA: seq<seq<int>>, VB: seq<seq<int>>, A: seq<seq<int>>, B: seq<seq<int>>,
                    LA: Layout, LB: Layout, LC: Layout)
    requires Shaped(VA, LA) && Shaped(VB, LB) && A == ToMatrix(VA, LA) && B == ToMatrix(VB, LB)
    requires Layouts(LA, LB, LC)
    ensures Factors(VA, VB, A, B, LA, LB, LC)
  {
    forall i: nat, kt: nat, jt: nat | i < LA.rows && kt < LA.Bpr() && jt < LB.Bpr()
      ensures TileOperands(VA, VB, A, B, LA, LB, i, kt, jt)
    {
      BlockOperands(VA, VB, A, B, LA, LB, i, kt, jt);
    }
  }

  /** The operands the kernels read for one block of C and one inner block:
      block `kt` of row `i` of A spans [k0, k1) and holds that piece of row
      `i`, and the `len` columns of block `jt` of C from c0 on are held, for
      every inner index of [k0, k1), by block `jt` of that row of B. */
  lemma RowBlockOperands(VA: seq<seq<int>>, VB: seq<seq<int>>, A: seq<seq<int>>, B: seq<seq<int>>,
                         LA: Layout, LB: Layout, LC: Layout, i: nat, kt: nat, jt: nat,
                         aBlockSize: nat, bprA: nat, bprB: nat, c0: nat, len: nat, k0: nat, k1: nat)
    requires Factors(VA, VB, A, B, LA, LB, LC)
    requires i < LA.rows && kt < bprA == LA.Bpr() && jt < bprB == LB.Bpr() && aBlockSize == LA.Len(0)
    requires k0 == LA.Start(kt) && k1 == TileEnd(k0, LA.width, LA.cols)
    requires c0 == LB.Start(jt) && c0 + len == TileEnd(c0, LB.width, LB.cols)
    ensures k0 == kt * aBlockSize && i * bprA + kt < |VA| && k0 + |VA[i * bprA + kt]| == k1
    ensures Holds(VA[i * bprA + kt], A, i, k0)
    ensures forall ka {:trigger RightRow(VB, B, bprB, jt, ka, c0, len)} :: k0 <= ka < k1 ==>
              RightRow(VB, B, bprB, jt, ka, c0, len)
  {
    assert TileOperands(VA, VB, A, B, LA, LB, i, kt, jt);
    assert Feeds(VA, VB, A, B, bprA, bprB, i, kt, jt, k0, k1, c0, len);
    FirstBlockWidth(LA, kt);
  }

  /** The operands `old` and `new` read: blocks of A and B holding the
      matching pieces of A and B (`Factors`), every block of A and of B full
      width. */
  ghost predicate Stored(VA: seq<seq<int>>, VB: seq<seq<int>>, A: seq<seq<int>>, B: seq<seq<int>>,
                         LA: Layout, LB: Layout, LC: Layout)
  {
    Factors(VA, VB, A, B, LA, LB, LC) && LA.Last() == LA.width && LB.Last() == LB.width
  }

  /** Block `cb` of a row of a grid whose blocks are all full width spans
      [cb * width, (cb + 1) * width). */
  lemma FullBlock(L: Layout, r: nat, cb: nat)
    requires L.Valid() && L.Last() == L.width && r < L.rows && cb < L.Bpr()
    ensures r * L.Bpr() + cb < L.Count() && L.Len(r * L.Bpr() + cb) == L.width
    ensures TileEnd(cb * L.width, L.width, L.cols) == cb * L.width + L.width
  {
    BlockIndex(L, r, cb);
    LenByColumn(L, r * L.Bpr() + cb);
    RowCover(L, cb);
    MulSucc(cb, L.width);
  }

  /** With every block full width, the blocks of a row span exactly its columns. */
  lemma RowWidth(L: Layout)
    requires L.Valid() && L.Last() == L.width
    ensures L.Bpr() * L.width == L.cols
  {
    if L.Bpr() > 0 {
      RowCover(L, L.Bpr() - 1);
      MulSucc(L.Bpr() - 1, L.width);
    }
  }

  /** What `old` and `new` read for one block of A and one column block of
      B: block `lCol` of row `i` of A, full width, holding A[i][k0 ..] with
      k0 = lCol * width, and for each of its inner indices the block `rdCol`
      of that row of B, full width, holding that row of B from column c0 on. */
  lemma StoredOperands(VA: seq<seq<int>>, VB: seq<seq<int>>, A: seq<seq<int>>, B: seq<seq<int>>,
                 LA: Layout, LB: Layout, LC: Layout, i: nat, lCol: nat, rdCol: nat, k0: nat, c0: nat)
    requires Stored(VA, VB, A, B, LA, LB, LC)
    requires i < LA.rows && lCol < LA.Bpr() && rdCol < LB.Bpr()
    requires k0 == lCol * LA.width && c0 == rdCol * LB.width
    ensures i * LA.Bpr() + lCol < |VA| && |VA[i * LA.Bpr() + lCol]| == LA.width
    ensures Holds(VA[i * LA.Bpr() + lCol], A, i, k0)
    ensures forall ka {:trigger RightRow(VB, B, LB.Bpr(), rdCol, ka, c0, LB.width)} :: k0 <= ka < k0 + LA.width ==>
              RightRow(VB, B, LB.Bpr(), rdCol, ka, c0, LB.width)
    ensures k0 + LA.width == (lCol + 1) * LA.width
  {
    FullBlock(LA, i, lCol);
    FullBlock(LA, 0, 0);
    FullBlock(LB, 0, rdCol);
    StartAt(LA, lCol);
    StartAt(LB, rdCol);
    RowBlockOperands(VA, VB, A, B, LA, LB, LC, i, lCol, rdCol, LA.width, LA.Bpr(), LB.Bpr(),
                     c0, LB.width, k0, k0 + LA.width);
    MulSucc(lCol, LA.width);
  }
}
