/** The block layout of a row-major matrix: every row is cut into blocks of a
    fixed width, and only the last block of a row may be narrower. This module
    is pure: it describes block grids as values (`seq<seq<int>>`). */
module BlockLayout {

  /** Euclidean division is unique: the quotient and remainder of `x` by `d`
      are the `q` and `r` of any decomposition `x == q * d + r`. */
  lemma DivModUnique(x: int, d: int, q: int, r: int)
    requires d > 0 && 0 <= r < d && x == q * d + r
    ensures x / d == q && x % d == r
  {
    var q', r' := x / d, x % d;
    assert x == q' * d + r';
    assert (q - q') * d == r' - r;
    if q > q' {
      MulAtLeast(q - q', d);
    } else if q < q' {
      MulAtLeast(q' - q, d);
    }
  }

  lemma MulAtLeast(k: int, d: int)
    requires k >= 1 && d > 0
    ensures k * d >= d
  {
  }

  /** Blocks per row for `cols` elements at block width `w`: the ceiling of
      `cols / w` (NDUtil.kt `emptyBlocks`, first branch). */
  function BlocksInRow(cols: nat, w: nat): (bpr: nat)
    requires w > 0
    ensures bpr * w >= cols
    ensures bpr > 0 ==> (bpr - 1) * w < cols
    ensures bpr == 0 <==> cols == 0
  {
    if cols % w == 0 then cols / w else cols / w + 1
  }

  /** Width of the last block of a row (NDUtil.kt `emptyBlocks`). */
  function LastBlockSize(cols: nat, w: nat): (last: nat)
    requires w > 0
    ensures 0 < last <= w
    ensures cols > 0 ==> (BlocksInRow(cols, w) - 1) * w + last == cols
  {
    if cols % w == 0 then w else cols % w
  }

  /** Size of block `blockI` of a grid with `bpr` blocks per row: the last
      block of each row is the one whose successor index is a multiple of
      `bpr`. */
  function BlockSize(blockI: nat, bpr: nat, w: nat, last: nat): nat
    requires bpr > 0
  {
    if (blockI + 1) % bpr == 0 then last else w
  }

  /** Shape and block width of a matrix stored by blocks. */
  datatype Layout = Layout(rows: nat, cols: nat, width: nat)
  {
    predicate Valid() { width > 0 }

    function Bpr(): nat
      requires Valid()
    {
      BlocksInRow(cols, width)
    }

    function Last(): nat
      requires Valid()
    {
      LastBlockSize(cols, width)
    }

    /** First column of the blocks `cb` of every row: the widths of the
        blocks before it added up. */
    function Start(cb: nat): nat
    {
      if cb == 0 then 0 else Start(cb - 1) + width
    }

    /** Total number of blocks. */
    function Count(): nat
      requires Valid()
    {
      rows * Bpr()
    }

    /** Length of block `bi`. */
    function Len(bi: nat): nat
      requires Valid()
    {
      if Bpr() == 0 then 0 else BlockSize(bi, Bpr(), width, Last())
    }

    /** Matrix row that block `bi` belongs to. */
    function RowOf(bi: nat): nat
      requires Valid()
    {
      if Bpr() == 0 then 0 else bi / Bpr()
    }

    /** Position of block `bi` within its row. */
    function ColBlock(bi: nat): nat
      requires Valid()
    {
      if Bpr() == 0 then 0 else bi % Bpr()
    }

    /** Matrix column of offset `o` in block `bi`. */
    function ColOf(bi: nat, o: nat): nat
      requires Valid()
    {
      ColBlock(bi) * width + o
    }
  }

  /** A block is the last of its row exactly when it is the last column block. */
  lemma LenByColumn(L: Layout, bi: nat)
    requires L.Valid() && L.Bpr() > 0
    ensures L.Len(bi) == if L.ColBlock(bi) == L.Bpr() - 1 then L.Last() else L.width
  {
    var bpr := L.Bpr();
    var q, r := bi / bpr, bi % bpr;
    if r == bpr - 1 {
      DivModUnique(bi + 1, bpr, q + 1, 0);
    } else {
      DivModUnique(bi + 1, bpr, q, r + 1);
    }
  }

  /** Column block `cb` of a row starts before `cols` and, with its length,
      ends at the next multiple of the width or at `cols`: the blocks of a row
      tile the columns [0, cols) in order. */
  lemma RowCover(L: Layout, cb: nat)
    requires L.Valid() && cb < L.Bpr()
    ensures cb * L.width < L.cols
    ensures cb * L.width + (if cb == L.Bpr() - 1 then L.Last() else L.width)
            == if (cb + 1) * L.width <= L.cols then (cb + 1) * L.width else L.cols
  {
    var w, bpr := L.width, L.Bpr();
    MulMono(cb, bpr - 1, w);
    if cb < bpr - 1 {
      MulMono(cb + 1, bpr - 1, w);
    }
  }

  lemma MulSucc(a: int, b: int)
    ensures (a + 1) * b == a * b + b
  {
  }

  /** Block `cb` starts `cb` whole widths into its row. */
  lemma {:induction false} StartAt(L: Layout, cb: nat)
    ensures L.Start(cb) == cb * L.width
  {
    if cb > 0 {
      StartAt(L, cb - 1);
      MulSucc(cb - 1, L.width);
    }
  }

  lemma MulMono(x: nat, y: nat, w: nat)
    requires x <= y
    ensures x * w <= y * w
  {
  }

  /** Block `r * Bpr() + cb` is block `cb` of row `r`. */
  lemma BlockIndex(L: Layout, r: nat, cb: nat)
    requires L.Valid() && r < L.rows && cb < L.Bpr()
    ensures r * L.Bpr() + cb < L.Count()
    ensures L.RowOf(r * L.Bpr() + cb) == r && L.ColBlock(r * L.Bpr() + cb) == cb
  {
    DivModUnique(r * L.Bpr() + cb, L.Bpr(), r, cb);
    MulMono(r + 1, L.rows, L.Bpr());
  }

  /** Where element (r, col) lives: block `r * Bpr() + col / width`, offset
      `col % width`, and that block and offset map back to (r, col). */
  lemma CellAddress(L: Layout, r: nat, col: nat)
    requires L.Valid() && r < L.rows && col < L.cols
    ensures L.Bpr() > 0
    ensures r * L.Bpr() + col / L.width < L.Count()
    ensures col % L.width < L.Len(r * L.Bpr() + col / L.width)
    ensures L.RowOf(r * L.Bpr() + col / L.width) == r
    ensures L.ColOf(r * L.Bpr() + col / L.width, col % L.width) == col
  {
    var cb := col / L.width;
    ColumnBlock(L, col);
    BlockIndex(L, r, cb);
    LenByColumn(L, r * L.Bpr() + cb);
  }

  /** Column `col` lies in column block col / width of its row, at an offset
      inside that block. */
  lemma ColumnBlock(L: Layout, col: nat)
    requires L.Valid() && col < L.cols
    ensures col / L.width < L.Bpr()
    ensures (col / L.width) * L.width + col % L.width == col
    ensures col / L.width == L.Bpr() - 1 ==> col % L.width < L.Last()
  {
    var w, bpr := L.width, L.Bpr();
    var cb, o := col / w, col % w;
    assert col == cb * w + o;
    if cb >= bpr {
      MulMono(bpr, cb, w);
    }
  }

  /** Every valid (block, offset) pair is the address of a matrix element. */
  lemma BlockAddress(L: Layout, bi: nat, o: nat)
    requires L.Valid() && bi < L.Count() && o < L.Len(bi)
    ensures L.Bpr() > 0
    ensures L.RowOf(bi) < L.rows && L.ColOf(bi, o) < L.cols
    ensures L.ColOf(bi, o) / L.width == L.ColBlock(bi) && L.ColOf(bi, o) % L.width == o
    ensures bi == L.RowOf(bi) * L.Bpr() + L.ColBlock(bi)
  {
    var bpr, w := L.Bpr(), L.width;
    assert bpr > 0;
    var r, cb := bi / bpr, bi % bpr;
    assert bi == r * bpr + cb;
    if r >= L.rows {
      MulMono(L.rows, r, bpr);
    }
    LenByColumn(L, bi);
    assert o < w;
    DivModUnique(cb * w + o, w, cb, o);
    RowCover(L, cb);
  }

  /** A grid of blocks laid out as `L` prescribes. */
  predicate Shaped(bs: seq<seq<int>>, L: Layout)
  {
    && L.Valid()
    && |bs| == L.Count()
    && forall bi :: 0 <= bi < |bs| ==> |bs[bi]| == L.Len(bi)
  }

  /** Element (r, col) of the matrix a grid stores: offset col % width of
      block col / width of row r. For a shaped grid the address always
      exists (`CellAddress`); the guard only keeps the function total. */
  function Cell(bs: seq<seq<int>>, L: Layout, r: nat, col: nat): int
    requires L.Valid()
  {
    var bi, o := r * L.Bpr() + col / L.width, col % L.width;
    if bi < |bs| && o < |bs[bi]| then bs[bi][o] else 0
  }

  predicate IsMatrix(M: seq<seq<int>>, rows: nat, cols: nat)
  {
    |M| == rows && forall r :: 0 <= r < rows ==> |M[r]| == cols
  }

  /** The matrix a shaped grid stores, row by row. */
  function ToMatrix(bs: seq<seq<int>>, L: Layout): (M: seq<seq<int>>)
    requires L.Valid()
    ensures IsMatrix(M, L.rows, L.cols)
  {
    seq(L.rows, r requires 0 <= r < L.rows =>
      seq(L.cols, col requires 0 <= col < L.cols => Cell(bs, L, r, col)))
  }

  /** Element (r, c) of a matrix, 0 outside it. */
  function Entry(M: seq<seq<int>>, r: int, c: int): int
  {
    if 0 <= r < |M| && 0 <= c < |M[r]| then M[r][c] else 0
  }

  /** Block `bi` at offset `o` holds the matrix element at (RowOf(bi), ColOf(bi, o)). */
  lemma ViewAtBlock(bs: seq<seq<int>>, L: Layout, bi: nat, o: nat)
    requires Shaped(bs, L) && bi < |bs| && o < |bs[bi]|
    ensures L.RowOf(bi) < L.rows && L.ColOf(bi, o) < L.cols
    ensures ToMatrix(bs, L)[L.RowOf(bi)][L.ColOf(bi, o)] == bs[bi][o]
  {
    BlockAddress(L, bi, o);
  }

  /** Block `cb` of row `r` at offset `o` holds element (r, cb * width + o). */
  lemma ViewAtRowBlock(bs: seq<seq<int>>, L: Layout, r: nat, cb: nat, o: nat)
    requires Shaped(bs, L) && r < L.rows && cb < L.Bpr() && o < L.Len(r * L.Bpr() + cb)
    ensures r * L.Bpr() + cb < |bs| && cb * L.width + o < L.cols
    ensures Entry(ToMatrix(bs, L), r, cb * L.width + o) == bs[r * L.Bpr() + cb][o]
  {
    BlockIndex(L, r, cb);
    ViewAtBlock(bs, L, r * L.Bpr() + cb, o);
  }

  /** A grid whose every cell holds the matching element of `M` stores `M`. */
  lemma CellsDetermineView(bs: seq<seq<int>>, L: Layout, M: seq<seq<int>>)
    requires Shaped(bs, L) && IsMatrix(M, L.rows, L.cols)
    requires forall bi, o :: 0 <= bi < |bs| && 0 <= o < |bs[bi]| ==>
               bs[bi][o] == Entry(M, L.RowOf(bi), L.ColOf(bi, o))
    ensures ToMatrix(bs, L) == M
  {
    var V := ToMatrix(bs, L);
    forall r | 0 <= r < L.rows
      ensures V[r] == M[r]
    {
      forall col | 0 <= col < L.cols
        ensures V[r][col] == M[r][col]
      {
        CellAddress(L, r, col);
        var bi, o := r * L.Bpr() + col / L.width, col % L.width;
        assert bs[bi][o] == Entry(M, L.RowOf(bi), L.ColOf(bi, o));
      }
    }
  }

  /** Replacing block `cb` of row `r` by a block `x` of the same length
      changes exactly the matrix elements (r, cb * width + o) for o < |x|,
      each to x[o]. */
  lemma WriteBlockView(bs: seq<seq<int>>, L: Layout, r: nat, cb: nat, x: seq<int>)
    requires Shaped(bs, L) && r < L.rows && cb < L.Bpr()
    requires r * L.Bpr() + cb < |bs| && |x| == |bs[r * L.Bpr() + cb]|
    ensures Shaped(bs[r * L.Bpr() + cb := x], L)
    ensures forall r', col {:trigger ToMatrix(bs[r * L.Bpr() + cb := x], L)[r'][col]} ::
              0 <= r' < L.rows && 0 <= col < L.cols ==>
              ToMatrix(bs[r * L.Bpr() + cb := x], L)[r'][col]
              == if r' == r && cb * L.width <= col < cb * L.width + |x| then x[col - cb * L.width]
                 else ToMatrix(bs, L)[r'][col]
  {
    var w, bpr := L.width, L.Bpr();
    var bs' := bs[r * bpr + cb := x];
    BlockIndex(L, r, cb);
    LenByColumn(L, r * bpr + cb);
    forall r', col {:trigger ToMatrix(bs', L)[r'][col]} | 0 <= r' < L.rows && 0 <= col < L.cols
      ensures ToMatrix(bs', L)[r'][col]
              == if r' == r && cb * w <= col < cb * w + |x| then x[col - cb * w] else ToMatrix(bs, L)[r'][col]
    {
      WriteBlockCell(bs, L, r, cb, x, r', col);
    }
  }

  /** One element of `WriteBlockView`. */
  lemma WriteBlockCell(bs: seq<seq<int>>, L: Layout, r: nat, cb: nat, x: seq<int>, r': nat, col: nat)
    requires Shaped(bs, L) && r < L.rows && cb < L.Bpr()
    requires r * L.Bpr() + cb < |bs| && |x| == |bs[r * L.Bpr() + cb]|
    requires r' < L.rows && col < L.cols
    ensures Cell(bs[r * L.Bpr() + cb := x], L, r', col)
            == if r' == r && cb * L.width <= col < cb * L.width + |x| then x[col - cb * L.width]
               else Cell(bs, L, r', col)
  {
    var w := L.width;
    CellAddress(L, r', col);
    BlockIndex(L, r, cb);
    if r' == r && cb * w <= col < cb * w + |x| {
      DivModUnique(col, w, cb, col - cb * w);
    }
  }

  /** `V` is `V0` with the first `jb` blocks of row `i` replaced by the
      matching slices of `row`. */
  ghost predicate RowBlocksFrom(V: seq<seq<int>>, V0: seq<seq<int>>, L: Layout, i: int, row: seq<int>, jb: int)
    requires Shaped(V0, L)
  {
    && |V| == |V0|
    && forall b :: 0 <= b < |V0| ==> RowBlockAt(V, V0, L, i, row, jb, b)
  }

  /** Block `b` of `V` is as `RowBlocksFrom` prescribes. */
  ghost predicate RowBlockAt(V: seq<seq<int>>, V0: seq<seq<int>>, L: Layout, i: int, row: seq<int>, jb: int, b: int)
    requires Shaped(V0, L) && |V| == |V0| && 0 <= b < |V0|
  {
    V[b] == if L.RowOf(b) == i && L.ColBlock(b) < jb && L.ColOf(b, 0) + |V0[b]| <= |row|
            then row[L.ColOf(b, 0)..L.ColOf(b, 0) + |V0[b]|] else V0[b]
  }

  /** Before any block is written, `V0` is as `RowBlocksFrom` prescribes. */
  lemma RowBlocksNone(V0: seq<seq<int>>, L: Layout, i: int, row: seq<int>)
    requires Shaped(V0, L)
    ensures RowBlocksFrom(V0, V0, L, i, row, 0)
  {
    forall b | 0 <= b < |V0|
      ensures RowBlockAt(V0, V0, L, i, row, 0, b)
    {
    }
  }

  /** Writing the slice for block `jb` of row `i` extends `RowBlocksFrom` to
      jb + 1 blocks. */
  lemma RowBlocksStep(V: seq<seq<int>>, V0: seq<seq<int>>, L: Layout, i: nat, row: seq<int>, jb: nat,
                      offset: int, start: int)
    requires Shaped(V0, L) && i < L.rows && jb < L.Bpr() && |row| == L.cols
    requires offset == i * L.Bpr() && start == jb * L.width
    requires RowBlocksFrom(V, V0, L, i, row, jb)
    ensures 0 <= offset + jb < |V0| && |V[offset + jb]| == |V0[offset + jb]|
    ensures 0 <= start && start + |V0[offset + jb]| <= |row|
    ensures RowBlocksFrom(V[offset + jb := row[start..start + |V0[offset + jb]|]], V0, L, i, row, jb + 1)
  {
    var bi := i * L.Bpr() + jb;
    BlockIndex(L, i, jb);
    LenByColumn(L, bi);
    RowCover(L, jb);
    assert RowBlockAt(V, V0, L, i, row, jb, bi);
    var V', next := V[bi := row[jb * L.width..jb * L.width + |V0[bi]|]], jb + 1;
    forall b | 0 <= b < |V0|
      ensures RowBlockAt(V', V0, L, i, row, next, b)
    {
      assert RowBlockAt(V, V0, L, i, row, jb, b);
      if b != bi && L.RowOf(b) == i {
        BlockAddress(L, b, 0);
      }
    }
  }

  /** Once every block of row `i` holds its slice of `row`, the grid stores
      the old matrix with row `i` replaced by `row`. */
  lemma RowBlocksView(V: seq<seq<int>>, V0: seq<seq<int>>, L: Layout, i: nat, row: seq<int>)
    requires Shaped(V0, L) && i < L.rows && |row| == L.cols
    requires RowBlocksFrom(V, V0, L, i, row, L.Bpr())
    ensures Shaped(V, L)
    ensures forall r, col {:trigger ToMatrix(V, L)[r][col]} :: 0 <= r < L.rows && 0 <= col < L.cols ==>
              ToMatrix(V, L)[r][col] == if r == i then row[col] else ToMatrix(V0, L)[r][col]
  {
    forall b | 0 <= b < |V0| && L.RowOf(b) == i
      ensures L.ColOf(b, 0) + |V0[b]| <= |row| && L.ColBlock(b) < L.Bpr()
    {
      BlockAddress(L, b, 0);
      LenByColumn(L, b);
      RowCover(L, L.ColBlock(b));
    }
    forall b | 0 <= b < |V0|
      ensures |V[b]| == |V0[b]|
    {
      assert RowBlockAt(V, V0, L, i, row, L.Bpr(), b);
    }
    forall r, col {:trigger ToMatrix(V, L)[r][col]} | 0 <= r < L.rows && 0 <= col < L.cols
      ensures ToMatrix(V, L)[r][col] == if r == i then row[col] else ToMatrix(V0, L)[r][col]
    {
      CellAddress(L, r, col);
      assert RowBlockAt(V, V0, L, i, row, L.Bpr(), r * L.Bpr() + col / L.width);
    }
  }

  /** A grid whose block width is its row length holds one block per row,
      and that block is the row: the grid is its own matrix. */
  lemma DenseView(bs: seq<seq<int>>, L: Layout)
    requires Shaped(bs, L) && L.width == L.cols
    ensures L.Bpr() == 1 && L.Count() == L.rows
    ensures ToMatrix(bs, L) == bs
  {
    var n := L.cols;
    DivModUnique(n, n, 1, 0);
    var M := ToMatrix(bs, L);
    forall r | 0 <= r < L.rows
      ensures M[r] == bs[r]
    {
      assert |bs[r]| == n by {
        DivModUnique(r + 1, 1, r + 1, 0);
      }
      forall col | 0 <= col < n
        ensures M[r][col] == bs[r][col]
      {
        DivModUnique(col, n, 0, col);
      }
    }
  }

  /** The elements of a grid in row-major order: its blocks concatenated. */
  function Concat(bs: seq<seq<int>>): seq<int>
  {
    if bs == [] then [] else Concat(bs[..|bs| - 1]) + bs[|bs| - 1]
  }

  lemma {:induction false} ConcatAppend(xs: seq<seq<int>>, ys: seq<seq<int>>)
    ensures Concat(xs + ys) == Concat(xs) + Concat(ys)
  {
    if ys == [] {
      assert xs + ys == xs;
    } else {
      var n := |ys| - 1;
      assert (xs + ys)[..|xs + ys| - 1] == xs + ys[..n];
      ConcatAppend(xs, ys[..n]);
    }
  }

  /** Concat(bs) splits around block `b`. */
  lemma {:induction false} ConcatSplit(bs: seq<seq<int>>, b: nat)
    requires b < |bs|
    ensures Concat(bs) == Concat(bs[..b]) + bs[b] + Concat(bs[b + 1..])
  {
    var pre, post := bs[..b + 1], bs[b + 1..];
    assert bs == pre + post;
    ConcatAppend(pre, post);
    assert pre[..|pre| - 1] == bs[..b];
  }

  /** Offset `o` of block `b` sits at flat position |Concat(bs[..b])| + o. */
  lemma {:induction false} ConcatAt(bs: seq<seq<int>>, b: nat, o: nat)
    requires b < |bs| && o < |bs[b]|
    ensures |Concat(bs[..b])| + o < |Concat(bs)|
    ensures Concat(bs)[|Concat(bs[..b])| + o] == bs[b][o]
  {
    ConcatSplit(bs, b);
  }

  /** Replacing block `b` by a block of the same length changes exactly the
      flat positions that block covers. */
  lemma {:induction false} ConcatUpdate(bs: seq<seq<int>>, b: nat, x: seq<int>)
    requires b < |bs| && |x| == |bs[b]|
    ensures Concat(bs[b := x][..b]) == Concat(bs[..b])
    ensures |Concat(bs[b := x])| == |Concat(bs)|
    ensures forall p {:trigger Concat(bs[b := x])[p]} :: 0 <= p < |Concat(bs)| ==>
              Concat(bs[b := x])[p] ==
                if |Concat(bs[..b])| <= p < |Concat(bs[..b])| + |x|
                then x[p - |Concat(bs[..b])|] else Concat(bs)[p]
  {
    var bs' := bs[b := x];
    assert bs'[..b] == bs[..b];
    assert bs'[b + 1..] == bs[b + 1..];
    ConcatSplit(bs, b);
    ConcatSplit(bs', b);
  }

  /** The blocks before `b` hold one more element per position of `b`. */
  lemma {:induction false} ConcatPrefixStep(bs: seq<seq<int>>, b: nat)
    requires b < |bs|
    ensures |Concat(bs[..b + 1])| == |Concat(bs[..b])| + |bs[b]|
    ensures |Concat(bs[..b])| + |bs[b]| <= |Concat(bs)|
  {
    assert bs[..b + 1][..b] == bs[..b];
    ConcatSplit(bs, b);
  }

  /** In a shaped grid the blocks before `bi` hold RowOf(bi) full rows and
      ColBlock(bi) full-width blocks of the next row. */
  lemma {:induction false} PrefixLen(bs: seq<seq<int>>, L: Layout, bi: nat)
    requires Shaped(bs, L) && bi <= |bs|
    ensures L.Bpr() > 0 ==> |Concat(bs[..bi])| == L.RowOf(bi) * L.cols + L.ColBlock(bi) * L.width
    ensures L.Bpr() == 0 ==> |Concat(bs[..bi])| == 0
  {
    if bi == 0 {
      assert bs[..0] == [];
    } else {
      var p := bi - 1;
      PrefixLen(bs, L, p);
      ConcatPrefixStep(bs, p);
      PrefixStep(L, p);
    }
  }

  /** Arithmetic step of PrefixLen: moving past block `p` adds its length. */
  lemma PrefixStep(L: Layout, p: nat)
    requires L.Valid() && L.Bpr() > 0
    ensures L.RowOf(p) * L.cols + L.ColBlock(p) * L.width + L.Len(p)
            == L.RowOf(p + 1) * L.cols + L.ColBlock(p + 1) * L.width
  {
    var bpr, w, cols := L.Bpr(), L.width, L.cols;
    LenByColumn(L, p);
    var q, r := p / bpr, p % bpr;
    assert p == q * bpr + r;
    if r == bpr - 1 {
      MulSucc(q, bpr);
      DivModUnique(p + 1, bpr, q + 1, 0);
      assert (bpr - 1) * w + L.Last() == cols;
      MulSucc(q, cols);
    } else {
      DivModUnique(p + 1, bpr, q, r + 1);
      MulSucc(r, w);
    }
  }

  /** A shaped grid holds rows * cols elements, and element (r, col) is at
      flat position r * cols + col. */
  lemma {:induction false} FlatIndex(bs: seq<seq<int>>, L: Layout, r: nat, col: nat)
    requires Shaped(bs, L) && r < L.rows && col < L.cols
    ensures r * L.cols + col < |Concat(bs)|
    ensures Concat(bs)[r * L.cols + col] == Cell(bs, L, r, col)
  {
    CellAddress(L, r, col);
    var bi, o := r * L.Bpr() + col / L.width, col % L.width;
    PrefixLen(bs, L, bi);
    var row, cb := L.RowOf(bi), L.ColBlock(bi);
    assert row == r && cb * L.width + o == col;
    assert |Concat(bs[..bi])| + o == r * L.cols + col;
    assert bi < |bs| && o < |bs[bi]|;
    ConcatAt(bs, bi, o);
  }

  /** A shaped grid holds exactly rows * cols elements. */
  lemma {:induction false} ConcatLen(bs: seq<seq<int>>, L: Layout)
    requires Shaped(bs, L)
    ensures |Concat(bs)| == L.rows * L.cols
  {
    PrefixLen(bs, L, |bs|);
    assert bs[..|bs|] == bs;
    if L.Bpr() > 0 {
      DivModUnique(|bs|, L.Bpr(), L.rows, 0);
    }
  }

  /** Two grids of the same shape, whatever their block widths, with the same
      elements in row-major order store the same matrix. */
  lemma {:induction false} SameContentSameView(X: seq<seq<int>>, LX: Layout, Y: seq<seq<int>>, LY: Layout)
    requires Shaped(X, LX) && Shaped(Y, LY)
    requires LX.rows == LY.rows && LX.cols == LY.cols
    requires Concat(X) == Concat(Y)
    ensures ToMatrix(X, LX) == ToMatrix(Y, LY)
  {
    var MX, MY := ToMatrix(X, LX), ToMatrix(Y, LY);
    forall r | 0 <= r < LX.rows
      ensures MX[r] == MY[r]
    {
      forall col | 0 <= col < LX.cols
        ensures MX[r][col] == MY[r][col]
      {
        FlatIndex(X, LX, r, col);
        FlatIndex(Y, LY, r, col);
      }
    }
  }

  /** Grids with the same block lengths and the same flattened contents are
      equal block by block. */
  lemma {:induction false} ConcatInjective(xs: seq<seq<int>>, ys: seq<seq<int>>)
    requires |xs| == |ys|
    requires forall b :: 0 <= b < |xs| ==> |xs[b]| == |ys[b]|
    requires Concat(xs) == Concat(ys)
    ensures xs == ys
  {
    if xs != [] {
      var n := |xs| - 1;
      LengthsDetermineConcatLen(xs[..n], ys[..n]);
      var cx, cy := Concat(xs[..n]), Concat(ys[..n]);
      assert cx + xs[n] == cy + ys[n];
      assert cx == (cx + xs[n])[..|cx|];
      assert xs[n] == (cx + xs[n])[|cx|..];
      ConcatInjective(xs[..n], ys[..n]);
      assert xs == xs[..n] + [xs[n]];
      assert ys == ys[..n] + [ys[n]];
    }
  }

  lemma {:induction false} LengthsDetermineConcatLen(xs: seq<seq<int>>, ys: seq<seq<int>>)
    requires |xs| == |ys|
    requires forall b :: 0 <= b < |xs| ==> |xs[b]| == |ys[b]|
    ensures |Concat(xs)| == |Concat(ys)|
  {
    if xs != [] {
      LengthsDetermineConcatLen(xs[..|xs| - 1], ys[..|ys| - 1]);
    }
  }
}
