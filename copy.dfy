/** `NDArrayDot.copy`: converts A and B to one block per row, multiplies them
    tile by tile into a fresh zero matrix, and copies the product into the
    blocks of the caller's C, replacing what C held. */
module DotCopy {
  import opened BlockLayout
  import opened NDUtil
  import opened DotSpec
  import opened NDArrays

  /** `Array(m) { DoubleArray(n) }`: m fresh rows of n zeros. */
  method ZeroRows(m: nat, n: nat) returns (c: Grid)
    ensures fresh(c) && c.Length == m && Distinct(c)
    ensures forall i :: 0 <= i < m ==> fresh(c[i]) && c[i].Length == n && IsZero(c[i])
  {
    var placeholder := new int[0];
    c := new array<int>[m](_ => placeholder);
    var i := 0;
    while i < m
      invariant 0 <= i <= m
      invariant forall k :: 0 <= k < i ==> fresh(c[k]) && c[k].Length == n && IsZero(c[k])
      invariant forall p, q :: 0 <= p < i && 0 <= q < i && p != q ==> c[p] != c[q]
    {
      var row := ZeroBlock(n);
      c[i] := row;
      i := i + 1;
    }
  }

  /** The state the tiled loops of `copy` keep: dense A (m x t) and B (t x n)
      unchanged, and C an m x n grid of distinct rows shared with neither. */
  ghost predicate Dense(c: Grid, a: Grid, b: Grid, A: seq<seq<int>>, B: seq<seq<int>>, m: nat, t: nat, n: nat)
    reads c, a, b, Blocks(a), Blocks(b)
  {
    && Values(a) == A && Values(b) == B
    && IsMatrix(A, m, t) && IsMatrix(B, t, n)
    && c.Length == m && Distinct(c)
    && (forall i :: 0 <= i < m ==> c[i].Length == n)
    && Disjoint(c, a) && Disjoint(c, b)
  }

  /** The k loop for one row `i` of a tile:
      `for (k in kt until ke) for (j in jt until je) ci[j] += ai[k] * b[k][j]`. */
  method TileRow(ci: array<int>, ai: array<int>, b: Grid, ghost A: seq<seq<int>>, ghost B: seq<seq<int>>,
                 i: nat, kt: nat, ke: nat, jt: nat, je: nat, t: nat, n: nat)
    requires i < |A| && ai[..] == A[i] && |A[i]| == t
    requires Values(b) == B && IsMatrix(B, t, n)
    requires ci !in Blocks(b) && ci != ai && ci.Length == n
    requires kt <= ke <= t && jt <= je <= n
    modifies ci
    ensures forall j :: 0 <= j < n ==>
              ci[j] == old(ci[j]) + if jt <= j < je then Dot(A, B, i, j, ke) - Dot(A, B, i, j, kt) else 0
  {
    var k := kt;
    while k < ke
      invariant kt <= k <= ke
      invariant Values(b) == B && ai[..] == A[i]
      invariant forall j :: 0 <= j < n ==>
                  ci[j] == old(ci[j]) + if jt <= j < je then Dot(A, B, i, j, k) - Dot(A, B, i, j, kt) else 0
    {
      var bk := b[k];
      var aik := ai[k];
      AddScaled(ci, bk, aik, jt, je);
      k := k + 1;
    }
  }

  /** The i loop of a tile: rows [it, ie), columns [jt, je), terms [kt, ke). */
  method TileRows(c: Grid, a: Grid, b: Grid, ghost A: seq<seq<int>>, ghost B: seq<seq<int>>,
                  m: nat, t: nat, n: nat, it: nat, ie: nat, kt: nat, ke: nat, jt: nat, je: nat)
    requires Dense(c, a, b, A, B, m, t, n)
    requires it <= ie <= m && kt <= ke <= t && jt <= je <= n
    modifies Blocks(c)
    ensures Dense(c, a, b, A, B, m, t, n)
    ensures Added(old(Values(c)), Values(c), A, B, it, ie, jt, je, kt, ke)
  {
    ghost var C0 := Values(c);
    var i := it;
    while i < ie
      invariant it <= i <= ie
      invariant Dense(c, a, b, A, B, m, t, n)
      invariant Added(C0, Values(c), A, B, it, i, jt, je, kt, ke)
    {
      var ci := c[i];
      var ai := a[i];
      TileRow(ci, ai, b, A, B, i, kt, ke, jt, je, t, n);
      i := i + 1;
    }
  }

  /** The jt loop: every column tile of the row tile [it, ie) and inner tile
      [kt, ke). */
  method ColumnTiles(c: Grid, a: Grid, b: Grid, ghost A: seq<seq<int>>, ghost B: seq<seq<int>>,
                     m: nat, t: nat, n: nat, nts: nat, it: nat, ie: nat, kt: nat, ke: nat)
    requires Dense(c, a, b, A, B, m, t, n)
    requires it <= ie <= m && kt <= ke <= t && nts > 0
    modifies Blocks(c)
    ensures Dense(c, a, b, A, B, m, t, n)
    ensures Added(old(Values(c)), Values(c), A, B, it, ie, 0, n, kt, ke)
  {
    ghost var C0 := Values(c);
    var jt := 0;
    while jt < n
      invariant Dense(c, a, b, A, B, m, t, n)
      invariant Added(C0, Values(c), A, B, it, ie, 0, Min(jt, n), kt, ke)
    {
      var je := TileEnd(jt, nts, n);
      ghost var C1 := Values(c);
      TileRows(c, a, b, A, B, m, t, n, it, ie, kt, ke, jt, je);
      AddedColumns(C0, C1, Values(c), A, B, it, ie, 0, jt, je, kt, ke);
      jt := jt + nts;
    }
  }

  /** The kt loop: every inner tile of the row tile [it, ie). */
  method InnerTiles(c: Grid, a: Grid, b: Grid, ghost A: seq<seq<int>>, ghost B: seq<seq<int>>,
                    m: nat, t: nat, n: nat, tts: nat, nts: nat, it: nat, ie: nat)
    requires Dense(c, a, b, A, B, m, t, n)
    requires it <= ie <= m && tts > 0 && nts > 0
    modifies Blocks(c)
    ensures Dense(c, a, b, A, B, m, t, n)
    ensures Added(old(Values(c)), Values(c), A, B, it, ie, 0, n, 0, t)
  {
    ghost var C0 := Values(c);
    var kt := 0;
    while kt < t
      invariant Dense(c, a, b, A, B, m, t, n)
      invariant Added(C0, Values(c), A, B, it, ie, 0, n, 0, Min(kt, t))
    {
      var ke := TileEnd(kt, tts, t);
      assert Min(kt, t) == kt && Min(kt + tts, t) == ke;
      ghost var C1 := Values(c);
      ColumnTiles(c, a, b, A, B, m, t, n, nts, it, ie, kt, ke);
      AddedTerms(C0, C1, Values(c), A, B, it, ie, 0, n, 0, kt, ke);
      kt := kt + tts;
    }
  }

  /** The it loop: C0 + A·B into the dense rows `c`. */
  method RowTiles(c: Grid, a: Grid, b: Grid, ghost A: seq<seq<int>>, ghost B: seq<seq<int>>,
                  m: nat, t: nat, n: nat, ts: Tiles)
    requires Dense(c, a, b, A, B, m, t, n)
    requires ts.mts > 0 && ts.tts > 0 && ts.nts > 0
    modifies Blocks(c)
    ensures Dense(c, a, b, A, B, m, t, n)
    ensures Added(old(Values(c)), Values(c), A, B, 0, m, 0, n, 0, t)
  {
    ghost var C0 := Values(c);
    var it := 0;
    while it < m
      invariant Dense(c, a, b, A, B, m, t, n)
      invariant Added(C0, Values(c), A, B, 0, Min(it, m), 0, n, 0, t)
    {
      var ie := TileEnd(it, ts.mts, m);
      ghost var C1 := Values(c);
      InnerTiles(c, a, b, A, B, m, t, n, ts.tts, ts.nts, it, ie);
      AddedRows(C0, C1, Values(c), A, B, 0, it, ie, 0, n, 0, t);
      it := it + ts.mts;
    }
  }

  /** The inner copy-back loop: dense row `ci` into the blocks of row `i` of
      `dst`, `ci.copyInto(destination, 0, jb * cbs, jb * cbs + destination.size)`
      for every block `jb` of the row. */
  method CopyBackRow(ci: array<int>, dst: Grid, L: Layout, i: nat, offset: nat, cbnr: nat, cbs: nat)
    requires Fits(dst, L) && Distinct(dst) && ci !in Blocks(dst)
    requires i < L.rows && ci.Length == L.cols
    requires cbs == L.width && cbnr == L.Bpr() && offset == i * cbnr
    modifies Blocks(dst)
    ensures Fits(dst, L)
    ensures forall r, col {:trigger Mat(dst, L)[r][col]} :: 0 <= r < L.rows && 0 <= col < L.cols ==>
              Mat(dst, L)[r][col] == if r == i then ci[col] else old(Mat(dst, L))[r][col]
  {
    ghost var V0 := Values(dst);
    FitsShaped(dst, L);
    ghost var M0 := ToMatrix(V0, L);
    CopyRowBlocks(ci, dst, V0, ci[..], L, i, offset, cbnr, cbs);
    RowBlocksView(Values(dst), V0, L, i, ci[..]);
  }

  /** The loop of `CopyBackRow`, on the block values alone. */
  method CopyRowBlocks(ci: array<int>, dst: Grid, ghost V0: seq<seq<int>>, ghost row: seq<int>,
                       L: Layout, i: nat, offset: nat, cbnr: nat, cbs: nat)
    requires Distinct(dst) && ci !in Blocks(dst) && Values(dst) == V0 && ci[..] == row
    requires Shaped(V0, L) && i < L.rows && |row| == L.cols
    requires cbs == L.width && cbnr == L.Bpr() && offset == i * cbnr
    modifies Blocks(dst)
    ensures ci[..] == row && RowBlocksFrom(Values(dst), V0, L, i, row, cbnr)
  {
    RowBlocksNone(V0, L, i, row);
    var jb := 0;
    while jb < cbnr
      invariant jb <= cbnr
      invariant ci[..] == row && RowBlocksFrom(Values(dst), V0, L, i, row, jb)
    {
      CopyRowBlock(ci, dst, V0, row, L, i, offset, jb, cbs);
      jb := jb + 1;
    }
  }

  /** One step of `CopyRowBlocks`: block `jb` of row `i` receives its slice
      of the row. */
  method CopyRowBlock(ci: array<int>, dst: Grid, ghost V0: seq<seq<int>>, ghost row: seq<int>,
                      L: Layout, i: nat, offset: nat, jb: nat, cbs: nat)
    requires Distinct(dst) && ci !in Blocks(dst) && ci[..] == row
    requires Shaped(V0, L) && i < L.rows && |row| == L.cols && jb < L.Bpr()
    requires cbs == L.width && offset == i * L.Bpr()
    requires RowBlocksFrom(Values(dst), V0, L, i, row, jb)
    modifies Blocks(dst)
    ensures ci[..] == row && RowBlocksFrom(Values(dst), V0, L, i, row, jb + 1)
  {
    ghost var V := Values(dst);
    var startIndex := jb * cbs;
    RowBlocksStep(V, V0, L, i, row, jb, offset, startIndex);
    var destination := dst[offset + jb];
    assert destination.Length == |V0[offset + jb]|;
    ghost var slice := row[startIndex..startIndex + |V0[offset + jb]|];
    CopyOntoBlock(ci, dst, V, slice, offset + jb, startIndex, startIndex + destination.Length);
  }

  /** Rows [0, i) of `M` are those of `P`. */
  ghost predicate RowsFrom(M: seq<seq<int>>, P: seq<seq<int>>, i: nat)
  {
    i <= |M| && i <= |P| && forall r :: 0 <= r < i ==> M[r] == P[r]
  }

  /** Setting row `i` to P[i] extends the rows taken from `P` by one. */
  lemma RowsFromStep(M0: seq<seq<int>>, M1: seq<seq<int>>, P: seq<seq<int>>, rows: nat, cols: nat, i: nat)
    requires IsMatrix(M0, rows, cols) && IsMatrix(M1, rows, cols) && IsMatrix(P, rows, cols)
    requires i < rows && RowsFrom(M0, P, i)
    requires forall r, col {:trigger M1[r][col]} :: 0 <= r < rows && 0 <= col < cols ==>
               M1[r][col] == if r == i then P[i][col] else M0[r][col]
    ensures RowsFrom(M1, P, i + 1)
  {
    forall r | 0 <= r < i + 1
      ensures M1[r] == P[r]
    {
      forall col | 0 <= col < cols
        ensures M1[r][col] == P[r][col]
      {
        assert M1[r][col] == if r == i then P[i][col] else M0[r][col];
        if r < i {
          assert M0[r] == P[r];
        }
      }
    }
  }

  /** The copy-back loop of `copy`: every dense row into its blocks. */
  method CopyBack(c: Grid, dst: Grid, L: Layout, m: nat)
    requires Fits(dst, L) && Distinct(dst) && L.rows == m && m > 0
    requires c.Length == m && (forall i :: 0 <= i < m ==> c[i].Length == L.cols)
    requires Disjoint(c, dst)
    modifies Blocks(dst)
    ensures Fits(dst, L)
    ensures Mat(dst, L) == old(Values(c))
  {
    var cbs := L.width;
    var cbnr := dst.Length / m;
    DivModUnique(dst.Length, m, L.Bpr(), 0);
    ghost var P := Values(c);
    var i := 0;
    while i < m
      invariant i <= m
      invariant Fits(dst, L) && Values(c) == P
      invariant RowsFrom(Mat(dst, L), P, i)
    {
      var ci := c[i];
      var offset := i * cbnr;
      ghost var M0 := Mat(dst, L);
      CopyBackRow(ci, dst, L, i, offset, cbnr, cbs);
      RowsFromStep(M0, Mat(dst, L), P, m, L.cols, i);
      i := i + 1;
    }
    assert RowsFrom(Mat(dst, L), P, m);
  }

  /** The tiled loops of `copy` on fresh zero rows: A·B as dense rows. */
  method ProductRows(ad: Grid, bd: Grid, ghost A: seq<seq<int>>, ghost B: seq<seq<int>>, m: nat, t: nat, n: nat)
    returns (cd: Grid)
    requires Values(ad) == A && Values(bd) == B && IsMatrix(A, m, t) && IsMatrix(B, t, n) && t > 0
    ensures fresh(cd) && cd.Length == m && Distinct(cd)
    ensures forall i :: 0 <= i < m ==> fresh(cd[i]) && cd[i].Length == n
    ensures Disjoint(cd, ad) && Disjoint(cd, bd)
    ensures Values(cd) == MatMul(A, B, m, t, n)
  {
    cd := ZeroRows(m, n);
    var ts := TileSizes(m, t);
    ghost var C0 := Values(cd);
    RowTiles(cd, ad, bd, A, B, m, t, n, ts);
    AddedAllToZero(C0, Values(cd), A, B, m, t, n);
  }

  /** `copy(a, b, c_)`: C's blocks end up holding A·B, whatever they held
      before. A and B are read into dense rows before C is written, so C may
      share blocks with them; an operand that shares none keeps its values.
      `toDoubleArray` needs at least one column in A and in B, `b[0]` needs B
      to have a row, and `blocksNum / m` needs A to have a row. */
  method Copy(a: NDArray, b: NDArray, c: NDArray)
    requires a.Valid() && b.Valid() && c.Valid()
    requires |a.shape| == 2 && |b.shape| == 2 && |c.shape| == 2
    requires a.shape[1] == b.shape[0] && c.shape[0] == a.shape[0] && c.shape[1] == b.shape[1]
    requires a.shape[0] > 0 && b.shape[0] > 0 && b.shape[1] > 0
    modifies Blocks(c.blocks)
    ensures c.Valid()
    ensures c.Matrix() == MatMul(old(a.Matrix()), old(b.Matrix()), a.shape[0], b.shape[0], b.shape[1])
    ensures Disjoint(c.blocks, a.blocks) ==> Values(a.blocks) == old(Values(a.blocks))
    ensures Disjoint(c.blocks, b.blocks) ==> Values(b.blocks) == old(Values(b.blocks))
  {
    ghost var MA, MB := a.Matrix(), b.Matrix();
    var ad := ToDoubleArray(a.blocks, a.Lay());
    assert Values(b.blocks) == old(Values(b.blocks));
    assert b.Matrix() == MB;
    var bd := ToDoubleArray(b.blocks, b.Lay());
    var m, t, n := ad.Length, bd.Length, bd[0].Length;
    assert m == a.shape[0] && t == b.shape[0] && n == b.shape[1];
    var cd := ProductRows(ad, bd, MA, MB, m, t, n);
    CopyBack(cd, c.blocks, c.Lay(), m);
  }
}
