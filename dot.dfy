/** What the matrix-multiply kernels of NDArrayDot.kt compute, stated on
    matrices as values, and the tiling arithmetic they share. */
module DotSpec {
  import opened BlockLayout

  /** The first `k` terms of the dot product of row `r` of `A` with column
      `col` of `B`: the sum over x < k of A[r][x] * B[x][col]. */
  function Dot(A: seq<seq<int>>, B: seq<seq<int>>, r: int, col: int, k: nat): int
  {
    if k == 0 then 0 else Dot(A, B, r, col, k - 1) + Entry(A, r, k - 1) * Entry(B, k - 1, col)
  }

  /** The product of an m x t matrix and a t x n matrix. */
  function MatMul(A: seq<seq<int>>, B: seq<seq<int>>, m: nat, t: nat, n: nat): (P: seq<seq<int>>)
    ensures IsMatrix(P, m, n)
  {
    seq(m, i requires 0 <= i < m => seq(n, j requires 0 <= j < n => Dot(A, B, i, j, t)))
  }

  /** Element-wise sum of two matrices of the same shape. */
  function MatAdd(X: seq<seq<int>>, Y: seq<seq<int>>, m: nat, n: nat): (S: seq<seq<int>>)
    requires IsMatrix(X, m, n) && IsMatrix(Y, m, n)
    ensures IsMatrix(S, m, n)
  {
    seq(m, i requires 0 <= i < m => seq(n, j requires 0 <= j < n => X[i][j] + Y[i][j]))
  }

  /** `M1` is `M0` with, in every cell (r, col) of the rectangle
      [r0, r1) x [c0, c1), the terms k0 <= x < k1 of its dot product added,
      and every other cell unchanged. Cells outside `M0` are ignored. */
  predicate Added(M0: seq<seq<int>>, M1: seq<seq<int>>, A: seq<seq<int>>, B: seq<seq<int>>,
                  r0: int, r1: int, c0: int, c1: int, k0: nat, k1: nat)
  {
    && |M1| == |M0|
    && (forall r :: 0 <= r < |M0| ==> |M1[r]| == |M0[r]|)
    && forall r, col :: 0 <= r < |M0| && 0 <= col < |M0[r]| ==>
         M1[r][col] == M0[r][col] + (if r0 <= r < r1 && c0 <= col < c1
                                     then Dot(A, B, r, col, k1) - Dot(A, B, r, col, k0) else 0)
  }

  /** An empty rectangle or an empty range of terms adds nothing. */
  lemma AddedNothing(M: seq<seq<int>>, A: seq<seq<int>>, B: seq<seq<int>>,
                     r0: int, r1: int, c0: int, c1: int, k0: nat, k1: nat)
    requires r1 <= r0 || c1 <= c0 || k0 == k1
    ensures Added(M, M, A, B, r0, r1, c0, c1, k0, k1)
  {
  }

  /** Adding the terms [k0, k1) and then [k1, k2) adds the terms [k0, k2). */
  lemma AddedTerms(X: seq<seq<int>>, Y: seq<seq<int>>, Z: seq<seq<int>>, A: seq<seq<int>>, B: seq<seq<int>>,
                   r0: int, r1: int, c0: int, c1: int, k0: nat, k1: nat, k2: nat)
    requires Added(X, Y, A, B, r0, r1, c0, c1, k0, k1)
    requires Added(Y, Z, A, B, r0, r1, c0, c1, k1, k2)
    ensures Added(X, Z, A, B, r0, r1, c0, c1, k0, k2)
  {
  }

  /** Two side-by-side rectangles [c0, c1) and [c1, c2) make [c0, c2). */
  lemma AddedColumns(X: seq<seq<int>>, Y: seq<seq<int>>, Z: seq<seq<int>>, A: seq<seq<int>>, B: seq<seq<int>>,
                     r0: int, r1: int, c0: int, c1: int, c2: int, k0: nat, k1: nat)
    requires c0 <= c1 <= c2
    requires Added(X, Y, A, B, r0, r1, c0, c1, k0, k1)
    requires Added(Y, Z, A, B, r0, r1, c1, c2, k0, k1)
    ensures Added(X, Z, A, B, r0, r1, c0, c2, k0, k1)
  {
  }

  /** Two stacked rectangles [r0, r1) and [r1, r2) make [r0, r2). */
  lemma AddedRows(X: seq<seq<int>>, Y: seq<seq<int>>, Z: seq<seq<int>>, A: seq<seq<int>>, B: seq<seq<int>>,
                  r0: int, r1: int, r2: int, c0: int, c1: int, k0: nat, k1: nat)
    requires r0 <= r1 <= r2
    requires Added(X, Y, A, B, r0, r1, c0, c1, k0, k1)
    requires Added(Y, Z, A, B, r1, r2, c0, c1, k0, k1)
    ensures Added(X, Z, A, B, r0, r2, c0, c1, k0, k1)
  {
  }

  /** Adding every term of every cell of an m x n matrix `C0` yields C0 + A·B. */
  lemma AddedAll(C0: seq<seq<int>>, C: seq<seq<int>>, A: seq<seq<int>>, B: seq<seq<int>>, m: nat, t: nat, n: nat)
    requires IsMatrix(C0, m, n)
    requires Added(C0, C, A, B, 0, m, 0, n, 0, t)
    ensures C == MatAdd(C0, MatMul(A, B, m, t, n), m, n)
  {
    var S := MatAdd(C0, MatMul(A, B, m, t, n), m, n);
    forall i | 0 <= i < m
      ensures C[i] == S[i]
    {
    }
  }

  /** Adding every term of every cell to a zero matrix yields A·B. */
  lemma AddedAllToZero(C0: seq<seq<int>>, C: seq<seq<int>>, A: seq<seq<int>>, B: seq<seq<int>>, m: nat, t: nat, n: nat)
    requires IsMatrix(C0, m, n) && forall i, j :: 0 <= i < m && 0 <= j < n ==> C0[i][j] == 0
    requires Added(C0, C, A, B, 0, m, 0, n, 0, t)
    ensures C == MatMul(A, B, m, t, n)
  {
    var P := MatMul(A, B, m, t, n);
    forall i | 0 <= i < m
      ensures C[i] == P[i]
    {
    }
  }

  /** The terms [k, k + 1) of one cell are the single product A[r][k] * B[k][col]. */
  lemma DotStep(A: seq<seq<int>>, B: seq<seq<int>>, r: int, col: int, k: nat)
    ensures Dot(A, B, r, col, k + 1) - Dot(A, B, r, col, k) == Entry(A, r, k) * Entry(B, k, col)
  {
  }

  // ---------------------------------------------------------------------
  // Tiling (NDArrayDot.kt, shared by `new`, `copy` and `resize`)

  const PageBytes: nat := 4 * 1024
  /** Kotlin's `Double.SIZE_BYTES`. */
  const DoubleBytes: nat := 8

  /** Tile heights and widths: rows of C, inner dimension, columns of C. */
  datatype Tiles = Tiles(mts: nat, tts: nat, nts: nat)

  /** The tile-size heuristic: tall-and-thin products (m / t at least 10) take
      256 rows by 24 inner elements, others 24 by 30; the column tile is one
      page of doubles. Kotlin's `m / t` throws for t == 0. */
  function TileSizes(m: nat, t: nat): (ts: Tiles)
    requires t > 0
    ensures ts.nts == PageBytes / DoubleBytes == 512
    ensures ts.mts == 256 <==> m >= 10 * t
    ensures ts.tts == 24 <==> m >= 10 * t
    ensures m < 10 * t ==> ts.mts == 24 && ts.tts == 30
    ensures ts.mts > 0 && ts.tts > 0
  {
    var nts := PageBytes / DoubleBytes;
    if m / t >= 10 then Tiles(256, 24, nts) else Tiles(24, 30, nts)
  }

  /** The tile end `min(start, total - size) + size`, computed as the source
      does; it is the start plus the tile size, clipped to the total. */
  function TileEnd(start: nat, size: nat, total: nat): (e: nat)
    ensures e == if start + size <= total then start + size else total
  {
    (if start <= total - size then start else total - size) + size
  }

  function Min(x: nat, y: nat): nat
  {
    if x <= y then x else y
  }

  /** The tiles [s, TileEnd(s)) for the multiples s of `size` below `total`
      cover [0, total) exactly once: every x lies in the tile that starts at
      (x / size) * size, and in no other. */
  lemma TileCover(x: nat, size: nat, total: nat)
    requires size > 0 && x < total
    ensures var s := (x / size) * size; s <= x < TileEnd(s, size, total) && s < total
    ensures forall q: nat :: q * size <= x < TileEnd(q * size, size, total) ==> q == x / size
  {
    var q0 := x / size;
    assert q0 * size <= x < (q0 + 1) * size;
    forall q: nat | q * size <= x < TileEnd(q * size, size, total)
      ensures q == q0
    {
      assert x < q * size + size;
      DivModUnique(x, size, q, x - q * size);
    }
  }
}
