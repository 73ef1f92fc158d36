/** Block grids in the heap (NDUtil.kt): a grid is an array of blocks, each
    block an array of elements, as Kotlin's `Array<DoubleArray>`. */
module NDUtil {
  import opened BlockLayout

  type Grid = array<array<int>>

  /** The block objects of a grid. */
  ghost function Blocks(g: Grid): set<array<int>>
    reads g
  {
    set k | 0 <= k < g.Length :: g[k]
  }

  /** No block object occurs twice in the grid. */
  ghost predicate Distinct(g: Grid)
    reads g
  {
    forall i, j :: 0 <= i < g.Length && 0 <= j < g.Length && i != j ==> g[i] != g[j]
  }

  /** The two grids share no block object. */
  ghost predicate Disjoint(g: Grid, h: Grid)
    reads g, h
  {
    Blocks(g) !! Blocks(h)
  }

  /** The contents of a grid, block by block. */
  ghost function Values(g: Grid): (vs: seq<seq<int>>)
    reads g, Blocks(g)
    ensures |vs| == g.Length
    ensures forall k :: 0 <= k < g.Length ==> vs[k] == g[k][..]
  {
    seq(g.Length, k requires 0 <= k < g.Length reads g, Blocks(g) => g[k][..])
  }

  /** The block lengths of `g` are those layout `L` prescribes. */
  ghost predicate Fits(g: Grid, L: Layout)
    reads g
  {
    && L.Valid()
    && g.Length == L.Count()
    && forall k :: 0 <= k < g.Length ==> g[k].Length == L.Len(k)
  }

  lemma FitsShaped(g: Grid, L: Layout)
    requires Fits(g, L)
    ensures Shaped(Values(g), L)
  {
  }

  /** The matrix a grid laid out as `L` stores. */
  ghost function Mat(g: Grid, L: Layout): seq<seq<int>>
    reads g, Blocks(g)
    requires Fits(g, L)
  {
    FitsShaped(g, L);
    ToMatrix(Values(g), L)
  }

  ghost predicate IsZero(a: array<int>)
    reads a
  {
    forall o :: 0 <= o < a.Length ==> a[o] == 0
  }

  /** Every element of the grid is zero. */
  ghost predicate AllZero(g: Grid)
    reads g, Blocks(g)
  {
    forall k :: 0 <= k < g.Length ==> IsZero(g[k])
  }

  /** Kotlin's `DoubleArray(size)`: a fresh zero-filled block. */
  method ZeroBlock(size: nat) returns (a: array<int>)
    ensures fresh(a) && a.Length == size && IsZero(a)
  {
    a := new int[size](_ => 0);
  }

  /** `emptyBlocks`: allocates a zero-filled grid of `rows` x `cols` elements at
      block width `blockSize`, and returns it with its number of blocks per row. */
  method EmptyBlocks(rows: nat, cols: nat, blockSize: nat) returns (g: Grid, blocksInRow: nat)
    requires blockSize > 0
    ensures blocksInRow == BlocksInRow(cols, blockSize)
    ensures Fits(g, Layout(rows, cols, blockSize)) && Distinct(g) && AllZero(g)
    ensures fresh(g) && forall k :: 0 <= k < g.Length ==> fresh(g[k])
  {
    var lastBlockSize: nat;
    if cols % blockSize == 0 {
      blocksInRow := cols / blockSize;
      lastBlockSize := blockSize;
    } else {
      blocksInRow := cols / blockSize + 1;
      lastBlockSize := cols % blockSize;
    }
    ghost var L := Layout(rows, cols, blockSize);
    assert blocksInRow == L.Bpr() && lastBlockSize == L.Last();
    g := BlockArray(rows * blocksInRow, blocksInRow, blockSize, lastBlockSize);
  }

  /** The array of `emptyBlocks`: `count` fresh zero blocks, where every block
      whose successor index is a multiple of `blocksInRow` has
      `lastBlockSize` elements and every other one `blockSize`. */
  method BlockArray(count: nat, blocksInRow: nat, blockSize: nat, lastBlockSize: nat) returns (g: Grid)
    requires count == 0 || blocksInRow > 0
    ensures fresh(g) && g.Length == count && Distinct(g) && AllZero(g)
    ensures forall k :: 0 <= k < count ==>
              fresh(g[k]) && g[k].Length == BlockSize(k, blocksInRow, blockSize, lastBlockSize)
  {
    var placeholder := new int[0];
    g := new array<int>[count](_ => placeholder);
    var blockI := 0;
    while blockI < g.Length
      invariant 0 <= blockI <= g.Length
      invariant forall k :: 0 <= k < blockI ==>
                  fresh(g[k]) && g[k].Length == BlockSize(k, blocksInRow, blockSize, lastBlockSize) && IsZero(g[k])
      invariant forall i, j :: 0 <= i < blockI && 0 <= j < blockI && i != j ==> g[i] != g[j]
    {
      var actualBlockSize := if (blockI + 1) % blocksInRow == 0 then lastBlockSize else blockSize;
      var block := ZeroBlock(actualBlockSize);
      g[blockI] := block;
      blockI := blockI + 1;
    }
  }

  /** Kotlin's `copyInto`: copies src[startIndex..endIndex) into dst at
      `destinationOffset`. */
  method CopyInto(src: array<int>, dst: array<int>, destinationOffset: nat, startIndex: nat, endIndex: nat)
    requires src != dst
    requires startIndex <= endIndex <= src.Length
    requires destinationOffset + (endIndex - startIndex) <= dst.Length
    modifies dst
    ensures dst[..] == old(dst[..destinationOffset]) + src[startIndex..endIndex]
                       + old(dst[destinationOffset + (endIndex - startIndex)..])
  {
    var n := endIndex - startIndex;
    var x := 0;
    while x < n
      invariant 0 <= x <= n
      invariant forall p :: 0 <= p < dst.Length ==>
                  dst[p] == if destinationOffset <= p < destinationOffset + x
                            then src[startIndex + (p - destinationOffset)] else old(dst[p])
    {
      dst[destinationOffset + x] := src[startIndex + x];
      x := x + 1;
    }
  }

  /** One `copyInto` of `copyBlocks`: `n` elements of source block `sb` from
      offset `so` into destination block `db` at offset `dOff`; the source and
      every other destination block keep their contents. */
  method CopyIntoBlock(src: Grid, dst: Grid, ghost sv: seq<seq<int>>, ghost dv: seq<seq<int>>,
                       sb: nat, so: nat, db: nat, dOff: nat, n: nat)
    requires Distinct(dst) && Disjoint(src, dst)
    requires Values(src) == sv && Values(dst) == dv
    requires sb < src.Length && so + n <= src[sb].Length
    requires db < dst.Length && dOff + n <= dst[db].Length
    modifies dst[db]
    ensures Values(src) == sv
    ensures Values(dst) == dv[db := dv[db][..dOff] + sv[sb][so..so + n] + dv[db][dOff + n..]]
  {
    assert src[sb] in Blocks(src) && dst[db] in Blocks(dst);
    CopyInto(src[sb], dst[db], dOff, so, so + n);
  }

  /** `copyInto` of src[startIndex..endIndex) over the whole of block `db` of
      a grid: that block becomes the slice, and no other block changes. */
  method CopyOntoBlock(src: array<int>, dst: Grid, ghost dv: seq<seq<int>>, ghost slice: seq<int>,
                       db: nat, startIndex: nat, endIndex: nat)
    requires Distinct(dst) && Values(dst) == dv && db < dst.Length && src !in Blocks(dst)
    requires startIndex <= endIndex <= src.Length && endIndex - startIndex == dst[db].Length
    requires src[startIndex..endIndex] == slice
    modifies dst[db]
    ensures Values(dst) == dv[db := slice]
  {
    CopyInto(src, dst[db], 0, startIndex, endIndex);
    assert dst[db][..] == src[startIndex..endIndex];
  }

  /** What `copyBlocks` makes of the destination's flattened contents: the
      first min(|s|, |d|) elements come from the source, the rest stay. */
  function Spliced(s: seq<int>, d: seq<int>): (r: seq<int>)
    ensures |r| == |d|
    ensures forall p :: 0 <= p < |d| ==> r[p] == if p < |s| then s[p] else d[p]
  {
    if |s| < |d| then s + d[|s|..] else s[..|d|]
  }

  /** The state of the copy loop: `pos` elements of the source, read in order,
      have replaced the first `pos` elements of the destination. */
  ghost predicate CopiedUpTo(dv: seq<seq<int>>, sf: seq<int>, df: seq<int>, pos: nat)
  {
    && pos <= |sf| && pos <= |df|
    && |Concat(dv)| == |df|
    && forall p {:trigger Concat(dv)[p]} :: 0 <= p < |df| ==> Concat(dv)[p] == if p < pos then sf[p] else df[p]
  }

  /** One step of `copyBlocks`: the `n` elements of source block `sb` from
      offset `so` written into destination block `db` at offset `dOff`, where
      both cursors stand at flat position `pos`, extend the copied prefix to
      `pos + n`. */
  lemma {:induction false} CopyStep(sv: seq<seq<int>>, dv: seq<seq<int>>, sf: seq<int>, df: seq<int>,
                                    sb: nat, so: nat, db: nat, dOff: nat, n: nat, pos: nat)
    requires sf == Concat(sv)
    requires sb < |sv| && so + n <= |sv[sb]| && pos == |Concat(sv[..sb])| + so
    requires db < |dv| && dOff + n <= |dv[db]| && pos == |Concat(dv[..db])| + dOff
    requires CopiedUpTo(dv, sf, df, pos)
    ensures CopiedUpTo(dv[db := dv[db][..dOff] + sv[sb][so..so + n] + dv[db][dOff + n..]], sf, df, pos + n)
  {
    var x := dv[db][..dOff] + sv[sb][so..so + n] + dv[db][dOff + n..];
    var P := |Concat(dv[..db])|;
    ConcatUpdate(dv, db, x);
    ConcatPrefixStep(dv, db);
    ConcatPrefixStep(sv, sb);
    var dv' := dv[db := x];
    forall p {:trigger Concat(dv')[p]} | 0 <= p < |df|
      ensures Concat(dv')[p] == if p < pos + n then sf[p] else df[p]
    {
      if P <= p < P + |x| {
        var o := p - P;
        assert Concat(dv')[p] == x[o];
        if o < dOff {
          ConcatAt(dv, db, o);
          assert Concat(dv)[p] == dv[db][o];
        } else if o < dOff + n {
          ConcatAt(sv, sb, so + (o - dOff));
        } else {
          ConcatAt(dv, db, o);
          assert Concat(dv)[p] == dv[db][o];
        }
      } else {
        assert Concat(dv')[p] == Concat(dv)[p];
      }
    }
  }

  /** `copyBlocks`: copies the elements of `src`, in row-major order, into the
      blocks of `dst`, whatever the two block widths; the copy stops at the
      end of the shorter grid, and copying a grid onto itself does nothing. */
  method CopyBlocks(src: Grid, dst: Grid)
    requires Distinct(dst)
    requires src == dst || Disjoint(src, dst)
    modifies Blocks(dst)
    ensures Values(src) == old(Values(src))
    ensures Concat(Values(dst)) == Spliced(old(Concat(Values(src))), old(Concat(Values(dst))))
    ensures src == dst ==> unchanged(Blocks(dst))
  {
    if src == dst {
      return;
    }
    ghost var sv, sf := Values(src), Concat(Values(src));
    ghost var df := Concat(Values(dst));
    ghost var pos: nat := 0;
    assert sv[..0] == [] && Values(dst)[..0] == [];
    assert Cursors(sv, Values(dst), sf, df, 0, 0, 0, 0, pos);

    var srcBlockI: nat, srcBlockOffset: nat := 0, 0;
    var dstBlockI: nat, dstBlockOffset: nat := 0, 0;
    while srcBlockI < src.Length && dstBlockI < dst.Length
      invariant Values(src) == sv
      invariant Cursors(sv, Values(dst), sf, df, srcBlockI, srcBlockOffset, dstBlockI, dstBlockOffset, pos)
      decreases src.Length - srcBlockI + dst.Length - dstBlockI
    {
      ghost var dv := Values(dst);
      var copiedSize;
      srcBlockI, srcBlockOffset, dstBlockI, dstBlockOffset, copiedSize :=
        CopyChunk(src, dst, sv, dv, sf, df, srcBlockI, srcBlockOffset, dstBlockI, dstBlockOffset, pos);
      pos := pos + copiedSize;
    }
    CopyDone(sv, Values(dst), sf, df, srcBlockI, srcBlockOffset, dstBlockI, dstBlockOffset, pos);
  }

  /** One turn of the `copyBlocks` loop: copies as much of the current source
      block as fits into the current destination block and moves both
      cursors on, keeping them in step. */
  method CopyChunk(src: Grid, dst: Grid, ghost sv: seq<seq<int>>, ghost dv: seq<seq<int>>,
                   ghost sf: seq<int>, ghost df: seq<int>,
                   srcBlockI: nat, srcBlockOffset: nat, dstBlockI: nat, dstBlockOffset: nat, ghost pos: nat)
    returns (srcBlockI': nat, srcBlockOffset': nat, dstBlockI': nat, dstBlockOffset': nat, copiedSize: nat)
    requires Distinct(dst) && Disjoint(src, dst)
    requires Values(src) == sv && Values(dst) == dv
    requires srcBlockI < src.Length && dstBlockI < dst.Length
    requires Cursors(sv, dv, sf, df, srcBlockI, srcBlockOffset, dstBlockI, dstBlockOffset, pos)
    modifies dst[dstBlockI]
    ensures Values(src) == sv
    ensures copiedSize == if |sv[srcBlockI]| - srcBlockOffset <= |dv[dstBlockI]| - dstBlockOffset
                          then |sv[srcBlockI]| - srcBlockOffset else |dv[dstBlockI]| - dstBlockOffset
    ensures if srcBlockOffset + copiedSize == |sv[srcBlockI]|
            then srcBlockI' == srcBlockI + 1 && srcBlockOffset' == 0
            else srcBlockI' == srcBlockI && srcBlockOffset' == srcBlockOffset + copiedSize
    ensures if dstBlockOffset + copiedSize == |dv[dstBlockI]|
            then dstBlockI' == dstBlockI + 1 && dstBlockOffset' == 0
            else dstBlockI' == dstBlockI && dstBlockOffset' == dstBlockOffset + copiedSize
    ensures Cursors(sv, Values(dst), sf, df, srcBlockI', srcBlockOffset', dstBlockI', dstBlockOffset', pos + copiedSize)
    ensures src.Length - srcBlockI' + dst.Length - dstBlockI' < src.Length - srcBlockI + dst.Length - dstBlockI
  {
    var srcBlock := src[srcBlockI];
    var dstBlock := dst[dstBlockI];
    copiedSize := if srcBlock.Length - srcBlockOffset <= dstBlock.Length - dstBlockOffset
                  then srcBlock.Length - srcBlockOffset else dstBlock.Length - dstBlockOffset;

    CopyIntoBlock(src, dst, sv, dv, srcBlockI, srcBlockOffset, dstBlockI, dstBlockOffset, copiedSize);

    srcBlockI', srcBlockOffset' := srcBlockI, srcBlockOffset + copiedSize;
    if srcBlockOffset' == srcBlock.Length {
      srcBlockOffset' := 0;
      srcBlockI' := srcBlockI + 1;
    }

    dstBlockI', dstBlockOffset' := dstBlockI, dstBlockOffset + copiedSize;
    if dstBlockOffset' == dstBlock.Length {
      dstBlockOffset' := 0;
      dstBlockI' := dstBlockI + 1;
    }

    CopyAdvance(sv, dv, sf, df, srcBlockI, srcBlockOffset, dstBlockI, dstBlockOffset, copiedSize, pos,
                srcBlockI', srcBlockOffset', dstBlockI', dstBlockOffset');
  }

  /** The cursors of the copy loop: source block `sb` at offset `so` and
      destination block `db` at offset `dOff` both stand at flat position
      `pos`, and everything before `pos` has been copied. */
  ghost predicate Cursors(sv: seq<seq<int>>, dv: seq<seq<int>>, sf: seq<int>, df: seq<int>,
                          sb: nat, so: nat, db: nat, dOff: nat, pos: nat)
  {
    && sf == Concat(sv)
    && sb <= |sv| && (sb < |sv| ==> so <= |sv[sb]|) && (sb == |sv| ==> so == 0)
    && db <= |dv| && (db < |dv| ==> dOff <= |dv[db]|) && (db == |dv| ==> dOff == 0)
    && pos == |Concat(sv[..sb])| + so
    && pos == |Concat(dv[..db])| + dOff
    && CopiedUpTo(dv, sf, df, pos)
  }

  /** One turn of the copy loop keeps the cursors in step. */
  lemma CopyAdvance(sv: seq<seq<int>>, dv: seq<seq<int>>, sf: seq<int>, df: seq<int>,
                    sb: nat, so: nat, db: nat, dOff: nat, n: nat, pos: nat,
                    sb': nat, so': nat, db': nat, dOff': nat)
    requires Cursors(sv, dv, sf, df, sb, so, db, dOff, pos)
    requires sb < |sv| && db < |dv|
    requires n == if |sv[sb]| - so <= |dv[db]| - dOff then |sv[sb]| - so else |dv[db]| - dOff
    requires if so + n == |sv[sb]| then sb' == sb + 1 && so' == 0 else sb' == sb && so' == so + n
    requires if dOff + n == |dv[db]| then db' == db + 1 && dOff' == 0 else db' == db && dOff' == dOff + n
    ensures Cursors(sv, dv[db := dv[db][..dOff] + sv[sb][so..so + n] + dv[db][dOff + n..]], sf, df,
                    sb', so', db', dOff', pos + n)
  {
    var dv' := dv[db := dv[db][..dOff] + sv[sb][so..so + n] + dv[db][dOff + n..]];
    CopyStep(sv, dv, sf, df, sb, so, db, dOff, n, pos);
    ConcatPrefixStep(sv, sb);
    ConcatPrefixStep(dv', db);
    assert dv'[..db] == dv[..db];
  }

  /** When either cursor has run off its grid, the copied prefix is the
      shorter of the two grids. */
  lemma CopyDone(sv: seq<seq<int>>, dv: seq<seq<int>>, sf: seq<int>, df: seq<int>,
                 sb: nat, so: nat, db: nat, dOff: nat, pos: nat)
    requires sf == Concat(sv)
    requires sb <= |sv| && (sb < |sv| ==> so <= |sv[sb]|) && (sb == |sv| ==> so == 0)
    requires db <= |dv| && (db < |dv| ==> dOff <= |dv[db]|) && (db == |dv| ==> dOff == 0)
    requires sb == |sv| || db == |dv|
    requires pos == |Concat(sv[..sb])| + so && pos == |Concat(dv[..db])| + dOff
    requires CopiedUpTo(dv, sf, df, pos)
    ensures Concat(dv) == Spliced(sf, df)
  {
    ConcatLenBound(sv, sb, so);
    ConcatLenBound(dv, db, dOff);
    if sb == |sv| {
      assert sv[..sb] == sv;
    } else {
      assert dv[..db] == dv;
    }
  }

  /** A cursor (block `b`, offset `off`) never stands past the end. */
  lemma ConcatLenBound(bs: seq<seq<int>>, b: nat, off: nat)
    requires b <= |bs|
    requires b < |bs| ==> off <= |bs[b]|
    requires b == |bs| ==> off == 0
    ensures |Concat(bs[..b])| + off <= |Concat(bs)|
  {
    if b < |bs| {
      ConcatPrefixStep(bs, b);
    } else {
      assert bs[..b] == bs;
    }
  }

  /** `toDoubleArray`: the matrix a grid stores, as one block per row (block
      width = number of columns). Kotlin's `cols % blockSize` throws for an
      empty row, hence `cols > 0`. */
  method ToDoubleArray(g: Grid, L: Layout) returns (dense: Grid)
    requires Fits(g, L) && L.cols > 0
    ensures fresh(dense) && forall r :: 0 <= r < dense.Length ==> fresh(dense[r])
    ensures Distinct(dense) && Fits(dense, Layout(L.rows, L.cols, L.cols))
    ensures dense.Length == L.rows && forall r :: 0 <= r < L.rows ==> dense[r].Length == L.cols
    ensures Values(g) == old(Values(g))
    ensures Values(dense) == old(Mat(g, L))
  {
    var DL := Layout(L.rows, L.cols, L.cols);
    var result, _ := EmptyBlocks(L.rows, L.cols, L.cols);
    ghost var before := Values(result);
    FitsShaped(g, L);
    FitsShaped(result, DL);
    ConcatLen(Values(g), L);
    ConcatLen(before, DL);
    CopyBlocks(g, result);
    dense := result;
    FitsShaped(dense, DL);
    SameContentSameView(Values(dense), DL, Values(g), L);
    DenseView(Values(dense), DL);
  }

  /** `copyBlocks` into a grid of the same number of rows and columns, of any
      block width, makes it store the source's matrix. */
  lemma CopyPreservesMatrix(X: seq<seq<int>>, LX: Layout, Y0: seq<seq<int>>, Y: seq<seq<int>>, LY: Layout)
    requires Shaped(X, LX) && Shaped(Y0, LY) && Shaped(Y, LY)
    requires LX.rows == LY.rows && LX.cols == LY.cols
    requires Concat(Y) == Spliced(Concat(X), Concat(Y0))
    ensures ToMatrix(Y, LY) == ToMatrix(X, LX)
  {
    ConcatLen(X, LX);
    ConcatLen(Y0, LY);
    assert Concat(Y) == Concat(X);
    SameContentSameView(Y, LY, X, LX);
  }

  /** A zero-filled grid stores the zero matrix. */
  lemma ZeroMatrix(g: Grid, L: Layout)
    requires Fits(g, L) && AllZero(g)
    ensures forall r, col :: 0 <= r < L.rows && 0 <= col < L.cols ==> Mat(g, L)[r][col] == 0
  {
    forall r, col | 0 <= r < L.rows && 0 <= col < L.cols
      ensures Mat(g, L)[r][col] == 0
    {
      CellAddress(L, r, col);
    }
  }

  /** Copying a grid into a grid of another block width holding the same
      number of rows and columns, and then back into a grid of the original
      width, reproduces the original blocks exactly: `copyBlocks` between
      equal-sized grids loses nothing and invents nothing. */
  lemma RegridRoundTrip(X: seq<seq<int>>, LX: Layout, Y0: seq<seq<int>>, Y: seq<seq<int>>, LY: Layout,
                        Z0: seq<seq<int>>, Z: seq<seq<int>>)
    requires Shaped(X, LX) && Shaped(Y0, LY) && Shaped(Y, LY) && Shaped(Z0, LX) && Shaped(Z, LX)
    requires LX.rows == LY.rows && LX.cols == LY.cols
    requires Concat(Y) == Spliced(Concat(X), Concat(Y0))
    requires Concat(Z) == Spliced(Concat(Y), Concat(Z0))
    ensures Z == X
    ensures ToMatrix(Y, LY) == ToMatrix(X, LX)
  {
    ConcatLen(X, LX);
    ConcatLen(Y0, LY);
    ConcatLen(Y, LY);
    ConcatLen(Z0, LX);
    assert Concat(Y) == Concat(X);
    ConcatInjective(Z, X);
    SameContentSameView(Y, LY, X, LX);
  }
}
