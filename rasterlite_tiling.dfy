/**
 * The integer arithmetic of a Rasterlite copy: clamping the block size, the
 * number of blocks along an axis, the size requested for each (possibly
 * partial) edge block, and the row-major order in which blocks are visited.
 * Integers are unbounded here; the 32-bit products of the source are assumed
 * not to overflow.
 */
module RasterliteTiling {

  const MinBlockSize := 64
  const MaxBlockSize := 4096

  /** The clamp applied to BLOCKXSIZE and BLOCKYSIZE of a tiled copy. */
  function ClampBlockSize(n: int): (r: int)
    ensures MinBlockSize <= r <= MaxBlockSize
    ensures MinBlockSize <= n <= MaxBlockSize ==> r == n
    ensures n < MinBlockSize ==> r == MinBlockSize
    ensures n > MaxBlockSize ==> r == MaxBlockSize
  {
    if n < MinBlockSize then MinBlockSize else if n > MaxBlockSize then MaxBlockSize else n
  }

  /** Clamping is idempotent and keeps the order of its arguments. */
  lemma ClampBlockSizeProperties(m: int, n: int)
    ensures ClampBlockSize(ClampBlockSize(n)) == ClampBlockSize(n)
    ensures m <= n ==> ClampBlockSize(m) <= ClampBlockSize(n)
  {
  }

  /** nXBlocks / nYBlocks: (size + blockSize - 1) / blockSize, the rounded-up quotient. */
  function BlockCount(size: nat, blockSize: nat): (count: nat)
    requires blockSize >= 1
  {
    (size + blockSize - 1) / blockSize
  }

  /** The block count is the least number of blocks that covers the size. */
  lemma BlockCountIsCeiling(size: nat, blockSize: nat)
    requires blockSize >= 1
    ensures var count := BlockCount(size, blockSize);
      count * blockSize >= size && (count == 0 || (count - 1) * blockSize < size)
  {
    var count := BlockCount(size, blockSize);
    var n := size + blockSize - 1;
    assert n == count * blockSize + n % blockSize;
    assert 0 <= n % blockSize < blockSize;
    if count > 0 {
      assert (count - 1) * blockSize == count * blockSize - blockSize;
    }
  }

  /** There is no block exactly when the size is zero. */
  lemma BlockCountZero(size: nat, blockSize: nat)
    requires blockSize >= 1
    ensures BlockCount(size, blockSize) == 0 <==> size == 0
  {
    BlockCountIsCeiling(size, blockSize);
  }

  /** nReqXSize / nReqYSize: a whole block, or what is left of the raster at its edge. */
  function RequestSize(offset: nat, blockSize: nat, size: nat): int {
    if (offset + 1) * blockSize > size then size - offset * blockSize else blockSize
  }

  /** Every block of the raster requests between one pixel and a whole block, inside the raster. */
  lemma RequestSizeBounds(offset: nat, blockSize: nat, size: nat)
    requires blockSize >= 1 && offset < BlockCount(size, blockSize)
    ensures var w := RequestSize(offset, blockSize, size);
      && 1 <= w <= blockSize
      && offset * blockSize + w <= size
      && (w == blockSize || offset * blockSize + w == size)
  {
    BlockCountIsCeiling(size, blockSize);
    var count := BlockCount(size, blockSize);
    assert offset * blockSize <= (count - 1) * blockSize by {
      assert offset <= count - 1;
    }
    assert (offset + 1) * blockSize == offset * blockSize + blockSize;
  }

  /** Only the last block along an axis can be partial. */
  lemma OnlyLastBlockPartial(offset: nat, blockSize: nat, size: nat)
    requires blockSize >= 1 && offset + 1 < BlockCount(size, blockSize)
    ensures RequestSize(offset, blockSize, size) == blockSize
  {
    BlockCountIsCeiling(size, blockSize);
    var count := BlockCount(size, blockSize);
    assert (offset + 1) * blockSize <= (count - 1) * blockSize by {
      assert offset + 1 <= count - 1;
    }
  }

  /** The pixels requested by the first n blocks of an axis. */
  function RequestedPixels(n: nat, blockSize: nat, size: nat): int {
    if n == 0 then 0 else RequestedPixels(n - 1, blockSize, size) + RequestSize(n - 1, blockSize, size)
  }

  /** Before the last block, the blocks requested so far end exactly at the next block's offset. */
  lemma {:induction false} RequestedPixelsPrefix(n: nat, blockSize: nat, size: nat)
    requires blockSize >= 1 && n < BlockCount(size, blockSize)
    ensures RequestedPixels(n, blockSize, size) == n * blockSize
  {
    if n > 0 {
      RequestedPixelsPrefix(n - 1, blockSize, size);
      OnlyLastBlockPartial(n - 1, blockSize, size);
      assert (n - 1) * blockSize + blockSize == n * blockSize;
    }
  }

  /** The request sizes along an axis add up to the raster size: the blocks partition it. */
  lemma RequestedPixelsTotal(blockSize: nat, size: nat)
    requires blockSize >= 1
    ensures RequestedPixels(BlockCount(size, blockSize), blockSize, size) == size
  {
    var count := BlockCount(size, blockSize);
    BlockCountZero(size, blockSize);
    if count > 0 {
      RequestedPixelsPrefix(count - 1, blockSize, size);
      RequestSizeBounds(count - 1, blockSize, size);
      OnlyLastBlockPartialOrEnd(count - 1, blockSize, size);
    }
  }

  /** The last block along an axis ends at the raster's edge. */
  lemma OnlyLastBlockPartialOrEnd(offset: nat, blockSize: nat, size: nat)
    requires blockSize >= 1 && offset + 1 == BlockCount(size, blockSize)
    ensures offset * blockSize + RequestSize(offset, blockSize, size) == size
  {
    BlockCountIsCeiling(size, blockSize);
    assert (offset + 1) * blockSize == offset * blockSize + blockSize;
  }

  /** Each pixel lies in exactly one block: the one at its offset divided by the block size. */
  lemma PixelInOneBlock(x: nat, offset: nat, blockSize: nat, size: nat)
    requires blockSize >= 1 && x < size && offset < BlockCount(size, blockSize)
    ensures offset * blockSize <= x < offset * blockSize + RequestSize(offset, blockSize, size) <==> offset == x / blockSize
  {
    RequestSizeBounds(offset, blockSize, size);
    var q := x / blockSize;
    assert x == q * blockSize + x % blockSize && 0 <= x % blockSize < blockSize;
    if offset < q {
      assert (offset + 1) * blockSize <= q * blockSize;
      assert offset * blockSize + blockSize <= x;
    } else if offset > q {
      assert (q + 1) * blockSize <= offset * blockSize;
      assert x < offset * blockSize;
    } else {
      assert q * blockSize <= x;
      if RequestSize(offset, blockSize, size) != blockSize {
        assert offset * blockSize + RequestSize(offset, blockSize, size) == size;
      }
    }
  }

  /** One row of blocks, left to right: the inner loop over nBlockXOff. */
  function Row(nXBlocks: nat, yOff: nat): (r: seq<(nat, nat)>)
    ensures |r| == nXBlocks && forall x :: 0 <= x < nXBlocks ==> r[x] == (x, yOff)
  {
    seq(nXBlocks, x requires 0 <= x => (x, yOff))
  }

  /** The first nYBlocks rows of blocks, top to bottom: the outer loop over nBlockYOff. */
  function RowMajor(nXBlocks: nat, nYBlocks: nat): (r: seq<(nat, nat)>)
    ensures |r| == nXBlocks * nYBlocks
  {
    if nYBlocks == 0 then [] else RowMajor(nXBlocks, nYBlocks - 1) + Row(nXBlocks, nYBlocks - 1)
  }

  /** Quotient and remainder of an index inside row y. */
  lemma DivModInRow(k: nat, n: nat, y: nat)
    requires n >= 1 && y * n <= k < y * n + n
    ensures k / n == y && k % n == k - y * n
  {
    var q, r := k / n, k % n;
    assert k == q * n + r && 0 <= r < n;
    if q < y {
      MulStep(q, y, n);
      assert false;
    } else if q > y {
      MulStep(y, q, n);
      assert false;
    }
  }

  /** A smaller factor is smaller by at least one multiple. */
  lemma MulStep(a: nat, b: nat, n: nat)
    requires a < b
    ensures a * n + n <= b * n
  {
    assert (b - a) * n >= n by {
      assert b - a >= 1;
    }
    assert b * n == a * n + (b - a) * n;
  }

  /** The k-th block visited is column k mod nXBlocks of row k div nXBlocks. */
  lemma {:induction false} RowMajorIndex(nXBlocks: nat, nYBlocks: nat, k: nat)
    requires k < nXBlocks * nYBlocks
    ensures RowMajor(nXBlocks, nYBlocks)[k] == (k % nXBlocks, k / nXBlocks)
  {
    var y := nYBlocks - 1;
    assert nXBlocks * nYBlocks == nXBlocks * y + nXBlocks;
    var prefix := RowMajor(nXBlocks, y);
    if k < |prefix| {
      RowMajorIndex(nXBlocks, y, k);
    } else {
      assert y * nXBlocks <= k < y * nXBlocks + nXBlocks;
      DivModInRow(k, nXBlocks, y);
    }
  }

  /** The k-th block visited lies in the grid. */
  lemma RowMajorInGrid(nXBlocks: nat, nYBlocks: nat, k: nat)
    requires k < nXBlocks * nYBlocks
    ensures k % nXBlocks < nXBlocks && k / nXBlocks < nYBlocks
    ensures RowMajor(nXBlocks, nYBlocks)[k] == (k % nXBlocks, k / nXBlocks)
  {
    RowMajorIndex(nXBlocks, nYBlocks, k);
  }

  /** Every block of the grid is visited, exactly once. */
  lemma RowMajorVisitsEachBlockOnce(nXBlocks: nat, nYBlocks: nat, x: nat, y: nat)
    requires x < nXBlocks && y < nYBlocks
    ensures var order := RowMajor(nXBlocks, nYBlocks);
      var k := y * nXBlocks + x;
      k < |order| && order[k] == (x, y) && forall j :: 0 <= j < |order| && order[j] == (x, y) ==> j == k
  {
    var order := RowMajor(nXBlocks, nYBlocks);
    var k := y * nXBlocks + x;
    assert k < nXBlocks * nYBlocks by {
      assert (y + 1) * nXBlocks <= nYBlocks * nXBlocks;
    }
    DivModInRow(k, nXBlocks, y);
    RowMajorIndex(nXBlocks, nYBlocks, k);
    forall j | 0 <= j < |order| && order[j] == (x, y) ensures j == k {
      RowMajorIndex(nXBlocks, nYBlocks, j);
      assert j == nXBlocks * (j / nXBlocks) + j % nXBlocks;
    }
  }
}
