/**
 * The block loop of a Rasterlite copy: blocks are visited row by row, each one
 * read, encoded by the tile driver and inserted into the raster table and then
 * the metadata table under the next tile id, until the first failure.
 *
 * What happens to each block (the raster read, the tile driver, the two
 * inserts, the progress callback) is given by a step oracle; the tile bytes and
 * the geometry written with each tile are not modelled.
 */
module RasterliteBlocks {
  import opened RasterliteTiling

  /** How the processing of one block ends. */
  datatype TileStep =
    | Stored                // both rows inserted, progress continues
    | ReadWarning           // RasterIO returned CE_Warning
    | ReadFailed            // RasterIO failed
    | EncodeFailed          // the tile driver produced no data set
    | RasterInsertFailed    // the raster table insert failed
    | MetadataInsertFailed  // the metadata insert failed, after the tile id was taken
    | Cancelled             // the progress callback asked to stop

  /** Whether the block's metadata row was built (tile id taken, block counted). */
  predicate RecordsTile(s: TileStep) {
    s == Stored || s == MetadataInsertFailed || s == Cancelled
  }

  /** The CPLErr value of eErr, the loop's error state. */
  datatype ErrorLevel = NoError | Warning | Failure

  /** eErr after a block's processing ends with s. */
  function StepError(s: TileStep): (e: ErrorLevel)
    ensures e == NoError <==> s == Stored
    ensures e == Warning <==> s == ReadWarning
  {
    match s
    case Stored => NoError
    case ReadWarning => Warning
    case _ => Failure
  }

  /** The raster size and the block size along both axes. */
  datatype Grid = Grid(xSize: nat, ySize: nat, blockXSize: nat, blockYSize: nat)

  predicate ValidGrid(g: Grid) {
    g.blockXSize >= 1 && g.blockYSize >= 1
  }

  function XBlocks(g: Grid): nat requires ValidGrid(g) { BlockCount(g.xSize, g.blockXSize) }

  function YBlocks(g: Grid): nat requires ValidGrid(g) { BlockCount(g.ySize, g.blockYSize) }

  /** The metadata of one tile: its id, its block position and the size read for it. */
  datatype Tile = Tile(id: nat, xBlock: nat, yBlock: nat, width: int, height: int)

  function TileAt(g: Grid, id: nat, block: (nat, nat)): Tile {
    Tile(id, block.0, block.1, RequestSize(block.0, g.blockXSize, g.xSize), RequestSize(block.1, g.blockYSize, g.ySize))
  }

  /** The tiles recorded so far, and eErr; any error but CE_None stops the loop. */
  datatype Progress = Progress(tiles: seq<Tile>, eErr: ErrorLevel) {
    const failed: bool := eErr != NoError
  }

  /** The loop run over a sequence of blocks, defined from its last block. */
  function Run(blocks: seq<(nat, nat)>, g: Grid, step: ((nat, nat)) -> TileStep): Progress
    decreases |blocks|
  {
    if blocks == [] then Progress([], NoError)
    else
      var p := Run(blocks[..|blocks| - 1], g, step);
      if p.failed then p
      else Next(p, g, step, blocks[|blocks| - 1])
  }

  /** One more block after p. */
  function Next(p: Progress, g: Grid, step: ((nat, nat)) -> TileStep, block: (nat, nat)): Progress {
    var s := step(block);
    Progress(if RecordsTile(s) then p.tiles + [TileAt(g, |p.tiles|, block)] else p.tiles, StepError(s))
  }

  lemma RunSnoc(blocks: seq<(nat, nat)>, block: (nat, nat), g: Grid, step: ((nat, nat)) -> TileStep)
    ensures Run(blocks + [block], g, step) ==
            if Run(blocks, g, step).failed then Run(blocks, g, step) else Next(Run(blocks, g, step), g, step, block)
  {
    assert (blocks + [block])[..|blocks|] == blocks;
  }

  /** Once a block has failed, later blocks change nothing: the loop stops at the first error. */
  lemma {:induction false} RunSticky(blocks: seq<(nat, nat)>, more: seq<(nat, nat)>, g: Grid, step: ((nat, nat)) -> TileStep)
    requires Run(blocks, g, step).failed
    ensures Run(blocks + more, g, step) == Run(blocks, g, step)
    decreases |more|
  {
    if more != [] {
      var init := more[..|more| - 1];
      RunSticky(blocks, init, g, step);
      assert blocks + more == (blocks + init) + [more[|more| - 1]];
      RunSnoc(blocks + init, more[|more| - 1], g, step);
    } else {
      assert blocks + more == blocks;
    }
  }

  /**
   * Tile ids are 0, 1, 2, ... in visiting order, tile i is the i-th block with its
   * request size, and no more tiles than blocks are recorded.
   */
  lemma {:induction false} RunTiles(blocks: seq<(nat, nat)>, g: Grid, step: ((nat, nat)) -> TileStep)
    ensures var p := Run(blocks, g, step);
      && |p.tiles| <= |blocks|
      && forall i :: 0 <= i < |p.tiles| ==> p.tiles[i] == TileAt(g, i, blocks[i])
    decreases |blocks|
  {
    if blocks != [] {
      var init := blocks[..|blocks| - 1];
      RunTiles(init, g, step);
      RunCompletes(init, g, step);
      var p := Run(init, g, step);
      assert forall i :: 0 <= i < |p.tiles| ==> init[i] == blocks[i];
    }
  }

  /** The loop ends without error exactly when every block was stored; then every block has a tile. */
  lemma {:induction false} RunCompletes(blocks: seq<(nat, nat)>, g: Grid, step: ((nat, nat)) -> TileStep)
    ensures var p := Run(blocks, g, step);
      && (!p.failed <==> forall i :: 0 <= i < |blocks| ==> step(blocks[i]) == Stored)
      && (!p.failed ==> |p.tiles| == |blocks|)
    decreases |blocks|
  {
    if blocks != [] {
      var init := blocks[..|blocks| - 1];
      RunCompletes(init, g, step);
      assert forall i :: 0 <= i < |init| ==> init[i] == blocks[i];
      var p := Run(init, g, step);
      if p.failed {
        var i :| 0 <= i < |init| && step(init[i]) != Stored;
        assert step(blocks[i]) != Stored;
      }
    }
  }

  /**
   * A failed loop stopped at its first failing block: every earlier block was
   * stored, the failing block has a tile exactly when its tile id was taken, and
   * eErr is what that block's processing left.
   */
  lemma {:induction false} RunStopsAtFirstError(blocks: seq<(nat, nat)>, g: Grid, step: ((nat, nat)) -> TileStep)
    requires Run(blocks, g, step).failed
    ensures var p := Run(blocks, g, step);
      exists i :: 0 <= i < |blocks| && step(blocks[i]) != Stored &&
        (forall j :: 0 <= j < i ==> step(blocks[j]) == Stored) &&
        |p.tiles| == (if RecordsTile(step(blocks[i])) then i + 1 else i) &&
        p.eErr == StepError(step(blocks[i]))
    decreases |blocks|
  {
    var init := blocks[..|blocks| - 1];
    assert forall j :: 0 <= j < |init| ==> init[j] == blocks[j];
    var p := Run(init, g, step);
    if p.failed {
      RunStopsAtFirstError(init, g, step);
      var i :| 0 <= i < |init| && step(init[i]) != Stored &&
               (forall j :: 0 <= j < i ==> step(init[j]) == Stored) &&
               |p.tiles| == (if RecordsTile(step(init[i])) then i + 1 else i) &&
               p.eErr == StepError(step(init[i]));
      assert step(blocks[i]) != Stored;
    } else {
      RunCompletes(init, g, step);
      var i := |blocks| - 1;
      assert forall j :: 0 <= j < i ==> step(blocks[j]) == Stored;
    }
  }

  /** Every recorded tile lies inside the raster and inside its block. */
  lemma TilesInsideRaster(g: Grid, step: ((nat, nat)) -> TileStep)
    requires ValidGrid(g)
    ensures var p := Run(RowMajor(XBlocks(g), YBlocks(g)), g, step);
      forall i :: 0 <= i < |p.tiles| ==>
        && 1 <= p.tiles[i].width <= g.blockXSize && p.tiles[i].xBlock * g.blockXSize + p.tiles[i].width <= g.xSize
        && 1 <= p.tiles[i].height <= g.blockYSize && p.tiles[i].yBlock * g.blockYSize + p.tiles[i].height <= g.ySize
  {
    var blocks := RowMajor(XBlocks(g), YBlocks(g));
    var p := Run(blocks, g, step);
    RunTiles(blocks, g, step);
    forall i | 0 <= i < |p.tiles|
      ensures 1 <= p.tiles[i].width <= g.blockXSize && p.tiles[i].xBlock * g.blockXSize + p.tiles[i].width <= g.xSize
      ensures 1 <= p.tiles[i].height <= g.blockYSize && p.tiles[i].yBlock * g.blockYSize + p.tiles[i].height <= g.ySize
    {
      RowMajorInGrid(XBlocks(g), YBlocks(g), i);
      var x, y := i % XBlocks(g), i / XBlocks(g);
      RequestSizeBounds(x, g.blockXSize, g.xSize);
      RequestSizeBounds(y, g.blockYSize, g.ySize);
    }
  }

  /**
   * Over a whole grid: the loop ends without error exactly when every block was
   * stored, then with one tile per block; tile i is the i-th block in row-major order.
   */
  lemma CompleteRun(g: Grid, step: ((nat, nat)) -> TileStep)
    requires ValidGrid(g)
    ensures var p := Run(RowMajor(XBlocks(g), YBlocks(g)), g, step);
      && (!p.failed <==> forall x: nat, y: nat :: x < XBlocks(g) && y < YBlocks(g) ==> step((x, y)) == Stored)
      && |p.tiles| <= XBlocks(g) * YBlocks(g)
      && (!p.failed ==> |p.tiles| == XBlocks(g) * YBlocks(g))
      && forall i :: 0 <= i < |p.tiles| ==>
           p.tiles[i].id == i && p.tiles[i].xBlock == i % XBlocks(g) && p.tiles[i].yBlock == i / XBlocks(g)
  {
    var nX, nY := XBlocks(g), YBlocks(g);
    var order := RowMajor(nX, nY);
    var p := Run(order, g, step);
    RunCompletes(order, g, step);
    CompleteRunTiles(g, step);
    if !p.failed {
      forall x: nat, y: nat | x < nX && y < nY ensures step((x, y)) == Stored {
        RowMajorVisitsEachBlockOnce(nX, nY, x, y);
      }
    }
    if forall x: nat, y: nat :: x < nX && y < nY ==> step((x, y)) == Stored {
      forall k | 0 <= k < |order| ensures step(order[k]) == Stored {
        RowMajorInGrid(nX, nY, k);
      }
    }
  }

  /** Over the whole grid, tile i is block (i mod nXBlocks, i div nXBlocks). */
  lemma CompleteRunTiles(g: Grid, step: ((nat, nat)) -> TileStep)
    requires ValidGrid(g)
    ensures var p := Run(RowMajor(XBlocks(g), YBlocks(g)), g, step);
      && |p.tiles| <= XBlocks(g) * YBlocks(g)
      && forall i :: 0 <= i < |p.tiles| ==>
           p.tiles[i].id == i && p.tiles[i].xBlock == i % XBlocks(g) && p.tiles[i].yBlock == i / XBlocks(g)
  {
    var nX, nY := XBlocks(g), YBlocks(g);
    var order := RowMajor(nX, nY);
    var p := Run(order, g, step);
    RunTiles(order, g, step);
    forall i | 0 <= i < |p.tiles|
      ensures p.tiles[i].id == i && p.tiles[i].xBlock == i % nX && p.tiles[i].yBlock == i / nX
    {
      RowMajorInGrid(nX, nY, i);
    }
  }

  /**
   * One block: the request size at the raster's edge, then the step; nTileId is
   * taken and nBlocks counted once the raster row is in.
   */
  method WriteBlock(g: Grid, step: ((nat, nat)) -> TileStep, xOff: nat, yOff: nat,
                    tiles: seq<Tile>, nTileId: nat, nBlocks: nat)
    returns (tiles': seq<Tile>, nTileId': nat, nBlocks': nat, eErr: ErrorLevel)
    requires nTileId == |tiles|
    ensures Progress(tiles', eErr) == Next(Progress(tiles, NoError), g, step, (xOff, yOff))
    ensures nTileId' == |tiles'| && nBlocks' - nBlocks == nTileId' - nTileId
  {
    var reqXSize, reqYSize := g.blockXSize, g.blockYSize;
    if (xOff + 1) * g.blockXSize > g.xSize {
      reqXSize := g.xSize - xOff * g.blockXSize;
    }
    if (yOff + 1) * g.blockYSize > g.ySize {
      reqYSize := g.ySize - yOff * g.blockYSize;
    }
    tiles', nTileId', nBlocks' := tiles, nTileId, nBlocks;
    var s := step((xOff, yOff));
    if s == ReadWarning {
      return tiles', nTileId', nBlocks', Warning;
    }
    if s == ReadFailed || s == EncodeFailed || s == RasterInsertFailed {
      return tiles', nTileId', nBlocks', Failure;
    }
    tiles' := tiles' + [Tile(nTileId', xOff, yOff, reqXSize, reqYSize)];
    nTileId' := nTileId' + 1;
    eErr := if s == MetadataInsertFailed then Failure else NoError;
    nBlocks' := nBlocks' + 1;
    if s == Cancelled {
      eErr := Failure;
    }
  }

  /** The inner loop over nBlockXOff, for one row of blocks. */
  method WriteRow(g: Grid, step: ((nat, nat)) -> TileStep, nXBlocks: nat, yOff: nat,
                  ghost done: seq<(nat, nat)>, tiles: seq<Tile>, nTileId: nat, nBlocks: nat)
    returns (tiles': seq<Tile>, nTileId': nat, nBlocks': nat, eErr: ErrorLevel)
    requires Run(done, g, step) == Progress(tiles, NoError)
    requires nTileId == nBlocks == |tiles|
    ensures Progress(tiles', eErr) == Run(done + Row(nXBlocks, yOff), g, step)
    ensures nTileId' == nBlocks' == |tiles'|
  {
    tiles', nTileId', nBlocks', eErr := tiles, nTileId, nBlocks, NoError;
    var xOff := 0;
    assert done + Row(0, yOff) == done;
    while eErr == NoError && xOff < nXBlocks
      invariant 0 <= xOff <= nXBlocks
      invariant Progress(tiles', eErr) == Run(done + Row(xOff, yOff), g, step)
      invariant nTileId' == nBlocks' == |tiles'|
    {
      RowStep(done, xOff, yOff, g, step);
      tiles', nTileId', nBlocks', eErr := WriteBlock(g, step, xOff, yOff, tiles', nTileId', nBlocks');
      xOff := xOff + 1;
    }
    if eErr != NoError {
      RowRest(done, xOff, nXBlocks, yOff, g, step);
    }
  }

  /** One more block of the row: one more step of the run, unless it has already failed. */
  lemma RowStep(done: seq<(nat, nat)>, xOff: nat, yOff: nat, g: Grid, step: ((nat, nat)) -> TileStep)
    ensures var p := Run(done + Row(xOff, yOff), g, step);
      Run(done + Row(xOff + 1, yOff), g, step) == if p.failed then p else Next(p, g, step, (xOff, yOff))
  {
    assert Row(xOff + 1, yOff) == Row(xOff, yOff) + [(xOff, yOff)];
    assert done + Row(xOff + 1, yOff) == (done + Row(xOff, yOff)) + [(xOff, yOff)];
    RunSnoc(done + Row(xOff, yOff), (xOff, yOff), g, step);
  }

  /** After a failure part-way through a row, the rest of the row changes nothing. */
  lemma RowRest(done: seq<(nat, nat)>, xOff: nat, n: nat, yOff: nat, g: Grid, step: ((nat, nat)) -> TileStep)
    requires xOff <= n && Run(done + Row(xOff, yOff), g, step).failed
    ensures Run(done + Row(n, yOff), g, step) == Run(done + Row(xOff, yOff), g, step)
  {
    var rest := Row(n, yOff)[xOff..];
    RowSplit(done, xOff, n, yOff);
    RunSticky(done + Row(xOff, yOff), rest, g, step);
  }

  /** A row is its first xOff blocks followed by the rest. */
  lemma RowSplit(done: seq<(nat, nat)>, xOff: nat, n: nat, yOff: nat)
    requires xOff <= n
    ensures done + Row(n, yOff) == (done + Row(xOff, yOff)) + Row(n, yOff)[xOff..]
  {
    var row := Row(n, yOff);
    assert Row(xOff, yOff) == row[..xOff];
    assert row[..xOff] + row[xOff..] == row;
  }

  /**
   * The block loop of RasterliteCreateCopy: nTileId and nBlocks both count the
   * recorded tiles, and the loop leaves at the first error.
   */
  method WriteTiles(g: Grid, step: ((nat, nat)) -> TileStep)
    returns (tiles: seq<Tile>, nTileId: nat, nBlocks: nat, eErr: ErrorLevel)
    requires ValidGrid(g)
    ensures Progress(tiles, eErr) == Run(RowMajor(XBlocks(g), YBlocks(g)), g, step)
    ensures nTileId == nBlocks == |tiles| <= XBlocks(g) * YBlocks(g)
  {
    var nXBlocks, nYBlocks := XBlocks(g), YBlocks(g);
    tiles, nTileId, nBlocks, eErr := [], 0, 0, NoError;
    var yOff := 0;
    while eErr == NoError && yOff < nYBlocks
      invariant 0 <= yOff <= nYBlocks
      invariant Progress(tiles, eErr) == Run(RowMajor(nXBlocks, yOff), g, step)
      invariant nTileId == nBlocks == |tiles|
    {
      tiles, nTileId, nBlocks, eErr := WriteRow(g, step, nXBlocks, yOff, RowMajor(nXBlocks, yOff), tiles, nTileId, nBlocks);
      yOff := yOff + 1;
    }
    RunToEnd(nXBlocks, yOff, nYBlocks, g, step);
    RunTilesBound(RowMajor(nXBlocks, nYBlocks), g, step);
  }

  /** No more tiles than blocks. */
  lemma RunTilesBound(blocks: seq<(nat, nat)>, g: Grid, step: ((nat, nat)) -> TileStep)
    ensures |Run(blocks, g, step).tiles| <= |blocks|
  {
    RunTiles(blocks, g, step);
  }

  /** The outer loop stops after its last row or at an error; either way the whole run is done. */
  lemma RunToEnd(nXBlocks: nat, yOff: nat, nYBlocks: nat, g: Grid, step: ((nat, nat)) -> TileStep)
    requires yOff <= nYBlocks && (yOff == nYBlocks || Run(RowMajor(nXBlocks, yOff), g, step).failed)
    ensures Run(RowMajor(nXBlocks, nYBlocks), g, step) == Run(RowMajor(nXBlocks, yOff), g, step)
  {
    if yOff < nYBlocks {
      RowMajorPrefix(nXBlocks, yOff, nYBlocks);
      var all := RowMajor(nXBlocks, nYBlocks);
      var done := RowMajor(nXBlocks, yOff);
      RunSticky(done, all[|done|..], g, step);
      assert done + all[|done|..] == all;
    }
  }

  /** Fewer rows of blocks form a prefix of the visiting order. */
  lemma {:induction false} RowMajorPrefix(nXBlocks: nat, m: nat, n: nat)
    requires m <= n
    ensures RowMajor(nXBlocks, m) <= RowMajor(nXBlocks, n)
    decreases n - m
  {
    if m < n {
      RowMajorPrefix(nXBlocks, m, n - 1);
    }
  }
}
