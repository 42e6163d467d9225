/**
 * RasterliteCreateCopy, without its SQL: the up-front rejections, the block
 * size, the analysis of a "RASTERLITE:db,table=name" file name, and the block
 * loop ending in COMMIT or ROLLBACK.
 *
 * The environment is given as oracles: the driver registry, whether the source
 * geotransform has rotation terms, whether the database file exists, the
 * basename of a path, whether the database could be created or opened, whether
 * its tables and layers are in place, whether the block buffer could be
 * allocated, and how each block's processing ends.
 */
module RasterliteCreateCopy {
  import opened Cpl
  import opened RasterliteOptions
  import opened RasterliteTiling
  import opened RasterliteBlocks

  const RasterlitePrefix := "RASTERLITE:"
  const TablePrefix := "table="
  const RasterSuffix := "_rasters"
  const MetadataSuffix := "_metadata"
  const DefaultBlockSize := "256"

  /** Why a copy was refused before its block loop. */
  datatype CreateError =
    | NoBands
    | UnusableTileDriver(driverName: string)
    | TileDriverMissing(driverName: string)
    | MemDriverMissing
    | RotatedGeoTransform
    | TableNameRequired
    | SQLiteDriverMissing
    | DatabaseUnavailable
    | TablesUnavailable
    | BufferUnavailable

  /** What the source data set contributes: its band count and raster size. */
  datatype Source = Source(nBands: nat, xSize: nat, ySize: nat)

  datatype Env = Env(
    driverRegistered: string -> bool,     // GDALGetDriverByName(name) != nullptr
    rotated: bool,                        // the geotransform has rotational terms
    fileExists: string -> bool,           // VSIStat(dbName) == 0
    basename: string -> string,           // CPLGetBasenameSafe
    openDatabase: (string, bool) -> bool, // create (true) or open (false) the SQLite database
    tablesReady: bool,                    // RasterliteCreateTables and both layers found
    bufferAllocated: bool,                // the block buffer
    step: ((nat, nat)) -> TileStep)       // how each block's processing ends

  // ---------------------------------------------------------------------------
  // File name analysis
  // ---------------------------------------------------------------------------

  /** The database, the table and the two layer names a copy writes to. */
  datatype Target = Target(dbName: string, tableName: string, rasterLayer: string,
                           metadataLayer: string, existed: bool)

  /** The file name without its optional, case-insensitive RASTERLITE: prefix. */
  function WithoutPrefix(filename: string): (r: string)
    ensures r <= filename || (StartsWithCI(filename, RasterlitePrefix) && filename == filename[..|RasterlitePrefix|] + r)
  {
    if StartsWithCI(filename, RasterlitePrefix) then filename[|RasterlitePrefix|..] else filename
  }

  /** Any spelling of the prefix is stripped, and nothing else is. */
  lemma WithoutPrefixStrips(p: string, rest: string)
    requires |p| == |RasterlitePrefix| && EqualCI(p, RasterlitePrefix)
    ensures WithoutPrefix(p + rest) == rest
  {
    assert (p + rest)[..|RasterlitePrefix|] == p;
  }

  lemma WithoutPrefixKeeps(filename: string)
    requires !StartsWithCI(filename, RasterlitePrefix)
    ensures WithoutPrefix(filename) == filename
  {
  }

  /** The value of the last case-insensitive table= token, or "" when there is none. */
  function TableName(tokens: seq<string>): string
    decreases |tokens|
  {
    if tokens == [] then ""
    else if StartsWithCI(tokens[|tokens| - 1], TablePrefix) then tokens[|tokens| - 1][|TablePrefix|..]
    else TableName(tokens[..|tokens| - 1])
  }

  /** The last table= token wins; other tokens are ignored. */
  lemma {:induction false} LastTableWins(tokens: seq<string>, i: nat)
    requires i < |tokens| && StartsWithCI(tokens[i], TablePrefix)
    requires forall j :: i < j < |tokens| ==> !StartsWithCI(tokens[j], TablePrefix)
    ensures TableName(tokens) == tokens[i][|TablePrefix|..]
    decreases |tokens|
  {
    if i < |tokens| - 1 {
      var init := tokens[..|tokens| - 1];
      assert init[i] == tokens[i];
      assert forall j :: i < j < |init| ==> init[j] == tokens[j];
      LastTableWins(init, i);
    }
  }

  /** Without a table= token the table name is empty. */
  lemma {:induction false} NoTableToken(tokens: seq<string>)
    requires forall j :: 0 <= j < |tokens| ==> !StartsWithCI(tokens[j], TablePrefix)
    ensures TableName(tokens) == ""
    decreases |tokens|
  {
    if tokens != [] {
      var init := tokens[..|tokens| - 1];
      assert forall j :: 0 <= j < |init| ==> init[j] == tokens[j];
      NoTableToken(init);
    }
  }

  /** The loop over the tokens after the database name. */
  method ScanTableOptions(tokens: seq<string>) returns (tableName: string)
    requires |tokens| >= 1
    ensures tableName == TableName(tokens[1..])
  {
    tableName := "";
    var i := 1;
    while i < |tokens|
      invariant 1 <= i <= |tokens|
      invariant tableName == TableName(tokens[1..i])
    {
      assert tokens[1..i + 1][..i - 1] == tokens[1..i];
      if StartsWithCI(tokens[i], TablePrefix) {
        tableName := tokens[i][|TablePrefix|..];
      }
      i := i + 1;
    }
    assert tokens[1..i] == tokens[1..];
  }

  /** The target of a copy: database name, table name (explicit or the basename), layers. */
  function AnalyseFilename(filename: string, fileExists: string -> bool, basename: string -> string)
    : Result<Target, CreateError>
  {
    var name := WithoutPrefix(filename);
    var tokens := Tokenize(name, ',');
    var dbName := if tokens == [] then name else tokens[0];
    var explicit := if tokens == [] then basename(name) else TableName(tokens[1..]);
    var dbExists := fileExists(dbName);
    if explicit == [] && dbExists then Err(TableNameRequired)
    else
      var tableName := if explicit == [] then basename(dbName) else explicit;
      Ok(Target(dbName, tableName, tableName + RasterSuffix, tableName + MetadataSuffix, dbExists))
  }

  /** AnalyseFilename as the source computes it, with the token loop. */
  method AnalyseName(filename: string, fileExists: string -> bool, basename: string -> string)
    returns (r: Result<Target, CreateError>)
    ensures r == AnalyseFilename(filename, fileExists, basename)
  {
    var name := filename;
    if StartsWithCI(filename, RasterlitePrefix) {
      name := filename[|RasterlitePrefix|..];
    }
    var tokens := Tokenize(name, ',');
    var dbName, tableName;
    if |tokens| == 0 {
      dbName := name;
      tableName := basename(name);
    } else {
      dbName := tokens[0];
      tableName := ScanTableOptions(tokens);
    }
    var dbExists := fileExists(dbName);
    if tableName == [] {
      if dbExists {
        return Err(TableNameRequired);
      }
      tableName := basename(dbName);
    }
    r := Ok(Target(dbName, tableName, tableName + RasterSuffix, tableName + MetadataSuffix, dbExists));
  }

  /** An explicit table: the first token is the database, the table= token names the table. */
  lemma ExplicitTable(p: string, db: string, tableName: string,
                      fileExists: string -> bool, basename: string -> string)
    requires |p| == |RasterlitePrefix| && EqualCI(p, RasterlitePrefix)
    requires db != [] && ',' !in db && tableName != [] && ',' !in tableName
    ensures AnalyseFilename(p + db + [','] + TablePrefix + tableName, fileExists, basename) ==
            Ok(Target(db, tableName, tableName + RasterSuffix, tableName + MetadataSuffix, fileExists(db)))
  {
    var rest := db + [','] + (TablePrefix + tableName);
    assert p + db + [','] + TablePrefix + tableName == p + rest;
    WithoutPrefixStrips(p, rest);
    ExplicitTableTokens(db, tableName);
  }

  /** The tokens of db,table=name, and the table name they give. */
  lemma ExplicitTableTokens(db: string, tableName: string)
    requires db != [] && ',' !in db && tableName != [] && ',' !in tableName
    ensures var tokens := Tokenize(db + [','] + (TablePrefix + tableName), ',');
      tokens == [db, TablePrefix + tableName] && TableName(tokens[1..]) == tableName
  {
    var option := TablePrefix + tableName;
    TokenizeJoin(db, option, ',');
    TokenizeSingle(db, ',');
    TokenizeSingle(option, ',');
    var tokens := [db, option];
    assert tokens[1..] == [option];
    assert option[..|TablePrefix|] == TablePrefix;
    LastTableWins([option], 0);
    assert option[|TablePrefix|..] == tableName;
  }

  /** Without a table name, an existing database is refused and a new one takes its basename. */
  lemma ImplicitTable(filename: string, fileExists: string -> bool, basename: string -> string)
    requires var tokens := Tokenize(WithoutPrefix(filename), ',');
      tokens != [] && forall j :: 1 <= j < |tokens| ==> !StartsWithCI(tokens[j], TablePrefix)
    ensures var db := Tokenize(WithoutPrefix(filename), ',')[0];
      var r := AnalyseFilename(filename, fileExists, basename);
      && (fileExists(db) ==> r == Err(TableNameRequired))
      && (!fileExists(db) ==> r == Ok(Target(db, basename(db), basename(db) + RasterSuffix,
                                          basename(db) + MetadataSuffix, false)))
  {
    var tokens := Tokenize(WithoutPrefix(filename), ',');
    assert forall j :: 0 <= j < |tokens[1..]| ==> tokens[1..][j] == tokens[j + 1];
    NoTableToken(tokens[1..]);
  }

  /** A name of commas only is the database itself, its table the basename of the whole name. */
  lemma NoTokens(filename: string, fileExists: string -> bool, basename: string -> string)
    requires forall i :: 0 <= i < |WithoutPrefix(filename)| ==> WithoutPrefix(filename)[i] == ','
    ensures var name := WithoutPrefix(filename);
      var r := AnalyseFilename(filename, fileExists, basename);
      && (r.Ok? || r == Err(TableNameRequired))
      && (r.Ok? ==> r.value.dbName == name && r.value.tableName == basename(name))
      && (r.Err? <==> basename(name) == [] && fileExists(name))
  {
    TokenizeEmpty(WithoutPrefix(filename), ',');
  }

  /** The two layers of a target are distinct and both determine the table. */
  lemma TargetLayers(filename: string, fileExists: string -> bool, basename: string -> string)
    requires AnalyseFilename(filename, fileExists, basename).Ok?
    ensures var t := AnalyseFilename(filename, fileExists, basename).value;
      && t.rasterLayer != t.metadataLayer
      && t.rasterLayer[..|t.tableName|] == t.tableName && t.metadataLayer[..|t.tableName|] == t.tableName
  {
    var t := AnalyseFilename(filename, fileExists, basename).value;
    assert t.rasterLayer[|t.tableName| + 1] != t.metadataLayer[|t.tableName| + 1];
  }

  const ExampleDb := "/data/db.sqlite"
  const ExampleTable := "roads"

  /** RASTERLITE:/data/db.sqlite,table=roads writes the roads table of /data/db.sqlite. */
  lemma ExampleName(fileExists: string -> bool, basename: string -> string)
    ensures AnalyseFilename(RasterlitePrefix + ExampleDb + [','] + TablePrefix + ExampleTable, fileExists, basename) ==
            Ok(Target(ExampleDb, ExampleTable, ExampleTable + RasterSuffix, ExampleTable + MetadataSuffix,
                      fileExists(ExampleDb)))
  {
    assert EqualCI(RasterlitePrefix, RasterlitePrefix);
    assert ',' !in ExampleDb && ',' !in ExampleTable;
    ExplicitTable(RasterlitePrefix, ExampleDb, ExampleTable, fileExists, basename);
  }

  // ---------------------------------------------------------------------------
  // Block size
  // ---------------------------------------------------------------------------

  predicate Tiled(opts: Options) {
    TestBool(FetchNameValueDef(opts, "TILED", "YES"))
  }

  /** BLOCKXSIZE or BLOCKYSIZE of a tiled copy, read with atoi and clamped. */
  function TiledBlockSize(opts: Options, key: string): int {
    ClampBlockSize(Atoi(FetchNameValueDef(opts, key, DefaultBlockSize)))
  }

  /** The block size: clamped options when tiled, the whole raster otherwise. */
  function BlockSizes(opts: Options, xSize: nat, ySize: nat): (sizes: (nat, nat))
    ensures Tiled(opts) ==> MinBlockSize <= sizes.0 <= MaxBlockSize && MinBlockSize <= sizes.1 <= MaxBlockSize
    ensures !Tiled(opts) ==> sizes == (xSize, ySize)
  {
    if Tiled(opts) then (TiledBlockSize(opts, "BLOCKXSIZE"), TiledBlockSize(opts, "BLOCKYSIZE"))
    else (xSize, ySize)
  }

  /** The clamps of the source, updating the two block sizes in turn. */
  method ChooseBlockSizes(opts: Options, xSize: nat, ySize: nat) returns (blockXSize: nat, blockYSize: nat)
    ensures (blockXSize, blockYSize) == BlockSizes(opts, xSize, ySize)
  {
    if Tiled(opts) {
      var bw := Atoi(FetchNameValueDef(opts, "BLOCKXSIZE", DefaultBlockSize));
      var bh := Atoi(FetchNameValueDef(opts, "BLOCKYSIZE", DefaultBlockSize));
      if bw < MinBlockSize {
        bw := MinBlockSize;
      } else if bw > MaxBlockSize {
        bw := MaxBlockSize;
      }
      if bh < MinBlockSize {
        bh := MinBlockSize;
      } else if bh > MaxBlockSize {
        bh := MaxBlockSize;
      }
      blockXSize, blockYSize := bw, bh;
    } else {
      blockXSize, blockYSize := xSize, ySize;
    }
  }

  /** Without any of the three options the blocks are 256 by 256. */
  lemma DefaultBlockSizes(opts: Options, xSize: nat, ySize: nat)
    requires !HasKey(opts, "TILED") && !HasKey(opts, "BLOCKXSIZE") && !HasKey(opts, "BLOCKYSIZE")
    ensures BlockSizes(opts, xSize, ySize) == (256, 256)
  {
    assert !EqualCI("YES", "NO") && !EqualCI("YES", "FALSE") && !EqualCI("YES", "0");
    assert !EqualCI("YES", "OFF") by {
      assert ToUpper("YES"[1]) != ToUpper("OFF"[1]);
    }
    assert LeadingDigits(DefaultBlockSize) == DefaultBlockSize by {
      assert LeadingDigits(DefaultBlockSize[2..]) == DefaultBlockSize[2..];
      assert LeadingDigits(DefaultBlockSize[1..]) == DefaultBlockSize[1..];
    }
    assert DefaultBlockSize[..2][..1] == "2" && DefaultBlockSize[..2] == "25";
    assert DigitsValue("2") == 2;
    assert DigitsValue("25") == 25;
    assert DigitsValue(DefaultBlockSize) == 256;
    AtoiOfDigitStart(DefaultBlockSize);
  }

  /** TILED=NO makes the whole raster one block. */
  lemma UntiledIsOneBlock(opts: Options, xSize: nat, ySize: nat)
    requires xSize >= 1 && ySize >= 1 && !Tiled(opts)
    ensures var (bw, bh) := BlockSizes(opts, xSize, ySize);
      BlockCount(xSize, bw) == 1 && BlockCount(ySize, bh) == 1
  {
  }

  // ---------------------------------------------------------------------------
  // The whole copy
  // ---------------------------------------------------------------------------

  /**
   * The block size is usable: always when tiled, since it is clamped to
   * [64, 4096]; when not tiled it is the raster size, so then only for a raster
   * with a pixel on each axis (an empty one would make nXBlocks divide by zero).
   */
  predicate BlockSizesPositive(src: Source, opts: Options) {
    Tiled(opts) || (src.xSize >= 1 && src.ySize >= 1)
  }

  /** A block dimension: at least one pixel. */
  type BlockSize = n: nat | n >= 1 witness 1

  /**
   * What a copy does: refuse with an error, reach the division by a zero
   * block size, or run the block loop with eErr as it ends. COMMIT is issued when eErr is CE_None, ROLLBACK otherwise; the
   * re-opened data set is returned unless eErr is CE_Failure, nullptr otherwise.
   */
  datatype Outcome =
    | Rejected(error: CreateError)
    | ZeroBlockSize   // counting the blocks divides by a block size of 0: undefined behaviour
    | Written(target: Target, blockXSize: BlockSize, blockYSize: BlockSize, tileOptions: Options,
              tiles: seq<Tile>, eErr: ErrorLevel)
  {
    const committed: bool := Written? && eErr == NoError
    const returned: bool := Written? && eErr != Failure
  }

  /** The checks up to the tables, in the source's order, and the block size. */
  function Prepare(filename: string, src: Source, opts: Options, env: Env)
    : (r: Result<(Target, nat, nat), CreateError>)
    ensures r.Ok? ==> (r.value.1 >= 1 && r.value.2 >= 1 <==> BlockSizesPositive(src, opts))
  {
    var driverName := TileDriverName(opts);
    if src.nBands == 0 then Err(NoBands)
    else if EqualCI(driverName, "MEM") || EqualCI(driverName, "VRT") then Err(UnusableTileDriver(driverName))
    else if !env.driverRegistered(driverName) then Err(TileDriverMissing(driverName))
    else if !env.driverRegistered("MEM") then Err(MemDriverMissing)
    else if env.rotated then Err(RotatedGeoTransform)
    else
      var (bw, bh) := BlockSizes(opts, src.xSize, src.ySize);
      match AnalyseFilename(filename, env.fileExists, env.basename)
      case Err(e) => Err(e)
      case Ok(t) =>
        if !env.driverRegistered("SQLite") then Err(SQLiteDriverMissing)
        else if !env.openDatabase(t.dbName, !t.existed) then Err(DatabaseUnavailable)
        else if !env.tablesReady then Err(TablesUnavailable)
        else Ok((t, bw, bh))
  }

  /** The whole copy: the checks, the block count, the buffer, then the block loop. */
  function CreateCopySpec(filename: string, src: Source, opts: Options, env: Env): Outcome
  {
    match Prepare(filename, src, opts, env)
    case Err(e) => Rejected(e)
    case Ok((t, bw, bh)) =>
      if bw == 0 || bh == 0 then ZeroBlockSize
      else if !env.bufferAllocated then Rejected(BufferUnavailable)
      else
        var g := Grid(src.xSize, src.ySize, bw, bh);
        var p := Run(RowMajor(XBlocks(g), YBlocks(g)), g, env.step);
        Written(t, bw, bh, GetTileDriverOptions(opts), p.tiles, p.eErr)
  }

  /** The checks that come before the file name in RasterliteCreateCopy. */
  method CheckSource(src: Source, opts: Options, env: Env) returns (err: Option<CreateError>)
    ensures err.Some? <==>
              (Prepare("", src, opts, env).Err? && Prepare("", src, opts, env).error in
                 {NoBands, UnusableTileDriver(TileDriverName(opts)), TileDriverMissing(TileDriverName(opts)),
                  MemDriverMissing, RotatedGeoTransform})
    ensures err.Some? ==> forall f :: Prepare(f, src, opts, env) == Err(err.value)
    ensures err.None? <==>
              && src.nBands != 0
              && !(EqualCI(TileDriverName(opts), "MEM") || EqualCI(TileDriverName(opts), "VRT"))
              && env.driverRegistered(TileDriverName(opts)) && env.driverRegistered("MEM") && !env.rotated
  {
    if src.nBands == 0 {
      return Some(NoBands);
    }
    var driverName := FetchNameValueDef(opts, "DRIVER", DefaultTileDriver);
    if EqualCI(driverName, "MEM") || EqualCI(driverName, "VRT") {
      return Some(UnusableTileDriver(driverName));
    }
    if !env.driverRegistered(driverName) {
      return Some(TileDriverMissing(driverName));
    }
    if !env.driverRegistered("MEM") {
      return Some(MemDriverMissing);
    }
    if env.rotated {
      return Some(RotatedGeoTransform);
    }
    return None;
  }

  /** RasterliteCreateCopy: the checks, the block size, the target, then the block loop. */
  method CreateCopy(filename: string, src: Source, opts: Options, env: Env) returns (outcome: Outcome)
    ensures outcome == CreateCopySpec(filename, src, opts, env)
  {
    var err := CheckSource(src, opts, env);
    if err.Some? {
      return Rejected(err.value);
    }
    var blockXSize, blockYSize := ChooseBlockSizes(opts, src.xSize, src.ySize);
    var target := AnalyseName(filename, env.fileExists, env.basename);
    if target.Err? {
      return Rejected(target.error);
    }
    var t := target.value;
    if !env.driverRegistered("SQLite") {
      return Rejected(SQLiteDriverMissing);
    }
    if !env.openDatabase(t.dbName, !t.existed) {
      return Rejected(DatabaseUnavailable);
    }
    if !env.tablesReady {
      return Rejected(TablesUnavailable);
    }
    if blockXSize == 0 || blockYSize == 0 {
      return ZeroBlockSize;
    }
    if !env.bufferAllocated {
      return Rejected(BufferUnavailable);
    }
    var g := Grid(src.xSize, src.ySize, blockXSize, blockYSize);
    var tileOptions := GetTileDriverOptions(opts);
    var tiles, nTileId, nBlocks, eErr := WriteTiles(g, env.step);
    outcome := Written(t, blockXSize, blockYSize, tileOptions, tiles, eErr);
  }

  // ---------------------------------------------------------------------------
  // Properties of a copy
  // ---------------------------------------------------------------------------

  /** No bands, or MEM or VRT as tile driver (in any case), fail whatever the environment. */
  lemma EarlyRejections(filename: string, src: Source, opts: Options, env: Env)
    ensures src.nBands == 0 ==> CreateCopySpec(filename, src, opts, env) == Rejected(NoBands)
    ensures src.nBands > 0 && (EqualCI(TileDriverName(opts), "MEM") || EqualCI(TileDriverName(opts), "VRT")) ==>
              CreateCopySpec(filename, src, opts, env) == Rejected(UnusableTileDriver(TileDriverName(opts)))
  {
  }

  /** A copy that reaches its block loop passed every check before it, in the environment given. */
  lemma WrittenPassedChecks(filename: string, src: Source, opts: Options, env: Env)
    requires CreateCopySpec(filename, src, opts, env).Written?
    ensures var d := TileDriverName(opts);
      && src.nBands > 0 && !EqualCI(d, "MEM") && !EqualCI(d, "VRT")
      && env.driverRegistered(d) && env.driverRegistered("MEM") && env.driverRegistered("SQLite")
      && !env.rotated && env.tablesReady && env.bufferAllocated
    ensures var o := CreateCopySpec(filename, src, opts, env);
      && AnalyseFilename(filename, env.fileExists, env.basename) == Ok(o.target)
      && env.openDatabase(o.target.dbName, !o.target.existed)
  {
  }

  /** The grid a written copy iterates over. */
  function GridOf(src: Source, o: Outcome): Grid
    requires o.Written?
  {
    Grid(src.xSize, src.ySize, o.blockXSize, o.blockYSize)
  }

  /** A written copy ran the block loop over its grid, in row-major order. */
  lemma WrittenRunsTheLoop(filename: string, src: Source, opts: Options, env: Env)
    requires CreateCopySpec(filename, src, opts, env).Written?
    ensures var o := CreateCopySpec(filename, src, opts, env);
      var g := GridOf(src, o);
      && ValidGrid(g)
      && Progress(o.tiles, o.eErr) == Run(RowMajor(XBlocks(g), YBlocks(g)), g, env.step)
  {
  }

  /**
   * COMMIT is issued exactly when every block of the grid was stored; then every
   * block has its tile, tile i being the i-th block in row-major order.
   */
  lemma CommitIffAllStored(filename: string, src: Source, opts: Options, env: Env)
    requires CreateCopySpec(filename, src, opts, env).Written?
    ensures var o := CreateCopySpec(filename, src, opts, env);
      var g := GridOf(src, o);
      && ValidGrid(g)
      && (o.committed <==> forall x: nat, y: nat :: x < XBlocks(g) && y < YBlocks(g) ==> env.step((x, y)) == Stored)
      && |o.tiles| <= XBlocks(g) * YBlocks(g)
      && (o.committed ==> |o.tiles| == XBlocks(g) * YBlocks(g))
      && forall i :: 0 <= i < |o.tiles| ==>
           o.tiles[i].id == i && o.tiles[i].xBlock == i % XBlocks(g) && o.tiles[i].yBlock == i / XBlocks(g)
  {
    var o := CreateCopySpec(filename, src, opts, env);
    WrittenRunsTheLoop(filename, src, opts, env);
    CompleteRun(GridOf(src, o), env.step);
  }

  /**
   * ROLLBACK follows the first block, in row-major order, that was not stored;
   * its tile was recorded only when its tile id had been taken, and the
   * re-opened data set is still returned exactly when that block's RasterIO
   * returned a warning.
   */
  lemma RollbackAtFirstError(filename: string, src: Source, opts: Options, env: Env)
    requires CreateCopySpec(filename, src, opts, env).Written?
    requires !CreateCopySpec(filename, src, opts, env).committed
    ensures var o := CreateCopySpec(filename, src, opts, env);
      var g := GridOf(src, o);
      var order := RowMajor(XBlocks(g), YBlocks(g));
      exists k :: 0 <= k < |order| && env.step(order[k]) != Stored &&
        (forall j :: 0 <= j < k ==> env.step(order[j]) == Stored) &&
        |o.tiles| == (if RecordsTile(env.step(order[k])) then k + 1 else k) &&
        (o.returned <==> env.step(order[k]) == ReadWarning)
  {
    var o := CreateCopySpec(filename, src, opts, env);
    WrittenRunsTheLoop(filename, src, opts, env);
    var g := GridOf(src, o);
    RunStopsAtFirstError(RowMajor(XBlocks(g), YBlocks(g)), g, env.step);
  }

  /** Every tile written lies inside the raster and inside its block. */
  lemma WrittenTilesInsideRaster(filename: string, src: Source, opts: Options, env: Env)
    requires CreateCopySpec(filename, src, opts, env).Written?
    ensures var o := CreateCopySpec(filename, src, opts, env);
      forall i :: 0 <= i < |o.tiles| ==>
        && 1 <= o.tiles[i].width <= o.blockXSize && o.tiles[i].xBlock * o.blockXSize + o.tiles[i].width <= src.xSize
        && 1 <= o.tiles[i].height <= o.blockYSize && o.tiles[i].yBlock * o.blockYSize + o.tiles[i].height <= src.ySize
  {
    var o := CreateCopySpec(filename, src, opts, env);
    WrittenRunsTheLoop(filename, src, opts, env);
    TilesInsideRaster(GridOf(src, o), env.step);
  }

  /**
   * A tiled copy of a raster without pixels visits no block: it commits an
   * empty table and returns the re-opened data set.
   */
  lemma EmptyTiledCopyCommits(filename: string, src: Source, opts: Options, env: Env)
    requires Tiled(opts) && (src.xSize == 0 || src.ySize == 0)
    requires CreateCopySpec(filename, src, opts, env).Written?
    ensures var o := CreateCopySpec(filename, src, opts, env);
      o.tiles == [] && o.committed && o.returned
  {
    var o := CreateCopySpec(filename, src, opts, env);
    WrittenRunsTheLoop(filename, src, opts, env);
    var g := GridOf(src, o);
    BlockCountZero(src.xSize, g.blockXSize);
    BlockCountZero(src.ySize, g.blockYSize);
    assert XBlocks(g) * YBlocks(g) == 0;
    assert RowMajor(XBlocks(g), YBlocks(g)) == [];
  }

  /**
   * The division by a zero block size is reached exactly by an untiled copy of
   * a raster with no pixel on some axis that passed every check before it.
   */
  lemma ZeroBlockSizeExactly(filename: string, src: Source, opts: Options, env: Env)
    ensures CreateCopySpec(filename, src, opts, env) == ZeroBlockSize <==>
              Prepare(filename, src, opts, env).Ok? && !Tiled(opts) && (src.xSize == 0 || src.ySize == 0)
  {
  }
}
