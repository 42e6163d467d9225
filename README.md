# GDAL: the GPSBabel bridge and the Rasterlite create-copy logic, in Dafny

This project models two pieces of GDAL and proves properties about them.

**The OGR GPSBabel data source** (`OGRGPSBabelDataSource`) reads GPS devices and files through the external `gpsbabel` converter. It covers:

- the analysis of the name `GPSBABEL:<driver>:[features=...:]<file>`, or of the `FILENAME` and `GPSBABEL_DRIVER` open options;
- the white-list of characters a driver name may contain, which keeps shell metacharacters off the command line;
- how a path is classified as a device (`/dev/`, `usb:`, `COMn`);
- the argument vector passed to the converter;
- the spawn policy: one direct run on a device; on a regular file, a piped run first and at most one direct retry when the converter reports that its format cannot be piped;
- which layers of the GPX output are kept;
- `GetLayer` and the clean-up on close.

`Open` is a method of a class with the data source's fields: driver name, file name, temporary file name, whether the GPX output is open, and the layer array with its count. Each of its steps is a method proved against a specification function, and the lemmas are stated over those functions.

**The Rasterlite `CreateCopy`**, without its SQL, covers:

- the up-front rejections;
- the options handed to the tile driver (`RasterliteGetTileDriverOptions`, `RasterliteAddTileDriverOptionsForDriver`);
- the block size and its clamp to [64, 4096];
- the analysis of `RASTERLITE:<db>,table=<name>` file names;
- the tiling arithmetic: block counts and edge-tile sizes;
- the block loop, which goes in row-major order, hands out consecutive tile ids, stops at the first error and ends in COMMIT or ROLLBACK;
- whether the copy returns the re-opened data set: unless the loop ended on a failure, so a RasterIO warning rolls back yet returns it.

The token loop and the two nested block loops are methods with loop invariants, proved equal to recursive specification functions. The block-size clamps are a method of conditional updates, proved equal to `BlockSizes`.

Modules:

| module | file | contents |
|---|---|---|
| `Cpl` | `cpl.dfy` | The CPL helpers the core calls, with an explicitly assumed semantics (see "Left out"). |
| `GpsBabelArgs` | `gpsbabel_args.dfy` | `IsValidDriverName`, `IsSpecialFile`, `GetArgv` |
| `GpsBabelDataSource` | `gpsbabel_datasource.dfy` | Name analysis, converter policy, layer selection, the data source class. |
| `RasterliteOptions` | `rasterlite_options.dfy` | Tile-driver options. |
| `RasterliteTiling` | `rasterlite_tiling.dfy` | Block size clamp, block counts, request sizes, row-major order. |
| `RasterliteBlocks` | `rasterlite_blocks.dfy` | The block loop. |
| `RasterliteCreateCopy` | `rasterlite_createcopy.dfy` | The prechecks, the file name, the block size choice, the whole copy. |

## Model

| member | source | states |
|---|---|---|
| GpsBabelArgs.IsValidDriverName | ogr/ogrsf_frmts/gpsbabel/ogrgpsbabeldatasource.cpp:105-120 | The character loop returns true exactly when every character is a letter, a digit or one of `_ = . ,` (so the empty name is valid). |
| GpsBabelArgs.ValidDriverNameHasNoShellMetacharacter | ogr/ogrsf_frmts/gpsbabel/ogrgpsbabeldatasource.cpp:155-157 | A valid driver name holds none of the characters a shell interprets, nor `:` nor `/`. |
| GpsBabelArgs.ValidDriverNameConcat | ogr/ogrsf_frmts/gpsbabel/ogrgpsbabeldatasource.cpp:105-120 | A concatenation is valid exactly when both parts are. |
| GpsBabelArgs.IsSpecialFile | ogr/ogrsf_frmts/gpsbabel/ogrgpsbabeldatasource.cpp:94-99 | Definition: a path is special when it begins with `/dev/` or `usb:` (case-sensitive), or with `COM` followed by text whose `atoi` is positive. Its lemmas follow. |
| GpsBabelArgs.SerialPortIsSpecial | ogr/ogrsf_frmts/gpsbabel/ogrgpsbabeldatasource.cpp:94-99 | `COM` followed by a digit run with a non-zero digit is a special file. |
| GpsBabelArgs.NonPortComNameIsRegular | ogr/ogrsf_frmts/gpsbabel/ogrgpsbabeldatasource.cpp:94-99 | `COM` followed only by zeros, or by text that is not a number, is not a special file. |
| GpsBabelArgs.SpecialFileExamples | ogr/ogrsf_frmts/gpsbabel/ogrgpsbabeldatasource.cpp:96-97 | `/dev/ttyUSB0` and `usb:` are special. |
| GpsBabelArgs.SerialPortExamples | ogr/ogrsf_frmts/gpsbabel/ogrgpsbabeldatasource.cpp:98 | `COM3` is special; `COM0` and `COMx` are not. |
| GpsBabelArgs.RegularFileExamples | ogr/ogrsf_frmts/gpsbabel/ogrgpsbabeldatasource.cpp:94-99 | `/tmp/track.gdb`, `USB:` and `com3` are not special, because the prefixes are case-sensitive. |
| GpsBabelArgs.FeatureFlags | ogr/ogrsf_frmts/gpsbabel/ogrgpsbabeldatasource.cpp:69-77 | The flags hold `-w`, `-r`, `-t` each exactly when features are explicit and its category is set, in that order, and nothing else. |
| GpsBabelArgs.GetArgv | ogr/ogrsf_frmts/gpsbabel/ogrgpsbabeldatasource.cpp:64-88 | The vector starts with `gpsbabel`, then the flags, then exactly `-i driver -f file -o gpx,gpxver=1.1 -F -`; its length is 9 plus the number of flags. |
| GpsBabelArgs.GetArgvInjective | ogr/ogrsf_frmts/gpsbabel/ogrgpsbabeldatasource.cpp:64-88 | Equal vectors have equal drivers, equal inputs and equal requested categories. |
| GpsBabelArgs.GetArgvImplicit | ogr/ogrsf_frmts/gpsbabel/ogrgpsbabeldatasource.cpp:68-85 | Without explicit features the vector is the nine fixed tokens. |
| GpsBabelDataSource.ScanFeatureTokens | ogr/ogrsf_frmts/gpsbabel/ogrgpsbabeldatasource.cpp:205-226 | Each category flag is set exactly when some token names it, ignoring case. The error flag is set exactly when some token names none of them. |
| GpsBabelDataSource.DistinctCategories | ogr/ogrsf_frmts/gpsbabel/ogrgpsbabeldatasource.cpp:213-218 | No token matches both `tracks` and `routes`, so the else-if chain loses nothing. |
| GpsBabelDataSource.OptionDriverName | ogr/ogrsf_frmts/gpsbabel/ogrgpsbabeldatasource.cpp:144-153 | Corrected: with `GPSBABEL_DRIVER` given, the driver name is its value. |
| GpsBabelDataSource.OptionDriverNameAsWritten | ogr/ogrsf_frmts/gpsbabel/ogrgpsbabeldatasource.cpp:152-153 | As written: the driver name is read from an option named `DRIVER`, and is empty when that option is absent. |
| GpsBabelDataSource.AsWrittenOpenSpawnsEmptyDriver | ogr/ogrsf_frmts/gpsbabel/ogrgpsbabeldatasource.cpp:144-276 | As written, opening `GPSBABEL:x` with `FILENAME=/tmp/track.gdb` and `GPSBABEL_DRIVER=garmin` on a readable file records the driver `""` and starts the converter with `-i ""`; the corrected lookup starts it with `-i garmin`. |
| GpsBabelDataSource.DriverOptionFinding | ogr/ogrsf_frmts/gpsbabel/ogrgpsbabeldatasource.cpp:144-157 | With only `FILENAME` and `GPSBABEL_DRIVER=garmin`, the code as written yields the empty driver name; the corrected one yields `garmin`. |
| GpsBabelDataSource.ParseNameWith | ogr/ogrsf_frmts/gpsbabel/ogrgpsbabeldatasource.cpp:131-238 | Definition of the name analysis: a plain name, the open-option route with the driver lookup as a parameter, or the embedded `<driver>:[features=...:]<file>` route. `ParseName` passes the corrected lookup and `ParseNameAsWritten` the lookup as written. |
| GpsBabelDataSource.EmbeddedDriverName | ogr/ogrsf_frmts/gpsbabel/ogrgpsbabeldatasource.cpp:166-183 | The driver name is the text up to the first `:`. A name outside the white-list is refused. Any request carries that valid name. |
| GpsBabelDataSource.EmbeddedWithoutColon | ogr/ogrsf_frmts/gpsbabel/ogrgpsbabeldatasource.cpp:170-176 | Without a `:` after the prefix, the name is a syntax error and no driver is recorded. |
| GpsBabelDataSource.EmbeddedDefaultFeatures | ogr/ogrsf_frmts/gpsbabel/ogrgpsbabeldatasource.cpp:161-237 | Without `features=`, the request is not explicit, asks for all three categories, and reads the rest of the name (or the `FILENAME` option). |
| GpsBabelDataSource.EmbeddedExplicitFeatures | ogr/ogrsf_frmts/gpsbabel/ogrgpsbabeldatasource.cpp:185-237 | With `features=<list>:` (prefix in any case), exactly the listed categories are requested and the file follows the second `:`. An unknown token refuses the name. |
| GpsBabelDataSource.PrefixedRequestHasValidDriver | ogr/ogrsf_frmts/gpsbabel/ogrgpsbabeldatasource.cpp:138-183 | Whichever route a `GPSBABEL:` name takes, a request only comes out with a white-listed driver. |
| GpsBabelDataSource.RequestIsRecorded | ogr/ogrsf_frmts/gpsbabel/ogrgpsbabeldatasource.cpp:131-238 | The driver name and file name of a request are the ones recorded on the data source. |
| GpsBabelDataSource.FilenameOptionWins | ogr/ogrsf_frmts/gpsbabel/ogrgpsbabeldatasource.cpp:140-237 | The `FILENAME` open option overrides the file written in the name. |
| GpsBabelDataSource.DriverOption | ogr/ogrsf_frmts/gpsbabel/ogrgpsbabeldatasource.cpp:144-158 | Corrected lookup: `GPSBABEL_DRIVER` without `FILENAME` fails. With `FILENAME`, it names the driver, is accepted exactly when valid, and asks for all categories. |
| GpsBabelDataSource.PlainName | ogr/ogrsf_frmts/gpsbabel/ogrgpsbabeldatasource.cpp:132-164 | A name without the prefix converts that path with the caller's driver and every category. |
| GpsBabelDataSource.PrefixedNameWithoutOptions | ogr/ogrsf_frmts/gpsbabel/ogrgpsbabeldatasource.cpp:166-169 | Without open options, a prefixed name is analysed from the text after the prefix. |
| GpsBabelDataSource.GarminWaypointsRequest | ogr/ogrsf_frmts/gpsbabel/ogrgpsbabeldatasource.cpp:166-237 | `GPSBABEL:garmin:features=waypoints:/tmp/track.gdb` asks `garmin` for waypoints only from `/tmp/track.gdb`. |
| GpsBabelDataSource.Convert | ogr/ogrsf_frmts/gpsbabel/ogrgpsbabeldatasource.cpp:247-325 | Definition of the spawn policy: the invocations issued, in order, and how the conversion ends. Its lemmas follow. |
| GpsBabelDataSource.AttemptsDifferOnlyInInput | ogr/ogrsf_frmts/gpsbabel/ogrgpsbabeldatasource.cpp:251-315 | The direct and piped vectors differ only in the `-f` token: the path, or `-`. |
| GpsBabelDataSource.ConvertShape | ogr/ogrsf_frmts/gpsbabel/ogrgpsbabeldatasource.cpp:247-325 | There are at most two spawns, each direct or piped. A successful output comes from the last spawn. There is no spawn exactly when the source could not be opened. |
| GpsBabelDataSource.SpecialFileConvertedDirectly | ogr/ogrsf_frmts/gpsbabel/ogrgpsbabeldatasource.cpp:248-259 | A device path gets exactly one direct spawn, which succeeds exactly when its exit status is 0. |
| GpsBabelDataSource.UnreadableSourceNoSpawn | ogr/ogrsf_frmts/gpsbabel/ogrgpsbabeldatasource.cpp:262-268 | A regular file that cannot be opened starts no converter. |
| GpsBabelDataSource.RegularFilePipedFirst | ogr/ogrsf_frmts/gpsbabel/ogrgpsbabeldatasource.cpp:262-276 | For a readable regular file, the first spawn is the piped one. |
| GpsBabelDataSource.RetryExactlyWhen | ogr/ogrsf_frmts/gpsbabel/ogrgpsbabeldatasource.cpp:292-324 | A second spawn happens exactly when the piped run failed with the marker and `VSIStat` succeeds. It is then the direct run. |
| GpsBabelDataSource.MarkerOnVirtualFile | ogr/ogrsf_frmts/gpsbabel/ogrgpsbabeldatasource.cpp:301-311 | The marker, when stat fails, ends the conversion after the single piped spawn. |
| GpsBabelDataSource.PipedFailureWithoutMarker | ogr/ogrsf_frmts/gpsbabel/ogrgpsbabeldatasource.cpp:292-300 | A piped failure without the marker is never retried and keeps the converter's message. |
| GpsBabelDataSource.SelectLayers | ogr/ogrsf_frmts/gpsbabel/ogrgpsbabeldatasource.cpp:332-358 | Definition of the layers kept: for each requested category in turn, its layers that exist and are not empty. Its lemmas follow. |
| GpsBabelDataSource.SelectLayersParts | ogr/ogrsf_frmts/gpsbabel/ogrgpsbabeldatasource.cpp:333-358 | The kept layers are the waypoints group, then the routes group, then the tracks group, of at most 1, 2 and 2 layers. |
| GpsBabelDataSource.SelectLayersBound | ogr/ogrsf_frmts/gpsbabel/ogrgpsbabeldatasource.cpp:327-358 | At most five layers are kept. |
| GpsBabelDataSource.SelectLayersSound | ogr/ogrsf_frmts/gpsbabel/ogrgpsbabeldatasource.cpp:333-358 | Every kept layer is one of the five names, its category was requested, it exists, and its feature count is non-zero. |
| GpsBabelDataSource.SelectLayersComplete | ogr/ogrsf_frmts/gpsbabel/ogrgpsbabeldatasource.cpp:333-358 | Every requested, existing, non-empty layer is kept. |
| GpsBabelDataSource.SelectLayersOrdered | ogr/ogrsf_frmts/gpsbabel/ogrgpsbabeldatasource.cpp:333-358 | Kept layers are in the order waypoints, routes, route_points, tracks, track_points. |
| GpsBabelDataSource.TracksOnlySelection | ogr/ogrsf_frmts/gpsbabel/ogrgpsbabeldatasource.cpp:350-358 | Asking only for tracks keeps at most the two track layers. |
| GpsBabelDataSource.OpenSpec | ogr/ogrsf_frmts/gpsbabel/ogrgpsbabeldatasource.cpp:126-363 | Definition of Open with the corrected lookup: the analysed names, the temporary file name, the spawns, whether the output opened, and the layers kept. |
| GpsBabelDataSource.OpenSpecAsWritten | ogr/ogrsf_frmts/gpsbabel/ogrgpsbabeldatasource.cpp:126-363 | Definition of Open as written: the same with the `DRIVER` lookup. |
| GpsBabelDataSource.RejectedNameDoesNothing | ogr/ogrsf_frmts/gpsbabel/ogrgpsbabeldatasource.cpp:146-231 | A name refused by the analysis gets no temporary file, no spawn and no layer. |
| GpsBabelDataSource.SpawnedDriverIsWhitelisted | ogr/ogrsf_frmts/gpsbabel/ogrgpsbabeldatasource.cpp:155-315 | Every converter run for a `GPSBABEL:` name carries a white-listed driver after `-i`. |
| GpsBabelDataSource.KeptLayersComeFromOutput | ogr/ogrsf_frmts/gpsbabel/ogrgpsbabeldatasource.cpp:327-362 | Layers are kept only from an opened output of a conversion that ran. They are at most five, valid, non-empty and in order. |
| GpsBabelDataSource.GarminWaypointsPiped | ogr/ogrsf_frmts/gpsbabel/ogrgpsbabeldatasource.cpp:262-338 | On a readable file whose piped run succeeds: one spawn, and only the non-empty waypoints layer is kept. |
| GpsBabelDataSource.GarminWaypointsRetried | ogr/ogrsf_frmts/gpsbabel/ogrgpsbabeldatasource.cpp:292-338 | When the piped run reports the marker on a real file, the direct run follows and its output is used. |
| GpsBabelDataSource.GpsBabelDataSource.constructor | ogr/ogrsf_frmts/gpsbabel/ogrgpsbabeldatasource.cpp:26-28 | A new data source has no names, no temporary file, no output and no layers. |
| GpsBabelDataSource.GpsBabelDataSource.AddLayerIfNonEmpty | ogr/ogrsf_frmts/gpsbabel/ogrgpsbabeldatasource.cpp:335-337 | One `apoLayers[nLayers++]` step: it appends the layer when it exists and is not empty, and keeps the count. |
| GpsBabelDataSource.GpsBabelDataSource.AnalyseName | ogr/ogrsf_frmts/gpsbabel/ogrgpsbabeldatasource.cpp:131-238 | The recorded names and the request are those of `ParseName`. |
| GpsBabelDataSource.GpsBabelDataSource.AnalyseEmbeddedName | ogr/ogrsf_frmts/gpsbabel/ogrgpsbabeldatasource.cpp:166-238 | The recorded names and the request are those of `ParseEmbedded`. |
| GpsBabelDataSource.GpsBabelDataSource.AnalyseAfterDriver | ogr/ogrsf_frmts/gpsbabel/ogrgpsbabeldatasource.cpp:185-237 | The recorded file name and the request after a valid driver name are those of `ParseAfterDriver`. |
| GpsBabelDataSource.GpsBabelDataSource.AnalyseFeatures | ogr/ogrsf_frmts/gpsbabel/ogrgpsbabeldatasource.cpp:190-233 | The `features=` list is accepted exactly when it ends at a `:` and all its tokens are known. The categories are then the ones it mentions, and the file name is what follows. |
| GpsBabelDataSource.GpsBabelDataSource.RunConverter | ogr/ogrsf_frmts/gpsbabel/ogrgpsbabeldatasource.cpp:247-325 | The spawns issued and the success flag are those of `Convert`. The output comes from the last spawn. |
| GpsBabelDataSource.GpsBabelDataSource.ExtractLayers | ogr/ogrsf_frmts/gpsbabel/ogrgpsbabeldatasource.cpp:333-358 | The layer array becomes `SelectLayers` for the requested categories, with `nLayers` at most 5. |
| GpsBabelDataSource.GpsBabelDataSource.AddLayerPair | ogr/ogrsf_frmts/gpsbabel/ogrgpsbabeldatasource.cpp:339-357 | The routes or tracks block: the two layers are appended in turn, each when it exists and is not empty, and `nLayers` stays the layer count. |
| GpsBabelDataSource.GpsBabelDataSource.ConvertAndLoad | ogr/ogrsf_frmts/gpsbabel/ogrgpsbabeldatasource.cpp:247-360 | The spawns, whether the output is open, and the layers are those of the conversion. |
| GpsBabelDataSource.GpsBabelDataSource.Open | ogr/ogrsf_frmts/gpsbabel/ogrgpsbabeldatasource.cpp:126-363 | Corrected lookup: the new state is that of `OpenSpec`, and the result is `nLayers > 0`. |
| GpsBabelDataSource.GpsBabelDataSource.GetLayer | ogr/ogrsf_frmts/gpsbabel/ogrgpsbabeldatasource.cpp:369-376 | There is a layer exactly for indexes in [0, nLayers), and it is the stored one. |
| GpsBabelDataSource.GpsBabelDataSource.CloseDependentDatasets | ogr/ogrsf_frmts/gpsbabel/ogrgpsbabeldatasource.cpp:50-58 | Returns whether the GPX output was open, and leaves it closed. |
| GpsBabelDataSource.GpsBabelDataSource.Close | ogr/ogrsf_frmts/gpsbabel/ogrgpsbabeldatasource.cpp:34-44 | Closes the output, then unlinks the temporary file exactly when one was named. |
| Cpl.FindChar | ogr/ogrsf_frmts/gpsbabel/ogrgpsbabeldatasource.cpp:170 | `strchr`: the first position of the character, or none exactly when it does not occur. |
| Cpl.FetchNameValue | frmts/rasterlite/rasterlitecreatecopy.cpp:323 | `CSLFetchNameValue`: absent exactly when no key matches ignoring case. |
| Cpl.FetchNameValueFirst | frmts/rasterlite/rasterlitecreatecopy.cpp:323 | A value found is that of a matching entry, and no earlier entry matches. |
| Cpl.FetchNameValueConcat | frmts/rasterlite/rasterlitecreatecopy.cpp:48-82 | Looking up a key in a concatenation searches the first list, then the second. |
| Cpl.SetNameValue | frmts/rasterlite/rasterlitecreatecopy.cpp:35-36 | `CSLSetNameValue`: afterwards the key maps to the value. An existing entry is replaced in place; otherwise one is appended. |
| Cpl.SetNameValueKeepsOthers | frmts/rasterlite/rasterlitecreatecopy.cpp:35-36 | Setting one key leaves every other key's value unchanged. |
| Cpl.Tokenize | frmts/rasterlite/rasterlitecreatecopy.cpp:400-401 | The tokens are non-empty and hold no delimiter. |
| Cpl.TokenizeSingle | frmts/rasterlite/rasterlitecreatecopy.cpp:400-401 | A non-empty text without the delimiter is its one token. |
| Cpl.TokenizeJoin | frmts/rasterlite/rasterlitecreatecopy.cpp:400-401 | Tokenizing `a,b` gives the tokens of `a`, then those of `b`. |
| Cpl.TokenizeEmpty | frmts/rasterlite/rasterlitecreatecopy.cpp:400-406 | There is no token exactly when the text is all commas. |
| Cpl.DigitsValuePositive | ogr/ogrsf_frmts/gpsbabel/ogrgpsbabeldatasource.cpp:98 | A digit run denotes a positive number exactly when one of its digits is not 0. |
| Cpl.AtoiOfDigitStart | ogr/ogrsf_frmts/gpsbabel/ogrgpsbabeldatasource.cpp:98 | `atoi` of a text that starts with a digit is the value of its leading digits. |
| Cpl.AtoiOfNonNumeric | ogr/ogrsf_frmts/gpsbabel/ogrgpsbabeldatasource.cpp:98 | `atoi` of a text that starts with no sign, space or digit is 0. |
| RasterliteOptions.AddTileDriverOptionsForDriver | frmts/rasterlite/rasterlitecreatecopy.cpp:24-46 | When the option is given and the tile driver is the expected one (ignoring case), the option then maps to the value it was given; otherwise the list is unchanged. Every other key keeps the value it had in the list. |
| RasterliteOptions.GetTileDriverOptions | frmts/rasterlite/rasterlitecreatecopy.cpp:48-82 | Definition: from an empty list, the quality option under the tile driver's key, then `COMPRESS` and `PHOTOMETRIC` for GTiff. Its lemmas follow. |
| RasterliteOptions.GetTileDriverOptionsShape | frmts/rasterlite/rasterlitecreatecopy.cpp:48-82 | The result is the quality entry, then `COMPRESS`, then `PHOTOMETRIC`, each present only under its condition. |
| RasterliteOptions.QualityMapping | frmts/rasterlite/rasterlitecreatecopy.cpp:48-74 | Under GTiff (any case, and the default), `QUALITY` becomes `JPEG_QUALITY`. Under JPEG or WEBP it stays `QUALITY`. Under any other driver it is dropped. |
| RasterliteOptions.GTiffOnlyOptions | frmts/rasterlite/rasterlitecreatecopy.cpp:24-79 | `COMPRESS` and `PHOTOMETRIC` are passed, with their values, exactly when given and the driver is GTiff. |
| RasterliteOptions.TileOptionsKeysAndValues | frmts/rasterlite/rasterlitecreatecopy.cpp:48-82 | Every key of the result is one of `JPEG_QUALITY`, `QUALITY`, `COMPRESS`, `PHOTOMETRIC`, and its value is copied verbatim from the input. |
| RasterliteOptions.NoTileOptions | frmts/rasterlite/rasterlitecreatecopy.cpp:48-82 | Without any of the three options the result is empty. |
| RasterliteTiling.ClampBlockSize | frmts/rasterlite/rasterlitecreatecopy.cpp:376-383 | The result lies in [64, 4096]. It is the input when that is in range, otherwise the bound it crossed. |
| RasterliteTiling.ClampBlockSizeProperties | frmts/rasterlite/rasterlitecreatecopy.cpp:376-383 | Clamping is idempotent and monotone. |
| RasterliteTiling.BlockCountIsCeiling | frmts/rasterlite/rasterlitecreatecopy.cpp:556-557 | The block count is the least number of blocks that covers the size: the rounded-up quotient. |
| RasterliteTiling.BlockCountZero | frmts/rasterlite/rasterlitecreatecopy.cpp:556-557 | There are no blocks exactly when the size is 0. |
| RasterliteTiling.RequestSizeBounds | frmts/rasterlite/rasterlitecreatecopy.cpp:593-598 | Each block's request size is between 1 and the block size and stays inside the raster. It is a whole block or ends at the edge. |
| RasterliteTiling.OnlyLastBlockPartial | frmts/rasterlite/rasterlitecreatecopy.cpp:593-598 | Every block but the last along an axis is whole. |
| RasterliteTiling.OnlyLastBlockPartialOrEnd | frmts/rasterlite/rasterlitecreatecopy.cpp:593-598 | The last block along an axis ends exactly at the raster's edge. |
| RasterliteTiling.RequestedPixelsPrefix | frmts/rasterlite/rasterlitecreatecopy.cpp:593-598 | Before the last block, the request sizes so far add up to the next block's offset. |
| RasterliteTiling.RequestedPixelsTotal | frmts/rasterlite/rasterlitecreatecopy.cpp:556-598 | The request sizes along a row add up to the raster width, and likewise down a column for the height. |
| RasterliteTiling.PixelInOneBlock | frmts/rasterlite/rasterlitecreatecopy.cpp:593-598 | Each pixel lies in exactly one block: its offset divided by the block size. |
| RasterliteTiling.RowMajor | frmts/rasterlite/rasterlitecreatecopy.cpp:582-586 | The visiting order of the two loops has one entry per block. |
| RasterliteTiling.RowMajorIndex | frmts/rasterlite/rasterlitecreatecopy.cpp:582-586 | The k-th block visited is column k mod nXBlocks of row k div nXBlocks. |
| RasterliteTiling.RowMajorInGrid | frmts/rasterlite/rasterlitecreatecopy.cpp:582-586 | The k-th block visited lies inside the grid. |
| RasterliteTiling.RowMajorVisitsEachBlockOnce | frmts/rasterlite/rasterlitecreatecopy.cpp:582-586 | Every block of the grid is visited exactly once, at position y * nXBlocks + x. |
| RasterliteBlocks.Run | frmts/rasterlite/rasterlitecreatecopy.cpp:582-700 | Definition of the block loop over a sequence of blocks: each block is one `Next` step until the first block that leaves an error. Its lemmas follow. |
| RasterliteBlocks.Next | frmts/rasterlite/rasterlitecreatecopy.cpp:593-698 | Definition of one block: a tile with the next id and the block's request size when the metadata row was built, and the `eErr` the block left. |
| RasterliteBlocks.StepError | frmts/rasterlite/rasterlitecreatecopy.cpp:600-698 | After a block, `eErr` is CE_None exactly when the block was stored, and CE_Warning exactly when its RasterIO returned a warning; every other ending is CE_Failure. |
| RasterliteBlocks.RunSticky | frmts/rasterlite/rasterlitecreatecopy.cpp:582-586 | Once a block has failed, later blocks change nothing: both loop conditions test `eErr`. |
| RasterliteBlocks.RunTiles | frmts/rasterlite/rasterlitecreatecopy.cpp:593-665 | Tile i has id i and is the i-th block visited, with that block's request size. There are no more tiles than blocks. |
| RasterliteBlocks.RunCompletes | frmts/rasterlite/rasterlitecreatecopy.cpp:600-698 | The loop ends without error exactly when every block was stored, and then every block has a tile. |
| RasterliteBlocks.RunStopsAtFirstError | frmts/rasterlite/rasterlitecreatecopy.cpp:600-698 | A failed loop stopped at its first failing block. The tiles count the blocks before it, plus that block when its tile id had been taken, and `eErr` is what that block left. |
| RasterliteBlocks.TilesInsideRaster | frmts/rasterlite/rasterlitecreatecopy.cpp:593-667 | Every recorded tile lies inside the raster and within its block's bounds. |
| RasterliteBlocks.CompleteRun | frmts/rasterlite/rasterlitecreatecopy.cpp:572-698 | Over the whole grid: no error exactly when every block was stored, then one tile per block. At most nTotalBlocks tiles; tile i is block (i mod nXBlocks, i div nXBlocks). |
| RasterliteBlocks.WriteBlock | frmts/rasterlite/rasterlitecreatecopy.cpp:588-698 | One block's body is one step of the loop specification. `nTileId` and `nBlocks` grow together, by one exactly when the block's metadata row is built, and `nTileId` stays the number of tiles. |
| RasterliteBlocks.WriteRow | frmts/rasterlite/rasterlitecreatecopy.cpp:585-699 | The inner loop over a row extends the run by that row, keeping `nTileId` and `nBlocks` equal to the number of tiles. |
| RasterliteBlocks.WriteTiles | frmts/rasterlite/rasterlitecreatecopy.cpp:572-700 | The nested loops compute the run over the row-major order. The `nTileId` and `nBlocks` counters, incremented inside the loop, both end equal to the number of tiles, which is at most nTotalBlocks. |
| RasterliteCreateCopy.AnalyseFilename | frmts/rasterlite/rasterlitecreatecopy.cpp:395-449 | Definition of the target of a file name: the database, the table (explicit, or the basename of a new database) and the two layer names. Its lemmas follow. |
| RasterliteCreateCopy.WithoutPrefixStrips | frmts/rasterlite/rasterlitecreatecopy.cpp:395-398 | A `RASTERLITE:` prefix in any case is stripped, all 11 characters. |
| RasterliteCreateCopy.WithoutPrefixKeeps | frmts/rasterlite/rasterlitecreatecopy.cpp:395-398 | A name without the prefix is kept whole. |
| RasterliteCreateCopy.LastTableWins | frmts/rasterlite/rasterlitecreatecopy.cpp:413-423 | The table name is the value of the last `table=` token (prefix in any case); other tokens are ignored. |
| RasterliteCreateCopy.NoTableToken | frmts/rasterlite/rasterlitecreatecopy.cpp:413-423 | Without a `table=` token the table name stays empty. |
| RasterliteCreateCopy.ScanTableOptions | frmts/rasterlite/rasterlitecreatecopy.cpp:413-423 | The token loop computes the table name of the tokens after the database name. |
| RasterliteCreateCopy.AnalyseName | frmts/rasterlite/rasterlitecreatecopy.cpp:395-449 | The source's steps compute `AnalyseFilename`. |
| RasterliteCreateCopy.ExplicitTable | frmts/rasterlite/rasterlitecreatecopy.cpp:395-449 | `RASTERLITE:<db>,table=<t>` writes table `t`, with layers `t_rasters` and `t_metadata`, in database `db`. |
| RasterliteCreateCopy.ImplicitTable | frmts/rasterlite/rasterlitecreatecopy.cpp:410-443 | Without a table token, an existing database is refused, and a new one takes the table name from its basename. |
| RasterliteCreateCopy.NoTokens | frmts/rasterlite/rasterlitecreatecopy.cpp:404-443 | A name of commas only is itself the database, and the table is its basename. It is refused only when that basename is empty and the file exists. |
| RasterliteCreateCopy.TargetLayers | frmts/rasterlite/rasterlitecreatecopy.cpp:445-449 | The two layer names differ from each other, and both begin with the table name. |
| RasterliteCreateCopy.ExampleName | frmts/rasterlite/rasterlitecreatecopy.cpp:395-449 | `RASTERLITE:/data/db.sqlite,table=roads` writes table `roads` of `/data/db.sqlite`. |
| RasterliteCreateCopy.BlockSizes | frmts/rasterlite/rasterlitecreatecopy.cpp:367-389 | Tiled blocks lie in [64, 4096] on both axes. An untiled copy's only block is the whole raster. |
| RasterliteCreateCopy.ChooseBlockSizes | frmts/rasterlite/rasterlitecreatecopy.cpp:367-389 | The source's clamps compute `BlockSizes`. |
| RasterliteCreateCopy.DefaultBlockSizes | frmts/rasterlite/rasterlitecreatecopy.cpp:367-375 | Without `TILED`, `BLOCKXSIZE` or `BLOCKYSIZE`, the blocks are 256 by 256. |
| RasterliteCreateCopy.UntiledIsOneBlock | frmts/rasterlite/rasterlitecreatecopy.cpp:384-389 | An untiled copy has exactly one block along each axis. |
| RasterliteCreateCopy.Prepare | frmts/rasterlite/rasterlitecreatecopy.cpp:315-545 | The checks up to the tables in the source's order. When they pass, both block sizes are positive exactly when the copy is tiled or the raster has a pixel on each axis. |
| RasterliteCreateCopy.CreateCopySpec | frmts/rasterlite/rasterlitecreatecopy.cpp:307-719 | Definition of the whole copy: a rejection, the division by a zero block size, or the block loop with its tiles and `eErr`. Its lemmas follow. |
| RasterliteCreateCopy.CheckSource | frmts/rasterlite/rasterlitecreatecopy.cpp:315-365 | The first five checks fail exactly when the copy is refused by them, whatever the file name. They pass exactly when there are bands, the tile driver is neither MEM nor VRT, it and MEM are registered, and the geotransform has no rotation. |
| RasterliteCreateCopy.CreateCopy | frmts/rasterlite/rasterlitecreatecopy.cpp:307-719 | The copy's outcome is `CreateCopySpec`, for every source, options and environment. |
| RasterliteCreateCopy.EarlyRejections | frmts/rasterlite/rasterlitecreatecopy.cpp:315-330 | No bands, or a MEM or VRT tile driver in any case, fails whatever the environment, before any database is touched. |
| RasterliteCreateCopy.WrittenPassedChecks | frmts/rasterlite/rasterlitecreatecopy.cpp:315-566 | A copy that reaches the block loop passed every check before it. |
| RasterliteCreateCopy.WrittenRunsTheLoop | frmts/rasterlite/rasterlitecreatecopy.cpp:556-700 | A written copy ran the block loop over its grid in row-major order. |
| RasterliteCreateCopy.CommitIffAllStored | frmts/rasterlite/rasterlitecreatecopy.cpp:572-708 | COMMIT exactly when every block of the grid was stored, and then one tile per block. At most nTotalBlocks tiles, with consecutive ids in row-major order. |
| RasterliteCreateCopy.RollbackAtFirstError | frmts/rasterlite/rasterlitecreatecopy.cpp:600-719 | ROLLBACK stops at the first block that was not stored; the tiles written are those before it, plus it when its id was taken. The re-opened data set is still returned exactly when that block's RasterIO returned a warning. |
| RasterliteCreateCopy.EmptyTiledCopyCommits | frmts/rasterlite/rasterlitecreatecopy.cpp:556-719 | A tiled copy of a raster with no pixel on some axis visits no block, writes no tile, commits, and returns the re-opened data set. |
| RasterliteCreateCopy.ZeroBlockSizeExactly | frmts/rasterlite/rasterlitecreatecopy.cpp:367-557 | The block count divides by zero exactly for an untiled copy of a raster with no pixel on some axis that passed every check before it. |
| RasterliteCreateCopy.WrittenTilesInsideRaster | frmts/rasterlite/rasterlitecreatecopy.cpp:593-667 | Every tile written lies inside the raster and within its block's bounds. |

## Left out

- Process execution, file I/O and the GPX reader (`CPLSpawn`, `VSIFOpenL`, `VSIStat`, `VSIUnlink`, `GDALOpenEx`, `GetFeatureCount`) are oracles in `GpsBabelDataSource.Env`.
  - A spawn returns a status and the last error message.
  - The output is read as a map from layer name to feature count.
  - The temporary file being opened for writing is not modelled.
- The temporary-name generators and the `USE_TEMPFILE` configuration option are modelled only as a choice between two given names.
- The CPL error-handler stack and error reporting are not modelled; only which path fails.
- The `features=` list is split by a tokenizer passed in as a parameter. How `CSLTokenizeString` splits is not modelled.
- `Cpl` states an assumed semantics for the library functions the core calls, which are not part of this model:
  - `EQUAL` and `STARTS_WITH_CI` compare ASCII case-insensitively;
  - `CSLFetchNameValue` returns the first case-insensitive match;
  - `CSLSetNameValue` replaces the first match or appends;
  - `atoi` reads optional spaces, a sign and leading digits;
  - `CPLTestBool` is false exactly for NO, FALSE, OFF and 0;
  - `CSLTokenizeStringComplex(s, ",", FALSE, FALSE)` splits at every comma and drops empty tokens.
- `CPLGetBasenameSafe` is an oracle.
- Everything SQL in Rasterlite is left out: `RasterliteInsertSRID`, `RasterliteCreateTables`, wiping tables, the overlap `COUNT` query, the SRS checks, and feature creation.
  - Whether the database could be created or opened is an oracle that is told which of the two was tried.
  - Whether the tables and layers are in place is one boolean.
  - Whether the block buffer could be allocated is one boolean.
  - What happens to each block is a step oracle: the raster read (failed, or returning a warning), the tile driver's encoding, the raster insert, the metadata insert, and the progress callback.
- Floating point is left out. Whether the geotransform has rotation terms is a boolean. The substituted default geotransform, extents, tile polygons, pixel sizes and the progress fraction are not modelled.
- Raster I/O and tile encoding are left out: the MEM data set, its bands, `GDALCreateCopy` into the temporary file, and the tile bytes.
- Only the sizes of the applied tiles are recorded. The unused `bStrict` argument is not modelled.
- The return value is modelled as `Outcome.returned`: whether `GDALOpen` of the result is reached, which is when `eErr` is not CE_Failure, so a RasterIO warning rolls back yet returns the re-opened data set. The re-opening itself is not modelled.
- Integers are unbounded. The source's 32-bit products (`nBlockXOff * nBlockXSize`, `nXBlocks * nYBlocks`) are assumed not to overflow.
- `atoi` reads an unbounded number: `COM4294967296` is a special file in the model, while the source's `atoi` overflows on it.
- RasterliteCreateCopy.CreateCopySpec: an untiled copy of a raster with no pixel on some axis that passes every check before line 556 ends in `ZeroBlockSize`. The source then divides by a block size of 0 when counting blocks, which is undefined behaviour and is not modelled further. A tiled copy of an empty raster is modelled.
- GpsBabelDataSource.GpsBabelDataSource.Open: follows the corrected GPSBABEL_DRIVER lookup. The driver option as written is modelled by `ParseNameAsWritten` and `OpenSpecAsWritten` (see Findings).
- `RasterliteDelete` is not modelled: it does nothing and returns `CE_None`.
- The warnings the source issues (invalid filename options, options for another tile driver, overlapping data) are not modelled.

## Findings

| source | as written | input that shows it | evidently intended | confidence | as-written member | corrected member |
|---|---|---|---|---|---|---|
| ogr/ogrsf_frmts/gpsbabel/ogrgpsbabeldatasource.cpp:144-153 | When the `GPSBABEL_DRIVER` open option is present, the driver name is taken from an option named `DRIVER`. | Open options `FILENAME=/tmp/track.gdb`, `GPSBABEL_DRIVER=garmin` and no `DRIVER`, with a `GPSBABEL:` name. The driver name becomes the empty string, and the converter is started with an empty `-i` argument. | The driver name is the value of `GPSBABEL_DRIVER`. | high; not executed | GpsBabelDataSource.AsWrittenOpenSpawnsEmptyDriver, GpsBabelDataSource.DriverOptionFinding | GpsBabelDataSource.OptionDriverName, GpsBabelDataSource.DriverOption |
