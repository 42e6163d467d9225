/**
 * OGRGPSBabelDataSource: analysing a GPSBABEL:<driver>:[features=...:]<file>
 * name, running the converter (piped first, directly on retry), and keeping the
 * non-empty layers of the converted GPX output.
 *
 * The converter process, file opening, stat, the temporary-name generators and
 * the GPX reader are outside the model; their answers are supplied by an Env.
 */
module GpsBabelDataSource {
  import opened Cpl
  import opened GpsBabelArgs

  const GpsBabelPrefix := "GPSBABEL:"
  const FeaturesEqual := "features="
  /** The converter's message for formats that cannot read standard input. */
  const PipedMarker := "This format cannot be used in piped commands"

  // ---------------------------------------------------------------------------
  // Analysing the data source name
  // ---------------------------------------------------------------------------

  datatype ParseError = MissingFilename | InvalidDriverName | WrongSyntax | WrongFeaturesValue

  /** A conversion request: driver, input path and requested feature categories. */
  datatype Request = Request(driverName: string, filename: string, explicitFeatures: bool,
                             waypoints: bool, routes: bool, tracks: bool)

  /** The driver name and file name Open has recorded, and the request or the error. */
  datatype Parse = Parse(driverName: Option<string>, filename: Option<string>,
                         request: Result<Request, ParseError>)

  predicate KnownFeature(token: string) {
    EqualCI(token, "waypoints") || EqualCI(token, "tracks") || EqualCI(token, "routes")
  }

  predicate AllKnownFeatures(tokens: seq<string>) {
    forall i :: 0 <= i < |tokens| ==> KnownFeature(tokens[i])
  }

  predicate Mentions(tokens: seq<string>, category: string) {
    exists i :: 0 <= i < |tokens| && EqualCI(tokens[i], category)
  }

  /** The features= loop: every token sets its category, any other token is an error. */
  method ScanFeatureTokens(tokens: seq<string>) returns (waypoints: bool, tracks: bool, routes: bool, err: bool)
    ensures waypoints == Mentions(tokens, "waypoints")
    ensures tracks == Mentions(tokens, "tracks")
    ensures routes == Mentions(tokens, "routes")
    ensures err == !AllKnownFeatures(tokens)
  {
    waypoints, tracks, routes, err := false, false, false, false;
    var i := 0;
    while i < |tokens|
      invariant 0 <= i <= |tokens|
      invariant waypoints == Mentions(tokens[..i], "waypoints")
      invariant tracks == Mentions(tokens[..i], "tracks")
      invariant routes == Mentions(tokens[..i], "routes")
      invariant err == !AllKnownFeatures(tokens[..i])
    {
      ScanStep(tokens, i);
      DistinctCategories(tokens[i]);
      if EqualCI(tokens[i], "waypoints") {
        waypoints := true;
      } else if EqualCI(tokens[i], "tracks") {
        tracks := true;
      } else if EqualCI(tokens[i], "routes") {
        routes := true;
      } else {
        err := true;
      }
      i := i + 1;
    }
    assert tokens[..i] == tokens;
  }

  /** One more token: each category is mentioned if it was or the token names it; all known if both are. */
  lemma ScanStep(tokens: seq<string>, i: nat)
    requires i < |tokens|
    ensures forall category :: Mentions(tokens[..i + 1], category) <==>
              Mentions(tokens[..i], category) || EqualCI(tokens[i], category)
    ensures AllKnownFeatures(tokens[..i + 1]) <==> AllKnownFeatures(tokens[..i]) && KnownFeature(tokens[i])
  {
    var before, after := tokens[..i], tokens[..i + 1];
    assert after == before + [tokens[i]];
    forall category ensures Mentions(after, category) <==> Mentions(before, category) || EqualCI(tokens[i], category) {
      if Mentions(after, category) {
        var j :| 0 <= j < |after| && EqualCI(after[j], category);
        if j < i {
          assert before[j] == after[j];
        }
      }
      if Mentions(before, category) {
        var j :| 0 <= j < |before| && EqualCI(before[j], category);
        assert after[j] == before[j];
      }
      if EqualCI(tokens[i], category) {
        assert after[i] == tokens[i];
      }
    }
    if AllKnownFeatures(after) {
      assert forall j :: 0 <= j < |before| ==> before[j] == after[j];
      assert after[i] == tokens[i];
    }
  }

  /** A token names at most one category. */
  lemma DistinctCategories(token: string)
    ensures !(EqualCI(token, "tracks") && EqualCI(token, "routes"))
  {
    if EqualCI(token, "tracks") {
      assert ToUpper(token[0]) == ToUpper("tracks"[0]);
    }
  }

  /** The driver name given by the GPSBABEL_DRIVER open option (absent option: empty name). */
  function OptionDriverName(opts: Options): (d: string)
    ensures FetchNameValue(opts, "GPSBABEL_DRIVER").Some? ==> d == FetchNameValue(opts, "GPSBABEL_DRIVER").value
  {
    FetchNameValueDef(opts, "GPSBABEL_DRIVER", "")
  }

  /**
   * The option branch as written in the source: having found GPSBABEL_DRIVER, it
   * copies the value of an option named DRIVER (CPLStrdup turns a missing one into "").
   */
  function OptionDriverNameAsWritten(opts: Options): (d: string)
    ensures FetchNameValue(opts, "DRIVER").None? ==> d == ""
  {
    FetchNameValueDef(opts, "DRIVER", "")
  }

  /** With only FILENAME and GPSBABEL_DRIVER given, the code as written loses the driver name. */
  lemma DriverOptionFinding()
    ensures var opts := [("FILENAME", "/tmp/track.gdb"), ("GPSBABEL_DRIVER", "garmin")];
            OptionDriverNameAsWritten(opts) == "" && OptionDriverName(opts) == "garmin"
  {
    var opts := [("FILENAME", "/tmp/track.gdb"), ("GPSBABEL_DRIVER", "garmin")];
    assert !EqualCI(opts[0].0, "DRIVER") && !EqualCI(opts[1].0, "DRIVER");
    assert !HasKey(opts, "DRIVER");
    assert !EqualCI(opts[0].0, "GPSBABEL_DRIVER") && EqualCI(opts[1].0, "GPSBABEL_DRIVER");
  }

  /** Request with the default categories: not explicit, everything included. */
  function DefaultRequest(driverName: string, filename: string): Request {
    Request(driverName, filename, false, true, true, true)
  }

  /** The name analysis of Open, up to and including the features= option. */
  function ParseName(name: string, driverIn: string, opts: Options,
                     tokenize: string -> seq<string>): Parse
  {
    ParseNameWith(name, driverIn, opts, tokenize, OptionDriverName)
  }

  /** The name analysis as written, its GPSBABEL_DRIVER branch copying the DRIVER option. */
  function ParseNameAsWritten(name: string, driverIn: string, opts: Options,
                              tokenize: string -> seq<string>): Parse
  {
    ParseNameWith(name, driverIn, opts, tokenize, OptionDriverNameAsWritten)
  }

  /** The name analysis, with driverOption giving the driver of the GPSBABEL_DRIVER branch. */
  function ParseNameWith(name: string, driverIn: string, opts: Options,
                         tokenize: string -> seq<string>, driverOption: Options -> string): Parse
  {
    if !StartsWithCI(name, GpsBabelPrefix) then
      Parse(Some(driverIn), Some(name), Ok(DefaultRequest(driverIn, name)))
    else
      var fileOpt := FetchNameValue(opts, "FILENAME");
      if FetchNameValue(opts, "GPSBABEL_DRIVER").Some? then
        if fileOpt.None? then Parse(None, None, Err(MissingFilename))
        else
          var d := driverOption(opts);
          if !ValidDriverName(d) then Parse(Some(d), fileOpt, Err(InvalidDriverName))
          else Parse(Some(d), fileOpt, Ok(DefaultRequest(d, fileOpt.value)))
      else ParseEmbedded(name[|GpsBabelPrefix|..], fileOpt, tokenize)
  }

  /** The <driver>:[features=...:]<file> part after the prefix. */
  function ParseEmbedded(rest: string, fileOpt: Option<string>, tokenize: string -> seq<string>): Parse {
    match FindChar(rest, ':')
    case None => Parse(None, fileOpt, Err(WrongSyntax))
    case Some(sep) =>
      var d := rest[..sep];
      if !ValidDriverName(d) then Parse(Some(d), fileOpt, Err(InvalidDriverName))
      else ParseAfterDriver(d, rest[sep + 1..], fileOpt, tokenize)
  }

  /** What follows a valid driver name and its ':': an optional features=<list>: and the file. */
  function ParseAfterDriver(d: string, afterSep: string, fileOpt: Option<string>, tokenize: string -> seq<string>): Parse {
    if !StartsWithCI(afterSep, FeaturesEqual) then
      var f := if fileOpt.Some? then fileOpt.value else afterSep;
      Parse(Some(d), Some(f), Ok(DefaultRequest(d, f)))
    else
      var afterEq := afterSep[|FeaturesEqual|..];
      match FindChar(afterEq, ':')
      case None => Parse(Some(d), fileOpt, Err(WrongSyntax))
      case Some(next) =>
        var tokens := tokenize(afterEq[..next]);
        if !AllKnownFeatures(tokens) then Parse(Some(d), fileOpt, Err(WrongFeaturesValue))
        else
          var f := if fileOpt.Some? then fileOpt.value else afterEq[next + 1..];
          Parse(Some(d), Some(f), Ok(Request(d, f, true, Mentions(tokens, "waypoints"),
                                             Mentions(tokens, "routes"), Mentions(tokens, "tracks"))))
  }

  /** The driver is the text before the first ':', and it is checked before anything else. */
  lemma EmbeddedDriverName(d: string, tail: string, fileOpt: Option<string>, tokenize: string -> seq<string>)
    requires ':' !in d
    ensures var p := ParseEmbedded(d + ":" + tail, fileOpt, tokenize);
      && p.driverName == Some(d)
      && (!ValidDriverName(d) ==> p.request == Err(InvalidDriverName))
      && (p.request.Ok? ==> p.request.value.driverName == d && ValidDriverName(d))
  {
    FindCharAfter(d, ':', tail);
    assert (d + ":" + tail)[..|d|] == d;
    assert (d + ":" + tail)[|d| + 1..] == tail;
  }

  /** A name with no ':' after the prefix is a syntax error. */
  lemma EmbeddedWithoutColon(rest: string, fileOpt: Option<string>, tokenize: string -> seq<string>)
    requires ':' !in rest
    ensures ParseEmbedded(rest, fileOpt, tokenize) == Parse(None, fileOpt, Err(WrongSyntax))
  {
  }

  /** Without features=, every category is converted and the file is the rest of the name. */
  lemma EmbeddedDefaultFeatures(d: string, tail: string, fileOpt: Option<string>, tokenize: string -> seq<string>)
    requires ':' !in d && ValidDriverName(d) && !StartsWithCI(tail, FeaturesEqual)
    ensures var f := if fileOpt.Some? then fileOpt.value else tail;
      ParseEmbedded(d + ":" + tail, fileOpt, tokenize) == Parse(Some(d), Some(f), Ok(Request(d, f, false, true, true, true)))
  {
    FindCharAfter(d, ':', tail);
    assert (d + ":" + tail)[..|d|] == d;
    assert (d + ":" + tail)[|d| + 1..] == tail;
  }

  /**
   * With features=<list>:, exactly the listed categories are converted, and any
   * token other than waypoints, tracks or routes is an error.
   */
  lemma EmbeddedExplicitFeatures(d: string, f: string, list: string, file: string,
                                 fileOpt: Option<string>, tokenize: string -> seq<string>)
    requires ':' !in d && ValidDriverName(d) && ':' !in list
    requires |f| == |FeaturesEqual| && EqualCI(f, FeaturesEqual)
    ensures var p := ParseEmbedded(d + ":" + f + list + ":" + file, fileOpt, tokenize);
      var tokens := tokenize(list);
      var fl := if fileOpt.Some? then fileOpt.value else file;
      && (AllKnownFeatures(tokens) ==>
           p == Parse(Some(d), Some(fl), Ok(Request(d, fl, true, Mentions(tokens, "waypoints"),
                                                    Mentions(tokens, "routes"), Mentions(tokens, "tracks")))))
      && (!AllKnownFeatures(tokens) ==> p == Parse(Some(d), fileOpt, Err(WrongFeaturesValue)))
  {
    var tail := f + (list + ":" + file);
    var s := d + ":" + f + list + ":" + file;
    assert s == d + ":" + tail;
    SplitAtColon(d, tail);
    assert ParseEmbedded(s, fileOpt, tokenize) == ParseAfterDriver(d, tail, fileOpt, tokenize);
    ExplicitFeaturesAfterDriver(d, f, list, file, fileOpt, tokenize);
  }

  /** The features=<list>:<file> part after the driver name. */
  lemma ExplicitFeaturesAfterDriver(d: string, f: string, list: string, file: string,
                                    fileOpt: Option<string>, tokenize: string -> seq<string>)
    requires ':' !in list && |f| == |FeaturesEqual| && EqualCI(f, FeaturesEqual)
    ensures var p := ParseAfterDriver(d, f + (list + ":" + file), fileOpt, tokenize);
      var tokens := tokenize(list);
      var fl := if fileOpt.Some? then fileOpt.value else file;
      && (AllKnownFeatures(tokens) ==>
           p == Parse(Some(d), Some(fl), Ok(Request(d, fl, true, Mentions(tokens, "waypoints"),
                                                    Mentions(tokens, "routes"), Mentions(tokens, "tracks")))))
      && (!AllKnownFeatures(tokens) ==> p == Parse(Some(d), fileOpt, Err(WrongFeaturesValue)))
  {
    var afterEq := list + ":" + file;
    var tail := f + afterEq;
    assert tail[..|FeaturesEqual|] == f && tail[|FeaturesEqual|..] == afterEq;
    SplitAtColon(list, file);
  }

  /** d:tail splits at the ':' after d when d holds none. */
  lemma SplitAtColon(d: string, tail: string)
    requires ':' !in d
    ensures var s := d + ":" + tail;
      FindChar(s, ':') == Some(|d|) && s[..|d|] == d && s[|d| + 1..] == tail
  {
    FindCharAfter(d, ':', tail);
    assert (d + ":" + tail)[..|d|] == d;
    assert (d + ":" + tail)[|d| + 1..] == tail;
  }

  /** Whatever the route, a prefixed name only yields a request whose driver passed the whitelist. */
  lemma PrefixedRequestHasValidDriver(name: string, driverIn: string, opts: Options, tokenize: string -> seq<string>)
    requires StartsWithCI(name, GpsBabelPrefix)
    ensures var p := ParseName(name, driverIn, opts, tokenize);
      p.request.Ok? ==> ValidDriverName(p.request.value.driverName)
  {
    var rest := name[|GpsBabelPrefix|..];
    if FetchNameValue(opts, "GPSBABEL_DRIVER").None? && ':' in rest {
      var k := FindChar(rest, ':').value;
      assert rest == rest[..k] + ":" + rest[k + 1..];
      assert ':' !in rest[..k];
      EmbeddedDriverName(rest[..k], rest[k + 1..], FetchNameValue(opts, "FILENAME"), tokenize);
    }
  }

  /** A request always records its driver name and file name on the data source. */
  lemma RequestIsRecorded(name: string, driverIn: string, opts: Options, tokenize: string -> seq<string>)
    ensures Recorded(ParseName(name, driverIn, opts, tokenize))
  {
    if StartsWithCI(name, GpsBabelPrefix) && FetchNameValue(opts, "GPSBABEL_DRIVER").None? {
      var rest, fileOpt := name[|GpsBabelPrefix|..], FetchNameValue(opts, "FILENAME");
      match FindChar(rest, ':')
      case None =>
      case Some(sep) => AfterDriverRecorded(rest[..sep], rest[sep + 1..], fileOpt, tokenize);
    }
  }

  /** A request's driver name and file name are the ones the analysis records. */
  predicate Recorded(p: Parse) {
    p.request.Ok? ==> p.driverName == Some(p.request.value.driverName) && p.filename == Some(p.request.value.filename)
  }

  lemma AfterDriverRecorded(d: string, afterSep: string, fileOpt: Option<string>, tokenize: string -> seq<string>)
    ensures Recorded(ParseAfterDriver(d, afterSep, fileOpt, tokenize))
  {
    if StartsWithCI(afterSep, FeaturesEqual) {
      var afterEq := afterSep[|FeaturesEqual|..];
      match FindChar(afterEq, ':')
      case None =>
      case Some(next) =>
    }
  }

  /** A FILENAME open option on a prefixed name overrides the file written in the name. */
  lemma FilenameOptionWins(name: string, driverIn: string, opts: Options, tokenize: string -> seq<string>)
    requires StartsWithCI(name, GpsBabelPrefix) && FetchNameValue(opts, "FILENAME").Some?
    ensures var p := ParseName(name, driverIn, opts, tokenize);
      p.request.Ok? ==> p.request.value.filename == FetchNameValue(opts, "FILENAME").value
  {
  }

  /** A GPSBABEL_DRIVER open option needs a FILENAME option, and names the driver itself. */
  lemma DriverOption(name: string, driverIn: string, opts: Options, tokenize: string -> seq<string>)
    requires StartsWithCI(name, GpsBabelPrefix) && FetchNameValue(opts, "GPSBABEL_DRIVER").Some?
    ensures var p := ParseName(name, driverIn, opts, tokenize);
      var d := FetchNameValue(opts, "GPSBABEL_DRIVER").value;
      && (FetchNameValue(opts, "FILENAME").None? ==> p.request == Err(MissingFilename))
      && (FetchNameValue(opts, "FILENAME").Some? ==>
            p.driverName == Some(d) &&
            (p.request.Ok? <==> ValidDriverName(d)) &&
            (p.request.Ok? ==> p.request.value == DefaultRequest(d, FetchNameValue(opts, "FILENAME").value)))
  {
  }

  /** An ordinary name is converted with the caller's driver and every category. */
  lemma PlainName(name: string, driverIn: string, opts: Options, tokenize: string -> seq<string>)
    requires !StartsWithCI(name, GpsBabelPrefix)
    ensures var p := ParseName(name, driverIn, opts, tokenize);
      p.request.Ok? && p.request.value == Request(driverIn, name, false, true, true, true)
  {
  }

  // ---------------------------------------------------------------------------
  // Running the converter
  // ---------------------------------------------------------------------------

  /** One converter invocation: its argument vector, and whether the source file is its stdin. */
  datatype Attempt = Attempt(argv: seq<string>, stdinFromSource: bool)

  /** What CPLSpawn reports: the exit status and the last error message. */
  datatype SpawnResult = SpawnResult(exitStatus: int, lastErrorMessage: string)

  /**
   * The environment of one Open: the USE_TEMPFILE configuration value, the two
   * temporary names the generators would return, VSIFOpenL(path, "rb") and VSIStat
   * success, the converter, and the GPX reader applied to the temporary file
   * (layer name to feature count, None when the file cannot be opened).
   */
  datatype Env = Env(useTempFile: Option<string>, persistentTempName: string, hiddenTempName: string,
                     canOpen: string -> bool, stat: string -> bool,
                     spawn: Attempt -> SpawnResult,
                     readOutput: Attempt -> Option<map<string, int>>)

  function TempFileName(env: Env): string {
    if env.useTempFile.Some? && TestBool(env.useTempFile.value) then env.persistentTempName
    else env.hiddenTempName
  }

  /** The direct invocation: the converter opens the path itself. */
  function DirectAttempt(req: Request): Attempt {
    Attempt(GetArgv(req.explicitFeatures, req.waypoints, req.routes, req.tracks, req.driverName, req.filename), false)
  }

  /** The piped invocation: the opened source file is the converter's stdin. */
  function PipedAttempt(req: Request): Attempt {
    Attempt(GetArgv(req.explicitFeatures, req.waypoints, req.routes, req.tracks, req.driverName, StdStream), true)
  }

  datatype ConversionResult = Converted(attempt: Attempt) | SourceUnreadable | ConverterFailed(message: string) | RealFileRequired

  /** The invocations issued, in order, and how the conversion ended. */
  datatype Conversion = Conversion(spawns: seq<Attempt>, result: ConversionResult)

  function Convert(req: Request, env: Env): Conversion {
    var direct := DirectAttempt(req);
    if IsSpecialFile(req.filename) then
      var r := env.spawn(direct);
      Conversion([direct], if r.exitStatus == 0 then Converted(direct) else ConverterFailed(r.lastErrorMessage))
    else if !env.canOpen(req.filename) then
      Conversion([], SourceUnreadable)
    else
      var piped := PipedAttempt(req);
      var r := env.spawn(piped);
      if r.exitStatus == 0 then Conversion([piped], Converted(piped))
      else if !Contains(r.lastErrorMessage, PipedMarker) then Conversion([piped], ConverterFailed(r.lastErrorMessage))
      else if !env.stat(req.filename) then Conversion([piped], RealFileRequired)
      else
        var r2 := env.spawn(direct);
        Conversion([piped, direct], if r2.exitStatus == 0 then Converted(direct) else ConverterFailed(r2.lastErrorMessage))
  }

  /** The two invocations differ only in the input token: the path itself, or "-" for stdin. */
  lemma AttemptsDifferOnlyInInput(req: Request)
    ensures var d, p := DirectAttempt(req).argv, PipedAttempt(req).argv;
      && |d| == |p| && d[|d| - 5] == req.filename && p[|p| - 5] == StdStream
      && forall i :: 0 <= i < |d| && i != |d| - 5 ==> d[i] == p[i]
  {
    var d, p := DirectAttempt(req).argv, PipedAttempt(req).argv;
    assert d[1..|d| - 8] == p[1..|p| - 8];
    assert d[|d| - 8..] == ["-i", req.driverName, "-f", req.filename, "-o", OutputFormat, "-F", StdStream];
    assert p[|p| - 8..] == ["-i", req.driverName, "-f", StdStream, "-o", OutputFormat, "-F", StdStream];
    forall i | 0 <= i < |d| && i != |d| - 5 ensures d[i] == p[i] {
      if i == 0 {
      } else if i < |d| - 8 {
        assert d[i] == d[1..|d| - 8][i - 1] && p[i] == p[1..|p| - 8][i - 1];
      } else {
        assert d[i] == d[|d| - 8..][i - (|d| - 8)] && p[i] == p[|p| - 8..][i - (|p| - 8)];
      }
    }
    assert d[|d| - 5] == d[|d| - 8..][3];
    assert p[|p| - 5] == p[|p| - 8..][3];
  }

  /** At most two invocations, each direct or piped; a produced output comes from the last one. */
  lemma ConvertShape(req: Request, env: Env)
    ensures var c := Convert(req, env);
      && |c.spawns| <= 2
      && (forall i :: 0 <= i < |c.spawns| ==> c.spawns[i] in [DirectAttempt(req), PipedAttempt(req)])
      && (c.result.Converted? ==> c.spawns != [] && c.result.attempt == c.spawns[|c.spawns| - 1])
      && (c.result.SourceUnreadable? <==> c.spawns == [])
  {
  }

  /** A device path is handed to the converter directly, exactly once. */
  lemma SpecialFileConvertedDirectly(req: Request, env: Env)
    requires IsSpecialFile(req.filename)
    ensures Convert(req, env).spawns == [DirectAttempt(req)]
    ensures Convert(req, env).result.Converted? <==> env.spawn(DirectAttempt(req)).exitStatus == 0
  {
  }

  /** A regular file that cannot be opened for reading starts no converter. */
  lemma UnreadableSourceNoSpawn(req: Request, env: Env)
    requires !IsSpecialFile(req.filename) && !env.canOpen(req.filename)
    ensures Convert(req, env) == Conversion([], SourceUnreadable)
  {
  }

  /** A readable regular file is always piped first. */
  lemma RegularFilePipedFirst(req: Request, env: Env)
    requires !IsSpecialFile(req.filename) && env.canOpen(req.filename)
    ensures var c := Convert(req, env); c.spawns != [] && c.spawns[0] == PipedAttempt(req)
  {
  }

  /**
   * The converter is run a second time exactly when the piped run failed with the
   * piping marker and the path is a real file; the second run is the direct one.
   */
  lemma RetryExactlyWhen(req: Request, env: Env)
    ensures var c := Convert(req, env);
      var first := env.spawn(PipedAttempt(req));
      |c.spawns| == 2 <==>
        && !IsSpecialFile(req.filename) && env.canOpen(req.filename)
        && first.exitStatus != 0 && Contains(first.lastErrorMessage, PipedMarker) && env.stat(req.filename)
    ensures |Convert(req, env).spawns| == 2 ==>
      Convert(req, env).spawns == [PipedAttempt(req), DirectAttempt(req)]
  {
  }

  /** The marker on a path that is not a real file ends the conversion with nothing produced. */
  lemma MarkerOnVirtualFile(req: Request, env: Env)
    requires !IsSpecialFile(req.filename) && env.canOpen(req.filename)
    requires env.spawn(PipedAttempt(req)).exitStatus != 0
    requires Contains(env.spawn(PipedAttempt(req)).lastErrorMessage, PipedMarker) && !env.stat(req.filename)
    ensures Convert(req, env) == Conversion([PipedAttempt(req)], RealFileRequired)
  {
  }

  /** A piped failure without the marker is reported with the converter's message, without retry. */
  lemma PipedFailureWithoutMarker(req: Request, env: Env)
    requires !IsSpecialFile(req.filename) && env.canOpen(req.filename)
    requires env.spawn(PipedAttempt(req)).exitStatus != 0
    requires !Contains(env.spawn(PipedAttempt(req)).lastErrorMessage, PipedMarker)
    ensures Convert(req, env) ==
      Conversion([PipedAttempt(req)], ConverterFailed(env.spawn(PipedAttempt(req)).lastErrorMessage))
  {
  }

  // ---------------------------------------------------------------------------
  // Layer selection
  // ---------------------------------------------------------------------------

  /** A layer of the converted output: its name and feature count. */
  datatype Layer = Layer(name: string, featureCount: int)

  /** The layers Open looks for, in the order it looks. */
  const LayerNames: seq<string> := ["waypoints", "routes", "route_points", "tracks", "track_points"]

  /** Whether a layer's category was requested. */
  predicate Requested(waypoints: bool, routes: bool, tracks: bool, layerName: string) {
    (layerName == "waypoints" && waypoints) ||
    ((layerName == "routes" || layerName == "route_points") && routes) ||
    ((layerName == "tracks" || layerName == "track_points") && tracks)
  }

  /** The position of a layer name in LayerNames. */
  function LayerRank(layerName: string): nat {
    if layerName == "waypoints" then 0
    else if layerName == "routes" then 1
    else if layerName == "route_points" then 2
    else if layerName == "tracks" then 3
    else 4
  }

  function Pick(counts: map<string, int>, layerName: string): seq<Layer> {
    if layerName in counts && counts[layerName] != 0 then [Layer(layerName, counts[layerName])] else []
  }

  function WaypointLayers(waypoints: bool, counts: map<string, int>): seq<Layer> {
    if waypoints then Pick(counts, "waypoints") else []
  }

  function RouteLayers(routes: bool, counts: map<string, int>): seq<Layer> {
    if routes then Pick(counts, "routes") + Pick(counts, "route_points") else []
  }

  function TrackLayers(tracks: bool, counts: map<string, int>): seq<Layer> {
    if tracks then Pick(counts, "tracks") + Pick(counts, "track_points") else []
  }

  /** The layers Open keeps, category by category, in the order it tests them. */
  function SelectLayers(waypoints: bool, routes: bool, tracks: bool, counts: map<string, int>): seq<Layer> {
    WaypointLayers(waypoints, counts) + RouteLayers(routes, counts) + TrackLayers(tracks, counts)
  }

  /** The three category groups SelectLayers concatenates, and their sizes. */
  lemma SelectLayersParts(waypoints: bool, routes: bool, tracks: bool, counts: map<string, int>)
    ensures var w := if waypoints then Pick(counts, "waypoints") else [];
            var r := if routes then Pick(counts, "routes") + Pick(counts, "route_points") else [];
            var t := if tracks then Pick(counts, "tracks") + Pick(counts, "track_points") else [];
            SelectLayers(waypoints, routes, tracks, counts) == w + r + t && |w| <= 1 && |r| <= 2 && |t| <= 2
  {
  }

  /** At most five layers are kept. */
  lemma SelectLayersBound(waypoints: bool, routes: bool, tracks: bool, counts: map<string, int>)
    ensures |SelectLayers(waypoints, routes, tracks, counts)| <= 5
  {
    SelectLayersParts(waypoints, routes, tracks, counts);
  }

  /** Every kept layer was requested, exists and is not empty. */
  lemma SelectLayersSound(waypoints: bool, routes: bool, tracks: bool, counts: map<string, int>)
    ensures AllKept(waypoints, routes, tracks, counts, SelectLayers(waypoints, routes, tracks, counts))
  {
    var w, r, t := WaypointLayers(waypoints, counts), RouteLayers(routes, counts), TrackLayers(tracks, counts);
    if waypoints {
      PickKept(waypoints, routes, tracks, counts, "waypoints");
    }
    if routes {
      PickKept(waypoints, routes, tracks, counts, "routes");
      PickKept(waypoints, routes, tracks, counts, "route_points");
      AllKeptConcat(waypoints, routes, tracks, counts, Pick(counts, "routes"), Pick(counts, "route_points"));
    }
    if tracks {
      PickKept(waypoints, routes, tracks, counts, "tracks");
      PickKept(waypoints, routes, tracks, counts, "track_points");
      AllKeptConcat(waypoints, routes, tracks, counts, Pick(counts, "tracks"), Pick(counts, "track_points"));
    }
    AllKeptConcat(waypoints, routes, tracks, counts, w, r);
    AllKeptConcat(waypoints, routes, tracks, counts, w + r, t);
  }

  /** A layer SelectLayers may keep: a known, requested, existing, non-empty one. */
  predicate Kept(waypoints: bool, routes: bool, tracks: bool, counts: map<string, int>, l: Layer) {
    && l.name in LayerNames
    && Requested(waypoints, routes, tracks, l.name)
    && l.name in counts
    && l.featureCount == counts[l.name] != 0
  }

  predicate AllKept(waypoints: bool, routes: bool, tracks: bool, counts: map<string, int>, ls: seq<Layer>) {
    forall i :: 0 <= i < |ls| ==> Kept(waypoints, routes, tracks, counts, ls[i])
  }

  lemma PickKept(waypoints: bool, routes: bool, tracks: bool, counts: map<string, int>, layerName: string)
    requires layerName in LayerNames && Requested(waypoints, routes, tracks, layerName)
    ensures AllKept(waypoints, routes, tracks, counts, Pick(counts, layerName))
  {
  }

  lemma AllKeptConcat(waypoints: bool, routes: bool, tracks: bool, counts: map<string, int>, a: seq<Layer>, b: seq<Layer>)
    requires AllKept(waypoints, routes, tracks, counts, a) && AllKept(waypoints, routes, tracks, counts, b)
    ensures AllKept(waypoints, routes, tracks, counts, a + b)
  {
    forall i | 0 <= i < |a + b| ensures Kept(waypoints, routes, tracks, counts, (a + b)[i]) {
      if i < |a| {
        assert (a + b)[i] == a[i];
      } else {
        assert (a + b)[i] == b[i - |a|];
      }
    }
  }

  /** Every requested, existing, non-empty layer is kept. */
  lemma SelectLayersComplete(waypoints: bool, routes: bool, tracks: bool, counts: map<string, int>, k: int)
    requires 0 <= k < |LayerNames|
    requires Requested(waypoints, routes, tracks, LayerNames[k]) && LayerNames[k] in counts && counts[LayerNames[k]] != 0
    ensures Layer(LayerNames[k], counts[LayerNames[k]]) in SelectLayers(waypoints, routes, tracks, counts)
  {
    SelectLayersParts(waypoints, routes, tracks, counts);
  }

  predicate RankOrdered(layers: seq<Layer>) {
    forall i, j :: 0 <= i < j < |layers| ==> LayerRank(layers[i].name) < LayerRank(layers[j].name)
  }

  lemma RankOrderedAppend(a: seq<Layer>, b: seq<Layer>, bound: nat)
    requires RankOrdered(a) && RankOrdered(b)
    requires forall i :: 0 <= i < |a| ==> LayerRank(a[i].name) < bound
    requires forall j :: 0 <= j < |b| ==> bound <= LayerRank(b[j].name)
    ensures RankOrdered(a + b)
  {
    forall i, j | 0 <= i < j < |a + b| ensures LayerRank((a + b)[i].name) < LayerRank((a + b)[j].name) {
      if j < |a| {
        assert (a + b)[i] == a[i] && (a + b)[j] == a[j];
      } else if i >= |a| {
        assert (a + b)[i] == b[i - |a|] && (a + b)[j] == b[j - |a|];
      } else {
        assert (a + b)[i] == a[i] && (a + b)[j] == b[j - |a|];
      }
    }
  }

  /** A picked layer is at most one layer, carrying the rank of its name. */
  lemma PickRanked(counts: map<string, int>, layerName: string)
    ensures var p := Pick(counts, layerName);
      |p| <= 1 && RankOrdered(p) && forall i :: 0 <= i < |p| ==> LayerRank(p[i].name) == LayerRank(layerName)
  {
  }

  /** The routes group is ordered and holds ranks 1 and 2 only. */
  lemma RouteLayersRanked(routes: bool, counts: map<string, int>)
    ensures var r := RouteLayers(routes, counts);
      RankOrdered(r) && forall i :: 0 <= i < |r| ==> 1 <= LayerRank(r[i].name) <= 2
  {
    if routes {
      PickRanked(counts, "routes");
      PickRanked(counts, "route_points");
      RankOrderedAppend(Pick(counts, "routes"), Pick(counts, "route_points"), 2);
    }
  }

  /** The tracks group is ordered and holds ranks 3 and 4 only. */
  lemma TrackLayersRanked(tracks: bool, counts: map<string, int>)
    ensures var t := TrackLayers(tracks, counts);
      RankOrdered(t) && forall i :: 0 <= i < |t| ==> 3 <= LayerRank(t[i].name)
  {
    if tracks {
      PickRanked(counts, "tracks");
      PickRanked(counts, "track_points");
      RankOrderedAppend(Pick(counts, "tracks"), Pick(counts, "track_points"), 4);
    }
  }

  /** Three ordered groups whose ranks increase from group to group concatenate to an ordered sequence. */
  lemma RankedGroupsOrdered(w: seq<Layer>, r: seq<Layer>, t: seq<Layer>)
    requires RankOrdered(w) && RankOrdered(r) && RankOrdered(t)
    requires forall i :: 0 <= i < |w| ==> LayerRank(w[i].name) < 1
    requires forall i :: 0 <= i < |r| ==> 1 <= LayerRank(r[i].name) <= 2
    requires forall i :: 0 <= i < |t| ==> 3 <= LayerRank(t[i].name)
    ensures RankOrdered(w + r + t)
  {
    RankOrderedAppend(w, r, 1);
    assert forall i :: 0 <= i < |w + r| ==> LayerRank((w + r)[i].name) < 3 by {
      forall i | 0 <= i < |w + r| ensures LayerRank((w + r)[i].name) < 3 {
        if i < |w| { assert (w + r)[i] == w[i]; } else { assert (w + r)[i] == r[i - |w|]; }
      }
    }
    RankOrderedAppend(w + r, t, 3);
  }

  /** Kept layers appear in the order waypoints, routes, route_points, tracks, track_points. */
  lemma SelectLayersOrdered(waypoints: bool, routes: bool, tracks: bool, counts: map<string, int>)
    ensures RankOrdered(SelectLayers(waypoints, routes, tracks, counts))
  {
    var w, r, t := WaypointLayers(waypoints, counts), RouteLayers(routes, counts), TrackLayers(tracks, counts);
    PickRanked(counts, "waypoints");
    RouteLayersRanked(routes, counts);
    TrackLayersRanked(tracks, counts);
    RankedGroupsOrdered(w, r, t);
  }

  /** Requesting only tracks yields at most the two track layers, whatever else the output holds. */
  lemma TracksOnlySelection(counts: map<string, int>)
    ensures var layers := SelectLayers(false, false, true, counts);
      |layers| <= 2 && forall i :: 0 <= i < |layers| ==> layers[i].name in ["tracks", "track_points"]
  {
  }

  // ---------------------------------------------------------------------------
  // The whole of Open
  // ---------------------------------------------------------------------------

  /** The state Open leaves behind: recorded names, temporary file, invocations issued, layers. */
  datatype OpenOutcome = OpenOutcome(driverName: Option<string>, filename: Option<string>, tmpFileName: string,
                                     spawns: seq<Attempt>, outputOpened: bool, layers: seq<Layer>)

  function OpenSpec(name: string, driverIn: string, opts: Options, tokenize: string -> seq<string>, env: Env): OpenOutcome {
    OpenFrom(ParseName(name, driverIn, opts, tokenize), env)
  }

  /** Open as written, with the DRIVER lookup in its GPSBABEL_DRIVER branch. */
  function OpenSpecAsWritten(name: string, driverIn: string, opts: Options, tokenize: string -> seq<string>,
                             env: Env): OpenOutcome
  {
    OpenFrom(ParseNameAsWritten(name, driverIn, opts, tokenize), env)
  }

  /** What Open does once the name is analysed. */
  function OpenFrom(p: Parse, env: Env): OpenOutcome {
    match p.request
    case Err(_) => OpenOutcome(p.driverName, p.filename, "", [], false, [])
    case Ok(req) =>
      var c := Convert(req, env);
      OpenOutcome(p.driverName, p.filename, TempFileName(env), c.spawns,
                  c.result.Converted? && env.readOutput(c.result.attempt).Some?,
                  LayersOf(req, c, env))
  }

  /** The layers kept from a conversion: none unless it produced a readable output. */
  function LayersOf(req: Request, c: Conversion, env: Env): seq<Layer> {
    if c.result.Converted? && env.readOutput(c.result.attempt).Some? then
      SelectLayers(req.waypoints, req.routes, req.tracks, env.readOutput(c.result.attempt).value)
    else []
  }

  /** A name that fails analysis leaves no temporary file, starts no converter and keeps no layer. */
  lemma RejectedNameDoesNothing(name: string, driverIn: string, opts: Options, tokenize: string -> seq<string>, env: Env)
    requires ParseName(name, driverIn, opts, tokenize).request.Err?
    ensures var o := OpenSpec(name, driverIn, opts, tokenize, env);
      o.tmpFileName == "" && o.spawns == [] && !o.outputOpened && o.layers == []
  {
  }

  /** No converter is started on a GPSBABEL: name with a driver outside the whitelist. */
  lemma SpawnedDriverIsWhitelisted(name: string, driverIn: string, opts: Options, tokenize: string -> seq<string>, env: Env)
    requires StartsWithCI(name, GpsBabelPrefix)
    ensures var o := OpenSpec(name, driverIn, opts, tokenize, env);
      forall i :: 0 <= i < |o.spawns| ==> |o.spawns[i].argv| >= 7 && ValidDriverName(o.spawns[i].argv[|o.spawns[i].argv| - 7])
  {
    var p := ParseName(name, driverIn, opts, tokenize);
    PrefixedRequestHasValidDriver(name, driverIn, opts, tokenize);
    if p.request.Ok? {
      var req := p.request.value;
      ConvertShape(req, env);
      AttemptDriver(req);
    }
  }

  /** Both invocations name the request's driver after -i, seven tokens from the end. */
  lemma AttemptDriver(req: Request)
    ensures var d := DirectAttempt(req).argv; |d| >= 7 && d[|d| - 7] == req.driverName
    ensures var pa := PipedAttempt(req).argv; |pa| >= 7 && pa[|pa| - 7] == req.driverName
  {
    var d, pa := DirectAttempt(req).argv, PipedAttempt(req).argv;
    assert d[|d| - 8..][1] == req.driverName && pa[|pa| - 8..][1] == req.driverName;
  }

  /** Layers are kept only from an opened output of a successful conversion, and only valid ones. */
  lemma KeptLayersComeFromOutput(name: string, driverIn: string, opts: Options, tokenize: string -> seq<string>, env: Env)
    ensures var o := OpenSpec(name, driverIn, opts, tokenize, env);
      && |o.layers| <= 5
      && (o.layers != [] ==> o.outputOpened && o.spawns != [])
      && (forall i :: 0 <= i < |o.layers| ==> o.layers[i].name in LayerNames && o.layers[i].featureCount != 0)
      && RankOrdered(o.layers)
  {
    var p := ParseName(name, driverIn, opts, tokenize);
    if p.request.Ok? {
      var req := p.request.value;
      var c := Convert(req, env);
      ConvertShape(req, env);
      if c.result.Converted? && env.readOutput(c.result.attempt).Some? {
        var counts := env.readOutput(c.result.attempt).value;
        SelectLayersBound(req.waypoints, req.routes, req.tracks, counts);
        SelectLayersSound(req.waypoints, req.routes, req.tracks, counts);
        SelectLayersOrdered(req.waypoints, req.routes, req.tracks, counts);
      }
    }
  }

  /** Without open options, a prefixed name is analysed from the text after the prefix. */
  lemma PrefixedNameWithoutOptions(rest: string, driverIn: string, tokenize: string -> seq<string>)
    ensures ParseName(GpsBabelPrefix + rest, driverIn, [], tokenize) == ParseEmbedded(rest, None, tokenize)
  {
    var name := GpsBabelPrefix + rest;
    assert name[..|GpsBabelPrefix|] == GpsBabelPrefix;
    assert name[|GpsBabelPrefix|..] == rest;
    assert !HasKey([], "FILENAME") && !HasKey([], "GPSBABEL_DRIVER");
  }

  /** The name GPSBABEL:garmin:features=waypoints:/tmp/track.gdb, in its parts. */
  const GarminName := GpsBabelPrefix + "garmin" + ":" + FeaturesEqual + "waypoints" + ":" + "/tmp/track.gdb"

  const GarminRequest := Request("garmin", "/tmp/track.gdb", true, true, false, false)

  /** The facts about the parts of GarminName the analysis relies on. */
  lemma GarminNameParts()
    ensures ':' !in "garmin" && ValidDriverName("garmin") && ':' !in "waypoints"
    ensures EqualCI(FeaturesEqual, FeaturesEqual)
    ensures AllKnownFeatures(["waypoints"]) && Mentions(["waypoints"], "waypoints")
    ensures !Mentions(["waypoints"], "routes") && !Mentions(["waypoints"], "tracks")
  {
    assert ["waypoints"][0] == "waypoints" && EqualCI("waypoints", "waypoints");
  }

  /** The request of GPSBABEL:garmin:features=waypoints:/tmp/track.gdb. */
  lemma GarminWaypointsRequest(tokenize: string -> seq<string>)
    requires tokenize("waypoints") == ["waypoints"]
    ensures ParseName(GarminName, "", [], tokenize) == Parse(Some("garmin"), Some("/tmp/track.gdb"), Ok(GarminRequest))
  {
    var rest := "garmin" + ":" + FeaturesEqual + "waypoints" + ":" + "/tmp/track.gdb";
    assert GarminName == GpsBabelPrefix + rest;
    PrefixedNameWithoutOptions(rest, "", tokenize);
    GarminNameParts();
    EmbeddedExplicitFeatures("garmin", FeaturesEqual, "waypoints", "/tmp/track.gdb", None, tokenize);
  }

  /** The piped run succeeds: one invocation, and the non-empty waypoints layer is kept. */
  lemma GarminWaypointsPiped(tokenize: string -> seq<string>, env: Env)
    requires tokenize("waypoints") == ["waypoints"]
    requires var piped := PipedAttempt(GarminRequest);
      && env.canOpen("/tmp/track.gdb") && env.spawn(piped).exitStatus == 0
      && env.readOutput(piped) == Some(map["waypoints" := 12, "tracks" := 3])
    ensures var req := GarminRequest;
      var o := OpenSpec(GarminName, "", [], tokenize, env);
      o.spawns == [PipedAttempt(req)] && o.outputOpened && o.layers == [Layer("waypoints", 12)]
  {
    GarminWaypointsRequest(tokenize);
    RegularFileExamples();
  }

  /** The piped run reports the piping marker on a real file: the direct run follows and is used. */
  lemma GarminWaypointsRetried(tokenize: string -> seq<string>, env: Env)
    requires tokenize("waypoints") == ["waypoints"]
    requires var req := GarminRequest;
      && env.canOpen("/tmp/track.gdb") && env.stat("/tmp/track.gdb")
      && env.spawn(PipedAttempt(req)) == SpawnResult(1, PipedMarker)
      && env.spawn(DirectAttempt(req)).exitStatus == 0
      && env.readOutput(DirectAttempt(req)) == Some(map["waypoints" := 12])
    ensures var req := GarminRequest;
      var o := OpenSpec(GarminName, "", [], tokenize, env);
      o.spawns == [PipedAttempt(req), DirectAttempt(req)] && o.outputOpened && o.layers == [Layer("waypoints", 12)]
  {
    GarminWaypointsRequest(tokenize);
    RegularFileExamples();
    assert OccursAt(PipedMarker, PipedMarker, 0);
  }

  /**
   * Opening GPSBABEL:x with FILENAME=/tmp/track.gdb and GPSBABEL_DRIVER=garmin:
   * the code as written records the driver "" and runs the converter with -i "",
   * where the corrected lookup runs it with -i garmin.
   */
  lemma AsWrittenOpenSpawnsEmptyDriver(driverIn: string, tokenize: string -> seq<string>, env: Env)
    requires env.canOpen("/tmp/track.gdb")
    ensures var opts := [("FILENAME", "/tmp/track.gdb"), ("GPSBABEL_DRIVER", "garmin")];
      var o := OpenSpecAsWritten(GpsBabelPrefix + "x", driverIn, opts, tokenize, env);
      var c := OpenSpec(GpsBabelPrefix + "x", driverIn, opts, tokenize, env);
      && o.driverName == Some("") && o.filename == Some("/tmp/track.gdb")
      && o.spawns != [] && |o.spawns[0].argv| >= 7 && o.spawns[0].argv[|o.spawns[0].argv| - 7] == ""
      && c.driverName == Some("garmin")
      && c.spawns != [] && |c.spawns[0].argv| >= 7 && c.spawns[0].argv[|c.spawns[0].argv| - 7] == "garmin"
  {
    var opts := [("FILENAME", "/tmp/track.gdb"), ("GPSBABEL_DRIVER", "garmin")];
    var name := GpsBabelPrefix + "x";
    DriverOptionFinding();
    assert EqualCI(name[..|GpsBabelPrefix|], GpsBabelPrefix) by {
      assert name[..|GpsBabelPrefix|] == GpsBabelPrefix;
    }
    assert EqualCI(opts[0].0, "FILENAME");
    assert FetchNameValue(opts, "FILENAME") == Some("/tmp/track.gdb");
    assert FetchNameValue(opts, "GPSBABEL_DRIVER").Some?;
    GarminNameParts();
    RegularFileExamples();
    var asWritten, corrected := DefaultRequest("", "/tmp/track.gdb"), DefaultRequest("garmin", "/tmp/track.gdb");
    assert ParseNameAsWritten(name, driverIn, opts, tokenize).request == Ok(asWritten);
    assert ParseName(name, driverIn, opts, tokenize).request == Ok(corrected);
    RegularFilePipedFirst(asWritten, env);
    RegularFilePipedFirst(corrected, env);
    AttemptDriver(asWritten);
    AttemptDriver(corrected);
  }

  /** An OGR data source backed by the converter's GPX output. */
  class GpsBabelDataSource {
    var driverName: Option<string>
    var filename: Option<string>
    var tmpFileName: string
    /** Whether the GPX data set of the temporary file is open. */
    var outputOpened: bool
    var layers: seq<Layer>
    var nLayers: int
    /** The converter invocations issued so far. */
    ghost var spawns: seq<Attempt>

    ghost predicate Valid()
      reads this
    {
      0 <= nLayers == |layers| <= 5
    }

    ghost predicate Initial()
      reads this
    {
      driverName.None? && filename.None? && tmpFileName == "" && !outputOpened &&
      layers == [] && nLayers == 0 && spawns == []
    }

    constructor ()
      ensures Valid() && Initial()
    {
      driverName, filename, tmpFileName := None, None, "";
      outputOpened := false;
      layers, nLayers := [], 0;
      spawns := [];
    }

    /** Keep a layer when it exists and is not empty (one of the five apoLayers[nLayers++] steps). */
    method AddLayerIfNonEmpty(counts: map<string, int>, layerName: string)
      requires 0 <= nLayers == |layers| < 5
      modifies this`layers, this`nLayers
      ensures layers == old(layers) + Pick(counts, layerName) && nLayers == |layers|
    {
      if layerName in counts && counts[layerName] != 0 {
        layers := layers + [Layer(layerName, counts[layerName])];
        nLayers := nLayers + 1;
      }
    }

    /**
     * The name analysis of Open: records the driver name and the file name, and
     * returns the request, or nothing where Open returns FALSE.
     */
    method AnalyseName(name: string, driverIn: string, opts: Options, tokenize: string -> seq<string>)
      returns (req: Option<Request>)
      requires driverName.None? && filename.None?
      modifies this`driverName, this`filename
      ensures var p := ParseName(name, driverIn, opts, tokenize);
        && driverName == p.driverName && filename == p.filename
        && req == (if p.request.Ok? then Some(p.request.value) else None)
    {
      if !StartsWithCI(name, GpsBabelPrefix) {
        driverName := Some(driverIn);
        filename := Some(name);
      } else {
        var fileOpt := FetchNameValue(opts, "FILENAME");
        if fileOpt.Some? {
          filename := fileOpt;
        }
        if FetchNameValue(opts, "GPSBABEL_DRIVER").Some? {
          if filename.None? {
            return None;
          }
          var d := OptionDriverName(opts);
          driverName := Some(d);
          var valid := IsValidDriverName(d);
          if !valid {
            return None;
          }
        }
      }

      var explicitFeatures, waypoints, tracks, routes := false, true, true, true;
      if driverName.None? {
        req := AnalyseEmbeddedName(name[|GpsBabelPrefix|..], tokenize);
        return;
      }
      return Some(Request(driverName.value, filename.value, explicitFeatures, waypoints, routes, tracks));
    }

    /** The <driver>:[features=...:]<file> part of a GPSBABEL: name. */
    method AnalyseEmbeddedName(rest: string, tokenize: string -> seq<string>) returns (req: Option<Request>)
      requires driverName.None?
      modifies this`driverName, this`filename
      ensures var p := ParseEmbedded(rest, old(filename), tokenize);
        && driverName == p.driverName && filename == p.filename
        && req == (if p.request.Ok? then Some(p.request.value) else None)
    {
      var sep := FindChar(rest, ':');
      if sep.None? {
        return None;
      }
      var d := rest[..sep.value];
      ghost var p := ParseEmbedded(rest, filename, tokenize);
      driverName := Some(d);
      var valid := IsValidDriverName(d);
      if !valid {
        assert p == Parse(Some(d), old(filename), Err(InvalidDriverName));
        return None;
      }
      assert p == ParseAfterDriver(d, rest[sep.value + 1..], old(filename), tokenize);
      req := AnalyseAfterDriver(d, rest[sep.value + 1..], tokenize);
    }

    /** The part after the driver name: features=<list>: if present, then the file name. */
    method AnalyseAfterDriver(d: string, afterSep: string, tokenize: string -> seq<string>) returns (req: Option<Request>)
      modifies this`filename
      ensures var p := ParseAfterDriver(d, afterSep, old(filename), tokenize);
        && filename == p.filename
        && req == (if p.request.Ok? then Some(p.request.value) else None)
    {
      var explicitFeatures, waypoints, tracks, routes := false, true, true, true;
      var file := afterSep;
      if StartsWithCI(afterSep, FeaturesEqual) {
        var ok;
        explicitFeatures := true;
        ok, waypoints, tracks, routes, file := AnalyseFeatures(afterSep[|FeaturesEqual|..], tokenize);
        if !ok {
          return None;
        }
      }
      if filename.None? {
        filename := Some(file);
      }
      return Some(Request(d, filename.value, explicitFeatures, waypoints, routes, tracks));
    }

    /** The <list>:<file> after features=: the categories listed, and the file after the list. */
    static method AnalyseFeatures(afterEq: string, tokenize: string -> seq<string>)
      returns (ok: bool, waypoints: bool, tracks: bool, routes: bool, file: string)
      ensures var next := FindChar(afterEq, ':');
        ok <==> next.Some? && AllKnownFeatures(tokenize(afterEq[..next.value]))
      ensures var next := FindChar(afterEq, ':');
        ok ==> var tokens := tokenize(afterEq[..next.value]);
          && waypoints == Mentions(tokens, "waypoints") && tracks == Mentions(tokens, "tracks")
          && routes == Mentions(tokens, "routes") && file == afterEq[next.value + 1..]
    {
      var next := FindChar(afterEq, ':');
      if next.None? {
        return false, false, false, false, "";
      }
      var tokens := tokenize(afterEq[..next.value]);
      var err;
      waypoints, tracks, routes, err := ScanFeatureTokens(tokens);
      ok := !err;
      file := afterEq[next.value + 1..];
    }

    /**
     * Run the converter: once directly on a special file; otherwise piped from the
     * opened file, and once more directly when the piped run failed with the
     * piping marker and the file is a real one. `produced` is the invocation whose
     * output the temporary file holds.
     */
    method RunConverter(req: Request, env: Env) returns (ret: bool, produced: Attempt)
      modifies this`spawns
      ensures spawns == old(spawns) + Convert(req, env).spawns
      ensures ret <==> Convert(req, env).result.Converted?
      ensures ret ==> Convert(req, env).result.attempt == produced
    {
      if IsSpecialFile(req.filename) {
        produced := Attempt(GetArgv(req.explicitFeatures, req.waypoints, req.routes, req.tracks,
                                    req.driverName, req.filename), false);
        spawns := spawns + [produced];
        ret := env.spawn(produced).exitStatus == 0;
      } else {
        if !env.canOpen(req.filename) {
          return false, PipedAttempt(req);
        }
        produced := Attempt(GetArgv(req.explicitFeatures, req.waypoints, req.routes, req.tracks,
                                    req.driverName, StdStream), true);
        spawns := spawns + [produced];
        var r := env.spawn(produced);
        ret := r.exitStatus == 0;
        if !ret && Contains(r.lastErrorMessage, PipedMarker) {
          if !env.stat(req.filename) {
            return false, produced;
          }
          produced := Attempt(GetArgv(req.explicitFeatures, req.waypoints, req.routes, req.tracks,
                                      req.driverName, req.filename), false);
          spawns := spawns + [produced];
          ret := env.spawn(produced).exitStatus == 0;
        }
      }
    }

    /** Fill the layer array from the GPX output, category by category. */
    method ExtractLayers(req: Request, counts: map<string, int>)
      requires nLayers == 0 && layers == []
      modifies this`layers, this`nLayers
      ensures layers == SelectLayers(req.waypoints, req.routes, req.tracks, counts)
      ensures nLayers == |layers| <= 5
    {
      SelectLayersBound(req.waypoints, req.routes, req.tracks, counts);
      ghost var w, r, t := WaypointLayers(req.waypoints, counts), RouteLayers(req.routes, counts),
                           TrackLayers(req.tracks, counts);
      if req.waypoints {
        AddLayerIfNonEmpty(counts, "waypoints");
      }
      assert layers == w && |w| <= 1;
      if req.routes {
        AddLayerPair(counts, "routes", "route_points");
      }
      assert layers == w + r && |r| <= 2;
      if req.tracks {
        AddLayerPair(counts, "tracks", "track_points");
      }
      assert layers == w + r + t;
    }

    /** The two layers of a category, routes or tracks, each if non-empty. */
    method AddLayerPair(counts: map<string, int>, first: string, second: string)
      requires 0 <= nLayers == |layers| <= 3
      modifies this`layers, this`nLayers
      ensures layers == old(layers) + (Pick(counts, first) + Pick(counts, second)) && nLayers == |layers|
    {
      AddLayerIfNonEmpty(counts, first);
      AddLayerIfNonEmpty(counts, second);
    }

    /** Run the converter and, when it produced a readable output, keep its layers. */
    method ConvertAndLoad(req: Request, env: Env)
      requires nLayers == 0 && layers == [] && !outputOpened
      modifies this`spawns, this`outputOpened, this`layers, this`nLayers
      ensures spawns == old(spawns) + Convert(req, env).spawns
      ensures outputOpened == (Convert(req, env).result.Converted? &&
                               env.readOutput(Convert(req, env).result.attempt).Some?)
      ensures layers == LayersOf(req, Convert(req, env), env)
      ensures nLayers == |layers| <= 5
    {
      var ret, produced := RunConverter(req, env);
      if ret {
        var output := env.readOutput(produced);
        if output.Some? {
          outputOpened := true;
          ExtractLayers(req, output.value);
        }
      }
    }

    method Open(name: string, driverIn: string, opts: Options, tokenize: string -> seq<string>, env: Env)
      returns (ok: bool)
      requires Valid() && Initial()
      modifies this
      ensures Valid()
      ensures var o := OpenSpec(name, driverIn, opts, tokenize, env);
        && driverName == o.driverName && filename == o.filename && tmpFileName == o.tmpFileName
        && spawns == o.spawns && outputOpened == o.outputOpened && layers == o.layers
      ensures ok <==> nLayers > 0
    {
      ghost var p := ParseName(name, driverIn, opts, tokenize);
      var parsed := AnalyseName(name, driverIn, opts, tokenize);
      if parsed.None? {
        return false;
      }
      var req := parsed.value;

      if env.useTempFile.Some? && TestBool(env.useTempFile.value) {
        tmpFileName := env.persistentTempName;
      } else {
        tmpFileName := env.hiddenTempName;
      }

      ConvertAndLoad(req, env);
      ok := nLayers > 0;
    }

    /** GetLayer: the i-th kept layer, or nothing outside [0, nLayers). */
    method GetLayer(i: int) returns (layer: Option<Layer>)
      requires Valid()
      ensures layer.Some? <==> 0 <= i < nLayers
      ensures layer.Some? ==> layer.value == layers[i]
    {
      if i < 0 || i >= nLayers {
        return None;
      }
      return Some(layers[i]);
    }

    /** CloseDependentDatasets: close the GPX data set; true when one was open. */
    method CloseDependentDatasets() returns (closed: bool)
      modifies this`outputOpened
      ensures closed == old(outputOpened) && !outputOpened
    {
      if !outputOpened {
        return false;
      }
      outputOpened := false;
      return true;
    }

    /** The destructor: close the GPX data set, then unlink the temporary file if one was named. */
    method Close() returns (unlinked: Option<string>)
      modifies this`outputOpened
      ensures !outputOpened
      ensures unlinked == if tmpFileName != "" then Some(tmpFileName) else None
    {
      var _ := CloseDependentDatasets();
      if tmpFileName != "" {
        unlinked := Some(tmpFileName);
      } else {
        unlinked := None;
      }
    }
  }
}
