/**
 * The creation options handed to the tile driver of a Rasterlite copy:
 * RasterliteGetTileDriverOptions and RasterliteAddTileDriverOptionsForDriver.
 * The list is built from nothing by conditional CSLSetNameValue calls; the
 * warnings issued for unexpected options are not modelled.
 */
module RasterliteOptions {
  import opened Cpl

  const DefaultTileDriver := "GTiff"

  /** The DRIVER creation option, GTiff when absent. */
  function TileDriverName(opts: Options): string {
    FetchNameValueDef(opts, "DRIVER", DefaultTileDriver)
  }

  /** The option name QUALITY is passed under for the tile driver, if the driver takes one. */
  function QualityKey(driverName: string): (k: Option<string>)
    ensures k.Some? ==> |k.value| == 12 || |k.value| == 7
  {
    if EqualCI(driverName, "GTiff") then Some("JPEG_QUALITY")
    else if EqualCI(driverName, "JPEG") || EqualCI(driverName, "WEBP") then Some("QUALITY")
    else None
  }

  /** RasterliteAddTileDriverOptionsForDriver: copy an option only for its expected driver. */
  function AddTileDriverOptionsForDriver(opts: Options, tileOpts: Options, optionName: string,
                                         expectedDriver: string): (r: Options)
    ensures FetchNameValue(opts, optionName).Some? && EqualCI(TileDriverName(opts), expectedDriver) ==>
              FetchNameValue(r, optionName) == FetchNameValue(opts, optionName)
    ensures !(FetchNameValue(opts, optionName).Some? && EqualCI(TileDriverName(opts), expectedDriver)) ==>
              r == tileOpts
    ensures forall other :: !EqualCI(other, optionName) ==> FetchNameValue(r, other) == FetchNameValue(tileOpts, other)
  {
    match FetchNameValue(opts, optionName)
    case None => tileOpts
    case Some(v) =>
      if EqualCI(TileDriverName(opts), expectedDriver) then
        SetNameValueKeepsAll(tileOpts, optionName, v);
        SetNameValue(tileOpts, optionName, v)
      else tileOpts
  }

  /** RasterliteGetTileDriverOptions. */
  function GetTileDriverOptions(opts: Options): (r: Options) {
    var quality := FetchNameValue(opts, "QUALITY");
    var key := QualityKey(TileDriverName(opts));
    var withQuality := if quality.Some? && key.Some? then SetNameValue([], key.value, quality.value) else [];
    var withCompress := AddTileDriverOptionsForDriver(opts, withQuality, "COMPRESS", "GTiff");
    AddTileDriverOptionsForDriver(opts, withCompress, "PHOTOMETRIC", "GTiff")
  }

  /** The entry for the QUALITY option, if it is given and the driver takes it. */
  function QualityEntry(opts: Options): seq<(string, string)> {
    var quality := FetchNameValue(opts, "QUALITY");
    var key := QualityKey(TileDriverName(opts));
    if quality.Some? && key.Some? then [(key.value, quality.value)] else []
  }

  /** The entry for a GTiff-only option, if it is given and the driver is GTiff. */
  function GTiffEntry(opts: Options, optionName: string): seq<(string, string)> {
    var v := FetchNameValue(opts, optionName);
    if v.Some? && EqualCI(TileDriverName(opts), "GTiff") then [(optionName, v.value)] else []
  }

  /** Looking up one key in a one-entry list of another length finds nothing. */
  lemma OtherKeyAbsent(entries: seq<(string, string)>, key: string)
    requires |entries| <= 1 && forall i :: 0 <= i < |entries| ==> |entries[i].0| != |key|
    ensures FetchNameValue(entries, key).None?
  {
  }

  /** Starting from the empty list, the QUALITY step leaves exactly QualityEntry. */
  lemma QualityStep(opts: Options)
    ensures var quality := FetchNameValue(opts, "QUALITY");
      var key := QualityKey(TileDriverName(opts));
      (if quality.Some? && key.Some? then SetNameValue([], key.value, quality.value) else []) == QualityEntry(opts)
  {
  }

  /** A GTiff-only option whose key is not yet in the list is appended, if copied at all. */
  lemma GTiffStepAppends(opts: Options, tileOpts: Options, optionName: string)
    requires FetchNameValue(tileOpts, optionName).None?
    ensures AddTileDriverOptionsForDriver(opts, tileOpts, optionName, "GTiff") == tileOpts + GTiffEntry(opts, optionName)
  {
  }

  /**
   * The four keys differ in length, so every CSLSetNameValue call appends: the
   * result is the QUALITY entry, then COMPRESS, then PHOTOMETRIC, each present or not.
   */
  lemma GetTileDriverOptionsShape(opts: Options)
    ensures GetTileDriverOptions(opts) ==
            QualityEntry(opts) + GTiffEntry(opts, "COMPRESS") + GTiffEntry(opts, "PHOTOMETRIC")
  {
    QualityStep(opts);
    CompressStep(opts);
    PhotometricStep(opts);
  }

  /** The COMPRESS step appends its entry after the QUALITY one. */
  lemma CompressStep(opts: Options)
    ensures AddTileDriverOptionsForDriver(opts, QualityEntry(opts), "COMPRESS", "GTiff") ==
            QualityEntry(opts) + GTiffEntry(opts, "COMPRESS")
  {
    OtherKeyAbsent(QualityEntry(opts), "COMPRESS");
    GTiffStepAppends(opts, QualityEntry(opts), "COMPRESS");
  }

  /** The PHOTOMETRIC step appends its entry after the other two. */
  lemma PhotometricStep(opts: Options)
    ensures var qc := QualityEntry(opts) + GTiffEntry(opts, "COMPRESS");
      AddTileDriverOptionsForDriver(opts, qc, "PHOTOMETRIC", "GTiff") == qc + GTiffEntry(opts, "PHOTOMETRIC")
  {
    var q, c := QualityEntry(opts), GTiffEntry(opts, "COMPRESS");
    OtherKeyAbsent(q, "PHOTOMETRIC");
    OtherKeyAbsent(c, "PHOTOMETRIC");
    FetchNameValueConcat(q, c, "PHOTOMETRIC");
    GTiffStepAppends(opts, q + c, "PHOTOMETRIC");
  }

  /** The tile options looked up key by key: QUALITY entry first, then COMPRESS, then PHOTOMETRIC. */
  lemma FetchTileOption(opts: Options, key: string)
    ensures var q, c, p := QualityEntry(opts), GTiffEntry(opts, "COMPRESS"), GTiffEntry(opts, "PHOTOMETRIC");
      FetchNameValue(GetTileDriverOptions(opts), key) ==
        if FetchNameValue(q, key).Some? then FetchNameValue(q, key)
        else if FetchNameValue(c, key).Some? then FetchNameValue(c, key)
        else FetchNameValue(p, key)
  {
    var q, c, p := QualityEntry(opts), GTiffEntry(opts, "COMPRESS"), GTiffEntry(opts, "PHOTOMETRIC");
    GetTileDriverOptionsShape(opts);
    FetchNameValueConcat(q + c, p, key);
    FetchNameValueConcat(q, c, key);
  }

  /** The QUALITY entry looked up under either of its two possible keys. */
  lemma QualityEntryLookup(opts: Options)
    ensures var q := QualityEntry(opts);
      var quality := FetchNameValue(opts, "QUALITY");
      var driver := TileDriverName(opts);
      && FetchNameValue(q, "JPEG_QUALITY") == (if quality.Some? && EqualCI(driver, "GTiff") then quality else None)
      && FetchNameValue(q, "QUALITY") ==
           (if quality.Some? && !EqualCI(driver, "GTiff") && (EqualCI(driver, "JPEG") || EqualCI(driver, "WEBP"))
            then quality else None)
  {
    var q := QualityEntry(opts);
    if q != [] {
      assert EqualCI(q[0].0, q[0].0);
    }
  }

  /** The QUALITY entry looked up under a key of neither of its lengths. */
  lemma QualityEntryOtherKey(opts: Options, key: string)
    requires |key| != |"JPEG_QUALITY"| && |key| != |"QUALITY"|
    ensures FetchNameValue(QualityEntry(opts), key).None?
  {
    var quality, k := FetchNameValue(opts, "QUALITY"), QualityKey(TileDriverName(opts));
    if quality.Some? && k.Some? {
      assert QualityEntry(opts) == [(k.value, quality.value)];
      OtherKeyAbsent([(k.value, quality.value)], key);
    } else {
      assert QualityEntry(opts) == [];
    }
  }

  /** A GTiff-only entry looked up under another of the four keys. */
  lemma GTiffEntryOtherKey(opts: Options, optionName: string, key: string)
    requires |optionName| != |key|
    ensures FetchNameValue(GTiffEntry(opts, optionName), key).None?
  {
  }

  /** A GTiff-only entry looked up under its own key. */
  lemma GTiffEntryOwnKey(opts: Options, optionName: string)
    ensures FetchNameValue(GTiffEntry(opts, optionName), optionName) ==
            (if EqualCI(TileDriverName(opts), "GTiff") then FetchNameValue(opts, optionName) else None)
  {
    assert EqualCI(optionName, optionName);
  }

  /** QUALITY becomes JPEG_QUALITY for GTiff, QUALITY for JPEG and WEBP, and nothing otherwise. */
  lemma QualityMapping(opts: Options)
    ensures var r := GetTileDriverOptions(opts);
      var quality := FetchNameValue(opts, "QUALITY");
      var driver := TileDriverName(opts);
      && FetchNameValue(r, "JPEG_QUALITY") == (if quality.Some? && EqualCI(driver, "GTiff") then quality else None)
      && FetchNameValue(r, "QUALITY") ==
           (if quality.Some? && !EqualCI(driver, "GTiff") && (EqualCI(driver, "JPEG") || EqualCI(driver, "WEBP"))
            then quality else None)
  {
    FetchTileOption(opts, "JPEG_QUALITY");
    FetchTileOption(opts, "QUALITY");
    QualityEntryLookup(opts);
    GTiffEntryOtherKey(opts, "COMPRESS", "JPEG_QUALITY");
    GTiffEntryOtherKey(opts, "PHOTOMETRIC", "JPEG_QUALITY");
    GTiffEntryOtherKey(opts, "COMPRESS", "QUALITY");
    GTiffEntryOtherKey(opts, "PHOTOMETRIC", "QUALITY");
  }

  /** COMPRESS and PHOTOMETRIC reach the tile driver only when it is GTiff, unchanged. */
  lemma GTiffOnlyOptions(opts: Options, optionName: string)
    requires optionName == "COMPRESS" || optionName == "PHOTOMETRIC"
    ensures FetchNameValue(GetTileDriverOptions(opts), optionName) ==
            (if EqualCI(TileDriverName(opts), "GTiff") then FetchNameValue(opts, optionName) else None)
  {
    QualityEntryOtherKey(opts, optionName);
    if optionName == "COMPRESS" {
      FetchTileOption(opts, "COMPRESS");
      GTiffEntryOwnKey(opts, "COMPRESS");
    } else {
      FetchTileOption(opts, "PHOTOMETRIC");
      GTiffEntryOtherKey(opts, "COMPRESS", "PHOTOMETRIC");
      GTiffEntryOwnKey(opts, "PHOTOMETRIC");
    }
  }

  /** The QUALITY entry: at most one, under one of the two quality keys, with the value of QUALITY. */
  lemma QualityEntryContents(opts: Options)
    ensures var q := QualityEntry(opts);
      |q| <= 1 && forall i :: 0 <= i < |q| ==>
        q[i].0 in ["JPEG_QUALITY", "QUALITY"] && FetchNameValue(opts, "QUALITY") == Some(q[i].1)
  {
    var k := QualityKey(TileDriverName(opts));
    assert k.Some? ==> k.value in ["JPEG_QUALITY", "QUALITY"];
  }

  /** A GTiff-only entry: at most one, under its own key, with the value of that option. */
  lemma GTiffEntryContents(opts: Options, optionName: string)
    ensures var c := GTiffEntry(opts, optionName);
      |c| <= 1 && forall i :: 0 <= i < |c| ==> c[i].0 == optionName && FetchNameValue(opts, optionName) == Some(c[i].1)
  {
  }

  /** Only the four tile-driver keys appear, each at most once, with values copied verbatim. */
  lemma TileOptionsKeysAndValues(opts: Options)
    ensures var r := GetTileDriverOptions(opts);
      && |r| <= 3
      && (forall i, j :: 0 <= i < j < |r| ==> r[i].0 != r[j].0)
      && forall i :: 0 <= i < |r| ==>
           || (r[i].0 == "JPEG_QUALITY" && FetchNameValue(opts, "QUALITY") == Some(r[i].1))
           || (r[i].0 in ["QUALITY", "COMPRESS", "PHOTOMETRIC"] && FetchNameValue(opts, r[i].0) == Some(r[i].1))
  {
    GetTileDriverOptionsShape(opts);
    QualityEntryContents(opts);
    GTiffEntryContents(opts, "COMPRESS");
    GTiffEntryContents(opts, "PHOTOMETRIC");
    EntriesKeysAndValues(opts, QualityEntry(opts), GTiffEntry(opts, "COMPRESS"), GTiffEntry(opts, "PHOTOMETRIC"));
  }

  /** Three entry lists of at most one entry each, under distinct keys, concatenated. */
  lemma EntriesKeysAndValues(opts: Options, q: Options, c: Options, p: Options)
    requires |q| <= 1 && forall i :: 0 <= i < |q| ==>
               q[i].0 in ["JPEG_QUALITY", "QUALITY"] && FetchNameValue(opts, "QUALITY") == Some(q[i].1)
    requires |c| <= 1 && forall i :: 0 <= i < |c| ==> c[i].0 == "COMPRESS" && FetchNameValue(opts, "COMPRESS") == Some(c[i].1)
    requires |p| <= 1 && forall i :: 0 <= i < |p| ==> p[i].0 == "PHOTOMETRIC" && FetchNameValue(opts, "PHOTOMETRIC") == Some(p[i].1)
    ensures var r := q + c + p;
      && |r| <= 3
      && (forall i, j :: 0 <= i < j < |r| ==> r[i].0 != r[j].0)
      && forall i :: 0 <= i < |r| ==>
           || (r[i].0 == "JPEG_QUALITY" && FetchNameValue(opts, "QUALITY") == Some(r[i].1))
           || (r[i].0 in ["QUALITY", "COMPRESS", "PHOTOMETRIC"] && FetchNameValue(opts, r[i].0) == Some(r[i].1))
  {
    var r := q + c + p;
    forall i | 0 <= i < |r|
      ensures |r[i].0| == if i < |q| then |q[0].0| else if i < |q| + |c| then 8 else 11
      ensures || (r[i].0 == "JPEG_QUALITY" && FetchNameValue(opts, "QUALITY") == Some(r[i].1))
              || (r[i].0 in ["QUALITY", "COMPRESS", "PHOTOMETRIC"] && FetchNameValue(opts, r[i].0) == Some(r[i].1))
    {
      if i < |q| {
        assert r[i] == q[i];
      } else if i < |q| + |c| {
        assert r[i] == c[i - |q|];
      } else {
        assert r[i] == p[i - |q| - |c|];
      }
    }
  }

  /** With no tile options in the creation options, the tile driver gets none. */
  lemma NoTileOptions(opts: Options)
    requires !HasKey(opts, "QUALITY") && !HasKey(opts, "COMPRESS") && !HasKey(opts, "PHOTOMETRIC")
    ensures GetTileDriverOptions(opts) == []
  {
    GetTileDriverOptionsShape(opts);
  }
}
