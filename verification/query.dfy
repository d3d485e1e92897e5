/** The pieces of the download query that `Worker.run` in
    `gpq_downloader/utils.py` assembles: the area of interest in EPSG:4326,
    the SELECT list, the WHERE predicate, the export format chosen from the
    output file name, and the GeoJSON size estimate that guards large
    exports. The legacy top-level module builds the same pieces slightly
    differently; its variants sit next to the current ones. */
module Query {
  import opened Common
  import opened Text
  import opened Schema

  // ---- Area of interest ----

  /** `transform_bbox_to_4326`. `reprojected` is what QGIS's
      `transformBoundingBox` answers for this extent and CRS; the
      reprojection itself is not modelled. */
  function TransformBboxTo4326(extent: Option<Rect>, crs: Option<Crs>, reprojected: Rect): (r: Option<Rect>)
    ensures r.Some? <==> extent.Some? && crs.Some?
    ensures crs == Some(Wgs84) ==> r == extent
    ensures r.Some? && crs.value != Wgs84 ==> r.value == reprojected
  {
    if extent.None? || crs.None? then None
    else if crs.value != Wgs84 then Some(reprojected)
    else extent
  }

  /** An extent already in EPSG:4326 comes back unchanged, so transforming a
      transformed extent a second time changes nothing. */
  lemma TransformSettles(extent: Option<Rect>, crs: Option<Crs>, reprojected: Rect, again: Rect)
    ensures TransformBboxTo4326(TransformBboxTo4326(extent, crs, reprojected), Some(Wgs84), again)
         == TransformBboxTo4326(extent, crs, reprojected)
  {
  }

  // ---- WHERE predicate ----

  /** A column reference in SQL text: quoted (`"geom"`) or bare (`geometry`). */
  datatype ColumnRef = Quoted(name: string) | Bare(name: string)

  datatype Pred =
      /** `"c".xmin BETWEEN xMin AND xMax AND "c".ymin BETWEEN yMin AND yMax` */
    | BboxBetween(column: string, area: Rect)
      /** `ST_Intersects(g, ST_GeomFromText('POLYGON((ring))'))` */
    | Intersects(geometry: ColumnRef, ring: seq<Point>)

  /** The closed polygon ring written into the WHERE clause: the four corners
      counter-clockwise from (xMin, yMin), and that corner again. */
  function Ring(b: Rect): (r: seq<Point>)
    ensures |r| == 5 && r[0] == r[4] == Point(b.xMin, b.yMin)
    ensures forall i :: 0 <= i < 4 ==> r[i].x == r[i + 1].x || r[i].y == r[i + 1].y
    ensures forall i :: 0 <= i < 5 ==> r[i].x in {b.xMin, b.xMax} && r[i].y in {b.yMin, b.yMax}
    ensures Point(b.xMax, b.yMax) in r && Point(b.xMax, b.yMin) in r && Point(b.xMin, b.yMax) in r
  {
    [Point(b.xMin, b.yMin), Point(b.xMax, b.yMin), Point(b.xMax, b.yMax),
     Point(b.xMin, b.yMax), Point(b.xMin, b.yMin)]
  }

  /** The current worker's choice: the bbox column whenever the profile names
      one, otherwise an intersection test on the quoted geometry column. */
  function BuildPredicate(bboxColumn: Option<string>, geometryColumn: string, area: Rect): (r: Pred)
    ensures r.BboxBetween? <==> bboxColumn.Some?
    ensures r.BboxBetween? ==> r.column == bboxColumn.value && r.area == area
    ensures r.Intersects? ==> r.geometry == Quoted(geometryColumn) && r.ring == Ring(area)
  {
    match bboxColumn
    case Some(c) => BboxBetween(c, area)
    case None => Intersects(Quoted(geometryColumn), Ring(area))
  }

  /** The legacy worker's choice: the bbox column only when its name is
      non-empty, otherwise an intersection test on the bare column
      `geometry`, whatever the source calls its geometry. */
  function LegacyPredicate(bboxColumn: Option<string>, area: Rect): (r: Pred)
    ensures r.BboxBetween? <==> bboxColumn.Some? && bboxColumn.value != ""
    ensures r.BboxBetween? ==> r.column == bboxColumn.value && r.area == area
    ensures r.Intersects? ==> r.geometry == Bare(DefaultGeometry) && r.ring == Ring(area)
  {
    if bboxColumn.Some? && bboxColumn.value != "" then BboxBetween(bboxColumn.value, area)
    else Intersects(Bare(DefaultGeometry), Ring(area))
  }

  /** The two versions write the same bbox filter for a named bbox column. */
  lemma LegacyAgreesOnNamedBbox(column: string, geometryColumn: string, area: Rect)
    requires column != ""
    ensures LegacyPredicate(Some(column), area) == BuildPredicate(Some(column), geometryColumn, area)
  {
  }

  /** The bounding box of one feature, as its covering `bbox` struct stores it. */
  predicate AdmitsFeature(p: Pred, feature: Rect)
    requires p.BboxBetween?
  {
    p.area.xMin <= feature.xMin <= p.area.xMax && p.area.yMin <= feature.yMin <= p.area.yMax
  }

  predicate Overlaps(a: Rect, b: Rect) {
    a.xMin <= b.xMax && b.xMin <= a.xMax && a.yMin <= b.yMax && b.yMin <= a.yMax
  }

  /** Every feature the bbox filter keeps overlaps the area of interest. */
  lemma BboxFilterIsSound(column: string, area: Rect, feature: Rect)
    requires Normalized(feature)
    ensures AdmitsFeature(BboxBetween(column, area), feature) ==> Overlaps(area, feature)
  {
  }

  /** The filter tests only the lower-left corner of a feature's box, so a
      feature that straddles the west edge of the area is not kept. */
  lemma BboxFilterDropsStraddlingFeature()
    ensures var area := Rect(0.0, 0.0, 10.0, 10.0);
            var feature := Rect(-1.0, 1.0, 1.0, 2.0);
            Normalized(feature) && Overlaps(area, feature)
            && !AdmitsFeature(BboxBetween("bbox", area), feature)
  {
  }

  // ---- SELECT list ----

  datatype Select =
    | SelectAll
      /** `SELECT ["names"."primary" as name,] columns...` */
    | SelectColumns(primaryName: bool, columns: seq<Proj>)

  predicate HasNamesColumn(schema: seq<Column>) {
    exists i | 0 <= i < |schema| :: Contains(schema[i].name, "names")
  }

  /** The current worker's SELECT list: everything for a `.parquet` output
      (case-sensitive test), otherwise the rewritten columns, led by the
      primary name when the URL is an Overture one and some column name
      contains `names`. */
  function SelectFor(outputFile: string, url: string, schema: seq<Column>): (r: Select)
    ensures r.SelectAll? <==> EndsWith(outputFile, ".parquet")
    ensures r.SelectColumns? ==> r.columns == ProcessSchemaColumns(schema)
    ensures r.SelectColumns? ==>
      (r.primaryName <==> Contains(url, "overture") && HasNamesColumn(schema))
  {
    if EndsWith(outputFile, ".parquet") then SelectAll
    else SelectColumns(Contains(url, "overture") && HasNamesColumn(schema), ProcessSchemaColumns(schema))
  }

  /** The legacy SELECT list leads with the primary name for every Overture
      URL, whether or not a `names` column exists. */
  function LegacySelectFor(outputFile: string, url: string, schema: seq<Column>): (r: Select)
    ensures r.SelectAll? <==> EndsWith(outputFile, ".parquet")
    ensures r.SelectColumns? ==> r.columns == ProcessSchemaColumns(schema)
    ensures r.SelectColumns? ==> (r.primaryName <==> Contains(url, "overture"))
  {
    if EndsWith(outputFile, ".parquet") then SelectAll
    else SelectColumns(Contains(url, "overture"), ProcessSchemaColumns(schema))
  }

  /** The versions differ only where an Overture schema has no `names`
      column: there the current one no longer selects a missing column. */
  lemma SelectVersionsDifferOnlyWithoutNames(outputFile: string, url: string, schema: seq<Column>)
    ensures SelectFor(outputFile, url, schema) != LegacySelectFor(outputFile, url, schema)
        <==> !EndsWith(outputFile, ".parquet") && Contains(url, "overture") && !HasNamesColumn(schema)
  {
  }

  // ---- Export format ----

  datatype FormatOptions =
      /** `(FORMAT 'parquet', COMPRESSION 'ZSTD'[, COMPRESSION_LEVEL n])` */
    | ParquetZstd(level: Option<nat>)
      /** `(FORMAT GDAL, DRIVER 'd'[, SRS 's'])` */
    | Gdal(driver: string, srs: Option<string>)

  datatype Export =
    | CommitDatabase
    | Copy(options: FormatOptions)
      /** No `format_options` is assigned: the worker reports the format and
          then fails on the unbound name. */
    | Unsupported

  /** `output_file.lower().split('.')[-1]`. */
  function Extension(outputFile: string): (r: string)
    ensures '.' !in r
  {
    LastPiece(Lower(outputFile), '.')
  }

  /** The current worker's export for an output file name. The `duckdb` and
      `parquet` tests ignore case; `.gpkg`, `.fgb` and `.geojson` are
      case-sensitive suffix tests. */
  function ExportFor(outputFile: string): (r: Export)
    ensures r.CommitDatabase? <==> Extension(outputFile) == "duckdb"
    ensures r == Copy(ParquetZstd(Some(22))) <==> Extension(outputFile) == "parquet"
    ensures r.Unsupported? <==>
      Extension(outputFile) !in {"duckdb", "parquet"}
      && !EndsWith(outputFile, ".gpkg") && !EndsWith(outputFile, ".fgb")
      && !EndsWith(outputFile, ".geojson")
    ensures r.Copy? && r.options.Gdal? ==> r.options.driver in {"GPKG", "FlatGeobuf", "GeoJSON"}
  {
    var ext := Extension(outputFile);
    if ext == "duckdb" then CommitDatabase
    else if ext == "parquet" then Copy(ParquetZstd(Some(22)))
    else if EndsWith(outputFile, ".gpkg") then Copy(Gdal("GPKG", None))
    else if EndsWith(outputFile, ".fgb") then Copy(Gdal("FlatGeobuf", Some("EPSG:4326")))
    else if EndsWith(outputFile, ".geojson") then Copy(Gdal("GeoJSON", Some("EPSG:4326")))
    else Unsupported
  }

  /** The legacy worker's export: ZSTD at its default level, and no GeoJSON. */
  function LegacyExportFor(outputFile: string): (r: Export)
    ensures r.CommitDatabase? <==> Extension(outputFile) == "duckdb"
    ensures r == Copy(ParquetZstd(None)) <==> Extension(outputFile) == "parquet"
    ensures r.Unsupported? <==>
      Extension(outputFile) !in {"duckdb", "parquet"}
      && !EndsWith(outputFile, ".gpkg") && !EndsWith(outputFile, ".fgb")
  {
    var ext := Extension(outputFile);
    if ext == "duckdb" then CommitDatabase
    else if ext == "parquet" then Copy(ParquetZstd(None))
    else if EndsWith(outputFile, ".gpkg") then Copy(Gdal("GPKG", None))
    else if EndsWith(outputFile, ".fgb") then Copy(Gdal("FlatGeobuf", Some("EPSG:4326")))
    else Unsupported
  }

  /** Lower-casing distributes over concatenation. */
  lemma LowerAppend(a: string, b: string)
    ensures Lower(a + b) == Lower(a) + Lower(b)
  {
    assert forall i :: 0 <= i < |a + b| ==> Lower(a + b)[i] == (Lower(a) + Lower(b))[i];
  }

  /** The text after the last dot is whatever follows a dot at the end. */
  lemma LastPieceAfterDot(stem: string, ext: string)
    requires '.' !in ext
    ensures LastPiece(stem + "." + ext, '.') == ext
  {
    var p := stem + "." + ext;
    assert p[|stem|] == '.';
    forall k | |stem| < k < |p| ensures p[k] != '.' {
      assert p[k] == ext[k - |stem| - 1];
    }
    assert LastIndex(p, '.') == |stem|;
    assert p[|stem| + 1..] == ext;
  }

  /** The extension of `stem + "." + ext` is `ext`, lower-cased, whatever the stem. */
  lemma ExtensionOf(stem: string, ext: string)
    requires '.' !in ext
    ensures Extension(stem + "." + ext) == Lower(ext)
  {
    LowerAppend(stem + ".", ext);
    LowerAppend(stem, ".");
    assert Lower(".") == ".";
    assert forall i :: 0 <= i < |ext| ==> Lower(ext)[i] != '.';
    LastPieceAfterDot(Lower(stem), Lower(ext));
  }

  lemma SuffixOf(stem: string, suffix: string)
    ensures EndsWith(stem + suffix, suffix)
  {
    assert (stem + suffix)[|stem|..] == suffix;
  }

  /** `ExtensionOf` for a suffix written as one literal, dot included. */
  lemma ExtensionOfSuffix(stem: string, ext: string)
    requires '.' !in ext
    ensures Extension(stem + ("." + ext)) == Lower(ext)
  {
    assert stem + ("." + ext) == stem + "." + ext;
    ExtensionOf(stem, ext);
  }

  lemma DatabaseExport(f: string)
    requires Extension(f) == "duckdb"
    ensures ExportFor(f) == CommitDatabase
  {
  }

  lemma ParquetExport(f: string)
    requires Extension(f) == "parquet"
    ensures ExportFor(f) == Copy(ParquetZstd(Some(22)))
  {
  }

  /** The literal suffix `".ext"` read as the dot followed by `ext`. */
  lemma DotSuffix(stem: string, ext: string, suffix: string)
    requires suffix == "." + ext
    ensures stem + suffix == stem + "." + ext
  {
  }

  /** The literals the dispatch lemmas rely on, each spelled out once. */
  lemma ParquetLiterals()
    ensures "." + "parquet" == ".parquet" && Lower("parquet") == "parquet" && ".parquet"[7] == 't'
  {
  }

  lemma GpkgLiterals()
    ensures "." + "gpkg" == ".gpkg" && Lower("gpkg") == "gpkg" && ".gpkg"[4] == 'g'
  {
  }

  lemma FlatGeobufLiterals()
    ensures "." + "fgb" == ".fgb" && Lower("fgb") == "fgb" && ".fgb"[3] == 'b'
  {
  }

  lemma GeoJsonLiterals()
    ensures "." + "geojson" == ".geojson" && Lower("geojson") == "geojson"
  {
  }

  lemma UpperGpkgLiterals()
    ensures "." + "GPKG" == ".GPKG" && Lower("GPKG") == "gpkg"
  {
  }

  /** A database output commits in place, whatever the letter case of its
      extension (`.duckdb`, `.DuckDB`, ...). */
  lemma DispatchDatabase(stem: string, ext: string)
    requires '.' !in ext && Lower(ext) == "duckdb"
    ensures ExportFor(stem + "." + ext) == CommitDatabase
  {
    ExtensionOf(stem, ext);
    DatabaseExport(stem + "." + ext);
  }

  /** A Parquet output is written with ZSTD level 22, whatever the letter
      case of its extension. */
  lemma DispatchParquet(stem: string, ext: string)
    requires '.' !in ext && Lower(ext) == "parquet"
    ensures ExportFor(stem + "." + ext) == Copy(ParquetZstd(Some(22)))
  {
    ExtensionOf(stem, ext);
    ParquetExport(stem + "." + ext);
  }

  /** A name is its text before a suffix it ends with, then the suffix. */
  lemma SplitAtSuffix(f: string, suffix: string)
    requires EndsWith(f, suffix)
    ensures f == f[..|f| - |suffix|] + suffix
    ensures |suffix| > 0 ==> f[|f| - 1] == suffix[|suffix| - 1]
  {
    if |suffix| > 0 {
      assert f[|f| - |suffix|..][|suffix| - 1] == f[|f| - 1];
    }
  }

  lemma ParquetExtension(stem: string)
    ensures Extension(stem + ".parquet") == "parquet"
  {
    ParquetLiterals();
    ExtensionOf(stem, "parquet");
    DotSuffix(stem, "parquet", ".parquet");
  }

  lemma LegacyParquetExport(f: string)
    requires Extension(f) == "parquet"
    ensures LegacyExportFor(f) == Copy(ParquetZstd(None))
  {
  }

  /** Any name ending in `.parquet` is written as Parquet by both versions
      and never meets the GeoJSON size guard. */
  lemma ParquetNamed(f: string)
    requires EndsWith(f, ".parquet")
    ensures ExportFor(f) == Copy(ParquetZstd(Some(22)))
    ensures LegacyExportFor(f) == Copy(ParquetZstd(None))
    ensures forall estimate: real, accepted: bool :: !SizeGuardTrips(f, estimate, accepted)
  {
    ParquetLiterals();
    SplitAtSuffix(f, ".parquet");
    ParquetExtension(f[..|f| - 8]);
    ParquetExport(f);
    LegacyParquetExport(f);
    NotGeoJsonName(f);
  }

  /** A name whose last character differs from a suffix's last character
      does not end with that suffix. */
  lemma LastCharExcludes(f: string, suffix: string)
    requires |f| > 0 && |suffix| > 0 && f[|f| - 1] != suffix[|suffix| - 1]
    ensures !EndsWith(f, suffix)
  {
  }

  /** The name `stem.ext` for a lower-case `ext` other than the two handled
      by extension: its extension is `ext` and it ends with `.ext`. */
  lemma GdalName(stem: string, ext: string)
    requires '.' !in ext && Lower(ext) == ext && ext !in {"duckdb", "parquet"}
    ensures Extension(stem + ("." + ext)) !in {"duckdb", "parquet"}
    ensures EndsWith(stem + ("." + ext), "." + ext)
  {
    ExtensionOfSuffix(stem, ext);
    SuffixOf(stem, "." + ext);
  }

  lemma GpkgExport(f: string)
    requires Extension(f) !in {"duckdb", "parquet"} && EndsWith(f, ".gpkg")
    ensures ExportFor(f) == Copy(Gdal("GPKG", None))
  {
  }

  lemma FlatGeobufExport(f: string)
    requires Extension(f) !in {"duckdb", "parquet"} && |f| > 0 && f[|f| - 1] == 'b'
    requires EndsWith(f, ".fgb")
    ensures ExportFor(f) == Copy(Gdal("FlatGeobuf", Some("EPSG:4326")))
  {
    LastCharExcludes(f, ".gpkg");
  }

  lemma GeoJsonExport(f: string)
    requires Extension(f) !in {"duckdb", "parquet"} && |f| > 0 && f[|f| - 1] == 'n'
    requires EndsWith(f, ".geojson")
    ensures ExportFor(f) == Copy(Gdal("GeoJSON", Some("EPSG:4326")))
  {
    LastCharExcludes(f, ".gpkg");
    LastCharExcludes(f, ".fgb");
  }

  /** A GeoPackage output goes through GDAL's GPKG driver. */
  lemma DispatchGpkg(stem: string)
    ensures ExportFor(stem + ".gpkg") == Copy(Gdal("GPKG", None))
  {
    GpkgLiterals();
    GdalName(stem, "gpkg");
    GpkgExport(stem + ".gpkg");
  }

  /** A FlatGeobuf output is written in EPSG:4326. */
  lemma DispatchFlatGeobuf(stem: string)
    ensures ExportFor(stem + ".fgb") == Copy(Gdal("FlatGeobuf", Some("EPSG:4326")))
  {
    FlatGeobufLiterals();
    GdalName(stem, "fgb");
    var f := stem + ".fgb";
    assert f[|f| - 1] == 'b';
    FlatGeobufExport(f);
  }

  /** A name ending in a suffix whose last letter is not an `n` is never
      estimated. */
  lemma NotGeoJsonSuffix(stem: string, suffix: string)
    requires |suffix| > 0 && LowerChar(suffix[|suffix| - 1]) != 'n'
    ensures forall estimate: real, accepted: bool :: !SizeGuardTrips(stem + suffix, estimate, accepted)
  {
    var f := stem + suffix;
    assert f[|f| - 1] == suffix[|suffix| - 1];
    NotGeoJsonName(f);
  }

  /** GeoPackage and FlatGeobuf names are never estimated. */
  lemma GpkgUnguarded(stem: string)
    ensures forall estimate: real, accepted: bool :: !SizeGuardTrips(stem + ".gpkg", estimate, accepted)
  {
    assert LowerChar(".gpkg"[4]) != 'n' by { GpkgLiterals(); }
    NotGeoJsonSuffix(stem, ".gpkg");
  }

  lemma FlatGeobufUnguarded(stem: string)
    ensures forall estimate: real, accepted: bool :: !SizeGuardTrips(stem + ".fgb", estimate, accepted)
  {
    assert LowerChar(".fgb"[3]) != 'n' by { FlatGeobufLiterals(); }
    NotGeoJsonSuffix(stem, ".fgb");
  }

  /** A GeoJSON output is written in EPSG:4326. */
  lemma DispatchGeoJson(stem: string)
    ensures ExportFor(stem + ".geojson") == Copy(Gdal("GeoJSON", Some("EPSG:4326")))
  {
    GeoJsonLiterals();
    GdalName(stem, "geojson");
    var f := stem + ".geojson";
    assert f[|f| - 1] == 'n';
    GeoJsonExport(f);
  }

  lemma UnsupportedExport(f: string)
    requires Extension(f) !in {"duckdb", "parquet"} && |f| > 0 && f[|f| - 1] == 'G'
    ensures ExportFor(f) == Unsupported
  {
    LastCharExcludes(f, ".gpkg");
    LastCharExcludes(f, ".fgb");
    LastCharExcludes(f, ".geojson");
  }

  /** An upper-case GeoPackage name fails the case-sensitive suffix test and
      is reported unsupported. */
  lemma UpperCaseGpkgIsUnsupported(stem: string)
    ensures ExportFor(stem + ".GPKG") == Unsupported
  {
    UpperGpkgLiterals();
    ExtensionOfSuffix(stem, "GPKG");
    var f := stem + ".GPKG";
    assert f[|f| - 1] == 'G';
    UnsupportedExport(f);
  }

  /** Where both versions write a file, they pick the same driver; they
      differ in the Parquet compression level and in GeoJSON support. */
  lemma LegacyExportDiffers(outputFile: string)
    ensures ExportFor(outputFile).Copy? && ExportFor(outputFile).options.Gdal?
            && ExportFor(outputFile).options.driver != "GeoJSON"
            ==> LegacyExportFor(outputFile) == ExportFor(outputFile)
    ensures ExportFor(outputFile) == Copy(Gdal("GeoJSON", Some("EPSG:4326")))
            ==> LegacyExportFor(outputFile) == Unsupported
  {
  }

  // ---- GeoJSON size estimate (utils.py Worker.estimate_file_size) ----

  /** The sampling query's answer: it raised, or its AVG (SQL NULL is `None`). */
  datatype Sample = SampleFailed | SampleAvg(avg: Option<real>)

  const BytesPerMb: real := 1048576.0
  const CollectionOverhead: real := 50.0
  const SizeWarningMb: real := 4096.0

  /** Estimated megabytes of a GeoJSON FeatureCollection of `rows` features
      of the sampled average size: zero when there is nothing to sample,
      the sample fails, or the average is NULL or zero. */
  function EstimateFileSizeMb(rows: nat, sample: Sample): (r: real)
    ensures rows == 0 || sample.SampleFailed? || sample.avg.None? || sample.avg.value == 0.0 ==> r == 0.0
    ensures rows > 0 && sample.SampleAvg? && sample.avg.Some? && sample.avg.value > 0.0 ==> r > 0.0
  {
    if rows == 0 then 0.0
    else match sample
      case SampleFailed => 0.0
      case SampleAvg(None) => 0.0
      case SampleAvg(Some(avg)) =>
        if avg == 0.0 then 0.0
        else ((rows as real) * avg + CollectionOverhead + (rows - 1) as real) / BytesPerMb
  }

  /** More features of the same average size never shrink the estimate. */
  lemma EstimateMonotoneInRows(rows1: nat, rows2: nat, avg: real)
    requires 1 <= rows1 <= rows2 && avg > 0.0
    ensures EstimateFileSizeMb(rows1, SampleAvg(Some(avg))) <= EstimateFileSizeMb(rows2, SampleAvg(Some(avg)))
  {
    assert (rows1 as real) * avg <= (rows2 as real) * avg;
  }

  /** Larger features never shrink the estimate. */
  lemma EstimateMonotoneInSize(rows: nat, avg1: real, avg2: real)
    requires 1 <= rows && 0.0 < avg1 <= avg2
    ensures EstimateFileSizeMb(rows, SampleAvg(Some(avg1))) <= EstimateFileSizeMb(rows, SampleAvg(Some(avg2)))
  {
    assert (rows as real) * avg1 <= (rows as real) * avg2;
  }

  /** The warning threshold in bytes of features: an estimate above 4096 MB
      needs more than 4096 * 2^20 bytes of JSON. */
  lemma EstimateOverThreshold(rows: nat, avg: real)
    requires rows >= 1 && avg > 0.0
    ensures EstimateFileSizeMb(rows, SampleAvg(Some(avg))) > SizeWarningMb
        <==> (rows as real) * avg + CollectionOverhead + (rows - 1) as real > SizeWarningMb * BytesPerMb
  {
  }

  /** Only outputs whose lower-cased name ends in `.geojson` are estimated;
      a large estimate stops the export until the user accepts it. */
  predicate SizeGuardTrips(outputFile: string, estimateMb: real, accepted: bool) {
    EndsWith(Lower(outputFile), ".geojson") && estimateMb > SizeWarningMb && !accepted
  }

  /** A name whose last letter is not an `n` in either case is never
      estimated. */
  lemma NotGeoJsonName(f: string)
    requires |f| > 0 && LowerChar(f[|f| - 1]) != 'n'
    ensures forall estimate: real, accepted: bool :: !SizeGuardTrips(f, estimate, accepted)
  {
    var low := Lower(f);
    assert low[|low| - 1] != 'n';
    LastCharExcludes(low, ".geojson");
  }
}
