/** `ValidationWorker` in `gpq_downloader/utils.py`: inspection of a source
    before download. It decides whether the source can be trusted without
    inspection, looks for a `bbox` struct column in the schema, then for the
    covering column named in the GeoParquet `geo` metadata (the
    `covering.bbox` field of the GeoParquet 1.1 column metadata), and reports
    a profile dictionary through `needs_bbox_warning` and
    `finished(ok, message, results)`. */
module Validation {
  import opened Common
  import opened Text
  import opened Schema
  import opened Catalog

  /** What the JSON-path extraction of `$.columns.geometry.covering.bbox.xmin[0]`
      gave for a `geo` entry: it raised (the handler logs and moves on), or
      the value, `None` for SQL NULL. */
  datatype PathResult = PathFailed | PathValue(value: Option<string>)

  /** One row of `parquet_kv_metadata(url)`. `path` matters only when the
      key is `geo`. */
  datatype KvEntry = KvEntry(key: string, path: PathResult)

  /** An entry whose extraction gave a truthy value. */
  predicate NamesCovering(e: KvEntry) {
    e.key == "geo" && e.path.PathValue? && e.path.value.Some? && e.path.value.value != ""
  }

  /** The quote characters the extracted JSON string is stripped of. */
  const Quote: set<char> := {'"'}

  /** `check_bbox_metadata`: the quote-stripped value of the first `geo`
      entry that names a covering column; later entries are not read. The
      stripped name can be empty (a value of only quotes). */
  function CheckBboxMetadata(entries: seq<KvEntry>): (r: Option<string>)
    ensures r.Some? <==> exists i | 0 <= i < |entries| :: NamesCovering(entries[i])
    ensures r.Some? ==> exists i | 0 <= i < |entries| ::
              NamesCovering(entries[i])
              && (forall j | 0 <= j < i :: !NamesCovering(entries[j]))
              && r.value == StripChars(entries[i].path.value.value, Quote)
  {
    match FirstIndex(entries, NamesCovering)
    case None => None
    case Some(i) => Some(StripChars(entries[i].path.value.value, Quote))
  }

  /** What the engine answers during validation. */
  datatype Probe = Probe(
    connectError: Option<string>,        // duckdb.connect()
    setupError: Option<string>,          // INSTALL/LOAD spatial and httpfs
    schema: Answer<seq<Column>>,         // DESCRIBE SELECT * FROM read_parquet(url)
    metadata: Answer<seq<KvEntry>>)      // SELECT key, value FROM parquet_kv_metadata(url)

  datatype Signal =
    | Progress(message: string)
    | NeedsBboxWarning
    | Finished(ok: bool, message: string, results: Profile)

  /** The signals of a run, and whether an exception escapes `run` after
      them: the `finally` clause closes a connection that was never bound
      when `duckdb.connect()` raised. */
  datatype Report = Report(signals: seq<Signal>, escapes: bool)

  /** The dictionary `run` starts from. */
  const Defaults: Profile := Profile(None, Some(false), None, Some(DefaultGeometry))

  const Successful: string := "Validation successful"
  const WithoutBbox: string := "Validation with no bbox column"

  /** A profile that claims the named bbox column. */
  function Claiming(p: Profile, column: string): Profile {
    p.(hasBbox := Some(true), bboxColumn := Some(column))
  }

  /** The `except` clause: the bbox warning unless the dictionary already
      claims a bbox, then a failed `finished`. */
  function Failure(message: string, results: Profile): (r: seq<Signal>)
    ensures |r| > 0 && r[|r| - 1] == Finished(false, "Error validating source: " + message, results)
    ensures NeedsBboxWarning in r <==> results.hasBbox != Some(true)
  {
    (if results.hasBbox == Some(true) then [] else [NeedsBboxWarning])
    + [Finished(false, "Error validating source: " + message, results)]
  }

  /** `ValidationWorker.run` for a dataset URL and a preset catalog. */
  function RunValidation(url: string, presets: Presets, probe: Probe): Report {
    var connecting := [Progress("Connecting to data source...")];
    if probe.connectError.Some? then
      Report(connecting + Failure(probe.connectError.value, Defaults), true)
    else if probe.setupError.Some? then
      Report(connecting + Failure(probe.setupError.value, Defaults), false)
    else if !NeedsValidation(presets, url) then
      Report(connecting + [Finished(true, Successful, Claiming(Defaults, "bbox"))], false)
    else
      var checking := connecting + [Progress("Checking data format...")];
      Report(checking + Inspect(probe), false)
  }

  /** From the schema query on. */
  function Inspect(probe: Probe): seq<Signal> {
    match probe.schema
    case Raised(m) => Failure(m, Defaults)
    case Answered(schema) =>
      var results := Defaults.(schema := Some(schema));
      if HasBboxStruct(schema) then [Finished(true, Successful, Claiming(results, "bbox"))]
      else match probe.metadata
        case Raised(m) => Failure(m, results)
        case Answered(entries) =>
          var found := CheckBboxMetadata(entries);
          if found.Some? && found.value != "" then
            [Finished(true, Successful, Claiming(results, found.value))]
          else [NeedsBboxWarning, Finished(true, WithoutBbox, results)]
  }

  // ---- Properties ----

  /** Every run ends in exactly one `finished`, emitted last. */
  lemma FinishedExactlyOnceLast(url: string, presets: Presets, probe: Probe)
    ensures var s := RunValidation(url, presets, probe).signals;
            |s| > 0 && s[|s| - 1].Finished?
            && forall i | 0 <= i < |s| - 1 :: !s[i].Finished?
  {
  }

  /** The bbox warning is emitted exactly when the reported dictionary does
      not claim a bbox, and then immediately before `finished`. */
  lemma WarningIffNoBbox(url: string, presets: Presets, probe: Probe)
    ensures var s := RunValidation(url, presets, probe).signals;
            (NeedsBboxWarning in s <==> s[|s| - 1].results.hasBbox == Some(false))
            && (NeedsBboxWarning in s ==> s[|s| - 2] == NeedsBboxWarning)
  {
  }

  /** The dictionary claims a bbox exactly when it names a column, and the
      name is non-empty and free of surrounding quotes. */
  predicate ClaimIsNamed(f: Signal)
    requires f.Finished?
  {
    var res := f.results;
    (res.hasBbox == Some(true) <==> res.bboxColumn.Some?)
    && (res.bboxColumn.Some? ==>
          f.ok && f.message == Successful
          && res.bboxColumn.value != ""
          && res.bboxColumn.value[0] != '"'
          && res.bboxColumn.value[|res.bboxColumn.value| - 1] != '"')
  }

  lemma InspectClaimsAreNamed(probe: Probe)
    ensures var s := Inspect(probe); |s| > 0 && s[|s| - 1].Finished? && ClaimIsNamed(s[|s| - 1])
  {
  }

  /** The reported dictionary claims a bbox exactly when it names a bbox
      column, that name is never empty and never starts or ends with a
      quote, and only a successful run claims one. */
  lemma ClaimsAreNamed(url: string, presets: Presets, probe: Probe)
    ensures var s := RunValidation(url, presets, probe).signals;
            |s| > 0 && s[|s| - 1].Finished? && ClaimIsNamed(s[|s| - 1])
  {
    if probe.connectError.None? && probe.setupError.None? && NeedsValidation(presets, url) {
      InspectClaimsAreNamed(probe);
      var pre := [Progress("Connecting to data source..."), Progress("Checking data format...")];
      var s := Inspect(probe);
      assert (pre + s)[|pre + s| - 1] == s[|s| - 1];
    }
  }

  /** A trusted preset skips inspection: success, a claimed `bbox` column,
      and no schema. */
  lemma TrustedPresetSkipsInspection(url: string, presets: Presets, probe: Probe)
    requires probe.connectError.None? && probe.setupError.None?
    requires !NeedsValidation(presets, url)
    ensures RunValidation(url, presets, probe)
         == Report([Progress("Connecting to data source..."),
                    Finished(true, Successful, Profile(None, Some(true), Some("bbox"), Some(DefaultGeometry)))],
                   false)
  {
  }

  /** A `bbox` struct column settles the question before the metadata is
      read: whatever the metadata says, the run claims `bbox`. */
  lemma StructColumnWins(url: string, presets: Presets, probe: Probe, other: Answer<seq<KvEntry>>)
    requires probe.connectError.None? && probe.setupError.None? && NeedsValidation(presets, url)
    requires probe.schema.Answered? && HasBboxStruct(probe.schema.value)
    ensures RunValidation(url, presets, probe) == RunValidation(url, presets, probe.(metadata := other))
    ensures var s := RunValidation(url, presets, probe).signals;
            s[|s| - 1] == Finished(true, Successful,
                                   Profile(Some(probe.schema.value), Some(true), Some("bbox"), Some(DefaultGeometry)))
  {
  }

  /** Without a struct column, the first `geo` entry naming a covering
      column decides, quotes stripped. */
  lemma MetadataNamesTheColumn(url: string, presets: Presets, probe: Probe, i: nat)
    requires probe.connectError.None? && probe.setupError.None? && NeedsValidation(presets, url)
    requires probe.schema.Answered? && !HasBboxStruct(probe.schema.value)
    requires probe.metadata.Answered? && i < |probe.metadata.value|
    requires NamesCovering(probe.metadata.value[i])
    requires forall j | 0 <= j < i :: !NamesCovering(probe.metadata.value[j])
    requires StripChars(probe.metadata.value[i].path.value.value, Quote) != ""
    ensures var s := RunValidation(url, presets, probe).signals;
            s[|s| - 1].ok && s[|s| - 1].results.bboxColumn
              == Some(StripChars(probe.metadata.value[i].path.value.value, Quote))
  {
    var entries := probe.metadata.value;
    assert FirstIndex(entries, NamesCovering) == Some(i);
  }

  /** A failing step is reported as a failed `finished` carrying the
      exception text, after the bbox warning; only a connection failure
      escapes `run` as well. */
  lemma FailuresAreReported(url: string, presets: Presets, probe: Probe)
    ensures var r := RunValidation(url, presets, probe);
            var last := r.signals[|r.signals| - 1];
            (!last.ok ==> IsPrefix("Error validating source: ", last.message))
            && (r.escapes <==> probe.connectError.Some?)
            && (probe.connectError.Some? ==>
                  last == Finished(false, "Error validating source: " + probe.connectError.value, Defaults))
  {
    var connecting := [Progress("Connecting to data source...")];
    if probe.connectError.Some? {
      FailureIsPrefixed(connecting, probe.connectError.value, Defaults);
    } else if probe.setupError.Some? {
      FailureIsPrefixed(connecting, probe.setupError.value, Defaults);
    } else if NeedsValidation(presets, url) {
      var pre := connecting + [Progress("Checking data format...")];
      InspectFailuresArePrefixed(probe);
      var s := Inspect(probe);
      assert (pre + s)[|pre + s| - 1] == s[|s| - 1];
    }
  }

  lemma FailureIsPrefixed(pre: seq<Signal>, message: string, results: Profile)
    ensures var s := pre + Failure(message, results);
            s[|s| - 1] == Finished(false, "Error validating source: " + message, results)
            && IsPrefix("Error validating source: ", s[|s| - 1].message)
  {
    PrefixOfAppend("Error validating source: ", message);
  }

  lemma InspectFailuresArePrefixed(probe: Probe)
    ensures var s := Inspect(probe);
            |s| > 0 && (!s[|s| - 1].ok ==> IsPrefix("Error validating source: ", s[|s| - 1].message))
  {
    match probe.schema
    case Raised(m) => FailureIsPrefixed([], m, Defaults);
    case Answered(schema) =>
      if !HasBboxStruct(schema) && probe.metadata.Raised? {
        FailureIsPrefixed([], probe.metadata.message, Defaults.(schema := Some(schema)));
      }
  }
}
