/** The earlier single-file version of the plugin,
    `qgis_plugin_gpq_downloader.py`: its download worker, its validation
    worker, its dialog and the plugin code joining them. Unlike the current
    version, the legacy plugin always validates, hands the validation
    dictionary to the download worker, and the worker trusts it: the bbox
    column it names is filtered on without being checked against the live
    schema. The engine is the same oracle as for the current worker. */
module Legacy {
  import opened Common
  import opened Text
  import opened Schema
  import opened Catalog
  import opened Query
  import opened Acquisition
  import V = Validation
  import D = Dialog

  // ---- Worker.run ----

  const LegacyNoData: string :=
    "No data found in the requested area. Check that your map extent overlaps with the data and/or expand your map extent."

  /** The export decision: database, then format, then the engine's answer.
      There is no size guard. */
  function LegacyOutcome(job: Job, engine: Engine): (r: Outcome)
    ensures !r.SizeStop?
    ensures (r.DatabaseFailed? || r.DatabaseSaved?) <==> LegacyExportFor(job.outputFile).CommitDatabase?
    ensures r.NoFormat? <==> LegacyExportFor(job.outputFile).Unsupported?
    ensures (r.DatabaseFailed? || r.CopyFailed?) <==> !r.NoFormat? && engine.exportError.Some?
    ensures (r.DatabaseFailed? || r.CopyFailed?) ==> r.message == engine.exportError.value
  {
    var target := LegacyExportFor(job.outputFile);
    if target.CommitDatabase? then
      if engine.exportError.Some? then DatabaseFailed(engine.exportError.value) else DatabaseSaved
    else if target.Unsupported? then NoFormat
    else if engine.exportError.Some? then CopyFailed(engine.exportError.value)
    else Copied
  }

  /** The `except` block: the raw message unless killed. */
  function Gated(message: string, killed: bool): seq<Event> {
    if killed then [] else [Error(message)]
  }

  function LegacyExportSignals(o: Outcome, outputFile: string, kill: Kill): seq<Event> {
    match o
    case DatabaseFailed(m) => Gated(m, Sees(kill, Exporting))
    case DatabaseSaved =>
      (if Sees(kill, Exporting) then [] else [Info(DuckDbSaved)]) + Conclude(outputFile, kill)
    case SizeStop(_) => []
    case NoFormat => [Error(UnsupportedFormat)] + Gated(UnboundFormatOptions, Sees(kill, Exporting))
    case CopyFailed(m) => Gated(m, Sees(kill, Exporting))
    case Copied => Conclude(outputFile, kill)
  }

  /** The signals after the progress messages. A connection failure escapes
      `run` without any. */
  function LegacySignals(reach: Reach, o: Outcome, outputFile: string, kill: Kill): seq<Event> {
    match reach
    case ConnectFailed(_) => []
    case SchemaFailed(m) => Gated(m, Sees(kill, SchemaCheck))
    case NoArea => Gated(NoneHasNoXMinimum, Sees(kill, Materializing))
    case RowsFailed(m) => Gated(m, Sees(kill, Materializing))
    case NoRows => [Error(LegacyNoData)]   // not gated by `killed`
    case Rows(_) => LegacyExportSignals(o, outputFile, kill)
  }

  /** The legacy worker's trace: the current worker's progress messages
      without a layer name, then the signals. */
  function LegacyTrace(reach: Reach, o: Outcome, outputFile: string, kill: Kill): seq<Event> {
    Progresses(reach, "") + LegacySignals(reach, o, outputFile, kill)
  }

  datatype LegacyRun = LegacyRun(
    events: seq<Event>,
    escapes: bool,          // the exception of the first `duckdb.connect()`
    profile: Profile,
    query: Option<Materialization>,
    written: Option<Export>)

  /** One run of the legacy `Worker.run`. The job's layer name and size
      acceptance are not read. */
  function RunLegacyWorker(job: Job, engine: Engine, kill: Kill): LegacyRun {
    var reach, o := ReachOf(job, engine), LegacyOutcome(job, engine);
    var schemaRead := !reach.ConnectFailed? && !reach.SchemaFailed?;
    LegacyRun(
      LegacyTrace(reach, o, job.outputFile, kill),
      reach.ConnectFailed?,
      if schemaRead then job.profile.(schema := Some(engine.schema.value)) else job.profile,
      if !schemaRead || reach.NoArea? then None
      else Some(Materialization(
        LegacySelectFor(job.outputFile, job.url, engine.schema.value),
        LegacyPredicate(job.profile.bboxColumn,
                        TransformBboxTo4326(job.extent, job.canvasCrs, job.reprojected).value))),
      if !reach.Rows? || o.NoFormat? then None else Some(LegacyExportFor(job.outputFile)))
  }

  // ---- Properties of the legacy worker ----

  /** No size warning among the signals. */
  predicate Unwarned(s: seq<Event>) {
    forall e | e in s :: !e.FileSizeWarning?
  }

  lemma GatedShaped(m: string, killed: bool)
    ensures Shaped(Gated(m, killed), !killed) && Unwarned(Gated(m, killed))
  {
  }

  lemma LegacyExportShaped(o: Outcome, outputFile: string, kill: Kill)
    requires !o.SizeStop?
    ensures var s := LegacyExportSignals(o, outputFile, kill);
            Shaped(s, kill.NotKilled?) && Unwarned(s)
  {
    var killed := Sees(kill, Exporting);
    match o
    case DatabaseFailed(m) => GatedShaped(m, killed);
    case DatabaseSaved =>
      ConcludeShaped(outputFile, kill);
      var c := Conclude(outputFile, kill);
      assert Unwarned(c);
      if !killed {
        ShapedPrepend(Info(DuckDbSaved), c, kill.NotKilled?);
        assert Unwarned([Info(DuckDbSaved)] + c);
      } else {
        assert c == [];
      }
    case NoFormat =>
      GatedShaped(UnboundFormatOptions, killed);
      var g := Gated(UnboundFormatOptions, killed);
      ShapedPrepend(Error(UnsupportedFormat), g, false);
      if kill.NotKilled? {
        ShapedPrepend(Error(UnsupportedFormat), g, true);
      }
      assert Unwarned([Error(UnsupportedFormat)] + g);
    case CopyFailed(m) => GatedShaped(m, killed);
    case Copied =>
      ConcludeShaped(outputFile, kill);
      assert Unwarned(Conclude(outputFile, kill));
  }

  lemma LegacySignalsShape(reach: Reach, o: Outcome, outputFile: string, kill: Kill)
    requires !o.SizeStop?
    ensures var s := LegacySignals(reach, o, outputFile, kill);
            Shaped(s, kill.NotKilled? && !reach.ConnectFailed?) && Unwarned(s)
  {
    var s := LegacySignals(reach, o, outputFile, kill);
    match reach
    case ConnectFailed(_) =>
      assert s == [];
    case SchemaFailed(m) =>
      assert s == Gated(m, Sees(kill, SchemaCheck));
      GatedShaped(m, Sees(kill, SchemaCheck));
    case NoArea =>
      assert s == Gated(NoneHasNoXMinimum, Sees(kill, Materializing));
      GatedShaped(NoneHasNoXMinimum, Sees(kill, Materializing));
    case RowsFailed(m) =>
      assert s == Gated(m, Sees(kill, Materializing));
      GatedShaped(m, Sees(kill, Materializing));
    case NoRows =>
      assert s == [Error(LegacyNoData)];
    case Rows(_) =>
      assert s == LegacyExportSignals(o, outputFile, kill);
      LegacyExportShaped(o, outputFile, kill);
  }

  /** The legacy trace has the current trace's shape, never warns about
      size, and ends in `finished` or `error` unless cancelled or unless
      the first connection raised. */
  lemma LegacyTraceShape(reach: Reach, o: Outcome, outputFile: string, kill: Kill)
    requires !o.SizeStop?
    ensures var t := LegacyTrace(reach, o, outputFile, kill);
            FinishedOnlyLast(t) && ProgressFirst(t) && (forall e | e in t :: !e.FileSizeWarning?)
            && (kill.NotKilled? && !reach.ConnectFailed? ==> |t| > 0 && IsTerminal(t[|t| - 1]))
  {
    var p, s := Progresses(reach, ""), LegacySignals(reach, o, outputFile, kill);
    LegacySignalsShape(reach, o, outputFile, kill);
    ProgressThenShaped(p, s, kill.NotKilled? && !reach.ConnectFailed?);
    UnwarnedAppend(p, s);
  }

  lemma UnwarnedAppend(p: seq<Event>, s: seq<Event>)
    requires forall i :: 0 <= i < |p| ==> p[i].Progress?
    requires Unwarned(s)
    ensures Unwarned(p + s)
  {
    forall e | e in p + s ensures !e.FileSizeWarning? {
      if e in p {
        var i :| 0 <= i < |p| && p[i] == e;
      }
    }
  }

  /** No signal follows `finished`, progress comes first, and there is never
      a size warning. */
  lemma LegacyRunShape(job: Job, engine: Engine, kill: Kill)
    ensures var evs := RunLegacyWorker(job, engine, kill).events;
            FinishedOnlyLast(evs) && ProgressFirst(evs) && (forall e | e in evs :: !e.FileSizeWarning?)
  {
    LegacyTraceShape(ReachOf(job, engine), LegacyOutcome(job, engine), job.outputFile, kill);
  }

  lemma LegacyTraceConnectFailed(m: string, o: Outcome, outputFile: string, kill: Kill)
    ensures LegacyTrace(ConnectFailed(m), o, outputFile, kill) == [Progress("Connecting to database...")]
  {
    var p := Progresses(ConnectFailed(m), "");
    assert |p| == 1 && p[0] == Progress(Milestones("")[0]);
    assert Milestones("")[0] == "Connecting to database" + "" + "...";
    assert "Connecting to database" + "" + "..." == "Connecting to database...";
    assert p == [Progress("Connecting to database...")];
    assert LegacySignals(ConnectFailed(m), o, outputFile, kill) == [];
    assert p + [] == p;
  }

  /** The first connection is opened outside the `try`: when it raises, the
      exception escapes after the first progress message and nothing else
      is reported. It is the only way a run escapes. */
  lemma LegacyConnectFailureEscapes(job: Job, engine: Engine, kill: Kill)
    ensures RunLegacyWorker(job, engine, kill).escapes <==> engine.connectError.Some?
    ensures engine.connectError.Some? ==>
              RunLegacyWorker(job, engine, kill).events == [Progress("Connecting to database...")]
  {
    if engine.connectError.Some? {
      LegacyTraceConnectFailed(engine.connectError.value, LegacyOutcome(job, engine), job.outputFile, kill);
    }
  }

  lemma LegacyTraceNoRows(o: Outcome, outputFile: string, kill: Kill)
    ensures var t := LegacyTrace(NoRows, o, outputFile, kill);
            EndsIn(t, [Error(LegacyNoData)]) && Finished !in t
  {
    var p := Progresses(NoRows, "");
    EndsInAppend(p, [Error(LegacyNoData)], [Error(LegacyNoData)]);
    assert forall e | e in p :: e.Progress?;
  }

  /** Zero rows is reported as an error, cancelled or not, and the run
      never finishes; the current worker reports it as a notice and
      finishes. */
  lemma LegacyZeroRowsIsAnError(job: Job, engine: Engine, kill: Kill)
    requires ReachOf(job, engine).NoRows?
    ensures var evs := RunLegacyWorker(job, engine, kill).events;
            EndsIn(evs, [Error(LegacyNoData)]) && Finished !in evs
    ensures var evs := RunWorker(job, engine, kill).events;
            EndsIn(evs, [Info(NoDataInArea(LayerInfo(job.layerName))), Finished])
  {
    LegacyTraceNoRows(LegacyOutcome(job, engine), job.outputFile, kill);
    ZeroRowsSkipsWhateverTheKill(job, engine, kill);
  }

  lemma LegacyTraceNoFormat(reach: Reach, outputFile: string, kill: Kill)
    requires reach.Rows? && !Sees(kill, Exporting)
    ensures var t := LegacyTrace(reach, NoFormat, outputFile, kill);
            EndsIn(t, [Error(UnsupportedFormat), Error(UnboundFormatOptions)]) && Finished !in t
  {
    var p := Progresses(reach, "");
    var s := LegacySignals(reach, NoFormat, outputFile, kill);
    assert s == [Error(UnsupportedFormat), Error(UnboundFormatOptions)];
    EndsInAppend(p, s, s);
    assert forall e | e in p :: e.Progress?;
  }

  /** A `.geojson` name has no format options in the legacy worker: it is
      reported unsupported, then the unbound options are reported unless
      cancelled, and nothing is written. */
  lemma LegacyGeoJsonIsUnsupported(job: Job, engine: Engine, kill: Kill, stem: string)
    requires job.outputFile == stem + ".geojson"
    requires ReachOf(job, engine).Rows? && !Sees(kill, Exporting)
    ensures var run := RunLegacyWorker(job, engine, kill);
            EndsIn(run.events, [Error(UnsupportedFormat), Error(UnboundFormatOptions)])
            && Finished !in run.events && run.written.None?
  {
    DispatchGeoJson(stem);
    LegacyExportDiffers(job.outputFile);
    assert LegacyOutcome(job, engine) == NoFormat;
    LegacyTraceNoFormat(ReachOf(job, engine), job.outputFile, kill);
  }

  /** The legacy WHERE clause filters on whatever bbox column the dictionary
      it was given names, whether or not the schema has it; without one it
      intersects the bare `geometry` column. */
  lemma LegacyTrustsTheDictionary(job: Job, engine: Engine, kill: Kill)
    requires ReachOf(job, engine).Rows?
    ensures var q := RunLegacyWorker(job, engine, kill).query;
            q.Some?
            && (q.value.pred.BboxBetween? <==> job.profile.bboxColumn.Some? && job.profile.bboxColumn.value != "")
            && (q.value.pred.BboxBetween? ==> q.value.pred.column == job.profile.bboxColumn.value)
            && (q.value.pred.Intersects? ==> q.value.pred.geometry == Bare(DefaultGeometry))
  {
  }

  // ---- ValidationWorker.run ----

  /** The dictionary a failed validation reports: `{}`. */
  const Empty: Profile := Profile(None, None, None, None)

  /** `{'has_bbox': True, 'bbox_column': 'bbox'}` for a trusted preset. */
  const Trusted: Profile := Profile(None, Some(true), Some("bbox"), None)

  function Failed(message: string): V.Signal {
    V.Finished(false, "Error validating source: " + message, Empty)
  }

  /** The legacy `ValidationWorker.run`, over the hard-coded catalog. A
      failure reports `{}` and no warning; a source without a bbox column
      gets the warning and no `finished`. A connection failure also escapes
      from the `finally` clause. */
  function RunLegacyValidation(url: string, probe: V.Probe): V.Report {
    var connecting := [V.Progress("Connecting to data source...")];
    if probe.connectError.Some? then V.Report(connecting + [Failed(probe.connectError.value)], true)
    else if probe.setupError.Some? then V.Report(connecting + [Failed(probe.setupError.value)], false)
    else if !NeedsValidation(LegacyPresets, url) then
      V.Report(connecting + [V.Finished(true, V.Successful, Trusted)], false)
    else V.Report(connecting + [V.Progress("Checking data format...")] + LegacyInspect(probe), false)
  }

  function LegacyInspect(probe: V.Probe): seq<V.Signal> {
    match probe.schema
    case Raised(m) => [Failed(m)]
    case Answered(schema) =>
      var results := Profile(Some(schema), Some(false), None, None);
      if HasBboxStruct(schema) then [V.Finished(true, V.Successful, V.Claiming(results, "bbox"))]
      else match probe.metadata
        case Raised(m) => [Failed(m)]
        case Answered(entries) =>
          var found := V.CheckBboxMetadata(entries);
          if found.Some? && found.value != "" then
            [V.Finished(true, V.Successful, V.Claiming(results, found.value))]
          else [V.NeedsBboxWarning]
  }

  /** A dictionary claims a bbox exactly when it names a non-empty column. */
  predicate Named(p: Profile) {
    p.hasBbox == Some(true) <==> p.bboxColumn.Some? && p.bboxColumn.value != ""
  }

  predicate FinishesNamed(s: seq<V.Signal>) {
    forall i | 0 <= i < |s| :: s[i].Finished? ==> Named(s[i].results)
  }

  /** A legacy run either finishes exactly once, last, or asks for the bbox
      warning as its last signal and never finishes; every dictionary it
      reports is named. */
  lemma LegacyValidationEnds(url: string, probe: V.Probe)
    ensures var s := RunLegacyValidation(url, probe).signals;
            |s| > 0
            && (s[|s| - 1].Finished? || s[|s| - 1].NeedsBboxWarning?)
            && (forall i | 0 <= i < |s| - 1 :: s[i].Progress?)
            && FinishesNamed(s)
  {
    var connecting := [V.Progress("Connecting to data source...")];
    if probe.connectError.Some? {
      EndsAfterProgress(connecting, Failed(probe.connectError.value));
    } else if probe.setupError.Some? {
      EndsAfterProgress(connecting, Failed(probe.setupError.value));
    } else if !NeedsValidation(LegacyPresets, url) {
      EndsAfterProgress(connecting, V.Finished(true, V.Successful, Trusted));
    } else {
      InspectIsOneEnd(probe);
      var last := LegacyInspect(probe)[0];
      assert LegacyInspect(probe) == [last];
      EndsAfterProgress(connecting + [V.Progress("Checking data format...")], last);
    }
  }

  /** What a single inspection signal can be. */
  lemma InspectIsOneEnd(probe: V.Probe)
    ensures |LegacyInspect(probe)| == 1
    ensures var e := LegacyInspect(probe)[0];
            (e.Finished? || e.NeedsBboxWarning?) && (e.Finished? ==> Named(e.results))
  {
  }

  /** Progress messages followed by one ending signal. */
  lemma EndsAfterProgress(pre: seq<V.Signal>, last: V.Signal)
    requires forall i | 0 <= i < |pre| :: pre[i].Progress?
    requires last.Finished? || last.NeedsBboxWarning?
    requires last.Finished? ==> Named(last.results)
    ensures var s := pre + [last];
            |s| > 0 && (s[|s| - 1].Finished? || s[|s| - 1].NeedsBboxWarning?)
            && (forall i | 0 <= i < |s| - 1 :: s[i].Progress?)
            && FinishesNamed(s)
  {
    var s := pre + [last];
    forall i | 0 <= i < |s| - 1 ensures s[i].Progress? {
      assert s[i] == pre[i];
    }
  }

  /** The versions differ on every failure and on every source without a
      bbox column: the legacy run reports failures without the warning and
      with an empty dictionary, and warns without finishing. */
  lemma ValidationVersionsDiffer(url: string, probe: V.Probe)
    requires probe.connectError.None? && probe.setupError.None?
    requires probe.schema.Answered? && !HasBboxStruct(probe.schema.value) && probe.metadata.Answered?
    requires var found := V.CheckBboxMetadata(probe.metadata.value); found.None? || found.value == ""
    requires NeedsValidation(LegacyPresets, url)
    ensures var s := RunLegacyValidation(url, probe).signals;
            s[|s| - 1] == V.NeedsBboxWarning && forall i | 0 <= i < |s| :: !s[i].Finished?
    ensures var s := V.RunValidation(url, LegacyPresets, probe).signals;
            s[|s| - 1].Finished? && s[|s| - 1].ok
  {
    V.FinishedExactlyOnceLast(url, LegacyPresets, probe);
  }

  // ---- The dialog ----

  /** The legacy form: one Overture theme and one base subtype, chosen from
      combo boxes. */
  datatype LegacyForm = LegacyForm(
    mode: D.Mode,
    urlText: string,
    overtureChoice: string,   // an item `key.title()`
    subtypeChoice: string,
    sourceCoopChoice: string,
    otherChoice: string)

  /** `get_url`: the empty string when nothing is selected. */
  function LegacyGetUrl(f: LegacyForm): Result<string> {
    if f.mode.CustomUrl? then Ok(Strip(f.urlText))
    else if f.mode.OvertureMaps? then OvertureUrl(LegacyOverture, f.overtureChoice, f.subtypeChoice)
    else if f.mode.SourceCoop? then ChosenUrl(LegacySourceCoop, f.sourceCoopChoice)
    else if f.mode.OtherSources? then ChosenUrl(LegacyOther, f.otherChoice)
    else Ok("")
  }

  /** The Overture branch: the combo text lower-cased is the theme key, and
      the base theme takes its type from the subtype combo. */
  function OvertureUrl(entries: seq<Preset>, choice: string, subtype: string): Result<string> {
    var theme := Lower(choice);
    match EntryNamed(entries, theme)
    case None => Crash("KeyError: '" + theme + "'")
    case Some(d) =>
      var typeName := if theme == "base" then subtype else D.TypeName(theme);
      if d.urlTemplate.None? then Crash("KeyError: 'url_template'")
      else Ok(D.Format(d.urlTemplate.value, typeName))
  }

  function ChosenUrl(ps: seq<Preset>, choice: string): Result<string> {
    match D.FindByDisplayName(ps, choice)
    case Crash(m) => Crash(m)
    case Ok(None) => Ok("")
    case Ok(Some(d)) => if d.url.None? then Crash("KeyError: 'url'") else Ok(d.url.value)
  }

  /** Lower-casing undoes `title()` on a word of lower-case letters. */
  lemma {:induction false} LowerUndoesTitle(s: string, prev: bool)
    requires forall i | 0 <= i < |s| :: 'a' <= s[i] <= 'z'
    ensures Lower(TitleAfter(s, prev)) == s
    decreases |s|
  {
    if |s| > 0 {
      var c := if prev then LowerChar(s[0]) else UpperChar(s[0]);
      LowerUndoesTitle(s[1..], IsLetter(s[0]));
      LowerAppend([c], TitleAfter(s[1..], IsLetter(s[0])));
      assert Lower([c]) == [s[0]];
      assert s == [s[0]] + s[1..];
    }
  }

  /** Choosing the combo item of a theme key gives that theme's template
      with its type name filled in. */
  lemma OvertureChoiceFindsTheme(entries: seq<Preset>, key: string, subtype: string)
    requires forall i | 0 <= i < |key| :: 'a' <= key[i] <= 'z'
    requires key != "base" && EntryNamed(entries, key).Some?
    requires EntryNamed(entries, key).value.urlTemplate.Some?
    ensures OvertureUrl(entries, Title(key), subtype)
         == Ok(D.Format(EntryNamed(entries, key).value.urlTemplate.value, D.TypeName(key)))
  {
    LowerUndoesTitle(key, false);
  }

  const LegacySelectOne: string := "Please enter a URL or select a dataset"
  const LegacyBadScheme: string := "URL must start with http://, https://, s3://, hf://,or file://"

  /** `validate_and_accept`: every non-empty URL with an acceptable scheme
      is validated, presets included. */
  function LegacyValidateAndAccept(f: LegacyForm): Result<D.Decision> {
    match LegacyGetUrl(f)
    case Crash(m) => Crash(m)
    case Ok(url) =>
      if url == "" then Ok(D.Warn(LegacySelectOne))
      else if f.mode == D.CustomUrl && !D.HasAllowedScheme(url) then Ok(D.Warn(LegacyBadScheme))
      else Ok(D.StartValidation(url))
  }

  /** The legacy dialog validates exactly the non-empty URLs that are not
      custom URLs with a bad scheme; it never accepts without validating. */
  lemma LegacyAlwaysValidates(f: LegacyForm)
    requires LegacyGetUrl(f).Ok?
    ensures var url := LegacyGetUrl(f).value;
            var d := LegacyValidateAndAccept(f);
            d.Ok? && !d.value.Accept?
            && (d.value.StartValidation? <==> url != "" && (f.mode != D.CustomUrl || D.HasAllowedScheme(url)))
            && (d.value.StartValidation? ==> d.value.url == url)
  {
  }

  /** `show_bbox_warning` reports `{'has_bbox': False, 'schema': None}`. */
  const Declared: Profile := Profile(None, Some(false), None, None)

  /** The legacy reaction. Closing the progress dialog emits its
      `canceled` signal, which runs `cleanup_validation(False)` and so
      `reject()`: the bbox warning rejects the dialog before the question
      is asked and the answer reported, and every `finished` is followed
      by a rejection, after the accept of a successful run. */
  function LegacyReact(s: V.Signal, yes: bool): seq<D.Effect> {
    match s
    case Progress(m) => [D.LabelText(m)]
    case NeedsBboxWarning =>
      if yes then [D.Rejected, D.Complete(true, V.Successful, Declared)]
      else [D.Rejected, D.Complete(false, D.Cancelled, Declared)]
    case Finished(ok, m, res) =>
      if ok then [D.Complete(true, m, res), D.Accepted, D.Rejected]
      else [D.Warned(m), D.Complete(false, m, res), D.Rejected]
  }

  function LegacyReactAll(signals: seq<V.Signal>, yes: bool): seq<D.Effect> {
    if |signals| == 0 then [] else LegacyReact(signals[0], yes) + LegacyReactAll(signals[1..], yes)
  }

  /** Every dictionary the dialog passes on is named when the run's are. */
  lemma {:induction false} ReactionKeepsNamed(signals: seq<V.Signal>, yes: bool)
    requires FinishesNamed(signals)
    ensures forall e | e in LegacyReactAll(signals, yes) && e.Complete? :: Named(e.results)
  {
    if |signals| > 0 {
      assert FinishesNamed(signals[1..]) by {
        forall i | 0 <= i < |signals[1..]| ensures signals[1..][i].Finished? ==> Named(signals[1..][i].results) {
          assert signals[1..][i] == signals[i + 1];
        }
      }
      ReactionKeepsNamed(signals[1..], yes);
      assert signals[0].Finished? ==> Named(signals[0].results);
    }
  }

  /** Every legacy validation closes the dialog. At the bbox warning the
      dialog is rejected before the user's answer is reported, and never
      accepted; after `finished` the last thing the dialog does is reject
      itself, having accepted first exactly when the run succeeded. The
      current dialog, by contrast, never rejects (`Dialog.NeverRejects`). */
  lemma LegacyValidationCloses(url: string, probe: V.Probe, yes: bool)
    ensures var s := RunLegacyValidation(url, probe).signals;
            var e := LegacyReactAll(s, yes);
            |s| > 0 && |e| >= 2 && D.Rejected in e
            && (s[|s| - 1].NeedsBboxWarning? ==>
                  e[|e| - 2] == D.Rejected
                  && e[|e| - 1] == D.Complete(yes, if yes then V.Successful else D.Cancelled, Declared)
                  && D.Accepted !in e)
            && (s[|s| - 1].Finished? ==>
                  e[|e| - 1] == D.Rejected && (D.Accepted in e <==> s[|s| - 1].ok))
  {
    var s := RunLegacyValidation(url, probe).signals;
    LegacyValidationEnds(url, probe);
    var pre := s[..|s| - 1];
    assert s == pre + [s[|s| - 1]];
    assert forall k | 0 <= k < |pre| :: pre[k].Progress?;
    if s[|s| - 1].NeedsBboxWarning? {
      EndsInWarning(pre, yes);
    } else {
      EndsInFinished(pre, s[|s| - 1], yes);
    }
  }

  /** Progress messages, then the bbox warning: the labels, then the
      rejection, then the answer. */
  lemma EndsInWarning(pre: seq<V.Signal>, yes: bool)
    requires forall i | 0 <= i < |pre| :: pre[i].Progress?
    ensures var e := LegacyReactAll(pre + [V.NeedsBboxWarning], yes);
            e == LegacyReactAll(pre, yes)
                 + [D.Rejected, D.Complete(yes, if yes then V.Successful else D.Cancelled, Declared)]
            && D.Accepted !in e
  {
    LegacyReactAllAppend(pre, [V.NeedsBboxWarning], yes);
    ProgressOnlyLabels(pre, yes);
  }

  /** Progress messages, then `finished`: the labels, then the reaction to
      the outcome, ending in the rejection. */
  lemma EndsInFinished(pre: seq<V.Signal>, last: V.Signal, yes: bool)
    requires forall i | 0 <= i < |pre| :: pre[i].Progress?
    requires last.Finished?
    ensures var e := LegacyReactAll(pre + [last], yes);
            |e| >= 2 && D.Rejected in e && e[|e| - 1] == D.Rejected && (D.Accepted in e <==> last.ok)
  {
    LegacyReactAllAppend(pre, [last], yes);
    ProgressOnlyLabels(pre, yes);
    var tail := LegacyReact(last, yes);
    assert LegacyReactAll([last], yes) == tail + LegacyReactAll([], yes);
    var e := LegacyReactAll(pre + [last], yes);
    assert e == LegacyReactAll(pre, yes) + tail;
    assert e[|e| - 1] == tail[|tail| - 1];
    if last.ok {
      assert e[|e| - 2] == D.Accepted;
    } else {
      assert D.Accepted !in tail;
    }
  }

  lemma {:induction false} LegacyReactAllAppend(a: seq<V.Signal>, b: seq<V.Signal>, yes: bool)
    ensures LegacyReactAll(a + b, yes) == LegacyReactAll(a, yes) + LegacyReactAll(b, yes)
  {
    if |a| > 0 {
      assert (a + b)[0] == a[0];
      assert (a + b)[1..] == a[1..] + b;
      LegacyReactAllAppend(a[1..], b, yes);
    } else {
      assert a + b == b;
    }
  }

  lemma {:induction false} ProgressOnlyLabels(s: seq<V.Signal>, yes: bool)
    requires forall i | 0 <= i < |s| :: s[i].Progress?
    ensures forall e | e in LegacyReactAll(s, yes) :: e.LabelText?
  {
    if |s| > 0 {
      assert forall i | 0 <= i < |s[1..]| :: s[1..][i] == s[i + 1];
      ProgressOnlyLabels(s[1..], yes);
    }
  }

  // ---- The plugin ----

  /** What `handle_validation_complete` does. */
  datatype LegacyAction = NoAction | ShowWarning(message: string) | Download(url: string, outputFile: string, profile: Profile)

  /** A successful validation asks where to save and downloads with the
      validation dictionary; a cancelled save dialog does nothing. */
  function OnValidationComplete(ok: bool, message: string, results: Profile, url: string, answer: string): (r: LegacyAction)
    ensures r.Download? <==> ok && answer != ""
    ensures r.Download? ==> r.profile == results && r.outputFile == answer && r.url == url
    ensures r.ShowWarning? <==> !ok
  {
    if !ok then ShowWarning(message)
    else if answer == "" then NoAction
    else Download(url, answer, results)
  }

  /** The default file name offered by the save dialog: Overture names carry
      the theme (and base subtype), Source Cooperative names a sanitised
      display name, and everything else, Hugging Face included, is a custom
      download. */
  function LegacyDefaultFilename(f: LegacyForm, date: string): (r: string)
    ensures EndsWith(r, ".parquet")
  {
    var stem :=
      if f.mode == D.OvertureMaps then
        var theme := Lower(f.overtureChoice);
        if theme == "base" then "overture_base_" + f.subtypeChoice + "_" + date
        else "overture_" + theme + "_" + date
      else if f.mode == D.SourceCoop then
        "sourcecoop_" + ReplaceChar(ReplaceChar(Lower(f.sourceCoopChoice), ' ', '_'), '/', '_') + "_" + date
      else "custom_download_" + date;
    SuffixOf(stem, ".parquet");
    stem + ".parquet"
  }

  /** Whatever the form, the offered name is written as Parquet. */
  lemma DefaultNameIsParquet(f: LegacyForm, date: string)
    ensures LegacyExportFor(LegacyDefaultFilename(f, date)) == Copy(ParquetZstd(None))
  {
    ParquetNamed(LegacyDefaultFilename(f, date));
  }

  /** From validation to query: every dictionary the plugin can download
      with filters on its bbox column exactly when it claims a bbox, and
      otherwise intersects the bare `geometry` column; a warning answered
      with yes leads to the intersection. */
  lemma ValidatedProfileDrivesPredicate(url: string, probe: V.Probe, yes: bool, area: Rect)
    ensures forall e | e in LegacyReactAll(RunLegacyValidation(url, probe).signals, yes) && e.Complete? && e.ok ::
              var pred := LegacyPredicate(e.results.bboxColumn, area);
              (pred.BboxBetween? <==> e.results.hasBbox == Some(true))
              && (pred.Intersects? ==> pred.geometry == Bare(DefaultGeometry))
    ensures LegacyPredicate(Declared.bboxColumn, area).Intersects?
  {
    LegacyValidationEnds(url, probe);
    ReactionKeepsNamed(RunLegacyValidation(url, probe).signals, yes);
  }
}
