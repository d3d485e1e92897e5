/** `Worker.run` in `gpq_downloader/utils.py`: one download as a linear
    sequence of steps, each of which may raise, producing the ordered trace
    of signals the worker emits (`progress`, `info`, `error`, `load_layer`,
    `finished`, `file_size_warning`), the profile dictionary as the run
    leaves it, the query it materialised and the export it executed.
    DuckDB's and QGIS's answers are inputs; cancellation is the point from
    which `killed` reads true. */
module Acquisition {
  import opened Common
  import opened Text
  import opened Schema
  import opened Query

  datatype Event =
    | Progress(message: string)
    | Info(message: string)
    | Error(message: string)
    | LoadLayer(path: string)
    | Finished
    | FileSizeWarning(megabytes: real)

  /** The points at which the worker reads `killed`, in execution order. */
  datatype Stage = Connecting | SchemaCheck | Materializing | Exporting | Loading

  function Ord(s: Stage): nat {
    match s
    case Connecting => 0
    case SchemaCheck => 1
    case Materializing => 2
    case Exporting => 3
    case Loading => 4
  }

  /** When `kill()` was called: never, or before the check at a stage. Once
      set, the flag stays set, so every later check reads it too. */
  datatype Kill = NotKilled | KilledFrom(stage: Stage)

  predicate Sees(k: Kill, at: Stage) {
    k.KilledFrom? && Ord(k.stage) <= Ord(at)
  }

  /** What the engine answers. A `Some` error is the text of the exception
      that step raises. */
  datatype Engine = Engine(
    connectError: Option<string>,   // the first in-memory `duckdb.connect()`
    setupError: Option<string>,     // the working connection and extension loading
    schema: Answer<seq<Column>>,    // DESCRIBE SELECT * FROM read_parquet(url)
    rows: Answer<nat>,              // CREATE TABLE ... AS, then SELECT COUNT(*)
    sample: Sample,                 // the GeoJSON size sample
    exportError: Option<string>)    // COMMIT or COPY ... TO

  /** The worker's constructor arguments, the map canvas CRS, and what QGIS
      reprojects the extent to. */
  datatype Job = Job(
    url: string,
    extent: Option<Rect>,
    canvasCrs: Option<Crs>,
    reprojected: Rect,
    outputFile: string,
    layerName: Option<string>,
    profile: Profile,
    sizeWarningAccepted: bool)

  /** The `CREATE TABLE download_data AS (SELECT ... WHERE ...)` statement. */
  datatype Materialization = Materialization(select: Select, pred: Pred)

  datatype Run = Run(
    events: seq<Event>,
    profile: Profile,
    query: Option<Materialization>,
    written: Option<Export>)

  const DuckDbSaved: string :=
    "Data has been successfully saved to DuckDB database.\n\nNote: QGIS does not currently support loading DuckDB files directly."
  const UnsupportedFormat: string := "Unsupported file format."
  /** The `UnboundLocalError` raised when `format_options` was never bound. */
  const UnboundFormatOptions: string := UnboundHead + UnboundName + UnboundTail
  const UnboundHead: string := "cannot access local variable "
  const UnboundName: string := "'format_options' "
  const UnboundTail: string := "where it is not associated with a value"
  /** The `AttributeError` raised when the WHERE clause reads a `None` area. */
  const NoneHasNoXMinimum: string := "'NoneType' object has no attribute 'xMinimum'"

  /** `f" for {layer_name}" if layer_name else ""`. */
  function LayerInfo(layerName: Option<string>): (r: string)
    ensures r == "" <==> layerName.None? || layerName.value == ""
  {
    if layerName.Some? && layerName.value != "" then " for " + layerName.value else ""
  }

  /** The words the handler looks for, and with which every skip notice
      starts. */
  const NoDataFound: string := "No data found"
  const SkipNotice: string := ". Skipping to next dataset if available."
  const NoDataInAreaTail: string :=
    " in the requested area. Check that your map extent overlaps with the data and/or expand your map extent. Skipping to next dataset if available."

  function NoDataInArea(li: string): string {
    NoDataFound + li + NoDataInAreaTail
  }

  function NoDataFor(li: string, url: string): string {
    NoDataFound + li + " in the requested area for " + url + SkipNotice
  }

  /** The inner `except` block: silent once killed, a skip notice for an
      engine message about missing data, the raw message otherwise. */
  function Handle(message: string, li: string, url: string, killed: bool): seq<Event> {
    if killed then []
    else if Contains(message, NoDataFound) then [Info(NoDataFor(li, url)), Finished]
    else [Error(message)]
  }

  /** After a successful export: nothing once killed, otherwise the database
      notice or the layer to load, then `finished`. */
  function Conclude(outputFile: string, kill: Kill): seq<Event> {
    if Sees(kill, Loading) then []
    else if EndsWith(Lower(outputFile), ".duckdb") then [Info(DuckDbSaved), Finished]
    else [LoadLayer(outputFile), Finished]
  }

  /** The profile as the worker leaves it once the schema is known: schema
      stored, geometry column detected if absent, bbox claim reconciled. */
  function Prepared(p: Profile, schema: seq<Column>): (r: Profile)
    ensures r.schema == Some(schema) && r.geometryColumn.Some?
  {
    Reconcile(WithGeometryColumn(p.(schema := Some(schema)), schema))
  }

  /** How far a run gets: the step that raised, or the row count it found. */
  datatype Reach =
    | ConnectFailed(message: string)  // raised outside the inner try
    | SchemaFailed(message: string)   // connection, extensions or DESCRIBE
    | NoArea                          // the area of interest is `None`
    | RowsFailed(message: string)     // CREATE TABLE or COUNT(*)
    | NoRows
    | Rows(count: nat)

  function ReachOf(job: Job, engine: Engine): (r: Reach)
    ensures r.ConnectFailed? <==> engine.connectError.Some?
    ensures r.ConnectFailed? ==> r.message == engine.connectError.value
    ensures r.Rows? ==> r.count > 0 && engine.rows == Answered(r.count)
    ensures (r.Rows? || r.NoRows? || r.RowsFailed?) ==>
      engine.schema.Answered? && TransformBboxTo4326(job.extent, job.canvasCrs, job.reprojected).Some?
  {
    if engine.connectError.Some? then ConnectFailed(engine.connectError.value)
    else if engine.setupError.Some? then SchemaFailed(engine.setupError.value)
    else if engine.schema.Raised? then SchemaFailed(engine.schema.message)
    else if TransformBboxTo4326(job.extent, job.canvasCrs, job.reprojected).None? then NoArea
    else if engine.rows.Raised? then RowsFailed(engine.rows.message)
    else if engine.rows.value == 0 then NoRows
    else Rows(engine.rows.value)
  }

  /** Where the export step ends, once rows have been materialised. */
  datatype Outcome =
    | DatabaseFailed(message: string)  // COMMIT raised
    | DatabaseSaved
    | SizeStop(estimate: real)         // the GeoJSON size guard tripped
    | NoFormat                         // no `format_options` for the name
    | CopyFailed(message: string)      // COPY ... TO raised
    | Copied

  /** The decisions from `file_extension` on, for the row count the engine
      reports: the database branch first, then the size guard, then the
      format, then the engine's answer. */
  function OutcomeOf(job: Job, engine: Engine): (r: Outcome)
    ensures var rows := if engine.rows.Answered? then engine.rows.value else 0;
            var trips := SizeGuardTrips(job.outputFile, EstimateFileSizeMb(rows, engine.sample), job.sizeWarningAccepted);
            && ((r.DatabaseFailed? || r.DatabaseSaved?) <==> ExportFor(job.outputFile).CommitDatabase?)
            && (r.SizeStop? <==> !ExportFor(job.outputFile).CommitDatabase? && trips)
            && (r.SizeStop? ==> r.estimate == EstimateFileSizeMb(rows, engine.sample))
            && (r.NoFormat? <==> ExportFor(job.outputFile).Unsupported? && !trips)
            && ((r.DatabaseFailed? || r.CopyFailed?) <==> !r.SizeStop? && !r.NoFormat? && engine.exportError.Some?)
            && (r.DatabaseFailed? ==> r.message == engine.exportError.value)
            && (r.CopyFailed? ==> r.message == engine.exportError.value)
  {
    var rows := if engine.rows.Answered? then engine.rows.value else 0;
    var target := ExportFor(job.outputFile);
    if target.CommitDatabase? then
      if engine.exportError.Some? then DatabaseFailed(engine.exportError.value) else DatabaseSaved
    else
      var estimate := EstimateFileSizeMb(rows, engine.sample);
      if SizeGuardTrips(job.outputFile, estimate, job.sizeWarningAccepted) then SizeStop(estimate)
      else if target.Unsupported? then NoFormat
      else if engine.exportError.Some? then CopyFailed(engine.exportError.value)
      else Copied
  }

  /** What the signals of a run depend on besides the decisions above. */
  datatype Names = Names(li: string, url: string, outputFile: string)

  function NamesOf(job: Job): Names {
    Names(LayerInfo(job.layerName), job.url, job.outputFile)
  }

  /** The progress messages, in the order the run emits them. */
  function Milestones(li: string): seq<string> {
    ["Connecting to database" + li + "...",
     "Loading spatial extension" + li + "...",
     "Preparing query" + li + "...",
     "Downloading" + li + " data...",
     "Processing" + li + " data to requested format..."]
  }

  /** How many progress messages a run emits before it stops. */
  function MilestonesReached(reach: Reach): (r: nat)
    ensures 1 <= r <= 5
  {
    match reach
    case ConnectFailed(_) => 1
    case SchemaFailed(_) => 2
    case NoArea => 3
    case RowsFailed(_) => 4
    case NoRows => 4
    case Rows(_) => 5
  }

  function Progresses(reach: Reach, li: string): (r: seq<Event>)
    ensures forall i :: 0 <= i < |r| ==> r[i].Progress?
  {
    var names := Milestones(li);
    seq(MilestonesReached(reach), i requires 0 <= i < 5 => Progress(names[i]))
  }

  /** The signals of the export step and what follows it. */
  function ExportSignals(o: Outcome, n: Names, kill: Kill): seq<Event> {
    match o
    case DatabaseFailed(m) => Handle(m, n.li, n.url, Sees(kill, Exporting))
    case DatabaseSaved =>
      (if Sees(kill, Exporting) then [] else [Info(DuckDbSaved)]) + Conclude(n.outputFile, kill)
    case SizeStop(estimate) => [FileSizeWarning(estimate)]
    case NoFormat =>
      [Error(UnsupportedFormat)] + Handle(UnboundFormatOptions, n.li, n.url, Sees(kill, Exporting))
    case CopyFailed(m) => Handle(m, n.li, n.url, Sees(kill, Exporting))
    case Copied => Conclude(n.outputFile, kill)
  }

  /** The signals other than progress, which all follow the last progress
      message. */
  function Signals(reach: Reach, o: Outcome, n: Names, kill: Kill): seq<Event> {
    match reach
    case ConnectFailed(m) => if Sees(kill, Connecting) then [] else [Error(m)]
    case SchemaFailed(m) => Handle(m, n.li, n.url, Sees(kill, SchemaCheck))
    case NoArea => Handle(NoneHasNoXMinimum, n.li, n.url, Sees(kill, Materializing))
    case RowsFailed(m) => Handle(m, n.li, n.url, Sees(kill, Materializing))
    case NoRows => [Info(NoDataInArea(n.li)), Finished]  // not gated by `killed`
    case Rows(_) => ExportSignals(o, n, kill)
  }

  /** The whole signal trace of a run that got as far as `reach`. */
  function Trace(reach: Reach, o: Outcome, n: Names, kill: Kill): seq<Event> {
    Progresses(reach, n.li) + Signals(reach, o, n, kill)
  }

  /** The export statement the run executed, if it reached one. */
  function Written(reach: Reach, o: Outcome, outputFile: string): Option<Export> {
    if !reach.Rows? || o.SizeStop? || o.NoFormat? then None else Some(ExportFor(outputFile))
  }

  /** The profile dictionary after the run: changed only once the schema
      has been read. */
  function ProfileAfter(job: Job, engine: Engine): Profile {
    match ReachOf(job, engine)
    case ConnectFailed(_) => job.profile
    case SchemaFailed(_) => job.profile
    case _ => Prepared(job.profile, engine.schema.value)
  }

  /** The CREATE TABLE statement, once the area of interest is known. */
  function QueryOf(job: Job, engine: Engine): Option<Materialization> {
    var reach := ReachOf(job, engine);
    if reach.ConnectFailed? || reach.SchemaFailed? || reach.NoArea? then None
    else
      var profile := Prepared(job.profile, engine.schema.value);
      var area := TransformBboxTo4326(job.extent, job.canvasCrs, job.reprojected).value;
      Some(Materialization(
        SelectFor(job.outputFile, job.url, engine.schema.value),
        BuildPredicate(profile.bboxColumn, profile.geometryColumn.value, area)))
  }

  /** One run of `Worker.run`. */
  function RunWorker(job: Job, engine: Engine, kill: Kill): Run {
    var reach, o := ReachOf(job, engine), OutcomeOf(job, engine);
    Run(Trace(reach, o, NamesOf(job), kill),
        ProfileAfter(job, engine),
        QueryOf(job, engine),
        Written(reach, o, job.outputFile))
  }

  // ---- Properties of a trace ----

  predicate IsTerminal(e: Event) {
    e.Finished? || e.Error? || e.FileSizeWarning?
  }

  /** `tail` is how `evs` ends. */
  predicate EndsIn(evs: seq<Event>, tail: seq<Event>) {
    |tail| <= |evs| && evs[|evs| - |tail|..] == tail
  }

  lemma EndsInAppend(a: seq<Event>, b: seq<Event>, tail: seq<Event>)
    requires EndsIn(b, tail)
    ensures EndsIn(a + b, tail)
  {
    assert (a + b)[|a + b| - |tail|..] == b[|b| - |tail|..];
  }

  /** `finished` is emitted at most once, and only as the last signal. */
  predicate FinishedOnlyLast(evs: seq<Event>) {
    forall i :: 0 <= i < |evs| - 1 ==> !evs[i].Finished?
  }

  /** Every progress message precedes every other signal. */
  predicate ProgressFirst(evs: seq<Event>) {
    forall i, j | 0 <= i < j < |evs| && evs[j].Progress? :: evs[i].Progress?
  }

  /** The messages the worker raises itself never mention missing data, so
      the handler reports them as errors. */
  lemma OwnMessagesAreErrors()
    ensures !Contains(UnsupportedFormat, NoDataFound)
    ensures !Contains(UnboundFormatOptions, NoDataFound)
  {
    assert NoDataFound[0] == 'N';
    FirstCharAbsent(UnsupportedFormat, NoDataFound);
    assert 'N' !in UnboundHead && 'N' !in UnboundName && 'N' !in UnboundTail;
    FirstCharAbsent(UnboundFormatOptions, NoDataFound);
  }

  /** A run of signals with no progress message, `finished` at most as its
      last element, and, when `mustEnd`, a terminal signal last. */
  predicate Shaped(s: seq<Event>, mustEnd: bool) {
    FinishedOnlyLast(s) && (forall e | e in s :: !e.Progress?)
    && (mustEnd ==> |s| > 0 && IsTerminal(s[|s| - 1]))
  }

  lemma HandleShaped(m: string, li: string, url: string, killed: bool)
    ensures Shaped(Handle(m, li, url, killed), !killed)
  {
  }

  lemma ConcludeShaped(outputFile: string, kill: Kill)
    ensures Shaped(Conclude(outputFile, kill), kill.NotKilled?)
  {
  }

  /** A notice or error in front of a shaped run keeps it shaped. */
  lemma ShapedPrepend(e: Event, s: seq<Event>, mustEnd: bool)
    requires !e.Progress? && !e.Finished? && Shaped(s, mustEnd)
    requires mustEnd ==> |s| > 0
    ensures Shaped([e] + s, mustEnd)
  {
    var t := [e] + s;
    forall i | 0 <= i < |t| - 1 ensures !t[i].Finished? {
      if i > 0 {
        assert t[i] == s[i - 1];
      }
    }
    forall x | x in t ensures !x.Progress? {
      if x != e {
        assert x in s;
      }
    }
    if mustEnd {
      assert t[|t| - 1] == s[|s| - 1];
    }
  }

  lemma ExportSignalsShaped(o: Outcome, n: Names, kill: Kill)
    ensures Shaped(ExportSignals(o, n, kill), kill.NotKilled?)
  {
    var killed := Sees(kill, Exporting);
    match o
    case DatabaseFailed(m) => HandleShaped(m, n.li, n.url, killed);
    case DatabaseSaved =>
      ConcludeShaped(n.outputFile, kill);
      if !killed {
        ShapedPrepend(Info(DuckDbSaved), Conclude(n.outputFile, kill), kill.NotKilled?);
      } else {
        assert Conclude(n.outputFile, kill) == [];
      }
    case SizeStop(estimate) =>
    case NoFormat =>
      HandleShaped(UnboundFormatOptions, n.li, n.url, killed);
      ShapedPrepend(Error(UnsupportedFormat), Handle(UnboundFormatOptions, n.li, n.url, killed), false);
      if kill.NotKilled? {
        ShapedPrepend(Error(UnsupportedFormat), Handle(UnboundFormatOptions, n.li, n.url, killed), true);
      }
    case CopyFailed(m) => HandleShaped(m, n.li, n.url, killed);
    case Copied => ConcludeShaped(n.outputFile, kill);
  }

  lemma SignalsShape(reach: Reach, o: Outcome, n: Names, kill: Kill)
    ensures Shaped(Signals(reach, o, n, kill), kill.NotKilled?)
  {
    var s := Signals(reach, o, n, kill);
    match reach
    case ConnectFailed(m) =>
      assert s == if Sees(kill, Connecting) then [] else [Error(m)];
    case SchemaFailed(m) =>
      assert s == Handle(m, n.li, n.url, Sees(kill, SchemaCheck));
      HandleShaped(m, n.li, n.url, Sees(kill, SchemaCheck));
    case NoArea =>
      assert s == Handle(NoneHasNoXMinimum, n.li, n.url, Sees(kill, Materializing));
      HandleShaped(NoneHasNoXMinimum, n.li, n.url, Sees(kill, Materializing));
    case RowsFailed(m) =>
      assert s == Handle(m, n.li, n.url, Sees(kill, Materializing));
      HandleShaped(m, n.li, n.url, Sees(kill, Materializing));
    case NoRows =>
      assert s == [Info(NoDataInArea(n.li)), Finished];
    case Rows(_) =>
      assert s == ExportSignals(o, n, kill);
      ExportSignalsShaped(o, n, kill);
  }

  /** Apart from progress, a trace holds exactly the signals. */
  lemma TraceSignals(reach: Reach, o: Outcome, n: Names, kill: Kill)
    ensures forall e: Event | !e.Progress? :: e in Trace(reach, o, n, kill) <==> e in Signals(reach, o, n, kill)
  {
    var p := Progresses(reach, n.li);
    forall e | e in p ensures e.Progress? {
    }
  }

  /** Whatever the engine answers and whenever the user cancels, no signal
      follows `finished`, so the plugin's completion handler runs at most
      once, and every progress message comes before every other signal. */
  lemma TraceShape(reach: Reach, o: Outcome, n: Names, kill: Kill)
    ensures FinishedOnlyLast(Trace(reach, o, n, kill))
    ensures ProgressFirst(Trace(reach, o, n, kill))
    ensures kill.NotKilled? ==>
              var t := Trace(reach, o, n, kill); |t| > 0 && IsTerminal(t[|t| - 1])
  {
    SignalsShape(reach, o, n, kill);
    ProgressThenShaped(Progresses(reach, n.li), Signals(reach, o, n, kill), kill.NotKilled?);
  }

  /** Progress messages followed by a shaped run of signals. */
  lemma ProgressThenShaped(p: seq<Event>, s: seq<Event>, mustEnd: bool)
    requires forall i :: 0 <= i < |p| ==> p[i].Progress?
    requires Shaped(s, mustEnd)
    ensures FinishedOnlyLast(p + s) && ProgressFirst(p + s)
    ensures mustEnd ==> |p + s| > 0 && IsTerminal((p + s)[|p + s| - 1])
  {
    var t := p + s;
    forall k | |p| <= k < |t| ensures !t[k].Progress? && (k < |t| - 1 ==> !t[k].Finished?) {
      assert t[k] == s[k - |p|];
      assert s[k - |p|] in s;
    }
    forall k | 0 <= k < |p| ensures t[k].Progress? {
      assert t[k] == p[k];
    }
  }

  lemma HandleNeverLoads(m: string, li: string, url: string, killed: bool)
    ensures forall e | e in Handle(m, li, url, killed) :: !e.LoadLayer?
  {
  }

  lemma ConcludeLoads(outputFile: string, kill: Kill)
    ensures var c := Conclude(outputFile, kill);
            (exists e | e in c :: e.LoadLayer?) <==> kill.NotKilled? && !EndsWith(Lower(outputFile), ".duckdb")
    ensures var c := Conclude(outputFile, kill);
            forall e | e in c && e.LoadLayer? :: e.path == outputFile && EndsIn(c, [e, Finished])
  {
    var c := Conclude(outputFile, kill);
    if kill.NotKilled? && !EndsWith(Lower(outputFile), ".duckdb") {
      assert c[0] == LoadLayer(outputFile);
    }
  }

  lemma NoticeThenConclude(pre: seq<Event>, outputFile: string, kill: Kill)
    requires forall e | e in pre :: !e.LoadLayer?
    ensures var s := pre + Conclude(outputFile, kill);
            (exists e | e in s :: e.LoadLayer?) <==> kill.NotKilled? && !EndsWith(Lower(outputFile), ".duckdb")
    ensures var s := pre + Conclude(outputFile, kill);
            forall e | e in s && e.LoadLayer? :: e.path == outputFile && EndsIn(s, [e, Finished])
  {
    var c := Conclude(outputFile, kill);
    ConcludeLoads(outputFile, kill);
    forall e | e in pre + c && e.LoadLayer?
      ensures e.path == outputFile && EndsIn(pre + c, [e, Finished])
    {
      assert e in c;
      EndsInAppend(pre, c, [e, Finished]);
    }
    if exists e | e in c :: e.LoadLayer? {
      var e :| e in c && e.LoadLayer?;
      assert e in pre + c;
    }
  }

  /** Only a committed export, never a failure, loads a layer. */
  lemma ExportSignalsLoad(o: Outcome, n: Names, kill: Kill)
    ensures var s := ExportSignals(o, n, kill);
            (exists e | e in s :: e.LoadLayer?)
            <==> (o.Copied? || o.DatabaseSaved?) && kill.NotKilled? && !EndsWith(Lower(n.outputFile), ".duckdb")
    ensures var s := ExportSignals(o, n, kill);
            forall e | e in s && e.LoadLayer? :: e.path == n.outputFile && EndsIn(s, [e, Finished])
  {
    var killed := Sees(kill, Exporting);
    match o
    case DatabaseFailed(m) => HandleNeverLoads(m, n.li, n.url, killed);
    case DatabaseSaved =>
      var pre: seq<Event> := if killed then [] else [Info(DuckDbSaved)];
      assert ExportSignals(o, n, kill) == pre + Conclude(n.outputFile, kill);
      NoticeThenConclude(pre, n.outputFile, kill);
    case SizeStop(estimate) =>
    case NoFormat => HandleNeverLoads(UnboundFormatOptions, n.li, n.url, killed);
    case CopyFailed(m) => HandleNeverLoads(m, n.li, n.url, killed);
    case Copied => ConcludeLoads(n.outputFile, kill);
  }

  lemma SignalsLoad(reach: Reach, o: Outcome, n: Names, kill: Kill)
    ensures var s := Signals(reach, o, n, kill);
            (exists e | e in s :: e.LoadLayer?)
            <==> reach.Rows? && (o.Copied? || o.DatabaseSaved?) && kill.NotKilled?
                 && !EndsWith(Lower(n.outputFile), ".duckdb")
    ensures var s := Signals(reach, o, n, kill);
            forall e | e in s && e.LoadLayer? :: e.path == n.outputFile && EndsIn(s, [e, Finished])
  {
    match reach
    case ConnectFailed(m) =>
    case SchemaFailed(m) => HandleNeverLoads(m, n.li, n.url, Sees(kill, SchemaCheck));
    case NoArea => HandleNeverLoads(NoneHasNoXMinimum, n.li, n.url, Sees(kill, Materializing));
    case RowsFailed(m) => HandleNeverLoads(m, n.li, n.url, Sees(kill, Materializing));
    case NoRows =>
    case Rows(_) => ExportSignalsLoad(o, n, kill);
  }

  /** `load_layer` appears exactly after a successful non-database export
      (or a database commit whose name does not end in `.duckdb`) nobody
      cancelled; it names the output file and only `finished` follows it. */
  lemma TraceLoads(reach: Reach, o: Outcome, n: Names, kill: Kill)
    ensures var t := Trace(reach, o, n, kill);
            (exists e | e in t :: e.LoadLayer?)
            <==> reach.Rows? && (o.Copied? || o.DatabaseSaved?) && kill.NotKilled?
                 && !EndsWith(Lower(n.outputFile), ".duckdb")
    ensures var t := Trace(reach, o, n, kill);
            forall e | e in t && e.LoadLayer? :: e.path == n.outputFile && EndsIn(t, [e, Finished])
  {
    var s := Signals(reach, o, n, kill);
    SignalsLoad(reach, o, n, kill);
    TraceSignals(reach, o, n, kill);
    if exists e | e in s :: e.LoadLayer? {
      EndsInAppend(Progresses(reach, n.li), s, [LoadLayer(n.outputFile), Finished]);
    }
  }

  /** Errors in the trace never mention missing data, except a connection
      failure, which is raised outside the reclassifying handler. */
  lemma TraceErrors(reach: Reach, o: Outcome, n: Names, kill: Kill)
    ensures forall e | e in Trace(reach, o, n, kill) && e.Error? ::
              !Contains(e.message, NoDataFound) || reach == ConnectFailed(e.message)
  {
    OwnMessagesAreErrors();
    TraceSignals(reach, o, n, kill);
  }

  /** A size stop is the only way to a `file_size_warning`, and then it is
      the whole of the signals after progress. */
  lemma TraceSizeWarning(reach: Reach, o: Outcome, n: Names, kill: Kill)
    ensures var t := Trace(reach, o, n, kill);
            (exists e | e in t :: e.FileSizeWarning?) <==> reach.Rows? && o.SizeStop?
    ensures reach.Rows? && o.SizeStop? ==>
              EndsIn(Trace(reach, o, n, kill), [FileSizeWarning(o.estimate)])
  {
    TraceSignals(reach, o, n, kill);
    if reach.Rows? && o.SizeStop? {
      assert FileSizeWarning(o.estimate) in Signals(reach, o, n, kill);
      EndsInAppend(Progresses(reach, n.li), Signals(reach, o, n, kill), [FileSizeWarning(o.estimate)]);
    }
  }

  /** An unsupported format reports itself and then the unbound options,
      and never finishes. */
  lemma TraceNoFormat(reach: Reach, n: Names, kill: Kill)
    requires reach.Rows? && !Sees(kill, Exporting)
    ensures var t := Trace(reach, NoFormat, n, kill);
            EndsIn(t, [Error(UnsupportedFormat), Error(UnboundFormatOptions)]) && Finished !in t
  {
    OwnMessagesAreErrors();
    TraceSignals(reach, NoFormat, n, kill);
    EndsInAppend(Progresses(reach, n.li), Signals(reach, NoFormat, n, kill),
                 [Error(UnsupportedFormat), Error(UnboundFormatOptions)]);
  }

  /** With zero rows the trace ends in the empty-area notice and `finished`,
      holds no error, and does not depend on cancellation. */
  lemma TraceNoRows(o: Outcome, n: Names, kill: Kill)
    ensures Trace(NoRows, o, n, kill) == Trace(NoRows, o, n, NotKilled)
    ensures EndsIn(Trace(NoRows, o, n, kill), [Info(NoDataInArea(n.li)), Finished])
    ensures forall e | e in Trace(NoRows, o, n, kill) :: !e.Error?
  {
    TraceSignals(NoRows, o, n, kill);
    EndsInAppend(Progresses(NoRows, n.li), Signals(NoRows, o, n, kill),
                 [Info(NoDataInArea(n.li)), Finished]);
  }

  // ---- Properties of a run ----

  /** Whatever the engine answers and whenever the user cancels, no signal
      follows `finished`, and progress comes first. */
  lemma FinishedIsLastSignal(job: Job, engine: Engine, kill: Kill)
    ensures FinishedOnlyLast(RunWorker(job, engine, kill).events)
    ensures ProgressFirst(RunWorker(job, engine, kill).events)
  {
    TraceShape(ReachOf(job, engine), OutcomeOf(job, engine), NamesOf(job), kill);
  }

  /** A run nobody cancelled always ends in a signal the plugin acts on:
      `finished`, `error` or `file_size_warning`. */
  lemma UnkilledRunEndsInTerminalSignal(job: Job, engine: Engine)
    ensures var evs := RunWorker(job, engine, NotKilled).events;
            |evs| > 0 && IsTerminal(evs[|evs| - 1])
  {
    TraceShape(ReachOf(job, engine), OutcomeOf(job, engine), NamesOf(job), NotKilled);
  }

  /** A cancelled run never asks the plugin to load a layer. */
  lemma KilledRunNeverLoads(job: Job, engine: Engine, kill: Kill)
    requires kill.KilledFrom?
    ensures forall e | e in RunWorker(job, engine, kill).events :: !e.LoadLayer?
  {
    TraceLoads(ReachOf(job, engine), OutcomeOf(job, engine), NamesOf(job), kill);
  }

  /** A name ending in `.geojson` in any case has extension `geojson`. */
  lemma GeoJsonSuffixIsNotDatabase(outputFile: string)
    requires EndsWith(Lower(outputFile), ".geojson")
    ensures Extension(outputFile) == "geojson"
    ensures !ExportFor(outputFile).CommitDatabase?
  {
    var s := Lower(outputFile);
    var stem := s[..|s| - 8];
    assert s == stem + "." + "geojson";
    LastPieceAfterDot(stem, "geojson");
  }

  /** `load_layer` is emitted exactly for an uncancelled run that found rows,
      passed the size guard, and wrote a supported output without error,
      unless the name ends in `.duckdb`; it names the output file and only
      `finished` follows it. */
  lemma LoadLayerIff(job: Job, engine: Engine, kill: Kill)
    ensures var evs := RunWorker(job, engine, kill).events;
            var reach := ReachOf(job, engine);
            (exists e | e in evs :: e.LoadLayer?)
            <==> kill.NotKilled? && reach.Rows? && engine.exportError.None?
                 && !SizeGuardTrips(job.outputFile, EstimateFileSizeMb(reach.count, engine.sample), job.sizeWarningAccepted)
                 && !ExportFor(job.outputFile).Unsupported?
                 && !EndsWith(Lower(job.outputFile), ".duckdb")
    ensures var evs := RunWorker(job, engine, kill).events;
            forall e | e in evs && e.LoadLayer? ::
              e.path == job.outputFile && EndsIn(evs, [e, Finished])
  {
    TraceLoads(ReachOf(job, engine), OutcomeOf(job, engine), NamesOf(job), kill);
    if EndsWith(Lower(job.outputFile), ".geojson") {
      GeoJsonSuffixIsNotDatabase(job.outputFile);
    }
  }

  /** With zero rows the run reports the empty area and finishes, with no
      export and no error, and the outcome is the same whether or not the
      user cancelled. */
  lemma ZeroRowsSkipsWhateverTheKill(job: Job, engine: Engine, kill: Kill)
    requires ReachOf(job, engine).NoRows?
    ensures var r := RunWorker(job, engine, kill);
            r == RunWorker(job, engine, NotKilled)
            && r.written.None?
            && EndsIn(r.events, [Info(NoDataInArea(LayerInfo(job.layerName))), Finished])
            && forall e | e in r.events :: !e.Error?
  {
    TraceNoRows(OutcomeOf(job, engine), NamesOf(job), kill);
  }

  /** Every `error` the run emits is free of "No data found" (those messages
      become skip notices), unless it is the connection failure. */
  lemma ErrorsAreNotNoData(job: Job, engine: Engine, kill: Kill)
    ensures forall e | e in RunWorker(job, engine, kill).events && e.Error? ::
              !Contains(e.message, NoDataFound) || engine.connectError == Some(e.message)
  {
    TraceErrors(ReachOf(job, engine), OutcomeOf(job, engine), NamesOf(job), kill);
  }

  /** An unsupported output name reports the format and then the unbound
      format options, writes nothing and never finishes. */
  lemma UnsupportedFormatReportsTwice(job: Job, engine: Engine, kill: Kill)
    requires ReachOf(job, engine).Rows? && ExportFor(job.outputFile).Unsupported?
    requires !SizeGuardTrips(job.outputFile, EstimateFileSizeMb(ReachOf(job, engine).count, engine.sample),
                             job.sizeWarningAccepted)
    requires !Sees(kill, Exporting)
    ensures var r := RunWorker(job, engine, kill);
            EndsIn(r.events, [Error(UnsupportedFormat), Error(UnboundFormatOptions)])
            && Finished !in r.events && r.written.None?
  {
    assert OutcomeOf(job, engine) == NoFormat;
    TraceNoFormat(ReachOf(job, engine), NamesOf(job), kill);
  }

  /** `file_size_warning` is emitted exactly when the GeoJSON guard trips on
      materialised rows; it is then the last signal, carries the estimate,
      and nothing is exported. */
  lemma SizeWarningIff(job: Job, engine: Engine, kill: Kill)
    ensures var r := RunWorker(job, engine, kill);
            var reach := ReachOf(job, engine);
            (exists e | e in r.events :: e.FileSizeWarning?)
            <==> reach.Rows?
                 && SizeGuardTrips(job.outputFile, EstimateFileSizeMb(reach.count, engine.sample), job.sizeWarningAccepted)
    ensures var r := RunWorker(job, engine, kill);
            var reach := ReachOf(job, engine);
            (exists e | e in r.events :: e.FileSizeWarning?) ==>
              EndsIn(r.events, [FileSizeWarning(EstimateFileSizeMb(reach.count, engine.sample))])
              && r.written.None?
  {
    TraceSizeWarning(ReachOf(job, engine), OutcomeOf(job, engine), NamesOf(job), kill);
    if EndsWith(Lower(job.outputFile), ".geojson") {
      GeoJsonSuffixIsNotDatabase(job.outputFile);
    }
  }

  // ---- The profile across a run ----

  /** Preparing a prepared profile against the same schema changes nothing. */
  lemma PreparedIdempotent(p: Profile, schema: seq<Column>)
    ensures Prepared(Prepared(p, schema), schema) == Prepared(p, schema)
  {
    ReconcileIdempotent(WithGeometryColumn(p.(schema := Some(schema)), schema));
  }

  /** The run never claims a bbox column the incoming profile did not claim:
      reconciliation only clears the claim. */
  lemma ProfileNeverGainsBbox(job: Job, engine: Engine, kill: Kill)
    ensures var p := RunWorker(job, engine, kill).profile;
            (p.hasBbox == Some(true) ==> job.profile.hasBbox == Some(true))
            && (p.bboxColumn.Some? ==> p.bboxColumn == job.profile.bboxColumn)
  {
  }

  /** A geometry column in the incoming profile is kept as it is; detection
      only fills an absent one. */
  lemma GeometryColumnKeptWhenPresent(job: Job, engine: Engine, kill: Kill)
    requires job.profile.geometryColumn.Some?
    ensures RunWorker(job, engine, kill).profile.geometryColumn == job.profile.geometryColumn
  {
  }

  /** A run's parts, each from the function that decides it. */
  lemma RunParts(job: Job, engine: Engine, kill: Kill)
    ensures RunWorker(job, engine, kill).query == QueryOf(job, engine)
    ensures RunWorker(job, engine, kill).profile == ProfileAfter(job, engine)
    ensures RunWorker(job, engine, kill).events
         == Trace(ReachOf(job, engine), OutcomeOf(job, engine), NamesOf(job), kill)
  {
  }

  /** `PredicateFollowsSchema` for the query alone. */
  lemma QueryFollowsSchema(job: Job, engine: Engine)
    requires QueryOf(job, engine).Some?
    ensures engine.schema.Answered?
    ensures var schema := engine.schema.value;
            var q := QueryOf(job, engine).value;
            (q.pred.BboxBetween? <==>
               job.profile.bboxColumn.Some? && (|schema| == 0 || HasBboxStruct(schema)))
            && (q.pred.BboxBetween? ==> q.pred.column == job.profile.bboxColumn.value)
            && (q.pred.Intersects? ==>
                  q.pred.geometry == Quoted(WithGeometryColumn(job.profile, schema).geometryColumn.value))
  {
    var schema := engine.schema.value;
    var w := WithGeometryColumn(job.profile.(schema := Some(schema)), schema);
    assert w.geometryColumn == WithGeometryColumn(job.profile, schema).geometryColumn;
  }

  /** The predicate follows the reconciled profile: a bbox filter on the
      claimed column exactly when the claim survives the schema check,
      otherwise an intersection with the (possibly detected) geometry column. */
  lemma PredicateFollowsSchema(job: Job, engine: Engine, kill: Kill)
    requires RunWorker(job, engine, kill).query.Some?
    ensures engine.schema.Answered?
    ensures var schema := engine.schema.value;
            var q := RunWorker(job, engine, kill).query.value;
            (q.pred.BboxBetween? <==>
               job.profile.bboxColumn.Some? && (|schema| == 0 || HasBboxStruct(schema)))
            && (q.pred.BboxBetween? ==> q.pred.column == job.profile.bboxColumn.value)
            && (q.pred.Intersects? ==>
                  q.pred.geometry == Quoted(WithGeometryColumn(job.profile, schema).geometryColumn.value))
  {
    RunParts(job, engine, kill);
    QueryFollowsSchema(job, engine);
  }

  /** Restarting with the profile a run left behind builds the same query:
      the engine's answers decide how far the run gets, and preparing the
      profile a second time changes nothing. */
  lemma RestartQuery(job: Job, engine: Engine, again: Job)
    requires QueryOf(job, engine).Some?
    requires again == job.(profile := ProfileAfter(job, engine), sizeWarningAccepted := true, layerName := None)
    ensures QueryOf(again, engine) == QueryOf(job, engine)
  {
    assert ReachOf(again, engine) == ReachOf(job, engine);
    PreparedIdempotent(job.profile, engine.schema.value);
  }

  /** With the warning accepted, a run never stops at the size guard. */
  lemma AcceptedRunNeverWarns(job: Job, engine: Engine, kill: Kill)
    requires job.sizeWarningAccepted
    ensures forall e | e in RunWorker(job, engine, kill).events :: !e.FileSizeWarning?
  {
    var o := OutcomeOf(job, engine);
    assert !o.SizeStop?;
    RunParts(job, engine, kill);
    TraceSizeWarning(ReachOf(job, engine), o, NamesOf(job), kill);
  }

  /** A run restarted with the dictionary an earlier run left behind (the
      large-file follow-up does exactly this) builds the same query, and
      with the warning accepted it no longer stops at the size guard. */
  lemma RestartBuildsSameQuery(job: Job, engine: Engine, kill: Kill, kill2: Kill)
    requires RunWorker(job, engine, kill).query.Some?
    ensures var again := job.(profile := RunWorker(job, engine, kill).profile,
                              sizeWarningAccepted := true, layerName := None);
            RunWorker(again, engine, kill2).query == RunWorker(job, engine, kill).query
            && forall e | e in RunWorker(again, engine, kill2).events :: !e.FileSizeWarning?
  {
    RunParts(job, engine, kill);
    var again := job.(profile := ProfileAfter(job, engine), sizeWarningAccepted := true, layerName := None);
    RestartQuery(job, engine, again);
    RunParts(again, engine, kill2);
    AcceptedRunNeverWarns(again, engine, kill2);
  }
}
