/** The plugin object of `gpq_downloader/plugin.py`: it opens the dataset
    dialog unless a download is running, turns an accepted dialog into a
    queue of (URL, output file) downloads, runs them one worker at a time,
    and answers the worker's signals, the large-GeoJSON warning included.
    Qt objects are reduced to what the decisions read: whether a worker and
    its thread are held, the job the worker runs, and the downloads queued
    behind it. */
module Plugin {
  import opened Common
  import opened Text
  import opened Schema
  import opened Catalog
  import opened Query
  import opened Acquisition
  import D = Dialog

  // ---- The remembered source selection ----

  /** The caption of each radio button; no caption when none is checked. */
  function ButtonText(m: D.Mode): Option<string> {
    if m == D.OvertureMaps then Some("Overture Maps")
    else if m == D.SourceCoop then Some("Source Cooperative")
    else if m == D.OtherSources then Some("Hugging Face")
    else if m == D.CustomUrl then Some("Custom URL")
    else None
  }

  /** `save_radio_button_state`: the caption of the checked button, or the
      `UnboundLocalError` when none is checked. */
  function SavedSelection(m: D.Mode): (r: Result<string>)
    ensures r.Crash? <==> m == D.NoneChecked
    ensures r.Ok? ==> Some(r.value) == ButtonText(m)
  {
    match ButtonText(m)
    case None => Crash("cannot access local variable 'button_name' where it is not associated with a value")
    case Some(t) => Ok(t)
  }

  /** The radio button `run` checks for the saved setting: the button whose
      caption equals it, Overture Maps when nothing is saved, and none for an
      unknown caption. */
  function RestoredMode(saved: Option<string>): (r: D.Mode)
    ensures (saved.None? || saved == Some("")) ==> r == D.OvertureMaps
    ensures saved.Some? && saved.value != "" && r != D.NoneChecked ==> ButtonText(r) == saved
    ensures r == D.NoneChecked <==>
              saved.Some? && saved.value != "" && forall m: D.Mode :: ButtonText(m) != saved
  {
    if saved.None? || saved.value == "" then D.OvertureMaps
    else if saved.value == "Overture Maps" then D.OvertureMaps
    else if saved.value == "Source Cooperative" then D.SourceCoop
    else if saved.value == "Hugging Face" then D.OtherSources
    else if saved.value == "Custom URL" then D.CustomUrl
    else D.NoneChecked
  }

  /** Saving the checked button and restoring it on the next `run` checks
      the same button again. */
  lemma SelectionRoundTrip(m: D.Mode)
    requires m != D.NoneChecked
    ensures SavedSelection(m).Ok? && RestoredMode(Some(SavedSelection(m).value)) == m
  {
  }

  // ---- Default file names ----

  /** The name is built from `url.split('theme=')[1]`, which raises
      `IndexError` for an Overture URL without `theme=`. */
  predicate FilenameFails(mode: D.Mode, url: string) {
    mode == D.OvertureMaps && !Contains(url, "theme=")
  }

  /** A combo entry made safe for a file name: lower-cased, spaces and
      slashes turned into underscores, and for Source Cooperative entries
      the parentheses dropped. */
  function CleanName(name: string, dropParens: bool): (r: string)
    ensures ' ' !in r && '/' !in r
    ensures dropParens ==> '(' !in r && ')' !in r
  {
    var spaced := ReplaceChar(Lower(name), ' ', '_');
    var c := ReplaceChar(spaced, '/', '_');
    assert ' ' !in spaced;
    assert forall i | 0 <= i < |c| :: c[i] != ' ' && c[i] != '/';
    if dropParens then RemoveChar(RemoveChar(c, '('), ')') else c
  }

  /** The file name offered for one URL in `handle_dialog_accepted`,
      stamped with `date`. */
  function DefaultFilename(mode: D.Mode, url: string, sourceCoopChoice: string, otherChoice: string,
                           date: string): (r: Result<string>)
    ensures r.Crash? <==> FilenameFails(mode, url)
    ensures r.Ok? ==> EndsWith(r.value, ".parquet")
  {
    if FilenameFails(mode, url) then Crash("IndexError: list index out of range")
    else
      var stem :=
        if mode == D.OvertureMaps then
          var theme := UpTo(SecondPiece(url, "theme=").value, "/");
          if Contains(url, "type=") && theme == "base" then
            "overture_base_" + UpTo(SecondPiece(url, "type=").value, "/") + "_" + date
          else "overture_" + theme + "_" + date
        else if mode == D.SourceCoop then "sourcecoop_" + CleanName(sourceCoopChoice, true) + "_" + date
        else if mode == D.OtherSources then "other_" + CleanName(otherChoice, false) + "_" + date
        else "custom_download_" + date;
      SuffixOf(stem, ".parquet");
      Ok(stem + ".parquet")
  }

  /** Every offered name is written as ZSTD Parquet and never meets the
      GeoJSON size guard. */
  lemma DefaultNameIsParquet(mode: D.Mode, url: string, sourceCoopChoice: string, otherChoice: string,
                             date: string)
    requires !FilenameFails(mode, url)
    ensures var name := DefaultFilename(mode, url, sourceCoopChoice, otherChoice, date).value;
            ExportFor(name) == Copy(ParquetZstd(Some(22)))
            && forall estimate: real, accepted: bool :: !SizeGuardTrips(name, estimate, accepted)
  {
    ParquetNamed(DefaultFilename(mode, url, sourceCoopChoice, otherChoice, date).value);
  }

  /** `theme=` is found right after a prefix without `=`. */
  lemma ThemeFoundFirst(pre: string)
    requires '=' !in pre
    ensures NoEarlierOccurrence(pre, "theme=")
  {
    assert "theme="[..5] == "theme";
    LastCharGuards(pre, "theme=");
  }

  /** In a base-theme URL, `type=` is first found after `theme=base/`. */
  lemma TypeFoundAfterTheme(pre: string)
    requires '=' !in pre
    ensures NoEarlierOccurrence(pre + "theme=base/", "type=")
  {
    var p := pre + "theme=base/";
    var s := p + "type=";
    assert s == pre + "theme" + "=" + "base/" + "type" + "=";
    forall j | 0 <= j < |p| ensures !OccursAt(s, "type=", j) {
      if j + 5 <= |s| {
        var q := j + 4;
        var w := s[j..j + 5];
        if q == |pre| + 5 {
          assert w[0] == s[|pre| + 1] == 'h';
        } else if q < |pre| {
          assert w[4] == pre[q];
        } else if q < |pre| + 5 {
          assert w[4] == "theme"[q - |pre|];
        } else if q < |pre| + 11 {
          assert w[4] == "base/"[q - |pre| - 6];
        } else {
          assert w[4] == "type"[q - |pre| - 11];
        }
      }
    }
  }

  /** The theme directory of a base-theme URL reads `base`. */
  lemma BaseThemePiece(pre: string, tail: string)
    requires '=' !in pre
    ensures var url := pre + "theme=base/" + tail;
            SecondPiece(url, "theme=").Some? && UpTo(SecondPiece(url, "theme=").value, "/") == "base"
  {
    assert pre + "theme=base/" + tail == pre + "theme=" + "base" + "/" + tail;
    ThemeFoundFirst(pre);
    SegmentAfter(pre, "theme=", "base", tail);
  }

  /** The type directory of a base-theme URL is the one after `type=`. */
  lemma BaseTypePiece(pre: string, typeName: string, rest: string)
    requires '=' !in pre && '=' !in typeName && '/' !in typeName
    ensures var url := pre + "theme=base/" + ("type=" + typeName + "/" + rest);
            SecondPiece(url, "type=").Some? && UpTo(SecondPiece(url, "type=").value, "/") == typeName
  {
    assert pre + "theme=base/" + ("type=" + typeName + "/" + rest)
        == (pre + "theme=base/") + "type=" + typeName + "/" + rest;
    TypeFoundAfterTheme(pre);
    SegmentAfter(pre + "theme=base/", "type=", typeName, rest);
  }

  /** An Overture URL built from a release prefix and a theme directory is
      offered a name carrying the theme. */
  lemma OvertureNameCarriesTheme(pre: string, theme: string, rest: string,
                                 sourceCoopChoice: string, otherChoice: string, date: string)
    requires '=' !in pre && '=' !in theme && '/' !in theme && theme != "base"
    ensures DefaultFilename(D.OvertureMaps, pre + "theme=" + theme + "/" + rest,
                            sourceCoopChoice, otherChoice, date)
         == Ok("overture_" + theme + "_" + date + ".parquet")
  {
    ThemeFoundFirst(pre);
    SegmentAfter(pre, "theme=", theme, rest);
  }

  /** What the two splits read from a base-theme URL. */
  predicate BasePieces(url: string, typeName: string) {
    SecondPiece(url, "theme=").Some? && UpTo(SecondPiece(url, "theme=").value, "/") == "base"
    && SecondPiece(url, "type=").Some? && UpTo(SecondPiece(url, "type=").value, "/") == typeName
  }

  lemma BaseUrlPieces(pre: string, typeName: string, rest: string)
    requires '=' !in pre && '=' !in typeName && '/' !in typeName
    ensures BasePieces(pre + "theme=base/type=" + typeName + "/" + rest, typeName)
  {
    var tail := "type=" + typeName + "/" + rest;
    assert pre + "theme=base/type=" + typeName + "/" + rest == pre + "theme=base/" + tail;
    BaseThemePiece(pre, tail);
    BaseTypePiece(pre, typeName, rest);
  }

  lemma BaseFilenameFromPieces(url: string, typeName: string, sourceCoopChoice: string, otherChoice: string,
                               date: string)
    requires BasePieces(url, typeName)
    ensures DefaultFilename(D.OvertureMaps, url, sourceCoopChoice, otherChoice, date)
         == Ok("overture_base_" + typeName + "_" + date + ".parquet")
  {
  }

  /** A base-theme URL is offered a name carrying its type directory. */
  lemma OvertureBaseNameCarriesType(pre: string, typeName: string, rest: string,
                                    sourceCoopChoice: string, otherChoice: string, date: string)
    requires '=' !in pre && '=' !in typeName && '/' !in typeName
    ensures DefaultFilename(D.OvertureMaps, pre + "theme=base/type=" + typeName + "/" + rest,
                            sourceCoopChoice, otherChoice, date)
         == Ok("overture_base_" + typeName + "_" + date + ".parquet")
  {
    BaseUrlPieces(pre, typeName, rest);
    BaseFilenameFromPieces(pre + "theme=base/type=" + typeName + "/" + rest, typeName,
                           sourceCoopChoice, otherChoice, date);
  }

  // ---- Layer names and the default profile ----

  /** The layer name `process_download_queue` gives the worker: Overture
      URLs are named after their theme, base URLs after theme and type,
      and a base URL without `type=` raises `IndexError`. */
  function LayerName(url: string): (r: Result<Option<string>>)
    ensures !(Contains(url, "overture") && Contains(url, "theme=")) ==> r == Ok(None)
    ensures r.Ok? && r.value.Some? ==> Contains(url, "overture") && Contains(url, "theme=")
  {
    if Contains(url, "overture") && Contains(url, "theme=") then
      var theme := UpTo(SecondPiece(url, "theme=").value, "/");
      if theme == "base" then
        match SecondPiece(url, "type=")
        case None => Crash("IndexError: list index out of range")
        case Some(t) => Ok(Some("Overture " + Title(theme) + " - " + Title(UpTo(t, "/"))))
      else Ok(Some("Overture " + Title(theme)))
    else Ok(None)
  }

  /** A theme URL under an Overture prefix is named after the title-cased
      theme. */
  lemma OvertureLayerNamedAfterTheme(pre: string, theme: string, rest: string)
    requires Contains(pre, "overture") && '=' !in pre && '=' !in theme && '/' !in theme && theme != "base"
    ensures LayerName(pre + "theme=" + theme + "/" + rest) == Ok(Some("Overture " + Title(theme)))
  {
    ContainsInPrefix(pre, "theme=" + theme + "/" + rest, "overture");
    assert pre + ("theme=" + theme + "/" + rest) == pre + "theme=" + theme + "/" + rest;
    ThemeFoundFirst(pre);
    SegmentAfter(pre, "theme=", theme, rest);
  }

  /** A base URL is named after its title-cased type directory. */
  lemma OvertureBaseLayerNamedAfterType(pre: string, typeName: string, rest: string)
    requires Contains(pre, "overture") && '=' !in pre && '=' !in typeName && '/' !in typeName
    ensures LayerName(pre + "theme=base/type=" + typeName + "/" + rest)
         == Ok(Some("Overture Base - " + Title(typeName)))
  {
    var url := pre + "theme=base/type=" + typeName + "/" + rest;
    var tail := "theme=base/type=" + typeName + "/" + rest;
    ContainsInPrefix(pre, tail, "overture");
    assert pre + tail == url;
    BaseUrlPieces(pre, typeName, rest);
    BaseLayerFromPieces(url, typeName);
  }

  lemma BaseLayerFromPieces(url: string, typeName: string)
    requires Contains(url, "overture") && BasePieces(url, typeName)
    ensures LayerName(url) == Ok(Some("Overture Base - " + Title(typeName)))
  {
    BaseLayerTitle(Title(typeName));
  }

  lemma BaseLayerTitle(t: string)
    ensures "Overture " + Title("base") + " - " + t == "Overture Base - " + t
  {
    TitleOfBase();
  }

  lemma TitleOfBase()
    ensures Title("base") == "Base"
  {
    assert TitleAfter("e", true) == "e";
    assert TitleAfter("se", true) == "se";
    assert TitleAfter("ase", true) == "ase";
  }

  /** The address extracts on Hugging Face store their geometry in `geom`. */
  predicate IsAddressExtract(url: string) {
    !Contains(url, "overture") && (Contains(url, "addresses.nobbox.pq") || Contains(url, "addresses.pq"))
  }

  /** The dictionary `process_download_queue` hands every worker instead of
      a validation result: a claimed `bbox` column and a geometry column. */
  function DefaultProfile(url: string): (r: Profile)
    ensures r.schema.None? && r.hasBbox == Some(true) && r.bboxColumn == Some("bbox")
    ensures r.geometryColumn == Some(if IsAddressExtract(url) then "geom" else DefaultGeometry)
  {
    Profile(None, Some(true), Some("bbox"), Some(if IsAddressExtract(url) then "geom" else DefaultGeometry))
  }

  // ---- The worker the plugin holds ----

  datatype Download = Download(url: string, outputFile: string)

  /** A worker as the plugin remembers it: the job it runs, and the
      downloads its `finished` handler starts next. */
  datatype Slot = Slot(job: Job, remaining: seq<Download>)

  /** `self.worker`, and whether `self.worker_thread` is held. A held thread
      has been started; only `cleanup_thread` drops it. */
  datatype State = State(worker: Option<Slot>, thread: bool)

  const Idle: State := State(None, false)

  /** The worker and its thread are held together. */
  predicate Consistent(s: State) {
    s.worker.Some? <==> s.thread
  }

  /** A download is running, so `run` refuses to open the dialog. */
  predicate Busy(s: State) {
    s.worker.Some? && s.thread
  }

  /** The map canvas: its CRS, and what QGIS reprojects an extent to. */
  datatype Host = Host(canvasCrs: Option<Crs>, reprojected: Rect)

  const AlreadyRunning: string :=
    "A download is already in progress. Please wait for it to complete before starting a new download."

  datatype Opening = Refused(message: string) | Opened(state: State, mode: D.Mode)

  /** `run`: refuse while a download runs; otherwise forget the worker and
      open the dialog with the saved selection checked. */
  function OpenDialog(s: State, saved: Option<string>): (r: Opening)
    ensures r.Refused? <==> Busy(s)
    ensures r.Opened? ==> r.state == Idle && r.mode == RestoredMode(saved)
  {
    if Busy(s) then Refused(AlreadyRunning) else Opened(Idle, RestoredMode(saved))
  }

  /** The worker `process_download_queue` creates for a download. */
  function JobFor(d: Download, extent: Option<Rect>, host: Host, layerName: Option<string>): Job {
    Job(d.url, extent, host.canvasCrs, host.reprojected, d.outputFile, layerName, DefaultProfile(d.url), false)
  }

  /** `process_download_queue`: start a worker for the first download and
      remember the rest; an empty queue changes nothing. */
  function ProcessQueue(s: State, queue: seq<Download>, extent: Option<Rect>, host: Host): (r: Result<State>)
    ensures |queue| == 0 ==> r == Ok(s)
    ensures |queue| > 0 ==> (r.Crash? <==> LayerName(queue[0].url).Crash?)
    ensures r.Ok? && |queue| > 0 ==>
              Busy(r.value) && r.value.worker.value.remaining == queue[1..]
              && r.value.worker.value.job == JobFor(queue[0], extent, host, LayerName(queue[0].url).value)
  {
    if |queue| == 0 then Ok(s)
    else match LayerName(queue[0].url)
      case Crash(m) => Crash(m)
      case Ok(name) => Ok(State(Some(Slot(JobFor(queue[0], extent, host, name), queue[1..])), true))
  }

  datatype Cleaned = Cleaned(state: State, killed: bool)

  /** `cleanup_thread`: with a thread held, kill the worker and drop both;
      without one, nothing changes. */
  function CleanupThread(s: State): (r: Cleaned)
    ensures r.killed <==> s.thread && s.worker.Some?
    ensures s.thread ==> r.state == Idle
    ensures !s.thread ==> r.state == s
  {
    if s.thread then Cleaned(Idle, s.worker.Some?) else Cleaned(s, false)
  }

  /** `cancel_download`: kill any worker, then clean up. */
  function CancelDownload(s: State): (r: Cleaned)
    ensures r.killed <==> s.worker.Some?
    ensures Consistent(s) ==> r.state == Idle
  {
    Cleaned(CleanupThread(s).state, s.worker.Some?)
  }

  /** `handle_download_complete` for the worker `from` that finished: clean
      up, then start the downloads queued behind `from`, which need not be
      the worker the plugin still holds. */
  function OnFinished(s: State, from: Slot, host: Host): (r: Result<State>)
    ensures |from.remaining| == 0 ==> r == Ok(CleanupThread(s).state)
    ensures |from.remaining| > 0 ==> r == ProcessQueue(Idle, from.remaining, from.job.extent, host)
  {
    var c := CleanupThread(s).state;
    if |from.remaining| == 0 then Ok(c) else ProcessQueue(c, from.remaining, from.job.extent, host)
  }

  /** `handle_error`: the progress dialog closes and the message is shown.
      Closing a `QProgressDialog` emits its `canceled` signal, which
      `process_download_queue` connects to `cancel_download`, so an error
      kills the worker, drops its thread and forgets the downloads queued
      behind it. */
  function OnError(s: State, message: string): (r: State)
    ensures Consistent(s) ==> r == Idle
    ensures !s.thread ==> r.thread == false && r.worker == s.worker
  {
    CancelDownload(s).state
  }

  // ---- Working through the queue ----

  /** Every layer name of the queue can be computed. */
  predicate AllNamed(queue: seq<Download>) {
    forall i | 0 <= i < |queue| :: LayerName(queue[i].url).Ok?
  }

  /** The state after `n` completions, each reported by the worker the
      plugin holds at the time. */
  function AfterCompletions(s: State, n: nat, host: Host): Result<State>
    decreases n
  {
    if n == 0 || s.worker.None? then Ok(s)
    else match OnFinished(s, s.worker.value, host)
      case Crash(m) => Crash(m)
      case Ok(t) => AfterCompletions(t, n - 1, host)
  }

  /** Starting a queue does not depend on the state it replaces. */
  lemma StartIgnoresState(s: State, queue: seq<Download>, extent: Option<Rect>, host: Host)
    requires |queue| > 0
    ensures ProcessQueue(s, queue, extent, host) == ProcessQueue(Idle, queue, extent, host)
  {
  }

  /** After `k` completions the plugin runs the queue from its `k`-th
      download on. */
  lemma {:induction false} QueueDrains(queue: seq<Download>, extent: Option<Rect>, host: Host, k: nat)
    requires AllNamed(queue) && k <= |queue|
    ensures AfterCompletions(ProcessQueue(Idle, queue, extent, host).value, k, host)
         == ProcessQueue(Idle, queue[k..], extent, host)
    decreases k
  {
    if k > 0 {
      var rest := queue[1..];
      assert AllNamed(rest) by {
        forall i | 0 <= i < |rest| ensures LayerName(rest[i].url).Ok? {
          assert rest[i] == queue[i + 1];
        }
      }
      DrainStep(queue, extent, host, k);
      QueueDrains(rest, extent, host, k - 1);
      assert rest[k - 1..] == queue[k..];
    }
  }

  /** One completion moves the queue on by one download. */
  lemma DrainStep(queue: seq<Download>, extent: Option<Rect>, host: Host, k: nat)
    requires |queue| > 0 && k > 0 && LayerName(queue[0].url).Ok?
    requires |queue| > 1 ==> LayerName(queue[1].url).Ok?
    ensures ProcessQueue(Idle, queue, extent, host).Ok?
    ensures ProcessQueue(Idle, queue[1..], extent, host).Ok?
    ensures AfterCompletions(ProcessQueue(Idle, queue, extent, host).value, k, host)
         == AfterCompletions(ProcessQueue(Idle, queue[1..], extent, host).value, k - 1, host)
  {
    var s := ProcessQueue(Idle, queue, extent, host).value;
    assert OnFinished(s, s.worker.value, host) == ProcessQueue(Idle, queue[1..], extent, host);
  }

  /** The downloads run one at a time in queue order, each with its own
      layer name and the default dictionary, and the dialog can be opened
      again exactly once the last one has finished. */
  lemma QueueRunsInOrder(queue: seq<Download>, extent: Option<Rect>, host: Host, k: nat, saved: Option<string>)
    requires AllNamed(queue) && k <= |queue|
    ensures var s := AfterCompletions(ProcessQueue(Idle, queue, extent, host).value, k, host);
            s.Ok?
            && (k < |queue| ==>
                  s.value.worker.Some?
                  && s.value.worker.value.job == JobFor(queue[k], extent, host, LayerName(queue[k].url).value)
                  && s.value.worker.value.remaining == queue[k + 1..])
            && (OpenDialog(s.value, saved).Opened? <==> k == |queue|)
  {
    QueueDrains(queue, extent, host, k);
    if k < |queue| {
      assert queue[k..][0] == queue[k];
      assert LayerName(queue[k].url).Ok?;
      assert queue[k..][1..] == queue[k + 1..];
    }
  }

  /** A worker error frees the plugin: the worker is killed, the downloads
      queued behind it are dropped, and the dialog can be opened again at
      once. */
  lemma ErrorDropsQueue(queue: seq<Download>, extent: Option<Rect>, host: Host, message: string,
                        saved: Option<string>)
    requires |queue| > 0 && LayerName(queue[0].url).Ok?
    ensures var s := ProcessQueue(Idle, queue, extent, host).value;
            CancelDownload(s).killed
            && OnError(s, message) == Idle
            && OpenDialog(OnError(s, message), saved).Opened?
  {
  }

  /** Cancelling a download whose area turns out empty does not stop the
      queue: the killed worker still reports `finished`, and its handler
      starts the next download. */
  lemma CancelledEmptyAreaStillAdvances(queue: seq<Download>, extent: Option<Rect>, host: Host,
                                        engine: Engine, stage: Stage)
    requires |queue| > 1 && LayerName(queue[0].url).Ok? && LayerName(queue[1].url).Ok?
    requires ReachOf(ProcessQueue(Idle, queue, extent, host).value.worker.value.job, engine).NoRows?
    ensures var s := ProcessQueue(Idle, queue, extent, host).value;
            var slot := s.worker.value;
            var c := CancelDownload(s);
            var next := OnFinished(c.state, slot, host);
            c.killed && c.state == Idle
            && Finished in RunWorker(slot.job, engine, KilledFrom(stage)).events
            && next.Ok? && Busy(next.value) && next.value.worker.value.job.url == queue[1].url
  {
    var s := ProcessQueue(Idle, queue, extent, host).value;
    var slot := s.worker.value;
    ZeroRowsSkipsWhateverTheKill(slot.job, engine, KilledFrom(stage));
    var evs := RunWorker(slot.job, engine, KilledFrom(stage)).events;
    assert evs[|evs| - 1] == Finished;
    assert slot.remaining[0] == queue[1];
  }

  /** Every handler keeps the worker and its thread together. */
  lemma HandlersKeepWorkerWithThread(s: State, queue: seq<Download>, extent: Option<Rect>, host: Host,
                                     from: Slot, message: string, saved: Option<string>)
    requires Consistent(s)
    ensures OpenDialog(s, saved).Opened? ==> Consistent(OpenDialog(s, saved).state)
    ensures ProcessQueue(s, queue, extent, host).Ok? ==> Consistent(ProcessQueue(s, queue, extent, host).value)
    ensures Consistent(CleanupThread(s).state) && Consistent(CancelDownload(s).state)
    ensures OnFinished(s, from, host).Ok? ==> Consistent(OnFinished(s, from, host).value)
    ensures Consistent(OnError(s, message))
  {
  }

  // ---- The large-GeoJSON warning ----

  /** The formats the warning dialog offers instead of GeoJSON. */
  const SaveFormats: seq<string> := ["FlatGeobuf (*.fgb)", "GeoPackage (*.gpkg)", "GeoParquet (*.parquet)"]

  /** `selected_format.split("*")[1].rstrip(")")`. */
  function FilterExtension(format: string): (r: Result<string>)
    ensures r.Crash? <==> !Contains(format, "*")
  {
    match SecondPiece(format, "*")
    case None => Crash("IndexError: list index out of range")
    case Some(piece) => Ok(RStrip(piece, {')'}))
  }

  /** The extension is read from between the star and the closing
      parenthesis of a filter caption. */
  lemma ExtensionFromFilter(caption: string, ext: string)
    requires '*' !in caption && '*' !in ext && |ext| > 0 && ext[|ext| - 1] != ')'
    ensures FilterExtension(caption + "*" + ext + ")") == Ok(ext)
  {
    LastCharGuards(caption, "*");
    FirstFoundAfter(caption, "*", ext + ")");
    assert caption + "*" + ext + ")" == caption + "*" + (ext + ")");
    var tail := ext + ")";
    assert '*' !in tail;
    FirstCharAbsent(tail, "*");
    assert (ext + ")")[..|ext|] == ext;
  }

  /** The extension each offered format stands for. */
  const FormatExtensions: seq<string> := [".fgb", ".gpkg", ".parquet"]

  lemma FlatGeobufFilter()
    ensures FilterExtension(SaveFormats[0]) == Ok(FormatExtensions[0])
  {
    assert SaveFormats[0] == "FlatGeobuf (" + "*" + ".fgb" + ")";
    ExtensionFromFilter("FlatGeobuf (", ".fgb");
  }

  lemma GeoPackageFilter()
    ensures FilterExtension(SaveFormats[1]) == Ok(FormatExtensions[1])
  {
    assert SaveFormats[1] == "GeoPackage (" + "*" + ".gpkg" + ")";
    ExtensionFromFilter("GeoPackage (", ".gpkg");
  }

  lemma GeoParquetFilter()
    ensures FilterExtension(SaveFormats[2]) == Ok(FormatExtensions[2])
  {
    assert SaveFormats[2] == "GeoParquet (" + "*" + ".parquet" + ")";
    ExtensionFromFilter("GeoParquet (", ".parquet");
  }

  /** The extension read from each offered filter. */
  lemma FilterExtensions(format: nat)
    requires format < |SaveFormats|
    ensures FilterExtension(SaveFormats[format]) == Ok(FormatExtensions[format])
  {
    if format == 0 { FlatGeobufFilter(); }
    else if format == 1 { GeoPackageFilter(); }
    else { GeoParquetFilter(); }
  }

  /** The name the "Save As..." button proposes: the old name without its
      extension, followed by the chosen format's extension (read from the
      filter as `FilterExtensions` shows). */
  function Suggestion(oldOutput: string, format: nat): string
    requires format < |FormatExtensions|
  {
    SplitExtRoot(oldOutput) + FormatExtensions[format]
  }

  /** The proposal is written in the chosen format and never meets the
      size guard again; for a `.geojson` name it only swaps the extension. */
  lemma SuggestionMatchesFormat(oldOutput: string, format: nat)
    requires format < |SaveFormats|
    ensures ExportFor(Suggestion(oldOutput, format))
         == [Copy(Gdal("FlatGeobuf", Some("EPSG:4326"))), Copy(Gdal("GPKG", None)),
             Copy(ParquetZstd(Some(22)))][format]
    ensures forall estimate: real, accepted: bool ::
              !SizeGuardTrips(Suggestion(oldOutput, format), estimate, accepted)
  {
    var root := SplitExtRoot(oldOutput);
    var name := Suggestion(oldOutput, format);
    if format == 0 {
      DispatchFlatGeobuf(root);
      FlatGeobufUnguarded(root);
    } else if format == 1 {
      DispatchGpkg(root);
      GpkgUnguarded(root);
    } else {
      SuffixOf(root, ".parquet");
      ParquetNamed(name);
    }
  }

  lemma SuggestionSwapsExtension(stem: string, format: nat)
    requires format < |SaveFormats|
    requires |stem| > 0 && stem[|stem| - 1] != '.' && stem[|stem| - 1] != '/'
    ensures Suggestion(stem + ".geojson", format) == stem + FormatExtensions[format]
  {
    assert '.' !in "geojson" && '/' !in "geojson";
    assert stem + ".geojson" == stem + "." + "geojson";
    SplitExtOf(stem, "geojson");
  }

  /** One press in the warning dialog: a "Save As..." with the name the
      user then picked (empty when that dialog was cancelled), "Proceed with
      GeoJSON anyway", or Cancel (or closing the dialog). */
  datatype Choice = SaveAs(answer: string) | Proceed | Dismiss

  datatype Handled = SessionLost | StillOpen | Settled(state: State)

  /** The worker the warning dialog starts: same URL, extent and dictionary
      as the warned one, a new output file, no layer name, the same
      downloads queued behind it. */
  function Restarted(info: Slot, runProfile: Profile, outputFile: string, accepted: bool): State {
    State(Some(Slot(info.job.(outputFile := outputFile, profile := runProfile,
                              layerName := None, sizeWarningAccepted := accepted),
                    info.remaining)),
          true)
  }

  /** The dialog loop: a cancelled "Save As..." shows the dialog again;
      the first other press decides. */
  function Respond(s: State, info: Slot, runProfile: Profile, choices: seq<Choice>, host: Host): (r: Result<Handled>)
    ensures r.Ok? && r.value.Settled? && Consistent(s) ==> Consistent(r.value.state)
    decreases |choices|
  {
    if |choices| == 0 then Ok(StillOpen)
    else match choices[0]
      case SaveAs(answer) =>
        if answer == "" then Respond(s, info, runProfile, choices[1..], host)
        else Ok(Settled(Restarted(info, runProfile, answer, false)))
      case Proceed => Ok(Settled(Restarted(info, runProfile, info.job.outputFile, true)))
      case Dismiss =>
        if |info.remaining| > 0 then
          match ProcessQueue(s, info.remaining, info.job.extent, host)
          case Crash(m) => Crash(m)
          case Ok(t) => Ok(Settled(t))
        else Ok(Settled(CleanupThread(s).state))
  }

  /** `handle_large_file_warning`, given the dictionary the warned run left
      behind. The warned worker's details are read first; closing the
      progress dialog then emits `canceled`, so `cancel_download` runs
      before the warning dialog is shown. */
  function OnLargeFile(s: State, runProfile: Profile, choices: seq<Choice>, host: Host): (r: Result<Handled>)
    ensures s.worker.None? ==> r == Ok(SessionLost)
  {
    if s.worker.None? then Ok(SessionLost)
    else Respond(CancelDownload(s).state, s.worker.value, runProfile, choices, host)
  }

  /** The warning dialog works from a freed plugin: whatever is pressed,
      the outcome is the one the dialog loop gives from the idle state,
      with the warned worker's job and queue. */
  lemma WarningFreesPluginFirst(s: State, runProfile: Profile, choices: seq<Choice>, host: Host)
    requires Consistent(s) && s.worker.Some?
    ensures CancelDownload(s).killed
    ensures OnLargeFile(s, runProfile, choices, host) == Respond(Idle, s.worker.value, runProfile, choices, host)
  {
  }

  /** Presses before the first one that decides change nothing. */
  lemma {:induction false} FirstDecisivePressWins(s: State, info: Slot, runProfile: Profile,
                                                  choices: seq<Choice>, host: Host, i: nat)
    requires i <= |choices|
    requires forall j | 0 <= j < i :: choices[j] == SaveAs("")
    ensures Respond(s, info, runProfile, choices, host) == Respond(s, info, runProfile, choices[i..], host)
    decreases i
  {
    if i > 0 {
      assert choices[0] == SaveAs("");
      FirstDecisivePressWins(s, info, runProfile, choices[1..], host, i - 1);
      assert choices[1..][i - 1..] == choices[i..];
    }
  }

  /** Cancelling the warning acts as if the warned download had finished:
      the next queued download starts, or the plugin is freed. */
  lemma DismissActsLikeCompletion(s: State, runProfile: Profile, choices: seq<Choice>, host: Host)
    requires s.worker.Some? && s.thread
    ensures var r := OnLargeFile(s, runProfile, [Dismiss] + choices, host);
            var f := OnFinished(s, s.worker.value, host);
            (r.Crash? <==> f.Crash?) && (r.Ok? ==> r.value == Settled(f.value))
  {
    var info := s.worker.value;
    if |info.remaining| > 0 {
      StartIgnoresState(s, info.remaining, info.job.extent, host);
    }
  }

  /** Proceeding restarts the warned download with the dictionary its run
      left behind: the restarted run builds the same query, never warns
      again, and keeps the queue behind it. */
  lemma ProceedNeverWarnsAgain(s: State, engine: Engine, kill: Kill, kill2: Kill, choices: seq<Choice>,
                               host: Host)
    requires s.worker.Some?
    requires RunWorker(s.worker.value.job, engine, kill).query.Some?
    ensures var job := s.worker.value.job;
            var run := RunWorker(job, engine, kill);
            var r := OnLargeFile(s, run.profile, [Proceed] + choices, host);
            r.Ok? && r.value.Settled? && Busy(r.value.state)
            && r.value.state.worker.value.remaining == s.worker.value.remaining
            && RunWorker(r.value.state.worker.value.job, engine, kill2).query == run.query
            && forall e | e in RunWorker(r.value.state.worker.value.job, engine, kill2).events ::
                 !e.FileSizeWarning?
  {
    var job := s.worker.value.job;
    var run := RunWorker(job, engine, kill);
    ProceedRestarts(s, run.profile, choices, host);
    var again := job.(profile := run.profile, sizeWarningAccepted := true, layerName := None);
    assert Restarted(s.worker.value, run.profile, job.outputFile, true).worker.value.job == again;
    RestartBuildsSameQuery(job, engine, kill, kill2);
  }

  /** Proceeding restarts the warned download under its own name with the
      warning accepted. */
  lemma ProceedRestarts(s: State, runProfile: Profile, choices: seq<Choice>, host: Host)
    requires s.worker.Some?
    ensures OnLargeFile(s, runProfile, [Proceed] + choices, host)
         == Ok(Settled(Restarted(s.worker.value, runProfile, s.worker.value.job.outputFile, true)))
  {
    assert ([Proceed] + choices)[0] == Proceed;
  }

  /** Saving under another name restarts the download with that name and
      the run's dictionary, the warning not yet accepted. */
  lemma SaveAsRestartsUnderNewName(s: State, runProfile: Profile, answer: string, choices: seq<Choice>,
                                   host: Host)
    requires s.worker.Some? && answer != ""
    ensures var r := OnLargeFile(s, runProfile, [SaveAs(answer)] + choices, host);
            r.Ok? && r.value.Settled? && Busy(r.value.state)
            && var job := r.value.state.worker.value.job;
            job.outputFile == answer && job.profile == runProfile && !job.sizeWarningAccepted
            && job.url == s.worker.value.job.url && job.extent == s.worker.value.job.extent
  {
  }

  // ---- Accepting the dialog ----

  /** The answer to the save dialog shown for the `i`-th URL; empty when it
      was cancelled or never answered. */
  function AnswerAt(answers: seq<string>, i: nat): string {
    if i < |answers| then answers[i] else ""
  }

  datatype Batch = Abandoned | Queued(queue: seq<Download>)

  /** The loop of `handle_dialog_accepted` that asks where to save each URL:
      a cancelled save dialog abandons the whole batch, and a name that
      cannot be built raises before its dialog is shown. */
  function CollectDownloads(mode: D.Mode, urls: seq<string>, answers: seq<string>): (r: Result<Batch>)
    ensures r.Ok? && r.value.Queued? ==>
              |r.value.queue| == |urls|
              && forall i | 0 <= i < |urls| :: r.value.queue[i] == Download(urls[i], AnswerAt(answers, i))
    ensures (r.Ok? && r.value.Queued?) <==>
              forall i | 0 <= i < |urls| :: !FilenameFails(mode, urls[i]) && AnswerAt(answers, i) != ""
    decreases |urls|
  {
    if |urls| == 0 then Ok(Queued([]))
    else if FilenameFails(mode, urls[0]) then Crash("IndexError: list index out of range")
    else if AnswerAt(answers, 0) == "" then Ok(Abandoned)
    else
      var later := CollectDownloads(mode, urls[1..], answers[1..]);
      assert forall i | 0 <= i < |urls| - 1 :: AnswerAt(answers[1..], i) == AnswerAt(answers, i + 1);
      match later
      case Crash(m) => Crash(m)
      case Ok(Abandoned) => Ok(Abandoned)
      case Ok(Queued(q)) => Ok(Queued([Download(urls[0], answers[0])] + q))
  }

  /** `handle_dialog_accepted`. `currentExtent` is what
      `dialog.get_current_extent()` gives; `canvasExtent` is used when it
      gives `None`. */
  function AcceptDialog(s: State, presets: Presets, f: D.Form, currentExtent: Answer<Option<Rect>>,
                        canvasExtent: Rect, answers: seq<string>, host: Host): (r: Result<State>)
    ensures currentExtent.Raised? ==> r.Crash?
    ensures D.GetUrls(presets, f).Ok? && currentExtent.Raised? ==> r == Crash(currentExtent.message)
    ensures D.GetUrls(presets, f).Crash? ==> r == Crash(D.GetUrls(presets, f).reason)
  {
    match D.GetUrls(presets, f)
    case Crash(m) => Crash(m)
    case Ok(urls) =>
      match currentExtent
      case Raised(m) => Crash(m)
      case Answered(e) =>
        var extent := if e.Some? then e.value else canvasExtent;
        match CollectDownloads(f.mode, urls, answers)
        case Crash(m) => Crash(m)
        case Ok(Abandoned) => Ok(s)
        case Ok(Queued(q)) => ProcessQueue(s, q, Some(extent), host)
  }

  /** What Python raises for `dialog.get_current_extent()` on the shipped
      `DataSourceDialog`, which does not define the method. */
  const NoExtentLookup: string := "AttributeError: 'DataSourceDialog' object has no attribute 'get_current_extent'"

  /** With the shipped dialog, accepting it never queues a download: once
      the URLs are read, the extent lookup raises, and the state the plugin
      keeps is the one it had. */
  lemma ShippedDialogNeverQueues(s: State, presets: Presets, f: D.Form, canvasExtent: Rect,
                                 answers: seq<string>, host: Host)
    requires D.GetUrls(presets, f).Ok?
    ensures AcceptDialog(s, presets, f, Raised(NoExtentLookup), canvasExtent, answers, host) == Crash(NoExtentLookup)
  {
  }

  /** For a dialog that does define `get_current_extent`: when every save
      dialog is answered, the `k`-th completion leaves the plugin
      downloading the `k`-th URL into the `k`-th answer, over the chosen
      extent. */
  lemma AcceptedUrlsDownloadInOrder(s: State, presets: Presets, f: D.Form, e: Option<Rect>,
                                    canvasExtent: Rect, answers: seq<string>, host: Host, k: nat)
    requires D.GetUrls(presets, f).Ok?
    requires var urls := D.GetUrls(presets, f).value;
             k < |urls|
             && forall i | 0 <= i < |urls| ::
                  !FilenameFails(f.mode, urls[i]) && AnswerAt(answers, i) != "" && LayerName(urls[i]).Ok?
    ensures var urls := D.GetUrls(presets, f).value;
            var r := AcceptDialog(s, presets, f, Answered(e), canvasExtent, answers, host);
            r.Ok?
            && var now := AfterCompletions(r.value, k, host);
            now.Ok? && now.value.worker.Some?
            && now.value.worker.value.job.url == urls[k]
            && now.value.worker.value.job.outputFile == answers[k]
            && now.value.worker.value.job.extent == Some(if e.Some? then e.value else canvasExtent)
  {
    var urls := D.GetUrls(presets, f).value;
    var q := CollectDownloads(f.mode, urls, answers).value.queue;
    var extent := Some(if e.Some? then e.value else canvasExtent);
    assert AllNamed(q) by {
      forall i | 0 <= i < |q| ensures LayerName(q[i].url).Ok? {
        assert q[i].url == urls[i];
      }
    }
    StartIgnoresState(s, q, extent, host);
    QueueRunsInOrder(q, extent, host, k, None);
    assert q[k] == Download(urls[k], AnswerAt(answers, k));
  }
}
