# GeoParquet Downloader for QGIS — a Dafny model of its decision logic

The plugin downloads a part of a remote GeoParquet, DuckDB-readable or
Hugging Face dataset. The part is the area of interest on the QGIS map
canvas. The plugin can write it as GeoParquet, a DuckDB database,
GeoPackage, FlatGeobuf or GeoJSON, and then loads it as a layer.

The plugin's code is a chain of decisions around two foreign systems, the
DuckDB query engine and QGIS. This project models those decisions as pure
Dafny functions. Whatever DuckDB or QGIS would answer becomes an input:
- the schema rows;
- the key/value metadata;
- the row count;
- the average feature size;
- the text of any exception;
- the reprojected extent;
- the user's answers to dialogs.

The modules follow the program:

- `Common`: optional values, results of code that may raise, points, rectangles, CRSs.
- `Text`: the Python string operations the code uses, such as `lower`, `title`, `rstrip`, `replace`, `split`, `strip` and `splitext`.
- `Catalog`: the preset catalog and `needs_validation`, including the catalog hard-coded in the legacy file.
- `Schema`: geometry-column detection, bbox reconciliation and the per-column SELECT rewrite (`process_schema_columns`).
- `Query`: the extent transform, the WHERE predicate, the SELECT list, export dispatch on the output name, and the GeoJSON size estimate.
- `Acquisition`: `Worker.run` as the ordered trace of signals it emits, together with the profile and the statements it leaves behind.
- `Validation`: `ValidationWorker` (`check_bbox_metadata`, `run`).
- `Dialog`: `get_urls`, `validate_and_accept`, and the dialog's reaction to validation signals.
- `Plugin`: the plugin object, namely:
  - the busy guard;
  - default file names, layer names and the default profile;
  - the download queue;
  - the large-file warning;
  - accepting the dialog.
- `Legacy`: the earlier single-file version, `qgis_plugin_gpq_downloader.py`, with each observable difference stated against the current version.
- `MapTool`: the rectangle-drawing tool as a state machine.

A cancellation (`kill()`) is modelled as the stage from which the worker
sees `killed`. The flag never resets, so every later check sees it too.

## Model

| member | source | states |
|---|---|---|
| Common.FirstIndex | gpq_downloader/utils.py:541-558 | The index found is the first whose element satisfies the test; `None` means no element does |
| Catalog.Flatten | gpq_downloader/utils.py:547-549 | The walk over the catalog holds exactly the entries of its groups: every entry of every group, and nothing else |
| Catalog.FlattenOne | gpq_downloader/utils.py:547-549 | A single group is walked as its own entries, in their order |
| Catalog.FlattenAppend | gpq_downloader/utils.py:547-549 | Groups are walked one after the other, each group's entries together: the walk over two catalogs in sequence is the first walk followed by the second |
| Catalog.FirstMatchDecides | gpq_downloader/utils.py:547-556 | The first entry recognising the URL decides `needs_validation`, whatever later entries say |
| Catalog.UnmatchedNeedsValidation | gpq_downloader/utils.py:558 | A URL no entry recognises needs validation |
| Catalog.AnswerComesFromAMatch | gpq_downloader/utils.py:541-558 | A `false` answer always comes from an entry that recognises the URL and whose flag is false |
| Catalog.SkipsWhenTrustedUpToMatch | gpq_downloader/utils.py:547-556 | A URL recognised by an entry, with no entry up to that one asking for validation, skips validation |
| Catalog.GroupNamed | gpq_downloader/dialog.py:351-379 | Looking up a group by key finds a group with that name, or proves that no group has it |
| Catalog.EntryNamed | gpq_downloader/dialog.py:352-366 | Looking up an entry by key finds an entry with that key, or proves that no entry has it |
| Catalog.LegacyFlags | qgis_plugin_gpq_downloader.py:20-106 | The hard-coded catalog has 14 entries; every one states its flag, and only `nhd_flowlines` asks for validation |
| Catalog.FlattenLegacy | qgis_plugin_gpq_downloader.py:20-106 | The hard-coded catalog is walked as Overture, then Source Cooperative, then the other sources |
| Schema.DetectGeometryColumn | gpq_downloader/utils.py:133-158 | The detected geometry column is `geometry` or the name of some schema column |
| Schema.TypedColumnWins | gpq_downloader/utils.py:139-147 | The first GEOMETRY- or GEOGRAPHY-typed column is chosen, whatever the names of earlier columns |
| Schema.NamedColumnIsFallback | gpq_downloader/utils.py:149-158 | Without a geometry-typed column, the first column conventionally named `geom`, `the_geom` or `wkb_geometry` is chosen, with its case kept |
| Schema.DefaultWhenNothingMatches | gpq_downloader/utils.py:134-137 | With no typed and no conventionally named column, the name stays `geometry` |
| Schema.WithGeometryColumn | gpq_downloader/utils.py:133-158 | Detection runs only when the profile has no geometry column; an existing geometry column and every other field are kept |
| Schema.Reconcile | gpq_downloader/utils.py:192-205 | Reconciliation only downgrades: it never sets `has_bbox` to true or names a new column; a non-empty schema without a `bbox` struct clears both fields; otherwise the profile is unchanged |
| Schema.ReconcileIdempotent | gpq_downloader/utils.py:192-205 | Reconciling twice gives the same profile as reconciling once |
| Schema.SurvivingBboxColumnIsBacked | gpq_downloader/utils.py:192-205 | Against a non-empty schema, a bbox column that survives reconciliation is backed by a `bbox` struct column |
| Schema.ProcessSchemaColumns | gpq_downloader/utils.py:387-407 | One entry per schema row, in order, with the same name. STRUCT/MAP gives TO_JSON. Otherwise an array gives array_to_string. Otherwise UTINYINT gives an integer cast. Each of these holds in both directions |
| Schema.RenderProj | gpq_downloader/utils.py:393-406 | Every entry mentions its double-quoted column name; a rewritten entry is aliased back to that name |
| Schema.MapIsJson | tests/test_utils.py:52-62 | A MAP column is converted to JSON |
| Schema.VarcharArrayIsJoined | gpq_downloader/utils.py:397-400 | A VARCHAR[] column is joined into a string |
| Schema.UTinyIntIsWidened | tests/test_utils.py:55-65 | A UTINYINT column is cast to INTEGER |
| Schema.IntegerStaysPlain | gpq_downloader/utils.py:405-406 | An INTEGER column is selected as it is |
| Schema.ProjectionExamples | tests/test_utils.py:38-65 | The column types exercised by the projection test get the expected rewrite |
| Query.TransformBboxTo4326 | gpq_downloader/utils.py:11-31 | The result is `None` exactly when the extent or the CRS is missing; an EPSG:4326 extent comes back unchanged; any other extent is what QGIS reprojects it to |
| Query.TransformSettles | gpq_downloader/utils.py:27-31 | Transforming an already transformed extent again from EPSG:4326 changes nothing |
| Query.Ring | gpq_downloader/utils.py:221-228 | The ring has five vertices, the first equal to the last; each edge is axis-parallel; every vertex is a corner of the area, and all four corners appear |
| Query.BuildPredicate | gpq_downloader/utils.py:207-230 | A bbox BETWEEN filter on the named column exactly when a bbox column is known; otherwise ST_Intersects on the quoted geometry column with the area's ring |
| Query.LegacyPredicate | qgis_plugin_gpq_downloader.py:217-236 | The BETWEEN filter only for a non-empty bbox column name; otherwise ST_Intersects on the bare `geometry` column |
| Query.LegacyAgreesOnNamedBbox | qgis_plugin_gpq_downloader.py:217-226 | For a named bbox column, both versions write the same filter |
| Query.BboxFilterIsSound | gpq_downloader/utils.py:213-218 | Every feature that the BETWEEN filter keeps overlaps the area |
| Query.BboxFilterDropsStraddlingFeature | gpq_downloader/utils.py:213-218 | A feature straddling the area's left edge is dropped even though it overlaps, because the filter tests only the lower-left corner |
| Query.SelectFor | gpq_downloader/utils.py:165-190 | Everything is selected exactly for a `.parquet` output. Otherwise the columns are the rewrite of the schema. The primary name is promoted exactly when the URL mentions `overture` and some column name contains `names` |
| Query.LegacySelectFor | qgis_plugin_gpq_downloader.py:191-215 | As the current version, except that the primary name is promoted for every Overture URL |
| Query.SelectVersionsDifferOnlyWithoutNames | qgis_plugin_gpq_downloader.py:211-215 | The two SELECT lists differ exactly for a non-Parquet output of an Overture URL whose schema has no column name containing `names` |
| Query.Extension | gpq_downloader/utils.py:253 | The extension is the lower-cased text after the last dot, so it contains no dot |
| Query.ExportFor | gpq_downloader/utils.py:253-290 | The extension `duckdb` commits in place. `parquet` is written as ZSTD level 22. Otherwise `.gpkg`, `.fgb` and `.geojson` are tested case-sensitively. Anything else is unsupported. Each of these holds in both directions |
| Query.LegacyExportFor | qgis_plugin_gpq_downloader.py:258-278 | The same dispatch with ZSTD at its default level and no GeoJSON branch |
| Query.ExtensionOf | gpq_downloader/utils.py:253 | The extension of `stem.ext` is `ext` lower-cased, whatever the stem |
| Query.SuffixOf | gpq_downloader/utils.py:283-287 | A name ends with the suffix it was built with |
| Query.ExtensionOfSuffix | gpq_downloader/utils.py:253 | As `ExtensionOf`, for a suffix written as one literal with its dot |
| Query.DatabaseExport | gpq_downloader/utils.py:255-257 | The extension `duckdb` always commits in place |
| Query.ParquetExport | gpq_downloader/utils.py:281-282 | The extension `parquet` is always written as ZSTD level 22 |
| Query.DispatchDatabase | gpq_downloader/utils.py:253-257 | A database output commits in place, whatever the letter case of its extension |
| Query.DispatchParquet | gpq_downloader/utils.py:253-282 | A Parquet output is ZSTD level 22, whatever the letter case of its extension |
| Query.LegacyParquetExport | qgis_plugin_gpq_downloader.py:269-270 | The legacy worker writes the extension `parquet` as ZSTD at the default level |
| Query.ParquetNamed | gpq_downloader/utils.py:264-282 | A name ending in `.parquet` is written as Parquet by both versions and never trips the size guard |
| Query.GpkgExport | gpq_downloader/utils.py:283-284 | A `.gpkg` name that is neither database nor Parquet uses the GPKG driver |
| Query.FlatGeobufExport | gpq_downloader/utils.py:285-286 | A `.fgb` name uses the FlatGeobuf driver in EPSG:4326 |
| Query.GeoJsonExport | gpq_downloader/utils.py:287-288 | A `.geojson` name uses the GeoJSON driver in EPSG:4326 |
| Query.DispatchGpkg | gpq_downloader/utils.py:283-284 | `stem.gpkg` uses the GPKG driver |
| Query.DispatchFlatGeobuf | gpq_downloader/utils.py:285-286 | `stem.fgb` uses FlatGeobuf in EPSG:4326 |
| Query.NotGeoJsonSuffix | gpq_downloader/utils.py:265-267 | A name whose last letter is not an `n` in either case is never size-checked |
| Query.GpkgUnguarded | gpq_downloader/utils.py:265-267 | GeoPackage names are never size-checked |
| Query.FlatGeobufUnguarded | gpq_downloader/utils.py:265-267 | FlatGeobuf names are never size-checked |
| Query.DispatchGeoJson | gpq_downloader/utils.py:287-288 | `stem.geojson` uses GeoJSON in EPSG:4326 |
| Query.UnsupportedExport | gpq_downloader/utils.py:289-290 | A name ending in an upper-case `G` with an unhandled extension is unsupported |
| Query.UpperCaseGpkgIsUnsupported | gpq_downloader/utils.py:283-290 | `stem.GPKG` fails the case-sensitive suffix test and is unsupported |
| Query.LegacyExportDiffers | qgis_plugin_gpq_downloader.py:268-278 | Where the current version uses GPKG or FlatGeobuf, the legacy version does the same; its GeoJSON output is unsupported |
| Query.EstimateFileSizeMb | gpq_downloader/utils.py:334-385 | The estimate is 0 with no rows, a failed sample, or a NULL or zero average; otherwise it is positive |
| Query.EstimateMonotoneInRows | gpq_downloader/utils.py:368-381 | More features of the same average size never shrink the estimate |
| Query.EstimateMonotoneInSize | gpq_downloader/utils.py:368-381 | Larger features never shrink the estimate |
| Query.EstimateOverThreshold | gpq_downloader/utils.py:368-381 | The estimate exceeds 4096 MB exactly when the feature bytes plus 50 bytes of overhead plus one separator per extra row exceed 4096 × 2^20 bytes |
| Query.NotGeoJsonName | gpq_downloader/utils.py:265-267 | Only names whose lower-cased form can end in `.geojson` are estimated |
| Validation.CheckBboxMetadata | gpq_downloader/utils.py:427-474 | A name is found exactly when some `geo` entry yields a value; it is the quote-stripped value of the first such entry |
| Validation.Failure | gpq_downloader/utils.py:531-537 | A failure ends in a failed `finished` carrying the prefixed message; the bbox warning precedes it exactly when the dictionary does not already claim a bbox |
| Validation.FinishedExactlyOnceLast | gpq_downloader/utils.py:476-539 | Every run emits `finished` exactly once, as its last signal |
| Validation.WarningIffNoBbox | gpq_downloader/utils.py:525-537 | The bbox warning is emitted exactly when the reported dictionary says there is no bbox, and always just before `finished` |
| Validation.InspectClaimsAreNamed | gpq_downloader/utils.py:501-529 | After inspection, the dictionary claims a bbox exactly when it names a bbox column |
| Validation.ClaimsAreNamed | gpq_downloader/utils.py:476-539 | Every reported dictionary claims a bbox exactly when it names a bbox column |
| Validation.TrustedPresetSkipsInspection | gpq_downloader/utils.py:493-499 | A preset that needs no validation finishes successfully at once, claiming a `bbox` column, with no schema |
| Validation.StructColumnWins | gpq_downloader/utils.py:508-517 | A `bbox` struct column settles the outcome before the metadata is consulted, and it is claimed |
| Validation.MetadataNamesTheColumn | gpq_downloader/utils.py:519-524 | Without a struct column, the column named by the first covering entry is claimed |
| Validation.FailuresAreReported | gpq_downloader/utils.py:485-539 | Every failed `finished` carries the "Error validating source: " prefix. An exception escapes exactly when the first connection raises. A connection failure reports the defaults |
| Validation.FailureIsPrefixed | gpq_downloader/utils.py:531-537 | The failure path, after any earlier signals, ends in the prefixed failed `finished` |
| Validation.InspectFailuresArePrefixed | gpq_downloader/utils.py:501-537 | A failed inspection ends with the prefixed message |
| Acquisition.LayerInfo | gpq_downloader/utils.py:100 | The layer phrase is empty exactly when there is no layer name, or the name is empty |
| Acquisition.Prepared | gpq_downloader/utils.py:126-158 | Once the schema is known, the profile records it and has a geometry column |
| Acquisition.ReachOf | gpq_downloader/utils.py:104-249 | A connection failure is caught first. Rows are counted only after the schema query answered and the area was transformed. A positive count is what the engine answered |
| Acquisition.OutcomeOf | gpq_downloader/utils.py:253-294 | Database outcomes happen exactly for a commit. A size stop happens exactly when a non-database export trips the guard, and it carries the estimate. The format is missing exactly for an unsupported name that did not trip the guard. An export failure carries the engine's message |
| Acquisition.MilestonesReached | gpq_downloader/utils.py:101-251 | A run emits between one and five progress messages |
| Acquisition.Progresses | gpq_downloader/utils.py:101-251 | The progress part of a trace holds only progress messages |
| Acquisition.OwnMessagesAreErrors | gpq_downloader/utils.py:289-318 | The messages the worker raises itself never mention "No data found", so the handler reports them as errors |
| Acquisition.HandleShaped | gpq_downloader/utils.py:310-318 | The handler emits nothing once killed; otherwise it ends in an error or in `finished` |
| Acquisition.ConcludeShaped | gpq_downloader/utils.py:297-308 | After an export, nothing follows once killed; otherwise the run ends in `finished` |
| Acquisition.ExportSignalsShaped | gpq_downloader/utils.py:253-318 | The export step never emits progress, and it ends in a terminal signal unless killed |
| Acquisition.SignalsShape | gpq_downloader/utils.py:98-329 | The signals after the last progress message are shaped the same way |
| Acquisition.TraceSignals | gpq_downloader/utils.py:98-329 | Apart from progress, a trace holds exactly the signals of its stages |
| Acquisition.TraceShape | gpq_downloader/utils.py:98-329 | `finished` is emitted at most once, and only last. Progress precedes everything else. An uncancelled trace ends in a signal the plugin acts on |
| Acquisition.HandleNeverLoads | gpq_downloader/utils.py:310-318 | The exception handler never asks for a layer to be loaded |
| Acquisition.ConcludeLoads | gpq_downloader/utils.py:297-308 | A layer is loaded exactly when the run was not cancelled and the output is not a database; the layer is the output file, emitted just before `finished` |
| Acquisition.ExportSignalsLoad | gpq_downloader/utils.py:253-318 | Only a completed export, never a failure, loads a layer |
| Acquisition.SignalsLoad | gpq_downloader/utils.py:244-318 | A layer is loaded only after rows were found and the export completed |
| Acquisition.TraceLoads | gpq_downloader/utils.py:98-329 | `load_layer` appears exactly after a completed non-database export in an uncancelled run, carries the output file, and is followed only by `finished` |
| Acquisition.TraceErrors | gpq_downloader/utils.py:310-329 | Errors never mention "No data found", except a connection failure reported by the outer handler |
| Acquisition.TraceSizeWarning | gpq_downloader/utils.py:264-269 | `file_size_warning` appears exactly for a size stop, and then it is the last signal |
| Acquisition.TraceNoFormat | gpq_downloader/utils.py:289-318 | An unsupported format reports itself, then the unbound `format_options`, and never finishes |
| Acquisition.TraceNoRows | gpq_downloader/utils.py:244-249 | With zero rows the trace is the same whether or not the run was killed. It ends in the empty-area notice and `finished`, with no error |
| Acquisition.FinishedIsLastSignal | gpq_downloader/utils.py:98-329 | In every run, `finished` is emitted at most once and only last, and progress comes first |
| Acquisition.UnkilledRunEndsInTerminalSignal | gpq_downloader/utils.py:98-329 | A run nobody cancelled ends in `finished`, `error` or `file_size_warning` |
| Acquisition.KilledRunNeverLoads | gpq_downloader/utils.py:297-300 | A cancelled run never loads a layer |
| Acquisition.GeoJsonSuffixIsNotDatabase | gpq_downloader/utils.py:253-265 | A name ending in `.geojson` in any case has extension `geojson` and is not a database |
| Acquisition.LoadLayerIff | gpq_downloader/utils.py:244-308 | A layer is loaded exactly when all of these hold: the run is uncancelled, rows were found, the export succeeded, the guard did not trip, the format is supported and the output is not a database. The layer is the output file, followed only by `finished` |
| Acquisition.ZeroRowsSkipsWhateverTheKill | gpq_downloader/utils.py:244-249 | Zero rows ends in the notice and `finished` whenever the user cancels, with nothing written and no error |
| Acquisition.ErrorsAreNotNoData | gpq_downloader/utils.py:310-329 | Every error is free of "No data found", unless it is the connection's own message |
| Acquisition.UnsupportedFormatReportsTwice | gpq_downloader/utils.py:289-294 | An unsupported name reports the format, then the unbound options; nothing is written and the run never finishes |
| Acquisition.SizeWarningIff | gpq_downloader/utils.py:264-269 | The size warning is emitted exactly when rows were found and the GeoJSON guard trips. It is then the last signal, carries the estimate, and nothing is written |
| Acquisition.PreparedIdempotent | gpq_downloader/utils.py:126-158 | Preparing a prepared profile against the same schema changes nothing |
| Acquisition.ProfileNeverGainsBbox | gpq_downloader/utils.py:192-205 | A run never claims a bbox, or names a bbox column, that the incoming profile did not |
| Acquisition.GeometryColumnKeptWhenPresent | gpq_downloader/utils.py:133-134 | A geometry column in the incoming profile is kept |
| Acquisition.QueryFollowsSchema | gpq_downloader/utils.py:192-230 | The query uses the bbox filter exactly when the profile names a column and the schema is empty or has a `bbox` struct; otherwise it intersects the detected geometry column |
| Acquisition.PredicateFollowsSchema | gpq_downloader/utils.py:192-230 | The same, for the query of a whole run |
| Acquisition.RestartQuery | gpq_downloader/plugin.py:432-458 | Restarting with the dictionary a run left behind builds the same query |
| Acquisition.AcceptedRunNeverWarns | gpq_downloader/utils.py:267 | With the warning accepted, a run never stops at the size guard |
| Acquisition.RestartBuildsSameQuery | gpq_downloader/plugin.py:438-461 | A run restarted with the dictionary left behind and the warning accepted builds the same query and never warns |
| Dialog.TypeName | gpq_downloader/dialog.py:355-368 | `transportation`, `divisions` and `addresses` map to `segment`, `division_area` and `*`; any other theme is the result followed only by `s`s, and the result does not end in `s` |
| Dialog.TypeNamesOfShippedThemes | gpq_downloader/dialog.py:355-368 | The shipped themes map to `building`, `place`, `segment`, `*` and `division_area` |
| Dialog.CheckedThemes | gpq_downloader/dialog.py:352-369 | The checked themes are exactly the catalog's checked non-base entries |
| Dialog.ThemeUrlsRaiseIff | gpq_downloader/dialog.py:352-369 | The theme URLs raise exactly when a checked theme has no URL template |
| Dialog.UrlsOf | gpq_downloader/dialog.py:352-369 | One URL per theme, in order, each the theme's template filled with its type name |
| Dialog.ThemeUrlsInOrder | gpq_downloader/dialog.py:352-369 | When nothing raises, the theme URLs are those of the checked themes, in catalog order |
| Dialog.BaseUrls | gpq_downloader/dialog.py:361-366 | Every URL comes from a checked subtype, and every checked subtype gives its URL |
| Dialog.BaseUrlsAppend | gpq_downloader/dialog.py:361-364 | The URLs follow the order of the subtype list: a list split in two gives the first part's URLs, then the second's |
| Dialog.BaseUrlsOne | gpq_downloader/dialog.py:361-364 | One subtype gives its filled template exactly when its box is checked |
| Dialog.FindByDisplayName | gpq_downloader/dialog.py:370-379 | The entry found carries the chosen display name, or no entry does; a crash means an entry lacks a display name |
| Dialog.ChosenUrl | gpq_downloader/dialog.py:370-379 | A preset choice stands for at most one URL |
| Dialog.ValidateAndAccept | gpq_downloader/dialog.py:259-306 | Validation is started only from a custom form, on its stripped URL |
| Dialog.CustomUrlIsValidatedExactlyWhenSchemeAllowed | gpq_downloader/dialog.py:261-278 | A custom form stands for its stripped text. It is validated exactly when the scheme is allowed, so an empty entry fails the scheme check |
| Dialog.PresetFormsAreNeverValidated | gpq_downloader/dialog.py:261-306 | A preset form is refused exactly when it yields no URL, and otherwise accepted without validation |
| Dialog.ThemesWithTemplatesNeverRaise | gpq_downloader/dialog.py:352-369 | With every theme templated, the theme URLs never raise |
| Dialog.OvertureUrlsInOrder | gpq_downloader/dialog.py:351-369 | The Overture URLs are the checked themes in order, followed by one URL per checked base subtype |
| Dialog.ChoiceFindsFirstNamedEntry | gpq_downloader/dialog.py:372-374 | A choice finds the first entry with that display name |
| Dialog.ReactAll | gpq_downloader/dialog.py:308-440 | The dialog closes exactly when a warning is answered yes or a run finishes successfully |
| Dialog.ClosesUnlessFailedAndDeclined | gpq_downloader/dialog.py:308-440 | After a validation run, the dialog closes exactly when the run succeeded or the user accepted the bbox warning |
| Dialog.NeverRejects | gpq_downloader/dialog.py:281-339 | The current dialog never rejects itself in reaction to a run, because closing its progress dialog only runs `cancel_validation` |
| Dialog.AcceptedIff | gpq_downloader/dialog.py:308-440 | For any run ending in its only `finished`: the dialog closes exactly on success or on an accepted warning |
| Dialog.InspectionWithoutBbox | gpq_downloader/utils.py:525-529 | An inspection finding no bbox of either kind warns, then finishes successfully without a bbox column |
| Dialog.RunWithoutBbox | gpq_downloader/utils.py:476-529 | A run on such a source is two progress messages, the warning and a successful `finished` |
| Dialog.DecliningAfterCleanInspection | gpq_downloader/dialog.py:308-440 | For a run that warns and then succeeds, declining the warning reports "Download cancelled by user.", and the run's success still reports and closes the dialog |
| Dialog.DeclinedThenFinished | gpq_downloader/dialog.py:308-440 | Reacting to two progress messages, a declined warning and a successful end gives the labels, the cancellation, the success and acceptance, listed in the order the signals were emitted |
| Legacy.LegacyOutcome | qgis_plugin_gpq_downloader.py:258-282 | The legacy export never stops for size. It commits exactly for a database, lacks a format exactly for an unsupported name, and fails with the engine's message |
| Legacy.GatedShaped | qgis_plugin_gpq_downloader.py:298-300 | The legacy handler reports the raw message unless killed, and never warns about size |
| Legacy.LegacyExportShaped | qgis_plugin_gpq_downloader.py:258-300 | The legacy export step never emits progress, ends terminally unless killed, and never warns |
| Legacy.LegacySignalsShape | qgis_plugin_gpq_downloader.py:163-300 | The same for the legacy signals after progress; a connection failure has none |
| Legacy.LegacyTraceShape | qgis_plugin_gpq_downloader.py:163-300 | A legacy trace has the current trace's shape and never warns about size |
| Legacy.LegacyRunShape | qgis_plugin_gpq_downloader.py:163-300 | In every legacy run, `finished` is at most once and last, progress is first, and there is no size warning |
| Legacy.LegacyTraceConnectFailed | qgis_plugin_gpq_downloader.py:165-168 | A legacy connection failure leaves only the first progress message |
| Legacy.LegacyConnectFailureEscapes | qgis_plugin_gpq_downloader.py:168 | The first connection is outside the `try`: when it raises, the exception escapes after one progress message |
| Legacy.LegacyTraceNoRows | qgis_plugin_gpq_downloader.py:250-254 | With zero rows the legacy trace ends in the "No data found" error and never finishes |
| Legacy.LegacyZeroRowsIsAnError | qgis_plugin_gpq_downloader.py:250-254 | Zero rows is an error in the legacy worker, cancelled or not, but a notice plus `finished` in the current one |
| Legacy.LegacyTraceNoFormat | qgis_plugin_gpq_downloader.py:277-282 | An unsupported legacy format reports itself and then the unbound options |
| Legacy.LegacyGeoJsonIsUnsupported | qgis_plugin_gpq_downloader.py:268-282 | A `.geojson` output is unsupported in the legacy worker: two errors, nothing written, no `finished` |
| Legacy.LegacyTrustsTheDictionary | qgis_plugin_gpq_downloader.py:217-236 | The legacy filter uses whatever non-empty bbox column the dictionary names, or the bare `geometry` column |
| Legacy.LegacyValidationEnds | qgis_plugin_gpq_downloader.py:368-413 | A legacy validation is progress messages followed by exactly one ending: `finished` with a named dictionary, or the bbox warning |
| Legacy.InspectIsOneEnd | qgis_plugin_gpq_downloader.py:380-411 | A legacy inspection emits exactly one signal: `finished` or the warning |
| Legacy.ValidationVersionsDiffer | qgis_plugin_gpq_downloader.py:403-406 | On a source without a bbox, the legacy run ends in the warning and never finishes; the current run finishes successfully |
| Legacy.LowerUndoesTitle | qgis_plugin_gpq_downloader.py:480-482 | Lower-casing a title-cased key of lower-case letters gives back the key |
| Legacy.OvertureChoiceFindsTheme | qgis_plugin_gpq_downloader.py:676-689 | Choosing a theme's combo item gives that theme's template, filled with its type name |
| Legacy.LegacyAlwaysValidates | qgis_plugin_gpq_downloader.py:590-634 | The legacy dialog never accepts without validation. It validates exactly the non-empty URLs that are not a custom URL with a bad scheme |
| Legacy.ReactionKeepsNamed | qgis_plugin_gpq_downloader.py:726-747 | Every dictionary the legacy dialog passes on claims a bbox exactly when it names a column |
| Legacy.LegacyValidationCloses | qgis_plugin_gpq_downloader.py:630-747 | Every legacy validation closes the dialog: at the bbox warning it is rejected before the answer is reported and never accepted; after `finished` it ends rejected, having been accepted first exactly when the run succeeded |
| Legacy.EndsInWarning | qgis_plugin_gpq_downloader.py:726-747 | Progress then the warning gives the labels, the rejection, then the user's answer, and no acceptance |
| Legacy.EndsInFinished | qgis_plugin_gpq_downloader.py:630-666 | Progress then `finished` ends in the rejection, with an acceptance exactly when the run succeeded |
| Legacy.ProgressOnlyLabels | qgis_plugin_gpq_downloader.py:637-639 | Progress signals only update the label |
| Legacy.OnValidationComplete | qgis_plugin_gpq_downloader.py:796-834 | A download starts exactly on success with a save answer, and uses the reported dictionary; a failure shows a warning |
| Legacy.LegacyDefaultFilename | qgis_plugin_gpq_downloader.py:800-818 | The offered name always ends in `.parquet` |
| Legacy.DefaultNameIsParquet | qgis_plugin_gpq_downloader.py:800-818 | The offered name is written as Parquet by the legacy worker |
| Legacy.ValidatedProfileDrivesPredicate | qgis_plugin_gpq_downloader.py:217-236 | Every successful dictionary gives the bbox filter exactly when it claims a bbox; the declared no-bbox dictionary gives ST_Intersects |
| Plugin.SavedSelection | gpq_downloader/dialog.py:237-253 | Saving the selection raises exactly when no button is checked; otherwise it saves the button's caption |
| Plugin.RestoredMode | gpq_downloader/plugin.py:84-89 | A missing or empty setting restores Overture. A caption restores its button. An unknown caption leaves no button checked |
| Plugin.SelectionRoundTrip | gpq_downloader/plugin.py:84-89 | Restoring a saved selection checks the same button |
| Plugin.CleanName | gpq_downloader/plugin.py:151-159 | A cleaned name has no spaces or slashes, and no parentheses when they are dropped |
| Plugin.DefaultFilename | gpq_downloader/plugin.py:137-161 | Building the name raises exactly for an Overture URL without `theme=`; otherwise the name ends in `.parquet` |
| Plugin.DefaultNameIsParquet | gpq_downloader/plugin.py:137-161 | Every offered name is written as ZSTD Parquet and never size-checked |
| Plugin.ThemeFoundFirst | gpq_downloader/plugin.py:142 | `theme=` is found right after a prefix without `=` |
| Plugin.TypeFoundAfterTheme | gpq_downloader/plugin.py:144 | In a base URL, `type=` is first found after `theme=base/` |
| Plugin.BaseThemePiece | gpq_downloader/plugin.py:142 | The theme directory of a base URL reads `base` |
| Plugin.BaseTypePiece | gpq_downloader/plugin.py:144 | The type directory of a base URL is the one after `type=` |
| Plugin.OvertureNameCarriesTheme | gpq_downloader/plugin.py:140-151 | An Overture theme URL is offered `overture_<theme>_<date>.parquet` |
| Plugin.BaseUrlPieces | gpq_downloader/plugin.py:142-144 | Both splits of a base URL read what it was built from |
| Plugin.BaseFilenameFromPieces | gpq_downloader/plugin.py:143-146 | A base URL is offered `overture_base_<type>_<date>.parquet` |
| Plugin.OvertureBaseNameCarriesType | gpq_downloader/plugin.py:140-146 | The same, for any base URL built from a prefix and a type directory |
| Plugin.LayerName | gpq_downloader/plugin.py:512-522 | Only Overture URLs with `theme=` get a layer name; every other URL gets none |
| Plugin.OvertureLayerNamedAfterTheme | gpq_downloader/plugin.py:513-521 | A theme URL is named "Overture <Theme>" |
| Plugin.OvertureBaseLayerNamedAfterType | gpq_downloader/plugin.py:513-519 | A base URL is named "Overture Base - <Type>" |
| Plugin.BaseLayerFromPieces | gpq_downloader/plugin.py:513-519 | The same, from what the splits read |
| Plugin.DefaultProfile | gpq_downloader/plugin.py:524-539 | Every worker that `process_download_queue` starts begins from a claimed `bbox` column and no schema; only the address extracts use `geom` as the geometry column |
| Plugin.OpenDialog | gpq_downloader/plugin.py:65-89 | Opening is refused exactly while a download runs; otherwise the worker is forgotten and the saved selection is restored |
| Plugin.ProcessQueue | gpq_downloader/plugin.py:503-567 | An empty queue changes nothing. Otherwise the result raises exactly when the head's layer name raises. On success the head runs and the tail is remembered |
| Plugin.CleanupThread | gpq_downloader/plugin.py:252-261 | With a thread held, the worker is killed and both are dropped; otherwise nothing changes |
| Plugin.CancelDownload | gpq_downloader/plugin.py:247-250 | Any worker is killed, and a consistent state becomes idle |
| Plugin.OnFinished | gpq_downloader/plugin.py:575-580 | Completion cleans up when nothing remains, and otherwise starts the remaining queue afresh |
| Plugin.StartIgnoresState | gpq_downloader/plugin.py:553-555 | Starting a queue does not depend on the state it replaces |
| Plugin.QueueDrains | gpq_downloader/plugin.py:503-580 | After `k` completions, the plugin runs the queue from its `k`-th download |
| Plugin.DrainStep | gpq_downloader/plugin.py:575-580 | One completion moves the queue on by one download |
| Plugin.QueueRunsInOrder | gpq_downloader/plugin.py:503-580 | Downloads run one at a time in queue order with their own jobs; the dialog reopens exactly once the queue is done |
| Plugin.OnError | gpq_downloader/plugin.py:239-241 | Closing the progress dialog cancels the download, so an error leaves a consistent plugin idle |
| Plugin.ErrorDropsQueue | gpq_downloader/plugin.py:239-261 | An error kills the worker, drops the downloads queued behind it, and lets the dialog open again at once |
| Plugin.CancelledEmptyAreaStillAdvances | gpq_downloader/plugin.py:575-580 | Cancelling a run that finds no rows still lets its `finished` start the next download |
| Plugin.HandlersKeepWorkerWithThread | gpq_downloader/plugin.py:65-580 | Every handler keeps the worker and its thread together |
| Plugin.FilterExtension | gpq_downloader/plugin.py:388 | Reading the extension raises exactly when the filter has no `*` |
| Plugin.ExtensionFromFilter | gpq_downloader/plugin.py:388 | The extension is read from between the `*` and the closing parenthesis |
| Plugin.FilterExtensions | gpq_downloader/plugin.py:388 | Each offered filter gives its format's extension |
| Plugin.SuggestionMatchesFormat | gpq_downloader/plugin.py:386-390 | The proposed name is written in the chosen format and never size-checked |
| Plugin.SuggestionSwapsExtension | gpq_downloader/plugin.py:390 | The proposal swaps the `.geojson` extension for the chosen one |
| Plugin.Respond | gpq_downloader/plugin.py:384-469 | The warning loop keeps the worker and its thread together |
| Plugin.OnLargeFile | gpq_downloader/plugin.py:318-320 | Without a worker the session is lost and nothing happens |
| Plugin.WarningFreesPluginFirst | gpq_downloader/plugin.py:316-333 | The warned worker is killed when the progress dialog closes, so the warning dialog decides from an idle plugin with the warned job and queue |
| Plugin.FirstDecisivePressWins | gpq_downloader/plugin.py:399-430 | Cancelled "Save As..." presses change nothing |
| Plugin.DismissActsLikeCompletion | gpq_downloader/plugin.py:464-469 | Cancelling the warning acts as if the warned download had finished |
| Plugin.ProceedNeverWarnsAgain | gpq_downloader/plugin.py:432-462 | "Proceed" restarts the download with the same remaining queue; it builds the same query and never warns again |
| Plugin.ProceedRestarts | gpq_downloader/plugin.py:432-462 | "Proceed" restarts under the same name with the warning accepted |
| Plugin.SaveAsRestartsUnderNewName | gpq_downloader/plugin.py:399-429 | "Save As..." restarts under the new name with the run's dictionary, the same URL and extent, and the warning not accepted |
| Plugin.CollectDownloads | gpq_downloader/plugin.py:134-176 | The batch is queued exactly when every name is built and every save dialog is answered; the queue pairs each URL with its answer, in order |
| Plugin.AcceptDialog | gpq_downloader/plugin.py:108-114 | A raising extent lookup makes accepting raise |
| Plugin.ShippedDialogNeverQueues | gpq_downloader/plugin.py:108-114 | With the shipped dialog, which has no `get_current_extent`, accepting raises `AttributeError` once the URLs are read, and no download starts |
| Plugin.AcceptedUrlsDownloadInOrder | gpq_downloader/plugin.py:108-179 | For a dialog that defines `get_current_extent`: when every save dialog is answered, the `k`-th completion leaves the `k`-th URL downloading, to its answer, over the dialog's extent or else the canvas's |
| MapTool.Outline | gpq_downloader/map_tool.py:98-110 | The outline has four points and joins the anchor to the current corner |
| MapTool.Bounds | gpq_downloader/map_tool.py:158-163 | The kept rectangle is normalised, contains both corners, and has its bounds taken from them |
| MapTool.Reset | gpq_downloader/map_tool.py:27-50 | Reset forgets both corners and the outline and disables OK, keeping the rectangle and the drawing flag |
| MapTool.Press | gpq_downloader/map_tool.py:52-96 | Only a left press acts: it resets, then anchors both corners at the point and starts drawing |
| MapTool.Move | gpq_downloader/map_tool.py:98-137 | A move acts only while drawing from an anchor, and then moves only the current corner and the outline |
| MapTool.Release | gpq_downloader/map_tool.py:139-179 | A left release stops drawing. With both corners it keeps their normalised rectangle and enables OK. Without them it resets |
| MapTool.Deactivate | gpq_downloader/map_tool.py:181-187 | Deactivating stops drawing and resets, keeping the rectangle |
| MapTool.StepKeepsCoherent | gpq_downloader/map_tool.py:27-187 | Every event keeps the tool coherent: both corners or none, an outline joining them, a normalised rectangle, and OK enabled only for the rectangle the corners span |
| MapTool.ReplayKeepsCoherent | gpq_downloader/map_tool.py:27-187 | Whatever the user does, the tool stays coherent |
| MapTool.InitialIsCoherent | gpq_downloader/map_tool.py:14-25 | A new tool is coherent, with OK disabled |
| MapTool.DragKeepsSpannedRectangle | gpq_downloader/map_tool.py:52-171 | A left drag keeps the rectangle spanned by its endpoints and enables OK |
| MapTool.ReleaseWithoutAnchorKeepsNothing | gpq_downloader/map_tool.py:143-148 | A release with no anchor keeps no new rectangle and leaves OK disabled |

## Left out

- Query execution inside DuckDB. Installing and loading extensions, SQL semantics, `parquet_kv_metadata` and JSON-path evaluation are foreign calls. Their answers are inputs: the schema, the metadata entries with their extraction results, the row count, the sample average and exception texts.
- Reprojection. `transformBoundingBox` is a QGIS call on floats, so the reprojected rectangle is an input. Only the `None` and identity branches are decided by the model.
- Qt threads, signal delivery, progress dialogs and message boxes. These are concurrency and UI. Emitted signals are an ordered trace, and the user's answers are inputs. One Qt behaviour is modelled: closing a `QProgressDialog` emits its `canceled` signal, which the plugin connects to `cancel_download` (`Plugin.OnError`, `Plugin.OnLargeFile`), the current dialog to `cancel_validation` (`Dialog.NeverRejects`), and the legacy dialog to `cleanup_validation(False)`, which rejects the dialog (`Legacy.LegacyReact`). The reactions are listed in the order the signals were emitted. Qt may deliver them in another order: the modal bbox question runs a nested event loop, and `finished` can be handled there before the answer is reported.
- Settings persistence, link labels, dialog resizing, `load_layer` and `show_info`. These are host integration. The saved radio-button caption is kept only as far as the selection round trip.
- `gpq_downloader/map_tools.py`. Its behaviour rests on QGIS rubber-band semantics that are not part of this model.
- The text of the SQL statements. The sample-feature query, the Hilbert `ORDER BY`, `DROP TABLE` and the number formatting of coordinates and sizes are float formatting or opaque text. The SELECT list, the predicate and the export options are ADTs instead.
- `get_bbox_info_from_metadata` in both versions. It is never called.
- The `aoi_geometry` argument of `setup_worker`, which `Worker` does not accept, and the `ST_GeomFromWKB` conversion that a test expects but the code never emits.
- `handle_validation_complete` and `download_and_save` in `gpq_downloader/plugin.py`. No signal is connected to them.
- Cancelling validation. `ValidationWorker.killed` is set but never read by `run`, so validation has no cancellation point.
- `get_current_extent`. The dialog in `gpq_downloader/dialog.py` does not define it, so calling it raises `AttributeError` (`Plugin.ShippedDialogNeverQueues`). Its answer (an extent, `None`, or an exception) is an input to `Plugin.AcceptDialog`, so the model also covers a dialog that defines it.
- The truthiness of `QgsPointXY` in the map tool. A missing map point is `None`; a point at the origin is not treated as false.
- The map tool is not connected to the plugin's download path in the code, so the kept rectangle is not fed into `Plugin.AcceptDialog`.
- Text.Lower, Text.Upper and Text.Title: only ASCII letters change case, so `Schema` type tests that use `Text.Upper` agree with Python only on ASCII type names; Python's full Unicode case mapping is not modelled.
- Dialog.Format: only the `{subtype}` field is substituted, since that is the only field the catalog templates use.
- The display-name lookup raises `KeyError` for an entry without `display_name`. The model reports it as a crash but does not model the text of the error.
- Dialog.ThemeUrls: its own contract states only a length bound. Its contents and its crash condition are stated in `Dialog.ThemeUrlsInOrder` and `Dialog.ThemeUrlsRaiseIff`.
- Dialog.ChosenUrl: its own contract states only that at most one URL is returned. Which entry it takes is stated in `Dialog.ChoiceFindsFirstNamedEntry` and `Dialog.FindByDisplayName`.
- Plugin.AcceptDialog: its own contract states only the raising extent lookup. The queue it starts is stated in `Plugin.AcceptedUrlsDownloadInOrder`.
- Plugin.OnLargeFile: its own contract states only the lost-session branch. The three buttons are stated in `Plugin.ProceedRestarts`, `Plugin.SaveAsRestartsUnderNewName` and `Plugin.DismissActsLikeCompletion`.
- The text of the `UnboundLocalError` about `format_options` is the one Python 3.11 and later print. Python 3.10 and earlier print "local variable 'format_options' referenced before assignment".
- Query.EstimateFileSizeMb: the division into megabytes is exact real arithmetic; Python's floating point rounding is not modelled.

Where the behaviour of the code differs from what its documentation describes, the model follows the code:

- An error closes the progress dialog, which cancels the download: the downloads queued behind the failed one are dropped (`Plugin.ErrorDropsQueue`).
- Accepting the data-source dialog always raises `AttributeError`, because `DataSourceDialog` has no `get_current_extent`, so no download starts (`Plugin.ShippedDialogNeverQueues`).
- A run that finds zero rows emits `finished` even when it was cancelled, so the queue moves on (`Plugin.CancelledEmptyAreaStillAdvances`).
- "Save As..." replaces the output file rather than adding a second one.
- An unsupported output name reports "Unsupported file format." and then the `UnboundLocalError` about `format_options` (`Acquisition.UnsupportedFormatReportsTwice`).
- The `.gpkg`, `.fgb` and `.geojson` tests are case-sensitive, so `x.GPKG` is unsupported (`Query.UpperCaseGpkgIsUnsupported`).
- The legacy validation returns after the bbox warning without `finished` (`Legacy.ValidationVersionsDiffer`).
