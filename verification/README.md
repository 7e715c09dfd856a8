# Curriculum log data layer in Dafny

This project models the data layer of a school curriculum-logging app. The app keeps one
shared document (`AppData`) holding four collections: teachers, courses, subjects and dated
content logs. The model covers these parts:

- **Import reconciliation.** Rows extracted from a PDF are merged into the document. Each
  teacher, course and subject name resolves against the collections as they grow, by
  case-insensitive trimmed match, and an entity is created when no match exists (`findOrCreate`).
  A row whose key (date, the three resolved ids, trimmed content) is already recorded is
  dropped (`Import`, `Resolver`).
- **Document mutations.** Adding a log, adding a teacher and renaming a teacher (`Mutations`).
- **Dashboard metrics.** The total log count, the recent log count, and per-teacher progress
  against a baseline of 20 logs, capped at 100 (`Metrics`). The progress bar's clamp is in
  `ProgressBar`.
- **Report view.** Three "all"-or-exact-id filters, then a newest-first sort (`Report`).
- **PDF export.** Choosing the scope (`ExportModal`), planning logs, title and file name, and
  deciding whether a file is saved (`PdfExport`).
- **Registration form.** Initial selections, validation of a new log, and saving a teacher's
  name (`RegisterForm`).

Shared pieces live in their own modules:

- `Wrappers`: `Option` and `Result`.
- `Seqs`: `Filter` and its laws.
- `Text`: ECMAScript `trim`, lower-casing, and `replace(/\s/g, '_')`.
- `Types`: the records of `types.ts`.
- `Dates`: date parsing, supplied as a parameter.

Environment-dependent values are parameters:

- Fresh ids (`uuidv4`) come from a supply `ids: seq<string>`, assumed distinct and unused.
- `new Date(s)` is a `DateParser`, `string -> Option<int>`, where `None` stands for an
  invalid date.
- The clock enters as a cutoff instant.
- `toISOString().split('T')[0]` enters as the string `isoDate`.
- The `!appData` guard is an `Option<AppData>`.

Three behaviours of the code shape the model's statements:

- **The "all" selector.** ReportView treats the literal id `"all"` as "no filter", while
  PdfExport filters a teacher's logs by plain equality. The two agree only for other ids, so
  `PdfExport.TeacherPlanMatchesReportView` requires the id to differ from `"all"`.
- **The 30-day window.** The window is "now minus 30 days" at the current time of day, and a
  log counts when its parsed date is at or after that instant. The model takes the instant as
  an abstract cutoff with an inclusive comparison, and says nothing about calendar days.
- **Several clock reads.** The dashboard reads the clock once for the recent count
  (Dashboard.tsx:29) and once more for each teacher's progress (Dashboard.tsx:13, called at
  Dashboard.tsx:52). `Metrics.Summarize` therefore takes one cutoff for the recent count and
  one cutoff per teacher, none earlier than the first.

## Model

| member | source | states |
|---|---|---|
| Types.FirstId | components/RegisterForm.tsx:17-19 | a selector starts on the first entity's id, or on the empty string when the collection is empty |
| Text.TrimShape | App.tsx:175 | `trim` yields a contiguous slice of its input with no whitespace at either end and only whitespace cut away; it is empty exactly when the input is all whitespace |
| Text.TrimIdempotent | App.tsx:177 | trimming an already-trimmed name changes nothing, so a created entity's stored name is its own trimmed name |
| Text.TrimmedNameIsSameName | App.tsx:175-177 | the trimmed name stored for a new entity matches the query it was created for under the case-insensitive trimmed comparison |
| Text.LowerPointwise | App.tsx:175 | `toLowerCase` maps each character on its own: capitals A to Z and the Latin-1 capitals to their small letters, everything else unchanged |
| Text.LowerIdempotent | App.tsx:175 | lower-casing a lower-cased name changes nothing |
| Text.UnderscoreSpaces | components/PdfExport.tsx:32 | replacing every whitespace character with `_` keeps the length, keeps every other character, and leaves no whitespace |
| Resolver.Find | App.tsx:175 | the index found is the first entity whose trimmed lower-cased name equals the query's; `None` exactly when no entity matches |
| Resolver.Lookup | App.tsx:175 | `find` returns an entity exactly when a name matches, and then the first matching entity |
| Resolver.FindOrCreate | App.tsx:174-181 | the returned entity is the one the collection resolves the name to afterwards; an existing match leaves the collection and the id supply untouched; otherwise exactly one entity is appended, with the next fresh id and the trimmed name |
| Resolver.FindInExtension | App.tsx:175 | appending entities never changes which entity an already-resolvable name resolves to (first match wins) |
| Resolver.ResolveAgainIsStable | App.tsx:174-181 | resolving the same name, or any case- or whitespace-variant of it, a second time returns the same entity and does not grow the collection |
| Resolver.FindOrCreateAddsNewName | App.tsx:176-179 | an entity is created only for a name no existing entity matches, so names added during an import are pairwise different keys |
| Resolver.AppendFreshEntity | App.tsx:177-178 | appending an entity whose id is fresh keeps the collection's ids unique |
| Resolver.FindOrCreateKeepsIdsFresh | App.tsx:174-181 | resolution keeps ids unique, and the ids left in the supply stay fresh with respect to the grown collection |
| Import.ImportRow | App.tsx:184-207 | a row missing teacher, course, subject or content changes nothing; otherwise each collection grows by at most one entry, existing entries are kept, and at most four ids are consumed |
| Import.ImportRowRecords | App.tsx:186-207 | after an accepted row is processed, a log with that row's key is recorded |
| Import.ImportRowAddsNoDuplicates | App.tsx:190-206 | a log is appended only when its key is not already recorded, so the appended logs never duplicate an existing key |
| Import.ImportRowLogFromRow | App.tsx:199-206 | a log appended for a row carries the row's date and untrimmed content, no observations, and ids of a teacher, a course and a subject present in the result |
| Import.Import | App.tsx:168-208 | a batch only extends the four collections; each grows by at most the number of accepted rows; at most four ids are consumed per accepted row |
| Import.RecordedPersists | App.tsx:190-198 | a row recorded in a document stays recorded after further rows are imported |
| Import.RecordedRowIsNoOp | App.tsx:186-198 | importing a row that is skipped, or whose names resolve and whose key is already recorded, changes neither the document nor the id supply |
| Import.ImportRecordsEveryRow | App.tsx:183-208 | after a batch, every accepted row of the batch is recorded |
| Import.ImportOfRecordedIsNoOp | App.tsx:183-208 | a batch whose accepted rows are all recorded leaves the document unchanged |
| Import.ReimportIsNoOp | App.tsx:168-210 | importing the same batch a second time leaves the merged document exactly as the first import left it and uses no id |
| Import.ImportAddsNoDuplicates | App.tsx:190-198 | the entities a batch creates have names no earlier entity matches, and the logs it appends have keys no earlier log carries, whether present before or appended earlier in the batch |
| Import.ImportLogsFromRows | App.tsx:199-206 | every log a batch appends comes from an accepted row of the batch: that row's date and content, no observations, and ids of entities present in the result |
| Import.SkippedRowsChangeNothing | App.tsx:184 | a batch imports exactly as its accepted rows alone would; skipped rows consume no ids and change nothing |
| Import.AppendFreshLog | App.tsx:199-206 | appending a log with a fresh id keeps log ids unique |
| Import.AppendFreshLogToData | App.tsx:199-206 | appending a log with a fresh id keeps every id of the document unique |
| Import.ResolveRowKeepsIdsUnique | App.tsx:186-188 | resolving a row's three names keeps the document's ids unique and the rest of the supply fresh |
| Import.ImportRowKeepsIdsUnique | App.tsx:184-207 | importing one row keeps the document's ids unique when the supply is fresh |
| Import.ImportKeepsIdsUnique | App.tsx:168-208 | importing a batch from a fresh supply keeps every id in the merged document unique |
| Resolver.VariantsFindOneEntity | App.tsx:175 | two names that differ only in case or surrounding whitespace find the same entity in any collection |
| Resolver.NewNamesAtMostOnce | App.tsx:176-179 | among the entities appended by resolution, at most one matches any given name |
| Import.RecordedHasEntity | App.tsx:186-188 | a recorded, accepted row names a teacher, a course and a subject that the document holds |
| Import.VariantNamesShareOneEntityIn | App.tsx:186-188 | two recorded rows whose teacher, course or subject names differ only in case or surrounding whitespace resolve to the same entity of that kind, and at most one new entity of that kind carries the name |
| Import.VariantNamesShareOneEntity | App.tsx:169-188 | rows of one batch whose teacher, course or subject names are case- or whitespace-variants end up referring to one entity of that kind, created at most once, even when an earlier row of the batch created it |
| Mutations.AddContentLog | App.tsx:86-90 | without a loaded document nothing happens; otherwise the log is appended at the end and the other collections are unchanged |
| Mutations.AddTeacher | App.tsx:92-97 | without a loaded document nothing happens; otherwise a teacher with the fresh id and the given name is appended and nothing else changes |
| Mutations.Renamed | App.tsx:103-105 | every teacher keeps its position and id; exactly the teachers with the given id get the new name |
| Mutations.UpdateTeacher | App.tsx:99-108 | without a loaded document nothing happens; otherwise only the teachers collection changes, renamed as above |
| Mutations.UpdateTeacherKeepsIds | App.tsx:103-105 | renaming preserves the set of teacher ids and their uniqueness |
| Mutations.UpdateTeacherIdempotent | App.tsx:99-108 | renaming the same teacher to the same name twice equals doing it once |
| Mutations.AddTeacherKeepsIdsUnique | App.tsx:94-95 | adding a teacher with a fresh id keeps every id in the document unique |
| Mutations.AddContentLogKeepsIdsUnique | App.tsx:86-90 | adding a log with a fresh id keeps every id in the document unique |
| ProgressBar.SafePercentage | components/ProgressBar.tsx:9 | the displayed percentage lies in [0, 100]; it is the input inside that range, 0 below it and 100 above it |
| ProgressBar.SafePercentageIdempotent | components/ProgressBar.tsx:9 | clamping twice equals clamping once |
| Metrics.Progress | components/Dashboard.tsx:12-24 | progress lies in [0, 100]; it is 5 per recent log of the teacher below the baseline of 20, and exactly 100 at or above it (25 logs give 100) |
| Metrics.RecentLogsCount | components/Dashboard.tsx:29-31 | the recent count is exactly the number of logs whose date parses to an instant at or after the cutoff, and so never exceeds the total count |
| Metrics.TeacherRecentLogsAreQualifying | components/Dashboard.tsx:16-18 | the logs counted for a teacher are exactly that teacher's logs with a valid date at or after the cutoff |
| Metrics.TeacherCountWithinRecentCount | components/Dashboard.tsx:13-31 | a teacher's count, taken at a later or equal cutoff, never exceeds the overall recent count |
| Metrics.ProgressNeverDrops | components/Dashboard.tsx:16-23 | extending the log stream never lowers any teacher's progress |
| Metrics.AddContentLogNeverLowersProgress | components/Dashboard.tsx:16-23 | registering a log never lowers any teacher's progress |
| Metrics.ImportNeverLowersProgress | components/Dashboard.tsx:16-23 | importing a batch never lowers any teacher's progress |
| Metrics.SafePercentageKeepsProgress | components/ProgressBar.tsx:9 | the progress bar displays every computed progress value unchanged |
| Metrics.Summarize | components/Dashboard.tsx:27-52 | the dashboard shows the total log count, the recent count at its cutoff, and for each teacher, in order, that teacher's progress at that teacher's own cutoff; each progress lies in [0, 100] and is at most 5 times the recent count |
| Report.InsertNewestFirst | components/ReportView.tsx:24 | inserting a log into a newest-first list keeps it newest-first and adds exactly that log |
| Report.SortNewestFirst | components/ReportView.tsx:24 | the sorted logs are a permutation of the input, ordered by parsed date with the most recent first |
| Report.FilteredLogs | components/ReportView.tsx:19-25 | the report lists exactly the logs the three filters admit, as a multiset, ordered newest first |
| Report.FilteredLogsSound | components/ReportView.tsx:21-23 | every listed log matches each filter: the filter is "all" or the log's id equals it |
| Report.FilteredLogsComplete | components/ReportView.tsx:20-23 | every log that matches all three filters is listed, as often as it is stored |
| Report.EverythingReportsAllLogs | components/ReportView.tsx:11-24 | with the initial all/all/all filter, the report lists every log as often as it is stored |
| ExportModal.InitialTeacherSelection | components/ExportModal.tsx:15 | the teacher selector starts on the first teacher, or on nothing |
| ExportModal.GenerateClick | components/ExportModal.tsx:17-26 | a complete report yields the all-logs configuration; a teacher report yields that teacher's configuration, unless no teacher is selected, which yields the alert |
| PdfExport.FindTeacher | components/PdfExport.tsx:28 | finds the first teacher with the requested id; `None` exactly when no teacher has it |
| PdfExport.PlanExport | components/PdfExport.tsx:22-38 | a complete report, or a teacher id nobody has, plans every log with the default title and file name; a known teacher plans only their logs with their title and file name; the logs are newest first |
| PdfExport.TeacherPlanHoldsOnlyTeacherLogs | components/PdfExport.tsx:27-36 | a known teacher's plan holds exactly that teacher's logs, each as often as it is stored; a log is in the plan exactly when it is stored and names that teacher |
| PdfExport.TeacherPlanMatchesReportView | components/PdfExport.tsx:30-36 | a teacher's export lists the same logs as the report view filtered to that teacher, whenever the id is not the literal "all" |
| PdfExport.TeacherFileNameHasNoSpaceFromName | components/PdfExport.tsx:32 | the teacher file name is `reporte_`, then the name with each whitespace character made `_` and every other character kept, then `_`, the date and `.pdf`; it holds no whitespace when the date holds none |
| PdfExport.Generate | components/PdfExport.tsx:42-83 | an empty plan alerts with the no-records message and saves nothing; a missing render area with a non-empty plan saves nothing and raises no alert; a failed render alerts with the render-error message; otherwise the planned file is saved; in every case the export finishes |
| PdfExport.DefaultTeacherChoiceExportsFirstTeacher | components/ExportModal.tsx:15-25 | confirming a teacher report without changing the selector configures the first teacher, whose logs, each as often as stored, make up the plan, under that teacher's title and file name |
| PdfExport.CanOpenExport | App.tsx:111-117 | the scope dialog opens exactly when a document with at least one log is loaded |
| PdfExport.CompleteExportIsNeverEmpty | App.tsx:111-117 | once the dialog may open, the complete report holds every stored log as often as it is stored, is not empty, and saves its file when rendering succeeds |
| RegisterForm.InitialSelections | components/RegisterForm.tsx:17-19 | the teacher, course and subject selectors start on the first entity of each collection, or on nothing |
| RegisterForm.InitialSelectionsSubmit | components/RegisterForm.tsx:17-64 | a form left on its initial selections submits exactly when every collection has a first entity with a non-empty id and the date and content are filled in; the submitted log then names a teacher, course and subject of the document |
| RegisterForm.SubmitLog | components/RegisterForm.tsx:49-67 | a missing teacher, course, subject, date or content yields the validation message; otherwise the log carries the fresh id, the selections and the fields verbatim, observations included |
| RegisterForm.BlankContentIsAccepted | components/RegisterForm.tsx:51 | content made only of spaces passes validation, because the check is for the empty string, not a trimmed one |
| RegisterForm.SubmittedLogIsAppended | components/RegisterForm.tsx:56-65 | a submitted log, built from the fresh id, the selections and the fields verbatim, is appended as the last log and nothing else in the document changes |
| RegisterForm.SaveTeacher | components/RegisterForm.tsx:35-47 | a name made only of whitespace is rejected; otherwise the trimmed name goes to a rename when a teacher is being edited, and to an addition when none is |
| RegisterForm.ApplyTeacherAction | components/RegisterForm.tsx:41-45 | without a loaded document nothing happens; otherwise logs, courses and subjects are unchanged, an addition appends exactly the new teacher with the fresh id, and a rename renames in place exactly the teachers with the edited id |
| RegisterForm.SavedTeacherHasTrimmedName | components/RegisterForm.tsx:37-45 | for input that is not all whitespace, the trimmed name is not empty; a new teacher is appended with the fresh id and that name; an edit renames exactly the edited teacher's entries to it, keeps every other teacher and the number of teachers; logs, courses and subjects are unchanged |

## Left out

- Persistence to the cloud document store, live sync and last-writer-wins (App.tsx:49-84). These are external I/O; the model ends where a new document would be committed.
- The extraction service call, the file reader, `JSON.parse` and the import's alerts (App.tsx:124-166, App.tsx:210-226). These are foreign calls; a batch enters as a `seq<Row>`.
- Import rows whose fields are not strings. The model covers fields that are strings or absent; an absent field is modelled as `""`, which matches the skip test for names and content, and an absent `date`, stored as `undefined`, is modelled as the empty date. A truthy teacher, course or subject that is not a string makes `trim` throw in `findOrCreate`, and the catch at App.tsx:213-215 abandons the whole import. Content that is not a string throws at App.tsx:195 when some log already matches the other four key fields, and is otherwise stored as it is.
- Id generation (`uuidv4`). Ids are taken from a supplied sequence, which the uniqueness lemmas require to be fresh.
- Date parsing and the clock. Both are parameters, so the 30-day calendar arithmetic of Dashboard.tsx:13-14 and 29-30 is not modelled.
- PDF rasterisation and page layout (components/PdfExport.tsx:52-77, components/ReportView.tsx:27-65). These are foreign libraries. `PdfExport.Generate` takes the outcomes of finding the render area and of rendering as booleans.
- The id-to-name display maps (components/ReportView.tsx:13-17, components/PdfExport.tsx:17-20), opening the teacher dialog (components/RegisterForm.tsx:29-33), React state and effects, JSX and timers. These are presentation.
- Metrics.Progress: works on exact integers (5 per log). The source computes `(n / 20) * 100` in binary floating point, which can differ from `5 * n` in the last bits (for example, 11 logs give 55.00000000000001 rather than 55).
- Metrics.Summarize: the clock is read once for the recent count and once per teacher; the model takes those instants as parameters and assumes the clock never runs backwards between reads, so each teacher's cutoff is no earlier than the recent-count cutoff.
- ProgressBar.SafePercentage: works on integers, so `Math.max` with `NaN` is not modelled.
- Text.Lower: maps only ASCII and Latin-1 capital letters. The full Unicode `toLowerCase`, including its length-changing cases, is not modelled, so name matching is exact only for such names.
- Report.SortNewestFirst: requires every date to parse. With an invalid date, the source's comparator returns `NaN`, and the resulting order depends on the engine. The order of logs with equal dates is not stated.
