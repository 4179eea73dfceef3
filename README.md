# PTM Report Frontend — a Dafny model of its core

PTM Report Frontend is the browser side of a parent–teacher-meeting report
service. Staff upload a spreadsheet of student results (csv or xlsx). The
upload form maps the sheet's headers onto the required columns through an
alias table, then checks every row. It reports:

- blocking errors: missing columns, empty required cells and repeated roll numbers;
- warnings: blank attendance and result cells.

It highlights the offending cells and allows an upload only when no error
remains, after the user confirms any warnings. Generated reports can then
be browsed by batch and by date. The browser can download them as one zip
archive or select them to be sent over WhatsApp.

This project models that core in Dafny and proves what the code promises.
Most source files have one module of the same name. There are three exceptions:

- `src/Components/UploadForm.jsx` is split into `UploadHeaders` (the alias table and the header map), `UploadRows` (the row checks) and `UploadForm` (the component).
- The colour helper of `StudentList.jsx` and `DateList.jsx` is modelled once in `PastelColour`. The modules `StudentList` and `DateList` hold each list's lightness.
- `utils/handleDownloadAll.js` contributes only its file name, in `ReportFileName`.

The shared modules are:

- `Wrappers`: Option and Result.
- `JsString`: the JavaScript string operations the code relies on: trim and its whitespace set, split, join, ASCII lower-casing, truthiness.
- `Decimal`: how numbers are written into strings.
- `SheetData`: parsed spreadsheet cells and rows.
- `ViewerLayout`: the layout shared by the two report browsers.
- `PastelColour`: the hue formula and the HSL text behind both lists' `getLightColorByIndex`.

Stateful components are Dafny classes:

- `UploadForm.Form` for the upload form;
- `AdminReportViewer.Viewer` for the admin report browser;
- `SendWhatsappMessage.Page` for the WhatsApp page;
- `ProgressContext.Store` for the progress store.

Their methods change the fields the component's state setters change, and
nothing else. Loops in the source are methods with loop invariants. Each is
proved against a specification function: the header map, the row checks,
the zip name and the cookie lookup. Pure expressions are functions, and the
properties are lemmas about them.

Every source path below is relative to the repository root. The upload form
is the live component at the end of `src/Components/UploadForm.jsx`, from
line 816; the earlier lines of that file are commented out.

## Model

| member | source | states |
|---|---|---|
| UploadHeaders.Normalize | src/Components/UploadForm.jsx:822-827 | the result holds only a-z and 0-9, and is no longer than the input |
| UploadHeaders.NormalizeIdempotent | src/Components/UploadForm.jsx:823-827 | normalizing a normalized header changes nothing |
| UploadHeaders.NormalizeIgnoresCase | src/Components/UploadForm.jsx:823-827 | headers that differ only in the case of ASCII letters normalize alike |
| UploadHeaders.NormalizeIgnoresPunctuation | src/Components/UploadForm.jsx:823-827 | inserting a space or punctuation character anywhere leaves the normal form unchanged |
| UploadHeaders.NormalizeAllIndex | src/Components/UploadForm.jsx:937 | the i-th normalized header is the normal form of the i-th raw header |
| UploadHeaders.NameAliasForms | src/Components/UploadForm.jsx:831 | the name aliases normalize to "name", "name", "studentname" |
| UploadHeaders.RollNoAliasForms | src/Components/UploadForm.jsx:832 | the roll-number aliases normalize to "rollno", except "Roll Number", which normalizes to "rollnumber" |
| UploadHeaders.BatchAliasForms | src/Components/UploadForm.jsx:833 | both batch aliases normalize to "batch" |
| UploadHeaders.StrengthAliasForms | src/Components/UploadForm.jsx:834 | both strength aliases normalize to "strength" |
| UploadHeaders.RequiredAliasesDisjoint | src/Components/UploadForm.jsx:830-856 | no header stands for two different required keys |
| UploadHeaders.MatchingHeaderNonEmpty | src/Components/UploadForm.jsx:943-956 | a header that matches a required key is non-empty, so the later truthiness tests accept it |
| UploadHeaders.FirstMatch | src/Components/UploadForm.jsx:951-956 | the index found holds a wanted entry, and no earlier index does; none is found only when no entry is wanted |
| UploadHeaders.HeaderForFirst | src/Components/UploadForm.jsx:943-957 | a key is mapped to the first raw header whose normal form is one of its normalized aliases |
| UploadHeaders.KeyMappingLookup | src/Components/UploadForm.jsx:941-957 | a key is in the map exactly when it is one of the keys and some header matches one of its aliases |
| UploadHeaders.HeaderMapLookup | src/Components/UploadForm.jsx:941-957 | a key is in the header map iff it is required and some header stands for it; it is then mapped to the first such header |
| UploadHeaders.HeaderMapInjective | src/Components/UploadForm.jsx:941-957 | two different required keys are never mapped to the same header |
| UploadHeaders.MappedIffPresent | src/Components/UploadForm.jsx:960-976 | the truthiness tests on `headerMap[k]` agree with membership in the map |
| UploadHeaders.BuildHeaderMap | src/Components/UploadForm.jsx:941-957 | the nested loop with its `break` builds exactly the specified header map |
| UploadHeaders.MissingKeysMembers | src/Components/UploadForm.jsx:960 | a key is reported missing iff it is required and unmapped |
| UploadHeaders.MissingRequiredKeys | src/Components/UploadForm.jsx:959-967 | missing keys are reported in the order name, rollno, batch, strength |
| UploadHeaders.MissingColumnsCount | src/Components/UploadForm.jsx:959-967 | there is exactly one missing-columns error when some required key is unmapped, and none otherwise |
| UploadHeaders.PreferredSpellingIsFirstAlias | src/Components/UploadForm.jsx:964 | a missing key is named by the first alias in its row of the table |
| UploadHeaders.RequiredSpellings | src/Components/UploadForm.jsx:963-965 | the message names the keys "Name", "ROLL NO", "Batch" and "Strength" |
| UploadRows.BlankIsEmptyRequired | src/Components/UploadForm.jsx:978-1008 | a blank cell fails the required-cell test; a cell of spaces fails only the required-cell test |
| UploadRows.NumbersAndBooleansAreNotEmpty | src/Components/UploadForm.jsx:978 | a number or boolean cell is never an empty required cell |
| UploadRows.PatternsExclusive | src/Components/UploadForm.jsx:1007-1026 | a column matches at most one of the three attendance/result patterns |
| UploadRows.ColumnFindings | src/Components/UploadForm.jsx:1003-1033 | one column raises at most one warning and one mark, and does so exactly when it is a blank pattern cell |
| UploadRows.CheckRequiredCells | src/Components/UploadForm.jsx:974-987 | the loop over the required keys yields the specified errors and marks of the row |
| UploadRows.CheckColumn | src/Components/UploadForm.jsx:1004-1033 | the three pattern tests on a column yield the specified warnings and marks |
| UploadRows.CheckDynamicCells | src/Components/UploadForm.jsx:1003-1035 | the loop over the row's own keys yields the specified warnings and marks |
| UploadRows.CheckRollNumber | src/Components/UploadForm.jsx:989-1000 | a row is a duplicate iff an earlier row has the same roll value; the seen set grows by that value |
| UploadRows.CheckRows | src/Components/UploadForm.jsx:970-1036 | the row loop yields the specified errors, warnings and marks; the seen set holds the roll values of the rows checked so far |
| UploadRows.Validate | src/Components/UploadForm.jsx:925-1043 | validateAndPreview's result is the specified report: missing columns, then row errors, warnings, marks, the first 100 rows and the raw headers |
| UploadRows.InvalidsUpToMembers | src/Components/UploadForm.jsx:972-1036 | a cell is marked iff it is a mapped required cell left empty or a blank pattern cell of its row |
| UploadRows.RowErrorsEmpty | src/Components/UploadForm.jsx:974-1000 | a row raises no error iff its required cells are filled and its roll number is new |
| UploadRows.ErrorsUpToEmpty | src/Components/UploadForm.jsx:972-1036 | the rows raise no error iff no single row does |
| UploadRows.WarningsUpToEmpty | src/Components/UploadForm.jsx:1003-1035 | no warning iff no pattern cell is blank |
| UploadRows.NoDuplicateRowsIffDistinct | src/Components/UploadForm.jsx:989-1000 | no row is reported as a duplicate iff the roll numbers are pairwise different |
| UploadRows.DuplicateCountIsSurplus | src/Components/UploadForm.jsx:989-1000 | duplicate reports plus distinct roll values equal the number of rows |
| UploadRows.FindingsBalance | src/Components/UploadForm.jsx:972-1036 | marks plus duplicate rows equal errors plus warnings |
| UploadRows.ReportVerdict | src/Components/UploadForm.jsx:925-1043 | no blocking error iff every required column is present and every row is clean; no warning iff no pattern cell is blank; the preview holds min(100, rows) rows |
| UploadRows.ReportInvalidCells | src/Components/UploadForm.jsx:1038 | the invalid cells of the report are exactly the empty required cells and the blank pattern cells |
| UploadForm.ExtensionAfterLastDot | src/Components/UploadForm.jsx:886 | the extension is the lower-cased text after the last dot |
| UploadForm.ExtensionWithoutDot | src/Components/UploadForm.jsx:886 | a name without a dot is its own (lower-cased) extension |
| UploadForm.ErrorsAlertLines | src/Components/UploadForm.jsx:1060-1066 | the alert splits back, line by line, into the heading and the errors |
| UploadForm.Form.constructor | src/Components/UploadForm.jsx:859-867 | the initial state: no file, no date, empty lists |
| UploadForm.Form.SetPtmDate | src/Components/UploadForm.jsx:860 | only the date changes |
| UploadForm.Form.HandleFileChange | src/Components/UploadForm.jsx:869-923 | stores the choice and clears every finding; alerts iff the file exceeds 50 MiB; starts a read only for csv (as text) or xlsx (as bytes) |
| UploadForm.Form.ValidateAndPreview | src/Components/UploadForm.jsx:925-1043 | with no rows only the no-data error is set; otherwise the state holds the specified report |
| UploadForm.Form.ShowReport | src/Components/UploadForm.jsx:1038-1042 | the five lists take the report's values |
| UploadForm.Form.OnLoad | src/Components/UploadForm.jsx:888-916 | a parsed csv/xlsx sheet is validated; a parse failure alerts; another extension sets the unsupported-format error; the busy flag ends off |
| UploadForm.EmptySheetAfterFileChange | src/Components/UploadForm.jsx:869-934 | choosing a csv file and reading a sheet with no rows leaves exactly one error, the no-data message, and no warnings, marked cells, preview or headers |
| UploadForm.Form.HandleSubmit | src/Components/UploadForm.jsx:1048-1096 | the gates in order: file, date, no errors, then no warnings or consent; the upload request is made iff all pass |
| UploadForm.HighlightedCells | src/Components/UploadForm.jsx:1045-1046 | after validation, a preview cell is highlighted iff it is an empty required cell or a blank pattern cell |
| FileValidation.HeaderText | utils/fileValidation.js:74 | a cell can be read iff it is falsy or a string; a string reads as its trimmed text, a falsy cell as "", and the only failure is a TypeError |
| FileValidation.HeaderTexts | utils/fileValidation.js:74 | the row reads iff every cell does, one text per cell; otherwise it fails with a TypeError |
| FileValidation.NoPatternMatchesEmpty | utils/fileValidation.js:88-99 | the empty header matches no allowed pattern |
| FileValidation.SampleHeadersAllowed | utils/fileValidation.js:88-99 | sample attendance, attendance-percentage and coursework headers each match their pattern |
| FileValidation.MissingHeadersMembers | utils/fileValidation.js:101-103 | a required name is missing iff it is not among the trimmed headers |
| FileValidation.UnexpectedHeadersMembers | utils/fileValidation.js:113-116 | a header is unexpected iff it is not required and matches no pattern |
| FileValidation.ValidateExcelHeaders | utils/fileValidation.js:73-125 | a row with an unreadable cell fails with a TypeError |
| FileValidation.CheckHeadersPasses | utils/fileValidation.js:101-125 | the check passes iff every required name is present and every other header matches an allowed pattern |
| FileValidation.MissingReportedFirst | utils/fileValidation.js:107-111 | while a required name is missing, the error lists the missing names only |
| FileValidation.UnexpectedReportedTogether | utils/fileValidation.js:113-122 | with nothing missing, the error lists every unexpected header in file order |
| FileValidation.BlankHeaderRejected | utils/fileValidation.js:74-122 | a blank header cell makes the row fail |
| FileValidation.RepeatedRequiredHeaderPasses | utils/fileValidation.js:101-125 | repeating a required header does not change a passing verdict |
| FileValidation.SameTextsSameVerdict | utils/fileValidation.js:73-125 | rows whose cells read as the same texts get the same verdict |
| FileValidation.PaddingIgnored | utils/fileValidation.js:74 | surrounding a header with whitespace does not change the verdict |
| ProgressContext.MergeFields | src/context/ProgressContext.jsx:18-28 | each field takes the supplied value when defined and keeps the previous one otherwise; show defaults to true |
| ProgressContext.EmptyUpdateShows | src/context/ProgressContext.jsx:21 | an update with nothing defined only shows the bar |
| ProgressContext.MergeIdempotent | src/context/ProgressContext.jsx:18-28 | the same update applied twice gives the state it gives once |
| ProgressContext.MergeCompose | src/context/ProgressContext.jsx:18-28 | two updates in a row equal one combined update in which the later defined value wins |
| ProgressContext.FullUpdateForgets | src/context/ProgressContext.jsx:18-28 | an update that defines every value field makes the result independent of the previous record |
| ProgressContext.AddEntryAppends | src/context/ProgressContext.jsx:33-38 | adding an entry appends exactly one entry with the entry's fields and leaves the earlier ones unchanged |
| ProgressContext.AddEntryTimestamp | src/context/ProgressContext.jsx:36 | a truthy timestamp is kept; otherwise the current time is stored |
| ProgressContext.StampedEntryIgnoresClock | src/context/ProgressContext.jsx:36 | an entry that has a timestamp is stored the same whatever the clock says |
| ProgressContext.TransformReplaces | src/context/ProgressContext.jsx:31-32 | a function argument replaces the list with its result |
| ProgressContext.Store.constructor | src/context/ProgressContext.jsx:6-16 | the initial record, no logs, collapsed, no summary |
| ProgressContext.Store.UpdateProgress | src/context/ProgressContext.jsx:18-28 | the record becomes the merge of the old record and the update; nothing else changes |
| ProgressContext.Store.AddLog | src/context/ProgressContext.jsx:30-39 | the log list becomes the specified list; nothing else changes |
| ProgressContext.Store.SetFinalSummaryData | src/context/ProgressContext.jsx:41-43 | only the summary changes |
| ProgressContext.Store.ClearProgress | src/context/ProgressContext.jsx:45-57 | the initial record, no logs, collapsed, no summary: the constructor's state |
| ProgressContext.Store.ToggleExpanded | src/context/ProgressContext.jsx:59 | only `isExpanded` changes, to its negation, so two toggles restore it |
| ViewerLayout.OneListShown | src/Components/AdminReportViewer.jsx:61-79 | exactly one list is rendered: batches without a batch, dates with a batch but no date, reports with both; the back button appears iff either is set |
| AdminReportViewer.Viewer.constructor | src/Components/AdminReportViewer.jsx:11-15 | nothing selected, empty lists; only the batch list is shown |
| AdminReportViewer.Viewer.HandleBatchSelect | src/Components/AdminReportViewer.jsx:24-32 | selects the batch, clears the date and the reports, requests the batch's dates; keeps the invariant that a date implies a batch |
| AdminReportViewer.Viewer.HandleDateSelect | src/Components/AdminReportViewer.jsx:34-77 | selects the date under the selected batch and requests its reports; keeps the invariant |
| AdminReportViewer.Viewer.HandleBack | src/Components/AdminReportViewer.jsx:45-53 | with a date: clears the date and the reports; else with a batch: clears the batch and the dates; else nothing changes |
| AdminReportViewer.Viewer.OnBatchesLoaded | src/Components/AdminReportViewer.jsx:17-22 | only the batch list changes |
| AdminReportViewer.Viewer.OnDatesLoaded | src/Components/AdminReportViewer.jsx:30 | only the date list changes |
| AdminReportViewer.Viewer.OnReportsLoaded | src/Components/AdminReportViewer.jsx:38-41 | only the report list changes |
| AdminReportViewer.BackTwice | src/Components/AdminReportViewer.jsx:24-53 | selecting a batch and a date and pressing back twice returns to the batch list with the date, dates and reports cleared |
| SendWhatsappMessage.BackTarget | src/Components/SendWhatsappMessage.jsx:116-119 | back goes to the batch's URL when a date is set, to the page root when only a batch is set, and nowhere otherwise |
| SendWhatsappMessage.BatchUrlParams | src/Components/SendWhatsappMessage.jsx:79-81 | the URL of a selected batch names that batch and no date |
| SendWhatsappMessage.DateUrlParams | src/Components/SendWhatsappMessage.jsx:88-89 | the URL of a selected date names the batch and the date |
| SendWhatsappMessage.BackAfterDateIsBatch | src/Components/SendWhatsappMessage.jsx:79-117 | choosing a date and going back gives the URL of choosing its batch |
| SendWhatsappMessage.BackAfterBatchIsRoot | src/Components/SendWhatsappMessage.jsx:79-119 | choosing a batch and going back gives the root, where back does nothing |
| SendWhatsappMessage.BackButtonMoves | src/Components/SendWhatsappMessage.jsx:116-134 | the back button is shown iff pressing it navigates |
| SendWhatsappMessage.FetchReportsRequest | src/Components/SendWhatsappMessage.jsx:35-62 | a reports request is made iff both batch and date are truthy, with the page and the filter's name and roll number |
| SendWhatsappMessage.FetchDatesRequest | src/Components/SendWhatsappMessage.jsx:106-114 | the dates request is made iff the batch is truthy |
| SendWhatsappMessage.Page.constructor | src/Components/SendWhatsappMessage.jsx:13-27 | empty lists, one page, an empty filter, page 1 |
| SendWhatsappMessage.Page.HandleFilterChange | src/Components/SendWhatsappMessage.jsx:29-33 | the filter takes the new value and the page goes back to 1 |
| SendWhatsappMessage.Page.HandlePageChange | src/Components/SendWhatsappMessage.jsx:83-86 | the page takes the new value, or the updater's value on the old page |
| SendWhatsappMessage.Page.OnReportsLoaded | src/Components/SendWhatsappMessage.jsx:51-55 | the reports and page count take the response's values |
| SendWhatsappMessage.Page.OnBatchesLoaded | src/Components/SendWhatsappMessage.jsx:93-100 | only the batch list changes |
| SendWhatsappMessage.Page.OnDatesLoaded | src/Components/SendWhatsappMessage.jsx:111 | only the date list changes |
| ReportList.ZipFileName | src/Components/ReportViewer/ReportList.jsx:537-551 | the name starts with "PTM_Reports", ends with ".zip", has a tagged part for each truthy param in the order batch, roll number, date, and is "PTM_Reports.zip" with none |
| ReportList.ZipNameIsJoin | src/Components/ReportViewer/ReportList.jsx:537-551 | the stem is the words PTM, Reports and each tag and value, joined with "_" |
| ReportList.ZipNameReadsBack | src/Components/ReportViewer/ReportList.jsx:537-551 | when no value holds "_", splitting the stem at "_" gives back exactly the tags and values present |
| ReportList.ReportIds | src/Components/ReportViewer/ReportList.jsx:517-520 | one id per report, the student's id, in report order |
| ReportList.SendDisabledIffNoReports | src/Components/ReportViewer/ReportList.jsx:641 | the "Send via WhatsApp" button is disabled exactly when there is no report, so no id to send |
| ReportList.PaginationHiddenWithoutPages | src/Components/ReportViewer/ReportList.jsx:705 | the pagination bar is hidden exactly when totalPages is undefined or 0 |
| ReportList.SinglePageButtonsDisabled | src/Components/ReportViewer/ReportList.jsx:705-722 | with one page the bar is shown, and both Previous and Next are disabled, loading or not |
| ReportList.PreviousPage | src/Components/ReportViewer/ReportList.jsx:708 | the page goes back one, and never below 1 |
| ReportList.NextPage | src/Components/ReportViewer/ReportList.jsx:720 | the page goes forward one, and never above totalPages |
| ReportList.ClicksStayInRange | src/Components/ReportViewer/ReportList.jsx:705-725 | from a page in [1, totalPages], no series of clicks leaves that range |
| ReportList.EnabledButtonsStepOnePage | src/Components/ReportViewer/ReportList.jsx:708-721 | an enabled Previous moves back exactly one page and an enabled Next forward exactly one |
| ReportFileName.NoUnsafeInName | utils/handleDownloadAll.js:36-38 | the stored name has none of the characters `/ \ : * ? " < > \|` or space |
| ReportFileName.NameEndsWithPdf | utils/handleDownloadAll.js:36-38 | the stored name still ends with ".pdf" |
| ReportFileName.SanitizeIdempotent | utils/handleDownloadAll.js:37-38 | sanitizing a sanitized name changes nothing |
| ReportFileName.CollapseRun | utils/handleDownloadAll.js:37 | a run of unsafe characters becomes exactly one "_" |
| ReportFileName.CollapseKeepsSafeText | utils/handleDownloadAll.js:37 | text without unsafe characters is left alone |
| ReportFileName.CollapseBeforeSafe | utils/handleDownloadAll.js:37 | a safe ending survives the replacement unchanged |
| Breadcrumb.Segments | utils/Breadcrumb.jsx:9 | the segments are non-empty and hold no "/" |
| Breadcrumb.CrumbsOf | utils/Breadcrumb.jsx:20-37 | one crumb per segment, in order; only the last is plain text |
| Breadcrumb.SegmentsAtSlash | utils/Breadcrumb.jsx:9 | a slash splits the segments of the two sides |
| Breadcrumb.RootHasOnlyHome | utils/Breadcrumb.jsx:9-18 | the path "/" shows only the Home link |
| Breadcrumb.LeadingSlashIgnored | utils/Breadcrumb.jsx:9 | a leading slash changes no crumb |
| Breadcrumb.TrailingSlashIgnored | utils/Breadcrumb.jsx:9 | a trailing slash changes no crumb |
| Breadcrumb.RepeatedSlashIgnored | utils/Breadcrumb.jsx:9 | a doubled slash counts as one |
| Breadcrumb.RoutesExtend | utils/Breadcrumb.jsx:21 | each crumb's route is the previous route, "/" and its own segment |
| Breadcrumb.RoutesNested | utils/Breadcrumb.jsx:21 | each route is a proper prefix of the next |
| Breadcrumb.LastRouteIsPath | utils/Breadcrumb.jsx:21-22 | the last crumb's route is the path with its empty segments dropped |
| Breadcrumb.LastRouteSameTrail | utils/Breadcrumb.jsx:9-21 | following the last crumb gives the same trail |
| GetCookie.GetCookie | utils/getCookie.js:1-10 | the loop returns the specified lookup over the "; "-separated entries |
| GetCookie.NullIffNoKey | utils/getCookie.js:4-9 | null iff no entry's key equals the name exactly |
| GetCookie.FirstMatchWins | utils/getCookie.js:4-8 | a value found is the decoded value of the first entry with that key |
| GetCookie.LaterEntriesIgnored | utils/getCookie.js:4-8 | entries after the first match do not affect the result |
| GetCookie.ValueBeforeSecondEquals | utils/getCookie.js:6 | the value is the text between the first and the second "=" |
| GetCookie.EntryWithoutValue | utils/getCookie.js:6-7 | an entry without "=" has an undefined value |
| ProtectedRoute.Decide | utils/ProtectedRoute.jsx:5-15 | signed out: to /login; signed in with a role not allowed: to /reports; the children render iff signed in with an allowed role |
| ProtectedRoute.EmptyAllowedRolesNeverRender | utils/ProtectedRoute.jsx:10-12 | with no allowed role the children never render |
| ProtectedRoute.SignedOutAlwaysLogin | utils/ProtectedRoute.jsx:6-8 | a signed-out user goes to /login whatever the role |
| PastelColour.JsRemainder | src/Components/ReportViewer/StudentList.jsx:5 | JavaScript's `%`: the dividend is the truncated quotient times b plus the remainder, and the remainder is in [0, b) for a non-negative dividend and in (-b, 0] for a negative one, which together fix its value |
| PastelColour.HueInRange | src/Components/ReportViewer/StudentList.jsx:5 | a non-negative index gives a hue in [0, 360) |
| PastelColour.HueDeterminesIndex | src/Components/ReportViewer/StudentList.jsx:5 | the hue determines the index modulo 360 |
| PastelColour.HuesDistinct | src/Components/ReportViewer/StudentList.jsx:5 | the first 360 indices get pairwise different hues |
| PastelColour.HuePeriodic | src/Components/ReportViewer/StudentList.jsx:5 | hues repeat every 360 indices |
| PastelColour.NegativeIndexHue | src/Components/ReportViewer/StudentList.jsx:5 | a negative index gives a negative hue (-1 gives -47) |
| PastelColour.CssTextDistinguishesHues | src/Components/ReportViewer/StudentList.jsx:8 | colours with different hues are written differently |
| StudentList.LightColor | src/Components/ReportViewer/StudentList.jsx:4-9 | saturation 60, lightness 97, hue in [0, 360) for a non-negative index |
| StudentList.ColoursUnique | src/Components/ReportViewer/StudentList.jsx:4-9 | each of the first 360 students gets its own colour text |
| StudentList.ColoursRepeat | src/Components/ReportViewer/StudentList.jsx:4-9 | students 360 apart get the same colour |
| DateList.LightColor | src/Components/ReportViewer/DateList.jsx:5-10 | saturation 60, lightness 95, hue in [0, 360) for a non-negative index |
| DateList.ColoursUnique | src/Components/ReportViewer/DateList.jsx:5-10 | each of the first 360 dates gets its own colour text |
| DateList.ColoursRepeat | src/Components/ReportViewer/DateList.jsx:5-10 | dates 360 apart get the same colour |

## Left out

- Reading the file is not modelled: FileReader, the csv parser (papaparse) and the xlsx reader. The parsed rows, or a parse failure, are an input of `UploadForm.Form.OnLoad`. The 100 ms yield before parsing is not modelled either.
- The upload request and its error alert are not modelled. `UploadForm.Form.HandleSubmit` returns the request it would send: the file, the date and the type "generate". It does not model the busy flag during the request.
- The unsupported-format branch of the load handler is modelled as written. The reader is only started for csv and xlsx, so that branch cannot run in the component.
- toLowerCase is modelled on ASCII letters only. Non-ASCII letters are removed by normalize either way, except those that lower-case into ASCII (such as KELVIN SIGN into "k").
- Spreadsheet numbers are cells that carry their JavaScript text. Their floating-point value is not modelled.
- Network requests are not modelled: batches, dates, reports, the zip download and the WhatsApp send. Requests appear as the URL or query they would carry. Responses are separate methods that may arrive in any order. Stale responses and request cancellation (AbortController) are not modelled.
- decodeURIComponent is a parameter of `GetCookie.GetCookie`. The Breadcrumb's decoded label is not modelled: a crumb carries the raw segment.
- The clock reading of `addLog` is a parameter.
- ProgressContext.Store.ToggleExpanded: assumes each call sees the latest value. In the source the handler reads `isExpanded` as of the last render, so two calls within one render flip it only once.
- ProgressContext: percentages and counts are modelled as integers, while JavaScript numbers may be fractional.
- SendWhatsappMessage.RouteParams: the route table of `src/App.jsx` has no entry for this page. The page's parameters are modelled by the pattern "/send-whatsapp-message/:batchId/:date" with both parameters optional. Percent-decoding of parameters is not modelled.
- Loading flags and spinners are left out. `loading` is an argument of the Previous/Next disabled tests.
- Of `utils/handleDownloadAll.js`, only the per-report file name (lines 36-38) is modelled. The rest is network and zip I/O, and it refers to `batchId`, `date` and `filter`, which are not declared in that file.
- Of ReportList.jsx, only the zip name, the report ids, the send button's disabled test and the pagination are modelled. The modals, the WhatsApp confirmation flow, downloads and filters are presentation or network.
- ReportList.ZipFileName: the params are modelled as strings. Non-string values would be written out by JavaScript's string conversion, which is not modelled.
- ProtectedRoute.Decide: `allowedRoles` is a list of strings. A list holding `undefined`, which would admit a user without a role, is not modelled.
- GlobalProgressBar, LoginForm, the workers, the photo uploader, the roll-number filter's debounce and all presentation-only files are not part of this model.
