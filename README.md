# Sensor dashboard — a Dafny model of the data path

The sensor dashboard reads text lines from an environmental sensor board over a
serial port. A line looks like `[ESP-NOW] RX T:21.5 H:40 CH4:nan PM2.5:3`. The
line is parsed into a record of named channel readings and stamped with the time
of arrival. The record is logged while a logging session is open and exported as
CSV. It is also shown in a browser dashboard. The dashboard keeps, for each of its
ten sensor channels, a rolling preview of the last 50 points and the full history
of the connection.

Two processes parse the line protocol:

- the Electron main process (`public/main.js`);
- a Python/Flask backend (`serial_backend.py`).

This project models the following in Dafny:

- both parsers, and where they agree and differ;
- the session logger and the session CSV export of both processes;
- the dashboard page's per-channel window manager, as a class whose fields the
  event handlers update;
- the "hold the last value" fill of the chart components and the per-chart CSV
  download;
- the post-build script that rewrites absolute `/_next/` asset paths into
  relative ones.

Modules:

- `Text`: JavaScript and Python string operations on `seq<char>`. These are
  trimming, splitting on whitespace, ASCII lower-casing, first index, global
  literal replacement with its count, and joining and splitting on a character.
  It also holds a decoder for one CSV row, used to state round trips.
- `Values`: reading values (number, `null`, text), chart points and the ten
  dashboard channels.
- `KeyValue`: decoding one value, the last-wins dictionary fold, and the renaming
  of protocol keys (`t`, `h`, `pm1.0`, …) to record keys (`temp`, `humid`,
  `pm_1_0`, …).
- `ElectronParser` and `SerialBackend`: the two line parsers. `SerialBackend`
  also holds the Python read loop and logger as a class.
- `ParserComparison`: lemmas relating the two parsers.
- `SessionCsv` and `ElectronMain`: `convertToCSV` and the Electron data handler,
  logger and export as a class.
- `SentinelFill`, `ChartModal` and `RealTimeChart`: the fill of `-1` readings and
  the chart views.
- `Dashboard`: the page's windows as a value (`Windows`) with the invariants of
  ingestion, and the class `SerialDashboard` whose handlers are proved against
  them.
- `FixAssets`: the asset path rewriting.

Effects that leave the modelled code are parameters:

- Each parser takes its own number reader `parse: string -> Option<real>`. In
  `ElectronParser` it stands for `Number.parseFloat`, where `None` means NaN; in
  `SerialBackend` it stands for Python's `float`, where `None` means a
  `ValueError`. The comparison lemmas in `ParserComparison` take the two readers
  separately as `jsParse` and `pyParse`. They assume agreement only on the value
  texts of the line being compared, and `ParserComparison.ReaderDivergence`
  shows what follows where the readers disagree.
- `numText: real -> string` stands for how a number is printed into CSV text.
- `timeLabel: string -> string` stands for `toLocaleTimeString`.
- Arrival time stamps, the save dialog's chosen path and the success flags of IPC
  calls are parameters of the methods.

The chart modal and the real-time chart run the identical `reduce`. Both are
modelled by the one function `SentinelFill.Fill`, so the two views fill a list
in the same way by construction.

In these places the code does something a reader may not expect; the model follows the code:

- The dashboard clears all its windows only on a status event with
  `connected: false`. The disconnect handler clears the histories but keeps the
  preview buffers. Nothing is cleared on a connect event.
- The non-finite markers `nan`, `inf` and `-inf` are matched case-sensitively.
- The Electron parser keeps only the text between a token's first and second
  colon.
- The Python parser splits at the first colon only.

## Model

| member | source | states |
|---|---|---|
| Text.TrimAfterTrimStart | public/main.js:176 | trimming after dropping leading whitespace is trimming, so the whitespace after the tag does not matter |
| Text.WordsAreWords | public/main.js:180 | splitting on whitespace yields only non-empty words without whitespace |
| Text.WordsJoin | serial_backend.py:26 | words joined by single spaces split back into the same words |
| Text.ReplaceAllLength | serial_backend.py:25 | a global literal replacement changes the length by the number of occurrences times the length difference |
| Text.ReplaceAllChangesIff | fix-assets.js:25 | when pattern and replacement differ in length, the replacement changes the text exactly when the pattern occurs |
| Text.ReplaceAllIdentity | serial_backend.py:25 | replacing a pattern that does not occur leaves the text as it is |
| Text.ReplaceAllUndo | fix-assets.js:23-24 | on a text without the replacement, replacing it back by the pattern restores the text, so nothing outside the matches changed |
| Text.NoOccurrenceAfterReplace | fix-assets.js:23 | after replacing a pattern with a replacement that cannot re-form it, the pattern no longer occurs |
| Text.SplitJoin | public/main.js:266 | splitting lines joined on a separator that none contains gives back the lines |
| Text.DecodeQuotedJoin | public/main.js:261 | cells quoted when they hold a comma and joined by commas decode back to the cell texts, given no text holds a double quote |
| Values.ChannelsEnumerate | app/page.tsx:52-63 | the ten dashboard channels are listed exactly once each and have distinct keys |
| KeyValue.DecodeValue | public/main.js:193-197 | the value is `null` exactly for `nan`/`inf`/`-inf`; otherwise the parsed number, or the text itself when it does not parse |
| KeyValue.StoreEntries | public/main.js:182-201 | storing the entries one by one into a dictionary yields the last-wins collection of the entries |
| KeyValue.CollectKeys | serial_backend.py:27-39 | a key is in the dictionary exactly when some token decoded to an entry with that key |
| KeyValue.CollectLastWins | serial_backend.py:27-39 | a key holds the value of its last entry on the line |
| KeyValue.Rename | public/main.js:206-219 | the record holds only the twelve record keys; each is present exactly when its protocol key is, with the protocol key's value |
| KeyValue.RenameIgnoresOtherKeys | public/main.js:206-219 | unknown protocol keys never reach the record |
| KeyValue.Stamp | public/main.js:104-108 | the stamped record has the time stamp, the line and every parsed field, with parsed fields overriding |
| ElectronParser.StripTagPrefix | public/main.js:176 | the tag stripping changes the line only when it starts with the tag |
| ElectronParser.StripTagPrefixRemovesTag | public/main.js:176 | `[ESP-NOW]`, whitespace, `RX` and whitespace at the start are removed together |
| ElectronParser.JsEntryKeeps | public/main.js:183-187 | a token gives an entry exactly when it contains a colon and its key part is not empty; the key is the trimmed lower-cased text before the first colon |
| ElectronParser.JsEntryDropsAfterSecondColon | public/main.js:184 | for `key:v1:v2` the value is decoded from `v1` alone |
| ElectronParser.JsEntryOneColon | public/main.js:184-197 | a token `key:v` decodes to the lower-cased key and the decoded value |
| ElectronParser.ParsedFieldPresent | public/main.js:206-219 | a record key is present exactly when some token of the line carries its protocol key |
| ElectronParser.ParsedFieldLastWins | public/main.js:196-197 | a record key holds the value of the last token carrying its protocol key |
| ElectronParser.ParseSerialData | public/main.js:168-227 | the loop over tokens computes the parsed record, whose keys are record keys only |
| SerialBackend.PyEntryKeeps | serial_backend.py:28-30 | a token gives an entry exactly when it contains a colon, even with an empty key |
| SerialBackend.PyEntrySplitsOnce | serial_backend.py:29 | the value is all the text after the first colon |
| SerialBackend.ParsedFields | serial_backend.py:66 | the result always holds `raw` with the original line and never a time stamp |
| SerialBackend.WithRawField | serial_backend.py:41-65 | each record key is present exactly when its protocol key was parsed, with that value |
| SerialBackend.ParsedFieldKeys | serial_backend.py:41-66 | the result holds only record keys and `raw` |
| SerialBackend.ParsedFieldPresent | serial_backend.py:41-65 | a record key is present exactly when some token of the line carries its protocol key |
| SerialBackend.ParsedFieldLastWins | serial_backend.py:35-39 | a record key holds the value of the last token carrying its protocol key |
| SerialBackend.TagDeletion | serial_backend.py:25 | deleting the tag shortens the line by the tag length per occurrence, and leaves an untagged line unchanged |
| SerialBackend.ParseSerialData | serial_backend.py:23-67 | the loop over tokens computes the parsed dictionary |
| SerialBackend.DataPointFields | serial_backend.py:84 | a data point is the parsed dictionary plus the arrival time stamp |
| SerialBackend.BuildDataPoint | serial_backend.py:84 | builds that data point |
| SerialBackend.SerialBackend.constructor | serial_backend.py:15-18 | the backend starts not logging, with an empty log and no latest point |
| SerialBackend.SerialBackend.ReadLine | serial_backend.py:80-87 | a blank line changes nothing; otherwise the latest point is the stamped parse of the stripped line, appended to the log exactly while logging |
| SerialBackend.SerialBackend.Record | serial_backend.py:85-87 | the point becomes the latest and is appended to the log exactly while logging |
| SerialBackend.SerialBackend.StartLogging | serial_backend.py:127-132 | logging is on and the log is emptied |
| SerialBackend.SerialBackend.StopLogging | serial_backend.py:135-139 | logging is off, the log is kept and its length is reported |
| SerialBackend.SerialBackend.ExportCsv | serial_backend.py:142-151 | an empty log is the error `No data to export`; otherwise the logged rows are exported |
| ParserComparison.PlainTokenSplit | public/main.js:184 | a token with one colon not at its start has a non-empty key and a colon-free value |
| ParserComparison.SameEntry | serial_backend.py:28-39 | on such a token both parsers decode the same entry, provided the two number readers agree on its value text |
| ParserComparison.SameTokensTagged | serial_backend.py:25-26 | on a line `[ESP-NOW] RX` followed by readings with no further tag, as the receiver sends it, both parsers cut the same tokens |
| ParserComparison.SameTokens | serial_backend.py:25-26 | on a line without any tag, or opening with the one tag `[ESP-NOW] RX`, both parsers cut the same tokens |
| ParserComparison.SameEntries | serial_backend.py:27-39 | on plain tokens both parsers decode the same entry list, provided the readers agree on each token's value text |
| ParserComparison.SameFields | serial_backend.py:23-67 | on a line without any tag or opening with the one tag, made of plain tokens whose value texts both readers read alike, the Python result is the JavaScript record plus `raw` |
| ParserComparison.ReaderDivergence | public/main.js:196-197 | when `parseFloat` reads a value that `float` rejects, the JavaScript entry holds the number and the Python entry the trimmed text |
| ParserComparison.TrailingGarbage | serial_backend.py:35-39 | for `t:12abc`, with `parseFloat` reading 12 and `float` raising, the JavaScript entry is `t` = 12 and the Python entry is `t` = `"12abc"` |
| ParserComparison.MidLineTag | public/main.js:176 | a tag in the middle of the line is kept by the Electron parser and deleted by the Python parser |
| ParserComparison.SecondColon | public/main.js:184 | on `key:v1:v2` the Electron parser reads `v1` while the Python parser reads `v1:v2` |
| ParserComparison.EmptyKey | public/main.js:186 | a token `:v` is skipped by the Electron parser and stored under the empty key by the Python parser |
| SessionCsv.Cells | public/main.js:255-262 | a row has one cell per column |
| SessionCsv.RowsSnoc | public/main.js:254-264 | each row is appended after the rows before it |
| SessionCsv.ConvertToCsv | public/main.js:229-267 | the loop builds the CSV text of the log |
| SessionCsv.CsvEmptyIff | public/main.js:230 | the CSV text is empty exactly when the log is empty |
| SessionCsv.ColumnsArePlain | public/main.js:233-248 | no column name contains a comma, a double quote or a line feed |
| SessionCsv.CellQuotesText | public/main.js:257-261 | a cell is its text quoted exactly when it holds a comma; missing and null fields are empty cells |
| SessionCsv.RowHasNoLineFeed | public/main.js:255-263 | when no string field and no printed number holds a line feed, the row holds none; commas and double quotes in the values do not matter |
| SessionCsv.CsvLines | public/main.js:255-266 | when no string field and no printed number holds a line feed, the text splits into the header line and one line per logged record, in order: n + 1 lines for n records |
| SessionCsv.RowRoundTrip | public/main.js:254-264 | decoding a row gives back the cell texts of the record |
| SessionCsv.HeaderRoundTrip | public/main.js:251 | decoding the header gives the fixed column order |
| SessionCsv.CsvRoundTrip | public/main.js:229-267 | line 0 decodes to the columns and line i+1 to record i's cell texts |
| ElectronMain.DataPointFields | public/main.js:104-108 | a data point is the parsed record plus the time stamp and the trimmed line |
| ElectronMain.BuildDataPoint | public/main.js:104-108 | builds that data point |
| ElectronMain.MainProcess.constructor | public/main.js:10-11 | the process starts not logging, with an empty log |
| ElectronMain.MainProcess.OnSerialData | public/main.js:97-115 | the data point sent to the page is the stamped parse, appended to the log exactly while logging |
| ElectronMain.MainProcess.Log | public/main.js:110-112 | a point is appended exactly while logging |
| ElectronMain.MainProcess.StartLogging | public/main.js:134-138 | logging is on and the log is emptied |
| ElectronMain.MainProcess.StopLogging | public/main.js:140-143 | logging is off, the log is kept and its length is reported |
| ElectronMain.MainProcess.ExportCsv | public/main.js:145-166 | an empty log and a cancelled dialog are the two errors; otherwise the chosen file gets the non-empty CSV text of the log |
| SentinelFill.Fill | components/chart-modal.tsx:56-68 | the fill keeps the number of points |
| SentinelFill.FillPrefix | components/chart-modal.tsx:56-68 | the fill of a prefix is the prefix of the fill |
| SentinelFill.FillAt | components/chart-modal.tsx:57-65 | a reading passes through; a `-1` takes the previous output value, or 0 when first |
| SentinelFill.FillKeepsTimes | components/real-time-chart.tsx:39-51 | order and both time stamps of every point are kept |
| SentinelFill.FillHoldsLastReading | components/chart-modal.tsx:57-63 | a `-1` becomes the last real reading before it, or 0 |
| SentinelFill.LastReadingIsReading | components/chart-modal.tsx:59 | the held value is never `-1` |
| SentinelFill.FillValuesFrom | components/real-time-chart.tsx:40-49 | every output value is 0 or an input value at or before the same position |
| SentinelFill.FillSentinelFree | components/real-time-chart.tsx:39-51 | no output value is `-1` |
| SentinelFill.FillIdentity | components/chart-modal.tsx:64-65 | the fill leaves a list unchanged exactly when it holds no `-1` |
| SentinelFill.FillIdempotent | components/chart-modal.tsx:56-68 | filling twice is filling once |
| ChartModal.ExportChartData | components/chart-modal.tsx:70-84 | there is a download exactly when there are points |
| ChartModal.FilledValuePlain | components/chart-modal.tsx:74 | a filled value of plain readings prints without comma or line feed |
| ChartModal.ExportLines | components/chart-modal.tsx:73-75 | when no time stamp, string value or printed number holds a line feed, the file is the header `timestamp,value` and one line per point, in order: n + 1 lines for n points |
| ChartModal.LineRoundTrip | components/chart-modal.tsx:74 | a line splits at the comma into the full time stamp and the printed value |
| ChartModal.ExportRoundTrip | components/chart-modal.tsx:73-75 | line i+1 carries point i's full time stamp and its filled value, never `-1` |
| ChartModal.ExportFileName | components/chart-modal.tsx:81 | the file name is the channel key followed by `-chart-data.csv`, so it starts with the key and ends in `.csv` |
| RealTimeChart.Render | components/real-time-chart.tsx:86 | a line chart is drawn exactly when there are points; otherwise the placeholder |
| RealTimeChart.RenderedPoints | components/real-time-chart.tsx:39-51 | the drawn points are as many as the input, free of `-1`, with the same time stamps, and drawing them again gives the same chart |
| Dashboard.ElectronRecords | public/main.js:104-108 | a record from the main process carries its time stamp, and a channel's reading in it is the parsed line's reading |
| Dashboard.Last50 | app/page.tsx:185-192 | a preview holds at most 50 points |
| Dashboard.RollShape | app/page.tsx:188-191 | rolling keeps at most 49 old points, in order, then the new point |
| Dashboard.RollLast50 | app/page.tsx:185-198 | rolling the last 50 of the history gives the last 50 of the extended history |
| Dashboard.ChannelStepSelf | app/page.tsx:175-198 | ingesting a channel updates that channel's windows as specified |
| Dashboard.ChannelStepOther | app/page.tsx:173-200 | ingesting a channel leaves every other channel's windows alone |
| Dashboard.IngestPrefix | app/page.tsx:173-200 | after the first i channels, those are updated and the rest untouched |
| Dashboard.IngestEffect | app/page.tsx:173-200 | every channel with a reading gets one new point in preview and history; a channel without one is unchanged |
| Dashboard.EmptyInvariants | app/page.tsx:222-230 | the cleared windows are bounded, tracked and free of `-1` |
| Dashboard.TracksBounded | app/page.tsx:185-192 | a preview that is the last 50 of the history is bounded |
| Dashboard.PointIsReading | app/page.tsx:180 | with a buffer free of `-1`, the new point's value is never `-1` |
| Dashboard.IngestBounded | app/page.tsx:185-192 | ingestion keeps every preview at 50 points or fewer |
| Dashboard.IngestTracks | app/page.tsx:185-198 | ingestion keeps every preview equal to the last 50 points of its history |
| Dashboard.IngestClean | app/page.tsx:180 | ingestion keeps preview and history free of `-1` |
| Dashboard.HeldFromHistory | app/page.tsx:180 | while the preview tracks the history, the held value is the value of the history's last point when that value is truthy, and 0 otherwise |
| Dashboard.HistoryNeedsNoFill | components/chart-modal.tsx:56-68 | the chart fill leaves a clean history unchanged |
| Dashboard.Recent | app/page.tsx:170 | the recent list is the new record then the previous ones, at most 100 |
| Dashboard.SerialDashboard.constructor | app/page.tsx:66-89 | the page starts disconnected, not logging, with empty windows |
| Dashboard.SerialDashboard.HandleSerialData | app/page.tsx:168-210 | the windows become the ingestion of the record, the preview chart shows the selected channel if it has a buffer, and the logged count grows while logging |
| Dashboard.SerialDashboard.IngestSensor | app/page.tsx:173-200 | one channel's windows are ingested and nothing else changes |
| Dashboard.SerialDashboard.HandleSerialStatus | app/page.tsx:212-231 | a disconnect status stops logging, zeroes the count and clears the windows; a connect status changes only the connection flag |
| Dashboard.SerialDashboard.HandleDisconnect | app/page.tsx:272-293 | current record, recent list, preview chart and histories are cleared; the preview buffers are kept |
| Dashboard.SerialDashboard.HandleStartLogging | app/page.tsx:295-305 | on success logging is on with a zero count; otherwise nothing changes |
| Dashboard.SerialDashboard.HandleStopLogging | app/page.tsx:307-316 | on success logging is off; the count is kept |
| Dashboard.SerialDashboard.SelectChart | app/page.tsx:249-255 | choosing another channel shows its preview buffer, or nothing when it has none |
| FixAssets.TwoPassClean | fix-assets.js:23-24 | after the two replacements neither pattern occurs |
| FixAssets.TwoPassIdempotent | fix-assets.js:21-34 | rewriting a rewritten text changes nothing |
| FixAssets.TwoPassLength | fix-assets.js:23-24 | the text grows by one character per replaced occurrence |
| FixAssets.TwoPassChangesIff | fix-assets.js:25 | the text changes exactly when a pattern occurs |
| FixAssets.PatternsSeparate | fix-assets.js:23-32 | the four patterns and their replacements cannot re-form each other |
| FixAssets.FixFile | fix-assets.js:15-37 | only HTML and JavaScript files are written |
| FixAssets.HtmlOrJs | fix-assets.js:15 | no file name is both HTML and JavaScript |
| FixAssets.HtmlFile | fix-assets.js:21-26 | an HTML file is written exactly when it holds an absolute `href` or `src` asset path, and none is left |
| FixAssets.JsFile | fix-assets.js:29-34 | a JavaScript file is written exactly when it holds a quoted absolute asset path, and none is left |
| FixAssets.ModifiedIffChanged | fix-assets.js:25 | the modified flag is set exactly when the content changed |
| FixAssets.FixFileIdempotent | fix-assets.js:36-37 | a second run writes nothing |
| FixAssets.HtmlGrowth | fix-assets.js:23-24 | an HTML file grows by one character per rewritten path |
| FixAssets.JsGrowth | fix-assets.js:31-32 | a JavaScript file grows by one character per rewritten path |
| FixAssets.TwoPassUndo | fix-assets.js:23-24 | on a text holding neither replacement, undoing the second pass and then the first restores the text |
| FixAssets.HtmlRestore | fix-assets.js:23-24 | an HTML text without relative asset paths is unchanged outside the rewritten `href`/`src` prefixes |
| FixAssets.JsRestore | fix-assets.js:31-32 | a JavaScript text without relative asset paths is unchanged outside the rewritten quoted prefixes |

## Left out

- Serial port I/O, the Electron IPC channels, the Flask routes, the reader thread
  and its lock, the save dialog, file writing, React scheduling, animations and
  timers are not modelled. The methods receive their inputs and flags as
  parameters.
- `Number.parseFloat`, Python's `float`, the printing of numbers into CSV text and
  `toLocaleTimeString` are parameters. The model does not fix their text formats.
- Whitespace is the six characters both languages share (`Text.IsSpace`: space,
  tab, line feed, carriage return, vertical tab and form feed), and lower-casing
  is ASCII only. Python's `str.split()` and `str.strip()` also treat U+001C to
  U+001F as whitespace, so `SerialBackend.Tokens` does not split at them, unlike
  Python. Unicode whitespace and case folding are not modelled.
- ParserComparison.SameTokens: holds only for lines without U+001C to U+001F
  (and without non-ASCII whitespace such as U+0085). Python's `str.split()` and
  `str.strip()` treat those as whitespace and JavaScript's `\s` and `trim()` do
  not; `Text.IsSpace` models only the six characters both treat as whitespace.
- ParserComparison.SameTokens: covers lines without any tag and lines opening
  with exactly `[ESP-NOW] RX` and holding no second tag. On a line such as
  `[ESP-NOW]RXt:1` the Electron parser strips the tag and the Python parser does
  not, and on a line holding the tag again the Python parser deletes every copy;
  there the token lists differ.
- ParserComparison.SameFields: assumes the two number readers agree on the line's
  value texts. They do not always: `parseFloat` reads a numeric prefix (`12abc`
  gives 12, `0x10` gives 0, `1e` gives 1) where `float` raises, and `float`
  accepts `1_000` where `parseFloat` gives 1. The readers are parameters, so the
  model does not fix either format.
- Numbers are unbounded reals. Floating point, and non-finite numbers produced by
  a successful parse, are not modelled.
- The exception paths are not modelled: `parseSerialData` returning `{}` on an
  exception, the Python loop stopping on an exception, and export returning
  `error.message`.
- SerialBackend.SerialBackend.ExportCsv: returns the logged rows rather than
  `csv.DictWriter` text. Python's quoting rules and its `ValueError` for a later
  row with keys the first row lacks are not modelled.
- SessionCsv.CsvRoundTrip: holds only for records whose text fields contain no
  double quote and no line feed. `convertToCSV` does not double inner quotes, so
  such fields cannot be read back.
- ChartModal.ExportRoundTrip: holds only when time stamps and printed values
  contain no comma and no line feed, for the same reason.
- `split(/\s+/)` on an empty line yields `[""]`, while `Text.Words` yields `[]`.
  The empty token has no colon, so the parsed record is the same.
- The directory walk of `fix-assets.js` is not modelled. One file name and its
  content are modelled at a time.
- Chart rendering details, statistics panels, `showDashboard` and the error
  strings shown by the page are not modelled.
- The page's disconnect handler keeps the preview buffers but clears the
  histories, and the model does the same. Until the disconnect status event
  clears the buffers, `Dashboard.Tracks` need not hold. The class therefore keeps
  only `Valid()` and the invariants that ingestion preserves.
