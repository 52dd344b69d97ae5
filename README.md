# temp-watchdog recording core, in Dafny

temp-watchdog reads a DHT22 temperature and humidity sensor and records each reading in
two monthly-rotating sinks:

- **CSV store.** One file per month, `temp-watchdog_YYYY-MM_records.csv`, inside the records
  directory (`RECORDS_DIR`).
  - `init` creates the directory if it is absent.
  - `init` also creates this month's file if it is absent, holding only the header
    `datetime,temp,humidity`.
  - `run` appends one `timestamp,temp,humidity` line per reading.
  - The model covers the current TypeScript library `src/lib.ts` and two older copies: the
    library `lib.js` and the one-shot script `run.js`.
- **Spreadsheet tabs.** `src/structures/Sheets.ts` keeps a document whose tabs are keyed by
  title, one per month, titled `YYYY-MM 温湿度`.
  - A tab is created with the header `日時, 温度, 湿度`.
  - Each record appends one row to it.

The environment is explicit:

- **File system.** A `Disk` value maps paths to `Dir` or `File(text)`. A `denied` set stands
  for the entries on which every call fails with a permission error.
  - The pure functions `StatOf`, `MkdirOf`, `WriteFileOf` and `AppendFileOf` say what one
    call of `fs` does.
  - The class `Fs.FileSystem` holds the disk as fields. Its methods make those calls in place
    and are tied to the functions by their postconditions.
- **Clock.** Every call of `dayjs()` in the source is a separate `Instant` parameter. A single
  operation can therefore read the clock twice, and the model can state what happens when the
  two readings fall in different months. `addRecord` reads it at `checkAt` inside its guard and
  at `at` for the lookup. The guard's value is discarded, so only `at` decides the outcome.
- **Sensor.** The answer of `sensor.read(22, pin)` is an input, `Measured(reading)` or
  `DriverFailed(cause)`.
- **Numbers.** Temperatures and humidities are kept as the text JavaScript renders for them:
  a non-empty string with no comma and no newline.
- **Spreadsheet document.** The loaded document is a map from title to `Tab(header, rows)`,
  held in a field of the class `SpreadsheetTabs.Sheets`.

Each operation that changes state is a method. Its postcondition equals a pure effect
function of the state before the call: `InitEffect`, `RunEffect`, `ScriptEffect`,
`CreateEffect` and `AddRecordEffect`. The properties of the system are lemmas about those
functions. The lines of a CSV file are `Text.Rows` of its text, and `Text.Pending` is an
unterminated last line.

Where the code departs from a tidier design, the model follows the code:

- `run` computes the month file at the time it runs, not at `init`. After a month boundary it
  creates the new month's file through `appendFile`, and that file has no header
  (`CsvStore.RunAfterMonthBoundary`).
- `lib.js` appends records without a newline (`LegacyLib.TwoRecordsShareOneLine`).
- `createThisMonthSheet` throws on an existing tab rather than doing nothing.
- The guard in `addRecord` negates a promise, so it never fires. A missing tab fails only when
  the `undefined` sheet is used.
- There is no registry of sinks, no fan-out to several sinks, and no configurable name
  template.

## Model

| member | source | states |
|---|---|---|
| Clock.MonthKey | src/lib.ts:60 | the `YYYY-MM` key: seven characters, the separator at index 4, digits elsewhere |
| Clock.MonthKeyRoundTrip | src/lib.ts:59-61 | the year and month read back from the key are those of the clock reading |
| Clock.MonthKeyInjective | src/lib.ts:59-61 | two readings have equal month keys if and only if they share year and month |
| Clock.Pad2 | src/lib.ts:52 | a two-digit zero-padded rendering whose decimal value is the number |
| Clock.Pad4 | src/lib.ts:52 | a four-digit zero-padded rendering whose decimal value is the number |
| Clock.TimeStamp | src/lib.ts:51-53 | 19 characters, the separators at indices 4, 7, 10, 13 and 16, digits elsewhere |
| Clock.TimeStampRoundTrip | src/lib.ts:51-53 | every field of the clock reading is read back from the timestamp |
| Clock.TimeStampInjective | src/lib.ts:51-53 | two readings have equal timestamps if and only if they are the same reading |
| Paths.Join | src/lib.ts:60 | the joined path starts with the directory's components and adds at least one more |
| Paths.JoinPlain | src/lib.ts:60 | a name without `/` becomes exactly one component inside the directory |
| Paths.JoinNested | run.js:25 | a name with one `/` becomes two components: a subdirectory and a file in it |
| Fs.MissingCode | src/lib.ts:69-71 | a missing entry reports ENOENT or ENOTDIR, and ENOTDIR exactly when its parent is a file |
| Fs.StatOf | src/lib.ts:69 | stat finds the node if and only if the path exists and is accessible; ENOENT only for an absent path |
| Fs.MkdirOf | src/lib.ts:72 | mkdir succeeds if and only if the path is absent, accessible and in a directory; it then adds exactly that directory, and otherwise changes nothing; it keeps the disk a tree |
| Fs.WriteFileOf | src/lib.ts:86 | writeFile succeeds if and only if the path is writable; the file then holds exactly the text and nothing else changes; on failure nothing changes |
| Fs.AppendFileOf | src/lib.ts:45 | appendFile succeeds if and only if the path is writable; the file then holds its old text followed by the new text (just the new text when absent); nothing else changes |
| Fs.FileSystem.Stat | src/lib.ts:69 | the result is `StatOf` of the current disk |
| Fs.FileSystem.Mkdir | src/lib.ts:72 | result and new disk are `MkdirOf` of the old disk; the tree invariant is kept |
| Fs.FileSystem.WriteFile | src/lib.ts:86 | result and new disk are `WriteFileOf` of the old disk; the tree invariant is kept |
| Fs.FileSystem.AppendFile | src/lib.ts:45 | result and new disk are `AppendFileOf` of the old disk; the tree invariant is kept |
| Sensor.ReadPin | src/lib.ts:10-17 | success if and only if the driver measured, passing the pair on unchanged; otherwise the message is `Failed to read from DHT22: ` followed by the driver's error (`lib.js` has the same function) |
| CsvStore.MonthFileName | src/lib.ts:60 | the file name is 33 characters long: the prefix `temp-watchdog_`, the month key, then the suffix `_records.csv`; it contains no `/` |
| CsvStore.ThisMonthFilePath | src/lib.ts:59-61 | the month file is one component directly inside the records directory |
| CsvStore.ThisMonthFilePathInjective | src/lib.ts:55-61 | two readings give the same path if and only if they share year and month |
| CsvStore.GetTimeStamp | src/lib.ts:48-53 | the `YYYY-MM-DDTHH:mm:ss` shape, read back as the same reading, with no comma or newline |
| CsvStore.RecordRowFields | src/lib.ts:44 | a record line splits at commas into exactly timestamp, temperature and humidity |
| CsvStore.RecordLineAddsOneRow | src/lib.ts:43-46 | appending a record to text that ends at a line boundary adds exactly one line, the record |
| CsvStore.HeaderIsOneRow | src/lib.ts:85-86 | the header is exactly one complete line `datetime,temp,humidity` |
| CsvStore.EnsureDirectory | src/lib.ts:67-76 | the directory step: stat, mkdir on ENOENT, and any other error is rethrown |
| CsvStore.EnsureMonthFile | src/lib.ts:78-90 | the file step: stat, the header written on ENOENT, and any other error propagated |
| CsvStore.Init | src/lib.ts:66-91 | the directory step, then the file step for this month's path, stopping at the first failure |
| CsvStore.RecordDataToCsv | src/lib.ts:43-46 | one append of the record line and a newline to the named file |
| CsvStore.Run | src/lib.ts:93-97 | reads the sensor; on success appends the stamped record to the month file of the clock at run time |
| CsvStore.InitCreatesMissingDirectory | src/lib.ts:67-90 | an absent directory is created, and with it the month file holding exactly the header |
| CsvStore.InitKeepsExistingDirectory | src/lib.ts:68-70 | an existing directory is left as it is, and only the month file may change |
| CsvStore.InitRethrowsDirectoryError | src/lib.ts:70-75 | any other stat error on the directory is rethrown and nothing is written |
| CsvStore.InitRethrowsNotADirectory | src/lib.ts:69-89 | a records path naming a regular file passes the directory step; the month file's stat then fails with ENOTDIR, which propagates with nothing written |
| CsvStore.InitWritesHeaderWhenAbsent | src/lib.ts:81-86 | an absent month file is created holding exactly `datetime,temp,humidity\n`, and nothing else changes |
| CsvStore.InitKeepsExistingFile | src/lib.ts:81-82 | an existing month file is untouched, and init succeeds without any change |
| CsvStore.InitRethrowsFileError | src/lib.ts:83-89 | any other stat error on the month file propagates, and nothing is written |
| CsvStore.InitFrame | src/lib.ts:66-91 | init changes no path but the records directory and this month's file |
| CsvStore.InitEstablishes | src/lib.ts:66-91 | after a successful init the directory is an accessible directory holding this month's file |
| CsvStore.InitIdempotent | src/lib.ts:66-91 | a second init in the same month succeeds and leaves the disk exactly as the first left it |
| CsvStore.InitFreshMonthFile | src/lib.ts:78-90 | a month without a file has exactly the header after a successful init |
| CsvStore.RecordAppendsLine | src/lib.ts:43-46 | the target file becomes its old content followed by the record line; an absent file holds just that line; no other path changes |
| CsvStore.RunSensorFailure | src/lib.ts:93-97 | a failed read fails with the prefixed message and leaves the disk unchanged |
| CsvStore.RunAppendsOneRow | src/lib.ts:93-97 | a successful run adds exactly one line, the stamped record, to the run-time month file; nothing else changes |
| CsvStore.RunExtendsMonthFile | src/lib.ts:93-97 | a successful run extends the run-time month file by exactly the record line |
| CsvStore.RunAfterMonthBoundary | src/lib.ts:93-97 | after a month boundary the record goes to a new file holding only that record, with no header; the file init prepared is untouched |
| CsvStore.InitThenTwoRunsInOneMonth | src/lib.ts:66-97 | init and then two runs in one month give the file lines: the header, then the two records in order |
| CsvStore.HeaderThenOneRecord | src/lib.ts:44-86 | the lines of the header followed by one record line |
| CsvStore.HeaderThenTwoRecords | src/lib.ts:44-86 | the lines of the header followed by two record lines |
| LegacyLib.RecordDataToCsv | lib.js:45-48 | one append of the bare record, with no newline |
| LegacyLib.Init | lib.js:61-86 | the path is built inline with the same template, and the effect equals init in `src/lib.ts`; so the case lemmas and idempotence of `CsvStore` hold for it |
| LegacyLib.RecordWithoutNewline | lib.js:46-47 | a record without a newline adds no line and extends the unterminated last line |
| LegacyLib.TwoRecordsShareOneLine | lib.js:45-48 | two successive records both succeed, add no line, and sit side by side on the last line |
| LegacyLib.HeaderThenTwoLegacyRecords | lib.js:45-48 | after the header, two records share the file's second line |
| RunScript.ScriptFilePath | run.js:25 | the `YYYY/MM` key gives the file `MM_records.csv` inside a directory `temp-watchdog_YYYY` in the records directory |
| RunScript.Run | run.js:7-45 | the env check, the directory step, the file step, the sensor read and one append, in order, ending as the script does |
| RunScript.ExitsWithoutRecordsDir | run.js:7-10 | without `RECORDS_DIR` the script exits with code 1 and nothing changes |
| RunScript.RethrowsDirectoryError | run.js:12-21 | any stat error on the directory other than ENOENT is rethrown and nothing changes |
| RunScript.CrashesWithoutYearDirectory | run.js:23-35 | with the records directory an accessible directory holding no `temp-watchdog_YYYY` directory, the header write fails with ENOENT and nothing changes |
| RunScript.NewRecordsDirThenCrash | run.js:12-35 | a run that has to create the records directory then crashes at the header, leaving only the new directory |
| RunScript.HeaderThenRecordInYearDirectory | run.js:26-45 | with the year directory present and no file, the file's lines become the header and one `YYYY/MM/DDTHH:mm:ss` record |
| RunScript.AppendsToExistingFile | run.js:26-45 | an existing file is not rewritten, and it gains exactly one line, the record |
| RunScript.SensorFailureAfterSetup | run.js:12-45 | a failed sensor read crashes after the directory and header steps took effect, and no line is appended |
| SpreadsheetTabs.Sheets.constructor | src/structures/Sheets.ts:10-12 | a handle on the document with the given id and its loaded tabs |
| SpreadsheetTabs.Sheets.ThisMonthSheetName | src/structures/Sheets.ts:58-61 | the title is the `YYYY-MM` month key followed by ` 温湿度` |
| SpreadsheetTabs.Sheets.IsExistsThisMonthSheet | src/structures/Sheets.ts:38-46 | true if and only if the current month's title is a tab of the document |
| SpreadsheetTabs.Sheets.CreateThisMonthSheet | src/structures/Sheets.ts:30-36 | throws on an existing tab, otherwise adds exactly one tab, so the document grows by one |
| SpreadsheetTabs.Sheets.AddRecord | src/structures/Sheets.ts:48-56 | appends the row to this month's tab, or fails on the `undefined` sheet; it never raises the "has not been created" error |
| SpreadsheetTabs.GuardNeverFires | src/structures/Sheets.ts:49-51 | the negated promise is false whatever it settles to |
| SpreadsheetTabs.SheetNameInjective | src/structures/Sheets.ts:58-61 | two readings give the same title if and only if they share year and month |
| SpreadsheetTabs.CreateOnExistingTabThrows | src/structures/Sheets.ts:30-33 | create on an existing tab throws `This month sheet is already created.` and leaves the document unchanged |
| SpreadsheetTabs.CreateAddsOneTab | src/structures/Sheets.ts:34 | create on an absent tab, its check and creation reading the clock in the same month, adds exactly that title with header `日時, 温度, 湿度` and no rows; every other tab is unchanged |
| SpreadsheetTabs.CreateThenExistsAndSecondThrows | src/structures/Sheets.ts:30-46 | after a successful create, whatever its two clock readings, the tab exists for any reading in the month of the creation, and a second create in that month throws |
| SpreadsheetTabs.MonthChangeLeavesNewTabMissing | src/structures/Sheets.ts:38-61 | after a create and a change of month, the new title is missing while the created tab remains, so a record fails |
| SpreadsheetTabs.AddRecordAppendsOneRow | src/structures/Sheets.ts:48-55 | on an existing tab exactly one row, the record, is appended at its end; the header and every other tab are unchanged |
| SpreadsheetTabs.AddRecordWithoutTab | src/structures/Sheets.ts:49-54 | without this month's tab the call fails on the `undefined` sheet and nothing is appended |

## Left out

- Console output is not modelled: `logData` and `logError` (src/lib.ts:25-34, lib.js:26-36), the log line of `run.js` (run.js:42), and the message before its exit (run.js:8).
- The sensor driver is a hardware call. Its answer is an input, so the pin number and the `Number(PIN_NUMBER)` conversion play no part.
- Floating-point values are not modelled. A temperature or humidity is the text JavaScript renders for it, with no arithmetic.
- The dayjs format strings are not interpreted; the model states each rendering directly. `getTimeStamp` of `lib.js` (lib.js:54-56) is therefore left out: its format uses the token `SS`, not `ss`.
- `run` of `lib.js` (lib.js:88-93) is left out. It does not await `readPin` and passes no file name to `recordDataToCSV`, so it cannot produce a valid append.
- `path.join` normalisation is not modelled. The records directory is given as a sequence of path components. `.`, `..`, repeated and trailing separators, and absolute versus relative paths are outside the model.
- Clock.WellFormed: years run only up to 9999. From the year 10000 dayjs renders five year digits, and the seven-character month key and the 19-character timestamp no longer hold.
- Fs.MissingCode: only the direct parent decides between ENOENT and ENOTDIR; the other ancestors are not examined.
- Fs.StatOf: every kind of inaccessible entry (permissions, I/O errors) is one `denied` set that reports EACCES.
- Asynchrony is not modelled. Each awaited call completes before the next starts, and the overlapping interval ticks of the daemon are outside the model, as are its scheduling and its environment checks.
- `run.js` uses `await` at top level in a CommonJS script. The model assumes the script runs to the end.
- Authentication and loading of the spreadsheet document are remote calls: `prepare` (src/structures/Sheets.ts:17-25). So is `record.save()` (src/structures/Sheets.ts:55). The model starts from a loaded document, and an appended row is final.
- SpreadsheetTabs.CreateEffect: the model assumes the spreadsheet library refuses a tab whose title is taken. That happens only when the two clock readings of `createThisMonthSheet` fall in different months.
- The configuration loader (src/structures/Config.ts) and the environment typings (src/global.d.ts) are not modelled; no field of the configuration is read by the core.

## Findings

| source | as written | input that shows it | evidently intended | confidence | as-written member | corrected member |
|---|---|---|---|---|---|---|
| run.js:25 | the month key `YYYY/MM` inside the file name makes `path.join` produce a subdirectory `temp-watchdog_YYYY` that the script never creates, so the header write fails with ENOENT | an empty, not yet existing `RECORDS_DIR`: the script creates it, then crashes at the header | the file `temp-watchdog_YYYY-MM_records.csv` directly in the records directory, as `src/lib.ts` builds it | high; not executed | RunScript.NewRecordsDirThenCrash | CsvStore.InitCreatesMissingDirectory |
