/**
 * The oldest top-level script, `run.js`: check that a records directory is configured,
 * make the directory if it is missing, make this month's file with a header if it is
 * missing, read the sensor once and append one line.
 *
 * Its month key is `YYYY/MM`, so `path.join` turns the file name into two components:
 * a directory `temp-watchdog_YYYY` that the script never creates, and the file
 * `MM_records.csv` inside it.
 */
module RunScript {
  import opened Text
  import opened Clock
  import opened Paths
  import opened Outcomes
  import opened Fs
  import opened Sensor
  import opened CsvStore

  /** How the script ends: `process.exit(code)`, an uncaught exception, or normally. */
  datatype ScriptEnd = Exited(code: int) | Crashed(error: Error) | Completed

  /** The per-year directory that the `/` in the month key introduces. */
  function YearDirectory(recordsDir: Path, keyAt: Instant): Path
  {
    recordsDir + [FILE_PREFIX + Pad4(keyAt.year)]
  }

  /** The file the script stats, writes and appends to. */
  function ScriptFilePath(recordsDir: Path, keyAt: Instant): (p: Path)
    ensures p == YearDirectory(recordsDir, keyAt) + [Pad2(keyAt.month) + FILE_SUFFIX]
    ensures Parent(p) == YearDirectory(recordsDir, keyAt)
  {
    var year, rest := FILE_PREFIX + Pad4(keyAt.year), Pad2(keyAt.month) + FILE_SUFFIX;
    assert FILE_PREFIX + MonthKey(keyAt, '/') + FILE_SUFFIX == year + "/" + rest;
    assert '/' !in year && '/' !in rest by {
      assert forall i :: 0 <= i < |year| ==> year[i] != '/';
      assert forall i :: 0 <= i < |rest| ==> rest[i] != '/';
    }
    JoinNested(recordsDir, year, rest);
    Join(recordsDir, FILE_PREFIX + MonthKey(keyAt, '/') + FILE_SUFFIX)
  }

  /** The line the script appends: the `YYYY/MM/DDTHH:mm:ss` date, the reading, a newline. */
  function ScriptLine(stampAt: Instant, reading: Reading): string
  {
    RecordLine(TimeStamp(stampAt, '/'), reading)
  }

  /**
   * The whole script. `recordsDir` is the `RECORDS_DIR` variable (`None` when unset),
   * `keyAt` the clock reading behind the file name, `stampAt` the one behind the date.
   */
  function ScriptEffect(d: Disk, recordsDir: Option<Path>, driver: SensorResult, keyAt: Instant, stampAt: Instant)
    : (ScriptEnd, Disk)
  {
    match recordsDir
    case None => (Exited(1), d)
    case Some(dir) =>
      var path := ScriptFilePath(dir, keyAt);
      var (status, d') := SetupEffect(d, dir, path);
      if status.Failed? then (Crashed(status.error), d')
      else match driver
        case DriverFailed(cause) => (Crashed(Thrown(cause)), d')
        case Measured(reading) =>
          var (appended, d'') := AppendFileOf(d', path, ScriptLine(stampAt, reading));
          if appended.Failed? then (Crashed(appended.error), d'') else (Completed, d'')
  }

  method Run(fs: FileSystem, recordsDir: Option<Path>, driver: SensorResult, keyAt: Instant, stampAt: Instant)
    returns (end: ScriptEnd)
    requires fs.Valid()
    modifies fs
    ensures fs.Valid()
    ensures (end, fs.State()) == ScriptEffect(old(fs.State()), recordsDir, driver, keyAt, stampAt)
  {
    if recordsDir.None? {
      return Exited(1);
    }
    var dir := recordsDir.value;
    var status := EnsureDirectory(fs, dir);
    if status.Failed? {
      return Crashed(status.error);
    }
    var thisMonthFilePath := ScriptFilePath(dir, keyAt);
    status := EnsureMonthFile(fs, thisMonthFilePath);
    if status.Failed? {
      return Crashed(status.error);
    }
    if driver.DriverFailed? {
      return Crashed(Thrown(driver.cause));
    }
    var date := TimeStamp(stampAt, '/');
    status := fs.AppendFile(thisMonthFilePath, RecordLine(date, driver.reading));
    end := if status.Failed? then Crashed(status.error) else Completed;
  }

  /** Without `RECORDS_DIR` the script exits with code 1 before touching the file system. */
  lemma ExitsWithoutRecordsDir(d: Disk, driver: SensorResult, keyAt: Instant, stampAt: Instant)
    ensures ScriptEffect(d, None, driver, keyAt, stampAt) == (Exited(1), d)
  {
  }

  /** Any failure of the directory's stat other than ENOENT is rethrown before anything is written. */
  lemma RethrowsDirectoryError(d: Disk, dir: Path, driver: SensorResult, keyAt: Instant, stampAt: Instant, code: Errno)
    requires StatOf(d, dir) == StatFailed(code) && code != ENOENT
    ensures ScriptEffect(d, Some(dir), driver, keyAt, stampAt) == (Crashed(SysError(code)), d)
  {
  }

  /**
   * With the records directory in place but no `temp-watchdog_YYYY` directory in it, the
   * header cannot be written: the script crashes with ENOENT and the disk is unchanged.
   */
  lemma CrashesWithoutYearDirectory(d: Disk, dir: Path, driver: SensorResult, keyAt: Instant, stampAt: Instant)
    requires Tree(d)
    requires dir in d.entries && d.entries[dir] == Dir && dir !in d.denied
    requires YearDirectory(dir, keyAt) !in d.entries
    requires ScriptFilePath(dir, keyAt) !in d.denied
    ensures ScriptEffect(d, Some(dir), driver, keyAt, stampAt) == (Crashed(SysError(ENOENT)), d)
  {
    var path := ScriptFilePath(dir, keyAt);
    assert path !in d.entries;
    assert !Writable(d, path);
  }

  /**
   * A records directory the script has to create holds no year directory yet, so the run
   * that creates it then crashes at the header, leaving only the new directory behind.
   */
  lemma NewRecordsDirThenCrash(d: Disk, dir: Path, driver: SensorResult, keyAt: Instant, stampAt: Instant)
    requires Tree(d)
    requires StatOf(d, dir) == StatFailed(ENOENT) && InDirectory(d, dir)
    requires ScriptFilePath(dir, keyAt) !in d.denied
    ensures ScriptEffect(d, Some(dir), driver, keyAt, stampAt)
         == (Crashed(SysError(ENOENT)), d.(entries := d.entries[dir := Dir]))
  {
    var d' := d.(entries := d.entries[dir := Dir]);
    var year := YearDirectory(dir, keyAt);
    assert Parent(year) == dir;
    assert year !in d.entries;
    assert year !in d'.entries;
    CrashesWithoutYearDirectory(d', dir, driver, keyAt, stampAt);
  }

  /**
   * When the year directory exists and the month file does not, the header is written and
   * a successful read appends exactly one line: the file's lines are the header and the
   * record, whose first field is the `YYYY/MM/DDTHH:mm:ss` date.
   */
  lemma HeaderThenRecordInYearDirectory(d: Disk, dir: Path, reading: Reading, keyAt: Instant, stampAt: Instant)
    requires dir in d.entries && dir !in d.denied
    requires YearDirectory(dir, keyAt) in d.entries && d.entries[YearDirectory(dir, keyAt)] == Dir
    requires ScriptFilePath(dir, keyAt) !in d.entries && ScriptFilePath(dir, keyAt) !in d.denied
    ensures var (end, d') := ScriptEffect(d, Some(dir), Measured(reading), keyAt, stampAt);
      var path := ScriptFilePath(dir, keyAt);
      && end == Completed
      && d'.entries == d.entries[path := File(HEADER + ScriptLine(stampAt, reading))]
      && Rows(d'.entries[path].text) == ["datetime,temp,humidity", RecordRow(TimeStamp(stampAt, '/'), reading)]
  {
    var date := TimeStamp(stampAt, '/');
    var path := ScriptFilePath(dir, keyAt);
    assert forall i :: 0 <= i < 19 ==> date[i] != ',' && date[i] != '\n';
    var d1 := SetupEffect(d, dir, path).1;
    assert d1.entries == d.entries[path := File(HEADER)];
    assert TextAt(d1, path) == HEADER;
    HeaderThenOneRecord(date, reading);
  }

  /** An existing month file keeps its content and receives exactly one more line. */
  lemma AppendsToExistingFile(d: Disk, dir: Path, reading: Reading, keyAt: Instant, stampAt: Instant)
    requires dir in d.entries && dir !in d.denied
    requires Writable(d, ScriptFilePath(dir, keyAt)) && ScriptFilePath(dir, keyAt) in d.entries
    requires Pending(TextAt(d, ScriptFilePath(dir, keyAt))) == ""
    ensures var (end, d') := ScriptEffect(d, Some(dir), Measured(reading), keyAt, stampAt);
      var path := ScriptFilePath(dir, keyAt);
      && end == Completed
      && d'.entries == d.entries[path := File(TextAt(d, path) + ScriptLine(stampAt, reading))]
      && Rows(d'.entries[path].text) == Rows(TextAt(d, path)) + [RecordRow(TimeStamp(stampAt, '/'), reading)]
  {
    var date := TimeStamp(stampAt, '/');
    assert forall i :: 0 <= i < 19 ==> date[i] != ',' && date[i] != '\n';
    RecordLineAddsOneRow(TextAt(d, ScriptFilePath(dir, keyAt)), date, reading);
  }

  /**
   * A failed sensor read crashes the script after the directory and header steps have
   * taken effect: the disk is as those steps left it, and no data line is appended.
   */
  lemma SensorFailureAfterSetup(d: Disk, dir: Path, cause: string, keyAt: Instant, stampAt: Instant)
    requires SetupEffect(d, dir, ScriptFilePath(dir, keyAt)).0 == Done
    ensures ScriptEffect(d, Some(dir), DriverFailed(cause), keyAt, stampAt)
         == (Crashed(Thrown(cause)), SetupEffect(d, dir, ScriptFilePath(dir, keyAt)).1)
  {
  }
}
