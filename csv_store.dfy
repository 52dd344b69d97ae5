/**
 * The monthly CSV store of `src/lib.ts`: one file per month under the records directory,
 * named `temp-watchdog_YYYY-MM_records.csv`, created with a header line by `init`, and
 * one `timestamp,temp,humidity` line appended per reading by `run`.
 *
 * The environment is explicit: the records directory is a parameter, every reading of the
 * clock is an `Instant` parameter, the sensor's answer is a `SensorResult` parameter, and
 * the file system is a `FileSystem` object whose calls the operations make one by one.
 */
module CsvStore {
  import opened Text
  import opened Clock
  import opened Paths
  import opened Outcomes
  import opened Fs
  import opened Sensor

  const HEADER := "datetime,temp,humidity\n"
  const FILE_PREFIX := "temp-watchdog_"
  const FILE_SUFFIX := "_records.csv"

  /** The name of the month file: the month key between fixed prefix and suffix. */
  function MonthFileName(now: Instant): (name: string)
    ensures |name| == |FILE_PREFIX| + 7 + |FILE_SUFFIX|
    ensures name[..|FILE_PREFIX|] == FILE_PREFIX
    ensures name[|FILE_PREFIX|..|FILE_PREFIX| + 7] == MonthKey(now, '-')
    ensures name[|FILE_PREFIX| + 7..] == FILE_SUFFIX
    ensures '/' !in name
  {
    var key := MonthKey(now, '-');
    assert forall i :: 0 <= i < |key| ==> key[i] != '/';
    FILE_PREFIX + key + FILE_SUFFIX
  }

  /** `getThisMonthFilePath`: the month file, directly inside the records directory. */
  function ThisMonthFilePath(recordsDir: Path, now: Instant): (p: Path)
    ensures p == recordsDir + [MonthFileName(now)]
  {
    JoinPlain(recordsDir, MonthFileName(now));
    Join(recordsDir, MonthFileName(now))
  }

  /** Two readings of the clock give the same month file exactly when they share year and month. */
  lemma ThisMonthFilePathInjective(recordsDir: Path, a: Instant, b: Instant)
    ensures ThisMonthFilePath(recordsDir, a) == ThisMonthFilePath(recordsDir, b) <==> SameMonth(a, b)
  {
    MonthKeyInjective(a, b, '-');
    if ThisMonthFilePath(recordsDir, a) == ThisMonthFilePath(recordsDir, b) {
      assert MonthFileName(a) == Last(ThisMonthFilePath(recordsDir, a));
      assert MonthFileName(a) == MonthFileName(b);
    }
  }

  /** `getTimeStamp`: `YYYY-MM-DDTHH:mm:ss`, which reads back as the clock reading it came from. */
  function GetTimeStamp(now: Instant): (stamp: string)
    ensures |stamp| == 19
    ensures stamp[4] == '-' && stamp[7] == '-' && stamp[10] == 'T' && stamp[13] == ':' && stamp[16] == ':'
    ensures forall i :: 0 <= i < 19 && i !in {4, 7, 10, 13, 16} ==> IsDigit(stamp[i])
    ensures DateTimeOfStamp(stamp) == now
    ensures ',' !in stamp && '\n' !in stamp
  {
    TimeStampRoundTrip(now, '-');
    var stamp := TimeStamp(now, '-');
    assert forall i :: 0 <= i < 19 ==> stamp[i] != ',' && stamp[i] != '\n';
    stamp
  }

  /** The fields of one record, comma-separated, as the CSV line holds them. */
  function RecordRow(timeStamp: string, reading: Reading): string
  {
    timeStamp + "," + reading.temperature + "," + reading.humidity
  }

  /** The text `recordDataToCSV` appends: the record and a newline. */
  function RecordLine(timeStamp: string, reading: Reading): string
  {
    RecordRow(timeStamp, reading) + "\n"
  }

  /** A record row reads back as its three fields, in order. */
  lemma RecordRowFields(timeStamp: string, reading: Reading)
    requires ',' !in timeStamp
    ensures Split(RecordRow(timeStamp, reading), ',') == [timeStamp, reading.temperature, reading.humidity]
  {
    var parts := [timeStamp, reading.temperature, reading.humidity];
    assert Joined(parts, ',') == RecordRow(timeStamp, reading) by {
      assert Joined(parts[2..], ',') == reading.humidity;
    }
    SplitJoined(parts, ',');
  }

  /**
   * Appending a record to a text that ends at a line boundary adds exactly one line, and
   * that line is the record.
   */
  lemma RecordLineAddsOneRow(text: string, timeStamp: string, reading: Reading)
    requires Pending(text) == ""
    requires ',' !in timeStamp && '\n' !in timeStamp
    ensures Rows(text + RecordLine(timeStamp, reading)) == Rows(text) + [RecordRow(timeStamp, reading)]
    ensures Pending(text + RecordLine(timeStamp, reading)) == ""
    ensures Split(RecordRow(timeStamp, reading), ',') == [timeStamp, reading.temperature, reading.humidity]
  {
    var row := RecordRow(timeStamp, reading);
    assert '\n' !in row by {
      assert forall i :: 0 <= i < |row| ==> row[i] != '\n' by {
        forall i | 0 <= i < |row| ensures row[i] != '\n' {
          assert row == timeStamp + [','] + reading.temperature + [','] + reading.humidity;
        }
      }
    }
    AppendLine(text, row);
    assert Pending(text) + row == row;
    assert text + RecordLine(timeStamp, reading) == text + row + "\n";
    RecordRowFields(timeStamp, reading);
  }

  /** The header written into a new month file is one complete line. */
  lemma HeaderIsOneRow()
    ensures Rows(HEADER) == ["datetime,temp,humidity"]
    ensures Pending(HEADER) == ""
  {
    SplitAfterPiece("datetime,temp,humidity", "", '\n');
    assert "datetime,temp,humidity" + ['\n'] + "" == HEADER;
  }

  // ---------------------------------------------------------------------------------
  // Effects on the disk, as functions of the disk before the call.

  /** The directory step of `init`: stat, then mkdir on ENOENT, rethrow any other error. */
  function EnsureDirEffect(d: Disk, dir: Path): (Status, Disk)
  {
    match StatOf(d, dir)
    case Found(_) => (Done, d)
    case StatFailed(code) =>
      if code == ENOENT then MkdirOf(d, dir) else (Failed(SysError(code)), d)
  }

  /** The file step of `init`: stat, then write the header on ENOENT, rethrow any other error. */
  function EnsureFileEffect(d: Disk, path: Path): (Status, Disk)
  {
    match StatOf(d, path)
    case Found(_) => (Done, d)
    case StatFailed(code) =>
      if code == ENOENT then WriteFileOf(d, path, HEADER) else (Failed(SysError(code)), d)
  }

  /** The directory step, and when it succeeds the file step for `path`. */
  function SetupEffect(d: Disk, recordsDir: Path, path: Path): (Status, Disk)
  {
    var (status, d') := EnsureDirEffect(d, recordsDir);
    if status.Failed? then (status, d')
    else EnsureFileEffect(d', path)
  }

  /** `init`: the setup of this month's file. */
  function InitEffect(d: Disk, recordsDir: Path, now: Instant): (Status, Disk)
  {
    SetupEffect(d, recordsDir, ThisMonthFilePath(recordsDir, now))
  }

  /** `recordDataToCSV`: one `appendFile` of the record line. */
  function RecordEffect(d: Disk, timeStamp: string, reading: Reading, fileName: Path): (Status, Disk)
  {
    AppendFileOf(d, fileName, RecordLine(timeStamp, reading))
  }

  /**
   * `run`: read the sensor, take a timestamp (`stampAt`), and append the record to the
   * month file of a second reading of the clock (`pathAt`).
   */
  function RunEffect(d: Disk, recordsDir: Path, driver: SensorResult, stampAt: Instant, pathAt: Instant): (Status, Disk)
  {
    match ReadPin(driver)
    case ReadFailed(message) => (Failed(Thrown(message)), d)
    case Read(reading) =>
      RecordEffect(d, GetTimeStamp(stampAt), reading, ThisMonthFilePath(recordsDir, pathAt))
  }

  // ---------------------------------------------------------------------------------
  // The operations, as calls on the file system made one after another.

  method EnsureDirectory(fs: FileSystem, dir: Path) returns (r: Status)
    requires fs.Valid()
    modifies fs
    ensures fs.Valid()
    ensures (r, fs.State()) == EnsureDirEffect(old(fs.State()), dir)
  {
    var st := fs.Stat(dir);
    if st.Found? {
      r := Done;
    } else if st.code == ENOENT {
      r := fs.Mkdir(dir);
    } else {
      r := Failed(SysError(st.code));
    }
  }

  method EnsureMonthFile(fs: FileSystem, path: Path) returns (r: Status)
    requires fs.Valid()
    modifies fs
    ensures fs.Valid()
    ensures (r, fs.State()) == EnsureFileEffect(old(fs.State()), path)
  {
    var st := fs.Stat(path);
    if st.Found? {
      r := Done;
    } else if st.code == ENOENT {
      r := fs.WriteFile(path, HEADER);
    } else {
      r := Failed(SysError(st.code));
    }
  }

  method Init(fs: FileSystem, recordsDir: Path, now: Instant) returns (r: Status)
    requires fs.Valid()
    modifies fs
    ensures fs.Valid()
    ensures (r, fs.State()) == InitEffect(old(fs.State()), recordsDir, now)
  {
    r := EnsureDirectory(fs, recordsDir);
    if r.Failed? {
      return;
    }
    var thisMonthFilePath := ThisMonthFilePath(recordsDir, now);
    r := EnsureMonthFile(fs, thisMonthFilePath);
  }

  method RecordDataToCsv(fs: FileSystem, timeStamp: string, reading: Reading, fileName: Path) returns (r: Status)
    requires fs.Valid()
    modifies fs
    ensures fs.Valid()
    ensures (r, fs.State()) == RecordEffect(old(fs.State()), timeStamp, reading, fileName)
  {
    r := fs.AppendFile(fileName, RecordLine(timeStamp, reading));
  }

  method Run(fs: FileSystem, recordsDir: Path, driver: SensorResult, stampAt: Instant, pathAt: Instant)
    returns (r: Status)
    requires fs.Valid()
    modifies fs
    ensures fs.Valid()
    ensures (r, fs.State()) == RunEffect(old(fs.State()), recordsDir, driver, stampAt, pathAt)
  {
    var data := ReadPin(driver);
    if data.ReadFailed? {
      return Failed(Thrown(data.message));
    }
    var timeStamp := GetTimeStamp(stampAt);
    r := RecordDataToCsv(fs, timeStamp, data.reading, ThisMonthFilePath(recordsDir, pathAt));
  }

  // ---------------------------------------------------------------------------------
  // What `init` does, case by case.

  /** A missing records directory is created, and with it the month file holding the header. */
  lemma InitCreatesMissingDirectory(d: Disk, recordsDir: Path, now: Instant)
    requires Tree(d)
    requires StatOf(d, recordsDir) == StatFailed(ENOENT) && InDirectory(d, recordsDir)
    requires ThisMonthFilePath(recordsDir, now) !in d.denied
    ensures InitEffect(d, recordsDir, now)
         == (Done, d.(entries := d.entries[recordsDir := Dir][ThisMonthFilePath(recordsDir, now) := File(HEADER)]))
  {
    var path := ThisMonthFilePath(recordsDir, now);
    var d' := MkdirOf(d, recordsDir).1;
    assert path !in d'.entries by {
      assert Parent(path) == recordsDir;
    }
    assert InDirectory(d', path);
  }

  /** An existing records directory is left as it is: only the month file may change. */
  lemma InitKeepsExistingDirectory(d: Disk, recordsDir: Path, now: Instant)
    requires recordsDir in d.entries && recordsDir !in d.denied
    ensures InitEffect(d, recordsDir, now) == EnsureFileEffect(d, ThisMonthFilePath(recordsDir, now))
    ensures var d' := InitEffect(d, recordsDir, now).1;
      d'.denied == d.denied
      && recordsDir in d'.entries && d'.entries[recordsDir] == d.entries[recordsDir]
      && forall q :: q != ThisMonthFilePath(recordsDir, now) ==>
           (q in d'.entries <==> q in d.entries) && (q in d.entries ==> d'.entries[q] == d.entries[q])
  {
  }

  /** Any other failure of the directory's stat is rethrown, and nothing is written. */
  lemma InitRethrowsDirectoryError(d: Disk, recordsDir: Path, now: Instant, code: Errno)
    requires StatOf(d, recordsDir) == StatFailed(code) && code != ENOENT
    ensures InitEffect(d, recordsDir, now) == (Failed(SysError(code)), d)
  {
  }

  /**
   * A records path that names a regular file passes the directory step, but the stat of
   * the month file inside it fails with ENOTDIR, which propagates with nothing written.
   */
  lemma InitRethrowsNotADirectory(d: Disk, recordsDir: Path, now: Instant)
    requires Tree(d)
    requires recordsDir in d.entries && d.entries[recordsDir].File? && recordsDir !in d.denied
    requires ThisMonthFilePath(recordsDir, now) !in d.denied
    ensures InitEffect(d, recordsDir, now) == (Failed(SysError(ENOTDIR)), d)
  {
    assert Parent(ThisMonthFilePath(recordsDir, now)) == recordsDir;
  }

  /** With the directory in place, an absent month file is created holding just the header. */
  lemma InitWritesHeaderWhenAbsent(d: Disk, recordsDir: Path, now: Instant)
    requires recordsDir in d.entries && recordsDir !in d.denied && d.entries[recordsDir] == Dir
    requires ThisMonthFilePath(recordsDir, now) !in d.entries
    requires ThisMonthFilePath(recordsDir, now) !in d.denied
    ensures InitEffect(d, recordsDir, now)
         == (Done, d.(entries := d.entries[ThisMonthFilePath(recordsDir, now) := File(HEADER)]))
  {
    assert Parent(ThisMonthFilePath(recordsDir, now)) == recordsDir;
  }

  /** An existing month file is left untouched, whatever it holds. */
  lemma InitKeepsExistingFile(d: Disk, recordsDir: Path, now: Instant)
    requires recordsDir in d.entries && recordsDir !in d.denied
    requires ThisMonthFilePath(recordsDir, now) in d.entries
    requires ThisMonthFilePath(recordsDir, now) !in d.denied
    ensures InitEffect(d, recordsDir, now) == (Done, d)
  {
  }

  /** Any other failure of the month file's stat propagates, and nothing is written. */
  lemma InitRethrowsFileError(d: Disk, recordsDir: Path, now: Instant, code: Errno)
    requires recordsDir in d.entries && recordsDir !in d.denied
    requires StatOf(d, ThisMonthFilePath(recordsDir, now)) == StatFailed(code) && code != ENOENT
    ensures InitEffect(d, recordsDir, now) == (Failed(SysError(code)), d)
  {
  }

  /** `init` changes nothing but the records directory and this month's file. */
  lemma InitFrame(d: Disk, recordsDir: Path, now: Instant, q: Path)
    requires q != recordsDir && q != ThisMonthFilePath(recordsDir, now)
    ensures var d' := InitEffect(d, recordsDir, now).1;
      d'.denied == d.denied
      && (q in d'.entries <==> q in d.entries) && (q in d.entries ==> d'.entries[q] == d.entries[q])
  {
  }

  /**
   * After a successful `init` on a well-formed disk, the records directory is an
   * accessible directory and this month's file an accessible entry in it.
   */
  lemma InitEstablishes(d: Disk, recordsDir: Path, now: Instant)
    requires Tree(d)
    requires InitEffect(d, recordsDir, now).0 == Done
    ensures var d' := InitEffect(d, recordsDir, now).1;
      && Tree(d') && d'.denied == d.denied
      && recordsDir in d'.entries && d'.entries[recordsDir] == Dir && recordsDir !in d.denied
      && ThisMonthFilePath(recordsDir, now) in d'.entries && ThisMonthFilePath(recordsDir, now) !in d.denied
  {
    var path := ThisMonthFilePath(recordsDir, now);
    var d1 := EnsureDirEffect(d, recordsDir).1;
    var d' := InitEffect(d, recordsDir, now).1;
    assert Parent(path) == recordsDir;
    assert Tree(d1);
    assert recordsDir in d1.entries && recordsDir !in d.denied;
    if path in d1.entries {
      assert d1.entries[Parent(path)] == Dir;
    }
  }

  /**
   * `init` is idempotent within a month: once it has succeeded, running it again at any
   * time in the same month succeeds and changes nothing.
   */
  lemma InitIdempotent(d: Disk, recordsDir: Path, first: Instant, again: Instant)
    requires Tree(d)
    requires InitEffect(d, recordsDir, first).0 == Done
    requires SameMonth(first, again)
    ensures var d' := InitEffect(d, recordsDir, first).1;
      InitEffect(d', recordsDir, again) == (Done, d')
  {
    InitEstablishes(d, recordsDir, first);
    ThisMonthFilePathInjective(recordsDir, first, again);
  }

  // ---------------------------------------------------------------------------------
  // What `recordDataToCSV` and `run` do.

  /**
   * `recordDataToCSV` extends the target file by exactly the record line (an absent file
   * is created holding just that line) and changes no other path.
   */
  lemma RecordAppendsLine(d: Disk, timeStamp: string, reading: Reading, fileName: Path, q: Path)
    requires Writable(d, fileName)
    requires q != fileName
    ensures var (status, d') := RecordEffect(d, timeStamp, reading, fileName);
      && status == Done
      && d'.entries[fileName] == File(TextAt(d, fileName) + RecordLine(timeStamp, reading))
      && (fileName !in d.entries ==> d'.entries[fileName] == File(RecordLine(timeStamp, reading)))
      && (q in d'.entries <==> q in d.entries) && (q in d.entries ==> d'.entries[q] == d.entries[q])
  {
  }

  /** A failed sensor read makes `run` fail with the prefixed message and write nothing. */
  lemma RunSensorFailure(d: Disk, recordsDir: Path, cause: string, stampAt: Instant, pathAt: Instant)
    ensures RunEffect(d, recordsDir, DriverFailed(cause), stampAt, pathAt)
         == (Failed(Thrown(READ_FAILURE_PREFIX + cause)), d)
  {
  }

  /**
   * A successful `run` appends exactly one row, the stamped reading, to the month file of
   * the clock reading taken at `run` time, and leaves every other path alone.
   */
  lemma RunAppendsOneRow(d: Disk, recordsDir: Path, reading: Reading, stampAt: Instant, pathAt: Instant, q: Path)
    requires Writable(d, ThisMonthFilePath(recordsDir, pathAt))
    requires Pending(TextAt(d, ThisMonthFilePath(recordsDir, pathAt))) == ""
    requires q != ThisMonthFilePath(recordsDir, pathAt)
    ensures var (status, d') := RunEffect(d, recordsDir, Measured(reading), stampAt, pathAt);
      var path := ThisMonthFilePath(recordsDir, pathAt);
      && status == Done
      && d'.entries[path].File?
      && Rows(d'.entries[path].text) == Rows(TextAt(d, path)) + [RecordRow(GetTimeStamp(stampAt), reading)]
      && (q in d'.entries <==> q in d.entries) && (q in d.entries ==> d'.entries[q] == d.entries[q])
  {
    var path := ThisMonthFilePath(recordsDir, pathAt);
    RecordLineAddsOneRow(TextAt(d, path), GetTimeStamp(stampAt), reading);
  }

  /**
   * The month of a `run` is taken when it runs, not when `init` ran: after a month boundary
   * the record goes to a new file, which then holds the record and no header line, and
   * the file `init` prepared is not touched.
   */
  lemma RunAfterMonthBoundary(d: Disk, recordsDir: Path, initAt: Instant, reading: Reading,
                              stampAt: Instant, pathAt: Instant)
    requires Tree(d)
    requires InitEffect(d, recordsDir, initAt).0 == Done
    requires !SameMonth(initAt, pathAt)
    requires ThisMonthFilePath(recordsDir, pathAt) !in d.entries
    requires ThisMonthFilePath(recordsDir, pathAt) !in d.denied
    ensures var d1 := InitEffect(d, recordsDir, initAt).1;
      var (status, d2) := RunEffect(d1, recordsDir, Measured(reading), stampAt, pathAt);
      && status == Done
      && d2.entries[ThisMonthFilePath(recordsDir, pathAt)] == File(RecordLine(GetTimeStamp(stampAt), reading))
      && Rows(d2.entries[ThisMonthFilePath(recordsDir, pathAt)].text) == [RecordRow(GetTimeStamp(stampAt), reading)]
      && d2.entries[ThisMonthFilePath(recordsDir, initAt)] == d1.entries[ThisMonthFilePath(recordsDir, initAt)]
  {
    var d1 := InitEffect(d, recordsDir, initAt).1;
    var newPath := ThisMonthFilePath(recordsDir, pathAt);
    InitEstablishes(d, recordsDir, initAt);
    ThisMonthFilePathInjective(recordsDir, initAt, pathAt);
    InitFrame(d, recordsDir, initAt, newPath);
    assert Parent(newPath) == recordsDir;
    assert Writable(d1, newPath);
    assert Split("", '\n') == [""];
    RecordLineAddsOneRow("", GetTimeStamp(stampAt), reading);
    assert "" + RecordLine(GetTimeStamp(stampAt), reading) == RecordLine(GetTimeStamp(stampAt), reading);
  }

  /** A successful `run` on a writable month file extends that file by the record line. */
  lemma RunExtendsMonthFile(d: Disk, recordsDir: Path, reading: Reading, stampAt: Instant, pathAt: Instant)
    requires Writable(d, ThisMonthFilePath(recordsDir, pathAt))
    ensures var path := ThisMonthFilePath(recordsDir, pathAt);
      RunEffect(d, recordsDir, Measured(reading), stampAt, pathAt)
      == (Done, d.(entries := d.entries[path := File(TextAt(d, path) + RecordLine(GetTimeStamp(stampAt), reading))]))
  {
  }

  /** When this month had no file, a successful `init` leaves it holding just the header. */
  lemma InitFreshMonthFile(d: Disk, recordsDir: Path, now: Instant)
    requires Tree(d)
    requires ThisMonthFilePath(recordsDir, now) !in d.entries
    requires InitEffect(d, recordsDir, now).0 == Done
    ensures var d' := InitEffect(d, recordsDir, now).1;
      var path := ThisMonthFilePath(recordsDir, now);
      path in d'.entries && d'.entries[path] == File(HEADER) && Writable(d', path)
  {
    var path := ThisMonthFilePath(recordsDir, now);
    InitEstablishes(d, recordsDir, now);
    var dirDisk := EnsureDirEffect(d, recordsDir).1;
    assert path !in dirDisk.entries by {
      assert Parent(path) == recordsDir;
    }
  }

  /**
   * `init` on a month without a file, then two runs in the same month: the file holds the
   * header and exactly the two records, in order.
   */
  lemma InitThenTwoRunsInOneMonth(d: Disk, recordsDir: Path, initAt: Instant,
                                  first: Reading, stamp1: Instant, path1: Instant,
                                  second: Reading, stamp2: Instant, path2: Instant)
    requires Tree(d)
    requires ThisMonthFilePath(recordsDir, initAt) !in d.entries
    requires InitEffect(d, recordsDir, initAt).0 == Done
    requires SameMonth(initAt, path1) && SameMonth(initAt, path2)
    ensures var d1 := InitEffect(d, recordsDir, initAt).1;
      var r2 := RunEffect(d1, recordsDir, Measured(first), stamp1, path1);
      var r3 := RunEffect(r2.1, recordsDir, Measured(second), stamp2, path2);
      var path := ThisMonthFilePath(recordsDir, initAt);
      && r2.0 == Done && r3.0 == Done && path in r3.1.entries && r3.1.entries[path].File?
      && Rows(r3.1.entries[path].text)
         == ["datetime,temp,humidity", RecordRow(GetTimeStamp(stamp1), first), RecordRow(GetTimeStamp(stamp2), second)]
  {
    var path := ThisMonthFilePath(recordsDir, initAt);
    var d1 := InitEffect(d, recordsDir, initAt).1;
    InitFreshMonthFile(d, recordsDir, initAt);
    ThisMonthFilePathInjective(recordsDir, initAt, path1);
    ThisMonthFilePathInjective(recordsDir, initAt, path2);
    var line1 := RecordLine(GetTimeStamp(stamp1), first);
    var line2 := RecordLine(GetTimeStamp(stamp2), second);
    RunExtendsMonthFile(d1, recordsDir, first, stamp1, path1);
    var d2 := RunEffect(d1, recordsDir, Measured(first), stamp1, path1).1;
    assert d2.entries[path] == File(HEADER + line1);
    RunExtendsMonthFile(d2, recordsDir, second, stamp2, path2);
    var d3 := RunEffect(d2, recordsDir, Measured(second), stamp2, path2).1;
    assert d3.entries[path] == File(HEADER + line1 + line2);
    HeaderThenTwoRecords(GetTimeStamp(stamp1), first, GetTimeStamp(stamp2), second);
  }

  /** The lines of a month file holding the header and then one record. */
  lemma HeaderThenOneRecord(timeStamp: string, reading: Reading)
    requires ',' !in timeStamp && '\n' !in timeStamp
    ensures Rows(HEADER + RecordLine(timeStamp, reading)) == ["datetime,temp,humidity", RecordRow(timeStamp, reading)]
  {
    HeaderIsOneRow();
    RecordLineAddsOneRow(HEADER, timeStamp, reading);
  }

  /** The lines of a month file holding the header and then two records. */
  lemma HeaderThenTwoRecords(stamp1: string, first: Reading, stamp2: string, second: Reading)
    requires ',' !in stamp1 && '\n' !in stamp1 && ',' !in stamp2 && '\n' !in stamp2
    ensures Rows(HEADER + RecordLine(stamp1, first) + RecordLine(stamp2, second))
         == ["datetime,temp,humidity", RecordRow(stamp1, first), RecordRow(stamp2, second)]
  {
    HeaderIsOneRow();
    RecordLineAddsOneRow(HEADER, stamp1, first);
    RecordLineAddsOneRow(HEADER + RecordLine(stamp1, first), stamp2, second);
  }
}
