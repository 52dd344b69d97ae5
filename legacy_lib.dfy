/**
 * The older JavaScript library `lib.js`. Its `init` and `readPin` behave as those of
 * `src/lib.ts`; its `recordDataToCSV` appends the record WITHOUT a newline, so records
 * written one after another run together on a single line.
 */
module LegacyLib {
  import opened Text
  import opened Clock
  import opened Paths
  import opened Outcomes
  import opened Fs
  import opened Sensor
  import opened CsvStore

  /** `recordDataToCSV` of `lib.js`: one `appendFile` of the bare record. */
  function LegacyRecordEffect(d: Disk, timeStamp: string, reading: Reading, fileName: Path): (Status, Disk)
  {
    AppendFileOf(d, fileName, RecordRow(timeStamp, reading))
  }

  method RecordDataToCsv(fs: FileSystem, timeStamp: string, reading: Reading, fileName: Path) returns (r: Status)
    requires fs.Valid()
    modifies fs
    ensures fs.Valid()
    ensures (r, fs.State()) == LegacyRecordEffect(old(fs.State()), timeStamp, reading, fileName)
  {
    r := fs.AppendFile(fileName, RecordRow(timeStamp, reading));
  }

  /**
   * `init` of `lib.js`, which builds the month file path inline rather than through a
   * helper: it has exactly the effect of `init` in `src/lib.ts`.
   */
  method Init(fs: FileSystem, recordsDir: Path, now: Instant) returns (r: Status)
    requires fs.Valid()
    modifies fs
    ensures fs.Valid()
    ensures (r, fs.State()) == InitEffect(old(fs.State()), recordsDir, now)
  {
    r := EnsureDirectory(fs, recordsDir);
    if r.Failed? {
      return;
    }
    var thisMonthFilePath := Join(recordsDir, "temp-watchdog_" + MonthKey(now, '-') + "_records.csv");
    assert thisMonthFilePath == ThisMonthFilePath(recordsDir, now);
    r := EnsureMonthFile(fs, thisMonthFilePath);
  }

  /** A record appended without a newline extends the unterminated last line and adds none. */
  lemma RecordWithoutNewline(text: string, timeStamp: string, reading: Reading)
    requires '\n' !in timeStamp
    ensures Rows(text + RecordRow(timeStamp, reading)) == Rows(text)
    ensures Pending(text + RecordRow(timeStamp, reading)) == Pending(text) + RecordRow(timeStamp, reading)
  {
    var row := RecordRow(timeStamp, reading);
    assert forall i :: 0 <= i < |row| ==> row[i] != '\n' by {
      assert row == timeStamp + [','] + reading.temperature + [','] + reading.humidity;
    }
    AppendFragment(text, row);
  }

  /**
   * Two successive `recordDataToCSV` calls on a writable file: both succeed, no line is
   * added, and the two records end up side by side on the file's last line.
   */
  lemma TwoRecordsShareOneLine(d: Disk, fileName: Path, stamp1: string, first: Reading,
                               stamp2: string, second: Reading)
    requires Writable(d, fileName)
    requires '\n' !in stamp1 && '\n' !in stamp2
    ensures var r1 := LegacyRecordEffect(d, stamp1, first, fileName);
      var r2 := LegacyRecordEffect(r1.1, stamp2, second, fileName);
      var text := TextAt(d, fileName);
      && r1.0 == Done && r2.0 == Done && r2.1.entries[fileName].File?
      && Rows(r2.1.entries[fileName].text) == Rows(text)
      && Pending(r2.1.entries[fileName].text)
         == Pending(text) + RecordRow(stamp1, first) + RecordRow(stamp2, second)
  {
    var text := TextAt(d, fileName);
    var row1, row2 := RecordRow(stamp1, first), RecordRow(stamp2, second);
    var d1 := LegacyRecordEffect(d, stamp1, first, fileName).1;
    assert TextAt(d1, fileName) == text + row1 && Writable(d1, fileName);
    RecordWithoutNewline(text, stamp1, first);
    RecordWithoutNewline(text + row1, stamp2, second);
  }

  /** After the header, two records written by `lib.js` share the second line of the file. */
  lemma HeaderThenTwoLegacyRecords(stamp1: string, first: Reading, stamp2: string, second: Reading)
    requires '\n' !in stamp1 && '\n' !in stamp2
    ensures Rows(HEADER + RecordRow(stamp1, first) + RecordRow(stamp2, second)) == ["datetime,temp,humidity"]
    ensures Pending(HEADER + RecordRow(stamp1, first) + RecordRow(stamp2, second))
         == RecordRow(stamp1, first) + RecordRow(stamp2, second)
  {
    HeaderIsOneRow();
    var row1, row2 := RecordRow(stamp1, first), RecordRow(stamp2, second);
    RecordWithoutNewline(HEADER, stamp1, first);
    assert Rows(HEADER + row1) == ["datetime,temp,humidity"];
    assert Pending(HEADER + row1) == row1 by {
      assert Pending(HEADER) + row1 == "" + row1 == row1;
    }
    RecordWithoutNewline(HEADER + row1, stamp2, second);
  }
}
