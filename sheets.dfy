/**
 * The spreadsheet sink of `src/structures/Sheets.ts`: a document whose tabs are keyed by
 * title, one tab per month titled `YYYY-MM 温湿度`, created with a three-column header and
 * extended by one row per record. The loaded document is a map from title to tab; the
 * remote calls behind it (authentication, loading, saving) are not part of this model.
 */
module SpreadsheetTabs {
  import opened Clock
  import opened Sensor

  datatype Row = Row(timeStamp: string, temperature: Numeral, humidity: Numeral)

  datatype Tab = Tab(header: seq<string>, rows: seq<Row>)

  type Tabs = map<string, Tab>

  const COLUMNS: seq<string> := ["日時", "温度", "湿度"]
  const TITLE_SUFFIX := " 温湿度"
  const ALREADY_CREATED := "This month sheet is already created."
  const NOT_CREATED := "This month sheet has not been created. Run <Sheet>.createThisMonthSheet() before run this."
  /** The `TypeError` text of Node 16.9 and later; older versions word it differently. */
  const UNDEFINED_SHEET := "Cannot read properties of undefined (reading 'addRow')"

  /**
   * What a method throws: an `Error` it raises itself, the document refusing a tab whose
   * title is taken, or the `TypeError` of using a sheet that is `undefined`.
   */
  datatype SheetError = Thrown(message: string) | AddSheetRejected(title: string) | TypeError(message: string)

  datatype Outcome = Ok | Threw(error: SheetError)

  /** The JavaScript values the guard of `addRecord` works on, and their truthiness. */
  datatype JsValue = JsUndefined | JsBool(b: bool) | JsPromise(settlesTo: JsValue)

  predicate Truthy(v: JsValue)
  {
    match v
    case JsUndefined => false
    case JsBool(b) => b
    case JsPromise(_) => true
  }

  /** `createThisMonthSheet`, checking with the clock at `checkAt` and adding at `createAt`. */
  function CreateEffect(tabs: Tabs, checkAt: Instant, createAt: Instant): (Outcome, Tabs)
  {
    if Sheets.ThisMonthSheetName(checkAt) in tabs then (Threw(Thrown(ALREADY_CREATED)), tabs)
    else
      var title := Sheets.ThisMonthSheetName(createAt);
      if title in tabs then (Threw(AddSheetRejected(title)), tabs)
      else (Ok, tabs[title := Tab(COLUMNS, [])])
  }

  /** `addRecord` with the clock at `at` when it looks the sheet up. */
  function AddRecordEffect(tabs: Tabs, at: Instant, timeStamp: string, temperature: Numeral, humidity: Numeral)
    : (Outcome, Tabs)
  {
    var title := Sheets.ThisMonthSheetName(at);
    if title !in tabs then (Threw(TypeError(UNDEFINED_SHEET)), tabs)
    else (Ok, tabs[title := tabs[title].(rows := tabs[title].rows + [Row(timeStamp, temperature, humidity)])])
  }

  class Sheets {
    const sheetId: string
    var tabs: Tabs

    /** A handle on the document `sheetId`, whose tabs once loaded are `loaded`. */
    constructor (sheetId: string, loaded: Tabs)
      ensures this.sheetId == sheetId && tabs == loaded
    {
      this.sheetId := sheetId;
      tabs := loaded;
    }

    /** `getThisMonthSheetName`: the month key of the clock reading and a fixed suffix. */
    static function ThisMonthSheetName(now: Instant): (title: string)
      ensures |title| == 7 + |TITLE_SUFFIX|
      ensures title[..7] == MonthKey(now, '-') && title[7..] == TITLE_SUFFIX
    {
      MonthKey(now, '-') + TITLE_SUFFIX
    }

    method IsExistsThisMonthSheet(now: Instant) returns (found: bool)
      ensures found <==> ThisMonthSheetName(now) in tabs
    {
      var shouldExistsSheetTitle := ThisMonthSheetName(now);
      found := shouldExistsSheetTitle in tabs;
    }

    method CreateThisMonthSheet(checkAt: Instant, createAt: Instant) returns (r: Outcome)
      modifies this
      ensures (r, tabs) == CreateEffect(old(tabs), checkAt, createAt)
      ensures r.Ok? ==> |tabs| == |old(tabs)| + 1
    {
      var found := IsExistsThisMonthSheet(checkAt);
      if found {
        return Threw(Thrown(ALREADY_CREATED));
      }
      var title := ThisMonthSheetName(createAt);
      if title in tabs {
        return Threw(AddSheetRejected(title));
      }
      tabs := tabs[title := Tab(COLUMNS, [])];
      r := Ok;
    }

    /**
     * `addRecord`: the clock is read at `checkAt` by the existence check in the guard and
     * again at `at` when the sheet is looked up.
     */
    method AddRecord(checkAt: Instant, at: Instant, timeStamp: string, temperature: Numeral, humidity: Numeral) returns (r: Outcome)
      modifies this
      ensures (r, tabs) == AddRecordEffect(old(tabs), at, timeStamp, temperature, humidity)
      ensures r != Threw(Thrown(NOT_CREATED))
    {
      // The guard negates the promise the async check returns, not the boolean it settles to.
      var check := JsPromise(JsBool(ThisMonthSheetName(checkAt) in tabs));
      GuardNeverFires(ThisMonthSheetName(checkAt) in tabs);
      var guard := !Truthy(check);
      var title := ThisMonthSheetName(at);
      if guard || title !in tabs {
        r := if guard then Threw(Thrown(NOT_CREATED)) else Threw(TypeError(UNDEFINED_SHEET));
        return;
      }
      var sheet := tabs[title];
      tabs := tabs[title := sheet.(rows := sheet.rows + [Row(timeStamp, temperature, humidity)])];
      r := Ok;
    }
  }

  /** The negated promise is false whatever the check settles to, so the guard never throws. */
  lemma GuardNeverFires(found: bool)
    ensures !(!Truthy(JsPromise(JsBool(found))))
  {
  }

  /** Two readings of the clock give the same tab title exactly when they share year and month. */
  lemma SheetNameInjective(a: Instant, b: Instant)
    ensures Sheets.ThisMonthSheetName(a) == Sheets.ThisMonthSheetName(b) <==> SameMonth(a, b)
  {
    MonthKeyInjective(a, b, '-');
    if Sheets.ThisMonthSheetName(a) == Sheets.ThisMonthSheetName(b) {
      assert MonthKey(a, '-') == Sheets.ThisMonthSheetName(a)[..7];
    }
  }

  /** Creating a tab that already exists throws and leaves the document as it was. */
  lemma CreateOnExistingTabThrows(tabs: Tabs, checkAt: Instant, createAt: Instant)
    requires Sheets.ThisMonthSheetName(checkAt) in tabs
    ensures CreateEffect(tabs, checkAt, createAt) == (Threw(Thrown(ALREADY_CREATED)), tabs)
  {
  }

  /**
   * Creating an absent tab, with the check and the creation reading the clock in the same
   * month, adds exactly that tab, with the three-column header and no rows, and leaves
   * every other tab as it was.
   */
  lemma CreateAddsOneTab(tabs: Tabs, checkAt: Instant, createAt: Instant)
    requires SameMonth(checkAt, createAt)
    requires Sheets.ThisMonthSheetName(createAt) !in tabs
    ensures var (r, tabs') := CreateEffect(tabs, checkAt, createAt);
      var title := Sheets.ThisMonthSheetName(createAt);
      && r == Ok
      && tabs'.Keys == tabs.Keys + {title}
      && tabs'[title] == Tab(COLUMNS, [])
      && forall t :: t in tabs ==> tabs'[t] == tabs[t]
  {
    SheetNameInjective(checkAt, createAt);
  }

  /**
   * After a successful create, the tab exists for any reading in the month of the
   * creation, and a second create in that month throws.
   */
  lemma CreateThenExistsAndSecondThrows(tabs: Tabs, checkAt: Instant, createAt: Instant,
                                        again: Instant, againCreate: Instant)
    requires CreateEffect(tabs, checkAt, createAt).0 == Ok
    requires SameMonth(createAt, again)
    ensures var tabs' := CreateEffect(tabs, checkAt, createAt).1;
      && Sheets.ThisMonthSheetName(again) in tabs'
      && CreateEffect(tabs', again, againCreate) == (Threw(Thrown(ALREADY_CREATED)), tabs')
  {
    SheetNameInjective(createAt, again);
  }

  /**
   * The title is taken from the clock at each call: once the month has changed, the new
   * month's tab is missing although last month's tab is still there, so a record fails.
   */
  lemma MonthChangeLeavesNewTabMissing(tabs: Tabs, checkAt: Instant, createAt: Instant, later: Instant,
                                       timeStamp: string, temperature: Numeral, humidity: Numeral)
    requires CreateEffect(tabs, checkAt, createAt).0 == Ok
    requires !SameMonth(createAt, later)
    requires Sheets.ThisMonthSheetName(later) !in tabs
    ensures var tabs' := CreateEffect(tabs, checkAt, createAt).1;
      && Sheets.ThisMonthSheetName(createAt) in tabs'
      && Sheets.ThisMonthSheetName(later) !in tabs'
      && AddRecordEffect(tabs', later, timeStamp, temperature, humidity) == (Threw(TypeError(UNDEFINED_SHEET)), tabs')
  {
    SheetNameInjective(createAt, later);
  }

  /**
   * A record on an existing tab adds exactly one row, the record, at the end of this
   * month's tab; its header and every other tab stay as they were.
   */
  lemma AddRecordAppendsOneRow(tabs: Tabs, at: Instant, timeStamp: string, temperature: Numeral, humidity: Numeral)
    requires Sheets.ThisMonthSheetName(at) in tabs
    ensures var (r, tabs') := AddRecordEffect(tabs, at, timeStamp, temperature, humidity);
      var title := Sheets.ThisMonthSheetName(at);
      && r == Ok
      && tabs'.Keys == tabs.Keys
      && tabs'[title].header == tabs[title].header
      && |tabs'[title].rows| == |tabs[title].rows| + 1
      && tabs'[title].rows[..|tabs[title].rows|] == tabs[title].rows
      && tabs'[title].rows[|tabs[title].rows|] == Row(timeStamp, temperature, humidity)
      && forall t :: t in tabs && t != title ==> tabs'[t] == tabs[t]
  {
  }

  /**
   * Without this month's tab a record fails on the `undefined` sheet, not with the
   * "has not been created" error, and nothing is appended anywhere.
   */
  lemma AddRecordWithoutTab(tabs: Tabs, at: Instant, timeStamp: string, temperature: Numeral, humidity: Numeral)
    requires Sheets.ThisMonthSheetName(at) !in tabs
    ensures AddRecordEffect(tabs, at, timeStamp, temperature, humidity) == (Threw(TypeError(UNDEFINED_SHEET)), tabs)
  {
  }
}
