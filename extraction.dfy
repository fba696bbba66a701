/**
 * The extraction loop of `main`: for each configured entry, validate it, compute its row
 * window, walk the rows, resolve each row's key, value and group, and append the pair to
 * the shared aggregation store.
 *
 * The pure functions below state what one entry and one run do; the methods `ProcessEntry`
 * and `Run` are the loops of `main`, proved to compute exactly those functions.
 */
module Extraction {
  import opened Wrappers
  import opened Cells
  import opened Store

  /**
   * One configured extraction job. Column letters are already resolved to zero-based
   * column indices; `groupBy` None is the JSON null ("do not group").
   */
  datatype Entry = Entry(
    fileName: Option<string>,
    sheet: int32,
    rowStart: int32,
    rowEnd: int32,
    columnKey: nat,
    columnValue: nat,
    groupBy: Option<nat>)

  /** The workbooks that open, by file name; opening any other name fails. */
  type Files = map<string, Workbook>

  /** `rowEnd` value meaning "through the sheet's last row". */
  const ALL_ROWS: int := -1

  datatype SkipReason = NoFileName | CannotOpen | BadSheetIndex | BadRowEnd

  /**
   * What the checks before the row loop decide for one entry: skip it, abort the run
   * (an exception nothing catches), or walk the rows `first ..= last` of `sheet`.
   */
  datatype Start =
    | Skip(reason: SkipReason)
    | Crash
    | Begin(sheet: Sheet, first: int, last: int)

  /** The outcome of the whole run or of one entry: the store, or an uncaught exception. */
  datatype Outcome = Done(buckets: Buckets) | Aborted

  function Min(a: int, b: int): int {
    if a <= b then a else b
  }

  /** `entry.getRowStart() - 1` in Java `int` arithmetic: the zero-based first row. */
  function FirstRow(rowStart: int32): (r: int)
    ensures INT_MIN <= r <= INT_MAX
    ensures (r - (rowStart as int - 1)) % 0x1_0000_0000 == 0
    ensures rowStart as int > INT_MIN ==> r == rowStart as int - 1
  {
    if rowStart as int == INT_MIN then INT_MAX else rowStart as int - 1
  }

  /**
   * The zero-based last row the loop visits, or None when the entry's `rowEnd` is invalid.
   * `rowEnd` is one-based and inclusive, hence the `- 1`.
   */
  function WindowEnd(rowStart: int, rowEnd: int, lastRowNum: int): (r: Option<int>)
    ensures rowEnd == ALL_ROWS ==> r == Some(lastRowNum)
    ensures rowEnd != ALL_ROWS ==> (r.None? <==> rowEnd < 0 || rowEnd < rowStart)
    ensures r.Some? ==> r.value <= lastRowNum
    ensures r.Some? && rowEnd != ALL_ROWS ==>
              r.value <= rowEnd - 1 && (r.value == lastRowNum || r.value == rowEnd - 1)
  {
    if rowEnd == ALL_ROWS then Some(lastRowNum)
    else if rowEnd < 0 || rowEnd < rowStart then None
    else Some(Min(lastRowNum, rowEnd - 1))
  }

  /** `main`'s sheet-index check; it lets `index == count` through. */
  predicate SheetIndexPasses(index: int, count: nat) {
    !(index < 0 || index > count)
  }

  /**
   * The entry-level checks, in the order `main` makes them: file name, opening the workbook, the
   * sheet index, `getSheetAt` (which throws for the one index past the end that the check
   * admits), and the row end.
   */
  function Validate(e: Entry, files: Files): (s: Start)
    ensures e.fileName.None? ==> s == Skip(NoFileName)
    ensures e.fileName.Some? && e.fileName.value !in files ==> s == Skip(CannotOpen)
    ensures s == Skip(BadSheetIndex) <==>
              e.fileName.Some? && e.fileName.value in files &&
              !SheetIndexPasses(e.sheet as int, |files[e.fileName.value].sheets|)
    ensures s.Crash? <==>
              e.fileName.Some? && e.fileName.value in files &&
              e.sheet as int == |files[e.fileName.value].sheets|
    ensures s.Begin? ==>
              e.fileName.Some? && e.fileName.value in files &&
              0 <= e.sheet as int < |files[e.fileName.value].sheets| &&
              s.sheet == files[e.fileName.value].sheets[e.sheet] &&
              s.first == FirstRow(e.rowStart) &&
              WindowEnd(e.rowStart as int, e.rowEnd as int, s.sheet.lastRowNum as int) == Some(s.last)
    ensures s == Skip(BadRowEnd) ==> e.rowEnd as int != ALL_ROWS && (e.rowEnd < 0 || e.rowEnd < e.rowStart)
    ensures e.fileName.Some? && e.fileName.value in files && 0 <= e.sheet as int < |files[e.fileName.value].sheets| ==>
              var lastRowNum := files[e.fileName.value].sheets[e.sheet].lastRowNum as int;
              (s.Begin? <==> WindowEnd(e.rowStart as int, e.rowEnd as int, lastRowNum).Some?) &&
              (!s.Begin? ==> s == Skip(BadRowEnd))
  {
    match e.fileName
    case None => Skip(NoFileName)
    case Some(name) =>
      if name !in files then Skip(CannotOpen)
      else
        var workbook := files[name];
        if !SheetIndexPasses(e.sheet as int, |workbook.sheets|) then Skip(BadSheetIndex)
        else if e.sheet as int == |workbook.sheets| then Crash
        else
          var sheet := workbook.sheets[e.sheet];
          match WindowEnd(e.rowStart as int, e.rowEnd as int, sheet.lastRowNum as int)
          case None => Skip(BadRowEnd)
          case Some(last) => Begin(sheet, FirstRow(e.rowStart), last)
  }

  /** A group resolved for one row, with the carried-forward value after it; or an exception. */
  datatype Grouping = Grouped(group: string, last: Option<string>) | GroupCrash

  /** The group cell exists and `getStringCellValue` gives a non-empty string for it. */
  predicate HasGroupText(cell: Option<Cell>) {
    cell.Some? && cell.value.stringCellValue.Some? && cell.value.stringCellValue.value != ""
  }

  /**
   * The group of a row whose key and value are non-empty. `last` is `lastGroupbyValue`.
   * A group cell that is not a string or blank cell makes `getStringCellValue` throw.
   */
  function ResolveGroup(groupBy: Option<nat>, row: Row, expand: bool, last: Option<string>): (g: Grouping)
    ensures groupBy.None? ==> g == Grouped("", last)
    ensures g.GroupCrash? <==>
              groupBy.Some? && row.GetCell(groupBy.value).Some? &&
              row.GetCell(groupBy.value).value.stringCellValue.None?
    ensures groupBy.Some? && row.GetCell(groupBy.value).Some? ==>
              var text := row.GetCell(groupBy.value).value.stringCellValue;
              text.Some? && text.value != "" ==> g == Grouped(text.value, text)
    ensures groupBy.Some? && !HasGroupText(row.GetCell(groupBy.value)) && g.Grouped? ==>
              g.last == last &&
              (if expand && last.Some? && last.value != "" then g.group == last.value else g.group == "")
    ensures g.Grouped? && g.last != last ==> g.last == Some(g.group) && g.group != ""
  {
    match groupBy
    case None => Grouped("", last)
    case Some(col) =>
      var cell := row.GetCell(col);
      if cell.Some? && cell.value.stringCellValue.None? then GroupCrash
      else if cell.Some? && cell.value.stringCellValue.value != "" then
        Grouped(cell.value.stringCellValue.value, cell.value.stringCellValue)
      else if expand && last.Some? && last.value != "" then Grouped(last.value, last)
      else Grouped("", last)
  }

  /** What one row of the window does: nothing, an exception, or one pair for one group. */
  datatype RowResult = Skipped | RowCrash | Emit(group: string, pair: KeyValuePair, last: Option<string>)

  function KeyText(e: Entry, row: Row): string {
    GetString(row.GetCell(e.columnKey))
  }

  function ValueText(e: Entry, row: Row): string {
    GetString(row.GetCell(e.columnValue))
  }

  /** One iteration of the row loop, for the row `sheet.getRow(i)` and `lastGroupbyValue`. */
  function ProcessRow(e: Entry, expand: bool, row: Option<Row>, last: Option<string>): (r: RowResult)
    ensures row.None? ==> r == Skipped
    ensures row.Some? ==> (r.Skipped? <==> KeyText(e, row.value) == "" || ValueText(e, row.value) == "")
    ensures r.Emit? ==>
              r.pair == KeyValuePair(KeyText(e, row.value), ValueText(e, row.value)) &&
              r.pair.key != "" && r.pair.value != "" &&
              ResolveGroup(e.groupBy, row.value, expand, last) == Grouped(r.group, r.last)
    ensures r.RowCrash? <==>
              row.Some? && KeyText(e, row.value) != "" && ValueText(e, row.value) != "" &&
              ResolveGroup(e.groupBy, row.value, expand, last).GroupCrash?
  {
    match row
    case None => Skipped
    case Some(rw) =>
      var keyStr := KeyText(e, rw);
      var valueStr := ValueText(e, rw);
      if keyStr == "" then Skipped
      else if valueStr == "" then Skipped
      else
        match ResolveGroup(e.groupBy, rw, expand, last)
        case GroupCrash => RowCrash
        case Grouped(group, last') => Emit(group, KeyValuePair(keyStr, valueStr), last')
  }

  /** The loop state: the store and `lastGroupbyValue`, or stopped by an exception. */
  datatype State = Running(buckets: Buckets, last: Option<string>) | Halted

  function Step(s: State, e: Entry, expand: bool, row: Option<Row>): State {
    match s
    case Halted => Halted
    case Running(m, last) =>
      match ProcessRow(e, expand, row, last)
      case Skipped => s
      case RowCrash => Halted
      case Emit(group, kv, last') => Running(AddPair(m, group, kv), last')
  }

  /**
   * The state after the rows `first .. i-1` of `sheet`, starting from the store `m` and
   * `lastGroupbyValue == null`.
   */
  function RowsUpTo(e: Entry, sheet: Sheet, expand: bool, m: Buckets, first: int, i: int): State
    decreases i - first
  {
    if i <= first then Running(m, None)
    else Step(RowsUpTo(e, sheet, expand, m, first, i - 1), e, expand, sheet.GetRow(i - 1))
  }

  /** One past the last row the loop visits. */
  function WindowStop(first: int, last: int): int {
    if last < first then first else last + 1
  }

  /** Once an exception is thrown no later row runs. */
  lemma {:induction false} HaltedStays(e: Entry, sheet: Sheet, expand: bool, m: Buckets, first: int, i: int, j: int)
    requires i <= j
    requires RowsUpTo(e, sheet, expand, m, first, i) == Halted
    ensures RowsUpTo(e, sheet, expand, m, first, j) == Halted
    decreases j - i
  {
    if i < j {
      HaltedStays(e, sheet, expand, m, first, i, j - 1);
      assert j > first;
    }
  }

  /** One loop body of `main` over the entries, starting from the store `m`. */
  function ProcessEntrySpec(m: Buckets, e: Entry, files: Files, expand: bool): (r: Outcome)
    ensures Validate(e, files).Skip? ==> r == Done(m)
    ensures Validate(e, files).Crash? ==> r.Aborted?
  {
    match Validate(e, files)
    case Skip(_) => Done(m)
    case Crash => Aborted
    case Begin(sheet, first, last) =>
      match RowsUpTo(e, sheet, expand, m, first, WindowStop(first, last))
      case Halted => Aborted
      case Running(m', _) => Done(m')
  }

  /** All entries in order, threading the one shared store through them. */
  function RunSpec(m: Buckets, entries: seq<Entry>, files: Files, expand: bool): Outcome
    decreases |entries|
  {
    if entries == [] then Done(m)
    else
      match ProcessEntrySpec(m, entries[0], files, expand)
      case Aborted => Aborted
      case Done(m') => RunSpec(m', entries[1..], files, expand)
  }

  /**
   * The body of the loop over entries in `main`: the checks, then the row loop with its
   * `continue`-based skips and `lastGroupbyValue`, appending into `store`.
   * `aborted` is an exception escaping `main`.
   */
  method ProcessEntry(store: AggregationStore, e: Entry, files: Files, expand: bool) returns (aborted: bool)
    modifies store
    ensures aborted <==> ProcessEntrySpec(old(store.buckets), e, files, expand).Aborted?
    ensures !aborted ==> store.buckets == ProcessEntrySpec(old(store.buckets), e, files, expand).buckets
  {
    aborted := false;
    if e.fileName.None? {
      return;
    }
    var name := e.fileName.value;
    if name !in files {
      return;  // InvalidFormatException or IOException from WorkbookFactory.create
    }
    var workbook := files[name];
    if e.sheet < 0 || e.sheet as int > |workbook.sheets| {
      return;
    }
    if e.sheet as int == |workbook.sheets| {
      aborted := true;  // getSheetAt throws
      return;
    }
    var sheet := workbook.sheets[e.sheet];

    var rowEnd: int;
    if e.rowEnd as int == ALL_ROWS {
      rowEnd := sheet.lastRowNum as int;
    } else if e.rowEnd < 0 || e.rowEnd < e.rowStart {
      return;
    } else {
      rowEnd := Min(sheet.lastRowNum as int, e.rowEnd as int - 1);
    }

    ghost var m0 := old(store.buckets);
    var lastGroupbyValue: Option<string> := None;
    var first := FirstRow(e.rowStart);
    var i := first;
    while i <= rowEnd
      invariant first <= i <= WindowStop(first, rowEnd)
      invariant RowsUpTo(e, sheet, expand, m0, first, i) == Running(store.buckets, lastGroupbyValue)
    {
      var row := sheet.GetRow(i);
      if row.None? {
        i := i + 1;
        continue;
      }
      var keyStr := GetString(row.value.GetCell(e.columnKey));
      var valueStr := GetString(row.value.GetCell(e.columnValue));
      if keyStr == "" {
        i := i + 1;
        continue;
      }
      if valueStr == "" {
        i := i + 1;
        continue;
      }
      var groupBy := "";
      if e.groupBy.Some? {
        var groupByCell := row.value.GetCell(e.groupBy.value);
        if groupByCell.Some? && groupByCell.value.stringCellValue.None? {
          aborted := true;  // getStringCellValue throws
          HaltedStays(e, sheet, expand, m0, first, i + 1, WindowStop(first, rowEnd));
          return;
        }
        if groupByCell.Some? && groupByCell.value.stringCellValue.value != "" {
          groupBy := groupByCell.value.stringCellValue.value;
          lastGroupbyValue := Some(groupBy);
        } else if expand && lastGroupbyValue.Some? && lastGroupbyValue.value != "" {
          groupBy := lastGroupbyValue.value;
        }
      }
      store.Add(groupBy, KeyValuePair(keyStr, valueStr));
      i := i + 1;
    }
  }

  /** `main` from the creation of the map to the end of the loop over entries. */
  method Run(entries: seq<Entry>, files: Files, expand: bool) returns (store: AggregationStore, aborted: bool)
    ensures aborted <==> RunSpec(map[], entries, files, expand).Aborted?
    ensures !aborted ==> store.buckets == RunSpec(map[], entries, files, expand).buckets
  {
    store := new AggregationStore();
    aborted := false;
    for k := 0 to |entries|
      invariant RunSpec(store.buckets, entries[k..], files, expand) == RunSpec(map[], entries, files, expand)
    {
      assert entries[k..][1..] == entries[k + 1..];
      aborted := ProcessEntry(store, entries[k], files, expand);
      if aborted {
        return;
      }
    }
  }

}
