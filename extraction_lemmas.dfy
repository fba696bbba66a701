/**
 * Properties of the extraction pipeline: what one row, one entry and a whole run can do
 * to the aggregation store, and how the carried-forward group value evolves.
 */
module ExtractionLemmas {
  import opened Wrappers
  import opened Cells
  import opened Store
  import opened Extraction

  function Max(a: int, b: int): int {
    if a >= b then a else b
  }

  /** Every pair in the store has a non-empty key and a non-empty value. */
  ghost predicate PairsNonEmpty(m: Buckets) {
    forall g, j :: g in m && 0 <= j < |m[g]| ==> m[g][j].key != "" && m[g][j].value != ""
  }

  /**
   * Reference definition of `lastGroupbyValue` before row `i`: the group text of the latest
   * row in `first .. i-1` that exists, has a non-empty key and value, and has a non-empty
   * group cell; None when there is none.
   */
  ghost function LastGroupSeen(e: Entry, sheet: Sheet, first: int, i: int): (r: Option<string>)
    ensures r.Some? ==> r.value != ""
    decreases i - first
  {
    if i <= first then None
    else
      var row := sheet.GetRow(i - 1);
      if row.Some? && KeyText(e, row.value) != "" && ValueText(e, row.value) != "" &&
         e.groupBy.Some? && HasGroupText(row.value.GetCell(e.groupBy.value))
      then row.value.GetCell(e.groupBy.value).value.stringCellValue
      else LastGroupSeen(e, sheet, first, i - 1)
  }

  /**
   * One row: it adds at most one pair, only appends, and a null row or a row with an
   * empty key or value changes neither the store nor `lastGroupbyValue`.
   */
  lemma RowEffect(e: Entry, sheet: Sheet, expand: bool, m: Buckets, first: int, i: int)
    requires first <= i
    requires RowsUpTo(e, sheet, expand, m, first, i + 1).Running?
    ensures RowsUpTo(e, sheet, expand, m, first, i).Running?
    ensures
      var before := RowsUpTo(e, sheet, expand, m, first, i);
      var after := RowsUpTo(e, sheet, expand, m, first, i + 1);
      var row := sheet.GetRow(i);
      && Extends(before.buckets, after.buckets)
      && Total(after.buckets) <= Total(before.buckets) + 1
      && (row.None? || KeyText(e, row.value) == "" || ValueText(e, row.value) == "" ==> after == before)
      && (PairsNonEmpty(before.buckets) ==> PairsNonEmpty(after.buckets))
      && (e.groupBy.None? ==> after.buckets.Keys <= before.buckets.Keys + {""})
  {
    var before := RowsUpTo(e, sheet, expand, m, first, i);
    var row := sheet.GetRow(i);
    match ProcessRow(e, expand, row, before.last)
    case Skipped =>
    case RowCrash =>
    case Emit(group, kv, _) =>
      AddPairTotal(before.buckets, group, kv);
      var after: Buckets := AddPair(before.buckets, group, kv);
      forall g: string, j: int | g in after && 0 <= j < |after[g]| && PairsNonEmpty(before.buckets)
        ensures after[g][j].key != "" && after[g][j].value != ""
      {
        if g != group || j < |Bucket(before.buckets, group)| {
        }
      }
  }

  /**
   * The rows `first .. i-1` only append to the store, add at most one pair each, keep every
   * pair non-empty, and without a group column use only the default group "".
   */
  lemma {:induction false} RowsGrowth(e: Entry, sheet: Sheet, expand: bool, m: Buckets, first: int, i: int)
    requires RowsUpTo(e, sheet, expand, m, first, i).Running?
    ensures
      var m' := RowsUpTo(e, sheet, expand, m, first, i).buckets;
      && Extends(m, m')
      && Total(m') <= Total(m) + Max(0, i - first)
      && (PairsNonEmpty(m) ==> PairsNonEmpty(m'))
      && (e.groupBy.None? ==> m'.Keys <= m.Keys + {""})
    decreases i - first
  {
    if i > first {
      RowEffect(e, sheet, expand, m, first, i - 1);
      RowsGrowth(e, sheet, expand, m, first, i - 1);
    }
  }

  /**
   * `lastGroupbyValue` before row `i` is the group text of the latest earlier row of the
   * entry that reached the group step with a non-empty group cell; it never depends on
   * `expandGroupby`, and is never the empty string.
   */
  lemma {:induction false} CarriedGroup(e: Entry, sheet: Sheet, expand: bool, m: Buckets, first: int, i: int)
    requires RowsUpTo(e, sheet, expand, m, first, i).Running?
    ensures RowsUpTo(e, sheet, expand, m, first, i).last == LastGroupSeen(e, sheet, first, i)
    decreases i - first
  {
    if i > first {
      RowEffect(e, sheet, expand, m, first, i - 1);
      CarriedGroup(e, sheet, expand, m, first, i - 1);
    }
  }

  /**
   * The group a row's pair goes to, stated over the sheet alone: the row's own non-empty
   * group text; else, with `expandGroupby`, the group text of the latest earlier row that
   * had one; else "".
   */
  lemma RowGroup(e: Entry, sheet: Sheet, expand: bool, m: Buckets, first: int, i: int)
    requires first <= i
    requires RowsUpTo(e, sheet, expand, m, first, i).Running?
    requires e.groupBy.Some?
    ensures
      var r := ProcessRow(e, expand, sheet.GetRow(i), RowsUpTo(e, sheet, expand, m, first, i).last);
      var seen := LastGroupSeen(e, sheet, first, i);
      r.Emit? ==>
        var cell := sheet.GetRow(i).value.GetCell(e.groupBy.value);
        r.group == (if HasGroupText(cell) then cell.value.stringCellValue.value
                    else if expand && seen.Some? then seen.value
                    else "")
  {
    CarriedGroup(e, sheet, expand, m, first, i);
  }

  /**
   * One entry only appends to the store and keeps its pairs non-empty. It adds at most one
   * pair per row of its window, so with an explicit `rowEnd` at most `rowEnd - rowStart + 1`.
   */
  lemma EntryGrowth(m: Buckets, e: Entry, files: Files, expand: bool)
    requires ProcessEntrySpec(m, e, files, expand).Done?
    ensures
      var m' := ProcessEntrySpec(m, e, files, expand).buckets;
      && Extends(m, m')
      && (PairsNonEmpty(m) ==> PairsNonEmpty(m'))
      && (e.groupBy.None? ==> m'.Keys <= m.Keys + {""})
      && (e.rowEnd as int != ALL_ROWS ==> Total(m') <= Total(m) + Max(0, e.rowEnd as int - e.rowStart as int + 1))
  {
    match Validate(e, files)
    case Skip(_) =>
    case Crash =>
    case Begin(sheet, first, last) =>
      RowsGrowth(e, sheet, expand, m, first, WindowStop(first, last));
  }

  /** An entry without a file name, with a bad sheet index or with a bad row end leaves the store as it was. */
  lemma SkippedEntry(m: Buckets, e: Entry, files: Files, expand: bool)
    requires e.fileName.None? ||
             (e.fileName.value in files && (e.sheet < 0 || e.sheet as int > |files[e.fileName.value].sheets|)) ||
             (e.rowEnd as int != ALL_ROWS && (e.rowEnd < 0 || e.rowEnd < e.rowStart) &&
              e.fileName.value in files && 0 <= e.sheet as int < |files[e.fileName.value].sheets|)
    ensures ProcessEntrySpec(m, e, files, expand) == Done(m)
  {
  }

  /** Running entries `a` then `b` is running `a`, then running `b` on the resulting store. */
  lemma {:induction false} RunAppend(m: Buckets, a: seq<Entry>, b: seq<Entry>, files: Files, expand: bool)
    ensures RunSpec(m, a + b, files, expand) ==
            match RunSpec(m, a, files, expand)
            case Aborted => Aborted
            case Done(m') => RunSpec(m', b, files, expand)
    decreases |a|
  {
    if a != [] {
      assert (a + b)[0] == a[0];
      assert (a + b)[1..] == a[1..] + b;
      match ProcessEntrySpec(m, a[0], files, expand)
      case Aborted =>
      case Done(m') => RunAppend(m', a[1..], b, files, expand);
    } else {
      assert a + b == b;
    }
  }

  /**
   * A run only appends: each bucket of the store it starts from is a prefix of the bucket
   * at the end, every pair is non-empty, and without any group column only "" is used.
   */
  lemma {:induction false} RunGrowth(m: Buckets, entries: seq<Entry>, files: Files, expand: bool)
    requires RunSpec(m, entries, files, expand).Done?
    ensures
      var m' := RunSpec(m, entries, files, expand).buckets;
      && Extends(m, m')
      && (PairsNonEmpty(m) ==> PairsNonEmpty(m'))
      && ((forall k :: 0 <= k < |entries| ==> entries[k].groupBy.None?) ==> m'.Keys <= m.Keys + {""})
    decreases |entries|
  {
    if entries != [] {
      EntryGrowth(m, entries[0], files, expand);
      var m1 := ProcessEntrySpec(m, entries[0], files, expand).buckets;
      RunGrowth(m1, entries[1..], files, expand);
    }
  }

  /**
   * The pairs of earlier entries come before those of later ones in every bucket: the store
   * after `a` is extended, never rewritten, by the entries `b` that follow.
   */
  lemma EarlierEntriesFirst(a: seq<Entry>, b: seq<Entry>, files: Files, expand: bool)
    requires RunSpec(map[], a + b, files, expand).Done?
    ensures RunSpec(map[], a, files, expand).Done?
    ensures Extends(RunSpec(map[], a, files, expand).buckets, RunSpec(map[], a + b, files, expand).buckets)
  {
    RunAppend(map[], a, b, files, expand);
    RunGrowth(RunSpec(map[], a, files, expand).buckets, b, files, expand);
  }

  /** Every pair the whole run stores has a non-empty key and a non-empty value. */
  lemma RunPairsNonEmpty(entries: seq<Entry>, files: Files, expand: bool)
    requires RunSpec(map[], entries, files, expand).Done?
    ensures PairsNonEmpty(RunSpec(map[], entries, files, expand).buckets)
  {
    RunGrowth(map[], entries, files, expand);
  }

}
