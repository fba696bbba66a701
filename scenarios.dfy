/**
 * Small concrete runs of the pipeline: carry-forward of the group column, merging of a group
 * across entries, skipping a row with an empty key, and the sheet index one past the end.
 */
module Scenarios {
  import opened Wrappers
  import opened Cells
  import opened Store
  import opened Extraction

  /** A string cell. */
  function Text(s: string): Cell {
    Cell(Some(Str(s)), Some(s))
  }

  /** A blank cell: the evaluator gives null and `getStringCellValue` gives "". */
  const BlankCell: Cell := Cell(None, Some(""))

  const K1V1: KeyValuePair := KeyValuePair("k1", "v1")
  const K2V2: KeyValuePair := KeyValuePair("k2", "v2")

  /** Columns A (group), B (key), C (value); the second row's group cell is blank. */
  const GroupedSheet: Sheet := Sheet(map[
    0 := Row(map[0 := Text("g1"), 1 := Text("k1"), 2 := Text("v1")]),
    1 := Row(map[0 := BlankCell, 1 := Text("k2"), 2 := Text("v2")])], 1)

  const GroupedFiles: Files := map["groups.xlsx" := Workbook([GroupedSheet])]

  /** All rows of the first sheet, key in B, value in C, grouped by A. */
  const GroupedEntry: Entry := Entry(Some("groups.xlsx"), 0, 1, -1, 1, 2, Some(0))

  lemma AddFirst(g: string, kv: KeyValuePair)
    ensures AddPair(map[], g, kv) == map[g := [kv]]
  {
    var r := AddPair(map[], g, kv);
    assert r.Keys == map[g := [kv]].Keys;
    assert r[g] == [kv];
  }

  lemma AddSame(g: string, s: seq<KeyValuePair>, kv: KeyValuePair)
    ensures AddPair(map[g := s], g, kv) == map[g := s + [kv]]
  {
    var r := AddPair(map[g := s], g, kv);
    assert r.Keys == map[g := s + [kv]].Keys;
    assert r[g] == s + [kv];
  }

  lemma AddOther(g: string, s: seq<KeyValuePair>, h: string, kv: KeyValuePair)
    requires h != g
    ensures AddPair(map[g := s], h, kv) == map[g := s, h := [kv]]
  {
    var r := AddPair(map[g := s], h, kv);
    assert r.Keys == map[g := s, h := [kv]].Keys;
    assert r[g] == s;
    assert r[h] == [kv];
  }

  /** With `expandGroupby` the blank group cell takes the group of the row above. */
  lemma CarryForwardOn()
    ensures RunSpec(map[], [GroupedEntry], GroupedFiles, true) == Done(map["g1" := [K1V1, K2V2]])
  {
    var row0 := GroupedSheet.rows[0];
    var row1 := GroupedSheet.rows[1];
    assert GroupedSheet.GetRow(0) == Some(row0);
    assert GroupedSheet.GetRow(1) == Some(row1);
    assert KeyText(GroupedEntry, row0) == "k1";
    assert ValueText(GroupedEntry, row0) == "v1";
    assert row0.GetCell(0) == Some(Text("g1"));
    assert ProcessRow(GroupedEntry, true, Some(row0), None) == Emit("g1", K1V1, Some("g1"));
    assert KeyText(GroupedEntry, row1) == "k2";
    assert ValueText(GroupedEntry, row1) == "v2";
    assert row1.GetCell(0) == Some(BlankCell);
    assert ProcessRow(GroupedEntry, true, Some(row1), Some("g1")) == Emit("g1", K2V2, Some("g1"));
    assert RowsUpTo(GroupedEntry, GroupedSheet, true, map[], 0, 0) == Running(map[], None);
    AddFirst("g1", K1V1);
    AddSame("g1", [K1V1], K2V2);
    assert Step(Running(map[], None), GroupedEntry, true, Some(row0)) == Running(map["g1" := [K1V1]], Some("g1"));
    assert RowsUpTo(GroupedEntry, GroupedSheet, true, map[], 0, 1) == Running(map["g1" := [K1V1]], Some("g1"));
    assert [K1V1] + [K2V2] == [K1V1, K2V2];
    assert Step(Running(map["g1" := [K1V1]], Some("g1")), GroupedEntry, true, Some(row1)) ==
           Running(map["g1" := [K1V1, K2V2]], Some("g1"));
    assert RowsUpTo(GroupedEntry, GroupedSheet, true, map[], 0, 2) == Running(map["g1" := [K1V1, K2V2]], Some("g1"));
  }

  /** Without `expandGroupby` the row with the blank group cell goes to the default group. */
  lemma CarryForwardOff()
    ensures RunSpec(map[], [GroupedEntry], GroupedFiles, false) == Done(map["g1" := [K1V1], "" := [K2V2]])
  {
    var row0 := GroupedSheet.rows[0];
    var row1 := GroupedSheet.rows[1];
    assert GroupedSheet.GetRow(0) == Some(row0);
    assert GroupedSheet.GetRow(1) == Some(row1);
    assert KeyText(GroupedEntry, row0) == "k1";
    assert ValueText(GroupedEntry, row0) == "v1";
    assert row0.GetCell(0) == Some(Text("g1"));
    assert ProcessRow(GroupedEntry, false, Some(row0), None) == Emit("g1", K1V1, Some("g1"));
    assert KeyText(GroupedEntry, row1) == "k2";
    assert ValueText(GroupedEntry, row1) == "v2";
    assert row1.GetCell(0) == Some(BlankCell);
    assert ProcessRow(GroupedEntry, false, Some(row1), Some("g1")) == Emit("", K2V2, Some("g1"));
    assert RowsUpTo(GroupedEntry, GroupedSheet, false, map[], 0, 0) == Running(map[], None);
    AddFirst("g1", K1V1);
    AddOther("g1", [K1V1], "", K2V2);
    assert Step(Running(map[], None), GroupedEntry, false, Some(row0)) == Running(map["g1" := [K1V1]], Some("g1"));
    assert RowsUpTo(GroupedEntry, GroupedSheet, false, map[], 0, 1) == Running(map["g1" := [K1V1]], Some("g1"));
    assert Step(Running(map["g1" := [K1V1]], Some("g1")), GroupedEntry, false, Some(row1)) ==
           Running(map["g1" := [K1V1], "" := [K2V2]], Some("g1"));
    assert RowsUpTo(GroupedEntry, GroupedSheet, false, map[], 0, 2) == Running(map["g1" := [K1V1], "" := [K2V2]], Some("g1"));
  }

  /** Rows 1 to 4 with keys in A and values in B; row 3's key cell is blank. */
  const PlainSheet: Sheet := Sheet(map[
    0 := Row(map[0 := Text("title"), 1 := Text("header")]),
    1 := Row(map[0 := Text("k1"), 1 := Text("v1")]),
    2 := Row(map[0 := BlankCell, 1 := Text("lost")]),
    3 := Row(map[0 := Text("k2"), 1 := Text("v2")])], 3)

  const PlainFiles: Files := map["plain.xlsx" := Workbook([PlainSheet])]

  /** Rows 2 to 4, no group column. */
  const PlainEntry: Entry := Entry(Some("plain.xlsx"), 0, 2, 4, 0, 1, None)

  /** The row with the blank key is skipped; the two others land in the default group. */
  lemma BlankKeySkipped()
    ensures RunSpec(map[], [PlainEntry], PlainFiles, false) == Done(map["" := [K1V1, K2V2]])
  {
    var row1 := PlainSheet.rows[1];
    var row2 := PlainSheet.rows[2];
    var row3 := PlainSheet.rows[3];
    assert Validate(PlainEntry, PlainFiles) == Begin(PlainSheet, 1, 3);
    assert PlainSheet.GetRow(1) == Some(row1);
    assert PlainSheet.GetRow(2) == Some(row2);
    assert PlainSheet.GetRow(3) == Some(row3);
    assert KeyText(PlainEntry, row1) == "k1";
    assert ValueText(PlainEntry, row1) == "v1";
    assert KeyText(PlainEntry, row2) == "";
    assert KeyText(PlainEntry, row3) == "k2";
    assert ValueText(PlainEntry, row3) == "v2";
    AddFirst("", K1V1);
    AddSame("", [K1V1], K2V2);
    assert [K1V1] + [K2V2] == [K1V1, K2V2];
    assert RowsUpTo(PlainEntry, PlainSheet, false, map[], 1, 1) == Running(map[], None);
    assert RowsUpTo(PlainEntry, PlainSheet, false, map[], 1, 2) == Running(map["" := [K1V1]], None);
    assert RowsUpTo(PlainEntry, PlainSheet, false, map[], 1, 3) == Running(map["" := [K1V1]], None);
    assert RowsUpTo(PlainEntry, PlainSheet, false, map[], 1, 4) == Running(map["" := [K1V1, K2V2]], None);
  }

  /** Two entries over sheets that both use the group "colors". */
  const ColorsSheet1: Sheet := Sheet(map[0 := Row(map[0 := Text("colors"), 1 := Text("k1"), 2 := Text("v1")])], 0)
  const ColorsSheet2: Sheet := Sheet(map[0 := Row(map[0 := Text("colors"), 1 := Text("k2"), 2 := Text("v2")])], 0)
  const ColorsFiles: Files := map["a.xlsx" := Workbook([ColorsSheet1]), "b.xlsx" := Workbook([ColorsSheet2])]
  const ColorsEntry1: Entry := Entry(Some("a.xlsx"), 0, 1, -1, 1, 2, Some(0))
  const ColorsEntry2: Entry := Entry(Some("b.xlsx"), 0, 1, -1, 1, 2, Some(0))

  /** A group name shared by two entries is one bucket, the first entry's pairs first. */
  lemma GroupsMergeAcrossEntries()
    ensures RunSpec(map[], [ColorsEntry1, ColorsEntry2], ColorsFiles, false) == Done(map["colors" := [K1V1, K2V2]])
  {
    var row1 := ColorsSheet1.rows[0];
    var row2 := ColorsSheet2.rows[0];
    assert ColorsSheet1.GetRow(0) == Some(row1);
    assert ColorsSheet2.GetRow(0) == Some(row2);
    assert row1.GetCell(0) == Some(Text("colors"));
    assert row2.GetCell(0) == Some(Text("colors"));
    assert KeyText(ColorsEntry1, row1) == "k1";
    assert ValueText(ColorsEntry1, row1) == "v1";
    assert KeyText(ColorsEntry2, row2) == "k2";
    assert ValueText(ColorsEntry2, row2) == "v2";
    AddFirst("colors", K1V1);
    AddSame("colors", [K1V1], K2V2);
    assert [K1V1] + [K2V2] == [K1V1, K2V2];
    assert Validate(ColorsEntry1, ColorsFiles) == Begin(ColorsSheet1, 0, 0);
    assert Validate(ColorsEntry2, ColorsFiles) == Begin(ColorsSheet2, 0, 0);
    assert RowsUpTo(ColorsEntry1, ColorsSheet1, false, map[], 0, 1) == Running(map["colors" := [K1V1]], Some("colors"));
    assert RowsUpTo(ColorsEntry2, ColorsSheet2, false, map["colors" := [K1V1]], 0, 1) ==
           Running(map["colors" := [K1V1, K2V2]], Some("colors"));
    assert ProcessEntrySpec(map[], ColorsEntry1, ColorsFiles, false) == Done(map["colors" := [K1V1]]);
    assert ProcessEntrySpec(map["colors" := [K1V1]], ColorsEntry2, ColorsFiles, false) == Done(map["colors" := [K1V1, K2V2]]);
    assert [ColorsEntry1, ColorsEntry2][1..] == [ColorsEntry2];
    assert [ColorsEntry2][1..] == [];
    assert RunSpec(map["colors" := [K1V1]], [ColorsEntry2], ColorsFiles, false) == Done(map["colors" := [K1V1, K2V2]]);
  }

  /**
   * A workbook with one sheet and an entry asking for sheet 1: the index check lets it
   * through, `getSheetAt(1)` throws, and the run ends without a store, the entry after it
   * never running.
   */
  lemma SheetOnePastEndAborts()
    ensures SheetIndexPasses(1, |PlainFiles["plain.xlsx"].sheets|)
    ensures RunSpec(map[], [PlainEntry.(sheet := 1), PlainEntry], PlainFiles, false) == Aborted
  {
  }

  /** An entry whose `rowEnd` is below its `rowStart` is skipped and the next entry still runs. */
  lemma BadRowEndSkipped()
    ensures RunSpec(map[], [PlainEntry.(rowStart := 4, rowEnd := 2), PlainEntry], PlainFiles, false) ==
            Done(map["" := [K1V1, K2V2]])
  {
    BlankKeySkipped();
    assert [PlainEntry.(rowStart := 4, rowEnd := 2), PlainEntry][1..] == [PlainEntry];
    assert [PlainEntry][1..] == [];
  }

}
