/**
  `_adjust_column_widths`: every column of every worksheet is made as wide
  as its longest cell, written out with `str`, plus 2.
 */
module ColumnWidths {

  /** What a worksheet cell holds, as far as its width is concerned. */
  datatype CellValue = Empty | Text(text: string) | Integer(n: int)

  function Digits(n: nat): (s: string)
    ensures |s| > 0
  {
    var d := [('0' as int + n % 10) as char];
    if n < 10 then d else Digits(n / 10) + d
  }

  /** Python's `str` of a cell value; an empty cell (`None`) reads "None". */
  function Str(v: CellValue): string {
    match v
    case Empty => "None"
    case Text(s) => s
    case Integer(n) => if n < 0 then "-" + Digits(-n) else Digits(n)
  }

  /** `len(str(cell.value))`. */
  function Width(v: CellValue): nat {
    |Str(v)|
  }

  /** `max(len(str(cell.value)) for cell in column_cells)`. */
  function MaxLength(cells: seq<CellValue>): (m: nat)
    requires |cells| > 0
    ensures forall i | 0 <= i < |cells| :: Width(cells[i]) <= m
  {
    if |cells| == 1 then Width(cells[0])
    else
      var init := cells[..|cells| - 1];
      var m, last := MaxLength(init), Width(cells[|cells| - 1]);
      assert forall i | 0 <= i < |init| :: init[i] == cells[i];
      if m < last then last else m
  }

  /** The maximum is attained: some cell is exactly that long. */
  lemma {:induction false} MaxLengthIsAttained(cells: seq<CellValue>)
    requires |cells| > 0
    ensures exists i | 0 <= i < |cells| :: Width(cells[i]) == MaxLength(cells)
  {
    if |cells| > 1 {
      var init := cells[..|cells| - 1];
      MaxLengthIsAttained(init);
      var i :| 0 <= i < |init| && Width(init[i]) == MaxLength(init);
      assert init[i] == cells[i];
      if MaxLength(init) < Width(cells[|cells| - 1]) {
        assert Width(cells[|cells| - 1]) == MaxLength(cells);
      } else {
        assert Width(cells[i]) == MaxLength(cells);
      }
    } else {
      assert Width(cells[0]) == MaxLength(cells);
    }
  }

  /** The generator loop computing one column's longest cell. */
  method ColumnMaxLength(cells: seq<CellValue>) returns (m: nat)
    requires |cells| > 0
    ensures forall i | 0 <= i < |cells| :: Width(cells[i]) <= m
    ensures exists i | 0 <= i < |cells| :: Width(cells[i]) == m
    ensures m == MaxLength(cells)
  {
    m := Width(cells[0]);
    var i := 1;
    while i < |cells|
      invariant 1 <= i <= |cells|
      invariant forall j | 0 <= j < i :: Width(cells[j]) <= m
      invariant exists j | 0 <= j < i :: Width(cells[j]) == m
    {
      var len := Width(cells[i]);
      if m < len {
        m := len;
      }
      i := i + 1;
    }
    var j :| 0 <= j < |cells| && Width(cells[j]) == m;
    MaxLengthIsAttained(cells);
    var k :| 0 <= k < |cells| && Width(cells[k]) == MaxLength(cells);
  }

  /** openpyxl never yields an empty column: it holds at least the header cell. */
  predicate NoEmptyColumn(columns: seq<seq<CellValue>>) {
    forall c | 0 <= c < |columns| :: |columns[c]| > 0
  }

  /** The width of every column, by column position (0 for column A). */
  function FittedWidths(columns: seq<seq<CellValue>>): map<nat, int>
    requires NoEmptyColumn(columns)
  {
    map c | 0 <= c < |columns| :: MaxLength(columns[c]) + 2
  }

  class Worksheet {
    /** The cells of each column, header cell first. */
    const columns: seq<seq<CellValue>>
    /** `column_dimensions[...].width`, by column position. */
    var columnWidths: map<nat, int>

    constructor (columns: seq<seq<CellValue>>)
      requires NoEmptyColumn(columns)
      ensures this.columns == columns && columnWidths == map[]
    {
      this.columns := columns;
      columnWidths := map[];
    }
  }

  /** `after` is `before` with the fitted widths of the first `c` columns written over it. */
  ghost predicate FittedUpTo(before: map<nat, int>, columns: seq<seq<CellValue>>, after: map<nat, int>, c: nat)
    requires NoEmptyColumn(columns)
    requires c <= |columns|
  {
    && (forall k: nat :: k in after <==> k in before || k < c)
    && (forall k | k in after :: after[k] == if k < c then MaxLength(columns[k]) + 2 else before[k])
  }

  /** Writing the next column's width extends the fitted prefix by one. */
  lemma FittedUpToStep(before: map<nat, int>, columns: seq<seq<CellValue>>, after: map<nat, int>, c: nat)
    requires NoEmptyColumn(columns)
    requires c < |columns|
    requires FittedUpTo(before, columns, after, c)
    ensures FittedUpTo(before, columns, after[c := MaxLength(columns[c]) + 2], c + 1)
  {
  }

  /** Once every column is written, the widths are `before + FittedWidths(columns)`. */
  lemma FittedUpToAll(before: map<nat, int>, columns: seq<seq<CellValue>>, after: map<nat, int>)
    requires NoEmptyColumn(columns)
    requires FittedUpTo(before, columns, after, |columns|)
    ensures after == before + FittedWidths(columns)
  {
    var fitted := before + FittedWidths(columns);
    assert forall k: nat :: k in fitted <==> k in after;
    assert forall k | k in fitted :: fitted[k] == after[k];
  }

  /** The inner loop over one worksheet's columns. */
  method AdjustSheet(sheet: Worksheet)
    requires NoEmptyColumn(sheet.columns)
    modifies sheet
    ensures sheet.columnWidths == old(sheet.columnWidths) + FittedWidths(sheet.columns)
  {
    ghost var before := sheet.columnWidths;
    var columns := sheet.columns;
    var c := 0;
    while c < |columns|
      invariant 0 <= c <= |columns|
      invariant FittedUpTo(before, columns, sheet.columnWidths, c)
    {
      var m := ColumnMaxLength(columns[c]);
      FittedUpToStep(before, columns, sheet.columnWidths, c);
      sheet.columnWidths := sheet.columnWidths[c := m + 2];
      c := c + 1;
    }
    FittedUpToAll(before, columns, sheet.columnWidths);
  }

  /** `_adjust_column_widths(workbook)`: every sheet, every column. */
  method AdjustColumnWidths(workbook: seq<Worksheet>)
    requires forall i | 0 <= i < |workbook| :: NoEmptyColumn(workbook[i].columns)
    requires forall i, j | 0 <= i < j < |workbook| :: workbook[i] != workbook[j]
    modifies set i | 0 <= i < |workbook| :: workbook[i]
    ensures forall i | 0 <= i < |workbook| ::
      workbook[i].columnWidths == old(workbook[i].columnWidths) + FittedWidths(workbook[i].columns)
  {
    var s := 0;
    while s < |workbook|
      invariant 0 <= s <= |workbook|
      invariant forall i | 0 <= i < s ::
        workbook[i].columnWidths == old(workbook[i].columnWidths) + FittedWidths(workbook[i].columns)
      invariant forall i | s <= i < |workbook| :: workbook[i].columnWidths == old(workbook[i].columnWidths)
    {
      AdjustSheet(workbook[s]);
      s := s + 1;
    }
  }

  /** Each width is the longest cell plus 2: no cell is wider, and some cell is exactly that wide. */
  lemma FittedWidthsFit(columns: seq<seq<CellValue>>, c: nat)
    requires NoEmptyColumn(columns)
    requires c < |columns|
    ensures c in FittedWidths(columns)
    ensures forall i | 0 <= i < |columns[c]| :: Width(columns[c][i]) + 2 <= FittedWidths(columns)[c]
    ensures exists i | 0 <= i < |columns[c]| :: Width(columns[c][i]) + 2 == FittedWidths(columns)[c]
  {
    MaxLengthIsAttained(columns[c]);
  }

  /** A cell holding no value reads "None", so a column of one such cell is 6 wide. */
  lemma EmptyColumnExample()
    ensures MaxLength([Empty]) + 2 == 6
  {
  }

  /** A date column with its header and an empty cell is 12 wide. */
  lemma DateColumnExample()
    ensures MaxLength([Text("Datum"), Text("2024-01-25"), Empty]) + 2 == 12
  {
    var col := [Text("Datum"), Text("2024-01-25"), Empty];
    assert col[..2][..1] == [Text("Datum")];
    assert col[..2] == [Text("Datum"), Text("2024-01-25")];
  }
}
