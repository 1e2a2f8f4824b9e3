/**
 * Where the workbooks put their rows: the per-folder "Folder Summary"
 * sheet of `save_to_excel` and the "Aggregated Summary" sheet of
 * `save_aggregated_summary`. A sheet is its sequence of rows, row 1
 * first; a row is its cells, column A first; a row never written is empty.
 * Fonts and borders are not modelled.
 */
module ReportLayout {
  import opened FolderScan
  import opened ColumnWidth
  import Aggregate

  type Row = seq<Cell>

  const DELETED_TITLE: string := "Gelöschte Dateien / Deleted files"

  function TextRow(texts: seq<string>): (row: Row)
    ensures |row| == |texts|
  {
    seq(|texts|, i requires 0 <= i < |texts| => Text(texts[i]))
  }

  /** The header row of a deleted-files table. */
  function DeletedHeaderRow(): Row {
    TextRow(["Dateiname", "Ordnername", "Dateityp", "Löschdatum", "Dateigröße"])
  }

  /** The header row `DataFrame(summary_data).to_excel` writes. */
  function SummaryHeaderRow(): Row {
    TextRow(["Ordnername", "Number of subfolders", "Number of files", "Number of PDF files",
             "Number of JPEG files", "Number of other files", "Number of deleted files"])
  }

  /** The header row of the aggregate table. */
  function AggregateHeaderRow(): Row {
    TextRow(["Invoice name", "Number of subfolders", "Number of files before deletion incl. Inventory file",
             "Number of PDF files", "Number of JPEG files", "Number of other files", "Number of deleted files"])
  }

  function RecordRow(r: DeletedRecord): Row {
    [Text(r.fileName), Text(r.folderName), Text(r.fileType), Text(r.deletedAt), Text(r.sizeText)]
  }

  function StatsRow(s: FolderStats): Row {
    [Text(s.folderName), Number(s.subfolders), Number(s.files), Number(s.pdf),
     Number(s.jpeg), Number(s.other), Number(s.deleted)]
  }

  function AggregateValueRow(a: Aggregate.AggregateRow): Row {
    [Text(a.invoiceName), Number(a.subfolders), Number(a.filesInclInventory), Number(a.pdf),
     Number(a.jpeg), Number(a.other), Number(a.deleted)]
  }

  function RecordRows(records: seq<DeletedRecord>): (rows: seq<Row>)
    ensures |rows| == |records|
  {
    if records == [] then [] else RecordRows(records[..|records| - 1]) + [RecordRow(records[|records| - 1])]
  }

  function StatsRows(stats: seq<FolderStats>): (rows: seq<Row>)
    ensures |rows| == |stats|
  {
    if stats == [] then [] else StatsRows(stats[..|stats| - 1]) + [StatsRow(stats[|stats| - 1])]
  }

  /** Writes a row at (1-based) row number r; rows between the old end and r are left empty. */
  function PutRow(rows: seq<Row>, r: nat, row: Row): (out: seq<Row>)
    requires r >= 1
    ensures |out| == if r <= |rows| then |rows| else r
    ensures out[r - 1] == row
    ensures forall k :: 0 <= k < |rows| && k != r - 1 ==> out[k] == rows[k]
    ensures forall k :: |rows| <= k < r - 1 ==> out[k] == []
  {
    if r <= |rows| then rows[r - 1 := row]
    else rows + seq(r - 1 - |rows|, _ => []) + [row]
  }

  /** `for r_idx, row in enumerate(..., start=r)`: the records' rows from row number r on. */
  function PutRecords(rows: seq<Row>, r: nat, records: seq<DeletedRecord>): seq<Row>
    requires r >= 1
    decreases |records|
  {
    if records == [] then rows
    else PutRecords(PutRow(rows, r, RecordRow(records[0])), r + 1, records[1..])
  }

  /** Records written just below the last row are appended. */
  lemma {:induction false} PutRecordsAppends(rows: seq<Row>, records: seq<DeletedRecord>)
    ensures PutRecords(rows, |rows| + 1, records) == rows + RecordRows(records)
    decreases |records|
  {
    if records == [] {
      assert rows + RecordRows(records) == rows;
    } else {
      var next := rows + [RecordRow(records[0])];
      assert PutRow(rows, |rows| + 1, RecordRow(records[0])) == next;
      PutRecordsAppends(next, records[1..]);
      RecordRowsCons(records);
    }
  }

  lemma {:induction false} RecordRowsCons(records: seq<DeletedRecord>)
    requires records != []
    ensures RecordRows(records) == [RecordRow(records[0])] + RecordRows(records[1..])
  {
    if |records| > 1 {
      var init := records[..|records| - 1];
      RecordRowsCons(init);
      assert init[1..] == records[1..][..|records[1..]| - 1];
    } else {
      assert records[1..] == [];
      assert records[..0] == [];
    }
  }

  /**
   * `save_to_excel`'s sheet: the summary table from row 1, then the title
   * at `max_row + 2`, the deleted-files header below it, and the records
   * below that.
   */
  function FolderSheet(summary: seq<FolderStats>, local: seq<DeletedRecord>): seq<Row> {
    var table := [SummaryHeaderRow()] + StatsRows(summary);
    var startRow := |table| + 2;
    var headerRow := startRow + 1;
    var withHeader := PutRow(PutRow(table, startRow, [Text(DELETED_TITLE)]), headerRow, DeletedHeaderRow());
    if local != [] then PutRecords(withHeader, headerRow + 1, local) else withHeader
  }

  /**
   * The folder sheet is the summary table, ONE empty row, the title, the
   * header and the records: for the one summary row a folder has, the
   * title is row 4, the header row 5 and the records start at row 6.
   */
  lemma FolderSheetRows(summary: seq<FolderStats>, local: seq<DeletedRecord>)
    ensures FolderSheet(summary, local) ==
      [SummaryHeaderRow()] + StatsRows(summary) + [[], [Text(DELETED_TITLE)], DeletedHeaderRow()] + RecordRows(local)
    ensures |summary| == 1 ==>
              && FolderSheet(summary, local)[3] == [Text(DELETED_TITLE)]
              && FolderSheet(summary, local)[4] == DeletedHeaderRow()
              && FolderSheet(summary, local)[5..] == RecordRows(local)
  {
    var table := [SummaryHeaderRow()] + StatsRows(summary);
    var startRow := |table| + 2;
    var withTitle := PutRow(table, startRow, [Text(DELETED_TITLE)]);
    assert withTitle == table + [[], [Text(DELETED_TITLE)]];
    var withHeader := PutRow(withTitle, startRow + 1, DeletedHeaderRow());
    assert withHeader == table + [[], [Text(DELETED_TITLE)], DeletedHeaderRow()];
    PutRecordsAppends(withHeader, local);
    if local == [] {
      assert withHeader + RecordRows(local) == withHeader;
    }
  }

  /**
   * The aggregate sheet: the aggregate table in rows 1-2, then, only when
   * some PDF was deleted, the deleted-files header at row `1 + 3` and the
   * records below it. No title row is written here.
   */
  function AggregateSheet(row: Aggregate.AggregateRow, deleted: seq<DeletedRecord>): seq<Row> {
    var table := [AggregateHeaderRow(), AggregateValueRow(row)];
    var headerRow := 1;
    var table' := PutRow(table, headerRow, AggregateHeaderRow());
    var startRow := headerRow + 3;
    if deleted != [] then PutRecords(PutRow(table', startRow, DeletedHeaderRow()), startRow + 1, deleted)
    else table'
  }

  /** Row 3 is the only empty row; the header is row 4 and the records start at row 5 exactly when the list is not empty. */
  lemma AggregateSheetRows(row: Aggregate.AggregateRow, deleted: seq<DeletedRecord>)
    ensures AggregateSheet(row, deleted) ==
      [AggregateHeaderRow(), AggregateValueRow(row)]
      + (if deleted != [] then [[], DeletedHeaderRow()] + RecordRows(deleted) else [])
  {
    var table := [AggregateHeaderRow(), AggregateValueRow(row)];
    assert PutRow(table, 1, AggregateHeaderRow()) == table;
    if deleted != [] {
      var withHeader := PutRow(table, 4, DeletedHeaderRow());
      assert withHeader == table + [[], DeletedHeaderRow()];
      PutRecordsAppends(withHeader, deleted);
    } else {
      assert table + [] == table;
    }
  }

  /** The number of columns of a sheet (`max_column`): the length of its longest row, 0 for an empty sheet. */
  function ColumnCount(rows: seq<Row>): (n: nat)
    ensures forall r :: 0 <= r < |rows| ==> |rows[r]| <= n
    ensures rows == [] ==> n == 0
    ensures rows != [] ==> exists r :: 0 <= r < |rows| && |rows[r]| == n
  {
    if rows == [] then 0 else Max(ColumnCount(rows[..|rows| - 1]), |rows[|rows| - 1]|)
  }

  /** `sheet.columns`: column c's cells from row 1 to the last row, Empty where a row is shorter. */
  function ColumnCells(rows: seq<Row>, c: nat): (cells: seq<Cell>)
    ensures |cells| == |rows|
  {
    seq(|rows|, r requires 0 <= r < |rows| => if c < |rows[r]| then rows[r][c] else Empty)
  }

  function Columns(rows: seq<Row>): (columns: seq<seq<Cell>>)
    ensures |columns| == ColumnCount(rows)
  {
    seq(ColumnCount(rows), c requires 0 <= c < ColumnCount(rows) => ColumnCells(rows, c))
  }

  /** Column A of a folder sheet is wide enough for the deleted-files title. */
  lemma FolderSheetTitleFits(summary: seq<FolderStats>, local: seq<DeletedRecord>)
    ensures var columns := Columns(FolderSheet(summary, local));
      |columns| > 0 && MaxRenderedLength(columns[0]) >= |DELETED_TITLE|
  {
    var rows := FolderSheet(summary, local);
    FolderSheetRows(summary, local);
    var k := |summary| + 2;
    assert rows[k] == [Text(DELETED_TITLE)];
    var column := ColumnCells(rows, 0);
    assert column[k] == Text(DELETED_TITLE);
    MaxRenderedLengthBounds(column);
  }

  /**
   * `save_to_excel` for the sheet itself: the rows laid out as above, then
   * `adjust_column_width` over its columns.
   */
  method SaveFolderSheet(summary: seq<FolderStats>, local: seq<DeletedRecord>) returns (sheet: Sheet)
    ensures fresh(sheet)
    ensures sheet.columns == Columns(FolderSheet(summary, local))
    ensures forall c :: 0 <= c < |sheet.columns| ==>
      c in sheet.widths && sheet.widths[c] == MaxRenderedLength(sheet.columns[c]) + 2
  {
    sheet := new Sheet(Columns(FolderSheet(summary, local)));
    sheet.AdjustColumnWidths();
  }

  /** The sheet part of `save_aggregated_summary`: the aggregate layout, then `adjust_column_width`. */
  method SaveAggregateSheet(row: Aggregate.AggregateRow, deleted: seq<DeletedRecord>) returns (sheet: Sheet)
    ensures fresh(sheet)
    ensures sheet.columns == Columns(AggregateSheet(row, deleted))
    ensures forall c :: 0 <= c < |sheet.columns| ==>
      c in sheet.widths && sheet.widths[c] == MaxRenderedLength(sheet.columns[c]) + 2
  {
    sheet := new Sheet(Columns(AggregateSheet(row, deleted)));
    sheet.AdjustColumnWidths();
  }
}
