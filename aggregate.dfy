/**
 * The arithmetic of `save_aggregated_summary`: the one-row aggregate table
 * built from the run's summary rows, and the choice of the aggregate
 * workbook's file name from the root label.
 */
module Aggregate {
  import opened FolderScan
  import RootLabel

  /** The numeric columns of a folder's summary row. */
  datatype Column = Subfolders | Files | Pdf | Jpeg | Other | Deleted

  /** The column's header in the summary table. */
  function Header(col: Column): string {
    match col
    case Subfolders => "Number of subfolders"
    case Files => "Number of files"
    case Pdf => "Number of PDF files"
    case Jpeg => "Number of JPEG files"
    case Other => "Number of other files"
    case Deleted => "Number of deleted files"
  }

  function Field(row: FolderStats, col: Column): nat {
    match col
    case Subfolders => row.subfolders
    case Files => row.files
    case Pdf => row.pdf
    case Jpeg => row.jpeg
    case Other => row.other
    case Deleted => row.deleted
  }

  /** `summary_df[<column>].sum()` */
  function ColumnSum(rows: seq<FolderStats>, col: Column): nat {
    if rows == [] then 0 else ColumnSum(rows[..|rows| - 1], col) + Field(rows[|rows| - 1], col)
  }

  /** Summing two runs of rows one after the other is summing each. */
  lemma {:induction false} ColumnSumConcat(a: seq<FolderStats>, b: seq<FolderStats>, col: Column)
    ensures ColumnSum(a + b, col) == ColumnSum(a, col) + ColumnSum(b, col)
  {
    if b != [] {
      ColumnSumConcat(a, b[..|b| - 1], col);
      assert (a + b)[..|a + b| - 1] == a + b[..|b| - 1];
    } else {
      assert a + b == a;
    }
  }

  /** Every row adds its own value to the column sum, so the sum bounds each value. */
  lemma {:induction false} ColumnSumBoundsRows(rows: seq<FolderStats>, col: Column, k: nat)
    requires k < |rows|
    ensures Field(rows[k], col) <= ColumnSum(rows, col)
  {
    if k < |rows| - 1 {
      ColumnSumBoundsRows(rows[..|rows| - 1], col, k);
    }
  }

  /** Over consistent rows the column sums add up like each row does. */
  lemma {:induction false} ConsistentColumnSums(rows: seq<FolderStats>)
    requires forall k :: 0 <= k < |rows| ==> Consistent(rows[k])
    ensures ColumnSum(rows, Pdf) + ColumnSum(rows, Jpeg) + ColumnSum(rows, Other) == ColumnSum(rows, Files)
    ensures ColumnSum(rows, Deleted) == ColumnSum(rows, Pdf)
  {
    if rows != [] {
      ConsistentColumnSums(rows[..|rows| - 1]);
      assert Consistent(rows[|rows| - 1]);
    }
  }

  /** The one data row of the "Aggregated Summary" table. */
  datatype AggregateRow = AggregateRow(
    invoiceName: string,
    subfolders: nat,
    filesInclInventory: nat,
    pdf: nat,
    jpeg: nat,
    other: nat,
    deleted: nat)

  /**
   * The error result of a run without summary rows: `DataFrame([])` has no
   * columns, so the lookup of the "Number of files" column (line 161) is
   * the first step to fail. The text the error box then shows is not
   * modelled.
   */
  datatype SummaryError = MissingColumn(column: string)

  datatype Result<T> = Ok(value: T) | Failure(error: SummaryError)

  /**
   * The aggregate row for the run's summary rows: the label, the folders
   * counter passed in, and the column sums, with one more file for the
   * aggregate workbook itself. Fails when no folder contributed a row.
   */
  function AggregateSummary(name: string, rows: seq<FolderStats>, excelCount: nat): (r: Result<AggregateRow>)
    ensures r.Failure? <==> rows == []
    ensures r.Failure? ==> r.error == MissingColumn(Header(Files))
    ensures r.Ok? ==> r.value.invoiceName == name && r.value.subfolders == excelCount
  {
    if rows == [] then Failure(MissingColumn(Header(Files)))
    else
      Ok(AggregateRow(name, excelCount, ColumnSum(rows, Files) + 1, ColumnSum(rows, Pdf),
                      ColumnSum(rows, Jpeg), ColumnSum(rows, Other), ColumnSum(rows, Deleted)))
  }

  /**
   * When the rows come from the scan (each consistent), the aggregate row
   * adds up: its files are its PDFs, JPEGs and others plus the aggregate
   * workbook, and every PDF counted was deleted.
   */
  lemma AggregateAddsUp(name: string, rows: seq<FolderStats>, excelCount: nat)
    requires rows != []
    requires forall k :: 0 <= k < |rows| ==> Consistent(rows[k])
    ensures var r := AggregateSummary(name, rows, excelCount);
      r.Ok?
      && r.value.filesInclInventory == r.value.pdf + r.value.jpeg + r.value.other + 1
      && r.value.deleted == r.value.pdf
  {
    ConsistentColumnSums(rows);
  }

  /** A folder's counts appear in the aggregate: no column total is below any folder's value. */
  lemma AggregateCoversEveryFolder(name: string, rows: seq<FolderStats>, excelCount: nat, k: nat)
    requires k < |rows|
    ensures var r := AggregateSummary(name, rows, excelCount);
      r.Ok?
      && rows[k].files < r.value.filesInclInventory
      && rows[k].pdf <= r.value.pdf && rows[k].jpeg <= r.value.jpeg
      && rows[k].other <= r.value.other && rows[k].deleted <= r.value.deleted
  {
    ColumnSumBoundsRows(rows, Files, k);
    ColumnSumBoundsRows(rows, Pdf, k);
    ColumnSumBoundsRows(rows, Jpeg, k);
    ColumnSumBoundsRows(rows, Other, k);
    ColumnSumBoundsRows(rows, Deleted, k);
  }

  /** One more folder's row raises each total by that folder's value. */
  lemma AggregateOfOneMoreRow(name: string, rows: seq<FolderStats>, row: FolderStats, excelCount: nat)
    requires rows != []
    ensures var before := AggregateSummary(name, rows, excelCount).value;
      var after := AggregateSummary(name, rows + [row], excelCount + 1).value;
      after.filesInclInventory == before.filesInclInventory + row.files
      && after.pdf == before.pdf + row.pdf && after.jpeg == before.jpeg + row.jpeg
      && after.other == before.other + row.other && after.deleted == before.deleted + row.deleted
      && after.subfolders == before.subfolders + 1
  {
    ColumnSumConcat(rows, [row], Files);
    ColumnSumConcat(rows, [row], Pdf);
    ColumnSumConcat(rows, [row], Jpeg);
    ColumnSumConcat(rows, [row], Other);
    ColumnSumConcat(rows, [row], Deleted);
  }

  const PLAIN_FILE_NAME: string := "Inventory.xlsx"

  /** `"Inventory.xlsx" if folder_name == "Inventory" else f"Inventory_{folder_name}.xlsx"` */
  function SummaryFileName(name: string): (fileName: string)
    ensures fileName == PLAIN_FILE_NAME <==> name == RootLabel.DEFAULT_LABEL
    ensures fileName != PLAIN_FILE_NAME ==> fileName == "Inventory_" + name + ".xlsx"
  {
    if name == RootLabel.DEFAULT_LABEL then PLAIN_FILE_NAME
    else
      var fileName := "Inventory_" + name + ".xlsx";
      assert fileName[9] != PLAIN_FILE_NAME[9];
      fileName
  }

  /** Distinct labels give distinct workbook names, so two runs with different labels never overwrite each other's file. */
  lemma SummaryFileNameInjective(a: string, b: string)
    requires SummaryFileName(a) == SummaryFileName(b)
    ensures a == b
  {
    if a != RootLabel.DEFAULT_LABEL && b != RootLabel.DEFAULT_LABEL {
      var fa := SummaryFileName(a);
      assert a == fa[10..|fa| - 5];
      assert b == fa[10..|fa| - 5];
    }
  }

  /** The plain name "Inventory.xlsx" is chosen exactly when no component of the selected path starts with "Re". */
  lemma PlainFileNameIffNoReComponent(path: string)
    ensures SummaryFileName(RootLabel.FindReFolder(path)) == PLAIN_FILE_NAME <==>
      forall k :: 0 <= k < |RootLabel.Components(path)| ==> !RootLabel.StartsWithRe(RootLabel.Components(path)[k])
  {
    RootLabel.DefaultLabelIff(path);
  }
}
