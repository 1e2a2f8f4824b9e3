/**
 * `main`: pick the root label from the selected path, scan every folder of
 * the walk that holds files, count the per-folder workbooks, and build the
 * aggregate row and the aggregate workbook's name.
 *
 * The walk is given as the sequence of its folders, top-down, each a
 * distinct `Folder` object; the dialog's answer is the selected path, ""
 * when the dialog was cancelled.
 */
module Inventory {
  import opened FileKinds
  import opened FolderScan
  import RootLabel
  import Aggregate
  import ReportLayout

  /** A folder of the walk as it was before the run: its name, its subfolder count and its files. */
  datatype FolderView = FolderView(name: string, subfolders: nat, files: seq<FileEntry>)

  /** The walk's folders as values. */
  function Views(walk: seq<Folder>): (views: seq<FolderView>)
    reads walk
    ensures |views| == |walk|
  {
    seq(|walk|, i requires 0 <= i < |walk| reads walk => FolderView(walk[i].name, walk[i].subfolders, walk[i].files))
  }

  /** The view is the folder as it stands. */
  predicate Shows(folder: Folder, view: FolderView)
    reads folder
  {
    view == FolderView(folder.name, folder.subfolders, folder.files)
  }

  /** The summary rows the folder adds to `aggregated_data`: one if it holds files, else none. */
  function FolderRows(view: FolderView): seq<FolderStats> {
    if |view.files| > 0 then [ScanStats(view.name, view.subfolders, view.files)] else []
  }

  /** `aggregated_data` after the walk: the rows of the folders with files, in walk order. */
  function RunRows(views: seq<FolderView>): (rows: seq<FolderStats>)
    ensures |rows| <= |views|
  {
    if views == [] then [] else RunRows(views[..|views| - 1]) + FolderRows(views[|views| - 1])
  }

  /** `deleted_files_data` after the walk: every folder's PDF records, in walk order. */
  function RunRecords(views: seq<FolderView>, now: string): seq<DeletedRecord> {
    if views == [] then []
    else
      var last := views[|views| - 1];
      RunRecords(views[..|views| - 1], now) + PdfRecords(last.files, last.name, now)
  }

  /** Reference count: the folders of the walk that hold at least one file. */
  function FoldersWithFiles(views: seq<FolderView>): nat {
    if views == [] then 0
    else FoldersWithFiles(views[..|views| - 1]) + (if |views[|views| - 1].files| > 0 then 1 else 0)
  }

  /** What the run ends with, as `main` reports it. */
  datatype Outcome =
    | NoDirectorySelected
    | Completed(excelCount: nat, summaryFileName: string, summary: Aggregate.AggregateRow, deleted: seq<DeletedRecord>)
    | Failed(error: Aggregate.SummaryError)

  /** How a run with these summary rows, workbook count and deleted records ends. */
  function Conclusion(name: string, rows: seq<FolderStats>, excelCount: nat, records: seq<DeletedRecord>): Outcome {
    match Aggregate.AggregateSummary(name, rows, excelCount)
    case Failure(e) => Failed(e)
    case Ok(row) => Completed(excelCount, Aggregate.SummaryFileName(name), row, records)
  }

  /** The outcome of a run over these folders with this root label. */
  function RunOutcome(name: string, views: seq<FolderView>, now: string): Outcome {
    var rows := RunRows(views);
    Conclusion(name, rows, |rows|, RunRecords(views, now))
  }

  /** One more folder of the walk: its rows and records follow those of the folders before it. */
  lemma RunStep(views: seq<FolderView>, i: nat, now: string)
    requires i < |views|
    ensures RunRows(views[..i + 1]) == RunRows(views[..i]) + FolderRows(views[i])
    ensures RunRecords(views[..i + 1], now) == RunRecords(views[..i], now) + PdfRecords(views[i].files, views[i].name, now)
  {
    assert views[..i + 1][..i] == views[..i];
  }

  /** `excel_subfolders_count` counts exactly the folders that hold files. */
  lemma {:induction false} RunRowsCountFolders(views: seq<FolderView>)
    ensures |RunRows(views)| == FoldersWithFiles(views)
  {
    if views != [] {
      RunRowsCountFolders(views[..|views| - 1]);
    }
  }

  /** Every row of the run is the consistent summary row of a folder. */
  lemma {:induction false} RunRowsConsistent(views: seq<FolderView>)
    ensures forall k :: 0 <= k < |RunRows(views)| ==> Consistent(RunRows(views)[k])
  {
    if views != [] {
      var init := views[..|views| - 1];
      RunRowsConsistent(init);
      var rows := RunRows(views);
      assert forall k :: 0 <= k < |RunRows(init)| ==> rows[k] == RunRows(init)[k];
    }
  }

  /** The run's deleted list holds one record per PDF counted in the rows. */
  lemma {:induction false} RunRecordsMatchPdfColumn(views: seq<FolderView>, now: string)
    ensures |RunRecords(views, now)| == Aggregate.ColumnSum(RunRows(views), Aggregate.Pdf)
  {
    if views != [] {
      var init, last := views[..|views| - 1], views[|views| - 1];
      RunRecordsMatchPdfColumn(init, now);
      Aggregate.ColumnSumConcat(RunRows(init), FolderRows(last), Aggregate.Pdf);
      if |last.files| == 0 {
        assert CountPdf(last.files) == 0;
      } else {
        assert Aggregate.ColumnSum([ScanStats(last.name, last.subfolders, last.files)], Aggregate.Pdf)
          == CountPdf(last.files);
      }
    }
  }

  /** The run ends in an error result, reported by the error box, exactly when no folder of the walk holds a file. */
  lemma FailsIffNoFiles(name: string, views: seq<FolderView>, now: string)
    ensures RunOutcome(name, views, now).Failed? <==> FoldersWithFiles(views) == 0
  {
    RunRowsCountFolders(views);
  }

  /**
   * A completed run reports the folders with files as its workbook count;
   * its totals add up, with the aggregate workbook counted among the files;
   * every PDF counted was deleted and has one record in the deleted list.
   */
  lemma CompletedRunAddsUp(name: string, views: seq<FolderView>, now: string)
    ensures var outcome := RunOutcome(name, views, now);
      outcome.Completed? ==>
        outcome.excelCount == FoldersWithFiles(views)
        && outcome.summary.subfolders == outcome.excelCount
        && outcome.summary.filesInclInventory == outcome.summary.pdf + outcome.summary.jpeg + outcome.summary.other + 1
        && outcome.summary.deleted == outcome.summary.pdf == |outcome.deleted|
  {
    var rows := RunRows(views);
    RunRowsCountFolders(views);
    RunRecordsMatchPdfColumn(views, now);
    if rows != [] {
      RunRowsConsistent(views);
      Aggregate.AggregateAddsUp(name, rows, |rows|);
    }
  }

  /** The body of the walk loop (lines 231-233): a folder with files is processed, gets its sheet, and is counted. */
  method ScanFolder(folder: Folder, ghost view: FolderView, aggregated: RunList<FolderStats>, deleted: RunList<DeletedRecord>, now: string)
    returns (counted: nat)
    requires Shows(folder, view)
    modifies folder, aggregated, deleted
    ensures folder.files == NonPdfs(view.files)
    ensures aggregated.items == old(aggregated.items) + FolderRows(view)
    ensures deleted.items == old(deleted.items) + PdfRecords(view.files, view.name, now)
    ensures counted == |FolderRows(view)|
  {
    if |folder.files| > 0 {
      var local, summary := ProcessFolder(folder, aggregated, deleted, now);
      var sheet := ReportLayout.SaveFolderSheet(summary, local);
      counted := 1;
    } else {
      counted := 0;
      assert NonPdfs(folder.files) == [];
      assert PdfRecords(folder.files, folder.name, now) == [];
    }
  }

  /**
   * One turn of the walk loop (lines 231-233) on folder i: the folders
   * before it are scanned, it and the folders after it are as they were;
   * afterwards folder i is scanned too and the run-wide lists and the
   * workbook counter have grown by its rows and records.
   */
  method ScanStep(walk: seq<Folder>, ghost views: seq<FolderView>, i: nat, aggregated: RunList<FolderStats>, deleted: RunList<DeletedRecord>, now: string, excelCount: nat)
    returns (excelCount': nat)
    requires forall j, k :: 0 <= j < k < |walk| ==> walk[j] != walk[k]
    requires |views| == |walk| && i < |walk|
    requires forall j :: i <= j < |walk| ==> Shows(walk[j], views[j])
    requires forall j :: 0 <= j < i ==> walk[j].files == NonPdfs(views[j].files)
    requires aggregated.items == RunRows(views[..i]) && deleted.items == RunRecords(views[..i], now)
    requires excelCount == |aggregated.items|
    modifies walk[i], aggregated, deleted
    ensures forall j :: i + 1 <= j < |walk| ==> Shows(walk[j], views[j])
    ensures forall j :: 0 <= j < i + 1 ==> walk[j].files == NonPdfs(views[j].files)
    ensures aggregated.items == RunRows(views[..i + 1]) && deleted.items == RunRecords(views[..i + 1], now)
    ensures excelCount' == |aggregated.items|
  {
    RunStep(views, i, now);
    label before:
    var counted := ScanFolder(walk[i], views[i], aggregated, deleted, now);
    assert forall j :: 0 <= j < |walk| && j != i ==> walk[j].files == old@before(walk[j].files);
    excelCount' := excelCount + counted;
  }

  /**
   * The walk loop of `main` (lines 230-233): every folder with files is
   * processed and counted, in walk order, into the two run-wide lists.
   */
  method ScanWalk(walk: seq<Folder>, ghost views: seq<FolderView>, aggregated: RunList<FolderStats>, deleted: RunList<DeletedRecord>, now: string)
    returns (excelCount: nat)
    requires forall i, j :: 0 <= i < j < |walk| ==> walk[i] != walk[j]
    requires |views| == |walk| && forall i :: 0 <= i < |walk| ==> Shows(walk[i], views[i])
    requires aggregated.items == [] && deleted.items == []
    modifies walk, aggregated, deleted
    ensures forall i :: 0 <= i < |walk| ==> walk[i].files == NonPdfs(views[i].files)
    ensures aggregated.items == RunRows(views)
    ensures deleted.items == RunRecords(views, now)
    ensures excelCount == |aggregated.items|
  {
    excelCount := 0;
    assert views[..0] == [];
    for i := 0 to |walk|
      invariant forall j :: i <= j < |walk| ==> Shows(walk[j], views[j])
      invariant forall j :: 0 <= j < i ==> walk[j].files == NonPdfs(views[j].files)
      invariant aggregated.items == RunRows(views[..i])
      invariant deleted.items == RunRecords(views[..i], now)
      invariant excelCount == |aggregated.items|
    {
      excelCount := ScanStep(walk, views, i, aggregated, deleted, now, excelCount);
    }
    assert views[..|walk|] == views;
  }

  /**
   * `save_aggregated_summary` and the end of `main` (lines 235-244): the
   * aggregate row and its sheet when some folder had files, and the
   * outcome the message box reports. A run without rows is an error.
   */
  method FinishRun(name: string, rows: seq<FolderStats>, records: seq<DeletedRecord>, excelCount: nat)
    returns (outcome: Outcome)
    ensures outcome == Conclusion(name, rows, excelCount, records)
    ensures outcome.Failed? <==> rows == []
    ensures outcome.Completed? ==> outcome.excelCount == excelCount && outcome.deleted == records
  {
    match Aggregate.AggregateSummary(name, rows, excelCount)
    case Failure(e) =>
      outcome := Failed(e);
    case Ok(row) =>
      var sheet := ReportLayout.SaveAggregateSheet(row, records);
      outcome := Completed(excelCount, Aggregate.SummaryFileName(name), row, records);
  }

  /**
   * `main`. A cancelled dialog ends the run with nothing changed. Otherwise
   * every folder of the walk with files is scanned (its PDFs deleted), the
   * workbook counter ends equal to the number of summary rows, and the
   * outcome is that of RunOutcome on the folders as they were.
   */
  method RunInventory(selected: string, walk: seq<Folder>, now: string) returns (outcome: Outcome)
    requires forall i, j :: 0 <= i < j < |walk| ==> walk[i] != walk[j]
    modifies walk
    ensures selected == "" ==> outcome == NoDirectorySelected
    ensures selected == "" ==> forall i :: 0 <= i < |walk| ==> walk[i].files == old(walk[i].files)
    ensures selected != "" ==> forall i :: 0 <= i < |walk| ==> walk[i].files == NonPdfs(old(walk[i].files))
    ensures selected != "" ==> outcome == RunOutcome(RootLabel.FindReFolder(selected), old(Views(walk)), now)
  {
    if selected == "" {
      return NoDirectorySelected;
    }
    var name := RootLabel.FindReFolder(selected);
    var aggregated := new RunList<FolderStats>();
    var deleted := new RunList<DeletedRecord>();
    ghost var views := Views(walk);
    var excelCount := ScanWalk(walk, views, aggregated, deleted, now);

    outcome := FinishRun(name, aggregated.items, deleted.items, excelCount);
  }
}
