# Invoice-folder inventory: a Dafny model of its core

`net.py` walks a directory tree that the user selects. For every folder
that holds files it does four things:

- counts the files by kind (PDF, JPEG, other);
- deletes every PDF after recording its name, folder, type, deletion time
  and size as "<kilobytes>kB";
- writes a per-folder "Register" workbook;
- adds the folder's summary row to a run-wide list.

At the end it writes one aggregate workbook with the column totals. That
workbook is named after the first component of the selected path that
starts with "Re", or after the default label "Inventory".

This project models that core:

- `RootLabel`: `find_re_folder`, the root label of the selected path.
- `FileKinds`: the case-insensitive suffix classification and the counts.
- `SizeText`: the size text `f"{size/1024:.0f}kB"`, as exact integer
  rounding, half to even. `Decimal` holds the decimal rendering of integers
  (`str`, and the digits of the size text).
- `FolderScan`: `process_folder`.
  - Folders on disk are `Folder` objects whose `files` field is the listing
    the walk gave, with removed files dropped.
  - The run-wide lists `aggregated_data` and `deleted_files_data`, which the
    script mutates in place, are `RunList` objects.
  - The deletion loop is a method whose loop invariants tie the state to
    reference functions of the original listing. Its body is a method
    of its own whose contract carries those invariants from one entry to
    the next.
- `Aggregate`: the arithmetic of the aggregate row and the choice of the
  aggregate workbook's file name in `save_aggregated_summary`.
- `ColumnWidth`: `adjust_column_width`. A `Sheet` object has its cells by
  column and a width map; the nested loops are methods.
- `ReportLayout`: the row positions of the per-folder sheet and of the
  aggregate sheet, as sequences of rows, and their column widths.
- `Inventory`: the accumulator loop of `main` over the walk, with its
  body as a step method in the same way, and the outcome of a run. The
  outcome is one of three things:
  - no directory selected;
  - completed, with the workbook count, the aggregate file name, the
    aggregate row and the deleted list;
  - failed, when no folder held a file.

The file system is input data:

- the walk is a sequence of distinct `Folder` objects, top-down;
- each file is its name and byte size;
- deleting a file drops the entries of that name from its folder.

The directory dialog's answer is a string (`""` when cancelled). The
deletion time is one opaque string per run.

Notes on what the code does:

- The code falls back to the label "Inventory" when no component starts
  with "Re". `find_re_folder` never returns an empty label, so the abort
  branch of `main` (lines 221-224) cannot run. `RootLabel.FindReFolder`
  proves the label non-empty, and `Inventory.RunInventory` has no abort
  outcome.
- A folder without PDFs gets one "N/A" placeholder row in its own
  deleted-files table. Nothing is added to the run-wide list for it.
- The size text rounds half to even. Python's `:.0f` applied to the exact
  binary value of `size/1024` rounds that way.
- The per-folder sheet leaves ONE empty row between the summary table and
  the title, because the title goes at `max_row + 2`.
  `ReportLayout.FolderSheetRows` proves it.
- The aggregate sheet also leaves one empty row, although the comment at
  line 185 speaks of two. It writes no title row, only the deleted-files
  header at row 4, and only when some PDF was deleted.
  `ReportLayout.AggregateSheetRows` proves it.

## Model

| member | source | states |
|---|---|---|
| Decimal.NatToString | net.py:51 | the decimal text of a count is at least one digit, all digits, with no leading zero unless the count is 0 |
| Decimal.ParseNatToString | net.py:51 | reading the digits of a count back gives the count: the rendering loses nothing |
| Decimal.NatToStringInjective | net.py:51 | distinct counts never render to the same text |
| Decimal.NatToStringZero | net.py:51 | the text of 0 is exactly "0", for a count and for an integer |
| Decimal.IntToString | net.py:140 | `str` of an integer is non-empty, starts with '-' exactly when the integer is negative, and has no leading zero: a '0' first only for 0, and no '0' right after the '-' |
| Decimal.ParseIntToString | net.py:140 | `str` of an integer is well-formed integer text that reads back as the integer |
| RootLabel.NormaliseSeparators | net.py:18 | replacing backslashes keeps the length, leaves no backslash, puts '/' exactly where a separator was, and keeps every other character |
| RootLabel.Split | net.py:18 | splitting on '/' gives at least one piece and no piece holds a '/' |
| RootLabel.JoinSplit | net.py:18 | joining the pieces with '/' gives the text back |
| RootLabel.SplitJoin | net.py:18 | splitting a '/'-join of slash-free pieces gives the pieces back |
| RootLabel.SplitWithoutSlash | net.py:18 | a text without '/' is a single piece |
| RootLabel.SplitAfterPiece | net.py:18 | a slash-free leading piece before a '/' splits off as the first component |
| RootLabel.Components | net.py:18 | a path has at least one component, and none holds '/' or '\' |
| RootLabel.JoinWithoutBackslash | net.py:18 | joining backslash-free pieces gives a backslash-free text |
| RootLabel.FirstRe | net.py:19-22 | the label is the default "Inventory" or a component that starts with "Re" |
| RootLabel.FindReFolder | net.py:17-22 | the label is never empty, so the empty-label abort in `main` cannot happen |
| RootLabel.FirstReIndex | net.py:19-21 | reference search: no component before the index starts with "Re", and the one at the index does |
| RootLabel.FirstReIsFirstMatch | net.py:17-22 | the label is the component at the first matching position in path order, or "Inventory" when there is none |
| RootLabel.DefaultLabelIff | net.py:17-22 | the label is "Inventory" exactly when no component starts with "Re" |
| RootLabel.SeparatorsInterchangeable | net.py:18 | paths that differ only in using '\' or '/' get the same label |
| RootLabel.LabelOfJoinedPath | net.py:17-22 | a path written as components joined by '/' is searched component by component |
| RootLabel.ExampleLabel | net.py:17-22 | "C:/Rechnung/2024" gets the label "Rechnung" |
| SizeText.RoundKiB | net.py:51 | the kilobyte count is within half a kilobyte of the size, and an exact half goes to the even count |
| SizeText.RoundKiBIsNearest | net.py:51 | no whole number of kilobytes is closer to the size |
| SizeText.RoundKiBUnique | net.py:51 | nearest with ties to even determines the count uniquely |
| SizeText.SizeText | net.py:51 | the size text is decimal digits followed by "kB", with no leading zero unless the rounded count is 0 |
| SizeText.SizeTextDenotesRoundedKiB | net.py:51 | the digits of the size text read back as the rounded kilobyte count |
| SizeText.SizeTextOfZeroKiB | net.py:51 | every size that rounds to 0 kilobytes, such as any PDF of 512 bytes or less, has the text "0kB" |
| SizeText.SizeTextBoundaries | net.py:51 | 512 bytes give "0kB", 1536 "2kB", 2560 "2kB", 1000 "1kB" and 3000 "3kB" |
| FileKinds.Lower | net.py:35-36 | lower-casing keeps the length of the name |
| FileKinds.LowerCharacters | net.py:35-36 | lower-casing leaves no capital letter, keeps every character that is not a capital in its place, and turns each capital into the small letter at the same place in the alphabet |
| FileKinds.LowerIdempotent | net.py:35-36 | lower-casing an already lower-cased name changes nothing |
| FileKinds.PdfJpegDisjoint | net.py:35-36 | no name is both a PDF and a JPEG |
| FileKinds.ClassificationIgnoresCase | net.py:35-36 | a name and its lower-cased form are classified alike |
| FileKinds.Pdfs | net.py:35 | the PDF entries are no more than the listing |
| FileKinds.NonPdfs | net.py:40-62 | what is left after deleting the PDFs is no more than the listing |
| FileKinds.PdfsNonPdfsPartition | net.py:40-62 | the PDFs and the entries left after deleting them make up the listing exactly, as a multiset |
| FileKinds.PdfsArePdfs | net.py:35 | every entry counted as a PDF has a PDF name |
| FileKinds.NonPdfsAreNotPdfs | net.py:40-62 | no PDF remains after the deletion loop |
| FileKinds.NonPdfsKeepsNonPdfs | net.py:40-62 | every non-PDF entry remains after the deletion loop |
| FileKinds.CountJpeg | net.py:36 | the JPEG count is at most the number of files |
| FileKinds.CountOther | net.py:37 | the other count is at most the number of files |
| FileKinds.CountsPartition | net.py:33-37 | PDFs plus JPEGs plus others equal the number of files, so `num_other_files` is never negative |
| FolderScan.PdfRecords | net.py:40-60 | there is exactly one deletion record per PDF |
| FolderScan.PdfRecordsDescribePdfs | net.py:46-60 | record k is that of the k-th PDF in listing order: its name and size text, the folder's base name, type "PDF", the deletion time |
| FolderScan.LocalRecords | net.py:54-73 | the folder's own table is never empty, and it is the PDF records when there was a PDF |
| FolderScan.PlaceholderIffNoPdf | net.py:65-73 | the folder's table starts with "N/A" exactly when the folder had no PDF, and then it is that one placeholder row |
| FolderScan.ScanStats | net.py:75-84 | the summary row's counts add up to its file count, and its deletions equal its PDFs |
| FolderScan.SurvivorsOfPdfNames | net.py:62 | deleting exactly the PDF names leaves exactly the non-PDF entries |
| FolderScan.SurvivorsOfAllPdfNames | net.py:62 | deleting every PDF name of the listing leaves its non-PDF entries, in order |
| FolderScan.Folder.constructor | net.py:30-31 | a folder starts with its base name, its subfolder count and its listing |
| FolderScan.Folder.Remove | net.py:62 | after `remove`, the entries of that name are gone and the rest stay in order |
| FolderScan.RunList.constructor | net.py:226-227 | a run-wide list starts empty |
| FolderScan.RunList.Append | net.py:86 | `append` adds one item at the end and keeps the earlier ones |
| FolderScan.DeleteIfPdf | net.py:41-63 | one turn of the loop on entry i: if the records, the run-wide list, the folder and the counter stand as the loop has it after the first i entries, they stand so after i + 1; a PDF adds one record to both lists, is deleted and counted, any other entry changes nothing |
| FolderScan.DeletePdfs | net.py:40-63 | the loop returns one record per PDF in listing order, counts deletions equal to the PDFs, leaves only the non-PDFs in the folder, and appends exactly the same records to the run-wide list |
| FolderScan.ProcessFolder | net.py:25-89 | `process_folder` deletes the PDFs; grows the run-wide deleted list by exactly their records; returns the folder's own table (placeholder if no PDF); appends one consistent summary row exactly when the folder has files; leaves earlier entries untouched |
| Aggregate.ColumnSumConcat | net.py:161-165 | a column sum over two runs of rows is the sum of their sums |
| Aggregate.ColumnSumBoundsRows | net.py:161-165 | every row's value is at most its column's sum |
| Aggregate.ConsistentColumnSums | net.py:161-165 | over consistent rows, the PDF, JPEG and other sums add up to the file sum, and the deleted sum equals the PDF sum |
| Aggregate.AggregateSummary | net.py:148-166 | the aggregate is an error result, raised first at the "Number of files" lookup, exactly when there are no rows; otherwise it carries the label and the folder counter |
| Aggregate.AggregateAddsUp | net.py:158-166 | for rows from the scan, total files equals PDFs plus JPEGs plus others plus 1 (the aggregate workbook), and total deleted equals total PDFs |
| Aggregate.AggregateCoversEveryFolder | net.py:158-166 | no column total is below any folder's value, and the file total is above every folder's file count |
| Aggregate.AggregateOfOneMoreRow | net.py:158-166 | one more folder's row raises each total by that folder's value, and the folder counter by one |
| Aggregate.SummaryFileName | net.py:151 | the name is "Inventory.xlsx" exactly when the label is "Inventory", otherwise "Inventory_<label>.xlsx" |
| Aggregate.SummaryFileNameInjective | net.py:151 | distinct labels give distinct workbook names |
| Aggregate.PlainFileNameIffNoReComponent | net.py:151 | the plain name "Inventory.xlsx" is chosen exactly when no component of the selected path starts with "Re" |
| ColumnWidth.Rendered | net.py:140 | a truthy value renders to at least one character |
| ColumnWidth.MaxRenderedLengthBounds | net.py:137-140 | no truthy cell renders longer than the column's maximum |
| ColumnWidth.MaxRenderedLengthAttained | net.py:137-140 | the maximum is the length of some truthy cell, and it is 0 exactly when no cell is truthy |
| ColumnWidth.MaxRenderedLengthConcat | net.py:137-140 | the maximum over two runs of cells is the larger of their maxima |
| ColumnWidth.MaxRenderedLengthMonotone | net.py:137-144 | adding cells to a column never makes it narrower |
| ColumnWidth.FalsyCellIgnored | net.py:139 | a None, "" or 0 cell anywhere in a column does not change its width |
| ColumnWidth.ColumnWidth | net.py:134-144 | the loop over a column returns its longest truthy rendering plus 2 |
| ColumnWidth.Sheet.AdjustColumnWidths | net.py:132-145 | every column gets width = longest truthy rendering + 2; other widths and the cells are unchanged |
| ReportLayout.TextRow | net.py:108-110 | a header row has one cell per header |
| ReportLayout.PutRow | net.py:103-110 | writing row r sets row r, keeps every other row and leaves new rows between empty |
| ReportLayout.PutRecordsAppends | net.py:122-124 | records written from the row below the last one are appended in order |
| ReportLayout.FolderSheetRows | net.py:97-124 | the folder sheet is the summary table, one empty row, the title, the header and the records; with one summary row the title is row 4, the header row 5, the records from row 6 |
| ReportLayout.AggregateSheetRows | net.py:168-205 | the aggregate sheet is its two table rows and then, only when some PDF was deleted, one empty row, the header at row 4 and the records from row 5 |
| ReportLayout.ColumnCount | net.py:133 | the column count is the length of the longest row: no row is longer and some row reaches it; 0 for an empty sheet |
| ReportLayout.Columns | net.py:133 | a sheet has as many columns as its longest row |
| ReportLayout.FolderSheetTitleFits | net.py:103 | some cell of column A of a folder sheet renders at least as long as the deleted-files title, so the width `SaveFolderSheet` gives it is at least the title's length plus 2 |
| ReportLayout.SaveFolderSheet | net.py:96-126 | the folder sheet holds the layout above, and every column's width is its longest truthy rendering plus 2 |
| ReportLayout.SaveAggregateSheet | net.py:156-205 | the aggregate sheet holds the layout above, and every column's width is its longest truthy rendering plus 2 |
| Inventory.RunRows | net.py:230-233 | the walk adds at most one summary row per folder |
| Inventory.RunStep | net.py:230-233 | each folder's rows and records come after those of the folders before it |
| Inventory.RunRowsCountFolders | net.py:228-233 | the number of summary rows equals the number of folders that hold files |
| Inventory.RunRowsConsistent | net.py:230-233 | every summary row of the run adds up |
| Inventory.RunRecordsMatchPdfColumn | net.py:227-233 | the run's deleted list has one record per PDF counted in the PDF column |
| Inventory.FailsIffNoFiles | net.py:241-244 | the run ends in an error result exactly when no folder of the walk holds a file |
| Inventory.CompletedRunAddsUp | net.py:226-235 | a completed run reports the folders with files as its count; the aggregate's folder counter equals that count; its totals add up with the aggregate workbook counted; deletions equal PDFs equal the deleted list's length |
| Inventory.ScanFolder | net.py:231-233 | a folder with files is processed, gets its sheet and is counted once, and its PDFs are gone; an empty one adds no row, no record and no count |
| Inventory.ScanStep | net.py:231-233 | one turn of the walk loop on folder i: if the folders before i are scanned, the rest untouched, and the lists and the counter hold the rows and records of the folders before i, then the same holds up to folder i + 1, and no other folder changes |
| Inventory.ScanWalk | net.py:226-233 | after the walk every folder keeps only its non-PDFs; the lists are the rows and records of the folders in walk order; the counter equals the number of rows |
| Inventory.FinishRun | net.py:235-244 | the end of the run is an error result exactly when there are no summary rows; otherwise it reports the counter, the aggregate row, the workbook name and the deleted list |
| Inventory.RunInventory | net.py:214-244 | a cancelled dialog changes nothing; otherwise every folder loses its PDFs and the outcome is that of the walk under the label of the selected path |

## Left out

- The directory dialog, the message boxes and `print` output (lines 10-14, 218, 223, 237-244). The dialog's answer is a parameter. The messages become the `Outcome` value.
- `os.walk`, `path.getsize` and `remove` as operating-system calls. The walk is a sequence of folders given as input, sizes are part of each entry, and removal drops the entry. The two `next(walk(...))` calls at lines 30-31 are taken to return the listing the walk gave.
- Errors from the file system and from workbook writing: a failing `getsize`, `remove` or `save_to_excel` (lines 43, 62, 89) raises out of `process_folder` in the middle of the walk. The run stops there. PDFs deleted so far stay deleted, later folders are not scanned, and no aggregate workbook is written. Then the error box appears (lines 241-244). The model assumes these calls succeed.
- The text of the error message. A run without summary rows is an error result. The first step to fail is the column lookup at line 161, inside the `ExcelWriter` block, and what the workbook writer raises on leaving that block is not modelled.
- `datetime.now()` (line 44): one opaque timestamp string per run, where the script reads the clock once per PDF.
- Workbook writing as such: file paths (`path.join`, `path.dirname`, `path.normpath` at lines 93-94 and 152-154), the "Register_" file name, saving, fonts and borders. Only the row layout and the column widths are modelled.
- The aggregate workbook is written to the parent of the selected directory (lines 152-154), outside the scanned tree. The "+ 1" in the file total counts that file, as the column header at line 161 says ("incl. Inventory file"); it never appears in any modelled listing.
- The per-folder workbook `Register_<name>.xlsx` that `save_to_excel` writes into each processed folder (lines 93-94, 128) is not added to that folder's modelled listing. The walk never lists a folder twice, so no count of the run depends on it.
- Folder.Remove: drops every entry with the name. A directory listing has no duplicate names, so this is one file.
- FileKinds.Lower: lower-cases ASCII letters only; `str.lower` on other characters is not modelled.
- SizeText.SizeText: exact integer rounding of size/1024 instead of general floating-point formatting. For the sizes of real files the two agree.
- ColumnWidth.Rendered: cell values are text or integers; `str` of other Python values (floats, dates) is not modelled, and the `except: pass` guard has nothing to catch.
- Inventory.ScanFolder: builds the folder's sheet with `ReportLayout.SaveFolderSheet`, as `process_folder` calls `save_to_excel`. Its contract does not describe that sheet, which is written to disk and never read again.
- Inventory.FinishRun: builds the aggregate sheet with `ReportLayout.SaveAggregateSheet` in the completed case. Its contract does not describe that sheet, for the same reason.
