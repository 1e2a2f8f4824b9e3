/**
 * The per-folder scan (`process_folder`): count the folder's files by
 * kind, delete every PDF after recording it, and append the records and
 * the folder's summary row to the run-wide lists.
 *
 * The folder on disk is a `Folder` object whose `files` field is the
 * listing the walk gave, with removed files dropped; deleting a file drops the entries of that name. The
 * run-wide lists `aggregated_data` and `deleted_files_data`, which the
 * source mutates in place, are two `RunList` objects.
 */
module FolderScan {
  import opened FileKinds
  import SizeText

  const PDF_TYPE: string := "PDF"
  const NOT_AVAILABLE: string := "N/A"

  /** One row of the "Gelöschte Dateien / Deleted files" table. */
  datatype DeletedRecord = DeletedRecord(
    fileName: string,     // Dateiname
    folderName: string,   // Ordnername
    fileType: string,     // Dateityp
    deletedAt: string,    // Löschdatum
    sizeText: string)     // Dateigröße

  /** The summary row of one folder. */
  datatype FolderStats = FolderStats(
    folderName: string,
    subfolders: nat,
    files: nat,
    pdf: nat,
    jpeg: nat,
    other: nat,
    deleted: nat)

  /** A row whose counts add up and whose deletions equal its PDFs. */
  predicate Consistent(row: FolderStats) {
    row.pdf + row.jpeg + row.other == row.files && row.deleted == row.pdf
  }

  /** The record written for a deleted PDF. */
  function PdfRecord(file: FileEntry, folder: string, now: string): DeletedRecord {
    DeletedRecord(file.name, folder, PDF_TYPE, now, SizeText.SizeText(file.size))
  }

  /** The row written when a folder had no PDF. */
  function Placeholder(folder: string): DeletedRecord {
    DeletedRecord(NOT_AVAILABLE, folder, NOT_AVAILABLE, NOT_AVAILABLE, NOT_AVAILABLE)
  }

  /** The records of a listing's PDFs: one per PDF, in listing order. */
  function PdfRecords(files: seq<FileEntry>, folder: string, now: string): (records: seq<DeletedRecord>)
    ensures |records| == CountPdf(files)
  {
    if files == [] then []
    else
      var last := files[|files| - 1];
      PdfRecords(files[..|files| - 1], folder, now) + (if IsPdfName(last.name) then [PdfRecord(last, folder, now)] else [])
  }

  /** Record k describes the k-th PDF of the listing: its name and size, the folder, type "PDF", the time. */
  lemma {:induction false} PdfRecordsDescribePdfs(files: seq<FileEntry>, folder: string, now: string, k: nat)
    requires k < CountPdf(files)
    ensures var r := PdfRecords(files, folder, now)[k];
      && r == PdfRecord(Pdfs(files)[k], folder, now)
      && r.fileType == PDF_TYPE && r.folderName == folder && r.deletedAt == now
      && IsPdfName(r.fileName)
  {
    var init := files[..|files| - 1];
    if k < CountPdf(init) {
      PdfRecordsDescribePdfs(init, folder, now, k);
    }
    PdfsArePdfs(files);
  }

  /** The folder's own deleted-files table: its PDF records, or one "N/A" row when it had none. */
  function LocalRecords(files: seq<FileEntry>, folder: string, now: string): (records: seq<DeletedRecord>)
    ensures |records| >= 1
    ensures CountPdf(files) > 0 ==> records == PdfRecords(files, folder, now)
  {
    if CountPdf(files) == 0 then [Placeholder(folder)] else PdfRecords(files, folder, now)
  }

  /** The folder's table starts with the "N/A" placeholder exactly when the folder had no PDF. */
  lemma PlaceholderIffNoPdf(files: seq<FileEntry>, folder: string, now: string)
    ensures var records := LocalRecords(files, folder, now);
      (records[0].fileName == NOT_AVAILABLE <==> CountPdf(files) == 0)
      && (CountPdf(files) == 0 ==> |records| == 1 && records[0] == Placeholder(folder))
  {
    if CountPdf(files) > 0 {
      PdfRecordsDescribePdfs(files, folder, now, 0);
    }
  }

  /** The summary row of a folder with this listing (its counts as computed before any deletion). */
  function ScanStats(folder: string, subfolders: nat, files: seq<FileEntry>): (row: FolderStats)
    ensures Consistent(row)
    ensures row.files == |files| && row.other == CountOther(files)
  {
    CountsPartition(files);
    FolderStats(folder, subfolders, |files|, CountPdf(files), CountJpeg(files),
                |files| - CountPdf(files) - CountJpeg(files), CountPdf(files))
  }

  /** The entries of a listing whose name is not among `gone`. */
  function Survivors(files: seq<FileEntry>, gone: set<string>): seq<FileEntry> {
    if files == [] then []
    else
      var last := files[|files| - 1];
      Survivors(files[..|files| - 1], gone) + (if last.name in gone then [] else [last])
  }

  lemma {:induction false} SurvivorsOfNothing(files: seq<FileEntry>)
    ensures Survivors(files, {}) == files
  {
    if files != [] {
      SurvivorsOfNothing(files[..|files| - 1]);
    }
  }

  /** Deleting one more name from the survivors is surviving one more deleted name. */
  lemma {:induction false} RemoveFromSurvivors(files: seq<FileEntry>, gone: set<string>, name: string)
    ensures Survivors(Survivors(files, gone), {name}) == Survivors(files, gone + {name})
  {
    if files != [] {
      var init := files[..|files| - 1];
      RemoveFromSurvivors(init, gone, name);
      var s := Survivors(files, gone);
      var last := files[|files| - 1];
      if last.name !in gone {
        assert s[..|s| - 1] == Survivors(init, gone);
      } else {
        assert s == Survivors(init, gone);
      }
    }
  }

  /** Once exactly the PDF names are deleted, the survivors are the non-PDF entries. */
  lemma {:induction false} SurvivorsOfPdfNames(files: seq<FileEntry>, gone: set<string>)
    requires forall n :: n in gone ==> IsPdfName(n)
    requires forall j :: 0 <= j < |files| && IsPdfName(files[j].name) ==> files[j].name in gone
    ensures Survivors(files, gone) == NonPdfs(files)
  {
    if files != [] {
      SurvivorsOfPdfNames(files[..|files| - 1], gone);
    }
  }

  /** The names of the PDF entries of a listing. */
  function PdfNames(files: seq<FileEntry>): set<string> {
    if files == [] then {}
    else
      var last := files[|files| - 1];
      PdfNames(files[..|files| - 1]) + (if IsPdfName(last.name) then {last.name} else {})
  }

  lemma {:induction false} PdfNamesCover(files: seq<FileEntry>)
    ensures forall n :: n in PdfNames(files) ==> IsPdfName(n)
    ensures forall j :: 0 <= j < |files| && IsPdfName(files[j].name) ==> files[j].name in PdfNames(files)
  {
    if files != [] {
      PdfNamesCover(files[..|files| - 1]);
    }
  }

  /** Deleting every PDF name of a listing leaves exactly its non-PDF entries. */
  lemma SurvivorsOfAllPdfNames(files: seq<FileEntry>)
    ensures Survivors(files, PdfNames(files)) == NonPdfs(files)
  {
    PdfNamesCover(files);
    SurvivorsOfPdfNames(files, PdfNames(files));
  }

  /** One more entry of the listing: one more record, if it is a PDF. */
  lemma RecordsStep(files: seq<FileEntry>, i: nat, folder: string, now: string)
    requires i < |files|
    ensures PdfRecords(files[..i + 1], folder, now) ==
      if IsPdfName(files[i].name) then PdfRecords(files[..i], folder, now) + [PdfRecord(files[i], folder, now)]
      else PdfRecords(files[..i], folder, now)
  {
    assert files[..i + 1][..i] == files[..i];
  }

  /** One more entry of the listing: one more name to delete, if it is a PDF. */
  lemma PdfNamesStep(files: seq<FileEntry>, i: nat)
    requires i < |files|
    ensures PdfNames(files[..i + 1]) ==
      if IsPdfName(files[i].name) then PdfNames(files[..i]) + {files[i].name} else PdfNames(files[..i])
  {
    assert files[..i + 1][..i] == files[..i];
  }

  /** One more entry of the listing: deleting it, if it is a PDF, leaves the survivors of one more PDF name. */
  lemma DeletionStep(files: seq<FileEntry>, i: nat)
    requires i < |files|
    ensures Survivors(files, PdfNames(files[..i + 1])) ==
      if IsPdfName(files[i].name) then Survivors(Survivors(files, PdfNames(files[..i])), {files[i].name})
      else Survivors(files, PdfNames(files[..i]))
  {
    PdfNamesStep(files, i);
    if IsPdfName(files[i].name) {
      RemoveFromSurvivors(files, PdfNames(files[..i]), files[i].name);
    }
  }

  lemma AppendAssociates<T>(a: seq<T>, b: seq<T>, x: T)
    ensures a + b + [x] == a + (b + [x])
  {
  }

  /** A folder on disk: its base name, its number of subfolders and the listing the walk gave, with removed files dropped. */
  class Folder {
    const name: string
    const subfolders: nat
    var files: seq<FileEntry>

    constructor (name: string, subfolders: nat, files: seq<FileEntry>)
      ensures this.name == name && this.subfolders == subfolders && this.files == files
    {
      this.name := name;
      this.subfolders := subfolders;
      this.files := files;
    }

    /** `remove(path.join(folder_path, fileName))`: the file is gone from the folder. */
    method Remove(fileName: string)
      modifies this
      ensures files == Survivors(old(files), {fileName})
    {
      files := Survivors(files, {fileName});
    }
  }

  /**
   * A Python list that the scan appends to in place: `aggregated_data` and
   * `deleted_files_data` are two of them, shared by every folder of a run.
   */
  class RunList<T> {
    var items: seq<T>

    constructor ()
      ensures items == []
    {
      items := [];
    }

    /** `list.append(x)` */
    method Append(x: T)
      modifies this
      ensures items == old(items) + [x]
    {
      items := items + [x];
    }
  }

  /**
   * One turn of the loop of `process_folder` (lines 41-63) on entry i of
   * the listing: a PDF is recorded in both lists, deleted and counted;
   * any other entry changes nothing.
   */
  method DeleteIfPdf(folder: Folder, deleted: RunList<DeletedRecord>, files: seq<FileEntry>, i: nat, now: string,
                     ghost before: seq<DeletedRecord>, local: seq<DeletedRecord>, numDeleted: nat)
    returns (local': seq<DeletedRecord>, numDeleted': nat)
    requires i < |files|
    requires local == PdfRecords(files[..i], folder.name, now) && numDeleted == |local|
    requires deleted.items == before + local
    requires folder.files == Survivors(files, PdfNames(files[..i]))
    modifies folder, deleted
    ensures local' == PdfRecords(files[..i + 1], folder.name, now) && numDeleted' == |local'|
    ensures deleted.items == before + local'
    ensures folder.files == Survivors(files, PdfNames(files[..i + 1]))
  {
    RecordsStep(files, i, folder.name, now);
    DeletionStep(files, i);
    var file := files[i];
    local', numDeleted' := local, numDeleted;
    if IsPdfName(file.name) {
      var record := PdfRecord(file, folder.name, now);
      AppendAssociates(before, local, record);
      deleted.Append(record);
      local' := local + [record];
      folder.Remove(file.name);
      numDeleted' := numDeleted + 1;
    }
  }

  /**
   * The loop of `process_folder` (lines 40-63): for each PDF of the listing,
   * in order, append its record to the run-wide list and to the folder's own
   * list, delete it, and count the deletion.
   */
  method DeletePdfs(folder: Folder, deleted: RunList<DeletedRecord>, now: string)
    returns (local: seq<DeletedRecord>, numDeleted: nat)
    modifies folder, deleted
    ensures local == PdfRecords(old(folder.files), folder.name, now)
    ensures numDeleted == CountPdf(old(folder.files))
    ensures folder.files == NonPdfs(old(folder.files))
    ensures deleted.items == old(deleted.items) + local
  {
    var files := folder.files;
    local := [];
    numDeleted := 0;
    ghost var before := deleted.items;
    assert files[..0] == [];
    SurvivorsOfNothing(files);
    for i := 0 to |files|
      invariant local == PdfRecords(files[..i], folder.name, now)
      invariant numDeleted == |local|
      invariant deleted.items == before + local
      invariant folder.files == Survivors(files, PdfNames(files[..i]))
    {
      local, numDeleted := DeleteIfPdf(folder, deleted, files, i, now, before, local, numDeleted);
    }
    assert files[..|files|] == files;
    SurvivorsOfAllPdfNames(files);
  }

  /**
   * `process_folder`: returns the folder's own deleted-files table and its
   * summary rows (none when the folder holds no file, else one); deletes
   * every PDF; appends to the run-wide lists and leaves their earlier
   * entries as they were.
   */
  method ProcessFolder(folder: Folder, aggregated: RunList<FolderStats>, deleted: RunList<DeletedRecord>, now: string)
    returns (local: seq<DeletedRecord>, summary: seq<FolderStats>)
    modifies folder, aggregated, deleted
    ensures folder.files == NonPdfs(old(folder.files))
    ensures deleted.items == old(deleted.items) + PdfRecords(old(folder.files), folder.name, now)
    ensures local == LocalRecords(old(folder.files), folder.name, now)
    ensures summary == if |old(folder.files)| > 0 then [ScanStats(folder.name, folder.subfolders, old(folder.files))] else []
    ensures aggregated.items == old(aggregated.items) + summary
  {
    var files := folder.files;
    var numFiles := |files|;
    var numPdf := CountPdf(files);
    var numJpeg := CountJpeg(files);
    CountsPartition(files);
    var numOther := numFiles - numPdf - numJpeg;
    summary := [];

    var numDeleted;
    local, numDeleted := DeletePdfs(folder, deleted, now);

    if numPdf == 0 {
      local := local + [Placeholder(folder.name)];
    }

    if numFiles > 0 {
      var row := FolderStats(folder.name, folder.subfolders, numFiles, numPdf, numJpeg, numOther, numDeleted);
      summary := summary + [row];
      aggregated.Append(row);
    }
  }
}
