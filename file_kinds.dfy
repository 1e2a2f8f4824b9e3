/**
 * File entries of a folder listing and their classification by name
 * suffix, checked on the lower-cased name: ".pdf" is a PDF, ".jpg" and
 * ".jpeg" are JPEG files, everything else is "other". Lower-casing is
 * ASCII only.
 */
module FileKinds {

  /** One file of a folder listing: its name and its size in bytes (`path.getsize`). */
  datatype FileEntry = FileEntry(name: string, size: nat)

  predicate IsUpper(c: char) {
    'A' <= c <= 'Z'
  }

  function LowerChar(c: char): char {
    if IsUpper(c) then (c as int + 32) as char else c
  }

  /** `s.lower()` on ASCII text. */
  function Lower(s: string): (r: string)
    ensures |r| == |s|
  {
    seq(|s|, i requires 0 <= i < |s| => LowerChar(s[i]))
  }

  /**
   * What lower-casing promises: no capital letter is left, every other
   * character stays where it was, and each capital becomes the small
   * letter at the same place in the alphabet.
   */
  lemma LowerCharacters(s: string)
    ensures forall i :: 0 <= i < |s| ==> !IsUpper(Lower(s)[i])
    ensures forall i :: 0 <= i < |s| && !IsUpper(s[i]) ==> Lower(s)[i] == s[i]
    ensures forall i :: 0 <= i < |s| && IsUpper(s[i]) ==>
      'a' <= Lower(s)[i] <= 'z' && Lower(s)[i] as int - 'a' as int == s[i] as int - 'A' as int
  {
  }

  /** Lower-casing twice is lower-casing once. */
  lemma LowerIdempotent(s: string)
    ensures Lower(Lower(s)) == Lower(s)
  {
    var r := Lower(s);
    LowerCharacters(s);
    LowerCharacters(r);
    assert forall i :: 0 <= i < |r| ==> Lower(r)[i] == r[i];
  }

  predicate EndsWith(s: string, suffix: string) {
    |suffix| <= |s| && s[|s| - |suffix|..] == suffix
  }

  /** `name.lower().endswith('.pdf')` */
  predicate IsPdfName(name: string) {
    EndsWith(Lower(name), ".pdf")
  }

  /** `name.lower().endswith(('.jpg', '.jpeg'))` */
  predicate IsJpegName(name: string) {
    EndsWith(Lower(name), ".jpg") || EndsWith(Lower(name), ".jpeg")
  }

  /** Neither suffix: counted among the "other" files. */
  predicate IsOtherName(name: string) {
    !IsPdfName(name) && !IsJpegName(name)
  }

  /** No name is both a PDF and a JPEG: the lower-cased name ends in 'f' for one and 'g' for the other. */
  lemma PdfJpegDisjoint(name: string)
    ensures !(IsPdfName(name) && IsJpegName(name))
  {
    var low := Lower(name);
    if IsPdfName(name) {
      assert low[|low| - 1] == ".pdf"[3] == 'f';
      assert !EndsWith(low, ".jpg") by { assert ".jpg"[3] == 'g'; }
      assert !EndsWith(low, ".jpeg") by { assert ".jpeg"[4] == 'g'; }
    }
  }

  /** The test is case-insensitive: a name and its lower-cased form are classified alike. */
  lemma ClassificationIgnoresCase(name: string)
    ensures IsPdfName(Lower(name)) == IsPdfName(name)
    ensures IsJpegName(Lower(name)) == IsJpegName(name)
  {
    LowerIdempotent(name);
  }

  /** The PDF entries of a listing, in listing order. */
  function Pdfs(files: seq<FileEntry>): (pdfs: seq<FileEntry>)
    ensures |pdfs| <= |files|
  {
    if files == [] then []
    else
      var last := files[|files| - 1];
      Pdfs(files[..|files| - 1]) + (if IsPdfName(last.name) then [last] else [])
  }

  /** The entries of a listing that are not PDFs, in listing order. */
  function NonPdfs(files: seq<FileEntry>): (kept: seq<FileEntry>)
    ensures |kept| <= |files|
  {
    if files == [] then []
    else
      var last := files[|files| - 1];
      NonPdfs(files[..|files| - 1]) + (if IsPdfName(last.name) then [] else [last])
  }

  /** Pdfs and NonPdfs split the listing: every entry lands in one of them, as often as in the listing. */
  lemma {:induction false} PdfsNonPdfsPartition(files: seq<FileEntry>)
    ensures multiset(Pdfs(files)) + multiset(NonPdfs(files)) == multiset(files)
  {
    if files != [] {
      var init := files[..|files| - 1];
      PdfsNonPdfsPartition(init);
      assert files == init + [files[|files| - 1]];
    }
  }

  /** Every entry of Pdfs is a PDF. */
  lemma {:induction false} PdfsArePdfs(files: seq<FileEntry>)
    ensures forall k :: 0 <= k < |Pdfs(files)| ==> IsPdfName(Pdfs(files)[k].name)
  {
    if files != [] {
      PdfsArePdfs(files[..|files| - 1]);
    }
  }

  /** No entry of NonPdfs is a PDF. */
  lemma {:induction false} NonPdfsAreNotPdfs(files: seq<FileEntry>)
    ensures forall k :: 0 <= k < |NonPdfs(files)| ==> !IsPdfName(NonPdfs(files)[k].name)
  {
    if files != [] {
      NonPdfsAreNotPdfs(files[..|files| - 1]);
    }
  }

  /** Every entry of the listing that is not a PDF is kept by NonPdfs. */
  lemma {:induction false} NonPdfsKeepsNonPdfs(files: seq<FileEntry>)
    ensures forall j :: 0 <= j < |files| && !IsPdfName(files[j].name) ==> files[j] in NonPdfs(files)
  {
    if files != [] {
      NonPdfsKeepsNonPdfs(files[..|files| - 1]);
    }
  }

  /** `len([f for f in files if f.lower().endswith('.pdf')])` */
  function CountPdf(files: seq<FileEntry>): nat {
    |Pdfs(files)|
  }

  /** `len([f for f in files if f.lower().endswith(('.jpg', '.jpeg'))])` */
  function CountJpeg(files: seq<FileEntry>): (n: nat)
    ensures n <= |files|
  {
    if files == [] then 0
    else CountJpeg(files[..|files| - 1]) + (if IsJpegName(files[|files| - 1].name) then 1 else 0)
  }

  /** Reference count of the files that are neither PDF nor JPEG. */
  function CountOther(files: seq<FileEntry>): (n: nat)
    ensures n <= |files|
  {
    if files == [] then 0
    else CountOther(files[..|files| - 1]) + (if IsOtherName(files[|files| - 1].name) then 1 else 0)
  }

  /** The three counts partition the listing, so `num_files - num_pdf - num_jpeg` is never negative. */
  lemma {:induction false} CountsPartition(files: seq<FileEntry>)
    ensures CountPdf(files) + CountJpeg(files) + CountOther(files) == |files|
  {
    if files != [] {
      CountsPartition(files[..|files| - 1]);
      PdfJpegDisjoint(files[|files| - 1].name);
    }
  }
}
