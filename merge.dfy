/** The last step of `generate_pdf` and `_merge_pdfs`
    (taskcard_downloader.py:573-583, 591-623): the overview's pages, then
    the pages of each downloaded PDF, written into one document. A PDF file
    is modelled by what reading it yields: the pages read before the reader
    reached the end or raised. */
module Merge {
  import opened Wrappers
  import opened PdfAttachments

  /** A page object handed from a `PdfReader` to the `PdfWriter`. */
  datatype Page = Page(id: nat)

  /** Reading a file: the pages obtained, and whether reading raised
      (opening it, parsing it, or reaching a broken page). */
  datatype Reading = Reading(pages: seq<Page>, raised: bool)

  /** A file that cannot be opened yields no pages. */
  const Unreadable: Reading := Reading([], true)

  /** What reading the file at `path` yields; a path that is not in `files`
      cannot be opened. */
  function ReadingAt(files: map<string, Reading>, path: string): Reading {
    if path in files then files[path] else Unreadable
  }

  /** `PdfWriter`: the pages added so far. */
  class PdfWriter {
    var pages: seq<Page>

    constructor()
      ensures pages == []
    {
      pages := [];
    }

    /** `add_page`. */
    method AddPage(p: Page)
      modifies this
      ensures pages == old(pages) + [p]
    {
      pages := pages + [p];
    }

    /** The inner loop `for page in pdf_reader.pages: add_page(page)`. */
    method AddPages(ps: seq<Page>)
      modifies this
      ensures pages == old(pages) + ps
    {
      var k := 0;
      while k < |ps|
        invariant k <= |ps|
        invariant pages == old(pages) + ps[..k]
      {
        AddPage(ps[k]);
        assert ps[..k + 1] == ps[..k] + [ps[k]];
        k := k + 1;
      }
      assert ps[..k] == ps;
    }
  }

  /** The pages an attachment contributes: whatever was added before its
      reader finished or raised. */
  function ItemPages(files: map<string, Reading>, d: DownloadedPdf): seq<Page> {
    ReadingAt(files, d.filePath).pages
  }

  /** Reference definition: the pages of the attachments, in list order. */
  function AttachmentPages(files: map<string, Reading>, ds: seq<DownloadedPdf>): seq<Page> {
    if |ds| == 0 then []
    else AttachmentPages(files, ds[..|ds| - 1]) + ItemPages(files, ds[|ds| - 1])
  }

  /** Reference definition: the files `_merge_pdfs` deletes, those of the
      attachments read without an exception, in list order. */
  function RemovedFiles(files: map<string, Reading>, ds: seq<DownloadedPdf>): (r: seq<string>)
    ensures |r| <= |ds|
  {
    if |ds| == 0 then []
    else
      var d := ds[|ds| - 1];
      RemovedFiles(files, ds[..|ds| - 1]) + (if ReadingAt(files, d.filePath).raised then [] else [d.filePath])
  }

  /** Reference definition of `_merge_pdfs`: None when reading the overview
      raises (the exception is re-raised and nothing is written). */
  function MergedOf(overview: Reading, files: map<string, Reading>, ds: seq<DownloadedPdf>): (r: Option<seq<Page>>)
    ensures r.Some? <==> !overview.raised
  {
    if overview.raised then None else Some(overview.pages + AttachmentPages(files, ds))
  }

  /** Reference definition of the output of `generate_pdf`: the merge when
      there are attachments, else a verbatim copy of the overview. */
  function FinalDocument(overview: Reading, files: map<string, Reading>, ds: seq<DownloadedPdf>): Option<seq<Page>> {
    if |ds| > 0 then MergedOf(overview, files, ds) else Some(overview.pages)
  }

  /** The attachments are handled one after the other. */
  lemma {:induction false} AttachmentPagesAppend(files: map<string, Reading>, xs: seq<DownloadedPdf>, ys: seq<DownloadedPdf>)
    ensures AttachmentPages(files, xs + ys) == AttachmentPages(files, xs) + AttachmentPages(files, ys)
  {
    if |ys| == 0 {
      assert xs + ys == xs;
    } else {
      var n := |ys| - 1;
      AttachmentPagesAppend(files, xs, ys[..n]);
      assert (xs + ys)[..|xs + ys| - 1] == xs + ys[..n];
    }
  }

  lemma AttachmentPagesSingle(files: map<string, Reading>, d: DownloadedPdf)
    ensures AttachmentPages(files, [d]) == ItemPages(files, d)
  {
    assert [d][..0] == [];
  }

  /** An attachment that cannot be read contributes no pages and does not
      stop the attachments after it. */
  lemma FailedAttachmentSkipped(files: map<string, Reading>, xs: seq<DownloadedPdf>, d: DownloadedPdf, ys: seq<DownloadedPdf>)
    requires ReadingAt(files, d.filePath).pages == []
    ensures AttachmentPages(files, xs + [d] + ys) == AttachmentPages(files, xs) + AttachmentPages(files, ys)
  {
    AttachmentPagesAppend(files, xs + [d], ys);
    AttachmentPagesAppend(files, xs, [d]);
    AttachmentPagesSingle(files, d);
  }

  /** Each attachment's pages follow those of the attachments before it. */
  lemma AttachmentPagesOrder(files: map<string, Reading>, ds: seq<DownloadedPdf>, i: nat)
    requires i < |ds|
    ensures AttachmentPages(files, ds) ==
              AttachmentPages(files, ds[..i]) + ItemPages(files, ds[i]) + AttachmentPages(files, ds[i + 1..])
  {
    assert ds == ds[..i] + [ds[i]] + ds[i + 1..];
    AttachmentPagesAppend(files, ds[..i] + [ds[i]], ds[i + 1..]);
    AttachmentPagesAppend(files, ds[..i], [ds[i]]);
    AttachmentPagesSingle(files, ds[i]);
  }

  /** Without attachments the overview is copied as it is; merging an empty
      list would have given the same pages, so the two branches agree. */
  lemma FinalDocumentWithoutAttachments(overview: Reading, files: map<string, Reading>)
    ensures FinalDocument(overview, files, []) == Some(overview.pages)
    ensures !overview.raised ==> MergedOf(overview, files, []) == FinalDocument(overview, files, [])
  {
    assert overview.pages + [] == overview.pages;
  }

  /** A file is deleted exactly when it belongs to an attachment that was
      read without an exception. */
  lemma {:induction false} RemovedFilesMembers(files: map<string, Reading>, ds: seq<DownloadedPdf>, path: string)
    ensures path in RemovedFiles(files, ds) <==>
              exists d :: d in ds && d.filePath == path && !ReadingAt(files, path).raised
  {
    if |ds| != 0 {
      var n := |ds| - 1;
      RemovedFilesMembers(files, ds[..n], path);
      assert ds == ds[..n] + [ds[n]];
      if exists d :: d in ds && d.filePath == path && !ReadingAt(files, path).raised {
        var d :| d in ds && d.filePath == path && !ReadingAt(files, path).raised;
        if d != ds[n] {
          assert d in ds[..n];
        }
      }
    }
  }

  lemma MergeStep(files: map<string, Reading>, ds: seq<DownloadedPdf>, i: nat)
    requires i < |ds|
    ensures AttachmentPages(files, ds[..i + 1]) == AttachmentPages(files, ds[..i]) + ItemPages(files, ds[i])
    ensures RemovedFiles(files, ds[..i + 1]) ==
              RemovedFiles(files, ds[..i]) + (if ReadingAt(files, ds[i].filePath).raised then [] else [ds[i].filePath])
  {
    assert ds[..i + 1][..i] == ds[..i];
  }

  /** `_merge_pdfs`, taskcard_downloader.py:591-623: the pages written and
      the temporary files deleted. */
  method MergePdfs(overview: Reading, files: map<string, Reading>, ds: seq<DownloadedPdf>)
    returns (written: Option<seq<Page>>, removed: seq<string>)
    ensures written == MergedOf(overview, files, ds)
    ensures written.Some? ==> removed == RemovedFiles(files, ds)
    ensures written.None? ==> removed == []
  {
    removed := [];
    var writer := new PdfWriter();
    if overview.raised {
      return None, removed;
    }
    writer.AddPages(overview.pages);
    var i := 0;
    while i < |ds|
      invariant i <= |ds|
      invariant writer.pages == overview.pages + AttachmentPages(files, ds[..i])
      invariant removed == RemovedFiles(files, ds[..i])
    {
      MergeStep(files, ds, i);
      var reading := ReadingAt(files, ds[i].filePath);
      writer.AddPages(reading.pages);
      if !reading.raised {
        removed := removed + [ds[i].filePath];
      }
      i := i + 1;
    }
    assert ds[..i] == ds;
    written := Some(writer.pages);
  }

  /** The end of `generate_pdf`, taskcard_downloader.py:573-583: merge when
      there are attachments, otherwise copy the overview. */
  method WriteOutput(overview: Reading, files: map<string, Reading>, ds: seq<DownloadedPdf>) returns (output: Option<seq<Page>>)
    ensures output == FinalDocument(overview, files, ds)
  {
    if |ds| > 0 {
      var removed;
      output, removed := MergePdfs(overview, files, ds);
    } else {
      output := Some(overview.pages);
    }
  }
}
