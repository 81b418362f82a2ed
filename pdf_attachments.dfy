/** The attachment loop of `download_pdf_attachments_with_playwright`
    (taskcard_downloader.py:342-389): every attachment element is visited in
    document order; only captioned elements whose caption mentions "PDF" are
    clicked, and only downloads that start with the bytes `%PDF` are kept.
    The browser is an oracle: each element comes with what clicking it
    yields. */
module PdfAttachments {
  import opened Wrappers
  import opened Text

  newtype byte = x: int | 0 <= x < 256

  /** What clicking an element and saving the download gives: the temporary
      file it was saved to and the bytes in it, or an exception (download
      timeout, failed save), which the loop swallows. */
  datatype Download = Saved(tempPath: string, bytes: seq<byte>) | Raised

  /** An element matched by `[class*="border cursor-pointer"]`: the
      innerText of its `.text-caption` (None when there is none) and the
      outcome of clicking it. */
  datatype AttachmentElement = AttachmentElement(caption: Option<string>, download: Download)

  /** `{ 'info': caption_text, 'file_path': temp_file.name }`. */
  datatype DownloadedPdf = DownloadedPdf(info: string, filePath: string)

  /** `b'%PDF'`. */
  const PdfMagic: seq<byte> := [0x25, 0x50, 0x44, 0x46]

  /** `'PDF' in caption_text.upper()`; the caption is not trimmed. */
  predicate IsPdfCaption(caption: string) {
    HasInfix(Upper(caption), "PDF")
  }

  /** `f.read(4) == b'%PDF'`: a file shorter than four bytes never matches. */
  predicate StartsWithMagic(bytes: seq<byte>) {
    |bytes| >= 4 && bytes[..4] == PdfMagic
  }

  /** The element is clicked: it has a caption that mentions "PDF". */
  predicate Clicked(e: AttachmentElement) {
    e.caption.Some? && IsPdfCaption(e.caption.value)
  }

  /** The element ends up in the result list. */
  predicate Kept(e: AttachmentElement) {
    Clicked(e) && e.download.Saved? && StartsWithMagic(e.download.bytes)
  }

  /** The element's download is saved but is not a PDF, so its temporary
      file is deleted. */
  predicate Rejected(e: AttachmentElement) {
    Clicked(e) && e.download.Saved? && !StartsWithMagic(e.download.bytes)
  }

  function PdfOf(e: AttachmentElement): DownloadedPdf {
    DownloadedPdf(e.caption.GetOr([]), if e.download.Saved? then e.download.tempPath else [])
  }

  function TempPathOf(e: AttachmentElement): string {
    if e.download.Saved? then e.download.tempPath else []
  }

  /** Reference definition of the returned list: the entry of every kept
      element, in document order. */
  function DownloadedOf(elems: seq<AttachmentElement>): (r: seq<DownloadedPdf>)
    ensures |r| <= |elems|
  {
    if elems == [] then []
    else
      var n := |elems| - 1;
      DownloadedOf(elems[..n]) + (if Kept(elems[n]) then [PdfOf(elems[n])] else [])
  }

  /** Reference definition of the temporary files the loop deletes, in
      document order. */
  function DeletedOf(elems: seq<AttachmentElement>): (r: seq<string>)
    ensures |r| <= |elems|
  {
    if elems == [] then []
    else
      var n := |elems| - 1;
      DeletedOf(elems[..n]) + (if Rejected(elems[n]) then [TempPathOf(elems[n])] else [])
  }

  /** The indices among the first `n` elements that are clicked. */
  function ClickedIndices(elems: seq<AttachmentElement>, n: nat): (r: seq<nat>)
    requires n <= |elems|
    ensures forall k :: 0 <= k < |r| ==> r[k] < n
  {
    if n == 0 then []
    else ClickedIndices(elems, n - 1) + (if Clicked(elems[n - 1]) then [n - 1] else [])
  }

  /** The whole operation: `page` is None when opening the page, scrolling
      or finding the elements raised, in which case the outer handler leaves
      the list empty. */
  function PdfAttachmentsOf(page: Option<seq<AttachmentElement>>): (r: seq<DownloadedPdf>)
    ensures page.None? ==> r == []
  {
    match page
    case None => []
    case Some(elems) => DownloadedOf(elems)
  }

  /** A kept entry is exactly an element with a caption mentioning "PDF"
      whose download starts with `%PDF`, reported under its untrimmed
      caption and the temporary file it was saved to. */
  lemma {:induction false} DownloadedMembers(elems: seq<AttachmentElement>, d: DownloadedPdf)
    ensures d in DownloadedOf(elems) <==>
              exists e :: e in elems && Kept(e) && d == DownloadedPdf(e.caption.value, e.download.tempPath)
  {
    if elems != [] {
      var n := |elems| - 1;
      DownloadedMembers(elems[..n], d);
      assert elems == elems[..n] + [elems[n]];
      if exists e :: e in elems && Kept(e) && d == DownloadedPdf(e.caption.value, e.download.tempPath) {
        var e :| e in elems && Kept(e) && d == DownloadedPdf(e.caption.value, e.download.tempPath);
        if e != elems[n] {
          assert e in elems[..n];
        }
      }
    }
  }

  /** A file is deleted exactly when it was downloaded for a clicked element
      and does not start with `%PDF`. */
  lemma {:induction false} DeletedMembers(elems: seq<AttachmentElement>, path: string)
    ensures path in DeletedOf(elems) <==>
              exists e :: e in elems && Rejected(e) && path == e.download.tempPath
  {
    if elems != [] {
      var n := |elems| - 1;
      DeletedMembers(elems[..n], path);
      assert elems == elems[..n] + [elems[n]];
      if exists e :: e in elems && Rejected(e) && path == e.download.tempPath {
        var e :| e in elems && Rejected(e) && path == e.download.tempPath;
        if e != elems[n] {
          assert e in elems[..n];
        }
      }
    }
  }

  /** An element is clicked exactly when its caption mentions "PDF". */
  lemma {:induction false} ClickedIndicesMembers(elems: seq<AttachmentElement>, n: nat, k: nat)
    requires n <= |elems|
    ensures k in ClickedIndices(elems, n) <==> k < n && Clicked(elems[k])
  {
    if n > 0 {
      ClickedIndicesMembers(elems, n - 1, k);
    }
  }

  /** The elements are handled one by one: the result for a run of elements
      followed by another is the result of each, one after the other. */
  lemma {:induction false} DownloadedAppend(xs: seq<AttachmentElement>, ys: seq<AttachmentElement>)
    ensures DownloadedOf(xs + ys) == DownloadedOf(xs) + DownloadedOf(ys)
  {
    if ys == [] {
      assert xs + ys == xs;
    } else {
      var n := |ys| - 1;
      DownloadedAppend(xs, ys[..n]);
      assert (xs + ys)[..|xs + ys| - 1] == xs + ys[..n];
    }
  }

  /** An element whose download raised contributes nothing and does not
      stop the elements after it. */
  lemma FailedItemSkipped(xs: seq<AttachmentElement>, e: AttachmentElement, ys: seq<AttachmentElement>)
    requires e.download.Raised?
    ensures DownloadedOf(xs + [e] + ys) == DownloadedOf(xs + ys)
  {
    DownloadedAppend(xs + [e], ys);
    DownloadedAppend(xs, [e]);
    DownloadedAppend(xs, ys);
    assert DownloadedOf([e]) == [] by {
      assert [e][..0] == [];
    }
  }

  /** One step of the loop. */
  lemma DownloadStep(elems: seq<AttachmentElement>, i: nat)
    requires i < |elems|
    ensures DownloadedOf(elems[..i + 1]) == DownloadedOf(elems[..i]) + (if Kept(elems[i]) then [PdfOf(elems[i])] else [])
    ensures DeletedOf(elems[..i + 1]) == DeletedOf(elems[..i]) + (if Rejected(elems[i]) then [TempPathOf(elems[i])] else [])
    ensures ClickedIndices(elems, i + 1) == ClickedIndices(elems, i) + (if Clicked(elems[i]) then [i] else [])
  {
    assert elems[..i + 1][..i] == elems[..i];
  }

  /** The body of the `try` at taskcard_downloader.py:346-384 for one
      element: whether it is clicked, the entry it adds, the file it
      deletes. */
  method Visit(e: AttachmentElement) returns (clicked: bool, added: seq<DownloadedPdf>, deleted: seq<string>)
    ensures clicked == Clicked(e)
    ensures added == if Kept(e) then [PdfOf(e)] else []
    ensures deleted == if Rejected(e) then [TempPathOf(e)] else []
  {
    clicked, added, deleted := false, [], [];
    if e.caption.Some? {
      var captionText := e.caption.value;
      if IsPdfCaption(captionText) {
        clicked := true;
        match e.download
        case Raised =>
        case Saved(path, bytes) =>
          if |bytes| >= 4 && bytes[..4] == PdfMagic {
            added := [DownloadedPdf(captionText, path)];
          } else {
            deleted := [path];
          }
      }
    }
  }

  /** The loop at taskcard_downloader.py:345-387 over the found elements:
      returns the kept downloads, the temporary files deleted and the
      indices of the elements clicked. */
  method DownloadAll(elems: seq<AttachmentElement>) returns (downloaded: seq<DownloadedPdf>, deleted: seq<string>, clicked: seq<nat>)
    ensures downloaded == DownloadedOf(elems)
    ensures deleted == DeletedOf(elems)
    ensures clicked == ClickedIndices(elems, |elems|)
  {
    downloaded, deleted, clicked := [], [], [];
    var i := 0;
    while i < |elems|
      invariant 0 <= i <= |elems|
      invariant downloaded == DownloadedOf(elems[..i])
      invariant deleted == DeletedOf(elems[..i])
      invariant clicked == ClickedIndices(elems, i)
    {
      DownloadStep(elems, i);
      var wasClicked, added, removed := Visit(elems[i]);
      if wasClicked {
        clicked := clicked + [i];
      }
      downloaded := downloaded + added;
      deleted := deleted + removed;
      i := i + 1;
    }
    assert elems[..i] == elems;
  }

  /** `download_pdf_attachments_with_playwright` as a whole. */
  method DownloadPdfAttachments(page: Option<seq<AttachmentElement>>) returns (downloaded: seq<DownloadedPdf>)
    ensures downloaded == PdfAttachmentsOf(page)
  {
    downloaded := [];
    if page.Some? {
      var deleted, clicked;
      downloaded, deleted, clicked := DownloadAll(page.value);
    }
  }
}
