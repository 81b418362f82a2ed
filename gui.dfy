/** The two rules of the desktop front end that decide what is downloaded
    and where it is written: the input check of `start_download`
    (taskcard_downloader_gui.py:398-407) and the renaming of the output file
    after the board title (taskcard_downloader_gui.py:456-468). */
module Gui {
  import opened Wrappers
  import opened Text
  import opened Escape
  import opened Seqs

  // ---------------------------------------------------------------------
  // The input check
  // ---------------------------------------------------------------------

  const UrlMissing: string := "Bitte geben Sie eine Taskcard-URL ein."
  const OutputMissing: string := "Bitte geben Sie einen Ausgabe-Dateinamen an."

  /** The outcome of pressing the download button: an error dialog with its
      message and nothing else, or a download started with the stripped
      URL and output file name that `run_download` reads back. */
  datatype Start = Refused(message: string) | Started(url: string, outputFile: string)

  /** `start_download`: the URL is checked first, then the output file. */
  function StartDownload(url: string, outputFile: string): (r: Start)
    ensures r.Refused? <==> Blank(url) || Blank(outputFile)
    ensures Blank(url) ==> r == Refused(UrlMissing)
    ensures !Blank(url) && Blank(outputFile) ==> r == Refused(OutputMissing)
    ensures r.Started? ==> r.url != [] && r.outputFile != []
  {
    if Trim(url) == [] then Refused(UrlMissing)
    else if Trim(outputFile) == [] then Refused(OutputMissing)
    else Started(Trim(url), Trim(outputFile))
  }

  /** A started download uses the inputs without their surrounding
      whitespace, and stripping them again changes nothing. */
  lemma StartedTrimmed(url: string, outputFile: string)
    requires StartDownload(url, outputFile).Started?
    ensures StartDownload(url, outputFile) == Started(Trim(url), Trim(outputFile))
    ensures StartDownload(Trim(url), Trim(outputFile)) == StartDownload(url, outputFile)
  {
    TrimIdempotent(url);
    TrimIdempotent(outputFile);
  }

  // ---------------------------------------------------------------------
  // The file name taken from the board title
  // ---------------------------------------------------------------------

  /** The characters of the class `[<>:"/\\|?*]`. */
  predicate IsForbidden(c: char) {
    c == '<' || c == '>' || c == ':' || c == '"' || c == '/' || c == '\\' || c == '|' || c == '?' || c == '*'
  }

  predicate NoForbidden(s: string) {
    forall i :: 0 <= i < |s| ==> !IsForbidden(s[i])
  }

  /** `re.sub(r'[<>:"/\\|?*]', '', s)`: the other characters, in order. */
  function RemoveForbidden(s: string): (r: string)
    ensures |r| <= |s|
    ensures NoForbidden(r)
  {
    if |s| == 0 then []
    else (if IsForbidden(s[0]) then [] else [s[0]]) + RemoveForbidden(s[1..])
  }

  /** Removing forbidden characters is filtering by the complement of the
      character class: the other characters, each where it was. */
  lemma {:induction false} RemoveForbiddenIsFilter(s: string)
    ensures RemoveForbidden(s) == Filter(c => !IsForbidden(c), s)
  {
    if |s| != 0 {
      RemoveForbiddenIsFilter(s[1..]);
      FilterAppend(c => !IsForbidden(c), [s[0]], s[1..]);
      assert [s[0]][..0] == [];
      assert s == [s[0]] + s[1..];
    }
  }

  /** Removal works character by character and keeps the order: the result
      for a concatenation is the result for each part, one after the other. */
  lemma RemoveForbiddenAppend(a: string, b: string)
    ensures RemoveForbidden(a + b) == RemoveForbidden(a) + RemoveForbidden(b)
  {
    RemoveForbiddenIsFilter(a + b);
    RemoveForbiddenIsFilter(a);
    RemoveForbiddenIsFilter(b);
    FilterAppend(c => !IsForbidden(c), a, b);
  }

  /** A single character is dropped exactly when it is forbidden. */
  lemma RemoveForbiddenChar(c: char)
    ensures RemoveForbidden([c]) == if IsForbidden(c) then [] else [c]
  {
    assert [c][1..] == [];
  }

  /** Removing keeps every other character as often as it occurs. */
  lemma {:induction false} RemoveForbiddenCounts(s: string, c: char)
    ensures Count(RemoveForbidden(s), c) == if IsForbidden(c) then 0 else Count(s, c)
  {
    if |s| != 0 {
      RemoveForbiddenCounts(s[1..], c);
      var h := if IsForbidden(s[0]) then [] else [s[0]];
      CountAppend(h, RemoveForbidden(s[1..]), c);
      if h != [] {
        assert h[1..] == [];
      }
    }
  }

  lemma {:induction false} CountAppend(a: string, b: string, c: char)
    ensures Count(a + b, c) == Count(a, c) + Count(b, c)
  {
    if |a| != 0 {
      CountAppend(a[1..], b, c);
      assert (a + b)[1..] == a[1..] + b;
    } else {
      assert a + b == b;
    }
  }

  /** A string without forbidden characters is left as it is. */
  lemma {:induction false} RemoveForbiddenIdentity(s: string)
    requires NoForbidden(s)
    ensures RemoveForbidden(s) == s
  {
    if |s| != 0 {
      RemoveForbiddenIdentity(s[1..]);
      assert s == [s[0]] + s[1..];
    }
  }

  const TitleLimit: nat := 100

  /** `re.sub(...)`, then `[:100]`: the title before it is stripped. */
  function Truncated(title: string): string {
    Take(RemoveForbidden(title), TitleLimit)
  }

  /** `re.sub(...)`, then `[:100]`, then `strip()`. */
  function SafeTitle(title: string): (r: string)
    ensures |r| <= TitleLimit
    ensures NoForbidden(r)
    ensures r == [] || (!IsSpace(r[0]) && !IsSpace(r[|r| - 1]))
  {
    TrimNoForbidden(Truncated(title));
    Trim(Truncated(title))
  }

  /** A title that is already short enough, free of forbidden characters
      and without whitespace at either end is kept as it is. */
  lemma SafeTitleIdentity(title: string)
    requires NoForbidden(title) && |title| <= TitleLimit
    requires title == [] || (!IsSpace(title[0]) && !IsSpace(title[|title| - 1]))
    ensures SafeTitle(title) == title
  {
    RemoveForbiddenIdentity(title);
    assert Take(title, TitleLimit) == title;
    TrimOfTrimmed(title);
  }

  /** The sanitised title is the part of the first 100 remaining characters
      that stripping leaves: only whitespace is cut on either side. */
  lemma SafeTitlePiece(title: string)
    ensures exists a, b :: 0 <= a <= b <= |Truncated(title)| && SafeTitle(title) == Truncated(title)[a..b] &&
                           Blank(Truncated(title)[..a]) && Blank(Truncated(title)[b..])
  {
    var cut := Truncated(title);
    var a, b :| 0 <= a <= b <= |cut| && Trim(cut) == cut[a..b] && Blank(cut[..a]) && Blank(cut[b..]);
  }

  /** Stripping only removes characters. */
  lemma TrimNoForbidden(s: string)
    requires NoForbidden(s)
    ensures NoForbidden(Trim(s))
  {
    TrimInfix(s);
    var i :| 0 <= i <= |s| - |Trim(s)| && OccursAt(s, Trim(s), i);
    assert forall k :: 0 <= k < |Trim(s)| ==> Trim(s)[k] == s[i + k];
  }

  /** A title that holds nothing but forbidden characters and whitespace
      gives the file name ".pdf". */
  lemma {:induction false} SafeTitleEmpty(title: string)
    requires forall i :: 0 <= i < |title| ==> IsForbidden(title[i]) || IsSpace(title[i])
    ensures SafeTitle(title) == []
  {
    var cut := Truncated(title);
    RemovedBlank(title);
    assert Blank(cut);
  }

  lemma {:induction false} RemovedBlank(s: string)
    requires forall i :: 0 <= i < |s| ==> IsForbidden(s[i]) || IsSpace(s[i])
    ensures Blank(RemoveForbidden(s))
  {
    if |s| != 0 {
      RemovedBlank(s[1..]);
      var h := if IsForbidden(s[0]) then [] else [s[0]];
      var r := h + RemoveForbidden(s[1..]);
      assert forall i :: 0 <= i < |r| ==> IsSpace(r[i]) by {
        forall i | 0 <= i < |r| ensures IsSpace(r[i]) {
          if i >= |h| { assert r[i] == RemoveForbidden(s[1..])[i - |h|]; }
        }
      }
    }
  }

  /** The index of the last '/' in `path`, if any. */
  function LastSlash(path: string, n: nat): (r: Option<nat>)
    requires n <= |path|
    ensures r.Some? ==> r.value < n && path[r.value] == '/'
    ensures r.Some? ==> forall k :: r.value < k < n ==> path[k] != '/'
    ensures r.None? ==> forall k :: 0 <= k < n ==> path[k] != '/'
  {
    if n == 0 then None
    else if path[n - 1] == '/' then Some(n - 1)
    else LastSlash(path, n - 1)
  }

  /** The directory part of a path, including its last separator; empty for
      a bare file name. */
  function DirPrefix(path: string): string {
    match LastSlash(path, |path|)
    case None => []
    case Some(k) => path[..k + 1]
  }

  /** The file name part of a path: what follows the last separator. */
  function FileName(path: string): string {
    match LastSlash(path, |path|)
    case None => path
    case Some(k) => path[k + 1..]
  }

  /** Splitting a path into its directory part and its file name loses
      nothing. */
  lemma DirAndFileName(path: string)
    ensures DirPrefix(path) + FileName(path) == path
  {
  }

  /** `Path(output_file).parent / f"{safe_title}.pdf"` when the board has a
      title; the output file is left alone otherwise. */
  function OutputFileFor(outputFile: string, boardTitle: string): string {
    if boardTitle != [] then DirPrefix(outputFile) + SafeTitle(boardTitle) + ".pdf" else outputFile
  }

  /** The output file keeps its directory and is named after the sanitised
      board title. */
  lemma OutputFileRenamed(outputFile: string, boardTitle: string)
    requires boardTitle != []
    ensures DirPrefix(OutputFileFor(outputFile, boardTitle)) == DirPrefix(outputFile)
    ensures FileName(OutputFileFor(outputFile, boardTitle)) == SafeTitle(boardTitle) + ".pdf"
  {
    RenamedPath(outputFile, SafeTitle(boardTitle));
  }

  lemma RenamedPath(outputFile: string, title: string)
    requires NoForbidden(title)
    ensures DirPrefix(DirPrefix(outputFile) + title + ".pdf") == DirPrefix(outputFile)
    ensures FileName(DirPrefix(outputFile) + title + ".pdf") == title + ".pdf"
  {
    var dir, name := DirPrefix(outputFile), title + ".pdf";
    PdfNameNoSlash(title);
    JoinLastSlash(dir, name);
    assert dir + title + ".pdf" == dir + name;
    var p := dir + name;
    match LastSlash(outputFile, |outputFile|)
    case None =>
      assert dir == [] && p == name;
    case Some(k) =>
      assert dir[k] == '/';
      assert LastSlash(dir, |dir|) == Some(k);
      assert p[..k + 1] == dir;
      assert p[k + 1..] == name;
  }

  /** A sanitised title with ".pdf" appended holds no separator. */
  lemma PdfNameNoSlash(title: string)
    requires NoForbidden(title)
    ensures forall i :: 0 <= i < |title + ".pdf"| ==> (title + ".pdf")[i] != '/'
  {
    var name := title + ".pdf";
    forall i | 0 <= i < |name| ensures name[i] != '/' {
      if i < |title| {
        assert name[i] == title[i];
      } else {
        assert name[i] == ".pdf"[i - |title|];
      }
    }
  }

  /** Appending a name without separators leaves the last separator where
      it was. */
  lemma JoinLastSlash(dir: string, name: string)
    requires forall i :: 0 <= i < |name| ==> name[i] != '/'
    ensures LastSlash(dir + name, |dir + name|) == LastSlash(dir, |dir|)
  {
    var p := dir + name;
    forall k | |dir| <= k < |p| ensures p[k] != '/' {
      assert p[k] == name[k - |dir|];
    }
    LastSlashSkips(p, |dir|, |p|);
    LastSlashPrefix(p, dir, |dir|);
  }

  /** When no separator follows index `m`, the last separator before `n` is
      the last one before `m`. */
  lemma {:induction false} LastSlashSkips(path: string, m: nat, n: nat)
    requires m <= n <= |path|
    requires forall k :: m <= k < n ==> path[k] != '/'
    ensures LastSlash(path, n) == LastSlash(path, m)
    decreases n - m
  {
    if n > m {
      LastSlashSkips(path, m, n - 1);
    }
  }

  /** The search below `n` sees only the first `n` characters. */
  lemma {:induction false} LastSlashPrefix(p: string, dir: string, n: nat)
    requires n <= |dir| <= |p| && p[..|dir|] == dir
    ensures LastSlash(p, n) == LastSlash(dir, n)
  {
    if n > 0 {
      assert p[n - 1] == dir[n - 1];
      LastSlashPrefix(p, dir, n - 1);
    }
  }

  /** An untitled board keeps the output file the user gave. */
  lemma OutputFileKept(outputFile: string)
    ensures OutputFileFor(outputFile, []) == outputFile
  {
  }
}
