# taskcard-downloader, modelled in Dafny

taskcard-downloader saves a Taskcard board (a web pinboard of columns and
cards) as one PDF. It opens the board in a headless browser and scrolls
sideways so that lazily rendered columns load. A script run inside the page
reads the board: the title, the columns, and each card's title, description,
links and attachments. The downloader then clicks every attachment whose
caption mentions "PDF" and keeps the downloads that really are PDFs. It lays
out an overview with reportlab and appends the pages of the downloaded PDFs.
A small desktop front end checks the user's input and names the output file
after the board.

This project models that logic with the browser, reportlab, PyPDF2 and the
file system reduced to inputs:

- `Text` (text.dfy): `trim`/`strip`, `split('\n')`, `upper`, slicing and
  decimal rendering.
- `Escape` (escape.dfy): `_escape_html`.
- `Extraction` (extraction.dfy): the in-page script. It runs over an
  abstract DOM (the texts the script's selectors read) and returns the
  board value. Its loops are methods proved equal to reference functions.
- `PdfAttachments` (pdf_attachments.dfy): the attachment download loop. An
  oracle gives, for each element, the bytes that clicking it yields or
  says that it raised.
- `Story` (story.dfy): the reportlab story of `generate_pdf`, as a list of
  paragraph and spacer blocks. A paragraph is a style plus symbolic markup,
  and `Render` gives the markup string reportlab would receive.
- `Merge` (merge.dfy): `_merge_pdfs` and the end of `generate_pdf`. Files
  are modelled by what reading them yields.
- `Scroll` (scroll.dfy): the horizontal scroll schedules.
- `Gui` (gui.dfy): the input check and the output-file renaming of the front
  end.
- `Seqs` and `Wrappers`: order-preserving map and filter, and `Option`.

The overview has no table of contents and no chapter numbering. Columns
come only from `.draggableList`.

## Model

| member | source | states |
|---|---|---|
| Text.Trim | taskcard_downloader.py:193-197 | `trim()`: the result is a slice of the input with only whitespace before and after it. It is empty exactly when the text is whitespace only; otherwise it starts and ends with a non-space character. |
| Text.TrimInfix | taskcard_downloader.py:193-197 | Trimming keeps one contiguous piece of the text. |
| Text.TrimOfTrimmed | taskcard_downloader.py:193-197 | A text with no whitespace at either end is left unchanged. |
| Text.TrimIdempotent | taskcard_downloader.py:193-197 | Trimming twice is the same as trimming once. |
| Text.Split | taskcard_downloader.py:516 | `split('\n')` returns at least one piece, and no piece contains the separator. |
| Text.JoinSplit | taskcard_downloader.py:516 | Joining the pieces with the separator gives back the text. |
| Text.SplitBlank | taskcard_downloader.py:514-518 | Every piece of a blank text is blank. |
| Text.Take | taskcard_downloader.py:543 | `s[:n]` is the first n characters, or all of them when there are fewer. |
| Text.Upper | taskcard_downloader.py:353 | `upper()` maps each character in place and keeps the length. |
| Text.NatToString | taskcard_downloader.py:496 | `str(n)` is a non-empty string of decimal digits with no leading zero except for 0 itself. |
| Text.NatToStringValue | taskcard_downloader.py:496 | Reading the digits back gives `n`, so different indices render differently. |
| Escape.ReplaceAll | taskcard_downloader.py:631-633 | Python `str.replace` with a one-character pattern: every occurrence is replaced and everything else is kept in order. Definition; `ReplaceAppend`, `ReplaceSingle` and `ReplaceAbsent` pin it down. |
| Escape.ThreePasses | taskcard_downloader.py:631-633 | The three `replace` passes of `_escape_html`, `&` first, then `<`, then `>`. Definition; `ThreePassesIsEscapeEach` shows it equals escaping each character on its own. |
| Escape.ReplaceAppend | taskcard_downloader.py:631-633 | `replace` of one character works piecewise over a concatenation. |
| Escape.ReplaceSingle | taskcard_downloader.py:631-633 | `replace` on a one-character string. |
| Escape.ReplaceAbsent | taskcard_downloader.py:631-633 | `replace` of a character that does not occur changes nothing. |
| Escape.ThreePassesOne | taskcard_downloader.py:631-633 | The three passes escape a single character as the one-pass escape does. |
| Escape.ThreePassesAppend | taskcard_downloader.py:631-633 | The three passes work piecewise over a concatenation. |
| Escape.ThreePassesIsEscapeEach | taskcard_downloader.py:631-633 | Because `&` is replaced first, the three passes equal escaping each character once, left to right. |
| Escape.EscapeEachNoAngles | taskcard_downloader.py:631-633 | The per-character escape produces no `<` and no `>`. |
| Escape.EscapeEachIdentity | taskcard_downloader.py:631-633 | The per-character escape leaves text without `&`, `<`, `>` unchanged. |
| Escape.EscapeEachLength | taskcard_downloader.py:631-633 | Each `&` adds 4 characters to the length, and each `<` or `>` adds 3. |
| Escape.EscapeHtml | taskcard_downloader.py:626-634 | Empty input gives `""`. |
| Escape.EscapeHtmlIsEscapeEach | taskcard_downloader.py:626-634 | `_escape_html` escapes every character on its own. |
| Escape.EscapeHtmlNoAngles | taskcard_downloader.py:626-634 | The output contains no `<` and no `>`. |
| Escape.EscapeHtmlIdentity | taskcard_downloader.py:626-634 | Text without `&`, `<`, `>` is returned unchanged. |
| Escape.EscapeHtmlLength | taskcard_downloader.py:626-634 | Output length = input length + 4·#`&` + 3·#`<` + 3·#`>`. |
| Escape.UnescapeEscape | taskcard_downloader.py:626-634 | The escape loses nothing: decoding `&amp;`, `&lt;`, `&gt;` gives back the text. |
| Escape.UnescapeEach | taskcard_downloader.py:631-633 | Decoding inverts the per-character escape. |
| Escape.UnescapeCons | taskcard_downloader.py:631-633 | Decoding reads an escaped character back off the front. |
| Escape.UnescapeLt | taskcard_downloader.py:632 | Decoding `&lt;` gives `<`. |
| Escape.UnescapeGt | taskcard_downloader.py:633 | Decoding `&gt;` gives `>`. |
| Extraction.IsLineTerminator | taskcard_downloader.py:265 | The characters a regex `.` does not match: line feed, carriage return, U+2028 and U+2029. Definition used by `MatchAt`. |
| Extraction.LinkText | taskcard_downloader.py:247 | `link.innerText.trim() \|\| link.href`: the stripped text, or the URL when the stripped text is empty. Definition. |
| Extraction.LinkOf | taskcard_downloader.py:246-250 | The pushed record `{ text, url: href }`. Definition. |
| Extraction.FirstWithHref | taskcard_downloader.py:249 | `!card.links.find(l => l.url === href)`, stated on the anchors: no earlier anchor has the same URL. `FirstWithHrefIff` and `DedupLinksStep` tie it to the list built so far. |
| Extraction.FirstAnchors | taskcard_downloader.py:244-252 | The anchors that are the first with their URL, in document order. Definition; `FirstAnchorsDistinct`, `FirstAnchorsHrefs` and `FirstAnchorsTakeFirsts` describe it. |
| Extraction.DedupLinks | taskcard_downloader.py:244-252 | Reference definition of `card.links`: the link of each anchor that is the first with its URL, in document order. `ExtractLinks` computes it; `DedupLinksMembers` and `DedupLinksDistinct` describe it. |
| Extraction.HasCaption | taskcard_downloader.py:272 | `if (fileInfo)`: the element has a `.text-caption`. Definition. |
| Extraction.AttachmentsOf | taskcard_downloader.py:255-279 | Reference definition of `card.attachments`: the record of each captioned element, in document order. `ExtractAttachments` computes it; `AttachmentsSpec` describes it. |
| Extraction.CardOf | taskcard_downloader.py:221-280 | The card built from one `.draggableCard`: the stripped header text or empty; with a `.board-card-content`, the stripped first `.contenteditable`, the de-duplicated links and the attachments, otherwise all empty. Definition; `ExtractCard` computes it. |
| Extraction.HasContent | taskcard_downloader.py:283 | The card retention test: a title, a description, a link or an attachment. Definition; `CardRetained` states it on the DOM. |
| Extraction.ColumnOf | taskcard_downloader.py:212-286 | The column built from one `.draggableList`: the stripped header text or empty, and the kept cards. Definition. |
| Extraction.KeepColumn | taskcard_downloader.py:289 | The column retention test: a title or at least one card. Definition; `ColumnRetained` states it on the DOM. |
| Extraction.KeptCards | taskcard_downloader.py:218-286 | The cards a column keeps, in document order. Definition; `CardRetained` and `KeptCardsAppend` describe it. |
| Extraction.KeptColumns | taskcard_downloader.py:202-291 | The columns the board keeps, in document order. Definition; `ColumnRetained` and `KeptColumnsAppend` describe it. |
| Extraction.BoardOf | taskcard_downloader.py:184-295 | Reference definition of the value the script returns: the board title and the kept columns. `ExtractBoard` computes it; `BoardWellFormed` describes it. |
| Extraction.LazyGroupEnd | taskcard_downloader.py:265 | The lazy group `(.+?)` ends at the first `")` after at least one character, with no line break before it. |
| Extraction.OccursInSuffix | taskcard_downloader.py:265 | A word occurs in a suffix of a text exactly where it occurs, shifted, in the whole text. |
| Extraction.MatchAt | taskcard_downloader.py:265 | A match at a position is a non-empty text without line breaks that stands between `url("` and `")` there. The lazy group ends at the first `")` after its first character. |
| Extraction.SearchFrom | taskcard_downloader.py:265 | The result is the match at the leftmost position, at or after the given one, where the regex matches. No position before it matches. There is no result only when no such position matches. |
| Extraction.UrlMatch | taskcard_downloader.py:265-267 | `match(/url\("(.+?)"\)/)[1]` is a non-empty text without line breaks that occurs between `url("` and `")`. It is the group of the leftmost position where the regex matches. There is no result exactly when no position matches. |
| Extraction.FileUrl | taskcard_downloader.py:259-270 | `fileUrl` is null when there is no image element. When it is set, it is the group of the leftmost match in the style. With an image element, it is null exactly when the regex matches nowhere. |
| Extraction.LazyGroupFinds | taskcard_downloader.py:265 | If a `")` follows with no line break before it, the lazy group finds an end. |
| Extraction.SearchFinds | taskcard_downloader.py:265 | Any `url("u")` at or after a position makes the search succeed. |
| Extraction.MatchAtFinds | taskcard_downloader.py:265 | A `url("u")` at a position makes the match there succeed. |
| Extraction.UrlMatchComplete | taskcard_downloader.py:265 | Any `url("u")` with a non-empty `u` without line breaks makes the regex match. |
| Extraction.LazyGroupExact | taskcard_downloader.py:265 | The lazy group stops exactly at the closing `")` when the URL has no quote. |
| Extraction.UrlMatchGroupStartsWithClose | taskcard_downloader.py:265 | The group takes one character before it looks for `")`: `url("")x")` gives `")x`. |
| Extraction.UrlMatchLeading | taskcard_downloader.py:265-267 | A style that starts with `url("u")`, for `u` without quotes or line breaks, gives `u` whatever follows it. |
| Extraction.UrlMatchRoundTrip | taskcard_downloader.py:262-267 | For a URL without quotes or line breaks, `url("u")` gives back `u`. |
| Extraction.DedupLinksOfFirsts | taskcard_downloader.py:244-252 | `card.links` is the link of every anchor that is the first with its `href`, in document order. |
| Extraction.FirstWithHrefIff | taskcard_downloader.py:249 | An anchor is the first with its URL exactly when no earlier anchor has that URL. |
| Extraction.FirstAnchorsHrefs | taskcard_downloader.py:244-252 | The first-seen anchors carry exactly the URLs of all anchors. |
| Extraction.FirstAnchorsDistinct | taskcard_downloader.py:244-252 | No URL is taken twice. |
| Extraction.FirstAnchorsAreFirsts | taskcard_downloader.py:244-252 | Every anchor taken is the first with its URL. |
| Extraction.FirstAnchorsTakeFirsts | taskcard_downloader.py:244-252 | Every anchor that is the first with its URL is taken. |
| Extraction.DedupLinkAt | taskcard_downloader.py:246-250 | The k-th link is `{text: innerText.trim() \|\| href, url: href}` of the k-th first-seen anchor. |
| Extraction.DedupLinksUrls | taskcard_downloader.py:244-252 | `card.links` has a link with URL `u` exactly when some anchor has `href` `u`. |
| Extraction.DedupLinksDistinct | taskcard_downloader.py:249 | No URL appears twice in `card.links`. |
| Extraction.DedupLinksMembers | taskcard_downloader.py:244-252 | A link is in `card.links` exactly when it is the link of an anchor that is the first with its URL, so the first-seen text is kept. |
| Extraction.DedupLinksFromFirsts | taskcard_downloader.py:244-252 | Each link comes from a first-seen anchor. |
| Extraction.DedupLinksHasFirst | taskcard_downloader.py:244-252 | Each first-seen anchor gives a link. |
| Extraction.DedupLinksStep | taskcard_downloader.py:249-251 | An anchor appends its link exactly when no link so far has its URL. |
| Extraction.ExtractLinks | taskcard_downloader.py:244-252 | The loop produces the de-duplicated links. |
| Extraction.AttachmentOf | taskcard_downloader.py:257-278 | A record's `url` is `fileUrl`, and its `info` is the trimmed caption. |
| Extraction.AttachmentsSpec | taskcard_downloader.py:255-279 | A record is produced for exactly the elements that have a `.text-caption`. |
| Extraction.AttachmentsStep | taskcard_downloader.py:272-278 | A captioned element appends its record, and any other element appends nothing. |
| Extraction.ExtractAttachments | taskcard_downloader.py:255-279 | The loop produces the record of every captioned element, in document order. |
| Extraction.BoardTitle | taskcard_downloader.py:190-199 | The title is `.board-information-title` when present, even if blank. Otherwise it is the first `h1, .board-header-container .text-h5`, and otherwise empty. |
| Extraction.ExtractCard | taskcard_downloader.py:220-280 | The card body builds the card from its header and content. |
| Extraction.ExtractBoard | taskcard_downloader.py:183-296 | The script returns the title and the kept columns with their kept cards, in DOM order. |
| Extraction.DedupLinksNonEmpty | taskcard_downloader.py:244-252 | A card has links exactly when its content has anchors. |
| Extraction.AttachmentsNonEmpty | taskcard_downloader.py:255-279 | A card has attachments exactly when one of its attachment elements has a caption. |
| Extraction.CardRetained | taskcard_downloader.py:282-285 | A card is kept exactly when at least one holds: its trimmed header is non-empty, its trimmed text is non-empty, it has an anchor, or it has a captioned attachment element. |
| Extraction.ColumnRetained | taskcard_downloader.py:288-291 | A column is kept exactly when its trimmed header is non-empty or it keeps a card. |
| Extraction.KeptCardsAppend | taskcard_downloader.py:220-286 | Keeping cards preserves DOM order and decides each card on its own. |
| Extraction.KeptColumnsAppend | taskcard_downloader.py:205-292 | Keeping columns preserves DOM order and decides each column on its own. |
| Extraction.AttachmentsTrimmed | taskcard_downloader.py:273 | Every attachment `info` is trimmed. |
| Extraction.KeptCardWellFormed | taskcard_downloader.py:220-286 | Every kept card has content, trimmed texts and distinct link URLs. |
| Extraction.KeptColumnWellFormed | taskcard_downloader.py:205-292 | Every kept column has a title or cards, a trimmed title, and well-formed cards. |
| Extraction.BoardWellFormed | taskcard_downloader.py:183-296 | Every board the script returns is well formed. |
| Seqs.Map | taskcard_downloader.py:205-292 | Mapping keeps the length. |
| Seqs.MapIndex | taskcard_downloader.py:205-292 | The i-th image is the image of the i-th element. |
| Seqs.Filter | taskcard_downloader.py:282-291 | Filtering never lengthens. |
| Seqs.FilterMember | taskcard_downloader.py:282-291 | Filtering keeps exactly the elements that pass. |
| Seqs.FilterAppend | taskcard_downloader.py:282-291 | Filtering preserves order across a concatenation. |
| Seqs.FilterEmpty | taskcard_downloader.py:282-291 | The filter is empty exactly when no element passes. |
| Seqs.MapAppend | taskcard_downloader.py:205-292 | Mapping preserves order across a concatenation. |
| Seqs.MapMembers | taskcard_downloader.py:205-292 | The image holds exactly the images of the elements. |
| Seqs.FilterStep | taskcard_downloader.py:282-291 | One loop step of "push if it qualifies". |
| Seqs.MapStep | taskcard_downloader.py:205-292 | One loop step of "push the image". |
| Seqs.FilterMapStep | taskcard_downloader.py:282-291 | One loop step of "compute, then push if it qualifies". |
| Seqs.MapFilterStep | taskcard_downloader.py:272-278 | One loop step of "push the image of the ones that qualify". |
| PdfAttachments.IsPdfCaption | taskcard_downloader.py:353 | `'PDF' in caption_text.upper()`, on the caption as read (not stripped). Definition. |
| PdfAttachments.StartsWithMagic | taskcard_downloader.py:370-371 | `f.read(4) == b'%PDF'`: a file shorter than four bytes never matches. Definition. |
| PdfAttachments.Clicked | taskcard_downloader.py:348-359 | The element is clicked: it has a caption and the caption mentions "PDF". Definition; `ClickedIndicesMembers` uses it. |
| PdfAttachments.Kept | taskcard_downloader.py:348-377 | The element ends up in the list: clicked, saved, and its file starts with `%PDF`. Definition; `DownloadedMembers` uses it. |
| PdfAttachments.Rejected | taskcard_downloader.py:378-381 | The element's file is deleted: clicked and saved, but its file does not start with `%PDF`. Definition; `DeletedMembers` uses it. |
| PdfAttachments.PdfOf | taskcard_downloader.py:373-376 | The entry `{ 'info': caption_text, 'file_path': temp_file.name }`. Definition. |
| PdfAttachments.TempPathOf | taskcard_downloader.py:364-367 | The temporary file a download was saved to. Definition. |
| PdfAttachments.DownloadedOf | taskcard_downloader.py:345-387 | The result list is never longer than the list of elements. |
| PdfAttachments.DeletedOf | taskcard_downloader.py:379-381 | At most one temporary file is deleted per element. |
| PdfAttachments.ClickedIndices | taskcard_downloader.py:349-360 | Clicked indices lie among the elements visited. |
| PdfAttachments.PdfAttachmentsOf | taskcard_downloader.py:340-396 | When the page cannot be opened or scrolled, the result is empty. |
| PdfAttachments.DownloadedMembers | taskcard_downloader.py:345-387 | An entry is kept exactly for an element that has a caption, whose upper-cased caption contains "PDF", and whose download starts with `%PDF`. The entry holds the untrimmed caption and the temporary path. |
| PdfAttachments.DeletedMembers | taskcard_downloader.py:371-381 | A file is deleted exactly when a clicked element's download does not start with `%PDF`. |
| PdfAttachments.ClickedIndicesMembers | taskcard_downloader.py:349-360 | An element is clicked exactly when it has a caption mentioning "PDF". |
| PdfAttachments.DownloadedAppend | taskcard_downloader.py:345-387 | The elements are handled one by one, in order. |
| PdfAttachments.FailedItemSkipped | taskcard_downloader.py:386-387 | An element whose download raised contributes nothing and does not stop later elements. |
| PdfAttachments.DownloadStep | taskcard_downloader.py:345-387 | One loop step: the entry added, the file deleted and the click made. |
| PdfAttachments.Visit | taskcard_downloader.py:346-384 | For one element: whether it is clicked, the entry it adds, the file it deletes. |
| PdfAttachments.DownloadAll | taskcard_downloader.py:345-387 | The loop returns the kept entries, the deleted files and the clicked indices. |
| PdfAttachments.DownloadPdfAttachments | taskcard_downloader.py:313-396 | The whole operation equals its reference definition. |
| Story.BoardLabel | taskcard_downloader.py:471-474 | The escaped board title, or "Taskcard Board" when it is empty. Definition; `TitledLabelsShow` and `StoryTitle` describe it. |
| Story.ColumnLabel | taskcard_downloader.py:493-496 | "▶ " and the escaped title, or "▶ Spalte " and `str(i + 1)` for an untitled column. Definition; `ColumnFallbacksDistinct` and `TitledLabelsShow` describe it. |
| Story.CardLabel | taskcard_downloader.py:508-511 | "● " and the escaped title, or "● Karte " and `str(j + 1)` for an untitled card. Definition; `CardFallbacksDistinct` and `TitledLabelsShow` describe it. |
| Story.AttachmentMarkup | taskcard_downloader.py:535 | "📎 " and the escaped `info`. Definition. |
| Story.LinkLabel | taskcard_downloader.py:543 | The first 80 characters of a link text, escaped. Definition; `LinkLabelShows` describes it. |
| Story.LinkMarkup | taskcard_downloader.py:543-545 | "🔗 <a href='url' color='blue'>label</a>" with the URL unescaped, then "..." when the text is longer than 80 characters. Definition; `LinkLabelShows` describes it. |
| Story.Render | taskcard_downloader.py:472-546 | The markup string reportlab receives for each kind of paragraph; a description line is stripped, then escaped. Definition. |
| Story.LineDoc | taskcard_downloader.py:518-519 | A description line: a content paragraph when it is not blank, nothing otherwise. Definition. |
| Story.LineDocs | taskcard_downloader.py:517-519 | The description lines, in order. Definition; `AppendLines` computes it. |
| Story.DescDoc | taskcard_downloader.py:514-519 | The description: nothing when it is empty or blank, otherwise its lines split at `\n`. Definition; `CardDescription` describes it. |
| Story.AttachDocs | taskcard_downloader.py:522-538 | One "📎" paragraph per attachment, in order. Definition; `AppendAttachments` computes it. |
| Story.LinkDocs | taskcard_downloader.py:541-546 | One link paragraph per link, in order. Definition; `AppendLinks` computes it. |
| Story.CardDoc | taskcard_downloader.py:508-548 | One card: its heading, its description, its attachments, its links, then a 0.2 cm spacer. Definition; `AppendCard` computes it and `CardBlocks` describes it. |
| Story.CardDocs | taskcard_downloader.py:506-548 | The cards of a column, in order, each with its index. Definition; `AppendCards` computes it. |
| Story.ColumnDoc | taskcard_downloader.py:493-550 | One column: its heading, then the placeholder or its cards, then a 0.4 cm spacer. Definition; `AppendColumn` computes it. |
| Story.ColumnDocs | taskcard_downloader.py:491-550 | The columns, in order, each with its index. Definition; `AppendColumns` computes it. |
| Story.HeaderDoc | taskcard_downloader.py:470-488 | The title, a 0.3 cm spacer, "Erstellt am: " with the time stamp, and a 0.8 cm spacer. Definition; `StoryTitle` and `StoryDate` describe it. |
| Story.StoryDoc | taskcard_downloader.py:470-550 | The header, then the columns. Definition. |
| Story.StoryOf | taskcard_downloader.py:470-550 | Reference definition of the story `generate_pdf` builds. `BuildStory` computes it; `StoryTexts`, `StoryColumnHeadings`, `StoryPlaceholders` and `StoryCardHeadings` describe it. |
| Story.ColumnFallbacksDistinct | taskcard_downloader.py:496 | "▶ Spalte i+1" differs for different indices. |
| Story.CardFallbacksDistinct | taskcard_downloader.py:511 | "● Karte j+1" differs for different indices. |
| Story.TitledLabelsShow | taskcard_downloader.py:471-511 | A non-empty board, column or card title is shown escaped and can be read back. |
| Story.LinkLabelShows | taskcard_downloader.py:543-545 | A link shows its first 80 characters, and "..." is appended exactly when the text is longer than 80. |
| Story.TextsAppend | taskcard_downloader.py:470-550 | Reading paragraphs of one style works piecewise over appended blocks. |
| Story.TextsBlocks | taskcard_downloader.py:470-550 | Reading the blocks of a part equals reading the part. |
| Story.TextsBlocksAll | taskcard_downloader.py:470-550 | Reading the blocks of parts equals reading the parts. |
| Story.LineDocsTexts | taskcard_downloader.py:517-519 | Description lines give only content paragraphs. |
| Story.DescDocTexts | taskcard_downloader.py:514-519 | A description gives only content paragraphs. |
| Story.AttachDocsTexts | taskcard_downloader.py:532-538 | Attachments give only attachment paragraphs. |
| Story.LinkDocsTexts | taskcard_downloader.py:541-546 | Links give only link paragraphs. |
| Story.CardTexts | taskcard_downloader.py:506-548 | Outside the content styles, a card shows its heading and nothing else. |
| Story.CardHeadings | taskcard_downloader.py:506-511 | One heading per card. |
| Story.CardsTexts | taskcard_downloader.py:506-548 | The cards of a column show their headings, in order. |
| Story.ColumnDocTexts | taskcard_downloader.py:491-550 | A column shows its heading, then the placeholder or its cards' headings. |
| Story.ColumnDocsTexts | taskcard_downloader.py:491-550 | The columns show their parts in order. |
| Story.HeaderDocTexts | taskcard_downloader.py:470-488 | The header shows the title and the date line. |
| Story.StoryTexts | taskcard_downloader.py:470-550 | Outside the content styles, the story is the header followed by the columns. |
| Story.StoryTitle | taskcard_downloader.py:470-474 | There is exactly one title paragraph, and it renders as "Taskcard Board" when the board title is empty. |
| Story.StoryDate | taskcard_downloader.py:487 | There is exactly one date line, "Erstellt am: " plus the time stamp. |
| Story.ColumnsNoHeader | taskcard_downloader.py:491-550 | Columns contain no title or date paragraph. |
| Story.ColumnHeadings | taskcard_downloader.py:493-496 | One heading per column. |
| Story.StoryColumnHeadings | taskcard_downloader.py:491-496 | The column headings are one per column, in order, and each carries the column's index. |
| Story.ColumnsHeadings | taskcard_downloader.py:491-496 | The same, from any column index on. |
| Story.EmptyColumns | taskcard_downloader.py:498 | Empty columns are counted. |
| Story.StoryPlaceholders | taskcard_downloader.py:498-504 | There is exactly one "Keine Karten vorhanden" paragraph per column without cards, and no other placeholder. |
| Story.ColumnsPlaceholders | taskcard_downloader.py:498-504 | The same, from any column index on. |
| Story.StoryCardHeadings | taskcard_downloader.py:506-511 | The card headings are one per card, column after column, and the card index restarts in each column. |
| Story.ColumnsCardHeadings | taskcard_downloader.py:506-511 | The same, from any column index on. |
| Story.AttachmentLines | taskcard_downloader.py:532-538 | One attachment line per attachment. |
| Story.LinkLines | taskcard_downloader.py:541-546 | One link line per link. |
| Story.NonBlankLines | taskcard_downloader.py:517-519 | Only non-blank lines are shown. |
| Story.AttachDocsShow | taskcard_downloader.py:532-538 | The attachments show one "📎" line each, in order. |
| Story.LinkDocsShow | taskcard_downloader.py:541-546 | The links show one link line each, in order. |
| Story.LineDocsShow | taskcard_downloader.py:517-519 | The description shows its non-blank lines, in order. |
| Story.CardAttachments | taskcard_downloader.py:522-538 | A card shows each attachment once, in order. |
| Story.CardLinks | taskcard_downloader.py:541-546 | A card shows each link once, in order. |
| Story.CardDescription | taskcard_downloader.py:514-519 | A card shows the non-blank lines of its description, in order. A blank description shows none. |
| Story.BlankLinesNone | taskcard_downloader.py:517-519 | Blank lines show nothing. |
| Story.DescGuardRedundant | taskcard_downloader.py:514 | The guard `description and description.strip()` changes nothing. |
| Story.CardBlocks | taskcard_downloader.py:506-548 | A card's blocks come in a fixed order: heading, description lines, attachments, links, then a 0.2 cm spacer. |
| Story.AppendLines | taskcard_downloader.py:517-519 | The loop appends exactly the description-line blocks. |
| Story.AppendAttachments | taskcard_downloader.py:532-538 | The loop appends exactly the attachment blocks. |
| Story.AppendLinks | taskcard_downloader.py:542-546 | The loop appends exactly the link blocks. |
| Story.AppendCard | taskcard_downloader.py:506-548 | One iteration appends exactly the card's blocks. |
| Story.AppendCards | taskcard_downloader.py:506-548 | The loop appends the cards' blocks, in order. |
| Story.AppendColumn | taskcard_downloader.py:491-550 | One iteration appends the heading, the placeholder or the cards, then a 0.4 cm spacer. |
| Story.AppendColumns | taskcard_downloader.py:491-550 | The loop appends the columns' blocks, in order. |
| Story.BuildStory | taskcard_downloader.py:470-550 | The story is the header followed by the columns. |
| Merge.ReadingAt | taskcard_downloader.py:606-607 | What opening and reading a file yields; a file that is not there cannot be read. Definition. |
| Merge.PdfWriter.constructor | taskcard_downloader.py:594 | `PdfWriter()` starts with no pages. |
| Merge.ItemPages | taskcard_downloader.py:606-610 | The pages one attachment adds: those read before its reader finished or raised. Definition. |
| Merge.AttachmentPages | taskcard_downloader.py:603-615 | The pages of the attachments, in list order. Definition; `AttachmentPagesAppend`, `AttachmentPagesOrder` and `FailedAttachmentSkipped` describe it. |
| Merge.FinalDocument | taskcard_downloader.py:573-580 | The output of `generate_pdf`: the merge when there are attachments, otherwise a copy of the overview. Definition; `WriteOutput` computes it. |
| Merge.PdfWriter.AddPage | taskcard_downloader.py:600 | `add_page` appends one page. |
| Merge.PdfWriter.AddPages | taskcard_downloader.py:599-600 | The page loop appends the reader's pages, in order. |
| Merge.RemovedFiles | taskcard_downloader.py:603-615 | At most one file is deleted per attachment. |
| Merge.MergedOf | taskcard_downloader.py:593-623 | Something is written exactly when the overview can be read. |
| Merge.AttachmentPagesAppend | taskcard_downloader.py:603-615 | The attachments are merged one after the other. |
| Merge.AttachmentPagesSingle | taskcard_downloader.py:606-610 | One attachment contributes its own pages. |
| Merge.FailedAttachmentSkipped | taskcard_downloader.py:614-615 | An attachment that cannot be read contributes no pages and does not stop the rest. |
| Merge.AttachmentPagesOrder | taskcard_downloader.py:603-615 | Each attachment's pages follow those of the attachments before it. |
| Merge.FinalDocumentWithoutAttachments | taskcard_downloader.py:574-580 | Without attachments the output is the overview copied verbatim. |
| Merge.RemovedFilesMembers | taskcard_downloader.py:606-613 | A file is deleted exactly when its attachment was read without an exception. |
| Merge.MergeStep | taskcard_downloader.py:603-615 | One loop step: the pages added and the file deleted. |
| Merge.MergePdfs | taskcard_downloader.py:591-623 | The pages written are the overview's pages followed by each attachment's pages, in list order. The deleted files are those read without error. Nothing is written or deleted when the overview cannot be read. |
| Merge.WriteOutput | taskcard_downloader.py:573-583 | The output is the merge when there are attachments, otherwise the overview. |
| Scroll.StepCount | taskcard_downloader.py:143-153 | How many times the stepping loop runs: the number of multiples of 600 below the width. Definition. |
| Scroll.StepMoves | taskcard_downloader.py:143-153 | Positions 0, 600, 1200, … below the width, each followed by the same wait. Definition; `StepThrough` computes it and `StepMovesInside` and `StepMovesCover` describe it. |
| Scroll.FetchScrolls | taskcard_downloader.py:129-175 | The scrolling of `fetch_taskcard_data`: nothing without `.board-container`; otherwise the steps with 800 ms each, then the end and the start with 2000 ms each. Definition; `FetchScrollsShape` describes it. |
| Scroll.AttachmentScrolls | taskcard_downloader.py:329-339 | The scrolling before the attachments are collected: the steps with 500 ms each, then the start with 1000 ms. Definition; `AttachmentScrollsShape` describes it. |
| Scroll.StepThrough | taskcard_downloader.py:140-153 | The loop visits 0, 600, 1200, … below the scroll width, waiting the same time after each. |
| Scroll.StepMovesInside | taskcard_downloader.py:143-153 | Every visited position is a multiple of 600 below the width. There is at least one position exactly when the width is positive. |
| Scroll.StepMovesCover | taskcard_downloader.py:143-153 | Every offset below the width lies within 600 pixels after a visited position. |
| Scroll.ScrollForFetch | taskcard_downloader.py:129-167 | Fetching scrolls in 600-pixel steps at 800 ms, then to the end, then back to 0. |
| Scroll.ScrollForAttachments | taskcard_downloader.py:329-339 | Collecting attachments scrolls in 600-pixel steps at 500 ms, then back to 0. |
| Scroll.TotalWaitAppend | taskcard_downloader.py:129-167 | Waiting times add up over consecutive moves. |
| Scroll.StepMovesWait | taskcard_downloader.py:143-153 | The stepping waits the same time per position. |
| Scroll.FetchScrollsShape | taskcard_downloader.py:129-167 | Fetching ends at position 0, right after the end position, and waits 800 ms per step plus 4 s. |
| Scroll.AttachmentScrollsShape | taskcard_downloader.py:329-339 | Collecting attachments ends at position 0 and waits 500 ms per step plus 1 s. |
| Gui.IsForbidden | taskcard_downloader_gui.py:460 | The character class `[<>:"/\\\|?*]`. Definition. |
| Gui.Truncated | taskcard_downloader_gui.py:460-462 | The title after `re.sub` and `[:100]`, before `strip()`. Definition; `SafeTitlePiece` describes how `SafeTitle` relates to it. |
| Gui.DirPrefix | taskcard_downloader_gui.py:465-467 | `Path(output_file).parent`: the path up to and including its last `/`, empty for a bare name. Definition; `DirAndFileName` and `OutputFileRenamed` describe it. |
| Gui.FileName | taskcard_downloader_gui.py:465-467 | The file name part of a path: what follows its last `/`. Definition; `DirAndFileName` and `OutputFileRenamed` describe it. |
| Gui.OutputFileFor | taskcard_downloader_gui.py:456-468 | The output file after the download: with a board title, the same directory and the name `safe_title + ".pdf"`; without one, unchanged. Definition; `OutputFileRenamed` and `OutputFileKept` describe it. |
| Gui.StartDownload | taskcard_downloader_gui.py:398-407 | A download is refused exactly when the URL or the output file is blank. The URL is checked first, with its own message. A started download has non-empty values. |
| Gui.StartedTrimmed | taskcard_downloader_gui.py:401-407 | A started download uses the stripped inputs, and stripping them again changes nothing. |
| Gui.RemoveForbidden | taskcard_downloader_gui.py:460 | The result contains none of `< > : " / \ \| ? *` and is no longer than the input. |
| Gui.RemoveForbiddenIsFilter | taskcard_downloader_gui.py:460 | Removal equals the order-preserving filter that keeps the characters outside the class. |
| Gui.RemoveForbiddenAppend | taskcard_downloader_gui.py:460 | The result for a concatenation is the result for each part, in the same order. |
| Gui.RemoveForbiddenChar | taskcard_downloader_gui.py:460 | A single character is dropped exactly when it is in the class. |
| Gui.RemoveForbiddenCounts | taskcard_downloader_gui.py:460 | Every other character is kept as often as it occurs. |
| Gui.RemoveForbiddenIdentity | taskcard_downloader_gui.py:460 | A title without forbidden characters is left unchanged. |
| Gui.SafeTitle | taskcard_downloader_gui.py:460-462 | The sanitised title has at most 100 characters, contains no forbidden character, and has no whitespace at either end. |
| Gui.TrimNoForbidden | taskcard_downloader_gui.py:462 | Stripping adds no character. |
| Gui.SafeTitleIdentity | taskcard_downloader_gui.py:460-462 | A title of at most 100 characters, without forbidden characters and without whitespace at either end, is kept unchanged. |
| Gui.SafeTitlePiece | taskcard_downloader_gui.py:460-462 | The sanitised title is a slice of the first 100 remaining characters, with only whitespace cut on either side. |
| Gui.SafeTitleEmpty | taskcard_downloader_gui.py:460-466 | A title made only of forbidden characters and whitespace gives the file name ".pdf". |
| Gui.RemovedBlank | taskcard_downloader_gui.py:460 | Removing forbidden characters from such a title leaves only whitespace. |
| Gui.LastSlash | taskcard_downloader_gui.py:465-467 | Finds the last separator: no separator follows it, and none exists when it is absent. |
| Gui.DirAndFileName | taskcard_downloader_gui.py:465-467 | A path is its directory part followed by its file name. |
| Gui.OutputFileRenamed | taskcard_downloader_gui.py:456-468 | With a non-empty board title, the new output file keeps the original directory and is named `safe_title + ".pdf"`. |
| Gui.RenamedPath | taskcard_downloader_gui.py:465-467 | `parent / f"{safe_title}.pdf"` keeps the directory and sets the file name. |
| Gui.JoinLastSlash | taskcard_downloader_gui.py:465-467 | Appending a name without separators leaves the last separator where it was. |
| Gui.OutputFileKept | taskcard_downloader_gui.py:456 | An untitled board keeps the output file the user gave. |

## Left out

- Browser I/O (Playwright): navigation, waits, `query_selector`, clicks, `expect_download`, screenshots and the browser lifecycle. The DOM the script reads is an input (`Extraction.BoardDom`). Each attachment element's click-and-save outcome is an input (`PdfAttachments.Download`). A failed page load is `None` (`PdfAttachments.PdfAttachmentsOf`). The scroll width is an input. Only the schedule of `scrollLeft` positions and waits is modelled, not what the page does in the meantime.
- reportlab layout: styles, fonts, colours, indents, page size and margins. A paragraph is a style name plus symbolic markup. `Story.Render` gives the markup string. The date stamp (`datetime.now()`) is a parameter.
- PyPDF2: a PDF is modelled by what reading it yields (`Merge.Reading`: the pages read and whether an exception was raised). Page contents and the writing of the output file are not modelled, and neither is a failure to write the output.
- The file system: `tempfile`, `os.unlink`, `os.path.getsize`, `shutil.copy`. Deletions are reported as lists of paths. A failing `unlink` in the download loop is not modelled. Neither is the temporary file left behind when saving a download raises.
- Merge.MergePdfs: a failing `os.unlink` inside the merge loop (taskcard_downloader.py:613-615) is not modelled. There the exception is caught, so the file's pages stay merged and the file stays on disk. The model still lists that file among the removed ones, because every deletion is taken to succeed.
- The overview PDF's own pages are a parameter (`Merge.Reading` of the overview). The link from the story to those pages is not modelled.
- Text: `IsSpace` stands for both JavaScript `trim` and Python `strip` with ASCII whitespace plus the no-break space, not the full Unicode whitespace sets. `upper()` is modelled for ASCII letters only. `innerText` is taken as given.
- Paths: `Path(output_file).parent` is modelled as the prefix up to the last `/`. pathlib's normalisation (trailing separators, `.`, repeated separators) and Windows separators are not modelled.
- `_escape_html` converts non-strings with `str(text)`. Here only strings occur, so this is not modelled. The old string format of attachments (`isinstance(att, dict)`) does not occur in boards the script returns and is not modelled.
- The front end: tkinter widgets, threading, logging, stdout redirection, the update of the output field, and the flag and buttons set when a download starts. `StartDownload` gives only the decision and the values used. The second fetch inside `download_and_save` is not modelled. Neither is `export_json`, which the front end calls but the downloader does not define.
- `check_playwright_browsers`, `get_browsers_path`, `install_browsers.py` and the argparse `main` are environment probing and command-line plumbing. They are not modelled.
- Printing of progress messages is not modelled.
