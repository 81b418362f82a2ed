/** The overview built by `generate_pdf` (taskcard_downloader.py:470-550):
    the reportlab "story", a list of paragraphs and vertical spacers, built
    from the extracted board. A paragraph is its style and what it shows;
    `Render` gives the markup string reportlab receives. Fonts, colours and
    layout are not modelled. */
module Story {
  import opened Text
  import opened Escape
  import opened Extraction

  /** The paragraph styles of `generate_pdf`. */
  datatype Style =
    | TitleStyle | DateStyle | ColumnStyle | NoCardsStyle | CardTitleStyle
    | ContentStyle | AttachmentStyle | LinkStyle

  /** What a paragraph shows, before it is rendered to markup. */
  datatype Markup =
    | TitleText(boardTitle: string)
    | DateText(stamp: string)
    | ColumnHeading(columnTitle: string, columnIndex: nat)
    | NoCardsText
    | CardHeading(cardTitle: string, cardIndex: nat)
    | DescLine(line: string)
    | AttachmentLine(info: string)
    | LinkLine(link: Link)

  /** `Paragraph(markup, style)`, or `Spacer(1, h)` with `h` in tenths of a
      centimetre. */
  datatype Block = Paragraph(style: Style, markup: Markup) | Spacer(tenthsCm: nat)

  /** The styles of the blocks that stand for a card's content. */
  predicate IsContentStyle(st: Style) {
    st == ContentStyle || st == AttachmentStyle || st == LinkStyle
  }

  const NoCardsMarkup: string := "<i>Keine Karten vorhanden</i>"
  const LinkTextLimit: nat := 80

  // ---------------------------------------------------------------------
  // Rendering
  // ---------------------------------------------------------------------

  /** The board title, or "Taskcard Board" when it is empty. */
  function BoardLabel(title: string): string {
    if title != [] then EscapeHtml(title) else "Taskcard Board"
  }

  /** "▶ title", or "▶ Spalte i+1" for an untitled column at index `i`. */
  function ColumnLabel(title: string, i: nat): string {
    if title != [] then "\U{25B6} " + EscapeHtml(title) else "\U{25B6} Spalte " + NatToString(i + 1)
  }

  /** "● title", or "● Karte j+1" for an untitled card at index `j`. */
  function CardLabel(title: string, j: nat): string {
    if title != [] then "\U{25CF} " + EscapeHtml(title) else "\U{25CF} Karte " + NatToString(j + 1)
  }

  /** "📎 info". */
  function AttachmentMarkup(info: string): string {
    "\U{1F4CE} " + EscapeHtml(info)
  }

  /** The shown text of a link: its first 80 characters, escaped. */
  function LinkLabel(text: string): string {
    EscapeHtml(Take(text, LinkTextLimit))
  }

  /** "🔗 <a href='url' color='blue'>label</a>", then "..." when the text is
      longer than 80 characters. The URL is not escaped. */
  function LinkMarkup(l: Link): string {
    "\U{1F517} <a href='" + l.url + "' color='blue'>" + LinkLabel(l.text) + "</a>"
      + (if |l.text| > LinkTextLimit then "..." else "")
  }

  /** The markup string of a paragraph. A description line is stripped,
      then escaped. */
  function Render(m: Markup): string {
    match m
    case TitleText(title) => BoardLabel(title)
    case DateText(stamp) => "Erstellt am: " + stamp
    case ColumnHeading(title, i) => ColumnLabel(title, i)
    case NoCardsText => NoCardsMarkup
    case CardHeading(title, j) => CardLabel(title, j)
    case DescLine(line) => EscapeHtml(Trim(line))
    case AttachmentLine(info) => AttachmentMarkup(info)
    case LinkLine(l) => LinkMarkup(l)
  }

  /** The fallback column labels of two different indices differ. */
  lemma ColumnFallbacksDistinct(i: nat, j: nat)
    requires i != j
    ensures ColumnLabel([], i) != ColumnLabel([], j)
  {
    var p := "\U{25B6} Spalte ";
    if ColumnLabel([], i) == ColumnLabel([], j) {
      assert (p + NatToString(i + 1))[|p|..] == NatToString(i + 1);
      assert (p + NatToString(j + 1))[|p|..] == NatToString(j + 1);
      NatToStringValue(i + 1);
      NatToStringValue(j + 1);
    }
  }

  /** The fallback card labels of two different indices differ. */
  lemma CardFallbacksDistinct(i: nat, j: nat)
    requires i != j
    ensures CardLabel([], i) != CardLabel([], j)
  {
    var p := "\U{25CF} Karte ";
    if CardLabel([], i) == CardLabel([], j) {
      assert (p + NatToString(i + 1))[|p|..] == NatToString(i + 1);
      assert (p + NatToString(j + 1))[|p|..] == NatToString(j + 1);
      NatToStringValue(i + 1);
      NatToStringValue(j + 1);
    }
  }

  /** A title is shown escaped after the marker, so it can be read back. */
  lemma TitledLabelsShow(title: string, i: nat)
    requires title != []
    ensures Unescape(ColumnLabel(title, i)[2..]) == title
    ensures Unescape(CardLabel(title, i)[2..]) == title
    ensures Unescape(BoardLabel(title)) == title
  {
    UnescapeEscape(title);
    assert ColumnLabel(title, i)[2..] == EscapeHtml(title);
    assert CardLabel(title, i)[2..] == EscapeHtml(title);
  }

  /** The shown text of a link gives back its first 80 characters, and the
      markup ends with "..." exactly when characters were cut off. */
  lemma LinkLabelShows(l: Link)
    ensures Unescape(LinkLabel(l.text)) == Take(l.text, LinkTextLimit)
    ensures |Take(l.text, LinkTextLimit)| < |l.text| <==> |l.text| > LinkTextLimit
    ensures HasSuffix(LinkMarkup(l), "...") <==> |l.text| > LinkTextLimit
  {
    UnescapeEscape(Take(l.text, LinkTextLimit));
    var m := LinkMarkup(l);
    var body := "\U{1F517} <a href='" + l.url + "' color='blue'>" + LinkLabel(l.text) + "</a>";
    if |l.text| <= LinkTextLimit {
      assert m == body;
      assert m[|m| - 1] == '>';
    } else {
      assert m == body + "...";
    }
  }

  /** `s` ends with `w`. */
  predicate HasSuffix(s: string, w: string) {
    |w| <= |s| && s[|s| - |w|..] == w
  }

  // ---------------------------------------------------------------------
  // The story as a reference definition
  // ---------------------------------------------------------------------

  /** The story grouped the way `generate_pdf` produces it: a leaf is one
      appended block, `Then` puts two parts one after the other, a group
      holds what the iterations of one loop append. */
  datatype Doc = Leaf(block: Block) | Then(first: Doc, rest: Doc) | Group(parts: seq<Doc>)

  /** The blocks of a part, in order. */
  function Blocks(d: Doc): seq<Block>
    decreases d
  {
    match d
    case Leaf(b) => [b]
    case Then(a, b) => Blocks(a) + Blocks(b)
    case Group(ps) => BlocksAll(ps)
  }

  function BlocksAll(ds: seq<Doc>): seq<Block>
    decreases ds
  {
    if |ds| == 0 then [] else Blocks(ds[0]) + BlocksAll(ds[1..])
  }

  /** A description line: a content paragraph when it is not blank, nothing
      otherwise. */
  function LineDoc(line: string): Doc {
    if Blank(line) then Group([]) else Leaf(Paragraph(ContentStyle, DescLine(line)))
  }

  /** The description lines from index `k` on. */
  function LineDocs(lines: seq<string>, k: nat): seq<Doc>
    requires k <= |lines|
    decreases |lines| - k
  {
    if k == |lines| then [] else [LineDoc(lines[k])] + LineDocs(lines, k + 1)
  }

  /** The description: nothing when it is empty or blank, else its lines. */
  function DescDoc(desc: string): Doc {
    if desc != [] && !Blank(desc) then Group(LineDocs(Split(desc, '\n'), 0)) else Group([])
  }

  /** The attachments from index `k` on, one paragraph each. */
  function AttachDocs(atts: seq<Attachment>, k: nat): seq<Doc>
    requires k <= |atts|
    decreases |atts| - k
  {
    if k == |atts| then [] else [Leaf(Paragraph(AttachmentStyle, AttachmentLine(atts[k].info)))] + AttachDocs(atts, k + 1)
  }

  /** The links from index `k` on, one paragraph each. */
  function LinkDocs(links: seq<Link>, k: nat): seq<Doc>
    requires k <= |links|
    decreases |links| - k
  {
    if k == |links| then [] else [Leaf(Paragraph(LinkStyle, LinkLine(links[k])))] + LinkDocs(links, k + 1)
  }

  /** One card at index `j`: its heading, its description, its attachments,
      its links, then a 0.2 cm spacer. */
  function CardDoc(c: Card, j: nat): Doc {
    Then(Leaf(Paragraph(CardTitleStyle, CardHeading(c.title, j))),
      Then(DescDoc(c.description),
        Then(Group(AttachDocs(c.attachments, 0)),
          Then(Group(LinkDocs(c.links, 0)), Leaf(Spacer(2))))))
  }

  /** The cards of a column from index `j` on. */
  function CardDocs(cards: seq<Card>, j: nat): seq<Doc>
    requires j <= |cards|
    decreases |cards| - j
  {
    if j == |cards| then [] else [CardDoc(cards[j], j)] + CardDocs(cards, j + 1)
  }

  /** One column at index `i`: its heading, the placeholder or its cards,
      then a 0.4 cm spacer. */
  function ColumnDoc(c: Column, i: nat): Doc {
    Then(Leaf(Paragraph(ColumnStyle, ColumnHeading(c.title, i))),
      Then(if c.cards == [] then Leaf(Paragraph(NoCardsStyle, NoCardsText)) else Group(CardDocs(c.cards, 0)),
        Leaf(Spacer(4))))
  }

  /** The columns from index `i` on. */
  function ColumnDocs(cols: seq<Column>, i: nat): seq<Doc>
    requires i <= |cols|
    decreases |cols| - i
  {
    if i == |cols| then [] else [ColumnDoc(cols[i], i)] + ColumnDocs(cols, i + 1)
  }

  /** The title, a 0.3 cm spacer, "Erstellt am: " with the time stamp
      (`datetime.now()` formatted as `%d.%m.%Y %H:%M`, given here), a 0.8 cm
      spacer. */
  function HeaderDoc(b: Board, stamp: string): Doc {
    Then(Leaf(Paragraph(TitleStyle, TitleText(b.boardTitle))),
      Then(Leaf(Spacer(3)),
        Then(Leaf(Paragraph(DateStyle, DateText(stamp))), Leaf(Spacer(8)))))
  }

  /** The header, then the columns. */
  function StoryDoc(b: Board, stamp: string): Doc {
    Then(HeaderDoc(b, stamp), Group(ColumnDocs(b.columns, 0)))
  }

  /** Reference definition of the story. */
  function StoryOf(b: Board, stamp: string): seq<Block> {
    Blocks(StoryDoc(b, stamp))
  }

  // ---------------------------------------------------------------------
  // Reading the story back
  // ---------------------------------------------------------------------

  /** What the paragraphs of style `st` show, in order. */
  function Texts(bs: seq<Block>, st: Style): seq<Markup> {
    if |bs| == 0 then []
    else (if bs[0].Paragraph? && bs[0].style == st then [bs[0].markup] else []) + Texts(bs[1..], st)
  }

  lemma {:induction false} TextsAppend(a: seq<Block>, b: seq<Block>, st: Style)
    ensures Texts(a + b, st) == Texts(a, st) + Texts(b, st)
  {
    if |a| != 0 {
      TextsAppend(a[1..], b, st);
      assert (a + b)[1..] == a[1..] + b;
    } else {
      assert a + b == b;
    }
  }

  /** `Texts` read off the parts. */
  function DocTexts(d: Doc, st: Style): seq<Markup>
    decreases d
  {
    match d
    case Leaf(b) => if b.Paragraph? && b.style == st then [b.markup] else []
    case Then(a, b) => DocTexts(a, st) + DocTexts(b, st)
    case Group(ps) => DocsTexts(ps, st)
  }

  function DocsTexts(ds: seq<Doc>, st: Style): seq<Markup>
    decreases ds
  {
    if |ds| == 0 then [] else DocTexts(ds[0], st) + DocsTexts(ds[1..], st)
  }

  lemma {:induction false} TextsBlocks(d: Doc, st: Style)
    ensures Texts(Blocks(d), st) == DocTexts(d, st)
    decreases d
  {
    match d
    case Leaf(b) =>
      assert [b][1..] == [];
    case Then(a, b) =>
      TextsBlocks(a, st);
      TextsBlocks(b, st);
      TextsAppend(Blocks(a), Blocks(b), st);
    case Group(ps) =>
      TextsBlocksAll(ps, st);
  }

  lemma {:induction false} TextsBlocksAll(ds: seq<Doc>, st: Style)
    ensures Texts(BlocksAll(ds), st) == DocsTexts(ds, st)
    decreases ds
  {
    if |ds| != 0 {
      TextsBlocks(ds[0], st);
      TextsBlocksAll(ds[1..], st);
      TextsAppend(Blocks(ds[0]), BlocksAll(ds[1..]), st);
    }
  }

  lemma {:induction false} LineDocsTexts(lines: seq<string>, k: nat, st: Style)
    requires k <= |lines| && st != ContentStyle
    ensures DocsTexts(LineDocs(lines, k), st) == []
    decreases |lines| - k
  {
    if k < |lines| {
      LineDocsTexts(lines, k + 1, st);
      assert DocTexts(LineDoc(lines[k]), st) == [];
    }
  }

  lemma DescDocTexts(desc: string, st: Style)
    requires st != ContentStyle
    ensures DocTexts(DescDoc(desc), st) == []
  {
    if desc != [] && !Blank(desc) {
      LineDocsTexts(Split(desc, '\n'), 0, st);
    }
  }

  lemma {:induction false} AttachDocsTexts(atts: seq<Attachment>, k: nat, st: Style)
    requires k <= |atts| && st != AttachmentStyle
    ensures DocsTexts(AttachDocs(atts, k), st) == []
    decreases |atts| - k
  {
    if k < |atts| {
      AttachDocsTexts(atts, k + 1, st);
      assert DocTexts(AttachDocs(atts, k)[0], st) == [];
    }
  }

  lemma {:induction false} LinkDocsTexts(links: seq<Link>, k: nat, st: Style)
    requires k <= |links| && st != LinkStyle
    ensures DocsTexts(LinkDocs(links, k), st) == []
    decreases |links| - k
  {
    if k < |links| {
      LinkDocsTexts(links, k + 1, st);
      assert DocTexts(LinkDocs(links, k)[0], st) == [];
    }
  }

  /** What a card contributes to the paragraphs of a style other than the
      content styles: its heading and nothing else. */
  lemma CardTexts(c: Card, j: nat, st: Style)
    requires !IsContentStyle(st)
    ensures DocTexts(CardDoc(c, j), st) == if st == CardTitleStyle then [CardHeading(c.title, j)] else []
  {
    var desc, atts, links := DescDoc(c.description), Group(AttachDocs(c.attachments, 0)), Group(LinkDocs(c.links, 0));
    DescDocTexts(c.description, st);
    AttachDocsTexts(c.attachments, 0, st);
    LinkDocsTexts(c.links, 0, st);
    assert DocTexts(Then(links, Leaf(Spacer(2))), st) == [];
    assert DocTexts(Then(atts, Then(links, Leaf(Spacer(2)))), st) == [];
  }

  /** The headings of the cards of a column from index `j` on. */
  function CardHeadings(cards: seq<Card>, j: nat): (r: seq<Markup>)
    requires j <= |cards|
    ensures |r| == |cards| - j
    decreases |cards| - j
  {
    if j == |cards| then [] else [CardHeading(cards[j].title, j)] + CardHeadings(cards, j + 1)
  }

  /** The cards of a column contribute their headings, in order. */
  lemma {:induction false} CardsTexts(cards: seq<Card>, j: nat, st: Style)
    requires j <= |cards| && !IsContentStyle(st)
    ensures DocsTexts(CardDocs(cards, j), st) == if st == CardTitleStyle then CardHeadings(cards, j) else []
    decreases |cards| - j
  {
    if j < |cards| {
      CardsTexts(cards, j + 1, st);
      CardTexts(cards[j], j, st);
    }
  }

  /** What one column contributes to the paragraphs of a style other than the
      content styles. */
  function ColumnTexts(c: Column, i: nat, st: Style): seq<Markup> {
    if st == ColumnStyle then [ColumnHeading(c.title, i)]
    else if st == NoCardsStyle then (if c.cards == [] then [NoCardsText] else [])
    else if st == CardTitleStyle then CardHeadings(c.cards, 0)
    else []
  }

  lemma ColumnDocTexts(c: Column, i: nat, st: Style)
    requires !IsContentStyle(st)
    ensures DocTexts(ColumnDoc(c, i), st) == ColumnTexts(c, i, st)
  {
    var body := if c.cards == [] then Leaf(Paragraph(NoCardsStyle, NoCardsText)) else Group(CardDocs(c.cards, 0));
    if c.cards != [] {
      CardsTexts(c.cards, 0, st);
    }
    assert DocTexts(Then(body, Leaf(Spacer(4))), st) == DocTexts(body, st);
  }

  /** What the columns from index `i` on contribute, column after column. */
  function ColumnsTexts(cols: seq<Column>, i: nat, st: Style): seq<Markup>
    requires i <= |cols|
    decreases |cols| - i
  {
    if i == |cols| then [] else ColumnTexts(cols[i], i, st) + ColumnsTexts(cols, i + 1, st)
  }

  lemma {:induction false} ColumnDocsTexts(cols: seq<Column>, i: nat, st: Style)
    requires i <= |cols| && !IsContentStyle(st)
    ensures DocsTexts(ColumnDocs(cols, i), st) == ColumnsTexts(cols, i, st)
    decreases |cols| - i
  {
    if i < |cols| {
      ColumnDocsTexts(cols, i + 1, st);
      ColumnDocTexts(cols[i], i, st);
    }
  }

  /** What the header contributes: the title and the date line. */
  function HeaderTexts(b: Board, stamp: string, st: Style): seq<Markup> {
    if st == TitleStyle then [TitleText(b.boardTitle)]
    else if st == DateStyle then [DateText(stamp)]
    else []
  }

  lemma HeaderDocTexts(b: Board, stamp: string, st: Style)
    ensures DocTexts(HeaderDoc(b, stamp), st) == HeaderTexts(b, stamp, st)
  {
    var date := Leaf(Paragraph(DateStyle, DateText(stamp)));
    var tail := Then(date, Leaf(Spacer(8)));
    assert DocTexts(tail, st) == if st == DateStyle then [DateText(stamp)] else [];
    assert DocTexts(Then(Leaf(Spacer(3)), tail), st) == DocTexts(tail, st);
  }

  lemma StoryTexts(b: Board, stamp: string, st: Style)
    requires !IsContentStyle(st)
    ensures Texts(StoryOf(b, stamp), st) == HeaderTexts(b, stamp, st) + ColumnsTexts(b.columns, 0, st)
  {
    TextsBlocks(StoryDoc(b, stamp), st);
    ColumnDocsTexts(b.columns, 0, st);
    HeaderDocTexts(b, stamp, st);
  }

  /** The story has exactly one title paragraph, showing the board title;
      it renders as "Taskcard Board" when the board title is empty. */
  lemma StoryTitle(b: Board, stamp: string)
    ensures Texts(StoryOf(b, stamp), TitleStyle) == [TitleText(b.boardTitle)]
    ensures b.boardTitle == [] ==> Render(TitleText(b.boardTitle)) == "Taskcard Board"
  {
    StoryTexts(b, stamp, TitleStyle);
    ColumnsNoHeader(b.columns, 0, TitleStyle);
  }

  /** The story has exactly one date line, with the time stamp. */
  lemma StoryDate(b: Board, stamp: string)
    ensures Texts(StoryOf(b, stamp), DateStyle) == [DateText(stamp)]
    ensures Render(DateText(stamp)) == "Erstellt am: " + stamp
  {
    StoryTexts(b, stamp, DateStyle);
    ColumnsNoHeader(b.columns, 0, DateStyle);
  }

  lemma {:induction false} ColumnsNoHeader(cols: seq<Column>, i: nat, st: Style)
    requires i <= |cols| && (st == TitleStyle || st == DateStyle)
    ensures ColumnsTexts(cols, i, st) == []
    decreases |cols| - i
  {
    if i < |cols| {
      ColumnsNoHeader(cols, i + 1, st);
    }
  }

  /** The headings of the columns from index `i` on. */
  function ColumnHeadings(cols: seq<Column>, i: nat): (r: seq<Markup>)
    requires i <= |cols|
    ensures |r| == |cols| - i
    decreases |cols| - i
  {
    if i == |cols| then [] else [ColumnHeading(cols[i].title, i)] + ColumnHeadings(cols, i + 1)
  }

  /** The column headings of the story are one per column, in order; an
      untitled column is headed by its position ("▶ Spalte i+1"). */
  lemma StoryColumnHeadings(b: Board, stamp: string)
    ensures Texts(StoryOf(b, stamp), ColumnStyle) == ColumnHeadings(b.columns, 0)
  {
    StoryTexts(b, stamp, ColumnStyle);
    ColumnsHeadings(b.columns, 0);
  }

  lemma {:induction false} ColumnsHeadings(cols: seq<Column>, i: nat)
    requires i <= |cols|
    ensures ColumnsTexts(cols, i, ColumnStyle) == ColumnHeadings(cols, i)
    decreases |cols| - i
  {
    if i < |cols| {
      ColumnsHeadings(cols, i + 1);
    }
  }

  /** The number of columns from index `i` on that have no cards. */
  function EmptyColumns(cols: seq<Column>, i: nat): (r: nat)
    requires i <= |cols|
    ensures r <= |cols| - i
    decreases |cols| - i
  {
    if i == |cols| then 0 else (if cols[i].cards == [] then 1 else 0) + EmptyColumns(cols, i + 1)
  }

  /** Exactly one placeholder per column without cards. */
  lemma StoryPlaceholders(b: Board, stamp: string)
    ensures |Texts(StoryOf(b, stamp), NoCardsStyle)| == EmptyColumns(b.columns, 0)
    ensures forall m :: m in Texts(StoryOf(b, stamp), NoCardsStyle) ==> m == NoCardsText
  {
    StoryTexts(b, stamp, NoCardsStyle);
    ColumnsPlaceholders(b.columns, 0);
  }

  lemma {:induction false} ColumnsPlaceholders(cols: seq<Column>, i: nat)
    requires i <= |cols|
    ensures |ColumnsTexts(cols, i, NoCardsStyle)| == EmptyColumns(cols, i)
    ensures forall m :: m in ColumnsTexts(cols, i, NoCardsStyle) ==> m == NoCardsText
    decreases |cols| - i
  {
    if i < |cols| {
      ColumnsPlaceholders(cols, i + 1);
    }
  }

  /** The headings of the cards of the columns from index `i` on, column
      after column. */
  function AllCardHeadings(cols: seq<Column>, i: nat): seq<Markup>
    requires i <= |cols|
    decreases |cols| - i
  {
    if i == |cols| then [] else CardHeadings(cols[i].cards, 0) + AllCardHeadings(cols, i + 1)
  }

  /** The card headings of the story are one per card, column after column;
      the index of an untitled card restarts at each column. */
  lemma StoryCardHeadings(b: Board, stamp: string)
    ensures Texts(StoryOf(b, stamp), CardTitleStyle) == AllCardHeadings(b.columns, 0)
  {
    StoryTexts(b, stamp, CardTitleStyle);
    ColumnsCardHeadings(b.columns, 0);
  }

  lemma {:induction false} ColumnsCardHeadings(cols: seq<Column>, i: nat)
    requires i <= |cols|
    ensures ColumnsTexts(cols, i, CardTitleStyle) == AllCardHeadings(cols, i)
    decreases |cols| - i
  {
    if i < |cols| {
      ColumnsCardHeadings(cols, i + 1);
    }
  }

  // ---------------------------------------------------------------------
  // What a card shows
  // ---------------------------------------------------------------------

  /** The attachment lines of the attachments from index `k` on. */
  function AttachmentLines(atts: seq<Attachment>, k: nat): (r: seq<Markup>)
    requires k <= |atts|
    ensures |r| == |atts| - k
    decreases |atts| - k
  {
    if k == |atts| then [] else [AttachmentLine(atts[k].info)] + AttachmentLines(atts, k + 1)
  }

  /** The link lines of the links from index `k` on. */
  function LinkLines(links: seq<Link>, k: nat): (r: seq<Markup>)
    requires k <= |links|
    ensures |r| == |links| - k
    decreases |links| - k
  {
    if k == |links| then [] else [LinkLine(links[k])] + LinkLines(links, k + 1)
  }

  /** The non-blank lines from index `k` on. */
  function NonBlankLines(lines: seq<string>, k: nat): (r: seq<Markup>)
    requires k <= |lines|
    ensures forall m :: m in r ==> m.DescLine? && !Blank(m.line)
    decreases |lines| - k
  {
    if k == |lines| then [] else (if Blank(lines[k]) then [] else [DescLine(lines[k])]) + NonBlankLines(lines, k + 1)
  }

  lemma {:induction false} AttachDocsShow(atts: seq<Attachment>, k: nat)
    requires k <= |atts|
    ensures DocsTexts(AttachDocs(atts, k), AttachmentStyle) == AttachmentLines(atts, k)
    decreases |atts| - k
  {
    if k < |atts| {
      AttachDocsShow(atts, k + 1);
      assert DocTexts(AttachDocs(atts, k)[0], AttachmentStyle) == [AttachmentLine(atts[k].info)];
    }
  }

  lemma {:induction false} LinkDocsShow(links: seq<Link>, k: nat)
    requires k <= |links|
    ensures DocsTexts(LinkDocs(links, k), LinkStyle) == LinkLines(links, k)
    decreases |links| - k
  {
    if k < |links| {
      LinkDocsShow(links, k + 1);
      assert DocTexts(LinkDocs(links, k)[0], LinkStyle) == [LinkLine(links[k])];
    }
  }

  lemma {:induction false} LineDocsShow(lines: seq<string>, k: nat)
    requires k <= |lines|
    ensures DocsTexts(LineDocs(lines, k), ContentStyle) == NonBlankLines(lines, k)
    decreases |lines| - k
  {
    if k < |lines| {
      LineDocsShow(lines, k + 1);
      assert DocTexts(LineDoc(lines[k]), ContentStyle) == if Blank(lines[k]) then [] else [DescLine(lines[k])];
    }
  }

  /** A card shows each attachment once, in order, as an attachment line. */
  lemma CardAttachments(c: Card, j: nat)
    ensures Texts(Blocks(CardDoc(c, j)), AttachmentStyle) == AttachmentLines(c.attachments, 0)
  {
    TextsBlocks(CardDoc(c, j), AttachmentStyle);
    DescDocTexts(c.description, AttachmentStyle);
    AttachDocsShow(c.attachments, 0);
    LinkDocsTexts(c.links, 0, AttachmentStyle);
    var atts, links := Group(AttachDocs(c.attachments, 0)), Group(LinkDocs(c.links, 0));
    assert DocTexts(Then(links, Leaf(Spacer(2))), AttachmentStyle) == [];
    assert DocTexts(Then(atts, Then(links, Leaf(Spacer(2)))), AttachmentStyle) == AttachmentLines(c.attachments, 0);
  }

  /** A card shows each link once, in order, as a link line. */
  lemma CardLinks(c: Card, j: nat)
    ensures Texts(Blocks(CardDoc(c, j)), LinkStyle) == LinkLines(c.links, 0)
  {
    TextsBlocks(CardDoc(c, j), LinkStyle);
    DescDocTexts(c.description, LinkStyle);
    AttachDocsTexts(c.attachments, 0, LinkStyle);
    LinkDocsShow(c.links, 0);
    var atts, links := Group(AttachDocs(c.attachments, 0)), Group(LinkDocs(c.links, 0));
    assert DocTexts(Then(links, Leaf(Spacer(2))), LinkStyle) == LinkLines(c.links, 0);
    assert DocTexts(Then(atts, Then(links, Leaf(Spacer(2)))), LinkStyle) == LinkLines(c.links, 0);
  }

  /** A card shows the non-blank lines of its description, in order; a blank
      description shows none. */
  lemma CardDescription(c: Card, j: nat)
    ensures Texts(Blocks(CardDoc(c, j)), ContentStyle) == NonBlankLines(Split(c.description, '\n'), 0)
  {
    var lines := Split(c.description, '\n');
    TextsBlocks(CardDoc(c, j), ContentStyle);
    AttachDocsTexts(c.attachments, 0, ContentStyle);
    LinkDocsTexts(c.links, 0, ContentStyle);
    LineDocsShow(lines, 0);
    if c.description == [] || Blank(c.description) {
      SplitBlank(c.description, '\n');
      BlankLinesNone(lines, 0);
    }
    var desc, atts, links := DescDoc(c.description), Group(AttachDocs(c.attachments, 0)), Group(LinkDocs(c.links, 0));
    assert DocTexts(desc, ContentStyle) == NonBlankLines(lines, 0);
    assert DocTexts(Then(links, Leaf(Spacer(2))), ContentStyle) == [];
    assert DocTexts(Then(atts, Then(links, Leaf(Spacer(2)))), ContentStyle) == [];
  }

  /** Blank lines show nothing. */
  lemma {:induction false} BlankLinesNone(lines: seq<string>, k: nat)
    requires k <= |lines|
    requires forall i :: 0 <= i < |lines| ==> Blank(lines[i])
    ensures NonBlankLines(lines, k) == []
    ensures BlocksAll(LineDocs(lines, k)) == []
    decreases |lines| - k
  {
    if k < |lines| {
      BlankLinesNone(lines, k + 1);
    }
  }

  /** The guard `description and description.strip()` changes nothing: a
      blank description has no non-blank line. */
  lemma DescGuardRedundant(desc: string)
    ensures Blocks(DescDoc(desc)) == BlocksAll(LineDocs(Split(desc, '\n'), 0))
  {
    var lines := Split(desc, '\n');
    if desc == [] || Blank(desc) {
      SplitBlank(desc, '\n');
      BlankLinesNone(lines, 0);
    }
  }

  // ---------------------------------------------------------------------
  // The loops of `generate_pdf`
  // ---------------------------------------------------------------------

  /** Concatenation regrouped. Kept as a lemma so that the loops below get
      each regrouping as a fact instead of proving it inside their own,
      much larger, proof obligations. */
  lemma AppendAssoc(a: seq<Block>, b: seq<Block>, c: seq<Block>)
    ensures (a + b) + c == a + (b + c)
  {
  }

  /** The loop over the description lines, taskcard_downloader.py:514-519. */
  method AppendLines(story: seq<Block>, lines: seq<string>) returns (s: seq<Block>)
    ensures s == story + BlocksAll(LineDocs(lines, 0))
  {
    s := story;
    var k := 0;
    while k < |lines|
      invariant k <= |lines|
      invariant s + BlocksAll(LineDocs(lines, k)) == story + BlocksAll(LineDocs(lines, 0))
    {
      var line := lines[k];
      AppendAssoc(s, Blocks(LineDoc(line)), BlocksAll(LineDocs(lines, k + 1)));
      if !Blank(line) {
        s := s + [Paragraph(ContentStyle, DescLine(line))];
      } else {
        assert s + [] == s;
      }
      k := k + 1;
    }
    assert s + [] == s;
  }

  /** The loop over the attachments, taskcard_downloader.py:522-538. */
  method AppendAttachments(story: seq<Block>, atts: seq<Attachment>) returns (s: seq<Block>)
    ensures s == story + BlocksAll(AttachDocs(atts, 0))
  {
    s := story;
    var k := 0;
    while k < |atts|
      invariant k <= |atts|
      invariant s + BlocksAll(AttachDocs(atts, k)) == story + BlocksAll(AttachDocs(atts, 0))
    {
      var p := Paragraph(AttachmentStyle, AttachmentLine(atts[k].info));
      AppendAssoc(s, [p], BlocksAll(AttachDocs(atts, k + 1)));
      s := s + [p];
      k := k + 1;
    }
    assert s + [] == s;
  }

  /** The loop over the links, taskcard_downloader.py:541-546. */
  method AppendLinks(story: seq<Block>, links: seq<Link>) returns (s: seq<Block>)
    ensures s == story + BlocksAll(LinkDocs(links, 0))
  {
    s := story;
    var k := 0;
    while k < |links|
      invariant k <= |links|
      invariant s + BlocksAll(LinkDocs(links, k)) == story + BlocksAll(LinkDocs(links, 0))
    {
      var p := Paragraph(LinkStyle, LinkLine(links[k]));
      AppendAssoc(s, [p], BlocksAll(LinkDocs(links, k + 1)));
      s := s + [p];
      k := k + 1;
    }
    assert s + [] == s;
  }

  /** The blocks of a card, one part after the other. */
  lemma CardBlocks(c: Card, j: nat)
    ensures Blocks(CardDoc(c, j)) ==
              [Paragraph(CardTitleStyle, CardHeading(c.title, j))] + Blocks(DescDoc(c.description))
                + BlocksAll(AttachDocs(c.attachments, 0)) + BlocksAll(LinkDocs(c.links, 0)) + [Spacer(2)]
  {
    var h, d := [Paragraph(CardTitleStyle, CardHeading(c.title, j))], Blocks(DescDoc(c.description));
    var a, l := BlocksAll(AttachDocs(c.attachments, 0)), BlocksAll(LinkDocs(c.links, 0));
    var tail := Then(Group(LinkDocs(c.links, 0)), Leaf(Spacer(2)));
    assert Blocks(tail) == l + [Spacer(2)];
    assert Blocks(Then(Group(AttachDocs(c.attachments, 0)), tail)) == a + (l + [Spacer(2)]);
    assert Blocks(CardDoc(c, j)) == h + (d + (a + (l + [Spacer(2)])));
    AppendAssoc(a, l, [Spacer(2)]);
    AppendAssoc(d, a + l, [Spacer(2)]);
    AppendAssoc(d, a, l);
    AppendAssoc(h, d + a + l, [Spacer(2)]);
    AppendAssoc(h, d + a, l);
    AppendAssoc(h, d, a);
  }

  /** Appends the blocks of one card, taskcard_downloader.py:506-548. The
      title or its fallback is chosen when the heading is rendered. */
  method AppendCard(story: seq<Block>, card: Card, j: nat) returns (s: seq<Block>)
    ensures s == story + Blocks(CardDoc(card, j))
  {
    var h := [Paragraph(CardTitleStyle, CardHeading(card.title, j))];
    var d := Blocks(DescDoc(card.description));
    var a, l := BlocksAll(AttachDocs(card.attachments, 0)), BlocksAll(LinkDocs(card.links, 0));
    CardBlocks(card, j);
    s := story + h;
    if card.description != [] && !Blank(card.description) {
      s := AppendLines(s, Split(card.description, '\n'));
    } else {
      assert s + d == s;
    }
    AppendAssoc(story, h, d);
    if |card.attachments| > 0 {
      s := AppendAttachments(s, card.attachments);
    } else {
      assert s + a == s;
    }
    AppendAssoc(story, h + d, a);
    if |card.links| > 0 {
      s := AppendLinks(s, card.links);
    } else {
      assert s + l == s;
    }
    AppendAssoc(story, h + d + a, l);
    AppendAssoc(story, h + d + a + l, [Spacer(2)]);
    s := s + [Spacer(2)];
  }

  /** The loop over the cards of a column, taskcard_downloader.py:506-548. */
  method AppendCards(story: seq<Block>, cards: seq<Card>) returns (s: seq<Block>)
    ensures s == story + BlocksAll(CardDocs(cards, 0))
  {
    s := story;
    var j := 0;
    while j < |cards|
      invariant j <= |cards|
      invariant s + BlocksAll(CardDocs(cards, j)) == story + BlocksAll(CardDocs(cards, 0))
    {
      AppendAssoc(s, Blocks(CardDoc(cards[j], j)), BlocksAll(CardDocs(cards, j + 1)));
      s := AppendCard(s, cards[j], j);
      j := j + 1;
    }
    assert s + [] == s;
  }

  /** Appends the blocks of one column, taskcard_downloader.py:491-550. The
      title or its fallback is chosen when the heading is rendered. */
  method AppendColumn(story: seq<Block>, column: Column, i: nat) returns (s: seq<Block>)
    ensures s == story + Blocks(ColumnDoc(column, i))
  {
    var h := [Paragraph(ColumnStyle, ColumnHeading(column.title, i))];
    var body := if column.cards == [] then [Paragraph(NoCardsStyle, NoCardsText)] else BlocksAll(CardDocs(column.cards, 0));
    s := story + h;
    if column.cards == [] {
      s := s + [Paragraph(NoCardsStyle, NoCardsText)];
    } else {
      s := AppendCards(s, column.cards);
    }
    var bodyDoc := if column.cards == [] then Leaf(Paragraph(NoCardsStyle, NoCardsText)) else Group(CardDocs(column.cards, 0));
    assert Blocks(Then(bodyDoc, Leaf(Spacer(4)))) == body + [Spacer(4)];
    AppendAssoc(story, h, body);
    AppendAssoc(story, h + body, [Spacer(4)]);
    AppendAssoc(h, body, [Spacer(4)]);
    s := s + [Spacer(4)];
  }

  /** The loop over the columns, taskcard_downloader.py:491-550. */
  method AppendColumns(story: seq<Block>, cols: seq<Column>) returns (s: seq<Block>)
    ensures s == story + BlocksAll(ColumnDocs(cols, 0))
  {
    s := story;
    var i := 0;
    while i < |cols|
      invariant i <= |cols|
      invariant s + BlocksAll(ColumnDocs(cols, i)) == story + BlocksAll(ColumnDocs(cols, 0))
    {
      AppendAssoc(s, Blocks(ColumnDoc(cols[i], i)), BlocksAll(ColumnDocs(cols, i + 1)));
      s := AppendColumn(s, cols[i], i);
      i := i + 1;
    }
    assert s + [] == s;
  }

  /** The story of `generate_pdf`, taskcard_downloader.py:470-550; `stamp`
      is the formatted time. */
  method BuildStory(board: Board, stamp: string) returns (story: seq<Block>)
    ensures story == StoryOf(board, stamp)
  {
    story := [Paragraph(TitleStyle, TitleText(board.boardTitle))];
    story := story + [Spacer(3)];
    story := story + [Paragraph(DateStyle, DateText(stamp))];
    story := story + [Spacer(8)];
    var date := Paragraph(DateStyle, DateText(stamp));
    assert Blocks(Then(Leaf(date), Leaf(Spacer(8)))) == [date, Spacer(8)];
    assert Blocks(Then(Leaf(Spacer(3)), Then(Leaf(date), Leaf(Spacer(8))))) == [Spacer(3), date, Spacer(8)];
    assert story == Blocks(HeaderDoc(board, stamp));
    story := AppendColumns(story, board.columns);
    assert Blocks(StoryDoc(board, stamp)) == Blocks(HeaderDoc(board, stamp)) + Blocks(Group(ColumnDocs(board.columns, 0)));
  }
}
