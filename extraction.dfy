/** The board extraction that `fetch_taskcard_data` evaluates inside the page
    (taskcard_downloader.py:183-296), over an abstract DOM: the elements the
    script's selectors find, already resolved to the texts it reads. */
module Extraction {
  import opened Wrappers
  import opened Text
  import opened Seqs

  // ---------------------------------------------------------------------
  // The DOM as the script sees it
  // ---------------------------------------------------------------------

  /** An `a[href]` inside `.board-card-content`: its resolved `href` and its
      `innerText`. */
  datatype Anchor = Anchor(href: string, innerText: string)

  /** An element whose class contains "border cursor-pointer": the innerText
      of its `.text-caption` (None when there is none) and the
      `style.backgroundImage` of its `.q-img__image` (None when there is no
      such element; the empty string when it has no inline background). */
  datatype AttachmentDiv = AttachmentDiv(caption: Option<string>, backgroundImage: Option<string>)

  /** A card's `.board-card-content`: the innerText of its first
      `.contenteditable`, its anchors and its attachment elements, each in
      document order. */
  datatype CardContent = CardContent(editable: Option<string>, anchors: seq<Anchor>, attachmentDivs: seq<AttachmentDiv>)

  /** A `.draggableCard`: the innerText of `.board-card-header .contenteditable`
      and its `.board-card-content`, either of which may be missing. */
  datatype CardElement = CardElement(header: Option<string>, content: Option<CardContent>)

  /** A `.draggableList`: the innerText of `.board-list-header .contenteditable`
      and its cards in document order. */
  datatype ColumnElement = ColumnElement(header: Option<string>, cards: seq<CardElement>)

  /** The page: the innerText of `.board-information-title`, of the first
      `h1, .board-header-container .text-h5`, and the columns in document
      order. */
  datatype BoardDom = BoardDom(informationTitle: Option<string>, headerTitle: Option<string>, columns: seq<ColumnElement>)

  // ---------------------------------------------------------------------
  // The extracted board (the value the script returns)
  // ---------------------------------------------------------------------

  datatype Link = Link(text: string, url: string)
  datatype Attachment = Attachment(info: string, url: Option<string>)
  datatype Card = Card(title: string, description: string, links: seq<Link>, attachments: seq<Attachment>)
  datatype Column = Column(title: string, cards: seq<Card>)
  datatype Board = Board(boardTitle: string, columns: seq<Column>)

  // ---------------------------------------------------------------------
  // The background-image URL: the regex /url\("(.+?)"\)/ and its group 1
  // ---------------------------------------------------------------------

  const UrlOpen: string := "url(\""
  const UrlClose: string := "\")"

  /** The characters a regex `.` does not match. */
  predicate IsLineTerminator(c: char) {
    c == '\n' || c == '\r' || c == '\U{2028}' || c == '\U{2029}'
  }

  predicate NoLineTerminator(s: string) {
    forall i :: 0 <= i < |s| ==> !IsLineTerminator(s[i])
  }

  /** The lazy group `(.+?)` followed by `"\)`, tried on `rest` with groups of
      `k` characters or more: the shortest such group, if any. */
  function LazyGroupEnd(rest: string, k: nat): (r: Option<nat>)
    requires 1 <= k <= |rest| + 1
    requires NoLineTerminator(rest[..k - 1])
    ensures r.Some? ==> k <= r.value && OccursAt(rest, UrlClose, r.value) && NoLineTerminator(rest[..r.value])
    ensures r.Some? ==> forall j :: k <= j < r.value ==> !OccursAt(rest, UrlClose, j)
    decreases |rest| - k
  {
    if k > |rest| then None
    else if IsLineTerminator(rest[k - 1]) then None
    else
      assert rest[..k] == rest[..k - 1] + [rest[k - 1]];
      if OccursAt(rest, UrlClose, k) then Some(k)
      else LazyGroupEnd(rest, k + 1)
  }

  /** A word occurs in a suffix exactly where it occurs, shifted, in the
      whole text. */
  lemma OccursInSuffix(s: string, w: string, d: nat, j: nat)
    requires d <= |s|
    ensures OccursAt(s[d..], w, j) <==> OccursAt(s, w, d + j)
  {
    if d + j + |w| <= |s| {
      assert s[d..][j..j + |w|] == s[d + j..d + j + |w|];
    }
  }

  /** The regex tried at position `p` of `style`. The group is lazy: it ends
      at the first `")` that follows its first character. */
  function MatchAt(style: string, p: nat): (r: Option<string>)
    ensures r.Some? ==> r.value != [] && NoLineTerminator(r.value)
    ensures r.Some? ==> OccursAt(style, UrlOpen + r.value + UrlClose, p)
    ensures r.Some? ==> forall j :: p + 6 <= j < p + 5 + |r.value| ==> !OccursAt(style, UrlClose, j)
  {
    if OccursAt(style, UrlOpen, p) then
      var rest := style[p + 5..];
      match LazyGroupEnd(rest, 1)
      case Some(j) =>
        var u := rest[..j];
        assert forall i :: p + 6 <= i < p + 5 + j ==> !OccursAt(style, UrlClose, i) by {
          forall i | p + 6 <= i < p + 5 + j ensures !OccursAt(style, UrlClose, i) {
            OccursInSuffix(style, UrlClose, p + 5, i - (p + 5));
          }
        }
        assert style[p..p + 5 + j + 2] == UrlOpen + u + UrlClose by {
          assert style[p..p + 5] == UrlOpen;
          assert style[p + 5..p + 5 + j] == u;
          assert style[p + 5 + j..p + 5 + j + 2] == rest[j..j + 2] == UrlClose;
          assert style[p..p + 5 + j + 2] == style[p..p + 5] + style[p + 5..p + 5 + j] + style[p + 5 + j..p + 5 + j + 2];
        }
        Some(u)
      case None => None
    else None
  }

  /** The leftmost match at position `p` or later. */
  function SearchFrom(style: string, p: nat): (r: Option<string>)
    ensures r.Some? ==> r.value != [] && NoLineTerminator(r.value)
    ensures r.Some? ==> exists q :: p <= q && OccursAt(style, UrlOpen + r.value + UrlClose, q)
    ensures r.Some? ==> exists q :: p <= q && MatchAt(style, q) == r && forall q' :: p <= q' < q ==> MatchAt(style, q').None?
    ensures r.None? ==> forall q :: p <= q ==> MatchAt(style, q).None?
    decreases |style| - p
  {
    if p > |style| then None
    else if MatchAt(style, p).Some? then MatchAt(style, p)
    else SearchFrom(style, p + 1)
  }

  /** `bgStyle.match(/url\("(.+?)"\)/)[1]`: the group of the leftmost match.
      A result is a non-empty text without line breaks that stands between
      `url("` and `")` in the style. */
  function UrlMatch(style: string): (r: Option<string>)
    ensures r.Some? ==> r.value != [] && NoLineTerminator(r.value)
    ensures r.Some? ==> exists q :: OccursAt(style, UrlOpen + r.value + UrlClose, q)
    ensures r.Some? ==> exists q: nat :: MatchAt(style, q) == r && forall q' :: 0 <= q' < q ==> MatchAt(style, q').None?
    ensures r.None? <==> forall q :: MatchAt(style, q).None?
  {
    SearchFrom(style, 0)
  }

  /** `fileUrl`: null without an image element, with an empty style, or
      without a match. */
  function FileUrl(backgroundImage: Option<string>): (r: Option<string>)
    ensures backgroundImage.None? ==> r.None?
    ensures r.Some? ==> exists q :: OccursAt(backgroundImage.value, UrlOpen + r.value + UrlClose, q)
    ensures r.Some? ==> exists q: nat :: MatchAt(backgroundImage.value, q) == r &&
                                    forall q' :: 0 <= q' < q ==> MatchAt(backgroundImage.value, q').None?
    ensures backgroundImage.Some? ==> (r.None? <==> forall q :: MatchAt(backgroundImage.value, q).None?)
  {
    match backgroundImage
    case None => None
    case Some(style) => if style == [] then None else UrlMatch(style)
  }

  lemma {:induction false} LazyGroupFinds(rest: string, k: nat, j: nat)
    requires 1 <= k <= j
    requires OccursAt(rest, UrlClose, j)
    requires NoLineTerminator(rest[..j])
    ensures LazyGroupEnd(rest, k).Some?
    decreases j - k
  {
    assert rest[..k - 1] == rest[..j][..k - 1];
    if !OccursAt(rest, UrlClose, k) {
      assert rest[k - 1] == rest[..j][k - 1];
      LazyGroupFinds(rest, k + 1, j);
    }
  }

  lemma {:induction false} SearchFinds(style: string, p: nat, q: nat, u: string)
    requires p <= q
    requires u != [] && NoLineTerminator(u)
    requires OccursAt(style, UrlOpen + u + UrlClose, q)
    ensures SearchFrom(style, p).Some?
    decreases q - p
  {
    if MatchAt(style, p).None? {
      if p == q {
        MatchAtFinds(style, q, u);
      }
      SearchFinds(style, p + 1, q, u);
    }
  }

  lemma MatchAtFinds(style: string, q: nat, u: string)
    requires u != [] && NoLineTerminator(u)
    requires OccursAt(style, UrlOpen + u + UrlClose, q)
    ensures MatchAt(style, q).Some?
  {
    var w := UrlOpen + u + UrlClose;
    var m := |u|;
    assert style[q..q + m + 7] == w;
    assert |UrlOpen| == 5 && |UrlClose| == 2;
    var ou := UrlOpen + u;
    assert w == ou + UrlClose;
    assert w[..5] == ou[..5] == UrlOpen;
    assert w[5..5 + m] == ou[5..] == u;
    assert w[5 + m..] == UrlClose;
    assert style[q..q + 5] == w[..5];
    assert OccursAt(style, UrlOpen, q);
    var rest := style[q + 5..];
    assert rest[m..m + 2] == style[q + 5 + m..q + 7 + m] == w[5 + m..];
    forall k | 0 <= k < m ensures rest[k] == u[k] {
      assert rest[k] == style[q..q + m + 7][5 + k] == w[5 + k];
    }
    assert rest[..m] == u;
    LazyGroupFinds(rest, 1, m);
  }

  /** Any `url("…")` with a non-empty group and no line break in the style
      makes the regex match. */
  lemma UrlMatchComplete(style: string, q: nat, u: string)
    requires u != [] && NoLineTerminator(u)
    requires OccursAt(style, UrlOpen + u + UrlClose, q)
    ensures UrlMatch(style).Some?
  {
    SearchFinds(style, 0, q, u);
  }

  lemma {:induction false} LazyGroupExact(u: string, tail: string, k: nat)
    requires 1 <= k <= |u|
    requires NoLineTerminator(u) && '"' !in u
    ensures LazyGroupEnd(u + UrlClose + tail, k) == Some(|u|)
    decreases |u| - k
  {
    var rest := u + UrlClose + tail;
    assert rest[..k - 1] == u[..k - 1];
    assert rest[k - 1] == u[k - 1];
    if k < |u| {
      assert rest[k] == u[k];
      assert rest[..k] == u[..k];
      LazyGroupExact(u, tail, k + 1);
    } else {
      assert rest[k..k + 2] == UrlClose;
    }
  }

  /** The leftmost `url("…")` wins: a style that starts with `url("u")` for
      a URL without quotes or line breaks gives `u`, whatever follows. */
  lemma UrlMatchLeading(u: string, tail: string)
    requires u != [] && NoLineTerminator(u) && '"' !in u
    ensures UrlMatch(UrlOpen + u + UrlClose + tail) == Some(u)
  {
    var style := UrlOpen + u + UrlClose + tail;
    assert style[..5] == UrlOpen;
    assert style[5..] == u + UrlClose + tail;
    LazyGroupExact(u, tail, 1);
    assert (u + UrlClose + tail)[..|u|] == u;
  }

  /** The group takes at least one character before looking for `")`, so it
      may itself start with `")`: `url("")x")` gives `")x`. */
  lemma UrlMatchGroupStartsWithClose()
    ensures UrlMatch("url(\"\")x\")") == Some("\")x")
  {
    var style := "url(\"\")x\")";
    var rest := style[5..];
    assert OccursAt(style, UrlOpen, 0);
    assert rest == "\")x\")";
    assert rest[1..3] == ")x" && rest[1..3][0] != UrlClose[0];
    assert rest[2..4] == "x\"" && rest[2..4][0] != UrlClose[0];
    assert rest[3..5] == UrlClose;
    assert rest[..0] == [] && rest[..1] == "\"" && rest[..2] == "\")";
    assert LazyGroupEnd(rest, 3) == Some(3);
    assert LazyGroupEnd(rest, 1) == Some(3);
    assert rest[..3] == "\")x";
  }

  /** Round trip with the way a browser serialises `background-image`: for a
      URL without quotes or line breaks, the regex gives back the URL. */
  lemma UrlMatchRoundTrip(u: string)
    requires u != [] && NoLineTerminator(u) && '"' !in u
    ensures UrlMatch(UrlOpen + u + UrlClose) == Some(u)
  {
    UrlMatchLeading(u, []);
    assert UrlOpen + u + UrlClose + [] == UrlOpen + u + UrlClose;
  }

  // ---------------------------------------------------------------------
  // Links: de-duplicated by URL, first-seen text kept
  // ---------------------------------------------------------------------

  /** `link.innerText.trim() || link.href`. */
  function LinkText(a: Anchor): string {
    var text := Trim(a.innerText);
    if text != [] then text else a.href
  }

  /** `{ text: link.innerText.trim() || link.href, url: link.href }`. */
  function LinkOf(a: Anchor): Link {
    Link(LinkText(a), a.href)
  }

  /** No earlier anchor has the same `href`. */
  predicate FirstWithHref(anchors: seq<Anchor>, i: nat)
    requires i < |anchors|
  {
    forall j :: 0 <= j < i ==> anchors[j].href != anchors[i].href
  }

  /** The anchors among the first `n` that are the first with their URL, in
      document order. */
  function FirstAnchors(anchors: seq<Anchor>, n: nat): seq<Anchor>
    requires n <= |anchors|
  {
    if n == 0 then []
    else FirstAnchors(anchors, n - 1) + (if FirstWithHref(anchors, n - 1) then [anchors[n - 1]] else [])
  }

  /** Reference definition of `card.links` for the first `n` anchors: the
      link of every anchor that is the first with its URL, in document order. */
  function DedupLinks(anchors: seq<Anchor>, n: nat): seq<Link>
    requires n <= |anchors|
  {
    if n == 0 then []
    else DedupLinks(anchors, n - 1) + (if FirstWithHref(anchors, n - 1) then [LinkOf(anchors[n - 1])] else [])
  }

  /** The links are the links of the first-seen anchors. */
  lemma {:induction false} DedupLinksOfFirsts(anchors: seq<Anchor>, n: nat)
    requires n <= |anchors|
    ensures DedupLinks(anchors, n) == Map(LinkOf, FirstAnchors(anchors, n))
  {
    if n > 0 {
      DedupLinksOfFirsts(anchors, n - 1);
      var tail := if FirstWithHref(anchors, n - 1) then [anchors[n - 1]] else [];
      MapAppend(LinkOf, FirstAnchors(anchors, n - 1), tail);
      assert Map(LinkOf, tail) == if FirstWithHref(anchors, n - 1) then [LinkOf(anchors[n - 1])] else [] by {
        assert tail == [] || tail[..0] == [];
      }
    }
  }

  /** Some anchor in `xs` has URL `u`. */
  predicate HasHref(xs: seq<Anchor>, u: string) {
    exists k :: 0 <= k < |xs| && xs[k].href == u
  }

  /** `links.find(l => l.url === href)` finds something. */
  predicate HasUrl(links: seq<Link>, u: string) {
    exists k :: 0 <= k < |links| && links[k].url == u
  }

  predicate DistinctUrls(links: seq<Link>) {
    forall i, j :: 0 <= i < j < |links| ==> links[i].url != links[j].url
  }

  lemma FirstWithHrefIff(anchors: seq<Anchor>, i: nat)
    requires i < |anchors|
    ensures FirstWithHref(anchors, i) <==> !HasHref(anchors[..i], anchors[i].href)
  {
    if HasHref(anchors[..i], anchors[i].href) {
      var j :| 0 <= j < i && anchors[..i][j].href == anchors[i].href;
      assert anchors[j].href == anchors[i].href;
    }
  }

  /** The first-seen anchors carry exactly the URLs of the first `n` anchors. */
  lemma {:induction false} FirstAnchorsHrefs(anchors: seq<Anchor>, n: nat, u: string)
    requires n <= |anchors|
    ensures HasHref(FirstAnchors(anchors, n), u) <==> HasHref(anchors[..n], u)
  {
    if n > 0 {
      FirstAnchorsHrefs(anchors, n - 1, u);
      var prev := FirstAnchors(anchors, n - 1);
      var xs := FirstAnchors(anchors, n);
      var a := anchors[n - 1];
      assert forall k :: 0 <= k < |prev| ==> xs[k] == prev[k];
      assert forall k :: 0 <= k < n - 1 ==> anchors[..n][k] == anchors[..n - 1][k];
      if HasHref(anchors[..n], u) {
        var k :| 0 <= k < n && anchors[..n][k].href == u;
        if k < n - 1 {
          assert anchors[..n - 1][k].href == u;
          var k' :| 0 <= k' < |prev| && prev[k'].href == u;
          assert xs[k'].href == u;
        } else if FirstWithHref(anchors, n - 1) {
          assert xs[|prev|].href == u;
        } else {
          var j :| 0 <= j < n - 1 && anchors[j].href == a.href;
          assert anchors[..n - 1][j].href == u;
          var k' :| 0 <= k' < |prev| && prev[k'].href == u;
          assert xs[k'].href == u;
        }
      }
      if HasHref(xs, u) {
        var k :| 0 <= k < |xs| && xs[k].href == u;
        if k < |prev| {
          assert prev[k].href == u;
          var k' :| 0 <= k' < n - 1 && anchors[..n - 1][k'].href == u;
          assert anchors[..n][k'].href == u;
        } else {
          assert anchors[..n][n - 1].href == u;
        }
      }
    }
  }

  /** No URL is taken twice. */
  lemma {:induction false} FirstAnchorsDistinct(anchors: seq<Anchor>, n: nat)
    requires n <= |anchors|
    ensures forall i, j :: 0 <= i < j < |FirstAnchors(anchors, n)| ==> FirstAnchors(anchors, n)[i].href != FirstAnchors(anchors, n)[j].href
  {
    if n > 0 {
      FirstAnchorsDistinct(anchors, n - 1);
      var prev := FirstAnchors(anchors, n - 1);
      if FirstWithHref(anchors, n - 1) {
        var xs := prev + [anchors[n - 1]];
        FirstWithHrefIff(anchors, n - 1);
        FirstAnchorsHrefs(anchors, n - 1, anchors[n - 1].href);
        forall i | 0 <= i < |prev| ensures xs[i].href != xs[|prev|].href {
          assert prev[i].href == xs[i].href;
        }
      }
    }
  }

  /** Every first-seen anchor is the first with its URL. */
  lemma {:induction false} FirstAnchorsAreFirsts(anchors: seq<Anchor>, n: nat, k: nat)
    requires n <= |anchors| && k < |FirstAnchors(anchors, n)|
    ensures exists i :: 0 <= i < n && FirstWithHref(anchors, i) && FirstAnchors(anchors, n)[k] == anchors[i]
  {
    var prev := FirstAnchors(anchors, n - 1);
    var xs := FirstAnchors(anchors, n);
    if k < |prev| {
      FirstAnchorsAreFirsts(anchors, n - 1, k);
      assert xs[k] == prev[k];
    } else {
      assert FirstWithHref(anchors, n - 1) && xs[k] == anchors[n - 1];
    }
  }

  /** Every anchor that is the first with its URL is taken. */
  lemma {:induction false} FirstAnchorsTakeFirsts(anchors: seq<Anchor>, n: nat, i: nat)
    requires i < n <= |anchors| && FirstWithHref(anchors, i)
    ensures anchors[i] in FirstAnchors(anchors, n)
  {
    if i < n - 1 {
      FirstAnchorsTakeFirsts(anchors, n - 1, i);
    }
  }

  /** The `k`-th link is the link of the `k`-th first-seen anchor. */
  lemma DedupLinkAt(anchors: seq<Anchor>, n: nat, k: nat)
    requires n <= |anchors| && k < |FirstAnchors(anchors, n)|
    ensures |DedupLinks(anchors, n)| == |FirstAnchors(anchors, n)|
    ensures DedupLinks(anchors, n)[k] == LinkOf(FirstAnchors(anchors, n)[k])
  {
    DedupLinksOfFirsts(anchors, n);
    MapIndex(LinkOf, FirstAnchors(anchors, n), k);
  }

  /** `card.links` carries exactly the URLs of the card's anchors. */
  lemma DedupLinksUrls(anchors: seq<Anchor>, u: string)
    ensures HasUrl(DedupLinks(anchors, |anchors|), u) <==> HasHref(anchors, u)
  {
    var n := |anchors|;
    var firsts := FirstAnchors(anchors, n);
    var links := DedupLinks(anchors, n);
    DedupLinksOfFirsts(anchors, n);
    FirstAnchorsHrefs(anchors, n, u);
    assert anchors[..n] == anchors;
    if HasUrl(links, u) {
      var k :| 0 <= k < |links| && links[k].url == u;
      DedupLinkAt(anchors, n, k);
      assert firsts[k].href == u;
    }
    if HasHref(firsts, u) {
      var k :| 0 <= k < |firsts| && firsts[k].href == u;
      DedupLinkAt(anchors, n, k);
      assert links[k].url == u;
    }
  }

  /** No URL appears twice in `card.links`. */
  lemma DedupLinksDistinct(anchors: seq<Anchor>)
    ensures DistinctUrls(DedupLinks(anchors, |anchors|))
  {
    var n := |anchors|;
    var firsts := FirstAnchors(anchors, n);
    var links := DedupLinks(anchors, n);
    DedupLinksOfFirsts(anchors, n);
    FirstAnchorsDistinct(anchors, n);
    forall i, j | 0 <= i < j < |links| ensures links[i].url != links[j].url {
      DedupLinkAt(anchors, n, i);
      DedupLinkAt(anchors, n, j);
    }
  }

  /** Each link of `card.links` is the link of an anchor that is the first
      with its URL (so its text is the first-seen text), and each such
      anchor gives one. */
  lemma DedupLinksMembers(anchors: seq<Anchor>, l: Link)
    ensures l in DedupLinks(anchors, |anchors|) <==>
              exists i :: 0 <= i < |anchors| && FirstWithHref(anchors, i) && l == LinkOf(anchors[i])
  {
    if l in DedupLinks(anchors, |anchors|) {
      DedupLinksFromFirsts(anchors, l);
    }
    if exists i :: 0 <= i < |anchors| && FirstWithHref(anchors, i) && l == LinkOf(anchors[i]) {
      var i :| 0 <= i < |anchors| && FirstWithHref(anchors, i) && l == LinkOf(anchors[i]);
      DedupLinksHasFirst(anchors, i);
    }
  }

  lemma DedupLinksFromFirsts(anchors: seq<Anchor>, l: Link)
    requires l in DedupLinks(anchors, |anchors|)
    ensures exists i :: 0 <= i < |anchors| && FirstWithHref(anchors, i) && l == LinkOf(anchors[i])
  {
    var n := |anchors|;
    var firsts := FirstAnchors(anchors, n);
    DedupLinksOfFirsts(anchors, n);
    MapMembers(LinkOf, firsts, l);
    var k :| 0 <= k < |firsts| && l == LinkOf(firsts[k]);
    FirstAnchorsAreFirsts(anchors, n, k);
  }

  lemma DedupLinksHasFirst(anchors: seq<Anchor>, i: nat)
    requires i < |anchors| && FirstWithHref(anchors, i)
    ensures LinkOf(anchors[i]) in DedupLinks(anchors, |anchors|)
  {
    var n := |anchors|;
    var firsts := FirstAnchors(anchors, n);
    DedupLinksOfFirsts(anchors, n);
    FirstAnchorsTakeFirsts(anchors, n, i);
    var k :| 0 <= k < |firsts| && firsts[k] == anchors[i];
    MapIndex(LinkOf, firsts, k);
  }

  /** One step of the loop: the next anchor adds its link exactly when no
      link kept so far has its URL. */
  lemma DedupLinksStep(anchors: seq<Anchor>, i: nat)
    requires i < |anchors|
    ensures HasUrl(DedupLinks(anchors, i), anchors[i].href) ==> DedupLinks(anchors, i + 1) == DedupLinks(anchors, i)
    ensures !HasUrl(DedupLinks(anchors, i), anchors[i].href) ==> DedupLinks(anchors, i + 1) == DedupLinks(anchors, i) + [Link(LinkText(anchors[i]), anchors[i].href)]
  {
    var firsts := FirstAnchors(anchors, i);
    var links := DedupLinks(anchors, i);
    var href := anchors[i].href;
    DedupLinksOfFirsts(anchors, i);
    FirstAnchorsHrefs(anchors, i, href);
    FirstWithHrefIff(anchors, i);
    if HasUrl(links, href) {
      var k :| 0 <= k < |links| && links[k].url == href;
      DedupLinkAt(anchors, i, k);
      assert firsts[k].href == href;
    }
    if HasHref(firsts, href) {
      var k :| 0 <= k < |firsts| && firsts[k].href == href;
      DedupLinkAt(anchors, i, k);
      assert links[k].url == href;
    }
  }

  /** The loop at taskcard_downloader.py:244-252. */
  method ExtractLinks(anchors: seq<Anchor>) returns (links: seq<Link>)
    ensures links == DedupLinks(anchors, |anchors|)
  {
    links := [];
    var i := 0;
    while i < |anchors|
      invariant 0 <= i <= |anchors|
      invariant links == DedupLinks(anchors, i)
    {
      var href := anchors[i].href;
      var text := LinkText(anchors[i]);
      DedupLinksStep(anchors, i);
      if !HasUrl(links, href) {
        links := links + [Link(text, href)];
      }
      i := i + 1;
    }
  }

  // ---------------------------------------------------------------------
  // Attachments: one record per element that has a caption
  // ---------------------------------------------------------------------

  predicate HasCaption(d: AttachmentDiv) {
    d.caption.Some?
  }

  /** `{ info: caption.innerText.trim(), url: fileUrl }`. */
  function AttachmentOf(d: AttachmentDiv): (a: Attachment)
    ensures a.url == FileUrl(d.backgroundImage)
    ensures HasCaption(d) ==> a.info == Trim(d.caption.value)
  {
    Attachment(Trim(d.caption.GetOr([])), FileUrl(d.backgroundImage))
  }

  /** Reference definition of `card.attachments`: the record of every
      captioned element, in document order. */
  function AttachmentsOf(divs: seq<AttachmentDiv>): seq<Attachment> {
    Map(AttachmentOf, Filter(HasCaption, divs))
  }

  /** An attachment record is produced for exactly the captioned elements. */
  lemma AttachmentsSpec(divs: seq<AttachmentDiv>, a: Attachment)
    ensures a in AttachmentsOf(divs) <==> exists d :: d in divs && HasCaption(d) && a == AttachmentOf(d)
  {
    var kept := Filter(HasCaption, divs);
    MapMembers(AttachmentOf, kept, a);
    if a in AttachmentsOf(divs) {
      var i :| 0 <= i < |kept| && a == AttachmentOf(kept[i]);
      FilterMember(HasCaption, divs, kept[i]);
    } else {
      forall d | d in divs && HasCaption(d) ensures a != AttachmentOf(d) {
        FilterMember(HasCaption, divs, d);
        var i :| 0 <= i < |kept| && kept[i] == d;
      }
    }
  }

  /** One step of the loop: a captioned element adds its record. */
  lemma AttachmentsStep(divs: seq<AttachmentDiv>, i: nat)
    requires i < |divs|
    ensures divs[i].caption.None? ==> AttachmentsOf(divs[..i + 1]) == AttachmentsOf(divs[..i])
    ensures divs[i].caption.Some? ==> AttachmentsOf(divs[..i + 1]) == AttachmentsOf(divs[..i]) + [Attachment(Trim(divs[i].caption.value), FileUrl(divs[i].backgroundImage))]
  {
    MapFilterStep(AttachmentOf, HasCaption, divs, i);
  }

  /** The loop at taskcard_downloader.py:255-279. */
  method ExtractAttachments(divs: seq<AttachmentDiv>) returns (attachments: seq<Attachment>)
    ensures attachments == AttachmentsOf(divs)
  {
    attachments := [];
    var i := 0;
    while i < |divs|
      invariant 0 <= i <= |divs|
      invariant attachments == AttachmentsOf(divs[..i])
    {
      var div := divs[i];
      var fileUrl: Option<string> := None;
      if div.backgroundImage.Some? {
        var bgStyle := div.backgroundImage.value;
        if bgStyle != [] {
          var urlMatch := UrlMatch(bgStyle);
          if urlMatch.Some? {
            fileUrl := urlMatch;
          }
        }
      }
      assert fileUrl == FileUrl(div.backgroundImage);
      AttachmentsStep(divs, i);
      if div.caption.Some? {
        var text := Trim(div.caption.value);
        attachments := attachments + [Attachment(text, fileUrl)];
      }
      i := i + 1;
    }
    assert divs[..i] == divs;
  }

  // ---------------------------------------------------------------------
  // Cards, columns and the board
  // ---------------------------------------------------------------------

  /** `card` as the script builds it from one `.draggableCard`. */
  function CardOf(el: CardElement): Card {
    var title := if el.header.Some? then Trim(el.header.value) else [];
    match el.content
    case None => Card(title, [], [], [])
    case Some(c) =>
      Card(title,
           if c.editable.Some? then Trim(c.editable.value) else [],
           DedupLinks(c.anchors, |c.anchors|),
           AttachmentsOf(c.attachmentDivs))
  }

  /** The retention test at taskcard_downloader.py:283. */
  predicate HasContent(c: Card) {
    c.title != [] || c.description != [] || |c.links| > 0 || |c.attachments| > 0
  }

  /** `columnData` as the script builds it from one `.draggableList`. */
  function ColumnOf(el: ColumnElement): Column {
    Column(if el.header.Some? then Trim(el.header.value) else [], KeptCards(el.cards))
  }

  /** The retention test at taskcard_downloader.py:289. */
  predicate KeepColumn(c: Column) {
    c.title != [] || |c.cards| > 0
  }

  /** The board title: `.board-information-title` when present (even if its
      text is blank), else the first `h1, .board-header-container .text-h5`,
      else the empty string. */
  function BoardTitle(dom: BoardDom): (t: string)
    ensures dom.informationTitle.Some? ==> t == Trim(dom.informationTitle.value)
    ensures dom.informationTitle.None? && dom.headerTitle.Some? ==> t == Trim(dom.headerTitle.value)
    ensures dom.informationTitle.None? && dom.headerTitle.None? ==> t == []
  {
    match dom.informationTitle
    case Some(t) => Trim(t)
    case None =>
      match dom.headerTitle
      case Some(h) => Trim(h)
      case None => []
  }

  /** The cards a column keeps, in document order. */
  function KeptCards(els: seq<CardElement>): seq<Card> {
    Filter(HasContent, Map(CardOf, els))
  }

  /** The columns the board keeps, in document order. */
  function KeptColumns(els: seq<ColumnElement>): seq<Column> {
    Filter(KeepColumn, Map(ColumnOf, els))
  }

  /** Reference definition of the value the script returns. */
  function BoardOf(dom: BoardDom): Board {
    Board(BoardTitle(dom), KeptColumns(dom.columns))
  }

  /** The body of the card loop, taskcard_downloader.py:221-280. */
  method ExtractCard(el: CardElement) returns (card: Card)
    ensures card == CardOf(el)
  {
    card := Card([], [], [], []);
    if el.header.Some? {
      card := card.(title := Trim(el.header.value));
    }
    if el.content.Some? {
      var content := el.content.value;
      if content.editable.Some? {
        card := card.(description := Trim(content.editable.value));
      }
      var links := ExtractLinks(content.anchors);
      var attachments := ExtractAttachments(content.attachmentDivs);
      card := card.(links := links, attachments := attachments);
    }
  }

  /** The script at taskcard_downloader.py:183-296. */
  method ExtractBoard(dom: BoardDom) returns (board: Board)
    ensures board == BoardOf(dom)
  {
    var boardTitle := [];
    if dom.informationTitle.Some? {
      boardTitle := Trim(dom.informationTitle.value);
    } else if dom.headerTitle.Some? {
      boardTitle := Trim(dom.headerTitle.value);
    }
    var columns: seq<Column> := [];
    var i := 0;
    while i < |dom.columns|
      invariant 0 <= i <= |dom.columns|
      invariant columns == KeptColumns(dom.columns[..i])
    {
      var col := dom.columns[i];
      var title := if col.header.Some? then Trim(col.header.value) else [];
      var cards: seq<Card> := [];
      var j := 0;
      while j < |col.cards|
        invariant 0 <= j <= |col.cards|
        invariant cards == KeptCards(col.cards[..j])
      {
        var card := ExtractCard(col.cards[j]);
        FilterMapStep(HasContent, CardOf, col.cards, j);
        if HasContent(card) {
          cards := cards + [card];
        }
        j := j + 1;
      }
      assert col.cards[..j] == col.cards;
      FilterMapStep(KeepColumn, ColumnOf, dom.columns, i);
      if title != [] || |cards| > 0 {
        columns := columns + [Column(title, cards)];
      }
      i := i + 1;
    }
    assert dom.columns[..i] == dom.columns;
    board := Board(boardTitle, columns);
  }

  // ---------------------------------------------------------------------
  // What the returned board guarantees
  // ---------------------------------------------------------------------

  /** A card has links exactly when its content has anchors: the first
      anchor is always the first with its URL. */
  lemma DedupLinksNonEmpty(anchors: seq<Anchor>)
    ensures |DedupLinks(anchors, |anchors|)| > 0 <==> |anchors| > 0
  {
    if |anchors| > 0 {
      DedupLinksHasFirst(anchors, 0);
    }
  }

  /** A card has attachments exactly when one of its attachment elements
      has a caption. */
  lemma AttachmentsNonEmpty(divs: seq<AttachmentDiv>)
    ensures |AttachmentsOf(divs)| > 0 <==> exists i :: 0 <= i < |divs| && HasCaption(divs[i])
  {
    FilterEmpty(HasCaption, divs);
  }

  /** The retention test of taskcard_downloader.py:283 in terms of the DOM:
      a card is kept exactly when its trimmed header is non-empty, or it has
      content whose trimmed text is non-empty, or which holds an anchor or a
      captioned attachment element. */
  lemma CardRetained(el: CardElement)
    ensures HasContent(CardOf(el)) <==>
              (el.header.Some? && !Blank(el.header.value)) ||
              (el.content.Some? &&
                 ((el.content.value.editable.Some? && !Blank(el.content.value.editable.value)) ||
                  |el.content.value.anchors| > 0 ||
                  exists i :: 0 <= i < |el.content.value.attachmentDivs| && HasCaption(el.content.value.attachmentDivs[i])))
  {
    if el.content.Some? {
      DedupLinksNonEmpty(el.content.value.anchors);
      AttachmentsNonEmpty(el.content.value.attachmentDivs);
    }
  }

  /** The retention test of taskcard_downloader.py:289 in terms of the DOM:
      a column is kept exactly when its trimmed header is non-empty or one
      of its cards is kept. */
  lemma ColumnRetained(el: ColumnElement)
    ensures KeepColumn(ColumnOf(el)) <==>
              (el.header.Some? && !Blank(el.header.value)) ||
              exists j :: 0 <= j < |el.cards| && HasContent(CardOf(el.cards[j]))
  {
    var cards := Map(CardOf, el.cards);
    FilterEmpty(HasContent, cards);
    if exists j :: 0 <= j < |el.cards| && HasContent(CardOf(el.cards[j])) {
      var j :| 0 <= j < |el.cards| && HasContent(CardOf(el.cards[j]));
      MapIndex(CardOf, el.cards, j);
    }
    if exists j :: 0 <= j < |cards| && HasContent(cards[j]) {
      var j :| 0 <= j < |cards| && HasContent(cards[j]);
      MapIndex(CardOf, el.cards, j);
    }
  }

  /** Whether a card is kept depends on that card alone, and kept cards stay
      in document order: the cards of two runs of elements are the cards of
      each run, one after the other. */
  lemma KeptCardsAppend(xs: seq<CardElement>, ys: seq<CardElement>)
    ensures KeptCards(xs + ys) == KeptCards(xs) + KeptCards(ys)
  {
    MapAppend(CardOf, xs, ys);
    FilterAppend(HasContent, Map(CardOf, xs), Map(CardOf, ys));
  }

  /** The same for columns. */
  lemma KeptColumnsAppend(xs: seq<ColumnElement>, ys: seq<ColumnElement>)
    ensures KeptColumns(xs + ys) == KeptColumns(xs) + KeptColumns(ys)
  {
    MapAppend(ColumnOf, xs, ys);
    FilterAppend(KeepColumn, Map(ColumnOf, xs), Map(ColumnOf, ys));
  }

  /** A text that trimming leaves unchanged. */
  predicate Trimmed(s: string) {
    Trim(s) == s
  }

  predicate WellFormedCard(c: Card) {
    HasContent(c) && Trimmed(c.title) && Trimmed(c.description) && DistinctUrls(c.links) &&
    forall k :: 0 <= k < |c.attachments| ==> Trimmed(c.attachments[k].info)
  }

  predicate WellFormedColumn(c: Column) {
    KeepColumn(c) && Trimmed(c.title) &&
    forall k :: 0 <= k < |c.cards| ==> WellFormedCard(c.cards[k])
  }

  /** The shape of every value the script returns: trimmed texts, no empty
      card, no empty column, no URL twice in a card. */
  predicate WellFormedBoard(b: Board) {
    Trimmed(b.boardTitle) &&
    forall k :: 0 <= k < |b.columns| ==> WellFormedColumn(b.columns[k])
  }

  lemma AttachmentsTrimmed(divs: seq<AttachmentDiv>, k: nat)
    requires k < |AttachmentsOf(divs)|
    ensures Trimmed(AttachmentsOf(divs)[k].info)
  {
    var a := AttachmentsOf(divs)[k];
    AttachmentsSpec(divs, a);
    var d :| d in divs && HasCaption(d) && a == AttachmentOf(d);
    TrimIdempotent(d.caption.value);
  }

  /** Every card the script keeps is well formed. */
  lemma KeptCardWellFormed(els: seq<CardElement>, c: Card)
    requires c in KeptCards(els)
    ensures WellFormedCard(c)
  {
    FilterMember(HasContent, Map(CardOf, els), c);
    MapMembers(CardOf, els, c);
    var i :| 0 <= i < |els| && c == CardOf(els[i]);
    var el := els[i];
    if el.header.Some? {
      TrimIdempotent(el.header.value);
    }
    if el.content.Some? {
      var content := el.content.value;
      if content.editable.Some? {
        TrimIdempotent(content.editable.value);
      }
      DedupLinksDistinct(content.anchors);
      forall k | 0 <= k < |c.attachments| ensures Trimmed(c.attachments[k].info) {
        AttachmentsTrimmed(content.attachmentDivs, k);
      }
    }
  }

  /** Every column the script keeps is well formed. */
  lemma KeptColumnWellFormed(els: seq<ColumnElement>, c: Column)
    requires c in KeptColumns(els)
    ensures WellFormedColumn(c)
  {
    FilterMember(KeepColumn, Map(ColumnOf, els), c);
    MapMembers(ColumnOf, els, c);
    var i :| 0 <= i < |els| && c == ColumnOf(els[i]);
    if els[i].header.Some? {
      TrimIdempotent(els[i].header.value);
    }
    forall k | 0 <= k < |c.cards| ensures WellFormedCard(c.cards[k]) {
      KeptCardWellFormed(els[i].cards, c.cards[k]);
    }
  }

  /** Every board the script returns is well formed. */
  lemma BoardWellFormed(dom: BoardDom)
    ensures WellFormedBoard(BoardOf(dom))
  {
    var b := BoardOf(dom);
    if dom.informationTitle.Some? {
      TrimIdempotent(dom.informationTitle.value);
    } else if dom.headerTitle.Some? {
      TrimIdempotent(dom.headerTitle.value);
    }
    forall k | 0 <= k < |b.columns| ensures WellFormedColumn(b.columns[k]) {
      KeptColumnWellFormed(dom.columns, b.columns[k]);
    }
  }
}
