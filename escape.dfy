/** `TaskcardDownloader._escape_html`: the escaping applied to every piece of
    board text before it is put into a reportlab paragraph. */
module Escape {
  import opened Text

  /** Number of occurrences of `c` in `s`. */
  function Count(s: string, c: char): nat {
    if |s| == 0 then 0 else (if s[0] == c then 1 else 0) + Count(s[1..], c)
  }

  /** Python `s.replace(c, rep)` for a one-character `c`: each occurrence of
      `c` is replaced by `rep`, everything else is kept in order. */
  function ReplaceAll(s: string, c: char, rep: string): string {
    if |s| == 0 then []
    else (if s[0] == c then rep else [s[0]]) + ReplaceAll(s[1..], c, rep)
  }

  lemma {:induction false} ReplaceAppend(a: string, b: string, c: char, rep: string)
    ensures ReplaceAll(a + b, c, rep) == ReplaceAll(a, c, rep) + ReplaceAll(b, c, rep)
  {
    if |a| != 0 {
      var h := if a[0] == c then rep else [a[0]];
      assert (a + b)[0] == a[0];
      assert (a + b)[1..] == a[1..] + b;
      ReplaceAppend(a[1..], b, c, rep);
      var ra, rb := ReplaceAll(a[1..], c, rep), ReplaceAll(b, c, rep);
      calc {
        ReplaceAll(a + b, c, rep);
        h + ReplaceAll(a[1..] + b, c, rep);
        h + (ra + rb);
        { assert h + (ra + rb) == (h + ra) + rb; }
        (h + ra) + rb;
        ReplaceAll(a, c, rep) + rb;
      }
    } else {
      assert a + b == b;
    }
  }

  /** The three `replace` passes of `_escape_html`, in the source's order. */
  function ThreePasses(s: string): string {
    ReplaceAll(ReplaceAll(ReplaceAll(s, '&', "&amp;"), '<', "&lt;"), '>', "&gt;")
  }

  /** The escape of one character. */
  function EscapeChar(c: char): string {
    if c == '&' then "&amp;" else if c == '<' then "&lt;" else if c == '>' then "&gt;" else [c]
  }

  /** Reference definition: escape every character on its own, left to right. */
  function EscapeEach(s: string): string {
    if |s| == 0 then [] else EscapeChar(s[0]) + EscapeEach(s[1..])
  }

  lemma {:induction false} EscapeEachNoAngles(s: string)
    ensures '<' !in EscapeEach(s) && '>' !in EscapeEach(s)
  {
    if |s| != 0 {
      EscapeEachNoAngles(s[1..]);
    }
  }

  lemma {:induction false} EscapeEachIdentity(s: string)
    requires '&' !in s && '<' !in s && '>' !in s
    ensures EscapeEach(s) == s
  {
    if |s| != 0 {
      assert '&' !in s[1..] && '<' !in s[1..] && '>' !in s[1..];
      EscapeEachIdentity(s[1..]);
      assert s == [s[0]] + s[1..];
    }
  }

  lemma {:induction false} EscapeEachLength(s: string)
    ensures |EscapeEach(s)| == |s| + 4 * Count(s, '&') + 3 * Count(s, '<') + 3 * Count(s, '>')
  {
    if |s| != 0 {
      EscapeEachLength(s[1..]);
    }
  }

  /** Replacing in a one-character string. */
  lemma ReplaceSingle(x: char, c: char, rep: string)
    ensures ReplaceAll([x], c, rep) == if x == c then rep else [x]
  {
    assert [x][1..] == [];
    assert (if x == c then rep else [x]) + [] == if x == c then rep else [x];
  }

  /** Replacing a character that does not occur changes nothing. */
  lemma {:induction false} ReplaceAbsent(s: string, c: char, rep: string)
    requires c !in s
    ensures ReplaceAll(s, c, rep) == s
  {
    if |s| != 0 {
      assert c !in s[1..];
      ReplaceAbsent(s[1..], c, rep);
      assert s == [s[0]] + s[1..];
    }
  }

  lemma ThreePassesOne(c: char)
    ensures ThreePasses([c]) == EscapeChar(c)
  {
    ReplaceSingle(c, '&', "&amp;");
    if c == '&' {
      ReplaceAbsent("&amp;", '<', "&lt;");
      ReplaceAbsent("&amp;", '>', "&gt;");
    } else {
      ReplaceSingle(c, '<', "&lt;");
      if c == '<' {
        ReplaceAbsent("&lt;", '>', "&gt;");
      } else {
        ReplaceSingle(c, '>', "&gt;");
      }
    }
  }

  lemma ThreePassesAppend(a: string, b: string)
    ensures ThreePasses(a + b) == ThreePasses(a) + ThreePasses(b)
  {
    ReplaceAppend(a, b, '&', "&amp;");
    var a1, b1 := ReplaceAll(a, '&', "&amp;"), ReplaceAll(b, '&', "&amp;");
    ReplaceAppend(a1, b1, '<', "&lt;");
    var a2, b2 := ReplaceAll(a1, '<', "&lt;"), ReplaceAll(b1, '<', "&lt;");
    ReplaceAppend(a2, b2, '>', "&gt;");
  }

  /** Replacing `&` first makes the three passes act like one pass over the
      characters: an `&` introduced by `&lt;` or `&gt;` is never escaped again. */
  lemma {:induction false} ThreePassesIsEscapeEach(s: string)
    ensures ThreePasses(s) == EscapeEach(s)
  {
    if |s| != 0 {
      ThreePassesIsEscapeEach(s[1..]);
      assert s == [s[0]] + s[1..];
      ThreePassesAppend([s[0]], s[1..]);
      ThreePassesOne(s[0]);
    }
  }

  /** The escaping: `&` is replaced first, then `<`, then `>`; an empty
      input gives the empty string. */
  function EscapeHtml(text: string): (r: string)
    ensures text == [] ==> r == []
  {
    if |text| == 0 then [] else ThreePasses(text)
  }

  lemma EscapeHtmlIsEscapeEach(text: string)
    ensures EscapeHtml(text) == EscapeEach(text)
  {
    if |text| != 0 {
      ThreePassesIsEscapeEach(text);
    }
  }

  /** The output holds no `<` and no `>`: an `&` introduced by `&lt;` or
      `&gt;` is never escaped again. */
  lemma EscapeHtmlNoAngles(text: string)
    ensures '<' !in EscapeHtml(text) && '>' !in EscapeHtml(text)
  {
    EscapeHtmlIsEscapeEach(text);
    EscapeEachNoAngles(text);
  }

  /** Text without `&`, `<`, `>` is unchanged. */
  lemma EscapeHtmlIdentity(text: string)
    requires '&' !in text && '<' !in text && '>' !in text
    ensures EscapeHtml(text) == text
  {
    EscapeHtmlIsEscapeEach(text);
    EscapeEachIdentity(text);
  }

  /** Each `&` grows by four characters, each `<` and `>` by three. */
  lemma EscapeHtmlLength(text: string)
    ensures |EscapeHtml(text)| == |text| + 4 * Count(text, '&') + 3 * Count(text, '<') + 3 * Count(text, '>')
  {
    EscapeHtmlIsEscapeEach(text);
    EscapeEachLength(text);
  }

  /** Inverse of the escaping: decodes `&amp;`, `&lt;` and `&gt;`. */
  function Unescape(s: string): string {
    if |s| == 0 then []
    else if HasPrefix(s, "&amp;") then "&" + Unescape(s[5..])
    else if HasPrefix(s, "&lt;") then "<" + Unescape(s[4..])
    else if HasPrefix(s, "&gt;") then ">" + Unescape(s[4..])
    else [s[0]] + Unescape(s[1..])
  }

  /** The escaping loses no information: unescaping gives back the text. */
  lemma UnescapeEscape(s: string)
    ensures Unescape(EscapeHtml(s)) == s
  {
    EscapeHtmlIsEscapeEach(s);
    UnescapeEach(s);
  }

  lemma {:induction false} UnescapeEach(s: string)
    ensures Unescape(EscapeEach(s)) == s
  {
    if |s| != 0 {
      UnescapeEach(s[1..]);
      UnescapeCons(s[0], EscapeEach(s[1..]));
      assert s == [s[0]] + s[1..];
    }
  }

  lemma UnescapeCons(c: char, rest: string)
    ensures Unescape(EscapeChar(c) + rest) == [c] + Unescape(rest)
  {
    var w := EscapeChar(c) + rest;
    if c == '&' {
      assert HasPrefix(w, "&amp;") && w[5..] == rest;
    } else if c == '<' {
      UnescapeLt(rest);
    } else if c == '>' {
      UnescapeGt(rest);
    } else {
      assert w[0] == c && w[1..] == rest;
      assert !HasPrefix(w, "&amp;") && !HasPrefix(w, "&lt;") && !HasPrefix(w, "&gt;");
    }
  }

  lemma UnescapeLt(rest: string)
    ensures Unescape("&lt;" + rest) == "<" + Unescape(rest)
  {
    var w := "&lt;" + rest;
    assert w[1] == 'l' && w[..4] == "&lt;" && w[4..] == rest;
    assert !HasPrefix(w, "&amp;");
  }

  lemma UnescapeGt(rest: string)
    ensures Unescape("&gt;" + rest) == ">" + Unescape(rest)
  {
    var w := "&gt;" + rest;
    assert w[1] == 'g' && w[..4] == "&gt;" && w[4..] == rest;
    assert !HasPrefix(w, "&amp;") && !HasPrefix(w, "&lt;");
  }
}
