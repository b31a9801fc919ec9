/**
 * `escapeHtml` (the five markup characters `& < > " '` replaced by entities),
 * its inverse, and the newline-to-`<br>` step applied to the message.
 */
module Html {

  predicate IsMarkupChar(c: char) {
    c == '&' || c == '<' || c == '>' || c == '"' || c == '\''
  }

  /** The replacement table of `escapeHtml`: exactly the five markup characters are
      replaced, each by an entity from `&` to `;`; every other character stands for itself. */
  function EscapeChar(c: char): (e: string)
    ensures e == [c] <==> !IsMarkupChar(c)
    ensures IsMarkupChar(c) ==> 4 <= |e| && e[0] == '&' && e[|e| - 1] == ';'
  {
    match c
    case '&' => "&amp;"
    case '<' => "&lt;"
    case '>' => "&gt;"
    case '"' => "&quot;"
    case '\'' => "&#39;"
    case _ => [c]
  }

  /** One of the five entities `escapeHtml` produces starts at position `i` of `r`. */
  predicate EntityAt(r: string, i: nat)
    requires i <= |r|
  {
    var t := r[i..];
    "&amp;" <= t || "&lt;" <= t || "&gt;" <= t || "&quot;" <= t || "&#39;" <= t
  }

  /** Safe to place in markup: no `<`, `>`, `"` or `'`, and every `&` begins an entity. */
  predicate IsEscaped(r: string) {
    forall i :: 0 <= i < |r| ==>
      && r[i] != '<' && r[i] != '>' && r[i] != '"' && r[i] != '\''
      && (r[i] == '&' ==> EntityAt(r, i))
  }

  lemma EscapedAppend(a: string, b: string)
    requires IsEscaped(a) && IsEscaped(b)
    ensures IsEscaped(a + b)
  {
    var r := a + b;
    forall i | 0 <= i < |r| && r[i] == '&' ensures EntityAt(r, i) {
      if i < |a| {
        assert EntityAt(a, i);
        assert r[i..] == a[i..] + b;
      } else {
        assert EntityAt(b, i - |a|);
        assert r[i..] == b[i - |a|..];
      }
    }
  }

  lemma EscapedSuffix(r: string, k: nat)
    requires IsEscaped(r) && k <= |r|
    ensures IsEscaped(r[k..])
  {
    var t := r[k..];
    forall i | 0 <= i < |t| && t[i] == '&' ensures EntityAt(t, i) {
      assert t[i..] == r[k + i..];
      assert EntityAt(r, k + i);
    }
  }

  /** Each replacement is safe on its own and one to six characters long. */
  lemma EscapeCharEscaped(c: char)
    ensures IsEscaped(EscapeChar(c))
    ensures 1 <= |EscapeChar(c)| <= 6
  {
    var e := EscapeChar(c);
    if c == '&' {
      assert e[0..] == e && EntityAt(e, 0);
    }
  }

  /** `escapeHtml(s)`: the output is safe markup and at least as long as the input. */
  function Escape(s: string): (r: string)
    ensures IsEscaped(r)
    ensures |s| <= |r| <= 6 * |s|
  {
    if s == [] then []
    else
      EscapeCharEscaped(s[0]);
      EscapedAppend(EscapeChar(s[0]), Escape(s[1..]));
      EscapeChar(s[0]) + Escape(s[1..])
  }

  /** Decodes the five entities back to their characters, left to right. */
  function Unescape(r: string): string
    decreases |r|
  {
    if r == [] then []
    else if "&amp;" <= r then ['&'] + Unescape(r[5..])
    else if "&lt;" <= r then ['<'] + Unescape(r[4..])
    else if "&gt;" <= r then ['>'] + Unescape(r[4..])
    else if "&quot;" <= r then ['"'] + Unescape(r[6..])
    else if "&#39;" <= r then ['\''] + Unescape(r[5..])
    else [r[0]] + Unescape(r[1..])
  }

  lemma UnescapeHead(c: char, rest: string)
    ensures Unescape(EscapeChar(c) + rest) == [c] + Unescape(rest)
  {
    if IsMarkupChar(c) {
      UnescapeEntityHead(c, rest);
    } else {
      var r := EscapeChar(c) + rest;
      assert r[0] == c && r[1..] == rest;
    }
  }

  lemma UnescapeEntityHead(c: char, rest: string)
    requires IsMarkupChar(c)
    ensures Unescape(EscapeChar(c) + rest) == [c] + Unescape(rest)
  {
    var r := EscapeChar(c) + rest;
    match c
    case '&' => assert r[5..] == rest;
    case '<' => assert r[1] == 'l' && r[4..] == rest;
    case '>' => assert r[1] == 'g' && r[4..] == rest;
    case '"' => assert r[1] == 'q' && r[6..] == rest;
    case '\'' => assert r[1] == '#' && r[5..] == rest;
  }

  /** Escaping loses nothing: decoding the output gives the input back. */
  lemma {:induction false} UnescapeEscape(s: string)
    ensures Unescape(Escape(s)) == s
    decreases |s|
  {
    if s != [] {
      UnescapeHead(s[0], Escape(s[1..]));
      UnescapeEscape(s[1..]);
    }
  }

  lemma EscapeCons(c: char, s: string)
    ensures Escape([c] + s) == EscapeChar(c) + Escape(s)
  {
    assert ([c] + s)[1..] == s;
  }

  /** Every safe string is the escape of something: the escapes are exactly the safe strings. */
  lemma {:induction false} EscapeUnescape(r: string)
    requires IsEscaped(r)
    ensures Escape(Unescape(r)) == r
    decreases |r|
  {
    if r == [] {
    } else if "&amp;" <= r {
      DecodeEntity(r, '&');
    } else if "&lt;" <= r {
      DecodeEntity(r, '<');
    } else if "&gt;" <= r {
      DecodeEntity(r, '>');
    } else if "&quot;" <= r {
      DecodeEntity(r, '"');
    } else if "&#39;" <= r {
      DecodeEntity(r, '\'');
    } else {
      assert !EntityAt(r, 0) by { assert r[0..] == r; }
      EscapedSuffix(r, 1);
      EscapeUnescape(r[1..]);
      EscapeCons(r[0], Unescape(r[1..]));
      assert r == [r[0]] + r[1..];
    }
  }

  /** One step of `EscapeUnescape`, for a safe string that starts with the entity of `c`. */
  lemma {:induction false} DecodeEntity(r: string, c: char)
    requires IsEscaped(r) && IsMarkupChar(c) && EscapeChar(c) <= r
    ensures Escape(Unescape(r)) == r
    decreases |r|, 0
  {
    var e := EscapeChar(c);
    var n := |e|;
    assert r == e + r[n..];
    UnescapeHead(c, r[n..]);
    EscapedSuffix(r, n);
    EscapeUnescape(r[n..]);
    EscapeCons(c, Unescape(r[n..]));
    assert r == e + r[n..];
  }

  /** `escapeHtml` leaves a string without markup characters unchanged. */
  lemma {:induction false} EscapePlain(s: string)
    requires forall i :: 0 <= i < |s| ==> !IsMarkupChar(s[i])
    ensures Escape(s) == s
    decreases |s|
  {
    if s != [] {
      EscapePlain(s[1..]);
      assert s == [s[0]] + s[1..];
    }
  }

  /** `.replace(/\n/g, "<br>")`. */
  function BreakLines(s: string): (r: string)
    ensures '\n' !in r
  {
    if s == [] then []
    else (if s[0] == '\n' then "<br>" else [s[0]]) + BreakLines(s[1..])
  }

  /** Reads each `<br>` back as a newline. */
  function UnbreakLines(r: string): string
    decreases |r|
  {
    if r == [] then []
    else if "<br>" <= r then "\n" + UnbreakLines(r[4..])
    else [r[0]] + UnbreakLines(r[1..])
  }

  /** On text without `<` (such as escaped text) the `<br>` step can be undone. */
  lemma {:induction false} UnbreakBreak(s: string)
    requires '<' !in s
    ensures UnbreakLines(BreakLines(s)) == s
    decreases |s|
  {
    if s != [] {
      var head := if s[0] == '\n' then "<br>" else [s[0]];
      var r := head + BreakLines(s[1..]);
      assert r[|head|..] == BreakLines(s[1..]);
      assert '<' !in s[1..];
      UnbreakBreak(s[1..]);
      assert s == [s[0]] + s[1..];
    }
  }

  /** The only `<` are those of `<br>` tags, and there are no quotes; every `&` begins an entity. */
  predicate OnlyBreakTags(r: string) {
    forall i :: 0 <= i < |r| ==>
      && r[i] != '"' && r[i] != '\''
      && (r[i] == '<' ==> "<br>" <= r[i..])
      && (r[i] == '&' ==> EntityAt(r, i))
  }

  lemma OnlyBreakTagsSuffix(r: string, k: nat)
    requires OnlyBreakTags(r) && k <= |r|
    ensures OnlyBreakTags(r[k..])
  {
    var t := r[k..];
    forall i | 0 <= i < |t| ensures (t[i] == '<' ==> "<br>" <= t[i..]) && (t[i] == '&' ==> EntityAt(t, i)) {
      assert t[i..] == r[k + i..];
      if t[i] == '&' { assert EntityAt(r, k + i); }
    }
  }

  lemma {:induction false} BreakLinesKeepsPrefix(e: string, s: string)
    requires e <= s && '\n' !in e
    ensures e <= BreakLines(s)
    decreases |e|
  {
    if e != [] {
      BreakLinesKeepsPrefix(e[1..], s[1..]);
    }
  }

  lemma BreakLinesEntityAtStart(s: string)
    requires s != [] && EntityAt(s, 0)
    ensures EntityAt(BreakLines(s), 0)
  {
    var r := BreakLines(s);
    assert s[0..] == s && r[0..] == r;
    if "&amp;" <= s { BreakLinesKeepsPrefix("&amp;", s); }
    else if "&lt;" <= s { BreakLinesKeepsPrefix("&lt;", s); }
    else if "&gt;" <= s { BreakLinesKeepsPrefix("&gt;", s); }
    else if "&quot;" <= s { BreakLinesKeepsPrefix("&quot;", s); }
    else { BreakLinesKeepsPrefix("&#39;", s); }
  }

  lemma OnlyBreakTagsShift(head: string, tail: string, i: nat)
    requires OnlyBreakTags(tail) && |head| <= i < |head + tail|
    ensures var r := head + tail; r[i] != '"' && r[i] != '\''
    ensures var r := head + tail; (r[i] == '<' ==> "<br>" <= r[i..]) && (r[i] == '&' ==> EntityAt(r, i))
  {
    var r := head + tail;
    var j := i - |head|;
    assert r[i..] == tail[j..];
    assert r[i] == tail[j];
    if r[i] == '&' { assert EntityAt(tail, j); }
  }

  /** After escaping and the `<br>` step, markup can only come from `<br>` tags. */
  lemma {:induction false} BreakLinesOfEscaped(s: string)
    requires IsEscaped(s)
    ensures OnlyBreakTags(BreakLines(s))
    decreases |s|
  {
    if s != [] {
      var head := if s[0] == '\n' then "<br>" else [s[0]];
      var tail := BreakLines(s[1..]);
      var r := BreakLines(s);
      assert r == head + tail;
      EscapedSuffix(s, 1);
      BreakLinesOfEscaped(s[1..]);
      if s[0] == '&' {
        assert s[0..] == s;
        BreakLinesEntityAtStart(s);
      }
      forall i | 0 <= i < |r|
        ensures r[i] != '"' && r[i] != '\''
        ensures (r[i] == '<' ==> "<br>" <= r[i..]) && (r[i] == '&' ==> EntityAt(r, i))
      {
        if i >= |head| {
          OnlyBreakTagsShift(head, tail, i);
        } else {
          OnlyBreakTagsHead(s[0], tail, i);
        }
      }
    }
  }

  /** The positions of `BreakLines` that come from its first character. */
  lemma OnlyBreakTagsHead(c: char, tail: string, i: nat)
    requires c != '<' && c != '"' && c != '\''
    requires var head := if c == '\n' then "<br>" else [c]; i < |head|
    requires c == '&' ==> EntityAt([c] + tail, 0)
    ensures var r := (if c == '\n' then "<br>" else [c]) + tail;
      && r[i] != '"' && r[i] != '\''
      && (r[i] == '<' ==> "<br>" <= r[i..])
      && (r[i] == '&' ==> EntityAt(r, i))
  {
    var r := (if c == '\n' then "<br>" else [c]) + tail;
    if c == '\n' {
      assert r[..4] == "<br>";
      assert i == 0 ==> r[0..] == r;
    } else {
      assert i == 0 && r == [c] + tail;
    }
  }

  /** The message as the HTML body shows it: `escapeHtml(message).replace(/\n/g, "<br>")`.
      No newline is left, and markup in it can only come from `<br>` tags. */
  function HtmlMessage(m: string): (r: string)
    ensures OnlyBreakTags(r) && '\n' !in r
  {
    BreakLinesOfEscaped(Escape(m));
    BreakLines(Escape(m))
  }

  /** The reader of the HTML body can recover the message exactly. */
  lemma HtmlMessageRoundTrip(m: string)
    ensures Unescape(UnbreakLines(HtmlMessage(m))) == m
  {
    var e := Escape(m);
    assert '<' !in e by {
      forall i | 0 <= i < |e| ensures e[i] != '<' { }
    }
    UnbreakBreak(e);
    UnescapeEscape(m);
  }

  /** Text whose only `<` are those of `<br>` tags has no `<script>` tag at position `i`. */
  lemma NoScriptAt(r: string, i: nat)
    requires OnlyBreakTags(r) && i <= |r|
    ensures !("<script>" <= r[i..])
  {
    var t := r[i..];
    if t != [] {
      assert t[0] == r[i];
      if r[i] == '<' {
        assert "<br>" <= t;
        assert t[1] == 'b';
      }
    }
  }

  /** Whatever the message, no `<script>` tag (and no tag other than `<br>`) starts anywhere in its HTML form. */
  lemma NoScriptTag(m: string)
    ensures var r := HtmlMessage(m); forall i :: 0 <= i <= |r| ==> !("<script>" <= r[i..])
  {
    var r := HtmlMessage(m);
    forall i | 0 <= i <= |r| ensures !("<script>" <= r[i..]) {
      NoScriptAt(r, i);
    }
  }

  /** The tags the HTML body is built from: `<h2>`, `<p>`, `<strong>`, `<br>` and their closing tags. */
  predicate TemplateTagAt(t: string) {
    "<br>" <= t || "<h2>" <= t || "</h2>" <= t || "<p>" <= t || "</p>" <= t || "<strong>" <= t || "</strong>" <= t
  }

  /** Every `<` opens one of the template's tags. */
  predicate OnlyTemplateTags(r: string) {
    forall i :: 0 <= i < |r| && r[i] == '<' ==> TemplateTagAt(r[i..])
  }

  lemma OnlyTemplateTagsAppend(a: string, b: string)
    requires OnlyTemplateTags(a) && OnlyTemplateTags(b)
    ensures OnlyTemplateTags(a + b)
  {
    forall i | 0 <= i < |a + b| && (a + b)[i] == '<' ensures TemplateTagAt((a + b)[i..]) {
      if i < |a| {
        assert (a + b)[i..] == a[i..] + b;
      } else {
        assert (a + b)[i..] == b[i - |a|..];
      }
    }
  }

  lemma PlainTextTags(s: string)
    requires '<' !in s
    ensures OnlyTemplateTags(s)
  {
  }

  lemma TemplateTagTags(t: string)
    requires t in {"<br>", "<h2>", "</h2>", "<p>", "</p>", "<strong>", "</strong>"}
    ensures OnlyTemplateTags(t)
  {
    forall i | 0 <= i < |t| && t[i] == '<' ensures TemplateTagAt(t[i..]) {
      assert i == 0;
    }
  }

  lemma BreakTagsAreTemplateTags(r: string)
    requires OnlyBreakTags(r)
    ensures OnlyTemplateTags(r)
  {
    forall i | 0 <= i < |r| && r[i] == '<' ensures TemplateTagAt(r[i..]) {
      assert "<br>" <= r[i..];
    }
  }

  /** No `<script>` starts where every `<` opens a template tag: each of those differs from it in the second or third character. */
  lemma NoScriptInTemplate(r: string, i: nat)
    requires OnlyTemplateTags(r) && i <= |r|
    ensures !("<script>" <= r[i..])
  {
    var t := r[i..];
    if t != [] && t[0] == '<' {
      assert r[i] == '<';
      assert TemplateTagAt(t);
      assert |t| >= 3 && (t[1] in {'b', 'h', 'p', '/'} || t[2] == 't');
    }
  }
}
