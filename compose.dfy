/**
 * The message composer: subject line, plain-text body and HTML body of the
 * notification mail, and a reader for the HTML body that shows every field
 * in it is escaped and can be recovered.
 */
module Compose {
  import opened Wrappers
  import opened Text
  import opened Html

  /** The normalised form fields. */
  datatype Submission = Submission(name: string, email: string, phone: string, message: string, consent: bool)

  const SubjectPrefix := "Neue BU-Anfrage von "

  /** The subject line names the submitter after a fixed prefix. */
  function Subject(sub: Submission): (r: string)
    ensures SubjectPrefix <= r && r[|SubjectPrefix|..] == sub.name
  {
    SubjectPrefix + sub.name
  }

  /** `phone || "-"`: an empty phone number is shown as a dash, so the shown value is never empty. */
  function PhoneShown(phone: string): (r: string)
    ensures r != ""
    ensures phone != "" ==> r == phone
  {
    if phone == "" then "-" else phone
  }

  function ConsentWord(consent: bool): string {
    if consent then "ja" else "nein"
  }

  /** The lines of the plain-text template between its opening and closing newline.
      Whatever the fields hold, they start with the greeting's `N` and end with the
      last letter of `ja` or `nein`, so no whitespace is at either end. */
  function TextLines(sub: Submission): (r: string)
    ensures IsTrimmed(r)
  {
    var front := "Neue Anfrage \U{FC}ber die Website:\n\nName:    ";
    var w := ConsentWord(sub.consent);
    var r := front + sub.name
      + "\nE-Mail:  " + sub.email
      + "\nTelefon: " + PhoneShown(sub.phone)
      + "\n\nNachricht:\n" + sub.message
      + "\n\nEinwilligung Datenschutz: " + w;
    assert r[0] == front[0] == 'N';
    assert r[|r| - 1] == w[|w| - 1];
    r
  }

  /** The plain-text template before `.trim()`: it starts and ends with a newline. */
  function TextTemplate(sub: Submission): string {
    "\n" + TextLines(sub) + "\n"
  }

  /** The plain-text body: the template, trimmed. Fields are not escaped. */
  function TextBody(sub: Submission): string {
    Trim(TextTemplate(sub))
  }

  /** `trim` removes only the template's own first and last newline: it never reaches
      into a field, whatever whitespace the fields hold. */
  lemma TextBodyKeepsFields(sub: Submission)
    ensures TextBody(sub) == TextLines(sub)
  {
    TrimExactly("\n", TextLines(sub), "\n");
  }

  /** The template's lines, written piece by piece so that each tag stands on its own. */
  const Indent := "\n      "
  const Heading := Indent + "<h2>" + "Neue BU-Anfrage" + "</h2>"
  const NameLabel := Caption("Name:") + " "
  const EmailLabel := Caption("E-Mail:") + " "
  const PhoneLabel := Caption("Telefon:") + " "
  const MessageLabel := Caption("Nachricht:") + "<br>"
  const ConsentLabel := Caption("Einwilligung Datenschutz:") + " "
  const Close := "</p>"
  const Ending := "\n    "

  /** The start of a paragraph, up to and including its bold title. */
  function Caption(title: string): string {
    Indent + "<p>" + "<strong>" + title + "</strong>"
  }

  /** One paragraph of the HTML body. */
  function Paragraph(caption: string, content: string): string {
    caption + content + Close
  }

  /** The HTML body: every user field passes through `escapeHtml`, and the message
      also has its newlines turned into `<br>`. */
  function HtmlBody(sub: Submission): string {
    Heading
    + Paragraph(NameLabel, Escape(sub.name))
    + Paragraph(EmailLabel, Escape(sub.email))
    + Paragraph(PhoneLabel, Escape(PhoneShown(sub.phone)))
    + Paragraph(MessageLabel, HtmlMessage(sub.message))
    + Paragraph(ConsentLabel, ConsentWord(sub.consent))
    + Ending
  }

  /** What a reader of the HTML body learns about the submission. */
  datatype HtmlView = HtmlView(name: string, email: string, phone: string, message: string, consent: bool)

  function StripPrefix(s: string, p: string): (r: Option<string>)
    ensures r.Some? <==> p <= s
    ensures r.Some? ==> s == p + r.value
  {
    if p <= s then Some(s[|p|..]) else None
  }

  /** Splits `s` at the first occurrence of `stop`. */
  function SplitAt(s: string, stop: string): Option<(string, string)>
    decreases |s|
  {
    if stop <= s then Some(([], s[|stop|..]))
    else if s == [] then None
    else
      match SplitAt(s[1..], stop)
      case None => None
      case Some(p) => Some(([s[0]] + p.0, p.1))
  }

  /** The two parts of a split, with the separator between them, make up the input;
      the first part holds no complete `stop`. */
  lemma {:induction false} SplitAtSplits(s: string, stop: string)
    requires SplitAt(s, stop).Some?
    ensures var p := SplitAt(s, stop).value; s == p.0 + stop + p.1
    ensures var p := SplitAt(s, stop).value; forall k :: 0 <= k < |p.0| ==> !(stop <= p.0[k..] + stop + p.1)
    decreases |s|
  {
    var p := SplitAt(s, stop).value;
    if stop <= s {
      assert s == stop + s[|stop|..];
    } else {
      SplitAtSplits(s[1..], stop);
      var q := SplitAt(s[1..], stop).value;
      assert p == ([s[0]] + q.0, q.1);
      forall k | 0 <= k < |p.0| ensures !(stop <= p.0[k..] + stop + p.1) {
        if k == 0 {
          assert p.0[k..] + stop + p.1 == s;
        } else {
          assert p.0[k..] == q.0[k - 1..];
        }
      }
    }
  }

  /** Reads one paragraph: its caption, then everything up to the first `</p>`. */
  function ReadParagraph(s: string, caption: string): Option<(string, string)> {
    var rest :- StripPrefix(s, caption);
    SplitAt(rest, Close)
  }

  /** Reads the HTML body back, undoing the escaping and the `<br>` step. */
  function ParseHtml(h: string): Option<HtmlView> {
    var afterHeading :- StripPrefix(h, Heading);
    var name :- ReadParagraph(afterHeading, NameLabel);
    var email :- ReadParagraph(name.1, EmailLabel);
    var phone :- ReadParagraph(email.1, PhoneLabel);
    var message :- ReadParagraph(phone.1, MessageLabel);
    var consent :- ReadConsent(message.1);
    Some(HtmlView(Unescape(name.0), Unescape(email.0), Unescape(phone.0),
                  Unescape(UnbreakLines(message.0)), consent))
  }

  /** Reads the last paragraph, which holds `ja` or `nein`, and the closing whitespace. */
  function ReadConsent(s: string): Option<bool> {
    var consent :- ReadParagraph(s, ConsentLabel);
    if consent.1 != Ending || (consent.0 != "ja" && consent.0 != "nein") then None
    else Some(consent.0 == "ja")
  }

  /** Content in which no `</p>` can begin ends at the `</p>` that follows it. */
  lemma {:induction false} SplitAtClose(x: string, tail: string)
    requires OnlyBreakTags(x) && Close <= tail
    ensures SplitAt(x + tail, Close) == Some((x, tail[|Close|..]))
    decreases |x|
  {
    var s := x + tail;
    if x == [] {
      assert s == tail;
    } else {
      var after := tail[|Close|..];
      NoCloseAtStart(x, tail);
      OnlyBreakTagsSuffix(x, 1);
      SplitAtClose(x[1..], tail);
      assert s[1..] == x[1..] + tail;
      assert SplitAt(s[1..], Close) == Some((x[1..], after));
      assert SplitAt(s, Close) == Some(([s[0]] + x[1..], after));
      assert x == [s[0]] + x[1..];
    }
  }

  /** No `</p>` begins at the start of content in which `<` only opens `<br>`. */
  lemma NoCloseAtStart(x: string, rest: string)
    requires OnlyBreakTags(x) && x != []
    ensures !(Close <= x + rest)
  {
    var s := x + rest;
    assert s[0] == x[0];
    if x[0] == '<' {
      assert "<br>" <= x[0..];
      assert x[1] == 'b' && s[1] == x[1];
    }
  }

  lemma ReadParagraphOf(caption: string, content: string, rest: string)
    requires OnlyBreakTags(content)
    ensures ReadParagraph(Paragraph(caption, content) + rest, caption) == Some((content, rest))
  {
    var s := Paragraph(caption, content) + rest;
    assert s == caption + (content + (Close + rest));
    assert (Close + rest)[|Close|..] == rest;
    SplitAtClose(content, Close + rest);
  }

  lemma EscapedHasOnlyBreakTags(r: string)
    requires IsEscaped(r)
    ensures OnlyBreakTags(r)
  {
  }

  /** The HTML body as heading, five paragraphs and ending, grouped from the right. */
  lemma HtmlBodyParagraphs(sub: Submission)
    ensures HtmlBody(sub) ==
      Heading + (Paragraph(NameLabel, Escape(sub.name))
      + (Paragraph(EmailLabel, Escape(sub.email))
      + (Paragraph(PhoneLabel, Escape(PhoneShown(sub.phone)))
      + (Paragraph(MessageLabel, HtmlMessage(sub.message))
      + (Paragraph(ConsentLabel, ConsentWord(sub.consent)) + Ending)))))
  {
    var p1, p2, p3 := Paragraph(NameLabel, Escape(sub.name)), Paragraph(EmailLabel, Escape(sub.email)),
      Paragraph(PhoneLabel, Escape(PhoneShown(sub.phone)));
    var p4, p5 := Paragraph(MessageLabel, HtmlMessage(sub.message)), Paragraph(ConsentLabel, ConsentWord(sub.consent));
    RegroupRight(Heading, p1, p2, p3, p4, p5, Ending);
  }

  lemma RegroupRight(a: string, b: string, c: string, d: string, e: string, f: string, g: string)
    ensures a + b + c + d + e + f + g == a + (b + (c + (d + (e + (f + g)))))
  {
  }

  lemma StripPrefixOf(p: string, rest: string)
    ensures StripPrefix(p + rest, p) == Some(rest)
  {
    assert (p + rest)[|p|..] == rest;
  }

  /** Reading back a body assembled from contents in which no `</p>` begins. */
  lemma {:induction false} ParseHtmlOf(n: string, e: string, p: string, m: string, c: string)
    requires OnlyBreakTags(n) && OnlyBreakTags(e) && OnlyBreakTags(p) && OnlyBreakTags(m)
    requires c == "ja" || c == "nein"
    ensures ParseHtml(Heading + (Paragraph(NameLabel, n) + (Paragraph(EmailLabel, e) + (Paragraph(PhoneLabel, p)
              + (Paragraph(MessageLabel, m) + (Paragraph(ConsentLabel, c) + Ending))))))
         == Some(HtmlView(Unescape(n), Unescape(e), Unescape(p), Unescape(UnbreakLines(m)), c == "ja"))
  {
    var r4 := Paragraph(ConsentLabel, c) + Ending;
    var r3 := Paragraph(MessageLabel, m) + r4;
    var r2 := Paragraph(PhoneLabel, p) + r3;
    var r1 := Paragraph(EmailLabel, e) + r2;
    var r0 := Paragraph(NameLabel, n) + r1;
    StripPrefixOf(Heading, r0);
    ReadParagraphOf(NameLabel, n, r1);
    ReadParagraphOf(EmailLabel, e, r2);
    ReadParagraphOf(PhoneLabel, p, r3);
    ReadParagraphOf(MessageLabel, m, r4);
    ReadConsentOf(c);
  }

  lemma ReadConsentOf(c: string)
    requires c == "ja" || c == "nein"
    ensures ReadConsent(Paragraph(ConsentLabel, c) + Ending) == Some(c == "ja")
  {
    assert OnlyBreakTags(c);
    ReadParagraphOf(ConsentLabel, c, Ending);
  }

  /** The HTML body determines the submission: reading it back gives every field
      exactly, with the dash standing in for an empty phone number. */
  lemma HtmlRoundTrip(sub: Submission)
    ensures ParseHtml(HtmlBody(sub)) == Some(HtmlView(sub.name, sub.email, PhoneShown(sub.phone), sub.message, sub.consent))
  {
    var n, e, p := Escape(sub.name), Escape(sub.email), Escape(PhoneShown(sub.phone));
    HtmlBodyParagraphs(sub);
    EscapedHasOnlyBreakTags(n);
    EscapedHasOnlyBreakTags(e);
    EscapedHasOnlyBreakTags(p);
    ParseHtmlOf(n, e, p, HtmlMessage(sub.message), ConsentWord(sub.consent));
    UnescapeEscape(sub.name);
    UnescapeEscape(sub.email);
    UnescapeEscape(PhoneShown(sub.phone));
    HtmlMessageRoundTrip(sub.message);
  }

  /** A paragraph's start is built from template tags and tag-free text. */
  lemma CaptionTags(title: string)
    requires '<' !in title
    ensures OnlyTemplateTags(Caption(title))
  {
    PlainTextTags(Indent);
    TemplateTagTags("<p>");
    TemplateTagTags("<strong>");
    PlainTextTags(title);
    TemplateTagTags("</strong>");
    OnlyTemplateTagsAppend(Indent, "<p>");
    OnlyTemplateTagsAppend(Indent + "<p>", "<strong>");
    OnlyTemplateTagsAppend(Indent + "<p>" + "<strong>", title);
    OnlyTemplateTagsAppend(Indent + "<p>" + "<strong>" + title, "</strong>");
  }

  lemma LabelTags(title: string, after: string)
    requires '<' !in title && OnlyTemplateTags(after)
    ensures OnlyTemplateTags(Caption(title) + after)
  {
    CaptionTags(title);
    OnlyTemplateTagsAppend(Caption(title), after);
  }

  /** Every fixed piece of the HTML template uses only the template's tags. */
  lemma TemplateTags()
    ensures OnlyTemplateTags(Heading) && OnlyTemplateTags(Close) && OnlyTemplateTags(Ending)
    ensures OnlyTemplateTags(NameLabel) && OnlyTemplateTags(EmailLabel) && OnlyTemplateTags(PhoneLabel)
    ensures OnlyTemplateTags(MessageLabel) && OnlyTemplateTags(ConsentLabel)
  {
    PlainTextTags(Indent);
    TemplateTagTags("<h2>");
    PlainTextTags("Neue BU-Anfrage");
    TemplateTagTags("</h2>");
    OnlyTemplateTagsAppend(Indent, "<h2>");
    OnlyTemplateTagsAppend(Indent + "<h2>", "Neue BU-Anfrage");
    OnlyTemplateTagsAppend(Indent + "<h2>" + "Neue BU-Anfrage", "</h2>");
    TemplateTagTags(Close);
    PlainTextTags(Ending);
    PlainTextTags(" ");
    TemplateTagTags("<br>");
    LabelTags("Name:", " ");
    LabelTags("E-Mail:", " ");
    LabelTags("Telefon:", " ");
    LabelTags("Nachricht:", "<br>");
    LabelTags("Einwilligung Datenschutz:", " ");
  }

  lemma ParagraphTags(caption: string, content: string)
    requires OnlyTemplateTags(caption) && OnlyTemplateTags(content) && OnlyTemplateTags(Close)
    ensures OnlyTemplateTags(Paragraph(caption, content))
  {
    OnlyTemplateTagsAppend(caption, content);
    OnlyTemplateTagsAppend(caption + content, Close);
  }

  lemma EscapedFieldTags(s: string)
    ensures OnlyTemplateTags(Escape(s))
  {
    EscapedHasOnlyBreakTags(Escape(s));
    BreakTagsAreTemplateTags(Escape(s));
  }

  /** Whatever the fields hold, every `<` in the HTML body opens one of the template's
      own tags: the fields add none, and the message adds only `<br>`. */
  lemma HtmlBodyTags(sub: Submission)
    ensures OnlyTemplateTags(HtmlBody(sub))
  {
    TemplateTags();
    EscapedFieldTags(sub.name);
    EscapedFieldTags(sub.email);
    EscapedFieldTags(PhoneShown(sub.phone));
    BreakTagsAreTemplateTags(HtmlMessage(sub.message));
    PlainTextTags(ConsentWord(sub.consent));
    var p1 := Paragraph(NameLabel, Escape(sub.name));
    var p2 := Paragraph(EmailLabel, Escape(sub.email));
    var p3 := Paragraph(PhoneLabel, Escape(PhoneShown(sub.phone)));
    var p4 := Paragraph(MessageLabel, HtmlMessage(sub.message));
    var p5 := Paragraph(ConsentLabel, ConsentWord(sub.consent));
    ParagraphTags(NameLabel, Escape(sub.name));
    ParagraphTags(EmailLabel, Escape(sub.email));
    ParagraphTags(PhoneLabel, Escape(PhoneShown(sub.phone)));
    ParagraphTags(MessageLabel, HtmlMessage(sub.message));
    ParagraphTags(ConsentLabel, ConsentWord(sub.consent));
    OnlyTemplateTagsAppend(Heading, p1);
    OnlyTemplateTagsAppend(Heading + p1, p2);
    OnlyTemplateTagsAppend(Heading + p1 + p2, p3);
    OnlyTemplateTagsAppend(Heading + p1 + p2 + p3, p4);
    OnlyTemplateTagsAppend(Heading + p1 + p2 + p3 + p4, p5);
    OnlyTemplateTagsAppend(Heading + p1 + p2 + p3 + p4 + p5, Ending);
  }

  /** Whatever the fields hold, no `<script>` tag starts anywhere in the HTML body. */
  lemma HtmlBodyHasNoScript(sub: Submission)
    ensures var h := HtmlBody(sub); forall i :: 0 <= i <= |h| ==> !("<script>" <= h[i..])
  {
    var h := HtmlBody(sub);
    HtmlBodyTags(sub);
    forall i | 0 <= i <= |h| ensures !("<script>" <= h[i..]) {
      NoScriptInTemplate(h, i);
    }
  }
}
