/**
 * The spam heuristic's link count: `(message.match(/https?:\/\//gi) || []).length`.
 */
module Links {

  /** The regular expression's case-insensitive comparison for ASCII text: letters are
      compared without case; JavaScript's non-Unicode canonicalisation never maps a
      non-ASCII character onto an ASCII one, so nothing else folds to the pattern's letters. */
  function FoldCase(c: char): (d: char)
    ensures 'A' <= c <= 'Z' ==> d as int == c as int + 32
    ensures !('A' <= c <= 'Z') ==> d == c
  {
    if 'A' <= c <= 'Z' then (c as int + 32) as char else c
  }

  predicate StartsWithFolded(s: string, p: string) {
    |p| <= |s| && forall k :: 0 <= k < |p| ==> FoldCase(s[k]) == p[k]
  }

  /** Length of the match of `https?:\/\/` at the start of `s`, 0 when there is none;
      the optional `s` is greedy, so `https://` is tried first. */
  function MatchLength(s: string): (n: nat)
    ensures n == 0 || n == 7 || n == 8
    ensures n > 0 ==> n <= |s| && FoldCase(s[0]) == 'h' && s[n - 3] == ':'
  {
    if StartsWithFolded(s, "https://") then 8
    else if StartsWithFolded(s, "http://") then 7
    else 0
  }

  /** The global match: scan left to right, and after each match resume behind it.
      Each match takes at least the seven characters of `http://`. */
  function CountLinks(s: string): (n: nat)
    ensures 7 * n <= |s|
    decreases |s|
  {
    if s == [] then 0
    else if MatchLength(s) > 0 then 1 + CountLinks(s[MatchLength(s)..])
    else CountLinks(s[1..])
  }

  /** Reference count: the number of positions at which an `http://` or `https://`
      (in any case) begins, without any skipping. */
  function LinkStarts(s: string): (n: nat)
    ensures n <= |s|
  {
    if s == [] then 0
    else (if MatchLength(s) > 0 then 1 else 0) + LinkStarts(s[1..])
  }

  lemma MatchInterior(s: string, k: nat)
    requires 1 <= k < MatchLength(s)
    ensures FoldCase(s[k]) != 'h'
  {
    if StartsWithFolded(s, "https://") {
      assert FoldCase(s[k]) == "https://"[k];
    } else {
      assert FoldCase(s[k]) == "http://"[k];
    }
  }

  /** Inside a match there is no `h`, so no other match can start there. */
  lemma {:induction false} NoStartInsideMatch(s: string, k: nat)
    requires 1 <= k <= MatchLength(s)
    ensures LinkStarts(s[1..]) == LinkStarts(s[k..])
    decreases k
  {
    if k > 1 {
      NoStartInsideMatch(s, k - 1);
      var t := s[k - 1..];
      MatchInterior(s, k - 1);
      assert t[0] == s[k - 1];
      assert MatchLength(t) == 0;
      assert t[1..] == s[k..];
    }
  }

  /** Matches never overlap, so the scanning count equals the number of match starts. */
  lemma {:induction false} CountLinksIsLinkStarts(s: string)
    ensures CountLinks(s) == LinkStarts(s)
    decreases |s|
  {
    if s != [] {
      var n := MatchLength(s);
      if n > 0 {
        NoStartInsideMatch(s, n);
        CountLinksIsLinkStarts(s[n..]);
      } else {
        CountLinksIsLinkStarts(s[1..]);
      }
    }
  }

  /** ASCII lower-casing of a whole string. */
  function Lower(s: string): (r: string)
    ensures |r| == |s|
    ensures forall i :: 0 <= i < |s| ==> r[i] == FoldCase(s[i])
  {
    if s == [] then [] else [FoldCase(s[0])] + Lower(s[1..])
  }

  lemma MatchLengthLower(s: string)
    ensures MatchLength(Lower(s)) == MatchLength(s)
  {
    var l := Lower(s);
    assert forall k :: 0 <= k < |s| ==> FoldCase(l[k]) == FoldCase(s[k]);
  }

  /** The count ignores case: lower-casing the message does not change it. */
  lemma {:induction false} CountLinksIgnoresCase(s: string)
    ensures CountLinks(Lower(s)) == CountLinks(s)
    decreases |s|
  {
    if s != [] {
      var l := Lower(s);
      MatchLengthLower(s);
      var n := if MatchLength(s) > 0 then MatchLength(s) else 1;
      assert l[n..] == Lower(s[n..]);
      CountLinksIgnoresCase(s[n..]);
    }
  }

  /** Text with no `h` or `H` in front of `b` adds no link. */
  lemma {:induction false} CountLinksSkipsPlainText(a: string, b: string)
    requires 'h' !in a && 'H' !in a
    ensures CountLinks(a + b) == CountLinks(b)
    decreases |a|
  {
    if a == [] {
      assert a + b == b;
    } else {
      var s := a + b;
      assert FoldCase(s[0]) != 'h';
      assert s[1..] == a[1..] + b;
      CountLinksSkipsPlainText(a[1..], b);
    }
  }

  /** `p` is exactly one match of the pattern, such as `http://` or `HTTPS://`. */
  predicate IsLink(p: string) {
    MatchLength(p) == |p| > 0
  }

  /** A link in front of `b` adds exactly one. */
  lemma CountLinksAfterLink(p: string, b: string)
    requires IsLink(p)
    ensures CountLinks(p + b) == 1 + CountLinks(b)
  {
    var s := p + b;
    assert forall k :: 0 <= k < |p| ==> s[k] == p[k];
    if |p| == 7 {
      assert !StartsWithFolded(s, "https://") by {
        assert FoldCase(p[4]) == ':';
      }
    }
    assert MatchLength(s) == |p|;
    assert s[|p|..] == b;
  }

  /** No text without `h`, however long, makes links: it counts 0. */
  lemma PlainTextCountsNothing(a: string)
    requires 'h' !in a && 'H' !in a
    ensures CountLinks(a) == 0
  {
    var e: string := [];
    CountLinksSkipsPlainText(a, e);
    assert a + e == a;
  }

  /** Every match contains a `:`, so text without one has no links. */
  lemma {:induction false} NoColonNoLinks(s: string)
    requires ':' !in s
    ensures CountLinks(s) == 0
    decreases |s|
  {
    if s != [] {
      assert MatchLength(s) == 0;
      assert ':' !in s[1..];
      NoColonNoLinks(s[1..]);
    }
  }

  /** The threshold at its edge: two links in plain text count 2, so the rule passes... */
  lemma {:induction false} TwoLinksCounted(t0: string, l1: string, t1: string, l2: string, t2: string)
    requires 'h' !in t0 + t1 + t2 && 'H' !in t0 + t1 + t2
    requires IsLink(l1) && IsLink(l2)
    ensures CountLinks(t0 + (l1 + (t1 + (l2 + t2)))) == 2
  {
    assert forall c :: c in t0 || c in t1 || c in t2 ==> c in t0 + t1 + t2;
    PlainTextCountsNothing(t2);
    CountLinksAfterLink(l2, t2);
    CountLinksSkipsPlainText(t1, l2 + t2);
    CountLinksAfterLink(l1, t1 + (l2 + t2));
    CountLinksSkipsPlainText(t0, l1 + (t1 + (l2 + t2)));
  }

  /** ...and three count 3, so the rule rejects. */
  lemma {:induction false} ThreeLinksCounted(t0: string, l1: string, t1: string, l2: string, t2: string, l3: string, t3: string)
    requires 'h' !in t0 + t1 + t2 + t3 && 'H' !in t0 + t1 + t2 + t3
    requires IsLink(l1) && IsLink(l2) && IsLink(l3)
    ensures CountLinks(t0 + (l1 + (t1 + (l2 + (t2 + (l3 + t3)))))) == 3
  {
    assert forall c :: c in t0 || c in t1 || c in t2 || c in t3 ==> c in t0 + t1 + t2 + t3;
    PlainTextCountsNothing(t3);
    CountLinksAfterLink(l3, t3);
    CountLinksSkipsPlainText(t2, l3 + t3);
    CountLinksAfterLink(l2, t2 + (l3 + t3));
    CountLinksSkipsPlainText(t1, l2 + (t2 + (l3 + t3)));
    CountLinksAfterLink(l1, t1 + (l2 + (t2 + (l3 + t3))));
    CountLinksSkipsPlainText(t0, l1 + (t1 + (l2 + (t2 + (l3 + t3)))));
  }
}
