/**
 * `isValidEmail`: the pattern `^[^\s@]+@[^\s@]+\.[^\s@]+$`, and the plain
 * description of the strings it accepts.
 */
module Email {
  import opened Text

  /** A character of the class `[^\s@]`. */
  predicate IsAtomChar(c: char) {
    !IsWhitespace(c) && c != '@'
  }

  predicate AllAtoms(s: string) {
    forall i :: 0 <= i < |s| ==> IsAtomChar(s[i])
  }

  /** The pattern matches with its `@` at `at` and its `\.` at `dot`: each of the
      three `[^\s@]+` runs around them is non-empty and made of atom characters. */
  predicate MatchesAt(s: string, at: int, dot: int)
    requires 0 < at < dot < |s|
  {
    && s[at] == '@' && s[dot] == '.'
    && AllAtoms(s[..at]) && AllAtoms(s[at + 1..dot]) && AllAtoms(s[dot + 1..])
  }

  /** `isValidEmail(s)`: the anchored pattern matches for some choice of split points,
      which is what the regular-expression engine's backtracking searches for. */
  predicate IsValidEmail(s: string): (b: bool)
    ensures b ==> 5 <= |s| && s[0] != '@' && s[|s| - 1] != '@'
  {
    exists at, dot | 0 < at < |s| && at + 1 < dot < |s| - 1 :: MatchesAt(s, at, dot)
  }

  /** Number of occurrences of `c` in `s`. */
  function Count(s: string, c: char): (n: nat)
    ensures n <= |s|
    ensures n == 0 <==> c !in s
  {
    if s == [] then 0 else (if s[0] == c then 1 else 0) + Count(s[1..], c)
  }

  /** Position of the first `c` in `s`. */
  function IndexOf(s: string, c: char): (i: nat)
    requires c in s
    ensures i < |s| && s[i] == c && c !in s[..i]
  {
    if s[0] == c then 0
    else
      var i := 1 + IndexOf(s[1..], c);
      assert s[..i] == [s[0]] + s[1..][..i - 1];
      i
  }

  /** `d` has a `.` that is neither its first nor its last character. */
  predicate HasInteriorDot(d: string) {
    exists j | 0 < j < |d| - 1 :: d[j] == '.'
  }

  /** The accepted strings, described without a pattern: no whitespace, exactly one
      `@`, something before it, and an interior `.` in the domain after it. */
  predicate IsAddressShaped(s: string) {
    && NoWhitespace(s)
    && Count(s, '@') == 1
    && var at := IndexOf(s, '@');
       0 < at && HasInteriorDot(s[at + 1..])
  }

  /** Any non-empty runs of atom characters joined as `local@domain.tld` are accepted. */
  lemma ValidEmailFromParts(local: string, domain: string, tld: string)
    requires local != [] && domain != [] && tld != []
    requires AllAtoms(local) && AllAtoms(domain) && AllAtoms(tld)
    ensures IsValidEmail(local + "@" + domain + "." + tld)
  {
    var s := local + "@" + domain + "." + tld;
    var at, dot := |local|, |local| + 1 + |domain|;
    assert s[..at] == local && s[at + 1..dot] == domain && s[dot + 1..] == tld;
    assert MatchesAt(s, at, dot);
  }

  lemma {:induction false} CountAppend(a: string, b: string, c: char)
    ensures Count(a + b, c) == Count(a, c) + Count(b, c)
    decreases |a|
  {
    if a == [] {
      assert a + b == b;
    } else {
      assert (a + b)[1..] == a[1..] + b;
      CountAppend(a[1..], b, c);
    }
  }

  lemma CountAround(s: string, at: nat, c: char)
    requires at < |s| && s[at] == c
    ensures Count(s, c) == Count(s[..at], c) + 1 + Count(s[at + 1..], c)
  {
    assert s == s[..at] + ([s[at]] + s[at + 1..]);
    CountAppend(s[..at], [s[at]] + s[at + 1..], c);
    CountAppend([s[at]], s[at + 1..], c);
  }

  /** The pattern accepts exactly the address-shaped strings. */
  lemma ValidEmailCharacterization(s: string)
    ensures IsValidEmail(s) <==> IsAddressShaped(s)
  {
    if IsValidEmail(s) {
      ValidEmailIsAddressShaped(s);
    }
    if IsAddressShaped(s) {
      AddressShapedIsValid(s);
    }
  }

  lemma ValidEmailIsAddressShaped(s: string)
    requires IsValidEmail(s)
    ensures IsAddressShaped(s)
  {
    {
      var at, dot :| 0 < at < |s| && at + 1 < dot < |s| - 1 && MatchesAt(s, at, dot);
      forall i | 0 <= i < |s| ensures !IsWhitespace(s[i]) && (s[i] == '@' ==> i == at) {
        if i < at {
          assert s[i] == s[..at][i];
        } else if at < i < dot {
          assert s[i] == s[at + 1..dot][i - at - 1];
        } else if dot < i {
          assert s[i] == s[dot + 1..][i - dot - 1];
        }
      }
      assert '@' !in s[..at];
      assert '@' !in s[at + 1..];
      CountAround(s, at, '@');
      var k := IndexOf(s, '@');
      assert k == at;
      var d := s[at + 1..];
      assert d[dot - at - 1] == '.';
    }
  }

  lemma AddressShapedIsValid(s: string)
    requires IsAddressShaped(s)
    ensures IsValidEmail(s)
  {
    {
      var at := IndexOf(s, '@');
      var d := s[at + 1..];
      var j :| 0 < j < |d| - 1 && d[j] == '.';
      var dot := at + 1 + j;
      CountAround(s, at, '@');
      assert Count(s[..at], '@') == 0;
      assert Count(d, '@') == 0;
      assert '@' !in d;
      assert s[dot] == '.';
      forall i | 0 <= i < at ensures IsAtomChar(s[..at][i]) {
        assert s[..at][i] == s[i];
      }
      var domain, tld := s[at + 1..dot], s[dot + 1..];
      forall i | 0 <= i < |domain| ensures IsAtomChar(domain[i]) {
        assert domain[i] == d[i];
      }
      forall i | 0 <= i < |tld| ensures IsAtomChar(tld[i]) {
        assert tld[i] == d[j + 1 + i];
      }
      assert MatchesAt(s, at, dot);
    }
  }
}
