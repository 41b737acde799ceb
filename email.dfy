/**
 * The email check used by all three forms: the regular expression
 * `^[^\s@]+@[^\s@]+\.[^\s@]+$` (script.js, `isValidEmail`).
 */
module Email {
  import Text

  /**
   * The characters JavaScript's `\s` matches: the WhiteSpace code points (tab,
   * vertical tab, form feed, the byte-order mark and every space separator)
   * and the LineTerminator code points.
   */
  predicate IsSpace(c: char) {
    c in {'\t', '\n', '\U{000B}', '\U{000C}', '\r', ' ', '\U{00A0}', '\U{1680}',
          '\U{2028}', '\U{2029}', '\U{202F}', '\U{205F}', '\U{3000}', '\U{FEFF}'}
    || '\U{2000}' <= c <= '\U{200A}'
  }

  predicate NoSpace(s: string) {
    forall i :: 0 <= i < |s| ==> !IsSpace(s[i])
  }

  /** `[^\s@]`: a character that is neither space nor `@`. */
  predicate AtomChar(c: char) {
    !IsSpace(c) && c != '@'
  }

  /** `[^\s@]+`: a non-empty run of such characters. */
  ghost predicate Atom(s: string) {
    |s| > 0 && forall i :: 0 <= i < |s| ==> AtomChar(s[i])
  }

  /**
   * The regular expression, read as a decomposition: `s` is an atom, `@`, an
   * atom, `.`, an atom, with nothing before or after.
   */
  ghost predicate MatchesPattern(s: string) {
    exists at, dot :: 0 <= at < dot < |s| && s[at] == '@' && s[dot] == '.' &&
      Atom(s[..at]) && Atom(s[at + 1..dot]) && Atom(s[dot + 1..])
  }

  /** The domain has a `.` with at least one character on each side. */
  predicate HasInnerDot(domain: string) {
    |domain| >= 3 && '.' in domain[1..|domain| - 1]
  }

  /**
   * The validator as a direct test: no whitespace, an `@` with something before
   * it and no second `@` after it, and a domain with an inner `.`.
   */
  function IsValidEmail(s: string): bool {
    var at := Text.IndexOf(s, '@');
    NoSpace(s) && 0 < at < |s| && '@' !in s[at + 1..] && HasInnerDot(s[at + 1..])
  }

  /** An atom, read off the characters of the string it is cut from. */
  lemma AtomChars(s: string, lo: nat, hi: nat)
    requires lo <= hi <= |s|
    ensures Atom(s[lo..hi]) <==>
              lo < hi && forall i :: lo <= i < hi ==> AtomChar(s[i])
  {
    if lo < hi && forall i :: lo <= i < hi ==> AtomChar(s[i]) {
      forall j | 0 <= j < hi - lo ensures AtomChar(s[lo..hi][j]) {
        assert s[lo..hi][j] == s[lo + j];
      }
    }
    if Atom(s[lo..hi]) {
      forall i | lo <= i < hi ensures AtomChar(s[i]) {
        assert s[i] == s[lo..hi][i - lo];
      }
    }
  }

  lemma NotInSuffix(s: string, c: char, lo: nat)
    requires lo <= |s|
    ensures c !in s[lo..] <==> forall i :: lo <= i < |s| ==> s[i] != c
  {
    if c in s[lo..] {
      var j :| 0 <= j < |s| - lo && s[lo..][j] == c;
      assert s[lo + j] == c;
    }
    if exists i :: lo <= i < |s| && s[i] == c {
      var i :| lo <= i < |s| && s[i] == c;
      assert s[lo..][i - lo] == c;
    }
  }

  lemma ValidEmailMatches(s: string)
    requires IsValidEmail(s)
    ensures MatchesPattern(s)
  {
    var at := Text.IndexOf(s, '@');
    var domain := s[at + 1..];
    var k :| 0 <= k < |domain| - 2 && domain[1..|domain| - 1][k] == '.';
    var dot := at + 2 + k;
    assert s[dot] == '.';
    NotInSuffix(s, '@', at + 1);
    assert forall i :: 0 <= i < at ==> s[i] != '@' by {
      forall i | 0 <= i < at ensures s[i] != '@' { assert s[i] == s[..at][i]; }
    }
    AtomChars(s, 0, at);
    AtomChars(s, at + 1, dot);
    AtomChars(s, dot + 1, |s|);
    assert s[..at] == s[0..at] && s[dot + 1..] == s[dot + 1..|s|];
  }

  /** Every character outside the two separators belongs to one of the three atoms. */
  lemma PatternChars(s: string, at: nat, dot: nat)
    requires at < dot < |s| && s[at] == '@' && s[dot] == '.'
    requires Atom(s[..at]) && Atom(s[at + 1..dot]) && Atom(s[dot + 1..])
    ensures forall i :: 0 <= i < |s| && i != at ==> AtomChar(s[i])
  {
    assert s[..at] == s[0..at] && s[dot + 1..] == s[dot + 1..|s|];
    AtomChars(s, 0, at);
    AtomChars(s, at + 1, dot);
    AtomChars(s, dot + 1, |s|);
  }

  lemma PatternIsValidEmail(s: string, at: nat, dot: nat)
    requires at < dot < |s| && s[at] == '@' && s[dot] == '.'
    requires Atom(s[..at]) && Atom(s[at + 1..dot]) && Atom(s[dot + 1..])
    ensures IsValidEmail(s)
  {
    PatternChars(s, at, dot);
    assert NoSpace(s);
    assert '@' !in s[..at] by {
      forall i | 0 <= i < at ensures s[..at][i] != '@' { assert AtomChar(s[i]); }
    }
    Text.IndexOfIsFirst(s, '@', at);
    NotInSuffix(s, '@', at + 1);
    assert at + 1 < dot && dot + 1 < |s| by {
      AtomChars(s, at + 1, dot);
      assert |s[dot + 1..]| > 0;
    }
    var domain := s[at + 1..];
    assert domain[1..|domain| - 1][dot - at - 2] == '.';
  }

  lemma MatchesIsValidEmail(s: string)
    requires MatchesPattern(s)
    ensures IsValidEmail(s)
  {
    var at, dot :| 0 <= at < dot < |s| && s[at] == '@' && s[dot] == '.' &&
      Atom(s[..at]) && Atom(s[at + 1..dot]) && Atom(s[dot + 1..]);
    PatternIsValidEmail(s, at, dot);
  }

  /** The direct test accepts exactly the strings the regular expression matches. */
  lemma IsValidEmailIffMatches(s: string)
    ensures IsValidEmail(s) <==> MatchesPattern(s)
  {
    if IsValidEmail(s) { ValidEmailMatches(s); }
    if MatchesPattern(s) { MatchesIsValidEmail(s); }
  }

  /** `a@b.com` is accepted. */
  lemma AcceptsPlainAddress()
    ensures IsValidEmail("a@b.com")
  {
    assert Text.IndexOf("a@b.com", '@') == 1;
    assert "a@b.com"[2..][1..4][0] == '.';
  }

  lemma RejectsMissingDot()
    ensures !IsValidEmail("a@b")
  {
    assert Text.IndexOf("a@b", '@') == 1;
  }

  lemma RejectsMissingAt()
    ensures !IsValidEmail("a.com")
  {
    assert Text.IndexOf("a.com", '@') == 5;
  }

  /** Any second `@` is rejected, wherever the two stand. */
  lemma RejectsSecondAt(s: string, i: nat, j: nat)
    requires i < j < |s| && s[i] == '@' && s[j] == '@'
    ensures !IsValidEmail(s)
  {
    var at := Text.IndexOf(s, '@');
    assert s[at + 1..][j - at - 1] == '@';
  }

  /** A whitespace character anywhere is rejected. */
  lemma RejectsSpace(s: string, i: nat)
    requires i < |s| && IsSpace(s[i])
    ensures !IsValidEmail(s)
  {
  }

  /** `a@b@c.com` and `a b@c.com` are rejected. */
  lemma RejectsExamples()
    ensures !IsValidEmail("a@b@c.com") && !IsValidEmail("a b@c.com")
  {
    RejectsSecondAt("a@b@c.com", 1, 3);
    RejectsSpace("a b@c.com", 1);
  }
}
