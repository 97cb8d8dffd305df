/** The e-mail pattern `^[^\s@]+@[^\s@]+\.[^\s@]+$` that the server and all three forms test. */
module EmailFormat {
  import opened Strings

  /** A character of the class `[^\s@]`. */
  predicate Plain(c: char) {
    !IsSpace(c) && c != '@'
  }

  predicate AllPlain(s: string) {
    forall i :: 0 <= i < |s| ==> Plain(s[i])
  }

  /** `emailRegex.test(s)`: `s` splits as local `@` host `.` suffix, three non-empty runs of `[^\s@]`. */
  predicate MatchesEmailRegex(s: string) {
    exists at, dot :: 0 < at < |s| && 0 < dot < |s| && SplitsAt(s, at, dot)
  }

  /** The same language, read as a list of conditions on the address. */
  predicate WellFormedAddress(s: string) {
    exists at ::
      && 0 < at < |s| && s[at] == '@'                                    // a non-empty local part
      && (forall i :: 0 <= i < |s| && i != at ==> s[i] != '@')           // exactly one '@'
      && (forall i :: 0 <= i < |s| ==> !IsSpace(s[i]))                   // no white space
      && (exists d :: at + 1 < d < |s| - 1 && s[d] == '.')               // a '.' inside the domain, neither first nor last
  }

  /** The conditions `MatchesEmailRegex` asks of one choice of '@' and '.' positions. */
  predicate SplitsAt(s: string, at: int, dot: int) {
    && 0 < at < |s| && 0 < dot < |s| && at + 1 < dot && dot + 1 < |s|
    && s[at] == '@' && s[dot] == '.'
    && AllPlain(s[..at]) && AllPlain(s[at + 1..dot]) && AllPlain(s[dot + 1..])
  }

  /** Every character of a matching address other than its '@' and its chosen '.' is of the class `[^\s@]`. */
  lemma PlainOutsideMarks(s: string, at: int, dot: int, i: int)
    requires SplitsAt(s, at, dot) && 0 <= i < |s| && i != at && i != dot
    ensures Plain(s[i])
  {
    if i < at {
      assert s[i] == s[..at][i];
    } else if i < dot {
      assert s[i] == s[at + 1..dot][i - at - 1];
    } else {
      assert s[i] == s[dot + 1..][i - dot - 1];
    }
  }

  /** A slice whose characters are all of the class `[^\s@]`. */
  lemma AllPlainSlice(s: string, lo: int, hi: int)
    requires 0 <= lo <= hi <= |s|
    requires forall i :: lo <= i < hi ==> Plain(s[i])
    ensures AllPlain(s[lo..hi])
  {
    forall k | 0 <= k < hi - lo
      ensures Plain(s[lo..hi][k])
    {
      assert s[lo..hi][k] == s[lo + k];
    }
  }

  lemma RegexMatchIsWellFormed(s: string, at: int, dot: int)
    requires SplitsAt(s, at, dot)
    ensures WellFormedAddress(s)
  {
    forall i | 0 <= i < |s|
      ensures !IsSpace(s[i]) && (i != at ==> s[i] != '@')
    {
      if i != at && i != dot {
        PlainOutsideMarks(s, at, dot, i);
      }
    }
    assert at + 1 < dot < |s| - 1 && s[dot] == '.';
  }

  lemma WellFormedMatchesRegex(s: string, at: int, dot: int)
    requires 0 < at < |s| && s[at] == '@' && at + 1 < dot < |s| - 1 && s[dot] == '.'
    requires forall i :: 0 <= i < |s| && i != at ==> s[i] != '@'
    requires forall i :: 0 <= i < |s| ==> !IsSpace(s[i])
    ensures MatchesEmailRegex(s)
  {
    AllPlainSlice(s, 0, at);
    AllPlainSlice(s, at + 1, dot);
    AllPlainSlice(s, dot + 1, |s|);
    assert s[0..at] == s[..at] && s[dot + 1..|s|] == s[dot + 1..];
    assert SplitsAt(s, at, dot);
  }

  /** The regular expression accepts exactly the well-formed addresses. */
  lemma EmailRegexCharacterization(s: string)
    ensures MatchesEmailRegex(s) <==> WellFormedAddress(s)
  {
    if MatchesEmailRegex(s) {
      var at, dot :| 0 < at < |s| && 0 < dot < |s| && SplitsAt(s, at, dot);
      RegexMatchIsWellFormed(s, at, dot);
    }
    if WellFormedAddress(s) {
      var at :|
        && 0 < at < |s| && s[at] == '@'
        && (forall i :: 0 <= i < |s| && i != at ==> s[i] != '@')
        && (forall i :: 0 <= i < |s| ==> !IsSpace(s[i]))
        && (exists d :: at + 1 < d < |s| - 1 && s[d] == '.');
      var dot :| at + 1 < dot < |s| - 1 && s[dot] == '.';
      WellFormedMatchesRegex(s, at, dot);
    }
  }

  /** Lower-casing maps the class `[^\s@]` into itself. */
  lemma LowerCharKeepsPlain(c: char)
    requires Plain(c)
    ensures Plain(LowerChar(c))
  {
  }

  /** Lower-casing keeps a slice within the class `[^\s@]`. */
  lemma LowerKeepsSlicePlain(s: string, lo: int, hi: int)
    requires 0 <= lo <= hi <= |s| && AllPlain(s[lo..hi])
    ensures AllPlain(ToLower(s)[lo..hi])
  {
    var l := ToLower(s);
    forall k | 0 <= k < hi - lo
      ensures Plain(l[lo..hi][k])
    {
      assert s[lo..hi][k] == s[lo + k];
      LowerCharKeepsPlain(s[lo + k]);
    }
  }

  /** ASCII lower-casing keeps an address matching: it moves no '@', '.' or white space. */
  lemma LowerCasePreservesMatch(s: string)
    requires MatchesEmailRegex(s)
    ensures MatchesEmailRegex(ToLower(s))
  {
    var l := ToLower(s);
    var at, dot :| 0 < at < |s| && 0 < dot < |s| && SplitsAt(s, at, dot);
    assert s[..at] == s[0..at] && s[dot + 1..] == s[dot + 1..|s|];
    LowerKeepsSlicePlain(s, 0, at);
    LowerKeepsSlicePlain(s, at + 1, dot);
    LowerKeepsSlicePlain(s, dot + 1, |s|);
    assert l[..at] == l[0..at] && l[dot + 1..] == l[dot + 1..|l|];
    assert l[at] == '@' && l[dot] == '.';
    assert SplitsAt(l, at, dot);
  }

  /** The empty string is never an address. */
  lemma EmptyIsNotAnEmail()
    ensures !MatchesEmailRegex("")
  {
  }
}
