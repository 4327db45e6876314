/** The address check used by the contact form: the regular expression
    `^[^\s@]+@[^\s@]+\.[^\s@]+$`, written out as a predicate over strings. */
module EmailValidation {

  /** JavaScript's `\s`: the WhiteSpace and LineTerminator code points of
      ECMAScript (section 22.2.2.9, CharacterClassEscape). */
  predicate IsSpace(c: char): (r: bool)
    ensures r ==> c != '@' && c != '.'
    ensures c == ' ' || c == '\t' || c == '\n' || c == '\r' ==> r
  {
    c == '\t' || c == '\n' || c == '\U{B}' || c == '\U{C}' || c == '\r' || c == ' '
    || c == '\U{A0}' || c == '\U{1680}' || ('\U{2000}' <= c <= '\U{200A}')
    || c == '\U{2028}' || c == '\U{2029}' || c == '\U{202F}' || c == '\U{205F}'
    || c == '\U{3000}' || c == '\U{FEFF}'
  }

  /** One character of the class `[^\s@]`. */
  predicate IsWordChar(c: char) {
    !IsSpace(c) && c != '@'
  }

  /** A match of `[^\s@]+`. */
  predicate IsWord(w: string) {
    |w| > 0 && forall k :: 0 <= k < |w| ==> IsWordChar(w[k])
  }

  /** `s` splits as `a + "@" + b + "." + c` with the '@' at index `i` and the
      literal dot at index `j`, each of `a`, `b` and `c` a match of `[^\s@]+`. */
  predicate SplitsAt(s: string, i: int, j: int)
    requires 0 < i < j < |s|
  {
    s[i] == '@' && s[j] == '.'
    && IsWord(s[..i]) && IsWord(s[i + 1..j]) && IsWord(s[j + 1..])
  }

  /** `isValidEmail(email)`: the anchored pattern matches the whole string,
      for some placement of the '@' and of the escaped dot. */
  predicate IsValidEmail(s: string): (r: bool)
    ensures r ==> |s| >= 5 && IsWordChar(s[0]) && IsWordChar(s[|s| - 1])
  {
    exists i, j | 0 < i && i + 1 < j && j + 1 < |s| :: SplitsAt(s, i, j)
  }

  /** Number of occurrences of `c` in `s`. */
  function Occurrences(s: string, c: char): nat {
    if s == [] then 0 else (if s[0] == c then 1 else 0) + Occurrences(s[1..], c)
  }

  predicate NoWhitespace(s: string) {
    forall k :: 0 <= k < |s| ==> !IsSpace(s[k])
  }

  /** `d` has a '.' that is neither its first nor its last character. */
  predicate HasInnerDot(d: string) {
    exists k :: 0 < k < |d| - 1 && d[k] == '.'
  }

  /** The address shape in plain words: no whitespace, exactly one '@', a
      non-empty part before it, and a dot inside the part after it. */
  predicate WellFormedAddress(s: string) {
    NoWhitespace(s) && Occurrences(s, '@') == 1
    && exists i :: 0 < i < |s| && s[i] == '@' && HasInnerDot(s[i + 1..])
  }

  lemma {:induction false} OccurrencesAppend(s: string, t: string, c: char)
    ensures Occurrences(s + t, c) == Occurrences(s, c) + Occurrences(t, c)
  {
    if s != [] {
      assert (s + t)[1..] == s[1..] + t;
      OccurrencesAppend(s[1..], t, c);
    } else {
      assert s + t == t;
    }
  }

  lemma {:induction false} OccurrencesZero(s: string, c: char)
    ensures Occurrences(s, c) == 0 <==> forall k :: 0 <= k < |s| ==> s[k] != c
  {
    if s != [] {
      OccurrencesZero(s[1..], c);
      assert forall k :: 1 <= k < |s| ==> s[k] == s[1..][k - 1];
    }
  }

  /** A slice whose characters are all in `[^\s@]` matches `[^\s@]+`. */
  lemma WordSlice(s: string, lo: int, hi: int)
    requires 0 <= lo < hi <= |s|
    requires forall m :: lo <= m < hi ==> IsWordChar(s[m])
    ensures IsWord(s[lo..hi])
  {
  }

  /** Every character of a word lies in `[^\s@]`, read through the enclosing string. */
  lemma WordChars(s: string, lo: int, hi: int)
    requires 0 <= lo < hi <= |s| && IsWord(s[lo..hi])
    ensures forall m :: lo <= m < hi ==> IsWordChar(s[m])
  {
  }

  /** With `c` at index `i`, it occurs once exactly when it occurs nowhere else. */
  lemma SingleOccurrence(s: string, i: int, c: char)
    requires 0 <= i < |s| && s[i] == c
    ensures Occurrences(s, c) == 1 <==> forall m :: 0 <= m < |s| && m != i ==> s[m] != c
  {
    var a, b := s[..i], s[i + 1..];
    assert s == a + ([s[i]] + b);
    OccurrencesAppend([s[i]], b, c);
    OccurrencesAppend(a, [s[i]] + b, c);
    OccurrencesZero(a, c);
    OccurrencesZero(b, c);
    forall m | 0 <= m < |s| && m != i ensures s[m] == if m < i then a[m] else b[m - i - 1] { }
  }

  lemma MatchIsWellFormed(s: string)
    requires IsValidEmail(s)
    ensures WellFormedAddress(s)
  {
    var i, j :| 0 < i && i + 1 < j && j + 1 < |s| && SplitsAt(s, i, j);
    WordChars(s, 0, i);
    WordChars(s, i + 1, j);
    WordChars(s, j + 1, |s|);
    assert forall m :: 0 <= m < |s| && m != i && m != j ==> IsWordChar(s[m]);
    assert NoWhitespace(s);
    SingleOccurrence(s, i, '@');
    assert s[i + 1..][j - i - 1] == '.';
  }

  lemma WellFormedIsMatch(s: string)
    requires WellFormedAddress(s)
    ensures IsValidEmail(s)
  {
    var i :| 0 < i < |s| && s[i] == '@' && HasInnerDot(s[i + 1..]);
    var k :| 0 < k < |s| - i - 2 && s[i + 1..][k] == '.';
    var j := i + 1 + k;
    SingleOccurrence(s, i, '@');
    assert forall m :: 0 <= m < |s| && m != i ==> IsWordChar(s[m]);
    WordSlice(s, 0, i);
    WordSlice(s, i + 1, j);
    WordSlice(s, j + 1, |s|);
    assert s[0..i] == s[..i];
    assert s[j + 1..|s|] == s[j + 1..];
    assert SplitsAt(s, i, j);
  }

  /** The pattern accepts exactly the well-formed addresses. */
  lemma IsValidEmailIff(s: string)
    ensures IsValidEmail(s) <==> WellFormedAddress(s)
  {
    if IsValidEmail(s) { MatchIsWellFormed(s); }
    if WellFormedAddress(s) { WellFormedIsMatch(s); }
  }

  /** The documented examples: "a@b.c" is accepted; "a@b", "abc" and "a@@b.c"
      are refused (a second '@' is outside `[^\s@]`). */
  lemma Examples()
    ensures IsValidEmail("a@b.c")
    ensures !IsValidEmail("a@b") && !IsValidEmail("abc") && !IsValidEmail("a@@b.c")
  {
    assert SplitsAt("a@b.c", 1, 3);
    IsValidEmailIff("abc");
    IsValidEmailIff("a@@b.c");
    assert Occurrences("abc", '@') == 0;
    assert Occurrences("a@@b.c", '@') == 2;
  }
}
