/** String helpers shared by the classifier and the crawler: prefix and suffix
    tests, the two character classes the legislative-period patterns use, a
    scanner for maximal runs of one class, and the two replacements that turn a
    matched section title into a directory name. */
module Text {

  predicate StartsWith(s: string, prefix: string) {
    |prefix| <= |s| && s[..|prefix|] == prefix
  }

  predicate EndsWith(s: string, suffix: string) {
    |suffix| <= |s| && s[|s| - |suffix|..] == suffix
  }

  /** The two character classes of the patterns: `\d` and `\s`. */
  datatype CharClass = Digits | Blanks

  /** `\d`, restricted to the ASCII digits. */
  predicate IsDigit(c: char) {
    '0' <= c <= '9'
  }

  /** `\s` on a Python `str`: exactly the characters for which `str.isspace` holds. */
  predicate IsBlank(c: char) {
    || ('\t' <= c <= '\r')
    || ('\U{1C}' <= c <= ' ')
    || c == '\U{85}' || c == '\U{A0}' || c == '\U{1680}'
    || ('\U{2000}' <= c <= '\U{200A}')
    || c == '\U{2028}' || c == '\U{2029}' || c == '\U{202F}' || c == '\U{205F}'
    || c == '\U{3000}'
  }

  predicate InClass(c: char, k: CharClass) {
    match k
    case Digits => IsDigit(c)
    case Blanks => IsBlank(c)
  }

  predicate AllIn(w: string, k: CharClass) {
    forall m :: 0 <= m < |w| ==> InClass(w[m], k)
  }

  /** The end of the longest run of class-`k` characters starting at `i`: what a
      greedy `\d+` or `\s*` consumes there. */
  function RunEnd(s: string, i: nat, k: CharClass): (e: nat)
    requires i <= |s|
    ensures i <= e <= |s|
    ensures AllIn(s[i..e], k)
    ensures e == |s| || !InClass(s[e], k)
    decreases |s| - i
  {
    if i == |s| || !InClass(s[i], k) then i else RunEnd(s, i + 1, k)
  }

  /** A run is determined by where it starts: any end that bounds a class-`k`
      stretch and is followed by a non-member (or the end) is the scanner's. */
  lemma {:induction false} RunEndUnique(s: string, i: nat, e: nat, k: CharClass)
    requires i <= e <= |s|
    requires AllIn(s[i..e], k)
    requires e == |s| || !InClass(s[e], k)
    ensures RunEnd(s, i, k) == e
    decreases e - i
  {
    if i < e {
      assert InClass(s[i..e][0], k);
      assert AllIn(s[i + 1..e], k) by {
        forall m | i + 1 <= m < e ensures InClass(s[m], k) {
          assert s[m] == s[i..e][m - i];
        }
      }
      RunEndUnique(s, i + 1, e, k);
    }
  }

  /** `str.replace(" ", "_")`. */
  function ReplaceSpaces(w: string): (r: string)
    ensures |r| == |w|
    ensures forall m :: 0 <= m < |w| ==> r[m] == (if w[m] == ' ' then '_' else w[m])
  {
    if w == [] then [] else [if w[0] == ' ' then '_' else w[0]] + ReplaceSpaces(w[1..])
  }

  /** `str.replace(".", "")`. */
  function RemoveDots(w: string): string
  {
    if w == [] then []
    else if w[0] == '.' then RemoveDots(w[1..])
    else [w[0]] + RemoveDots(w[1..])
  }

  /** Removing dots leaves no dot and adds no character. */
  lemma {:induction false} RemoveDotsChars(w: string)
    ensures '.' !in RemoveDots(w)
    ensures forall c :: c in RemoveDots(w) ==> c in w
  {
    if w != [] {
      RemoveDotsChars(w[1..]);
    }
  }

  lemma {:induction false} RemoveDotsAppend(a: string, b: string)
    ensures RemoveDots(a + b) == RemoveDots(a) + RemoveDots(b)
  {
    if a != [] {
      assert (a + b)[1..] == a[1..] + b;
      RemoveDotsAppend(a[1..], b);
    } else {
      assert a + b == b;
    }
  }

  /** Removing dots keeps every character that is not a dot, in order. */
  lemma {:induction false} RemoveDotsKeeps(w: string)
    requires '.' !in w
    ensures RemoveDots(w) == w
  {
    if w != [] {
      assert w[0] != '.';
      RemoveDotsKeeps(w[1..]);
    }
  }

  /** The directory-safe form of a matched title: spaces become `_`, dots vanish. */
  function Sanitize(w: string): (r: string)
    ensures ' ' !in r && '.' !in r
  {
    var u := ReplaceSpaces(w);
    RemoveDotsChars(u);
    RemoveDots(u)
  }

  lemma {:induction false} ReplaceSpacesAppend(a: string, b: string)
    ensures ReplaceSpaces(a + b) == ReplaceSpaces(a) + ReplaceSpaces(b)
  {
    if a != [] {
      assert (a + b)[1..] == a[1..] + b;
      ReplaceSpacesAppend(a[1..], b);
    } else {
      assert a + b == b;
    }
  }

  lemma SanitizeAppend(a: string, b: string)
    ensures Sanitize(a + b) == Sanitize(a) + Sanitize(b)
  {
    ReplaceSpacesAppend(a, b);
    RemoveDotsAppend(ReplaceSpaces(a), ReplaceSpaces(b));
  }

  /** A word without spaces and dots is its own sanitized form. */
  lemma SanitizeKeeps(w: string)
    requires ' ' !in w && '.' !in w
    ensures Sanitize(w) == w
  {
    assert ReplaceSpaces(w) == w;
    RemoveDotsKeeps(w);
  }

  /** The index just after the last `/` before `e` (0 when there is none). */
  function SegmentStart(s: string, e: nat): (b: nat)
    requires e <= |s|
    ensures b <= e
    ensures forall m :: b <= m < e ==> s[m] != '/'
    ensures b > 0 ==> s[b - 1] == '/'
    decreases e
  {
    if e == 0 || s[e - 1] == '/' then e else SegmentStart(s, e - 1)
  }

  /** The text after the last `/` (the whole string when there is none). */
  function LastSegment(s: string): (r: string)
    ensures '/' !in r
    ensures EndsWith(s, r)
    ensures |r| < |s| ==> s[|s| - |r| - 1] == '/'
  {
    s[SegmentStart(s, |s|)..]
  }
}
