/** The legislative-period classifier of the scraper: it names the directory
    ("bucket") a document link is filed under, trusting the title of the link's
    collapsible section first, then a period number in the link's URL, and
    falling back to a fixed sentinel.

    Python's `re.search` is modelled, for the three patterns the classifier
    uses, by a declarative description of a match at a position (`Matches`)
    and a scanner (`MatchAt`, `Find`) proved to report the leftmost match. */
module Periods {
  import opened Text

  datatype Option<T> = None | Some(value: T)

  const PeriodWord: string := "Wahlperiode"
  const UnknownBucket: string := "Unknown_Wahlperiode"

  /** The patterns the classifier searches for:
      `PeriodTitle` is `\d+\.\s*Wahlperiode|1\.\s*-\s*19\.\s*Wahlperiode`;
      `NumberToken(key)` is `key(\d+)`, whose group 1 is the digits. */
  datatype Pattern = PeriodTitle | NumberToken(key: string)

  const WpToken: Pattern := NumberToken("wp")
  const WahlperiodeToken: Pattern := NumberToken("wahlperiode-")

  /** `lit` occurs in `s` at position `k`. */
  predicate HasAt(s: string, k: nat, lit: string) {
    k + |lit| <= |s| && s[k..k + |lit|] == lit
  }

  /** `s[i..j]` is `\d+\.\s*Wahlperiode`, its digits being `s[i..d]`. */
  ghost predicate OrdinalSplit(s: string, i: nat, j: nat, d: nat) {
    && i < d && d + 1 + |PeriodWord| <= j <= |s|
    && AllIn(s[i..d], Digits)
    && s[d] == '.'
    && AllIn(s[d + 1..j - |PeriodWord|], Blanks)
    && HasAt(s, j - |PeriodWord|, PeriodWord)
  }

  /** `s[i..j]` is `1\.\s*-\s*19\.\s*Wahlperiode`, its `-` at `p` and its `19.` at `q`. */
  ghost predicate RangeSplit(s: string, i: nat, j: nat, p: nat, q: nat) {
    && HasAt(s, i, "1.")
    && i + 2 <= p < q && q + 3 + |PeriodWord| <= j <= |s|
    && AllIn(s[i + 2..p], Blanks)
    && s[p] == '-'
    && AllIn(s[p + 1..q], Blanks)
    && HasAt(s, q, "19.")
    && AllIn(s[q + 3..j - |PeriodWord|], Blanks)
    && HasAt(s, j - |PeriodWord|, PeriodWord)
  }

  /** `pat` matches `s[i..j]` and `j` is the end `re.search` reports for a match
      starting at `i` (for a token, the greedy `\d+` takes every digit). */
  ghost predicate Matches(s: string, pat: Pattern, i: nat, j: nat) {
    && i <= j <= |s|
    && match pat
       case PeriodTitle =>
         (exists d: nat :: OrdinalSplit(s, i, j, d)) || (exists p: nat, q: nat :: RangeSplit(s, i, j, p, q))
       case NumberToken(key) =>
         && i + |key| < j
         && HasAt(s, i, key)
         && AllIn(s[i + |key|..j], Digits)
         && (j == |s| || !IsDigit(s[j]))
  }

  ghost predicate NoMatchIn(s: string, pat: Pattern, lo: nat, hi: nat) {
    forall i, j :: lo <= i < hi ==> !Matches(s, pat, i, j)
  }

  /** `re.search` finds nothing. */
  ghost predicate Absent(s: string, pat: Pattern) {
    NoMatchIn(s, pat, 0, |s| + 1)
  }

  /** The match `re.search` returns: a match, and none starts further left. */
  ghost predicate IsLeftmost(s: string, pat: Pattern, i: nat, j: nat) {
    Matches(s, pat, i, j) && NoMatchIn(s, pat, 0, i)
  }

  // ---------------------------------------------------------------------------
  // Scanners for one position

  /** `Wahlperiode` at `b`: the end of the match. */
  function WordAt(s: string, b: nat): Option<nat>
  {
    if HasAt(s, b, PeriodWord) then Some(b + |PeriodWord|) else None
  }

  function OrdinalAt(s: string, i: nat): Option<nat>
    requires i <= |s|
  {
    var d := RunEnd(s, i, Digits);
    if d == i || d == |s| || s[d] != '.' then None
    else WordAt(s, RunEnd(s, d + 1, Blanks))
  }

  function RangeAt(s: string, i: nat): Option<nat>
    requires i <= |s|
  {
    if HasAt(s, i, "1.") then DashAt(s, RunEnd(s, i + 2, Blanks)) else None
  }

  /** The `-` of the range form at `b`, then blanks and `19.`. */
  function DashAt(s: string, b: nat): Option<nat>
    requires b <= |s|
  {
    if b < |s| && s[b] == '-' then NineteenAt(s, RunEnd(s, b + 1, Blanks)) else None
  }

  /** The `19.` of the range form at `b`, then blanks and `Wahlperiode`. */
  function NineteenAt(s: string, b: nat): Option<nat>
    requires b <= |s|
  {
    if HasAt(s, b, "19.") then WordAt(s, RunEnd(s, b + 3, Blanks)) else None
  }

  function TokenAt(s: string, key: string, i: nat): Option<nat>
    requires i <= |s|
  {
    if HasAt(s, i, key) then
      var e := RunEnd(s, i + |key|, Digits);
      if e > i + |key| then Some(e) else None
    else None
  }

  lemma OrdinalSound(s: string, i: nat)
    requires i <= |s| && OrdinalAt(s, i).Some?
    ensures OrdinalSplit(s, i, OrdinalAt(s, i).value, RunEnd(s, i, Digits))
  {
  }

  /** `HasAt` of a literal fixes the character at its start. */
  lemma HasAtFirst(s: string, k: nat, lit: string)
    requires HasAt(s, k, lit) && |lit| > 0
    ensures s[k] == lit[0]
  {
    assert s[k] == s[k..k + |lit|][0];
  }

  /** Blanks from `a` up to `Wahlperiode` ending at `j`. */
  lemma WordComplete(s: string, a: nat, j: nat)
    requires a + |PeriodWord| <= j <= |s|
    requires AllIn(s[a..j - |PeriodWord|], Blanks) && HasAt(s, j - |PeriodWord|, PeriodWord)
    ensures WordAt(s, RunEnd(s, a, Blanks)) == Some(j)
  {
    HasAtFirst(s, j - |PeriodWord|, PeriodWord);
    RunEndUnique(s, a, j - |PeriodWord|, Blanks);
  }

  lemma OrdinalComplete(s: string, i: nat, j: nat, d: nat)
    requires OrdinalSplit(s, i, j, d)
    ensures OrdinalAt(s, i) == Some(j)
  {
    RunEndUnique(s, i, d, Digits);
    WordComplete(s, d + 1, j);
  }

  lemma RangeSound(s: string, i: nat)
    requires i <= |s| && RangeAt(s, i).Some?
    ensures var b1 := RunEnd(s, i + 2, Blanks);
            RangeSplit(s, i, RangeAt(s, i).value, b1, RunEnd(s, b1 + 1, Blanks))
  {
    assert HasAt(s, i, "1.");
    var b1 := RunEnd(s, i + 2, Blanks);
    assert b1 < |s| && s[b1] == '-';
    var b2 := RunEnd(s, b1 + 1, Blanks);
    assert HasAt(s, b2, "19.");
    var c := RunEnd(s, b2 + 3, Blanks);
    assert HasAt(s, c, PeriodWord);
    var j := c + |PeriodWord|;
    assert RangeAt(s, i) == Some(j);
    assert j - |PeriodWord| == c;
  }

  lemma NineteenComplete(s: string, a: nat, q: nat, j: nat)
    requires a <= q && q + 3 + |PeriodWord| <= j <= |s|
    requires AllIn(s[a..q], Blanks) && HasAt(s, q, "19.")
    requires AllIn(s[q + 3..j - |PeriodWord|], Blanks) && HasAt(s, j - |PeriodWord|, PeriodWord)
    ensures NineteenAt(s, RunEnd(s, a, Blanks)) == Some(j)
  {
    BlanksBeforeLiteral(s, a, q, "19.");
    NineteenAtComplete(s, q, j);
  }

  lemma NineteenAtComplete(s: string, q: nat, j: nat)
    requires q + 3 + |PeriodWord| <= j <= |s| && HasAt(s, q, "19.")
    requires AllIn(s[q + 3..j - |PeriodWord|], Blanks) && HasAt(s, j - |PeriodWord|, PeriodWord)
    ensures NineteenAt(s, q) == Some(j)
  {
    WordComplete(s, q + 3, j);
  }

  /** A blank run stops at a literal that does not start with a blank. */
  lemma BlanksBeforeLiteral(s: string, a: nat, q: nat, lit: string)
    requires a <= q <= |s| && AllIn(s[a..q], Blanks)
    requires HasAt(s, q, lit) && |lit| > 0 && !IsBlank(lit[0])
    ensures RunEnd(s, a, Blanks) == q
  {
    HasAtFirst(s, q, lit);
    RunEndUnique(s, a, q, Blanks);
  }

  lemma RangeComplete(s: string, i: nat, j: nat, p: nat, q: nat)
    requires RangeSplit(s, i, j, p, q)
    ensures RangeAt(s, i) == Some(j)
  {
    RunEndUnique(s, i + 2, p, Blanks);
    NineteenComplete(s, p + 1, q, j);
    assert DashAt(s, p) == Some(j);
    assert RangeAt(s, i) == DashAt(s, p);
  }

  /** The two alternatives of the title pattern never both match at one position:
      after `1.` and the blanks the ordinal form needs `W`, the range form `-`. */
  lemma TitleAlternativesExclusive(s: string, i: nat)
    requires i <= |s|
    ensures !(OrdinalAt(s, i).Some? && RangeAt(s, i).Some?)
  {
    if RangeAt(s, i).Some? {
      assert s[i] == s[i..i + 2][0] == '1' && s[i + 1] == s[i..i + 2][1] == '.';
      RunEndUnique(s, i, i + 1, Digits);
      var b := RunEnd(s, i + 2, Blanks);
      if HasAt(s, b, PeriodWord) {
        HasAtFirst(s, b, PeriodWord);
      }
      assert OrdinalAt(s, i) == WordAt(s, b);
    }
  }

  /** The title pattern at one position: the ordinal alternative first. */
  function TitleAt(s: string, i: nat): Option<nat>
    requires i <= |s|
  {
    if OrdinalAt(s, i).Some? then OrdinalAt(s, i) else RangeAt(s, i)
  }

  lemma TitleCorrect(s: string, i: nat, j: nat)
    requires i <= |s|
    ensures TitleAt(s, i) == Some(j) <==> Matches(s, PeriodTitle, i, j)
  {
    TitleAlternativesExclusive(s, i);
    if OrdinalAt(s, i).Some? { OrdinalSound(s, i); }
    if RangeAt(s, i).Some? { RangeSound(s, i); }
    if Matches(s, PeriodTitle, i, j) {
      if d: nat :| OrdinalSplit(s, i, j, d) {
        OrdinalComplete(s, i, j, d);
      } else {
        var p: nat, q: nat :| RangeSplit(s, i, j, p, q);
        RangeComplete(s, i, j, p, q);
      }
    }
  }

  lemma TokenCorrect(s: string, key: string, i: nat, j: nat)
    requires i <= |s|
    ensures TokenAt(s, key, i) == Some(j) <==> Matches(s, NumberToken(key), i, j)
  {
    if Matches(s, NumberToken(key), i, j) {
      RunEndUnique(s, i + |key|, j, Digits);
    }
  }

  /** The match of `pat` that starts at `i`, if any (the end of the one the
      regex engine reports there). */
  function MatchAt(s: string, pat: Pattern, i: nat): (m: Option<nat>)
    requires i <= |s|
    ensures m.Some? ==> Matches(s, pat, i, m.value)
    ensures forall j: nat :: Matches(s, pat, i, j) ==> m == Some(j)
  {
    match pat
    case PeriodTitle =>
      assert forall j: nat :: TitleAt(s, i) == Some(j) <==> Matches(s, pat, i, j) by {
        forall j: nat ensures TitleAt(s, i) == Some(j) <==> Matches(s, pat, i, j) {
          TitleCorrect(s, i, j);
        }
      }
      TitleAt(s, i)
    case NumberToken(key) =>
      assert forall j: nat :: TokenAt(s, key, i) == Some(j) <==> Matches(s, pat, i, j) by {
        forall j: nat ensures TokenAt(s, key, i) == Some(j) <==> Matches(s, pat, i, j) {
          TokenCorrect(s, key, i, j);
        }
      }
      TokenAt(s, key, i)
  }

  /** `re.search(pat, s[from..])`: the leftmost match starting at or after `from`. */
  function Find(s: string, pat: Pattern, from: nat): (r: Option<(nat, nat)>)
    requires from <= |s|
    ensures r.Some? ==> from <= r.value.0 && Matches(s, pat, r.value.0, r.value.1)
    ensures r.Some? ==> NoMatchIn(s, pat, from, r.value.0)
    ensures r.None? ==> NoMatchIn(s, pat, from, |s| + 1)
    decreases |s| - from
  {
    match MatchAt(s, pat, from)
    case Some(j) => Some((from, j))
    case None => if from == |s| then None else Find(s, pat, from + 1)
  }

  /** The search reports exactly the leftmost match, and reports none exactly
      when the pattern is absent. */
  lemma FindIsLeftmost(s: string, pat: Pattern, i: nat, j: nat)
    ensures Find(s, pat, 0) == Some((i, j)) <==> IsLeftmost(s, pat, i, j)
    ensures Find(s, pat, 0).None? <==> Absent(s, pat)
  {
    var r := Find(s, pat, 0);
    if IsLeftmost(s, pat, i, j) {
      assert MatchAt(s, pat, i) == Some(j);
    }
  }

  // ---------------------------------------------------------------------------
  // Bucket names

  /** What every bucket name looks like: directory-safe, ending in `Wahlperiode`,
      and, unless it is the sentinel, starting with a period number. */
  predicate BucketShape(b: string) {
    && EndsWith(b, PeriodWord)
    && ' ' !in b && '.' !in b && '/' !in b
    && (b != UnknownBucket ==> IsDigit(b[0]))
  }

  /** The bucket named by a section title, `None` when there is no title or the
      period pattern does not occur in it. */
  function TitleBucket(title: Option<string>): (b: Option<string>)
    ensures b.Some? ==> BucketShape(b.value) && b.value != UnknownBucket
  {
    match title
    case None => None
    case Some(t) =>
      match Find(t, PeriodTitle, 0)
      case None => None
      case Some((i, j)) =>
        TitleMatchShape(t, i, j);
        var b := Sanitize(t[i..j]);
        assert b[0] != UnknownBucket[0];
        Some(b)
  }

  /** Group 1 of a token match: the digits after the key. */
  function TokenDigits(s: string, key: string, i: nat, j: nat): (d: string)
    requires Matches(s, NumberToken(key), i, j)
    ensures |d| > 0 && AllIn(d, Digits)
  {
    s[i + |key|..j]
  }

  /** `<digits>_Wahlperiode`. */
  function NumberedBucket(d: string): (b: string)
    requires |d| > 0 && AllIn(d, Digits)
    ensures BucketShape(b) && b != UnknownBucket
  {
    DigitsShape(d);
    var b := d + "_Wahlperiode";
    assert b[|b| - |PeriodWord|..] == PeriodWord;
    assert b[0] != UnknownBucket[0];
    b
  }

  /** The bucket named by the URL, or the sentinel. */
  function UrlBucket(href: string): (b: string)
    ensures BucketShape(b)
  {
    match Find(href, WpToken, 0)
    case Some((i, j)) => NumberedBucket(TokenDigits(href, WpToken.key, i, j))
    case None =>
      match Find(href, WahlperiodeToken, 0)
      case Some((i, j)) => NumberedBucket(TokenDigits(href, WahlperiodeToken.key, i, j))
      case None => UnknownShape(); UnknownBucket
  }

  lemma UnknownShape()
    ensures BucketShape(UnknownBucket)
  {
    assert UnknownBucket[|UnknownBucket| - |PeriodWord|..] == PeriodWord;
  }

  /** The classifier. `title` is the text of the `h2.bt-collapse-title` inside the
      link's nearest `div.bt-collapse` ancestor, `None` when either element is
      missing. */
  function Bucket(title: Option<string>, href: string): (b: string)
    ensures BucketShape(b)
  {
    match TitleBucket(title)
    case Some(b) => b
    case None => UrlBucket(href)
  }

  lemma DigitsShape(d: string)
    requires |d| > 0 && AllIn(d, Digits)
    ensures ' ' !in d && '.' !in d && '/' !in d && IsDigit(d[0])
  {
    assert forall c :: c in d ==> IsDigit(c);
  }

  /** A title match, sanitized, starts with a digit, ends with `Wahlperiode` and
      holds no `/`. */
  lemma TitleMatchShape(s: string, i: nat, j: nat)
    requires Matches(s, PeriodTitle, i, j)
    ensures var b := Sanitize(s[i..j]); EndsWith(b, PeriodWord) && '/' !in b && IsDigit(b[0])
  {
    var n := j - |PeriodWord|;
    TitleMatchChars(s, i, j);
    var u := s[i + 1..n];
    assert s[n..j] == PeriodWord;
    assert s[i..j] == [s[i]] + u + PeriodWord;
    assert '/' !in u by {
      forall m | 0 <= m < |u| ensures u[m] != '/' { assert u[m] == s[i..j][m + 1]; }
    }
    SanitizedShape(s[i], u);
  }

  /** The form every title match has: a digit, more characters, `Wahlperiode`. */
  lemma SanitizedShape(c: char, u: string)
    requires IsDigit(c) && '/' !in u
    ensures var b := Sanitize([c] + u + PeriodWord); EndsWith(b, PeriodWord) && '/' !in b && IsDigit(b[0])
  {
    var w := [c] + u + PeriodWord;
    assert w == [c] + (u + PeriodWord);
    SanitizeLeadingDigit(c, u + PeriodWord);
    SanitizeWordSuffix(u);
    WordChars();
    SanitizeNoSlash(w);
    var b := Sanitize(w);
    assert b == [c] + Sanitize(u) + PeriodWord;
    assert b[|b| - |PeriodWord|..] == PeriodWord;
  }

  lemma SanitizeWordSuffix(u: string)
    ensures Sanitize(u + PeriodWord) == Sanitize(u) + PeriodWord
  {
    SanitizeAppend(u, PeriodWord);
    SanitizeWord();
  }

  lemma SanitizeWord()
    ensures Sanitize(PeriodWord) == PeriodWord
  {
    WordChars();
    SanitizeKeeps(PeriodWord);
  }

  lemma WordChars()
    ensures ' ' !in PeriodWord && '.' !in PeriodWord && '/' !in PeriodWord
  {
  }

  lemma SanitizeLeadingDigit(c: char, u: string)
    requires IsDigit(c)
    ensures Sanitize([c] + u) == [c] + Sanitize(u)
  {
    SanitizeAppend([c], u);
    SanitizeKeeps([c]);
  }

  lemma SanitizeNoSlash(w: string)
    requires '/' !in w
    ensures '/' !in Sanitize(w)
  {
    var u := ReplaceSpaces(w);
    assert '/' !in u by {
      forall m | 0 <= m < |u| ensures u[m] != '/' { assert w[m] != '/'; }
    }
    RemoveDotsChars(u);
  }

  /** A title match starts with a digit, has at least one character before
      `Wahlperiode`, and holds no `/`. */
  lemma TitleMatchChars(s: string, i: nat, j: nat)
    requires Matches(s, PeriodTitle, i, j)
    ensures i + |PeriodWord| < j && IsDigit(s[i]) && '/' !in s[i..j]
    ensures HasAt(s, j - |PeriodWord|, PeriodWord)
  {
    if d: nat :| OrdinalSplit(s, i, j, d) {
      OrdinalChars(s, i, j, d);
    } else {
      var p: nat, q: nat :| RangeSplit(s, i, j, p, q);
      RangeChars(s, i, j, p, q);
    }
  }

  /** No class-`k` character is a `/`. */
  lemma RunHasNoSlash(s: string, a: nat, b: nat, k: CharClass)
    requires a <= b <= |s| && AllIn(s[a..b], k)
    ensures forall m :: a <= m < b ==> s[m] != '/'
  {
    forall m | a <= m < b ensures s[m] != '/' { assert InClass(s[a..b][m - a], k); }
  }

  lemma LiteralHasNoSlash(s: string, a: nat, lit: string)
    requires HasAt(s, a, lit) && '/' !in lit
    ensures forall m :: a <= m < a + |lit| ==> s[m] != '/'
  {
    forall m | a <= m < a + |lit| ensures s[m] != '/' { assert s[m] == lit[m - a]; }
  }

  lemma OrdinalChars(s: string, i: nat, j: nat, d: nat)
    requires OrdinalSplit(s, i, j, d)
    ensures i + |PeriodWord| < j && IsDigit(s[i]) && '/' !in s[i..j]
    ensures HasAt(s, j - |PeriodWord|, PeriodWord)
  {
    var n := j - |PeriodWord|;
    assert IsDigit(s[i..d][0]);
    RunHasNoSlash(s, i, d, Digits);
    RunHasNoSlash(s, d + 1, n, Blanks);
    LiteralHasNoSlash(s, n, PeriodWord);
    assert forall m :: i <= m < j ==> s[m] != '/';
  }

  lemma RangeChars(s: string, i: nat, j: nat, p: nat, q: nat)
    requires RangeSplit(s, i, j, p, q)
    ensures i + |PeriodWord| < j && IsDigit(s[i]) && '/' !in s[i..j]
    ensures HasAt(s, j - |PeriodWord|, PeriodWord)
  {
    var n := j - |PeriodWord|;
    HasAtFirst(s, i, "1.");
    LiteralHasNoSlash(s, i, "1.");
    RunHasNoSlash(s, i + 2, p, Blanks);
    RunHasNoSlash(s, p + 1, q, Blanks);
    LiteralHasNoSlash(s, q, "19.");
    RunHasNoSlash(s, q + 3, n, Blanks);
    LiteralHasNoSlash(s, n, PeriodWord);
    assert forall m :: i <= m < j ==> s[m] != '/';
  }

  // ---------------------------------------------------------------------------
  // The trust order

  /** No usable section title: none was found, or it does not carry a period. */
  ghost predicate NoTitlePeriod(title: Option<string>) {
    title.None? || Absent(title.value, PeriodTitle)
  }

  /** Structural context wins: a title that carries a period decides the bucket,
      whatever the URL says. */
  lemma {:induction false} TitleWins(t: string, href: string, i: nat, j: nat)
    requires IsLeftmost(t, PeriodTitle, i, j)
    ensures Bucket(Some(t), href) == Sanitize(t[i..j])
  {
    FindIsLeftmost(t, PeriodTitle, i, j);
  }

  /** Without a title period, `wp<digits>` is tried first. */
  lemma {:induction false} WpTokenNext(title: Option<string>, href: string, i: nat, j: nat)
    requires NoTitlePeriod(title)
    requires IsLeftmost(href, WpToken, i, j)
    ensures Bucket(title, href) == href[i + 2..j] + "_Wahlperiode"
  {
    if title.Some? { FindIsLeftmost(title.value, PeriodTitle, 0, 0); }
    assert TitleBucket(title).None?;
    FindIsLeftmost(href, WpToken, i, j);
    assert Find(href, WpToken, 0) == Some((i, j));
  }

  /** Then `wahlperiode-<digits>`. */
  lemma {:induction false} WahlperiodeTokenLast(title: Option<string>, href: string, i: nat, j: nat)
    requires NoTitlePeriod(title)
    requires Absent(href, WpToken)
    requires IsLeftmost(href, WahlperiodeToken, i, j)
    ensures Bucket(title, href) == href[i + 12..j] + "_Wahlperiode"
  {
    if title.Some? { FindIsLeftmost(title.value, PeriodTitle, 0, 0); }
    assert TitleBucket(title).None?;
    FindIsLeftmost(href, WpToken, 0, 0);
    FindIsLeftmost(href, WahlperiodeToken, i, j);
    assert Find(href, WahlperiodeToken, 0) == Some((i, j));
  }

  /** The sentinel is returned exactly when nothing matched anywhere. */
  lemma {:induction false} UnknownExactlyWhenNothingMatches(title: Option<string>, href: string)
    ensures Bucket(title, href) == UnknownBucket
            <==> NoTitlePeriod(title) && Absent(href, WpToken) && Absent(href, WahlperiodeToken)
  {
    if title.Some? { FindIsLeftmost(title.value, PeriodTitle, 0, 0); }
    FindIsLeftmost(href, WpToken, 0, 0);
    FindIsLeftmost(href, WahlperiodeToken, 0, 0);
    assert IsDigit(UnknownBucket[0]) == false;
  }

  /** A missing section or title element is not an error: the URL decides. */
  lemma MissingTitleFallsThrough(href: string)
    ensures Bucket(None, href) == UrlBucket(href)
  {
  }

  // ---------------------------------------------------------------------------
  // The two title forms, for every period number and every blank run

  /** Sanitizing a blank run only turns its spaces into `_` (other blanks, such
      as tabs, stay). */
  lemma SanitizeBlanks(x: string)
    requires AllIn(x, Blanks)
    ensures Sanitize(x) == ReplaceSpaces(x)
  {
    var u := ReplaceSpaces(x);
    assert '.' !in u by {
      forall m | 0 <= m < |u| ensures u[m] != '.' { assert IsBlank(x[m]); }
    }
    RemoveDotsKeeps(u);
  }

  lemma SanitizeDotted(c: string)
    requires ' ' !in c
    ensures Sanitize(c + ".") == RemoveDots(c)
  {
    assert ReplaceSpaces(c + ".") == c + "." by {
      assert ReplaceSpaces(c) == c;
      assert ReplaceSpaces(c + ".") == ReplaceSpaces(c) + ReplaceSpaces(".");
    }
    RemoveDotsAppend(c, ".");
  }

  /** `N.` followed by blanks and `Wahlperiode` names `N` + the blanks with spaces
      turned into `_` + `Wahlperiode`; so `19. Wahlperiode` names `19_Wahlperiode`. */
  lemma {:induction false} OrdinalTitleBucket(n: string, x: string, href: string)
    requires |n| > 0 && AllIn(n, Digits) && AllIn(x, Blanks)
    ensures Bucket(Some(n + "." + x + PeriodWord), href) == n + ReplaceSpaces(x) + PeriodWord
  {
    var t := n + "." + x + PeriodWord;
    assert t[0..|n|] == n;
    assert t[|n| + 1..|t| - |PeriodWord|] == x;
    assert t[|t| - |PeriodWord|..] == PeriodWord;
    assert OrdinalSplit(t, 0, |t|, |n|);
    TitleWins(t, href, 0, |t|);
    assert t[0..|t|] == t;
    DigitsShape(n);
    SanitizeAppend(n + "." + x, PeriodWord);
    SanitizeWord();
    SanitizeAppend(n + ".", x);
    SanitizeBlanks(x);
    SanitizeDotted(n);
    RemoveDotsKeeps(n);
  }

  /** `1.`, blanks, `-`, blanks, `19.`, blanks and `Wahlperiode` names
      `1` + blanks + `-` + blanks + `19` + blanks + `Wahlperiode`, spaces turned
      into `_`; so `1. - 19. Wahlperiode` names `1_-_19_Wahlperiode`. */
  lemma {:induction false} RangeTitleBucket(x: string, y: string, z: string, href: string)
    requires AllIn(x, Blanks) && AllIn(y, Blanks) && AllIn(z, Blanks)
    ensures Bucket(Some("1." + x + "-" + y + "19." + z + PeriodWord), href)
            == "1" + ReplaceSpaces(x) + "-" + ReplaceSpaces(y) + "19" + ReplaceSpaces(z) + PeriodWord
  {
    var t := "1." + x + "-" + y + "19." + z + PeriodWord;
    var p := 2 + |x|;
    var q := p + 1 + |y|;
    assert t[0..2] == "1.";
    assert t[2..p] == x;
    assert t[p] == '-';
    assert t[p + 1..q] == y;
    assert t[q..q + 3] == "19.";
    assert t[q + 3..|t| - |PeriodWord|] == z;
    assert t[|t| - |PeriodWord|..] == PeriodWord;
    assert RangeSplit(t, 0, |t|, p, q);
    TitleWins(t, href, 0, |t|);
    assert t[0..|t|] == t;
    RangeSanitize(x, y, z);
  }

  /** The title of the current period's section: `19. Wahlperiode` names
      `19_Wahlperiode`. */
  lemma NineteenthPeriodTitle(href: string)
    ensures Bucket(Some("19. " + PeriodWord), href) == "19_" + PeriodWord
  {
    OrdinalTitleBucket("19", " ", href);
    assert ReplaceSpaces(" ") == "_";
    assert "19" + "." + " " == "19. ";
  }

  /** The title of the section that collects the first nineteen periods, with one
      space `x` at each gap: `1. - 19. Wahlperiode` names `1_-_19_Wahlperiode`. */
  lemma FirstNineteenPeriodsTitle(x: string, href: string)
    requires x == " "
    ensures Bucket(Some("1." + x + "-" + x + "19." + x + PeriodWord), href) == "1_-_19_" + PeriodWord
  {
    assert AllIn(x, Blanks);
    RangeTitleBucket(x, x, x, href);
    assert ReplaceSpaces(x) == "_";
    assert "1" + "_" + "-" + "_" + "19" + "_" == "1_-_19_";
  }

  lemma RangeSanitize(x: string, y: string, z: string)
    requires AllIn(x, Blanks) && AllIn(y, Blanks) && AllIn(z, Blanks)
    ensures Sanitize("1." + x + "-" + y + "19." + z + PeriodWord)
            == "1" + ReplaceSpaces(x) + "-" + ReplaceSpaces(y) + "19" + ReplaceSpaces(z) + PeriodWord
  {
    var head := "1." + x + "-" + y;
    RangeSanitizeHead(x, y);
    SanitizeWord();
    SanitizeBlanks(z);
    SanitizeNineteen();
    SanitizeFour(head, "19.", z, PeriodWord, "1" + ReplaceSpaces(x) + "-" + ReplaceSpaces(y), "19", ReplaceSpaces(z), PeriodWord);
  }

  lemma SanitizeNineteen()
    ensures Sanitize("19.") == "19"
  {
    SanitizeDotted("19");
    RemoveDotsKeeps("19");
  }

  /** Sanitizing four pieces one by one. */
  lemma SanitizeFour(a: string, b: string, c: string, d: string, a': string, b': string, c': string, d': string)
    requires Sanitize(a) == a' && Sanitize(b) == b' && Sanitize(c) == c' && Sanitize(d) == d'
    ensures Sanitize(a + b + c + d) == a' + b' + c' + d'
  {
    SanitizeAppend(a + b + c, d);
    SanitizeAppend(a + b, c);
    SanitizeAppend(a, b);
  }

  lemma RangeSanitizeHead(x: string, y: string)
    requires AllIn(x, Blanks) && AllIn(y, Blanks)
    ensures Sanitize("1." + x + "-" + y) == "1" + ReplaceSpaces(x) + "-" + ReplaceSpaces(y)
  {
    SanitizeAppend("1." + x + "-", y);
    SanitizeBlanks(y);
    SanitizeAppend("1." + x, "-");
    SanitizeKeeps("-");
    SanitizeAppend("1.", x);
    SanitizeBlanks(x);
    assert Sanitize("1.") == "1" by { SanitizeDotted("1"); RemoveDotsKeeps("1"); }
  }
}
