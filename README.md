# Bundestag plenary-protocol scraper, modelled in Dafny

The scraper reads the Bundestag open-data listing and handles each document link (`a.bt-link-dokument`) that ends in `.xml` or `.zip`:

- It chooses a legislative-period directory ("bucket") for the link:
  - first from the title of the link's collapsible section;
  - then from a `wp<digits>` or `wahlperiode-<digits>` token in the URL;
  - otherwise the fixed name `Unknown_Wahlperiode`.
- It makes sure `bundestag_plenarprotokolle/<bucket>` exists.
- It skips the link when `bundestag_plenarprotokolle/<bucket>/<basename>` already exists.
- Otherwise it streams the file there chunk by chunk. A failed download is reported, and the crawl goes on with the next link.

The model has four modules:

- `Text`:
  - prefix and suffix tests;
  - the two character classes of the patterns (`\d` as ASCII digits, `\s` as the characters Python's `str.isspace` accepts);
  - greedy runs;
  - the two `str.replace` calls;
  - `os.path.basename` for `/`-separated paths.
- `Periods`, the classifier:
  - `re.search` for its three patterns is modelled by a declarative predicate `Matches` (what a match starting at `i` and ending at `j` is) and a scanner `Find`;
  - `Find` is proved to return exactly the leftmost match, and no match exactly when the pattern does not occur;
  - it is also proved to give every bucket a directory-safe shape (ends in `Wahlperiode`; no space, dot or `/`; starts with a digit unless it is the sentinel);
  - the trust order title → `wp` → `wahlperiode-` → sentinel is stated as lemmas, both directions for the sentinel.
- `Storage`:
  - the filesystem as a value (`FsState`: existing paths plus the bytes of written files);
  - a `Disk` class whose methods `CreateDirectory` (with the parents `os.makedirs` adds) and `DownloadFile` (a loop over the body's chunks) update it in place.
- `Crawler`:
  - the per-link step, the loop over all links (`Loop`), the whole run (`Crawl`), and the imperative `Scrape`, which is proved equal to `Crawl`;
  - proved properties: each link is handled by the same rule whatever happened to the links before it; skip-if-exists; a written file is never overwritten; distinct bucket-and-name pairs give distinct targets; nothing is created outside the download directory; a second run over the same listing fetches only the documents whose first download was refused, and when there were none it changes nothing.

The network is a function from a link's position in the listing to the answer that download gets (`Response`): either refused before any file was opened, or a sequence of chunks, possibly followed by a broken stream. The listing is either unreachable or a sequence of already-parsed links.

## Model

| member | source | states |
|---|---|---|
| Text.RunEnd | data/bundestag_char/prepare-new.py:40 | a greedy `\d+` / `\s*` run from `i`: every character up to the end is in the class and the next one is not |
| Text.RunEndUnique | data/bundestag_char/prepare-new.py:40 | any end bounding a class run and followed by a non-member is the greedy end, so a match at one position is unique |
| Text.ReplaceSpaces | data/bundestag_char/prepare-new.py:42 | `replace(" ", "_")`: same length, each space becomes `_`, every other character stays in place |
| Text.ReplaceSpacesAppend | data/bundestag_char/prepare-new.py:42 | replacing spaces distributes over concatenation |
| Text.RemoveDotsChars | data/bundestag_char/prepare-new.py:42 | `replace(".", "")` leaves no dot and introduces no character |
| Text.RemoveDots | data/bundestag_char/prepare-new.py:42 | `replace(".", "")`: drops every dot and keeps the other characters in order (its properties are `RemoveDotsChars`, `RemoveDotsAppend` and `RemoveDotsKeeps`) |
| Text.RemoveDotsAppend | data/bundestag_char/prepare-new.py:42 | removing dots distributes over concatenation |
| Text.RemoveDotsKeeps | data/bundestag_char/prepare-new.py:42 | a string without dots is unchanged |
| Text.Sanitize | data/bundestag_char/prepare-new.py:42 | the sanitized title match holds no space and no dot |
| Text.SanitizeAppend | data/bundestag_char/prepare-new.py:42 | sanitizing distributes over concatenation |
| Text.SanitizeKeeps | data/bundestag_char/prepare-new.py:42 | a string without spaces and dots is its own sanitized form |
| Text.SegmentStart | data/bundestag_char/prepare-new.py:76 | the start of the last `/`-segment: no `/` after it, a `/` right before it |
| Text.LastSegment | data/bundestag_char/prepare-new.py:76 | `basename`: holds no `/`, is a suffix of the path, and is preceded by `/` when shorter than the path |
| Periods.OrdinalSound | data/bundestag_char/prepare-new.py:40 | what the scanner accepts at `i` is a `\d+\.\s*Wahlperiode` match |
| Periods.OrdinalComplete | data/bundestag_char/prepare-new.py:40 | every `\d+\.\s*Wahlperiode` match at `i` is found, with its end |
| Periods.RangeSound | data/bundestag_char/prepare-new.py:40 | what the scanner accepts at `i` is a `1\.\s*-\s*19\.\s*Wahlperiode` match |
| Periods.RangeComplete | data/bundestag_char/prepare-new.py:40 | every range-form match at `i` is found, with its end |
| Periods.NineteenComplete | data/bundestag_char/prepare-new.py:40 | blanks, `19.`, blanks and `Wahlperiode` are scanned to their end |
| Periods.TokenAt | data/bundestag_char/prepare-new.py:46 | `key(\d+)` tried at one position: the key, then the greedy digit run, with at least one digit (characterised by `TokenCorrect`) |
| Periods.TitleAlternativesExclusive | data/bundestag_char/prepare-new.py:40 | the two alternatives never both match at one position, so trying the first alternative first loses nothing |
| Periods.TitleAt | data/bundestag_char/prepare-new.py:40 | the title pattern tried at one position: the ordinal alternative first, then the range form (characterised by `TitleCorrect`) |
| Periods.TitleCorrect | data/bundestag_char/prepare-new.py:40 | the title scanner reports end `j` at `i` if and only if the pattern matches `s[i..j]` |
| Periods.TokenCorrect | data/bundestag_char/prepare-new.py:46 | the token scanner reports end `j` at `i` if and only if `key(\d+)` matches `s[i..j]` with all digits taken |
| Periods.MatchAt | data/bundestag_char/prepare-new.py:40-46 | a reported end is a match, and any match at that position is the reported one |
| Periods.Find | data/bundestag_char/prepare-new.py:40-46 | a reported match starts at or after `from` and nothing matches before it; no report means nothing matches from `from` on |
| Periods.FindIsLeftmost | data/bundestag_char/prepare-new.py:40-46 | `re.search` from 0 returns `(i, j)` if and only if that is the leftmost match, and nothing if and only if the pattern is absent |
| Periods.TitleBucket | data/bundestag_char/prepare-new.py:36-42 | a bucket taken from a title has the directory-safe shape and is not the sentinel |
| Periods.TokenDigits | data/bundestag_char/prepare-new.py:48 | group 1 of a token match is a non-empty run of digits |
| Periods.NumberedBucket | data/bundestag_char/prepare-new.py:48 | `<digits>_Wahlperiode` has the directory-safe shape and is not the sentinel |
| Periods.UrlBucket | data/bundestag_char/prepare-new.py:45-51 | the URL-decided bucket has the directory-safe shape |
| Periods.UnknownShape | data/bundestag_char/prepare-new.py:51 | the sentinel `Unknown_Wahlperiode` has the directory-safe shape |
| Periods.Bucket | data/bundestag_char/prepare-new.py:33-51 | every bucket ends in `Wahlperiode` and holds no space, `.` or `/`; unless it is the sentinel it starts with a digit |
| Periods.TitleMatchShape | data/bundestag_char/prepare-new.py:40-42 | a sanitized title match ends in `Wahlperiode`, holds no `/` and starts with a digit |
| Periods.TitleWins | data/bundestag_char/prepare-new.py:36-42 | when the title's leftmost match is `t[i..j]`, the bucket is its sanitized form, whatever the URL says |
| Periods.WpTokenNext | data/bundestag_char/prepare-new.py:46-48 | without a title period, the leftmost `wp<digits>` decides: the bucket is those digits + `_Wahlperiode` |
| Periods.WahlperiodeTokenLast | data/bundestag_char/prepare-new.py:46-48 | without a title period and without `wp<digits>`, the leftmost `wahlperiode-<digits>` decides |
| Periods.UnknownExactlyWhenNothingMatches | data/bundestag_char/prepare-new.py:51 | the bucket is `Unknown_Wahlperiode` if and only if neither the title nor either URL pattern matches |
| Periods.MissingTitleFallsThrough | data/bundestag_char/prepare-new.py:36-39 | a missing section or title element gives the URL-decided bucket |
| Periods.SanitizeBlanks | data/bundestag_char/prepare-new.py:42 | sanitizing a blank run only turns its spaces into `_` |
| Periods.SanitizeDotted | data/bundestag_char/prepare-new.py:42 | a trailing dot is removed |
| Periods.OrdinalTitleBucket | data/bundestag_char/prepare-new.py:40-42 | a title `N.` + blanks + `Wahlperiode` gives `N` + blanks (spaces as `_`) + `Wahlperiode`, for every number and blank run (`19. Wahlperiode` gives `19_Wahlperiode`) |
| Periods.RangeTitleBucket | data/bundestag_char/prepare-new.py:40-42 | a title `1.` - `19.` `Wahlperiode`, with any blank runs, gives `1` + blanks + `-` + blanks + `19` + blanks + `Wahlperiode` with spaces as `_` (`1. - 19. Wahlperiode` gives `1_-_19_Wahlperiode`) |
| Periods.NineteenthPeriodTitle | data/bundestag_char/prepare-new.py:40-42 | the title `19. Wahlperiode` gives the bucket `19_Wahlperiode` |
| Periods.FirstNineteenPeriodsTitle | data/bundestag_char/prepare-new.py:40-42 | the title `1. - 19. Wahlperiode` gives the bucket `1_-_19_Wahlperiode` |
| Periods.RangeSanitize | data/bundestag_char/prepare-new.py:42 | the sanitized form of a range title, piece by piece |
| Storage.Ancestors | data/bundestag_char/prepare-new.py:18 | the parents `makedirs` creates are strictly shorter than the path |
| Storage.AncestorsArePrefixes | data/bundestag_char/prepare-new.py:18 | the parents are exactly the non-empty prefixes of the path that stop just before a `/` |
| Storage.EnsureDir | data/bundestag_char/prepare-new.py:15-18 | a missing path appears together with its parents; an existing one changes nothing; file contents are untouched |
| Storage.EnsureDirIdempotent | data/bundestag_char/prepare-new.py:15-18 | ensuring a directory twice is ensuring it once, and the directory then exists |
| Storage.ConcatSnoc | data/bundestag_char/prepare-new.py:28-30 | one more chunk extends the written bytes by exactly that chunk |
| Storage.Concat | data/bundestag_char/prepare-new.py:27-30 | the bytes the file receives: the chunks written one after the other (characterised by `ConcatSnoc` and `ConcatLength`) |
| Storage.TotalLength | data/bundestag_char/prepare-new.py:31 | the byte count the progress bar accumulates: the sum of the chunk lengths |
| Storage.ConcatLength | data/bundestag_char/prepare-new.py:31 | the byte count of the written data is the sum of the chunk lengths |
| Storage.Download | data/bundestag_char/prepare-new.py:20-31 | a refused request changes nothing; otherwise the file exists and holds every chunk that arrived, also when the stream broke; it returns normally exactly when the stream did not break |
| Storage.Disk.CreateDirectory | data/bundestag_char/prepare-new.py:15-18 | the disk's new state is `EnsureDir` of the old one |
| Storage.Disk.DownloadFile | data/bundestag_char/prepare-new.py:20-31 | the chunk loop leaves the disk in the state `Download` describes, and the progress count equals the file's length and the sum of the chunk lengths |
| Crawler.ResolveUrl | data/bundestag_char/prepare-new.py:75 | the URL starts with `http` and ends with the `href`; it is the `href` itself exactly when the `href` starts with `http`, and otherwise the base URL prepended |
| Crawler.IsDocument | data/bundestag_char/prepare-new.py:68 | a link is handled only when its `href` ends in `.xml` or `.zip` |
| Crawler.JoinPath | data/bundestag_char/prepare-new.py:71 | `os.path.join` of a directory and a name not starting with `/`: the two joined by one `/` |
| Crawler.PeriodDir | data/bundestag_char/prepare-new.py:70-71 | the bucket directory: `bundestag_plenarprotokolle/<bucket>` |
| Crawler.FileName | data/bundestag_char/prepare-new.py:76 | the basename of the `href` |
| Crawler.TargetPath | data/bundestag_char/prepare-new.py:71-77 | the target file: `bundestag_plenarprotokolle/<bucket>/<basename(href)>` |
| Crawler.DownloadDirHasNoSlash | data/bundestag_char/prepare-new.py:13 | the download root is a single non-empty path segment |
| Crawler.JoinTwiceInjective | data/bundestag_char/prepare-new.py:71-77 | `d/a/x` equals `d/b/y` for slash-free segments exactly when `a == b` and `x == y` |
| Crawler.TargetPathInjective | data/bundestag_char/prepare-new.py:70-77 | two links share a target exactly when they share bucket and basename |
| Crawler.AncestorsOfChild | data/bundestag_char/prepare-new.py:56-72 | making the root creates no parent, and making a bucket directory creates only the root |
| Crawler.Step | data/bundestag_char/prepare-new.py:66-90 | handling one link never removes a path |
| Crawler.StepCases | data/bundestag_char/prepare-new.py:66-90 | the result of handling one link in each of its three cases: ignored, skipped, downloaded |
| Crawler.StepIgnores | data/bundestag_char/prepare-new.py:68 | a link is ignored, with no trace, if and only if it does not end in `.xml` or `.zip` |
| Crawler.StepSkips | data/bundestag_char/prepare-new.py:79-82 | a document is skipped if and only if its target exists, and then only its directory is ensured |
| Crawler.StepDownloads | data/bundestag_char/prepare-new.py:74-90 | a document is downloaded if and only if its target does not exist: from the resolved URL into the target; reported fetched exactly when the stream did not break |
| Crawler.StepTargets | data/bundestag_char/prepare-new.py:72-90 | after a document's step its directory exists, and its target exists unless the download was refused |
| Crawler.FreshTarget | data/bundestag_char/prepare-new.py:72-80 | ensuring the bucket directory never makes the target appear |
| Crawler.Loop | data/bundestag_char/prepare-new.py:66 | the loop reports once per link handled |
| Crawler.LoopPrefix | data/bundestag_char/prepare-new.py:66-90 | the reports of the first `k` links do not depend on the links after them |
| Crawler.LoopEvent | data/bundestag_char/prepare-new.py:66-90 | link `k` is handled by the loop body in the state the earlier links left |
| Crawler.LoopKeeps | data/bundestag_char/prepare-new.py:66-90 | a body that never removes or rewrites anything gives a loop that does not either |
| Crawler.LoopInside | data/bundestag_char/prepare-new.py:66-90 | a body that creates only paths inside the root gives a loop that does too |
| Crawler.LoopQuiet | data/bundestag_char/prepare-new.py:66-90 | a state on which no link needs work is a fixed point of the loop, and nothing is downloaded |
| Crawler.StepKeeps | data/bundestag_char/prepare-new.py:79-90 | a step never removes a path and never rewrites an existing file |
| Crawler.StepWrites | data/bundestag_char/prepare-new.py:86-87 | a download that received a body leaves the target holding exactly that body |
| Crawler.ChildrenInside | data/bundestag_char/prepare-new.py:71-77 | the bucket directory and the target lie under the root |
| Crawler.StepStaysInside | data/bundestag_char/prepare-new.py:56-77 | every path a step creates is the root or lies under it |
| Crawler.Crawl | data/bundestag_char/prepare-new.py:53-90 | the root always exists afterwards and nothing is removed or rewritten; the run completes exactly when the listing was reachable, with one report per link |
| Crawler.Scrape | data/bundestag_char/prepare-new.py:53-90 | the loop over the disk ends in exactly the state and reports of `Crawl` |
| Crawler.EachLinkIsHandled | data/bundestag_char/prepare-new.py:86-90 | every link is handled by the same step rule in the state the earlier links left, so a failed download does not stop the crawl |
| Crawler.WrittenFileIsFinal | data/bundestag_char/prepare-new.py:86-90 | a file written during the crawl ends holding exactly the bytes that arrived for it, even when the stream broke |
| Crawler.TargetsAfterCrawl | data/bundestag_char/prepare-new.py:72-90 | after the crawl every document's directory exists, and its target exists unless its download was refused |
| Crawler.RerunRetriesOnlyRefused | data/bundestag_char/prepare-new.py:79-90 | in a second run over the same listing, only links whose first download was refused are downloaded again; fetched and truncated files are skipped |
| Crawler.SecondRunIsQuiet | data/bundestag_char/prepare-new.py:79-82 | with no refused download in the first run, a second run changes nothing and downloads nothing |
| Crawler.CrawlStaysInside | data/bundestag_char/prepare-new.py:56-77 | every path the crawl creates is `bundestag_plenarprotokolle` or lies under it |

## Left out

- HTML parsing left out: the listing arrives as a sequence of links. For each link the model has its `href` and the text of `h2.bt-collapse-title` in its nearest `div.bt-collapse` (`None` when either is missing).
- HTTP left out: a request is only its outcome.
  - In the model, the listing is reachable or not; this covers `raise_for_status` at line 60.
  - A download is refused or streamed.
  - Status codes, headers, redirects and timeouts are not modelled.
- `download_file` never checks the status code, so an error page's body is written like any other. The model agrees, because a stream is only its bytes.
- Every exception raised before the file is opened counts as `Refused`:
  - `requests.get` failing;
  - an unparsable `content-length`;
  - `open` failing.
- Each link's download answer is indexed by its position in the listing, not by its URL. Two links with one URL can therefore get different answers, as two separate requests can.
- The `tqdm` progress bar and its total are left out (`content-length`, line 23). Only the byte count that feeds it is kept.
- The `print` messages are replaced by the report of each link (`Event`).
- `time.sleep(1)` after each download, and the top-level handler (lines 92-97), are left out. The handler shows up only as `Crawl`'s `completed` flag.
- `Storage.Disk.DownloadFile` has no URL parameter. Its `Response` is the answer the URL gave.
- `\d` is modelled as ASCII digits only. Python also accepts other Unicode decimal digits.
- Files and directories are not distinguished: `paths` is everything that exists.
  - `os.makedirs` and `open` do not fail in the model: no permission errors, and no file sitting where a directory is needed.
  - `/`-separated POSIX paths are assumed.
- Directory creation errors: the source calls `create_directory` for a bucket (line 72) outside the per-link `try`. An error there ends the whole crawl, not just that link. Per-link recovery covers only the download (lines 86-90). Since the model cannot fail to create a directory, it does not show this.

## Findings

The proofs found no discrepancy in the modelled behaviour. One behaviour worth knowing follows from `RerunRetriesOnlyRefused`:

- a download whose stream broke midway leaves a truncated file;
- that file counts as already downloaded in every later run.
