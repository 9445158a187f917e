/** The crawl over the open-data listing: for each document link, pick the
    legislative-period directory, create it, and download the file unless its
    target already exists; a failed download is reported and the crawl goes on. */
module Crawler {
  import opened Text
  import opened Periods
  import opened Storage

  const BaseUrl: string := "https://www.bundestag.de"
  const DownloadDir: string := "bundestag_plenarprotokolle"

  /** One `a.bt-link-dokument` anchor of the listing: its `href` and the text of
      the title of its enclosing collapsible section, when it has one. */
  datatype Link = Link(href: string, title: Option<string>)

  /** The listing page: it could not be fetched (or answered with an HTTP error),
      or it yielded these links in document order. */
  datatype Listing = Unreachable | Page(links: seq<Link>)

  /** The answer the server gives to the download of the link at each position. */
  type Network = nat -> Response

  /** What the crawl reports for one link. */
  datatype Event =
    | Ignored
    | Skipped(path: string)
    | Fetched(url: string, path: string)
    | FetchFailed(url: string, path: string)

  predicate IsAttempt(e: Event) {
    e.Fetched? || e.FetchFailed?
  }

  /** Only `.xml` and `.zip` links are documents. */
  predicate IsDocument(href: string) {
    EndsWith(href, ".xml") || EndsWith(href, ".zip")
  }

  /** The absolute download URL of a link. */
  function ResolveUrl(href: string): (url: string)
    ensures StartsWith(url, "http") && EndsWith(url, href)
    ensures url == href <==> StartsWith(href, "http")
    ensures url != href ==> url == BaseUrl + href
  {
    if StartsWith(href, "http") then href
    else
      assert (BaseUrl + href)[..4] == BaseUrl[..4];
      BaseUrl + href
  }

  /** `os.path.join` of a directory and a name that contains no `/` and is not empty. */
  function JoinPath(dir: string, name: string): string {
    dir + "/" + name
  }

  function PeriodDir(link: Link): string {
    JoinPath(DownloadDir, Bucket(link.title, link.href))
  }

  /** `os.path.basename` of the link. */
  function FileName(link: Link): string {
    LastSegment(link.href)
  }

  function TargetPath(link: Link): string {
    JoinPath(PeriodDir(link), FileName(link))
  }

  lemma DownloadDirHasNoSlash()
    ensures DownloadDir != [] && '/' !in DownloadDir
  {
  }

  /** In `p/x` with a slash-free `x`, the last segment starts right after the joining `/`. */
  lemma {:induction false} SegmentStartOfJoin(p: string, x: string, e: nat)
    requires '/' !in x && |p| + 1 <= e <= |p| + 1 + |x|
    ensures SegmentStart(JoinPath(p, x), e) == |p| + 1
    decreases e
  {
    if e > |p| + 1 {
      assert JoinPath(p, x)[e - 1] == x[e - |p| - 2];
      SegmentStartOfJoin(p, x, e - 1);
    }
  }

  /** `d/a/x == d/b/y` for slash-free `a`, `b`, `x`, `y` only when `a == b` and `x == y`. */
  lemma {:induction false} JoinTwiceInjective(d: string, a: string, x: string, b: string, y: string)
    requires '/' !in a && '/' !in b && '/' !in x && '/' !in y
    ensures JoinPath(JoinPath(d, a), x) == JoinPath(JoinPath(d, b), y) <==> a == b && x == y
  {
    var s, t := JoinPath(JoinPath(d, a), x), JoinPath(JoinPath(d, b), y);
    if s == t {
      SegmentStartOfJoin(JoinPath(d, a), x, |s|);
      SegmentStartOfJoin(JoinPath(d, b), y, |t|);
      SegmentStartOfJoin(d, a, |d| + 1 + |a|);
      SegmentStartOfJoin(d, b, |d| + 1 + |b|);
      assert JoinPath(d, a) == s[..|s| - |x| - 1] == JoinPath(d, b);
      assert a == s[|d| + 1..|d| + 1 + |a|] == b;
      assert x == s[|d| + 2 + |a|..] == y;
    }
  }

  /** Two links share a target file exactly when they share both the period
      directory and the file name. */
  lemma TargetPathInjective(l1: Link, l2: Link)
    ensures TargetPath(l1) == TargetPath(l2) <==>
      Bucket(l1.title, l1.href) == Bucket(l2.title, l2.href) && FileName(l1) == FileName(l2)
  {
    JoinTwiceInjective(DownloadDir, Bucket(l1.title, l1.href), FileName(l1), Bucket(l2.title, l2.href), FileName(l2));
  }

  /** The parents `makedirs` creates for a period directory: only the download root. */
  lemma {:induction false} AncestorsOfChild(d: string, b: string)
    requires d != [] && '/' !in d && '/' !in b
    ensures Ancestors(d) == {}
    ensures Ancestors(JoinPath(d, b)) == {d}
  {
    var p := JoinPath(d, b);
    forall q | q in Ancestors(p) ensures q == d {
      var k :| 0 < k < |p| && p[k] == '/' && q == p[..k];
      assert k == |d|;
    }
    assert p[|d|] == '/' && p[..|d|] == d;
    assert d in Ancestors(p);
  }

  /** One pass of the loop body: ignore a non-document; otherwise make sure its
      period directory exists, skip it when its target already exists, and else
      download it, recording a failure without stopping. */
  function Step(fs: FsState, link: Link, r: Response): (res: (FsState, Event))
    ensures fs.paths <= res.0.paths
  {
    if !IsDocument(link.href) then (fs, Ignored)
    else
      var dir := PeriodDir(link);
      var fs1 := EnsureDir(fs, dir);
      var path := TargetPath(link);
      if path in fs1.paths then (fs1, Skipped(path))
      else
        var (fs2, ok) := Download(fs1, path, r);
        var url := ResolveUrl(link.href);
        (fs2, if ok then Fetched(url, path) else FetchFailed(url, path))
  }

  /** The three cases of the step, each pinned to its result. */
  lemma StepCases(fs: FsState, link: Link, r: Response)
    ensures !IsDocument(link.href) ==> Step(fs, link, r) == (fs, Ignored)
    ensures IsDocument(link.href) && TargetPath(link) in fs.paths ==>
      Step(fs, link, r) == (EnsureDir(fs, PeriodDir(link)), Skipped(TargetPath(link)))
    ensures IsDocument(link.href) && TargetPath(link) !in fs.paths ==>
      var d := Download(EnsureDir(fs, PeriodDir(link)), TargetPath(link), r);
      Step(fs, link, r) == (d.0, if d.1 then Fetched(ResolveUrl(link.href), TargetPath(link))
                                 else FetchFailed(ResolveUrl(link.href), TargetPath(link)))
  {
    if IsDocument(link.href) {
      FreshTarget(fs, link);
      var fs1 := EnsureDir(fs, PeriodDir(link));
      var path := TargetPath(link);
      if path in fs1.paths {
        assert Step(fs, link, r) == (fs1, Skipped(path));
      } else {
        var d := Download(fs1, path, r);
        var url := ResolveUrl(link.href);
        assert Step(fs, link, r) == (d.0, if d.1 then Fetched(url, path) else FetchFailed(url, path));
      }
    }
  }

  /** Only documents are looked at; anything else leaves no trace. */
  lemma StepIgnores(fs: FsState, link: Link, r: Response)
    ensures Step(fs, link, r).1 == Ignored <==> !IsDocument(link.href)
    ensures !IsDocument(link.href) ==> Step(fs, link, r).0 == fs
  {
    StepCases(fs, link, r);
  }

  /** A document whose target exists is skipped: only its directory is ensured. */
  lemma StepSkips(fs: FsState, link: Link, r: Response)
    ensures Step(fs, link, r).1.Skipped? <==> IsDocument(link.href) && TargetPath(link) in fs.paths
    ensures Step(fs, link, r).1.Skipped? ==>
      Step(fs, link, r) == (EnsureDir(fs, PeriodDir(link)), Skipped(TargetPath(link)))
  {
    StepCases(fs, link, r);
  }

  /** Any other document is downloaded from its resolved URL into its target;
      the report says whether the download returned normally. */
  lemma StepDownloads(fs: FsState, link: Link, r: Response)
    ensures IsAttempt(Step(fs, link, r).1) <==> IsDocument(link.href) && TargetPath(link) !in fs.paths
    ensures IsAttempt(Step(fs, link, r).1) ==>
      && Step(fs, link, r).1.url == ResolveUrl(link.href)
      && Step(fs, link, r).1.path == TargetPath(link)
      && Step(fs, link, r).0 == Download(EnsureDir(fs, PeriodDir(link)), TargetPath(link), r).0
      && (Step(fs, link, r).1.Fetched? <==> r.Streamed? && !r.broken)
  {
    StepCases(fs, link, r);
  }

  /** After a document's step its directory exists, and so does its target unless
      the download was refused outright. */
  lemma StepTargets(fs: FsState, link: Link, r: Response)
    requires IsDocument(link.href)
    ensures PeriodDir(link) in Step(fs, link, r).0.paths
    ensures TargetPath(link) in Step(fs, link, r).0.paths <==> !(Step(fs, link, r).1.FetchFailed? && r.Refused?)
  {
    StepCases(fs, link, r);
    FreshTarget(fs, link);
  }

  /** Making the period directory never makes the target file appear. */
  lemma FreshTarget(fs: FsState, link: Link)
    ensures TargetPath(link) in EnsureDir(fs, PeriodDir(link)).paths <==> TargetPath(link) in fs.paths
  {
    var dir := PeriodDir(link);
    assert |TargetPath(link)| > |dir|;
  }

  /** The state and the report after the loop has handled `links[..n]`. */
  datatype Run = Run(fs: FsState, log: seq<Event>)

  /** What the loop does with one link and the server's answer to it. */
  type LoopBody = (FsState, Link, Response) -> (FsState, Event)

  /** The `for` loop over `links[..n]`, every link handled by `body` in the state
      the links before it left; the answer to link `k` is `net(k)`. */
  function Loop(body: LoopBody, fs: FsState, links: seq<Link>, net: Network, n: nat): (r: Run)
    requires n <= |links|
    ensures |r.log| == n
    decreases n
  {
    if n == 0 then Run(fs, [])
    else
      var prev := Loop(body, fs, links, net, n - 1);
      var (fs', e) := body(prev.fs, links[n - 1], net(n - 1));
      Run(fs', prev.log + [e])
  }

  /** Stopping the loop after `k` links gives the first `k` reports. */
  lemma {:induction false} LoopPrefix(body: LoopBody, fs: FsState, links: seq<Link>, net: Network, k: nat, n: nat)
    requires k <= n <= |links|
    ensures Loop(body, fs, links, net, n).log[..k] == Loop(body, fs, links, net, k).log
    decreases n
  {
    if k < n {
      LoopPrefix(body, fs, links, net, k, n - 1);
      assert Loop(body, fs, links, net, n).log[..n - 1] == Loop(body, fs, links, net, n - 1).log;
    }
  }

  /** Every link is handled by the same body, whatever happened to the links
      before it. */
  lemma LoopEvent(body: LoopBody, fs: FsState, links: seq<Link>, net: Network, k: nat, n: nat)
    requires k < n <= |links|
    ensures Loop(body, fs, links, net, n).log[k] == body(Loop(body, fs, links, net, k).fs, links[k], net(k)).1
    ensures Loop(body, fs, links, net, k + 1).fs == body(Loop(body, fs, links, net, k).fs, links[k], net(k)).0
  {
    LoopPrefix(body, fs, links, net, k + 1, n);
  }

  /** `fs'` keeps every object of `fs`: nothing disappears and no existing
      file's bytes change. */
  predicate Keeps(fs: FsState, fs': FsState) {
    && fs.paths <= fs'.paths
    && forall p :: p in fs.paths ==>
         (p in fs'.contents <==> p in fs.contents) && (p in fs.contents ==> fs'.contents[p] == fs.contents[p])
  }

  /** A body that keeps everything makes a loop that keeps everything. */
  lemma {:induction false} LoopKeeps(body: LoopBody, fs: FsState, links: seq<Link>, net: Network, k: nat, n: nat)
    requires k <= n <= |links|
    requires forall s, l, r :: Keeps(s, body(s, l, r).0)
    ensures Keeps(Loop(body, fs, links, net, k).fs, Loop(body, fs, links, net, n).fs)
    decreases n
  {
    if k < n {
      LoopKeeps(body, fs, links, net, k, n - 1);
    }
  }

  /** Everything the crawl creates lies in the download directory. */
  predicate Inside(p: string) {
    p == DownloadDir || StartsWith(p, DownloadDir + "/")
  }

  /** A body that creates only paths inside makes a loop that does. */
  lemma {:induction false} LoopInside(body: LoopBody, fs: FsState, links: seq<Link>, net: Network, n: nat)
    requires n <= |links|
    requires forall s, l, r, p :: p in body(s, l, r).0.paths && p !in s.paths ==> Inside(p)
    ensures forall p :: p in Loop(body, fs, links, net, n).fs.paths && p !in fs.paths ==> Inside(p)
    decreases n
  {
    if n > 0 {
      LoopInside(body, fs, links, net, n - 1);
    }
  }

  /** A state on which the body does nothing for any of the links stays as it is. */
  lemma {:induction false} LoopQuiet(body: LoopBody, g: FsState, links: seq<Link>, net: Network, n: nat)
    requires n <= |links|
    requires forall k :: 0 <= k < |links| ==>
      body(g, links[k], net(k)).0 == g && !IsAttempt(body(g, links[k], net(k)).1)
    ensures Loop(body, g, links, net, n).fs == g
    ensures forall k :: 0 <= k < n ==> !IsAttempt(Loop(body, g, links, net, n).log[k])
    decreases n
  {
    if n > 0 {
      LoopQuiet(body, g, links, net, n - 1);
    }
  }

  /** A step writes only a target that did not exist. */
  lemma StepKeeps()
    ensures forall fs, link, r :: Keeps(fs, Step(fs, link, r).0)
  {
    forall fs, link, r ensures Keeps(fs, Step(fs, link, r).0) {
      StepDownloads(fs, link, r);
    }
  }

  /** A download that got a body leaves its target holding that body. */
  lemma StepWrites(fs: FsState, link: Link, r: Response)
    requires IsAttempt(Step(fs, link, r).1) && r.Streamed?
    ensures TargetPath(link) in Step(fs, link, r).0.contents
    ensures Step(fs, link, r).0.contents[TargetPath(link)] == Concat(r.chunks)
  {
    StepDownloads(fs, link, r);
  }

  /** The directory `d/b`, its parents other than `d`, and a file `d/b/x` all lie under `d`. */
  lemma {:induction false} ChildrenInside(d: string, b: string, x: string)
    requires d != [] && '/' !in d && '/' !in b
    ensures StartsWith(JoinPath(d, b), d + "/")
    ensures StartsWith(JoinPath(JoinPath(d, b), x), d + "/")
    ensures Ancestors(JoinPath(d, b)) == {d}
  {
    AncestorsOfChild(d, b);
    assert JoinPath(JoinPath(d, b), x) == d + "/" + (b + "/" + x);
  }

  /** A step creates nothing outside the download directory. */
  lemma StepStaysInside(fs: FsState, link: Link, r: Response, p: string)
    requires p in Step(fs, link, r).0.paths && p !in fs.paths
    ensures Inside(p)
  {
    DownloadDirHasNoSlash();
    var dir := PeriodDir(link);
    ChildrenInside(DownloadDir, Bucket(link.title, link.href), FileName(link));
    assert Step(fs, link, r).0.paths <= EnsureDir(fs, dir).paths + {TargetPath(link)};
    assert p == TargetPath(link) || p == dir || p in Ancestors(dir);
  }

  /** How a whole run ends: the final state, the report, and whether the listing
      was fetched (otherwise the error reaches the top-level handler). */
  datatype Outcome = Outcome(fs: FsState, log: seq<Event>, completed: bool)

  /** `scrape_plenarprotokolle`: make the download root, fetch the listing, then
      run the loop over its links. */
  function Crawl(fs: FsState, listing: Listing, net: Network): (o: Outcome)
    ensures DownloadDir in o.fs.paths && Keeps(fs, o.fs)
    ensures o.completed <==> listing.Page?
    ensures listing.Page? ==> |o.log| == |listing.links|
    ensures listing.Unreachable? ==> o.log == [] && o.fs == EnsureDir(fs, DownloadDir)
  {
    var fs0 := EnsureDir(fs, DownloadDir);
    match listing
    case Unreachable => Outcome(fs0, [], false)
    case Page(links) =>
      var r := Loop(Step, fs0, links, net, |links|);
      StepKeeps();
      LoopKeeps(Step, fs0, links, net, 0, |links|);
      Outcome(r.fs, r.log, true)
  }

  /** The state in which the crawl reaches link `k` of the listing. */
  function Before(fs: FsState, links: seq<Link>, net: Network, k: nat): FsState
    requires k <= |links|
  {
    Loop(Step, EnsureDir(fs, DownloadDir), links, net, k).fs
  }

  /** `scrape_plenarprotokolle` against a disk. */
  method Scrape(disk: Disk, listing: Listing, net: Network) returns (log: seq<Event>, completed: bool)
    modifies disk
    ensures Outcome(disk.State(), log, completed) == Crawl(old(disk.State()), listing, net)
  {
    disk.CreateDirectory(DownloadDir);
    log := [];
    if listing.Unreachable? {
      return log, false;
    }
    var links := listing.links;
    ghost var start := disk.State();
    for k := 0 to |links|
      invariant Run(disk.State(), log) == Loop(Step, start, links, net, k)
    {
      var link := links[k];
      var href := link.href;
      if !IsDocument(href) {
        log := log + [Ignored];
        continue;
      }
      var dir := JoinPath(DownloadDir, Bucket(link.title, href));
      disk.CreateDirectory(dir);
      var url := ResolveUrl(href);
      var path := JoinPath(dir, LastSegment(href));
      if path in disk.paths {
        log := log + [Skipped(path)];
        continue;
      }
      var ok, progress := disk.DownloadFile(path, net(k));
      log := log + [if ok then Fetched(url, path) else FetchFailed(url, path)];
    }
    completed := true;
  }

  /** Each link is handled by the step rule in the state the earlier links left,
      so a failed download never ends the crawl or changes how later links are
      handled. */
  lemma EachLinkIsHandled(fs: FsState, links: seq<Link>, net: Network, k: nat)
    requires k < |links|
    ensures Crawl(fs, Page(links), net).log[k] == Step(Before(fs, links, net, k), links[k], net(k)).1
    ensures Before(fs, links, net, k + 1) == Step(Before(fs, links, net, k), links[k], net(k)).0
  {
    LoopEvent(Step, EnsureDir(fs, DownloadDir), links, net, k, |links|);
  }

  /** A file the crawl writes ends up holding exactly the bytes that arrived for
      it, also when the stream broke: a truncated file is kept as it is. */
  lemma WrittenFileIsFinal(fs: FsState, links: seq<Link>, net: Network, k: nat)
    requires k < |links|
    requires IsAttempt(Crawl(fs, Page(links), net).log[k]) && net(k).Streamed?
    ensures TargetPath(links[k]) in Crawl(fs, Page(links), net).fs.contents
    ensures Crawl(fs, Page(links), net).fs.contents[TargetPath(links[k])] == Concat(net(k).chunks)
  {
    EachLinkIsHandled(fs, links, net, k);
    StepWrites(Before(fs, links, net, k), links[k], net(k));
    StepTargets(Before(fs, links, net, k), links[k], net(k));
    StepKeeps();
    LoopKeeps(Step, EnsureDir(fs, DownloadDir), links, net, k + 1, |links|);
  }

  /** After the crawl, every document's period directory exists, and so does its
      target unless its download was refused outright. */
  lemma TargetsAfterCrawl(fs: FsState, links: seq<Link>, net: Network, k: nat)
    requires k < |links| && IsDocument(links[k].href)
    ensures PeriodDir(links[k]) in Crawl(fs, Page(links), net).fs.paths
    ensures !(Crawl(fs, Page(links), net).log[k].FetchFailed? && net(k).Refused?) ==>
      TargetPath(links[k]) in Crawl(fs, Page(links), net).fs.paths
  {
    EachLinkIsHandled(fs, links, net, k);
    StepTargets(Before(fs, links, net, k), links[k], net(k));
    StepKeeps();
    LoopKeeps(Step, EnsureDir(fs, DownloadDir), links, net, k + 1, |links|);
  }

  /** Running the crawl again over the same listing downloads only the documents
      whose first download was refused outright: a skipped, fetched or
      truncated file is never fetched a second time. */
  lemma RerunRetriesOnlyRefused(fs: FsState, links: seq<Link>, net1: Network, net2: Network, k: nat)
    requires k < |links|
    requires IsAttempt(Crawl(Crawl(fs, Page(links), net1).fs, Page(links), net2).log[k])
    ensures Crawl(fs, Page(links), net1).log[k].FetchFailed? && net1(k).Refused?
  {
    var o1 := Crawl(fs, Page(links), net1);
    assert EnsureDir(o1.fs, DownloadDir) == o1.fs;
    EachLinkIsHandled(o1.fs, links, net2, k);
    StepDownloads(Before(o1.fs, links, net2, k), links[k], net2(k));
    StepKeeps();
    LoopKeeps(Step, o1.fs, links, net2, 0, k);
    TargetsAfterCrawl(fs, links, net1, k);
  }

  /** When no download of the first run was refused, a second run over the same
      listing changes nothing and only skips or ignores: the crawl is idempotent. */
  lemma SecondRunIsQuiet(fs: FsState, links: seq<Link>, net1: Network, net2: Network)
    requires forall k :: 0 <= k < |links| ==>
      !(Crawl(fs, Page(links), net1).log[k].FetchFailed? && net1(k).Refused?)
    ensures Crawl(Crawl(fs, Page(links), net1).fs, Page(links), net2).fs == Crawl(fs, Page(links), net1).fs
    ensures forall k :: 0 <= k < |links| ==>
      !IsAttempt(Crawl(Crawl(fs, Page(links), net1).fs, Page(links), net2).log[k])
  {
    var o1 := Crawl(fs, Page(links), net1);
    forall k | 0 <= k < |links|
      ensures Step(o1.fs, links[k], net2(k)).0 == o1.fs && !IsAttempt(Step(o1.fs, links[k], net2(k)).1)
    {
      StepIgnores(o1.fs, links[k], net2(k));
      if IsDocument(links[k].href) {
        TargetsAfterCrawl(fs, links, net1, k);
        StepSkips(o1.fs, links[k], net2(k));
      }
    }
    assert EnsureDir(o1.fs, DownloadDir) == o1.fs;
    LoopQuiet(Step, o1.fs, links, net2, |links|);
  }

  /** Everything a crawl creates lies in the download directory. */
  lemma CrawlStaysInside(fs: FsState, listing: Listing, net: Network)
    ensures forall p :: p in Crawl(fs, listing, net).fs.paths && p !in fs.paths ==> Inside(p)
  {
    DownloadDirHasNoSlash();
    AncestorsOfChild(DownloadDir, []);
    if listing.Page? {
      forall s, l, r, p | p in Step(s, l, r).0.paths && p !in s.paths ensures Inside(p) {
        StepStaysInside(s, l, r, p);
      }
      LoopInside(Step, EnsureDir(fs, DownloadDir), listing.links, net, |listing.links|);
    }
  }
}
