/** The scraper's view of the local filesystem, and its two operations on it:
    making a directory (with its missing parents) and writing a streamed
    download into a file. */
module Storage {

  newtype byte = x: int | 0 <= x < 256

  /** Everything that exists (what `os.path.exists` answers `True` for) and the
      bytes of the files the scraper wrote. */
  datatype FsState = FsState(paths: set<string>, contents: map<string, seq<byte>>)

  /** The directories `os.makedirs(p)` creates besides `p` itself: each prefix of
      `p` that stops just before a `/`. */
  function Ancestors(p: string): (a: set<string>)
    ensures forall q :: q in a ==> |q| < |p|
  {
    set k | 0 < k < |p| && p[k] == '/' :: p[..k]
  }

  /** The parents are exactly the non-empty prefixes of `p` followed by a `/`. */
  lemma AncestorsArePrefixes(p: string)
    ensures forall q :: q in Ancestors(p) ==> 0 < |q| < |p| && q == p[..|q|] && p[|q|] == '/'
    ensures forall k :: 0 < k < |p| && p[k] == '/' ==> p[..k] in Ancestors(p)
  {
  }

  /** `create_directory`: when `p` is missing, `p` and its missing parents appear;
      otherwise nothing happens. Files are untouched. */
  function EnsureDir(fs: FsState, p: string): (fs': FsState)
    ensures fs'.paths == fs.paths + (if p in fs.paths then {} else {p} + Ancestors(p))
    ensures fs'.contents == fs.contents
  {
    if p in fs.paths then fs else fs.(paths := fs.paths + {p} + Ancestors(p))
  }

  /** Ensuring a directory twice is ensuring it once. */
  lemma EnsureDirIdempotent(fs: FsState, p: string)
    ensures EnsureDir(EnsureDir(fs, p), p) == EnsureDir(fs, p)
    ensures p in EnsureDir(fs, p).paths
  {
  }

  /** The server's answer to one download, as the scraper experiences it. */
  datatype Response =
      /** The download raised before the file was opened: `requests.get` failed,
          `content-length` was not a number, or `open` failed. */
    | Refused
      /** The body arrived as these chunks; `broken` when the stream then raised. */
    | Streamed(chunks: seq<seq<byte>>, broken: bool)

  /** The chunks one after the other. */
  function Concat(cs: seq<seq<byte>>): seq<byte>
  {
    if cs == [] then [] else Concat(cs[..|cs| - 1]) + cs[|cs| - 1]
  }

  /** One more chunk extends the concatenation by exactly that chunk. */
  lemma ConcatSnoc(cs: seq<seq<byte>>, i: nat)
    requires i < |cs|
    ensures Concat(cs[..i + 1]) == Concat(cs[..i]) + cs[i]
  {
    assert cs[..i + 1][..i] == cs[..i];
  }

  lemma {:induction false} ConcatLength(cs: seq<seq<byte>>)
    ensures |Concat(cs)| == TotalLength(cs)
  {
    if cs != [] { ConcatLength(cs[..|cs| - 1]); }
  }

  function TotalLength(cs: seq<seq<byte>>): nat
  {
    if cs == [] then 0 else TotalLength(cs[..|cs| - 1]) + |cs[|cs| - 1]|
  }

  /** `download_file`: the new state and whether it returned normally. An opened
      file holds every byte that arrived, also when the stream broke. */
  function Download(fs: FsState, path: string, r: Response): (res: (FsState, bool))
    ensures res.1 == (r.Streamed? && !r.broken)
    ensures r.Refused? ==> res.0 == fs
    ensures r.Streamed? ==> res.0.paths == fs.paths + {path}
    ensures r.Streamed? ==> res.0.contents == fs.contents[path := Concat(r.chunks)]
  {
    match r
    case Refused => (fs, false)
    case Streamed(chunks, broken) =>
      (FsState(fs.paths + {path}, fs.contents[path := Concat(chunks)]), !broken)
  }

  /** The filesystem the scraper runs against. */
  class Disk {
    var paths: set<string>
    var contents: map<string, seq<byte>>

    function State(): FsState
      reads this
    {
      FsState(paths, contents)
    }

    constructor (fs: FsState)
      ensures State() == fs
    {
      paths, contents := fs.paths, fs.contents;
    }

    method CreateDirectory(path: string)
      modifies this
      ensures State() == EnsureDir(old(State()), path)
    {
      if path !in paths {
        paths := paths + {path} + Ancestors(path);
      }
    }

    /** Opens `path` for writing (truncating it), then writes each non-empty
        chunk in order and counts the bytes for the progress bar. */
    method DownloadFile(path: string, response: Response) returns (ok: bool, progress: nat)
      modifies this
      ensures (State(), ok) == Download(old(State()), path, response)
      ensures response.Streamed? ==> progress == |contents[path]| == TotalLength(response.chunks)
    {
      match response
      case Refused =>
        ok, progress := false, 0;
      case Streamed(chunks, broken) =>
        paths := paths + {path};
        contents := contents[path := []];
        progress := 0;
        var i := 0;
        while i < |chunks|
          invariant 0 <= i <= |chunks|
          invariant paths == old(paths) + {path}
          invariant contents == old(contents)[path := Concat(chunks[..i])]
          invariant progress == |contents[path]|
        {
          var chunk := chunks[i];
          ConcatSnoc(chunks, i);
          if |chunk| > 0 {
            contents := contents[path := contents[path] + chunk];
            progress := progress + |chunk|;
          } else {
            assert contents[path] + chunk == contents[path];
          }
          i := i + 1;
        }
        assert chunks[..i] == chunks;
        ConcatLength(chunks);
        ok := !broken;
    }
  }
}
