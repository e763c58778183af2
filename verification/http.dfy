/**
 * What the pipeline sees of the remote group API: a request (URL, client
 * certificate pair, timeout) and the response it gets.  The API itself is an
 * oracle `Api` that answers the n-th attempt at a request.
 */
module Http {
  import opened Wrappers
  import opened Exc
  import Strings

  /** One element of the JSON `entry` array; only its `id` is ever read. */
  datatype Entry = Entry(id: Option<string>)

  /** The JSON body: not JSON at all, JSON that is not an object, or an object with or without `entry`. */
  datatype Body = NotJson | NotObject | Object(entry: Option<seq<Entry>>)

  datatype Response = TransportFailure(message: string) | Http(status: int, body: Body)

  datatype Request = Request(url: string, cert: string, key: string, timeout: Option<int>)

  /** The remote API: the response to a request on the given attempt (0 for the first). */
  type Api = (Request, nat) -> Response

  /**
   * `requests.get(...)` followed by `raise_for_status()`: a transport failure
   * or a 4xx/5xx status raises a RequestException; otherwise the body is
   * available.
   */
  function CheckedBody(resp: Response): (r: Result<Body>)
    ensures r.Ok? <==> resp.Http? && !(400 <= resp.status < 600)
    ensures r.Ok? ==> r.value == resp.body
    ensures r.Err? ==> r.error.RequestException?
  {
    match resp
    case TransportFailure(m) => Err(RequestException(m))
    case Http(status, body) =>
      if 400 <= status < 600 then Err(RequestException("HTTPError: " + Strings.NatToString(status)))
      else Ok(body)
  }

  /** A body that is not JSON makes `response.json()` raise requests' JSONDecodeError, a RequestException. */
  const JsonDecodeFailure: PyError := RequestException("JSONDecodeError: Expecting value")

  // ---------------------------------------------------------------------------
  // urljoin
  // ---------------------------------------------------------------------------

  /**
   * The `scheme://netloc` part of a base URL: everything up to the first `/`
   * after the first `://`, the whole base when no `/` follows, and "" when
   * the base has no `://` (a bare path).
   */
  function Authority(base: string): (a: string)
    ensures |a| <= |base| && a == base[..|a|]
    ensures a != "" && |a| < |base| ==> base[|a|] == '/'
  {
    match SchemeEnd(base, 0)
    case None => ""
    case Some(i) => base[..SlashFrom(base, i)]
  }

  /** Just past the first `://` at or after `k`, if there is one. */
  function SchemeEnd(s: string, k: nat): (r: Option<nat>)
    ensures r.Some? ==> k + 3 <= r.value <= |s|
    decreases |s| - k
  {
    if k + 3 > |s| then None
    else if s[k..k + 3] == "://" then Some(k + 3)
    else SchemeEnd(s, k + 1)
  }

  /** The first `/` at or after `k`, or the end of `s`. */
  function SlashFrom(s: string, k: nat): (j: nat)
    requires k <= |s|
    ensures k <= j <= |s|
    ensures j < |s| ==> s[j] == '/'
    decreases |s| - k
  {
    if k == |s| || s[k] == '/' then k else SlashFrom(s, k + 1)
  }

  /** The path part of a base URL. */
  function PathOf(base: string): string {
    base[|Authority(base)|..]
  }

  predicate IsDot(seg: string) {
    seg == "." || seg == ".."
  }

  /** A reference that names one path segment: non-empty, no `/`, not a dot segment. */
  predicate PlainSegment(ref: string) {
    ref != "" && '/' !in ref && !IsDot(ref)
  }

  /** One turn of the resolution loop: `..` pops (nothing when the stack is empty), `.` is skipped, anything else is pushed. */
  function ResolveStep(stack: seq<string>, seg: string): seq<string> {
    if seg == ".." then (if stack == [] then [] else stack[..|stack| - 1])
    else if seg == "." then stack
    else stack + [seg]
  }

  /** The resolution loop over `segs`, front to back: no dot segment survives it. */
  function Resolve(segs: seq<string>): (r: seq<string>)
    ensures |r| <= |segs|
    ensures forall i :: 0 <= i < |r| ==> !IsDot(r[i])
    decreases |segs|
  {
    if segs == [] then [] else ResolveStep(Resolve(segs[..|segs| - 1]), segs[|segs| - 1])
  }

  /** `filter(None, xs)` on strings: the non-empty ones, in order. */
  function NonEmpty(xs: seq<string>): (r: seq<string>)
    ensures forall i :: 0 <= i < |r| ==> r[i] != ""
    decreases |xs|
  {
    if xs == [] then [] else NonEmpty(xs[..|xs| - 1]) + (if xs[|xs| - 1] == "" then [] else [xs[|xs| - 1]])
  }

  /** `segments[1:-1] = filter(None, segments[1:-1])`: empty segments between the first and the last go. */
  function DropInnerEmpty(segs: seq<string>): seq<string> {
    if |segs| <= 2 then segs else [segs[0]] + NonEmpty(segs[1..|segs| - 1]) + [segs[|segs| - 1]]
  }

  /** `bpath.split('/')` without its last piece unless that piece is empty. */
  function BaseParts(bpath: string): seq<string> {
    var parts := Strings.Split(bpath, '/');
    if parts[|parts| - 1] != "" then parts[..|parts| - 1] else parts
  }

  /** The segments to resolve: an absolute-path reference alone, otherwise the base's directory then the reference. */
  function Segments(bpath: string, ref: string): (segs: seq<string>)
    requires ref != ""
    ensures |segs| >= 1
  {
    if ref[0] == '/' then Strings.Split(ref, '/')
    else
      var s := BaseParts(bpath) + Strings.Split(ref, '/');
      DropInnerEmpty(s)
  }

  /** The resolved path: a final dot segment leaves a trailing `/`, and an empty path is `/`. */
  function ResolvedPath(bpath: string, ref: string): (path: string)
    requires ref != ""
    ensures path != ""
  {
    var segs := Segments(bpath, ref);
    var resolved := Resolve(segs) + (if IsDot(segs[|segs| - 1]) then [""] else []);
    var text := Strings.Join(resolved, "/");
    if text == "" then "/" else text
  }

  /**
   * `urljoin(base, ref)` for a base `scheme://netloc/path` or a bare path,
   * and a reference that is a path: an empty side gives the other, and
   * otherwise the reference is resolved against the base's directory, dot
   * segments removed, with the `/` that `urlunparse` puts between a netloc
   * and a relative path.
   */
  function UrlJoin(base: string, ref: string): (url: string)
    ensures base == "" ==> url == ref
    ensures base != "" && ref == "" ==> url == base
  {
    if base == "" then ref
    else if ref == "" then base
    else
      var path := ResolvedPath(PathOf(base), ref);
      Lead(Authority(base), path) + path
  }

  /** What `urlunparse` puts before the path: the authority, and a `/` when a netloc meets a relative path. */
  function Lead(auth: string, path: string): string
    requires path != ""
  {
    if auth != "" && path[0] != '/' then auth + "/" else auth
  }

  /** `..` undoes the segment before it. */
  lemma ResolveParent(segs: seq<string>, seg: string)
    requires !IsDot(seg)
    ensures Resolve(segs + [seg, ".."]) == Resolve(segs)
  {
    var s1 := segs + [seg];
    assert (segs + [seg, ".."])[..|s1|] == s1;
    assert s1[..|segs|] == segs;
  }

  /** Resolution ends with what it resolved last, for a plain segment. */
  lemma ResolveSnoc(segs: seq<string>, seg: string)
    requires !IsDot(seg)
    ensures Resolve(segs + [seg]) == Resolve(segs) + [seg]
  {
    assert (segs + [seg])[..|segs|] == segs;
  }

  /** Segments without dot segments resolve to themselves. */
  lemma {:induction false} ResolveClean(segs: seq<string>)
    requires forall i :: 0 <= i < |segs| ==> !IsDot(segs[i])
    ensures Resolve(segs) == segs
    decreases |segs|
  {
    if segs != [] {
      var front := segs[..|segs| - 1];
      ResolveClean(front);
      ResolveSnoc(front, segs[|segs| - 1]);
      assert front + [segs[|segs| - 1]] == segs;
    }
  }

  /** Non-empty strings pass the filter unchanged, and a trailing empty one is dropped. */
  lemma {:induction false} NonEmptyClean(xs: seq<string>)
    requires forall i :: 0 <= i < |xs| ==> xs[i] != ""
    ensures NonEmpty(xs) == xs
    ensures NonEmpty(xs + [""]) == xs
    decreases |xs|
  {
    assert (xs + [""])[..|xs|] == xs;
    if xs != [] {
      NonEmptyClean(xs[..|xs| - 1]);
      assert xs[..|xs| - 1] + [xs[|xs| - 1]] == xs;
    }
  }

  /** A plain reference is the last segment resolved, after whatever the base's directory resolves to. */
  lemma PlainResolvesLast(bpath: string, ref: string)
    requires PlainSegment(ref)
    ensures var segs := Segments(bpath, ref);
      segs[|segs| - 1] == ref
      && ResolvedPath(bpath, ref) == Strings.Join(Resolve(segs[..|segs| - 1]) + [ref], "/")
  {
    Strings.SplitPrefix(ref, "", '/');
    assert ref + "" == ref;
    assert Strings.Split(ref, '/') == [ref];
    var segs := Segments(bpath, ref);
    var front := segs[..|segs| - 1];
    assert segs[|segs| - 1] == ref;
    assert segs == front + [ref];
    ResolveSnoc(front, ref);
    var resolved := Resolve(segs) + (if IsDot(segs[|segs| - 1]) then [""] else []);
    assert resolved == Resolve(front) + [ref];
    if Resolve(front) != [] {
      Strings.JoinSnoc(Resolve(front), ref, "/");
    }
  }

  /** After any base, a plain reference is what the joined URL ends in: its last segment. */
  lemma UrlJoinLastSegment(base: string, ref: string)
    ensures PlainSegment(ref) ==> Strings.LastSegment(UrlJoin(base, ref)) == ref
  {
    if !PlainSegment(ref) {
    } else if base == "" {
      Strings.LastSegmentOfPlain(ref);
    } else {
      PlainResolvesLast(PathOf(base), ref);
      var segs := Segments(PathOf(base), ref);
      var r := Resolve(segs[..|segs| - 1]);
      var path := ResolvedPath(PathOf(base), ref);
      var lead := Lead(Authority(base), path);
      assert UrlJoin(base, ref) == lead + path;
      assert |lead| > 0 ==> lead[|lead| - 1] == '/' || path[0] == '/';
      if r == [] {
        assert path == ref;
        Strings.LastSegmentAfterDir(lead, ref);
      } else {
        Strings.JoinSnoc(r, ref, "/");
        var d := Strings.Join(r, "/") + "/";
        assert path == d + ref;
        Regroup(lead, d, ref);
        Strings.LastSegmentAfterDir(lead + d, ref);
      }
    }
  }

  /** A base with a netloc and no path: the reference becomes the path's one segment. */
  lemma UrlJoinOntoHost(base: string, ref: string)
    requires base != "" && Authority(base) == base
    requires PlainSegment(ref)
    ensures UrlJoin(base, ref) == base + "/" + ref
  {
    Strings.SplitPrefix(ref, "", '/');
    assert ref + "" == ref;
    assert PathOf(base) == "";
    assert Segments(PathOf(base), ref) == ["", ref];
    assert Resolve(["", ref]) == ["", ref] by {
      ResolveClean(["", ref]);
    }
  }

  /** A path that starts with `/` and has no empty or dot segment before its last piece. */
  predicate CleanPath(path: string) {
    && path != "" && path[0] == '/'
    && var parts := Strings.Split(path, '/');
      forall i :: 1 <= i < |parts| - 1 ==> parts[i] != "" && !IsDot(parts[i])
  }

  /**
   * A base whose path starts with `/` and has no empty or dot segment
   * before its last piece: the reference replaces that last piece, as
   * section 5.2.3 of RFC 3986 merges paths, so a base ending in `/` simply
   * gains the reference.
   */
  lemma UrlJoinCleanBase(base: string, ref: string)
    requires PlainSegment(ref)
    requires CleanPath(PathOf(base))
    ensures UrlJoin(base, ref) == Authority(base) + Strings.Dir(PathOf(base)) + ref
    ensures base[|base| - 1] == '/' ==> UrlJoin(base, ref) == base + ref
  {
    var auth := Authority(base);
    var dir := Strings.Dir(PathOf(base));
    CleanResolvedPath(PathOf(base), ref);
    UrlJoinAbsolute(base, ref);
    Regroup(auth, dir, ref);
    if base[|base| - 1] == '/' {
      SlashTerminatedBase(base);
    }
  }

  /** Concatenation regrouped, stated apart so that the solver meets it without the URL terms around it. */
  lemma Regroup(a: string, b: string, c: string)
    ensures a + (b + c) == a + b + c
  {
  }

  /** A base ending in `/` is its authority and its path's directory. */
  lemma SlashTerminatedBase(base: string)
    requires PathOf(base) != "" && base[|base| - 1] == '/'
    ensures Authority(base) + Strings.Dir(PathOf(base)) == base
  {
    var path := PathOf(base);
    assert path[|path| - 1] == '/';
    Strings.DirOfSlashTerminated(path);
  }

  /** When the resolved path is absolute, the joined URL is the authority and that path. */
  lemma UrlJoinAbsolute(base: string, ref: string)
    requires base != "" && ref != ""
    requires ResolvedPath(PathOf(base), ref)[0] == '/'
    ensures UrlJoin(base, ref) == Authority(base) + ResolvedPath(PathOf(base), ref)
  {
  }

  /** Against a clean path a plain reference replaces the last piece, and the result is absolute. */
  lemma CleanResolvedPath(path: string, ref: string)
    requires PlainSegment(ref)
    requires CleanPath(path)
    ensures ResolvedPath(path, ref) == Strings.Dir(path) + ref
    ensures ResolvedPath(path, ref)[0] == '/'
  {
    var parts := Strings.Split(path, '/');
    CleanSegments(path, ref);
    var dir := parts[..|parts| - 1];
    ResolveClean(dir);
    PlainResolvesLast(path, ref);
    assert (dir + [ref])[..|dir|] == dir;
    Strings.JoinSnoc(dir, ref, "/");
    var j := Strings.Join(dir, "/");
    assert ResolvedPath(path, ref) == j + "/" + ref;
    assert (j + "/" + ref)[0] == '/' by {
      if |dir| > 1 {
        assert j == dir[0] + "/" + Strings.Join(dir[1..], "/");
      }
    }
    DirOfSplit(path);
  }

  /** A clean path's segments: its pieces but the last, then the reference, none of them a dot segment. */
  lemma CleanSegments(path: string, ref: string)
    requires PlainSegment(ref)
    requires CleanPath(path)
    ensures var parts := Strings.Split(path, '/');
      && |parts| >= 2 && parts[0] == ""
      && Segments(path, ref) == parts[..|parts| - 1] + [ref]
      && forall i :: 0 <= i < |parts| - 1 ==> !IsDot(parts[i])
  {
    var parts := Strings.Split(path, '/');
    var n := |parts|;
    SplitAbsolute(path);
    var dir := parts[..n - 1];
    forall i | 1 <= i < |dir|
      ensures dir[i] != ""
    {
      assert dir[i] == parts[i];
      assert 1 <= i < |parts| - 1;
    }
    assert Segments(path, ref) == dir + [ref] by {
      SegmentsOfPlain(path, ref);
      BasePartsOfSplit(path, ref);
      DropInnerClean(dir, ref);
    }
    forall i | 0 <= i < n - 1
      ensures !IsDot(parts[i])
    {
      if i >= 1 {
        assert 1 <= i < |parts| - 1;
      }
    }
  }

  /** `BaseParts` keeps the pieces but the last, and an empty last piece is kept as an empty segment. */
  lemma BasePartsOfSplit(path: string, ref: string)
    ensures var parts := Strings.Split(path, '/');
      var dir := parts[..|parts| - 1];
      BaseParts(path) + [ref] == if parts[|parts| - 1] == "" then dir + ["", ref] else dir + [ref]
  {
    var parts := Strings.Split(path, '/');
    var dir := parts[..|parts| - 1];
    if parts[|parts| - 1] == "" {
      assert parts == dir + [""];
      assert dir + [""] + [ref] == dir + ["", ref];
    }
  }

  /** A reference without `/` is one piece. */
  lemma SplitPlain(ref: string)
    requires '/' !in ref
    ensures Strings.Split(ref, '/') == [ref]
  {
    Strings.SplitPrefix(ref, "", '/');
    assert ref + "" == ref;
  }

  /** A path that starts with `/` splits into an empty first piece and at least one more. */
  lemma SplitAbsolute(path: string)
    requires path != "" && path[0] == '/'
    ensures |Strings.Split(path, '/')| >= 2 && Strings.Split(path, '/')[0] == ""
  {
    assert path == "" + ['/'] + path[1..];
    Strings.SplitConcat("", path[1..], '/');
  }

  /** A plain reference is appended to the base's pieces before the empty inner ones are dropped. */
  lemma SegmentsOfPlain(bpath: string, ref: string)
    requires PlainSegment(ref)
    ensures Segments(bpath, ref) == DropInnerEmpty(BaseParts(bpath) + [ref])
  {
    SplitPlain(ref);
  }

  /** Dropping the empty inner segments keeps a directory without them, and removes the one a trailing `/` leaves. */
  lemma DropInnerClean(dir: seq<string>, ref: string)
    requires |dir| >= 1 && ref != ""
    requires forall i :: 1 <= i < |dir| ==> dir[i] != ""
    ensures DropInnerEmpty(dir + [ref]) == dir + [ref]
    ensures DropInnerEmpty(dir + ["", ref]) == dir + [ref]
  {
    var inner := dir[1..];
    forall i | 0 <= i < |inner|
      ensures inner[i] != ""
    {
      assert inner[i] == dir[i + 1];
    }
    NonEmptyClean(inner);
    assert [dir[0]] + inner == dir;
    var ys := dir + [ref];
    if |ys| > 2 {
      assert ys[1..|ys| - 1] == inner;
    }
    var zs := dir + ["", ref];
    assert zs[1..|zs| - 1] == inner + [""];
  }

  /** The directory of a path with a `/` is its pieces but the last, joined, and a `/`. */
  lemma DirOfSplit(path: string)
    requires |Strings.Split(path, '/')| >= 2
    ensures var parts := Strings.Split(path, '/');
      Strings.Dir(path) == Strings.Join(parts[..|parts| - 1], "/") + "/"
  {
    var parts := Strings.Split(path, '/');
    var n := |parts|;
    var last := parts[n - 1];
    var front := Strings.Join(parts[..n - 1], "/") + "/";
    assert path == front + last by {
      var dir := parts[..n - 1];
      Strings.JoinSplit(path, '/');
      assert parts == dir + [last];
      Strings.JoinSnoc(dir, last, "/");
    }
    var d := Strings.Dir(path);
    assert Strings.LastSegment(path) == last by {
      Strings.LastSegmentAfterDir(front, last);
    }
    assert d == path[..|d|] && front == path[..|front|];
  }
}
