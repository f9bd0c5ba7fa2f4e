/** The URL branch shared by both video-id extractors: given what the URL
    parser reports about an input, decide which part of it is the video id.
    The two extractors contain the same logic; they differ only in
    how they accept a bare id before trying to parse a URL. */
module YouTubeUrl {
  import opened Wrappers
  import opened JsString

  /** The three things the extractors read from `new URL(...)`: `hostname`,
      `pathname` and `searchParams.get("v")`. Percent-decoding, host
      lowercasing and query parsing happen inside the URL parser. */
  datatype ParsedUrl = ParsedUrl(hostname: string, pathname: string, v: Option<string>)

  /** `new URL(s)` following the WHATWG URL Standard; `None` when it throws. */
  type UrlParser = string -> Option<ParsedUrl>

  /** `host.replace(/^www\./, "")`: drop one leading "www.". */
  function StripWww(host: string): (r: string)
    ensures StartsWith(host, "www.") ==> host == "www." + r
    ensures !StartsWith(host, "www.") ==> r == host
  {
    if StartsWith(host, "www.") then host[4..] else host
  }

  /** A path segment that can be a video id: non-empty, without a slash. */
  predicate IsSegment(s: string)
  {
    s != [] && '/' !in s
  }

  /** The path kinds whose second segment is the id. */
  predicate IsIdPathKind(seg: string)
  {
    seg == "shorts" || seg == "embed" || seg == "live"
  }

  /** `pathname.replace(/^\/+/, "").split("/")[0] || null`, for youtu.be links. */
  function ShortLinkId(pathname: string): Option<string>
  {
    var seg := Split(StripLeadingSlashes(pathname), '/')[0];
    if seg == [] then None else Some(seg)
  }

  /** The second of the non-empty path segments when the first names
      shorts, embed or live. */
  function PathId(pathname: string): Option<string>
  {
    var parts := NonEmpty(Split(pathname, '/'));
    if |parts| >= 2 && IsIdPathKind(parts[0]) then Some(parts[1]) else None
  }

  /** The decision both extractors take once `new URL` has succeeded. */
  function IdFromUrl(u: ParsedUrl): (r: Option<string>)
    ensures r.Some? ==> r.value != []
    ensures r.Some? ==> StripWww(u.hostname) == "youtu.be" || EndsWith(StripWww(u.hostname), "youtube.com")
  {
    var host := StripWww(u.hostname);
    if host == "youtu.be" then ShortLinkId(u.pathname)
    else if EndsWith(host, "youtube.com") then
      if u.v.Some? && u.v.value != [] then u.v else PathId(u.pathname)
    else None
  }

  /** youtu.be paths: an id is the first path segment after the leading
      slashes, a non-empty run of characters ended by the end of the path or
      by a slash. */
  lemma ShortLinkIdShape(p: string, id: string)
    requires ShortLinkId(p) == Some(id)
    ensures IsSegment(id)
    ensures var n := |p| - |StripLeadingSlashes(p)|;
      n + |id| <= |p| && p[n..n + |id|] == id &&
      (n + |id| == |p| || p[n + |id|] == '/')
  {
    var stripped := StripLeadingSlashes(p);
    var n := |p| - |stripped|;
    SplitFirst(stripped, '/');
    PieceAt(p, n, id);
  }

  /** A prefix of the suffix `p[n..]`, located in `p` itself. */
  lemma PieceAt(p: string, n: nat, id: string)
    requires n <= |p| && |id| <= |p| - n && p[n..][..|id|] == id
    requires |id| == |p| - n || p[n..][|id|] == '/'
    ensures n + |id| <= |p| && p[n..n + |id|] == id && (n + |id| == |p| || p[n + |id|] == '/')
  {
    assert p[n..n + |id|] == p[n..][..|id|];
  }

  /** Conversely, any path of that shape gives that id. */
  lemma ShortLinkIdOf(n: nat, id: string, rest: string)
    requires IsSegment(id) && (rest == [] || rest[0] == '/')
    ensures ShortLinkId(Slashes(n) + id + rest) == Some(id)
  {
    assert Slashes(n) + id + rest == Slashes(n) + (id + rest);
    StripSlashesPrefix(Slashes(n), id + rest);
    SplitFirstOf(id, rest, '/');
  }

  /** For a youtu.be host the id is decided by the path alone. */
  lemma ShortLinkHost(u: ParsedUrl)
    requires StripWww(u.hostname) == "youtu.be"
    ensures IdFromUrl(u) == ShortLinkId(u.pathname)
  {
  }

  /** youtube.com hosts: a non-empty `v` parameter is the id, whatever the path. */
  lemma WatchParameterWins(u: ParsedUrl)
    requires EndsWith(StripWww(u.hostname), "youtube.com")
    requires u.v.Some? && u.v.value != []
    ensures IdFromUrl(u) == u.v
  {
  }

  /** youtube.com hosts without a usable `v`: the id comes from the path. */
  lemma WatchHostPath(u: ParsedUrl)
    requires EndsWith(StripWww(u.hostname), "youtube.com")
    requires u.v.None? || u.v.value == []
    ensures IdFromUrl(u) == PathId(u.pathname)
  {
    assert |"youtu.be"| < |"youtube.com"|;
  }

  /** A path `/shorts/<id>`, `/embed/<id>` or `/live/<id>`, optionally
      followed by more segments, gives `<id>`. */
  lemma PathKindGivesSecondSegment(kind: string, id: string, rest: string)
    requires IsIdPathKind(kind) && IsSegment(id) && (rest == [] || rest[0] == '/')
    ensures PathId("/" + kind + "/" + id + rest) == Some(id)
  {
    assert kind != [] && '/' !in kind;
    var tail := SplitThreeSegments(kind, id, rest);
    NonEmptyLeading(kind, id, tail);
  }

  /** Dropping the empty segment in front of a leading slash. */
  lemma NonEmptyLeading(kind: string, id: string, tail: seq<string>)
    requires kind != [] && id != []
    ensures NonEmpty([[], kind, id] + tail) == [kind, id] + NonEmpty(tail)
  {
    var xs := [[], kind, id] + tail;
    assert xs[1..] == [kind, id] + tail;
    assert xs[1..][1..] == [id] + tail;
    assert xs[1..][1..][1..] == tail;
    assert NonEmpty(xs[1..][1..]) == [id] + NonEmpty(tail);
    assert NonEmpty(xs[1..]) == [kind] + ([id] + NonEmpty(tail));
    assert NonEmpty(xs) == NonEmpty(xs[1..]);
  }

  /** How `"/" + kind + "/" + id + rest` splits at slashes. */
  lemma SplitThreeSegments(kind: string, id: string, rest: string) returns (tail: seq<string>)
    requires '/' !in kind && '/' !in id && (rest == [] || rest[0] == '/')
    ensures Split("/" + kind + "/" + id + rest, '/') == [[], kind, id] + tail
  {
    var p := "/" + kind + "/" + id + rest;
    assert p == [] + ['/'] + (kind + ['/'] + (id + rest));
    SplitConcat([], kind + ['/'] + (id + rest), '/');
    SplitConcat(kind, id + rest, '/');
    SplitPiece(kind, '/');
    assert Split([], '/') == [[]];
    SplitPiece(id, '/');
    if rest == [] {
      assert id + rest == id;
      tail := [];
    } else {
      assert id + rest == id + ['/'] + rest[1..];
      SplitConcat(id, rest[1..], '/');
      tail := Split(rest[1..], '/');
    }
  }

  /** Conversely, an id taken from a path is one whole segment of it. */
  lemma PathIdIsSegment(p: string)
    requires PathId(p).Some?
    ensures IsSegment(PathId(p).value)
    ensures PathId(p).value in Split(p, '/')
  {
    NonEmptySubset(Split(p, '/'));
    SplitPiecesFree(p, '/');
  }

  lemma {:induction false} NonEmptySubset(xs: seq<string>)
    ensures forall i :: 0 <= i < |NonEmpty(xs)| ==> NonEmpty(xs)[i] in xs
  {
    if xs != [] {
      NonEmptySubset(xs[1..]);
    }
  }

  /** The host test is a plain suffix test, so a look-alike domain such as
      "notyoutube.com" is treated like youtube.com. */
  lemma SuffixTestAcceptsLookalikeHost()
    ensures IdFromUrl(ParsedUrl("notyoutube.com", "/watch", Some("abc"))) == Some("abc")
  {
    assert "notyoutube.com"[..4] != "www." by { assert "notyoutube.com"[0] == 'n'; }
    assert "notyoutube.com"[3..] == "youtube.com";
  }
}
