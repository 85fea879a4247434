/** URL normalisation of app/workers/ingest_and_parse.py and the visibility patterns of
    app/repos/public_filters.py, over ASCII URLs. */
module SkillUrls {
  import opened Basics
  import opened Text

  // ---------------------------------------------------------------- urlparse

  /** The characters the parser takes out wherever they stand. */
  predicate IsBreak(c: char) { c == '\t' || c == '\r' || c == '\n' }

  function WithoutBreaks(s: string): string {
    if s == "" then ""
    else
      var pre, c := WithoutBreaks(s[..|s| - 1]), s[|s| - 1];
      if IsBreak(c) then pre else pre + [c]
  }

  /** The control characters and spaces the parser takes off the beginning. */
  predicate IsControl(c: char) { c as int <= 32 }

  function DropControls(s: string): string { if s != "" && IsControl(s[0]) then DropControls(s[1..]) else s }

  /** The text that is parsed; what follows takes a URL that has been scrubbed. */
  function Scrub(url: string): string { WithoutBreaks(DropControls(url)) }

  predicate IsAlpha(c: char) { 'A' <= c <= 'Z' || 'a' <= c <= 'z' }

  predicate SchemeChar(c: char) { IsAlpha(c) || '0' <= c <= '9' || c == '+' || c == '-' || c == '.' }

  predicate HasScheme(url: string) {
    var i := First(url, ':');
    0 < i < |url| && IsAlpha(url[0]) && forall c | c in url[..i] :: SchemeChar(c)
  }

  function Scheme(url: string): string { if HasScheme(url) then Lower(url[..First(url, ':')]) else "" }

  function AfterScheme(url: string): string { if HasScheme(url) then url[First(url, ':') + 1..] else url }

  function Netloc(url: string): string {
    var rest := AfterScheme(url);
    if "//" <= rest then UpTo(rest[2..], "/?#") else ""
  }

  function AfterNetloc(url: string): string {
    var rest := AfterScheme(url);
    if "//" <= rest then rest[2 + |Netloc(url)|..] else rest
  }

  /** The schemes whose last path segment may carry parameters after a semicolon. */
  predicate UsesParams(scheme: string) {
    scheme in {"", "ftp", "hdl", "prospero", "http", "https", "shttp", "rtsp", "rtspu", "sip", "sips", "mms", "sftp",
        "tel"}
  }

  /** A path without the parameters of its last segment. */
  function WithoutParams(path: string): string {
    var segments := Split(path, '/');
    var n := |segments| - 1;
    Join(segments[..n] + [UpTo(segments[n], ";")], '/')
  }

  /** `urlparse(url).path`. */
  function Path(url: string): string {
    var path := UpTo(AfterNetloc(url), "?#");
    if UsesParams(Scheme(url)) then WithoutParams(path) else path
  }

  /** The non-empty segments. */
  function NonEmpty(segments: seq<string>): seq<string> {
    if segments == [] then []
    else if segments[0] == "" then NonEmpty(segments[1..])
    else [segments[0]] + NonEmpty(segments[1..])
  }

  function Parts(url: string): seq<string> { NonEmpty(Split(Path(url), '/')) }

  // ---------------------------------------------------------------- normalisation

  const RAW_HOST := "raw.githubusercontent.com"
  const GITHUB := "https://github.com/"
  const RAW_GITHUB := "https://raw.githubusercontent.com/"

  /** The segments of the page URL that a host and a path stand for. */
  function KeptFrom(host: string, parts: seq<string>): Option<seq<string>> {
    if Contains(host, RAW_HOST) then
      if |parts| < 4 then None else Some(parts[..2] + ["blob"] + parts[2..])
    else if Contains(host, "github.com") then
      if |parts| < 2 then None
      else if |parts| >= 5 && Lower(parts[2]) == "blob" then Some(parts[..2] + ["blob"] + parts[3..])
      else if |parts| >= 5 && Lower(parts[2]) == "tree" && EndsWith(Lower(Join(parts[4..], '/')), "skill.md") then
        Some(parts[..2] + ["blob"] + parts[3..])
      else Some(parts[..2])
    else None
  }

  predicate IsHttp(raw: string) { "http://" <= Lower(raw) || "https://" <= Lower(raw) }

  function Kept(url: string): Option<seq<string>> {
    var raw := Strip(url);
    if IsHttp(raw) then KeptFrom(Lower(Netloc(Scrub(raw))), Parts(Scrub(raw))) else None
  }

  function NormalizeSkillSourceUrl(url: string): Option<string> {
    match Kept(url)
    case Some(segments) => Some(GITHUB + Join(segments, '/'))
    case None => None
  }

  /** The blob URL pattern, segment by segment. */
  predicate IsBlobPage(segments: seq<string>) {
    && |segments| >= 8
    && (segments[0] == "https:" || segments[0] == "http:") && segments[1] == "" && segments[2] == "github.com"
    && segments[3] != "" && segments[4] != "" && segments[5] == "blob" && segments[6] != ""
    && Join(segments[7..], '/') != "" && '\n' !in Join(segments[7..], '/')
  }

  function NormalizeToRawGithubUrl(url: string): string {
    var raw := Strip(url);
    var s := Split(raw, '/');
    if Contains(raw, RAW_HOST) || !IsBlobPage(s) then raw
    else RawFrom(s)
  }

  function RawFrom(s: seq<string>): string
    requires |s| >= 8
  {
    RAW_GITHUB + (s[3] + "/" + (s[4] + "/" + (s[6] + "/" + Join(s[7..], '/'))))
  }

  // ---------------------------------------------------------------- scrubbing

  lemma {:induction false} NothingToScrubOut(s: string)
    requires forall c | c in s :: !IsBreak(c)
    ensures WithoutBreaks(s) == s
  {
    if s == "" {
    } else {
      NothingToScrubOut(s[..|s| - 1]);
    }
  }

  lemma {:induction false} WithoutBreaksHasNone(s: string)
    ensures forall c | c in WithoutBreaks(s) :: c in s && !IsBreak(c)
  {
    if s == "" {
    } else {
      WithoutBreaksHasNone(s[..|s| - 1]);
    }
  }

  // ---------------------------------------------------------------- URLs built from segments

  /** A character of a path segment: no separator, and none the parser takes out. */
  predicate SegmentChar(c: char) { c != '/' && c != '?' && c != '#' && !IsBreak(c) }

  predicate Plain(segment: string) { forall c | c in segment :: SegmentChar(c) }

  /** A path segment (section 3.3 of RFC 3986) that parsing leaves where it is. */
  predicate Bare(segment: string) { segment != "" && Plain(segment) }

  predicate AllPlain(segments: seq<string>) { forall s | s in segments :: Plain(s) }

  predicate AllBare(segments: seq<string>) { forall s | s in segments :: Bare(s) }

  lemma {:induction false} NonEmptyOfBare(segments: seq<string>)
    requires AllBare(segments)
    ensures NonEmpty(segments) == segments
  {
    if segments == [] {
    } else {
      assert Bare(segments[0]);
      NonEmptyOfBare(segments[1..]);
      assert segments == [segments[0]] + segments[1..];
    }
  }

  lemma {:induction false} JoinedChars(segments: seq<string>, c: char)
    requires c in Join(segments, '/')
    ensures c == '/' || exists s | s in segments :: c in s
  {
    if |segments| > 1 {
      if c in segments[0] {
        assert segments[0] in segments;
      } else if c != '/' {
        JoinedChars(segments[1..], c);
      }
    }
  }

  /** Segments with the last one replaced. */
  function WithLast(segments: seq<string>, last: string): seq<string>
    requires segments != []
  {
    segments[..|segments| - 1] + [last]
  }

  /** Parsing cuts the parameters off the last segment. */
  function Cut(segments: seq<string>): seq<string>
    requires segments != []
  {
    WithLast(segments, UpTo(segments[|segments| - 1], ";"))
  }

  /** Stripping a URL takes the spaces off the end of the last segment. */
  function Trailed(segments: seq<string>): seq<string>
    requires segments != []
  {
    WithLast(segments, StripRight(segments[|segments| - 1]))
  }

  function Built(h: string, segments: seq<string>): string { "https://" + (h + "/" + Join(segments, '/')) }

  /** Parsing a URL built from a host and plain segments. */
  lemma ParseBuilt(h: string, segments: seq<string>)
    requires Plain(h) && segments != [] && AllPlain(segments)
    ensures Scrub(Built(h, segments)) == Built(h, segments)
    ensures Netloc(Built(h, segments)) == h
    ensures Parts(Built(h, segments)) == NonEmpty(Cut(segments))
  {
    BuiltIsScrubbed(h, segments);
    SchemeOfBuilt(Built(h, segments), h + "/" + Join(segments, '/'));
    NetlocOfBuilt(Built(h, segments), h, Join(segments, '/'));
    PathSplits(h, segments);
    assert ([""] + Cut(segments))[1..] == Cut(segments);
  }

  lemma BuiltIsScrubbed(h: string, segments: seq<string>)
    requires Plain(h) && AllPlain(segments)
    ensures Scrub(Built(h, segments)) == Built(h, segments)
  {
    var url := Built(h, segments);
    assert url[0] == 'h';
    forall c | c in url ensures !IsBreak(c) {
      if c in Join(segments, '/') { JoinedChars(segments, c); }
    }
    NothingToScrubOut(url);
  }

  lemma SchemeOfBuilt(url: string, rest: string)
    requires url == "https://" + rest
    ensures HasScheme(url) && Scheme(url) == "https" && AfterScheme(url) == "//" + rest
    ensures "https://" <= Lower(url)
  {
    assert url == "https" + ":" + ("//" + rest);
    FirstIs("https", ':', "//" + rest);
    assert url[..5] == "https" && url[6..] == "//" + rest;
    assert Lower("https") == "https";
    assert Lower(url)[..8] == "https://";
  }

  lemma HostStops(h: string, joined: string)
    requires Plain(h)
    ensures UpTo(h + "/" + joined, "/?#") == h
  {
    UpToStop(h, '/', joined, "/?#");
  }

  lemma NetlocOfBuilt(url: string, h: string, joined: string)
    requires AfterScheme(url) == "//" + (h + "/" + joined) && Plain(h)
    ensures Netloc(url) == h && AfterNetloc(url) == "/" + joined
  {
    var rest := AfterScheme(url);
    assert rest[2..] == h + "/" + joined;
    HostStops(h, joined);
    assert rest[2 + |h|..] == "/" + joined;
  }

  lemma PathOfBuilt(url: string, segments: seq<string>)
    requires segments != [] && AllPlain(segments)
    requires Scheme(url) == "https" && AfterNetloc(url) == "/" + Join(segments, '/')
    ensures Split(Path(url), '/') == [""] + Cut(segments)
  {
    var path := "/" + Join(segments, '/');
    forall c | c in path ensures c !in "?#" {
      if c in Join(segments, '/') { JoinedChars(segments, c); }
    }
    UpToAll(path, "?#");
    CutPath(segments);
  }

  lemma LastCut(all: seq<string>, stops: string)
    requires all != [] && forall p | p in all :: '/' !in p
    ensures forall p | p in WithLast(all, UpTo(all[|all| - 1], stops)) :: '/' !in p
  {
    var n := |all| - 1;
    assert all[n] in all;
    forall p | p in WithLast(all, UpTo(all[n], stops)) ensures '/' !in p {
      if p in all[..n] { assert p in all; } else { assert p <= all[n]; }
    }
  }

  /** What dropping the parameters does to the segments of a path. */
  lemma ParamsCut(path: string)
    ensures Split(WithoutParams(path), '/') == Cut(Split(path, '/'))
  {
    var all := Split(path, '/');
    LastCut(all, ";");
    SplitJoin(Cut(all), '/');
  }

  lemma CutBehind(segments: seq<string>)
    requires segments != []
    ensures Cut([""] + segments) == [""] + Cut(segments)
  {
    var all := [""] + segments;
    assert all[|all| - 1] == segments[|segments| - 1];
    assert all[..|all| - 1] == [""] + segments[..|segments| - 1];
  }

  lemma CutPath(segments: seq<string>)
    requires segments != [] && AllPlain(segments)
    ensures Split(WithoutParams("/" + Join(segments, '/')), '/') == [""] + Cut(segments)
  {
    hide Join, Split, WithoutParams, Cut;
    var all := [""] + segments;
    JoinCons("", segments, '/');
    assert "" + ['/'] + Join(segments, '/') == "/" + Join(segments, '/');
    forall p | p in all ensures '/' !in p {
      assert p == "" || Plain(p);
    }
    SplitJoin(all, '/');
    ParamsCut("/" + Join(segments, '/'));
    CutBehind(segments);
  }

  lemma PathSplits(h: string, segments: seq<string>)
    requires Plain(h) && segments != [] && AllPlain(segments)
    ensures Split(Path(Built(h, segments)), '/') == [""] + Cut(segments)
  {
    var joined := Join(segments, '/');
    SchemeOfBuilt(Built(h, segments), h + "/" + joined);
    NetlocOfBuilt(Built(h, segments), h, joined);
    PathOfBuilt(Built(h, segments), segments);
  }

  /** The path of a page, as the parser sees it. */
  lemma PagePathSplits(segments: seq<string>)
    requires segments != [] && AllPlain(segments)
    ensures Split(Path(Scrub(GITHUB + Join(segments, '/'))), '/') == [""] + Cut(segments)
  {
    hide Path, Scrub, Join, Built, Cut;
    PageIsBuilt(segments);
    HostsArePlain();
    BuiltIsScrubbed("github.com", segments);
    PathSplits("github.com", segments);
  }

  // ---------------------------------------------------------------- stripping a built URL

  lemma {:induction false} StripRightAfter(pre: string, s: string)
    requires pre != "" && !IsSpace(pre[|pre| - 1])
    ensures StripRight(pre + s) == pre + StripRight(s)
  {
    if s == "" {
      assert pre + s == pre;
    } else {
      var n := |s| - 1;
      assert (pre + s)[..|pre + s| - 1] == pre + s[..n];
      StripRightAfter(pre, s[..n]);
    }
  }

  lemma {:induction false} StripRightIsPrefix(s: string)
    ensures StripRight(s) <= s
    ensures StripRight(s) == s <==> s == "" || !IsSpace(s[|s| - 1])
  {
    if s == "" {
    } else {
      StripRightIsPrefix(s[..|s| - 1]);
    }
  }

  /** Everything of a joined text before its last segment. */
  function Front(segments: seq<string>): string
    requires segments != []
  {
    if |segments| == 1 then "" else segments[0] + "/" + Front(segments[1..])
  }

  lemma {:induction false} JoinLast(segments: seq<string>, last: string)
    requires segments != []
    ensures Join(WithLast(segments, last), '/') == Front(segments) + last
    ensures Front(segments) == "" || Front(segments)[|Front(segments)| - 1] == '/'
  {
    var all := WithLast(segments, last);
    if |segments| == 1 {
      assert all == [last];
    } else {
      JoinLast(segments[1..], last);
      assert all[0] == segments[0] && all[1..] == WithLast(segments[1..], last);
    }
  }

  lemma EndsInSlash(h: string, front: string)
    requires front == "" || front[|front| - 1] == '/'
    ensures var pre := "https://" + (h + "/" + front); pre != "" && !IsSpace(pre[|pre| - 1])
  {
    var tail := h + "/" + front;
    assert tail[|tail| - 1] == '/';
  }

  /** A built URL up to its last segment. */
  function Head(h: string, segments: seq<string>): string
    requires segments != []
  {
    "https://" + (h + "/" + Front(segments))
  }

  lemma BuiltIsHeadAndLast(h: string, segments: seq<string>, last: string)
    requires segments != []
    ensures Built(h, WithLast(segments, last)) == Head(h, segments) + last
  {
    hide WithLast, Join, Front;
    JoinLast(segments, last);
  }

  lemma HeadEnds(h: string, segments: seq<string>)
    requires segments != []
    ensures Head(h, segments) != "" && !IsSpace(Head(h, segments)[|Head(h, segments)| - 1])
            && Head(h, segments)[0] == 'h'
  {
    JoinLast(segments, "");
    EndsInSlash(h, Front(segments));
  }

  lemma StripFrom(pre: string, s: string)
    requires pre != "" && !IsSpace(pre[|pre| - 1]) && pre[0] == 'h'
    ensures Strip(pre + s) == pre + StripRight(s)
  {
    StripRightAfter(pre, s);
    assert (pre + s)[0] == 'h';
  }

  lemma StripBuilt(h: string, segments: seq<string>)
    requires segments != []
    ensures Strip(Built(h, segments)) == Built(h, Trailed(segments))
  {
    var l := segments[|segments| - 1];
    assert WithLast(segments, l) == segments;
    BuiltIsHeadAndLast(h, segments, l);
    BuiltIsHeadAndLast(h, segments, StripRight(l));
    HeadEnds(h, segments);
    StripFrom(Head(h, segments), l);
  }

  lemma BuiltIsHttp(h: string, segments: seq<string>)
    ensures IsHttp(Built(h, segments))
  {
    SchemeOfBuilt(Built(h, segments), h + "/" + Join(segments, '/'));
  }

  lemma TrailedIsPlain(segments: seq<string>)
    requires segments != [] && AllPlain(segments)
    ensures AllPlain(Trailed(segments))
  {
    var l := segments[|segments| - 1];
    assert Plain(l);
    StripRightIsPrefix(l);
    assert forall c | c in StripRight(l) :: c in l;
    assert forall p | p in segments[..|segments| - 1] :: p in segments;
  }

  /** What normalisation keeps of a built URL. */
  lemma KeptOfBuilt(h: string, segments: seq<string>)
    requires Plain(h) && segments != [] && AllPlain(segments)
    ensures Kept(Built(h, segments)) == KeptFrom(Lower(h), NonEmpty(Cut(Trailed(segments))))
  {
    StripBuilt(h, segments);
    TrailedIsPlain(segments);
    BuiltIsHttp(h, Trailed(segments));
    ParseBuilt(h, Trailed(segments));
  }

  // ---------------------------------------------------------------- what is kept is bare

  lemma {:induction false} SplitChars(s: string, c: char, p: string, d: char)
    requires p in Split(s, c) && d in p
    ensures d in s
    decreases |s|
  {
    var i := First(s, c);
    if i == |s| || p == s[..i] {
    } else {
      SplitChars(s[i + 1..], c, p, d);
    }
  }

  lemma {:induction false} NonEmptyFrom(segments: seq<string>)
    ensures forall p | p in NonEmpty(segments) :: p in segments && p != ""
  {
    if segments == [] {
    } else {
      NonEmptyFrom(segments[1..]);
    }
  }

  lemma PathChars(path: string, d: char)
    requires d in WithoutParams(path)
    ensures d in path || d == '/'
  {
    var segments := Split(path, '/');
    var n := |segments| - 1;
    var cut := segments[..n] + [UpTo(segments[n], ";")];
    JoinedChars(cut, d);
    if d != '/' {
      var p :| p in cut && d in p;
      var whole := if p in segments[..n] then p else segments[n];
      assert whole in segments && d in whole;
      SplitChars(path, '/', whole, d);
    }
  }

  lemma PartsAreBare(url: string)
    ensures AllBare(Parts(Scrub(url)))
  {
    var u := Scrub(url);
    var path, before := Path(u), UpTo(AfterNetloc(u), "?#");
    WithoutBreaksHasNone(DropControls(url));
    forall d | d in path ensures d == '/' || SegmentChar(d) {
      if d !in before { PathChars(before, d); }
      if d in before {
        assert d in AfterNetloc(u);
        assert d in u;
      }
    }
    NonEmptyFrom(Split(path, '/'));
    forall p | p in Parts(u) ensures Bare(p) {
      forall d | d in p ensures SegmentChar(d) {
        SplitChars(path, '/', p, d);
      }
    }
  }

  /** The kept segments are owner and repository, or those, "blob", a branch and a file path. */
  predicate KeptShape(kept: seq<string>) {
    AllBare(kept) && (|kept| == 2 || (|kept| >= 5 && kept[2] == "blob"))
  }

  lemma KeptFromShape(host: string, parts: seq<string>)
    requires AllBare(parts) && KeptFrom(host, parts).Some?
    ensures KeptShape(KeptFrom(host, parts).value)
  {
    assert Bare("blob");
  }

  lemma KeptHasShape(url: string)
    requires Kept(url).Some?
    ensures KeptShape(Kept(url).value)
  {
    var u := Scrub(Strip(url));
    PartsAreBare(Strip(url));
    KeptFromShape(Lower(Netloc(u)), Parts(u));
  }

  // ---------------------------------------------------------------- idempotence

  function Again(parts: seq<string>): Option<seq<string>> {
    if |parts| < 2 then None else if |parts| >= 5 then Some(parts) else Some(parts[..2])
  }

  /** What the page host keeps of segments that begin like kept ones. */
  lemma KeptFromGithub(parts: seq<string>)
    requires |parts| >= 5 ==> parts[2] == "blob"
    ensures KeptFrom("github.com", parts) == Again(parts)
  {
    HostFacts();
    if |parts| >= 5 {
      assert Lower("blob") == "blob";
      assert parts[..2] + ["blob"] + parts[3..] == parts;
    }
  }

  /** What a second parse makes of the last kept segment. */
  function Reread(last: string): string { UpTo(StripRight(last), ";") }

  /** The segment stays as it is: nothing is cut off it, and nothing stripped. */
  predicate Stays(last: string) { ';' !in last && (last == "" || !IsSpace(last[|last| - 1])) }

  lemma RereadIff(last: string)
    ensures Reread(last) == last <==> Stays(last)
    ensures |Reread(last)| <= |last| && forall c | c in Reread(last) :: c in last
  {
    StripRightIsPrefix(last);
    var s := StripRight(last);
    if ';' !in s { UpToAll(s, ";"); }
  }

  /** The segments a second parse finds: the last one reread, or dropped. */
  function Reparsed(kept: seq<string>): seq<string>
    requires kept != []
  {
    var n := |kept| - 1;
    if Reread(kept[n]) == "" then kept[..n] else kept[..n] + [Reread(kept[n])]
  }

  lemma ReparsedIs(kept: seq<string>)
    requires kept != [] && AllBare(kept)
    ensures NonEmpty(Cut(Trailed(kept))) == Reparsed(kept) && AllBare(Reparsed(kept))
  {
    var n := |kept| - 1;
    BarePrefix(kept, n);
    NonEmptyLast(kept[..n], Reread(kept[n]));
    assert Cut(Trailed(kept)) == kept[..n] + [Reread(kept[n])];
    assert Bare(kept[n]);
    RereadIff(kept[n]);
  }

  lemma ReparsedKeepsBlob(kept: seq<string>)
    requires KeptShape(kept)
    ensures |Reparsed(kept)| >= 5 ==> Reparsed(kept)[2] == "blob"
  {
  }

  /** Normalising a page URL built from kept segments: what it keeps. */
  lemma KeptOfPage(kept: seq<string>)
    requires KeptShape(kept)
    ensures Kept(GITHUB + Join(kept, '/')) == Again(Reparsed(kept))
  {
    hide Join, Built, Kept, KeptFrom, Cut, Trailed, Reparsed, NonEmpty;
    assert AllPlain(kept) by { forall p | p in kept ensures Plain(p) { assert Bare(p); } }
    PageIsBuilt(kept);
    HostsArePlain();
    KeptOfBuilt("github.com", kept);
    ReparsedIs(kept);
    HostFacts();
    ReparsedKeepsBlob(kept);
    KeptFromGithub(Reparsed(kept));
  }

  lemma PageIsBuilt(kept: seq<string>)
    ensures GITHUB + Join(kept, '/') == Built("github.com", kept)
    ensures RAW_GITHUB + Join(kept, '/') == Built(RAW_HOST, kept)
  {
    assert GITHUB == "https://" + ("github.com" + "/");
    assert RAW_GITHUB == "https://" + (RAW_HOST + "/");
  }

  lemma HostFacts()
    ensures Lower("github.com") == "github.com" && Lower(RAW_HOST) == RAW_HOST
    ensures Contains("github.com", "github.com") && !Contains("github.com", RAW_HOST)
    ensures Contains(RAW_HOST, RAW_HOST)
  {
    assert "github.com"[0..] == "github.com";
    assert RAW_HOST[0..] == RAW_HOST;
  }

  lemma HostsArePlain()
    ensures Plain("github.com") && Plain(RAW_HOST)
  {
    GithubIsPlain();
    RawHostIsPlain();
  }

  lemma GithubIsPlain()
    ensures Plain("github.com")
  {
  }

  lemma RawHostParts()
    ensures RAW_HOST == ("raw." + "githubuser") + ("content" + ".com")
  {
  }

  lemma PiecesArePlain()
    ensures Plain("raw.") && Plain("githubuser") && Plain("content") && Plain(".com")
  {
  }

  lemma PlainTogether(a: string, b: string)
    requires Plain(a) && Plain(b)
    ensures Plain(a + b)
  {
  }

  lemma RawHostIsPlain()
    ensures Plain(RAW_HOST)
  {
    hide Plain;
    RawHostParts();
    PiecesArePlain();
    PlainTogether("raw.", "githubuser");
    PlainTogether("content", ".com");
    PlainTogether("raw." + "githubuser", "content" + ".com");
  }

  lemma BarePrefix(kept: seq<string>, n: nat)
    requires AllBare(kept) && n <= |kept|
    ensures AllBare(kept[..n])
  {
    forall p | p in kept[..n] ensures Bare(p) { assert p in kept; }
  }

  lemma NonEmptyLast(front: seq<string>, last: string)
    requires AllBare(front)
    ensures NonEmpty(front + [last]) == if last == "" then front else front + [last]
  {
    NonEmptyOfBare(front);
    NonEmptyAppend(front, [last]);
  }

  lemma {:induction false} NonEmptyAppend(a: seq<string>, b: seq<string>)
    ensures NonEmpty(a + b) == NonEmpty(a) + NonEmpty(b)
  {
    if a == [] {
      assert a + b == b;
    } else {
      assert (a + b)[1..] == a[1..] + b;
      NonEmptyAppend(a[1..], b);
    }
  }

  lemma JoinInjective(a: seq<string>, b: seq<string>)
    requires a != [] && b != [] && AllBare(a) && AllBare(b) && Join(a, '/') == Join(b, '/')
    ensures a == b
  {
    SplitJoin(a, '/');
    SplitJoin(b, '/');
  }

  lemma KeptIs(url: string, kept: seq<string>)
    requires Kept(url) == Some(kept) && kept != []
    ensures NormalizeSkillSourceUrl(url) == Some(GITHUB + Join(kept, '/')) && LastKept(url) == kept[|kept| - 1]
  {
    hide Kept, Join, LastKept, NormalizeSkillSourceUrl;
    PageOfKept(url, kept);
    LastOfKept(url, kept);
  }

  lemma PageOfKept(url: string, kept: seq<string>)
    requires Kept(url) == Some(kept)
    ensures NormalizeSkillSourceUrl(url) == Some(GITHUB + Join(kept, '/'))
  {
    hide Kept, Join, LastKept;
  }

  lemma LastOfKept(url: string, kept: seq<string>)
    requires Kept(url) == Some(kept) && kept != []
    ensures LastKept(url) == kept[|kept| - 1]
  {
    hide Kept, Join, NormalizeSkillSourceUrl;
  }

  /** The last segment that normalisation keeps. */
  function LastKept(url: string): string {
    match Kept(url)
    case Some(kept) => if kept == [] then "" else kept[|kept| - 1]
    case None => ""
  }

  /** Normalising a second time changes nothing exactly when the last kept segment has no semicolon and
      does not end in a space. */
  lemma NormalizeIdempotent(url: string, page: string)
    requires NormalizeSkillSourceUrl(url) == Some(page)
    ensures NormalizeSkillSourceUrl(page) == Some(page) <==> Stays(LastKept(url))
  {
    var kept := Kept(url).value;
    KeptHasShape(url);
    KeptIs(url, kept);
    PageIdempotent(kept);
  }

  lemma PageIdempotent(kept: seq<string>)
    requires KeptShape(kept)
    ensures var page := GITHUB + Join(kept, '/');
            NormalizeSkillSourceUrl(page) == Some(page) <==> Stays(kept[|kept| - 1])
  {
    KeptOfPage(kept);
    AgainSame(kept);
    var again := Again(Reparsed(kept));
    if again.Some? { SamePage(again.value, kept); }
  }

  lemma AgainSame(kept: seq<string>)
    requires KeptShape(kept)
    ensures var again := Again(Reparsed(kept));
            && (again == Some(kept) <==> Stays(kept[|kept| - 1]))
            && (again.Some? ==> again.value != [] && AllBare(again.value))
  {
    var n, parts := |kept| - 1, Reparsed(kept);
    ReparsedIs(kept);
    RereadIff(kept[n]);
    assert Bare(kept[n]);
    if |parts| >= 2 { BarePrefix(parts, 2); }
    if Stays(kept[n]) {
      assert parts == kept;
      if |kept| < 5 { assert kept[..2] == kept; }
    } else {
      if |parts| >= 5 { assert |parts| < |kept| || parts[n] == Reread(kept[n]); }
    }
  }

  lemma SamePage(a: seq<string>, b: seq<string>)
    requires a != [] && b != [] && AllBare(a) && AllBare(b)
    ensures GITHUB + Join(a, '/') == GITHUB + Join(b, '/') ==> a == b
  {
    assert (GITHUB + Join(a, '/'))[|GITHUB|..] == Join(a, '/');
    assert (GITHUB + Join(b, '/'))[|GITHUB|..] == Join(b, '/');
    if Join(a, '/') == Join(b, '/') { JoinInjective(a, b); }
  }

  lemma PlainOfBare(kept: seq<string>)
    requires AllBare(kept)
    ensures AllPlain(kept) && AllPlain(kept + [""])
  {
    forall p | p in kept + [""] ensures Plain(p) {
      assert p == "" || Bare(p);
    }
    assert forall p | p in kept :: p in kept + [""];
  }

  /** A slash behind a page is dropped, and keeps the last segment from being reread. */
  lemma KeptOfSlashed(kept: seq<string>)
    requires KeptShape(kept)
    ensures Kept(Built("github.com", kept + [""])) == Some(kept)
  {
    PlainOfBare(kept);
    HostsArePlain();
    KeptOfBuilt("github.com", kept + [""]);
    assert Cut(Trailed(kept + [""])) == kept + [""];
    NonEmptyLast(kept, "");
    HostFacts();
    KeptFromGithub(kept);
    if |kept| < 5 { assert kept[..2] == kept; }
  }

  lemma SlashedIsBuilt(kept: seq<string>)
    requires kept != []
    ensures GITHUB + Join(kept, '/') + "/" == Built("github.com", kept + [""])
  {
    JoinSlash(kept);
    PageIsBuilt(kept + [""]);
    assert GITHUB + Join(kept, '/') + "/" == GITHUB + (Join(kept, '/') + "/");
  }

  /** Every page whose last segment does not stay comes out of some URL, so normalising twice differs
      from normalising once: the URL of the page with a slash behind it is such a one. */
  lemma UnsettledPages(kept: seq<string>)
    requires KeptShape(kept) && !Stays(kept[|kept| - 1])
    ensures var page := GITHUB + Join(kept, '/');
            NormalizeSkillSourceUrl(page + "/") == Some(page) && NormalizeSkillSourceUrl(page) != Some(page)
  {
    hide Kept, NormalizeSkillSourceUrl, Join, Built;
    SlashedIsBuilt(kept);
    KeptOfSlashed(kept);
    KeptIs(GITHUB + Join(kept, '/') + "/", kept);
    PageIdempotent(kept);
  }

  lemma {:induction false} JoinSlash(kept: seq<string>)
    requires kept != []
    ensures Join(kept + [""], '/') == Join(kept, '/') + "/"
  {
    if |kept| == 1 {
      assert (kept + [""])[1..] == [""];
    } else {
      assert (kept + [""])[1..] == kept[1..] + [""];
      JoinSlash(kept[1..]);
    }
  }

  /** One page with a semicolon and one with a space. */
  lemma SecondPassChanges()
    ensures NormalizeSkillSourceUrl("https://github.com/o/r;x/") == Some("https://github.com/o/r;x")
    ensures NormalizeSkillSourceUrl("https://github.com/o/r;x") != Some("https://github.com/o/r;x")
    ensures NormalizeSkillSourceUrl("https://github.com/o/r /") == Some("https://github.com/o/r ")
    ensures NormalizeSkillSourceUrl("https://github.com/o/r ") != Some("https://github.com/o/r ")
  {
    hide NormalizeSkillSourceUrl;
    UnsettledPages(["o", "r;x"]);
    UnsettledPages(["o", "r "]);
    assert GITHUB + Join(["o", "r;x"], '/') == "https://github.com/o/r;x";
    assert GITHUB + Join(["o", "r "], '/') == "https://github.com/o/r ";
    assert "https://github.com/o/r;x" + "/" == "https://github.com/o/r;x/";
    assert "https://github.com/o/r " + "/" == "https://github.com/o/r /";
  }

  // ---------------------------------------------------------------- raw and page URLs

  function PageOf(segments: seq<string>): seq<string>
    requires |segments| >= 2
  {
    segments[..2] + ["blob"] + segments[2..]
  }

  predicate Document(segments: seq<string>) {
    |segments| >= 4 && AllBare(segments) && Stays(segments[|segments| - 1])
  }

  function PageSegments(kept: seq<string>): seq<string> { ["https:", "", "github.com"] + kept }

  lemma GithubSpelled(rest: string)
    ensures GITHUB + rest == "https:" + ['/'] + ("" + ['/'] + ("github.com" + ['/'] + rest))
  {
    assert GITHUB == "https:" + "/" + ("" + "/" + ("github.com" + "/"));
  }

  lemma PageJoined(kept: seq<string>)
    requires kept != []
    ensures GITHUB + Join(kept, '/') == Join(PageSegments(kept), '/')
  {
    var three, two, one := PageSegments(kept), ["", "github.com"] + kept, ["github.com"] + kept;
    assert three[1..] == two && two[1..] == one && one[1..] == kept;
    hide Join;
    JoinCons("github.com", kept, '/');
    JoinCons("", one, '/');
    JoinCons("https:", two, '/');
    assert three == ["https:"] + two && two == [""] + one;
    GithubSpelled(Join(kept, '/'));
  }

  lemma PageSplits(kept: seq<string>)
    requires kept != [] && AllBare(kept)
    ensures Split(GITHUB + Join(kept, '/'), '/') == PageSegments(kept)
  {
    PageJoined(kept);
    forall p | p in PageSegments(kept) ensures '/' !in p {
      if p in kept { assert Bare(p); }
    }
    SplitJoin(PageSegments(kept), '/');
  }

  lemma PageMentions(segments: seq<string>)
    requires |segments| >= 2
    ensures Contains(GITHUB + Join(PageOf(segments), '/'), RAW_HOST) <==> AnyContains(segments, RAW_HOST)
  {
    PageJoined(PageOf(segments));
    ContainsJoined(PageSegments(PageOf(segments)), '/', RAW_HOST);
    PageContains(segments);
  }

  lemma SameLast(segments: seq<string>)
    requires segments != []
    ensures WithLast(segments, segments[|segments| - 1]) == segments
  {
  }

  /** A page whose last segment stays is left alone by stripping and cutting. */
  lemma NothingToCut(segments: seq<string>)
    requires segments != [] && AllBare(segments) && Stays(segments[|segments| - 1])
    ensures Trailed(segments) == segments && Cut(segments) == segments && NonEmpty(segments) == segments
  {
    hide StripRight, UpTo, NonEmpty, WithLast;
    StripRightIsPrefix(segments[|segments| - 1]);
    UpToAll(segments[|segments| - 1], ";");
    SameLast(segments);
    NonEmptyOfBare(segments);
  }

  lemma PageIsTrimmed(kept: seq<string>)
    requires kept != [] && AllBare(kept) && Stays(kept[|kept| - 1])
    ensures Strip(GITHUB + Join(kept, '/')) == GITHUB + Join(kept, '/')
  {
    PageIsBuilt(kept);
    StripBuilt("github.com", kept);
    NothingToCut(kept);
  }

  lemma PageOfIsBare(segments: seq<string>)
    requires |segments| >= 2 && AllBare(segments)
    ensures AllBare(PageOf(segments))
  {
    assert Bare("blob");
  }

  lemma PageContains(segments: seq<string>)
    requires |segments| >= 2
    ensures AnyContains(PageSegments(PageOf(segments)), RAW_HOST) <==> AnyContains(segments, RAW_HOST)
  {
    var all := PageSegments(PageOf(segments));
    assert segments == segments[..2] + segments[2..];
    if p :| p in all && Contains(p, RAW_HOST) {
      ContainsIsShorter(p, RAW_HOST);
      assert p in segments;
    }
    if p :| p in segments && Contains(p, RAW_HOST) {
      assert p in all;
    }
  }

  /** Raw to page: every raw URL of a document becomes the page URL of the same document. */
  lemma RawToPage(segments: seq<string>)
    requires Document(segments)
    ensures NormalizeSkillSourceUrl(RAW_GITHUB + Join(segments, '/')) == Some(GITHUB + Join(PageOf(segments), '/'))
  {
    PageIsBuilt(segments);
    assert AllPlain(segments) by { forall p | p in segments ensures Plain(p) { assert Bare(p); } }
    HostFacts();
    HostsArePlain();
    KeptOfBuilt(RAW_HOST, segments);
    NothingToCut(segments);
  }

  /** Page to raw: possible exactly when the raw host's name occurs in no segment. */
  lemma PageToRaw(segments: seq<string>)
    requires Document(segments)
    ensures var page := GITHUB + Join(PageOf(segments), '/');
            NormalizeToRawGithubUrl(page) ==
            if AnyContains(segments, RAW_HOST) then page else RAW_GITHUB + Join(segments, '/')
  {
    var kept := PageOf(segments);
    PageOfIsBare(segments);
    PageSplits(kept);
    PageMentions(segments);
    assert kept[|kept| - 1] == segments[|segments| - 1];
    PageIsTrimmed(kept);
    PageIsBlob(segments);
    RawFromPage(segments);
  }

  lemma RawFromPage(segments: seq<string>)
    requires Document(segments)
    ensures RawFrom(PageSegments(PageOf(segments))) == RAW_GITHUB + Join(segments, '/')
  {
    PageIsBlob(segments);
    JoinFour(segments);
  }

  lemma PageIsBlob(segments: seq<string>)
    requires Document(segments)
    ensures var s := PageSegments(PageOf(segments));
            && IsBlobPage(s)
            && s[3] == segments[0] && s[4] == segments[1] && s[6] == segments[2] && s[7..] == segments[3..]
  {
    var s, tail := PageSegments(PageOf(segments)), segments[3..];
    assert s[7..] == tail;
    forall p | p in tail ensures Bare(p) { assert p in segments; }
    assert Bare(segments[0]) && Bare(segments[1]) && Bare(segments[2]) && Bare(tail[0]);
    if '\n' in Join(tail, '/') { JoinedChars(tail, '\n'); }
  }

  lemma JoinFour(segments: seq<string>)
    requires |segments| >= 4
    ensures Join(segments, '/') ==
            segments[0] + "/" + (segments[1] + "/" + (segments[2] + "/" + Join(segments[3..], '/')))
  {
    assert segments[1..][1..] == segments[2..] && segments[2..][1..] == segments[3..];
    assert Join(segments[2..], '/') == segments[2] + "/" + Join(segments[3..], '/');
    assert Join(segments[1..], '/') == segments[1] + "/" + Join(segments[2..], '/');
  }

  /** Raw to page to raw is the identity exactly when no segment mentions the raw host. */
  lemma RawPageRaw(segments: seq<string>)
    requires Document(segments)
    ensures var raw := RAW_GITHUB + Join(segments, '/'); var page := NormalizeSkillSourceUrl(raw);
            page.Some? && (NormalizeToRawGithubUrl(page.value) == raw <==> !AnyContains(segments, RAW_HOST))
  {
    RawToPage(segments);
    PageToRaw(segments);
    HostsDiffer(Join(PageOf(segments), '/'), Join(segments, '/'));
  }

  lemma HostsDiffer(a: string, b: string)
    ensures GITHUB + a != RAW_GITHUB + b
  {
    assert (GITHUB + a)[8] == 'g' && (RAW_GITHUB + b)[8] == 'r';
  }

  /** Page to raw to page is always the identity. */
  lemma PageRawPage(segments: seq<string>)
    requires Document(segments)
    ensures var page := GITHUB + Join(PageOf(segments), '/');
            NormalizeSkillSourceUrl(NormalizeToRawGithubUrl(page)) == Some(page)
  {
    PageToRaw(segments);
    if AnyContains(segments, RAW_HOST) {
      PageStays(segments);
    } else {
      RawToPage(segments);
    }
  }

  lemma PageStays(segments: seq<string>)
    requires Document(segments)
    ensures var page := GITHUB + Join(PageOf(segments), '/'); NormalizeSkillSourceUrl(page) == Some(page)
  {
    PageOfIsBare(segments);
    assert PageOf(segments)[|PageOf(segments)| - 1] == segments[|segments| - 1];
    PageIdempotent(PageOf(segments));
  }
}
