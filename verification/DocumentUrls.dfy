/** Which of the URLs the worker takes for documents the database filter of the listing shows
    (app/workers/ingest_and_parse.py, app/repos/public_filters.py). */
module DocumentUrls {
  import opened Basics
  import opened PublicFilters
  import opened SkillUrls
  import opened Text
  import opened WorkerGates

  // ---------------------------------------------------------------- the last segment of a text

  function LastSegment(s: string): string {
    if s == "" || s[|s| - 1] == '/' then "" else LastSegment(s[..|s| - 1]) + [s[|s| - 1]]
  }

  lemma {:induction false} LastHasNoSlash(s: string)
    ensures '/' !in LastSegment(s)
    ensures '/' !in s ==> LastSegment(s) == s
  {
    if s == "" {
    } else {
      LastHasNoSlash(s[..|s| - 1]);
      assert s == s[..|s| - 1] + [s[|s| - 1]];
    }
  }

  lemma {:induction false} LastAfterSlash(a: string, b: string)
    ensures LastSegment(a + "/" + b) == LastSegment(b)
  {
    var s := a + "/" + b;
    if b == "" {
      assert s[|s| - 1] == '/';
    } else {
      assert s[..|s| - 1] == a + "/" + b[..|b| - 1] && s[|s| - 1] == b[|b| - 1];
      LastAfterSlash(a, b[..|b| - 1]);
    }
  }

  /** A text with a slash is what comes before the last one, and the last segment. */
  lemma {:induction false} LastTakesOff(s: string) returns (front: string)
    requires '/' in s
    ensures s == front + "/" + LastSegment(s)
  {
    var n := |s| - 1;
    if s[n] == '/' {
      front := s[..n];
    } else {
      assert s == s[..n] + [s[n]];
      front := LastTakesOff(s[..n]);
    }
  }

  lemma {:induction false} LastOfSplit(s: string)
    ensures Split(s, '/')[|Split(s, '/')| - 1] == LastSegment(s)
    decreases |s|
  {
    hide Split, LastSegment;
    var i := First(s, '/');
    if i == |s| {
      SplitNone(s, '/');
      LastHasNoSlash(s);
    } else {
      var rest := s[i + 1..];
      SplitFirst(s, '/', i);
      LastOfSplit(rest);
      LastAfterSlash(s[..i], rest);
      assert s == s[..i] + "/" + rest;
    }
  }

  lemma LowerTail(s: string)
    requires EndsWith(Lower(s), "/skill.md")
    ensures Lower(LastSegment(s)) == "skill.md" && '/' in s
  {
    var n := |s| - 9;
    assert Lower(s)[n..][0] == '/' && Lower(s)[n..][1..] == "skill.md";
    assert LowerChar(s[n]) == '/';
    var tail := s[n + 1..];
    assert Lower(tail) == Lower(s)[n..][1..];
    assert s == s[..n] + "/" + tail;
    LowerHasNoSlash(tail);
    LastAfterSlash(s[..n], tail);
    LastHasNoSlash(tail);
  }

  lemma LowerHasNoSlash(s: string)
    requires Lower(s) == "skill.md"
    ensures '/' !in s
  {
    forall i | 0 <= i < |s| ensures s[i] != '/' {
      assert Lower(s)[i] == LowerChar(s[i]) && "skill.md"[i] != '/';
    }
  }

  // ---------------------------------------------------------------- the last segment of a path

  function RawPath(u: string): string { UpTo(AfterNetloc(u), "?#") }

  lemma {:induction false} UpToAfter(a: string, b: string, stops: string)
    requires forall c | c in a :: c !in stops
    ensures UpTo(a + b, stops) == a + UpTo(b, stops)
  {
    if a == "" {
      assert a + b == b;
    } else {
      assert (a + b)[1..] == a[1..] + b;
      UpToAfter(a[1..], b, stops);
    }
  }

  /** Text without a stop, put behind another, is reached exactly when that one has no stop either. */
  lemma {:induction false} UpToBefore(a: string, b: string, stops: string)
    requires forall c | c in b :: c !in stops
    ensures UpTo(a + b, stops) == if UpTo(a, stops) == a then a + b else UpTo(a, stops)
  {
    if a == "" {
      assert a + b == b;
      UpToAll(b, stops);
    } else {
      assert (a + b)[1..] == a[1..] + b;
      UpToBefore(a[1..], b, stops);
      assert a == [a[0]] + a[1..];
    }
  }

  lemma NetlocEnds(rest: string)
    requires "//" <= rest
    ensures var netloc := UpTo(rest[2..], "/?#");
            rest == ("//" + netloc) + rest[2 + |netloc|..] && forall c | c in "//" + netloc :: c !in "?#"
  {
    var netloc := UpTo(rest[2..], "/?#");
    assert rest == "//" + rest[2..];
    assert rest[2..] == netloc + rest[2..][|netloc|..];
    assert rest[2..][|netloc|..] == rest[2 + |netloc|..];
  }

  lemma AfterNetlocIsSuffix(u: string) returns (prefix: string)
    ensures u == prefix + AfterNetloc(u) && forall c | c in prefix :: c !in "?#"
  {
    hide UpTo;
    var rest := AfterScheme(u);
    var scheme := SchemeText(u);
    prefix := scheme;
    if "//" <= rest {
      NetlocEnds(rest);
      prefix := scheme + ("//" + Netloc(u));
    }
  }

  lemma SchemeText(u: string) returns (scheme: string)
    ensures u == scheme + AfterScheme(u) && forall c | c in scheme :: c !in "?#"
  {
    if HasScheme(u) {
      var i := First(u, ':');
      scheme := u[..i] + ":";
      assert u == u[..i] + ":" + u[i + 1..];
    } else {
      scheme := "";
    }
  }

  lemma LastOfCut(p: string)
    ensures LastSegment(WithoutParams(p)) == UpTo(LastSegment(p), ";")
  {
    ParamsCut(p);
    LastOfSplit(WithoutParams(p));
    LastOfSplit(p);
  }

  /** The last segment, behind whatever text in front. */
  lemma LastBehind(prefix: string, p: string)
    requires '/' in p
    ensures LastSegment(prefix + p) == LastSegment(p)
  {
    var last := LastSegment(p);
    var front := LastTakesOff(p);
    assert prefix + p == (prefix + front) + "/" + last;
    LastAfterSlash(prefix + front, last);
    LastHasNoSlash(p);
    LastHasNoSlash(last);
  }

  /** The last segment of a parsed path that has a slash can be read off the URL itself. */
  lemma PathLast(u: string)
    requires UsesParams(Scheme(u)) && '/' in RawPath(u)
    ensures LastSegment(Path(u)) == UpTo(LastSegment(UpTo(u, "?#")), ";")
  {
    hide LastSegment, WithoutParams, UpTo, AfterNetloc, Scheme;
    var p := RawPath(u);
    LastOfCut(p);
    var prefix := AfterNetlocIsSuffix(u);
    UpToAfter(prefix, AfterNetloc(u), "?#");
    LastBehind(prefix, p);
  }

  lemma OneSegment(p: string)
    requires '/' !in p
    ensures Split(p, '/') == [p] && '/' !in WithoutParams(p) && Split(WithoutParams(p), '/') == [UpTo(p, ";")]
  {
    FirstNone(p, '/');
    assert p[..|p|] == p;
    ParamsCut(p);
    JoinSplit(WithoutParams(p), '/');
  }

  lemma {:induction false} NonEmptyIsShorter(s: seq<string>)
    ensures |NonEmpty(s)| <= |s|
  {
    if s == [] {
    } else {
      NonEmptyIsShorter(s[1..]);
    }
  }

  lemma SlashOfPath(u: string)
    ensures '/' in Path(u) || |Parts(u)| >= 2 ==> '/' in RawPath(u)
  {
    hide WithoutParams, UpTo, AfterNetloc, Scheme, Split, NonEmpty;
    if '/' !in RawPath(u) {
      OneSegment(RawPath(u));
      NonEmptyIsShorter(Split(Path(u), '/'));
    }
  }

  // ---------------------------------------------------------------- spaces around a URL

  predicate AllSpaces(s: string) { forall c | c in s :: IsSpace(c) }

  lemma Regrouped(a: string, b: string, c: string)
    ensures a + (b + c) == (a + b) + c
  {
  }

  lemma {:induction false} LeftSpaces(s: string) returns (a: string)
    ensures s == a + StripLeft(s) && AllSpaces(a)
  {
    if s != "" && IsSpace(s[0]) {
      var rest := LeftSpaces(s[1..]);
      a := [s[0]] + rest;
      Regrouped([s[0]], rest, StripLeft(s[1..]));
      assert s == [s[0]] + s[1..];
    } else {
      a := "";
    }
  }

  lemma {:induction false} RightSpaces(s: string) returns (b: string)
    ensures s == StripRight(s) + b && AllSpaces(b)
  {
    if s != "" && IsSpace(s[|s| - 1]) {
      var n := |s| - 1;
      var rest := RightSpaces(s[..n]);
      b := rest + [s[n]];
      Regrouped(StripRight(s[..n]), rest, [s[n]]);
      assert s == s[..n] + [s[n]];
    } else {
      b := "";
    }
  }

  lemma {:induction false} ControlsDropped(a: string, x: string) returns (a': string)
    requires AllSpaces(a) && x != "" && !IsControl(x[0])
    ensures DropControls(a + x) == a' + x && AllSpaces(a') && (a' == "" || !IsControl(a'[0]))
  {
    if a == "" {
      assert a + x == x;
      a' := "";
    } else if IsControl(a[0]) {
      assert (a + x)[1..] == a[1..] + x;
      a' := ControlsDropped(a[1..], x);
    } else {
      a' := a;
    }
  }

  lemma {:induction false} BreaksOfBoth(a: string, b: string)
    ensures WithoutBreaks(a + b) == WithoutBreaks(a) + WithoutBreaks(b)
  {
    if b == "" {
      assert a + b == a;
    } else {
      var n := |b| - 1;
      assert (a + b)[..|a + b| - 1] == a + b[..n];
      BreaksOfBoth(a, b[..n]);
    }
  }

  lemma {:induction false} FirstStays(s: string)
    requires s != "" && !IsBreak(s[0])
    ensures WithoutBreaks(s) != "" && WithoutBreaks(s)[0] == s[0]
  {
    if |s| == 1 {
      assert s[..0] == "";
    } else {
      FirstStays(s[..|s| - 1]);
    }
  }

  /** What is parsed of a URL is what is parsed of the stripped one, with spaces around it; those in
      front, if any are left, keep a scheme from being seen. */
  lemma SpacesAround(url: string) returns (a: string, b: string)
    requires IsHttp(Strip(url))
    ensures Scrub(url) == a + (Scrub(Strip(url)) + b) && AllSpaces(a) && AllSpaces(b) && (a == "" || !IsAlpha(a[0]))
  {
    var raw := Strip(url);
    HttpStart(raw);
    var left := LeftSpaces(url);
    var right := RightSpaces(StripLeft(url));
    var front := ControlsDropped(left, raw + right);
    assert url == left + (raw + right);
    BreaksOfBoth(front, raw + right);
    BreaksOfBoth(raw, right);
    a, b := WithoutBreaks(front), WithoutBreaks(right);
    WithoutBreaksHasNone(front);
    WithoutBreaksHasNone(right);
    if front != "" { FirstStays(front); }
    if a != "" { assert IsSpace(a[0]); }
  }

  lemma HttpStart(raw: string)
    requires IsHttp(raw)
    ensures raw != "" && !IsControl(raw[0]) && IsAlpha(raw[0]) && |raw| >= 7
  {
    assert LowerChar(raw[0]) == Lower(raw)[0] == 'h';
  }

  lemma LastBetween(a: string, t: string, b: string)
    requires '/' in t && '/' !in b
    ensures '/' in a + (t + b) && LastSegment(a + (t + b)) == LastSegment(t) + b
  {
    var last := LastSegment(t);
    var front := LastTakesOff(t);
    LastHasNoSlash(t);
    LastHasNoSlash(last + b);
    LastAfterSlash(a + front, last + b);
    assert a + (t + b) == (a + front) + "/" + (last + b);
  }

  lemma SpacedUpTo(a: string, r: string, b: string)
    requires AllSpaces(a) && AllSpaces(b)
    ensures UpTo(a + (r + b), "?#") == a + if UpTo(r, "?#") == r then r + b else UpTo(r, "?#")
  {
    SpacesStopNothing(a);
    SpacesStopNothing(b);
    UpToAfter(a, r + b, "?#");
    UpToBefore(r, b, "?#");
  }

  /** The path text of a URL with spaces around it. */
  lemma SpacedText(a: string, r: string, b: string)
    requires AllSpaces(a) && AllSpaces(b) && '/' in UpTo(r, "?#")
    ensures var t, w := UpTo(r, "?#"), UpTo(a + (r + b), "?#");
            LastSegment(w) == LastSegment(t) || LastSegment(w) == LastSegment(t) + b
  {
    hide LastSegment, UpTo;
    SpacedUpTo(a, r, b);
    SpacesStopNothing(b);
    LastBehind(a, UpTo(r, "?#"));
    LastBetween(a, UpTo(r, "?#"), b);
  }

  lemma SpacesStopNothing(s: string)
    requires AllSpaces(s)
    ensures forall c | c in s :: c != '/' && c != '?' && c != '#' && c != ';'
  {
  }

  lemma NoFileEndsInSpace(z: string, b: string)
    requires AllSpaces(b) && b != ""
    ensures Lower(z + b) != "skill.md"
  {
    var n := |z + b| - 1;
    assert (z + b)[n] == b[|b| - 1] && b[|b| - 1] in b;
    assert Lower(z + b)[n] == LowerChar(b[|b| - 1]);
    assert |"skill.md"| == 8 && "skill.md"[7] == 'd';
  }

  /** Spaces behind a file name do not go unnoticed, unless parameters come first. */
  lemma SpacedFile(z: string, b: string)
    requires AllSpaces(b) && Lower(UpTo(z + b, ";")) == "skill.md"
    ensures Lower(UpTo(z, ";")) == "skill.md"
  {
    hide Lower;
    SpacesStopNothing(b);
    UpToBefore(z, b, ";");
    if b == "" {
      assert z + b == z;
    } else {
      NoFileEndsInSpace(z, b);
    }
  }

  /** Which scheme a URL with spaces around it has. */
  lemma SpacedScheme(a: string, r: string, b: string)
    requires IsHttp(r) && (a == "" || !IsAlpha(a[0]))
    ensures UsesParams(Scheme(r)) && UsesParams(Scheme(a + (r + b)))
  {
    HttpScheme(r);
    if a == "" {
      HttpStays(r, b);
      HttpScheme(r + b);
      assert a + (r + b) == r + b;
    } else {
      assert (a + (r + b))[0] == a[0];
    }
  }

  lemma HttpStays(r: string, b: string)
    requires IsHttp(r)
    ensures IsHttp(r + b)
  {
    assert forall i | 0 <= i < |r| :: Lower(r + b)[i] == Lower(r)[i];
  }

  lemma HttpScheme(r: string)
    requires IsHttp(r)
    ensures Scheme(r) == "http" || Scheme(r) == "https"
  {
    var n := if "http://" <= Lower(r) then 4 else 5;
    var head := Lower(r)[..n];
    assert head == "http" || head == "https";
    assert LowerChar(r[n]) == Lower(r)[n] == ':';
    forall i | 0 <= i < n ensures IsAlpha(r[i]) { assert LowerChar(r[i]) == head[i]; }
    assert r == r[..n] + ":" + r[n + 1..];
    FirstIs(r[..n], ':', r[n + 1..]);
    assert Lower(r[..n]) == head;
  }

  lemma ScrubbedHttp(raw: string)
    requires IsHttp(raw)
    ensures IsHttp(Scrub(raw))
  {
    var n := if "http://" <= Lower(raw) then 7 else 8;
    HttpStart(raw);
    var head := raw[..n];
    forall i | 0 <= i < n ensures !IsBreak(raw[i]) { assert LowerChar(raw[i]) == Lower(raw)[i]; }
    NothingToScrubOut(head);
    BreaksOfBoth(head, raw[n..]);
    assert raw == head + raw[n..];
    assert Lower(head) == Lower(raw)[..n];
    HttpStays(head, WithoutBreaks(raw[n..]));
  }

  // ---------------------------------------------------------------- documents

  lemma {:induction false} NonEmptyKeepsLast(s: seq<string>)
    requires s != [] && s[|s| - 1] != ""
    ensures NonEmpty(s) != [] && NonEmpty(s)[|NonEmpty(s)| - 1] == s[|s| - 1]
  {
    if |s| == 1 {
    } else {
      NonEmptyKeepsLast(s[1..]);
    }
  }

  /** The stripped URL and the one with spaces around it end in the same file. */
  lemma SpacedFiles(a: string, r: string, b: string)
    requires AllSpaces(a) && AllSpaces(b) && UsesParams(Scheme(r)) && UsesParams(Scheme(a + (r + b)))
    requires '/' in RawPath(r) && '/' in RawPath(a + (r + b)) && Lower(LastSegment(Path(a + (r + b)))) == "skill.md"
    ensures Lower(LastSegment(Path(r))) == "skill.md"
  {
    hide Path, LastSegment, UpTo, Scheme, RawPath, Lower;
    PathLast(a + (r + b));
    PathLast(r);
    SlashInText(r);
    SpacedText(a, r, b);
    var z := LastSegment(UpTo(r, "?#"));
    if LastSegment(UpTo(a + (r + b), "?#")) == z + b { SpacedFile(z, b); }
  }

  lemma LastPart(r: string)
    requires Lower(LastSegment(Path(r))) == "skill.md"
    ensures Parts(r) != [] && Parts(r)[|Parts(r)| - 1] == LastSegment(Path(r))
  {
    hide Path, LastSegment, NonEmpty, Lower;
    LastOfSplit(Path(r));
    NotBlank(LastSegment(Path(r)));
    NonEmptyKeepsLast(Split(Path(r), '/'));
  }

  /** A URL whose path ends in the file name has that name as its last part, spaces around it or not. */
  lemma FileIsLastPart(url: string)
    requires IsHttp(Strip(url)) && EndsWith(Lower(Path(Scrub(url))), "/skill.md") && |Parts(Scrub(Strip(url)))| >= 2
    ensures var parts := Parts(Scrub(Strip(url))); Lower(parts[|parts| - 1]) == "skill.md"
  {
    hide Path, Scrub, LastSegment, UpTo, Scheme, NonEmpty, Lower, RawPath, Strip, Parts, IsHttp, UsesParams;
    var r, w := Scrub(Strip(url)), Scrub(url);
    var a, b := SpacesAround(url);
    ScrubbedHttp(Strip(url));
    SpacedScheme(a, r, b);
    LowerTail(Path(w));
    SlashOfPath(w);
    SlashOfPath(r);
    SpacedFiles(a, r, b);
    LastPart(r);
  }

  lemma NotBlank(s: string)
    requires Lower(s) == "skill.md"
    ensures s != ""
  {
  }

  lemma SlashInText(u: string)
    requires '/' in RawPath(u)
    ensures '/' in UpTo(u, "?#")
  {
    var prefix := AfterNetlocIsSuffix(u);
    UpToAfter(prefix, AfterNetloc(u), "?#");
  }

  lemma KeptLast(host: string, parts: seq<string>, kept: seq<string>)
    requires KeptFrom(host, parts) == Some(kept) && |kept| >= 5
    ensures |parts| >= 4 && kept[|kept| - 1] == parts[|parts| - 1]
  {
  }

  /** Of a URL that names a skill file, what normalisation keeps carries no parameters. */
  lemma KeptDocument(url: string, kept: seq<string>)
    requires EndsWith(Lower(Path(Scrub(url))), "/skill.md") && Kept(url) == Some(kept) && |kept| >= 5
    ensures ';' !in kept[|kept| - 1]
  {
    hide Path, Scrub, Lower, Strip, Parts, KeptFrom;
    var u := Scrub(Strip(url));
    KeptLast(Lower(Netloc(u)), Parts(u), kept);
    FileIsLastPart(url);
    if ';' in kept[|kept| - 1] { NotTheFile(kept[|kept| - 1]); }
  }

  // ---------------------------------------------------------------- what the database filter shows is kept

  lemma SqlHead(url: string)
    requires SqlPublic(url)
    ensures |url| >= 20 && Lower(url)[..19] == GITHUB && LowerChar(url[|url| - 1]) == 'd'
  {
    hide Split, Join, LastSegment;
    var s := Split(Lower(url), '/');
    JoinSplit(Lower(url), '/');
    assert PageSegments(s[3..]) == s;
    PageJoined(s[3..]);
    assert Lower(url) == GITHUB + Join(s[3..], '/');
    LastOfSplit(Lower(url));
    FileAtTheEnd(Lower(url), Join(s[3..], '/'));
  }

  lemma LastChar(s: string)
    requires LastSegment(s) != ""
    ensures s != "" && s[|s| - 1] == LastSegment(s)[|LastSegment(s)| - 1]
  {
  }

  lemma LongerThanHead(s: string, rest: string)
    requires s == GITHUB + rest && s[|s| - 1] == 'd'
    ensures |s| >= 20
  {
    assert |GITHUB| == 19 && GITHUB[18] == '/';
    assert s[18] == GITHUB[18];
  }

  lemma FileAtTheEnd(s: string, rest: string)
    requires LastSegment(s) == FILE && s == GITHUB + rest
    ensures |s| >= 20 && s[|s| - 1] == 'd'
  {
    hide LastSegment;
    LastChar(s);
    assert FILE[|FILE| - 1] == 'd';
    LongerThanHead(s, rest);
  }

  lemma GithubHeadStays(url: string)
    requires |url| >= 20 && Lower(url)[..19] == GITHUB && LowerChar(url[|url| - 1]) == 'd'
    ensures Strip(url) == url && IsHttp(url)
    ensures Scrub(url) == url[..19] + WithoutBreaks(url[19..])
  {
    var head := url[..19];
    assert forall i | 0 <= i < 19 :: LowerChar(url[i]) == Lower(url)[..19][i] == GITHUB[i];
    assert Lower(url)[..8] == Lower(url)[..19][..8] == "https://";
    assert LowerChar(url[0]) == 'h';
    StripTrims(url);
    forall c | c in head ensures !IsBreak(c) {
      var i :| 0 <= i < 19 && head[i] == c;
      assert LowerChar(url[i]) == GITHUB[i];
    }
    NothingToScrubOut(head);
    BreaksOfBoth(head, url[19..]);
    assert url == head + url[19..];
  }

  lemma GithubText(u: string, i: nat)
    requires |u| >= 19 && Lower(u[..19]) == GITHUB && i < 19
    ensures LowerChar(u[i]) == GITHUB[i]
  {
    assert Lower(u[..19])[i] == LowerChar(u[i]);
  }

  lemma GithubScheme(u: string)
    requires |u| >= 19 && Lower(u[..19]) == GITHUB
    ensures AfterScheme(u) == u[6..]
  {
    hide Lower;
    forall i | 0 <= i < 6 ensures LowerChar(u[i]) == GITHUB[i] { GithubText(u, i); }
    forall i | 0 <= i < 5 ensures IsAlpha(u[i]) { assert LowerChar(u[i]) == GITHUB[i]; }
    assert u == u[..5] + ":" + u[6..];
    FirstIs(u[..5], ':', u[6..]);
  }

  lemma GithubHost(u: string)
    requires |u| >= 19 && Lower(u[..19]) == GITHUB
    ensures u[6..] == "//" + (u[8..18] + "/" + u[19..])
    ensures Plain(u[8..18]) && Lower(u[8..18]) == "github.com"
  {
    forall i | 6 <= i < 19 ensures LowerChar(u[i]) == GITHUB[i] { GithubText(u, i); }
    assert u[6] == '/' && u[7] == '/' && u[18] == '/';
    var host := u[8..18];
    forall i | 0 <= i < 10 ensures SegmentChar(host[i]) && LowerChar(host[i]) == "github.com"[i] {
      assert LowerChar(u[8 + i]) == GITHUB[8 + i];
    }
  }

  lemma GithubNetloc(u: string)
    requires |u| >= 19 && Lower(u[..19]) == GITHUB
    ensures Lower(Netloc(u)) == "github.com"
  {
    hide Lower, Netloc, AfterScheme;
    GithubScheme(u);
    GithubHost(u);
    NetlocOfBuilt(u, u[8..18], u[19..]);
  }

  lemma TwoParts(s: seq<string>)
    requires |s| >= 2 && s[|s| - 2] != "" && s[|s| - 1] != ""
    ensures |NonEmpty(s)| >= 2
  {
    var n := |s| - 2;
    assert s == s[..n] + [s[n], s[n + 1]];
    NonEmptyAppend(s[..n], [s[n], s[n + 1]]);
    assert [s[n], s[n + 1]][1..] == [s[n + 1]];
  }

  lemma CanonicalParts(u: string)
    requires RuntimeSegments(Split(Lower(Path(u)), '/'))
    ensures |Parts(u)| >= 2
  {
    hide Path, Split, NonEmpty;
    var s := Split(Path(u), '/');
    SplitLower(Path(u));
    TwoParts(s);
  }

  /** Every URL that the database filter shows and the worker takes for a document is one that
      normalisation knows. */
  lemma ListedIsKept(url: string)
    requires SqlPublic(url) && IsCanonicalSkillDocUrl(url)
    ensures Kept(url).Some?
  {
    hide Path, Lower, Split, Strip, NonEmpty, WithoutBreaks, Netloc;
    var u := Scrub(url);
    SqlHead(url);
    GithubHeadStays(url);
    HeadOfLower(url);
    assert u[..19] == url[..19];
    GithubNetloc(u);
    CanonicalParts(u);
    HostFacts();
  }

  lemma HeadOfLower(url: string)
    requires |url| >= 19
    ensures Lower(url[..19]) == Lower(url)[..19]
  {
  }

  // ---------------------------------------------------------------- which documents are shown

  /** Of the URLs the worker takes for documents, the database filter shows exactly those that
      normalisation knows as GitHub files with the skills directory, or .claude, at the top of the
      repository. */
  lemma ShownIff(url: string)
    requires IsSkillMdSourceUrl(url) && IsCanonicalSkillDocUrl(CanonicalUrl(url))
    ensures SqlPublic(CanonicalUrl(url)) <==> Kept(url).Some? && TopLevel(Kept(url).value)
  {
    hide Path, Scrub, Lower, Split, Kept, SqlPublic, IsCanonicalSkillDocUrl, Join;
    if Kept(url).Some? {
      var kept := Kept(url).value;
      KeptHasShape(url);
      KeptIs(url, kept);
      StoredIsListed(kept);
      if |kept| >= 5 { KeptDocument(url, kept); }
    } else if SqlPublic(url) {
      ListedIsKept(url);
    }
  }

  /** A document on any other host is taken and never shown. */
  lemma OtherHostsAreHidden(h: string, segments: seq<string>)
    requires Plain(h) && !Contains(Lower(h), RAW_HOST) && !Contains(Lower(h), "github.com")
    requires segments != [] && AllBare(segments) && SkillsTail([""] + AllLower(segments), FILE)
    ensures var url := Built(h, segments);
            && IsSkillMdSourceUrl(url) && IsCanonicalSkillDocUrl(CanonicalUrl(url))
            && Kept(url).None? && !SqlPublic(CanonicalUrl(url))
  {
    var url := Built(h, segments);
    OtherHostIsUnknown(h, segments);
    OtherHostPath(h, segments);
    EndsInFile(Path(Scrub(url)), segments);
    SplitAllLower(Path(Scrub(url)));
    LowerSegments(segments);
    ShownIff(url);
  }

  lemma OtherHostIsUnknown(h: string, segments: seq<string>)
    requires Plain(h) && !Contains(Lower(h), RAW_HOST) && !Contains(Lower(h), "github.com")
    requires segments != [] && AllBare(segments)
    ensures Kept(Built(h, segments)).None? && CanonicalUrl(Built(h, segments)) == Built(h, segments)
  {
    PlainOfBare(segments);
    KeptOfBuilt(h, segments);
  }

  lemma OtherHostPath(h: string, segments: seq<string>)
    requires Plain(h) && segments != [] && AllBare(segments) && Lower(segments[|segments| - 1]) == FILE
    ensures Split(Path(Scrub(Built(h, segments))), '/') == [""] + segments
  {
    hide Path, Scrub, Lower, Built, Cut;
    PlainOfBare(segments);
    BuiltIsScrubbed(h, segments);
    PathSplits(h, segments);
    if ';' in segments[|segments| - 1] { NotTheFile(segments[|segments| - 1]); }
    NoParams(segments);
  }

  lemma EndsInFile(path: string, segments: seq<string>)
    requires segments != [] && Split(path, '/') == [""] + segments && Lower(segments[|segments| - 1]) == FILE
    ensures EndsWith(Lower(path), "/skill.md")
  {
    hide Split;
    LastOfSplit(path);
    var last := LastSegment(path);
    if '/' !in path {
      FirstNone(path, '/');
      OneSegment(path);
    }
    var front := LastTakesOff(path);
    assert Lower(path) == Lower(front) + "/" + Lower(last);
  }
}
