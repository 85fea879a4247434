/** Which skill URLs are public: the pattern the database applies and the one the runtime applies
    (app/repos/public_filters.py), and the worker's test for a canonical document
    (app/workers/ingest_and_parse.py). */
module PublicFilters {
  import opened Basics
  import opened Text
  import opened SkillUrls

  // ---------------------------------------------------------------- patterns on segments

  /** The text ends in a slash and the given segments. */
  ghost predicate EndsInSegments(s: string, tail: seq<string>) {
    exists pre :: s == pre + "/" + Join(tail, '/')
  }

  predicate HasTail(segments: seq<string>, tail: seq<string>) {
    |segments| > |tail| && segments[|segments| - |tail|..] == tail
  }

  lemma {:induction false} JoinAppend(a: seq<string>, b: seq<string>)
    requires a != [] && b != []
    ensures Join(a + b, '/') == Join(a, '/') + "/" + Join(b, '/')
  {
    if |a| == 1 {
      assert (a + b)[1..] == b;
    } else {
      assert (a + b)[1..] == a[1..] + b;
      JoinAppend(a[1..], b);
    }
  }

  lemma SplitAppend(a: string, b: string)
    ensures Split(a + "/" + b, '/') == Split(a, '/') + Split(b, '/')
  {
    JoinSplit(a, '/');
    JoinSplit(b, '/');
    var parts, more := Split(a, '/'), Split(b, '/');
    JoinAppend(parts, more);
    SplitJoin(parts + more, '/');
  }

  /** Searching a text for slash-separated pieces at its end is looking at its last segments. */
  lemma EndsIsTail(s: string, tail: seq<string>)
    requires tail != [] && forall p | p in tail :: '/' !in p
    ensures EndsInSegments(s, tail) <==> HasTail(Split(s, '/'), tail)
  {
    var segments := Split(s, '/');
    if pre :| s == pre + "/" + Join(tail, '/') {
      SplitAppend(pre, Join(tail, '/'));
      SplitJoin(tail, '/');
    }
    if HasTail(segments, tail) {
      var front := segments[..|segments| - |tail|];
      assert segments == front + tail;
      JoinAppend(front, tail);
      JoinSplit(s, '/');
    }
  }

  // ---------------------------------------------------------------- the policies

  const BLOB := "blob"
  const SKILLS := "skills"
  const CLAUDE := ".claude"
  const FILE := "skill.md"

  /** `/blob/[^/]+/skills/[^/]+/<file>` at the end. */
  predicate SkillsTail(s: seq<string>, file: string) {
    var n := |s|;
    n >= 6 && s[n - 5] == BLOB && s[n - 4] != "" && s[n - 3] == SKILLS && s[n - 2] != "" && s[n - 1] == file
  }

  /** `/blob/[^/]+/.claude/skills/[^/]+/<file>` at the end. */
  predicate ClaudeTail(s: seq<string>, file: string) {
    var n := |s|;
    n >= 7 && s[n - 6] == BLOB && s[n - 5] != "" && s[n - 4] == CLAUDE && s[n - 3] == SKILLS && s[n - 2] != ""
    && s[n - 1] == file
  }

  predicate DocumentTail(s: seq<string>, file: string) { SkillsTail(s, file) || ClaudeTail(s, file) }

  /** `^https://github\.com/[^/]+/[^/]+/` at the start. */
  predicate GithubHead(s: seq<string>) {
    |s| >= 5 && s[0] == "https:" && s[1] == "" && s[2] == "github.com" && s[3] != "" && s[4] != ""
  }

  /** The database pattern, matched against the whole URL, ignoring case. */
  predicate SqlPublic(url: string) { SqlSegments(Split(Lower(url), '/')) }

  predicate SqlSegments(s: seq<string>) {
    GithubHead(s) && ((|s| == 10 && SkillsTail(s, FILE)) || (|s| == 11 && ClaudeTail(s, FILE)))
  }

  /** The runtime pattern, searched for in the lowered URL; its `$` also matches before a final newline. */
  predicate RuntimePublic(url: string) { RuntimeSegments(Split(Lower(url), '/')) }

  /** The same pattern on the path alone. */
  predicate IsCanonicalSkillDocUrl(url: string) { RuntimeSegments(Split(Lower(Path(Scrub(url))), '/')) }

  predicate RuntimeSegments(s: seq<string>) { DocumentTail(s, FILE) || DocumentTail(s, FILE + "\n") }

  function SkillsPieces(x: string, y: string): seq<string> { [BLOB, x, SKILLS, y, FILE] }
  function ClaudePieces(x: string, y: string): seq<string> { [BLOB, x, CLAUDE, SKILLS, y, FILE] }

  predicate Piece(x: string) { x != "" && '/' !in x }

  lemma SkillsPiecesAreTail(t: seq<string>, x: string, y: string)
    requires Piece(x) && Piece(y)
    ensures HasTail(t, SkillsPieces(x, y)) <==> SkillsTail(t, FILE) && t[|t| - 4] == x && t[|t| - 2] == y
  {
    var n := |t|;
    if HasTail(t, SkillsPieces(x, y)) {
      var tail := t[n - 5..];
      assert forall k | 0 <= k < 5 :: tail[k] == t[n - 5 + k];
    }
  }

  lemma ClaudePiecesAreTail(t: seq<string>, x: string, y: string)
    requires Piece(x) && Piece(y)
    ensures HasTail(t, ClaudePieces(x, y)) <==> ClaudeTail(t, FILE) && t[|t| - 5] == x && t[|t| - 2] == y
  {
    var n := |t|;
    if HasTail(t, ClaudePieces(x, y)) {
      var tail := t[n - 6..];
      assert forall k | 0 <= k < 6 :: tail[k] == t[n - 6 + k];
    }
  }

  /** What the patterns say of the text: it ends in the literal pieces, with one segment each in between. */
  lemma SkillsMeaning(s: string)
    ensures SkillsTail(Split(s, '/'), FILE) <==>
            exists x, y :: Piece(x) && Piece(y) && EndsInSegments(s, SkillsPieces(x, y))
  {
    var t := Split(s, '/');
    if SkillsTail(t, FILE) {
      SkillsPiecesAreTail(t, t[|t| - 4], t[|t| - 2]);
      EndsIsTail(s, SkillsPieces(t[|t| - 4], t[|t| - 2]));
    }
    if x, y :| Piece(x) && Piece(y) && EndsInSegments(s, SkillsPieces(x, y)) {
      EndsIsTail(s, SkillsPieces(x, y));
      SkillsPiecesAreTail(t, x, y);
    }
  }

  lemma ClaudeMeaning(s: string)
    ensures ClaudeTail(Split(s, '/'), FILE) <==>
            exists x, y :: Piece(x) && Piece(y) && EndsInSegments(s, ClaudePieces(x, y))
  {
    var t := Split(s, '/');
    if ClaudeTail(t, FILE) {
      ClaudePiecesAreTail(t, t[|t| - 5], t[|t| - 2]);
      EndsIsTail(s, ClaudePieces(t[|t| - 5], t[|t| - 2]));
    }
    if x, y :| Piece(x) && Piece(y) && EndsInSegments(s, ClaudePieces(x, y)) {
      EndsIsTail(s, ClaudePieces(x, y));
      ClaudePiecesAreTail(t, x, y);
    }
  }

  // ---------------------------------------------------------------- how the policies compare

  /** What the database shows, the runtime shows too; and a text the runtime accepts is shown by the
      database exactly when it has no final newline, is a GitHub page, and the "blob" the pattern
      found is the segment after owner and repository. */
  lemma SqlIffRuntime(url: string)
    ensures var s := Split(Lower(url), '/');
            SqlPublic(url) <==>
            && RuntimePublic(url)
            && GithubHead(s) && s[|s| - 1] == FILE
            && ((|s| == 10 && s[7] == SKILLS) || (|s| == 11 && s[7] == CLAUDE)) && s[5] == BLOB
  {
  }

  /** On GitHub pages whose only "blob" segment is the third, without a newline, the two policies agree. */
  lemma PoliciesAgree(url: string)
    requires var s := Split(Lower(url), '/');
             && GithubHead(s) && |s| >= 6
             && s[5] == BLOB && (forall i | 0 <= i < |s| && s[i] == BLOB :: i == 5)
             && s[|s| - 1] != FILE + "\n"
    ensures SqlPublic(url) <==> RuntimePublic(url)
  {
    SqlIffRuntime(url);
  }

  // ---------------------------------------------------------------- what the worker stores and the listing shows

  lemma LowerSlices(s: string, i: nat)
    requires i < |s|
    ensures Lower(s)[..i] == Lower(s[..i]) && Lower(s)[i + 1..] == Lower(s[i + 1..])
  {
  }

  lemma {:induction false} SplitLower(s: string)
    ensures |Split(Lower(s), '/')| == |Split(s, '/')|
    ensures forall i | 0 <= i < |Split(s, '/')| :: Split(Lower(s), '/')[i] == Lower(Split(s, '/')[i])
    decreases |s|
  {
    hide Split;
    var i := First(s, '/');
    FirstLower(s);
    if i == |s| {
      SplitNone(s, '/');
      SplitNone(Lower(s), '/');
    } else {
      LowerSlices(s, i);
      SplitLower(s[i + 1..]);
      SplitFirst(s, '/', i);
      SplitFirst(Lower(s), '/', i);
    }
  }

  lemma {:induction false} FirstLower(s: string)
    ensures First(Lower(s), '/') == First(s, '/')
  {
    if s == "" || s[0] == '/' {
    } else {
      assert Lower(s)[1..] == Lower(s[1..]);
      FirstLower(s[1..]);
    }
  }

  function AllLower(segments: seq<string>): seq<string> {
    seq(|segments|, i requires 0 <= i < |segments| => Lower(segments[i]))
  }

  lemma SplitAllLower(s: string)
    ensures Split(Lower(s), '/') == AllLower(Split(s, '/'))
  {
    SplitLower(s);
  }

  /** The segments of a page the worker built, lowered: those of the whole URL and those of its path. */
  lemma PageLowered(kept: seq<string>)
    requires KeptShape(kept) && ';' !in kept[|kept| - 1]
    ensures Split(Lower(GITHUB + Join(kept, '/')), '/') == PageSegments(AllLower(kept))
    ensures Split(Lower(Path(Scrub(GITHUB + Join(kept, '/')))), '/') == [""] + AllLower(kept)
  {
    var page := GITHUB + Join(kept, '/');
    PageSplits(kept);
    SplitAllLower(page);
    LowerSegments(kept);
    PagePath(kept);
    SplitAllLower(Path(Scrub(page)));
  }

  lemma LowerSegments(kept: seq<string>)
    ensures AllLower(PageSegments(kept)) == PageSegments(AllLower(kept))
    ensures AllLower([""] + kept) == [""] + AllLower(kept)
  {
    LowerFixed();
  }

  lemma LowerFixed()
    ensures Lower("https:") == "https:" && Lower("") == "" && Lower("github.com") == "github.com"
            && Lower("blob") == "blob"
  {
  }

  lemma NoParams(kept: seq<string>)
    requires kept != [] && ';' !in kept[|kept| - 1]
    ensures Cut(kept) == kept
  {
    UpToAll(kept[|kept| - 1], ";");
  }

  lemma PagePath(kept: seq<string>)
    requires KeptShape(kept) && ';' !in kept[|kept| - 1]
    ensures Split(Path(Scrub(GITHUB + Join(kept, '/'))), '/') == [""] + kept
  {
    hide Path, Scrub, Join, Cut;
    PlainOfBare(kept);
    PagePathSplits(kept);
    NoParams(kept);
  }

  /** The shapes the database filter shows: the skills directory, or the one under .claude, at the top
      of a repository. */
  predicate TopLevel(kept: seq<string>) {
    |kept| == 7 || (|kept| == 8 && Lower(kept[4]) == CLAUDE)
  }

  /** What the listing's database filter shows is exactly what the worker accepts as a canonical
      document with its "blob" right after owner and repository: a document deeper in the tree is
      stored but never listed, and neither is one whose page carries parameters. */
  lemma StoredIsListed(kept: seq<string>)
    requires KeptShape(kept)
    ensures SqlPublic(GITHUB + Join(kept, '/')) <==>
            IsCanonicalSkillDocUrl(GITHUB + Join(kept, '/')) && TopLevel(kept) && ';' !in kept[|kept| - 1]
  {
    if ';' in kept[|kept| - 1] {
      ParametersAreNotListed(kept);
    } else {
      PageLowered(kept);
      StoredSegments(kept);
    }
  }

  lemma NotTheFile(last: string)
    requires ';' in last
    ensures Lower(last) != FILE
  {
    var i :| 0 <= i < |last| && last[i] == ';';
    assert Lower(last)[i] == ';';
    assert ';' !in FILE;
  }

  lemma LastLowered(kept: seq<string>)
    requires KeptShape(kept)
    ensures var s := Split(Lower(GITHUB + Join(kept, '/')), '/'); s[|s| - 1] == Lower(kept[|kept| - 1])
  {
    hide Lower, Join, Split;
    PageSplits(kept);
    SplitLower(GITHUB + Join(kept, '/'));
  }

  lemma ParametersAreNotListed(kept: seq<string>)
    requires KeptShape(kept) && ';' in kept[|kept| - 1]
    ensures !SqlPublic(GITHUB + Join(kept, '/'))
  {
    hide Lower, Join, Split;
    LastLowered(kept);
    NotTheFile(kept[|kept| - 1]);
  }

  /** A bare segment has no newline, lowered or not. */
  lemma NoNewline(segment: string)
    requires Bare(segment)
    ensures Lower(segment) != FILE + "\n"
  {
    var n := |segment| - 1;
    assert segment[n] in segment;
    assert (FILE + "\n")[|FILE|] == '\n';
    assert Lower(segment)[n] == LowerChar(segment[n]);
  }

  lemma StoredSegments(kept: seq<string>)
    requires KeptShape(kept)
    ensures SqlSegments(PageSegments(AllLower(kept))) <==>
            && RuntimeSegments([""] + AllLower(kept)) && TopLevel(kept)
  {
    LowerFixed();
    NoNewline(kept[|kept| - 1]);
    assert Bare(kept[0]) && Bare(kept[1]);
    TailsAgree(AllLower(kept), PageSegments(AllLower(kept)), [""] + AllLower(kept));
  }

  /** Both patterns on lowered segments: s of the whole URL, with its head, and p of the path. */
  lemma TailsAgree(low: seq<string>, s: seq<string>, p: seq<string>)
    requires |low| >= 2 && (|low| >= 5 ==> low[2] == BLOB)
    requires |s| == |low| + 3 && (forall j | 3 <= j < |s| :: s[j] == low[j - 3])
    requires |p| == |low| + 1 && (forall j | 1 <= j < |p| :: p[j] == low[j - 1])
    ensures (|s| == 10 && SkillsTail(s, FILE)) || (|s| == 11 && ClaudeTail(s, FILE)) <==>
            DocumentTail(p, FILE) && (|low| == 7 || (|low| == 8 && low[4] == CLAUDE))
  {
  }
}
