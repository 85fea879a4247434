/** The skill catalogue: how the worker files an accepted document, with the migration of legacy
    repository rows and the slug allocator (app/workers/ingest_and_parse.py). */
module Catalogue {
  import opened Basics
  import opened Text
  import opened Frontmatter
  import TrustScore

  /** What every parse overwrites. */
  datatype Details = Details(quality: int, stars: Option<int>, updatedAt: Option<int>, useCases: seq<string>)

  /** A row of the catalogue; its position stands for its id. */
  datatype Skill = Skill(
    name: string,
    slug: string,
    url: Option<string>,
    description: string,
    content: string,
    category: Option<nat>,
    official: bool,
    verified: bool,
    details: Details,
    trust: Option<TrustScore.Profile>,
    trustOverridden: bool)

  /** What the worker wants filed: `slug` is the slug it will try first. */
  datatype Candidate = Candidate(
    name: string,
    url: string,
    repoUrl: string,
    slug: string,
    description: string,
    content: string,
    category: Option<nat>,
    details: Details,
    trust: TrustScore.Profile)

  // ---------------------------------------------------------------- slugs

  function Digit(d: nat): char
    requires d < 10
  {
    '0' + d as char
  }

  function Decimal(n: nat): string {
    if n < 10 then [Digit(n)] else Decimal(n / 10) + [Digit(n % 10)]
  }

  function ValueOf(s: string): int {
    if s == "" then 0 else 10 * ValueOf(s[..|s| - 1]) + (s[|s| - 1] as int - '0' as int)
  }

  lemma {:induction false} DecimalReadsBack(n: nat)
    ensures ValueOf(Decimal(n)) == n
  {
    if n < 10 {
    } else {
      DecimalReadsBack(n / 10);
      assert Decimal(n)[..|Decimal(n)| - 1] == Decimal(n / 10);
    }
  }

  /** The k-th slug tried: the slug itself, then numbered ones. */
  function Nth(slug: string, k: nat): string { if k == 0 then slug else slug + "-" + Decimal(k) }

  lemma NthIsInjective(slug: string, j: nat, k: nat)
    requires Nth(slug, j) == Nth(slug, k)
    ensures j == k
  {
    if j > 0 && k > 0 {
      assert Nth(slug, j)[|slug| + 1..] == Decimal(j) && Nth(slug, k)[|slug| + 1..] == Decimal(k);
      DecimalReadsBack(j);
      DecimalReadsBack(k);
    }
  }

  predicate SlugChar(c: char) { 'a' <= c <= 'z' || '0' <= c <= '9' || c == '-' }

  /** The slug characters of a text, blanks and slashes turned into dashes. */
  function SlugChars(s: string): string {
    if s == "" then ""
    else
      var pre, c := SlugChars(s[..|s| - 1]), LowerChar(s[|s| - 1]);
      if c == ' ' || c == '/' then pre + "-" else if SlugChar(c) then pre + [c] else pre
  }

  function TrimLeft(s: string): string { if s != "" && s[0] == '-' then TrimLeft(s[1..]) else s }

  function TrimRight(s: string): string { if s != "" && s[|s| - 1] == '-' then TrimRight(s[..|s| - 1]) else s }

  function SlugifyText(value: string): string { TrimRight(TrimLeft(SlugChars(value))) }

  /** The slug a document asks for, from its name and a digest of its URL. */
  function SlugFor(name: string, digest: string): string {
    (if SlugifyText(name) == "" then "skill" else SlugifyText(name)) + "-" + digest
  }

  predicate SlugSafe(s: string) { s != "" && forall c | c in s :: SlugChar(c) }

  lemma {:induction false} SlugCharsAreSafe(s: string)
    ensures forall c | c in SlugChars(s) :: SlugChar(c)
  {
    if s == "" {
    } else {
      SlugCharsAreSafe(s[..|s| - 1]);
    }
  }

  lemma {:induction false} TrimKeeps(s: string)
    ensures forall c | c in TrimLeft(s) :: c in s
    ensures forall c | c in TrimRight(s) :: c in s
    decreases |s|
  {
    if s == "" {
    } else {
      TrimKeeps(s[1..]);
      TrimKeeps(s[..|s| - 1]);
    }
  }

  lemma {:induction false} DecimalIsSafe(n: nat)
    ensures SlugSafe(Decimal(n))
  {
    if n < 10 {
    } else {
      DecimalIsSafe(n / 10);
    }
  }

  /** Every slug that is ever tried is safe in a URL, whatever the document is called. */
  lemma SlugsAreSafe(name: string, digest: string, k: nat)
    requires SlugSafe(digest)
    ensures SlugSafe(Nth(SlugFor(name, digest), k))
  {
    SlugCharsAreSafe(name);
    TrimKeeps(SlugChars(name));
    TrimKeeps(TrimLeft(SlugChars(name)));
    DecimalIsSafe(k);
  }

  function Slugs(skills: seq<Skill>): set<string> { set s | s in skills :: s.slug }

  lemma {:induction false} FewSlugs(skills: seq<Skill>)
    ensures |Slugs(skills)| <= |skills|
  {
    if skills == [] {
    } else {
      var n := |skills| - 1;
      FewSlugs(skills[..n]);
      assert skills == skills[..n] + [skills[n]];
      assert Slugs(skills) == Slugs(skills[..n]) + {skills[n].slug};
    }
  }

  function Tried(slug: string, k: nat): set<string> { set j | 0 <= j < k :: Nth(slug, j) }

  lemma {:induction false} TriedAreDistinct(slug: string, k: nat)
    ensures |Tried(slug, k)| == k
  {
    if k == 0 {
    } else {
      TriedAreDistinct(slug, k - 1);
      if Nth(slug, k - 1) in Tried(slug, k - 1) {
        var j :| 0 <= j < k - 1 && Nth(slug, j) == Nth(slug, k - 1);
        NthIsInjective(slug, j, k - 1);
      }
      assert Tried(slug, k) == Tried(slug, k - 1) + {Nth(slug, k - 1)};
    }
  }

  predicate TakenBelow(skills: seq<Skill>, slug: string, k: nat) {
    forall j | 0 <= j < k :: Nth(slug, j) in Slugs(skills)
  }

  /** A catalogue of n rows cannot hold n + 1 different slugs. */
  lemma TakenAreFew(skills: seq<Skill>, slug: string, k: nat)
    requires TakenBelow(skills, slug, k)
    ensures k <= |skills|
  {
    TriedAreDistinct(slug, k);
    SubsetCount(Tried(slug, k), Slugs(skills));
    FewSlugs(skills);
  }

  /** The first free position at or after k. */
  function FreeFrom(skills: seq<Skill>, slug: string, k: nat): (r: nat)
    requires TakenBelow(skills, slug, k)
    ensures k <= r <= |skills|
    ensures Nth(slug, r) !in Slugs(skills) && TakenBelow(skills, slug, r)
    decreases |skills| + 1 - k
  {
    TakenAreFew(skills, slug, k);
    if Nth(slug, k) in Slugs(skills) then
      TakenAreFew(skills, slug, k + 1);
      FreeFrom(skills, slug, k + 1)
    else k
  }

  function FreeSlug(skills: seq<Skill>, slug: string): string { Nth(slug, FreeFrom(skills, slug, 0)) }

  // ---------------------------------------------------------------- filing

  /** First row with the given URL; the number of rows when there is none. */
  function UrlAt(skills: seq<Skill>, url: string): (i: nat)
    ensures i <= |skills| && (forall j | 0 <= j < i :: skills[j].url != Some(url))
    ensures i < |skills| ==> skills[i].url == Some(url)
  {
    if skills == [] || skills[0].url == Some(url) then 0 else
      var i := 1 + UrlAt(skills[1..], url);
      assert forall j | 1 <= j < |skills| :: skills[j] == skills[1..][j - 1];
      i
  }

  /** First row with the repository's URL and the document's name. */
  function LegacyAt(skills: seq<Skill>, repoUrl: string, name: string): (i: nat)
    ensures i <= |skills|
    ensures forall j | 0 <= j < i :: skills[j].url != Some(repoUrl) || skills[j].name != name
    ensures i < |skills| ==> skills[i].url == Some(repoUrl) && skills[i].name == name
  {
    if skills == [] || (skills[0].url == Some(repoUrl) && skills[0].name == name) then 0 else
      var i := 1 + LegacyAt(skills[1..], repoUrl, name);
      assert forall j | 1 <= j < |skills| :: skills[j] == skills[1..][j - 1];
      i
  }

  /** The row a candidate updates; the number of rows when it needs a new one. */
  function Target(skills: seq<Skill>, c: Candidate): (i: nat)
    ensures i <= |skills|
  {
    if UrlAt(skills, c.url) < |skills| then UrlAt(skills, c.url)
    else if c.repoUrl != "" && c.repoUrl != c.url then LegacyAt(skills, c.repoUrl, c.name)
    else |skills|
  }

  function Or(a: string, b: string): string { if a != "" then a else b }

  function Refreshed(s: Skill, c: Candidate): Skill {
    Skill(Or(c.name, s.name), s.slug, Some(c.url), Or(c.description, s.description), Or(c.content, s.content),
          if c.category.Some? then c.category else s.category, true, true, c.details,
          if s.trustOverridden then s.trust else Some(c.trust), s.trustOverridden)
  }

  function Created(c: Candidate, slug: string): Skill {
    Skill(c.name, slug, Some(c.url), c.description, c.content, c.category, true, true, c.details, Some(c.trust), false)
  }

  function Upserted(skills: seq<Skill>, c: Candidate): seq<Skill> {
    var i := Target(skills, c);
    if i < |skills| then skills[i := Refreshed(skills[i], c)] else skills + [Created(c, FreeSlug(skills, c.slug))]
  }

  function Filed(skills: seq<Skill>, cs: seq<Candidate>): seq<Skill> {
    if cs == [] then skills else Upserted(Filed(skills, cs[..|cs| - 1]), cs[|cs| - 1])
  }

  // ---------------------------------------------------------------- what filing keeps

  predicate Unique(skills: seq<Skill>) {
    forall i, j | 0 <= i < j < |skills| ::
        skills[i].slug != skills[j].slug && (skills[i].url.Some? ==> skills[i].url != skills[j].url)
  }

  lemma UpsertKeepsUnique(skills: seq<Skill>, c: Candidate)
    requires Unique(skills)
    ensures Unique(Upserted(skills, c))
  {
    var i, after := Target(skills, c), Upserted(skills, c);
    if i < |skills| {
      assert forall j | 0 <= j < |skills| && j != i :: skills[j].url != Some(c.url);
    } else {
      var free := FreeSlug(skills, c.slug);
      forall j | 0 <= j < |skills| ensures skills[j].slug != free {
        assert skills[j] in skills;
        assert skills[j].slug in Slugs(skills);
      }
      assert forall j | 0 <= j < |skills| :: after[j] == skills[j];
    }
  }

  /** URLs and slugs stay pairwise distinct over every run, migrations included. */
  lemma {:induction false} RunKeepsUnique(skills: seq<Skill>, cs: seq<Candidate>)
    requires Unique(skills)
    ensures Unique(Filed(skills, cs))
  {
    if cs == [] {
    } else {
      RunKeepsUnique(skills, cs[..|cs| - 1]);
      UpsertKeepsUnique(Filed(skills, cs[..|cs| - 1]), cs[|cs| - 1]);
    }
  }

  /** After filing a document its URL is in the catalogue, at the row the document was filed under. */
  lemma UpsertFiles(skills: seq<Skill>, c: Candidate)
    requires Unique(skills)
    ensures var i, after := Target(skills, c), Upserted(skills, c);
            && i < |after| && UrlAt(after, c.url) == i && after[i].url == Some(c.url) && after[i].details == c.details
            && |after| == (if i < |skills| then |skills| else |skills| + 1)
            && forall j | 0 <= j < |skills| && j != i :: after[j] == skills[j]
  {
    var i, after := Target(skills, c), Upserted(skills, c);
    UpsertKeepsUnique(skills, c);
    assert after[i].url == Some(c.url);
    var k := UrlAt(after, c.url);
    assert k <= i;
  }

  /** Filing the same document again, whatever it now says, updates the same row under the same slug. */
  lemma RefilingIsInPlace(skills: seq<Skill>, c: Candidate, again: Candidate)
    requires Unique(skills) && again.url == c.url
    ensures var once := Upserted(skills, c); var twice := Upserted(once, again);
            && |twice| == |once| && Target(once, again) == Target(skills, c)
            && forall j | 0 <= j < |once| :: twice[j].slug == once[j].slug && twice[j].url == once[j].url
    ensures again == c ==> Upserted(Upserted(skills, c), again) == Upserted(skills, c)
  {
    UpsertFiles(skills, c);
    var once := Upserted(skills, c);
    assert Target(once, again) == Target(skills, c);
  }

  /** No run ever removes a row or changes a slug. */
  lemma {:induction false} SlugsArePermanent(skills: seq<Skill>, cs: seq<Candidate>)
    ensures |Filed(skills, cs)| >= |skills|
    ensures forall i | 0 <= i < |skills| :: Filed(skills, cs)[i].slug == skills[i].slug
  {
    if cs == [] {
    } else {
      SlugsArePermanent(skills, cs[..|cs| - 1]);
    }
  }

  /** The document would take over a row with this URL, if it finds one under its name. */
  predicate Migrates(c: Candidate, url: string) { c.repoUrl == url && c.repoUrl != "" && c.repoUrl != c.url }

  predicate NeverMigrated(url: string, cs: seq<Candidate>) { forall c | c in cs :: !Migrates(c, url) }

  /** A filed document keeps its row over every later run that does not migrate it. */
  lemma {:induction false} RowIsPermanent(skills: seq<Skill>, cs: seq<Candidate>, i: nat, url: string)
    requires Unique(skills) && i < |skills| && skills[i].url == Some(url) && NeverMigrated(url, cs)
    ensures i < |Filed(skills, cs)| && Filed(skills, cs)[i].url == Some(url) && UrlAt(Filed(skills, cs), url) == i
  {
    SlugsArePermanent(skills, cs);
    RunKeepsUnique(skills, cs);
    if cs == [] {
    } else {
      var pre, c := cs[..|cs| - 1], cs[|cs| - 1];
      RowIsPermanent(skills, pre, i, url);
      var before := Filed(skills, pre);
      RunKeepsUnique(skills, pre);
      assert c in cs;
      if Target(before, c) == i { assert c.url == url; }
    }
    var k := UrlAt(Filed(skills, cs), url);
    assert k <= i;
  }

  /** The last document of a run under a URL. */
  function Latest(cs: seq<Candidate>, url: string): Option<Candidate> {
    if cs == [] then None
    else if cs[|cs| - 1].url == url then Some(cs[|cs| - 1])
    else Latest(cs[..|cs| - 1], url)
  }

  /** The row of a URL says what the candidate said. */
  predicate Says(skills: seq<Skill>, url: string, c: Candidate) {
    var i := UrlAt(skills, url);
    && i < |skills| && skills[i].details == c.details && skills[i].official && skills[i].verified
    && (c.name != "" ==> skills[i].name == c.name)
    && (c.description != "" ==> skills[i].description == c.description)
    && (c.content != "" ==> skills[i].content == c.content)
    && (c.category.Some? ==> skills[i].category == c.category)
    && (!skills[i].trustOverridden ==> skills[i].trust == Some(c.trust))
  }

  lemma UpsertSays(skills: seq<Skill>, c: Candidate)
    requires Unique(skills)
    ensures Says(Upserted(skills, c), c.url, c)
  {
    UpsertFiles(skills, c);
  }

  /** Filing another document leaves the row of a URL alone, unless it migrates it. */
  lemma OthersKeepSaying(skills: seq<Skill>, c: Candidate, url: string, said: Candidate)
    requires Unique(skills) && Says(skills, url, said) && c.url != url && !Migrates(c, url)
    ensures Says(Upserted(skills, c), url, said)
  {
    UpsertFiles(skills, c);
    UpsertKeepsUnique(skills, c);
    var i, after := UrlAt(skills, url), Upserted(skills, c);
    assert Target(skills, c) != i && after[i] == skills[i];
    assert UrlAt(after, url) <= i;
  }

  /** The last parse of a document wins, whatever else the run files in between. */
  lemma {:induction false} LatestWins(skills: seq<Skill>, cs: seq<Candidate>, url: string)
    requires Unique(skills) && Latest(cs, url).Some? && NeverMigrated(url, cs)
    ensures Says(Filed(skills, cs), url, Latest(cs, url).value)
  {
    var pre, c := cs[..|cs| - 1], cs[|cs| - 1];
    RunKeepsUnique(skills, pre);
    if c.url == url {
      UpsertSays(Filed(skills, pre), c);
    } else {
      LatestWins(skills, pre, url);
      assert c in cs;
      OthersKeepSaying(Filed(skills, pre), c, url, Latest(cs, url).value);
    }
  }

  // ---------------------------------------------------------------- one row for each URL

  function Urls(skills: seq<Skill>): set<string> { set s | s in skills && s.url.Some? :: s.url.value }

  function Nameless(skills: seq<Skill>): nat {
    if skills == [] then 0 else Nameless(skills[..|skills| - 1]) + if skills[|skills| - 1].url.None? then 1 else 0
  }

  lemma {:induction false} RowsAreUrls(skills: seq<Skill>)
    requires Unique(skills)
    ensures |skills| == |Urls(skills)| + Nameless(skills)
  {
    if skills == [] {
    } else {
      var n := |skills| - 1;
      RowsAreUrls(skills[..n]);
      assert skills == skills[..n] + [skills[n]];
      if skills[n].url.Some? {
        assert Urls(skills) == Urls(skills[..n]) + {skills[n].url.value};
        assert skills[n].url.value !in Urls(skills[..n]);
      } else {
        assert Urls(skills) == Urls(skills[..n]);
      }
    }
  }

  lemma {:induction false} NamelessUpdate(skills: seq<Skill>, i: nat, s: Skill)
    requires i < |skills| && skills[i].url.Some? && s.url.Some?
    ensures Nameless(skills[i := s]) == Nameless(skills)
  {
    var n := |skills| - 1;
    if i < n {
      NamelessUpdate(skills[..n], i, s);
      assert skills[i := s][..n] == skills[..n][i := s];
    } else {
      assert skills[i := s][..n] == skills[..n];
    }
  }

  lemma {:induction false} RunKeepsNameless(skills: seq<Skill>, cs: seq<Candidate>)
    ensures Nameless(Filed(skills, cs)) == Nameless(skills)
  {
    if cs == [] {
    } else {
      var before, c := Filed(skills, cs[..|cs| - 1]), cs[|cs| - 1];
      RunKeepsNameless(skills, cs[..|cs| - 1]);
      var i := Target(before, c);
      if i < |before| {
        NamelessUpdate(before, i, Refreshed(before[i], c));
      } else {
        assert Upserted(before, c)[..|before|] == before;
      }
    }
  }

  function FiledUrls(cs: seq<Candidate>): set<string> { set c | c in cs :: c.url }

  /** Nothing in the catalogue or the run is the repository page of a document of the run. */
  predicate NoLegacy(skills: seq<Skill>, cs: seq<Candidate>) {
    forall c | c in cs :: c.repoUrl == c.url || (c.repoUrl !in Urls(skills) && c.repoUrl !in FiledUrls(cs))
  }

  lemma {:induction false} UrlsOfRun(skills: seq<Skill>, cs: seq<Candidate>)
    requires Unique(skills) && NoLegacy(skills, cs)
    ensures Urls(Filed(skills, cs)) == Urls(skills) + FiledUrls(cs)
  {
    if cs == [] {
    } else {
      var pre, c := cs[..|cs| - 1], cs[|cs| - 1];
      var before := Filed(skills, pre);
      assert cs == pre + [c];
      assert FiledUrls(cs) == FiledUrls(pre) + {c.url};
      UrlsOfRun(skills, pre);
      UpsertedUrls(before, c);
    }
  }

  lemma UpsertedUrls(skills: seq<Skill>, c: Candidate)
    requires c.repoUrl == c.url || c.repoUrl !in Urls(skills)
    ensures Urls(Upserted(skills, c)) == Urls(skills) + {c.url}
  {
    var i, after := Target(skills, c), Upserted(skills, c);
    if i < |skills| {
      assert skills[i] in skills;
      assert skills[i].url == Some(c.url);
      forall u | u in Urls(skills) ensures u in Urls(after) {
        var j :| 0 <= j < |skills| && skills[j].url == Some(u);
        assert after[j] in after && after[j].url == Some(u);
      }
    } else {
      assert after[|skills|] in after;
      forall u | u in Urls(skills) ensures u in Urls(after) {
        var j :| 0 <= j < |skills| && skills[j].url == Some(u);
        assert after[j] in after;
      }
    }
  }

  /** Without legacy rows a run adds exactly one row for each document URL that was not there before,
      however often and in whatever order documents come. */
  lemma RunAddsOneRowPerUrl(skills: seq<Skill>, cs: seq<Candidate>)
    requires Unique(skills) && NoLegacy(skills, cs)
    ensures |Filed(skills, cs)| == |skills| + |FiledUrls(cs) - Urls(skills)|
  {
    var after := Filed(skills, cs);
    RunKeepsUnique(skills, cs);
    RowsAreUrls(skills);
    RowsAreUrls(after);
    RunKeepsNameless(skills, cs);
    UrlsOfRun(skills, cs);
    var added := FiledUrls(cs) - Urls(skills);
    assert Urls(skills) + FiledUrls(cs) == Urls(skills) + added && Urls(skills) !! added;
  }

  /** A legacy row is taken over by the first document of its repository with its name: same row, same
      slug, new URL, no new row. */
  lemma LegacyIsTakenOver(skills: seq<Skill>, c: Candidate, i: nat)
    requires Unique(skills) && i < |skills| && skills[i].url == Some(c.repoUrl) && skills[i].name == c.name
    requires c.repoUrl != "" && c.repoUrl != c.url && c.url !in Urls(skills)
    ensures var after := Upserted(skills, c);
            && |after| == |skills| && after[i].slug == skills[i].slug && after[i].url == Some(c.url)
            && (c.repoUrl !in Urls(after))
            && forall j | 0 <= j < |skills| && j != i :: after[j] == skills[j]
  {
    assert UrlAt(skills, c.url) == |skills|;
    assert LegacyAt(skills, c.repoUrl, c.name) == i;
    assert forall j | 0 <= j < |skills| && j != i :: Upserted(skills, c)[j].url != Some(c.repoUrl);
  }

  // ---------------------------------------------------------------- the catalogue in place

  class SkillTable {
    var skills: seq<Skill>

    constructor (skills: seq<Skill>)
      ensures this.skills == skills
    {
      this.skills := skills;
    }

    /** The probe for a free slug: at most one query more than there are rows. */
    method AllocateSlug(slug: string) returns (unique: string, probes: nat)
      ensures unique == FreeSlug(skills, slug) && 1 <= probes <= |skills| + 1
    {
      unique := slug;
      var suffix := 1;
      probes := 1;
      while unique in Slugs(skills)
        invariant suffix >= 1 && probes == suffix
        invariant unique == Nth(slug, suffix - 1) && TakenBelow(skills, slug, suffix - 1)
        invariant suffix - 1 <= |skills|
        invariant FreeFrom(skills, slug, 0) == FreeFrom(skills, slug, suffix - 1)
        decreases |skills| + 1 - suffix
      {
        TakenAreFew(skills, slug, suffix);
        unique := slug + "-" + Decimal(suffix);
        suffix := suffix + 1;
        probes := probes + 1;
      }
    }

    /** The fields of an existing row, one after the other. */
    static method Refresh(row: Skill, c: Candidate) returns (s: Skill)
      requires row.url == Some(c.url)
      ensures s == Refreshed(row, c)
    {
      s := row;
      if c.name != "" { s := s.(name := c.name); }
      if c.description != "" { s := s.(description := c.description); }
      if c.content != "" { s := s.(content := c.content); }
      if c.category.Some? { s := s.(category := c.category); }
      s := s.(official := true, verified := true, details := c.details);
      if !s.trustOverridden { s := s.(trust := Some(c.trust)); }
    }

    method UpsertSkill(c: Candidate) returns (created: bool)
      modifies this
      ensures skills == Upserted(old(skills), c)
      ensures created <==> |skills| > |old(skills)|
    {
      var i := UrlAt(skills, c.url);
      if i == |skills| && c.repoUrl != "" && c.repoUrl != c.url {
        i := LegacyAt(skills, c.repoUrl, c.name);
        if i < |skills| {
          skills := skills[i := skills[i].(url := Some(c.url))];
        }
      }
      created := i == |skills|;
      if created {
        var unique, _ := AllocateSlug(c.slug);
        skills := skills + [Created(c, unique)];
      } else {
        var s := Refresh(skills[i], c);
        skills := skills[i := s];
      }
    }
  }
}
