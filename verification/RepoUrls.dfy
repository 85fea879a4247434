/** The repository page of a document: `normalize_github_repo_url` of app/workers/ingest_and_parse.py,
    and why it can never be mistaken for a document. */
module RepoUrls {
  import opened Basics
  import opened Text
  import opened SkillUrls
  import PublicFilters

  const RESERVED_OWNERS := {"topics", "search", "orgs", "collections", "apps", "features", "marketplace",
                            "login", "settings", "explore", "sponsors"}

  function WithoutGit(repo: string): string { if EndsWith(repo, ".git") then repo[..|repo| - 4] else repo }

  function Repository(host: string, parts: seq<string>): Option<(string, string)> {
    if Contains(host, RAW_HOST) then
      if |parts| < 3 then None else Some((parts[0], parts[1]))
    else if Contains(host, "github.com") then
      if |parts| < 2 then None else Some((parts[0], parts[1]))
    else None
  }

  function NormalizeGithubRepoUrl(url: string): Option<string> {
    var raw := Strip(url);
    if !IsHttp(raw) then None
    else
      var r := Repository(Lower(Netloc(Scrub(raw))), Parts(Scrub(raw)));
      if r.None? || Lower(r.value.0) in RESERVED_OWNERS then None
      else Some(GITHUB + (r.value.0 + "/" + WithoutGit(r.value.1)))
  }

  /** A repository page is never a canonical document, so it never names a row the worker files. */
  lemma RepoPageIsNoDocument(url: string)
    requires NormalizeGithubRepoUrl(url).Some?
    ensures !PublicFilters.IsCanonicalSkillDocUrl(NormalizeGithubRepoUrl(url).value)
  {
    var u := Scrub(Strip(url));
    var r := Repository(Lower(Netloc(u)), Parts(u)).value;
    PartsAreBare(Strip(url));
    assert Bare(r.0) && Bare(r.1);
    TwoSegments(r.0, WithoutGit(r.1));
  }

  lemma TwoSegments(owner: string, repo: string)
    requires Plain(owner) && Plain(repo)
    ensures !PublicFilters.IsCanonicalSkillDocUrl(GITHUB + (owner + "/" + repo))
  {
    hide Path, Scrub, Join;
    var page := GITHUB + (owner + "/" + repo);
    JoinTwo(owner, repo);
    PagePathSplits([owner, repo]);
    PublicFilters.SplitLower(Path(Scrub(page)));
  }

  lemma JoinTwo(owner: string, repo: string)
    ensures Join([owner, repo], '/') == owner + "/" + repo
  {
    assert [owner, repo][1..] == [repo];
  }
}
