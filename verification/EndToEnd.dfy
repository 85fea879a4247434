/** From a queued document to the public listing: the worker's gates, the catalogue and the listing's
    filters put together. */
module EndToEnd {
  import opened Basics
  import opened Frontmatter
  import opened RawQueue
  import opened Worker
  import opened WorkerGates
  import Catalogue
  import DocumentUrls
  import Listing
  import PublicFilters
  import SkillQuality
  import SkillUrls
  import Text

  /** What the listing joins to a catalogue row. */
  datatype Joined = Joined(id: nat, summary: Option<string>, tags: seq<Listing.Tag>, category: Option<string>,
                           popularity: Option<real>, embedded: bool, created: int, updated: int)

  function LevelIn(s: Catalogue.Skill): Option<TrustScore.Level> {
    if s.trust.Some? then Some(s.trust.value.level) else None
  }

  function ScoreIn(s: Catalogue.Skill): Option<real> { if s.trust.Some? then Some(s.trust.value.score) else None }

  /** A catalogue row as the listing sees it. */
  function Listed(s: Catalogue.Skill, j: Joined): Listing.Row {
    Listing.Row(
        j.id, s.name, s.slug, Some(s.description), j.summary, Some(s.content), j.tags, j.category, s.url, s.official,
        s.verified, LevelIn(s), ScoreIn(s), j.popularity, j.embedded, j.created, j.updated)
  }

  lemma AcceptedRowUrl(env: Env, row: Row)
    requires Accepts(env, row)
    ensures var url := UrlText(row.sourceUrl);
            IsSkillMdSourceUrl(url) && PublicFilters.IsCanonicalSkillDocUrl(CanonicalUrl(url))
  {
    hide IsSkillMdSourceUrl, PublicFilters.IsCanonicalSkillDocUrl, CanonicalUrl, VerdictOf;
    var url := UrlText(row.sourceUrl);
    AcceptedUrl(env.policy, url, row.meta, env.read(url, row.content));
  }

  /** The URL is one that normalisation knows as a GitHub file with the skills directory, or the one
      under .claude, at the top of its repository. */
  predicate AtTheTop(url: string) {
    SkillUrls.Kept(url).Some? && PublicFilters.TopLevel(SkillUrls.Kept(url).value)
  }

  /** What the trust filter sees of a row. */
  predicate RowTrusted(s: Catalogue.Skill) {
    TrustVisible(LevelIn(s), ScoreIn(s))
  }

  /** Every document a batch accepts is shown by the listing exactly when its trust passes and its
      skills directory is at the top of a GitHub repository, or under .claude there; with the security
      gate enforced, and no override, its place alone decides. A document deeper in a tree, or on
      another host, is filed and never shown. */
  lemma AcceptedIsPublic(env: Env, rows: seq<Row>, skills: seq<Catalogue.Skill>, batch: seq<nat>, i: nat, j: Joined)
    requires Catalogue.Unique(skills) && InRange(rows, batch) && i in batch && Accepts(env, rows[i])
    ensures var url := UrlText(rows[i].sourceUrl);
            var after := Catalogue.Filed(skills, Candidates(env, rows, batch));
            var k := Catalogue.UrlAt(after, CanonicalUrl(url));
            && k < |after|
            && (Listing.Public(Listed(after[k], j)) <==> RowTrusted(after[k]) && AtTheTop(url))
            && (Stops(env.policy.security) && !after[k].trustOverridden ==>
                 (Listing.Public(Listed(after[k], j)) <==> AtTheTop(url)))
  {
    var url := UrlText(rows[i].sourceUrl);
    AcceptedIsFiled(env, rows, skills, batch, i);
    if Stops(env.policy.security) { AcceptedIsVisible(env, rows, skills, batch, i); }
    AcceptedRowUrl(env, rows[i]);
    DocumentUrls.ShownIff(url);
  }

  // ---------------------------------------------------------------- an accepted document that is never shown

  function HarmlessReading(): Reading {
    Reading("a", "", "", None, [], Doc(map[], [], "", "", false), Scan(false, "low", []), None)
  }

  /** The default settings, on documents without a finding. */
  function DefaultEnv(now: int): Env {
    Env(Policy("lax", false, Security(true, true, true, 0.7)), now, (_, _) => HarmlessReading(), _ => "0",
        (_, _, _) => false)
  }

  const PLACE := ["o", "r", "blob", "main", "skills", "a", "SKILL.md"]

  /** https://gitlab.com/o/r/blob/main/skills/a/SKILL.md */
  const ELSEWHERE: string := SkillUrls.Built("gitlab.com", PLACE)

  function HiddenRow(): Row { Row(0, "a", Some(ELSEWHERE), "", NO_META, Pending, None, 0) }

  /** A document at the top of a repository on another host, accepted under the default settings and
      never shown. */
  lemma HiddenDocument(now: int)
    ensures Accepts(DefaultEnv(now), HiddenRow()) && !AtTheTop(ELSEWHERE)
    ensures !PublicFilters.SqlPublic(CanonicalUrl(ELSEWHERE))
  {
    hide Accepts, AtTheTop, CanonicalUrl, PublicFilters.SqlPublic;
    hide IsSkillMdSourceUrl, PublicFilters.IsCanonicalSkillDocUrl;
    ElsewhereIsHidden();
    HarmlessIsAccepted(now);
  }

  lemma HarmlessVerdict(p: Policy, url: string)
    requires IsSkillMdSourceUrl(url) && PublicFilters.IsCanonicalSkillDocUrl(CanonicalUrl(url)) && !p.enforce
    ensures VerdictOf(p, url, NO_META, HarmlessReading()).Accepted?
  {
    hide IsSkillMdSourceUrl, PublicFilters.IsCanonicalSkillDocUrl, CanonicalUrl, SpecOf, SkillQuality.Warnings,
        SkillQuality.Penalties;
    assert Refusal(url, NO_META) == None;
    assert !Decide(p.security, HarmlessReading()).block;
    assert SkillQuality.Assess(HarmlessReading().doc).ok;
  }

  lemma HarmlessIsAccepted(now: int)
    requires IsSkillMdSourceUrl(ELSEWHERE) && PublicFilters.IsCanonicalSkillDocUrl(CanonicalUrl(ELSEWHERE))
    ensures Accepts(DefaultEnv(now), HiddenRow())
  {
    hide VerdictOf, IsSkillMdSourceUrl, PublicFilters.IsCanonicalSkillDocUrl, CanonicalUrl;
    var env, row := DefaultEnv(now), HiddenRow();
    HarmlessVerdict(env.policy, ELSEWHERE);
    assert UrlText(row.sourceUrl) == ELSEWHERE;
    assert env.read(ELSEWHERE, "") == HarmlessReading();
    assert OutcomeOf(row, JudgeOf(env)) == Judged(VerdictOf(env.policy, ELSEWHERE, NO_META, HarmlessReading()));
  }

  lemma ElsewhereIsHidden()
    ensures IsSkillMdSourceUrl(ELSEWHERE) && PublicFilters.IsCanonicalSkillDocUrl(CanonicalUrl(ELSEWHERE))
    ensures !AtTheTop(ELSEWHERE) && !PublicFilters.SqlPublic(CanonicalUrl(ELSEWHERE))
  {
    hide IsSkillMdSourceUrl, PublicFilters.IsCanonicalSkillDocUrl, PublicFilters.SqlPublic, CanonicalUrl;
    hide SkillUrls.Kept, SkillUrls.Built, Text.Lower, Text.Contains;
    ElsewhereIsBare();
    ElsewhereHost();
    ElsewhereTail();
    DocumentUrls.OtherHostsAreHidden("gitlab.com", PLACE);
  }

  lemma ElsewhereIsBare()
    ensures SkillUrls.AllBare(PLACE) && SkillUrls.Plain("gitlab.com")
  {
    forall p | p in PLACE ensures SkillUrls.Bare(p) {
      assert p == "o" || p == "r" || p == "blob" || p == "main" || p == "skills" || p == "a" || p == "SKILL.md";
    }
  }

  lemma ElsewhereHost()
    ensures Text.Lower("gitlab.com") == "gitlab.com"
    ensures !Text.Contains("gitlab.com", SkillUrls.RAW_HOST) && !Text.Contains("gitlab.com", "github.com")
  {
    hide Text.Contains;
    assert |SkillUrls.RAW_HOST| > |"gitlab.com"| == |"github.com"|;
    assert "gitlab.com"[3] != "github.com"[3];
    if Text.Contains("gitlab.com", SkillUrls.RAW_HOST) { Text.ContainsIsShorter("gitlab.com", SkillUrls.RAW_HOST); }
    if Text.Contains("gitlab.com", "github.com") { Text.ContainsWhole("gitlab.com", "github.com"); }
  }

  lemma ElsewhereTail()
    ensures PublicFilters.SkillsTail([""] + PublicFilters.AllLower(PLACE), PublicFilters.FILE)
  {
    assert Text.Lower("blob") == "blob" && Text.Lower("main") == "main" && Text.Lower("skills") == "skills"
           && Text.Lower("a") == "a";
    assert Text.Lower("SKILL.md") == "skill.md";
  }
}
