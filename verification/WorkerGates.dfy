/** The gates a queued document passes before it becomes a skill, in the order of
    `parse_queued_raw_skills` (app/workers/ingest_and_parse.py), and what passing them means for
    trust and for the listing's trust filter (app/api/skills.py). */
module WorkerGates {
  import opened Basics
  import opened Text
  import opened Frontmatter
  import ClaudeSpec
  import PublicFilters
  import SkillQuality
  import SkillUrls
  import TrustScore

  // ---------------------------------------------------------------- what the gates look at

  /** What ingestion stored about the repository; a field of the wrong type is absent. */
  datatype RepoMeta = RepoMeta(repoType: Option<string>, intentScore: Option<real>, canonicalFiles: Option<int>,
                               stars: Option<int>, pushedAt: Option<int>)

  /** Outcome of the heuristic scan. */
  datatype Scan = Scan(block: bool, severity: string, indicators: seq<string>)

  /** Answer of the language model, when there is one. */
  datatype Review = Review(block: bool, confidence: real, severity: string, indicators: seq<string>)

  /** What parsing and scanning make of a document. */
  datatype Reading = Reading(
    name: string,
    description: string,
    body: string,
    category: Option<nat>,
    useCases: seq<string>,
    doc: Doc,
    scan: Scan,
    review: Option<Review>)

  datatype Policy = Policy(profile: string, enforce: bool, security: Security)

  datatype Security = Security(enabled: bool, enforce: bool, onSuspicionOnly: bool, threshold: real)

  datatype Reason = NotSkillMd | UntrustedRepoType | LowIntentScore | NoCanonicalFiles | NonCanonicalLayout

  datatype Decision = Decision(block: bool, severity: string, indicators: seq<string>)

  datatype Verdict =
    | Unsupported(reason: Reason)
    | SecurityBlocked(severity: string)
    | SpecRejected(codes: seq<ClaudeSpec.Code>)
    | QualityRejected(errors: seq<string>)
    | Accepted(score: int, decision: Decision)

  // ---------------------------------------------------------------- single gates

  predicate IsSkillMdSourceUrl(url: string) {
    url != "" && EndsWith(Lower(SkillUrls.Path(SkillUrls.Scrub(url))), "/skill.md")
  }

  const ALLOWED_REPO_TYPES := {"skills_only", "skills_focused"}
  const MIN_REPO_INTENT_SCORE := 45.0

  function RepoRefusal(m: RepoMeta): Option<Reason> {
    if m.repoType.Some? && m.repoType.value != "" && m.repoType.value !in ALLOWED_REPO_TYPES then
        Some(UntrustedRepoType)
    else if m.intentScore.Some? && m.intentScore.value < MIN_REPO_INTENT_SCORE then Some(LowIntentScore)
    else if m.canonicalFiles.Some? && m.canonicalFiles.value < 1 then Some(NoCanonicalFiles)
    else None
  }

  function CanonicalUrl(url: string): string {
    var page := SkillUrls.NormalizeSkillSourceUrl(url);
    if page.Some? && page.value != "" then page.value else url
  }

  /** A threshold of zero reads as unset. */
  function Threshold(t: real): real { if t == 0.0 then 0.7 else t }

  predicate Reviewed(s: Security, scan: Scan) { s.enabled && (!s.onSuspicionOnly || scan.block) }

  function Consulted(s: Security, r: Reading): Option<Review> { if Reviewed(s, r.scan) then r.review else None }

  function ReviewSeverity(v: Review): string {
    if Lower(Strip(v.severity)) == "" then "low" else Lower(Strip(v.severity))
  }

  predicate Confirms(s: Security, v: Review) { v.block && v.confidence >= Threshold(s.threshold) }

  /** Who has the last word: a confident review that blocks, else a critical scan, else a review that clears. */
  function Decide(s: Security, r: Reading): Decision {
    var v := Consulted(s, r);
    var confirmed := v.Some? && Confirms(s, v.value);
    var cleared := v.Some? && !v.value.block && r.scan.severity != "critical";
    Decision(confirmed || (r.scan.block && !cleared),
             if confirmed then ReviewSeverity(v.value) else if r.scan.block then r.scan.severity else "low",
             (if r.scan.block then r.scan.indicators else []) + (if confirmed then v.value.indicators else []))
  }

  function SpecOf(p: Policy, url: string, r: Reading): ClaudeSpec.Spec {
    ClaudeSpec.Assess(ClaudeSpec.Mapped(r.doc.metadata), r.doc, CanonicalUrl(url), ClaudeSpec.IsStrict(p.profile))
  }

  /** The gates on the URL and the repository. */
  function Refusal(url: string, meta: RepoMeta): Option<Reason> {
    if !IsSkillMdSourceUrl(url) then Some(NotSkillMd)
    else if RepoRefusal(meta).Some? then RepoRefusal(meta)
    else if !PublicFilters.IsCanonicalSkillDocUrl(CanonicalUrl(url)) then Some(NonCanonicalLayout)
    else None
  }

  /** The gates on the content, given what each of them finds. */
  function Gated(
      refusal: Option<Reason>, stops: bool, enforce: bool, d: Decision, spec: ClaudeSpec.Spec,
      q: SkillQuality.Quality): Verdict
  {
    if refusal.Some? then Unsupported(refusal.value)
    else if stops && d.block then SecurityBlocked(d.severity)
    else if enforce && !spec.ok then SpecRejected(spec.errors)
    else if !q.ok then QualityRejected(q.errors)
    else Accepted(q.score, d)
  }

  predicate Stops(s: Security) { s.enabled && s.enforce }

  function VerdictOf(p: Policy, url: string, meta: RepoMeta, r: Reading): Verdict {
    Gated(Refusal(url, meta), Stops(p.security), p.enforce, Decide(p.security, r), SpecOf(p, url, r),
        SkillQuality.Assess(r.doc))
  }

  predicate Failed(v: Verdict) { v.SecurityBlocked? || v.SpecRejected? || v.QualityRejected? }

  // ---------------------------------------------------------------- the security decision

  /** The merge as the source runs it. */
  method MergeReviews(s: Security, r: Reading) returns (d: Decision)
    ensures d == Decide(s, r)
  {
    var block, severity, indicators: seq<string> := false, "low", [];
    if r.scan.block {
      block, severity := true, r.scan.severity;
      indicators := indicators + r.scan.indicators;
    }
    var review := if s.enabled && (!s.onSuspicionOnly || r.scan.block) then r.review else None;
    if review.Some? {
      var v := review.value;
      if v.block && v.confidence >= Threshold(s.threshold) {
        block, severity := true, ReviewSeverity(v);
        indicators := indicators + v.indicators;
      } else if !v.block && r.scan.severity != "critical" {
        block := false;
      }
    }
    d := Decision(block, severity, indicators);
  }

  /** A critical scan is never overruled; where only suspicious documents are reviewed, a review never
      blocks what the scan let through; and a document that is blocked has the scan or a confident
      review against it. */
  lemma DecisionLimits(s: Security, r: Reading)
    ensures r.scan.block && r.scan.severity == "critical" ==> Decide(s, r).block
    ensures s.onSuspicionOnly && Decide(s, r).block ==> r.scan.block
    ensures Decide(s, r).block ==> r.scan.block || (r.review.Some? && Confirms(s, r.review.value))
    ensures !s.enabled ==> Decide(s, r).block == r.scan.block
  {
  }

  /** The gates as the source runs them, one early exit after the other. */
  method RunGates(p: Policy, url: string, meta: RepoMeta, r: Reading) returns (v: Verdict)
    ensures v == VerdictOf(p, url, meta, r)
  {
    if !IsSkillMdSourceUrl(url) { return Unsupported(NotSkillMd); }
    var refusal := RepoRefusal(meta);
    if refusal.Some? { return Unsupported(refusal.value); }
    var canonicalUrl := CanonicalUrl(url);
    if !PublicFilters.IsCanonicalSkillDocUrl(canonicalUrl) { return Unsupported(NonCanonicalLayout); }
    var spec := ClaudeSpec.ValidateFrontmatter(ClaudeSpec.Mapped(r.doc.metadata), r.doc, canonicalUrl, p.profile);
    var decision := MergeReviews(p.security, r);
    if p.security.enabled && p.security.enforce && decision.block { return SecurityBlocked(decision.severity); }
    var quality := SkillQuality.ValidateSkillMd(r.doc);
    if p.enforce && !spec.ok { return SpecRejected(spec.errors); }
    if !quality.ok { return QualityRejected(quality.errors); }
    v := Accepted(quality.score, decision);
  }

  // ---------------------------------------------------------------- gradual rollout

  predicate WorkerAccepts(p: Policy, url: string, meta: RepoMeta, r: Reading) { VerdictOf(p, url, meta, r).Accepted? }

  /** The same policy under the named profile. */
  function Under(p: Policy, profile: string, enforce: bool): Policy { p.(profile := profile, enforce := enforce) }

  lemma SpecUnder(p: Policy, strictName: string, laxName: string, url: string, r: Reading)
    requires ClaudeSpec.IsStrict(strictName) && !ClaudeSpec.IsStrict(laxName)
    ensures SpecOf(Under(p, strictName, true), url, r).ok ==> SpecOf(Under(p, laxName, true), url, r).ok
    ensures SpecOf(Under(p, laxName, true), url, r).ok <==> SkillQuality.Assess(r.doc).ok
  {
    var top := ClaudeSpec.Mapped(r.doc.metadata);
    ClaudeSpec.StrictRefinesLax(top, r.doc, CanonicalUrl(url));
    ClaudeSpec.LaxOk(top, r.doc, CanonicalUrl(url));
    assert SkillQuality.Assess(r.doc).ok <==> r.doc.error == "";
  }

  lemma GatedRollout(refusal: Option<Reason>, stops: bool, d: Decision, strict: ClaudeSpec.Spec, lax: ClaudeSpec.Spec,
                     any: ClaudeSpec.Spec, q: SkillQuality.Quality)
    requires strict.ok ==> lax.ok
    requires lax.ok <==> q.ok
    ensures Gated(refusal, stops, true, d, strict, q).Accepted? ==> Gated(refusal, stops, true, d, lax, q).Accepted?
    ensures Gated(refusal, stops, true, d, lax, q).Accepted? <==> Gated(refusal, stops, false, d, any, q).Accepted?
    ensures Gated(refusal, stops, true, d, lax, q).Accepted? ==>
            Gated(refusal, stops, true, d, lax, q) == Gated(refusal, stops, false, d, any, q)
    ensures Failed(Gated(refusal, stops, true, d, lax, q)) <==> Failed(Gated(refusal, stops, false, d, any, q))
    ensures Gated(refusal, stops, true, d, lax, q).Accepted?
            && !Gated(refusal, stops, true, d, strict, q).Accepted? <==>
            Gated(refusal, stops, false, d, any, q).Accepted? && !strict.ok
  {
  }

  /** Enforcing the strict profile accepts a subset of what enforcing the lax one accepts, and that is
      exactly what is accepted with enforcement off, under any profile. What strict enforcement adds:
      a document is turned away by it alone exactly when it is accepted without enforcement and the
      strict profile reports an error. */
  lemma RolloutIsGradual(
      p: Policy, strictName: string, laxName: string, anyName: string, url: string, meta: RepoMeta, r: Reading)
    requires ClaudeSpec.IsStrict(strictName) && !ClaudeSpec.IsStrict(laxName)
    ensures var strict, lax, off := VerdictOf(Under(p, strictName, true), url, meta, r),
              VerdictOf(Under(p, laxName, true), url, meta, r), VerdictOf(Under(p, anyName, false), url, meta, r);
            && (strict.Accepted? ==> lax.Accepted?)
            && (lax.Accepted? <==> off.Accepted?)
            && (lax.Accepted? ==> lax == off)
            && (Failed(lax) <==> Failed(off))
            && (lax.Accepted? && !strict.Accepted? <==> off.Accepted? && !SpecOf(Under(p, strictName, true), url, r).ok)
  {
    SpecUnder(p, strictName, laxName, url, r);
    GatedRollout(
        Refusal(url, meta), Stops(p.security), Decide(p.security, r), SpecOf(Under(p, strictName, true), url, r),
        SpecOf(Under(p, laxName, true), url, r), SpecOf(Under(p, anyName, false), url, r), SkillQuality.Assess(r.doc));
  }

  // ---------------------------------------------------------------- trust, end to end

  /** What the worker feeds the trust profile. */
  function SignalsOf(v: Verdict, meta: RepoMeta): TrustScore.Signals
    requires v.Accepted?
  {
    TrustScore.Signals(Some(v.score as real), true, true, v.decision.block, v.decision.severity,
                       v.decision.indicators, meta.pushedAt)
  }

  /** An accepted document passed the gates on its URL. */
  lemma AcceptedUrl(p: Policy, url: string, meta: RepoMeta, r: Reading)
    ensures WorkerAccepts(p, url, meta, r) ==>
            IsSkillMdSourceUrl(url) && PublicFilters.IsCanonicalSkillDocUrl(CanonicalUrl(url))
  {
    hide SpecOf, Decide, SkillQuality.Assess, IsSkillMdSourceUrl, PublicFilters.IsCanonicalSkillDocUrl, CanonicalUrl;
    assert WorkerAccepts(p, url, meta, r) ==> Refusal(url, meta).None?;
  }

  /** What an accepted document scores in the quality gate. */
  lemma AcceptedQuality(p: Policy, url: string, meta: RepoMeta, r: Reading)
    ensures WorkerAccepts(p, url, meta, r) ==> 25 <= VerdictOf(p, url, meta, r).score <= 100
  {
    if SkillQuality.Assess(r.doc).ok { SkillQuality.ErrorFreeScore(r.doc); }
  }

  /** What the worker's signals have in common. */
  predicate FromWorker(s: TrustScore.Signals) {
    s.verified && s.official && s.quality.Some? && 25.0 <= s.quality.value <= 100.0
  }

  lemma AcceptedSignals(p: Policy, url: string, meta: RepoMeta, r: Reading)
    ensures WorkerAccepts(p, url, meta, r) ==> FromWorker(SignalsOf(VerdictOf(p, url, meta, r), meta))
  {
    AcceptedQuality(p, url, meta, r);
  }

  lemma UnblockedWorkerScore(s: TrustScore.Signals, now: int)
    requires FromWorker(s) && !s.blocked
    ensures TrustScore.Round2(TrustScore.RawScore(s, now)) >= 55.0 && TrustScore.LevelOf(s, now) != TrustScore.Limited
  {
    TrustScore.RoundKeepsHundredths(TrustScore.RawScore(s, now), 5500);
  }

  /** An accepted document without a security block scores at least 55 and is never limited; with the
      security gate enforced, no accepted document carries a block. */
  lemma AcceptedTrust(p: Policy, url: string, meta: RepoMeta, r: Reading, now: int)
    ensures WorkerAccepts(p, url, meta, r) ==>
              var s := SignalsOf(VerdictOf(p, url, meta, r), meta);
              && (Stops(p.security) ==> !s.blocked)
              && (!s.blocked ==>
                   TrustScore.Round2(TrustScore.RawScore(s, now)) >= 55.0
                       && TrustScore.LevelOf(s, now) != TrustScore.Limited)
  {
    if WorkerAccepts(p, url, meta, r) {
      AcceptedSignals(p, url, meta, r);
      var s := SignalsOf(VerdictOf(p, url, meta, r), meta);
      if !s.blocked { UnblockedWorkerScore(s, now); }
    }
  }

  // ---------------------------------------------------------------- the listing's trust filter

  /** The listing keeps a row whose level is unknown or not limited, or whose score reaches 35; an
      unknown score reaches nothing. */
  predicate TrustVisible(level: Option<TrustScore.Level>, score: Option<real>) {
    level.None? || level.value != TrustScore.Limited || (score.Some? && score.value >= 35.0)
  }

  predicate ProfileVisible(s: TrustScore.Signals, now: int) {
    TrustVisible(Some(TrustScore.LevelOf(s, now)), Some(TrustScore.Round2(TrustScore.RawScore(s, now))))
  }

  /** No automatic profile without a block is hidden, and a blocked one is hidden exactly when its
      rounded score stays below 35. */
  lemma FilterHidesBlockedOnly(s: TrustScore.Signals, now: int)
    ensures !s.blocked ==> ProfileVisible(s, now)
    ensures s.blocked ==> (!ProfileVisible(s, now) <==> TrustScore.Round2(TrustScore.RawScore(s, now)) < 35.0)
  {
    if !s.blocked { TrustScore.UnblockedFloor(s, now); }
  }

  lemma BlockedWorkerScore(s: TrustScore.Signals, now: int)
    requires FromWorker(s) && s.blocked && TrustScore.Severity(s) != "critical"
    ensures TrustScore.Round2(TrustScore.RawScore(s, now)) >= 35.0
  {
    TrustScore.RoundKeepsHundredths(TrustScore.RawScore(s, now), 3500);
  }

  lemma CriticalWorkerScore(s: TrustScore.Signals, now: int, quality: int)
    requires FromWorker(s) && s.quality.value == quality as real && s.blocked && TrustScore.Severity(s) == "critical"
    ensures TrustScore.Round2(TrustScore.RawScore(s, now)) ==
            quality as real * 0.45 + 15.0 + TrustScore.Freshness(s.updatedAt, now) * 0.15
  {
    var raw := TrustScore.RawScore(s, now);
    assert raw == quality as real * 0.45 + 15.0 + TrustScore.Freshness(s.updatedAt, now) * 0.15;
    HundredthsRound(raw, 45 * quality + 1500 + 15 * FreshnessPoints(s, now));
  }

  /** With the security gate not enforced, blocked documents are accepted too; the listing then hides
      an accepted document exactly when its block is critical and quality and freshness leave it below 35. */
  lemma AcceptedHidden(p: Policy, url: string, meta: RepoMeta, r: Reading, now: int)
    ensures WorkerAccepts(p, url, meta, r) ==>
              var v := VerdictOf(p, url, meta, r); var s := SignalsOf(v, meta);
              !ProfileVisible(s, now) <==>
              && s.blocked && TrustScore.Severity(s) == "critical"
              && v.score as real * 0.45 + TrustScore.Freshness(s.updatedAt, now) * 0.15 < 20.0
  {
    if WorkerAccepts(p, url, meta, r) {
      AcceptedSignals(p, url, meta, r);
      var v := VerdictOf(p, url, meta, r);
      HiddenSignals(SignalsOf(v, meta), now, v.score);
    }
  }

  lemma HiddenSignals(s: TrustScore.Signals, now: int, quality: int)
    requires FromWorker(s) && s.quality.value == quality as real
    ensures !ProfileVisible(s, now) <==>
            && s.blocked && TrustScore.Severity(s) == "critical"
            && quality as real * 0.45 + TrustScore.Freshness(s.updatedAt, now) * 0.15 < 20.0
  {
    FilterHidesBlockedOnly(s, now);
    if s.blocked {
      if TrustScore.Severity(s) == "critical" {
        CriticalWorkerScore(s, now, quality);
      } else {
        BlockedWorkerScore(s, now);
      }
    }
  }

  function FreshnessPoints(s: TrustScore.Signals, now: int): int { TrustScore.Freshness(s.updatedAt, now).Floor }

  /** A score that is a whole number of hundredths is its own rounding. */
  lemma HundredthsRound(x: real, n: int)
    requires x * 100.0 == n as real
    ensures TrustScore.Round2(x) == x
  {
    assert (x * 100.0).Floor == n;
  }
}
