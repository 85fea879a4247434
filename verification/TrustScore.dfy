/** Trust of a skill: `compute_trust_profile` of app/quality/trust_score.py, over exact reals. */
module TrustScore {
  import opened Basics
  import opened Text
  import opened Frontmatter
  import opened Sorting

  datatype Level = Limited | Warned | Ok

  datatype Profile = Profile(score: real, level: Level, flags: seq<string>)

  /** The inputs of a profile; times in microseconds. */
  datatype Signals = Signals(
    quality: Option<real>,
    verified: bool,
    official: bool,
    blocked: bool,
    severity: string,
    indicators: seq<string>,
    updatedAt: Option<int>)

  const MICROS_PER_DAY := 86_400_000_000

  function DaysSince(updatedAt: int, now: int): int {
    var days := (now - updatedAt) / MICROS_PER_DAY;
    if days < 0 then 0 else days
  }

  function Freshness(updatedAt: Option<int>, now: int): real {
    if updatedAt.None? then 40.0
    else
      var days := DaysSince(updatedAt.value, now);
      if days <= 30 then 100.0
      else if days <= 90 then 80.0
      else if days <= 180 then 60.0
      else if days <= 365 then 45.0
      else 25.0
  }

  function Within(x: real): real { if x < 0.0 then 0.0 else if x > 100.0 then 100.0 else x }

  function QualityPart(s: Signals): real { Within(if s.quality.Some? then s.quality.value else 50.0) }

  function Severity(s: Signals): string { Lower(Strip(s.severity)) }

  function SecurityPart(s: Signals): real {
    if !s.blocked then 100.0
    else if Severity(s) == "critical" then 0.0
    else if Severity(s) == "high" then 20.0
    else 35.0
  }

  /** The weighted score before rounding. */
  function RawScore(s: Signals, now: int): real {
    Within(QualityPart(s) * 0.45 + SecurityPart(s) * 0.25 + (if s.verified then 100.0 else 45.0) * 0.10
           + (if s.official then 100.0 else 60.0) * 0.05 + Freshness(s.updatedAt, now) * 0.15)
  }

  function LevelOf(s: Signals, now: int): Level {
    if s.blocked || RawScore(s, now) < 50.0 then Limited
    else if RawScore(s, now) < 70.0 then Warned
    else Ok
  }

  /** `round(x, 2)` on exact reals: to the nearest hundredth, halves to the even one. */
  function Round2(x: real): real {
    var n := (x * 100.0).Floor;
    var rest := x * 100.0 - n as real;
    (if rest < 0.5 || (rest == 0.5 && n % 2 == 0) then n else n + 1) as real / 100.0
  }

  /** The non-blank indicators, and what is kept of them. */
  function Indicators(items: seq<string>): seq<string> {
    if items == [] then []
    else
      var pre := Indicators(items[..|items| - 1]);
      if Strip(items[|items| - 1]) != "" then pre + [items[|items| - 1]] else pre
  }

  function Kept(items: seq<string>): seq<string> {
    if |Indicators(items)| <= 10 then Indicators(items) else Indicators(items)[..10]
  }

  function IndicatorFlag(indicator: string): string { "indicator:" + Strip(indicator) }

  /** Every flag a profile carries. */
  function Flags(s: Signals, now: int): set<string> {
    (if s.blocked then {"security:" + (if Severity(s) == "" then "high" else Severity(s))} else {})
    + (set i | i in Kept(s.indicators) :: IndicatorFlag(i))
    + (if QualityPart(s) < 60.0 then {"quality:low"} else {})
    + (if !s.verified then {"verification:unverified"} else {})
    + (if Freshness(s.updatedAt, now) < 45.0 then {"freshness:stale"} else {})
  }

  ghost predicate IsProfile(p: Profile, s: Signals, now: int) {
    && p.score == Round2(RawScore(s, now))
    && p.level == LevelOf(s, now)
    && Elements(p.flags) == Flags(s, now) && Sorted(p.flags, StringLe) && Distinct(p.flags)
  }

  method AddIndicators(flags0: seq<string>, kept: seq<string>) returns (flags: seq<string>)
    ensures Elements(flags) == Elements(flags0) + (set i | i in kept :: IndicatorFlag(i))
  {
    flags := flags0;
    for i := 0 to |kept|
      invariant Elements(flags) == Elements(flags0) + (set j | 0 <= j < i :: IndicatorFlag(kept[j]))
    {
      Appended(flags, IndicatorFlag(kept[i]));
      flags := flags + [IndicatorFlag(kept[i])];
    }
  }

  method AddFlag(flags0: seq<string>, raised: bool, flag: string) returns (flags: seq<string>)
    ensures Elements(flags) == Elements(flags0) + (if raised then {flag} else {})
  {
    Appended(flags0, flag);
    flags := if raised then flags0 + [flag] else flags0;
  }

  method CollectFlags(s: Signals, now: int) returns (flags: seq<string>)
    ensures Elements(flags) == Flags(s, now)
  {
    flags := AddFlag([], s.blocked, "security:" + (if Severity(s) == "" then "high" else Severity(s)));
    flags := AddIndicators(flags, Kept(s.indicators));
    flags := AddFlag(flags, QualityPart(s) < 60.0, "quality:low");
    flags := AddFlag(flags, !s.verified, "verification:unverified");
    flags := AddFlag(flags, Freshness(s.updatedAt, now) < 45.0, "freshness:stale");
  }

  lemma Appended(flags: seq<string>, flag: string)
    ensures Elements(flags + [flag]) == Elements(flags) + {flag}
  {
  }

  method ComputeTrustProfile(s: Signals, now: int) returns (p: Profile)
    ensures IsProfile(p, s, now)
  {
    var score := RawScore(s, now);
    var flags := CollectFlags(s, now);
    var deduped := SortedElements(Elements(flags));
    var level := if s.blocked || score < 50.0 then Limited else if score < 70.0 then Warned else Ok;
    p := Profile(Round2(score), level, deduped);
  }

  /** The signals determine the profile, flags in order and all. */
  lemma ProfileIsDetermined(p: Profile, q: Profile, s: Signals, now: int)
    requires IsProfile(p, s, now) && IsProfile(q, s, now)
    ensures p == q
  {
    OrderIsUnique(p.flags, q.flags);
  }

  ghost function ProfileOf(s: Signals, now: int): (p: Profile)
    ensures IsProfile(p, s, now)
  {
    Profile(Round2(RawScore(s, now)), LevelOf(s, now), InOrder(Flags(s, now)))
  }

  // ---------------------------------------------------------------- rounding

  lemma RoundMonotone(x: real, y: real)
    requires x <= y
    ensures Round2(x) <= Round2(y)
  {
    var m, n := (x * 100.0).Floor, (y * 100.0).Floor;
    assert m <= n;
  }

  /** Rounding does not cross a hundredth. */
  lemma RoundKeepsHundredths(x: real, n: int)
    requires x * 100.0 >= n as real
    ensures Round2(x) * 100.0 >= n as real
  {
    assert (x * 100.0).Floor >= n;
  }

  // ---------------------------------------------------------------- bounds and monotonicity

  /** Every profile without a security block scores at least 36.25. */
  lemma UnblockedFloor(s: Signals, now: int)
    requires !s.blocked
    ensures RawScore(s, now) >= 36.25 && Round2(RawScore(s, now)) >= 36.25
  {
    RoundKeepsHundredths(RawScore(s, now), 3625);
  }

  /** And some profile scores exactly that: nothing verified, nothing official, the worst quality, and
      no update for more than a year. */
  lemma UnblockedFloorIsReached(now: int) returns (s: Signals)
    ensures !s.blocked && RawScore(s, now) == 36.25 && LevelOf(s, now) == Limited
  {
    s := Signals(Some(0.0), false, false, false, "", [], Some(now - 366 * MICROS_PER_DAY));
    assert (now - (now - 366 * MICROS_PER_DAY)) / MICROS_PER_DAY == 366;
  }

  /** `a` is at least as good as `b` in quality, verification, officialness and recency, all else equal. */
  predicate AtLeastAsGood(a: Signals, b: Signals, now: int) {
    && a.blocked == b.blocked && a.severity == b.severity
    && QualityPart(a) >= QualityPart(b)
    && (b.verified ==> a.verified) && (b.official ==> a.official)
    && Freshness(a.updatedAt, now) >= Freshness(b.updatedAt, now)
  }

  function Rank(l: Level): int { match l case Limited => 0 case Warned => 1 case Ok => 2 }

  lemma TrustMonotone(a: Signals, b: Signals, now: int)
    requires AtLeastAsGood(a, b, now)
    ensures Round2(RawScore(a, now)) >= Round2(RawScore(b, now))
    ensures Rank(LevelOf(a, now)) >= Rank(LevelOf(b, now))
  {
    assert SecurityPart(a) == SecurityPart(b);
    RoundMonotone(RawScore(b, now), RawScore(a, now));
  }

  /** A later update, or the same one looked at earlier, is never less fresh; not knowing the date ranks
      between one year and half a year. */
  lemma FreshnessMonotone(older: int, newer: int, now: int, later: int)
    requires older <= newer && now <= later
    ensures Freshness(Some(newer), now) >= Freshness(Some(older), now)
    ensures Freshness(Some(newer), now) >= Freshness(Some(newer), later)
    ensures Freshness(None, now) >= Freshness(Some(older), now) <==> DaysSince(older, now) > 365
  {
    assert (now - newer) / MICROS_PER_DAY <= (now - older) / MICROS_PER_DAY;
    assert (now - newer) / MICROS_PER_DAY <= (later - newer) / MICROS_PER_DAY;
  }
}
