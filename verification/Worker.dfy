/** The worker: batches of queued documents judged, filed in the catalogue and counted
    (`parse_queued_raw_skills` of app/workers/ingest_and_parse.py), and the loop that drains the
    queue (app/workers/run_all.py). */
module Worker {
  import opened Basics
  import opened Frontmatter
  import opened Sorting
  import opened RawQueue
  import opened WorkerGates
  import BatchQuery
  import Catalogue
  import PublicFilters
  import RepoUrls
  import TrustScore

  /** The settings of a batch, its time, and what the worker calls out to: reading a document,
      digesting a URL, and which documents raise. */
  datatype Env = Env(
    policy: Policy,
    now: int,
    read: (string, string) -> Reading,
    digest: string -> string,
    raises: (string, RepoMeta, string) -> bool)

  function JudgeOf(env: Env): Judge {
    (url, meta, content) =>
      if env.raises(url, meta, content) then Raised
      else Judged(VerdictOf(env.policy, url, meta, env.read(url, content)))
  }

  function RepoUrl(url: string): string {
    match RepoUrls.NormalizeGithubRepoUrl(url)
    case Some(repo) => repo
    case None => CanonicalUrl(url)
  }

  predicate Accepts(env: Env, row: Row) {
    var o := OutcomeOf(row, JudgeOf(env));
    o.Judged? && o.v.Accepted?
  }

  function RowSignals(env: Env, row: Row): TrustScore.Signals
    requires Accepts(env, row)
  {
    SignalsOf(OutcomeOf(row, JudgeOf(env)).v, row.meta)
  }

  /** The candidate of an accepted row, given its trust profile. */
  function CandidateWith(env: Env, row: Row, trust: TrustScore.Profile): Catalogue.Candidate
    requires Accepts(env, row)
  {
    var url := UrlText(row.sourceUrl);
    var r := env.read(url, row.content);
    var score := OutcomeOf(row, JudgeOf(env)).v.score;
    Catalogue.Candidate(
        r.name, CanonicalUrl(url), RepoUrl(url), Catalogue.SlugFor(r.name, env.digest(CanonicalUrl(url))),
        r.description, r.body, r.category,
        Catalogue.Details(score, row.meta.stars, row.meta.pushedAt, r.useCases), trust)
  }

  ghost function CandidateOf(env: Env, row: Row): Catalogue.Candidate
    requires Accepts(env, row)
  {
    CandidateWith(env, row, TrustScore.ProfileOf(RowSignals(env, row), env.now))
  }

  /** The candidates of a batch, in its order. */
  ghost function Candidates(env: Env, rows: seq<Row>, batch: seq<nat>): seq<Catalogue.Candidate>
    requires InRange(rows, batch)
  {
    if batch == [] then []
    else
      var n := |batch| - 1;
      var pre, row := Candidates(env, rows, batch[..n]), rows[batch[n]];
      if Accepts(env, row) then pre + [CandidateOf(env, row)] else pre
  }

  // ---------------------------------------------------------------- candidates are documents

  predicate IsDocument(c: Catalogue.Candidate) {
    PublicFilters.IsCanonicalSkillDocUrl(c.url)
        && (c.repoUrl == c.url || !PublicFilters.IsCanonicalSkillDocUrl(c.repoUrl))
  }

  lemma AcceptsIs(env: Env, row: Row)
    requires Accepts(env, row)
    ensures var url := UrlText(row.sourceUrl);
            var r := env.read(url, row.content);
            && WorkerAccepts(env.policy, url, row.meta, r)
            && RowSignals(env, row) == SignalsOf(VerdictOf(env.policy, url, row.meta, r), row.meta)
  {
    hide VerdictOf;
  }

  lemma CandidateIsDocument(env: Env, row: Row)
    requires Accepts(env, row)
    ensures IsDocument(CandidateOf(env, row))
  {
    hide VerdictOf, PublicFilters.IsCanonicalSkillDocUrl, RepoUrls.NormalizeGithubRepoUrl, CanonicalUrl,
        TrustScore.ProfileOf;
    var url := UrlText(row.sourceUrl);
    AcceptsIs(env, row);
    AcceptedUrl(env.policy, url, row.meta, env.read(url, row.content));
    if RepoUrls.NormalizeGithubRepoUrl(url).Some? { RepoUrls.RepoPageIsNoDocument(url); }
  }

  lemma CandidateSignals(env: Env, row: Row)
    requires Accepts(env, row)
    ensures Stops(env.policy.security) ==> !RowSignals(env, row).blocked
    ensures FromWorker(RowSignals(env, row))
  {
    hide RowSignals, Accepts;
    var url := UrlText(row.sourceUrl);
    AcceptsIs(env, row);
    AcceptedSignals(env.policy, url, row.meta, env.read(url, row.content));
  }

  predicate Documents(cs: seq<Catalogue.Candidate>) { forall c | c in cs :: IsDocument(c) }

  lemma {:induction false} CandidatesAreDocuments(env: Env, rows: seq<Row>, batch: seq<nat>)
    requires InRange(rows, batch)
    ensures Documents(Candidates(env, rows, batch))
  {
    if batch == [] {
    } else {
      var n := |batch| - 1;
      CandidatesAreDocuments(env, rows, batch[..n]);
      if Accepts(env, rows[batch[n]]) { CandidateIsDocument(env, rows[batch[n]]); }
    }
  }

  lemma DocumentsNeverMigrate(cs: seq<Catalogue.Candidate>, url: string)
    requires Documents(cs) && PublicFilters.IsCanonicalSkillDocUrl(url)
    ensures Catalogue.NeverMigrated(url, cs)
  {
  }

  lemma {:induction false} CandidateInBatch(env: Env, rows: seq<Row>, batch: seq<nat>, i: nat)
    requires InRange(rows, batch) && i in batch && Accepts(env, rows[i])
    ensures CandidateOf(env, rows[i]) in Candidates(env, rows, batch)
  {
    var n := |batch| - 1;
    if batch[n] == i {
    } else {
      assert i in batch[..n];
      CandidateInBatch(env, rows, batch[..n], i);
    }
  }

  lemma {:induction false} LatestExists(cs: seq<Catalogue.Candidate>, c: Catalogue.Candidate)
    requires c in cs
    ensures Catalogue.Latest(cs, c.url).Some? && Catalogue.Latest(cs, c.url).value in cs
  {
    var n := |cs| - 1;
    if cs[n].url == c.url {
    } else {
      assert c in cs[..n];
      LatestExists(cs[..n], c);
    }
  }

  /** Every document a batch accepts ends in the catalogue, under the last of its versions in the batch. */
  lemma AcceptedIsFiled(env: Env, rows: seq<Row>, skills: seq<Catalogue.Skill>, batch: seq<nat>, i: nat)
    requires Catalogue.Unique(skills) && InRange(rows, batch) && i in batch && Accepts(env, rows[i])
    ensures var cs, url := Candidates(env, rows, batch), CanonicalUrl(UrlText(rows[i].sourceUrl));
            Catalogue.Latest(cs, url).Some?
                && Catalogue.Says(Catalogue.Filed(skills, cs), url, Catalogue.Latest(cs, url).value)
  {
    var cs, c := Candidates(env, rows, batch), CandidateOf(env, rows[i]);
    CandidateInBatch(env, rows, batch, i);
    CandidatesAreDocuments(env, rows, batch);
    CandidateIsDocument(env, rows[i]);
    DocumentsNeverMigrate(cs, c.url);
    LatestExists(cs, c);
    Catalogue.LatestWins(skills, cs, c.url);
  }

  // ---------------------------------------------------------------- every accepted document stays filed

  datatype State = State(db: Db, skills: seq<Catalogue.Skill>)

  datatype Event = Ingest(item: Ingested, now: int) | Reparse(ids: set<nat>) | Parse(batch: seq<nat>, env: Env)

  function QueueEvent(e: Event): RawQueue.Event {
    match e
    case Ingest(item, now) => Upsert(item, now)
    case Reparse(ids) => Requeue(ids)
    case Parse(batch, env) => Batch(batch, JudgeOf(env))
  }

  predicate CanHappen(s: State, e: Event) { Enabled(s.db, QueueEvent(e)) }

  ghost function Next(s: State, e: Event): State {
    State(Step(s.db, QueueEvent(e)),
          if e.Parse? && InRange(s.db.rows, e.batch)
          then Catalogue.Filed(s.skills, Candidates(e.env, s.db.rows, e.batch)) else s.skills)
  }

  predicate Listed(skills: seq<Catalogue.Skill>, url: string) { Catalogue.UrlAt(skills, url) < |skills| }

  /** A row whose last verdict accepted it has its skill, and its URL is a document's. */
  predicate Covered(skills: seq<Catalogue.Skill>, row: Row) {
    row.judgement.Some? && row.judgement.value.outcome.Judged? && row.judgement.value.outcome.v.Accepted? ==>
      var url := CanonicalUrl(UrlText(row.sourceUrl));
      PublicFilters.IsCanonicalSkillDocUrl(url) && Listed(skills, url)
  }

  predicate AllCovered(s: State) { forall i | 0 <= i < |s.db.rows| :: Covered(s.skills, s.db.rows[i]) }

  ghost predicate StateInv(s: State) { Inv(s.db) && Catalogue.Unique(s.skills) && AllCovered(s) }

  lemma FilingKeepsListed(skills: seq<Catalogue.Skill>, cs: seq<Catalogue.Candidate>, url: string)
    requires Catalogue.Unique(skills) && Documents(cs) && PublicFilters.IsCanonicalSkillDocUrl(url)
             && Listed(skills, url)
    ensures Listed(Catalogue.Filed(skills, cs), url)
  {
    DocumentsNeverMigrate(cs, url);
    Catalogue.RowIsPermanent(skills, cs, Catalogue.UrlAt(skills, url), url);
  }

  lemma FiledRowIsCovered(env: Env, rows: seq<Row>, skills: seq<Catalogue.Skill>, batch: seq<nat>, i: nat)
    requires Catalogue.Unique(skills) && InRange(rows, batch) && i in batch
    ensures Covered(Catalogue.Filed(skills, Candidates(env, rows, batch)),
            Settled(rows[i], OutcomeOf(rows[i], JudgeOf(env))))
  {
    if Accepts(env, rows[i]) {
      AcceptedIsFiled(env, rows, skills, batch, i);
      CandidateIsDocument(env, rows[i]);
    }
  }

  lemma ParseKeepsCovered(s: State, batch: seq<nat>, env: Env)
    requires StateInv(s) && IsOldestBatch(s.db.rows, batch)
    ensures AllCovered(State(Step(s.db, Batch(batch, JudgeOf(env))),
            Catalogue.Filed(s.skills, Candidates(env, s.db.rows, batch))))
  {
    var rows, cs := s.db.rows, Candidates(env, s.db.rows, batch);
    CandidatesAreDocuments(env, rows, batch);
    forall i | 0 <= i < |rows|
      ensures Covered(Catalogue.Filed(s.skills, cs), AfterBatch(rows, batch, JudgeOf(env))[i])
    {
      if i in batch {
        FiledRowIsCovered(env, rows, s.skills, batch, i);
      } else {
        assert Covered(s.skills, rows[i]);
        var url := CanonicalUrl(UrlText(rows[i].sourceUrl));
        if PublicFilters.IsCanonicalSkillDocUrl(url) && Listed(s.skills, url) { FilingKeepsListed(s.skills, cs, url); }
      }
    }
  }

  /** What coverage looks at. */
  lemma SameVerdictCovered(skills: seq<Catalogue.Skill>, a: Row, b: Row)
    requires Covered(skills, a) && b.judgement == a.judgement && b.sourceUrl == a.sourceUrl
    ensures Covered(skills, b)
  {
  }

  lemma IngestKeepsCovered(s: State, item: Ingested, now: int)
    requires StateInv(s)
    ensures AllCovered(State(Upserted(s.db, item, now), s.skills))
  {
    var rows, after := s.db.rows, Upserted(s.db, item, now).rows;
    UpsertKeepsJudgements(s.db, item, now);
    forall i | 0 <= i < |after| ensures Covered(s.skills, after[i]) {
      if i < |rows| { SameVerdictCovered(s.skills, rows[i], after[i]); }
    }
  }

  lemma ReparseKeepsCovered(s: State, ids: set<nat>)
    requires StateInv(s)
    ensures AllCovered(State(s.db.(rows := Requeued(s.db.rows, ids)), s.skills))
  {
    forall i | 0 <= i < |s.db.rows| ensures Covered(s.skills, Requeued(s.db.rows, ids)[i]) {
      SameVerdictCovered(s.skills, s.db.rows[i], Requeued(s.db.rows, ids)[i]);
    }
  }

  lemma NextKeepsInv(s: State, e: Event)
    requires StateInv(s) && CanHappen(s, e)
    ensures StateInv(Next(s, e))
  {
    StepKeepsInv(s.db, QueueEvent(e));
    match e
    case Ingest(item, now) => IngestKeepsCovered(s, item, now);
    case Reparse(ids) => ReparseKeepsCovered(s, ids);
    case Parse(batch, env) =>
      ParseKeepsCovered(s, batch, env);
      Catalogue.RunKeepsUnique(s.skills, Candidates(env, s.db.rows, batch));
  }

  ghost function After(s: State, run: seq<Event>): State {
    if run == [] then s else Next(After(s, run[..|run| - 1]), run[|run| - 1])
  }

  ghost predicate Legal(s: State, run: seq<Event>) {
    run == [] || (Legal(s, run[..|run| - 1]) && CanHappen(After(s, run[..|run| - 1]), run[|run| - 1]))
  }

  /** In every run of ingestions, re-queues and batches under changing settings: a document whose last
      verdict accepted it is in the catalogue, verdicts are never stale, and keys, URLs and slugs stay
      distinct. */
  lemma {:induction false} AcceptedStaysFiled(s: State, run: seq<Event>)
    requires StateInv(s) && Legal(s, run)
    ensures StateInv(After(s, run))
  {
    if run == [] {
    } else {
      AcceptedStaysFiled(s, run[..|run| - 1]);
      NextKeepsInv(After(s, run[..|run| - 1]), run[|run| - 1]);
    }
  }

  // ---------------------------------------------------------------- trust of what is filed

  predicate Trusted(c: Catalogue.Candidate) { c.trust.score >= 55.0 && c.trust.level != TrustScore.Limited }

  lemma {:induction false} CandidatesAreTrusted(env: Env, rows: seq<Row>, batch: seq<nat>)
    requires InRange(rows, batch) && Stops(env.policy.security)
    ensures forall c | c in Candidates(env, rows, batch) :: Trusted(c)
  {
    if batch == [] {
    } else {
      var n := |batch| - 1;
      CandidatesAreTrusted(env, rows, batch[..n]);
      var row := rows[batch[n]];
      if Accepts(env, row) {
        CandidateSignals(env, row);
        UnblockedWorkerScore(RowSignals(env, row), env.now);
      }
    }
  }

  /** With the security gate enforced, the catalogue row of every document a batch accepts passes the
      listing's trust filter, unless an administrator overrode its trust. */
  lemma AcceptedIsVisible(env: Env, rows: seq<Row>, skills: seq<Catalogue.Skill>, batch: seq<nat>, i: nat)
    requires Catalogue.Unique(skills) && InRange(rows, batch) && i in batch && Accepts(env, rows[i])
             && Stops(env.policy.security)
    ensures var after := Catalogue.Filed(skills, Candidates(env, rows, batch));
            var k := Catalogue.UrlAt(after, CanonicalUrl(UrlText(rows[i].sourceUrl)));
            && k < |after|
            && (!after[k].trustOverridden ==>
                  && after[k].trust.Some? && after[k].trust.value.score >= 55.0
                  && TrustVisible(Some(after[k].trust.value.level), Some(after[k].trust.value.score)))
  {
    AcceptedIsFiled(env, rows, skills, batch, i);
    var cs, url := Candidates(env, rows, batch), CanonicalUrl(UrlText(rows[i].sourceUrl));
    CandidateInBatch(env, rows, batch, i);
    LatestExists(cs, CandidateOf(env, rows[i]));
    CandidatesAreTrusted(env, rows, batch);
    assert Trusted(Catalogue.Latest(cs, url).value);
  }

  // ---------------------------------------------------------------- the batch as the worker runs it

  datatype Stats = Stats(
      pendingBefore: int, pendingAfter: int, processed: int, errors: int, batchSize: int, drained: int)

  function Max(a: int, b: int): int { if a > b then a else b }

  /** One row: its outcome, and the candidate to file when it is accepted. */
  method JudgeRow(env: Env, row: Row) returns (o: Outcome, candidate: Option<Catalogue.Candidate>)
    ensures o == OutcomeOf(row, JudgeOf(env))
    ensures candidate == if Accepts(env, row) then Some(CandidateOf(env, row)) else None
  {
    var url := UrlText(row.sourceUrl);
    if env.raises(url, row.meta, row.content) {
      return Raised, None;
    }
    var v := RunGates(env.policy, url, row.meta, env.read(url, row.content));
    o, candidate := Judged(v), None;
    if v.Accepted? {
      var trust := TrustScore.ComputeTrustProfile(RowSignals(env, row), env.now);
      TrustScore.ProfileIsDetermined(trust, TrustScore.ProfileOf(RowSignals(env, row), env.now), RowSignals(env, row),
          env.now);
      candidate := Some(CandidateWith(env, row, trust));
    }
  }

  lemma SettleNext(rows: seq<Row>, batch: seq<nat>, k: nat, judge: Judge)
    requires Distinct(batch) && InRange(rows, batch) && k < |batch|
    ensures AfterBatch(rows, batch[..k], judge)[batch[k]] == rows[batch[k]]
    ensures AfterBatch(rows, batch[..k + 1], judge) ==
            AfterBatch(rows, batch[..k], judge)[batch[k] := Settled(rows[batch[k]], OutcomeOf(rows[batch[k]], judge))]
    ensures ErrorsIn(rows, batch[..k + 1], judge) ==
            ErrorsIn(rows, batch[..k], judge) + if Errored(OutcomeOf(rows[batch[k]], judge)) then 1 else 0
  {
    assert batch[..k + 1] == batch[..k] + [batch[k]];
    assert batch[..k + 1][..k] == batch[..k];
    assert batch[k] !in batch[..k];
  }

  lemma FileNext(env: Env, rows: seq<Row>, batch: seq<nat>, k: nat, skills: seq<Catalogue.Skill>)
    requires InRange(rows, batch) && k < |batch|
    ensures var before := Catalogue.Filed(skills, Candidates(env, rows, batch[..k]));
            Catalogue.Filed(skills, Candidates(env, rows, batch[..k + 1])) ==
            if Accepts(env, rows[batch[k]]) then Catalogue.Upserted(before, CandidateOf(env, rows[batch[k]]))
            else before
  {
    assert batch[..k + 1][..k] == batch[..k];
    var cs := Candidates(env, rows, batch[..k]);
    if Accepts(env, rows[batch[k]]) {
      var all := cs + [CandidateOf(env, rows[batch[k]])];
      assert all[..|all| - 1] == cs;
    }
  }

  /** One row of a batch, judged, filed and settled. */
  method SettleOne(queue: RawTable, catalogue: Catalogue.SkillTable, env: Env, i: nat) returns (errored: bool)
    requires i < |queue.rows|
    modifies queue`rows, catalogue
    ensures var row := old(queue.rows[i]); var o := OutcomeOf(row, JudgeOf(env));
            && queue.rows == old(queue.rows)[i := Settled(row, o)] && errored == Errored(o)
            && catalogue.skills ==
               if Accepts(env, row) then Catalogue.Upserted(old(catalogue.skills), CandidateOf(env, row))
               else old(catalogue.skills)
  {
    var raw := queue.rows[i];
    var o, candidate := JudgeRow(env, raw);
    if candidate.Some? {
      var _ := catalogue.UpsertSkill(candidate.value);
    }
    queue.rows := queue.rows[i := Settled(raw, o)];
    errored := Errored(o);
  }

  method SettleBatch(queue: RawTable, catalogue: Catalogue.SkillTable, env: Env, batch: seq<nat>) returns (errors: nat)
    requires Distinct(batch) && InRange(queue.rows, batch)
    modifies queue`rows, catalogue
    ensures queue.rows == AfterBatch(old(queue.rows), batch, JudgeOf(env))
    ensures catalogue.skills == Catalogue.Filed(old(catalogue.skills), Candidates(env, old(queue.rows), batch))
    ensures errors == ErrorsIn(old(queue.rows), batch, JudgeOf(env))
  {
    ghost var rows, skills := queue.rows, catalogue.skills;
    errors := 0;
    assert batch[..0] == [];
    for k := 0 to |batch|
      invariant queue.rows == AfterBatch(rows, batch[..k], JudgeOf(env))
      invariant catalogue.skills == Catalogue.Filed(skills, Candidates(env, rows, batch[..k]))
      invariant errors == ErrorsIn(rows, batch[..k], JudgeOf(env))
    {
      SettleNext(rows, batch, k, JudgeOf(env));
      FileNext(env, rows, batch, k, skills);
      var errored := SettleOne(queue, catalogue, env, batch[k]);
      if errored { errors := errors + 1; }
    }
    assert batch[..|batch|] == batch;
  }

  /** One batch: it settles exactly the oldest pending rows, at most a batch of them, files what it
      accepts, and reports counters that add up. */
  method ParseQueuedRawSkills(queue: RawTable, catalogue: Catalogue.SkillTable, env: Env)
    returns (stats: Stats, batch: seq<nat>)
    modifies queue`rows, catalogue
    ensures IsOldestBatch(old(queue.rows), batch)
    ensures queue.rows == AfterBatch(old(queue.rows), batch, JudgeOf(env))
    ensures catalogue.skills == Catalogue.Filed(old(catalogue.skills), Candidates(env, old(queue.rows), batch))
    ensures stats.pendingBefore == |PendingSet(old(queue.rows))| && stats.pendingAfter == |PendingSet(queue.rows)|
    ensures stats.drained == stats.batchSize == |batch| == Min(BATCH, stats.pendingBefore)
    ensures stats.errors == ErrorsIn(old(queue.rows), batch, JudgeOf(env))
    ensures stats.processed + stats.errors == stats.drained && stats.processed >= 0
    ensures stats.pendingAfter + stats.drained == stats.pendingBefore
  {
    var pendingBefore := |PendingSet(queue.rows)|;
    batch := BatchQuery.OldestPending(queue.rows);
    BatchDrains(queue.rows, batch, JudgeOf(env));
    ErrorsAreFew(queue.rows, batch, JudgeOf(env));
    var errors := SettleBatch(queue, catalogue, env, batch);
    var pendingAfter := |PendingSet(queue.rows)|;
    var drained := Max(pendingBefore - pendingAfter, 0);
    var processed := Max(drained - errors, 0);
    stats := Stats(pendingBefore, pendingAfter, processed, errors, |batch|, drained);
  }

  // ---------------------------------------------------------------- draining the queue

  /** Rows of a list, oldest first, none of them newer than any row still waiting. */
  predicate OldestFirst(rows: seq<Row>, order: seq<nat>, waiting: set<nat>) {
    && InRange(rows, order) && (forall j | j in waiting :: j < |rows|)
    && (forall a, b | 0 <= a < b < |order| :: rows[order[a]].created <= rows[order[b]].created)
    && (forall a, j | 0 <= a < |order| && j in waiting :: rows[order[a]].created <= rows[j].created)
  }

  predicate SettledUnder(was: Row, row: Row, env: Env) { row == Settled(was, OutcomeOf(was, JudgeOf(env))) }

  /** The rows of the list are settled, each on what it said at first and under the environment of its
      batch; the others are as they were. */
  predicate SettledBy(was: seq<Row>, rows: seq<Row>, order: seq<nat>, env: nat -> Env) {
    && |rows| == |was| && InRange(was, order)
    && (forall a | 0 <= a < |order| :: SettledUnder(was[order[a]], rows[order[a]], env(a / BATCH)))
    && forall i: nat | i < |was| && i !in order :: rows[i] == was[i]
  }

  lemma BatchSettles(was: seq<Row>, rows: seq<Row>, order: seq<nat>, batch: seq<nat>, env: nat -> Env, k: nat)
    requires SettledBy(was, rows, order, env) && Elements(order) !! PendingSet(rows) && IsOldestBatch(rows, batch)
    requires |order| == BATCH * k
    ensures SettledBy(was, AfterBatch(rows, batch, JudgeOf(env(k))), order + batch, env)
  {
    hide Settled, OutcomeOf, JudgeOf;
    var after, more := AfterBatch(rows, batch, JudgeOf(env(k))), order + batch;
    forall a | 0 <= a < |more|
      ensures more[a] < |was|
      ensures SettledUnder(was[more[a]], after[more[a]], env(a / BATCH))
    {
      if a < |order| {
        assert order[a] in Elements(order);
      } else {
        assert batch[a - |order|] in PendingSet(rows) && batch[a - |order|] !in Elements(order);
        assert a / BATCH == k;
      }
    }
  }

  lemma BatchContinues(was: seq<Row>, rows: seq<Row>, order: seq<nat>, batch: seq<nat>)
    requires |rows| == |was| && forall j | j in PendingSet(rows) :: rows[j] == was[j]
    requires OldestFirst(was, order, PendingSet(rows)) && IsOldestBatch(rows, batch)
    ensures OldestFirst(was, order + batch, PendingSet(rows) - Elements(batch))
  {
    forall k | 0 <= k < |batch| ensures batch[k] in PendingSet(rows)
        && rows[batch[k]].created == was[batch[k]].created {
    }
  }

  /** How far a drain has come since the rows were as they `was`. */
  predicate Progress(was: seq<Row>, rows: seq<Row>, order: seq<nat>, env: nat -> Env) {
    && PendingSet(rows) <= PendingSet(was) && Elements(order) == PendingSet(was) - PendingSet(rows)
    && |order| + |PendingSet(rows)| == |PendingSet(was)|
    && OldestFirst(was, order, PendingSet(rows))
    && SettledBy(was, rows, order, env)
  }

  lemma WaitingUnchanged(was: seq<Row>, rows: seq<Row>, order: seq<nat>, env: nat -> Env)
    requires SettledBy(was, rows, order, env) && Elements(order) !! PendingSet(rows)
    ensures |rows| == |was| && forall j | j in PendingSet(rows) :: rows[j] == was[j]
  {
    forall j | j in PendingSet(rows) ensures rows[j] == was[j] {
      assert j !in Elements(order);
    }
  }

  lemma SetsGoOn(all: set<nat>, waiting: set<nat>, order: seq<nat>, batch: seq<nat>)
    requires waiting <= all && Elements(order) == all - waiting && Elements(batch) <= waiting
    ensures Elements(order + batch) == all - (waiting - Elements(batch))
  {
    assert Elements(order + batch) == Elements(order) + Elements(batch);
  }

  lemma BatchWaits(rows: seq<Row>, batch: seq<nat>)
    requires IsOldestBatch(rows, batch)
    ensures Elements(batch) <= PendingSet(rows) && |batch| == Min(BATCH, |PendingSet(rows)|)
  {
  }

  lemma BatchProgresses(was: seq<Row>, rows: seq<Row>, order: seq<nat>, batch: seq<nat>, env: nat -> Env, k: nat)
    requires Progress(was, rows, order, env) && IsOldestBatch(rows, batch) && |order| == BATCH * k
    ensures Progress(was, AfterBatch(rows, batch, JudgeOf(env(k))), order + batch, env)
  {
    hide SettledBy, OldestFirst, AfterBatch, JudgeOf, PendingSet, IsOldestBatch, Elements;
    BatchSettles(was, rows, order, batch, env, k);
    WaitingUnchanged(was, rows, order, env);
    BatchContinues(was, rows, order, batch);
    BatchDrains(rows, batch, JudgeOf(env(k)));
    BatchWaits(rows, batch);
    SetsGoOn(PendingSet(was), PendingSet(rows), order, batch);
  }

  /** How many batches drain a queue. */
  function BatchesFor(n: nat): nat { if n == 0 then 1 else (n + BATCH - 1) / BATCH }

  /** Nothing waits any more, and the batches were as many as it takes. */
  predicate Drained(was: seq<Row>, rows: seq<Row>, order: seq<nat>, batches: nat, env: nat -> Env) {
    && PendingSet(rows) == {} && Elements(order) == PendingSet(was) && |order| == |PendingSet(was)|
    && OldestFirst(was, order, {}) && SettledBy(was, rows, order, env)
    && batches == BatchesFor(|PendingSet(was)|)
  }

  lemma NothingDrained(was: seq<Row>, env: nat -> Env)
    ensures Progress(was, was, [], env)
  {
    assert Elements<nat>([]) == {};
  }

  lemma LastBatch(was: seq<Row>, rows: seq<Row>, order: seq<nat>, full: nat, last: nat, env: nat -> Env)
    requires Progress(was, rows, order, env) && |PendingSet(rows)| == 0
    requires |order| == BATCH * full + last && last <= BATCH && (last > 0 || full == 0)
    ensures Drained(was, rows, order, full + 1, env)
  {
  }

  /** The drain loop: it ends after just as many batches as it takes, with the queue empty, every
      waiting row settled oldest first, the a-th of them under `env(a / BATCH)`, and the total right. */
  method Drain(queue: RawTable, catalogue: Catalogue.SkillTable, env: nat -> Env)
    returns (drainedTotal: int, batches: nat, order: seq<nat>)
    modifies queue`rows, catalogue
    ensures Drained(old(queue.rows), queue.rows, order, batches, env)
    ensures drainedTotal == |order|
    ensures Catalogue.Unique(old(catalogue.skills)) ==> Catalogue.Unique(catalogue.skills)
  {
    ghost var was, skills := queue.rows, catalogue.skills;
    hide PendingSet, OldestFirst, SettledBy, SettledUnder, Progress, Drained, Catalogue.Unique;
    NothingDrained(was, env);
    ghost var waiting := |PendingSet(was)|;
    drainedTotal, batches, order := 0, 0, [];
    while true
      invariant Progress(was, queue.rows, order, env) && drainedTotal == |order| == BATCH * batches
      invariant waiting == |PendingSet(queue.rows)| && (batches == 0 || PendingSet(queue.rows) != {})
      invariant Catalogue.Unique(skills) ==> Catalogue.Unique(catalogue.skills)
      decreases waiting
    {
      var stats;
      stats, order := DrainOne(queue, catalogue, env, batches, was, order);
      drainedTotal := drainedTotal + stats.drained;
      batches := batches + 1;
      if stats.pendingAfter <= 0 {
        break;
      }
      if stats.drained <= 0 {
        break;
      }
      waiting := stats.pendingAfter;
    }
  }

  /** One round of the loop. */
  method DrainOne(
      queue: RawTable, catalogue: Catalogue.SkillTable, env: nat -> Env, k: nat, ghost was: seq<Row>, order0: seq<nat>)
    returns (stats: Stats, order: seq<nat>)
    requires Progress(was, queue.rows, order0, env) && |order0| == BATCH * k && (k == 0 || PendingSet(queue.rows) != {})
    modifies queue`rows, catalogue
    ensures Progress(was, queue.rows, order, env)
    ensures stats.pendingAfter == 0 ==> Drained(was, queue.rows, order, k + 1, env)
    ensures stats.drained == |order| - |order0| == Min(BATCH, |PendingSet(old(queue.rows))|)
    ensures stats.pendingAfter == |PendingSet(queue.rows)| == |PendingSet(old(queue.rows))| - stats.drained
    ensures Catalogue.Unique(old(catalogue.skills)) ==> Catalogue.Unique(catalogue.skills)
  {
    ghost var rows, skills := queue.rows, catalogue.skills;
    var batch;
    stats, batch := ParseQueuedRawSkills(queue, catalogue, env(k));
    BatchProgresses(was, rows, order0, batch, env, k);
    if Catalogue.Unique(skills) { Catalogue.RunKeepsUnique(skills, Candidates(env(k), rows, batch)); }
    order := order0 + batch;
    if stats.pendingAfter == 0 { LastBatch(was, queue.rows, order, k, |batch|, env); }
  }

  // ---------------------------------------------------------------- re-queueing and draining

  /** The rules still say what the row's last judgement says. */
  predicate Upholds(judge: Judge, row: Row) {
    row.judgement.Some? && row.judgement.value.outcome == OutcomeOf(row, judge)
  }

  lemma ResettledIff(row: Row, judge: Judge)
    requires UpToDate(row) && row.status == Processed
    ensures var queued := row.(status := Pending);
            Settled(queued, OutcomeOf(queued, judge)) == row <==> Upholds(judge, row)
  {
  }

  /** Re-queueing any set of processed rows and draining the queue, whatever else waits in it: every one
      of them is judged again, and comes out as it was exactly when the rules of its batch uphold the
      verdict it had; of the others just those that waited change. */
  lemma ReparseChangesIff(db: Db, ids: set<nat>, after: seq<Row>, order: seq<nat>, batches: nat, env: nat -> Env)
    requires Inv(db) && Enabled(db, Requeue(ids))
    requires Drained(Requeued(db.rows, ids), after, order, batches, env)
    ensures |after| == |db.rows| && Elements(order) == PendingSet(db.rows) + ids
    ensures forall a | 0 <= a < |order| && order[a] in ids ::
              after[order[a]] == db.rows[order[a]] <==> Upholds(JudgeOf(env(a / BATCH)), db.rows[order[a]])
    ensures forall i: nat | i < |db.rows| && i !in ids ::
              after[i] == db.rows[i] <==> db.rows[i].status != Pending
  {
    hide Settled, OutcomeOf, JudgeOf, OldestFirst, Upholds, UpToDate;
    var was := Requeued(db.rows, ids);
    RequeueGrows(db.rows, ids);
    forall a | 0 <= a < |order| && order[a] in ids
      ensures after[order[a]] == db.rows[order[a]] <==> Upholds(JudgeOf(env(a / BATCH)), db.rows[order[a]])
    {
      var row := db.rows[order[a]];
      assert row in db.rows && was[order[a]] == row.(status := Pending);
      ResettledIff(row, JudgeOf(env(a / BATCH)));
    }
    forall i: nat | i < |db.rows| && i !in ids
      ensures after[i] == db.rows[i] <==> db.rows[i].status != Pending
    {
      if db.rows[i].status == Pending {
        assert i in PendingSet(was) && i !in PendingSet(after);
      } else {
        assert i !in PendingSet(was) && i !in Elements(order);
      }
    }
  }
}
