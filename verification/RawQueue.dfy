/** The queue of ingested documents: sources and raw rows (app/ingest/db_upsert.py), the admin's
    re-queue (app/api/admin.py) and the settling of rows by the worker's batches
    (app/workers/ingest_and_parse.py). */
module RawQueue {
  import opened Basics
  import opened Frontmatter
  import opened Sorting
  import opened WorkerGates

  datatype Source = Source(name: string, url: string)

  datatype Status = Pending | Processed | Failure

  /** What became of a document: a verdict, or an exception while parsing it. */
  datatype Outcome = Judged(v: Verdict) | Raised

  /** An outcome with the content it was reached from. */
  datatype Judgement = Judgement(content: string, outcome: Outcome)

  /** A queued document; `judgement` is its last one, whether or not it still stands. */
  datatype Row = Row(
    source: nat,
    externalId: string,
    sourceUrl: Option<string>,
    content: string,
    meta: RepoMeta,
    status: Status,
    judgement: Option<Judgement>,
    created: int)

  datatype Db = Db(sources: seq<Source>, rows: seq<Row>)

  /** What the worker makes of a URL, stored metadata and content. */
  type Judge = (string, RepoMeta, string) -> Outcome

  const NO_META := RepoMeta(None, None, None, None, None)

  // ---------------------------------------------------------------- sources

  function ByName(sources: seq<Source>, name: string): (i: nat)
    ensures i <= |sources| && (forall j | 0 <= j < i :: sources[j].name != name)
    ensures i < |sources| ==> sources[i].name == name
  {
    if sources == [] || sources[0].name == name then 0 else
      var i := 1 + ByName(sources[1..], name);
      assert forall j | 1 <= j < |sources| :: sources[j] == sources[1..][j - 1];
      i
  }

  function ByUrl(sources: seq<Source>, url: string): (i: nat)
    ensures i <= |sources| && (forall j | 0 <= j < i :: sources[j].url != url)
    ensures i < |sources| ==> sources[i].url == url
  {
    if sources == [] || sources[0].url == url then 0 else
      var i := 1 + ByUrl(sources[1..], url);
      assert forall j | 1 <= j < |sources| :: sources[j] == sources[1..][j - 1];
      i
  }

  /** The source an ingested document belongs to; the number of sources when it needs a new one. */
  function Resolve(sources: seq<Source>, name: string, url: string): (i: nat)
    ensures i <= |sources|
  {
    if ByName(sources, name) < |sources| then ByName(sources, name)
    else if url != "" then ByUrl(sources, url)
    else |sources|
  }

  /** The database accepts a new source only under a new URL. */
  predicate InsertFails(sources: seq<Source>, name: string, url: string) {
    Resolve(sources, name, url) == |sources| && ByUrl(sources, url) < |sources|
  }

  function Ensured(sources: seq<Source>, name: string, url: string): seq<Source> {
    if Resolve(sources, name, url) < |sources| then sources else sources + [Source(name, url)]
  }

  predicate DistinctUrls(sources: seq<Source>) {
    forall i, j | 0 <= i < j < |sources| :: sources[i].url != sources[j].url
  }

  /** A new source clashes with an old one exactly when it has no URL, a name nobody has, and some
      other source has no URL either. */
  lemma InsertFailsIff(sources: seq<Source>, name: string, url: string)
    ensures InsertFails(sources, name, url) <==>
            && url == "" && (forall s | s in sources :: s.name != name) && (exists s | s in sources :: s.url == "")
  {
    if url == "" && (forall s | s in sources :: s.name != name) && (exists s | s in sources :: s.url == "") {
      var s :| s in sources && s.url == "";
      var j :| 0 <= j < |sources| && sources[j] == s;
    }
    if InsertFails(sources, name, url) {
      assert sources[ByUrl(sources, url)] in sources;
    }
  }

  /** Such a source: the second one without a URL. */
  lemma SecondNamelessSource()
    ensures InsertFails([Source("a", "")], "b", "")
  {
    InsertFailsIff([Source("a", "")], "b", "");
    assert Source("a", "") in [Source("a", "")];
  }

  lemma EnsureKeepsSources(sources: seq<Source>, name: string, url: string)
    requires DistinctUrls(sources) && !InsertFails(sources, name, url)
    ensures var i, after := Resolve(sources, name, url), Ensured(sources, name, url);
            && DistinctUrls(after) && i < |after| && sources <= after
            && (after[i].name == name || (url != "" && after[i].url == url))
            && Ensured(after, name, url) == after && Resolve(after, name, url) == i
  {
    var after := Ensured(sources, name, url);
    assert forall j | 0 <= j < |sources| :: after[j] == sources[j];
    if Resolve(sources, name, url) == |sources| {
      assert after[|sources|] == Source(name, url) && after[|sources|].name == name;
      assert ByName(after, name) <= |sources|;
    }
  }

  /** A source added later never takes over a name that some source bears. */
  lemma NameIsSettled(sources: seq<Source>, name: string, url: string, otherName: string, otherUrl: string)
    requires ByName(sources, name) < |sources|
    ensures var after := Ensured(sources, otherName, otherUrl);
            ByName(after, name) < |after| && Resolve(after, name, url) == Resolve(sources, name, url)
  {
    var after := Ensured(sources, otherName, otherUrl);
    assert forall j | 0 <= j < |sources| :: after[j] == sources[j];
    assert ByName(after, name) <= ByName(sources, name);
  }

  /** The sources after any number of further lookups, those that fail included. */
  function Grown(sources: seq<Source>, more: seq<Source>): seq<Source> {
    if more == [] then sources
    else
      var before, m := Grown(sources, more[..|more| - 1]), more[|more| - 1];
      if InsertFails(before, m.name, m.url) then before else Ensured(before, m.name, m.url)
  }

  lemma {:induction false} NameStaysSettled(sources: seq<Source>, more: seq<Source>, name: string, url: string)
    requires ByName(sources, name) < |sources|
    ensures var after := Grown(sources, more);
            ByName(after, name) < |after| && Resolve(after, name, url) == Resolve(sources, name, url)
  {
    if more == [] {
    } else {
      var m := more[|more| - 1];
      NameStaysSettled(sources, more[..|more| - 1], name, url);
      NameIsSettled(Grown(sources, more[..|more| - 1]), name, url, m.name, m.url);
    }
  }

  /** A name no source bears, found by its URL, moves to the next source that comes in under it with a
      URL of its own. */
  lemma UnsettledNameMoves(sources: seq<Source>, name: string, url: string, unused: string)
    requires ByName(sources, name) == |sources| && url != "" && ByUrl(sources, url) < |sources|
    requires unused != "" && ByUrl(sources, unused) == |sources|
    ensures !InsertFails(sources, name, unused)
    ensures Resolve(sources, name, url) < |sources| == Resolve(Ensured(sources, name, unused), name, url)
  {
    var after := Ensured(sources, name, unused);
    assert after[|sources|] == Source(name, unused);
    assert forall j | 0 <= j < |sources| :: after[j] == sources[j];
    assert ByName(after, name) <= |sources|;
  }

  function LongestUrl(sources: seq<Source>): nat {
    if sources == [] then 0
    else
      var rest := LongestUrl(sources[1..]);
      if |sources[0].url| > rest then |sources[0].url| else rest
  }

  lemma {:induction false} NoneIsLonger(sources: seq<Source>, s: Source)
    requires s in sources
    ensures |s.url| <= LongestUrl(sources)
  {
    if s == sources[0] {
    } else {
      NoneIsLonger(sources[1..], s);
    }
  }

  /** There is always another URL. */
  lemma UnusedUrl(sources: seq<Source>) returns (unused: string)
    ensures unused != "" && ByUrl(sources, unused) == |sources|
  {
    unused := seq(LongestUrl(sources) + 1, _ => 'x');
    var i := ByUrl(sources, unused);
    if i < |sources| {
      NoneIsLonger(sources, sources[i]);
      assert false;
    }
  }

  /** The document's source never changes, whatever sources are looked up in between. */
  ghost predicate NeverMoves(sources: seq<Source>, name: string, url: string) {
    forall more :: Resolve(Grown(sources, more), name, url) == Resolve(sources, name, url)
  }

  /** A name that resolves never moves exactly when some source bears it. */
  lemma NeverMovesIff(sources: seq<Source>, name: string, url: string)
    requires Resolve(sources, name, url) < |sources|
    ensures NeverMoves(sources, name, url) <==> ByName(sources, name) < |sources|
  {
    if ByName(sources, name) < |sources| {
      forall more ensures Resolve(Grown(sources, more), name, url) == Resolve(sources, name, url) {
        NameStaysSettled(sources, more, name, url);
      }
    } else {
      var unused := UnusedUrl(sources);
      UnsettledNameMoves(sources, name, url, unused);
      var more := [Source(name, unused)];
      assert more[..0] == [] && Grown(sources, more) == Ensured(sources, name, unused);
    }
  }

  // ---------------------------------------------------------------- upserting rows

  function RowAt(rows: seq<Row>, source: nat, externalId: string): (i: nat)
    ensures i <= |rows| && (forall j | 0 <= j < i :: rows[j].source != source || rows[j].externalId != externalId)
    ensures i < |rows| ==> rows[i].source == source && rows[i].externalId == externalId
  {
    if rows == [] || (rows[0].source == source && rows[0].externalId == externalId) then 0 else
      var i := 1 + RowAt(rows[1..], source, externalId);
      assert forall j | 1 <= j < |rows| :: rows[j] == rows[1..][j - 1];
      i
  }

  datatype Ingested = Ingested(
      sourceName: string, externalId: string, content: string, url: Option<string>, meta: Option<RepoMeta>)

  function UrlText(url: Option<string>): string { if url.Some? then url.value else "" }

  /** Changed content sends a row back to the queue; unchanged content changes nothing. */
  function Updated(row: Row, item: Ingested): Row {
    if row.content == item.content then row
    else row.(content := item.content, status := Pending, meta := if item.meta.Some? then item.meta.value else row.meta)
  }

  function NewRow(source: nat, item: Ingested, now: int): Row {
    var meta := if item.meta.Some? then item.meta.value else NO_META;
    Row(source, item.externalId, item.url, item.content, meta, Pending, None, now)
  }

  function Upserted(db: Db, item: Ingested, now: int): Db {
    if InsertFails(db.sources, item.sourceName, UrlText(item.url)) then db
    else
      var source := Resolve(db.sources, item.sourceName, UrlText(item.url));
      var i := RowAt(db.rows, source, item.externalId);
      Db(Ensured(db.sources, item.sourceName, UrlText(item.url)),
         if i < |db.rows| then db.rows[i := Updated(db.rows[i], item)] else db.rows + [NewRow(source, item, now)])
  }

  // ---------------------------------------------------------------- batches

  const BATCH := 2000

  function PendingSet(rows: seq<Row>): set<nat> { set i: nat | i < |rows| && rows[i].status == Pending }

  /** The oldest pending rows, at most a batch of them, oldest first; rows of the same age in any order. */
  predicate IsOldestBatch(rows: seq<Row>, batch: seq<nat>) {
    && Distinct(batch) && (forall k | 0 <= k < |batch| :: batch[k] in PendingSet(rows))
    && |batch| == Min(BATCH, |PendingSet(rows)|)
    && (forall a, b | 0 <= a < b < |batch| :: rows[batch[a]].created <= rows[batch[b]].created)
    && (forall i, j | i in batch && j in PendingSet(rows) && j !in batch :: rows[i].created <= rows[j].created)
  }

  function OutcomeOf(row: Row, judge: Judge): Outcome { judge(UrlText(row.sourceUrl), row.meta, row.content) }

  predicate Errored(o: Outcome) { o.Raised? || Failed(o.v) }

  /** A row with an outcome: an exception leaves no verdict behind, only the status. */
  function Settled(row: Row, o: Outcome): Row {
    row.(status := if Errored(o) then Failure else Processed, judgement := Some(Judgement(row.content, o)))
  }

  function AfterBatch(rows: seq<Row>, batch: seq<nat>, judge: Judge): seq<Row> {
    seq(|rows|,
        i requires 0 <= i < |rows| => if i in batch then Settled(rows[i], OutcomeOf(rows[i], judge)) else rows[i])
  }

  predicate InRange(rows: seq<Row>, batch: seq<nat>) { forall k | 0 <= k < |batch| :: batch[k] < |rows| }

  /** The rows of a batch that end in an error. */
  function ErrorsIn(rows: seq<Row>, batch: seq<nat>, judge: Judge): nat
    requires InRange(rows, batch)
  {
    if batch == [] then 0
    else
      var n := |batch| - 1;
      ErrorsIn(rows, batch[..n], judge) + if Errored(OutcomeOf(rows[batch[n]], judge)) then 1 else 0
  }

  lemma {:induction false} ErrorsAreFew(rows: seq<Row>, batch: seq<nat>, judge: Judge)
    requires InRange(rows, batch)
    ensures ErrorsIn(rows, batch, judge) <= |batch|
  {
    if batch == [] {
    } else {
      ErrorsAreFew(rows, batch[..|batch| - 1], judge);
    }
  }

  /** A batch settles its rows and no others, so the queue shrinks by exactly the batch. */
  lemma BatchDrains(rows: seq<Row>, batch: seq<nat>, judge: Judge)
    requires IsOldestBatch(rows, batch)
    ensures PendingSet(AfterBatch(rows, batch, judge)) == PendingSet(rows) - Elements(batch)
    ensures |PendingSet(AfterBatch(rows, batch, judge))| == |PendingSet(rows)| - Min(BATCH, |PendingSet(rows)|)
  {
    DistinctCount(batch);
    assert Elements(batch) <= PendingSet(rows);
  }

  // ---------------------------------------------------------------- runs

  datatype Event =
    | Upsert(item: Ingested, now: int)
    | Requeue(ids: set<nat>)
    | Batch(batch: seq<nat>, judge: Judge)

  /** Re-queued rows, of the processed ones. */
  function Requeued(rows: seq<Row>, ids: set<nat>): seq<Row> {
    seq(|rows|, i requires 0 <= i < |rows| => if i in ids then rows[i].(status := Pending) else rows[i])
  }

  predicate Enabled(db: Db, e: Event) {
    match e
    case Upsert(_, _) => true
    case Requeue(ids) => forall i | i in ids :: i < |db.rows| && db.rows[i].status == Processed
    case Batch(batch, _) => IsOldestBatch(db.rows, batch)
  }

  function Step(db: Db, e: Event): Db {
    match e
    case Upsert(item, now) => Upserted(db, item, now)
    case Requeue(ids) => db.(rows := Requeued(db.rows, ids))
    case Batch(batch, judge) => db.(rows := AfterBatch(db.rows, batch, judge))
  }

  function Run(db: Db, run: seq<Event>): Db {
    if run == [] then db else Step(Run(db, run[..|run| - 1]), run[|run| - 1])
  }

  predicate Legal(db: Db, run: seq<Event>) {
    run == [] || (Legal(db, run[..|run| - 1]) && Enabled(Run(db, run[..|run| - 1]), run[|run| - 1]))
  }

  /** The verdict of a row that is not queued was reached from the content it now has, and says what
      its status says. */
  predicate UpToDate(row: Row) {
    row.status != Pending ==>
      && row.judgement.Some? && row.judgement.value.content == row.content
      && (row.status == Failure <==> Errored(row.judgement.value.outcome))
  }

  predicate SameKey(a: Row, b: Row) { a.source == b.source && a.externalId == b.externalId }

  predicate DistinctKeys(rows: seq<Row>) { forall i, j | 0 <= i < j < |rows| :: !SameKey(rows[i], rows[j]) }

  predicate Inv(db: Db) {
    DistinctUrls(db.sources) && DistinctKeys(db.rows) && forall row | row in db.rows :: UpToDate(row)
  }

  lemma UpsertKeepsInv(db: Db, item: Ingested, now: int)
    requires Inv(db)
    ensures Inv(Upserted(db, item, now))
  {
    if !InsertFails(db.sources, item.sourceName, UrlText(item.url)) {
      EnsureKeepsSources(db.sources, item.sourceName, UrlText(item.url));
      var rows, after := db.rows, Upserted(db, item, now).rows;
      var i := RowAt(rows, Resolve(db.sources, item.sourceName, UrlText(item.url)), item.externalId);
      forall j | 0 <= j < |after| ensures UpToDate(after[j]) {
        if j < |rows| { assert rows[j] in rows; }
      }
      assert forall j | 0 <= j < |rows| :: SameKey(after[j], rows[j]);
    }
  }

  /** Ingestion judges nothing: rows keep the judgement they have, and a new one has none. */
  lemma UpsertKeepsJudgements(db: Db, item: Ingested, now: int)
    ensures var rows, after := db.rows, Upserted(db, item, now).rows;
            && |rows| <= |after| <= |rows| + 1
            && (forall i | 0 <= i < |rows| ::
                 after[i].judgement == rows[i].judgement && after[i].sourceUrl == rows[i].sourceUrl)
            && (forall i | |rows| <= i < |after| :: after[i].judgement == None)
  {
  }

  lemma BatchKeepsInv(db: Db, batch: seq<nat>, judge: Judge)
    requires Inv(db) && IsOldestBatch(db.rows, batch)
    ensures Inv(db.(rows := AfterBatch(db.rows, batch, judge)))
  {
    var rows, after := db.rows, AfterBatch(db.rows, batch, judge);
    forall j | 0 <= j < |after| ensures UpToDate(after[j]) && SameKey(after[j], rows[j]) {
      assert rows[j] in rows;
    }
  }

  lemma RequeueKeepsInv(db: Db, ids: set<nat>)
    requires Inv(db)
    ensures Inv(db.(rows := Requeued(db.rows, ids)))
  {
    var rows, after := db.rows, Requeued(db.rows, ids);
    forall j | 0 <= j < |after| ensures UpToDate(after[j]) && SameKey(after[j], rows[j]) {
      assert rows[j] in rows;
    }
  }

  lemma StepKeepsInv(db: Db, e: Event)
    requires Inv(db) && Enabled(db, e)
    ensures Inv(Step(db, e))
  {
    match e
    case Upsert(item, now) => UpsertKeepsInv(db, item, now);
    case Requeue(ids) => RequeueKeepsInv(db, ids);
    case Batch(batch, judge) => BatchKeepsInv(db, batch, judge);
  }

  /** No verdict is ever stale, no key is ever doubled and no source URL is, in any run of upserts,
      re-queues and batches. */
  lemma {:induction false} NeverAStaleVerdict(db: Db, run: seq<Event>)
    requires Inv(db) && Legal(db, run)
    ensures Inv(Run(db, run))
  {
    if run == [] {
    } else {
      NeverAStaleVerdict(db, run[..|run| - 1]);
      StepKeepsInv(Run(db, run[..|run| - 1]), run[|run| - 1]);
    }
  }

  /** Ingesting again what is there already changes the database exactly when the content changed. */
  lemma ReingestIffChanged(db: Db, item: Ingested, now: int)
    requires Inv(db)
    requires !InsertFails(db.sources, item.sourceName, UrlText(item.url))
    requires Resolve(db.sources, item.sourceName, UrlText(item.url)) < |db.sources|
    requires RowAt(db.rows, Resolve(db.sources, item.sourceName, UrlText(item.url)), item.externalId) < |db.rows|
    ensures var row :=
            db.rows[RowAt(db.rows, Resolve(db.sources, item.sourceName, UrlText(item.url)), item.externalId)];
            Upserted(db, item, now) == db <==> row.content == item.content
  {
    var i := RowAt(db.rows, Resolve(db.sources, item.sourceName, UrlText(item.url)), item.externalId);
    assert Upserted(db, item, now).rows[i] == Updated(db.rows[i], item);
  }

  /** A document ingested twice in a row leaves one row, queued or not as it was after the first time. */
  lemma ReingestIsIdempotent(db: Db, item: Ingested, now: int, later: int)
    requires Inv(db)
    ensures var once := Upserted(db, item, now); Upserted(once, item, later) == once
  {
    var url := UrlText(item.url);
    if !InsertFails(db.sources, item.sourceName, url) {
      EnsureKeepsSources(db.sources, item.sourceName, url);
      var source, once := Resolve(db.sources, item.sourceName, url), Upserted(db, item, now);
      var i := RowAt(db.rows, source, item.externalId);
      UpsertKeepsInv(db, item, now);
      assert once.rows[i].source == source && once.rows[i].externalId == item.externalId;
      assert RowAt(once.rows, source, item.externalId) == i;
      assert once.rows[i := once.rows[i]] == once.rows;
    }
  }

  /** Re-queued rows join the queue, the others stay as they are. */
  lemma RequeueGrows(rows: seq<Row>, ids: set<nat>)
    requires forall i | i in ids :: i < |rows| && rows[i].status == Processed
    ensures var after := Requeued(rows, ids);
            && PendingSet(after) == PendingSet(rows) + ids && PendingSet(rows) !! ids
            && |PendingSet(after)| == |PendingSet(rows)| + |ids|
            && forall i: nat | i < |rows| && i !in ids :: after[i] == rows[i]
  {
    var after := Requeued(rows, ids);
    assert PendingSet(after) == PendingSet(rows) + ids;
    assert |PendingSet(rows) + ids| == |PendingSet(rows)| + |ids|;
  }

  // ---------------------------------------------------------------- the table in place

  class RawTable {
    var sources: seq<Source>
    var rows: seq<Row>

    ghost function Contents(): Db
      reads this
    {
      Db(sources, rows)
    }

    constructor ()
      ensures Contents() == Db([], []) && Inv(Contents())
    {
      sources, rows := [], [];
    }

    method EnsureSource(name: string, url: string) returns (id: Option<nat>)
      modifies this`sources
      ensures id.None? <==> InsertFails(old(sources), name, url)
      ensures id.Some? ==> id.value == Resolve(old(sources), name, url) && sources == Ensured(old(sources), name, url)
      ensures id.None? ==> sources == old(sources)
    {
      var source := ByName(sources, name);
      if source == |sources| && url != "" {
        source := ByUrl(sources, url);
      }
      if source == |sources| {
        if ByUrl(sources, url) < |sources| {
          return None;
        }
        sources := sources + [Source(name, url)];
      }
      id := Some(source);
    }

    method UpsertRawSkill(item: Ingested, now: int) returns (ok: bool)
      modifies this
      ensures Contents() == Upserted(old(Contents()), item, now)
      ensures ok <==> !InsertFails(old(sources), item.sourceName, UrlText(item.url))
    {
      var source := EnsureSource(item.sourceName, UrlText(item.url));
      if source.None? {
        return false;
      }
      var i := RowAt(rows, source.value, item.externalId);
      if i < |rows| {
        var raw := rows[i];
        if raw.content != item.content {
          raw := raw.(content := item.content, status := Pending);
          if item.meta.Some? {
            raw := raw.(meta := item.meta.value);
          }
        }
        rows := rows[i := raw];
      } else {
        rows := rows + [NewRow(source.value, item, now)];
      }
      ok := true;
    }

    /** The admin's re-queue of the rows a query selected: they join the queue, nothing else changes. */
    method Reparse(ids: set<nat>) returns (updated: nat)
      requires Enabled(Contents(), Requeue(ids))
      modifies this`rows
      ensures Contents() == Step(old(Contents()), Requeue(ids)) && updated == |ids|
      ensures PendingSet(rows) == PendingSet(old(rows)) + ids && |PendingSet(rows)| == |PendingSet(old(rows))| + updated
      ensures |rows| == |old(rows)| && forall i: nat | i < |rows| && i !in ids :: rows[i] == old(rows)[i]
      ensures forall i | i in ids :: rows[i] == old(rows)[i].(status := Pending)
      ensures Inv(old(Contents())) ==> Inv(Contents())
    {
      updated := |ids|;
      RequeueGrows(rows, ids);
      if Inv(Contents()) { RequeueKeepsInv(Contents(), ids); }
      rows := Requeued(rows, ids);
    }
  }
}
