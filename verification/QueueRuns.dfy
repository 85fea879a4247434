/** One queued row under any number of batches, upserts and re-queues whose statements interleave, as in
    QueueRace: a batch loads, flushes and commits or rolls back; an upsert reads and writes; a re-queue
    selects and updates (app/workers/ingest_and_parse.py, app/ingest/db_upsert.py, app/api/admin.py). */
module QueueRuns {
  import opened Basics
  import opened QueueRace
  import opened RawQueue

  /** A batch that holds the row, and since when. */
  datatype Holding = Idle | Holds(content: string, loadedAt: nat, flushed: bool)

  /** An upsert under way: what it will write, what it found, and when. */
  datatype Upserting = Upserting(content: string, found: Record, readAt: nat, ended: bool)

  /** The last batch that settled the row. */
  datatype Settlement = Settlement(content: string, loadedAt: nat, committedAt: nat)

  /** The last upsert that changed the content. */
  datatype Writing = Writing(content: string, readAt: nat, writtenAt: nat)

  /** The clock counts statements; `selected` counts the re-queues that have picked the row; `queued` is
      when the row was last put back in the queue, by a re-queue or by an upsert that had found it settled. */
  datatype Course = Course(
    clock: nat,
    row: Record,
    holding: Holding,
    upserts: seq<Upserting>,
    selected: nat,
    settled: Option<Settlement>,
    written: Option<Writing>,
    queued: Option<nat>)

  datatype Statement =
    | LoadRow
    | FlushRow
    | CommitBatch(errored: bool)
    | RollBack
    | BeginUpsert(content: string)
    | WriteUpsert(id: nat)
    | SelectRow
    | UpdateRow

  /** A flushed row is locked until its batch ends. */
  predicate Free(s: Course) { s.holding.Holds? ==> !s.holding.flushed }

  predicate CanRun(s: Course, e: Statement) {
    match e
    case LoadRow => s.holding.Idle? && s.row.status == Pending
    case FlushRow => s.holding.Holds? && !s.holding.flushed
    case CommitBatch(_) => s.holding.Holds? && s.holding.flushed
    case RollBack => s.holding.Holds?
    case BeginUpsert(_) => true
    case WriteUpsert(id) => id < |s.upserts| && !s.upserts[id].ended && Free(s)
    case SelectRow => s.row.status == Processed
    case UpdateRow => s.selected > 0 && Free(s)
  }

  function AfterWrite(s: Course, u: Upserting): Course {
    if u.found.content == u.content then s
    else
      s.(row := WrittenRow(s.row, u.found, u.content), written := Some(Writing(u.content, u.readAt, s.clock)),
         queued := if u.found.status == Pending then s.queued else Some(s.clock))
  }

  function Effect(s: Course, e: Statement): Course
    requires CanRun(s, e)
  {
    match e
    case LoadRow => s.(holding := Holds(s.row.content, s.clock, false))
    case FlushRow => s.(holding := s.holding.(flushed := true))
    case CommitBatch(errored) =>
      s.(row := Record(s.row.content, if errored then Failure else Processed, s.holding.content),
         settled := Some(Settlement(s.holding.content, s.holding.loadedAt, s.clock)), holding := Idle)
    case RollBack => s.(holding := Idle)
    case BeginUpsert(content) => s.(upserts := s.upserts + [Upserting(content, s.row, s.clock, false)])
    case WriteUpsert(id) =>
      var u := s.upserts[id];
      AfterWrite(s, u).(upserts := s.upserts[id := u.(ended := true)])
    case SelectRow => s.(selected := s.selected + 1)
    case UpdateRow => s.(row := s.row.(status := Pending), selected := s.selected - 1, queued := Some(s.clock))
  }

  function Next(s: Course, e: Statement): Course
    requires CanRun(s, e)
  {
    Effect(s, e).(clock := s.clock + 1)
  }

  function Start(row: Record): Course { Course(0, row, Idle, [], 0, None, None, None) }

  /** Statements that cannot run are not there. */
  function Run(row: Record, run: seq<Statement>): Course {
    if run == [] then Start(row)
    else
      var s := Run(row, run[..|run| - 1]);
      if CanRun(s, run[|run| - 1]) then Next(s, run[|run| - 1]) else s
  }

  // ---------------------------------------------------------------- when a verdict is stale

  /** The last write fell into the time of the last batch: it was written after the batch loaded the
      row, and had read the row before the batch committed. */
  predicate LastPairOverlapped(b: Settlement, w: Writing) { w.writtenAt > b.loadedAt && w.readAt < b.committedAt }

  /** Writes come from upserts, and times are in the past. */
  predicate Timed(s: Course) {
    && (s.written.Some? ==>
          var w := s.written.value; w.readAt < w.writtenAt < s.clock && s.row.content == w.content)
    && (s.settled.Some? ==>
          var b := s.settled.value; b.loadedAt < b.committedAt < s.clock && s.row.judged == b.content)
    && (s.queued.Some? ==> s.queued.value < s.clock)
    && (s.holding.Holds? ==> s.holding.loadedAt < s.clock)
    && (forall u | u in s.upserts :: u.readAt < s.clock)
  }

  predicate WrittenSince(s: Course, time: nat) { s.written.Some? && s.written.value.writtenAt > time }

  /** What a batch loaded is still there, unless it was written over. */
  predicate Kept(s: Course) {
    && (s.holding.Holds? && !WrittenSince(s, s.holding.loadedAt) ==> s.row.content == s.holding.content)
    && (s.settled.Some? && !WrittenSince(s, s.settled.value.loadedAt) ==> s.row.content == s.settled.value.content)
    && (s.written.Some? ==>
          var t := s.written.value.writtenAt;
          && (s.holding.Holds? ==> t != s.holding.loadedAt)
          && (s.settled.Some? ==> t != s.settled.value.loadedAt && t != s.settled.value.committedAt))
  }

  predicate SettledBefore(s: Course, time: nat) { s.settled.Some? && time < s.settled.value.committedAt }

  /** While the row is settled, an upsert that read it since the last commit found it settled, and no
      such upsert has changed it. */
  predicate SettledSeen(s: Course) {
    s.row.status != Pending ==>
      && (forall u | u in s.upserts && !u.ended && !SettledBefore(s, u.readAt) :: u.found.status != Pending)
      && (s.written.Some? ==> SettledBefore(s, s.written.value.readAt))
      && (s.settled.None? ==> s.row.judged == s.row.content)
  }

  /** Nothing has put the row back in the queue since the last commit. */
  predicate NotQueuedSince(s: Course) { s.queued.Some? ==> SettledBefore(s, s.queued.value) }

  /** The status, from the history. */
  predicate StatusTold(s: Course) { s.settled.Some? ==> (s.row.status != Pending <==> NotQueuedSince(s)) }

  predicate CourseInv(s: Course) { Timed(s) && Kept(s) && SettledSeen(s) && StatusTold(s) }

  lemma WriteKeepsInv(s: Course, id: nat)
    requires CourseInv(s) && CanRun(s, WriteUpsert(id))
    ensures CourseInv(Next(s, WriteUpsert(id)))
  {
    var u := s.upserts[id];
    assert u in s.upserts;
    var t := Next(s, WriteUpsert(id));
    forall v | v in t.upserts ensures v == u.(ended := true) || v in s.upserts {
    }
  }

  lemma BeginKeepsInv(s: Course, content: string)
    requires CourseInv(s)
    ensures CourseInv(Next(s, BeginUpsert(content)))
  {
    var t := Next(s, BeginUpsert(content));
    forall v | v in t.upserts ensures v == Upserting(content, s.row, s.clock, false) || v in s.upserts {
    }
  }

  lemma NextKeepsInv(s: Course, e: Statement)
    requires CourseInv(s) && CanRun(s, e)
    ensures CourseInv(Next(s, e))
  {
    match e
    case WriteUpsert(id) => WriteKeepsInv(s, id);
    case BeginUpsert(content) => BeginKeepsInv(s, content);
    case _ =>
  }

  lemma {:induction false} RunKeepsInv(row: Record, run: seq<Statement>)
    requires !Stale(row)
    ensures CourseInv(Run(row, run))
  {
    if run == [] {
    } else {
      RunKeepsInv(row, run[..|run| - 1]);
      var s, e := Run(row, run[..|run| - 1]), run[|run| - 1];
      if CanRun(s, e) { NextKeepsInv(s, e); }
    }
  }

  /** In every run, at every moment, the row shows a stale verdict exactly when a batch has settled it,
      nothing has put it back in the queue since, and the last content written is not the one the batch
      judged. And only overlapping leaves that behind: the write had read the row before the batch
      committed, and came after the batch had loaded it. */
  lemma StaleIff(row: Record, run: seq<Statement>)
    requires !Stale(row)
    ensures var s := Run(row, run);
            && (Stale(s.row) <==>
                && s.settled.Some? && NotQueuedSince(s)
                && s.written.Some? && s.written.value.content != s.settled.value.content)
            && (Stale(s.row) ==> LastPairOverlapped(s.settled.value, s.written.value))
  {
    RunKeepsInv(row, run);
  }
}
