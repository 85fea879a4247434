/** One queued row under a batch and an upsert whose transactions interleave: the batch loads the row,
    flushes its outcome and commits at its end (app/workers/ingest_and_parse.py); the upsert reads the
    row and writes it (app/ingest/db_upsert.py). Reads see committed data, a flushed row is locked
    until the commit, and a transaction writes only the columns it changed. */
module QueueRace {
  import opened RawQueue

  /** The columns that matter; `judged` is the content of the verdict that is stored. */
  datatype Record = Record(content: string, status: Status, judged: string)

  datatype BatchPhase = NotLoaded | Loaded(content: string) | Flushed(content: string) | Committed

  datatype UpsertPhase = NotRead | Read(found: Record) | Written

  /** The history notes what had ended before the batch loaded and before the upsert read. */
  datatype State = State(
      row: Record, batch: BatchPhase, upsert: UpsertPhase, loadedAfterWrite: bool, readAfterCommit: bool)

  datatype Event = Load | Flush | Commit | ReadRow | Write

  predicate Enabled(s: State, e: Event) {
    match e
    case Load => s.batch.NotLoaded?
    case Flush => s.batch.Loaded?
    case Commit => s.batch.Flushed?
    case ReadRow => s.upsert.NotRead?
    case Write => s.upsert.Read? && !s.batch.Flushed?
  }

  /** The upsert's columns: a status that already read pending is not written again. */
  function WrittenRow(row: Record, found: Record, content: string): Record {
    if found.content == content then row
    else row.(content := content, status := if found.status == Pending then row.status else Pending)
  }

  function Step(s: State, e: Event, content: string): State
    requires Enabled(s, e)
  {
    match e
    case Load => s.(batch := Loaded(s.row.content), loadedAfterWrite := s.upsert.Written?)
    case Flush => s.(batch := Flushed(s.batch.content))
    case Commit => s.(batch := Committed, row := s.row.(status := Processed, judged := s.batch.content))
    case ReadRow => s.(upsert := Read(s.row), readAfterCommit := s.batch.Committed?)
    case Write => s.(upsert := Written, row := WrittenRow(s.row, s.upsert.found, content))
  }

  function Start(was: string): State { State(Record(was, Pending, ""), NotLoaded, NotRead, false, false) }

  function Run(was: string, content: string, run: seq<Event>): State {
    if run == [] then Start(was)
    else
      var s := Run(was, content, run[..|run| - 1]);
      if Enabled(s, run[|run| - 1]) then Step(s, run[|run| - 1], content) else s
  }

  predicate Finished(s: State) { s.batch.Committed? && s.upsert.Written? }

  predicate Stale(row: Record) { row.status != Pending && row.judged != row.content }

  /** Neither transaction had ended when the other looked at the row. */
  predicate Overlapped(s: State) { !s.loadedAfterWrite && !s.readAfterCommit }

  predicate Inv(s: State, was: string, content: string) {
    && s.row.content == (if s.upsert.Written? then content else was)
    && (s.loadedAfterWrite ==> s.upsert.Written?) && (s.readAfterCommit ==> s.batch.Committed?)
    && (s.batch.Loaded? || s.batch.Flushed? ==> s.batch.content == if s.loadedAfterWrite then content else was)
    && (s.batch.Committed? ==> s.row.judged == if s.loadedAfterWrite then content else was)
    && (s.upsert.Read? ==> s.upsert.found.content == was && (s.upsert.found.status == Pending <==> !s.readAfterCommit))
    && (s.row.status == Pending <==> !s.batch.Committed? || (s.upsert.Written? && s.readAfterCommit && content != was))
    && (s.batch.NotLoaded? ==> !s.loadedAfterWrite) && (s.upsert.NotRead? ==> !s.readAfterCommit)
    && !(s.loadedAfterWrite && s.readAfterCommit)
  }

  lemma StepKeepsInv(s: State, e: Event, was: string, content: string)
    requires Inv(s, was, content) && Enabled(s, e)
    ensures Inv(Step(s, e, content), was, content)
  {
  }

  lemma {:induction false} RunKeepsInv(was: string, content: string, run: seq<Event>)
    ensures Inv(Run(was, content, run), was, content)
  {
    if run == [] {
    } else {
      RunKeepsInv(was, content, run[..|run| - 1]);
      var s, e := Run(was, content, run[..|run| - 1]), run[|run| - 1];
      if Enabled(s, e) { StepKeepsInv(s, e, was, content); }
    }
  }

  /** A verdict is stale once both transactions have ended exactly when the content changed and they
      overlapped: serial batches and upserts never leave one behind, overlapping ones always do. */
  lemma StaleIffOverlapped(was: string, content: string, run: seq<Event>)
    requires Finished(Run(was, content, run))
    ensures Stale(Run(was, content, run).row) <==> content != was && Overlapped(Run(was, content, run))
  {
    RunKeepsInv(was, content, run);
  }

  lemma OneMore(was: string, content: string, run: seq<Event>, e: Event)
    requires Enabled(Run(was, content, run), e)
    ensures Run(was, content, run + [e]) == Step(Run(was, content, run), e, content)
  {
    assert (run + [e])[..|run|] == run;
  }

  /** Every upsert with other content can do it: it reads and writes while the batch works on the row. */
  lemma OverlapGoesStale(was: string, content: string)
    requires content != was
    ensures var s := Run(was, content, [Load, ReadRow, Write, Flush, Commit]); Finished(s) && Stale(s.row)
  {
    OneMore(was, content, [], Load);
    OneMore(was, content, [] + [Load], ReadRow);
    OneMore(was, content, [] + [Load] + [ReadRow], Write);
    OneMore(was, content, [] + [Load] + [ReadRow] + [Write], Flush);
    OneMore(was, content, [] + [Load] + [ReadRow] + [Write] + [Flush], Commit);
    assert [Load, ReadRow, Write, Flush, Commit] == [] + [Load] + [ReadRow] + [Write] + [Flush] + [Commit];
  }
}
