/** The event log and its popularity counters: `track_event` of app/api/events.py.

    `Track` is one call run alone.  The transition system cuts the call into the steps of
    its database transaction, interleaves any number of them, and serialises them by nothing
    but the advisory lock.  The main result is that every interleaving commits exactly what
    running the committed calls one after the other would have produced. */
module Events {
  import opened Basics

  /** Times are in microseconds. */
  const VIEW_DEDUPE_WINDOW := 10_000_000

  const TWO_63: int := 0x8000_0000_0000_0000
  const TWO_64: int := 0x1_0000_0000_0000_0000

  /** A UUID, as its 128-bit integer. */
  type SkillId = n: nat | n < TWO_64 * TWO_64

  /** Exclusive or of the low `bits` bits. */
  function Xor(a: nat, b: nat, bits: nat): nat {
    if bits == 0 then 0
    else 2 * Xor(a / 2, b / 2, bits - 1) + if a % 2 != b % 2 then 1 else 0
  }

  function Folded(id: SkillId): nat { Xor(id / TWO_64, id % TWO_64, 64) }

  function AdvisoryLockKey(id: SkillId): int {
    if Folded(id) >= TWO_63 then Folded(id) - TWO_64 else Folded(id)
  }

  function Pow2(n: nat): nat { if n == 0 then 1 else 2 * Pow2(n - 1) }

  lemma Pow2Double(m: nat, n: nat)
    ensures Pow2(m + n) == Pow2(m) * Pow2(n)
  {
    if m == 0 {
    } else {
      Pow2Double(m - 1, n);
    }
  }

  lemma Pow2Of64()
    ensures Pow2(64) == TWO_64
  {
    assert Pow2(4) == 16;
    Pow2Double(4, 4);
    Pow2Double(8, 8);
    Pow2Double(16, 16);
    Pow2Double(32, 32);
  }

  lemma {:induction false} XorBelow(a: nat, b: nat, bits: nat)
    ensures Xor(a, b, bits) < Pow2(bits)
  {
    if bits == 0 {
    } else {
      XorBelow(a / 2, b / 2, bits - 1);
    }
  }

  /** The key fits a signed 64-bit integer and keeps the folded word apart: two skills share a lock
      exactly when their halves fold to the same word. */
  lemma LockKeyFold(a: SkillId, b: SkillId)
    ensures -TWO_63 <= AdvisoryLockKey(a) < TWO_63
    ensures AdvisoryLockKey(a) == AdvisoryLockKey(b) <==> Folded(a) == Folded(b)
  {
    Pow2Of64();
    XorBelow(a / TWO_64, a % TWO_64, 64);
    XorBelow(b / TWO_64, b % TWO_64, 64);
  }

  datatype Kind = View | Use | Favorite

  datatype Payload = Payload(kind: string, skill: SkillId, session: Option<string>)
  datatype Call = Call(kind: Kind, skill: SkillId, session: Option<string>)
  datatype Event = Event(skill: SkillId, kind: Kind, session: Option<string>, createdAt: int)
  datatype Counters = Counters(views: nat, uses: nat, favorites: nat, score: int)
  datatype Db = Db(log: seq<Event>, popularity: map<SkillId, Counters>)

  datatype Reply = BadRequest(detail: string) | Duplicate(event: nat) | Accepted(event: nat)

  const ZERO := Counters(0, 0, 0, 0)
  const EMPTY := Db([], map[])

  function KindNamed(name: string): Option<Kind> {
    if name == "view" then Some(View)
    else if name == "use" then Some(Use)
    else if name == "favorite" then Some(Favorite)
    else None
  }

  function Validate(path: string, p: Payload): Option<Call> {
    if p.kind != path || KindNamed(path).None? then None
    else Some(Call(KindNamed(path).value, p.skill, p.session))
  }

  predicate ShouldDedupe(c: Call) {
    c.session.Some? && c.session.value != "" && (c.kind == View || c.kind == Favorite)
  }

  predicate Duplicates(e: Event, c: Call, now: int) {
    && e.skill == c.skill && e.kind == c.kind && e.session == c.session
    && (c.kind == View ==> e.createdAt >= now - VIEW_DEDUPE_WINDOW)
  }

  /** The most recently created duplicate of a call in the log. */
  function FindDuplicate(log: seq<Event>, c: Call, now: int): (r: Option<nat>)
    ensures r.None? <==> forall i | 0 <= i < |log| :: !Duplicates(log[i], c, now)
    ensures r.Some? ==> r.value < |log| && Duplicates(log[r.value], c, now)
    ensures r.Some? ==> forall i | 0 <= i < |log| && Duplicates(log[i], c, now) ::
            log[i].createdAt <= log[r.value].createdAt
  {
    if log == [] then None
    else
      var last := |log| - 1;
      var r := FindDuplicate(log[..last], c, now);
      if Duplicates(log[last], c, now) && (r.None? || log[r.value].createdAt <= log[last].createdAt)
      then Some(last) else r
  }

  function Current(popularity: map<SkillId, Counters>, skill: SkillId): Counters {
    if skill in popularity then popularity[skill] else ZERO
  }

  function Rescored(c: Counters): Counters {
    c.(score := c.views + c.uses * 10 + c.favorites * 50)
  }

  function Bump(c: Counters, kind: Kind): Counters {
    Rescored(match kind
             case View => c.(views := c.views + 1)
             case Use => c.(uses := c.uses + 1)
             case Favorite => c.(favorites := c.favorites + 1))
  }

  function Committed(db: Db, c: Call, startedAt: int): Db {
    Db(db.log + [Event(c.skill, c.kind, c.session, startedAt)],
       db.popularity[c.skill := Bump(Current(db.popularity, c.skill), c.kind)])
  }

  predicate Counted(db: Db, c: Call, now: int) {
    ShouldDedupe(c) ==> FindDuplicate(db.log, c, now).None?
  }

  /** One whole call, run alone.  The event is stamped with the start of its transaction. */
  function Track(db: Db, path: string, p: Payload, startedAt: int, now: int): (Db, Reply) {
    if p.kind != path then (db, BadRequest("Path event type and payload event type do not match"))
    else if Validate(path, p).None? then (db, BadRequest("Unsupported event type"))
    else
      var c := Validate(path, p).value;
      if Counted(db, c, now) then (Committed(db, c, startedAt), Accepted(|db.log|))
      else (db, Duplicate(FindDuplicate(db.log, c, now).value))
  }

  // ---------------------------------------------------------------- the counters fold the log

  function Count(log: seq<Event>, skill: SkillId, kind: Kind): nat {
    if log == [] then 0
    else
      var e := log[|log| - 1];
      Count(log[..|log| - 1], skill, kind) + if e.skill == skill && e.kind == kind then 1 else 0
  }

  function Tally(log: seq<Event>, skill: SkillId): Counters {
    Rescored(Counters(Count(log, skill, View), Count(log, skill, Use), Count(log, skill, Favorite), 0))
  }

  ghost predicate CountersExact(db: Db) {
    forall skill :: ExactAt(db, skill)
  }

  predicate ExactAt(db: Db, skill: SkillId) {
    Current(db.popularity, skill) == Tally(db.log, skill)
  }

  lemma CommitKeepsExact(db: Db, c: Call, startedAt: int)
    requires CountersExact(db)
    ensures CountersExact(Committed(db, c, startedAt))
  {
    forall skill ensures ExactAt(Committed(db, c, startedAt), skill) {
      assert ExactAt(db, skill);
      CommitKeepsExactAt(db, c, startedAt, skill);
    }
  }

  lemma CommitKeepsExactAt(db: Db, c: Call, startedAt: int, skill: SkillId)
    requires ExactAt(db, skill)
    ensures ExactAt(Committed(db, c, startedAt), skill)
  {
    CommitCounts(db.log, Event(c.skill, c.kind, c.session, startedAt), skill);
  }

  lemma CommitCounts(log: seq<Event>, e: Event, skill: SkillId)
    ensures Tally(log + [e], skill) == if e.skill == skill then Bump(Tally(log, skill), e.kind) else Tally(log, skill)
  {
    assert (log + [e])[..|log|] == log;
  }

  // ---------------------------------------------------------------- interleaved transactions

  /** Waiting for the lock; then the statements of the call, in order; then closed, by commit,
      duplicate or rollback. */
  datatype Pc = Waiting | Locked | Checked | RowEnsured | RowRead | Bumped | Closed

  /** `inserted` is the transaction's own uncommitted zero row, `local` the row it read. */
  datatype Tx = Tx(call: Call, startedAt: int, pc: Pc, checkedAt: int, inserted: bool, local: Counters)

  datatype Done = Done(call: Call, startedAt: int, checkedAt: int)

  datatype State = State(db: Db, locks: map<int, nat>, txs: seq<Tx>, commits: seq<Done>)

  datatype Step =
    | Begin(call: Call, at: int)
    | Acquire(tx: nat)
    | Check(tx: nat, now: int)
    | EnsureRow(tx: nat)
    | ReadRow(tx: nat)
    | Increment(tx: nat)
    | Commit(tx: nat)
    | Abort(tx: nat)

  function LockOf(s: State, i: nat): int
    requires i < |s.txs|
  {
    AdvisoryLockKey(s.txs[i].call.skill)
  }

  predicate At(s: State, i: nat, pc: Pc) { i < |s.txs| && s.txs[i].pc == pc }

  predicate Enabled(s: State, step: Step) {
    match step
    case Begin(_, _) => true
    case Acquire(i) => At(s, i, Waiting) && LockOf(s, i) !in s.locks
    case Check(i, _) => At(s, i, Locked)
    case EnsureRow(i) => At(s, i, Checked)
    case ReadRow(i) => At(s, i, RowEnsured)
    case Increment(i) => At(s, i, RowRead)
    case Commit(i) => At(s, i, Bumped)
    case Abort(i) => i < |s.txs| && s.txs[i].pc != Closed
  }

  function Set(s: State, i: nat, tx: Tx): State
    requires i < |s.txs|
  {
    s.(txs := s.txs[i := tx])
  }

  /** The end of a transaction releases its lock, if it got it. */
  function Close(s: State, i: nat): State
    requires i < |s.txs|
  {
    var closed := Set(s, i, s.txs[i].(pc := Closed));
    if s.txs[i].pc == Waiting then closed else closed.(locks := s.locks - {LockOf(s, i)})
  }

  function Next(s: State, step: Step): State
    requires Enabled(s, step)
  {
    match step
    case Begin(call, at) => s.(txs := s.txs + [Tx(call, at, Waiting, at, false, ZERO)])
    case Acquire(i) => Set(s.(locks := s.locks[LockOf(s, i) := i]), i, s.txs[i].(pc := Locked))
    case Check(i, now) =>
      if Counted(s.db, s.txs[i].call, now) then Set(s, i, s.txs[i].(pc := Checked, checkedAt := now))
      else Close(s, i)
    case EnsureRow(i) =>
      Set(s, i, s.txs[i].(pc := RowEnsured, inserted := s.txs[i].call.skill !in s.db.popularity))
    case ReadRow(i) =>
      var skill := s.txs[i].call.skill;
      if skill in s.db.popularity || s.txs[i].inserted
      then Set(s, i, s.txs[i].(pc := RowRead, local := Current(s.db.popularity, skill)))
      else Close(s, i)
    case Increment(i) => Set(s, i, s.txs[i].(pc := Bumped, local := Bump(s.txs[i].local, s.txs[i].call.kind)))
    case Commit(i) =>
      var tx := s.txs[i];
      var db := Db(s.db.log + [Event(tx.call.skill, tx.call.kind, tx.call.session, tx.startedAt)],
                   s.db.popularity[tx.call.skill := tx.local]);
      Close(s.(db := db, commits := s.commits + [Done(tx.call, tx.startedAt, tx.checkedAt)]), i)
    case Abort(i) => Close(s, i)
  }

  const INIT := State(EMPTY, map[], [], [])

  predicate Legal(run: seq<Step>)
    decreases |run|, 0
  {
    run == [] || (Legal(run[..|run| - 1]) && Enabled(Run(run[..|run| - 1]), run[|run| - 1]))
  }

  function Run(run: seq<Step>): State
    requires Legal(run)
    decreases |run|, 1
  {
    if run == [] then INIT else Next(Run(run[..|run| - 1]), run[|run| - 1])
  }

  predicate Holding(pc: Pc) { pc != Waiting && pc != Closed }

  /** A lock is held by exactly the transactions between acquisition and close. */
  ghost predicate LocksExact(s: State) {
    && (forall i: nat | i < |s.txs| && Holding(s.txs[i].pc) :: LockOf(s, i) in s.locks && s.locks[LockOf(s, i)] == i)
    && (forall key | key in s.locks ::
          s.locks[key] < |s.txs| && Holding(s.txs[s.locks[key]].pc) && LockOf(s, s.locks[key]) == key)
  }

  /** What a transaction has seen is still true, for as long as it holds the lock. */
  predicate ViewStands(db: Db, tx: Tx) {
    var row := Current(db.popularity, tx.call.skill);
    match tx.pc
    case Waiting => true
    case Locked => true
    case Checked => Counted(db, tx.call, tx.checkedAt)
    case RowEnsured => Counted(db, tx.call, tx.checkedAt) && tx.inserted == (tx.call.skill !in db.popularity)
    case RowRead => Counted(db, tx.call, tx.checkedAt) && tx.local == row
    case Bumped => Counted(db, tx.call, tx.checkedAt) && tx.local == Bump(row, tx.call.kind)
    case Closed => true
  }

  // ---------------------------------------------------------------- serialisability

  function PathOf(kind: Kind): string {
    match kind case View => "view" case Use => "use" case Favorite => "favorite"
  }

  /** A finished call, run alone. */
  function Alone(db: Db, d: Done): (Db, Reply) {
    Track(db, PathOf(d.call.kind), Payload(PathOf(d.call.kind), d.call.skill, d.call.session), d.startedAt, d.checkedAt)
  }

  /** Finished calls, run alone one after the other. */
  function Replay(calls: seq<Done>): Db {
    if calls == [] then EMPTY else Alone(Replay(calls[..|calls| - 1]), calls[|calls| - 1]).0
  }

  /** None of the calls is turned away as a duplicate when they are run alone in this order. */
  predicate AllAccepted(calls: seq<Done>) {
    calls == [] ||
    (AllAccepted(calls[..|calls| - 1])
     && Alone(Replay(calls[..|calls| - 1]), calls[|calls| - 1]).1.Accepted?)
  }

  ghost predicate Inv(s: State) {
    && LocksExact(s)
    && (forall i | 0 <= i < |s.txs| :: ViewStands(s.db, s.txs[i]))
    && s.db == Replay(s.commits)
    && AllAccepted(s.commits)
  }

  /** Committing a call leaves what a transaction on another skill has seen untouched. */
  lemma OtherSkillStands(db: Db, c: Call, startedAt: int, tx: Tx)
    requires ViewStands(db, tx) && tx.call.skill != c.skill
    ensures ViewStands(Committed(db, c, startedAt), tx)
  {
    var next := Committed(db, c, startedAt);
    assert next.log[..|next.log| - 1] == db.log;
  }

  lemma SetKeepsLocks(s: State, i: nat, tx: Tx)
    requires LocksExact(s) && i < |s.txs| && tx.call == s.txs[i].call && (Holding(tx.pc) <==> Holding(s.txs[i].pc))
    ensures LocksExact(Set(s, i, tx))
  {
    var t := Set(s, i, tx);
    forall j: nat | j < |s.txs| ensures LockOf(t, j) == LockOf(s, j)
        && (Holding(t.txs[j].pc) <==> Holding(s.txs[j].pc)) {
    }
  }

  lemma CloseKeepsLocks(s: State, i: nat)
    requires LocksExact(s) && i < |s.txs| && s.txs[i].pc != Closed
    ensures LocksExact(Close(s, i))
  {
    var t := Close(s, i);
    forall j: nat | j < |s.txs| ensures LockOf(t, j) == LockOf(s, j) {
    }
    if s.txs[i].pc != Waiting { assert s.locks[LockOf(s, i)] == i; }
  }

  lemma AcquireKeepsLocks(s: State, i: nat)
    requires LocksExact(s) && Enabled(s, Acquire(i))
    ensures LocksExact(Next(s, Acquire(i)))
  {
    var t := Next(s, Acquire(i));
    forall j: nat | j < |s.txs| ensures LockOf(t, j) == LockOf(s, j) {
    }
  }

  lemma BeginKeepsLocks(s: State, call: Call, at: int)
    requires LocksExact(s)
    ensures LocksExact(Next(s, Begin(call, at)))
  {
    var t := Next(s, Begin(call, at));
    forall j: nat | j < |s.txs| ensures t.txs[j] == s.txs[j] && LockOf(t, j) == LockOf(s, j) {
    }
  }

  lemma NextKeepsLocks(s: State, step: Step)
    requires LocksExact(s) && Enabled(s, step)
    ensures LocksExact(Next(s, step))
  {
    match step
    case Begin(call, at) => BeginKeepsLocks(s, call, at);
    case Acquire(i) => AcquireKeepsLocks(s, i);
    case Check(i, now) =>
      SetKeepsLocks(s, i, s.txs[i].(pc := Checked, checkedAt := now));
      CloseKeepsLocks(s, i);
    case EnsureRow(i) =>
      SetKeepsLocks(s, i, s.txs[i].(pc := RowEnsured, inserted := s.txs[i].call.skill !in s.db.popularity));
    case ReadRow(i) =>
      SetKeepsLocks(s, i, s.txs[i].(pc := RowRead, local := Current(s.db.popularity, s.txs[i].call.skill)));
      CloseKeepsLocks(s, i);
    case Increment(i) =>
      SetKeepsLocks(s, i, s.txs[i].(pc := Bumped, local := Bump(s.txs[i].local, s.txs[i].call.kind)));
    case Commit(i) => CommitKeepsLocks(s, i);
    case Abort(i) => CloseKeepsLocks(s, i);
  }

  lemma CommitKeepsLocks(s: State, i: nat)
    requires LocksExact(s) && Enabled(s, Commit(i))
    ensures LocksExact(Next(s, Commit(i)))
  {
    CloseKeepsLocks(s, i);
    var t, closed := Next(s, Commit(i)), Close(s, i);
    assert t.txs == closed.txs && t.locks == closed.locks;
    forall j: nat | j < |t.txs| ensures LockOf(t, j) == LockOf(closed, j) {
    }
  }

  lemma CommitShape(s: State, i: nat)
    requires Enabled(s, Commit(i)) && ViewStands(s.db, s.txs[i])
    ensures var tx, t := s.txs[i], Next(s, Commit(i));
            && t.db == Committed(s.db, tx.call, tx.startedAt)
            && t.commits == s.commits + [Done(tx.call, tx.startedAt, tx.checkedAt)]
            && Counted(s.db, tx.call, tx.checkedAt)
  {
  }

  lemma CommitKeepsViews(s: State, i: nat)
    requires Inv(s) && Enabled(s, Commit(i))
    ensures forall j | 0 <= j < |s.txs| :: ViewStands(Next(s, Commit(i)).db, Next(s, Commit(i)).txs[j])
  {
    var c, at, t := s.txs[i].call, s.txs[i].startedAt, Next(s, Commit(i));
    assert ViewStands(s.db, s.txs[i]);
    CommitShape(s, i);
    forall j | 0 <= j < |s.txs| ensures ViewStands(t.db, t.txs[j]) {
      if j != i && Holding(s.txs[j].pc) {
        // Two holders of the same skill would hold the same lock.
        assert LockOf(s, j) != LockOf(s, i);
        OtherSkillStands(s.db, c, at, s.txs[j]);
      }
    }
  }

  /** A step that does not commit leaves the data alone and moves one transaction on. */
  lemma MoveKeepsView(s: State, step: Step, i: nat)
    requires Inv(s) && Enabled(s, step) && !step.Commit? && i < |Next(s, step).txs|
    ensures ViewStands(Next(s, step).db, Next(s, step).txs[i])
  {
    assert Next(s, step).db == s.db;
    if i < |s.txs| { assert ViewStands(s.db, s.txs[i]); }
  }

  lemma NextKeepsViews(s: State, step: Step)
    requires Inv(s) && Enabled(s, step)
    ensures forall i | 0 <= i < |Next(s, step).txs| :: ViewStands(Next(s, step).db, Next(s, step).txs[i])
  {
    if step.Commit? {
      CommitKeepsViews(s, step.tx);
    } else {
      forall i | 0 <= i < |Next(s, step).txs| ensures ViewStands(Next(s, step).db, Next(s, step).txs[i]) {
        MoveKeepsView(s, step, i);
      }
    }
  }

  lemma AloneCommits(db: Db, d: Done)
    requires Counted(db, d.call, d.checkedAt)
    ensures Alone(db, d) == (Committed(db, d.call, d.startedAt), Accepted(|db.log|))
  {
  }

  lemma ReplayOneMore(calls: seq<Done>, d: Done)
    ensures Replay(calls + [d]) == Alone(Replay(calls), d).0
    ensures AllAccepted(calls + [d]) <==> AllAccepted(calls) && Alone(Replay(calls), d).1.Accepted?
  {
    assert (calls + [d])[..|calls|] == calls;
  }

  lemma CommitIsSerial(s: State, i: nat)
    requires Inv(s) && Enabled(s, Commit(i))
    ensures var t := Next(s, Commit(i)); t.db == Replay(t.commits) && AllAccepted(t.commits)
  {
    var tx := s.txs[i];
    var d := Done(tx.call, tx.startedAt, tx.checkedAt);
    assert ViewStands(s.db, tx);
    CommitShape(s, i);
    AloneCommits(s.db, d);
    ReplayOneMore(s.commits, d);
  }

  lemma {:induction false} RunKeepsInv(run: seq<Step>)
    requires Legal(run)
    ensures Inv(Run(run))
  {
    if run == [] {
    } else {
      var pre, step := run[..|run| - 1], run[|run| - 1];
      RunKeepsInv(pre);
      NextKeepsInv(Run(pre), step);
    }
  }

  lemma NextKeepsInv(s: State, step: Step)
    requires Inv(s) && Enabled(s, step)
    ensures Inv(Next(s, step))
  {
    NextKeepsLocks(s, step);
    NextKeepsViews(s, step);
    if step.Commit? { CommitIsSerial(s, step.tx); }
  }

  /** Serialisability: whatever the interleaving, the committed state is the one the committed
      calls produce when run alone in commit order, and run alone none of them is a duplicate. */
  lemma Serialisable(run: seq<Step>)
    requires Legal(run)
    ensures Run(run).db == Replay(Run(run).commits) && AllAccepted(Run(run).commits)
  {
    RunKeepsInv(run);
  }

  /** The row of the skill is there whenever a transaction reads it: the 500 of the source is dead code. */
  lemma RowNeverMissing(run: seq<Step>, i: nat)
    requires Legal(run) && Enabled(Run(run), ReadRow(i))
    ensures At(Next(Run(run), ReadRow(i)), i, RowRead)
  {
    RunKeepsInv(run);
    assert ViewStands(Run(run).db, Run(run).txs[i]);
  }

  /** The event a finished call leaves. */
  function EventOf(d: Done): Event { Event(d.call.skill, d.call.kind, d.call.session, d.startedAt) }

  lemma AcceptedAlone(db: Db, d: Done)
    requires Alone(db, d).1.Accepted?
    ensures Alone(db, d).0 == Committed(db, d.call, d.startedAt)
    ensures Alone(db, d).0.log == db.log + [EventOf(d)]
  {
  }

  /** The log of a replay records its calls, one for one. */
  lemma {:induction false} ReplayLog(calls: seq<Done>)
    requires AllAccepted(calls)
    ensures CountersExact(Replay(calls))
    ensures |Replay(calls).log| == |calls|
    ensures forall i | 0 <= i < |calls| :: Replay(calls).log[i] == EventOf(calls[i])
  {
    if calls == [] {
    } else {
      var pre, d := calls[..|calls| - 1], calls[|calls| - 1];
      ReplayLog(pre);
      AcceptedAlone(Replay(pre), d);
      CommitKeepsExact(Replay(pre), d.call, d.startedAt);
    }
  }

  lemma InvCounts(s: State, skill: SkillId)
    requires Inv(s)
    ensures var row := Current(s.db.popularity, skill);
            && row.views == Count(s.db.log, skill, View)
            && row.uses == Count(s.db.log, skill, Use)
            && row.favorites == Count(s.db.log, skill, Favorite)
            && row.score == row.views + 10 * row.uses + 50 * row.favorites
            && |s.db.log| == |s.commits|
  {
    ReplayLog(s.commits);
    assert ExactAt(s.db, skill);
  }

  /** No lost update: in every committed state the counters of every skill are the counts of its
      committed events, score = views + 10 uses + 50 favorites, and the log holds one event for
      each committed call. */
  lemma CountersFoldTheLog(run: seq<Step>, skill: SkillId)
    requires Legal(run)
    ensures var s := Run(run); var row := Current(s.db.popularity, skill);
            && row.views == Count(s.db.log, skill, View)
            && row.uses == Count(s.db.log, skill, Use)
            && row.favorites == Count(s.db.log, skill, Favorite)
            && row.score == row.views + 10 * row.uses + 50 * row.favorites
            && |s.db.log| == |s.commits|
  {
    RunKeepsInv(run);
    InvCounts(Run(run), skill);
  }

  // ---------------------------------------------------------------- everyone can finish

  /** The steps a transaction has before it. */
  function Left(pc: Pc): nat {
    match pc
    case Waiting => 6
    case Locked => 5
    case Checked => 4
    case RowEnsured => 3
    case RowRead => 2
    case Bumped => 1
    case Closed => 0
  }

  function Work(txs: seq<Tx>): nat {
    if txs == [] then 0 else Work(txs[..|txs| - 1]) + Left(txs[|txs| - 1].pc)
  }

  lemma {:induction false} WorkOfSet(txs: seq<Tx>, i: nat, tx: Tx)
    requires i < |txs|
    ensures Work(txs[i := tx]) + Left(txs[i].pc) == Work(txs) + Left(tx.pc)
  {
    var n := |txs| - 1;
    var after := txs[i := tx];
    if i == n {
      assert after[..n] == txs[..n];
    } else {
      assert after[..n] == txs[..n][i := tx];
      WorkOfSet(txs[..n], i, tx);
    }
  }

  /** A step that takes a transaction on: no beginning, no rollback. */
  predicate Forward(step: Step) { !step.Begin? && !step.Abort? }

  lemma ForwardWorks(s: State, step: Step)
    requires Enabled(s, step) && Forward(step)
    ensures Work(Next(s, step).txs) < Work(s.txs)
  {
    var i := step.tx;
    WorkOfSet(s.txs, i, Next(s, step).txs[i]);
  }

  predicate Open(s: State, i: nat) { i < |s.txs| && s.txs[i].pc != Closed }

  /** The next statement of a transaction. */
  function Statement(s: State, i: nat, now: int): Step
    requires Open(s, i)
  {
    match s.txs[i].pc
    case Waiting => Acquire(i)
    case Locked => Check(i, now)
    case Checked => EnsureRow(i)
    case RowEnsured => ReadRow(i)
    case RowRead => Increment(i)
    case Bumped => Commit(i)
  }

  /** An open transaction can go on, or the one that holds its lock can. */
  lemma OpenOrHolderGoesOn(s: State, i: nat, now: int)
    requires LocksExact(s) && Open(s, i)
    ensures Enabled(s, Statement(s, i, now)) || (LockOf(s, i) in s.locks && Open(s, s.locks[LockOf(s, i)])
                                                 && Enabled(s, Statement(s, s.locks[LockOf(s, i)], now)))
  {
  }

  lemma SomeoneGoesOn(s: State, i: nat, now: int) returns (step: Step)
    requires LocksExact(s) && Open(s, i)
    ensures Enabled(s, step) && Forward(step)
  {
    OpenOrHolderGoesOn(s, i, now);
    step := Statement(s, if Enabled(s, Statement(s, i, now)) then i else s.locks[LockOf(s, i)], now);
  }

  lemma RunKeepsLocks(run: seq<Step>)
    requires Legal(run)
    ensures LocksExact(Run(run))
  {
    RunKeepsInv(run);
  }

  /** Nobody waits for ever: from every state a run can reach, statements of the open transactions alone,
      none of them rolled back, lead to one where all are closed and no lock is held. */
  lemma {:induction false} EveryoneCanFinish(run: seq<Step>, now: int) returns (longer: seq<Step>)
    requires Legal(run)
    ensures Legal(longer) && run <= longer && forall k | |run| <= k < |longer| :: Forward(longer[k])
    ensures (forall i: nat :: !Open(Run(longer), i)) && Run(longer).locks == map[]
    decreases Work(Run(run).txs)
  {
    hide Enabled, Next, Work, Inv, LocksExact, Legal, Run;
    var s := Run(run);
    RunKeepsLocks(run);
    if i: nat :| Open(s, i) {
      var step := SomeoneGoesOn(s, i, now);
      ForwardWorks(s, step);
      var next := Extend(run, step);
      longer := EveryoneCanFinish(next, now);
    } else {
      longer := run;
      NobodyHolds(s);
    }
  }

  lemma NobodyHolds(s: State)
    requires LocksExact(s) && forall i: nat :: !Open(s, i)
    ensures s.locks == map[]
  {
    forall key | key in s.locks ensures false {
      assert Open(s, s.locks[key]);
    }
    assert s.locks.Keys == {};
  }

  // ---------------------------------------------------------------- deduplication

  lemma LastIsNoDuplicate(calls: seq<Done>, i: nat)
    requires AllAccepted(calls) && i < |calls| - 1 && ShouldDedupe(calls[|calls| - 1].call)
    ensures var d := calls[|calls| - 1]; var e := calls[i];
            !Duplicates(Event(e.call.skill, e.call.kind, e.call.session, e.startedAt), d.call, d.checkedAt)
  {
    var pre, d := calls[..|calls| - 1], calls[|calls| - 1];
    ReplayLog(pre);
    assert Alone(Replay(pre), d).1.Accepted?;
    assert FindDuplicate(Replay(pre).log, d.call, d.checkedAt).None?;
    assert !Duplicates(Replay(pre).log[i], d.call, d.checkedAt);
  }

  /** Of two calls that count for the same skill, kind and session, the later one was checked
      against the event of the earlier one. */
  lemma {:induction false} EarlierIsNoDuplicate(calls: seq<Done>, i: nat, j: nat)
    requires AllAccepted(calls) && i < j < |calls| && calls[i].call == calls[j].call
    requires ShouldDedupe(calls[j].call)
    ensures calls[j].call.kind == View
    ensures calls[j].checkedAt > calls[i].startedAt + VIEW_DEDUPE_WINDOW
  {
    if j < |calls| - 1 {
      EarlierIsNoDuplicate(calls[..|calls| - 1], i, j);
    } else {
      LastIsNoDuplicate(calls, i);
    }
  }

  lemma InvDedupe(s: State, i: nat, j: nat)
    requires Inv(s) && i < j < |s.commits| && s.commits[i].call == s.commits[j].call
    requires ShouldDedupe(s.commits[j].call)
    ensures s.commits[j].call.kind == View && i < |s.db.log|
    ensures s.commits[j].checkedAt > s.db.log[i].createdAt + VIEW_DEDUPE_WINDOW
    ensures s.db.log[i].createdAt == s.commits[i].startedAt
  {
    ReplayLog(s.commits);
    EarlierIsNoDuplicate(s.commits, i, j);
  }

  /** A counted view with a session is checked more than ten seconds after the stored time of
      every earlier counted view of that skill and session; a favorite with a session counts once. */
  lemma DedupeBound(run: seq<Step>, i: nat, j: nat)
    requires Legal(run)
    requires var done := Run(run).commits; i < j < |done| && done[i].call == done[j].call && ShouldDedupe(done[j].call)
    ensures var s := Run(run);
            && s.commits[j].call.kind != Favorite
            && i < |s.db.log| && s.db.log[i].createdAt == s.commits[i].startedAt
            && s.commits[j].checkedAt > s.db.log[i].createdAt + VIEW_DEDUPE_WINDOW
  {
    RunKeepsInv(run);
    InvDedupe(Run(run), i, j);
  }

  function TimesIn(calls: seq<Done>, c: Call, from: int, span: nat): seq<int> {
    if calls == [] then []
    else
      var pre, d := TimesIn(calls[..|calls| - 1], c, from, span), calls[|calls| - 1];
      if d.call == c && from <= d.checkedAt <= from + span then pre + [d.checkedAt] else pre
  }

  lemma {:induction false} TimesCome(calls: seq<Done>, c: Call, from: int, span: nat, t: int)
    requires t in TimesIn(calls, c, from, span)
    ensures exists i :: 0 <= i < |calls| && calls[i].call == c && calls[i].checkedAt == t && from <= t <= from + span
  {
    var pre, d := calls[..|calls| - 1], calls[|calls| - 1];
    if t in TimesIn(pre, c, from, span) {
      TimesCome(pre, c, from, span, t);
      var i :| 0 <= i < |pre| && pre[i].call == c && pre[i].checkedAt == t && from <= t <= from + span;
      assert calls[i] == pre[i];
    } else {
      assert calls[|calls| - 1].checkedAt == t;
    }
  }

  /** Each time but the first is more than a gap after the one before. */
  predicate Spread(ts: seq<int>, from: int, gap: int) {
    && (|ts| >= 1 ==> ts[|ts| - 1] - from >= gap * (|ts| - 1))
    && (|ts| >= 2 ==> ts[|ts| - 1] - from > gap * (|ts| - 1))
  }

  lemma SpreadMore(ts: seq<int>, t: int, from: int, gap: int)
    requires Spread(ts, from, gap) && t >= from && (ts != [] ==> t - ts[|ts| - 1] > gap)
    ensures Spread(ts + [t], from, gap)
  {
    if ts != [] { assert gap * |ts| == gap * (|ts| - 1) + gap; }
  }

  /** No call of the stream is checked more than `lag` after its transaction began. */
  predicate Lags(calls: seq<Done>, c: Call, lag: int) {
    forall i | 0 <= i < |calls| && calls[i].call == c :: calls[i].checkedAt - calls[i].startedAt <= lag
  }

  /** The last counted call of a stream comes more than a window, less the lag, after the one before; a
      favorite has none before. */
  lemma GapBeforeLast(calls: seq<Done>, c: Call, from: int, span: nat, lag: int)
    requires AllAccepted(calls) && ShouldDedupe(c) && calls != [] && calls[|calls| - 1].call == c && Lags(calls, c, lag)
    requires TimesIn(calls[..|calls| - 1], c, from, span) != []
    ensures var before := TimesIn(calls[..|calls| - 1], c, from, span);
            c.kind != Favorite && calls[|calls| - 1].checkedAt - before[|before| - 1] > VIEW_DEDUPE_WINDOW - lag
  {
    var pre := calls[..|calls| - 1];
    var before := TimesIn(pre, c, from, span);
    var t := before[|before| - 1];
    TimesCome(pre, c, from, span, t);
    var i :| 0 <= i < |pre| && pre[i].call == c && pre[i].checkedAt == t;
    assert calls[i] == pre[i];
    EarlierIsNoDuplicate(calls, i, |calls| - 1);
  }

  lemma NoneIsSpread(from: int, gap: int)
    ensures Spread([], from, gap)
  {
  }

  /** The counted calls of a stream are spread out, by the window less the lag. */
  lemma {:induction false} TimesSpread(calls: seq<Done>, c: Call, from: int, span: nat, lag: int)
    requires AllAccepted(calls) && ShouldDedupe(c) && Lags(calls, c, lag)
    ensures Spread(TimesIn(calls, c, from, span), from, VIEW_DEDUPE_WINDOW - lag)
    ensures c.kind == Favorite ==> |TimesIn(calls, c, from, span)| <= 1
  {
    hide Spread;
    if calls == [] {
      NoneIsSpread(from, VIEW_DEDUPE_WINDOW - lag);
    } else {
      var pre, d := calls[..|calls| - 1], calls[|calls| - 1];
      assert forall i | 0 <= i < |pre| :: pre[i] == calls[i];
      TimesSpread(pre, c, from, span, lag);
      var before := TimesIn(pre, c, from, span);
      if d.call == c && from <= d.checkedAt <= from + span {
        if before != [] { GapBeforeLast(calls, c, from, span, lag); }
        SpreadMore(before, d.checkedAt, from, VIEW_DEDUPE_WINDOW - lag);
      }
    }
  }

  lemma StreamBound(done: seq<Done>, c: Call, from: int, span: nat, lag: int)
    requires AllAccepted(done) && ShouldDedupe(c) && Lags(done, c, lag)
    ensures var n := |TimesIn(done, c, from, span)|;
            && (n <= 1 || (VIEW_DEDUPE_WINDOW - lag) * (n - 1) < span)
            && (c.kind == Favorite ==> n <= 1)
  {
    TimesSpread(done, c, from, span, lag);
    var ts := TimesIn(done, c, from, span);
    if ts != [] { TimesCome(done, c, from, span, ts[|ts| - 1]); }
  }

  /** How much one session can add: if none of its calls is checked more than `lag` after its
      transaction began, n counted views of one skill within a span satisfy n <= 1 or
      (10 s - lag) * (n - 1) < span, and of any number of favorites only one counts. */
  lemma SessionBound(run: seq<Step>, c: Call, from: int, span: nat, lag: int)
    requires Legal(run) && ShouldDedupe(c) && Lags(Run(run).commits, c, lag)
    ensures var n := |TimesIn(Run(run).commits, c, from, span)|;
            && (n <= 1 || (VIEW_DEDUPE_WINDOW - lag) * (n - 1) < span)
            && (c.kind == Favorite ==> n <= 1)
  {
    RunKeepsInv(run);
    StreamBound(Run(run).commits, c, from, span, lag);
  }

  /** All counted calls of the stream began before a time. */
  predicate AllBegan(commits: seq<Done>, c: Call, time: int) {
    forall i | 0 <= i < |commits| && commits[i].call == c :: commits[i].startedAt < time
  }

  /** At the end of the window, or before, another view counts. */
  ghost predicate CountsWithin(db: Db, c: Call, time: int) {
    exists now :: time <= now <= time + VIEW_DEDUPE_WINDOW && Counted(db, c, now)
  }

  lemma CountedIff(commits: seq<Done>, c: Call, now: int)
    requires AllAccepted(commits) && ShouldDedupe(c) && c.kind == View
    ensures Counted(Replay(commits), c, now) <==> AllBegan(commits, c, now - VIEW_DEDUPE_WINDOW)
  {
    var log := Replay(commits).log;
    ReplayLog(commits);
    forall i | 0 <= i < |commits|
      ensures Duplicates(log[i], c, now) <==> commits[i].call == c && commits[i].startedAt >= now - VIEW_DEDUPE_WINDOW
    {
      assert log[i] == EventOf(commits[i]);
    }
  }

  /** When the ten seconds hold and when they do not: within ten seconds of the check of a counted view
      another one of its stream can count exactly when the transactions of all of them began before
      that check. The window is short by as much as the last of them waited. */
  lemma WindowLeaksIff(run: seq<Step>, d: Done)
    requires Legal(run) && d in Run(run).commits && ShouldDedupe(d.call) && d.call.kind == View
    ensures CountsWithin(Run(run).db, d.call, d.checkedAt) <==> AllBegan(Run(run).commits, d.call, d.checkedAt)
  {
    RunKeepsInv(run);
    LeaksIff(Run(run).commits, d.call, d.checkedAt);
  }

  lemma LeaksIff(commits: seq<Done>, c: Call, time: int)
    requires AllAccepted(commits) && ShouldDedupe(c) && c.kind == View
    ensures CountsWithin(Replay(commits), c, time) <==> AllBegan(commits, c, time)
  {
    var db := Replay(commits);
    CountedIff(commits, c, time + VIEW_DEDUPE_WINDOW);
    if now :| time <= now <= time + VIEW_DEDUPE_WINDOW && Counted(db, c, now) {
      CountedIff(commits, c, now);
    }
  }

  /** Such a run.  A view begins while a use of its skill holds the lock, and waits twelve seconds for it;
      it is stored with the time its transaction began, so a second view half a second after its check
      counts too.  `waiting` is how far the run is when the first view waits and the use goes on. */
  lemma LockWaitDefeatsTheWindow() returns (run: seq<Step>, waiting: nat)
    ensures Legal(run) && waiting < |run| && Legal(run[..waiting])
    ensures var s := Run(run[..waiting]);
            && s.txs == [Tx(USER, 0, Locked, 0, false, ZERO), Tx(VIEWER, 0, Waiting, 0, false, ZERO)]
            && s.locks == map[LockOf(s, 1) := 0]
    ensures Run(run).commits ==
            [Done(USER, 0, 12_000_000), Done(VIEWER, 0, 12_000_000), Done(VIEWER, 12_500_000, 12_500_000)]
    ensures ShouldDedupe(VIEWER) && VIEWER.kind == View
  {
    var held := FirstViewWaits();
    var freed := Finish(held, 0, 12_000_000);
    var locked := Extend(freed, Acquire(1));
    OthersView();
    var viewed := Finish(locked, 1, 12_000_000);
    run := CommitOne(viewed, VIEWER, 12_500_000, 12_500_000);
    waiting := |held|;
    assert run[..waiting] == held;
  }

  const VIEWER := Call(View, 0, Some("s"))

  const USER := Call(Use, 0, None)

  lemma FirstViewWaits() returns (run: seq<Step>)
    ensures Legal(run) && Run(run).commits == [] && Run(run).db.log == []
    ensures Run(run).txs == [Tx(USER, 0, Locked, 0, false, ZERO), Tx(VIEWER, 0, Waiting, 0, false, ZERO)]
    ensures Run(run).locks == map[LockOf(Run(run), 1) := 0]
  {
    var r1 := Extend([], Begin(USER, 0));
    var r2 := Extend(r1, Acquire(0));
    run := Extend(r2, Begin(VIEWER, 0));
  }

  /** A use, and a view of twelve seconds ago, are no duplicates of a view. */
  lemma OthersView()
    ensures var use := Event(0, Use, None, 0);
            && FindDuplicate([use], VIEWER, 12_000_000).None?
            && FindDuplicate([use, Event(0, View, Some("s"), 0)], VIEWER, 12_500_000).None?
  {
  }

  lemma Extend(run: seq<Step>, step: Step) returns (longer: seq<Step>)
    requires Legal(run) && Enabled(Run(run), step)
    ensures Legal(longer) && Run(longer) == Next(Run(run), step) && longer == run + [step]
  {
    longer := run + [step];
    assert longer[..|longer| - 1] == run;
  }

  /** Once it has its lock, a call that is no duplicate can run through to its commit. */
  lemma Finish(run: seq<Step>, i: nat, checkedAt: int) returns (longer: seq<Step>)
    requires Legal(run) && At(Run(run), i, Locked) && Counted(Run(run).db, Run(run).txs[i].call, checkedAt)
    ensures Legal(longer) && run <= longer && |run| < |longer|
    ensures var s, t, tx := Run(run), Run(longer), Run(run).txs[i];
            && t.locks == s.locks - {LockOf(s, i)} && |t.txs| == |s.txs|
            && (forall j | 0 <= j < |s.txs| && j != i :: t.txs[j] == s.txs[j])
            && t.commits == s.commits + [Done(tx.call, tx.startedAt, checkedAt)]
            && t.db.log == s.db.log + [Event(tx.call.skill, tx.call.kind, tx.call.session, tx.startedAt)]
  {
    hide Legal, Run, AdvisoryLockKey, FindDuplicate;
    var r3 := Extend(run, Check(i, checkedAt));
    var r4 := Extend(r3, EnsureRow(i));
    var r5 := Extend(r4, ReadRow(i));
    var r6 := Extend(r5, Increment(i));
    longer := Extend(r6, Commit(i));
  }

  /** From a state where no lock is held, a call that is no duplicate can begin and run through. */
  lemma CommitOne(run: seq<Step>, c: Call, startedAt: int, checkedAt: int) returns (longer: seq<Step>)
    requires Legal(run) && Run(run).locks == map[] && Counted(Run(run).db, c, checkedAt)
    ensures Legal(longer) && run <= longer
    ensures Run(longer).commits == Run(run).commits + [Done(c, startedAt, checkedAt)]
  {
    var i := |Run(run).txs|;
    var begun := Extend(run, Begin(c, startedAt));
    var locked := Extend(begun, Acquire(i));
    longer := Finish(locked, i, checkedAt);
  }

  // ---------------------------------------------------------------- the tables

  class EventStore {
    var log: seq<Event>
    var popularity: map<SkillId, Counters>

    ghost function View(): Db
      reads this
    {
      Db(log, popularity)
    }

    ghost predicate Valid()
      reads this
    {
      CountersExact(View())
    }

    constructor ()
      ensures Valid() && View() == EMPTY
    {
      log, popularity := [], map[];
    }

    /** One call whose transaction runs alone. */
    method TrackEvent(path: string, p: Payload, startedAt: int, now: int) returns (reply: Reply)
      requires Valid()
      modifies this
      ensures Valid()
      ensures (View(), reply) == Track(old(View()), path, p, startedAt, now)
    {
      if p.kind != path { return BadRequest("Path event type and payload event type do not match"); }
      if KindNamed(path).None? { return BadRequest("Unsupported event type"); }
      var c := Call(KindNamed(path).value, p.skill, p.session);
      if ShouldDedupe(c) {
        var duplicate := FindDuplicate(log, c, now);
        if duplicate.Some? { return Duplicate(duplicate.value); }
      }
      CommitKeepsExact(View(), c, startedAt);
      if c.skill !in popularity {
        popularity := popularity[c.skill := ZERO];
      }
      var row := popularity[c.skill];
      match c.kind {
        case View => row := row.(views := row.views + 1);
        case Use => row := row.(uses := row.uses + 1);
        case Favorite => row := row.(favorites := row.favorites + 1);
      }
      row := row.(score := row.views + row.uses * 10 + row.favorites * 50);
      reply := Accepted(|log|);
      log := log + [Event(c.skill, c.kind, c.session, startedAt)];
      popularity := popularity[c.skill := row];
      assert popularity == Committed(old(View()), c, startedAt).popularity;
    }
  }
}
