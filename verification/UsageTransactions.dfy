/** Calls of `enforce_rate_limit_and_track` whose transactions interleave (app/repos/api_key_repo.py):
    each upsert takes the lock of its row, new or not, and keeps it to the end of the transaction.  The
    key's last use is written with the commit. */
module UsageTransactions {
  import opened Calendar
  import opened UsageLedger

  /** Nothing counted yet; the minute, the day, the month counted; closed, by commit or rollback. */
  datatype Phase = Begun | MinuteCounted | DayCounted | MonthCounted | Closed

  /** The counts are those the transaction's upserts left in their rows, still uncommitted. */
  datatype Tx = Tx(call: Call, phase: Phase, minute: nat, day: nat, month: nat)

  /** `commits` are the calls that committed, in order. */
  datatype State = State(ledger: Ledger, txs: seq<Tx>, commits: seq<Call>)

  datatype Step =
    | Begin(call: Call)
    | CountMinute(id: nat)
    | CountDay(id: nat)
    | CountMonth(id: nat)
    | Commit(id: nat)
    | Abort(id: nat)

  predicate HoldsMinute(t: Tx) { t.phase != Begun && t.phase != Closed }

  predicate HoldsDay(t: Tx) { t.phase == DayCounted || t.phase == MonthCounted }

  predicate HoldsMonth(t: Tx) { t.phase == MonthCounted }

  predicate MinuteFree(s: State, w: (KeyId, DateTime)) {
    forall t | t in s.txs && HoldsMinute(t) :: WindowOf(t.call) != w
  }

  predicate DayFree(s: State, d: (KeyId, Date)) { forall t | t in s.txs && HoldsDay(t) :: DayOf(t.call) != d }

  predicate MonthFree(s: State, m: (KeyId, Date)) { forall t | t in s.txs && HoldsMonth(t) :: MonthOf(t.call) != m }

  predicate At(s: State, id: nat, phase: Phase) { id < |s.txs| && s.txs[id].phase == phase }

  /** An upsert waits until nobody else holds its row. */
  predicate Enabled(s: State, e: Step) {
    match e
    case Begin(_) => true
    case CountMinute(id) => At(s, id, Begun) && MinuteFree(s, WindowOf(s.txs[id].call))
    case CountDay(id) => At(s, id, MinuteCounted) && DayFree(s, DayOf(s.txs[id].call))
    case CountMonth(id) => At(s, id, DayCounted) && MonthFree(s, MonthOf(s.txs[id].call))
    case Commit(id) => At(s, id, MonthCounted)
    case Abort(id) => id < |s.txs| && s.txs[id].phase != Closed
  }

  function With(s: State, id: nat, t: Tx): State
    requires id < |s.txs|
  {
    s.(txs := s.txs[id := t])
  }

  /** What a commit makes of the tables: the rows of the transaction replace the committed ones. */
  function Committed(l: Ledger, t: Tx): Ledger {
    Ledger(l.windows[WindowOf(t.call) := t.minute], l.daily[DayOf(t.call) := t.day],
           l.monthly[MonthOf(t.call) := t.month], l.lastUsed[t.call.key := t.call.now])
  }

  function Next(s: State, e: Step, limits: Limits): State
    requires Enabled(s, e)
  {
    match e
    case Begin(call) => s.(txs := s.txs + [Tx(call, Begun, 0, 0, 0)])
    case CountMinute(id) =>
      var t := s.txs[id];
      var count := Get(s.ledger.windows, WindowOf(t.call)) + 1;
      With(s, id,
          if count > limits(t.call.key) then t.(phase := Closed) else t.(phase := MinuteCounted, minute := count))
    case CountDay(id) =>
      var t := s.txs[id];
      With(s, id, t.(phase := DayCounted, day := Get(s.ledger.daily, DayOf(t.call)) + 1))
    case CountMonth(id) =>
      var t := s.txs[id];
      With(s, id, t.(phase := MonthCounted, month := Get(s.ledger.monthly, MonthOf(t.call)) + 1))
    case Commit(id) =>
      var t := s.txs[id];
      With(s, id, t.(phase := Closed)).(ledger := Committed(s.ledger, t), commits := s.commits + [t.call])
    case Abort(id) => With(s, id, s.txs[id].(phase := Closed))
  }

  /** Steps that cannot be taken are not there. */
  function After(run: seq<Step>, limits: Limits): State {
    if run == [] then State(EMPTY, [], [])
    else
      var s := After(run[..|run| - 1], limits);
      if Enabled(s, run[|run| - 1]) then Next(s, run[|run| - 1], limits) else s
  }

  // ---------------------------------------------------------------- serialisability

  /** What a transaction has counted is still one more than what is committed. */
  predicate CountsStand(l: Ledger, t: Tx, limits: Limits) {
    && (HoldsMinute(t) ==> t.minute == Get(l.windows, WindowOf(t.call)) + 1 && t.minute <= limits(t.call.key))
    && (HoldsDay(t) ==> t.day == Get(l.daily, DayOf(t.call)) + 1)
    && (HoldsMonth(t) ==> t.month == Get(l.monthly, MonthOf(t.call)) + 1)
  }

  /** No row is held twice. */
  predicate Exclusive(a: Tx, b: Tx) {
    && (HoldsMinute(a) && HoldsMinute(b) ==> WindowOf(a.call) != WindowOf(b.call))
    && (HoldsDay(a) && HoldsDay(b) ==> DayOf(a.call) != DayOf(b.call))
    && (HoldsMonth(a) && HoldsMonth(b) ==> MonthOf(a.call) != MonthOf(b.call))
  }

  predicate AllExclusive(s: State) { forall i, j | 0 <= i < j < |s.txs| :: Exclusive(s.txs[i], s.txs[j]) }

  predicate Serial(s: State, limits: Limits) {
    s.ledger == Run(s.commits, limits) && Accepted(s.commits, limits) == s.commits
  }

  ghost predicate Inv(s: State, limits: Limits) {
    AllExclusive(s) && Serial(s, limits) && forall i | 0 <= i < |s.txs| :: CountsStand(s.ledger, s.txs[i], limits)
  }

  lemma NextKeepsExclusive(s: State, e: Step, limits: Limits)
    requires AllExclusive(s) && Enabled(s, e)
    ensures AllExclusive(Next(s, e, limits))
  {
    var t := Next(s, e, limits);
    forall i, j | 0 <= i < j < |t.txs| ensures Exclusive(t.txs[i], t.txs[j]) {
      if j < |s.txs| {
        assert s.txs[i] in s.txs && s.txs[j] in s.txs && Exclusive(s.txs[i], s.txs[j]);
      }
    }
  }

  lemma CommitIsSerial(s: State, id: nat, limits: Limits)
    requires Inv(s, limits) && Enabled(s, Commit(id))
    ensures Serial(Next(s, Commit(id), limits), limits)
  {
    var t := s.txs[id];
    assert CountsStand(s.ledger, t, limits);
    assert Admitted(s.ledger, limits(t.call.key), t.call);
    assert Committed(s.ledger, t) == Track(s.ledger, limits(t.call.key), t.call);
    assert (s.commits + [t.call])[..|s.commits|] == s.commits;
  }

  lemma CommitKeepsCounts(s: State, id: nat, i: nat, limits: Limits)
    requires Inv(s, limits) && Enabled(s, Commit(id)) && i < |s.txs| && i != id
    ensures CountsStand(Committed(s.ledger, s.txs[id]), s.txs[i], limits)
  {
    assert CountsStand(s.ledger, s.txs[i], limits);
    assert if i < id then Exclusive(s.txs[i], s.txs[id]) else Exclusive(s.txs[id], s.txs[i]);
  }

  lemma NextKeepsCounts(s: State, e: Step, limits: Limits, i: nat)
    requires Inv(s, limits) && Enabled(s, e) && i < |Next(s, e, limits).txs|
    ensures CountsStand(Next(s, e, limits).ledger, Next(s, e, limits).txs[i], limits)
  {
    if i < |s.txs| {
      assert CountsStand(s.ledger, s.txs[i], limits);
      if e.Commit? && i != e.id { CommitKeepsCounts(s, e.id, i, limits); }
    }
  }

  lemma NextKeepsInv(s: State, e: Step, limits: Limits)
    requires Inv(s, limits) && Enabled(s, e)
    ensures Inv(Next(s, e, limits), limits)
  {
    NextKeepsExclusive(s, e, limits);
    if e.Commit? { CommitIsSerial(s, e.id, limits); }
    forall i | 0 <= i < |Next(s, e, limits).txs|
      ensures CountsStand(Next(s, e, limits).ledger, Next(s, e, limits).txs[i], limits)
    {
      NextKeepsCounts(s, e, limits, i);
    }
  }

  lemma {:induction false} RunKeepsInv(run: seq<Step>, limits: Limits)
    ensures Inv(After(run, limits), limits)
  {
    if run == [] {
    } else {
      RunKeepsInv(run[..|run| - 1], limits);
      var s, e := After(run[..|run| - 1], limits), run[|run| - 1];
      if Enabled(s, e) { NextKeepsInv(s, e, limits); }
    }
  }

  /** Whatever the interleaving, the committed tables are those of the committed calls, tracked one after
      the other, every one of them admitted. */
  lemma UsageSerialisable(run: seq<Step>, limits: Limits)
    ensures var s := After(run, limits); s.ledger == Run(s.commits, limits) && Accepted(s.commits, limits) == s.commits
  {
    RunKeepsInv(run, limits);
  }

  /** So usage is conserved under every interleaving: windows sum to days, days to months, months to the
      number of committed calls. */
  lemma InterleavedUsageConserved(run: seq<Step>, limits: Limits, k: KeyId, t: DateTime, d: Date, m: Date)
    ensures var s := After(run, limits); var l := s.ledger;
            && GroupSum(l.windows, InDay(k, d)) == Get(l.daily, (k, d))
            && GroupSum(l.daily, InMonth(k, m)) == Get(l.monthly, (k, m))
            && GroupSum(l.monthly, OfKey(k)) == Count(s.commits, FromKey(k))
            && Get(l.windows, (k, t)) == Count(s.commits, InWindow((k, t)))
  {
    UsageSerialisable(run, limits);
    UsageConserved(After(run, limits).commits, limits, k, t, d, m);
  }

  /** And a call is turned away exactly when, at the moment it counts its minute, as many calls as the
      limit allows have committed in that minute. */
  lemma TurnedAwayIff(run: seq<Step>, id: nat, limits: Limits)
    requires Enabled(After(run, limits), CountMinute(id))
    ensures var s := After(run, limits); var c := s.txs[id].call;
            Next(s, CountMinute(id), limits).txs[id].phase == Closed <==>
                Count(s.commits, InWindow(WindowOf(c))) >= limits(c.key)
  {
    UsageSerialisable(run, limits);
    var s := After(run, limits);
    var c := s.txs[id].call;
    UsageConserved(s.commits, limits, c.key, WindowOf(c).1, c.now.date, MonthFloor(c.now.date));
  }

  // ---------------------------------------------------------------- everyone can finish

  /** The steps a transaction has before it. */
  function Left(phase: Phase): nat {
    match phase
    case Begun => 4
    case MinuteCounted => 3
    case DayCounted => 2
    case MonthCounted => 1
    case Closed => 0
  }

  function Work(txs: seq<Tx>): nat {
    if txs == [] then 0 else Work(txs[..|txs| - 1]) + Left(txs[|txs| - 1].phase)
  }

  lemma {:induction false} WorkOfSet(txs: seq<Tx>, i: nat, t: Tx)
    requires i < |txs|
    ensures Work(txs[i := t]) + Left(txs[i].phase) == Work(txs) + Left(t.phase)
  {
    var n := |txs| - 1;
    var after := txs[i := t];
    if i == n {
      assert after[..n] == txs[..n];
    } else {
      assert after[..n] == txs[..n][i := t];
      WorkOfSet(txs[..n], i, t);
    }
  }

  /** A step that takes a transaction on: no beginning, no rollback. */
  predicate Forward(e: Step) { !e.Begin? && !e.Abort? }

  lemma ForwardWorks(s: State, e: Step, limits: Limits)
    requires Enabled(s, e) && Forward(e)
    ensures Work(Next(s, e, limits).txs) < Work(s.txs)
  {
    WorkOfSet(s.txs, e.id, Next(s, e, limits).txs[e.id]);
  }

  predicate Open(s: State, id: nat) { id < |s.txs| && s.txs[id].phase != Closed }

  function Statement(s: State, id: nat): Step
    requires Open(s, id)
  {
    match s.txs[id].phase
    case Begun => CountMinute(id)
    case MinuteCounted => CountDay(id)
    case DayCounted => CountMonth(id)
    case MonthCounted => Commit(id)
  }

  /** Nobody is further on. */
  predicate Furthest(s: State, id: nat) {
    Open(s, id) && forall j: nat | j < |s.txs| && Open(s, j) :: Left(s.txs[id].phase) <= Left(s.txs[j].phase)
  }

  /** The rows are taken in the same order by all, so whoever is furthest on waits for nobody. */
  lemma FurthestGoesOn(s: State, id: nat)
    requires Furthest(s, id)
    ensures Enabled(s, Statement(s, id))
  {
    forall t | t in s.txs && t.phase != Closed ensures Left(s.txs[id].phase) <= Left(t.phase) {
      var j: nat :| j < |s.txs| && s.txs[j] == t;
      assert Open(s, j);
    }
  }

  lemma {:induction false} SomeoneIsFurthest(s: State, id: nat) returns (f: nat)
    requires Open(s, id)
    ensures Furthest(s, f)
    decreases Left(s.txs[id].phase)
  {
    if j: nat :| Open(s, j) && Left(s.txs[j].phase) < Left(s.txs[id].phase) {
      f := SomeoneIsFurthest(s, j);
    } else {
      f := id;
    }
  }

  /** No deadlock: after every run, steps of the open transactions alone, none of them rolled back, lead
      to a state where all are closed. */
  lemma {:induction false} EveryoneCanFinish(run: seq<Step>, limits: Limits) returns (longer: seq<Step>)
    ensures run <= longer && forall k | |run| <= k < |longer| ::
              Forward(longer[k]) && Enabled(After(longer[..k], limits), longer[k])
    ensures forall id: nat :: !Open(After(longer, limits), id)
    decreases Work(After(run, limits).txs)
  {
    var s := After(run, limits);
    if id: nat :| Open(s, id) {
      var f := SomeoneIsFurthest(s, id);
      FurthestGoesOn(s, f);
      ForwardWorks(s, Statement(s, f), limits);
      var next := run + [Statement(s, f)];
      assert next[..|run|] == run;
      longer := EveryoneCanFinish(next, limits);
      assert longer[..|run|] == next[..|run|] && longer[|run|] == next[|run|];
    } else {
      longer := run;
    }
  }
}
