/** Rate windows and usage ledgers of one API key: `enforce_rate_limit_and_track` of
    app/repos/api_key_repo.py.  A call either adds one to the minute window, the day and the
    month, or finds the window full and leaves no trace. */
module UsageLedger {
  import opened Calendar

  type KeyId = nat

  /** The limit of a key is fixed when the key is issued. */
  type Limits = KeyId -> int

  datatype Call = Call(key: KeyId, now: DateTime)

  datatype Ledger = Ledger(
    windows: map<(KeyId, DateTime), nat>,
    daily: map<(KeyId, Date), nat>,
    monthly: map<(KeyId, Date), nat>,
    lastUsed: map<KeyId, DateTime>)

  const EMPTY := Ledger(map[], map[], map[], map[])

  function Get<K>(m: map<K, nat>, k: K): nat { if k in m then m[k] else 0 }

  function Bump<K>(m: map<K, nat>, k: K): map<K, nat> { m[k := Get(m, k) + 1] }

  function WindowOf(c: Call): (KeyId, DateTime) { (c.key, MinuteFloor(c.now)) }
  function DayOf(c: Call): (KeyId, Date) { (c.key, c.now.date) }
  function MonthOf(c: Call): (KeyId, Date) { (c.key, MonthFloor(c.now.date)) }

  predicate Admitted(l: Ledger, limit: int, c: Call) { Get(l.windows, WindowOf(c)) + 1 <= limit }

  function Track(l: Ledger, limit: int, c: Call): Ledger {
    if !Admitted(l, limit, c) then l
    else Ledger(Bump(l.windows, WindowOf(c)), Bump(l.daily, DayOf(c)), Bump(l.monthly, MonthOf(c)),
                l.lastUsed[c.key := c.now])
  }

  // ---------------------------------------------------------------- runs

  /** The ledgers after any sequence of calls, with any timestamps, in any order. */
  function Run(calls: seq<Call>, limits: Limits): Ledger {
    if calls == [] then EMPTY
    else
      var c := calls[|calls| - 1];
      Track(Run(calls[..|calls| - 1], limits), limits(c.key), c)
  }

  /** The calls of the run that were let through. */
  function Accepted(calls: seq<Call>, limits: Limits): seq<Call> {
    if calls == [] then []
    else
      var pre, c := calls[..|calls| - 1], calls[|calls| - 1];
      if Admitted(Run(pre, limits), limits(c.key), c) then Accepted(pre, limits) + [c] else Accepted(pre, limits)
  }

  /** How many of the calls satisfy p. */
  function Count(calls: seq<Call>, p: Call -> bool): nat {
    if calls == [] then 0
    else Count(calls[..|calls| - 1], p) + if p(calls[|calls| - 1]) then 1 else 0
  }

  predicate AllValid(calls: seq<Call>) { forall c | c in calls :: Valid(c.now) }

  // ---------------------------------------------------------------- sums over a ledger

  ghost function Sum<K(!new)>(m: map<K, nat>, ks: set<K>): nat {
    if ks == {} then 0 else var k :| k in ks; Get(m, k) + Sum(m, ks - {k})
  }

  lemma {:induction false} SumWithout<K(!new)>(m: map<K, nat>, ks: set<K>, k: K)
    requires k in ks
    ensures Sum(m, ks) == Get(m, k) + Sum(m, ks - {k})
    decreases |ks|
  {
    var j :| j in ks && Sum(m, ks) == Get(m, j) + Sum(m, ks - {j});
    if j == k {
    } else {
      SumWithout(m, ks - {j}, k);
      SumWithout(m, ks - {k}, j);
      assert ks - {j} - {k} == ks - {k} - {j};
    }
  }

  /** Raising one entry by one raises the sum of the sets it is in by one. */
  lemma {:induction false} SumBump<K(!new)>(m: map<K, nat>, ks: set<K>, k: K)
    ensures Sum(Bump(m, k), ks) == Sum(m, ks) + (if k in ks then 1 else 0)
    decreases |ks|
  {
    if ks == {} {
    } else {
      var j := if k in ks then k else var j :| j in ks; j;
      SumWithout(m, ks, j);
      SumWithout(Bump(m, k), ks, j);
      SumBump(m, ks - {j}, k);
    }
  }

  lemma OneMore(n: nat, cap: nat)
    requires n > 0
    ensures n * cap == (n - 1) * cap + cap
  {
  }

  lemma {:induction false} SumBelow<K(!new)>(m: map<K, nat>, ks: set<K>, cap: nat)
    requires forall k | k in ks :: Get(m, k) <= cap
    ensures Sum(m, ks) <= |ks| * cap
    decreases |ks|
  {
    if ks == {} {
    } else {
      var k :| k in ks;
      var rest := ks - {k};
      SumWithout(m, ks, k);
      SumBelow(m, rest, cap);
      OneMore(|ks|, cap);
      assert |rest| == |ks| - 1;
    }
  }

  /** A set whose elements have distinct indices below n has at most n elements. */
  lemma {:induction false} AtMost<K(!new)>(ks: set<K>, index: K -> int, n: nat)
    requires forall k | k in ks :: 0 <= index(k) < n
    requires forall j, k | j in ks && k in ks && index(j) == index(k) :: j == k
    ensures |ks| <= n
    decreases n
  {
    if n == 0 {
    } else {
      var last := set k | k in ks && index(k) == n - 1;
      if last != {} {
        var k :| k in last;
        assert last == {k};
        assert |ks| == |ks - {k}| + 1;
      }
      AtMost(ks - last, index, n - 1);
    }
  }

  /** The entries of a ledger that belong to a group. */
  ghost function Group<K(!new)>(m: map<K, nat>, p: K -> bool): set<K> { set k | k in m && p(k) }

  ghost function GroupSum<K(!new)>(m: map<K, nat>, p: K -> bool): nat { Sum(m, Group(m, p)) }

  lemma GroupBump<K(!new)>(m: map<K, nat>, p: K -> bool, k: K)
    ensures GroupSum(Bump(m, k), p) == GroupSum(m, p) + (if p(k) then 1 else 0)
  {
    var g, g' := Group(m, p), Group(Bump(m, k), p);
    SumBump(m, g', k);
    if p(k) && k !in m {
      assert g' == g + {k} && g' - {k} == g;
      SumWithout(m, g', k);
    } else {
      assert g' == g;
    }
  }

  // ---------------------------------------------------------------- conservation

  function InDay(k: KeyId, d: Date): ((KeyId, DateTime)) -> bool { (w: (KeyId, DateTime)) => w.0 == k && w.1.date == d }
  function InMonth(k: KeyId, m: Date): ((KeyId, Date)) -> bool {
    (x: (KeyId, Date)) => x.0 == k && MonthFloor(x.1) == m
  }
  function OfKey(k: KeyId): ((KeyId, Date)) -> bool { (x: (KeyId, Date)) => x.0 == k }
  function FromKey(k: KeyId): Call -> bool { (c: Call) => c.key == k }
  function InWindow(w: (KeyId, DateTime)): Call -> bool { (c: Call) => WindowOf(c) == w }

  /** Conservation of usage, after any sequence of calls: the windows of a day sum to its daily
      count, the days of a month sum to its monthly count, the months of a key sum to the number
      of its accepted calls, and each window holds the number of calls accepted in it. */
  lemma {:induction false} UsageConserved(calls: seq<Call>, limits: Limits, k: KeyId, t: DateTime, d: Date, m: Date)
    ensures var l := Run(calls, limits);
            && GroupSum(l.windows, InDay(k, d)) == Get(l.daily, (k, d))
            && GroupSum(l.daily, InMonth(k, m)) == Get(l.monthly, (k, m))
            && GroupSum(l.monthly, OfKey(k)) == Count(Accepted(calls, limits), FromKey(k))
            && Get(l.windows, (k, t)) == Count(Accepted(calls, limits), InWindow((k, t)))
  {
    if calls == [] {
      assert Group(EMPTY.windows, InDay(k, d)) == {};
      assert Group(EMPTY.daily, InMonth(k, m)) == {};
      assert Group(EMPTY.monthly, OfKey(k)) == {};
    } else {
      var pre, c := calls[..|calls| - 1], calls[|calls| - 1];
      var l := Run(pre, limits);
      UsageConserved(pre, limits, k, t, d, m);
      if Admitted(l, limits(c.key), c) {
        GroupBump(l.windows, InDay(k, d), WindowOf(c));
        GroupBump(l.daily, InMonth(k, m), DayOf(c));
        GroupBump(l.monthly, OfKey(k), MonthOf(c));
        CountLast(Accepted(pre, limits), c, FromKey(k));
        CountLast(Accepted(pre, limits), c, InWindow((k, t)));
      }
    }
  }

  lemma CountLast(calls: seq<Call>, c: Call, p: Call -> bool)
    ensures Count(calls + [c], p) == Count(calls, p) + (if p(c) then 1 else 0)
  {
    assert (calls + [c])[..|calls|] == calls;
  }

  /** A rejected call leaves no trace: the accepted calls alone give the same ledgers,
      and each of them is accepted again. */
  lemma {:induction false} RejectedLeaveNoTrace(calls: seq<Call>, limits: Limits)
    ensures Run(Accepted(calls, limits), limits) == Run(calls, limits)
    ensures Accepted(Accepted(calls, limits), limits) == Accepted(calls, limits)
  {
    if calls == [] {
    } else {
      var pre, c := calls[..|calls| - 1], calls[|calls| - 1];
      RejectedLeaveNoTrace(pre, limits);
      if Admitted(Run(pre, limits), limits(c.key), c) {
        var a := Accepted(pre, limits);
        assert (a + [c])[..|a|] == a;
      }
    }
  }

  /** A call is let through exactly when fewer than the limit were accepted in its minute so far. */
  lemma AdmittedIff(calls: seq<Call>, limits: Limits, c: Call)
    ensures Admitted(Run(calls, limits), limits(c.key), c) <==>
            Count(Accepted(calls, limits), InWindow(WindowOf(c))) < limits(c.key)
  {
    UsageConserved(calls, limits, c.key, MinuteFloor(c.now), c.now.date, MonthFloor(c.now.date));
  }

  // ---------------------------------------------------------------- bounds

  function Cap(limits: Limits, k: KeyId): nat { if limits(k) < 0 then 0 else limits(k) }

  ghost predicate WellKept(l: Ledger, limits: Limits) {
    && (forall w | w in l.windows :: Valid(w.1) && w.1 == MinuteFloor(w.1) && l.windows[w] <= Cap(limits, w.0))
    && (forall x | x in l.daily :: ValidDate(x.1))
  }

  lemma {:induction false} RunWellKept(calls: seq<Call>, limits: Limits)
    requires AllValid(calls)
    ensures WellKept(Run(calls, limits), limits)
  {
    if calls == [] {
    } else {
      RunWellKept(calls[..|calls| - 1], limits);
    }
  }

  /** No day counts more than 1440 times the limit. */
  lemma DailyBound(calls: seq<Call>, limits: Limits, k: KeyId, d: Date)
    requires AllValid(calls)
    ensures Get(Run(calls, limits).daily, (k, d)) <= 1440 * Cap(limits, k)
  {
    var l := Run(calls, limits);
    UsageConserved(calls, limits, k, DateTime(d, 0, 0, 0, 0), d, MonthFloor(d));
    RunWellKept(calls, limits);
    var g := Group(l.windows, InDay(k, d));
    AtMost(g, (w: (KeyId, DateTime)) => w.1.hour * 60 + w.1.minute, 1440);
    SumBelow(l.windows, g, Cap(limits, k));
    Scale(|g|, 1440, Cap(limits, k));
  }

  /** No month counts more than 31 times that. */
  lemma MonthlyBound(calls: seq<Call>, limits: Limits, k: KeyId, m: Date)
    requires AllValid(calls)
    ensures Get(Run(calls, limits).monthly, (k, m)) <= 31 * (1440 * Cap(limits, k))
  {
    var l := Run(calls, limits);
    UsageConserved(calls, limits, k, DateTime(m, 0, 0, 0, 0), m, m);
    RunWellKept(calls, limits);
    var g := Group(l.daily, InMonth(k, m));
    forall x | x in g ensures Get(l.daily, x) <= 1440 * Cap(limits, k) {
      DailyBound(calls, limits, k, x.1);
    }
    AtMost(g, (x: (KeyId, Date)) => x.1.day - 1, 31);
    SumBelow(l.daily, g, 1440 * Cap(limits, k));
    Scale(|g|, 31, 1440 * Cap(limits, k));
  }

  lemma Scale(a: nat, b: nat, c: nat)
    requires a <= b
    ensures a * c <= b * c
  {
  }

  lemma DivideMonotone(a: int, b: int, c: int)
    requires a <= b <= c
    ensures a / MICROS_PER_MINUTE <= b / MICROS_PER_MINUTE <= c / MICROS_PER_MINUTE
  {
  }

  function InSpan(k: KeyId, from: int, span: nat): Call -> bool {
    (c: Call) => c.key == k && from <= Micros(c.now) <= from + span
  }

  /** Windows of a key whose minute lies in [lo, hi]. */
  function InMinutes(k: KeyId, lo: int, hi: int): ((KeyId, DateTime)) -> bool {
    (w: (KeyId, DateTime)) => w.0 == k && lo <= MinuteIndex(w.1) <= hi
  }

  lemma {:induction false} SpanIsInWindows(calls: seq<Call>, limits: Limits, k: KeyId, from: int, span: nat)
    requires AllValid(calls)
    ensures Count(Accepted(calls, limits), InSpan(k, from, span)) <=
            GroupSum(Run(calls, limits).windows,
                     InMinutes(k, from / MICROS_PER_MINUTE, (from + span) / MICROS_PER_MINUTE))
  {
    if calls == [] {
    } else {
      var pre, c := calls[..|calls| - 1], calls[|calls| - 1];
      SpanIsInWindows(pre, limits, k, from, span);
      var lo, hi := from / MICROS_PER_MINUTE, (from + span) / MICROS_PER_MINUTE;
      if Admitted(Run(pre, limits), limits(c.key), c) {
        GroupBump(Run(pre, limits).windows, InMinutes(k, lo, hi), WindowOf(c));
        CountLast(Accepted(pre, limits), c, InSpan(k, from, span));
        assert c in calls;
        MinuteFloorIsInterval(c.now, c.now);
        assert MinuteIndex(WindowOf(c).1) == MinuteIndex(c.now);
        assert InSpan(k, from, span)(c) ==> InMinutes(k, lo, hi)(WindowOf(c)) by {
          if InSpan(k, from, span)(c) { DivideMonotone(from, Micros(c.now), from + span); }
        }
      }
    }
  }

  /** A window of well-kept ledgers is named by its key and its minute. */
  lemma WindowsApart(l: Ledger, limits: Limits, v: (KeyId, DateTime), w: (KeyId, DateTime))
    requires WellKept(l, limits) && v in l.windows && w in l.windows && v.0 == w.0
             && MinuteIndex(v.1) == MinuteIndex(w.1)
    ensures v == w
  {
    MinuteFloorIsInterval(v.1, w.1);
  }

  lemma FewWindows(l: Ledger, limits: Limits, k: KeyId, lo: int, n: nat)
    requires WellKept(l, limits)
    ensures |Group(l.windows, InMinutes(k, lo, lo + n - 1))| <= n
  {
    var g := Group(l.windows, InMinutes(k, lo, lo + n - 1));
    forall v, w | v in g && w in g && MinuteIndex(v.1) - lo == MinuteIndex(w.1) - lo ensures v == w {
      WindowsApart(l, limits, v, w);
    }
    AtMost(g, (w: (KeyId, DateTime)) => MinuteIndex(w.1) - lo, n);
  }

  /** How many minutes a closed span touches. */
  lemma MinutesTouched(from: int, span: nat)
    ensures (from + span) / MICROS_PER_MINUTE - from / MICROS_PER_MINUTE + 1 <= span / MICROS_PER_MINUTE + 2
    ensures from / MICROS_PER_MINUTE <= (from + span) / MICROS_PER_MINUTE
  {
  }

  lemma WindowsHold(l: Ledger, limits: Limits, k: KeyId, lo: int, n: nat)
    requires WellKept(l, limits)
    ensures GroupSum(l.windows, InMinutes(k, lo, lo + n - 1)) <= n * Cap(limits, k)
  {
    var g := Group(l.windows, InMinutes(k, lo, lo + n - 1));
    FewWindows(l, limits, k, lo, n);
    SumBelow(l.windows, g, Cap(limits, k));
    Scale(|g|, n, Cap(limits, k));
  }

  /** Sliding bound: whatever the order of the timestamps, at most (span / 1 min + 2) * limit calls of
      a key are accepted with timestamps in any closed span of the time line. */
  lemma SlidingBound(calls: seq<Call>, limits: Limits, k: KeyId, from: int, span: nat)
    requires AllValid(calls)
    ensures Count(Accepted(calls, limits), InSpan(k, from, span)) <= (span / MICROS_PER_MINUTE + 2) * Cap(limits, k)
  {
    var lo, hi := from / MICROS_PER_MINUTE, (from + span) / MICROS_PER_MINUTE;
    SpanIsInWindows(calls, limits, k, from, span);
    RunWellKept(calls, limits);
    MinutesTouched(from, span);
    WindowsHold(Run(calls, limits), limits, k, lo, hi - lo + 1);
    Scale(hi - lo + 1, span / MICROS_PER_MINUTE + 2, Cap(limits, k));
  }

  // ---------------------------------------------------------------- the tables

  class UsageTables {
    var windows: map<(KeyId, DateTime), nat>
    var daily: map<(KeyId, Date), nat>
    var monthly: map<(KeyId, Date), nat>
    var lastUsed: map<KeyId, DateTime>

    ghost function View(): Ledger
      reads this
    {
      Ledger(windows, daily, monthly, lastUsed)
    }

    constructor ()
      ensures View() == EMPTY
    {
      windows, daily, monthly, lastUsed := map[], map[], map[], map[];
    }

    /** One call.  The window is counted up first; finding it over the limit rolls the count back. */
    method EnforceRateLimitAndTrack(key: KeyId, limit: int, now: DateTime) returns (accepted: bool)
      modifies this
      ensures accepted == Admitted(old(View()), limit, Call(key, now))
      ensures View() == Track(old(View()), limit, Call(key, now))
    {
      var saved := windows;
      var window := (key, MinuteFloor(now));
      windows := windows[window := (if window in windows then windows[window] else 0) + 1];
      if windows[window] > limit {
        windows := saved;
        return false;
      }
      var day, month := (key, now.date), (key, MonthFloor(now.date));
      daily := daily[day := (if day in daily then daily[day] else 0) + 1];
      monthly := monthly[month := (if month in monthly then monthly[month] else 0) + 1];
      lastUsed := lastUsed[key := now];
      accepted := true;
    }
  }
}
