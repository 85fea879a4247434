/** The in-process stale-while-revalidate cache of web/src/lib/api.ts: a bounded,
    insertion-ordered map of responses, and a table of the refreshes in flight.

    The first half is the specification on values: the ordered map, and the
    transition system whose steps are the synchronous stretches of the code
    between two awaits.  The second half is the class with the two mutable maps;
    each method is proved to take exactly the corresponding step. */
module SwrCache {
  import opened Basics

  type Json = string

  const MAX_ENTRIES := 400
  const API_BASE_URL := "http://localhost:8000/api"

  datatype Profile = Profile(ttlMs: nat, swrMs: nat)

  function ResolveCacheProfile(endpoint: string): Option<Profile> {
    if "/admin" <= endpoint || "/developer" <= endpoint then None
    else if "/categories" <= endpoint || "/taxonomy/" <= endpoint || "/tags" <= endpoint then
      Some(Profile(10 * 60 * 1000, 60 * 60 * 1000))
    else if "/rankings/" <= endpoint then Some(Profile(30 * 1000, 5 * 60 * 1000))
    else if "/skills/" <= endpoint then Some(Profile(60 * 1000, 15 * 60 * 1000))
    else if "/skills" <= endpoint then Some(Profile(20 * 1000, 2 * 60 * 1000))
    else if "/packs" <= endpoint then Some(Profile(60 * 1000, 5 * 60 * 1000))
    else if "/plugins" <= endpoint then Some(Profile(60 * 1000, 5 * 60 * 1000))
    else Some(Profile(30 * 1000, 2 * 60 * 1000))
  }

  predicate Cacheable(endpoint: string) { ResolveCacheProfile(endpoint).Some? }

  /** The key of a cached request; only GET requests are ever cached. */
  function KeyOf(endpoint: string): string { "GET:" + API_BASE_URL + endpoint }

  lemma KeyOfInjective(a: string, b: string)
    requires KeyOf(a) == KeyOf(b)
    ensures a == b
  {
    var n := |"GET:" + API_BASE_URL|;
    assert KeyOf(a)[n..] == a && KeyOf(b)[n..] == b;
  }

  // ---------------------------------------------------------------- ordered map

  datatype Entry = Entry(data: Json, freshUntil: int, staleUntil: int)
  datatype Slot = Slot(key: string, entry: Entry)

  predicate DistinctKeys(m: seq<Slot>) {
    forall i, j | 0 <= i < j < |m| :: m[i].key != m[j].key
  }

  predicate HasKey(m: seq<Slot>, key: string) {
    exists i | 0 <= i < |m| :: m[i].key == key
  }

  /** Position of a key; the length of the map when it is absent. */
  function IndexOf(m: seq<Slot>, key: string): (i: nat)
    ensures i <= |m|
    ensures i < |m| ==> m[i].key == key
    ensures forall j | 0 <= j < i :: m[j].key != key
  {
    if m == [] then 0 else if m[0].key == key then 0 else 1 + IndexOf(m[1..], key)
  }

  /** `Map.set`: overwriting keeps the place of insertion. */
  function Put(m: seq<Slot>, s: Slot): seq<Slot> {
    var i := IndexOf(m, s.key);
    if i < |m| then m[i := s] else m + [s]
  }

  /** `Map.delete`. */
  function Remove(m: seq<Slot>, key: string): seq<Slot> {
    var i := IndexOf(m, key);
    if i < |m| then m[..i] + m[i + 1..] else m
  }

  predicate Dead(s: Slot, now: int) { s.entry.staleUntil <= now }

  function DropDead(m: seq<Slot>, now: int): seq<Slot> {
    if m == [] then []
    else if Dead(m[0], now) then DropDead(m[1..], now)
    else [m[0]] + DropDead(m[1..], now)
  }

  /** The trimming loop; an empty oldest key stops it, as in the source. */
  function TrimOldest(m: seq<Slot>): seq<Slot> {
    if |m| <= MAX_ENTRIES || m[0].key == "" then m else TrimOldest(m[1..])
  }

  function Pruned(m: seq<Slot>, now: int): seq<Slot> { TrimOldest(DropDead(m, now)) }

  function NewSlot(endpoint: string, data: Json, now: int): Slot
    requires Cacheable(endpoint)
  {
    var p := ResolveCacheProfile(endpoint).value;
    Slot(KeyOf(endpoint), Entry(data, now + p.ttlMs, now + p.ttlMs + p.swrMs))
  }

  function Written(m: seq<Slot>, s: Slot, now: int): seq<Slot> { Pruned(Put(m, s), now) }

  // ---------------------------------------------------------------- transition system

  /** A refresh is fetching, then settled (its value written, or its error seen),
      then done once the `finally` callback has run. */
  datatype Phase = Fetching | Settled | Done
  datatype Refresh = Refresh(endpoint: string, phase: Phase)

  datatype State = State(slots: seq<Slot>, inflight: map<string, nat>, refreshes: seq<Refresh>)

  datatype Event =
    | Request(endpoint: string, now: int)
    | Resolve(id: nat, data: Json, now: int)
    | Reject(id: nat)
    | Finally(id: nat)

  /** What the caller of a request gets at once; `refresh` is the refresh it joined or started. */
  datatype Reply =
    | Fresh(data: Json)
    | Stale(data: Json, refresh: nat)
    | Await(refresh: nat)

  datatype Lookup = Miss | FreshHit(data: Json) | StaleHit(data: Json)

  function Find(m: seq<Slot>, key: string, now: int): Lookup {
    var i := IndexOf(m, key);
    if i == |m| then Miss
    else if now <= m[i].entry.freshUntil then FreshHit(m[i].entry.data)
    else if now <= m[i].entry.staleUntil then StaleHit(m[i].entry.data)
    else Miss
  }

  /** Reading a key drops its entry when it is past its stale time. */
  function AfterRead(m: seq<Slot>, key: string, now: int): seq<Slot> {
    if Find(m, key, now) == Miss then Remove(m, key) else m
  }

  /** Join the refresh in flight for the endpoint, or start one. */
  function JoinOrStart(s: State, endpoint: string): (State, nat) {
    var key := KeyOf(endpoint);
    if key in s.inflight then (s, s.inflight[key])
    else
      var id := |s.refreshes|;
      (s.(inflight := s.inflight[key := id], refreshes := s.refreshes + [Refresh(endpoint, Fetching)]), id)
  }

  function OnRequest(s: State, endpoint: string, now: int): (State, Reply) {
    var key := KeyOf(endpoint);
    var s1 := s.(slots := AfterRead(s.slots, key, now));
    match Find(s.slots, key, now)
    case FreshHit(d) => (s1, Fresh(d))
    case StaleHit(d) => var (s2, id) := JoinOrStart(s1, endpoint); (s2, Stale(d, id))
    case Miss => var (s2, id) := JoinOrStart(s1, endpoint); (s2, Await(id))
  }

  function WithPhase(s: State, id: nat, phase: Phase): State
    requires id < |s.refreshes|
  {
    s.(refreshes := s.refreshes[id := s.refreshes[id].(phase := phase)])
  }

  predicate Enabled(s: State, e: Event) {
    match e
    case Request(endpoint, _) => Cacheable(endpoint)
    case Resolve(id, _, _) => id < |s.refreshes| && s.refreshes[id].phase == Fetching
        && Cacheable(s.refreshes[id].endpoint)
    case Reject(id) => id < |s.refreshes| && s.refreshes[id].phase == Fetching
    case Finally(id) => id < |s.refreshes| && s.refreshes[id].phase == Settled
  }

  function Step(s: State, e: Event): State
    requires Enabled(s, e)
  {
    match e
    case Request(endpoint, now) => OnRequest(s, endpoint, now).0
    case Resolve(id, data, now) =>
      WithPhase(s.(slots := Written(s.slots, NewSlot(s.refreshes[id].endpoint, data, now), now)), id, Settled)
    case Reject(id) => WithPhase(s, id, Settled)
    case Finally(id) =>
      WithPhase(s.(inflight := s.inflight - {KeyOf(s.refreshes[id].endpoint)}), id, Done)
  }

  const INIT := State([], map[], [])

  predicate Legal(tr: seq<Event>)
    decreases |tr|, 0
  {
    tr == [] || (Legal(tr[..|tr| - 1]) && Enabled(Run(tr[..|tr| - 1]), tr[|tr| - 1]))
  }

  /** The state after a run: any interleaving of requests, fetch outcomes, callbacks and clock readings. */
  function Run(tr: seq<Event>): State
    requires Legal(tr)
    decreases |tr|, 1
  {
    if tr == [] then INIT else Step(Run(tr[..|tr| - 1]), tr[|tr| - 1])
  }

  // ---------------------------------------------------------------- ordered map facts

  lemma PutKeepsDistinct(m: seq<Slot>, s: Slot)
    requires DistinctKeys(m)
    ensures DistinctKeys(Put(m, s))
    ensures forall t | t in Put(m, s) :: t == s || (t in m && t.key != s.key)
    ensures forall t | t in m && t.key != s.key :: t in Put(m, s)
    ensures s in Put(m, s)
    ensures |Put(m, s)| <= |m| + 1
  {
    var i := IndexOf(m, s.key);
    var p := Put(m, s);
    if i < |m| {
      assert p[i] == s;
      forall t | t in m && t.key != s.key ensures t in p {
        var j :| 0 <= j < |m| && m[j] == t;
        assert p[j] == t;
      }
    } else {
      assert p[|m|] == s;
      forall t | t in m ensures t in p {
        var j :| 0 <= j < |m| && m[j] == t;
        assert p[j] == t;
      }
    }
  }

  lemma RemoveMembers(m: seq<Slot>, key: string, t: Slot)
    requires DistinctKeys(m)
    ensures t in Remove(m, key) <==> t in m && t.key != key
  {
    var i, r := IndexOf(m, key), Remove(m, key);
    if i < |m| {
      if t in m && t.key != key {
        var j :| 0 <= j < |m| && m[j] == t;
        assert t == if j < i then r[j] else r[j - 1];
      }
      if t in r {
        var j :| 0 <= j < |r| && r[j] == t;
        assert t == if j < i then m[j] else m[j + 1];
      }
    }
  }

  lemma RemoveKeepsDistinct(m: seq<Slot>, key: string)
    requires DistinctKeys(m)
    ensures DistinctKeys(Remove(m, key)) && |Remove(m, key)| <= |m|
    ensures forall t :: t in Remove(m, key) <==> t in m && t.key != key
  {
    forall t ensures t in Remove(m, key) <==> t in m && t.key != key {
      RemoveMembers(m, key, t);
    }
    var i, r := IndexOf(m, key), Remove(m, key);
    forall a, b | 0 <= a < b < |r| ensures r[a].key != r[b].key {
      assert r[a] == m[if a < i then a else a + 1] && r[b] == m[if b < i then b else b + 1];
    }
  }

  /** Dropping the dead slots keeps exactly the live ones, in order. */
  lemma {:induction false} DropDeadKeeps(m: seq<Slot>, now: int)
    requires DistinctKeys(m)
    ensures DistinctKeys(DropDead(m, now)) && |DropDead(m, now)| <= |m|
    ensures forall t :: t in DropDead(m, now) <==> t in m && !Dead(t, now)
  {
    if m == [] {
    } else {
      DropDeadKeeps(m[1..], now);
      var rest := DropDead(m[1..], now);
      assert m == [m[0]] + m[1..];
      forall i | 0 <= i < |rest| ensures rest[i].key != m[0].key {
        assert rest[i] in m[1..];
      }
    }
  }

  /** With at most one slot too many and no empty key, trimming removes at most the oldest slot. */
  lemma TrimOne(m: seq<Slot>)
    requires |m| <= MAX_ENTRIES + 1 && forall s | s in m :: s.key != ""
    ensures TrimOldest(m) == if |m| <= MAX_ENTRIES then m else m[1..]
  {
  }

  ghost predicate Bounded(m: seq<Slot>) {
    && DistinctKeys(m)
    && |m| <= MAX_ENTRIES
    && forall s | s in m :: s.key != ""
  }

  /** What a write leaves before trimming. */
  lemma LiveAfterPut(m: seq<Slot>, s: Slot, now: int)
    requires Bounded(m) && s.key != "" && !Dead(s, now)
    ensures var live := DropDead(Put(m, s), now);
            && DistinctKeys(live) && |live| <= MAX_ENTRIES + 1 && s in live
            && (forall t | t in live :: t.key != "" && (t == s || (t in m && t.key != s.key && !Dead(t, now))))
            && (forall t | t in m && t.key != s.key && !Dead(t, now) :: t in live)
  {
    PutKeepsDistinct(m, s);
    DropDeadKeeps(Put(m, s), now);
  }

  lemma {:induction false} LastLive(m: seq<Slot>, s: Slot, now: int)
    requires !Dead(s, now)
    ensures DropDead(m + [s], now) == DropDead(m, now) + [s]
  {
    if m == [] {
      assert m + [s] == [s];
      assert [s][1..] == [];
    } else {
      assert (m + [s])[1..] == m[1..] + [s];
      LastLive(m[1..], s, now);
    }
  }

  /** A 401st live slot means the key was new, so it stands last, not first. */
  lemma NewestStandsLast(m: seq<Slot>, s: Slot, now: int)
    requires Bounded(m) && s.key != "" && !Dead(s, now) && |DropDead(Put(m, s), now)| == MAX_ENTRIES + 1
    ensures DropDead(Put(m, s), now)[MAX_ENTRIES] == s
  {
    PutKeepsDistinct(m, s);
    DropDeadKeeps(Put(m, s), now);
    assert Put(m, s) == m + [s];
    LastLive(m, s, now);
  }

  lemma TailOfDistinct(m: seq<Slot>, s: Slot)
    requires DistinctKeys(m) && |m| >= 2 && m[|m| - 1] == s
    ensures DistinctKeys(m[1..]) && s in m[1..] && (forall t | t in m[1..] :: t in m)
            && (forall t | t in m && t !in m[1..] :: t == m[0])
  {
    assert m == [m[0]] + m[1..];
    assert s == m[1..][|m| - 2];
  }

  /** Capacity of the cache.  After a write of an entry that is not already dead there are at most
      400 entries; the key just written is there with its new entry; nothing else was added or
      changed; and every entry that went was dead or was the earliest-inserted live one, of which
      at most one goes, and only when 401 were live. */
  lemma WriteCapacity(m: seq<Slot>, s: Slot, now: int)
    requires Bounded(m) && s.key != "" && !Dead(s, now)
    ensures var w := Written(m, s, now);
            && Bounded(w)
            && s in w
            && (forall t | t in w :: t == s || (t in m && t.key != s.key && !Dead(t, now)))
    ensures var w := Written(m, s, now); var live := DropDead(Put(m, s), now);
            && w == (if |live| <= MAX_ENTRIES then live else live[1..])
            && (forall t | t in m && t.key != s.key && t !in w ::
                  Dead(t, now) || (|live| == MAX_ENTRIES + 1 && t == live[0]))
  {
    LiveAfterPut(m, s, now);
    var live := DropDead(Put(m, s), now);
    TrimOne(live);
    if |live| == MAX_ENTRIES + 1 {
      NewestStandsLast(m, s, now);
      TailOfDistinct(live, s);
    }
  }

  /** Overwriting a key keeps its place; a new key goes last. */
  lemma WritePlace(m: seq<Slot>, s: Slot)
    requires DistinctKeys(m)
    ensures HasKey(m, s.key) ==>
              && |Put(m, s)| == |m|
              && (forall i | 0 <= i < |m| :: Put(m, s)[i] == (if m[i].key == s.key then s else m[i]))
    ensures !HasKey(m, s.key) ==> Put(m, s) == m + [s]
  {
  }

  // ---------------------------------------------------------------- invariants of every run

  predicate Running(s: State, id: nat, key: string) {
    id < |s.refreshes| && s.refreshes[id].phase != Done && KeyOf(s.refreshes[id].endpoint) == key
  }

  /** The table of refreshes in flight holds, for each key, exactly the running one. */
  ghost predicate TableExact(s: State) {
    forall key, id: nat :: Running(s, id, key) <==> key in s.inflight && s.inflight[key] == id
  }

  ghost predicate Inv(s: State) {
    && TableExact(s)
    && Bounded(s.slots)
    && forall id | 0 <= id < |s.refreshes| :: Cacheable(s.refreshes[id].endpoint)
  }

  lemma StepKeepsTable(s: State, e: Event)
    requires TableExact(s) && Enabled(s, e)
    ensures TableExact(Step(s, e))
  {
    var t := Step(s, e);
    forall key, id: nat ensures Running(t, id, key) <==> key in t.inflight && t.inflight[key] == id {
      assert Running(s, id, key) <==> key in s.inflight && s.inflight[key] == id;
      if e.Finally? {
        var done := KeyOf(s.refreshes[e.id].endpoint);
        assert Running(s, e.id, done);
      } else if e.Request? && id == |s.refreshes| {
        assert !Running(s, id, key);
      }
    }
  }

  lemma StepKeepsBounded(s: State, e: Event)
    requires Bounded(s.slots) && Enabled(s, e)
    ensures Bounded(Step(s, e).slots)
  {
    if e.Request? {
      RemoveKeepsDistinct(s.slots, KeyOf(e.endpoint));
    } else if e.Resolve? {
      WriteCapacity(s.slots, NewSlot(s.refreshes[e.id].endpoint, e.data, e.now), e.now);
    }
  }

  lemma StepKeepsInv(s: State, e: Event)
    requires Inv(s) && Enabled(s, e)
    ensures Inv(Step(s, e))
  {
    StepKeepsTable(s, e);
    StepKeepsBounded(s, e);
  }

  lemma {:induction false} RunKeepsInv(tr: seq<Event>)
    requires Legal(tr)
    ensures Inv(Run(tr))
  {
    if tr == [] {
    } else {
      var pre := tr[..|tr| - 1];
      RunKeepsInv(pre);
      StepKeepsInv(Run(pre), tr[|tr| - 1]);
    }
  }

  /** Single flight: under every interleaving, two running refreshes never share a key, and the
      table in flight maps a key to a refresh exactly when that refresh runs for that key. */
  lemma SingleFlight(tr: seq<Event>, a: nat, b: nat, key: string)
    requires Legal(tr)
    ensures Running(Run(tr), a, key) && Running(Run(tr), b, key) ==> a == b
    ensures Running(Run(tr), a, key) <==> key in Run(tr).inflight && Run(tr).inflight[key] == a
    ensures |Run(tr).slots| <= MAX_ENTRIES
  {
    RunKeepsInv(tr);
    assert Running(Run(tr), b, key) <==> key in Run(tr).inflight && Run(tr).inflight[key] == b;
  }

  // ---------------------------------------------------------------- provenance and age

  /** One completed fetch: which endpoint, what it returned, and when its `then` callback ran. */
  datatype Fetched = Fetched(endpoint: string, data: Json, at: int)

  /** The fetches of a run that completed, in order. */
  function Completed(tr: seq<Event>): seq<Fetched>
    requires Legal(tr)
  {
    if tr == [] then []
    else
      var pre, e := tr[..|tr| - 1], tr[|tr| - 1];
      if e.Resolve? then Completed(pre) + [Fetched(Run(pre).refreshes[e.id].endpoint, e.data, e.now)]
      else Completed(pre)
  }

  /** The most recent completed fetch of an endpoint. */
  function Latest(log: seq<Fetched>, endpoint: string): (r: Option<Fetched>)
    ensures r.Some? ==> r.value in log && r.value.endpoint == endpoint
  {
    if log == [] then None
    else if log[|log| - 1].endpoint == endpoint then Some(log[|log| - 1])
    else Latest(log[..|log| - 1], endpoint)
  }

  /** The slot holds what the latest completed fetch of its endpoint returned. */
  ghost predicate HoldsLatest(log: seq<Fetched>, slot: Slot) {
    exists endpoint :: HoldsLatestOf(log, endpoint, slot)
  }

  ghost predicate HoldsLatestOf(log: seq<Fetched>, endpoint: string, slot: Slot) {
    && Cacheable(endpoint)
    && Latest(log, endpoint).Some?
    && var f := Latest(log, endpoint).value;
       slot == NewSlot(endpoint, f.data, f.at)
  }

  lemma LogGrows(log: seq<Fetched>, f: Fetched, slot: Slot)
    requires HoldsLatest(log, slot) && slot.key != KeyOf(f.endpoint)
    ensures HoldsLatest(log + [f], slot)
  {
    var endpoint :| HoldsLatestOf(log, endpoint, slot);
    assert (log + [f])[..|log|] == log;
    assert HoldsLatestOf(log + [f], endpoint, slot);
  }

  lemma ResolveKeepsLatest(s: State, id: nat, data: Json, now: int, log: seq<Fetched>)
    requires Inv(s) && Enabled(s, Resolve(id, data, now))
    requires forall slot | slot in s.slots :: HoldsLatest(log, slot)
    ensures forall slot | slot in Step(s, Resolve(id, data, now)).slots ::
              HoldsLatest(log + [Fetched(s.refreshes[id].endpoint, data, now)], slot)
  {
    var f := Fetched(s.refreshes[id].endpoint, data, now);
    var made := NewSlot(f.endpoint, data, now);
    WriteCapacity(s.slots, made, now);
    forall slot | slot in Step(s, Resolve(id, data, now)).slots ensures HoldsLatest(log + [f], slot) {
      if slot == made {
        assert HoldsLatestOf(log + [f], f.endpoint, slot);
      } else {
        LogGrows(log, f, slot);
      }
    }
  }

  lemma StepKeepsLatest(s: State, e: Event, log: seq<Fetched>)
    requires Inv(s) && Enabled(s, e)
    requires forall slot | slot in s.slots :: HoldsLatest(log, slot)
    ensures var log' := if e.Resolve? then log + [Fetched(s.refreshes[e.id].endpoint, e.data, e.now)] else log;
            forall slot | slot in Step(s, e).slots :: HoldsLatest(log', slot)
  {
    match e
    case Resolve(id, data, now) => ResolveKeepsLatest(s, id, data, now, log);
    case Request(endpoint, _) => RemoveKeepsDistinct(s.slots, KeyOf(endpoint));
    case _ =>
  }

  lemma {:induction false} SlotsHoldLatest(tr: seq<Event>)
    requires Legal(tr)
    ensures forall slot | slot in Run(tr).slots :: HoldsLatest(Completed(tr), slot)
  {
    if tr == [] {
    } else {
      var pre := tr[..|tr| - 1];
      RunKeepsInv(pre);
      SlotsHoldLatest(pre);
      StepKeepsLatest(Run(pre), tr[|tr| - 1], Completed(pre));
    }
  }

  /** Provenance and age.  Whatever run came before, a value served from the cache is the value of
      the latest completed fetch of that same endpoint; it is at most ttl old when the request touches
      no refresh, between ttl and ttl + swr old when it is served stale; and every other answer than a
      fresh one comes with a running refresh of that endpoint. */
  lemma ServedValue(tr: seq<Event>, endpoint: string, now: int)
    requires Legal(tr) && Cacheable(endpoint)
    ensures var p := ResolveCacheProfile(endpoint).value;
            var latest := Latest(Completed(tr), endpoint);
            var (after, reply) := OnRequest(Run(tr), endpoint, now);
            && (reply.Fresh? ==>
                  && after == Run(tr)
                  && latest.Some? && reply.data == latest.value.data
                  && now - latest.value.at <= p.ttlMs)
            && (reply.Stale? ==>
                  && latest.Some? && reply.data == latest.value.data
                  && p.ttlMs < now - latest.value.at <= p.ttlMs + p.swrMs)
            && (!reply.Fresh? ==> Running(after, reply.refresh, KeyOf(endpoint)))
  {
    var s := Run(tr);
    var key := KeyOf(endpoint);
    RunKeepsInv(tr);
    SlotsHoldLatest(tr);
    ReplyIsRunning(s, endpoint, now);
    var i := IndexOf(s.slots, key);
    if i < |s.slots| {
      assert HoldsLatest(Completed(tr), s.slots[i]);
      var other :| HoldsLatestOf(Completed(tr), other, s.slots[i]);
      KeyOfInjective(other, endpoint);
    }
  }

  lemma ReplyIsRunning(s: State, endpoint: string, now: int)
    requires TableExact(s) && Cacheable(endpoint)
    ensures var (after, reply) := OnRequest(s, endpoint, now);
            !reply.Fresh? ==> Running(after, reply.refresh, KeyOf(endpoint))
  {
    StepKeepsTable(s, Request(endpoint, now));
  }

  /** A failed refresh leaves the cache as it was, and after its `finally` the key is free:
      the next request that finds no fresh entry starts a new refresh. */
  lemma RejectionReleases(s: State, id: nat, now: int)
    requires Inv(s) && Enabled(s, Reject(id))
    ensures var endpoint := s.refreshes[id].endpoint;
            var failed := Step(s, Reject(id));
            && failed.slots == s.slots && failed.inflight == s.inflight
            && Enabled(failed, Finally(id))
            && var free := Step(failed, Finally(id));
               && free.slots == s.slots
               && free.inflight == s.inflight - {KeyOf(endpoint)}
               && (forall a: nat :: !Running(free, a, KeyOf(endpoint)))
               && var reply := OnRequest(free, endpoint, now).1;
                  (!reply.Fresh? ==> reply.refresh == |free.refreshes|)
  {
    var endpoint := s.refreshes[id].endpoint;
    var failed := Step(s, Reject(id));
    StepKeepsTable(s, Reject(id));
    StepKeepsTable(failed, Finally(id));
    var free := Step(failed, Finally(id));
    assert KeyOf(endpoint) !in free.inflight;
  }

  /** Requests under /admin and /developer leave no trace in the cache of any run. */
  lemma PrivateNeverCached(tr: seq<Event>, endpoint: string)
    requires Legal(tr) && ("/admin" <= endpoint || "/developer" <= endpoint)
    ensures !HasKey(Run(tr).slots, KeyOf(endpoint)) && KeyOf(endpoint) !in Run(tr).inflight
  {
    RunKeepsInv(tr);
    var s := Run(tr);
    var key := KeyOf(endpoint);
    SlotsHoldLatest(tr);
    if HasKey(s.slots, key) {
      var i :| 0 <= i < |s.slots| && s.slots[i].key == key;
      assert HoldsLatest(Completed(tr), s.slots[i]);
      var other :| HoldsLatestOf(Completed(tr), other, s.slots[i]);
      KeyOfInjective(other, endpoint);
      assert false;
    }
    if key in s.inflight {
      var id := s.inflight[key];
      assert Running(s, id, key);
      KeyOfInjective(s.refreshes[id].endpoint, endpoint);
      assert false;
    }
  }

  // ---------------------------------------------------------------- the mutable maps

  class ServerCache {
    var slots: seq<Slot>
    var inflight: map<string, nat>
    var refreshes: seq<Refresh>

    ghost function View(): State
      reads this
    {
      State(slots, inflight, refreshes)
    }

    ghost predicate Valid()
      reads this
    {
      Inv(View())
    }

    constructor ()
      ensures View() == INIT && Valid()
    {
      slots, inflight, refreshes := [], map[], [];
    }

    method Prune(now: int)
      modifies this`slots
      ensures slots == Pruned(old(slots), now)
    {
      var i := 0;
      while i < |slots|
        invariant 0 <= i <= |slots|
        invariant slots[..i] + DropDead(slots[i..], now) == DropDead(old(slots), now)
        decreases |slots| - i
      {
        ghost var before, rest := slots[..i], slots[i..];
        if Dead(slots[i], now) {
          slots := slots[..i] + slots[i + 1..];
          assert slots[..i] == before && slots[i..] == rest[1..];
        } else {
          assert slots[..i + 1] == before + [rest[0]] && slots[i + 1..] == rest[1..];
          assert slots[..i + 1] + DropDead(rest[1..], now) == before + ([rest[0]] + DropDead(rest[1..], now));
          i := i + 1;
        }
      }
      assert slots == slots[..i] + DropDead(slots[i..], now);
      while |slots| > MAX_ENTRIES
        invariant TrimOldest(slots) == Pruned(old(slots), now)
        decreases |slots|
      {
        var oldest := slots[0].key;
        if oldest == "" { break; }
        slots := slots[1..];
      }
    }

    method Read(key: string, now: int) returns (hit: Lookup)
      modifies this`slots
      ensures hit == Find(old(slots), key, now)
      ensures slots == AfterRead(old(slots), key, now)
    {
      var i := IndexOf(slots, key);
      if i == |slots| { return Miss; }
      var cached := slots[i].entry;
      if now <= cached.freshUntil { return FreshHit(cached.data); }
      if now <= cached.staleUntil { return StaleHit(cached.data); }
      slots := Remove(slots, key);
      hit := Miss;
    }

    method Write(s: Slot, now: int)
      modifies this`slots
      ensures slots == Written(old(slots), s, now)
    {
      slots := Put(slots, s);
      Prune(now);
    }

    method RunRefresh(endpoint: string) returns (id: nat)
      modifies this`inflight, this`refreshes
      ensures (View(), id) == JoinOrStart(old(View()), endpoint)
    {
      var key := KeyOf(endpoint);
      if key in inflight { return inflight[key]; }
      id := |refreshes|;
      refreshes := refreshes + [Refresh(endpoint, Fetching)];
      inflight := inflight[key := id];
    }

    /** The synchronous part of a request. */
    method Request(endpoint: string, now: int) returns (reply: Reply)
      requires Valid() && Cacheable(endpoint)
      modifies this
      ensures Valid()
      ensures (View(), reply) == OnRequest(old(View()), endpoint, now)
    {
      StepKeepsTable(View(), Event.Request(endpoint, now));
      StepKeepsBounded(View(), Event.Request(endpoint, now));
      var cached := Read(KeyOf(endpoint), now);
      match cached
      case FreshHit(d) => return Fresh(d);
      case StaleHit(d) =>
        var id := RunRefresh(endpoint);
        return Stale(d, id);
      case Miss =>
        var id := RunRefresh(endpoint);
        return Await(id);
    }

    /** The `then` callback of a refresh whose fetch succeeded. */
    method OnResolve(id: nat, data: Json, now: int)
      requires Valid() && Enabled(View(), Resolve(id, data, now))
      modifies this
      ensures Valid()
      ensures View() == Step(old(View()), Resolve(id, data, now))
    {
      StepKeepsTable(View(), Resolve(id, data, now));
      StepKeepsBounded(View(), Resolve(id, data, now));
      Write(NewSlot(refreshes[id].endpoint, data, now), now);
      refreshes := refreshes[id := refreshes[id].(phase := Settled)];
    }

    /** The `finally` callback, after success or failure. */
    method OnFinally(id: nat)
      requires Valid() && Enabled(View(), Finally(id))
      modifies this
      ensures Valid()
      ensures View() == Step(old(View()), Finally(id))
    {
      StepKeepsTable(View(), Finally(id));
      inflight := inflight - {KeyOf(refreshes[id].endpoint)};
      refreshes := refreshes[id := refreshes[id].(phase := Done)];
    }
  }
}
