/**
 The two cache tiers of indexer/src/cacheLayer.js shared by several instances: each instance's LRU map (L1),
 one Redis (L2) and the invalidation channel.

 A `cacheGet` that misses L1, a `cacheSet` and a `cacheInvalidate` each await Redis, so each is split into
 the pieces between two awaits; the pieces of different calls interleave freely.  `flights` holds the
 calls that are waiting.  Times are milliseconds on one clock.
 */
module TwoTierCache {
  import opened Options
  import opened Lru

  /* ----- TTL table ----- */

  datatype Ttl = Ttl(l1: int, l2: int)

  function GetTTL(kind: string): (t: Ttl)
    ensures t.l1 >= 0 && t.l2 > 0
  {
    match kind
    case "events_list" => Ttl(5, 30)
    case "events_single" => Ttl(10, 60)
    case "contracts_list" => Ttl(30, 300)
    case "contracts_single" => Ttl(60, 900)
    case "search" => Ttl(0, 10)
    case "stats" => Ttl(60, 300)
    case _ => Ttl(30, 60)
  }

  /** The third argument of `cacheSet`: seconds, or the name of a cache type. */
  datatype TtlOrType = Seconds(n: int) | Type(name: string)

  function L1Seconds(t: TtlOrType): int {
    match t case Seconds(n) => n case Type(name) => GetTTL(name).l1
  }

  function L2Seconds(t: TtlOrType): int {
    match t case Seconds(n) => n case Type(name) => GetTTL(name).l2
  }

  function StoredType(t: TtlOrType): string {
    match t case Seconds(_) => "default" case Type(name) => name
  }

  /* ----- state ----- */

  /** A cached value with the index of the `cacheSet` call that wrote it (a proof tag, not stored by the code). */
  datatype Stored = Stored(payload: string, origin: nat)

  datatype Write = Write(key: string, payload: string, ttl: TtlOrType, at: int)

  datatype RedisEntry = RedisEntry(stored: Stored, computeMs: int, kind: string, expiresAt: int)

  datatype Message = DropKey(key: string, origin: string) | DropPattern(pattern: string, origin: string)

  datatype Flight =
    | Filling(inst: string, key: string, entry: RedisEntry, since: int)
    | Storing(key: string, stored: Stored, computeMs: int, kind: string, l2: int, since: int)
    | Purging(inst: string, key: string, redisDone: bool)
    | Sweeping(inst: string, pattern: string, swept: set<string>)  // `swept` were dropped from Redis so far

  datatype State = State(
    now: int,
    l1: map<string, seq<Slot<Stored>>>,
    redis: map<string, RedisEntry>,
    inbox: map<string, seq<Message>>,
    flights: map<nat, Flight>,
    writes: seq<Write>,
    purged: map<string, nat>)  // per key, how many writes had been issued when Redis last dropped it

  const L1_MAX: int := 2000

  function Start(instances: set<string>): State {
    State(0, map i | i in instances :: [], map[], map i | i in instances :: [], map[], [], map[])
  }

  /* ----- steps ----- */

  datatype Step =
    | Tick(ms: nat)
    | ReadL1(inst: string, key: string)
    | BeginFill(id: nat, inst: string, key: string)
    | EndFill(id: nat)
    | BeginSet(id: nat, inst: string, key: string, payload: string, ttl: TtlOrType, computeMs: int)
    | EndSet(id: nat)
    | BeginPurge(id: nat, inst: string, key: string)
    | PurgeRedis(id: nat)
    | EndPurge(id: nat)
    | BeginSweep(id: nat, inst: string, pattern: string)
    | SweepRound(id: nat, keys: set<string>)   // the DEL of the keys that one SCAN reply has listed
    | EndSweep(id: nat)
    | Deliver(inst: string)
    | Fail(id: nat)   // Redis rejected the call: the code logs and gives up

  /** `latency` bounds how long a call waits for Redis before its answer is used. */
  predicate Enabled(st: State, step: Step, latency: nat) {
    match step
    case Tick(_) => true
    case ReadL1(i, _) => i in st.l1
    case BeginFill(id, i, key) =>
      id !in st.flights && i in st.l1 && key in st.redis && st.now <= st.redis[key].expiresAt
    case EndFill(id) =>
      && id in st.flights && st.flights[id].Filling? && st.flights[id].inst in st.l1
      && st.now <= st.flights[id].since + latency
    case BeginSet(id, i, _, _, _, _) => id !in st.flights && i in st.l1
    case EndSet(id) =>
      id in st.flights && st.flights[id].Storing? && st.now <= st.flights[id].since + latency
    case BeginPurge(id, i, _) => id !in st.flights && i in st.l1
    case PurgeRedis(id) => id in st.flights && st.flights[id].Purging? && !st.flights[id].redisDone
    case EndPurge(id) => id in st.flights && st.flights[id].Purging? && st.flights[id].redisDone
    case BeginSweep(id, i, _) => id !in st.flights && i in st.l1
    case SweepRound(id, keys) =>
      id in st.flights && st.flights[id].Sweeping? && forall k :: k in keys ==> Glob(st.flights[id].pattern, k)
    case EndSweep(id) => id in st.flights && st.flights[id].Sweeping?
    case Deliver(i) => i in st.l1 && i in st.inbox && st.inbox[i] != []
    case Fail(id) => id in st.flights
  }

  function AfterMessage(s: seq<Slot<Stored>>, inst: string, m: Message): seq<Slot<Stored>> {
    if m.origin == inst then s
    else match m
      case DropKey(key, _) => Without(s, key)
      case DropPattern(p, _) => AfterDeletePattern(s, p)
  }

  /** Whether a message takes `key` out of the L1 of another instance. */
  predicate Evicts(m: Message, key: string) {
    match m
    case DropKey(k, _) => k == key
    case DropPattern(p, _) => Matches(p, key)
  }

  function Broadcast(inbox: map<string, seq<Message>>, m: Message): map<string, seq<Message>> {
    map i | i in inbox :: inbox[i] + [m]
  }

  function Next(st: State, step: Step, latency: nat): State
    requires Enabled(st, step, latency)
  {
    match step
    case Tick(ms) => st.(now := st.now + ms)
    case ReadL1(i, key) => st.(l1 := st.l1[i := AfterGet(st.l1[i], key, st.now)])
    case BeginFill(id, i, key) => st.(flights := st.flights[id := Filling(i, key, st.redis[key], st.now)])
    case EndFill(id) =>
      var f := st.flights[id];
      var ttl := GetTTL(f.entry.kind).l1;
      var e := Entry(f.entry.stored, st.now + ttl * 1000, f.entry.computeMs);
      st.(flights := st.flights - {id},
          l1 := if ttl > 0 then st.l1[f.inst := AfterSet(st.l1[f.inst], L1_MAX, f.key, e)] else st.l1)
    case BeginSet(id, i, key, payload, ttl, ms) =>
      var v := Stored(payload, |st.writes|);
      var e := Entry(v, st.now + L1Seconds(ttl) * 1000, ms);
      st.(writes := st.writes + [Write(key, payload, ttl, st.now)],
          l1 := if L1Seconds(ttl) > 0 then st.l1[i := AfterSet(st.l1[i], L1_MAX, key, e)] else st.l1,
          flights := if L2Seconds(ttl) > 0
                     then st.flights[id := Storing(key, v, ms, StoredType(ttl), L2Seconds(ttl), st.now)]
                     else st.flights)
    case EndSet(id) =>
      var f := st.flights[id];
      st.(flights := st.flights - {id},
          redis := st.redis[f.key := RedisEntry(f.stored, f.computeMs, f.kind, st.now + f.l2 * 1000)])
    case BeginPurge(id, i, key) =>
      st.(l1 := st.l1[i := Without(st.l1[i], key)], flights := st.flights[id := Purging(i, key, false)])
    case PurgeRedis(id) =>
      var f := st.flights[id];
      st.(redis := st.redis - {f.key}, purged := st.purged[f.key := |st.writes|],
          flights := st.flights[id := Purging(f.inst, f.key, true)])
    case EndPurge(id) =>
      var f := st.flights[id];
      st.(flights := st.flights - {id}, inbox := Broadcast(st.inbox, DropKey(f.key, f.inst)))
    case BeginSweep(id, i, p) =>
      st.(l1 := st.l1[i := AfterDeletePattern(st.l1[i], p)], flights := st.flights[id := Sweeping(i, p, {})])
    case SweepRound(id, keys) =>
      var f := st.flights[id];
      st.(redis := st.redis - keys, purged := st.purged + map k | k in keys :: |st.writes|,
          flights := st.flights[id := f.(swept := f.swept + keys)])
    case EndSweep(id) =>
      var f := st.flights[id];
      st.(flights := st.flights - {id}, inbox := Broadcast(st.inbox, DropPattern(f.pattern, f.inst)))
    case Deliver(i) =>
      st.(l1 := st.l1[i := AfterMessage(st.l1[i], i, st.inbox[i][0])], inbox := st.inbox[i := st.inbox[i][1..]])
    case Fail(id) => st.(flights := st.flights - {id})
  }

  /* ----- provenance: where each cached value came from, and how long it may live ----- */

  ghost predicate WrittenBy(st: State, key: string, v: Stored) {
    && v.origin < |st.writes|
    && st.writes[v.origin].key == key && st.writes[v.origin].payload == v.payload
    && st.writes[v.origin].at <= st.now
  }

  /** The longest a written value can be served: its L2 TTL plus the L1 TTL of its stored type (plus waiting time). */
  function MaxAge(w: Write, latency: nat): int {
    (L2Seconds(w.ttl) + GetTTL(StoredType(w.ttl)).l1) * 1000 + 2 * latency
  }

  ghost predicate SlotOk(st: State, x: Slot<Stored>, latency: nat) {
    && WrittenBy(st, x.key, x.entry.value)
    && var w := st.writes[x.entry.value.origin];
      L2Seconds(w.ttl) > 0 && x.entry.expiresAt <= w.at + MaxAge(w, latency)
  }

  ghost predicate RedisOk(st: State, key: string, e: RedisEntry, latency: nat) {
    && WrittenBy(st, key, e.stored)
    && var w := st.writes[e.stored.origin];
      && L2Seconds(w.ttl) > 0 && e.kind == StoredType(w.ttl)
      && e.expiresAt <= w.at + L2Seconds(w.ttl) * 1000 + latency
  }

  ghost predicate FlightOk(st: State, f: Flight, latency: nat) {
    match f
    case Filling(i, key, e, since) => i in st.l1 && RedisOk(st, key, e, latency) && since <= e.expiresAt
    case Storing(key, v, _, kind, l2, since) =>
      && WrittenBy(st, key, v)
      && var w := st.writes[v.origin];
        kind == StoredType(w.ttl) && l2 == L2Seconds(w.ttl) > 0 && since == w.at
    case Purging(i, _, _) => i in st.l1
    case Sweeping(i, _, _) => i in st.l1
  }

  ghost predicate Provenance(st: State, latency: nat) {
    && st.l1.Keys == st.inbox.Keys
    && (forall i, x :: i in st.l1 && x in st.l1[i] ==> SlotOk(st, x, latency))
    && (forall key :: key in st.redis ==> RedisOk(st, key, st.redis[key], latency))
    && (forall id :: id in st.flights ==> FlightOk(st, st.flights[id], latency))
    && (forall key :: key in st.purged ==> st.purged[key] <= |st.writes|)
  }

  /** Slots of a cache after one of the LRU operations: old ones, and possibly one new slot. */
  lemma SlotsAfterSet(s: seq<Slot<Stored>>, key: string, e: Entry<Stored>)
    ensures forall x :: x in AfterSet(s, L1_MAX, key, e) ==> (x in s && x.key != key) || x == Slot(key, e)
  {
    PurgeKeeps(s, Is(key));
    assert forall x :: x in Evict(Without(s, key), L1_MAX) ==> x in Without(s, key);
  }

  lemma SlotsAfterMessage(s: seq<Slot<Stored>>, inst: string, m: Message)
    ensures forall x :: x in AfterMessage(s, inst, m) ==> x in s
    ensures m.origin != inst ==> forall x :: x in AfterMessage(s, inst, m) ==> !Evicts(m, x.key)
  {
    match m
    case DropKey(key, _) => PurgeKeeps(s, Is(key));
    case DropPattern(p, _) => PurgeKeeps(s, Matching(p));
  }

  /* Provenance is kept by each kind of change a step makes. */

  lemma Grown(st: State, st': State, latency: nat)
    requires Provenance(st, latency)
    requires st' == st.(now := st'.now, writes := st'.writes)
    requires st.writes <= st'.writes && st.now <= st'.now
    ensures Provenance(st', latency)
  {
    assert forall key, v :: WrittenBy(st, key, v) ==> WrittenBy(st', key, v);
    forall i, x | i in st.l1 && x in st.l1[i] ensures SlotOk(st', x, latency) {
      assert SlotOk(st, x, latency);
    }
    forall key | key in st.redis ensures RedisOk(st', key, st.redis[key], latency) {
      assert RedisOk(st, key, st.redis[key], latency);
    }
    forall id | id in st.flights ensures FlightOk(st', st.flights[id], latency) {
      assert FlightOk(st, st.flights[id], latency);
    }
  }

  lemma Framed(st: State, st': State, latency: nat)
    requires Provenance(st, latency)
    requires st'.now == st.now && st'.writes == st.writes && st'.l1.Keys == st.l1.Keys == st'.inbox.Keys
    requires forall i, x :: i in st'.l1 && x in st'.l1[i] ==> x in st.l1[i] || SlotOk(st, x, latency)
    requires forall key :: key in st'.redis ==>
               (key in st.redis && st'.redis[key] == st.redis[key]) || RedisOk(st, key, st'.redis[key], latency)
    requires forall id :: id in st'.flights ==>
               (id in st.flights && st'.flights[id] == st.flights[id]) || FlightOk(st, st'.flights[id], latency)
    requires forall key :: key in st'.purged ==> st'.purged[key] <= |st.writes|
    ensures Provenance(st', latency)
  {
    forall i, x | i in st'.l1 && x in st'.l1[i] ensures SlotOk(st', x, latency) {
      assert SlotOk(st, x, latency);
    }
    forall key | key in st'.redis ensures RedisOk(st', key, st'.redis[key], latency) {
      assert RedisOk(st, key, st'.redis[key], latency);
    }
    forall id | id in st'.flights ensures FlightOk(st', st'.flights[id], latency) {
      assert FlightOk(st, st'.flights[id], latency);
    }
  }

  lemma EndFillKeeps(st: State, id: nat, latency: nat)
    requires Provenance(st, latency) && Enabled(st, EndFill(id), latency)
    ensures Provenance(Next(st, EndFill(id), latency), latency)
  {
    var f := st.flights[id];
    assert FlightOk(st, f, latency);
    var e := Entry(f.entry.stored, st.now + GetTTL(f.entry.kind).l1 * 1000, f.entry.computeMs);
    SlotsAfterSet(st.l1[f.inst], f.key, e);
    assert SlotOk(st, Slot(f.key, e), latency);
    Framed(st, Next(st, EndFill(id), latency), latency);
  }

  lemma BeginSetKeeps(st: State, step: Step, latency: nat)
    requires step.BeginSet? && Provenance(st, latency) && Enabled(st, step, latency)
    ensures Provenance(Next(st, step, latency), latency)
  {
    hide Purge, Lookup, Glob, Matches, Evict;
    var BeginSet(id, i, key, payload, ttl, ms) := step;
    var mid := st.(writes := st.writes + [Write(key, payload, ttl, st.now)]);
    Grown(st, mid, latency);
    var v := Stored(payload, |st.writes|);
    assert WrittenBy(mid, key, v);
    var e := Entry(v, st.now + L1Seconds(ttl) * 1000, ms);
    SlotsAfterSet(st.l1[i], key, e);
    assert L1Seconds(ttl) > 0 ==> SlotOk(mid, Slot(key, e), latency);
    Framed(mid, Next(st, step, latency), latency);
  }

  lemma ReadL1Keeps(st: State, i: string, key: string, latency: nat)
    requires Provenance(st, latency) && Enabled(st, ReadL1(i, key), latency)
    ensures Provenance(Next(st, ReadL1(i, key), latency), latency)
  {
    hide SlotOk, RedisOk, FlightOk, AfterGet;
    GetNeverExtends(st.l1[i], key, st.now);
    Framed(st, Next(st, ReadL1(i, key), latency), latency);
  }

  lemma BeginPurgeKeeps(st: State, id: nat, i: string, key: string, latency: nat)
    requires Provenance(st, latency) && Enabled(st, BeginPurge(id, i, key), latency)
    ensures Provenance(Next(st, BeginPurge(id, i, key), latency), latency)
  {
    assert FlightOk(st, Purging(i, key, false), latency);
    hide SlotOk, RedisOk, FlightOk, Purge;
    PurgeKeeps(st.l1[i], Is(key));
    Framed(st, Next(st, BeginPurge(id, i, key), latency), latency);
  }

  lemma BeginSweepKeeps(st: State, id: nat, i: string, pattern: string, latency: nat)
    requires Provenance(st, latency) && Enabled(st, BeginSweep(id, i, pattern), latency)
    ensures Provenance(Next(st, BeginSweep(id, i, pattern), latency), latency)
  {
    assert FlightOk(st, Sweeping(i, pattern, {}), latency);
    hide SlotOk, RedisOk, FlightOk, Purge, Matches, Glob;
    PurgeKeeps(st.l1[i], Matching(pattern));
    Framed(st, Next(st, BeginSweep(id, i, pattern), latency), latency);
  }

  lemma DeliverKeeps(st: State, i: string, latency: nat)
    requires Provenance(st, latency) && Enabled(st, Deliver(i), latency)
    ensures Provenance(Next(st, Deliver(i), latency), latency)
  {
    hide SlotOk, RedisOk, FlightOk, AfterMessage;
    SlotsAfterMessage(st.l1[i], i, st.inbox[i][0]);
    Framed(st, Next(st, Deliver(i), latency), latency);
  }

  lemma SweepKeeps(st: State, step: Step, latency: nat)
    requires step.SweepRound? || step.EndSweep?
    requires Provenance(st, latency) && Enabled(st, step, latency)
    ensures Provenance(Next(st, step, latency), latency)
  {
    var f := st.flights[step.id];
    assert FlightOk(st, f, latency);
    if step.SweepRound? {
      assert FlightOk(st, f.(swept := f.swept + step.keys), latency);
    }
    hide SlotOk, RedisOk, FlightOk, Purge, Lookup, Glob, Matches;
    Framed(st, Next(st, step, latency), latency);
  }

  lemma RedisStepKeeps(st: State, step: Step, latency: nat)
    requires step.EndSet? || step.BeginFill? || step.PurgeRedis? || step.EndPurge? || step.Fail?
    requires Provenance(st, latency) && Enabled(st, step, latency)
    ensures Provenance(Next(st, step, latency), latency)
  {
    hide SlotOk, WrittenBy, Purge, Lookup, Glob, Matches;
    if step.EndSet? || step.PurgeRedis? || step.EndPurge? {
      assert FlightOk(st, st.flights[step.id], latency);
    }
    Framed(st, Next(st, step, latency), latency);
  }

  lemma ProvenanceKept(st: State, step: Step, latency: nat)
    requires Provenance(st, latency) && Enabled(st, step, latency)
    ensures Provenance(Next(st, step, latency), latency)
  {
    match step
    case Tick(_) => Grown(st, Next(st, step, latency), latency);
    case BeginSet(_, _, _, _, _, _) => BeginSetKeeps(st, step, latency);
    case EndFill(id) => EndFillKeeps(st, id, latency);
    case ReadL1(i, key) => ReadL1Keeps(st, i, key, latency);
    case BeginPurge(id, i, key) => BeginPurgeKeeps(st, id, i, key, latency);
    case BeginSweep(id, i, pattern) => BeginSweepKeeps(st, id, i, pattern, latency);
    case SweepRound(_, _) => SweepKeeps(st, step, latency);
    case EndSweep(_) => SweepKeeps(st, step, latency);
    case Deliver(i) => DeliverKeeps(st, i, latency);
    case _ => RedisStepKeeps(st, step, latency);
  }

  /* ----- runs ----- */

  ghost predicate IsRun(instances: set<string>, states: seq<State>, steps: seq<Step>, latency: nat) {
    && |states| == |steps| + 1
    && states[0] == Start(instances)
    && forall n :: 0 <= n < |steps| ==>
                     Enabled(states[n], steps[n], latency) && states[n + 1] == Next(states[n], steps[n], latency)
  }

  lemma {:induction false} RunProvenance(instances: set<string>, states: seq<State>, steps: seq<Step>, latency: nat,
                                         n: nat)
    requires IsRun(instances, states, steps, latency) && n < |states|
    ensures Provenance(states[n], latency)
  {
    if n > 0 {
      RunProvenance(instances, states, steps, latency, n - 1);
      ProvenanceKept(states[n - 1], steps[n - 1], latency);
    }
  }

  /** `st` may serve `v` for `key` to instance `i`: from its L1, or from Redis on an L1 miss. */
  ghost predicate Serves(st: State, i: string, key: string, v: Stored) {
    || (i in st.l1 && GetResult(st.l1[i], key, st.now).Some? && GetResult(st.l1[i], key, st.now).value.value == v)
    || (key in st.redis && st.now <= st.redis[key].expiresAt && st.redis[key].stored == v)
  }

  /**
   Staleness bound, for every run: a served value was written under that key by a `cacheSet`, no longer ago than its L2
   TTL plus the L1 TTL of its stored type, plus the two waits for Redis on the way.  For a value that was written with a
   number of seconds those are that number and the 30 s of the type "default"; for one of a named type they are both the
   type's own, so that no search result is ever older than 10 s and no events list older than 35 s.
   */
  lemma ServedValuesAreRecent(instances: set<string>, states: seq<State>, steps: seq<Step>, latency: nat,
                              n: nat, i: string, key: string, v: Stored)
    requires IsRun(instances, states, steps, latency) && n < |states| && Serves(states[n], i, key, v)
    ensures WrittenBy(states[n], key, v)
    ensures var w := states[n].writes[v.origin];
            states[n].now - w.at
            <= 2 * latency + match w.ttl
                             case Seconds(s) => (s + 30) * 1000
                             case Type("events_list") => 35_000
                             case Type("events_single") => 70_000
                             case Type("contracts_list") => 330_000
                             case Type("contracts_single") => 960_000
                             case Type("search") => 10_000
                             case Type("stats") => 360_000
                             case Type(_) => 90_000
  {
    var st := states[n];
    RunProvenance(instances, states, steps, latency, n);
    if i in st.l1 && GetResult(st.l1[i], key, st.now).Some? && GetResult(st.l1[i], key, st.now).value.value == v {
      LookupIn(st.l1[i], key);
      assert SlotOk(st, Slot(key, Lookup(st.l1[i], key).value), latency);
    } else {
      assert RedisOk(st, key, st.redis[key], latency);
    }
  }

  /* ----- invalidation of one key ----- */

  /** Written before the last time Redis dropped the key. */
  predicate Outdated(st: State, key: string, v: Stored) {
    key in st.purged && v.origin < st.purged[key]
  }

  /** An invalidation that has dropped `key` from Redis and has yet to announce it. */
  predicate Dropping(f: Flight, key: string) {
    || (f.Purging? && f.redisDone && f.key == key)
    || (f.Sweeping? && key in f.swept && Matches(f.pattern, key))
  }

  /** The eviction of `key` is still on its way to instance `i`. */
  ghost predicate Pending(st: State, i: string, key: string) {
    || (i in st.inbox && exists m :: m in st.inbox[i] && Evicts(m, key) && m.origin != i)
    || (exists id :: id in st.flights && Dropping(st.flights[id], key) && st.flights[id].inst != i)
  }

  ghost predicate Holds(st: State, i: string, key: string, v: Stored) {
    i in st.l1 && exists x :: x in st.l1[i] && x.key == key && x.entry.value == v
  }

  /** What the invalidation protocol promises: an outdated value is only held while its eviction is pending. */
  ghost predicate Coherent(st: State, key: string) {
    && (forall i, v :: Holds(st, i, key, v) && Outdated(st, key, v) ==> Pending(st, i, key))
    && (key in st.redis ==> !Outdated(st, key, st.redis[key].stored))
  }

  /** The waiting calls will not put an outdated value back. */
  ghost predicate NoRelapse(st: State, key: string) {
    forall id :: id in st.flights ==>
      match st.flights[id]
      case Filling(_, k, e, _) => k == key ==> !Outdated(st, key, e.stored)
      case Storing(k, v, _, _, _, _) => k == key ==> !Outdated(st, key, v)
      case _ => true
  }

  /** No call is filling or storing the key, and the instance, unless it is told, has not cached it again. */
  ghost predicate Clear(st: State, i: string, key: string) {
    && (forall j :: j in st.flights && (st.flights[j].Filling? || st.flights[j].Storing?) ==> st.flights[j].key != key)
    && (i in st.l1 ==> Lookup(st.l1[i], key).None? || Pending(st, i, key))
  }

  /**
   An invalidation of `key` is orderly when, as Redis drops the key, no call is filling or storing it and the purging
   instance has not cached it again since it deleted its own copy, or has another eviction coming to it; when by a
   pattern, L1 matches the key as Redis does; and its publish does not fail.
   */
  ghost predicate Orderly(st: State, step: Step, key: string) {
    match step
    case PurgeRedis(id) =>
      id in st.flights && st.flights[id].Purging? && st.flights[id].key == key ==> Clear(st, st.flights[id].inst, key)
    case SweepRound(id, keys) =>
      id in st.flights && st.flights[id].Sweeping? && key in keys ==>
        Matches(st.flights[id].pattern, key) && Clear(st, st.flights[id].inst, key)
    case Fail(id) => id in st.flights ==> !Dropping(st.flights[id], key)
    case _ => true
  }

  lemma HeldIn(st: State, i: string, key: string, x: Slot<Stored>)
    requires i in st.l1 && x in st.l1[i] && x.key == key
    ensures Holds(st, i, key, x.entry.value)
  {
  }

  /** Steps that only take slots out of L1, or move them, without touching Redis, messages or purges. */
  lemma CoherentShrink(st: State, st': State, key: string)
    requires Coherent(st, key)
    requires st'.redis == st.redis && st'.purged == st.purged && st'.l1.Keys == st.l1.Keys
    requires forall i, x :: i in st'.l1 && x in st'.l1[i] && x.key == key ==>
                              x in st.l1[i] || !Outdated(st, key, x.entry.value)
    requires forall i :: Pending(st, i, key) && (exists x :: i in st'.l1 && x in st'.l1[i] && x.key == key)
               ==> Pending(st', i, key)
    ensures Coherent(st', key)
  {
    forall i, v | Holds(st', i, key, v) && Outdated(st', key, v) ensures Pending(st', i, key) {
      var x :| x in st'.l1[i] && x.key == key && x.entry.value == v;
      HeldIn(st, i, key, x);
    }
  }

  lemma PendingKept(st: State, st': State, key: string)
    requires forall i :: i in st.inbox ==> i in st'.inbox && st.inbox[i] <= st'.inbox[i]
    requires forall id :: id in st.flights && Dropping(st.flights[id], key) ==>
               id in st'.flights && Dropping(st'.flights[id], key) && st'.flights[id].inst == st.flights[id].inst
    ensures forall i :: Pending(st, i, key) ==> Pending(st', i, key)
  {
    hide Evicts, Dropping;
    forall i | Pending(st, i, key) ensures Pending(st', i, key) {
      if m :| i in st.inbox && m in st.inbox[i] && Evicts(m, key) && m.origin != i {
        assert m in st'.inbox[i];
      }
    }
  }

  lemma LocalStepCoherent(st: State, step: Step, key: string, latency: nat)
    requires step.ReadL1? || step.Tick? || step.BeginFill?
    requires Provenance(st, latency) && Enabled(st, step, latency)
    requires Coherent(st, key) && NoRelapse(st, key)
    ensures Coherent(Next(st, step, latency), key) && NoRelapse(Next(st, step, latency), key)
  {
    hide Provenance, GetTTL, L1Seconds, L2Seconds, Purge, Lookup, Glob, Matches, Evicts, Dropping, AfterGet;
    if step.ReadL1? {
      GetNeverExtends(st.l1[step.inst], step.key, st.now);
    }
    PendingKept(st, Next(st, step, latency), key);
    CoherentShrink(st, Next(st, step, latency), key);
  }

  lemma EvictStepCoherent(st: State, step: Step, key: string, latency: nat)
    requires step.BeginPurge? || step.BeginSweep?
    requires Enabled(st, step, latency) && Coherent(st, key) && NoRelapse(st, key)
    ensures Coherent(Next(st, step, latency), key) && NoRelapse(Next(st, step, latency), key)
  {
    hide Coherent, GetTTL, Purge, Lookup, Glob, Matches, Evicts, Dropping;
    PurgeKeeps(st.l1[step.inst], if step.BeginPurge? then Is(step.key) else Matching(step.pattern));
    PendingKept(st, Next(st, step, latency), key);
    CoherentShrink(st, Next(st, step, latency), key);
  }

  lemma InstallStepCoherent(st: State, step: Step, key: string, latency: nat)
    requires step.EndFill? || step.BeginSet?
    requires Provenance(st, latency) && Enabled(st, step, latency)
    requires Coherent(st, key) && NoRelapse(st, key) && Orderly(st, step, key)
    ensures Coherent(Next(st, step, latency), key) && NoRelapse(Next(st, step, latency), key)
  {
    hide SlotOk, RedisOk, FlightOk, GetTTL, L1Seconds, L2Seconds, Purge, Lookup, Glob, Matches, Evicts;
    var st' := Next(st, step, latency);
    match step {
      case EndFill(id) =>
        var f := st.flights[id];
        SlotsAfterSet(st.l1[f.inst], f.key,
                      Entry(f.entry.stored, st.now + GetTTL(f.entry.kind).l1 * 1000, f.entry.computeMs));
      case BeginSet(_, i, k, payload, ttl, ms) =>
        SlotsAfterSet(st.l1[i], k, Entry(Stored(payload, |st.writes|), st.now + L1Seconds(ttl) * 1000, ms));
    }
    PendingKept(st, st', key);
    forall i, v | Holds(st', i, key, v) && Outdated(st', key, v) ensures Pending(st', i, key) {
      var x :| x in st'.l1[i] && x.key == key && x.entry.value == v;
      assert x in st.l1[i];
      HeldIn(st, i, key, x);
    }
  }

  lemma StoreStepCoherent(st: State, step: Step, key: string, latency: nat)
    requires step.EndSet? || step.Fail?
    requires Provenance(st, latency) && Enabled(st, step, latency)
    requires Coherent(st, key) && NoRelapse(st, key) && Orderly(st, step, key)
    ensures Coherent(Next(st, step, latency), key) && NoRelapse(Next(st, step, latency), key)
  {
    hide SlotOk, RedisOk, FlightOk, GetTTL, L1Seconds, L2Seconds, Purge, Lookup, Glob, Matches;
    var st' := Next(st, step, latency);
    PendingKept(st, st', key);
    assert forall i, v :: Holds(st', i, key, v) ==> Holds(st, i, key, v);
  }

  lemma PurgeRedisCoherent(st: State, id: nat, key: string, latency: nat)
    requires Provenance(st, latency) && Enabled(st, PurgeRedis(id), latency)
    requires Coherent(st, key) && NoRelapse(st, key) && Orderly(st, PurgeRedis(id), key)
    ensures Coherent(Next(st, PurgeRedis(id), latency), key) && NoRelapse(Next(st, PurgeRedis(id), latency), key)
  {
    var st' := Next(st, PurgeRedis(id), latency);
    var f := st.flights[id];
    assert st'.flights[id] == Purging(f.inst, f.key, true);
    PendingKept(st, st', key);
    forall i, v | Holds(st', i, key, v) && Outdated(st', key, v) ensures Pending(st', i, key) {
      if f.key == key {
        LookupIn(st.l1[i], key);
        assert i == f.inst ==> Pending(st, i, key);
      } else {
        assert Holds(st, i, key, v);
      }
    }
  }

  lemma SweepRoundCoherent(st: State, step: Step, key: string, latency: nat)
    requires step.SweepRound? && Provenance(st, latency) && Enabled(st, step, latency)
    requires Coherent(st, key) && NoRelapse(st, key) && Orderly(st, step, key)
    ensures Coherent(Next(st, step, latency), key) && NoRelapse(Next(st, step, latency), key)
  {
    hide SlotOk, RedisOk, FlightOk, GetTTL, L1Seconds, L2Seconds, Purge, Lookup, Glob, Matches;
    var st' := Next(st, step, latency);
    var f := st.flights[step.id];
    assert st'.flights[step.id] == f.(swept := f.swept + step.keys);
    PendingKept(st, st', key);
    forall i, v | Holds(st', i, key, v) && Outdated(st', key, v) ensures Pending(st', i, key) {
      if key in step.keys {
        LookupIn(st.l1[i], key);
        assert i == f.inst ==> Pending(st, i, key);
        assert Dropping(st'.flights[step.id], key);
      } else {
        assert Holds(st, i, key, v) && Outdated(st, key, v);
      }
    }
  }

  lemma BroadcastCoherent(st: State, step: Step, key: string, latency: nat)
    requires step.EndPurge? || step.EndSweep?
    requires Provenance(st, latency) && Enabled(st, step, latency)
    requires Coherent(st, key) && NoRelapse(st, key)
    ensures Coherent(Next(st, step, latency), key) && NoRelapse(Next(st, step, latency), key)
  {
    hide SlotOk, RedisOk, FlightOk, GetTTL, L1Seconds, L2Seconds, Purge, Lookup, Glob, Matches;
    var st' := Next(st, step, latency);
    forall i | Pending(st, i, key) && i in st.l1 ensures Pending(st', i, key) {
      assert st.inbox[i] <= st'.inbox[i];
      if m :| m in st.inbox[i] && Evicts(m, key) && m.origin != i {
        assert m in st'.inbox[i];
      } else {
        var id :| id in st.flights && Dropping(st.flights[id], key) && st.flights[id].inst != i;
        if id == step.id {
          var f := st.flights[id];
          var m := if step.EndPurge? then DropKey(f.key, f.inst) else DropPattern(f.pattern, f.inst);
          assert st'.inbox[i] == st.inbox[i] + [m] && m in st'.inbox[i] && Evicts(m, key);
        } else {
          assert st'.flights[id] == st.flights[id];
        }
      }
    }
    forall i, v | Holds(st', i, key, v) && Outdated(st', key, v) ensures Pending(st', i, key) {
      assert Holds(st, i, key, v);
    }
  }

  lemma DeliverCoherent(st: State, i: string, key: string, latency: nat)
    requires Provenance(st, latency) && Enabled(st, Deliver(i), latency)
    requires Coherent(st, key) && NoRelapse(st, key)
    ensures Coherent(Next(st, Deliver(i), latency), key) && NoRelapse(Next(st, Deliver(i), latency), key)
  {
    hide SlotOk, RedisOk, FlightOk, GetTTL, L1Seconds, L2Seconds, Purge, Lookup, Glob, Matches;
    var st' := Next(st, Deliver(i), latency);
    var head := st.inbox[i][0];
    SlotsAfterMessage(st.l1[i], i, head);
    forall j, v | Holds(st', j, key, v) && Outdated(st', key, v) ensures Pending(st', j, key) {
      var x :| x in st'.l1[j] && x.key == key && x.entry.value == v;
      assert x in st.l1[j];
      HeldIn(st, j, key, x);
      assert Pending(st, j, key);
      if m :| m in st.inbox[j] && Evicts(m, key) && m.origin != j {
        if j == i {
          assert m != head;
          assert st.inbox[i] == [head] + st'.inbox[i];
        }
        assert m in st'.inbox[j];
      } else {
        var id :| id in st.flights && Dropping(st.flights[id], key) && st.flights[id].inst != j;
        assert st'.flights[id] == st.flights[id];
      }
    }
  }

  lemma CoherentKept(st: State, step: Step, key: string, latency: nat)
    requires Provenance(st, latency) && Enabled(st, step, latency)
    requires Coherent(st, key) && NoRelapse(st, key) && Orderly(st, step, key)
    ensures Coherent(Next(st, step, latency), key) && NoRelapse(Next(st, step, latency), key)
  {
    match step
    case PurgeRedis(id) => PurgeRedisCoherent(st, id, key, latency);
    case EndPurge(_) => BroadcastCoherent(st, step, key, latency);
    case BeginPurge(_, _, _) => EvictStepCoherent(st, step, key, latency);
    case BeginSweep(_, _, _) => EvictStepCoherent(st, step, key, latency);
    case SweepRound(_, _) => SweepRoundCoherent(st, step, key, latency);
    case EndSweep(_) => BroadcastCoherent(st, step, key, latency);
    case Deliver(i) => DeliverCoherent(st, i, key, latency);
    case EndFill(_) => InstallStepCoherent(st, step, key, latency);
    case BeginSet(_, _, _, _, _, _) => InstallStepCoherent(st, step, key, latency);
    case EndSet(_) => StoreStepCoherent(st, step, key, latency);
    case Fail(_) => StoreStepCoherent(st, step, key, latency);
    case _ => LocalStepCoherent(st, step, key, latency);
  }

  lemma {:induction false} RunCoherent(instances: set<string>, states: seq<State>, steps: seq<Step>, latency: nat,
                                       n: nat, key: string)
    requires IsRun(instances, states, steps, latency) && n < |states|
    requires forall j :: 0 <= j < n ==> Orderly(states[j], steps[j], key)
    ensures Coherent(states[n], key) && NoRelapse(states[n], key)
  {
    if n > 0 {
      RunCoherent(instances, states, steps, latency, n - 1, key);
      RunProvenance(instances, states, steps, latency, n - 1);
      CoherentKept(states[n - 1], steps[n - 1], key, latency);
    }
  }

  /**
   Cross-instance invalidation, over every run whose purges of `key` are orderly: a value older than the last
   time Redis dropped the key is served only by an instance that still has the eviction coming to it.
   */
  lemma OutdatedOnlyWhilePending(instances: set<string>, states: seq<State>, steps: seq<Step>, latency: nat,
                                 n: nat, i: string, key: string, v: Stored)
    requires IsRun(instances, states, steps, latency) && n < |states| && Serves(states[n], i, key, v)
    requires forall j :: 0 <= j < n ==> Orderly(states[j], steps[j], key)
    requires Outdated(states[n], key, v)
    ensures Pending(states[n], i, key)
  {
    RunCoherent(instances, states, steps, latency, n, key);
    var st := states[n];
    if i in st.l1 && GetResult(st.l1[i], key, st.now).Some? && GetResult(st.l1[i], key, st.now).value.value == v {
      LookupIn(st.l1[i], key);
      HeldIn(st, i, key, Slot(key, Lookup(st.l1[i], key).value));
    }
  }

  /** Dropping a key from Redis brings no eviction to the instance that purges it. */
  lemma DropTellsOthers(st: State, step: Step, key: string, latency: nat)
    requires (step.PurgeRedis? || step.SweepRound?) && Enabled(st, step, latency)
    requires !Pending(st, st.flights[step.id].inst, key)
    ensures !Pending(Next(st, step, latency), st.flights[step.id].inst, key)
  {
    hide Matches, Glob, Evicts;
    var f, st' := st.flights[step.id], Next(st, step, latency);
    forall j | j in st'.flights && Dropping(st'.flights[j], key) ensures st'.flights[j].inst == f.inst {
      assert j != step.id ==> st'.flights[j] == st.flights[j];
    }
  }

  /** Nobody else is told of a key that only Redis matches. */
  lemma UnmatchedTellsNobody(st: State, step: Step, key: string, i: string, latency: nat)
    requires step.SweepRound? && Enabled(st, step, latency) && !Matches(st.flights[step.id].pattern, key)
    requires !Pending(st, i, key)
    ensures !Pending(Next(st, step, latency), i, key)
  {
    hide Matches, Glob, Evicts;
    var st' := Next(st, step, latency);
    forall j | j in st'.flights && Dropping(st'.flights[j], key) ensures st'.flights[j].inst == i {
      assert j != step.id && st'.flights[j] == st.flights[j];
    }
  }

  /** Dropping a key while a call fills or stores it, or while an instance that is not told holds it, goes wrong. */
  lemma UnclearDropRelapses(st: State, step: Step, key: string, latency: nat)
    requires Provenance(st, latency) && (step.PurgeRedis? || step.SweepRound?) && Enabled(st, step, latency)
    requires if step.PurgeRedis? then st.flights[step.id].key == key else key in step.keys
    requires !Clear(st, st.flights[step.id].inst, key)
    ensures var st' := Next(st, step, latency); !(Coherent(st', key) && NoRelapse(st', key))
  {
    hide Matches, Glob, Purge, GetTTL, Evicts;
    var i, st' := st.flights[step.id].inst, Next(st, step, latency);
    assert key in st'.purged && st'.purged[key] == |st.writes|;
    if i in st.l1 && Lookup(st.l1[i], key).Some? && !Pending(st, i, key) {
      DropTellsOthers(st, step, key, latency);
      LookupIn(st.l1[i], key);
      var x := Slot(key, Lookup(st.l1[i], key).value);
      HeldIn(st', i, key, x);
      assert SlotOk(st, x, latency);
    } else {
      var j :| j in st.flights && (st.flights[j].Filling? || st.flights[j].Storing?) && st.flights[j].key == key;
      assert FlightOk(st, st.flights[j], latency) && st'.flights[j] == st.flights[j];
    }
  }

  /**
   Orderliness is what the step needs, not only what suffices: dropping the key from Redis keeps the protocol's
   invariant exactly when it is orderly.
   */
  lemma PurgeSafeIffOrderly(st: State, id: nat, latency: nat)
    requires Provenance(st, latency) && Enabled(st, PurgeRedis(id), latency)
    requires Coherent(st, st.flights[id].key) && NoRelapse(st, st.flights[id].key)
    ensures var key, st' := st.flights[id].key, Next(st, PurgeRedis(id), latency);
            Coherent(st', key) && NoRelapse(st', key) <==> Orderly(st, PurgeRedis(id), key)
  {
    hide Coherent, NoRelapse, Provenance, Clear;
    if Orderly(st, PurgeRedis(id), st.flights[id].key) {
      PurgeRedisCoherent(st, id, st.flights[id].key, latency);
    } else {
      UnclearDropRelapses(st, PurgeRedis(id), st.flights[id].key, latency);
    }
  }

  /**
   The same for a key that is dropped through a pattern, if the key is still cached somewhere: exactly when L1 matches
   the key as well, and the state is clear.  If it is cached nowhere, L1 need not match it.
   */
  lemma SweepSafeIff(st: State, id: nat, keys: set<string>, key: string, latency: nat)
    requires Provenance(st, latency) && Enabled(st, SweepRound(id, keys), latency) && key in keys
    requires Coherent(st, key) && NoRelapse(st, key)
    ensures var st' := Next(st, SweepRound(id, keys), latency);
            Coherent(st', key) && NoRelapse(st', key)
            <==> Clear(st, st.flights[id].inst, key)
                 && (Matches(st.flights[id].pattern, key)
                     || forall i :: i in st.l1 && Lookup(st.l1[i], key).Some? ==> Pending(st, i, key))
  {
    var step := SweepRound(id, keys);
    var st' := Next(st, step, latency);
    if !Clear(st, st.flights[id].inst, key) {
      UnclearDropRelapses(st, step, key, latency);
    } else if Matches(st.flights[id].pattern, key) {
      SweepRoundCoherent(st, step, key, latency);
    } else {
      UnmatchedSweep(st, step, key, latency);
    }
    hide Coherent, NoRelapse, Provenance, Clear;
  }

  lemma UnmatchedSweep(st: State, step: Step, key: string, latency: nat)
    requires Provenance(st, latency) && step.SweepRound? && Enabled(st, step, latency) && key in step.keys
    requires Coherent(st, key) && NoRelapse(st, key)
    requires Clear(st, st.flights[step.id].inst, key) && !Matches(st.flights[step.id].pattern, key)
    ensures var st' := Next(st, step, latency);
            Coherent(st', key) && NoRelapse(st', key)
            <==> forall i :: i in st.l1 && Lookup(st.l1[i], key).Some? ==> Pending(st, i, key)
  {
    if i :| i in st.l1 && Lookup(st.l1[i], key).Some? && !Pending(st, i, key) {
      UnmatchedHeld(st, step, key, i, latency);
    } else {
      AllHoldersTold(st, step, key, latency);
    }
    hide Coherent, NoRelapse, Provenance, Clear, Pending, Lookup;
  }

  lemma UnmatchedHeld(st: State, step: Step, key: string, i: string, latency: nat)
    requires Provenance(st, latency) && step.SweepRound? && Enabled(st, step, latency) && key in step.keys
    requires !Matches(st.flights[step.id].pattern, key)
    requires i in st.l1 && Lookup(st.l1[i], key).Some? && !Pending(st, i, key)
    ensures !Coherent(Next(st, step, latency), key)
  {
    hide Matches, Glob, Purge, GetTTL, Evicts, Dropping;
    var st' := Next(st, step, latency);
    assert key in st'.purged && st'.purged[key] == |st.writes|;
    UnmatchedTellsNobody(st, step, key, i, latency);
    LookupIn(st.l1[i], key);
    var x := Slot(key, Lookup(st.l1[i], key).value);
    HeldIn(st', i, key, x);
    assert SlotOk(st, x, latency);
    hide Lookup;
  }

  lemma AllHoldersTold(st: State, step: Step, key: string, latency: nat)
    requires step.SweepRound? && Enabled(st, step, latency) && key in step.keys
    requires NoRelapse(st, key) && Clear(st, st.flights[step.id].inst, key)
    requires forall i :: i in st.l1 && Lookup(st.l1[i], key).Some? ==> Pending(st, i, key)
    ensures Coherent(Next(st, step, latency), key) && NoRelapse(Next(st, step, latency), key)
  {
    hide Matches, Glob, Purge, GetTTL, Evicts, Lookup;
    var st' := Next(st, step, latency);
    PendingKept(st, st', key);
    forall i, v | Holds(st', i, key, v) ensures Pending(st', i, key) {
      LookupIn(st.l1[i], key);
    }
  }

  /** A sweep by a prefix and one star need only find the state clear. */
  lemma PrefixSweepIsOrderlyIff(st: State, id: nat, keys: set<string>, key: string, latency: nat)
    requires Enabled(st, SweepRound(id, keys), latency) && key in keys
    requires '*' in st.flights[id].pattern && PrefixPattern(st.flights[id].pattern)
    ensures Orderly(st, SweepRound(id, keys), key) <==> Clear(st, st.flights[id].inst, key)
  {
    hide Matches, Glob, Clear;
    PatternAgreesWithRedis(st.flights[id].pattern);
  }

  /* ----- two ways an invalidation is lost ----- */

  /** `st'` is what a sequence of enabled steps makes of `st`, with no waiting at all. */
  ghost predicate Path(st: State, steps: seq<Step>, st': State)
    decreases |steps|
  {
    if steps == [] then st == st'
    else Enabled(st, steps[0], 0) && Path(Next(st, steps[0], 0), steps[1..], st')
  }

  lemma {:induction false} PathConcat(a: State, p: seq<Step>, b: State, q: seq<Step>, c: State)
    requires Path(a, p, b) && Path(b, q, c)
    ensures Path(a, p + q, c)
    decreases |p|
  {
    if p == [] {
      assert p + q == q;
    } else {
      PathConcat(Next(a, p[0], 0), p[1..], b, q, c);
      assert (p + q)[1..] == p[1..] + q;
    }
  }

  /** "A" writes "v" to "k", and Redis has stored it. */
  const WRITE: seq<Step> := [BeginSet(0, "A", "k", "v", Type("default"), 0), EndSet(0)]

  const OLD: Stored := Stored("v", 0)
  const OLD_SLOT: Slot<Stored> := Slot("k", Entry(OLD, 30000, 0))
  const OLD_ENTRY: RedisEntry := RedisEntry(OLD, 0, "default", 60000)

  /** What `WRITE` leads to; "B" has not read the key yet. */
  function Written(): State {
    State(0, map["A" := [OLD_SLOT], "B" := []], map["k" := OLD_ENTRY], map["A" := [], "B" := []], map[],
          [Write("k", "v", Type("default"), 0)], map[])
  }

  /** "k" has been dropped from Redis and announced by "A"; `fill` is still waiting, and `a` is A's cache. */
  function Dropped(a: seq<Slot<Stored>>, flights: map<nat, Flight>): State {
    var m := DropKey("k", "A");
    State(0, map["A" := a, "B" := []], map[], map["A" := [m], "B" := [m]], flights, Written().writes, map["k" := 1])
  }

  /** Every message has been handled and no call is waiting. */
  function Quiet(a: seq<Slot<Stored>>, b: seq<Slot<Stored>>): State {
    State(0, map["A" := a, "B" := b], map[], map["A" := [], "B" := []], map[], Written().writes, map["k" := 1])
  }

  lemma WrittenIsReached()
    ensures Path(Start({"A", "B"}), WRITE, Written())
  {
    hide Coherent;
    var b := BeginSet(0, "A", "k", "v", Type("default"), 0);
    var s1 := Next(Start({"A", "B"}), b, 0);
    var s2 := Next(s1, EndSet(0), 0);
    assert s2.l1["A"] == [OLD_SLOT] && s2.l1["B"] == [];
    assert s2.l1 == Written().l1 && s2.flights == map[] && s2 == Written();
    assert Path(s2, [], Written());
    assert [b, EndSet(0)][1..] == [EndSet(0)] && [EndSet(0)][1..] == [];
  }

  lemma PurgeOld()
    ensures Without([OLD_SLOT], "k") == []
  {
    PurgeKeeps([OLD_SLOT], Is("k"));
    var rest := Without([OLD_SLOT], "k");
    assert rest != [] ==> rest[0] in rest && rest[0].key == "k";
  }

  lemma OneStep(st: State, step: Step, st': State)
    requires Enabled(st, step, 0) && Next(st, step, 0) == st'
    ensures Path(st, [step], st')
  {
    assert [step][1..] == [] && Path(st', [], st');
  }

  lemma TwoSteps(a: State, p: Step, b: State, q: Step, c: State)
    requires Enabled(a, p, 0) && Next(a, p, 0) == b && Enabled(b, q, 0) && Next(b, q, 0) == c
    ensures Path(a, [p, q], c)
  {
    OneStep(a, p, b);
    OneStep(b, q, c);
    PathConcat(a, [p], b, [q], c);
    assert [p] + [q] == [p, q];
  }

  lemma BroadcastTwo(m: Message)
    ensures Broadcast(map["A" := [], "B" := []], m) == map["A" := [m], "B" := [m]]
  {
    var inbox: map<string, seq<Message>> := map["A" := [], "B" := []];
    var r := Broadcast(inbox, m);
    assert r.Keys == inbox.Keys;
    assert r["A"] == [m] && r["B"] == [m];
  }

  /** The purge's own steps, whatever "A" holds by then: Redis drops the key and the eviction goes out. */
  lemma DropAndAnnounce(a: seq<Slot<Stored>>, flights: map<nat, Flight>)
    requires 1 !in flights
    ensures Path(Written().(l1 := map["A" := a, "B" := []], flights := flights[1 := Purging("A", "k", false)]),
                 [PurgeRedis(1), EndPurge(1)], Dropped(a, flights))
  {
    hide Coherent;
    var s0 := Written().(l1 := map["A" := a, "B" := []], flights := flights[1 := Purging("A", "k", false)]);
    var s1 := Next(s0, PurgeRedis(1), 0);
    var s2 := Next(s1, EndPurge(1), 0);
    assert s2.flights == flights && s2.redis == map[];
    BroadcastTwo(DropKey("k", "A"));
    TwoSteps(s0, PurgeRedis(1), s1, EndPurge(1), s2);
  }

  lemma HandleMessages(a: seq<Slot<Stored>>, flights: map<nat, Flight>)
    ensures Path(Dropped(a, flights), [Deliver("A"), Deliver("B")], Quiet(a, []).(flights := flights))
  {
    hide Coherent;
    var s0 := Dropped(a, flights);
    var s1 := Next(s0, Deliver("A"), 0);
    var s2 := Next(s1, Deliver("B"), 0);
    assert s2.l1 == s0.l1 && s2.inbox == map["A" := [], "B" := []];
    TwoSteps(s0, Deliver("A"), s1, Deliver("B"), s2);
  }

  lemma QuietIsIncoherent(a: seq<Slot<Stored>>, b: seq<Slot<Stored>>)
    requires a == [OLD_SLOT] || b == [OLD_SLOT]
    ensures !Coherent(Quiet(a, b), "k")
  {
    var i := if a == [OLD_SLOT] then "A" else "B";
    HeldIn(Quiet(a, b), i, "k", OLD_SLOT);
    assert Outdated(Quiet(a, b), "k", OLD) && !Pending(Quiet(a, b), i, "k");
  }

  /**
   The purging instance caches the key again between deleting its own copy and deleting Redis's, and skips
   its own message: everything comes to rest with the outdated value still cached.
   */
  lemma OriginRefillsDuringPurge()
    ensures Path(Start({"A", "B"}),
                 WRITE + ([BeginPurge(1, "A", "k"), BeginFill(2, "A", "k")] + [EndFill(2)]
                          + [PurgeRedis(1), EndPurge(1)] + [Deliver("A"), Deliver("B")]),
                 Quiet([OLD_SLOT], []))
    ensures !Coherent(Quiet([OLD_SLOT], []), "k")
  {
    hide Coherent;
    var s0 := Written();
    var s1 := Next(s0, BeginPurge(1, "A", "k"), 0);
    PurgeOld();
    assert s1.l1["A"] == [];
    var s2 := Next(s1, BeginFill(2, "A", "k"), 0);
    TwoSteps(s0, BeginPurge(1, "A", "k"), s1, BeginFill(2, "A", "k"), s2);
    var s3 := Next(s2, EndFill(2), 0);
    assert s3.l1["A"] == [OLD_SLOT];
    assert s3.flights == map[][1 := Purging("A", "k", false)];
    assert s3 == Written().(l1 := map["A" := [OLD_SLOT], "B" := []], flights := map[][1 := Purging("A", "k", false)]);
    OneStep(s2, EndFill(2), s3);
    PathConcat(s0, [BeginPurge(1, "A", "k"), BeginFill(2, "A", "k")], s2, [EndFill(2)], s3);
    FinishRace(s0, [BeginPurge(1, "A", "k"), BeginFill(2, "A", "k")] + [EndFill(2)], s3, [OLD_SLOT], map[]);
    WrittenIsReached();
    PathConcat(Start({"A", "B"}), WRITE, s0, [BeginPurge(1, "A", "k"), BeginFill(2, "A", "k")] + [EndFill(2)]
                                             + [PurgeRedis(1), EndPurge(1)] + [Deliver("A"), Deliver("B")],
               Quiet([OLD_SLOT], []));
    QuietIsIncoherent([OLD_SLOT], []);
  }

  lemma FinishRace(s0: State, p: seq<Step>, s: State, a: seq<Slot<Stored>>, flights: map<nat, Flight>)
    requires Path(s0, p, s) && 1 !in flights
    requires s == Written().(l1 := map["A" := a, "B" := []], flights := flights[1 := Purging("A", "k", false)])
    ensures Path(s0, p + [PurgeRedis(1), EndPurge(1)] + [Deliver("A"), Deliver("B")], Quiet(a, []).(flights := flights))
  {
    DropAndAnnounce(a, flights);
    PathConcat(s0, p, s, [PurgeRedis(1), EndPurge(1)], Dropped(a, flights));
    HandleMessages(a, flights);
    PathConcat(s0, p + [PurgeRedis(1), EndPurge(1)], Dropped(a, flights), [Deliver("A"), Deliver("B")],
               Quiet(a, []).(flights := flights));
  }

  /** "B" read Redis before the purge, handles the eviction, and only then caches what it read. */
  lemma SlowFillOutlivesPurge()
    ensures Path(Start({"A", "B"}),
                 WRITE + ([BeginFill(2, "B", "k"), BeginPurge(1, "A", "k")] + [PurgeRedis(1), EndPurge(1)]
                          + [Deliver("A"), Deliver("B")] + [EndFill(2)]),
                 Quiet([], [OLD_SLOT]))
    ensures !Coherent(Quiet([], [OLD_SLOT]), "k")
  {
    hide Coherent;
    var s0 := Written();
    var fill := Filling("B", "k", OLD_ENTRY, 0);
    var s1 := Next(s0, BeginFill(2, "B", "k"), 0);
    var s2 := Next(s1, BeginPurge(1, "A", "k"), 0);
    PurgeOld();
    assert s2.l1["A"] == [];
    assert s2 == Written().(l1 := map["A" := [], "B" := []], flights := map[2 := fill][1 := Purging("A", "k", false)]);
    TwoSteps(s0, BeginFill(2, "B", "k"), s1, BeginPurge(1, "A", "k"), s2);
    FinishRace(s0, [BeginFill(2, "B", "k"), BeginPurge(1, "A", "k")], s2, [], map[2 := fill]);
    var s3 := Quiet([], []).(flights := map[2 := fill]);
    var s4 := Next(s3, EndFill(2), 0);
    assert s4.l1["B"] == [OLD_SLOT] && s4.flights == map[] && s4.l1 == map["A" := [], "B" := [OLD_SLOT]];
    OneStep(s3, EndFill(2), s4);
    PathConcat(s0, [BeginFill(2, "B", "k"), BeginPurge(1, "A", "k")] + [PurgeRedis(1), EndPurge(1)]
                   + [Deliver("A"), Deliver("B")],
               s3, [EndFill(2)], s4);
    WrittenIsReached();
    PathConcat(Start({"A", "B"}), WRITE, s0,
               [BeginFill(2, "B", "k"), BeginPurge(1, "A", "k")] + [PurgeRedis(1), EndPurge(1)]
               + [Deliver("A"), Deliver("B")] + [EndFill(2)],
               s4);
    QuietIsIncoherent([], [OLD_SLOT]);
  }

  /** A call that Redis rejects is over and has changed nothing but what it did before asking. */
  lemma RejectedCallIsOver(st: State, id: nat, latency: nat)
    requires Enabled(st, Fail(id), latency)
    ensures var t := Next(st, Fail(id), latency);
            id !in t.flights && t == st.(flights := t.flights)
            && forall k :: k in st.flights && k != id ==> k in t.flights && t.flights[k] == st.flights[k]
  {
  }

  /* ----- the staleness bound is met ----- */

  /** A value that was written with `n` seconds is still served by another instance `n` + 30 seconds later. */
  lemma BoundIsMet(n: nat) returns (t: State)
    requires n > 0
    ensures Path(Start({"A", "B"}),
                 [BeginSet(0, "A", "k", "v", Seconds(n), 0), EndSet(0)] + [Tick(n * 1000), BeginFill(1, "B", "k")]
                 + [EndFill(1), Tick(30_000)], t)
    ensures Serves(t, "B", "k", Stored("v", 0))
    ensures t.now == (n + 30) * 1000 && t.writes == [Write("k", "v", Seconds(n), 0)]
  {
    var s2 := WriteSeconds(n);
    var r := RedisEntry(Stored("v", 0), 0, "default", n * 1000);
    var s4 := TickAndFill(s2, n, r);
    t := KeepAndServe(s4, n, r);
    hide Next, Enabled, Serves;
    var s0 := Start({"A", "B"});
    PathConcat(s0, [BeginSet(0, "A", "k", "v", Seconds(n), 0), EndSet(0)], s2,
               [Tick(n * 1000), BeginFill(1, "B", "k")], s4);
    PathConcat(s0, [BeginSet(0, "A", "k", "v", Seconds(n), 0), EndSet(0)] + [Tick(n * 1000), BeginFill(1, "B", "k")],
               s4, [EndFill(1), Tick(30_000)], t);
  }

  lemma WriteSeconds(n: nat) returns (t: State)
    requires n > 0
    ensures Path(Start({"A", "B"}), [BeginSet(0, "A", "k", "v", Seconds(n), 0), EndSet(0)], t)
    ensures t.now == 0 && t.redis == map["k" := RedisEntry(Stored("v", 0), 0, "default", n * 1000)]
    ensures t.flights == map[] && "B" in t.l1 && t.l1["B"] == [] && t.writes == [Write("k", "v", Seconds(n), 0)]
  {
    hide Coherent;
    var s0 := Start({"A", "B"});
    var s1 := Next(s0, BeginSet(0, "A", "k", "v", Seconds(n), 0), 0);
    t := Next(s1, EndSet(0), 0);
    assert t.flights == map[];
    TwoSteps(s0, BeginSet(0, "A", "k", "v", Seconds(n), 0), s1, EndSet(0), t);
  }

  lemma KeepAndServe(s: State, n: nat, r: RedisEntry) returns (t: State)
    requires r == RedisEntry(Stored("v", 0), 0, "default", n * 1000) && s.now == n * 1000
    requires s.flights == map[1 := Filling("B", "k", r, n * 1000)] && "B" in s.l1 && s.l1["B"] == []
    ensures Path(s, [EndFill(1), Tick(30_000)], t)
    ensures Serves(t, "B", "k", Stored("v", 0)) && t.now == (n + 30) * 1000 && t.writes == s.writes
  {
    var u := Next(s, EndFill(1), 0);
    t := Next(u, Tick(30_000), 0);
    assert t.l1["B"] == [Slot("k", Entry(Stored("v", 0), n * 1000 + 30_000, 0))];
    TwoSteps(s, EndFill(1), u, Tick(30_000), t);
  }

  lemma TickAndFill(s: State, n: nat, r: RedisEntry) returns (t: State)
    requires s.now == 0 && "B" in s.l1 && s.redis == map["k" := r] && s.flights == map[] && r.expiresAt == n * 1000
    ensures Path(s, [Tick(n * 1000), BeginFill(1, "B", "k")], t)
    ensures t == s.(now := n * 1000, flights := map[1 := Filling("B", "k", r, n * 1000)])
  {
    var u := Next(s, Tick(n * 1000), 0);
    t := Next(u, BeginFill(1, "B", "k"), 0);
    TwoSteps(s, Tick(n * 1000), u, BeginFill(1, "B", "k"), t);
  }

  /* ----- one instance's API, with no other call in between ----- */

  function LiveInRedis(entries: map<string, RedisEntry>, key: string, now: int): Option<RedisEntry> {
    if key in entries && now <= entries[key].expiresAt then Some(entries[key]) else None
  }

  function CacheGetValue(s: seq<Slot<Stored>>, entries: map<string, RedisEntry>, key: string,
                         now: int): Option<Stored> {
    match GetResult(s, key, now)
    case Some(e) => Some(e.value)
    case None => match LiveInRedis(entries, key, now) case Some(r) => Some(r.stored) case None => None
  }

  function AfterCacheGet(s: seq<Slot<Stored>>, maxSize: int, entries: map<string, RedisEntry>, key: string,
                         now: int): seq<Slot<Stored>>
  {
    var t := AfterGet(s, key, now);
    if GetResult(s, key, now).Some? then t
    else match LiveInRedis(entries, key, now)
      case None => t
      case Some(r) =>
        var ttl := GetTTL(r.kind).l1;
        if ttl > 0 then AfterSet(t, maxSize, key, Entry(r.stored, now + ttl * 1000, r.computeMs)) else t
  }

  function AfterCacheSet(s: seq<Slot<Stored>>, maxSize: int, key: string, v: Stored, ttl: TtlOrType, computeMs: int,
                         now: int): seq<Slot<Stored>>
  {
    if L1Seconds(ttl) > 0 then AfterSet(s, maxSize, key, Entry(v, now + L1Seconds(ttl) * 1000, computeMs)) else s
  }

  function RedisAfterSet(entries: map<string, RedisEntry>, key: string, v: Stored, ttl: TtlOrType, computeMs: int,
                         now: int): map<string, RedisEntry>
  {
    if L2Seconds(ttl) > 0
    then entries[key := RedisEntry(v, computeMs, StoredType(ttl), now + L2Seconds(ttl) * 1000)]
    else entries
  }

  /** What an invalidation deletes: by glob in Redis, but by `deletePattern` in L1. */
  predicate Hit(keyOrPattern: string, key: string) {
    if '*' in keyOrPattern then Glob(keyOrPattern, key) else key == keyOrPattern
  }

  function AfterInvalidate(s: seq<Slot<Stored>>, keyOrPattern: string): seq<Slot<Stored>> {
    if '*' in keyOrPattern then AfterDeletePattern(s, keyOrPattern) else Without(s, keyOrPattern)
  }

  function InvalidateMessage(keyOrPattern: string, origin: string): Message {
    if '*' in keyOrPattern then DropPattern(keyOrPattern, origin) else DropKey(keyOrPattern, origin)
  }

  class RedisServer {
    var entries: map<string, RedisEntry>
    var channel: seq<Message>
  }

  class CacheNode {
    const id: string
    const l1: LRUCache<Stored>
    const redis: RedisServer?  // null when Redis is not configured or not reachable

    constructor (id: string, redis: RedisServer?)
      ensures this.id == id && this.redis == redis && fresh(l1) && l1.slots == [] && l1.maxSize == L1_MAX
    {
      this.id := id;
      this.redis := redis;
      this.l1 := new LRUCache(L1_MAX);
    }

    method CacheGet(key: string, now: int) returns (value: Option<Stored>)
      modifies l1`slots
      ensures value == CacheGetValue(old(l1.slots), if redis == null then map[] else redis.entries, key, now)
      ensures l1.slots == AfterCacheGet(old(l1.slots), l1.maxSize, if redis == null then map[] else redis.entries,
                                        key, now)
    {
      var hit := l1.Get(key, now);
      if hit.Some? { return Some(hit.value.value); }
      if redis != null && key in redis.entries && now <= redis.entries[key].expiresAt {
        var wrapped := redis.entries[key];
        var ttl := GetTTL(wrapped.kind);
        if ttl.l1 > 0 {
          l1.Set(key, wrapped.stored, ttl.l1 * 1000, wrapped.computeMs, now);
        }
        return Some(wrapped.stored);
      }
      return None;
    }

    method CacheSet(key: string, value: Stored, ttl: TtlOrType, computeMs: int, now: int)
      modifies l1`slots, if redis == null then {} else {redis}
      ensures l1.slots == AfterCacheSet(old(l1.slots), l1.maxSize, key, value, ttl, computeMs, now)
      ensures redis != null ==> redis.entries == RedisAfterSet(old(redis.entries), key, value, ttl, computeMs, now)
      ensures redis != null ==> redis.channel == old(redis.channel)
    {
      var l1Ttl, l2Ttl, kind;
      match ttl {
        case Seconds(n) => l1Ttl, l2Ttl, kind := n, n, "default";
        case Type(name) =>
          var cfg := GetTTL(name);
          l1Ttl, l2Ttl, kind := cfg.l1, cfg.l2, name;
      }
      if l1Ttl > 0 {
        l1.Set(key, value, l1Ttl * 1000, computeMs, now);
      }
      if redis != null && l2Ttl > 0 {
        redis.entries := redis.entries[key := RedisEntry(value, computeMs, kind, now + l2Ttl * 1000)];
      }
    }

    method CacheInvalidate(keyOrPattern: string)
      modifies l1`slots, if redis == null then {} else {redis}
      ensures l1.slots == AfterInvalidate(old(l1.slots), keyOrPattern)
      ensures redis != null ==>
                && redis.entries == (map k | k in old(redis.entries) && !Hit(keyOrPattern, k) :: old(redis.entries)[k])
                && redis.channel == old(redis.channel) + [InvalidateMessage(keyOrPattern, id)]
    {
      var isPattern := '*' in keyOrPattern;
      if isPattern {
        l1.DeletePattern(keyOrPattern);
      } else {
        l1.Delete(keyOrPattern);
      }
      if redis != null {
        redis.entries := map k | k in redis.entries && !Hit(keyOrPattern, k) :: redis.entries[k];
        var message := if isPattern then DropPattern(keyOrPattern, id) else DropKey(keyOrPattern, id);
        redis.channel := redis.channel + [message];
      }
    }

    /** The subscriber callback. */
    method OnMessage(m: Message)
      modifies l1`slots
      ensures l1.slots == AfterMessage(old(l1.slots), id, m)
    {
      if m.origin == id { return; }
      match m
      case DropPattern(p, _) => l1.DeletePattern(p);
      case DropKey(key, _) => l1.Delete(key);
    }
  }

  /** A `cacheGet` run without interruption is the protocol's read, begin-fill and end-fill taken in a row. */
  lemma UninterruptedGet(st: State, i: string, key: string, id: nat)
    requires i in st.l1 && id !in st.flights
    ensures var read := Next(st, ReadL1(i, key), 0);
            var after := if GetResult(st.l1[i], key, st.now).None? && LiveInRedis(st.redis, key, st.now).Some?
                         then Next(Next(read, BeginFill(id, i, key), 0), EndFill(id), 0) else read;
            && after.l1 == st.l1[i := AfterCacheGet(st.l1[i], L1_MAX, st.redis, key, st.now)]
            && after == st.(l1 := after.l1)
  {
    var read := Next(st, ReadL1(i, key), 0);
    if GetResult(st.l1[i], key, st.now).None? && LiveInRedis(st.redis, key, st.now).Some? {
      var begun := Next(read, BeginFill(id, i, key), 0);
      assert begun.flights - {id} == st.flights;
    }
  }

  /** A `cacheInvalidate` run without interruption is the begin, the drops in Redis and the end, taken in a row. */
  ghost predicate Invalidated(st: State, i: string, what: string, t: State)
    requires i in st.l1
  {
    && t.l1 == st.l1[i := AfterInvalidate(st.l1[i], what)]
    && t.redis == (map k | k in st.redis && !Hit(what, k) :: st.redis[k])
    && t.inbox == Broadcast(st.inbox, InvalidateMessage(what, i))
    && t.flights == st.flights && t.writes == st.writes && t.now == st.now
  }

  lemma UninterruptedPurge(st: State, i: string, key: string, id: nat)
    requires i in st.l1 && id !in st.flights && '*' !in key
    ensures Invalidated(st, i, key, Next(Next(Next(st, BeginPurge(id, i, key), 0), PurgeRedis(id), 0), EndPurge(id), 0))
  {
    hide Purge, Broadcast;
    var a := Next(st, BeginPurge(id, i, key), 0);
    var b := Next(a, PurgeRedis(id), 0);
    assert b.flights - {id} == st.flights;
    assert b.redis == map k | k in st.redis && !Hit(key, k) :: st.redis[k];
  }

  lemma UninterruptedSweep(st: State, i: string, pattern: string, id: nat)
    requires i in st.l1 && id !in st.flights && '*' in pattern
    ensures var keys := set k | k in st.redis && Hit(pattern, k);
            var a := Next(st, BeginSweep(id, i, pattern), 0);
            Enabled(a, SweepRound(id, keys), 0)
            && Invalidated(st, i, pattern, Next(Next(a, SweepRound(id, keys), 0), EndSweep(id), 0))
  {
    hide Glob, Matches, Purge, Broadcast;
    var keys := set k | k in st.redis && Hit(pattern, k);
    var a := Next(st, BeginSweep(id, i, pattern), 0);
    assert a == st.(l1 := st.l1[i := AfterDeletePattern(st.l1[i], pattern)],
                    flights := st.flights[id := Sweeping(i, pattern, {})]);
    var b := SweepAll(a, id, keys);
    assert b.flights - {id} == st.flights;
    RestOf(st.redis, keys, pattern);
    AnnounceSweep(b, id);
    hide Next, Enabled, Hit, AfterDeletePattern;
  }

  lemma AnnounceSweep(b: State, id: nat)
    requires Enabled(b, EndSweep(id), 0)
    ensures Next(b, EndSweep(id), 0)
         == b.(flights := b.flights - {id},
               inbox := Broadcast(b.inbox, DropPattern(b.flights[id].pattern, b.flights[id].inst)))
  {
    hide Broadcast;
  }

  lemma SweepAll(a: State, id: nat, keys: set<string>) returns (b: State)
    requires Enabled(a, SweepRound(id, keys), 0)
    ensures b == Next(a, SweepRound(id, keys), 0) && b.redis == a.redis - keys
    ensures b == a.(redis := b.redis, purged := b.purged, flights := b.flights)
    ensures b.flights == a.flights[id := a.flights[id].(swept := a.flights[id].swept + keys)]
  {
    hide Glob;
    b := Next(a, SweepRound(id, keys), 0);
  }

  lemma RestOf(redis: map<string, RedisEntry>, keys: set<string>, pattern: string)
    requires keys == set k | k in redis && Hit(pattern, k)
    ensures redis - keys == map k | k in redis && !Hit(pattern, k) :: redis[k]
  {
    hide Hit;
  }

  /**
   When what was set is got back: until both its TTLs have run out, if its type is kept in L1; otherwise exactly when
   L1 holds an unexpired copy of the same value, or none at all while Redis keeps the new one.
   */
  lemma GetAfterSet(s: seq<Slot<Stored>>, maxSize: int, entries: map<string, RedisEntry>, key: string, v: Stored,
                    ttl: TtlOrType, computeMs: int, now: int, later: int)
    requires L2Seconds(ttl) > 0
    ensures var got := CacheGetValue(AfterCacheSet(s, maxSize, key, v, ttl, computeMs, now),
                                     RedisAfterSet(entries, key, v, ttl, computeMs, now), key, later);
            && (L1Seconds(ttl) > 0 ==>
                  (got == Some(v) <==> later <= now + L1Seconds(ttl) * 1000 || later <= now + L2Seconds(ttl) * 1000))
            && (L1Seconds(ttl) <= 0 ==>
                  (got == Some(v) <==> match GetResult(s, key, later)
                                       case None => later <= now + L2Seconds(ttl) * 1000
                                       case Some(e) => e.value == v))
  {
    if L1Seconds(ttl) > 0 {
      var t := Evict(Without(s, key), maxSize);
      LookupPurge(s, Is(key), key);
      LookupIn(Without(s, key), key);
      LookupIn(t, key);
      LookupAppend(t, Slot(key, Entry(v, now + L1Seconds(ttl) * 1000, computeMs)), key);
    }
  }

  /** How long a value that was set is got back by the instance that set it, if nothing else is cached under the key. */
  lemma LifetimeOfSet(s: seq<Slot<Stored>>, maxSize: int, entries: map<string, RedisEntry>, key: string, v: Stored,
                      ttl: TtlOrType, computeMs: int, now: int, later: int)
    requires Lookup(s, key).None? && (ttl.Seconds? ==> ttl.n > 0)
    ensures CacheGetValue(AfterCacheSet(s, maxSize, key, v, ttl, computeMs, now),
                          RedisAfterSet(entries, key, v, ttl, computeMs, now), key, later) == Some(v)
            <==> later <= now + match ttl
                                case Seconds(n) => n * 1000
                                case Type("events_list") => 30_000
                                case Type("events_single") => 60_000
                                case Type("contracts_list") => 300_000
                                case Type("contracts_single") => 900_000
                                case Type("search") => 10_000
                                case Type("stats") => 300_000
                                case Type(_) => 60_000
  {
    GetAfterSet(s, maxSize, entries, key, v, ttl, computeMs, now, later);
  }

  /**
   How long an instance keeps what it reads from Redis, counted from that read: by the stored type, which is "default"
   for a value that was written with a number of seconds.  Then it misses, unless Redis still has the key.
   */
  lemma LifetimeOfRefill(s: seq<Slot<Stored>>, entries: map<string, RedisEntry>, key: string, v: Stored,
                         ttl: TtlOrType, computeMs: int, at: int, read: int, later: int)
    requires GetResult(s, key, read).None? && L2Seconds(ttl) > 0 && read <= at + L2Seconds(ttl) * 1000 && later >= read
    ensures var t := AfterCacheGet(s, L1_MAX, RedisAfterSet(entries, key, v, ttl, computeMs, at), key, read);
            var kept := match ttl
                        case Seconds(_) => 30_000
                        case Type("events_list") => 5_000
                        case Type("events_single") => 10_000
                        case Type("contracts_list") => 30_000
                        case Type("contracts_single") => 60_000
                        case Type("stats") => 60_000
                        case Type(_) => 30_000;
            CacheGetValue(t, map[], key, later)
            == if ttl != Type("search") && later <= read + kept then Some(v) else None
  {
    var r := RedisAfterSet(entries, key, v, ttl, computeMs, at);
    var e := Entry(v, read + GetTTL(StoredType(ttl)).l1 * 1000, computeMs);
    var before := AfterGet(s, key, read);
    var kept := Evict(Without(before, key), L1_MAX);
    LookupPurge(s, Is(key), key);
    LookupPurge(before, Is(key), key);
    LookupIn(Without(before, key), key);
    LookupIn(kept, key);
    LookupAppend(kept, Slot(key, e), key);
  }

  /**
   The instance that is met in practice: "search" has L1 TTL 0, so a copy cached earlier under another type goes on
   being served in place of the value just set.
   */
  lemma SetWithoutL1LeavesOldCopy(s: seq<Slot<Stored>>, entries: map<string, RedisEntry>, key: string, previous: Stored,
                                  v: Stored, now: int, later: int)
    requires previous != v && now <= later <= now + GetTTL("default").l1 * 1000
    ensures var t := AfterCacheSet(s, L1_MAX, key, previous, Type("default"), 0, now);
            var r := RedisAfterSet(entries, key, previous, Type("default"), 0, now);
            CacheGetValue(AfterCacheSet(t, L1_MAX, key, v, Type("search"), 0, now),
                          RedisAfterSet(r, key, v, Type("search"), 0, now), key, later) == Some(previous)
  {
    GetAfterSet(s, L1_MAX, entries, key, previous, Type("default"), 0, now, later);
    var t := AfterCacheSet(s, L1_MAX, key, previous, Type("default"), 0, now);
    var kept := Evict(Without(s, key), L1_MAX);
    var e := Entry(previous, now + GetTTL("default").l1 * 1000, 0);
    LookupPurge(s, Is(key), key);
    LookupIn(Without(s, key), key);
    LookupIn(kept, key);
    LookupAppend(kept, Slot(key, e), key);
    assert GetResult(t, key, later) == Some(e);
  }

  /**
   What an uninterrupted invalidation does to the next `cacheGet` of any key: by a prefix and one star it makes exactly
   the keys with that prefix miss, and otherwise exactly the key that it names.
   */
  lemma InvalidateMeaning(s: seq<Slot<Stored>>, entries: map<string, RedisEntry>, what: string, key: string, now: int)
    requires '*' in what ==> PrefixPattern(what)
    ensures CacheGetValue(AfterInvalidate(s, what), map k | k in entries && !Hit(what, k) :: entries[k], key, now)
         == if (if '*' in what then what[..|what| - 1] <= key else key == what) then None
            else CacheGetValue(s, entries, key, now)
  {
    if '*' in what {
      PatternAgreesWithRedis(what);
      assert Matches(what, key) <==> what[..|what| - 1] <= key;
      LookupPurge(s, Matching(what), key);
    } else {
      LookupPurge(s, Is(what), key);
    }
    hide Glob, Matches, Purge, Lookup;
  }

  /** After an uninterrupted invalidation of a key, the next `cacheGet` of it misses both tiers. */
  lemma GetAfterInvalidate(s: seq<Slot<Stored>>, entries: map<string, RedisEntry>, key: string, now: int)
    requires '*' !in key
    ensures CacheGetValue(AfterInvalidate(s, key), map k | k in entries && !Hit(key, k) :: entries[k], key, now) == None
  {
    LookupPurge(s, Is(key), key);
  }
}
