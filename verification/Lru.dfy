/**
 The in-process LRU map of indexer/src/cacheLayer.js (class `LRUCache`).

 A JavaScript `Map` iterates in insertion order, so it is modelled as the sequence of its slots,
 least recently used first, with distinct keys.
 */
module Lru {
  import opened Options

  datatype Entry<+V> = Entry(value: V, expiresAt: int, computeMs: int)

  datatype Slot<+V> = Slot(key: string, entry: Entry<V>)

  ghost predicate Distinct<V>(s: seq<Slot<V>>) {
    forall i, j :: 0 <= i < j < |s| ==> s[i].key != s[j].key
  }

  function Lookup<V>(s: seq<Slot<V>>, key: string): Option<Entry<V>> {
    if s == [] then None
    else if s[0].key == key then Some(s[0].entry)
    else Lookup(s[1..], key)
  }

  /** The slots whose key does not satisfy `drop`, in their order. */
  function Purge<V>(s: seq<Slot<V>>, drop: string -> bool): seq<Slot<V>> {
    if s == [] then []
    else if drop(s[0].key) then Purge(s[1..], drop)
    else [s[0]] + Purge(s[1..], drop)
  }

  function Is(key: string): string -> bool {
    k => k == key
  }

  /** `Map.delete(key)`. */
  function Without<V>(s: seq<Slot<V>>, key: string): seq<Slot<V>> {
    Purge(s, Is(key))
  }

  /* ----- what each cache operation leaves behind ----- */

  function GetResult<V>(s: seq<Slot<V>>, key: string, now: int): Option<Entry<V>> {
    match Lookup(s, key)
    case None => None
    case Some(e) => if now > e.expiresAt then None else Some(e)
  }

  function AfterGet<V>(s: seq<Slot<V>>, key: string, now: int): seq<Slot<V>> {
    match Lookup(s, key)
    case None => s
    case Some(e) =>
      if now > e.expiresAt then Without(s, key) else Without(s, key) + [Slot(key, e)]
  }

  /** Drops the first slot when the map has reached `maxSize`; dropping from an empty map does nothing. */
  function Evict<V>(s: seq<Slot<V>>, maxSize: int): seq<Slot<V>> {
    if |s| >= maxSize && |s| > 0 then s[1..] else s
  }

  function AfterSet<V>(s: seq<Slot<V>>, maxSize: int, key: string, e: Entry<V>): seq<Slot<V>> {
    Evict(Without(s, key), maxSize) + [Slot(key, e)]
  }

  /** `key.startsWith(prefix)` for a pattern "prefix*" with a non-empty prefix, equality otherwise. */
  predicate Matches(pattern: string, key: string) {
    if |pattern| > 1 && pattern[|pattern| - 1] == '*' then pattern[..|pattern| - 1] <= key
    else key == pattern
  }

  function Matching(pattern: string): string -> bool {
    k => Matches(pattern, k)
  }

  function AfterDeletePattern<V>(s: seq<Slot<V>>, pattern: string): seq<Slot<V>> {
    Purge(s, Matching(pattern))
  }

  /* ----- runs ----- */

  datatype Op<+V> =
    | Get(key: string)
    | Set(key: string, value: V, ttlMs: int, computeMs: int)
    | Delete(key: string)
    | DeletePattern(pattern: string)

  datatype Call<+V> = Call(now: int, op: Op<V>)

  function After<V>(s: seq<Slot<V>>, maxSize: int, c: Call<V>): seq<Slot<V>> {
    match c.op
    case Get(key) => AfterGet(s, key, c.now)
    case Set(key, v, ttl, ms) => AfterSet(s, maxSize, key, Entry(v, c.now + ttl, ms))
    case Delete(key) => Without(s, key)
    case DeletePattern(p) => AfterDeletePattern(s, p)
  }

  function Run<V>(s: seq<Slot<V>>, maxSize: int, calls: seq<Call<V>>): seq<Slot<V>>
    decreases |calls|
  {
    if calls == [] then s
    else After(Run(s, maxSize, calls[..|calls| - 1]), maxSize, calls[|calls| - 1])
  }

  /** What the last call of a run answers, when it is a `get`. */
  function Answer<V>(s: seq<Slot<V>>, maxSize: int, calls: seq<Call<V>>, key: string, now: int): Option<Entry<V>> {
    GetResult(Run(s, maxSize, calls), key, now)
  }

  /* ----- facts about purging ----- */

  lemma {:induction false} PurgeKeeps<V>(s: seq<Slot<V>>, drop: string -> bool)
    ensures |Purge(s, drop)| <= |s|
    ensures forall x :: x in Purge(s, drop) ==> x in s && !drop(x.key)
    ensures forall x :: x in s && !drop(x.key) ==> x in Purge(s, drop)
  {
    if s != [] {
      PurgeKeeps(s[1..], drop);
      assert s == [s[0]] + s[1..];
    }
  }

  lemma {:induction false} PurgeDistinct<V>(s: seq<Slot<V>>, drop: string -> bool)
    requires Distinct(s)
    ensures Distinct(Purge(s, drop))
  {
    if s != [] {
      PurgeDistinct(s[1..], drop);
      PurgeKeeps(s[1..], drop);
      var rest := Purge(s[1..], drop);
      forall x | x in rest ensures x.key != s[0].key {
        assert x in s[1..];
      }
    }
  }

  lemma {:induction false} PurgeNothing<V>(s: seq<Slot<V>>, drop: string -> bool)
    requires forall x :: x in s ==> !drop(x.key)
    ensures Purge(s, drop) == s
  {
    if s != [] {
      assert s[0] in s;
      PurgeNothing(s[1..], drop);
    }
  }

  /** A lookup of a surviving key sees the same entry after a purge, and a dropped key is gone. */
  lemma {:induction false} LookupPurge<V>(s: seq<Slot<V>>, drop: string -> bool, key: string)
    ensures Lookup(Purge(s, drop), key) == if drop(key) then None else Lookup(s, key)
  {
    if s != [] {
      LookupPurge(s[1..], drop, key);
      if !drop(s[0].key) {
        assert Purge(s, drop)[1..] == Purge(s[1..], drop);
      }
    }
  }

  lemma {:induction false} LookupAppend<V>(s: seq<Slot<V>>, x: Slot<V>, key: string)
    ensures Lookup(s + [x], key) ==
            if Lookup(s, key).Some? then Lookup(s, key) else if x.key == key then Some(x.entry) else None
  {
    if s == [] {
      assert s + [x] == [x];
    } else {
      LookupAppend(s[1..], x, key);
      assert (s + [x])[1..] == s[1..] + [x];
    }
  }

  lemma {:induction false} LookupIn<V>(s: seq<Slot<V>>, key: string)
    ensures Lookup(s, key).Some? ==> Slot(key, Lookup(s, key).value) in s
    ensures Lookup(s, key).None? ==> forall x :: x in s ==> x.key != key
  {
    if s != [] {
      LookupIn(s[1..], key);
      assert s == [s[0]] + s[1..];
    }
  }

  lemma {:induction false} LookupUnique<V>(s: seq<Slot<V>>, x: Slot<V>)
    requires Distinct(s) && x in s
    ensures Lookup(s, x.key) == Some(x.entry)
  {
    if s[0] != x {
      LookupUnique(s[1..], x);
    }
  }

  /** Every operation keeps the keys distinct and the size within the capacity. */
  lemma AfterKeepsWellFormed<V>(s: seq<Slot<V>>, maxSize: int, c: Call<V>)
    requires maxSize >= 1 && Distinct(s) && |s| <= maxSize
    ensures Distinct(After(s, maxSize, c)) && |After(s, maxSize, c)| <= maxSize
  {
    match c.op
    case Get(key) =>
      PurgeDistinct(s, Is(key));
      PurgeKeeps(s, Is(key));
      match Lookup(s, key) {
        case None =>
        case Some(e) =>
          LookupIn(s, key);
          PurgeShrinks(s, Is(key), Slot(key, e));
      }
    case Set(key, v, ttl, ms) =>
      PurgeDistinct(s, Is(key));
      PurgeKeeps(s, Is(key));
      var t := Evict(Without(s, key), maxSize);
      assert forall x :: x in t ==> x in Without(s, key);
    case Delete(key) =>
      PurgeDistinct(s, Is(key));
      PurgeKeeps(s, Is(key));
    case DeletePattern(p) =>
      PurgeDistinct(s, Matching(p));
      PurgeKeeps(s, Matching(p));
  }

  lemma {:induction false} PurgeShrinks<V>(s: seq<Slot<V>>, drop: string -> bool, x: Slot<V>)
    requires x in s && drop(x.key)
    ensures |Purge(s, drop)| < |s|
  {
    PurgeKeeps(s[1..], drop);
    if s[0] != x {
      PurgeShrinks(s[1..], drop, x);
    }
  }

  /* ----- inclusion: a larger cache never loses a hit ----- */

  /** `s` is `t` with some slots left out: the common slots are equal and stand in the same recency order. */
  ghost predicate Sub<V>(s: seq<Slot<V>>, t: seq<Slot<V>>) {
    if s == [] then true
    else if t == [] then false
    else if s[0] == t[0] then Sub(s[1..], t[1..])
    else Sub(s, t[1..])
  }

  lemma {:induction false} SubCons<V>(s: seq<Slot<V>>, x: Slot<V>, t: seq<Slot<V>>)
    requires Sub(s, t)
    ensures Sub(s, [x] + t)
    decreases |s| + |t|, 1
  {
    assert ([x] + t)[1..] == t;
    if s != [] && s[0] == x {
      if s[0] == t[0] {
        SubCons(s[1..], t[0], t[1..]);
        assert t == [t[0]] + t[1..];
      } else {
        SubTail(s, t);
      }
    }
  }

  lemma {:induction false} SubTail<V>(s: seq<Slot<V>>, t: seq<Slot<V>>)
    requires s != [] && Sub(s, t)
    ensures Sub(s[1..], t)
    decreases |s| + |t|, 0
  {
    assert t == [t[0]] + t[1..];
    if s[0] == t[0] {
      SubCons(s[1..], t[0], t[1..]);
    } else {
      SubTail(s, t[1..]);
      SubCons(s[1..], t[0], t[1..]);
    }
  }

  lemma {:induction false} SubSnoc<V>(s: seq<Slot<V>>, t: seq<Slot<V>>, x: Slot<V>)
    requires Sub(s, t)
    ensures Sub(s, t + [x])
    ensures Sub(s + [x], t + [x])
  {
    if t == [] {
      assert s == [] && [x] + [] == [x] && Sub([x], [x]);
      assert s + [x] == [x] && t + [x] == [x];
    } else {
      assert (t + [x])[1..] == t[1..] + [x];
      if s == [] {
        SubSnoc([], t[1..], x);
        assert [] + [x] == [x];
        SubCons([x], t[0], t[1..] + [x]);
        assert [t[0]] + (t[1..] + [x]) == t + [x];
      } else if s[0] == t[0] {
        SubSnoc(s[1..], t[1..], x);
        assert (s + [x])[1..] == s[1..] + [x];
      } else {
        SubSnoc(s, t[1..], x);
        assert (s + [x])[0] == s[0];
      }
    }
  }

  /** The same purge keeps the relation, and takes at least as many slots from the larger cache. */
  lemma {:induction false} SubPurge<V>(s: seq<Slot<V>>, t: seq<Slot<V>>, drop: string -> bool)
    requires Sub(s, t)
    ensures Sub(Purge(s, drop), Purge(t, drop))
    ensures |s| - |Purge(s, drop)| <= |t| - |Purge(t, drop)|
  {
    if t == [] {
    } else if s == [] {
      PurgeKeeps(t, drop);
    } else if s[0] == t[0] {
      SubPurge(s[1..], t[1..], drop);
      assert ([s[0]] + Purge(s[1..], drop))[1..] == Purge(s[1..], drop);
      assert ([t[0]] + Purge(t[1..], drop))[1..] == Purge(t[1..], drop);
    } else {
      SubPurge(s, t[1..], drop);
      SubCons(Purge(s, drop), t[0], Purge(t[1..], drop));
    }
  }

  lemma {:induction false} SubMember<V>(s: seq<Slot<V>>, t: seq<Slot<V>>, x: Slot<V>)
    requires Sub(s, t) && x in s
    ensures x in t && |s| <= |t|
  {
    SubLength(s, t);
    assert t == [t[0]] + t[1..];
    if s[0] == t[0] {
      if x != s[0] {
        SubMember(s[1..], t[1..], x);
      }
    } else {
      SubMember(s, t[1..], x);
    }
  }

  lemma {:induction false} SubLength<V>(s: seq<Slot<V>>, t: seq<Slot<V>>)
    requires Sub(s, t)
    ensures |s| <= |t|
  {
    if s != [] {
      if s[0] == t[0] { SubLength(s[1..], t[1..]); } else { SubLength(s, t[1..]); }
    }
  }

  /** The relation between a cache of capacity k and one of capacity K fed the same calls. */
  ghost predicate Included<V>(s: seq<Slot<V>>, k: int, t: seq<Slot<V>>, K: int) {
    && Sub(s, t) && Distinct(s) && Distinct(t)
    && |s| <= k && |t| <= K
    && |t| - |s| <= K - k
  }

  lemma IncludedLookup<V>(s: seq<Slot<V>>, t: seq<Slot<V>>, key: string)
    requires Sub(s, t) && Distinct(t) && Lookup(s, key).Some?
    ensures Lookup(t, key) == Lookup(s, key)
  {
    LookupIn(s, key);
    var x := Slot(key, Lookup(s, key).value);
    SubMember(s, t, x);
    LookupUnique(t, x);
  }

  lemma IncludedStep<V>(s: seq<Slot<V>>, k: int, t: seq<Slot<V>>, K: int, c: Call<V>)
    requires 1 <= k <= K && Included(s, k, t, K)
    ensures Included(After(s, k, c), k, After(t, K, c), K)
  {
    AfterKeepsWellFormed(s, k, c);
    AfterKeepsWellFormed(t, K, c);
    match c.op
    case Get(key) => IncludedGet(s, k, t, K, key, c.now);
    case Set(key, v, ttl, ms) =>
      SubPurge(s, t, Is(key));
      var s1, t1 := Without(s, key), Without(t, key);
      SubLength(s1, t1);
      if |s1| >= k {
        SubTail(s1, t1);
        if |t1| >= K && s1[0] != t1[0] {
          SubTail(s1, t1[1..]);
        }
      }
      SubSnoc(Evict(s1, k), Evict(t1, K), Slot(key, Entry(v, c.now + ttl, ms)));
    case Delete(key) => SubPurge(s, t, Is(key));
    case DeletePattern(p) => SubPurge(s, t, Matching(p));
  }

  lemma IncludedGet<V>(s: seq<Slot<V>>, k: int, t: seq<Slot<V>>, K: int, key: string, now: int)
    requires 1 <= k <= K && Included(s, k, t, K)
    ensures Sub(AfterGet(s, key, now), AfterGet(t, key, now))
    ensures |AfterGet(t, key, now)| - |AfterGet(s, key, now)| <= K - k
  {
    SubPurge(s, t, Is(key));
    if Lookup(s, key).Some? {
      IncludedLookup(s, t, key);
      SubSnoc(Without(s, key), Without(t, key), Slot(key, Lookup(s, key).value));
    } else {
      LookupIn(s, key);
      PurgeNothing(s, Is(key));
      if Lookup(t, key).Some? {
        LookupIn(t, key);
        PurgeShrinks(t, Is(key), Slot(key, Lookup(t, key).value));
        SubSnoc(s, Without(t, key), Slot(key, Lookup(t, key).value));
      }
    }
  }

  /**
   Inclusion over whole runs: the smaller cache's slots are among the larger one's, with the same
   values and expiries and in the same recency order, and the larger one holds at most K - k more.
   */
  lemma {:induction false} RunIncluded<V>(k: int, K: int, calls: seq<Call<V>>)
    requires 1 <= k <= K
    ensures Included(Run([], k, calls), k, Run([], K, calls), K)
    decreases |calls|
  {
    if calls != [] {
      var before := calls[..|calls| - 1];
      RunIncluded(k, K, before);
      IncludedStep(Run([], k, before), k, Run([], K, before), K, calls[|calls| - 1]);
    }
  }

  /** Raising the capacity never loses a hit, and a hit is answered with the same entry. */
  lemma LargerCapacityKeepsHits<V>(k: int, K: int, calls: seq<Call<V>>, key: string, now: int)
    requires 1 <= k <= K
    ensures Answer([], k, calls, key, now).Some? ==>
              Answer([], K, calls, key, now) == Answer([], k, calls, key, now)
  {
    RunIncluded(k, K, calls);
    var s, t := Run([], k, calls), Run([], K, calls);
    if Lookup(s, key).Some? {
      IncludedLookup(s, t, key);
    }
  }

  /** A recency bump never extends a life: a `get` leaves every slot's entry as it was, and adds none. */
  lemma GetNeverExtends<V>(s: seq<Slot<V>>, key: string, now: int)
    ensures forall x :: x in AfterGet(s, key, now) ==> x in s
  {
    PurgeKeeps(s, Is(key));
    LookupIn(s, key);
  }

  /* ----- who is evicted ----- */

  /** The number of the last call that read or wrote the key, counted from 1; 0 if none did. */
  function LastUse<V>(calls: seq<Call<V>>, key: string): nat {
    if calls == [] then 0
    else
      var op := calls[|calls| - 1].op;
      if (op.Get? || op.Set?) && op.key == key then |calls| else LastUse(calls[..|calls| - 1], key)
  }

  lemma {:induction false} LastUseBound<V>(calls: seq<Call<V>>, key: string)
    ensures LastUse(calls, key) <= |calls|
  {
    if calls != [] {
      LastUseBound(calls[..|calls| - 1], key);
    }
  }

  /** From the key that was used longest ago to the one used last. */
  ghost predicate ByUse<V>(s: seq<Slot<V>>, calls: seq<Call<V>>) {
    forall i, j :: 0 <= i < j < |s| ==> LastUse(calls, s[i].key) < LastUse(calls, s[j].key)
  }

  lemma {:induction false} PurgeByUse<V>(s: seq<Slot<V>>, drop: string -> bool, calls: seq<Call<V>>)
    requires ByUse(s, calls)
    ensures ByUse(Purge(s, drop), calls)
  {
    hide LastUse;
    if s != [] {
      PurgeByUse(s[1..], drop, calls);
      PurgeKeeps(s[1..], drop);
      var rest := Purge(s[1..], drop);
      if !drop(s[0].key) {
        forall j | 0 <= j < |rest| ensures LastUse(calls, s[0].key) < LastUse(calls, rest[j].key) {
          assert rest[j] in s[1..];
          var k :| 0 <= k < |s[1..]| && s[1..][k] == rest[j];
          assert s[k + 1] == rest[j];
        }
      }
    }
  }

  /** What the last call does to a list ordered by the use before it: a used key goes to the end. */
  lemma UsedLast<V>(s: seq<Slot<V>>, calls: seq<Call<V>>, x: Slot<V>)
    requires calls != [] && ByUse(s, calls[..|calls| - 1])
    requires var op := calls[|calls| - 1].op; (op.Get? || op.Set?) && op.key == x.key
    requires forall y :: y in s ==> y.key != x.key
    ensures ByUse(s + [x], calls)
  {
    var t := s + [x];
    forall i, j | 0 <= i < j < |t| ensures LastUse(calls, t[i].key) < LastUse(calls, t[j].key) {
      assert t[i] in s;
      LastUseBound(calls[..|calls| - 1], t[i].key);
    }
  }

  lemma NotUsed<V>(s: seq<Slot<V>>, calls: seq<Call<V>>)
    requires calls != [] && ByUse(s, calls[..|calls| - 1])
    requires var op := calls[|calls| - 1].op;
             (op.Get? || op.Set?) ==> forall y :: y in s ==> y.key != op.key
    ensures ByUse(s, calls)
  {
    forall i, j | 0 <= i < j < |s| ensures LastUse(calls, s[i].key) < LastUse(calls, s[j].key) {
      assert s[i] in s && s[j] in s;
    }
  }

  lemma GetByUse<V>(s: seq<Slot<V>>, calls: seq<Call<V>>, key: string)
    requires calls != [] && ByUse(s, calls[..|calls| - 1]) && calls[|calls| - 1].op == Get(key)
    ensures ByUse(AfterGet(s, key, calls[|calls| - 1].now), calls)
  {
    hide LastUse, Purge, ByUse;
    PurgeByUse(s, Is(key), calls[..|calls| - 1]);
    PurgeKeeps(s, Is(key));
    if Lookup(s, key).None? {
      LookupNone(s, key);
      NotUsed(s, calls);
    } else {
      NotUsed(Without(s, key), calls);
      UsedLast(Without(s, key), calls, Slot(key, Lookup(s, key).value));
    }
  }

  lemma SetByUse<V>(s: seq<Slot<V>>, calls: seq<Call<V>>, maxSize: int, key: string, e: Entry<V>)
    requires calls != [] && ByUse(s, calls[..|calls| - 1])
    requires calls[|calls| - 1].op.Set? && calls[|calls| - 1].op.key == key
    ensures ByUse(AfterSet(s, maxSize, key, e), calls)
  {
    hide LastUse, Purge;
    PurgeByUse(s, Is(key), calls[..|calls| - 1]);
    PurgeKeeps(s, Is(key));
    var kept := Evict(Without(s, key), maxSize);
    assert ByUse(kept, calls[..|calls| - 1]);
    hide ByUse;
    UsedLast(kept, calls, Slot(key, e));
  }

  lemma DropByUse<V>(s: seq<Slot<V>>, calls: seq<Call<V>>, drop: string -> bool)
    requires calls != [] && ByUse(s, calls[..|calls| - 1])
    requires calls[|calls| - 1].op.Delete? || calls[|calls| - 1].op.DeletePattern?
    ensures ByUse(Purge(s, drop), calls)
  {
    hide LastUse, Purge, ByUse;
    PurgeByUse(s, drop, calls[..|calls| - 1]);
    NotUsed(Purge(s, drop), calls);
  }

  /** In every run the slots stand in the order of their last use. */
  lemma {:induction false} RunByUse<V>(maxSize: int, calls: seq<Call<V>>)
    ensures ByUse(Run([], maxSize, calls), calls)
    decreases |calls|
  {
    if calls == [] {
      assert ByUse<V>([], []);
    } else {
      hide LastUse, ByUse, AfterGet, AfterSet;
      var s, c := Run([], maxSize, calls[..|calls| - 1]), calls[|calls| - 1];
      RunByUse(maxSize, calls[..|calls| - 1]);
      match c.op
      case Get(key) => GetByUse(s, calls, key);
      case Set(key, v, ttl, ms) => SetByUse(s, calls, maxSize, key, Entry(v, c.now + ttl, ms));
      case Delete(key) => DropByUse(s, calls, Is(key));
      case DeletePattern(p) => DropByUse(s, calls, Matching(p));
    }
  }

  lemma {:induction false} LookupNone<V>(s: seq<Slot<V>>, key: string)
    requires Lookup(s, key).None?
    ensures forall y :: y in s ==> y.key != key
  {
    if s != [] {
      LookupNone(s[1..], key);
      assert s == [s[0]] + s[1..];
    }
  }

  /**
   A `set` of a new key keeps every key while there is room; in a full cache it drops exactly one, whose last use lies
   before that of every other key held.
   */
  lemma SetEvictsLeastRecent<V>(maxSize: int, calls: seq<Call<V>>, now: int, key: string, value: V, ttl: int, ms: int)
    requires var s := Run([], maxSize, calls); s != [] && forall x :: x in s ==> x.key != key
    ensures var s := Run([], maxSize, calls);
            && Run([], maxSize, calls + [Call(now, Set(key, value, ttl, ms))])
               == (if |s| < maxSize then s else s[1..]) + [Slot(key, Entry(value, now + ttl, ms))]
            && forall x :: x in s[1..] ==> LastUse(calls, s[0].key) < LastUse(calls, x.key)
  {
    var s, c := Run([], maxSize, calls), Call(now, Set(key, value, ttl, ms));
    assert (calls + [c])[..|calls|] == calls && (calls + [c])[|calls|] == c;
    RunByUse(maxSize, calls);
    PurgeNothing(s, Is(key));
    assert Run([], maxSize, calls + [c]) == After(s, maxSize, c);
    hide LastUse, Purge, Run;
    forall x | x in s[1..] ensures LastUse(calls, s[0].key) < LastUse(calls, x.key) {
      var k :| 0 <= k < |s[1..]| && s[1..][k] == x;
      assert s[k + 1] == x;
    }
  }

  /* ----- pattern eviction against the glob that Redis applies ----- */

  /**
   What follows the bracket class whose members begin at `s`: the class ends behind its first `]`, or with the pattern.
   A backslash takes the next character literally and `x-y` stands for a range.
   */
  function AfterClass(s: string): (r: string)
    ensures |r| <= |s| && (s != "" ==> |r| < |s|)
  {
    if s == "" then ""
    else if s[0] == '\\' && |s| >= 2 then AfterClass(s[2..])
    else if s[0] == ']' then s[1..]
    else if |s| >= 3 && s[1] == '-' then AfterClass(s[3..])
    else AfterClass(s[1..])
  }

  /** Whether `c` is one of the members that begin at `s`. */
  predicate ClassHas(s: string, c: char) {
    if s == "" then false
    else if s[0] == '\\' && |s| >= 2 then c == s[1] || ClassHas(s[2..], c)
    else if s[0] == ']' then false
    else if |s| >= 3 && s[1] == '-' then s[0] <= c <= s[2] || s[2] <= c <= s[0] || ClassHas(s[3..], c)
    else c == s[0] || ClassHas(s[1..], c)
  }

  /** The members of a class behind its `[` and, for a negated class, its `^`. */
  function Members(s: string): (r: string)
    ensures |r| <= |s|
  {
    if s != "" && s[0] == '^' then s[1..] else s
  }

  predicate InClass(s: string, c: char) {
    ClassHas(Members(s), c) != (s != "" && s[0] == '^')
  }

  /** Redis MATCH: `*`, `?`, bracket classes, and the backslash that takes the next character literally. */
  predicate Glob(pattern: string, key: string)
    decreases |pattern| + |key|
  {
    if pattern == "" then key == ""
    else if pattern[0] == '*' then Glob(pattern[1..], key) || (key != "" && Glob(pattern, key[1..]))
    else if key == "" then false
    else if pattern[0] == '?' then Glob(pattern[1..], key[1..])
    else if pattern[0] == '[' then
      InClass(pattern[1..], key[0]) && Glob(AfterClass(Members(pattern[1..])), key[1..])
    else if pattern[0] == '\\' && |pattern| >= 2 then key[0] == pattern[1] && Glob(pattern[2..], key[1..])
    else key[0] == pattern[0] && Glob(pattern[1..], key[1..])
  }

  /** A key that the pattern matches, as short as a key can be; none when one of its classes has no member. */
  ghost function Shortest(p: string): (r: Option<string>)
    ensures r.Some? ==> |r.value| <= |p| && ('*' in p ==> |r.value| < |p|)
    decreases |p|
  {
    if p == "" then Some("")
    else if p[0] == '*' then Shortest(p[1..])
    else if p[0] == '?' then Behind('a', Shortest(p[1..]))
    else if p[0] == '[' then
      var rest := Shortest(AfterClass(Members(p[1..])));
      if c: char :| InClass(p[1..], c) then Behind(c, rest) else None
    else if p[0] == '\\' && |p| >= 2 then Behind(p[1], Shortest(p[2..]))
    else Behind(p[0], Shortest(p[1..]))
  }

  function Behind(c: char, rest: Option<string>): Option<string> {
    if rest.None? then None else Some([c] + rest.value)
  }

  lemma {:induction false} ShortestMatches(p: string)
    requires Shortest(p).Some?
    ensures Glob(p, Shortest(p).value)
    decreases |p|
  {
    hide InClass, AfterClass, Members;
    if p == "" {
    } else if p[0] == '*' {
      ShortestMatches(p[1..]);
    } else if p[0] == '?' {
      ShortestMatches(p[1..]);
      assert (['a'] + Shortest(p[1..]).value)[1..] == Shortest(p[1..]).value;
    } else if p[0] == '[' {
      ShortestInClass(p);
    } else if p[0] == '\\' && |p| >= 2 {
      ShortestMatches(p[2..]);
      assert ([p[1]] + Shortest(p[2..]).value)[1..] == Shortest(p[2..]).value;
    } else {
      ShortestMatches(p[1..]);
      assert ([p[0]] + Shortest(p[1..]).value)[1..] == Shortest(p[1..]).value;
    }
  }

  lemma {:induction false} ShortestInClass(p: string)
    requires p != "" && p[0] == '[' && Shortest(p).Some?
    ensures Glob(p, Shortest(p).value)
    decreases |p|, 0
  {
    var behind := AfterClass(Members(p[1..]));
    hide AfterClass, Members;
    ShortestMatches(behind);
    hide InClass;
    var key := Shortest(p).value;
    assert key[1..] == Shortest(behind).value;
  }

  lemma {:induction false} NoneMatches(p: string, key: string)
    requires Shortest(p).None?
    ensures !Glob(p, key)
    decreases |p| + |key|
  {
    hide InClass, ClassHas;
    if p[0] == '*' {
      NoneMatches(p[1..], key);
      if key != "" { NoneMatches(p, key[1..]); }
    } else if key != "" {
      if p[0] == '[' {
        if InClass(p[1..], key[0]) { NoneMatches(AfterClass(Members(p[1..])), key[1..]); }
      } else if p[0] == '\\' && |p| >= 2 {
        NoneMatches(p[2..], key[1..]);
      } else {
        NoneMatches(p[1..], key[1..]);
      }
    }
  }

  predicate Special(c: char) {
    c == '*' || c == '?' || c == '[' || c == '\\'
  }

  predicate Literal(q: string) {
    forall i :: 0 <= i < |q| ==> !Special(q[i])
  }

  lemma {:induction false} GlobStarMatchesAll(key: string)
    ensures Glob("*", key)
  {
    assert "*"[1..] == "";
    if key != "" {
      GlobStarMatchesAll(key[1..]);
    }
  }

  lemma {:induction false} GlobPrefix(q: string, key: string)
    requires Literal(q)
    ensures Glob(q + "*", key) <==> q <= key
  {
    if q == "" {
      assert q + "*" == "*";
      GlobStarMatchesAll(key);
    } else {
      assert !Special(q[0]);
      assert (q + "*")[1..] == q[1..] + "*" && (q + "*")[0] == q[0];
      if key != "" && key[0] == q[0] {
        GlobPrefix(q[1..], key[1..]);
        if q[1..] <= key[1..] {
          assert q == [q[0]] + q[1..] && key == [key[0]] + key[1..];
        }
      }
    }
  }

  lemma {:induction false} AfterClassIsSuffix(s: string)
    ensures AfterClass(s) == s[|s| - |AfterClass(s)|..]
  {
    if s == "" {
    } else if s[0] == '\\' && |s| >= 2 {
      AfterClassIsSuffix(s[2..]);
    } else if s[0] == ']' {
    } else if |s| >= 3 && s[1] == '-' {
      AfterClassIsSuffix(s[3..]);
    } else {
      AfterClassIsSuffix(s[1..]);
    }
  }

  lemma ClassLeavesText(q: string)
    requires q != "" && q[0] == '[' && Shortest(q + "*").Some?
    ensures !(q <= Shortest(q + "*").value)
  {
    var m := q[1..] + "*";
    assert (q + "*")[0] == '[' && (q + "*")[1..] == m;
    var members := Members(m);
    var behind := AfterClass(members);
    AfterClassIsSuffix(members);
    if |q| == 1 {
      assert m == "*" && members == "*" && members[1..] == "";
      forall c: char | InClass(m, c) ensures c == '*' {
        assert ClassHas(members, c) && !ClassHas(members[1..], c);
      }
      assert Shortest(q + "*").value[0] == '*';
    } else {
      hide InClass, AfterClass;
      var key := Shortest(q + "*").value;
      assert |key| == 1 + |Shortest(behind).value|;
      if behind != "" {
        assert members[|members| - 1] == '*' && behind[|behind| - 1] == '*';
        assert '*' in behind;
      }
    }
  }

  lemma TailPrefix(q: string, key: string)
    requires q != "" && q <= key
    ensures q[1..] <= key[1..]
  {
  }

  /** Behind a special character the shortest match does not start with the text of the pattern. */
  lemma {:induction false} ShortestLeavesText(q: string)
    requires !Literal(q) && Shortest(q + "*").Some?
    ensures !(q <= Shortest(q + "*").value)
  {
    hide InClass, ClassHas;
    var p := q + "*";
    var key := Shortest(p).value;
    assert p[0] == q[0] && p[1..] == q[1..] + "*" && p[1..][|q| - 1] == '*' && '*' in p[1..];
    if q[0] == '*' {
      assert |key| < |q|;
    } else if q[0] == '?' {
      assert key[0] == 'a';
    } else if q[0] == '[' {
      ClassLeavesText(q);
    } else if q[0] == '\\' {
      if |q| == 1 {
        assert key[0] == '*';
      } else {
        assert p[2..] == q[2..] + "*" && p[2..][|q| - 2] == '*' && '*' in p[2..];
        assert |key| < |q|;
      }
    } else {
      assert !Literal(q[1..]) by { assert forall i :: 1 <= i < |q| ==> q[i] == q[1..][i - 1]; }
      ShortestLeavesText(q[1..]);
      assert key[1..] == Shortest(q[1..] + "*").value;
      if q <= key { TailPrefix(q, key); }
    }
  }

  /** The patterns on which the in-process eviction and the Redis scan remove the same keys. */
  predicate PrefixPattern(p: string) {
    |p| > 1 && p[|p| - 1] == '*' && Literal(p[..|p| - 1])
  }

  /**
   `deletePattern` removes exactly the keys a Redis scan would, for every key, just when the pattern is a non-empty
   prefix without special characters followed by one star.  In particular "*" evicts nothing but a key named "*", and
   "a?*" leaves the key "ab".
   */
  lemma PatternAgreesWithRedis(p: string)
    requires '*' in p
    ensures (forall key :: Matches(p, key) <==> Glob(p, key)) <==> PrefixPattern(p)
  {
    hide Glob, Shortest;
    var q := p[..|p| - 1];
    assert p[|p| - 1] == '*' ==> p == q + "*";
    if PrefixPattern(p) {
      forall key ensures Matches(p, key) <==> Glob(p, key) {
        GlobPrefix(q, key);
      }
    } else if Shortest(p).None? {
      var key := if |p| > 1 && p[|p| - 1] == '*' then q else p;
      NoneMatches(p, key);
      assert Matches(p, key);
    } else {
      var key := Shortest(p).value;
      ShortestMatches(p);
      if |p| > 1 && p[|p| - 1] == '*' { ShortestLeavesText(q); }
      assert Glob(p, key) && !Matches(p, key);
    }
  }

  /* ----- the class ----- */

  class LRUCache<V> {
    const maxSize: int
    var slots: seq<Slot<V>>

    constructor (maxSize: int)
      ensures this.maxSize == maxSize && slots == []
    {
      this.maxSize := maxSize;
      slots := [];
    }

    method Get(key: string, now: int) returns (entry: Option<Entry<V>>)
      modifies this`slots
      ensures entry == GetResult(old(slots), key, now)
      ensures slots == AfterGet(old(slots), key, now)
    {
      entry := Lookup(slots, key);
      if entry.None? { return; }
      if now > entry.value.expiresAt {
        slots := Without(slots, key);
        return None;
      }
      slots := Without(slots, key);
      slots := slots + [Slot(key, entry.value)];
    }

    method Set(key: string, value: V, ttlMs: int, computeMs: int, now: int)
      modifies this`slots
      ensures slots == AfterSet(old(slots), maxSize, key, Entry(value, now + ttlMs, computeMs))
    {
      slots := Without(slots, key);
      if |slots| >= maxSize && |slots| > 0 {
        slots := slots[1..];
      }
      slots := slots + [Slot(key, Entry(value, now + ttlMs, computeMs))];
    }

    method Delete(key: string)
      modifies this`slots
      ensures slots == Without(old(slots), key)
    {
      slots := Without(slots, key);
    }

    /** Walks the keys in order and deletes the matching ones in place. */
    method DeletePattern(pattern: string)
      modifies this`slots
      ensures slots == AfterDeletePattern(old(slots), pattern)
    {
      hide Purge, Matches;
      var i := 0;
      ghost var before := slots;
      ghost var n := 0;
      assert before[..0] == [];
      PurgeEmpty<V>(Matching(pattern));
      while i < |slots|
        invariant 0 <= i <= |slots| && n <= |before| && slots[i..] == before[n..]
        invariant slots[..i] == Purge(before[..n], Matching(pattern))
        decreases |before| - n
      {
        var x := slots[i];
        assert x == before[n] by { assert slots[i..][0] == before[n..][0]; }
        assert before[..n + 1] == before[..n] + [x];
        PurgeAppend(before[..n], x, Matching(pattern));
        if Matches(pattern, x.key) {
          DropAt(slots, i);
          slots := slots[..i] + slots[i + 1..];
        } else {
          DropAt(slots, i);
          i := i + 1;
        }
        n := n + 1;
        assert before[n - 1..][1..] == before[n..];
      }
      assert slots[..i] == slots && |before| == n && before[..n] == before;
    }
  }

  lemma DropAt<T>(s: seq<T>, i: nat)
    requires i < |s|
    ensures var t := s[..i] + s[i + 1..]; t[..i] == s[..i] && t[i..] == s[i..][1..]
    ensures s[..i + 1] == s[..i] + [s[i]] && s[i + 1..] == s[i..][1..]
  {
  }

  lemma PurgeEmpty<V>(drop: string -> bool)
    ensures Purge<V>([], drop) == []
  {
  }

  lemma {:induction false} PurgeAppend<V>(s: seq<Slot<V>>, x: Slot<V>, drop: string -> bool)
    ensures Purge(s + [x], drop) == Purge(s, drop) + if drop(x.key) then [] else [x]
  {
    if s == [] {
      assert s + [x] == [x];
    } else {
      PurgeAppend(s[1..], x, drop);
      assert (s + [x])[1..] == s[1..] + [x] && (s + [x])[0] == s[0];
    }
  }
}
