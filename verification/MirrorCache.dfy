/**
 The process-local store of src/cache.ts: `lruSet`, `lruGet`, and the local expiry that `cacheGet` copies from Redis.
 It follows the LRU discipline of indexer/src/cacheLayer.js, to which it is related here.
 */
module MirrorCache {
  import Lru
  import opened Options

  /** `expiresAt` is `None` for an entry without expiry. */
  datatype Memory = Memory(payload: string, expiresAt: Option<int>)

  datatype Slot = Slot(key: string, entry: Memory)

  predicate IsExpired(e: Memory, now: int) {
    e.expiresAt.Some? && e.expiresAt.value <= now
  }

  /** The position of a key, oldest entry first, or the size of the store. */
  function Index(s: seq<Slot>, key: string): (i: nat)
    ensures i <= |s|
    ensures i < |s| ==> s[i].key == key
  {
    if s == [] || s[0].key == key then 0 else 1 + Index(s[1..], key)
  }

  function RemoveAt(s: seq<Slot>, i: nat): seq<Slot>
    requires i < |s|
  {
    s[..i] + s[i + 1..]
  }

  function AfterDelete(s: seq<Slot>, key: string): seq<Slot> {
    var i := Index(s, key);
    if i < |s| then RemoveAt(s, i) else s
  }

  function Evicts(s: seq<Slot>, maxSize: nat, key: string): bool {
    Index(s, key) == |s| && |s| >= maxSize && s != []
  }

  function AfterSet(s: seq<Slot>, maxSize: nat, key: string, e: Memory): seq<Slot> {
    (if Evicts(s, maxSize, key) then s[1..] else AfterDelete(s, key)) + [Slot(key, e)]
  }

  /** `lruGet`, and the deletion of an expired entry by `cacheGet`. */
  function AfterGet(s: seq<Slot>, key: string, now: int): seq<Slot> {
    var i := Index(s, key);
    if i == |s| then s
    else if IsExpired(s[i].entry, now) then RemoveAt(s, i)
    else RemoveAt(s, i) + [s[i]]
  }

  function Hit(s: seq<Slot>, key: string, now: int): Option<Memory> {
    var i := Index(s, key);
    if i < |s| && !IsExpired(s[i].entry, now) then Some(s[i].entry) else None
  }

  /** `Map` keys are distinct. */
  ghost predicate Distinct(s: seq<Slot>) {
    forall i, j :: 0 <= i < j < |s| ==> s[i].key != s[j].key
  }

  class MemoryStore {
    const maxSize: nat
    var slots: seq<Slot>
    var evictions: nat

    ghost predicate Valid()
      reads this
    {
      maxSize >= 1 && |slots| <= maxSize && Distinct(slots)
    }

    constructor (configured: int)
      ensures Valid() && slots == [] && evictions == 0 && maxSize == if configured >= 1 then configured else 1
    {
      maxSize, slots, evictions := if configured >= 1 then configured else 1, [], 0;
    }

    method Locate(key: string) returns (i: nat)
      ensures i == Index(slots, key)
    {
      i := 0;
      while i < |slots| && slots[i].key != key
        invariant i <= |slots| && Index(slots, key) == i + Index(slots[i..], key)
      {
        assert slots[i..][1..] == slots[i + 1..];
        i := i + 1;
      }
    }

    method LruSet(key: string, entry: Memory)
      requires Valid()
      modifies this
      ensures Valid() && slots == AfterSet(old(slots), maxSize, key, entry)
      ensures evictions == old(evictions) + if Evicts(old(slots), maxSize, key) then 1 else 0
    {
      WellFormed(slots, maxSize, 0, Set(key, entry));
      var i := Locate(key);
      if i < |slots| {
        slots := slots[..i] + slots[i + 1..];
      } else if |slots| >= maxSize {
        if slots != [] {
          slots := slots[1..];
          evictions := evictions + 1;
        }
      }
      slots := slots + [Slot(key, entry)];
    }

    method LruGet(key: string) returns (r: Option<Memory>)
      requires Valid()
      modifies this`slots
      ensures Valid()
      ensures var i := Index(old(slots), key);
              && r == (if i < |old(slots)| then Some(old(slots)[i].entry) else None)
              && slots == if i < |old(slots)| then RemoveAt(old(slots), i) + [old(slots)[i]] else old(slots)
    {
      var i := Locate(key);
      if i == |slots| {
        return None;
      }
      var slot := slots[i];
      slots := slots[..i] + slots[i + 1..] + [slot];
      r := Some(slot.entry);
    }

    /** The local part of `cacheGet`. */
    method LocalGet(key: string, now: int) returns (r: Option<Memory>)
      requires Valid()
      modifies this`slots
      ensures Valid() && r == Hit(old(slots), key, now) && slots == AfterGet(old(slots), key, now)
    {
      WellFormed(slots, maxSize, now, Get(key));
      ghost var before := slots;
      var found := LruGet(key);
      if found.Some? && IsExpired(found.value, now) {
        MovedToEnd(before, Index(before, key));
        slots := slots[..|slots| - 1];
        assert slots == RemoveAt(before, Index(before, key));
        return None;
      }
      return found;
    }
  }

  lemma MovedToEnd(s: seq<Slot>, i: nat)
    requires i < |s|
    ensures (RemoveAt(s, i) + [s[i]])[..|s| - 1] == RemoveAt(s, i)
  {
  }

  /* ----- runs ----- */

  datatype Op = Get(key: string) | Set(key: string, entry: Memory) | Delete(key: string)

  datatype Call = Call(now: int, op: Op)

  function After(s: seq<Slot>, maxSize: nat, now: int, op: Op): seq<Slot> {
    match op
    case Get(key) => AfterGet(s, key, now)
    case Set(key, e) => AfterSet(s, maxSize, key, e)
    case Delete(key) => AfterDelete(s, key)
  }

  function Run(s: seq<Slot>, maxSize: nat, calls: seq<Call>): seq<Slot>
    decreases |calls|
  {
    if calls == [] then s
    else After(Run(s, maxSize, calls[..|calls| - 1]), maxSize, calls[|calls| - 1].now, calls[|calls| - 1].op)
  }

  lemma {:induction false} IndexMeaning(s: seq<Slot>, key: string)
    ensures Index(s, key) == |s| <==> forall i :: 0 <= i < |s| ==> s[i].key != key
  {
    if s != [] && s[0].key != key {
      IndexMeaning(s[1..], key);
      assert forall i :: 1 <= i < |s| ==> s[i] == s[1..][i - 1];
    }
  }

  lemma WellFormed(s: seq<Slot>, maxSize: nat, now: int, op: Op)
    requires maxSize >= 1 && Distinct(s) && |s| <= maxSize
    ensures Distinct(After(s, maxSize, now, op)) && |After(s, maxSize, now, op)| <= maxSize
  {
    var i := Index(s, op.key);
    IndexMeaning(s, op.key);
    if i < |s| {
      RemoveDistinct(s, i);
    }
    hide IsExpired, Index, RemoveAt;
  }

  lemma RemoveDistinct(s: seq<Slot>, i: nat)
    requires Distinct(s) && i < |s|
    ensures Distinct(RemoveAt(s, i)) && |RemoveAt(s, i)| == |s| - 1
    ensures forall j :: 0 <= j < |s| - 1 ==> RemoveAt(s, i)[j].key != s[i].key
  {
  }

  lemma {:induction false} RunWellFormed(maxSize: nat, calls: seq<Call>)
    requires maxSize >= 1
    ensures Distinct(Run([], maxSize, calls)) && |Run([], maxSize, calls)| <= maxSize
    decreases |calls|
  {
    if calls != [] {
      var last := calls[|calls| - 1];
      RunWellFormed(maxSize, calls[..|calls| - 1]);
      WellFormed(Run([], maxSize, calls[..|calls| - 1]), maxSize, last.now, last.op);
      hide After;
    }
  }

  /* ----- the same discipline as the indexer's cache ----- */

  /**
   An entry as the indexer's cache holds it.  That one drops an entry after its expiry time, this one at it; an entry
   without expiry lasts as long as any time that is looked at.
   */
  function Image(x: Slot, horizon: int): Lru.Slot<Memory> {
    Lru.Slot(x.key, Lru.Entry(x.entry, match x.entry.expiresAt case Some(t) => t - 1 case None => horizon, 0))
  }

  function Images(s: seq<Slot>, horizon: int): (r: seq<Lru.Slot<Memory>>)
    ensures |r| == |s|
    ensures forall i :: 0 <= i < |s| ==> r[i] == Image(s[i], horizon)
  {
    seq(|s|, i requires 0 <= i < |s| => Image(s[i], horizon))
  }

  function ImageCall(c: Call, horizon: int): Lru.Call<Memory> {
    Lru.Call(c.now,
             match c.op
             case Get(key) => Lru.Get(key)
             case Set(key, e) => Lru.Set(key, e, Image(Slot(key, e), horizon).entry.expiresAt - c.now, 0)
             case Delete(key) => Lru.Delete(key))
  }

  lemma {:induction false} LookupImage(s: seq<Slot>, horizon: int, key: string)
    ensures Lru.Lookup(Images(s, horizon), key)
         == if Index(s, key) < |s| then Some(Image(s[Index(s, key)], horizon).entry) else None
  {
    var r := Images(s, horizon);
    if s != [] && s[0].key != key {
      LookupImage(s[1..], horizon, key);
      assert r[1..] == Images(s[1..], horizon);
    }
  }

  lemma ImagesCons(x: Slot, rest: seq<Slot>, horizon: int)
    ensures Images([x] + rest, horizon) == [Image(x, horizon)] + Images(rest, horizon)
  {
    hide Image;
  }

  lemma WithoutCons(x: Lru.Slot<Memory>, rest: seq<Lru.Slot<Memory>>, key: string)
    requires x.key != key || forall y :: y in rest ==> y.key != key
    ensures Lru.Without([x] + rest, key) == if x.key == key then rest else [x] + Lru.Without(rest, key)
  {
    assert ([x] + rest)[1..] == rest;
    if x.key == key {
      Lru.PurgeNothing(rest, Lru.Is(key));
    }
  }

  lemma RemoveCons(x: Slot, rest: seq<Slot>, i: nat)
    requires i < |rest|
    ensures RemoveAt([x] + rest, i + 1) == [x] + RemoveAt(rest, i)
  {
    assert ([x] + rest)[..i + 1] == [x] + rest[..i];
    assert ([x] + rest)[i + 2..] == rest[i + 1..];
  }

  lemma IndexCons(x: Slot, rest: seq<Slot>, key: string)
    ensures Index([x] + rest, key) == if x.key == key then 0 else 1 + Index(rest, key)
  {
    assert ([x] + rest)[1..] == rest;
  }

  lemma DeleteCons(x: Slot, rest: seq<Slot>, key: string)
    ensures AfterDelete([x] + rest, key) == if x.key == key then rest else [x] + AfterDelete(rest, key)
  {
    IndexCons(x, rest, key);
    hide Index;
    if x.key == key {
      assert RemoveAt([x] + rest, 0) == rest;
    } else if Index(rest, key) < |rest| {
      hide RemoveAt;
      RemoveCons(x, rest, Index(rest, key));
    }
  }

  lemma {:induction false} WithoutImage(s: seq<Slot>, horizon: int, key: string)
    requires Distinct(s)
    ensures Lru.Without(Images(s, horizon), key) == Images(AfterDelete(s, key), horizon)
  {
    if s != [] {
      var x, rest := s[0], s[1..];
      assert s == [x] + rest;
      forall y | y in Images(rest, horizon) ensures y.key != x.key {
        var i :| 0 <= i < |rest| && Images(rest, horizon)[i] == y;
        assert s[i + 1].key != x.key;
      }
      WithoutImage(rest, horizon, key);
      hide Lru.Without, Images, AfterDelete;
      ImagesCons(x, rest, horizon);
      WithoutCons(Image(x, horizon), Images(rest, horizon), key);
      DeleteCons(x, rest, key);
      ImagesCons(x, AfterDelete(rest, key), horizon);
    }
  }

  /** Each operation does to the images what the indexer's cache does. */
  lemma StepRefines(s: seq<Slot>, maxSize: nat, c: Call, horizon: int)
    requires maxSize >= 1 && Distinct(s) && |s| <= maxSize && c.now <= horizon
    ensures Images(After(s, maxSize, c.now, c.op), horizon)
         == Lru.After(Images(s, horizon), maxSize, ImageCall(c, horizon))
  {
    hide Index, Lru.Lookup, Lru.Purge;
    var key, r := c.op.key, Images(s, horizon);
    var i := Index(s, key);
    WithoutImage(s, horizon, key);
    LookupImage(s, horizon, key);
    match c.op
    case Get(_) =>
      if i < |s| && !IsExpired(s[i].entry, c.now) {
        assert Images(RemoveAt(s, i) + [s[i]], horizon) == Images(RemoveAt(s, i), horizon) + [Image(s[i], horizon)];
      }
    case Set(_, e) =>
      var rest := if Evicts(s, maxSize, key) then s[1..] else AfterDelete(s, key);
      assert Images(rest, horizon) == Lru.Evict(Lru.Without(r, key), maxSize);
      assert Images(rest + [Slot(key, e)], horizon) == Images(rest, horizon) + [Image(Slot(key, e), horizon)];
    case Delete(_) =>
  }

  function ImageCalls(calls: seq<Call>, horizon: int): (r: seq<Lru.Call<Memory>>)
    ensures |r| == |calls|
    ensures forall i :: 0 <= i < |calls| ==> r[i] == ImageCall(calls[i], horizon)
  {
    seq(|calls|, i requires 0 <= i < |calls| => ImageCall(calls[i], horizon))
  }

  lemma {:induction false} RunRefines(maxSize: nat, calls: seq<Call>, horizon: int)
    requires maxSize >= 1 && forall i :: 0 <= i < |calls| ==> calls[i].now <= horizon
    ensures Images(Run([], maxSize, calls), horizon) == Lru.Run([], maxSize, ImageCalls(calls, horizon))
    decreases |calls|
  {
    if calls != [] {
      var front, last := calls[..|calls| - 1], calls[|calls| - 1];
      RunRefines(maxSize, front, horizon);
      RunWellFormed(maxSize, front);
      StepRefines(Run([], maxSize, front), maxSize, last, horizon);
      hide After, Lru.After;
      assert ImageCalls(calls, horizon)[..|calls| - 1] == ImageCalls(front, horizon);
    }
  }

  /** Raising `CACHE_MAX_SIZE` never loses a local hit. */
  lemma LargerStoreKeepsHits(k: nat, K: nat, calls: seq<Call>, key: string, now: int)
    requires 1 <= k <= K
    ensures Hit(Run([], k, calls), key, now).Some? ==>
              Hit(Run([], K, calls), key, now) == Hit(Run([], k, calls), key, now)
  {
    var horizon := Latest(calls, now);
    RunRefines(k, calls, horizon);
    RunRefines(K, calls, horizon);
    Lru.LargerCapacityKeepsHits(k, K, ImageCalls(calls, horizon), key, now);
    LookupImage(Run([], k, calls), horizon, key);
    LookupImage(Run([], K, calls), horizon, key);
    hide Run, Lru.Run, Index, Lru.Lookup;
  }

  function Latest(calls: seq<Call>, now: int): (t: int)
    ensures t >= now && forall i :: 0 <= i < |calls| ==> calls[i].now <= t
  {
    if calls == [] then now
    else
      var t := Latest(calls[1..], now);
      if calls[0].now > t then calls[0].now else t
  }

  /* ----- evictions ----- */

  predicate Inserts(s: seq<Slot>, op: Op) {
    op.Set? && Index(s, op.key) == |s|
  }

  /** An entry that its key's deletion or expiry takes away. */
  predicate Drops(s: seq<Slot>, now: int, op: Op) {
    var i := Index(s, op.key);
    i < |s| && (op.Delete? || (op.Get? && IsExpired(s[i].entry, now)))
  }

  function Inserted(maxSize: nat, calls: seq<Call>): nat
    decreases |calls|
  {
    if calls == [] then 0
    else
      Inserted(maxSize, calls[..|calls| - 1])
      + if Inserts(Run([], maxSize, calls[..|calls| - 1]), calls[|calls| - 1].op) then 1 else 0
  }

  function Dropped(maxSize: nat, calls: seq<Call>): nat
    decreases |calls|
  {
    if calls == [] then 0
    else
      Dropped(maxSize, calls[..|calls| - 1])
      + if Drops(Run([], maxSize, calls[..|calls| - 1]), calls[|calls| - 1].now, calls[|calls| - 1].op) then 1 else 0
  }

  /** The counter of `cacheStats`. */
  function Evicted(maxSize: nat, calls: seq<Call>): nat
    decreases |calls|
  {
    if calls == [] then 0
    else
      var before, last := calls[..|calls| - 1], calls[|calls| - 1];
      Evicted(maxSize, before) + if last.op.Set? && Evicts(Run([], maxSize, before), maxSize, last.op.key) then 1 else 0
  }

  /**
   Every entry that was ever inserted is held, was evicted, or was dropped; and none is evicted while there is
   room.
   */
  lemma {:induction false} EntriesAccountedFor(maxSize: nat, calls: seq<Call>)
    requires maxSize >= 1
    ensures Inserted(maxSize, calls) == |Run([], maxSize, calls)| + Evicted(maxSize, calls) + Dropped(maxSize, calls)
    ensures Inserted(maxSize, calls) <= maxSize ==> Evicted(maxSize, calls) == 0
    decreases |calls|
  {
    if calls != [] {
      EntriesAccountedFor(maxSize, calls[..|calls| - 1]);
      hide IsExpired, Index;
    }
  }

  /* ----- expiry copied from Redis ----- */

  /** A Redis key: its value, and when it expires. */
  datatype RedisKey = RedisKey(payload: string, expiresAt: Option<int>)

  /** A key is there up to and including its expiry time. */
  predicate Present(k: Option<RedisKey>, now: int) {
    k.Some? && (k.value.expiresAt.Some? ==> now <= k.value.expiresAt.value)
  }

  /** `PTTL`: -2 for a missing key, -1 for one without expiry, else the milliseconds left. */
  function PTtl(k: Option<RedisKey>, now: int): int {
    if !Present(k, now) then -2
    else match k.value.expiresAt case None => -1 case Some(t) => t - now
  }

  /** The local copy that `cacheGet` makes at time `now` of a value it has read. */
  function Mirror(payload: string, pttl: int, now: int): Memory {
    Memory(payload, if pttl > 0 then Some(now + pttl) else None)
  }

  /**
   The remaining lifetime is read at `asked` and the copy made at `made`.  From the expiry in Redis on, plus that
   delay, the copy counts as expired too, exactly when the key has at least a millisecond left at `asked`.  One that
   is gone by then, or in its last millisecond, leaves a copy that never expires.
   */
  lemma MirroredExpiryIff(payload: string, when: int, asked: int, made: int)
    requires asked <= made
    ensures var copy := Mirror(payload, PTtl(Some(RedisKey(payload, Some(when))), asked), made);
            && ((forall t :: t >= when + (made - asked) ==> IsExpired(copy, t)) <==> asked < when)
            && (asked >= when ==> forall t :: !IsExpired(copy, t))
            && (asked < when ==> forall t :: t < when ==> !IsExpired(copy, t))
  {
    var copy := Mirror(payload, PTtl(Some(RedisKey(payload, Some(when))), asked), made);
    if asked >= when {
      assert !IsExpired(copy, when + (made - asked));
    }
  }

  /** A key overwritten between the two reads lends its lifetime to the old value. */
  lemma OverwrittenBetweenReads(old_: RedisKey, new_: RedisKey, read: int, asked: int, made: int)
    requires old_.expiresAt.Some? && new_.expiresAt.Some?
    requires Present(Some(old_), read) && read <= asked < new_.expiresAt.value && asked <= made
    ensures var copy := Mirror(old_.payload, PTtl(Some(new_), asked), made);
            (forall t :: t >= old_.expiresAt.value + (made - asked) ==> IsExpired(copy, t))
            <==> new_.expiresAt.value <= old_.expiresAt.value
  {
    var copy := Mirror(old_.payload, PTtl(Some(new_), asked), made);
    assert IsExpired(copy, old_.expiresAt.value + (made - asked)) <==> new_.expiresAt.value <= old_.expiresAt.value;
  }
}
