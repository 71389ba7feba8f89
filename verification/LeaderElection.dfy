/**
 The lease protocol of indexer/src/leaderElection.js over one Redis key, for any number of instances.

 `tryAcquireLock` is one Redis command.  `renewLock` and `releaseLock` are two (GET then EXPIRE, GET then DEL).
 Anything may happen between two commands, and between a command and the arrival of its answer, so each is split
 there; `calls` holds those that wait.  `ttl` is LEASE_TTL_S in milliseconds; times are those at which Redis runs a
 command.
 */
module LeaderElection {
  import opened Options

  /** The leader key, with the time at which Redis expires it. */
  datatype Lease = Free | Held(owner: string, until: int)

  function Owner(key: Lease, now: int): Option<string> {
    if key.Held? && now < key.until then Some(key.owner) else None
  }

  /** SET key id NX EX */
  function SetNx(key: Lease, id: string, now: int, ttl: int): Lease {
    if Owner(key, now).None? then Held(id, now + ttl) else key
  }

  /** EXPIRE key: moves the expiry of whatever the key holds, and does nothing to a missing key. */
  function Expire(key: Lease, now: int, ttl: int): Lease {
    if Owner(key, now).Some? then Held(key.owner, now + ttl) else Free
  }

  /* ----- the functions of one instance, run without interruption ----- */

  class LeaseKey {
    var key: Lease
  }

  class Elector {
    const id: string
    const redis: LeaseKey
    var isLeader: bool

    constructor (id: string, redis: LeaseKey)
      ensures this.id == id && this.redis == redis && !isLeader
    {
      this.id := id;
      this.redis := redis;
      isLeader := false;
    }

    method TryAcquireLock(now: int, ttl: int) returns (won: bool)
      modifies this, redis
      ensures redis.key == SetNx(old(redis.key), id, now, ttl)
      ensures won <==> Owner(old(redis.key), now) == None
      ensures isLeader == (won || old(isLeader))
    {
      if Owner(redis.key, now).None? {
        redis.key := Held(id, now + ttl);
        isLeader := true;
        return true;
      }
      return false;
    }

    method RenewLock(now: int, ttl: int) returns (renewed: bool)
      modifies this, redis
      ensures renewed == isLeader == (old(isLeader) && Owner(old(redis.key), now) == Some(id))
      ensures redis.key == if renewed then Held(id, now + ttl) else old(redis.key)
    {
      if !isLeader { return false; }
      var current := Owner(redis.key, now);
      if current != Some(id) {
        isLeader := false;
        return false;
      }
      redis.key := Expire(redis.key, now, ttl);
      return true;
    }

    method ReleaseLock(now: int)
      modifies this, redis
      ensures !isLeader
      ensures redis.key == if old(isLeader) && Owner(old(redis.key), now) == Some(id) then Free else old(redis.key)
    {
      if !isLeader { return; }
      var current := Owner(redis.key, now);
      if current == Some(id) {
        redis.key := Free;
      }
      isLeader := false;
    }
  }

  /* ----- the system ----- */

  /**
   `refreshed` is when Redis last granted or extended the instance's lease, and `gaveUp` whether Redis has deleted it
   since on the instance's own request; at the start no lease was granted.
   */
  datatype Node = Node(isLeader: bool, refreshed: int, gaveUp: bool)

  /**
   A call that waits: for the answer to a SET that won; after its GET, with what that saw and when the lease it saw runs
   out; or for the answer to its EXPIRE or DEL.
   */
  datatype Call =
    | Setting(inst: string)
    | Got(inst: string, release: bool, saw: Option<string>, until: int)
    | Expiring(inst: string)
    | Deleting(inst: string)

  datatype State = State(now: int, key: Lease, nodes: map<string, Node>, calls: map<nat, Call>)

  function Start(instances: set<string>): State {
    State(0, Free, map i | i in instances :: Node(false, 0, true), map[])
  }

  datatype Step =
    | Tick(ms: nat)
    | Acquire(id: nat, inst: string)           // Redis runs the SET
    | Get(id: nat, inst: string, release: bool) // Redis runs the GET
    | Finish(id: nat)   // Redis runs the EXPIRE or DEL, or the flag is cleared since the GET saw another owner
    | Reply(id: nat)    // the answer to the SET, EXPIRE or DEL arrives
    | Fail(id: nat)     // the command was rejected, or its answer is lost

  predicate Releases(c: Call, i: string) {
    c.inst == i && (c.Deleting? || (c.Got? && c.release))
  }

  /** An instance has one release under way at most. */
  predicate Enabled(s: State, step: Step) {
    match step
    case Tick(_) => true
    case Acquire(id, i) => id !in s.calls && i in s.nodes
    case Get(id, i, release) =>
      id !in s.calls && i in s.nodes && (release ==> forall j :: j in s.calls ==> !Releases(s.calls[j], i))
    case Finish(id) => id in s.calls && s.calls[id].Got? && s.calls[id].inst in s.nodes
    case Reply(id) => id in s.calls && !s.calls[id].Got? && s.calls[id].inst in s.nodes
    case Fail(id) => id in s.calls && s.calls[id].inst in s.nodes
  }

  function SetFlag(s: State, i: string, flag: bool): State
    requires i in s.nodes
  {
    s.(nodes := s.nodes[i := s.nodes[i].(isLeader := flag)])
  }

  function Next(s: State, step: Step, ttl: int): State
    requires Enabled(s, step)
  {
    match step
    case Tick(ms) => s.(now := s.now + ms)
    case Acquire(id, i) =>
      if Owner(s.key, s.now).None?
      then s.(key := SetNx(s.key, i, s.now, ttl), calls := s.calls[id := Setting(i)],
              nodes := s.nodes[i := Node(s.nodes[i].isLeader, s.now, false)])
      else s
    case Get(id, i, release) =>
      s.(calls := s.calls[id := Got(i, release, Owner(s.key, s.now), if s.key.Held? then s.key.until else s.now)])
    case Finish(id) =>
      var c := s.calls[id];
      if c.saw != Some(c.inst) then SetFlag(s.(calls := s.calls - {id}), c.inst, false)
      else if c.release then
        s.(key := Free, calls := s.calls[id := Deleting(c.inst)],
           nodes := s.nodes[c.inst := s.nodes[c.inst].(gaveUp := true)])
      else
        s.(key := Expire(s.key, s.now, ttl), calls := s.calls[id := Expiring(c.inst)],
           nodes := s.nodes[c.inst := s.nodes[c.inst].(refreshed := s.now)])
    case Reply(id) =>
      var c := s.calls[id];
      var done := s.(calls := s.calls - {id});
      (match c
       case Setting(i) => SetFlag(done, i, true)
       case Deleting(i) => SetFlag(done, i, false)
       case _ => done)
    case Fail(id) =>
      var c := s.calls[id];
      var done := s.(calls := s.calls - {id});
      if c.Expiring? || (c.Got? && !c.release) then SetFlag(done, c.inst, false) else done
  }

  /* ----- safety ----- */

  /** The instance believes it is leader and its last refresh is less than a lease ago. */
  predicate Believes(s: State, i: string, ttl: int) {
    i in s.nodes && s.nodes[i].isLeader && s.now < s.nodes[i].refreshed + ttl
  }

  /** And it has not deleted its lease itself, as one that is being stopped has. */
  predicate Active(s: State, i: string, ttl: int) {
    Believes(s, i, ttl) && !s.nodes[i].gaveUp
  }

  /** An active instance owns the key, for at least as long as it believes. */
  ghost predicate Safe(s: State, ttl: int) {
    forall i :: Active(s, i, ttl) ==> s.key.Held? && s.key.owner == i && s.key.until >= s.nodes[i].refreshed + ttl
  }

  /** The second command of a call reaches Redis before the lease that its GET saw as its own runs out. */
  predicate Timely(s: State, step: Step) {
    step.Finish? && step.id in s.calls ==>
      var c := s.calls[step.id];
      c.Got? && c.saw == Some(c.inst) ==> s.now < c.until
  }

  /** The lease that an instance was granted and has not given up is its own, flag or no flag. */
  ghost predicate Granted(s: State, i: string, ttl: int)
    requires i in s.nodes
  {
    s.nodes[i].refreshed <= s.now &&
    (!s.nodes[i].gaveUp && s.now < s.nodes[i].refreshed + ttl ==>
       s.key.Held? && s.key.owner == i && s.key.until >= s.nodes[i].refreshed + ttl)
  }

  /** What is known of a waiting call while the lease it saw lasts. */
  ghost predicate CallOk(s: State, c: Call, ttl: int) {
    c.Got? ==>
      && c.until <= s.now + ttl
      && (c.saw == Some(c.inst) && s.now < c.until && c.inst in s.nodes ==>
            && (c.release ==> !s.nodes[c.inst].gaveUp)
            && (!s.nodes[c.inst].gaveUp ==> s.key.Held? && s.key.owner == c.inst && s.key.until >= c.until))
  }

  ghost predicate OneRelease(s: State) {
    forall a, b, i :: a in s.calls && b in s.calls && Releases(s.calls[a], i) && Releases(s.calls[b], i) ==> a == b
  }

  ghost predicate Inv(s: State, ttl: int) {
    && (s.key.Held? ==> s.key.until <= s.now + ttl && s.key.owner in s.nodes && !s.nodes[s.key.owner].gaveUp)
    && (forall i :: i in s.nodes ==> Granted(s, i, ttl))
    && (forall id :: id in s.calls ==> CallOk(s, s.calls[id], ttl))
    && OneRelease(s)
  }

  lemma InvIsSafe(s: State, ttl: int)
    requires Inv(s, ttl)
    ensures Safe(s, ttl)
  {
    forall i | Active(s, i, ttl)
      ensures s.key.Held? && s.key.owner == i && s.key.until >= s.nodes[i].refreshed + ttl
    {
      assert Granted(s, i, ttl);
    }
  }

  /** The calls and leases of other instances are not touched by what one call does. */
  lemma ClearKeepsInv(s: State, id: nat, ttl: int)
    requires ttl > 0 && Inv(s, ttl) && Enabled(s, Finish(id)) && s.calls[id].saw != Some(s.calls[id].inst)
    ensures Inv(Next(s, Finish(id), ttl), ttl)
  {
    var s' := Next(s, Finish(id), ttl);
    forall j | j in s'.nodes ensures Granted(s', j, ttl) {
      assert Granted(s, j, ttl);
    }
    forall j | j in s'.calls ensures CallOk(s', s'.calls[j], ttl) {
      assert CallOk(s, s.calls[j], ttl);
    }
  }

  lemma ExpireKeepsInv(s: State, id: nat, ttl: int)
    requires ttl > 0 && Inv(s, ttl) && Enabled(s, Finish(id)) && Timely(s, Finish(id))
    requires s.calls[id].saw == Some(s.calls[id].inst) && !s.calls[id].release
    ensures Inv(Next(s, Finish(id), ttl), ttl)
  {
    var s' := Next(s, Finish(id), ttl);
    assert CallOk(s, s.calls[id], ttl);
    forall j | j in s'.nodes ensures Granted(s', j, ttl) {
      assert Granted(s, j, ttl);
    }
    forall j | j in s'.calls ensures CallOk(s', s'.calls[j], ttl) {
      assert CallOk(s, s.calls[j], ttl);
    }
  }

  lemma DeleteKeepsInv(s: State, id: nat, ttl: int)
    requires ttl > 0 && Inv(s, ttl) && Enabled(s, Finish(id)) && Timely(s, Finish(id))
    requires s.calls[id].saw == Some(s.calls[id].inst) && s.calls[id].release
    ensures Inv(Next(s, Finish(id), ttl), ttl)
  {
    var s', i := Next(s, Finish(id), ttl), s.calls[id].inst;
    assert CallOk(s, s.calls[id], ttl) && Releases(s.calls[id], i);
    forall j | j in s'.nodes ensures Granted(s', j, ttl) {
      assert Granted(s, j, ttl);
    }
    forall j | j in s'.calls ensures CallOk(s', s'.calls[j], ttl) {
      if j != id {
        assert CallOk(s, s.calls[j], ttl) && !Releases(s.calls[j], i);
      }
    }
    forall a, b, k | a in s'.calls && b in s'.calls && Releases(s'.calls[a], k) && Releases(s'.calls[b], k)
      ensures a == b
    {
      assert Releases(s.calls[a], k) && Releases(s.calls[b], k);
    }
  }

  lemma FinishKeepsInv(s: State, id: nat, ttl: int)
    requires ttl > 0 && Inv(s, ttl) && Enabled(s, Finish(id)) && Timely(s, Finish(id))
    ensures Inv(Next(s, Finish(id), ttl), ttl)
  {
    if s.calls[id].saw != Some(s.calls[id].inst) {
      ClearKeepsInv(s, id, ttl);
    } else if s.calls[id].release {
      DeleteKeepsInv(s, id, ttl);
    } else {
      ExpireKeepsInv(s, id, ttl);
    }
  }

  lemma AcquireKeepsInv(s: State, id: nat, i: string, ttl: int)
    requires ttl > 0 && Inv(s, ttl) && Enabled(s, Acquire(id, i))
    ensures Inv(Next(s, Acquire(id, i), ttl), ttl)
  {
    var s' := Next(s, Acquire(id, i), ttl);
    forall j | j in s'.nodes ensures Granted(s', j, ttl) {
      assert Granted(s, j, ttl);
    }
    forall j | j in s'.calls ensures CallOk(s', s'.calls[j], ttl) {
      if j in s.calls { assert CallOk(s, s.calls[j], ttl); }
    }
  }

  lemma GetKeepsInv(s: State, id: nat, i: string, release: bool, ttl: int)
    requires ttl > 0 && Inv(s, ttl) && Enabled(s, Get(id, i, release))
    ensures Inv(Next(s, Get(id, i, release), ttl), ttl)
  {
    var s' := Next(s, Get(id, i, release), ttl);
    forall j | j in s'.nodes ensures Granted(s', j, ttl) {
      assert Granted(s, j, ttl);
    }
    forall j | j in s'.calls ensures CallOk(s', s'.calls[j], ttl) {
      if j in s.calls && j != id { assert CallOk(s, s.calls[j], ttl); }
    }
  }

  /** Time, answers and failures change neither the key nor what was granted. */
  lemma QuietKeepsInv(s: State, step: Step, ttl: int)
    requires ttl > 0 && Inv(s, ttl) && Enabled(s, step) && (step.Tick? || step.Reply? || step.Fail?)
    ensures Inv(Next(s, step, ttl), ttl)
  {
    var s' := Next(s, step, ttl);
    assert s'.key == s.key && s'.now >= s.now && s'.nodes.Keys == s.nodes.Keys;
    forall j | j in s'.nodes ensures Granted(s', j, ttl) {
      assert Granted(s, j, ttl);
    }
    forall j | j in s'.calls ensures CallOk(s', s'.calls[j], ttl) {
      assert CallOk(s, s.calls[j], ttl);
    }
  }

  ghost predicate IsRun(instances: set<string>, states: seq<State>, steps: seq<Step>, ttl: int) {
    && |states| == |steps| + 1
    && states[0] == Start(instances)
    && forall n :: 0 <= n < |steps| ==> Enabled(states[n], steps[n]) && states[n + 1] == Next(states[n], steps[n], ttl)
  }

  lemma {:induction false} RunInv(instances: set<string>, states: seq<State>, steps: seq<Step>, ttl: int, n: nat)
    requires ttl > 0 && IsRun(instances, states, steps, ttl) && n < |states|
    requires forall j :: 0 <= j < n ==> Timely(states[j], steps[j])
    ensures Inv(states[n], ttl)
  {
    if n > 0 {
      RunInv(instances, states, steps, ttl, n - 1);
      assert Enabled(states[n - 1], steps[n - 1]) && states[n] == Next(states[n - 1], steps[n - 1], ttl);
      hide Inv, Next, Enabled, Timely;
      var s := states[n - 1];
      match steps[n - 1]
      case Finish(id) => FinishKeepsInv(s, id, ttl);
      case Acquire(id, i) => AcquireKeepsInv(s, id, i, ttl);
      case Get(id, i, release) => GetKeepsInv(s, id, i, release, ttl);
      case _ => QuietKeepsInv(s, steps[n - 1], ttl);
    }
  }

  /**
   Mutual exclusion over every interleaving, under timely commands: two instances are never both active; an instance
   that has its flag set without owning the key refreshed its lease at least `ttl` ago or has deleted it itself; and
   so has one of any two that both believe to be inside a lease.
   */
  lemma AtMostOneActive(instances: set<string>, states: seq<State>, steps: seq<Step>, ttl: int, n: nat)
    requires ttl > 0 && IsRun(instances, states, steps, ttl) && n < |states|
    requires forall j :: 0 <= j < n ==> Timely(states[j], steps[j])
    ensures forall i, j :: Active(states[n], i, ttl) && Active(states[n], j, ttl) ==> i == j
    ensures forall i :: i in states[n].nodes && states[n].nodes[i].isLeader
                        && Owner(states[n].key, states[n].now) != Some(i)
              ==> states[n].now >= states[n].nodes[i].refreshed + ttl || states[n].nodes[i].gaveUp
    ensures forall i, j :: Believes(states[n], i, ttl) && Believes(states[n], j, ttl) && i != j
              ==> states[n].nodes[i].gaveUp || states[n].nodes[j].gaveUp
  {
    RunInv(instances, states, steps, ttl, n);
    InvIsSafe(states[n], ttl);
    var s := states[n];
    forall i | i in s.nodes && s.nodes[i].isLeader && Owner(s.key, s.now) != Some(i)
      ensures s.now >= s.nodes[i].refreshed + ttl || s.nodes[i].gaveUp
    {
      assert !Active(s, i, ttl);
    }
    forall i, j | Believes(s, i, ttl) && Believes(s, j, ttl) && i != j
      ensures s.nodes[i].gaveUp || s.nodes[j].gaveUp
    {
      assert !Active(s, i, ttl) || !Active(s, j, ttl);
    }
  }

  /** A renewal whose GET saw another owner, or none, waits to clear the flag. */
  lemma {:induction false} StillToClear(instances: set<string>, states: seq<State>, steps: seq<Step>, ttl: int,
                                        m: nat, n: nat, id: nat, i: string)
    requires IsRun(instances, states, steps, ttl) && m < n < |states|
    requires steps[m] == Get(id, i, false) && Owner(states[m].key, states[m].now) != Some(i)
    requires forall k :: m < k < n ==> steps[k] != Finish(id) && steps[k] != Fail(id)
    ensures var s := states[n];
            i in s.nodes && id in s.calls && s.calls[id].Got? && s.calls[id].inst == i && !s.calls[id].release
            && s.calls[id].saw != Some(i)
  {
    var s, step := states[n - 1], steps[n - 1];
    assert Enabled(s, step) && states[n] == Next(s, step, ttl);
    if m < n - 1 {
      StillToClear(instances, states, steps, ttl, m, n - 1, id, i);
    }
  }

  /**
   In every run, timely or not: a renewal that finds the lease gone ends, with whatever happens in between and even if
   Redis fails, with the flag cleared and the key as it is.
   */
  lemma StaleFlagCleared(instances: set<string>, states: seq<State>, steps: seq<Step>, ttl: int,
                         m: nat, n: nat, id: nat, i: string)
    requires IsRun(instances, states, steps, ttl) && m < n < |steps|
    requires steps[m] == Get(id, i, false) && Owner(states[m].key, states[m].now) != Some(i)
    requires forall k :: m < k < n ==> steps[k] != Finish(id) && steps[k] != Fail(id)
    requires steps[n] == Finish(id) || steps[n] == Fail(id)
    ensures i in states[n + 1].nodes && !states[n + 1].nodes[i].isLeader && states[n + 1].key == states[n].key
  {
    StillToClear(instances, states, steps, ttl, m, n, id, i);
    assert Enabled(states[n], steps[n]) && states[n + 1] == Next(states[n], steps[n], ttl);
  }

  /* ----- the functions of one instance as steps in a row ----- */

  /** The steps of one call with nothing in between, from its first command to its answer. */
  function InARow(s: State, first: Step, ttl: int): State
    requires Enabled(s, first) && (first.Acquire? || first.Get?)
  {
    var asked := Next(s, first, ttl);
    var run := if first.Get? then Next(asked, Finish(first.id), ttl) else asked;
    if first.id in run.calls then Next(run, Reply(first.id), ttl) else run
  }

  /** Such a call does what the method of `Elector` does, to the flag and to the key, and leaves no trace otherwise. */
  lemma UninterruptedCalls(s: State, id: nat, i: string, ttl: int)
    requires i in s.nodes && id !in s.calls
    ensures var t := InARow(s, Acquire(id, i), ttl);
            && t.key == SetNx(s.key, i, s.now, ttl) && t.calls == s.calls && t.now == s.now
            && t.nodes == s.nodes[i := t.nodes[i]]
            && t.nodes[i].isLeader == (Owner(s.key, s.now) == None || s.nodes[i].isLeader)
    ensures s.nodes[i].isLeader ==>
              var t := InARow(s, Get(id, i, false), ttl);
              && t.nodes[i].isLeader == (Owner(s.key, s.now) == Some(i)) && t.calls == s.calls && t.now == s.now
              && t.nodes == s.nodes[i := t.nodes[i]]
              && t.key == if t.nodes[i].isLeader then Held(i, s.now + ttl) else s.key
    ensures Enabled(s, Get(id, i, true)) && s.nodes[i].isLeader ==>
              var t := InARow(s, Get(id, i, true), ttl);
              && !t.nodes[i].isLeader && t.calls == s.calls && t.now == s.now && t.nodes == s.nodes[i := t.nodes[i]]
              && t.key == if Owner(s.key, s.now) == Some(i) then Free else s.key
  {
  }

  /* ----- what a late second command does ----- */

  /**
   The EXPIRE of a renewal whose GET saw its own lease keeps safety exactly when the instance still owns the key by
   then, has cleared its flag in the meantime, or has deleted its lease.
   */
  lemma RenewalSafeIff(s: State, id: nat, ttl: int)
    requires ttl > 0 && Inv(s, ttl) && Enabled(s, Finish(id))
    requires !s.calls[id].release && s.calls[id].saw == Some(s.calls[id].inst)
    ensures var i := s.calls[id].inst;
            Safe(Next(s, Finish(id), ttl), ttl) <==>
            !s.nodes[i].isLeader || s.nodes[i].gaveUp || Owner(s.key, s.now) == Some(i)
  {
    var i := s.calls[id].inst;
    var s' := Next(s, Finish(id), ttl);
    if s.nodes[i].isLeader && !s.nodes[i].gaveUp && Owner(s.key, s.now) != Some(i) {
      assert Active(s', i, ttl);
    } else {
      forall j | Active(s', j, ttl)
        ensures s'.key.Held? && s'.key.owner == j && s'.key.until >= s'.nodes[j].refreshed + ttl
      {
        if j != i { assert Granted(s, j, ttl); }
      }
    }
  }

  /** Likewise for the DEL of a release: it is safe exactly when no other instance is active by then. */
  lemma ReleaseSafeIff(s: State, id: nat, ttl: int)
    requires ttl > 0 && Safe(s, ttl) && Enabled(s, Finish(id))
    requires s.calls[id].release && s.calls[id].saw == Some(s.calls[id].inst)
    ensures Safe(Next(s, Finish(id), ttl), ttl) <==> forall j :: j != s.calls[id].inst ==> !Active(s, j, ttl)
  {
    var s' := Next(s, Finish(id), ttl);
    assert forall j :: j != s.calls[id].inst ==> (Active(s', j, ttl) <==> Active(s, j, ttl));
  }

  /** A renewal delayed past the end of its lease: two instances are then active at once. */
  lemma LateRenewalGivesTwoLeaders()
    ensures var ttl := 10000;
            var s0 := Start({"A", "B"});
            var s1 := Next(Next(s0, Acquire(0, "A"), ttl), Reply(0), ttl);
            var s2 := Next(Next(s1, Tick(9999), ttl), Get(1, "A", false), ttl);
            var s3 := Next(Next(Next(s2, Tick(1), ttl), Acquire(2, "B"), ttl), Reply(2), ttl);
            var s4 := Next(s3, Finish(1), ttl);
            && !Timely(s3, Finish(1))
            && Active(s4, "A", ttl) && Active(s4, "B", ttl)
  {
  }

  /** A release delayed past the end of its lease deletes the next leader's key, and a third instance joins in. */
  lemma LateReleaseGivesTwoLeaders()
    ensures var ttl := 10000;
            var s0 := Start({"A", "B", "C"});
            var s1 := Next(Next(s0, Acquire(0, "A"), ttl), Reply(0), ttl);
            var s2 := Next(Next(s1, Tick(9999), ttl), Get(1, "A", true), ttl);
            var s3 := Next(Next(Next(s2, Tick(1), ttl), Acquire(2, "B"), ttl), Reply(2), ttl);
            var s4 := Next(Next(Next(s3, Finish(1), ttl), Acquire(3, "C"), ttl), Reply(3), ttl);
            && !Timely(s3, Finish(1))
            && Active(s4, "B", ttl) && Active(s4, "C", ttl)
  {
  }

  /**
   A release, every command of it timely: between the DEL and its answer, and for good if the answer is lost, the
   instance that is being stopped still has its flag, and both it and its successor believe to be inside a lease.
   */
  lemma ReleaseLeavesTwoFlags()
    ensures var ttl := 10000;
            var s1 := Next(Next(Start({"A", "B"}), Acquire(0, "A"), ttl), Reply(0), ttl);
            var s2 := Next(s1, Get(1, "A", true), ttl);
            var s3 := Next(s2, Finish(1), ttl);
            var s4 := Next(Next(s3, Acquire(2, "B"), ttl), Reply(2), ttl);
            && Timely(s2, Finish(1))
            && Believes(s4, "A", ttl) && Believes(s4, "B", ttl) && s4.nodes["A"].gaveUp
            && Believes(Next(s4, Fail(1), ttl), "A", ttl) && !Believes(Next(s4, Reply(1), ttl), "A", ttl)
  {
  }
}
