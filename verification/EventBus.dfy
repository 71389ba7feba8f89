/**
 Publishing and idempotent consumption of one topic: indexer/src/kafkaEventBus.js.

 The consumer callback and `replayStream` claim a message id with SADD, refresh the set's expiry, run the handler and,
 if it fails, give the id back with SREM.  Every one of these awaits, so live deliveries and replays interleave freely;
 the model is a state machine over the pieces, for one consumer group, without expiry of the dedup set.
 */
module EventBus {
  import opened Options
  import Decimal

  datatype Message = Message(id: string, payload: string)

  /* ----- message ids ----- */

  function MessageId(topic: string, pid: nat, n: nat): string {
    topic + ":" + Decimal.Dec(pid) + ":" + Decimal.Dec(n)
  }

  lemma ColonAfter(a: string, x: string)
    requires Decimal.AllDigits(a)
    ensures var s := a + ":" + x; s[|a|] == ':' && forall i :: 0 <= i < |a| ==> Decimal.IsDigit(s[i])
  {
  }

  lemma DigitsBeforeColon(a: string, x: string, b: string, y: string)
    requires Decimal.AllDigits(a) && Decimal.AllDigits(b) && a + ":" + x == b + ":" + y
    ensures a == b && x == y
  {
    ColonAfter(a, x);
    ColonAfter(b, y);
    assert a == (a + ":" + x)[..|a|] && b == (b + ":" + y)[..|b|];
    assert x == (a + ":" + x)[|a| + 1..] && y == (b + ":" + y)[|b| + 1..];
  }

  /** Within a topic, ids repeat exactly when process id and counter both do. */
  lemma MessageIdsClashIff(topic: string, pid: nat, n: nat, pid': nat, n': nat)
    ensures MessageId(topic, pid, n) == MessageId(topic, pid', n') <==> pid == pid' && n == n'
  {
    hide Decimal.Dec;
    if MessageId(topic, pid, n) == MessageId(topic, pid', n') {
      var p, q, p', q' := Decimal.Dec(pid), Decimal.Dec(n), Decimal.Dec(pid'), Decimal.Dec(n');
      var tail, tail' := p + ":" + q, p' + ":" + q';
      assert MessageId(topic, pid, n) == (topic + ":") + tail && MessageId(topic, pid', n') == (topic + ":") + tail';
      assert tail == MessageId(topic, pid, n)[|topic| + 1..] && tail' == MessageId(topic, pid', n')[|topic| + 1..];
      DigitsBeforeColon(p, q, p', q');
      Decimal.DecInjective(pid, pid');
      Decimal.DecInjective(n, n');
    }
  }

  /** The first `n` ids a process hands out for a topic. */
  function Issued(topic: string, pid: nat, n: nat): seq<string> {
    if n == 0 then [] else Issued(topic, pid, n - 1) + [MessageId(topic, pid, n)]
  }

  lemma {:induction false} IssuedAre(topic: string, pid: nat, n: nat, id: string)
    ensures id in Issued(topic, pid, n) <==> exists k :: 1 <= k <= n && id == MessageId(topic, pid, k)
  {
    if n > 0 { IssuedAre(topic, pid, n - 1, id); }
  }

  /**
   Two processes that have both published to a topic have an id in common exactly when they run under the same
   process id, as restarted containers do; the counter starts over with each process.
   */
  lemma ProcessesClashIff(topic: string, pid: nat, n: nat, pid': nat, n': nat)
    requires n > 0 && n' > 0
    ensures (exists id :: id in Issued(topic, pid, n) && id in Issued(topic, pid', n')) <==> pid == pid'
  {
    if pid == pid' {
      var id := MessageId(topic, pid, 1);
      IssuedAre(topic, pid, n, id);
      IssuedAre(topic, pid', n', id);
    } else if id :| id in Issued(topic, pid, n) && id in Issued(topic, pid', n') {
      IssuedAre(topic, pid, n, id);
      IssuedAre(topic, pid', n', id);
      var k :| 1 <= k <= n && id == MessageId(topic, pid, k);
      var k' :| 1 <= k' <= n' && id == MessageId(topic, pid', k');
      MessageIdsClashIff(topic, pid, k, pid', k');
      assert false;
    }
  }

  class Publisher {
    const pid: nat
    var counters: map<string, nat>
    var streams: map<string, seq<Message>>

    constructor (pid: nat)
      ensures this.pid == pid && counters == map[] && streams == map[]
    {
      this.pid := pid;
      counters, streams := map[], map[];
    }

    function Count(topic: string): nat
      reads this
    {
      if topic in counters then counters[topic] else 0
    }

    method NextMessageId(topic: string) returns (id: string)
      modifies this`counters
      ensures counters == old(counters)[topic := old(Count(topic)) + 1]
      ensures id == MessageId(topic, pid, Count(topic))
      ensures Issued(topic, pid, Count(topic)) == Issued(topic, pid, old(Count(topic))) + [id]
    {
      var n := (if topic in counters then counters[topic] else 0) + 1;
      counters := counters[topic := n];
      id := topic + ":" + Decimal.Dec(pid) + ":" + Decimal.Dec(n);
    }

    /**
     Appends to the topic's list (the message also goes out on the topic's channel), or throws when Redis does not
     accept the transaction.  The counter has moved either way: an id is never used twice by one process.
     */
    method Publish(topic: string, payload: string, accepted: bool) returns (message: Option<Message>)
      modifies this
      ensures Count(topic) == old(Count(topic)) + 1
      ensures message == if accepted then Some(Message(MessageId(topic, pid, Count(topic)), payload)) else None
      ensures streams == if message.None? then old(streams)
                         else
                           var list := if topic in old(streams) then old(streams)[topic] else [];
                           old(streams)[topic := list + [message.value]]
      ensures forall t :: t != topic ==> Count(t) == old(Count(t))
    {
      var id := NextMessageId(topic);
      if !accepted {
        return None;
      }
      var m := Message(id, payload);
      streams := streams[topic := (if topic in streams then streams[topic] else []) + [m]];
      message := Some(m);
    }
  }

  /* ----- the consumer group ----- */

  /** A claimed message: `replay` is the replay that claimed it, if any; `started` once its handler runs. */
  datatype Task = Task(id: string, replay: Option<nat>, started: bool)

  /** A replay walks the list it read; `missed` are the ids whose handler failed after it had passed them. */
  datatype Replay = Replay(snapshot: seq<string>, pos: nat, busy: Option<nat>, missed: set<string>)

  datatype State = State(
    stream: seq<string>,
    dedup: set<string>,
    tasks: map<nat, Task>,
    succeeded: seq<string>,
    stranded: set<string>,      // claimed, but Redis failed before the handler ran or as it gave the id back
    replays: map<nat, Replay>)

  const EMPTY: State := State([], {}, map[], [], {}, map[])

  datatype Step =
    | Append(id: string)
    | ExpireStream
    | Deliver(task: nat, id: string)
    | StartReplay(replay: nat)
    | ReplayNext(replay: nat, task: nat)
    | AbortReplay(replay: nat)
    | StartHandler(task: nat)
    | Succeed(task: nat)
    | HandlerFails(task: nat, givenBack: bool)
    | ExpireFails(task: nat)

  predicate Enabled(s: State, step: Step) {
    match step
    case Append(_) => true
    case ExpireStream => true
    case Deliver(t, _) => t !in s.tasks
    case StartReplay(r) => r !in s.replays
    case ReplayNext(r, t) =>
      r in s.replays && s.replays[r].busy.None? && s.replays[r].pos < |s.replays[r].snapshot| && t !in s.tasks
    case AbortReplay(r) => r in s.replays && s.replays[r].busy.None?
    case StartHandler(t) => t in s.tasks && !s.tasks[t].started
    case Succeed(t) => t in s.tasks && s.tasks[t].started
    case HandlerFails(t, _) => t in s.tasks && s.tasks[t].started
    case ExpireFails(t) => t in s.tasks && !s.tasks[t].started
  }

  /** The replay that a finished task belonged to goes on to the next message. */
  function Advance(replays: map<nat, Replay>, task: Task): map<nat, Replay> {
    if task.replay.Some? && task.replay.value in replays then
      var p := replays[task.replay.value];
      replays[task.replay.value := p.(pos := p.pos + 1, busy := None)]
    else replays
  }

  function Miss(replays: map<nat, Replay>, id: string): map<nat, Replay> {
    map r | r in replays :: replays[r].(missed := replays[r].missed + {id})
  }

  function Drop(replays: map<nat, Replay>, task: Task): map<nat, Replay> {
    if task.replay.Some? then replays - {task.replay.value} else replays
  }

  function Next(s: State, step: Step): State
    requires Enabled(s, step)
  {
    match step
    case Append(id) => s.(stream := s.stream + [id])
    case ExpireStream => s.(stream := [])
    case Deliver(t, id) =>
      if id in s.dedup then s
      else s.(dedup := s.dedup + {id}, tasks := s.tasks[t := Task(id, None, false)])
    case StartReplay(r) => s.(replays := s.replays[r := Replay(s.stream, 0, None, {})])
    case ReplayNext(r, t) =>
      var p := s.replays[r];
      var id := p.snapshot[p.pos];
      if id in s.dedup then s.(replays := s.replays[r := p.(pos := p.pos + 1)])
      else s.(dedup := s.dedup + {id}, tasks := s.tasks[t := Task(id, Some(r), false)],
              replays := s.replays[r := p.(busy := Some(t))])
    case AbortReplay(r) => s.(replays := s.replays - {r})
    case StartHandler(t) => s.(tasks := s.tasks[t := s.tasks[t].(started := true)])
    case Succeed(t) =>
      s.(tasks := s.tasks - {t}, succeeded := s.succeeded + [s.tasks[t].id], replays := Advance(s.replays, s.tasks[t]))
    case HandlerFails(t, givenBack) =>
      var id := s.tasks[t].id;
      var failed := s.(tasks := s.tasks - {t}, replays := Advance(Miss(s.replays, id), s.tasks[t]));
      if givenBack then failed.(dedup := s.dedup - {id}) else failed.(stranded := s.stranded + {id})
    case ExpireFails(t) =>
      s.(tasks := s.tasks - {t}, stranded := s.stranded + {s.tasks[t].id}, replays := Drop(s.replays, s.tasks[t]))
  }

  /* ----- exactly once ----- */

  ghost predicate InFlight(s: State, id: string) {
    exists t :: t in s.tasks && s.tasks[t].id == id
  }

  ghost predicate Once(s: State) {
    && (forall id :: id in s.dedup <==> InFlight(s, id) || id in s.succeeded || id in s.stranded)
    && (forall t, u :: t in s.tasks && u in s.tasks && t != u ==> s.tasks[t].id != s.tasks[u].id)
    && (forall t :: t in s.tasks ==> s.tasks[t].id !in s.succeeded && s.tasks[t].id !in s.stranded)
    && (forall i, j :: 0 <= i < j < |s.succeeded| ==> s.succeeded[i] != s.succeeded[j])
    && (forall id :: id in s.stranded ==> id !in s.succeeded)
  }

  /** Whatever a replay has passed is claimed, unless its handler failed since. */
  ghost predicate Passed(s: State, r: nat)
    requires r in s.replays
  {
    var p := s.replays[r];
    && p.pos <= |p.snapshot|
    && (forall k :: 0 <= k < p.pos ==> p.snapshot[k] in s.dedup || p.snapshot[k] in p.missed)
  }

  /** A replay that waits for a task waits for its own current message, and only tasks it waits for are its own. */
  ghost predicate Linked(s: State) {
    && (forall r :: r in s.replays && s.replays[r].busy.Some? ==>
          WaitsFor(s, r, s.replays[r].busy.value))
    && (forall t :: t in s.tasks && s.tasks[t].replay.Some? ==>
          s.tasks[t].replay.value in s.replays && s.replays[s.tasks[t].replay.value].busy == Some(t))
  }

  ghost predicate Inv(s: State) {
    Once(s) && Linked(s) && forall r :: r in s.replays ==> Passed(s, r)
  }

  lemma ClaimKeepsOnce(s: State, s': State, t: nat, id: string)
    requires Once(s) && id !in s.dedup && t !in s.tasks
    requires s'.dedup == s.dedup + {id} && s'.tasks.Keys == s.tasks.Keys + {t} && s'.tasks[t].id == id
    requires forall u :: u in s.tasks ==> s'.tasks[u] == s.tasks[u]
    requires s'.succeeded == s.succeeded && s'.stranded == s.stranded
    ensures Once(s')
  {
    assert forall u :: u in s.tasks ==> s.tasks[u].id in s.dedup by {
      forall u | u in s.tasks ensures s.tasks[u].id in s.dedup { assert InFlight(s, s.tasks[u].id); }
    }
    forall x | InFlight(s, x) ensures InFlight(s', x) {
      var u :| u in s.tasks && s.tasks[u].id == x;
      assert s'.tasks[u].id == x;
    }
    assert InFlight(s', id);
  }

  lemma FinishKeepsOnce(s: State, s': State, t: nat)
    requires Once(s) && t in s.tasks && s'.tasks == s.tasks - {t}
    requires var id := s.tasks[t].id;
             || (s'.succeeded == s.succeeded + [id] && s'.stranded == s.stranded && s'.dedup == s.dedup)
             || (s'.succeeded == s.succeeded && s'.stranded == s.stranded && s'.dedup == s.dedup - {id})
             || (s'.succeeded == s.succeeded && s'.stranded == s.stranded + {id} && s'.dedup == s.dedup)
    ensures Once(s')
  {
    TaskGone(s, s', t);
    hide InFlight;
  }

  lemma TaskGone(s: State, s': State, t: nat)
    requires Once(s) && t in s.tasks && s'.tasks == s.tasks - {t}
    ensures InFlight(s, s.tasks[t].id)
    ensures forall x :: InFlight(s', x) <==> InFlight(s, x) && x != s.tasks[t].id
  {
    var id := s.tasks[t].id;
    forall x ensures InFlight(s', x) <==> InFlight(s, x) && x != id {
      if InFlight(s, x) && x != id {
        var u :| u in s.tasks && s.tasks[u].id == x;
        assert s'.tasks[u].id == x;
      }
    }
  }

  lemma OnceKept(s: State, step: Step)
    requires Once(s) && Enabled(s, step)
    ensures Once(Next(s, step))
  {
    var s' := Next(s, step);
    match step
    case Deliver(t, id) => if id !in s.dedup { ClaimKeepsOnce(s, s', t, id); }
    case ReplayNext(r, t) =>
      var id := s.replays[r].snapshot[s.replays[r].pos];
      if id !in s.dedup { ClaimKeepsOnce(s, s', t, id); } else { SameTasks(s, s'); }
    case Succeed(t) => FinishKeepsOnce(s, s', t);
    case HandlerFails(t, _) => FinishKeepsOnce(s, s', t);
    case ExpireFails(t) => FinishKeepsOnce(s, s', t);
    case _ => SameTasks(s, s');
  }

  lemma SameTasks(s: State, s': State)
    requires Once(s) && s'.dedup == s.dedup && s'.succeeded == s.succeeded && s'.stranded == s.stranded
    requires s'.tasks.Keys == s.tasks.Keys && forall u :: u in s.tasks ==> s'.tasks[u].id == s.tasks[u].id
    ensures Once(s')
  {
    forall x ensures InFlight(s, x) <==> InFlight(s', x) {
      if u :| u in s.tasks && s.tasks[u].id == x { assert s'.tasks[u].id == x; }
      if u :| u in s'.tasks && s'.tasks[u].id == x { assert s.tasks[u].id == x; }
    }
  }

  /** A replay's current message is claimed by the task it waits for. */
  ghost predicate WaitsFor(s: State, r: nat, t: nat)
    requires r in s.replays
  {
    var p := s.replays[r];
    p.pos < |p.snapshot| && t in s.tasks && s.tasks[t].replay == Some(r) && s.tasks[t].id == p.snapshot[p.pos]
  }

  lemma LinkedKept(s: State, step: Step)
    requires Linked(s) && Enabled(s, step)
    ensures Linked(Next(s, step))
  {
    forall r | r in Next(s, step).replays && Next(s, step).replays[r].busy.Some? {
      ReplayLinked(s, step, r);
    }
    forall t | t in Next(s, step).tasks && Next(s, step).tasks[t].replay.Some? {
      TaskLinked(s, step, t);
    }
  }

  lemma ReplayLinked(s: State, step: Step, r: nat)
    requires Linked(s) && Enabled(s, step) && r in Next(s, step).replays && Next(s, step).replays[r].busy.Some?
    ensures WaitsFor(Next(s, step), r, Next(s, step).replays[r].busy.value)
  {
    var s' := Next(s, step);
    if r in s.replays && s.replays[r].busy == s'.replays[r].busy {
      assert WaitsFor(s, r, s.replays[r].busy.value);
    }
  }

  lemma TaskLinked(s: State, step: Step, t: nat)
    requires Linked(s) && Enabled(s, step) && t in Next(s, step).tasks && Next(s, step).tasks[t].replay.Some?
    ensures var s' := Next(s, step);
            s'.tasks[t].replay.value in s'.replays && s'.replays[s'.tasks[t].replay.value].busy == Some(t)
  {
  }

  lemma TaskClaimed(s: State, t: nat)
    requires Once(s) && t in s.tasks
    ensures s.tasks[t].id in s.dedup
  {
    assert InFlight(s, s.tasks[t].id);
  }

  /** Claims only disappear into `missed`, so a replay that stays where it is keeps what it has passed. */
  lemma StillPassed(s: State, s': State, r: nat, gone: set<string>)
    requires r in s.replays && r in s'.replays && Passed(s, r)
    requires var p, p' := s.replays[r], s'.replays[r];
             p'.snapshot == p.snapshot && p.missed + gone <= p'.missed && s.dedup - gone <= s'.dedup
    requires var p, p' := s.replays[r], s'.replays[r];
             || p'.pos == p.pos
             || (&& p'.pos == p.pos + 1 <= |p.snapshot|
                 && (p.snapshot[p.pos] in s'.dedup || p.snapshot[p.pos] in p'.missed))
    ensures Passed(s', r)
  {
    var p, p' := s.replays[r], s'.replays[r];
    forall k | 0 <= k < p'.pos ensures p'.snapshot[k] in s'.dedup || p'.snapshot[k] in p'.missed {
      if k < p.pos { assert p.snapshot[k] in s.dedup || p.snapshot[k] in p.missed; }
    }
  }

  lemma FinishPassed(s: State, step: Step, r: nat)
    requires step.Succeed? || step.HandlerFails?
    requires Once(s) && Linked(s) && Enabled(s, step) && r in s.replays && Passed(s, r)
    ensures Passed(Next(s, step), r)
  {
    hide Once;
    TaskClaimed(s, step.task);
    var task := s.tasks[step.task];
    if task.replay == Some(r) { assert WaitsFor(s, r, step.task); }
    StillPassed(s, Next(s, step), r, if step.HandlerFails? then {task.id} else {});
  }

  lemma PassedKept(s: State, step: Step, r: nat)
    requires Once(s) && Linked(s) && Enabled(s, step) && r in Next(s, step).replays
    requires r in s.replays ==> Passed(s, r)
    ensures Passed(Next(s, step), r)
  {
    hide Once, Linked;
    if r in s.replays {
      if step.Succeed? || step.HandlerFails? {
        FinishPassed(s, step, r);
      } else {
        StillPassed(s, Next(s, step), r, {});
      }
    }
  }

  lemma InvKept(s: State, step: Step)
    requires Inv(s) && Enabled(s, step)
    ensures Inv(Next(s, step))
  {
    hide Once, Linked, Passed, Next;
    OnceKept(s, step);
    LinkedKept(s, step);
    forall r | r in Next(s, step).replays ensures Passed(Next(s, step), r) {
      PassedKept(s, step, r);
    }
  }

  ghost predicate IsRun(states: seq<State>, steps: seq<Step>) {
    && |states| == |steps| + 1
    && states[0] == EMPTY
    && forall n :: 0 <= n < |steps| ==> Enabled(states[n], steps[n]) && states[n + 1] == Next(states[n], steps[n])
  }

  lemma {:induction false} RunInv(states: seq<State>, steps: seq<Step>, n: nat)
    requires IsRun(states, steps) && n < |states|
    ensures Inv(states[n])
  {
    hide Enabled, Next, Once, Linked, Passed;
    if n == 0 {
      EmptyInv();
    } else {
      RunInv(states, steps, n - 1);
      InvKept(states[n - 1], steps[n - 1]);
    }
  }

  lemma EmptyInv()
    ensures Inv(EMPTY)
  {
  }

  /** The faults that leave an id claimed with nobody to process it. */
  predicate Faulty(step: Step) {
    step.ExpireFails? || (step.HandlerFails? && !step.givenBack)
  }

  lemma {:induction false} NothingStranded(states: seq<State>, steps: seq<Step>, n: nat)
    requires IsRun(states, steps) && n < |states|
    requires forall k :: 0 <= k < n ==> !Faulty(steps[k])
    ensures states[n].stranded == {}
  {
    if n > 0 { NothingStranded(states, steps, n - 1); }
  }

  /**
   Exactly once per group, over every interleaving: no id has two handlers in flight, a handler in flight after it
   succeeded, or two successes; and with no Redis fault an id is in the dedup set exactly when its handler is in flight
   or has succeeded.
   */
  lemma ExactlyOnce(states: seq<State>, steps: seq<Step>, n: nat)
    requires IsRun(states, steps) && n < |states|
    ensures var s := states[n];
            && (forall t, u :: t in s.tasks && u in s.tasks && s.tasks[t].id == s.tasks[u].id ==> t == u)
            && (forall t :: t in s.tasks ==> s.tasks[t].id !in s.succeeded)
            && (forall i, j :: 0 <= i < j < |s.succeeded| ==> s.succeeded[i] != s.succeeded[j])
    ensures (forall k :: 0 <= k < n ==> !Faulty(steps[k])) ==>
              forall id :: id in states[n].dedup <==> InFlight(states[n], id) || id in states[n].succeeded
  {
    RunInv(states, steps, n);
    if forall k :: 0 <= k < n ==> !Faulty(steps[k]) {
      NothingStranded(states, steps, n);
    }
  }

  /** The ids appended since the list last expired, oldest first. */
  function Appended(steps: seq<Step>): seq<string> {
    if steps == [] then []
    else
      match steps[|steps| - 1]
      case Append(id) => Appended(steps[..|steps| - 1]) + [id]
      case ExpireStream => []
      case _ => Appended(steps[..|steps| - 1])
  }

  /** So a replay that starts now goes through them in the order in which they were published. */
  lemma {:induction false} StreamIsAppended(states: seq<State>, steps: seq<Step>, n: nat)
    requires IsRun(states, steps) && n < |states|
    ensures states[n].stream == Appended(steps[..n])
  {
    if n > 0 {
      StreamIsAppended(states, steps, n - 1);
      assert steps[..n][..n - 1] == steps[..n - 1];
      assert Enabled(states[n - 1], steps[n - 1]) && states[n] == Next(states[n - 1], steps[n - 1]);
    }
  }

  /* ----- what a replay achieves ----- */

  lemma {:induction false} NothingMissed(states: seq<State>, steps: seq<Step>, r: nat, m: nat, n: nat)
    requires IsRun(states, steps) && m < n < |states|
    requires steps[m] == StartReplay(r) && r in states[n].replays
    requires forall k :: m < k < n ==> !steps[k].HandlerFails? && steps[k] != StartReplay(r)
    ensures states[n].replays[r].missed == {} && states[n].replays[r].snapshot == states[m].stream
  {
    var s, step := states[n - 1], steps[n - 1];
    assert states[n] == Next(s, step);
    if m < n - 1 {
      assert r in s.replays;
      NothingMissed(states, steps, r, m, n - 1);
    }
  }

  /**
   After a replay during which no handler failed and Redis had no faults, every message of the list it read has
   succeeded or is being handled, by whichever of the live consumer and the replays claimed it.
   */
  lemma ReplayCoversSnapshot(states: seq<State>, steps: seq<Step>, r: nat, m: nat, n: nat)
    requires IsRun(states, steps) && m < n < |states|
    requires steps[m] == StartReplay(r) && r in states[n].replays
    requires forall k :: m < k < n ==> !steps[k].HandlerFails? && steps[k] != StartReplay(r)
    requires forall k :: 0 <= k < n ==> !Faulty(steps[k])
    requires states[n].replays[r].pos == |states[n].replays[r].snapshot|
    ensures forall id :: id in states[m].stream ==> InFlight(states[n], id) || id in states[n].succeeded
  {
    NothingMissed(states, steps, r, m, n);
    RunInv(states, steps, n);
    NothingStranded(states, steps, n);
    var p := states[n].replays[r];
    assert Passed(states[n], r);
    forall id | id in states[m].stream ensures InFlight(states[n], id) || id in states[n].succeeded {
      var k :| 0 <= k < |p.snapshot| && p.snapshot[k] == id;
      assert id in states[n].dedup;
    }
  }

  /** A stranded or succeeded id is never handled again: a delivery of it changes nothing, and neither does a replay. */
  lemma ClaimedIsSkipped(s: State, t: nat, id: string)
    requires Inv(s) && t !in s.tasks
    ensures Next(s, Deliver(t, id)) == s <==> InFlight(s, id) || id in s.succeeded || id in s.stranded
  {
    if id !in s.dedup { assert Next(s, Deliver(t, id)).tasks[t].id == id; }
  }

  lemma {:induction false} SucceededStays(states: seq<State>, steps: seq<Step>, m: nat, n: nat, id: string)
    requires IsRun(states, steps) && m <= n < |states| && id in states[m].succeeded
    ensures id in states[n].succeeded
  {
    if m < n {
      SucceededStays(states, steps, m, n - 1, id);
      assert Enabled(states[n - 1], steps[n - 1]) && states[n] == Next(states[n - 1], steps[n - 1]);
    }
  }

  /**
   An id under which a message was handled is used up for good: whatever is published under it later, as a process with
   the same pid does, is never handled, neither when it is delivered nor by a replay.
   */
  lemma RepeatedIdIsLost(states: seq<State>, steps: seq<Step>, m: nat, n: nat, id: string)
    requires IsRun(states, steps) && m <= n < |states| && id in states[m].succeeded
    ensures !InFlight(states[n], id)
    ensures forall t :: t !in states[n].tasks ==> Next(states[n], Deliver(t, id)) == states[n]
    ensures forall r, t :: Enabled(states[n], ReplayNext(r, t))
                           && states[n].replays[r].snapshot[states[n].replays[r].pos] == id ==>
                             Next(states[n], ReplayNext(r, t)).tasks == states[n].tasks
  {
    SucceededStays(states, steps, m, n, id);
    ExactlyOnce(states, steps, n);
    RunInv(states, steps, n);
    forall t | t !in states[n].tasks ensures Next(states[n], Deliver(t, id)) == states[n] {
      ClaimedIsSkipped(states[n], t, id);
    }
  }

  /** For instance, when the counters of two processes with one pid start anew. */
  lemma RestartedPublisherIsLost(topic: string, pid: nat)
    ensures var id := MessageId(topic, pid, 1);
            var s := Next(Next(Next(Next(EMPTY, Append(id)), Deliver(0, id)), StartHandler(0)), Succeed(0));
            var republished := Next(s, Append(id));
            && republished.stream == [id, id] && republished.succeeded == [id]
            && Next(republished, Deliver(1, id)) == republished
            && Issued(topic, pid, 1) == [id]
  {
    assert Issued(topic, pid, 0) == [];
  }

  /* ----- replayStream on its own ----- */

  /** What an uninterrupted replay does: the new dedup set, and the ids handed to the handler in order. */
  function Replayed(ids: seq<string>, dedup: set<string>, ok: string -> bool): (set<string>, seq<string>) {
    if ids == [] then (dedup, [])
    else
      var (d, handled) := Replayed(ids[..|ids| - 1], dedup, ok);
      var id := ids[|ids| - 1];
      if id in d then (d, handled) else (if ok(id) then d + {id} else d, handled + [id])
  }

  method ReplayStream(messages: seq<Message>, dedup: set<string>, ok: string -> bool)
    returns (dedup': set<string>, handled: seq<string>)
    ensures (dedup', handled) == Replayed(Ids(messages), dedup, ok)
  {
    dedup', handled := dedup, [];
    for i := 0 to |messages|
      invariant (dedup', handled) == Replayed(Ids(messages)[..i], dedup, ok)
    {
      var messageId := messages[i].id;
      assert Ids(messages)[..i + 1][..i] == Ids(messages)[..i];
      if messageId !in dedup' {
        dedup' := dedup' + {messageId};
        handled := handled + [messageId];
        if !ok(messageId) {
          dedup' := dedup' - {messageId};
        }
      }
    }
    assert Ids(messages)[..|messages|] == Ids(messages);
  }

  function Ids(messages: seq<Message>): (ids: seq<string>)
    ensures |ids| == |messages| && forall i :: 0 <= i < |ids| ==> ids[i] == messages[i].id
  {
    if messages == [] then [] else [messages[0].id] + Ids(messages[1..])
  }

  /**
   An uninterrupted replay leaves claimed exactly what was claimed before and what its handler accepts, hands over
   nothing that was claimed, and hands over an id again only after its handler failed.
   */
  lemma {:induction false} ReplayedMeaning(ids: seq<string>, dedup: set<string>, ok: string -> bool)
    ensures var (d, handled) := Replayed(ids, dedup, ok);
            && (forall id :: id in d <==> id in dedup || (id in ids && ok(id)))
            && (forall id :: id in handled <==> id in ids && id !in dedup)
            && (forall i, j :: 0 <= i < j < |handled| && handled[i] == handled[j] ==> !ok(handled[i]))
  {
    if ids != [] {
      ReplayedMeaning(ids[..|ids| - 1], dedup, ok);
      assert ids == ids[..|ids| - 1] + [ids[|ids| - 1]];
    }
  }

  /* ----- and as steps in a row ----- */

  ghost predicate Path(s: State, steps: seq<Step>, u: State)
    decreases |steps|
  {
    if steps == [] then s == u else Enabled(s, steps[0]) && Path(Next(s, steps[0]), steps[1..], u)
  }

  lemma {:induction false} PathConcat(s: State, one: seq<Step>, u: State, two: seq<Step>, v: State)
    requires Path(s, one, u) && Path(u, two, v)
    ensures Path(s, one + two, v)
    decreases |one|
  {
    hide Next, Enabled;
    if one == [] {
      assert one + two == two;
    } else {
      assert (one + two)[1..] == one[1..] + two;
      PathConcat(Next(s, one[0]), one[1..], u, two, v);
    }
  }

  /** The steps that handle the next message of a replay, as task `t`. */
  function Turn(r: nat, t: nat, claimed: bool, accepted: bool): seq<Step> {
    if claimed then [ReplayNext(r, t)]
    else [ReplayNext(r, t), StartHandler(t), if accepted then Succeed(t) else HandlerFails(t, true)]
  }

  function Accepted(handled: seq<string>, ok: string -> bool): seq<string> {
    if handled == [] then []
    else
      var before := Accepted(handled[..|handled| - 1], ok);
      if ok(handled[|handled| - 1]) then before + [handled[|handled| - 1]] else before
  }

  /** The replay stands before message `k`, with what `Replayed` says of the messages before it. */
  ghost predicate Reached(s: State, u: State, r: nat, k: nat, ok: string -> bool)
    requires k <= |s.stream|
  {
    var (d, handled) := Replayed(s.stream[..k], s.dedup, ok);
    && u.stream == s.stream && u.tasks == s.tasks && u.stranded == s.stranded && u.dedup == d
    && u.succeeded == s.succeeded + Accepted(handled, ok)
    && r in u.replays && u.replays[r].snapshot == s.stream && u.replays[r].pos == k && u.replays[r].busy.None?
  }

  /** `ReplayStream` without interruption is the start of a replay and its turns in a row. */
  lemma {:induction false} UninterruptedReplay(s: State, r: nat, t: nat, k: nat, ok: string -> bool)
    returns (steps: seq<Step>, u: State)
    requires r !in s.replays && t !in s.tasks && k <= |s.stream|
    ensures Path(s, steps, u) && Reached(s, u, r, k, ok)
  {
    if k == 0 {
      steps, u := [StartReplay(r)], Next(s, StartReplay(r));
      assert steps[1..] == [] && Path(u, [], u);
      assert s.succeeded + [] == s.succeeded;
    } else {
      var before, v := UninterruptedReplay(s, r, t, k - 1, ok);
      assert s.stream[..k][..k - 1] == s.stream[..k - 1];
      var id := s.stream[k - 1];
      var turn := Turn(r, t, id in v.dedup, ok(id));
      u := TakeTurn(v, r, t, ok(id));
      PathConcat(s, before, v, turn, u);
      steps := before + turn;
      var (d, handled) := Replayed(s.stream[..k - 1], s.dedup, ok);
      assert (handled + [id])[..|handled|] == handled;
    }
  }

  lemma TakeTurn(v: State, r: nat, t: nat, accepted: bool) returns (u: State)
    requires Enabled(v, ReplayNext(r, t))
    ensures var p := v.replays[r];
            var id := p.snapshot[p.pos];
            && Path(v, Turn(r, t, id in v.dedup, accepted), u)
            && u.stream == v.stream && u.tasks == v.tasks && u.stranded == v.stranded
            && u.dedup == (if id !in v.dedup && accepted then v.dedup + {id} else v.dedup)
            && u.succeeded == (if id !in v.dedup && accepted then v.succeeded + [id] else v.succeeded)
            && r in u.replays && u.replays[r].snapshot == p.snapshot && u.replays[r].pos == p.pos + 1
            && u.replays[r].busy.None?
  {
    var p := v.replays[r];
    var id := p.snapshot[p.pos];
    var a := Next(v, ReplayNext(r, t));
    if id in v.dedup {
      u := a;
      assert Turn(r, t, true, accepted)[1..] == [] && Path(u, [], u);
    } else {
      var b := Next(a, StartHandler(t));
      var last := if accepted then Succeed(t) else HandlerFails(t, true);
      u := Next(b, last);
      assert u.tasks == v.tasks;
      assert [last][1..] == [] && Path(u, [], u) && Path(b, [last], u);
      assert [StartHandler(t), last][1..] == [last] && Path(a, [StartHandler(t), last], u);
      assert Turn(r, t, false, accepted)[1..] == [StartHandler(t), last];
    }
  }
}
