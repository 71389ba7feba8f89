/**
 Parallel back-fill of a ledger range: indexer/src/catchup.js and indexer/src/bulkLoader.js.
 Ledgers are dealt to workers, and every worker inserts the events of its ledgers on its own.
 */
module CatchUp {
  import opened Division
  import opened Ledger

  /* ----- dealing ledgers to workers ----- */

  /** The queue that the i-th ledger of the range goes to; `bulkLoader.js` deals with batch size 1. */
  function Target(i: nat, workers: nat, batch: nat): (q: nat)
    requires workers > 0 && batch > 0
    ensures q < workers
  {
    (i / batch) % workers
  }

  /** What queue `q` holds once the first `n` ledgers from `from` on are dealt. */
  function Queue(from: nat, n: nat, workers: nat, batch: nat, q: nat): seq<nat>
    requires workers > 0 && batch > 0
  {
    if n == 0 then []
    else Queue(from, n - 1, workers, batch, q) + (if Target(n - 1, workers, batch) == q then [from + n - 1] else [])
  }

  method Distribute(from: nat, to: nat, workers: nat, batch: nat) returns (queues: seq<seq<nat>>)
    requires from <= to && workers > 0 && batch > 0
    ensures |queues| == workers
    ensures forall q :: 0 <= q < workers ==> queues[q] == Queue(from, to - from + 1, workers, batch, q)
  {
    hide Target;
    var total := to - from + 1;
    queues := seq(workers, _ => []);
    for i := 0 to total
      invariant |queues| == workers
      invariant forall q :: 0 <= q < workers ==> queues[q] == Queue(from, i, workers, batch, q)
    {
      var q := Target(i, workers, batch);
      queues := queues[q := queues[q] + [from + i]];
    }
  }

  /** Every ledger of the range is in exactly one queue, its target, and queues hold nothing else. */
  lemma {:induction false} QueueMembers(from: nat, n: nat, workers: nat, batch: nat, q: nat, ledger: nat)
    requires workers > 0 && batch > 0
    ensures ledger in Queue(from, n, workers, batch, q) <==>
            from <= ledger < from + n && Target(ledger - from, workers, batch) == q
  {
    hide Target;
    if n > 0 { QueueMembers(from, n - 1, workers, batch, q, ledger); }
  }

  lemma {:induction false} QueueAscending(from: nat, n: nat, workers: nat, batch: nat, q: nat)
    requires workers > 0 && batch > 0
    ensures forall i :: 0 <= i < |Queue(from, n, workers, batch, q)| ==> Queue(from, n, workers, batch, q)[i] < from + n
    ensures forall i, j :: 0 <= i < j < |Queue(from, n, workers, batch, q)| ==>
              Queue(from, n, workers, batch, q)[i] < Queue(from, n, workers, batch, q)[j]
  {
    hide Target;
    if n > 0 {
      QueueAscending(from, n - 1, workers, batch, q);
      var before, s := Queue(from, n - 1, workers, batch, q), Queue(from, n, workers, batch, q);
      forall i | 0 <= i < |s| ensures s[i] < from + n && (i < |before| ==> s[i] == before[i]) {
        if i < |before| { assert before[i] < from + (n - 1); }
      }
      forall i, j | 0 <= i < j < |s| ensures s[i] < s[j] {
        if j < |before| {
          assert before[i] < before[j];
        } else {
          assert s[j] == from + n - 1 && before[i] < from + (n - 1);
        }
      }
    }
  }

  /** The ledgers of queue `q` in an incomplete round of `rem` ledgers. */
  function Share(rem: int, batch: nat, q: nat): int {
    if rem <= q * batch then 0 else if rem >= q * batch + batch then batch else rem - q * batch
  }

  lemma TargetInRound(full: nat, rem: nat, workers: nat, batch: nat, q: nat)
    requires workers > 0 && batch > 0 && rem < batch * workers && q < workers
    ensures Target(full * (batch * workers) + rem, workers, batch) == q <==> q * batch <= rem < q * batch + batch
  {
    var t, r := rem / batch, rem % batch;
    assert rem == t * batch + r && r < batch;
    assert t < workers by { if t >= workers { MulMonotone(workers, t, batch); } }
    assert Target(full * (batch * workers) + rem, workers, batch) == t by {
      Regroup(full, batch, workers, t, r);
      DivUnique(full * (batch * workers) + rem, batch, full * workers + t, r);
      ModUnique(full * workers + t, workers, full, t);
    }
    hide Target;
    BatchOf(rem, batch, t, r, q);
  }

  lemma BatchOf(rem: nat, batch: nat, t: nat, r: nat, q: nat)
    requires rem == t * batch + r && r < batch
    ensures t == q <==> q * batch <= rem < q * batch + batch
  {
    if q < t { MulMonotone(q + 1, t, batch); }
    if t < q { MulMonotone(t + 1, q, batch); }
  }

  lemma Regroup(full: nat, batch: nat, workers: nat, t: nat, r: nat)
    ensures full * (batch * workers) + (t * batch + r) == (full * workers + t) * batch + r
  {
    assert full * (batch * workers) == (full * workers) * batch;
  }

  /** The length of a queue: a batch for every full round, and its share of the last one. */
  lemma {:induction false} QueueLength(from: nat, full: nat, rem: nat, workers: nat, batch: nat, q: nat)
    requires workers > 0 && batch > 0 && rem < batch * workers && q < workers
    ensures |Queue(from, full * (batch * workers) + rem, workers, batch, q)| == full * batch + Share(rem, batch, q)
    decreases full * (batch * workers) + rem
  {
    hide Target, Share, Queue;
    var round := batch * workers;
    if rem > 0 {
      QueueLength(from, full, rem - 1, workers, batch, q);
      QueueNext(from, full * round + (rem - 1), workers, batch, q);
      TargetInRound(full, rem - 1, workers, batch, q);
      ShareStep(rem - 1, batch, q);
    } else if full > 0 {
      OneLess(full, round);
      OneLess(full, batch);
      QueueLength(from, full - 1, round - 1, workers, batch, q);
      QueueNext(from, (full - 1) * round + (round - 1), workers, batch, q);
      TargetInRound(full - 1, round - 1, workers, batch, q);
      assert q * batch + batch <= round by { MulMonotone(q + 1, workers, batch); }
      ShareEnds(round, batch, q);
    } else {
      assert q * batch + batch <= round by { MulMonotone(q + 1, workers, batch); }
      ShareEnds(round, batch, q);
      QueueNone(from, workers, batch, q);
    }
  }

  lemma OneLess(k: int, x: int)
    ensures k * x == (k - 1) * x + x
  {
  }

  lemma QueueNext(from: nat, n: nat, workers: nat, batch: nat, q: nat)
    requires workers > 0 && batch > 0
    ensures |Queue(from, n + 1, workers, batch, q)| ==
            |Queue(from, n, workers, batch, q)| + if Target(n, workers, batch) == q then 1 else 0
  {
  }

  lemma QueueNone(from: nat, workers: nat, batch: nat, q: nat)
    requires workers > 0 && batch > 0
    ensures Queue(from, 0, workers, batch, q) == []
  {
  }

  lemma ShareStep(rem: int, batch: nat, q: nat)
    ensures Share(rem + 1, batch, q) == Share(rem, batch, q) + if q * batch <= rem < q * batch + batch then 1 else 0
  {
  }

  lemma ShareEnds(round: int, batch: nat, q: nat)
    requires batch > 0 && q * batch + batch <= round
    ensures Share(0, batch, q) == 0
    ensures Share(round - 1, batch, q) == batch - if q * batch + batch == round then 1 else 0
  {
  }

  /** No queue is longer than another by more than one batch. */
  lemma QueuesBalanced(from: nat, n: nat, workers: nat, batch: nat, p: nat, q: nat)
    requires workers > 0 && batch > 0 && p < workers && q < workers
    ensures |Queue(from, n, workers, batch, p)| <= |Queue(from, n, workers, batch, q)| + batch
  {
    hide Target, Queue, Share;
    var round := batch * workers;
    assert round > 0 by { MulMonotone(1, workers, batch); }
    var full, rem := n / round, n % round;
    assert n == full * round + rem;
    QueueLength(from, full, rem, workers, batch, p);
    QueueLength(from, full, rem, workers, batch, q);
    ShareBounds(rem, batch, p);
    ShareBounds(rem, batch, q);
  }

  lemma ShareBounds(rem: int, batch: nat, q: nat)
    ensures 0 <= Share(rem, batch, q) <= batch
  {
  }

  /* ----- one ledger ----- */

  function OfLedger(net: seq<Event>, ledger: nat): seq<Event> {
    if net == [] then []
    else OfLedger(net[..|net| - 1], ledger) + (if net[|net| - 1].ledger == ledger then [net[|net| - 1]] else [])
  }

  /** Of the ledger's own events each is kept as often as the network has it, and of others none. */
  lemma {:induction false} OfLedgerCounts(net: seq<Event>, ledger: nat, e: Event)
    ensures multiset(OfLedger(net, ledger))[e] == if e.ledger == ledger then multiset(net)[e] else 0
  {
    if net != [] {
      OfLedgerCounts(net[..|net| - 1], ledger, e);
      assert net == net[..|net| - 1] + [net[|net| - 1]];
    }
  }

  /** And in order: of a network in ledger order it is the stretch of that ledger. */
  lemma OfLedgerIsStretch(net: seq<Event>, ledger: nat)
    requires Sorted(net)
    ensures From(net, ledger) <= From(net, ledger + 1)
    ensures OfLedger(net, ledger) == net[From(net, ledger)..From(net, ledger + 1)]
  {
    hide From;
    FromSorted(net, ledger);
    FromSorted(net, ledger + 1);
    SplitsInOrder(net, ledger, From(net, ledger), From(net, ledger + 1));
    OfStretch(net, ledger, From(net, ledger), From(net, ledger + 1), |net|);
    assert net[..|net|] == net;
  }

  /** The places below `k` are those of events below the ledger. */
  predicate Splits(net: seq<Event>, ledger: nat, k: nat) {
    k <= |net| && forall i :: 0 <= i < |net| ==> (net[i].ledger < ledger <==> i < k)
  }

  lemma SplitsInOrder(net: seq<Event>, ledger: nat, a: nat, b: nat)
    requires Splits(net, ledger, a) && Splits(net, ledger + 1, b)
    ensures a <= b
  {
    if b < |net| {
      assert net[b].ledger >= ledger + 1;
    }
  }

  lemma {:induction false} OfStretch(net: seq<Event>, ledger: nat, a: nat, b: nat, n: nat)
    requires Splits(net, ledger, a) && Splits(net, ledger + 1, b) && a <= b && n <= |net|
    ensures OfLedger(net[..n], ledger) == if n <= a then [] else net[a..if n <= b then n else b]
  {
    if n > 0 {
      OfStretch(net, ledger, a, b, n - 1);
      OfLedgerNext(net, ledger, n - 1);
      assert net[n - 1].ledger == ledger <==> a <= n - 1 < b;
      hide OfLedger, Splits;
      if a < n <= b {
        assert net[a..n - 1] + [net[n - 1]] == net[a..n];
      }
    }
  }

  lemma OfLedgerNext(net: seq<Event>, ledger: nat, n: nat)
    requires n < |net|
    ensures OfLedger(net[..n + 1], ledger)
         == OfLedger(net[..n], ledger) + if net[n].ledger == ledger then [net[n]] else []
  {
    assert net[..n + 1][..n] == net[..n];
  }

  /** The events of one ledger, in terms of the network alone. */
  ghost predicate Fetched(events: seq<Event>, net: seq<Event>, ledger: nat) {
    && (forall e :: multiset(events)[e] == if e.ledger == ledger then multiset(net)[e] else 0)
    && (Sorted(net) ==> From(net, ledger) <= From(net, ledger + 1)
                        && events == net[From(net, ledger)..From(net, ledger + 1)])
  }

  lemma AllFetched(net: seq<Event>, ledger: nat)
    ensures Fetched(OfLedger(net, ledger), net, ledger)
  {
    hide OfLedger, From;
    forall e ensures multiset(OfLedger(net, ledger))[e] == if e.ledger == ledger then multiset(net)[e] else 0 {
      OfLedgerCounts(net, ledger, e);
    }
    if Sorted(net) {
      OfLedgerIsStretch(net, ledger);
    }
  }

  lemma {:induction false} OfLedgerFrom(net: seq<Event>, ledger: nat, k: nat)
    requires k <= |net| && forall i :: 0 <= i < k ==> net[i].ledger < ledger
    ensures OfLedger(net[..k], ledger) == []
  {
    if k > 0 {
      OfLedgerFrom(net, ledger, k - 1);
      assert net[..k][..k - 1] == net[..k - 1];
    }
  }

  /**
   The paging loop shared by `processLedger` and `fetchLedgerEvents`: every page from the ledger to the end of the
   network, keeping the events of that ledger.
   */
  method FetchLedger(net: seq<Event>, ledger: nat) returns (events: seq<Event>)
    ensures events == OfLedger(net, ledger)
    ensures Fetched(events, net, ledger)
  {
    hide From, Fetched;
    AllFetched(net, ledger);
    events := [];
    var at := From(net, ledger);
    OfLedgerFrom(net, ledger, at);
    var more := true;
    while more
      invariant at <= |net| && events == OfLedger(net[..at], ledger)
      invariant !more ==> at == |net|
      decreases |net| - at, more
    {
      var end := if at + PAGE_LIMIT < |net| then at + PAGE_LIMIT else |net|;
      more := end - at == PAGE_LIMIT;
      while at < end
        invariant at <= end && events == OfLedger(net[..at], ledger)
      {
        assert net[..at + 1][..at] == net[..at];
        if net[at].ledger == ledger {
          events := events + [net[at]];
        }
        at := at + 1;
      }
    }
    assert net[..|net|] == net;
  }

  function OfLedgers(net: seq<Event>, ledgers: seq<nat>): seq<Event> {
    if ledgers == [] then []
    else OfLedgers(net, ledgers[..|ledgers| - 1]) + OfLedger(net, ledgers[|ledgers| - 1])
  }

  function Range(from: nat, n: nat): seq<nat> {
    if n == 0 then [] else Range(from, n - 1) + [from + n - 1]
  }

  /** The events of a range of ledgers, each as often as the network has it. */
  lemma {:induction false} RangeCounts(net: seq<Event>, from: nat, n: nat, e: Event)
    ensures multiset(OfLedgers(net, Range(from, n)))[e] == if from <= e.ledger < from + n then multiset(net)[e] else 0
  {
    hide OfLedger;
    if n > 0 {
      RangeCounts(net, from, n - 1, e);
      OfLedgerCounts(net, from + n - 1, e);
      OfLedgersSnoc(net, Range(from, n - 1), from + n - 1);
    }
  }

  /** The events of some ledgers are those that the network has of them. */
  lemma {:induction false} LedgersCounts(net: seq<Event>, ledgers: seq<nat>, e: Event)
    ensures multiset(OfLedgers(net, ledgers))[e] == multiset(ledgers)[e.ledger] * multiset(net)[e]
  {
    hide OfLedger;
    if ledgers != [] {
      var init: seq<nat>, last: nat := ledgers[..|ledgers| - 1], ledgers[|ledgers| - 1];
      LedgersCounts(net, init, e);
      OfLedgerCounts(net, last, e);
      assert ledgers == init + [last];
      assert multiset(ledgers)[e.ledger] == multiset(init)[e.ledger] + if e.ledger == last then 1 else 0;
      OneMore(multiset(init)[e.ledger], if e.ledger == last then 1 else 0, multiset(net)[e]);
    }
  }

  lemma OneMore(count: nat, more: nat, m: nat)
    requires more <= 1
    ensures (count + more) * m == count * m + if more == 1 then m else 0
  {
  }

  /** What the table holds after the range has been indexed, in terms of the network alone. */
  ghost predicate Indexed(table: multiset<Event>, before: multiset<Event>, net: seq<Event>, unique: bool,
                          from: nat, n: nat)
  {
    forall e ::
      table[e] == if !(from <= e.ledger < from + n) then before[e]
                  else if !unique then before[e] + multiset(net)[e]
                  else if before[e] == 0 && e in net then 1 else before[e]
  }

  lemma IndexedByRange(before: multiset<Event>, net: seq<Event>, unique: bool, from: nat, n: nat)
    ensures Indexed(InsertAll(unique, before, OfLedgers(net, Range(from, n))), before, net, unique, from, n)
  {
    hide OfLedgers, Range, InsertAll;
    var es := OfLedgers(net, Range(from, n));
    var table := InsertAll(unique, before, es);
    InsertAllMeaning(unique, before, es);
    forall e ensures table[e] == if !(from <= e.ledger < from + n) then before[e]
                                 else if !unique then before[e] + multiset(net)[e]
                                 else if before[e] == 0 && e in net then 1 else before[e]
    {
      RangeCounts(net, from, n, e);
      assert e in es <==> multiset(es)[e] > 0;
      assert e in net <==> multiset(net)[e] > 0;
    }
  }

  /* ----- all workers at once ----- */

  /** A worker: the ledgers it has still to fetch, and the fetched events it has still to insert. */
  datatype Worker = Worker(queue: seq<nat>, fetched: seq<Event>)

  datatype State = State(table: multiset<Event>, workers: seq<Worker>)

  datatype Step = FetchNext(w: nat) | InsertNext(w: nat) | GiveUp(w: nat)

  predicate Enabled(s: State, step: Step) {
    match step
    case FetchNext(w) => w < |s.workers| && s.workers[w].fetched == [] && s.workers[w].queue != []
    case InsertNext(w) => w < |s.workers| && s.workers[w].fetched != []
    case GiveUp(w) => w < |s.workers| && (s.workers[w].fetched != [] || s.workers[w].queue != [])
  }

  /** `GiveUp` is a ledger that fails: while being fetched, or between two of its inserts. */
  function Next(s: State, step: Step, net: seq<Event>, unique: bool): State
    requires Enabled(s, step)
  {
    var w := s.workers[step.w];
    match step
    case FetchNext(_) => s.(workers := s.workers[step.w := Worker(w.queue[1..], OfLedger(net, w.queue[0]))])
    case InsertNext(_) =>
      State(Insert(unique, s.table, w.fetched[0]), s.workers[step.w := w.(fetched := w.fetched[1..])])
    case GiveUp(_) =>
      s.(workers := s.workers[step.w := if w.fetched != [] then w.(fetched := []) else w.(queue := w.queue[1..])])
  }

  function Start(table: multiset<Event>, queues: seq<seq<nat>>): State {
    State(table, Idle(queues))
  }

  function Idle(queues: seq<seq<nat>>): (ws: seq<Worker>)
    ensures |ws| == |queues| && forall i :: 0 <= i < |ws| ==> ws[i] == Worker(queues[i], [])
  {
    if queues == [] then [] else Idle(queues[..|queues| - 1]) + [Worker(queues[|queues| - 1], [])]
  }

  ghost predicate IsRun(states: seq<State>, steps: seq<Step>, net: seq<Event>, unique: bool) {
    && |states| == |steps| + 1
    && forall n :: 0 <= n < |steps| ==>
                     Enabled(states[n], steps[n]) && states[n + 1] == Next(states[n], steps[n], net, unique)
  }

  predicate Finished(s: State) {
    forall i :: 0 <= i < |s.workers| ==> s.workers[i] == Worker([], [])
  }

  /** The events a worker has still to insert. */
  function Due(w: Worker, net: seq<Event>): multiset<Event> {
    multiset(w.fetched) + multiset(OfLedgers(net, w.queue))
  }

  function AllDue(ws: seq<Worker>, net: seq<Event>): multiset<Event> {
    if ws == [] then multiset{} else AllDue(ws[..|ws| - 1], net) + Due(ws[|ws| - 1], net)
  }

  lemma {:induction false} AllDueUpdate(ws: seq<Worker>, net: seq<Event>, i: nat, w: Worker)
    requires i < |ws|
    ensures AllDue(ws[i := w], net) + Due(ws[i], net) == AllDue(ws, net) + Due(w, net)
  {
    hide Due;
    var last := |ws| - 1;
    var init := ws[..last];
    var ws' := ws[i := w];
    if i < last {
      AllDueUpdate(init, net, i, w);
      assert ws'[..last] == init[i := w] && ws'[last] == ws[last];
      AddBoth(AllDue(init[i := w], net), Due(ws[i], net), AllDue(init, net), Due(w, net), Due(ws[last], net));
    } else {
      assert ws'[..last] == init;
      AddBoth(AllDue(init, net), Due(w, net), AllDue(init, net), Due(w, net), Due(ws[i], net));
    }
  }

  lemma AddBoth(a: multiset<Event>, b: multiset<Event>, c: multiset<Event>, d: multiset<Event>, x: multiset<Event>)
    requires a + b == c + d
    ensures (a + x) + b == (c + x) + d && (a + b) + x == (c + x) + d
  {
    forall e ensures ((a + x) + b)[e] == ((c + x) + d)[e] { assert (a + b)[e] == (c + d)[e]; }
  }

  /** One worker's debt shrinks by `x`, so the total does. */
  lemma Cancel(total': multiset<Event>, w: multiset<Event>, total: multiset<Event>, w': multiset<Event>,
               x: multiset<Event>)
    requires total' + w == total + w' && w' + x == w
    ensures total' + x == total
  {
    forall e ensures (total' + x)[e] == total[e] {
      assert (total' + w)[e] == (total + w')[e] && (w' + x)[e] == w[e];
    }
  }

  lemma {:induction false} OfLedgersHead(net: seq<Event>, ledgers: seq<nat>)
    requires ledgers != []
    ensures OfLedgers(net, ledgers) == OfLedger(net, ledgers[0]) + OfLedgers(net, ledgers[1..])
  {
    hide OfLedger, OfLedgers;
    var init: seq<nat>, last: nat := ledgers[..|ledgers| - 1], ledgers[|ledgers| - 1];
    assert init + [last] == ledgers;
    OfLedgersSnoc(net, init, last);
    NoLedgers(net);
    if |ledgers| > 1 {
      OfLedgersHead(net, init);
      OfLedgersSnoc(net, init[1..], last);
      assert init[1..] + [last] == ledgers[1..];
    } else {
      assert ledgers[1..] == [] && init == [];
    }
  }

  lemma FetchKeepsDue(w: Worker, net: seq<Event>)
    requires w.fetched == [] && w.queue != []
    ensures Due(Worker(w.queue[1..], OfLedger(net, w.queue[0])), net) == Due(w, net)
  {
    hide OfLedger, OfLedgers;
    OfLedgersHead(net, w.queue);
  }

  lemma InsertTakesDue(w: Worker, net: seq<Event>)
    requires w.fetched != []
    ensures Due(w.(fetched := w.fetched[1..]), net) + multiset{w.fetched[0]} == Due(w, net)
  {
    assert w.fetched == [w.fetched[0]] + w.fetched[1..];
  }

  lemma InsertNone(unique: bool, table: multiset<Event>)
    ensures InsertAll(unique, table, []) == table
  {
  }

  /** The events lost with the ledgers that failed within the first `n` steps. */
  ghost function GivenUp(states: seq<State>, steps: seq<Step>, net: seq<Event>, unique: bool, n: nat): multiset<Event>
    requires IsRun(states, steps, net, unique) && n < |states|
  {
    if n == 0 then multiset{}
    else
      var before := GivenUp(states, steps, net, unique, n - 1);
      assert Enabled(states[n - 1], steps[n - 1]);
      if !steps[n - 1].GiveUp? then before
      else
        var w := states[n - 1].workers[steps[n - 1].w];
        before + multiset(if w.fetched != [] then w.fetched else OfLedger(net, w.queue[0]))
  }

  lemma {:induction false} NoneGivenUp(states: seq<State>, steps: seq<Step>, net: seq<Event>, unique: bool, n: nat)
    requires IsRun(states, steps, net, unique) && n < |states|
    requires forall k :: 0 <= k < n ==> !steps[k].GiveUp?
    ensures GivenUp(states, steps, net, unique, n) == multiset{}
  {
    hide IsRun;
    if n > 0 { NoneGivenUp(states, steps, net, unique, n - 1); }
  }

  /** What has been inserted, what is still due and what was given up add up to what was due at the start. */
  lemma {:induction false} NothingLost(states: seq<State>, steps: seq<Step>, net: seq<Event>, unique: bool, n: nat)
    returns (inserted: seq<Event>)
    requires IsRun(states, steps, net, unique) && n < |states|
    ensures states[n].table == InsertAll(unique, states[0].table, inserted)
    ensures multiset(inserted) + AllDue(states[n].workers, net) + GivenUp(states, steps, net, unique, n)
         == AllDue(states[0].workers, net)
  {
    hide Due, AllDue, OfLedger, OfLedgers, Insert, InsertAll;
    if n == 0 {
      inserted := [];
      InsertNone(unique, states[0].table);
    } else {
      var before := NothingLost(states, steps, net, unique, n - 1);
      var s, step := states[n - 1], steps[n - 1];
      assert Enabled(s, step) && states[n] == Next(s, step, net, unique);
      var w := s.workers[step.w];
      StepTakesDue(s, step, net, unique);
      var given := GivenUp(states, steps, net, unique, n - 1);
      var more := if step.GiveUp? then multiset(if w.fetched != [] then w.fetched else OfLedger(net, w.queue[0]))
                  else multiset{};
      assert GivenUp(states, steps, net, unique, n) == given + more;
      hide GivenUp;
      inserted := before;
      if step.InsertNext? {
        inserted := before + [w.fetched[0]];
        InsertAllSnoc(unique, states[0].table, before, w.fetched[0]);
        assert multiset(inserted) == multiset(before) + multiset{w.fetched[0]};
      }
      hide Next, Enabled, IsRun;
    }
  }

  /** What one step inserts or gives up is what the workers then owe less. */
  lemma StepTakesDue(s: State, step: Step, net: seq<Event>, unique: bool)
    requires Enabled(s, step)
    ensures var w := s.workers[step.w];
            AllDue(Next(s, step, net, unique).workers, net)
            + (if step.InsertNext? then multiset{w.fetched[0]}
               else if step.GiveUp? then multiset(if w.fetched != [] then w.fetched else OfLedger(net, w.queue[0]))
               else multiset{}) == AllDue(s.workers, net)
  {
    hide Due, AllDue, OfLedger, OfLedgers, Insert;
    var t := Next(s, step, net, unique);
    var w, w' := s.workers[step.w], t.workers[step.w];
    AllDueUpdate(s.workers, net, step.w, w');
    match step
    case FetchNext(_) =>
      FetchKeepsDue(w, net);
      Cancel(AllDue(t.workers, net), Due(w, net), AllDue(s.workers, net), Due(w', net), multiset{});
    case InsertNext(_) =>
      InsertTakesDue(w, net);
      Cancel(AllDue(t.workers, net), Due(w, net), AllDue(s.workers, net), Due(w', net), multiset{w.fetched[0]});
    case GiveUp(_) =>
      GiveUpTakesDue(w, net);
      Cancel(AllDue(t.workers, net), Due(w, net), AllDue(s.workers, net), Due(w', net),
             multiset(if w.fetched != [] then w.fetched else OfLedger(net, w.queue[0])));
  }

  lemma GiveUpTakesDue(w: Worker, net: seq<Event>)
    requires w.fetched != [] || w.queue != []
    ensures Due(if w.fetched != [] then w.(fetched := []) else w.(queue := w.queue[1..]), net)
            + multiset(if w.fetched != [] then w.fetched else OfLedger(net, w.queue[0])) == Due(w, net)
  {
    hide OfLedger, OfLedgers;
    if w.fetched == [] { OfLedgersHead(net, w.queue); }
  }

  lemma {:induction false} FinishedDue(ws: seq<Worker>, net: seq<Event>)
    requires forall i :: 0 <= i < |ws| ==> ws[i] == Worker([], [])
    ensures AllDue(ws, net) == multiset{}
  {
    if ws != [] { FinishedDue(ws[..|ws| - 1], net); }
  }

  /** What the table holds depends only on which events were inserted, not on their order. */
  lemma OrderIrrelevant(unique: bool, table: multiset<Event>, a: seq<Event>, b: seq<Event>)
    requires multiset(a) == multiset(b)
    ensures InsertAll(unique, table, a) == InsertAll(unique, table, b)
  {
    InsertAllMeaning(unique, table, a);
    InsertAllMeaning(unique, table, b);
    assert forall e :: e in a <==> multiset(a)[e] > 0;
    assert forall e :: e in b <==> multiset(b)[e] > 0;
    if unique {
      assert forall e :: InsertAll(unique, table, a)[e] == InsertAll(unique, table, b)[e];
    }
  }

  /** The queues for `n` ledgers. */
  function Queues(from: nat, n: nat, workers: nat, batch: nat): (qs: seq<seq<nat>>)
    requires workers > 0 && batch > 0
    ensures |qs| == workers && forall q :: 0 <= q < workers ==> qs[q] == Queue(from, n, workers, batch, q)
  {
    seq(workers, q requires 0 <= q < workers => Queue(from, n, workers, batch, q))
  }

  lemma {:induction false} NoneDue(queues: seq<seq<nat>>, net: seq<Event>)
    requires forall i :: 0 <= i < |queues| ==> queues[i] == []
    ensures AllDue(Idle(queues), net) == multiset{}
  {
    if queues != [] { NoneDue(queues[..|queues| - 1], net); }
  }

  lemma IdleUpdate(queues: seq<seq<nat>>, q: nat, queue: seq<nat>)
    requires q < |queues|
    ensures Idle(queues[q := queue]) == Idle(queues)[q := Worker(queue, [])]
  {
  }

  /** Dealing loses no ledger: the workers together owe the events of the whole range. */
  lemma {:induction false} DealtDue(from: nat, n: nat, workers: nat, batch: nat, net: seq<Event>)
    requires workers > 0 && batch > 0
    ensures AllDue(Idle(Queues(from, n, workers, batch)), net) == multiset(OfLedgers(net, Range(from, n)))
  {
    hide Target, OfLedger, OfLedgers, Idle, AllDue, Due;
    var qs := Queues(from, n, workers, batch);
    if n == 0 {
      NoneDue(qs, net);
      assert OfLedgers(net, []) == [] by { NoLedgers(net); }
    } else {
      DealtDue(from, n - 1, workers, batch, net);
      var before := Queues(from, n - 1, workers, batch);
      var q := Target(n - 1, workers, batch);
      var queue: seq<nat> := before[q] + [from + n - 1];
      forall p | 0 <= p < workers ensures qs[p] == before[q := queue][p] {
        assert qs[p] == Queue(from, n, workers, batch, p) && before[p] == Queue(from, n - 1, workers, batch, p);
        assert before[p] + [] == before[p];
      }
      assert qs == before[q := queue];
      IdleUpdate(before, q, queue);
      AllDueUpdate(Idle(before), net, q, Worker(queue, []));
      var due := multiset(OfLedger(net, from + n - 1));
      DueSnoc(net, before[q], from + n - 1);
      OfLedgersSnoc(net, Range(from, n - 1), from + n - 1);
      Cancel(AllDue(Idle(before), net), Due(Worker(queue, []), net), AllDue(Idle(qs), net),
             Due(Worker(before[q], []), net), due);
    }
  }

  lemma DueSnoc(net: seq<Event>, queue: seq<nat>, ledger: nat)
    ensures Due(Worker(queue, []), net) + multiset(OfLedger(net, ledger)) == Due(Worker(queue + [ledger], []), net)
  {
    hide OfLedger, OfLedgers;
    OfLedgersSnoc(net, queue, ledger);
  }

  lemma NoLedgers(net: seq<Event>)
    ensures OfLedgers(net, []) == []
  {
  }

  lemma OfLedgersSnoc(net: seq<Event>, ledgers: seq<nat>, ledger: nat)
    ensures OfLedgers(net, ledgers + [ledger]) == OfLedgers(net, ledgers) + OfLedger(net, ledger)
  {
    assert (ledgers + [ledger])[..|ledgers|] == ledgers;
  }

  /**
   Parallel catch-up equals sequential indexing: with no failed ledger, every interleaving of the workers' inserts ends
   in the table that one sequential pass over the range leaves, with or without a unique key.
   */
  lemma ParallelEqualsSequential(states: seq<State>, steps: seq<Step>, net: seq<Event>, unique: bool,
                                 from: nat, n: nat, workers: nat, batch: nat)
    requires workers > 0 && batch > 0
    requires IsRun(states, steps, net, unique) && Finished(states[|steps|])
    requires states[0].workers == Idle(Queues(from, n, workers, batch))
    requires forall k :: 0 <= k < |steps| ==> !steps[k].GiveUp?
    ensures states[|steps|].table == InsertAll(unique, states[0].table, OfLedgers(net, Range(from, n)))
    ensures Indexed(states[|steps|].table, states[0].table, net, unique, from, n)
  {
    IndexedByRange(states[0].table, net, unique, from, n);
    hide AllDue, Idle, OfLedgers, InsertAll, Next;
    var inserted := NothingLost(states, steps, net, unique, |steps|);
    NoneGivenUp(states, steps, net, unique, |steps|);
    FinishedDue(states[|steps|].workers, net);
    DealtDue(from, n, workers, batch, net);
    OrderIrrelevant(unique, states[0].table, inserted, OfLedgers(net, Range(from, n)));
  }

  /** When ledgers do fail, nothing else is lost and nothing foreign is stored: each step inserts only what was due. */
  lemma {:induction false} OnlyDueIsStored(states: seq<State>, steps: seq<Step>, net: seq<Event>, unique: bool, n: nat)
    requires IsRun(states, steps, net, unique) && n < |states|
    ensures forall e :: e in states[n].table ==> e in states[0].table || e in AllDue(states[0].workers, net)
    ensures AllDue(states[n].workers, net) <= AllDue(states[0].workers, net)
    ensures states[0].table <= states[n].table
  {
    hide Due, AllDue, OfLedger, OfLedgers;
    if n > 0 {
      OnlyDueIsStored(states, steps, net, unique, n - 1);
      var s, step := states[n - 1], steps[n - 1];
      assert Enabled(s, step) && states[n] == Next(s, step, net, unique);
      var w, w' := s.workers[step.w], states[n].workers[step.w];
      AllDueUpdate(s.workers, net, step.w, w');
      match step {
        case FetchNext(_) => FetchKeepsDue(w, net);
        case InsertNext(_) =>
          InsertTakesDue(w, net);
          DueIsPart(s.workers, net, step.w);
          assert w.fetched[0] in Due(w, net);
        case GiveUp(_) => GiveUpDrops(w, net);
      }
      assert Due(w', net) <= Due(w, net);
      Shrinks(AllDue(states[n].workers, net), Due(w, net), AllDue(s.workers, net), Due(w', net));
    }
  }

  /** In particular only events of the range that was dealt. */
  lemma OnlyRangeIsStored(states: seq<State>, steps: seq<Step>, net: seq<Event>, unique: bool, k: nat,
                          from: nat, n: nat, workers: nat, batch: nat)
    requires workers > 0 && batch > 0 && IsRun(states, steps, net, unique) && k < |states|
    requires states[0].workers == Idle(Queues(from, n, workers, batch))
    ensures forall e :: e in states[k].table ==>
                          e in states[0].table || (e in net && from <= e.ledger < from + n)
  {
    OnlyDueIsStored(states, steps, net, unique, k);
    DealtDue(from, n, workers, batch, net);
    hide AllDue, Idle, OfLedgers, Queues, Range, IsRun;
    forall e | e in states[k].table && e !in states[0].table ensures e in net && from <= e.ledger < from + n {
      RangeCounts(net, from, n, e);
      assert e in multiset(OfLedgers(net, Range(from, n)));
    }
  }

  lemma Shrinks(total': multiset<Event>, w: multiset<Event>, total: multiset<Event>, w': multiset<Event>)
    requires total' + w == total + w' && w' <= w
    ensures total' <= total
  {
    forall e ensures total'[e] <= total[e] { assert (total' + w)[e] == (total + w')[e]; }
  }

  lemma GiveUpDrops(w: Worker, net: seq<Event>)
    requires w.fetched != [] || w.queue != []
    ensures Due(if w.fetched != [] then w.(fetched := []) else w.(queue := w.queue[1..]), net) <= Due(w, net)
  {
    hide OfLedger, OfLedgers;
    if w.fetched == [] { OfLedgersHead(net, w.queue); }
  }

  lemma {:induction false} DueIsPart(ws: seq<Worker>, net: seq<Event>, i: nat)
    requires i < |ws|
    ensures Due(ws[i], net) <= AllDue(ws, net)
  {
    hide Due;
    if i < |ws| - 1 { DueIsPart(ws[..|ws| - 1], net, i); }
  }

  /* ----- the bulk loader's buffer ----- */

  class BulkWorker {
    const unique: bool
    var table: multiset<Event>
    var buffer: seq<Event>
    var done: nat

    constructor (unique: bool, table: multiset<Event>)
      ensures this.unique == unique && this.table == table && buffer == [] && done == 0
    {
      this.unique := unique;
      this.table := table;
      buffer, done := [], 0;
    }

    method Flush(ok: bool) returns (flushed: bool)
      modifies this`table, this`buffer
      ensures flushed == (ok || old(buffer) == [])
      ensures flushed ==> table == InsertAll(unique, old(table), old(buffer)) && buffer == []
      ensures !flushed ==> table == old(table) && buffer == old(buffer)
    {
      if buffer != [] {
        if !ok { return false; }
        table := InsertAll(unique, table, buffer);
        buffer := [];
      }
      return true;
    }

    /**
     `worker`: `fetchOk` tells which ledgers the node serves and `flushOk` which of the inserts, counted from 0, the
     database accepts.  A failed flush inside the loop is reported as a failed ledger, but its events stay buffered.
     */
    method Run(net: seq<Event>, ledgers: seq<nat>, batchSize: nat, fetchOk: nat -> bool, flushOk: nat -> bool)
      returns (completed: bool, ghost stored: seq<Event>)
      requires buffer == []
      modifies this
      ensures table == InsertAll(unique, old(table), stored)
      ensures stored + buffer == OfLedgers(net, Served(ledgers, fetchOk))
      ensures forall e :: e in stored + buffer <==> e in net && e.ledger in ledgers && fetchOk(e.ledger)
      ensures done == old(done) + |Served(ledgers, fetchOk)|
      ensures completed ==> buffer == []
    {
      hide OfLedger, Insert;
      stored := [];
      var attempts := 0;
      for i := 0 to |ledgers|
        invariant table == InsertAll(unique, old(table), stored)
        invariant stored + buffer == OfLedgers(net, Served(ledgers[..i], fetchOk))
        invariant done == old(done) + |Served(ledgers[..i], fetchOk)|
      {
        assert ledgers[..i + 1][..i] == ledgers[..i];
        if fetchOk(ledgers[i]) {
          var events := FetchLedger(net, ledgers[i]);
          ServedNext(net, ledgers, i, fetchOk);
          assert stored + (buffer + events) == (stored + buffer) + events;
          buffer := buffer + events;
          done := done + 1;
          if |buffer| >= batchSize * 10 {
            ghost var pending := buffer;
            InsertAllConcat(unique, old(table), stored, pending);
            var flushed := Flush(flushOk(attempts));
            attempts := attempts + 1;
            if flushed { stored := stored + pending; }
          }
        }
      }
      assert ledgers[..|ledgers|] == ledgers;
      ServedEvents(net, ledgers, fetchOk);
      hide Served, OfLedgers;
      ghost var pending := buffer;
      InsertAllConcat(unique, old(table), stored, pending);
      completed := Flush(flushOk(attempts));
      if completed { stored := stored + pending; }
    }
  }

  /** The ledgers the node serves, in order. */
  function Served(ledgers: seq<nat>, fetchOk: nat -> bool): seq<nat> {
    if ledgers == [] then []
    else
      var before := Served(ledgers[..|ledgers| - 1], fetchOk);
      if fetchOk(ledgers[|ledgers| - 1]) then before + [ledgers[|ledgers| - 1]] else before
  }

  lemma {:induction false} ServedMeaning(ledgers: seq<nat>, fetchOk: nat -> bool, ledger: nat)
    ensures ledger in Served(ledgers, fetchOk) <==> ledger in ledgers && fetchOk(ledger)
  {
    if ledgers != [] {
      ServedMeaning(ledgers[..|ledgers| - 1], fetchOk, ledger);
      assert ledgers == ledgers[..|ledgers| - 1] + [ledgers[|ledgers| - 1]];
    }
  }

  lemma ServedEvents(net: seq<Event>, ledgers: seq<nat>, fetchOk: nat -> bool)
    ensures forall e :: e in OfLedgers(net, Served(ledgers, fetchOk))
                   <==> e in net && e.ledger in ledgers && fetchOk(e.ledger)
  {
    hide OfLedgers, Served;
    var served: seq<nat> := Served(ledgers, fetchOk);
    var es := OfLedgers(net, served);
    forall e ensures e in es <==> e in net && e.ledger in ledgers && fetchOk(e.ledger) {
      ServedMeaning(ledgers, fetchOk, e.ledger);
      LedgersCounts(net, served, e);
      var k: nat, m: nat := multiset(served)[e.ledger], multiset(net)[e];
      assert e in es <==> multiset(es)[e] > 0;
      assert e.ledger in served <==> k > 0;
      assert e in net <==> m > 0;
      AtLeastOnce(k, m);
    }
  }

  lemma ServedNext(net: seq<Event>, ledgers: seq<nat>, i: nat, fetchOk: nat -> bool)
    requires i < |ledgers| && fetchOk(ledgers[i])
    ensures Served(ledgers[..i + 1], fetchOk) == Served(ledgers[..i], fetchOk) + [ledgers[i]]
    ensures OfLedgers(net, Served(ledgers[..i + 1], fetchOk)) ==
            OfLedgers(net, Served(ledgers[..i], fetchOk)) + OfLedger(net, ledgers[i])
  {
    hide OfLedger;
    assert ledgers[..i + 1][..i] == ledgers[..i];
    var before := Served(ledgers[..i], fetchOk);
    assert (before + [ledgers[i]])[..|before|] == before;
  }

  /* ----- all bulk workers at once ----- */

  /**
   The steps of workers that buffer, each with its own buffer in `fetched`.  When a worker flushes is left open, so that
   every batch size is covered; a flush is one statement and inserts the whole buffer or nothing.
   */
  datatype BulkStep = Load(w: nat) | LoadFails(w: nat) | Flush(w: nat) | FlushFails(w: nat)

  predicate BulkEnabled(s: State, step: BulkStep) {
    step.w < |s.workers| && if step.Load? || step.LoadFails? then s.workers[step.w].queue != []
                            else s.workers[step.w].fetched != []
  }

  function BulkNext(s: State, step: BulkStep, net: seq<Event>, unique: bool): State
    requires BulkEnabled(s, step)
  {
    var w := s.workers[step.w];
    match step
    case Load(_) => s.(workers := s.workers[step.w := Worker(w.queue[1..], w.fetched + OfLedger(net, w.queue[0]))])
    case LoadFails(_) => s.(workers := s.workers[step.w := w.(queue := w.queue[1..])])
    case Flush(_) => State(InsertAll(unique, s.table, w.fetched), s.workers[step.w := w.(fetched := [])])
    case FlushFails(_) => s
  }

  ghost predicate IsBulkRun(states: seq<State>, steps: seq<BulkStep>, net: seq<Event>, unique: bool) {
    && |states| == |steps| + 1
    && forall n :: 0 <= n < |steps| ==>
                     BulkEnabled(states[n], steps[n]) && states[n + 1] == BulkNext(states[n], steps[n], net, unique)
  }

  /** The ledgers that could not be fetched within the first `n` steps. */
  ghost function Failed(states: seq<State>, steps: seq<BulkStep>, net: seq<Event>, unique: bool, n: nat): seq<nat>
    requires IsBulkRun(states, steps, net, unique) && n < |states|
  {
    if n == 0 then []
    else
      var before := Failed(states, steps, net, unique, n - 1);
      assert BulkEnabled(states[n - 1], steps[n - 1]);
      if steps[n - 1].LoadFails? then before + [states[n - 1].workers[steps[n - 1].w].queue[0]] else before
  }

  lemma LoadKeepsDue(w: Worker, net: seq<Event>)
    requires w.queue != []
    ensures Due(Worker(w.queue[1..], w.fetched + OfLedger(net, w.queue[0])), net) == Due(w, net)
    ensures Due(w.(queue := w.queue[1..]), net) + multiset(OfLedger(net, w.queue[0])) == Due(w, net)
  {
    hide OfLedger, OfLedgers;
    OfLedgersHead(net, w.queue);
  }

  lemma FlushTakesDue(w: Worker, net: seq<Event>)
    ensures Due(w.(fetched := []), net) + multiset(w.fetched) == Due(w, net)
  {
  }

  /**
   At every point of every interleaving, with fetches and flushes failing anywhere: what is stored, what is buffered or
   still to be fetched, and the events of the ledgers that failed are together what was due.
   */
  lemma {:induction false} BulkNothingLost(states: seq<State>, steps: seq<BulkStep>, net: seq<Event>, unique: bool,
                                           n: nat) returns (stored: seq<Event>)
    requires IsBulkRun(states, steps, net, unique) && n < |states|
    ensures states[n].table == InsertAll(unique, states[0].table, stored)
    ensures multiset(stored) + AllDue(states[n].workers, net)
            + multiset(OfLedgers(net, Failed(states, steps, net, unique, n))) == AllDue(states[0].workers, net)
  {
    hide Due, AllDue, OfLedger, OfLedgers, Insert, InsertAll;
    if n == 0 {
      stored := [];
      InsertNone(unique, states[0].table);
      NoLedgers(net);
    } else {
      var before := BulkNothingLost(states, steps, net, unique, n - 1);
      var s, step := states[n - 1], steps[n - 1];
      assert BulkEnabled(s, step) && states[n] == BulkNext(s, step, net, unique);
      var w, w' := s.workers[step.w], states[n].workers[step.w];
      var failed := Failed(states, steps, net, unique, n - 1);
      stored := if step.Flush? then before + w.fetched else before;
      var x := if step.Flush? then multiset(w.fetched)
               else if step.LoadFails? then multiset(OfLedger(net, w.queue[0])) else multiset{};
      AllDueUpdate(s.workers, net, step.w, w');
      if step.Flush? {
        FlushTakesDue(w, net);
        InsertAllConcat(unique, states[0].table, before, w.fetched);
      } else if !step.FlushFails? {
        LoadKeepsDue(w, net);
        OfLedgersSnoc(net, failed, w.queue[0]);
      } else {
        assert s.workers[step.w := w'] == s.workers;
      }
      Cancel(AllDue(states[n].workers, net), Due(w, net), AllDue(s.workers, net), Due(w', net), x);
    }
  }

  /**
   When all workers are done, the table is that of one sequential pass over the range, less the ledgers that could not
   be fetched: without such failures exactly that of the pass, whatever flushes have failed and were repeated meanwhile.
   */
  lemma BulkEqualsSequential(states: seq<State>, steps: seq<BulkStep>, net: seq<Event>, unique: bool,
                             from: nat, n: nat, workers: nat) returns (stored: seq<Event>)
    requires workers > 0 && IsBulkRun(states, steps, net, unique) && Finished(states[|steps|])
    requires states[0].workers == Idle(Queues(from, n, workers, 1))
    ensures states[|steps|].table == InsertAll(unique, states[0].table, stored)
    ensures multiset(stored) + multiset(OfLedgers(net, Failed(states, steps, net, unique, |steps|)))
         == multiset(OfLedgers(net, Range(from, n)))
    ensures forall e :: multiset(stored)[e]
                     == if from <= e.ledger < from + n && e.ledger !in Failed(states, steps, net, unique, |steps|)
                        then multiset(net)[e] else 0
    ensures (forall k :: 0 <= k < |steps| ==> !steps[k].LoadFails?) ==>
              && states[|steps|].table == InsertAll(unique, states[0].table, OfLedgers(net, Range(from, n)))
              && Indexed(states[|steps|].table, states[0].table, net, unique, from, n)
  {
    IndexedByRange(states[0].table, net, unique, from, n);
    stored := BulkNothingLost(states, steps, net, unique, |steps|);
    FinishedDue(states[|steps|].workers, net);
    DealtDue(from, n, workers, 1, net);
    LessFailed(net, from, n, stored, Failed(states, steps, net, unique, |steps|));
    if forall k :: 0 <= k < |steps| ==> !steps[k].LoadFails? {
      NoneFailed(states, steps, net, unique, |steps|);
      NoLedgers(net);
      hide AllDue, Idle, OfLedgers, InsertAll, BulkNext;
      OrderIrrelevant(unique, states[0].table, stored, OfLedgers(net, Range(from, n)));
    }
  }

  lemma LessFailed(net: seq<Event>, from: nat, n: nat, stored: seq<Event>, failed: seq<nat>)
    requires multiset(stored) + multiset(OfLedgers(net, failed)) == multiset(OfLedgers(net, Range(from, n)))
    ensures forall e :: multiset(stored)[e]
                     == if from <= e.ledger < from + n && e.ledger !in failed then multiset(net)[e] else 0
  {
    hide OfLedgers, Range;
    forall e ensures multiset(stored)[e]
                  == if from <= e.ledger < from + n && e.ledger !in failed then multiset(net)[e] else 0
    {
      RangeCounts(net, from, n, e);
      LedgersCounts(net, failed, e);
      var all, lost := multiset(OfLedgers(net, Range(from, n))), multiset(OfLedgers(net, failed));
      assert multiset(stored)[e] + lost[e] == (multiset(stored) + multiset(OfLedgers(net, failed)))[e] == all[e];
      assert e.ledger in failed <==> multiset(failed)[e.ledger] > 0;
      AtLeastOnce(multiset(failed)[e.ledger], multiset(net)[e]);
    }
  }

  lemma AtLeastOnce(count: nat, m: nat)
    ensures if count == 0 then count * m == 0 else count * m >= m
  {
  }

  lemma {:induction false} NoneFailed(states: seq<State>, steps: seq<BulkStep>, net: seq<Event>, unique: bool, n: nat)
    requires IsBulkRun(states, steps, net, unique) && n < |states|
    requires forall k :: 0 <= k < n ==> !steps[k].LoadFails?
    ensures Failed(states, steps, net, unique, n) == []
  {
    hide IsBulkRun;
    if n > 0 { NoneFailed(states, steps, net, unique, n - 1); }
  }
}
