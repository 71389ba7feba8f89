/**
 The dead letter queue: `enqueue`, `processRetries`, `computeNextRetryDelay`, `resolve` and `replay` of
 indexer/src/deadLetterQueue.js, as a step system in which manual replays and resolutions happen at any
 point of the one retry pass that is under way.
 */
module DeadLetter {
  import opened Bits
  import opened Options
  import opened Sets

  /** `DLQ_MAX_RETRIES` and `DLQ_RETRY_DELAY_MS` */
  datatype Config = Config(maxRetries: nat, delay: nat)

  datatype Entry = Entry(transient: bool, enqueuedAt: int, retryCount: nat, maxRetries: nat,
                         nextRetryAt: Option<int>, resolved: bool)

  /**
   What happened to an entry: the starts of its automatic attempts, how many of them a database fault left
   unrecorded, how many manual replays failed.
   */
  datatype Log = Log(attempts: seq<int>, unrecorded: nat, manual: nat)

  /** What a pass keeps of a selected row. */
  datatype Row = Row(id: nat, retryCount: nat, maxRetries: nat)

  /** The rows of the pass that are still to do; with `handling` the handler runs for the first of them. */
  datatype Worker = Worker(rows: seq<Row>, handling: bool)

  datatype Tally = Tally(selected: nat, retried: nat, resolved: nat, failed: nat, aborted: bool)

  datatype State = State(now: int, entries: map<nat, Entry>, log: map<nat, Log>, worker: Worker, tally: Tally)

  /** `Failed`: the handler or the update after it throws.  `Aborted`: the update in the catch block throws too. */
  datatype Outcome = Succeeded | Failed | Aborted

  datatype Act =
    | Wait(ms: nat)
    | Enqueue(id: nat, transient: bool)
    | Select(rows: seq<Row>)
    | Start
    | Finish(outcome: Outcome)
    | Replay(id: nat, ok: bool)
    | Resolve(id: nat)

  function NextRetryDelay(cfg: Config, retryCount: nat): nat {
    cfg.delay * Pow2(retryCount)
  }

  function NewEntry(cfg: Config, now: int, transient: bool): Entry {
    Entry(transient, now, 0, if transient then cfg.maxRetries else 0,
          if transient then Some(now + cfg.delay) else None, false)
  }

  predicate Due(e: Entry, now: int) {
    !e.resolved && e.nextRetryAt.Some? && e.nextRetryAt.value <= now && e.retryCount < e.maxRetries
  }

  const BATCH: nat := 100

  /** `rows` is an answer to the query of `processRetries`: the due entries by due time, at most 100. */
  ghost predicate Answers(s: State, rows: seq<Row>) {
    && |rows| <= BATCH
    && (forall i, j :: 0 <= i < j < |rows| ==> rows[i].id != rows[j].id)
    && (forall i :: 0 <= i < |rows| ==>
          && rows[i].id in s.entries && Due(s.entries[rows[i].id], s.now)
          && rows[i].retryCount == s.entries[rows[i].id].retryCount
          && rows[i].maxRetries == s.entries[rows[i].id].maxRetries)
    && (forall i, j :: 0 <= i < j < |rows| ==>
          s.entries[rows[i].id].nextRetryAt.value <= s.entries[rows[j].id].nextRetryAt.value)
    && (forall id :: id in s.entries && Due(s.entries[id], s.now)
                     && (forall i :: 0 <= i < |rows| ==> rows[i].id != id) ==>
          |rows| == BATCH &&
          forall i :: 0 <= i < |rows| ==> s.entries[rows[i].id].nextRetryAt.value <= s.entries[id].nextRetryAt.value)
  }

  /** The row that the catch block leaves. */
  function Recorded(cfg: Config, now: int, e: Entry, row: Row): Entry {
    var newCount := row.retryCount + 1;
    e.(retryCount := newCount,
       nextRetryAt := if newCount >= row.maxRetries then None else Some(now + NextRetryDelay(cfg, newCount)))
  }

  ghost predicate Enabled(s: State, a: Act) {
    match a
    case Wait(_) => true
    case Enqueue(id, _) => id !in s.entries
    case Select(rows) => s.worker.rows == [] && Answers(s, rows)
    case Start => s.worker.rows != [] && !s.worker.handling && s.worker.rows[0].id in s.log
    case Finish(_) =>
      && s.worker.rows != [] && s.worker.handling
      && s.worker.rows[0].id in s.entries && s.worker.rows[0].id in s.log
    case Replay(id, _) => id in s.entries && id in s.log
    case Resolve(id) => id in s.entries
  }

  function Step(cfg: Config, s: State, a: Act): State
    requires Enabled(s, a)
  {
    match a
    case Wait(ms) => s.(now := s.now + ms)
    case Enqueue(id, transient) =>
      s.(entries := s.entries[id := NewEntry(cfg, s.now, transient)], log := s.log[id := Log([], 0, 0)])
    case Select(rows) => s.(worker := Worker(rows, false), tally := Tally(|rows|, 0, 0, 0, false))
    case Start =>
      var id := s.worker.rows[0].id;
      s.(worker := s.worker.(handling := true),
         log := s.log[id := s.log[id].(attempts := s.log[id].attempts + [s.now])],
         tally := s.tally.(retried := s.tally.retried + 1))
    case Finish(outcome) =>
      var row := s.worker.rows[0];
      var e, l := s.entries[row.id], s.log[row.id];
      (match outcome
       case Succeeded =>
         s.(entries := s.entries[row.id := e.(resolved := true)],
            worker := Worker(s.worker.rows[1..], false),
            tally := s.tally.(resolved := s.tally.resolved + 1))
       case Failed =>
         s.(entries := s.entries[row.id := Recorded(cfg, s.now, e, row)],
            worker := Worker(s.worker.rows[1..], false),
            tally := s.tally.(failed := s.tally.failed + 1))
       case Aborted =>
         s.(log := s.log[row.id := l.(unrecorded := l.unrecorded + 1)],
            worker := Worker([], false),
            tally := s.tally.(aborted := true)))
    case Replay(id, ok) =>
      if ok then s.(entries := s.entries[id := s.entries[id].(resolved := true)])
      else s.(entries := s.entries[id := s.entries[id].(retryCount := s.entries[id].retryCount + 1)],
              log := s.log[id := s.log[id].(manual := s.log[id].manual + 1)])
    case Resolve(id) => s.(entries := s.entries[id := s.entries[id].(resolved := true)])
  }

  ghost predicate Run(cfg: Config, s: State, acts: seq<Act>, t: State)
    decreases |acts|
  {
    if acts == [] then s == t
    else Enabled(s, acts[0]) && Run(cfg, Step(cfg, s, acts[0]), acts[1..], t)
  }

  const START: State := State(0, map[], map[], Worker([], false), Tally(0, 0, 0, 0, false))

  /* ----- the invariant of one entry ----- */

  datatype Status = Out | Pending(row: Row) | InFlight(row: Row)

  function StatusIn(rows: seq<Row>, id: nat): Status {
    if rows == [] then Out else if rows[0].id == id then Pending(rows[0]) else StatusIn(rows[1..], id)
  }

  function StatusOf(w: Worker, id: nat): Status {
    if w.handling && w.rows != [] && w.rows[0].id == id then InFlight(w.rows[0]) else StatusIn(w.rows, id)
  }

  /** The sum of the delays before the `n`-th attempt: `delay * (2^n - 1)`. */
  function Backoff(cfg: Config, n: int): int {
    if n <= 0 then 0 else cfg.delay * (Pow2(n) - 1)
  }

  ghost predicate Timely(cfg: Config, e: Entry, l: Log) {
    forall k :: 0 <= k < |l.attempts| ==> l.attempts[k] >= e.enqueuedAt + Backoff(cfg, k + 1 - l.unrecorded)
  }

  /** Attempts whose failure the row may have to remember. */
  function Open(l: Log): int {
    |l.attempts| - l.unrecorded
  }

  ghost predicate EntryInv(cfg: Config, now: int, e: Entry, l: Log, st: Status) {
    && e.maxRetries == (if e.transient then cfg.maxRetries else 0)
    && (!e.transient ==> l.attempts == [] && st.Out? && e.nextRetryAt.None?)
    && Timely(cfg, e, l)
    && e.enqueuedAt <= now
    && 0 <= Open(l) <= e.maxRetries
    && match st
       case Out =>
         !e.resolved ==>
           && Open(l) <= e.retryCount
           && (e.nextRetryAt.Some? ==> e.nextRetryAt.value >= e.enqueuedAt + Backoff(cfg, Open(l) + 1))
           && (l.manual == 0 ==>
                 && e.retryCount == Open(l)
                 && (e.nextRetryAt.None? <==> !e.transient || (0 < e.retryCount && e.maxRetries <= e.retryCount)))
       case Pending(row) =>
         && row.maxRetries == e.maxRetries
         && Open(l) <= row.retryCount <= e.retryCount && row.retryCount < e.maxRetries
         && (l.manual == 0 ==> e.retryCount == row.retryCount == Open(l))
         && e.nextRetryAt.Some? && now >= e.nextRetryAt.value >= e.enqueuedAt + Backoff(cfg, Open(l) + 1)
       case InFlight(row) =>
         && row.maxRetries == e.maxRetries
         && 0 < Open(l) <= row.retryCount + 1 && row.retryCount <= e.retryCount && row.retryCount < e.maxRetries
         && (l.manual == 0 ==> e.retryCount == row.retryCount == Open(l) - 1)
         && e.nextRetryAt.Some? && now >= e.nextRetryAt.value >= e.enqueuedAt + Backoff(cfg, Open(l))
  }

  /* ----- arithmetic of the delays ----- */

  lemma Pow2Next(a: nat)
    ensures Pow2(a + 1) == 2 * Pow2(a)
  {
  }

  lemma Scale(d: nat, a: int, b: int)
    requires a <= b
    ensures d * a <= d * b
  {
  }

  lemma BackoffGrows(cfg: Config, a: int, b: int)
    requires a <= b
    ensures 0 <= Backoff(cfg, a) <= Backoff(cfg, b)
  {
    if b > 0 {
      Pow2Monotone(if a > 0 then a else 0, b);
      hide Pow2;
      Scale(cfg.delay, 0, Pow2(b) - 1);
      if a > 0 {
        Scale(cfg.delay, 0, Pow2(a) - 1);
        Scale(cfg.delay, Pow2(a) - 1, Pow2(b) - 1);
      }
    }
  }

  /** Waiting the next delay after an attempt adds up to the next backoff. */
  lemma BackoffAdds(cfg: Config, n: nat, retryCount: nat)
    requires 0 < n <= retryCount
    ensures Backoff(cfg, n) + NextRetryDelay(cfg, retryCount) >= Backoff(cfg, n + 1)
  {
    Pow2Monotone(n, retryCount);
    Pow2Next(n);
    hide Pow2;
    Scale(cfg.delay, Pow2(n), Pow2(retryCount));
    Distribute(cfg.delay, Pow2(n));
  }

  lemma Distribute(d: nat, p: int)
    ensures d * (p - 1) + d * p == d * (2 * p - 1)
  {
  }

  lemma FirstBackoff(cfg: Config)
    ensures Backoff(cfg, 1) == cfg.delay
  {
    Pow2Next(0);
  }

  /* ----- the invariant is kept, entry by entry ----- */

  lemma EnqueueKeeps(cfg: Config, now: int, transient: bool)
    ensures EntryInv(cfg, now, NewEntry(cfg, now, transient), Log([], 0, 0), Out)
  {
    hide Backoff;
    FirstBackoff(cfg);
  }

  lemma WaitKeeps(cfg: Config, now: int, later: int, e: Entry, l: Log, st: Status)
    requires EntryInv(cfg, now, e, l, st) && now <= later
    ensures EntryInv(cfg, later, e, l, st)
  {
    hide Backoff, Timely, Open;
  }

  lemma SelectKeeps(cfg: Config, now: int, e: Entry, l: Log, row: Row)
    requires EntryInv(cfg, now, e, l, Out) && Due(e, now)
    requires row.retryCount == e.retryCount && row.maxRetries == e.maxRetries
    ensures EntryInv(cfg, now, e, l, Pending(row))
  {
    hide Backoff, Timely, Open;
  }

  lemma StartKeeps(cfg: Config, now: int, e: Entry, l: Log, row: Row)
    requires EntryInv(cfg, now, e, l, Pending(row))
    ensures EntryInv(cfg, now, e, l.(attempts := l.attempts + [now]), InFlight(row))
  {
    hide Backoff;
  }

  lemma SuccessKeeps(cfg: Config, now: int, e: Entry, l: Log, row: Row)
    requires EntryInv(cfg, now, e, l, InFlight(row))
    ensures EntryInv(cfg, now, e.(resolved := true), l, Out)
  {
    hide Backoff, Open;
  }

  lemma FailureKeeps(cfg: Config, now: int, e: Entry, l: Log, row: Row)
    requires EntryInv(cfg, now, e, l, InFlight(row))
    ensures EntryInv(cfg, now, Recorded(cfg, now, e, row), l, Out)
  {
    hide Backoff, NextRetryDelay;
    BackoffAdds(cfg, Open(l), row.retryCount + 1);
  }

  lemma AbortKeeps(cfg: Config, now: int, e: Entry, l: Log, row: Row)
    requires EntryInv(cfg, now, e, l, InFlight(row))
    ensures EntryInv(cfg, now, e, l.(unrecorded := l.unrecorded + 1), Out)
  {
    hide Backoff;
    var after := l.(unrecorded := l.unrecorded + 1);
    forall k | 0 <= k < |l.attempts| ensures l.attempts[k] >= e.enqueuedAt + Backoff(cfg, k + 1 - after.unrecorded) {
      BackoffGrows(cfg, k + 1 - after.unrecorded, k + 1 - l.unrecorded);
    }
  }

  lemma DropKeeps(cfg: Config, now: int, e: Entry, l: Log, row: Row)
    requires EntryInv(cfg, now, e, l, Pending(row))
    ensures EntryInv(cfg, now, e, l, Out)
  {
    hide Backoff, Timely;
  }

  lemma ManualKeeps(cfg: Config, now: int, e: Entry, l: Log, st: Status)
    requires EntryInv(cfg, now, e, l, st)
    ensures EntryInv(cfg, now, e.(resolved := true), l, st)
    ensures EntryInv(cfg, now, e.(retryCount := e.retryCount + 1), l.(manual := l.manual + 1), st)
  {
    hide Backoff;
  }

  /* ----- every step keeps it ----- */

  ghost predicate Distinct(rows: seq<Row>) {
    forall i, j :: 0 <= i < j < |rows| ==> rows[i].id != rows[j].id
  }

  lemma {:induction false} StatusMeaning(rows: seq<Row>, id: nat)
    requires Distinct(rows)
    ensures StatusIn(rows, id) == Out <==> forall i :: 0 <= i < |rows| ==> rows[i].id != id
    ensures forall i :: 0 <= i < |rows| && rows[i].id == id ==> StatusIn(rows, id) == Pending(rows[i])
    ensures StatusIn(rows, id).Pending? ==> StatusIn(rows, id).row in rows && StatusIn(rows, id).row.id == id
    ensures !StatusIn(rows, id).InFlight?
  {
    if rows != [] && rows[0].id != id {
      StatusMeaning(rows[1..], id);
      assert forall i :: 1 <= i < |rows| ==> rows[i] == rows[1..][i - 1];
    }
  }

  ghost predicate EntriesInv(cfg: Config, s: State) {
    && s.entries.Keys == s.log.Keys
    && forall id :: id in s.entries ==> EntryInv(cfg, s.now, s.entries[id], s.log[id], StatusOf(s.worker, id))
  }

  ghost predicate PassInv(s: State) {
    && Distinct(s.worker.rows)
    && (forall i :: 0 <= i < |s.worker.rows| ==> s.worker.rows[i].id in s.entries)
    && (s.worker.handling ==> s.worker.rows != [])
    && s.tally.retried == s.tally.resolved + s.tally.failed + (if s.worker.handling || s.tally.aborted then 1 else 0)
    && (s.tally.aborted ==> s.worker.rows == [])
    && (!s.tally.aborted ==>
          s.tally.retried + |s.worker.rows| == s.tally.selected + if s.worker.handling then 1 else 0)
  }

  lemma PassKept(cfg: Config, s: State, a: Act)
    requires PassInv(s) && Enabled(s, a)
    ensures PassInv(Step(cfg, s, a))
  {
  }

  /** A step that changes one entry and nothing about the pass. */
  lemma OneEntryKept(cfg: Config, s: State, t: State, id: nat, e: Entry, l: Log)
    requires EntriesInv(cfg, s)
    requires t.entries == s.entries[id := e] && t.log == s.log[id := l] && t.now == s.now && t.worker == s.worker
    requires EntryInv(cfg, s.now, e, l, StatusOf(s.worker, id))
    ensures EntriesInv(cfg, t)
  {
    hide EntryInv, StatusOf;
    assert t.entries.Keys == s.entries.Keys + {id} && t.log.Keys == s.log.Keys + {id};
  }

  lemma EntriesKeptOutside(cfg: Config, s: State, a: Act)
    requires EntriesInv(cfg, s) && PassInv(s) && Enabled(s, a)
    requires a.Wait? || a.Enqueue? || a.Replay? || a.Resolve?
    ensures EntriesInv(cfg, Step(cfg, s, a))
  {
    hide EntryInv, StatusIn, Recorded, Answers, NewEntry;
    var t := Step(cfg, s, a);
    match a
    case Wait(_) =>
      forall id | id in t.entries ensures EntryInv(cfg, t.now, t.entries[id], t.log[id], StatusOf(t.worker, id)) {
        WaitKeeps(cfg, s.now, t.now, s.entries[id], s.log[id], StatusOf(s.worker, id));
      }
    case Enqueue(id, transient) =>
      EnqueueKeeps(cfg, s.now, transient);
      StatusMeaning(s.worker.rows, id);
      OneEntryKept(cfg, s, t, id, t.entries[id], t.log[id]);
    case Replay(id, _) =>
      ManualKeeps(cfg, s.now, s.entries[id], s.log[id], StatusOf(s.worker, id));
      assert s.log[id := s.log[id]] == s.log;
      OneEntryKept(cfg, s, t, id, t.entries[id], t.log[id]);
    case Resolve(id) =>
      ManualKeeps(cfg, s.now, s.entries[id], s.log[id], StatusOf(s.worker, id));
      assert s.log[id := s.log[id]] == s.log;
      OneEntryKept(cfg, s, t, id, t.entries[id], t.log[id]);
  }

  lemma EntriesKeptSelect(cfg: Config, s: State, rows: seq<Row>)
    requires EntriesInv(cfg, s) && PassInv(s) && Enabled(s, Select(rows))
    ensures EntriesInv(cfg, Step(cfg, s, Select(rows)))
  {
    var t := Step(cfg, s, Select(rows));
    hide EntryInv, StatusIn, Due;
    forall id | id in t.entries ensures EntryInv(cfg, t.now, t.entries[id], t.log[id], StatusOf(t.worker, id)) {
      StatusMeaning(rows, id);
      StatusMeaning(s.worker.rows, id);
      if StatusIn(rows, id).Pending? {
        SelectKeeps(cfg, s.now, s.entries[id], s.log[id], StatusIn(rows, id).row);
      }
    }
  }

  lemma EntriesKeptStart(cfg: Config, s: State)
    requires EntriesInv(cfg, s) && PassInv(s) && Enabled(s, Start)
    ensures EntriesInv(cfg, Step(cfg, s, Start))
  {
    var t, row := Step(cfg, s, Start), s.worker.rows[0];
    hide EntryInv, StatusIn;
    StatusMeaning(s.worker.rows, row.id);
    StartKeeps(cfg, s.now, s.entries[row.id], s.log[row.id], row);
  }

  lemma FinishedKept(cfg: Config, s: State, outcome: Outcome)
    requires EntriesInv(cfg, s) && PassInv(s) && Enabled(s, Finish(outcome))
    ensures var t, id := Step(cfg, s, Finish(outcome)), s.worker.rows[0].id;
            EntryInv(cfg, t.now, t.entries[id], t.log[id], StatusOf(t.worker, id))
  {
    hide EntryInv, StatusIn, Recorded;
    var t, row := Step(cfg, s, Finish(outcome)), s.worker.rows[0];
    var e, l := s.entries[row.id], s.log[row.id];
    StatusMeaning(t.worker.rows, row.id);
    match outcome
    case Succeeded => SuccessKeeps(cfg, s.now, e, l, row);
    case Failed => FailureKeeps(cfg, s.now, e, l, row);
    case Aborted => AbortKeeps(cfg, s.now, e, l, row);
  }

  lemma EntriesKeptFinish(cfg: Config, s: State, outcome: Outcome)
    requires EntriesInv(cfg, s) && PassInv(s) && Enabled(s, Finish(outcome))
    ensures EntriesInv(cfg, Step(cfg, s, Finish(outcome)))
  {
    hide EntryInv, StatusIn, Recorded;
    FinishedKept(cfg, s, outcome);
    var t, row := Step(cfg, s, Finish(outcome)), s.worker.rows[0];
    assert t.entries.Keys == s.entries.Keys && t.log.Keys == s.log.Keys;
    forall id | id in t.entries && id != row.id
      ensures EntryInv(cfg, t.now, t.entries[id], t.log[id], StatusOf(t.worker, id))
    {
      RestStatus(s.worker.rows, id);
      if outcome.Aborted? {
        StatusMeaning(s.worker.rows, id);
        StatusMeaning([], id);
        if StatusIn(s.worker.rows, id).Pending? {
          DropKeeps(cfg, s.now, s.entries[id], s.log[id], StatusIn(s.worker.rows, id).row);
        }
      }
    }
  }

  lemma RestStatus(rows: seq<Row>, id: nat)
    requires rows != [] && rows[0].id != id
    ensures StatusIn(rows[1..], id) == StatusIn(rows, id)
  {
  }

  ghost predicate Inv(cfg: Config, s: State) {
    EntriesInv(cfg, s) && PassInv(s)
  }

  lemma InvKept(cfg: Config, s: State, a: Act)
    requires Inv(cfg, s) && Enabled(s, a)
    ensures Inv(cfg, Step(cfg, s, a))
  {
    PassKept(cfg, s, a);
    hide EntriesInv, PassInv, Step, Enabled;
    match a
    case Select(rows) => EntriesKeptSelect(cfg, s, rows);
    case Start => EntriesKeptStart(cfg, s);
    case Finish(outcome) => EntriesKeptFinish(cfg, s, outcome);
    case _ => EntriesKeptOutside(cfg, s, a);
  }

  lemma {:induction false} RunInv(cfg: Config, s: State, acts: seq<Act>, t: State)
    requires Inv(cfg, s) && Run(cfg, s, acts, t)
    ensures Inv(cfg, t)
    decreases |acts|
  {
    hide Inv, Step, Enabled;
    if acts != [] {
      InvKept(cfg, s, acts[0]);
      RunInv(cfg, Step(cfg, s, acts[0]), acts[1..], t);
    }
  }

  lemma StartInv(cfg: Config)
    ensures Inv(cfg, START)
  {
  }

  /* ----- what holds in every run ----- */

  /**
   The retry budget and the backoff: with one retry worker, whatever is replayed or resolved by hand meanwhile,
   an entry gets at most `maxRetries` automatic attempts, one more for each attempt whose failure could not be
   recorded, a non-transient one gets none, and the k-th starts no earlier than the sum of the first k delays
   after the entry was queued, counting recorded attempts.
   */
  lemma BudgetAndBackoff(cfg: Config, acts: seq<Act>, t: State, id: nat)
    requires Run(cfg, START, acts, t) && id in t.entries
    ensures id in t.log
    ensures var e, l := t.entries[id], t.log[id];
            && |l.attempts| <= (if e.transient then cfg.maxRetries else 0) + l.unrecorded
            && (!e.transient ==> l.attempts == [])
            && forall k :: 0 <= k < |l.attempts| ==> l.attempts[k] >= e.enqueuedAt + Backoff(cfg, k + 1 - l.unrecorded)
  {
    StartInv(cfg);
    RunInv(cfg, START, acts, t);
    hide Run, Backoff;
  }

  /** Left alone by hand and by faults, an open entry is given up after exactly `maxRetries` attempts. */
  lemma GivesUpAfterExactly(cfg: Config, acts: seq<Act>, t: State, id: nat)
    requires cfg.maxRetries > 0
    requires Run(cfg, START, acts, t) && id in t.entries && id in t.log
    requires t.entries[id].transient && !t.entries[id].resolved && t.worker.rows == []
    requires t.log[id].manual == 0 && t.log[id].unrecorded == 0
    ensures t.entries[id].retryCount == |t.log[id].attempts|
    ensures t.entries[id].nextRetryAt.None? <==> |t.log[id].attempts| == cfg.maxRetries
  {
    StartInv(cfg);
    RunInv(cfg, START, acts, t);
    hide Run, Backoff, Timely;
  }

  /** After a pass that was not broken off, every selected entry was tried once and either resolved or failed. */
  lemma TallyAddsUp(cfg: Config, acts: seq<Act>, t: State)
    requires Run(cfg, START, acts, t) && t.worker.rows == []
    ensures t.tally.retried == t.tally.resolved + t.tally.failed + if t.tally.aborted then 1 else 0
    ensures !t.tally.aborted ==> t.tally.retried == t.tally.selected
  {
    StartInv(cfg);
    RunInv(cfg, START, acts, t);
    hide Run, EntriesInv;
  }

  /** The entries after a step differ from those before in one entry at most. */
  predicate OnlyChanges(s: State, t: State, id: nat, e: Entry) {
    && t.entries.Keys == s.entries.Keys + {id} && t.entries[id] == e
    && forall k :: k in s.entries && k != id ==> t.entries[k] == s.entries[k]
  }

  /**
   What each act does to the entries: queueing adds an open one, due after one delay or never; success, by a pass or
   by hand, and `resolve` set the flag and nothing else; a replay by hand that fails counts; an attempt that fails
   counts on from what its pass has read, and doubles the delay or gives up.  Nothing else changes an entry.
   The tally counts the starts and the two kinds of ends.
   */
  lemma ActEffects(cfg: Config, s: State, a: Act)
    requires Enabled(s, a)
    ensures var t := Step(cfg, s, a);
            match a
            case Enqueue(id, true) =>
              OnlyChanges(s, t, id, Entry(true, s.now, 0, cfg.maxRetries, Some(s.now + cfg.delay), false))
            case Enqueue(id, false) => OnlyChanges(s, t, id, Entry(false, s.now, 0, 0, None, false))
            case Resolve(id) => OnlyChanges(s, t, id, s.entries[id].(resolved := true))
            case Replay(id, true) => OnlyChanges(s, t, id, s.entries[id].(resolved := true))
            case Replay(id, false) =>
              OnlyChanges(s, t, id, s.entries[id].(retryCount := s.entries[id].retryCount + 1))
            case Finish(Succeeded) =>
              var id := s.worker.rows[0].id; OnlyChanges(s, t, id, s.entries[id].(resolved := true))
            case Finish(Failed) =>
              var row := s.worker.rows[0];
              var n := row.retryCount + 1;
              var due := if n < row.maxRetries then Some(s.now + cfg.delay * Pow2(n)) else None;
              OnlyChanges(s, t, row.id, s.entries[row.id].(retryCount := n, nextRetryAt := due))
            case _ => t.entries == s.entries
    ensures Step(cfg, s, a).now == s.now + if a.Wait? then a.ms else 0
    ensures var n, t := s.tally, Step(cfg, s, a).tally;
            match a
            case Select(rows) => t == Tally(|rows|, 0, 0, 0, false)
            case Start => t == n.(retried := n.retried + 1)
            case Finish(Succeeded) => t == n.(resolved := n.resolved + 1)
            case Finish(Failed) => t == n.(failed := n.failed + 1)
            case Finish(Aborted) => t == n.(aborted := true)
            case _ => t == n
  {
    hide Pow2, Answers;
  }

  /** Once an entry is resolved outside a pass, by `resolve` or a replay that succeeds, no attempt of it ever starts. */
  lemma NoAttemptAfterResolve(cfg: Config, before: seq<Act>, s: State, a: Act, acts: seq<Act>, t: State, id: nat)
    requires Run(cfg, START, before, s) && s.worker.rows == [] && Enabled(s, a)
    requires a == Act.Resolve(id) || a == Act.Replay(id, true)
    requires Run(cfg, Step(cfg, s, a), acts, t)
    ensures id in t.entries && t.entries[id].resolved
    ensures id in s.log && id in t.log && t.log[id].attempts == s.log[id].attempts
  {
    StartInv(cfg);
    RunInv(cfg, START, before, s);
    InvKept(cfg, s, a);
    ActEffects(cfg, s, a);
    assert Step(cfg, s, a).worker == s.worker && Step(cfg, s, a).log == s.log;
    assert id in s.log by { hide EntryInv; }
    hide Run, Inv, Enabled, Step;
    ResolvedStays(cfg, Step(cfg, s, a), acts, t, id);
  }

  /** While at most 100 entries are due, a pass selects all of them. */
  lemma AllDueSelected(s: State, rows: seq<Row>, due: set<nat>)
    requires Answers(s, rows) && |due| <= 100
    requires forall id :: id in due <==> id in s.entries && Due(s.entries[id], s.now)
    ensures forall id :: id in due <==> exists i :: 0 <= i < |rows| && rows[i].id == id
  {
    hide Due;
    var ids := set i | 0 <= i < |rows| :: rows[i].id;
    DistinctIds(rows);
    forall id | id in due ensures id in ids {
      if id !in ids {
        SubsetSize(ids + {id}, due);
      }
    }
  }

  lemma {:induction false} DistinctIds(rows: seq<Row>)
    requires Distinct(rows)
    ensures |set i | 0 <= i < |rows| :: rows[i].id| == |rows|
  {
    var ids := set i | 0 <= i < |rows| :: rows[i].id;
    if rows == [] {
      assert ids == {};
    } else {
      var init, last := rows[..|rows| - 1], rows[|rows| - 1].id;
      DistinctIds(init);
      var before := set i | 0 <= i < |init| :: init[i].id;
      hide Distinct;
      forall id ensures id in ids <==> id in before + {last} {
        if id in before {
          var i :| 0 <= i < |init| && init[i].id == id;
          assert rows[i].id == id;
        }
      }
      assert ids == before + {last};
    }
  }

  /** An entry that is resolved stays resolved, and once its pass is over it is never tried again. */
  lemma {:induction false} ResolvedStays(cfg: Config, s: State, acts: seq<Act>, t: State, id: nat)
    requires Inv(cfg, s) && Run(cfg, s, acts, t)
    requires id in s.entries && s.entries[id].resolved
    ensures id in s.log && id in t.entries && t.entries[id].resolved && id in t.log
    ensures StatusOf(s.worker, id).Out? ==> t.log[id].attempts == s.log[id].attempts
    decreases |acts|
  {
    if acts != [] {
      var u := Step(cfg, s, acts[0]);
      ResolvedStep(cfg, s, acts[0], id);
      InvKept(cfg, s, acts[0]);
      hide Inv, Step, Enabled, StatusOf;
      ResolvedStays(cfg, u, acts[1..], t, id);
    }
  }

  lemma ResolvedStep(cfg: Config, s: State, a: Act, id: nat)
    requires Inv(cfg, s) && Enabled(s, a)
    requires id in s.entries && s.entries[id].resolved
    ensures id in s.log
    ensures var t := Step(cfg, s, a);
            && id in t.entries && t.entries[id].resolved && id in t.log
            && (StatusOf(s.worker, id).Out? ==> StatusOf(t.worker, id).Out? && t.log[id].attempts == s.log[id].attempts)
  {
    hide StatusIn, EntryInv;
    var t := Step(cfg, s, a);
    PassKept(cfg, s, a);
    StatusMeaning(s.worker.rows, id);
    StatusMeaning(t.worker.rows, id);
  }

  /** An attempt that could not be recorded costs nothing: the entry is due again at once. */
  lemma UnrecordedIsDueAgain(cfg: Config, s: State)
    requires Inv(cfg, s) && Enabled(s, Finish(Aborted))
    requires var id := s.worker.rows[0].id; !s.entries[id].resolved && s.log[id].manual == 0
    ensures var t, id := Step(cfg, s, Finish(Aborted)), s.worker.rows[0].id; Due(t.entries[id], t.now)
  {
    hide Timely, Backoff;
    assert StatusOf(s.worker, s.worker.rows[0].id) == InFlight(s.worker.rows[0]);
  }

  /* ----- the queue ----- */

  predicate Outside(a: Act) {
    a.Wait? || a.Enqueue? || a.Replay? || a.Resolve?
  }

  predicate AllOutside(acts: seq<Act>) {
    forall i :: 0 <= i < |acts| ==> Outside(acts[i])
  }

  lemma {:induction false} RunSnoc(cfg: Config, s: State, acts: seq<Act>, t: State, a: Act)
    requires Run(cfg, s, acts, t) && Enabled(t, a)
    ensures Run(cfg, s, acts + [a], Step(cfg, t, a))
    decreases |acts|
  {
    hide Step, Enabled;
    if acts == [] {
      assert [] + [a] == [a] && [a][1..] == [];
    } else {
      assert (acts + [a])[0] == acts[0] && (acts + [a])[1..] == acts[1..] + [a];
      RunSnoc(cfg, Step(cfg, s, acts[0]), acts[1..], t, a);
    }
  }

  lemma Logged(cfg: Config, s: State, id: nat)
    requires Inv(cfg, s) && (id in s.entries || (s.worker.rows != [] && s.worker.rows[0].id == id))
    ensures id in s.entries && id in s.log
  {
    hide EntryInv;
  }

  class DeadLetterQueue {
    const cfg: Config
    var now: int
    var entries: map<nat, Entry>
    ghost var log: map<nat, Log>
    ghost var worker: Worker
    ghost var tally: Tally

    ghost function View(): State
      reads this
    {
      State(now, entries, log, worker, tally)
    }

    ghost predicate Valid()
      reads this
    {
      Inv(cfg, View())
    }

    constructor (cfg: Config, now: int)
      ensures Valid() && this.cfg == cfg && entries == map[] && worker.rows == []
    {
      this.cfg, this.now, entries, log := cfg, now, map[], map[];
      worker, tally := Worker([], false), Tally(0, 0, 0, 0, false);
    }

    /** `isTransientError(error.message)` is `transient`; `id` is the generated key. */
    method Enqueue(id: nat, transient: bool)
      requires Valid() && id !in entries
      modifies this
      ensures Valid() && View() == Step(cfg, old(View()), Act.Enqueue(id, transient))
      ensures entries == old(entries)[id := Entry(transient, now, 0, if transient then cfg.maxRetries else 0,
                                                  if transient then Some(now + cfg.delay) else None, false)]
    {
      hide Inv, EntriesInv, PassInv, EntryInv, Answers, Due, Timely, Backoff, NextRetryDelay, StatusOf, StatusIn;
      InvKept(cfg, View(), Act.Enqueue(id, transient));
      var maxRetries := if transient then cfg.maxRetries else 0;
      var nextRetryAt := if transient then Some(now + cfg.delay) else None;
      entries := entries[id := Entry(transient, now, 0, maxRetries, nextRetryAt, false)];
      log := log[id := Log([], 0, 0)];
    }

    /** An unknown id updates nothing. */
    method Resolve(id: nat)
      requires Valid()
      modifies this
      ensures Valid()
      ensures id in old(entries) ==> View() == Step(cfg, old(View()), Act.Resolve(id))
      ensures id in old(entries) ==> entries == old(entries)[id := old(entries)[id].(resolved := true)]
      ensures id !in old(entries) ==> View() == old(View())
    {
      hide Inv, EntriesInv, PassInv, EntryInv, Answers, Due, Timely, Backoff, NextRetryDelay, StatusOf, StatusIn;
      if id in entries {
        InvKept(cfg, View(), Act.Resolve(id));
        entries := entries[id := entries[id].(resolved := true)];
      }
    }

    /** A replay by hand, whose handler succeeds when `ok`; otherwise, and for an unknown id, it throws. */
    method Replay(id: nat, ok: bool) returns (throws: bool)
      requires Valid()
      modifies this
      ensures Valid() && (throws <==> id !in old(entries) || !ok)
      ensures id in old(entries) ==> id in old(log) && View() == Step(cfg, old(View()), Act.Replay(id, ok))
      ensures id in old(entries) ==>
                var e := old(entries)[id];
                entries == old(entries)[id := if ok then e.(resolved := true) else e.(retryCount := e.retryCount + 1)]
      ensures id !in old(entries) ==> View() == old(View())
    {
      hide Inv, EntriesInv, PassInv, EntryInv, Answers, Due, Timely, Backoff, NextRetryDelay, StatusOf, StatusIn;
      if id !in entries {
        return true;
      }
      Logged(cfg, View(), id);
      InvKept(cfg, View(), Act.Replay(id, ok));
      var entry := entries[id];
      if ok {
        entries := entries[id := entry.(resolved := true)];
      } else {
        entries := entries[id := entry.(retryCount := entry.retryCount + 1)];
        log := log[id := log[id].(manual := log[id].manual + 1)];
      }
      throws := !ok;
    }

    method Elapse(ms: nat)
      requires Valid()
      modifies this
      ensures Valid() && View() == Step(cfg, old(View()), Wait(ms))
    {
      hide Inv, EntriesInv, PassInv, EntryInv, Answers, Due, Timely, Backoff, NextRetryDelay, StatusOf, StatusIn;
      InvKept(cfg, View(), Wait(ms));
      now := now + ms;
    }

    /** A call by anybody but the pass; one that cannot happen, as for an unknown id, changes nothing. */
    method Other(a: Act) returns (ghost trace: seq<Act>)
      requires Valid() && Outside(a)
      modifies this
      ensures Valid() && Run(cfg, old(View()), trace, View())
      ensures worker == old(worker) && tally == old(tally)
    {
      hide Inv;
      trace := [];
      match a
      case Wait(ms) =>
        Elapse(ms);
        trace := [a];
      case Enqueue(id, transient) =>
        if id !in entries {
          Enqueue(id, transient);
          trace := [a];
        }
      case Replay(id, ok) =>
        if id in entries {
          var _ := Replay(id, ok);
          trace := [a];
        }
      case Resolve(id) =>
        if id in entries {
          Resolve(id);
          trace := [a];
        }
      case _ =>
    }

    /** What others do while the pass waits for a handler or for the database. */
    method Others(acts: seq<Act>) returns (ghost trace: seq<Act>)
      requires Valid() && AllOutside(acts)
      modifies this
      ensures Valid() && Run(cfg, old(View()), trace, View())
      ensures worker == old(worker) && tally == old(tally)
    {
      hide Inv, Enabled, Step, Run, Outside;
      trace := [];
      assert Run(cfg, View(), [], View()) by { RunNothing(cfg, View()); }
      for i := 0 to |acts|
        invariant Valid() && Run(cfg, old(View()), trace, View())
        invariant worker == old(worker) && tally == old(tally)
      {
        ghost var before := View();
        ghost var one := Other(acts[i]);
        RunJoin(cfg, old(View()), trace, before, one, View());
        trace := trace + one;
      }
    }

    method StartAttempt(ghost row: Row)
      requires Valid() && worker.rows != [] && worker.rows[0] == row && !worker.handling
      modifies this
      ensures Valid() && Enabled(old(View()), Start) && View() == Step(cfg, old(View()), Start)
    {
      hide Inv, EntriesInv, PassInv, EntryInv, Answers, Due, Timely, Backoff, NextRetryDelay, StatusOf, StatusIn;
      Logged(cfg, View(), row.id);
      InvKept(cfg, View(), Start);
      worker := worker.(handling := true);
      log := log[row.id := log[row.id].(attempts := log[row.id].attempts + [now])];
      tally := tally.(retried := tally.retried + 1);
    }

    /** What follows the handler, up to the next entry. */
    method FinishAttempt(entry: Row, outcome: Outcome)
      requires Valid() && worker.rows != [] && worker.rows[0] == entry && worker.handling
      modifies this
      ensures Valid() && Enabled(old(View()), Finish(outcome)) && View() == Step(cfg, old(View()), Finish(outcome))
    {
      hide Inv, EntriesInv, PassInv, EntryInv, Answers, Due, Timely, Backoff, NextRetryDelay, StatusOf, StatusIn;
      Logged(cfg, View(), entry.id);
      InvKept(cfg, View(), Finish(outcome));
      match outcome
      case Succeeded =>
        entries := entries[entry.id := entries[entry.id].(resolved := true)];
        worker, tally := Worker(worker.rows[1..], false), tally.(resolved := tally.resolved + 1);
      case Failed =>
        var newCount := entry.retryCount + 1;
        var exhausted := newCount >= entry.maxRetries;
        var nextRetry := if exhausted then None else Some(now + NextRetryDelay(cfg, newCount));
        entries := entries[entry.id := entries[entry.id].(retryCount := newCount, nextRetryAt := nextRetry)];
        worker, tally := Worker(worker.rows[1..], false), tally.(failed := tally.failed + 1);
      case Aborted =>
        log := log[entry.id := log[entry.id].(unrecorded := log[entry.id].unrecorded + 1)];
        worker, tally := Worker([], false), tally.(aborted := true);
    }

    method BeginPass(rows: seq<Row>) returns (ghost trace: seq<Act>)
      requires Valid() && worker.rows == [] && Answers(View(), rows)
      modifies this
      ensures Valid() && Run(cfg, old(View()), trace, View()) && worker == Worker(rows, false)
    {
      hide Inv, EntriesInv, PassInv, EntryInv, Answers, Due, Timely, Backoff, NextRetryDelay, StatusOf, StatusIn, Run;
      ghost var s := View();
      InvKept(cfg, s, Select(rows));
      RunNothing(cfg, s);
      RunSnoc(cfg, s, [], s, Select(rows));
      trace := [] + [Select(rows)];
      worker, tally := Worker(rows, false), Tally(|rows|, 0, 0, 0, false);
    }

    /** One turn of the loop: the attempt, its outcome, and what others do before and during it. */
    method Attempt(entry: Row, outcome: Outcome, before: seq<Act>, during: seq<Act>, ghost start: State,
                   ghost past: seq<Act>)
      returns (ghost trace: seq<Act>)
      requires Valid() && worker.rows != [] && worker.rows[0] == entry && !worker.handling
      requires AllOutside(before) && AllOutside(during)
      requires Run(cfg, start, past, View())
      modifies this
      ensures Valid() && Run(cfg, start, trace, View())
      ensures worker == Worker(if outcome.Aborted? then [] else old(worker).rows[1..], false)
    {
      hide Inv, Enabled, Step, Run, AllOutside;
      ghost var r := View();
      ghost var first := Others(before);
      RunJoin(cfg, start, past, r, first, View());
      ghost var s := View();
      StartAttempt(entry);
      StartWorker(cfg, s);
      RunSnoc(cfg, start, past + first, s, Start);
      ghost var t := View();
      ghost var second := Others(during);
      RunJoin(cfg, start, past + first + [Start], t, second, View());
      ghost var u := View();
      FinishAttempt(entry, outcome);
      FinishWorker(cfg, u, outcome);
      trace := past + first + [Start] + second + [Finish(outcome)];
      RunSnoc(cfg, start, past + first + [Start] + second, u, Finish(outcome));
    }

    /**
     `processRetries`: `rows` is the answer of the query, `outcomes` what happens to each of them and
     `before[i]` and `during[i]` what others do before and during the i-th attempt.
     The pass is a run of the step system, broken off at the first `Aborted`.
     */
    method ProcessRetries(rows: seq<Row>, outcomes: seq<Outcome>, before: seq<seq<Act>>, during: seq<seq<Act>>)
      returns (retried: nat, resolved: nat, failed: nat, throws: bool, ghost trace: seq<Act>)
      requires Valid() && worker.rows == [] && Answers(View(), rows)
      requires |outcomes| == |before| == |during| == |rows|
      requires forall i :: 0 <= i < |rows| ==> AllOutside(before[i]) && AllOutside(during[i])
      modifies this
      ensures Valid() && worker.rows == [] && Run(cfg, old(View()), trace, View())
      ensures throws <==> exists i :: 0 <= i < |rows| && outcomes[i].Aborted?
      ensures !throws ==> retried == |rows| == resolved + failed
    {
      hide Inv, Enabled, Step, Run, AllOutside, Answers;
      ghost var start := View();
      trace := BeginPass(rows);
      retried, resolved, failed, throws := 0, 0, 0, false;
      while retried < |rows|
        invariant Valid() && Run(cfg, start, trace, View())
        invariant 0 <= retried <= |rows| && worker == Worker(rows[retried..], false)
        invariant retried == resolved + failed
        invariant forall j :: 0 <= j < retried ==> !outcomes[j].Aborted?
      {
        var entry, outcome := rows[retried], outcomes[retried];
        trace := Attempt(entry, outcome, before[retried], during[retried], start, trace);
        retried := retried + 1;
        match outcome
        case Succeeded => resolved := resolved + 1;
        case Failed => failed := failed + 1;
        case Aborted =>
          throws := true;
          return;
      }
    }
  }

  lemma RunNothing(cfg: Config, s: State)
    ensures Run(cfg, s, [], s)
  {
  }

  lemma {:induction false} RunJoin(cfg: Config, s: State, a: seq<Act>, t: State, b: seq<Act>, u: State)
    requires Run(cfg, s, a, t) && Run(cfg, t, b, u)
    ensures Run(cfg, s, a + b, u)
    decreases |a|
  {
    hide Step, Enabled;
    if a == [] {
      assert [] + b == b;
    } else {
      assert (a + b)[0] == a[0] && (a + b)[1..] == a[1..] + b;
      RunJoin(cfg, Step(cfg, s, a[0]), a[1..], t, b, u);
    }
  }

  lemma StartWorker(cfg: Config, s: State)
    requires Enabled(s, Start)
    ensures Step(cfg, s, Start).worker == Worker(s.worker.rows, true)
  {
  }

  lemma FinishWorker(cfg: Config, s: State, outcome: Outcome)
    requires Enabled(s, Finish(outcome))
    ensures Step(cfg, s, Finish(outcome)).worker == Worker(if outcome.Aborted? then [] else s.worker.rows[1..], false)
  {
  }
}
