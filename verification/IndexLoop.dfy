/**
 The daemon's indexing loop of indexer/src/index.js (`indexLedger`, the cursor loop of `run`), restarts at
 `getMaxLedger` of indexer/src/db.js, and the rewind that indexer/src/reorgWorker.js performs through `setCursor`.

 The network's events are one list in ledger order that grows as ledgers close.  A pass fetches pages from the cursor
 on, inserts the events one at a time and moves the cursor behind the last reported ledger; it may fail anywhere.
 */
module IndexLoop {
  import opened Ledger
  import opened Options

  /**
   A pass over the events from `start` on: `page` is what is left to insert of the page that ends before position
   `at`, `full` whether that page was full, and `latest` the ledger the node reported with it.
   */
  datatype Pass = Pass(start: int, page: seq<Event>, at: nat, full: bool, latest: int)

  datatype State = State(
    net: seq<Event>,
    tip: int,             // the last closed ledger
    first: int,           // the lowest cursor so far
    unique: bool,         // whether the events table has a unique key
    table: multiset<Event>,
    cursor: int,
    saved: Option<int>,   // the cursor in daemon_state, if one was stored
    pass: Option<Pass>,
    reach: nat)           // how far into `net` the table reaches (a proof tag)

  function Start(net: seq<Event>, tip: int, first: int, unique: bool): State {
    State(net, tip, first, unique, multiset{}, first, None, None, From(net, first))
  }

  datatype Step =
    | Close(events: seq<Event>, tip: int)
    | Fetch
    | InsertOne
    | EndPass
    | SaveCursor
    | FailPass
    | Restart(start: int)
    | Rewind(fork: int, net: seq<Event>, tip: int)

  function Min(a: int, b: int): int { if a < b then a else b }

  function Max(a: int, b: int): int { if a < b then b else a }

  /** Ledgers are numbered from 1. */
  ghost predicate OkNetwork(net: seq<Event>, tip: int) {
    && Sorted(net) && tip >= 0
    && (forall i, j :: 0 <= i < j < |net| ==> net[i] != net[j])
    && (forall i :: 0 <= i < |net| ==> 0 < net[i].ledger <= tip)
  }

  ghost predicate Enabled(s: State, step: Step) {
    match step
    case Close(es, tip) => tip >= s.tip && OkNetwork(s.net + es, tip) && forall e :: e in es ==> e.ledger > s.tip
    case Fetch =>
      if s.pass.None? then s.cursor <= s.tip + 1
      else s.pass.value.page == [] && s.pass.value.full && s.pass.value.at <= |s.net|
    case InsertOne => s.pass.Some? && s.pass.value.page != []
    case EndPass => s.pass.Some? && s.pass.value.page == [] && !s.pass.value.full
    case SaveCursor => s.pass.None?
    case FailPass => s.pass.Some?
    case Restart(_) => true
    case Rewind(fork, net, tip) =>
      && OkNetwork(net, tip) && 0 <= fork <= tip + 1
      && From(net, fork) == From(s.net, fork) && net[..From(net, fork)] == s.net[..From(s.net, fork)]
  }

  /** `SELECT COALESCE(MAX(ledger), 0) FROM events` */
  ghost predicate IsMaxLedger(table: multiset<Event>, m: int) {
    && (forall e :: e in table ==> e.ledger <= m)
    && (if table == multiset{} then m == 0 else exists e :: e in table && e.ledger == m)
  }

  ghost function MaxLedger(s: State): int {
    MaxExists(s.table);
    var m :| IsMaxLedger(s.table, m); m
  }

  lemma MaxLedgerIs(s: State)
    ensures IsMaxLedger(s.table, MaxLedger(s))
  {
    MaxExists(s.table);
  }

  lemma {:induction false} MaxExists(table: multiset<Event>)
    ensures exists m :: IsMaxLedger(table, m)
    decreases |table|
  {
    if table == multiset{} {
      assert IsMaxLedger(table, 0);
    } else {
      var e :| e in table;
      var rest := table - multiset{e};
      MaxExists(rest);
      var m :| IsMaxLedger(rest, m);
      var m' := if rest == multiset{} then e.ledger else Max(m, e.ledger);
      assert forall x :: x in table ==> x in rest || x == e;
      assert IsMaxLedger(table, m') by {
        if rest != multiset{} {
          var x :| x in rest && x.ledger == m;
          assert x in table;
        }
      }
    }
  }

  ghost function Next(s: State, step: Step): State
    requires Enabled(s, step)
  {
    match step
    case Close(es, tip) =>
      var net := s.net + es;
      s.(net := net, tip := tip, reach := Max(s.reach, From(net, s.first)))
    case Fetch =>
      var at := if s.pass.None? then From(s.net, s.cursor) else s.pass.value.at;
      var end := Min(at + PAGE_LIMIT, |s.net|);
      var start := if s.pass.None? then s.cursor else s.pass.value.start;
      s.(pass := Some(Pass(start, s.net[at..end], end, end - at == PAGE_LIMIT, s.tip)))
    case InsertOne =>
      var p := s.pass.value;
      s.(table := Insert(s.unique, s.table, p.page[0]), pass := Some(p.(page := p.page[1..])),
         reach := Max(s.reach, p.at - |p.page| + 1))
    case EndPass => s.(cursor := s.pass.value.latest + 1, pass := None)
    case SaveCursor => s.(saved := Some(s.cursor))
    case FailPass => s.(pass := None)
    case Restart(start) =>
      var m := MaxLedger(s);
      if m > 0 then s.(cursor := m + 1, pass := None)
      else s.(cursor := start, first := Min(s.first, start), pass := None, reach := From(s.net, start))
    case Rewind(fork, net, tip) =>
      s.(net := net, tip := tip, first := Min(s.first, fork), cursor := fork, reach := From(net, fork),
         table := Below(s.table, fork))
  }

  /** `DELETE FROM events WHERE ledger >= fork` */
  ghost function Below(table: multiset<Event>, fork: int): multiset<Event>
    decreases |table|
  {
    if table == multiset{} then multiset{}
    else
      var e :| e in table;
      var rest := Below(table - multiset{e}, fork);
      if e.ledger < fork then rest + multiset{e} else rest
  }

  lemma BelowUnfold(table: multiset<Event>, fork: int) returns (e: Event)
    requires table != multiset{}
    ensures e in table
    ensures Below(table, fork)
         == if e.ledger < fork then Below(table - multiset{e}, fork) + multiset{e} else Below(table - multiset{e}, fork)
  {
    e :| e in table && Below(table, fork)
                       == if e.ledger < fork then Below(table - multiset{e}, fork) + multiset{e}
                          else Below(table - multiset{e}, fork);
  }

  lemma {:induction false} BelowIs(table: multiset<Event>, fork: int)
    ensures forall e :: Below(table, fork)[e] == if e.ledger < fork then table[e] else 0
    decreases |table|
  {
    if table != multiset{} {
      var e := BelowUnfold(table, fork);
      BelowIs(table - multiset{e}, fork);
      hide Below;
    }
  }

  lemma BelowMembers(table: multiset<Event>, fork: int)
    ensures forall e :: e in Below(table, fork) <==> e in table && e.ledger < fork
  {
    BelowIs(table, fork);
    hide Below;
  }

  /* ----- completeness ----- */

  /** Every network event from the first cursor up to but excluding `upto` is in the table. */
  ghost predicate Complete(s: State, upto: int) {
    forall i :: 0 <= i < |s.net| && s.first <= s.net[i].ledger < upto ==> s.net[i] in s.table
  }

  ghost predicate PassOk(s: State, p: Pass) {
    && p.start == s.cursor
    && |p.page| <= p.at <= |s.net| && p.page == s.net[p.at - |p.page|..p.at]
    && From(s.net, p.start) <= p.at - |p.page| <= s.reach
    && p.start <= p.latest + 1 && p.latest <= s.tip
    && (!p.full ==> From(s.net, p.latest + 1) <= p.at)
    && (forall e :: e in p.page ==> e.ledger <= p.latest)
  }

  ghost predicate Bounds(s: State) {
    && s.first <= s.cursor && (s.cursor <= s.tip + 1 || s.cursor == s.first)
    && s.reach <= |s.net| && From(s.net, s.first) <= s.reach && From(s.net, s.cursor) <= s.reach
  }

  /** The table holds exactly the network's events from `first` on, up to position `reach`. */
  ghost predicate Holds(table: multiset<Event>, net: seq<Event>, first: int, reach: nat) {
    && (forall i :: 0 <= i < |net| && net[i].ledger >= first ==> (net[i] in table <==> i < reach))
    && (forall e :: e in table ==> e in net && e.ledger >= first)
  }

  ghost predicate Rows(unique: bool, table: multiset<Event>) {
    unique ==> forall e :: table[e] <= 1
  }

  ghost predicate Inv(s: State) {
    && OkNetwork(s.net, s.tip)
    && Bounds(s)
    && Holds(s.table, s.net, s.first, s.reach)
    && Rows(s.unique, s.table)
    && (s.pass.Some? ==> s.cursor <= s.tip + 1 && PassOk(s, s.pass.value))
  }

  /** Every event of the highest stored ledger is stored. */
  ghost predicate MaxLedgerFull(s: State) {
    forall i :: 0 <= i < |s.net| && s.net[i].ledger == MaxLedger(s) ==> s.net[i] in s.table
  }

  /** Every event between the cursor and a ledger is stored. */
  ghost predicate StoredAhead(s: State, upto: int) {
    forall i :: 0 <= i < |s.net| && s.cursor <= s.net[i].ledger < upto ==> s.net[i] in s.table
  }

  /**
   A restart skips nothing: of a table with events the highest stored ledger is fully inserted; over an empty one the
   start does not lie ahead of the first cursor, or at most of ledgers that have closed without events.
   */
  ghost predicate NothingSkipped(s: State, start: int) {
    if MaxLedger(s) > 0 then MaxLedgerFull(s)
    else start <= s.first || (start <= s.tip + 1 && NoneBetween(s, start))
  }

  ghost predicate NoneBetween(s: State, start: int) {
    forall i :: 0 <= i < |s.net| ==> !(s.first <= s.net[i].ledger < start)
  }

  /**
   The steps of the run are settled: a restart skips nothing, and a rewind happens between passes and, if it goes
   forward, only over events that are stored.
   */
  ghost predicate Settled(s: State, step: Step) {
    match step
    case Restart(start) => NothingSkipped(s, start)
    case Rewind(fork, _, _) => s.pass.None? && StoredAhead(s, fork)
    case _ => true
  }

  lemma NetFacts(net: seq<Event>, tip: int, ledger: int)
    requires OkNetwork(net, tip)
    ensures forall i :: 0 <= i < |net| ==> (net[i].ledger < ledger <==> i < From(net, ledger))
    ensures forall i :: 0 <= i < |net| ==> net[i].ledger <= tip
    ensures ledger > tip ==> From(net, ledger) == |net|
  {
    FromSorted(net, ledger);
  }

  lemma InvIsComplete(s: State)
    requires Inv(s)
    ensures Complete(s, s.cursor)
  {
    hide OkNetwork, From;
    NetFacts(s.net, s.tip, s.cursor);
  }

  lemma CompleteReach(s: State, upto: int)
    requires Inv(s) && Complete(s, upto)
    ensures From(s.net, upto) <= s.reach
  {
    hide OkNetwork, From;
    NetFacts(s.net, s.tip, upto);
    NetFacts(s.net, s.tip, s.first);
    var atReach := if s.reach < |s.net| then s.net[s.reach] in s.table else false;
  }

  lemma FromAppend(net: seq<Event>, es: seq<Event>, tip: int, tip': int, ledger: int)
    requires OkNetwork(net + es, tip') && OkNetwork(net, tip) && forall e :: e in es ==> e.ledger > tip
    ensures From(net + es, ledger) >= From(net, ledger)
    ensures ledger <= tip + 1 ==> From(net + es, ledger) == From(net, ledger)
  {
    hide OkNetwork, From;
    NetFacts(net + es, tip', ledger);
    NetFacts(net, tip, ledger);
    assert forall i :: 0 <= i < |net| ==> (net + es)[i] == net[i];
    assert forall i :: |net| <= i < |net + es| ==> (net + es)[i] == es[i - |net|] && es[i - |net|] in es;
    var k := From(net, ledger);
    var here := if k < |net + es| then (net + es)[k].ledger < ledger else false;
    var there := if From(net + es, ledger) < |net| then net[From(net + es, ledger)].ledger < ledger else false;
  }

  lemma AppendIsFresh(net: seq<Event>, es: seq<Event>, tip': int)
    requires OkNetwork(net + es, tip')
    ensures forall i :: |net| <= i < |net + es| ==> (net + es)[i] !in net
  {
    var net' := net + es;
    forall i | |net| <= i < |net'| ensures net'[i] !in net {
      assert forall j :: 0 <= j < |net| ==> net[j] == net'[j] && net'[j] != net'[i];
    }
  }

  lemma HoldsAppend(table: multiset<Event>, net: seq<Event>, es: seq<Event>, tip': int, first: int, reach: nat,
                    reach': nat)
    requires OkNetwork(net + es, tip') && Holds(table, net, first, reach) && reach <= |net|
    requires reach' == Max(reach, From(net + es, first))
    ensures Holds(table, net + es, first, reach')
  {
    hide From, OkNetwork;
    var net' := net + es;
    NetFacts(net', tip', first);
    AppendIsFresh(net, es, tip');
    assert forall i :: 0 <= i < |net| ==> net'[i] == net[i];
    forall e | e in table ensures e in net' {
      var j :| 0 <= j < |net| && net[j] == e;
      assert net'[j] == e;
    }
  }

  lemma SliceAppend(net: seq<Event>, es: seq<Event>, i: nat, j: nat)
    requires i <= j <= |net|
    ensures (net + es)[i..j] == net[i..j]
  {
  }

  lemma PassAppend(s: State, es: seq<Event>, tip: int)
    requires Inv(s) && s.pass.Some? && Enabled(s, Close(es, tip))
    ensures PassOk(s.(net := s.net + es, tip := tip, reach := Max(s.reach, From(s.net + es, s.first))), s.pass.value)
  {
    hide OkNetwork, From, Holds, Rows, Bounds;
    var p := s.pass.value;
    FromAppend(s.net, es, s.tip, tip, p.start);
    FromAppend(s.net, es, s.tip, tip, p.latest + 1);
    SliceAppend(s.net, es, p.at - |p.page|, p.at);
  }

  lemma CloseKeeps(s: State, es: seq<Event>, tip: int)
    requires Inv(s) && Enabled(s, Close(es, tip))
    ensures Inv(Next(s, Close(es, tip)))
  {
    hide OkNetwork, From, Holds, Rows, PassOk;
    FromAppend(s.net, es, s.tip, tip, s.first);
    FromAppend(s.net, es, s.tip, tip, s.cursor);
    HoldsAppend(s.table, s.net, es, tip, s.first, s.reach, Max(s.reach, From(s.net + es, s.first)));
    if s.pass.Some? { PassAppend(s, es, tip); }
  }

  lemma FetchKeeps(s: State)
    requires Inv(s) && Enabled(s, Fetch)
    ensures Inv(Next(s, Fetch))
  {
    hide OkNetwork, From, Holds, Rows;
    NetFacts(s.net, s.tip, s.tip + 1);
  }

  lemma HoldsInsert(unique: bool, table: multiset<Event>, net: seq<Event>, tip: int, first: int, reach: nat, j: nat)
    requires OkNetwork(net, tip) && Holds(table, net, first, reach) && j < |net| && j <= reach && net[j].ledger >= first
    ensures Holds(Insert(unique, table, net[j]), net, first, Max(reach, j + 1))
    ensures Rows(unique, table) ==> Rows(unique, Insert(unique, table, net[j]))
  {
    var table' := Insert(unique, table, net[j]);
    assert forall e :: e in table' <==> e in table || e == net[j];
  }

  lemma PageHead(net: seq<Event>, page: seq<Event>, at: nat)
    requires page != [] && |page| <= at <= |net| && page == net[at - |page|..at]
    ensures page[0] == net[at - |page|] && page[1..] == net[at - |page| + 1..at]
  {
  }

  lemma PassInsert(s: State)
    requires Inv(s) && Enabled(s, InsertOne)
    ensures PassOk(Next(s, InsertOne), Next(s, InsertOne).pass.value)
  {
    hide OkNetwork, From, Holds, Insert, Rows, Bounds;
    PageHead(s.net, s.pass.value.page, s.pass.value.at);
  }

  /** The event about to be inserted stands at a position the table has already reached, at or above the cursor. */
  lemma NextInsert(s: State) returns (j: nat)
    requires Inv(s) && Enabled(s, InsertOne)
    ensures j == s.pass.value.at - |s.pass.value.page| && j < |s.net| && j <= s.reach
    ensures s.pass.value.page[0] == s.net[j] && s.net[j].ledger >= s.cursor
  {
    hide OkNetwork, From, Holds, Insert, Rows;
    var p := s.pass.value;
    PageHead(s.net, p.page, p.at);
    NetFacts(s.net, s.tip, p.start);
    j := p.at - |p.page|;
  }

  lemma InsertKeeps(s: State)
    requires Inv(s) && Enabled(s, InsertOne)
    ensures Inv(Next(s, InsertOne))
  {
    hide OkNetwork, From, Holds, Insert, Rows, PassOk;
    PassInsert(s);
    var j := NextInsert(s);
    HoldsInsert(s.unique, s.table, s.net, s.tip, s.first, s.reach, j);
  }

  lemma EndPassKeeps(s: State)
    requires Inv(s) && Enabled(s, EndPass)
    ensures Inv(Next(s, EndPass))
  {
    hide OkNetwork, From, Holds, Rows;
  }

  lemma MaxLedgerFacts(s: State)
    requires Inv(s) && MaxLedger(s) > 0
    ensures s.first <= MaxLedger(s) <= s.tip
    ensures exists j :: 0 <= j < s.reach && j < |s.net| && s.net[j].ledger == MaxLedger(s)
  {
    hide From;
    MaxLedgerIs(s);
    hide MaxLedger;
    var m := MaxLedger(s);
    assert s.table != multiset{};
    var e :| e in s.table && e.ledger == m;
    var j :| 0 <= j < |s.net| && s.net[j] == e;
    assert j < s.reach;
  }

  /** Everything below the highest stored ledger is stored. */
  lemma CompleteBelowMax(s: State)
    requires Inv(s)
    ensures Complete(s, MaxLedger(s))
  {
    hide From;
    MaxLedgerIs(s);
    var m := MaxLedger(s);
    if s.table != multiset{} {
      var e :| e in s.table && e.ledger == m;
      var j :| 0 <= j < |s.net| && s.net[j] == e;
      assert j < s.reach;
      NetFacts(s.net, s.tip, m);
    }
  }

  lemma AheadIsComplete(s: State, upto: int)
    requires Inv(s)
    ensures Complete(s, upto) <==> StoredAhead(s, upto)
  {
    InvIsComplete(s);
    hide OkNetwork, From, Rows, Holds, PassOk;
  }

  /** A ledger up to the cursor, or up to the highest stored ledger, has nothing unstored below it. */
  lemma StoredUpTo(s: State, upto: int)
    requires Inv(s) && (upto <= s.cursor || upto <= MaxLedger(s))
    ensures StoredAhead(s, upto)
  {
    CompleteBelowMax(s);
    AheadIsComplete(s, upto);
    InvIsComplete(s);
    hide Inv;
  }

  lemma FullMaxIsComplete(s: State)
    requires Inv(s)
    ensures Complete(s, MaxLedger(s) + 1) <==> s.first <= MaxLedger(s) ==> MaxLedgerFull(s)
  {
    CompleteBelowMax(s);
    hide Inv, MaxLedger;
  }

  lemma StoredPositive(s: State)
    requires Inv(s)
    ensures forall e :: e in s.table ==> e.ledger > 0
  {
    hide From, PassOk, Rows, Bounds;
    forall e | e in s.table ensures e.ledger > 0 {
      var j :| 0 <= j < |s.net| && s.net[j] == e;
    }
  }

  /** Every stored ledger is positive, so that a maximum of 0 means an empty table. */
  lemma EmptyTable(s: State)
    requires Inv(s) && MaxLedger(s) <= 0
    ensures s.table == multiset{} && MaxLedger(s) == 0
  {
    MaxLedgerIs(s);
    StoredPositive(s);
    hide Inv, MaxLedger;
  }

  lemma RestartNext(s: State, start: int)
    ensures var m, s' := MaxLedger(s), Next(s, Restart(start));
            s' == if m > 0 then s.(cursor := m + 1, pass := None)
                  else s.(cursor := start, first := Min(s.first, start), pass := None, reach := From(s.net, start))
  {
    hide MaxLedger, From;
  }

  lemma RestartKeeps(s: State, start: int)
    requires Inv(s) && Settled(s, Restart(start))
    ensures Inv(Next(s, Restart(start)))
  {
    RestartNext(s, start);
    if MaxLedger(s) > 0 {
      MaxKeeps(s);
    } else {
      EmptyTable(s);
      StartKeeps(s, start);
    }
    hide Inv, Next, MaxLedger;
  }

  lemma MaxKeeps(s: State)
    requires Inv(s) && MaxLedger(s) > 0 && MaxLedgerFull(s)
    ensures Inv(s.(cursor := MaxLedger(s) + 1, pass := None))
  {
    var m := MaxLedger(s);
    assert Complete(s, m + 1) by { FullMaxIsComplete(s); }
    CompleteReach(s, m + 1);
    MaxLedgerFacts(s);
    hide OkNetwork, From, Holds, Rows, Complete, MaxLedger, MaxLedgerFull, PassOk;
  }

  lemma StartKeeps(s: State, start: int)
    requires Inv(s) && s.table == multiset{}
    requires start <= s.first || (start <= s.tip + 1 && NoneBetween(s, start))
    ensures Inv(s.(cursor := start, first := Min(s.first, start), pass := None, reach := From(s.net, start)))
  {
    NetFacts(s.net, s.tip, start);
    FromMonotone(s.net, Min(s.first, start), start);
    hide OkNetwork, From, PassOk;
  }

  lemma SamePrefix(net: seq<Event>, net': seq<Event>, k: nat)
    requires k <= |net| && k <= |net'| && net[..k] == net'[..k]
    ensures forall i :: 0 <= i < k ==> net[i] == net'[i]
  {
    forall i | 0 <= i < k ensures net[i] == net'[i] { assert net[..k][i] == net'[..k][i]; }
  }

  lemma HoldsBelow(s: State, fork: int, net: seq<Event>, tip: int)
    requires Inv(s) && Enabled(s, Rewind(fork, net, tip)) && Complete(s, fork)
    ensures Holds(Below(s.table, fork), net, Min(s.first, fork), From(net, fork))
  {
    hide OkNetwork, From, Bounds, PassOk, Rows, Holds, Complete;
    NetFacts(s.net, s.tip, fork);
    NetFacts(net, tip, fork);
    SamePrefix(net, s.net, From(net, fork));
    HoldsPrefix(s, fork, net, From(net, fork));
  }

  lemma HoldsPrefix(s: State, fork: int, net: seq<Event>, k: nat)
    requires Holds(s.table, s.net, s.first, s.reach) && Complete(s, fork)
    requires k <= |net| && k <= |s.net| && forall i :: 0 <= i < k ==> net[i] == s.net[i]
    requires forall i :: 0 <= i < |s.net| ==> (s.net[i].ledger < fork <==> i < k)
    requires forall i :: 0 <= i < |net| ==> (net[i].ledger < fork <==> i < k)
    ensures Holds(Below(s.table, fork), net, Min(s.first, fork), k)
  {
    BelowMembers(s.table, fork);
    hide Below;
    KeptPrefix(s, fork, net, k, Below(s.table, fork));
  }

  lemma KeptPrefix(s: State, fork: int, net: seq<Event>, k: nat, table: multiset<Event>)
    requires Holds(s.table, s.net, s.first, s.reach) && Complete(s, fork)
    requires k <= |net| && k <= |s.net| && forall i :: 0 <= i < k ==> net[i] == s.net[i]
    requires forall i :: 0 <= i < |s.net| ==> (s.net[i].ledger < fork <==> i < k)
    requires forall i :: 0 <= i < |net| ==> (net[i].ledger < fork <==> i < k)
    requires forall e :: e in table <==> e in s.table && e.ledger < fork
    ensures Holds(table, net, Min(s.first, fork), k)
  {
    var first := Min(s.first, fork);
    forall i | 0 <= i < |net| && net[i].ledger >= first ensures net[i] in table <==> i < k {
      if i < k { assert s.net[i] in s.table; }
    }
    forall e | e in table ensures e in net && e.ledger >= first {
      assert e in s.table && e.ledger < fork;
      var j :| 0 <= j < |s.net| && s.net[j] == e;
      assert net[j] == e;
    }
  }

  lemma FromMonotone(net: seq<Event>, a: int, b: int)
    requires a <= b
    ensures From(net, a) <= From(net, b)
  {
  }

  lemma RewindRows(s: State, fork: int, net: seq<Event>, tip: int)
    requires Enabled(s, Rewind(fork, net, tip)) && Rows(s.unique, s.table)
    ensures Rows(s.unique, Next(s, Rewind(fork, net, tip)).table)
  {
    BelowIs(s.table, fork);
    hide Below, From, OkNetwork;
  }

  lemma RewindKeeps(s: State, fork: int, net: seq<Event>, tip: int)
    requires Inv(s) && Enabled(s, Rewind(fork, net, tip)) && Settled(s, Rewind(fork, net, tip))
    ensures Inv(Next(s, Rewind(fork, net, tip)))
  {
    RewindNext(s, fork, net, tip);
    RewindRows(s, fork, net, tip);
    AheadIsComplete(s, fork);
    hide OkNetwork, From, Holds, Complete, StoredAhead, Below, Rows;
    HoldsBelow(s, fork, net, tip);
    NetFacts(net, tip, fork);
    FromMonotone(net, Min(s.first, fork), fork);
  }

  lemma InvKept(s: State, step: Step)
    requires Inv(s) && Enabled(s, step) && Settled(s, step)
    ensures Inv(Next(s, step))
  {
    match step
    case Close(es, tip) => CloseKeeps(s, es, tip);
    case Fetch => FetchKeeps(s);
    case InsertOne => InsertKeeps(s);
    case EndPass => EndPassKeeps(s);
    case SaveCursor =>
    case FailPass =>
    case Restart(start) => RestartKeeps(s, start);
    case Rewind(fork, net, tip) => RewindKeeps(s, fork, net, tip);
  }

  ghost predicate IsRun(states: seq<State>, steps: seq<Step>) {
    && |states| == |steps| + 1
    && (exists net, tip, first, unique :: OkNetwork(net, tip) && states[0] == Start(net, tip, first, unique))
    && forall n :: 0 <= n < |steps| ==> Enabled(states[n], steps[n]) && states[n + 1] == Next(states[n], steps[n])
  }

  lemma {:induction false} RunInv(states: seq<State>, steps: seq<Step>, n: nat)
    requires IsRun(states, steps) && n < |states|
    requires forall k :: 0 <= k < n ==> Settled(states[k], steps[k])
    ensures Inv(states[n])
  {
    hide Inv, Next, Enabled, Settled;
    if n == 0 {
      var net, tip, first, unique :| OkNetwork(net, tip) && states[0] == Start(net, tip, first, unique);
      StartInv(net, tip, first, unique);
    } else {
      RunInv(states, steps, n - 1);
      InvKept(states[n - 1], steps[n - 1]);
    }
  }

  lemma StartInv(net: seq<Event>, tip: int, first: int, unique: bool)
    requires OkNetwork(net, tip)
    ensures Inv(Start(net, tip, first, unique))
  {
    FromSorted(net, first);
  }

  /**
   Indexing completeness: in every run, with passes failing anywhere, the network growing between pages and settled
   restarts and rewinds, every network event from the first cursor up to but excluding the cursor is in the table, the
   table holds nothing else than network events, and, if the table has a unique key, each of them once.
   */
  lemma NothingMissed(states: seq<State>, steps: seq<Step>, n: nat)
    requires IsRun(states, steps) && n < |states|
    requires forall k :: 0 <= k < n ==> Settled(states[k], steps[k])
    ensures Complete(states[n], states[n].cursor)
    ensures forall e :: e in states[n].table ==> e in states[n].net
    ensures states[n].unique ==> forall e :: states[n].table[e] <= 1
  {
    RunInv(states, steps, n);
    InvIsComplete(states[n]);
  }

  /* ----- the conditions are needed ----- */

  /** Whatever ledgers close next, nothing below the cursor is missing. */
  ghost predicate StaysComplete(s: State) {
    forall es, tip :: Enabled(s, Close(es, tip)) ==> Complete(Next(s, Close(es, tip)), s.cursor)
  }

  lemma {:induction false} FreshEvent(table: multiset<Event>, ledger: nat) returns (b: Event, n: nat)
    ensures b.ledger == ledger && b !in table && |b.id| == n
    ensures forall e :: e in table ==> |e.id| < n
    decreases |table|
  {
    if table == multiset{} {
      return Event(ledger, ""), 0;
    }
    var e :| e in table;
    var c, m := FreshEvent(table - multiset{e}, ledger);
    n := if |e.id| < m then m else |e.id| + 1;
    b := Event(ledger, seq(n, i => 'x'));
    assert forall x :: x in table ==> x in table - multiset{e} || x == e;
  }

  /** That is so exactly when it is complete now and the cursor is not ahead of the chain. */
  lemma StaysCompleteIff(s: State)
    requires OkNetwork(s.net, s.tip) && s.first <= s.cursor
    ensures StaysComplete(s) <==> Complete(s, s.cursor) && (s.cursor <= s.tip + 1 || s.cursor == s.first)
  {
    if StaysComplete(s) {
      StaysNeeds(s);
    }
    if Complete(s, s.cursor) && (s.cursor <= s.tip + 1 || s.cursor == s.first) {
      forall es, tip | Enabled(s, Close(es, tip)) ensures Complete(Next(s, Close(es, tip)), s.cursor) {
        CloseBeyond(s, es, tip);
      }
    }
    hide Complete, OkNetwork;
  }

  lemma StaysNeeds(s: State)
    requires OkNetwork(s.net, s.tip) && s.first <= s.cursor && StaysComplete(s)
    ensures Complete(s, s.cursor) && (s.cursor <= s.tip + 1 || s.cursor == s.first)
  {
    hide From;
    assert s.net + [] == s.net;
    assert Enabled(s, Close([], s.tip)) && Complete(Next(s, Close([], s.tip)), s.cursor);
    if s.cursor > s.tip + 1 && s.cursor != s.first {
      hide Complete;
      var b, _ := FreshEvent(s.table, Max(s.tip + 1, s.first));
      CloseAhead(s, b);
    }
  }

  lemma CloseBeyond(s: State, es: seq<Event>, tip: int)
    requires Complete(s, s.cursor) && (s.cursor <= s.tip + 1 || s.cursor == s.first) && Enabled(s, Close(es, tip))
    ensures Complete(Next(s, Close(es, tip)), s.cursor)
  {
    hide From, OkNetwork;
    var net := s.net + es;
    assert forall i :: 0 <= i < |s.net| ==> net[i] == s.net[i];
    forall i | |s.net| <= i < |net| ensures net[i].ledger >= s.first ==> net[i].ledger >= s.cursor {
      assert net[i] == es[i - |s.net|] && net[i] in es;
    }
  }

  /** A ledger that closes below the cursor is missed. */
  lemma CloseAhead(s: State, b: Event)
    requires OkNetwork(s.net, s.tip) && s.tip < b.ledger < s.cursor && s.first <= b.ledger && b !in s.table
    ensures Enabled(s, Close([b], b.ledger))
    ensures var t := Next(s, Close([b], b.ledger)); t.cursor == s.cursor && b !in t.table && !Complete(t, t.cursor)
  {
    hide From;
    var t := Next(s, Close([b], b.ledger));
    assert t.net[|s.net|] == b;
  }

  /**
   A restart leaves nothing missing below its cursor, now or later, exactly when it skips nothing.  Everything below the
   highest stored ledger always is complete.
   */
  lemma RestartCompleteIff(s: State, start: int)
    requires Inv(s)
    ensures StaysComplete(Next(s, Restart(start))) <==> NothingSkipped(s, start)
    ensures var s' := Next(s, Restart(start));
            Complete(s', s'.cursor) <==> if MaxLedger(s) > 0 then MaxLedgerFull(s) else NoneBetween(s, start)
  {
    hide Inv, MaxLedger, MaxLedgerFull, OkNetwork, Next, StaysComplete, Complete, NoneBetween;
    InvNetwork(s);
    var s' := Next(s, Restart(start));
    if MaxLedger(s) > 0 {
      RestartBehindMax(s, start);
      StaysCompleteIff(s');
    } else {
      RestartAtStart(s, start);
      StaysCompleteIff(s');
      NoneBefore(s, start);
    }
  }

  lemma NoneBefore(s: State, start: int)
    ensures start <= s.first ==> NoneBetween(s, start)
  {
  }

  lemma RestartBehindMax(s: State, start: int)
    requires Inv(s) && MaxLedger(s) > 0
    ensures var s' := Next(s, Restart(start));
            && s'.net == s.net && s'.tip == s.tip && s'.first <= s'.cursor <= s'.tip + 1
            && (Complete(s', s'.cursor) <==> MaxLedgerFull(s))
  {
    MaxLedgerFacts(s);
    FullMaxIsComplete(s);
    RestartNext(s, start);
    assert s.first <= MaxLedger(s) <= s.tip;
    hide Inv, MaxLedger, MaxLedgerFull, Next;
  }

  lemma RestartAtStart(s: State, start: int)
    requires Inv(s) && MaxLedger(s) <= 0
    ensures var s' := Next(s, Restart(start));
            && s'.net == s.net && s'.tip == s.tip && s'.cursor == start && s'.first == Min(s.first, start)
            && (Complete(s', s'.cursor) <==> NoneBetween(s, start))
  {
    EmptyTable(s);
    RestartNext(s, start);
    hide Inv, MaxLedger, Next;
  }

  /**
   Without START_LEDGER a restart on an empty table begins 100 ledgers behind the tip.  If every insert has failed until
   then, the events below are never indexed.
   */
  lemma RestartOnEmptyTableLosesEvents(tip: int, a: Event, tip': int, unique: bool)
    requires 0 <= tip < a.ledger < tip' - 100
    ensures var s := Start([], tip, tip - 100, unique);
            var s' := Next(Next(Next(Next(s, Close([a], tip')), Fetch), FailPass), Restart(tip' - 100));
            s'.cursor > a.ledger && a in s'.net && a !in s'.table && !Complete(s', s'.cursor)
  {
    var s := Start([], tip, tip - 100, unique);
    var s1 := Next(s, Close([a], tip'));
    assert From(s1.net, tip - 100) == 0;
    hide From;
    var s2 := Next(Next(s1, Fetch), FailPass);
    assert IsMaxLedger(multiset{}, 0);
    MaxLedgerIs(s2);
    hide MaxLedger;
    assert s2.net[0] == a && s2.table == multiset{};
  }

  /** Restarts on an empty table begin at `start`, and rewinds do not go below it. */
  ghost predicate FromFixedStart(s: State, step: Step, start: int) {
    match step
    case Restart(from) => from == start && (MaxLedger(s) > 0 ==> MaxLedgerFull(s))
    case Rewind(fork, _, _) => fork >= start && Settled(s, step)
    case _ => true
  }

  /**
   With START_LEDGER set every restart on an empty table begins there.  As long as no rewind goes below it, such a
   restart skips nothing, and nothing is missed.
   */
  lemma FixedStartMissesNothing(states: seq<State>, steps: seq<Step>, n: nat, start: int)
    requires IsRun(states, steps) && n < |states| && states[0].first == start
    requires forall k :: 0 <= k < n ==> FromFixedStart(states[k], steps[k], start)
    ensures states[n].first == start
    ensures forall k :: 0 <= k < n ==> Settled(states[k], steps[k])
    ensures Complete(states[n], states[n].cursor)
  {
    FixedStart(states, steps, n, start);
    NothingMissed(states, steps, n);
  }

  lemma {:induction false} FixedStart(states: seq<State>, steps: seq<Step>, n: nat, start: int)
    requires IsRun(states, steps) && n < |states| && states[0].first == start
    requires forall k :: 0 <= k < n ==> FromFixedStart(states[k], steps[k], start)
    ensures forall k :: 0 <= k <= n ==> states[k].first == start
    ensures forall k :: 0 <= k < n ==> Settled(states[k], steps[k])
  {
    hide MaxLedger, MaxLedgerFull, StoredAhead, From, OkNetwork, Insert, Below;
    if n > 0 {
      FixedStart(states, steps, n - 1, start);
      var s, step := states[n - 1], steps[n - 1];
      assert Enabled(s, step) && states[n] == Next(s, step);
    }
  }

  lemma RewindNext(s: State, fork: int, net: seq<Event>, tip: int)
    requires Enabled(s, Rewind(fork, net, tip))
    ensures var s' := Next(s, Rewind(fork, net, tip));
            s'.net == net && s'.first == Min(s.first, fork) && s'.cursor == fork && s'.pass == s.pass
    ensures forall e :: e in Next(s, Rewind(fork, net, tip)).table <==> e in s.table && e.ledger < fork
  {
    hide From, OkNetwork;
    BelowMembers(s.table, fork);
  }

  /** Below the fork the network is what it was. */
  lemma RewindPrefix(s: State, fork: int, net: seq<Event>, tip: int)
    requires Inv(s) && Enabled(s, Rewind(fork, net, tip))
    ensures forall i :: 0 <= i < |net| && net[i].ledger < fork ==> i < |s.net| && s.net[i] == net[i]
    ensures forall i :: 0 <= i < |s.net| && s.net[i].ledger < fork ==> i < |net| && s.net[i] == net[i]
  {
    var k := From(net, fork);
    NetFacts(s.net, s.tip, fork);
    NetFacts(net, tip, fork);
    SamePrefix(net, s.net, k);
    hide From, OkNetwork, Holds, PassOk, Rows;
  }

  /**
   A rewind between passes leaves the events below its cursor complete exactly when it skips no unstored event: always
   when it does not go forward, or not beyond the highest stored ledger.
   */
  lemma RewindCompleteIff(s: State, fork: int, net: seq<Event>, tip: int)
    requires Inv(s) && s.pass.None? && Enabled(s, Rewind(fork, net, tip))
    ensures var s' := Next(s, Rewind(fork, net, tip)); Complete(s', s'.cursor) <==> StoredAhead(s, fork)
    ensures fork <= s.cursor || fork <= MaxLedger(s) ==> StoredAhead(s, fork)
  {
    AheadIsComplete(s, fork);
    if fork <= s.cursor || fork <= MaxLedger(s) {
      StoredUpTo(s, fork);
    }
    RewindNext(s, fork, net, tip);
    RewindPrefix(s, fork, net, tip);
    hide Inv, StoredAhead, MaxLedger, Next, Enabled;
    SameBelow(s, Next(s, Rewind(fork, net, tip)), fork);
  }

  lemma SameBelow(s: State, s': State, fork: int)
    requires s'.first == Min(s.first, fork)
    requires forall i :: 0 <= i < |s'.net| && s'.net[i].ledger < fork ==> i < |s.net| && s.net[i] == s'.net[i]
    requires forall i :: 0 <= i < |s.net| && s.net[i].ledger < fork ==> i < |s'.net| && s.net[i] == s'.net[i]
    requires forall e :: e in s'.table <==> e in s.table && e.ledger < fork
    ensures Complete(s', fork) <==> Complete(s, fork)
  {
    if Complete(s', fork) {
      forall i | 0 <= i < |s.net| && s.first <= s.net[i].ledger < fork ensures s.net[i] in s.table {
        assert s'.net[i] in s'.table;
      }
    } else {
      var i :| 0 <= i < |s'.net| && s'.first <= s'.net[i].ledger < fork && s'.net[i] !in s'.table;
      assert s.net[i] == s'.net[i];
    }
  }

  lemma InvNetwork(s: State)
    requires Inv(s)
    ensures OkNetwork(s.net, s.tip)
  {
  }

  /** The cursor stored in daemon_state is never ahead of the table, unless a rewind has moved the cursor back. */
  lemma SavedCursorIsComplete(states: seq<State>, steps: seq<Step>, n: nat)
    requires IsRun(states, steps) && n < |states|
    requires forall k :: 0 <= k < n ==> Settled(states[k], steps[k]) && !steps[k].Rewind? && !steps[k].Restart?
    ensures states[n].saved.Some? ==>
              states[n].saved.value <= states[n].cursor && Complete(states[n], states[n].saved.value)
    ensures n > 0 && steps[n - 1].SaveCursor? ==> states[n].saved == Some(states[n].cursor)
  {
    if n > 0 {
      assert Enabled(states[n - 1], steps[n - 1]) && states[n] == Next(states[n - 1], steps[n - 1]);
    }
    RunInv(states, steps, n);
    InvIsComplete(states[n]);
    SavedBehind(states, steps, n);
  }

  lemma {:induction false} SavedBehind(states: seq<State>, steps: seq<Step>, n: nat)
    requires IsRun(states, steps) && n < |states|
    requires forall k :: 0 <= k < n ==> Settled(states[k], steps[k]) && !steps[k].Rewind? && !steps[k].Restart?
    ensures states[n].saved.Some? ==> states[n].saved.value <= states[n].cursor
  {
    hide From, OkNetwork, Holds, Rows, Settled;
    if n > 0 {
      SavedBehind(states, steps, n - 1);
      RunInv(states, steps, n - 1);
      var s, step := states[n - 1], steps[n - 1];
      assert Enabled(s, step) && states[n] == Next(s, step);
    }
  }

  /** A crash between two events of one ledger, and a restart behind that ledger: the second event is never indexed. */
  lemma CrashInsideLedgerLosesEvents()
    ensures var a, b := Event(5, "a"), Event(5, "b");
            var s := Next(Next(Start([a, b], 5, 1, true), Fetch), InsertOne);
            var s' := Next(s, Restart(1));
            s'.cursor == 6 && b !in s'.table && !Complete(s', s'.cursor)
  {
    var a, b := Event(5, "a"), Event(5, "b");
    var s0 := Start([a, b], 5, 1, true);
    assert From([a, b], 1) == 0;
    var s := Next(Next(s0, Fetch), InsertOne);
    assert s.pass.value.page == [a, b][0..2][1..];
    assert s.table == multiset{a};
    assert IsMaxLedger(multiset{a}, 5);
    assert MaxLedger(s) == 5;
    assert s.net[1] == b && b !in s.table;
  }

  lemma FetchOne(s: State)
    requires s.net == [Event(5, "a")] && s.tip == 5 && s.cursor == 5 && s.pass.None?
    ensures Next(s, Fetch) == s.(pass := Some(Pass(5, [Event(5, "a")], 1, false, 5)))
  {
    assert From(s.net, 5) == 0 && s.net[0..1] == s.net;
  }

  /** Without a unique key a pass that fails and is redone stores its events twice. */
  lemma RedonePassDuplicatesRows()
    ensures var a := Event(5, "a");
            var s := Next(Next(Start([a], 5, 5, false), Fetch), InsertOne);
            var s' := Next(Next(Next(Next(s, FailPass), Fetch), InsertOne), EndPass);
            s'.cursor == 6 && s'.table[a] == 2
  {
    hide From;
    var a := Event(5, "a");
    var s0 := Start([a], 5, 5, false);
    FetchOne(s0);
    var s1 := Next(Next(s0, Fetch), InsertOne);
    assert s1.table == multiset{a};
    var s2 := Next(s1, FailPass);
    FetchOne(s2);
  }

  /** The state when all that is left of the page has been inserted. */
  ghost function Drain(s: State): (t: State)
    requires s.pass.Some?
    ensures t.pass.Some? && t.pass.value == s.pass.value.(page := [])
    ensures t == s.(table := t.table, pass := t.pass, reach := t.reach)
    decreases if s.pass.Some? then |s.pass.value.page| else 0
  {
    if s.pass.value.page == [] then s else Drain(Next(s, InsertOne))
  }

  lemma {:induction false} DrainMembers(s: State)
    requires s.pass.Some?
    ensures forall e :: e in Drain(s).table <==> e in s.table || e in s.pass.value.page
    decreases if s.pass.Some? then |s.pass.value.page| else 0
  {
    var page := s.pass.value.page;
    if page != [] {
      var u := Next(s, InsertOne);
      DrainMembers(u);
      assert page == [page[0]] + page[1..];
      assert forall e :: e in u.table <==> e in s.table || e == page[0];
    }
  }

  /** The events of a last page, with those already stored, are all up to the latest ledger of the pass. */
  lemma PageCompletes(s: State, i: nat)
    requires Inv(s) && s.pass.Some? && !s.pass.value.full
    requires i < |s.net| && s.first <= s.net[i].ledger <= s.pass.value.latest
    ensures s.net[i] in s.table || s.net[i] in s.pass.value.page
  {
    hide OkNetwork, From;
    var p := s.pass.value;
    assert PassOk(s, p);
    assert i < s.reach ==> s.net[i] in s.table by { hide PassOk, Rows; }
    NetFacts(s.net, s.tip, p.latest + 1);
    hide Inv;
    OnPage(s.net, p.at - |p.page|, p.at, i);
  }

  lemma OnPage(net: seq<Event>, from: nat, to: nat, i: nat)
    requires from <= to <= |net|
    ensures from <= i < to ==> net[i] in net[from..to]
  {
    if from <= i < to {
      assert net[from..to][i - from] == net[i];
    }
  }

  /** A rewind during the last page of a pass, whose remaining events are then inserted, and the end of the pass. */
  ghost function RewoundPass(s: State, fork: int, net: seq<Event>, tip: int): State
    requires s.pass.Some? && !s.pass.value.full && Enabled(s, Rewind(fork, net, tip))
  {
    Next(Drain(Next(s, Rewind(fork, net, tip))), EndPass)
  }

  /** What was stored below the fork, and a page. */
  ghost predicate Refit(after: multiset<Event>, table: multiset<Event>, fork: int, page: seq<Event>) {
    forall e :: e in after <==> (e in table && e.ledger < fork) || e in page
  }

  lemma RewoundPassNext(s: State, fork: int, net: seq<Event>, tip: int)
    requires s.pass.Some? && !s.pass.value.full && Enabled(s, Rewind(fork, net, tip))
    ensures var s' := RewoundPass(s, fork, net, tip);
            && s'.net == net && s'.first == Min(s.first, fork) && s'.cursor == s.pass.value.latest + 1
            && Refit(s'.table, s.table, fork, s.pass.value.page)
  {
    var s1 := Next(s, Rewind(fork, net, tip));
    RewindNext(s, fork, net, tip);
    DrainMembers(s1);
    EndPassNext(Drain(s1));
    hide Drain, Next, Enabled;
  }

  lemma StoredOrOnPage(s: State, fork: int, net: seq<Event>, tip: int)
    requires Inv(s) && s.pass.Some? && !s.pass.value.full && Enabled(s, Rewind(fork, net, tip))
    ensures forall i :: 0 <= i < |net| && s.first <= net[i].ledger < fork && net[i].ledger <= s.pass.value.latest
              ==> net[i] in s.table || net[i] in s.pass.value.page
  {
    RewindPrefix(s, fork, net, tip);
    hide Inv, Enabled;
    forall i | 0 <= i < |net| && s.first <= net[i].ledger < fork && net[i].ledger <= s.pass.value.latest
      ensures net[i] in s.table || net[i] in s.pass.value.page
    {
      PageCompletes(s, i);
    }
  }

  /** For some value of the proof tag the invariant of the loop holds. */
  ghost predicate Sound(s: State) {
    exists reach: nat :: Inv(s.(reach := reach))
  }

  /**
   A rewind during the last page of a pass is undone when the pass ends.  What is below the cursor is then complete
   exactly when every event that the network now has from the fork up to the latest ledger of the pass was still to be
   inserted from the page: in particular when the fork lies above that ledger, and never when an event was replaced
   below it.  It stays complete exactly when besides the network reaches that ledger again; and all is as if there had
   been no rewind exactly when besides the page brings no event back that the network no longer has.
   */
  lemma RewindDuringPassIff(s: State, fork: int, net: seq<Event>, tip: int)
    requires Inv(s) && s.pass.Some? && !s.pass.value.full && Enabled(s, Rewind(fork, net, tip))
    ensures var p, s' := s.pass.value, RewoundPass(s, fork, net, tip);
            && s'.cursor == p.latest + 1
            && (Complete(s', s'.cursor) <==> Refilled(p, fork, net))
            && (StaysComplete(s') <==> Refilled(p, fork, net) && p.latest <= tip)
            && (Sound(s') <==> Refilled(p, fork, net) && p.latest <= tip && NoOrphans(p, fork, net))
  {
    var s' := RewoundPass(s, fork, net, tip);
    RewoundPassNext(s, fork, net, tip);
    StoredOrOnPage(s, fork, net, tip);
    RefilledBelow(s, s', fork, s.pass.value.latest, s.pass.value.page);
    RewoundBounds(s, fork, net, tip);
    StaysCompleteIff(s');
    RewoundSound(s, fork, net, tip);
    hide Inv, RewoundPass, Enabled, Complete, StaysComplete, OkNetwork, NoOrphans, Refilled, Sound;
  }

  ghost predicate Refilled(p: Pass, fork: int, net: seq<Event>) {
    forall i :: 0 <= i < |net| && fork <= net[i].ledger <= p.latest ==> net[i] in p.page
  }

  ghost predicate NoOrphans(p: Pass, fork: int, net: seq<Event>) {
    forall e :: e in p.page && fork <= e.ledger ==> e in net
  }

  lemma PassBounds(s: State)
    requires Inv(s) && s.pass.Some?
    ensures s.first <= s.pass.value.latest + 1
  {
    hide OkNetwork, From, Holds, Rows;
  }

  lemma RewoundFields(s: State, fork: int, net: seq<Event>, tip: int)
    requires s.pass.Some? && !s.pass.value.full && Enabled(s, Rewind(fork, net, tip))
    ensures var s' := RewoundPass(s, fork, net, tip); s'.tip == tip && s'.unique == s.unique && s'.pass.None?
  {
    hide OkNetwork, From, Below, Drain;
  }

  lemma RewoundBounds(s: State, fork: int, net: seq<Event>, tip: int)
    requires Inv(s) && s.pass.Some? && !s.pass.value.full && Enabled(s, Rewind(fork, net, tip))
    ensures var s' := RewoundPass(s, fork, net, tip);
            && OkNetwork(s'.net, s'.tip) && s'.tip == tip && s'.unique == s.unique && s'.pass.None?
            && s'.first <= fork <= tip + 1 && s'.first <= s'.cursor
            && (s'.cursor == s'.first ==> s.pass.value.latest <= tip)
  {
    hide Inv, OkNetwork, From, RewoundPass;
    RewoundPassNext(s, fork, net, tip);
    RewoundFields(s, fork, net, tip);
    PassBounds(s);
    hide Refit;
  }

  /** The stored events after such a pass are a prefix of the network's again. */
  lemma RewoundSound(s: State, fork: int, net: seq<Event>, tip: int)
    requires Inv(s) && s.pass.Some? && !s.pass.value.full && Enabled(s, Rewind(fork, net, tip))
    ensures var p := s.pass.value;
            Sound(RewoundPass(s, fork, net, tip))
            <==> Refilled(p, fork, net) && p.latest <= tip && NoOrphans(p, fork, net)
  {
    var p, s' := s.pass.value, RewoundPass(s, fork, net, tip);
    RewoundPassNext(s, fork, net, tip);
    RewoundBounds(s, fork, net, tip);
    if Sound(s') {
      var reach: nat :| Inv(s'.(reach := reach));
      SoundIsRefilled(s, s', fork, reach);
    }
    if Refilled(p, fork, net) && p.latest <= tip && NoOrphans(p, fork, net) {
      var reach := RewoundReach(s, fork, net);
      RewoundHolds(s, s', fork, net, tip);
      RewoundRows(s, fork, net, tip);
      assert Inv(s'.(reach := reach));
    }
  }

  lemma SoundIsRefilled(s: State, s': State, fork: int, reach: nat)
    requires s.pass.Some? && Inv(s'.(reach := reach)) && s'.first <= fork && s'.cursor == s.pass.value.latest + 1
    requires Refit(s'.table, s.table, fork, s.pass.value.page)
    ensures Refilled(s.pass.value, fork, s'.net) && NoOrphans(s.pass.value, fork, s'.net)
    ensures s'.cursor <= s'.tip + 1 || s'.cursor == s'.first
  {
    InvIsComplete(s'.(reach := reach));
    hide OkNetwork, From, PassOk, Rows;
    forall i | 0 <= i < |s'.net| && fork <= s'.net[i].ledger <= s.pass.value.latest
      ensures s'.net[i] in s.pass.value.page
    {
      assert s'.net[i] in s'.table;
    }
  }

  ghost function RewoundReach(s: State, fork: int, net: seq<Event>): nat
    requires s.pass.Some?
  {
    var p := s.pass.value;
    if fork <= p.latest then From(net, p.latest + 1) else Min(Max(s.reach, p.at), From(net, fork))
  }

  /** The events of a page, as places in the network. */
  lemma PagePlaces(s: State, e: Event) returns (j: nat)
    requires Inv(s) && s.pass.Some? && e in s.pass.value.page
    ensures s.pass.value.at - |s.pass.value.page| <= j < s.pass.value.at <= |s.net| && s.net[j] == e
    ensures s.first <= e.ledger <= s.pass.value.latest
  {
    hide OkNetwork, From, Holds, Rows;
    var p := s.pass.value;
    NetFacts(s.net, s.tip, p.start);
    var k :| 0 <= k < |p.page| && p.page[k] == e;
    j := p.at - |p.page| + k;
  }

  /** An event below the fork that was stored or on the page is in the new network at its old place. */
  lemma KeptPlace(s: State, fork: int, net: seq<Event>, tip: int, e: Event) returns (j: nat)
    requires Inv(s) && s.pass.Some? && Enabled(s, Rewind(fork, net, tip)) && e.ledger < fork
    requires e in s.table || e in s.pass.value.page
    ensures j < |net| && j < |s.net| && net[j] == s.net[j] == e && s.first <= e.ledger
    ensures e in s.table ==> j < s.reach
    ensures e !in s.table ==> s.pass.value.at - |s.pass.value.page| <= j < s.pass.value.at
  {
    RewindPrefix(s, fork, net, tip);
    if e in s.table {
      StoredPlace(s, e);
      j :| 0 <= j < |s.net| && j < s.reach && s.net[j] == e;
    } else {
      j := PagePlaces(s, e);
    }
    hide Inv, Enabled;
  }

  lemma StoredPlace(s: State, e: Event)
    requires Inv(s) && e in s.table
    ensures exists j :: 0 <= j < |s.net| && j < s.reach && s.net[j] == e
    ensures s.first <= e.ledger
  {
    hide OkNetwork, From, PassOk, Rows;
    var j :| 0 <= j < |s.net| && s.net[j] == e;
  }

  /** After a fork within the pass: what is stored are the events up to its latest ledger. */
  lemma RewoundUpTo(s: State, s': State, fork: int, net: seq<Event>, tip: int)
    requires Inv(s) && s.pass.Some? && !s.pass.value.full && Enabled(s, Rewind(fork, net, tip))
    requires fork <= s.pass.value.latest && s'.net == net && s'.first == Min(s.first, fork)
    requires Refit(s'.table, s.table, fork, s.pass.value.page)
    requires Refilled(s.pass.value, fork, net) && NoOrphans(s.pass.value, fork, net)
    ensures Holds(s'.table, net, s'.first, From(net, s.pass.value.latest + 1))
  {
    hide Inv, From, OkNetwork;
    var p := s.pass.value;
    StoredOrOnPage(s, fork, net, tip);
    forall e | e in s'.table ensures e in net && s'.first <= e.ledger <= p.latest {
      if e in p.page {
        var _ := PagePlaces(s, e);
      }
      if e.ledger < fork {
        var _ := KeptPlace(s, fork, net, tip, e);
      }
    }
    NetFacts(net, tip, p.latest + 1);
  }

  /** After a fork above it: what was stored below the fork, and the page. */
  lemma RewoundAbove(s: State, s': State, fork: int, net: seq<Event>, tip: int)
    requires Inv(s) && s.pass.Some? && !s.pass.value.full && Enabled(s, Rewind(fork, net, tip))
    requires fork > s.pass.value.latest && s'.net == net && s'.first == Min(s.first, fork)
    requires Refit(s'.table, s.table, fork, s.pass.value.page)
    ensures Holds(s'.table, net, s'.first, Min(Max(s.reach, s.pass.value.at), From(net, fork)))
  {
    hide Inv, From, OkNetwork;
    var p, r := s.pass.value, Min(Max(s.reach, s.pass.value.at), From(net, fork));
    NetFacts(net, tip, fork);
    RewindPrefix(s, fork, net, tip);
    forall e | e in s'.table ensures e in net && e.ledger >= s'.first {
      var j := RewoundPlace(s, s', fork, net, tip, e);
    }
    forall i | 0 <= i < |net| && net[i].ledger >= s'.first ensures net[i] in s'.table <==> i < r {
      if net[i] in s'.table {
        var j := RewoundPlace(s, s', fork, net, tip, net[i]);
        SamePlace(net, tip, i, j);
      }
      if i < r {
        assert net[i] == s.net[i];
        BeforeReach(s, i);
      }
    }
  }

  lemma SamePlace(net: seq<Event>, tip: int, i: nat, j: nat)
    requires OkNetwork(net, tip) && i < |net| && j < |net| && net[i] == net[j]
    ensures i == j
  {
  }

  lemma RewoundPlace(s: State, s': State, fork: int, net: seq<Event>, tip: int, e: Event) returns (j: nat)
    requires Inv(s) && s.pass.Some? && !s.pass.value.full && Enabled(s, Rewind(fork, net, tip))
    requires fork > s.pass.value.latest && e in s'.table
    requires Refit(s'.table, s.table, fork, s.pass.value.page)
    ensures j < |net| && net[j] == e && s.first <= e.ledger
    ensures j < Min(Max(s.reach, s.pass.value.at), From(net, fork))
  {
    hide Inv, From, OkNetwork;
    if e in s.pass.value.page {
      var _ := PagePlaces(s, e);
    }
    j := KeptPlace(s, fork, net, tip, e);
    NetFacts(net, tip, fork);
  }

  lemma BeforeReach(s: State, i: nat)
    requires Inv(s) && s.pass.Some? && i < |s.net| && s.net[i].ledger >= s.first && i < Max(s.reach, s.pass.value.at)
    ensures s.net[i] in s.table || s.net[i] in s.pass.value.page
  {
    hide OkNetwork, From, Rows;
    var p := s.pass.value;
    if i >= s.reach {
      OnPage(s.net, p.at - |p.page|, p.at, i);
    }
  }

  lemma RewoundHolds(s: State, s': State, fork: int, net: seq<Event>, tip: int)
    requires Inv(s) && s.pass.Some? && !s.pass.value.full && Enabled(s, Rewind(fork, net, tip))
    requires s'.net == net && s'.first == Min(s.first, fork) && s'.cursor == s.pass.value.latest + 1
    requires s'.first <= s'.cursor
    requires Refit(s'.table, s.table, fork, s.pass.value.page)
    requires Refilled(s.pass.value, fork, net) && NoOrphans(s.pass.value, fork, net)
    ensures var reach := RewoundReach(s, fork, net);
            Holds(s'.table, net, s'.first, reach) && From(net, s'.first) <= From(net, s'.cursor) <= reach <= |net|
  {
    FromMonotone(net, s'.first, s'.cursor);
    if fork <= s.pass.value.latest {
      RewoundUpTo(s, s', fork, net, tip);
    } else {
      RewoundAbove(s, s', fork, net, tip);
      FromMonotone(net, s'.cursor, fork);
      PassEndsBefore(s, fork, net, tip);
    }
    hide Inv, From, Holds, Refilled, NoOrphans;
  }

  lemma PassEndsBefore(s: State, fork: int, net: seq<Event>, tip: int)
    requires Inv(s) && s.pass.Some? && !s.pass.value.full && Enabled(s, Rewind(fork, net, tip))
    requires fork > s.pass.value.latest
    ensures From(net, s.pass.value.latest + 1) <= s.pass.value.at
  {
    var p := s.pass.value;
    NetFacts(s.net, s.tip, p.latest + 1);
    NetFacts(net, tip, p.latest + 1);
    RewindPrefix(s, fork, net, tip);
    var k := From(net, p.latest + 1);
    assert PassOk(s, p);
    hide Inv, From, OkNetwork, Enabled;
    assert forall i :: 0 <= i < k ==> net[i].ledger <= p.latest && i < |s.net| && s.net[i] == net[i];
    var last := if k > 0 then k - 1 < From(s.net, p.latest + 1) else true;
  }

  lemma {:induction false} DrainRows(s: State)
    requires s.pass.Some? && Rows(s.unique, s.table)
    ensures Rows(s.unique, Drain(s).table)
    decreases if s.pass.Some? then |s.pass.value.page| else 0
  {
    if s.pass.value.page != [] {
      DrainRows(Next(s, InsertOne));
    }
  }

  lemma RewoundRows(s: State, fork: int, net: seq<Event>, tip: int)
    requires Inv(s) && s.pass.Some? && !s.pass.value.full && Enabled(s, Rewind(fork, net, tip))
    ensures Rows(s.unique, RewoundPass(s, fork, net, tip).table)
  {
    var s1 := Next(s, Rewind(fork, net, tip));
    assert s1.unique == s.unique && s1.pass == s.pass by { hide Below, From, Inv; }
    assert Rows(s.unique, s.table) by { hide OkNetwork, Bounds, Holds, PassOk, Rows; }
    hide Inv, From, OkNetwork, Next, Rows, Drain, Enabled;
    RewindRows(s, fork, net, tip);
    DrainRows(s1);
    EndPassNext(Drain(s1));
  }

  lemma RefilledBelow(s: State, s': State, fork: int, latest: int, page: seq<Event>)
    requires s'.first == Min(s.first, fork)
    requires Refit(s'.table, s.table, fork, page)
    requires forall i :: 0 <= i < |s'.net| && s.first <= s'.net[i].ledger < fork && s'.net[i].ledger <= latest
               ==> s'.net[i] in s.table || s'.net[i] in page
    ensures Complete(s', latest + 1) <==>
            forall i :: 0 <= i < |s'.net| && fork <= s'.net[i].ledger <= latest ==> s'.net[i] in page
  {
    if Complete(s', latest + 1) {
      forall i | 0 <= i < |s'.net| && fork <= s'.net[i].ledger <= latest ensures s'.net[i] in page {
        assert s'.net[i] in s'.table;
      }
    }
  }

  lemma EndPassNext(s: State)
    requires Enabled(s, EndPass)
    ensures var s' := Next(s, EndPass);
            s'.net == s.net && s'.first == s.first && s'.table == s.table && s'.cursor == s.pass.value.latest + 1
  {
  }

  /** While the new chain is shorter than the pass was, the ledgers that close before the old tip are missed. */
  lemma RewindOntoShorterChainLosesEvents(s: State, fork: int, net: seq<Event>, tip: int, b: Event)
    requires Inv(s) && s.pass.Some? && !s.pass.value.full && Enabled(s, Rewind(fork, net, tip))
    requires tip < b.ledger <= s.pass.value.latest && b !in s.pass.value.page
    ensures var s' := RewoundPass(s, fork, net, tip);
            && Enabled(s', Close([b], b.ledger))
            && var t := Next(s', Close([b], b.ledger)); b.ledger < t.cursor && b !in t.table && !Complete(t, t.cursor)
  {
    hide Inv, OkNetwork, RewoundPass, Complete;
    RewoundPassNext(s, fork, net, tip);
    RewoundBounds(s, fork, net, tip);
    CloseAhead(RewoundPass(s, fork, net, tip), b);
  }

  /** A run of that kind: the event that replaces the orphaned one is never indexed. */
  lemma RewindDuringPassIsLost()
    ensures var a, b := Event(5, "a"), Event(5, "b");
            var s := Next(Next(Start([a], 5, 5, true), Fetch), InsertOne);
            var s' := Next(Next(s, Rewind(5, [b], 5)), EndPass);
            s'.cursor == 6 && b !in s'.table && !Complete(s', s'.cursor)
  {
    var a, b := Event(5, "a"), Event(5, "b");
    assert From([a], 5) == 0 && From([b], 5) == 0;
    hide From;
    var s0 := Start([a], 5, 5, true);
    FetchOne(s0);
    var s := Next(Next(s0, Fetch), InsertOne);
    var s1 := Next(s, Rewind(5, [b], 5));
    BelowIs(s.table, 5);
    hide Below;
    assert s1.table[b] == 0 && s1.net[0] == b;
  }

  /**
   The loop records the hash of the latest ledger after each page, with further pages to come.  If the pass fails
   there and that ledger is then found orphaned, the rewind moves the cursor forward over the events of the pages that
   were not read.
   */
  lemma RewindOverGapLosesEvents(s: State, net: seq<Event>, tip: int)
    requires Inv(s) && s.pass.Some? && s.pass.value.page == [] && s.pass.value.full && s.pass.value.at < |s.net|
    requires var e, fork := s.net[s.pass.value.at], s.pass.value.latest;
             s.first <= e.ledger < fork && e !in s.table && Enabled(s, Rewind(fork, net, tip))
    ensures var e, fork := s.net[s.pass.value.at], s.pass.value.latest;
            var s' := Next(Next(s, FailPass), Rewind(fork, net, tip));
            s'.cursor == fork && e in s'.net && e !in s'.table && !Complete(s', s'.cursor)
  {
    hide Inv, From, OkNetwork, Below;
    var at, fork := s.pass.value.at, s.pass.value.latest;
    var s' := Next(Next(s, FailPass), Rewind(fork, net, tip));
    assert s'.cursor == fork && s'.net == net && s'.first <= s.first && s'.table == Below(s.table, fork);
    assert at < From(s.net, fork) by {
      InvNetwork(s);
      NetFacts(s.net, s.tip, fork);
    }
    SameAt(net, s.net, From(s.net, fork), at);
    BelowMembers(s.table, fork);
    hide Next, Enabled;
    assert net[at] !in s'.table;
  }

  lemma SameAt(a: seq<Event>, b: seq<Event>, k: nat, i: nat)
    requires i < k <= |a| && k <= |b| && a[..k] == b[..k]
    ensures a[i] == b[i]
  {
    assert a[..k][i] == b[..k][i];
  }

  /* ----- the loops of one pass, on a network that stands still ----- */

  lemma InsertNext(unique: bool, table: multiset<Event>, todo: seq<Event>, n: nat)
    requires n < |todo|
    ensures InsertAll(unique, table, todo[..n + 1]) == Insert(unique, InsertAll(unique, table, todo[..n]), todo[n])
  {
    assert todo[..n + 1][..n] == todo[..n];
  }

  /** The module state of the daemon: `_cursor`, the events table and the persisted cursor. */
  class Daemon {
    const unique: bool
    var cursor: int
    var saved: Option<int>
    var table: multiset<Event>

    /**
     A start on the table and the stored cursor that the last process left: behind the highest stored ledger, or, if
     nothing is stored, at START_LEDGER, or 100 ledgers behind the latest one if that is 0.
     */
    constructor (unique: bool, table: multiset<Event>, saved: Option<int>, dbMax: int, startLedger: nat, latest: nat)
      requires IsMaxLedger(table, dbMax)
      ensures this.unique == unique && this.table == table && this.saved == saved
      ensures cursor == if dbMax > 0 then dbMax + 1 else if startLedger > 0 then startLedger else latest - 100
    {
      this.unique, this.table, this.saved := unique, table, saved;
      cursor := if dbMax > 0 then dbMax + 1 else if startLedger != 0 then startLedger else latest - 100;
    }

    /**
     `indexLedger`: page by page, event by event.  The store accepts `budget` inserts before it starts to throw.
     */
    method IndexLedger(net: seq<Event>, tip: int, ledger: int, budget: nat) returns (ok: bool, latest: int)
      modifies this`table
      ensures ok <==> |net| - From(net, ledger) <= budget
      ensures ok ==> latest == tip && table == InsertAll(unique, old(table), net[From(net, ledger)..])
      ensures !ok ==> table == InsertAll(unique, old(table), net[From(net, ledger)..][..budget])
    {
      hide From, Insert;
      ghost var begin := From(net, ledger);
      ghost var todo := net[begin..];
      latest := ledger;
      var inserted := 0;
      var at := From(net, ledger);
      var more := true;
      while more
        invariant begin <= at <= |net| && inserted == at - begin <= budget
        invariant table == InsertAll(unique, old(table), todo[..inserted])
        invariant !more ==> at == |net| && latest == tip
        decreases |net| - at, more
      {
        var end := if at + PAGE_LIMIT < |net| then at + PAGE_LIMIT else |net|;
        var events := net[at..end];
        latest := tip;
        for i := 0 to |events|
          invariant inserted == at + i - begin <= budget
          invariant table == InsertAll(unique, old(table), todo[..inserted])
        {
          if inserted == budget { return false, latest; }
          InsertNext(unique, old(table), todo, inserted);
          table := Insert(unique, table, events[i]);
          inserted := inserted + 1;
        }
        more := |events| == PAGE_LIMIT;
        at := end;
      }
      assert todo[..inserted] == todo;
      return true, latest;
    }

    /**
     One turn of the loop in `run`: the cursor moves only if the whole pass succeeded, and it has moved even if the
     database then refuses to store it.
     */
    method Turn(net: seq<Event>, tip: int, budget: nat, saveOk: bool) returns (ok: bool)
      modifies this
      ensures ok <==> |net| - From(net, old(cursor)) <= budget
      ensures ok ==> cursor == tip + 1 && saved == (if saveOk then Some(tip + 1) else old(saved))
                     && table == InsertAll(unique, old(table), net[From(net, old(cursor))..])
      ensures !ok ==> cursor == old(cursor) && saved == old(saved)
                      && table == InsertAll(unique, old(table), net[From(net, old(cursor))..][..budget])
    {
      var latest;
      ok, latest := IndexLedger(net, tip, cursor, budget);
      if ok {
        cursor := latest + 1;
        if saveOk {
          saved := Some(cursor);
        }
      }
    }
  }

  /* ----- a turn of the daemon as steps ----- */

  ghost predicate Path(s: State, steps: seq<Step>, t: State)
    decreases |steps|
  {
    if steps == [] then s == t else Enabled(s, steps[0]) && Path(Next(s, steps[0]), steps[1..], t)
  }

  predicate OfTurn(steps: seq<Step>) {
    forall k :: 0 <= k < |steps| ==> steps[k].Fetch? || steps[k].InsertOne? || steps[k].EndPass? || steps[k].FailPass?
  }

  lemma PathCons(s: State, step: Step, steps: seq<Step>, t: State)
    requires Enabled(s, step) && Path(Next(s, step), steps, t) && OfTurn([step]) && OfTurn(steps)
    ensures Path(s, [step] + steps, t) && OfTurn([step] + steps)
  {
    hide Next, Enabled;
    assert ([step] + steps)[1..] == steps;
  }

  /**
   `Daemon.Turn` on a network that stands still is a row of steps of the loop: pages, their events one by one, and the
   end of the pass, or its failure once the store has accepted `budget` inserts.
   */
  lemma UninterruptedTurn(s: State, budget: nat) returns (steps: seq<Step>, t: State)
    requires s.pass.None? && s.cursor <= s.tip + 1
    ensures Turned(s, s.net[From(s.net, s.cursor)..], budget, steps, t)
  {
    var u := Next(s, Fetch);
    assert AtPage(u) && Todo(u) == s.net[From(s.net, s.cursor)..] && u == s.(pass := u.pass) by { hide From; }
    assert Enabled(s, Fetch);
    hide AtPage, Todo, Next, Enabled, From, Turned;
    var rest;
    rest, t := RestOfTurn(u, budget);
    FetchTurned(s, u, s.net[From(s.net, s.cursor)..], budget, rest, t);
    steps := [Fetch] + rest;
  }

  /** The pass stands at a page: what it inserts and has still to read is the rest of the network. */
  predicate AtPage(s: State) {
    && s.pass.Some?
    && var p := s.pass.value;
       && |p.page| <= p.at <= |s.net| && p.page == s.net[p.at - |p.page|..p.at] && p.latest == s.tip
       && (!p.full ==> p.at == |s.net|)
  }

  /** The steps take `s` to the end of the pass with all of `todo` stored, or to its failure behind `budget` inserts. */
  ghost predicate Turned(s: State, todo: seq<Event>, budget: nat, steps: seq<Step>, t: State) {
    && Path(s, steps, t) && OfTurn(steps)
    && t.pass.None? && t.net == s.net && t.tip == s.tip && t.saved == s.saved && t.first == s.first
    && if |todo| <= budget then t.cursor == s.tip + 1 && t.table == InsertAll(s.unique, s.table, todo)
       else t.cursor == s.cursor && t.table == InsertAll(s.unique, s.table, todo[..budget])
  }

  function Todo(s: State): seq<Event>
    requires AtPage(s)
  {
    s.net[s.pass.value.at - |s.pass.value.page|..]
  }

  lemma {:induction false} RestOfTurn(s: State, budget: nat) returns (steps: seq<Step>, t: State)
    requires AtPage(s)
    ensures Turned(s, Todo(s), budget, steps, t)
    decreases |Todo(s)|, if s.pass.value.page == [] && s.pass.value.full then 1 else 0
  {
    var p := s.pass.value;
    if p.page != [] && budget > 0 {
      var u := InsertStep(s);
      hide AtPage, Turned, Next, Enabled, Todo;
      var rest;
      rest, t := RestOfTurn(u, budget - 1);
      steps := [InsertOne] + rest;
      InsertTurned(s, u, budget, rest, t);
    } else if p.page == [] && p.full {
      var u := FetchStep(s);
      hide AtPage, Turned, Next, Enabled, Todo;
      var rest;
      rest, t := RestOfTurn(u, budget);
      steps := [Fetch] + rest;
      FetchTurned(s, u, Todo(s), budget, rest, t);
    } else {
      steps, t := LastStep(s, budget);
    }
  }

  lemma InsertStep(s: State) returns (u: State)
    requires AtPage(s) && s.pass.value.page != []
    ensures Enabled(s, InsertOne) && u == Next(s, InsertOne) && AtPage(u)
    ensures Todo(s) != [] && Todo(u) == Todo(s)[1..] && u.table == Insert(s.unique, s.table, Todo(s)[0])
    ensures u == s.(table := u.table, pass := u.pass, reach := u.reach)
  {
    hide From, Insert;
    var p := s.pass.value;
    var at := p.at - |p.page|;
    PageHead(s.net, p.page, p.at);
    RestHead(s.net, at);
    u := Next(s, InsertOne);
    assert u.pass == Some(p.(page := p.page[1..])) && u.net == s.net && u.tip == s.tip;
    assert |p.page[1..]| == |p.page| - 1;
  }

  lemma RestHead(net: seq<Event>, at: nat)
    requires at < |net|
    ensures net[at..][0] == net[at] && net[at..][1..] == net[at + 1..]
  {
  }

  lemma FetchStep(s: State) returns (u: State)
    requires AtPage(s) && s.pass.value.page == [] && s.pass.value.full
    ensures Enabled(s, Fetch) && u == Next(s, Fetch) && AtPage(u) && Todo(u) == Todo(s)
    ensures u.pass.value.page == [] ==> !u.pass.value.full
    ensures u == s.(pass := u.pass)
  {
    hide From, Insert;
    u := Next(s, Fetch);
  }

  lemma LastStep(s: State, budget: nat) returns (steps: seq<Step>, t: State)
    requires AtPage(s) && if s.pass.value.page == [] then !s.pass.value.full else budget == 0
    ensures Turned(s, Todo(s), budget, steps, t)
  {
    hide From, Insert;
    var step := if s.pass.value.page == [] then EndPass else FailPass;
    t := Next(s, step);
    assert Path(t, [], t);
    PathCons(s, step, [], t);
    steps := [step] + [];
  }

  lemma InsertTurned(s: State, u: State, budget: nat, rest: seq<Step>, t: State)
    requires AtPage(s) && AtPage(u) && Enabled(s, InsertOne) && u == Next(s, InsertOne) && budget > 0
    requires Todo(s) != [] && Todo(u) == Todo(s)[1..] && u.table == Insert(s.unique, s.table, Todo(s)[0])
    requires u == s.(table := u.table, pass := u.pass, reach := u.reach) && Turned(u, Todo(u), budget - 1, rest, t)
    ensures Turned(s, Todo(s), budget, [InsertOne] + rest, t)
  {
    hide AtPage, Next, Enabled, Todo, Insert, InsertAll;
    PathCons(s, InsertOne, rest, t);
    HeadFirst(s.unique, s.table, Todo(s), budget);
  }

  lemma FetchTurned(s: State, u: State, todo: seq<Event>, budget: nat, rest: seq<Step>, t: State)
    requires Enabled(s, Fetch) && u == Next(s, Fetch)
    requires u == s.(pass := u.pass) && Turned(u, todo, budget, rest, t)
    ensures Turned(s, todo, budget, [Fetch] + rest, t)
  {
    hide Next, Enabled, InsertAll;
    PathCons(s, Fetch, rest, t);
  }

  lemma HeadFirst(unique: bool, table: multiset<Event>, todo: seq<Event>, budget: nat)
    requires todo != [] && budget > 0
    ensures InsertAll(unique, Insert(unique, table, todo[0]), todo[1..]) == InsertAll(unique, table, todo)
    ensures budget < |todo| ==>
              InsertAll(unique, Insert(unique, table, todo[0]), todo[1..][..budget - 1])
              == InsertAll(unique, table, todo[..budget])
  {
    InsertAllSnoc(unique, table, [], todo[0]);
    assert [] + [todo[0]] == [todo[0]];
    hide Insert, InsertAll;
    InsertAllConcat(unique, table, [todo[0]], todo[1..]);
    assert [todo[0]] + todo[1..] == todo;
    if budget < |todo| {
      InsertAllConcat(unique, table, [todo[0]], todo[1..][..budget - 1]);
      assert [todo[0]] + todo[1..][..budget - 1] == todo[..budget];
    }
  }

  /**
   A failed turn followed by a successful one leaves what the successful one alone would leave if the table has a unique
   key; without one, the events that the failed turn had already inserted are there once more.
   */
  lemma RedoneTurn(table: multiset<Event>, todo: seq<Event>, budget: nat)
    requires budget <= |todo|
    ensures var partial := InsertAll(true, table, todo[..budget]);
            InsertAll(true, partial, todo) == InsertAll(true, table, todo)
    ensures var partial := InsertAll(false, table, todo[..budget]);
            InsertAll(false, partial, todo) == InsertAll(false, table, todo) + multiset(todo[..budget])
  {
    var partial := InsertAll(true, table, todo[..budget]);
    InsertAllMeaning(true, table, todo[..budget]);
    InsertAllMeaning(true, partial, todo);
    InsertAllMeaning(true, table, todo);
    assert forall e :: e in todo[..budget] ==> e in todo;
    assert forall e :: InsertAll(true, partial, todo)[e] == InsertAll(true, table, todo)[e];
    InsertAllMeaning(false, table, todo[..budget]);
    InsertAllMeaning(false, InsertAll(false, table, todo[..budget]), todo);
    InsertAllMeaning(false, table, todo);
  }
}
