/**
 Re-org detection and rollback: indexer/src/reorgWorker.js.

 `ledger_hashes` has its ledger as primary key, so it is the sequence of its rows in ascending ledger order.
 */
module Reorg {
  import opened Ledger
  import opened Options

  datatype Row = Row(ledger: nat, hash: string)

  /** What the node answers for a ledger: its hash, or nothing when it is unavailable. */
  type Network = nat -> Option<string>

  const WINDOW: nat := 20

  ghost predicate Ascending(rows: seq<Row>) {
    forall i, j :: 0 <= i < j < |rows| ==> rows[i].ledger < rows[j].ledger
  }

  /* ----- recording ----- */

  /** INSERT .. ON CONFLICT (ledger) DO NOTHING */
  function Record(rows: seq<Row>, r: Row): seq<Row> {
    if rows == [] || rows[|rows| - 1].ledger < r.ledger then rows + [r]
    else if rows[|rows| - 1].ledger == r.ledger then rows
    else Record(rows[..|rows| - 1], r) + [rows[|rows| - 1]]
  }

  /** The table stays in order, keeps every row it had, and gains the new one only if its ledger was not there. */
  lemma {:induction false} RecordMeaning(rows: seq<Row>, r: Row)
    requires Ascending(rows)
    ensures Ascending(Record(rows, r))
    ensures forall x :: x in Record(rows, r) <==>
                          x in rows || (x == r && forall y :: y in rows ==> y.ledger != r.ledger)
  {
    if rows != [] && rows[|rows| - 1].ledger >= r.ledger {
      var last := rows[|rows| - 1];
      var init := rows[..|rows| - 1];
      assert rows == init + [last];
      if last.ledger > r.ledger {
        RecordMeaning(init, r);
        var rec := Record(init, r);
        forall x | x in rec ensures x.ledger < last.ledger {
          if x in init { var i :| 0 <= i < |init| && init[i] == x; }
        }
      } else {
        assert last in rows;
      }
    } else {
      forall y | y in rows ensures y.ledger < r.ledger { var i :| 0 <= i < |rows| && rows[i] == y; }
    }
  }

  /* ----- checking ----- */

  predicate Mismatch(r: Row, net: Network) {
    net(r.ledger).Some? && net(r.ledger).value != r.hash
  }

  /** The first mismatch among the newest `limit` rows, newest first. */
  function Check(rows: seq<Row>, net: Network, limit: nat): Option<nat> {
    if rows == [] || limit == 0 then None
    else
      var newest := rows[|rows| - 1];
      if Mismatch(newest, net) then Some(newest.ledger) else Check(rows[..|rows| - 1], net, limit - 1)
  }

  function Below(rows: seq<Row>, fork: nat): (kept: seq<Row>)
    ensures |kept| <= |rows| && kept == rows[..|kept|]
  {
    if rows == [] then [] else if rows[|rows| - 1].ledger >= fork then Below(rows[..|rows| - 1], fork) else rows
  }

  function EventsBelow(events: seq<Event>, fork: nat): seq<Event> {
    if events == [] then []
    else
      EventsBelow(events[..|events| - 1], fork)
      + if events[|events| - 1].ledger < fork then [events[|events| - 1]] else []
  }

  lemma {:induction false} BelowMeaning(rows: seq<Row>, fork: nat)
    requires Ascending(rows)
    ensures forall r :: r in Below(rows, fork) <==> r in rows && r.ledger < fork
    ensures Ascending(Below(rows, fork))
  {
    if rows != [] {
      var init, last := rows[..|rows| - 1], rows[|rows| - 1];
      assert rows == init + [last];
      if last.ledger >= fork {
        BelowMeaning(init, fork);
      } else {
        assert forall i :: 0 <= i < |rows| ==> rows[i].ledger <= last.ledger;
        assert rows == rows[..|rows|];
      }
    }
  }

  lemma {:induction false} EventsBelowMeaning(events: seq<Event>, fork: nat)
    ensures forall e :: multiset(EventsBelow(events, fork))[e] == if e.ledger < fork then multiset(events)[e] else 0
  {
    if events != [] {
      var init, last := events[..|events| - 1], events[|events| - 1];
      EventsBelowMeaning(init, fork);
      assert events == init + [last];
    }
  }

  /* ----- the worker's store ----- */

  /** A check finds nothing just when there is no mismatch among the newest rows. */
  lemma {:induction false} CheckedWindow(rows: seq<Row>, net: Network, limit: nat)
    ensures Check(rows, net, limit).None? <==>
            forall i :: 0 <= i < |rows| && |rows| - limit <= i ==> !Mismatch(rows[i], net)
  {
    hide Mismatch;
    if rows != [] && limit > 0 {
      CheckedWindow(rows[..|rows| - 1], net, limit - 1);
      assert forall i :: 0 <= i < |rows| - 1 ==> rows[..|rows| - 1][i] == rows[i];
    }
  }

  /** Exactly the rows and events below the fork are left. */
  ghost predicate RolledBack(rows: seq<Row>, events: seq<Event>, fork: nat, rows': seq<Row>, events': seq<Event>) {
    && (forall e :: multiset(events')[e] == if e.ledger < fork then multiset(events)[e] else 0)
    && rows' <= rows
    && (Ascending(rows) ==> forall r :: r in rows' <==> r in rows && r.ledger < fork)
  }

  lemma RollbackMeaning(rows: seq<Row>, events: seq<Event>, fork: nat)
    ensures RolledBack(rows, events, fork, Below(rows, fork), EventsBelow(events, fork))
  {
    forall e ensures multiset(EventsBelow(events, fork))[e] == if e.ledger < fork then multiset(events)[e] else 0 {
      EventsBelowCounts(events, fork, e);
    }
    if Ascending(rows) {
      RowsBelow(rows, fork);
    }
    hide EventsBelow;
  }

  lemma {:induction false} EventsBelowCounts(events: seq<Event>, fork: nat, e: Event)
    ensures multiset(EventsBelow(events, fork))[e] == if e.ledger < fork then multiset(events)[e] else 0
  {
    if events != [] {
      EventsBelowCounts(events[..|events| - 1], fork, e);
      assert events == events[..|events| - 1] + [events[|events| - 1]];
    }
  }

  lemma {:induction false} RowsBelow(rows: seq<Row>, fork: nat)
    requires Ascending(rows)
    ensures forall r :: r in Below(rows, fork) <==> r in rows && r.ledger < fork
  {
    if rows != [] {
      RowsBelow(rows[..|rows| - 1], fork);
      assert rows == rows[..|rows| - 1] + [rows[|rows| - 1]];
    }
  }

  class Store {
    var rows: seq<Row>
    var events: seq<Event>
    var cursor: int

    constructor (cursor: int)
      ensures rows == [] && events == [] && this.cursor == cursor
    {
      rows, events := [], [];
      this.cursor := cursor;
    }

    method RecordLedgerHash(ledger: nat, hash: string)
      modifies this`rows
      ensures rows == Record(old(rows), Row(ledger, hash))
    {
      rows := Record(rows, Row(ledger, hash));
    }

    method GetRecentLedgerHashes(limit: nat) returns (recent: seq<Row>)
      ensures |recent| == if |rows| < limit then |rows| else limit
      ensures forall i :: 0 <= i < |recent| ==> recent[i] == rows[|rows| - 1 - i]
    {
      recent := [];
      while |recent| < limit && |recent| < |rows|
        invariant |recent| <= limit && |recent| <= |rows|
        invariant forall i :: 0 <= i < |recent| ==> recent[i] == rows[|rows| - 1 - i]
      {
        recent := recent + [rows[|rows| - 1 - |recent|]];
      }
    }

    method CheckForReorg(net: Network) returns (fork: Option<nat>)
      ensures fork == Check(rows, net, WINDOW)
      ensures fork.None? <==> forall i :: 0 <= i < |rows| && |rows| - 20 <= i ==> !Mismatch(rows[i], net)
    {
      CheckedWindow(rows, net, WINDOW);
      var stored := GetRecentLedgerHashes(WINDOW);
      assert rows[..|rows|] == rows;
      for i := 0 to |stored|
        invariant Check(rows, net, WINDOW) == Check(rows[..|rows| - i], net, WINDOW - i)
      {
        var networkHash := net(stored[i].ledger);
        if networkHash.Some? && networkHash.value != stored[i].hash {
          return Some(stored[i].ledger);
        }
        assert rows[..|rows| - i][..|rows| - i - 1] == rows[..|rows| - (i + 1)];
      }
      return None;
    }

    method Rollback(fork: nat)
      modifies this`rows, this`events
      ensures rows == Below(old(rows), fork) && events == EventsBelow(old(events), fork)
      ensures RolledBack(old(rows), old(events), fork, rows, events)
    {
      RollbackMeaning(rows, events, fork);
      events := EventsBelow(events, fork);
      rows := Below(rows, fork);
    }

    /** One turn of the worker. */
    method Tick(net: Network) returns (fork: Option<nat>)
      modifies this
      ensures fork == Check(old(rows), net, WINDOW)
      ensures Now() == Turned(old(Now()), net)
    {
      fork := CheckForReorg(net);
      if fork.Some? {
        Rollback(fork.value);
        cursor := fork.value;
      }
    }

    function Now(): State
      reads this
    {
      State(rows, events, cursor)
    }

    /** Turns of the worker with no indexing in between, until one finds nothing; the node may be partly unavailable. */
    method TickUntilQuiet(nets: nat -> Network) returns (turns: nat)
      requires Ascending(rows)
      modifies this
      ensures Ascending(rows) && turns <= |old(rows)|
      ensures Check(rows, nets(turns), WINDOW) == None
      ensures Now() == Turns(old(Now()), nets, turns)
    {
      turns := 0;
      var fork := Tick(nets(0));
      assert Turns(old(Now()), nets, 0) == old(Now());
      if fork.Some? { TurnShrinks(old(Now()), nets(0)); }
      while fork.Some?
        invariant Ascending(rows)
        invariant fork.None? ==> Check(rows, nets(turns), WINDOW) == None && Now() == Turns(old(Now()), nets, turns)
        invariant fork.Some? ==> Now() == Turns(old(Now()), nets, turns + 1) && |rows| + turns + 1 <= |old(rows)|
        invariant turns <= |old(rows)|
        decreases if fork.Some? then 1 + |rows| else 0
      {
        turns := turns + 1;
        ghost var before := Now();
        fork := Tick(nets(turns));
        if fork.Some? { TurnShrinks(before, nets(turns)); }
      }
    }
  }

  /* ----- the worker on values ----- */

  datatype State = State(rows: seq<Row>, events: seq<Event>, cursor: int)

  function Turned(s: State, net: Network): State {
    match Check(s.rows, net, WINDOW)
    case None => s
    case Some(fork) => State(Below(s.rows, fork), EventsBelow(s.events, fork), fork)
  }

  function Turns(s: State, nets: nat -> Network, n: nat): State {
    if n == 0 then s else Turned(Turns(s, nets, n - 1), nets(n - 1))
  }

  /** A check that reports nothing has seen no mismatch among the newest `limit` rows. */
  lemma {:induction false} CheckNone(rows: seq<Row>, net: Network, limit: nat)
    requires Check(rows, net, limit) == None
    ensures forall i :: 0 <= i < |rows| && |rows| - limit <= i ==> !Mismatch(rows[i], net)
  {
    hide Mismatch;
    if rows != [] && limit > 0 {
      var init := rows[..|rows| - 1];
      CheckNone(init, net, limit - 1);
      assert forall i :: 0 <= i < |init| ==> init[i] == rows[i];
    }
  }

  /** A check that reports a ledger has found the newest mismatch among the newest `limit` rows. */
  lemma {:induction false} CheckSome(rows: seq<Row>, net: Network, limit: nat) returns (k: nat)
    requires Check(rows, net, limit).Some?
    ensures k < |rows| && |rows| - limit <= k
    ensures rows[k].ledger == Check(rows, net, limit).value && Mismatch(rows[k], net)
    ensures forall i :: k < i < |rows| ==> !Mismatch(rows[i], net)
  {
    hide Mismatch;
    var init := rows[..|rows| - 1];
    if Mismatch(rows[|rows| - 1], net) {
      k := |rows| - 1;
    } else {
      k := CheckSome(init, net, limit - 1);
      assert forall i :: 0 <= i < |init| ==> init[i] == rows[i];
    }
  }

  lemma {:induction false} NoMismatchNoReport(rows: seq<Row>, net: Network, limit: nat)
    requires forall r :: r in rows ==> !Mismatch(r, net)
    ensures Check(rows, net, limit) == None
  {
    hide Mismatch;
    if rows != [] && limit > 0 {
      assert rows[|rows| - 1] in rows;
      NoMismatchNoReport(rows[..|rows| - 1], net, limit - 1);
    }
  }

  /** Every rollback removes at least one row, which is what makes the repetition terminate. */
  lemma TurnShrinks(s: State, net: Network)
    requires Ascending(s.rows) && Check(s.rows, net, WINDOW).Some?
    ensures Ascending(Turned(s, net).rows) && |Turned(s, net).rows| < |s.rows|
  {
    var k := CheckSome(s.rows, net, WINDOW);
    var fork := Check(s.rows, net, WINDOW).value;
    BelowMeaning(s.rows, fork);
    var kept := Below(s.rows, fork);
    assert s.rows[k] in s.rows && s.rows[k] !in kept;
    assert s.rows[..|s.rows|] == s.rows;
  }

  /* ----- a fork ----- */

  /** The stored hashes agree with the new chain exactly below height `f`. */
  ghost predicate Forked(rows: seq<Row>, chain: nat -> string, f: nat) {
    forall r :: r in rows ==> (r.hash == chain(r.ledger) <==> r.ledger < f)
  }

  /** The node answers with the new chain's hash, or not at all. */
  ghost predicate Answers(net: Network, chain: nat -> string) {
    forall l :: net(l) == None || net(l) == Some(chain(l))
  }

  /** A reported height is a recorded ledger at or above the fork, however much of the chain is unavailable. */
  lemma ReportsAreOrphans(rows: seq<Row>, net: Network, chain: nat -> string, f: nat)
    requires Ascending(rows) && Forked(rows, chain, f) && Answers(net, chain)
    ensures Check(rows, net, WINDOW).Some? ==>
              Check(rows, net, WINDOW).value >= f && exists r :: r in rows && r.ledger == Check(rows, net, WINDOW).value
  {
    if Check(rows, net, WINDOW).Some? {
      var k := CheckSome(rows, net, WINDOW);
      assert rows[k] in rows;
    }
  }

  lemma TurnKeepsFork(s: State, net: Network, chain: nat -> string, f: nat)
    requires Ascending(s.rows) && Forked(s.rows, chain, f) && Answers(net, chain)
    ensures var t := Turned(s, net);
            && Ascending(t.rows) && Forked(t.rows, chain, f)
            && (forall r :: r in s.rows && r.ledger < f ==> r in t.rows)
            && (forall r :: r in t.rows ==> r in s.rows)
  {
    ReportsAreOrphans(s.rows, net, chain, f);
    if Check(s.rows, net, WINDOW).Some? { BelowMeaning(s.rows, Check(s.rows, net, WINDOW).value); }
  }

  /** Whatever is unavailable and whenever: no turn ever removes a row below the fork. */
  lemma {:induction false} TurnsKeepFork(s: State, nets: nat -> Network, chain: nat -> string, f: nat, n: nat)
    requires Ascending(s.rows) && Forked(s.rows, chain, f) && forall k :: 0 <= k < n ==> Answers(nets(k), chain)
    ensures var t := Turns(s, nets, n);
            && Ascending(t.rows) && Forked(t.rows, chain, f)
            && (forall r :: r in s.rows && r.ledger < f ==> r in t.rows)
            && (forall r :: r in t.rows ==> r in s.rows)
  {
    if n > 0 {
      TurnsKeepFork(s, nets, chain, f, n - 1);
      TurnKeepsFork(Turns(s, nets, n - 1), nets(n - 1), chain, f);
    }
  }

  /** The node answers for every ledger, in every turn. */
  function FullNet(chain: nat -> string): Network {
    (l: nat) => Some(chain(l))
  }

  function FullNets(chain: nat -> string): nat -> Network {
    (k: nat) => FullNet(chain)
  }

  /** With every hash available, one turn takes off exactly the newest row if it is orphaned, and nothing otherwise. */
  lemma FullTurn(s: State, chain: nat -> string, f: nat)
    requires Ascending(s.rows) && Forked(s.rows, chain, f)
    ensures var net := FullNet(chain);
            var n := |s.rows|;
            Turned(s, net) ==
            if n > 0 && s.rows[n - 1].ledger >= f
            then State(s.rows[..n - 1], EventsBelow(s.events, s.rows[n - 1].ledger), s.rows[n - 1].ledger)
            else s
  {
    var net := FullNet(chain);
    var n := |s.rows|;
    assert forall r :: r in s.rows ==> (Mismatch(r, net) <==> r.ledger >= f);
    if n > 0 {
      assert s.rows[n - 1] in s.rows;
      if s.rows[n - 1].ledger >= f {
        var init := s.rows[..n - 1];
        assert Below(init, s.rows[n - 1].ledger) == init by {
          if init != [] { assert init[n - 2].ledger < s.rows[n - 1].ledger; }
        }
      } else {
        forall r | r in s.rows ensures !Mismatch(r, net) { var i :| 0 <= i < n && s.rows[i] == r; }
        NoMismatchNoReport(s.rows, net, WINDOW);
      }
    }
  }

  /** The number of recorded rows below the fork. */
  function Settled(rows: seq<Row>, f: nat): (k: nat)
    ensures k <= |rows|
  {
    |Below(rows, f)|
  }

  lemma EventsBelowSnoc(events: seq<Event>, e: Event, a: nat)
    ensures EventsBelow(events + [e], a)
         == if e.ledger < a then EventsBelow(events, a) + [e] else EventsBelow(events, a)
  {
    assert (events + [e])[..|events|] == events;
  }

  lemma {:induction false} EventsBelowTwice(events: seq<Event>, a: nat, b: nat)
    requires a <= b
    ensures EventsBelow(EventsBelow(events, b), a) == EventsBelow(events, a)
  {
    if events != [] {
      hide EventsBelow;
      var init, last := events[..|events| - 1], events[|events| - 1];
      assert events == init + [last];
      EventsBelowTwice(init, a, b);
      EventsBelowSnoc(init, last, a);
      EventsBelowSnoc(init, last, b);
      if last.ledger < b {
        EventsBelowSnoc(EventsBelow(init, b), last, a);
      }
    }
  }

  /** The state without its `n` newest rows, rewound to the oldest of them. */
  function Rewound(s: State, n: nat): State
    requires n <= |s.rows|
  {
    if n == 0 then s
    else
      var left := |s.rows| - n;
      State(s.rows[..left], EventsBelow(s.events, s.rows[left].ledger), s.rows[left].ledger)
  }

  lemma RewoundStep(s: State, chain: nat -> string, f: nat, n: nat)
    requires Ascending(s.rows) && Forked(s.rows, chain, f)
    requires 0 < n <= |s.rows| && s.rows[|s.rows| - n].ledger >= f
    ensures Turned(Rewound(s, n - 1), FullNet(chain)) == Rewound(s, n)
  {
    hide Check, Turned, EventsBelow, Below, FullNet;
    var t := Rewound(s, n - 1);
    var left := |s.rows| - n;
    assert s.rows[..|s.rows|] == s.rows;
    assert t.rows == s.rows[..left + 1];
    PrefixForked(s.rows, chain, f, left + 1);
    FullTurn(t, chain, f);
    assert t.rows[..left] == s.rows[..left];
    if n > 1 { EventsBelowTwice(s.events, s.rows[left].ledger, s.rows[left + 1].ledger); }
  }

  /**
   Convergence with every hash available: the k-th turn removes the k-th newest orphaned row, and after as many turns as
   there are orphaned rows exactly the rows below the fork are left, the events below the lowest orphaned recorded
   ledger, and the cursor at that ledger.
   */
  lemma {:induction false} Converges(s: State, chain: nat -> string, f: nat, n: nat)
    requires Ascending(s.rows) && Forked(s.rows, chain, f)
    requires n <= |s.rows| - Settled(s.rows, f)
    ensures Turns(s, FullNets(chain), n) == Rewound(s, n)
  {
    hide Turned, FullNet, Rewound, FullNets, Forked, Ascending;
    if n == 0 {
      TurnsZero(s, FullNets(chain));
      assert Rewound(s, 0) == s by { RewoundNot(s); }
    } else {
      Converges(s, chain, f, n - 1);
      TurnsNext(s, chain, n);
      SettledMeaning(s.rows, f);
      hide Turns, Settled;
      RewoundStep(s, chain, f, n);
    }
  }

  lemma RewoundNot(s: State)
    ensures Rewound(s, 0) == s
  {
  }

  lemma TurnsNext(s: State, chain: nat -> string, n: nat)
    requires n > 0
    ensures Turns(s, FullNets(chain), n) == Turned(Turns(s, FullNets(chain), n - 1), FullNet(chain))
  {
    hide Turned, FullNet;
  }

  lemma PrefixForked(rows: seq<Row>, chain: nat -> string, f: nat, n: nat)
    requires Ascending(rows) && Forked(rows, chain, f) && n <= |rows|
    ensures Ascending(rows[..n]) && Forked(rows[..n], chain, f)
  {
  }

  lemma {:induction false} SettledMeaning(rows: seq<Row>, f: nat)
    requires Ascending(rows)
    ensures forall i :: 0 <= i < |rows| ==> (rows[i].ledger < f <==> i < Settled(rows, f))
  {
    if rows != [] && rows[|rows| - 1].ledger >= f {
      SettledMeaning(rows[..|rows| - 1], f);
    }
  }

  /** After convergence the worker is quiet: another turn changes nothing. */
  lemma ConvergedIsQuiet(s: State, chain: nat -> string, f: nat)
    requires Ascending(s.rows) && Forked(s.rows, chain, f)
    ensures var nets := FullNets(chain);
            var n := |s.rows| - Settled(s.rows, f);
            && Turns(s, nets, n).rows == s.rows[..Settled(s.rows, f)]
            && Turned(Turns(s, nets, n), nets(n)) == Turns(s, nets, n)
  {
    hide Check, Turned, EventsBelow, Below, FullNet, Turns;
    var nets := FullNets(chain);
    var k := Settled(s.rows, f);
    var n := |s.rows| - k;
    Converges(s, chain, f, n);
    SettledMeaning(s.rows, f);
    assert s.rows[..|s.rows|] == s.rows;
    var end := Turns(s, nets, n);
    assert end.rows == s.rows[..k] by { TurnsZero(s, nets); }
    FullTurn(end, chain, f);
    assert nets(n) == FullNet(chain);
  }

  lemma TurnsZero(s: State, nets: nat -> Network)
    ensures Turns(s, nets, 0) == s
  {
  }

  /**
   All orphaned events are gone after convergence exactly when none lies between the fork and the lowest orphaned
   ledger that has a recorded hash: hashes are recorded only for the latest ledger of a page, and such events stay.
   */
  lemma OrphansGoneIff(s: State, chain: nat -> string, f: nat)
    requires Ascending(s.rows) && Forked(s.rows, chain, f) && Settled(s.rows, f) < |s.rows|
    ensures var nets := FullNets(chain);
            var end := Turns(s, nets, |s.rows| - Settled(s.rows, f));
            var m := s.rows[Settled(s.rows, f)].ledger;
            && end.cursor == m
            && (forall e :: e in end.events <==> e in s.events && e.ledger < m)
            && ((forall e :: e in end.events ==> e.ledger < f) <==> forall e :: e in s.events ==> !(f <= e.ledger < m))
  {
    var nets := FullNets(chain);
    var m := s.rows[Settled(s.rows, f)].ledger;
    Converges(s, chain, f, |s.rows| - Settled(s.rows, f));
    SettledMeaning(s.rows, f);
    EventsBelowMeaning(s.events, m);
    hide EventsBelow, Turns, FullNets, Settled, Forked;
    var kept := EventsBelow(s.events, m);
    assert forall e :: e in kept <==> multiset(kept)[e] > 0;
    assert forall e :: e in s.events <==> multiset(s.events)[e] > 0;
  }

  /** One turn rewinds to the newest orphaned ledger, which is the lowest one exactly when it is the only one. */
  lemma OneTurnReachesForkIff(s: State, chain: nat -> string, f: nat)
    requires Ascending(s.rows) && Forked(s.rows, chain, f) && Settled(s.rows, f) < |s.rows|
    ensures var net := FullNet(chain);
            Turned(s, net).cursor == s.rows[Settled(s.rows, f)].ledger <==> Settled(s.rows, f) == |s.rows| - 1
  {
    SettledMeaning(s.rows, f);
    FullTurn(s, chain, f);
  }
}
