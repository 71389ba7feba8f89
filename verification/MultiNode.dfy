/**
 The multi-node RPC client: `nextHealthy` and `callWithFailover` of indexer/src/rpcMultiNode.js, with the
 periodic recovery of unhealthy nodes going on while a call waits.
 */
module MultiNode {
  import opened Division
  import opened Options
  import opened Sets

  datatype Node = Node(healthy: bool, latestLedger: int)

  datatype Pool = Pool(nodes: seq<Node>, primaryIndex: nat)

  /** What a node answers: the ledger its result names, 0 for none, or an error or timeout. */
  datatype Response = Answer(ledger: nat) | Failure

  /** One await: the response, and the nodes that the timer brought back meanwhile with their ledgers. */
  datatype Turn = Turn(response: Response, recoveries: map<nat, nat>)

  ghost predicate Valid(p: Pool) {
    p.nodes != [] && p.primaryIndex < |p.nodes|
  }

  function Place(n: nat, start: nat, i: nat): (r: nat)
    requires n > 0
    ensures r < n
  {
    (start + i) % n
  }

  /** The nearest healthy node at a distance of `i` or more after `start`. */
  function Seek(nodes: seq<Node>, start: nat, i: nat): (r: Option<nat>)
    requires nodes != []
    ensures r.Some? ==> r.value < |nodes|
    decreases |nodes| + 1 - i
  {
    if i > |nodes| then None
    else if nodes[Place(|nodes|, start, i)].healthy then Some(Place(|nodes|, start, i))
    else Seek(nodes, start, i + 1)
  }

  function AllHealthy(nodes: seq<Node>): (r: seq<Node>)
    ensures |r| == |nodes|
  {
    seq(|nodes|, i requires 0 <= i < |nodes| => nodes[i].(healthy := true))
  }

  /** The next node to try, and the nodes, which are all made healthy again when none was. */
  function Next(nodes: seq<Node>, start: nat): (r: (seq<Node>, nat))
    requires nodes != []
    ensures |r.0| == |nodes| && r.1 < |nodes|
  {
    match Seek(nodes, start, 1)
    case Some(idx) => (nodes, idx)
    case None => (AllHealthy(nodes), 0)
  }

  function Down(nodes: seq<Node>, i: nat): seq<Node>
    requires i < |nodes|
  {
    nodes[i := nodes[i].(healthy := false)]
  }

  function Best(nodes: seq<Node>): int
    requires nodes != []
  {
    if |nodes| == 1 then nodes[0].latestLedger
    else
      var rest := Best(nodes[1..]);
      if nodes[0].latestLedger >= rest then nodes[0].latestLedger else rest
  }

  function Recover(nodes: seq<Node>, recoveries: map<nat, nat>): (r: seq<Node>)
    ensures |r| == |nodes|
  {
    seq(|nodes|, i requires 0 <= i < |nodes| =>
      if !nodes[i].healthy && i in recoveries then Node(true, recoveries[i]) else nodes[i])
  }

  function Learn(nodes: seq<Node>, i: nat, ledger: nat): seq<Node>
    requires i < |nodes|
  {
    if ledger != 0 then nodes[i := nodes[i].(latestLedger := ledger)] else nodes
  }

  predicate Lags(lag: nat, nodes: seq<Node>, i: nat)
    requires i < |nodes|
  {
    Best(nodes) - nodes[i].latestLedger > lag
  }

  datatype Step = Step(pool: Pool, idx: nat, served: bool)

  /** One pass of the attempt loop at node `idx`. */
  function Attempt(lag: nat, p: Pool, idx: nat, turn: Turn): (r: Step)
    requires Valid(p) && idx < |p.nodes|
    ensures Valid(r.pool) && |r.pool.nodes| == |p.nodes| && r.idx < |p.nodes|
  {
    var nodes := Recover(p.nodes, turn.recoveries);
    match turn.response
    case Failure =>
      var next := Next(Down(nodes, idx), idx);
      Step(Pool(next.0, p.primaryIndex), next.1, false)
    case Answer(ledger) =>
      var known := Learn(nodes, idx, ledger);
      if Lags(lag, known, idx) then
        var next := Next(Down(known, idx), idx);
        Step(Pool(next.0, next.1), next.1, false)
      else Step(Pool(known, idx), idx, true)
  }

  datatype Outcome = Outcome(pool: Pool, visited: seq<nat>, served: bool)

  /** The loop from node `idx` on, one turn for an attempt. */
  function Attempts(lag: nat, p: Pool, idx: nat, turns: seq<Turn>): (r: Outcome)
    requires Valid(p) && idx < |p.nodes|
    ensures Valid(r.pool) && |r.pool.nodes| == |p.nodes|
    decreases |turns|
  {
    if turns == [] then Outcome(p, [], false)
    else
      var step := Attempt(lag, p, idx, turns[0]);
      if step.served then Outcome(step.pool, [idx], true)
      else
        var rest := Attempts(lag, step.pool, step.idx, turns[1..]);
        Outcome(rest.pool, [idx] + rest.visited, rest.served)
  }

  class MultiNodeRpc {
    const lagThreshold: nat
    var nodes: seq<Node>
    var primaryIndex: nat

    ghost function View(): Pool
      reads this
    {
      Pool(nodes, primaryIndex)
    }

    constructor (lagThreshold: nat, count: nat)
      requires count > 0
      ensures Valid(View()) && |nodes| == count && primaryIndex == 0 && this.lagThreshold == lagThreshold
      ensures forall i :: 0 <= i < count ==> nodes[i] == Node(true, 0)
    {
      this.lagThreshold, nodes, primaryIndex := lagThreshold, seq(count, i => Node(true, 0)), 0;
    }

    method NextHealthy(startIndex: nat) returns (idx: nat)
      requires nodes != []
      modifies this`nodes
      ensures (nodes, idx) == Next(old(nodes), startIndex)
    {
      var i := 1;
      while i <= |nodes|
        invariant 1 <= i <= |nodes| + 1
        invariant Seek(nodes, startIndex, 1) == Seek(nodes, startIndex, i)
      {
        idx := (startIndex + i) % |nodes|;
        if nodes[idx].healthy {
          return;
        }
        i := i + 1;
      }
      nodes := AllHealthy(nodes);
      idx := 0;
    }

    /** One pass of the attempt loop. */
    method Try(idx: nat, turn: Turn) returns (next: nat, served: bool)
      requires Valid(View()) && idx < |nodes|
      modifies this
      ensures Step(View(), next, served) == Attempt(lagThreshold, old(View()), idx, turn)
    {
      hide Next, Recover, Best;
      nodes := Recover(nodes, turn.recoveries);
      match turn.response
      case Answer(ledger) =>
        if ledger != 0 {
          nodes := nodes[idx := nodes[idx].(latestLedger := ledger)];
        }
        if Best(nodes) - nodes[idx].latestLedger > lagThreshold {
          nodes := nodes[idx := nodes[idx].(healthy := false)];
          primaryIndex := NextHealthy(idx);
          return primaryIndex, false;
        }
        if idx != primaryIndex {
          primaryIndex := idx;
        }
        return idx, true;
      case Failure =>
        nodes := nodes[idx := nodes[idx].(healthy := false)];
        next := NextHealthy(idx);
        served := false;
    }

    /** `turns[k]` is what the k-th await brings; the result is the number of the attempt that served the call. */
    method CallWithFailover(turns: seq<Turn>) returns (served: Option<nat>, visited: seq<nat>)
      requires Valid(View()) && |turns| == |nodes|
      modifies this
      ensures Valid(View())
      ensures Outcome(View(), visited, served.Some?) == Attempts(lagThreshold, old(View()), old(primaryIndex), turns)
      ensures served.Some? ==> |visited| == served.value + 1
    {
      hide Attempt, Attempts;
      ghost var start := View();
      var idx: nat := primaryIndex;
      visited := [];
      assert turns[0..] == turns;
      for attempt := 0 to |turns|
        invariant Valid(View()) && |nodes| == |turns| && idx < |nodes| && |visited| == attempt
        invariant var rest := Attempts(lagThreshold, View(), idx, turns[attempt..]);
                  Attempts(lagThreshold, start, start.primaryIndex, turns)
                  == Outcome(rest.pool, visited + rest.visited, rest.served)
      {
        assert turns[attempt..][0] == turns[attempt] && turns[attempt..][1..] == turns[attempt + 1..];
        AttemptsUnfold(lagThreshold, View(), idx, turns[attempt..]);
        ghost var before, at := visited, idx;
        visited := visited + [idx];
        var ok: bool;
        idx, ok := Try(idx, turns[attempt]);
        if ok {
          return Some(attempt), visited;
        }
        assert before + ([at] + Attempts(lagThreshold, View(), idx, turns[attempt + 1..]).visited)
            == visited + Attempts(lagThreshold, View(), idx, turns[attempt + 1..]).visited;
      }
      NoAttempts(lagThreshold, View(), idx);
      assert turns[|turns|..] == [];
      return None, visited;
    }
  }

  /* ----- the next node ----- */

  lemma {:induction false} SeekNearest(nodes: seq<Node>, start: nat, i: nat)
    requires nodes != [] && i >= 1
    requires forall m :: 1 <= m < i ==> !nodes[Place(|nodes|, start, m)].healthy
    ensures Seek(nodes, start, i).None? <==> forall m :: 1 <= m <= |nodes| ==> !nodes[Place(|nodes|, start, m)].healthy
    ensures Seek(nodes, start, i).Some? ==>
              exists k :: 1 <= k <= |nodes| && Nearest(nodes, start, k)
                          && Seek(nodes, start, i).value == Place(|nodes|, start, k)
    decreases |nodes| + 1 - i
  {
    hide Place;
    if i <= |nodes| {
      if nodes[Place(|nodes|, start, i)].healthy {
        assert Nearest(nodes, start, i);
      } else {
        SeekNearest(nodes, start, i + 1);
      }
    }
  }

  /** The node `k` places further on is healthy and none between is. */
  ghost predicate Nearest(nodes: seq<Node>, start: nat, k: nat)
    requires nodes != []
  {
    nodes[Place(|nodes|, start, k)].healthy && forall m :: 1 <= m < k ==> !nodes[Place(|nodes|, start, m)].healthy
  }

  /** Going round once meets every node. */
  lemma MeetsAll(n: nat, start: nat, i: nat) returns (k: nat)
    requires i < n
    ensures 1 <= k <= n && (start + k) % n == i
  {
    var s := start % n;
    k := if i > s then i - s else i + n - s;
    var q := start / n;
    assert start == q * n + s;
    if i > s {
      ModUnique(start + k, n, q, i);
    } else {
      ModUnique(start + k, n, q + 1, i);
    }
  }

  /** The nearest healthy node going round, and if there is none, node 0 with every node made healthy again. */
  lemma NextMeaning(nodes: seq<Node>, start: nat)
    requires nodes != []
    ensures var r := Next(nodes, start);
            if exists i :: 0 <= i < |nodes| && nodes[i].healthy
            then r.0 == nodes
                 && exists k :: 1 <= k <= |nodes| && Nearest(nodes, start, k) && r.1 == (start + k) % |nodes|
            else r.1 == 0 && |r.0| == |nodes|
                 && forall i :: 0 <= i < |nodes| ==> r.0[i] == Node(true, nodes[i].latestLedger)
  {
    SeekNearest(nodes, start, 1);
    if i :| 0 <= i < |nodes| && nodes[i].healthy {
      var k := MeetsAll(|nodes|, start, i);
      assert nodes[Place(|nodes|, start, k)].healthy;
    }
    hide Seek;
  }

  /* ----- what is served is fresh ----- */

  /**
   A result comes from the last node tried, which is then the primary and within the threshold of the best known
   ledger.
   */
  lemma {:induction false} ServedIsFresh(lag: nat, p: Pool, idx: nat, turns: seq<Turn>)
    requires Valid(p) && idx < |p.nodes|
    requires Attempts(lag, p, idx, turns).served
    ensures var r := Attempts(lag, p, idx, turns);
            && 0 < |r.visited| <= |turns|
            && r.pool.primaryIndex == r.visited[|r.visited| - 1]
            && (forall i :: 0 <= i < |r.pool.nodes| ==>
                  r.pool.nodes[i].latestLedger - r.pool.nodes[r.pool.primaryIndex].latestLedger <= lag)
    ensures var r := Attempts(lag, p, idx, turns); turns[|r.visited| - 1].response.Answer?
    decreases |turns|
  {
    hide Next, Recover, Learn, Best, Lags;
    var step := Attempt(lag, p, idx, turns[0]);
    if step.served {
      FreshStep(lag, p, idx, turns[0]);
    } else {
      hide Attempt;
      ServedIsFresh(lag, step.pool, step.idx, turns[1..]);
    }
  }

  lemma {:induction false} BestIsMax(nodes: seq<Node>, i: nat)
    requires i < |nodes|
    ensures nodes[i].latestLedger <= Best(nodes)
  {
    if i > 0 {
      BestIsMax(nodes[1..], i - 1);
    }
  }

  lemma FreshStep(lag: nat, p: Pool, idx: nat, turn: Turn)
    requires Valid(p) && idx < |p.nodes| && Attempt(lag, p, idx, turn).served
    ensures var q := Attempt(lag, p, idx, turn).pool;
            && q.primaryIndex == idx && turn.response.Answer?
            && forall i :: 0 <= i < |q.nodes| ==> q.nodes[i].latestLedger - q.nodes[idx].latestLedger <= lag
  {
    hide Best, Recover, Learn, Next;
    var q := Attempt(lag, p, idx, turn).pool;
    forall i | 0 <= i < |q.nodes| ensures q.nodes[i].latestLedger - q.nodes[idx].latestLedger <= lag {
      BestIsMax(q.nodes, i);
    }
  }

  /* ----- and fresh by what the nodes have said ----- */

  /** The ledgers that nodes name during one attempt: the one that answers, and those that a ping brings back. */
  function Named(p: Pool, idx: nat, turn: Turn): map<nat, nat> {
    map i: nat | i < |p.nodes| && (if i == idx && turn.response.Answer? && turn.response.ledger != 0 then true
                                   else i in turn.recoveries && !p.nodes[i].healthy)
      :: if i == idx && turn.response.Answer? && turn.response.ledger != 0 then turn.response.ledger
         else turn.recoveries[i]
  }

  /** The last ledger that each node has named, 0 at first. */
  function Heard(told: seq<nat>, named: map<nat, nat>): (r: seq<nat>)
    ensures |r| == |told|
  {
    seq(|told|, i requires 0 <= i < |told| => if i in named then named[i] else told[i])
  }

  ghost predicate Knows(p: Pool, told: seq<nat>) {
    |told| == |p.nodes| && forall i :: 0 <= i < |told| ==> p.nodes[i].latestLedger == told[i]
  }

  lemma NextKeepsLedgers(nodes: seq<Node>, start: nat, i: nat)
    requires nodes != [] && i < |nodes|
    ensures Next(nodes, start).0[i].latestLedger == nodes[i].latestLedger
  {
  }

  lemma {:induction false} BestIsHeld(nodes: seq<Node>) returns (i: nat)
    requires nodes != []
    ensures i < |nodes| && nodes[i].latestLedger == Best(nodes)
  {
    i := 0;
    if |nodes| > 1 {
      var j := BestIsHeld(nodes[1..]);
      i := if nodes[0].latestLedger >= Best(nodes[1..]) then 0 else j + 1;
    }
  }

  /** A node lags when some node is known to be further ahead than the threshold allows. */
  lemma LagsIff(lag: nat, nodes: seq<Node>, i: nat)
    requires i < |nodes|
    ensures Lags(lag, nodes, i) <==> exists j :: 0 <= j < |nodes| && nodes[j].latestLedger - nodes[i].latestLedger > lag
  {
    hide Best;
    var k := BestIsHeld(nodes);
    forall j | 0 <= j < |nodes| ensures nodes[j].latestLedger <= Best(nodes) {
      BestIsMax(nodes, j);
    }
    if Lags(lag, nodes, i) {
      assert nodes[k].latestLedger - nodes[i].latestLedger > lag;
    }
  }

  /**
   What an attempt learns, and when it serves: exactly when the node answers and no node has named a ledger that is
   further ahead of the last one named by this node than the threshold.
   */
  lemma AttemptHears(lag: nat, p: Pool, idx: nat, turn: Turn, told: seq<nat>)
    requires Valid(p) && idx < |p.nodes| && Knows(p, told)
    ensures var heard := Heard(told, Named(p, idx, turn));
            && Knows(Attempt(lag, p, idx, turn).pool, heard)
            && (Attempt(lag, p, idx, turn).served <==>
                  turn.response.Answer? && forall j :: 0 <= j < |heard| ==> heard[j] - heard[idx] <= lag)
  {
    hide Best, Next, Seek, Lags;
    var heard := Heard(told, Named(p, idx, turn));
    var r := Attempt(lag, p, idx, turn);
    var nodes := Recover(p.nodes, turn.recoveries);
    if turn.response.Answer? {
      var known := Learn(nodes, idx, turn.response.ledger);
      assert forall j :: 0 <= j < |heard| ==> known[j].latestLedger == heard[j];
      LagsIff(lag, known, idx);
      forall j | 0 <= j < |heard| ensures r.pool.nodes[j].latestLedger == heard[j] {
        NextKeepsLedgers(Down(known, idx), idx, j);
      }
    } else {
      forall j | 0 <= j < |heard| ensures r.pool.nodes[j].latestLedger == heard[j] {
        NextKeepsLedgers(Down(nodes, idx), idx, j);
      }
    }
  }

  /** Where the next call begins: at a node that served, past a node that lagged, and not moved by a failure. */
  lemma PrimaryAfterAttempt(lag: nat, p: Pool, idx: nat, turn: Turn)
    requires Valid(p) && idx < |p.nodes|
    ensures var r := Attempt(lag, p, idx, turn);
            r.pool.primaryIndex == if turn.response.Failure? then p.primaryIndex else if r.served then idx else r.idx
  {
    hide Next, Recover, Learn, Lags;
  }

  /** What has been heard at the end of a call. */
  function HeardInCall(lag: nat, p: Pool, idx: nat, turns: seq<Turn>, told: seq<nat>): (r: seq<nat>)
    requires Valid(p) && idx < |p.nodes|
    ensures |r| == |told|
    decreases |turns|
  {
    if turns == [] then told
    else
      var step := Attempt(lag, p, idx, turns[0]);
      var heard := Heard(told, Named(p, idx, turns[0]));
      if step.served then heard else HeardInCall(lag, step.pool, step.idx, turns[1..], heard)
  }

  /**
   A call that is served ends with an answer, and the last ledger that any node has named is no more than the threshold
   ahead of the one that the answer names, or of the last one its node has named if the answer names none.
   */
  ghost predicate Fresh(lag: nat, r: Outcome, turns: seq<Turn>, heard: seq<nat>) {
    r.served ==>
      && 0 < |r.visited| <= |turns| && turns[|r.visited| - 1].response.Answer?
      && var node, ledger := r.visited[|r.visited| - 1], turns[|r.visited| - 1].response.ledger;
         && node < |heard| && (ledger != 0 ==> heard[node] == ledger)
         && forall i :: 0 <= i < |heard| ==> heard[i] - heard[node] <= lag
  }

  lemma {:induction false} AnswersAreFresh(lag: nat, p: Pool, idx: nat, turns: seq<Turn>, told: seq<nat>)
    requires Valid(p) && idx < |p.nodes| && Knows(p, told)
    ensures var r, heard := Attempts(lag, p, idx, turns), HeardInCall(lag, p, idx, turns, told);
            Knows(r.pool, heard) && Fresh(lag, r, turns, heard)
    decreases |turns|
  {
    if turns != [] {
      AttemptHears(lag, p, idx, turns[0], told);
      var step := Attempt(lag, p, idx, turns[0]);
      hide Attempt, Knows;
      if !step.served {
        AnswersAreFresh(lag, step.pool, step.idx, turns[1..], Heard(told, Named(p, idx, turns[0])));
      }
    }
  }

  /** The state and what has been heard after some calls on a new client, one list of turns for each. */
  function AfterCalls(lag: nat, count: nat, calls: seq<seq<Turn>>): (r: (Pool, seq<nat>))
    requires count > 0
    ensures Valid(r.0) && |r.1| == count
    decreases |calls|
  {
    if calls == [] then (Pool(seq(count, i => Node(true, 0)), 0), seq(count, i => 0))
    else
      var before := AfterCalls(lag, count, calls[..|calls| - 1]);
      var turns := calls[|calls| - 1];
      (Attempts(lag, before.0, before.0.primaryIndex, turns).pool,
       HeardInCall(lag, before.0, before.0.primaryIndex, turns, before.1))
  }

  lemma {:induction false} ClientKnows(lag: nat, count: nat, calls: seq<seq<Turn>>)
    requires count > 0
    ensures Knows(AfterCalls(lag, count, calls).0, AfterCalls(lag, count, calls).1)
    decreases |calls|
  {
    hide Attempts, HeardInCall, Fresh;
    if calls != [] {
      ClientKnows(lag, count, calls[..|calls| - 1]);
      var before := AfterCalls(lag, count, calls[..|calls| - 1]);
      AnswersAreFresh(lag, before.0, before.0.primaryIndex, calls[|calls| - 1], before.1);
    }
  }

  /** After every sequence of calls the client knows exactly what was named last, and the next call is fresh. */
  lemma ServedAnswersAreFresh(lag: nat, count: nat, calls: seq<seq<Turn>>, turns: seq<Turn>)
    requires count > 0
    ensures var before := AfterCalls(lag, count, calls);
            Fresh(lag, Attempts(lag, before.0, before.0.primaryIndex, turns), turns,
                  HeardInCall(lag, before.0, before.0.primaryIndex, turns, before.1))
  {
    hide AfterCalls, Attempts, HeardInCall, Fresh, Knows;
    ClientKnows(lag, count, calls);
    var before := AfterCalls(lag, count, calls);
    AnswersAreFresh(lag, before.0, before.0.primaryIndex, turns, before.1);
  }

  /* ----- which nodes are tried ----- */

  /** The node `k` places after `start`, counting round. */
  function Round(start: nat, k: nat, n: nat): (i: nat)
    requires start < n && k < n
    ensures i < n
  {
    if start + k < n then start + k else start + k - n
  }

  lemma NextRound(i: nat, n: nat)
    requires i < n
    ensures (i + 1) % n == if i + 1 < n then i + 1 else 0
  {
    if i + 1 < n {
      ModUnique(i + 1, n, 0, i + 1);
    } else {
      ModUnique(i + 1, n, 1, 0);
    }
  }

  /** The nodes at a distance of less than `m` from `start` are healthy. */
  predicate HealthyRound(nodes: seq<Node>, start: nat, m: nat)
    requires start < |nodes| && m <= |nodes|
  {
    forall k :: 0 <= k < m ==> nodes[Round(start, k, |nodes|)].healthy
  }

  lemma PlaceOne(idx: nat, n: nat)
    requires idx < n && 1 < n
    ensures Place(n, idx, 1) == Round(idx, 1, n)
  {
    NextRound(idx, n);
  }

  lemma NextIsAfter(nodes: seq<Node>, idx: nat)
    requires idx < |nodes| && 1 < |nodes| && nodes[Round(idx, 1, |nodes|)].healthy
    ensures Next(nodes, idx) == (nodes, Round(idx, 1, |nodes|))
  {
    hide Place, Round;
    PlaceOne(idx, |nodes|);
  }

  /** The nodes when the attempt at `idx` has failed and its successor is looked for. */
  function Left(p: Pool, idx: nat, turn: Turn): (r: seq<Node>)
    requires idx < |p.nodes|
    ensures |r| == |p.nodes|
  {
    var nodes := Recover(p.nodes, turn.recoveries);
    Down(match turn.response case Answer(ledger) => Learn(nodes, idx, ledger) case Failure => nodes, idx)
  }

  lemma NotServed(lag: nat, p: Pool, idx: nat, turn: Turn)
    requires Valid(p) && idx < |p.nodes|
    requires !Attempt(lag, p, idx, turn).served
    ensures (Attempt(lag, p, idx, turn).pool.nodes, Attempt(lag, p, idx, turn).idx) == Next(Left(p, idx, turn), idx)
  {
    hide Next, Best;
  }

  lemma LeftHealth(p: Pool, idx: nat, turn: Turn, i: nat)
    requires idx < |p.nodes| && i < |p.nodes|
    ensures i != idx && p.nodes[i].healthy ==> Left(p, idx, turn)[i].healthy
    ensures turn.recoveries == map[] ==> (Left(p, idx, turn)[i].healthy <==> i != idx && p.nodes[i].healthy)
  {
  }

  /** A node that does not serve is followed by the one after it, as long as that one is healthy. */
  lemma WalksOn(lag: nat, p: Pool, idx: nat, turn: Turn, m: nat)
    requires Valid(p) && idx < |p.nodes| && 1 < m <= |p.nodes|
    requires HealthyRound(p.nodes, idx, m)
    requires !Attempt(lag, p, idx, turn).served
    ensures var r := Attempt(lag, p, idx, turn);
            r.idx == Round(idx, 1, |p.nodes|) && HealthyRound(r.pool.nodes, r.idx, m - 1)
  {
    hide Attempt, Left, Next, Round;
    var n, left := |p.nodes|, Left(p, idx, turn);
    NotServed(lag, p, idx, turn);
    forall k | 0 <= k < m - 1 ensures left[Round(Round(idx, 1, n), k, n)].healthy {
      assert p.nodes[Round(idx, k + 1, n)].healthy;
      RoundAdds(idx, k, n);
      LeftHealth(p, idx, turn, Round(idx, k + 1, n));
    }
    RoundAdds(idx, 0, n);
    NextIsAfter(left, idx);
  }

  lemma RoundAdds(idx: nat, k: nat, n: nat)
    requires idx < n && k + 1 < n
    ensures Round(Round(idx, 1, n), k, n) == Round(idx, k + 1, n) != idx
    ensures k == 0 ==> Round(Round(idx, 1, n), k, n) == Round(idx, 1, n)
  {
  }

  lemma {:induction false} HealthyWalk(lag: nat, p: Pool, idx: nat, turns: seq<Turn>)
    requires Valid(p) && idx < |p.nodes| && |turns| <= |p.nodes|
    requires HealthyRound(p.nodes, idx, |turns|)
    ensures var r := Attempts(lag, p, idx, turns);
            && |r.visited| <= |turns| && (!r.served ==> |r.visited| == |turns|)
            && forall k :: 0 <= k < |r.visited| ==> r.visited[k] == Round(idx, k, |p.nodes|)
    decreases |turns|
  {
    if turns != [] {
      var step := Attempt(lag, p, idx, turns[0]);
      if !step.served && |turns| > 1 {
        WalksOn(lag, p, idx, turns[0], |turns|);
        hide Attempt;
        HealthyWalk(lag, step.pool, step.idx, turns[1..]);
        var rest := Attempts(lag, step.pool, step.idx, turns[1..]);
        var r := Attempts(lag, p, idx, turns);
        assert r.visited == [idx] + rest.visited;
        forall k | 1 <= k < |r.visited| ensures r.visited[k] == Round(idx, k, |p.nodes|) {
          RoundAdds(idx, k - 1, |p.nodes|);
        }
      } else if !step.served {
        assert turns[1..] == [];
      }
    }
  }

  lemma RoundCovers(start: nat, i: nat, n: nat) returns (k: nat)
    requires start < n && i < n
    ensures k < n && Round(start, k, n) == i
  {
    k := if start <= i then i - start else i + n - start;
  }

  /**
   When every node starts healthy, a call tries no node twice, whatever comes back meanwhile, and throws only
   after every node was tried.
   */
  lemma HealthyStartTriesEachOnce(lag: nat, p: Pool, turns: seq<Turn>)
    requires Valid(p) && |turns| == |p.nodes|
    requires forall i :: 0 <= i < |p.nodes| ==> p.nodes[i].healthy
    ensures var r := Attempts(lag, p, p.primaryIndex, turns);
            && (forall j, k :: 0 <= j < k < |r.visited| ==> r.visited[j] != r.visited[k])
            && (!r.served ==> forall i :: 0 <= i < |p.nodes| ==> i in r.visited)
  {
    HealthyWalk(lag, p, p.primaryIndex, turns);
    var r := Attempts(lag, p, p.primaryIndex, turns);
    hide Attempts, HealthyRound;
    if !r.served {
      forall i | 0 <= i < |p.nodes| ensures i in r.visited {
        var k := RoundCovers(p.primaryIndex, i, |p.nodes|);
        assert r.visited[k] == i;
      }
    }
  }

  /** A call that throws got an error from, or found lagging when it answered, every node it tried. */
  lemma {:induction false} ThrownMeansNoneServed(lag: nat, p: Pool, idx: nat, turns: seq<Turn>, k: nat)
    requires Valid(p) && idx < |p.nodes| && k < |turns|
    requires !Attempts(lag, p, idx, turns).served
    ensures |Attempts(lag, p, idx, turns).visited| == |turns|
    ensures var then_, i := Attempts(lag, p, idx, turns[..k]).pool, Attempts(lag, p, idx, turns).visited[k];
            Valid(then_) && i < |then_.nodes| && !Attempt(lag, then_, i, turns[k]).served
    decreases |turns|
  {
    var step := Attempt(lag, p, idx, turns[0]);
    AttemptsUnfold(lag, p, idx, turns);
    hide Attempt, Attempts;
    if |turns| == 1 {
      assert turns[1..] == [];
      NoAttempts(lag, step.pool, step.idx);
      NoAttempts(lag, p, idx);
    } else {
      ThrownMeansNoneServed(lag, step.pool, step.idx, turns[1..], if k > 0 then k - 1 else 0);
      if k > 0 {
        assert turns[..k][0] == turns[0] && turns[..k][1..] == turns[1..][..k - 1];
        AttemptsUnfold(lag, p, idx, turns[..k]);
      } else {
        NoAttempts(lag, p, idx);
      }
    }
  }

  lemma NoAttempts(lag: nat, p: Pool, idx: nat)
    requires Valid(p) && idx < |p.nodes|
    ensures Attempts(lag, p, idx, []) == Outcome(p, [], false)
  {
  }

  lemma AttemptsUnfold(lag: nat, p: Pool, idx: nat, turns: seq<Turn>)
    requires Valid(p) && idx < |p.nodes| && turns != []
    ensures var step := Attempt(lag, p, idx, turns[0]);
            Attempts(lag, p, idx, turns) ==
            if step.served then Outcome(step.pool, [idx], true)
            else
              var rest := Attempts(lag, step.pool, step.idx, turns[1..]);
              Outcome(rest.pool, [idx] + rest.visited, rest.served)
  {
    hide Attempt;
  }

  /* ----- when some nodes start unhealthy ----- */

  function HealthyOthers(nodes: seq<Node>, idx: nat): set<nat> {
    set i: nat | i < |nodes| && nodes[i].healthy && i != idx
  }

  function Below(m: int): (r: set<nat>)
    ensures forall i: nat :: i in r <==> i < m
  {
    if m <= 0 then {} else Below(m - 1) + {m - 1}
  }

  lemma {:induction false} BelowSize(m: nat)
    ensures |Below(m)| == m
  {
    if m > 0 {
      BelowSize(m - 1);
    }
  }

  function SetOf(visited: seq<nat>): set<nat> {
    set i | i in visited
  }

  predicate Quiet(turns: seq<Turn>) {
    forall k :: 0 <= k < |turns| ==> turns[k].recoveries == map[]
  }

  lemma {:induction false} SeekMeaning(nodes: seq<Node>, start: nat, i: nat)
    requires nodes != []
    ensures Seek(nodes, start, i).Some? ==> nodes[Seek(nodes, start, i).value].healthy
    ensures Seek(nodes, start, i).None? ==> forall k :: i <= k <= |nodes| ==> !nodes[Place(|nodes|, start, k)].healthy
    decreases |nodes| + 1 - i
  {
    hide Place;
    if i <= |nodes| && !nodes[Place(|nodes|, start, i)].healthy {
      SeekMeaning(nodes, start, i + 1);
    }
  }

  lemma PlaceReaches(start: nat, i: nat, n: nat) returns (k: nat)
    requires start < n && i < n
    ensures 1 <= k <= n && Place(n, start, k) == i
  {
    k := if start < i then i - start else i + n - start;
    if start < i {
      ModUnique(start + k, n, 0, i);
    } else {
      ModUnique(start + k, n, 1, i);
    }
  }

  lemma SeekMissesNone(nodes: seq<Node>, start: nat, i: nat)
    requires start < |nodes| && i < |nodes| && nodes[i].healthy
    ensures Seek(nodes, start, 1).Some?
  {
    hide Place, Seek;
    SeekMeaning(nodes, start, 1);
    var k := PlaceReaches(start, i, |nodes|);
  }

  /** The health after a node that did not serve: the next one is a healthy other node, or all are reset. */
  lemma QuietStep(lag: nat, p: Pool, idx: nat, turn: Turn)
    requires Valid(p) && idx < |p.nodes| && turn.recoveries == map[]
    requires !Attempt(lag, p, idx, turn).served
    ensures var r, others := Attempt(lag, p, idx, turn), HealthyOthers(p.nodes, idx);
            && (others != {} ==> r.idx in others && HealthyOthers(r.pool.nodes, r.idx) == others - {r.idx})
            && (others == {} ==> r.idx == 0 && HealthyRound(r.pool.nodes, 0, |p.nodes|))
  {
    hide Attempt, Left, Seek;
    NotServed(lag, p, idx, turn);
    var left, others := Left(p, idx, turn), HealthyOthers(p.nodes, idx);
    forall i: nat | i < |left| ensures left[i].healthy <==> i in others {
      LeftHealth(p, idx, turn, i);
    }
    SeekMeaning(left, idx, 1);
    if i: nat :| i in others {
      SeekMissesNone(left, idx, i);
    }
  }

  /**
   From node `idx`, attempts that do not serve reach it, every healthy other node, and then the first nodes of the
   list.
   */
  lemma {:induction false} QuietVisits(lag: nat, p: Pool, idx: nat, turns: seq<Turn>)
    requires Valid(p) && idx < |p.nodes| && Quiet(turns)
    requires |HealthyOthers(p.nodes, idx)| < |turns| <= |p.nodes|
    requires !Attempts(lag, p, idx, turns).served
    ensures var others := HealthyOthers(p.nodes, idx);
            SetOf(Attempts(lag, p, idx, turns).visited) == {idx} + others + Below(|turns| - 1 - |others|)
    decreases |turns|
  {
    hide Attempt, Attempts, HealthyOthers, Below, SetOf, HealthyRound, Quiet;
    var n, others := |p.nodes|, HealthyOthers(p.nodes, idx);
    var step := Attempt(lag, p, idx, turns[0]);
    QuietTail(turns);
    AttemptsUnfold(lag, p, idx, turns);
    QuietStep(lag, p, idx, turns[0]);
    var rest := Attempts(lag, step.pool, step.idx, turns[1..]);
    if others != {} {
      OneFewer(others, step.idx);
      QuietVisits(lag, step.pool, step.idx, turns[1..]);
      VisitsMore(rest.visited, idx, others, step.idx, |turns| - 1 - |others|);
    } else {
      Shorter(step.pool.nodes, n, |turns| - 1);
      HealthyWalk(lag, step.pool, 0, turns[1..]);
      FirstOnes(rest.visited, n);
      VisitsMoreOnly(rest.visited, idx, |turns| - 1);
    }
  }

  lemma QuietTail(turns: seq<Turn>)
    requires turns != [] && Quiet(turns)
    ensures turns[0].recoveries == map[] && Quiet(turns[1..])
  {
  }

  lemma OneFewer(others: set<nat>, x: nat)
    requires x in others
    ensures |others - {x}| == |others| - 1
  {
  }

  lemma VisitsMore(rest: seq<nat>, idx: nat, others: set<nat>, next: nat, m: int)
    requires next in others && SetOf(rest) == {next} + (others - {next}) + Below(m)
    ensures SetOf([idx] + rest) == {idx} + others + Below(m)
  {
    VisitedCons(idx, rest);
    hide SetOf, Below;
    assert {next} + (others - {next}) == others;
  }

  lemma VisitsMoreOnly(rest: seq<nat>, idx: nat, m: int)
    requires SetOf(rest) == Below(m)
    ensures SetOf([idx] + rest) == {idx} + {} + Below(m)
  {
    VisitedCons(idx, rest);
    hide SetOf, Below;
  }

  lemma Shorter(nodes: seq<Node>, m: nat, k: nat)
    requires nodes != [] && k <= m <= |nodes| && HealthyRound(nodes, 0, m)
    ensures HealthyRound(nodes, 0, k)
  {
  }

  lemma VisitedCons(idx: nat, rest: seq<nat>)
    ensures SetOf([idx] + rest) == {idx} + SetOf(rest)
  {
  }

  lemma FirstOnes(visited: seq<nat>, n: nat)
    requires |visited| <= n
    requires forall k :: 0 <= k < |visited| ==> visited[k] == Round(0, k, n)
    ensures SetOf(visited) == Below(|visited|)
  {
    forall i: nat | i < |visited| ensures i in visited {
      assert visited[i] == i;
    }
  }

  predicate IsDown(p: Pool, i: nat)
    requires i < |p.nodes|
  {
    i != p.primaryIndex && !p.nodes[i].healthy
  }

  function DownSet(p: Pool): set<nat> {
    set i: nat | i < |p.nodes| && IsDown(p, i)
  }

  lemma Partition(p: Pool)
    requires Valid(p)
    ensures |DownSet(p)| == |p.nodes| - 1 - |HealthyOthers(p.nodes, p.primaryIndex)|
  {
    BelowSize(|p.nodes|);
    forall i: nat ensures i in Below(|p.nodes|) <==>
                          i == p.primaryIndex || i in HealthyOthers(p.nodes, p.primaryIndex) || i in DownSet(p)
                  ensures i in HealthyOthers(p.nodes, p.primaryIndex) ==> i != p.primaryIndex && i !in DownSet(p)
                  ensures i in DownSet(p) ==> i != p.primaryIndex
    {
    }
    hide Below, HealthyOthers, DownSet;
    ThreeParts(Below(|p.nodes|), {p.primaryIndex}, HealthyOthers(p.nodes, p.primaryIndex), DownSet(p));
  }

  lemma ThreeParts(all: set<nat>, a: set<nat>, b: set<nat>, c: set<nat>)
    requires all == a + b + c && a !! b && (a + b) !! c
    ensures |all| == |a| + |b| + |c|
  {
    assert |a + b| == |a| + |b|;
  }

  predicate Gapless(d: set<nat>) {
    forall j :: j in d ==> Below(j) <= d
  }

  /** A set lies below its own size exactly when it has no gap below any of its elements. */
  lemma NoGaps(d: set<nat>)
    ensures d <= Below(|d|) <==> Gapless(d)
  {
    BelowSize(|d|);
    if d <= Below(|d|) {
      SubsetSameSize(d, Below(|d|));
    } else if Gapless(d) {
      var j: nat :| j in d && j !in Below(|d|);
      BelowSize(j + 1);
      assert Below(j + 1) <= d;
      SubsetSize(Below(j + 1), d);
    }
  }

  ghost predicate Covers(visited: seq<nat>, n: nat) {
    forall i: nat :: i < n ==> i in visited
  }

  /** Apart from the primary, the nodes that are down are the first ones of the list. */
  ghost predicate DownFirst(p: Pool) {
    forall i: nat, j: nat :: i < j < |p.nodes| && IsDown(p, j) ==> IsDown(p, i)
  }

  lemma DownFirstIsGapless(p: Pool)
    ensures DownFirst(p) <==> Gapless(DownSet(p))
  {
    var d := DownSet(p);
    assert forall i: nat :: i in d <==> i < |p.nodes| && IsDown(p, i);
    hide IsDown, DownSet;
    if DownFirst(p) {
      forall j | j in d ensures Below(j) <= d {
        forall i | i in Below(j) ensures i in d {
        }
      }
    } else {
      var i: nat, j: nat :| i < j < |p.nodes| && IsDown(p, j) && !IsDown(p, i);
      assert i in Below(j) && j in d && i !in d;
    }
  }

  lemma CoversIffBelow(p: Pool, visited: seq<nat>, m: int)
    requires Valid(p)
    requires SetOf(visited) == {p.primaryIndex} + HealthyOthers(p.nodes, p.primaryIndex) + Below(m)
    ensures Covers(visited, |p.nodes|) <==> DownSet(p) <= Below(m)
  {
    var down, others, below := DownSet(p), HealthyOthers(p.nodes, p.primaryIndex), Below(m);
    assert forall i: nat :: i < |p.nodes| ==> (i in down <==> i != p.primaryIndex && i !in others);
    assert forall i :: i in down ==> i < |p.nodes|;
    assert forall i: nat :: i in visited <==> i in SetOf(visited);
    hide Below, HealthyOthers, DownSet, SetOf;
    assert forall i: nat :: i in visited <==> i == p.primaryIndex || i in others || i in below;
    if down <= below {
    } else {
      var i :| i in down && i !in below;
      assert i !in visited;
    }
  }

  /**
   In general, with nothing coming back meanwhile, a call that throws has tried every node exactly when the
   nodes that were down at the start, apart from the primary, are the first ones of the list: once the healthy
   ones are used up, all are reset and the client starts over at node 0.
   */
  lemma ThrowCoversIff(lag: nat, p: Pool, turns: seq<Turn>)
    requires Valid(p) && |turns| == |p.nodes| && Quiet(turns)
    requires !Attempts(lag, p, p.primaryIndex, turns).served
    ensures Covers(Attempts(lag, p, p.primaryIndex, turns).visited, |p.nodes|) <==> DownFirst(p)
  {
    hide Attempts, Covers, DownFirst, Gapless, Below, HealthyOthers, DownSet, Quiet;
    Partition(p);
    QuietVisits(lag, p, p.primaryIndex, turns);
    CoversIffBelow(p, Attempts(lag, p, p.primaryIndex, turns).visited, |DownSet(p)|);
    NoGaps(DownSet(p));
    DownFirstIsGapless(p);
  }
}
