/**
 The weighted provider pool: `RpcProvider`, `selectProvider` and `call` of indexer/src/rpcProviderPool.js.
 Fractions are reals, and the random draw, the responses and their latencies are inputs.
 */
module ProviderPool {
  import opened Options
  import opened Sets

  /** `RPC_HEALTH_WINDOW` and `RPC_CALL_TIMEOUT_MS`, both positive. */
  datatype Config = Config(window: int, timeout: int)

  ghost predicate ValidConfig(cfg: Config) {
    cfg.window > 0 && cfg.timeout > 0
  }

  function Successes(outcomes: seq<bool>): (n: nat)
    ensures n <= |outcomes|
  {
    if outcomes == [] then 0 else Successes(outcomes[..|outcomes| - 1]) + if outcomes[|outcomes| - 1] then 1 else 0
  }

  function Sum(xs: seq<nat>): nat {
    if xs == [] then 0 else Sum(xs[..|xs| - 1]) + xs[|xs| - 1]
  }

  function Uptime(outcomes: seq<bool>): real {
    if outcomes == [] then 1.0 else Successes(outcomes) as real / |outcomes| as real
  }

  function AvgLatency(latencies: seq<nat>): real {
    if latencies == [] then 0.0 else Sum(latencies) as real / |latencies| as real
  }

  function Max(a: real, b: real): real {
    if a >= b then a else b
  }

  function HealthScore(cfg: Config, outcomes: seq<bool>, latencies: seq<nat>): real
    requires cfg.timeout > 0
  {
    var uptime := Uptime(outcomes);
    var latencyScore := Max(0.0, 1.0 - AvgLatency(latencies) / cfg.timeout as real);
    var errorScore := 1.0 - (1.0 - uptime);
    uptime * 0.5 + latencyScore * 0.3 + errorScore * 0.2
  }

  lemma UpToOne(q: real, b: real)
    requires b > 0.0
    ensures q * b <= b <==> q <= 1.0
    ensures 0.0 <= q * b <==> 0.0 <= q
  {
    assert (1.0 - q) * b == b - q * b;
    if q <= 1.0 {
      assert (1.0 - q) * b >= 0.0;
    } else {
      assert (q - 1.0) * b > 0.0;
      assert (q - 1.0) * b == q * b - b;
    }
    if q < 0.0 {
      assert (-q) * b > 0.0;
      assert (-q) * b == -(q * b);
    }
  }

  lemma Quotient(q: real, b: real, a: real)
    requires b > 0.0 && q * b == a
    ensures a >= 0.0 <==> q >= 0.0
    ensures a <= b <==> q <= 1.0
  {
    UpToOne(q, b);
  }

  lemma Twice(q: real, b: real, a: real)
    requires b > 0.0 && q * b == a
    ensures a + a <= b <==> q + q <= 1.0
  {
    assert (q + q) * b == a + a;
    Quotient(q + q, b, a + a);
  }

  lemma Fraction(a: real, b: real)
    requires 0.0 <= a && b > 0.0
    ensures 0.0 <= a / b
    ensures a <= b ==> a / b <= 1.0
  {
    var q := a / b;
    assert q * b == a;
    Quotient(q, b, a);
  }

  /** The score is a fraction, whatever the window holds. */
  lemma ScoreIsFraction(cfg: Config, outcomes: seq<bool>, latencies: seq<nat>)
    requires ValidConfig(cfg)
    ensures 0.0 <= HealthScore(cfg, outcomes, latencies) <= 1.0
  {
    if outcomes != [] {
      Fraction(Successes(outcomes) as real, |outcomes| as real);
    }
    if latencies != [] {
      Fraction(Sum(latencies) as real, |latencies| as real);
    }
    Fraction(AvgLatency(latencies), cfg.timeout as real);
    hide Uptime, AvgLatency;
    assert 0.0 <= Uptime(outcomes) <= 1.0;
  }

  lemma {:induction false} SuccessesAreCounted(outcomes: seq<bool>)
    ensures Successes(outcomes) == multiset(outcomes)[true]
  {
    if outcomes != [] {
      SuccessesAreCounted(outcomes[..|outcomes| - 1]);
      assert outcomes == outcomes[..|outcomes| - 1] + [outcomes[|outcomes| - 1]];
    }
  }

  /** The uptime is the share of the calls that succeeded, 1 before any call. */
  lemma UptimeMeaning(outcomes: seq<bool>)
    ensures Uptime(outcomes) * |outcomes| as real == multiset(outcomes)[true] as real
    ensures outcomes == [] ==> Uptime(outcomes) == 1.0
  {
    SuccessesAreCounted(outcomes);
  }

  lemma {:induction false} SumBetween(xs: seq<nat>, low: nat, high: nat)
    requires forall i :: 0 <= i < |xs| ==> low <= xs[i] <= high
    ensures low * |xs| <= Sum(xs) <= high * |xs|
  {
    if xs != [] {
      var n := |xs| - 1;
      SumBetween(xs[..n], low, high);
      OneMore(low, n);
      OneMore(high, n);
    }
  }

  lemma OneMore(x: nat, n: nat)
    ensures x * (n + 1) == x * n + x
  {
  }

  lemma Ordered(a: real, b: real, t: real)
    requires t > 0.0 && a <= b
    ensures a / t <= b / t
  {
    var x, y := a / t, b / t;
    assert x * t == a && y * t == b;
    assert (y - x) * t == b - a;
    Quotient(y - x, t, b - a);
  }

  /** The average lies between the shortest and the longest latency. */
  lemma AverageBetween(latencies: seq<nat>, low: nat, high: nat)
    requires latencies != [] && forall i :: 0 <= i < |latencies| ==> low <= latencies[i] <= high
    ensures low as real <= AvgLatency(latencies) <= high as real
  {
    SumBetween(latencies, low, high);
    hide Sum;
    QuotientBetween(low, high, Sum(latencies), |latencies|);
  }

  lemma QuotientBetween(low: nat, high: nat, sum: nat, n: nat)
    requires n > 0 && low * n <= sum <= high * n
    ensures low as real <= sum as real / n as real <= high as real
  {
    Cancels(low, n);
    Cancels(high, n);
    var l, h := low * n, high * n;
    Ordered(l as real, sum as real, n as real);
    Ordered(sum as real, h as real, n as real);
  }

  lemma Cancels(x: nat, n: nat)
    requires n > 0
    ensures (x * n) as real / n as real == x as real
  {
    assert (x * n) as real == x as real * n as real;
  }

  /** A window with fewer failures and no longer latencies never scores lower, and with fewer failures always higher. */
  lemma BetterScoresHigher(cfg: Config, outcomes: seq<bool>, latencies: seq<nat>, outcomes': seq<bool>,
                           latencies': seq<nat>)
    requires ValidConfig(cfg)
    requires Uptime(outcomes) >= Uptime(outcomes') && AvgLatency(latencies) <= AvgLatency(latencies')
    ensures HealthScore(cfg, outcomes, latencies) >= HealthScore(cfg, outcomes', latencies')
    ensures Uptime(outcomes) > Uptime(outcomes') ==>
              HealthScore(cfg, outcomes, latencies) > HealthScore(cfg, outcomes', latencies')
  {
    Ordered(AvgLatency(latencies), AvgLatency(latencies'), cfg.timeout as real);
    hide Uptime, AvgLatency;
  }

  /** The share of latency in the score is 0.3: a provider that never fails scores 0.7 when slow, 1 when immediate. */
  lemma ScoreCorners(cfg: Config, outcomes: seq<bool>, latencies: seq<nat>)
    requires ValidConfig(cfg)
    ensures Uptime(outcomes) == 1.0 && AvgLatency(latencies) == 0.0 ==> HealthScore(cfg, outcomes, latencies) == 1.0
    ensures Uptime(outcomes) == 0.0 && AvgLatency(latencies) == 0.0 ==> HealthScore(cfg, outcomes, latencies) == 0.3
    ensures AvgLatency(latencies) >= cfg.timeout as real ==>
              HealthScore(cfg, outcomes, latencies) == 0.7 * Uptime(outcomes)
    ensures AvgLatency(latencies) * 2.0 == cfg.timeout as real ==>
              HealthScore(cfg, outcomes, latencies) == 0.7 * Uptime(outcomes) + 0.15
  {
    var t, a := cfg.timeout as real, AvgLatency(latencies);
    hide Uptime, AvgLatency;
    var q := a / t;
    assert q * t == a;
    if a >= t {
      Ordered(t, a, t);
    }
    if a * 2.0 == t {
      assert q == 0.5;
    }
  }

  /** The last `n` elements. */
  function Suffix<T>(s: seq<T>, n: nat): seq<T> {
    if |s| <= n then s else s[|s| - n..]
  }

  /** `errorRate >= 0.5` */
  predicate HalfFail(outcomes: seq<bool>) {
    1.0 - Uptime(outcomes) >= 0.5
  }

  lemma HalfOfInts(s: nat, n: nat)
    requires n > 0
    ensures s as real / n as real <= 0.5 <==> 2 * s <= n
  {
    var q := s as real / n as real;
    assert q * n as real == s as real;
    Twice(q, n as real, s as real);
    assert s as real + s as real == (2 * s) as real;
  }

  lemma HalfFailMeaning(outcomes: seq<bool>)
    ensures HalfFail(outcomes) <==> outcomes != [] && 2 * Successes(outcomes) <= |outcomes|
  {
    hide Successes;
    if outcomes != [] {
      HalfOfInts(Successes(outcomes), |outcomes|);
    }
  }

  class RpcProvider {
    const url: string
    var outcomes: seq<bool>
    var latencies: seq<nat>
    var healthy: bool
    var latestLedger: nat

    constructor (url: string)
      ensures this.url == url && outcomes == [] && latencies == [] && healthy && latestLedger == 0
    {
      this.url, outcomes, latencies, healthy, latestLedger := url, [], [], true, 0;
    }

    /** Keeps the last `window` calls. */
    method RecordOutcome(cfg: Config, success: bool, latencyMs: nat)
      requires ValidConfig(cfg) && |outcomes| <= cfg.window && |latencies| <= cfg.window
      modifies this`outcomes, this`latencies
      ensures outcomes == Suffix(old(outcomes) + [success], cfg.window)
      ensures latencies == Suffix(old(latencies) + [latencyMs], cfg.window)
    {
      outcomes := outcomes + [success];
      latencies := latencies + [latencyMs];
      if |outcomes| > cfg.window { outcomes := outcomes[1..]; }
      if |latencies| > cfg.window { latencies := latencies[1..]; }
    }
  }

  /* ----- weighted choice ----- */

  function Total(ws: seq<real>): real {
    if ws == [] then 0.0 else Total(ws[..|ws| - 1]) + ws[|ws| - 1]
  }

  ghost predicate Positive(ws: seq<real>) {
    forall i :: 0 <= i < |ws| ==> ws[i] > 0.0
  }

  /** `k` is drawn for the rolls of an interval as long as its weight: chances are proportional to the weights. */
  ghost predicate Drawn(ws: seq<real>, roll: real, k: nat) {
    k < |ws| && (Total(ws[..k]) < roll || (k == 0 && roll == 0.0)) && roll <= Total(ws[..k + 1])
  }

  lemma {:induction false} TotalGrows(ws: seq<real>, i: nat, j: nat)
    requires Positive(ws) && i <= j <= |ws|
    ensures 0.0 <= Total(ws[..i]) <= Total(ws[..j])
  {
    if i < j {
      TotalGrows(ws, i, j - 1);
      assert ws[..j][..j - 1] == ws[..j - 1];
    } else if i > 0 {
      TotalGrows(ws, i - 1, i - 1);
      assert ws[..i][..i - 1] == ws[..i - 1];
    }
  }

  function Roll(random: real, totalScore: real): real {
    random * totalScore
  }

  /** `Math.random() * totalScore` draws `k`. */
  ghost predicate DrawnBy(ws: seq<real>, random: real, k: nat) {
    Drawn(ws, Roll(random, Total(ws)), k)
  }

  ghost predicate DrawnFrom(candidates: seq<nat>, weights: seq<real>, random: real, chosen: nat) {
    if candidates == [] then chosen == 0
    else exists k: nat :: k < |candidates| && candidates[k] == chosen && DrawnBy(weights, random, k)
  }

  /** No roll draws two of them. */
  lemma DrawnOnce(ws: seq<real>, roll: real, j: nat, k: nat)
    requires Positive(ws) && Drawn(ws, roll, j) && Drawn(ws, roll, k)
    ensures j == k
  {
    TotalGrows(ws, 0, 1);
    if j < k {
      TotalGrows(ws, j + 1, k);
    } else if k < j {
      TotalGrows(ws, k + 1, j);
    }
  }

  method DrawAt(ws: seq<real>, start: real) returns (k: nat)
    requires ws != [] && Positive(ws) && 0.0 <= start <= Total(ws)
    ensures Drawn(ws, start, k)
  {
    var roll := start;
    assert ws[..|ws|] == ws;
    k := 0;
    while k < |ws|
      invariant k <= |ws| && roll == start - Total(ws[..k])
      invariant k > 0 ==> roll > 0.0
    {
      assert ws[..k + 1][..k] == ws[..k];
      roll := roll - ws[k];
      if roll <= 0.0 {
        return;
      }
      k := k + 1;
    }
    // the code's fallback to the last candidate is for rounding only
    assert false;
  }

  method Draw(ws: seq<real>, random: real) returns (k: nat)
    requires ws != [] && Positive(ws) && 0.0 <= random < 1.0
    ensures k < |ws| && DrawnBy(ws, random, k)
  {
    hide Total, Positive, Drawn, Roll;
    var roll := Roll(random, Total(ws));
    RollInRange(ws, random);
    k := DrawAt(ws, roll);
    DrawnInRange(ws, roll, k);
  }

  lemma RollInRange(ws: seq<real>, random: real)
    requires Positive(ws) && 0.0 <= random < 1.0
    ensures 0.0 <= Roll(random, Total(ws)) <= Total(ws)
  {
    TotalGrows(ws, 0, |ws|);
    assert ws[..|ws|] == ws;
    hide Total, Roll;
    Product(random, Total(ws));
  }

  lemma DrawnInRange(ws: seq<real>, roll: real, k: nat)
    requires Drawn(ws, roll, k)
    ensures k < |ws|
  {
  }

  lemma NonNegative(x: real, y: real)
    requires 0.0 <= x && 0.0 <= y
    ensures 0.0 <= x * y
  {
  }

  lemma Remainder(x: real, y: real)
    ensures (1.0 - x) * y == y - x * y
  {
  }

  lemma Product(random: real, total: real)
    requires 0.0 <= random < 1.0 && 0.0 <= total
    ensures 0.0 <= Roll(random, total) <= total
  {
    NonNegative(random, total);
    NonNegative(1.0 - random, total);
    Remainder(random, total);
  }

  /* ----- the pool ----- */

  datatype Response = Answer(ledger: nat) | Failure

  /** The end of a call to provider `i`, or of a recovery probe of it. */
  datatype Note = Note(i: nat, response: Response, latency: nat, probe: bool)

  /** One pass of the loop in `call`: the draw, the response, and what other calls and probes end with meanwhile. */
  datatype Turn = Turn(random: real, response: Response, latency: nat, meanwhile: seq<Note>)

  predicate Draws(turns: seq<Turn>) {
    forall k :: 0 <= k < |turns| ==> 0.0 <= turns[k].random < 1.0
  }

  predicate FirstFailed(turns: seq<Turn>, n: nat) {
    forall k :: 0 <= k < n && k < |turns| ==> turns[k].response.Failure?
  }

  /**
   The result of a call: no URL is contacted twice, the call ends with the first attempt that is answered, and it
   throws only after every URL was contacted and failed.
   */
  ghost predicate CallResult(urls: set<string>, turns: seq<Turn>, served: Option<nat>, contacted: seq<string>) {
    && |contacted| <= |turns|
    && (forall j, k :: 0 <= j < k < |contacted| ==> contacted[j] != contacted[k])
    && (forall k :: 0 <= k < |contacted| ==> contacted[k] in urls)
    && (forall k :: 0 <= k < |contacted| ==> (turns[k].response.Answer? <==> served == Some(k)))
    && (served.Some? ==> served.value == |contacted| - 1)
    && (served.None? ==> forall url :: url in urls ==> url in contacted)
  }

  lemma Thrown(urls: set<string>, turns: seq<Turn>, tried: set<string>, contacted: seq<string>)
    requires Listed(tried, contacted) && FirstFailed(turns, |tried|) && |tried| <= |turns| && tried == urls
    ensures CallResult(urls, turns, None, contacted)
  {
  }

  lemma Answered(urls: set<string>, turns: seq<Turn>, tried: set<string>, contacted: seq<string>)
    requires Listed(tried, contacted) && tried <= urls && 0 < |tried| <= |turns|
    requires FirstFailed(turns, |tried| - 1) && turns[|tried| - 1].response.Answer?
    ensures CallResult(urls, turns, Some(|contacted| - 1), contacted)
  {
  }

  lemma NoneFailed(turns: seq<Turn>)
    ensures FirstFailed(turns, 0)
  {
  }

  lemma OneMoreFailed(turns: seq<Turn>, n: nat)
    requires FirstFailed(turns, n) && n < |turns| && turns[n].response.Failure?
    ensures FirstFailed(turns, n + 1)
  {
  }

  /** A set and the list of its elements. */
  ghost predicate Listed(tried: set<string>, contacted: seq<string>) {
    && |contacted| == |tried|
    && (forall url :: url in tried <==> url in contacted)
    && forall j, k :: 0 <= j < k < |contacted| ==> contacted[j] != contacted[k]
  }

  lemma NothingListed()
    ensures Listed({}, [])
  {
  }

  lemma ListOneMore(tried: set<string>, contacted: seq<string>, url: string)
    requires Listed(tried, contacted) && url !in tried
    ensures Listed(tried + {url}, contacted + [url]) && |contacted| == |tried|
  {
  }

  /* ----- the providers' records as values ----- */

  datatype Record = Record(outcomes: seq<bool>, latencies: seq<nat>, healthy: bool, latestLedger: nat)

  /** What the end of a call, or of a probe, does to the record of its provider. */
  function Noted(cfg: Config, r: Record, note: Note): Record {
    var ok := note.response.Answer?;
    var outcomes := Suffix(r.outcomes + [ok], if cfg.window > 0 then cfg.window else 0);
    var latencies := Suffix(r.latencies + [note.latency], if cfg.window > 0 then cfg.window else 0);
    var healthy := if ok then true else r.healthy && (note.probe || !HalfFail(outcomes));
    var ledger := if ok && (note.probe || note.response.ledger != 0) then note.response.ledger else r.latestLedger;
    Record(outcomes, latencies, healthy, ledger)
  }

  function AllNoted(cfg: Config, rs: seq<Record>, notes: seq<Note>): (r: seq<Record>)
    ensures |r| == |rs|
  {
    if notes == [] then rs
    else
      var before := AllNoted(cfg, rs, notes[..|notes| - 1]);
      var note := notes[|notes| - 1];
      if note.i < |rs| then before[note.i := Noted(cfg, before[note.i], note)] else before
  }

  /** What an attempt leaves: the notes that came in while it waited, and then its own outcome. */
  function Attempted(cfg: Config, rs: seq<Record>, i: nat, turn: Turn): (r: seq<Record>)
    ensures |r| == |rs|
  {
    AllNoted(cfg, rs, turn.meanwhile + [Note(i, turn.response, turn.latency, false)])
  }

  /** What a call leaves that has contacted the providers `visited`. */
  function AfterCall(cfg: Config, rs: seq<Record>, visited: seq<nat>, turns: seq<Turn>): (r: seq<Record>)
    requires |visited| <= |turns|
    ensures |r| == |rs|
  {
    if visited == [] then rs
    else
      var n := |visited| - 1;
      Attempted(cfg, AfterCall(cfg, rs, visited[..n], turns), visited[n], turns[n])
  }

  lemma NoneContacted(cfg: Config, rs: seq<Record>, turns: seq<Turn>)
    ensures AfterCall(cfg, rs, [], turns) == rs
  {
  }

  lemma AfterCallSnoc(cfg: Config, rs: seq<Record>, visited: seq<nat>, i: nat, turns: seq<Turn>)
    requires |visited| < |turns|
    ensures AfterCall(cfg, rs, visited + [i], turns)
         == Attempted(cfg, AfterCall(cfg, rs, visited, turns), i, turns[|visited|])
  {
    assert (visited + [i])[..|visited|] == visited;
  }

  class Pool {
    const cfg: Config
    const providers: seq<RpcProvider>

    ghost predicate Valid()
      reads this, providers
    {
      && ValidConfig(cfg)
      && (forall i, j :: 0 <= i < j < |providers| ==> providers[i] != providers[j])
      && forall i :: 0 <= i < |providers| ==>
           |providers[i].outcomes| <= cfg.window && |providers[i].latencies| <= cfg.window
    }

    ghost function Records(): (rs: seq<Record>)
      reads this, providers
      ensures |rs| == |providers|
      ensures forall i :: 0 <= i < |rs| ==>
                rs[i] == Record(providers[i].outcomes, providers[i].latencies, providers[i].healthy,
                                providers[i].latestLedger)
    {
      RecordsTo(|providers|)
    }

    ghost function RecordsTo(n: nat): (rs: seq<Record>)
      requires n <= |providers|
      reads this, providers
      ensures |rs| == n
      ensures forall i :: 0 <= i < n ==>
                rs[i] == Record(providers[i].outcomes, providers[i].latencies, providers[i].healthy,
                                providers[i].latestLedger)
    {
      if n == 0 then []
      else
        var p := providers[n - 1];
        RecordsTo(n - 1) + [Record(p.outcomes, p.latencies, p.healthy, p.latestLedger)]
    }

    ghost function Urls(): set<string> {
      set i | 0 <= i < |providers| :: providers[i].url
    }

    constructor (cfg: Config, urls: seq<string>)
      requires ValidConfig(cfg)
      ensures Valid() && fresh(providers) && this.cfg == cfg && |providers| == |urls|
      ensures forall i :: 0 <= i < |urls| ==> providers[i].url == urls[i] && providers[i].healthy
    {
      var ps: seq<RpcProvider> := [];
      for i := 0 to |urls|
        invariant |ps| == i && fresh(ps)
        invariant forall j, k :: 0 <= j < k < i ==> ps[j] != ps[k]
        invariant forall j :: 0 <= j < i ==>
                    ps[j].url == urls[j] && ps[j].healthy && ps[j].outcomes == [] && ps[j].latencies == []
      {
        var p := new RpcProvider(urls[i]);
        ps := ps + [p];
      }
      this.cfg, providers := cfg, ps;
    }

    /**
     The end of a call: a provider goes down only by a failure that leaves half of its window or more failed, and
     answering a call brings it back.
     */
    method Settle(i: nat, response: Response, latency: nat)
      requires Valid() && i < |providers|
      modifies providers[i]
      ensures Valid()
      ensures var p := providers[i];
              && p.outcomes == Suffix(old(p.outcomes) + [response.Answer?], cfg.window)
              && p.latencies == Suffix(old(p.latencies) + [latency], cfg.window)
              && (p.healthy <==> if response.Answer? then true else old(p.healthy) && !HalfFail(p.outcomes))
              && p.latestLedger
              == (if response.Answer? && response.ledger != 0 then response.ledger else old(p.latestLedger))
      ensures Records() == old(Records())[i := Noted(cfg, old(Records())[i], Note(i, response, latency, false))]
    {
      hide HalfFail;
      var target := providers[i];
      target.RecordOutcome(cfg, response.Answer?, latency);
      match response
      case Answer(ledger) =>
        if ledger != 0 {
          target.latestLedger := ledger;
        }
        if !target.healthy {
          target.healthy := true;
        }
      case Failure =>
        if HalfFail(target.outcomes) {
          target.healthy := false;
        }
    }

    /** The recovery timer probes a provider that was unhealthy; its failure leaves the health as it is. */
    method Probe(i: nat, response: Response, latency: nat)
      requires Valid() && i < |providers|
      modifies providers[i]
      ensures Valid()
      ensures var p := providers[i];
              && p.outcomes == Suffix(old(p.outcomes) + [response.Answer?], cfg.window)
              && p.latencies == Suffix(old(p.latencies) + [latency], cfg.window)
              && (p.healthy <==> response.Answer? || old(p.healthy))
              && p.latestLedger == (if response.Answer? then response.ledger else old(p.latestLedger))
      ensures Records() == old(Records())[i := Noted(cfg, old(Records())[i], Note(i, response, latency, true))]
    {
      hide HalfFail;
      var provider := providers[i];
      match response
      case Answer(sequence) =>
        provider.latestLedger := sequence;
        provider.RecordOutcome(cfg, true, latency);
        provider.healthy := true;
      case Failure =>
        provider.RecordOutcome(cfg, false, latency);
    }

    method Meanwhile(notes: seq<Note>)
      requires Valid()
      modifies providers
      ensures Valid() && Records() == AllNoted(cfg, old(Records()), notes)
    {
      hide Noted;
      for k := 0 to |notes|
        invariant Valid() && Records() == AllNoted(cfg, old(Records()), notes[..k])
      {
        assert notes[..k + 1][..k] == notes[..k];
        assert notes[k] == Note(notes[k].i, notes[k].response, notes[k].latency, notes[k].probe);
        if notes[k].i < |providers| {
          if notes[k].probe {
            Probe(notes[k].i, notes[k].response, notes[k].latency);
          } else {
            Settle(notes[k].i, notes[k].response, notes[k].latency);
          }
        }
      }
      assert notes[..|notes|] == notes;
    }

    function Weight(p: RpcProvider): (w: real)
      requires cfg.timeout > 0
      reads p
      ensures w >= 0.01 && w >= HealthScore(cfg, p.outcomes, p.latencies)
      ensures w == 0.01 || w == HealthScore(cfg, p.outcomes, p.latencies)
    {
      Max(0.01, HealthScore(cfg, p.outcomes, p.latencies))
    }

    /** Other calls and probes end while the request to provider `i` is on its way. */
    method Await(i: nat, turn: Turn)
      requires Valid() && i < |providers|
      modifies providers
      ensures Valid() && Records() == Attempted(cfg, old(Records()), i, turn)
    {
      hide Noted;
      Meanwhile(turn.meanwhile);
      Settle(i, turn.response, turn.latency);
      assert (turn.meanwhile + [Note(i, turn.response, turn.latency, false)])[..|turn.meanwhile|] == turn.meanwhile;
    }

    /** The healthy providers, in order, and their weights. */
    method Candidates() returns (candidates: seq<nat>, weights: seq<real>)
      requires Valid()
      ensures |weights| == |candidates| && Positive(weights)
      ensures forall c :: 0 <= c < |candidates| ==>
                            candidates[c] < |providers| && weights[c] == Weight(providers[candidates[c]])
      ensures forall c, d :: 0 <= c < d < |candidates| ==> candidates[c] < candidates[d]
      ensures forall i :: 0 <= i < |providers| ==> (providers[i].healthy <==> i in candidates)
      ensures Weighed(candidates, weights)
    {
      hide HealthScore, Weight;
      candidates, weights := [], [];
      for i := 0 to |providers|
        invariant |weights| == |candidates| && Positive(weights)
        invariant forall c :: 0 <= c < |candidates| ==>
                                candidates[c] < i && weights[c] == Weight(providers[candidates[c]])
        invariant forall c, d :: 0 <= c < d < |candidates| ==> candidates[c] < candidates[d]
        invariant forall j :: 0 <= j < i ==> (providers[j].healthy <==> j in candidates)
      {
        if providers[i].healthy {
          candidates, weights := candidates + [i], weights + [Weight(providers[i])];
        }
      }
    }

    /** `candidates` are the healthy providers, in order, and `weights` theirs. */
    ghost predicate Weighed(candidates: seq<nat>, weights: seq<real>)
      requires cfg.timeout > 0
      reads this, providers
    {
      && |weights| == |candidates|
      && (forall c :: 0 <= c < |candidates| ==>
                        candidates[c] < |providers| && weights[c] == Weight(providers[candidates[c]]))
      && (forall c, d :: 0 <= c < d < |candidates| ==> candidates[c] < candidates[d])
      && (forall i :: 0 <= i < |providers| ==> (providers[i].healthy <==> i in candidates))
    }

    /** The random draw picks `chosen`: among the healthy ones by their weights, or the first if there is none. */
    ghost predicate Picked(random: real, chosen: nat)
      requires cfg.timeout > 0
      reads this, providers
    {
      exists candidates, weights :: Weighed(candidates, weights) && DrawnFrom(candidates, weights, random, chosen)
    }

    /** A healthy provider when there is one, drawn with a chance proportional to its weight; else the first. */
    method SelectProvider(random: real) returns (chosen: nat, candidates: seq<nat>, weights: seq<real>)
      requires Valid() && providers != [] && 0.0 <= random < 1.0
      ensures chosen < |providers|
      ensures |weights| == |candidates| && Positive(weights)
      ensures forall c :: 0 <= c < |candidates| ==>
                            candidates[c] < |providers| && weights[c] == Weight(providers[candidates[c]])
      ensures forall i :: 0 <= i < |providers| ==> (providers[i].healthy <==> i in candidates)
      ensures candidates == [] ==> chosen == 0
      ensures candidates != [] ==>
                exists k: nat :: k < |candidates| && candidates[k] == chosen && DrawnBy(weights, random, k)
      ensures Picked(random, chosen)
    {
      hide HealthScore, Weight, DrawnBy, Weighed;
      candidates, weights := Candidates();
      chosen := 0;
      if candidates != [] {
        var k := Draw(weights, random);
        chosen := candidates[k];
      }
      assert DrawnFrom(candidates, weights, random, chosen);
    }

    method FirstUntried(tried: set<string>) returns (r: Option<nat>)
      ensures r.None? ==> Urls() <= tried
      ensures r.Some? ==> r.value < |providers| && providers[r.value].url !in tried
                          && forall j :: 0 <= j < r.value ==> providers[j].url in tried
    {
      for i := 0 to |providers|
        invariant forall j :: 0 <= j < i ==> providers[j].url in tried
      {
        if providers[i].url !in tried {
          return Some(i);
        }
      }
      return None;
    }

    /** The drawn provider if its URL is untried, else the first untried one, if any. */
    method Target(random: real, tried: set<string>) returns (r: Option<nat>)
      requires Valid() && providers != [] && 0.0 <= random < 1.0
      ensures r.None? ==> Urls() <= tried
      ensures r.Some? ==> r.value < |providers| && providers[r.value].url !in tried && providers[r.value].url in Urls()
      ensures r.Some? ==>
                || Picked(random, r.value)
                || (&& (exists c :: 0 <= c < |providers| && Picked(random, c) && providers[c].url in tried)
                    && forall j :: 0 <= j < r.value ==> providers[j].url in tried)
    {
      hide HealthScore, Weight, DrawnBy, Positive, Picked;
      var candidate, _, _ := SelectProvider(random);
      if providers[candidate].url !in tried {
        r := Some(candidate);
      } else {
        r := FirstUntried(tried);
      }
      if r.Some? {
        UrlOf(r.value);
      }
    }

    /** `contacted` are the URLs of the providers `visited`. */
    ghost predicate Named(visited: seq<nat>, contacted: seq<string>) {
      && |visited| == |contacted|
      && forall k :: 0 <= k < |visited| ==> visited[k] < |providers| && providers[visited[k]].url == contacted[k]
    }

    lemma NamedSnoc(visited: seq<nat>, contacted: seq<string>, i: nat)
      requires Named(visited, contacted) && i < |providers|
      ensures Named(visited + [i], contacted + [providers[i].url])
    {
    }

    /** One pass of the loop: an untried provider is contacted, if there is one. */
    method Contact(turn: Turn, tried: set<string>) returns (target: Option<nat>)
      requires Valid() && providers != [] && 0.0 <= turn.random < 1.0
      modifies providers
      ensures Valid()
      ensures target.None? ==> Urls() <= tried && Records() == old(Records())
      ensures target.Some? ==>
                && target.value < |providers| && providers[target.value].url !in tried
                && providers[target.value].url in Urls()
                && Records() == Attempted(cfg, old(Records()), target.value, turn)
    {
      hide Valid, Urls, Records, Attempted, Picked;
      target := Target(turn.random, tried);
      if target.Some? {
        Await(target.value, turn);
      }
    }

    /** Whatever is drawn, and whatever the health of the providers is and becomes. */
    method Call(turns: seq<Turn>) returns (served: Option<nat>, contacted: seq<string>, ghost visited: seq<nat>)
      requires Valid() && |turns| >= |providers|
      requires Draws(turns)
      modifies providers
      ensures Valid() && CallResult(Urls(), turns, served, contacted)
      ensures |visited| == |contacted| && Named(visited, contacted)
      ensures Records() == AfterCall(cfg, old(Records()), visited, turns)
    {
      hide Valid, Urls, Progress, CallResult, AfterCall, Records, Attempted, Named;
      var tried: set<string> := {};
      contacted, visited := [], [];
      ProgressStart(turns);
      ghost var start := Records();
      NoneContacted(cfg, start, turns);
      while |tried| < |providers|
        invariant Valid() && Progress(tried, contacted, visited, turns)
        invariant |visited| == |contacted| == |tried| <= |providers|
        invariant Named(visited, contacted) && Records() == AfterCall(cfg, start, visited, turns)
        decreases |providers| - |tried|
      {
        var turn := turns[|tried|];
        var found := Contact(turn, tried);
        if found.None? {
          break;
        }
        var target := found.value;
        ProgressMore(tried, contacted, visited, turns, target);
        AfterCallSnoc(cfg, start, visited, target, turns);
        tried := tried + {providers[target].url};
        contacted := contacted + [providers[target].url];
        visited := visited + [target];
        if turn.response.Answer? {
          return Some(|contacted| - 1), contacted, visited;
        }
      }
      ProgressDone(tried, contacted, visited, turns);
      served := None;
    }

    /** The providers `visited` have been contacted, each under its own URL, and all have failed. */
    ghost predicate Progress(tried: set<string>, contacted: seq<string>, visited: seq<nat>, turns: seq<Turn>) {
      && Listed(tried, contacted) && tried <= Urls() && FirstFailed(turns, |tried|) && Named(visited, contacted)
      && |tried| <= |providers| <= |turns|
    }

    lemma ProgressStart(turns: seq<Turn>)
      requires |providers| <= |turns|
      ensures Progress({}, [], [], turns) && Named([], [])
    {
      NothingListed();
      NoneFailed(turns);
    }

    lemma ProgressMore(tried: set<string>, contacted: seq<string>, visited: seq<nat>, turns: seq<Turn>, i: nat)
      requires Progress(tried, contacted, visited, turns) && i < |providers|
      requires providers[i].url !in tried && providers[i].url in Urls()
      ensures |tried| == |contacted| == |visited| < |providers| <= |turns|
      ensures |tried + {providers[i].url}| == |tried| + 1
      ensures var contacted', visited' := contacted + [providers[i].url], visited + [i];
              && Named(visited', contacted')
              && if turns[|tried|].response.Answer? then CallResult(Urls(), turns, Some(|contacted|), contacted')
                 else Progress(tried + {providers[i].url}, contacted', visited', turns)
    {
      hide Urls, Listed, FirstFailed, CallResult, Named;
      var tried' := tried + {providers[i].url};
      ListOneMore(tried, contacted, providers[i].url);
      NamedSnoc(visited, contacted, i);
      SubsetSize(tried', Urls());
      UrlCount();
      assert |contacted| == |tried| by { assert Listed(tried, contacted); }
      if turns[|tried|].response.Answer? {
        Answered(Urls(), turns, tried', contacted + [providers[i].url]);
      } else {
        OneMoreFailed(turns, |tried|);
      }
    }

    lemma ProgressDone(tried: set<string>, contacted: seq<string>, visited: seq<nat>, turns: seq<Turn>)
      requires Progress(tried, contacted, visited, turns) && (|tried| >= |providers| || Urls() <= tried)
      ensures CallResult(Urls(), turns, None, contacted)
    {
      hide Urls, Listed, FirstFailed, CallResult, Named;
      UrlCount();
      if |tried| >= |providers| {
        SubsetSameSize(tried, Urls());
      }
      Thrown(Urls(), turns, tried, contacted);
    }

    lemma UrlOf(i: nat)
      requires i < |providers|
      ensures providers[i].url in Urls()
    {
    }

    lemma UrlCount()
      ensures |Urls()| <= |providers|
    {
      UrlsUpTo(|providers|);
      assert Urls() == set i | 0 <= i < |providers| :: providers[i].url;
    }

    lemma {:induction false} UrlsUpTo(n: nat)
      requires n <= |providers|
      ensures |set i | 0 <= i < n :: providers[i].url| <= n
    {
      if n > 0 {
        UrlsUpTo(n - 1);
        assert (set i | 0 <= i < n :: providers[i].url)
            == (set i | 0 <= i < n - 1 :: providers[i].url) + {providers[n - 1].url};
      }
    }
  }
}
