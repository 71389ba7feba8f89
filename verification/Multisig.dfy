/**
 Multi-signature sign-in: the `/initiate`, `/contribute` and `/complete` handlers of src/api/authMultisig.ts over the
 cache of src/cache.ts, with any number of server processes.

 A handler loads a copy of the flow, from its process's own store if that has one and from Redis otherwise, checks and
 changes it, writes it to its own store and then to Redis.  Requests for one flow can overlap, and nothing tells a
 process that its copy is out of date.  Signature verification is a parameter.
 */
module Multisig {
  import opened Options

  datatype Signer = Signer(address: string, weight: int, signed: bool, signature: string)

  datatype Flow = Flow(challenge: string, signers: seq<Signer>, threshold: int, expiresAt: int, completed: bool)

  /** A cache entry and the time at which it ceases to exist. */
  datatype Stored = Stored(flow: Flow, until: int)

  /** `FLOW_TTL`, and the time a completed flow is kept, in milliseconds. */
  const FLOW_TTL: nat := 600000
  const COMPLETED_TTL: nat := 60000

  type Verifier = (string, string, string) -> bool

  datatype Ask = Contribute(address: string, signature: string) | Complete

  datatype Verdict = Refused(status: nat) | Accepted(flow: Flow, ttl: nat)

  function Find(signers: seq<Signer>, address: string): (i: nat)
    ensures i <= |signers|
    ensures i < |signers| ==> signers[i].address == address
    ensures forall j :: 0 <= j < i ==> signers[j].address != address
  {
    if signers == [] || signers[0].address == address then 0 else 1 + Find(signers[1..], address)
  }

  function SignedWeight(signers: seq<Signer>): int {
    if signers == [] then 0 else (if signers[0].signed then signers[0].weight else 0) + SignedWeight(signers[1..])
  }

  /** From loading the flow to the point where it is written back. */
  function Check(verify: Verifier, loaded: Option<Flow>, ask: Ask): Verdict {
    if loaded.None? then Refused(404)
    else
      var flow := loaded.value;
      if flow.completed then Refused(400)
      else
        match ask
        case Contribute(address, signature) =>
          var i := Find(flow.signers, address);
          if i == |flow.signers| || flow.signers[i].signed then Refused(400)
          else if !verify(address, flow.challenge, signature) then Refused(401)
          else
            var signer := flow.signers[i].(signed := true, signature := signature);
            Accepted(flow.(signers := flow.signers[i := signer]), FLOW_TTL)
        case Complete =>
          if SignedWeight(flow.signers) < flow.threshold then Refused(400)
          else Accepted(flow.(completed := true), COMPLETED_TTL)
  }

  function NewFlow(challenge: string, signers: seq<(string, int)>, threshold: int, now: int): Flow {
    Flow(challenge, seq(|signers|, i requires 0 <= i < |signers| => Signer(signers[i].0, signers[i].1, false, "")),
         threshold, now + FLOW_TTL, false)
  }

  /** A new flow asks the signers it was given, each with its weight; nobody has signed. */
  lemma NewFlowMeaning(challenge: string, signers: seq<(string, int)>, threshold: int, now: int)
    ensures var f := NewFlow(challenge, signers, threshold, now);
            && f.challenge == challenge && f.threshold == threshold && f.expiresAt == now + 600_000 && !f.completed
            && |f.signers| == |signers|
            && forall i :: 0 <= i < |signers| ==>
                 f.signers[i].address == signers[i].0 && f.signers[i].weight == signers[i].1 && !f.signers[i].signed
  {
  }

  /* ----- requests as steps ----- */

  /** A request that process `proc` accepted; `written` once its own store has the new copy and Redis has not. */
  datatype Work = Work(proc: nat, id: string, ask: Ask, flow: Flow, ttl: nat, written: bool)

  datatype Session = Session(id: string, flow: Flow)

  /** `store` is Redis, `local` what each process keeps itself; `created` remembers the flows as they were initiated. */
  datatype State = State(now: int, store: map<string, Stored>, local: map<(nat, string), Stored>,
                         pending: map<nat, Work>, sessions: seq<Session>, created: map<string, Flow>)

  const START: State := State(0, map[], map[], map[], [], map[])

  datatype Act =
    | Wait(ms: nat)
    | Initiate(proc: nat, id: string, challenge: string, signers: seq<(string, int)>, threshold: int, ok: bool)
    | Look(proc: nat, id: string)                           // `GET /flows/:flowId`
    | Begin(req: nat, proc: nat, id: string, ask: Ask)      // load and check
    | End(req: nat)                                         // write to the own store
    | Sync(req: nat, ok: bool, issued: bool)                // write to Redis, if that works, and go on
    | Evict(proc: nat, id: string)                          // the own store makes room

  function At<K>(copies: map<K, Stored>, key: K): Option<Stored> {
    if key in copies then Some(copies[key]) else None
  }

  predicate Alive(copy: Option<Stored>, now: int) {
    copy.Some? && now < copy.value.until
  }

  /** `cacheGet`: the process's own copy while that lives, and else the one in Redis. */
  function Answer(own: Option<Stored>, shared: Option<Stored>, now: int): Option<Flow> {
    if Alive(own, now) then Some(own.value.flow) else if Alive(shared, now) then Some(shared.value.flow) else None
  }

  /** What `cacheGet` leaves in the own store: a copy from Redis is kept for as long as Redis keeps it. */
  function OwnAfter(own: Option<Stored>, shared: Option<Stored>, now: int): Option<Stored> {
    if Alive(own, now) then own else if Alive(shared, now) then shared else None
  }

  function View(s: State, proc: nat, id: string): Option<Flow> {
    Answer(At(s.local, (proc, id)), At(s.store, id), s.now)
  }

  function Mirrored(s: State, proc: nat, id: string): State {
    var own := OwnAfter(At(s.local, (proc, id)), At(s.store, id), s.now);
    s.(local := if own.Some? then s.local[(proc, id) := own.value] else s.local - {(proc, id)})
  }

  /** Flow ids are random and request numbers are used once. */
  predicate Enabled(s: State, a: Act) {
    match a
    case Initiate(_, id, _, _, threshold, _) => id !in s.created && threshold != 0
    case Begin(req, _, _, _) => req !in s.pending
    case End(req) => req in s.pending && !s.pending[req].written
    case Sync(req, _, _) => req in s.pending && s.pending[req].written
    case _ => true
  }

  function Step(verify: Verifier, s: State, a: Act): State
    requires Enabled(s, a)
  {
    match a
    case Wait(ms) => s.(now := s.now + ms)
    case Initiate(proc, id, challenge, signers, threshold, ok) =>
      var flow := NewFlow(challenge, signers, threshold, s.now);
      var copy := Stored(flow, s.now + FLOW_TTL);
      s.(local := s.local[(proc, id) := copy], store := if ok then s.store[id := copy] else s.store,
         created := s.created[id := flow])
    case Look(proc, id) => Mirrored(s, proc, id)
    case Begin(req, proc, id, ask) =>
      var m := Mirrored(s, proc, id);
      (match Check(verify, View(s, proc, id), ask)
       case Refused(_) => m
       case Accepted(flow, ttl) => m.(pending := m.pending[req := Work(proc, id, ask, flow, ttl, false)]))
    case End(req) =>
      var w := s.pending[req];
      s.(local := s.local[(w.proc, w.id) := Stored(w.flow, s.now + w.ttl)],
         pending := s.pending[req := w.(written := true)])
    case Sync(req, ok, issued) =>
      var w := s.pending[req];
      s.(store := if ok then s.store[w.id := Stored(w.flow, s.now + w.ttl)] else s.store,
         pending := s.pending - {req},
         sessions := if w.ask.Complete? && issued then s.sessions + [Session(w.id, w.flow)] else s.sessions)
    case Evict(proc, id) => s.(local := s.local - {(proc, id)})
  }

  ghost predicate Run(verify: Verifier, s: State, acts: seq<Act>, t: State)
    decreases |acts|
  {
    if acts == [] then s == t
    else Enabled(s, acts[0]) && Run(verify, Step(verify, s, acts[0]), acts[1..], t)
  }

  /* ----- sessions rest on signatures ----- */

  /** Later in the life of a flow: the terms are the same, and nothing that was signed or completed is taken back. */
  predicate Extends(f: Flow, g: Flow) {
    && g.challenge == f.challenge && g.threshold == f.threshold && g.expiresAt == f.expiresAt
    && |g.signers| == |f.signers|
    && (forall i :: 0 <= i < |f.signers| ==>
          && g.signers[i].address == f.signers[i].address && g.signers[i].weight == f.signers[i].weight
          && (f.signers[i].signed || !g.signers[i].signed ==> g.signers[i] == f.signers[i]))
    && (f.completed ==> g.completed)
  }

  predicate Genuine(verify: Verifier, f: Flow) {
    forall i :: 0 <= i < |f.signers| && f.signers[i].signed ==>
                  verify(f.signers[i].address, f.challenge, f.signers[i].signature)
  }

  ghost predicate Backed(verify: Verifier, created: map<string, Flow>, id: string, f: Flow) {
    id in created && Extends(created[id], f) && Genuine(verify, f)
  }

  ghost predicate Reached(f: Flow) {
    f.completed && SignedWeight(f.signers) >= f.threshold
  }

  ghost predicate Inv(verify: Verifier, s: State) {
    && (forall id :: id in s.store ==> Backed(verify, s.created, id, s.store[id].flow))
    && (forall c :: c in s.local ==> Backed(verify, s.created, c.1, s.local[c].flow))
    && (forall r :: r in s.pending ==>
          && Backed(verify, s.created, s.pending[r].id, s.pending[r].flow)
          && (s.pending[r].ask.Complete? ==> Reached(s.pending[r].flow)))
    && (forall k :: 0 <= k < |s.sessions| ==>
          && Backed(verify, s.created, s.sessions[k].id, s.sessions[k].flow)
          && Reached(s.sessions[k].flow))
  }

  /** An accepted request only adds to the flow it loaded. */
  lemma CheckExtends(verify: Verifier, f: Flow, ask: Ask)
    requires Check(verify, Some(f), ask).Accepted?
    ensures var g := Check(verify, Some(f), ask).flow;
            && Extends(f, g) && !f.completed && g != f
            && (Genuine(verify, f) ==> Genuine(verify, g))
            && (ask.Complete? ==> Reached(g))
  {
    hide SignedWeight;
  }

  lemma ExtendsTrans(f: Flow, g: Flow, h: Flow)
    requires Extends(f, g) && Extends(g, h)
    ensures Extends(f, h)
  {
  }

  lemma ExtendsItself(f: Flow)
    ensures Extends(f, f)
  {
  }

  lemma NewIsGenuine(verify: Verifier, challenge: string, signers: seq<(string, int)>, threshold: int, now: int)
    ensures var f := NewFlow(challenge, signers, threshold, now);
            Extends(f, f) && Genuine(verify, f)
  {
  }

  lemma ViewBacked(verify: Verifier, s: State, proc: nat, id: string)
    requires Inv(verify, s) && View(s, proc, id).Some?
    ensures Backed(verify, s.created, id, View(s, proc, id).value)
  {
    hide Backed, Reached;
  }

  lemma InvKept(verify: Verifier, s: State, a: Act)
    requires Inv(verify, s) && Enabled(s, a)
    ensures Inv(verify, Step(verify, s, a))
  {
    match a
    case Initiate(_, _, _, _, _, _) =>
      InitiateKeeps(verify, s, a);
    case Look(proc, id) =>
      MirroredKeeps(verify, s, proc, id);
    case Begin(req, proc, id, ask) =>
      BeginKeeps(verify, s, req, proc, id, ask);
    case _ =>
      hide Backed, Reached;
  }

  lemma InitiateKeeps(verify: Verifier, s: State, a: Act)
    requires Inv(verify, s) && a.Initiate? && Enabled(s, a)
    ensures Inv(verify, Step(verify, s, a))
  {
    NewIsGenuine(verify, a.challenge, a.signers, a.threshold, s.now);
    var flow, t := NewFlow(a.challenge, a.signers, a.threshold, s.now), Step(verify, s, a);
    assert t.created == s.created[a.id := flow];
    assert Backed(verify, t.created, a.id, flow);
    assert forall id, f :: Backed(verify, s.created, id, f) ==> Backed(verify, t.created, id, f) by {
      hide Extends, Genuine;
    }
    hide Backed, Reached, NewFlow;
  }

  lemma MirroredKeeps(verify: Verifier, s: State, proc: nat, id: string)
    requires Inv(verify, s)
    ensures Inv(verify, Mirrored(s, proc, id))
  {
    hide Backed, Reached;
  }

  lemma BeginKeeps(verify: Verifier, s: State, req: nat, proc: nat, id: string, ask: Ask)
    requires Inv(verify, s) && Enabled(s, Begin(req, proc, id, ask))
    ensures Inv(verify, Step(verify, s, Begin(req, proc, id, ask)))
  {
    MirroredKeeps(verify, s, proc, id);
    hide Extends, Genuine, SignedWeight, Check, Reached, View;
    if Check(verify, View(s, proc, id), ask).Accepted? {
      assert View(s, proc, id).Some? by { NothingLoaded(verify, ask); }
      ViewBacked(verify, s, proc, id);
      var f, g := View(s, proc, id).value, Check(verify, View(s, proc, id), ask).flow;
      CheckExtends(verify, f, ask);
      ExtendsTrans(s.created[id], f, g);
    }
  }

  lemma NothingLoaded(verify: Verifier, ask: Ask)
    ensures Check(verify, None, ask) == Refused(404)
  {
  }

  lemma {:induction false} RunInv(verify: Verifier, s: State, acts: seq<Act>, t: State)
    requires Inv(verify, s) && Run(verify, s, acts, t)
    ensures Inv(verify, t)
    decreases |acts|
  {
    hide Inv, Step, Enabled;
    if acts != [] {
      InvKept(verify, s, acts[0]);
      RunInv(verify, Step(verify, s, acts[0]), acts[1..], t);
    }
  }

  /** The weight of the signers for whom there is a signature of the challenge. */
  function WeightOf(signers: seq<Signer>, who: seq<bool>): int
    requires |who| == |signers|
  {
    if signers == [] then 0 else (if who[0] then signers[0].weight else 0) + WeightOf(signers[1..], who[1..])
  }

  lemma {:induction false} SignedIsWeightOf(signed: seq<Signer>, signers: seq<Signer>, who: seq<bool>)
    requires |signed| == |signers| == |who|
    requires forall i :: 0 <= i < |signers| ==> signed[i].weight == signers[i].weight && who[i] == signed[i].signed
    ensures SignedWeight(signed) == WeightOf(signers, who)
  {
    if signers != [] {
      SignedIsWeightOf(signed[1..], signers[1..], who[1..]);
    }
  }

  /** `sigs` are signatures of the challenge by signers of enough weight, who are those marked in `who`. */
  ghost predicate Earns(verify: Verifier, f: Flow, who: seq<bool>, sigs: seq<string>) {
    && |who| == |sigs| == |f.signers| && WeightOf(f.signers, who) >= f.threshold
    && forall i :: 0 <= i < |f.signers| && who[i] ==> verify(f.signers[i].address, f.challenge, sigs[i])
  }

  /**
   In every run, however requests overlap and whichever process serves them: behind a session there are signatures of
   the flow's own challenge by signers whose weights, as initiated, reach the threshold as initiated.
   */
  lemma SessionsAreEarned(verify: Verifier, acts: seq<Act>, t: State, k: nat)
    requires Run(verify, START, acts, t) && k < |t.sessions|
    ensures t.sessions[k].id in t.created
    ensures exists who, sigs :: Earns(verify, t.created[t.sessions[k].id], who, sigs)
  {
    RunInv(verify, START, acts, t);
    hide Run, SignedWeight, WeightOf;
    var f, g := t.created[t.sessions[k].id], t.sessions[k].flow;
    var who := seq(|g.signers|, i requires 0 <= i < |g.signers| => g.signers[i].signed);
    var sigs := seq(|g.signers|, i requires 0 <= i < |g.signers| => g.signers[i].signature);
    SignedIsWeightOf(g.signers, f.signers, who);
    assert Earns(verify, f, who, sigs);
  }

  /* ----- requests for a flow one after the other ----- */

  function Issued(sessions: seq<Session>, id: string): nat {
    if sessions == [] then 0
    else Issued(sessions[..|sessions| - 1], id) + if sessions[|sessions| - 1].id == id then 1 else 0
  }

  lemma IssuedSnoc(sessions: seq<Session>, x: Session, id: string)
    ensures Issued(sessions + [x], id) == Issued(sessions, id) + if x.id == id then 1 else 0
  {
    assert (sessions + [x])[..|sessions|] == sessions;
  }

  ghost predicate Idle(s: State, id: string) {
    forall r :: r in s.pending ==> s.pending[r].id != id
  }

  /** Where the newest copy is: in Redis (`home` is none) or, without Redis, in the store of the one process. */
  function Kept(s: State, home: Option<nat>, id: string): Option<Stored> {
    if home.None? then At(s.store, id) else At(s.local, (home.value, id))
  }

  function Current(s: State, home: Option<nat>, id: string): Option<Flow> {
    Answer(None, Kept(s, home, id), s.now)
  }

  /**
   What keeps the requests for one flow apart: each starts when the one before has ended, at a process that would
   answer with the copy that Redis holds, and writes to Redis succeed.  Without Redis there is one process.
   */
  ghost predicate Turn(s: State, a: Act, home: Option<nat>, id: string) {
    && (a.Initiate? && a.id == id ==> a.ok == home.None? && (home.Some? ==> a.proc == home.value))
    && (a.Begin? && a.id == id ==>
          Idle(s, id) && View(s, a.proc, id) == Current(s, home, id) && (home.Some? ==> a.proc == home.value))
    && (a.Sync? && a.req in s.pending && s.pending[a.req].id == id ==> a.ok == home.None?)
    && (a.Look? && a.id == id && home == Some(a.proc) ==> View(s, a.proc, id) == Current(s, home, id))
  }

  ghost predicate Serial(verify: Verifier, s: State, acts: seq<Act>, home: Option<nat>, id: string)
    decreases |acts|
  {
    acts != [] && Enabled(s, acts[0]) ==>
      Turn(s, acts[0], home, id) && Serial(verify, Step(verify, s, acts[0]), acts[1..], home, id)
  }

  ghost predicate WorkOk(w: Work, kept: Option<Stored>, home: Option<nat>) {
    && (home.Some? ==> w.proc == home.value)
    && (w.ask.Complete? ==> w.flow.completed)
    && (kept.Some? ==> Extends(kept.value.flow, w.flow))
    && (kept.Some? && home.Some? && w.written ==> kept.value.flow == w.flow)
  }

  ghost predicate SerialInv(s: State, home: Option<nat>, id: string) {
    && (forall q, r :: q in s.pending && r in s.pending && s.pending[q].id == id && s.pending[r].id == id ==> q == r)
    && (forall r :: r in s.pending && s.pending[r].id == id ==> WorkOk(s.pending[r], Kept(s, home, id), home))
    && Issued(s.sessions, id) <= 1
    && (Issued(s.sessions, id) > 0 ==>
          Idle(s, id) && (Kept(s, home, id).Some? ==> Kept(s, home, id).value.flow.completed))
  }

  /** `f` is not yet exceeded by what is kept and what is under way. */
  ghost predicate Above(s: State, home: Option<nat>, id: string, f: Flow) {
    && id in s.created
    && (Kept(s, home, id).Some? ==> Extends(f, Kept(s, home, id).value.flow))
    && (forall r :: r in s.pending && s.pending[r].id == id ==> Extends(f, s.pending[r].flow))
  }

  lemma LookKeepsKept(s: State, proc: nat, other: string, home: Option<nat>, id: string)
    requires other == id && home == Some(proc) ==> View(s, proc, id) == Current(s, home, id)
    ensures var t := Mirrored(s, proc, other);
            t == s.(local := t.local) && (Kept(t, home, id) == Kept(s, home, id) || Kept(t, home, id).None?)
  {
  }

  /** A request that takes its turn works on what is kept. */
  lemma BeginLoadsKept(verify: Verifier, s: State, proc: nat, ask: Ask, home: Option<nat>, id: string)
    requires View(s, proc, id) == Current(s, home, id) && Check(verify, View(s, proc, id), ask).Accepted?
    ensures Kept(s, home, id).Some?
    ensures var f, g := Kept(s, home, id).value.flow, Check(verify, View(s, proc, id), ask).flow;
            View(s, proc, id) == Some(f) && !f.completed && Extends(f, g) && (ask.Complete? ==> g.completed)
  {
    assert View(s, proc, id).Some? by { NothingLoaded(verify, ask); }
    CheckExtends(verify, View(s, proc, id).value, ask);
    hide Check, Extends;
  }

  lemma LookSerial(s: State, proc: nat, other: string, home: Option<nat>, id: string)
    requires SerialInv(s, home, id) && Turn(s, Look(proc, other), home, id)
    ensures SerialInv(Mirrored(s, proc, other), home, id)
    ensures forall f :: Above(s, home, id, f) ==> Above(Mirrored(s, proc, other), home, id, f)
  {
    LookKeepsKept(s, proc, other, home, id);
    hide Mirrored, Kept, Extends, View, Issued;
  }

  lemma AcceptSerial(s: State, req: nat, w: Work, home: Option<nat>, id: string)
    requires SerialInv(s, home, id) && req !in s.pending
    requires w.id == id ==>
               && Idle(s, id) && WorkOk(w, Kept(s, home, id), home) && !w.written
               && Issued(s.sessions, id) == 0
    ensures SerialInv(s.(pending := s.pending[req := w]), home, id)
    ensures forall f :: Above(s, home, id, f) && (w.id == id ==> Extends(f, w.flow)) ==>
                          Above(s.(pending := s.pending[req := w]), home, id, f)
  {
    hide WorkOk, Extends, Issued;
    assert Kept(s.(pending := s.pending[req := w]), home, id) == Kept(s, home, id);
  }

  lemma BeginSerial(verify: Verifier, s: State, a: Act, home: Option<nat>, id: string)
    requires SerialInv(s, home, id) && a.Begin? && Enabled(s, a) && Turn(s, a, home, id)
    ensures SerialInv(Step(verify, s, a), home, id)
    ensures forall f :: Above(s, home, id, f) ==> Above(Step(verify, s, a), home, id, f)
  {
    var m := Mirrored(s, a.proc, a.id);
    LookSerial(s, a.proc, a.id, home, id);
    LookKeepsKept(s, a.proc, a.id, home, id);
    var v := Check(verify, View(s, a.proc, a.id), a.ask);
    if v.Accepted? {
      var w := Work(a.proc, a.id, a.ask, v.flow, v.ttl, false);
      assert Step(verify, s, a) == m.(pending := m.pending[a.req := w]);
      if a.id == id {
        BeginLoadsKept(verify, s, a.proc, a.ask, home, id);
        hide Mirrored, Extends, Issued, Current, View, Kept, Check;
        forall f | Above(s, home, id, f) ensures Extends(f, w.flow) {
          ExtendsTrans(f, Kept(s, home, id).value.flow, w.flow);
        }
        AcceptSerial(m, a.req, w, home, id);
      } else {
        hide Mirrored, Extends, Issued, Current, View, Kept, Check;
        AcceptSerial(m, a.req, w, home, id);
      }
    }
  }

  lemma EndSerial(verify: Verifier, s: State, req: nat, home: Option<nat>, id: string)
    requires SerialInv(s, home, id) && Enabled(s, End(req))
    ensures SerialInv(Step(verify, s, End(req)), home, id)
    ensures forall f :: Above(s, home, id, f) ==> Above(Step(verify, s, End(req)), home, id, f)
  {
    var w, t := s.pending[req], Step(verify, s, End(req));
    ExtendsItself(w.flow);
    if w.id == id {
      assert WorkOk(w.(written := true), Kept(t, home, id), home) by { hide Extends; }
      hide Extends, Issued, WorkOk, Step;
      assert t.pending == s.pending[req := w.(written := true)] && t.sessions == s.sessions;
      assert forall r :: r in t.pending && t.pending[r].id == id ==> r == req;
    } else {
      assert Kept(t, home, id) == Kept(s, home, id);
      hide Extends, Issued, WorkOk, Kept;
    }
  }

  lemma SyncSerial(verify: Verifier, s: State, a: Act, home: Option<nat>, id: string)
    requires SerialInv(s, home, id) && a.Sync? && Enabled(s, a) && Turn(s, a, home, id)
    ensures SerialInv(Step(verify, s, a), home, id)
    ensures forall f :: Above(s, home, id, f) ==> Above(Step(verify, s, a), home, id, f)
  {
    var w, t := s.pending[a.req], Step(verify, s, a);
    IssuedSnoc(s.sessions, Session(w.id, w.flow), id);
    if w.id == id {
      SyncKeeps(verify, s, a, home, id);
      assert Idle(t, id) by { hide WorkOk, Kept, Issued; }
      hide Extends, WorkOk, Issued, Kept, Idle;
    } else {
      SyncOther(verify, s, a, home, id);
    }
  }

  lemma SyncOther(verify: Verifier, s: State, a: Act, home: Option<nat>, id: string)
    requires SerialInv(s, home, id) && a.Sync? && Enabled(s, a) && s.pending[a.req].id != id
    ensures SerialInv(Step(verify, s, a), home, id)
    ensures forall f :: Above(s, home, id, f) ==> Above(Step(verify, s, a), home, id, f)
  {
    var w, t := s.pending[a.req], Step(verify, s, a);
    IssuedSnoc(s.sessions, Session(w.id, w.flow), id);
    assert Kept(t, home, id) == Kept(s, home, id);
    assert t.pending == s.pending - {a.req} && t.created == s.created;
    assert Issued(t.sessions, id) == Issued(s.sessions, id);
    hide Extends, Issued, WorkOk, Kept, Step, Enabled;
  }

  lemma SyncKeeps(verify: Verifier, s: State, a: Act, home: Option<nat>, id: string)
    requires SerialInv(s, home, id) && a.Sync? && Enabled(s, a) && Turn(s, a, home, id) && s.pending[a.req].id == id
    ensures var w, kept := s.pending[a.req], Kept(Step(verify, s, a), home, id);
            && (kept.Some? ==> kept.value.flow == w.flow)
            && (w.ask.Complete? ==> w.flow.completed)
  {
    assert WorkOk(s.pending[a.req], Kept(s, home, id), home) by { hide WorkOk; }
    hide SerialInv, Extends;
  }

  lemma SerialKept(verify: Verifier, s: State, a: Act, home: Option<nat>, id: string)
    requires Inv(verify, s) && SerialInv(s, home, id) && Enabled(s, a) && Turn(s, a, home, id)
    ensures SerialInv(Step(verify, s, a), home, id)
    ensures forall f :: Above(s, home, id, f) ==> Above(Step(verify, s, a), home, id, f)
  {
    match a
    case Wait(_) =>
    case Evict(_, _) =>
    case Look(proc, other) =>
      LookSerial(s, proc, other, home, id);
    case Begin(_, _, _, _) =>
      BeginSerial(verify, s, a, home, id);
    case End(req) =>
      EndSerial(verify, s, req, home, id);
    case Sync(_, _, _) =>
      SyncSerial(verify, s, a, home, id);
    case Initiate(_, _, _, _, _, _) =>
      InitiateSerial(verify, s, a, home, id);
  }

  lemma InitiateSerial(verify: Verifier, s: State, a: Act, home: Option<nat>, id: string)
    requires Inv(verify, s) && SerialInv(s, home, id) && a.Initiate? && Enabled(s, a) && Turn(s, a, home, id)
    ensures SerialInv(Step(verify, s, a), home, id)
    ensures forall f :: Above(s, home, id, f) ==> Above(Step(verify, s, a), home, id, f)
  {
    var t := Step(verify, s, a);
    if a.id == id {
      NothingOf(verify, s, s.sessions, id);
      assert Idle(s, id) by { hide Extends, Genuine, Reached; }
    } else {
      hide Inv;
      assert Kept(t, home, id) == Kept(s, home, id);
      hide Extends, Issued, NewFlow, WorkOk, Kept;
    }
  }

  lemma {:induction false} NothingOf(verify: Verifier, s: State, sessions: seq<Session>, id: string)
    requires Inv(verify, s) && id !in s.created && sessions <= s.sessions
    ensures Issued(sessions, id) == 0
  {
    hide Extends, Genuine, Reached;
    if sessions != [] {
      assert sessions[|sessions| - 1] == s.sessions[|sessions| - 1];
      NothingOf(verify, s, sessions[..|sessions| - 1], id);
    }
  }

  /** While its requests take turns, a flow yields at most one session, and no signature is ever lost. */
  lemma {:induction false} SerialRun(verify: Verifier, s: State, acts: seq<Act>, t: State, home: Option<nat>,
                                     id: string)
    requires Inv(verify, s) && SerialInv(s, home, id) && Run(verify, s, acts, t) && Serial(verify, s, acts, home, id)
    ensures SerialInv(t, home, id)
    ensures forall f :: Above(s, home, id, f) ==> Above(t, home, id, f)
    decreases |acts|
  {
    if acts != [] {
      var u := Step(verify, s, acts[0]);
      hide Inv, SerialInv, Step, Enabled, Turn, Above;
      InvKept(verify, s, acts[0]);
      SerialKept(verify, s, acts[0], home, id);
      SerialRun(verify, u, acts[1..], t, home, id);
    }
  }

  lemma SerialStart(verify: Verifier, home: Option<nat>, id: string)
    ensures Inv(verify, START) && SerialInv(START, home, id)
  {
  }

  lemma SerialRunsAreSafe(verify: Verifier, acts: seq<Act>, t: State, home: Option<nat>, id: string)
    requires Run(verify, START, acts, t) && Serial(verify, START, acts, home, id)
    ensures Issued(t.sessions, id) <= 1
  {
    SerialStart(verify, home, id);
    SerialRun(verify, START, acts, t, home, id);
  }

  /** From any point on at which no request is under way, every later copy has all that was signed or completed. */
  lemma SerialRunsLoseNothing(verify: Verifier, before: seq<Act>, s: State, acts: seq<Act>, t: State,
                              home: Option<nat>, id: string)
    requires Run(verify, START, before, s) && Serial(verify, START, before, home, id)
    requires Run(verify, s, acts, t) && Serial(verify, s, acts, home, id)
    requires Idle(s, id) && Kept(s, home, id).Some? && Kept(t, home, id).Some?
    ensures Extends(Kept(s, home, id).value.flow, Kept(t, home, id).value.flow)
  {
    var f := Kept(s, home, id).value.flow;
    SerialStart(verify, home, id);
    SerialRun(verify, START, before, s, home, id);
    RunInv(verify, START, before, s);
    SerialRun(verify, s, acts, t, home, id);
    ExtendsItself(f);
    hide Run, Serial, SerialInv, Extends, Genuine, Reached;
    assert Above(s, home, id, f);
  }

  /* ----- one process for a flow ----- */

  /**
   The flow's requests all come to process `proc`, each after the one before has ended, and either every write of it to
   Redis succeeds (`redis`) or, without Redis, none does.
   */
  ghost predicate Alone(s: State, a: Act, proc: nat, id: string, redis: bool) {
    && (a.Initiate? && a.id == id ==> a.proc == proc && a.ok == redis)
    && (a.Begin? && a.id == id ==> a.proc == proc && Idle(s, id))
    && (a.Look? && a.id == id && a.proc == proc ==> Idle(s, id))
    && (a.Sync? && a.req in s.pending && s.pending[a.req].id == id ==> a.ok == redis)
  }

  ghost predicate AllAlone(verify: Verifier, s: State, acts: seq<Act>, proc: nat, id: string, redis: bool)
    decreases |acts|
  {
    acts != [] && Enabled(s, acts[0]) ==>
      Alone(s, acts[0], proc, id, redis) && AllAlone(verify, Step(verify, s, acts[0]), acts[1..], proc, id, redis)
  }

  predicate Shadows(own: Option<Stored>, shared: Option<Stored>) {
    own.Some? ==> shared.Some? && shared.value.flow == own.value.flow && own.value.until <= shared.value.until
  }

  predicate AheadOf(own: Option<Stored>, w: Work, now: int) {
    own.Some? ==> own.value.flow == w.flow && own.value.until <= now + w.ttl
  }

  ghost predicate NoneWritten(s: State, id: string) {
    forall r :: r in s.pending && s.pending[r].id == id ==> !s.pending[r].written
  }

  /** The process's own copy never outlives an equal one in Redis, but for the time of a write. */
  ghost predicate HomeInv(s: State, proc: nat, id: string, redis: bool) {
    && (!redis ==> At(s.store, id).None?)
    && (forall q, r :: q in s.pending && r in s.pending && s.pending[q].id == id && s.pending[r].id == id ==> q == r)
    && (forall r :: r in s.pending && s.pending[r].id == id ==>
          && s.pending[r].proc == proc
          && (redis && s.pending[r].written ==> AheadOf(At(s.local, (proc, id)), s.pending[r], s.now)))
    && (redis && NoneWritten(s, id) ==> Shadows(At(s.local, (proc, id)), At(s.store, id)))
  }

  function HomeOf(proc: nat, redis: bool): Option<nat> {
    if redis then None else Some(proc)
  }

  lemma AloneTakesTurns(s: State, a: Act, proc: nat, id: string, redis: bool)
    requires HomeInv(s, proc, id, redis) && Alone(s, a, proc, id, redis)
    ensures Turn(s, a, HomeOf(proc, redis), id)
  {
  }

  lemma HomeKept(verify: Verifier, s: State, a: Act, proc: nat, id: string, redis: bool)
    requires Inv(verify, s) && HomeInv(s, proc, id, redis) && Enabled(s, a) && Alone(s, a, proc, id, redis)
    ensures HomeInv(Step(verify, s, a), proc, id, redis)
  {
    match a
    case Initiate(_, _, _, _, _, _) =>
      HomeInitiate(verify, s, a, proc, id, redis);
    case Begin(_, _, _, _) =>
      hide Inv;
      HomeBegin(verify, s, a, proc, id, redis);
    case Look(p, other) =>
      hide Inv;
      HomeLook(s, p, other, proc, id, redis);
    case Sync(_, _, _) =>
      hide Inv;
      HomeSync(verify, s, a, proc, id, redis);
    case End(_) =>
      hide Inv;
      HomeEnd(verify, s, a, proc, id, redis);
    case _ =>
      hide Inv;
  }

  lemma HomeInitiate(verify: Verifier, s: State, a: Act, proc: nat, id: string, redis: bool)
    requires Inv(verify, s) && HomeInv(s, proc, id, redis)
    requires a.Initiate? && Enabled(s, a) && Alone(s, a, proc, id, redis)
    ensures HomeInv(Step(verify, s, a), proc, id, redis)
  {
    hide Extends, Genuine, Reached, NewFlow;
    assert a.id == id ==> Idle(s, id);
    hide Inv;
  }

  lemma HomeLook(s: State, p: nat, other: string, proc: nat, id: string, redis: bool)
    requires HomeInv(s, proc, id, redis) && Alone(s, Look(p, other), proc, id, redis)
    ensures HomeInv(Mirrored(s, p, other), proc, id, redis)
  {
  }

  lemma SameWritten(s: State, t: State, id: string)
    requires forall r :: r in s.pending && s.pending[r].id == id ==> r in t.pending && t.pending[r] == s.pending[r]
    ensures NoneWritten(t, id) ==> NoneWritten(s, id)
  {
  }

  lemma HomeAccept(s: State, req: nat, w: Work, proc: nat, id: string, redis: bool)
    requires HomeInv(s, proc, id, redis) && req !in s.pending && !w.written
    requires w.id == id ==> w.proc == proc && Idle(s, id)
    ensures HomeInv(s.(pending := s.pending[req := w]), proc, id, redis)
  {
    hide Shadows, AheadOf;
    SameWritten(s, s.(pending := s.pending[req := w]), id);
    hide NoneWritten;
  }

  lemma HomeBegin(verify: Verifier, s: State, a: Act, proc: nat, id: string, redis: bool)
    requires HomeInv(s, proc, id, redis) && a.Begin? && Enabled(s, a) && Alone(s, a, proc, id, redis)
    ensures HomeInv(Step(verify, s, a), proc, id, redis)
  {
    HomeLook(s, a.proc, a.id, proc, id, redis);
    hide HomeInv, View;
    var m, v := Mirrored(s, a.proc, a.id), Check(verify, View(s, a.proc, a.id), a.ask);
    assert m.pending == s.pending;
    if v.Accepted? {
      hide Mirrored, Check;
      HomeAccept(m, a.req, Work(a.proc, a.id, a.ask, v.flow, v.ttl, false), proc, id, redis);
    }
  }

  lemma HomeEnd(verify: Verifier, s: State, a: Act, proc: nat, id: string, redis: bool)
    requires HomeInv(s, proc, id, redis) && a.End? && Enabled(s, a)
    ensures HomeInv(Step(verify, s, a), proc, id, redis)
  {
    var w, t := s.pending[a.req], Step(verify, s, a);
    if w.id == id {
      assert t.pending[a.req] == w.(written := true);
      assert !NoneWritten(t, id);
    } else {
      SameWritten(s, t, id);
      hide AheadOf, Shadows;
    }
  }

  lemma HomeSync(verify: Verifier, s: State, a: Act, proc: nat, id: string, redis: bool)
    requires HomeInv(s, proc, id, redis) && a.Sync? && Enabled(s, a) && Alone(s, a, proc, id, redis)
    ensures HomeInv(Step(verify, s, a), proc, id, redis)
  {
    var w, t := s.pending[a.req], Step(verify, s, a);
    if w.id != id {
      SameWritten(s, t, id);
    }
  }

  /** So the copy it answers with is always the newest, and the flow is safe. */
  lemma {:induction false} AloneIsSerial(verify: Verifier, s: State, acts: seq<Act>, t: State,
                                         proc: nat, id: string, redis: bool)
    requires Inv(verify, s) && HomeInv(s, proc, id, redis)
    requires Run(verify, s, acts, t) && AllAlone(verify, s, acts, proc, id, redis)
    ensures Serial(verify, s, acts, HomeOf(proc, redis), id)
    decreases |acts|
  {
    if acts != [] {
      hide Inv, HomeInv, Step, Enabled, Turn, Alone;
      AloneTakesTurns(s, acts[0], proc, id, redis);
      InvKept(verify, s, acts[0]);
      HomeKept(verify, s, acts[0], proc, id, redis);
      AloneIsSerial(verify, Step(verify, s, acts[0]), acts[1..], t, proc, id, redis);
    }
  }

  lemma OneProcessIsSafe(verify: Verifier, acts: seq<Act>, t: State, proc: nat, id: string, redis: bool)
    requires Run(verify, START, acts, t) && AllAlone(verify, START, acts, proc, id, redis)
    ensures Serial(verify, START, acts, HomeOf(proc, redis), id)
    ensures Issued(t.sessions, id) <= 1
  {
    AloneIsSerial(verify, START, acts, t, proc, id, redis);
    SerialRunsAreSafe(verify, acts, t, HomeOf(proc, redis), id);
  }

  /* ----- requests that do not load the newest copy ----- */

  /** A request whose copy `f` is older than what is kept, `h`, takes something back unless it makes `h` once more. */
  lemma OldCopyKeepsIff(verify: Verifier, f: Flow, h: Flow, ask: Ask)
    requires Extends(f, h) && Check(verify, Some(f), ask).Accepted?
    ensures var g := Check(verify, Some(f), ask).flow; Extends(h, g) <==> h == f || h == g
  {
    var g := Check(verify, Some(f), ask).flow;
    CheckExtends(verify, f, ask);
    ExtendsItself(g);
    if Extends(h, g) && ask.Contribute? {
      hide SignedWeight;
      var i := Find(f.signers, ask.address);
      assert forall j :: 0 <= j < |f.signers| && j != i ==> h.signers[j] == f.signers[j];
      if h.signers[i].signed {
        assert h.signers == g.signers;
      } else {
        assert h.signers == f.signers;
      }
    } else if Extends(h, g) {
      hide SignedWeight;
      assert h.signers == f.signers;
    }
  }

  /** `g` extends every copy that a process has. */
  ghost predicate AllBelow(s: State, id: string, g: Flow) {
    forall p :: (p, id) in s.local ==> Extends(s.local[(p, id)].flow, g)
  }

  /** With Redis: what the processes have is older than what Redis has, or than what is on its way there. */
  ghost predicate OldCopies(s: State, id: string) {
    && (Idle(s, id) ==> forall p :: (p, id) in s.local ==> id in s.store)
    && (Idle(s, id) && id in s.store ==> AllBelow(s, id, s.store[id].flow))
    && (forall r :: r in s.pending && s.pending[r].id == id ==> AllBelow(s, id, s.pending[r].flow))
  }

  lemma MirroredBelow(s: State, proc: nat, other: string, id: string, g: Flow)
    requires AllBelow(s, id, g) && (id in s.store ==> Extends(s.store[id].flow, g))
    ensures AllBelow(Mirrored(s, proc, other), id, g)
  {
    hide Extends;
  }

  lemma OldCopiesLook(s: State, proc: nat, other: string, id: string)
    requires OldCopies(s, id) && SerialInv(s, None, id)
    ensures OldCopies(Mirrored(s, proc, other), id)
  {
    var t := Mirrored(s, proc, other);
    if id in s.store {
      ExtendsItself(s.store[id].flow);
      if Idle(s, id) {
        MirroredBelow(s, proc, other, id, s.store[id].flow);
      }
    }
    forall r | r in s.pending && s.pending[r].id == id ensures AllBelow(t, id, s.pending[r].flow) {
      hide Issued, Extends;
      assert WorkOk(s.pending[r], Kept(s, None, id), None);
      MirroredBelow(s, proc, other, id, s.pending[r].flow);
    }
    hide Extends, AllBelow, Issued, WorkOk;
  }

  lemma BelowTrans(s: State, id: string, f: Flow, g: Flow)
    requires AllBelow(s, id, f) && Extends(f, g)
    ensures AllBelow(s, id, g)
  {
    forall p | (p, id) in s.local ensures Extends(s.local[(p, id)].flow, g) {
      ExtendsTrans(s.local[(p, id)].flow, f, g);
    }
  }

  lemma SameIdle(s: State, t: State, id: string)
    requires forall r :: r in s.pending && s.pending[r].id == id ==> r in t.pending && t.pending[r].id == id
    ensures Idle(t, id) ==> Idle(s, id)
  {
  }

  lemma OldCopiesBegin(verify: Verifier, s: State, a: Act, id: string)
    requires OldCopies(s, id) && SerialInv(s, None, id) && a.Begin? && Enabled(s, a) && Turn(s, a, None, id)
    ensures OldCopies(Step(verify, s, a), id)
  {
    OldCopiesLook(s, a.proc, a.id, id);
    var m, v := Mirrored(s, a.proc, a.id), Check(verify, View(s, a.proc, a.id), a.ask);
    assert m == s.(local := m.local);
    if v.Accepted? {
      if a.id == id {
        BeginLoadsKept(verify, s, a.proc, a.ask, None, id);
        hide Mirrored, Check, View, Extends, SerialInv, AllBelow;
        assert Idle(m, id) && m.store == s.store;
        BelowTrans(m, id, s.store[id].flow, v.flow);
      } else {
        SameIdle(m, Step(verify, s, a), id);
        hide Mirrored, Check, View, Extends, SerialInv, AllBelow;
      }
    }
  }

  lemma OldCopiesInitiate(verify: Verifier, s: State, a: Act, id: string)
    requires Inv(verify, s) && OldCopies(s, id) && a.Initiate? && Enabled(s, a) && Turn(s, a, None, id)
    ensures OldCopies(Step(verify, s, a), id)
  {
    hide Extends, Genuine, Reached, NewFlow;
    assert a.id == id ==> Idle(s, id) && forall p :: (p, id) !in s.local;
    ExtendsItself(NewFlow(a.challenge, a.signers, a.threshold, s.now));
    hide Inv;
  }

  lemma OldCopiesEnd(verify: Verifier, s: State, a: Act, id: string)
    requires OldCopies(s, id) && SerialInv(s, None, id) && a.End? && Enabled(s, a)
    ensures OldCopies(Step(verify, s, a), id)
  {
    ExtendsItself(s.pending[a.req].flow);
    hide Extends, Issued, WorkOk;
    var t := Step(verify, s, a);
    if s.pending[a.req].id == id {
      assert t.pending[a.req].id == id;
      assert !Idle(t, id);
    } else {
      SameIdle(s, t, id);
    }
  }

  lemma OldCopiesSync(verify: Verifier, s: State, a: Act, id: string)
    requires OldCopies(s, id) && SerialInv(s, None, id) && a.Sync? && Enabled(s, a) && Turn(s, a, None, id)
    ensures OldCopies(Step(verify, s, a), id)
  {
    hide Extends, Issued, WorkOk;
    if s.pending[a.req].id != id {
      SameIdle(s, Step(verify, s, a), id);
    }
  }

  lemma OldCopiesKept(verify: Verifier, s: State, a: Act, id: string)
    requires Inv(verify, s) && OldCopies(s, id) && SerialInv(s, None, id) && Enabled(s, a) && Turn(s, a, None, id)
    ensures OldCopies(Step(verify, s, a), id)
  {
    match a
    case Initiate(_, _, _, _, _, _) =>
      OldCopiesInitiate(verify, s, a, id);
    case Look(proc, other) =>
      OldCopiesLook(s, proc, other, id);
    case Begin(_, _, _, _) =>
      OldCopiesBegin(verify, s, a, id);
    case End(_) =>
      OldCopiesEnd(verify, s, a, id);
    case Sync(_, _, _) =>
      OldCopiesSync(verify, s, a, id);
    case _ =>
      hide Extends, Inv, SerialInv;
  }

  lemma {:induction false} OldCopiesRun(verify: Verifier, s: State, acts: seq<Act>, t: State, id: string)
    requires Inv(verify, s) && OldCopies(s, id) && SerialInv(s, None, id)
    requires Run(verify, s, acts, t) && Serial(verify, s, acts, None, id)
    ensures OldCopies(t, id)
    decreases |acts|
  {
    if acts != [] {
      hide Inv, SerialInv, OldCopies, Step, Enabled, Turn;
      InvKept(verify, s, acts[0]);
      SerialKept(verify, s, acts[0], None, id);
      OldCopiesKept(verify, s, acts[0], id);
      OldCopiesRun(verify, Step(verify, s, acts[0]), acts[1..], t, id);
    }
  }

  /**
   Why turns ask that a process answer with what Redis holds.  After turns taken, a request that is accepted by any
   process keeps all that was signed or completed just when that process answered with the last copy written to Redis,
   or makes the same copy once more.
   */
  lemma RequestKeepsIff(verify: Verifier, acts: seq<Act>, s: State, proc: nat, id: string, ask: Ask)
    requires Run(verify, START, acts, s) && Serial(verify, START, acts, None, id) && Idle(s, id)
    requires Check(verify, View(s, proc, id), ask).Accepted?
    ensures id in s.store
    ensures var g := Check(verify, View(s, proc, id), ask).flow;
            Extends(s.store[id].flow, g)
            <==> View(s, proc, id) == Some(s.store[id].flow) || g == s.store[id].flow
  {
    SerialStart(verify, None, id);
    OldCopiesRun(verify, START, acts, s, id);
    assert View(s, proc, id).Some? by { NothingLoaded(verify, ask); }
    hide Run, Serial, Check;
    ExtendsItself(s.store[id].flow);
    assert Extends(View(s, proc, id).value, s.store[id].flow) by { hide Extends; }
    OldCopyKeepsIff(verify, View(s, proc, id).value, s.store[id].flow, ask);
  }

  function Request(req: nat, proc: nat, id: string, ask: Ask, ok: bool): seq<Act> {
    [Begin(req, proc, id, ask)] + [End(req), Sync(req, ok, true)]
  }

  lemma {:induction false} RunConcat(verify: Verifier, s: State, one: seq<Act>, u: State, two: seq<Act>, t: State)
    requires Run(verify, s, one, u) && Run(verify, u, two, t)
    ensures Run(verify, s, one + two, t)
    decreases |one|
  {
    hide Step, Enabled;
    if one == [] {
      assert one + two == two;
    } else {
      assert (one + two)[0] == one[0] && (one + two)[1..] == one[1..] + two;
      RunConcat(verify, Step(verify, s, one[0]), one[1..], u, two, t);
    }
  }

  lemma WriteBack(verify: Verifier, s: State, r: nat, ok: bool) returns (t: State)
    requires r in s.pending && !s.pending[r].written
    ensures Run(verify, s, [End(r), Sync(r, ok, true)], t)
    ensures var w := s.pending[r];
            var copy := Stored(w.flow, s.now + w.ttl);
            t == s.(local := s.local[(w.proc, w.id) := copy], store := if ok then s.store[w.id := copy] else s.store,
                    pending := s.pending - {r},
                    sessions := if w.ask.Complete? then s.sessions + [Session(w.id, w.flow)] else s.sessions)
  {
    var u := Step(verify, s, End(r));
    t := Step(verify, u, Sync(r, ok, true));
    assert t.pending == s.pending - {r};
    hide Step;
    assert [End(r), Sync(r, ok, true)][1..] == [Sync(r, ok, true)];
    OneStep(verify, u, Sync(r, ok, true));
  }

  lemma OneStep(verify: Verifier, s: State, a: Act)
    requires Enabled(s, a)
    ensures Run(verify, s, [a], Step(verify, s, a))
  {
    hide Step, Enabled;
    assert [a][1..] == [];
    assert Run(verify, Step(verify, s, a), [], Step(verify, s, a));
  }

  /** An accepted request with nothing in between. */
  lemma OneRequest(verify: Verifier, s: State, req: nat, proc: nat, id: string, ask: Ask, ok: bool) returns (t: State)
    requires Check(verify, View(s, proc, id), ask).Accepted? && req !in s.pending
    ensures Run(verify, s, Request(req, proc, id, ask, ok), t)
    ensures var v := Check(verify, View(s, proc, id), ask);
            var copy := Stored(v.flow, s.now + v.ttl);
            t == s.(local := s.local[(proc, id) := copy], store := if ok then s.store[id := copy] else s.store,
                    sessions := if ask.Complete? then s.sessions + [Session(id, v.flow)] else s.sessions)
  {
    var v := Check(verify, View(s, proc, id), ask);
    hide Check, View, Run;
    var m := Mirrored(s, proc, id);
    var w := Work(proc, id, ask, v.flow, v.ttl, false);
    var u := Step(verify, s, Begin(req, proc, id, ask));
    assert u == m.(pending := s.pending[req := w]);
    OneStep(verify, s, Begin(req, proc, id, ask));
    t := WriteBack(verify, u, req, ok);
    RunConcat(verify, s, [Begin(req, proc, id, ask)], u, [End(req), Sync(req, ok, true)], t);
    hide Step, Enabled;
    assert t.pending == s.pending;
    assert t.local == s.local[(proc, id) := Stored(v.flow, s.now + v.ttl)];
  }

  /**
   What is answered after a request that process `proc` accepted: by `proc` itself the new copy, by another process its
   own old copy while that lives, and the new copy if that got into Redis.
   */
  lemma AnswersAfterRequest(verify: Verifier, s: State, req: nat, proc: nat, id: string, ask: Ask, ok: bool, other: nat)
    returns (t: State)
    requires Check(verify, View(s, proc, id), ask).Accepted? && req !in s.pending
    ensures Run(verify, s, Request(req, proc, id, ask, ok), t)
    ensures var copy := Check(verify, View(s, proc, id), ask).flow;
            View(t, other, id) == if other == proc then Some(copy)
                                  else if Alive(At(s.local, (other, id)), s.now) then View(s, other, id)
                                  else if ok then Some(copy)
                                  else View(s, other, id)
  {
    t := OneRequest(verify, s, req, proc, id, ask, ok);
    hide SignedWeight, Find, Run;
  }

  ghost predicate Signed(f: Flow, address: string) {
    var i := Find(f.signers, address);
    i < |f.signers| && f.signers[i].signed
  }

  lemma {:induction false} FindSame(xs: seq<Signer>, ys: seq<Signer>, address: string)
    requires |xs| == |ys| && forall i :: 0 <= i < |xs| ==> xs[i].address == ys[i].address
    ensures Find(xs, address) == Find(ys, address)
  {
    if xs != [] && xs[0].address != address {
      FindSame(xs[1..], ys[1..], address);
    }
  }

  /** A contribution signs for its own address and changes no other. */
  lemma ContributionSigns(verify: Verifier, f: Flow, address: string, signature: string, other: string)
    requires Check(verify, Some(f), Contribute(address, signature)).Accepted?
    ensures var g := Check(verify, Some(f), Contribute(address, signature)).flow;
            Signed(g, other) <==> Signed(f, other) || other == address
    ensures !Signed(f, address)
  {
    FindSame(f.signers, Check(verify, Some(f), Contribute(address, signature)).flow.signers, other);
  }

  /** Which contributions are accepted, and how the others are answered. */
  lemma ContributionAcceptedIff(verify: Verifier, loaded: Option<Flow>, address: string, signature: string)
    ensures var v := Check(verify, loaded, Contribute(address, signature));
            && (v.Accepted? <==>
                  && loaded.Some? && !loaded.value.completed
                  && (exists k :: k in loaded.value.signers && k.address == address) && !Signed(loaded.value, address)
                  && verify(address, loaded.value.challenge, signature))
            && (v == Refused(404) <==> loaded.None?)
            && (v == Refused(401) <==>
                  && loaded.Some? && !loaded.value.completed
                  && (exists k :: k in loaded.value.signers && k.address == address) && !Signed(loaded.value, address)
                  && !verify(address, loaded.value.challenge, signature))
            && (v.Refused? ==> v.status in {400, 401, 404})
  {
    if loaded.Some? {
      var signers := loaded.value.signers;
      var i := Find(signers, address);
      if i < |signers| {
        assert signers[i] in signers && signers[i].address == address;
      }
      hide Find, SignedWeight;
    }
  }

  /** A completion is accepted when the weights of those who have signed reach the threshold. */
  lemma CompletionAcceptedIff(verify: Verifier, loaded: Option<Flow>)
    ensures var v := Check(verify, loaded, Complete);
            && (v.Accepted? <==>
                  && loaded.Some? && !loaded.value.completed
                  && var signers := loaded.value.signers;
                     WeightOf(signers, seq(|signers|, i requires 0 <= i < |signers| => signers[i].signed))
                     >= loaded.value.threshold)
            && (v.Refused? ==> v.status == if loaded.None? then 404 else 400)
  {
    if loaded.Some? {
      var signers := loaded.value.signers;
      SignedIsWeightOf(signers, signers, seq(|signers|, i requires 0 <= i < |signers| => signers[i].signed));
    }
    hide SignedWeight, WeightOf;
  }

  /** Who has signed in `f`, and that it is completed, is not lost in `g`. */
  ghost predicate Covers(f: Flow, g: Flow) {
    (forall address :: Signed(f, address) ==> Signed(g, address)) && (f.completed ==> g.completed)
  }

  /** Two requests were accepted on the same copy, and the copy of the second is what process `proc` answers with. */
  ghost predicate OnOneCopy(verify: Verifier, s: State, t: State, proc: nat, id: string, f: Flow, first: Ask,
                            second: Ask) {
    && Check(verify, Some(f), first).Accepted? && Check(verify, Some(f), second).Accepted?
    && View(t, proc, id) == Some(Check(verify, Some(f), second).flow)
    && Issued(t.sessions, id)
    == Issued(s.sessions, id) + (if first.Complete? then 1 else 0) + (if second.Complete? then 1 else 0)
  }

  /**
   Then nothing is lost and at most one session issued just when both are contributions by the same address.  In detail:
   two completions yield two sessions, a contribution is forgotten, and a completed flow is open again.
   */
  lemma NothingLostIff(verify: Verifier, s: State, t: State, proc: nat, id: string, f: Flow, first: Ask, second: Ask)
    requires OnOneCopy(verify, s, t, proc, id, f, first, second)
    ensures var g, h := Check(verify, Some(f), first).flow, View(t, proc, id).value;
            && (Covers(g, h) && Issued(t.sessions, id) <= Issued(s.sessions, id) + 1
                <==> first.Contribute? && second.Contribute? && first.address == second.address)
            && (first.Complete? && second.Complete? ==> Issued(t.sessions, id) == Issued(s.sessions, id) + 2)
            && (first.Contribute? && (second.Complete? || second.address != first.address) ==>
                  Signed(g, first.address) && !Signed(h, first.address))
            && (first.Complete? && second.Contribute? ==> Issued(t.sessions, id) > 0 && !h.completed)
  {
    hide Issued, View;
    var g, h := Check(verify, Some(f), first).flow, Check(verify, Some(f), second).flow;
    match (first, second)
    case (Complete, Complete) =>
      hide Check, Signed;
    case (Complete, Contribute(_, _)) =>
      hide Signed, SignedWeight, Find;
    case (Contribute(a, x), Complete) =>
      ContributionSigns(verify, f, a, x, a);
      assert h.signers == f.signers by { hide SignedWeight; }
      hide Check;
    case (Contribute(a, x), Contribute(b, y)) =>
      forall c ensures (Signed(g, c) <==> Signed(f, c) || c == a) && (Signed(h, c) <==> Signed(f, c) || c == b) {
        ContributionSigns(verify, f, a, x, c);
        ContributionSigns(verify, f, b, y, c);
      }
      ContributionSigns(verify, f, a, x, a);
      assert !g.completed by { hide Signed, SignedWeight, Find; }
      hide Check, Signed;
  }

  lemma MirroredSameView(s: State, proc: nat, id: string, other: nat)
    ensures View(Mirrored(s, proc, id), other, id) == View(s, other, id)
  {
  }

  /** Both load: nothing but the two pieces of work and the own stores differ. */
  lemma BothBegin(verify: Verifier, s: State, id: string, q: nat, p: nat, first: Ask, r: nat, p': nat, second: Ask)
    returns (t: State)
    requires View(s, p, id) == View(s, p', id)
    requires Check(verify, View(s, p, id), first).Accepted? && Check(verify, View(s, p, id), second).Accepted?
    requires q != r && q !in s.pending && r !in s.pending
    ensures Run(verify, s, [Begin(q, p, id, first), Begin(r, p', id, second)], t)
    ensures var v, w := Check(verify, View(s, p, id), first), Check(verify, View(s, p, id), second);
            t == s.(local := t.local, pending := s.pending[q := Work(p, id, first, v.flow, v.ttl, false)]
                                                          [r := Work(p', id, second, w.flow, w.ttl, false)])
  {
    hide Check, View;
    var a, b := Begin(q, p, id, first), Begin(r, p', id, second);
    MirroredSameView(s, p, id, p');
    var m := Mirrored(s, p, id);
    assert m == s.(local := m.local);
    var s1 := Step(verify, s, a);
    assert View(s1, p', id) == View(m, p', id) by { SameView(s1, m, p', id); }
    var m1 := Mirrored(s1, p', id);
    assert m1 == s1.(local := m1.local);
    t := Step(verify, s1, b);
    hide Mirrored, Step;
    assert [a, b][1..] == [b];
    OneStep(verify, s1, b);
  }

  lemma SameView(s: State, t: State, proc: nat, id: string)
    requires s.local == t.local && s.store == t.store && s.now == t.now
    ensures View(s, proc, id) == View(t, proc, id)
  {
  }

  /** Both write, one after the other. */
  lemma BothWrite(verify: Verifier, s: State, q: nat, r: nat, ok: bool) returns (t: State)
    requires q != r && q in s.pending && r in s.pending && !s.pending[q].written && !s.pending[r].written
    requires s.pending[q].id == s.pending[r].id
    ensures Run(verify, s, [End(q), Sync(q, ok, true)] + [End(r), Sync(r, ok, true)], t)
    ensures var w, x := s.pending[q], s.pending[r];
            && t.now == s.now && t.pending == s.pending - {q, r}
            && At(t.local, (x.proc, x.id)) == Some(Stored(x.flow, s.now + x.ttl))
            && At(t.store, x.id) == (if ok then Some(Stored(x.flow, s.now + x.ttl)) else At(s.store, x.id))
            && Issued(t.sessions, x.id)
            == Issued(s.sessions, x.id) + (if w.ask.Complete? then 1 else 0) + (if x.ask.Complete? then 1 else 0)
  {
    hide Issued;
    var u := WriteBack(verify, s, q, ok);
    t := WriteBack(verify, u, r, ok);
    hide Step, Enabled;
    RunConcat(verify, s, [End(q), Sync(q, ok, true)], u, [End(r), Sync(r, ok, true)], t);
    hide Run;
    IssuedSnoc(s.sessions, Session(s.pending[q].id, s.pending[q].flow), s.pending[r].id);
    IssuedSnoc(u.sessions, Session(s.pending[r].id, s.pending[r].flow), s.pending[r].id);
    assert t.pending == s.pending - {q, r};
  }

  lemma AfterOne(verify: Verifier, s: State, t: State, proc: nat, id: string, ask: Ask)
    requires Check(verify, View(s, proc, id), ask).Accepted? && t.now == s.now
    requires (proc, id) in t.local
    requires var v := Check(verify, View(s, proc, id), ask); t.local[(proc, id)] == Stored(v.flow, s.now + v.ttl)
    ensures View(t, proc, id) == Some(Check(verify, View(s, proc, id), ask).flow)
  {
    hide SignedWeight, Find;
  }

  function Overlap(q: nat, p: nat, first: Ask, r: nat, p': nat, second: Ask, id: string, ok: bool): seq<Act> {
    [Begin(q, p, id, first), Begin(r, p', id, second)] + ([End(q), Sync(q, ok, true)] + [End(r), Sync(r, ok, true)])
  }

  /** Two accepted requests that both load a flow before either writes back, at one process or two. */
  lemma LastWriterWins(verify: Verifier, s: State, id: string, q: nat, p: nat, first: Ask, r: nat, p': nat, second: Ask,
                       ok: bool) returns (t: State)
    requires View(s, p, id) == View(s, p', id)
    requires Check(verify, View(s, p, id), first).Accepted? && Check(verify, View(s, p, id), second).Accepted?
    requires q != r && q !in s.pending && r !in s.pending
    ensures Run(verify, s, Overlap(q, p, first, r, p', second, id, ok), t) && t.pending == s.pending
    ensures ok ==> id in t.store && t.store[id].flow == Check(verify, View(s, p, id), second).flow
    ensures View(s, p, id).Some? && OnOneCopy(verify, s, t, p', id, View(s, p, id).value, first, second)
  {
    var v, w := Check(verify, View(s, p, id), first), Check(verify, View(s, p, id), second);
    assert View(s, p, id).Some? by { NothingLoaded(verify, first); }
    hide Issued, View, Run;
    var u := BothBegin(verify, s, id, q, p, first, r, p', second);
    t := BothWrite(verify, u, q, r, ok);
    hide Check;
    RunConcat(verify, s, [Begin(q, p, id, first), Begin(r, p', id, second)], u,
              [End(q), Sync(q, ok, true)] + [End(r), Sync(r, ok, true)], t);
    AfterOne(verify, s, t, p', id, second);
    assert t.pending == s.pending;
  }

  /** A request on a copy that the first request did not touch. */
  lemma SecondRequest(verify: Verifier, s: State, acts: seq<Act>, u: State, r: nat, proc: nat, id: string, f: Flow,
                      first: Ask, second: Ask, ok: bool) returns (t: State)
    requires Run(verify, s, acts, u) && View(u, proc, id) == Some(f) && r !in u.pending
    requires Check(verify, Some(f), first).Accepted? && Check(verify, Some(f), second).Accepted?
    requires Issued(u.sessions, id) == Issued(s.sessions, id) + if first.Complete? then 1 else 0
    ensures Run(verify, s, acts + Request(r, proc, id, second, ok), t)
    ensures OnOneCopy(verify, s, t, proc, id, f, first, second)
  {
    hide Issued, Request, Run;
    t := OneRequest(verify, u, r, proc, id, second, ok);
    RunConcat(verify, s, acts, u, Request(r, proc, id, second, ok), t);
    AfterOne(verify, u, t, proc, id, second);
    IssuedSnoc(u.sessions, Session(id, Check(verify, Some(f), second).flow), id);
    hide Check, View;
  }

  /** The same without overlap, at two processes of which the second has its own copy from before. */
  lemma OldLocalCopyWins(verify: Verifier, s: State, id: string, q: nat, p: nat, first: Ask, r: nat, p': nat,
                         second: Ask, ok: bool) returns (t: State)
    requires View(s, p, id) == View(s, p', id) && p != p' && Alive(At(s.local, (p', id)), s.now)
    requires Check(verify, View(s, p, id), first).Accepted? && Check(verify, View(s, p, id), second).Accepted?
    requires q !in s.pending && r !in s.pending
    ensures Run(verify, s, Request(q, p, id, first, true) + Request(r, p', id, second, ok), t)
    ensures View(s, p, id).Some? && OnOneCopy(verify, s, t, p', id, View(s, p, id).value, first, second)
  {
    assert View(s, p, id).Some? by { NothingLoaded(verify, first); }
    hide Run, Issued, Request, Check;
    var u := OneRequest(verify, s, q, p, id, first, true);
    assert View(u, p', id) == View(s, p', id);
    IssuedSnoc(s.sessions, Session(id, Check(verify, View(s, p, id), first).flow), id);
    hide View, OnOneCopy;
    t := SecondRequest(verify, s, Request(q, p, id, first, true), u, r, p', id, View(s, p, id).value,
                       first, second, ok);
  }

  /** Such an old copy needs no request: it is enough that the second process has been asked for the flow's state. */
  lemma LookMakesOldCopy(verify: Verifier, s: State, id: string, q: nat, p: nat, first: Ask, p': nat) returns (t: State)
    requires p != p' && !Alive(At(s.local, (p', id)), s.now) && Alive(At(s.store, id), s.now)
    requires Check(verify, View(s, p, id), first).Accepted? && q !in s.pending
    ensures Run(verify, s, [Look(p', id)] + Request(q, p, id, first, true), t)
    ensures View(t, p', id) == Some(s.store[id].flow)
    ensures At(t.local, (p', id)) == Some(s.store[id])
  {
    hide Check, Run, Request;
    var u := Step(verify, s, Look(p', id));
    OneStep(verify, s, Look(p', id));
    MirroredSameView(s, p', id, p);
    t := OneRequest(verify, u, q, p, id, first, true);
    RunConcat(verify, s, [Look(p', id)], u, Request(q, p, id, first, true), t);
    hide Check;
  }

  /** Who finds a new flow: the process that initiated it, and the others just if it got into Redis. */
  lemma NewFlowIsFound(verify: Verifier, s: State, proc: nat, id: string, challenge: string,
                       signers: seq<(string, int)>, threshold: int, ok: bool, other: nat)
    requires Inv(verify, s) && Enabled(s, Initiate(proc, id, challenge, signers, threshold, ok))
    ensures View(Step(verify, s, Initiate(proc, id, challenge, signers, threshold, ok)), other, id)
         == if other == proc || ok then Some(NewFlow(challenge, signers, threshold, s.now)) else None
  {
    hide Extends, Genuine, Reached, NewFlow;
  }

  /** And at one process, when Redis missed the first request's copy and the process's own copy has had to go. */
  lemma FailedWriteIsForgotten(verify: Verifier, s: State, id: string, q: nat, p: nat, first: Ask, r: nat, second: Ask,
                               ok: bool) returns (t: State)
    requires Alive(At(s.store, id), s.now) && View(s, p, id) == Some(s.store[id].flow)
    requires Check(verify, View(s, p, id), first).Accepted? && Check(verify, View(s, p, id), second).Accepted?
    requires q !in s.pending && r !in s.pending
    ensures Run(verify, s, Request(q, p, id, first, false) + [Evict(p, id)] + Request(r, p, id, second, ok), t)
    ensures OnOneCopy(verify, s, t, p, id, View(s, p, id).value, first, second)
  {
    hide Issued, Request, Run, Check;
    var u := OneRequest(verify, s, q, p, id, first, false);
    var u' := Step(verify, u, Evict(p, id));
    OneStep(verify, u, Evict(p, id));
    assert View(u', p, id) == View(s, p, id);
    RunConcat(verify, s, Request(q, p, id, first, false), u, [Evict(p, id)], u');
    IssuedSnoc(s.sessions, Session(id, Check(verify, View(s, p, id), first).flow), id);
    hide View, OnOneCopy;
    t := SecondRequest(verify, s, Request(q, p, id, first, false) + [Evict(p, id)], u', r, p, id, View(s, p, id).value,
                       first, second, ok);
  }

  /* ----- how long a flow lasts ----- */

  ghost predicate Timed(s: State) {
    && (forall id :: id in s.store ==> s.store[id].until <= s.now + FLOW_TTL)
    && (forall c :: c in s.local ==> s.local[c].until <= s.now + FLOW_TTL)
    && (forall r :: r in s.pending ==> s.pending[r].ttl <= FLOW_TTL)
  }

  lemma TimedKept(verify: Verifier, s: State, a: Act)
    requires Timed(s) && Enabled(s, a)
    ensures Timed(Step(verify, s, a))
  {
    hide NewFlow;
    if a.Begin? {
      assert Check(verify, View(s, a.proc, a.id), a.ask).Accepted? ==>
          Check(verify, View(s, a.proc, a.id), a.ask).ttl <= FLOW_TTL by { hide SignedWeight, Find, View; }
    }
    hide Check, View;
  }

  lemma {:induction false} RunTimed(verify: Verifier, s: State, acts: seq<Act>, t: State)
    requires Timed(s) && Run(verify, s, acts, t)
    ensures Timed(t)
    decreases |acts|
  {
    hide Timed, Step, Enabled;
    if acts != [] {
      TimedKept(verify, s, acts[0]);
      RunTimed(verify, Step(verify, s, acts[0]), acts[1..], t);
    }
  }

  /**
   `expiresAt` is never looked at, and every contribution starts the 10 minutes anew: however old the flow, after a
   contribution it can be completed just for those 10 minutes.
   */
  lemma CompletableAfterExpiresAt(verify: Verifier, before: seq<Act>, s: State, id: string, req: nat, proc: nat,
                                  address: string, signature: string, ok: bool, ms: nat) returns (t: State)
    requires Run(verify, START, before, s) && req !in s.pending
    requires Check(verify, View(s, proc, id), Contribute(address, signature)).Accepted?
    ensures Run(verify, s, Request(req, proc, id, Contribute(address, signature), ok) + [Wait(ms)], t)
    ensures t.now == s.now + ms
    ensures var f := Check(verify, View(s, proc, id), Contribute(address, signature)).flow;
            Check(verify, View(t, proc, id), Complete).Accepted?
            <==> ms < FLOW_TTL && SignedWeight(f.signers) >= f.threshold
  {
    RunTimed(verify, START, before, s);
    var ask := Contribute(address, signature);
    var u := OneRequest(verify, s, req, proc, id, ask, ok);
    t := Step(verify, u, Wait(ms));
    OneStep(verify, u, Wait(ms));
    RunConcat(verify, s, Request(req, proc, id, ask, ok), u, [Wait(ms)], t);
    hide Run, SignedWeight, Find, Request;
  }

  /** A completed flow is told to be completed for another minute, and then it is gone. */
  lemma CompletedForAMinute(verify: Verifier, s: State, id: string, req: nat, proc: nat, ask: Ask, ms: nat)
    returns (t: State)
    requires req !in s.pending && Check(verify, View(s, proc, id), Complete).Accepted?
    ensures Run(verify, s, Request(req, proc, id, Complete, true) + [Wait(ms)], t)
    ensures Check(verify, View(t, proc, id), ask) == if ms < 60_000 then Refused(400) else Refused(404)
  {
    var u := OneRequest(verify, s, req, proc, id, Complete, true);
    t := Step(verify, u, Wait(ms));
    OneStep(verify, u, Wait(ms));
    RunConcat(verify, s, Request(req, proc, id, Complete, true), u, [Wait(ms)], t);
    hide Run, SignedWeight, Find, Request;
  }

  /** No request for the flow gets as far as writing. */
  ghost predicate Untouched(verify: Verifier, s: State, acts: seq<Act>, id: string)
    decreases |acts|
  {
    acts != [] && Enabled(s, acts[0]) ==>
      && (acts[0].End? ==> s.pending[acts[0].req].id != id)
      && Untouched(verify, Step(verify, s, acts[0]), acts[1..], id)
  }

  ghost predicate AsInitiated(s: State, id: string) {
    && NoneWritten(s, id)
    && (id in s.store ==> id in s.created && s.store[id].until == s.created[id].expiresAt)
    && (forall p :: (p, id) in s.local ==> id in s.created && s.local[(p, id)].until == s.created[id].expiresAt)
  }

  lemma AsInitiatedKept(verify: Verifier, s: State, a: Act, id: string)
    requires Inv(verify, s) && AsInitiated(s, id) && Enabled(s, a) && (a.End? ==> s.pending[a.req].id != id)
    ensures AsInitiated(Step(verify, s, a), id)
  {
    hide Extends, Genuine, Reached, Check;
  }

  lemma {:induction false} UntouchedRun(verify: Verifier, s: State, acts: seq<Act>, t: State, id: string)
    requires Inv(verify, s) && AsInitiated(s, id) && Run(verify, s, acts, t) && Untouched(verify, s, acts, id)
    ensures AsInitiated(t, id)
    decreases |acts|
  {
    if acts != [] {
      hide Inv, AsInitiated, Step;
      InvKept(verify, s, acts[0]);
      AsInitiatedKept(verify, s, acts[0], id);
      UntouchedRun(verify, Step(verify, s, acts[0]), acts[1..], t, id);
    }
  }

  /** A flow to which nobody contributed is found just until `expiresAt`, by every process that can get at a copy. */
  lemma UntouchedLastsUntilExpiresAt(verify: Verifier, acts: seq<Act>, t: State, proc: nat, id: string)
    requires Run(verify, START, acts, t) && Untouched(verify, START, acts, id) && id in t.created
    ensures View(t, proc, id).Some? <==> t.now < t.created[id].expiresAt && (id in t.store || (proc, id) in t.local)
  {
    SerialStart(verify, None, id);
    UntouchedRun(verify, START, acts, t, id);
    hide Run, Untouched;
  }

  /* ----- the handlers ----- */

  datatype Reply = Error(status: nat) | Contributed(signedWeight: int, threshold: int, ready: bool)

  function Challenge(multisigAddress: string, nonce: string, id: string): string {
    "Authenticate multi-sig wallet " + multisigAddress + " [nonce: " + nonce + "] [flow: " + id + "]"
  }

  /** Signatures of one challenge are good for no other: it tells the wallet, the nonce and the flow. */
  lemma ChallengesDiffer(wallet: string, nonce: string, id: string, wallet': string, nonce': string, id': string)
    requires |nonce| == |nonce'| && |id| == |id'|
    requires Challenge(wallet, nonce, id) == Challenge(wallet', nonce', id')
    ensures wallet == wallet' && nonce == nonce' && id == id'
  {
    var head, mid, end := "Authenticate multi-sig wallet ", " [nonce: ", "] [flow: ";
    assert |wallet| == |wallet'|;
    var c, c' := Challenge(wallet, nonce, id), Challenge(wallet', nonce', id');
    var a, b := |head| + |wallet|, |head| + |wallet| + |mid| + |nonce| + |end|;
    assert c[|head|..a] == wallet && c'[|head|..a] == wallet';
    assert c[a + |mid|..a + |mid| + |nonce|] == nonce && c'[a + |mid|..a + |mid| + |nonce|] == nonce';
    assert c[b..b + |id|] == id && c'[b..b + |id|] == id';
  }

  /** The handlers of one process, whose own store is `local`; a request field that is missing reads as "". */
  class AuthFlows {
    var now: int
    var local: map<string, Stored>
    var store: map<string, Stored>

    method CacheGet(id: string) returns (flow: Option<Flow>)
      modifies this`local
      ensures flow == Answer(At(old(local), id), At(store, id), now)
      ensures At(local, id) == OwnAfter(At(old(local), id), At(store, id), now)
      ensures local - {id} == old(local) - {id}
    {
      if id in local {
        if now < local[id].until {
          return Some(local[id].flow);
        }
        local := local - {id};
      }
      if id !in store || store[id].until <= now {
        return None;
      }
      local := local[id := store[id]];
      return Some(store[id].flow);
    }

    method CacheSet(id: string, flow: Flow, ttl: nat, ok: bool)
      modifies this`local, this`store
      ensures local == old(local)[id := Stored(flow, now + ttl)]
      ensures store == if ok then old(store)[id := Stored(flow, now + ttl)] else old(store)
    {
      local := local[id := Stored(flow, now + ttl)];
      if ok {
        store := store[id := Stored(flow, now + ttl)];
      }
    }

    /** `/initiate`; no address, no signers or a zero threshold is refused. */
    method Initiate(id: string, nonce: string, multisigAddress: string, signers: Option<seq<(string, int)>>,
                    threshold: int, ok: bool) returns (status: nat)
      modifies this`local, this`store
      ensures status == 400 <==> multisigAddress == "" || signers.None? || threshold == 0
      ensures status == 400 ==> local == old(local) && store == old(store)
      ensures status != 400 ==>
                var flow := NewFlow(Challenge(multisigAddress, nonce, id), signers.value, threshold, now);
                && local == old(local)[id := Stored(flow, now + FLOW_TTL)]
                && store == if ok then old(store)[id := Stored(flow, now + FLOW_TTL)] else old(store)
    {
      if multisigAddress == "" || signers.None? || threshold == 0 {
        return 400;
      }
      CacheSet(id, NewFlow(Challenge(multisigAddress, nonce, id), signers.value, threshold, now), FLOW_TTL, ok);
      return 200;
    }

    /** `/contribute`, up to writing the flow back. */
    method BeginContribute(verify: Verifier, id: string, address: string, signature: string) returns (verdict: Verdict)
      modifies this`local
      ensures id == "" || address == "" || signature == "" ==> verdict == Refused(400) && local == old(local)
      ensures id != "" && address != "" && signature != "" ==>
                && verdict == Check(verify, Answer(At(old(local), id), At(store, id), now),
                                    Contribute(address, signature))
                && At(local, id) == OwnAfter(At(old(local), id), At(store, id), now)
                && local - {id} == old(local) - {id}
    {
      if id == "" || address == "" || signature == "" {
        return Refused(400);
      }
      var found := CacheGet(id);
      if found.None? {
        return Refused(404);
      }
      var flow := found.value;
      if flow.completed {
        return Refused(400);
      }
      var i := 0;
      while i < |flow.signers| && flow.signers[i].address != address
        invariant i <= |flow.signers|
        invariant Find(flow.signers, address) == i + Find(flow.signers[i..], address)
      {
        assert flow.signers[i..][1..] == flow.signers[i + 1..];
        i := i + 1;
      }
      if i == |flow.signers| {
        return Refused(400);
      }
      var signer := flow.signers[i];
      if signer.signed {
        return Refused(400);
      }
      if !verify(address, flow.challenge, signature) {
        return Refused(401);
      }
      signer := signer.(signed := true, signature := signature);
      flow := flow.(signers := flow.signers[i := signer]);
      return Accepted(flow, FLOW_TTL);
    }

    /** `/contribute` with nothing in between: what it answers is what is stored, in Redis too if that works. */
    method ContributeAlone(verify: Verifier, id: string, address: string, signature: string, ok: bool)
      returns (reply: Reply)
      modifies this`local, this`store
      ensures reply.Error? ==> store == old(store)
      ensures reply.Contributed? ==>
                var loaded := Answer(At(old(local), id), At(old(store), id), now);
                && id in local && local[id].until == now + FLOW_TTL && Signed(local[id].flow, address)
                && loaded.Some? && Extends(loaded.value, local[id].flow) && !Signed(loaded.value, address)
                && store == (if ok then old(store)[id := local[id]] else old(store))
                && reply == Contributed(SignedWeight(local[id].flow.signers), local[id].flow.threshold,
                                        SignedWeight(local[id].flow.signers) >= local[id].flow.threshold)
    {
      ghost var loaded := Answer(At(local, id), At(store, id), now);
      var verdict := BeginContribute(verify, id, address, signature);
      match verdict
      case Refused(status) =>
        return Error(status);
      case Accepted(flow, ttl) =>
        ContributionStored(verify, loaded, address, signature);
        hide Check, Answer, OwnAfter;
        CacheSet(id, flow, ttl, ok);
        hide SignedWeight, Extends, Signed;
        var signedWeight := SignedWeight(flow.signers);
        return Contributed(signedWeight, flow.threshold, signedWeight >= flow.threshold);
    }

    /** `/complete`, up to writing the flow back. */
    method BeginComplete(verify: Verifier, id: string) returns (verdict: Verdict)
      modifies this`local
      ensures id == "" ==> verdict == Refused(400) && local == old(local)
      ensures id != "" ==>
                && verdict == Check(verify, Answer(At(old(local), id), At(store, id), now), Complete)
                && At(local, id) == OwnAfter(At(old(local), id), At(store, id), now)
                && local - {id} == old(local) - {id}
    {
      if id == "" {
        return Refused(400);
      }
      var found := CacheGet(id);
      if found.None? {
        return Refused(404);
      }
      var flow := found.value;
      if flow.completed {
        return Refused(400);
      }
      var signedWeight := SignedWeight(flow.signers);
      if signedWeight < flow.threshold {
        return Refused(400);
      }
      flow := flow.(completed := true);
      return Accepted(flow, COMPLETED_TTL);
    }
  }

  lemma ContributionStored(verify: Verifier, loaded: Option<Flow>, address: string, signature: string)
    requires Check(verify, loaded, Contribute(address, signature)).Accepted?
    ensures var v := Check(verify, loaded, Contribute(address, signature));
            && loaded.Some? && Extends(loaded.value, v.flow) && v.ttl == FLOW_TTL
            && Signed(v.flow, address) && !Signed(loaded.value, address)
  {
    assert loaded.Some? by { NothingLoaded(verify, Contribute(address, signature)); }
    ContributionSigns(verify, loaded.value, address, signature, address);
    CheckExtends(verify, loaded.value, Contribute(address, signature));
    hide Extends, Signed;
  }
}
