/**
 State diffs: `scValLabel`, `deriveTier` and `extractStateDiffs` of indexer/src/stateDiffIndexer.js.
 A stream of ledger entry changes is summarised by one diff per storage key. The module proves
 that replaying the summary equals replaying the stream exactly when key labels do not collide.
 */
module StateDiff {
  import opened Options
  import Decimal

  /**
   What `scValToNative` gives: a bigint, a value whose JSON text is `text`, or one that `JSON.stringify` refuses
   because a bigint is nested in it, or that the conversion itself refuses.
   */
  datatype Native = Big(n: int) | Json(text: string) | Unprintable

  /** A contract value: its type, what it converts to, and its encoding, which alone tells all values apart. */
  datatype ScVal = ScVal(scType: string, native: Native, xdr: seq<int>)

  function Label(v: ScVal): string {
    match v.native
    case Big(n) => Decimal.Text(n)
    case Json(text) => text
    case Unprintable => v.scType
  }

  /** The key of a ledger entry: a temporary and a persistent entry may have the same contract and key. */
  datatype Slot = Slot(contract: string, key: ScVal, temporary: bool)

  datatype Tier = Instance | Persistent | Temporary

  function DeriveTier(slot: Slot): Tier {
    if slot.temporary then Temporary
    else if slot.key.scType == "scvLedgerKeyContractInstance" then Instance
    else Persistent
  }

  /** `Other` stands for every change that the loop skips: another switch, no contract data, malformed. */
  datatype Change =
    | State(slot: Slot, value: ScVal)
    | Created(slot: Slot, value: ScVal)
    | Updated(slot: Slot, value: ScVal)
    | Removed(slot: Slot)
    | Other

  /** `changes` is `None` when the event has no Soroban metadata. */
  datatype Event = Event(ledger: int, txHash: Option<string>, changes: Option<seq<Change>>)

  datatype Kind = CreatedKind | UpdatedKind | RemovedKind

  datatype Diff = Diff(contract: string, ledger: int, txHash: Option<string>, key: string, tier: Tier,
                       oldValue: Option<string>, newValue: Option<string>, kind: Kind)

  /** What the summary can tell apart: the contract and the label of the key. */
  datatype Place = Place(contract: string, key: string)

  function PlaceOf(slot: Slot): Place {
    Place(slot.contract, Label(slot.key))
  }

  /** The key of the two maps. */
  function Composite(p: Place): string {
    p.contract + "::" + p.key
  }

  const EXISTED := "(existed)"

  /* ----- what the two maps hold, read off the stream ----- */

  predicate IsBefore(c: Change) {
    c.State? || c.Removed?
  }

  predicate IsAfter(c: Change) {
    c.Created? || c.Updated? || c.Removed?
  }

  function KeyOf(c: Change): string
    requires !c.Other?
  {
    Composite(PlaceOf(c.slot))
  }

  function Front(cs: seq<Change>): seq<Change>
    requires cs != []
  {
    cs[..|cs| - 1]
  }

  function Last(cs: seq<Change>): Change
    requires cs != []
  {
    cs[|cs| - 1]
  }

  /** The label of the last pre-image of a key. */
  function LastBefore(cs: seq<Change>, k: string): Option<string> {
    if cs == [] then None
    else if IsBefore(Last(cs)) && KeyOf(Last(cs)) == k then
      Some(if Last(cs).State? then Label(Last(cs).value) else EXISTED)
    else LastBefore(Front(cs), k)
  }

  /** The last change that writes or deletes a key. */
  function LastAfter(cs: seq<Change>, k: string): (r: Option<Change>)
    ensures r.Some? ==> IsAfter(r.value) && KeyOf(r.value) == k
  {
    if cs == [] then None
    else if IsAfter(Last(cs)) && KeyOf(Last(cs)) == k then Some(Last(cs))
    else LastAfter(Front(cs), k)
  }

  /** The keys that are written or deleted, in the order of their first such change. */
  function AfterOrder(cs: seq<Change>): seq<string> {
    if cs == [] then []
    else
      var order := AfterOrder(Front(cs));
      if IsAfter(Last(cs)) && KeyOf(Last(cs)) !in order then order + [KeyOf(Last(cs))] else order
  }

  lemma {:induction false} AfterOrderMeaning(cs: seq<Change>)
    ensures forall i, j :: 0 <= i < j < |AfterOrder(cs)| ==> AfterOrder(cs)[i] != AfterOrder(cs)[j]
    ensures forall k :: k in AfterOrder(cs) <==> LastAfter(cs, k).Some?
  {
    hide KeyOf;
    if cs != [] {
      AfterOrderMeaning(Front(cs));
    }
  }

  function DiffFor(ev: Event, cs: seq<Change>, k: string): Diff
    requires LastAfter(cs, k).Some?
  {
    var c := LastAfter(cs, k).value;
    var old_ := LastBefore(cs, k);
    Diff(c.slot.contract, ev.ledger, ev.txHash, Label(c.slot.key),
         if c.Removed? then Persistent else DeriveTier(c.slot),
         old_,
         if c.Removed? then None else Some(Label(c.value)),
         if c.Removed? then RemovedKind else if old_.Some? then UpdatedKind else CreatedKind)
  }

  function Diffs(ev: Event, cs: seq<Change>): (ds: seq<Diff>)
    ensures |ds| == |AfterOrder(cs)|
  {
    var order := AfterOrder(cs);
    AfterOrderMeaning(cs);
    seq(|order|, i requires 0 <= i < |order| => DiffFor(ev, cs, order[i]))
  }

  /* ----- the code ----- */

  datatype AfterEntry = AfterEntry(contract: string, key: string, value: Option<string>, tier: Tier, removed: bool)

  function EntryOf(c: Change): AfterEntry
    requires IsAfter(c)
  {
    if c.Removed? then AfterEntry(c.slot.contract, Label(c.slot.key), None, Persistent, true)
    else AfterEntry(c.slot.contract, Label(c.slot.key), Some(Label(c.value)), DeriveTier(c.slot), false)
  }

  /** What the maps must hold after a prefix of the stream. */
  ghost predicate Collected(cs: seq<Change>, before: map<string, string>, after: map<string, AfterEntry>) {
    && (forall k :: k in before <==> LastBefore(cs, k).Some?)
    && (forall k :: k in before ==> LastBefore(cs, k) == Some(before[k]))
    && (forall k :: k in after <==> LastAfter(cs, k).Some?)
    && (forall k :: k in after ==> after[k] == EntryOf(LastAfter(cs, k).value))
  }

  function BeforeStep(before: map<string, string>, c: Change): map<string, string> {
    if c.Removed? then before[KeyOf(c) := EXISTED]
    else if c.State? then before[KeyOf(c) := Label(c.value)]
    else before
  }

  function AfterStep(after: map<string, AfterEntry>, c: Change): map<string, AfterEntry> {
    if IsAfter(c) then after[KeyOf(c) := EntryOf(c)] else after
  }

  lemma LastSnoc(cs: seq<Change>, c: Change, k: string)
    ensures LastBefore(cs + [c], k)
         == if IsBefore(c) && KeyOf(c) == k then Some(if c.State? then Label(c.value) else EXISTED)
            else LastBefore(cs, k)
    ensures LastAfter(cs + [c], k) == if IsAfter(c) && KeyOf(c) == k then Some(c) else LastAfter(cs, k)
  {
    assert Front(cs + [c]) == cs && Last(cs + [c]) == c;
  }

  lemma AfterOrderSnoc(cs: seq<Change>, c: Change)
    ensures AfterOrder(cs + [c])
         == if IsAfter(c) && LastAfter(cs, KeyOf(c)).None? then AfterOrder(cs) + [KeyOf(c)] else AfterOrder(cs)
  {
    hide LastAfter, KeyOf;
    assert Front(cs + [c]) == cs && Last(cs + [c]) == c;
    AfterOrderMeaning(cs);
  }

  lemma CollectedStep(cs: seq<Change>, c: Change, before: map<string, string>, after: map<string, AfterEntry>)
    requires Collected(cs, before, after)
    ensures Collected(cs + [c], BeforeStep(before, c), AfterStep(after, c))
  {
    hide LastBefore, LastAfter, KeyOf, EntryOf, Label, DeriveTier;
    forall k ensures k in BeforeStep(before, c) <==> LastBefore(cs + [c], k).Some?
             ensures k in BeforeStep(before, c) ==> LastBefore(cs + [c], k) == Some(BeforeStep(before, c)[k])
             ensures k in AfterStep(after, c) <==> LastAfter(cs + [c], k).Some?
             ensures k in AfterStep(after, c) ==> AfterStep(after, c)[k] == EntryOf(LastAfter(cs + [c], k).value)
    {
      LastSnoc(cs, c, k);
    }
  }

  method Collect(changes: seq<Change>)
    returns (before: map<string, string>, after: map<string, AfterEntry>, order: seq<string>)
    ensures Collected(changes, before, after)
    ensures order == AfterOrder(changes)
  {
    before, after, order := map[], map[], [];
    assert Collected([], before, after);
    for i := 0 to |changes|
      invariant Collected(changes[..i], before, after)
      invariant order == AfterOrder(changes[..i])
    {
      hide LastBefore, LastAfter, AfterOrder, Label, DeriveTier;
      var c := changes[i];
      assert changes[..i + 1] == changes[..i] + [c];
      CollectedStep(changes[..i], c, before, after);
      AfterOrderSnoc(changes[..i], c);
      if !c.Other? {
        var composite := c.slot.contract + "::" + Label(c.slot.key);
        assert composite == KeyOf(c);
        assert composite in after <==> LastAfter(changes[..i], composite).Some?;
        hide Collected, KeyOf;
        if c.Removed? {
          before := before[composite := "(existed)"];
        } else if c.State? {
          before := before[composite := Label(c.value)];
        }
        if !c.State? {
          // a JavaScript Map keeps the position of a key that is set again
          if composite !in after {
            order := order + [composite];
          }
          if c.Removed? {
            after := after[composite := AfterEntry(c.slot.contract, Label(c.slot.key), None, Persistent, true)];
          } else {
            after := after[composite := AfterEntry(c.slot.contract, Label(c.slot.key), Some(Label(c.value)),
                                                   DeriveTier(c.slot), false)];
          }
        }
      }
    }
    assert changes[..|changes|] == changes;
  }

  /** The record that the second loop builds from the two map entries of a key. */
  function Emit(ev: Event, a: AfterEntry, b: Option<string>): Diff {
    Diff(a.contract, ev.ledger, ev.txHash, a.key, a.tier, b, if a.removed then None else a.value,
         if a.removed then RemovedKind else if b.Some? then UpdatedKind else CreatedKind)
  }

  lemma DiffIsEmitted(ev: Event, cs: seq<Change>, before: map<string, string>, after: map<string, AfterEntry>, i: nat)
    requires Collected(cs, before, after)
    requires i < |AfterOrder(cs)|
    ensures AfterOrder(cs)[i] in after && |Diffs(ev, cs)| == |AfterOrder(cs)|
    ensures var k := AfterOrder(cs)[i];
            Diffs(ev, cs)[i] == Emit(ev, after[k], if k in before then Some(before[k]) else None)
  {
    hide LastBefore, LastAfter, KeyOf, DeriveTier, Label;
    AfterOrderMeaning(cs);
    assert AfterOrder(cs)[i] in AfterOrder(cs);
  }

  method ExtractStateDiffs(ev: Event) returns (diffs: seq<Diff>)
    ensures diffs == match ev.changes case None => [] case Some(cs) => Diffs(ev, cs)
  {
    hide Collected, LastBefore, LastAfter, AfterOrder, Diffs;
    diffs := [];
    if ev.changes.Some? {
      var before, after, order := Collect(ev.changes.value);
      for i := 0 to |order|
        invariant diffs == Diffs(ev, ev.changes.value)[..i]
      {
        DiffIsEmitted(ev, ev.changes.value, before, after, i);
        var afterEntry := after[order[i]];
        var existed := order[i] in before;
        var changeType := if afterEntry.removed then RemovedKind else if existed then UpdatedKind else CreatedKind;
        diffs := diffs + [Diff(afterEntry.contract, ev.ledger, ev.txHash, afterEntry.key, afterEntry.tier,
                               if existed then Some(before[order[i]]) else None,
                               if afterEntry.removed then None else afterEntry.value, changeType)];
      }
    }
  }

  /* ----- replaying the stream and replaying the summary ----- */

  /** The storage as the summary shows it. */
  type View = map<Place, string>

  function At<K, V>(m: map<K, V>, k: K): Option<V> {
    if k in m then Some(m[k]) else None
  }

  function Play(view: View, c: Change): View {
    match c
    case State(_, _) => view
    case Created(slot, value) => view[PlaceOf(slot) := Label(value)]
    case Updated(slot, value) => view[PlaceOf(slot) := Label(value)]
    case Removed(slot) => view - {PlaceOf(slot)}
    case Other => view
  }

  function PlayAll(view: View, cs: seq<Change>): View {
    if cs == [] then view else Play(PlayAll(view, Front(cs)), Last(cs))
  }

  function DiffPlace(d: Diff): Place {
    Place(d.contract, d.key)
  }

  function Patch(view: View, d: Diff): View {
    if d.kind.RemovedKind? || d.newValue.None? then view - {DiffPlace(d)} else view[DiffPlace(d) := d.newValue.value]
  }

  function PatchAll(view: View, ds: seq<Diff>): View {
    if ds == [] then view else Patch(PatchAll(view, ds[..|ds| - 1]), ds[|ds| - 1])
  }

  /** Contract addresses are base-32 text: no colon occurs in them. */
  predicate Clean(contract: string) {
    ':' !in contract
  }

  predicate CleanStream(cs: seq<Change>) {
    forall i :: 0 <= i < |cs| ==> cs[i].Other? || Clean(cs[i].slot.contract)
  }

  lemma CompositeInjective(p: Place, q: Place)
    requires Clean(p.contract) && Clean(q.contract)
    requires Composite(p) == Composite(q)
    ensures p == q
  {
    var m, n := |p.contract|, |q.contract|;
    assert Composite(p)[m] == ':' && Composite(q)[n] == ':';
    assert forall i :: 0 <= i < m ==> Composite(p)[i] == p.contract[i] && p.contract[i] in p.contract;
    assert forall i :: 0 <= i < n ==> Composite(q)[i] == q.contract[i] && q.contract[i] in q.contract;
    assert m == n;
    assert Composite(p)[..m] == p.contract && Composite(q)[..n] == q.contract;
    assert Composite(p)[m + 2..] == p.key && Composite(q)[n + 2..] == q.key;
  }

  lemma LastAfterClean(cs: seq<Change>, k: string)
    requires CleanStream(cs) && LastAfter(cs, k).Some?
    ensures Clean(LastAfter(cs, k).value.slot.contract)
  {
    hide KeyOf;
  }

  /** A place holds what the last change that writes or deletes its key left there. */
  lemma {:induction false} PlayAt(view: View, cs: seq<Change>, p: Place)
    requires CleanStream(cs) && Clean(p.contract)
    ensures At(PlayAll(view, cs), p) == match LastAfter(cs, Composite(p))
                                        case None => At(view, p)
                                        case Some(c) => if c.Removed? then None else Some(Label(c.value))
  {
    hide Label, Composite;
    if cs != [] {
      PlayAt(view, Front(cs), p);
      var c := Last(cs);
      if !c.Other? && KeyOf(c) == Composite(p) {
        CompositeInjective(PlaceOf(c.slot), p);
      }
    }
  }

  lemma {:induction false} PatchAt(view: View, ds: seq<Diff>, i: nat)
    requires forall a, b :: 0 <= a < b < |ds| ==> DiffPlace(ds[a]) != DiffPlace(ds[b])
    requires i < |ds|
    ensures At(PatchAll(view, ds), DiffPlace(ds[i]))
         == if ds[i].kind.RemovedKind? || ds[i].newValue.None? then None else Some(ds[i].newValue.value)
  {
    hide DiffPlace;
    if i < |ds| - 1 {
      PatchAt(view, ds[..|ds| - 1], i);
    }
  }

  lemma {:induction false} PatchMisses(view: View, ds: seq<Diff>, p: Place)
    requires forall a :: 0 <= a < |ds| ==> DiffPlace(ds[a]) != p
    ensures At(PatchAll(view, ds), p) == At(view, p)
  {
    hide DiffPlace;
    if ds != [] {
      PatchMisses(view, ds[..|ds| - 1], p);
    }
  }

  /** The diffs of a stream stand for its written keys, one each. */
  lemma DiffPlaces(ev: Event, cs: seq<Change>, i: nat)
    requires CleanStream(cs) && i < |Diffs(ev, cs)|
    ensures Clean(Diffs(ev, cs)[i].contract) && Composite(DiffPlace(Diffs(ev, cs)[i])) == AfterOrder(cs)[i]
    ensures LastAfter(cs, AfterOrder(cs)[i]).Some? && Diffs(ev, cs)[i] == DiffFor(ev, cs, AfterOrder(cs)[i])
  {
    hide LastBefore, LastAfter, AfterOrder, Composite, Label, DeriveTier;
    AfterOrderMeaning(cs);
    assert AfterOrder(cs)[i] in AfterOrder(cs);
    LastAfterClean(cs, AfterOrder(cs)[i]);
  }

  /** The diff is about the key that the change writes or deletes. */
  predicate IsAbout(d: Diff, c: Change) {
    IsAfter(c) && DiffPlace(d) == PlaceOf(c.slot)
  }

  ghost predicate OnePerKey(ds: seq<Diff>, cs: seq<Change>) {
    && (forall i, j :: 0 <= i < j < |ds| ==> DiffPlace(ds[i]) != DiffPlace(ds[j]))
    && (forall c :: c in cs && IsAfter(c) ==> exists d :: d in ds && IsAbout(d, c))
    && (forall d :: d in ds ==> exists c :: c in cs && IsAbout(d, c))
  }

  /** At most one diff for a key, and a diff for a key exactly when some change writes or deletes it. */
  lemma OneDiffPerKey(ev: Event, cs: seq<Change>)
    requires CleanStream(cs)
    ensures OnePerKey(Diffs(ev, cs), cs)
  {
    hide LastBefore, LastAfter, AfterOrder, Composite, Label, Diffs, DiffFor, CleanStream, IsAbout, IsAfter;
    var ds := Diffs(ev, cs);
    forall i, j | 0 <= i < j < |ds| ensures DiffPlace(ds[i]) != DiffPlace(ds[j]) {
      DiffPlaces(ev, cs, i);
      DiffPlaces(ev, cs, j);
      AfterOrderMeaning(cs);
    }
    forall c | c in cs && IsAfter(c) ensures exists d :: d in ds && IsAbout(d, c) {
      WrittenHasDiff(ev, cs, c);
    }
    forall d | d in ds ensures exists c :: c in cs && IsAbout(d, c) {
      var i :| 0 <= i < |ds| && ds[i] == d;
      DiffIsWritten(ev, cs, i);
    }
  }

  lemma DiffIsWritten(ev: Event, cs: seq<Change>, i: nat)
    requires CleanStream(cs) && i < |Diffs(ev, cs)|
    ensures exists c :: c in cs && IsAbout(Diffs(ev, cs)[i], c)
  {
    DiffPlaces(ev, cs, i);
    var k := AfterOrder(cs)[i];
    LastAfterIn(cs, k);
    hide LastBefore, LastAfter, AfterOrder, Composite, Label, Diffs, CleanStream;
    var c := LastAfter(cs, k).value;
    assert c in cs && IsAbout(Diffs(ev, cs)[i], c);
  }

  lemma {:induction false} LastAfterIn(cs: seq<Change>, k: string)
    requires LastAfter(cs, k).Some?
    ensures LastAfter(cs, k).value in cs
  {
    hide KeyOf;
    if LastAfter(cs, k) != Some(Last(cs)) {
      LastAfterIn(Front(cs), k);
    }
  }

  lemma {:induction false} WrittenIsLast(cs: seq<Change>, c: Change)
    requires c in cs && IsAfter(c)
    ensures LastAfter(cs, KeyOf(c)).Some?
  {
    hide KeyOf;
    if c != Last(cs) {
      assert c in Front(cs);
      WrittenIsLast(Front(cs), c);
    }
  }

  lemma WrittenHasDiff(ev: Event, cs: seq<Change>, c: Change)
    requires CleanStream(cs) && c in cs && IsAfter(c)
    ensures exists d :: d in Diffs(ev, cs) && IsAbout(d, c)
  {
    assert Clean(c.slot.contract);
    WrittenIsLast(cs, c);
    hide LastBefore, LastAfter, AfterOrder, Composite, Label, Diffs, DiffFor, CleanStream;
    AfterOrderMeaning(cs);
    var i :| 0 <= i < |AfterOrder(cs)| && AfterOrder(cs)[i] == KeyOf(c);
    DiffPlaces(ev, cs, i);
    CompositeInjective(DiffPlace(Diffs(ev, cs)[i]), PlaceOf(c.slot));
    assert IsAbout(Diffs(ev, cs)[i], c);
  }

  lemma PatchedPlace(ev: Event, view: View, cs: seq<Change>, p: Place)
    requires CleanStream(cs) && Clean(p.contract)
    ensures At(PatchAll(view, Diffs(ev, cs)), p) == At(PlayAll(view, cs), p)
  {
    hide LastBefore, LastAfter, AfterOrder, Composite, Label, Diffs, CleanStream, PatchAll, PlayAll, At, DeriveTier;
    var ds := Diffs(ev, cs);
    AfterOrderMeaning(cs);
    OneDiffPerKey(ev, cs);
    PlayAt(view, cs, p);
    if i :| 0 <= i < |ds| && DiffPlace(ds[i]) == p {
      DiffPlaces(ev, cs, i);
      PatchAt(view, ds, i);
    } else {
      PatchMisses(view, ds, p);
      if LastAfter(cs, Composite(p)).Some? {
        var i :| 0 <= i < |AfterOrder(cs)| && AfterOrder(cs)[i] == Composite(p);
        DiffPlaces(ev, cs, i);
        CompositeInjective(DiffPlace(ds[i]), p);
      }
    }
  }

  predicate CleanView(view: View) {
    forall p :: p in view ==> Clean(p.contract)
  }

  lemma {:induction false} PlayClean(view: View, cs: seq<Change>)
    requires CleanStream(cs) && CleanView(view)
    ensures CleanView(PlayAll(view, cs))
  {
    hide Clean;
    if cs != [] {
      PlayClean(view, Front(cs));
    }
  }

  lemma {:induction false} PatchClean(view: View, ds: seq<Diff>)
    requires CleanView(view)
    requires forall i :: 0 <= i < |ds| ==> Clean(ds[i].contract)
    ensures CleanView(PatchAll(view, ds))
  {
    hide Clean;
    if ds != [] {
      PatchClean(view, ds[..|ds| - 1]);
    }
  }

  /** On what the summary can tell apart, replaying it is replaying the stream. */
  lemma SummaryReplays(ev: Event, view: View, cs: seq<Change>)
    requires CleanStream(cs) && CleanView(view)
    ensures PatchAll(view, Diffs(ev, cs)) == PlayAll(view, cs)
  {
    PlayClean(view, cs);
    forall i | 0 <= i < |Diffs(ev, cs)| ensures Clean(Diffs(ev, cs)[i].contract) {
      DiffPlaces(ev, cs, i);
    }
    PatchClean(view, Diffs(ev, cs));
    hide PatchAll, PlayAll, Diffs, Clean;
    var a, b := PatchAll(view, Diffs(ev, cs)), PlayAll(view, cs);
    forall p ensures p in a <==> p in b
             ensures p in a ==> p in b && a[p] == b[p]
    {
      if Clean(p.contract) {
        PatchedPlace(ev, view, cs, p);
      }
    }
  }

  /* ----- the storage itself ----- */

  type Storage = map<Slot, ScVal>

  function Apply(s: Storage, c: Change): Storage {
    match c
    case State(_, _) => s
    case Created(slot, value) => s[slot := value]
    case Updated(slot, value) => s[slot := value]
    case Removed(slot) => s - {slot}
    case Other => s
  }

  function ApplyAll(s: Storage, cs: seq<Change>): Storage {
    if cs == [] then s else Apply(ApplyAll(s, Front(cs)), Last(cs))
  }

  /** A view shows a storage: the same places, each with the label of its value. */
  ghost predicate Shows(view: View, s: Storage) {
    && (forall slot :: slot in s ==> At(view, PlaceOf(slot)) == Some(Label(s[slot])))
    && (forall p :: p in view ==> exists slot :: slot in s && PlaceOf(slot) == p)
  }

  /** The storage and the stream use only slots of `slots`. */
  ghost predicate Within(slots: iset<Slot>, s: Storage, cs: seq<Change>) {
    && (forall slot :: slot in s ==> slot in slots)
    && (forall i :: 0 <= i < |cs| ==> cs[i].Other? || cs[i].slot in slots)
  }

  /** Over these slots, patching what a storage looks like always gives what the changed storage looks like. */
  ghost predicate SummaryFaithful(slots: iset<Slot>) {
    forall ev: Event, view: View, s: Storage, cs: seq<Change> ::
      Within(slots, s, cs) && Shows(view, s) ==> Shows(PatchAll(view, Diffs(ev, cs)), ApplyAll(s, cs))
  }

  ghost predicate LabelsSeparate(slots: iset<Slot>) {
    forall a, b :: a in slots && b in slots && PlaceOf(a) == PlaceOf(b) ==> a == b
  }

  lemma {:induction false} WithinStays(slots: iset<Slot>, s: Storage, cs: seq<Change>)
    requires Within(slots, s, cs)
    ensures forall slot :: slot in ApplyAll(s, cs) ==> slot in slots
  {
    if cs != [] {
      WithinStays(slots, s, Front(cs));
    }
  }

  lemma ShowsPut(slots: iset<Slot>, view: View, s: Storage, slot: Slot, value: ScVal)
    requires LabelsSeparate(slots) && Shows(view, s) && slot in slots
    requires forall x :: x in s ==> x in slots
    ensures Shows(view[PlaceOf(slot) := Label(value)], s[slot := value])
  {
    hide Label, PlaceOf;
    var v1, s1 := view[PlaceOf(slot) := Label(value)], s[slot := value];
    forall p | p in v1 ensures exists x :: x in s1 && PlaceOf(x) == p {
      if p == PlaceOf(slot) {
        assert slot in s1;
      } else {
        var x :| x in s && PlaceOf(x) == p;
        assert x in s1;
      }
    }
  }

  lemma ShowsRemove(slots: iset<Slot>, view: View, s: Storage, slot: Slot)
    requires LabelsSeparate(slots) && Shows(view, s) && slot in slots
    requires forall x :: x in s ==> x in slots
    ensures Shows(view - {PlaceOf(slot)}, s - {slot})
  {
    hide Label, PlaceOf;
    var v1, s1 := view - {PlaceOf(slot)}, s - {slot};
    forall p | p in v1 ensures exists x :: x in s1 && PlaceOf(x) == p {
      var x :| x in s && PlaceOf(x) == p;
      assert x in s1;
    }
  }

  lemma ShowsStep(slots: iset<Slot>, view: View, s: Storage, c: Change)
    requires LabelsSeparate(slots) && Shows(view, s)
    requires forall slot :: slot in s ==> slot in slots
    requires c.Other? || c.slot in slots
    ensures Shows(Play(view, c), Apply(s, c))
  {
    hide Label, PlaceOf, Shows, LabelsSeparate;
    match c
    case Created(slot, value) => ShowsPut(slots, view, s, slot, value);
    case Updated(slot, value) => ShowsPut(slots, view, s, slot, value);
    case Removed(slot) => ShowsRemove(slots, view, s, slot);
    case _ =>
  }

  lemma {:induction false} PlayShows(slots: iset<Slot>, view: View, s: Storage, cs: seq<Change>)
    requires LabelsSeparate(slots) && Within(slots, s, cs) && Shows(view, s)
    ensures Shows(PlayAll(view, cs), ApplyAll(s, cs))
  {
    hide Shows, LabelsSeparate, Play, Apply;
    if cs != [] {
      PlayShows(slots, view, s, Front(cs));
      WithinStays(slots, s, Front(cs));
      ShowsStep(slots, PlayAll(view, Front(cs)), ApplyAll(s, Front(cs)), Last(cs));
    }
  }

  lemma ShownIsClean(slots: iset<Slot>, view: View, s: Storage, cs: seq<Change>)
    requires forall slot :: slot in slots ==> Clean(slot.contract)
    requires Within(slots, s, cs) && Shows(view, s)
    ensures CleanView(view) && CleanStream(cs)
  {
    hide Label, Clean;
    forall p | p in view ensures Clean(p.contract) {
      var slot :| slot in s && PlaceOf(slot) == p;
    }
  }

  /** Two slots under one place: creating the first and removing the second loses the first. */
  lemma CollisionLosesSlot(ev: Event, a: Slot, b: Slot, v: ScVal)
    requires a != b && PlaceOf(a) == PlaceOf(b) && Clean(a.contract)
    ensures var s, view, cs := map[b := v], map[PlaceOf(b) := Label(v)], [Created(a, v), Removed(b)];
            Shows(view, s) && !Shows(PatchAll(view, Diffs(ev, cs)), ApplyAll(s, cs))
  {
    var s, view := map[b := v], map[PlaceOf(b) := Label(v)];
    var c, r := Created(a, v), Removed(b);
    var cs := [c, r];
    assert CleanView(view) && CleanStream(cs);
    SummaryReplays(ev, view, cs);
    hide PatchAll, Diffs, Label, Clean;
    assert Front(cs) == [c] && Last(cs) == r && Front([c]) == [] && Last([c]) == c;
    assert PlayAll(view, [c]) == Play(PlayAll(view, []), c);
    assert PlaceOf(a) !in PlayAll(view, cs);
    assert ApplyAll(s, [c]) == Apply(ApplyAll(s, []), c);
    assert a in ApplyAll(s, cs);
  }

  /** The summary is faithful over a set of slots exactly when no two of them share a contract and a key label. */
  lemma FaithfulIffLabelsSeparate(slots: iset<Slot>)
    requires forall slot :: slot in slots ==> Clean(slot.contract)
    ensures SummaryFaithful(slots) <==> LabelsSeparate(slots)
  {
    hide Shows, PatchAll, PlayAll, ApplyAll, Diffs, Clean, PlaceOf, Label, CleanView, CleanStream;
    if LabelsSeparate(slots) {
      forall ev: Event, view: View, s: Storage, cs: seq<Change> | Within(slots, s, cs) && Shows(view, s)
        ensures Shows(PatchAll(view, Diffs(ev, cs)), ApplyAll(s, cs))
      {
        ShownIsClean(slots, view, s, cs);
        SummaryReplays(ev, view, cs);
        PlayShows(slots, view, s, cs);
      }
    } else {
      var a, b :| a in slots && b in slots && PlaceOf(a) == PlaceOf(b) && a != b;
      var ev, v := Event(0, None, None), ScVal("scvVoid", Json("null"), []);
      CollisionLosesSlot(ev, a, b, v);
      assert Within(slots, map[b := v], [Created(a, v), Removed(b)]);
    }
  }

  lemma TextInjective(m: int, n: int)
    ensures Decimal.Text(m) == Decimal.Text(n) <==> m == n
  {
    if Decimal.Text(m) == Decimal.Text(n) {
      var a, b := if m < 0 then -m else m, if n < 0 then -n else n;
      assert Decimal.IsDigit(Decimal.Dec(a)[0]) && Decimal.IsDigit(Decimal.Dec(b)[0]) && !Decimal.IsDigit('-');
      hide Decimal.Dec, Decimal.IsDigit;
      assert Decimal.Text(m)[0] == '-' <==> m < 0;
      assert Decimal.Text(n)[0] == '-' <==> n < 0;
      assert m < 0 ==> Decimal.Text(m)[1..] == Decimal.Dec(a) && Decimal.Text(n)[1..] == Decimal.Dec(b);
      Decimal.DecInjective(a, b);
    }
  }

  /**
   Exactly which keys the summary confuses: bigints of equal value, values of equal JSON text, unprintable values of one
   type, and a value whose text happens to be another's.  Neither the type of a printable key nor the durability
   matters.
   */
  lemma PlacesCollideIff(a: Slot, b: Slot)
    ensures PlaceOf(a) == PlaceOf(b) <==>
              a.contract == b.contract &&
              match (a.key.native, b.key.native)
              case (Big(m), Big(n)) => m == n
              case (Json(s), Json(t)) => s == t
              case (Unprintable, Unprintable) => a.key.scType == b.key.scType
              case (_, _) => Label(a.key) == Label(b.key)
  {
    if a.key.native.Big? && b.key.native.Big? {
      TextInjective(a.key.native.n, b.key.native.n);
    }
  }

  /**
   Ledger entries that collide: a temporary and a persistent entry under one key, a symbol and a string of equal text, a
   64-bit and a 128-bit integer of equal value, a bigint and an equal number, and any two keys of one type with a bigint
   inside.
   */
  lemma LabelsCollide(contract: string, key: ScVal, text: string, n: int, scType: string, x: seq<int>, y: seq<int>)
    requires x != y
    ensures var a, b := Slot(contract, key, false), Slot(contract, key, true);
            a != b && PlaceOf(a) == PlaceOf(b)
    ensures var a := Slot(contract, ScVal("scvSymbol", Json(text), x), false);
            var b := Slot(contract, ScVal("scvString", Json(text), y), false);
            a != b && PlaceOf(a) == PlaceOf(b)
    ensures var a := Slot(contract, ScVal("scvU64", Big(n), x), false);
            var b := Slot(contract, ScVal("scvI128", Big(n), y), false);
            var c := Slot(contract, ScVal("scvU32", Json(Decimal.Text(n)), y), false);
            a != b && PlaceOf(a) == PlaceOf(b) && a != c && PlaceOf(a) == PlaceOf(c)
    ensures var a := Slot(contract, ScVal(scType, Unprintable, x), false);
            var b := Slot(contract, ScVal(scType, Unprintable, y), false);
            a != b && PlaceOf(a) == PlaceOf(b)
  {
    hide Decimal.Text;
    assert ScVal(scType, Unprintable, x).xdr == x && ScVal(scType, Unprintable, y).xdr == y;
  }

  /* ----- what the kinds and old values mean on a faithful stream ----- */

  function LastTouch(cs: seq<Change>, p: Place): Option<Change> {
    if cs == [] then None
    else if !Last(cs).Other? && PlaceOf(Last(cs).slot) == p then Some(Last(cs))
    else LastTouch(Front(cs), p)
  }

  function Touches(cs: seq<Change>, p: Place): nat {
    if cs == [] then 0
    else Touches(Front(cs), p) + if !Last(cs).Other? && PlaceOf(Last(cs).slot) == p then 1 else 0
  }

  function Writes(cs: seq<Change>, p: Place): nat {
    if cs == [] then 0
    else Writes(Front(cs), p) + if IsAfter(Last(cs)) && PlaceOf(Last(cs).slot) == p then 1 else 0
  }

  /** What a ledger records: pre-images are true, only absent entries are created, a pre-image precedes each change. */
  predicate Faithful(view: View, cs: seq<Change>) {
    cs == [] ||
    var now, c := PlayAll(view, Front(cs)), Last(cs);
    Faithful(view, Front(cs)) &&
    match c
    case State(slot, value) => At(now, PlaceOf(slot)) == Some(Label(value))
    case Created(slot, _) => At(now, PlaceOf(slot)).None?
    case Updated(slot, _) =>
      LastTouch(Front(cs), PlaceOf(slot)).Some? && LastTouch(Front(cs), PlaceOf(slot)).value.State?
    case Removed(slot) => LastTouch(Front(cs), PlaceOf(slot)).Some? && LastTouch(Front(cs), PlaceOf(slot)).value.State?
    case Other => true
  }

  function Net(before: Option<string>, after: Option<string>): Option<Kind> {
    if after.Some? then Some(if before.Some? then UpdatedKind else CreatedKind)
    else if before.Some? then Some(RemovedKind) else None
  }

  /** How far the maps know the history of one place. */
  lemma {:induction false} FaithfulPlace(view: View, cs: seq<Change>, p: Place)
    requires CleanStream(cs) && Clean(p.contract) && Faithful(view, cs)
    ensures LastTouch(cs, p).Some? <==> Touches(cs, p) > 0
    ensures Touches(cs, p) == 0 ==> LastBefore(cs, Composite(p)).None? && LastAfter(cs, Composite(p)).None?
    ensures p in view && Touches(cs, p) > 0 ==> LastBefore(cs, Composite(p)).Some?
    ensures p !in view && Touches(cs, p) == 1 ==>
              LastBefore(cs, Composite(p)).None? && LastTouch(cs, p).value.Created? &&
              LastAfter(cs, Composite(p)) == LastTouch(cs, p)
    ensures p !in view && Touches(cs, p) > 1 ==> LastBefore(cs, Composite(p)).Some?
  {
    hide Composite, Label, DeriveTier, PlayAll, Clean;
    if cs != [] {
      FaithfulPlace(view, Front(cs), p);
      var c := Last(cs);
      PlayAt(view, Front(cs), p);
      if !c.Other? && KeyOf(c) == Composite(p) {
        CompositeInjective(PlaceOf(c.slot), p);
      }
    }
  }

  /**
   The reported kind is the net effect of the stream exactly when the entry existed before or was
   touched once: an entry created and changed again within one event is reported as updated, and
   one created and deleted again as removed.
   */
  lemma KindIsNetIff(ev: Event, view: View, cs: seq<Change>, p: Place)
    requires CleanStream(cs) && Clean(p.contract) && Faithful(view, cs)
    requires LastAfter(cs, Composite(p)).Some?
    ensures Some(DiffFor(ev, cs, Composite(p)).kind) == Net(At(view, p), At(PlayAll(view, cs), p))
       <==> p in view || Touches(cs, p) == 1
  {
    FaithfulPlace(view, cs, p);
    PlayAt(view, cs, p);
    hide Composite, Label, DeriveTier, PlayAll, Clean, LastBefore, LastAfter, LastTouch, Touches, Faithful;
  }

  lemma {:induction false} OneWrite(view: View, cs: seq<Change>, p: Place)
    requires CleanStream(cs) && Clean(p.contract) && Faithful(view, cs) && p in view
    ensures Writes(cs, p) == 0 ==>
              LastAfter(cs, Composite(p)).None? &&
              LastBefore(cs, Composite(p)) == if LastTouch(cs, p).None? then None else Some(view[p])
    ensures Writes(cs, p) > 0 ==> LastAfter(cs, Composite(p)).Some?
    ensures Writes(cs, p) > 0 ==> LastTouch(cs, p).Some?
    ensures Writes(cs, p) == 1 && !LastTouch(cs, p).value.State? ==>
              LastBefore(cs, Composite(p))
              == Some(if LastAfter(cs, Composite(p)).value.Removed? then EXISTED else view[p])
  {
    hide Composite, Label, DeriveTier, PlayAll, Clean;
    if cs != [] {
      OneWrite(view, Front(cs), p);
      var c := Last(cs);
      PlayAt(view, Front(cs), p);
      if !c.Other? && KeyOf(c) == Composite(p) {
        CompositeInjective(PlaceOf(c.slot), p);
      }
    }
  }

  /** An entry written once shows its starting value as the old one, or only "(existed)" when it was removed. */
  lemma OldValueIsStart(ev: Event, view: View, cs: seq<Change>, p: Place)
    requires CleanStream(cs) && Clean(p.contract) && Faithful(view, cs) && p in view
    requires Writes(cs, p) == 1 && LastTouch(cs, p).Some? && !LastTouch(cs, p).value.State?
    ensures LastAfter(cs, Composite(p)).Some?
    ensures var d := DiffFor(ev, cs, Composite(p));
            d.oldValue == Some(if d.kind.RemovedKind? then "(existed)" else view[p])
  {
    hide Composite, Label, DeriveTier, PlayAll, Clean, LastBefore, LastAfter, LastTouch, Writes, Faithful;
    OneWrite(view, cs, p);
  }

  /** The changes before the last write or deletion of a place. */
  function BeforeLastWrite(cs: seq<Change>, p: Place): seq<Change> {
    if cs == [] then []
    else if IsAfter(Last(cs)) && PlaceOf(Last(cs).slot) == p then Front(cs)
    else BeforeLastWrite(Front(cs), p)
  }

  /** What a place was last touched by tells whether it is there, and what the map of old values holds. */
  lemma {:induction false} LastTouchTells(view: View, cs: seq<Change>, p: Place)
    requires CleanStream(cs) && Clean(p.contract) && Faithful(view, cs)
    ensures LastTouch(cs, p).None? ==> At(PlayAll(view, cs), p) == At(view, p)
    ensures LastTouch(cs, p).Some? ==>
              match LastTouch(cs, p).value
              case State(_, _) =>
                At(PlayAll(view, cs), p).Some? && LastBefore(cs, Composite(p)) == At(PlayAll(view, cs), p)
              case Removed(_) => At(PlayAll(view, cs), p).None? && LastBefore(cs, Composite(p)) == Some(EXISTED)
              case _ => At(PlayAll(view, cs), p).Some?
  {
    hide Composite, Label, DeriveTier, PlayAll, Clean;
    PlayAt(view, cs, p);
    if cs != [] {
      LastTouchTells(view, Front(cs), p);
      var c := Last(cs);
      PlayAt(view, Front(cs), p);
      FaithfulPlace(view, cs, p);
      if !c.Other? && KeyOf(c) == Composite(p) {
        CompositeInjective(PlaceOf(c.slot), p);
      }
    }
  }

  /** The old value of a written entry, for every faithful stream. */
  function OldValue(view: View, cs: seq<Change>, p: Place): Option<string>
    requires LastTouch(cs, p).Some? && LastAfter(cs, Composite(p)).Some?
  {
    if LastTouch(cs, p).value.State? then At(PlayAll(view, cs), p)
    else match LastAfter(cs, Composite(p)).value
      case Updated(_, _) => At(PlayAll(view, BeforeLastWrite(cs, p)), p)
      case Created(_, _) => if p !in view && Touches(cs, p) == 1 then None else Some(EXISTED)
      case _ => Some(EXISTED)
  }

  lemma {:induction false} OldValueIs(view: View, cs: seq<Change>, p: Place)
    requires CleanStream(cs) && Clean(p.contract) && Faithful(view, cs) && LastAfter(cs, Composite(p)).Some?
    ensures LastTouch(cs, p).Some? && LastBefore(cs, Composite(p)) == OldValue(view, cs, p)
  {
    hide Composite, Label, DeriveTier, PlayAll, Clean;
    var c := Last(cs);
    LastTouchTells(view, cs, p);
    LastTouchTells(view, Front(cs), p);
    FaithfulPlace(view, Front(cs), p);
    PlayAt(view, Front(cs), p);
    if !c.Other? && KeyOf(c) == Composite(p) {
      CompositeInjective(PlaceOf(c.slot), p);
    } else {
      OldValueIs(view, Front(cs), p);
    }
  }

  /**
   When the old value is the one the entry had at the start: if the entry was read again after its last write, when that
   write left the starting value; else for an update, when the value before it was the starting one; for a deletion,
   or a creation of an entry deleted before, only if that value is the text "(existed)"; and for a first creation
   always.
   */
  lemma OldValueIsStartIff(ev: Event, view: View, cs: seq<Change>, p: Place)
    requires CleanStream(cs) && Clean(p.contract) && Faithful(view, cs) && LastAfter(cs, Composite(p)).Some?
    ensures LastTouch(cs, p).Some?
    ensures var d, w := DiffFor(ev, cs, Composite(p)), LastAfter(cs, Composite(p)).value;
            d.oldValue == At(view, p) <==>
              if LastTouch(cs, p).value.State? then d.newValue == At(view, p)
              else if w.Updated? then At(PlayAll(view, BeforeLastWrite(cs, p)), p) == At(view, p)
              else if p in view then view[p] == "(existed)"
              else Touches(cs, p) == 1
  {
    OldValueIs(view, cs, p);
    LastTouchTells(view, cs, p);
    FaithfulPlace(view, cs, p);
    PlayAt(view, cs, p);
    hide Composite, Label, DeriveTier, PlayAll, Clean, LastBefore, LastAfter, LastTouch, Touches, Faithful;
  }

  /* ----- the other columns ----- */

  /** Every diff carries the event's ledger and transaction. */
  lemma DiffsCarryEvent(ev: Event, cs: seq<Change>, d: Diff)
    requires d in Diffs(ev, cs)
    ensures d.ledger == ev.ledger && d.txHash == ev.txHash
  {
    AfterOrderMeaning(cs);
    hide LastAfter, LastBefore, AfterOrder;
    var i :| 0 <= i < |Diffs(ev, cs)| && Diffs(ev, cs)[i] == d;
    assert AfterOrder(cs)[i] in AfterOrder(cs);
    assert d == DiffFor(ev, cs, AfterOrder(cs)[i]);
  }

  /**
   The tier of a key's last write is told by its durability and, for a lasting entry, by whether its key is that of the
   contract instance; a deletion is always told as persistent, which is the entry's own tier only if that was.
   */
  lemma TierIsTrueIff(ev: Event, cs: seq<Change>, k: string)
    requires LastAfter(cs, k).Some?
    ensures var d, w := DiffFor(ev, cs, k), LastAfter(cs, k).value;
            var instance := w.slot.key.scType == "scvLedgerKeyContractInstance";
            && (w.Removed? ==> d.tier == Persistent)
            && (!w.Removed? ==> (d.tier == Temporary <==> w.slot.temporary)
                                && (d.tier == Instance <==> !w.slot.temporary && instance))
            && (d.tier == DeriveTier(w.slot) <==> !w.Removed? || (!w.slot.temporary && !instance))
  {
    hide LastAfter, LastBefore;
  }
}
