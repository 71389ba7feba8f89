/** Contract events and the events table that the indexing loops share. */
module Ledger {

  datatype Event = Event(ledger: nat, id: string)

  /** Soroban's cap on events per page. */
  const PAGE_LIMIT: nat := 200

  /**
   `INSERT .. ON CONFLICT DO NOTHING`.  A conflict needs a unique key: indexer/migrations/002_core_schema.sql declares
   none on `events` besides the generated `seq`, so both cases are modelled.
   */
  function Insert(unique: bool, table: multiset<Event>, e: Event): multiset<Event> {
    if unique && e in table then table else table + multiset{e}
  }

  function InsertAll(unique: bool, table: multiset<Event>, es: seq<Event>): multiset<Event>
    decreases |es|
  {
    if es == [] then table
    else Insert(unique, InsertAll(unique, table, es[..|es| - 1]), es[|es| - 1])
  }

  /** Under a unique key a batch leaves each of its events once, without one it adds a row for every event. */
  lemma {:induction false} InsertAllMeaning(unique: bool, table: multiset<Event>, es: seq<Event>)
    ensures !unique ==> InsertAll(unique, table, es) == table + multiset(es)
    ensures unique ==> forall e :: InsertAll(unique, table, es)[e] ==
                                   if table[e] == 0 && e in es then 1 else table[e]
  {
    if es == [] {
      assert multiset(es) == multiset{};
    } else {
      var es' := es[..|es| - 1];
      InsertAllMeaning(unique, table, es');
      assert es == es' + [es[|es| - 1]];
    }
  }

  lemma InsertAllSnoc(unique: bool, table: multiset<Event>, es: seq<Event>, e: Event)
    ensures InsertAll(unique, table, es + [e]) == Insert(unique, InsertAll(unique, table, es), e)
  {
    assert (es + [e])[..|es|] == es;
  }

  lemma {:induction false} InsertAllConcat(unique: bool, table: multiset<Event>, a: seq<Event>, b: seq<Event>)
    ensures InsertAll(unique, table, a + b) == InsertAll(unique, InsertAll(unique, table, a), b)
  {
    if b == [] {
      assert a + b == a;
    } else {
      var b' := b[..|b| - 1];
      InsertAllConcat(unique, table, a, b');
      assert (a + b)[..|a + b| - 1] == a + b';
    }
  }

  ghost predicate Sorted(net: seq<Event>) {
    forall i, j :: 0 <= i <= j < |net| ==> net[i].ledger <= net[j].ledger
  }

  /** The position of the first event at or above a ledger. */
  function From(net: seq<Event>, ledger: int): (k: nat)
    ensures k <= |net|
    ensures forall i :: 0 <= i < k ==> net[i].ledger < ledger
    ensures k < |net| ==> net[k].ledger >= ledger
  {
    if net == [] || net[0].ledger >= ledger then 0 else 1 + From(net[1..], ledger)
  }

  lemma FromSorted(net: seq<Event>, ledger: int)
    requires Sorted(net)
    ensures forall i :: 0 <= i < |net| ==> (net[i].ledger < ledger <==> i < From(net, ledger))
  {
  }
}
