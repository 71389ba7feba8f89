/**
 Token balances: `applyMint`, `applyTransfer` and `applyBurn` of indexer/src/db.js.  `token_holders` has one row
 for a contract and an address; all three statements insert `amount` itself when that row is missing.
 */
module TokenLedger {

  /** A balance that is null or empty counts as 0. */
  datatype Balance = Blank | Amount(n: int)

  datatype Row = Row(contract: string, address: string, balance: Balance)

  datatype Op =
    | Mint(contract: string, to: string, amount: int)
    | Transfer(contract: string, from: string, to: string, amount: int)
    | Burn(contract: string, from: string, amount: int)

  function Value(b: Balance): int {
    match b
    case Blank => 0
    case Amount(n) => n
  }

  /** The position of the row of a holder, or the number of rows. */
  function Find(rows: seq<Row>, contract: string, address: string): (i: nat)
    ensures i <= |rows|
    ensures i < |rows| ==> rows[i].contract == contract && rows[i].address == address
  {
    if rows == [] || (rows[0].contract == contract && rows[0].address == address) then 0
    else 1 + Find(rows[1..], contract, address)
  }

  predicate Known(rows: seq<Row>, contract: string, address: string) {
    Find(rows, contract, address) < |rows|
  }

  /** `INSERT .. (.., amount) ON CONFLICT DO UPDATE SET balance_raw = balance_raw + change` */
  function Upsert(rows: seq<Row>, contract: string, address: string, amount: int, change: int): seq<Row> {
    var i := Find(rows, contract, address);
    if i < |rows| then rows[i := rows[i].(balance := Amount(Value(rows[i].balance) + change))]
    else rows + [Row(contract, address, Amount(amount))]
  }

  function Apply(rows: seq<Row>, op: Op): seq<Row> {
    match op
    case Mint(c, to, n) => Upsert(rows, c, to, n, n)
    case Transfer(c, from, to, n) => Upsert(Upsert(rows, c, from, n, -n), c, to, n, n)
    case Burn(c, from, n) => Upsert(rows, c, from, n, -n)
  }

  function ApplyAll(rows: seq<Row>, ops: seq<Op>): seq<Row>
    decreases |ops|
  {
    if ops == [] then rows else ApplyAll(Apply(rows, ops[0]), ops[1..])
  }

  class TokenHolders {
    var rows: seq<Row>

    constructor ()
      ensures rows == []
    {
      rows := [];
    }

    /** One `INSERT .. ON CONFLICT`. */
    method Change(contract: string, address: string, amount: int, change: int)
      modifies this
      ensures rows == Upsert(old(rows), contract, address, amount, change)
    {
      var i := 0;
      while i < |rows| && !(rows[i].contract == contract && rows[i].address == address)
        invariant i <= |rows|
        invariant Find(rows, contract, address) == i + Find(rows[i..], contract, address)
      {
        assert rows[i..][1..] == rows[i + 1..];
        i := i + 1;
      }
      if i < |rows| {
        rows := rows[i := rows[i].(balance := Amount(Value(rows[i].balance) + change))];
      } else {
        rows := rows + [Row(contract, address, Amount(amount))];
      }
    }

    method ApplyMint(contract: string, to: string, amount: int)
      modifies this
      ensures rows == Apply(old(rows), Mint(contract, to, amount))
    {
      Change(contract, to, amount, amount);
    }

    /** When the second statement fails, `committed` is false and the transaction is rolled back. */
    method ApplyTransfer(contract: string, from: string, to: string, amount: int, committed: bool)
      modifies this
      ensures rows == if committed then Apply(old(rows), Transfer(contract, from, to, amount)) else old(rows)
    {
      var before := rows;
      Change(contract, from, amount, -amount);
      if committed {
        Change(contract, to, amount, amount);
      } else {
        rows := before;
      }
    }

    method ApplyBurn(contract: string, from: string, amount: int)
      modifies this
      ensures rows == Apply(old(rows), Burn(contract, from, amount))
    {
      Change(contract, from, amount, -amount);
    }
  }

  /* ----- conservation ----- */

  function Total(rows: seq<Row>, contract: string): int {
    if rows == [] then 0
    else (if rows[0].contract == contract then Value(rows[0].balance) else 0) + Total(rows[1..], contract)
  }

  function BalanceOf(rows: seq<Row>, contract: string, address: string): int {
    var i := Find(rows, contract, address);
    if i < |rows| then Value(rows[i].balance) else 0
  }

  predicate IsHolder(r: Row, contract: string, address: string) {
    r.contract == contract && r.address == address
  }

  lemma UpsertUnfold(rows: seq<Row>, c: string, address: string, amount: int, change: int)
    ensures Upsert([], c, address, amount, change) == [Row(c, address, Amount(amount))]
    ensures rows != [] ==>
              Upsert(rows, c, address, amount, change) ==
              if IsHolder(rows[0], c, address)
              then [rows[0].(balance := Amount(Value(rows[0].balance) + change))] + rows[1..]
              else [rows[0]] + Upsert(rows[1..], c, address, amount, change)
    ensures rows != [] ==> (Known(rows, c, address) <==> IsHolder(rows[0], c, address) || Known(rows[1..], c, address))
  {
  }

  lemma ConsUnfold(r: Row, rest: seq<Row>, contract: string, holder: string)
    ensures Total([r] + rest, contract)
         == (if r.contract == contract then Value(r.balance) else 0) + Total(rest, contract)
    ensures Total([], contract) == 0
    ensures BalanceOf([r] + rest, contract, holder)
         == if IsHolder(r, contract, holder) then Value(r.balance) else BalanceOf(rest, contract, holder)
    ensures Known([r] + rest, contract, holder) <==> IsHolder(r, contract, holder) || Known(rest, contract, holder)
    ensures BalanceOf([], contract, holder) == 0 && !Known([], contract, holder)
  {
    assert ([r] + rest)[1..] == rest;
  }

  /** What one upsert does to the total of a contract and to the balance of a holder. */
  lemma {:induction false} UpsertMeaning(rows: seq<Row>, c: string, address: string, amount: int, change: int,
                                         contract: string, holder: string)
    ensures Total(Upsert(rows, c, address, amount, change), contract)
         == Total(rows, contract) + if c != contract then 0 else if Known(rows, c, address) then change else amount
    ensures BalanceOf(Upsert(rows, c, address, amount, change), contract, holder)
         == BalanceOf(rows, contract, holder)
            + if c != contract || address != holder then 0 else if Known(rows, c, address) then change else amount
    ensures Known(Upsert(rows, c, address, amount, change), contract, holder)
       <==> Known(rows, contract, holder) || (c == contract && address == holder)
  {
    hide Total, BalanceOf, Known, Upsert, Find;
    UpsertUnfold(rows, c, address, amount, change);
    if rows == [] {
      var r := Row(c, address, Amount(amount));
      ConsUnfold(r, [], contract, holder);
      ConsUnfold(r, [], c, address);
      assert [r] + [] == [r];
    } else {
      var r, rest := rows[0], rows[1..];
      assert rows == [r] + rest;
      ConsUnfold(r, rest, contract, holder);
      ConsUnfold(r.(balance := Amount(Value(r.balance) + change)), rest, contract, holder);
      ConsUnfold(r, Upsert(rest, c, address, amount, change), contract, holder);
      if !IsHolder(r, c, address) {
        UpsertMeaning(rest, c, address, amount, change, contract, holder);
      }
    }
  }

  /** What an operation adds to the supply of a contract. */
  function Supply(op: Op, contract: string): int {
    match op
    case Mint(c, _, n) => if c == contract then n else 0
    case Transfer(_, _, _, _) => 0
    case Burn(c, _, n) => if c == contract then -n else 0
  }

  function SupplyAll(ops: seq<Op>, contract: string): int {
    if ops == [] then 0 else Supply(ops[0], contract) + SupplyAll(ops[1..], contract)
  }

  /** The amount debited from a holder without a row, which the insert stores as a credit. */
  function Phantom(rows: seq<Row>, op: Op, contract: string): int {
    match op
    case Mint(_, _, _) => 0
    case Transfer(c, from, _, n) => if c == contract && !Known(rows, c, from) then n else 0
    case Burn(c, from, n) => if c == contract && !Known(rows, c, from) then n else 0
  }

  function PhantomAll(rows: seq<Row>, ops: seq<Op>, contract: string): int
    decreases |ops|
  {
    if ops == [] then 0 else Phantom(rows, ops[0], contract) + PhantomAll(Apply(rows, ops[0]), ops[1..], contract)
  }

  lemma StepTotal(rows: seq<Row>, op: Op, contract: string)
    ensures Total(Apply(rows, op), contract)
         == Total(rows, contract) + Supply(op, contract) + 2 * Phantom(rows, op, contract)
  {
    hide Total, BalanceOf, Find, Upsert, Known;
    match op
    case Mint(c, to, n) =>
      UpsertMeaning(rows, c, to, n, n, contract, "");
    case Transfer(c, from, to, n) =>
      UpsertMeaning(rows, c, from, n, -n, contract, "");
      UpsertMeaning(Upsert(rows, c, from, n, -n), c, to, n, n, contract, "");
    case Burn(c, from, n) =>
      UpsertMeaning(rows, c, from, n, -n, contract, "");
  }

  /**
   Over every run, the balances of a contract add up to what was minted less what was burned, plus twice what was
   debited from holders that had no row.
   */
  lemma {:induction false} Conservation(rows: seq<Row>, ops: seq<Op>, contract: string)
    ensures Total(ApplyAll(rows, ops), contract)
         == Total(rows, contract) + SupplyAll(ops, contract) + 2 * PhantomAll(rows, ops, contract)
    decreases |ops|
  {
    if ops != [] {
      StepTotal(rows, ops[0], contract);
      hide Total, Apply, Supply, Phantom;
      Conservation(Apply(rows, ops[0]), ops[1..], contract);
    }
  }

  predicate NoNegative(ops: seq<Op>) {
    forall i :: 0 <= i < |ops| ==> ops[i].amount >= 0
  }

  /** Every positive debit of the contract finds the row of its holder. */
  predicate DebitsKnown(rows: seq<Row>, ops: seq<Op>, contract: string)
    decreases |ops|
  {
    ops != [] ==>
      && (!ops[0].Mint? && ops[0].contract == contract && ops[0].amount > 0 ==> Known(rows, contract, ops[0].from))
      && DebitsKnown(Apply(rows, ops[0]), ops[1..], contract)
  }

  lemma {:induction false} PhantomSign(rows: seq<Row>, ops: seq<Op>, contract: string)
    requires NoNegative(ops)
    ensures PhantomAll(rows, ops, contract) >= 0
    ensures PhantomAll(rows, ops, contract) == 0 <==> DebitsKnown(rows, ops, contract)
    decreases |ops|
  {
    hide Apply, Known;
    if ops != [] {
      assert ops[0].amount >= 0;
      PhantomSign(Apply(rows, ops[0]), ops[1..], contract);
    }
  }

  /** With non-negative amounts, tokens are conserved exactly when every debited holder already has a row. */
  lemma ConservedIffDebitsKnown(rows: seq<Row>, ops: seq<Op>, contract: string)
    requires NoNegative(ops)
    ensures Total(ApplyAll(rows, ops), contract) == Total(rows, contract) + SupplyAll(ops, contract)
       <==> DebitsKnown(rows, ops, contract)
  {
    Conservation(rows, ops, contract);
    PhantomSign(rows, ops, contract);
    hide Total, ApplyAll, SupplyAll, PhantomAll, DebitsKnown;
  }

  /* ----- single holders ----- */

  /** Credits less debits of one holder. */
  function Flow(op: Op, contract: string, holder: string): int {
    match op
    case Mint(c, to, n) => if c == contract && to == holder then n else 0
    case Transfer(c, from, to, n) =>
      (if c == contract && to == holder then n else 0) - (if c == contract && from == holder then n else 0)
    case Burn(c, from, n) => if c == contract && from == holder then -n else 0
  }

  function FlowAll(ops: seq<Op>, contract: string, holder: string): int {
    if ops == [] then 0 else Flow(ops[0], contract, holder) + FlowAll(ops[1..], contract, holder)
  }

  predicate Debits(op: Op, contract: string, holder: string) {
    !op.Mint? && op.contract == contract && op.from == holder
  }

  predicate Concerns(op: Op, contract: string, holder: string) {
    op.contract == contract && (Debits(op, contract, holder) || (!op.Burn? && op.to == holder))
  }

  lemma StepBalance(rows: seq<Row>, op: Op, contract: string, holder: string)
    ensures BalanceOf(Apply(rows, op), contract, holder)
         == BalanceOf(rows, contract, holder) + Flow(op, contract, holder)
            + if Debits(op, contract, holder) && !Known(rows, contract, holder) then 2 * op.amount else 0
    ensures Known(Apply(rows, op), contract, holder)
       <==> Known(rows, contract, holder) || Concerns(op, contract, holder)
  {
    hide Total, BalanceOf, Find, Upsert, Known;
    match op
    case Mint(c, to, n) =>
      UpsertMeaning(rows, c, to, n, n, contract, holder);
    case Transfer(c, from, to, n) =>
      UpsertMeaning(rows, c, from, n, -n, contract, holder);
      UpsertMeaning(Upsert(rows, c, from, n, -n), c, to, n, n, contract, holder);
    case Burn(c, from, n) =>
      UpsertMeaning(rows, c, from, n, -n, contract, holder);
  }

  /** The first operation that concerns a holder, if it is a debit. */
  function FirstDebit(ops: seq<Op>, contract: string, holder: string): int {
    if ops == [] then 0
    else if Concerns(ops[0], contract, holder) then if Debits(ops[0], contract, holder) then ops[0].amount else 0
    else FirstDebit(ops[1..], contract, holder)
  }

  /**
   The balance of a holder is its credits less its debits, except that a holder first seen in a debit keeps twice
   that amount too much.
   */
  lemma {:induction false} HolderBalance(rows: seq<Row>, ops: seq<Op>, contract: string, holder: string)
    ensures BalanceOf(ApplyAll(rows, ops), contract, holder)
         == BalanceOf(rows, contract, holder) + FlowAll(ops, contract, holder)
            + if Known(rows, contract, holder) then 0 else 2 * FirstDebit(ops, contract, holder)
    decreases |ops|
  {
    if ops != [] {
      StepBalance(rows, ops[0], contract, holder);
      hide BalanceOf, Known, Apply, Flow;
      HolderBalance(Apply(rows, ops[0]), ops[1..], contract, holder);
    }
  }
}
