/**
 * One entry of an account's history. The Java record has mutable fields with
 * setters; since the ledger only ever constructs entries, a transaction is a
 * value here and each setter returns the updated value.
 */
module Transactions {

  /** A reading of the system clock (`LocalDateTime.now()`), supplied by the caller. */
  type DateTime = int

  const DEPOSIT: string := "DEPOSIT"
  const WITHDRAW: string := "WITHDRAW"

  datatype Transaction = Transaction(kind: string, amount: real, dateTime: DateTime)

  /** `new Transaction(type, amount)`: the clock is read once, at construction. */
  function NewTransaction(kind: string, amount: real, now: DateTime): (t: Transaction)
    ensures t.kind == kind && t.amount == amount && t.dateTime == now
  {
    Transaction(kind, amount, now)
  }

  function SetKind(t: Transaction, kind: string): (r: Transaction)
    ensures r.kind == kind && r.amount == t.amount && r.dateTime == t.dateTime
  {
    t.(kind := kind)
  }

  function SetAmount(t: Transaction, amount: real): (r: Transaction)
    ensures r.amount == amount && r.kind == t.kind && r.dateTime == t.dateTime
  {
    t.(amount := amount)
  }

  function SetDateTime(t: Transaction, dateTime: DateTime): (r: Transaction)
    ensures r.dateTime == dateTime && r.kind == t.kind && r.amount == t.amount
  {
    t.(dateTime := dateTime)
  }

  /** Sum of the amounts of the entries of the given kind. */
  function Total(txs: seq<Transaction>, kind: string): real
  {
    if txs == [] then 0.0
    else
      var last := txs[|txs| - 1];
      Total(txs[..|txs| - 1], kind) + (if last.kind == kind then last.amount else 0.0)
  }

  /** What the history says the balance is: deposits minus withdrawals. */
  function Net(txs: seq<Transaction>): real
  {
    Total(txs, DEPOSIT) - Total(txs, WITHDRAW)
  }

  /** Appending one entry adds its signed amount to the net. */
  lemma NetAppend(txs: seq<Transaction>, t: Transaction)
    requires t.kind == DEPOSIT || t.kind == WITHDRAW
    ensures Net(txs + [t]) == Net(txs) + (if t.kind == DEPOSIT then t.amount else -t.amount)
  {
    assert (txs + [t])[..|txs|] == txs;
  }
}
