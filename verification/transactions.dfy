/** The records an account appends to its transaction history. */
module Transactions {
  import opened Sums

  /** One history entry; `to` and `from` name the counterparty of a transfer. */
  datatype Transaction =
    | Deposit(amount: int)
    | Withdrawal(amount: int)
    | Transfer(amount: int, to: string)
    | Received(amount: int, from: string)

  /** The signed change a transaction makes to its account's balance. */
  function Effect(t: Transaction): int {
    match t
    case Deposit(a) => a
    case Withdrawal(a) => -a
    case Transfer(a, _) => -a
    case Received(a, _) => a
  }

  /** How a transaction bears on the pairing of transfers: a Transfer owes
      its amount to some Received entry, a Received entry settles its amount. */
  function Unsettled(t: Transaction): int {
    match t
    case Transfer(a, _) => a
    case Received(a, _) => -a
    case _ => 0
  }

  /** The net change recorded by a whole history. */
  function Net(h: seq<Transaction>): int {
    SumOver(h, Effect)
  }

  /** Transferred-out minus received amounts over a whole history. */
  function Outstanding(h: seq<Transaction>): int {
    SumOver(h, Unsettled)
  }

  /** Appending one entry moves the net by exactly that entry's effect, and
      the outstanding transfers by exactly what the entry leaves unsettled. */
  lemma NetAppend(h: seq<Transaction>, t: Transaction)
    ensures Net(h + [t]) == Net(h) + Effect(t)
    ensures Outstanding(h + [t]) == Outstanding(h) + Unsettled(t)
  {
    SumOverAppend(h, t, Effect);
    SumOverAppend(h, t, Unsettled);
  }

  /** Every entry of the history carries a positive amount. */
  predicate AllPositive(h: seq<Transaction>) {
    forall k :: 0 <= k < |h| ==> h[k].amount > 0
  }
}
