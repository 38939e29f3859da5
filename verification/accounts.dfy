/** A single holder's account: a name, a balance and an append-only history.
    Bank.js's `Account` class, with each mutating method turned into a
    function from the old account to a `Result` holding the new one. */
module Accounts {
  import opened Results
  import opened Transactions

  datatype Account = Account(name: string, balance: int, history: seq<Transaction>)

  /** The balance the account was opened with, recovered from its ledger:
      what is left once every recorded change is undone. */
  function Opening(a: Account): int {
    a.balance - Net(a.history)
  }

  /** What every account the bank hands out satisfies: the balance is not
      negative, every recorded amount is positive, and it was opened with a
      non-negative deposit. */
  predicate WellFormed(a: Account) {
    && a.balance >= 0
    && AllPositive(a.history)
    && Opening(a) >= 0
  }

  /** `h'` extends `h`: nothing recorded in `h` was changed or dropped. */
  predicate Extends(h: seq<Transaction>, h': seq<Transaction>) {
    |h| <= |h'| && h'[..|h|] == h
  }

  /** `new Account(name, balance)`: the constructor checks nothing. */
  function NewAccount(name: string, balance: int): (a: Account)
    ensures a.name == name && a.balance == balance
    ensures |a.history| == 0 && Opening(a) == balance
  {
    Account(name, balance, [])
  }

  /** `a` with `t` applied: its balance moved by `t`'s effect and `t`
      appended to its history. Both sides of a transfer are built from it. */
  function Record(a: Account, t: Transaction): (r: Account)
    ensures r.name == a.name
    ensures r.history == a.history + [t] && Extends(a.history, r.history)
    ensures r.balance == a.balance + Effect(t)
    ensures Opening(r) == Opening(a)
    ensures Outstanding(r.history) == Outstanding(a.history) + Unsettled(t)
  {
    NetAppend(a.history, t);
    Account(a.name, a.balance + Effect(t), a.history + [t])
  }

  /** `deposit(amount)`: refused unless the amount is positive; otherwise the
      balance grows by exactly `amount` and one Deposit entry is appended. */
  function DepositInto(a: Account, amount: int): (r: Result<Account>)
    ensures r.Err? <==> amount <= 0
    ensures r.Err? ==> r.error == InvalidAmount
    ensures r.Ok? ==> r.value.name == a.name && r.value.balance == a.balance + amount
    ensures r.Ok? ==> r.value.history == a.history + [Deposit(amount)]
    ensures r.Ok? ==> Opening(r.value) == Opening(a)
    ensures r.Ok? && WellFormed(a) ==> WellFormed(r.value)
  {
    if amount <= 0 then Err(InvalidAmount)
    else Ok(Record(a, Deposit(amount)))
  }

  /** `withdraw(amount)`: refused with InvalidAmount unless positive, then with
      InsufficientFunds exactly when it exceeds the balance (taking the whole
      balance is allowed); otherwise the balance drops by `amount` and one
      Withdrawal entry is appended. */
  function WithdrawFrom(a: Account, amount: int): (r: Result<Account>)
    ensures r.Ok? <==> 0 < amount <= a.balance
    ensures amount <= 0 ==> r == Err(InvalidAmount)
    ensures amount > 0 && amount > a.balance ==> r == Err(InsufficientFunds)
    ensures r.Ok? ==> r.value.name == a.name && r.value.balance == a.balance - amount
    ensures r.Ok? ==> r.value.balance >= 0
    ensures r.Ok? ==> r.value.history == a.history + [Withdrawal(amount)]
    ensures r.Ok? ==> Opening(r.value) == Opening(a)
    ensures r.Ok? && WellFormed(a) ==> WellFormed(r.value)
  {
    if amount <= 0 then Err(InvalidAmount)
    else if amount > a.balance then Err(InsufficientFunds)
    else Ok(Record(a, Withdrawal(amount)))
  }

  /** `transfer(amount, recipient)` between two DISTINCT account objects; the
      recipient is `None` when the argument is not an account. The checks run
      in Bank.js's order: positive amount, then funds (an amount equal to
      the whole balance is refused), then the recipient. This is a reference
      for the bank-level transfer, which also covers a self-transfer. */
  function TransferBetween(sender: Account, amount: int, recipient: Option<Account>): (r: Result<(Account, Account)>)
    ensures r.Ok? <==> 0 < amount < sender.balance && recipient.Some?
    ensures amount <= 0 ==> r == Err(InvalidAmount)
    ensures amount > 0 && amount >= sender.balance ==> r == Err(InsufficientFunds)
    ensures 0 < amount < sender.balance && recipient.None? ==> r == Err(NoRecipient)
    ensures r.Ok? ==> r.value.0.name == sender.name && r.value.1.name == recipient.value.name
    ensures r.Ok? ==> r.value.0.balance == sender.balance - amount > 0
    ensures r.Ok? ==> r.value.1.balance == recipient.value.balance + amount
    ensures r.Ok? ==> r.value.0.balance + r.value.1.balance == sender.balance + recipient.value.balance
    ensures r.Ok? ==> r.value.0.history == sender.history + [Transfer(amount, recipient.value.name)]
    ensures r.Ok? ==> r.value.1.history == recipient.value.history + [Received(amount, sender.name)]
  {
    if amount <= 0 then Err(InvalidAmount)
    else if amount >= sender.balance then Err(InsufficientFunds)
    else if recipient.None? then Err(NoRecipient)
    else
      var to := recipient.value;
      Ok((Record(sender, Transfer(amount, to.name)), Record(to, Received(amount, sender.name))))
  }

  /** `checkBalance()`: the current balance, never negative on an account
      the bank handed out. */
  function CheckBalance(a: Account): (b: int)
    ensures b == a.balance
    ensures WellFormed(a) ==> b >= 0
  {
    a.balance
  }

  /** `getTransactionHistory()`: the history, oldest entry first; every
      amount in it is positive on an account the bank handed out. */
  function GetTransactionHistory(a: Account): (h: seq<Transaction>)
    ensures h == a.history
    ensures WellFormed(a) ==> forall k :: 0 <= k < |h| ==> h[k].amount > 0
  {
    a.history
  }

  /** On an account with a non-negative balance, a deposit followed by a
      withdrawal of the same amount restores the balance exactly and leaves
      the two entries in the history. */
  lemma DepositThenWithdrawRestores(a: Account, amount: int)
    requires a.balance >= 0 && amount > 0
    ensures DepositInto(a, amount).Ok?
    ensures WithdrawFrom(DepositInto(a, amount).value, amount).Ok?
    ensures WithdrawFrom(DepositInto(a, amount).value, amount).value
         == a.(history := a.history + [Deposit(amount), Withdrawal(amount)])
  {
    var d := DepositInto(a, amount).value;
    assert d.history + [Withdrawal(amount)] == a.history + [Deposit(amount), Withdrawal(amount)];
  }

  /** The policy asymmetry of Bank.js: the whole balance may be
      withdrawn but never transferred. */
  lemma FullBalanceAsymmetry(a: Account, recipient: Account)
    requires a.balance > 0
    ensures WithdrawFrom(a, a.balance).Ok? && WithdrawFrom(a, a.balance).value.balance == 0
    ensures TransferBetween(a, a.balance, Some(recipient)) == Err(InsufficientFunds)
  {
  }
}
