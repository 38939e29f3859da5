/** The `Bank` registry and the account operations as seen through it. An
    account is addressed by its position in `accounts` (positions never
    change: accounts are only appended), so an operation on the bank updates
    exactly the accounts the JavaScript method mutates, and a transfer from
    an account to itself touches one account twice, as Bank.js does. */
module Banking {
  import opened Results
  import opened Transactions
  import opened Strings
  import opened Accounts
  import opened Sums

  datatype Bank = Bank(accounts: seq<Account>)

  /** A freshly created account and the position it was given. */
  datatype Created = Created(bank: Bank, handle: nat)

  /** What holds of every account the bank holds: it is well formed and its
      name has a visible character. */
  predicate Valid(b: Bank) {
    forall i :: 0 <= i < |b.accounts| ==> WellFormed(b.accounts[i]) && HasVisibleChar(b.accounts[i].name)
  }

  /** `new Bank()`: no accounts. */
  function NewBank(): (b: Bank)
    ensures |b.accounts| == 0 && Valid(b)
  {
    Bank([])
  }

  function BalanceOf(a: Account): int {
    a.balance
  }

  /** What the account's history still owes: transferred out minus received. */
  function OutstandingOf(a: Account): int {
    Outstanding(a.history)
  }

  /** The money held by all accounts together. */
  function Total(b: Bank): int {
    SumOver(b.accounts, BalanceOf)
  }

  /** `createAccount(name, initialDeposit)`: refused with InvalidName when
      the name is blank after trimming, then with InvalidAmount when the
      deposit is negative (a deposit of 0 is accepted); otherwise a new
      account holding the untrimmed name, the deposit as balance and an empty
      history is appended after all earlier accounts, which are unchanged. */
  function CreateAccount(b: Bank, name: string, initialDeposit: int): (r: Result<Created>)
    ensures r.Ok? <==> HasVisibleChar(name) && initialDeposit >= 0
    ensures !HasVisibleChar(name) ==> r == Err(InvalidName)
    ensures HasVisibleChar(name) && initialDeposit < 0 ==> r == Err(InvalidAmount)
    ensures r.Ok? ==> r.value.handle == |b.accounts| && |r.value.bank.accounts| == |b.accounts| + 1
    ensures r.Ok? ==> r.value.bank.accounts[..|b.accounts|] == b.accounts
    ensures r.Ok? ==> var a := r.value.bank.accounts[r.value.handle];
                      a.name == name && a.balance == initialDeposit && a.history == []
    ensures r.Ok? ==> Total(r.value.bank) == Total(b) + initialDeposit
    ensures r.Ok? && Valid(b) ==> Valid(r.value.bank)
  {
    TrimEmptyIffBlank(name);
    if |Trim(name)| == 0 then Err(InvalidName)
    else if initialDeposit < 0 then Err(InvalidAmount)
    else
      var a := NewAccount(name, initialDeposit);
      SumOverAppend(b.accounts, a, BalanceOf);
      assert (b.accounts + [a])[..|b.accounts|] == b.accounts;
      Ok(Created(Bank(b.accounts + [a]), |b.accounts|))
  }

  /** `accounts[i].deposit(amount)`: the account-level deposit, applied in
      place; no other account changes. */
  function DepositAt(b: Bank, i: nat, amount: int): (r: Result<Bank>)
    requires i < |b.accounts|
    ensures r.Ok? <==> amount > 0
    ensures r.Err? ==> r.error == InvalidAmount
    ensures r.Ok? ==> |r.value.accounts| == |b.accounts|
    ensures r.Ok? ==> r.value.accounts[i] == DepositInto(b.accounts[i], amount).value
    ensures r.Ok? ==> forall j :: 0 <= j < |b.accounts| && j != i ==> r.value.accounts[j] == b.accounts[j]
    ensures r.Ok? ==> Total(r.value) == Total(b) + amount
    ensures r.Ok? && Valid(b) ==> Valid(r.value)
  {
    var a :- DepositInto(b.accounts[i], amount);
    SumOverUpdate(b.accounts, i, a, BalanceOf);
    Ok(Bank(b.accounts[i := a]))
  }

  /** `accounts[i].withdraw(amount)`: the account-level withdrawal, applied in
      place; no other account changes. */
  function WithdrawAt(b: Bank, i: nat, amount: int): (r: Result<Bank>)
    requires i < |b.accounts|
    ensures r.Ok? <==> 0 < amount <= b.accounts[i].balance
    ensures r.Err? ==> r.error == (if amount <= 0 then InvalidAmount else InsufficientFunds)
    ensures r.Ok? ==> |r.value.accounts| == |b.accounts|
    ensures r.Ok? ==> r.value.accounts[i] == WithdrawFrom(b.accounts[i], amount).value
    ensures r.Ok? ==> forall j :: 0 <= j < |b.accounts| && j != i ==> r.value.accounts[j] == b.accounts[j]
    ensures r.Ok? ==> Total(r.value) == Total(b) - amount
    ensures r.Ok? && Valid(b) ==> Valid(r.value)
  {
    var a :- WithdrawFrom(b.accounts[i], amount);
    SumOverUpdate(b.accounts, i, a, BalanceOf);
    Ok(Bank(b.accounts[i := a]))
  }

  /** `accounts[from].transfer(amount, accounts[to])`, where a `to` outside
      the bank stands for a recipient that is not an account. The checks run
      in Bank.js's order (positive amount, then funds, then recipient) and
      all come before any change. Then the sender is debited and records a
      Transfer naming the recipient, and after that the recipient, read
      afresh, is credited and records a Received naming the sender. */
  function TransferAt(b: Bank, from: nat, amount: int, to: nat): (r: Result<Bank>)
    requires from < |b.accounts|
    ensures r.Ok? <==> 0 < amount < b.accounts[from].balance && to < |b.accounts|
    ensures amount <= 0 ==> r == Err(InvalidAmount)
    ensures amount > 0 && amount >= b.accounts[from].balance ==> r == Err(InsufficientFunds)
    ensures 0 < amount < b.accounts[from].balance && to >= |b.accounts| ==> r == Err(NoRecipient)
    ensures r.Ok? ==> |r.value.accounts| == |b.accounts|
    ensures r.Ok? ==> forall j :: 0 <= j < |b.accounts| && j != from && j != to ==> r.value.accounts[j] == b.accounts[j]
  {
    var sender := b.accounts[from];
    if amount <= 0 then Err(InvalidAmount)
    else if amount >= sender.balance then Err(InsufficientFunds)
    else if to >= |b.accounts| then Err(NoRecipient)
    else
      var debited := b.accounts[from := Record(sender, Transfer(amount, b.accounts[to].name))];
      var credited := debited[to := Record(debited[to], Received(amount, sender.name))];
      Ok(Bank(credited))
  }

  /** Between two different accounts, the bank-level transfer does exactly
      what the two-account reference does. */
  lemma TransferAtDistinct(b: Bank, from: nat, amount: int, to: nat)
    requires from < |b.accounts| && to < |b.accounts| && from != to
    ensures var r := TransferAt(b, from, amount, to);
            var p := TransferBetween(b.accounts[from], amount, Some(b.accounts[to]));
            && (r.Ok? <==> p.Ok?)
            && (r.Err? ==> r.error == p.error)
            && (r.Ok? ==> r.value.accounts[from] == p.value.0 && r.value.accounts[to] == p.value.1)
  {
  }

  /** A transfer from an account to itself, when accepted, leaves its balance
      where it was and appends a Transfer and then a Received entry, both
      naming the account itself. The two-account reference, fed two copies of
      the account, would instead report the sender debited. */
  lemma SelfTransfer(b: Bank, i: nat, amount: int)
    requires i < |b.accounts|
    requires 0 < amount < b.accounts[i].balance
    ensures var a := b.accounts[i];
            var r := TransferAt(b, i, amount, i);
            && r.Ok?
            && r.value.accounts[i].balance == a.balance
            && r.value.accounts[i].history == a.history + [Transfer(amount, a.name), Received(amount, a.name)]
            && TransferBetween(a, amount, Some(a)).value.0.balance != r.value.accounts[i].balance
  {
    var a := b.accounts[i];
    assert a.history + [Transfer(amount, a.name)] + [Received(amount, a.name)]
        == a.history + [Transfer(amount, a.name), Received(amount, a.name)];
  }

  /** An accepted transfer leaves the sender with a strictly positive
      balance, moves no money into or out of the bank, and leaves what
      transfers owe in total unchanged: the Transfer entry it adds is settled
      by the Received entry it adds. */
  lemma TransferConserves(b: Bank, from: nat, amount: int, to: nat)
    requires from < |b.accounts|
    requires TransferAt(b, from, amount, to).Ok?
    ensures var r := TransferAt(b, from, amount, to).value;
            && r.accounts[from].balance > 0
            && Total(r) == Total(b)
            && SumOver(r.accounts, OutstandingOf) == SumOver(b.accounts, OutstandingOf)
  {
    var sender := b.accounts[from];
    var s1 := Record(sender, Transfer(amount, b.accounts[to].name));
    var debited := b.accounts[from := s1];
    var s2 := Record(debited[to], Received(amount, sender.name));
    SumOverUpdate(b.accounts, from, s1, BalanceOf);
    SumOverUpdate(debited, to, s2, BalanceOf);
    SumOverUpdate(b.accounts, from, s1, OutstandingOf);
    SumOverUpdate(debited, to, s2, OutstandingOf);
  }

  /** An accepted transfer keeps every account of a valid bank valid. */
  lemma TransferPreservesValid(b: Bank, from: nat, amount: int, to: nat)
    requires from < |b.accounts| && Valid(b)
    requires TransferAt(b, from, amount, to).Ok?
    ensures Valid(TransferAt(b, from, amount, to).value)
  {
    var r := TransferAt(b, from, amount, to).value;
    var sender := b.accounts[from];
    var s1 := Record(sender, Transfer(amount, b.accounts[to].name));
    var debited := b.accounts[from := s1];
    forall j | 0 <= j < |r.accounts|
      ensures WellFormed(r.accounts[j]) && HasVisibleChar(r.accounts[j].name)
    {
      if j == to {
        assert WellFormed(debited[to]);
        assert r.accounts[j] == Record(debited[to], Received(amount, sender.name));
      }
    }
  }
}
