/** The demonstration run in Bank.js (`testBankOperations`): two accounts,
    a deposit, a withdrawal and a transfer, with the balances and histories
    it ends in. */
module Scenario {
  import opened Results
  import opened Transactions
  import opened Accounts
  import opened Banking
  import Strings

  /** John Doe opens with 1000 and Jane Doe with 500; John deposits 500,
      withdraws 200 and transfers 300 to Jane. John ends with 1000 and three
      entries, Jane with 800 and the matching Received entry. */
  lemma DemoRun()
    ensures var b0 := NewBank();
            var c1 := CreateAccount(b0, "John Doe", 1000);
            c1.Ok? &&
            var c2 := CreateAccount(c1.value.bank, "Jane Doe", 500);
            c2.Ok? &&
            var john, jane := c1.value.handle, c2.value.handle;
            var d := DepositAt(c2.value.bank, john, 500);
            d.Ok? && CheckBalance(d.value.accounts[john]) == 1500 &&
            var w := WithdrawAt(d.value, john, 200);
            w.Ok? && CheckBalance(w.value.accounts[john]) == 1300 &&
            var t := TransferAt(w.value, john, 300, jane);
            && t.Ok?
            && CheckBalance(t.value.accounts[john]) == 1000
            && CheckBalance(t.value.accounts[jane]) == 800
            && GetTransactionHistory(t.value.accounts[john])
               == [Deposit(500), Withdrawal(200), Transfer(300, "Jane Doe")]
            && GetTransactionHistory(t.value.accounts[jane]) == [Received(300, "John Doe")]
  {
    OpenBoth();
    DepositStep();
    WithdrawStep();
    TransferStep();
  }

  // The demo run is split into one lemma per call, each stating the bank
  // before and after that call; proving the whole run in one lemma is too
  // costly for the verifier.

  lemma OpenBoth()
    ensures CreateAccount(NewBank(), "John Doe", 1000) == Ok(Created(Bank([Account("John Doe", 1000, [])]), 0))
    ensures CreateAccount(Bank([Account("John Doe", 1000, [])]), "Jane Doe", 500)
         == Ok(Created(Bank([Account("John Doe", 1000, []), Account("Jane Doe", 500, [])]), 1))
  {
    assert !Strings.IsWhiteSpace("John Doe"[0]);
    assert !Strings.IsWhiteSpace("Jane Doe"[0]);
    Strings.TrimEmptyIffBlank("John Doe");
    Strings.TrimEmptyIffBlank("Jane Doe");
    assert [Account("John Doe", 1000, [])] + [Account("Jane Doe", 500, [])]
        == [Account("John Doe", 1000, []), Account("Jane Doe", 500, [])];
  }

  /** `johnAccount.deposit(500)`: John goes from 1000 to 1500. */
  lemma DepositStep()
    ensures DepositAt(Bank([Account("John Doe", 1000, []), Account("Jane Doe", 500, [])]), 0, 500)
         == Ok(Bank([Account("John Doe", 1500, [Deposit(500)]), Account("Jane Doe", 500, [])]))
  {
    var john, jane := Account("John Doe", 1000, []), Account("Jane Doe", 500, []);
    var john' := Account("John Doe", 1500, [Deposit(500)]);
    assert john.history + [Deposit(500)] == john'.history;
    assert [john, jane][0 := john'] == [john', jane];
  }

  /** `johnAccount.withdraw(200)`: John goes from 1500 to 1300. */
  lemma WithdrawStep()
    ensures WithdrawAt(Bank([Account("John Doe", 1500, [Deposit(500)]), Account("Jane Doe", 500, [])]), 0, 200)
         == Ok(Bank([Account("John Doe", 1300, [Deposit(500), Withdrawal(200)]), Account("Jane Doe", 500, [])]))
  {
    var john, jane := Account("John Doe", 1500, [Deposit(500)]), Account("Jane Doe", 500, []);
    var john' := Account("John Doe", 1300, [Deposit(500), Withdrawal(200)]);
    assert john.history + [Withdrawal(200)] == john'.history;
    assert [john, jane][0 := john'] == [john', jane];
  }

  /** `johnAccount.transfer(300, janeAccount)`: John goes to 1000 and Jane
      to 800, with the paired entries. */
  lemma TransferStep()
    ensures TransferAt(Bank([Account("John Doe", 1300, [Deposit(500), Withdrawal(200)]), Account("Jane Doe", 500, [])]), 0, 300, 1)
         == Ok(Bank([Account("John Doe", 1000, [Deposit(500), Withdrawal(200), Transfer(300, "Jane Doe")]),
                     Account("Jane Doe", 800, [Received(300, "John Doe")])]))
  {
    var john, jane := Account("John Doe", 1300, [Deposit(500), Withdrawal(200)]), Account("Jane Doe", 500, []);
    var john' := Account("John Doe", 1000, [Deposit(500), Withdrawal(200), Transfer(300, "Jane Doe")]);
    var jane' := Account("Jane Doe", 800, [Received(300, "John Doe")]);
    assert john.history + [Transfer(300, "Jane Doe")] == john'.history;
    assert jane.history + [Received(300, "John Doe")] == jane'.history;
    assert [john, jane][0 := john'] == [john', jane];
    assert [john', jane][1 := jane'] == [john', jane'];
  }

  /** The name is stored as given, surrounding spaces included; only the
      check trims it. A blank name and a negative deposit are refused, and
      an opening deposit of 0 is accepted. */
  lemma CreationEdges()
    ensures CreateAccount(NewBank(), "", 100) == Err(InvalidName)
    ensures CreateAccount(NewBank(), " \t\n ", 100) == Err(InvalidName)
    ensures CreateAccount(NewBank(), "Alice", -1) == Err(InvalidAmount)
    ensures CreateAccount(NewBank(), "Alice", 0).Ok?
    ensures CreateAccount(NewBank(), " Al ", 100).Ok?
    ensures CreateAccount(NewBank(), " Al ", 100).value.bank.accounts[0].name == " Al "
  {
    assert !Strings.IsWhiteSpace("Alice"[0]);
    assert !Strings.IsWhiteSpace(" Al "[1]);
    var blank := " \t\n ";
    assert forall k :: 0 <= k < |blank| ==> Strings.IsWhiteSpace(blank[k]);
  }
}
