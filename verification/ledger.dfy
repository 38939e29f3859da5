/** Sequences of calls against one bank. A refused call throws before any
    change, so a caller that catches the error sees the bank as it was; this
    module proves what every such sequence preserves. */
module Ledger {
  import opened Results
  import opened Transactions
  import opened Accounts
  import opened Banking
  import opened Sums

  /** One call on the bank or on one of its accounts, addressed by position. */
  datatype Call =
    | CreateAccountCall(name: string, initialDeposit: int)
    | DepositCall(account: nat, amount: int)
    | WithdrawCall(account: nat, amount: int)
    | TransferCall(sender: nat, amount: int, recipient: nat)

  /** The call is made on an account object that exists. */
  predicate Addressed(b: Bank, c: Call) {
    match c
    case CreateAccountCall(_, _) => true
    case DepositCall(i, _) => i < |b.accounts|
    case WithdrawCall(i, _) => i < |b.accounts|
    case TransferCall(i, _, _) => i < |b.accounts|
  }

  /** The outcome of one call. */
  function Execute(b: Bank, c: Call): (r: Result<Bank>)
    requires Addressed(b, c)
  {
    match c
    case CreateAccountCall(name, d) =>
      var created :- CreateAccount(b, name, d);
      Ok(created.bank)
    case DepositCall(i, amount) => DepositAt(b, i, amount)
    case WithdrawCall(i, amount) => WithdrawAt(b, i, amount)
    case TransferCall(i, amount, j) => TransferAt(b, i, amount, j)
  }

  /** `b'` is `b` after some calls: no account was removed or reordered,
      none was renamed, no history entry was changed or dropped, and every
      account still reconciles to the same opening balance. */
  predicate Evolves(b: Bank, b': Bank) {
    && |b.accounts| <= |b'.accounts|
    && forall j :: 0 <= j < |b.accounts| ==>
         && b'.accounts[j].name == b.accounts[j].name
         && Extends(b.accounts[j].history, b'.accounts[j].history)
         && Opening(b'.accounts[j]) == Opening(b.accounts[j])
  }

  /** Across the whole bank, the total transferred out equals the total
      received. This is a bank-wide sum, not a pairing of entries. */
  predicate Settled(b: Bank) {
    SumOver(b.accounts, OutstandingOf) == 0
  }

  /** One accepted call keeps a valid bank valid, keeps every transfer
      settled, and only appends to the bank and its histories. */
  lemma ExecutePreserves(b: Bank, c: Call)
    requires Addressed(b, c) && Execute(b, c).Ok?
    ensures Evolves(b, Execute(b, c).value)
    ensures Valid(b) ==> Valid(Execute(b, c).value)
    ensures Settled(b) ==> Settled(Execute(b, c).value)
  {
    match c
    case CreateAccountCall(name, d) => CreatePreserves(b, name, d);
    case DepositCall(i, amount) => UpdatePreserves(b, i, Deposit(amount));
    case WithdrawCall(i, amount) => UpdatePreserves(b, i, Withdrawal(amount));
    case TransferCall(i, amount, j) => TransferPreserves(b, i, amount, j);
  }

  lemma CreatePreserves(b: Bank, name: string, d: int)
    requires CreateAccount(b, name, d).Ok?
    ensures var r := CreateAccount(b, name, d).value.bank;
            Evolves(b, r) && (Settled(b) ==> Settled(r))
  {
    SumOverAppend(b.accounts, NewAccount(name, d), OutstandingOf);
  }

  /** A deposit or withdrawal: one account gains one entry that leaves no
      transfer unsettled; everything else is as it was. */
  lemma UpdatePreserves(b: Bank, i: nat, t: Transaction)
    requires i < |b.accounts| && Unsettled(t) == 0
    ensures var r := Bank(b.accounts[i := Record(b.accounts[i], t)]);
            Evolves(b, r) && (Settled(b) ==> Settled(r))
  {
    SumOverUpdate(b.accounts, i, Record(b.accounts[i], t), OutstandingOf);
  }

  lemma TransferPreserves(b: Bank, i: nat, amount: int, j: nat)
    requires i < |b.accounts| && TransferAt(b, i, amount, j).Ok?
    ensures var r := TransferAt(b, i, amount, j).value;
            && Evolves(b, r)
            && (Valid(b) ==> Valid(r))
            && (Settled(b) ==> Settled(r))
  {
    TransferConserves(b, i, amount, j);
    if Valid(b) {
      TransferPreservesValid(b, i, amount, j);
    }
    TransferEvolves(b, i, amount, j);
  }

  /** A transfer renames nothing, only appends, and keeps every opening
      balance, also when sender and recipient are the same account. */
  lemma TransferEvolves(b: Bank, i: nat, amount: int, j: nat)
    requires i < |b.accounts| && TransferAt(b, i, amount, j).Ok?
    ensures Evolves(b, TransferAt(b, i, amount, j).value)
  {
    var r := TransferAt(b, i, amount, j).value;
    var sender := b.accounts[i];
    var s1 := Record(sender, Transfer(amount, b.accounts[j].name));
    var debited := b.accounts[i := s1];
    var s2 := Record(debited[j], Received(amount, sender.name));
    assert r.accounts == debited[j := s2];
    forall k | 0 <= k < |b.accounts|
      ensures r.accounts[k].name == b.accounts[k].name
      ensures Extends(b.accounts[k].history, r.accounts[k].history)
      ensures Opening(r.accounts[k]) == Opening(b.accounts[k])
    {
      if k == j && k == i {
        assert r.accounts[k].history == sender.history + [Transfer(amount, b.accounts[j].name)] + [Received(amount, sender.name)];
        assert r.accounts[k].history[..|sender.history|] == sender.history;
      }
    }
  }

  /** Evolving twice is evolving once. */
  lemma EvolvesTransitive(b1: Bank, b2: Bank, b3: Bank)
    requires Evolves(b1, b2) && Evolves(b2, b3)
    ensures Evolves(b1, b3)
  {
    forall j | 0 <= j < |b1.accounts|
      ensures Extends(b1.accounts[j].history, b3.accounts[j].history)
    {
      var h1, h2, h3 := b1.accounts[j].history, b2.accounts[j].history, b3.accounts[j].history;
      assert h3[..|h2|][..|h1|] == h3[..|h1|];
    }
  }

  /** The bank after the calls in order; a refused call, or one made on an
      account that does not exist, leaves the bank as it was. */
  function Run(b: Bank, calls: seq<Call>): (r: Bank)
    ensures Evolves(b, r)
    ensures Valid(b) ==> Valid(r)
    ensures Settled(b) ==> Settled(r)
    decreases |calls|
  {
    if |calls| == 0 then b
    else if Addressed(b, calls[0]) && Execute(b, calls[0]).Ok? then
      var next := Execute(b, calls[0]).value;
      ExecutePreserves(b, calls[0]);
      var r := Run(next, calls[1..]);
      EvolvesTransitive(b, next, r);
      r
    else
      Run(b, calls[1..])
  }

  /** Every bank reachable from a new one: all balances are non-negative,
      every recorded amount is positive, every name has a visible character,
      each account's history reconciles its balance with a non-negative
      opening deposit, and the total transferred out across the bank equals
      the total received. */
  lemma Reachable(calls: seq<Call>)
    ensures var b := Run(NewBank(), calls);
            && Valid(b) && Settled(b)
            && forall i :: 0 <= i < |b.accounts| ==> b.accounts[i].balance >= 0
  {
  }

  /** Running two call sequences one after the other is running their
      concatenation. */
  lemma {:induction false} RunConcat(b: Bank, xs: seq<Call>, ys: seq<Call>)
    ensures Run(b, xs + ys) == Run(Run(b, xs), ys)
    decreases |xs|
  {
    if |xs| == 0 {
      assert xs + ys == ys;
    } else {
      assert (xs + ys)[0] == xs[0];
      assert (xs + ys)[1..] == xs[1..] + ys;
      if Addressed(b, xs[0]) && Execute(b, xs[0]).Ok? {
        RunConcat(Execute(b, xs[0]).value, xs[1..], ys);
      } else {
        RunConcat(b, xs[1..], ys);
      }
    }
  }

  /** An account opened by an accepted `createAccount(name, initialDeposit)`
      somewhere in a run keeps its position and name for the rest of the run,
      and its balance minus the net of its history is exactly that initial
      deposit, whatever calls come before and after. */
  lemma OpeningIsInitialDeposit(b0: Bank, before: seq<Call>, name: string, d: int, after: seq<Call>)
    requires CreateAccount(Run(b0, before), name, d).Ok?
    ensures var b := Run(b0, before);
            var r := Run(b0, before + [CreateAccountCall(name, d)] + after);
            && |b.accounts| < |r.accounts|
            && r.accounts[|b.accounts|].name == name
            && Opening(r.accounts[|b.accounts|]) == d
  {
    var b := Run(b0, before);
    var c := CreateAccountCall(name, d);
    RunConcat(b0, before + [c], after);
    RunConcat(b0, before, [c]);
    RunCreate(b, name, d);
  }

  /** One accepted creation appends the new account at the end. */
  lemma RunCreate(b: Bank, name: string, d: int)
    requires CreateAccount(b, name, d).Ok?
    ensures Run(b, [CreateAccountCall(name, d)]) == CreateAccount(b, name, d).value.bank
    ensures Opening(CreateAccount(b, name, d).value.bank.accounts[|b.accounts|]) == d
  {
    var c := CreateAccountCall(name, d);
    var created := CreateAccount(b, name, d).value.bank;
    var a := created.accounts[|b.accounts|];
    assert Execute(b, c) == Ok(created);
    assert [c][1..] == [];
    assert Run(b, [c]) == Run(created, []);
    assert a.balance == d && a.history == [];
  }
}
