# Bank ledger model

A Dafny model of a small in-memory ledger. A `Bank` is a registry that creates named
`Account`s and keeps them in creation order. Each account holds a name, a balance and an
append-only transaction history. It supports `deposit`, `withdraw`, `transfer` (to
another account), `checkBalance` and `getTransactionHistory`. Every mutating operation
either throws before it changes anything, or updates the balances and appends exactly one
history entry per debit or credit. A transfer from an account to itself is one debit and
one credit of the same account, so it appends two entries there.

The model is functional. Each operation takes the old state and returns a
`Result`, either `Ok(new state)` or `Err(error)`, where the error is one of `InvalidName`,
`InvalidAmount`, `InsufficientFunds` and `NoRecipient`. Amounts are unbounded integers.
The bank-level operations address an account by its position in `accounts`, which never
changes because accounts are only ever appended. So a transfer from an account to itself
is modelled the way Bank.js runs it: the debit and then the credit hit the same
account. The balance is unchanged and two entries are appended.

Modules:

- `Results`: the error enumeration and the `Result` type.
- `Sums`: sums of a measure over a sequence, used for histories and for banks.
- `Strings`: JavaScript's `trim`, built from the ECMAScript white-space and
  line-terminator code points, and what it means for a name to be blank.
- `Transactions`: the four history records (`Deposit`, `Withdrawal`, `Transfer` with `to`,
  `Received` with `from`) and sums over a history.
- `Accounts`: the `Account` record and its operations. This includes a two-account
  transfer, which serves as a reference for transfers between distinct accounts.
- `Banking`: the `Bank` registry, account creation and the position-addressed
  operations. It proves money conservation and self-transfer behaviour.
- `Ledger`: arbitrary sequences of calls. It proves the invariants that every reachable
  bank satisfies.
- `Scenario`: the demonstration run and the edge cases of account creation.

Behaviours kept exactly as the code has them:

- Transfer refuses an amount equal to the whole balance (`amount >= balance`). Withdraw
  allows it (`amount > balance` is what it refuses). `Accounts.FullBalanceAsymmetry`
  states this difference. The transfer's own error message ("can't be greater than the
  account balance") suggests `>` may have been meant, but the model keeps `>=`.
- Transfer checks run in this order: positive amount, then sufficient funds, then that
  the recipient exists. So a bad amount is reported even when the recipient is also
  missing.
- The name check trims the name, but the account stores the name as given, surrounding
  white space included.
- The code reports four distinct conditions. The model gives each its own error value,
  where a coarser taxonomy would fold a bad name, a bad amount and a missing recipient
  into one "invalid argument".

Invariants proved for every bank reachable from an empty one, over any sequence of calls
where refused calls change nothing:

- every balance is non-negative;
- every recorded amount is positive;
- every name has a visible character;
- each account's balance minus the net of its history is non-negative, never changes
  after creation, and equals the initial deposit the account was created with;
- histories are only ever appended to;
- the amounts transferred out across the bank equal the amounts received (the bank is
  "settled"; this is a bank-wide total, not a pairing of individual entries).

## Model

| member | source | states |
|---|---|---|
| Strings.LeadingWhiteSpace | Bank.js:9 | the count of leading characters `trim` removes: all of them are white space, and the next character, if any, is not |
| Strings.TrailingWhiteSpace | Bank.js:9 | the count of trailing characters `trim` removes: all of them are white space, and the character before them, if any, is not |
| Strings.Trim | Bank.js:9 | `name.trim()`: the result starts right after the leading white space, is an infix of the name, and neither starts nor ends with white space; `Strings.TrimIsInfix` completes the contract by stating that only white space lies outside it |
| Strings.TrimIsInfix | Bank.js:9 | `trim` removes a run of white space from each end and nothing else: the result is an infix of the name, everything outside it is white space, and the result neither starts nor ends with white space |
| Strings.TrimEmptyIffBlank | Bank.js:9-11 | the trimmed name is empty exactly when every character of the name is white space |
| Strings.TrimIdempotent | Bank.js:9 | trimming an already trimmed name changes nothing |
| Accounts.NewAccount | Bank.js:25-29 | the constructor stores the name and balance it is given, checks nothing, and starts with an empty history whose ledger reconciles to that balance |
| Accounts.DepositInto | Bank.js:31-45 | refused with InvalidAmount exactly when amount <= 0; otherwise the name is kept, the balance grows by exactly amount, one Deposit(amount) entry is appended after the untouched earlier entries, the opening balance is unchanged and well-formedness is preserved |
| Accounts.WithdrawFrom | Bank.js:47-69 | accepted exactly when 0 < amount <= balance (so the whole balance may be taken, leaving 0); InvalidAmount is reported before InsufficientFunds; on success the balance drops by exactly amount, stays non-negative, and one Withdrawal(amount) entry is appended |
| Accounts.TransferBetween | Bank.js:71-105 | between two distinct accounts: accepted exactly when 0 < amount < sender balance and the recipient is an account; errors in order InvalidAmount, InsufficientFunds (including amount == balance), NoRecipient; on success both accounts keep their names, the sender keeps a positive balance, the sum of both balances is conserved, and the sender gains Transfer(amount, recipient name) while the recipient gains Received(amount, sender name) |
| Accounts.CheckBalance | Bank.js:107-109 | returns the current balance, which is non-negative on every well-formed account |
| Accounts.GetTransactionHistory | Bank.js:111-113 | returns the history; on a well-formed account every amount in it is positive |
| Accounts.DepositThenWithdrawRestores | Bank.js:31-68 | on an account with a non-negative balance, depositing an amount and then withdrawing the same amount both succeed, restore the balance exactly, and append Deposit then Withdrawal |
| Accounts.FullBalanceAsymmetry | Bank.js:58-86 | on a positive balance, withdrawing the whole balance succeeds and leaves 0, while transferring the whole balance is refused with InsufficientFunds |
| Banking.NewBank | Bank.js:4-6 | a new bank has no accounts and is valid |
| Banking.CreateAccount | Bank.js:8-20 | accepted exactly when the name has a visible character and the deposit is >= 0 (0 included); InvalidName is reported before InvalidAmount; on success one account is appended at the end with the untrimmed name, the deposit as balance and an empty history, its position is returned, earlier accounts are unchanged, the bank's total grows by the deposit, and validity is preserved |
| Banking.DepositAt | Bank.js:31-45 | the account-level deposit applied to one account of the bank: the same acceptance condition, no other account changes, the bank's total grows by amount, and validity is preserved |
| Banking.WithdrawAt | Bank.js:47-69 | the account-level withdrawal applied to one account of the bank: accepted exactly when 0 < amount <= balance, the error is InvalidAmount for amount <= 0 and otherwise InsufficientFunds, no other account changes, the total drops by amount, and validity is preserved |
| Banking.TransferAt | Bank.js:71-105 | accepted exactly when 0 < amount < sender balance and the recipient is an account of the bank; InvalidAmount, then InsufficientFunds, then NoRecipient are reported in that order, all before any change; on success no account other than sender and recipient changes |
| Banking.TransferAtDistinct | Bank.js:92-104 | for two different accounts, the bank-level transfer gives the same verdict, error and resulting pair of accounts as the two-account reference |
| Banking.SelfTransfer | Bank.js:92-104 | an accepted transfer from an account to itself leaves its balance unchanged and appends Transfer then Received, both naming the account itself; treating the two sides as separate accounts would wrongly show the sender debited |
| Banking.TransferConserves | Bank.js:82-104 | after an accepted transfer the sender's balance is strictly positive, the bank's total money is unchanged, and the bank-wide amount transferred out but not received is unchanged |
| Banking.TransferPreservesValid | Bank.js:78-104 | an accepted transfer keeps every account of a valid bank well formed |
| Ledger.ExecutePreserves | Bank.js:8-105 | every accepted call only appends to the bank and to histories, renames nothing, keeps each opening balance, keeps a valid bank valid and a settled bank settled |
| Ledger.CreatePreserves | Bank.js:17-18 | account creation only appends, and the new empty history leaves transfers settled |
| Ledger.UpdatePreserves | Bank.js:40-68 | a deposit or withdrawal changes one account by one appended entry, keeping names, earlier entries, opening balances and transfer settlement |
| Ledger.TransferPreserves | Bank.js:92-104 | an accepted transfer only appends, keeps validity, and keeps transfers settled, because the Transfer entry and the Received entry it adds carry the same amount |
| Ledger.TransferEvolves | Bank.js:92-104 | a transfer renames no account, only appends to histories, and keeps every opening balance, also when sender and recipient coincide |
| Ledger.Run | Bank.js:3-115 | after any sequence of calls, where refused ones change nothing, no account is removed, renamed or rewritten, openings are kept, and validity and settlement are preserved |
| Ledger.Reachable | Bank.js:13-86 | every bank reachable from an empty one has only non-negative balances, positive recorded amounts and visible names, every balance minus the net of its history is non-negative, and the total transferred out across the bank equals the total received (the pairing of each Transfer entry with its own Received entry is proved per call by `Banking.TransferAtDistinct` and `Banking.SelfTransfer`) |
| Ledger.RunCreate | Bank.js:17-18 | an accepted `createAccount` run as a single call appends the new account, whose balance minus the net of its history is the initial deposit |
| Ledger.OpeningIsInitialDeposit | Bank.js:13-28 | an account opened by an accepted `createAccount(name, initialDeposit)` anywhere in a run keeps its position and name for the rest of the run, and its balance minus the net of its history stays exactly that initial deposit, whatever calls come before and after |
| Scenario.DemoRun | Bank.js:120-147 | John Doe opens with 1000 and Jane Doe with 500; John deposits 500 (1500), withdraws 200 (1300) and transfers 300 to Jane; John ends with 1000 and history Deposit 500, Withdrawal 200, Transfer 300 to Jane Doe, and Jane ends with 800 and history Received 300 from John Doe |
| Scenario.OpenBoth | Bank.js:124-125 | the two demo accounts are created at positions 0 and 1 with their opening balances and empty histories |
| Scenario.DepositStep | Bank.js:129 | the demo deposit of 500 takes John from 1000 to 1500 and leaves Jane alone |
| Scenario.WithdrawStep | Bank.js:130 | the demo withdrawal of 200 takes John from 1500 to 1300 and leaves Jane alone |
| Scenario.TransferStep | Bank.js:133 | the demo transfer of 300 takes John to 1000 and Jane to 800, with the paired entries |
| Scenario.CreationEdges | Bank.js:8-19 | an empty or all-white-space name is refused with InvalidName, a deposit of -1 with InvalidAmount, a deposit of 0 is accepted, and a padded name is stored untrimmed |

## Left out

- Run-time type checks (`typeof` on names and amounts, Bank.js:9, 13, 32, 50, 74): Dafny's static types replace them. A non-string name would throw from `trim()` before its type test; that case is not modelled.
- JavaScript number semantics: amounts are unbounded integers, so floating-point rounding, `NaN` and `Infinity` are not modelled. For example, in Bank.js `deposit(NaN)` passes both guards.
- The `instanceof Account` test on the recipient (Bank.js:72): modelled as the recipient's position being inside the bank. Transfers to an account object held by a different bank, or by no bank, are therefore not expressible.
- Banking.TransferAt: requires the sender's position to be inside the bank, because in Bank.js the method can only be called on an existing account object.
- Banking.DepositAt: requires the account's position to be inside the bank, for the same reason; `Accounts.DepositInto` covers an account held by no bank.
- Banking.WithdrawAt: requires the account's position to be inside the bank, for the same reason; `Accounts.WithdrawFrom` covers an account held by no bank.
- Ledger.Run: skips a call made on a position with no account, for the same reason, instead of reporting an error.
- The constructor's default balance of 0 (Bank.js:25): `createAccount` always passes the deposit, so `Accounts.NewAccount` takes the balance explicitly.
- Building an `Account` directly with a negative balance bypasses the bank's checks. `Accounts.NewAccount` allows it, as Bank.js does, but the invariants are stated for accounts the bank created.
- `getTransactionHistory` returns the live mutable array (Bank.js:112). Outside mutation through that alias is not modelled; the history is returned as a value.
- `name`, `balance`, `transactionHistory` and `Bank.accounts` are public fields in Bank.js, so any caller can overwrite them (for example `acct.balance = -1`) and break the invariants. Such outside writes are not modelled; state changes only through the operations.
- A transfer has no atomic boundary between its debit and its credit. No fault can occur between them in this model, so the half-applied state is not represented.
- Names are sequences of Unicode scalar values. A JavaScript string is a sequence of UTF-16 code units, so a name holding an unpaired surrogate cannot be expressed. This does not affect `trim`, because every white-space code point lies in the Basic Multilingual Plane.
- Exact error message strings, `console.log`, `module.exports`, and the demo driver's printing (Bank.js:117-154). The demo's effects are stated as `Scenario.DemoRun`.
