# BankAccount, modelled in Dafny

The repository holds one entity, `BankAccount`, and an NUnit suite that drives it.
An account is created with an initial balance. It exposes a `Balance` property and
two guarded operations. `Deposit(amount)` adds a positive amount. `Withdraw(amount)`
subtracts a positive amount that the balance covers, and withdrawing the whole
balance is allowed. Any other amount throws `ArgumentException`.

The class's implementation is not part of this model. Its behaviour is taken
from what `TestApp.Tests/BankAccountTests.cs` asserts.

Modules:

- `Wrappers` (`wrappers.dfy`): a `Result` success/failure type that replaces the thrown exception.
- `BankAccount` (`bank_account.dfy`): the `Account` datatype holding an exact `real` balance.
  Also the no-overdraft invariant `Valid`, the `Balance` accessor, and the pure operations `Open`, `Deposit` and `Withdraw`.
  Every contract reads the balance through `Balance`, the model of the property the tests read.
  A refused call returns `Failure(ArgumentException(reason))` and no new account, so the caller
  keeps the account it had (see the unchanged-on-failure assumption below).
- `Session` (`session.dfy`): a sequence of calls on one account, performed in order.
  The first refused call ends the sequence, as an uncaught exception ends a test body.
  A run that ends this way reports the exception together with the account the accepted calls left.
  It holds the lemmas on composition and the net balance change.
- `Scenarios` (`scenarios.dfy`): each test of the suite, stated about an account opened with 1000.
  It also holds one constructed variant that is not a test of the suite: `RefusedDepositAfterWithdrawal`
  replays lines 124-125 with the deposit refused.

Assumptions:

- The positivity guard is `amount > 0`, so a zero amount is refused by both operations.
  The suite never tries zero, so `>= 0` would fit it equally well.
- A refused call leaves the account unchanged. The suite never reads `Balance` after an exception:
  the tests that expect one only assert that it is thrown. `Session.Settle`, the account in a `Session.Halt`,
  `Session.RunHaltsAtRefusedCall` and `Scenarios.RefusedDepositAfterWithdrawal` rest on this choice.
- `Open` requires a non-negative initial balance. The suite only opens with 1000, and what
  construction does with a negative value is not observable from it.
- The two refusal reasons (`AmountNotPositive`, `InsufficientFunds`) are a refinement.
  The suite only sees `ArgumentException`. `BankAccount.WithdrawGuardOrderUnobservable` shows that on a
  valid account checking the funds before the sign gives the same result, so the order of the two guards is unobservable.

## Model

| member | source | states |
|---|---|---|
| BankAccount.Open | TestApp.Tests/BankAccountTests.cs:14-27 | the `Balance` of a new account equals the initial balance, and the account satisfies the no-overdraft invariant |
| BankAccount.Deposit | TestApp.Tests/BankAccountTests.cs:30-52 | a deposit succeeds exactly when the amount is positive; it then raises the balance by exactly that amount; otherwise it fails with ArgumentException; a valid account stays valid |
| BankAccount.Withdraw | TestApp.Tests/BankAccountTests.cs:55-115 | a withdrawal succeeds exactly when 0 < amount <= balance (the whole balance included); it then lowers the balance by exactly that amount, never below 0; a non-positive amount fails whatever the balance; a positive amount above the balance fails with ArgumentException |
| BankAccount.OperationsPreserveValid | TestApp.Tests/BankAccountTests.cs:82-115 | from a non-negative balance, every successful deposit or withdrawal leaves a non-negative balance |
| BankAccount.WithdrawGuardOrderUnobservable | TestApp.Tests/BankAccountTests.cs:72-89 | on a valid account a withdrawal that checks the funds first gives exactly the same result, reason included; a refused withdrawal reports insufficient funds exactly when the amount exceeds the balance |
| BankAccount.GuardOrderOnlyChangesReason | TestApp.Tests/BankAccountTests.cs:72-89 | on every account, valid or not, the two guard orders agree on whether the withdrawal succeeds, on the resulting account, and on the exception type |
| BankAccount.GuardOrderMattersWhenOverdrawn | TestApp.Tests/BankAccountTests.cs:72-79 | on an overdrawn account (-10, withdrawing -5) the two guard orders report different reasons; the exception type is the same |
| BankAccount.WithdrawUndoesDeposit | TestApp.Tests/BankAccountTests.cs:117-131 | on a valid account, withdrawing the amount just deposited succeeds and gives back the original account |
| BankAccount.DepositUndoesWithdraw | TestApp.Tests/BankAccountTests.cs:117-131 | depositing the amount just withdrawn succeeds and gives back the original account |
| Session.Settle | TestApp.Tests/BankAccountTests.cs:46-52 | after a refused call the caller's account is the one before the call; after an accepted call it is the new one; validity is kept either way |
| Session.Run | TestApp.Tests/BankAccountTests.cs:117-131 | performing calls in order from a valid account, the account reached is valid, whether the run succeeds or stops at a refused call; no calls leaves the account as it was |
| Session.RunHaltsAtRefusedCall | TestApp.Tests/BankAccountTests.cs:121-125 | a failed run stops at a call k: the calls before k succeed and leave exactly the account reported with the failure, call k is refused with the reported exception, and settling it leaves that account unchanged |
| Session.ApplyMatchesAccepts | TestApp.Tests/BankAccountTests.cs:30-115 | a single call is accepted exactly when an independent acceptance condition holds (positive amount, and for a withdrawal, covered by the balance); when accepted it moves the balance by the call's signed amount |
| Session.RunNet | TestApp.Tests/BankAccountTests.cs:117-131 | a successful run changes the balance by exactly the sum of its deposits minus the sum of its withdrawals |
| Session.RunSucceedsIff | TestApp.Tests/BankAccountTests.cs:117-131 | a run succeeds exactly when every call is accepted (`AllAccepted`) at the balance left by the calls before it |
| Session.AllAcceptedStep | TestApp.Tests/BankAccountTests.cs:117-131 | every call of a sequence is accepted in turn exactly when the first is accepted and the rest are, starting from the balance the first leaves |
| Session.RunAppend | TestApp.Tests/BankAccountTests.cs:117-131 | running two sequences of calls back to back is the same as running their concatenation, and a failure in the first ends the run with its account and exception |
| Scenarios.ConstructorSetsBalance | TestApp.Tests/BankAccountTests.cs:18-28 | an account opened with 1000 has balance 1000 |
| Scenarios.DepositPositiveIncreasesBalance | TestApp.Tests/BankAccountTests.cs:31-43 | depositing 500 gives the old balance plus 500 |
| Scenarios.DepositNegativeThrows | TestApp.Tests/BankAccountTests.cs:46-53 | depositing -200.49 fails with ArgumentException |
| Scenarios.WithdrawValidDecreasesBalance | TestApp.Tests/BankAccountTests.cs:56-69 | withdrawing 500.49 from 1000 leaves 499.51 |
| Scenarios.WithdrawNegativeThrows | TestApp.Tests/BankAccountTests.cs:72-79 | withdrawing -200.49 fails with ArgumentException although its magnitude is below the balance |
| Scenarios.WithdrawMoreThanBalanceThrows | TestApp.Tests/BankAccountTests.cs:82-89 | withdrawing 2000 from 1000 fails with ArgumentException |
| Scenarios.WithdrawWholeBalanceAllowed | TestApp.Tests/BankAccountTests.cs:92-104 | withdrawing all of 1000 is allowed and leaves 0 |
| Scenarios.WithdrawWholeBalancePlusOneThrows | TestApp.Tests/BankAccountTests.cs:107-115 | withdrawing 1000 + 1 from 1000 fails with ArgumentException |
| Scenarios.RefusedDepositAfterWithdrawal | TestApp.Tests/BankAccountTests.cs:121-125 | a constructed variant of lines 124-125, not a test of the suite: from 1000, withdrawing 500 and then depositing -1 fails with ArgumentException; under the unchanged-on-failure assumption the account is left at 500 |
| Scenarios.DepositAfterWithdrawal | TestApp.Tests/BankAccountTests.cs:117-131 | from 1000, withdrawing 500 and then depositing 200 leaves 1000 - 500 + 200 |

## Left out

- The NUnit fixture machinery (`[SetUp]`, `[Test]`, `Assert.*`) is test plumbing. The fixture appears only as the account opened with 1000.
- IEEE-754 `double` arithmetic and the `Math.Round(..., 2)` comparison are not modelled. The balance is an exact `real`, so 1000 - 500.49 is exactly 499.51.
- The exception mechanism is replaced by a `Result` value. Which message the exception carries is not modelled.
- BankAccount.Open: does not model construction with a negative initial balance; it requires `initial >= 0`, because the suite never exercises another value.
- BankAccount.Deposit: an amount of exactly 0 is refused by assumption (`amount > 0`); the suite pins down only negative and positive amounts.
- BankAccount.Withdraw: an amount of exactly 0 is refused by assumption (`amount > 0`), as for deposits.
- Concurrency and thread safety: the account has none.
