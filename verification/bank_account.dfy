/** The bank account: a balance held as an exact real number, created with an
    initial balance and changed only by a guarded deposit or withdrawal.
    An invalid amount is reported as an ArgumentException failure instead of
    being thrown. A failed call yields no new account, so the caller's account
    keeps the balance it had before the call; that a refused call changes
    nothing is an assumption of this model. */
module BankAccount {
  import opened Wrappers

  /** Why an amount was refused. Both reasons surface as the same exception type. */
  datatype Reason = AmountNotPositive | InsufficientFunds

  /** The single error kind of the account. */
  datatype Error = ArgumentException(reason: Reason)

  datatype Account = Account(balance: real)

  /** The `Balance` property: the current balance; reading it changes nothing.
      Every contract below speaks of an account through it. */
  function Balance(a: Account): real {
    a.balance
  }

  /** The invariant every account keeps: no overdraft. */
  predicate Valid(a: Account) {
    Balance(a) >= 0.0
  }

  /** The positivity guard shared by both operations. A zero amount is refused. */
  predicate IsPositive(amount: real) {
    amount > 0.0
  }

  /** Constructs an account holding `initial`. */
  function Open(initial: real): (a: Account)
    requires initial >= 0.0
    ensures Balance(a) == initial
    ensures Valid(a)
  {
    Account(initial)
  }

  /** Adds a positive amount to the balance; any other amount is refused. */
  function Deposit(a: Account, amount: real): (r: Result<Account, Error>)
    ensures r.Success? <==> amount > 0.0
    ensures r.Success? ==> Balance(r.value) == Balance(a) + amount
    ensures r.Success? ==> Balance(r.value) > Balance(a)
    ensures r.Failure? ==> r.error == ArgumentException(AmountNotPositive)
    ensures Valid(a) && r.Success? ==> Valid(r.value)
  {
    if !IsPositive(amount) then
      Failure(ArgumentException(AmountNotPositive))
    else
      Success(Account(a.balance + amount))
  }

  /** Subtracts a positive amount that the balance covers; the whole balance may
      be withdrawn. The positivity guard is checked first. */
  function Withdraw(a: Account, amount: real): (r: Result<Account, Error>)
    ensures r.Success? <==> 0.0 < amount <= Balance(a)
    ensures r.Success? ==> Balance(r.value) == Balance(a) - amount
    ensures r.Success? ==> 0.0 <= Balance(r.value) < Balance(a)
    ensures amount <= 0.0 ==> r == Failure(ArgumentException(AmountNotPositive))
    ensures 0.0 < amount && Balance(a) < amount ==> r == Failure(ArgumentException(InsufficientFunds))
  {
    if !IsPositive(amount) then
      Failure(ArgumentException(AmountNotPositive))
    else if amount > Balance(a) then
      Failure(ArgumentException(InsufficientFunds))
    else
      Success(Account(a.balance - amount))
  }

  /** Every successful operation keeps the no-overdraft invariant. (A failed one
      yields no account; the caller keeps its old one, see `Session.Settle`.) */
  lemma OperationsPreserveValid(a: Account, amount: real)
    requires Valid(a)
    ensures Deposit(a, amount).Success? ==> Valid(Deposit(a, amount).value)
    ensures Withdraw(a, amount).Success? ==> Valid(Withdraw(a, amount).value)
  {
  }

  /** A withdrawal that checks the funds before the sign of the amount. */
  function WithdrawFundsFirst(a: Account, amount: real): (r: Result<Account, Error>) {
    if amount > Balance(a) then
      Failure(ArgumentException(InsufficientFunds))
    else if !IsPositive(amount) then
      Failure(ArgumentException(AmountNotPositive))
    else
      Success(Account(Balance(a) - amount))
  }

  /** On a valid account the order of the two withdrawal guards cannot be observed,
      down to the reason reported, and a refusal reports insufficient funds exactly
      when the amount exceeds the balance. */
  lemma WithdrawGuardOrderUnobservable(a: Account, amount: real)
    requires Valid(a)
    ensures WithdrawFundsFirst(a, amount) == Withdraw(a, amount)
    ensures Withdraw(a, amount).Failure? ==>
              (Withdraw(a, amount).error.reason == InsufficientFunds <==> amount > Balance(a))
  {
  }

  /** On any account, valid or not, the guard order changes at most the reason:
      success, the resulting account and the exception type agree. */
  lemma GuardOrderOnlyChangesReason(a: Account, amount: real)
    ensures WithdrawFundsFirst(a, amount).Success? <==> Withdraw(a, amount).Success?
    ensures Withdraw(a, amount).Success? ==> WithdrawFundsFirst(a, amount) == Withdraw(a, amount)
    ensures Withdraw(a, amount).Failure? ==>
              WithdrawFundsFirst(a, amount).error.ArgumentException? && Withdraw(a, amount).error.ArgumentException?
  {
  }

  /** On an overdrawn account the two guard orders report different reasons. */
  lemma GuardOrderMattersWhenOverdrawn()
    ensures WithdrawFundsFirst(Account(-10.0), -5.0) != Withdraw(Account(-10.0), -5.0)
  {
  }

  /** Withdrawing what was just deposited restores the original account. It needs
      the invariant: on an overdrawn account the deposit would not cover the withdrawal. */
  lemma WithdrawUndoesDeposit(a: Account, amount: real)
    requires Valid(a)
    requires amount > 0.0
    ensures Deposit(a, amount).Success?
    ensures Withdraw(Deposit(a, amount).value, amount) == Success(a)
  {
  }

  /** Depositing what was just withdrawn restores the original account. */
  lemma DepositUndoesWithdraw(a: Account, amount: real)
    requires Withdraw(a, amount).Success?
    ensures Deposit(Withdraw(a, amount).value, amount) == Success(a)
  {
  }
}
