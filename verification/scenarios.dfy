/** The concrete situations of the account's test suite, each stated about an
    account opened with 1000, the balance the suite's fixture starts from. */
module Scenarios {
  import opened Wrappers
  import opened BankAccount
  import Session

  /** The fixture's account. */
  function Fixture(): (a: Account)
    ensures Balance(a) == 1000.0
  {
    Open(1000.0)
  }

  lemma ConstructorSetsBalance()
    ensures Balance(Fixture()) == 1000.0
  {
  }

  lemma DepositPositiveIncreasesBalance()
    ensures Deposit(Fixture(), 500.0) == Success(Account(Balance(Fixture()) + 500.0))
  {
  }

  lemma DepositNegativeThrows()
    ensures Deposit(Fixture(), -200.49).Failure?
    ensures Deposit(Fixture(), -200.49).error.ArgumentException?
  {
  }

  lemma WithdrawValidDecreasesBalance()
    ensures Withdraw(Fixture(), 500.49) == Success(Account(499.51))
  {
  }

  lemma WithdrawNegativeThrows()
    ensures Withdraw(Fixture(), -200.49).Failure?
    ensures Withdraw(Fixture(), -200.49).error.ArgumentException?
  {
  }

  lemma WithdrawMoreThanBalanceThrows()
    ensures Withdraw(Fixture(), 2000.0).Failure?
    ensures Withdraw(Fixture(), 2000.0).error.ArgumentException?
  {
  }

  lemma WithdrawWholeBalanceAllowed()
    ensures Withdraw(Fixture(), 1000.0) == Success(Account(0.0))
  {
  }

  lemma WithdrawWholeBalancePlusOneThrows()
    ensures Withdraw(Fixture(), 1000.0 + 1.0).Failure?
    ensures Withdraw(Fixture(), 1000.0 + 1.0).error.ArgumentException?
  {
  }

  /** The same calls with a refused deposit second: the account object is left
      holding what the accepted withdrawal made of it, not the opening balance. */
  lemma RefusedDepositAfterWithdrawal()
    ensures Session.Run(Open(1000.0), [Session.WithdrawCall(500.0), Session.DepositCall(-1.0)])
            == Failure(Session.Halt(Account(500.0), ArgumentException(AmountNotPositive)))
  {
  }

  lemma DepositAfterWithdrawal()
    ensures Session.Run(Open(1000.0), [Session.WithdrawCall(500.0), Session.DepositCall(200.0)])
            == Success(Account(1000.0 - 500.0 + 200.0))
  {
  }
}
