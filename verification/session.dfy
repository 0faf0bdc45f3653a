/** A sequence of calls made on one account, in order, the way a test body drives
    the account object. The first refused call ends the sequence with its
    exception, as an uncaught ArgumentException ends the calling code; the
    account object then still holds what the calls accepted before it left. */
module Session {
  import opened Wrappers
  import opened BankAccount

  datatype Call = DepositCall(amount: real) | WithdrawCall(amount: real)

  /** How a run that hit a refused call ends: the account as the accepted calls
      before it left it, and the exception of the refused call. */
  datatype Halt = Halt(account: Account, error: Error)

  /** Performs one call on the account. */
  function Apply(a: Account, c: Call): (r: Result<Account, Error>) {
    match c
    case DepositCall(x) => Deposit(a, x)
    case WithdrawCall(x) => Withdraw(a, x)
  }

  /** The account as the caller sees it after one call: the new account on
      success, the unchanged one after an exception. */
  function Settle(a: Account, c: Call): (b: Account)
    ensures Apply(a, c).Failure? ==> b == a
    ensures Apply(a, c).Success? ==> b == Apply(a, c).value
    ensures Valid(a) ==> Valid(b)
  {
    match Apply(a, c)
    case Success(next) => next
    case Failure(_) => a
  }

  /** The signed effect of a call on the balance when it is accepted. */
  function Signed(c: Call): (delta: real) {
    match c
    case DepositCall(x) => x
    case WithdrawCall(x) => -x
  }

  /** Net change of the balance if every call in `cs` is accepted. */
  function Net(cs: seq<Call>): (delta: real) {
    if |cs| == 0 then 0.0 else Signed(cs[0]) + Net(cs[1..])
  }

  /** Whether the account accepts call `c` when its balance is `balance`,
      stated without reference to the operations themselves. */
  predicate Accepts(balance: real, c: Call) {
    c.amount > 0.0 && (c.WithdrawCall? ==> c.amount <= balance)
  }

  /** Performs the calls in order, stopping at the first failure. */
  function Run(a: Account, cs: seq<Call>): (r: Result<Account, Halt>)
    ensures Valid(a) && r.Success? ==> Valid(r.value)
    ensures Valid(a) && r.Failure? ==> Valid(r.error.account)
    ensures |cs| == 0 ==> r == Success(a)
    decreases |cs|
  {
    if |cs| == 0 then
      Success(a)
    else
      match Apply(a, cs[0])
      case Success(next) => Run(next, cs[1..])
      case Failure(e) => Failure(Halt(a, e))
  }

  /** A single call is accepted exactly when the reference condition holds, and
      then moves the balance by its signed amount. */
  lemma ApplyMatchesAccepts(a: Account, c: Call)
    ensures Apply(a, c).Success? <==> Accepts(Balance(a), c)
    ensures Apply(a, c).Success? ==> Balance(Apply(a, c).value) == Balance(a) + Signed(c)
  {
  }

  /** A successful run moves the balance by exactly the net amount of its calls. */
  lemma {:induction false} RunNet(a: Account, cs: seq<Call>)
    requires Run(a, cs).Success?
    ensures Balance(Run(a, cs).value) == Balance(a) + Net(cs)
    decreases |cs|
  {
    if |cs| > 0 {
      ApplyMatchesAccepts(a, cs[0]);
      var next := Apply(a, cs[0]).value;
      RunNet(next, cs[1..]);
    }
  }

  /** The net change of the first i + 1 calls is the first call's signed amount
      plus the net change of the next i. */
  lemma NetPrefixStep(cs: seq<Call>, i: nat)
    requires 0 < |cs| && i < |cs|
    ensures Net(cs[..i + 1]) == Signed(cs[0]) + Net(cs[1..][..i])
  {
    assert cs[..i + 1][1..] == cs[1..][..i];
  }

  /** Every call of `cs` is accepted at the balance that the calls before it
      leave behind, starting from `balance`. */
  predicate AllAccepted(balance: real, cs: seq<Call>) {
    forall i :: 0 <= i < |cs| ==> Accepts(balance + Net(cs[..i]), cs[i])
  }

  /** `AllAccepted` unfolds one call at a time. */
  lemma AllAcceptedStep(balance: real, cs: seq<Call>)
    requires |cs| > 0
    ensures AllAccepted(balance, cs) <==>
              Accepts(balance, cs[0]) && AllAccepted(balance + Signed(cs[0]), cs[1..])
  {
    var rest := cs[1..];
    var b' := balance + Signed(cs[0]);
    assert cs[..0] == [];
    forall i | 0 < i < |cs|
      ensures balance + Net(cs[..i]) == b' + Net(rest[..i - 1])
      ensures cs[i] == rest[i - 1]
    {
      NetPrefixStep(cs, i - 1);
    }
    if AllAccepted(balance, cs) {
      forall j | 0 <= j < |rest|
        ensures Accepts(b' + Net(rest[..j]), rest[j])
      {
        assert Accepts(balance + Net(cs[..j + 1]), cs[j + 1]);
      }
    }
    if Accepts(balance, cs[0]) && AllAccepted(b', rest) {
      forall i | 0 < i < |cs|
        ensures Accepts(balance + Net(cs[..i]), cs[i])
      {
        assert Accepts(b' + Net(rest[..i - 1]), rest[i - 1]);
      }
    }
  }

  /** A run succeeds exactly when every call is accepted at the balance that the
      calls before it leave behind. */
  lemma {:induction false} RunSucceedsIff(a: Account, cs: seq<Call>)
    ensures Run(a, cs).Success? <==> AllAccepted(Balance(a), cs)
    decreases |cs|
  {
    if |cs| > 0 {
      ApplyMatchesAccepts(a, cs[0]);
      AllAcceptedStep(Balance(a), cs);
      if Apply(a, cs[0]).Success? {
        RunSucceedsIff(Apply(a, cs[0]).value, cs[1..]);
      }
    }
  }

  /** A failed run stops at some call k: the calls before k all succeed and leave
      exactly the reported account, call k is refused with the reported exception,
      and settling that refused call leaves the account as it was. */
  lemma {:induction false} RunHaltsAtRefusedCall(a: Account, cs: seq<Call>)
    requires Run(a, cs).Failure?
    ensures exists k :: 0 <= k < |cs| && Run(a, cs[..k]) == Success(Run(a, cs).error.account)
                        && Apply(Run(a, cs).error.account, cs[k]) == Failure(Run(a, cs).error.error)
                        && Settle(Run(a, cs).error.account, cs[k]) == Run(a, cs).error.account
    decreases |cs|
  {
    var h := Run(a, cs).error;
    assert cs[..0] == [];
    if Apply(a, cs[0]).Success? {
      var next := Apply(a, cs[0]).value;
      RunHaltsAtRefusedCall(next, cs[1..]);
      var k :| 0 <= k < |cs[1..]| && Run(next, cs[1..][..k]) == Success(h.account)
               && Apply(h.account, cs[1..][k]) == Failure(h.error)
               && Settle(h.account, cs[1..][k]) == h.account;
      assert cs[..k + 1][0] == cs[0];
      assert cs[..k + 1][1..] == cs[1..][..k];
      assert Run(a, cs[..k + 1]) == Success(h.account);
      assert cs[k + 1] == cs[1..][k];
    } else {
      assert Run(a, cs[..0]) == Success(h.account);
    }
  }

  /** Running two sequences back to back is running their concatenation. */
  lemma {:induction false} RunAppend(a: Account, xs: seq<Call>, ys: seq<Call>)
    ensures Run(a, xs + ys) ==
              match Run(a, xs)
              case Success(b) => Run(b, ys)
              case Failure(h) => Failure(h)
    decreases |xs|
  {
    if |xs| == 0 {
      assert xs + ys == ys;
    } else {
      assert (xs + ys)[0] == xs[0];
      assert (xs + ys)[1..] == xs[1..] + ys;
      if Apply(a, xs[0]).Success? {
        RunAppend(Apply(a, xs[0]).value, xs[1..], ys);
      }
    }
  }
}
