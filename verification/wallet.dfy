/**
 The wallet routes (routes/wallet.js): reading the balance, which creates the
 wallet row with balance 0 on first access, and depositing or withdrawing cash.
 Both money routes touch only the balance.
 */
module Wallet {
  import opened LedgerState

  /** What `GET /` answers, together with the state it leaves behind. */
  datatype Reading = Reading(state: State, balance: real)

  /** `GET /`: the balance, creating a zero-balance wallet row when there is none. */
  function ReadBalance(s: State): (r: Reading)
    // afterwards the row exists and holds the balance reported
    ensures r.state.wallet == Some(r.balance)
    // an existing row is reported as it is and nothing changes
    ensures s.wallet.Some? ==> r.state == s && r.balance == s.wallet.value
    // a missing row is created empty; holdings, log and watchlist are untouched
    ensures s.wallet.None? ==> r.balance == 0.0
    ensures r.state.holdings == s.holdings && r.state.log == s.log && r.state.watchlist == s.watchlist
    ensures Valid(s) ==> Valid(r.state)
  {
    match s.wallet
    case Some(balance) => Reading(s, balance)
    case None => Reading(s.(wallet := Some(0.0)), 0.0)
  }

  /**
   `POST /add`. Amounts of zero or less are refused. Without a wallet row the
   update matches no row, so the call succeeds and nothing changes.
   */
  function Deposit(s: State, amount: real): (r: Result<State>)
    ensures r.Err? <==> amount <= 0.0
    ensures r.Err? ==> r.error == InvalidAmount
    // only the balance changes, and it rises by exactly the amount
    ensures r.Ok? ==> r.value.holdings == s.holdings && r.value.log == s.log && r.value.watchlist == s.watchlist
    ensures r.Ok? ==> r.value.wallet.Some? == s.wallet.Some?
    ensures r.Ok? && s.wallet.Some? ==> r.value.wallet.value == s.wallet.value + amount
    ensures r.Ok? && Valid(s) ==> Valid(r.value)
  {
    if amount <= 0.0 then
      Err(InvalidAmount)
    else
      match s.wallet
      case None => Ok(s)
      case Some(balance) => Ok(s.(wallet := Some(balance + amount)))
  }

  /**
   `POST /withdraw`. Amounts of zero or less are refused first, then a missing
   wallet row (reading its balance throws), then a balance below the amount.
   */
  function Withdraw(s: State, amount: real): (r: Result<State>)
    ensures r.Err? <==> amount <= 0.0 || s.wallet.None? || s.wallet.value < amount
    ensures r.Err? ==>
      r.error == (if amount <= 0.0 then InvalidAmount
                  else if s.wallet.None? then MissingWallet
                  else InsufficientBalance)
    // only the balance changes; it falls by exactly the amount and stays non-negative
    ensures r.Ok? ==> r.value.holdings == s.holdings && r.value.log == s.log && r.value.watchlist == s.watchlist
    ensures r.Ok? ==> r.value.wallet.Some? && r.value.wallet.value == s.wallet.value - amount
    ensures r.Ok? ==> r.value.wallet.value >= 0.0
    ensures r.Ok? && Valid(s) ==> Valid(r.value)
  {
    if amount <= 0.0 then
      Err(InvalidAmount)
    else
      match s.wallet
      case None => Err(MissingWallet)
      case Some(balance) =>
        if balance < amount then Err(InsufficientBalance)
        else Ok(s.(wallet := Some(balance - amount)))
  }

  /** Reading the balance twice is the same as reading it once. */
  lemma ReadBalanceIdempotent(s: State)
    ensures ReadBalance(ReadBalance(s).state) == ReadBalance(s)
  {
  }

  /** Withdrawing what was just deposited restores the state exactly. */
  lemma DepositThenWithdraw(s: State, amount: real)
    requires s.wallet.Some? && s.wallet.value >= 0.0 && amount > 0.0
    ensures Deposit(s, amount).Ok?
    ensures Withdraw(Deposit(s, amount).value, amount) == Ok(s)
  {
    var b := s.wallet.value;
    var s1 := s.(wallet := Some(b + amount));
    assert Deposit(s, amount) == Ok(s1);
    assert s1.(wallet := Some(b + amount - amount)) == s;
  }

  /** Depositing what was just withdrawn restores the state exactly. */
  lemma WithdrawThenDeposit(s: State, amount: real)
    requires Withdraw(s, amount).Ok?
    ensures Deposit(Withdraw(s, amount).value, amount) == Ok(s)
  {
  }
}
