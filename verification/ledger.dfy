/**
 The ledger as one state machine: every request the routes accept is an `Op`,
 applied as a single indivisible unit of work that either commits its new state
 or rolls back to the old one. Over any sequence of requests the ledger
 invariant holds and the transaction log only grows.
 */
module Ledger {
  import opened LedgerState
  import Transactions
  import Wallet
  import Watchlist

  /** A request that changes (or may create) state. */
  datatype Op =
    | BuyStock(stockId: int, quantity: nat, price: real)
    | SellStock(stockId: int, quantity: nat, price: real)
    | DepositCash(amount: real)
    | WithdrawCash(amount: real)
    | ReadWallet
    | Watch(stockId: int, stockName: string)
    | Unwatch(stockId: int)

  /** The checks the browser makes before it sends a trade: at least one share, a positive price. */
  predicate Admissible(op: Op)
  {
    (op.BuyStock? || op.SellStock?) ==> op.quantity >= 1 && op.price > 0.0
  }

  /** The state after a request, and the error it reported, if any. */
  datatype Response = Response(state: State, failure: Option<Error>)

  /** Commit on success, roll back on failure. */
  function Settle(s: State, r: Result<State>): Response
  {
    Response(Commit(s, r), if r.Err? then Some(r.error) else None)
  }

  /** One request as a unit of work. */
  function Apply(s: State, op: Op): (r: Response)
    requires Valid(s) && Admissible(op)
    // the invariant holds after every request
    ensures Valid(r.state)
    // a failed request leaves everything as it was
    ensures r.failure.Some? ==> r.state == s
    // the log is append-only, and only a trade appends to it
    ensures s.log <= r.state.log
    ensures !(op.BuyStock? || op.SellStock?) ==> r.state.log == s.log
    // the holdings change only through trades
    ensures !(op.BuyStock? || op.SellStock?) ==> r.state.holdings == s.holdings
  {
    match op
    case BuyStock(id, q, p) => Settle(s, Transactions.Buy(s, id, q, p))
    case SellStock(id, q, p) => Settle(s, Transactions.Sell(s, id, q, p))
    case DepositCash(amount) => Settle(s, Wallet.Deposit(s, amount))
    case WithdrawCash(amount) => Settle(s, Wallet.Withdraw(s, amount))
    case ReadWallet => Response(Wallet.ReadBalance(s).state, None)
    case Watch(id, name) =>
      var r := Watchlist.Add(s.watchlist, id, name);
      if r.Ok? then Response(s.(watchlist := r.value), None) else Response(s, Some(r.error))
    case Unwatch(id) => Response(s.(watchlist := Watchlist.Remove(s.watchlist, id)), None)
  }

  /** A sequence of requests, one after the other. */
  function Run(s: State, ops: seq<Op>): (s': State)
    requires Valid(s)
    requires forall i :: 0 <= i < |ops| ==> Admissible(ops[i])
    ensures Valid(s')
    ensures s.log <= s'.log
    decreases |ops|
  {
    if ops == [] then s else Run(Apply(s, ops[0]).state, ops[1..])
  }

  /**
   From a fresh database, whatever requests arrive, the balance never goes
   negative and every held stock has a positive quantity and a positive cost basis.
   */
  lemma ReachableStatesAreValid(ops: seq<Op>)
    requires forall i :: 0 <= i < |ops| ==> Admissible(ops[i])
    ensures Run(Init, ops).wallet.Some? ==> Run(Init, ops).wallet.value >= 0.0
    ensures forall k :: k in Run(Init, ops).holdings ==> Run(Init, ops).holdings[k].quantity > 0
    // the rows Buy and Sell divide by are always well formed
    ensures WellFormed(Run(Init, ops).holdings)
  {
    InitIsValid();
  }

  /** After a successful buy, the history listing shows it first. */
  lemma BuyHeadsHistory(s: State, id: int, q: nat, p: real)
    requires q >= 1 && p > 0.0 && WellFormed(s.holdings)
    requires Transactions.Buy(s, id, q, p).Ok?
    ensures Transactions.NewestFirst(Transactions.Buy(s, id, q, p).value.log)
         == [Tx(id, p, q, Cost(q, p), TxKind.Buy)] + Transactions.NewestFirst(s.log)
  {
    Transactions.NewestFirstAppend(s.log, Tx(id, p, q, Cost(q, p), TxKind.Buy));
  }
}
