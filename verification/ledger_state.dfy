/**
 The persisted state of the portfolio ledger and the vocabulary shared by the
 route handlers: the singleton wallet row, the holdings table keyed by stock id,
 the append-only transaction log and the watchlist.

 Every handler is modelled as a pure transition from one `State` to a
 `Result<State>`; an `Err` stands for the SQL rollback, so the caller keeps the
 state it had before the call (see `Commit`).
 */
module LedgerState {

  datatype Option<+T> = None | Some(value: T)

  /** The failures the handlers report to their callers. */
  datatype Error =
    | InvalidAmount          // a deposit or withdrawal of zero or less
    | InsufficientBalance    // a buy or withdrawal larger than the wallet
    | InsufficientHoldings   // a sell of a stock not held, or of too many shares
    | AlreadyInWatchlist     // a second watchlist entry for the same stock
    | MissingWallet          // no wallet row yet: reading its balance throws

  /** The text each handler puts in the `error` field of its response. */
  function Message(e: Error): string
  {
    match e
    case InvalidAmount => "Invalid amount"
    case InsufficientBalance => "Insufficient balance"
    case InsufficientHoldings => "Insufficient holdings"
    case AlreadyInWatchlist => "Stock already in watchlist"
    case MissingWallet => "Cannot read properties of undefined (reading 'balance')"
  }

  /** Different failures carry different texts, so a client can tell them apart by the text alone. */
  lemma MessagesDistinct(a: Error, b: Error)
    ensures Message(a) == Message(b) <==> a == b
  {
  }

  datatype Result<+T> = Ok(value: T) | Err(error: Error)

  datatype TxKind = Sell | Buy

  /** The `transaction_type` column: 1 for a buy, 0 for a sell. */
  function TypeCode(k: TxKind): nat
  {
    match k
    case Sell => 0
    case Buy => 1
  }

  /** One row of the transaction log. */
  datatype Tx = Tx(stockId: int, price: real, quantity: nat, totalPrice: real, kind: TxKind)

  /**
   One row of the holdings table. The cost basis `totalPriceBought` is what the
   currently held shares cost in total; the average buy price is derived from it.
   */
  datatype Holding = Holding(
    quantity: nat,
    totalPriceBought: real,
    totalCurrentValue: real,
    profitLoss: real,
    profitLossPercentage: real)

  /** One row of the watchlist. */
  datatype Entry = Entry(stockId: int, stockName: string)

  /**
   The whole ledger. `wallet` is `None` until the wallet row exists; `log` is in
   chronological order; `watchlist` is newest first.
   */
  datatype State = State(
    wallet: Option<real>,
    holdings: map<int, Holding>,
    log: seq<Tx>,
    watchlist: seq<Entry>)

  /** A fresh database: no wallet row, no holdings, no transactions, nothing watched. */
  const Init := State(None, map[], [], [])

  /** `total_price = quantity * price`. */
  function Cost(quantity: nat, price: real): real
  {
    quantity as real * price
  }

  /** Average buy price of a holding; never stored, always derived. */
  function AvgBuyPrice(h: Holding): real
    requires h.quantity > 0
  {
    h.totalPriceBought / h.quantity as real
  }

  /** What the trade handlers need of every row to keep their divisions defined. */
  predicate WellFormed(holdings: map<int, Holding>)
  {
    forall k :: k in holdings ==> holdings[k].quantity > 0 && holdings[k].totalPriceBought > 0.0
  }

  /** A row whose derived columns agree with its quantity and cost basis. */
  predicate HoldingConsistent(h: Holding)
  {
    && h.quantity > 0
    && h.totalPriceBought > 0.0
    && h.profitLoss == h.totalCurrentValue - h.totalPriceBought
    && h.profitLossPercentage == h.profitLoss / h.totalPriceBought * 100.0
  }

  predicate TxConsistent(t: Tx)
  {
    t.quantity >= 1 && t.price > 0.0 && t.totalPrice == Cost(t.quantity, t.price)
  }

  /** At most one watchlist entry per stock. */
  predicate UniqueIds(w: seq<Entry>)
  {
    forall i, j :: 0 <= i < j < |w| ==> w[i].stockId != w[j].stockId
  }

  /**
   The ledger invariant: the balance is never negative, every holding row is
   consistent, every logged trade is well formed, the watchlist has no
   duplicates, and nothing has been traded before the wallet row exists.
   */
  predicate Valid(s: State)
  {
    && (s.wallet.Some? ==> s.wallet.value >= 0.0)
    && (s.wallet.None? ==> s.holdings == map[] && s.log == [])
    && (forall k :: k in s.holdings ==> HoldingConsistent(s.holdings[k]))
    && (forall i :: 0 <= i < |s.log| ==> TxConsistent(s.log[i]))
    && UniqueIds(s.watchlist)
  }

  /** The unit of work: a successful handler commits its new state, a failed one rolls back. */
  function Commit(s: State, r: Result<State>): State
  {
    if r.Ok? then r.value else s
  }

  lemma InitIsValid()
    ensures Valid(Init)
  {
  }
}
