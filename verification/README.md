# Portfolio ledger — a Dafny model

This project models the core of a single-user stock-trading simulator. The core
is the portfolio ledger. Its state has four parts:

- one wallet balance;
- a holdings table keyed by stock id, one row per stock currently owned;
- an append-only transaction log;
- a watchlist.

Each HTTP handler under `routes/` becomes a pure transition from a `State` to a
`Result<State>`. An `Err` plays the part of the SQL rollback, so the caller keeps
the state it had (`LedgerState.Commit`, `Ledger.Apply`).

Money and prices are Dafny `real`s, which are exact rationals. Quantities are
`nat`s. Holdings use weighted-average-cost accounting:

- a buy adds `quantity * price` to the row's cost basis;
- a partial sell shrinks the cost basis to `newQuantity * (cost / quantity)`, which keeps the average buy price unchanged;
- selling the whole position deletes the row.

Files, one module each:

- `ledger_state.dfy` (`LedgerState`): entities, errors, the ledger invariant `Valid`, and commit/rollback.
- `transactions.dfy` (`Transactions`): `POST /buy`, `POST /sell`, the newest-first history, and the round-trip lemmas.
- `wallet.dfy` (`Wallet`): `GET /` with lazy wallet creation, deposit, withdraw.
- `watchlist.dfy` (`Watchlist`): add, idempotent remove, newest-first listing.
- `portfolio.dfy` (`Portfolio`): the holdings listing by value and the summary aggregates.
- `ledger.dfy` (`Ledger`): all requests as one state machine; the invariant over any request sequence.

The model follows the code, including where it behaves unexpectedly:

- **Missing wallet row.** The wallet row exists only after `GET /wallet` has run once.
  - A buy or a withdraw before that fails, because reading `walletRows[0].balance` throws (`MissingWallet`).
  - A deposit before that succeeds, but its update matches no row, so nothing changes.
  - A sell before that also credits nothing, but the invariant `Valid` rules this case out: nothing can be held before the wallet row exists.
- **No stock check.** No handler checks that the stock id exists, so the model has no `NotFound` error.
- **Empty summary.** With no holdings the summary route returns nulls, not zeros (see Findings).

## Model

| member | source | states |
|---|---|---|
| `Transactions.Buy` | routes/transactions.js:21-76 | Fails iff there is no wallet row or the balance is below `q*p`. The balance error is "Insufficient balance". On success: the balance drops by exactly `q*p` and stays ≥ 0; exactly one type-1 entry is appended; only this stock's row changes. A new row is `(q, q*p, q*p, 0, 0)`. An existing row gets `q` added to its quantity and `q*p` added to its cost, is re-marked at `p`, and stays consistent. Rows stay well formed, and `Valid` is preserved. |
| `Transactions.Sell` | routes/transactions.js:79-131 | Fails with "Insufficient holdings" iff the stock is not held or fewer than `q` shares are held. On success: the wallet gains exactly `q*p`; one type-0 entry is appended; only this stock's row changes. The row survives iff shares remain. A surviving row has the reduced quantity and the same average buy price, is re-marked at `p`, and stays consistent. `Valid` is preserved. |
| `Transactions.Bought` | routes/transactions.js:47-65 | The row after a buy: the old quantity plus `q`, the old cost plus `q*p`, value `newQty*p`. P/L is value minus cost, and the percentage is P/L over cost times 100. |
| `Transactions.Sold` | routes/transactions.js:110-120 | The row after a partial sell: the quantity drops by `q`, the average buy price `cost/qty` is unchanged, the value is `newQty*p`, and the derived columns stay consistent. |
| `Transactions.BuyOpensPosition` | routes/transactions.js:47-52 | A buy of a stock not yet held yields exactly this state: the balance minus `q*p`, a row `(q, q*p, q*p, 0, 0)`, and one log entry appended. |
| `Transactions.SellKeepsPosition` | routes/transactions.js:104-120 | A sell that leaves shares yields exactly this state: the balance plus `q*p`, the row replaced by the pro-rata row, and one log entry appended. |
| `Transactions.BuyThenSellRestoresBalance` | routes/transactions.js:27-94 | After a successful buy, a sell of the same quantity at the same price succeeds and restores the wallet exactly. |
| `Transactions.BuyThenSellRestoresHoldings` | routes/transactions.js:47-108 | If the stock was not held before, that round trip also restores the holdings table exactly: no residual row. |
| `Transactions.BuyTwiceThenSellAllCloses` | routes/transactions.js:55-108 | Two buys of a stock not held, followed by a sell of their combined quantity, delete the row. |
| `Transactions.WorkedExampleBuy` | routes/transactions.js:27-52 | From a balance of 1000, buying 10 at 50 leaves 500 and the row (10, 500, 500, 0, 0). |
| `Transactions.WorkedExampleSell` | routes/transactions.js:85-120 | Then selling 4 at 60 leaves 740 and the row (6, 300, 360, 60, 20%). |
| `Transactions.NewestFirst` | routes/transactions.js:6-18 | The history listing is the log reversed: position `i` shows the entry `i` places from the end. |
| `Transactions.NewestFirstAppend` | routes/transactions.js:12 | Appending an entry puts it at the head of the history, ahead of the earlier history. |
| `Ledger.BuyHeadsHistory` | routes/transactions.js:39-42 | After a successful buy, its entry heads the history listing, followed by the previous history. |
| `LedgerState.MessagesDistinct` | routes/transactions.js:31-32 | The handlers report five different failure texts: "Insufficient balance" (`transactions.js:32`, `wallet.js:45`), "Insufficient holdings" (`transactions.js:90`), "Invalid amount" (`wallet.js:24`, `:40`), "Stock already in watchlist" (`watchlist.js:29`), and the runtime's message when reading `walletRows[0].balance` finds no wallet row (`transactions.js:31`, `wallet.js:44`). Two failures have the same text iff they are the same failure, so a client can tell them apart by the text alone. |
| `Wallet.ReadBalance` | routes/wallet.js:6-17 | Afterwards the wallet row exists and holds the reported balance. An existing row is reported unchanged. A missing row is created with balance 0. Nothing else changes, and `Valid` is preserved. |
| `Wallet.ReadBalanceIdempotent` | routes/wallet.js:8-11 | Reading twice is the same as reading once: the row is created at most once. |
| `Wallet.Deposit` | routes/wallet.js:20-33 | Fails with "Invalid amount" iff `amount ≤ 0`. Otherwise only the balance changes, by exactly `+amount`, and a missing row stays missing. |
| `Wallet.Withdraw` | routes/wallet.js:36-54 | Fails iff `amount ≤ 0` (Invalid amount), there is no wallet row, or `balance < amount` (Insufficient balance), checked in that order. Otherwise only the balance changes, by exactly `-amount`, and it stays ≥ 0. |
| `Wallet.DepositThenWithdraw` | routes/wallet.js:27-48 | Withdrawing what was just deposited restores the state exactly. |
| `Wallet.WithdrawThenDeposit` | routes/wallet.js:27-48 | Depositing what was just withdrawn restores the state exactly. |
| `Watchlist.Add` | routes/watchlist.js:22-37 | Fails with "Stock already in watchlist" iff the stock is watched. Otherwise exactly one entry is put in front and the older entries keep their order. Uniqueness is preserved. |
| `Watchlist.Remove` | routes/watchlist.js:40-47 | Never fails. Afterwards the stock is not watched. The entries kept are exactly those for other stocks. Uniqueness is preserved. |
| `Watchlist.RemoveAbsent` | routes/watchlist.js:42 | Removing a stock that is not watched changes nothing. |
| `Watchlist.RemoveIdempotent` | routes/watchlist.js:40-47 | Removing twice equals removing once. |
| `Watchlist.RemoveKeepsOrder` | routes/watchlist.js:42 | In a duplicate-free watchlist, removing the stock at position `i` yields `w[..i] + w[i+1..]`: every other entry keeps its order. |
| `Watchlist.RemoveKeepsHead` | routes/watchlist.js:42 | An entry for another stock ahead of the removed one stays at the front, with the rest of the list after it. |
| `Watchlist.AddThenRemove` | routes/watchlist.js:32-42 | Removing a stock just added restores the watchlist. |
| `Watchlist.RemoveThenAdd` | routes/watchlist.js:27-32 | After a remove, adding the stock again succeeds. |
| `Watchlist.AddListsFirst` | routes/watchlist.js:6-19 | The `GET /` listing (`Watchlist.Listing`, one row per entry with the latest price the price source reports for its stock) shows the stock added last first, ahead of the listing as it was before. |
| `Portfolio.TotalRemove` | routes/holdings.js:25-28 | A column sum over the holdings does not depend on visiting order: any row can be taken first. |
| `Portfolio.TotalProfitLoss` | routes/holdings.js:27 | When every row's P/L is its value minus its cost, `SUM(profit_loss) = SUM(total_current_value) - SUM(total_price_bought)`. |
| `Portfolio.TotalPositive` | routes/holdings.js:26 | With positive row costs, `SUM(total_price_bought)` is ≥ 0, and > 0 when anything is held. |
| `Portfolio.ComputeSummary` | routes/holdings.js:21-35 | `total_value`, `total_invested` and `total_profit_loss` are the column sums. The average percentage is the unweighted mean of the row percentages. An empty portfolio gives all zeros. |
| `Portfolio.SummaryOfValidState` | routes/holdings.js:25-27 | For a valid ledger, total P/L equals total value minus total invested, and total invested is ≥ 0. |
| `Portfolio.SummaryResponse` | routes/holdings.js:22-31 | The aggregate query (`Portfolio.AggregateRow`, what SQL `SUM`/`AVG` without `GROUP BY` return: one row, all nulls over no holdings) always yields a row. So, as written, the route's answer is always that row, and the zero fallback is never reached. |
| `Portfolio.EmptySummaryIsNull` | routes/holdings.js:31 | With no holdings the route answers nulls, not zeros. |
| `Portfolio.DashboardFigures` | public/js/app.js:166-174 | The dashboard turns nulls into zeros, and the figures it shows equal the intended summary (`ComputeSummary`), zeros included. |
| `Portfolio.ListingStep` | routes/holdings.js:12 | Appending a largest remaining holding to a partial listing keeps it sorted, duplicate-free and faithful to the table. |
| `Portfolio.Listing` | routes/holdings.js:6-18 | Every holding is listed exactly once, as stored, in descending order of current value. |
| `Ledger.Apply` | routes/transactions.js:22-75 | Every admissible request keeps `Valid`. A failed request leaves the state unchanged. The log only grows, and only trades append to it. Holdings change only through trades. |
| `Ledger.Run` | routes/transactions.js:68-72 | Over any sequence of admissible requests, `Valid` holds throughout and the old log is a prefix of the new one. |
| `Ledger.ReachableStatesAreValid` | routes/transactions.js:31-36 | From a fresh database, whatever requests arrive, the balance is never negative and every held stock has a positive quantity and a positive cost basis. |

## Left out

- `server.js` and the Express/SQL layer are not modelled: routing, the connection pool, JSON bodies, HTTP status codes. Each handler is one pure function.
- `routes/stocks.js` (the price catalog and search) is not part of this model. The trade price is a caller-supplied parameter. The watchlist's latest price is a function parameter (`latest`).
- Joins with the `stocks` table are not modelled. The listings would drop rows whose stock is not in the catalog. A foreign-key failure on an unknown stock id is also not modelled.
- Timestamps (`date`, `added_at`) are not modelled. Order is position in a sequence. Rows with equal timestamps, or holdings with equal value, come in no particular order.
- Concurrency is left out. So is the non-atomic read-then-write of `wallet.js:43-48`. Each request is one indivisible transition.
- JavaScript coercion of request bodies (`!amount`, strings for numbers) is replaced by typed `real`/`nat` inputs.
- Floating-point arithmetic, the database's decimal column precision and the width of its numeric columns are not modelled. Money is an exact rational and quantities are unbounded `nat`s, so a quantity beyond the range of the `INT` column, and the write error the database would then raise, are outside the model.
- The client-side checks of `public/js/app.js:612-618` are the `requires` `quantity ≥ 1 ∧ price > 0` on buy and sell. The client actually demands `price ≥ 0.01`, which is stronger.
- `Transactions.Buy` and `Transactions.Sell` also require every holding row to have a positive quantity and cost. Every reachable state satisfies this (`Ledger.ReachableStatesAreValid`), and it keeps the divisions of `routes/transactions.js:60` and `:111-115` defined.
- The wallet route reads `LIMIT 1`; the other routes read `id = 1`. The model has a single wallet row and treats these as the same row.
- `LedgerState.Message` gives the error texts (see `LedgerState.MessagesDistinct`). For a missing wallet row the text is the runtime's `TypeError` message in the wording of current Node releases; older releases word it "Cannot read property 'balance' of undefined". HTTP status codes (400 or 500) are not modelled.
- Values read back from the database are assumed to be numbers. With the `mysql2` driver's defaults, `DECIMAL` columns come back as strings. Then `holding.total_price_bought + total_price` at `routes/transactions.js:57` would join strings (`"500.00" + 240` gives `"500.00240"`) instead of adding. The schema and the database configuration are not part of this model, so this cannot be settled here. The model states the intended numeric addition.

## Findings

| source | as written | input that shows it | evidently intended | confidence | as-written member | corrected member |
|---|---|---|---|---|---|---|
| routes/holdings.js:31 | `rows[0] \|\| {zeros}`. An aggregate query without `GROUP BY` always returns one row, so the fallback is dead. With no holdings every field is `NULL`. | an empty holdings table | all four summary fields are 0 when nothing is held | medium, not executed | `Portfolio.EmptySummaryIsNull` | `Portfolio.ComputeSummary` |
