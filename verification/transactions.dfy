/**
 Buying and selling (routes/transactions.js). Both handlers move
 `quantity * price` between the wallet and a position, append one log entry and
 maintain the holding under weighted-average-cost accounting: a buy adds to the
 cost basis, a partial sell shrinks it pro rata at the current average buy
 price, and a sell of the whole position deletes the row.
 */
module Transactions {
  import opened LedgerState

  /** The row for a stock after buying `q` shares at `p`, given its row before (if any). */
  function Bought(prior: Option<Holding>, q: nat, p: real): (h: Holding)
    requires q >= 1 && p > 0.0
    requires prior.Some? ==> prior.value.totalPriceBought > 0.0
    ensures h.quantity == (if prior.Some? then prior.value.quantity else 0) + q
    ensures h.totalPriceBought == (if prior.Some? then prior.value.totalPriceBought else 0.0) + Cost(q, p)
    ensures h.totalCurrentValue == Cost(h.quantity, p)
    ensures HoldingConsistent(h)
  {
    match prior
    case None =>
      Holding(q, Cost(q, p), Cost(q, p), 0.0, 0.0)
    case Some(prev) =>
      var newQuantity := prev.quantity + q;
      var newTotalPriceBought := prev.totalPriceBought + Cost(q, p);
      var newCurrentValue := Cost(newQuantity, p);
      var profitLoss := newCurrentValue - newTotalPriceBought;
      Holding(newQuantity, newTotalPriceBought, newCurrentValue, profitLoss,
              profitLoss / newTotalPriceBought * 100.0)
  }

  /** The row for a stock after selling `q` of its shares at `p`, when some remain. */
  function Sold(prev: Holding, q: nat, p: real): (h: Holding)
    requires prev.quantity > q
    requires prev.totalPriceBought > 0.0
    ensures h.quantity == prev.quantity - q
    ensures AvgBuyPrice(h) == AvgBuyPrice(prev)
    ensures h.totalCurrentValue == Cost(h.quantity, p)
    ensures HoldingConsistent(h)
  {
    var newQuantity: nat := prev.quantity - q;
    var avgBuyPrice := AvgBuyPrice(prev);
    var newTotalPriceBought := newQuantity as real * avgBuyPrice;
    assert newTotalPriceBought > 0.0 by {
      assert avgBuyPrice > 0.0;
    }
    var newCurrentValue := Cost(newQuantity, p);
    var profitLoss := newCurrentValue - newTotalPriceBought;
    Holding(newQuantity, newTotalPriceBought, newCurrentValue, profitLoss,
            profitLoss / newTotalPriceBought * 100.0)
  }

  function Lookup(holdings: map<int, Holding>, id: int): Option<Holding>
  {
    if id in holdings then Some(holdings[id]) else None
  }

  /** `POST /buy`: pay `q * p` out of the wallet for `q` shares of stock `id`. */
  function Buy(s: State, id: int, q: nat, p: real): (r: Result<State>)
    requires q >= 1 && p > 0.0
    requires WellFormed(s.holdings)
    // fails exactly when there is no wallet row or it holds less than the price
    ensures r.Err? <==> s.wallet.None? || s.wallet.value < Cost(q, p)
    ensures r.Err? ==> r.error == (if s.wallet.None? then MissingWallet else InsufficientBalance)
    // the balance drops by exactly the price and cannot go below zero
    ensures r.Ok? ==> r.value.wallet.Some? && r.value.wallet.value == s.wallet.value - Cost(q, p)
    ensures r.Ok? ==> r.value.wallet.value >= 0.0
    // one buy entry is appended and nothing earlier changes
    ensures r.Ok? ==> r.value.log == s.log + [Tx(id, p, q, Cost(q, p), TxKind.Buy)]
    ensures r.Ok? ==> TypeCode(r.value.log[|r.value.log| - 1].kind) == 1
    ensures r.Ok? ==> r.value.watchlist == s.watchlist
    // only the bought stock's row changes, and it now exists
    ensures r.Ok? ==> r.value.holdings - {id} == s.holdings - {id} && id in r.value.holdings
    ensures r.Ok? && id !in s.holdings ==>
      r.value.holdings[id] == Holding(q, Cost(q, p), Cost(q, p), 0.0, 0.0)
    ensures r.Ok? && id in s.holdings ==>
      && r.value.holdings[id].quantity == s.holdings[id].quantity + q
      && r.value.holdings[id].totalPriceBought == s.holdings[id].totalPriceBought + Cost(q, p)
      && r.value.holdings[id].totalCurrentValue == Cost(r.value.holdings[id].quantity, p)
      && HoldingConsistent(r.value.holdings[id])
    // the invariants survive
    ensures r.Ok? ==> WellFormed(r.value.holdings)
    ensures r.Ok? && Valid(s) ==> Valid(r.value)
  {
    if s.wallet.None? then
      Err(MissingWallet)
    else if s.wallet.value < Cost(q, p) then
      Err(InsufficientBalance)
    else
      var h := Bought(Lookup(s.holdings, id), q, p);
      Ok(s.(wallet := Some(s.wallet.value - Cost(q, p)),
            log := s.log + [Tx(id, p, q, Cost(q, p), TxKind.Buy)],
            holdings := s.holdings[id := h]))
  }

  /** `POST /sell`: credit `q * p` to the wallet for `q` held shares of stock `id`. */
  function Sell(s: State, id: int, q: nat, p: real): (r: Result<State>)
    requires q >= 1 && p > 0.0
    requires WellFormed(s.holdings)
    // fails exactly when the stock is not held or fewer than q shares are
    ensures r.Err? <==> id !in s.holdings || s.holdings[id].quantity < q
    ensures r.Err? ==> r.error == InsufficientHoldings
    // the wallet, when its row exists, gains exactly the proceeds
    ensures r.Ok? ==> r.value.wallet.Some? == s.wallet.Some?
    ensures r.Ok? && s.wallet.Some? ==> r.value.wallet.value == s.wallet.value + Cost(q, p)
    // one sell entry is appended and nothing earlier changes
    ensures r.Ok? ==> r.value.log == s.log + [Tx(id, p, q, Cost(q, p), TxKind.Sell)]
    ensures r.Ok? ==> TypeCode(r.value.log[|r.value.log| - 1].kind) == 0
    ensures r.Ok? ==> r.value.watchlist == s.watchlist
    // only the sold stock's row changes; it survives exactly when shares remain
    ensures r.Ok? ==> r.value.holdings - {id} == s.holdings - {id}
    ensures r.Ok? ==> (id in r.value.holdings <==> s.holdings[id].quantity > q)
    // a partial sell keeps the average buy price and re-marks the value at p
    ensures r.Ok? && id in r.value.holdings ==>
      && r.value.holdings[id].quantity == s.holdings[id].quantity - q
      && AvgBuyPrice(r.value.holdings[id]) == AvgBuyPrice(s.holdings[id])
      && r.value.holdings[id].totalCurrentValue == Cost(r.value.holdings[id].quantity, p)
      && HoldingConsistent(r.value.holdings[id])
    // the invariants survive
    ensures r.Ok? ==> WellFormed(r.value.holdings)
    ensures r.Ok? && Valid(s) ==> Valid(r.value)
  {
    if id !in s.holdings || s.holdings[id].quantity < q then
      Err(InsufficientHoldings)
    else
      var prev := s.holdings[id];
      var newQuantity := prev.quantity - q;
      var holdings := if newQuantity == 0 then s.holdings - {id} else s.holdings[id := Sold(prev, q, p)];
      Ok(s.(wallet := if s.wallet.Some? then Some(s.wallet.value + Cost(q, p)) else None,
            log := s.log + [Tx(id, p, q, Cost(q, p), TxKind.Sell)],
            holdings := holdings))
  }

  /** `GET /`: the log newest first. */
  function NewestFirst<T>(log: seq<T>): (r: seq<T>)
    ensures |r| == |log|
    ensures forall i :: 0 <= i < |log| ==> r[i] == log[|log| - 1 - i]
  {
    if log == [] then [] else [log[|log| - 1]] + NewestFirst(log[..|log| - 1])
  }

  /** The history listing shows the latest trade first, followed by the earlier history. */
  lemma {:induction false} NewestFirstAppend<T>(log: seq<T>, t: T)
    ensures NewestFirst(log + [t]) == [t] + NewestFirst(log)
  {
    var r := NewestFirst(log + [t]);
    assert (log + [t])[..|log|] == log;
    assert r == [t] + NewestFirst(log);
  }

  /**
   Money conservation under a symmetric round trip: buying q shares at p and
   selling them again at the same price restores the balance exactly.
   */
  lemma BuyThenSellRestoresBalance(s: State, id: int, q: nat, p: real)
    requires q >= 1 && p > 0.0
    requires WellFormed(s.holdings)
    requires Buy(s, id, q, p).Ok?
    ensures Sell(Buy(s, id, q, p).value, id, q, p).Ok?
    ensures Sell(Buy(s, id, q, p).value, id, q, p).value.wallet == s.wallet
  {
  }

  /** A round trip on a stock not held before also leaves no holding behind. */
  lemma BuyThenSellRestoresHoldings(s: State, id: int, q: nat, p: real)
    requires q >= 1 && p > 0.0
    requires WellFormed(s.holdings)
    requires id !in s.holdings
    requires Buy(s, id, q, p).Ok?
    ensures Sell(Buy(s, id, q, p).value, id, q, p).Ok?
    ensures Sell(Buy(s, id, q, p).value, id, q, p).value.holdings == s.holdings
  {
    var s1 := Buy(s, id, q, p).value;
    var s2 := Sell(s1, id, q, p).value;
    assert s2.holdings == s1.holdings - {id};
  }

  /** Buying twice and then selling the combined quantity closes the position. */
  lemma BuyTwiceThenSellAllCloses(s: State, id: int, q1: nat, q2: nat, p1: real, p2: real, p3: real)
    requires q1 >= 1 && q2 >= 1 && p1 > 0.0 && p2 > 0.0 && p3 > 0.0
    requires WellFormed(s.holdings)
    requires id !in s.holdings
    requires Buy(s, id, q1, p1).Ok?
    requires Buy(Buy(s, id, q1, p1).value, id, q2, p2).Ok?
    ensures Sell(Buy(Buy(s, id, q1, p1).value, id, q2, p2).value, id, q1 + q2, p3).Ok?
    ensures id !in Sell(Buy(Buy(s, id, q1, p1).value, id, q2, p2).value, id, q1 + q2, p3).value.holdings
  {
  }

  /** A buy of a stock not yet held, spelled out as the whole new state. */
  lemma BuyOpensPosition(s: State, id: int, q: nat, p: real)
    requires q >= 1 && p > 0.0 && WellFormed(s.holdings)
    requires id !in s.holdings && s.wallet.Some? && s.wallet.value >= Cost(q, p)
    ensures Buy(s, id, q, p)
         == Ok(State(Some(s.wallet.value - Cost(q, p)),
                     s.holdings[id := Holding(q, Cost(q, p), Cost(q, p), 0.0, 0.0)],
                     s.log + [Tx(id, p, q, Cost(q, p), TxKind.Buy)],
                     s.watchlist))
  {
  }

  /** A sell that leaves shares behind, spelled out as the whole new state. */
  lemma SellKeepsPosition(s: State, id: int, q: nat, p: real)
    requires q >= 1 && p > 0.0 && WellFormed(s.holdings)
    requires id in s.holdings && s.holdings[id].quantity > q && s.wallet.Some?
    ensures Sell(s, id, q, p)
         == Ok(State(Some(s.wallet.value + Cost(q, p)),
                     s.holdings[id := Sold(s.holdings[id], q, p)],
                     s.log + [Tx(id, p, q, Cost(q, p), TxKind.Sell)],
                     s.watchlist))
  {
  }

  /** Starting from 1000 in the wallet, buying 10 shares at 50 leaves 500 and a row costing 500. */
  lemma WorkedExampleBuy()
    ensures Buy(State(Some(1000.0), map[], [], []), 1, 10, 50.0)
         == Ok(State(Some(500.0), map[1 := Holding(10, 500.0, 500.0, 0.0, 0.0)],
                     [Tx(1, 50.0, 10, 500.0, TxKind.Buy)], []))
  {
    var c := Cost(10, 50.0);
    assert c == 500.0;
    var w := Some(1000.0 - c);
    var m := map[][1 := Holding(10, c, c, 0.0, 0.0)];
    var l := [] + [Tx(1, 50.0, 10, c, TxKind.Buy)];
    assert w == Some(500.0);
    assert m == map[1 := Holding(10, 500.0, 500.0, 0.0, 0.0)];
    assert l == [Tx(1, 50.0, 10, 500.0, TxKind.Buy)];
    BuyOpensPosition(State(Some(1000.0), map[], [], []), 1, 10, 50.0);
  }

  /**
   Then selling 4 of them at 60 leaves 740 in the wallet; the remaining 6 shares
   keep their average of 50, so they cost 300, are worth 360 and show a profit
   of 60, or 20%.
   */
  lemma WorkedExampleSell()
    ensures Sell(State(Some(500.0), map[1 := Holding(10, 500.0, 500.0, 0.0, 0.0)],
                       [Tx(1, 50.0, 10, 500.0, TxKind.Buy)], []), 1, 4, 60.0)
         == Ok(State(Some(740.0), map[1 := Holding(6, 300.0, 360.0, 60.0, 20.0)],
                     [Tx(1, 50.0, 10, 500.0, TxKind.Buy), Tx(1, 60.0, 4, 240.0, TxKind.Sell)], []))
  {
    var prev := Holding(10, 500.0, 500.0, 0.0, 0.0);
    var s1 := State(Some(500.0), map[1 := prev], [Tx(1, 50.0, 10, 500.0, TxKind.Buy)], []);
    SellKeepsPosition(s1, 1, 4, 60.0);
    var c := Cost(4, 60.0);
    assert c == 240.0;
    assert AvgBuyPrice(prev) == 50.0;
    assert Cost(6, 60.0) == 360.0;
    var h := Sold(prev, 4, 60.0);
    assert h == Holding(6, 300.0, 360.0, 60.0, 20.0);
    assert Some(500.0 + c) == Some(740.0);
    assert s1.holdings[1 := h] == map[1 := Holding(6, 300.0, 360.0, 60.0, 20.0)];
    assert s1.log + [Tx(1, 60.0, 4, c, TxKind.Sell)]
        == [Tx(1, 50.0, 10, 500.0, TxKind.Buy), Tx(1, 60.0, 4, 240.0, TxKind.Sell)];
  }
}
