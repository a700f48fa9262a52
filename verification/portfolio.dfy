/**
 The holdings routes (routes/holdings.js): the listing of every row by current
 value, largest first, and the portfolio summary, whose totals are sums of the
 holdings' columns and whose percentage is the unweighted mean of the rows'
 percentages.
 */
module Portfolio {
  import opened LedgerState

  /** The numeric columns of the holdings table that the summary aggregates. */
  datatype Column = CurrentValue | PriceBought | ProfitLoss | ProfitLossPercentage

  function Field(h: Holding, c: Column): real
  {
    match c
    case CurrentValue => h.totalCurrentValue
    case PriceBought => h.totalPriceBought
    case ProfitLoss => h.profitLoss
    case ProfitLossPercentage => h.profitLossPercentage
  }

  /** A non-empty portfolio has a row to pick. */
  lemma HasKey(m: map<int, Holding>)
    requires m != map[]
    ensures exists k :: k in m
  {
    if forall j :: j !in m {
      assert false;
    }
  }

  /** `SUM(c)` over the rows of `m`, taken in no particular order. */
  ghost function Total(m: map<int, Holding>, c: Column): real
    decreases m.Keys
  {
    if m == map[] then 0.0
    else
      HasKey(m);
      var k :| k in m;
      Field(m[k], c) + Total(m - {k}, c)
  }

  /** The order in which `Total` visits the rows does not matter: any row can go first. */
  lemma {:induction false} TotalRemove(m: map<int, Holding>, k: int, c: Column)
    requires k in m
    ensures Total(m, c) == Field(m[k], c) + Total(m - {k}, c)
    decreases m.Keys
  {
    var j :| j in m && Total(m, c) == Field(m[j], c) + Total(m - {j}, c);
    if j != k {
      TotalRemove(m - {j}, k, c);
      TotalRemove(m - {k}, j, c);
      assert m - {j} - {k} == m - {k} - {j};
    }
  }

  /**
   Since every row's profit is its value minus its cost, the total profit is the
   total value minus the total invested.
   */
  lemma {:induction false} TotalProfitLoss(m: map<int, Holding>)
    requires forall k :: k in m ==> HoldingConsistent(m[k])
    ensures Total(m, ProfitLoss) == Total(m, CurrentValue) - Total(m, PriceBought)
    decreases m.Keys
  {
    if m != map[] {
      HasKey(m);
      var k :| k in m;
      TotalRemove(m, k, ProfitLoss);
      TotalRemove(m, k, CurrentValue);
      TotalRemove(m, k, PriceBought);
      TotalProfitLoss(m - {k});
    }
  }

  /** What `GET /summary` reports. */
  datatype Summary = Summary(
    totalValue: real,
    totalInvested: real,
    totalProfitLoss: real,
    avgProfitLossPercentage: real)

  /**
   The summary the route means to report: column sums, the mean percentage, and
   zeros when nothing is held.
   */
  method ComputeSummary(holdings: map<int, Holding>) returns (r: Summary)
    ensures r.totalValue == Total(holdings, CurrentValue)
    ensures r.totalInvested == Total(holdings, PriceBought)
    ensures r.totalProfitLoss == Total(holdings, ProfitLoss)
    ensures |holdings| > 0 ==>
      r.avgProfitLossPercentage == Total(holdings, ProfitLossPercentage) / |holdings| as real
    ensures |holdings| == 0 ==> r == Summary(0.0, 0.0, 0.0, 0.0)
  {
    var rest := holdings;
    var value, invested, profit, percentage := 0.0, 0.0, 0.0, 0.0;
    while rest != map[]
      invariant value + Total(rest, CurrentValue) == Total(holdings, CurrentValue)
      invariant invested + Total(rest, PriceBought) == Total(holdings, PriceBought)
      invariant profit + Total(rest, ProfitLoss) == Total(holdings, ProfitLoss)
      invariant percentage + Total(rest, ProfitLossPercentage) == Total(holdings, ProfitLossPercentage)
      invariant holdings == map[] ==> value == 0.0 && invested == 0.0 && profit == 0.0 && percentage == 0.0
      decreases rest.Keys
    {
      HasKey(rest);
      var k :| k in rest;
      TotalRemove(rest, k, CurrentValue);
      TotalRemove(rest, k, PriceBought);
      TotalRemove(rest, k, ProfitLoss);
      TotalRemove(rest, k, ProfitLossPercentage);
      value := value + rest[k].totalCurrentValue;
      invested := invested + rest[k].totalPriceBought;
      profit := profit + rest[k].profitLoss;
      percentage := percentage + rest[k].profitLossPercentage;
      rest := rest - {k};
    }
    var mean := if |holdings| == 0 then 0.0 else percentage / |holdings| as real;
    r := Summary(value, invested, profit, mean);
  }

  /** The totals of a consistent portfolio are themselves consistent. */
  method SummaryOfValidState(s: State) returns (r: Summary)
    requires Valid(s)
    ensures r.totalProfitLoss == r.totalValue - r.totalInvested
    ensures r.totalInvested >= 0.0
  {
    r := ComputeSummary(s.holdings);
    TotalProfitLoss(s.holdings);
    TotalPositive(s.holdings);
  }

  lemma {:induction false} TotalPositive(m: map<int, Holding>)
    requires forall k :: k in m ==> m[k].totalPriceBought > 0.0
    ensures Total(m, PriceBought) >= 0.0
    ensures m != map[] ==> Total(m, PriceBought) > 0.0
    decreases m.Keys
  {
    if m != map[] {
      HasKey(m);
      var k :| k in m;
      TotalRemove(m, k, PriceBought);
      TotalPositive(m - {k});
    }
  }

  /**
   One row of the aggregate query as the database returns it: `SUM` and `AVG`
   over no rows are `NULL`, here `None`.
   */
  datatype SqlSummary = SqlSummary(
    totalValue: Option<real>,
    totalInvested: Option<real>,
    totalProfitLoss: Option<real>,
    avgProfitLossPercentage: Option<real>)

  /** The aggregate query: a query without `GROUP BY` always yields exactly one row. */
  ghost function AggregateRow(holdings: map<int, Holding>): SqlSummary
  {
    if holdings == map[] then SqlSummary(None, None, None, None)
    else SqlSummary(Some(Total(holdings, CurrentValue)), Some(Total(holdings, PriceBought)),
                    Some(Total(holdings, ProfitLoss)),
                    Some(Total(holdings, ProfitLossPercentage) / |holdings| as real))
  }

  /**
   `GET /summary` as written: `rows[0] || zeros`. Since the query always yields a
   row, the zero fallback is never taken and an empty portfolio is reported as
   nulls.
   */
  ghost function SummaryResponse(holdings: map<int, Holding>): (answer: SqlSummary)
    ensures answer == AggregateRow(holdings)
  {
    var rows := [AggregateRow(holdings)];
    if |rows| > 0 then rows[0] else SqlSummary(Some(0.0), Some(0.0), Some(0.0), Some(0.0))
  }

  /** With nothing held, the route answers nulls rather than the zeros of its fallback. */
  lemma EmptySummaryIsNull()
    ensures SummaryResponse(map[]) == SqlSummary(None, None, None, None)
    ensures SummaryResponse(map[]) != SqlSummary(Some(0.0), Some(0.0), Some(0.0), Some(0.0))
  {
  }

  /** The dashboard's `x || 0`: a null (or zero) figure shows as zero. */
  function OrZero(x: Option<real>): real
  {
    if x.Some? then x.value else 0.0
  }

  /** After the dashboard's coalescing, the answer agrees with the intended summary. */
  method DashboardFigures(holdings: map<int, Holding>) returns (shown: Summary)
    ensures var row := SummaryResponse(holdings);
      shown == Summary(OrZero(row.totalValue), OrZero(row.totalInvested),
                       OrZero(row.totalProfitLoss), OrZero(row.avgProfitLossPercentage))
    ensures shown.totalValue == Total(holdings, CurrentValue)
    ensures holdings == map[] ==> shown == Summary(0.0, 0.0, 0.0, 0.0)
  {
    shown := ComputeSummary(holdings);
  }

  /** One line of the `GET /` listing. */
  datatype Row = Row(stockId: int, holding: Holding)

  predicate IsTop(m: map<int, Holding>, k: int)
  {
    k in m && forall j :: j in m ==> m[j].totalCurrentValue <= m[k].totalCurrentValue
  }

  /** Every non-empty portfolio has a row of largest current value. */
  lemma {:induction false} HasTop(m: map<int, Holding>)
    requires m != map[]
    ensures exists k :: IsTop(m, k)
    decreases m.Keys
  {
    HasKey(m);
    var k :| k in m;
    var rest := m - {k};
    assert forall i :: i in m ==> i == k || i in rest;
    if rest == map[] {
      assert IsTop(m, k);
    } else {
      HasTop(rest);
      var j :| IsTop(rest, j);
      if m[k].totalCurrentValue <= m[j].totalCurrentValue {
        assert IsTop(m, j);
      } else {
        assert IsTop(m, k);
      }
    }
  }

  /** Rows ordered by current value, largest first. */
  predicate ByValueDescending(rows: seq<Row>)
  {
    forall i, j :: 0 <= i < j < |rows| ==> rows[i].holding.totalCurrentValue >= rows[j].holding.totalCurrentValue
  }

  /** No stock is listed twice. */
  predicate DistinctIds(rows: seq<Row>)
  {
    forall i, j :: 0 <= i < j < |rows| ==> rows[i].stockId != rows[j].stockId
  }

  /** Every row shows a holding exactly as the table has it. */
  predicate DrawnFrom(holdings: map<int, Holding>, rows: seq<Row>)
  {
    forall i :: 0 <= i < |rows| ==> rows[i].stockId in holdings && holdings[rows[i].stockId] == rows[i].holding
  }

  predicate Listed(rows: seq<Row>, id: int)
  {
    exists i :: 0 <= i < |rows| && rows[i].stockId == id
  }

  /** Midway through the listing: `rows` lists the largest holdings, `rest` holds the others. */
  ghost predicate ListingInvariant(holdings: map<int, Holding>, rest: map<int, Holding>, rows: seq<Row>)
  {
    && (forall k :: k in rest ==> k in holdings && rest[k] == holdings[k])
    && DrawnFrom(holdings, rows)
    && (forall i :: 0 <= i < |rows| ==> rows[i].stockId !in rest)
    && (forall k :: k in holdings ==> k in rest || Listed(rows, k))
    && DistinctIds(rows)
    && ByValueDescending(rows)
    && (forall i, k :: 0 <= i < |rows| && k in rest ==> rest[k].totalCurrentValue <= rows[i].holding.totalCurrentValue)
  }

  /** Moving a largest remaining holding to the end of the listing keeps the invariant. */
  lemma ListingStep(holdings: map<int, Holding>, rest: map<int, Holding>, rows: seq<Row>, k: int)
    requires ListingInvariant(holdings, rest, rows)
    requires IsTop(rest, k)
    ensures ListingInvariant(holdings, rest - {k}, rows + [Row(k, rest[k])])
  {
    var rows' := rows + [Row(k, rest[k])];
    var rest' := rest - {k};
    assert DrawnFrom(holdings, rows');
    assert DistinctIds(rows');
    assert ByValueDescending(rows');
    forall j | j in holdings && j !in rest'
      ensures Listed(rows', j)
    {
      if j == k {
        assert rows'[|rows|].stockId == j;
      } else {
        var i :| 0 <= i < |rows| && rows[i].stockId == j;
        assert rows'[i].stockId == j;
      }
    }
  }

  /**
   `GET /`: every holding exactly once, ordered by current value, largest first.
   Rows of equal value come in no particular order.
   */
  method Listing(holdings: map<int, Holding>) returns (rows: seq<Row>)
    ensures DrawnFrom(holdings, rows)
    ensures forall k :: k in holdings ==> Listed(rows, k)
    ensures DistinctIds(rows)
    ensures ByValueDescending(rows)
  {
    var rest := holdings;
    rows := [];
    while rest != map[]
      invariant ListingInvariant(holdings, rest, rows)
      decreases rest.Keys
    {
      HasTop(rest);
      var k :| IsTop(rest, k);
      ListingStep(holdings, rest, rows, k);
      rows := rows + [Row(k, rest[k])];
      rest := rest - {k};
    }
  }
}
