/** Portfolio valuation: per-holding current value and profit and loss
    (the `usePortfolio` hook), the summed summary, and the page's overall
    figures against the initial virtual balance.
 */
module Portfolio {
  import opened Common
  import opened Seqs
  import opened Orders
  import opened Stocks

  /** A holding with its stock (if the list has it) and its valuation. */
  datatype Valued = Valued(holding: Holding, stock: Option<Stock>, currentValue: real, pnl: real, pnlPercent: real)

  datatype Summary = Summary(totalValue: real, totalInvested: real, totalPnL: real, totalPnLPercent: real, holdings: seq<Valued>)

  /** A holding row with shares in it. */
  predicate HasShares(h: Holding) {
    h.quantity > 0
  }

  /** The holdings query: nothing without a user, else the user's rows with
      a positive quantity, in the order the store returned them. */
  function FetchHoldings(user: Option<string>, rows: seq<Holding>): (r: seq<Holding>)
    ensures !Authenticated(user) ==> r == []
    ensures IsSubsequence(r, rows)
    ensures forall i :: 0 <= i < |r| ==> r[i].quantity > 0
    ensures Authenticated(user) ==> forall i :: 0 <= i < |rows| && rows[i].quantity > 0 ==> rows[i] in r
    ensures Authenticated(user) ==> |r| == CountWhere(rows, HasShares)
  {
    if !Authenticated(user) then [] else
      FilterCounts(rows, HasShares);
      Filter(rows, HasShares)
  }

  /** `stock?.current_price`. */
  function QuoteOf(stock: Option<Stock>): Option<real> {
    if stock.Some? then stock.value.currentPrice else None
  }

  /** The price a holding is marked at: a truthy quote, else its average
      price.  The holding card on the portfolio page uses the same rule. */
  function MarkPrice(stock: Option<Stock>, h: Holding): (p: real)
    ensures Truthy(QuoteOf(stock)) ==> p == QuoteOf(stock).value
    ensures !Truthy(QuoteOf(stock)) ==> p == h.averagePrice
  {
    OrElse(QuoteOf(stock), h.averagePrice)
  }

  /** The percentage P&L with the zero guard on the invested amount. */
  function PnLPercent(pnl: real, invested: real): (r: real)
    ensures invested > 0.0 ==> r * invested == pnl * 100.0
    ensures invested > 0.0 ==> (r >= 0.0 <==> pnl >= 0.0)
    ensures invested <= 0.0 ==> r == 0.0
  {
    if invested > 0.0 then pnl / invested * 100.0 else 0.0
  }

  /** The value, P&L and P&L% of one holding at the current quotes. */
  function Value(h: Holding, stocks: seq<Stock>): (v: Valued)
    ensures v.holding == h && v.stock == GetStockById(stocks, h.stockId)
    ensures v.currentValue == h.quantity as real * MarkPrice(v.stock, h)
    ensures v.pnl == v.currentValue - h.totalInvested
    ensures v.pnlPercent == PnLPercent(v.pnl, h.totalInvested)
  {
    var stock := GetStockById(stocks, h.stockId);
    var currentValue := h.quantity as real * MarkPrice(stock, h);
    var pnl := currentValue - h.totalInvested;
    Valued(h, stock, currentValue, pnl, PnLPercent(pnl, h.totalInvested))
  }

  /** A valuation whose P&L is its value less its cost. */
  predicate Balanced(v: Valued) {
    v.pnl == v.currentValue - v.holding.totalInvested
  }

  /** `enrichedHoldings`: one valuation per holding, in the same order. */
  function Enrich(holdings: seq<Holding>, stocks: seq<Stock>): (r: seq<Valued>)
    ensures |r| == |holdings|
    ensures forall i :: 0 <= i < |r| ==> r[i] == Value(holdings[i], stocks)
    ensures forall i :: 0 <= i < |r| ==> r[i].holding == holdings[i] && Balanced(r[i])
    ensures forall i :: 0 <= i < |r| ==> r[i].currentValue == holdings[i].quantity as real * MarkPrice(r[i].stock, holdings[i])
  {
    var r := seq(|holdings|, i requires 0 <= i < |holdings| => Value(holdings[i], stocks));
    assert forall i :: 0 <= i < |r| ==> r[i] == Value(holdings[i], stocks);
    r
  }

  function ValueOf(v: Valued): real { v.currentValue }
  function InvestedOf(v: Valued): real { v.holding.totalInvested }
  function PnLOf(v: Valued): real { v.pnl }

  /** The three sums over the holdings and the guarded overall percentage. */
  function Summarize(vs: seq<Valued>): (s: Summary)
    requires forall i :: 0 <= i < |vs| ==> Balanced(vs[i])
    ensures s.holdings == vs
    ensures s.totalValue == SumOf(vs, ValueOf)
    ensures s.totalInvested == SumOf(vs, InvestedOf)
    ensures s.totalPnL == s.totalValue - s.totalInvested
    ensures s.totalPnLPercent == PnLPercent(s.totalPnL, s.totalInvested)
  {
    SumOfPnL(vs);
    var totalPnL := SumOf(vs, PnLOf);
    var totalInvested := SumOf(vs, InvestedOf);
    Summary(SumOf(vs, ValueOf), totalInvested, totalPnL, PnLPercent(totalPnL, totalInvested), vs)
  }

  /** Summing per-holding P&L gives total value less total cost. */
  lemma {:induction false} SumOfPnL(vs: seq<Valued>)
    requires forall i :: 0 <= i < |vs| ==> Balanced(vs[i])
    ensures SumOf(vs, PnLOf) == SumOf(vs, ValueOf) - SumOf(vs, InvestedOf)
  {
    if |vs| > 0 {
      assert Balanced(vs[0]);
      assert forall i :: 0 <= i < |vs[1..]| ==> vs[1..][i] == vs[i + 1];
      SumOfPnL(vs[1..]);
    }
  }

  /** The portfolio summary for a user's holding rows at the current quotes. */
  function PortfolioSummary(user: Option<string>, rows: seq<Holding>, stocks: seq<Stock>): (s: Summary)
    ensures s.holdings == Enrich(FetchHoldings(user, rows), stocks)
    ensures |s.holdings| == |FetchHoldings(user, rows)|
    ensures s.totalValue == SumOf(s.holdings, ValueOf)
    ensures s.totalInvested == SumOf(s.holdings, InvestedOf)
    ensures s.totalPnL == s.totalValue - s.totalInvested
    ensures !Authenticated(user) ==> s == Summary(0.0, 0.0, 0.0, 0.0, [])
  {
    Summarize(Enrich(FetchHoldings(user, rows), stocks))
  }

  /** Holdings value plus cash. */
  function TotalPortfolioValue(s: Summary, account: Option<Account>): real {
    s.totalValue + BalanceOf(account)
  }

  /** Lifetime P&L: what the portfolio is worth against the starting cash. */
  function OverallPnL(s: Summary, account: Option<Account>): real {
    TotalPortfolioValue(s, account) - InitialBalanceOf(account)
  }

  /** The lifetime P&L of a computed summary splits into the unrealised P&L
      of the holdings and the change of cash plus cost basis since the start. */
  lemma OverallPnLSplits(user: Option<string>, rows: seq<Holding>, stocks: seq<Stock>, account: Option<Account>)
    ensures var s := PortfolioSummary(user, rows, stocks);
      OverallPnL(s, account) == s.totalPnL + (BalanceOf(account) + s.totalInvested - InitialBalanceOf(account))
  {
  }

  /** The page divides by the initial balance without a guard. */
  function OverallPnLPercent(s: Summary, account: Option<Account>): (r: real)
    requires InitialBalanceOf(account) != 0.0
    ensures r * InitialBalanceOf(account) == OverallPnL(s, account) * 100.0
  {
    OverallPnL(s, account) / InitialBalanceOf(account) * 100.0
  }

  predicate OverallIsPositive(s: Summary, account: Option<Account>) {
    OverallPnL(s, account) >= 0.0
  }

  /** With no holdings, the lifetime P&L is the cash gained or lost; an
      untouched account shows zero. */
  lemma EmptyPortfolioOverall(account: Option<Account>)
    ensures OverallPnL(Summarize([]), account) == BalanceOf(account) - InitialBalanceOf(account)
    ensures account.Some? && account.value.balance == account.value.initialBalance ==>
      OverallPnL(Summarize([]), account) == 0.0 && OverallIsPositive(Summarize([]), account)
  {
  }
}
