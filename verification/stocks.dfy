/** The stock list: loading with the MCX seed rows and the price fallbacks,
    search, and lookup by id or symbol (the `useStocks` and `useStock` hooks).
 */
module Stocks {
  import opened Common
  import opened Seqs
  import opened Text

  /** One row of the `stocks` table; nullable numeric columns are options. */
  datatype Stock = Stock(
    id: string,
    symbol: string,
    name: string,
    exchange: string,
    currentPrice: Option<real>,
    previousClose: Option<real>,
    dayHigh: Option<real>,
    dayLow: Option<real>,
    dayOpen: Option<real>,
    volume: Option<int>)

  const Nse: string := "NSE"
  const Mcx: string := "MCX"

  /** Reference prices that drive the simulated quotes. */
  const BasePrices: map<string, real> := map[
    "RELIANCE" := 2456.75, "TCS" := 3892.50, "HDFCBANK" := 1654.30,
    "INFY" := 1523.45, "ICICIBANK" := 1087.60, "HINDUNILVR" := 2534.80,
    "SBIN" := 628.45, "BHARTIARTL" := 1456.90, "ITC" := 445.25,
    "KOTAKBANK" := 1823.40, "LT" := 3567.80, "AXISBANK" := 1134.55,
    "ASIANPAINT" := 2876.30, "MARUTI" := 11234.50, "SUNPHARMA" := 1678.90,
    "TITAN" := 3234.65, "BAJFINANCE" := 6789.20, "WIPRO" := 467.85,
    "HCLTECH" := 1534.60, "TATAMOTORS" := 845.30,
    "GOLD" := 62500.00, "SILVER" := 74500.00, "CRUDEOIL" := 6100.00,
    "NATURALGAS" := 240.50, "COPPER" := 720.00, "ZINC" := 225.00,
    "ALUMINIUM" := 205.00, "LEAD" := 185.00, "NICKEL" := 1450.00,
    "MENTHAOIL" := 920.00, "COTTON" := 56500.00, "RUBBER" := 18000.00,
    "CPO" := 850.00]

  const DefaultBasePrice: real := 1000.0
  const PreviousCloseFactor: real := 0.995
  const DayHighFactor: real := 1.015
  const DayLowFactor: real := 0.985

  predicate IsMcx(s: Stock) {
    s.exchange == Mcx
  }

  predicate HasMcx(stocks: seq<Stock>) {
    exists i :: 0 <= i < |stocks| && IsMcx(stocks[i])
  }

  /** The fetched rows, with the commodity seed rows appended only when no
      fetched row is on MCX.  The seed rows are literal data, all on MCX. */
  function WithMcxSeed(rows: seq<Stock>, seed: seq<Stock>): (r: seq<Stock>)
    requires |seed| > 0 && forall i :: 0 <= i < |seed| ==> IsMcx(seed[i])
    ensures HasMcx(r)
    ensures |rows| <= |r| && r[..|rows|] == rows
    ensures HasMcx(rows) ==> r == rows
    ensures !HasMcx(rows) ==> r[|rows|..] == seed
  {
    if HasMcx(rows) then rows
    else
      assert IsMcx((rows + seed)[|rows|]);
      rows + seed
  }

  /** The reference price: the table entry when present and non-zero, else a
      truthy current price, else 1000. */
  function BasePrice(s: Stock): (r: real)
    ensures r != 0.0
    ensures s.symbol in BasePrices ==> r == BasePrices[s.symbol]
    ensures s.symbol !in BasePrices ==> r == OrElse(s.currentPrice, DefaultBasePrice)
    ensures s.currentPrice.Some? && s.currentPrice.value >= 0.0 ==> r > 0.0
  {
    if s.symbol in BasePrices && BasePrices[s.symbol] != 0.0 then BasePrices[s.symbol]
    else OrElse(s.currentPrice, DefaultBasePrice)
  }

  /** One refreshed row.  `quote` is the simulated price drawn around the
      base price and `randomVolume` the volume drawn when the row has none;
      both come from a random source that is not modelled. */
  function Normalize(s: Stock, quote: real, randomVolume: int): (r: Stock)
    ensures r.id == s.id && r.symbol == s.symbol && r.name == s.name && r.exchange == s.exchange
    ensures r.currentPrice == Some(quote)
    ensures Truthy(r.previousClose) && Truthy(r.dayOpen)
    ensures Truthy(s.previousClose) ==> r.previousClose == s.previousClose
    ensures !Truthy(s.previousClose) ==> r.previousClose == Some(BasePrice(s) * PreviousCloseFactor)
    ensures Truthy(s.dayOpen) ==> r.dayOpen == s.dayOpen
    ensures !Truthy(s.dayOpen) ==> r.dayOpen == Some(BasePrice(s))
    ensures Truthy(s.dayHigh) ==> r.dayHigh == s.dayHigh
    ensures !Truthy(s.dayHigh) ==> r.dayHigh == Some(quote * DayHighFactor)
    ensures Truthy(s.dayLow) ==> r.dayLow == s.dayLow
    ensures !Truthy(s.dayLow) ==> r.dayLow == Some(quote * DayLowFactor)
    ensures s.volume.Some? && s.volume.value != 0 ==> r.volume == s.volume
    ensures s.volume.None? || s.volume.value == 0 ==> r.volume == Some(randomVolume)
  {
    var base := BasePrice(s);
    s.(currentPrice := Some(quote),
       previousClose := Some(OrElse(s.previousClose, base * PreviousCloseFactor)),
       dayOpen := Some(OrElse(s.dayOpen, base)),
       dayHigh := Some(OrElse(s.dayHigh, quote * DayHighFactor)),
       dayLow := Some(OrElse(s.dayLow, quote * DayLowFactor)),
       volume := Some(IntOrElse(s.volume, randomVolume)))
  }

  /** The stock list as the hook delivers it: seeded, then refreshed.
      Every row draws afresh: `simulate(i, base)` is the random quote drawn
      for row `i` around its base price, and `randomVolume(i)` the volume
      drawn for row `i` when it has none. */
  function LoadStocks(rows: seq<Stock>, seed: seq<Stock>, simulate: (nat, real) -> real, randomVolume: nat -> int): (r: seq<Stock>)
    requires |seed| > 0 && forall i :: 0 <= i < |seed| ==> IsMcx(seed[i])
    ensures |r| == |WithMcxSeed(rows, seed)|
    ensures forall i :: 0 <= i < |r| ==> r[i] == Normalize(WithMcxSeed(rows, seed)[i], simulate(i, BasePrice(WithMcxSeed(rows, seed)[i])), randomVolume(i))
  {
    var all := WithMcxSeed(rows, seed);
    seq(|all|, i requires 0 <= i < |all| => Normalize(all[i], simulate(i, BasePrice(all[i])), randomVolume(i)))
  }

  /** After loading, some stock is on MCX, the fetched rows keep their
      positions and identities, and every stock has a truthy previous close. */
  lemma LoadStocksProperties(rows: seq<Stock>, seed: seq<Stock>, simulate: (nat, real) -> real, randomVolume: nat -> int)
    requires |seed| > 0 && forall i :: 0 <= i < |seed| ==> IsMcx(seed[i])
    ensures HasMcx(LoadStocks(rows, seed, simulate, randomVolume))
    ensures |rows| <= |LoadStocks(rows, seed, simulate, randomVolume)|
    ensures forall i :: 0 <= i < |rows| ==> LoadStocks(rows, seed, simulate, randomVolume)[i].id == rows[i].id
    ensures forall i :: 0 <= i < |LoadStocks(rows, seed, simulate, randomVolume)| ==>
      Truthy(LoadStocks(rows, seed, simulate, randomVolume)[i].previousClose)
  {
    var all := WithMcxSeed(rows, seed);
    var r := LoadStocks(rows, seed, simulate, randomVolume);
    var k :| 0 <= k < |all| && IsMcx(all[k]);
    assert IsMcx(r[k]);
    forall i | 0 <= i < |rows| ensures r[i].id == rows[i].id {
      assert all[..|rows|][i] == all[i];
    }
  }

  /** Case-insensitive match of a query against a stock's symbol or name. */
  ghost predicate MatchesQuery(s: Stock, query: string) {
    Contains(Lower(s.symbol), Lower(query)) || Contains(Lower(s.name), Lower(query))
  }

  /** The search's test against an already lower-cased query. */
  function QueryMatch(q: string): Stock -> bool {
    (s: Stock) => Includes(Lower(s.symbol), q) || Includes(Lower(s.name), q)
  }

  /** `searchStocks`: an empty query returns the list itself; otherwise the
      order-preserving sub-list of stocks whose symbol or name contains it. */
  function SearchStocks(stocks: seq<Stock>, query: string): (r: seq<Stock>)
    ensures query == "" ==> r == stocks
    ensures IsSubsequence(r, stocks)
    ensures query != "" ==> forall i :: 0 <= i < |r| ==> MatchesQuery(r[i], query)
    ensures query != "" ==> forall i :: 0 <= i < |stocks| && MatchesQuery(stocks[i], query) ==> stocks[i] in r
    ensures query != "" ==> |r| == CountWhere(stocks, QueryMatch(Lower(query)))
  {
    if query == "" then
      SubsequenceReflexive(stocks);
      stocks
    else
      FilterCounts(stocks, QueryMatch(Lower(query)));
      Filter(stocks, QueryMatch(Lower(query)))
  }

  /** `getStockById`: the first stock with that id, or nothing. */
  function GetStockById(stocks: seq<Stock>, id: string): (r: Option<Stock>)
    ensures r.Some? ==> r.value in stocks && r.value.id == id
    ensures r.Some? ==> exists i :: 0 <= i < |stocks| && stocks[i] == r.value && forall j :: 0 <= j < i ==> stocks[j].id != id
    ensures r.None? <==> forall i :: 0 <= i < |stocks| ==> stocks[i].id != id
  {
    Find(stocks, (s: Stock) => s.id == id)
  }

  /** `getStockBySymbol`: the first stock with that symbol, or nothing. */
  function GetStockBySymbol(stocks: seq<Stock>, symbol: string): (r: Option<Stock>)
    ensures r.Some? ==> r.value in stocks && r.value.symbol == symbol
    ensures r.Some? ==> exists i :: 0 <= i < |stocks| && stocks[i] == r.value && forall j :: 0 <= j < i ==> stocks[j].symbol != symbol
    ensures r.None? <==> forall i :: 0 <= i < |stocks| ==> stocks[i].symbol != symbol
  {
    Find(stocks, (s: Stock) => s.symbol == symbol)
  }

  /** `useStock`: nothing for a missing or empty id, else the lookup by id. */
  function UseStock(stocks: seq<Stock>, stockId: Option<string>): (r: Option<Stock>)
    ensures stockId.None? || stockId.value == "" ==> r.None?
    ensures stockId.Some? && stockId.value != "" ==> r == GetStockById(stocks, stockId.value)
  {
    if stockId.Some? && stockId.value != "" then GetStockById(stocks, stockId.value) else None
  }
}
