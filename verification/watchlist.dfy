/** The watchlist: the fetch with its two mock fallbacks, the join of the
    items with the stock list, and the membership test.
 */
module Watchlist {
  import opened Common
  import opened Seqs
  import opened Orders
  import opened Stocks

  /** A stored watchlist row: its own id and the id of the watched stock. */
  datatype WatchItem = WatchItem(id: string, stockId: string)

  /** What the store returned: rows, or an error. */
  datatype Fetched = Rows(rows: seq<WatchItem>) | FetchError

  /** Stock ids generated by the store are UUIDs; anything of at most this
      length is taken to be a placeholder. */
  const MinStoredIdLength: nat := 20

  const EmptyMockSymbols: seq<string> := ["RELIANCE", "TCS", "HDFCBANK", "TITAN", "GOLD", "CRUDEOIL"]
  const ErrorMockSymbols: seq<string> := ["RELIANCE", "TCS", "HDFCBANK", "INFY"]

  /** The decimal text of a list position below ten. */
  function Digit(i: nat): (r: string)
    requires i < 10
    ensures |r| == 1
  {
    [('0' as int + i) as char]
  }

  /** `stock?.id || fallback` for the first stock with `symbol`. */
  function IdOrElse(stocks: seq<Stock>, symbol: string, fallback: string): (r: string)
    ensures GetStockBySymbol(stocks, symbol).Some? && GetStockBySymbol(stocks, symbol).value.id != "" ==> r == GetStockBySymbol(stocks, symbol).value.id
    ensures GetStockBySymbol(stocks, symbol).None? || GetStockBySymbol(stocks, symbol).value.id == "" ==> r == fallback
  {
    var s := GetStockBySymbol(stocks, symbol);
    if s.Some? && s.value.id != "" then s.value.id else fallback
  }

  /** The placeholder items built for a user with an empty watchlist. */
  function EmptyMockItems(stocks: seq<Stock>): (r: seq<WatchItem>)
    ensures |r| == |EmptyMockSymbols|
  {
    seq(|EmptyMockSymbols|, i requires 0 <= i < |EmptyMockSymbols| =>
      WatchItem("mock-watchlist-" + Digit(i), IdOrElse(stocks, EmptyMockSymbols[i], "mock-stock-" + Digit(i))))
  }

  predicate LongId(item: WatchItem) {
    |item.stockId| > MinStoredIdLength
  }

  /** The empty-result fallback: the placeholders whose stock id looks like
      a stored id.  A placeholder id never does, so every item kept is for a
      mock symbol that resolved to a stock. */
  function EmptyFallback(stocks: seq<Stock>): (r: seq<WatchItem>)
    ensures IsSubsequence(r, EmptyMockItems(stocks))
    ensures forall i :: 0 <= i < |r| ==> |r[i].stockId| > MinStoredIdLength
    ensures forall i :: 0 <= i < |r| ==> exists k :: 0 <= k < |stocks| && stocks[k].id == r[i].stockId
    ensures forall j :: 0 <= j < |EmptyMockItems(stocks)| && LongId(EmptyMockItems(stocks)[j]) ==> EmptyMockItems(stocks)[j] in r
  {
    var items := EmptyMockItems(stocks);
    var r := Filter(items, LongId);
    forall i | 0 <= i < |r| ensures exists k :: 0 <= k < |stocks| && stocks[k].id == r[i].stockId {
      var j :| 0 <= j < |items| && items[j] == r[i];
      var s := GetStockBySymbol(stocks, EmptyMockSymbols[j]);
      assert |"mock-stock-" + Digit(j)| == 12;
      assert s.Some? && s.value.id == r[i].stockId;
      var k :| 0 <= k < |stocks| && stocks[k] == s.value;
    }
    r
  }

  function ErrorMockItems(stocks: seq<Stock>): (r: seq<WatchItem>)
    ensures |r| == |ErrorMockSymbols|
    ensures forall i :: 0 <= i < |r| ==> r[i].stockId == IdOrElse(stocks, ErrorMockSymbols[i], "")
  {
    seq(|ErrorMockSymbols|, i requires 0 <= i < |ErrorMockSymbols| =>
      WatchItem("mock-error-" + Digit(i), IdOrElse(stocks, ErrorMockSymbols[i], "")))
  }

  predicate HasStockId(item: WatchItem) {
    item.stockId != ""
  }

  /** The error fallback: the placeholders for mock symbols that resolve to
      a stock with a non-empty id, in mock-list order. */
  function ErrorFallback(stocks: seq<Stock>): (r: seq<WatchItem>)
    ensures IsSubsequence(r, ErrorMockItems(stocks))
    ensures forall i :: 0 <= i < |r| ==> r[i].stockId != ""
    ensures forall i :: 0 <= i < |r| ==> exists k :: 0 <= k < |stocks| && stocks[k].id == r[i].stockId
    ensures forall j :: 0 <= j < |ErrorMockSymbols| && GetStockBySymbol(stocks, ErrorMockSymbols[j]).Some? && GetStockBySymbol(stocks, ErrorMockSymbols[j]).value.id != "" ==>
      ErrorMockItems(stocks)[j] in r
  {
    var items := ErrorMockItems(stocks);
    var r := Filter(items, HasStockId);
    forall i | 0 <= i < |r| ensures exists k :: 0 <= k < |stocks| && stocks[k].id == r[i].stockId {
      var j :| 0 <= j < |items| && items[j] == r[i];
      var s := GetStockBySymbol(stocks, ErrorMockSymbols[j]);
      var k :| 0 <= k < |stocks| && stocks[k] == s.value;
    }
    r
  }

  /** The watchlist query: empty without a user or before the stocks have
      loaded; the stored rows when there are any; else a fallback. */
  function FetchWatchlist(user: Option<string>, stocks: seq<Stock>, fetched: Fetched): (r: seq<WatchItem>)
    ensures !Authenticated(user) || |stocks| == 0 ==> r == []
    ensures Authenticated(user) && |stocks| > 0 && fetched.Rows? && |fetched.rows| > 0 ==> r == fetched.rows
    ensures Authenticated(user) && |stocks| > 0 && fetched.Rows? && |fetched.rows| == 0 ==> r == EmptyFallback(stocks)
    ensures Authenticated(user) && |stocks| > 0 && fetched.FetchError? ==> r == ErrorFallback(stocks)
  {
    if !Authenticated(user) || |stocks| == 0 then []
    else match fetched
      case FetchError => ErrorFallback(stocks)
      case Rows(rows) => if |rows| == 0 then EmptyFallback(stocks) else rows
  }

  /** An item joined with its stock. */
  datatype Watched = Watched(item: WatchItem, stock: Stock)

  predicate Resolves(stocks: seq<Stock>, item: WatchItem) {
    GetStockById(stocks, item.stockId).Some?
  }

  function ResolvesIn(stocks: seq<Stock>): WatchItem -> bool {
    (item: WatchItem) => Resolves(stocks, item)
  }

  function ItemsOf(ws: seq<Watched>): (r: seq<WatchItem>)
    ensures |r| == |ws| && forall i :: 0 <= i < |ws| ==> r[i] == ws[i].item
  {
    seq(|ws|, i requires 0 <= i < |ws| => ws[i].item)
  }

  /** The displayed watchlist: each item with the first stock of its id,
      items without a stock dropped, order kept. */
  function Enrich(raw: seq<WatchItem>, stocks: seq<Stock>): (r: seq<Watched>)
    ensures IsSubsequence(ItemsOf(r), raw)
    ensures forall i :: 0 <= i < |r| ==> r[i].stock.id == r[i].item.stockId && r[i].stock in stocks
    ensures forall i :: 0 <= i < |r| ==> GetStockById(stocks, r[i].item.stockId) == Some(r[i].stock)
    ensures forall i :: 0 <= i < |raw| && Resolves(stocks, raw[i]) ==> raw[i] in ItemsOf(r)
    ensures forall i :: 0 <= i < |raw| && !Resolves(stocks, raw[i]) ==> raw[i] !in ItemsOf(r)
    ensures |r| == CountWhere(raw, ResolvesIn(stocks))
  {
    var kept := Filter(raw, ResolvesIn(stocks));
    FilterCounts(raw, ResolvesIn(stocks));
    JoinStocks(kept, stocks)
  }

  /** Each resolving item with the first stock of its id. */
  function JoinStocks(kept: seq<WatchItem>, stocks: seq<Stock>): (r: seq<Watched>)
    requires forall i :: 0 <= i < |kept| ==> Resolves(stocks, kept[i])
    ensures ItemsOf(r) == kept
    ensures forall i :: 0 <= i < |r| ==> GetStockById(stocks, r[i].item.stockId) == Some(r[i].stock)
  {
    var r := seq(|kept|, i requires 0 <= i < |kept| && Resolves(stocks, kept[i]) => Watched(kept[i], GetStockById(stocks, kept[i].stockId).value));
    assert ItemsOf(r) == kept;
    r
  }

  /** `isInWatchlist`: some raw item is for the stock. */
  predicate IsInWatchlist(raw: seq<WatchItem>, stockId: string) {
    exists i :: 0 <= i < |raw| && raw[i].stockId == stockId
  }

  /** A displayed stock always tests as watched. */
  lemma DisplayedIsWatched(raw: seq<WatchItem>, stocks: seq<Stock>)
    ensures forall i :: 0 <= i < |Enrich(raw, stocks)| ==> IsInWatchlist(raw, Enrich(raw, stocks)[i].stock.id)
  {
    var r := Enrich(raw, stocks);
    forall i | 0 <= i < |r| ensures IsInWatchlist(raw, r[i].stock.id) {
      assert ItemsOf(r)[i] == r[i].item;
      assert r[i].item in raw;
    }
  }

  /** A watched stock that the stock list knows is displayed; the converse
      of the lemma above fails only for stocks missing from the list. */
  lemma WatchedKnownIsDisplayed(raw: seq<WatchItem>, stocks: seq<Stock>, id: string)
    requires IsInWatchlist(raw, id) && GetStockById(stocks, id).Some?
    ensures exists j :: 0 <= j < |Enrich(raw, stocks)| && Enrich(raw, stocks)[j].stock.id == id
  {
    var r := Enrich(raw, stocks);
    var i :| 0 <= i < |raw| && raw[i].stockId == id;
    assert raw[i] in ItemsOf(r);
    var j :| 0 <= j < |r| && ItemsOf(r)[j] == raw[i];
  }

  /** An item for an unknown stock is watched but not displayed. */
  lemma WatchedButHidden()
    ensures var raw := [WatchItem("w1", "gone")];
      IsInWatchlist(raw, "gone") && Enrich(raw, []) == []
  {
    var raw := [WatchItem("w1", "gone")];
    assert raw[0].stockId == "gone";
  }
}
