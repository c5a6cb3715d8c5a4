# Stock Learn India: a verified model of the paper-trading core

Stock Learn India is a paper-trading app for the Indian markets. Each user
gets a virtual cash account that starts at ₹10,00,000. They can buy and
sell NSE equities and MCX commodities at simulated prices, follow a
watchlist, and simulate dividend payouts on the stocks they hold. This
project models the logic behind those screens in Dafny and proves
properties of it:

- **Settlement** (`Orders`, from `useOrders`): placing a BUY or SELL order.
  The checks run in a fixed order: user, account, cash, shares. Then the
  cash balance and the holding are updated, and one order record and one
  transaction record are appended. A BUY recomputes the average price. A
  SELL reduces the cost basis in proportion to the shares sold and deletes
  a holding that reaches zero.
- **Order form** (`OrderForm`): the `parseInt(…) || 0` quantity, the BUY
  and SELL gates, the remaining-cash figure, the two warnings and the
  submitted order. Whatever the form submits is shown to pass settlement's
  checks.
- **Portfolio valuation** (`Portfolio`, from `usePortfolio` and the
  portfolio page): the mark price of each holding, its value, P&L and
  P&L%, the summed summary, and the lifetime P&L against the initial
  balance.
- **Dividend centre** (`Dividends`): choosing the announcements, the
  payout loop with its "already paid today" guard, the balance credit, the
  estimated payouts, and the month, year and all-time totals.
- **Stock list** (`Stocks`, from `useStocks` and `useStock`): the MCX seed
  rows, the base-price table, the price and volume fallbacks, search, and
  lookup by id or symbol.
- **Market page** (`Market`): the exchange tabs, the top-five gainers and
  losers, and the search box.
- **Quote display** (`Quotes`, from `StockCard` and `PriceDisplay`): the
  change, the percentage, the buy and sell quotes, the exchange badge, and
  the three-way trend of the change row.
- **Watchlist** (`Watchlist`, from `useWatchlist`): the fetch with its two
  mock fallbacks, the join with the stock list, and `isInWatchlist`.
- **Transaction history** (`History`): the BUY, SELL and total counts.
- **Sign-in page** (`Auth`): login and signup validation, and what each
  answer of the authentication service leads to.

The supporting modules:

- `Common`: `Option`, `Result`, and JavaScript truthiness (`x || d`).
- `Seqs`: filter, find, sums, insertion sort, prefixes, subsequences.
- `Text`: lower-casing, `includes` and `trim`.

Modelling conventions:

- Money is `real` and share counts are `int`.
- A nullable number is an `Option<real>`. It is truthy when it is present
  and non-zero.
- Times are integer millisecond timestamps.
- The store's tables are immutable values: the ledger, the holding rows,
  the stock rows and the watchlist rows.
- Randomness, the clock, the calendar, the email validator and the
  answers of the authentication service are parameters.

The settlement rules follow the hook's code. `useOrders` does not check
the quantity. `Orders.PlaceOrder` requires a positive one, which its only
caller, `OrderForm.Submit`, guarantees.

## Model

| member | source | states |
|---|---|---|
| Common.OrElse | stock-learn-india/src/hooks/useStocks.tsx:297-308 | `x \|\| d` on a nullable number gives the number when it is present and non-zero, and the default otherwise |
| Seqs.SortBy | stock-learn-india/src/pages/Market.tsx:23-27 | sorting yields a list ordered by the key that is a permutation of the input (same multiset and length) |
| Seqs.TakeSplitsSorted | stock-learn-india/src/pages/Market.tsx:28 | the first five of a sorted list, together with the rest, make up the whole list, and no key taken exceeds a key left out |
| Seqs.FilterCounts | stock-learn-india/src/pages/TransactionHistory.tsx:15-16 | the length of a filtered list equals the number of elements satisfying the predicate, counted from the end of the list |
| Seqs.FilterSums | stock-learn-india/src/pages/Dividends.tsx:178-184 | summing a filtered list equals summing the whole list with the rejected elements contributing nothing |
| Seqs.SumOfFilterMonotone | stock-learn-india/src/pages/Dividends.tsx:178-184 | for non-negative amounts, a filter that keeps fewer elements never yields a larger sum |
| Text.Includes | stock-learn-india/src/hooks/useStocks.tsx:320-321 | the left-to-right scan answers true exactly when the substring occurs at some position (`String.prototype.includes`) |
| Text.Trim | stock-learn-india/src/pages/Market.tsx:48 | the trimmed text is no longer than the input and neither starts nor ends with white space |
| Text.TrimIsSlice | stock-learn-india/src/pages/Market.tsx:48 | the trimmed text is a contiguous slice of the input with only white space before and after it |
| Text.TrimEmptyIffAllSpace | stock-learn-india/src/pages/Auth.tsx:68 | `s.trim()` is empty (falsy) exactly when every character of `s` is white space |
| Orders.BuyInto | stock-learn-india/src/hooks/useOrders.tsx:86-112 | a BUY adds the quantity and the order value to an existing holding, or opens one at the order price, and keeps average price × quantity equal to the cost basis |
| Orders.SellFrom | stock-learn-india/src/hooks/useOrders.tsx:118-137 | a SELL deletes the holding exactly when every share is sold; otherwise the quantity drops by the amount sold, the average price stays, and the cost basis shrinks in proportion to the shares sold |
| Orders.PlaceOrder | stock-learn-india/src/hooks/useOrders.tsx:20-145 | fails with NotAuthenticated, AccountNotFound, InsufficientCash or InsufficientShares exactly under the hook's conditions, in its order. On success a BUY debits and a SELL credits the order value, a BUY never overdraws, the holdings are settled, every holding stays positive and cost-consistent, and exactly one order and one transaction record are appended |
| Orders.SettleHoldings | stock-learn-india/src/hooks/useOrders.tsx:86-137 | only the traded stock's holding changes: it is bought into, or sold from and removed when emptied; every other holding is untouched and all quantities stay positive |
| Orders.BuyTwiceAverage | stock-learn-india/src/hooks/useOrders.tsx:89-101 | two buys into an empty position leave the quantity-weighted mean of the two prices as the average price |
| Orders.SellKeepsCostPerShare | stock-learn-india/src/hooks/useOrders.tsx:119-121 | a partial sale keeps the cost per share: the cost basis scales by the fraction of shares kept |
| Orders.BuyThenSellSucceeds | stock-learn-india/src/hooks/useOrders.tsx:32-43 | after buying into an empty position, selling the same quantity passes the share check |
| Orders.BuyThenSellRestores | stock-learn-india/src/hooks/useOrders.tsx:115-140 | a buy followed by a sell of the same quantity at the same price restores the account and the holdings, and logs two orders |
| Orders.BuySellHoldingsRestore | stock-learn-india/src/hooks/useOrders.tsx:103-127 | on the holdings alone, a new position bought and then sold in full is deleted, leaving the holdings as before |
| Orders.SettlementExample | stock-learn-india/src/hooks/useOrders.tsx:24-140 | worked example: 10 bought at 100 from a 100000 balance leave 99000; selling 4 at 120 leaves 99480 and a holding of 6 at average 100 with cost 600 |
| OrderForm.ParseIntValue | stock-learn-india/src/components/OrderForm.tsx:28 | `parseInt` is NaN exactly when no digit follows the optional sign |
| OrderForm.ParseInt | stock-learn-india/src/components/OrderForm.tsx:28 | the left-to-right digit scan computes the same value as the digit-run definition |
| OrderForm.ParseShowRoundTrip | stock-learn-india/src/components/OrderForm.tsx:28 | parsing the decimal text of a number, with or without a minus sign, gives the number back |
| OrderForm.Qty | stock-learn-india/src/components/OrderForm.tsx:28 | the quantity is the parsed integer, or 0 when the text does not parse |
| OrderForm.RemainingCash | stock-learn-india/src/components/OrderForm.tsx:117 | the remaining cash is never negative; it is the balance less the estimate when the estimate is affordable, and 0 otherwise |
| OrderForm.CanBuy | stock-learn-india/src/components/OrderForm.tsx:31 | the BUY gate: the definition (a BUY, an estimate within the balance, a positive quantity); `OrderForm.WarningsMatchGates` and `OrderForm.SubmitPassesChecks` state what it guarantees |
| OrderForm.CanSell | stock-learn-india/src/components/OrderForm.tsx:32 | the SELL gate: the definition (a SELL, a positive quantity within a held position); `OrderForm.WarningsMatchGates` and `OrderForm.SubmitPassesChecks` state what it guarantees |
| OrderForm.CanSubmit | stock-learn-india/src/components/OrderForm.tsx:33 | the selected side's gate: the definition; `OrderForm.Submit` submits exactly when it holds and `OrderForm.SubmittedOrderSettles` shows every such order settles |
| OrderForm.InsufficientCashWarning | stock-learn-india/src/components/OrderForm.tsx:139-143 | the BUY warning: the definition; `OrderForm.WarningsMatchGates` shows it appears for a positive quantity exactly when the BUY gate is closed |
| OrderForm.InsufficientQuantityWarning | stock-learn-india/src/components/OrderForm.tsx:144-148 | the SELL warning: the definition; `OrderForm.WarningsMatchGates` shows it appears for a positive quantity exactly when the SELL gate is closed |
| OrderForm.WarningsMatchGates | stock-learn-india/src/components/OrderForm.tsx:139-148 | for a positive quantity, the warning of the selected side shows exactly when the order cannot be submitted; a non-positive quantity gives neither a warning nor a submit, and the two warnings never show together |
| OrderForm.Submit | stock-learn-india/src/components/OrderForm.tsx:35-48 | an order is submitted exactly when the side's gate is open; it carries a positive quantity, the quoted price, an affordable value (BUY) or at most the held quantity (SELL) |
| OrderForm.SubmitPassesChecks | stock-learn-india/src/components/OrderForm.tsx:26-44 | a submitted order meets settlement's cash and share conditions against a store holding the same account and holdings, and a BUY's remaining cash is the balance less the order value |
| OrderForm.ChecksPassSettles | stock-learn-india/src/hooks/useOrders.tsx:20-43 | with a user, an account, enough cash for a BUY and enough shares for a SELL, settlement succeeds, and a BUY debits exactly the order value |
| OrderForm.SubmittedOrderSettles | stock-learn-india/src/components/OrderForm.tsx:31-44 | every order the form submits settles, and after a BUY the balance equals the remaining cash the form displayed |
| Portfolio.FetchHoldings | stock-learn-india/src/hooks/usePortfolio.tsx:33-44 | no holdings without a user; otherwise exactly the rows with a positive quantity, in store order; as many rows as have a positive quantity, so repeated rows keep their multiplicity |
| Portfolio.MarkPrice | stock-learn-india/src/hooks/usePortfolio.tsx:51 | a holding is marked at a truthy current quote, and at its average price otherwise |
| Portfolio.PnLPercent | stock-learn-india/src/hooks/usePortfolio.tsx:54-56 | for a positive cost basis the percentage is P&L × 100 / cost and has the sign of the P&L; otherwise it is 0 |
| Portfolio.Value | stock-learn-india/src/hooks/usePortfolio.tsx:49-65 | a holding is joined with the first stock of its id, its value is quantity × mark price, and its P&L is value less cost |
| Portfolio.Enrich | stock-learn-india/src/hooks/usePortfolio.tsx:49-65 | one valuation per holding, in the same order: the i-th is the valuation of the i-th holding at its stock's price, with P&L equal to value less cost |
| Portfolio.Summarize | stock-learn-india/src/hooks/usePortfolio.tsx:67-77 | the summary totals are the sums over the holdings, total P&L is total value less total invested, and the percentage is guarded by a positive total invested |
| Portfolio.SumOfPnL | stock-learn-india/src/hooks/usePortfolio.tsx:68-70 | summing the per-holding P&L gives total value less total invested |
| Portfolio.PortfolioSummary | stock-learn-india/src/hooks/usePortfolio.tsx:31-77 | the holdings are the user's fetched rows valued one by one; the total value and total invested are the sums of those valuations; without a user the summary is all zero |
| Portfolio.OverallPnLSplits | stock-learn-india/src/pages/Portfolio.tsx:19-20 | the lifetime P&L is the unrealised P&L of the holdings plus the change in cash plus cost basis since the start |
| Portfolio.TotalPortfolioValue | stock-learn-india/src/pages/Portfolio.tsx:19 | holdings value plus cash: the definition; `Portfolio.OverallPnLSplits` relates it to the summary |
| Portfolio.OverallPnL | stock-learn-india/src/pages/Portfolio.tsx:20 | portfolio value less the initial balance: the definition; `Portfolio.OverallPnLSplits` splits it into unrealised P&L and the change in cash plus cost basis |
| Portfolio.OverallIsPositive | stock-learn-india/src/pages/Portfolio.tsx:22 | a lifetime P&L of zero or more: the definition; `Portfolio.EmptyPortfolioOverall` shows an untouched account counts as positive |
| Portfolio.OverallPnLPercent | stock-learn-india/src/pages/Portfolio.tsx:21 | the overall percentage times the initial balance is 100 × the lifetime P&L |
| Portfolio.EmptyPortfolioOverall | stock-learn-india/src/pages/Portfolio.tsx:19-22 | with no holdings the lifetime P&L is the cash gained or lost, and an untouched account shows 0, counted as positive |
| Dividends.OrMock | stock-learn-india/src/pages/Dividends.tsx:76-88 | a non-empty fetched list is used as is; a failed or empty fetch falls back to the mock list |
| Dividends.ShownHistory | stock-learn-india/src/pages/Dividends.tsx:82-93 | the history on screen is the fetched one when it is non-empty and the mock history when the fetch failed, threw or came back empty, so it is never empty |
| Dividends.PayoutSource | stock-learn-india/src/pages/Dividends.tsx:104-108 | a payout run uses a non-empty fresh fetch, else the list on screen, else the mock list; the list is never empty |
| Dividends.HeldFor | stock-learn-india/src/pages/Dividends.tsx:115 | finds the first holding whose stock has the dividend's symbol, and none exactly when no holding does |
| Dividends.PayoutFor | stock-learn-india/src/pages/Dividends.tsx:115-138 | an announcement pays nothing exactly when the stock is not held, the quantity is not positive, or the same dividend was paid within a day; otherwise it pays one payout for the whole holding at the announced rate, dated now |
| Dividends.PayoutLoop | stock-learn-india/src/pages/Dividends.tsx:110-147 | the loop collects the payouts of every announcement in order, and its running total is their sum |
| Dividends.Payouts | stock-learn-india/src/pages/Dividends.tsx:110-147 | the payouts of a run, announcement by announcement: the recursive definition; `Dividends.PayoutLoop` shows the page's loop computes it and `Dividends.PayoutsWellFormed` states its contents |
| Dividends.PayoutsWellFormed | stock-learn-india/src/pages/Dividends.tsx:114-147 | a run makes at most one payout per announcement, each for a held stock, for the whole position, at shares × rate, dated now |
| Dividends.PaidNotRepaid | stock-learn-india/src/pages/Dividends.tsx:119-125 | once a run's payouts are in the history, a dividend it paid is not paid again by a run within a day |
| Dividends.RerunPaysNothing | stock-learn-india/src/pages/Dividends.tsx:119-125 | repeating a run at the same moment, with the first run's payouts in the history, pays nothing |
| Dividends.Simulate | stock-learn-india/src/pages/Dividends.tsx:98-168 | ignored exactly when there is no user or a run is in progress; otherwise "none eligible" exactly when the run pays nothing, and a paid run in every other case: the balance is credited with the payout total, and the payouts are prepended to the history shown only when storing them failed |
| Dividends.SimulateCredits | stock-learn-india/src/pages/Dividends.tsx:164 | with non-negative rates a payout run never lowers the balance |
| Dividends.EstimatedPayout | stock-learn-india/src/pages/Dividends.tsx:241-242 | the estimate is the held quantity, or 0 when not held, times the rate |
| Dividends.PayoutMatchesEstimate | stock-learn-india/src/pages/Dividends.tsx:127 | a payout is exactly the estimate shown beside its announcement |
| Dividends.ThisYear | stock-learn-india/src/pages/Dividends.tsx:182-184 | the order-preserving sub-list of the history holding exactly the payouts dated in the current calendar year; as many entries as such payouts, so a repeated payout keeps its multiplicity |
| Dividends.TotalYear | stock-learn-india/src/pages/Dividends.tsx:182-184 | the year's figure equals the sum of the amounts of the history's payouts dated in the current year |
| Dividends.MonthAsWritten | stock-learn-india/src/pages/Dividends.tsx:178-180 | the order-preserving sub-list of the history holding exactly the payouts whose month number is the current one, in any year; as many entries as such payouts, so a repeated payout keeps its multiplicity |
| Dividends.TotalMonthAsWritten | stock-learn-india/src/pages/Dividends.tsx:178-180 | the month figure as written equals the sum of the amounts of the history's payouts whose month number is the current one, in any year |
| Dividends.ThisMonth | stock-learn-india/src/pages/Dividends.tsx:178-184 | the order-preserving sub-list of the history holding exactly the payouts dated in the current month of the current year; as many entries as such payouts, so a repeated payout keeps its multiplicity |
| Dividends.TotalMonth | stock-learn-india/src/pages/Dividends.tsx:178-184 | the corrected month figure equals the sum of the amounts of the history's payouts dated in the current month of the current year |
| Dividends.TotalsOrdered | stock-learn-india/src/pages/Dividends.tsx:178-186 | with non-negative payouts, 0 ≤ month total ≤ year total ≤ all-time total; the page's own month figure is at most the all-time total |
| Dividends.TotalAll | stock-learn-india/src/pages/Dividends.tsx:186 | the sum of every payout's amount: the definition; `Dividends.TotalsOrdered` bounds the month and year figures by it |
| Dividends.MonthFigureCountsEarlierYears | stock-learn-india/src/pages/Dividends.tsx:178-184 | a payout from the same month a year earlier counts toward the page's month figure (220) but not its year figure (0) |
| Stocks.WithMcxSeed | stock-learn-india/src/hooks/useStocks.tsx:79-81 | the fetched rows come first and unchanged; the MCX seed rows are appended exactly when no fetched row is on MCX, so the list always has an MCX row |
| Stocks.BasePrice | stock-learn-india/src/hooks/useStocks.tsx:297 | the reference price is the table entry for the symbol, else a truthy current price, else 1000, and it is never 0 |
| Stocks.Normalize | stock-learn-india/src/hooks/useStocks.tsx:296-309 | a refreshed row keeps its identity and takes the simulated price; a falsy previous close or day open is replaced from the base price, so both become truthy; a falsy day high, day low or volume is replaced from the simulated price or the drawn volume |
| Stocks.LoadStocks | stock-learn-india/src/hooks/useStocks.tsx:77-310 | the loaded list is the seeded list with every row refreshed, position by position, each with its own random quote and volume |
| Stocks.LoadStocksProperties | stock-learn-india/src/hooks/useStocks.tsx:79-310 | after loading, some stock is on MCX, the fetched rows keep their positions and ids, and every stock has a truthy previous close |
| Stocks.SearchStocks | stock-learn-india/src/hooks/useStocks.tsx:315-323 | an empty query returns the whole list; otherwise exactly the stocks whose lower-cased symbol or name contains the lower-cased query, in list order; as many entries as matching stocks, so a repeated row keeps its multiplicity |
| Stocks.GetStockById | stock-learn-india/src/hooks/useStocks.tsx:325-327 | the first stock with the id, and none exactly when no stock has it |
| Stocks.GetStockBySymbol | stock-learn-india/src/hooks/useStocks.tsx:329-331 | the first stock with the symbol, and none exactly when no stock has it |
| Stocks.UseStock | stock-learn-india/src/hooks/useStocks.tsx:344-347 | no stock for a missing or empty id, otherwise the lookup by id |
| Market.EligibleOf | stock-learn-india/src/pages/Market.tsx:22 | exactly the stocks with a truthy price and previous close, in list order; as many entries as eligible stocks, so a repeated row keeps its multiplicity |
| Market.Gainers | stock-learn-india/src/pages/Market.tsx:21-28 | the gainers are min(5, eligible count) eligible stocks, drawn from the eligible ones without repetition |
| Market.GainersAreTop | stock-learn-india/src/pages/Market.tsx:21-28 | the gainers are in descending order of change, and no eligible stock left out rose more than a listed one |
| Market.Losers | stock-learn-india/src/pages/Market.tsx:30-37 | the losers are min(5, eligible count) eligible stocks, drawn from the eligible ones without repetition |
| Market.LosersAreBottom | stock-learn-india/src/pages/Market.tsx:30-37 | the losers are in ascending order of change, and no eligible stock left out fell more than a listed one |
| Market.OnExchange | stock-learn-india/src/pages/Market.tsx:42-43 | exactly the stocks on the exchange, in list order; as many entries as stocks on the exchange, so a repeated row keeps its multiplicity |
| Market.ExchangeTabsDisjoint | stock-learn-india/src/pages/Market.tsx:42-43 | no stock is in both the NSE and the MCX tab, and together the tabs hold at most the whole list |
| Market.FilteredStocks | stock-learn-india/src/pages/Market.tsx:48 | no results for a blank query; otherwise the search for the untrimmed query, every result matching it |
| Quotes.CardChange | stock-learn-india/src/components/StockCard.tsx:13-15 | the card's change is price less previous close when both are truthy, and 0 otherwise |
| Quotes.CardChangePercent | stock-learn-india/src/components/StockCard.tsx:16-18 | the card's percentage times a truthy previous close is 100 × the change, and 0 otherwise |
| Quotes.CardIsPositive | stock-learn-india/src/components/StockCard.tsx:19 | a change of zero or more: the definition; `Quotes.CardAgreesWithDisplay` relates it to the price display's trend |
| Quotes.BuyQuote | stock-learn-india/src/components/StockCard.tsx:48 | the buy quote is the price marked up by 0.05%, and 0 without a price |
| Quotes.SellQuote | stock-learn-india/src/components/StockCard.tsx:54 | the sell quote is the price marked down by 0.05%, and 0 without a price |
| Quotes.QuoteSpread | stock-learn-india/src/components/StockCard.tsx:48-54 | for a non-negative price, sell quote ≤ price ≤ buy quote, and the spread is a thousandth of the price |
| Quotes.Badge | stock-learn-india/src/components/StockCard.tsx:33 | NSE rows show "FUT" and other rows the exchange name |
| Quotes.BadgeIdentifiesExchange | stock-learn-india/src/components/StockCard.tsx:33 | the badge tells exchanges apart, except that NSE and an exchange named "FUT" share one |
| Quotes.DisplayChange | stock-learn-india/src/components/PriceDisplay.tsx:19 | the display's change is price less a truthy previous price, and 0 otherwise |
| Quotes.DisplayChangePercent | stock-learn-india/src/components/PriceDisplay.tsx:20 | the display's percentage times a truthy previous price is 100 × the change, and 0 otherwise |
| Quotes.DisplayTrend | stock-learn-india/src/components/PriceDisplay.tsx:21-22 | the trend is flat, rising or falling exactly as the change is zero, positive or negative; it rises exactly when the price exceeds a truthy previous price |
| Quotes.Row | stock-learn-india/src/components/PriceDisplay.tsx:56-66 | the row shows a `+` exactly on a rise, a non-negative magnitude, and the display's percentage and trend |
| Quotes.RowRoundTrip | stock-learn-india/src/components/PriceDisplay.tsx:56-66 | the signed change is recovered from the row's trend and magnitude |
| Quotes.ShowsChangeRow | stock-learn-india/src/components/PriceDisplay.tsx:52 | the row is drawn when asked for and the previous price is truthy: the definition; `Quotes.ShownRowIsRealChange` states what a drawn row shows |
| Quotes.ShownRowIsRealChange | stock-learn-india/src/components/PriceDisplay.tsx:52-66 | the row is drawn exactly when asked for with a present, non-zero previous price, and a drawn row's sign and size give back price less previous price |
| Quotes.CardAgreesWithDisplay | stock-learn-india/src/components/StockCard.tsx:13-19 | for a stock with a truthy price, the card and the price display agree on the change and the percentage; the card calls a rise whatever the display calls rising or flat, so the two differ only at zero change |
| Watchlist.EmptyFallback | stock-learn-india/src/hooks/useWatchlist.tsx:37-49 | the placeholders kept for an empty watchlist are exactly the mock placeholders whose ids are longer than 20 characters, so each kept one is for a mock symbol that resolved to a stock and every such one is kept |
| Watchlist.ErrorFallback | stock-learn-india/src/hooks/useWatchlist.tsx:53-65 | after a fetch error, exactly the placeholders whose mock symbol resolves to a stock with a non-empty id, in mock-list order |
| Watchlist.FetchWatchlist | stock-learn-india/src/hooks/useWatchlist.tsx:20-69 | empty without a user or before the stocks load; the stored rows when there are any; the empty fallback for no rows and the error fallback after an error |
| Watchlist.Enrich | stock-learn-india/src/hooks/useWatchlist.tsx:72-75 | each item is joined with the first stock of its id; items resolve exactly when they are kept, and the order is kept; as many entries as resolving items, so a repeated item keeps its multiplicity |
| Watchlist.DisplayedIsWatched | stock-learn-india/src/hooks/useWatchlist.tsx:130-132 | every stock on the displayed watchlist tests as watched |
| Watchlist.IsInWatchlist | stock-learn-india/src/hooks/useWatchlist.tsx:130-132 | some raw item is for the stock: the definition; `Watchlist.DisplayedIsWatched`, `Watchlist.WatchedKnownIsDisplayed` and `Watchlist.WatchedButHidden` relate it to the displayed list |
| Watchlist.WatchedKnownIsDisplayed | stock-learn-india/src/hooks/useWatchlist.tsx:72-75 | a watched stock that the stock list knows is displayed |
| Watchlist.WatchedButHidden | stock-learn-india/src/hooks/useWatchlist.tsx:130-132 | an item for a stock missing from the list tests as watched but is not displayed |
| History.TotalBuys | stock-learn-india/src/pages/TransactionHistory.tsx:15 | the BUY count equals the number of BUY records counted from the end of the list, is at most the total, and is 0 exactly when there is no BUY |
| History.TotalSells | stock-learn-india/src/pages/TransactionHistory.tsx:16 | the SELL count equals the number of SELL records counted from the end of the list, is at most the total, and is 0 exactly when there is no SELL |
| History.CountsAddUp | stock-learn-india/src/pages/TransactionHistory.tsx:15-32 | the BUY and SELL counts add up to the total-orders figure |
| History.TotalOrders | stock-learn-india/src/pages/TransactionHistory.tsx:32 | the number of transactions: the definition; `History.CountsAddUp` shows the BUY and SELL counts add up to it |
| History.SettlementCounts | stock-learn-india/src/hooks/useOrders.tsx:64-74 | a settled order adds one to the total and one to its own side's count, and leaves the other count unchanged |
| Auth.EmailError | stock-learn-india/src/pages/Auth.tsx:14 | an email error with the fixed message exactly when the address is not valid |
| Auth.PasswordError | stock-learn-india/src/pages/Auth.tsx:15 | a password error with the fixed message exactly when the password is shorter than 6 characters |
| Auth.ValidateLogin | stock-learn-india/src/pages/Auth.tsx:34-51 | both login fields are checked, each error shows exactly when its field is invalid, and the form passes exactly when both are valid |
| Auth.ValidateSignup | stock-learn-india/src/pages/Auth.tsx:53-74 | as for login on the signup fields, plus a name error exactly when the name is blank after trimming |
| Auth.HandleLogin | stock-learn-india/src/pages/Auth.tsx:76-94 | nothing is sent exactly when validation fails; acceptance leads to the market; a rejection containing "Invalid login credentials" gives the generic toast, and any other rejection shows its message |
| Auth.HandleSignup | stock-learn-india/src/pages/Auth.tsx:96-120 | nothing is sent exactly when validation fails; an "already registered" rejection shows the "Email already registered" toast and switches to the login tab with the signup email filled in; any other rejection shows "Signup failed" with its message and leaves the form as it was |
| Auth.BlankNameNotSent | stock-learn-india/src/pages/Auth.tsx:68-70 | a whitespace-only name never reaches the authentication service and leaves the form as it was |

## Left out

- Store I/O is not modelled. The Supabase reads and writes, their failures,
  and the partial writes a failure can leave behind are out of scope.
  Settlement is one atomic transition that cannot fail half way. The
  re-read of the existing holding before it is updated
  (`useOrders.tsx:79-84`) is the ledger's `holdings` entry for the stock.
- Record ids and timestamps are not modelled. An order
  is linked to its transaction by its position in the order log.
- JavaScript numbers are modelled as exact reals and unbounded integers.
  IEEE-754 rounding, NaN and Infinity are out of scope. So are
  `toFixed`, `toLocaleString` and any other formatting.
- Randomness is a parameter. `generateSimulatedPrice` and the random
  volume are parameters of `Stocks.Normalize` and `Stocks.LoadStocks`; in
  `Stocks.LoadStocks` both are indexed by row, so every row draws afresh. The
  13 literal MCX seed rows are a parameter, known only to be non-empty
  and all on MCX.
- `Number(x) || d` on a nullable column is modelled like `x || d`. The
  two differ only for values that are not numbers.
- The base-price table is modelled as a map. JavaScript object-prototype
  keys such as `constructor` are not modelled.
- `parseInt` is modelled on text without leading white space or a `0x`
  prefix.
- Lower-casing is modelled for ASCII letters only.
- Email validity is the `isEmail` parameter. The email check belongs to a
  validation library that is not part of this model.
- Password length is counted in characters, not UTF-16 code units.
- The calendar month and year of a timestamp depend on the local time
  zone. They are the `monthOf` and `yearOf` parameters.
- The stability of the gainers and losers sort is not proved. Ties keep
  their input order in the model, as they do in JavaScript, but no
  contract states it.
- Not modelled:
  - the watchlist add and remove mutations;
  - the profile page's duplicate of the lifetime P&L formula;
  - the M2M figure;
  - the stock chart;
  - routing, every toast other than the sign-in and sign-up notices of
    `Auth.HandleLogin` and `Auth.HandleSignup`, and the rest of the UI.
- The authentication service is not modelled. Its answer is the `answer`
  parameter of `Auth.HandleLogin` and `Auth.HandleSignup`.
- The dividend announcements' ex-date and pay-date are carried in the
  data but not used by any rule, as in the page.
- Orders.PlaceOrder: requires a positive quantity. `useOrders` does not
  check the quantity; with zero or less it can divide by zero or store a
  holding with a non-positive quantity. Its only caller, `OrderForm.Submit`,
  guarantees a positive quantity.
- Dividends.Simulate: after a successful insert the page fetches the
  history again (`Dividends.tsx:168`). That fetch is store I/O, so the
  outcome's history is the one on screen before it.
- Portfolio.OverallPnLPercent: requires a non-zero initial balance. The
  page divides by it without a guard, and the default initial balance is
  1000000.
- Orders.BuyThenSellRestores: requires that the sell succeeds. That
  requirement always holds; `Orders.BuyThenSellSucceeds` proves it.
- Market.FilteredStocks: searches for the query as typed. Surrounding
  white space takes part in the match, as it does in the page.

## Findings

| source | as written | input that shows it | evidently intended | confidence | as-written member | corrected member |
|---|---|---|---|---|---|---|
| stock-learn-india/src/pages/Dividends.tsx:178-180 | the "this month" total keeps every payout whose month number equals the current month, in any year | a payout made in the same calendar month one year earlier: it counts toward "this month" but not toward "this year", so the month figure can exceed the year figure | payouts of the current month of the current year, so the month figure never exceeds the year figure | not executed | Dividends.MonthFigureCountsEarlierYears | Dividends.TotalsOrdered |
