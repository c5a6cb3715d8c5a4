/** How a quote is shown: the stock card's change, percentage, direction,
    buy and sell quotes and exchange badge, and the price display's change
    row with its three-way trend.
 */
module Quotes {
  import opened Common
  import opened Stocks

  const BuyMarkup: real := 1.0005
  const SellMarkdown: real := 0.9995
  /** The badge shown for NSE rows. */
  const FuturesBadge: string := "FUT"

  /** The card's change: price less previous close when both are truthy. */
  function CardChange(s: Stock): (r: real)
    ensures Truthy(s.currentPrice) && Truthy(s.previousClose) ==> r == s.currentPrice.value - s.previousClose.value
    ensures !(Truthy(s.currentPrice) && Truthy(s.previousClose)) ==> r == 0.0
  {
    if Truthy(s.currentPrice) && Truthy(s.previousClose) then s.currentPrice.value - s.previousClose.value else 0.0
  }

  /** The card's percentage: the change relative to a truthy previous close. */
  function CardChangePercent(s: Stock): (r: real)
    ensures Truthy(s.previousClose) ==> r * s.previousClose.value == CardChange(s) * 100.0
    ensures !Truthy(s.previousClose) ==> r == 0.0
  {
    if Truthy(s.previousClose) then CardChange(s) / s.previousClose.value * 100.0 else 0.0
  }

  /** The card shows a rise (and a `+` sign) for any change that is not negative. */
  predicate CardIsPositive(s: Stock) {
    CardChange(s) >= 0.0
  }

  /** The buy quote: the price marked up by 0.05%, zero without a price. */
  function BuyQuote(s: Stock): (r: real)
    ensures Truthy(s.currentPrice) ==> r == s.currentPrice.value * BuyMarkup
    ensures !Truthy(s.currentPrice) ==> r == 0.0
  {
    if Truthy(s.currentPrice) then s.currentPrice.value * BuyMarkup else 0.0
  }

  /** The sell quote: the price marked down by 0.05%, zero without a price. */
  function SellQuote(s: Stock): (r: real)
    ensures Truthy(s.currentPrice) ==> r == s.currentPrice.value * SellMarkdown
    ensures !Truthy(s.currentPrice) ==> r == 0.0
  {
    if Truthy(s.currentPrice) then s.currentPrice.value * SellMarkdown else 0.0
  }

  /** For a non-negative price the sell quote never exceeds the price and
      the buy quote is never below it; the spread is a tenth of a percent. */
  lemma QuoteSpread(s: Stock)
    requires s.currentPrice.Some? ==> s.currentPrice.value >= 0.0
    ensures SellQuote(s) <= OrElse(s.currentPrice, 0.0) <= BuyQuote(s)
    ensures BuyQuote(s) - SellQuote(s) == OrElse(s.currentPrice, 0.0) / 1000.0
  {
  }

  /** The exchange badge: "FUT" for NSE, the exchange's own name otherwise. */
  function Badge(s: Stock): (r: string)
    ensures s.exchange == Nse ==> r == FuturesBadge
    ensures s.exchange != Nse ==> r == s.exchange
  {
    if s.exchange == Nse then FuturesBadge else s.exchange
  }

  /** Two stocks share a badge exactly when they share an exchange, or when
      one is on NSE and the other on an exchange literally named "FUT". */
  lemma BadgeIdentifiesExchange(a: Stock, b: Stock)
    ensures Badge(a) == Badge(b) <==> a.exchange == b.exchange || {a.exchange, b.exchange} == {Nse, FuturesBadge}
  {
  }

  datatype Trend = Rising | Flat | Falling

  /** The price display's change: price less a truthy previous price. */
  function DisplayChange(price: real, previousPrice: Option<real>): (r: real)
    ensures Truthy(previousPrice) ==> r == price - previousPrice.value
    ensures !Truthy(previousPrice) ==> r == 0.0
  {
    if Truthy(previousPrice) then price - previousPrice.value else 0.0
  }

  function DisplayChangePercent(price: real, previousPrice: Option<real>): (r: real)
    ensures Truthy(previousPrice) ==> r * previousPrice.value == DisplayChange(price, previousPrice) * 100.0
    ensures !Truthy(previousPrice) ==> r == 0.0
  {
    if Truthy(previousPrice) then DisplayChange(price, previousPrice) / previousPrice.value * 100.0 else 0.0
  }

  /** The colour and icon of the change row: neutral at zero, else up or down. */
  function DisplayTrend(price: real, previousPrice: Option<real>): (t: Trend)
    ensures t == Flat <==> DisplayChange(price, previousPrice) == 0.0
    ensures t == Rising <==> DisplayChange(price, previousPrice) > 0.0
    ensures t == Falling <==> DisplayChange(price, previousPrice) < 0.0
    ensures Truthy(previousPrice) ==> (t == Rising <==> price > previousPrice.value)
    ensures !Truthy(previousPrice) ==> t == Flat
  {
    var change := DisplayChange(price, previousPrice);
    if change == 0.0 then Flat else if change > 0.0 then Rising else Falling
  }

  /** The change row is drawn only when asked for and the previous price is truthy. */
  predicate ShowsChangeRow(showChange: bool, previousPrice: Option<real>) {
    showChange && Truthy(previousPrice)
  }

  /** The change row as drawn: a `+` exactly on a rise, then the size of the
      change. */
  datatype ChangeRow = ChangeRow(plusSign: bool, magnitude: real, percent: real, trend: Trend)

  function Row(price: real, previousPrice: Option<real>): (r: ChangeRow)
    ensures r.magnitude >= 0.0
    ensures r.plusSign <==> r.trend == Rising
    ensures r.trend == DisplayTrend(price, previousPrice)
    ensures r.percent == DisplayChangePercent(price, previousPrice)
  {
    var trend := DisplayTrend(price, previousPrice);
    ChangeRow(trend == Rising, Abs(DisplayChange(price, previousPrice)), DisplayChangePercent(price, previousPrice), trend)
  }

  /** The signed change is recoverable from the row: the trend gives the
      sign and the figure the size. */
  function SignedChange(row: ChangeRow): real {
    match row.trend
    case Rising => row.magnitude
    case Flat => 0.0
    case Falling => -row.magnitude
  }

  lemma RowRoundTrip(price: real, previousPrice: Option<real>)
    ensures SignedChange(Row(price, previousPrice)) == DisplayChange(price, previousPrice)
  {
  }

  /** A drawn change row always stands for a real change against a non-zero
      previous price, and switching the row off hides it whatever the price. */
  lemma ShownRowIsRealChange(showChange: bool, price: real, previousPrice: Option<real>)
    ensures ShowsChangeRow(showChange, previousPrice) <==> showChange && previousPrice.Some? && previousPrice.value != 0.0
    ensures ShowsChangeRow(showChange, previousPrice) ==> SignedChange(Row(price, previousPrice)) == price - previousPrice.value
  {
    RowRoundTrip(price, previousPrice);
  }

  /** For a stock with a truthy price, the card and the price display agree
      on the change; the card calls a rise what the display calls a rise or
      neutral, so the two differ only at zero change. */
  lemma CardAgreesWithDisplay(s: Stock)
    requires Truthy(s.currentPrice)
    ensures CardChange(s) == DisplayChange(s.currentPrice.value, s.previousClose)
    ensures CardChangePercent(s) == DisplayChangePercent(s.currentPrice.value, s.previousClose)
    ensures CardIsPositive(s) <==> DisplayTrend(s.currentPrice.value, s.previousClose) != Falling
    ensures CardIsPositive(s) && DisplayTrend(s.currentPrice.value, s.previousClose) != Rising ==> CardChange(s) == 0.0
  {
  }
}
