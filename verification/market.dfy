/** The market page: the per-exchange lists, the top five gainers and
    losers by percentage change, and the search box.
 */
module Market {
  import opened Common
  import opened Seqs
  import opened Text
  import opened Stocks

  const TopCount: nat := 5

  /** A stock with both a truthy price and a truthy previous close. */
  predicate Eligible(s: Stock) {
    Truthy(s.currentPrice) && Truthy(s.previousClose)
  }

  /** The percentage change since the previous close (zero for a stock that
      is not eligible, which is never ranked). */
  function Change(s: Stock): real {
    if Eligible(s) then (s.currentPrice.value - s.previousClose.value) / s.previousClose.value * 100.0 else 0.0
  }

  function Decline(s: Stock): real {
    -Change(s)
  }

  function EligibleOf(stocks: seq<Stock>): (r: seq<Stock>)
    ensures IsSubsequence(r, stocks)
    ensures forall i :: 0 <= i < |r| ==> Eligible(r[i])
    ensures forall i :: 0 <= i < |stocks| && Eligible(stocks[i]) ==> stocks[i] in r
    ensures |r| == CountWhere(stocks, Eligible)
  {
    FilterCounts(stocks, Eligible);
    Filter(stocks, Eligible)
  }

  /** The five eligible stocks with the largest change, largest first. */
  function Gainers(stocks: seq<Stock>): (r: seq<Stock>)
    ensures |r| == if |EligibleOf(stocks)| < TopCount then |EligibleOf(stocks)| else TopCount
    ensures multiset(r) <= multiset(EligibleOf(stocks))
  {
    var eligible := EligibleOf(stocks);
    var sorted := SortBy(eligible, Decline);
    TakeSplitsSorted(sorted, TopCount, Decline);
    Take(sorted, TopCount)
  }

  /** The gainers are in descending order of change, and no eligible stock
      left out has risen more than any stock listed. */
  lemma GainersAreTop(stocks: seq<Stock>)
    ensures var r := Gainers(stocks);
      && (forall i, j :: 0 <= i < j < |r| ==> Change(r[i]) >= Change(r[j]))
      && (forall x, i :: x in multiset(EligibleOf(stocks)) - multiset(r) && 0 <= i < |r| ==> Change(x) <= Change(r[i]))
  {
    var eligible := EligibleOf(stocks);
    var sorted := SortBy(eligible, Decline);
    TopBound(sorted, TopCount, Decline);
    var r := Take(sorted, TopCount);
    DeclineIsReverseChange(r, multiset(eligible) - multiset(r));
  }

  /** Ascending by decline is descending by change. */
  lemma DeclineIsReverseChange(r: seq<Stock>, rest: multiset<Stock>)
    requires forall i, j :: 0 <= i < j < |r| ==> Decline(r[i]) <= Decline(r[j])
    requires forall x, i :: x in rest && 0 <= i < |r| ==> Decline(r[i]) <= Decline(x)
    ensures forall i, j :: 0 <= i < j < |r| ==> Change(r[i]) >= Change(r[j])
    ensures forall x, i :: x in rest && 0 <= i < |r| ==> Change(x) <= Change(r[i])
  {
  }

  /** The five eligible stocks with the smallest change, smallest first. */
  function Losers(stocks: seq<Stock>): (r: seq<Stock>)
    ensures |r| == if |EligibleOf(stocks)| < TopCount then |EligibleOf(stocks)| else TopCount
    ensures multiset(r) <= multiset(EligibleOf(stocks))
  {
    var eligible := EligibleOf(stocks);
    var sorted := SortBy(eligible, Change);
    TakeSplitsSorted(sorted, TopCount, Change);
    Take(sorted, TopCount)
  }

  /** The losers are in ascending order of change, and no eligible stock
      left out has fallen more than any stock listed. */
  lemma LosersAreBottom(stocks: seq<Stock>)
    ensures var r := Losers(stocks);
      && (forall i, j :: 0 <= i < j < |r| ==> Change(r[i]) <= Change(r[j]))
      && (forall x, i :: x in multiset(EligibleOf(stocks)) - multiset(r) && 0 <= i < |r| ==> Change(x) >= Change(r[i]))
  {
    var eligible := EligibleOf(stocks);
    var sorted := SortBy(eligible, Change);
    TopBound(sorted, TopCount, Change);
  }

  /** Taking the first `n` of a sorted list leaves out no stock with a
      smaller key than one taken. */
  lemma TopBound(sorted: seq<Stock>, n: nat, key: Stock -> real)
    requires SortedBy(sorted, key)
    ensures multiset(Take(sorted, n)) <= multiset(sorted)
    ensures forall x, i :: x in multiset(sorted) - multiset(Take(sorted, n)) && 0 <= i < |Take(sorted, n)| ==> key(Take(sorted, n)[i]) <= key(x)
  {
    var r := Take(sorted, n);
    TakeSplitsSorted(sorted, n, key);
    forall x, i | x in multiset(sorted) - multiset(r) && 0 <= i < |r| ensures key(r[i]) <= key(x) {
      assert x in multiset(sorted[|r|..]);
      var j :| |r| <= j < |sorted| && sorted[j] == x by {
        assert x in sorted[|r|..];
      }
    }
  }

  /** Listed on the given exchange. */
  function ListedOn(exchange: string): Stock -> bool {
    (s: Stock) => s.exchange == exchange
  }

  /** The stocks listed on one exchange, in list order. */
  function OnExchange(stocks: seq<Stock>, exchange: string): (r: seq<Stock>)
    ensures IsSubsequence(r, stocks)
    ensures forall i :: 0 <= i < |r| ==> r[i].exchange == exchange
    ensures forall i :: 0 <= i < |stocks| && stocks[i].exchange == exchange ==> stocks[i] in r
    ensures |r| == CountWhere(stocks, ListedOn(exchange))
  {
    FilterCounts(stocks, ListedOn(exchange));
    Filter(stocks, ListedOn(exchange))
  }

  /** The NSE and MCX tabs never show the same stock, and together show at
      most the whole list. */
  lemma ExchangeTabsDisjoint(stocks: seq<Stock>)
    ensures forall s :: s in OnExchange(stocks, Nse) ==> s !in OnExchange(stocks, Mcx)
    ensures |OnExchange(stocks, Nse)| + |OnExchange(stocks, Mcx)| <= |stocks|
  {
    DisjointFiltersAtMost(stocks, ListedOn(Nse), ListedOn(Mcx));
  }

  lemma {:induction false} DisjointFiltersAtMost(s: seq<Stock>, p: Stock -> bool, q: Stock -> bool)
    requires forall x :: !(p(x) && q(x))
    ensures |Filter(s, p)| + |Filter(s, q)| <= |s|
  {
    if |s| > 0 {
      DisjointFiltersAtMost(s[1..], p, q);
    }
  }

  /** The search results under the search box: nothing while the query is
      blank; otherwise the search for the query as typed, surrounding white
      space included. */
  function FilteredStocks(stocks: seq<Stock>, query: string): (r: seq<Stock>)
    ensures AllSpace(query) ==> r == []
    ensures !AllSpace(query) ==> r == SearchStocks(stocks, query)
    ensures !AllSpace(query) ==> forall i :: 0 <= i < |r| ==> MatchesQuery(r[i], query)
  {
    TrimEmptyIffAllSpace(query);
    if Trim(query) != "" then SearchStocks(stocks, query) else []
  }
}
