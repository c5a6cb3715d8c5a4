/** The dividend centre: choosing the dividend list, the simulated payout
    run with its once-a-day guard, the credited balance, and the month,
    year and all-time totals of the payout history.

    Times are millisecond timestamps.  The calendar month and year of a
    timestamp depend on the local time zone and are passed in as functions.
 */
module Dividends {
  import opened Common
  import opened Seqs
  import opened Orders
  import opened Portfolio

  /** Milliseconds in a day: a payout this close to now counts as today's. */
  const Day: int := 86400000

  /** An announced dividend of `dividendPerShare` on `symbol`. */
  datatype Dividend = Dividend(id: string, symbol: string, exDate: int, payDate: int, dividendPerShare: real)

  /** A payout of `totalAmount` for `shares` shares, made at `paidOn`. */
  datatype DividendTx = DividendTx(symbol: string, shares: int, dividendPerShare: real, totalAmount: real, paidOn: int)

  /** The announcements shown when the store has none. */
  function MockDividends(now: int): seq<Dividend> {
    [ Dividend("1", "RELIANCE", now + Day * 2, now + Day * 5, 10.0),
      Dividend("2", "TCS", now + Day * 5, now + Day * 12, 25.0),
      Dividend("3", "INFY", now + Day * 10, now + Day * 20, 18.5),
      Dividend("4", "ITC", now + Day * 15, now + Day * 25, 12.0),
      Dividend("5", "HDFCBANK", now + Day * 20, now + Day * 30, 15.5) ]
  }

  /** The payout history shown when the store has none. */
  function MockHistory(now: int): seq<DividendTx> {
    [ DividendTx("TCS", 10, 22.0, 220.0, now - Day * 10),
      DividendTx("ITC", 50, 10.0, 500.0, now - Day * 45) ]
  }

  /** The payout history on screen after loading: the fetched history, or
      the mock history when the fetch failed, threw or came back empty.  The
      page never shows an empty history after a load. */
  function ShownHistory(fetched: Option<seq<DividendTx>>, now: int): (r: seq<DividendTx>)
    ensures |r| > 0
    ensures fetched.Some? && |fetched.value| > 0 ==> r == fetched.value
    ensures fetched.None? || |fetched.value| == 0 ==> r == MockHistory(now)
  {
    OrMock(fetched, MockHistory(now))
  }

  /** A fetched list, or the fallback when the fetch failed (`None`) or came
      back empty. */
  function OrMock<T>(fetched: Option<seq<T>>, mock: seq<T>): (r: seq<T>)
    ensures fetched.Some? && |fetched.value| > 0 ==> r == fetched.value
    ensures fetched.None? || |fetched.value| == 0 ==> r == mock
  {
    if fetched.Some? && |fetched.value| > 0 then fetched.value else mock
  }

  /** The announcements a payout run uses: a non-empty new fetch, else the
      list already on screen, else the mock list. */
  function PayoutSource(shown: seq<Dividend>, refetched: Option<seq<Dividend>>, now: int): (r: seq<Dividend>)
    ensures |r| > 0
    ensures refetched.Some? && |refetched.value| > 0 ==> r == refetched.value
    ensures (refetched.None? || |refetched.value| == 0) && |shown| > 0 ==> r == shown
  {
    OrMock(refetched, if |shown| > 0 then shown else MockDividends(now))
  }

  /** The portfolio holding on the dividend's stock, if any. */
  function HeldFor(holdings: seq<Valued>, symbol: string): (r: Option<Valued>)
    ensures r.Some? ==> r.value in holdings && r.value.stock.Some? && r.value.stock.value.symbol == symbol
    ensures r.Some? ==> exists i :: 0 <= i < |holdings| && holdings[i] == r.value && forall j :: 0 <= j < i ==> holdings[j].stock.None? || holdings[j].stock.value.symbol != symbol
    ensures r.None? <==> forall i :: 0 <= i < |holdings| ==> holdings[i].stock.None? || holdings[i].stock.value.symbol != symbol
  {
    Find(holdings, (v: Valued) => v.stock.Some? && v.stock.value.symbol == symbol)
  }

  function AbsInt(x: int): (r: nat)
    ensures r == x || r == -x
  {
    if x < 0 then -x else x
  }

  /** `t` paid the same dividend within a day of `now`. */
  predicate PaidRecently(t: DividendTx, d: Dividend, now: int) {
    t.symbol == d.symbol && t.dividendPerShare == d.dividendPerShare && AbsInt(t.paidOn - now) < Day
  }

  predicate AlreadyPaid(history: seq<DividendTx>, d: Dividend, now: int) {
    exists i :: 0 <= i < |history| && PaidRecently(history[i], d, now)
  }

  /** What one announcement pays in a run: nothing for a stock not held or
      a dividend already paid today, else one payout for the whole holding. */
  function PayoutFor(d: Dividend, holdings: seq<Valued>, history: seq<DividendTx>, now: int): (r: seq<DividendTx>)
    ensures |r| <= 1
    ensures r == [] <==> HeldFor(holdings, d.symbol).None? || HeldFor(holdings, d.symbol).value.holding.quantity <= 0 || AlreadyPaid(history, d, now)
    ensures r != [] ==> r[0].symbol == d.symbol && r[0].dividendPerShare == d.dividendPerShare && r[0].paidOn == now
    ensures r != [] ==> r[0].shares == HeldFor(holdings, d.symbol).value.holding.quantity > 0
    ensures r != [] ==> r[0].totalAmount == r[0].shares as real * d.dividendPerShare
  {
    var h := HeldFor(holdings, d.symbol);
    if h.None? || h.value.holding.quantity <= 0 || AlreadyPaid(history, d, now) then []
    else
      var q := h.value.holding.quantity;
      [DividendTx(d.symbol, q, d.dividendPerShare, q as real * d.dividendPerShare, now)]
  }

  /** The payouts of a run over `divs`, in announcement order. */
  function Payouts(divs: seq<Dividend>, holdings: seq<Valued>, history: seq<DividendTx>, now: int): seq<DividendTx> {
    if |divs| == 0 then []
    else Payouts(divs[..|divs| - 1], holdings, history, now) + PayoutFor(divs[|divs| - 1], holdings, history, now)
  }

  function AmountOf(t: DividendTx): real {
    t.totalAmount
  }

  /** The payout loop: one pass over the announcements, accumulating the
      payouts and their total. */
  method PayoutLoop(divs: seq<Dividend>, holdings: seq<Valued>, history: seq<DividendTx>, now: int)
    returns (txs: seq<DividendTx>, total: real)
    ensures txs == Payouts(divs, holdings, history, now)
    ensures total == SumOf(txs, AmountOf)
  {
    txs := [];
    total := 0.0;
    var i := 0;
    while i < |divs|
      invariant 0 <= i <= |divs|
      invariant txs == Payouts(divs[..i], holdings, history, now)
      invariant total == SumOf(txs, AmountOf)
    {
      assert divs[..i + 1][..i] == divs[..i];
      var p := PayoutFor(divs[i], holdings, history, now);
      SumOfAppend(txs, p, AmountOf);
      if p != [] {
        assert SumOf(p, AmountOf) == p[0].totalAmount;
        total := total + p[0].totalAmount;
      }
      txs := txs + p;
      i := i + 1;
    }
    assert divs[..|divs|] == divs;
  }

  /** `t` is a payout made at `now` for the whole holding of a held stock. */
  predicate PaysHolding(t: DividendTx, holdings: seq<Valued>, now: int) {
    && t.paidOn == now && t.shares > 0
    && t.totalAmount == t.shares as real * t.dividendPerShare
    && HeldFor(holdings, t.symbol).Some? && HeldFor(holdings, t.symbol).value.holding.quantity == t.shares
  }

  /** Every payout of a run is for a held stock, for the whole position,
      at the announced rate, and made now; there is at most one per
      announcement. */
  lemma {:induction false} PayoutsWellFormed(divs: seq<Dividend>, holdings: seq<Valued>, history: seq<DividendTx>, now: int)
    ensures |Payouts(divs, holdings, history, now)| <= |divs|
    ensures forall i :: 0 <= i < |Payouts(divs, holdings, history, now)| ==> PaysHolding(Payouts(divs, holdings, history, now)[i], holdings, now)
  {
    if |divs| > 0 {
      var init := divs[..|divs| - 1];
      var d := divs[|divs| - 1];
      PayoutsWellFormed(init, holdings, history, now);
      var a := Payouts(init, holdings, history, now);
      var p := PayoutFor(d, holdings, history, now);
      PayoutForPaysHolding(d, holdings, history, now);
      assert Payouts(divs, holdings, history, now) == a + p;
      forall i | 0 <= i < |a + p| ensures PaysHolding((a + p)[i], holdings, now) {
        if i >= |a| {
          assert (a + p)[i] == p[0];
        }
      }
    }
  }

  lemma PayoutForPaysHolding(d: Dividend, holdings: seq<Valued>, history: seq<DividendTx>, now: int)
    ensures PayoutFor(d, holdings, history, now) != [] ==> PaysHolding(PayoutFor(d, holdings, history, now)[0], holdings, now)
  {
  }

  /** A payout of `d` in this run appears among the run's payouts. */
  lemma {:induction false} PayoutForInRun(divs: seq<Dividend>, holdings: seq<Valued>, history: seq<DividendTx>, now: int, k: nat)
    requires k < |divs| && PayoutFor(divs[k], holdings, history, now) != []
    ensures PayoutFor(divs[k], holdings, history, now)[0] in Payouts(divs, holdings, history, now)
  {
    if k < |divs| - 1 {
      assert divs[..|divs| - 1][k] == divs[k];
      PayoutForInRun(divs[..|divs| - 1], holdings, history, now, k);
    }
  }

  lemma {:induction false} NoPayouts(divs: seq<Dividend>, holdings: seq<Valued>, history: seq<DividendTx>, now: int)
    requires forall k :: 0 <= k < |divs| ==> PayoutFor(divs[k], holdings, history, now) == []
    ensures Payouts(divs, holdings, history, now) == []
  {
    if |divs| > 0 {
      NoPayouts(divs[..|divs| - 1], holdings, history, now);
    }
  }

  /** A dividend paid in a run is not paid again by a run within the day,
      once the run's payouts are in the history. */
  lemma PaidNotRepaid(divs: seq<Dividend>, holdings: seq<Valued>, history: seq<DividendTx>, now: int, later: int, k: nat)
    requires k < |divs| && AbsInt(later - now) < Day
    requires PayoutFor(divs[k], holdings, history, now) != []
    ensures PayoutFor(divs[k], holdings, Payouts(divs, holdings, history, now) + history, later) == []
  {
    var paid := Payouts(divs, holdings, history, now);
    PayoutForInRun(divs, holdings, history, now, k);
    var j :| 0 <= j < |paid| && paid[j] == PayoutFor(divs[k], holdings, history, now)[0];
    assert (paid + history)[j] == paid[j];
    assert PaidRecently((paid + history)[j], divs[k], later);
  }

  /** Running the payout again at the same moment, with the first run's
      payouts in the history, pays nothing. */
  lemma RerunPaysNothing(divs: seq<Dividend>, holdings: seq<Valued>, history: seq<DividendTx>, now: int)
    ensures Payouts(divs, holdings, Payouts(divs, holdings, history, now) + history, now) == []
  {
    var paid := Payouts(divs, holdings, history, now);
    var history' := paid + history;
    forall k | 0 <= k < |divs| ensures PayoutFor(divs[k], holdings, history', now) == [] {
      if PayoutFor(divs[k], holdings, history, now) != [] {
        PaidNotRepaid(divs, holdings, history, now, now, k);
      } else if AlreadyPaid(history, divs[k], now) {
        var j :| 0 <= j < |history| && PaidRecently(history[j], divs[k], now);
        assert history'[|paid| + j] == history[j];
      }
    }
    NoPayouts(divs, holdings, history', now);
  }

  /** The result of pressing "Simulate Payout". */
  datatype Outcome =
    | Ignored
    | NoneEligible
    | Paid(payouts: seq<DividendTx>, total: real, newBalance: real, history: seq<DividendTx>)

  /** A payout run.  `insertFailed` says whether storing the payouts failed,
      in which case they are prepended to the history on screen.  After a
      successful insert the page fetches the history again from the store;
      that fetch is store I/O outside the model, so `history` is the
      history before it. */
  function Simulate(user: Option<string>, processing: bool, shown: seq<Dividend>, refetched: Option<seq<Dividend>>,
                    holdings: seq<Valued>, history: seq<DividendTx>, account: Option<Account>, now: int, insertFailed: bool): (r: Outcome)
    ensures r.Ignored? <==> user.None? || processing
    ensures user.Some? && !processing && Payouts(PayoutSource(shown, refetched, now), holdings, history, now) != [] ==> r.Paid?
    ensures r.NoneEligible? <==> user.Some? && !processing && Payouts(PayoutSource(shown, refetched, now), holdings, history, now) == []
    ensures r.Paid? ==> r.payouts == Payouts(PayoutSource(shown, refetched, now), holdings, history, now) && r.payouts != []
    ensures r.Paid? ==> r.total == SumOf(r.payouts, AmountOf) && r.newBalance == BalanceOf(account) + r.total
    ensures r.Paid? ==> r.history == if insertFailed then r.payouts + history else history
  {
    if user.None? || processing then Ignored
    else
      var payouts := Payouts(PayoutSource(shown, refetched, now), holdings, history, now);
      if payouts == [] then NoneEligible
      else
        var total := SumOf(payouts, AmountOf);
        Paid(payouts, total, BalanceOf(account) + total, if insertFailed then payouts + history else history)
  }

  /** A run credits exactly the sum of shares times rate over its payouts,
      and with non-negative rates the balance never goes down. */
  lemma SimulateCredits(user: Option<string>, shown: seq<Dividend>, refetched: Option<seq<Dividend>>,
                        holdings: seq<Valued>, history: seq<DividendTx>, account: Option<Account>, now: int, insertFailed: bool)
    requires forall i :: 0 <= i < |PayoutSource(shown, refetched, now)| ==> PayoutSource(shown, refetched, now)[i].dividendPerShare >= 0.0
    ensures var r := Simulate(user, false, shown, refetched, holdings, history, account, now, insertFailed);
      r.Paid? ==> r.newBalance >= BalanceOf(account)
  {
    var divs := PayoutSource(shown, refetched, now);
    var payouts := Payouts(divs, holdings, history, now);
    PayoutsNonNegative(divs, holdings, history, now);
    SumOfNonNegative(payouts, AmountOf);
  }

  lemma {:induction false} PayoutsNonNegative(divs: seq<Dividend>, holdings: seq<Valued>, history: seq<DividendTx>, now: int)
    requires forall i :: 0 <= i < |divs| ==> divs[i].dividendPerShare >= 0.0
    ensures forall i :: 0 <= i < |Payouts(divs, holdings, history, now)| ==> AmountOf(Payouts(divs, holdings, history, now)[i]) >= 0.0
  {
    if |divs| > 0 {
      PayoutsNonNegative(divs[..|divs| - 1], holdings, history, now);
    }
  }

  /** The estimated payout shown beside an announcement: the held quantity
      (zero when not held) times the rate. */
  function EstimatedPayout(d: Dividend, holdings: seq<Valued>): (r: real)
    ensures HeldFor(holdings, d.symbol).None? ==> r == 0.0
    ensures HeldFor(holdings, d.symbol).Some? ==> r == HeldFor(holdings, d.symbol).value.holding.quantity as real * d.dividendPerShare
  {
    var h := HeldFor(holdings, d.symbol);
    (if h.Some? then h.value.holding.quantity else 0) as real * d.dividendPerShare
  }

  /** A run pays for an announcement exactly the estimate shown for it. */
  lemma PayoutMatchesEstimate(d: Dividend, holdings: seq<Valued>, history: seq<DividendTx>, now: int)
    requires PayoutFor(d, holdings, history, now) != []
    ensures PayoutFor(d, holdings, history, now)[0].totalAmount == EstimatedPayout(d, holdings)
  {
  }

  /** All-time total of the payout history. */
  function TotalAll(history: seq<DividendTx>): real {
    SumOf(history, AmountOf)
  }

  /** Paid in the current calendar year. */
  function InYear(now: int, yearOf: int -> int): DividendTx -> bool {
    (t: DividendTx) => yearOf(t.paidOn) == yearOf(now)
  }

  /** Paid in a month with the current month number, of any year. */
  function InMonthNumber(now: int, monthOf: int -> int): DividendTx -> bool {
    (t: DividendTx) => monthOf(t.paidOn) == monthOf(now)
  }

  /** Paid in the current month of the current year. */
  function InMonth(now: int, monthOf: int -> int, yearOf: int -> int): DividendTx -> bool {
    (t: DividendTx) => monthOf(t.paidOn) == monthOf(now) && yearOf(t.paidOn) == yearOf(now)
  }

  /** "This year": payouts whose calendar year is the current one. */
  function ThisYear(history: seq<DividendTx>, now: int, yearOf: int -> int): (r: seq<DividendTx>)
    ensures IsSubsequence(r, history)
    ensures forall i :: 0 <= i < |r| ==> yearOf(r[i].paidOn) == yearOf(now)
    ensures forall i :: 0 <= i < |history| && yearOf(history[i].paidOn) == yearOf(now) ==> history[i] in r
    ensures |r| == CountWhere(history, InYear(now, yearOf))
  {
    FilterCounts(history, InYear(now, yearOf));
    Filter(history, InYear(now, yearOf))
  }

  /** The year figure: every payout of the history, those of other years
      counting as zero. */
  function TotalYear(history: seq<DividendTx>, now: int, yearOf: int -> int): (r: real)
    ensures r == SumWhere(history, InYear(now, yearOf), AmountOf)
  {
    FilterSums(history, InYear(now, yearOf), AmountOf);
    SumOf(ThisYear(history, now, yearOf), AmountOf)
  }

  /** "This month" as the page computes it: payouts whose calendar month
      number is the current one, in any year. */
  function MonthAsWritten(history: seq<DividendTx>, now: int, monthOf: int -> int): (r: seq<DividendTx>)
    ensures IsSubsequence(r, history)
    ensures forall i :: 0 <= i < |r| ==> monthOf(r[i].paidOn) == monthOf(now)
    ensures forall i :: 0 <= i < |history| && monthOf(history[i].paidOn) == monthOf(now) ==> history[i] in r
    ensures |r| == CountWhere(history, InMonthNumber(now, monthOf))
  {
    FilterCounts(history, InMonthNumber(now, monthOf));
    Filter(history, InMonthNumber(now, monthOf))
  }

  function TotalMonthAsWritten(history: seq<DividendTx>, now: int, monthOf: int -> int): (r: real)
    ensures r == SumWhere(history, InMonthNumber(now, monthOf), AmountOf)
  {
    FilterSums(history, InMonthNumber(now, monthOf), AmountOf);
    SumOf(MonthAsWritten(history, now, monthOf), AmountOf)
  }

  /** "This month" as intended: the payouts of the current month of the
      current year. */
  function ThisMonth(history: seq<DividendTx>, now: int, monthOf: int -> int, yearOf: int -> int): (r: seq<DividendTx>)
    ensures IsSubsequence(r, history)
    ensures forall i :: 0 <= i < |r| ==> monthOf(r[i].paidOn) == monthOf(now) && yearOf(r[i].paidOn) == yearOf(now)
    ensures forall i :: 0 <= i < |history| && monthOf(history[i].paidOn) == monthOf(now) && yearOf(history[i].paidOn) == yearOf(now) ==> history[i] in r
    ensures |r| == CountWhere(history, InMonth(now, monthOf, yearOf))
  {
    FilterCounts(history, InMonth(now, monthOf, yearOf));
    Filter(history, InMonth(now, monthOf, yearOf))
  }

  function TotalMonth(history: seq<DividendTx>, now: int, monthOf: int -> int, yearOf: int -> int): (r: real)
    ensures r == SumWhere(history, InMonth(now, monthOf, yearOf), AmountOf)
  {
    FilterSums(history, InMonth(now, monthOf, yearOf), AmountOf);
    SumOf(ThisMonth(history, now, monthOf, yearOf), AmountOf)
  }

  /** With non-negative payouts the three figures are ordered: month, then
      year, then all time; the page's month figure is also at most the total. */
  lemma TotalsOrdered(history: seq<DividendTx>, now: int, monthOf: int -> int, yearOf: int -> int)
    requires forall i :: 0 <= i < |history| ==> history[i].totalAmount >= 0.0
    ensures 0.0 <= TotalMonth(history, now, monthOf, yearOf) <= TotalYear(history, now, yearOf) <= TotalAll(history)
    ensures TotalMonthAsWritten(history, now, monthOf) <= TotalAll(history)
  {
    assert forall i :: 0 <= i < |history| ==> AmountOf(history[i]) >= 0.0;
    SumOfFilterMonotone(history, InMonth(now, monthOf, yearOf), InYear(now, yearOf), AmountOf);
    SumOfFilterAtMost(history, InYear(now, yearOf), AmountOf);
    SumOfFilterAtMost(history, InMonthNumber(now, monthOf), AmountOf);
    var month := ThisMonth(history, now, monthOf, yearOf);
    assert forall i :: 0 <= i < |month| ==> AmountOf(month[i]) >= 0.0 by {
      forall i | 0 <= i < |month| ensures AmountOf(month[i]) >= 0.0 {
        assert month[i] in history;
      }
    }
    SumOfNonNegative(month, AmountOf);
  }

  /** The page's month figure can exceed its year figure: with a calendar of
      twelve months per year, a payout made in the same month one year
      earlier is counted in "this month" but not in "this year". */
  lemma MonthFigureCountsEarlierYears()
    ensures var history := [DividendTx("TCS", 10, 22.0, 220.0, 0)];
      var monthOf := (t: int) => t % 12;
      var yearOf := (t: int) => t / 12;
      && TotalMonthAsWritten(history, 12, monthOf) == 220.0
      && TotalYear(history, 12, yearOf) == 0.0
      && TotalMonth(history, 12, monthOf, yearOf) == 0.0
  {
    var history := [DividendTx("TCS", 10, 22.0, 220.0, 0)];
    var monthOf := (t: int) => t % 12;
    var yearOf := (t: int) => t / 12;
    assert history[1..] == [];
    assert MonthAsWritten(history, 12, monthOf) == history;
    assert ThisYear(history, 12, yearOf) == [];
  }
}
