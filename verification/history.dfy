/** The transaction history page's summary: total, BUY and SELL counts. */
module History {
  import opened Common
  import opened Seqs
  import opened Orders

  predicate IsBuy(t: TransactionRecord) {
    t.side.Buy?
  }

  predicate IsSell(t: TransactionRecord) {
    t.side.Sell?
  }

  /** "Buy Orders": the number of BUY transactions. */
  function TotalBuys(txs: seq<TransactionRecord>): (n: nat)
    ensures n <= |txs|
    ensures n == 0 <==> forall i :: 0 <= i < |txs| ==> !IsBuy(txs[i])
    ensures n == CountWhere(txs, IsBuy)
  {
    var b := Filter(txs, IsBuy);
    assert b != [] ==> b[0] in txs && IsBuy(b[0]);
    FilterCounts(txs, IsBuy);
    |b|
  }

  /** "Sell Orders": the number of SELL transactions. */
  function TotalSells(txs: seq<TransactionRecord>): (n: nat)
    ensures n <= |txs|
    ensures n == 0 <==> forall i :: 0 <= i < |txs| ==> !IsSell(txs[i])
    ensures n == CountWhere(txs, IsSell)
  {
    var s := Filter(txs, IsSell);
    assert s != [] ==> s[0] in txs && IsSell(s[0]);
    FilterCounts(txs, IsSell);
    |s|
  }

  /** "Total Orders". */
  function TotalOrders(txs: seq<TransactionRecord>): nat {
    |txs|
  }

  /** Every transaction is a BUY or a SELL, so the two counts add up to the
      total. */
  lemma {:induction false} CountsAddUp(txs: seq<TransactionRecord>)
    ensures TotalBuys(txs) + TotalSells(txs) == TotalOrders(txs)
  {
    if |txs| > 0 {
      CountsAddUp(txs[1..]);
    }
  }

  /** A settled order adds one to the total and one to the count of its own
      side, and leaves the other count as it was. */
  lemma SettlementCounts(user: Option<string>, l: Ledger, req: OrderRequest)
    requires req.quantity > 0 && ValidHoldings(l.holdings)
    requires PlaceOrder(user, l, req).Success?
    ensures var txs := PlaceOrder(user, l, req).value.transactions;
      && TotalOrders(txs) == TotalOrders(l.transactions) + 1
      && TotalBuys(txs) == TotalBuys(l.transactions) + (if req.side.Buy? then 1 else 0)
      && TotalSells(txs) == TotalSells(l.transactions) + (if req.side.Sell? then 1 else 0)
  {
    var txs := PlaceOrder(user, l, req).value.transactions;
    var t := txs[|txs| - 1];
    assert txs == l.transactions + [t];
    FilterSnoc(l.transactions, t, IsBuy);
    FilterSnoc(l.transactions, t, IsSell);
  }
}
