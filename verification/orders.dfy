/** Order settlement (`placeOrder` of the `useOrders` hook): validating a
    BUY or SELL market order against the virtual account and the current
    holding, then producing the next balance, the next holding and one
    order and one transaction record.

    The four writes the hook issues one after another are modelled as one
    atomic transition over a `Ledger`, the in-memory image of one user's
    rows in the account, holding, order and transaction stores.
 */
module Orders {
  import opened Common

  datatype Side = Buy | Sell

  datatype Account = Account(balance: real, initialBalance: real)

  /** A position in one stock.  Stored holdings always have a positive
      quantity: a SELL that empties one deletes it. */
  datatype Holding = Holding(stockId: string, quantity: int, averagePrice: real, totalInvested: real)

  /** The parameters of `placeOrder`: a market order at the quoted price. */
  datatype OrderRequest = OrderRequest(stockId: string, side: Side, quantity: int, price: real)

  datatype OrderStatus = Completed

  datatype OrderRecord = OrderRecord(
    userId: string, stockId: string, side: Side, quantity: int, price: real,
    totalValue: real, status: OrderStatus)

  /** A transaction row; `orderId` is the position of its order in the order log. */
  datatype TransactionRecord = TransactionRecord(
    userId: string, orderId: nat, stockId: string, side: Side, quantity: int,
    price: real, totalValue: real)

  /** One user's rows: the virtual account (if created), holdings by stock
      id, and the append-only order and transaction logs. */
  datatype Ledger = Ledger(
    account: Option<Account>,
    holdings: map<string, Holding>,
    orders: seq<OrderRecord>,
    transactions: seq<TransactionRecord>)

  datatype OrderError = NotAuthenticated | AccountNotFound | InsufficientCash | InsufficientShares

  /** The initial balance shown when no account row exists. */
  const DefaultInitialBalance: real := 1000000.0

  /** `account?.balance ?? 0`. */
  function BalanceOf(account: Option<Account>): real {
    if account.Some? then account.value.balance else 0.0
  }

  /** `account?.initial_balance ?? 1000000`. */
  function InitialBalanceOf(account: Option<Account>): real {
    if account.Some? then account.value.initialBalance else DefaultInitialBalance
  }

  /** Every stored holding is filed under its own stock id and is non-empty. */
  predicate ValidHoldings(m: map<string, Holding>) {
    forall id :: id in m ==> m[id].stockId == id && m[id].quantity > 0
  }

  /** The average price is the cost per share of the position. */
  predicate CostConsistent(h: Holding) {
    h.averagePrice * h.quantity as real == h.totalInvested
  }

  predicate AllCostConsistent(m: map<string, Holding>) {
    forall id :: id in m ==> CostConsistent(m[id])
  }

  /** A user id is present when it is a non-empty string (`!user?.id`). */
  predicate Authenticated(user: Option<string>) {
    user.Some? && user.value != ""
  }

  function TotalValue(req: OrderRequest): real {
    req.quantity as real * req.price
  }

  /** The holding after buying: a fresh position at the order price, or the
      existing one with quantity and cost added and the average recomputed. */
  function BuyInto(existing: Option<Holding>, req: OrderRequest): (h: Holding)
    requires req.quantity > 0
    requires existing.Some? ==> existing.value.quantity > 0
    ensures h.stockId == req.stockId
    ensures h.quantity == req.quantity + (if existing.Some? then existing.value.quantity else 0)
    ensures h.totalInvested == TotalValue(req) + (if existing.Some? then existing.value.totalInvested else 0.0)
    ensures existing.None? ==> h.averagePrice == req.price
    ensures CostConsistent(h)
  {
    var tv := TotalValue(req);
    match existing
    case None => Holding(req.stockId, req.quantity, req.price, tv)
    case Some(prev) =>
      var newQuantity := prev.quantity + req.quantity;
      var newTotalInvested := prev.totalInvested + tv;
      Holding(req.stockId, newQuantity, newTotalInvested / newQuantity as real, newTotalInvested)
  }

  /** The holding after selling: deleted when emptied, otherwise the cost
      basis is reduced in proportion to the shares sold and the average
      price is left as it was. */
  function SellFrom(held: Holding, req: OrderRequest): (r: Option<Holding>)
    requires 0 < req.quantity <= held.quantity
    ensures r.None? <==> req.quantity == held.quantity
    ensures r.Some? ==> r.value.stockId == held.stockId && r.value.averagePrice == held.averagePrice
    ensures r.Some? ==> r.value.quantity == held.quantity - req.quantity > 0
    ensures r.Some? ==> r.value.totalInvested * held.quantity as real == held.totalInvested * r.value.quantity as real
    ensures r.Some? && CostConsistent(held) ==> CostConsistent(r.value)
  {
    var newQuantity := held.quantity - req.quantity;
    var sellProportion := req.quantity as real / held.quantity as real;
    var newTotalInvested := held.totalInvested * (1.0 - sellProportion);
    if newQuantity == 0 then None
    else
      ProportionalCost(held.totalInvested, held.quantity as real, req.quantity as real);
      assert CostConsistent(held) ==> held.averagePrice * newQuantity as real == newTotalInvested by {
        if CostConsistent(held) {
          ProportionalCostConsistent(held.averagePrice, held.totalInvested, held.quantity as real, req.quantity as real);
        }
      }
      Some(held.(quantity := newQuantity, totalInvested := newTotalInvested))
  }

  lemma ProportionalCost(ti: real, q0: real, q: real)
    requires q0 != 0.0
    ensures ti * (1.0 - q / q0) * q0 == ti * (q0 - q)
  {
    calc {
      ti * (1.0 - q / q0) * q0;
      ti * (q0 - q / q0 * q0);
      { assert q / q0 * q0 == q; }
      ti * (q0 - q);
    }
  }

  lemma ProportionalCostConsistent(avg: real, ti: real, q0: real, q: real)
    requires q0 != 0.0 && avg * q0 == ti
    ensures avg * (q0 - q) == ti * (1.0 - q / q0)
  {
    calc {
      ti * (1.0 - q / q0);
      avg * q0 * (1.0 - q / q0);
      avg * (q0 - q0 * (q / q0));
      { assert q0 * (q / q0) == q; }
      avg * (q0 - q);
    }
  }

  function Holdings(m: map<string, Holding>, id: string, h: Option<Holding>): (r: map<string, Holding>)
    ensures h.Some? ==> id in r && r[id] == h.value
    ensures h.None? ==> id !in r
    ensures forall k :: k != id ==> (k in r <==> k in m) && (k in m ==> r[k] == m[k])
  {
    match h
    case Some(v) => m[id := v]
    case None => m - {id}
  }

  /** Settles one order.  The checks run in the hook's order: user, account,
      cash for a BUY, shares for a SELL; a failed check changes nothing. */
  function PlaceOrder(user: Option<string>, l: Ledger, req: OrderRequest): (r: Result<Ledger, OrderError>)
    requires req.quantity > 0
    requires ValidHoldings(l.holdings)
    ensures r == Failure(NotAuthenticated) <==> !Authenticated(user)
    ensures r == Failure(AccountNotFound) <==> Authenticated(user) && l.account.None?
    ensures r == Failure(InsufficientCash) <==>
      Authenticated(user) && l.account.Some? && req.side.Buy? && TotalValue(req) > l.account.value.balance
    ensures r == Failure(InsufficientShares) <==>
      Authenticated(user) && l.account.Some? && req.side.Sell? &&
      (req.stockId !in l.holdings || l.holdings[req.stockId].quantity < req.quantity)
    ensures r.Success? ==> r.value.account.Some? && r.value.account.value.initialBalance == l.account.value.initialBalance
    ensures r.Success? && req.side.Buy? ==>
      r.value.account.value.balance == l.account.value.balance - TotalValue(req) >= 0.0
    ensures r.Success? && req.side.Sell? ==>
      r.value.account.value.balance == l.account.value.balance + TotalValue(req)
    ensures r.Success? ==> r.value.holdings == SettleHoldings(l.holdings, req)
    ensures r.Success? ==> ValidHoldings(r.value.holdings)
    ensures r.Success? && AllCostConsistent(l.holdings) ==> AllCostConsistent(r.value.holdings)
    ensures r.Success? ==>
      && r.value.orders == l.orders + [OrderRecord(user.value, req.stockId, req.side, req.quantity, req.price, TotalValue(req), Completed)]
      && r.value.transactions == l.transactions + [TransactionRecord(user.value, |l.orders|, req.stockId, req.side, req.quantity, req.price, TotalValue(req))]
  {
    if !Authenticated(user) then Failure(NotAuthenticated)
    else if l.account.None? then Failure(AccountNotFound)
    else
      var account := l.account.value;
      var tv := TotalValue(req);
      if req.side.Buy? && tv > account.balance then Failure(InsufficientCash)
      else if req.side.Sell? && (req.stockId !in l.holdings || l.holdings[req.stockId].quantity < req.quantity) then
        Failure(InsufficientShares)
      else
        var order := OrderRecord(user.value, req.stockId, req.side, req.quantity, req.price, tv, Completed);
        var tx := TransactionRecord(user.value, |l.orders|, req.stockId, req.side, req.quantity, req.price, tv);
        var balance := if req.side.Buy? then account.balance - tv else account.balance + tv;
        Success(Ledger(
          Some(account.(balance := balance)),
          SettleHoldings(l.holdings, req),
          l.orders + [order],
          l.transactions + [tx]))
  }

  /** The holdings after a settled order: the traded stock's holding bought
      into or sold from, every other holding as it was. */
  function SettleHoldings(m: map<string, Holding>, req: OrderRequest): (r: map<string, Holding>)
    requires req.quantity > 0 && ValidHoldings(m)
    requires req.side.Sell? ==> req.stockId in m && m[req.stockId].quantity >= req.quantity
    ensures ValidHoldings(r)
    ensures AllCostConsistent(m) ==> AllCostConsistent(r)
    ensures req.side.Buy? ==>
      && req.stockId in r
      && r[req.stockId] == BuyInto(if req.stockId in m then Some(m[req.stockId]) else None, req)
    ensures req.side.Sell? ==>
      && (req.stockId in r <==> SellFrom(m[req.stockId], req).Some?)
      && (req.stockId in r ==> r[req.stockId] == SellFrom(m[req.stockId], req).value)
    ensures forall k :: k != req.stockId ==> (k in r <==> k in m) && (k in m ==> r[k] == m[k])
  {
    var existing := if req.stockId in m then Some(m[req.stockId]) else None;
    var next :=
      if req.side.Buy? then Some(BuyInto(existing, req))
      else SellFrom(m[req.stockId], req);
    Holdings(m, req.stockId, next)
  }

  function Buy(id: string, quantity: int, price: real): OrderRequest {
    OrderRequest(id, Side.Buy, quantity, price)
  }

  function Sell(id: string, quantity: int, price: real): OrderRequest {
    OrderRequest(id, Side.Sell, quantity, price)
  }

  /** Two buys into an empty position leave the quantity-weighted average
      of the two prices as the average price. */
  lemma BuyTwiceAverage(id: string, q1: int, p1: real, q2: int, p2: real)
    requires q1 > 0 && q2 > 0
    ensures var h := BuyInto(Some(BuyInto(None, Buy(id, q1, p1))), Buy(id, q2, p2));
      && h.quantity == q1 + q2
      && h.totalInvested == q1 as real * p1 + q2 as real * p2
      && h.averagePrice == (q1 as real * p1 + q2 as real * p2) / (q1 + q2) as real
  {
    var h1 := BuyInto(None, Buy(id, q1, p1));
    var h2 := BuyInto(Some(h1), Buy(id, q2, p2));
    AverageIsQuotient(h2.averagePrice, h2.totalInvested, h2.quantity as real);
  }

  lemma AverageIsQuotient(avg: real, total: real, q: real)
    requires q > 0.0 && avg * q == total
    ensures avg == total / q
  {
  }

  /** Selling part of a position keeps its cost per share: the cost basis
      shrinks by exactly the fraction of shares sold. */
  lemma SellKeepsCostPerShare(held: Holding, req: OrderRequest)
    requires 0 < req.quantity < held.quantity
    ensures SellFrom(held, req).Some?
    ensures var after := SellFrom(held, req).value;
      && after.totalInvested == held.totalInvested * (after.quantity as real / held.quantity as real)
      && after.totalInvested / after.quantity as real == held.totalInvested / held.quantity as real
  {
    var after := SellFrom(held, req).value;
    ScaleByRatio(after.totalInvested, held.totalInvested, held.quantity as real, after.quantity as real);
  }

  lemma ScaleByRatio(a: real, b: real, q0: real, q1: real)
    requires q0 > 0.0 && q1 > 0.0 && a * q0 == b * q1
    ensures a == b * (q1 / q0)
    ensures a / q1 == b / q0
  {
    calc {
      b * (q1 / q0);
      (b * q1) / q0;
      (a * q0) / q0;
      a;
    }
    calc {
      a / q1;
      (b * (q1 / q0)) / q1;
      b / q0;
    }
  }

  /** After buying into an empty position, selling the same quantity
      passes settlement's checks. */
  lemma BuyThenSellSucceeds(user: Option<string>, l: Ledger, id: string, q: int, p: real)
    requires q > 0 && ValidHoldings(l.holdings) && id !in l.holdings
    requires PlaceOrder(user, l, Buy(id, q, p)).Success?
    ensures PlaceOrder(user, PlaceOrder(user, l, Buy(id, q, p)).value, Sell(id, q, p)).Success?
  {
    BuySellHoldingsRestore(l.holdings, id, q, p);
  }

  /** Buying into an empty position and selling the same quantity at the
      same price restores the account and removes the position. */
  lemma BuyThenSellRestores(user: Option<string>, l: Ledger, id: string, q: int, p: real)
    requires q > 0 && ValidHoldings(l.holdings) && id !in l.holdings
    requires PlaceOrder(user, l, Buy(id, q, p)).Success?
    requires PlaceOrder(user, PlaceOrder(user, l, Buy(id, q, p)).value, Sell(id, q, p)).Success?
    ensures var l2 := PlaceOrder(user, PlaceOrder(user, l, Buy(id, q, p)).value, Sell(id, q, p)).value;
      && l2.account == l.account
      && l2.holdings == l.holdings
      && |l2.orders| == |l.orders| + 2
  {
    var l1 := PlaceOrder(user, l, Buy(id, q, p)).value;
    BuySellHoldingsRestore(l.holdings, id, q, p);
    var l2 := PlaceOrder(user, l1, Sell(id, q, p)).value;
    assert l2.account.value.balance == l1.account.value.balance + q as real * p;
    assert l2.account.value == l.account.value;
  }

  lemma BuySellHoldingsRestore(m: map<string, Holding>, id: string, q: int, p: real)
    requires q > 0 && ValidHoldings(m) && id !in m
    ensures SettleHoldings(m, Buy(id, q, p))[id].quantity == q
    ensures SettleHoldings(SettleHoldings(m, Buy(id, q, p)), Sell(id, q, p)) == m
  {
    var m1 := SettleHoldings(m, Buy(id, q, p));
    var m2 := SettleHoldings(m1, Sell(id, q, p));
    assert m2.Keys == m.Keys;
  }

  /** The worked example: a 100000 balance, 10 bought at 100, then 4 sold at 120. */
  lemma SettlementExample()
    ensures var l0 := Ledger(Some(Account(100000.0, 1000000.0)), map[], [], []);
      var l1 := PlaceOrder(Some("u"), l0, Buy("s", 10, 100.0));
      && l1.Success?
      && l1.value.account.value.balance == 99000.0
      && l1.value.holdings["s"] == Holding("s", 10, 100.0, 1000.0)
      && var l2 := PlaceOrder(Some("u"), l1.value, Sell("s", 4, 120.0));
      && l2.Success?
      && l2.value.account.value.balance == 99480.0
      && l2.value.holdings["s"] == Holding("s", 6, 100.0, 600.0)
  {
  }
}
