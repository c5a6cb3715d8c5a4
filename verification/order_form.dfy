/** The order form: parsing the typed quantity, the estimate, the BUY and
    SELL gates, the remaining-cash figure and the two warnings, and what a
    submission hands to settlement.
 */
module OrderForm {
  import opened Common
  import opened Seqs
  import opened Orders
  import opened Stocks

  predicate IsDigit(c: char) {
    '0' <= c <= '9'
  }

  predicate AllDigits(s: string) {
    forall i :: 0 <= i < |s| ==> IsDigit(s[i])
  }

  /** The value of a run of decimal digits. */
  function DigitsValue(s: string): nat
    requires AllDigits(s)
  {
    if |s| == 0 then 0
    else DigitsValue(s[..|s| - 1]) * 10 + (s[|s| - 1] as int - '0' as int)
  }

  /** Appending a digit multiplies the value by ten and adds the digit. */
  lemma DigitsValueSnoc(a: string, c: char)
    requires AllDigits(a) && IsDigit(c)
    ensures AllDigits(a + [c])
    ensures DigitsValue(a + [c]) == DigitsValue(a) * 10 + (c as int - '0' as int)
  {
    var t := a + [c];
    assert t[..|t| - 1] == a;
  }

  /** The end of the run of digits that starts at `i`. */
  function DigitRunEnd(s: string, i: nat): (e: nat)
    requires i <= |s|
    ensures i <= e <= |s|
    ensures AllDigits(s[i..e])
    ensures e == |s| || !IsDigit(s[e])
    decreases |s| - i
  {
    if i < |s| && IsDigit(s[i]) then
      var e := DigitRunEnd(s, i + 1);
      assert s[i..e] == [s[i]] + s[i + 1..e];
      e
    else i
  }

  /** Position of the first digit: past an optional leading sign. */
  function SignLength(s: string): nat {
    if |s| > 0 && (s[0] == '+' || s[0] == '-') then 1 else 0
  }

  /** `parseInt(s, 10)` on text without leading white space: an optional
      sign and the longest run of digits after it; `None` stands for `NaN`. */
  function ParseIntValue(s: string): (r: Option<int>)
    ensures r.None? <==> DigitRunEnd(s, SignLength(s)) == SignLength(s)
  {
    var start := SignLength(s);
    var end := DigitRunEnd(s, start);
    if end == start then None
    else
      var magnitude: int := DigitsValue(s[start..end]);
      Some(if start == 1 && s[0] == '-' then -magnitude else magnitude)
  }

  /** The same parse as one left-to-right scan accumulating the value. */
  method ParseInt(s: string) returns (r: Option<int>)
    ensures r == ParseIntValue(s)
  {
    var start := SignLength(s);
    var i := start;
    var acc := 0;
    while i < |s| && IsDigit(s[i])
      invariant start <= i <= |s|
      invariant AllDigits(s[start..i])
      invariant DigitRunEnd(s, i) == DigitRunEnd(s, start)
      invariant acc == DigitsValue(s[start..i])
      decreases |s| - i
    {
      assert s[start..i + 1] == s[start..i] + [s[i]];
      DigitsValueSnoc(s[start..i], s[i]);
      acc := acc * 10 + (s[i] as int - '0' as int);
      i := i + 1;
    }
    if i == start {
      r := None;
    } else if start == 1 && s[0] == '-' {
      r := Some(-acc);
    } else {
      r := Some(acc);
    }
  }

  /** Decimal rendering of a natural number, most significant digit first. */
  function ShowNat(n: nat): (s: string)
    ensures |s| > 0 && AllDigits(s)
  {
    var d := ['0' + (n % 10) as char];
    if n < 10 then d else ShowNat(n / 10) + d
  }

  lemma {:induction false} DigitsValueShowNat(n: nat)
    ensures DigitsValue(ShowNat(n)) == n
  {
    var s := ShowNat(n);
    if n >= 10 {
      DigitsValueShowNat(n / 10);
      assert s[..|s| - 1] == ShowNat(n / 10);
    }
  }

  lemma DigitRunToEnd(s: string, i: nat)
    requires i <= |s| && AllDigits(s[i..])
    ensures DigitRunEnd(s, i) == |s|
    decreases |s| - i
  {
    if i < |s| {
      assert s[i] == s[i..][0];
      assert s[i + 1..] == s[i..][1..];
      DigitRunToEnd(s, i + 1);
    }
  }

  /** Parsing the decimal rendering of a number, with or without a minus
      sign, gives the number back. */
  lemma ParseShowRoundTrip(n: nat)
    ensures ParseIntValue(ShowNat(n)) == Some(n)
    ensures n > 0 ==> ParseIntValue("-" + ShowNat(n)) == Some(-(n as int))
  {
    var s := ShowNat(n);
    DigitsValueShowNat(n);
    assert SignLength(s) == 0;
    assert s[0..] == s;
    DigitRunToEnd(s, 0);
    assert s[0..|s|] == s;
    var t := "-" + s;
    assert t[1..] == s;
    DigitRunToEnd(t, 1);
    assert t[1..|t|] == s;
  }

  /** The inputs the form reads: the selected side, the typed quantity, the
      stock being traded, the user's account and portfolio holdings. */
  datatype Form = Form(side: Side, quantityText: string, stock: Stock, account: Option<Account>, holdings: seq<Holding>)

  /** `holdings.find(h => h.stock_id === stock.id)`. */
  function HoldingOf(f: Form): Option<Holding> {
    Find(f.holdings, (h: Holding) => h.stockId == f.stock.id)
  }

  function Balance(f: Form): real {
    BalanceOf(f.account)
  }

  /** `stock.current_price || 0`. */
  function Price(f: Form): real {
    OrElse(f.stock.currentPrice, 0.0)
  }

  /** `parseInt(quantity) || 0`. */
  function Qty(f: Form): (q: int)
    ensures ParseIntValue(f.quantityText).None? ==> q == 0
    ensures ParseIntValue(f.quantityText).Some? ==> q == ParseIntValue(f.quantityText).value
  {
    ParseIntValue(f.quantityText).GetOr(0)
  }

  function EstimatedValue(f: Form): real {
    Qty(f) as real * Price(f)
  }

  predicate CanBuy(f: Form) {
    f.side.Buy? && EstimatedValue(f) <= Balance(f) && Qty(f) > 0
  }

  predicate CanSell(f: Form) {
    f.side.Sell? && Qty(f) > 0 && HoldingOf(f).Some? && Qty(f) <= HoldingOf(f).value.quantity
  }

  predicate CanSubmit(f: Form) {
    if f.side.Buy? then CanBuy(f) else CanSell(f)
  }

  /** `Math.max(0, balance - estimatedValue)`: never negative, and for a
      permitted BUY it is the balance left after paying the estimate. */
  function RemainingCash(f: Form): (r: real)
    ensures r >= 0.0
    ensures EstimatedValue(f) <= Balance(f) ==> r == Balance(f) - EstimatedValue(f)
    ensures EstimatedValue(f) > Balance(f) ==> r == 0.0
  {
    Max(0.0, Balance(f) - EstimatedValue(f))
  }

  predicate InsufficientCashWarning(f: Form) {
    f.side.Buy? && EstimatedValue(f) > Balance(f) && Qty(f) > 0
  }

  predicate InsufficientQuantityWarning(f: Form) {
    f.side.Sell? && (HoldingOf(f).None? || (Qty(f) > 0 && Qty(f) > HoldingOf(f).value.quantity)) && Qty(f) > 0
  }

  /** A positive quantity is either submittable or flagged by the warning of
      the selected side, never both; a non-positive one is neither. */
  lemma WarningsMatchGates(f: Form)
    ensures Qty(f) > 0 && f.side.Buy? ==> (InsufficientCashWarning(f) <==> !CanSubmit(f))
    ensures Qty(f) > 0 && f.side.Sell? ==> (InsufficientQuantityWarning(f) <==> !CanSubmit(f))
    ensures Qty(f) <= 0 ==> !CanSubmit(f) && !InsufficientCashWarning(f) && !InsufficientQuantityWarning(f)
    ensures !(InsufficientCashWarning(f) && InsufficientQuantityWarning(f))
  {
  }

  /** `handleSubmit`: nothing unless the gate of the selected side is open;
      otherwise a market order for the parsed quantity at the quoted price. */
  function Submit(f: Form): (r: Option<OrderRequest>)
    ensures r.Some? <==> CanSubmit(f)
    ensures r.Some? ==> r.value.stockId == f.stock.id && r.value.side == f.side
    ensures r.Some? ==> r.value.quantity > 0 && r.value.quantity == Qty(f) && r.value.price == Price(f)
    ensures r.Some? && f.side.Buy? ==> TotalValue(r.value) <= Balance(f)
    ensures r.Some? && f.side.Sell? ==> HoldingOf(f).Some? && r.value.quantity <= HoldingOf(f).value.quantity
  {
    if CanSubmit(f) then Some(OrderRequest(f.stock.id, f.side, Qty(f), Price(f))) else None
  }

  /** The form's holding list is exactly the content of the holding store. */
  predicate ListsStore(hs: seq<Holding>, m: map<string, Holding>) {
    && (forall i :: 0 <= i < |hs| ==> hs[i].stockId in m && m[hs[i].stockId] == hs[i])
    && (forall id :: id in m ==> m[id] in hs)
  }

  lemma HoldingOfStore(f: Form, m: map<string, Holding>)
    requires ValidHoldings(m) && ListsStore(f.holdings, m)
    ensures f.stock.id in m ==> HoldingOf(f) == Some(m[f.stock.id])
    ensures f.stock.id !in m ==> HoldingOf(f).None?
  {
    var id := f.stock.id;
    if id in m {
      assert m[id] in f.holdings;
      var k :| 0 <= k < |f.holdings| && f.holdings[k] == m[id];
      assert f.holdings[k].stockId == id;
    }
  }

  /** Whatever the form submits passes settlement's cash and share checks
      when the form saw the same account and holdings as the store; a
      submitted BUY leaves exactly the remaining cash the form displayed. */
  lemma SubmittedOrderSettles(f: Form, user: Option<string>, l: Ledger)
    requires Submit(f).Some?
    requires Authenticated(user) && l.account.Some? && l.account == f.account
    requires ValidHoldings(l.holdings) && ListsStore(f.holdings, l.holdings)
    ensures PlaceOrder(user, l, Submit(f).value).Success?
    ensures f.side.Buy? ==> PlaceOrder(user, l, Submit(f).value).value.account.value.balance == RemainingCash(f)
  {
    var req := Submit(f).value;
    SubmitPassesChecks(f, l);
    ChecksPassSettles(user, l, req);
  }

  /** The gate the form applies implies the checks settlement applies, and a
      permitted BUY's remaining cash is the balance less the order value. */
  lemma SubmitPassesChecks(f: Form, l: Ledger)
    requires Submit(f).Some?
    requires l.account.Some? && l.account == f.account
    requires ValidHoldings(l.holdings) && ListsStore(f.holdings, l.holdings)
    ensures var req := Submit(f).value;
      && req.quantity > 0
      && (req.side.Buy? ==> TotalValue(req) <= l.account.value.balance && RemainingCash(f) == l.account.value.balance - TotalValue(req))
      && (req.side.Sell? ==> req.stockId in l.holdings && l.holdings[req.stockId].quantity >= req.quantity)
  {
    HoldingOfStore(f, l.holdings);
    var req := Submit(f).value;
    if f.side.Buy? {
      assert TotalValue(req) == EstimatedValue(f);
      assert Balance(f) == l.account.value.balance;
    }
  }

  lemma ChecksPassSettles(user: Option<string>, l: Ledger, req: OrderRequest)
    requires req.quantity > 0 && ValidHoldings(l.holdings)
    requires Authenticated(user) && l.account.Some?
    requires req.side.Buy? ==> TotalValue(req) <= l.account.value.balance
    requires req.side.Sell? ==> req.stockId in l.holdings && l.holdings[req.stockId].quantity >= req.quantity
    ensures PlaceOrder(user, l, req).Success?
    ensures req.side.Buy? ==> PlaceOrder(user, l, req).value.account.value.balance == l.account.value.balance - TotalValue(req)
  {
    var r := PlaceOrder(user, l, req);
    if r.Failure? {
      match r.error
      case NotAuthenticated =>
      case AccountNotFound =>
      case InsufficientCash =>
      case InsufficientShares =>
    }
  }
}
