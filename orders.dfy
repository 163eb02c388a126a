/**
 * The order bookkeeping of an exchange session: the order records carried by
 * execution reports, and the specification of how a report changes the table of
 * open orders and the set of client order ids whose mutation is still in flight.
 */
module Orders {

  datatype Side = Buy | Sell

  /**
   * The `params` object of an execution report. The exchange sends the whole
   * order back; the fields read by the session are the client order id, the
   * report type, the status, the id of the order a replacement supersedes, and
   * price and quantity (compared exactly when an adjustment is requested).
   */
  datatype Order = Order(
    clientOrderId: string,
    originalRequestClientOrderId: string,
    reportType: string,
    status: string,
    symbol: string,
    side: Side,
    price: real,
    quantity: real)

  /** An inbound report message; its `params` is the reported order. */
  datatype Report = Report(params: Order)

  /** The orders whose client id differs from `id`, in their original order. */
  function WithoutId(orders: seq<Order>, id: string): (r: seq<Order>)
    ensures |r| <= |orders|
  {
    if orders == [] then []
    else
      (if orders[0].clientOrderId == id then [] else [orders[0]]) + WithoutId(orders[1..], id)
  }

  /** Report types after which the reported order is no longer open. */
  predicate IsClosingType(reportType: string) {
    reportType == "canceled" || reportType == "expired" || reportType == "suspended"
  }

  /** True when the report takes its own order out of the open-order table. */
  predicate RemovesReportedOrder(p: Order) {
    (p.reportType == "trade" && p.status == "filled") || IsClosingType(p.reportType)
  }

  /** The open-order table after a report with parameters `p`. */
  function OrdersAfterReport(orders: seq<Order>, p: Order): (r: seq<Order>)
    ensures forall o :: o in r ==> o in orders || o == p
    ensures p.reportType == "replaced" || p.reportType == "new" ==> |r| > 0 && r[|r| - 1] == p
  {
    WithoutIdMembers(orders, p.clientOrderId);
    WithoutIdMembers(orders, p.originalRequestClientOrderId);
    if p.reportType == "replaced" then WithoutId(orders, p.originalRequestClientOrderId) + [p]
    else if p.reportType == "new" then orders + [p]
    else if p.reportType == "trade" && p.status == "filled" then WithoutId(orders, p.clientOrderId)
    else if IsClosingType(p.reportType) then WithoutId(orders, p.clientOrderId)
    else orders
  }

  /** The in-progress ids after a report with parameters `p`. */
  function InProgressAfterReport(inProgress: set<string>, p: Order): (r: set<string>)
    ensures r <= inProgress
    ensures p.clientOrderId !in r
    ensures p.reportType == "replaced" ==> p.originalRequestClientOrderId !in r
    ensures forall id :: id in inProgress && id != p.clientOrderId
                         && (p.reportType != "replaced" || id != p.originalRequestClientOrderId)
                         ==> id in r
  {
    var cleared := inProgress - {p.clientOrderId};
    if p.reportType == "replaced" then cleared - {p.originalRequestClientOrderId} else cleared
  }

  /**
   * An adjustment is refused while a mutation of the order is in flight, and when
   * the requested price and quantity both equal the order's current ones.
   */
  function AdjustAllowed(inProgress: set<string>, order: Order, price: real, qty: real): (allowed: bool)
    ensures order.clientOrderId in inProgress ==> !allowed
    ensures order.price == price && order.quantity == qty ==> !allowed
    ensures order.clientOrderId !in inProgress && (order.price != price || order.quantity != qty) ==> allowed
  {
    order.clientOrderId !in inProgress && !(order.price == price && order.quantity == qty)
  }

  // ---------------------------------------------------------------------------
  // Properties of the filter

  /** Filtering distributes over concatenation: it keeps the relative order. */
  lemma {:induction false} WithoutIdConcat(a: seq<Order>, b: seq<Order>, id: string)
    ensures WithoutId(a + b, id) == WithoutId(a, id) + WithoutId(b, id)
  {
    if a == [] {
      assert a + b == b;
    } else {
      var ab := a + b;
      var head := if a[0].clientOrderId == id then [] else [a[0]];
      assert ab != [] && ab[0] == a[0];
      assert ab[1..] == a[1..] + b;
      WithoutIdConcat(a[1..], b, id);
      calc {
        WithoutId(ab, id);
        head + WithoutId(a[1..] + b, id);
        head + (WithoutId(a[1..], id) + WithoutId(b, id));
        (head + WithoutId(a[1..], id)) + WithoutId(b, id);
        WithoutId(a, id) + WithoutId(b, id);
      }
    }
  }

  /** The filter keeps exactly the orders whose client id differs from `id`. */
  lemma {:induction false} WithoutIdMembers(orders: seq<Order>, id: string)
    ensures forall o :: o in WithoutId(orders, id) <==> o in orders && o.clientOrderId != id
  {
    if orders != [] {
      WithoutIdMembers(orders[1..], id);
      assert orders == [orders[0]] + orders[1..];
    }
  }

  /** Filtering twice by the same id is filtering once. */
  lemma {:induction false} WithoutIdIdempotent(orders: seq<Order>, id: string)
    ensures WithoutId(WithoutId(orders, id), id) == WithoutId(orders, id)
  {
    if orders != [] {
      var head := if orders[0].clientOrderId == id then [] else [orders[0]];
      WithoutIdConcat(head, WithoutId(orders[1..], id), id);
      WithoutIdIdempotent(orders[1..], id);
    }
  }

  /** A table holding no order with the id is left exactly as it was. */
  lemma {:induction false} WithoutAbsentId(orders: seq<Order>, id: string)
    requires forall o :: o in orders ==> o.clientOrderId != id
    ensures WithoutId(orders, id) == orders
  {
    if orders != [] {
      assert orders[0] in orders;
      forall o | o in orders[1..] ensures o.clientOrderId != id {
        assert o in orders;
      }
      WithoutAbsentId(orders[1..], id);
      assert orders == [orders[0]] + orders[1..];
    }
  }

  // ---------------------------------------------------------------------------
  // Effect of each report kind on the open-order table

  /**
   * A "replaced" report drops every order with the superseded id and appends
   * the new order; afterwards the only order that may still carry the old id
   * is the new order itself.
   */
  lemma ReplacedReportSwapsOrder(orders: seq<Order>, p: Order)
    requires p.reportType == "replaced"
    ensures var r := OrdersAfterReport(orders, p);
      && |r| > 0 && r[|r| - 1] == p
      && (forall o :: o in r[..|r| - 1] <==> o in orders && o.clientOrderId != p.originalRequestClientOrderId)
      && (forall o :: o in r && o.clientOrderId == p.originalRequestClientOrderId ==> o == p)
  {
    var r := OrdersAfterReport(orders, p);
    var kept := WithoutId(orders, p.originalRequestClientOrderId);
    WithoutIdMembers(orders, p.originalRequestClientOrderId);
    assert r[..|r| - 1] == kept;
  }

  /** A "new" report appends the order and leaves every earlier entry in place. */
  lemma NewReportAppends(orders: seq<Order>, p: Order)
    requires p.reportType == "new"
    ensures var r := OrdersAfterReport(orders, p);
      |r| == |orders| + 1 && r[..|orders|] == orders && r[|orders|] == p
  {
  }

  /**
   * A filled trade, or a "canceled", "expired" or "suspended" report, removes
   * every order with the reported id and keeps all others.
   */
  lemma ClosingReportRemovesOrder(orders: seq<Order>, p: Order)
    requires RemovesReportedOrder(p)
    ensures var r := OrdersAfterReport(orders, p);
      && (forall o :: o in r <==> o in orders && o.clientOrderId != p.clientOrderId)
      && OrdersAfterReport(r, p) == r
  {
    WithoutIdMembers(orders, p.clientOrderId);
    WithoutIdIdempotent(orders, p.clientOrderId);
  }

  /**
   * Any other report, including a trade that does not fill the order, leaves
   * the open-order table unchanged.
   */
  lemma OtherReportKeepsOrders(orders: seq<Order>, p: Order)
    requires p.reportType != "replaced" && p.reportType != "new" && !RemovesReportedOrder(p)
    ensures OrdersAfterReport(orders, p) == orders
  {
  }

  /**
   * Once an adjustment has been allowed (and its id marked in progress), any
   * further adjustment of an order with the same id is refused, whatever the
   * requested price and quantity, until a report clears the mark.
   */
  lemma AdjustAllowedOnlyOnce(inProgress: set<string>, order: Order, price: real, qty: real,
                              again: Order, price': real, qty': real)
    requires AdjustAllowed(inProgress, order, price, qty)
    requires again.clientOrderId == order.clientOrderId
    ensures !AdjustAllowed(inProgress + {order.clientOrderId}, again, price', qty')
  {
  }

  /**
   * A report for the order clears its mark, so the order can be adjusted again
   * to any price or quantity that differs from its own.
   */
  lemma ReportReopensAdjustment(inProgress: set<string>, p: Order, price: real, qty: real)
    requires price != p.price || qty != p.quantity
    ensures AdjustAllowed(InProgressAfterReport(inProgress, p), p, price, qty)
  {
  }
}
