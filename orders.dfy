/**
 * The order record shared by the sales page, the analytics dashboard and
 * the point of sale (which writes orders for the other two to read), and
 * the two figures both pages compute over a list of orders: total sales and
 * average order value. Amounts are integer cents, timestamps milliseconds.
 */
module Orders {
  import opened Seqs

  datatype LineItem = LineItem(name: string, quantity: int, price: int)

  datatype Order = Order(
    id: string,
    customer: string,
    total: int,
    status: string,
    items: seq<LineItem>,
    timestamp: int)

  /** `item.quantity * item.price`. */
  function ItemAmount(item: LineItem): int { item.quantity * item.price }

  function ItemsTotal(items: seq<LineItem>): int
  {
    Sum(ItemAmount, items)
  }

  function OrderTotal(o: Order): int { o.total }

  /** `orders.reduce((sum, order) => sum + order.total, 0)`. */
  function TotalSales(orders: seq<Order>): int
  {
    Sum(OrderTotal, orders)
  }

  /** The reduction runs from 0 over the orders in order, each adding its total. */
  lemma RunningTotalSales(orders: seq<Order>)
    ensures orders == [] ==> TotalSales(orders) == 0
    ensures orders != [] ==> TotalSales(orders) == TotalSales(orders[..|orders| - 1]) + orders[|orders| - 1].total
  {
    if orders != [] {
      SumLast(OrderTotal, orders);
    }
  }

  /** `orders.length > 0 ? totalSales / orders.length : 0`, as an exact quotient. */
  function AverageOrderValue(orders: seq<Order>): (avg: real)
    ensures |orders| > 0 ==> avg * |orders| as real == TotalSales(orders) as real
    ensures |orders| == 0 ==> avg == 0.0
  {
    if |orders| > 0 then TotalSales(orders) as real / |orders| as real else 0.0
  }

  /** Total sales of n orders whose totals lie in [lo, hi] lie in [n*lo, n*hi]. */
  lemma {:induction false} TotalSalesBounds(orders: seq<Order>, lo: int, hi: int)
    requires forall i :: 0 <= i < |orders| ==> lo <= orders[i].total <= hi
    ensures |orders| * lo <= TotalSales(orders) <= |orders| * hi
    decreases |orders|
  {
    if orders != [] {
      TotalSalesBounds(orders[1..], lo, hi);
    }
  }

  /** The average lies between the smallest and the largest order total. */
  lemma AverageWithinBounds(orders: seq<Order>, lo: int, hi: int)
    requires |orders| > 0
    requires forall i :: 0 <= i < |orders| ==> lo <= orders[i].total <= hi
    ensures lo as real <= AverageOrderValue(orders) <= hi as real
  {
    TotalSalesBounds(orders, lo, hi);
    CastProduct(|orders|, lo);
    CastProduct(|orders|, hi);
    AverageBetween(TotalSales(orders) as real, |orders| as real, AverageOrderValue(orders), lo as real, hi as real);
  }

  /** A quotient of a total that lies between n*lo and n*hi lies between lo and hi. */
  lemma AverageBetween(total: real, n: real, avg: real, lo: real, hi: real)
    requires n > 0.0 && avg * n == total
    requires lo * n <= total <= hi * n
    ensures lo <= avg <= hi
  {
    CancelPositive(lo, avg, n);
    CancelPositive(avg, hi, n);
  }

  /** Converting a product to a real is multiplying the converted factors. */
  lemma {:induction false} CastProduct(k: nat, m: int)
    ensures (k * m) as real == (m as real) * (k as real)
    decreases k
  {
    if k > 0 {
      CastProduct(k - 1, m);
      assert k * m == (k - 1) * m + m;
    }
  }

  /** Dividing both sides of a <= by the same positive number keeps it. */
  lemma CancelPositive(a: real, b: real, n: real)
    requires n > 0.0 && a * n <= b * n
    ensures a <= b
  {
    assert (b - a) * n == b * n - a * n;
  }
}
