/**
 * The sales page (app/features/sales/page.tsx): the order table's search
 * and status filter, its sortable columns, the "new order" form and the
 * status updates. Totals are integer cents; the ISO timestamp strings are
 * milliseconds, which order the same way.
 */
module Sales {
  import opened Common
  import opened Seqs
  import opened Sorting
  import opened Orders

  const AllStatuses: string := "all"
  const OrderPrefix: string := "ORD-"
  const PendingStatus: string := "Pending"

  /** The sortable columns. */
  datatype SortKey = Id | Customer | TotalKey | Status | Timestamp

  datatype Direction = Asc | Desc

  datatype SortConfig = SortConfig(key: SortKey, direction: Direction)

  /** The table starts sorted by timestamp, newest first. */
  const DefaultSort: SortConfig := SortConfig(Timestamp, Desc)

  /** The order being entered in the "new order" dialog. */
  datatype Draft = Draft(customer: string, total: int, status: string, items: seq<LineItem>)

  const EmptyDraft: Draft := Draft("", 0, PendingStatus, [])

  predicate KeepOrder(o: Order, term: string, statusFilter: string)
  {
    (MatchesSearch(o.customer, term) || MatchesSearch(o.id, term))
    && (statusFilter == AllStatuses || o.status == statusFilter)
  }

  function KeepFor(term: string, statusFilter: string): Order -> bool
  {
    (o: Order) => KeepOrder(o, term, statusFilter)
  }

  /**
   * `filteredOrders`: the orders whose customer or id contains the search
   * term, ignoring case, and whose status is the selected one (any for 'all').
   */
  function FilteredOrders(orders: seq<Order>, term: string, statusFilter: string): (r: seq<Order>)
    ensures forall o :: o in r <==> (o in orders
      && (MatchesSearch(o.customer, term) || MatchesSearch(o.id, term))
      && (statusFilter == AllStatuses || o.status == statusFilter))
    ensures forall o :: multiset(r)[o] ==
              if (MatchesSearch(o.customer, term) || MatchesSearch(o.id, term)) && (statusFilter == AllStatuses || o.status == statusFilter)
              then multiset(orders)[o] else 0
    ensures Subsequence(r, orders)
  {
    Filter(KeepFor(term, statusFilter), orders)
  }

  /** With an empty search and 'all', every order is listed. */
  lemma FilterShowsAll(orders: seq<Order>)
    ensures FilteredOrders(orders, "", AllStatuses) == orders
  {
    forall i | 0 <= i < |orders| ensures KeepFor("", AllStatuses)(orders[i]) {
      EmptyTermMatches(orders[i].customer);
    }
  }

  /** `a[key] < b[key]` for the selected column. */
  predicate KeyLess(key: SortKey, a: Order, b: Order)
  {
    match key
    case Id => StrLess(a.id, b.id)
    case Customer => StrLess(a.customer, b.customer)
    case TotalKey => a.total < b.total
    case Status => StrLess(a.status, b.status)
    case Timestamp => a.timestamp < b.timestamp
  }

  /** The comparator returns -1 for (a, b): a goes first. */
  function Before(config: SortConfig): (Order, Order) -> bool
  {
    (a: Order, b: Order) =>
      if config.direction == Asc then KeyLess(config.key, a, b) else KeyLess(config.key, b, a)
  }

  lemma KeyLessStrictWeak(key: SortKey, a: Order, b: Order, c: Order)
    ensures KeyLess(key, a, b) ==> !KeyLess(key, b, a)
    ensures !KeyLess(key, a, b) && !KeyLess(key, b, c) ==> !KeyLess(key, a, c)
  {
    match key
    case Id =>
      if StrLess(a.id, b.id) { StrLessAsymmetric(a.id, b.id); }
      if !StrLess(a.id, b.id) && !StrLess(b.id, c.id) { StrNotLessTransitive(a.id, b.id, c.id); }
    case Customer =>
      if StrLess(a.customer, b.customer) { StrLessAsymmetric(a.customer, b.customer); }
      if !StrLess(a.customer, b.customer) && !StrLess(b.customer, c.customer) {
        StrNotLessTransitive(a.customer, b.customer, c.customer);
      }
    case Status =>
      if StrLess(a.status, b.status) { StrLessAsymmetric(a.status, b.status); }
      if !StrLess(a.status, b.status) && !StrLess(b.status, c.status) {
        StrNotLessTransitive(a.status, b.status, c.status);
      }
    case TotalKey =>
    case Timestamp =>
  }

  /** Every column's comparator, in either direction, is a consistent sort order. */
  lemma BeforeIsStrictWeakOrder(config: SortConfig)
    ensures StrictWeakOrder(Before(config))
  {
    forall a, b ensures Before(config)(a, b) ==> !Before(config)(b, a) {
      KeyLessStrictWeak(config.key, a, b, a);
      KeyLessStrictWeak(config.key, b, a, b);
    }
    forall a, b, c ensures !Before(config)(a, b) && !Before(config)(b, c) ==> !Before(config)(a, c) {
      KeyLessStrictWeak(config.key, a, b, c);
      KeyLessStrictWeak(config.key, c, b, a);
    }
  }

  /** `[...filteredOrders].sort(comparator)`. */
  function SortedOrders(orders: seq<Order>, config: SortConfig): (r: seq<Order>)
    ensures multiset(r) == multiset(orders)
  {
    SortBy(Before(config), orders)
  }

  /**
   * The sorted table is a permutation of the filtered one in which no order
   * is strictly before (for the column and direction) one listed above it.
   */
  lemma SortedOrdersCorrect(orders: seq<Order>, config: SortConfig)
    ensures multiset(SortedOrders(orders, config)) == multiset(orders)
    ensures forall i, j :: 0 <= i < j < |SortedOrders(orders, config)| ==>
      if config.direction == Asc
      then !KeyLess(config.key, SortedOrders(orders, config)[j], SortedOrders(orders, config)[i])
      else !KeyLess(config.key, SortedOrders(orders, config)[i], SortedOrders(orders, config)[j])
  {
    BeforeIsStrictWeakOrder(config);
    SortBySorted(Before(config), orders);
    var r := SortedOrders(orders, config);
    forall i, j | 0 <= i < j < |r|
      ensures if config.direction == Asc then !KeyLess(config.key, r[j], r[i]) else !KeyLess(config.key, r[i], r[j])
    {
      assert !Before(config)(r[j], r[i]);
    }
  }

  /** Sorted by total ascending, totals never decrease down the table. */
  lemma SortedByTotalAscending(orders: seq<Order>)
    ensures forall i, j :: 0 <= i < j < |SortedOrders(orders, SortConfig(TotalKey, Asc))| ==>
      SortedOrders(orders, SortConfig(TotalKey, Asc))[i].total <= SortedOrders(orders, SortConfig(TotalKey, Asc))[j].total
  {
    SortedOrdersCorrect(orders, SortConfig(TotalKey, Asc));
  }

  /** `handleSort`: the same column sorted ascending flips to descending; anything else sorts ascending. */
  function HandleSort(config: SortConfig, key: SortKey): (r: SortConfig)
    ensures r.key == key
    ensures r.direction == Desc <==> config.key == key && config.direction == Asc
  {
    SortConfig(key, if config.key == key && config.direction == Asc then Desc else Asc)
  }

  /** Clicking a column twice from an ascending sort on it comes back to the ascending sort. */
  lemma HandleSortToggles(config: SortConfig)
    requires config.direction == Asc
    ensures HandleSort(HandleSort(config, config.key), config.key) == config
  {
  }

  /** The draft's total is the sum of its items' amounts. */
  predicate DraftConsistent(d: Draft)
  {
    d.total == ItemsTotal(d.items)
  }

  /**
   * `handleNewOrder`: with a customer, a positive total and at least one item,
   * the draft becomes order `ORD-<now>` at the front of the list and the form
   * is reset; otherwise nothing changes.
   */
  function HandleNewOrder(orders: seq<Order>, draft: Draft, now: nat): (r: (seq<Order>, Draft))
    ensures draft.customer != "" && draft.total > 0 && |draft.items| > 0 ==>
      && |r.0| == |orders| + 1 && r.0[1..] == orders && r.1 == EmptyDraft
      && r.0[0] == Order(OrderPrefix + DecimalString(now), draft.customer, draft.total, draft.status, draft.items, now)
    ensures !(draft.customer != "" && draft.total > 0 && |draft.items| > 0) ==> r == (orders, draft)
  {
    if draft.customer != "" && draft.total > 0 && |draft.items| > 0 then
      ([Order(OrderPrefix + DecimalString(now), draft.customer, draft.total, draft.status, draft.items, now)] + orders,
       EmptyDraft)
    else (orders, draft)
  }

  /** A new order adds its total to the total sales; a refused one adds nothing. */
  lemma HandleNewOrderSales(orders: seq<Order>, draft: Draft, now: nat)
    ensures TotalSales(HandleNewOrder(orders, draft, now).0) ==
      TotalSales(orders) + (if draft.customer != "" && draft.total > 0 && |draft.items| > 0 then draft.total else 0)
  {
    var r := HandleNewOrder(orders, draft, now).0;
    if draft.customer != "" && draft.total > 0 && |draft.items| > 0 {
      assert r == [r[0]] + orders;
    }
  }

  /** `addItemToNewOrder`: a blank item (no name, quantity 1, price 0) is appended; the total is not touched. */
  function AddItemToNewOrder(draft: Draft): (r: Draft)
    ensures r.items == draft.items + [LineItem("", 1, 0)]
    ensures r.customer == draft.customer && r.total == draft.total && r.status == draft.status
  {
    draft.(items := draft.items + [LineItem("", 1, 0)])
  }

  /** The blank item has amount 0, so a consistent draft stays consistent. */
  lemma AddItemKeepsConsistent(draft: Draft)
    requires DraftConsistent(draft)
    ensures DraftConsistent(AddItemToNewOrder(draft))
  {
    SumSnoc(ItemAmount, draft.items, LineItem("", 1, 0));
  }

  /** The field being edited, with its new value. */
  datatype ItemEdit = SetName(name: string) | SetQuantity(quantity: int) | SetPrice(price: int)

  function ApplyEdit(item: LineItem, edit: ItemEdit): LineItem
  {
    match edit
    case SetName(n) => item.(name := n)
    case SetQuantity(q) => item.(quantity := q)
    case SetPrice(p) => item.(price := p)
  }

  /**
   * `updateNewOrderItem`: only the item at the index gets the new field
   * value, and the total becomes the sum of the items' amounts.
   */
  function UpdateNewOrderItem(draft: Draft, index: int, edit: ItemEdit): (r: Draft)
    ensures |r.items| == |draft.items|
    ensures forall i :: 0 <= i < |draft.items| && i != index ==> r.items[i] == draft.items[i]
    ensures 0 <= index < |draft.items| ==> r.items[index] == ApplyEdit(draft.items[index], edit)
    ensures r.customer == draft.customer && r.status == draft.status
    ensures DraftConsistent(r)
  {
    var items := seq(|draft.items|, i requires 0 <= i < |draft.items| =>
      if i == index then ApplyEdit(draft.items[i], edit) else draft.items[i]);
    draft.(items := items, total := ItemsTotal(items))
  }

  /** Editing the quantity or price moves the total by the difference of that item's amount. */
  lemma UpdateNewOrderItemTotal(draft: Draft, index: int, edit: ItemEdit)
    requires DraftConsistent(draft)
    requires 0 <= index < |draft.items|
    ensures UpdateNewOrderItem(draft, index, edit).total ==
      draft.total - ItemAmount(draft.items[index]) + ItemAmount(ApplyEdit(draft.items[index], edit))
  {
    var r := UpdateNewOrderItem(draft, index, edit);
    assert r.items == draft.items[index := ApplyEdit(draft.items[index], edit)];
    SumUpdate(ItemAmount, draft.items, index, ApplyEdit(draft.items[index], edit));
  }

  /** The empty form, with no items and total 0, is consistent; the steps above keep a form consistent. */
  lemma EmptyDraftConsistent()
    ensures DraftConsistent(EmptyDraft)
  {
  }

  /** `handleUpdateOrderStatus`: the orders with that id get the new status; nothing else changes. */
  function HandleUpdateOrderStatus(orders: seq<Order>, id: string, status: string): (r: seq<Order>)
    ensures |r| == |orders|
    ensures forall i :: 0 <= i < |orders| ==> r[i] == orders[i].(status := r[i].status)
    ensures forall i :: 0 <= i < |orders| ==> r[i].status == if orders[i].id == id then status else orders[i].status
  {
    seq(|orders|, i requires 0 <= i < |orders| =>
      if orders[i].id == id then orders[i].(status := status) else orders[i])
  }

  /** Changing a status does not change the total sales or the average. */
  lemma {:induction false} UpdateStatusKeepsSales(orders: seq<Order>, id: string, status: string)
    ensures TotalSales(HandleUpdateOrderStatus(orders, id, status)) == TotalSales(orders)
    ensures AverageOrderValue(HandleUpdateOrderStatus(orders, id, status)) == AverageOrderValue(orders)
    decreases |orders|
  {
    if orders != [] {
      UpdateStatusKeepsSales(orders[1..], id, status);
      assert HandleUpdateOrderStatus(orders, id, status)[1..] == HandleUpdateOrderStatus(orders[1..], id, status);
    }
  }
}
