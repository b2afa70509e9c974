/**
 * The analytics dashboard (components/features/analytics-dasboard.tsx): the
 * time-range filter over the stored orders and the three groupings built by
 * mutating a dictionary in `forEach` loops — quantity sold per product name
 * (of which the five best sellers are shown), sales per UTC day, and orders
 * per status. Totals and the average come from the Orders module.
 */
module Analytics {
  import opened Common
  import opened Seqs
  import opened Sorting
  import opened Tally
  import opened Orders

  /** The selector value for the short range. */
  const SevenDays: string := "7d"

  /** How many best sellers the dashboard lists. */
  const TopCount: nat := 5

  /** `timeRange === '7d' ? 7 : 30`. */
  function Days(timeRange: string): (d: int)
    ensures d == 7 <==> timeRange == SevenDays
    ensures d == 30 <==> timeRange != SevenDays
  {
    if timeRange == SevenDays then 7 else 30
  }

  function Since(now: int, days: int): Order -> bool
  {
    (o: Order) => o.timestamp >= now - days * DayMs
  }

  /**
   * `filterOrdersByTimeRange`: the orders stamped no earlier than `days`
   * whole days before `now`, in their stored order.
   */
  function FilterByTimeRange(orders: seq<Order>, now: int, days: int): (r: seq<Order>)
    ensures forall o :: o in r <==> o in orders && o.timestamp >= now - days * DayMs
    ensures forall o :: multiset(r)[o] == if o.timestamp >= now - days * DayMs then multiset(orders)[o] else 0
    ensures Subsequence(r, orders)
  {
    Filter(Since(now, days), orders)
  }

  function Before(now: int, days: int): Order -> bool
  {
    (o: Order) => o.timestamp < now - days * DayMs
  }

  /**
   * The 30-day window holds the 7-day one: with non-negative order totals,
   * the longer range never shows less in sales.
   */
  lemma WiderRangeSellsMore(orders: seq<Order>, now: int, days: int, wider: int)
    requires days <= wider
    requires forall i :: 0 <= i < |orders| ==> orders[i].total >= 0
    ensures TotalSales(FilterByTimeRange(orders, now, days)) <= TotalSales(FilterByTimeRange(orders, now, wider))
  {
    var w := FilterByTimeRange(orders, now, wider);
    assert days * DayMs <= wider * DayMs;
    FilterNarrower(Since(now, days), Since(now, wider), orders);
    SumPartition(OrderTotal, Since(now, days), Before(now, days), w);
    var dropped := Filter(Before(now, days), w);
    forall i | 0 <= i < |dropped| ensures OrderTotal(dropped[i]) >= 0 {
      assert dropped[i] in w;
      assert dropped[i] in orders;
    }
    SumNonNegative(OrderTotal, dropped);
  }

  // ---- Best sellers -------------------------------------------------------

  /** The (name, quantity) pairs of a list of items, in order. */
  function ItemPairsOf(items: seq<LineItem>): (r: seq<(string, int)>)
    ensures |r| == |items|
    ensures forall i :: 0 <= i < |items| ==> r[i] == (items[i].name, items[i].quantity)
  {
    seq(|items|, i requires 0 <= i < |items| => (items[i].name, items[i].quantity))
  }

  /** Every item of every order, in the order the nested loops visit them. */
  function ItemPairs(orders: seq<Order>): seq<(string, int)>
    decreases |orders|
  {
    if orders == [] then []
    else ItemPairs(orders[..|orders| - 1]) + ItemPairsOf(orders[|orders| - 1].items)
  }

  /**
   * The nested `forEach` of `getTopSellingProducts`: each item's quantity
   * is added to its name's entry, in visiting order.
   */
  method ProductSales(orders: seq<Order>) returns (sales: Entries<string>)
    ensures sales == Tally.Tally(ItemPairs(orders))
  {
    sales := [];
    var i := 0;
    while i < |orders|
      invariant 0 <= i <= |orders|
      invariant sales == Tally.Tally(ItemPairs(orders[..i]))
    {
      sales := AddItems(sales, ItemPairs(orders[..i]), orders[i].items);
      assert orders[..i + 1][..i] == orders[..i];
      i := i + 1;
    }
    assert orders[..i] == orders;
  }

  /** The inner `order.items.forEach`: one order's items added in turn. */
  method AddItems(sales: Entries<string>, done: seq<(string, int)>, items: seq<LineItem>)
      returns (r: Entries<string>)
    requires sales == Tally.Tally(done)
    ensures r == Tally.Tally(done + ItemPairsOf(items))
  {
    r := sales;
    var j := 0;
    assert done + ItemPairsOf(items[..0]) == done;
    while j < |items|
      invariant 0 <= j <= |items|
      invariant r == Tally.Tally(done + ItemPairsOf(items[..j]))
    {
      var p := (items[j].name, items[j].quantity);
      PairsSnoc(done, items, j);
      TallySnoc(done + ItemPairsOf(items[..j]), p);
      r := Add(r, items[j].name, items[j].quantity);
      j := j + 1;
    }
    assert items[..j] == items;
  }

  /** Visiting one more item appends its pair. */
  lemma PairsSnoc(done: seq<(string, int)>, items: seq<LineItem>, j: nat)
    requires j < |items|
    ensures done + ItemPairsOf(items[..j + 1]) == (done + ItemPairsOf(items[..j])) + [(items[j].name, items[j].quantity)]
  {
    var p := (items[j].name, items[j].quantity);
    assert ItemPairsOf(items[..j + 1]) == ItemPairsOf(items[..j]) + [p];
    ConcatAssoc(done, ItemPairsOf(items[..j]), [p]);
  }

  /** `sort((a, b) => b[1] - a[1])`: a larger quantity comes first. */
  function MoreSold(): ((string, int), (string, int)) -> bool
  {
    (a: (string, int), b: (string, int)) => a.1 > b.1
  }

  lemma MoreSoldIsStrictWeakOrder()
    ensures StrictWeakOrder(MoreSold())
  {
  }

  /** `.slice(0, 5)` of the sorted entries: the first five, or all when there are fewer. */
  function TopOf(sales: Entries<string>): (r: Entries<string>)
    ensures |r| == if |sales| <= TopCount then |sales| else TopCount
    ensures r == SortBy(MoreSold(), sales)[..|r|]
  {
    var sorted := SortBy(MoreSold(), sales);
    if |sorted| <= TopCount then sorted else sorted[..TopCount]
  }

  /** `getTopSellingProducts`. */
  method TopSellingProducts(orders: seq<Order>) returns (top: Entries<string>)
    ensures top == TopOf(Tally.Tally(ItemPairs(orders)))
  {
    var sales := ProductSales(orders);
    var sorted := SortBy(MoreSold(), sales);
    top := if |sorted| <= TopCount then sorted else sorted[..TopCount];
  }

  /**
   * The best sellers: at most five distinct names, each of them sold, each
   * with its summed quantity.
   */
  lemma TopSellingEntries(orders: seq<Order>)
    ensures var ps := ItemPairs(orders);
            var r := TopOf(Tally.Tally(ps));
            && |r| <= TopCount
            && DistinctBy(EntryKey, r)
            && (forall i :: 0 <= i < |r| ==> Mentions(ps, r[i].0) && r[i].1 == AmountFor(ps, r[i].0))
  {
    var ps := ItemPairs(orders);
    var t := Tally.Tally(ps);
    var s := SortBy(MoreSold(), t);
    var r := TopOf(t);
    TallyCorrect(ps);
    DistinctKeysAt(t);
    SortByDistinct(MoreSold(), EntryKey, t);
    DistinctPrefix(s, |r|);
    forall i | 0 <= i < |r| ensures Mentions(ps, r[i].0) && r[i].1 == AmountFor(ps, r[i].0) {
      EntryOfSorted(t, s, i);
    }
  }

  /** A prefix of a list with distinct names has distinct names. */
  lemma DistinctPrefix(s: Entries<string>, n: nat)
    requires n <= |s|
    requires DistinctBy(EntryKey, s)
    ensures DistinctBy(EntryKey, s[..n])
  {
    forall i, j | 0 <= i < j < n ensures EntryKey(s[..n][i]) != EntryKey(s[..n][j]) {
      assert s[..n][i] == s[i] && s[..n][j] == s[j];
    }
  }

  /** The best sellers come in non-increasing quantity. */
  lemma TopSellingNonIncreasing(orders: seq<Order>)
    ensures var r := TopOf(Tally.Tally(ItemPairs(orders)));
            forall i, j :: 0 <= i < j < |r| ==> r[i].1 >= r[j].1
  {
    var t := Tally.Tally(ItemPairs(orders));
    var s := SortBy(MoreSold(), t);
    var r := TopOf(t);
    MoreSoldIsStrictWeakOrder();
    SortBySorted(MoreSold(), t);
    assert r == s[..|r|];
    forall i, j | 0 <= i < j < |r| ensures r[i].1 >= r[j].1 {
      assert !MoreSold()(s[j], s[i]);
    }
  }

  /**
   * Every sold name left out of the best sellers sold no more than any
   * name shown: the sort precedes the slice.
   */
  lemma TopSellingDominates(orders: seq<Order>)
    ensures var ps := ItemPairs(orders);
            var r := TopOf(Tally.Tally(ps));
            forall k, i :: Mentions(ps, k) && !HasKey(r, k) && 0 <= i < |r| ==> r[i].1 >= AmountFor(ps, k)
  {
    var ps := ItemPairs(orders);
    var t := Tally.Tally(ps);
    var s := SortBy(MoreSold(), t);
    var r := TopOf(t);
    TallyCorrect(ps);
    MoreSoldIsStrictWeakOrder();
    SortBySorted(MoreSold(), t);
    assert r == s[..|r|];
    forall k, i | Mentions(ps, k) && !HasKey(r, k) && 0 <= i < |r| ensures r[i].1 >= AmountFor(ps, k) {
      PrefixDominates(t, s, |r|, k, i);
    }
  }

  /** In a list sorted by MoreSold, a key beyond the first n entries has no more than any of them. */
  lemma PrefixDominates(t: Entries<string>, s: Entries<string>, n: nat, k: string, i: nat)
    requires i < n <= |s|
    requires DistinctKeys(t) && multiset(s) == multiset(t)
    requires SortedBy(MoreSold(), s)
    requires HasKey(t, k) && !HasKey(s[..n], k)
    ensures s[i].1 >= Lookup(t, k)
  {
    var m := SortedIndexOf(t, s, k);
    HasKeyAt(s[..n], k);
    forall j | 0 <= j < n ensures s[j].0 != k {
      assert s[..n][j] == s[j];
    }
    assert !MoreSold()(s[m], s[i]);
  }

  /** With fewer than five best sellers shown, every sold name is shown. */
  lemma TopSellingComplete(orders: seq<Order>)
    ensures var ps := ItemPairs(orders);
            var r := TopOf(Tally.Tally(ps));
            |r| < TopCount ==> forall k :: Mentions(ps, k) ==> HasKey(r, k)
  {
    var ps := ItemPairs(orders);
    var t := Tally.Tally(ps);
    var s := SortBy(MoreSold(), t);
    var r := TopOf(t);
    if |r| < TopCount {
      TallyCorrect(ps);
      assert r == s;
      forall k | Mentions(ps, k) ensures HasKey(r, k) {
        var m := SortedIndexOf(t, s, k);
        HasKeyAt(r, k);
      }
    }
  }

  /** An entry of the sorted list is an entry of the tally, so its value is its key's lookup. */
  lemma EntryOfSorted<K(!new)>(t: Entries<K>, s: Entries<K>, i: nat)
    requires DistinctKeys(t)
    requires multiset(s) == multiset(t)
    requires i < |s|
    ensures HasKey(t, s[i].0) && s[i].1 == Lookup(t, s[i].0)
  {
    assert s[i] in multiset(t);
    var j :| 0 <= j < |t| && t[j] == s[i];
    HasKeyAt(t, s[i].0);
    LookupEntry(t, j);
  }

  /** A key of the tally sits at some index of the sorted list. */
  lemma SortedIndexOf<K(!new)>(t: Entries<K>, s: Entries<K>, k: K) returns (m: nat)
    requires DistinctKeys(t)
    requires multiset(s) == multiset(t)
    requires HasKey(t, k)
    ensures m < |s| && s[m].0 == k && s[m].1 == Lookup(t, k)
  {
    HasKeyAt(t, k);
    var j :| 0 <= j < |t| && t[j].0 == k;
    LookupEntry(t, j);
    assert t[j] in multiset(s);
    m :| 0 <= m < |s| && s[m] == t[j];
  }

  // ---- Sales per day ------------------------------------------------------

  /**
   * The UTC calendar day of a timestamp, as a day number:
   * `toISOString().split('T')[0]` names the same day.
   */
  function DayOf(timestamp: int): (day: int)
    ensures day * DayMs <= timestamp < (day + 1) * DayMs
  {
    timestamp / DayMs
  }

  /** (day, total) for each order, in order. */
  function DayPairs(orders: seq<Order>): (r: seq<(int, int)>)
    ensures |r| == |orders|
    ensures forall i :: 0 <= i < |orders| ==> r[i] == (DayOf(orders[i].timestamp), orders[i].total)
  {
    seq(|orders|, i requires 0 <= i < |orders| => (DayOf(orders[i].timestamp), orders[i].total))
  }

  /** `a[0].localeCompare(b[0])` on ISO dates: the earlier day comes first. */
  function EarlierDay(): ((int, int), (int, int)) -> bool
  {
    (a: (int, int), b: (int, int)) => a.0 < b.0
  }

  lemma EarlierDayIsStrictWeakOrder()
    ensures StrictWeakOrder(EarlierDay())
  {
  }

  /** `getSalesByDay`: each order's total added to its day's entry, then sorted by day. */
  method SalesByDay(orders: seq<Order>) returns (days: Entries<int>)
    ensures days == SortBy(EarlierDay(), Tally.Tally(DayPairs(orders)))
  {
    var ps := DayPairs(orders);
    var acc: Entries<int> := [];
    var i := 0;
    while i < |orders|
      invariant 0 <= i <= |orders|
      invariant acc == Tally.Tally(ps[..i])
    {
      assert ps[..i + 1] == ps[..i] + [ps[i]];
      TallySnoc(ps[..i], ps[i]);
      acc := Add(acc, DayOf(orders[i].timestamp), orders[i].total);
      i := i + 1;
    }
    assert ps[..i] == ps;
    days := SortBy(EarlierDay(), acc);
  }

  /** The day totals add up to the orders' total sales. */
  lemma {:induction false} DayPairsTotal(orders: seq<Order>)
    ensures Sum(EntryValue, DayPairs(orders)) == TotalSales(orders)
    decreases |orders|
  {
    if orders != [] {
      DayPairsTotal(orders[1..]);
      assert DayPairs(orders)[1..] == DayPairs(orders[1..]);
    }
  }

  /**
   * Sales per day: strictly increasing days (so each day once), exactly the
   * days on which some order was placed, each with the sum of that day's
   * totals, and all of them together make the total sales.
   */
  lemma SalesByDayCorrect(orders: seq<Order>)
    ensures var r := SortBy(EarlierDay(), Tally.Tally(DayPairs(orders)));
            && (forall i, j :: 0 <= i < j < |r| ==> r[i].0 < r[j].0)
            && (forall i :: 0 <= i < |r| ==> r[i].1 == AmountFor(DayPairs(orders), r[i].0))
            && (forall d :: HasKey(r, d) <==> exists i :: 0 <= i < |orders| && DayOf(orders[i].timestamp) == d)
            && Sum(EntryValue, r) == TotalSales(orders)
  {
    var ps := DayPairs(orders);
    var t := Tally.Tally(ps);
    var r := SortBy(EarlierDay(), t);
    TallyCorrect(ps);
    DistinctKeysAt(t);
    SortByDistinct(EarlierDay(), EntryKey, t);
    EarlierDayIsStrictWeakOrder();
    SortBySorted(EarlierDay(), t);
    forall i, j | 0 <= i < j < |r| ensures r[i].0 < r[j].0 {
      assert !EarlierDay()(r[j], r[i]);
      assert EntryKey(r[i]) != EntryKey(r[j]);
    }
    forall i | 0 <= i < |r| ensures r[i].1 == AmountFor(ps, r[i].0) {
      EntryOfSorted(t, r, i);
    }
    forall d ensures HasKey(r, d) <==> exists i :: 0 <= i < |orders| && DayOf(orders[i].timestamp) == d {
      HasKeyAt(r, d);
      HasKeyAt(t, d);
      MentionsAt(ps, d);
      if HasKey(t, d) {
        var m := SortedIndexOf(t, r, d);
      }
      if HasKey(r, d) {
        var m :| 0 <= m < |r| && r[m].0 == d;
        EntryOfSorted(t, r, m);
      }
    }
    SumPermutation(EntryValue, r, t);
    DayPairsTotal(orders);
  }

  // ---- Orders per status --------------------------------------------------

  /** (status, 1) for each order. */
  function StatusPairs(orders: seq<Order>): (r: seq<(string, int)>)
    ensures |r| == |orders|
    ensures forall i :: 0 <= i < |orders| ==> r[i] == (orders[i].status, 1)
  {
    seq(|orders|, i requires 0 <= i < |orders| => (orders[i].status, 1))
  }

  /** `getOrderStatusDistribution`: a count per status, in first-seen order. */
  method StatusDistribution(orders: seq<Order>) returns (counts: Entries<string>)
    ensures counts == Tally.Tally(StatusPairs(orders))
  {
    var ps := StatusPairs(orders);
    counts := [];
    var i := 0;
    while i < |orders|
      invariant 0 <= i <= |orders|
      invariant counts == Tally.Tally(ps[..i])
    {
      assert ps[..i + 1] == ps[..i] + [ps[i]];
      TallySnoc(ps[..i], ps[i]);
      counts := Add(counts, orders[i].status, 1);
      i := i + 1;
    }
    assert ps[..i] == ps;
  }

  lemma {:induction false} StatusPairsCount(orders: seq<Order>)
    ensures Sum(EntryValue, StatusPairs(orders)) == |orders|
    decreases |orders|
  {
    if orders != [] {
      StatusPairsCount(orders[1..]);
      assert StatusPairs(orders)[1..] == StatusPairs(orders[1..]);
    }
  }

  /**
   * The status distribution: one entry per status that occurs, each count
   * at least 1, and the counts add up to the number of orders.
   */
  lemma StatusDistributionCorrect(orders: seq<Order>)
    ensures var r := Tally.Tally(StatusPairs(orders));
            && DistinctBy(EntryKey, r)
            && (forall st :: HasKey(r, st) <==> exists i :: 0 <= i < |orders| && orders[i].status == st)
            && (forall i :: 0 <= i < |r| ==> r[i].1 >= 1)
            && Sum(EntryValue, r) == |orders|
  {
    var ps := StatusPairs(orders);
    var r := Tally.Tally(ps);
    TallyCorrect(ps);
    DistinctKeysAt(r);
    StatusKeys(orders);
    TallyPositive(ps);
    StatusPairsCount(orders);
  }

  /** The distribution has an entry for a status exactly when some order has it. */
  lemma StatusKeys(orders: seq<Order>)
    ensures forall st :: HasKey(Tally.Tally(StatusPairs(orders)), st) <==> exists i :: 0 <= i < |orders| && orders[i].status == st
  {
    var ps := StatusPairs(orders);
    TallyCorrect(ps);
    forall st ensures HasKey(Tally.Tally(ps), st) <==> exists i :: 0 <= i < |orders| && orders[i].status == st {
      StatusMentioned(orders, st);
    }
  }

  /** A status is mentioned by the pairs exactly when some order has it. */
  lemma StatusMentioned(orders: seq<Order>, st: string)
    ensures Mentions(StatusPairs(orders), st) <==> exists i :: 0 <= i < |orders| && orders[i].status == st
  {
    var ps := StatusPairs(orders);
    MentionsAt(ps, st);
    if i :| 0 <= i < |orders| && orders[i].status == st {
      assert ps[i].0 == st;
    }
    if i :| 0 <= i < |ps| && ps[i].0 == st {
      assert orders[i].status == st;
    }
  }
}
