/**
 * The inventory page (app/features/inventory/page.tsx): stock status of an
 * item, the search-and-status filter, the low-stock alert list and the
 * insertion of a new item.
 */
module Inventory {
  import opened Common
  import opened Seqs

  datatype Item = Item(id: int, name: string, quantity: int, reorderPoint: int)

  /** The form of the "add item" dialog. */
  datatype NewItem = NewItem(name: string, quantity: int, reorderPoint: int)

  /** The choices of the stock filter. */
  datatype StockFilter = All | InStock | LowStock | OutOfStock

  datatype StockLabel = InStockLabel | LowStockLabel | OutOfStockLabel

  const EmptyForm: NewItem := NewItem("", 0, 0)

  const SeedItems: seq<Item> := [
    Item(1, "Widget A", 100, 20),
    Item(2, "Gadget B", 15, 25),
    Item(3, "Tool C", 50, 10),
    Item(4, "Device D", 0, 5)]

  predicate IsInStock(item: Item) { item.quantity > item.reorderPoint }

  predicate IsLowStock(item: Item) { item.quantity > 0 && item.quantity <= item.reorderPoint }

  predicate IsOutOfStock(item: Item) { item.quantity == 0 }

  /** The status column: 'Out of Stock' at 0, else 'Low Stock' up to the reorder point, else 'In Stock'. */
  function Label(item: Item): (l: StockLabel)
    ensures l == OutOfStockLabel <==> item.quantity == 0
    ensures l == LowStockLabel <==> item.quantity != 0 && item.quantity <= item.reorderPoint
    ensures l == InStockLabel <==> item.quantity != 0 && item.quantity > item.reorderPoint
  {
    if item.quantity == 0 then OutOfStockLabel
    else if item.quantity <= item.reorderPoint then LowStockLabel
    else InStockLabel
  }

  /**
   * For a non-negative quantity and reorder point exactly one of the three
   * filter tests holds, and it is the one the label shows.
   */
  lemma ExactlyOneStatus(item: Item)
    requires item.quantity >= 0 && item.reorderPoint >= 0
    ensures (if IsInStock(item) then 1 else 0) + (if IsLowStock(item) then 1 else 0)
          + (if IsOutOfStock(item) then 1 else 0) == 1
    ensures IsInStock(item) <==> Label(item) == InStockLabel
    ensures IsLowStock(item) <==> Label(item) == LowStockLabel
    ensures IsOutOfStock(item) <==> Label(item) == OutOfStockLabel
  {
  }

  /**
   * Why `ExactlyOneStatus` needs a non-negative reorder point: an empty item
   * with a negative one is both in stock and out of stock. `HandleAddItem`
   * never stores such an item and the seeds have none.
   */
  lemma NegativeReorderPointOverlaps()
    ensures IsInStock(Item(0, "x", 0, -1)) && IsOutOfStock(Item(0, "x", 0, -1))
  {
  }

  predicate MatchesFilter(f: StockFilter, item: Item)
  {
    match f
    case All => true
    case InStock => IsInStock(item)
    case LowStock => IsLowStock(item)
    case OutOfStock => IsOutOfStock(item)
  }

  function Keep(f: StockFilter, term: string): Item -> bool
  {
    (item: Item) => MatchesSearch(item.name, term) && MatchesFilter(f, item)
  }

  /** `filteredInventory`: the items whose name contains the search term and that pass the stock filter. */
  function FilteredInventory(inventory: seq<Item>, f: StockFilter, term: string): (r: seq<Item>)
    ensures forall item :: item in r <==> item in inventory && MatchesSearch(item.name, term) && MatchesFilter(f, item)
    ensures forall item :: multiset(r)[item] ==
              if MatchesSearch(item.name, term) && MatchesFilter(f, item) then multiset(inventory)[item] else 0
    ensures Subsequence(r, inventory)
  {
    Filter(Keep(f, term), inventory)
  }

  /** The 'all' filter with an empty search shows the whole inventory. */
  lemma AllWithEmptySearch(inventory: seq<Item>)
    ensures FilteredInventory(inventory, All, "") == inventory
  {
    forall i | 0 <= i < |inventory| ensures Keep(All, "")(inventory[i]) {
      EmptyTermMatches(inventory[i].name);
    }
  }

  /** `lowStockItems`: items with 0 < quantity <= reorder point, in inventory order. */
  function LowStockItems(inventory: seq<Item>): (r: seq<Item>)
    ensures forall item :: item in r <==> item in inventory && 0 < item.quantity <= item.reorderPoint
    ensures forall item :: multiset(r)[item] ==
              if 0 < item.quantity <= item.reorderPoint then multiset(inventory)[item] else 0
    ensures Subsequence(r, inventory)
  {
    Filter((item: Item) => IsLowStock(item), inventory)
  }

  /** The alert list is what the 'low-stock' filter shows for an empty search. */
  lemma LowStockItemsIsLowStockFilter(inventory: seq<Item>)
    ensures LowStockItems(inventory) == FilteredInventory(inventory, LowStock, "")
  {
    forall item ensures Keep(LowStock, "")(item) == IsLowStock(item) {
      EmptyTermMatches(item.name);
    }
    FilterSamePredicate((item: Item) => IsLowStock(item), Keep(LowStock, ""), inventory);
  }

  /**
   * `handleAddItem`: with a name and a non-negative quantity and reorder
   * point, the item is appended with id `inventory.length + 1` and the form
   * is reset; otherwise nothing changes.
   */
  function HandleAddItem(inventory: seq<Item>, form: NewItem): (r: (seq<Item>, NewItem))
    ensures form.name != "" && form.quantity >= 0 && form.reorderPoint >= 0 ==>
      r == (inventory + [Item(|inventory| + 1, form.name, form.quantity, form.reorderPoint)], EmptyForm)
    ensures !(form.name != "" && form.quantity >= 0 && form.reorderPoint >= 0) ==> r == (inventory, form)
  {
    if form.name != "" && form.quantity >= 0 && form.reorderPoint >= 0 then
      (inventory + [Item(|inventory| + 1, form.name, form.quantity, form.reorderPoint)], EmptyForm)
    else (inventory, form)
  }

  /** Ids are exactly 1..n, in order. */
  predicate IdsSequential(inventory: seq<Item>)
  {
    forall i :: 0 <= i < |inventory| ==> inventory[i].id == i + 1
  }

  /** Every item has a non-negative quantity and reorder point. */
  predicate WellFormed(inventory: seq<Item>)
  {
    forall i :: 0 <= i < |inventory| ==> inventory[i].quantity >= 0 && inventory[i].reorderPoint >= 0
  }

  /** The seeds have ids 1..4; adding keeps ids 1..n and well-formed items, so ids never repeat. */
  lemma AddKeepsIds(inventory: seq<Item>, form: NewItem)
    requires IdsSequential(inventory) && WellFormed(inventory)
    ensures IdsSequential(HandleAddItem(inventory, form).0)
    ensures WellFormed(HandleAddItem(inventory, form).0)
    ensures DistinctBy((item: Item) => item.id, HandleAddItem(inventory, form).0)
  {
  }

  lemma SeedsWellFormed()
    ensures IdsSequential(SeedItems) && WellFormed(SeedItems)
    ensures LowStockItems(SeedItems) == [SeedItems[1]]
  {
    SeedShape();
    SeedLowStock();
  }

  lemma SeedShape()
    ensures IdsSequential(SeedItems) && WellFormed(SeedItems)
  {
    var s := SeedItems;
    assert |s| == 4;
    assert s[0] == Item(1, "Widget A", 100, 20) && s[1] == Item(2, "Gadget B", 15, 25);
    assert s[2] == Item(3, "Tool C", 50, 10) && s[3] == Item(4, "Device D", 0, 5);
  }

  lemma SeedLowStock()
    ensures LowStockItems(SeedItems) == [SeedItems[1]]
  {
    var s := SeedItems;
    var low := (item: Item) => IsLowStock(item);
    assert !low(s[0]) && low(s[1]) && !low(s[2]) && !low(s[3]);
    FilterNone(low, s[2..]);
    FilterCons(low, s[1..]);
    assert s[1..][1..] == s[2..];
    FilterCons(low, s);
  }
}
