/**
 * The point-of-sale cart and catalogue (app/features/pos/page.tsx): the
 * cart transforms handed to `setCart`, the cart total, the stock update
 * done after a sale and the low-stock view. Prices are integer cents.
 *
 * A cart line is `{...product, quantity}`: a snapshot of the product as it
 * was when first added, plus a quantity. Lines are identified by product id.
 */
module PosCart {
  import opened Common
  import opened Seqs

  /** Products with at most this many units in stock are listed as low. */
  const LowStockThreshold: int := 10

  datatype Product = Product(id: int, name: string, price: int, category: string, stock: int)

  datatype CartLine = CartLine(product: Product, quantity: int)

  function LineId(l: CartLine): int { l.product.id }

  function ProductId(p: Product): int { p.id }

  function ProductStock(p: Product): int { p.stock }

  /** `item.price * item.quantity`. */
  function LineAmount(l: CartLine): int { l.product.price * l.quantity }

  function LineQuantity(l: CartLine): int { l.quantity }

  function IsLine(id: int): CartLine -> bool { (l: CartLine) => l.product.id == id }

  function NotLine(id: int): CartLine -> bool { (l: CartLine) => l.product.id != id }

  function IsProduct(id: int): Product -> bool { (p: Product) => p.id == id }

  /** `cart.find(item => item.id === id)`. */
  function FindLine(cart: seq<CartLine>, id: int): Option<CartLine>
  {
    FindFirst(IsLine(id), cart)
  }

  /** `products.find(p => p.id === id)`. */
  function FindProduct(products: seq<Product>, id: int): Option<Product>
  {
    FindFirst(IsProduct(id), products)
  }

  predicate HasLine(cart: seq<CartLine>, id: int)
  {
    FindLine(cart, id).Some?
  }

  /** The term f contributes for the line with this id, 0 without one. */
  function LineTerm(f: CartLine -> int, cart: seq<CartLine>, id: int): int
  {
    match FindLine(cart, id)
    case Some(l) => f(l)
    case None => 0
  }

  /** Quantity of the line with this id, 0 without one. */
  function QtyOf(cart: seq<CartLine>, id: int): int
  {
    LineTerm(LineQuantity, cart, id)
  }

  /** Unit price recorded in the line with this id, 0 without one. */
  function PriceOf(cart: seq<CartLine>, id: int): int
  {
    match FindLine(cart, id)
    case Some(l) => l.product.price
    case None => 0
  }

  /** The cart invariant: at most one line per product. */
  predicate DistinctLines(cart: seq<CartLine>)
  {
    DistinctBy(LineId, cart)
  }

  /** The catalogue invariant: product ids are unique. */
  predicate DistinctProducts(products: seq<Product>)
  {
    DistinctBy(ProductId, products)
  }

  /** The line's product is in the catalogue and its quantity is within that product's stock. */
  predicate LineWithinStock(products: seq<Product>, l: CartLine)
  {
    match FindProduct(products, l.product.id)
    case Some(p) => 0 <= l.quantity <= p.stock
    case None => false
  }

  predicate WithinStock(products: seq<Product>, cart: seq<CartLine>)
  {
    forall i :: 0 <= i < |cart| ==> LineWithinStock(products, cart[i])
  }

  /** In a cart with distinct ids, finding a line's id finds that line. */
  lemma FindLineAt(cart: seq<CartLine>, i: nat)
    requires DistinctLines(cart)
    requires i < |cart|
    ensures FindLine(cart, cart[i].product.id) == Some(cart[i])
  {
    var r := FindLine(cart, cart[i].product.id);
    assert IsLine(cart[i].product.id)(cart[i]);
    var j :| 0 <= j < |cart| && cart[j] == r.value && IsLine(cart[i].product.id)(cart[j])
             && forall k :: 0 <= k < j ==> !IsLine(cart[i].product.id)(cart[k]);
    assert LineId(cart[j]) == LineId(cart[i]);
  }

  /** Replacing one line by a line for the same product changes only what is found for that product. */
  lemma FindLineUpdate(cart: seq<CartLine>, k: nat, l: CartLine)
    requires DistinctLines(cart)
    requires k < |cart| && l.product.id == cart[k].product.id
    ensures DistinctLines(cart[k := l])
    ensures forall id :: FindLine(cart[k := l], id) == if id == l.product.id then Some(l) else FindLine(cart, id)
  {
    var r := cart[k := l];
    forall i, j | 0 <= i < j < |r| ensures LineId(r[i]) != LineId(r[j]) {
      assert LineId(cart[i]) != LineId(cart[j]);
    }
    forall id ensures FindLine(r, id) == if id == l.product.id then Some(l) else FindLine(cart, id) {
      if j :| 0 <= j < |cart| && cart[j].product.id == id {
        FindLineAt(cart, j);
        FindLineAt(r, j);
      } else {
        assert forall j :: 0 <= j < |r| ==> !IsLine(id)(r[j]);
      }
    }
  }

  /** Appending a line for a new product changes only what is found for that product. */
  lemma FindLineSnoc(cart: seq<CartLine>, l: CartLine)
    requires DistinctLines(cart)
    requires !HasLine(cart, l.product.id)
    ensures DistinctLines(cart + [l])
    ensures forall id :: FindLine(cart + [l], id) == if id == l.product.id then Some(l) else FindLine(cart, id)
  {
    var r := cart + [l];
    forall i, j | 0 <= i < j < |r| ensures LineId(r[i]) != LineId(r[j]) {
      if j == |cart| {
        assert !IsLine(l.product.id)(cart[i]);
      } else {
        assert LineId(cart[i]) != LineId(cart[j]);
      }
    }
    forall id ensures FindLine(r, id) == if id == l.product.id then Some(l) else FindLine(cart, id) {
      if j :| 0 <= j < |r| && r[j].product.id == id {
        FindLineAt(r, j);
        if j < |cart| { FindLineAt(cart, j); }
      } else {
        forall j | 0 <= j < |cart| ensures !IsLine(id)(cart[j]) {
          assert r[j] == cart[j];
        }
        assert !IsLine(id)(r[|cart|]);
      }
    }
  }

  /** In a catalogue with distinct ids, finding a product's id finds that product. */
  lemma FindProductAt(products: seq<Product>, i: nat)
    requires DistinctProducts(products)
    requires i < |products|
    ensures FindProduct(products, products[i].id) == Some(products[i])
  {
    var r := FindProduct(products, products[i].id);
    assert IsProduct(products[i].id)(products[i]);
    var j :| 0 <= j < |products| && products[j] == r.value && IsProduct(products[i].id)(products[j])
             && forall k :: 0 <= k < j ==> !IsProduct(products[i].id)(products[k]);
    assert ProductId(products[j]) == ProductId(products[i]);
  }

  /** `cart.reduce((sum, item) => sum + item.price * item.quantity, 0)`. */
  function Total(cart: seq<CartLine>): int
  {
    Sum(LineAmount, cart)
  }

  /** `cart.reduce((sum, item) => sum + item.quantity, 0)`. */
  function ItemCount(cart: seq<CartLine>): int
  {
    Sum(LineQuantity, cart)
  }

  /**
   * The two reductions run from 0 over the lines in order: each line adds
   * its price times its quantity to the total and its quantity to the count.
   */
  lemma CartRunningTotals(cart: seq<CartLine>)
    ensures cart == [] ==> Total(cart) == 0 && ItemCount(cart) == 0
    ensures cart != [] ==> var last := cart[|cart| - 1];
      && Total(cart) == Total(cart[..|cart| - 1]) + last.product.price * last.quantity
      && ItemCount(cart) == ItemCount(cart[..|cart| - 1]) + last.quantity
  {
    if cart != [] {
      SumLast(LineAmount, cart);
      SumLast(LineQuantity, cart);
    }
  }

  /** The total does not depend on the order of the lines. */
  lemma TotalOrderIndependent(a: seq<CartLine>, b: seq<CartLine>)
    requires multiset(a) == multiset(b)
    ensures Total(a) == Total(b)
    ensures ItemCount(a) == ItemCount(b)
  {
    SumPermutation(LineAmount, a, b);
    SumPermutation(LineQuantity, a, b);
  }

  /** A cart within stock has a non-negative item count and, at non-negative prices, total. */
  lemma TotalNonNegative(products: seq<Product>, cart: seq<CartLine>)
    requires WithinStock(products, cart)
    requires forall i :: 0 <= i < |cart| ==> cart[i].product.price >= 0
    ensures ItemCount(cart) >= 0
    ensures Total(cart) >= 0
  {
    forall i | 0 <= i < |cart| ensures LineQuantity(cart[i]) >= 0 && LineAmount(cart[i]) >= 0 {
      assert LineWithinStock(products, cart[i]);
    }
    SumNonNegative(LineQuantity, cart);
    SumNonNegative(LineAmount, cart);
  }

  /** One line after `addToCart(product)` when the cart already holds that product. */
  function Bump(l: CartLine, product: Product): CartLine
  {
    if l.product.id == product.id && l.quantity < product.stock then l.(quantity := l.quantity + 1) else l
  }

  /**
   * `addToCart`: an existing line for the product goes up by one while it is
   * below the product's current stock, and stays as it is otherwise; with no
   * line, `{...product, quantity: 1}` is appended. The source does not check
   * the stock in the second case (the button is disabled at stock 0).
   */
  function AddToCart(cart: seq<CartLine>, product: Product): (r: seq<CartLine>)
    ensures !HasLine(cart, product.id) ==> r == cart + [CartLine(product, 1)]
    ensures HasLine(cart, product.id) ==> |r| == |cart|
    ensures HasLine(cart, product.id) ==> forall i :: 0 <= i < |cart| ==>
      && r[i].product == cart[i].product
      && (cart[i].product.id != product.id ==> r[i] == cart[i])
      && (cart[i].product.id == product.id ==>
            r[i].quantity == if cart[i].quantity < product.stock then cart[i].quantity + 1 else cart[i].quantity)
  {
    if HasLine(cart, product.id) then seq(|cart|, i requires 0 <= i < |cart| => Bump(cart[i], product))
    else cart + [CartLine(product, 1)]
  }

  /**
   * What `addToCart` does to a cart with one line per product: the product's
   * quantity rises by one while below stock, a new product enters with
   * quantity 1, every other line is untouched, the total grows by the line's
   * unit price times the added quantity, and ids stay distinct.
   */
  lemma AddToCartEffect(cart: seq<CartLine>, product: Product)
    requires DistinctLines(cart)
    ensures DistinctLines(AddToCart(cart, product))
    ensures QtyOf(AddToCart(cart, product), product.id) ==
      if !HasLine(cart, product.id) then 1
      else if QtyOf(cart, product.id) < product.stock then QtyOf(cart, product.id) + 1
      else QtyOf(cart, product.id)
    ensures forall id :: id != product.id ==> FindLine(AddToCart(cart, product), id) == FindLine(cart, id)
    ensures Total(AddToCart(cart, product)) == Total(cart) +
      PriceOf(AddToCart(cart, product), product.id) * (QtyOf(AddToCart(cart, product), product.id) - QtyOf(cart, product.id))
  {
    if HasLine(cart, product.id) {
      AddExistingEffect(cart, product);
    } else {
      AddNewEffect(cart, product);
    }
  }

  /** `addToCart` of a product that has a line: only that line changes, by one unit while below stock. */
  lemma AddExistingEffect(cart: seq<CartLine>, product: Product)
    requires DistinctLines(cart)
    requires HasLine(cart, product.id)
    ensures DistinctLines(AddToCart(cart, product))
    ensures QtyOf(AddToCart(cart, product), product.id) ==
      if QtyOf(cart, product.id) < product.stock then QtyOf(cart, product.id) + 1 else QtyOf(cart, product.id)
    ensures forall id :: id != product.id ==> FindLine(AddToCart(cart, product), id) == FindLine(cart, id)
    ensures Total(AddToCart(cart, product)) == Total(cart) +
      PriceOf(AddToCart(cart, product), product.id) * (QtyOf(AddToCart(cart, product), product.id) - QtyOf(cart, product.id))
  {
    var r := AddToCart(cart, product);
    var k := IndexOf(cart, product.id);
    var b := Bump(cart[k], product);
    FindLineAt(cart, k);
    assert r == cart[k := b];
    FindLineUpdate(cart, k, b);
    SumUpdate(LineAmount, cart, k, b);
    AmountChange(cart[k].product.price, b.quantity, cart[k].quantity);
  }

  /** `addToCart` of a product without a line: a line of quantity 1 is appended. */
  lemma AddNewEffect(cart: seq<CartLine>, product: Product)
    requires DistinctLines(cart)
    requires !HasLine(cart, product.id)
    ensures DistinctLines(AddToCart(cart, product))
    ensures QtyOf(AddToCart(cart, product), product.id) == 1
    ensures forall id :: id != product.id ==> FindLine(AddToCart(cart, product), id) == FindLine(cart, id)
    ensures Total(AddToCart(cart, product)) == Total(cart) +
      PriceOf(AddToCart(cart, product), product.id) * (QtyOf(AddToCart(cart, product), product.id) - QtyOf(cart, product.id))
  {
    FindLineSnoc(cart, CartLine(product, 1));
    SumSnoc(LineAmount, cart, CartLine(product, 1));
  }

  /** A line's amount moves by its price times the change of its quantity. */
  lemma AmountChange(price: int, q: int, q0: int)
    ensures price * q == price * q0 + price * (q - q0)
  {
  }

  /**
   * `addToCart` keeps every line within stock when the product comes from the
   * catalogue and either already has a line or has at least one unit left.
   */
  lemma AddToCartWithinStock(products: seq<Product>, cart: seq<CartLine>, product: Product)
    requires DistinctProducts(products)
    requires product in products
    requires WithinStock(products, cart)
    requires HasLine(cart, product.id) || product.stock >= 1
    ensures WithinStock(products, AddToCart(cart, product))
  {
    var r := AddToCart(cart, product);
    var k :| 0 <= k < |products| && products[k] == product;
    FindProductAt(products, k);
    forall i | 0 <= i < |r| ensures LineWithinStock(products, r[i]) {
      if i < |cart| {
        assert LineWithinStock(products, cart[i]);
      }
    }
  }

  /**
   * Without the disabled button, `addToCart` on a product with no stock puts
   * a line of quantity 1 in the cart, more than the stock allows.
   */
  lemma AddToCartIgnoresZeroStock(cart: seq<CartLine>, product: Product)
    requires DistinctLines(cart)
    requires !HasLine(cart, product.id)
    requires product.stock == 0
    ensures QtyOf(AddToCart(cart, product), product.id) > product.stock
  {
    AddToCartEffect(cart, product);
  }

  /** `cart.filter(item => item.id !== productId)`. */
  function RemoveFromCart(cart: seq<CartLine>, id: int): (r: seq<CartLine>)
    ensures forall l :: l in r <==> l in cart && l.product.id != id
    ensures forall l :: multiset(r)[l] == if l.product.id != id then multiset(cart)[l] else 0
    ensures Subsequence(r, cart)
    ensures !HasLine(r, id)
    ensures !HasLine(cart, id) ==> r == cart
  {
    Filter(NotLine(id), cart)
  }

  /** Removing one id does not change what is found for any other id. */
  lemma {:induction false} RemoveFromCartKeepsOthers(cart: seq<CartLine>, id: int, other: int)
    requires other != id
    ensures FindLine(RemoveFromCart(cart, id), other) == FindLine(cart, other)
    decreases |cart|
  {
    if cart != [] {
      RemoveFromCartKeepsOthers(cart[1..], id, other);
      if cart[0].product.id != id {
        assert Filter(NotLine(id), cart) == [cart[0]] + Filter(NotLine(id), cart[1..]);
        assert ([cart[0]] + Filter(NotLine(id), cart[1..]))[1..] == Filter(NotLine(id), cart[1..]);
      }
    }
  }

  /**
   * In a cart with one line per product, removal takes exactly that product's
   * line out of any per-line sum (the total, the item count), and keeps ids distinct.
   */
  lemma {:induction false} RemoveFromCartSplit(f: CartLine -> int, cart: seq<CartLine>, id: int)
    requires DistinctLines(cart)
    ensures Sum(f, cart) == LineTerm(f, cart, id) + Sum(f, RemoveFromCart(cart, id))
    ensures DistinctLines(RemoveFromCart(cart, id))
    decreases |cart|
  {
    FilterDistinct(NotLine(id), LineId, cart);
    if cart != [] {
      var rest := cart[1..];
      DistinctTail(LineId, cart);
      if cart[0].product.id == id {
        forall i | 0 <= i < |rest| ensures NotLine(id)(rest[i]) {
          assert LineId(cart[0]) != LineId(cart[i + 1]);
        }
        assert Filter(NotLine(id), rest) == rest;
      } else {
        RemoveFromCartSplit(f, rest, id);
        assert Filter(NotLine(id), cart) == [cart[0]] + Filter(NotLine(id), rest);
        assert ([cart[0]] + Filter(NotLine(id), rest))[1..] == Filter(NotLine(id), rest);
      }
    }
  }

  /** Removal lowers the total by that product's line amount and the item count by its quantity. */
  lemma RemoveFromCartTotal(cart: seq<CartLine>, id: int)
    requires DistinctLines(cart)
    ensures Total(RemoveFromCart(cart, id)) == Total(cart) - PriceOf(cart, id) * QtyOf(cart, id)
    ensures ItemCount(RemoveFromCart(cart, id)) == ItemCount(cart) - QtyOf(cart, id)
  {
    RemoveFromCartSplit(LineAmount, cart, id);
    RemoveFromCartSplit(LineQuantity, cart, id);
  }

  /**
   * `updateQuantity`: nothing happens when the product is not in the
   * catalogue or the new quantity exceeds its stock; otherwise the lines for
   * that product get `Math.max(0, newQuantity)` and nothing else changes.
   * A line set to 0 stays in the cart.
   */
  function UpdateQuantity(products: seq<Product>, cart: seq<CartLine>, id: int, newQuantity: int): (r: seq<CartLine>)
    ensures FindProduct(products, id).None? ==> r == cart
    ensures FindProduct(products, id).Some? && newQuantity > FindProduct(products, id).value.stock ==> r == cart
    ensures |r| == |cart|
    ensures forall i :: 0 <= i < |cart| ==> r[i].product == cart[i].product
    ensures forall i :: 0 <= i < |cart| && cart[i].product.id != id ==> r[i] == cart[i]
    ensures FindProduct(products, id).Some? && newQuantity <= FindProduct(products, id).value.stock ==>
      forall i :: 0 <= i < |cart| && cart[i].product.id == id ==> r[i].quantity == Max(0, newQuantity)
  {
    match FindProduct(products, id)
    case None => cart
    case Some(p) =>
      if newQuantity > p.stock then cart
      else seq(|cart|, i requires 0 <= i < |cart| =>
             if cart[i].product.id == id then cart[i].(quantity := Max(0, newQuantity)) else cart[i])
  }

  function Max(a: int, b: int): int { if a < b then b else a }

  /** `updateQuantity` keeps every line's quantity within [0, stock], whatever number is asked for. */
  lemma UpdateQuantityWithinStock(products: seq<Product>, cart: seq<CartLine>, id: int, newQuantity: int)
    requires WithinStock(products, cart)
    ensures WithinStock(products, UpdateQuantity(products, cart, id, newQuantity))
  {
    var r := UpdateQuantity(products, cart, id, newQuantity);
    forall i | 0 <= i < |r| ensures LineWithinStock(products, r[i]) {
      assert LineWithinStock(products, cart[i]);
    }
  }

  /**
   * What `updateQuantity` does to a cart with one line per product: the
   * product's quantity becomes max(0, newQuantity) when the update applies,
   * the set of lines is the same (a zero line is not removed), every other
   * line is untouched and the total moves by the line's price times the change.
   */
  lemma UpdateQuantityEffect(products: seq<Product>, cart: seq<CartLine>, id: int, newQuantity: int)
    requires DistinctLines(cart)
    ensures DistinctLines(UpdateQuantity(products, cart, id, newQuantity))
    ensures forall id' :: HasLine(UpdateQuantity(products, cart, id, newQuantity), id') <==> HasLine(cart, id')
    ensures QtyOf(UpdateQuantity(products, cart, id, newQuantity), id) ==
      if HasLine(cart, id) && FindProduct(products, id).Some? && newQuantity <= FindProduct(products, id).value.stock
      then Max(0, newQuantity) else QtyOf(cart, id)
    ensures forall id' :: id' != id ==> FindLine(UpdateQuantity(products, cart, id, newQuantity), id') == FindLine(cart, id')
    ensures Total(UpdateQuantity(products, cart, id, newQuantity)) == Total(cart) +
      PriceOf(cart, id) * (QtyOf(UpdateQuantity(products, cart, id, newQuantity), id) - QtyOf(cart, id))
  {
    var r := UpdateQuantity(products, cart, id, newQuantity);
    if HasLine(cart, id) {
      var k := IndexOf(cart, id);
      UpdateLineEffect(cart, k, r[k]);
      assert r == cart[k := r[k]];
    } else {
      assert forall i :: 0 <= i < |cart| ==> !IsLine(id)(cart[i]);
      assert r == cart;
    }
  }

  /**
   * Replacing the line at k by one for the same product changes only what
   * is found for that product, and moves the total by the line's price
   * times the change of its quantity.
   */
  lemma UpdateLineEffect(cart: seq<CartLine>, k: nat, l: CartLine)
    requires DistinctLines(cart)
    requires k < |cart| && l.product == cart[k].product
    ensures DistinctLines(cart[k := l])
    ensures forall id' :: HasLine(cart[k := l], id') <==> HasLine(cart, id')
    ensures QtyOf(cart[k := l], l.product.id) == l.quantity
    ensures QtyOf(cart, l.product.id) == cart[k].quantity
    ensures forall id' :: id' != l.product.id ==> FindLine(cart[k := l], id') == FindLine(cart, id')
    ensures Total(cart[k := l]) == Total(cart) + PriceOf(cart, l.product.id) * (l.quantity - cart[k].quantity)
  {
    FindLineAt(cart, k);
    FindLineUpdate(cart, k, l);
    UpdateLineTotal(cart, k, l);
  }

  lemma UpdateLineTotal(cart: seq<CartLine>, k: nat, l: CartLine)
    requires DistinctLines(cart)
    requires k < |cart| && l.product == cart[k].product
    ensures Total(cart[k := l]) == Total(cart) + PriceOf(cart, l.product.id) * (l.quantity - cart[k].quantity)
  {
    FindLineAt(cart, k);
    SumUpdate(LineAmount, cart, k, l);
    AmountChange(cart[k].product.price, l.quantity, cart[k].quantity);
  }

  /** Position of the line with this id in a cart that has one. */
  function IndexOf(cart: seq<CartLine>, id: int): (k: nat)
    requires HasLine(cart, id)
    ensures k < |cart| && cart[k].product.id == id
    decreases |cart|
  {
    if cart[0].product.id == id then 0 else 1 + IndexOf(cart[1..], id)
  }

  /** One product after `updateInventory`: its stock falls by its cart line's quantity. */
  function Restock(p: Product, cart: seq<CartLine>): Product
  {
    match FindLine(cart, p.id)
    case Some(l) => p.(stock := p.stock - l.quantity)
    case None => p
  }

  /**
   * `updateInventory`: every product's stock falls by exactly the quantity of
   * its cart line; products with no line, and all other fields, are unchanged.
   */
  function UpdateInventory(products: seq<Product>, cart: seq<CartLine>): (r: seq<Product>)
    ensures |r| == |products|
    ensures forall i :: 0 <= i < |products| ==>
      && r[i].stock == products[i].stock - QtyOf(cart, products[i].id)
      && r[i].(stock := products[i].stock) == products[i]
    ensures forall i :: 0 <= i < |products| && !HasLine(cart, products[i].id) ==> r[i] == products[i]
  {
    seq(|products|, i requires 0 <= i < |products| => Restock(products[i], cart))
  }

  /** A catalogue with non-negative stock keeps it after selling a cart that is within stock. */
  lemma UpdateInventoryNonNegative(products: seq<Product>, cart: seq<CartLine>)
    requires DistinctProducts(products)
    requires forall i :: 0 <= i < |products| ==> products[i].stock >= 0
    requires WithinStock(products, cart)
    ensures forall i :: 0 <= i < |products| ==> UpdateInventory(products, cart)[i].stock >= 0
  {
    forall i | 0 <= i < |products| ensures UpdateInventory(products, cart)[i].stock >= 0 {
      QtyWithinStock(products, cart, i);
    }
  }

  /** The quantity sold of one catalogue product is at most its stock. */
  lemma QtyWithinStock(products: seq<Product>, cart: seq<CartLine>, i: nat)
    requires DistinctProducts(products)
    requires WithinStock(products, cart)
    requires i < |products| && products[i].stock >= 0
    ensures QtyOf(cart, products[i].id) <= products[i].stock
  {
    var id := products[i].id;
    if HasLine(cart, id) {
      var k :| 0 <= k < |cart| && cart[k] == FindLine(cart, id).value && IsLine(id)(cart[k])
               && forall j :: 0 <= j < k ==> !IsLine(id)(cart[j]);
      assert LineWithinStock(products, cart[k]);
      FindProductAt(products, i);
    }
  }

  /** Total units on the shelves. */
  function TotalStock(products: seq<Product>): int
  {
    Sum(ProductStock, products)
  }

  function DemandFor(cart: seq<CartLine>): Product -> int
  {
    (p: Product) => QtyOf(cart, p.id)
  }

  lemma {:induction false} UpdateInventoryStock(products: seq<Product>, cart: seq<CartLine>)
    ensures TotalStock(UpdateInventory(products, cart)) == TotalStock(products) - Sum(DemandFor(cart), products)
    decreases |products|
  {
    if products != [] {
      UpdateInventoryStock(products[1..], cart);
      assert UpdateInventory(products, cart)[1..] == UpdateInventory(products[1..], cart);
    }
  }

  /** Demand of the catalogue's tail is the same once the head product's line is removed. */
  lemma DemandOfTail(products: seq<Product>, cart: seq<CartLine>)
    requires DistinctProducts(products)
    requires products != []
    ensures Sum(DemandFor(cart), products[1..]) == Sum(DemandFor(RemoveFromCart(cart, products[0].id)), products[1..])
  {
    var rest := products[1..];
    forall i | 0 <= i < |rest| ensures DemandFor(cart)(rest[i]) == DemandFor(RemoveFromCart(cart, products[0].id))(rest[i]) {
      assert ProductId(products[0]) != ProductId(products[i + 1]);
      RemoveFromCartKeepsOthers(cart, products[0].id, rest[i].id);
    }
    SumCongruent(DemandFor(cart), DemandFor(RemoveFromCart(cart, products[0].id)), rest);
  }

  /** Once the head product's line is removed, every remaining line names a product of the tail. */
  lemma CataloguedInTail(products: seq<Product>, cart: seq<CartLine>)
    requires products != []
    requires forall i :: 0 <= i < |cart| ==> FindProduct(products, cart[i].product.id).Some?
    ensures forall i :: 0 <= i < |RemoveFromCart(cart, products[0].id)| ==>
      FindProduct(products[1..], RemoveFromCart(cart, products[0].id)[i].product.id).Some?
  {
    var cart' := RemoveFromCart(cart, products[0].id);
    forall i | 0 <= i < |cart'| ensures FindProduct(products[1..], cart'[i].product.id).Some? {
      assert cart'[i] in cart;
      var j :| 0 <= j < |cart| && cart[j] == cart'[i];
      assert FindProduct(products, cart[j].product.id).Some?;
    }
  }

  /** Summed over a catalogue that has every cart product once, the per-product demand is the item count. */
  lemma {:induction false} DemandIsItemCount(products: seq<Product>, cart: seq<CartLine>)
    requires DistinctProducts(products)
    requires DistinctLines(cart)
    requires forall i :: 0 <= i < |cart| ==> FindProduct(products, cart[i].product.id).Some?
    ensures Sum(DemandFor(cart), products) == ItemCount(cart)
    decreases |products|
  {
    if products != [] {
      RemoveFromCartSplit(LineQuantity, cart, products[0].id);
      DistinctTail(ProductId, products);
      CataloguedInTail(products, cart);
      DemandIsItemCount(products[1..], RemoveFromCart(cart, products[0].id));
      DemandOfTail(products, cart);
    }
  }

  /**
   * Stock conservation: selling a cart whose every line names a catalogue
   * product takes exactly the cart's item count off the shelves.
   */
  lemma StockConservation(products: seq<Product>, cart: seq<CartLine>)
    requires DistinctProducts(products)
    requires DistinctLines(cart)
    requires WithinStock(products, cart)
    ensures TotalStock(UpdateInventory(products, cart)) == TotalStock(products) - ItemCount(cart)
  {
    UpdateInventoryStock(products, cart);
    forall i | 0 <= i < |cart| ensures FindProduct(products, cart[i].product.id).Some? {
      assert LineWithinStock(products, cart[i]);
    }
    DemandIsItemCount(products, cart);
  }

  function IsLow(p: Product): bool { p.stock <= LowStockThreshold }

  /**
   * `updateLowStockItems`: exactly the products with stock at most 10, in
   * catalogue order and with their multiplicities; out-of-stock products
   * are included.
   */
  function LowStock(products: seq<Product>): (r: seq<Product>)
    ensures forall p :: p in r <==> p in products && p.stock <= LowStockThreshold
    ensures forall p :: multiset(r)[p] == if p.stock <= LowStockThreshold then multiset(products)[p] else 0
    ensures Subsequence(r, products)
    ensures forall p :: p in products && p.stock == 0 ==> p in r
  {
    Filter(IsLow, products)
  }

  function MatchesProduct(term: string): Product -> bool
  {
    (p: Product) => MatchesSearch(p.name, term) || MatchesSearch(p.category, term)
  }

  /** `filteredProducts`: the products whose name or category contains the search term, ignoring case. */
  function SearchProducts(products: seq<Product>, term: string): (r: seq<Product>)
    ensures forall p :: p in r <==> p in products && (MatchesSearch(p.name, term) || MatchesSearch(p.category, term))
    ensures forall p :: multiset(r)[p] ==
              if MatchesSearch(p.name, term) || MatchesSearch(p.category, term) then multiset(products)[p] else 0
    ensures Subsequence(r, products)
  {
    Filter(MatchesProduct(term), products)
  }

  /** An empty search shows the whole catalogue. */
  lemma EmptySearchShowsAll(products: seq<Product>)
    ensures SearchProducts(products, "") == products
  {
    forall i | 0 <= i < |products| ensures MatchesProduct("")(products[i]) {
      EmptyTermMatches(products[i].name);
    }
  }
}
