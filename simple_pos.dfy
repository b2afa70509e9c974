/**
 * The stand-alone point-of-sale widget (components/features/point-of-sale.tsx):
 * a cart with no stock bound. Products carry an id, a name and a price in cents.
 */
module SimplePos {
  import opened Seqs

  datatype Product = Product(id: int, name: string, price: int)

  datatype CartLine = CartLine(product: Product, quantity: int)

  function LineId(l: CartLine): int { l.product.id }

  function LineAmount(l: CartLine): int { l.product.price * l.quantity }

  function IsLine(id: int): CartLine -> bool { (l: CartLine) => l.product.id == id }

  function NotLine(id: int): CartLine -> bool { (l: CartLine) => l.product.id != id }

  predicate HasLine(cart: seq<CartLine>, id: int)
  {
    exists i :: 0 <= i < |cart| && cart[i].product.id == id
  }

  /** `cart.reduce((sum, item) => sum + item.price * item.quantity, 0)`. */
  function Total(cart: seq<CartLine>): int
  {
    Sum(LineAmount, cart)
  }

  /** The reduction runs from 0 over the lines in order, each adding its price times its quantity. */
  lemma RunningTotal(cart: seq<CartLine>)
    ensures cart == [] ==> Total(cart) == 0
    ensures cart != [] ==> var last := cart[|cart| - 1];
      Total(cart) == Total(cart[..|cart| - 1]) + last.product.price * last.quantity
  {
    if cart != [] {
      SumLast(LineAmount, cart);
    }
  }

  /** The cart the widget starts with. */
  const InitialCart: seq<CartLine> := [
    CartLine(Product(1, "Widget A", 1000), 2),
    CartLine(Product(2, "Gadget B", 1550), 1)]

  lemma InitialTotal()
    ensures Total(InitialCart) == 3550
  {
    assert InitialCart[1..][1..] == [];
  }

  /**
   * `addToCart`: every line for the product goes up by one, with no upper
   * bound; with no line, `{...product, quantity: 1}` is appended.
   */
  function AddToCart(cart: seq<CartLine>, product: Product): (r: seq<CartLine>)
    ensures !HasLine(cart, product.id) ==> r == cart + [CartLine(product, 1)]
    ensures HasLine(cart, product.id) ==> |r| == |cart| && forall i :: 0 <= i < |cart| ==>
      && r[i].product == cart[i].product
      && r[i].quantity == cart[i].quantity + (if cart[i].product.id == product.id then 1 else 0)
  {
    if HasLine(cart, product.id) then
      seq(|cart|, i requires 0 <= i < |cart| =>
        if cart[i].product.id == product.id then cart[i].(quantity := cart[i].quantity + 1) else cart[i])
    else cart + [CartLine(product, 1)]
  }

  /** Adding a product that has a line (the only one for it) adds that line's price to the total. */
  lemma AddToCartTotalExisting(cart: seq<CartLine>, product: Product, k: nat)
    requires DistinctBy(LineId, cart)
    requires k < |cart| && cart[k].product.id == product.id
    ensures Total(AddToCart(cart, product)) == Total(cart) + cart[k].product.price
  {
    var r := AddToCart(cart, product);
    forall i | 0 <= i < |cart| && i != k ensures r[i] == cart[i] {
      assert LineId(cart[i]) != LineId(cart[k]);
    }
    assert r == cart[k := r[k]];
    SumUpdate(LineAmount, cart, k, r[k]);
  }

  /** Adding a product with no line adds its price to the total. */
  lemma AddToCartTotalNew(cart: seq<CartLine>, product: Product)
    requires !HasLine(cart, product.id)
    ensures Total(AddToCart(cart, product)) == Total(cart) + product.price
  {
    SumSnoc(LineAmount, cart, CartLine(product, 1));
  }

  /** Pressing the add button n times. */
  function AddTimes(cart: seq<CartLine>, product: Product, n: nat): seq<CartLine>
  {
    if n == 0 then cart else AddToCart(AddTimes(cart, product, n - 1), product)
  }

  /** Nothing caps the quantity: n presses raise an existing line by exactly n. */
  lemma {:induction false} AddTimesUnbounded(cart: seq<CartLine>, product: Product, k: nat, n: nat)
    requires k < |cart| && cart[k].product.id == product.id
    ensures |AddTimes(cart, product, n)| == |cart|
    ensures AddTimes(cart, product, n)[k].quantity == cart[k].quantity + n
    ensures AddTimes(cart, product, n)[k].product == cart[k].product
  {
    if n > 0 {
      AddTimesUnbounded(cart, product, k, n - 1);
      assert HasLine(AddTimes(cart, product, n - 1), product.id) by {
        assert AddTimes(cart, product, n - 1)[k].product.id == product.id;
      }
    }
  }

  /** `cart.filter(item => item.id !== productId)`. */
  function RemoveFromCart(cart: seq<CartLine>, id: int): (r: seq<CartLine>)
    ensures forall l :: l in r <==> l in cart && l.product.id != id
    ensures forall l :: multiset(r)[l] == if l.product.id != id then multiset(cart)[l] else 0
    ensures Subsequence(r, cart)
    ensures !HasLine(cart, id) ==> r == cart
  {
    Filter(NotLine(id), cart)
  }

  /** The removed lines and the kept lines share the total between them. */
  lemma RemoveFromCartTotal(cart: seq<CartLine>, id: int)
    ensures Total(RemoveFromCart(cart, id)) + Total(Filter(IsLine(id), cart)) == Total(cart)
  {
    SumPartition(LineAmount, NotLine(id), IsLine(id), cart);
  }

  function Max(a: int, b: int): int { if a < b then b else a }

  /**
   * `updateQuantity`: the lines for the product get `Math.max(0, newQuantity)`;
   * everything else is unchanged, and an unknown id changes nothing.
   */
  function UpdateQuantity(cart: seq<CartLine>, id: int, newQuantity: int): (r: seq<CartLine>)
    ensures |r| == |cart|
    ensures forall i :: 0 <= i < |cart| ==> r[i].product == cart[i].product
    ensures forall i :: 0 <= i < |cart| ==>
      r[i].quantity == if cart[i].product.id == id then Max(0, newQuantity) else cart[i].quantity
    ensures !HasLine(cart, id) ==> r == cart
  {
    seq(|cart|, i requires 0 <= i < |cart| =>
      if cart[i].product.id == id then cart[i].(quantity := Max(0, newQuantity)) else cart[i])
  }

  /** Updating the only line of a product moves the total by its price times the change. */
  lemma UpdateQuantityTotal(cart: seq<CartLine>, id: int, newQuantity: int, k: nat)
    requires DistinctBy(LineId, cart)
    requires k < |cart| && cart[k].product.id == id
    ensures Total(UpdateQuantity(cart, id, newQuantity)) ==
      Total(cart) + cart[k].product.price * (Max(0, newQuantity) - cart[k].quantity)
  {
    var r := UpdateQuantity(cart, id, newQuantity);
    forall i | 0 <= i < |cart| && i != k ensures r[i] == cart[i] {
      assert LineId(cart[i]) != LineId(cart[k]);
    }
    assert r == cart[k := r[k]];
    SumUpdate(LineAmount, cart, k, r[k]);
  }

  /** With non-negative prices and quantities the total is non-negative. */
  lemma TotalNonNegative(cart: seq<CartLine>)
    requires forall i :: 0 <= i < |cart| ==> cart[i].product.price >= 0 && cart[i].quantity >= 0
    ensures Total(cart) >= 0
  {
    SumNonNegative(LineAmount, cart);
  }
}
