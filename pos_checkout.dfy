/**
 * `handlePayment` of the point of sale (app/features/pos/page.tsx): the
 * checks on the tendered payment, the M-Pesa exchange with the payment
 * gateway, and the settlement that records the payment and the order,
 * takes the sold units off the shelves and clears the cart.
 *
 * The gateway's three calls are inputs: the transaction id returned by the
 * payment request (None when the request throws), whether the customer
 * entered the PIN, and the answers of successive status checks.
 */
module PosCheckout {
  import opened Common
  import opened Seqs
  import opened PosCart
  import opened Orders

  datatype PaymentMethod = Cash | Card | Wallet | Mpesa

  /** One answer of the status check; CheckError stands for a call that throws. */
  datatype GatewayStatus = Pending | Completed | Failed | CheckError

  datatype Gateway = Gateway(initiate: Option<string>, pinEntered: bool, statuses: seq<GatewayStatus>)

  datatype PaymentRecord = PaymentRecord(
    paymentMethod: PaymentMethod,
    amount: int,
    reference: string,
    itemCount: int,
    timestamp: int)

  /** The order the point of sale stores, with its payment fields. */
  datatype SaleRecord = SaleRecord(order: Order, paymentType: PaymentMethod, paymentAmount: int, changeAmount: int)

  datatype MpesaError = InitiateError | PinNotEntered | Declined | StatusUnavailable

  datatype Outcome = Paid(payment: PaymentRecord) | InsufficientPayment | MissingPaymentInfo | MpesaFailed(error: MpesaError)

  /** The state `handlePayment` reads and writes. */
  datatype Session = Session(
    products: seq<Product>,
    cart: seq<CartLine>,
    transactions: seq<PaymentRecord>,
    orders: seq<SaleRecord>,
    paymentAmount: int,
    paymentMethod: PaymentMethod,
    mpesaPhone: string,
    mpesaName: string,
    mpesaTransactionId: string,
    lastPayment: Option<PaymentRecord>,
    change: int)

  datatype CheckoutResult = CheckoutResult(after: Session, outcome: Outcome, statusChecks: nat)

  const WalkInCustomer: string := "Walk-in Customer"
  const PaidStatus: string := "Paid"
  const PosPrefix: string := "POS-"

  /** Some status check eventually answers something other than `pending`. */
  predicate Settles(statuses: seq<GatewayStatus>)
  {
    exists i :: 0 <= i < |statuses| && statuses[i] != Pending
  }

  /** Index of the first answer that is not `pending`. */
  function FirstSettled(statuses: seq<GatewayStatus>): (k: nat)
    requires Settles(statuses)
    ensures k < |statuses| && statuses[k] != Pending
    ensures forall i :: 0 <= i < k ==> statuses[i] == Pending
    decreases |statuses|
  {
    if statuses[0] != Pending then 0
    else
      assert Settles(statuses[1..]) by {
        var i :| 0 <= i < |statuses| && statuses[i] != Pending;
        assert statuses[1..][i - 1] == statuses[i];
      }
      1 + FirstSettled(statuses[1..])
  }

  /**
   * The polling loop: check once, then check again while the answer is
   * `pending`. Returns the settled answer and the number of checks made.
   */
  method PollUntilSettled(statuses: seq<GatewayStatus>) returns (status: GatewayStatus, checks: nat)
    requires Settles(statuses)
    ensures 1 <= checks <= |statuses|
    ensures status == statuses[checks - 1] && status != Pending
    ensures forall i :: 0 <= i < checks - 1 ==> statuses[i] == Pending
    ensures checks == FirstSettled(statuses) + 1
  {
    status := statuses[0];
    checks := 1;
    while status == Pending
      invariant 1 <= checks <= FirstSettled(statuses) + 1
      invariant status == statuses[checks - 1]
      invariant forall i :: 0 <= i < checks ==> (status == Pending || i < checks - 1) ==> statuses[i] == Pending
      decreases FirstSettled(statuses) + 1 - checks
    {
      status := statuses[checks];
      checks := checks + 1;
    }
  }

  /** `paymentMethod === 'mpesa' ? mpesaTransactionId : \`POS-${Date.now()}\``. */
  function Reference(m: PaymentMethod, transactionId: string, now: nat): string
  {
    if m == Mpesa then transactionId else PosPrefix + DecimalString(now)
  }

  function ToLineItem(l: CartLine): LineItem
  {
    LineItem(l.product.name, l.quantity, l.product.price)
  }

  /** `cart.map(item => ({ name, quantity, price }))`. */
  function OrderItems(cart: seq<CartLine>): (items: seq<LineItem>)
    ensures |items| == |cart|
    ensures forall i :: 0 <= i < |cart| ==> items[i] == ToLineItem(cart[i])
  {
    seq(|cart|, i requires 0 <= i < |cart| => ToLineItem(cart[i]))
  }

  /** The order's item amounts add up to the cart total. */
  lemma {:induction false} OrderItemsTotal(cart: seq<CartLine>)
    ensures ItemsTotal(OrderItems(cart)) == Total(cart)
    decreases |cart|
  {
    if cart != [] {
      OrderItemsTotal(cart[1..]);
      assert OrderItems(cart)[1..] == OrderItems(cart[1..]);
    }
  }

  /**
   * The settlement. `transactionId` is the value of `mpesaTransactionId` in
   * the render the handler was created in: the handler does not see the
   * id it has just stored.
   */
  function Settle(s: Session, transactionId: string, now: nat): (r: (Session, PaymentRecord))
    ensures r.1.amount == Total(s.cart) && r.1.itemCount == ItemCount(s.cart)
    ensures r.0.products == UpdateInventory(s.products, s.cart) && r.0.cart == []
    ensures r.0.transactions == [r.1] + s.transactions
    ensures |r.0.orders| == |s.orders| + 1 && r.0.orders[1..] == s.orders && r.0.orders[0].order.total == r.1.amount
  {
    var total := Total(s.cart);
    var change := if s.paymentMethod == Cash then s.paymentAmount - total else 0;
    var payment := PaymentRecord(s.paymentMethod, total, Reference(s.paymentMethod, transactionId, now), ItemCount(s.cart), now);
    var order := Order(payment.reference, if s.mpesaName != "" then s.mpesaName else WalkInCustomer,
                       payment.amount, PaidStatus, OrderItems(s.cart), payment.timestamp);
    var sale := SaleRecord(order, s.paymentMethod, if s.paymentMethod == Cash then s.paymentAmount else total, change);
    (s.(products := UpdateInventory(s.products, s.cart),
        cart := [],
        transactions := [payment] + s.transactions,
        orders := [sale] + s.orders,
        paymentAmount := 0,
        mpesaPhone := "",
        mpesaName := "",
        lastPayment := Some(payment),
        change := change),
     payment)
  }

  /** What the M-Pesa exchange must satisfy for the checkout to be defined. */
  predicate GatewayTerminates(s: Session, g: Gateway)
  {
    (s.paymentMethod == Mpesa && s.mpesaPhone != "" && s.mpesaName != "" && g.initiate.Some? && g.pinEntered)
      ==> Settles(g.statuses)
  }

  /** `handlePayment`, as a function of the state at the click, the clock and the gateway's answers. */
  function Checkout(s: Session, now: nat, g: Gateway): (r: CheckoutResult)
    requires GatewayTerminates(s, g)
    ensures r.outcome.Paid? ==> r.after.products == UpdateInventory(s.products, s.cart) && r.after.cart == []
    ensures !r.outcome.Paid? ==> r.after.products == s.products && r.after.cart == s.cart
                                 && r.after.orders == s.orders && r.after.transactions == s.transactions
  {
    if s.paymentMethod == Cash && s.paymentAmount < Total(s.cart) then
      CheckoutResult(s, InsufficientPayment, 0)
    else if s.paymentMethod == Mpesa && (s.mpesaPhone == "" || s.mpesaName == "") then
      CheckoutResult(s, MissingPaymentInfo, 0)
    else if s.paymentMethod == Mpesa then
      match g.initiate
      case None => CheckoutResult(s, MpesaFailed(InitiateError), 0)
      case Some(id) =>
        var s1 := s.(mpesaTransactionId := id);
        if !g.pinEntered then CheckoutResult(s1, MpesaFailed(PinNotEntered), 0)
        else
          var k := FirstSettled(g.statuses);
          match g.statuses[k]
          case Failed => CheckoutResult(s1, MpesaFailed(Declined), k + 1)
          case CheckError => CheckoutResult(s1, MpesaFailed(StatusUnavailable), k + 1)
          case Completed =>
            var (after, payment) := Settle(s1, s.mpesaTransactionId, now);
            CheckoutResult(after, Paid(payment), k + 1)
    else
      var (after, payment) := Settle(s, s.mpesaTransactionId, now);
      CheckoutResult(after, Paid(payment), 0)
  }

  /** The gateway exchange ends in a completed payment. */
  predicate MpesaCompletes(g: Gateway)
  {
    g.initiate.Some? && g.pinEntered && Settles(g.statuses) && g.statuses[FirstSettled(g.statuses)] == Completed
  }

  /**
   * A checkout is paid exactly when cash covers the total and, for M-Pesa,
   * phone and name are given and the gateway completes the payment.
   */
  lemma CheckoutPaidIff(s: Session, now: nat, g: Gateway)
    requires GatewayTerminates(s, g)
    ensures Checkout(s, now, g).outcome.Paid? <==>
      && (s.paymentMethod == Cash ==> s.paymentAmount >= Total(s.cart))
      && (s.paymentMethod == Mpesa ==> s.mpesaPhone != "" && s.mpesaName != "" && MpesaCompletes(g))
  {
  }

  /**
   * Refused and failed checkouts change nothing: products, cart, payment
   * log, order log and the entered payment details are as before. Only the
   * stored M-Pesa id can change, once the gateway has returned one.
   */
  lemma CheckoutFailureChangesNothing(s: Session, now: nat, g: Gateway)
    requires GatewayTerminates(s, g)
    requires !Checkout(s, now, g).outcome.Paid?
    ensures Checkout(s, now, g).after == s.(mpesaTransactionId := Checkout(s, now, g).after.mpesaTransactionId)
    ensures Checkout(s, now, g).outcome.InsufficientPayment? || Checkout(s, now, g).outcome.MissingPaymentInfo?
      ==> Checkout(s, now, g).after == s
    ensures Checkout(s, now, g).after.mpesaTransactionId != s.mpesaTransactionId
      ==> s.paymentMethod == Mpesa && g.initiate == Some(Checkout(s, now, g).after.mpesaTransactionId)
  {
  }

  /**
   * The status checks: none unless M-Pesa gets as far as an entered PIN; then
   * one per `pending` answer plus the settled one.
   */
  lemma CheckoutStatusChecks(s: Session, now: nat, g: Gateway)
    requires GatewayTerminates(s, g)
    ensures Checkout(s, now, g).statusChecks > 0 <==>
      s.paymentMethod == Mpesa && s.mpesaPhone != "" && s.mpesaName != "" && g.initiate.Some? && g.pinEntered
      && !(s.paymentAmount < Total(s.cart) && s.paymentMethod == Cash)
    ensures Checkout(s, now, g).statusChecks > 0 ==>
      && (forall i :: 0 <= i < Checkout(s, now, g).statusChecks - 1 ==> g.statuses[i] == Pending)
      && g.statuses[Checkout(s, now, g).statusChecks - 1] != Pending
  {
  }

  /**
   * A paid checkout records the cart: amount is the cart total, item count
   * the number of units, change what cash exceeds the total by (never
   * negative) and 0 otherwise; the payment and an order with the payment's
   * reference as id, status 'Paid' and the cart's items are put in front of
   * the two logs; the cart and the entered details are cleared.
   */
  lemma CheckoutRecords(s: Session, now: nat, g: Gateway)
    requires GatewayTerminates(s, g)
    requires Checkout(s, now, g).outcome.Paid?
    ensures var r := Checkout(s, now, g); var p := r.outcome.payment;
      && p.paymentMethod == s.paymentMethod
      && p.amount == Total(s.cart)
      && p.itemCount == ItemCount(s.cart)
      && p.timestamp == now
      && r.after.transactions == [p] + s.transactions
      && r.after.lastPayment == Some(p)
      && |r.after.orders| == |s.orders| + 1 && r.after.orders[1..] == s.orders
      && r.after.orders[0].order.id == p.reference
      && r.after.orders[0].order.status == PaidStatus
      && r.after.orders[0].order.customer == (if s.mpesaName != "" then s.mpesaName else WalkInCustomer)
      && r.after.orders[0].order.total == p.amount
      && ItemsTotal(r.after.orders[0].order.items) == p.amount
      && r.after.orders[0].order.timestamp == p.timestamp
      && r.after.change == r.after.orders[0].changeAmount
      && (s.paymentMethod == Cash ==> r.after.change == s.paymentAmount - p.amount >= 0)
      && (s.paymentMethod != Cash ==> r.after.change == 0 && r.after.orders[0].paymentAmount == p.amount)
      && r.after.cart == [] && r.after.paymentAmount == 0
      && r.after.mpesaPhone == "" && r.after.mpesaName == ""
  {
    OrderItemsTotal(s.cart);
  }

  /**
   * The reference of an M-Pesa payment is the id stored by the previous
   * checkout, not the one the gateway has just returned, which is stored
   * for the next checkout; other methods use "POS-" and the clock.
   */
  lemma CheckoutReference(s: Session, now: nat, g: Gateway)
    requires GatewayTerminates(s, g)
    requires Checkout(s, now, g).outcome.Paid?
    ensures s.paymentMethod == Mpesa ==>
      && Checkout(s, now, g).outcome.payment.reference == s.mpesaTransactionId
      && Checkout(s, now, g).after.mpesaTransactionId == g.initiate.value
    ensures s.paymentMethod != Mpesa ==>
      && Checkout(s, now, g).outcome.payment.reference == PosPrefix + DecimalString(now)
      && Checkout(s, now, g).after.mpesaTransactionId == s.mpesaTransactionId
  {
  }

  /**
   * A first M-Pesa sale, with nothing stored yet, is recorded under the empty
   * reference when the first status check already answers `completed`.
   */
  lemma FirstMpesaSaleHasEmptyReference(s: Session, now: nat, g: Gateway)
    requires s.paymentMethod == Mpesa && s.mpesaPhone != "" && s.mpesaName != ""
    requires s.mpesaTransactionId == ""
    requires g.initiate == Some("MP1") && g.pinEntered && |g.statuses| >= 1 && g.statuses[0] == Completed
    ensures Checkout(s, now, g).outcome.Paid?
    ensures Checkout(s, now, g).outcome.payment.reference == ""
    ensures Checkout(s, now, g).after.orders[0].order.id == ""
    ensures Checkout(s, now, g).after.mpesaTransactionId == "MP1"
  {
    assert FirstSettled(g.statuses) == 0;
  }

  /** The state invariant: unique product ids, no negative stock, one line per product within its stock. */
  predicate SessionValid(s: Session)
  {
    && DistinctProducts(s.products)
    && (forall i :: 0 <= i < |s.products| ==> s.products[i].stock >= 0)
    && DistinctLines(s.cart)
    && WithinStock(s.products, s.cart)
  }

  /**
   * A paid checkout takes each product's cart quantity off its stock,
   * exactly the item count in all, leaves products not in the cart alone,
   * keeps all stock non-negative, and keeps the invariant.
   */
  lemma CheckoutStock(s: Session, now: nat, g: Gateway)
    requires GatewayTerminates(s, g)
    requires SessionValid(s)
    ensures SessionValid(Checkout(s, now, g).after)
    ensures Checkout(s, now, g).outcome.Paid? ==>
      && Checkout(s, now, g).after.products == UpdateInventory(s.products, s.cart)
      && TotalStock(Checkout(s, now, g).after.products) == TotalStock(s.products) - Checkout(s, now, g).outcome.payment.itemCount
    ensures !Checkout(s, now, g).outcome.Paid? ==> Checkout(s, now, g).after.products == s.products
  {
    var r := Checkout(s, now, g);
    if r.outcome.Paid? {
      if s.paymentMethod == Mpesa {
        SettleStock(s.(mpesaTransactionId := g.initiate.value), s.mpesaTransactionId, now);
      } else {
        SettleStock(s, s.mpesaTransactionId, now);
      }
    } else {
      CheckoutFailureChangesNothing(s, now, g);
    }
  }

  /** The settlement keeps the invariant and takes the item count off the shelves. */
  lemma SettleStock(s: Session, transactionId: string, now: nat)
    requires SessionValid(s)
    ensures SessionValid(Settle(s, transactionId, now).0)
    ensures Settle(s, transactionId, now).0.products == UpdateInventory(s.products, s.cart)
    ensures TotalStock(Settle(s, transactionId, now).0.products) == TotalStock(s.products) - Settle(s, transactionId, now).1.itemCount
  {
    var ps := UpdateInventory(s.products, s.cart);
    UpdateInventoryNonNegative(s.products, s.cart);
    StockConservation(s.products, s.cart);
    assert DistinctProducts(ps) by {
      forall i, j | 0 <= i < j < |ps| ensures ProductId(ps[i]) != ProductId(ps[j]) {
        assert ProductId(s.products[i]) != ProductId(s.products[j]);
      }
    }
  }

  /** The five seeded products; prices in cents. */
  const SeedProducts: seq<Product> := [
    Product(1, "Widget A", 1000, "Widgets", 50),
    Product(2, "Gadget B", 1550, "Gadgets", 30),
    Product(3, "Tool C", 2000, "Tools", 25),
    Product(4, "Device D", 2599, "Devices", 15),
    Product(5, "Widget E", 1299, "Widgets", 40)]

  /** The screen as it opens: the seeded catalogue, an empty cart and cash selected. */
  const OpeningSession: Session := Session(SeedProducts, [], [], [], 0, Cash, "", "", "", None, 0)

  /** The opening state keeps the invariant, and nothing in the seeded catalogue is low on stock. */
  lemma SeedProductsValid()
    ensures SessionValid(OpeningSession)
    ensures LowStock(SeedProducts) == []
  {
    var s := OpeningSession;
    assert s.products == SeedProducts && s.cart == [];
    var ps := SeedProducts;
    assert |ps| == 5;
    assert ps[0].stock == 50 && ps[1].stock == 30 && ps[2].stock == 25 && ps[3].stock == 15 && ps[4].stock == 40;
    assert forall i :: 0 <= i < |ps| ==> ps[i].stock >= 0;
    SeedProductsDistinct();
    SeedProductsNotLow();
  }

  lemma SeedProductsNotLow()
    ensures LowStock(SeedProducts) == []
  {
    var ps := SeedProducts;
    assert |ps| == 5;
    assert ps[0].stock == 50 && ps[1].stock == 30 && ps[2].stock == 25 && ps[3].stock == 15 && ps[4].stock == 40;
    FilterNone(IsLow, ps);
  }

  lemma SeedProductsDistinct()
    ensures DistinctProducts(SeedProducts)
  {
  }

  /** The point-of-sale screen's state. */
  class PointOfSale {
    var products: seq<Product>
    var cart: seq<CartLine>
    var transactions: seq<PaymentRecord>
    var orders: seq<SaleRecord>
    var paymentAmount: int
    var paymentMethod: PaymentMethod
    var mpesaPhone: string
    var mpesaName: string
    var mpesaTransactionId: string
    var lastPayment: Option<PaymentRecord>
    var change: int

    function State(): Session
      reads this
    {
      Session(products, cart, transactions, orders, paymentAmount, paymentMethod,
              mpesaPhone, mpesaName, mpesaTransactionId, lastPayment, change)
    }

    predicate Valid()
      reads this
    {
      SessionValid(State())
    }

    /** The five seeded products (prices in cents), an empty cart and cash selected. */
    constructor ()
      ensures Valid()
      ensures |products| == 5 && cart == [] && transactions == [] && orders == []
      ensures paymentAmount == 0 && paymentMethod == Cash && mpesaTransactionId == ""
      ensures lastPayment == None && change == 0
      ensures LowStock(products) == []
    {
      products := SeedProducts;
      cart := [];
      transactions := [];
      orders := [];
      paymentAmount := 0;
      paymentMethod := Cash;
      mpesaPhone := "";
      mpesaName := "";
      mpesaTransactionId := "";
      lastPayment := None;
      change := 0;
      new;
      SeedProductsValid();
      assert State() == OpeningSession;
    }

    /** `lowStockItems`, recomputed whenever the products change. */
    function LowStockItems(): (r: seq<Product>)
      reads this
      ensures forall p :: p in r <==> p in products && p.stock <= LowStockThreshold
    {
      LowStock(products)
    }

    /** The add button of a catalogue product; it is disabled when the product has no stock. */
    method AddToCart(product: Product)
      requires Valid()
      requires product in products && product.stock > 0
      modifies this
      ensures Valid()
      ensures State() == old(State()).(cart := PosCart.AddToCart(old(cart), product))
    {
      AddToCartWithinStock(products, cart, product);
      AddToCartEffect(cart, product);
      cart := PosCart.AddToCart(cart, product);
    }

    method RemoveFromCart(id: int)
      requires Valid()
      modifies this
      ensures Valid()
      ensures State() == old(State()).(cart := PosCart.RemoveFromCart(old(cart), id))
    {
      RemoveFromCartSplit(LineAmount, cart, id);
      var r := PosCart.RemoveFromCart(cart, id);
      forall i | 0 <= i < |r| ensures LineWithinStock(products, r[i]) {
        assert r[i] in cart;
      }
      cart := r;
    }

    method UpdateQuantity(id: int, newQuantity: int)
      requires Valid()
      modifies this
      ensures Valid()
      ensures State() == old(State()).(cart := PosCart.UpdateQuantity(old(products), old(cart), id, newQuantity))
    {
      UpdateQuantityWithinStock(products, cart, id, newQuantity);
      UpdateQuantityEffect(products, cart, id, newQuantity);
      cart := PosCart.UpdateQuantity(products, cart, id, newQuantity);
    }

    /**
     * `handlePayment`, run to completion with the clock reading `now` and the
     * gateway answering as `gateway` says.
     */
    method HandlePayment(now: nat, gateway: Gateway) returns (outcome: Outcome, statusChecks: nat)
      requires Valid()
      requires GatewayTerminates(State(), gateway)
      modifies this
      ensures Valid()
      ensures State() == Checkout(old(State()), now, gateway).after
      ensures outcome == Checkout(old(State()), now, gateway).outcome
      ensures statusChecks == Checkout(old(State()), now, gateway).statusChecks
    {
      ghost var s := State();
      CheckoutStock(s, now, gateway);
      if paymentMethod == Cash && paymentAmount < Total(cart) {
        outcome, statusChecks := InsufficientPayment, 0;
      } else if paymentMethod == Mpesa {
        outcome, statusChecks := MpesaPayment(now, gateway);
      } else {
        var payment := Settlement(mpesaTransactionId, now);
        outcome, statusChecks := Paid(payment), 0;
      }
    }

    /**
     * The M-Pesa branch of `handlePayment`: the details check, the payment
     * request, the PIN prompt, the polling and, once paid, the settlement.
     */
    method MpesaPayment(now: nat, gateway: Gateway) returns (outcome: Outcome, statusChecks: nat)
      requires paymentMethod == Mpesa
      requires GatewayTerminates(State(), gateway)
      modifies this
      ensures State() == Checkout(old(State()), now, gateway).after
      ensures outcome == Checkout(old(State()), now, gateway).outcome
      ensures statusChecks == Checkout(old(State()), now, gateway).statusChecks
    {
      // The handler closes over the state of the render it came from.
      var renderedTransactionId := mpesaTransactionId;
      statusChecks := 0;
      if mpesaPhone == "" || mpesaName == "" {
        outcome := MissingPaymentInfo;
        return;
      }
      if gateway.initiate.None? {
        outcome := MpesaFailed(InitiateError);
        return;
      }
      mpesaTransactionId := gateway.initiate.value;
      if !gateway.pinEntered {
        outcome := MpesaFailed(PinNotEntered);
        return;
      }
      var status;
      status, statusChecks := PollUntilSettled(gateway.statuses);
      if status == Failed {
        outcome := MpesaFailed(Declined);
      } else if status == CheckError {
        outcome := MpesaFailed(StatusUnavailable);
      } else {
        var payment := Settlement(renderedTransactionId, now);
        outcome := Paid(payment);
      }
    }

    /** The settlement part of `handlePayment`, given the reference id the handler sees. */
    method Settlement(transactionId: string, now: nat) returns (payment: PaymentRecord)
      modifies this
      ensures State() == Settle(old(State()), transactionId, now).0
      ensures payment == Settle(old(State()), transactionId, now).1
    {
      ghost var e := Settle(State(), transactionId, now);
      var total := Total(cart);
      var itemCount := ItemCount(cart);
      payment := PaymentRecord(paymentMethod, total, Reference(paymentMethod, transactionId, now), itemCount, now);
      var changeDue := if paymentMethod == Cash then paymentAmount - total else 0;
      var order := Order(payment.reference, if mpesaName != "" then mpesaName else WalkInCustomer,
                         payment.amount, PaidStatus, OrderItems(cart), payment.timestamp);
      var sale := SaleRecord(order, paymentMethod, if paymentMethod == Cash then paymentAmount else total, changeDue);
      lastPayment, change := Some(payment), changeDue;
      transactions := [payment] + transactions;
      orders := [sale] + orders;
      products := UpdateInventory(products, cart);
      cart, paymentAmount, mpesaPhone, mpesaName := [], 0, "", "";
      assert orders == e.0.orders;
    }
  }
}
