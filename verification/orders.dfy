/** Order placement, `createOrder` of frontend/js/app.js, over a backend of
    four tables: cart rows, stores, products and orders. Each backend call
    that can fail is given its error message as a fault; the clock
    (`Date.now()`) is a parameter. */
module Orders {
  import opened Common
  import opened Text
  import opened TownFees
  import opened Cart

  /** A row of `products`, as far as ordering reads it. */
  datatype Product = Product(id: string, storeId: string, name: string, price: real, discount: Option<real>)

  /** A cart row with its `products:product_id (*)` embedding: the product,
      or `null`. */
  datatype CartRow = CartRow(line: CartLine, product: Option<Product>)

  /** A line of an order's `items`, a snapshot of the product at ordering time. */
  datatype OrderItem = OrderItem(
    productId: string, productName: string, quantity: int, price: real,
    selectedVariations: string, discount: real)

  /** `deliveryAddress` as the checkout page builds it. */
  datatype Address = Address(
    street: string, city: string, state: string, zipCode: string,
    country: string, latitude: real, longitude: real)

  datatype Order = Order(
    id: nat, orderNumber: string, customerId: string, storeId: string,
    items: seq<OrderItem>, subtotal: real, tax: real, deliveryFee: real,
    totalAmount: real, deliveryAddress: Address, paymentMethod: string,
    specialInstructions: string, status: string)

  datatype Backend = Backend(cart: CartTable, stores: set<string>, products: map<string, Product>, orders: seq<Order>)

  /** The error message of each backend call that fails, if it does. */
  datatype Faults = Faults(cartRead: Option<string>, storeRead: Option<string>, insert: Option<string>, clear: Option<string>)

  const NoFaults := Faults(None, None, None, None)

  datatype CreateResult = Placed(order: Order) | Refused(error: string)

  datatype Placement = Placement(db: Backend, result: CreateResult)

  const CartEmpty := "Cart is empty"
  /** PostgREST's message when `.single()` finds no row. */
  const StoreNotFound := "JSON object requested, multiple (or no) rows returned"
  /** The `TypeError` that reading `item.products.price` off a `null`
      embedding raises. */
  const NullProduct := "Cannot read properties of null (reading 'price')"
  const Pending := "pending"

  /** The rows of `user`, in table order. */
  function UserLines(cart: CartTable, user: string): (r: CartTable)
    ensures |r| <= |cart|
    ensures forall i :: 0 <= i < |r| ==> r[i].userId == user && r[i] in cart
    ensures forall i :: 0 <= i < |cart| && cart[i].userId == user ==> cart[i] in r
  {
    Filter(cart, (l: CartLine) => l.userId == user)
  }

  /** The line's product, if it exists and belongs to `storeId`. */
  predicate SoldBy(products: map<string, Product>, l: CartLine, storeId: string) {
    l.productId in products && products[l.productId].storeId == storeId
  }

  /** The cart query of `createOrder`. The filter on `products.store_id`
      applies to the embedded product, not to the cart rows, so every row of
      the user comes back; a product of another store embeds as `null`. */
  function CartQuery(cart: CartTable, products: map<string, Product>, user: string, storeId: string): (rows: seq<CartRow>)
    ensures var lines := UserLines(cart, user);
            && |rows| == |lines|
            && forall i :: 0 <= i < |rows| ==>
                 && rows[i].line == lines[i]
                 && (rows[i].product.Some? <==> SoldBy(products, lines[i], storeId))
                 && (rows[i].product.Some? ==> rows[i].product.value == products[lines[i].productId])
  {
    var lines := UserLines(cart, user);
    seq(|lines|, i requires 0 <= i < |lines| =>
      if SoldBy(products, lines[i], storeId) then CartRow(lines[i], Some(products[lines[i].productId]))
      else CartRow(lines[i], None))
  }

  function ItemOf(l: CartLine, p: Product): OrderItem {
    OrderItem(l.productId, p.name, l.quantity, p.price, l.variations,
              if p.discount.Some? then p.discount.value else 0.0)
  }

  /** The `items` snapshot built from the embedded rows. */
  function ItemsOf(rows: seq<CartRow>): (items: seq<OrderItem>)
    requires forall i :: 0 <= i < |rows| ==> rows[i].product.Some?
    ensures |items| == |rows|
    ensures forall i :: 0 <= i < |rows| ==> items[i] == ItemOf(rows[i].line, rows[i].product.value)
  {
    seq(|rows|, i requires 0 <= i < |rows| => ItemOf(rows[i].line, rows[i].product.value))
  }

  /** `price * quantity`, the amount of one line. */
  function LineTotal(it: OrderItem): real {
    it.price * it.quantity as real
  }

  function Subtotal(items: seq<OrderItem>): real {
    Sum(items, LineTotal)
  }

  /** Everything `createOrder` needs to succeed, stated on the tables: a
      user, working reads and insert, a known store, and a non-empty cart
      whose every row is a product of that store. */
  predicate CanPlace(db: Backend, user: Option<string>, storeId: string, faults: Faults) {
    && user.Some?
    && faults.cartRead.None? && faults.storeRead.None? && faults.insert.None?
    && storeId in db.stores
    && |UserLines(db.cart, user.value)| > 0
    && forall l :: l in UserLines(db.cart, user.value) ==> SoldBy(db.products, l, storeId)
  }

  /** Every row of the query embeds its product exactly when every cart
      line of the user is a product of the store. */
  lemma QueryEmbedsAllIffSold(cart: CartTable, products: map<string, Product>, user: string, storeId: string)
    ensures var rows := CartQuery(cart, products, user, storeId);
            (exists i :: 0 <= i < |rows| && rows[i].product.None?) <==>
            !(forall l :: l in UserLines(cart, user) ==> SoldBy(products, l, storeId))
  {
    var rows := CartQuery(cart, products, user, storeId);
    var lines := UserLines(cart, user);
    if exists i :: 0 <= i < |rows| && rows[i].product.None? {
      var i :| 0 <= i < |rows| && rows[i].product.None?;
      assert lines[i] in lines && !SoldBy(products, lines[i], storeId);
    }
  }

  /** The guards of `createOrder`, in order: the first failure, or `None`
      when the order is inserted. */
  function Refusal(db: Backend, user: Option<string>, storeId: string, faults: Faults): (r: Option<string>)
    ensures user.None? ==> r == Some(NotLoggedIn)
    ensures user.Some? && faults.cartRead.Some? ==> r == faults.cartRead
    ensures user.Some? && faults.cartRead.None? && |UserLines(db.cart, user.value)| == 0 ==> r == Some(CartEmpty)
    ensures user.Some? && faults.cartRead.None? && |UserLines(db.cart, user.value)| > 0 ==>
              && (faults.storeRead.Some? ==> r == faults.storeRead)
              && (faults.storeRead.None? && storeId !in db.stores ==> r == Some(StoreNotFound))
              && (faults.storeRead.None? && storeId in db.stores ==>
                    if !(forall l :: l in UserLines(db.cart, user.value) ==> SoldBy(db.products, l, storeId))
                    then r == Some(NullProduct)
                    else r == faults.insert)
    ensures r.None? <==> CanPlace(db, user, storeId, faults)
  {
    if user.None? then Some(NotLoggedIn)
    else if faults.cartRead.Some? then faults.cartRead
    else
      var rows := CartQuery(db.cart, db.products, user.value, storeId);
      QueryEmbedsAllIffSold(db.cart, db.products, user.value, storeId);
      if |rows| == 0 then Some(CartEmpty)
      else if faults.storeRead.Some? then faults.storeRead
      else if storeId !in db.stores then Some(StoreNotFound)
      else if exists i :: 0 <= i < |rows| && rows[i].product.None? then Some(NullProduct)
      else if faults.insert.Some? then faults.insert
      else None
  }

  /** The row `createOrder` inserts once every guard has passed. */
  function NewOrder(db: Backend, user: string, storeId: string, address: Address,
                    paymentMethod: string, instructions: Option<string>, now: nat): (o: Order)
    requires forall l :: l in UserLines(db.cart, user) ==> SoldBy(db.products, l, storeId)
    ensures var lines := UserLines(db.cart, user);
            && o.customerId == user && o.storeId == storeId
            && o.orderNumber == "FG-" + NatToString(now)
            && o.status == Pending && o.tax == 0.0
            && o.deliveryFee == TownFee(Some(address.city))
            && o.subtotal == Subtotal(o.items)
            && o.totalAmount == o.subtotal + o.deliveryFee
            && o.deliveryAddress == address && o.paymentMethod == paymentMethod
            && o.specialInstructions == (if instructions.Some? then instructions.value else "")
            && |o.items| == |lines|
            && (forall i :: 0 <= i < |lines| ==>
                  lines[i].productId in db.products
                  && o.items[i] == ItemOf(lines[i], db.products[lines[i].productId]))
            && (forall i :: 0 <= i < |db.orders| ==> db.orders[i].id != o.id)
  {
    var lines := UserLines(db.cart, user);
    var rows := CartQuery(db.cart, db.products, user, storeId);
    assert forall i :: 0 <= i < |rows| ==> rows[i].product.Some? by {
      forall i | 0 <= i < |rows| ensures rows[i].product.Some? {
        assert lines[i] in lines;
      }
    }
    var items := ItemsOf(rows);
    var subtotal := Subtotal(items);
    var fee := TownFee(Some(address.city));
    Order(
      MaxKey(db.orders, (o: Order) => o.id) + 1, "FG-" + NatToString(now), user, storeId,
      items, subtotal, 0.0, fee, subtotal + fee, address, paymentMethod,
      if instructions.Some? then instructions.value else "", Pending)
  }

  /** `createOrder(storeId, deliveryAddress, paymentMethod, specialInstructions = '')`. */
  function CreateOrder(db: Backend, user: Option<string>, storeId: string, address: Address,
                       paymentMethod: string, instructions: Option<string>, now: nat, faults: Faults): (p: Placement)
    ensures p.result.Refused? ==> p.db == db
    ensures p.result.Refused? ==> Refusal(db, user, storeId, faults) == Some(p.result.error)
    ensures user.None? ==> p.result == Refused(NotLoggedIn)
    ensures user.Some? && faults.cartRead.Some? ==> p.result == Refused(faults.cartRead.value)
    ensures user.Some? && faults.cartRead.None? && |UserLines(db.cart, user.value)| == 0 ==> p.result == Refused(CartEmpty)
    ensures p.result.Placed? <==> CanPlace(db, user, storeId, faults)
    ensures p.result.Placed? ==>
              var o := p.result.order;
              var lines := UserLines(db.cart, user.value);
              && o.customerId == user.value && o.storeId == storeId
              && o.orderNumber == "FG-" + NatToString(now)
              && o.status == Pending && o.tax == 0.0
              && o.deliveryFee == TownFee(Some(address.city))
              && o.subtotal == Subtotal(o.items)
              && o.totalAmount == o.subtotal + o.deliveryFee
              && o.deliveryAddress == address && o.paymentMethod == paymentMethod
              && o.specialInstructions == (if instructions.Some? then instructions.value else "")
              && |o.items| == |lines|
              && (forall i :: 0 <= i < |lines| ==>
                    o.items[i] == ItemOf(lines[i], db.products[lines[i].productId]))
              && (forall i :: 0 <= i < |db.orders| ==> db.orders[i].id != o.id)
              && p.db.orders == db.orders + [o]
              && p.db.stores == db.stores && p.db.products == db.products
    ensures p.result.Placed? && faults.clear.None? ==>
              p.db.cart == ClearCart(db.cart, user, None).cart
    ensures p.result.Placed? && faults.clear.Some? ==> p.db.cart == db.cart
  {
    var refusal := Refusal(db, user, storeId, faults);
    if refusal.Some? then Placement(db, Refused(refusal.value))
    else
      var order := NewOrder(db, user.value, storeId, address, paymentMethod, instructions, now);
      var placed := db.(orders := db.orders + [order]);
      if faults.clear.Some? then Placement(placed, Placed(order))
      else Placement(placed.(cart := ClearCart(db.cart, user, None).cart), Placed(order))
  }

  /** The catalogue amount of a line: the product's current price times the
      quantity in the cart. */
  function CatalogLineTotal(products: map<string, Product>, l: CartLine): real
    requires l.productId in products
  {
    products[l.productId].price * l.quantity as real
  }

  function CatalogTotal(products: map<string, Product>, lines: CartTable): real
    requires forall i :: 0 <= i < |lines| ==> lines[i].productId in products
  {
    if lines == [] then 0.0 else CatalogLineTotal(products, lines[0]) + CatalogTotal(products, lines[1..])
  }

  lemma {:induction false} SnapshotTotalIsCatalogTotal(products: map<string, Product>, lines: CartTable, items: seq<OrderItem>)
    requires forall i :: 0 <= i < |lines| ==> lines[i].productId in products
    requires |items| == |lines|
    requires forall i :: 0 <= i < |lines| ==> items[i] == ItemOf(lines[i], products[lines[i].productId])
    ensures Subtotal(items) == CatalogTotal(products, lines)
  {
    if lines != [] {
      SnapshotTotalIsCatalogTotal(products, lines[1..], items[1..]);
    }
  }

  /** The subtotal a placed order records is what the user's cart costs at
      catalogue prices at the moment of ordering. */
  lemma PlacedSubtotalIsCartCost(db: Backend, user: Option<string>, storeId: string, address: Address,
                                 paymentMethod: string, instructions: Option<string>, now: nat, faults: Faults)
    requires CreateOrder(db, user, storeId, address, paymentMethod, instructions, now, faults).result.Placed?
    ensures var lines := UserLines(db.cart, user.value);
            && (forall i :: 0 <= i < |lines| ==> lines[i].productId in db.products)
            && CreateOrder(db, user, storeId, address, paymentMethod, instructions, now, faults).result.order.subtotal
               == CatalogTotal(db.products, lines)
  {
    var o := CreateOrder(db, user, storeId, address, paymentMethod, instructions, now, faults).result.order;
    var lines := UserLines(db.cart, user.value);
    assert forall i :: 0 <= i < |lines| ==> SoldBy(db.products, lines[i], storeId) by {
      forall i | 0 <= i < |lines| ensures SoldBy(db.products, lines[i], storeId) {
        assert lines[i] in lines;
      }
    }
    SnapshotTotalIsCatalogTotal(db.products, lines, o.items);
  }

  /** A cart holding a product of another store (or a deleted product) can
      never be ordered from `storeId`: the order is refused and the cart is
      kept. */
  lemma ForeignLineRefused(db: Backend, user: string, storeId: string, address: Address,
                           paymentMethod: string, instructions: Option<string>, now: nat, faults: Faults, l: CartLine)
    requires l in db.cart && l.userId == user
    requires !SoldBy(db.products, l, storeId)
    ensures CreateOrder(db, Some(user), storeId, address, paymentMethod, instructions, now, faults).result.Refused?
    ensures CreateOrder(db, Some(user), storeId, address, paymentMethod, instructions, now, faults).db == db
    ensures faults.cartRead.None? && faults.storeRead.None? && storeId in db.stores ==>
              CreateOrder(db, Some(user), storeId, address, paymentMethod, instructions, now, faults).result
              == Refused(NullProduct)
  {
    var lines := UserLines(db.cart, user);
    var k :| 0 <= k < |db.cart| && db.cart[k] == l;
    assert l in lines;
  }

  lemma EmptyTownKey()
    ensures TownKey("") == ""
  {
    assert Lower("") == "";
  }

  /** Any city whose key is "hohoe" costs 7.00. */
  lemma HohoeFee(city: string)
    requires TownKey(city) == "hohoe"
    ensures TownFee(Some(city)) == 7.0
  {
    EmptyTownKey();
    assert city != "";
    assert Truthy(Some(city));
    assert "hohoe" in FeeTable && FeeTable["hohoe"] == 7.0;
  }

  lemma TwoLineCatalogTotal(products: map<string, Product>, a: CartLine, b: CartLine)
    requires a.productId in products && b.productId in products
    requires a.quantity == 2 && b.quantity == 1
    requires products[a.productId].price == 10.0 && products[b.productId].price == 5.0
    ensures CatalogTotal(products, [a, b]) == 25.0
  {
    assert [a, b][1..] == [b];
    assert CatalogTotal(products, [b]) == 5.0 by {
      assert [b][1..] == [];
    }
    assert CatalogLineTotal(products, a) == 20.0;
  }

  /** The worked example: two lines, 10.00 x 2 and 5.00 x 1, delivered to
      a town whose key is "hohoe", give a subtotal of 25.00, a fee of 7.00
      and a total of 32.00. */
  lemma TwoLineExample(db: Backend, user: string, storeId: string, address: Address,
                       paymentMethod: string, now: nat, a: CartLine, b: CartLine)
    requires UserLines(db.cart, user) == [a, b]
    requires a.quantity == 2 && b.quantity == 1
    requires SoldBy(db.products, a, storeId) && db.products[a.productId].price == 10.0
    requires SoldBy(db.products, b, storeId) && db.products[b.productId].price == 5.0
    requires storeId in db.stores
    requires TownKey(address.city) == "hohoe"
    ensures var p := CreateOrder(db, Some(user), storeId, address, paymentMethod, None, now, NoFaults);
            && p.result.Placed?
            && p.result.order.subtotal == 25.0
            && p.result.order.deliveryFee == 7.0
            && p.result.order.totalAmount == 32.0
  {
    var lines := UserLines(db.cart, user);
    assert forall l :: l in lines ==> SoldBy(db.products, l, storeId);
    assert CanPlace(db, Some(user), storeId, NoFaults);
    HohoeFee(address.city);
    PlacedSubtotalIsCartCost(db, Some(user), storeId, address, paymentMethod, None, now, NoFaults);
    TwoLineCatalogTotal(db.products, a, b);
  }
}
