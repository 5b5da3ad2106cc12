/** The cart page of frontend/js/cart.js: the rows `getCartItems` returns,
    the totals `calculateTotals` shows, and the quantity buttons of each
    row. */
module CartPage {
  import opened Common
  import opened TownFees
  import opened Cart
  import opened Orders

  /** `getCartItems()`: every row of the user, with its product embedded,
      or `null` when the product row no longer exists. */
  function CartItems(cart: CartTable, products: map<string, Product>, user: string): (rows: seq<CartRow>)
    ensures var lines := UserLines(cart, user);
            && |rows| == |lines|
            && forall i :: 0 <= i < |rows| ==>
                 && rows[i].line == lines[i]
                 && (rows[i].product.Some? <==> lines[i].productId in products)
                 && (rows[i].product.Some? ==> rows[i].product.value == products[lines[i].productId])
  {
    var lines := UserLines(cart, user);
    seq(|lines|, i requires 0 <= i < |lines| =>
      if lines[i].productId in products then CartRow(lines[i], Some(products[lines[i].productId]))
      else CartRow(lines[i], None))
  }

  /** Every row has its product; reading `item.products.price` of a row
      without one throws and leaves the page half drawn. */
  predicate AllEmbedded(rows: seq<CartRow>) {
    forall i :: 0 <= i < |rows| ==> rows[i].product.Some?
  }

  /** `item.products.price * item.quantity`. */
  function RowAmount(row: CartRow): real {
    if row.product.Some? then row.product.value.price * row.line.quantity as real else 0.0
  }

  /** The `reduce` over the rows. */
  function RowsSubtotal(rows: seq<CartRow>): real {
    Sum(rows, RowAmount)
  }

  datatype Totals = Totals(subtotal: real, deliveryFee: real, total: real)

  /** `calculateTotals(cartItems)` with the town kept in local storage
      (`townManager.getSelectedTown()`): zeros for an empty cart; otherwise
      the selected town's fee, or 7.00 without one. `None` when a row has
      no product and the page throws. */
  function CartTotals(rows: seq<CartRow>, selectedTown: Option<Town>): (t: Option<Totals>)
    ensures rows == [] ==> t == Some(Totals(0.0, 0.0, 0.0))
    ensures t.None? <==> !AllEmbedded(rows)
    ensures t.Some? && rows != [] ==>
              && t.value.subtotal == RowsSubtotal(rows)
              && t.value.deliveryFee == (if selectedTown.Some? then TownFee(Some(selectedTown.value.id)) else DefaultFee)
              && 7.0 <= t.value.deliveryFee <= 25.0
              && t.value.total == t.value.subtotal + t.value.deliveryFee
  {
    if rows == [] then Some(Totals(0.0, 0.0, 0.0))
    else if !AllEmbedded(rows) then None
    else
      var subtotal := RowsSubtotal(rows);
      var fee := if selectedTown.Some? then TownFee(Some(selectedTown.value.id)) else DefaultFee;
      Some(Totals(subtotal, fee, subtotal + fee))
  }

  /** The rows' subtotal is the catalogue cost of their lines. */
  lemma {:induction false} RowsSubtotalIsCatalogTotal(rows: seq<CartRow>, products: map<string, Product>, lines: CartTable)
    requires |rows| == |lines|
    requires forall i :: 0 <= i < |lines| ==> lines[i].productId in products
    requires forall i :: 0 <= i < |rows| ==> rows[i] == CartRow(lines[i], Some(products[lines[i].productId]))
    ensures RowsSubtotal(rows) == CatalogTotal(products, lines)
  {
    if rows != [] {
      RowsSubtotalIsCatalogTotal(rows[1..], products, lines[1..]);
    }
  }

  /** When the selected town is the delivery city, the cart page shows
      exactly the amounts of the order `createOrder` then places. */
  lemma CartTotalsMatchPlacedOrder(db: Backend, user: string, storeId: string, address: Address,
                                   paymentMethod: string, instructions: Option<string>, now: nat,
                                   faults: Faults, town: Town)
    requires CreateOrder(db, Some(user), storeId, address, paymentMethod, instructions, now, faults).result.Placed?
    requires town.id == address.city
    ensures var o := CreateOrder(db, Some(user), storeId, address, paymentMethod, instructions, now, faults).result.order;
            CartTotals(CartItems(db.cart, db.products, user), Some(town))
            == Some(Totals(o.subtotal, o.deliveryFee, o.totalAmount))
  {
    var o := CreateOrder(db, Some(user), storeId, address, paymentMethod, instructions, now, faults).result.order;
    var lines := UserLines(db.cart, user);
    PlacedSubtotalIsCartCost(db, Some(user), storeId, address, paymentMethod, instructions, now, faults);
    assert o.subtotal == CatalogTotal(db.products, lines);
    assert o.deliveryFee == TownFee(Some(town.id));
    CatalogRows(db.cart, db.products, user);
    var t := CartTotals(CartItems(db.cart, db.products, user), Some(town)).value;
    assert t.subtotal == o.subtotal;
    assert t.deliveryFee == o.deliveryFee;
    assert t.total == o.totalAmount;
  }

  /** For a user whose every line is in the catalogue, the cart page's
      rows all carry their product and add up to the catalogue cost of the
      lines. */
  lemma CatalogRows(cart: CartTable, products: map<string, Product>, user: string)
    requires var lines := UserLines(cart, user);
             lines != [] && forall i :: 0 <= i < |lines| ==> lines[i].productId in products
    ensures var rows := CartItems(cart, products, user);
            && rows != [] && AllEmbedded(rows)
            && RowsSubtotal(rows) == CatalogTotal(products, UserLines(cart, user))
  {
    var lines := UserLines(cart, user);
    var rows := CartItems(cart, products, user);
    assert forall i :: 0 <= i < |rows| ==> rows[i] == CartRow(lines[i], Some(products[lines[i].productId]));
    RowsSubtotalIsCatalogTotal(rows, products, lines);
  }

  // ---------------------------------------------------------------------
  // Quantity buttons

  /** The '-' button: `updateQuantity(item.id, item.quantity - 1)`. */
  function Minus(cart: CartTable, line: CartLine, writeError: Option<string>): (r: CartUpdate)
    ensures r.outcome.Failure? ==> r.cart == cart
    ensures line.quantity >= 2 && writeError.None? ==>
              && |r.cart| == |cart|
              && forall i :: 0 <= i < |cart| ==>
                   r.cart[i] == if cart[i].id == line.id then cart[i].(quantity := line.quantity - 1) else cart[i]
  {
    UpdateCartItemQuantity(cart, line.id, line.quantity - 1, writeError)
  }

  /** The '+' button: `updateQuantity(item.id, item.quantity + 1)`. */
  function Plus(cart: CartTable, line: CartLine, writeError: Option<string>): (r: CartUpdate)
    ensures r.outcome.Failure? ==> r.cart == cart
    ensures line.quantity >= 0 && writeError.None? ==>
              && |r.cart| == |cart|
              && forall i :: 0 <= i < |cart| ==>
                   r.cart[i] == if cart[i].id == line.id then cart[i].(quantity := line.quantity + 1) else cart[i]
  {
    UpdateCartItemQuantity(cart, line.id, line.quantity + 1, writeError)
  }

  /** '-' on a row holding one unit removes the row. */
  lemma MinusAtOneRemoves(cart: CartTable, line: CartLine, writeError: Option<string>)
    requires line.quantity <= 1
    ensures Minus(cart, line, writeError) == RemoveFromCart(cart, line.id, writeError)
  {
  }

  /** '-' after '+' on a row of at least one unit gives the cart back. */
  lemma MinusUndoesPlus(cart: CartTable, i: int)
    requires IdsUnique(cart) && 0 <= i < |cart| && cart[i].quantity >= 1
    ensures var plus := Plus(cart, cart[i], None).cart;
            Minus(plus, plus[i], None).cart == cart
  {
    var plus := Plus(cart, cart[i], None).cart;
    var back := Minus(plus, plus[i], None).cart;
    assert plus[i].id == cart[i].id;
    assert |back| == |cart|;
    forall j | 0 <= j < |cart| ensures back[j] == cart[j] {
      if j != i {
        assert cart[j].id != cart[i].id;
      }
    }
  }
}
