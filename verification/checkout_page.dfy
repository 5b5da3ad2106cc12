/** The checkout page of frontend/js/checkout.js: loading the cart and the
    totals snapshot kept in local storage (`checkoutTotals`), the city
    select, and `placeOrder`, which checks the form, calls `createOrder` and
    then `processPayment` with the snapshot's total. The city select's
    options are taken to be the town list, so assigning a stored town's id
    selects it. */
module CheckoutPage {
  import opened Common
  import opened Text
  import opened TownFees
  import opened Cart
  import opened Orders
  import opened CartPage

  /** The loaded page: the cart rows, the store of the first row
      (`currentStore`), the city select's value, and the snapshot of the
      totals in local storage. */
  datatype Checkout = Checkout(rows: seq<CartRow>, currentStore: string, city: string, snapshot: Totals)

  datatype LoadView = LoadGoToLogin | EmptyCart | LoadCrashed | Ready(page: Checkout)

  /** `displayOrderSummary(items)` with the city select's value: the totals
      it shows and writes to `checkoutTotals`. */
  function Summary(rows: seq<CartRow>, city: string): (t: Totals)
    ensures t.subtotal == RowsSubtotal(rows)
    ensures t.deliveryFee == TownFee(Some(city))
    ensures t.total == t.subtotal + t.deliveryFee
  {
    var subtotal := RowsSubtotal(rows);
    var fee := TownFee(Some(city));
    Totals(subtotal, fee, subtotal + fee)
  }

  /** The checkout summary agrees with the cart page's totals for the same
      town. */
  lemma SummaryAgreesWithCartPage(rows: seq<CartRow>, town: Town)
    requires rows != [] && AllEmbedded(rows)
    ensures CartTotals(rows, Some(town)) == Some(Summary(rows, town.id))
  {
    var t := CartTotals(rows, Some(town)).value;
    var s := Summary(rows, town.id);
    assert t.subtotal == s.subtotal;
    assert t.deliveryFee == s.deliveryFee;
    assert t.total == s.total;
  }

  /** The snapshot the payment will use describes the city now selected. */
  predicate SnapshotCurrent(c: Checkout) {
    c.snapshot == Summary(c.rows, c.city)
  }

  /** `loadCheckoutData()` as written: the summary (and its snapshot) is
      computed with the select's initial value `defaultCity`, and only then
      does `setupLocationListeners` set the select to the stored town,
      without a change event, so the snapshot is not recomputed. `read` is
      what `getCartItems` returned (`None` on failure). */
  function LoadCheckoutAsWritten(user: Option<string>, read: Option<seq<CartRow>>, defaultCity: string,
                                 storedTown: Option<Town>): (v: LoadView)
    ensures user.None? ==> v == LoadGoToLogin
    ensures user.Some? && (read.None? || read.value == []) ==> v == EmptyCart
    ensures v.Ready? ==>
              && read.Some? && v.page.rows == read.value
              && v.page.snapshot == Summary(read.value, defaultCity)
              && v.page.city == (if storedTown.Some? then storedTown.value.id else defaultCity)
  {
    if user.None? then LoadGoToLogin
    else if read.None? || read.value == [] then EmptyCart
    else if !AllEmbedded(read.value) then LoadCrashed
    else
      var rows := read.value;
      var snapshot := Summary(rows, defaultCity);
      var city := if storedTown.Some? then storedTown.value.id else defaultCity;
      Ready(Checkout(rows, rows[0].product.value.storeId, city, snapshot))
  }

  /** `loadCheckoutData()` with the stored town selected before the summary
      is computed. */
  function LoadCheckout(user: Option<string>, read: Option<seq<CartRow>>, defaultCity: string,
                        storedTown: Option<Town>): (v: LoadView)
    ensures user.None? ==> v == LoadGoToLogin
    ensures user.Some? && (read.None? || read.value == []) ==> v == EmptyCart
    ensures user.Some? && read.Some? && read.value != [] ==> (v.Ready? <==> AllEmbedded(read.value))
    ensures v.Ready? ==>
              && read.Some? && v.page.rows == read.value
              && v.page.currentStore == read.value[0].product.value.storeId
              && v.page.city == (if storedTown.Some? then storedTown.value.id else defaultCity)
              && SnapshotCurrent(v.page)
  {
    if user.None? then LoadGoToLogin
    else if read.None? || read.value == [] then EmptyCart
    else if !AllEmbedded(read.value) then LoadCrashed
    else
      var rows := read.value;
      var city := if storedTown.Some? then storedTown.value.id else defaultCity;
      Ready(Checkout(rows, rows[0].product.value.storeId, city, Summary(rows, city)))
  }

  /** The select's change listener: the summary and the snapshot follow
      the new value. */
  function ChangeCity(c: Checkout, city: string): (r: Checkout)
    ensures r.rows == c.rows && r.currentStore == c.currentStore && r.city == city
    ensures SnapshotCurrent(r)
  {
    c.(city := city, snapshot := Summary(c.rows, city))
  }

  /** Without a stored town both loads agree. */
  lemma LoadsAgreeWithoutStoredTown(user: Option<string>, read: Option<seq<CartRow>>, defaultCity: string)
    ensures LoadCheckoutAsWritten(user, read, defaultCity, None) == LoadCheckout(user, read, defaultCity, None)
  {
  }

  // ---------------------------------------------------------------------
  // Placing the order

  /** The raw address and card fields. */
  datatype AddressForm = AddressForm(street: string, region: string, zip: string)
  datatype CardForm = CardForm(number: string, expiry: string, cvv: string)

  datatype Payment = Payment(orderId: nat, customerId: string, amount: real)

  datatype PlaceView = PlaceGoToLogin | Alert(message: string) | GoToOrders

  /** What placing leaves behind: the tables, the payment recorded, whether
      the snapshot is still in local storage, and what the page shows. */
  datatype PlaceOutcome = PlaceOutcome(db: Backend, payment: Option<Payment>, snapshotKept: bool, view: PlaceView)

  const AddressMissing := "Please fill in all address fields"
  const CardMissing := "Please fill in all card details"
  const DefaultZip := "0000"

  /** The delivery address object built from the form. */
  function DeliveryAddress(city: string, f: AddressForm): (a: Address)
    ensures a.street == Trim(f.street) && a.state == Trim(f.region)
    ensures a.city == city && a.country == "Ghana" && a.latitude == 0.0 && a.longitude == 0.0
    ensures a.zipCode == (if Trim(f.zip) == "" then DefaultZip else Trim(f.zip))
    ensures a.zipCode != ""
  {
    Address(Trim(f.street), city, Trim(f.region), if Trim(f.zip) == "" then DefaultZip else Trim(f.zip),
            "Ghana", 0.0, 0.0)
  }

  /** The address check: street, city and region must be given; the zip
      code never blocks, since an empty one becomes "0000". */
  predicate AddressComplete(city: string, f: AddressForm): (ok: bool)
    ensures ok <==> Trim(f.street) != "" && city != "" && Trim(f.region) != ""
  {
    var a := DeliveryAddress(city, f);
    a.street != "" && a.city != "" && a.state != "" && a.zipCode != ""
  }

  /** The card check: it blocks only a card payment, and then every card
      field must be given. */
  predicate CardComplete(paymentMethod: string, card: CardForm): (ok: bool)
    ensures paymentMethod != "card" ==> ok
    ensures paymentMethod == "card" ==> (ok <==> Trim(card.number) != "" && Trim(card.expiry) != "" && Trim(card.cvv) != "")
  {
    paymentMethod != "card" || (Trim(card.number) != "" && Trim(card.expiry) != "" && Trim(card.cvv) != "")
  }

  /** The zip code plays no part in the address check. */
  lemma ZipNeverBlocks(city: string, f: AddressForm, zip: string)
    ensures AddressComplete(city, f) == AddressComplete(city, f.(zip := zip))
  {
  }

  /** `placeOrder()`. `paymentError` is what `processPayment`'s insert
      would fail with. A refused or unpaid order keeps the snapshot; a
      failed payment does not undo the order. */
  function PlaceOrder(c: Checkout, db: Backend, user: Option<string>, f: AddressForm, paymentMethod: string,
                      card: CardForm, instructions: string, now: nat, faults: Faults,
                      paymentError: Option<string>): (r: PlaceOutcome)
    ensures user.None? ==> r == PlaceOutcome(db, None, true, PlaceGoToLogin)
    ensures user.Some? && !AddressComplete(c.city, f) ==> r == PlaceOutcome(db, None, true, Alert(AddressMissing))
    ensures user.Some? && AddressComplete(c.city, f) && !CardComplete(paymentMethod, card) ==>
              r == PlaceOutcome(db, None, true, Alert(CardMissing))
    ensures user.Some? && AddressComplete(c.city, f) && CardComplete(paymentMethod, card) ==>
              var p := CreateOrder(db, user, c.currentStore, DeliveryAddress(c.city, f), paymentMethod,
                                   Some(instructions), now, faults);
              && r.db == p.db
              && (r.payment.Some? <==> p.result.Placed? && paymentError.None?)
              && (r.payment.Some? ==> r.payment.value == Payment(p.result.order.id, user.value, c.snapshot.total))
              && (p.result.Refused? ==> r.view == Alert("Error placing order: " + p.result.error))
              && (p.result.Placed? && paymentError.Some? ==> r.view == Alert("Payment failed: " + paymentError.value))
    ensures r.view == GoToOrders <==> r.payment.Some?
    ensures r.snapshotKept <==> r.view != GoToOrders
  {
    if user.None? then PlaceOutcome(db, None, true, PlaceGoToLogin)
    else if !AddressComplete(c.city, f) then PlaceOutcome(db, None, true, Alert(AddressMissing))
    else if !CardComplete(paymentMethod, card) then PlaceOutcome(db, None, true, Alert(CardMissing))
    else
      var p := CreateOrder(db, user, c.currentStore, DeliveryAddress(c.city, f), paymentMethod,
                           Some(instructions), now, faults);
      match p.result
      case Refused(e) => PlaceOutcome(p.db, None, true, Alert("Error placing order: " + e))
      case Placed(o) =>
        if paymentError.Some? then PlaceOutcome(p.db, None, true, Alert("Payment failed: " + paymentError.value))
        else PlaceOutcome(p.db, Some(Payment(o.id, user.value, c.snapshot.total)), false, GoToOrders)
  }

  /** With a current snapshot over the rows `getCartItems` returned, the
      payment charges exactly the total of the order it pays for. */
  lemma PaymentChargesOrderTotal(c: Checkout, db: Backend, user: string, f: AddressForm, paymentMethod: string,
                                 card: CardForm, instructions: string, now: nat, faults: Faults)
    requires c.rows == CartItems(db.cart, db.products, user)
    requires SnapshotCurrent(c)
    ensures var r := PlaceOrder(c, db, Some(user), f, paymentMethod, card, instructions, now, faults, None);
            var p := CreateOrder(db, Some(user), c.currentStore, DeliveryAddress(c.city, f), paymentMethod,
                                 Some(instructions), now, faults);
            r.payment.Some? ==> p.result.Placed? && r.payment.value.amount == p.result.order.totalAmount
  {
    var r := PlaceOrder(c, db, Some(user), f, paymentMethod, card, instructions, now, faults, None);
    if r.payment.Some? {
      var a := DeliveryAddress(c.city, f);
      var p := CreateOrder(db, Some(user), c.currentStore, a, paymentMethod, Some(instructions), now, faults);
      var town := Town(c.city, c.city);
      CartTotalsMatchPlacedOrder(db, user, c.currentStore, a, paymentMethod, Some(instructions), now, faults, town);
      SummaryAgreesWithCartPage(c.rows, town);
    }
  }

  /** The corrected load followed by any city changes pays the order total. */
  lemma CorrectedLoadPaysOrderTotal(db: Backend, user: string, defaultCity: string, storedTown: Option<Town>,
                                    changes: seq<string>, f: AddressForm, paymentMethod: string,
                                    card: CardForm, instructions: string, now: nat, faults: Faults)
    requires LoadCheckout(Some(user), Some(CartItems(db.cart, db.products, user)), defaultCity, storedTown).Ready?
    ensures var c := ApplyChanges(LoadCheckout(Some(user), Some(CartItems(db.cart, db.products, user)),
                                               defaultCity, storedTown).page, changes);
            var r := PlaceOrder(c, db, Some(user), f, paymentMethod, card, instructions, now, faults, None);
            var p := CreateOrder(db, Some(user), c.currentStore, DeliveryAddress(c.city, f), paymentMethod,
                                 Some(instructions), now, faults);
            r.payment.Some? ==> p.result.Placed? && r.payment.value.amount == p.result.order.totalAmount
  {
    var c0 := LoadCheckout(Some(user), Some(CartItems(db.cart, db.products, user)), defaultCity, storedTown).page;
    ApplyChangesKeepsSnapshotCurrent(c0, changes);
    PaymentChargesOrderTotal(ApplyChanges(c0, changes), db, user, f, paymentMethod, card, instructions, now, faults);
  }

  /** A run of change events on the city select. */
  function ApplyChanges(c: Checkout, changes: seq<string>): (r: Checkout)
    decreases |changes|
    ensures r.rows == c.rows && r.currentStore == c.currentStore
    ensures changes == [] ==> r == c
    ensures changes != [] ==> r.city == changes[|changes| - 1]
  {
    if changes == [] then c
    else
      var rest := changes[1..];
      assert rest != [] ==> rest[|rest| - 1] == changes[|changes| - 1];
      ApplyChanges(ChangeCity(c, changes[0]), rest)
  }

  lemma {:induction false} ApplyChangesKeepsSnapshotCurrent(c: Checkout, changes: seq<string>)
    requires SnapshotCurrent(c)
    ensures SnapshotCurrent(ApplyChanges(c, changes))
    decreases |changes|
  {
    if changes != [] {
      ApplyChangesKeepsSnapshotCurrent(ChangeCity(c, changes[0]), changes[1..]);
    }
  }

  // ---------------------------------------------------------------------
  // The stale snapshot of the load as written

  lemma WliFee()
    ensures TownFee(Some("wli")) == 22.0
  {
    var w := "wli";
    assert |w| == 3;
    assert Truthy(Some(w));
    WliKey();
    WliEntry();
    assert TownKey(w) in FeeTable;
  }

  lemma WliKey()
    ensures TownKey("wli") == "wli"
  {
    LowerLettersAreKeys("wli");
  }

  lemma WliEntry()
    ensures "wli" in FeeTable && FeeTable["wli"] == 22.0
  {
  }

  lemma EmptyCityFee()
    ensures TownFee(Some("")) == DefaultFee
  {
  }

  /** As written, a stored town of Wli and a select that starts empty give
      a snapshot priced at the default 7.00 while the order is priced at
      Wli's 22.00: the payment is 15.00 short of the order total. */
  lemma StalePaymentCounterexample(db: Backend, user: string, f: AddressForm, paymentMethod: string,
                                   card: CardForm, instructions: string, now: nat, faults: Faults)
    requires LoadCheckoutAsWritten(Some(user), Some(CartItems(db.cart, db.products, user)), "",
                                   Some(Town("wli", "Wli"))).Ready?
    ensures var c := LoadCheckoutAsWritten(Some(user), Some(CartItems(db.cart, db.products, user)), "",
                                           Some(Town("wli", "Wli"))).page;
            var r := PlaceOrder(c, db, Some(user), f, paymentMethod, card, instructions, now, faults, None);
            var p := CreateOrder(db, Some(user), c.currentStore, DeliveryAddress(c.city, f), paymentMethod,
                                 Some(instructions), now, faults);
            && c.city == "wli" && !SnapshotCurrent(c)
            && (r.payment.Some? ==> p.result.Placed? && r.payment.value.amount + 15.0 == p.result.order.totalAmount)
  {
    var c := LoadCheckoutAsWritten(Some(user), Some(CartItems(db.cart, db.products, user)), "",
                                   Some(Town("wli", "Wli"))).page;
    WliFee();
    EmptyCityFee();
    assert c.snapshot.deliveryFee == 7.0;
    var r := PlaceOrder(c, db, Some(user), f, paymentMethod, card, instructions, now, faults, None);
    if r.payment.Some? {
      var a := DeliveryAddress(c.city, f);
      var town := Town(c.city, c.city);
      CartTotalsMatchPlacedOrder(db, user, c.currentStore, a, paymentMethod, Some(instructions), now, faults, town);
      SummaryAgreesWithCartPage(c.rows, town);
    }
  }
}
