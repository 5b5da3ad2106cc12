/** The seller dashboard of frontend/js/seller-dashboard.js: who may open
    it, the store's active orders and the one action button each shows, the
    status update behind the button, the delivered-sales figure, and the
    product record the add-product form inserts. */
module SellerDashboard {
  import opened Common
  import Session
  import opened Orders

  /** Only a logged-in user whose role is "store" stays on the page. */
  predicate MayManage(user: Option<string>, role: Option<string>) {
    user.Some? && role == Some(Session.StoreRole)
  }

  const Home := "index.html"

  /** The page's start: `None` when the dashboard loads, otherwise the page
      the user is sent to instead. */
  function Gate(user: Option<string>, role: Option<string>): (redirect: Option<string>)
    ensures redirect.None? <==> MayManage(user, role)
    ensures redirect.Some? ==> redirect.value == Home
    ensures user.None? ==> redirect == Some(Home)
  {
    if user.None? || role != Some(Session.StoreRole) then Some(Home) else None
  }

  const Confirmed := "confirmed"
  const Packing := "packing"
  const Ready := "ready"
  const Delivered := "delivered"
  const Cancelled := "cancelled"

  /** The statuses of the order model in backend/src/models/Order.js. */
  const OrderStatuses: seq<string> :=
    [Pending, Confirmed, "preparing", Ready, "out_for_delivery", Delivered, Cancelled]

  /** The status the order's one button moves it to: Confirm, Mark as
      Packing, Notify for Delivery; no button for any other status. */
  function NextStatus(status: string): (next: Option<string>)
    ensures next.Some? <==> status == Pending || status == Confirmed || status == Packing
    ensures next.Some? ==> next.value != Delivered && next.value != Cancelled && next.value != status
  {
    if status == Pending then Some(Confirmed)
    else if status == Confirmed then Some(Packing)
    else if status == Packing then Some(Ready)
    else None
  }

  /** Following the buttons from "pending" passes "confirmed" and
      "packing" and stops at "ready", which has no button. */
  lemma ButtonsLeadToReady()
    ensures NextStatus(Pending) == Some(Confirmed)
    ensures NextStatus(Confirmed) == Some(Packing)
    ensures NextStatus(Packing) == Some(Ready)
    ensures NextStatus(Ready).None?
  {
  }

  /** The dashboard's "packing" step is not one of the order model's
      statuses. */
  lemma PackingOutsideOrderModel()
    ensures Packing !in OrderStatuses
    ensures NextStatus(Confirmed) == Some(Packing)
  {
    assert forall i :: 0 <= i < |OrderStatuses| ==> OrderStatuses[i][0] != 'p' || OrderStatuses[i][1] != 'a';
  }

  predicate IsActive(o: Order, storeId: string) {
    o.storeId == storeId && o.status != Delivered && o.status != Cancelled
  }

  /** `loadOrders()`: the store's orders neither delivered nor cancelled. */
  function ActiveOrders(orders: seq<Order>, storeId: string): (r: seq<Order>)
    ensures forall i :: 0 <= i < |r| ==> r[i] in orders && IsActive(r[i], storeId)
    ensures forall i :: 0 <= i < |orders| && IsActive(orders[i], storeId) ==> orders[i] in r
  {
    Filter(orders, (o: Order) => IsActive(o, storeId))
  }

  predicate IsSale(o: Order, storeId: string) {
    o.storeId == storeId && o.status == Delivered
  }

  function Amount(o: Order): real {
    o.totalAmount
  }

  /** `updateStats()`: the total of the store's delivered orders. */
  function SalesTotal(orders: seq<Order>, storeId: string): (total: real)
    ensures (forall i :: 0 <= i < |orders| ==> !IsSale(orders[i], storeId)) ==> total == 0.0
  {
    var sales := Filter(orders, (o: Order) => IsSale(o, storeId));
    assert (forall i :: 0 <= i < |orders| ==> !IsSale(orders[i], storeId)) ==> sales == [] by {
      if sales != [] {
        assert sales[0] in orders && IsSale(sales[0], storeId);
      }
    }
    Sum(sales, Amount)
  }

  /** Sales add up over any split of the order table. */
  lemma SalesTotalConcat(a: seq<Order>, b: seq<Order>, storeId: string)
    ensures SalesTotal(a + b, storeId) == SalesTotal(a, storeId) + SalesTotal(b, storeId)
  {
    var keep := (o: Order) => IsSale(o, storeId);
    FilterConcat(a, b, keep);
    SumConcat(Filter(a, keep), Filter(b, keep), Amount);
  }

  /** One order adds its amount exactly when it is a delivered order of
      the store. */
  lemma SalesTotalOfOne(order: Order, storeId: string)
    ensures SalesTotal([order], storeId) == if IsSale(order, storeId) then order.totalAmount else 0.0
  {
    var keep := (o: Order) => IsSale(o, storeId);
    var one := [order];
    assert one[1..] == [];
    var sales := Filter(one, keep);
    assert sales == if IsSale(order, storeId) then one else [];
    assert Sum(one, Amount) == order.totalAmount + Sum(one[1..], Amount);
  }

  /** The figure as `reduce((sum, o) => sum + Number(o.total_amount), 0)`
      builds it over the delivered orders of the store: left to right, one
      order at a time. */
  function DeliveredSum(orders: seq<Order>, storeId: string): real {
    if orders == [] then 0.0
    else
      var last := orders[|orders| - 1];
      DeliveredSum(orders[..|orders| - 1], storeId) + (if IsSale(last, storeId) then last.totalAmount else 0.0)
  }

  /** The sales figure is the sum of `total_amount` over exactly the
      store's delivered orders. */
  lemma {:induction false} SalesTotalIsDeliveredSum(orders: seq<Order>, storeId: string)
    ensures SalesTotal(orders, storeId) == DeliveredSum(orders, storeId)
  {
    if orders != [] {
      var init := orders[..|orders| - 1];
      var last := orders[|orders| - 1];
      assert orders == init + [last];
      SalesTotalConcat(init, [last], storeId);
      SalesTotalOfOne(last, storeId);
      SalesTotalIsDeliveredSum(init, storeId);
    }
  }

  /** `updateStatus(orderId, nextStatus)`: that order's status changes,
      nothing else does. */
  function UpdateStatus(orders: seq<Order>, orderId: nat, next: string, writeError: Option<string>): (r: seq<Order>)
    ensures |r| == |orders|
    ensures writeError.Some? ==> r == orders
    ensures writeError.None? ==>
              forall i :: 0 <= i < |orders| ==>
                r[i] == if orders[i].id == orderId then orders[i].(status := next) else orders[i]
  {
    if writeError.Some? then orders
    else seq(|orders|, i requires 0 <= i < |orders| =>
           if orders[i].id == orderId then orders[i].(status := next) else orders[i])
  }

  /** A button press never changes the sales figure: the order it moves
      was not delivered, and it does not deliver it. Order ids are keys, so
      every row with that id is the order whose button was pressed. */
  lemma ButtonKeepsSales(orders: seq<Order>, storeId: string, o: Order, writeError: Option<string>)
    requires NextStatus(o.status).Some?
    requires forall i :: 0 <= i < |orders| && orders[i].id == o.id ==> orders[i].status == o.status
    ensures SalesTotal(UpdateStatus(orders, o.id, NextStatus(o.status).value, writeError), storeId)
            == SalesTotal(orders, storeId)
  {
    UpdateKeepsSales(orders, storeId, o.id, NextStatus(o.status).value, writeError);
  }

  lemma {:induction false} UpdateKeepsSales(orders: seq<Order>, storeId: string, orderId: nat, next: string,
                                            writeError: Option<string>)
    requires next != Delivered
    requires forall i :: 0 <= i < |orders| && orders[i].id == orderId ==> orders[i].status != Delivered
    ensures SalesTotal(UpdateStatus(orders, orderId, next, writeError), storeId) == SalesTotal(orders, storeId)
    decreases |orders|
  {
    if orders != [] && writeError.None? {
      var r := UpdateStatus(orders, orderId, next, writeError);
      var rest := orders[1..];
      UpdateKeepsSales(rest, storeId, orderId, next, writeError);
      UpdateStatusCons(orders, orderId, next);
      assert orders == [orders[0]] + rest;
      SalesTotalConcat([r[0]], UpdateStatus(rest, orderId, next, writeError), storeId);
      SalesTotalConcat([orders[0]], rest, storeId);
      SingleSale(r[0], orders[0], storeId);
    }
  }

  lemma UpdateStatusCons(orders: seq<Order>, orderId: nat, next: string)
    requires orders != []
    ensures UpdateStatus(orders, orderId, next, None)
            == [UpdateStatus(orders, orderId, next, None)[0]] + UpdateStatus(orders[1..], orderId, next, None)
  {
  }

  /** One order counts the same as another that is a sale exactly when it
      is, for the same amount. */
  lemma SingleSale(a: Order, b: Order, storeId: string)
    requires IsSale(a, storeId) == IsSale(b, storeId)
    requires IsSale(a, storeId) ==> a.totalAmount == b.totalAmount
    ensures SalesTotal([a], storeId) == SalesTotal([b], storeId)
  {
  }

  // ---------------------------------------------------------------------
  // Adding a product

  /** The add-product form; price and stock are `Number(...)` of the inputs. */
  datatype ProductForm = ProductForm(name: string, description: string, price: real, stock: real, imageUrl: string)

  datatype ProductRecord = ProductRecord(name: string, description: string, price: real, stockQuantity: real,
                                         imageUrl: string, storeId: string, isActive: bool)

  const PlaceholderImage := "https://via.placeholder.com/150?text=Product"
  const MissingStore := "Missing store information. Please complete store registration."
  const ProductAdded := "Product added successfully!"

  datatype SubmitOutcome = SubmitOutcome(products: seq<ProductRecord>, message: string)

  /** `handleProductSubmit`: without a loaded store nothing is inserted;
      otherwise an active product of that store is appended, with the
      placeholder image when none was given. */
  function SubmitProduct(products: seq<ProductRecord>, storeId: Option<string>, f: ProductForm,
                         insertError: Option<string>): (r: SubmitOutcome)
    ensures storeId.None? ==> r == SubmitOutcome(products, MissingStore)
    ensures storeId.Some? && insertError.Some? ==> r == SubmitOutcome(products, "Error saving product: " + insertError.value)
    ensures storeId.Some? && insertError.None? ==>
              && |r.products| == |products| + 1 && r.products[..|products|] == products
              && var p := r.products[|products|];
                 && p.storeId == storeId.value && p.isActive
                 && p.name == f.name && p.description == f.description
                 && p.price == f.price && p.stockQuantity == f.stock
                 && p.imageUrl != ""
                 && (f.imageUrl != "" ==> p.imageUrl == f.imageUrl)
                 && (f.imageUrl == "" ==> p.imageUrl == PlaceholderImage)
    ensures storeId.Some? && insertError.None? ==> r.message == ProductAdded
  {
    if storeId.None? then SubmitOutcome(products, MissingStore)
    else if insertError.Some? then SubmitOutcome(products, "Error saving product: " + insertError.value)
    else
      var image := if f.imageUrl != "" then f.imageUrl else PlaceholderImage;
      var p := ProductRecord(f.name, f.description, f.price, f.stock, image, storeId.value, true);
      SubmitOutcome(products + [p], ProductAdded)
  }

  /** `loadProducts()`: the products of the store, in table order. */
  function StoreProducts(products: seq<ProductRecord>, storeId: string): (r: seq<ProductRecord>)
    ensures forall i :: 0 <= i < |r| ==> r[i] in products && r[i].storeId == storeId
    ensures forall i :: 0 <= i < |products| && products[i].storeId == storeId ==> products[i] in r
  {
    Filter(products, (p: ProductRecord) => p.storeId == storeId)
  }

  /** After a successful submit the store's list, as `loadProducts` reloads
      it, gains exactly the new product at its end, and every other store's
      list is unchanged. */
  lemma SubmittedProductListed(products: seq<ProductRecord>, storeId: string, f: ProductForm, other: string)
    requires other != storeId
    ensures var r := SubmitProduct(products, Some(storeId), f, None).products;
            && StoreProducts(r, storeId) == StoreProducts(products, storeId) + [r[|products|]]
            && StoreProducts(r, other) == StoreProducts(products, other)
  {
    var r := SubmitProduct(products, Some(storeId), f, None).products;
    var p := r[|products|];
    assert r == products + [p];
    FilterConcat(products, [p], (q: ProductRecord) => q.storeId == storeId);
    FilterConcat(products, [p], (q: ProductRecord) => q.storeId == other);
    assert Filter([p], (q: ProductRecord) => q.storeId == storeId) == [p];
    assert Filter([p], (q: ProductRecord) => q.storeId == other) == [];
  }
}
