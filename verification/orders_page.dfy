/** The order history of frontend/js/orders.js: the orders of the user
    (`getUserOrders` in frontend/js/app.js), the status filter buttons, the
    status badge text, and the amounts of the order dialog. */
module OrdersPage {
  import opened Common
  import opened Text
  import opened Orders

  /** `getUserOrders()`: the orders whose customer is the user. */
  function UserOrders(orders: seq<Order>, user: string): (r: seq<Order>)
    ensures forall i :: 0 <= i < |r| ==> r[i] in orders && r[i].customerId == user
    ensures forall i :: 0 <= i < |orders| && orders[i].customerId == user ==> orders[i] in r
  {
    Filter(orders, (o: Order) => o.customerId == user)
  }

  datatype HistoryView = HistoryGoToLogin | HistoryError(message: string) | History(orders: seq<Order>)

  /** `loadOrders()`: without a user the page goes to the login page and
      reads nothing; otherwise it lists the user's orders, or the read's
      error. */
  function LoadOrders(orders: seq<Order>, user: Option<string>, readError: Option<string>): (v: HistoryView)
    ensures user.None? <==> v == HistoryGoToLogin
    ensures user.Some? && readError.Some? ==> v == HistoryError("Error loading orders: " + readError.value)
    ensures user.Some? && readError.None? ==>
              && v.History?
              && (forall i :: 0 <= i < |v.orders| ==> v.orders[i] in orders && v.orders[i].customerId == user.value)
              && (forall i :: 0 <= i < |orders| && orders[i].customerId == user.value ==> orders[i] in v.orders)
  {
    if user.None? then HistoryGoToLogin
    else if readError.Some? then HistoryError("Error loading orders: " + readError.value)
    else History(UserOrders(orders, user.value))
  }

  const AllFilter := "all"

  predicate Shown(o: Order, filter: string) {
    filter == AllFilter || o.status == filter
  }

  /** `displayOrders()` with `currentFilter`: everything for "all",
      otherwise the orders of that status. */
  function FilterOrders(orders: seq<Order>, filter: string): (r: seq<Order>)
    ensures forall i :: 0 <= i < |r| ==> r[i] in orders && Shown(r[i], filter)
    ensures forall i :: 0 <= i < |orders| && Shown(orders[i], filter) ==> orders[i] in r
  {
    Filter(orders, (o: Order) => Shown(o, filter))
  }

  /** The "all" button shows every order, in order. */
  lemma AllShowsEverything(orders: seq<Order>)
    ensures FilterOrders(orders, AllFilter) == orders
  {
    FilterKeepsAll(orders, (o: Order) => Shown(o, AllFilter));
  }

  /** Two different status buttons never show the same order. */
  lemma StatusFiltersDisjoint(orders: seq<Order>, a: string, b: string, o: Order)
    requires a != AllFilter && b != AllFilter && a != b
    ensures !(o in FilterOrders(orders, a) && o in FilterOrders(orders, b))
  {
  }

  // ---------------------------------------------------------------------
  // Status badge

  /** The badge as written: `status.replace('_', ' ').toUpperCase()`, where
      `replace` with a string pattern replaces the first underscore only. */
  function StatusLabelAsWritten(status: string): (shown: string)
    ensures |shown| == |status|
    ensures '_' !in status ==> shown == Upper(status)
    ensures forall k :: 0 <= k < |status| && status[k] == '_' && '_' !in status[..k] ==>
              shown == Upper(status[..k] + " " + status[k + 1..])
  {
    var replaced := ReplaceFirst(status, '_', ' ');
    assert '_' !in status ==> replaced == status by {
      if '_' !in status {
        ReplaceFirstAbsent(status, '_', ' ');
      }
    }
    forall k | 0 <= k < |status| && status[k] == '_' && '_' !in status[..k]
      ensures replaced == status[..k] + " " + status[k + 1..]
    {
      ReplaceFirstAt(status, '_', ' ', k);
    }
    Upper(replaced)
  }

  /** The badge with every underscore shown as a space. */
  function StatusLabel(status: string): (shown: string)
    ensures |shown| == |status|
    ensures '_' !in status ==> shown == Upper(status)
    ensures forall i :: 0 <= i < |status| ==> shown[i] == if status[i] == '_' then ' ' else UpperChar(status[i])
    ensures '_' !in shown
  {
    Upper(ReplaceAll(status, '_', ' '))
  }

  /** "out_for_delivery" keeps its second underscore as written. */
  lemma OutForDeliveryAsWritten()
    ensures StatusLabelAsWritten("out_for_delivery")[7] == '_'
    ensures StatusLabel("out_for_delivery")[7] == ' '
  {
    var s := "out_for_delivery";
    assert s[3] == '_' && s[7] == '_';
    assert '_' !in s[..3] by {
      assert forall i :: 0 <= i < 3 ==> s[..3][i] == s[i];
    }
    ReplaceFirstAt(s, '_', ' ', 3);
    assert ReplaceFirst(s, '_', ' ')[7] == s[7];
  }

  /** The two agree on every status with at most one underscore, which
      covers all the order model's statuses but "out_for_delivery". */
  lemma LabelsAgreeOnOneUnderscore(status: string, k: int)
    requires 0 <= k < |status| && status[k] == '_'
    requires forall i :: 0 <= i < |status| && i != k ==> status[i] != '_'
    ensures StatusLabelAsWritten(status) == StatusLabel(status)
  {
    assert '_' !in status[..k] by {
      assert forall i :: 0 <= i < k ==> status[..k][i] == status[i];
    }
    ReplaceFirstAt(status, '_', ' ', k);
    var r := ReplaceFirst(status, '_', ' ');
    assert forall i :: 0 <= i < |status| ==> r[i] == if status[i] == '_' then ' ' else status[i] by {
      forall i | 0 <= i < |status| ensures r[i] == if status[i] == '_' then ' ' else status[i] {
        if i < k {
          assert r[i] == status[..k][i];
        } else if i > k {
          assert r[i] == status[k + 1..][i - k - 1];
        }
      }
    }
  }

  // ---------------------------------------------------------------------
  // Amounts

  /** `(x || 0)`: an absent amount shows as 0. */
  function AmountOrZero(x: Option<real>): (shown: real)
    ensures x.None? ==> shown == 0.0
    ensures x.Some? ==> shown == x.value
  {
    if x.Some? then x.value else 0.0
  }

  /** The dialog's amounts of an order `createOrder` placed: the item lines
      add up to the subtotal, and subtotal, tax and delivery fee add up to
      the total. */
  lemma PlacedOrderAmountsAddUp(db: Backend, user: Option<string>, storeId: string, address: Address,
                                paymentMethod: string, instructions: Option<string>, now: nat, faults: Faults)
    requires CreateOrder(db, user, storeId, address, paymentMethod, instructions, now, faults).result.Placed?
    ensures var o := CreateOrder(db, user, storeId, address, paymentMethod, instructions, now, faults).result.order;
            && Sum(o.items, LineTotal) == AmountOrZero(Some(o.subtotal))
            && AmountOrZero(Some(o.totalAmount))
               == AmountOrZero(Some(o.subtotal)) + AmountOrZero(Some(o.tax)) + AmountOrZero(Some(o.deliveryFee))
  {
  }

  /** The order appears in the user's history under "all" and under its
      own status ("pending"). */
  lemma PlacedOrderListed(db: Backend, user: string, storeId: string, address: Address,
                          paymentMethod: string, instructions: Option<string>, now: nat, faults: Faults)
    requires CreateOrder(db, Some(user), storeId, address, paymentMethod, instructions, now, faults).result.Placed?
    ensures var p := CreateOrder(db, Some(user), storeId, address, paymentMethod, instructions, now, faults);
            var history := UserOrders(p.db.orders, user);
            && p.result.order in FilterOrders(history, AllFilter)
            && p.result.order in FilterOrders(history, Pending)
  {
    var p := CreateOrder(db, Some(user), storeId, address, paymentMethod, instructions, now, faults);
    var o := p.result.order;
    assert p.db.orders[|db.orders|] == o;
    var history := UserOrders(p.db.orders, user);
    var k :| 0 <= k < |history| && history[k] == o;
    AllShowsEverything(history);
  }
}
