/** The cart operations of frontend/js/app.js (`addToCart`,
    `updateCartItemQuantity`, `removeFromCart`, `clearCart`) over the
    `cart_items` table, modelled as a sequence of rows. A backend write that
    fails is passed in as its error message. */
module Cart {
  import opened Common

  /** A row of `cart_items`. `variations` is the `JSON.stringify` of the
      selected variation choices, so two selections are the same exactly
      when their serialisations are. */
  datatype CartLine = CartLine(id: nat, userId: string, productId: string, quantity: int, variations: string)

  type CartTable = seq<CartLine>

  /** What makes two rows "the same item": user, product and selection. */
  datatype Key = Key(userId: string, productId: string, variations: string)

  function KeyOf(l: CartLine): Key {
    Key(l.userId, l.productId, l.variations)
  }

  predicate KeysUnique(cart: CartTable) {
    forall i, j :: 0 <= i < j < |cart| ==> KeyOf(cart[i]) != KeyOf(cart[j])
  }

  predicate IdsUnique(cart: CartTable) {
    forall i, j :: 0 <= i < j < |cart| ==> cart[i].id != cart[j].id
  }

  /** The invariant the cart operations keep: one row per key, one row per id. */
  predicate WellFormed(cart: CartTable) {
    KeysUnique(cart) && IdsUnique(cart)
  }

  datatype Outcome = Success | Failure(error: string)

  /** The table after an operation and the `{success, error}` it returns. */
  datatype CartUpdate = CartUpdate(cart: CartTable, outcome: Outcome)

  const NotLoggedIn := "User not logged in"

  /** The number of rows with key `k`. */
  function CountKey(cart: CartTable, k: Key): (n: nat)
    ensures n <= |cart|
    ensures n == 0 <==> forall i :: 0 <= i < |cart| ==> KeyOf(cart[i]) != k
  {
    if cart == [] then 0
    else (if KeyOf(cart[0]) == k then 1 else 0) + CountKey(cart[1..], k)
  }

  /** The first row with key `k`. */
  function FindKey(cart: CartTable, k: Key): (i: nat)
    requires CountKey(cart, k) > 0
    ensures i < |cart| && KeyOf(cart[i]) == k
    ensures forall j :: 0 <= j < i ==> KeyOf(cart[j]) != k
  {
    if KeyOf(cart[0]) == k then 0 else 1 + FindKey(cart[1..], k)
  }

  lemma UniqueKeyCountsOnce(cart: CartTable, i: int)
    requires KeysUnique(cart)
    requires 0 <= i < |cart|
    ensures CountKey(cart, KeyOf(cart[i])) == 1
  {
    if i > 0 {
      UniqueKeyCountsOnce(cart[1..], i - 1);
    } else {
      assert CountKey(cart[1..], KeyOf(cart[0])) == 0;
    }
  }

  /** The id the database assigns to an inserted row: one no row has. */
  function FreshId(cart: CartTable): (id: nat)
    ensures forall i :: 0 <= i < |cart| ==> cart[i].id != id
  {
    MaxKey(cart, (l: CartLine) => l.id) + 1
  }

  /** `addToCart(productId, quantity, selectedVariations)` for the logged-in
      user `user`. The lookup is `maybeSingle()`: exactly one matching row
      is updated; with none (or, in a table that broke the invariant, with
      several, when `maybeSingle` yields no data) a new row is inserted. */
  function AddToCart(cart: CartTable, user: Option<string>, productId: string, quantity: int,
                     variations: string, writeError: Option<string>): (r: CartUpdate)
    ensures user.None? ==> r == CartUpdate(cart, Failure(NotLoggedIn))
    ensures r.outcome.Failure? ==> r.cart == cart
    ensures user.Some? && writeError.None? ==> r.outcome == Success
    ensures user.Some? && writeError.None? && KeysUnique(cart) ==>
              forall i :: 0 <= i < |cart| && KeyOf(cart[i]) == Key(user.value, productId, variations) ==>
                && |r.cart| == |cart|
                && r.cart[i] == cart[i].(quantity := cart[i].quantity + quantity)
                && forall j :: 0 <= j < |cart| && j != i ==> r.cart[j] == cart[j]
    ensures user.Some? && writeError.None? && CountKey(cart, Key(user.value, productId, variations)) == 0 ==>
              r.cart == cart + [CartLine(FreshId(cart), user.value, productId, quantity, variations)]
  {
    if user.None? then CartUpdate(cart, Failure(NotLoggedIn))
    else if writeError.Some? then CartUpdate(cart, Failure(writeError.value))
    else
      var k := Key(user.value, productId, variations);
      if CountKey(cart, k) == 1 then
        var i := FindKey(cart, k);
        assert KeysUnique(cart) ==> forall j :: 0 <= j < |cart| && KeyOf(cart[j]) == k ==> j == i;
        CartUpdate(cart[i := cart[i].(quantity := cart[i].quantity + quantity)], Success)
      else
        assert KeysUnique(cart) ==> forall j :: 0 <= j < |cart| ==> KeyOf(cart[j]) != k by {
          if KeysUnique(cart) {
            forall j | 0 <= j < |cart| ensures KeyOf(cart[j]) != k {
              if KeyOf(cart[j]) == k {
                UniqueKeyCountsOnce(cart, j);
              }
            }
          }
        }
        CartUpdate(cart + [CartLine(FreshId(cart), user.value, productId, quantity, variations)], Success)
  }

  /** Adding keeps one row per key and one row per id. */
  lemma AddToCartKeepsWellFormed(cart: CartTable, user: Option<string>, productId: string, quantity: int,
                                 variations: string, writeError: Option<string>)
    requires WellFormed(cart)
    ensures WellFormed(AddToCart(cart, user, productId, quantity, variations, writeError).cart)
  {
    var r := AddToCart(cart, user, productId, quantity, variations, writeError);
    if user.Some? && writeError.None? {
      var k := Key(user.value, productId, variations);
      if CountKey(cart, k) != 1 {
        var n := CartLine(FreshId(cart), user.value, productId, quantity, variations);
        assert r.cart == cart + [n];
        assert forall i :: 0 <= i < |cart| ==> KeyOf(cart[i]) != k;
      }
    }
  }

  /** Adding the same product with the same selection twice leaves one row
      holding both quantities; a different selection would have made a
      second row. */
  lemma AddTwiceAccumulates(cart: CartTable, user: string, productId: string, q1: int, q2: int, variations: string)
    requires WellFormed(cart)
    requires CountKey(cart, Key(user, productId, variations)) == 0
    ensures var once := AddToCart(cart, Some(user), productId, q1, variations, None).cart;
            var twice := AddToCart(once, Some(user), productId, q2, variations, None).cart;
            |twice| == |cart| + 1
            && twice[|cart|] == CartLine(FreshId(cart), user, productId, q1 + q2, variations)
            && twice[..|cart|] == cart
  {
    var k := Key(user, productId, variations);
    var once := AddToCart(cart, Some(user), productId, q1, variations, None).cart;
    assert once == cart + [CartLine(FreshId(cart), user, productId, q1, variations)];
    AddToCartKeepsWellFormed(cart, Some(user), productId, q1, variations, None);
    assert KeyOf(once[|cart|]) == k;
  }

  /** `removeFromCart(cartItemId)`: deletes the row with that id. */
  function RemoveFromCart(cart: CartTable, lineId: nat, writeError: Option<string>): (r: CartUpdate)
    ensures writeError.Some? ==> r == CartUpdate(cart, Failure(writeError.value))
    ensures writeError.None? ==> r.outcome == Success
    ensures forall i :: 0 <= i < |r.cart| ==> r.cart[i] in cart
    ensures writeError.None? ==> forall i :: 0 <= i < |r.cart| ==> r.cart[i].id != lineId
    ensures forall i :: 0 <= i < |cart| && cart[i].id != lineId ==> cart[i] in r.cart
  {
    if writeError.Some? then CartUpdate(cart, Failure(writeError.value))
    else CartUpdate(Filter(cart, (l: CartLine) => l.id != lineId), Success)
  }

  /** `updateCartItemQuantity(cartItemId, newQuantity)`: below 1 the row is
      removed; otherwise exactly that row gets the new quantity. */
  function UpdateCartItemQuantity(cart: CartTable, lineId: nat, newQuantity: int, writeError: Option<string>): (r: CartUpdate)
    ensures r.outcome.Failure? ==> r.cart == cart
    ensures newQuantity < 1 ==> r == RemoveFromCart(cart, lineId, writeError)
    ensures newQuantity >= 1 && writeError.None? ==>
              && |r.cart| == |cart|
              && forall i :: 0 <= i < |cart| ==>
                   r.cart[i] == if cart[i].id == lineId then cart[i].(quantity := newQuantity) else cart[i]
  {
    if newQuantity < 1 then RemoveFromCart(cart, lineId, writeError)
    else if writeError.Some? then CartUpdate(cart, Failure(writeError.value))
    else
      var updated := seq(|cart|, i requires 0 <= i < |cart| =>
                           if cart[i].id == lineId then cart[i].(quantity := newQuantity) else cart[i]);
      CartUpdate(updated, Success)
  }

  /** Setting a quantity keeps one row per key and one row per id, and the
      row keeps its key. */
  lemma UpdateKeepsWellFormed(cart: CartTable, lineId: nat, newQuantity: int, writeError: Option<string>)
    requires WellFormed(cart)
    ensures WellFormed(UpdateCartItemQuantity(cart, lineId, newQuantity, writeError).cart)
  {
    var r := UpdateCartItemQuantity(cart, lineId, newQuantity, writeError);
    if newQuantity < 1 && writeError.None? {
      FilterKeepsWellFormed(cart, (l: CartLine) => l.id != lineId);
    }
  }

  /** Any filter of a well-formed table is well formed. */
  lemma FilterKeepsWellFormed(cart: CartTable, keep: CartLine -> bool)
    requires WellFormed(cart)
    ensures WellFormed(Filter(cart, keep))
  {
    FilterKeepsKeysUnique(cart, keep);
    FilterKeepsIdsUnique(cart, keep);
  }

  /** Putting a row in front of rows it shares no key with keeps keys unique. */
  lemma ConsKeysUnique(x: CartLine, rest: CartTable)
    requires KeysUnique(rest)
    requires forall j :: 0 <= j < |rest| ==> KeyOf(x) != KeyOf(rest[j])
    ensures KeysUnique([x] + rest)
  {
    var c := [x] + rest;
    forall i, j | 0 <= i < j < |c| ensures KeyOf(c[i]) != KeyOf(c[j]) {
      assert c[j] == rest[j - 1];
      if i > 0 { assert c[i] == rest[i - 1]; }
    }
  }

  /** Putting a row in front of rows it shares no id with keeps ids unique. */
  lemma ConsIdsUnique(x: CartLine, rest: CartTable)
    requires IdsUnique(rest)
    requires forall j :: 0 <= j < |rest| ==> x.id != rest[j].id
    ensures IdsUnique([x] + rest)
  {
    var c := [x] + rest;
    forall i, j | 0 <= i < j < |c| ensures c[i].id != c[j].id {
      assert c[j] == rest[j - 1];
      if i > 0 { assert c[i] == rest[i - 1]; }
    }
  }

  lemma {:induction false} FilterKeepsKeysUnique(cart: CartTable, keep: CartLine -> bool)
    requires KeysUnique(cart)
    ensures KeysUnique(Filter(cart, keep))
  {
    if cart != [] {
      var tail := cart[1..];
      var rest := Filter(tail, keep);
      assert KeysUnique(tail) by { assert forall i :: 0 <= i < |tail| ==> tail[i] == cart[i + 1]; }
      FilterKeepsKeysUnique(tail, keep);
      if keep(cart[0]) {
        forall j | 0 <= j < |rest| ensures KeyOf(cart[0]) != KeyOf(rest[j]) {
          assert rest[j] in tail;
          var k :| 0 <= k < |tail| && tail[k] == rest[j];
          assert cart[k + 1] == rest[j];
        }
        assert Filter(cart, keep) == [cart[0]] + rest;
        ConsKeysUnique(cart[0], rest);
      } else {
        assert Filter(cart, keep) == rest;
      }
    }
  }

  lemma {:induction false} FilterKeepsIdsUnique(cart: CartTable, keep: CartLine -> bool)
    requires IdsUnique(cart)
    ensures IdsUnique(Filter(cart, keep))
  {
    if cart != [] {
      var tail := cart[1..];
      var rest := Filter(tail, keep);
      assert IdsUnique(tail) by { assert forall i :: 0 <= i < |tail| ==> tail[i] == cart[i + 1]; }
      FilterKeepsIdsUnique(tail, keep);
      if keep(cart[0]) {
        forall j | 0 <= j < |rest| ensures cart[0].id != rest[j].id {
          assert rest[j] in tail;
          var k :| 0 <= k < |tail| && tail[k] == rest[j];
          assert cart[k + 1] == rest[j];
        }
        assert Filter(cart, keep) == [cart[0]] + rest;
        ConsIdsUnique(cart[0], rest);
      } else {
        assert Filter(cart, keep) == rest;
      }
    }
  }

  /** `clearCart()`: deletes every row of the current user, whichever store
      its product belongs to, and only that user's rows. */
  function ClearCart(cart: CartTable, user: Option<string>, writeError: Option<string>): (r: CartUpdate)
    ensures user.None? ==> r == CartUpdate(cart, Failure(NotLoggedIn))
    ensures r.outcome.Failure? ==> r.cart == cart
    ensures user.Some? && writeError.None? ==>
              && r.outcome == Success
              && (forall i :: 0 <= i < |r.cart| ==> r.cart[i].userId != user.value && r.cart[i] in cart)
              && (forall i :: 0 <= i < |cart| && cart[i].userId != user.value ==> cart[i] in r.cart)
  {
    if user.None? then CartUpdate(cart, Failure(NotLoggedIn))
    else if writeError.Some? then CartUpdate(cart, Failure(writeError.value))
    else CartUpdate(Filter(cart, (l: CartLine) => l.userId != user.value), Success)
  }
}
