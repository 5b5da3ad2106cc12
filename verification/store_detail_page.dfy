/** The product page of frontend/js/store-detail.js: the stock line of a
    product, the quantity stepper of the product dialog, the product search,
    and `addProductToCart`, which hands the stepper's value to the cart. */
module StoreDetailPage {
  import opened Common
  import opened Text
  import Cart

  /** A product as the page reads it. */
  datatype ShopProduct = ShopProduct(id: string, name: string, description: string, stock: int)

  const InStock := " in stock"
  const OutOfStock := "Out of stock"

  /** `stock > 0 ? `${stock} in stock` : 'Out of stock'`. */
  function StockLabel(stock: int): (shown: string)
    ensures stock > 0 ==> shown == IntToString(stock) + InStock
    ensures EndsWith(shown, InStock) <==> stock > 0
    ensures shown == OutOfStock <==> stock <= 0
  {
    var counted := IntToString(stock) + InStock;
    assert counted[|counted| - |InStock|..] == InStock;
    assert counted != OutOfStock by {
      if |counted| == |OutOfStock| {
        assert counted[|counted| - |InStock|..][1] == counted[|counted| - 8];
        assert OutOfStock[|OutOfStock| - 8] == 'o';
      }
    }
    assert !EndsWith(OutOfStock, InStock) by {
      assert OutOfStock[|OutOfStock| - |InStock|..][1] == 'o';
    }
    if stock > 0 then counted else OutOfStock
  }

  /** The number of a non-empty stock line reads back as the stock. */
  lemma StockLabelShowsStock(stock: nat)
    requires stock > 0
    ensures var shown := StockLabel(stock);
            |NatToString(stock)| <= |shown| && ParseDigits(shown[..|NatToString(stock)|]) == stock
  {
    var n := NatToString(stock);
    assert (n + InStock)[..|n|] == n;
    NatToStringRoundTrip(stock);
  }

  // ---------------------------------------------------------------------
  // Quantity stepper

  /** The dialog's quantity input: its value and its `max` attribute. */
  datatype Stepper = Stepper(value: int, max: int)

  /** `openProductModal`: the value starts at 1 and the maximum is the stock. */
  function Open(p: ShopProduct): (s: Stepper)
    ensures s.value == 1 && s.max == p.stock && InRange(s)
  {
    Stepper(1, p.stock)
  }

  /** The value stays at least 1, and at most the maximum unless it is the
      starting 1 (a product out of stock still shows 1). */
  predicate InRange(s: Stepper) {
    1 <= s.value && (s.value <= s.max || s.value == 1)
  }

  /** `increaseQuantity()`: one more while below the maximum. */
  function Increase(s: Stepper): (r: Stepper)
    ensures r.max == s.max
    ensures s.value < s.max ==> r.value == s.value + 1
    ensures s.value >= s.max ==> r == s
  {
    if s.value < s.max then s.(value := s.value + 1) else s
  }

  /** `decreaseQuantity()`: one fewer while above 1. */
  function Decrease(s: Stepper): (r: Stepper)
    ensures r.max == s.max
    ensures s.value > 1 ==> r.value == s.value - 1
    ensures s.value <= 1 ==> r == s
  {
    if s.value > 1 then s.(value := s.value - 1) else s
  }

  /** Both buttons keep the value in range, and so does opening. */
  lemma ButtonsKeepInRange(s: Stepper, p: ShopProduct)
    requires InRange(s)
    ensures InRange(Increase(s)) && InRange(Decrease(s)) && InRange(Open(p))
  {
  }

  /** Decrease undoes Increase whenever Increase moved. */
  lemma DecreaseUndoesIncrease(s: Stepper)
    requires InRange(s) && s.value < s.max
    ensures Decrease(Increase(s)) == s
  {
  }

  /** Any run of presses (`true` for +, `false` for −) from an opened
      dialog leaves a quantity between 1 and the stock, or 1 when the
      product is out of stock. */
  method PressAll(p: ShopProduct, presses: seq<bool>) returns (quantity: int)
    ensures 1 <= quantity
    ensures p.stock >= 1 ==> quantity <= p.stock
    ensures p.stock < 1 ==> quantity == 1
  {
    var s := Open(p);
    var i := 0;
    while i < |presses|
      invariant 0 <= i <= |presses|
      invariant s.max == p.stock && InRange(s)
    {
      s := if presses[i] then Increase(s) else Decrease(s);
      i := i + 1;
    }
    quantity := s.value;
  }

  // ---------------------------------------------------------------------
  // Search

  /** `filterProducts()`: the trimmed, lower-cased term occurs in the
      lower-cased name or description. */
  predicate ProductMatches(p: ShopProduct, term: string) {
    Contains(Lower(p.name), term) || Contains(Lower(p.description), term)
  }

  function FilterProducts(products: seq<ShopProduct>, searchInput: string): (r: seq<ShopProduct>)
    ensures forall i :: 0 <= i < |r| ==> r[i] in products && ProductMatches(r[i], Lower(Trim(searchInput)))
    ensures forall i :: 0 <= i < |products| && ProductMatches(products[i], Lower(Trim(searchInput))) ==> products[i] in r
  {
    var term := Lower(Trim(searchInput));
    Filter(products, (p: ShopProduct) => ProductMatches(p, term))
  }

  /** A blank search box shows every product. */
  lemma BlankSearchKeepsAll(products: seq<ShopProduct>, searchInput: string)
    requires AllWhitespace(searchInput)
    ensures FilterProducts(products, searchInput) == products
  {
    var term := Lower(Trim(searchInput));
    assert searchInput + "" + "" == searchInput;
    TrimIgnoresPadding(searchInput, "", "");
    forall i | 0 <= i < |products| ensures ProductMatches(products[i], term) {
      ContainsEmpty(Lower(products[i].name));
    }
    FilterKeepsAll(products, (p: ShopProduct) => ProductMatches(p, term));
  }

  // ---------------------------------------------------------------------
  // Adding to the cart

  /** The variations `addToCart` records when called without any: `{}`. */
  const NoVariations := "{}"

  datatype AddView = GoToLogin | Added | ShowError(message: string)

  datatype AddOutcome = AddOutcome(cart: Cart.CartTable, view: AddView)

  /** `addProductToCart()` with the dialog's product and stepper: without a
      user the page goes to the login page and the cart is not touched;
      otherwise the product is added with the default variations. */
  function AddProductToCart(cart: Cart.CartTable, user: Option<string>, p: ShopProduct, s: Stepper,
                            writeError: Option<string>): (r: AddOutcome)
    ensures user.None? ==> r == AddOutcome(cart, GoToLogin)
    ensures user.Some? ==>
              r.cart == Cart.AddToCart(cart, user, p.id, s.value, NoVariations, writeError).cart
    ensures user.Some? ==> (r.view == Added <==> writeError.None?)
    ensures user.Some? && writeError.Some? ==> r == AddOutcome(cart, ShowError("Error adding to cart: " + writeError.value))
  {
    if user.None? then AddOutcome(cart, GoToLogin)
    else
      var u := Cart.AddToCart(cart, user, p.id, s.value, NoVariations, writeError);
      match u.outcome
      case Success => AddOutcome(u.cart, Added)
      case Failure(e) => AddOutcome(u.cart, ShowError("Error adding to cart: " + e))
  }

  /** Adding the same product from the dialog twice keeps one cart row
      holding both quantities. */
  lemma AddFromDialogTwice(cart: Cart.CartTable, user: string, p: ShopProduct, s1: Stepper, s2: Stepper)
    requires Cart.WellFormed(cart)
    requires Cart.CountKey(cart, Cart.Key(user, p.id, NoVariations)) == 0
    ensures var once := AddProductToCart(cart, Some(user), p, s1, None).cart;
            var twice := AddProductToCart(once, Some(user), p, s2, None).cart;
            |twice| == |cart| + 1
            && twice[|cart|] == Cart.CartLine(Cart.FreshId(cart), user, p.id, s1.value + s2.value, NoVariations)
  {
    Cart.AddTwiceAccumulates(cart, user, p.id, s1.value, s2.value, NoVariations);
  }
}
