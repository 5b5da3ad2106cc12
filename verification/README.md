# FastGet storefront: a verified model of its business rules

FastGet is a storefront for towns of the Volta region of Ghana. Customers browse stores and fill a cart. They order with a town-priced delivery fee and pay. Store owners manage their orders and products from a dashboard. Most of the code is page scripts and calls to a hosted database. This project pulls out the rules those scripts follow and models them as pure Dafny functions over immutable data:

- the two delivery-fee rules (town table and distance)
- the cart as a table of lines keyed by user, product and variations
- order assembly from the cart
- the validators and the ordered form checks of sign-up, profile and login
- the store-hours window
- the store and product listings, with the quantity stepper and order history
- the cart, checkout and seller-dashboard pages

The database is modelled as plain tables (`seq` and `map`). Every call that can fail gets a fault parameter: `None` means it succeeded, `Some(message)` means it failed with that message. The clock, random draws and `new Date(...)` parsing are also parameters. Money is `real`. A JavaScript `length` counts UTF-16 code units, and the model counts them too (`Text.JsLength`): a character above U+FFFF counts twice.

Modules follow the source files:

| module | file | what it holds |
|---|---|---|
| `Common` | common.dfy | `Option`, JavaScript string truthiness, order-preserving `Filter`, `Sum` |
| `Text` | text.dfy | `trim`, ASCII `toLowerCase`/`toUpperCase`, `includes`, `replace`, decimal numerals |
| `Helpers` | helpers.dfy | distance fee, store hours, OTP shape (backend/src/utils/helpers.js) |
| `Validators` | validators.dfy | phone, password and order-data checks (backend/src/utils/validators.js) |
| `Ages` | ages.dfy | the whole-years age both forms compute |
| `TownFees` | town_fees.dfy | `DELIVERY_FEE_MAPPING`, `calculateDeliveryFee`, `TOWNS` |
| `Cart` | cart.dfy | `addToCart`, `updateCartItemQuantity`, `removeFromCart`, `clearCart` |
| `Orders` | orders.dfy | `createOrder` |
| `Session` | session.dfy | the login role fallback, `getStoreInitials` |
| `LoginPage`, `SignupPage`, `ProfilePage` | login_page.dfy, signup_page.dfy, profile_page.dfy | the form pages |
| `StoresPage`, `StoreDetailPage`, `CartPage`, `CheckoutPage`, `OrdersPage`, `SellerDashboard` | *_page.dfy, seller_dashboard.dfy | the other pages |

Where the documented intent and the code differ, the model follows the code, with the exception listed under "## Left out" for `Orders.CreateOrder`:

- `createOrder` filters its cart query on `products.store_id`. That filter applies to the embedded product, not to the cart rows. So every line of the user comes back, and a line from another store embeds `null`. Reading its price then throws, and the order is refused. The model refuses such an order with the message of that `TypeError` (`Orders.CartQuery`, `Orders.ForeignLineRefused`). It does not scope the order to the store's lines.
- `createOrder` ignores the result of the final `clearCart`. A failed clear still reports success, and the cart is kept (`Orders.CreateOrder`).

## Model

| member | source | states |
|---|---|---|
| Helpers.DistanceFee | backend/src/utils/helpers.js:1-6 | Up to 1 km the fee is the base fee (default 5), whatever the rate; beyond 1 km it is base + (distance − 1) × rate; with both defaults, 3 + 2 × distance |
| Helpers.DistanceFeeContinuousAtOneKm | backend/src/utils/helpers.js:1-6 | The fee moves away from the 1 km fee by at most the rate times the extra distance, so there is no jump at 1 km |
| Helpers.DistanceFeeMonotone | backend/src/utils/helpers.js:1-6 | With a non-negative rate the fee never decreases with distance |
| Helpers.DaysMatchSchedule | backend/src/utils/helpers.js:34-36 | Weekday 0 is "sunday" and 6 is "saturday"; the seven names are exactly the schedule's day keys |
| Helpers.IsStoreOpen | backend/src/utils/helpers.js:33-53 | Open iff the day has hours and open ≤ now < close, counted in minutes of the day |
| Helpers.ClosedWithoutHours | backend/src/utils/helpers.js:40-43 | A missing day entry, or a missing open or close time, means closed |
| Helpers.ClosedWhenCloseNotAfterOpen | backend/src/utils/helpers.js:48-52 | A close time at or before the open time is never open |
| Helpers.OpenTimesFormInterval | backend/src/utils/helpers.js:48-52 | Any time between two open times of the same day is also open |
| Helpers.OtpLength | backend/src/utils/helpers.js:24-27 | The default length is 6; a negative length runs the loop zero times, so the code is empty |
| Helpers.GenerateOtp | backend/src/utils/helpers.js:24-31 | The code has exactly the requested length: 6 by default, and empty for a negative length; each character is a decimal digit drawn from its random draw |
| Validators.ValidPhone | backend/src/utils/validators.js:7-10 | An accepted phone has at least 10 characters, some of them digits |
| Validators.ValidPassword | backend/src/utils/validators.js:12-14 | `length` counts UTF-16 code units: an accepted password has at least 3 characters, and for text in the Basic Multilingual Plane it is accepted iff it has at least 6 |
| Validators.ThreeEmojiPasswordAccepted | backend/src/utils/validators.js:12-14 | Three characters above U+FFFF are six code units, so they pass the rule |
| Validators.PhoneIgnoresSeparators | backend/src/utils/validators.js:7-10 | Inserting a non-digit anywhere never changes whether a phone is accepted |
| Validators.PhoneOfDigitsOnly | backend/src/utils/validators.js:7-10 | A string of digits only is accepted iff it has exactly 10 |
| Validators.PasswordRuleIsLengthOnly | backend/src/utils/validators.js:12-14 | An accepted password stays accepted when extended; for text in the Basic Multilingual Plane its first 6 characters are accepted too |
| Validators.ValidateOrderData | backend/src/utils/validators.js:16-35 | One message per missing items, address or payment method; each present iff its field is missing; listed in that order (at most 3); valid iff there are none; no other message ever appears |
| Ages.Age | frontend/js/signup.js:47-52 | The year difference, or one less; exactly the year difference iff the birthday's month and day have been reached this year |
| Ages.AgeIsCompletedYears | frontend/js/signup.js:47-52 | The age is the number of birthdays reached: the age-th anniversary is on or before today, and the next one is after |
| Ages.AgeSign | frontend/js/signup.js:47-58 | The age is non-negative iff the birth date is on or before today |
| TownFees.TownFee | frontend/js/app.js:707-726 | Fee between 7 and 25; 7.00 for a missing or empty name or an unknown key; otherwise the table's value for the lower-cased, trimmed key |
| TownFees.FeeTableBounds | frontend/js/app.js:707-719 | Every fee in the table is between 7.00 and 25.00 |
| TownFees.TownKey | frontend/js/app.js:724 | The key is no longer than the name, starts and ends with a non-whitespace character, and holds no capital letter |
| TownFees.TownKeyIgnoresPadding | frontend/js/app.js:724 | The lookup key ignores whitespace around the name |
| TownFees.EmptyKeyUnknown | frontend/js/app.js:707-725 | The empty key is not a town, so an empty name costs the default |
| TownFees.LowerLettersAreKeys | frontend/js/app.js:724 | A name already in lower-case letters is its own key |
| TownFees.PrototypeKeysNotInTable | frontend/js/app.js:707-719 | "constructor" and "__proto__" are not keys of the table, so only inheritance can make them match |
| TownFees.TownFeeIgnoresCase | frontend/js/app.js:724 | Names that differ only in letter case cost the same |
| TownFees.TownFeeIgnoresPadding | frontend/js/app.js:724 | Whitespace around the name does not change the fee |
| TownFees.PickedTownCharges | frontend/js/app.js:913-925 | Every town the picker offers is a table key, and picking it charges that table value |
| TownFees.PickedTownAsWrittenAgrees | frontend/js/app.js:707-725 | For every town the picker offers, the lookup as written yields the same number as the own-key lookup |
| TownFees.TownFeeAsWritten | frontend/js/app.js:725 | The lookup on a plain object: a key every object inherits yields that inherited member, not a number |
| TownFees.TownFeeAsWrittenInheritedKey | frontend/js/app.js:724-725 | The town " Constructor " yields an inherited function rather than a fee |
| Cart.AddToCart | frontend/js/app.js:582-626 | No user gives the not-logged-in failure; a failure changes nothing. An existing line with the same user, product and variations grows by the quantity in place, and the others are untouched. Otherwise exactly one line with a fresh id is appended |
| Cart.AddToCartKeepsWellFormed | frontend/js/app.js:582-626 | Adding keeps one line per key and one line per id |
| Cart.AddTwiceAccumulates | frontend/js/app.js:596-601 | Adding the same product and variations twice gives one new line holding both quantities |
| Cart.RemoveFromCart | frontend/js/app.js:671-684 | Exactly the lines with that id disappear; every other line stays; a failed delete changes nothing |
| Cart.UpdateCartItemQuantity | frontend/js/app.js:629-644 | Below 1 it is a removal of the line; otherwise exactly the lines with that id get the new quantity and the others are unchanged |
| Cart.UpdateKeepsWellFormed | frontend/js/app.js:629-644 | Updating keeps one line per key and one line per id |
| Cart.FilterKeepsWellFormed | frontend/js/app.js:671-704 | Deleting any set of lines keeps keys and ids unique |
| Cart.FilterKeepsKeysUnique | frontend/js/app.js:671-704 | Deleting lines keeps one line per user, product and variations |
| Cart.FilterKeepsIdsUnique | frontend/js/app.js:671-704 | Deleting lines keeps line ids unique |
| Cart.FindKey | frontend/js/app.js:588-597 | The lookup of an existing line: the position of the first line with that user, product and variations |
| Cart.FreshId | frontend/js/app.js:608-617 | The id given to an inserted line is not already in the table |
| Cart.ClearCart | frontend/js/app.js:687-704 | Every line of the user is deleted and every line of other users kept; no user or a failed delete changes nothing |
| Orders.CreateOrder | frontend/js/app.js:731-813 | No user, a failed read, an empty cart, an unknown store, a line of another store or a failed insert: refused with exactly the message `Refusal` gives ("Cart is empty" for an empty cart, a backend error word for word), nothing changes. Placed iff all checks pass. The order snapshots every line with its product's name, price and discount (default 0); tax 0; fee is the city's town fee; total = subtotal + fee; status "pending"; fresh id; appended to the orders. The user's whole cart is cleared unless the clear fails |
| Orders.Refusal | frontend/js/app.js:733-764 | The guards in the source's order, each with its message: not logged in, then a failed cart read (its error), then an empty cart, then a failed store read (its error), an unknown store, a line that is not the store's product (the `TypeError`), a failed insert (its error); no refusal iff the order can be placed (a user, working reads and insert, a known store, a non-empty cart of that store's products) |
| Orders.NewOrder | frontend/js/app.js:762-800 | The inserted row: the user's lines snapshotted with catalogue name, price and discount; tax 0; fee of the delivery city; total = subtotal + fee; status "pending"; an id no existing order has |
| Orders.QueryEmbedsAllIffSold | frontend/js/app.js:738-764 | Some row of the query embeds `null` iff some cart line of the user is not a product of the store |
| Orders.UserLines | frontend/js/app.js:738-745 | Exactly the cart lines of the user, in table order |
| Orders.CartQuery | frontend/js/app.js:738-745 | One row per cart line of the user, in order; its product is embedded iff the product exists and belongs to the store |
| Orders.ItemsOf | frontend/js/app.js:762-771 | One snapshot item per row, holding that row's quantity and variations with its product's name, price and discount |
| Common.MaxKey | frontend/js/app.js:781-800 | Bounds every key in the table, so one more is an id no row has (used for new cart lines and new orders) |
| Orders.HohoeFee | frontend/js/app.js:707-726 | Any name whose key is "hohoe" costs 7.00 |
| Orders.SnapshotTotalIsCatalogTotal | frontend/js/app.js:762-774 | The item snapshot's subtotal equals Σ price × quantity over the lines at catalogue prices |
| Orders.PlacedSubtotalIsCartCost | frontend/js/app.js:762-789 | A placed order's subtotal is what the user's cart costs at the moment of ordering |
| Orders.ForeignLineRefused | frontend/js/app.js:738-764 | A cart holding a product of another store can never be ordered; the cart is kept; once both reads succeed and the store exists, the message is the `TypeError` of reading `price` of `null` |
| Orders.TwoLineExample | frontend/js/app.js:762-792 | 10.00 × 2 and 5.00 × 1 delivered to Hohoe give subtotal 25.00, fee 7.00 and total 32.00 |
| Session.LoginRole | frontend/js/app.js:389-399 | The fetched role if truthy, else the metadata role if truthy, else "customer"; never empty |
| Session.LoginRoleIsFallbackChain | frontend/js/app.js:389-399 | The role is the first truthy entry of the chain fetched, metadata, "customer" |
| Session.WordStartsIsSplitHeads | frontend/js/app.js:1076 | The word-start scan equals splitting on spaces and taking each part's first character |
| Session.WordStartsAcrossSpace | frontend/js/app.js:1076 | The word starts of "a b" are those of a followed by those of b |
| Session.WordStartsIgnoreExtraSpace | frontend/js/app.js:1076 | A doubled space adds no word start |
| Session.TwoWordStarts | frontend/js/app.js:1076 | Two space-free words joined by one space start with their two first characters |
| Session.StoreInitials | frontend/js/app.js:1074-1077 | "?" for a falsy name; otherwise the first two word initials, upper-cased (whole characters; see Left out) |
| Session.InitialsIgnoreExtraSpaces | frontend/js/app.js:1076 | A doubled space between words does not change the initials |
| LoginPage.Destination | frontend/js/auth.js:45-46 | The seller dashboard iff the role is "store", otherwise the home page |
| LoginPage.LoginErrorMessage | frontend/js/auth.js:65-72 | Case-insensitive "email not confirmed" gives the confirmation message; else "invalid login credentials" gives the wrong-credentials message; else "Error: " + text |
| LoginPage.HandleLogin | frontend/js/auth.js:14-72 | An empty trimmed email or empty password is refused whatever the backend says; otherwise success goes to the role's destination and failure shows the classified message |
| LoginPage.BlankEmailNeverLogsIn | frontend/js/auth.js:14-20 | A whitespace-only email is refused the same way for every login result |
| LoginPage.ClassificationIgnoresCase | frontend/js/auth.js:66-68 | Error texts that differ only in case get the same recognised message |
| LoginPage.NoRoleLandsHome | frontend/js/auth.js:59 | A user without a fetched or metadata role lands on the home page |
| SignupPage.MissingClasses | frontend/js/signup.js:73-83 | Lists exactly the classes the password lacks, each once, in the order lowercase, uppercase, number, special; empty iff the password has all four |
| SignupPage.SignupError | frontend/js/signup.js:33-121 | First failure wins: required fields, then date, then age in [0, 120], then mismatch, then length < 8, then the classes, then the phone, then the store details. Each message iff its check is the first to fail; none iff all pass. The length counts UTF-16 code units; the store-details message appears iff every earlier check passes, the role is "store" and a store field is missing |
| SignupPage.FourEmojiPasswordNotTooShort | frontend/js/signup.js:66 | Four characters above U+FFFF are eight code units, so they pass the length check |
| SignupPage.ClassMessage | frontend/js/signup.js:84 | The class message is "Password must include: " plus the missing classes joined by ", " |
| SignupPage.AcceptedFormPassesBackendRules | frontend/js/signup.js:66-93 | An accepted form also passes the backend's password and phone rules, with a birth date not in the future |
| SignupPage.StoreFieldsIgnoredForOtherRoles | frontend/js/signup.js:111-121 | For roles other than "store" the store fields play no part |
| SignupPage.HandleSignup | frontend/js/signup.js:151-179 | A failed check shows its message. Otherwise, by the sign-up result: login page when confirmation is needed, dashboard for a store, home for others; the already-registered message; "Error: " + error; or, when the call throws, "Signup failed: " followed by the thrown message, or "Unknown error" when it is empty |
| SignupPage.CreatedStoreGoesToDashboard | frontend/js/signup.js:162-166 | A created account without confirmation goes to the dashboard iff the role is "store" |
| ProfilePage.ProfileError | frontend/js/profile.js:85-120 | Names and phone required, then the phone format, then, only when a date is given, a valid date and an age in [0, 120]; each message iff its check fails first |
| ProfilePage.HandleProfileSubmit | frontend/js/profile.js:85-152 | Always an error: the first failing check's message, or, when every check passes, the `TypeError` of calling the undefined `updateProfile` |
| ProfilePage.DobOptional | frontend/js/profile.js:102 | With the date left empty, the parsed date and the clock play no part |
| ProfilePage.SignupDetailsPassProfile | frontend/js/profile.js:90-120 | Details accepted at sign-up also pass the profile checks |
| ProfilePage.AgeLabel | frontend/js/profile.js:55-62 | "Not set" for no age; otherwise the age's numeral followed by " years (Minor)" iff under 18 or " years (Verified)" iff 18 or more |
| ProfilePage.AgeLabelShowsAge | frontend/js/profile.js:59-61 | The numeral at the front of the label reads back as the age |
| ProfilePage.RoleText | frontend/js/profile.js:43 | "Customer" for no role; otherwise the role with its first letter upper-cased and the rest kept |
| ProfilePage.RoleTextKeepsRole | frontend/js/profile.js:43 | Capitalising changes only the case of the first letter |
| ProfilePage.DisplayName | frontend/js/profile.js:44 | "first last" with a first name; else the email before its first '@'; else "User" |
| ProfilePage.DisplayNameIsLocalPart | frontend/js/profile.js:44 | Without a first name the display name is the email before its first '@' |
| ProfilePage.InitialsOfFullName | frontend/js/profile.js:44-45 | One-word first and last names give their two initials |
| StoresPage.SearchTerm | frontend/js/stores.js:48 | The term is no longer than the input, starts and ends with a non-whitespace character, and holds no capital letter |
| StoresPage.FilterStores | frontend/js/stores.js:47-57 | Keeps exactly the stores whose name, or present description, contains the trimmed lower-cased term and whose category matches a non-empty filter |
| StoresPage.FilterStoresKeepsOrder | frontend/js/stores.js:51-57 | Filtering preserves order: filtering a concatenation is the concatenation of the filtered parts |
| StoresPage.BlankFiltersKeepAll | frontend/js/stores.js:51-57 | A blank search and no category keep every store |
| StoresPage.TotalPages | frontend/js/stores.js:104 | The ceiling of n / 12 |
| StoresPage.PageSlice | frontend/js/stores.js:64-68 | Page p shows items (p − 1)·12 up to p·12, clamped to the list, never more than 12 |
| StoresPage.EveryItemOnItsPage | frontend/js/stores.js:64-68 | Item i is entry i mod 12 of page i div 12 + 1, a reachable page |
| StoresPage.ReachablePageNotEmpty | frontend/js/stores.js:64-74 | A reachable page of a non-empty list is never blank |
| StoresPage.NextPage | frontend/js/stores.js:116-123 | Moves on iff the Next button shows (page < total pages) |
| StoresPage.PreviousPage | frontend/js/stores.js:125-131 | Moves back iff the Previous button shows (page > 1) |
| StoresPage.ButtonsKeepPageInRange | frontend/js/stores.js:111-131 | The buttons never leave pages 1 to the page count |
| StoresPage.ApplyFilters | frontend/js/stores.js:47-61 | Re-filtering keeps the store list and resets to page 1 |
| StoresPage.PressButtons | frontend/js/stores.js:116-131 | Any run of presses keeps the page in range, and a non-empty result list always shows a non-empty page |
| StoreDetailPage.StockLabel | frontend/js/store-detail.js:83-84 | "n in stock" iff stock > 0; "Out of stock" iff stock ≤ 0 |
| StoreDetailPage.StockLabelShowsStock | frontend/js/store-detail.js:84 | The label's numeral reads back as the stock |
| StoreDetailPage.Open | frontend/js/store-detail.js:107-108 | Opening the dialog shows 1 with the stock as maximum, a state inside the stepper's range |
| StoreDetailPage.Increase | frontend/js/store-detail.js:120-125 | One more only while below the maximum (the stock) |
| StoreDetailPage.Decrease | frontend/js/store-detail.js:128-133 | One fewer only while above 1 |
| StoreDetailPage.ButtonsKeepInRange | frontend/js/store-detail.js:107-133 | Opening the dialog and both buttons keep the quantity between 1 and the stock |
| StoreDetailPage.DecreaseUndoesIncrease | frontend/js/store-detail.js:120-133 | '-' undoes '+' below the maximum |
| StoreDetailPage.PressAll | frontend/js/store-detail.js:107-133 | Starting at 1 with maximum = stock, any presses keep the quantity in [1, stock], or at 1 when out of stock |
| StoreDetailPage.FilterProducts | frontend/js/store-detail.js:155-161 | Keeps exactly the products whose lower-cased name or description contains the term |
| StoreDetailPage.BlankSearchKeepsAll | frontend/js/store-detail.js:156-161 | A blank search keeps every product |
| StoreDetailPage.AddProductToCart | frontend/js/store-detail.js:136-152 | No user: the login page and no cart call. Otherwise the cart becomes `addToCart` of the product and stepper quantity with the default variations; "added" iff the write succeeds |
| StoreDetailPage.AddFromDialogTwice | frontend/js/store-detail.js:145 | Adding the same product twice from the dialog gives one line holding both quantities |
| CartPage.CartItems | frontend/js/app.js:647-667 | All the user's lines, each with its product when it still exists |
| CartPage.CartTotals | frontend/js/cart.js:70-89 | Zeros for an empty cart; no totals when a line lost its product; fee is the selected town's fee, else 7.00; total = subtotal + fee |
| CartPage.RowsSubtotalIsCatalogTotal | frontend/js/cart.js:78 | The page's subtotal is Σ price × quantity at catalogue prices |
| CartPage.CartTotalsMatchPlacedOrder | frontend/js/cart.js:78-88 | With the selected town as the delivery city, the cart page shows exactly the placed order's subtotal, fee and total |
| CartPage.Minus | frontend/js/cart.js:93-100 | The '-' button (line 56). A failure leaves the cart unchanged; from quantity 2 up, with a working write, exactly the lines with that id hold one less and every other line is unchanged |
| CartPage.Plus | frontend/js/cart.js:93-100 | The '+' button (line 58). A failure leaves the cart unchanged; with a working write, exactly the lines with that id hold one more and every other line is unchanged |
| CartPage.MinusAtOneRemoves | frontend/js/cart.js:56 | '-' at quantity 1 removes the line |
| CartPage.MinusUndoesPlus | frontend/js/cart.js:56-58 | '-' after '+' gives the cart back |
| CheckoutPage.Summary | frontend/js/checkout.js:51-80 | The snapshot's subtotal is the rows' price × quantity sum, its fee is the town fee of the select's value, and its total is subtotal + fee |
| CheckoutPage.SummaryAgreesWithCartPage | frontend/js/checkout.js:51-57 | The checkout summary equals the cart page's totals for the same town |
| CheckoutPage.LoadCheckoutAsWritten | frontend/js/checkout.js:5-46 | As written, the snapshot is priced at the select's initial city, while the select then shows the stored town |
| CheckoutPage.LoadCheckout | frontend/js/checkout.js:5-27 | No user gives the login page; an empty or failed read gives the empty-cart view; otherwise the store is the first line's, the select shows the stored town, and the snapshot describes it |
| CheckoutPage.ChangeCity | frontend/js/checkout.js:33-40 | A change of city recomputes the snapshot for the new city |
| CheckoutPage.LoadsAgreeWithoutStoredTown | frontend/js/checkout.js:5-46 | With no stored town, the as-written and corrected loads agree |
| CheckoutPage.WliFee | frontend/js/app.js:707-726 | Wli costs 22.00 |
| CheckoutPage.EmptyCityFee | frontend/js/app.js:722-726 | An empty city costs the default 7.00 |
| CheckoutPage.DeliveryAddress | frontend/js/checkout.js:106-128 | Street and state are the trimmed street and region; the city is the select's value; zip "0000" when empty; country Ghana; coordinates 0 |
| CheckoutPage.AddressComplete | frontend/js/checkout.js:106-115 | The address passes iff the trimmed street, the city and the trimmed region are all non-empty |
| CheckoutPage.CardComplete | frontend/js/checkout.js:131-139 | Any method other than "card" passes; "card" passes iff the trimmed number, expiry and CVV are all non-empty |
| CheckoutPage.ZipNeverBlocks | frontend/js/checkout.js:109-115 | Only street, city or region can fail the address check |
| CheckoutPage.PlaceOrder | frontend/js/checkout.js:98-169 | No user gives the login page. Then the address check, then the card check for "card". Then `createOrder` on the first line's store. Payment is made iff the order is placed and payment succeeds, for the snapshot total; the snapshot is removed iff payment succeeds; a failed payment keeps the order |
| CheckoutPage.PaymentChargesOrderTotal | frontend/js/checkout.js:143-157 | With a current snapshot, the payment charges exactly the placed order's total |
| CheckoutPage.CorrectedLoadPaysOrderTotal | frontend/js/checkout.js:5-157 | After the corrected load and any city changes, the payment charges exactly the order total |
| CheckoutPage.ApplyChanges | frontend/js/checkout.js:33-40 | Change events keep the cart rows and the store; with no event the page is unchanged; after events the select shows the last one |
| CheckoutPage.ApplyChangesKeepsSnapshotCurrent | frontend/js/checkout.js:33-40 | Change events keep the snapshot describing the selected city |
| CheckoutPage.StalePaymentCounterexample | frontend/js/checkout.js:24-46 | As written, with Wli stored and the select starting empty, the payment is 15.00 short of the order total |
| SellerDashboard.Gate | frontend/js/seller-dashboard.js:2-7 | The dashboard loads iff a user is logged in with role "store"; otherwise the home page |
| SellerDashboard.NextStatus | frontend/js/seller-dashboard.js:110-112 | A button exactly for pending, confirmed and packing; it never delivers, cancels or keeps the status |
| SellerDashboard.ButtonsLeadToReady | frontend/js/seller-dashboard.js:110-112 | pending → confirmed → packing → ready, and ready has no button |
| SellerDashboard.PackingOutsideOrderModel | backend/src/models/Order.js:73 | The dashboard's "packing" is not one of the order model's statuses |
| SellerDashboard.ActiveOrders | frontend/js/seller-dashboard.js:82-88 | Exactly the store's orders that are neither delivered nor cancelled |
| SellerDashboard.SalesTotal | frontend/js/seller-dashboard.js:134-145 | A store without delivered orders shows sales of 0 |
| SellerDashboard.SalesTotalOfOne | frontend/js/seller-dashboard.js:135-143 | A single order adds its `total_amount` iff it is a delivered order of the store, and 0 otherwise |
| SellerDashboard.SalesTotalIsDeliveredSum | frontend/js/seller-dashboard.js:135-143 | The sales figure equals the left-to-right `reduce` of `total_amount` over the store's delivered orders |
| SellerDashboard.SalesTotalConcat | frontend/js/seller-dashboard.js:134-145 | The delivered-sales sum adds up over any split of the orders |
| SellerDashboard.UpdateStatus | frontend/js/seller-dashboard.js:118-125 | Only the orders with that id change status; a failed update changes nothing |
| SellerDashboard.UpdateKeepsSales | frontend/js/seller-dashboard.js:118-145 | Moving undelivered orders to a status other than delivered keeps the sales figure |
| SellerDashboard.ButtonKeepsSales | frontend/js/seller-dashboard.js:110-145 | No action button changes the sales figure |
| SellerDashboard.SubmitProduct | frontend/js/seller-dashboard.js:176-192 | No store: nothing inserted. Otherwise one record is appended: active, of the current store, with the form's fields and the placeholder image when none is given; a working insert reports "Product added successfully!" |
| SellerDashboard.StoreProducts | frontend/js/seller-dashboard.js:46-52 | The product list holds only the store's products, and every product of the store |
| SellerDashboard.SubmittedProductListed | frontend/js/seller-dashboard.js:176-192 | After a submit the store's list gains exactly the new product at its end, and another store's list is unchanged |
| OrdersPage.LoadOrders | frontend/js/orders.js:5-19 | No user gives the login page and nothing is read; otherwise exactly the user's orders |
| OrdersPage.UserOrders | frontend/js/app.js:816-838 | Exactly the orders whose customer is the user |
| OrdersPage.FilterOrders | frontend/js/orders.js:24-27 | "all" keeps every order; any other value keeps exactly the orders with that status |
| OrdersPage.AllShowsEverything | frontend/js/orders.js:25 | The "all" filter is the whole list, in order |
| OrdersPage.StatusFiltersDisjoint | frontend/js/orders.js:24-27 | Two different status filters never show the same order |
| OrdersPage.StatusLabelAsWritten | frontend/js/orders.js:44 | As written, a status without '_' shows upper-cased; with one, the label is the part before the first '_', a space and the rest, upper-cased, so later underscores remain |
| OrdersPage.OutForDeliveryAsWritten | frontend/js/orders.js:44 | As written, "out_for_delivery" keeps its second underscore |
| OrdersPage.StatusLabel | frontend/js/orders.js:44 | Every '_' shows as a space and every letter upper-cased |
| OrdersPage.LabelsAgreeOnOneUnderscore | frontend/js/orders.js:44 | The as-written and corrected labels agree on every status with at most one underscore |
| OrdersPage.AmountOrZero | frontend/js/orders.js:113-125 | A missing amount shows as 0 |
| OrdersPage.PlacedOrderAmountsAddUp | frontend/js/orders.js:98-125 | For a placed order, the line amounts add up to the subtotal, and subtotal + tax + fee is the total |
| OrdersPage.PlacedOrderListed | frontend/js/orders.js:24-27 | A placed order appears in the user's history under "all" and under "pending" |
| Text.JsLength | frontend/js/signup.js:66 | `length` counts UTF-16 code units: between the number of characters and twice that, and equal to it iff every character is in the Basic Multilingual Plane |
| Text.JsLengthConcat | backend/src/utils/validators.js:12-14 | The code-unit length of a concatenation is the sum of the lengths |
| Text.TrimIgnoresPadding | frontend/js/app.js:724 | `trim` removes exactly the surrounding whitespace |
| Text.NatToStringRoundTrip | frontend/js/profile.js:59 | A printed numeral reads back as its number |
| Text.ReplaceFirstAt | frontend/js/orders.js:44 | `replace` with a one-character pattern changes its first occurrence and nothing else |

## Left out

- Database and network I/O (the hosted database, `fetch`, the REST client in api.js, index.js): modelled as tables and fault parameters.
- Rendering, `alert`, `toFixed` formatting and page navigation: shown only as the message or page the script chooses.
- Floating-point arithmetic: money is exact `real`, so rounding of JavaScript numbers is not modelled.
- Letter case: only ASCII letters are mapped; other Unicode case mappings are not modelled.
- `new Date(...)` parsing and the local time zone: the parsed date and today's date are parameters.
- `Date.now()`, `Math.random()` and the transaction id of `processPayment`: the clock and the random draws are parameters. Uniqueness of order numbers is not claimed.
- Haversine `calculateDistance`: trigonometric floating point.
- `validateEmail`: a regular expression with no stated contract beyond its pattern.
- The auth listener, readiness promises, `Promise.race` timeouts and the retry loop of `fetchUserRole`: only the resulting role fallback is modelled.
- Route handlers, schemas, the JWT config and the seed script: only the order status list of backend/src/models/Order.js is used.
- `processPayment`'s later `payment_status` update: it runs after the payment row and its error is ignored, so it affects no outcome modelled here.
- Sorting by `created_at` in the dashboard and the order history: creation times are not modelled; lists keep table order.
- `getProfile`, `updateProfile` and `getUserAgeFromMetadata`: profile.js calls them, but frontend/js/app.js does not define them, so they are not part of this model. As written, `loadProfile` throws before it fills the page, so lines 43-61 of frontend/js/profile.js never run; `RoleText`, `DisplayName` and `AgeLabel` model them as if `getProfile` returned a profile. The profile's age is a parameter. A submit that passes every check throws too and never saves (`ProfilePage.HandleProfileSubmit`).
- The comparison of the stored `jsonb` variations with `JSON.stringify(...)`: variations are compared as strings.
- The error of `addToCart`'s lookup query: it is ignored in the source. A failed lookup behaves as "no such line".
- `StoreNotFound` and `NullProduct`: these messages are the database's and the JavaScript engine's wording, kept as constants.
- The "app still loading" waits of auth.js and signup.js.
- The city select's options: they are in HTML that is not part of this model; they are taken to be the town list.
- Session.StoreInitials: takes the first character of each word whole. JavaScript's `n[0]` and `slice(0, 2)` work on UTF-16 code units and split a character above U+FFFF, and a lone surrogate cannot be a Dafny `char`. The two agree on text in the Basic Multilingual Plane.
- ProfilePage.RoleText: upper-cases the first character whole. `charAt(0)` takes one UTF-16 code unit, so a role starting above U+FFFF differs; the two agree on text in the Basic Multilingual Plane.
- Orders.CreateOrder: prices the delivery with the own-key lookup `TownFees.TownFee`, not the lookup as written. As written, a city whose key is "constructor" or "__proto__" makes the fee an inherited member and `subtotal + deliveryFee` a string, and what the database does with such a total is not modelled. The checkout page passes the city select's value, and for every picker town the two lookups agree (`TownFees.PickedTownAsWrittenAgrees`).
- Orders.NewOrder: the same own-key fee as `Orders.CreateOrder`, for the same reason.
- TownFees.PickedTownCharges: states only that every picker town is a table key; the converse (every key is a picker town) is not proved.
- A `null` rating, image or description in rendering code, and editing a product (`editProduct`), which the dashboard leaves unimplemented.

## Findings

| source | as written | input that shows it | evidently intended | confidence | as-written member | corrected member |
|---|---|---|---|---|---|---|
| frontend/js/app.js:725 | `DELIVERY_FEE_MAPPING[townKey] \|\| 7.00` on a plain object also finds members every object inherits | town name " Constructor " (key "constructor") | any name not in the table costs 7.00 | medium, not executed | TownFees.TownFeeAsWrittenInheritedKey | TownFees.TownFee |
| frontend/js/checkout.js:24-26 | the summary and the `checkoutTotals` snapshot are computed before `setupLocationListeners` selects the stored town, and setting `value` fires no change event | stored town Wli, city select starting empty: snapshot fee 7.00, order fee 22.00 | the payment charges the total of the order it pays for | medium, not executed | CheckoutPage.StalePaymentCounterexample | CheckoutPage.CorrectedLoadPaysOrderTotal |
| frontend/js/orders.js:44 | `status.replace('_', ' ')` replaces only the first underscore | status "out_for_delivery" shows as "OUT FOR_DELIVERY" | every underscore shown as a space | high, not executed | OrdersPage.OutForDeliveryAsWritten | OrdersPage.StatusLabel |
