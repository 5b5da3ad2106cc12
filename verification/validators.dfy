/** The request validators of backend/src/utils/validators.js. The phone
    rule is the one the signup and profile forms apply too. */
module Validators {
  import opened Common
  import opened Text

  /** `phone.replace(/\D/g, '')`: the decimal digits of the input, in order. */
  function DigitsOf(s: string): string {
    Filter(s, IsDigit)
  }

  /** `validatePhone`: exactly ten digits once everything else is removed.
      The digits are ASCII, so counting characters and counting UTF-16 code
      units agree here. */
  predicate ValidPhone(phone: string): (ok: bool)
    ensures ok ==> |phone| >= 10
    ensures ok ==> exists i :: 0 <= i < |phone| && IsDigit(phone[i])
  {
    var digits := DigitsOf(phone);
    if |digits| == 10 then
      assert digits[0] in phone && IsDigit(digits[0]);
      true
    else false
  }

  /** Separators are ignored: inserting a non-digit anywhere never changes
      whether a phone number is accepted. */
  lemma PhoneIgnoresSeparators(before: string, c: char, after: string)
    requires !IsDigit(c)
    ensures ValidPhone(before + [c] + after) <==> ValidPhone(before + after)
  {
    FilterConcat(before + [c], after, IsDigit);
    FilterConcat(before, [c], IsDigit);
    FilterConcat(before, after, IsDigit);
    assert Filter([c], IsDigit) == [];
  }

  /** A string made only of digits is accepted exactly when it has ten. */
  lemma PhoneOfDigitsOnly(s: string)
    requires forall i :: 0 <= i < |s| ==> IsDigit(s[i])
    ensures ValidPhone(s) <==> |s| == 10
  {
    FilterKeepsAll(s, IsDigit);
  }

  /** `validatePassword`: `password.length >= 6`, where the length counts
      UTF-16 code units. Three characters above U+FFFF are enough. */
  predicate ValidPassword(password: string): (ok: bool)
    ensures ok ==> |password| >= 3
    ensures (forall i :: 0 <= i < |password| ==> InBmp(password[i])) ==> (ok <==> |password| >= 6)
  {
    JsLength(password) >= 6
  }

  /** The backend rule looks at the length only: appending characters never
      turns an accepted password into a rejected one, and for text inside
      the Basic Multilingual Plane the six-character prefix of an accepted
      password is itself accepted. */
  lemma PasswordRuleIsLengthOnly(password: string, extra: string)
    requires ValidPassword(password)
    ensures ValidPassword(password + extra)
    ensures (forall i :: 0 <= i < |password| ==> InBmp(password[i])) ==> ValidPassword(password[..6])
  {
    JsLengthConcat(password, extra);
  }

  /** Three emoji are six code units: the rule accepts them although the
      password has only three characters. */
  lemma ThreeEmojiPasswordAccepted()
    ensures var p := "\U{1F600}\U{1F600}\U{1F600}";
            |p| == 3 && ValidPassword(p)
  {
    var p := "\U{1F600}\U{1F600}\U{1F600}";
    assert JsLength(p[2..]) == 2;
    assert JsLength(p[1..]) == 4;
  }

  /** An order line of an order request; the validator only counts them. */
  datatype ItemRequest = ItemRequest(productId: string, quantity: int)

  /** A delivery address object; any object is truthy. */
  datatype AddressRequest = AddressRequest(street: string, city: string)

  /** The fields of `orderData` that `validateOrderData` reads. */
  datatype OrderData = OrderData(
    items: Option<seq<ItemRequest>>,
    deliveryAddress: Option<AddressRequest>,
    paymentMethod: Option<string>)

  datatype ValidationResult = ValidationResult(isValid: bool, errors: seq<string>)

  const ItemsRequired := "Order must contain at least one item"
  const AddressRequired := "Delivery address is required"
  const PaymentRequired := "Payment method is required"

  predicate ItemsMissing(d: OrderData) {
    d.items.None? || |d.items.value| == 0
  }

  /** Position of each message in the order the checks run. */
  function MessageRank(m: string): int {
    if m == ItemsRequired then 0
    else if m == AddressRequired then 1
    else if m == PaymentRequired then 2
    else 3
  }

  /** `validateOrderData`: one message per failed check, in check order. */
  function ValidateOrderData(d: OrderData): (v: ValidationResult)
    ensures v.isValid <==> v.errors == []
    ensures |v.errors| <= 3
    ensures forall m :: m in v.errors ==> m == ItemsRequired || m == AddressRequired || m == PaymentRequired
    ensures ItemsRequired in v.errors <==> ItemsMissing(d)
    ensures AddressRequired in v.errors <==> d.deliveryAddress.None?
    ensures PaymentRequired in v.errors <==> !Truthy(d.paymentMethod)
    ensures forall i, j :: 0 <= i < j < |v.errors| ==> MessageRank(v.errors[i]) < MessageRank(v.errors[j])
  {
    var e1 := if ItemsMissing(d) then [ItemsRequired] else [];
    var e2 := if d.deliveryAddress.None? then [AddressRequired] else [];
    var e3 := if !Truthy(d.paymentMethod) then [PaymentRequired] else [];
    var errors := e1 + e2 + e3;
    ValidationResult(|errors| == 0, errors)
  }
}
