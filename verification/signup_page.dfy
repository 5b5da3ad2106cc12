/** The sign-up form of frontend/js/signup.js (`handleSignup`): an ordered
    list of checks where the first one that fails is reported and nothing
    after it runs, then the result of the sign-up call. Parsing the date
    field and reading the clock are parameters: `dob` is `new
    Date(dateOfBirth)` as a calendar date, or `None` when it is invalid. */
module SignupPage {
  import opened Common
  import opened Text
  import opened Ages
  import Validators
  import Session

  /** The raw values of the form's fields. */
  datatype SignupForm = SignupForm(
    firstName: string, lastName: string, email: string, phone: string,
    dateOfBirth: string, password: string, confirmPassword: string, role: string,
    storeName: string, storeCategory: string, storeLocation: string, storeGps: string)

  const FillRequired := "Please fill in all required fields"
  const InvalidDob := "Please enter a valid date of birth"
  const CheckDob := "Please double-check your date of birth"
  const Mismatch := "Passwords do not match"
  const TooShort := "Password must be at least 8 characters"
  const MustInclude := "Password must include: "
  const InvalidPhone := "Please enter a valid 10-digit phone number"
  const StoreDetails := "Please fill in all store details " + "including Location and GPS Address"

  /** The four character classes of the password rule, in the order the
      message names them. */
  datatype CharClass = Lowercase | Uppercase | Digit | Special

  /** The words the message uses for each class. */
  function ClassName(c: CharClass): string {
    match c
    case Lowercase => "a lowercase letter"
    case Uppercase => "an uppercase letter"
    case Digit => "a number"
    case Special => "a special character (!@#$%^&*)"
  }

  /** Position of each class in the message. */
  function Rank(c: CharClass): nat {
    match c
    case Lowercase => 0
    case Uppercase => 1
    case Digit => 2
    case Special => 3
  }

  /** The characters of the special-character class of the password rule. */
  const SpecialChars := "!@#$%^&*()_+-=[]{};':\"|<>?,./`~"

  predicate HasLowercase(p: string) { exists i :: 0 <= i < |p| && 'a' <= p[i] <= 'z' }
  predicate HasUppercase(p: string) { exists i :: 0 <= i < |p| && 'A' <= p[i] <= 'Z' }
  predicate HasDigit(p: string) { exists i :: 0 <= i < |p| && IsDigit(p[i]) }
  predicate HasSpecial(p: string) { exists i :: 0 <= i < |p| && p[i] in SpecialChars }

  predicate StrongPassword(p: string) {
    HasLowercase(p) && HasUppercase(p) && HasDigit(p) && HasSpecial(p)
  }

  /** The password has a character of class `c`. */
  predicate Has(p: string, c: CharClass) {
    match c
    case Lowercase => HasLowercase(p)
    case Uppercase => HasUppercase(p)
    case Digit => HasDigit(p)
    case Special => HasSpecial(p)
  }

  /** The classes the password lacks, in the order the message lists them
      (one `missing.push` per class). */
  function MissingClasses(p: string): (r: seq<CharClass>)
    ensures |r| <= 4
    ensures r == [] <==> StrongPassword(p)
    ensures forall c :: c in r <==> !Has(p, c)
    ensures forall i, j :: 0 <= i < j < |r| ==> Rank(r[i]) < Rank(r[j])
  {
    (if HasLowercase(p) then [] else [Lowercase])
    + (if HasUppercase(p) then [] else [Uppercase])
    + (if HasDigit(p) then [] else [Digit])
    + (if HasSpecial(p) then [] else [Special])
  }

  /** `missing.join(', ')`: the class words separated by commas. */
  function MissingText(missing: seq<CharClass>): string {
    Join(seq(|missing|, i requires 0 <= i < |missing| => ClassName(missing[i])), ", ")
  }

  /** Every required field is non-empty; names, email and phone are
      trimmed first, the date and the passwords are not. */
  predicate RequiredPresent(f: SignupForm) {
    && Trim(f.firstName) != "" && Trim(f.lastName) != "" && Trim(f.email) != ""
    && Trim(f.phone) != "" && f.dateOfBirth != "" && f.password != "" && f.confirmPassword != ""
  }

  /** The date parsed and gives an age in [0, 120]. */
  predicate DobAccepted(dob: Option<Date>, today: Date) {
    dob.Some? && AgeAccepted(Age(dob.value, today))
  }

  /** A store owner must give a store name, category, location and GPS
      address; the category (a select) is the one value not trimmed. */
  predicate StoreDetailsPresent(f: SignupForm) {
    f.role != Session.StoreRole
    || (Trim(f.storeName) != "" && f.storeCategory != "" && Trim(f.storeLocation) != "" && Trim(f.storeGps) != "")
  }

  /** A message that starts "Password must include: ". */
  predicate IsClassMessage(m: string) {
    |m| >= |MustInclude| && m[..|MustInclude|] == MustInclude
  }

  /** No fixed message of the form starts like the class message. */
  lemma FixedMessagesAreNotClassMessages()
    ensures !IsClassMessage(FillRequired) && !IsClassMessage(InvalidDob) && !IsClassMessage(CheckDob)
    ensures !IsClassMessage(Mismatch) && !IsClassMessage(TooShort)
    ensures !IsClassMessage(InvalidPhone) && !IsClassMessage(StoreDetails)
  {
    assert FillRequired[1] != MustInclude[1];
    assert InvalidDob[1] != MustInclude[1];
    assert CheckDob[1] != MustInclude[1];
    assert InvalidPhone[1] != MustInclude[1];
    assert StoreDetails[1] != MustInclude[1];
    assert Mismatch[8] != MustInclude[8];
    assert TooShort[14] != MustInclude[14];
  }

  /** The first failing check's message, or `None` when the form goes to
      `signup`. */
  function SignupError(f: SignupForm, dob: Option<Date>, today: Date): (r: Option<string>)
    ensures r == Some(FillRequired) <==> !RequiredPresent(f)
    ensures r == Some(InvalidDob) <==> RequiredPresent(f) && dob.None?
    ensures r == Some(CheckDob) <==> RequiredPresent(f) && dob.Some? && !AgeAccepted(Age(dob.value, today))
    ensures r == Some(Mismatch) <==> RequiredPresent(f) && DobAccepted(dob, today) && f.password != f.confirmPassword
    ensures r == Some(TooShort) <==>
              RequiredPresent(f) && DobAccepted(dob, today) && f.password == f.confirmPassword && JsLength(f.password) < 8
    ensures (r.Some? && IsClassMessage(r.value)) <==>
              && RequiredPresent(f) && DobAccepted(dob, today) && f.password == f.confirmPassword
              && JsLength(f.password) >= 8 && !StrongPassword(f.password)
    ensures r == Some(InvalidPhone) <==>
              && RequiredPresent(f) && DobAccepted(dob, today) && f.password == f.confirmPassword
              && JsLength(f.password) >= 8 && StrongPassword(f.password) && !Validators.ValidPhone(Trim(f.phone))
    ensures r == Some(StoreDetails) <==>
              && RequiredPresent(f) && DobAccepted(dob, today) && f.password == f.confirmPassword
              && JsLength(f.password) >= 8 && StrongPassword(f.password) && Validators.ValidPhone(Trim(f.phone))
              && f.role == Session.StoreRole && !StoreDetailsPresent(f)
    ensures r.None? <==>
              && RequiredPresent(f) && DobAccepted(dob, today) && f.password == f.confirmPassword
              && JsLength(f.password) >= 8 && StrongPassword(f.password) && Validators.ValidPhone(Trim(f.phone))
              && StoreDetailsPresent(f)
  {
    FixedMessagesAreNotClassMessages();
    if !RequiredPresent(f) then Some(FillRequired)
    else if dob.None? then Some(InvalidDob)
    else if !AgeAccepted(Age(dob.value, today)) then Some(CheckDob)
    else if f.password != f.confirmPassword then Some(Mismatch)
    else if JsLength(f.password) < 8 then Some(TooShort)
    else if !StrongPassword(f.password) then
      var m := MustInclude + MissingText(MissingClasses(f.password));
      assert m[..|MustInclude|] == MustInclude;
      Some(m)
    else if !Validators.ValidPhone(Trim(f.phone)) then Some(InvalidPhone)
    else if !StoreDetailsPresent(f) then Some(StoreDetails)
    else None
  }

  /** The class message names exactly the missing classes, in order. */
  lemma ClassMessage(f: SignupForm, dob: Option<Date>, today: Date)
    requires RequiredPresent(f) && DobAccepted(dob, today) && f.password == f.confirmPassword
    requires JsLength(f.password) >= 8 && !StrongPassword(f.password)
    ensures SignupError(f, dob, today) == Some(MustInclude + MissingText(MissingClasses(f.password)))
  {
  }

  /** The length check counts UTF-16 code units: four emoji make a
      password of eight, so it is not refused as too short. */
  lemma FourEmojiPasswordNotTooShort(f: SignupForm, dob: Option<Date>, today: Date)
    requires RequiredPresent(f) && DobAccepted(dob, today)
    requires f.password == f.confirmPassword == "\U{1F600}\U{1F600}\U{1F600}\U{1F600}"
    ensures |f.password| == 4
    ensures SignupError(f, dob, today) != Some(TooShort)
  {
    FourEmojiCodeUnits();
  }

  lemma FourEmojiCodeUnits()
    ensures JsLength("\U{1F600}\U{1F600}\U{1F600}\U{1F600}") == 8
  {
    var p := "\U{1F600}\U{1F600}\U{1F600}\U{1F600}";
    assert JsLength(p[3..]) == 2;
    assert JsLength(p[2..]) == 4;
    assert JsLength(p[1..]) == 6;
  }

  /** A form the page accepts also passes the backend's own rules: the
      password is long enough for `validatePassword` and the phone passes
      `validatePhone`. */
  lemma AcceptedFormPassesBackendRules(f: SignupForm, dob: Option<Date>, today: Date)
    requires SignupError(f, dob, today).None?
    ensures Validators.ValidPassword(f.password)
    ensures Validators.ValidPhone(Trim(f.phone))
    ensures dob.Some? && OnOrBefore(dob.value, today)
  {
    AgeSign(dob.value, today);
  }

  /** Roles other than "store" skip the store check: the store fields do
      not matter for them. */
  lemma StoreFieldsIgnoredForOtherRoles(f: SignupForm, g: SignupForm, dob: Option<Date>, today: Date)
    requires f.role != Session.StoreRole
    requires g == f.(storeName := g.storeName, storeCategory := g.storeCategory,
                     storeLocation := g.storeLocation, storeGps := g.storeGps)
    ensures SignupError(f, dob, today) == SignupError(g, dob, today)
  {
  }

  /** What `signup(...)` resolves to: success (maybe needing e-mail
      confirmation), or failure; or the promise rejects (the 35-second
      timeout, or an exception) with a message. */
  datatype SignupResult =
    | Created(needsConfirmation: bool)
    | NotCreated(alreadyRegistered: bool, error: string)
    | Threw(message: Option<string>)

  datatype SignupView = ShowError(message: string) | GoTo(page: string)

  const AlreadyRegistered := "This email is already registered. <a href=\"login.html\" style=\"color: #007bff; text-decoration: underline;\">Click here to log in</a>"
  const SignupFailed := "Signup failed: "
  const LoginPageUrl := "login.html"
  const SellerDashboard := "seller-dashboard.html"
  const Home := "index.html"

  /** `handleSignup`: the checks, then the call's outcome. A failed check
      shows its message and the call's outcome plays no part. */
  function HandleSignup(f: SignupForm, dob: Option<Date>, today: Date, result: SignupResult): (v: SignupView)
    ensures SignupError(f, dob, today).Some? ==> v == ShowError(SignupError(f, dob, today).value)
    ensures SignupError(f, dob, today).None? && result.Created? ==>
              v == GoTo(if result.needsConfirmation then LoginPageUrl
                        else if f.role == Session.StoreRole then SellerDashboard else Home)
    ensures SignupError(f, dob, today).None? && result.NotCreated? ==>
              v == ShowError(if result.alreadyRegistered then AlreadyRegistered else "Error: " + result.error)
    ensures SignupError(f, dob, today).None? && result.Threw? ==>
              v == ShowError(SignupFailed + (if Truthy(result.message) then result.message.value else "Unknown error"))
  {
    var err := SignupError(f, dob, today);
    if err.Some? then ShowError(err.value)
    else match result
      case Created(needsConfirmation) =>
        if needsConfirmation then GoTo(LoginPageUrl)
        else if f.role == Session.StoreRole then GoTo(SellerDashboard)
        else GoTo(Home)
      case NotCreated(alreadyRegistered, error) =>
        if alreadyRegistered then ShowError(AlreadyRegistered) else ShowError("Error: " + error)
      case Threw(message) =>
        ShowError(SignupFailed + (if Truthy(message) then message.value else "Unknown error"))
  }

  /** A new account that needs no confirmation lands on the seller
      dashboard exactly when it is a store account. */
  lemma CreatedStoreGoesToDashboard(f: SignupForm, dob: Option<Date>, today: Date)
    requires SignupError(f, dob, today).None?
    ensures HandleSignup(f, dob, today, Created(false)) == GoTo(SellerDashboard) <==> f.role == Session.StoreRole
  {
  }
}
