/** The login form of frontend/js/auth.js (`handleLogin`): the empty-field
    check, the mapping of backend error text to a message, and where a
    logged-in user is sent. The backend call is a parameter holding what it
    would return. */
module LoginPage {
  import opened Common
  import opened Text
  import Session

  const FillAllFields := "Please fill in all fields"
  const ConfirmEmail := "Please check your email and click the confirmation link, then try logging in again."
  const WrongCredentials := "Wrong email or password. Please try again."
  const SellerDashboard := "seller-dashboard.html"
  const Home := "index.html"

  /** What `login(email, password)` returns: success with the role it
      settled on, or failure with `error` (which may be absent). */
  datatype LoginResult = LoggedIn(role: string) | LoginFailed(error: Option<string>)

  /** What the page does: show a message, or go to a page. */
  datatype LoginView = ShowError(message: string) | GoTo(page: string)

  /** `isStore ? 'seller-dashboard.html' : 'index.html'`. */
  function Destination(role: string): (page: string)
    ensures page == SellerDashboard <==> role == Session.StoreRole
    ensures page != SellerDashboard ==> page == Home
  {
    if role == Session.StoreRole then SellerDashboard else Home
  }

  /** The message for a failed login, from `result.error || ''`, matched
      without regard to case. */
  function LoginErrorMessage(error: Option<string>): (m: string)
    ensures var text := if error.Some? then error.value else "";
            && (Contains(Lower(text), "email not confirmed") ==> m == ConfirmEmail)
            && (!Contains(Lower(text), "email not confirmed") && Contains(Lower(text), "invalid login credentials") ==>
                  m == WrongCredentials)
            && (!Contains(Lower(text), "email not confirmed") && !Contains(Lower(text), "invalid login credentials") ==>
                  m == "Error: " + text)
  {
    var text := if error.Some? then error.value else "";
    var lower := Lower(text);
    if Contains(lower, "email not confirmed") then ConfirmEmail
    else if Contains(lower, "invalid login credentials") then WrongCredentials
    else "Error: " + text
  }

  /** `handleLogin` with the form's raw email and password. The email is
      trimmed; an empty field is refused before `login` is called, so the
      outcome then does not depend on `result`. */
  function HandleLogin(emailInput: string, password: string, result: LoginResult): (v: LoginView)
    ensures Trim(emailInput) == "" || password == "" ==> v == ShowError(FillAllFields)
    ensures Trim(emailInput) != "" && password != "" && result.LoggedIn? ==> v == GoTo(Destination(result.role))
    ensures Trim(emailInput) != "" && password != "" && result.LoginFailed? ==>
              v == ShowError(LoginErrorMessage(result.error))
  {
    var email := Trim(emailInput);
    if email == "" || password == "" then ShowError(FillAllFields)
    else match result
      case LoggedIn(role) => GoTo(Destination(role))
      case LoginFailed(error) => ShowError(LoginErrorMessage(error))
  }

  /** An email of whitespace only is refused as empty whatever the backend
      would have said. */
  lemma BlankEmailNeverLogsIn(w: string, password: string, r1: LoginResult, r2: LoginResult)
    requires AllWhitespace(w)
    ensures HandleLogin(w, password, r1) == HandleLogin(w, password, r2) == ShowError(FillAllFields)
  {
    assert w == "" + w + "";
    TrimIgnoresPadding(w, "", "");
    assert w + "" + "" == w;
  }

  /** The error classification ignores letter case: two error texts that
      differ only in case get the same message unless neither is one of
      the two recognised errors (then each text is shown as it came). */
  lemma ClassificationIgnoresCase(e1: string, e2: string)
    requires Lower(e1) == Lower(e2)
    requires Contains(Lower(e1), "email not confirmed") || Contains(Lower(e1), "invalid login credentials")
    ensures LoginErrorMessage(Some(e1)) == LoginErrorMessage(Some(e2))
  {
  }

  /** A user for whom neither the users table nor the sign-up metadata
      gives a role is a customer, and lands on the home page. */
  lemma NoRoleLandsHome(email: string, password: string, metadataRole: Option<string>)
    requires Trim(email) != "" && password != ""
    requires !Truthy(metadataRole)
    ensures HandleLogin(email, password, LoggedIn(Session.LoginRole(None, metadataRole))) == GoTo(Home)
  {
  }
}
