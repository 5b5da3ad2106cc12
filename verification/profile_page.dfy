/** The profile page of frontend/js/profile.js: the checks of
    `handleProfileSubmit`, and the role text, display name, initials and
    age label `loadProfile` would show. As on the sign-up form, `dob` is
    the parsed date field (`None` when invalid) and `today` the clock.

    `window.fastGetApp` defines neither `getProfile` nor `updateProfile`.
    As written, `loadProfile` throws before it reaches the role, name and
    age lines, and a submit that passes every check throws instead of
    saving (`HandleProfileSubmit`). The display functions below are what
    those lines compute from a profile, as if `getProfile` returned one. */
module ProfilePage {
  import opened Common
  import opened Text
  import opened Ages
  import Validators
  import Session
  import SignupPage

  /** The raw values of the profile form. */
  datatype ProfileForm = ProfileForm(firstName: string, lastName: string, phone: string, dateOfBirth: string)

  const NamesRequired := "First name, last name and phone are required."
  const InvalidPhone := "Please enter a valid 10-digit phone number."
  const InvalidDob := "Please enter a valid date of birth."
  const CheckDob := "Please double-check your date of birth."

  predicate RequiredPresent(f: ProfileForm) {
    Trim(f.firstName) != "" && Trim(f.lastName) != "" && Trim(f.phone) != ""
  }

  /** The first failing check, or `None` when every check passes and the
      page goes on to call `updateProfile`. The date of birth is optional:
      an empty field skips its checks. */
  function ProfileError(f: ProfileForm, dob: Option<Date>, today: Date): (r: Option<string>)
    ensures r == Some(NamesRequired) <==> !RequiredPresent(f)
    ensures r == Some(InvalidPhone) <==> RequiredPresent(f) && !Validators.ValidPhone(Trim(f.phone))
    ensures r == Some(InvalidDob) <==>
              RequiredPresent(f) && Validators.ValidPhone(Trim(f.phone)) && f.dateOfBirth != "" && dob.None?
    ensures r == Some(CheckDob) <==>
              && RequiredPresent(f) && Validators.ValidPhone(Trim(f.phone)) && f.dateOfBirth != ""
              && dob.Some? && !AgeAccepted(Age(dob.value, today))
    ensures r.None? <==>
              && RequiredPresent(f) && Validators.ValidPhone(Trim(f.phone))
              && (f.dateOfBirth != "" ==> SignupPage.DobAccepted(dob, today))
  {
    if !RequiredPresent(f) then Some(NamesRequired)
    else if !Validators.ValidPhone(Trim(f.phone)) then Some(InvalidPhone)
    else if f.dateOfBirth != "" then
      if dob.None? then Some(InvalidDob)
      else if !AgeAccepted(Age(dob.value, today)) then Some(CheckDob)
      else None
    else None
  }

  /** What a submit leaves on the page. */
  datatype ProfileView = ShowError(message: string) | Saved

  /** The message of the `TypeError` that calling the undefined
      `updateProfile` throws (the engine's wording, kept as a constant). */
  const UpdateProfileMissing := "window.fastGetApp.updateProfile is not a function"

  /** `handleProfileSubmit` as written: a failed check shows its message;
      once every check passes, the call to `updateProfile` throws and the
      catch shows that error. The profile is never saved. */
  function HandleProfileSubmit(f: ProfileForm, dob: Option<Date>, today: Date): (v: ProfileView)
    ensures v.ShowError?
    ensures ProfileError(f, dob, today).Some? ==> v.message == ProfileError(f, dob, today).value
    ensures ProfileError(f, dob, today).None? ==> v.message == UpdateProfileMissing
  {
    var err := ProfileError(f, dob, today);
    if err.Some? then ShowError(err.value) else ShowError(UpdateProfileMissing)
  }

  /** With the date left empty, what the date would have parsed to and the
      clock play no part. */
  lemma DobOptional(f: ProfileForm, d1: Option<Date>, t1: Date, d2: Option<Date>, t2: Date)
    requires f.dateOfBirth == ""
    ensures ProfileError(f, d1, t1) == ProfileError(f, d2, t2)
  {
  }

  /** Details that passed sign-up also pass the profile form: the two forms
      share the phone rule and the age rule. */
  lemma SignupDetailsPassProfile(s: SignupPage.SignupForm, dob: Option<Date>, today: Date)
    requires SignupPage.SignupError(s, dob, today).None?
    ensures ProfileError(ProfileForm(s.firstName, s.lastName, s.phone, s.dateOfBirth), dob, today).None?
  {
  }

  /** The age line: `${age} years (Minor)` under 18, `(Verified)` from 18. */
  function AgeLabel(age: Option<int>): (shown: string)
    ensures age.None? ==> shown == "Not set"
    ensures age.Some? ==> |shown| > |IntToString(age.value)| && shown[..|IntToString(age.value)|] == IntToString(age.value)
    ensures age.Some? ==> (EndsWith(shown, " years (Minor)") <==> age.value < 18)
    ensures age.Some? ==> (EndsWith(shown, " years (Verified)") <==> age.value >= 18)
  {
    if age.None? then "Not set"
    else
      var n := IntToString(age.value);
      var minor := " years (Minor)";
      var verified := " years (Verified)";
      assert (n + minor)[|n + minor| - |minor|..] == minor;
      assert (n + verified)[|n + verified| - |verified|..] == verified;
      assert minor[7] == '(' && verified[10] == 'r';
      assert !EndsWith(n + minor, verified) by {
        var s := n + minor;
        if |s| >= |verified| {
          assert s[|s| - 7] == minor[7];
          assert s[|s| - |verified|..][10] == s[|s| - 7];
        }
      }
      assert !EndsWith(n + verified, minor) by {
        var s := n + verified;
        assert s[|s| - 7] == verified[10];
        assert s[|s| - |minor|..][7] == s[|s| - 7];
      }
      if age.value < 18 then n + minor else n + verified
  }

  /** The number at the front of the label reads back as the age. */
  lemma AgeLabelShowsAge(age: nat)
    ensures var shown := AgeLabel(Some(age));
            ParseDigits(shown[..|NatToString(age)|]) == age
  {
    NatToStringRoundTrip(age);
  }

  /** `profile.role ? capitalised role : 'Customer'`. */
  function RoleText(role: Option<string>): (text: string)
    ensures !Truthy(role) ==> text == "Customer"
    ensures Truthy(role) ==> |text| == |role.value| && text[0] == UpperChar(role.value[0]) && text[1..] == role.value[1..]
  {
    if !Truthy(role) then "Customer"
    else [UpperChar(role.value[0])] + role.value[1..]
  }

  /** Capitalising changes only the case of the first letter. */
  lemma RoleTextKeepsRole(role: string)
    requires role != ""
    ensures Lower(RoleText(Some(role))) == Lower(role)
  {
    var t := RoleText(Some(role));
    assert forall i :: 1 <= i < |role| ==> t[i] == role[i] by {
      assert forall i :: 1 <= i < |role| ==> t[i] == t[1..][i - 1];
    }
  }

  /** `firstName ? "first last" : (email ? local part of email : 'User')`. */
  function DisplayName(firstName: Option<string>, lastName: string, email: Option<string>): (name: string)
    ensures Truthy(firstName) ==> name == firstName.value + " " + lastName
    ensures !Truthy(firstName) && !Truthy(email) ==> name == "User"
    ensures !Truthy(firstName) && Truthy(email) ==> name == Before(email.value, '@')
    ensures !Truthy(firstName) && Truthy(email) ==> '@' !in name && |name| <= |email.value|
  {
    if Truthy(firstName) then firstName.value + " " + lastName
    else if Truthy(email) then Before(email.value, '@')
    else "User"
  }

  /** Without a first name the display name is the part of the e-mail
      before its first '@': putting back '@' and the rest gives the e-mail. */
  lemma DisplayNameIsLocalPart(email: string)
    requires email != "" && '@' in email
    ensures var name := DisplayName(None, "", Some(email));
            |name| < |email| && email == name + "@" + email[|name| + 1..]
  {
    var name := DisplayName(None, "", Some(email));
    assert name == Before(email, '@');
    assert name != email;
    assert email[|name|] == '@';
    assert email == email[..|name|] + [email[|name|]] + email[|name| + 1..];
  }

  /** A first and a last name of single words give the two initials. */
  lemma InitialsOfFullName(first: string, last: string)
    requires first != [] && last != [] && ' ' !in first && ' ' !in last
    ensures Session.StoreInitials(Some(DisplayName(Some(first), last, None)))
            == [UpperChar(first[0]), UpperChar(last[0])]
  {
    var name := DisplayName(Some(first), last, None);
    assert name == first + [' '] + last;
    Session.TwoWordStarts(first, last);
    var r := Session.StoreInitials(Some(name));
    assert |r| == 2 && r[0] == UpperChar(first[0]) && r[1] == UpperChar(last[0]);
  }
}
