/** The whole-year age both the signup form (frontend/js/signup.js) and the
    profile form (frontend/js/profile.js) compute from a date of birth and
    today's date. Dates are calendar triples; parsing the form's string and
    reading the clock are left to the caller. */
module Ages {

  /** A calendar date as `getFullYear()`, `getMonth()`, `getDate()`. */
  datatype Date = Date(year: int, month: int, day: int)

  /** The year difference, minus one when this year's birthday (month and
      day) has not been reached yet. */
  function Age(dob: Date, today: Date): (a: int)
    ensures today.year - dob.year - 1 <= a <= today.year - dob.year
    ensures a == today.year - dob.year <==>
              dob.month < today.month || (dob.month == today.month && dob.day <= today.day)
  {
    var age := today.year - dob.year;
    var m := today.month - dob.month;
    if m < 0 || (m == 0 && today.day < dob.day) then age - 1 else age
  }

  /** Calendar order on dates. */
  predicate OnOrBefore(a: Date, b: Date) {
    a.year < b.year
    || (a.year == b.year && (a.month < b.month || (a.month == b.month && a.day <= b.day)))
  }

  /** The `n`-th birthday of someone born on `dob`. */
  function Anniversary(dob: Date, n: int): Date {
    Date(dob.year + n, dob.month, dob.day)
  }

  /** The age is the number of completed years: the age-th birthday has
      passed (or is today) and the next one has not. */
  lemma AgeIsCompletedYears(dob: Date, today: Date)
    ensures OnOrBefore(Anniversary(dob, Age(dob, today)), today)
    ensures !OnOrBefore(Anniversary(dob, Age(dob, today) + 1), today)
  {
  }

  /** A birth date in the future gives a negative age, and a birth date on
      or before today gives a non-negative one. */
  lemma AgeSign(dob: Date, today: Date)
    ensures Age(dob, today) >= 0 <==> OnOrBefore(dob, today)
  {
    AgeIsCompletedYears(dob, today);
  }

  /** Both forms reject an age outside [0, 120]. */
  predicate AgeAccepted(age: int) {
    0 <= age <= 120
  }
}
