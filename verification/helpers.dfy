/** The backend utilities of backend/src/utils/helpers.js: the
    distance-based delivery fee, the store-hours window, and the shape of a
    one-time password. The clock and the random source are parameters. */
module Helpers {
  import opened Common
  import opened Text

  // ---------------------------------------------------------------------
  // Distance-based delivery fee

  const DefaultBaseFee: real := 5.0
  const DefaultFeePerKm: real := 2.0

  /** A JavaScript default parameter: it applies when the argument is
      `undefined`. */
  function OrDefault(x: Option<real>, default: real): real {
    if x.Some? then x.value else default
  }

  /** `calculateDeliveryFee(distance, baseDeliveryFee = 5, feePerKm = 2)`:
      within the first kilometre the base fee whatever the per-km rate,
      then the rate for every further kilometre; with both defaults
      3 + 2 x distance beyond 1 km. */
  function DistanceFee(distance: real, baseFee: Option<real>, feePerKm: Option<real>): (fee: real)
    ensures distance <= 1.0 ==> fee == OrDefault(baseFee, DefaultBaseFee)
    ensures distance > 1.0 ==>
              fee == OrDefault(baseFee, DefaultBaseFee) + (distance - 1.0) * OrDefault(feePerKm, DefaultFeePerKm)
    ensures distance > 1.0 && baseFee.None? && feePerKm.None? ==> fee == 3.0 + 2.0 * distance
  {
    var base := OrDefault(baseFee, DefaultBaseFee);
    var perKm := OrDefault(feePerKm, DefaultFeePerKm);
    if distance <= 1.0 then base else base + (distance - 1.0) * perKm
  }

  function Abs(x: real): real {
    if x < 0.0 then -x else x
  }

  /** The fee moves by at most |rate| per kilometre away from the 1 km
      mark, so it is continuous at 1 km: there is no jump between the flat
      and the per-km part. */
  lemma DistanceFeeContinuousAtOneKm(distance: real, baseFee: Option<real>, feePerKm: Option<real>)
    ensures Abs(DistanceFee(distance, baseFee, feePerKm) - DistanceFee(1.0, baseFee, feePerKm))
            <= Abs(OrDefault(feePerKm, DefaultFeePerKm)) * Abs(distance - 1.0)
  {
    var k := OrDefault(feePerKm, DefaultFeePerKm);
    var base := OrDefault(baseFee, DefaultBaseFee);
    assert DistanceFee(1.0, baseFee, feePerKm) == base;
    if distance > 1.0 {
      var diff := DistanceFee(distance, baseFee, feePerKm) - DistanceFee(1.0, baseFee, feePerKm);
      assert diff == (distance - 1.0) * k;
      AbsMul(distance - 1.0, k);
      assert Abs(diff) == Abs(distance - 1.0) * Abs(k);
      assert Abs(distance - 1.0) * Abs(k) == Abs(k) * Abs(distance - 1.0);
    } else {
      MulNonNegative(Abs(k), Abs(distance - 1.0));
    }
  }

  lemma MulNonNegative(a: real, b: real)
    requires a >= 0.0 && b >= 0.0
    ensures a * b >= 0.0
  {
  }

  lemma AbsMul(a: real, b: real)
    ensures Abs(a * b) == Abs(a) * Abs(b)
  {
    if a >= 0.0 && b >= 0.0 {
      MulNonNegative(a, b);
    } else if a >= 0.0 {
      MulNonNegative(a, -b);
      assert a * b == -(a * -b);
    } else if b >= 0.0 {
      MulNonNegative(-a, b);
      assert a * b == -(-a * b);
    } else {
      MulNonNegative(-a, -b);
      assert a * b == -a * -b;
    }
  }

  /** A non-negative per-km rate makes the fee non-decreasing in distance. */
  lemma DistanceFeeMonotone(d1: real, d2: real, baseFee: Option<real>, feePerKm: Option<real>)
    requires d1 <= d2
    requires OrDefault(feePerKm, DefaultFeePerKm) >= 0.0
    ensures DistanceFee(d1, baseFee, feePerKm) <= DistanceFee(d2, baseFee, feePerKm)
  {
    var k := OrDefault(feePerKm, DefaultFeePerKm);
    var base := OrDefault(baseFee, DefaultBaseFee);
    if d2 > 1.0 {
      var fee2 := DistanceFee(d2, baseFee, feePerKm);
      assert fee2 == base + (d2 - 1.0) * k;
      if d1 > 1.0 {
        assert DistanceFee(d1, baseFee, feePerKm) == base + (d1 - 1.0) * k;
        MulNonNegative(d2 - d1, k);
        assert (d2 - 1.0) * k - (d1 - 1.0) * k == (d2 - d1) * k;
      } else {
        assert DistanceFee(d1, baseFee, feePerKm) == base;
        MulNonNegative(d2 - 1.0, k);
      }
    }
  }

  // ---------------------------------------------------------------------
  // Store hours

  /** `days`, indexed by `Date.prototype.getDay()`. */
  const Days: seq<string> := ["sunday", "monday", "tuesday", "wednesday", "thursday", "friday", "saturday"]

  /** The weekday keys of a store's `operatingHours` (backend/src/models/Store.js). */
  const ScheduleDays: set<string> := {"monday", "tuesday", "wednesday", "thursday", "friday", "saturday", "sunday"}

  /** The weekday names cover exactly the schedule keys, one per day,
      starting from Sunday. */
  lemma DaysMatchSchedule()
    ensures |Days| == 7 && Days[0] == "sunday" && Days[6] == "saturday"
    ensures forall d :: d in ScheduleDays <==> d in Days
  {
  }

  /** An `open`/`close` field of one day: absent or empty (falsy), an
      `"HH:MM"` string whose two parts are numbers, or a string for which
      `split(':').map(Number)` yields `NaN` somewhere. */
  datatype TimeField = Missing | Unparseable | At(hour: int, minute: int)

  datatype DayHours = DayHours(open: TimeField, close: TimeField)

  /** The current time as `getDay()`, `getHours()`, `getMinutes()`. */
  datatype Clock = Clock(weekday: int, hour: int, minute: int)

  function MinuteOfDay(hour: int, minute: int): int {
    hour * 60 + minute
  }

  /** The store is open at minute `t` of a day with these hours: both times
      given and `t` in the half-open window [open, close). */
  predicate OpenAt(h: DayHours, t: int) {
    && h.open.At? && h.close.At?
    && MinuteOfDay(h.open.hour, h.open.minute) <= t < MinuteOfDay(h.close.hour, h.close.minute)
  }

  /** `isStoreOpen(operatingHours)` with "now" passed in. An unparseable
      time compares false against everything (`NaN`), so it closes the
      store. */
  function IsStoreOpen(hours: map<string, DayHours>, now: Clock): (open: bool)
    requires 0 <= now.weekday < 7
    ensures open <==> Days[now.weekday] in hours && OpenAt(hours[Days[now.weekday]], MinuteOfDay(now.hour, now.minute))
  {
    var dayName := Days[now.weekday];
    if dayName !in hours then false
    else
      var day := hours[dayName];
      if day.open.Missing? || day.close.Missing? then false
      else if day.open.Unparseable? || day.close.Unparseable? then false
      else
        var current := MinuteOfDay(now.hour, now.minute);
        current >= MinuteOfDay(day.open.hour, day.open.minute)
        && current < MinuteOfDay(day.close.hour, day.close.minute)
  }

  /** A day without an entry, or with either time missing, is closed all day. */
  lemma ClosedWithoutHours(hours: map<string, DayHours>, now: Clock)
    requires 0 <= now.weekday < 7
    requires Days[now.weekday] !in hours
             || hours[Days[now.weekday]].open.Missing?
             || hours[Days[now.weekday]].close.Missing?
    ensures !IsStoreOpen(hours, now)
  {
  }

  /** A closing time at or before the opening time never opens: there is
      no wrap past midnight. */
  lemma ClosedWhenCloseNotAfterOpen(hours: map<string, DayHours>, now: Clock)
    requires 0 <= now.weekday < 7
    requires Days[now.weekday] in hours
    requires var h := hours[Days[now.weekday]];
             h.open.At? && h.close.At?
             && MinuteOfDay(h.close.hour, h.close.minute) <= MinuteOfDay(h.open.hour, h.open.minute)
    ensures !IsStoreOpen(hours, now)
  {
  }

  /** The open minutes of a day form one interval: open at two times means
      open at every time between them. */
  lemma OpenTimesFormInterval(hours: map<string, DayHours>, day: int, h1: int, m1: int, h: int, m: int, h2: int, m2: int)
    requires 0 <= day < 7
    requires MinuteOfDay(h1, m1) <= MinuteOfDay(h, m) <= MinuteOfDay(h2, m2)
    requires IsStoreOpen(hours, Clock(day, h1, m1)) && IsStoreOpen(hours, Clock(day, h2, m2))
    ensures IsStoreOpen(hours, Clock(day, h, m))
  {
  }

  // ---------------------------------------------------------------------
  // One-time password

  /** The loop bound of `generateOTP(length = 6)`: a negative length gives
      no iterations. */
  function OtpLength(length: Option<int>): (n: nat)
    ensures length.None? ==> n == 6
    ensures length.Some? ==> n == if length.value < 0 then 0 else length.value
  {
    var n := if length.Some? then length.value else 6;
    if n < 0 then 0 else n
  }

  /** The digit `digits[Math.floor(draw * 10)]` picks for a draw of
      `Math.random()`. */
  function DrawDigit(draw: real): (c: char)
    requires 0.0 <= draw < 1.0
    ensures IsDigit(c)
  {
    var k := (draw * 10.0).Floor;
    assert 0 <= k < 10;
    DigitChar(k)
  }

  /** `generateOTP(length)`, with the successive `Math.random()` results
      passed in as `draws`. */
  method GenerateOtp(length: Option<int>, draws: seq<real>) returns (otp: string)
    requires |draws| >= OtpLength(length)
    requires forall i :: 0 <= i < |draws| ==> 0.0 <= draws[i] < 1.0
    ensures |otp| == OtpLength(length)
    ensures length.None? ==> |otp| == 6
    ensures length.Some? && length.value >= 0 ==> |otp| == length.value
    ensures length.Some? && length.value < 0 ==> otp == ""
    ensures forall i :: 0 <= i < |otp| ==> IsDigit(otp[i])
    ensures forall i :: 0 <= i < |otp| ==> otp[i] == DrawDigit(draws[i])
  {
    var n := OtpLength(length);
    otp := "";
    var i := 0;
    while i < n
      invariant 0 <= i <= n
      invariant |otp| == i
      invariant forall j :: 0 <= j < i ==> otp[j] == DrawDigit(draws[j])
    {
      otp := otp + [DrawDigit(draws[i])];
      i := i + 1;
    }
  }
}
