/**
 `parseExpiryToMs` (`sessionCleanup.ts`): how the cleanup job reads the refresh lifetime setting.

 JavaScript's `Number` is a parameter (`None` for what is no finite number), and so is the set of white-space
 characters. Amounts are exact; rounding of very long ones is not modelled.
 */
module Expiry {
  import opened Prelude
  import AuthSessions
  import SessionCleanup

  datatype Locale = Locale(number: string -> Option<real>, space: char -> bool)

  predicate Digit(c: char) { '0' <= c <= '9' }

  predicate AllDigits(s: string) { forall i | 0 <= i < |s| :: Digit(s[i]) }

  predicate Letter(c: char) { 'a' <= c <= 'z' || 'A' <= c <= 'Z' }

  function Lower(s: string): string {
    if s == [] then []
    else [if 'A' <= s[0] <= 'Z' then ((s[0] as int) + 32) as char else s[0]] + Lower(s[1..])
  }

  /** Milliseconds per unit, 0 for what is no unit. */
  function UnitMs(unit: string): nat {
    if unit in {"ms", "msec", "msecs", "millisecond", "milliseconds"} then 1
    else if unit in {"s", "sec", "secs", "second", "seconds"} then 1_000
    else if unit in {"m", "min", "mins", "minute", "minutes"} then 60_000
    else if unit in {"h", "hr", "hrs", "hour", "hours"} then 3_600_000
    else if unit in {"d", "day", "days"} then 86_400_000
    else if unit in {"w", "week", "weeks"} then 604_800_000
    else if unit in {"y", "yr", "yrs", "year", "years"} then 31_536_000_000
    else 0
  }

  /** The leading digits. */
  function DigitRun(s: string): (d: string)
    ensures |d| <= |s| && d == s[..|d|] && AllDigits(d)
    ensures |d| < |s| ==> !Digit(s[|d|])
  {
    if s == [] || !Digit(s[0]) then [] else [s[0]] + DigitRun(s[1..])
  }

  function DigitValue(c: char): nat
    requires Digit(c)
  {
    (c as int) - ('0' as int)
  }

  /** The number a string of digits denotes. */
  function Value(digits: string): nat
    requires AllDigits(digits)
  {
    if digits == [] then 0
    else 10 * Value(digits[..|digits| - 1]) + DigitValue(digits[|digits| - 1])
  }

  function Scale(n: nat): (r: real)
    ensures r >= 1.0
  {
    if n == 0 then 1.0 else 10.0 * Scale(n - 1)
  }

  function Mixed(whole: nat, fraction: nat, places: nat): real { whole as real + fraction as real / Scale(places) }

  /** A number with an optional fraction at the front, and what follows it. */
  function Amount(s: string): Option<(real, string)> {
    var whole := DigitRun(s);
    var rest := s[|whole|..];
    if whole == [] then None
    else if |rest| >= 2 && rest[0] == '.' && Digit(rest[1]) then
      var fraction := DigitRun(rest[1..]);
      Some((Mixed(Value(whole), Value(fraction), |fraction|), rest[1 + |fraction|..]))
    else Some((Value(whole) as real, rest))
  }

  function Times(amount: real, ms: nat): real { amount * ms as real }

  /** So many of a unit, in upper or lower case. */
  function InUnit(amount: real, unit: string): Option<real> {
    var ms := UnitMs(Lower(unit));
    if ms == 0 || amount <= 0.0 then None else Some(Times(amount, ms))
  }

  function ParseExpiryToMs(l: Locale, value: string): Option<real> {
    var trimmed := Trim(value, l.space);
    if trimmed == [] then None
    else if l.number(trimmed).Some? then
      if l.number(trimmed).value > 0.0 then Some(l.number(trimmed).value * 1000.0) else None
    else
      var amount := Amount(trimmed);
      if amount.None? then None else InUnit(amount.value.0, TrimStart(amount.value.1, l.space))
  }

  lemma {:induction false} RunOfDigits(digits: string, rest: string)
    requires AllDigits(digits) && (rest != [] ==> !Digit(rest[0]))
    ensures DigitRun(digits + rest) == digits
  {
    if digits == [] {
      assert digits + rest == rest;
    } else {
      assert (digits + rest)[1..] == digits[1..] + rest;
      RunOfDigits(digits[1..], rest);
    }
  }

  lemma {:induction false} SkipSpaces(l: Locale, gap: string, unit: string)
    requires (forall i | 0 <= i < |gap| :: l.space(gap[i])) && unit != [] && !l.space(unit[0])
    ensures TrimStart(gap + unit, l.space) == unit
  {
    if gap == [] {
      assert gap + unit == unit;
    } else {
      assert (gap + unit)[1..] == gap[1..] + unit;
      SkipSpaces(l, gap[1..], unit);
    }
  }

  lemma AmountIs(digits: string, rest: string)
    requires digits != [] && AllDigits(digits)
    requires rest != [] && !Digit(rest[0]) && rest[0] != '.'
    ensures Amount(digits + rest) == Some((Value(digits) as real, rest))
  {
    RunOfDigits(digits, rest);
    assert (digits + rest)[|digits|..] == rest;
  }

  lemma TrimIsIdle(l: Locale, s: string)
    requires s != [] && !l.space(s[0]) && !l.space(s[|s| - 1])
    ensures Trim(s, l.space) == s
  {}

  /** White space is no part of a number or a unit. */
  ghost predicate Sensible(l: Locale) { forall c | Digit(c) || Letter(c) || c == '.' :: !l.space(c) }

  predicate AllLetters(s: string) { forall i | 0 <= i < |s| :: Letter(s[i]) }

  predicate AllSpaces(l: Locale, s: string) { forall i | 0 <= i < |s| :: l.space(s[i]) }

  /** Where the parts of "digits, white space, unit" are found. */
  lemma PartsAre(l: Locale, digits: string, gap: string, unit: string)
    requires Sensible(l) && digits != [] && AllDigits(digits) && AllSpaces(l, gap) && unit != [] && AllLetters(unit)
    ensures var s := digits + (gap + unit);
            && s != [] && Trim(s, l.space) == s
            && Amount(s) == Some((Value(digits) as real, gap + unit))
            && TrimStart(gap + unit, l.space) == unit
  {
    var rest := gap + unit;
    var s := digits + rest;
    assert s[0] == digits[0] && s[|s| - 1] == unit[|unit| - 1] && Letter(unit[0]);
    assert rest[0] == if gap == [] then unit[0] else gap[0];
    hide Trim;
    hide TrimStart;
    hide Amount;
    hide Value;
    TrimIsIdle(l, s);
    AmountIs(digits, rest);
    SkipSpaces(l, gap, unit);
  }

  lemma InUnitIs(amount: real, unit: string)
    requires amount > 0.0 && UnitMs(Lower(unit)) > 0
    ensures InUnit(amount, unit) == Some(Times(amount, UnitMs(Lower(unit))))
  {
    hide UnitMs;
    hide Lower;
    hide Times;
  }

  /** Digits, any white space and a unit in upper or lower case are read as that many units, as long as `Number`
      does not take the whole for a number. */
  lemma ReadsUnits(l: Locale, digits: string, gap: string, unit: string)
    requires Sensible(l) && digits != [] && AllDigits(digits) && AllSpaces(l, gap) && unit != [] && AllLetters(unit)
    requires Value(digits) > 0 && UnitMs(Lower(unit)) > 0 && l.number(digits + (gap + unit)) == None
    ensures ParseExpiryToMs(l, digits + (gap + unit)) == Some(Times(Value(digits) as real, UnitMs(Lower(unit))))
  {
    hide Times;
    hide UnitMs;
    hide Lower;
    hide Value;
    hide Amount;
    hide Trim;
    hide TrimStart;
    hide Sensible;
    hide AllDigits;
    hide AllLetters;
    hide AllSpaces;
    PartsAre(l, digits, gap, unit);
    var s, amount := digits + (gap + unit), Value(digits) as real;
    InUnitIs(amount, unit);
    hide InUnit;
    var trimmed := Trim(s, l.space);
    assert trimmed == s && l.number(trimmed) == None;
    assert Amount(trimmed).value == (amount, gap + unit);
  }

  /** The units fit together, and each has its long and short names. */
  lemma UnitsFit()
    ensures UnitMs("ms") == UnitMs("msec") == UnitMs("msecs") == UnitMs("millisecond") == UnitMs("milliseconds") == 1
    ensures UnitMs("s") == UnitMs("sec") == UnitMs("secs") == UnitMs("second") == UnitMs("seconds") == 1_000
    ensures UnitMs("m") == UnitMs("min") == UnitMs("mins") == UnitMs("minute") == UnitMs("minutes") == 60 * UnitMs("s")
    ensures UnitMs("h") == UnitMs("hr") == UnitMs("hrs") == UnitMs("hour") == UnitMs("hours") == 60 * UnitMs("m")
    ensures UnitMs("d") == UnitMs("day") == UnitMs("days") == 24 * UnitMs("h")
    ensures UnitMs("w") == UnitMs("week") == UnitMs("weeks") == 7 * UnitMs("d")
    ensures UnitMs("y") == UnitMs("yr") == UnitMs("yrs") == UnitMs("year") == UnitMs("years") == 365 * UnitMs("d")
  {}

  /** What `Number` takes for a number is read as seconds, and as nothing when it is not positive; so is an empty
      setting, or one that begins with no digit. */
  lemma ReadsSeconds(l: Locale, value: string)
    ensures var s := Trim(value, l.space);
            && (s == [] ==> ParseExpiryToMs(l, value) == None)
            && (s != [] && l.number(s).Some? ==>
                  if l.number(s).value > 0.0 then ParseExpiryToMs(l, value) == Some(l.number(s).value * 1000.0)
                  else ParseExpiryToMs(l, value) == None)
            && (s != [] && l.number(s).None? && !Digit(s[0]) ==> ParseExpiryToMs(l, value) == None)
  {}

  lemma FractionParts(digits: string, fraction: string, rest: string)
    requires digits != [] && AllDigits(digits) && fraction != [] && AllDigits(fraction) && (rest != [] ==> !Digit(rest[0]))
    ensures var tail := "." + (fraction + rest);
            && DigitRun(digits + tail) == digits && (digits + tail)[|digits|..] == tail
            && |tail| >= 2 && tail[0] == '.' && Digit(tail[1])
            && tail[1..] == fraction + rest && DigitRun(tail[1..]) == fraction && tail[1 + |fraction|..] == rest
  {
    var tail := "." + (fraction + rest);
    RunOfDigits(digits, tail);
    RunOfDigits(fraction, rest);
    assert tail[1] == fraction[0] && tail[1..] == fraction + rest;
  }

  /** A fraction counts as its digits over a power of ten. */
  lemma AmountHasFraction(digits: string, fraction: string, rest: string)
    requires digits != [] && AllDigits(digits) && fraction != [] && AllDigits(fraction) && (rest != [] ==> !Digit(rest[0]))
    ensures Amount(digits + ("." + (fraction + rest)))
            == Some((Mixed(Value(digits), Value(fraction), |fraction|), rest))
  {
    hide Value;
    hide Mixed;
    hide DigitRun;
    hide AllDigits;
    hide Digit;
    FractionParts(digits, fraction, rest);
    var s := digits + ("." + (fraction + rest));
    var whole := DigitRun(s);
    var more := s[|whole|..];
    assert whole == digits && |more| >= 2 && more[0] == '.' && Digit(more[1]);
  }

  /** One place is tenths, and each further one a tenth of the one before. */
  lemma PlacesAreTenths(whole: nat, fraction: nat, n: nat)
    ensures Mixed(whole, fraction, 0) == (whole + fraction) as real
    ensures 10.0 * (Mixed(whole, fraction, n + 1) - whole as real) == Mixed(whole, fraction, n) - whole as real
  {
    var f, u := fraction as real, Scale(n);
    assert Scale(n + 1) == 10.0 * u && 10.0 * (f / (10.0 * u)) == f / u;
  }

  lemma YearParts()
    ensures "1" + ("" + "y") == "1y" && AllDigits("1") && AllLetters("y")
    ensures Value("1") == 1 && Lower("y") == "y" && UnitMs("y") == 31_536_000_000
  {
    assert "1"[..0] == "" && "y"[1..] == "";
  }

  /** The setting "1y" gives the cleanup 365 days. */
  lemma YearIs365Days(l: Locale)
    requires Sensible(l) && l.number("1y") == None
    ensures ParseExpiryToMs(l, "1y") == Some(31_536_000_000.0)
  {
    YearParts();
    hide ParseExpiryToMs;
    hide AllDigits;
    hide AllLetters;
    hide Value;
    hide Lower;
    hide UnitMs;
    hide Sensible;
    ReadsUnits(l, "1", "", "y");
  }

  /** With a JWT library that reads it as more, a cleanup deletes a row whose token still verifies, and some refresh
      notices. */
  lemma YearSettingShows(l: Locale, signTtl: nat)
    requires Sensible(l) && l.number("1y") == None && signTtl > 31_536_000_000
    ensures ParseExpiryToMs(l, "1y") == Some(31_536_000_000.0)
    ensures var c := AuthSessions.Config(signTtl, Some(31_536_000_000));
            !SessionCleanup.InvisibleOn(c, SessionCleanup.EarlySweep(c))
  {
    hide ParseExpiryToMs;
    YearIs365Days(l);
    SessionCleanup.EarlySweepShows(AuthSessions.Config(signTtl, Some(31_536_000_000)));
  }
}
