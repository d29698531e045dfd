/** Application-wide constants of helpers/globals.js: lengths of time in
    milliseconds, the registration length limits, the bcrypt cost, and the
    three field lists used to project a user into a profile. The values the
    process reads from its environment are not part of this model. */
module Globals {

  // Useful lengths of time
  const OneSecondInMilliseconds: nat := 1000
  const OneMinuteInMilliseconds: nat := 60 * OneSecondInMilliseconds
  const OneHourInMilliseconds: nat := 60 * OneMinuteInMilliseconds
  const OneDayInMilliseconds: nat := 24 * OneHourInMilliseconds
  const OneWeekInMilliseconds: nat := 7 * OneDayInMilliseconds
  const OneMonthInMilliseconds: nat := 30 * OneDayInMilliseconds
  const OneYearInMilliseconds: nat := 365 * OneDayInMilliseconds

  // Standardised across the application
  const LoginExpirationTime: nat := OneWeekInMilliseconds
  const PasswordResetTime: nat := 15 * OneMinuteInMilliseconds
  const MinimumPasswordLength: nat := 6
  const MaximumUsernameLength: nat := 20
  const SaltRounds: nat := 10

  const PrivateProfileFields: seq<string> := ["id", "username", "email", "bio"]
  const PublicProfileFields: seq<string> := ["id", "username", "bio"]
  const SummaryProfileFields: seq<string> := ["id", "username", "bio"]

  /** The field list with every occurrence of `name` removed, order kept. */
  function Without(fields: seq<string>, name: string): (r: seq<string>)
    ensures forall f :: f in r <==> f in fields && f != name
    ensures |r| <= |fields|
  {
    if |fields| == 0 then []
    else if fields[0] == name then Without(fields[1..], name)
    else [fields[0]] + Without(fields[1..], name)
  }

  predicate AllDigits(r: string)
  {
    forall i :: 0 <= i < |r| ==> '0' <= r[i] <= '9'
  }

  /** The number a string of decimal digits denotes. */
  function DigitsValue(r: string): nat
    requires AllDigits(r)
  {
    if |r| == 0 then 0
    else 10 * DigitsValue(r[..|r| - 1]) + (r[|r| - 1] as int - '0' as int)
  }

  /** Decimal rendering of a natural number, as JavaScript's string
      concatenation renders an integer: digits only, no leading zero, and
      denoting the number. */
  function DecimalString(n: nat): (r: string)
    ensures |r| >= 1 && AllDigits(r)
    ensures DigitsValue(r) == n
    ensures |r| > 1 ==> r[0] != '0'
  {
    if n < 10 then [DigitChar(n)]
    else
      var prefix := DecimalString(n / 10);
      var r := prefix + [DigitChar(n % 10)];
      assert r[..|r| - 1] == prefix;
      r
  }

  function DigitChar(d: nat): (c: char)
    requires d < 10
    ensures '0' <= c <= '9'
    ensures c as int - '0' as int == d
  {
    ['0', '1', '2', '3', '4', '5', '6', '7', '8', '9'][d]
  }

  lemma TimeConstants()
    ensures OneWeekInMilliseconds == 7 * 24 * 60 * 60 * 1000 == 604800000
    ensures LoginExpirationTime == OneWeekInMilliseconds
    ensures PasswordResetTime == 15 * 60 * 1000 == 900000
    ensures OneMonthInMilliseconds == 30 * OneDayInMilliseconds == 2592000000
    ensures OneYearInMilliseconds == 365 * OneDayInMilliseconds == 31536000000
  {
  }

  lemma LengthLimits()
    ensures MinimumPasswordLength == 6 && DecimalString(MinimumPasswordLength) == "6"
    ensures MaximumUsernameLength == 20 && DecimalString(MaximumUsernameLength) == "20"
    ensures SaltRounds == 10
  {
  }

  /** The public list is the private list without "email"; the summary list
      is the public list. */
  lemma ProfileFieldLists()
    ensures PublicProfileFields == Without(PrivateProfileFields, "email")
    ensures SummaryProfileFields == PublicProfileFields
    ensures "email" in PrivateProfileFields && "email" !in PublicProfileFields
    ensures forall f :: f in PublicProfileFields ==> f in PrivateProfileFields
  {
  }
}
