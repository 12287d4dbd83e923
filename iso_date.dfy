/**
 * The date-only form of the ECMAScript Date Time String Format
 * (section 21.4.1.15 of ECMA-262, 2022 edition): `YYYY-MM-DD`, with four
 * year digits, a month from 01 to 12 and a day that exists in that month
 * of the proleptic Gregorian calendar; and what the model assumes of
 * `Date.parse`, which it otherwise leaves abstract.
 */
module IsoDate {
  import opened JsString
  import opened JsValue

  predicate IsLeapYear(y: nat) {
    y % 4 == 0 && (y % 100 != 0 || y % 400 == 0)
  }

  function DaysInMonth(y: nat, m: nat): (d: nat)
    requires 1 <= m <= 12
    ensures 28 <= d <= 31
  {
    if m == 2 then (if IsLeapYear(y) then 29 else 28)
    else if m == 4 || m == 6 || m == 9 || m == 11 then 30
    else 31
  }

  /** `s` is a calendar date written as `YYYY-MM-DD`. */
  predicate IsIsoDate(s: string) {
    && |s| == 10
    && MatchesDigits(s[..4], 4) && s[4] == '-'
    && MatchesDigits(s[5..7], 2) && s[7] == '-'
    && MatchesDigits(s[8..], 2)
    && var y, m, d := DecimalValue(s[..4]), DecimalValue(s[5..7]), DecimalValue(s[8..]);
       1 <= m <= 12 && 1 <= d <= DaysInMonth(y, m)
  }

  /**
   * The three ways `Date.parse(v)` can end: a time value, NaN, or a
   * TypeError thrown while converting `v` to a string.
   */
  datatype DateParse = ParsedTime | NotANumber | Throws

  /** Every string in the date-only format parses to a time value. */
  ghost predicate AcceptsIsoDates(parse: JsValue -> DateParse) {
    forall s :: IsIsoDate(s) ==> parse(Str(s)) == ParsedTime
  }

  /**
   * The parser throws exactly when converting its argument to a string
   * throws; parsing the resulting string never does.
   */
  ghost predicate ThrowsOnlyInConversion(parse: JsValue -> DateParse) {
    forall v :: parse(v) == Throws <==> ToStringThrows(v)
  }
}
