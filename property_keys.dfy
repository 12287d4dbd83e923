/**
 * Property keys of an ordinary JavaScript object. `Object.values` lists an
 * object's own properties in the order of OrdinaryOwnPropertyKeys
 * (section 10.1.11.1 of ECMA-262, 2022 edition): array indices first, in
 * ascending numeric order, then the other string keys in the order they
 * were created. A key that is not an array index is therefore listed in
 * insertion order.
 */
module PropertyKeys {
  import opened JsString

  /** 2^32 - 2, the largest array index. */
  const MaxArrayIndex: nat := 0xFFFF_FFFE

  /**
   * An array index is a canonical numeric string of an integer from 0 to
   * 2^32 - 2: decimal digits without a leading zero (except "0" itself)
   * whose value is in range.
   */
  predicate IsArrayIndex(k: string) {
    && k != []
    && (forall i :: 0 <= i < |k| ==> IsDigit(k[i]))
    && (k[0] != '0' || |k| == 1)
    && DecimalValue(k) <= MaxArrayIndex
  }

  function Pow10(n: nat): (p: nat)
    ensures p >= 1
  {
    if n == 0 then 1 else 10 * Pow10(n - 1)
  }

  /** A digit string that does not start with '0' is at least 10^(length - 1). */
  lemma {:induction false} LeadingDigitBound(s: string)
    requires s != [] && s[0] != '0'
    requires forall i :: 0 <= i < |s| ==> IsDigit(s[i])
    ensures DecimalValue(s) >= Pow10(|s| - 1)
  {
    if |s| > 1 {
      var prefix := s[..|s| - 1];
      assert prefix[0] == s[0];
      LeadingDigitBound(prefix);
    }
  }

  /**
   * No string that passes `/^\d{11}$/` is an array index: either it starts
   * with '0' and is not canonical, or it is at least 10^10.
   */
  lemma CpfIsNotArrayIndex(k: string)
    requires MatchesDigits(k, 11)
    ensures !IsArrayIndex(k)
  {
    if k[0] != '0' {
      LeadingDigitBound(k);
      assert Pow10(2) == 100 && Pow10(4) == 10_000 && Pow10(6) == 1_000_000;
      assert Pow10(8) == 100_000_000 && Pow10(10) == 10_000_000_000;
    }
  }
}
