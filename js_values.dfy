/** The slice of JavaScript value semantics the pages rely on: the values a decoded
    contract tuple can hold, truthiness, `??`, `String(...)`, `toLowerCase()` and the
    `/^\d+$/` test, with decimal text written out exactly. */
module JsValues {
  import opened Wrappers

  /** A JavaScript number as `Number(...)` produces it; finite values are kept as exact reals. */
  datatype JsNumber = NaN | PosInfinity | NegInfinity | Finite(r: real)

  /** A field of a decoded contract result (web3 gives bigints for uint256, booleans for
      bool and strings for address and string outputs), or of a parsed JSON document. */
  datatype JsValue = Undefined | Null | Bool(b: bool) | BigInt(i: int) | Str(s: string)

  /** JavaScript truthiness. */
  function Truthy(v: JsValue): (t: bool)
    ensures !t <==> v == Undefined || v == Null || v == Bool(false) || v == BigInt(0) || v == Str("")
  {
    match v
    case Undefined => false
    case Null => false
    case Bool(b) => b
    case BigInt(i) => i != 0
    case Str(s) => s != ""
  }

  /** `v ?? fallback`: the fallback replaces null and undefined only. */
  function Coalesce(v: JsValue, fallback: JsValue): (r: JsValue)
    ensures v.Undefined? || v.Null? ==> r == fallback
    ensures v == Bool(false) || v == BigInt(0) || v == Str("") ==> r == v
    ensures Truthy(v) ==> r == v
  {
    if v.Undefined? || v.Null? then fallback else v
  }

  // ---------------------------------------------------------------- case folding

  predicate IsUpper(c: char) { 'A' <= c <= 'Z' }

  function LowerChar(c: char): char {
    if IsUpper(c) then (c as int + 32) as char else c
  }

  /** `toLowerCase()` restricted to ASCII, which is all a hexadecimal address holds. */
  function Lower(s: string): (r: string)
    ensures |r| == |s|
    ensures forall i :: 0 <= i < |r| ==> !IsUpper(r[i])
    ensures forall i :: 0 <= i < |s| && !IsUpper(s[i]) ==> r[i] == s[i]
    ensures forall i :: 0 <= i < |s| && IsUpper(s[i]) ==> r[i] as int == s[i] as int + 32
  {
    seq(|s|, i requires 0 <= i < |s| => LowerChar(s[i]))
  }

  /** Two addresses name the same party when they agree after lower-casing. */
  predicate SameAddress(a: string, b: string) {
    Lower(a) == Lower(b)
  }

  /** `v.toLowerCase()`: a TypeError (None) unless `v` is a string. */
  function LowerCaseOf(v: JsValue): (r: Option<string>)
    ensures r.Some? <==> v.Str?
    ensures v.Str? ==> r == Some(Lower(v.s))
  {
    match v
    case Str(s) => Some(Lower(s))
    case _ => None
  }

  lemma LowerIdempotent(s: string)
    ensures Lower(Lower(s)) == Lower(s)
  {
  }

  /** Case-insensitive comparison is an equivalence, so "is the renter" and "is the
      owner" do not depend on which side is written in which case. */
  lemma SameAddressIsEquivalence(a: string, b: string, c: string)
    ensures SameAddress(a, a)
    ensures SameAddress(a, b) ==> SameAddress(b, a)
    ensures SameAddress(a, b) && SameAddress(b, c) ==> SameAddress(a, c)
  {
  }

  /** Lower-casing folds each letter to one representative: two strings compare equal
      exactly when they agree position by position up to the case of ASCII letters. */
  lemma {:induction false} SameAddressCharwise(a: string, b: string)
    ensures SameAddress(a, b) <==> |a| == |b| && forall i :: 0 <= i < |a| ==> LowerChar(a[i]) == LowerChar(b[i])
  {
    if SameAddress(a, b) {
      forall i | 0 <= i < |a|
        ensures LowerChar(a[i]) == LowerChar(b[i])
      {
        assert Lower(a)[i] == Lower(b)[i];
      }
    }
  }

  /** A check-summed address and its lower-case spelling are the same party. */
  lemma MixedCaseAddressesMatch()
    ensures SameAddress("0xABCdef01", "0xabcDEF01")
    ensures !SameAddress("0xABC", "0xABD")
  {
    assert Lower("0xABC")[4] == 'c';
    assert Lower("0xABD")[4] == 'd';
  }

  // ---------------------------------------------------------------- decimal text

  predicate IsDigit(c: char) { '0' <= c <= '9' }

  predicate DigitsOnly(s: string) {
    forall i :: 0 <= i < |s| ==> IsDigit(s[i])
  }

  /** The regular expression `/^\d+$/`: one or more ASCII digits and nothing else. */
  predicate AllDigits(s: string) {
    |s| > 0 && DigitsOnly(s)
  }

  function DigitChar(d: nat): (c: char)
    requires d < 10
    ensures IsDigit(c) && c as int - '0' as int == d
  {
    ('0' as int + d) as char
  }

  /** The value a string of digits denotes. */
  function DecimalValue(s: string): nat
    requires DigitsOnly(s)
  {
    if s == [] then 0 else 10 * DecimalValue(s[..|s| - 1]) + (s[|s| - 1] as int - '0' as int)
  }

  /** `n.toString()` for a non-negative bigint: digits only, no leading zero. */
  function NatToDecimal(n: nat): (s: string)
    ensures AllDigits(s)
    ensures s[0] == '0' <==> n == 0
    decreases n
  {
    if n < 10 then [DigitChar(n)] else NatToDecimal(n / 10) + [DigitChar(n % 10)]
  }

  /** Printing then reading back a decimal gives the number again. */
  lemma {:induction false} DecimalRoundTrip(n: nat)
    ensures DecimalValue(NatToDecimal(n)) == n
  {
    if n >= 10 {
      var s := NatToDecimal(n / 10);
      var t := NatToDecimal(n);
      assert t == s + [DigitChar(n % 10)];
      assert t[..|t| - 1] == s;
      DecimalRoundTrip(n / 10);
    }
  }

  /** Distinct numbers print as distinct strings. */
  lemma DecimalInjective(a: nat, b: nat)
    ensures NatToDecimal(a) == NatToDecimal(b) ==> a == b
  {
    DecimalRoundTrip(a);
    DecimalRoundTrip(b);
  }

  /** `i.toString()` for any bigint. */
  function IntToDecimal(i: int): (s: string)
    ensures i >= 0 ==> AllDigits(s) && DecimalValue(s) == i
    ensures i >= 0 ==> (s[0] == '0' <==> i == 0)
    ensures i < 0 ==> |s| > 1 && s[0] == '-' && AllDigits(s[1..]) && DecimalValue(s[1..]) == -i
    ensures i < 0 ==> s[1] != '0'
  {
    DecimalRoundTrip(if i >= 0 then i else -i);
    if i >= 0 then NatToDecimal(i) else "-" + NatToDecimal(-i)
  }

  /** `String(v)`, which is also what a template literal `${v}` inserts. */
  function ToText(v: JsValue): (t: string)
    ensures v.Str? ==> t == v.s
    ensures v.BigInt? && v.i >= 0 ==> AllDigits(t) && DecimalValue(t) == v.i && (t[0] == '0' <==> v.i == 0)
    ensures v.BigInt? && v.i < 0 ==> |t| > 1 && t[0] == '-'
    ensures v.Undefined? ==> t == "undefined"
    ensures v.Null? ==> t == "null"
  {
    match v
    case Undefined => "undefined"
    case Null => "null"
    case Bool(b) => if b then "true" else "false"
    case BigInt(i) => IntToDecimal(i)
    case Str(s) => s
  }
}
