/** The pieces of the Python runtime that the integration leans on: optional values,
    the dynamic values a form field or a database cell can hold, `int()` applied to a
    float, truthiness, `str()` of an integer, zero padding and `str.strip()`. */
module PyRuntime {

  datatype Option<+T> = None | Some(value: T)

  /** A dynamic Python value as it reaches the integration from a form or a row.
      `PyStr` stands for text that `float()` rejects: numeric text is represented
      by the number it denotes, since string-to-float parsing is not modelled. */
  datatype PyValue = PyNone | PyInt(i: int) | PyFloat(x: real) | PyStr(s: string)

  /** `int(x)` for a float: truncation toward zero. */
  function Trunc(x: real): (n: int)
    ensures 0.0 <= x ==> n as real <= x < n as real + 1.0
    ensures x < 0.0 ==> n as real - 1.0 < x <= n as real
  {
    if x >= 0.0 then x.Floor else -((-x).Floor)
  }

  /** `x.is_integer()` for a float. */
  predicate IsIntegral(x: real) {
    x.Floor as real == x
  }

  /** `bool(v)` for a value that is None or a float: None and 0.0 are false. */
  predicate Truthy(v: Option<real>) {
    v.Some? && v.value != 0.0
  }

  /** `int(v) if v else None`, reading None as 0 because every caller then tests it
      with `not`, which treats None and 0 alike. */
  function IntField(v: Option<real>): (n: int)
    ensures n != 0 ==> Truthy(v) && n == Trunc(v.value)
    ensures Truthy(v) && (v.value <= -1.0 || 1.0 <= v.value) ==> n != 0
  {
    if Truthy(v) then Trunc(v.value) else 0
  }

  predicate IsDigit(c: char) {
    '0' <= c <= '9'
  }

  predicate AllDigits(s: string) {
    forall k :: 0 <= k < |s| ==> IsDigit(s[k])
  }

  function DigitChar(k: int): (c: char)
    requires 0 <= k < 10
    ensures IsDigit(c) && c as int - '0' as int == k
  {
    (k + '0' as int) as char
  }

  /** The number a string of decimal digits denotes (leading zeros allowed). */
  function DigitsValue(s: string): nat
    requires AllDigits(s)
  {
    if s == [] then 0 else DigitsValue(s[..|s| - 1]) * 10 + (s[|s| - 1] as int - '0' as int)
  }

  /** `str(n)` for a non-negative integer. */
  function NatToString(n: nat): (s: string)
    ensures 1 <= |s| && AllDigits(s)
    ensures |s| > 1 ==> s[0] != '0'
  {
    if n < 10 then [DigitChar(n)] else NatToString(n / 10) + [DigitChar(n % 10)]
  }

  /** The shape of `str(n)` for an integer: an optional minus sign, then digits. */
  predicate IntText(s: string) {
    1 <= |s| && (s[0] == '-' || IsDigit(s[0])) && forall k :: 0 < k < |s| ==> IsDigit(s[k])
  }

  /** `str(n)` for any integer. */
  function IntToString(n: int): (s: string)
    ensures IntText(s)
    ensures s[0] == '-' <==> n < 0
  {
    if n < 0 then "-" + NatToString(-n) else NatToString(n)
  }

  /** `int(s)` for the strings `str` produces for integers: the partner of IntToString. */
  function ParseInt(s: string): int
    requires IntText(s)
  {
    if s[0] == '-' then -(DigitsValue(s[1..]) as int) else DigitsValue(s)
  }

  lemma {:induction false} NatToStringRoundTrip(n: nat)
    ensures DigitsValue(NatToString(n)) == n
  {
    if n >= 10 {
      var s := NatToString(n);
      assert s[..|s| - 1] == NatToString(n / 10);
      NatToStringRoundTrip(n / 10);
    }
  }

  /** `int(str(n)) == n`: the decimal rendering loses nothing. */
  lemma IntToStringRoundTrip(n: int)
    ensures ParseInt(IntToString(n)) == n
  {
    if n < 0 {
      assert IntToString(n)[1..] == NatToString(-n);
      NatToStringRoundTrip(-n);
    } else {
      NatToStringRoundTrip(n);
    }
  }

  function Pow10(k: nat): nat {
    if k == 0 then 1 else 10 * Pow10(k - 1)
  }

  lemma {:induction false} NatToStringLength(n: nat, k: nat)
    requires 1 <= k && n < Pow10(k)
    ensures |NatToString(n)| <= k
  {
    if n >= 10 {
      assert Pow10(1) == 10;
      assert n / 10 < Pow10(k - 1);
      NatToStringLength(n / 10, k - 1);
    }
  }

  function Zeros(k: nat): (s: string)
    ensures |s| == k && AllDigits(s)
  {
    if k == 0 then "" else Zeros(k - 1) + "0"
  }

  /** `str(n)` left-padded with zeros to `width` characters, as `%02d`/`%04d` print it. */
  function ZeroPad(n: nat, width: nat): (s: string)
    requires 1 <= width && n < Pow10(width)
    ensures |s| == width && AllDigits(s)
    ensures DigitsValue(s) == n
  {
    NatToStringLength(n, width);
    var digits := NatToString(n);
    NatToStringRoundTrip(n);
    LeadingZeros(width - |digits|, digits);
    Zeros(width - |digits|) + digits
  }

  lemma {:induction false} LeadingZeros(k: nat, s: string)
    requires AllDigits(s)
    ensures AllDigits(Zeros(k) + s) && DigitsValue(Zeros(k) + s) == DigitsValue(s)
    decreases k, |s|
  {
    var t := Zeros(k) + s;
    assert AllDigits(t) by {
      forall i | 0 <= i < |t| ensures IsDigit(t[i]) {
        if i >= k { assert t[i] == s[i - k]; }
      }
    }
    if s == [] {
      assert t == Zeros(k);
      if k > 0 {
        assert t[..|t| - 1] == Zeros(k - 1) + [];
        LeadingZeros(k - 1, []);
      }
    } else {
      var init := s[..|s| - 1];
      assert t[..|t| - 1] == Zeros(k) + init;
      LeadingZeros(k, init);
    }
  }

  /** Python's `str.isspace()` for one character. */
  predicate IsSpace(c: char) {
    c == ' ' || ('\t' <= c <= '\r') || ('\U{1C}' <= c <= '\U{1F}') || c == '\U{85}' || c == '\U{A0}'
    || c == '\U{1680}' || ('\U{2000}' <= c <= '\U{200A}') || c == '\U{2028}' || c == '\U{2029}'
    || c == '\U{202F}' || c == '\U{205F}' || c == '\U{3000}'
  }

  /** `s.strip() == ""`: the string holds nothing but whitespace. */
  predicate Blank(s: string) {
    forall k :: 0 <= k < |s| ==> IsSpace(s[k])
  }
}
