/**
 * The text conventions the gateway relies on: NUL-terminated C strings
 * (the MQTT payload is cut at `length` and read back with `(char *)`, topics
 * are compared with `strcmp`, a `String` is published through `c_str()`), and
 * the decimal rendering `String(int)` used for the radio's signal strength.
 */
module CStrings {

  const NUL: char := '\0'

  /** The C string a character buffer denotes: everything before the first NUL. */
  function CString(s: string): (r: string)
    ensures |r| <= |s| && r == s[..|r|]
    ensures forall i :: 0 <= i < |r| ==> r[i] != NUL
    ensures |r| < |s| ==> s[|r|] == NUL
  {
    if s == [] || s[0] == NUL then [] else [s[0]] + CString(s[1..])
  }

  /** The buffer holds no NUL character. */
  predicate NoNul(s: string)
  {
    forall i :: 0 <= i < |s| ==> s[i] != NUL
  }

  /** A buffer with no NUL is read back whole. */
  lemma CStringOfPlain(s: string)
    requires NoNul(s)
    ensures CString(s) == s
  {
  }

  /** `strcmp(a, b) == 0`: the two buffers hold the same C string. */
  predicate SameCString(a: string, b: string)
  {
    CString(a) == CString(b)
  }

  /** For NUL-free strings `strcmp` equality is plain equality, both ways. */
  lemma SameCStringPlain(a: string, b: string)
    requires NoNul(a) && NoNul(b)
    ensures SameCString(a, b) <==> a == b
  {
  }

  predicate IsDigit(c: char)
  {
    '0' <= c <= '9'
  }

  function DigitChar(d: nat): (c: char)
    requires d < 10
    ensures IsDigit(c)
  {
    ('0' as int + d) as char
  }

  /** The base-10 digits of a natural number, most significant first. */
  function NatDigits(n: nat): (r: string)
    ensures 1 <= |r|
    ensures forall i :: 0 <= i < |r| ==> IsDigit(r[i])
    ensures r[0] == '0' ==> n == 0
    decreases n
  {
    if n < 10 then [DigitChar(n)] else NatDigits(n / 10) + [DigitChar(n % 10)]
  }

  /** `String(int)`: a minus sign for negative numbers, then the digits without leading zeros. */
  function Decimal(n: int): (r: string)
    ensures 1 <= |r|
    ensures r[0] == '-' <==> n < 0
    ensures forall i :: (if n < 0 then 1 else 0) <= i < |r| ==> IsDigit(r[i])
    ensures n < 0 ==> 2 <= |r| && r[1] != '0'
    ensures n >= 0 && r[0] == '0' ==> r == "0"
  {
    if n < 0 then "-" + NatDigits(-n) else NatDigits(n)
  }

  /** Reference reading of a digit string, last digit least significant. */
  function DigitsValue(s: string): int
  {
    if s == [] then 0 else DigitsValue(s[..|s| - 1]) * 10 + (s[|s| - 1] as int - '0' as int)
  }

  /** Reference reading of a decimal string with an optional leading minus sign. */
  function DecimalValue(s: string): int
  {
    if |s| > 0 && s[0] == '-' then -DigitsValue(s[1..]) else DigitsValue(s)
  }

  lemma {:induction false} NatDigitsValue(n: nat)
    ensures DigitsValue(NatDigits(n)) == n
    decreases n
  {
    if n >= 10 {
      NatDigitsValue(n / 10);
      var r := NatDigits(n);
      assert r[..|r| - 1] == NatDigits(n / 10);
    }
  }

  /** The rendered signal strength reads back as the number it came from. */
  lemma DecimalRoundTrip(n: int)
    ensures DecimalValue(Decimal(n)) == n
  {
    if n < 0 {
      NatDigitsValue(-n);
      assert Decimal(n)[1..] == NatDigits(-n);
    } else {
      NatDigitsValue(n);
    }
  }
}
