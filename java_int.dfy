/**
 * Java's 32-bit `int`: its range, the wrap-around of `+`/`-`/`++`, and the
 * decimal text conversions the core relies on (`Integer.toString`, `%d`,
 * `String + int`, and `Integer.parseInt` with radix 10).
 */
module JavaInt {
  import opened Wrappers

  const INT_MIN: int := -0x8000_0000
  const INT_MAX: int := 0x7fff_ffff
  const MODULUS: int := 0x1_0000_0000

  predicate IsInt(n: int) {
    INT_MIN <= n <= INT_MAX
  }

  /** The value a Java `int` holds after an arithmetic result `n` is stored. */
  function Wrap(n: int): (r: int)
    ensures IsInt(r)
    ensures IsInt(n) ==> r == n
    ensures (r - n) % MODULUS == 0
  {
    (n - INT_MIN) % MODULUS + INT_MIN
  }

  lemma WrapOverflow(n: int)
    requires n == INT_MAX + 1
    ensures Wrap(n) == INT_MIN
  {
  }

  lemma WrapUnderflow(n: int)
    requires n == INT_MIN - 1
    ensures Wrap(n) == INT_MAX
  {
  }

  // ----- decimal digits -----

  predicate IsDigit(c: char) {
    '0' <= c <= '9'
  }

  predicate AllDigits(s: string) {
    forall i :: 0 <= i < |s| ==> IsDigit(s[i])
  }

  function DigitChar(d: nat): (c: char)
    requires d < 10
    ensures IsDigit(c)
  {
    ('0' as int + d) as char
  }

  function DigitValue(c: char): (d: nat)
    requires IsDigit(c)
    ensures d < 10 && DigitChar(d) == c
  {
    c as int - '0' as int
  }

  /** The decimal digits of `n`, most significant first, without leading zeros. */
  function NatToDigits(n: nat): (s: string)
    ensures |s| >= 1 && AllDigits(s)
    decreases n
  {
    if n < 10 then [DigitChar(n)] else NatToDigits(n / 10) + [DigitChar(n % 10)]
  }

  /** The number a string of decimal digits denotes (leading zeros allowed). */
  function DigitsValue(s: string): nat
    requires AllDigits(s)
  {
    if s == [] then 0 else DigitsValue(s[..|s| - 1]) * 10 + DigitValue(s[|s| - 1])
  }

  lemma {:induction false} DigitsRoundTrip(n: nat)
    ensures DigitsValue(NatToDigits(n)) == n
    decreases n
  {
    if n >= 10 {
      var s := NatToDigits(n);
      assert s[..|s| - 1] == NatToDigits(n / 10);
      DigitsRoundTrip(n / 10);
    }
  }

  /** `Integer.toString(n)`, also what `%d` and `"" + n` print. */
  function IntToString(n: int): (s: string)
    ensures |s| >= 1 && s[0] != '+'
    ensures n >= 0 <==> IsDigit(s[0])
    ensures forall i :: 0 <= i < |s| ==> s[i] != ',' && s[i] != ' '
  {
    if n < 0 then "-" + NatToDigits(-n) else NatToDigits(n)
  }

  /**
   * `Integer.parseInt(s)`: an optional '+' or '-', then one or more decimal
   * digits, denoting a value in the `int` range; anything else is a
   * NumberFormatException (None).
   */
  function ParseInt(s: string): (r: Option<int>)
    ensures r.Some? ==> IsInt(r.value)
    ensures r.Some? ==> |s| >= 1 && (s[0] == '-' || s[0] == '+' || IsDigit(s[0]))
    ensures s == [] || s == "-" || s == "+" ==> r.None?
    ensures AllDigits(s) && s != [] && DigitsValue(s) <= INT_MAX ==> r == Some(DigitsValue(s))
  {
    if s == [] then None
    else
      var digits := if s[0] == '-' || s[0] == '+' then s[1..] else s;
      if digits == [] || !AllDigits(digits) then None
      else
        var v: int := if s[0] == '-' then -(DigitsValue(digits) as int) else DigitsValue(digits);
        if IsInt(v) then Some(v) else None
  }

  /** Formatting and then parsing an `int` gives it back. */
  lemma ParseIntToString(n: int)
    requires IsInt(n)
    ensures ParseInt(IntToString(n)) == Some(n)
  {
    var s := IntToString(n);
    if n < 0 {
      var d := NatToDigits(-n);
      assert s[0] == '-' && s[1..] == d;
      DigitsRoundTrip(-n);
    } else {
      assert IsDigit(s[0]);
      DigitsRoundTrip(n);
    }
  }

  lemma NatToDigitsInjective(a: nat, b: nat)
    requires NatToDigits(a) == NatToDigits(b)
    ensures a == b
  {
    DigitsRoundTrip(a);
    DigitsRoundTrip(b);
  }

  /** Distinct integers print differently. */
  lemma IntToStringInjective(m: int, n: int)
    requires IntToString(m) == IntToString(n)
    ensures m == n
  {
    if m < 0 {
      assert n < 0;
      var s := IntToString(m);
      assert NatToDigits(-m) == s[1..];
      assert NatToDigits(-n) == s[1..];
      NatToDigitsInjective(-m, -n);
    } else {
      assert n >= 0;
      NatToDigitsInjective(m, n);
    }
  }
}
