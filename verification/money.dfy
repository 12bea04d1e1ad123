/** Money amounts. The backend stores `prezzo_notte` as a Decimal with two
    decimal places and the frontend as a JavaScript number; both are modelled
    as an integer count of cents. */
module Money {
  import opened Wrappers
  import opened Text

  /** One euro in cents. */
  const CentsPerEuro: nat := 100

  function DigitChar(d: nat): (c: char)
    requires d < 10
    ensures IsAsciiDigit(c)
  {
    ('0' as int + d) as char
  }

  function DigitValue(c: char): (d: nat)
    requires IsAsciiDigit(c)
    ensures d < 10
  {
    c as int - '0' as int
  }

  predicate AllDigits(s: string) {
    forall i :: 0 <= i < |s| ==> IsAsciiDigit(s[i])
  }

  /** Decimal digits of `n`, most significant first, without leading zeros. */
  function NatDigits(n: nat): (s: string)
    ensures |s| > 0 && AllDigits(s)
    decreases n
  {
    if n < 10 then [DigitChar(n)] else NatDigits(n / 10) + [DigitChar(n % 10)]
  }

  /** The number a string of decimal digits denotes. */
  function DigitsValue(s: string): nat
    requires AllDigits(s)
  {
    if s == [] then 0 else DigitsValue(s[..|s| - 1]) * 10 + DigitValue(s[|s| - 1])
  }

  /** An amount of cents written with two decimal places, as Python's
      `str()` prints a two-place Decimal and JavaScript's `toFixed(2)`
      prints a number: optional minus sign, integer part, point, two digits. */
  function RenderCents(c: int): string {
    var a := if c < 0 then -c else c;
    (if c < 0 then "-" else "") + NatDigits(a / CentsPerEuro) + "."
      + [DigitChar(a % CentsPerEuro / 10), DigitChar(a % CentsPerEuro % 10)]
  }

  /** Reads back an unsigned "<digits>.<two digits>" string. */
  function ParseUnsigned(s: string): Option<int> {
    if |s| >= 4 && s[|s| - 3] == '.' && AllDigits(s[..|s| - 3]) && AllDigits(s[|s| - 2..])
    then Some(DigitsValue(s[..|s| - 3]) * CentsPerEuro + DigitsValue(s[|s| - 2..]))
    else None
  }

  /** Reads back an amount written by `RenderCents`. */
  function ParseCents(s: string): Option<int> {
    if |s| > 0 && s[0] == '-' then
      match ParseUnsigned(s[1..])
      case None => None
      case Some(v) => Some(-v)
    else
      ParseUnsigned(s)
  }

  lemma {:induction false} DigitsValueOfNatDigits(n: nat)
    ensures DigitsValue(NatDigits(n)) == n
    decreases n
  {
    if n >= 10 {
      var s := NatDigits(n);
      assert s[..|s| - 1] == NatDigits(n / 10);
      DigitsValueOfNatDigits(n / 10);
    }
  }

  lemma TwoDigitsValue(d1: nat, d0: nat)
    requires d1 < 10 && d0 < 10
    ensures DigitsValue([DigitChar(d1), DigitChar(d0)]) == d1 * 10 + d0
  {
    var fp := [DigitChar(d1), DigitChar(d0)];
    assert fp[..1] == [DigitChar(d1)];
    assert [DigitChar(d1)][..0] == [];
    assert DigitValue(DigitChar(d1)) == d1;
    assert DigitValue(DigitChar(d0)) == d0;
    assert DigitsValue([DigitChar(d1)]) == d1;
    assert DigitsValue(fp) == DigitsValue(fp[..1]) * 10 + DigitValue(fp[1]);
  }

  /** An integer part and two decimal digits read back as their value. */
  lemma ParseUnsignedOfParts(q: nat, d1: nat, d0: nat)
    requires d1 < 10 && d0 < 10
    ensures ParseUnsigned(NatDigits(q) + "." + [DigitChar(d1), DigitChar(d0)])
              == Some(q * CentsPerEuro + (d1 * 10 + d0))
  {
    var ip := NatDigits(q);
    var fp := [DigitChar(d1), DigitChar(d0)];
    var s := ip + "." + fp;
    assert |s| == |ip| + 3;
    assert s[..|s| - 3] == ip;
    assert s[|s| - 2..] == fp;
    assert s[|s| - 3] == '.';
    DigitsValueOfNatDigits(q);
    TwoDigitsValue(d1, d0);
  }

  lemma ParseUnsignedOfRender(a: nat)
    ensures ParseUnsigned(NatDigits(a / CentsPerEuro) + "."
              + [DigitChar(a % CentsPerEuro / 10), DigitChar(a % CentsPerEuro % 10)]) == Some(a)
  {
    var r := a % CentsPerEuro;
    ParseUnsignedOfParts(a / CentsPerEuro, r / 10, r % 10);
    assert r / 10 * 10 + r % 10 == r;
  }

  /** Rendering an amount loses nothing: reading the text back gives the
      same number of cents. */
  lemma RenderCentsRoundTrip(c: int)
    ensures ParseCents(RenderCents(c)) == Some(c)
  {
    var a := if c < 0 then -c else c;
    ParseUnsignedOfRender(a);
    var u := NatDigits(a / CentsPerEuro) + "."
               + [DigitChar(a % CentsPerEuro / 10), DigitChar(a % CentsPerEuro % 10)];
    if c < 0 {
      assert RenderCents(c) == "-" + u;
      assert RenderCents(c)[1..] == u;
    } else {
      assert RenderCents(c) == u;
      assert u[0] != '-';
    }
  }
}
