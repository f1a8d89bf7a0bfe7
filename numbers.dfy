/** Numeric coercion and rounding as the pipeline uses them:
    `pd.to_numeric(..., errors='coerce').fillna(0)`, `.astype(int)` on a float,
    numpy's `round(0)` and `round(2)`. Numbers are exact reals. */
module Numbers {
  import opened Wrappers
  import Text

  predicate IsDigit(c: char) {
    '0' <= c <= '9'
  }

  predicate AllDigits(s: string) {
    forall i :: 0 <= i < |s| ==> IsDigit(s[i])
  }

  /** The value of a string of decimal digits (the empty string is 0). */
  function DigitsValue(s: string): nat
    requires AllDigits(s)
    decreases |s|
  {
    if s == [] then 0 else 10 * DigitsValue(s[..|s| - 1]) + (s[|s| - 1] as int - '0' as int)
  }

  function Pow10(k: nat): (p: nat)
    ensures p > 0
  {
    if k == 0 then 1 else 10 * Pow10(k - 1)
  }

  /** An unsigned decimal: digits with at most one '.', and at least one digit. */
  function ParseUnsigned(s: string): Option<real> {
    match Text.Find(s, '.')
    case None =>
      if s != [] && AllDigits(s) then Some(DigitsValue(s) as real) else None
    case Some(k) =>
      var whole, frac := s[..k], s[k + 1..];
      if AllDigits(whole) && AllDigits(frac) && |whole| + |frac| > 0
      then Some(DigitsValue(whole) as real + DigitsValue(frac) as real / Pow10(|frac|) as real)
      else None
  }

  /** The number a cell's text denotes, with an optional sign; `None` for non-numeric text. */
  function ParseNumber(s: string): Option<real> {
    if s != [] && s[0] == '-' then
      match ParseUnsigned(s[1..])
      case None => None
      case Some(v) => Some(-v)
    else if s != [] && s[0] == '+' then ParseUnsigned(s[1..])
    else ParseUnsigned(s)
  }

  /** `pd.to_numeric(cell, errors='coerce')` followed by `.fillna(0)`. */
  function NumberOr0(cell: Option<string>): real {
    match cell
    case None => 0.0
    case Some(s) =>
      match ParseNumber(s)
      case None => 0.0
      case Some(v) => v
  }

  /** The decimal rendering of a natural number, without leading zeros. */
  function Digits(n: nat): (s: string)
    ensures |s| > 0 && AllDigits(s)
  {
    if n < 10 then [('0' as int + n) as char]
    else Digits(n / 10) + [('0' as int + n % 10) as char]
  }

  /** Reading back a rendered natural number gives the number. */
  lemma {:induction false} DigitsRoundTrip(n: nat)
    ensures DigitsValue(Digits(n)) == n
  {
    if n >= 10 {
      var s := Digits(n);
      assert s[..|s| - 1] == Digits(n / 10);
      DigitsRoundTrip(n / 10);
    }
  }

  /** A natural number written out in decimal, with or without a minus sign, coerces
      to that number. */
  lemma ParseDigits(n: nat)
    ensures ParseNumber(Digits(n)) == Some(n as real)
    ensures ParseNumber("-" + Digits(n)) == Some(-(n as real))
    ensures NumberOr0(Some(Digits(n))) == n as real
  {
    var s := Digits(n);
    DigitsRoundTrip(n);
    assert ("-" + s)[1..] == s;
  }

  /** In digits, a '.' and anything, the first '.' is the one after the digits. */
  lemma DotAfterDigits(x: string, y: string)
    requires AllDigits(x)
    ensures Text.Find(x + "." + y, '.') == Some(|x|)
    ensures (x + "." + y)[..|x|] == x && (x + "." + y)[|x| + 1..] == y
  {
    var s := x + "." + y;
    assert s[|x|] == '.';
    assert forall i :: 0 <= i < |x| ==> s[i] == x[i];
  }

  /** A numeral with a decimal point reads as its whole part plus its fraction digits
      over ten to their number; either part may be empty (not both) and may have
      leading zeros, as in "0.05" or ".5". */
  lemma ParseDecimal(whole: string, frac: string)
    requires AllDigits(whole) && AllDigits(frac) && |whole| + |frac| > 0
    ensures NumberOr0(Some(whole + "." + frac))
            == DigitsValue(whole) as real + DigitsValue(frac) as real / Pow10(|frac|) as real
  {
    var s := whole + "." + frac;
    DotAfterDigits(whole, frac);
    var v := DigitsValue(whole) as real + DigitsValue(frac) as real / Pow10(|frac|) as real;
    assert ParseUnsigned(s) == Some(v);
    if whole == [] {
      assert s[0] == '.';
    } else {
      assert s[0] == whole[0];
    }
    assert ParseNumber(s) == Some(v);
  }

  /** `.astype(int)` of a float: truncation toward zero. */
  function Trunc(x: real): (r: int)
    ensures x >= 0.0 ==> 0 <= r && r as real <= x < r as real + 1.0
    ensures x < 0.0 ==> r <= 0 && r as real - 1.0 < x <= r as real
  {
    if x >= 0.0 then x.Floor else -((-x).Floor)
  }

  /** numpy's `round(0)`: the nearest integer, ties to the even neighbour. */
  function RoundHalfEven(x: real): (r: int)
    ensures r as real - x <= 0.5 && x - r as real <= 0.5
    ensures (r as real - x == 0.5 || x - r as real == 0.5) ==> r % 2 == 0
  {
    var f := x.Floor;
    var d := x - f as real;
    if d < 0.5 then f
    else if d > 0.5 then f + 1
    else if f % 2 == 0 then f
    else f + 1
  }

  /** numpy's `round(2)`: scale by 100, round half to even, scale back. */
  function Round2(x: real): (r: real)
    ensures r - x <= 0.005 && x - r <= 0.005
    ensures (r * 100.0).Floor as real == r * 100.0
  {
    RoundHalfEven(x * 100.0) as real / 100.0
  }
}
