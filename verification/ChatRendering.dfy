/**
 * How the resume log compares chat ids: both sides are rendered with fmt.Sprint, one of them after a trip through
 * JSON, where every number comes back as a float64.
 */
module ChatRendering {

  /** A chat id as a caller gave it: text, or a number. */
  datatype ChatRef = Text(s: string) | Number(n: int)

  /** As the log hands it back: text stays text, a number is now a float. */
  datatype Stored = StoredText(s: string) | Float(n: int)

  function ThroughJson(c: ChatRef): Stored {
    match c
    case Text(s) => StoredText(s)
    case Number(n) => Float(n)
  }

  function Digit(n: nat): char
    requires n < 10
  {
    ['0', '1', '2', '3', '4', '5', '6', '7', '8', '9'][n]
  }

  function DecimalNat(n: nat): string {
    if n < 10 then [Digit(n)] else DecimalNat(n / 10) + [Digit(n % 10)]
  }

  function Decimal(n: int): string {
    if n < 0 then "-" + DecimalNat(-n) else DecimalNat(n)
  }

  function StripZeros(s: string): string {
    if s != "" && s[|s| - 1] == '0' then StripZeros(s[..|s| - 1]) else s
  }

  /** The shortest %e form: one digit, the rest after a point, and an exponent of at least two digits. */
  function Exponent(n: nat): string {
    var digits := DecimalNat(n);
    var mantissa := StripZeros(digits);
    var exp := DecimalNat(|digits| - 1);
    (if |mantissa| <= 1 then mantissa else mantissa[..1] + "." + mantissa[1..])
    + "e+" + (if |exp| < 2 then "0" + exp else exp)
  }

  const EXPONENT_FROM := 1_000_000

  function SprintInt(n: int): string {
    Decimal(n)
  }

  /** fmt.Sprint of a whole float64: %g turns to the exponent form at seven digits. */
  function SprintFloat(n: int): string {
    if -EXPONENT_FROM < n < EXPONENT_FROM then Decimal(n)
    else if n < 0 then "-" + Exponent(-n) else Exponent(n)
  }

  function SprintStored(c: Stored): string {
    match c
    case StoredText(s) => s
    case Float(n) => SprintFloat(n)
  }

  predicate IsDigit(c: char) {
    '0' <= c <= '9'
  }

  lemma {:induction false} DecimalNatDigits(n: nat)
    ensures DecimalNat(n) != "" && forall i :: 0 <= i < |DecimalNat(n)| ==> IsDigit(DecimalNat(n)[i])
  {
    if n >= 10 {
      DecimalNatDigits(n / 10);
    }
  }

  /** The last digit, and what stands before it. */
  lemma DecimalLast(n: nat)
    ensures var s := DecimalNat(n);
      s != "" && s[|s| - 1] == Digit(n % 10) && s[..|s| - 1] == if n < 10 then "" else DecimalNat(n / 10)
    ensures |DecimalNat(n)| == 1 <==> n < 10
  {
    DecimalNatDigits(n / 10);
  }

  lemma {:induction false} DecimalNatInjective(m: nat, n: nat)
    requires DecimalNat(m) == DecimalNat(n)
    ensures m == n
  {
    DecimalLast(m);
    DecimalLast(n);
    if m >= 10 && n >= 10 {
      DecimalNatInjective(m / 10, n / 10);
    }
  }

  lemma DecimalSign(n: int)
    ensures Decimal(n) != "" && (Decimal(n)[0] == '-' <==> n < 0)
    ensures n < 0 ==> Decimal(n)[1..] == DecimalNat(-n)
  {
    DecimalNatDigits(if n < 0 then -n else n);
  }

  lemma DecimalInjective(m: int, n: int)
    requires Decimal(m) == Decimal(n)
    ensures m == n
  {
    DecimalSign(m);
    DecimalSign(n);
    if m < 0 {
      DecimalNatInjective(-m, -n);
    } else {
      DecimalNatInjective(m, n);
    }
  }

  lemma DecimalHasNoExponent(n: int)
    ensures 'e' !in Decimal(n)
  {
    DecimalNatDigits(if n < 0 then -n else n);
  }

  lemma ExponentHasOne(n: nat)
    ensures 'e' in Exponent(n)
  {
    var digits := DecimalNat(n);
    DecimalNatDigits(n);
    var mantissa := StripZeros(digits);
    var head := if |mantissa| <= 1 then mantissa else mantissa[..1] + "." + mantissa[1..];
    assert Exponent(n)[|head|] == 'e';
  }

  /**
   * A press is looked up under the integer chat id Telegram sent. A registration made under the number n matches
   * the lookup for m if and only if they are equal and shorter than seven digits; one made under a text matches
   * exactly when the text is that integer's decimal form.
   */
  lemma RegisteredMatchesIff(c: ChatRef, m: int)
    ensures SprintStored(ThroughJson(c)) == SprintInt(m) <==>
            match c
            case Text(s) => s == Decimal(m)
            case Number(n) => n == m && -EXPONENT_FROM < n < EXPONENT_FROM
  {
    if c.Number? {
      if -EXPONENT_FROM < c.n < EXPONENT_FROM {
        if Decimal(c.n) == Decimal(m) { DecimalInjective(c.n, m); }
      } else {
        ExponentHasOne(if c.n < 0 then -c.n else c.n);
        DecimalHasNoExponent(m);
        assert 'e' in SprintFloat(c.n);
      }
    }
  }
}
