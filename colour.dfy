/** Colours of the particle effect: the RGB channels read from an RGBA pixel
    buffer, and the CSS `rgb(r,g,b)` string the effect builds from them. */
module Colour {

  /** One channel value of a canvas pixel buffer (a Uint8ClampedArray element). */
  type Byte = b: int | 0 <= b < 256

  datatype Rgb = Rgb(red: Byte, green: Byte, blue: Byte)

  predicate IsDigit(c: char) {
    '0' <= c <= '9'
  }

  predicate AllDigits(s: string) {
    forall i :: 0 <= i < |s| ==> IsDigit(s[i])
  }

  function DigitChar(d: nat): (c: char)
    requires d < 10
    ensures IsDigit(c) && (c as int) - ('0' as int) == d
  {
    (('0' as int) + d) as char
  }

  /** The decimal numeral of `n`, as JavaScript writes a non-negative integer
      when it is concatenated onto a string. */
  function Decimal(n: nat): (s: string)
    ensures |s| >= 1 && AllDigits(s)
    ensures n < 10 ==> |s| == 1
    decreases n
  {
    if n < 10 then [DigitChar(n)] else Decimal(n / 10) + [DigitChar(n % 10)]
  }

  /** The value of a numeral. */
  function NumeralValue(s: string): nat
    requires AllDigits(s)
  {
    if s == [] then 0
    else NumeralValue(s[..|s| - 1]) * 10 + ((s[|s| - 1] as int) - ('0' as int))
  }

  /** The colour string of a particle: `'rgb(' + red + ',' + green + ',' + blue + ')'`. */
  function Css(c: Rgb): string {
    "rgb(" + Decimal(c.red) + "," + Decimal(c.green) + "," + Decimal(c.blue) + ")"
  }

  /** Splits `s` at its first comma: the text before it and the text after it. */
  function SplitComma(s: string): Option<(string, string)> {
    if s == [] then None
    else if s[0] == ',' then Some(([], s[1..]))
    else match SplitComma(s[1..])
      case None => None
      case Some(parts) => Some(([s[0]] + parts.0, parts.1))
  }

  datatype Option<T> = None | Some(value: T)

  /** Reads one channel numeral back: one or more digits with a value below 256. */
  function ParseChannel(s: string): Option<Byte> {
    if s != [] && AllDigits(s) && NumeralValue(s) < 256 then Some(NumeralValue(s)) else None
  }

  /** Reads a string of the form `rgb(r,g,b)` back into its channels. */
  function ParseCss(s: string): Option<Rgb> {
    if |s| < 5 || s[..4] != "rgb(" || s[|s| - 1] != ')' then None
    else
      match SplitComma(s[4..|s| - 1])
      case None => None
      case Some(first) =>
        match SplitComma(first.1)
        case None => None
        case Some(second) =>
          match (ParseChannel(first.0), ParseChannel(second.0), ParseChannel(second.1))
          case (Some(r), Some(g), Some(b)) => Some(Rgb(r, g, b))
          case _ => None
  }

  lemma {:induction false} NumeralValueOfDecimal(n: nat)
    ensures NumeralValue(Decimal(n)) == n
    decreases n
  {
    var s := Decimal(n);
    if n < 10 {
      assert s[..0] == [];
    } else {
      NumeralValueOfDecimal(n / 10);
      assert s[..|s| - 1] == Decimal(n / 10);
    }
  }

  lemma {:induction false} SplitCommaAfterNumeral(a: string, rest: string)
    requires AllDigits(a)
    ensures SplitComma(a + "," + rest) == Some((a, rest))
    decreases |a|
  {
    if a == [] {
      assert a + "," + rest == [','] + rest;
    } else {
      assert (a + "," + rest)[1..] == a[1..] + "," + rest;
      SplitCommaAfterNumeral(a[1..], rest);
      assert [a[0]] + a[1..] == a;
    }
  }

  /** The colour string is `rgb(`, the three numerals separated by commas,
      and `)`. */
  lemma CssShape(c: Rgb)
    ensures var s := Css(c);
            |s| >= 5 && s[..4] == "rgb(" && s[|s| - 1] == ')' &&
            s[4..|s| - 1] == Decimal(c.red) + "," + (Decimal(c.green) + "," + Decimal(c.blue))
  {
    var r, g, b := Decimal(c.red), Decimal(c.green), Decimal(c.blue);
    var s := Css(c);
    assert s == "rgb(" + (r + "," + (g + "," + b)) + ")";
  }

  /** Parsing the colour string gives back the channels it was built from, so
      the string keeps all of the sampled colour. */
  lemma CssRoundTrip(c: Rgb)
    ensures ParseCss(Css(c)) == Some(c)
  {
    var r, g, b := Decimal(c.red), Decimal(c.green), Decimal(c.blue);
    var s := Css(c);
    CssShape(c);
    SplitCommaAfterNumeral(r, g + "," + b);
    SplitCommaAfterNumeral(g, b);
    NumeralValueOfDecimal(c.red);
    NumeralValueOfDecimal(c.green);
    NumeralValueOfDecimal(c.blue);
    assert ParseChannel(r) == Some(c.red);
    assert ParseChannel(g) == Some(c.green);
    assert ParseChannel(b) == Some(c.blue);
  }

  /** Different colours give different strings. */
  lemma CssInjective(c: Rgb, d: Rgb)
    ensures Css(c) == Css(d) <==> c == d
  {
    if Css(c) == Css(d) {
      CssRoundTrip(c);
      CssRoundTrip(d);
    }
  }
}
