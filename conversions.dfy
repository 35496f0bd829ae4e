/**
 * Number-to-text conversions the devices use to build their status strings:
 * std::to_string on an int (decimal, leading minus sign) and std::to_string
 * on a double, which formats like printf's "%f" (fixed point, six decimals).
 * Each conversion comes with a reader that takes the text back to a number,
 * and a lemma that the round trip recovers the number (exactly for integers,
 * to within half a millionth for the fixed-point text).
 */
module Conversions {

  datatype Option<T> = None | Some(value: T)

  /** The width of a C++ `int`. */
  type Int32 = x: int | -0x8000_0000 <= x < 0x8000_0000

  /** printf's default precision for "%f". */
  const FractionDigits: nat := 6
  const FractionScale: nat := 1000000

  predicate IsDigit(c: char) {
    '0' <= c <= '9'
  }

  predicate AllDigits(s: string) {
    forall i :: 0 <= i < |s| ==> IsDigit(s[i])
  }

  function DigitValue(c: char): (d: nat)
    requires IsDigit(c)
    ensures d < 10
  {
    (c as int) - ('0' as int)
  }

  function DigitChar(d: nat): (c: char)
    requires d < 10
    ensures IsDigit(c) && DigitValue(c) == d
  {
    (('0' as int) + d) as char
  }

  function Pow10(k: nat): (p: nat)
    ensures p >= 1
  {
    if k == 0 then 1 else 10 * Pow10(k - 1)
  }

  /** The number a string of decimal digits denotes, most significant first. */
  function DigitsValue(s: string): nat
    requires AllDigits(s)
    decreases |s|
  {
    if s == [] then 0 else 10 * DigitsValue(s[..|s| - 1]) + DigitValue(s[|s| - 1])
  }

  /** The decimal digits of n without leading zeros ("0" for zero). */
  function NatText(n: nat): (s: string)
    ensures |s| >= 1 && AllDigits(s)
    ensures s[0] == '0' <==> n == 0
    decreases n
  {
    if n < 10 then [DigitChar(n)] else NatText(n / 10) + [DigitChar(n % 10)]
  }

  lemma {:induction false} NatTextValue(n: nat)
    ensures DigitsValue(NatText(n)) == n
    decreases n
  {
    if n >= 10 {
      var s := NatText(n);
      assert s[..|s| - 1] == NatText(n / 10);
      NatTextValue(n / 10);
    }
  }

  /** std::to_string(int): an optional minus sign, then the magnitude in decimal. */
  function IntText(n: int): (s: string)
    ensures |s| >= 1
    ensures s[0] == '-' <==> n < 0
  {
    if n < 0 then "-" + NatText(-n) else NatText(n)
  }

  /** Reads back a decimal integer in the form IntText writes. */
  function ParseInt(s: string): Option<int> {
    if |s| >= 2 && s[0] == '-' && AllDigits(s[1..]) then Some(0 - DigitsValue(s[1..]))
    else if |s| >= 1 && AllDigits(s) then Some(DigitsValue(s))
    else None
  }

  lemma IntTextRoundTrip(n: int)
    ensures ParseInt(IntText(n)) == Some(n)
  {
    if n < 0 {
      assert IntText(n)[1..] == NatText(-n);
      NatTextValue(-n);
    } else {
      NatTextValue(n);
    }
  }

  lemma IntTextInjective(a: int, b: int)
    ensures IntText(a) == IntText(b) ==> a == b
  {
    IntTextRoundTrip(a);
    IntTextRoundTrip(b);
  }

  /** n written with exactly `width` digits, padded with leading zeros. */
  function PadDigits(n: nat, width: nat): (s: string)
    requires n < Pow10(width)
    ensures |s| == width && AllDigits(s)
    decreases width
  {
    if width == 0 then [] else PadDigits(n / 10, width - 1) + [DigitChar(n % 10)]
  }

  lemma {:induction false} PadDigitsValue(n: nat, width: nat)
    requires n < Pow10(width)
    ensures DigitsValue(PadDigits(n, width)) == n
    decreases width
  {
    if width > 0 {
      var s := PadDigits(n, width);
      assert s[..|s| - 1] == PadDigits(n / 10, width - 1);
      PadDigitsValue(n / 10, width - 1);
    }
  }

  function Abs(x: real): (a: real)
    ensures a >= 0.0 && (a == x || a == -x)
  {
    if x < 0.0 then -x else x
  }

  /** The integer nearest to x; a tie goes to the even neighbour. */
  function RoundHalfEven(x: real): (m: int)
    ensures x - 0.5 <= m as real <= x + 0.5
    ensures m as real == x - 0.5 || m as real == x + 0.5 ==> m % 2 == 0
  {
    var f := x.Floor;
    var frac := x - f as real;
    if frac < 0.5 then f
    else if frac > 0.5 then f + 1
    else if f % 2 == 0 then f
    else f + 1
  }

  /**
   * std::to_string(double), i.e. "%f": a minus sign for a negative value,
   * the integer part, a point and six fraction digits, the magnitude scaled
   * by a million and rounded to nearest with ties to even.
   */
  function FixedText(t: real): string {
    var m := RoundHalfEven(Abs(t) * FractionScale as real);
    assert m >= 0;
    (if t < 0.0 then "-" else "") + UnsignedFixedText(m)
  }

  /** Reads back a fixed-point text "[-]digits.dddddd" in the form FixedText writes. */
  function ParseFixed(s: string): Option<real> {
    var negative := |s| > 0 && s[0] == '-';
    var body := if negative then s[1..] else s;
    var point := |body| - (FractionDigits + 1);
    if point >= 1 && body[point] == '.' && AllDigits(body[..point]) && AllDigits(body[point + 1..]) then
      var v := DigitsValue(body[..point]) as real + DigitsValue(body[point + 1..]) as real / FractionScale as real;
      Some(if negative then -v else v)
    else
      None
  }

  /** The text FixedText writes for a magnitude already scaled and rounded to m. */
  function UnsignedFixedText(m: nat): string {
    NatText(m / FractionScale) + "." + PadDigits(m % FractionScale, FractionDigits)
  }

  lemma UnsignedFixedTextValue(m: nat)
    ensures ParseFixed(UnsignedFixedText(m)) == Some(m as real / FractionScale as real)
  {
    var q, r := m / FractionScale, m % FractionScale;
    var whole, fraction := NatText(q), PadDigits(r, FractionDigits);
    var body := UnsignedFixedText(m);
    var point := |body| - (FractionDigits + 1);
    assert body[0] != '-';
    assert point == |whole| >= 1;
    assert body[..point] == whole;
    assert body[point + 1..] == fraction;
    NatTextValue(q);
    PadDigitsValue(r, FractionDigits);
    assert q * FractionScale + r == m;
  }

  /** The fixed-point text reads back to t, to within half a unit of the sixth decimal. */
  lemma FixedTextReadsBack(t: real)
    ensures ParseFixed(FixedText(t)).Some?
    ensures t - 0.0000005 <= ParseFixed(FixedText(t)).value <= t + 0.0000005
    ensures FixedText(t)[0] == '-' <==> t < 0.0
  {
    var m := RoundHalfEven(Abs(t) * FractionScale as real);
    var body := UnsignedFixedText(m);
    UnsignedFixedTextValue(m);
    assert body[0] != '-';
    if t < 0.0 {
      assert FixedText(t) == "-" + body;
      assert ("-" + body)[1..] == body;
    } else {
      assert FixedText(t) == body;
    }
  }
}
