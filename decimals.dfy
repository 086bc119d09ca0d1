/** Exact decimal arithmetic as the integration uses Python's `decimal`
    module: reading a finite decimal literal, quantising to hundredths with
    the default context's half-even rounding or with ROUND_HALF_UP (ties
    away from zero), and writing a value with exactly two decimals the way
    `str()` and `format(d, "f")` do for such a value. Values are `real`
    numbers, so no precision limit applies. */
module Decimals {
  import opened Wrappers
  import opened Text

  function Pow10(k: nat): (p: nat)
    ensures p >= 1
  {
    if k == 0 then 1 else 10 * Pow10(k - 1)
  }

  /** Length of the longest run of digits at the start of `s`. */
  function SpanDigits(s: string): (n: nat)
    ensures n <= |s|
    ensures AllDigits(s[..n])
    ensures n < |s| ==> !IsDigit(s[n])
  {
    if s == [] || !IsDigit(s[0]) then 0
    else
      var n := 1 + SpanDigits(s[1..]);
      assert s[..n] == [s[0]] + s[1..][..n - 1];
      n
  }

  function TrimStart(s: string): (t: string)
    ensures t == [] || !IsSpace(t[0])
  {
    if s != [] && IsSpace(s[0]) then TrimStart(s[1..]) else s
  }

  function TrimEnd(s: string): (t: string)
    ensures t == [] || !IsSpace(t[|t| - 1])
  {
    if s != [] && IsSpace(s[|s| - 1]) then TrimEnd(s[..|s| - 1]) else s
  }

  /** The surrounding whitespace `Decimal()` ignores. */
  function Strip(s: string): string {
    TrimEnd(TrimStart(s))
  }

  /** A finite decimal literal: sign, digits before and after the point, exponent. */
  datatype Literal = Literal(negative: bool, whole: string, fraction: string, exponent: int)

  /** `m * 10^e` for any integer exponent. */
  function Scale(m: nat, e: int): real {
    if e >= 0 then (m * Pow10(e)) as real else m as real / Pow10(-e) as real
  }

  function Value(lit: Literal): real
    requires AllDigits(lit.whole + lit.fraction)
  {
    var magnitude := Scale(DigitsValue(lit.whole + lit.fraction), lit.exponent - |lit.fraction|);
    if lit.negative then -magnitude else magnitude
  }

  /** `[sign] digits`, all of `s`, at least one digit. */
  function ParseSignedInt(s: string): Option<int> {
    var negative := |s| > 0 && s[0] == '-';
    var digits := if |s| > 0 && (s[0] == '+' || s[0] == '-') then s[1..] else s;
    if digits != [] && AllDigits(digits) then
      Some(if negative then -(DigitsValue(digits) as int) else DigitsValue(digits))
    else None
  }

  /** What may follow the digits: nothing, or `e`/`E` and a signed integer. */
  function ParseExponent(tail: string): Option<int> {
    if tail == [] then Some(0)
    else if tail[0] == 'e' || tail[0] == 'E' then ParseSignedInt(tail[1..])
    else None
  }

  /** How many sign characters `t` starts with: one `+` or `-`, or none. */
  function SignLength(t: string): (k: nat)
    ensures k <= |t|
    ensures k == 1 <==> |t| > 0 && (t[0] == '+' || t[0] == '-')
  {
    if |t| > 0 && (t[0] == '+' || t[0] == '-') then 1 else 0
  }

  /** The grammar of a finite number in `Decimal(str)`:
      `[sign] (digits ['.' [digits]] | '.' digits) [('e'|'E') [sign] digits]`,
      surrounded by optional whitespace. */
  function ParseLiteral(s: string): (r: Option<Literal>)
    ensures r.Some? ==> AllDigits(r.value.whole + r.value.fraction)
    ensures r.Some? ==> |r.value.whole| + |r.value.fraction| >= 1
  {
    var t := Strip(s);
    var negative := |t| > 0 && t[0] == '-';
    var u := t[SignLength(t)..];
    var w := SpanDigits(u);
    var whole := u[..w];
    var rest := u[w..];
    var hasPoint := |rest| > 0 && rest[0] == '.';
    var afterPoint := if hasPoint then rest[1..] else rest;
    var f := if hasPoint then SpanDigits(afterPoint) else 0;
    var fraction := afterPoint[..f];
    var tail := afterPoint[f..];
    if |whole| + |fraction| == 0 then None
    else
      match ParseExponent(tail)
      case None => None
      case Some(e) =>
        AllDigitsConcat(whole, fraction);
        Some(Literal(negative, whole, fraction, e))
  }

  /** The sign characters are nothing, a plus or a minus, and a minus exactly when `t` starts with one. */
  lemma SignPrefix(t: string)
    ensures var sign := t[..SignLength(t)];
            && (sign == "" || sign == "+" || sign == "-")
            && (sign == "-" <==> |t| > 0 && t[0] == '-')
  {
    if |t| > 0 && (t[0] == '+' || t[0] == '-') {
      assert t[..1] == [t[0]];
    }
  }

  lemma SplitAt(t: string, k: nat)
    requires k <= |t|
    ensures t == t[..k] + t[k..]
  {
  }

  /** The text after the whole digits: a point and what follows it, or no point at all. */
  lemma SplitPoint(rest: string)
    ensures var hasPoint := |rest| > 0 && rest[0] == '.';
            rest == (if hasPoint then "." else "") + (if hasPoint then rest[1..] else rest)
  {
    if |rest| > 0 && rest[0] == '.' {
      assert rest == [rest[0]] + rest[1..];
    } else {
      assert rest == "" + rest;
    }
  }

  lemma Regroup(a: string, b: string, c: string, d: string, e: string)
    ensures a + (b + (c + (d + e))) == a + b + c + d + e
  {
  }

  lemma JoinLiteralText(t: string, sign: string, u: string, whole: string, rest: string, point: string,
                        afterPoint: string, fraction: string, tail: string)
    requires t == sign + u && u == whole + rest && rest == point + afterPoint && afterPoint == fraction + tail
    ensures t == sign + whole + point + fraction + tail
  {
    Regroup(sign, whole, point, fraction, tail);
  }

  /** `t` written out as `lit`: a sign (a minus exactly when `lit` is negative), the whole digits,
      a point when there is one (a fraction needs one), the fraction digits, and an exponent part. */
  predicate SpelledAs(t: string, lit: Literal, sign: string, point: string, exponentText: string) {
    && t == sign + lit.whole + point + lit.fraction + exponentText
    && (sign == "" || sign == "+" || sign == "-") && (lit.negative <==> sign == "-")
    && (point == "" || point == ".") && (point == "" ==> lit.fraction == "")
    && ParseExponent(exponentText) == Some(lit.exponent)
  }

  /** An accepted literal is its stripped text read piece by piece; nothing of the text is
      dropped or added. */
  lemma ParseLiteralPrintBack(s: string)
    requires ParseLiteral(s).Some?
    ensures exists sign: string, point: string, exponentText: string
              {:trigger SpelledAs(Strip(s), ParseLiteral(s).value, sign, point, exponentText)} ::
              SpelledAs(Strip(s), ParseLiteral(s).value, sign, point, exponentText)
  {
    var t := Strip(s);
    var k := SignLength(t);
    var sign, u := t[..k], t[k..];
    var w := SpanDigits(u);
    var rest := u[w..];
    var hasPoint := |rest| > 0 && rest[0] == '.';
    var point := if hasPoint then "." else "";
    var afterPoint := if hasPoint then rest[1..] else rest;
    var f := if hasPoint then SpanDigits(afterPoint) else 0;
    var lit := ParseLiteral(s).value;
    SplitAt(t, k);
    SplitAt(u, w);
    SplitPoint(rest);
    SplitAt(afterPoint, f);
    JoinLiteralText(t, sign, u, u[..w], rest, point, afterPoint, afterPoint[..f], afterPoint[f..]);
    SignPrefix(t);
    assert lit == Literal(sign == "-", u[..w], afterPoint[..f], lit.exponent);
    var tail := afterPoint[f..];
    assert ParseExponent(tail) == Some(lit.exponent);
    assert SpelledAs(t, lit, sign, point, tail);
    SpelledSomehow(t, lit, sign, point, tail);
  }

  lemma SpelledSomehow(t: string, lit: Literal, someSign: string, somePoint: string, someExponent: string)
    requires SpelledAs(t, lit, someSign, somePoint, someExponent)
    ensures exists sign: string, point: string, exponentText: string
              {:trigger SpelledAs(t, lit, sign, point, exponentText)} ::
              SpelledAs(t, lit, sign, point, exponentText)
  {
  }

  /** `Decimal(s)` for a finite literal; `None` where Python raises InvalidOperation. */
  function ParseDecimal(s: string): Option<real> {
    match ParseLiteral(s)
    case None => None
    case Some(lit) => Some(Value(lit))
  }

  /** The nearest integer, ties to the even neighbour (the default context's ROUND_HALF_EVEN). */
  function RoundHalfEven(x: real): (r: int)
    ensures x - 0.5 <= r as real <= x + 0.5
    ensures (r as real - x == 0.5 || x - r as real == 0.5) ==> r % 2 == 0
  {
    var f := x.Floor;
    var d := x - f as real;
    if d < 0.5 then f
    else if d > 0.5 then f + 1
    else if f % 2 == 0 then f else f + 1
  }

  /** The nearest integer, ties away from zero (decimal.ROUND_HALF_UP). */
  function RoundHalfUp(x: real): (r: int)
    ensures x - 0.5 <= r as real <= x + 0.5
    ensures r as real - x == 0.5 ==> x > 0.0
    ensures x - r as real == 0.5 ==> x < 0.0
  {
    if x >= 0.0 then (x + 0.5).Floor else -((-x + 0.5).Floor)
  }

  /** Half-up rounding treats both signs alike. */
  lemma RoundHalfUpOdd(x: real)
    ensures RoundHalfUp(-x) == -RoundHalfUp(x)
  {
    if x == 0.0 {
    } else if x < 0.0 {
      assert -x >= 0.0;
    }
  }

  /** `value.quantize(Decimal('0.01'))` in the default context, as a count of hundredths. */
  function QuantizeHalfEven(x: real): (cents: int)
    ensures x - 0.005 <= cents as real / 100.0 <= x + 0.005
    ensures (cents as real / 100.0 - x == 0.005 || x - cents as real / 100.0 == 0.005) ==> cents % 2 == 0
  {
    RoundHalfEven(x * 100.0)
  }

  /** `value.quantize(Decimal('0.01'), rounding=ROUND_HALF_UP)`, as a count of hundredths. */
  function QuantizeHalfUp(x: real): (cents: int)
    ensures x - 0.005 <= cents as real / 100.0 <= x + 0.005
    ensures cents as real / 100.0 - x == 0.005 ==> x > 0.0
    ensures x - cents as real / 100.0 == 0.005 ==> x < 0.0
  {
    RoundHalfUp(x * 100.0)
  }

  function Cents(c: int): real {
    c as real / 100.0
  }

  /** A Decimal with exponent -2 written out: sign, whole part, point, exactly two digits. */
  function FixedPoint2(negative: bool, c: nat): string {
    (if negative then "-" else "") + NatToString(c / 100) + "." + [DigitChar(c % 100 / 10), DigitChar(c % 10)]
  }

  /** `str(d)` of a Decimal quantised to hundredths holding `c` hundredths. */
  function CentsString(c: int): string {
    FixedPoint2(c < 0, if c < 0 then -c else c)
  }

  lemma {:induction false} SpanDigitsPrefix(a: string, b: string)
    requires AllDigits(a)
    requires b != [] && !IsDigit(b[0])
    ensures SpanDigits(a + b) == |a|
  {
    if a != [] {
      assert (a + b)[1..] == a[1..] + b;
      SpanDigitsPrefix(a[1..], b);
    }
  }

  lemma DigitsValueTwo(a: string, x: char, y: char)
    requires AllDigits(a) && IsDigit(x) && IsDigit(y)
    ensures AllDigits(a + [x, y])
    ensures DigitsValue(a + [x, y]) == DigitsValue(a) * 100 + DigitValue(x) * 10 + DigitValue(y)
  {
    var s := a + [x, y];
    assert s[..|s| - 1] == a + [x];
    assert (a + [x])[..|a|] == a;
  }

  lemma StripUnchanged(s: string)
    requires s != [] && !IsSpace(s[0]) && !IsSpace(s[|s| - 1])
    ensures Strip(s) == s
  {
  }

  /** The parser's view of `[-]whole.xy`: the digits around the point, no exponent. */
  lemma ParseTwoDecimals(negative: bool, whole: string, x: char, y: char)
    requires whole != [] && AllDigits(whole) && IsDigit(x) && IsDigit(y)
    ensures ParseLiteral((if negative then "-" else "") + whole + "." + [x, y])
         == Some(Literal(negative, whole, [x, y], 0))
  {
    var sign := if negative then "-" else "";
    var s := sign + whole + "." + [x, y];
    assert s[0] == '-' || s[0] == whole[0];
    StripUnchanged(s);
    var u := whole + ['.', x, y];
    assert s[SignLength(s)..] == u;
    DigitsAroundPoint(whole, x, y);
  }

  /** In `whole.xy` the digit runs are `whole` before the point and `xy` after it. */
  lemma DigitsAroundPoint(whole: string, x: char, y: char)
    requires AllDigits(whole) && IsDigit(x) && IsDigit(y)
    ensures var u := whole + ['.', x, y];
            && SpanDigits(u) == |whole| && u[..|whole|] == whole && u[|whole|..] == ['.', x, y]
            && ['.', x, y][1..] == [x, y]
            && SpanDigits([x, y]) == 2 && [x, y][..2] == [x, y] && [x, y][2..] == []
  {
    var u := whole + ['.', x, y];
    SpanDigitsPrefix(whole, ['.', x, y]);
    assert u[..|whole|] == whole;
    assert u[|whole|..] == ['.', x, y];
    assert [x, y][1..] == [y] && [y][1..] == [];
  }

  lemma SplitCents(c: nat)
    ensures c == (c / 100) * 100 + (c % 100 / 10) * 10 + c % 10
  {
    var q, r := c / 100, c % 100;
    assert c == q * 100 + r;
    assert r == (r / 10) * 10 + r % 10;
    assert c == (q * 10 + r / 10) * 10 + r % 10;
    assert c % 10 == r % 10;
  }

  /** The digits of a two-decimal rendering of `c`, point removed, spell `c`. */
  lemma FixedPoint2Digits(c: nat)
    ensures var digits := NatToString(c / 100) + [DigitChar(c % 100 / 10), DigitChar(c % 10)];
            AllDigits(digits) && DigitsValue(digits) == c
  {
    var whole := NatToString(c / 100);
    var x, y := DigitChar(c % 100 / 10), DigitChar(c % 10);
    DigitsValueTwo(whole, x, y);
    NatToStringValue(c / 100);
    SplitCents(c);
  }

  /** The literal `[-]whole.xy` read from a two-decimal rendering of `c` has the value `c / 100`. */
  lemma FixedPoint2Value(negative: bool, c: nat)
    ensures var lit := Literal(negative, NatToString(c / 100), [DigitChar(c % 100 / 10), DigitChar(c % 10)], 0);
            AllDigits(lit.whole + lit.fraction) && Value(lit) == (if negative then -Cents(c) else Cents(c))
  {
    FixedPoint2Digits(c);
    assert Pow10(2) == 100;
    assert Scale(c, -2) == c as real / 100.0;
  }

  /** Reading back a two-decimal rendering gives exactly the value it renders. */
  lemma FixedPoint2RoundTrip(negative: bool, c: nat)
    ensures ParseDecimal(FixedPoint2(negative, c)) == Some(if negative then -Cents(c) else Cents(c))
  {
    var whole := NatToString(c / 100);
    var x, y := DigitChar(c % 100 / 10), DigitChar(c % 10);
    var s := FixedPoint2(negative, c);
    assert s == (if negative then "-" else "") + whole + "." + [x, y];
    ParseTwoDecimals(negative, whole, x, y);
    FixedPoint2Value(negative, c);
  }

  /** `CentsString` denotes the value it renders. */
  lemma CentsStringRoundTrip(c: int)
    ensures ParseDecimal(CentsString(c)) == Some(Cents(c))
  {
    var m: nat := if c < 0 then -c else c;
    FixedPoint2RoundTrip(c < 0, m);
    assert (if c < 0 then -Cents(m) else Cents(m)) == Cents(c);
  }
}
