/** Character classes and string helpers shared by the parsers and the
    message builders: ASCII digits and whitespace, decimal rendering of
    natural numbers, `str.join`, `str.startswith`. */
module Text {

  predicate IsDigit(c: char) {
    '0' <= c <= '9'
  }

  /** The ASCII part of what Python's `str.strip()` and the regex class `\s` treat as whitespace:
      space, tab, line feed, vertical tab, form feed, carriage return and the four separators
      U+001C to U+001F. */
  predicate IsSpace(c: char) {
    c == ' ' || '\t' <= c <= '\r' || '\U{001C}' <= c <= '\U{001F}'
  }

  predicate AllDigits(s: string) {
    forall i :: 0 <= i < |s| ==> IsDigit(s[i])
  }

  lemma AllDigitsConcat(a: string, b: string)
    requires AllDigits(a) && AllDigits(b)
    ensures AllDigits(a + b)
  {
    forall i | 0 <= i < |a + b| ensures IsDigit((a + b)[i]) {
      if i < |a| { assert (a + b)[i] == a[i]; } else { assert (a + b)[i] == b[i - |a|]; }
    }
  }

  function DigitValue(c: char): (d: nat)
    requires IsDigit(c)
    ensures d < 10
  {
    (c as int - '0' as int) as nat
  }

  function DigitChar(d: nat): (c: char)
    requires d < 10
    ensures IsDigit(c) && DigitValue(c) == d
  {
    (d + '0' as int) as char
  }

  /** The number a string of decimal digits denotes, most significant digit first (Python's `int(s)`). */
  function DigitsValue(s: string): nat
    requires AllDigits(s)
  {
    if s == [] then 0 else DigitsValue(s[..|s| - 1]) * 10 + DigitValue(s[|s| - 1])
  }

  /** Python's `str(n)` for a natural number: no sign, no leading zeros. */
  function NatToString(n: nat): (s: string)
    ensures |s| >= 1 && AllDigits(s)
    ensures |s| > 1 ==> s[0] != '0'
  {
    if n < 10 then [DigitChar(n)] else NatToString(n / 10) + [DigitChar(n % 10)]
  }

  /** Reading back what NatToString writes gives the number again. */
  lemma {:induction false} NatToStringValue(n: nat)
    ensures DigitsValue(NatToString(n)) == n
  {
    if n >= 10 {
      var s := NatToString(n);
      assert s[..|s| - 1] == NatToString(n / 10);
      NatToStringValue(n / 10);
    }
  }

  /** Python's `str(i)` for any integer. */
  function IntToString(i: int): (s: string)
    ensures |s| >= 1
  {
    if i < 0 then "-" + NatToString(-i) else NatToString(i)
  }

  /** Python's `sep.join(parts)`. */
  function Join(parts: seq<string>, sep: string): (s: string)
    ensures parts == [] ==> s == ""
    ensures |parts| == 1 ==> s == parts[0]
  {
    if parts == [] then ""
    else if |parts| == 1 then parts[0]
    else Join(parts[..|parts| - 1], sep) + sep + parts[|parts| - 1]
  }

  /** Joining two non-empty lists of parts is joining each and putting `sep` between them; with
      the cases of no part and one part this determines `Join` completely. */
  lemma {:induction false} JoinConcat(a: seq<string>, b: seq<string>, sep: string)
    requires a != [] && b != []
    ensures Join(a + b, sep) == Join(a, sep) + sep + Join(b, sep)
  {
    var ab := a + b;
    var last := b[|b| - 1];
    var init := b[..|b| - 1];
    assert ab[..|ab| - 1] == a + init;
    if |b| == 1 {
      assert ab[..|ab| - 1] == a;
    } else {
      JoinConcat(a, init, sep);
      assert Join(ab, sep) == Join(a, sep) + sep + Join(init, sep) + sep + last;
      assert Join(b, sep) == Join(init, sep) + sep + last;
      JoinRegroup(Join(a, sep), sep, Join(init, sep), last);
    }
  }

  lemma JoinRegroup(x: string, sep: string, y: string, z: string)
    ensures x + sep + y + sep + z == x + sep + (y + sep + z)
  {
  }

  /** Every part appears in the joined text, right after the parts before it and their separators. */
  lemma {:induction false} JoinParts(parts: seq<string>, sep: string, k: nat)
    requires k < |parts|
    ensures var prefix := if k == 0 then "" else Join(parts[..k], sep) + sep;
            |prefix| + |parts[k]| <= |Join(parts, sep)|
            && Join(parts, sep)[|prefix|..|prefix| + |parts[k]|] == parts[k]
  {
    var prefix := if k == 0 then "" else Join(parts[..k], sep) + sep;
    var rest := parts[k + 1..];
    var head := parts[..k + 1];
    assert head + rest == parts;
    assert Join(head, sep) == prefix + parts[k] by {
      if k > 0 {
        assert head == parts[..k] + [parts[k]];
        JoinConcat(parts[..k], [parts[k]], sep);
      }
    }
    if rest != [] {
      JoinConcat(head, rest, sep);
      assert Join(parts, sep) == prefix + parts[k] + (sep + Join(rest, sep));
    }
    assert Join(parts, sep)[|prefix|..|prefix| + |parts[k]|] == (prefix + parts[k])[|prefix|..];
  }

  predicate StartsWith(s: string, prefix: string) {
    |prefix| <= |s| && s[..|prefix|] == prefix
  }
}
