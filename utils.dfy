/** The pure validation helpers of the integration: the modulus-11 check
    for Norwegian account numbers, amount validation, fixed-rate currency
    conversion through NOK, and the combined "validate, convert, compare to
    the cap" check used before a transfer. */
module Utils {
  import opened Wrappers
  import opened Text
  import opened Decimals

  /** The fixed exchange rates: how much of each currency one NOK buys. */
  const CurrencyRates: map<string, real> :=
    map["NOK" := 1.0, "SEK" := 1.0, "DKK" := 1.0, "USD" := 0.1, "EUR" := 0.083, "GBP" := 0.071]

  const SupportedCurrencies: seq<string> := ["NOK", "EUR", "USD", "SEK", "DKK", "GBP"]

  lemma RatesPositive(code: string)
    requires code in CurrencyRates
    ensures CurrencyRates[code] > 0.0
  {
  }

  // ---------------------------------------------------------------------
  // Account numbers
  // ---------------------------------------------------------------------

  /** Weights of the first ten digits in the modulus-11 sum. */
  const Weights: seq<nat> := [5, 4, 3, 2, 7, 6, 5, 4, 3, 2]

  predicate IsSeparator(c: char) {
    IsSpace(c) || c == '.'
  }

  /** The number with every whitespace character and dot removed. */
  function Clean(s: string): (t: string)
    ensures forall i :: 0 <= i < |t| ==> !IsSeparator(t[i])
  {
    if s == [] then []
    else Clean(s[..|s| - 1]) + (if IsSeparator(s[|s| - 1]) then [] else [s[|s| - 1]])
  }

  /** Sum of digit times weight over (a prefix of) the first ten digits. */
  function WeightedSum(ds: string): nat
    requires |ds| <= 10 && AllDigits(ds)
  {
    if ds == [] then 0 else WeightedSum(ds[..|ds| - 1]) + DigitValue(ds[|ds| - 1]) * Weights[|ds| - 1]
  }

  function ExpectedCheckDigit(remainder: nat): nat
    requires remainder < 11
  {
    if remainder < 2 then 0 else 11 - remainder
  }

  /** Remainder of the weighted sum of an 11-digit number's first ten digits. */
  function Remainder(t: string): nat
    requires |t| == 11 && AllDigits(t)
  {
    WeightedSum(t[..10]) % 11
  }

  predicate IsValidAccountNumber(s: string) {
    var t := Clean(s);
    |t| == 11 && AllDigits(t) && ExpectedCheckDigit(Remainder(t)) == DigitValue(t[10])
  }

  /** `validate_norwegian_account_number`: strip separators, demand eleven digits, then
      compare the last digit with the one the weighted sum of the first ten calls for. */
  method ValidateAccountNumber(accountNumber: string) returns (valid: bool)
    ensures valid <==> IsValidAccountNumber(accountNumber)
  {
    var t := Clean(accountNumber);
    if !(|t| == 11 && AllDigits(t)) {
      return false;
    }
    var checksum := 0;
    for i := 0 to 10
      invariant checksum == WeightedSum(t[..i])
    {
      assert t[..i + 1][..i] == t[..i];
      checksum := checksum + DigitValue(t[i]) * Weights[i];
    }
    var remainder := checksum % 11;
    var expected := if remainder < 2 then 0 else 11 - remainder;
    valid := expected == DigitValue(t[10]);
  }

  lemma {:induction false} CleanConcat(a: string, b: string)
    ensures Clean(a + b) == Clean(a) + Clean(b)
  {
    if b != [] {
      assert (a + b)[..|a + b| - 1] == a + b[..|b| - 1];
      CleanConcat(a, b[..|b| - 1]);
    } else {
      assert a + b == a;
    }
  }

  /** A single character survives cleaning exactly when it is not a separator. */
  lemma CleanChar(c: char)
    ensures Clean([c]) == if IsSeparator(c) then [] else [c]
  {
    assert [c][..0] == [];
  }

  /** Cleaning keeps every non-separator character, in place among the cleaned text around it. */
  lemma CleanKeeps(a: string, c: char, b: string)
    requires !IsSeparator(c)
    ensures Clean(a + [c] + b) == Clean(a) + [c] + Clean(b)
  {
    CleanConcat(a + [c], b);
    CleanConcat(a, [c]);
    CleanChar(c);
  }

  lemma {:induction false} CleanDigits(t: string)
    requires AllDigits(t)
    ensures Clean(t) == t
  {
    if t != [] {
      CleanDigits(t[..|t| - 1]);
      assert t == t[..|t| - 1] + [t[|t| - 1]];
    }
  }

  /** Spaces and dots anywhere in the input do not change the verdict. */
  lemma SeparatorIgnored(a: string, c: char, b: string)
    requires IsSeparator(c)
    ensures IsValidAccountNumber(a + [c] + b) == IsValidAccountNumber(a + b)
  {
    CleanConcat(a + [c], b);
    CleanConcat(a, [c]);
    assert [c][..0] == [];
    assert Clean([c]) == [];
    assert Clean(a + [c]) == Clean(a);
    CleanConcat(a, b);
  }

  /** The check is false unless the cleaned input is exactly eleven digits. */
  lemma ValidMeansElevenDigits(s: string)
    requires IsValidAccountNumber(s)
    ensures |Clean(s)| == 11 && AllDigits(Clean(s))
  {
  }

  /** On a clean 11-digit string the check is exactly "last digit = expected check digit". */
  lemma ValidIffCheckDigit(t: string)
    requires |t| == 11 && AllDigits(t)
    ensures IsValidAccountNumber(t) <==> DigitValue(t[10]) == ExpectedCheckDigit(Remainder(t))
  {
    CleanDigits(t);
  }

  lemma {:induction false} WeightedSumUpdate(ds: string, i: nat, c: char)
    requires |ds| <= 10 && AllDigits(ds) && i < |ds| && IsDigit(c)
    ensures AllDigits(ds[i := c])
    ensures WeightedSum(ds[i := c]) as int
         == WeightedSum(ds) as int + Weights[i] * (DigitValue(c) as int - DigitValue(ds[i]) as int)
  {
    var es := ds[i := c];
    if i == |ds| - 1 {
      assert es[..|es| - 1] == ds[..|ds| - 1];
    } else {
      assert es[..|es| - 1] == ds[..|ds| - 1][i := c];
      WeightedSumUpdate(ds[..|ds| - 1], i, c);
    }
  }

  /** No weight times a non-zero digit difference is a multiple of eleven. */
  lemma WeightedDifferenceNotMultiple(w: nat, d: int)
    requires 2 <= w <= 7 && -9 <= d <= 9 && d != 0
    ensures (w * d) % 11 != 0
  {
    if w == 2 { assert w * d == 2 * d; }
    else if w == 3 { assert w * d == 3 * d; }
    else if w == 4 { assert w * d == 4 * d; }
    else if w == 5 { assert w * d == 5 * d; }
    else if w == 6 { assert w * d == 6 * d; }
    else { assert w * d == 7 * d; }
  }

  lemma ShiftChangesRemainder(a: int, k: int)
    requires k % 11 != 0
    ensures (a + k) % 11 != a % 11
  {
  }

  /** Changing only the check digit of a valid number always invalidates it. */
  lemma CheckDigitChangeDetected(t: string, c: char)
    requires |t| == 11 && AllDigits(t) && IsValidAccountNumber(t)
    requires IsDigit(c) && c != t[10]
    ensures !IsValidAccountNumber(t[10 := c])
  {
    var u := t[10 := c];
    ValidIffCheckDigit(t);
    ValidIffCheckDigit(u);
    assert u[..10] == t[..10];
  }

  /** Changing one of the first ten digits of a valid number moves the remainder, and
      the changed number stays valid exactly when the old and new remainders are both
      below 2 (both give check digit 0): the check does not catch every single-digit error. */
  lemma BodyDigitChange(t: string, i: nat, c: char)
    requires |t| == 11 && AllDigits(t) && IsValidAccountNumber(t)
    requires i < 10 && IsDigit(c) && c != t[i]
    ensures AllDigits(t[i := c]) && Remainder(t[i := c]) != Remainder(t)
    ensures IsValidAccountNumber(t[i := c]) <==> Remainder(t) < 2 && Remainder(t[i := c]) < 2
  {
    var u := t[i := c];
    assert u[..10] == t[..10][i := c];
    WeightedSumUpdate(t[..10], i, c);
    var d := DigitValue(c) as int - DigitValue(t[i]) as int;
    assert d != 0;
    WeightedDifferenceNotMultiple(Weights[i], d);
    ShiftChangesRemainder(WeightedSum(t[..10]), Weights[i] * d);
    ValidIffCheckDigit(t);
    ValidIffCheckDigit(u);
    assert u[10] == t[10];
  }

  lemma {:induction false} WeightedSumZeros(ds: string)
    requires |ds| <= 10 && forall i :: 0 <= i < |ds| ==> ds[i] == '0'
    ensures WeightedSum(ds) == 0
  {
    if ds != [] {
      WeightedSumZeros(ds[..|ds| - 1]);
    }
  }

  /** Two valid numbers that differ in one digit: remainders 0 and 1 share check digit 0. */
  lemma UndetectedSingleDigitChange()
    ensures IsValidAccountNumber("00000000000")
    ensures IsValidAccountNumber("00000200000")
    ensures "00000200000" == "00000000000"[5 := '2']
  {
    var z := "00000000000";
    var t := "00000200000";
    assert t == z[5 := '2'];
    WeightedSumZeros(z[..10]);
    assert t[..10] == z[..10][5 := '2'];
    WeightedSumUpdate(z[..10], 5, '2');
    assert WeightedSum(t[..10]) == 12;
    ValidIffCheckDigit(z);
    ValidIffCheckDigit(t);
  }

  // ---------------------------------------------------------------------
  // Amounts
  // ---------------------------------------------------------------------

  /** The `(is_valid, decimal_amount, error_message)` triple; the amount is
      a count of hundredths, since every amount returned is quantised to 0.01. */
  datatype Checked = Checked(valid: bool, amount: Option<int>, error: string)

  const InvalidFormat := "Invalid amount format"
  const NotPositive := "Amount must be positive"

  /** `validate_amount`. The optional limit arrives as the text `str()` gives
      for it, which is what the source parses and prints. */
  function ValidateAmount(amountText: string, maxText: Option<string>): (r: Checked)
    ensures r.valid <==> r.amount.Some?
    ensures r.valid <==> r.error == ""
    ensures ParseDecimal(amountText).None? ==> r == Checked(false, None, InvalidFormat)
    ensures ParseDecimal(amountText).Some? && ParseDecimal(amountText).value <= 0.0
            ==> r == Checked(false, None, NotPositive)
    ensures r.valid <==>
              && ParseDecimal(amountText).Some?
              && ParseDecimal(amountText).value > 0.0
              && (maxText.Some? ==> ParseDecimal(maxText.value).Some?
                                    && ParseDecimal(amountText).value <= ParseDecimal(maxText.value).value)
    ensures r.valid ==> r.amount.value == QuantizeHalfEven(ParseDecimal(amountText).value)
    ensures !r.valid && r.error != InvalidFormat && r.error != NotPositive
            ==> maxText.Some? && r.error == "Amount cannot exceed " + maxText.value
    ensures ParseDecimal(amountText).Some? && ParseDecimal(amountText).value > 0.0
            && maxText.Some? && ParseDecimal(maxText.value).None?
            ==> r == Checked(false, None, InvalidFormat)
    ensures ParseDecimal(amountText).Some? && ParseDecimal(amountText).value > 0.0
            && maxText.Some? && ParseDecimal(maxText.value).Some?
            && ParseDecimal(amountText).value > ParseDecimal(maxText.value).value
            ==> r == Checked(false, None, "Amount cannot exceed " + maxText.value)
  {
    match ParseDecimal(amountText)
    case None => Checked(false, None, InvalidFormat)
    case Some(v) =>
      if v <= 0.0 then Checked(false, None, NotPositive)
      else if maxText.Some? && ParseDecimal(maxText.value).None? then Checked(false, None, InvalidFormat)
      else if maxText.Some? && v > ParseDecimal(maxText.value).value then
        Checked(false, None, "Amount cannot exceed " + maxText.value)
      else Checked(true, Some(QuantizeHalfEven(v)), "")
  }

  /** The positivity check sees the unrounded value: an amount below half a
      hundredth is accepted and comes back as zero. */
  lemma PositivityBeforeRounding(amountText: string, v: real)
    requires ParseDecimal(amountText) == Some(v) && 0.0 < v < 0.005
    ensures ValidateAmount(amountText, None) == Checked(true, Some(0), "")
  {
    assert 0.0 < v * 100.0 < 0.5;
    assert (v * 100.0).Floor == 0;
    assert QuantizeHalfEven(v) == 0;
  }

  /** Ties are rounded to the even hundredth (the default context), not upwards. */
  lemma ValidateRoundsTiesToEven(amountText: string, k: nat)
    requires ParseDecimal(amountText) == Some(k as real / 100.0 + 0.005)
    ensures ValidateAmount(amountText, None).amount == Some(if k % 2 == 0 then k else k + 1)
  {
    var v := k as real / 100.0 + 0.005;
    assert v > 0.0;
    QuantizeTie(k);
    assert ValidateAmount(amountText, None).amount == Some(QuantizeHalfEven(v));
  }

  lemma QuantizeTie(k: nat)
    ensures QuantizeHalfEven(k as real / 100.0 + 0.005) == (if k % 2 == 0 then k else k + 1)
  {
    var v := k as real / 100.0 + 0.005;
    assert v * 100.0 == k as real + 0.5;
    assert (k as real + 0.5).Floor == k;
    assert RoundHalfEven(k as real + 0.5) == (if k % 2 == 0 then k else k + 1);
  }

  /** A value that is already a whole number of hundredths is returned unchanged. */
  lemma ValidateKeepsHundredths(c: nat)
    requires c > 0
    ensures ValidateAmount(CentsString(c), None) == Checked(true, Some(c), "")
  {
    CentsStringRoundTrip(c);
    assert Cents(c) * 100.0 == c as real;
  }

  // ---------------------------------------------------------------------
  // Currency conversion
  // ---------------------------------------------------------------------

  /** `convert_currency`: `Err` carries the text of the ValueError raised. */
  function ConvertCurrency(amount: real, from: string, to: string): (r: Result<real, string>)
    ensures from !in CurrencyRates ==> r == Err("Unsupported source currency: " + from)
    ensures from in CurrencyRates && to !in CurrencyRates ==> r == Err("Unsupported target currency: " + to)
    ensures r.Ok? <==> from in CurrencyRates && to in CurrencyRates
    ensures r.Ok? && from == to ==> r.value == amount
    ensures r.Ok? && from != to ==>
              var exact := amount / CurrencyRates[from] * CurrencyRates[to];
              exact - 0.005 <= r.value <= exact + 0.005
              && r.value == Cents((r.value * 100.0).Floor)
              && r.value == Cents(QuantizeHalfEven(exact))
  {
    if from !in CurrencyRates then Err("Unsupported source currency: " + from)
    else if to !in CurrencyRates then Err("Unsupported target currency: " + to)
    else if from == to then Ok(amount)
    else
      RatesPositive(from);
      var c := QuantizeHalfEven(amount / CurrencyRates[from] * CurrencyRates[to]);
      assert (Cents(c) * 100.0).Floor == c;
      Ok(Converted(amount, CurrencyRates[from], CurrencyRates[to]))
  }

  /** Through NOK at the two rates, then quantised to hundredths (half to even). */
  function Converted(amount: real, fromRate: real, toRate: real): real
    requires fromRate > 0.0
  {
    Cents(QuantizeHalfEven(amount / fromRate * toRate))
  }

  /** 100 USD is 1000.00 NOK at the fixed rates. */
  lemma HundredDollarsInKroner()
    ensures ConvertCurrency(100.0, "USD", "NOK") == Ok(1000.0)
  {
    assert 100.0 / 0.1 * 1.0 == 1000.0;
    assert RoundHalfEven(100000.0) == 100000;
  }

  /** The rounding to hundredths happens once, at the end: whole hundredths pass
      unchanged between currencies of equal rate. */
  lemma EqualRateConversionExact(c: int, from: string, to: string)
    requires from in {"NOK", "SEK", "DKK"} && to in {"NOK", "SEK", "DKK"}
    ensures ConvertCurrency(Cents(c), from, to) == Ok(Cents(c))
  {
    assert from in CurrencyRates && to in CurrencyRates;
    if from != to {
      assert CurrencyRates[from] == 1.0 && CurrencyRates[to] == 1.0;
      assert Cents(c) / 1.0 * 1.0 * 100.0 == c as real;
      RoundHalfEvenInteger(c);
      assert Converted(Cents(c), 1.0, 1.0) == Cents(c);
    }
  }

  lemma RoundHalfEvenInteger(n: int)
    ensures RoundHalfEven(n as real) == n
  {
    assert (n as real).Floor == n;
  }

  /** The hundredths a converted amount consists of (the coefficient of the quantised Decimal). */
  function Hundredths(x: real): int {
    (x * 100.0).Floor
  }

  /** `validate_amount_with_currency_conversion`. The cap arrives as its `str()` text. */
  function ValidateWithConversion(amountText: string, transferCurrency: string,
                                  defaultCurrency: string, maxText: string): (r: Checked)
    ensures r.valid <==> r.amount.Some?
  {
    var basic := ValidateAmount(amountText, None);
    if !basic.valid then basic
    else
      var cents := basic.amount.value;
      match ConvertCurrency(Cents(cents), transferCurrency, defaultCurrency)
      case Err(msg) => Checked(false, None, msg)
      case Ok(converted) =>
        match ParseDecimal(maxText)
        case None => Checked(false, None, "Invalid amount or currency format")
        case Some(limit) =>
          if converted > limit then
            Checked(false, None, LimitMessage(cents, transferCurrency, Hundredths(converted), defaultCurrency, maxText))
          else Checked(true, Some(cents), "")
  }

  /** The outcomes of the combined check, branch by branch. */
  lemma ValidateWithConversionMeaning(amountText: string, transferCurrency: string,
                                      defaultCurrency: string, maxText: string)
    ensures var basic := ValidateAmount(amountText, None);
            var r := ValidateWithConversion(amountText, transferCurrency, defaultCurrency, maxText);
            && (!basic.valid ==> r == basic)
            && (r.valid ==> r.amount == basic.amount && r.error == "")
            && (basic.valid ==>
                  match ConvertCurrency(Cents(basic.amount.value), transferCurrency, defaultCurrency)
                  case Err(msg) => r == Checked(false, None, msg)
                  case Ok(converted) =>
                    match ParseDecimal(maxText)
                    case None => r == Checked(false, None, "Invalid amount or currency format")
                    case Some(limit) =>
                      && (r.valid <==> converted <= limit)
                      && (converted > limit ==> r.error == LimitMessage(basic.amount.value,
                            transferCurrency, Hundredths(converted), defaultCurrency, maxText)))
  {
    var basic := ValidateAmount(amountText, None);
    if basic.valid {
      assert basic.amount.Some?;
    }
  }

  function LimitMessage(cents: int, transferCurrency: string, convertedCents: int,
                        defaultCurrency: string, maxText: string): string {
    LimitText(CentsString(cents) + " " + transferCurrency, CentsString(convertedCents) + " " + defaultCurrency,
              maxText + " " + defaultCurrency)
  }

  function LimitText(original: string, converted: string, limit: string): string {
    "Transfer amount of " + original + " (equivalent to " + converted
    + ") exceeds maximum allowed amount of " + limit
  }

  predicate OccursAt(s: string, part: string, i: int) {
    0 <= i <= |s| - |part| && s[i..i + |part|] == part
  }

  ghost predicate Contains(s: string, part: string) {
    exists i :: OccursAt(s, part, i)
  }

  lemma OccursBetween(a: string, b: string, c: string)
    ensures OccursAt(a + b + c, b, |a|)
  {
    assert (a + b + c)[|a|..|a| + |b|] == b;
  }

  /** The over-the-cap message names the original amount and currency and the converted amount and currency. */
  lemma LimitMessageMentionsBoth(cents: int, from: string, convertedCents: int, to: string, maxText: string)
    ensures Contains(LimitMessage(cents, from, convertedCents, to, maxText), CentsString(cents) + " " + from)
    ensures Contains(LimitMessage(cents, from, convertedCents, to, maxText), CentsString(convertedCents) + " " + to)
  {
    LimitTextMentionsBoth(CentsString(cents) + " " + from, CentsString(convertedCents) + " " + to, maxText + " " + to);
  }

  lemma LimitTextMentionsBoth(original: string, converted: string, limit: string)
    ensures Contains(LimitText(original, converted, limit), original)
    ensures Contains(LimitText(original, converted, limit), converted)
  {
    var p := "Transfer amount of ";
    var q := " (equivalent to ";
    var tail := ") exceeds maximum allowed amount of " + limit;
    var m := LimitText(original, converted, limit);
    assert m == p + original + q + converted + tail;
    assert m == p + original + (q + converted + tail);
    OccursBetween(p, original, q + converted + tail);
    assert m == (p + original + q) + converted + tail;
    OccursBetween(p + original + q, converted, tail);
  }

  /** A converted amount equal to the cap passes, whatever the cap. */
  lemma CapIsInclusive(amountText: string, transferCurrency: string, defaultCurrency: string, maxText: string,
                       cap: real)
    requires ValidateAmount(amountText, None).valid
    requires ConvertCurrency(Cents(ValidateAmount(amountText, None).amount.value), transferCurrency, defaultCurrency)
             == Ok(cap)
    requires ParseDecimal(maxText) == Some(cap)
    ensures ValidateWithConversion(amountText, transferCurrency, defaultCurrency, maxText)
         == Checked(true, ValidateAmount(amountText, None).amount, "")
  {
  }

  /** "50" reads as 50. */
  lemma ParseFifty()
    ensures ParseDecimal("50") == Some(50.0)
  {
    var fifty := "50";
    assert Strip(fifty) == fifty;
    assert SpanDigits(fifty) == 2;
    assert fifty[..2] == fifty && fifty[2..] == [];
    assert DigitsValue(fifty + "") == 50 by {
      assert fifty + "" == fifty;
      assert fifty[..1] == "5";
    }
    assert ParseLiteral(fifty) == Some(Literal(false, fifty, "", 0));
  }

  /** "200" reads as 200. */
  lemma ParseTwoHundred()
    ensures ParseDecimal("200") == Some(200.0)
  {
    var cap := "200";
    assert Strip(cap) == cap;
    assert SpanDigits(cap) == 3;
    assert cap[..3] == cap && cap[3..] == [];
    assert DigitsValue(cap + "") == 200 by {
      assert cap + "" == cap;
      assert cap[..2] == "20" && "20"[..1] == "2" && "2"[..0] == [];
      assert DigitsValue("2") == 2;
      assert DigitsValue("20") == 20;
    }
    assert ParseLiteral(cap) == Some(Literal(false, cap, "", 0));
  }

  /** 50.00 USD is 500.00 NOK. */
  lemma FiftyDollarsInKroner()
    ensures ConvertCurrency(Cents(5000), "USD", "NOK") == Ok(500.0)
  {
    assert Cents(5000) / 0.1 * 1.0 * 100.0 == 50000.0;
    RoundHalfEvenInteger(50000);
  }

  /** The default cap of 200 NOK stops a 50 USD transfer (500.00 NOK). */
  lemma FiftyDollarsOverDefaultCap()
    ensures ValidateWithConversion("50", "USD", "NOK", "200")
         == Checked(false, None, LimitMessage(5000, "USD", 50000, "NOK", "200"))
  {
    ParseFifty();
    ParseTwoHundred();
    RoundHalfEvenInteger(5000);
    var basic := ValidateAmount("50", None);
    assert basic.amount == Some(5000);
    FiftyDollarsInKroner();
    assert Hundredths(500.0) == 50000;
  }
}
