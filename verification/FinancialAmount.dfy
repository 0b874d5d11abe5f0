/**
 Exact conversion between major-unit decimals and minor-unit integers, as strings.
 */
module FinancialAmount {
  import opened Wrappers
  import opened JournalValidation

  datatype AmountFailure = InvalidFormat | FractionalPrecision | InvalidExponent | Overflow

  type AmountResult = Result<string, AmountFailure>

  predicate IsDigit(c: char) {
    '0' <= c <= '9'
  }

  /** One or more digits. */
  predicate IsDigits(s: string) {
    s != "" && forall i | 0 <= i < |s| :: IsDigit(s[i])
  }

  predicate AllDigits(s: string) {
    forall i | 0 <= i < |s| :: IsDigit(s[i])
  }

  function Digit(c: char): nat {
    if IsDigit(c) then c as int - '0' as int else 0
  }

  function DigitChar(d: nat): (c: char)
    requires d < 10
    ensures IsDigit(c) && Digit(c) == d
  {
    (d + '0' as int) as char
  }

  /** The number a string of digits denotes. */
  function Parse(s: string): nat {
    if s == "" then 0 else Parse(s[..|s| - 1]) * 10 + Digit(s[|s| - 1])
  }

  /** The decimal digits of a number, without leading zeros. */
  function Print(n: nat): (s: string) {
    if n < 10 then [DigitChar(n)] else Print(n / 10) + [DigitChar(n % 10)]
  }

  function Pow10(n: nat): (p: nat)
    ensures p > 0
  {
    if n == 0 then 1 else 10 * Pow10(n - 1)
  }

  function Zeros(n: nat): (s: string)
    ensures |s| == n && AllDigits(s)
  {
    seq(n, _ => '0')
  }

  function PadEnd(s: string, length: nat): string {
    if |s| >= length then s else s + Zeros(length - |s|)
  }

  function PadStart(s: string, length: nat): (padded: string)
    ensures |padded| >= length
  {
    if |s| >= length then s else Zeros(length - |s|) + s
  }

  function TrimZeros(s: string): (trimmed: string)
    ensures |trimmed| <= |s| && s == trimmed + Zeros(|s| - |trimmed|)
    ensures trimmed != "" ==> trimmed[|trimmed| - 1] != '0'
  {
    if s != "" && s[|s| - 1] == '0' then
      var trimmed := TrimZeros(s[..|s| - 1]);
      assert s == s[..|s| - 1] + ['0'];
      trimmed
    else s
  }

  datatype Decimal = Decimal(whole: string, fraction: string)

  function IndexOfPoint(s: string): (index: nat)
    ensures index <= |s| && '.' !in s[..index] && (index < |s| ==> s[index] == '.')
  {
    if s == "" || s[0] == '.' then 0
    else
      var rest := IndexOfPoint(s[1..]);
      assert s[..rest + 1] == [s[0]] + s[1..][..rest];
      rest + 1
  }

  /** Digits, or digits around one point. */
  function DecimalParts(value: string): Option<Decimal> {
    var point := IndexOfPoint(value);
    if point == |value| then if IsDigits(value) then Some(Decimal(value, "")) else None
    else if IsDigits(value[..point]) && IsDigits(value[point + 1..])
    then Some(Decimal(value[..point], value[point + 1..])) else None
  }

  predicate ValidExponent(exponent: int) {
    0 <= exponent <= 38
  }

  /** `0`, or digits that do not start with `0`. */
  predicate IsMinor(value: string) {
    value == "0" || (IsDigits(value) && value[0] != '0')
  }

  function MajorToMinor(value: string, exponent: int): AmountResult {
    if !ValidExponent(exponent) then Failure(InvalidExponent)
    else if DecimalParts(value).None? then Failure(InvalidFormat)
    else
      var parts := DecimalParts(value).value;
      var fraction := TrimZeros(parts.fraction);
      if |fraction| > exponent then Failure(FractionalPrecision)
      else
        var padded := PadEnd(fraction, exponent);
        var minor := Parse(parts.whole) * Pow10(exponent) + Parse(if padded == "" then "0" else padded);
        if minor > FINANCIAL_LEDGER_MAX_MINOR then Failure(Overflow) else Success(Print(minor))
  }

  function MinorToMajor(value: string, exponent: int): AmountResult {
    if !ValidExponent(exponent) then Failure(InvalidExponent)
    else if !IsMinor(value) then Failure(InvalidFormat)
    else if Parse(value) > FINANCIAL_LEDGER_MAX_MINOR then Failure(Overflow)
    else if exponent == 0 then Success(Print(Parse(value)))
    else
      var digits := PadStart(Print(Parse(value)), exponent + 1);
      var point := |digits| - exponent;
      Success(digits[..point] + "." + digits[point..])
  }

  // ----- digits

  lemma {:induction false} ParseConcat(left: string, right: string)
    ensures Parse(left + right) == Parse(left) * Pow10(|right|) + Parse(right)
    decreases |right|
  {
    if right == "" {
      assert left + right == left;
    } else {
      var init := right[..|right| - 1];
      assert (left + right)[..|left + right| - 1] == left + init;
      ParseConcat(left, init);
      Distribute(Parse(left), Pow10(|init|), Parse(init));
    }
  }

  lemma Distribute(a: nat, p: nat, b: nat)
    ensures (a * p + b) * 10 == a * (10 * p) + b * 10
  {
  }

  lemma {:induction false} ParseZeros(n: nat)
    ensures Parse(Zeros(n)) == 0
  {
    if n > 0 {
      assert Zeros(n)[..n - 1] == Zeros(n - 1);
      ParseZeros(n - 1);
    }
  }

  lemma ParsePadStart(s: string, length: nat)
    ensures Parse(PadStart(s, length)) == Parse(s)
  {
    if |s| < length {
      ParseConcat(Zeros(length - |s|), s);
      ParseZeros(length - |s|);
    }
  }

  lemma ParsePadEnd(s: string, length: nat)
    requires |s| <= length
    ensures Parse(PadEnd(s, length)) == Parse(s) * Pow10(length - |s|)
  {
    if |s| < length {
      ParseConcat(s, Zeros(length - |s|));
      ParseZeros(length - |s|);
    }
  }

  lemma {:induction false} ParsePrint(n: nat)
    ensures Parse(Print(n)) == n && IsDigits(Print(n)) && IsMinor(Print(n))
  {
    if n >= 10 {
      ParsePrint(n / 10);
      assert Print(n)[..|Print(n)| - 1] == Print(n / 10);
      PrintPositive(n / 10);
    } else {
      assert Print(n)[..0] == "";
    }
  }

  lemma {:induction false} PrintPositive(n: nat)
    requires n > 0
    ensures Print(n)[0] != '0'
  {
    if n >= 10 { PrintPositive(n / 10); }
  }

  lemma {:induction false} PowAdd(a: nat, b: nat)
    ensures Pow10(a + b) == Pow10(a) * Pow10(b)
  {
    if a > 0 {
      PowAdd(a - 1, b);
      assert 10 * (Pow10(a - 1) * Pow10(b)) == (10 * Pow10(a - 1)) * Pow10(b);
    }
  }

  lemma {:induction false} ParseBound(s: string)
    ensures Parse(s) < Pow10(|s|)
  {
    if s != "" { ParseBound(s[..|s| - 1]); }
  }

  lemma NoPointInDigits(s: string)
    requires AllDigits(s)
    ensures '.' !in s
  {
  }

  /** A decimal is read back as the digits around its point. */
  lemma PartsOfDecimal(whole: string, fraction: string)
    requires IsDigits(whole) && IsDigits(fraction)
    ensures DecimalParts(whole + "." + fraction) == Some(Decimal(whole, fraction))
  {
    var value := whole + "." + fraction;
    NoPointInDigits(whole);
    assert value[..|whole|] == whole && value[|whole| + 1..] == fraction;
    PointIsFirst(value, |whole|);
  }

  lemma {:induction false} PointIsFirst(s: string, index: nat)
    requires index < |s| && s[index] == '.' && '.' !in s[..index]
    ensures IndexOfPoint(s) == index
  {
    if index > 0 {
      assert s[..index][0] == s[0];
      assert s[1..][..index - 1] == s[..index][1..];
      PointIsFirst(s[1..], index - 1);
    }
  }

  lemma PartsOfWhole(whole: string)
    requires IsDigits(whole)
    ensures DecimalParts(whole) == Some(Decimal(whole, ""))
  {
    NoPointInDigits(whole);
  }

  // ----- exactness

  /** `minor` at this exponent is the amount the decimal denotes: whole.fraction * 10^exponent == minor. */
  predicate Denotes(parts: Decimal, exponent: nat, minor: nat) {
    Parse(parts.whole + parts.fraction) * Pow10(exponent) == minor * Pow10(|parts.fraction|)
  }

  /** The minor amount the conversion computes for a fraction short enough. */
  function MinorOf(parts: Decimal, exponent: nat): nat
    requires |TrimZeros(parts.fraction)| <= exponent
  {
    var fraction := TrimZeros(parts.fraction);
    Parse(parts.whole) * Pow10(exponent) + Parse(fraction) * Pow10(exponent - |fraction|)
  }

  lemma ConversionComputes(value: string, exponent: nat)
    requires exponent <= 38 && DecimalParts(value).Some?
    ensures var parts := DecimalParts(value).value;
      MajorToMinor(value, exponent)
        == if |TrimZeros(parts.fraction)| > exponent then Failure(FractionalPrecision)
           else if MinorOf(parts, exponent) > FINANCIAL_LEDGER_MAX_MINOR then Failure(Overflow)
           else Success(Print(MinorOf(parts, exponent)))
  {
    var fraction := TrimZeros(DecimalParts(value).value.fraction);
    if |fraction| <= exponent {
      ParsePadEnd(fraction, exponent);
      assert "0"[..0] == "" && Parse("0") == 0;
    }
  }

  lemma Rearrange(w: nat, f: nat, e: nat, t: nat, k: nat, r: nat)
    ensures (w * (t * k) + f * k) * (t * r) == (w * (t * r) + f * r) * (t * k)
  {
    assert (w * (t * k) + f * k) * (t * r) == (w * t + f) * k * (t * r) by {
      assert w * (t * k) + f * k == (w * t + f) * k;
    }
    assert (w * (t * r) + f * r) * (t * k) == (w * t + f) * r * (t * k) by {
      assert w * (t * r) + f * r == (w * t + f) * r;
    }
    assert (w * t + f) * k * (t * r) == (w * t + f) * r * (t * k);
  }

  /** The digits of a decimal, with the fraction split into its significant part and trailing zeros. */
  lemma ParseWhole(parts: Decimal)
    ensures var t := TrimZeros(parts.fraction);
      Parse(parts.whole + parts.fraction)
        == Parse(parts.whole) * (Pow10(|t|) * Pow10(|parts.fraction| - |t|)) + Parse(t) * Pow10(|parts.fraction| - |t|)
  {
    var t := TrimZeros(parts.fraction);
    var k := |parts.fraction| - |t|;
    ParseConcat(parts.whole, parts.fraction);
    ParseConcat(t, Zeros(k));
    ParseZeros(k);
    PowAdd(|t|, k);
  }

  lemma ComputedDenotes(parts: Decimal, exponent: nat)
    requires |TrimZeros(parts.fraction)| <= exponent
    ensures Denotes(parts, exponent, MinorOf(parts, exponent))
  {
    var t := TrimZeros(parts.fraction);
    var k, r := |parts.fraction| - |t|, exponent - |t|;
    ParseWhole(parts);
    PowAdd(|t|, k);
    PowAdd(|t|, r);
    Rearrange(Parse(parts.whole), Parse(t), exponent, Pow10(|t|), Pow10(k), Pow10(r));
  }

  lemma CancelFactor(a: nat, b: nat, p: nat)
    requires p > 0 && a * p == b * p
    ensures a == b
  {
    LessTimes(a, b, p);
    LessTimes(b, a, p);
  }

  lemma LessTimes(a: nat, b: nat, p: nat)
    requires p > 0
    ensures a < b ==> a * p < b * p
  {
    if a < b { assert b * p == a * p + (b - a) * p; }
  }

  lemma DenotedOnce(parts: Decimal, exponent: nat, left: nat, right: nat)
    requires Denotes(parts, exponent, left) && Denotes(parts, exponent, right)
    ensures left == right
  {
    CancelFactor(left, right, Pow10(|parts.fraction|));
  }

  /** A denoted amount is the significant digits shifted by the digits in excess. */
  lemma DenotedIsShifted(parts: Decimal, exponent: nat, minor: nat)
    requires |TrimZeros(parts.fraction)| > exponent
    ensures var t := TrimZeros(parts.fraction);
      Denotes(parts, exponent, minor) ==>
        Parse(parts.whole) * Pow10(|t|) + Parse(t) == minor * Pow10(|t| - exponent)
  {
    var t := TrimZeros(parts.fraction);
    var k, d := |parts.fraction| - |t|, |t| - exponent;
    ParseWhole(parts);
    PowAdd(|t|, k);
    PowAdd(exponent, d);
    var digits := Parse(parts.whole) * Pow10(|t|) + Parse(t);
    assert Parse(parts.whole + parts.fraction) == digits * Pow10(k) by {
      FactorOut(Parse(parts.whole), Pow10(|t|), Parse(t), Pow10(k));
    }
    if Denotes(parts, exponent, minor) { ShiftedEqual(digits, minor, Pow10(k), Pow10(exponent), Pow10(d)); }
  }

  lemma FactorOut(w: nat, t: nat, f: nat, k: nat)
    ensures w * (t * k) + f * k == (w * t + f) * k
  {
  }

  lemma EndsInZero(minor: nat, d: nat)
    requires d > 0
    ensures (minor * Pow10(d)) % 10 == 0
  {
    assert minor * Pow10(d) == 10 * (minor * Pow10(d - 1));
  }

  /** A fraction with too many significant digits denotes no minor amount. */
  lemma TooPreciseDenotesNothing(parts: Decimal, exponent: nat, minor: nat)
    requires AllDigits(parts.fraction) && |TrimZeros(parts.fraction)| > exponent
    ensures !Denotes(parts, exponent, minor)
  {
    var t := TrimZeros(parts.fraction);
    assert t[|t| - 1] == parts.fraction[|t| - 1];
    LastDigitNotZero(parts.whole, t);
    EndsInZero(minor, |t| - exponent);
    DenotedIsShifted(parts, exponent, minor);
  }

  /** digits * k * e == minor * (e * d * k) leaves digits == minor * d. */
  lemma ShiftedEqual(digits: nat, minor: nat, k: nat, e: nat, d: nat)
    requires k > 0 && e > 0 && (digits * k) * e == minor * ((e * d) * k)
    ensures digits == minor * d
  {
    assert (digits * k) * e == digits * (k * e);
    assert minor * ((e * d) * k) == (minor * d) * (k * e);
    assert k * e > 0;
    CancelFactor(digits, minor * d, k * e);
  }

  lemma LastDigitNotZero(whole: string, t: string)
    requires t != "" && IsDigit(t[|t| - 1]) && t[|t| - 1] != '0'
    ensures Parse(whole + t) == Parse(whole) * Pow10(|t|) + Parse(t) && Parse(whole + t) % 10 != 0
  {
    assert Parse(whole + t) % 10 == Digit(t[|t| - 1]) % 10 by { LastDigit(whole + t); }
    assert Parse(whole + t) == Parse(whole) * Pow10(|t|) + Parse(t) by { ParseConcat(whole, t); }
  }

  lemma LastDigit(s: string)
    requires s != ""
    ensures Parse(s) % 10 == Digit(s[|s| - 1]) % 10
  {
  }

  lemma ConversionAt(value: string, exponent: nat, minor: nat)
    requires exponent <= 38 && DecimalParts(value).Some?
    ensures var parts := DecimalParts(value).value;
      && (MajorToMinor(value, exponent) == Success(Print(minor)) <==>
            Denotes(parts, exponent, minor) && minor <= FINANCIAL_LEDGER_MAX_MINOR)
      && (Denotes(parts, exponent, minor) && minor > FINANCIAL_LEDGER_MAX_MINOR ==> MajorToMinor(value, exponent) == Failure(Overflow))
      && (MajorToMinor(value, exponent) == Failure(FractionalPrecision) ==> !Denotes(parts, exponent, minor))
  {
    var parts := DecimalParts(value).value;
    ConversionComputes(value, exponent);
    if |TrimZeros(parts.fraction)| > exponent {
      TooPreciseDenotesNothing(parts, exponent, minor);
    } else {
      var computed := MinorOf(parts, exponent);
      ComputedDenotes(parts, exponent);
      if Denotes(parts, exponent, minor) { DenotedOnce(parts, exponent, minor, computed); }
      ParsePrint(minor);
      ParsePrint(computed);
    }
  }

  /** Digits, or digits, a point and digits. */
  ghost predicate IsDecimal(value: string) {
    IsDigits(value) || exists point :: 0 <= point < |value| && PointAt(value, point)
  }

  predicate PointAt(value: string, point: nat)
    requires point < |value|
  {
    value[point] == '.' && IsDigits(value[..point]) && IsDigits(value[point + 1..])
  }

  lemma DecimalHasParts(value: string)
    ensures DecimalParts(value).Some? <==> IsDecimal(value)
  {
    if IsDigits(value) { PartsOfWhole(value); }
    if point :| 0 <= point < |value| && PointAt(value, point) {
      assert value == value[..point] + "." + value[point + 1..];
      PartsOfDecimal(value[..point], value[point + 1..]);
    }
    var point := IndexOfPoint(value);
    assert DecimalParts(value).Some? && point < |value| ==> PointAt(value, point);
  }

  /** The decimal denotes a minor amount above the ledger's limit. */
  ghost predicate DenotesTooMuch(parts: Decimal, exponent: nat) {
    exists minor: nat :: Denotes(parts, exponent, minor) && minor > FINANCIAL_LEDGER_MAX_MINOR
  }

  ghost predicate DenotesNothing(parts: Decimal, exponent: nat) {
    forall minor: nat :: !Denotes(parts, exponent, minor)
  }

  /** What the conversion of a decimal at a valid exponent means. */
  ghost predicate Exact(parts: Decimal, exponent: nat, result: AmountResult) {
    && (result == Failure(FractionalPrecision) <==> DenotesNothing(parts, exponent))
    && (result == Failure(Overflow) <==> DenotesTooMuch(parts, exponent))
    && (forall minor: nat :: Denotes(parts, exponent, minor) ==>
          (result == Success(Print(minor)) <==> minor <= FINANCIAL_LEDGER_MAX_MINOR))
    && (result.Success? ==> exists minor: nat :: Denotes(parts, exponent, minor) && result.value == Print(minor))
  }

  lemma DecimalConvertsExactly(value: string, exponent: nat)
    requires exponent <= 38 && DecimalParts(value).Some?
    ensures Exact(DecimalParts(value).value, exponent, MajorToMinor(value, exponent))
  {
    var parts, result := DecimalParts(value).value, MajorToMinor(value, exponent);
    ConversionComputes(value, exponent);
    if |TrimZeros(parts.fraction)| > exponent {
      forall minor: nat ensures !Denotes(parts, exponent, minor) {
        TooPreciseDenotesNothing(parts, exponent, minor);
      }
    } else {
      var computed := MinorOf(parts, exponent);
      ComputedDenotes(parts, exponent);
      forall minor: nat | Denotes(parts, exponent, minor) ensures minor == computed {
        DenotedOnce(parts, exponent, minor, computed);
      }
    }
  }

  /**
   Every input and every exponent: a decimal at a valid exponent converts exactly when it denotes a whole number of
   minor units within range, and then to that number; each failure occurs exactly for what it names.
   */
  lemma ConversionIsExact(value: string, exponent: int)
    ensures var result := MajorToMinor(value, exponent);
      && (result == Failure(InvalidExponent) <==> exponent < 0 || exponent > 38)
      && (result == Failure(InvalidFormat) <==> 0 <= exponent <= 38 && !IsDecimal(value))
      && (0 <= exponent <= 38 && IsDecimal(value) ==>
            DecimalParts(value).Some? && Exact(DecimalParts(value).value, exponent, result))
  {
    DecimalHasParts(value);
    if 0 <= exponent <= 38 && IsDecimal(value) { DecimalConvertsExactly(value, exponent); }
  }

  // ----- round trip

  /** The digits written for a minor amount, and the point that splits them. */
  lemma WrittenDigits(minor: nat, exponent: nat)
    ensures var digits := PadStart(Print(minor), exponent + 1);
      && |digits| > exponent && AllDigits(digits) && Parse(digits) == minor
      && IsDigits(digits[..|digits| - exponent]) && (exponent > 0 ==> IsDigits(digits[|digits| - exponent..]))
  {
    PaddedDigits(minor, exponent + 1);
    var digits := PadStart(Print(minor), exponent + 1);
    SlicesAreDigits(digits, |digits| - exponent);
  }

  lemma PaddedDigits(minor: nat, length: nat)
    ensures AllDigits(PadStart(Print(minor), length)) && Parse(PadStart(Print(minor), length)) == minor
  {
    ParsePrint(minor);
    ParsePadStart(Print(minor), length);
  }

  lemma SlicesAreDigits(digits: string, k: nat)
    requires AllDigits(digits) && k <= |digits|
    ensures AllDigits(digits[..k]) && AllDigits(digits[k..])
  {
  }

  lemma WrittenDecimal(minor: nat, exponent: nat) returns (whole: string, fraction: string)
    requires minor <= FINANCIAL_LEDGER_MAX_MINOR && 0 < exponent <= 38
    ensures IsDigits(whole) && IsDigits(fraction) && |fraction| == exponent && Parse(whole + fraction) == minor
    ensures MinorToMajor(Print(minor), exponent) == Success(whole + "." + fraction)
  {
    var digits := PadStart(Print(minor), exponent + 1);
    WrittenDigits(minor, exponent);
    assert IsMinor(Print(minor)) && Parse(Print(minor)) == minor by { ParsePrint(minor); }
    whole, fraction := digits[..|digits| - exponent], digits[|digits| - exponent..];
    assert whole + fraction == digits;
  }

  /** A decimal with as many places as the exponent denotes its own digits. */
  lemma OwnDigits(parts: Decimal, minor: nat)
    requires Parse(parts.whole + parts.fraction) == minor
    ensures Denotes(parts, |parts.fraction|, minor)
  {
  }

  lemma DecimalReadsBack(whole: string, fraction: string, minor: nat)
    requires IsDigits(whole) && IsDigits(fraction) && |fraction| <= 38
    requires Parse(whole + fraction) == minor <= FINANCIAL_LEDGER_MAX_MINOR
    ensures MajorToMinor(whole + "." + fraction, |fraction|) == Success(Print(minor))
  {
    PartsOfDecimal(whole, fraction);
    OwnDigits(Decimal(whole, fraction), minor);
    ConversionAt(whole + "." + fraction, |fraction|, minor);
  }

  lemma WholeReadsBack(whole: string, minor: nat)
    requires IsDigits(whole) && Parse(whole) == minor <= FINANCIAL_LEDGER_MAX_MINOR
    ensures MajorToMinor(whole, 0) == Success(Print(minor))
  {
    PartsOfWhole(whole);
    assert whole + "" == whole;
    OwnDigits(Decimal(whole, ""), minor);
    ConversionAt(whole, 0, minor);
  }

  /** A minor amount written with its point: the fraction as wide as the exponent, no superfluous zero in front. */
  ghost predicate Writes(result: string, minor: nat, exponent: nat, whole: string, fraction: string) {
    && result == (if exponent == 0 then whole else whole + "." + fraction)
    && IsDigits(whole) && (|whole| > 1 ==> whole[0] != '0') && AllDigits(fraction) && |fraction| == exponent
    && Parse(whole + fraction) == minor
  }

  /**
   Every input and every exponent: a canonical minor amount within range at a valid exponent is written exactly, and each
   failure occurs exactly for what it names.
   */
  lemma MinorIsWrittenExactly(value: string, exponent: int)
    ensures var result := MinorToMajor(value, exponent);
      var canonical := value == "0" || (IsDigits(value) && value[0] != '0');
      && (result == Failure(InvalidExponent) <==> exponent < 0 || exponent > 38)
      && (result == Failure(InvalidFormat) <==> 0 <= exponent <= 38 && !canonical)
      && (result == Failure(Overflow) <==> 0 <= exponent <= 38 && canonical && Parse(value) > FINANCIAL_LEDGER_MAX_MINOR)
      && result != Failure(FractionalPrecision)
      && (result.Success? ==> exists whole, fraction :: Writes(result.value, Parse(value), exponent, whole, fraction))
  {
    if MinorToMajor(value, exponent).Success? { SuccessIsWritten(value, exponent); }
  }

  lemma SuccessIsWritten(value: string, exponent: nat)
    requires exponent <= 38 && MinorToMajor(value, exponent).Success?
    ensures exists whole, fraction :: Writes(MinorToMajor(value, exponent).value, Parse(value), exponent, whole, fraction)
  {
    var minor := Parse(value);
    if exponent == 0 {
      ParsePrint(minor);
      PrintCanonical(minor);
      assert Print(minor) + "" == Print(minor);
      assert Writes(Print(minor), minor, 0, Print(minor), "");
    } else {
      var digits := PadStart(Print(minor), exponent + 1);
      var whole, fraction := digits[..|digits| - exponent], digits[|digits| - exponent..];
      WrittenDigits(minor, exponent);
      CanonicalFront(minor, exponent);
      assert whole + fraction == digits;
      assert Writes(whole + "." + fraction, minor, exponent, whole, fraction);
    }
  }

  lemma PrintCanonical(minor: nat)
    ensures |Print(minor)| > 1 ==> Print(minor)[0] != '0'
  {
    if minor >= 10 { PrintPositive(minor); }
  }

  lemma CanonicalFront(minor: nat, exponent: nat)
    ensures var digits := PadStart(Print(minor), exponent + 1);
      |digits| - exponent > 1 ==> digits[0] != '0'
  {
    PrintCanonical(minor);
  }

  /** Converting a minor amount to a decimal and back gives the amount again. */
  lemma MinorRoundTrip(minor: nat, exponent: nat)
    requires minor <= FINANCIAL_LEDGER_MAX_MINOR && exponent <= 38
    ensures MinorToMajor(Print(minor), exponent).Success?
    ensures MajorToMinor(MinorToMajor(Print(minor), exponent).value, exponent) == Success(Print(minor))
  {
    if exponent == 0 {
      assert Parse(Print(minor)) == minor && IsDigits(Print(minor)) && IsMinor(Print(minor)) by { ParsePrint(minor); }
      WholeReadsBack(Print(minor), minor);
    } else {
      var whole, fraction := WrittenDecimal(minor, exponent);
      DecimalReadsBack(whole, fraction, minor);
    }
  }

  // ----- the ERP contract

  /** Up to 18 digits, and one or two after a point if there is one. */
  predicate IsMajorAmount(value: string) {
    && DecimalParts(value).Some?
    && |DecimalParts(value).value.whole| <= 18 && |DecimalParts(value).value.fraction| <= 2
  }

  lemma PowersUsed()
    ensures Pow10(2) == 100 && Pow10(18) == 1000000000000000000
  {
    assert Pow10(6) == 1000000;
    PowAdd(6, 6);
    PowAdd(12, 6);
  }

  lemma BoundedDigits(s: string, length: nat)
    requires |s| <= length
    ensures Parse(s) < Pow10(length)
  {
    ParseBound(s);
    PowMonotone(|s|, length);
  }

  lemma ProductBound(a: nat, b: nat, limit: nat)
    requires a <= limit && b <= limit
    ensures a * b <= limit * limit
  {
    assert a * b <= limit * b;
    assert limit * b <= limit * limit;
  }

  lemma ShortDecimalIsSmall(parts: Decimal)
    requires |parts.whole| <= 18 && |parts.fraction| <= 2
    ensures MinorOf(parts, 2) <= FINANCIAL_LEDGER_MAX_MINOR
  {
    var t := TrimZeros(parts.fraction);
    var whole, fraction, scale := Parse(parts.whole), Parse(t), Pow10(2 - |t|);
    assert whole < 1000000000000000000 && fraction < 100 && scale <= 100 && Pow10(2) == 100 by {
      PowersUsed();
      BoundedDigits(parts.whole, 18);
      BoundedDigits(t, 2);
      PowMonotone(2 - |t|, 2);
    }
    ProductBound(fraction, scale, 100);
  }

  /** No amount of the ERP contract makes the exact conversion throw at its scale of two. */
  lemma MajorAmountsConvert(value: string)
    requires IsMajorAmount(value)
    ensures MajorToMinor(value, 2).Success?
  {
    ConversionComputes(value, 2);
    ShortDecimalIsSmall(DecimalParts(value).value);
  }

  lemma {:induction false} PowMonotone(a: nat, b: nat)
    requires a <= b
    ensures Pow10(a) <= Pow10(b)
  {
    if a < b { PowMonotone(a, b - 1); }
  }
}
