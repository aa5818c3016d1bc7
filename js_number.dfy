/**
 * JavaScript numbers as the request handlers see them.  A finite number is kept as
 * an exact decimal `mantissa * 10^exponent` (JSON and query-string literals are
 * decimal); the rounding to IEEE-754 doubles is not modelled (see README).  The
 * module gives `Number(string)` (StringToNumber of ECMAScript section 7.1.4.1.1),
 * the comparison and `Math.min`/`Math.max` semantics including NaN, and
 * `Number::toString`.
 */
module JsNumber {
  import opened Wrappers
  import JsString

  datatype Decimal = Decimal(mantissa: int, exponent: int)

  datatype Number = Finite(d: Decimal) | Infinite(negative: bool) | NaN

  function Pow10(n: nat): (p: nat)
    ensures p >= 1
  {
    if n == 0 then 1 else 10 * Pow10(n - 1)
  }

  /** The exact value of a decimal. */
  function Value(d: Decimal): real {
    if d.exponent >= 0 then (d.mantissa * Pow10(d.exponent)) as real
    else d.mantissa as real / Pow10(-d.exponent) as real
  }

  function FromInt(n: int): Number {
    Finite(Decimal(n, 0))
  }

  lemma ValueOfInt(n: int)
    ensures Value(Decimal(n, 0)) == n as real
  {
  }

  /** `Number.isFinite`. */
  predicate IsFinite(x: Number) {
    x.Finite?
  }

  /** `x < y`: a comparison with NaN is false. */
  predicate Less(x: Number, y: Number) {
    match (x, y)
    case (NaN, _) => false
    case (_, NaN) => false
    case (Infinite(a), Infinite(b)) => a && !b
    case (Infinite(a), Finite(_)) => a
    case (Finite(_), Infinite(b)) => !b
    case (Finite(a), Finite(b)) => Value(a) < Value(b)
  }

  /** `x === y` on numbers: NaN equals nothing. */
  predicate StrictEquals(x: Number, y: Number) {
    match (x, y)
    case (Finite(a), Finite(b)) => Value(a) == Value(b)
    case (Infinite(a), Infinite(b)) => a == b
    case _ => false
  }

  predicate LessOrEqual(x: Number, y: Number) {
    Less(x, y) || StrictEquals(x, y)
  }

  /** `Math.min(x, y)`: NaN when either argument is. */
  function Min(x: Number, y: Number): (r: Number)
    ensures x.NaN? || y.NaN? <==> r.NaN?
    ensures !r.NaN? ==> LessOrEqual(r, x) && LessOrEqual(r, y) && (r == x || r == y)
  {
    if x.NaN? || y.NaN? then NaN else if Less(y, x) then y else x
  }

  /** `Math.max(x, y)`: NaN when either argument is. */
  function Max(x: Number, y: Number): (r: Number)
    ensures x.NaN? || y.NaN? <==> r.NaN?
    ensures !r.NaN? ==> LessOrEqual(x, r) && LessOrEqual(y, r) && (r == x || r == y)
  {
    if x.NaN? || y.NaN? then NaN else if Less(x, y) then y else x
  }

  /**
   * The least decimal value that rounds to infinity as an IEEE-754 double:
   * 2^1024 - 2^970, halfway between the largest finite double and 2^1024.
   */
  const OverflowThreshold: nat := 179769313486231580793728971405303415079934132710037826936173778980444968292764750946649017977587207096330286416692887910946555547851940402630657488671505820681908902000708383676273854845817711531764475730270069855571366959622842914819860834936475292719074168444365510704342711559699508093042880177904174497792

  /** A parsed magnitude `d` with its sign, as a double: too large a value is an infinity. */
  function Round(negative: bool, d: Decimal): (r: Number)
    requires d.mantissa >= 0
    ensures Value(d) >= OverflowThreshold as real <==> r == Infinite(negative)
    ensures r.Finite? ==> Value(r.d) == if negative then -Value(d) else Value(d)
  {
    if Value(d) >= OverflowThreshold as real then Infinite(negative)
    else if negative then Finite(Decimal(-d.mantissa, d.exponent)) else Finite(d)
  }

  // ---- StringToNumber ----

  predicate IsDigitIn(c: char, base: nat) {
    DigitValue(c) < base
  }

  /** The value of a digit character in any base up to 36; 36 for a non-digit. */
  function DigitValue(c: char): nat {
    if '0' <= c <= '9' then c as int - '0' as int
    else if 'a' <= c <= 'z' then c as int - 'a' as int + 10
    else if 'A' <= c <= 'Z' then c as int - 'A' as int + 10
    else 36
  }

  predicate AllDigits(s: string, base: nat) {
    forall k :: 0 <= k < |s| ==> IsDigitIn(s[k], base)
  }

  /** The value of a string of digits, most significant first. */
  function DigitsValue(s: string, base: nat): nat
    requires AllDigits(s, base)
  {
    if s == [] then 0 else DigitsValue(s[..|s| - 1], base) * base + DigitValue(s[|s| - 1])
  }

  /** The index of the first occurrence of `c`, if any. */
  function IndexOf(s: string, c: char): (r: Option<nat>)
    ensures r.Some? ==> r.value < |s| && s[r.value] == c && forall k :: 0 <= k < r.value ==> s[k] != c
    ensures r.None? ==> forall k :: 0 <= k < |s| ==> s[k] != c
  {
    if s == [] then None
    else if s[0] == c then Some(0)
    else
      var r := IndexOf(s[1..], c);
      if r.Some? then Some(r.value + 1) else None
  }

  /** `[+-]? DecimalDigits` of an exponent part. */
  function ParseExponent(s: string): Option<int> {
    var sign := if s != [] && s[0] == '-' then -1 else 1;
    var digits := if s != [] && (s[0] == '-' || s[0] == '+') then s[1..] else s;
    if digits != [] && AllDigits(digits, 10) then Some(sign * DigitsValue(digits, 10)) else None
  }

  /** `DecimalDigits . DecimalDigits? | . DecimalDigits | DecimalDigits`, as a decimal. */
  function ParseMantissa(s: string): (r: Option<Decimal>)
    ensures r.Some? ==> r.value.mantissa >= 0
  {
    var dot := IndexOf(s, '.');
    if dot.None? then
      if s == [] || !AllDigits(s, 10) then None else Some(Decimal(DigitsValue(s, 10), 0))
    else
      var whole, frac := s[..dot.value], s[dot.value + 1..];
      if (whole == [] && frac == []) || !AllDigits(whole, 10) || !AllDigits(frac, 10) then None
      else Some(Decimal(DigitsValue(whole + frac, 10), -|frac|))
  }

  /** StrUnsignedDecimalLiteral without `Infinity`. */
  function ParseUnsignedDecimal(s: string): (r: Option<Decimal>)
    ensures r.Some? ==> r.value.mantissa >= 0
  {
    var e := IndexOf(s, 'e');
    var cap := IndexOf(s, 'E');
    var at := if e.Some? && (cap.None? || e.value < cap.value) then e else cap;
    if at.None? then ParseMantissa(s)
    else
      var m := ParseMantissa(s[..at.value]);
      var x := ParseExponent(s[at.value + 1..]);
      if m.None? || x.None? then None
      else Some(Decimal(m.value.mantissa, m.value.exponent + x.value))
  }

  /** `0x`, `0o` or `0b` followed by digits of that base (no sign allowed). */
  function ParseNonDecimal(t: string): Option<nat> {
    if |t| <= 2 || t[0] != '0' then None
    else
      var base := if t[1] == 'x' || t[1] == 'X' then 16
                  else if t[1] == 'o' || t[1] == 'O' then 8
                  else if t[1] == 'b' || t[1] == 'B' then 2
                  else 0;
      if base == 0 || !AllDigits(t[2..], base) then None else Some(DigitsValue(t[2..], base))
  }

  /** `Number(s)` for a string. */
  function StringToNumber(s: string): Number {
    var t := JsString.Trim(s);
    if t == [] then FromInt(0)
    else if t == "Infinity" || t == "+Infinity" then Infinite(false)
    else if t == "-Infinity" then Infinite(true)
    else
      var nd := ParseNonDecimal(t);
      if nd.Some? then Round(false, Decimal(nd.value, 0))
      else
        var negative := t[0] == '-';
        var body := if t[0] == '-' || t[0] == '+' then t[1..] else t;
        var d := ParseUnsignedDecimal(body);
        if d.None? then NaN else Round(negative, d.value)
  }

  // ---- Number.parseFloat ----

  /** The end of the run of decimal digits that starts at `i`. */
  function DigitRun(s: string, i: nat): (j: nat)
    requires i <= |s|
    ensures i <= j <= |s| && AllDigits(s[i..j], 10)
    ensures j < |s| ==> !IsDigitIn(s[j], 10)
    decreases |s| - i
  {
    if i < |s| && IsDigitIn(s[i], 10) then
      var j := DigitRun(s, i + 1);
      assert s[i..j] == [s[i]] + s[i + 1..j];
      j
    else i
  }

  /** An exponent part `e`/`E`, optional sign, digits, at index `i`; `None` if there is none. */
  function ExponentAt(u: string, i: nat): Option<int>
    requires i <= |u|
  {
    if i < |u| && (u[i] == 'e' || u[i] == 'E') then
      var signed := i + 1 < |u| && (u[i + 1] == '-' || u[i + 1] == '+');
      var start := if signed then i + 2 else i + 1;
      var end := DigitRun(u, start);
      if end == start then None
      else Some((if signed && u[i + 1] == '-' then -1 else 1) * DigitsValue(u[start..end], 10))
    else None
  }

  /** The longest prefix of `u` that is an unsigned decimal literal, as a decimal. */
  function DecimalPrefix(u: string): (r: Option<Decimal>)
    ensures r.Some? ==> r.value.mantissa >= 0
  {
    var a := DigitRun(u, 0);
    var hasDot := a < |u| && u[a] == '.';
    var b := if hasDot then DigitRun(u, a + 1) else a;
    var whole := u[..a];
    var frac := if hasDot then u[a + 1..b] else [];
    if whole == [] && frac == [] then None
    else
      assert AllDigits(whole + frac, 10) by {
        assert forall k :: 0 <= k < |whole + frac| ==> (whole + frac)[k] == (if k < |whole| then whole[k] else frac[k - |whole|]);
      }
      var x := ExponentAt(u, b);
      Some(Decimal(DigitsValue(whole + frac, 10), -|frac| + x.GetOr(0)))
  }

  /**
   * `Number.parseFloat(s)`: leading whitespace is skipped and the longest prefix that
   * is a decimal literal (or `Infinity`), with an optional sign, is read; NaN when
   * there is none.
   */
  function ParseFloat(s: string): Number {
    var t := s[JsString.LeadingCount(s)..];
    var negative := t != [] && t[0] == '-';
    var u := if t != [] && (t[0] == '-' || t[0] == '+') then t[1..] else t;
    if JsString.StartsWith(u, "Infinity") then Infinite(negative)
    else
      var d := DecimalPrefix(u);
      if d.None? then NaN else Round(negative, d.value)
  }

  lemma DigitRunOfDigits(s: string)
    requires AllDigits(s, 10)
    ensures DigitRun(s, 0) == |s|
  {
    DigitRunFrom(s, 0);
  }

  lemma {:induction false} DigitRunFrom(s: string, i: nat)
    requires i <= |s| && AllDigits(s, 10)
    ensures DigitRun(s, i) == |s|
    decreases |s| - i
  {
    if i < |s| {
      DigitRunFrom(s, i + 1);
    }
  }

  /** `parseFloat` of text starting with a digit reads its decimal prefix, unsigned. */
  lemma ParseFloatOfDigitStart(s: string)
    requires s != [] && IsDigitIn(s[0], 10)
    ensures DecimalPrefix(s).Some? ==> ParseFloat(s) == Round(false, DecimalPrefix(s).value)
  {
    assert JsString.LeadingCount(s) == 0;
    assert s[0..] == s;
    assert !JsString.StartsWith(s, "Infinity") by {
      if |s| >= 8 {
        assert s[..8][0] == s[0];
      }
    }
  }

  /** A natural number below the overflow threshold is read as itself. */
  lemma RoundOfNat(n: nat)
    requires n < OverflowThreshold
    ensures Round(false, Decimal(n, 0)) == FromInt(n)
  {
    assert Value(Decimal(n, 0)) == n as real;
  }

  /** `parseFloat` of a plain number is that number. */
  lemma ParseFloatOfDigits(n: nat)
    requires n < OverflowThreshold
    ensures ParseFloat(NatToString(n)) == FromInt(n)
  {
    var s := NatToString(n);
    DigitsOfNatToString(n);
    assert DigitValue(s[0]) < 10;
    ParseFloatOfDigitStart(s);
    DigitRunOfDigits(s);
    assert s[..|s|] == s;
    assert s + [] == s;
    assert DecimalPrefix(s) == Some(Decimal(n, 0));
    RoundOfNat(n);
  }

  /** `parseFloat` stops at the first character that cannot continue a number. */
  lemma ParseFloatOfDigitsThenText(n: nat, rest: string)
    requires n < OverflowThreshold
    requires rest != [] && !IsDigitIn(rest[0], 10) && rest[0] != '.' && rest[0] != 'e' && rest[0] != 'E'
    ensures ParseFloat(NatToString(n) + rest) == FromInt(n)
  {
    var d := NatToString(n);
    var s := d + rest;
    DigitsOfNatToString(n);
    assert s[0] == d[0] && DigitValue(d[0]) < 10;
    ParseFloatOfDigitStart(s);
    DecimalPrefixOfDigitsThenText(n, rest);
    RoundOfNat(n);
  }

  /** The decimal prefix of digits followed by other text is the digits' value. */
  lemma DecimalPrefixOfDigitsThenText(n: nat, rest: string)
    requires rest != [] && !IsDigitIn(rest[0], 10) && rest[0] != '.' && rest[0] != 'e' && rest[0] != 'E'
    ensures DecimalPrefix(NatToString(n) + rest) == Some(Decimal(n, 0))
  {
    var d := NatToString(n);
    var s := d + rest;
    DigitsOfNatToString(n);
    DigitRunPrefix(d, rest, 0);
    assert s[|d|] == rest[0];
    assert s[..|d|] == d;
    assert d + [] == d;
    assert ExponentAt(s, |d|) == None;
  }

  lemma {:induction false} DigitRunPrefix(d: string, rest: string, i: nat)
    requires i <= |d| && AllDigits(d, 10)
    requires rest != [] && !IsDigitIn(rest[0], 10)
    ensures DigitRun(d + rest, i) == |d|
    decreases |d| - i
  {
    var s := d + rest;
    if i < |d| {
      assert s[i] == d[i];
      DigitRunPrefix(d, rest, i + 1);
    } else {
      assert s[i] == rest[0];
    }
  }

  // ---- Number::toString ----

  /** The decimal digits of a natural number, without leading zeros ("0" for zero). */
  function NatToString(n: nat): (s: string)
    ensures |s| >= 1 && AllDigits(s, 10)
  {
    if n < 10 then [('0' as int + n) as char]
    else NatToString(n / 10) + [('0' as int + n % 10) as char]
  }

  lemma {:induction false} DigitsOfNatToString(n: nat)
    ensures DigitsValue(NatToString(n), 10) == n
  {
    if n >= 10 {
      DigitsOfNatToString(n / 10);
      var s := NatToString(n);
      assert s[..|s| - 1] == NatToString(n / 10);
    }
  }

  /** A decimal with no trailing zero in its mantissa and the same value. */
  function Normalize(d: Decimal): (r: Decimal)
    ensures r.mantissa == 0 || r.mantissa % 10 != 0
    decreases if d.mantissa < 0 then -d.mantissa else d.mantissa
  {
    if d.mantissa == 0 then Decimal(0, 0)
    else if d.mantissa % 10 == 0 then Normalize(Decimal(d.mantissa / 10, d.exponent + 1))
    else d
  }

  function Zeros(n: nat): (s: string)
    ensures |s| == n
  {
    if n == 0 then "" else "0" + Zeros(n - 1)
  }

  /** `"e+5"` / `"e-7"`. */
  function ExponentSuffix(x: int): string {
    if x >= 0 then "e+" + NatToString(x) else "e-" + NatToString(-x)
  }

  /**
   * Number::toString (section 6.1.6.1.20 of ECMA-262) of a finite non-negative value
   * whose shortest digit string is `digits` and whose decimal point sits after `n`
   * digits.
   */
  function DigitsToString(digits: string, n: int): string
    requires |digits| >= 1
  {
    var k := |digits|;
    if k <= n <= 21 then digits + Zeros(n - k)
    else if 0 < n <= 21 then digits[..n] + "." + digits[n..]
    else if -6 < n <= 0 then "0." + Zeros(-n) + digits
    else if k == 1 then digits + ExponentSuffix(n - 1)
    else digits[..1] + "." + digits[1..] + ExponentSuffix(n - 1)
  }

  /** `String(x)`. */
  function NumberToString(x: Number): string {
    match x
    case NaN => "NaN"
    case Infinite(neg) => if neg then "-Infinity" else "Infinity"
    case Finite(d) =>
      var nd := Normalize(d);
      if nd.mantissa == 0 then "0"
      else
        var digits := NatToString(if nd.mantissa < 0 then -nd.mantissa else nd.mantissa);
        var s := DigitsToString(digits, |digits| + nd.exponent);
        if nd.mantissa < 0 then "-" + s else s
  }

  /** Normalizing a positive decimal only moves trailing zeros of the mantissa into the exponent. */
  lemma {:induction false} NormalizePositive(m: nat, x: int)
    requires m > 0
    ensures Normalize(Decimal(m, x)).mantissa > 0
    ensures Normalize(Decimal(m, x)).exponent >= x
    ensures m == Normalize(Decimal(m, x)).mantissa * Pow10(Normalize(Decimal(m, x)).exponent - x)
    decreases m
  {
    if m % 10 == 0 {
      NormalizePositive(m / 10, x + 1);
      var r := Normalize(Decimal(m / 10, x + 1));
      assert Normalize(Decimal(m, x)) == r;
      var z := r.exponent - x;
      assert Pow10(z) == 10 * Pow10(z - 1);
      calc {
        m;
        10 * (m / 10);
        10 * (r.mantissa * Pow10(z - 1));
        r.mantissa * (10 * Pow10(z - 1));
      }
    }
  }

  /** Multiplying by a power of ten appends that many zeros to the digits. */
  lemma {:induction false} NatToStringShift(m: nat, z: nat)
    requires m > 0
    ensures NatToString(m * Pow10(z)) == NatToString(m) + Zeros(z)
    decreases z
  {
    if z > 0 {
      assert m * Pow10(z) == (m * 10) * Pow10(z - 1);
      NatToStringShift(m * 10, z - 1);
      assert NatToString(m * 10) == NatToString(m) + "0";
      assert NatToString(m) + "0" + Zeros(z - 1) == NatToString(m) + Zeros(z);
    } else {
      assert NatToString(m) + "" == NatToString(m);
    }
  }

  /** Every natural number below 10^21 prints as its plain decimal digits. */
  lemma IntegerToString(n: nat)
    requires |NatToString(n)| <= 21
    ensures NumberToString(FromInt(n)) == NatToString(n)
  {
    if n > 0 {
      NormalizePositive(n, 0);
      var r := Normalize(Decimal(n, 0));
      NatToStringShift(r.mantissa, r.exponent);
    }
  }

  /** A digit string is its own trim. */
  lemma TrimOfDigits(s: string)
    requires |s| >= 1 && AllDigits(s, 10)
    ensures JsString.Trim(s) == s
  {
    assert !JsString.IsTrimmable(s[0]);
    assert !JsString.IsTrimmable(s[|s| - 1]);
    assert JsString.LeadingCount(s) == 0;
    assert s[0..] == s;
    assert JsString.TrailingCount(s) == 0;
  }

  lemma IndexOfNonDigit(s: string, c: char)
    requires AllDigits(s, 10) && DigitValue(c) >= 10
    ensures IndexOf(s, c) == None
  {
  }

  lemma MantissaOfDigits(s: string)
    requires |s| >= 1 && AllDigits(s, 10)
    ensures ParseMantissa(s) == Some(Decimal(DigitsValue(s, 10), 0))
  {
    IndexOfNonDigit(s, '.');
  }

  /** A digit string is parsed as a decimal integer. */
  lemma ParseOfDigits(s: string)
    requires |s| >= 1 && AllDigits(s, 10)
    ensures ParseNonDecimal(s) == None
    ensures ParseUnsignedDecimal(s) == Some(Decimal(DigitsValue(s, 10), 0))
  {
    if |s| > 2 {
      assert IsDigitIn(s[1], 10);
    }
    IndexOfNonDigit(s, 'e');
    IndexOfNonDigit(s, 'E');
    MantissaOfDigits(s);
  }

  /** `Number` of a plain digit string is its value. */
  lemma StringToNumberOfDigits(n: nat)
    requires n < OverflowThreshold
    ensures StringToNumber(NatToString(n)) == FromInt(n)
  {
    var s := NatToString(n);
    DigitsOfNatToString(n);
    TrimOfDigits(s);
    ParseOfDigits(s);
    assert DigitValue(s[0]) < 10;
    assert s[0] != 'I' && s[0] != '+' && s[0] != '-';
    assert s != "Infinity" && s != "+Infinity" && s != "-Infinity";
    RoundOfNat(n);
  }
}
