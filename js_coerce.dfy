/** JavaScript's loose equality `x == false` and `x == "false"`, which decide
    whether a request option opts out of the abort-on-navigate pool. Values
    are JSON values; `None` is `undefined`. */
module JsCoerce {
  import opened Wrappers
  import opened Strings
  import opened JsonValue

  /** `String(v)` as array-to-primitive conversion produces it: an array is
      its elements joined by commas, with `null` elements written as empty
      text; a plain object is "[object Object]". */
  function ToStr(j: Json): string
    decreases j
  {
    match j
    case JNull => "null"
    case JBool(b) => if b then "true" else "false"
    case JNum(n) => IntToString(n)
    case JStr(s) => s
    case JArr(xs) =>
      Join(seq(|xs|, i requires 0 <= i < |xs| => if xs[i].JNull? then "" else ToStr(xs[i])), ",")
    case JObj(_) => "[object Object]"
  }

  predicate IsDecDigit(c: char) {
    '0' <= c <= '9'
  }

  function CountChar(s: string, c: char): nat {
    if s == [] then 0 else (if s[0] == c then 1 else 0) + CountChar(s[1..], c)
  }

  /** The position of the first exponent marker `e` or `E`, or `|s|`. */
  function ExponentStart(s: string): (i: nat)
    ensures i <= |s|
    ensures forall k :: 0 <= k < i ==> s[k] != 'e' && s[k] != 'E'
    ensures i < |s| ==> s[i] == 'e' || s[i] == 'E'
  {
    if s == [] || s[0] == 'e' || s[0] == 'E' then 0 else 1 + ExponentStart(s[1..])
  }

  /** A decimal mantissa: digits and at most one point, with at least one
      digit ("12", "1.5", ".5", "5."). */
  predicate DecimalMantissa(m: string) {
    && (forall i :: 0 <= i < |m| ==> IsDecDigit(m[i]) || m[i] == '.')
    && CountChar(m, '.') <= 1
    && exists i :: 0 <= i < |m| && IsDecDigit(m[i])
  }

  /** The digits of a mantissa read as one integer, the point skipped. */
  function MantissaDigits(m: string): nat {
    if m == [] then 0
    else
      var last := m[|m| - 1];
      if IsDecDigit(last) then 10 * MantissaDigits(m[..|m| - 1]) + (last as int - '0' as int)
      else MantissaDigits(m[..|m| - 1])
  }

  /** The number of digits after the point: the mantissa's value is its
      digits divided by ten to this power. */
  function FractionLength(m: string): nat {
    var p := IndexOfChar(m, '.');
    if p < 0 then 0 else |m| - p - 1
  }

  /** The digits after an exponent marker: an optional sign, then one or more digits. */
  predicate ValidExponent(x: string) {
    var d := if x != [] && (x[0] == '+' || x[0] == '-') then x[1..] else x;
    d != [] && forall i :: 0 <= i < |d| ==> IsDecDigit(d[i])
  }

  /** The signed value of a valid exponent. */
  function ExponentValue(x: string): int {
    var d := if x != [] && (x[0] == '+' || x[0] == '-') then x[1..] else x;
    var v: int := MantissaDigits(d);
    if x != [] && x[0] == '-' then -v else v
  }

  function Pow(b: nat, n: nat): nat {
    if n == 0 then 1 else b * Pow(b, n - 1)
  }

  /** Whether `digits * 10^-scale` becomes zero as a double. The least
      positive double is 2^-1074; round-to-nearest takes any value up to
      half of it, 2^-1075, to zero (the tie goes to the even significand). */
  predicate RoundsToZero(digits: nat, scale: int) {
    digits == 0 || (scale > 0 && digits * Pow(2, 1075) <= Pow(10, scale))
  }

  /** An unsigned decimal literal (mantissa, then an optional exponent)
      whose value rounds to zero. */
  predicate UnsignedDecimalZero(u: string) {
    var e := ExponentStart(u);
    var m := u[..e];
    && DecimalMantissa(m)
    && (e == |u| || ValidExponent(u[e + 1..]))
    && RoundsToZero(MantissaDigits(m), FractionLength(m) - if e == |u| then 0 else ExponentValue(u[e + 1..]))
  }

  /** "0x", "0o" or "0b" followed by one or more zeros. */
  predicate PrefixedZero(t: string) {
    && |t| >= 3 && t[0] == '0'
    && (t[1] == 'x' || t[1] == 'X' || t[1] == 'o' || t[1] == 'O' || t[1] == 'b' || t[1] == 'B')
    && forall i :: 2 <= i < |t| ==> t[i] == '0'
  }

  /** `Number(s)` is zero (positive or negative): the trimmed text is empty,
      a prefixed literal whose digits are all zero, or a decimal literal
      whose value is zero or underflows to zero. */
  predicate NumericZero(s: string) {
    TrimmedNumericZero(Trim(s))
  }

  /** `NumericZero` of a text already trimmed. */
  predicate TrimmedNumericZero(t: string) {
    || t == []
    || PrefixedZero(t)
    || UnsignedDecimalZero(if t[0] == '+' || t[0] == '-' then t[1..] else t)
  }

  /** `v == false` with JavaScript's loose equality: both sides are converted
      to numbers, and `null`/`undefined` equal only each other. */
  predicate LooselyEqualsFalse(v: Option<Json>) {
    match v
    case None => false
    case Some(JNull) => false
    case Some(JBool(b)) => !b
    case Some(JNum(n)) => n == 0
    case Some(JStr(s)) => NumericZero(s)
    case Some(j) => NumericZero(ToStr(j))
  }

  /** `v == "false"` with loose equality: a string compares as text, an array
      or object through its string form, a boolean or number through
      `Number("false")`, which is NaN and equals nothing. */
  predicate LooselyEqualsFalseText(v: Option<Json>) {
    match v
    case None => false
    case Some(JNull) => false
    case Some(JBool(_)) => false
    case Some(JNum(_)) => false
    case Some(j) => ToStr(j) == "false"
  }

  /** `options.abortOnNavigate != false && options.abortOnNavigate != "false"`
      (webroot/js/contrail-layout.js:146). */
  predicate AbortsOnNavigate(option: Option<Json>) {
    !LooselyEqualsFalse(option) && !LooselyEqualsFalseText(option)
  }

  /** "true" is no numeric literal: its mantissa "tr" has no digit. */
  lemma TrueTextNotDecimal()
    ensures !UnsignedDecimalZero("true")
  {
    assert ExponentStart("true") == 1 + ExponentStart("rue");
    assert ExponentStart("rue") == 2 + ExponentStart("e");
    assert !DecimalMantissa("tr");
  }

  /** An absent option, `true`, `null` and "true" keep the request in the pool. */
  lemma KeptInPool()
    ensures AbortsOnNavigate(None)
    ensures AbortsOnNavigate(Some(JBool(true)))
    ensures AbortsOnNavigate(Some(JNull))
    ensures AbortsOnNavigate(Some(JStr("true")))
  {
    TrueTextNotDecimal();
    assert !TrimmedNumericZero("true");
    NumericZeroOfTrimmed("true");
  }

  /** `false` and "false" opt out, as the source intends. */
  lemma FalseOptsOut()
    ensures !AbortsOnNavigate(Some(JBool(false)))
    ensures !AbortsOnNavigate(Some(JStr("false")))
  {
  }

  /** 0, "", "0" and [] opt out too, because they loosely equal `false`. */
  lemma LooseZerosOptOut()
    ensures !AbortsOnNavigate(Some(JNum(0)))
    ensures !AbortsOnNavigate(Some(JStr("")))
    ensures !AbortsOnNavigate(Some(JStr("0")))
    ensures !AbortsOnNavigate(Some(JArr([])))
  {
    NumericZeroOfTrimmed("0");
    NumericZeroOfTrimmed("");
    assert ExponentStart("0") == 1;
    assert IsDecDigit("0"[0]);
    assert UnsignedDecimalZero("0");
    assert ToStr(JArr([])) == "";
  }

  lemma {:induction false} PowAdd(b: nat, m: nat, n: nat)
    ensures Pow(b, m + n) == Pow(b, m) * Pow(b, n)
    decreases m
  {
    if m > 0 {
      PowAdd(b, m - 1, n);
    }
  }

  lemma {:induction false} PowPow(b: nat, k: nat, n: nat)
    ensures Pow(Pow(b, k), n) == Pow(b, k * n)
  {
    if n > 0 {
      PowPow(b, k, n - 1);
      PowAdd(b, k, k * (n - 1));
    }
  }

  /** Multiplication by a natural number is monotone. */
  lemma {:induction false} MulMonotone(a: nat, x: nat, y: nat)
    requires x <= y
    ensures a * x <= a * y
  {
    if a > 0 {
      MulMonotone(a - 1, x, y);
      assert a * x == (a - 1) * x + x && a * y == (a - 1) * y + y;
    }
  }

  lemma {:induction false} PowBaseMonotone(a: nat, b: nat, n: nat)
    requires a <= b
    ensures Pow(a, n) <= Pow(b, n)
  {
    if n > 0 {
      PowBaseMonotone(a, b, n - 1);
      MulMonotone(a, Pow(a, n - 1), Pow(b, n - 1));
      MulMonotone(Pow(b, n - 1), a, b);
    }
  }

  lemma PowPositive(b: nat, n: nat)
    requires b >= 1
    ensures Pow(b, n) >= 1
  {
  }

  lemma {:induction false} PowExponentMonotone(b: nat, m: nat, n: nat)
    requires b >= 1 && m <= n
    ensures Pow(b, m) <= Pow(b, n)
    decreases n - m
  {
    if m < n {
      PowExponentMonotone(b, m, n - 1);
      MulMonotone(Pow(b, n - 1), 1, b);
    }
  }

  lemma MulGrows(a: nat, b: nat)
    requires a >= 1 && b >= 2
    ensures a * b > a
  {
    assert a * b == a + a * (b - 1);
  }

  /** 10^(3h) = 1000^h <= 1024^h = 2^(10h). */
  lemma TenCubedBelowTwoToTen(h: nat)
    ensures Pow(10, 3 * h) <= Pow(2, 10 * h)
  {
    PowPow(10, 3, h);
    PowPow(2, 10, h);
    PowBaseMonotone(Pow(10, 3), Pow(2, 10), h);
  }

  /** 2^(3t) = 8^t <= 10^t. */
  lemma TwoCubedBelowTen(t: nat)
    ensures Pow(2, 3 * t) <= Pow(10, t)
  {
    PowPow(2, 3, t);
    PowBaseMonotone(Pow(2, 3), 10, t);
  }

  /** 10^(3h) < 2^(10h + r) for a positive r. */
  lemma PowerOfTenBelow(h: nat, r: nat)
    requires r >= 1
    ensures Pow(10, 3 * h) < Pow(2, 10 * h + r)
  {
    TenCubedBelowTwoToTen(h);
    PowAdd(2, 10 * h, r);
    PowPositive(2, 10 * h);
    PowExponentMonotone(2, 1, r);
    MulGrows(Pow(2, 10 * h), Pow(2, r));
  }

  /** 2^e <= 10^k when e <= 3t and t <= k. */
  lemma PowerOfTenAbove(e: nat, t: nat, k: nat)
    requires e <= 3 * t && t <= k
    ensures Pow(2, e) <= Pow(10, k)
  {
    PowExponentMonotone(2, e, 3 * t);
    TwoCubedBelowTen(t);
    PowExponentMonotone(10, t, k);
  }

  /** The text `c` + "e" + `x` for a digit `c` and an exponent `x` splits
      into the one-digit mantissa `c` and the exponent `x`. */
  lemma DigitExponentParts(c: char, x: string)
    requires IsDecDigit(c)
    ensures var s := [c] + "e" + x;
      && ExponentStart(s) == 1 && s[..1] == [c] && s[2..] == x
      && DecimalMantissa([c]) && MantissaDigits([c]) == c as int - '0' as int && FractionLength([c]) == 0
  {
    var s := [c] + "e" + x;
    assert s[1..] == "e" + x;
    assert [c][..0] == [];
    assert IsDecDigit([c][0]);
  }

  /** A digit times 10^-k rounds to zero once k is 400 or more:
      9 * 2^1075 <= 9 * 10^359 < 10^360. */
  lemma TinyValueRoundsToZero(d: nat, k: int)
    requires 1 <= d <= 9 && k >= 400
    ensures RoundsToZero(d, k)
  {
    PowerOfTenAbove(1075, 359, 359);
    MulMonotone(d, Pow(2, 1075), Pow(10, 359));
    MulMonotone(Pow(10, 359), d, 10);
    PowExponentMonotone(10, 360, k);
  }

  lemma TenToAtMost300BelowThreshold(k: nat)
    requires k <= 300
    ensures Pow(10, k) < Pow(2, 1075)
  {
    PowExponentMonotone(10, k, 300);
    PowerOfTenBelow(100, 75);
  }

  lemma ThresholdBelowMultiple(d: nat)
    requires d >= 1
    ensures Pow(2, 1075) <= d * Pow(2, 1075)
  {
    MulMonotone(Pow(2, 1075), 1, d);
  }

  /** A non-zero digit times 10^-k is a positive double while k is 300 or
      less: 10^k <= 10^300 < 2^1075. */
  lemma SmallValueStaysPositive(d: nat, k: int)
    requires 1 <= d <= 9 && k <= 300
    ensures !RoundsToZero(d, k)
  {
    if k > 0 {
      TenToAtMost300BelowThreshold(k);
      ThresholdBelowMultiple(d);
    }
  }

  /** With one non-zero digit before the exponent, the text is zero when the
      exponent is -400 or below and non-zero when it is -300 or above. */
  lemma DigitExponentUnderflow(c: char, x: string)
    requires '1' <= c <= '9' && ValidExponent(x)
    ensures ExponentValue(x) <= -400 ==> UnsignedDecimalZero([c] + "e" + x)
    ensures ExponentValue(x) >= -300 ==> !UnsignedDecimalZero([c] + "e" + x)
  {
    DigitExponentParts(c, x);
    var d: nat := c as int - '0' as int;
    var k := 0 - ExponentValue(x);
    if k >= 400 {
      TinyValueRoundsToZero(d, k);
    }
    if k <= 300 {
      SmallValueStaysPositive(d, k);
    }
  }

  /** A text with no white space at either end is read as it stands. */
  lemma NumericZeroOfTrimmed(s: string)
    requires s == [] || (!IsJsSpace(s[0]) && !IsJsSpace(s[|s| - 1]))
    ensures NumericZero(s) == TrimmedNumericZero(s)
  {
    TrimOfTrimmed(s);
  }

  /** `c` + "e" + `x` has no white space at either end, so `Number` sees it
      untrimmed. */
  lemma DigitExponentTrimmed(c: char, x: string)
    requires '1' <= c <= '9' && ValidExponent(x)
    ensures NumericZero([c] + "e" + x) == TrimmedNumericZero([c] + "e" + x)
  {
    var s := [c] + "e" + x;
    var d := if x != [] && (x[0] == '+' || x[0] == '-') then x[1..] else x;
    assert IsDecDigit(d[|d| - 1]);
    assert x[|x| - 1] == d[|d| - 1];
    assert s[|s| - 1] == x[|x| - 1];
    NumericZeroOfTrimmed(s);
  }

  /** A text starting with a non-zero digit has no sign and no radix
      prefix, so it is read as an unsigned decimal. */
  lemma DigitExponentDecimal(c: char, x: string)
    requires '1' <= c <= '9'
    ensures TrimmedNumericZero([c] + "e" + x) == UnsignedDecimalZero([c] + "e" + x)
  {
    var s := [c] + "e" + x;
    assert s[0] == c;
    assert !PrefixedZero(s);
  }

  /** `abortOnNavigate` given as `c` + "e" + `x`: an exponent of -400 or
      below underflows, so the text loosely equals `false` and the request
      stays out of the pool; an exponent of -300 or above keeps it in. */
  lemma UnderflowingTextOptsOut(c: char, x: string)
    requires '1' <= c <= '9' && ValidExponent(x)
    ensures ExponentValue(x) <= -400 ==> !AbortsOnNavigate(Some(JStr([c] + "e" + x)))
    ensures ExponentValue(x) >= -300 ==> AbortsOnNavigate(Some(JStr([c] + "e" + x)))
  {
    var s := [c] + "e" + x;
    DigitExponentUnderflow(c, x);
    DigitExponentTrimmed(c, x);
    DigitExponentDecimal(c, x);
    assert s[0] != "false"[0];
  }

  /** A boolean option keeps the request in the pool exactly when it is true. */
  lemma BooleanOption(b: bool)
    ensures AbortsOnNavigate(Some(JBool(b))) <==> b
  {
  }
}
