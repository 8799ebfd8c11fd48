/** Finite decimals and the canonical text the comparisons of reconciliation/checks.py rest on:
    `format(value, "f")` followed by stripping a fraction's trailing zeros. */
module Decimals {

  datatype Option<T> = None | Some(value: T)

  /** A finite `decimal.Decimal`: sign, digits and exponent. Trailing zeros and a signed zero are kept. */
  datatype Decimal = Decimal(negative: bool, coefficient: nat, exponent: int) {
    function Signed(): int {
      if negative then 0 - coefficient else coefficient
    }

    /** The value counted in units of ten to the power `unit`. */
    function Scaled(unit: int): int
      requires unit <= exponent
    {
      Signed() * Pow10(exponent - unit)
    }

    predicate IsZero() {
      coefficient == 0
    }
  }

  function Pow10(n: nat): (p: nat) {
    if n == 0 then 1 else 10 * Pow10(n - 1)
  }

  function Min(a: int, b: int): int {
    if a <= b then a else b
  }

  /** `a == b` for two finite decimals. */
  predicate NumEq(a: Decimal, b: Decimal) {
    a.Scaled(Min(a.exponent, b.exponent)) == b.Scaled(Min(a.exponent, b.exponent))
  }

  // ---------------------------------------------------------------- rendering

  function DigitChar(n: nat): char
    requires n < 10
  {
    '0' + n as char
  }

  /** The coefficient's digits. */
  function Digits(n: nat): string {
    if n < 10 then [DigitChar(n)] else Digits(n / 10) + [DigitChar(n % 10)]
  }

  function Zeros(n: nat): string {
    if n == 0 then "" else Zeros(n - 1) + "0"
  }

  /** Digits on both sides of the decimal point, before signs and points are written. */
  function Split(digits: string, exponent: int): (string, string) {
    var point := exponent + |digits|;
    if point < 0 then ("0", Zeros(-point) + digits)
    else if point > |digits| then (digits + Zeros(point - |digits|), "")
    else (if point == 0 then "0" else digits[..point], digits[point..])
  }

  function Plain(negative: bool, whole: string, fraction: string): string {
    (if negative then "-" else "") + whole + (if fraction == "" then "" else "." + fraction)
  }

  /** `format(value, "f")`; a zero with a positive exponent is first rescaled to exponent 0. */
  function FormatF(d: Decimal): string {
    var parts := Split(Digits(d.coefficient), if d.IsZero() && d.exponent > 0 then 0 else d.exponent);
    Plain(d.negative, parts.0, parts.1)
  }

  /** `s.rstrip(c)` for one character. */
  function RStripChar(s: string, c: char): string {
    if s != "" && s[|s| - 1] == c then RStripChar(s[..|s| - 1], c) else s
  }

  function Finish(rendered: string): string {
    var stripped := if '.' in rendered then RStripChar(RStripChar(rendered, '0'), '.') else rendered;
    if stripped == "" || stripped == "-0" then "0" else stripped
  }

  function RenderDecimal(d: Decimal): string {
    Finish(FormatF(d))
  }

  // ---------------------------------------------------------------- reading the rendering back

  predicate IsDigit(c: char) {
    '0' <= c <= '9'
  }

  predicate AllDigits(s: string) {
    forall i :: 0 <= i < |s| ==> IsDigit(s[i])
  }

  function DigitsValue(s: string): nat
    requires AllDigits(s)
  {
    if s == "" then 0 else 10 * DigitsValue(s[..|s| - 1]) + (s[|s| - 1] - '0') as nat
  }

  /** Position of the first point, or the length when there is none. */
  function PointIndex(s: string): (i: nat)
    ensures i <= |s|
  {
    if s == "" || s[0] == '.' then 0 else 1 + PointIndex(s[1..])
  }

  function ParseUnsigned(s: string, negative: bool): Option<Decimal> {
    var i := PointIndex(s);
    var whole, fraction := s[..i], if i < |s| then s[i + 1..] else "";
    if AllDigits(whole) && AllDigits(fraction) && whole + fraction != "" then
      assert AllDigits(whole + fraction);
      Some(Decimal(negative, DigitsValue(whole + fraction), -|fraction|))
    else None
  }

  /** Plain decimal notation: an optional sign, digits, an optional fraction. */
  function ParseDecimal(s: string): Option<Decimal> {
    if s != "" && s[0] == '-' then ParseUnsigned(s[1..], true) else ParseUnsigned(s, false)
  }

  // ---------------------------------------------------------------- powers of ten

  lemma {:induction false} Pow10Add(m: nat, n: nat)
    ensures Pow10(m + n) == Pow10(m) * Pow10(n) && Pow10(n) > 0
  {
    if m == 0 {
      if n > 0 { Pow10Add(0, n - 1); }
    } else {
      Pow10Add(m - 1, n);
      assert 10 * (Pow10(m - 1) * Pow10(n)) == 10 * Pow10(m - 1) * Pow10(n);
    }
  }

  lemma Rescale(d: Decimal, unit: int, lower: int)
    requires lower <= unit <= d.exponent
    ensures d.Scaled(lower) == d.Scaled(unit) * Pow10(unit - lower)
  {
    hide Pow10, Decimal.Signed;
    Pow10Add(d.exponent - unit, unit - lower);
    var s, p, q := d.Signed(), Pow10(d.exponent - unit), Pow10(unit - lower);
    assert s * (p * q) == s * p * q;
  }

  /** Equality may be judged in any small enough unit. */
  lemma NumEqInUnit(a: Decimal, b: Decimal, unit: int)
    requires unit <= a.exponent && unit <= b.exponent
    ensures NumEq(a, b) <==> a.Scaled(unit) == b.Scaled(unit)
  {
    var m := Min(a.exponent, b.exponent);
    Rescale(a, m, unit);
    Rescale(b, m, unit);
    Pow10Add(0, m - unit);
    Cancel(a.Scaled(m), b.Scaled(m), Pow10(m - unit));
  }

  lemma Cancel(x: int, y: int, p: int)
    requires p > 0
    ensures x * p == y * p <==> x == y
  {
    assert x * p - y * p == (x - y) * p;
    if x > y { assert (x - y) * p > 0; }
    if x < y { assert (y - x) * p > 0; }
  }

  // ---------------------------------------------------------------- normal forms

  /** No trailing zero in the coefficient; one spelling of zero. */
  function Normal(d: Decimal): Decimal
    decreases d.coefficient
  {
    if d.coefficient == 0 then Decimal(false, 0, 0)
    else if d.coefficient % 10 == 0 then Normal(Decimal(d.negative, d.coefficient / 10, d.exponent + 1))
    else d
  }

  predicate IsNormal(d: Decimal) {
    d == Decimal(false, 0, 0) || d.coefficient % 10 != 0
  }

  lemma {:induction false} NormalSame(d: Decimal, unit: int)
    requires unit <= d.exponent && unit <= 0
    ensures IsNormal(Normal(d)) && unit <= Normal(d).exponent && Normal(d).Scaled(unit) == d.Scaled(unit)
    ensures d.coefficient != 0 ==> Normal(d).exponent >= d.exponent
    decreases d.coefficient
  {
    if d.coefficient != 0 && d.coefficient % 10 == 0 {
      var up := Decimal(d.negative, d.coefficient / 10, d.exponent + 1);
      NormalSame(up, unit);
      TenTimes(up.Signed(), Pow10(d.exponent - unit));
      assert d.Signed() == 10 * up.Signed();
    }
  }

  /** Two normal forms of one value are the same. */
  lemma NormalUnique(a: Decimal, b: Decimal, unit: int)
    requires IsNormal(a) && IsNormal(b) && unit <= a.exponent <= b.exponent
    requires a.Scaled(unit) == b.Scaled(unit)
    ensures a == b
  {
    hide Decimal.Signed, Pow10;
    Rescale(b, a.exponent, unit);
    Pow10Add(0, a.exponent - unit);
    Cancel(a.Signed(), b.Scaled(a.exponent), Pow10(a.exponent - unit));
    SameSigned(a, b, b.exponent - a.exponent);
  }

  lemma SameSigned(a: Decimal, b: Decimal, k: nat)
    requires IsNormal(a) && IsNormal(b) && b.exponent == a.exponent + k
    requires a.Signed() == b.Signed() * Pow10(k)
    ensures a == b
  {
    if k > 0 {
      TenTimes(b.Signed(), Pow10(k - 1));
      MultipleOfTen(a, b.Signed() * Pow10(k - 1));
      Pow10Add(0, k);
      Cancel(b.Signed(), 0, Pow10(k));
    }
  }

  lemma MultipleOfTen(a: Decimal, z: int)
    requires a.Signed() == 10 * z
    ensures a.coefficient % 10 == 0
  {
    assert a.coefficient == 10 * (if a.negative then -z else z);
  }

  lemma NumEqNormal(a: Decimal, b: Decimal)
    ensures NumEq(a, b) <==> Normal(a) == Normal(b)
  {
    var unit := Min(Min(a.exponent, b.exponent), 0);
    NumEqInUnit(a, b, unit);
    NormalSame(a, unit);
    NormalSame(b, unit);
    var x, y := Normal(a), Normal(b);
    if x.Scaled(unit) == y.Scaled(unit) {
      if x.exponent <= y.exponent { NormalUnique(x, y, unit); } else { NormalUnique(y, x, unit); }
    }
  }

  // ---------------------------------------------------------------- rendering depends on the value only

  lemma StripZero(s: string)
    ensures RStripChar(s + "0", '0') == RStripChar(s, '0')
  {
    assert (s + "0")[..|s + "0"| - 1] == s;
  }

  lemma ZerosStep(n: nat)
    ensures Zeros(0) == "" && Zeros(n + 1) == Zeros(n) + "0"
  {
  }

  lemma {:induction false} StripZeros(s: string, n: nat)
    ensures RStripChar(s + Zeros(n), '0') == RStripChar(s, '0')
  {
    hide Zeros, RStripChar;
    if n == 0 {
      ZerosStep(0);
      assert s + "" == s;
    } else {
      ZerosStep(n - 1);
      StripZero(s + Zeros(n - 1));
      assert s + Zeros(n) == s + Zeros(n - 1) + "0";
      StripZeros(s, n - 1);
    }
  }

  lemma {:induction false} ZerosFront(n: nat)
    ensures Zeros(n + 1) == "0" + Zeros(n) && |Zeros(n)| == n && AllDigits(Zeros(n))
  {
    if n > 0 {
      ZerosFront(n - 1);
    }
  }

  lemma {:induction false} DigitsShape(n: nat)
    ensures |Digits(n)| >= 1 && AllDigits(Digits(n)) && DigitsValue(Digits(n)) == n
    ensures n > 0 ==> Digits(n)[0] != '0'
    ensures Digits(n)[|Digits(n)| - 1] == DigitChar(n % 10)
  {
    if n >= 10 {
      DigitsShape(n / 10);
      assert Digits(n)[..|Digits(n)| - 1] == Digits(n / 10);
    } else {
      assert Digits(n)[..0] == "" && DigitsValue("") == 0;
      assert Digits(n) == [DigitChar(n)] && n % 10 == n;
      assert DigitChar(n) - '0' == n as char;
    }
  }

  /** A zero at the end of the fraction is never seen. */
  lemma FinishDropsZero(negative: bool, whole: string, fraction: string)
    requires whole != "" && AllDigits(whole)
    ensures Finish(Plain(negative, whole, fraction + "0")) == Finish(Plain(negative, whole, fraction))
  {
    hide RStripChar;
    var head := (if negative then "-" else "") + whole;
    assert '.' !in whole && '.' !in head;
    var dotted := head + "." + fraction;
    assert dotted[|head|] == '.' && (dotted + "0")[|head|] == '.';
    assert Plain(negative, whole, fraction + "0") == dotted + "0";
    StripZero(dotted);
    if fraction == "" {
      assert dotted == head + ".";
      DropPoint(head);
    } else {
      assert Plain(negative, whole, fraction) == dotted;
    }
  }

  lemma DropPoint(head: string)
    requires '.' !in head
    ensures RStripChar(RStripChar(head + ".", '0'), '.') == head
  {
    var dotted := head + ".";
    assert dotted[|head|] == '.' && RStripChar(dotted, '0') == dotted;
    assert dotted[..|head|] == head;
    assert head != "" ==> head[|head| - 1] in head;
    assert RStripChar(head, '.') == head;
  }

  lemma SplitStep(digits: string, exponent: int)
    requires digits != ""
    ensures var longer, shorter := Split(digits + "0", exponent), Split(digits, exponent + 1);
      longer.0 == shorter.0 && longer.1 == if exponent >= 0 then shorter.1 else shorter.1 + "0"
  {
    var point := exponent + 1 + |digits|;
    if exponent >= 0 {
      ZerosFront(exponent);
      assert digits + "0" + Zeros(exponent) == digits + Zeros(exponent + 1);
    } else if point < 0 {
      assert Zeros(-point) + (digits + "0") == Zeros(-point) + digits + "0";
    } else {
      assert (digits + "0")[..point] == digits[..point];
      assert (digits + "0")[point..] == digits[point..] + "0";
    }
  }

  lemma SplitWhole(digits: string, exponent: int)
    requires digits != "" && AllDigits(digits)
    ensures var parts := Split(digits, exponent); parts.0 != "" && AllDigits(parts.0) && AllDigits(parts.1)
  {
    var point := exponent + |digits|;
    if point < 0 {
      ZerosFront(-point);
    } else if point > |digits| {
      ZerosFront(point - |digits|);
    }
  }

  lemma RenderStep(d: Decimal)
    requires d.coefficient > 0 && d.coefficient % 10 == 0
    ensures RenderDecimal(d) == RenderDecimal(Decimal(d.negative, d.coefficient / 10, d.exponent + 1))
  {
    hide Split, Finish, Plain;
    var digits := Digits(d.coefficient / 10);
    DigitsShape(d.coefficient / 10);
    SplitStep(digits, d.exponent);
    SplitWhole(digits, d.exponent + 1);
    var parts := Split(digits, d.exponent + 1);
    FinishDropsZero(d.negative, parts.0, parts.1);
  }

  lemma FinishZeros(head: string, k: nat)
    requires '.' !in head && k > 0
    ensures Finish(head + "." + Zeros(k)) == if head == "" || head == "-0" then "0" else head
  {
    hide Zeros, RStripChar;
    StripZeros(head + ".", k);
    DropPoint(head);
    assert (head + "." + Zeros(k))[|head|] == '.';
  }

  lemma RenderZero(d: Decimal)
    requires d.IsZero()
    ensures RenderDecimal(d) == "0"
  {
    hide Split, Finish, Zeros;
    assert Digits(0) == "0";
    if d.exponent >= 0 {
      SplitZero(0);
      ZerosStep(0);
      assert FormatF(d) == if d.negative then "-0" else "0";
      FinishWhole();
    } else {
      var k := -d.exponent;
      SplitZero(d.exponent);
      ZerosFront(k);
      var head := if d.negative then "-0" else "0";
      assert FormatF(d) == head + "." + Zeros(k);
      FinishZeros(head, k);
    }
  }

  lemma FinishWhole()
    ensures Finish("0") == "0" && Finish("-0") == "0"
  {
  }

  lemma SplitZero(exponent: int)
    requires exponent <= 0
    ensures Split("0", exponent) == ("0", Zeros(-exponent))
  {
    if exponent == 0 {
      assert "0"[..1] == "0" && "0"[1..] == "";
    } else if exponent == -1 {
      assert Zeros(1) == Zeros(0) + "0" == "0" && "0"[0..] == "0";
    }
  }

  lemma {:induction false} RenderNormal(d: Decimal)
    ensures RenderDecimal(d) == RenderDecimal(Normal(d))
    decreases d.coefficient
  {
    hide RenderDecimal;
    if d.coefficient == 0 {
      RenderZero(d);
      RenderZero(Normal(d));
    } else if d.coefficient % 10 == 0 {
      RenderStep(d);
      RenderNormal(Decimal(d.negative, d.coefficient / 10, d.exponent + 1));
    }
  }

  // ---------------------------------------------------------------- reading a rendering gives the value back

  lemma {:induction false} ValueOfZeros(digits: string, n: nat)
    requires AllDigits(digits)
    ensures AllDigits(digits + Zeros(n)) && DigitsValue(digits + Zeros(n)) == DigitsValue(digits) * Pow10(n)
  {
    if n == 0 {
      assert digits + Zeros(0) == digits;
    } else {
      var before := digits + Zeros(n - 1);
      ValueOfZeros(digits, n - 1);
      assert digits + Zeros(n) == before + "0";
      OneMoreZero(before);
      TenTimes(DigitsValue(digits), Pow10(n - 1));
    }
  }

  lemma OneMoreZero(digits: string)
    requires AllDigits(digits)
    ensures AllDigits(digits + "0") && DigitsValue(digits + "0") == 10 * DigitsValue(digits)
  {
    assert (digits + "0")[..|digits|] == digits;
  }

  lemma TenTimes(v: int, p: int)
    ensures 10 * (v * p) == v * (10 * p) == 10 * v * p
  {
  }

  lemma ZerosCountNothing(n: nat)
    ensures AllDigits(Zeros(n)) && DigitsValue(Zeros(n)) == 0
  {
    hide Zeros, Pow10;
    ValueOfZeros("", n);
    assert "" + Zeros(n) == Zeros(n);
  }

  lemma {:induction false} LeadingZeros(n: nat, digits: string)
    requires AllDigits(digits)
    ensures AllDigits(Zeros(n) + digits) && DigitsValue(Zeros(n) + digits) == DigitsValue(digits)
    decreases |digits|
  {
    hide Zeros;
    ZerosCountNothing(n);
    if digits == "" {
      assert Zeros(n) + "" == Zeros(n);
    } else {
      var rest := digits[..|digits| - 1];
      LeadingZeros(n, rest);
      assert (Zeros(n) + digits)[..|Zeros(n) + digits| - 1] == Zeros(n) + rest;
    }
  }

  lemma {:induction false} PointAfterDigits(whole: string, rest: string)
    requires AllDigits(whole) && (rest != "" ==> rest[0] == '.')
    ensures PointIndex(whole + rest) == |whole|
  {
    if whole == "" {
      assert whole + rest == rest;
    } else {
      assert (whole + rest)[1..] == whole[1..] + rest;
      PointAfterDigits(whole[1..], rest);
    }
  }

  lemma ParseSigned(negative: bool, unsigned: string)
    requires unsigned != "" && unsigned[0] != '-'
    ensures ParseDecimal((if negative then "-" else "") + unsigned) == ParseUnsigned(unsigned, negative)
  {
    hide ParseUnsigned;
    if negative {
      assert ("-" + unsigned)[1..] == unsigned;
    } else {
      assert "" + unsigned == unsigned;
    }
  }

  lemma PlainParts(negative: bool, whole: string, fraction: string)
    ensures Plain(negative, whole, fraction)
         == (if negative then "-" else "") + (whole + (if fraction == "" then "" else "." + fraction))
  {
  }

  lemma ParsePlain(negative: bool, whole: string, fraction: string)
    requires whole != "" && AllDigits(whole) && AllDigits(fraction)
    ensures AllDigits(whole + fraction)
    ensures ParseDecimal(Plain(negative, whole, fraction))
         == Some(Decimal(negative, DigitsValue(whole + fraction), -|fraction|))
  {
    hide ParseUnsigned, ParseDecimal, Plain, DigitsValue;
    var unsigned := whole + (if fraction == "" then "" else "." + fraction);
    ParseParts(negative, whole, fraction);
    assert unsigned[0] == whole[0] && IsDigit(whole[0]);
    PlainParts(negative, whole, fraction);
    ParseSigned(negative, unsigned);
  }

  lemma ParseParts(negative: bool, whole: string, fraction: string)
    requires whole != "" && AllDigits(whole) && AllDigits(fraction)
    ensures AllDigits(whole + fraction)
    ensures ParseUnsigned(whole + (if fraction == "" then "" else "." + fraction), negative)
         == Some(Decimal(negative, DigitsValue(whole + fraction), -|fraction|))
  {
    hide PointIndex, DigitsValue;
    var rest := if fraction == "" then "" else "." + fraction;
    var unsigned := whole + rest;
    PointAfterDigits(whole, rest);
    var i := PointIndex(unsigned);
    assert unsigned[..i] == whole;
    assert (if i < |unsigned| then unsigned[i + 1..] else "") == fraction;
  }

  /** A rendering that ends in a digit that counts is left as it is. */
  lemma FinishKeeps(negative: bool, whole: string, fraction: string)
    requires whole != "" && AllDigits(whole) && AllDigits(fraction)
    requires if fraction == "" then whole[0] != '0' else fraction[|fraction| - 1] != '0'
    ensures Finish(Plain(negative, whole, fraction)) == Plain(negative, whole, fraction)
  {
    var text := Plain(negative, whole, fraction);
    if fraction == "" {
      assert text == (if negative then "-" else "") + whole;
      assert '.' !in whole && '.' !in text;
      assert text[|text| - |whole|] == whole[0];
    } else {
      assert text[|text| - 1] == fraction[|fraction| - 1];
      assert text[|text| - 1 - |fraction|] == '.';
      assert "-0"[1] == '0' && "-0"[0] == '-';
    }
  }

  lemma SplitValue(c: nat, exponent: int)
    requires c % 10 != 0
    ensures var parts := Split(Digits(c), exponent);
      && parts.0 != "" && AllDigits(parts.0) && AllDigits(parts.1)
      && AllDigits(parts.0 + parts.1)
      && |parts.1| == (if exponent >= 0 then 0 else -exponent)
      && (if parts.1 == "" then parts.0[0] != '0' else parts.1[|parts.1| - 1] != '0')
      && DigitsValue(parts.0 + parts.1) == if exponent >= 0 then c * Pow10(exponent) else c
  {
    DigitsShape(c);
    SplitDigits(Digits(c), exponent);
    SplitWhole(Digits(c), exponent);
  }

  lemma SplitDigits(digits: string, exponent: int)
    requires digits != "" && AllDigits(digits) && digits[0] != '0' && digits[|digits| - 1] != '0'
    ensures var parts := Split(digits, exponent);
      && |parts.1| == (if exponent >= 0 then 0 else -exponent)
      && (if parts.1 == "" then parts.0 != "" && parts.0[0] != '0' else parts.1[|parts.1| - 1] != '0')
      && AllDigits(parts.0 + parts.1)
      && DigitsValue(parts.0 + parts.1)
         == if exponent >= 0 then DigitsValue(digits) * Pow10(exponent) else DigitsValue(digits)
  {
    hide DigitsValue, Pow10, Zeros;
    ZerosStep(0);
    var point := exponent + |digits|;
    if exponent > 0 {
      ValueOfZeros(digits, exponent);
      assert digits + Zeros(exponent) + "" == digits + Zeros(exponent);
    } else if exponent == 0 {
      ValueOfZeros(digits, 0);
      assert digits + Zeros(0) == digits && digits[..point] + digits[point..] == digits;
    } else if point < 0 {
      ZerosFront(-point);
      LeadingZeros(-point + 1, digits);
      assert Zeros(-point + 1) + digits == "0" + (Zeros(-point) + digits);
    } else if point == 0 {
      LeadingZeros(1, digits);
      assert Zeros(1) == Zeros(0) + "0" == "0" && digits[0..] == digits;
    } else {
      assert digits[..point] + digits[point..] == digits;
    }
  }

  /** A normal form is read back digit for digit, a positive exponent spelled out. */
  lemma ParseNormal(d: Decimal)
    requires IsNormal(d)
    ensures ParseDecimal(RenderDecimal(d)) ==
      Some(if d.exponent > 0 then Decimal(d.negative, d.coefficient * Pow10(d.exponent), 0) else d)
  {
    hide Split, Finish, Plain, ParseDecimal;
    if d.coefficient == 0 {
      RenderZero(d);
      ReadZero();
    } else {
      SplitValue(d.coefficient, d.exponent);
      var parts := Split(Digits(d.coefficient), d.exponent);
      FinishKeeps(d.negative, parts.0, parts.1);
      ParsePlain(d.negative, parts.0, parts.1);
      assert d.exponent == 0 ==> d.coefficient * Pow10(0) == d.coefficient;
    }
  }

  lemma ReadZero()
    ensures ParseDecimal("0") == Some(Decimal(false, 0, 0))
  {
    ParsePlain(false, "0", "");
    assert "0" + "" == "0" && "0"[..0] == "" && DigitsValue("0") == 0;
  }

  /** Parsing a rendering gives back a decimal equal to the one rendered. */
  lemma ParseOfRender(d: Decimal)
    ensures var read := ParseDecimal(RenderDecimal(d)); read.Some? && NumEq(read.value, d)
  {
    var n := Normal(d);
    var unit := Min(d.exponent, 0);
    NormalSame(d, unit);
    RenderNormal(d);
    ParseNormal(n);
    var read := if n.exponent > 0 then Decimal(n.negative, n.coefficient * Pow10(n.exponent), 0) else n;
    SpellOut(n, unit);
    NumEqInUnit(read, d, unit);
  }

  /** Multiplying a positive exponent out does not change the value. */
  lemma SpellOut(n: Decimal, unit: int)
    requires unit <= 0 && unit <= n.exponent
    ensures n.exponent > 0 ==>
      Decimal(n.negative, n.coefficient * Pow10(n.exponent), 0).Scaled(unit) == n.Scaled(unit)
  {
    if n.exponent > 0 {
      var p, q := Pow10(n.exponent), Pow10(-unit);
      Pow10Add(n.exponent, -unit);
      assert (0 - n.coefficient) * p == 0 - n.coefficient * p;
      assert n.Signed() * p * q == n.Signed() * (p * q);
    }
  }

  /** Main theorem: the rendering is a canonical form. Two decimals have the same text exactly when
      they are numerically equal, whatever their signs, trailing zeros and exponents. */
  lemma CanonicalForm(a: Decimal, b: Decimal)
    ensures RenderDecimal(a) == RenderDecimal(b) <==> NumEq(a, b)
  {
    NumEqNormal(a, b);
    RenderNormal(a);
    RenderNormal(b);
    if RenderDecimal(a) == RenderDecimal(b) {
      ParseOfRender(a);
      ParseOfRender(b);
      var read := ParseDecimal(RenderDecimal(a)).value;
      NumEqNormal(read, a);
      NumEqNormal(read, b);
    }
  }

  /** Plain notation without anything to spare: one leading zero only before the point, no zero at the end of
      the fraction, no point without a fraction, and no negative zero. */
  predicate Plainest(s: string, negative: bool, whole: string, fraction: string) {
    && s == (if negative then "-" else "") + whole + (if fraction == "" then "" else "." + fraction)
    && whole != "" && AllDigits(whole) && AllDigits(fraction)
    && (whole == "0" || whole[0] != '0') && (fraction != "" ==> fraction[|fraction| - 1] != '0')
    && s != "-0"
  }

  lemma SplitPlainest(digits: string, exponent: int)
    requires digits != "" && AllDigits(digits) && digits[0] != '0'
    ensures var parts := Split(digits, exponent); parts.0 != "" && (parts.0 == "0" || parts.0[0] != '0')
  {
  }

  /** How a rendering is spelled. With its value, this leaves one text. */
  lemma RenderShape(d: Decimal) returns (negative: bool, whole: string, fraction: string)
    ensures Plainest(RenderDecimal(d), negative, whole, fraction)
  {
    hide Split, Finish, Plain;
    RenderNormal(d);
    NormalSame(d, Min(d.exponent, 0));
    var n := Normal(d);
    if n.coefficient == 0 {
      RenderZero(n);
      negative, whole, fraction := false, "0", "";
      assert "" + "0" + "" == "0";
    } else {
      SplitValue(n.coefficient, n.exponent);
      DigitsShape(n.coefficient);
      SplitPlainest(Digits(n.coefficient), n.exponent);
      var parts := Split(Digits(n.coefficient), n.exponent);
      FinishKeeps(n.negative, parts.0, parts.1);
      negative, whole, fraction := n.negative, parts.0, parts.1;
      PlainPlainest(negative, whole, fraction);
    }
  }

  lemma PlainPlainest(negative: bool, whole: string, fraction: string)
    requires whole != "" && AllDigits(whole) && AllDigits(fraction) && (whole == "0" || whole[0] != '0')
    requires if fraction == "" then whole[0] != '0' else fraction[|fraction| - 1] != '0'
    ensures Plainest(Plain(negative, whole, fraction), negative, whole, fraction)
  {
    var s := Plain(negative, whole, fraction);
    if fraction == "" {
      assert s[|s| - |whole|] == whole[0];
    } else {
      assert s[|s| - 1] == fraction[|fraction| - 1];
    }
    assert "-0"[1] == '0';
  }

  /** Rendering what was read from a rendering changes nothing. */
  lemma RenderFixpoint(d: Decimal)
    ensures var text := RenderDecimal(d);
      ParseDecimal(text).Some? && RenderDecimal(ParseDecimal(text).value) == text
  {
    ParseOfRender(d);
    CanonicalForm(ParseDecimal(RenderDecimal(d)).value, d);
  }
}
