/** String(x) for a number and Number.parseFloat agree: whatever String
    writes, parseFloat reads back as the same value. Also what String writes
    for whole numbers and for powers of ten (plain digits, leading zeros or
    exponent notation, after section 6.1.6.1.20 of ECMA-262). */
module NumberText {
  import opened Wrappers
  import opened JsValues

  lemma {:induction false} Pow10Add(a: nat, b: nat)
    ensures Pow10(a + b) == Pow10(a) * Pow10(b)
  {
    if a > 0 {
      Pow10Add(a - 1, b);
      assert Pow10(a + b) == 10 * Pow10(a - 1 + b);
    }
  }

  lemma {:induction false} DigitsValueConcat(a: string, b: string)
    requires AllDigits(a) && AllDigits(b)
    ensures AllDigits(a + b)
    ensures DigitsValue(a + b) == DigitsValue(a) * Pow10(|b|) + DigitsValue(b)
    decreases |b|
  {
    AllDigitsConcat(a, b);
    if b != [] {
      var b' := b[..|b| - 1];
      assert (a + b)[..|a + b| - 1] == a + b';
      DigitsValueConcat(a, b');
      var x, p, y, d := DigitsValue(a), Pow10(|b'|), DigitsValue(b'), DigitValue(b[|b| - 1]);
      assert DigitsValue(a + b) == 10 * (x * p + y) + d;
      assert DigitsValue(b) == 10 * y + d;
      assert Pow10(|b|) == 10 * p;
      ShiftDigit(x, p, y, d);
    } else {
      assert a + b == a;
    }
  }

  lemma ShiftDigit(x: nat, p: nat, y: nat, d: nat)
    ensures 10 * (x * p + y) + d == x * (10 * p) + (10 * y + d)
  {
  }

  lemma {:induction false} ZerosSnoc(n: nat)
    ensures Zeros(n + 1) == Zeros(n) + "0"
  {
    if n > 0 {
      ZerosSnoc(n - 1);
      ConcatAssoc("0", Zeros(n - 1), "0");
    }
  }

  lemma {:induction false} DigitsValueZeros(n: nat)
    ensures DigitsValue(Zeros(n)) == 0
  {
    if n > 0 {
      ZerosSnoc(n - 1);
      var z := Zeros(n - 1) + "0";
      assert z[..|z| - 1] == Zeros(n - 1);
      DigitsValueZeros(n - 1);
    }
  }

  lemma NatStringTimesTen(q: nat)
    requires q >= 1
    ensures NatString(10 * q) == NatString(q) + "0"
  {
    var m := 10 * q;
    assert m / 10 == q && m % 10 == 0;
  }

  lemma {:induction false} NatStringShift(d: nat, j: nat)
    requires d > 0
    ensures NatString(d * Pow10(j)) == NatString(d) + Zeros(j)
  {
    if j > 0 {
      var p := Pow10(j - 1);
      NatStringShift(d, j - 1);
      ShiftStep(d, j, p, d * p);
    } else {
      assert d * Pow10(0) == d;
      assert NatString(d) + "" == NatString(d);
    }
  }

  lemma ShiftStep(d: nat, j: nat, p: nat, q: nat)
    requires d > 0 && j > 0 && p == Pow10(j - 1) && q == d * p
    requires NatString(q) == NatString(d) + Zeros(j - 1)
    ensures NatString(d * Pow10(j)) == NatString(d) + Zeros(j)
  {
    assert q >= 1 by { MulPositive(d, p); }
    assert d * Pow10(j) == 10 * q by {
      assert Pow10(j) == 10 * p;
      MulAssoc(d, p);
    }
    NatStringTimesTen(q);
    ZerosSnoc(j - 1);
    ConcatAssoc(NatString(d), Zeros(j - 1), "0");
  }

  lemma ConcatAssoc(x: string, y: string, w: string)
    ensures x + (y + w) == (x + y) + w
  {
  }

  lemma MulAssoc(d: nat, p: nat)
    ensures d * (10 * p) == 10 * (d * p)
  {
  }

  lemma MulPositive(a: nat, b: nat)
    requires a >= 1 && b >= 1
    ensures a * b >= 1
  {
  }

  lemma {:induction false} NatStringLength(n: nat, k: nat)
    requires 0 < n < Pow10(k)
    ensures |NatString(n)| <= k
  {
    if n >= 10 {
      NatStringLength(n / 10, k - 1);
    }
  }

  /** A positive or negative whole number below 10^21 in magnitude is
      written as plain digits. */
  lemma NumberStringInteger(n: int)
    requires -(Pow10(21) as int) < n < Pow10(21)
    ensures NumberString(n, 0) == IntString(n)
  {
    var scale := 0;
    if n > 0 {
      MagnitudeInteger(n, scale);
    } else if n < 0 {
      var m := -n;
      NegativeText(n, scale, m);
      MagnitudeInteger(m, scale);
    }
  }

  lemma MagnitudeInteger(m: nat, scale: nat)
    requires scale == 0 && 0 < m < Pow10(21)
    ensures MagnitudeString(m, scale) == NatString(m)
  {
    var e := 0 - scale;
    var r := StripZeros(m, e);
    var d, x := r.0, r.1;
    StripZerosValue(m, e);
    var digits := NatString(d);
    var k := |digits| + x;
    MagnitudeText(m, scale, d, x, digits, k);
    IntegerDigits(m, d, x, digits, k);
  }

  lemma IntegerDigits(m: nat, d: nat, x: nat, digits: string, k: int)
    requires 0 < d && 0 < m < Pow10(21) && d * Pow10(x) == m
    requires digits == NatString(d) && k == |digits| + x
    ensures DigitsString(digits, k) == NatString(m)
  {
    NatStringShift(d, x);
    NatStringLength(m, 21);
  }

  /** Text in the shapes String(x) writes: an optional "-", digits, an
      optional "." and digits, an optional exponent suffix. */
  function FloatText(neg: bool, a: string, b: string, point: bool, hasExp: bool, x: int): string {
    (if neg then "-" else "") + a + (if point then "." + b else "") + (if hasExp then ExponentText(x) else "")
  }

  lemma {:induction false} DigitRunExact(s: string, i: nat, n: nat)
    requires i + n <= |s|
    requires forall t :: i <= t < i + n ==> IsDigit(s[t])
    requires i + n == |s| || !IsDigit(s[i + n])
    ensures DigitRun(s, i) == i + n
    decreases n
  {
    if n > 0 {
      DigitRunExact(s, i + 1, n - 1);
    }
  }

  lemma ExponentAtText(s: string, k: nat, x: int)
    requires k <= |s| && s[k..] == ExponentText(x)
    ensures ExponentAt(s, k) == x
  {
    var v := if x >= 0 then x else -x;
    var t := NatString(v);
    NatStringValue(v);
    assert s[k..] == ['e', if x >= 0 then '+' else '-'] + t;
    assert s[k] == 'e' && s[k + 1] == (if x >= 0 then '+' else '-');
    forall i | k + 2 <= i < |s| ensures IsDigit(s[i]) {
      assert s[i] == t[i - (k + 2)];
    }
    DigitRunExact(s, k + 2, |t|);
    assert s[k + 2..|s|] == t;
  }

  /** parseFloat once the positions of its parts are known. */
  function Signed(neg: bool, v: real): real {
    if neg then -v else v
  }

  lemma ParseFloatParts(s: string, a: string, b: string, neg: bool, i0: nat, i1: nat, f0: nat, f1: nat, x: int)
    requires i0 < i1 <= f0 <= f1 <= |s|
    requires s[i0..i1] == a && s[f0..f1] == b
    requires SkipSpace(s, 0) == 0
    requires (0 < |s| && s[0] == '-') == neg
    requires i0 == if 0 < |s| && (s[0] == '-' || s[0] == '+') then 1 else 0
    requires DigitRun(s, i0) == i1 && DigitRun(s, f0) == f1
    requires f0 == if i1 < |s| && s[i1] == '.' then i1 + 1 else i1
    requires ExponentAt(s, f1) == x
    ensures AllDigits(a + b)
    ensures ParseFloatText(s) == Some(Signed(neg, ScaleByPowerOfTen(DigitsValue(a + b), |b|, x)))
  {
    AllDigitsConcat(a, b);
  }

  /** The characters of sg + a + p + q that the parse looks at. */
  lemma ShapeChars(s: string, sg: string, a: string, p: string, q: string, b: string, point: bool)
    requires s == sg + a + p + q && |sg| <= 1 && |a| >= 1
    requires p == (if point then "." + b else "") && (!point ==> b == [])
    requires q == "" || q[0] == 'e'
    ensures s[0] == if sg == "" then a[0] else sg[0]
    ensures forall t :: |sg| <= t < |sg| + |a| ==> s[t] == a[t - |sg|]
    ensures var f0 := |sg| + |a| + (if point then 1 else 0);
      forall t :: f0 <= t < f0 + |b| ==> s[t] == b[t - f0]
    ensures var i1 := |sg| + |a|; i1 == |s| || s[i1] == (if point then '.' else 'e')
    ensures var f1 := |sg| + |a| + |p|; f1 == |s| || s[f1] == 'e'
    ensures s[|sg| + |a| + |p|..] == q
  {
    var f0 := |sg| + |a| + (if point then 1 else 0);
    forall t | f0 <= t < f0 + |b| ensures s[t] == b[t - f0] {
      assert p[t - |sg| - |a|] == b[t - f0];
    }
  }

  lemma NoLeadingSpace(s: string)
    requires |s| > 0 && (s[0] == '-' || IsDigit(s[0]))
    ensures SkipSpace(s, 0) == 0
  {
    assert !IsSpace(s[0]);
  }

  lemma ParseFloatShape(t: string, neg: bool, a: string, b: string, point: bool, hasExp: bool, x: int)
    requires |a| >= 1 && AllDigits(a) && AllDigits(b)
    requires !point ==> b == []
    requires !hasExp ==> x == 0
    requires t == FloatText(neg, a, b, point, hasExp, x)
    ensures AllDigits(a + b)
    ensures ParseFloatText(t) == Some(Signed(neg, ScaleByPowerOfTen(DigitsValue(a + b), |b|, x)))
  {
    AllDigitsConcat(a, b);
    var sg := if neg then "-" else "";
    var p := if point then "." + b else "";
    var q := if hasExp then ExponentText(x) else "";
    ParseShapeParts(t, sg, a, p, q, b, neg, point, hasExp, x);
  }

  lemma ParseShapeParts(s: string, sg: string, a: string, p: string, q: string, b: string,
                        neg: bool, point: bool, hasExp: bool, x: int)
    requires |a| >= 1 && AllDigits(a) && AllDigits(b)
    requires s == sg + a + p + q && sg == (if neg then "-" else "")
    requires p == (if point then "." + b else "") && (!point ==> b == [])
    requires q == (if hasExp then ExponentText(x) else "") && (!hasExp ==> x == 0)
    ensures AllDigits(a + b)
    ensures ParseFloatText(s) == Some(Signed(neg, ScaleByPowerOfTen(DigitsValue(a + b), |b|, x)))
  {
    var i0 := |sg|;
    var i1 := i0 + |a|;
    var f0 := if point then i1 + 1 else i1;
    var f1 := f0 + |b|;
    ShapePositions(s, sg, a, p, q, b, neg, point, hasExp, x, i0, i1, f0, f1);
    ParseFloatParts(s, a, b, neg, i0, i1, f0, f1, x);
  }

  lemma ShapePositions(s: string, sg: string, a: string, p: string, q: string, b: string,
                       neg: bool, point: bool, hasExp: bool, x: int, i0: nat, i1: nat, f0: nat, f1: nat)
    requires |a| >= 1 && AllDigits(a) && AllDigits(b)
    requires s == sg + a + p + q && sg == (if neg then "-" else "")
    requires p == (if point then "." + b else "") && (!point ==> b == [])
    requires q == (if hasExp then ExponentText(x) else "") && (!hasExp ==> x == 0)
    requires i0 == |sg| && i1 == i0 + |a| && f0 == i1 + |p| - |b| && f1 == f0 + |b|
    ensures i0 < i1 <= f0 <= f1 <= |s|
    ensures s[i0..i1] == a && s[f0..f1] == b
    ensures SkipSpace(s, 0) == 0
    ensures (0 < |s| && s[0] == '-') == neg
    ensures i0 == (if 0 < |s| && (s[0] == '-' || s[0] == '+') then 1 else 0)
    ensures DigitRun(s, i0) == i1
    ensures DigitRun(s, f0) == f1
    ensures f0 == (if i1 < |s| && s[i1] == '.' then i1 + 1 else i1)
    ensures ExponentAt(s, f1) == x
  {
    ShapeChars(s, sg, a, p, q, b, point);
    assert s[i0..i1] == a;
    assert s[f0..f1] == b;
    assert IsDigit(a[0]);
    NoLeadingSpace(s);
    DigitRunExact(s, i0, |a|);
    DigitRunExact(s, f0, |b|);
    if hasExp {
      ExponentAtText(s, f1, x);
    }
  }

  /** d * 10^e as a real. */
  function Scaled(d: nat, e: int): real {
    if e >= 0 then (d * Pow10(e)) as real else d as real / Pow10(-e) as real
  }

  lemma DivCancel(a: nat, b: nat)
    requires b > 0
    ensures (a * b) as real / b as real == a as real
  {
  }

  lemma DivCancelRight(a: nat, b: nat, c: nat)
    requires b > 0 && c > 0
    ensures (a * b) as real / (b * c) as real == a as real / c as real
  {
    assert (b * c) as real == b as real * c as real;
    assert (a * b) as real == a as real * b as real;
  }

  lemma ScaleScaled(u: nat, f: nat, x: int)
    ensures ScaleByPowerOfTen(u, f, x) == Scaled(u, x - f)
  {
    if x >= f {
      ScaleUp(u, f, x, Pow10(x - f), Pow10(f));
    } else if x >= 0 {
      ScaleBetween(u, f, x, Pow10(x), Pow10(f - x));
    } else {
      Pow10Add(f, -x);
    }
  }

  lemma ScaleScaledAt(u: nat, f: nat, x: int, y: int)
    requires y == x - f
    ensures ScaleByPowerOfTen(u, f, x) == Scaled(u, y)
  {
    ScaleScaled(u, f, x);
  }

  lemma ScaleUp(u: nat, f: nat, x: int, p: nat, q: nat)
    requires x >= f && p == Pow10(x - f) && q == Pow10(f)
    ensures ScaleByPowerOfTen(u, f, x) == Scaled(u, x - f)
  {
    Pow10Add(x - f, f);
    MulCancel(u, p, q);
  }

  lemma MulCancel(u: nat, p: nat, q: nat)
    requires q >= 1
    ensures (u * (p * q)) as real / q as real == (u * p) as real
  {
    assert u * (p * q) == (u * p) * q;
    DivCancel(u * p, q);
  }

  lemma ScaleBetween(u: nat, f: nat, x: int, p: nat, q: nat)
    requires 0 <= x < f && p == Pow10(x) && q == Pow10(f - x)
    ensures ScaleByPowerOfTen(u, f, x) == Scaled(u, x - f)
  {
    Pow10Add(x, f - x);
    DivCancelRight(u, p, q);
  }

  lemma NumberValueScaled(m: nat, scale: nat, d: nat, e: int)
    requires e + scale >= 0 && d * Pow10(e + scale) == m
    ensures NumberValue(m, scale) == Scaled(d, e)
  {
    if e >= 0 {
      ValueUp(m, scale, d, e, Pow10(e), Pow10(scale));
    } else {
      ValueDown(m, scale, d, e, Pow10(e + scale), Pow10(-e));
    }
  }

  lemma ValueUp(m: nat, scale: nat, d: nat, e: int, p: nat, q: nat)
    requires e >= 0 && d * Pow10(e + scale) == m && p == Pow10(e) && q == Pow10(scale)
    ensures NumberValue(m, scale) == Scaled(d, e)
  {
    Pow10Add(e, scale);
    MulCancel(d, p, q);
  }

  lemma ValueDown(m: nat, scale: nat, d: nat, e: int, p: nat, q: nat)
    requires e < 0 && e + scale >= 0 && d * Pow10(e + scale) == m && p == Pow10(e + scale) && q == Pow10(-e)
    ensures NumberValue(m, scale) == Scaled(d, e)
  {
    Pow10Add(e + scale, -e);
    DivCancelRight(d, p, q);
  }

  /** Each notation DigitsString chooses reads back as digits * 10^x,
      where x = n - |digits|. */
  lemma DigitsStringParse(digits: string, n: int, neg: bool, x: int)
    requires |digits| >= 1 && AllDigits(digits) && x == n - |digits|
    ensures ParseFloatText((if neg then "-" else "") + DigitsString(digits, n))
      == Some(Signed(neg, Scaled(DigitsValue(digits), x)))
  {
    var k := |digits|;
    if k <= n <= 21 {
      var a := digits + Zeros(x);
      PlainIntegerParse(digits, n, neg, x, a, "");
    } else if 0 < n <= 21 {
      var a, b := digits[..n], digits[n..];
      SplitAt(digits, n);
      PlainFractionParse(digits, n, neg, x, a, b);
    } else if -6 < n <= 0 {
      var j := -n;
      var b := Zeros(j) + digits;
      LeadingZerosParse(digits, n, neg, x, j, b);
    } else {
      var a, b := digits[..1], digits[1..];
      var e, point := n - 1, k > 1;
      SplitAt(digits, 1);
      ExponentParse(digits, n, neg, x, a, b, e, point);
    }
  }

  lemma PlainIntegerParse(digits: string, n: int, neg: bool, x: int, a: string, b: string)
    requires |digits| >= 1 && AllDigits(digits) && |digits| <= n <= 21
    requires x == n - |digits| && a == digits + Zeros(x) && b == ""
    ensures ParseFloatText((if neg then "-" else "") + DigitsString(digits, n))
      == Some(Signed(neg, Scaled(DigitsValue(digits), x)))
  {
    var t := FloatText(neg, a, b, false, false, 0);
    PlainIntegerText(digits, n, neg, x, a, b);
    PlainIntegerValue(digits, x, a, b);
    ParseFloatShape(t, neg, a, b, false, false, 0);
  }

  lemma PlainIntegerText(digits: string, n: int, neg: bool, x: int, a: string, b: string)
    requires |digits| >= 1 && |digits| <= n <= 21
    requires x == n - |digits| && a == digits + Zeros(x) && b == ""
    ensures (if neg then "-" else "") + DigitsString(digits, n) == FloatText(neg, a, b, false, false, 0)
  {
    var sg := if neg then "-" else "";
    assert DigitsString(digits, n) == a;
    IntegerPieces(sg, a);
  }

  lemma IntegerPieces(sg: string, a: string)
    ensures sg + a == sg + a + "" + ""
  {
  }

  lemma PlainIntegerValue(digits: string, x: int, a: string, b: string)
    requires |digits| >= 1 && AllDigits(digits) && x >= 0 && a == digits + Zeros(x) && b == ""
    ensures |a| >= 1 && AllDigits(a) && AllDigits(b)
    ensures ScaleByPowerOfTen(DigitsValue(a + b), |b|, 0) == Scaled(DigitsValue(digits), x)
  {
    assert a + b == a;
    DigitsValueConcat(digits, Zeros(x));
    DigitsValueZeros(x);
    var v := DigitsValue(digits) * Pow10(x);
    assert DigitsValue(a) == v;
    ScaleScaled(v, 0, 0);
    assert Pow10(0) == 1;
  }

  lemma PlainFractionParse(digits: string, n: int, neg: bool, x: int, a: string, b: string)
    requires |digits| >= 1 && AllDigits(digits) && 0 < n < |digits| && n <= 21
    requires x == n - |digits| && a == digits[..n] && b == digits[n..] && digits == a + b
    ensures ParseFloatText((if neg then "-" else "") + DigitsString(digits, n))
      == Some(Signed(neg, Scaled(DigitsValue(digits), x)))
  {
    var t := FloatText(neg, a, b, true, false, 0);
    PlainFractionText(digits, n, neg, a, b);
    SplitParts(digits, a, b, 0, x);
    ParseFloatShape(t, neg, a, b, true, false, 0);
  }

  lemma PlainFractionText(digits: string, n: int, neg: bool, a: string, b: string)
    requires |digits| >= 1 && 0 < n < |digits| && n <= 21 && a == digits[..n] && b == digits[n..]
    ensures (if neg then "-" else "") + DigitsString(digits, n) == FloatText(neg, a, b, true, false, 0)
  {
    var sg := if neg then "-" else "";
    assert DigitsString(digits, n) == a + "." + b;
    FractionPieces(sg, a, b);
  }

  lemma FractionPieces(sg: string, a: string, b: string)
    ensures sg + (a + "." + b) == sg + a + ("." + b) + ""
  {
  }

  lemma LeadingZerosParse(digits: string, n: int, neg: bool, x: int, j: nat, b: string)
    requires |digits| >= 1 && AllDigits(digits) && -6 < n <= 0
    requires x == n - |digits| && j == -n && b == Zeros(j) + digits
    ensures ParseFloatText((if neg then "-" else "") + DigitsString(digits, n))
      == Some(Signed(neg, Scaled(DigitsValue(digits), x)))
  {
    var t := FloatText(neg, "0", b, true, false, 0);
    LeadingZerosText(digits, n, neg, j, b);
    LeadingZerosValue(digits, j, b, x);
    ParseFloatShape(t, neg, "0", b, true, false, 0);
  }

  lemma LeadingZerosText(digits: string, n: int, neg: bool, j: nat, b: string)
    requires |digits| >= 1 && -6 < n <= 0 && j == -n && b == Zeros(j) + digits
    ensures (if neg then "-" else "") + DigitsString(digits, n) == FloatText(neg, "0", b, true, false, 0)
  {
    var sg := if neg then "-" else "";
    assert DigitsString(digits, n) == "0." + Zeros(j) + digits;
    LeadingPieces(sg, Zeros(j), digits);
  }

  lemma LeadingPieces(sg: string, z: string, d: string)
    ensures sg + ("0." + z + d) == sg + "0" + ("." + (z + d)) + ""
  {
  }

  lemma LeadingZerosValue(digits: string, j: nat, b: string, y: int)
    requires AllDigits(digits) && b == Zeros(j) + digits && y == -(j + |digits|)
    ensures AllDigits(b)
    ensures ScaleByPowerOfTen(DigitsValue("0" + b), |b|, 0) == Scaled(DigitsValue(digits), y)
  {
    AllDigitsConcat(Zeros(j), digits);
    assert "0" + b == Zeros(j + 1) + digits by {
      assert Zeros(j + 1) == "0" + Zeros(j);
      ConcatAssoc("0", Zeros(j), digits);
    }
    ZerosPrefixValue(j + 1, digits);
    ScaleScaledAt(DigitsValue(digits), |b|, 0, y);
  }

  /** Leading zeros add nothing to the value. */
  lemma ZerosPrefixValue(j: nat, digits: string)
    requires AllDigits(digits)
    ensures AllDigits(Zeros(j) + digits)
    ensures DigitsValue(Zeros(j) + digits) == DigitsValue(digits)
  {
    DigitsValueConcat(Zeros(j), digits);
    DigitsValueZeros(j);
    var p := Pow10(|digits|);
    assert DigitsValue(Zeros(j)) * p == 0;
  }

  lemma ExponentParse(digits: string, n: int, neg: bool, x: int, a: string, b: string, e: int, point: bool)
    requires |digits| >= 1 && AllDigits(digits)
    requires !(|digits| <= n <= 21) && !(0 < n <= 21) && !(-6 < n <= 0)
    requires x == n - |digits| && a == digits[..1] && b == digits[1..] && digits == a + b
    requires e == n - 1 && point == (|digits| > 1)
    ensures ParseFloatText((if neg then "-" else "") + DigitsString(digits, n))
      == Some(Signed(neg, Scaled(DigitsValue(digits), x)))
  {
    var t := FloatText(neg, a, b, point, true, e);
    if point {
      ExponentTextMany(digits, n, neg, a, b, e);
    } else {
      ExponentTextOne(digits, n, neg, a, b, e);
    }
    SplitParts(digits, a, b, e, x);
    ParseFloatShape(t, neg, a, b, point, true, e);
  }

  lemma ExponentTextOne(digits: string, n: int, neg: bool, a: string, b: string, e: int)
    requires |digits| == 1 && !(|digits| <= n <= 21) && !(0 < n <= 21) && !(-6 < n <= 0)
    requires a == digits[..1] && b == digits[1..] && e == n - 1
    ensures b == []
    ensures (if neg then "-" else "") + DigitsString(digits, n) == FloatText(neg, a, b, false, true, e)
  {
    var sg := if neg then "-" else "";
    assert DigitsString(digits, n) == digits + ExponentText(e);
    assert a == digits;
    OnePieces(sg, a, ExponentText(e));
  }

  lemma OnePieces(sg: string, d: string, t: string)
    ensures sg + (d + t) == sg + d + "" + t
  {
  }

  lemma ExponentTextMany(digits: string, n: int, neg: bool, a: string, b: string, e: int)
    requires |digits| > 1 && !(|digits| <= n <= 21) && !(0 < n <= 21) && !(-6 < n <= 0)
    requires a == digits[..1] && b == digits[1..] && e == n - 1
    ensures (if neg then "-" else "") + DigitsString(digits, n) == FloatText(neg, a, b, true, true, e)
  {
    var sg := if neg then "-" else "";
    assert DigitsString(digits, n) == a + "." + b + ExponentText(e);
    ManyPieces(sg, a, b, ExponentText(e));
  }

  lemma ManyPieces(sg: string, a: string, b: string, t: string)
    ensures sg + (a + "." + b + t) == sg + a + ("." + b) + t
  {
  }

  lemma AllDigitsSplit(a: string, b: string)
    requires AllDigits(a + b)
    ensures AllDigits(a) && AllDigits(b)
  {
    assert forall t :: 0 <= t < |a| ==> a[t] == (a + b)[t];
    assert forall t :: 0 <= t < |b| ==> b[t] == (a + b)[|a| + t];
  }

  lemma SplitAt(s: string, i: nat)
    requires i <= |s|
    ensures s[..i] + s[i..] == s
  {
  }

  /** The value of digits read as a with b after the point, exponent x. */
  lemma SplitParts(digits: string, a: string, b: string, x: int, y: int)
    requires AllDigits(digits) && digits == a + b && y == x - |b|
    ensures AllDigits(a) && AllDigits(b)
    ensures ScaleByPowerOfTen(DigitsValue(a + b), |b|, x) == Scaled(DigitsValue(digits), y)
  {
    AllDigitsSplit(a, b);
    ScaleScaledAt(DigitsValue(digits), |b|, x, y);
  }

  /** parseFloat reads back every number String writes. */
  lemma NumberStringParse(units: int, scale: nat)
    ensures ParseFloatText(NumberString(units, scale)) == Some(NumberValue(units, scale))
  {
    if units == 0 {
      ZeroStringParse(scale);
    } else if units < 0 {
      NegativeStringParse(units, scale, -units);
    } else {
      PositiveStringParse(units, scale);
    }
  }

  /** `Number.parseFloat` on a number cell parses the cell's String form;
      that gives back the cell's own value, which is how ParseFloat reads a
      number cell. */
  lemma NumberCellParse(c: Cell)
    requires c.Number?
    ensures ParseFloatText(CellString(c)) == ParseFloat(Some(c))
  {
    NumberStringParse(c.units, c.scale);
  }

  lemma ZeroStringParse(scale: nat)
    ensures ParseFloatText(NumberString(0, scale)) == Some(NumberValue(0, scale))
  {
    ParseFloatDigits("0");
  }

  lemma PositiveStringParse(m: nat, scale: nat)
    requires m > 0
    ensures ParseFloatText(NumberString(m, scale)) == Some(NumberValue(m, scale))
  {
    EmptyPrefix(MagnitudeString(m, scale));
    MagnitudeParse(m, scale, false);
  }

  lemma EmptyPrefix(t: string)
    ensures "" + t == t
  {
  }

  lemma NegativeStringParse(units: int, scale: nat, m: nat)
    requires units < 0 && m == -units
    ensures ParseFloatText(NumberString(units, scale)) == Some(NumberValue(units, scale))
  {
    NegativeText(units, scale, m);
    NegativeValue(units, scale, m);
    MagnitudeParse(m, scale, true);
  }

  lemma NegativeText(units: int, scale: nat, m: nat)
    requires units < 0 && m == -units
    ensures NumberString(units, scale) == "-" + MagnitudeString(m, scale)
  {
  }

  lemma NegativeValue(units: int, scale: nat, m: nat)
    requires units < 0 && m == -units
    ensures NumberValue(units, scale) == Signed(true, NumberValue(m, scale))
  {
  }

  lemma MagnitudeParse(m: nat, scale: nat, neg: bool)
    requires m > 0
    ensures ParseFloatText((if neg then "-" else "") + MagnitudeString(m, scale)) == Some(Signed(neg, NumberValue(m, scale)))
  {
    var r := StripZeros(m, 0 - scale);
    var digits := NatString(r.0);
    MagnitudeDigitsParse(m, scale, neg, r.0, r.1, digits, |digits| + r.1);
    MagnitudeValue(m, scale, r.0, r.1);
  }

  lemma MagnitudeDigitsParse(m: nat, scale: nat, neg: bool, d: nat, e: int, digits: string, n: int)
    requires m > 0 && (d, e) == StripZeros(m, 0 - scale) && digits == NatString(d) && n == |digits| + e
    ensures ParseFloatText((if neg then "-" else "") + MagnitudeString(m, scale)) == Some(Signed(neg, Scaled(d, e)))
  {
    MagnitudeText(m, scale, d, e, digits, n);
    DigitsStringParse(digits, n, neg, e);
    NatStringValue(d);
  }

  lemma MagnitudeText(m: nat, scale: nat, d: nat, e: int, digits: string, n: int)
    requires m > 0 && (d, e) == StripZeros(m, 0 - scale) && digits == NatString(d) && n == |digits| + e
    ensures MagnitudeString(m, scale) == DigitsString(digits, n)
  {
    MagnitudeUnfold(m, scale, 0 - scale, d, e, digits, n);
  }

  lemma MagnitudeUnfold(m: nat, scale: nat, e0: int, d: nat, e: int, digits: string, n: int)
    requires m > 0 && e0 == 0 - scale && (d, e) == StripZeros(m, e0) && digits == NatString(d) && n == |digits| + e
    ensures MagnitudeString(m, scale) == DigitsString(digits, n)
  {
  }

  lemma MagnitudeValue(m: nat, scale: nat, d: nat, e: int)
    requires m > 0 && (d, e) == StripZeros(m, 0 - scale)
    ensures NumberValue(m, scale) == Scaled(d, e)
  {
    var e0 := 0 - scale;
    StripZerosValue(m, e0);
    NumberValueScaled(m, scale, d, e);
  }

  /** NumberString of a positive number, through its stripped digits. */
  lemma PositiveDigits(m: nat, scale: nat, d: nat, e: int, digits: string, n: int)
    requires m > 0 && (d, e) == StripZeros(m, 0 - scale) && digits == NatString(d) && n == |digits| + e
    ensures NumberString(m, scale) == DigitsString(digits, n)
  {
    EmptyPrefix(MagnitudeString(m, scale));
    MagnitudeText(m, scale, d, e, digits, n);
  }

  lemma {:induction false} StripPow(j: nat, e: int, x: int)
    requires x == e + j
    ensures StripZeros(Pow10(j), e) == (1, x)
  {
    if j > 0 {
      StripPow(j - 1, e + 1, x);
      var p := Pow10(j - 1);
      TenTimes(p);
    }
  }

  lemma TenTimes(p: nat)
    ensures (10 * p) % 10 == 0 && (10 * p) / 10 == p
  {
  }

  /** From 10^21 on, a power of ten is written in exponent notation. */
  lemma LargePowerString(j: nat, scale: nat)
    requires j >= scale + 21
    ensures NumberString(Pow10(j), scale) == "1e+" + NatString(j - scale)
  {
    var e := 0 - scale;
    var x := j - scale;
    var n := 1 + x;
    LargePowerDigits(j, scale, e, x, n);
    LargePowerText(x, n);
  }

  lemma LargePowerDigits(j: nat, scale: nat, e: int, x: int, n: int)
    requires e == 0 - scale && x == j - scale && n == 1 + x
    ensures NumberString(Pow10(j), scale) == DigitsString("1", n)
  {
    StripPow(j, e, x);
    NatOne();
    PositiveDigits(Pow10(j), scale, 1, x, "1", n);
  }

  lemma LargePowerText(x: nat, n: int)
    requires x >= 21 && n == 1 + x
    ensures DigitsString("1", n) == "1e+" + NatString(x)
  {
    var y := n - 1;
    SingleDigitExponent("1", n, y);
    ExponentPlus(y, x);
    ConcatAssoc("1", "e+", NatString(x));
  }

  /** A single digit outside the plain ranges gets just an exponent. */
  lemma SingleDigitExponent(digits: string, n: int, y: int)
    requires |digits| == 1 && (n > 21 || n <= -6) && y == n - 1
    ensures DigitsString(digits, n) == digits + ExponentText(y)
  {
  }

  lemma ExponentPlus(y: int, x: nat)
    requires y == x
    ensures ExponentText(y) == "e+" + NatString(x)
  {
  }

  lemma ExponentMinus(y: int, j: nat)
    requires y == 0 - j && j > 0
    ensures ExponentText(y) == "e-" + NatString(j)
  {
  }

  lemma StripOne(e: int)
    ensures StripZeros(1, e) == (1, e)
  {
  }

  lemma NatOne()
    ensures NatString(1) == "1"
  {
  }

  /** From 10^-7 down, a power of ten is written in exponent notation. */
  lemma TinyPowerString(j: nat)
    requires j >= 7
    ensures NumberString(1, j) == "1e-" + NatString(j)
  {
    var e := 0 - j;
    var n := 1 + e;
    TinyPowerDigits(j, e, n);
    TinyPowerText(j, n);
  }

  lemma TinyPowerText(j: nat, n: int)
    requires j >= 7 && n == 1 - j
    ensures DigitsString("1", n) == "1e-" + NatString(j)
  {
    var y := n - 1;
    SingleDigitExponent("1", n, y);
    ExponentMinus(y, j);
    ConcatAssoc("1", "e-", NatString(j));
  }

  lemma TinyPowerDigits(j: nat, e: int, n: int)
    requires e == 0 - j && n == 1 + e
    ensures NumberString(1, j) == DigitsString("1", n)
  {
    StripOne(e);
    NatOne();
    PositiveDigits(1, j, 1, e, "1", n);
  }

  /** Between 10^-6 and 10^-1 it is written with leading zeros. */
  lemma SmallPowerString(j: nat)
    requires 1 <= j <= 6
    ensures NumberString(1, j) == "0." + Zeros(j - 1) + "1"
  {
    var e := 0 - j;
    var n := 1 + e;
    TinyPowerDigits(j, e, n);
    SmallPowerText(j, n);
  }

  lemma SmallPowerText(j: nat, n: int)
    requires 1 <= j <= 6 && n == 1 - j
    ensures DigitsString("1", n) == "0." + Zeros(j - 1) + "1"
  {
  }

  /** 10^-7 is the first negative power written with an exponent. */
  lemma TinyExample()
    ensures NumberString(1, 7) == "1e-7"
  {
    TinyPowerString(7);
    NatSeven();
  }

  /** 10^21 is the first positive power written with an exponent. */
  lemma LargeExample(j: nat)
    requires j == 21
    ensures NumberString(Pow10(j), 0) == "1e+21"
  {
    LargePowerString(j, 0);
    NatTwentyOne(j);
  }

  lemma NatSeven()
    ensures NatString(7) == "7"
  {
  }

  lemma NatTwentyOne(j: nat)
    requires j == 21
    ensures NatString(j) == "21"
  {
    assert NatString(2) == "2";
  }

}
