/** The part of JavaScript's value semantics the application depends on:
    truthiness of a property read, Number.parseFloat, String(value) for a
    number, array-index property names, and the string methods the pages call
    (toLowerCase, toUpperCase, includes, startsWith, split, trim). */
module JsValues {
  import opened Wrappers

  /** A spreadsheet cell as the xlsx reader returns it: a string, a number
      (held exactly as units / 10^scale) or a boolean. An empty cell is never
      a Cell: the reader leaves the key out of the row. */
  datatype Cell = Text(s: string) | Number(units: int, scale: nat) | Boolean(b: bool)

  function Pow10(n: nat): (r: nat)
    ensures r >= 1
  {
    if n == 0 then 1 else 10 * Pow10(n - 1)
  }

  /** The numeric value of Number(units, scale). */
  function NumberValue(units: int, scale: nat): real {
    units as real / Pow10(scale) as real
  }

  /** `!v` for a property read: undefined, "", 0 and false are falsy. */
  predicate Falsy(v: Option<Cell>) {
    match v
    case None => true
    case Some(Text(s)) => s == ""
    case Some(Number(units, _)) => units == 0
    case Some(Boolean(b)) => !b
  }

  // ---------------------------------------------------------------------------
  // Decimal digits

  predicate IsDigit(c: char) { '0' <= c <= '9' }

  function DigitValue(c: char): nat
    requires IsDigit(c)
  {
    c as int - '0' as int
  }

  function DigitChar(d: nat): char
    requires d < 10
  {
    ('0' as int + d) as char
  }

  predicate AllDigits(s: string) {
    forall i :: 0 <= i < |s| ==> IsDigit(s[i])
  }

  /** The value of a string of decimal digits. */
  function DigitsValue(s: string): nat
    requires AllDigits(s)
  {
    if s == [] then 0 else 10 * DigitsValue(s[..|s| - 1]) + DigitValue(s[|s| - 1])
  }

  /** String(n) for a natural number: canonical decimal, no leading zero. */
  function NatString(n: nat): (s: string)
    ensures |s| >= 1 && AllDigits(s)
    ensures s[0] != '0' || |s| == 1
  {
    if n < 10 then [DigitChar(n)]
    else
      var prefix := NatString(n / 10);
      var s := prefix + [DigitChar(n % 10)];
      assert s[..|s| - 1] == prefix;
      s
  }

  /** NatString(n) reads back as n. */
  lemma {:induction false} NatStringValue(n: nat)
    ensures DigitsValue(NatString(n)) == n
  {
    if n >= 10 {
      NatStringValue(n / 10);
      var s := NatString(n);
      assert s[..|s| - 1] == NatString(n / 10);
    }
  }

  function IntString(n: int): string {
    if n < 0 then "-" + NatString(-n) else NatString(n)
  }

  /** n zeros. */
  function Zeros(n: nat): (s: string)
    ensures |s| == n && AllDigits(s)
  {
    if n == 0 then "" else "0" + Zeros(n - 1)
  }

  /** A non-zero m * 10^e as d * 10^e' with d not a multiple of 10. */
  function StripZeros(m: nat, e: int): (r: (nat, int))
    requires m > 0
    ensures r.0 > 0 && r.0 % 10 != 0 && r.1 >= e
    decreases m
  {
    if m % 10 == 0 then StripZeros(m / 10, e + 1) else (m, e)
  }

  /** The stripped digits times the dropped power of ten give back m. */
  lemma {:induction false} StripZerosValue(m: nat, e: int)
    requires m > 0
    ensures var r := StripZeros(m, e); r.0 * Pow10(r.1 - e) == m
    decreases m
  {
    if m % 10 == 0 {
      StripZerosValue(m / 10, e + 1);
      var r := StripZeros(m / 10, e + 1);
      var k := r.1 - e;
      var q := Pow10(k - 1);
      assert Pow10(k) == 10 * q;
      TimesTen(r.0, q);
    }
  }

  lemma TimesTen(a: nat, q: nat)
    ensures a * (10 * q) == 10 * (a * q)
  {
  }

  /** The text Number::toString (section 6.1.6.1 of ECMA-262) writes for the
      shortest digit string `digits` (no trailing zero) and the exponent n,
      where the value is digits * 10^(n - |digits|): plain notation while
      -6 < n <= 21, exponent notation outside that range. */
  function DigitsString(digits: string, n: int): string
    requires |digits| >= 1
  {
    var k := |digits|;
    if k <= n <= 21 then digits + Zeros(n - k)
    else if 0 < n <= 21 then digits[..n] + "." + digits[n..]
    else if -6 < n <= 0 then "0." + Zeros(-n) + digits
    else
      var mantissa := if k == 1 then digits else digits[..1] + "." + digits[1..];
      mantissa + ExponentText(n - 1)
  }

  /** The "e+x" / "e-x" suffix of exponent notation. */
  function ExponentText(x: int): string {
    if x >= 0 then "e+" + NatString(x) else "e-" + NatString(-x)
  }

  /** String(x) for x = units / 10^scale. The digits are those of the exact
      decimal, which the reader's value is taken to be. */
  function NumberString(units: int, scale: nat): string {
    if units == 0 then "0"
    else if units < 0 then "-" + MagnitudeString(-units, scale)
    else MagnitudeString(units, scale)
  }

  /** String(x) for a positive x = m / 10^scale. */
  function MagnitudeString(m: nat, scale: nat): string
    requires m > 0
  {
    var r := StripZeros(m, 0 - scale);
    var digits := NatString(r.0);
    DigitsString(digits, |digits| + r.1)
  }

  /** String(v) for a defined cell: the property name the cell becomes when it
      is used as an object key. */
  function CellString(c: Cell): string {
    match c
    case Text(s) => s
    case Boolean(b) => if b then "true" else "false"
    case Number(units, scale) => NumberString(units, scale)
  }

  // ---------------------------------------------------------------------------
  // Array-index property names (section 6.1.7 of ECMA-262)

  const MaxArrayIndex: nat := 4294967294

  /** A canonical decimal string of an integer in [0, 2^32 - 2]: the property
      names that Object.keys lists before all others, in ascending order. */
  predicate IsArrayIndex(s: string) {
    && |s| > 0
    && AllDigits(s)
    && (s[0] != '0' || |s| == 1)
    && DigitsValue(s) <= MaxArrayIndex
  }

  function ArrayIndexValue(s: string): nat {
    if AllDigits(s) then DigitsValue(s) else 0
  }

  // ---------------------------------------------------------------------------
  // Number.parseFloat

  /** WhiteSpace and LineTerminator (sections 12.2 and 12.3 of ECMA-262):
      what trim, parseFloat and parseInt skip. The space separators (Unicode
      category Zs) are U+0020, U+00A0, U+1680, U+2000 to U+200A, U+202F,
      U+205F and U+3000. */
  predicate IsSpace(c: char) {
    || c == '\t' || c == '\U{B}' || c == '\U{C}' || c == '\U{FEFF}'
    || c == ' ' || c == '\U{A0}' || c == '\U{1680}' || '\U{2000}' <= c <= '\U{200A}'
    || c == '\U{202F}' || c == '\U{205F}' || c == '\U{3000}'
    || c == '\n' || c == '\r' || c == '\U{2028}' || c == '\U{2029}'
  }

  function SkipSpace(s: string, i: nat): (j: nat)
    requires i <= |s|
    ensures i <= j <= |s|
    ensures j == |s| || !IsSpace(s[j])
    decreases |s| - i
  {
    if i < |s| && IsSpace(s[i]) then SkipSpace(s, i + 1) else i
  }

  /** The end of the run of digits that starts at i. */
  function DigitRun(s: string, i: nat): (j: nat)
    requires i <= |s|
    ensures i <= j <= |s|
    ensures AllDigits(s[i..j])
    ensures j == |s| || !IsDigit(s[j])
    decreases |s| - i
  {
    if i < |s| && IsDigit(s[i]) then
      DigitRun(s, i + 1)
    else i
  }

  /** The exponent of an `e`/`E` suffix at k, 0 when there is none. */
  function ExponentAt(s: string, k: nat): int
    requires k <= |s|
  {
    if k < |s| && (s[k] == 'e' || s[k] == 'E') then
      var signed := k + 1 < |s| && (s[k + 1] == '-' || s[k + 1] == '+');
      var d := if signed then k + 2 else k + 1;
      var e := DigitRun(s, d);
      if e == d then 0
      else if signed && s[k + 1] == '-' then 0 - DigitsValue(s[d..e])
      else DigitsValue(s[d..e])
    else 0
  }

  function ScaleByPowerOfTen(units: nat, scale: nat, exponent: int): real {
    if exponent >= 0 then (units * Pow10(exponent)) as real / Pow10(scale) as real
    else units as real / (Pow10(scale) * Pow10(-exponent)) as real
  }

  lemma ScaleByNothing(units: nat)
    ensures ScaleByPowerOfTen(units, 0, 0) == units as real
  {
    assert Pow10(0) == 1;
  }

  lemma AllDigitsConcat(a: string, b: string)
    requires AllDigits(a) && AllDigits(b)
    ensures AllDigits(a + b)
  {
    assert forall k :: |a| <= k < |a + b| ==> (a + b)[k] == b[k - |a|];
  }

  /** parseFloat of a string: the longest decimal prefix after leading white
      space, None (NaN) when that prefix has no digit. */
  function ParseFloatText(s: string): Option<real> {
    var i := SkipSpace(s, 0);
    var negative := i < |s| && s[i] == '-';
    var j := if i < |s| && (s[i] == '-' || s[i] == '+') then i + 1 else i;
    var intEnd := DigitRun(s, j);
    var fracStart := if intEnd < |s| && s[intEnd] == '.' then intEnd + 1 else intEnd;
    var fracEnd := DigitRun(s, fracStart);
    if intEnd == j && fracEnd == fracStart then None
    else
      AllDigitsConcat(s[j..intEnd], s[fracStart..fracEnd]);
      var units := DigitsValue(s[j..intEnd] + s[fracStart..fracEnd]);
      var magnitude := ScaleByPowerOfTen(units, fracEnd - fracStart, ExponentAt(s, fracEnd));
      Some(if negative then -magnitude else magnitude)
  }

  lemma {:induction false} DigitRunToEnd(s: string, i: nat)
    requires i <= |s| && AllDigits(s[i..])
    ensures DigitRun(s, i) == |s|
    decreases |s| - i
  {
    if i < |s| {
      assert IsDigit(s[i..][0]);
      assert s[i + 1..] == s[i..][1..];
      DigitRunToEnd(s, i + 1);
    }
  }

  /** A plain run of digits parses to its decimal value. */
  lemma ParseFloatDigits(s: string)
    requires |s| > 0 && AllDigits(s)
    ensures ParseFloatText(s) == Some(DigitsValue(s) as real)
  {
    assert !IsSpace(s[0]) && s[0] != '-' && s[0] != '+';
    assert SkipSpace(s, 0) == 0;
    assert s[0..] == s;
    DigitRunToEnd(s, 0);
    assert DigitRun(s, |s|) == |s|;
    assert s[0..|s|] + s[|s|..|s|] == s;
    assert ExponentAt(s, |s|) == 0;
    ScaleByNothing(DigitsValue(s));
  }

  /** Number.parseFloat(v) for a property read; None stands for NaN. */
  function ParseFloat(v: Option<Cell>): Option<real> {
    match v
    case None => None
    case Some(Text(s)) => ParseFloatText(s)
    case Some(Number(units, scale)) => Some(NumberValue(units, scale))
    case Some(Boolean(_)) => None
  }

  /** `Number.parseFloat(v) || 0`: NaN (and 0) become 0. */
  function NumberOrZero(v: Option<Cell>): (r: real)
    ensures r != 0.0 ==> ParseFloat(v) == Some(r)
  {
    match ParseFloat(v)
    case None => 0.0
    case Some(x) => x
  }

  // ---------------------------------------------------------------------------
  // Number.parseInt

  predicate IsHexDigit(c: char) {
    IsDigit(c) || 'a' <= c <= 'f' || 'A' <= c <= 'F'
  }

  function HexDigitValue(c: char): (d: nat)
    requires IsHexDigit(c)
    ensures d < 16
  {
    if IsDigit(c) then DigitValue(c)
    else if 'a' <= c <= 'f' then c as int - 'a' as int + 10
    else c as int - 'A' as int + 10
  }

  /** The end of the run of hexadecimal digits starting at i. */
  function HexRun(s: string, i: nat): (j: nat)
    requires i <= |s|
    ensures i <= j <= |s|
    ensures forall k :: i <= k < j ==> IsHexDigit(s[k])
    decreases |s| - i
  {
    if i < |s| && IsHexDigit(s[i]) then HexRun(s, i + 1) else i
  }

  /** The value of s[i..j] read in base 16. */
  function HexValue(s: string, i: nat, j: nat): nat
    requires i <= j <= |s|
    requires forall k :: i <= k < j ==> IsHexDigit(s[k])
    decreases j - i
  {
    if i == j then 0 else 16 * HexValue(s, i, j - 1) + HexDigitValue(s[j - 1])
  }

  /** Number.parseInt(s) with no radix; None stands for NaN. White space is
      skipped, then one optional sign; a following "0x" or "0X" selects base
      16; then the longest run of digits of that base is read, and without a
      single digit the result is NaN. */
  function ParseInt(s: string): Option<int> {
    var i := SkipSpace(s, 0);
    var sign := if i < |s| && s[i] == '-' then -1 else 1;
    var j := if i < |s| && (s[i] == '-' || s[i] == '+') then i + 1 else i;
    if j + 1 < |s| && s[j] == '0' && (s[j + 1] == 'x' || s[j + 1] == 'X') then
      var k := HexRun(s, j + 2);
      if k == j + 2 then None else Some(sign * HexValue(s, j + 2, k))
    else
      var k := DigitRun(s, j);
      if k == j then None else Some(sign * DigitsValue(s[j..k]))
  }

  /** Text that starts with neither white space, a sign nor a digit is NaN. */
  lemma ParseIntNonNumeric(s: string)
    requires s != "" && !IsSpace(s[0]) && !IsDigit(s[0]) && s[0] != '-' && s[0] != '+'
    ensures ParseInt(s) == None
  {
    assert SkipSpace(s, 0) == 0;
    assert DigitRun(s, 0) == 0;
  }

  /** parseInt reads back what String(n) writes. */
  lemma ParseIntNatString(n: nat)
    ensures ParseInt(NatString(n)) == Some(n)
  {
    var s := NatString(n);
    assert SkipSpace(s, 0) == 0 by { assert IsDigit(s[0]); }
    DigitRunToEnd(s, 0);
    assert s[0..|s|] == s;
    NatStringValue(n);
  }

  lemma ParseIntIntString(n: int)
    ensures ParseInt(IntString(n)) == Some(n)
  {
    if n >= 0 {
      ParseIntNatString(n);
    } else {
      var t := NatString(-n);
      var s := IntString(n);
      assert s == "-" + t;
      assert s[1..] == t;
      assert SkipSpace(s, 0) == 0;
      DigitRunToEnd(s, 1);
      assert s[1..|s|] == t;
      NatStringValue(-n);
      if 2 < |s| {
        assert s[1] == t[0] && s[2] == t[1];
        assert IsDigit(t[1]);
      }
    }
  }

  // ---------------------------------------------------------------------------
  // String methods (case mapping on ASCII letters only)

  function LowerChar(c: char): char {
    if 'A' <= c <= 'Z' then (c as int + 32) as char else c
  }

  function UpperChar(c: char): char {
    if 'a' <= c <= 'z' then (c as int - 32) as char else c
  }

  function ToLower(s: string): string {
    if s == [] then [] else [LowerChar(s[0])] + ToLower(s[1..])
  }

  /** s.length: JavaScript counts UTF-16 code units, so a character above
      U+FFFF (a surrogate pair) counts twice. */
  function Utf16Length(s: string): (n: nat)
    ensures |s| <= n <= 2 * |s|
  {
    if s == [] then 0 else (if s[0] as int > 0xFFFF then 2 else 1) + Utf16Length(s[1..])
  }

  /** The length is the number of characters exactly when no character is
      beyond the Basic Multilingual Plane. */
  lemma {:induction false} Utf16LengthBasic(s: string)
    ensures Utf16Length(s) == |s| <==> forall i :: 0 <= i < |s| ==> s[i] as int <= 0xFFFF
  {
    if s != [] {
      Utf16LengthBasic(s[1..]);
      assert forall i :: 1 <= i < |s| ==> s[i] == s[1..][i - 1];
    }
  }

  /** Three emoji are six code units. */
  lemma Utf16LengthEmoji()
    ensures |"\U{1F600}\U{1F600}\U{1F600}"| == 3
    ensures Utf16Length("\U{1F600}\U{1F600}\U{1F600}") == 6
  {
  }

  /** s.includes(t) */
  predicate Includes(s: string, t: string) {
    t <= s || (s != [] && Includes(s[1..], t))
  }

  /** s.startsWith(p) */
  predicate StartsWith(s: string, p: string) {
    p <= s
  }

  /** s.split(sep) for a one-character separator. */
  function Split(s: string, sep: char): (parts: seq<string>)
    ensures |parts| >= 1
    ensures forall i :: 0 <= i < |parts| ==> sep !in parts[i]
  {
    if s == [] then [""]
    else
      var rest := Split(s[1..], sep);
      if s[0] == sep then [""] + rest else [[s[0]] + rest[0]] + rest[1..]
  }

  /** A string without the separator is one part. */
  lemma {:induction false} SplitNoSeparator(s: string, sep: char)
    requires sep !in s
    ensures Split(s, sep) == [s]
  {
    if s != [] {
      SplitNoSeparator(s[1..], sep);
      assert [s[0]] + s[1..] == s;
    }
  }

  /** A separator after a part without one closes that part. */
  lemma {:induction false} SplitAfterPart(a: string, b: string, sep: char)
    requires sep !in a
    ensures Split(a + [sep] + b, sep) == [a] + Split(b, sep)
  {
    if a == [] {
      assert a + [sep] + b == [sep] + b;
      assert ([sep] + b)[1..] == b;
    } else {
      SplitAfterPart(a[1..], b, sep);
      assert (a + [sep] + b)[1..] == a[1..] + [sep] + b;
      assert [a[0]] + a[1..] == a;
    }
  }

  /** Whatever precedes the last separator, the part after it is the last
      part. */
  lemma {:induction false} SplitLastPart(a: string, b: string, sep: char)
    requires sep !in b
    ensures |Split(a + [sep] + b, sep)| >= 2
    ensures Split(a + [sep] + b, sep)[|Split(a + [sep] + b, sep)| - 1] == b
  {
    if a == [] {
      assert a + [sep] + b == [sep] + b;
      assert ([sep] + b)[1..] == b;
      SplitNoSeparator(b, sep);
    } else {
      SplitLastPart(a[1..], b, sep);
      assert (a + [sep] + b)[1..] == a[1..] + [sep] + b;
    }
  }

  /** parts.join(sep) */
  function Join(parts: seq<string>, sep: char): string
    requires |parts| >= 1
  {
    if |parts| == 1 then parts[0] else parts[0] + [sep] + Join(parts[1..], sep)
  }

  /** split and join are inverse: no character of the string is lost. */
  lemma {:induction false} SplitJoin(s: string, sep: char)
    ensures Join(Split(s, sep), sep) == s
  {
    if s != [] {
      SplitJoin(s[1..], sep);
      var rest := Split(s[1..], sep);
      if s[0] != sep {
        if |rest| > 1 {
          assert Join(Split(s, sep), sep) == [s[0]] + rest[0] + [sep] + Join(rest[1..], sep);
        }
      }
    }
  }

  function TrimStart(s: string): (r: string)
    ensures r == [] || !IsSpace(r[0])
    ensures |r| <= |s| && r == s[|s| - |r|..]
  {
    if s != [] && IsSpace(s[0]) then TrimStart(s[1..]) else s
  }

  function TrimEnd(s: string): (r: string)
    ensures r == [] || !IsSpace(r[|r| - 1])
    ensures r <= s
  {
    if s != [] && IsSpace(s[|s| - 1]) then TrimEnd(s[..|s| - 1]) else s
  }

  /** Neither end is white space. */
  predicate Trimmed(s: string) {
    s == [] || (!IsSpace(s[0]) && !IsSpace(s[|s| - 1]))
  }

  /** s.trim() */
  function Trim(s: string): (r: string)
    ensures Trimmed(r)
  {
    TrimEnd(TrimStart(s))
  }

  lemma {:induction false} TrimStartKeeps(s: string, i: nat)
    requires i < |s| && !IsSpace(s[i])
    ensures |TrimStart(s)| >= |s| - i
  {
    if s != [] && IsSpace(s[0]) {
      TrimStartKeeps(s[1..], i - 1);
    }
  }

  lemma {:induction false} TrimEndKeeps(s: string, i: nat)
    requires i < |s| && !IsSpace(s[i])
    ensures |TrimEnd(s)| > i
  {
    if s != [] && IsSpace(s[|s| - 1]) {
      TrimEndKeeps(s[..|s| - 1], i);
    }
  }

  /** A string with a character that is not white space does not trim to
      the empty string. */
  lemma TrimNonBlank(s: string, i: nat)
    requires i < |s| && !IsSpace(s[i])
    ensures Trim(s) != ""
  {
    var t := TrimStart(s);
    TrimStartKeeps(s, i);
    var j := i - (|s| - |t|);
    assert t[j] == s[i];
    TrimEndKeeps(t, j);
  }

  lemma {:induction false} TrimStartBlank(s: string)
    requires forall i :: 0 <= i < |s| ==> IsSpace(s[i])
    ensures TrimStart(s) == []
  {
    if s != [] {
      assert forall i :: 0 <= i < |s| - 1 ==> s[1..][i] == s[i + 1];
      TrimStartBlank(s[1..]);
    }
  }

  /** A string of white space only trims to the empty string (the converse
      of TrimNonBlank). */
  lemma TrimBlank(s: string)
    requires forall i :: 0 <= i < |s| ==> IsSpace(s[i])
    ensures Trim(s) == ""
  {
    TrimStartBlank(s);
  }

  /** One character between two white-space characters trims to itself. */
  lemma TrimAround(s: string)
    requires |s| == 3 && IsSpace(s[0]) && !IsSpace(s[1]) && IsSpace(s[2])
    ensures Trim(s) == s[1..2]
  {
    var t := s[1..];
    assert TrimStart(t) == t;
    assert TrimStart(s) == t;
    assert TrimEnd(t[..1]) == t[..1];
  }

  /** The ideographic space, the no-break space and the byte order mark are
      white space for trim. */
  lemma TrimWideSpace(blank: string, padded: string)
    requires blank == "\U{3000}\U{A0}" && padded == "\U{3000}x\U{FEFF}"
    ensures Trim(blank) == "" && Trim(padded) == "x"
  {
    TrimBlank(blank);
    TrimAround(padded);
  }

  /** Trimming changes exactly the strings that are not already trimmed. */
  lemma TrimFixpoint(s: string)
    ensures Trim(s) == s <==> Trimmed(s)
  {
    if Trimmed(s) {
      assert TrimStart(s) == s;
      assert TrimEnd(s) == s;
    }
  }
}
