/** Numbers as the dashboard handles them: integers written with `String(n)`,
    read back with `parseInt(s, 10)` (which may yield NaN), and percentages
    rounded with `Math.round`. */
module Numbers {

  /** A JavaScript number as far as the dashboard's counters go: an integer or NaN. */
  datatype JsNumber = Num(value: int) | NaN

  /** `x + 1`: NaN stays NaN. */
  function Increment(x: JsNumber): (r: JsNumber)
    ensures r.Num? <==> x.Num?
    ensures x.Num? ==> r.value == x.value + 1
  {
    match x
    case Num(n) => Num(n + 1)
    case NaN => NaN
  }

  predicate IsDigit(c: char) {
    '0' <= c <= '9'
  }

  function DigitChar(d: int): char
    requires 0 <= d < 10
  {
    ('0' as int + d) as char
  }

  function DigitValue(c: char): nat
    requires IsDigit(c)
  {
    c as int - '0' as int
  }

  /** Decimal digits of `n`, most significant first, without leading zeros. */
  function NatToString(n: nat): (r: string)
    ensures |r| > 0
    ensures forall i :: 0 <= i < |r| ==> IsDigit(r[i])
    ensures r[0] == '0' ==> n == 0
  {
    if n < 10 then [DigitChar(n)] else NatToString(n / 10) + [DigitChar(n % 10)]
  }

  /** `String(n)` for an integer `n`. */
  function IntToString(n: int): (r: string)
    ensures |r| > 0
  {
    if n < 0 then "-" + NatToString(-n) else NatToString(n)
  }

  /** The two page sizes the dashboard asks for, written out. */
  lemma SmallNumerals()
    ensures IntToString(10) == "10"
    ensures IntToString(100) == "100"
  {
    assert NatToString(1) == "1";
    assert NatToString(10) == NatToString(1) + [DigitChar(0)];
    assert NatToString(100) == NatToString(10) + [DigitChar(0)];
  }

  /** `String(x)`. */
  function Render(x: JsNumber): string {
    match x
    case Num(n) => IntToString(n)
    case NaN => "NaN"
  }

  /** The value of a string of decimal digits. */
  function DigitsValue(ds: string): nat
    requires forall i :: 0 <= i < |ds| ==> IsDigit(ds[i])
  {
    if |ds| == 0 then 0 else DigitsValue(ds[..|ds| - 1]) * 10 + DigitValue(ds[|ds| - 1])
  }

  /** The longest prefix of `s` made of decimal digits. */
  function LeadingDigits(s: string): (r: string)
    ensures r <= s
    ensures forall i :: 0 <= i < |r| ==> IsDigit(r[i])
    ensures |r| < |s| ==> !IsDigit(s[|r|])
  {
    if |s| == 0 || !IsDigit(s[0]) then "" else [s[0]] + LeadingDigits(s[1..])
  }

  /** The characters ECMAScript's `parseInt` skips before the number:
      white space and line terminators. */
  predicate IsJsSpace(c: char) {
    || c == ' ' || c == '\t' || c == '\n' || c == '\r'
    || c == '\U{000B}' || c == '\U{000C}' || c == '\U{00A0}' || c == '\U{1680}'
    || ('\U{2000}' <= c <= '\U{200A}')
    || c == '\U{2028}' || c == '\U{2029}' || c == '\U{202F}' || c == '\U{205F}'
    || c == '\U{3000}' || c == '\U{FEFF}'
  }

  /** `s` without its leading white space. */
  function TrimStart(s: string): (r: string)
    ensures |r| <= |s|
    ensures |r| > 0 ==> !IsJsSpace(r[0])
    ensures |s| > 0 && !IsJsSpace(s[0]) ==> r == s
    ensures r == s[|s| - |r|..]
  {
    if |s| > 0 && IsJsSpace(s[0]) then TrimStart(s[1..]) else s
  }

  /** `parseInt(s, 10)`: skip white space, take an optional sign, then the
      longest run of digits; NaN when there is no digit. */
  function ParseInt(s: string): (r: JsNumber)
    ensures r.Num? ==> exists i :: 0 <= i < |s| && IsDigit(s[i])
  {
    var r := ParseSigned(TrimStart(s));
    if r.Num? then
      DigitSurvivesTrim(s);
      r
    else r
  }

  /** A digit after the white space is a digit of the whole string. */
  lemma DigitSurvivesTrim(s: string)
    requires exists i :: 0 <= i < |TrimStart(s)| && IsDigit(TrimStart(s)[i])
    ensures exists i :: 0 <= i < |s| && IsDigit(s[i])
  {
    var t := TrimStart(s);
    var i :| 0 <= i < |t| && IsDigit(t[i]);
    var k := |s| - |t| + i;
    assert t == s[|s| - |t|..];
    assert s[k] == t[i];
    assert 0 <= k < |s| && IsDigit(s[k]);
  }

  /** `parseInt` after the white space: an optional sign, then the longest
      run of digits. */
  function ParseSigned(t: string): (r: JsNumber)
    ensures r.Num? ==> exists i :: 0 <= i < |t| && IsDigit(t[i])
  {
    var negative := |t| > 0 && t[0] == '-';
    var body := if |t| > 0 && (t[0] == '-' || t[0] == '+') then t[1..] else t;
    var ds := LeadingDigits(body);
    if |ds| == 0 then NaN
    else
      assert ds[0] == body[0];
      assert body[0] == t[if body == t then 0 else 1];
      var v: int := DigitsValue(ds);
      Num(if negative then -v else v)
  }

  /** Reading back the digits written for `n` gives `n`. */
  lemma {:induction false} DigitsOfNat(n: nat)
    ensures DigitsValue(NatToString(n)) == n
  {
    if n >= 10 {
      DigitsOfNat(n / 10);
      var r := NatToString(n);
      assert r[..|r| - 1] == NatToString(n / 10);
    }
  }

  /** `parseInt(String(n), 10)` is `n` for an integer `n`. */
  lemma ParseIntToString(n: int)
    ensures ParseInt(IntToString(n)) == Num(n)
  {
    var m: nat := if n < 0 then -n else n;
    DigitsOfNat(m);
    if n < 0 {
      ParseNegativeDigits(NatToString(m));
    } else {
      ParseDigits(NatToString(m));
    }
  }

  /** A non-empty run of digits reads as its value. */
  lemma ParseDigits(ds: string)
    requires |ds| > 0 && forall i :: 0 <= i < |ds| ==> IsDigit(ds[i])
    ensures ParseInt(ds) == Num(DigitsValue(ds))
  {
    NoSpaceBeforeDigit(ds[0]);
    assert TrimStart(ds) == ds;
    AllDigitsLeading(ds);
    SignedDigits(ds);
  }

  /** A minus sign before a non-empty run of digits reads as its negation. */
  lemma ParseNegativeDigits(ds: string)
    requires |ds| > 0 && forall i :: 0 <= i < |ds| ==> IsDigit(ds[i])
    ensures ParseInt("-" + ds) == Num(-(DigitsValue(ds) as int))
  {
    var s := "-" + ds;
    assert !IsJsSpace(s[0]);
    assert TrimStart(s) == s;
    AllDigitsLeading(ds);
    NegativeDigits(ds);
  }

  /** An unsigned digit run, as `ParseSigned` sees it. */
  lemma SignedDigits(ds: string)
    requires |ds| > 0 && forall i :: 0 <= i < |ds| ==> IsDigit(ds[i])
    requires LeadingDigits(ds) == ds
    ensures ParseSigned(ds) == Num(DigitsValue(ds))
  {
    assert ds[0] != '-' && ds[0] != '+';
    var v: int := DigitsValue(ds);
    assert ParseSigned(ds) == Num(v);
  }

  /** A minus sign and a digit run, as `ParseSigned` sees them. */
  lemma NegativeDigits(ds: string)
    requires |ds| > 0 && forall i :: 0 <= i < |ds| ==> IsDigit(ds[i])
    requires LeadingDigits(ds) == ds
    ensures ParseSigned("-" + ds) == Num(-(DigitsValue(ds) as int))
  {
    var t := "-" + ds;
    assert t[0] == '-' && t[1..] == ds;
    var v: int := DigitsValue(ds);
    assert ParseSigned(t) == Num(-v);
  }

  lemma NoSpaceBeforeDigit(c: char)
    requires IsDigit(c)
    ensures !IsJsSpace(c)
  {
  }

  /** `parseInt(String(x), 10)` is `x`: the stored counter survives a write and a read. */
  lemma ParseRender(x: JsNumber)
    ensures ParseInt(Render(x)) == x
  {
    match x
    case NaN =>
      assert LeadingDigits("NaN") == "";
    case Num(n) =>
      ParseIntToString(n);
  }

  /** A string of digits is its own leading-digit run. */
  lemma {:induction false} AllDigitsLeading(ds: string)
    requires forall i :: 0 <= i < |ds| ==> IsDigit(ds[i])
    ensures LeadingDigits(ds) == ds
  {
    if |ds| > 0 {
      AllDigitsLeading(ds[1..]);
    }
  }

  /** `Math.round(part / whole * 100)` computed exactly: the integer nearest
      to the percentage, halves rounded up. */
  function RoundedPercent(part: int, whole: int): (r: int)
    requires whole > 0
    ensures 200 * part - whole < 2 * r * whole <= 200 * part + whole
    ensures 0 <= part <= whole ==> 0 <= r <= 100
  {
    var q := (200 * part + whole) / (2 * whole);
    DivBounds(200 * part + whole, 2 * whole);
    RoundingBounds(part, whole, q);
    q
  }

  /** The whole of something is 100 percent of it. */
  lemma AllIsHundred(n: int)
    requires n > 0
    ensures RoundedPercent(n, n) == 100
  {
    var r := RoundedPercent(n, n);
    Scale(r, n);
    if r <= 99 {
      MulMono(r, 99, 2 * n);
    }
    if r >= 101 {
      MulMono(101, r, 2 * n);
    }
  }

  /** The rounding bracket restated for `2 * q * whole`, and the range of
      `q` when the part is at most the whole. */
  lemma RoundingBounds(part: int, whole: int, q: int)
    requires whole > 0
    requires q * (2 * whole) <= 200 * part + whole < q * (2 * whole) + 2 * whole
    ensures 200 * part - whole < 2 * q * whole <= 200 * part + whole
    ensures 0 <= part <= whole ==> 0 <= q <= 100
  {
    Scale(q, whole);
    if 0 <= part <= whole {
      QuotientRange(200 * part + whole, 2 * whole, q, 101);
    }
  }

  lemma Scale(q: int, w: int)
    ensures q * (2 * w) == 2 * q * w
  {
  }

  /** A quotient bracketed by `q * b <= a < q * b + b` with `0 <= a < n * b`
      lies in `0 .. n - 1`. */
  lemma QuotientRange(a: int, b: int, q: int, n: int)
    requires b > 0
    requires q * b <= a < q * b + b
    requires 0 <= a < n * b
    ensures 0 <= q < n
  {
    if q < 0 {
      MulMono(q + 1, 0, b);
    }
    if q >= n {
      MulMono(n, q, b);
    }
  }

  lemma MulMono(x: int, y: int, b: int)
    requires x <= y && b > 0
    ensures x * b <= y * b
  {
  }

  /** Floor division brackets the quotient. */
  lemma DivBounds(a: int, b: int)
    requires b > 0
    ensures (a / b) * b <= a < (a / b) * b + b
  {
  }
}
