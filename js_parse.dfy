/**
 * JavaScript's `parseInt(s)` and `parseFloat(s)` over a restricted grammar:
 * leading ASCII white space, an optional sign, decimal digits and (for
 * `parseFloat`) an optional fraction. Like the built-ins, each reads the
 * longest prefix of that grammar and ignores the rest; `None` stands for NaN.
 * Numbers are exact (`int`, `real`), not IEEE doubles.
 */
module JsParse {
  import opened Wrappers

  predicate IsDigit(c: char) {
    '0' <= c <= '9'
  }

  predicate IsDigits(s: string) {
    forall i :: 0 <= i < |s| ==> IsDigit(s[i])
  }

  /** Space, tab, line feed, vertical tab, form feed, carriage return. */
  predicate IsSpace(c: char) {
    c == ' ' || c == '\t' || c == '\n' || c == 11 as char || c == 12 as char || c == '\r'
  }

  /** Drops the leading white space: every character dropped is white space, the first kept is not. */
  function TrimStart(s: string): (r: string)
    ensures |r| <= |s| && r == s[|s| - |r|..]
    ensures forall i :: 0 <= i < |s| - |r| ==> IsSpace(s[i])
    ensures r == [] || !IsSpace(r[0])
  {
    if |s| > 0 && IsSpace(s[0]) then TrimStart(s[1..]) else s
  }

  /** The length of the run of digits that starts `s`. */
  function DigitRun(s: string): (n: nat)
    ensures n <= |s| && IsDigits(s[..n])
    ensures n < |s| ==> !IsDigit(s[n])
  {
    if |s| > 0 && IsDigit(s[0]) then 1 + DigitRun(s[1..]) else 0
  }

  function Pow10(n: nat): (p: nat)
    ensures p >= 1
  {
    if n == 0 then 1 else 10 * Pow10(n - 1)
  }

  /** The value of a string of decimal digits, most significant first. */
  function DigitsValue(d: string): (v: nat)
    requires IsDigits(d)
    ensures v < Pow10(|d|)
  {
    if d == [] then 0 else 10 * DigitsValue(d[..|d| - 1]) + (d[|d| - 1] as int - '0' as int)
  }

  datatype Signed = Signed(negative: bool, body: string)

  function SplitSign(s: string): Signed {
    if |s| > 0 && s[0] == '-' then Signed(true, s[1..])
    else if |s| > 0 && s[0] == '+' then Signed(false, s[1..])
    else Signed(false, s)
  }

  function Negate(negative: bool, x: int): int {
    if negative then -x else x
  }

  function NegateReal(negative: bool, x: real): real {
    if negative then -x else x
  }

  function ParseInt(s: string): (r: Option<int>)
    ensures s == "" ==> r == None
  {
    IntOf(SplitSign(TrimStart(s)))
  }

  /** `parseInt` once white space and sign are consumed. */
  function IntOf(t: Signed): Option<int> {
    var n := DigitRun(t.body);
    if n == 0 then None else Some(Negate(t.negative, DigitsValue(t.body[..n])))
  }

  /** The digits after a leading '.', or nothing when `rest` does not start with '.'. */
  function FractionDigits(rest: string): (f: string)
    ensures IsDigits(f)
  {
    if |rest| > 0 && rest[0] == '.' then rest[1..][..DigitRun(rest[1..])] else ""
  }

  /** The value of the digits after a decimal point: `.d1d2...` is `(d1 + .d2...) / 10`. */
  function FractionValue(f: string): (v: real)
    requires IsDigits(f)
    ensures 0.0 <= v < 1.0
  {
    if f == [] then 0.0 else ((f[0] as int - '0' as int) as real + FractionValue(f[1..])) / 10.0
  }

  /** The value of `intDigits.fracDigits`; the fraction adds less than one. */
  function DecimalValue(intDigits: string, fracDigits: string): (v: real)
    requires IsDigits(intDigits) && IsDigits(fracDigits)
    ensures DigitsValue(intDigits) as real <= v < DigitsValue(intDigits) as real + 1.0
  {
    DigitsValue(intDigits) as real + FractionValue(fracDigits)
  }

  function ParseFloat(s: string): (r: Option<real>)
    ensures s == "" ==> r == None
  {
    FloatOf(SplitSign(TrimStart(s)))
  }

  /** `parseFloat` once white space and sign are consumed. */
  function FloatOf(t: Signed): Option<real> {
    var n := DigitRun(t.body);
    var frac := FractionDigits(t.body[n..]);
    if n == 0 && frac == "" then None
    else Some(NegateReal(t.negative, DecimalValue(t.body[..n], frac)))
  }

  /** Digit strings written one after the other: the leading digits are scaled by ten per trailing digit. */
  lemma {:induction false} DigitsValueConcat(a: string, b: string)
    requires IsDigits(a) && IsDigits(b)
    ensures IsDigits(a + b)
    ensures DigitsValue(a + b) == DigitsValue(a) * Pow10(|b|) + DigitsValue(b)
  {
    if b == [] {
      assert a + b == a;
    } else {
      var init := b[..|b| - 1];
      var last := b[|b| - 1] as int - '0' as int;
      assert (a + b)[..|a + b| - 1] == a + init;
      assert (a + b)[|a + b| - 1] == b[|b| - 1];
      assert DigitsValue(a + b) == 10 * DigitsValue(a + init) + last;
      assert DigitsValue(b) == 10 * DigitsValue(init) + last;
      assert Pow10(|b|) == 10 * Pow10(|init|);
      DigitsValueConcat(a, init);
      ScaleStep(DigitsValue(a), Pow10(|init|), DigitsValue(init), last);
    }
  }

  lemma ScaleStep(x: int, p: int, y: int, d: int)
    ensures 10 * (x * p + y) + d == x * (10 * p) + (10 * y + d)
  {
  }

  /** The digit run of a digit string followed by a non-digit is that string. */
  lemma {:induction false} DigitRunOf(d: string, rest: string)
    requires IsDigits(d)
    requires rest == [] || !IsDigit(rest[0])
    ensures DigitRun(d + rest) == |d|
  {
    if d != [] {
      assert (d + rest)[1..] == d[1..] + rest;
      DigitRunOf(d[1..], rest);
    }
  }

  lemma TrimStartNoSpace(s: string)
    requires s == [] || !IsSpace(s[0])
    ensures TrimStart(s) == s
  {
  }

  lemma SplitSignUnsigned(s: string)
    requires s == [] || (s[0] != '-' && s[0] != '+')
    ensures SplitSign(s) == Signed(false, s)
  {
  }

  lemma SplitSignMinus(d: string)
    ensures SplitSign("-" + d) == Signed(true, d)
  {
    assert ("-" + d)[1..] == d;
  }

  /** The integer read from a digit string followed by a non-digit tail. */
  lemma IntOfDigits(negative: bool, d: string, rest: string)
    requires d != [] && IsDigits(d)
    requires rest == [] || !IsDigit(rest[0])
    ensures IntOf(Signed(negative, d + rest)) == Some(Negate(negative, DigitsValue(d)))
  {
    DigitRunOf(d, rest);
    assert (d + rest)[..|d|] == d;
  }

  /** The number read from a digit string with nothing after it. */
  lemma FloatOfDigits(negative: bool, d: string)
    requires d != [] && IsDigits(d)
    ensures FloatOf(Signed(negative, d)) == Some(NegateReal(negative, DigitsValue(d) as real))
  {
    DigitRunOf(d, []);
    assert d + [] == d;
    assert d[..|d|] == d;
  }

  /** The number read from `i.f`. */
  lemma FloatOfDecimal(i: string, f: string)
    requires IsDigits(i) && IsDigits(f) && (i != [] || f != [])
    ensures FloatOf(Signed(false, i + "." + f)) == Some(DecimalValue(i, f))
  {
    var s := i + "." + f;
    assert s == i + ("." + f);
    DigitRunOf(i, "." + f);
    assert s[..|i|] == i;
    assert s[|i|..] == "." + f;
    assert ("." + f)[1..] == f;
    DigitRunOf(f, []);
    assert f + [] == f;
    assert f[..|f|] == f;
  }

  /** `parseInt` of a plain digit string, possibly followed by a non-digit tail, is its value. */
  lemma ParseIntDigits(d: string, rest: string)
    requires d != [] && IsDigits(d)
    requires rest == [] || !IsDigit(rest[0])
    ensures ParseInt(d + rest) == Some(DigitsValue(d))
  {
    TrimStartNoSpace(d + rest);
    SplitSignUnsigned(d + rest);
    IntOfDigits(false, d, rest);
  }

  /** `parseFloat` of a plain digit string is its value. */
  lemma ParseFloatDigits(d: string)
    requires d != [] && IsDigits(d)
    ensures ParseFloat(d) == Some(DigitsValue(d) as real)
  {
    TrimStartNoSpace(d);
    SplitSignUnsigned(d);
    FloatOfDigits(false, d);
  }

  /** `parseFloat` of `i.f` for digit strings `i` and `f`, not both empty. */
  lemma ParseFloatDecimal(i: string, f: string)
    requires IsDigits(i) && IsDigits(f) && (i != [] || f != [])
    ensures ParseFloat(i + "." + f) == Some(DecimalValue(i, f))
  {
    var s := i + "." + f;
    assert s[0] == if i == [] then '.' else i[0];
    TrimStartNoSpace(s);
    assert SplitSign(s) == Signed(false, s);
    FloatOfDecimal(i, f);
  }

  /** A minus sign before a digit string negates the value `parseInt` reads. */
  lemma ParseIntNegative(d: string)
    requires d != [] && IsDigits(d)
    ensures ParseInt("-" + d) == Some(-(DigitsValue(d) as int))
  {
    TrimStartNoSpace("-" + d);
    SplitSignMinus(d);
    IntOfDigits(true, d, []);
    assert d + [] == d;
  }

  /** A minus sign before a digit string negates the value `parseFloat` reads. */
  lemma ParseFloatNegative(d: string)
    requires d != [] && IsDigits(d)
    ensures ParseFloat("-" + d) == Some(-(DigitsValue(d) as real))
  {
    TrimStartNoSpace("-" + d);
    assert TrimStart("-" + d) == "-" + d;
    SplitSignMinus(d);
    assert SplitSign(TrimStart("-" + d)) == Signed(true, d);
    FloatOfDigits(true, d);
    assert ParseFloat("-" + d) == FloatOf(Signed(true, d));
  }

  /** After white space and sign, an integer read implies a number read that truncates to it. */
  lemma IntOfTruncatesFloatOf(t: Signed)
    requires IntOf(t).Some?
    ensures FloatOf(t).Some?
    ensures var i, x := IntOf(t).value, FloatOf(t).value;
      if t.negative then i as real - 1.0 < x <= i as real else i as real <= x < i as real + 1.0
  {
    var n := DigitRun(t.body);
    var frac := FractionDigits(t.body[n..]);
    var m := DecimalValue(t.body[..n], frac);
    var v := DigitsValue(t.body[..n]) as real;
    assert v <= m < v + 1.0;
    assert IntOf(t).value as real == if t.negative then -v else v;
    assert FloatOf(t).value == if t.negative then -m else m;
  }

  /**
   * Whenever `parseInt` reads a number, `parseFloat` reads one too, and the
   * integer is the float truncated toward zero.
   */
  lemma ParseIntTruncatesParseFloat(s: string)
    requires ParseInt(s).Some?
    ensures ParseFloat(s).Some?
    ensures var i, x := ParseInt(s).value, ParseFloat(s).value;
      i as real - 1.0 < x < i as real + 1.0 && (x >= 0.0 ==> i as real <= x) && (x < 0.0 ==> x <= i as real)
  {
    IntOfTruncatesFloatOf(SplitSign(TrimStart(s)));
  }
}
