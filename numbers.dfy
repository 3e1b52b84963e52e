/**
 * Decimal numerals: Python's `str(n)` for a non-negative integer, `int(d)`
 * for a run of decimal digits, and the part of `float(t)` that reads
 * `[sign] digits [. digits] [e [sign] digits]`.
 */
module Numbers {
  import opened Wrappers
  import Text

  predicate IsDigit(c: char) {
    '0' <= c <= '9'
  }

  predicate AllDigits(s: string) {
    forall i | 0 <= i < |s| :: IsDigit(s[i])
  }

  function DigitChar(d: nat): (c: char)
    requires d < 10
    ensures IsDigit(c) && c as int - '0' as int == d
  {
    ('0' as int + d) as char
  }

  /** Python's `str(n)` for `n >= 0`: the shortest decimal numeral. */
  function NatToString(n: nat): (s: string)
    ensures s != [] && AllDigits(s)
    ensures |s| > 1 ==> s[0] != '0'
  {
    if n < 10 then [DigitChar(n)] else NatToString(n / 10) + [DigitChar(n % 10)]
  }

  /** The value of a run of decimal digits, most significant first (Python's `int(s)`). */
  function DigitsValue(s: string): nat
    requires AllDigits(s)
  {
    if s == [] then 0 else 10 * DigitsValue(s[..|s| - 1]) + (s[|s| - 1] as int - '0' as int)
  }

  /** `int(str(n)) == n`. */
  lemma {:induction false} DigitsValueOfNatToString(n: nat)
    ensures DigitsValue(NatToString(n)) == n
  {
    if n >= 10 {
      DigitsValueOfNatToString(n / 10);
      var s := NatToString(n);
      assert s[..|s| - 1] == NatToString(n / 10);
    }
  }

  /** The length of the leading run of digits of `s`. */
  function DigitRun(s: string): (n: nat)
    ensures n <= |s| && AllDigits(s[..n])
    ensures n == |s| || !IsDigit(s[n])
  {
    if s == [] || !IsDigit(s[0]) then 0 else 1 + DigitRun(s[1..])
  }

  lemma {:induction false} DigitRunOf(d: string, rest: string)
    requires AllDigits(d)
    requires rest == [] || !IsDigit(rest[0])
    ensures DigitRun(d + rest) == |d|
    decreases |d|
  {
    if d != [] {
      assert (d + rest)[1..] == d[1..] + rest;
      DigitRunOf(d[1..], rest);
    } else {
      assert d + rest == rest;
    }
  }

  function Pow10(k: nat): (p: nat)
    ensures p >= 1
  {
    if k == 0 then 1 else 10 * Pow10(k - 1)
  }

  /** `10 ** e` as a real number, for a possibly negative exponent. */
  function Scale(e: int): (r: real)
    ensures r > 0.0
  {
    if e >= 0 then Pow10(e) as real else 1.0 / Pow10(-e) as real
  }

  /** The value of `int.frac` as a real number. */
  function DecimalValue(intPart: string, frac: string): real
    requires AllDigits(intPart) && AllDigits(frac)
  {
    DigitsValue(intPart) as real + DigitsValue(frac) as real / Pow10(|frac|) as real
  }

  /** A mantissa `d`, `d.`, `.d` or `d.d` (Python requires at least one digit). */
  function ParseMantissa(m: string): Option<real> {
    var dot := Text.IndexOf(m, '.');
    var intPart := m[..dot];
    var frac := if dot < |m| then m[dot + 1..] else [];
    if AllDigits(intPart) && AllDigits(frac) && |intPart| + |frac| > 0 then
      Some(DecimalValue(intPart, frac))
    else None
  }

  function ParseExponent(e: string): Option<int> {
    var neg := |e| > 0 && e[0] == '-';
    var digits := if |e| > 0 && (e[0] == '+' || e[0] == '-') then e[1..] else e;
    if digits != [] && AllDigits(digits) then
      var v: int := DigitsValue(digits);
      Some(if neg then -v else v)
    else None
  }

  /** The index of the first exponent marker `e` or `E` in `s`, or `|s|`. */
  function ExpIndex(s: string): (i: nat)
    ensures i <= |s|
  {
    if s == [] then 0
    else if s[0] == 'e' || s[0] == 'E' then 0
    else 1 + ExpIndex(s[1..])
  }

  predicate NoExpMarker(s: string) {
    forall k | 0 <= k < |s| :: s[k] != 'e' && s[k] != 'E'
  }

  lemma {:induction false} ExpIndexAbsent(s: string)
    requires NoExpMarker(s)
    ensures ExpIndex(s) == |s|
    decreases |s|
  {
    if s != [] {
      ExpIndexAbsent(s[1..]);
    }
  }

  /** `float` of an unsigned numeral: mantissa, then an optional exponent. */
  function ParseUnsigned(body: string): Option<real> {
    var e := ExpIndex(body);
    var mantissa := ParseMantissa(body[..e]);
    var exponent := if e < |body| then ParseExponent(body[e + 1..]) else Some(0);
    if mantissa.Some? && exponent.Some? then Some(mantissa.value * Scale(exponent.value))
    else None
  }

  /**
   * Python's `float(t)` for a token without spaces, restricted to decimal
   * notation with an optional exponent: `None` where Python raises
   * `ValueError`.
   */
  function ParseFloat(t: string): Option<real> {
    var neg := |t| > 0 && t[0] == '-';
    var body := if |t| > 0 && (t[0] == '+' || t[0] == '-') then t[1..] else t;
    match ParseUnsigned(body)
    case Some(v) => Some(if neg then -v else v)
    case None => None
  }

  /** A mantissa without exponent marker is read as the whole number. */
  lemma ParseUnsignedPlain(m: string)
    requires NoExpMarker(m) && ParseMantissa(m).Some?
    ensures ParseUnsigned(m) == ParseMantissa(m)
  {
    ExpIndexAbsent(m);
    assert m[..|m|] == m;
  }

  /** A run of digits reads as its integer value. */
  lemma ParseFloatOfDigits(d: string)
    requires d != [] && AllDigits(d)
    ensures ParseFloat(d) == Some(DigitsValue(d) as real)
  {
    assert d[0] != '+' && d[0] != '-';
    assert Text.Lacks(d, '.');
    Text.IndexOfAbsent(d, '.');
    assert d[..|d|] == d;
    var none: string := [];
    assert DigitsValue(none) == 0 && Pow10(|none|) == 1;
    assert DecimalValue(d, none) == DigitsValue(d) as real;
    assert ParseMantissa(d) == Some(DigitsValue(d) as real);
    assert NoExpMarker(d);
    ParseUnsignedPlain(d);
  }

  /** `int.frac` reads as the decimal fraction it spells. */
  lemma ParseFloatOfDecimal(i: string, f: string)
    requires AllDigits(i) && AllDigits(f) && |i| + |f| > 0
    ensures ParseFloat(i + "." + f) == Some(DecimalValue(i, f))
  {
    var t := i + "." + f;
    if |i| > 0 {
      assert t[0] == i[0];
    } else {
      assert t[0] == '.';
    }
    DecimalNoExpMarker(i, f);
    DecimalMantissa(i, f);
    ParseUnsignedPlain(t);
  }

  lemma DecimalNoExpMarker(i: string, f: string)
    requires AllDigits(i) && AllDigits(f)
    ensures NoExpMarker(i + "." + f)
  {
    var t := i + "." + f;
    forall k | 0 <= k < |t| ensures t[k] != 'e' && t[k] != 'E' {
      if k < |i| { assert t[k] == i[k]; }
      else if k > |i| { assert t[k] == f[k - |i| - 1]; }
    }
  }

  lemma DecimalMantissa(i: string, f: string)
    requires AllDigits(i) && AllDigits(f) && |i| + |f| > 0
    ensures ParseMantissa(i + "." + f) == Some(DecimalValue(i, f))
  {
    var t := i + "." + f;
    Text.IndexOfAt(t, '.', |i|);
    assert t[..|i|] == i;
    assert t[|i| + 1..] == f;
  }
}
