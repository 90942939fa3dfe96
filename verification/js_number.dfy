/** The number built-ins the ingredient scaling relies on: `parseFloat` on
    digit strings, division and multiplication with their infinities and NaN,
    `Math.round(x * 100) / 100` and `Number.prototype.toString`. Values are
    exact reals rather than binary doubles. */
module JsNumber {

  /** A JavaScript number: finite, one of the two infinities, or NaN. */
  datatype Number = Finite(value: real) | PosInfinity | NegInfinity | NaN

  predicate IsDigit(c: char) { '0' <= c <= '9' }

  predicate AllDigits(s: string) {
    forall i | 0 <= i < |s| :: IsDigit(s[i])
  }

  function DigitOf(c: char): (d: nat)
    requires IsDigit(c)
    ensures d < 10
  {
    (c as int) - ('0' as int)
  }

  function DigitChar(d: nat): (c: char)
    requires d < 10
    ensures IsDigit(c) && DigitOf(c) == d
  {
    ('0' as int + d) as char
  }

  /** The end of the run of digits that starts at `i`: every character in
      between is a digit, and the one at the end (if any) is not. */
  function DigitRunEnd(s: string, i: nat): (j: nat)
    requires i <= |s|
    ensures i <= j <= |s|
    ensures forall k | i <= k < j :: IsDigit(s[k])
    ensures j == |s| || !IsDigit(s[j])
    decreases |s| - i
  {
    if i < |s| && IsDigit(s[i]) then DigitRunEnd(s, i + 1) else i
  }

  /** The value of a string of decimal digits. */
  function DigitsValue(ds: string): nat
    requires AllDigits(ds)
  {
    if ds == [] then 0 else DigitsValue(ds[..|ds| - 1]) * 10 + DigitOf(ds[|ds| - 1])
  }

  function Pow10(n: nat): (p: nat)
    ensures p >= 1
  {
    if n == 0 then 1 else 10 * Pow10(n - 1)
  }

  /** `parseFloat(s)` for the strings the scaling hands it: the longest
      prefix made of digits, optionally a point and more digits; NaN when that
      prefix holds no digit. Signs, exponents, leading white space and the
      word "Infinity" are not modelled (no such text reaches it). */
  function ParseFloat(s: string): (r: Number)
    ensures r.Finite? || r.NaN?
    ensures r.Finite? ==> r.value >= 0.0
    ensures r.NaN? <==> (s == [] || (!IsDigit(s[0]) && !(s[0] == '.' && |s| > 1 && IsDigit(s[1]))))
  {
    var i := DigitRunEnd(s, 0);
    assert AllDigits(s[..i]);
    var whole := DigitsValue(s[..i]) as real;
    if i < |s| && s[i] == '.' then
      var j := DigitRunEnd(s, i + 1);
      assert AllDigits(s[i + 1..j]);
      if i == 0 && j == i + 1 then NaN
      else Finite(whole + (DigitsValue(s[i + 1..j]) as real) / (Pow10(j - i - 1) as real))
    else if i == 0 then NaN
    else Finite(whole)
  }

  /** `a / b` for operands that are finite or NaN. */
  function Quotient(a: Number, b: Number): (r: Number)
    requires !a.PosInfinity? && !a.NegInfinity? && !b.PosInfinity? && !b.NegInfinity?
    ensures a.Finite? && b.Finite? && b.value != 0.0 ==> r == Finite(a.value / b.value)
    ensures a.NaN? || b.NaN? ==> r.NaN?
    ensures a.Finite? && b.Finite? && b.value == 0.0 ==>
              r == (if a.value == 0.0 then NaN else if a.value > 0.0 then PosInfinity else NegInfinity)
  {
    if a.NaN? || b.NaN? then NaN
    else if b.value != 0.0 then Finite(a.value / b.value)
    else if a.value == 0.0 then NaN
    else if a.value > 0.0 then PosInfinity
    else NegInfinity
  }

  /** `x * k` for a finite factor `k`. */
  function Times(x: Number, k: real): (r: Number)
    ensures x.NaN? ==> r.NaN?
    ensures k > 0.0 ==> r.Finite? == x.Finite? && r.NaN? == x.NaN? && r.PosInfinity? == x.PosInfinity?
    ensures x.Finite? ==> r.Finite? && r.value == x.value * k
    ensures !x.Finite? && k == 0.0 ==> r.NaN?
  {
    match x
    case Finite(v) => Finite(v * k)
    case NaN => NaN
    case PosInfinity => if k > 0.0 then PosInfinity else if k < 0.0 then NegInfinity else NaN
    case NegInfinity => if k > 0.0 then NegInfinity else if k < 0.0 then PosInfinity else NaN
  }

  /** `Math.round(v * 100)`: the nearest whole number of hundredths, halves
      rounded up. */
  function RoundHundredths(v: real): (n: int)
    ensures v * 100.0 - 0.5 < n as real <= v * 100.0 + 0.5
  {
    (v * 100.0 + 0.5).Floor
  }

  /** Decimal digits of a natural number, without leading zeros. */
  function NatToString(n: nat): (s: string)
    ensures |s| > 0 && AllDigits(s)
    ensures DigitsValue(s) == n
    ensures |s| > 1 ==> s[0] != '0'
  {
    if n < 10 then [DigitChar(n)]
    else
      var s := NatToString(n / 10) + [DigitChar(n % 10)];
      assert s[..|s| - 1] == NatToString(n / 10);
      s
  }

  /** The one or two digits after the point of `f` hundredths, without a
      trailing zero. */
  function FractionDigits(f: nat): (s: string)
    requires 0 < f < 100
    ensures 0 < |s| <= 2 && AllDigits(s) && s[|s| - 1] != '0'
    ensures DigitsValue(s) * (100 / Pow10(|s|)) == f
  {
    if f % 10 == 0 then
      var s := [DigitChar(f / 10)];
      assert s[..0] == [];
      assert DigitsValue(s) == f / 10;
      assert Pow10(1) == 10;
      s
    else
      var s := [DigitChar(f / 10), DigitChar(f % 10)];
      assert s[..1] == [DigitChar(f / 10)];
      assert DigitsValue(s[..1]) == f / 10 by {
        assert s[..1][..0] == [];
      }
      assert DigitsValue(s) == (f / 10) * 10 + f % 10;
      assert Pow10(2) == 100 by { assert Pow10(1) == 10; }
      s
  }

  /** `(n / 100).toString()` for a natural number of hundredths. */
  function HundredthsToString(n: nat): string {
    NatToString(n / 100) + (if n % 100 == 0 then "" else "." + FractionDigits(n % 100))
  }

  /** `(Math.round(x * 100) / 100).toString()`. Exponent notation, which
      `toString` uses from 1e21 on, is not modelled. */
  function FormatRounded(x: Number): string {
    match x
    case NaN => "NaN"
    case PosInfinity => "Infinity"
    case NegInfinity => "-Infinity"
    case Finite(v) =>
      var n := RoundHundredths(v);
      if n < 0 then "-" + HundredthsToString(-n) else HundredthsToString(n)
  }

  predicate EndsWith(s: string, suffix: string) {
    |suffix| <= |s| && s[|s| - |suffix|..] == suffix
  }

  /** The two `endsWith` / `slice` steps applied to the formatted amount. */
  function TrimZeros(s: string): string {
    var a := if EndsWith(s, ".00") then s[..|s| - 3] else s;
    if EndsWith(a, ".0") then a[..|a| - 2] else a
  }

  /** `toString` never leaves ".0" or ".00" at the end, so both trimming steps
      leave every formatted amount as it is. */
  lemma {:induction false} TrimZerosKeepsFormatted(x: Number)
    ensures TrimZeros(FormatRounded(x)) == FormatRounded(x)
  {
    FormattedNoZeroTail(x);
    NoZeroTailTrims(FormatRounded(x));
  }

  lemma FormattedNoZeroTail(x: Number)
    ensures NoZeroTail(FormatRounded(x))
  {
    var s := FormatRounded(x);
    match x
    case NaN => LastNotZero(s);
    case PosInfinity => LastNotZero(s);
    case NegInfinity => LastNotZero(s);
    case Finite(v) => SignedNoZeroTail(RoundHundredths(v));
  }

  /** A text whose last character is not a zero has no zero tail. */
  lemma LastNotZero(s: string)
    requires |s| > 0 && s[|s| - 1] != '0'
    ensures NoZeroTail(s)
  {
    EndsWithLast(s, ".0");
    EndsWithLast(s, ".00");
  }

  /** A text ends with the last character of each of its tails. */
  lemma EndsWithLast(s: string, tail: string)
    requires |tail| > 0
    ensures EndsWith(s, tail) ==> s[|s| - 1] == tail[|tail| - 1]
  {
    if EndsWith(s, tail) {
      assert s[|s| - 1] == s[|s| - |tail|..][|tail| - 1];
    }
  }

  /** The formatted hundredths, with their sign, have no zero tail. */
  lemma SignedNoZeroTail(n: int)
    ensures NoZeroTail(if n < 0 then "-" + HundredthsToString(-n) else HundredthsToString(n))
  {
    if n < 0 {
      HundredthsNoZeroTail(-n);
      SignKeepsNoZeroTail(HundredthsToString(-n));
    } else {
      HundredthsNoZeroTail(n);
    }
  }

  /** Neither trimming step of `TrimZeros` applies. */
  predicate NoZeroTail(s: string) {
    !EndsWith(s, ".0") && !EndsWith(s, ".00")
  }

  /** The formatted hundredths end in a digit run with no point, or in
      fraction digits whose last one is not zero. */
  lemma HundredthsNoZeroTail(m: nat)
    ensures |HundredthsToString(m)| > 0 && NoZeroTail(HundredthsToString(m))
  {
    var w := NatToString(m / 100);
    var h := HundredthsToString(m);
    if m % 100 == 0 {
      assert h == w;
      assert |h| >= 2 ==> IsDigit(h[|h| - 2]);
      assert |h| >= 3 ==> IsDigit(h[|h| - 3]);
    } else {
      var f := FractionDigits(m % 100);
      assert h == w + "." + f;
      assert h[|h| - 1] == f[|f| - 1];
    }
  }

  /** A minus sign in front keeps a text free of a zero tail. */
  lemma SignKeepsNoZeroTail(h: string)
    requires |h| > 0 && NoZeroTail(h)
    ensures NoZeroTail("-" + h)
  {
    SignTail(h, ".0");
    SignTail(h, ".00");
  }

  /** A tail starting with a point that ends the signed text ends the
      unsigned one too. */
  lemma SignTail(h: string, tail: string)
    requires 0 < |tail| && tail[0] == '.'
    ensures EndsWith("-" + h, tail) ==> EndsWith(h, tail)
  {
    var s := "-" + h;
    if EndsWith(s, tail) {
      if |tail| == |s| {
        assert false;
      } else {
        assert s[|s| - |tail|..] == h[|h| - |tail|..];
      }
    }
  }

  /** Neither step of `TrimZeros` touches a text without a zero tail. */
  lemma NoZeroTailTrims(s: string)
    requires NoZeroTail(s)
    ensures TrimZeros(s) == s
  {
  }

  /** `parseFloat` of a plain run of digits is its value. */
  lemma ParseWhole(w: string)
    requires |w| > 0 && AllDigits(w)
    ensures ParseFloat(w) == Finite(DigitsValue(w) as real)
  {
    DigitRunEndOverDigits(w, 0, |w|);
    assert w[..|w|] == w;
  }

  /** `parseFloat` of digits, a point and more digits. */
  lemma ParseWithFraction(w: string, f: string)
    requires |w| > 0 && AllDigits(w) && |f| > 0 && AllDigits(f)
    ensures ParseFloat(w + "." + f) ==
              Finite(DigitsValue(w) as real + (DigitsValue(f) as real) / (Pow10(|f|) as real))
  {
    var s := w + "." + f;
    DigitsPointDigits(w, f);
    PointValue(s, |w|, |s|);
    assert DigitsValue(s[..|w|]) == DigitsValue(w);
    assert DigitsValue(s[|w| + 1..|s|]) == DigitsValue(f);
    assert Pow10(|s| - |w| - 1) == Pow10(|f|);
  }

  /** In digits, a point and digits, the first digit run ends at the point
      and the second at the end. */
  lemma DigitsPointDigits(w: string, f: string)
    requires AllDigits(w) && |f| > 0 && AllDigits(f)
    ensures var s := w + "." + f;
            |s| == |w| + 1 + |f| && s[|w|] == '.' && s[..|w|] == w && s[|w| + 1..|s|] == f
            && DigitRunEnd(s, 0) == |w| && DigitRunEnd(s, |w| + 1) == |s|
  {
    var s := w + "." + f;
    assert s[..|w|] == w;
    assert s[|w| + 1..|s|] == f;
    assert forall k | 0 <= k < |w| :: s[k] == w[k];
    assert forall k | |w| + 1 <= k < |s| :: s[k] == f[k - |w| - 1];
    DigitRunEndOverDigits(s, 0, |w|);
    DigitRunEndOverDigits(s, |w| + 1, |s|);
  }

  /** `parseFloat` of a point followed by digits. */
  lemma ParsePointFraction(f: string)
    requires |f| > 0 && AllDigits(f)
    ensures ParseFloat("." + f) ==
              Finite(0.0 + (DigitsValue(f) as real) / (Pow10(|f|) as real))
  {
    var s := "." + f;
    ConsParts('.', f);
    DigitRunEndOverDigits(s, 0, 0);
    DigitRunEndOverDigits(s, 1, |s|);
    PointValue(s, 0, |s|);
    assert DigitsValue(s[..0]) == 0;
    assert DigitsValue(s[0 + 1..|s|]) == DigitsValue(f);
    assert Pow10(|s| - 0 - 1) == Pow10(|f|);
  }

  /** A character in front of a text: its head, its tail and its empty
      prefix. */
  lemma ConsParts(c: char, t: string)
    ensures ([c] + t)[0] == c && ([c] + t)[1..] == t && ([c] + t)[1..|t| + 1] == t
    ensures ([c] + t)[..0] == []
  {
  }

  /** `parseFloat` of a text whose leading digits end at `i` with a point
      there, the digits after it ending at `j`. */
  lemma PointValue(s: string, i: nat, j: nat)
    requires i < j <= |s| && s[i] == '.'
    requires DigitRunEnd(s, 0) == i && DigitRunEnd(s, i + 1) == j
    requires i > 0 || j > i + 1
    ensures AllDigits(s[..i]) && AllDigits(s[i + 1..j])
    ensures ParseFloat(s) ==
              Finite(DigitsValue(s[..i]) as real + (DigitsValue(s[i + 1..j]) as real) / (Pow10(j - i - 1) as real))
  {
  }

  lemma HundredthsSplit(n: nat)
    ensures (n as real) / 100.0 == ((n / 100) as real) + ((n % 100) as real) / 100.0
  {
    assert n == (n / 100) * 100 + n % 100;
  }

  lemma FractionDigitsValue(f: nat)
    requires 0 < f < 100
    ensures var d := FractionDigits(f);
            (DigitsValue(d) as real) / (Pow10(|d|) as real) == (f as real) / 100.0
  {
    var d := FractionDigits(f);
    assert DigitsValue(d) * (100 / Pow10(|d|)) == f;
    if |d| == 1 {
      assert Pow10(1) == 10;
      assert DigitsValue(d) * 10 == f;
    } else {
      assert Pow10(2) == 100;
      assert DigitsValue(d) == f;
    }
  }

  /** Reading back the text of `n` hundredths gives `n / 100`. */
  lemma {:induction false} ParseHundredths(n: nat)
    ensures ParseFloat(HundredthsToString(n)) == Finite((n as real) / 100.0)
  {
    var w := NatToString(n / 100);
    HundredthsSplit(n);
    if n % 100 == 0 {
      ParseWhole(w);
      assert HundredthsToString(n) == w;
    } else {
      var f := FractionDigits(n % 100);
      assert HundredthsToString(n) == w + "." + f;
      ParseWithFraction(w, f);
      FractionDigitsValue(n % 100);
    }
  }

  /** Reading back what `toString` wrote gives the rounded value: the
      formatted amount stands for `Math.round(v * 100) / 100`. */
  lemma {:induction false} ParseFormattedRoundTrip(v: real)
    requires RoundHundredths(v) >= 0
    ensures ParseFloat(FormatRounded(Finite(v))) == Finite((RoundHundredths(v) as real) / 100.0)
  {
    ParseHundredths(RoundHundredths(v));
  }

  /** The digit run from `i` is all digits, and is longer than one
      character when the one at `i` is a digit. */
  lemma DigitRunSlice(s: string, i: nat)
    requires i <= |s|
    ensures AllDigits(s[i..DigitRunEnd(s, i)])
    ensures i < |s| && IsDigit(s[i]) ==> i < DigitRunEnd(s, i)
  {
    var j := DigitRunEnd(s, i);
    forall k | 0 <= k < j - i
      ensures IsDigit(s[i..j][k])
    {
      assert s[i..j][k] == s[i + k];
    }
  }

  /** A run of digits from `i` that reaches `j` ends at `j` when `j` is the
      end or a non-digit. */
  lemma DigitRunEndOverDigits(s: string, i: nat, j: nat)
    requires i <= j <= |s|
    requires forall k | i <= k < j :: IsDigit(s[k])
    requires j == |s| || !IsDigit(s[j])
    ensures DigitRunEnd(s, i) == j
    decreases j - i
  {
    if i < j {
      DigitRunEndOverDigits(s, i + 1, j);
    }
  }
}
