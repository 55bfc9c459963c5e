/** Numbers as the analyzer handles them: `str.replace(',', '')`, `float()`
    on the tokens the patterns capture, `round(x, 2)`, and Python's
    truthiness of an optional number. Values are exact reals. */
module Numbers {
  import opened Text
  import opened Wrappers

  /** `s.replace(',', '')`. */
  function RemoveCommas(s: string): (r: string)
    ensures |r| <= |s|
  {
    if s == [] then []
    else (if s[0] == ',' then [] else [s[0]]) + RemoveCommas(s[1..])
  }

  /** Removing the commas keeps every other character and nothing else. */
  lemma {:induction false} RemoveCommasKeepsTheRest(s: string)
    ensures forall c :: c in RemoveCommas(s) <==> c in s && c != ','
    ensures ',' !in s ==> RemoveCommas(s) == s
  {
    if s != [] {
      RemoveCommasKeepsTheRest(s[1..]);
      assert s == [s[0]] + s[1..];
    }
  }

  lemma {:induction false} RemoveCommasAppend(a: string, b: string)
    ensures RemoveCommas(a + b) == RemoveCommas(a) + RemoveCommas(b)
  {
    if a != [] {
      assert (a + b)[1..] == a[1..] + b;
      RemoveCommasAppend(a[1..], b);
    } else {
      assert a + b == b;
    }
  }

  predicate AllDigits(s: string) {
    forall k | 0 <= k < |s| :: IsDigit(s[k])
  }

  /** The value of one decimal digit. */
  function DigitValue(c: char): (d: nat)
    requires IsDigit(c)
    ensures d < 10
  {
    c as int - '0' as int
  }

  function Pow10(n: nat): (r: nat)
    ensures r >= 1
  {
    if n == 0 then 1 else 10 * Pow10(n - 1)
  }

  /** The value of a string of decimal digits, most significant first. */
  function DigitsValue(s: string): (n: nat)
    requires AllDigits(s)
    ensures n < Pow10(|s|)
  {
    if s == [] then 0
    else
      var init := DigitsValue(s[..|s| - 1]);
      var d := DigitValue(s[|s| - 1]);
      assert init * 10 + d < Pow10(|s|) by {
        assert init + 1 <= Pow10(|s| - 1);
        assert (init + 1) * 10 <= Pow10(|s|);
      }
      init * 10 + d
  }

  /** The value of the digits after a decimal point: `0.d1d2...`. */
  function FractionValue(s: string): (v: real)
    requires AllDigits(s)
    ensures 0.0 <= v < 1.0
  {
    if s == [] then 0.0
    else (DigitValue(s[0]) as real + FractionValue(s[1..])) / 10.0
  }

  /** What `float()` accepts among strings of digits and dots: at most one
      dot, and at least one digit. */
  predicate IsDecimalLiteral(s: string) {
    && (forall k | 0 <= k < |s| :: IsDigit(s[k]) || s[k] == '.')
    && (forall j, k | 0 <= j < k < |s| :: !(s[j] == '.' && s[k] == '.'))
    && (exists k | 0 <= k < |s| :: IsDigit(s[k]))
  }

  /** The position of the first dot in `s`, or `|s|` when there is none. */
  function DotIndex(s: string): (k: nat)
    ensures k <= |s| && (forall j | 0 <= j < k :: s[j] != '.')
    ensures k < |s| ==> s[k] == '.'
  {
    if s == [] || s[0] == '.' then 0
    else 1 + DotIndex(s[1..])
  }

  /** The digits before the first dot of `s`. */
  function WholePart(s: string): string {
    s[..DotIndex(s)]
  }

  /** The characters after the first dot of `s`, empty when there is none. */
  function FractionPart(s: string): string {
    var k := DotIndex(s);
    if k < |s| then s[k + 1..] else ""
  }

  /** Splitting at the first dot recognises exactly the decimal literals. */
  lemma DecimalLiteralSplit(s: string)
    ensures IsDecimalLiteral(s) <==>
      AllDigits(WholePart(s)) && AllDigits(FractionPart(s)) && |WholePart(s)| + |FractionPart(s)| > 0
  {
    var k := DotIndex(s);
    var whole, frac := WholePart(s), FractionPart(s);
    assert k < |s| ==> s == whole + "." + frac;
    assert k == |s| ==> s == whole;
    if AllDigits(whole) && AllDigits(frac) && |whole| + |frac| > 0 {
      if |whole| > 0 { assert IsDigit(s[0]); } else { assert IsDigit(s[k + 1]); }
    }
    if IsDecimalLiteral(s) {
      forall j | 0 <= j < |frac| ensures IsDigit(frac[j]) {
        assert s[k + 1 + j] == frac[j];
      }
      var j :| 0 <= j < |s| && IsDigit(s[j]);
      assert j < k || j > k;
    }
  }

  /** `float(s)` for a string `s` captured by one of the analyzer's number
      patterns and stripped of its commas: the exact value of the decimal
      literal, or None where Python raises `ValueError`. */
  function ParseFloat(s: string): (r: Option<real>)
    ensures r.Some? ==> r.value >= 0.0
  {
    var whole, frac := WholePart(s), FractionPart(s);
    if AllDigits(whole) && AllDigits(frac) && |whole| + |frac| > 0 then
      Some(DigitsValue(whole) as real + FractionValue(frac))
    else
      None
  }

  /** `float()` accepts exactly the decimal literals. */
  lemma ParseFloatAcceptsDecimalLiterals(s: string)
    ensures ParseFloat(s).Some? <==> IsDecimalLiteral(s)
  {
    DecimalLiteralSplit(s);
  }

  /** A string of digits parses to its value. */
  lemma ParseDigits(s: string)
    requires AllDigits(s) && s != []
    ensures ParseFloat(s) == Some(DigitsValue(s) as real)
  {
    assert s[..|s|] == s;
  }

  /** The value of a digit string, read from its first digit: the first
      digit counts `10^(n-1)` times. */
  lemma {:induction false} DigitsValueFront(s: string)
    requires AllDigits(s) && s != []
    ensures DigitsValue(s) == DigitValue(s[0]) * Pow10(|s| - 1) + DigitsValue(s[1..])
    decreases |s|
  {
    var n := |s|;
    if n > 1 {
      var init, tail := s[..n - 1], s[1..];
      var d0, dl := DigitValue(s[0]), DigitValue(s[n - 1]);
      assert tail[..n - 2] == init[1..];
      assert DigitsValue(s) == DigitsValue(init) * 10 + dl;
      assert DigitsValue(tail) == DigitsValue(init[1..]) * 10 + dl;
      DigitsValueFront(init);
      FrontStep(d0, Pow10(n - 2), DigitsValue(init[1..]), dl);
    }
  }

  lemma FrontStep(d: int, p: int, x: int, e: int)
    ensures (d * p + x) * 10 + e == d * (10 * p) + (x * 10 + e)
  {
  }

  /** The arithmetic of one step of `FractionValueExact`. */
  lemma FractionStep(fv: real, rest: real, d: real, p: real, q: real, dv: real, pn: real)
    requires p >= 1.0 && fv == (d + rest) / 10.0 && rest == q / p && dv == d * p + q && pn == p * 10.0
    ensures fv == dv / pn
  {
    assert rest * p == q;
    assert fv * pn == (d + rest) * p;
  }

  /** The digits after the point are worth their integer value `m` over
      `p == 10^n`: `0.d1...dn == d1...dn / 10^n`. */
  lemma {:induction false} FractionValueExact(f: string, m: nat, p: nat)
    requires AllDigits(f) && m == DigitsValue(f) && p == Pow10(|f|)
    ensures FractionValue(f) == m as real / p as real
    decreases |f|
  {
    if f != [] {
      FractionValueExact(f[1..], DigitsValue(f[1..]), Pow10(|f| - 1));
      FractionValueExactStep(f, m, p, DigitsValue(f[1..]), Pow10(|f| - 1));
    }
  }

  /** The step of `FractionValueExact` from `f[1..]` to `f`. */
  lemma FractionValueExactStep(f: string, m: nat, p: nat, q: nat, pq: nat)
    requires AllDigits(f) && f != [] && m == DigitsValue(f) && p == Pow10(|f|)
    requires q == DigitsValue(f[1..]) && pq == Pow10(|f| - 1)
    requires FractionValue(f[1..]) == q as real / pq as real
    ensures FractionValue(f) == m as real / p as real
  {
    var d, fv, rest := DigitValue(f[0]) as real, FractionValue(f), FractionValue(f[1..]);
    var pr, qr, mr, pn := pq as real, q as real, m as real, p as real;
    Pow10Step(|f|);
    DigitsValueFrontReal(f, d, pr, qr);
    FractionStep(fv, rest, d, pr, qr, mr, pn);
  }

  lemma Pow10Step(n: nat)
    requires n >= 1
    ensures Pow10(n - 1) as real >= 1.0 && Pow10(n) as real == Pow10(n - 1) as real * 10.0
  {
  }

  /** `DigitsValueFront` over the reals, for the first digit `d`, the
      weight `p` of that digit and the value `x` of the other digits. */
  lemma DigitsValueFrontReal(s: string, d: real, p: real, x: real)
    requires AllDigits(s) && s != []
    requires d == DigitValue(s[0]) as real && p == Pow10(|s| - 1) as real && x == DigitsValue(s[1..]) as real
    ensures DigitsValue(s) as real == d * p + x
  {
    DigitsValueFront(s);
    CastStep(DigitsValue(s), DigitValue(s[0]), Pow10(|s| - 1), DigitsValue(s[1..]), d, p, x);
  }

  lemma CastStep(n: int, d: int, p: int, x: int, dr: real, pr: real, xr: real)
    requires n == d * p + x && dr == d as real && pr == p as real && xr == x as real
    ensures n as real == dr * pr + xr
  {
  }

  /** The first dot of `w + "." + f`, for a dot-free `w`, is the one added. */
  lemma SplitAtAddedDot(w: string, f: string)
    requires AllDigits(w)
    ensures WholePart(w + "." + f) == w && FractionPart(w + "." + f) == f
  {
    var s := w + "." + f;
    assert s[|w|] == '.';
    assert forall j | 0 <= j < |w| :: s[j] == w[j];
    assert DotIndex(s) == |w|;
    assert s[..|w|] == w;
    assert s[|w| + 1..] == f;
  }

  /** `float("w.f")` for digit strings `w` and `f`, not both empty: the
      value `n` of the whole part plus the value `m` of the fraction's
      digits over `p == 10^|f|`. */
  lemma ParseDecimal(w: string, f: string, n: nat, m: nat, p: nat)
    requires AllDigits(w) && AllDigits(f) && |w| + |f| > 0
    requires n == DigitsValue(w) && m == DigitsValue(f) && p == Pow10(|f|)
    ensures ParseFloat(w + "." + f) == Some(n as real + m as real / p as real)
  {
    SplitAtAddedDot(w, f);
    FractionValueExact(f, m, p);
    ParseParts(w + "." + f, w, f, n as real + m as real / p as real);
  }

  lemma ParseParts(s: string, w: string, f: string, v: real)
    requires WholePart(s) == w && FractionPart(s) == f
    requires AllDigits(w) && AllDigits(f) && |w| + |f| > 0
    requires v == DigitsValue(w) as real + FractionValue(f)
    ensures ParseFloat(s) == Some(v)
  {
  }

  /** Round half to even to an integer. */
  function RoundHalfEven(y: real): (n: int)
    ensures -0.5 <= n as real - y <= 0.5
    ensures (n as real - y == 0.5 || y - n as real == 0.5) ==> n % 2 == 0
  {
    var f := y.Floor;
    var d := y - f as real;
    if d < 0.5 then f
    else if d > 0.5 then f + 1
    else if f % 2 == 0 then f
    else f + 1
  }

  /** An integer number of hundredths. */
  predicate IsTwoDecimal(r: real) {
    (r * 100.0).Floor as real == r * 100.0
  }

  /** `round(x, 2)` on an exact value, rounding halves to even as Python
      does: the nearest number of hundredths. */
  function Round2(x: real): (r: real)
    ensures IsTwoDecimal(r)
    ensures -0.005 <= r - x <= 0.005
  {
    var y := x * 100.0;
    var n := RoundHalfEven(y);
    var r := n as real / 100.0;
    assert r * 100.0 == n as real;
    assert r - x == (n as real - y) / 100.0;
    r
  }

  /** Rounding a value that is already in hundredths changes nothing. */
  lemma Round2Idempotent(x: real)
    ensures Round2(Round2(x)) == Round2(x)
  {
    var r := Round2(x);
    var n := (r * 100.0).Floor;
    assert r * 100.0 == n as real;
    assert RoundHalfEven(r * 100.0) == n;
  }

  /** Python truthiness of an optional number: present and non-zero. */
  predicate Truthy(v: Option<real>) {
    v.Some? && v.value != 0.0
  }
}
