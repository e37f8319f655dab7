/** JavaScript numbers as the application meets them: temperatures typed into a form,
    read with `parseFloat` and written back into text by a template literal.
    A number is a finite decimal, so comparisons against thresholds such as 37.2 are exact. */
module JsNumber {
  import opened Wrappers
  import opened JsText

  /** The number (-1)^negative * digits / 10^scale. */
  datatype Decimal = Decimal(negative: bool, digits: nat, scale: nat)

  function Value(d: Decimal): real
  {
    var magnitude := d.digits as real / Pow10(d.scale) as real;
    if d.negative then -magnitude else magnitude
  }

  /** JavaScript truthiness of a number: everything but zero (and NaN, which has no `Decimal`). */
  predicate IsTruthy(d: Decimal) {
    d.digits != 0
  }

  /** Length of the run of ASCII digits that starts `s`. */
  function DigitRun(s: string): (n: nat)
    ensures n <= |s| && AllDigits(s[..n])
    ensures n < |s| ==> !IsDigit(s[n])
  {
    if |s| == 0 || !IsDigit(s[0]) then 0
    else
      var k := DigitRun(s[1..]);
      assert s[1..][..k] == s[1..k + 1];
      1 + k
  }

  /** What follows the leading whitespace and an optional sign. */
  function Unsigned(s: string): string
  {
    var t := s[LeadingSpace(s)..];
    if |t| > 0 && (t[0] == '-' || t[0] == '+') then t[1..] else t
  }

  /** A decimal literal can start here: a digit, or a point followed by a digit. */
  predicate StartsNumber(body: string) {
    (|body| > 0 && IsDigit(body[0])) || (|body| > 1 && body[0] == '.' && IsDigit(body[1]))
  }

  /** The unsigned decimal literal at the start of `body`, as (digits, scale): the longest
      prefix of the form `digits`, `digits.digits`, `digits.` or `.digits`. */
  function ReadUnsigned(body: string): (r: Option<(nat, nat)>)
    ensures r.Some? <==> StartsNumber(body)
  {
    var i := DigitRun(body);
    if i < |body| && body[i] == '.' then
      var f := DigitRun(body[i + 1..]);
      if i == 0 && f == 0 then None
      else
        DigitsConcat(body[..i], body[i + 1..][..f]);
        Some((DigitsValue(body[..i] + body[i + 1..][..f]), f))
    else if i == 0 then None
    else Some((DigitsValue(body[..i]), 0))
  }

  /** The literal `parseFloat` reads, described as a whole: skip the leading whitespace, take
      an optional sign, then the longest unsigned decimal literal; `None` is `NaN`. */
  function ReadLiteral(s: string): (r: Option<Decimal>)
    ensures r.Some? <==> StartsNumber(Unsigned(s))
    ensures r.Some? ==> r.value.negative == (var t := s[LeadingSpace(s)..]; |t| > 0 && t[0] == '-')
  {
    var t := s[LeadingSpace(s)..];
    match ReadUnsigned(Unsigned(s))
    case None => None
    case Some((digits, scale)) => Some(Decimal(|t| > 0 && t[0] == '-', digits, scale))
  }

  /** Where `parseFloat` is in the text: before the literal (whitespace, then an optional
      sign), in its integer digits, or after its decimal point. */
  datatype Phase = Blank | Whole | Fraction

  /** `parseFloat` reading one character at a time. `rest` is the text not read yet; the sign,
      the digits, the number of fraction digits and whether a digit has been read describe the
      literal so far. Reading stops at the first character that cannot continue the literal. */
  function Scan(rest: string, phase: Phase, negative: bool, digits: nat, scale: nat, seen: bool): Option<Decimal>
    decreases |rest|, if phase.Blank? then 1 else 0
  {
    var stop := if seen then Some(Decimal(negative, digits, scale)) else None;
    if |rest| == 0 then stop
    else
      var c := rest[0];
      match phase
      case Blank =>
        if IsWhitespace(c) then Scan(rest[1..], Blank, false, 0, 0, false)
        else if c == '-' || c == '+' then Scan(rest[1..], Whole, c == '-', 0, 0, false)
        else Scan(rest, Whole, false, 0, 0, false)
      case Whole =>
        if IsDigit(c) then Scan(rest[1..], Whole, negative, digits * 10 + DigitOf(c), 0, true)
        else if c == '.' then Scan(rest[1..], Fraction, negative, digits, 0, seen)
        else stop
      case Fraction =>
        if IsDigit(c) then Scan(rest[1..], Fraction, negative, digits * 10 + DigitOf(c), scale + 1, true)
        else stop
  }

  /** `parseFloat`; `None` is `NaN`. */
  function ParseFloat(s: string): Option<Decimal>
  {
    Scan(s, Blank, false, 0, 0, false)
  }

  /** Reading character by character finds the literal `ReadLiteral` describes. */
  lemma {:induction false} ParseFloatReadsLiteral(s: string)
    ensures ParseFloat(s) == ReadLiteral(s)
  {
    SkipBlank(s);
    var t := s[LeadingSpace(s)..];
    var negative := |t| > 0 && t[0] == '-';
    SignStep(t);
    ReadBody(Unsigned(s), negative);
  }

  lemma {:induction false} SkipBlank(s: string)
    ensures Scan(s, Blank, false, 0, 0, false) == Scan(s[LeadingSpace(s)..], Blank, false, 0, 0, false)
    decreases |s|
  {
    if |s| > 0 && IsWhitespace(s[0]) {
      SkipBlank(s[1..]);
      assert s[LeadingSpace(s)..] == s[1..][LeadingSpace(s[1..])..];
    } else {
      assert s[0..] == s;
    }
  }

  lemma SignStep(t: string)
    requires t == [] || !IsWhitespace(t[0])
    ensures var body := if |t| > 0 && (t[0] == '-' || t[0] == '+') then t[1..] else t;
      Scan(t, Blank, false, 0, 0, false) == Scan(body, Whole, |t| > 0 && t[0] == '-', 0, 0, false)
  {
  }

  /** Integer digits add to the number read so far. */
  lemma {:induction false} WholeDigits(a: string, r: string, negative: bool, acc: nat, seen: bool)
    requires AllDigits(a)
    ensures Scan(a + r, Whole, negative, acc, 0, seen)
         == Scan(r, Whole, negative, acc * Pow10(|a|) + DigitsValue(a), 0, seen || |a| > 0)
    decreases |a|
  {
    if |a| == 0 {
      assert a + r == r;
    } else {
      var d := DigitOf(a[0]);
      var tail := a[1..];
      assert (a + r)[1..] == tail + r;
      assert Scan(a + r, Whole, negative, acc, 0, seen) == Scan(tail + r, Whole, negative, acc * 10 + d, 0, true);
      WholeDigits(tail, r, negative, acc * 10 + d, true);
      LeadingDigit(a);
      Positional(acc, d, Pow10(|tail|), DigitsValue(tail));
    }
  }

  /** Fraction digits add to the number and to its scale. */
  lemma {:induction false} FractionDigits(a: string, r: string, negative: bool, acc: nat, scale: nat, seen: bool)
    requires AllDigits(a)
    ensures Scan(a + r, Fraction, negative, acc, scale, seen)
         == Scan(r, Fraction, negative, acc * Pow10(|a|) + DigitsValue(a), scale + |a|, seen || |a| > 0)
    decreases |a|
  {
    if |a| == 0 {
      assert a + r == r;
    } else {
      var d := DigitOf(a[0]);
      var tail := a[1..];
      assert (a + r)[1..] == tail + r;
      assert Scan(a + r, Fraction, negative, acc, scale, seen) == Scan(tail + r, Fraction, negative, acc * 10 + d, scale + 1, true);
      FractionDigits(tail, r, negative, acc * 10 + d, scale + 1, true);
      LeadingDigit(a);
      Positional(acc, d, Pow10(|tail|), DigitsValue(tail));
    }
  }

  lemma Positional(acc: nat, d: nat, p: nat, v: nat)
    ensures (acc * 10 + d) * p + v == acc * (10 * p) + (d * p + v)
  {
  }

  /** The value of a digit string, split after its first digit. */
  lemma LeadingDigit(a: string)
    requires |a| > 0 && AllDigits(a)
    ensures Pow10(|a|) == 10 * Pow10(|a| - 1)
    ensures DigitsValue(a) == DigitOf(a[0]) * Pow10(|a| - 1) + DigitsValue(a[1..])
  {
    DigitsValueAppend(a[..1], a[1..]);
    assert a[..1] + a[1..] == a;
    assert DigitsValue(a[..1]) == DigitOf(a[0]) by {
      assert a[..1][..0] == [];
    }
  }

  /** Reading the unsigned part character by character finds what `ReadUnsigned` finds. */
  lemma {:induction false} ReadBody(body: string, negative: bool)
    ensures Scan(body, Whole, negative, 0, 0, false)
         == match ReadUnsigned(body)
            case None => None
            case Some((digits, scale)) => Some(Decimal(negative, digits, scale))
  {
    var i := DigitRun(body);
    var whole := body[..i];
    var r := body[i..];
    assert body == whole + r;
    assert |r| > 0 ==> r[0] == body[i];
    WholeDigits(whole, r, negative, 0, false);
    assert 0 * Pow10(|whole|) + DigitsValue(whole) == DigitsValue(whole);
    AfterWhole(r, negative, DigitsValue(whole), i > 0);
    if i < |body| && body[i] == '.' {
      assert r[1..] == body[i + 1..];
      ReadFraction(body, negative);
    }
  }

  /** The fraction part, for a literal whose integer digits are followed by a point. */
  lemma {:induction false} ReadFraction(body: string, negative: bool)
    requires DigitRun(body) < |body| && body[DigitRun(body)] == '.'
    ensures var i := DigitRun(body);
      Scan(body[i + 1..], Fraction, negative, DigitsValue(body[..i]), 0, i > 0)
        == match ReadUnsigned(body)
           case None => None
           case Some((digits, scale)) => Some(Decimal(negative, digits, scale))
  {
    var i := DigitRun(body);
    var whole := body[..i];
    var after := body[i + 1..];
    var f := DigitRun(after);
    var frac := after[..f];
    assert after == frac + after[f..];
    FractionDigits(frac, after[f..], negative, DigitsValue(whole), 0, i > 0);
    AfterFraction(after[f..], negative, DigitsValue(whole) * Pow10(f) + DigitsValue(frac), f, i > 0 || f > 0);
    DigitsValueAppend(whole, frac);
    assert ReadUnsigned(body) == if i == 0 && f == 0 then None else Some((DigitsValue(whole + frac), f));
  }

  /** What follows the integer digits: a point starts the fraction, anything else ends the
      literal. */
  lemma AfterWhole(r: string, negative: bool, digits: nat, seen: bool)
    requires r == [] || !IsDigit(r[0])
    ensures Scan(r, Whole, negative, digits, 0, seen)
         == if |r| > 0 && r[0] == '.' then Scan(r[1..], Fraction, negative, digits, 0, seen)
            else if seen then Some(Decimal(negative, digits, 0)) else None
  {
  }

  /** Whatever follows the fraction digits ends the literal. */
  lemma AfterFraction(r: string, negative: bool, digits: nat, scale: nat, seen: bool)
    requires r == [] || !IsDigit(r[0])
    ensures Scan(r, Fraction, negative, digits, scale, seen)
         == if seen then Some(Decimal(negative, digits, scale)) else None
  {
  }

  /** The same number with trailing fractional zeros removed. */
  function Normalize(d: Decimal): (n: Decimal)
    ensures n.negative == d.negative
    ensures n.scale == 0 || n.digits % 10 != 0
    ensures n.digits == 0 <==> d.digits == 0
    decreases d.scale
  {
    if d.scale > 0 && d.digits % 10 == 0 then Normalize(Decimal(d.negative, d.digits / 10, d.scale - 1))
    else d
  }

  /** Removing trailing fractional zeros keeps the number. */
  lemma {:induction false} NormalizeValue(d: Decimal)
    ensures Value(Normalize(d)) == Value(d)
    decreases d.scale
  {
    if d.scale > 0 && d.digits % 10 == 0 {
      NormalizeValue(Decimal(d.negative, d.digits / 10, d.scale - 1));
      ScaleDown(d.digits / 10, d.scale - 1);
    }
  }

  lemma ScaleDown(q: nat, k: nat)
    ensures (q * 10) as real / (Pow10(k + 1) as real) == q as real / Pow10(k) as real
  {
    var p := Pow10(k) as real;
    assert Pow10(k + 1) as real == 10.0 * p;
    assert (q * 10) as real == 10.0 * (q as real);
  }

  /** The number a decimal text denotes, as one representative: trailing fractional zeros
      and the sign of zero do not survive the conversion to a double, so `38` and `38.0`,
      or `0` and `-0.0`, denote the same number. */
  function Canonical(d: Decimal): (c: Decimal)
    ensures Value(c) == Value(d)
    ensures c.scale == 0 || c.digits % 10 != 0
    ensures c.digits == 0 ==> c == Decimal(false, 0, 0)
  {
    if d.digits == 0 then Decimal(false, 0, 0)
    else
      NormalizeValue(d);
      Normalize(d)
  }

  /** Two decimals have one representative exactly when they denote the same number. */
  lemma CanonicalIff(a: Decimal, b: Decimal)
    ensures Canonical(a) == Canonical(b) <==> Value(a) == Value(b)
  {
    var ca, cb := Canonical(a), Canonical(b);
    if Value(a) == Value(b) {
      ZeroValue(ca);
      ZeroValue(cb);
      if ca.digits != 0 && cb.digits != 0 {
        NormalizedUnique(ca, cb);
      }
    }
  }

  /** Only a zero digit string has the value zero. */
  lemma ZeroValue(d: Decimal)
    ensures Value(d) == 0.0 <==> d.digits == 0
  {
    var p := Pow10(d.scale) as real;
    assert p > 0.0;
    if d.digits != 0 {
      assert d.digits as real / p > 0.0;
    }
  }

  lemma Pow10Add(m: nat, k: nat)
    ensures Pow10(m + k) == Pow10(m) * Pow10(k)
    decreases k
  {
    if k > 0 {
      Pow10Add(m, k - 1);
      assert Pow10(m + k) == 10 * Pow10(m + k - 1);
    }
  }

  /** Equal fractions over powers of ten, cross-multiplied. */
  lemma CrossMultiply(x: nat, px: nat, y: nat, py: nat)
    requires px >= 1 && py >= 1
    requires x as real / px as real == y as real / py as real
    ensures x * py == y * px
  {
    var rx, ry := px as real, py as real;
    assert x as real == (y as real / ry) * rx;
    assert x as real * ry == y as real * rx;
    assert (x * py) as real == (y * px) as real;
  }

  /** When `x / 10^m == y / 10^n` with `m < n`, then `y` is a multiple of ten. */
  lemma LongerScaleDividesByTen(x: nat, m: nat, y: nat, n: nat)
    requires x * Pow10(n) == y * Pow10(m)
    ensures m < n ==> y % 10 == 0
  {
    if m < n {
      var k := n - m;
      var pm, pk, pk1 := Pow10(m), Pow10(k), Pow10(k - 1);
      Pow10Add(m, k);
      assert Pow10(n) == pm * pk;
      MulAssoc(x, pm, pk);
      Cancel(x * pk, y, pm);
      assert pk == 10 * pk1;
      MulAssoc(x, 10, pk1);
      assert y == 10 * (x * pk1);
    }
  }

  lemma MulAssoc(a: nat, b: nat, c: nat)
    ensures a * (b * c) == (a * c) * b && a * (b * c) == b * (a * c)
  {
  }

  lemma Cancel(a: nat, b: nat, c: nat)
    requires c >= 1 && a * c == b * c
    ensures a == b
  {
    MulStrict(a, b, c);
    MulStrict(b, a, c);
  }

  lemma MulStrict(a: nat, b: nat, c: nat)
    ensures a < b && c >= 1 ==> a * c < b * c
  {
    if a < b && c >= 1 {
      assert b * c == a * c + (b - a) * c;
    }
  }

  /** Decimals without trailing fractional zeros and with the same non-zero value are equal. */
  lemma NormalizedUnique(a: Decimal, b: Decimal)
    requires a.digits != 0 && b.digits != 0
    requires a.scale == 0 || a.digits % 10 != 0
    requires b.scale == 0 || b.digits % 10 != 0
    requires Value(a) == Value(b)
    ensures a == b
  {
    var ma := a.digits as real / Pow10(a.scale) as real;
    var mb := b.digits as real / Pow10(b.scale) as real;
    assert ma > 0.0 && mb > 0.0;
    assert a.negative == b.negative;
    assert ma == mb;
    CrossMultiply(a.digits, Pow10(a.scale), b.digits, Pow10(b.scale));
    LongerScaleDividesByTen(a.digits, a.scale, b.digits, b.scale);
    LongerScaleDividesByTen(b.digits, b.scale, a.digits, a.scale);
    assert a.scale == b.scale;
    var p := Pow10(a.scale);
    assert a.digits * p == b.digits * p;
  }

  /** `x` in exactly `width` digits, padded with leading zeros. */
  function PadDigits(x: nat, width: nat): (s: string)
    requires 1 <= width && x < Pow10(width)
    ensures |s| == width
  {
    var t := NatText(x);
    NatTextLength(x, width);
    Zeros(width - |t|) + t
  }

  /** The padded digits read back as `x`. */
  lemma PadDigitsValue(x: nat, width: nat)
    requires 1 <= width && x < Pow10(width)
    ensures AllDigits(PadDigits(x, width)) && DigitsValue(PadDigits(x, width)) == x
  {
    var t := NatText(x);
    NatTextLength(x, width);
    LeadingZeros(width - |t|, t);
    NatTextRoundTrip(x);
  }

  lemma LeadingZeros(k: nat, t: string)
    requires AllDigits(t)
    ensures AllDigits(Zeros(k) + t) && DigitsValue(Zeros(k) + t) == DigitsValue(t)
  {
    ZerosValue(k);
    DigitsValueAppend(Zeros(k), t);
    assert DigitsValue(Zeros(k)) * Pow10(|t|) == 0;
  }

  /** The text a template literal gives a number, `String(x)`: shortest form, no trailing
      fractional zeros, `0` for zero. */
  function NumberText(d: Decimal): (s: string)
    ensures |s| >= 1
  {
    var n := Normalize(d);
    if n.digits == 0 then "0"
    else
      var p := Pow10(n.scale);
      DivBounds(n.digits, p);
      var sign := if n.negative then "-" else "";
      var whole := NatText(n.digits / p);
      if n.scale == 0 then sign + whole
      else sign + whole + "." + PadDigits(n.digits % p, n.scale)
  }

  lemma DigitRunOf(a: string, rest: string)
    requires AllDigits(a)
    requires rest == [] || !IsDigit(rest[0])
    ensures DigitRun(a + rest) == |a|
    decreases |a|
  {
    if |a| > 0 {
      assert (a + rest)[1..] == a[1..] + rest;
      DigitRunOf(a[1..], rest);
    } else {
      assert a + rest == rest;
    }
  }

  /** `parseFloat(String(x))` gives `x` back: what happens when a numeric temperature
      passes through `parseFloat` before validation. */
  lemma {:induction false} NumberTextRoundTrip(d: Decimal)
    ensures ParseFloat(NumberText(d)).Some?
    ensures Value(ParseFloat(NumberText(d)).value) == Value(d)
  {
    ParseFloatReadsLiteral(NumberText(d));
    NormalizeValue(d);
    var n := Normalize(d);
    if n.digits == 0 {
      ZeroRoundTrip();
    } else if n.scale == 0 {
      WholeRoundTrip(n);
    } else {
      FractionRoundTrip(n);
    }
  }

  lemma ZeroRoundTrip()
    ensures ReadLiteral("0") == Some(Decimal(false, 0, 0))
  {
    SignedText("", "0");
    DigitRunOf("0", "");
    assert "0"[..1] == "0";
    assert DigitsValue("0") == 0;
  }

  lemma SignedText(sign: string, body: string)
    requires sign == "" || sign == "-"
    requires |body| > 0 && IsDigit(body[0])
    ensures Unsigned(sign + body) == body
    ensures var t := (sign + body)[LeadingSpace(sign + body)..]; (|t| > 0 && t[0] == '-') == (sign == "-")
  {
    var s := sign + body;
    assert s[0] == '-' || IsDigit(s[0]);
    assert LeadingSpace(s) == 0;
    assert s[0..] == s;
    if sign == "-" {
      assert s[1..] == body;
    } else {
      assert s == body;
      assert s[0] != '-' && s[0] != '+';
      assert s[LeadingSpace(s)..] == s;
    }
  }

  lemma WholeRoundTrip(n: Decimal)
    requires n.digits != 0 && n.scale == 0
    ensures ReadLiteral(NumberText(n)) == Some(n)
  {
    var whole := NatText(n.digits);
    var sign := if n.negative then "-" else "";
    assert n.digits / Pow10(0) == n.digits;
    assert NumberText(n) == sign + whole;
    SignedText(sign, whole);
    DigitRunOf(whole, "");
    assert whole + "" == whole && whole[..|whole|] == whole;
    NatTextRoundTrip(n.digits);
    assert ReadUnsigned(whole) == Some((n.digits, 0));
  }

  /** Reading `whole.frac` back. */
  lemma ReadPointed(whole: string, frac: string)
    requires |whole| > 0 && AllDigits(whole) && |frac| > 0 && AllDigits(frac)
    ensures AllDigits(whole + frac)
    ensures ReadUnsigned(whole + "." + frac) == Some((DigitsValue(whole + frac), |frac|))
  {
    DigitsConcat(whole, frac);
    var body := whole + "." + frac;
    DigitRunOf(whole, "." + frac);
    assert whole + ("." + frac) == body;
    assert body[..|whole|] == whole;
    assert body[|whole| + 1..] == frac;
    DigitRunOf(frac, "");
    assert frac + "" == frac && frac[..|frac|] == frac;
  }

  lemma FractionRoundTrip(n: Decimal)
    requires n.digits != 0 && n.scale > 0 && n.digits % 10 != 0
    ensures ReadLiteral(NumberText(n)) == Some(n)
  {
    assert Normalize(n) == n;
    var p := Pow10(n.scale);
    DivBounds(n.digits, p);
    var sign := if n.negative then "-" else "";
    var whole := NatText(n.digits / p);
    var frac := PadDigits(n.digits % p, n.scale);
    PadDigitsValue(n.digits % p, n.scale);
    assert NumberText(n) == sign + (whole + "." + frac);
    ReadSignedPointed(sign, whole, frac);
    SplitValue(n.digits, p, n.digits / p, frac);
  }

  /** The quotient's digits followed by the remainder's digits spell the dividend. */
  lemma SplitValue(x: nat, p: nat, q: nat, frac: string)
    requires p > 0 && q == x / p && AllDigits(frac) && Pow10(|frac|) == p && DigitsValue(frac) == x % p
    ensures DigitsValue(NatText(q) + frac) == x
  {
    PointedValue(q, frac);
    DivMod(x, p);
  }

  /** Reading `-whole.frac` or `whole.frac` back. */
  lemma ReadSignedPointed(sign: string, whole: string, frac: string)
    requires sign == "" || sign == "-"
    requires |whole| > 0 && AllDigits(whole) && |frac| > 0 && AllDigits(frac)
    ensures ReadLiteral(sign + (whole + "." + frac)) == Some(Decimal(sign == "-", DigitsValue(whole + frac), |frac|))
  {
    SignedText(sign, whole + "." + frac);
    ReadPointed(whole, frac);
  }

  /** The digits before the point followed by those after it spell the whole numeral. */
  lemma PointedValue(q: nat, frac: string)
    requires AllDigits(frac)
    ensures DigitsValue(NatText(q) + frac) == q * Pow10(|frac|) + DigitsValue(frac)
  {
    DigitsValueAppend(NatText(q), frac);
    NatTextRoundTrip(q);
  }

  lemma DivBounds(x: nat, p: nat)
    requires p > 0
    ensures 0 <= x / p && 0 <= x % p < p
  {
  }

  lemma DivMod(x: nat, p: nat)
    requires p > 0
    ensures (x / p) * p + x % p == x
  {
  }
}
