/** The Wei/Gwei/Ether converter: one stored amount in wei, edited through
    any unit and displayed in every unit.

    Amounts are exact decimals: `Decimal(m, s)` stands for m / 10^s. The
    stored amount is `None` when the field was cleared (the empty string of
    the page) and otherwise the value `toFixed` would have written. */
module Converter {
  import opened Common

  /** A unit of ether and its power-of-ten factor relative to wei. */
  datatype Unit = Unit(name: string, factor: nat)

  /** The three units the converter shows, in display order. */
  const Units: seq<Unit> := [Unit("Wei", 0), Unit("Gwei", 9), Unit("Ether", 18)]

  /** The exact decimal m / 10^scale. */
  datatype Decimal = Decimal(mantissa: int, scale: nat)

  function Pow10(n: nat): (r: nat)
    ensures r >= 1
  {
    if n == 0 then 1 else 10 * Pow10(n - 1)
  }

  lemma {:induction false} Pow10Add(a: nat, b: nat)
    ensures Pow10(a + b) == Pow10(a) * Pow10(b)
  {
    if b > 0 {
      Pow10Add(a, b - 1);
      assert Pow10(a + b) == 10 * Pow10(a + b - 1);
    }
  }

  /** Regrouping a product of four factors. */
  lemma Regroup(m: int, a: int, b: int, c: int)
    ensures m * (a * b) * c == m * a * (c * b)
  {
    assert m * (a * b) * c == m * a * (b * c);
    assert b * c == c * b;
  }

  lemma MulTen(q: int, p: int)
    ensures q * (10 * p) == 10 * (q * p)
  {
  }

  lemma Cancel(x: int, y: int, p: int)
    requires p > 0 && x * p == y * p
    ensures x == y
  {
  }

  /** `a` and `b` denote the same number. */
  predicate SameValue(a: Decimal, b: Decimal)
  {
    a.mantissa * Pow10(b.scale) == b.mantissa * Pow10(a.scale)
  }

  /** `x · 10^k`, exactly. */
  function ScaleUp(x: Decimal, k: nat): Decimal
  {
    Decimal(x.mantissa * Pow10(k), x.scale)
  }

  /** `x / 10^k`, exactly. */
  function ScaleDown(x: Decimal, k: nat): Decimal
  {
    Decimal(x.mantissa, x.scale + k)
  }

  /** Dividing by the factor undoes multiplying by it. */
  lemma ScaleDownUndoesScaleUp(x: Decimal, k: nat)
    ensures SameValue(ScaleDown(ScaleUp(x, k), k), x)
  {
    Pow10Add(x.scale, k);
    Regroup(x.mantissa, 1, Pow10(k), Pow10(x.scale));
  }

  /** An amount entered in a unit of factor `f1` and shown in a unit of
      smaller factor `f2` is the entry times 10^(f1 - f2). */
  lemma ConvertBetweenUnits(x: Decimal, f1: nat, f2: nat)
    requires f2 <= f1
    ensures SameValue(ScaleDown(ScaleUp(x, f1), f2), ScaleUp(x, f1 - f2))
  {
    Pow10Add(f1 - f2, f2);
    Pow10Add(x.scale, f2);
    Regroup(x.mantissa, Pow10(f1 - f2), Pow10(f2), Pow10(x.scale));
  }

  /** BigNumber's default `DECIMAL_PLACES`: the quotient of every division
      is rounded to this many fractional digits. */
  const DecimalPlaces: nat := 20

  function Abs(n: int): nat
  {
    if n < 0 then -n else n
  }

  /** `m / p` rounded to the nearest whole number, ties up. */
  function HalfUp(m: nat, p: nat): nat
    requires p > 0
  {
    if 2 * (m % p) >= p then m / p + 1 else m / p
  }

  /** `x` rounded to `places` fractional digits, to the nearest, with ties
      away from zero (BigNumber's default `ROUND_HALF_UP`). */
  function RoundHalfUp(x: Decimal, places: nat): Decimal
  {
    if x.scale <= places then x
    else
      var rounded := HalfUp(Abs(x.mantissa), Pow10(x.scale - places));
      Decimal(if x.mantissa < 0 then -(rounded as int) else rounded, places)
  }

  /** Rounding keeps `places` fractional digits, moves the value by at most
      half a unit of the last kept digit, moves a tie away from zero and
      never changes the sign; an amount already written with no more than
      `places` fractional digits is kept. */
  lemma RoundNearest(x: Decimal, places: nat)
    ensures x.scale <= places ==> RoundHalfUp(x, places) == x
    ensures x.scale > places ==>
              var r, p := RoundHalfUp(x, places), Pow10(x.scale - places);
              && r.scale == places
              && 2 * Abs(r.mantissa * p - x.mantissa) <= p
              && (2 * Abs(r.mantissa * p - x.mantissa) == p ==> Abs(r.mantissa) * p > Abs(x.mantissa))
              && (r.mantissa < 0 ==> x.mantissa < 0) && (r.mantissa > 0 ==> x.mantissa > 0)
  {
    if x.scale > places {
      var p := Pow10(x.scale - places);
      var rounded := HalfUp(Abs(x.mantissa), p);
      HalfUpMagnitude(Abs(x.mantissa), p);
      SignedError(x.mantissa, RoundHalfUp(x, places).mantissa, rounded, p);
    }
  }

  /** Rounding a magnitude `m` to a multiple of `p`, half up. */
  lemma HalfUpMagnitude(m: nat, p: nat)
    requires p > 0
    ensures var rounded := HalfUp(m, p);
            && 2 * Abs(rounded * p - m) <= p
            && (2 * Abs(rounded * p - m) == p ==> rounded * p > m)
            && (rounded > 0 ==> m > 0)
  {
    var q, rem := m / p, m % p;
    assert m == q * p + rem && 0 <= rem < p;
    assert (q + 1) * p == q * p + p;
  }

  /** Putting the sign of `m` back on a rounded magnitude. */
  lemma SignedError(m: int, r: int, rounded: nat, p: nat)
    requires r == (if m < 0 then -(rounded as int) else rounded)
    requires 2 * Abs(rounded * p - Abs(m)) <= p
    requires 2 * Abs(rounded * p - Abs(m)) == p ==> rounded * p > Abs(m)
    requires rounded > 0 ==> Abs(m) > 0
    ensures 2 * Abs(r * p - m) <= p
    ensures 2 * Abs(r * p - m) == p ==> Abs(r) * p > Abs(m)
    ensures (r < 0 ==> m < 0) && (r > 0 ==> m > 0)
  {
    if m < 0 {
      assert r * p - m == -(rounded * p - Abs(m));
    }
  }

  /** `(k · p) / p` is `k`, with no remainder. */
  lemma DivExact(k: nat, p: nat)
    requires p > 0
    ensures (k * p) / p == k && (k * p) % p == 0
  {
    var q, rem := (k * p) / p, (k * p) % p;
    assert (k - q) * p == rem;
    if k - q >= 1 {
      assert false;
    } else if k - q <= -1 {
      assert false;
    }
  }

  /** An amount whose value can be written with no more than `places`
      fractional digits is not changed in value by rounding to `places`. */
  lemma RoundExact(x: Decimal, y: Decimal, places: nat)
    requires SameValue(x, y) && y.scale <= places
    ensures SameValue(RoundHalfUp(x, places), x)
  {
    if x.scale > places {
      var d, e := x.scale - places, x.scale - y.scale;
      var p, py, pe, pl := Pow10(d), Pow10(y.scale), Pow10(e), Pow10(places);
      Pow10Add(e, y.scale);
      Pow10Add(e - d, d);
      Pow10Add(places, d);
      var k := Abs(y.mantissa) * Pow10(e - d);
      MultipleOf(x.mantissa, y.mantissa, py, pe, Pow10(e - d), p);
      DivExact(k, p);
      assert HalfUp(k * p, p) == k;
      var r := RoundHalfUp(x, places);
      assert r.mantissa == (if x.mantissa < 0 then -(k as int) else k);
      ExactProduct(x.mantissa, r.mantissa, k, p, pl);
    }
  }

  /** From `x · py == y · (pe · py)` with `pe == q · p`: `|x| == (|y| · q) · p`. */
  lemma MultipleOf(x: int, y: int, py: nat, pe: nat, q: nat, p: nat)
    requires py > 0 && q > 0 && p > 0 && x * py == y * (pe * py) && pe == q * p
    ensures Abs(x) == (Abs(y) * q) * p && (x < 0 <==> y < 0)
  {
    assert x * py == (y * pe) * py;
    Cancel(x, y * pe, py);
    assert x == y * (q * p);
    if y < 0 {
      assert Abs(x) == (-y) * (q * p);
    }
  }

  /** `r · p == m` gives `r · (pl · p) == m · pl`. */
  lemma ExactProduct(m: int, r: int, k: nat, p: nat, pl: nat)
    requires Abs(m) == k * p && r == (if m < 0 then -(k as int) else k)
    ensures r * (pl * p) == m * pl
  {
    assert r * p == m;
    assert r * (pl * p) == (r * p) * pl;
  }

  /** The characters the input cleaning keeps: digits, `.` and `-`. */
  predicate Kept(c: char)
  {
    '0' <= c <= '9' || c == '.' || c == '-'
  }

  /** `value.replace(/[^0-9.-]/g, '')`. */
  function Clean(s: string): string
  {
    if |s| == 0 then ""
    else Clean(s[..|s| - 1]) + (if Kept(s[|s| - 1]) then [s[|s| - 1]] else [])
  }

  /** Everything cleaning returns is allowed, and a string of allowed
      characters is returned as it is. */
  lemma CleanKeepsAllowed(s: string)
    ensures AllKept(Clean(s))
    ensures AllKept(s) ==> Clean(s) == s
  {
    CleanOutputAllowed(s);
    if AllKept(s) {
      CleanFixesAllowed(s);
    }
  }

  /** Cleaning keeps only allowed characters. */
  lemma {:induction false} CleanOutputAllowed(s: string)
    ensures AllKept(Clean(s))
  {
    if |s| > 0 {
      var init, c := s[..|s| - 1], s[|s| - 1];
      CleanOutputAllowed(init);
      var tail := if Kept(c) then [c] else [];
      assert AllKept(tail);
      AllKeptConcat(Clean(init), tail);
    }
  }

  /** Cleaning leaves a string of allowed characters alone. */
  lemma {:induction false} CleanFixesAllowed(s: string)
    requires AllKept(s)
    ensures Clean(s) == s
  {
    if |s| > 0 {
      var init, c := s[..|s| - 1], s[|s| - 1];
      assert AllKept(init) by {
        forall i | 0 <= i < |init| ensures Kept(init[i]) { assert init[i] == s[i]; }
      }
      CleanFixesAllowed(init);
      assert Kept(c);
      assert s == init + [c];
    }
  }

  /** Cleaning works character by character, keeping the order. */
  lemma {:induction false} CleanConcat(a: string, b: string)
    ensures Clean(a + b) == Clean(a) + Clean(b)
  {
    if |b| == 0 {
      assert a + b == a;
    } else {
      assert (a + b)[..|a + b| - 1] == a + b[..|b| - 1];
      CleanConcat(a, b[..|b| - 1]);
    }
  }

  /** Cleaning twice is cleaning once. */
  lemma CleanIdempotent(s: string)
    ensures Clean(Clean(s)) == Clean(s)
  {
    CleanKeepsAllowed(s);
    CleanKeepsAllowed(Clean(s));
  }

  predicate IsDigit(c: char)
  {
    '0' <= c <= '9'
  }

  predicate AllDigits(s: string)
  {
    forall i | 0 <= i < |s| :: IsDigit(s[i])
  }

  /** The number a string of decimal digits spells. */
  function DigitsValue(s: string): nat
    requires AllDigits(s)
  {
    if |s| == 0 then 0
    else DigitsValue(s[..|s| - 1]) * 10 + (s[|s| - 1] as int - '0' as int)
  }

  /** `new BigNumber(s)` for a cleaned string: an optional `-`, then digits
      with at most one `.`, with at least one digit; `None` for a string
      BigNumber reads as NaN. */
  function ParseDecimal(s: string): Option<Decimal>
  {
    if |s| > 0 && s[0] == '-' then
      match ParseUnsigned(s[1..])
      case None => None
      case Some(d) => Some(Decimal(-d.mantissa, d.scale))
    else ParseUnsigned(s)
  }

  /** Digits with at most one `.`, with at least one digit. */
  function ParseUnsigned(body: string): Option<Decimal>
  {
    var d := IndexOf(body, '.');
    var whole := body[..d];
    var frac := if d < |body| then body[d + 1..] else "";
    if AllDigits(whole) && AllDigits(frac) && |whole| + |frac| > 0 then
      Some(Decimal(Shift(DigitsValue(whole), |frac|, DigitsValue(frac)), |frac|))
    else
      None
  }

  /** The number whose integer digits spell `w` and whose `k` fractional
      digits spell `f`, times 10^k. */
  function Shift(w: nat, k: nat, f: nat): nat
  {
    w * Pow10(k) + f
  }

  function DigitChar(n: nat): char
    requires n < 10
  {
    ('0' as int + n) as char
  }

  /** The decimal digits of `n`, without leading zeros. */
  function NatDigits(n: nat): string
  {
    if n < 10 then [DigitChar(n)] else NatDigits(n / 10) + [DigitChar(n % 10)]
  }

  /** The last `k` decimal digits of `n`, zero-padded on the left. */
  function PadDigits(n: nat, k: nat): string
  {
    if k == 0 then "" else PadDigits(n / 10, k - 1) + [DigitChar(n % 10)]
  }

  /** `n / 10^k`, by repeated division by ten. */
  function QuotPow(n: nat, k: nat): nat
  {
    if k == 0 then n else QuotPow(n / 10, k - 1)
  }

  /** `x` with the trailing zeros of its fraction removed; BigNumber keeps
      its numbers in this form. */
  function Normalize(x: Decimal): Decimal
    decreases x.scale
  {
    if x.scale > 0 && x.mantissa % 10 == 0 then Normalize(Decimal(x.mantissa / 10, x.scale - 1))
    else x
  }

  /** `toFixed()` with no argument: plain notation with every digit of the
      exact value, no exponent and no trailing fractional zeros. */
  function ToFixed(x: Decimal): (r: string)
    ensures |r| > 0
    ensures ParseDecimal(r).Some? && SameValue(ParseDecimal(r).value, x)
  {
    ParseRender(Normalize(x));
    NormalizeSameValue(x);
    Render(Normalize(x))
  }

  /** Plain notation for `x`, with exactly `x.scale` fractional digits. */
  function Render(x: Decimal): string
  {
    var magnitude: nat := if x.mantissa < 0 then -x.mantissa else x.mantissa;
    Plain(x.mantissa < 0, NatDigits(QuotPow(magnitude, x.scale)), PadDigits(magnitude, x.scale))
  }

  /** A sign, integer digits, and the fractional digits after a `.` when
      there are any. */
  function Plain(negative: bool, whole: string, frac: string): string
  {
    (if negative then "-" else "") + whole + (if |frac| > 0 then "." + frac else "")
  }

  /** The digits of `n` spell `n`. */
  lemma {:induction false} NatDigitsSpell(n: nat)
    ensures |NatDigits(n)| > 0 && AllDigits(NatDigits(n)) && DigitsValue(NatDigits(n)) == n
  {
    if n >= 10 {
      NatDigitsSpell(n / 10);
      var s := NatDigits(n);
      assert s[..|s| - 1] == NatDigits(n / 10);
    }
  }

  /** The padded last `k` digits of `n` spell the remainder of `n` by 10^k. */
  lemma {:induction false} PadDigitsSpell(n: nat, k: nat)
    ensures |PadDigits(n, k)| == k && AllDigits(PadDigits(n, k))
    ensures QuotPow(n, k) * Pow10(k) + DigitsValue(PadDigits(n, k)) == n
  {
    if k > 0 {
      PadDigitsSpell(n / 10, k - 1);
      var s := PadDigits(n, k);
      assert s[..|s| - 1] == PadDigits(n / 10, k - 1);
      MulTen(QuotPow(n, k), Pow10(k - 1));
    }
  }

  /** Digits, and an optional `.` with more digits, parse to the number
      they spell. */
  lemma ParseUnsignedParts(whole: string, frac: string)
    requires |whole| > 0 && AllDigits(whole) && AllDigits(frac)
    ensures ParseUnsigned(whole + (if |frac| > 0 then "." + frac else ""))
            == Some(Decimal(Shift(DigitsValue(whole), |frac|, DigitsValue(frac)), |frac|))
  {
    var tail := if |frac| > 0 then "." + frac else "";
    var body := whole + tail;
    assert forall i | 0 <= i < |whole| :: whole[i] != '.' by {
      forall i | 0 <= i < |whole| ensures whole[i] != '.' { assert IsDigit(whole[i]); }
    }
    IndexOfAfter(whole, '.', tail);
    var d := IndexOf(body, '.');
    assert d == |whole|;
    assert body[..d] == whole;
    var fr := if d < |body| then body[d + 1..] else "";
    assert fr == frac;
    assert AllDigits(body[..d]) && AllDigits(fr) && |body[..d]| + |fr| > 0;
    assert ParseUnsigned(body) == Some(Decimal(Shift(DigitsValue(body[..d]), |fr|, DigitsValue(fr)), |fr|));
  }

  /** A `-` in front negates what follows it. */
  lemma ParseSigned(negative: bool, body: string, v: Decimal)
    requires ParseUnsigned(body) == Some(v) && |body| > 0 && body[0] != '-'
    ensures ParseDecimal((if negative then "-" else "") + body)
            == Some(if negative then Decimal(-v.mantissa, v.scale) else v)
  {
    if negative {
      assert ("-" + body)[1..] == body;
    } else {
      assert "" + body == body;
    }
  }

  /** Reading back the plain notation of a decimal gives that decimal. */
  lemma ParseRender(x: Decimal)
    ensures ParseDecimal(Render(x)) == Some(x)
  {
    var magnitude: nat := if x.mantissa < 0 then -x.mantissa else x.mantissa;
    var whole, frac := NatDigits(QuotPow(magnitude, x.scale)), PadDigits(magnitude, x.scale);
    assert Render(x) == Plain(x.mantissa < 0, whole, frac);
    SpellMagnitude(magnitude, x.scale);
    ParseSpelled(x, whole, frac, magnitude);
  }

  /** Digits that spell the magnitude of `x` at its scale, with `x`'s sign,
      read back as `x`. */
  lemma ParseSpelled(x: Decimal, whole: string, frac: string, magnitude: nat)
    requires magnitude == if x.mantissa < 0 then -x.mantissa else x.mantissa
    requires |whole| > 0 && AllDigits(whole) && AllDigits(frac) && |frac| == x.scale
    requires Shift(DigitsValue(whole), |frac|, DigitsValue(frac)) == magnitude
    ensures ParseDecimal(Plain(x.mantissa < 0, whole, frac)) == Some(x)
  {
    ParseParts(x.mantissa < 0, whole, frac, magnitude);
    assert Decimal(if x.mantissa < 0 then -(magnitude as int) else magnitude, |frac|) == x;
  }

  /** The whole digits and the padded fractional digits of `n` at scale `k`
      spell `n` again. */
  lemma SpellMagnitude(n: nat, k: nat)
    ensures var whole, frac := NatDigits(QuotPow(n, k)), PadDigits(n, k);
            && |whole| > 0 && AllDigits(whole) && AllDigits(frac) && |frac| == k
            && Shift(DigitsValue(whole), |frac|, DigitsValue(frac)) == n
  {
    NatDigitsSpell(QuotPow(n, k));
    PadDigitsSpell(n, k);
  }

  /** A sign, digits, and an optional `.` with more digits parse to the
      number they spell. */
  lemma ParseParts(negative: bool, whole: string, frac: string, m: nat)
    requires |whole| > 0 && AllDigits(whole) && AllDigits(frac)
    requires Shift(DigitsValue(whole), |frac|, DigitsValue(frac)) == m
    ensures ParseDecimal(Plain(negative, whole, frac)) == Some(Decimal(if negative then -(m as int) else m, |frac|))
  {
    var body := whole + (if |frac| > 0 then "." + frac else "");
    ParseUnsignedParts(whole, frac);
    PlainIsSignedBody(negative, whole, frac);
    ParseSigned(negative, body, Decimal(m, |frac|));
  }

  /** The plain notation is the sign in front of the unsigned text, which
      starts with a digit. */
  lemma PlainIsSignedBody(negative: bool, whole: string, frac: string)
    requires |whole| > 0 && AllDigits(whole)
    ensures var body := whole + (if |frac| > 0 then "." + frac else "");
            && Plain(negative, whole, frac) == (if negative then "-" else "") + body
            && |body| > 0 && body[0] != '-'
  {
    assert IsDigit(whole[0]);
  }

  /** Normalizing keeps the value. */
  lemma {:induction false} NormalizeSameValue(x: Decimal)
    ensures SameValue(Normalize(x), x)
    decreases x.scale
  {
    if x.scale > 0 && x.mantissa % 10 == 0 {
      var y := Decimal(x.mantissa / 10, x.scale - 1);
      NormalizeSameValue(y);
      var n := Normalize(y);
      assert Pow10(x.scale) == 10 * Pow10(y.scale);
      assert x.mantissa == 10 * y.mantissa;
      TimesTen(n.mantissa, y.mantissa, x.mantissa, Pow10(y.scale), Pow10(x.scale), Pow10(n.scale));
    }
  }

  /** `a / c == m / b` gives `a / c == 10m / 10b`, cross-multiplied. */
  lemma TimesTen(a: int, m: int, xm: int, b: int, xb: int, c: int)
    requires a * b == m * c && xb == 10 * b && xm == 10 * m
    ensures a * xb == xm * c
  {
    assert a * (10 * b) == 10 * (a * b);
    assert 10 * (m * c) == (10 * m) * c;
  }

  /** The converter's state: the one stored amount, in wei. */
  class Converter {
    var weiValue: Option<Decimal>

    /** The page opens at 1000000000 wei, one gwei. */
    constructor ()
      ensures weiValue == Some(Decimal(1000000000, 0))
    {
      weiValue := Some(Decimal(1000000000, 0));
    }

    /** `calculateValue(factor)`: the stored wei divided by 10^factor, rounded
        to `DecimalPlaces` fractional digits as BigNumber's `dividedBy` does,
        or the empty string when the field was cleared. */
    function CalculateValue(factor: nat): (r: string)
      reads this
      ensures r == "" <==> weiValue.None?
      ensures weiValue.Some? ==>
                var exact := ScaleDown(weiValue.value, factor);
                && ParseDecimal(r).Some?
                && SameValue(ParseDecimal(r).value, RoundHalfUp(exact, DecimalPlaces))
                && (exact.scale <= DecimalPlaces ==> SameValue(ParseDecimal(r).value, exact))
    {
      match weiValue
      case None => ""
      case Some(w) => ToFixed(RoundHalfUp(ScaleDown(w, factor), DecimalPlaces))
    }

    /** `handleInputChange(value, factor)`: an empty entry clears the stored
        amount; otherwise the entry is cleaned and parsed, and a number is
        stored multiplied by 10^factor, while anything else is ignored. */
    method HandleInputChange(value: string, factor: nat)
      modifies this
      ensures value == "" ==> weiValue == None && forall f: nat :: CalculateValue(f) == ""
      ensures value != "" && ParseDecimal(Clean(value)).None? ==> weiValue == old(weiValue)
      ensures value != "" && ParseDecimal(Clean(value)).Some? ==>
                weiValue == Some(ScaleUp(ParseDecimal(Clean(value)).value, factor))
      // Reading the edited unit back gives the entered number when that
      // number has no more than DecimalPlaces significant fractional digits.
      ensures value != "" && ParseDecimal(Clean(value)).Some? ==>
                var entered := ParseDecimal(Clean(value)).value;
                var shown := ParseDecimal(CalculateValue(factor));
                && shown.Some?
                && (Normalize(entered).scale <= DecimalPlaces ==> SameValue(shown.value, entered))
    {
      if value == "" {
        weiValue := None;
        return;
      }
      var cleanValue := Clean(value);
      var bn := ParseDecimal(cleanValue);
      if bn.None? {
        return;
      }
      weiValue := Some(ScaleUp(bn.value, factor));
      if Normalize(bn.value).scale <= DecimalPlaces {
        ReadBack(bn.value, factor);
      }
    }
  }

  /** Entering `x` in a unit and reading that unit gives `x` back, when `x`
      has no more than `DecimalPlaces` significant fractional digits. */
  lemma ReadBack(x: Decimal, factor: nat)
    requires Normalize(x).scale <= DecimalPlaces
    ensures var shown := ParseDecimal(ToFixed(RoundHalfUp(ScaleDown(ScaleUp(x, factor), factor), DecimalPlaces)));
            shown.Some? && SameValue(shown.value, x)
  {
    var y := ScaleDown(ScaleUp(x, factor), factor);
    var n := Normalize(x);
    ScaleDownUndoesScaleUp(x, factor);
    NormalizeSameValue(x);
    assert SameValue(x, n);
    SameValueTransitive(y, x, n);
    RoundExact(y, n, DecimalPlaces);
    var rounded := RoundHalfUp(y, DecimalPlaces);
    var shown := ParseDecimal(ToFixed(rounded));
    SameValueTransitive(shown.value, rounded, y);
    SameValueTransitive(shown.value, y, x);
  }

  /** Two amounts of the page: 0.123 wei shown in ether keeps twenty
      fractional digits, 0.00000000000000000012, and 10^-21 wei shown in
      wei rounds to 0. */
  lemma RoundingExamples()
    ensures RoundHalfUp(ScaleDown(Decimal(123, 3), 18), DecimalPlaces) == Decimal(12, 20)
    ensures RoundHalfUp(ScaleDown(Decimal(1, 21), 0), DecimalPlaces) == Decimal(0, 20)
  {
    assert Pow10(1) == 10;
  }

  lemma SameValueTransitive(a: Decimal, b: Decimal, c: Decimal)
    requires SameValue(a, b) && SameValue(b, c)
    ensures SameValue(a, c)
  {
    var pa, pb, pc := Pow10(a.scale), Pow10(b.scale), Pow10(c.scale);
    ChainProducts(a.mantissa, b.mantissa, c.mantissa, pa, pb, pc);
  }

  /** Cross-multiplication is transitive for positive denominators. */
  lemma ChainProducts(x: int, y: int, z: int, px: int, py: int, pz: int)
    requires px > 0 && py > 0 && pz > 0
    requires x * py == y * px && y * pz == z * py
    ensures x * pz == z * px
  {
    calc {
      x * pz * py;
      (x * py) * pz;
      (y * px) * pz;
      (y * pz) * px;
      (z * py) * px;
      z * px * py;
    }
    Cancel(x * pz, z * px, py);
  }

  /** Every character of `s` survives cleaning. */
  predicate AllKept(s: string)
  {
    forall i | 0 <= i < |s| :: Kept(s[i])
  }

  lemma AllKeptConcat(a: string, b: string)
    requires AllKept(a) && AllKept(b)
    ensures AllKept(a + b)
  {
    forall i | 0 <= i < |a + b|
      ensures Kept((a + b)[i])
    {
      if i >= |a| {
        assert (a + b)[i] == b[i - |a|];
      }
    }
  }

  /** Plain notation uses only characters the cleaning keeps. */
  lemma PlainKept(negative: bool, whole: string, frac: string)
    requires AllDigits(whole) && AllDigits(frac)
    ensures AllKept(Plain(negative, whole, frac))
  {
    var sign := if negative then "-" else "";
    var tail := if |frac| > 0 then "." + frac else "";
    assert AllKept(sign) && AllKept(whole);
    if |frac| > 0 {
      AllKeptConcat(".", frac);
    }
    AllKeptConcat(sign, whole);
    AllKeptConcat(sign + whole, tail);
  }

  /** What the converter shows passes through cleaning unchanged, so it is
      read back as shown. */
  lemma DisplayIsClean(x: Decimal)
    ensures Clean(ToFixed(x)) == ToFixed(x)
  {
    assert ToFixed(x) == Render(Normalize(x));
    RenderKept(Normalize(x));
    CleanKeepsAllowed(ToFixed(x));
  }

  /** Plain notation uses only digits, `.` and `-`. */
  lemma RenderKept(n: Decimal)
    ensures AllKept(Render(n))
  {
    var magnitude: nat := if n.mantissa < 0 then -n.mantissa else n.mantissa;
    assert Render(n) == Plain(n.mantissa < 0, NatDigits(QuotPow(magnitude, n.scale)), PadDigits(magnitude, n.scale));
    NatDigitsSpell(QuotPow(magnitude, n.scale));
    PadDigitsSpell(magnitude, n.scale);
    PlainKept(n.mantissa < 0, NatDigits(QuotPow(magnitude, n.scale)), PadDigits(magnitude, n.scale));
  }
}
