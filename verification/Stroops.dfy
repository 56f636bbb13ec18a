/** Decimal amounts and their value in stroops (seven decimal places). */
module Stroops {
  import opened Common

  const I128_MAX: nat := 170141183460469231731687303715884105727
  const STROOPS_PER_UNIT: nat := 10000000

  // ---------- characters and digits ----------

  predicate IsDigit(c: char) {
    '0' <= c <= '9'
  }

  predicate AllDigits(s: string) {
    forall i :: 0 <= i < |s| ==> IsDigit(s[i])
  }

  function DigitChar(d: nat): (c: char)
    requires d < 10
    ensures IsDigit(c) && DigitOf(c) == d
  {
    ('0' as int + d) as char
  }

  function DigitOf(c: char): (d: nat)
    requires IsDigit(c)
    ensures d < 10
  {
    c as int - '0' as int
  }

  /** The white space and line terminators that `String.prototype.trim` removes. */
  predicate IsSpace(c: char) {
    || '\U{0009}' <= c <= '\U{000D}'
    || c in {' ', '\U{00A0}', '\U{1680}', '\U{2028}', '\U{2029}', '\U{202F}', '\U{205F}', '\U{3000}', '\U{FEFF}'}
    || '\U{2000}' <= c <= '\U{200A}'
  }

  function Trim(s: string): string {
    if s == "" then s
    else if IsSpace(s[0]) then Trim(s[1..])
    else if IsSpace(s[|s| - 1]) then Trim(s[..|s| - 1])
    else s
  }

  /** The index of the first decimal point, or the length of the string. */
  function PointIndex(s: string): (i: nat)
    ensures i <= |s| && (i < |s| ==> s[i] == '.') && forall j :: 0 <= j < i ==> s[j] != '.'
  {
    if s == "" || s[0] == '.' then 0 else 1 + PointIndex(s[1..])
  }

  /** The integer a string of digits denotes. */
  function Value(s: string): nat
    requires AllDigits(s)
  {
    if s == "" then 0 else 10 * Value(s[..|s| - 1]) + DigitOf(s[|s| - 1])
  }

  function Digits(n: nat): (s: string)
    ensures AllDigits(s) && s != ""
  {
    if n < 10 then [DigitChar(n)] else Digits(n / 10) + [DigitChar(n % 10)]
  }

  function Show(n: int): string {
    if n < 0 then "-" + Digits(-n) else Digits(n)
  }

  function Zeros(n: nat): (s: string)
    ensures |s| == n && AllDigits(s) && forall i :: 0 <= i < n ==> s[i] == '0'
  {
    seq(n, _ => '0')
  }

  function PadStart(s: string, n: nat): string {
    if |s| >= n then s else Zeros(n - |s|) + s
  }

  function PadEnd(s: string, n: nat): string {
    if |s| >= n then s else s + Zeros(n - |s|)
  }

  /** Without the trailing zeros. */
  function StripEnd(s: string): string {
    if s != "" && s[|s| - 1] == '0' then StripEnd(s[..|s| - 1]) else s
  }

  // ---------- the two conversions ----------

  /** Division of big integers rounds towards zero. */
  function Quotient(a: int, b: nat): int
    requires b > 0
  {
    if a < 0 then -((-a) / b) else a / b
  }

  function Remainder(a: int, b: nat): int
    requires b > 0
  {
    if a < 0 then -((-a) % b) else a % b
  }

  /** One or more digits, then possibly a point and one or more digits. */
  predicate IsDecimal(s: string) {
    var p := PointIndex(s);
    p > 0 && AllDigits(s[..p]) && (p < |s| ==> p + 1 < |s| && AllDigits(s[p + 1..]))
  }

  function ToStroops(amount: string): Result<nat> {
    var text := Trim(amount);
    var negative := text != "" && text[0] == '-';
    if !IsDecimal(if negative then text[1..] else text) then Panic("Amount must be a decimal string")
    else if negative then Panic("Amount must be non-negative")
    else
      var p := PointIndex(text);
      var whole, frac := text[..p], if p < |text| then text[p + 1..] else "";
      if |frac| > 7 then Result<nat>.Panic("Amount has more than 7 decimal places (sub-stroop precision)")
      else
        assert AllDigits(PadEnd(frac, 7));
        var stroops: nat := Value(whole) * STROOPS_PER_UNIT + Value(PadEnd(frac, 7));
        if stroops > I128_MAX then Panic("Amount exceeds the maximum i128 value") else Ok(stroops)
  }

  /** Whole and fraction, with a point between them when there is a fraction. */
  function WithPoint(whole: string, frac: string): string {
    if |frac| > 0 then whole + "." + frac else whole
  }

  function FromStroops(stroops: int): string {
    var whole := Quotient(stroops, STROOPS_PER_UNIT);
    var frac := Remainder(stroops, STROOPS_PER_UNIT);
    var fracText := StripEnd(PadStart(Show(frac), 7));
    WithPoint(Show(whole), fracText)
  }
}

/** The conversions agree with the value of a decimal and are inverse to each other. */
module StroopsProofs {
  import opened Common
  import opened Stroops

  // ---------- digits and values ----------

  lemma {:induction false} ValueOfDigits(n: nat)
    ensures Value(Digits(n)) == n
  {
    if n < 10 {
      assert [DigitChar(n)][..0] == "";
    } else {
      ValueOfDigits(n / 10);
      var s := Digits(n);
      assert s[..|s| - 1] == Digits(n / 10);
    }
  }

  lemma {:induction false} ValueSnoc(s: string, c: char)
    requires AllDigits(s) && IsDigit(c)
    ensures AllDigits(s + [c]) && Value(s + [c]) == 10 * Value(s) + DigitOf(c)
  {
    assert (s + [c])[..|s|] == s;
  }

  function Pow10(n: nat): nat {
    if n == 0 then 1 else 10 * Pow10(n - 1)
  }

  lemma TenTimes(a: nat, b: nat)
    ensures 10 * (a * b) == a * (10 * b)
  {
  }

  lemma {:induction false} ValueZerosAfter(s: string, n: nat)
    requires AllDigits(s)
    ensures AllDigits(s + Zeros(n)) && Value(s + Zeros(n)) == Value(s) * Pow10(n)
  {
    if n == 0 {
      assert s + Zeros(0) == s;
    } else {
      ValueZerosAfter(s, n - 1);
      assert s + Zeros(n) == s + Zeros(n - 1) + ['0'];
      ValueSnoc(s + Zeros(n - 1), '0');
      TenTimes(Value(s), Pow10(n - 1));
    }
  }

  lemma {:induction false} ValueZerosBefore(s: string, n: nat)
    requires AllDigits(s)
    ensures AllDigits(Zeros(n) + s) && Value(Zeros(n) + s) == Value(s)
  {
    if s == "" {
      assert Zeros(n) + s == "" + Zeros(n);
      ValueZerosAfter("", n);
    } else {
      var front, c := s[..|s| - 1], s[|s| - 1];
      ValueZerosBefore(front, n);
      assert Zeros(n) + s == Zeros(n) + front + [c];
      ValueSnoc(Zeros(n) + front, c);
    }
  }

  lemma {:induction false} ValueBound(s: string)
    requires AllDigits(s)
    ensures Value(s) < Pow10(|s|)
  {
    if s != "" { ValueBound(s[..|s| - 1]); }
  }

  lemma {:induction false} DigitsLength(n: nat, k: nat)
    requires k > 0 && n < Pow10(k)
    ensures |Digits(n)| <= k
  {
    if n >= 10 { DigitsLength(n / 10, k - 1); }
  }

  lemma LastDigit(x: nat, d: nat, y: nat, e: nat)
    requires d < 10 && e < 10 && 10 * x + d == 10 * y + e
    ensures x == y && d == e
  {
  }

  lemma EqualByParts(a: string, b: string)
    requires a != "" && |a| == |b| && AllDigits(a) && AllDigits(b)
    requires a[..|a| - 1] == b[..|a| - 1] && DigitOf(a[|a| - 1]) == DigitOf(b[|a| - 1])
    ensures a == b
  {
    assert a == a[..|a| - 1] + [a[|a| - 1]] && b == b[..|a| - 1] + [b[|a| - 1]];
  }

  /** Digit strings of one length are told apart by their values. */
  lemma {:induction false} SameValueSameDigits(a: string, b: string)
    requires AllDigits(a) && AllDigits(b) && |a| == |b| && Value(a) == Value(b)
    ensures a == b
  {
    if a != "" {
      var n := |a| - 1;
      LastDigit(Value(a[..n]), DigitOf(a[n]), Value(b[..n]), DigitOf(b[n]));
      SameValueSameDigits(a[..n], b[..n]);
      EqualByParts(a, b);
    }
  }

  /** Without leading zeros, but never empty. */
  function StripStart(s: string): string {
    if |s| > 1 && s[0] == '0' then StripStart(s[1..]) else s
  }

  lemma {:induction false} ValuePositive(s: string)
    requires AllDigits(s) && s != "" && s[0] != '0'
    ensures Value(s) > 0
  {
    if |s| > 1 { ValuePositive(s[..|s| - 1]); }
  }

  /** A number without leading zeros is written as itself. */
  lemma {:induction false} DigitsOfValue(s: string)
    requires AllDigits(s) && s != ""
    requires |s| == 1 || s[0] != '0'
    ensures Digits(Value(s)) == s
  {
    var n := |s| - 1;
    assert s == s[..n] + [s[n]];
    if n > 0 {
      ValuePositive(s[..n]);
      DigitsOfValue(s[..n]);
    }
  }

  lemma {:induction false} DigitsOfStripped(s: string)
    requires AllDigits(s) && s != ""
    ensures Digits(Value(s)) == StripStart(s)
  {
    if |s| > 1 && s[0] == '0' {
      assert s == Zeros(1) + s[1..];
      ValueZerosBefore(s[1..], 1);
      DigitsOfStripped(s[1..]);
    } else {
      DigitsOfValue(s);
    }
  }

  lemma {:induction false} StripEndIgnoresZeros(s: string, n: nat)
    ensures StripEnd(s + Zeros(n)) == StripEnd(s)
  {
    if n == 0 {
      assert s + Zeros(0) == s;
    } else {
      assert (s + Zeros(n))[..|s| + n - 1] == s + Zeros(n - 1);
      StripEndIgnoresZeros(s, n - 1);
    }
  }

  lemma {:induction false} StripEndShape(s: string)
    ensures |StripEnd(s)| <= |s| && s == StripEnd(s) + Zeros(|s| - |StripEnd(s)|)
  {
    if s != "" && s[|s| - 1] == '0' {
      var front := s[..|s| - 1];
      StripEndShape(front);
      assert s == front + ['0'];
      assert Zeros(|s| - |StripEnd(s)|) == Zeros(|front| - |StripEnd(front)|) + ['0'];
    }
  }

  // ---------- the grammar ----------

  /** `text` is the decimal with these digits before and after the point. */
  ghost predicate Reads(text: string, whole: string, frac: string) {
    && whole != "" && AllDigits(whole) && AllDigits(frac)
    && text == if frac == "" then whole else whole + "." + frac
  }

  /** The value of a decimal with at most seven places, in stroops. */
  function StroopsOf(whole: string, frac: string): nat
    requires AllDigits(whole) && AllDigits(frac) && |frac| <= 7
  {
    Value(whole) * STROOPS_PER_UNIT + Value(frac) * Pow10(7 - |frac|)
  }

  lemma {:induction false} PointOf(text: string, p: nat)
    requires p <= |text| && (p < |text| ==> text[p] == '.') && forall j :: 0 <= j < p ==> text[j] != '.'
    ensures PointIndex(text) == p
  {
  }

  lemma {:induction false} ReadsIsDecimal(text: string, whole: string, frac: string)
    requires Reads(text, whole, frac)
    ensures IsDecimal(text) && text[0] != '-' && !IsSpace(text[0]) && !IsSpace(text[|text| - 1])
    ensures PointIndex(text) == |whole| && text[..|whole|] == whole
    ensures frac == if |whole| < |text| then text[|whole| + 1..] else ""
  {
    assert forall j :: 0 <= j < |whole| ==> text[j] == whole[j] && IsDigit(text[j]);
    PointOf(text, |whole|);
    assert IsDigit(text[|text| - 1]);
  }

  lemma {:induction false} PaddedValue(frac: string)
    requires AllDigits(frac) && |frac| <= 7
    ensures AllDigits(PadEnd(frac, 7)) && Value(PadEnd(frac, 7)) == Value(frac) * Pow10(7 - |frac|)
    ensures PadEnd(frac, 7) == frac + Zeros(7 - |frac|)
  {
    ValueZerosAfter(frac, 7 - |frac|);
    if |frac| == 7 { assert frac + Zeros(0) == frac; }
  }

  lemma {:induction false} ToStroopsReads(amount: string, whole: string, frac: string)
    requires Reads(Trim(amount), whole, frac)
    ensures ToStroops(amount) ==
      if |frac| > 7 then Result<nat>.Panic("Amount has more than 7 decimal places (sub-stroop precision)")
      else if StroopsOf(whole, frac) > I128_MAX then Panic("Amount exceeds the maximum i128 value")
      else Ok(StroopsOf(whole, frac))
  {
    ReadsIsDecimal(Trim(amount), whole, frac);
    if |frac| <= 7 { PaddedValue(frac); }
  }

  /**
    * A string is accepted exactly when, trimmed, it is digits with at most seven more after a point and its value fits
    * in an i128; and the result is then that value in stroops, exactly.
    */
  lemma {:induction false} AcceptedIffExact(amount: string, n: nat)
    ensures ToStroops(amount) == Ok(n) <==>
              n <= I128_MAX
              && exists whole, frac :: Reads(Trim(amount), whole, frac) && |frac| <= 7 && n == StroopsOf(whole, frac)
  {
    var text := Trim(amount);
    if ToStroops(amount) == Ok(n) {
      var p := PointIndex(text);
      var whole, frac := text[..p], if p < |text| then text[p + 1..] else "";
      assert Reads(text, whole, frac) by {
        if p < |text| { assert text == whole + "." + frac; }
      }
      ToStroopsReads(amount, whole, frac);
    }
    if exists whole, frac :: Reads(text, whole, frac) && |frac| <= 7 && n == StroopsOf(whole, frac) {
      var whole, frac :| Reads(text, whole, frac) && |frac| <= 7 && n == StroopsOf(whole, frac);
      ToStroopsReads(amount, whole, frac);
    }
  }

  /** `StroopsOf` is the decimal's value times ten to the seventh: digits over a power of ten, without rounding. */
  lemma {:induction false} StroopsOfIsExact(whole: string, frac: string)
    requires AllDigits(whole) && AllDigits(frac) && |frac| <= 7
    ensures AllDigits(whole + frac)
    ensures StroopsOf(whole, frac) * Pow10(|frac|) == Value(whole + frac) * STROOPS_PER_UNIT
  {
    ValueConcat(whole, frac);
    PowAdd(7 - |frac|, |frac|);
    assert Pow10(7) == STROOPS_PER_UNIT by { PowSeven(); }
    var w, f, k, m := Value(whole), Value(frac), Pow10(7 - |frac|), Pow10(|frac|);
    assert (w * (k * m) + f * k) * m == (w * m + f) * (k * m) by { Distribute(w, f, k, m); }
  }

  lemma PowSeven()
    ensures Pow10(7) == STROOPS_PER_UNIT
  {
    assert Pow10(3) == 1000;
    assert Pow10(6) == 1000000;
  }

  lemma Distribute(w: nat, f: nat, k: nat, m: nat)
    ensures (w * (k * m) + f * k) * m == (w * m + f) * (k * m)
  {
    var km := k * m;
    assert (w * km + f * k) * m == w * km * m + f * k * m;
    assert (w * m + f) * km == w * m * km + f * km;
    assert w * km * m == w * m * km;
    assert f * k * m == f * km;
  }

  lemma {:induction false} PowAdd(a: nat, b: nat)
    ensures Pow10(a) * Pow10(b) == Pow10(a + b)
  {
    if a > 0 {
      PowAdd(a - 1, b);
      assert Pow10(a) * Pow10(b) == 10 * (Pow10(a - 1) * Pow10(b));
    }
  }

  lemma ShiftTen(x: nat, y: nat, z: nat)
    ensures 10 * (x * y + z) == x * (10 * y) + 10 * z
  {
  }

  lemma {:induction false} ValueConcat(a: string, b: string)
    requires AllDigits(a) && AllDigits(b)
    ensures AllDigits(a + b) && Value(a + b) == Value(a) * Pow10(|b|) + Value(b)
  {
    if b == "" {
      assert a + b == a;
    } else {
      var front, c := b[..|b| - 1], b[|b| - 1];
      ValueConcat(a, front);
      assert a + b == a + front + [c];
      ValueSnoc(a + front, c);
      ShiftTen(Value(a), Pow10(|front|), Value(front));
    }
  }

  // ---------- printing ----------

  /** The decimal without leading zeros, trailing zeros or an idle point. */
  function Canonical(whole: string, frac: string): string {
    StripStart(whole) + if StripEnd(frac) == "" then "" else "." + StripEnd(frac)
  }

  lemma {:induction false} FractionText(v: nat)
    requires v < STROOPS_PER_UNIT
    ensures var s := PadStart(Digits(v), 7); |s| == 7 && AllDigits(s) && Value(s) == v
  {
    PowSeven();
    DigitsLength(v, 7);
    ValueOfDigits(v);
    ValueZerosBefore(Digits(v), 7 - |Digits(v)|);
    if |Digits(v)| == 7 { assert Zeros(0) + Digits(v) == Digits(v); }
  }

  lemma QuotientAndRest(w: nat, v: nat)
    requires v < STROOPS_PER_UNIT
    ensures (w * STROOPS_PER_UNIT + v) / STROOPS_PER_UNIT == w && (w * STROOPS_PER_UNIT + v) % STROOPS_PER_UNIT == v
  {
  }

  lemma PartsOf(w: nat, v: nat)
    requires v < STROOPS_PER_UNIT
    ensures Quotient(w * STROOPS_PER_UNIT + v, STROOPS_PER_UNIT) == w
    ensures Remainder(w * STROOPS_PER_UNIT + v, STROOPS_PER_UNIT) == v
  {
    QuotientAndRest(w, v);
  }

  lemma PrintedParts(n: nat, w: nat, v: nat)
    requires Quotient(n, STROOPS_PER_UNIT) == w && Remainder(n, STROOPS_PER_UNIT) == v
    ensures FromStroops(n) == WithPoint(Digits(w), StripEnd(PadStart(Digits(v), 7)))
  {
  }

  lemma Pointed(whole: string, frac: string)
    ensures WithPoint(whole, frac) == whole + if frac == "" then "" else "." + frac
  {
  }

  /** What is printed for `w` units and `v` stroops. */
  lemma {:induction false} Printed(w: nat, v: nat)
    requires v < STROOPS_PER_UNIT
    ensures var frac := StripEnd(PadStart(Digits(v), 7));
      FromStroops(w * STROOPS_PER_UNIT + v) == Digits(w) + if frac == "" then "" else "." + frac
  {
    PartsOf(w, v);
    PrintedParts(w * STROOPS_PER_UNIT + v, w, v);
    Pointed(Digits(w), StripEnd(PadStart(Digits(v), 7)));
  }

  lemma {:induction false} FractionDigits(frac: string)
    requires AllDigits(frac) && |frac| <= 7
    ensures AllDigits(PadEnd(frac, 7)) && Value(PadEnd(frac, 7)) < STROOPS_PER_UNIT
    ensures StripEnd(PadStart(Digits(Value(PadEnd(frac, 7))), 7)) == StripEnd(frac)
  {
    var padded := PadEnd(frac, 7);
    PaddedValue(frac);
    ValueBound(padded);
    PowSeven();
    FractionText(Value(padded));
    SameValueSameDigits(PadStart(Digits(Value(padded)), 7), padded);
    StripEndIgnoresZeros(frac, 7 - |frac|);
  }

  /** Printing what a decimal is worth gives its canonical form. */
  lemma {:induction false} PrintsCanonical(whole: string, frac: string)
    requires whole != "" && AllDigits(whole) && AllDigits(frac) && |frac| <= 7
    ensures FromStroops(StroopsOf(whole, frac)) == Canonical(whole, frac)
  {
    FractionDigits(frac);
    PaddedValue(frac);
    Printed(Value(whole), Value(PadEnd(frac, 7)));
    DigitsOfStripped(whole);
  }

  /** Whatever is accepted is printed back in canonical form. */
  lemma {:induction false} FromStroopsOfAccepted(amount: string)
    requires ToStroops(amount).Ok?
    ensures exists whole, frac :: Reads(Trim(amount), whole, frac) && |frac| <= 7
              && FromStroops(ToStroops(amount).value) == Canonical(whole, frac)
  {
    AcceptedIffExact(amount, ToStroops(amount).value);
    var whole, frac :| Reads(Trim(amount), whole, frac) && |frac| <= 7
      && ToStroops(amount).value == StroopsOf(whole, frac);
    PrintsCanonical(whole, frac);
  }

  // ---------- the round trip ----------

  lemma {:induction false} FractionReads(v: nat)
    requires v < STROOPS_PER_UNIT
    ensures var frac := StripEnd(PadStart(Digits(v), 7));
      |frac| <= 7 && AllDigits(frac) && Value(frac) * Pow10(7 - |frac|) == v
  {
    var padded := PadStart(Digits(v), 7);
    var frac := StripEnd(padded);
    FractionText(v);
    StripEndShape(padded);
    assert AllDigits(frac) by { assert forall i :: 0 <= i < |frac| ==> frac[i] == padded[i]; }
    ValueZerosAfter(frac, 7 - |frac|);
  }

  lemma TrimmedAlready(text: string, whole: string, frac: string)
    requires whole != "" && AllDigits(whole) && AllDigits(frac)
    requires text == whole + if frac == "" then "" else "." + frac
    ensures Reads(text, whole, frac) && Trim(text) == text
  {
    assert text == if frac == "" then whole else whole + "." + frac;
    ReadsIsDecimal(text, whole, frac);
  }

  lemma {:induction false} TextReads(text: string, w: nat, v: nat)
    requires v < STROOPS_PER_UNIT
    requires var frac := StripEnd(PadStart(Digits(v), 7)); text == Digits(w) + if frac == "" then "" else "." + frac
    ensures var frac := StripEnd(PadStart(Digits(v), 7));
      && Reads(text, Digits(w), frac) && Trim(text) == text
      && |frac| <= 7 && StroopsOf(Digits(w), frac) == w * STROOPS_PER_UNIT + v
  {
    FractionReads(v);
    ValueOfDigits(w);
    TrimmedAlready(text, Digits(w), StripEnd(PadStart(Digits(v), 7)));
  }

  /** The text printed for `w` units and `v` stroops reads back as those. */
  lemma {:induction false} PrintedReads(w: nat, v: nat)
    requires v < STROOPS_PER_UNIT
    ensures var n, frac := w * STROOPS_PER_UNIT + v, StripEnd(PadStart(Digits(v), 7));
      && Reads(FromStroops(n), Digits(w), frac) && Trim(FromStroops(n)) == FromStroops(n)
      && |frac| <= 7 && StroopsOf(Digits(w), frac) == n
  {
    Printed(w, v);
    TextReads(FromStroops(w * STROOPS_PER_UNIT + v), w, v);
  }

  lemma {:induction false} RoundTripNonNegative(n: nat)
    ensures ToStroops(FromStroops(n)) == if n <= I128_MAX then Ok(n) else Panic("Amount exceeds the maximum i128 value")
  {
    var w, v := n / STROOPS_PER_UNIT, n % STROOPS_PER_UNIT;
    PrintedReads(w, v);
    ToStroopsReads(FromStroops(n), Digits(w), StripEnd(PadStart(Digits(v), 7)));
  }

  lemma ReadsNoMinus(s: string, whole: string, frac: string)
    requires Reads(s, whole, frac)
    ensures '-' !in s
  {
    assert forall c :: c in s ==> IsDigit(c) || c == '.';
  }

  lemma {:induction false} AcceptedHasNoMinus(amount: string)
    requires ToStroops(amount).Ok?
    ensures '-' !in Trim(amount)
  {
    AcceptedIffExact(amount, ToStroops(amount).value);
    var whole, frac :| Reads(Trim(amount), whole, frac);
    ReadsNoMinus(Trim(amount), whole, frac);
  }

  lemma {:induction false} NegativeShowsMinus(n: int)
    requires n < 0
    ensures '-' in FromStroops(n)
  {
    var w, v := Quotient(n, STROOPS_PER_UNIT), Remainder(n, STROOPS_PER_UNIT);
    if w < 0 {
      assert FromStroops(n)[0] == '-';
    } else {
      MinusSurvives(v);
    }
  }

  lemma {:induction false} NegativeIsRejected(n: int)
    requires n < 0
    ensures ToStroops(FromStroops(n)).Panic?
  {
    NegativeShowsMinus(n);
    TrimKeepsInner(FromStroops(n));
    if ToStroops(FromStroops(n)).Ok? { AcceptedHasNoMinus(FromStroops(n)); }
  }

  lemma {:induction false} TrimKeepsInner(s: string)
    ensures forall c :: c in s && !IsSpace(c) ==> c in Trim(s)
  {
    if s == "" {
    } else if IsSpace(s[0]) {
      TrimKeepsInner(s[1..]);
    } else if IsSpace(s[|s| - 1]) {
      TrimKeepsInner(s[..|s| - 1]);
      assert s == s[..|s| - 1] + [s[|s| - 1]];
    }
  }

  lemma {:induction false} MinusSurvives(v: int)
    requires 0 - STROOPS_PER_UNIT < v < 0
    ensures '-' in StripEnd(PadStart(Show(v), 7))
  {
    var s := PadStart(Show(v), 7);
    assert Show(v)[0] == '-';
    assert '-' in s;
    StripEndShape(s);
    var t := StripEnd(s);
    var i :| 0 <= i < |s| && s[i] == '-';
    assert s == t + Zeros(|s| - |t|);
    assert i < |t|;
    assert t[i] == '-';
  }

  /** Converting to text and back is the identity exactly on the amounts a contract can hold. */
  lemma {:induction false} RoundTripIff(n: int)
    ensures ToStroops(FromStroops(n)).Ok? && ToStroops(FromStroops(n)).value == n <==> 0 <= n <= I128_MAX
  {
    if n < 0 { NegativeIsRejected(n); } else { RoundTripNonNegative(n); }
  }
}
