/** The write fee per kilobyte as a function of the bucket list size. */
module WriteFee {
  import opened Common
  import opened Fees

  datatype WriteFeeConfig = WriteFeeConfig(targetSize: i64, low: i64, high: i64, growthFactor: u32)

  /** Negative values stand for errors and become the largest fee. */
  function ClampFee(x: int): (r: i64)
    ensures r >= 0
  {
    if x < 0 || x > I64_MAX then I64_MAX else x
  }

  function Multiplier(c: WriteFeeConfig): i64 {
    ClampFee(Sat64(c.high - c.low))
  }

  function BelowTarget(size: i64, c: WriteFeeConfig): i64 {
    Sat64(ClampFee(CeilDiv(Sat128(Multiplier(c) * size), Max(c.targetSize, 1))) + c.low)
  }

  function PastTarget(size: i64, c: WriteFeeConfig): i64 {
    var over := Sat64(size - c.targetSize);
    Sat64(c.high + ClampFee(CeilDiv(Sat128(Sat128(Multiplier(c) * over) * c.growthFactor), Max(c.targetSize, 1))))
  }

  function WriteFeePer1kb(size: i64, c: WriteFeeConfig): i64 {
    Max(if size < c.targetSize then BelowTarget(size, c) else PastTarget(size, c), MINIMUM_WRITE_FEE_PER_1KB)
  }

  /** A configuration as the network sets it. */
  predicate Sane(c: WriteFeeConfig) {
    c.targetSize > 0 && c.low <= c.high
  }

  lemma {:induction false} ClampMono(x: int, y: int)
    requires 0 <= x <= y
    ensures ClampFee(x) <= ClampFee(y)
  {
  }

  lemma {:induction false} BelowMono(a: i64, b: i64, c: WriteFeeConfig)
    requires Sane(c) && 0 <= a <= b < c.targetSize
    ensures BelowTarget(a, c) <= BelowTarget(b, c)
  {
    var k := Multiplier(c);
    MulLe(0, a, k);
    MulLe(a, b, k);
    CeilBetween(Sat128(k * a), c.targetSize);
    CeilMono(Sat128(k * a), Sat128(k * b), c.targetSize);
    ClampMono(CeilDiv(Sat128(k * a), c.targetSize), CeilDiv(Sat128(k * b), c.targetSize));
  }

  /** Below the target the fee stays between the low and the high fee. */
  lemma {:induction false} BelowBounded(a: i64, c: WriteFeeConfig)
    requires Sane(c) && 0 <= a < c.targetSize
    ensures c.low <= BelowTarget(a, c) <= c.high
  {
    var k := Multiplier(c);
    MulLe(0, a, k);
    MulLe(a, c.targetSize, k);
    assert k * a <= k * c.targetSize;
    var q := CeilDiv(Sat128(k * a), c.targetSize);
    CeilBetween(Sat128(k * a), c.targetSize);
    MulOrder(q - 1, k, c.targetSize);
  }

  lemma {:induction false} PastMono(a: i64, b: i64, c: WriteFeeConfig)
    requires Sane(c) && c.targetSize <= a <= b
    ensures c.high <= PastTarget(a, c) <= PastTarget(b, c)
  {
    var k, g := Multiplier(c), c.growthFactor;
    var x, y := a - c.targetSize, b - c.targetSize;
    MulLe(0, x, k);
    MulLe(x, y, k);
    var x1, y1 := Sat128(k * x), Sat128(k * y);
    MulLe(0, x1, g);
    MulLe(x1, y1, g);
    var x2, y2 := Sat128(x1 * g), Sat128(y1 * g);
    CeilBetween(x2, c.targetSize);
    CeilMono(x2, y2, c.targetSize);
    ClampMono(CeilDiv(x2, c.targetSize), CeilDiv(y2, c.targetSize));
  }

  /**
    * A larger bucket list never makes writing cheaper, across the target and through both saturations; and below the
    * target writing costs at most the high fee or the minimum.
    */
  lemma {:induction false} WriteFeeMonotone(a: i64, b: i64, c: WriteFeeConfig)
    requires Sane(c) && 0 <= a <= b
    ensures WriteFeePer1kb(a, c) <= WriteFeePer1kb(b, c)
    ensures a < c.targetSize ==>
              Max(c.low, MINIMUM_WRITE_FEE_PER_1KB) <= WriteFeePer1kb(a, c) <= Max(c.high, MINIMUM_WRITE_FEE_PER_1KB)
    ensures a >= c.targetSize ==> WriteFeePer1kb(a, c) >= Max(c.high, MINIMUM_WRITE_FEE_PER_1KB)
  {
    if a < c.targetSize { BelowBounded(a, c); }
    if b < c.targetSize {
      BelowMono(a, b, c);
    } else if c.targetSize <= a {
      PastMono(a, b, c);
    } else {
      PastMono(b, b, c);
    }
  }

  // ---------- negative sizes ----------

  /** A small enough negative size rounds to nothing, any other to a negative quotient, which stands for an error. */
  lemma {:induction false} NegativeQuotient(a: i64, c: WriteFeeConfig)
    requires Sane(c) && a < 0
    ensures Sat128(Multiplier(c) * a) == Multiplier(c) * a <= 0
    ensures var q := CeilDiv(Sat128(Multiplier(c) * a), c.targetSize);
      if Multiplier(c) * a + c.targetSize > 0 then q == 0 else q < 0
  {
    var k, n := Multiplier(c), 0 - a as int;
    MulLe(0, k, n);
    MulLe(k, I64_MAX, n);
    MulLe(n, 0 - I64_MIN, I64_MAX);
    assert k * a == -(k * n);
    var q := CeilDiv(k * a, c.targetSize);
    CeilBetween(k * a, c.targetSize);
    if k * a + c.targetSize > 0 {
      assert -1 * c.targetSize == 0 - c.targetSize;
      MulOrder(-1, q, c.targetSize);
    } else {
      assert -1 * c.targetSize == 0 - c.targetSize;
      MulOrder(q - 1, -1, c.targetSize);
    }
  }

  lemma {:induction false} NegativeFee(a: i64, c: WriteFeeConfig)
    requires Sane(c) && a < 0
    ensures WriteFeePer1kb(a, c) ==
      Max(if Multiplier(c) * a + c.targetSize > 0 then c.low else Sat64(I64_MAX + c.low), MINIMUM_WRITE_FEE_PER_1KB)
  {
    NegativeQuotient(a, c);
  }

  lemma {:induction false} FeeAtLeastLow(b: i64, c: WriteFeeConfig)
    requires Sane(c) && b >= 0
    ensures WriteFeePer1kb(b, c) >= Max(c.low, MINIMUM_WRITE_FEE_PER_1KB)
  {
    WriteFeeMonotone(b, b, c);
  }

  lemma {:induction false} FeeOfNothing(c: WriteFeeConfig)
    requires Sane(c)
    ensures WriteFeePer1kb(0, c) == Max(c.low, MINIMUM_WRITE_FEE_PER_1KB)
  {
    assert Multiplier(c) * 0 == 0;
    CeilBetween(0, c.targetSize);
  }

  /** The negative size rounds to nothing, or the low fee is so negative that the minimum hides the error. */
  predicate ChargedSanely(a: i64, c: WriteFeeConfig) {
    Multiplier(c) * a + c.targetSize > 0 || c.low <= MINIMUM_WRITE_FEE_PER_1KB - I64_MAX
  }

  lemma {:induction false} SaneFromNegative(a: i64, b: i64, c: WriteFeeConfig)
    requires Sane(c) && a < 0 && a <= b && ChargedSanely(a, c)
    ensures WriteFeePer1kb(a, c) <= WriteFeePer1kb(b, c)
  {
    NegativeFee(a, c);
    if b < 0 {
      NegativeFee(b, c);
      MulLe(a, b, Multiplier(c));
    } else {
      FeeAtLeastLow(b, c);
    }
  }

  lemma {:induction false} InsaneFromNegative(a: i64, c: WriteFeeConfig)
    requires Sane(c) && a < 0 && !ChargedSanely(a, c)
    ensures WriteFeePer1kb(a, c) > WriteFeePer1kb(0, c)
  {
    NegativeFee(a, c);
    FeeOfNothing(c);
    assert c.low == I64_MAX ==> Multiplier(c) == 0;
  }

  /** From a size on, a larger bucket list never makes writing cheaper, exactly when that size is charged sanely. */
  lemma {:induction false} MonotoneFromIff(a: i64, c: WriteFeeConfig)
    requires Sane(c)
    ensures (forall b: i64 | a <= b :: WriteFeePer1kb(a, c) <= WriteFeePer1kb(b, c)) <==> ChargedSanely(a, c)
  {
    if a >= 0 {
      MulLe(0, a, Multiplier(c));
      forall b: i64 | a <= b ensures WriteFeePer1kb(a, c) <= WriteFeePer1kb(b, c) { WriteFeeMonotone(a, b, c); }
    } else if ChargedSanely(a, c) {
      forall b: i64 | a <= b ensures WriteFeePer1kb(a, c) <= WriteFeePer1kb(b, c) { SaneFromNegative(a, b, c); }
    } else {
      InsaneFromNegative(a, c);
    }
  }

  /** A negative size can be charged the largest fee there is. */
  lemma NegativeSizeIsCharged()
    ensures var c := WriteFeeConfig(10, 1000, 2000, 1);
      Sane(c) && WriteFeePer1kb(-20, c) == I64_MAX && WriteFeePer1kb(0, c) == 1000
  {
  }
}
