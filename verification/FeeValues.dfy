/** What is charged, as exact amounts, wherever nothing saturates. */
module FeeValues {
  import opened Common
  import opened Fees
  import opened FeePaths
  import opened WriteFee

  predicate Fits(x: int) {
    I64_MIN <= x <= I64_MAX
  }

  /** The rate denominator of the entry's own durability. */
  function RateDenominator(isPersistent: bool, c: RentConfig): int {
    if isPersistent then c.persistentDenominator else c.temporaryDenominator
  }

  lemma {:induction false} RentValue(isPersistent: bool, size: u32, ledgers: u32, c: RentConfig)
    requires RateDenominator(isPersistent, c) >= 1 && Fits(1024 * RateDenominator(isPersistent, c))
    requires Fits(size * c.feePerWrite1kb) && Fits(size * c.feePerWrite1kb * ledgers)
    ensures RentForSizeAndLedgers(isPersistent, size, ledgers, c)
         == CeilDiv(size * c.feePerWrite1kb * ledgers, 1024 * RateDenominator(isPersistent, c))
  {
  }

  /** A new entry pays for its whole size from the current ledger to its last one, both included. */
  lemma {:induction false} RentOfNew(e: RentChange, c: RentConfig, current: u32)
    requires e.oldSize == 0 && e.oldLiveUntil == 0 && 1 <= current <= e.newLiveUntil
    requires RateDenominator(e.isPersistent, c) >= 1 && Fits(1024 * RateDenominator(e.isPersistent, c))
    requires Fits(e.newSize * c.feePerWrite1kb)
    requires Fits(e.newSize * c.feePerWrite1kb * (e.newLiveUntil - current + 1))
    ensures RentPerEntryChange(e, c, current)
         == CeilDiv(e.newSize * c.feePerWrite1kb * (e.newLiveUntil - current + 1),
                    1024 * RateDenominator(e.isPersistent, c))
  {
    var ledgers := e.newLiveUntil - (current - 1);
    RentValue(e.isPersistent, e.newSize, ledgers, c);
    assert ExtensionLedgers(e, current) == Some(ledgers);
  }

  /** The ledgers added, if any. */
  function Added(e: RentChange): nat {
    Max(0, e.newLiveUntil - e.oldLiveUntil)
  }

  /** The ledgers already paid for that are still to come, the current one included. */
  function Prepaid(e: RentChange, current: u32): nat {
    Max(0, e.oldLiveUntil - current + 1)
  }

  function Grown(e: RentChange): nat {
    Max(0, e.newSize - e.oldSize)
  }

  lemma {:induction false} RentOfExtension(e: RentChange, c: RentConfig, current: u32)
    requires e.oldSize > 0 || e.oldLiveUntil > 0
    requires RateDenominator(e.isPersistent, c) >= 1 && Fits(1024 * RateDenominator(e.isPersistent, c))
    requires Fits(e.newSize * c.feePerWrite1kb) && Fits(e.newSize * c.feePerWrite1kb * Added(e))
    ensures (match ExtensionLedgers(e, current)
             case None => 0
             case Some(ledgers) => RentForSizeAndLedgers(e.isPersistent, e.newSize, ledgers, c))
         == CeilDiv(e.newSize * c.feePerWrite1kb * Added(e), 1024 * RateDenominator(e.isPersistent, c))
  {
    RentValue(e.isPersistent, e.newSize, Added(e), c);
    CeilBetween(0, 1024 * RateDenominator(e.isPersistent, c));
  }

  lemma {:induction false} RentOfGrowth(e: RentChange, c: RentConfig, current: u32)
    requires e.oldSize > 0 || e.oldLiveUntil > 0
    requires RateDenominator(e.isPersistent, c) >= 1 && Fits(1024 * RateDenominator(e.isPersistent, c))
    requires Prepaid(e, current) <= U32_MAX
    requires Fits(Grown(e) * c.feePerWrite1kb) && Fits(Grown(e) * c.feePerWrite1kb * Prepaid(e, current))
    ensures (match (PrepaidLedgers(e, current), SizeIncrease(e))
             case (Some(ledgers), Some(size)) => RentForSizeAndLedgers(e.isPersistent, size, ledgers, c)
             case _ => 0)
         == CeilDiv(Grown(e) * c.feePerWrite1kb * Prepaid(e, current), 1024 * RateDenominator(e.isPersistent, c))
  {
    RentValue(e.isPersistent, Grown(e), Prepaid(e, current), c);
    CeilBetween(0, 1024 * RateDenominator(e.isPersistent, c));
  }

  /** An existing entry, expired or not, pays for added ledgers at its new size and tops up those already paid for. */
  lemma {:induction false} RentOfExisting(e: RentChange, c: RentConfig, current: u32)
    requires e.oldSize > 0 || e.oldLiveUntil > 0
    requires RateDenominator(e.isPersistent, c) >= 1 && Fits(1024 * RateDenominator(e.isPersistent, c))
    requires Prepaid(e, current) <= U32_MAX
    requires Fits(e.newSize * c.feePerWrite1kb) && Fits(e.newSize * c.feePerWrite1kb * Added(e))
    requires Fits(Grown(e) * c.feePerWrite1kb) && Fits(Grown(e) * c.feePerWrite1kb * Prepaid(e, current))
    requires var d := 1024 * RateDenominator(e.isPersistent, c);
      Fits(CeilDiv(e.newSize * c.feePerWrite1kb * Added(e), d)
           + CeilDiv(Grown(e) * c.feePerWrite1kb * Prepaid(e, current), d))
    ensures var d := 1024 * RateDenominator(e.isPersistent, c);
      RentPerEntryChange(e, c, current)
        == CeilDiv(e.newSize * c.feePerWrite1kb * Added(e), d)
           + CeilDiv(Grown(e) * c.feePerWrite1kb * Prepaid(e, current), d)
  {
    RentOfExtension(e, c, current);
    RentOfGrowth(e, c, current);
  }

  // ---------- the whole fee ----------

  /** The price of writing `n` TTL entries. */
  function TtlPrice(n: nat, c: RentConfig): int {
    c.feePerWriteEntry * n + CeilDiv(48 * n * c.feePerWrite1kb, 1024)
  }

  predicate TtlFits(fee: int, n: nat, c: RentConfig) {
    && 48 * n <= U32_MAX && Fits(fee)
    && Fits(c.feePerWriteEntry * n) && Fits(fee + c.feePerWriteEntry * n)
    && Fits(48 * n * c.feePerWrite1kb) && Fits(fee + TtlPrice(n, c))
  }

  lemma {:induction false} TtlWritesExact(fee: i64, n: nat, c: RentConfig)
    requires TtlFits(fee, n, c)
    ensures WithTtlWrites(fee, n, c) == fee + TtlPrice(n, c)
  {
  }

  /** The entries that are to live longer than before. */
  function Extended(es: seq<RentChange>): nat {
    if es == [] then 0
    else Extended(es[1..]) + if es[0].oldLiveUntil < es[0].newLiveUntil then 1 else 0
  }

  lemma {:induction false} ExtendedSnoc(es: seq<RentChange>, e: RentChange)
    ensures Extended(es + [e]) == Extended(es) + if e.oldLiveUntil < e.newLiveUntil then 1 else 0
  {
    if es == [] {
      assert [] + [e] == [e] && [e][1..] == [];
    } else {
      assert (es + [e])[1..] == es[1..] + [e];
      ExtendedSnoc(es[1..], e);
    }
  }

  lemma {:induction false} ExtendedIsCount(es: seq<RentChange>)
    ensures Extended(es) == CountExtended(es)
  {
    if es != [] {
      var front := es[..|es| - 1];
      ExtendedIsCount(front);
      ExtendedSnoc(front, es[|es| - 1]);
      assert es == front + [es[|es| - 1]];
    }
  }

  /** The fee of any list of entries is the sum of their rents and of one TTL write for each that is extended. */
  lemma {:induction false} RentFeeExact(es: seq<RentChange>, c: RentConfig, current: u32)
    requires TtlFits(Total(es, e => RentPerEntryChange(e, c, current)), Extended(es), c)
    ensures RentFee(es, c, current)
         == Total(es, e => RentPerEntryChange(e, c, current)) + TtlPrice(Extended(es), c)
  {
    RunningFeeIsClampedTotal(es, c, current);
    ExtendedIsCount(es);
    TtlWritesExact(RunningFee(es, c, current), CountExtended(es), c);
  }

  /** So one new entry pays its rent and one TTL write. */
  lemma {:induction false} FeeOfNewEntry(e: RentChange, c: RentConfig, current: u32)
    requires e.oldSize == 0 && e.oldLiveUntil == 0 && 1 <= current <= e.newLiveUntil
    requires RateDenominator(e.isPersistent, c) >= 1 && Fits(1024 * RateDenominator(e.isPersistent, c))
    requires Fits(e.newSize * c.feePerWrite1kb)
    requires Fits(e.newSize * c.feePerWrite1kb * (e.newLiveUntil - current + 1))
    requires var d := 1024 * RateDenominator(e.isPersistent, c);
      TtlFits(CeilDiv(e.newSize * c.feePerWrite1kb * (e.newLiveUntil - current + 1), d), 1, c)
    ensures var d := 1024 * RateDenominator(e.isPersistent, c);
      RentFee([e], c, current)
        == CeilDiv(e.newSize * c.feePerWrite1kb * (e.newLiveUntil - current + 1), d)
           + c.feePerWriteEntry + CeilDiv(48 * c.feePerWrite1kb, 1024)
  {
    RentOfNew(e, c, current);
    assert [e][..0] == [];
    assert RunningFee([e], c, current) == RentPerEntryChange(e, c, current) && CountExtended([e]) == 1;
    TtlWritesExact(RunningFee([e], c, current), 1, c);
  }

  // ---------- the entries that are charged ----------

  /** The change extends or grows an entry that has a TTL, and the rent change says by how much. */
  predicate CallsFor(change: LedgerEntryChange, e: RentChange) {
    && change.ttlChange.Some?
    && var ttl := change.ttlChange.value;
       && e.isPersistent == ttl.isPersistent && e.oldSize == change.oldEntrySize
       && e.oldLiveUntil == ttl.oldLiveUntil && e.newLiveUntil == ttl.newLiveUntil
       && e.newSize == (if change.encodedNewValue.Some? then |change.encodedNewValue.value| % 0x1_0000_0000
                        else change.oldEntrySize)
       && (e.oldLiveUntil < e.newLiveUntil || e.oldSize < e.newSize)
  }

  function HowMany(changes: seq<LedgerEntryChange>, e: RentChange): nat {
    if changes == [] then 0
    else HowMany(changes[..|changes| - 1], e) + if CallsFor(changes[|changes| - 1], e) then 1 else 0
  }

  /** Every ledger change that extends or grows an entry with a TTL is charged once, and nothing else is. */
  lemma {:induction false} ExtractIsExact(changes: seq<LedgerEntryChange>, e: RentChange)
    ensures multiset(ExtractRentChanges(changes))[e] == HowMany(changes, e)
  {
    if changes != [] { ExtractIsExact(changes[..|changes| - 1], e); }
  }

  // ---------- the write fee ----------

  /** Below the target the fee is interpolated between the low and the high one. */
  lemma {:induction false} BelowExact(size: i64, c: WriteFeeConfig)
    requires Sane(c) && 0 <= size < c.targetSize && Fits(c.high - c.low)
    ensures WriteFeePer1kb(size, c)
         == Max(c.low + CeilDiv((c.high - c.low) * size, c.targetSize), MINIMUM_WRITE_FEE_PER_1KB)
  {
    var k := c.high - c.low;
    MulLe(0, size, k);
    MulLe(size, c.targetSize, k);
    MulLe(k, I64_MAX, c.targetSize);
    CeilBetween(k * size, c.targetSize);
    var q := CeilDiv(k * size, c.targetSize);
    assert k * size <= k * c.targetSize;
    MulOrder(q - 1, k, c.targetSize);
  }

  /** Past the target it rises from the high fee, the growth factor times as steeply. */
  lemma {:induction false} PastExact(x: nat, c: WriteFeeConfig)
    requires Sane(c) && c.targetSize + x <= I64_MAX && Fits(c.high - c.low)
    requires (c.high - c.low) * x <= I128_MAX && (c.high - c.low) * x * c.growthFactor <= I128_MAX
    requires CeilDiv((c.high - c.low) * x * c.growthFactor, c.targetSize) <= I64_MAX
    requires Fits(c.high + CeilDiv((c.high - c.low) * x * c.growthFactor, c.targetSize))
    ensures WriteFeePer1kb(c.targetSize + x, c)
         == Max(c.high + CeilDiv((c.high - c.low) * x * c.growthFactor, c.targetSize), MINIMUM_WRITE_FEE_PER_1KB)
  {
    var k, g := c.high - c.low, c.growthFactor;
    MulLe(0, x, k);
    MulLe(0, k * x, g);
    assert x * k == k * x && 0 * g == 0;
    CeilBetween(k * x * g, c.targetSize);
  }

  /** At twice the target the high fee has risen by the growth factor times the span between the two fees. */
  lemma {:induction false} AtTwiceTheTarget(c: WriteFeeConfig)
    requires Sane(c) && 2 * c.targetSize <= I64_MAX && Fits(c.high - c.low)
    requires (c.high - c.low) * c.targetSize <= I128_MAX
    requires (c.high - c.low) * c.targetSize * c.growthFactor <= I128_MAX
    requires (c.high - c.low) * c.growthFactor <= I64_MAX && Fits(c.high + (c.high - c.low) * c.growthFactor)
    ensures WriteFeePer1kb(2 * c.targetSize, c)
         == Max(c.high + (c.high - c.low) * c.growthFactor, MINIMUM_WRITE_FEE_PER_1KB)
  {
    var k, g, t := c.high - c.low, c.growthFactor, c.targetSize;
    Regroup(k, g, t);
    Regroup(k, t, g);
    assert k * t * g == k * g * t by { assert t * g == g * t; }
    CeilOfMultiple(k * g, t);
    PastExact(t, c);
  }

  lemma {:induction false} CeilOfMultiple(a: int, b: int)
    requires b > 0
    ensures CeilDiv(a * b, b) == a
  {
    var q := CeilDiv(a * b, b);
    MulOrder(q - 1, a, b);
    if q < a { MulLe(q + 1, a, b); }
  }
}
