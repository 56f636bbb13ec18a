/** Rent and write fees: saturating integer arithmetic with ceiling division. */
module Fees {
  import opened Common

  const I64_MAX: int := 0x7fff_ffff_ffff_ffff
  const I64_MIN: int := -0x8000_0000_0000_0000
  const I128_MAX: int := 0x7fff_ffff_ffff_ffff_ffff_ffff_ffff_ffff
  const I128_MIN: int := -0x8000_0000_0000_0000_0000_0000_0000_0000
  const U32_MAX: int := 0xffff_ffff

  type i64 = x: int | I64_MIN <= x <= I64_MAX
  type u32 = x: int | 0 <= x <= U32_MAX

  const DATA_SIZE_1KB_INCREMENT: i64 := 1024
  const TTL_ENTRY_SIZE: u32 := 48
  const MINIMUM_WRITE_FEE_PER_1KB: i64 := 1000

  function Sat64(x: int): i64 {
    if x < I64_MIN then I64_MIN else if x > I64_MAX then I64_MAX else x
  }

  function Sat128(x: int): int {
    if x < I128_MIN then I128_MIN else if x > I128_MAX then I128_MAX else x
  }

  function SatU32(x: nat): u32 {
    if x > U32_MAX then U32_MAX else x
  }

  /** Division rounded towards plus infinity. */
  function CeilDiv(a: int, b: int): (q: int)
    requires b > 0
    ensures (q - 1) * b < a <= q * b
  {
    -((-a) / b)
  }

  lemma MulLe(x: int, y: int, b: int)
    requires x <= y && b >= 0
    ensures x * b <= y * b
  {
  }

  lemma MulOrder(x: int, y: int, b: int)
    requires b > 0 && x * b < y * b
    ensures x < y
  {
    if x >= y { MulLe(y, x, b); }
  }

  /** A quotient lies between zero and its dividend. */
  lemma {:induction false} CeilBetween(a: int, b: int)
    requires b > 0
    ensures a >= 0 ==> 0 <= CeilDiv(a, b) <= a
    ensures a <= 0 ==> a <= CeilDiv(a, b) <= 0
  {
    var q := CeilDiv(a, b);
    if a >= 0 {
      MulOrder(-1, q, b);
      MulLe(1, b, a);
      MulOrder(q - 1, a, b);
    }
    if a <= 0 {
      assert 0 * b == 0;
      MulOrder(q - 1, 0, b);
      MulLe(1, b, 1 - a);
      assert (a - 1) * b == -(b * (1 - a));
      MulOrder(a - 1, q, b);
    }
  }

  lemma {:induction false} CeilMono(a: int, a': int, b: int)
    requires b > 0 && a <= a'
    ensures CeilDiv(a, b) <= CeilDiv(a', b)
  {
    MulOrder(CeilDiv(a, b) - 1, CeilDiv(a', b), b);
  }

  // ---------- rent ----------

  datatype RentChange = RentChange(
    isPersistent: bool, oldSize: u32, newSize: u32, oldLiveUntil: u32, newLiveUntil: u32)

  datatype RentConfig = RentConfig(
    feePerWrite1kb: i64, feePerWriteEntry: i64, persistentDenominator: i64, temporaryDenominator: i64)

  function ExclusiveDiff(lo: u32, hi: u32): Option<u32> {
    if hi < lo then None else Some(hi - lo)
  }

  function InclusiveDiff(lo: u32, hi: u32): Option<u32> {
    if hi < lo then None else Some(SatU32(hi - lo + 1))
  }

  predicate IsNew(e: RentChange) {
    e.oldSize == 0 && e.oldLiveUntil == 0
  }

  function ExtensionLedgers(e: RentChange, current: u32): Option<u32> {
    var before: u32 := if IsNew(e) then (if current == 0 then 0 else current - 1) else e.oldLiveUntil;
    ExclusiveDiff(before, e.newLiveUntil)
  }

  function PrepaidLedgers(e: RentChange, current: u32): Option<u32> {
    if IsNew(e) then None else InclusiveDiff(current, e.oldLiveUntil)
  }

  function SizeIncrease(e: RentChange): Option<u32> {
    ExclusiveDiff(e.oldSize, e.newSize)
  }

  function Denominator(isPersistent: bool, c: RentConfig): (d: i64)
    ensures d >= 1
  {
    Max(Sat64(DATA_SIZE_1KB_INCREMENT * (if isPersistent then c.persistentDenominator else c.temporaryDenominator)), 1)
  }

  function RentForSizeAndLedgers(isPersistent: bool, size: u32, ledgers: u32, c: RentConfig): i64 {
    var num := Sat64(Sat64(size * c.feePerWrite1kb) * ledgers);
    CeilBetween(num, Denominator(isPersistent, c));
    CeilDiv(num, Denominator(isPersistent, c))
  }

  /** The new ledgers at the new size, and a top-up for the prepaid ledgers when the entry has grown. */
  function RentPerEntryChange(e: RentChange, c: RentConfig, current: u32): i64 {
    var extension: i64 := match ExtensionLedgers(e, current)
      case None => 0
      case Some(ledgers) => Sat64(0 + RentForSizeAndLedgers(e.isPersistent, e.newSize, ledgers, c));
    match (PrepaidLedgers(e, current), SizeIncrease(e))
    case (Some(ledgers), Some(size)) =>
      Sat64(extension + RentForSizeAndLedgers(e.isPersistent, size, ledgers, c))
    case _ => extension
  }

  predicate IsExtended(e: RentChange) {
    e.oldLiveUntil < e.newLiveUntil
  }

  function FeePerIncrement(value: u32, rate: i64, increment: i64): i64 {
    var num := Sat64(value * rate);
    CeilBetween(num, Max(increment, 1));
    CeilDiv(num, Max(increment, 1))
  }

  /** The running fee after the entries, each addition saturating. */
  function RunningFee(es: seq<RentChange>, c: RentConfig, current: u32): i64 {
    if es == [] then 0
    else Sat64(RunningFee(es[..|es| - 1], c, current) + RentPerEntryChange(es[|es| - 1], c, current))
  }

  function CountExtended(es: seq<RentChange>): nat {
    if es == [] then 0 else CountExtended(es[..|es| - 1]) + if IsExtended(es[|es| - 1]) then 1 else 0
  }

  /** What the TTL entries of `n` extended entries cost, on top of `fee`. */
  function WithTtlWrites(fee: i64, n: nat, c: RentConfig): i64 {
    var withEntries := Sat64(fee + Sat64(c.feePerWriteEntry * Sat64(n)));
    Sat64(withEntries + FeePerIncrement(SatU32(TTL_ENTRY_SIZE * n), c.feePerWrite1kb, DATA_SIZE_1KB_INCREMENT))
  }

  function RentFee(es: seq<RentChange>, c: RentConfig, current: u32): i64 {
    WithTtlWrites(RunningFee(es, c, current), CountExtended(es), c)
  }

  method ComputeRentFee(changedEntries: seq<RentChange>, c: RentConfig, currentLedger: u32) returns (fee: i64)
    ensures fee == RentFee(changedEntries, c, currentLedger)
  {
    fee := 0;
    var extendedEntries: i64 := 0;
    var keySizeBytes: u32 := 0;
    for i := 0 to |changedEntries|
      invariant fee == RunningFee(changedEntries[..i], c, currentLedger)
      invariant extendedEntries == Sat64(CountExtended(changedEntries[..i]))
      invariant keySizeBytes == SatU32(TTL_ENTRY_SIZE * CountExtended(changedEntries[..i]))
    {
      var e := changedEntries[i];
      assert changedEntries[..i + 1][..i] == changedEntries[..i];
      fee := Sat64(fee + RentPerEntryChange(e, c, currentLedger));
      if e.oldLiveUntil < e.newLiveUntil {
        extendedEntries := Sat64(extendedEntries + 1);
        keySizeBytes := SatU32(keySizeBytes + TTL_ENTRY_SIZE);
      }
    }
    assert changedEntries[..|changedEntries|] == changedEntries;
    fee := Sat64(fee + Sat64(c.feePerWriteEntry * extendedEntries));
    fee := Sat64(fee + FeePerIncrement(keySizeBytes, c.feePerWrite1kb, DATA_SIZE_1KB_INCREMENT));
  }

  // ---------- order does not matter ----------

  function Total(es: seq<RentChange>, weight: RentChange -> int): int {
    if es == [] then 0 else Total(es[..|es| - 1], weight) + weight(es[|es| - 1])
  }

  lemma {:induction false} TotalRemove(es: seq<RentChange>, i: nat, weight: RentChange -> int)
    requires i < |es|
    ensures Total(es, weight) == Total(es[..i] + es[i + 1..], weight) + weight(es[i])
  {
    var rest := es[..i] + es[i + 1..];
    if i == |es| - 1 {
      assert rest == es[..i];
    } else {
      var front := es[..|es| - 1];
      TotalRemove(front, i, weight);
      assert rest[..|rest| - 1] == front[..i] + front[i + 1..];
    }
  }

  /** The last element of `a` occurs in `b`, and taking it from both leaves permutations. */
  lemma {:induction false} MatchLast(a: seq<RentChange>, b: seq<RentChange>) returns (i: nat)
    requires a != [] && multiset(a) == multiset(b)
    ensures i < |b| && b[i] == a[|a| - 1]
    ensures multiset(a[..|a| - 1]) == multiset(b[..i] + b[i + 1..])
  {
    var front, x := a[..|a| - 1], a[|a| - 1];
    assert a == front + [x];
    assert x in multiset(b);
    i :| 0 <= i < |b| && b[i] == x;
    assert b == b[..i] + [x] + b[i + 1..];
    var rest := b[..i] + b[i + 1..];
    assert multiset(a) == multiset(front) + multiset{x};
    assert multiset(b) == multiset(rest) + multiset{x};
    assert multiset(front) == multiset(a) - multiset{x} == multiset(rest);
  }

  lemma {:induction false} TotalPermutes(a: seq<RentChange>, b: seq<RentChange>, weight: RentChange -> int)
    requires multiset(a) == multiset(b)
    ensures Total(a, weight) == Total(b, weight)
    decreases |a|
  {
    if a == [] {
      assert |multiset(b)| == 0;
    } else {
      var i := MatchLast(a, b);
      TotalPermutes(a[..|a| - 1], b[..i] + b[i + 1..], weight);
      TotalRemove(b, i, weight);
    }
  }

  lemma {:induction false} ProductSign(x: int, y: int)
    requires x >= 0
    ensures y >= 0 ==> x * y >= 0
    ensures y <= 0 ==> x * y <= 0
  {
  }

  lemma {:induction false} RentSign(isPersistent: bool, size: u32, ledgers: u32, c: RentConfig)
    ensures c.feePerWrite1kb >= 0 ==> RentForSizeAndLedgers(isPersistent, size, ledgers, c) >= 0
    ensures c.feePerWrite1kb <= 0 ==> RentForSizeAndLedgers(isPersistent, size, ledgers, c) <= 0
  {
    ProductSign(size, c.feePerWrite1kb);
    ProductSign(ledgers, Sat64(size * c.feePerWrite1kb));
    CeilBetween(Sat64(Sat64(size * c.feePerWrite1kb) * ledgers), Denominator(isPersistent, c));
  }

  /** Every rent has the sign of the configured rate, so that one-sided saturation loses nothing. */
  lemma {:induction false} RentHasRateSign(e: RentChange, c: RentConfig, current: u32)
    ensures c.feePerWrite1kb >= 0 ==> RentPerEntryChange(e, c, current) >= 0
    ensures c.feePerWrite1kb <= 0 ==> RentPerEntryChange(e, c, current) <= 0
  {
    if ExtensionLedgers(e, current).Some? {
      RentSign(e.isPersistent, e.newSize, ExtensionLedgers(e, current).value, c);
    }
    if PrepaidLedgers(e, current).Some? && SizeIncrease(e).Some? {
      RentSign(e.isPersistent, SizeIncrease(e).value, PrepaidLedgers(e, current).value, c);
    }
  }

  lemma {:induction false} RunningFeeIsClampedTotal(es: seq<RentChange>, c: RentConfig, current: u32)
    ensures var total := Total(es, e => RentPerEntryChange(e, c, current));
      && RunningFee(es, c, current) == Sat64(total)
      && (c.feePerWrite1kb >= 0 ==> total >= 0)
      && (c.feePerWrite1kb <= 0 ==> total <= 0)
  {
    if es != [] {
      RunningFeeIsClampedTotal(es[..|es| - 1], c, current);
      RentHasRateSign(es[|es| - 1], c, current);
    }
  }

  lemma {:induction false} CountIsTotal(es: seq<RentChange>)
    ensures CountExtended(es) == Total(es, e => if IsExtended(e) then 1 else 0)
  {
    if es != [] { CountIsTotal(es[..|es| - 1]); }
  }

  /** The order of the changed entries never matters, even when sums saturate and whatever the configuration. */
  lemma {:induction false} RentFeeOrderIndependent(a: seq<RentChange>, b: seq<RentChange>, c: RentConfig, current: u32)
    requires multiset(a) == multiset(b)
    ensures RentFee(a, c, current) == RentFee(b, c, current)
  {
    RunningFeeIsClampedTotal(a, c, current);
    RunningFeeIsClampedTotal(b, c, current);
    CountIsTotal(a);
    CountIsTotal(b);
    TotalPermutes(a, b, e => RentPerEntryChange(e, c, current));
    TotalPermutes(a, b, e => if IsExtended(e) then 1 else 0);
  }

  // ---------- the filter that feeds the computation ----------

  datatype TtlChange = TtlChange(isPersistent: bool, oldLiveUntil: u32, newLiveUntil: u32)

  datatype LedgerEntryChange = LedgerEntryChange(
    oldEntrySize: u32, encodedNewValue: Option<seq<bv8>>, ttlChange: Option<TtlChange>)

  /** The rent change of an entry that has a TTL; an unset new value leaves the size as it was. */
  function ToRentChange(e: LedgerEntryChange): Option<RentChange> {
    match e.ttlChange
    case None => None
    case Some(t) =>
      var newSize: u32 := match e.encodedNewValue
        case Some(v) => |v| % 0x1_0000_0000
        case None => e.oldEntrySize;
      Some(RentChange(t.isPersistent, e.oldEntrySize, newSize, t.oldLiveUntil, t.newLiveUntil))
  }

  /** Neither extended nor grown. */
  predicate IsNoOp(e: RentChange) {
    e.oldLiveUntil >= e.newLiveUntil && e.oldSize >= e.newSize
  }

  function ExtractRentChanges(changes: seq<LedgerEntryChange>): seq<RentChange> {
    if changes == [] then []
    else
      var last := ToRentChange(changes[|changes| - 1]);
      ExtractRentChanges(changes[..|changes| - 1]) + if last.None? || IsNoOp(last.value) then [] else [last.value]
  }

  /** The same without skipping no-ops. */
  function AllRentChanges(changes: seq<LedgerEntryChange>): seq<RentChange> {
    if changes == [] then []
    else
      var last := ToRentChange(changes[|changes| - 1]);
      AllRentChanges(changes[..|changes| - 1]) + if last.None? then [] else [last.value]
  }

  lemma {:induction false} NoOpIsFree(e: RentChange, c: RentConfig, current: u32)
    requires IsNoOp(e)
    ensures RentPerEntryChange(e, c, current) == 0 && !IsExtended(e)
  {
    var d := Denominator(e.isPersistent, c);
    CeilBetween(0, d);
    if IsNew(e) {
      assert e.newSize == 0;
      forall ledgers: u32 ensures RentForSizeAndLedgers(e.isPersistent, 0, ledgers, c) == 0 {}
    } else {
      assert RentForSizeAndLedgers(e.isPersistent, e.newSize, 0, c) == 0;
      forall ledgers: u32 ensures RentForSizeAndLedgers(e.isPersistent, 0, ledgers, c) == 0 {}
    }
  }

  lemma {:induction false} ExtractKeepsTotal(changes: seq<LedgerEntryChange>, weight: RentChange -> int)
    requires forall e :: IsNoOp(e) ==> weight(e) == 0
    ensures Total(ExtractRentChanges(changes), weight) == Total(AllRentChanges(changes), weight)
  {
    if changes != [] {
      var front, last := changes[..|changes| - 1], ToRentChange(changes[|changes| - 1]);
      ExtractKeepsTotal(front, weight);
      if last.None? {
        assert ExtractRentChanges(changes) == ExtractRentChanges(front);
        assert AllRentChanges(changes) == AllRentChanges(front);
      } else {
        assert AllRentChanges(changes)[..|AllRentChanges(front)|] == AllRentChanges(front);
        if IsNoOp(last.value) {
          assert ExtractRentChanges(changes) == ExtractRentChanges(front);
        } else {
          assert ExtractRentChanges(changes)[..|ExtractRentChanges(front)|] == ExtractRentChanges(front);
        }
      }
    }
  }

  /** Skipping the no-op changes changes no fee, whatever the configuration. */
  lemma {:induction false} ExtractKeepsFee(changes: seq<LedgerEntryChange>, c: RentConfig, current: u32)
    ensures RentFee(ExtractRentChanges(changes), c, current) == RentFee(AllRentChanges(changes), c, current)
  {
    var kept, all := ExtractRentChanges(changes), AllRentChanges(changes);
    RunningFeeIsClampedTotal(kept, c, current);
    RunningFeeIsClampedTotal(all, c, current);
    CountIsTotal(kept);
    CountIsTotal(all);
    forall e | IsNoOp(e) ensures RentPerEntryChange(e, c, current) == 0 { NoOpIsFree(e, c, current); }
    ExtractKeepsTotal(changes, e => RentPerEntryChange(e, c, current));
    ExtractKeepsTotal(changes, e => if IsExtended(e) then 1 else 0);
  }
}
