/** Rent does not depend on how an entry gets to its final size and lifetime, up to exact rounding bounds. */
module FeePaths {
  import opened Common
  import opened Fees

  datatype Stage = Stage(size: u32, liveUntil: u32)

  function Change(isPersistent: bool, a: Stage, b: Stage): RentChange {
    RentChange(isPersistent, a.size, b.size, a.liveUntil, b.liveUntil)
  }

  function Rent(isPersistent: bool, a: Stage, b: Stage, c: RentConfig, current: u32): int {
    RentPerEntryChange(Change(isPersistent, a, b), c, current)
  }

  /** An existing entry that has not expired. */
  predicate IsLive(a: Stage, current: u32) {
    current <= a.liveUntil && (a.size > 0 || a.liveUntil > 0)
  }

  predicate Leads(a: Stage, b: Stage) {
    a.size <= b.size && a.liveUntil <= b.liveUntil
  }

  /** The undivided price of holding a stage from the current ledger on. */
  function Worth(s: Stage, c: RentConfig, current: u32): int {
    s.size * c.feePerWrite1kb * (s.liveUntil - current + 1)
  }

  predicate Unsaturated(s: Stage, c: RentConfig, current: u32) {
    s.liveUntil - current < U32_MAX && I64_MIN <= Worth(s, c, current) <= I64_MAX
  }

  /** `v` lies between zero and `w`. */
  predicate Below(v: int, w: int) {
    if w >= 0 then 0 <= v <= w else w <= v <= 0
  }

  lemma MulBelow(x: int, y: int, k: int)
    requires 0 <= x <= y
    ensures Below(x * k, y * k)
  {
    if k >= 0 {
      MulLe(0, x, k);
      MulLe(x, y, k);
    } else {
      MulLe(0, x, -k);
      MulLe(x, y, -k);
      assert x * k == -(x * -k) && y * k == -(y * -k);
    }
  }

  lemma Regroup(a: int, b: int, c: int)
    ensures a * (b * c) == a * b * c == c * (a * b)
  {
  }

  lemma {:induction false} ProductBelow(s: int, k: int, s': int, k': int, f: int)
    requires 0 <= s <= s' && 0 <= k <= k'
    ensures Below(s * f * k, s' * f * k')
    ensures k' >= 1 ==> Below(s * f, s' * f * k')
  {
    MulBelow(s, s', f);
    MulBelow(s, s', f * k);
    MulBelow(k, k', s' * f);
    Regroup(s, f, k);
    Regroup(s', f, k);
    Regroup(s', f, k');
    if k' >= 1 { MulBelow(1, k', s' * f); }
  }

  /** Without saturation a rent is one exact ceiling. */
  lemma {:induction false} RentExact(isPersistent: bool, size: u32, ledgers: u32, c: RentConfig, bound: int)
    requires I64_MIN <= bound <= I64_MAX
    requires Below(size * c.feePerWrite1kb, bound) && Below(size * c.feePerWrite1kb * ledgers, bound)
    ensures RentForSizeAndLedgers(isPersistent, size, ledgers, c)
         == CeilDiv(size * c.feePerWrite1kb * ledgers, Denominator(isPersistent, c))
  {
  }

  /** What moving from one stage to the next costs before division: new ledgers at the new size, then the top-up. */
  function Extension(a: Stage, b: Stage, c: RentConfig): int {
    b.size * c.feePerWrite1kb * (b.liveUntil - a.liveUntil)
  }

  function TopUp(a: Stage, b: Stage, c: RentConfig, current: u32): int {
    (b.size - a.size) * c.feePerWrite1kb * (a.liveUntil - current + 1)
  }

  lemma PartsAdd(s: int, s': int, k: int, k': int, f: int)
    ensures s' * f * (k' - k) + (s' - s) * f * k == s' * f * k' - s * f * k
  {
    var x, y := s * f, s' * f;
    assert (s' - s) * f == y - x;
    assert y * (k' - k) == y * k' - y * k;
    assert (y - x) * k == y * k - x * k;
  }

  lemma {:induction false} PartsOfWorth(a: Stage, b: Stage, c: RentConfig, current: u32)
    requires IsLive(a, current) && Leads(a, b)
    ensures Extension(a, b, c) + TopUp(a, b, c, current) == Worth(b, c, current) - Worth(a, c, current)
    ensures Below(Extension(a, b, c), Worth(b, c, current))
    ensures Below(TopUp(a, b, c, current), Worth(b, c, current))
    ensures Below(Worth(b, c, current) - Worth(a, c, current), Worth(b, c, current))
    ensures Below(b.size * c.feePerWrite1kb, Worth(b, c, current))
    ensures Below((b.size - a.size) * c.feePerWrite1kb, Worth(b, c, current))
  {
    var k, k' := a.liveUntil - current + 1, b.liveUntil - current + 1;
    assert k' - k == b.liveUntil - a.liveUntil;
    PartsAdd(a.size, b.size, k, k', c.feePerWrite1kb);
    ProductBelow(b.size, k' - k, b.size, k', c.feePerWrite1kb);
    ProductBelow(b.size - a.size, k, b.size, k', c.feePerWrite1kb);
    ProductBelow(a.size, k, b.size, k', c.feePerWrite1kb);
  }

  lemma NothingGained(a: Stage, b: Stage, c: RentConfig, current: u32)
    ensures a.liveUntil == b.liveUntil ==> Extension(a, b, c) == 0
    ensures a.size == b.size ==> TopUp(a, b, c, current) == 0
  {
    assert a.size == b.size ==> (b.size - a.size) * c.feePerWrite1kb == 0;
  }

  lemma {:induction false} RentOfStep(isPersistent: bool, a: Stage, b: Stage, c: RentConfig, current: u32)
    requires IsLive(a, current) && Leads(a, b) && Unsaturated(b, c, current)
    ensures var d := Denominator(isPersistent, c);
      Rent(isPersistent, a, b, c, current) == CeilDiv(Extension(a, b, c), d) + CeilDiv(TopUp(a, b, c, current), d)
  {
    var e, d := Change(isPersistent, a, b), Denominator(isPersistent, c);
    var x, y, w := Extension(a, b, c), TopUp(a, b, c, current), Worth(b, c, current);
    PartsOfWorth(a, b, c, current);
    assert ExtensionLedgers(e, current) == Some(b.liveUntil - a.liveUntil);
    assert PrepaidLedgers(e, current) == Some(a.liveUntil - current + 1);
    RentExact(isPersistent, b.size, b.liveUntil - a.liveUntil, c, w);
    RentExact(isPersistent, b.size - a.size, a.liveUntil - current + 1, c, w);
    CeilBetween(x, d);
    CeilBetween(y, d);
  }

  /** Two roundings lose at most one more than a single one. */
  lemma {:induction false} TwoCeils(x: int, y: int, d: int)
    requires d > 0
    ensures CeilDiv(x + y, d) <= CeilDiv(x, d) + CeilDiv(y, d) <= CeilDiv(x + y, d) + 1
  {
    var p, q, r := CeilDiv(x, d), CeilDiv(y, d), CeilDiv(x + y, d);
    assert (p + q) * d == p * d + q * d;
    assert (p + q - 2) * d == (p - 1) * d + (q - 1) * d;
    MulOrder(r - 1, p + q, d);
    MulOrder(p + q - 2, r, d);
  }

  lemma {:induction false} RentBounds(isPersistent: bool, a: Stage, b: Stage, c: RentConfig, current: u32)
    requires IsLive(a, current) && Leads(a, b) && Unsaturated(b, c, current)
    ensures var least := CeilDiv(Worth(b, c, current) - Worth(a, c, current), Denominator(isPersistent, c));
      least <= Rent(isPersistent, a, b, c, current) <= least + 1
  {
    RentOfStep(isPersistent, a, b, c, current);
    PartsOfWorth(a, b, c, current);
    TwoCeils(Extension(a, b, c), TopUp(a, b, c, current), Denominator(isPersistent, c));
  }

  /** A stage passed on the way saturates nothing if the last one does not. */
  lemma {:induction false} UnsaturatedBefore(a: Stage, b: Stage, c: RentConfig, current: u32)
    requires current <= a.liveUntil && Leads(a, b) && Unsaturated(b, c, current)
    ensures Unsaturated(a, c, current)
  {
    ProductBelow(a.size, a.liveUntil - current + 1, b.size, b.liveUntil - current + 1, c.feePerWrite1kb);
  }

  /** Growing and extending at once costs exactly what growing first and extending afterwards costs. */
  lemma {:induction false} GrowThenExtend(isPersistent: bool, a: Stage, b: Stage, c: RentConfig, current: u32)
    requires IsLive(a, current) && Leads(a, b) && Unsaturated(b, c, current)
    ensures var grown := Stage(b.size, a.liveUntil);
      Rent(isPersistent, a, grown, c, current) + Rent(isPersistent, grown, b, c, current)
        == Rent(isPersistent, a, b, c, current)
  {
    var grown, d := Stage(b.size, a.liveUntil), Denominator(isPersistent, c);
    UnsaturatedBefore(grown, b, c, current);
    RentOfStep(isPersistent, a, grown, c, current);
    RentOfStep(isPersistent, grown, b, c, current);
    RentOfStep(isPersistent, a, b, c, current);
    CeilBetween(0, d);
    NothingGained(a, grown, c, current);
    NothingGained(grown, b, c, current);
  }

  /** Extending first and growing afterwards differs from doing both at once by at most one. */
  lemma {:induction false} ExtendThenGrow(isPersistent: bool, a: Stage, b: Stage, c: RentConfig, current: u32)
    requires IsLive(a, current) && Leads(a, b) && Unsaturated(b, c, current)
    ensures var extended := Stage(a.size, b.liveUntil);
      -1 <= Rent(isPersistent, a, extended, c, current) + Rent(isPersistent, extended, b, c, current)
            - Rent(isPersistent, a, b, c, current) <= 1
  {
    var extended, d := Stage(a.size, b.liveUntil), Denominator(isPersistent, c);
    UnsaturatedBefore(extended, b, c, current);
    RentOfStep(isPersistent, a, extended, c, current);
    RentOfStep(isPersistent, extended, b, c, current);
    RentBounds(isPersistent, a, b, c, current);
    PartsOfWorth(a, extended, c, current);
    PartsOfWorth(extended, b, c, current);
    CeilBetween(0, d);
    NothingGained(a, extended, c, current);
    NothingGained(extended, b, c, current);
    TwoCeils(Extension(a, extended, c), TopUp(extended, b, c, current), d);
  }

  function ExtendFirstSurplus(a: Stage, b: Stage, c: RentConfig, current: u32): int {
    var extended := Stage(a.size, b.liveUntil);
    Rent(true, a, extended, c, current) + Rent(true, extended, b, c, current) - Rent(true, a, b, c, current)
  }

  lemma {:induction false} SurplusOf(a: Stage, b: Stage, c: RentConfig, current: u32)
    requires IsLive(a, current) && Leads(a, b) && Unsaturated(b, c, current)
    ensures var d, e := Denominator(true, c), Stage(a.size, b.liveUntil);
      ExtendFirstSurplus(a, b, c, current) ==
        CeilDiv(Extension(a, e, c), d) + CeilDiv(TopUp(e, b, c, current), d)
        - CeilDiv(Extension(a, b, c), d) - CeilDiv(TopUp(a, b, c, current), d)
  {
    var e := Stage(a.size, b.liveUntil);
    UnsaturatedBefore(e, b, c, current);
    RentOfStep(true, a, e, c, current);
    RentOfStep(true, e, b, c, current);
    RentOfStep(true, a, b, c, current);
    NothingGained(a, e, c, current);
    NothingGained(e, b, c, current);
    CeilBetween(0, Denominator(true, c));
  }

  lemma {:induction false} SurplusFrom(a: Stage, b: Stage, c: RentConfig, w: int, x: int, y: int, z: int)
    requires IsLive(a, 1000) && Leads(a, b) && Unsaturated(b, c, 1000) && Denominator(true, c) == 1024
    requires Extension(a, Stage(a.size, b.liveUntil), c) == w && TopUp(Stage(a.size, b.liveUntil), b, c, 1000) == x
    requires Extension(a, b, c) == y && TopUp(a, b, c, 1000) == z
    ensures ExtendFirstSurplus(a, b, c, 1000)
         == CeilDiv(w, 1024) + CeilDiv(x, 1024) - CeilDiv(y, 1024) - CeilDiv(z, 1024)
  {
    SurplusOf(a, b, c, 1000);
  }

  /** Both differences occur: extending first can be one cheaper, and one dearer. */
  lemma {:induction false} ExtendThenGrowIsTight(c: RentConfig, a: Stage, b: Stage)
    requires c.feePerWrite1kb == 1 && c.persistentDenominator == 1 && a.size == 1 && b.size == 2
    ensures a.liveUntil == 1099 && b.liveUntil == 1699 ==> ExtendFirstSurplus(a, b, c, 1000) == -1
    ensures a.liveUntil == 1512 && b.liveUntil == 2024 ==> ExtendFirstSurplus(a, b, c, 1000) == 1
  {
    assert Denominator(true, c) == 1024;
    if a.liveUntil == 1099 && b.liveUntil == 1699 {
      SurplusFrom(a, b, c, 600, 700, 1200, 100);
    } else if a.liveUntil == 1512 && b.liveUntil == 2024 {
      SurplusFrom(a, b, c, 512, 1025, 1024, 513);
    }
  }

  // ---------- paths of any length ----------

  predicate IsPath(path: seq<Stage>) {
    path != [] && forall i :: 0 < i < |path| ==> Leads(path[i - 1], path[i])
  }

  function PathRent(isPersistent: bool, path: seq<Stage>, c: RentConfig, current: u32): int
    requires path != []
  {
    if |path| == 1 then 0
    else
      PathRent(isPersistent, path[..|path| - 1], c, current)
      + Rent(isPersistent, path[|path| - 2], path[|path| - 1], c, current)
  }

  /**
    * However many steps a live entry takes within one ledger, it pays at least the undivided price of the way from
    * its first to its last stage, and each step rounds up by less than two.
    */
  lemma {:induction false} PathIndependence(isPersistent: bool, path: seq<Stage>, c: RentConfig, current: u32)
    requires IsPath(path) && IsLive(path[0], current) && Unsaturated(path[|path| - 1], c, current)
    ensures Leads(path[0], path[|path| - 1])
    ensures
      var least := CeilDiv(Worth(path[|path| - 1], c, current) - Worth(path[0], c, current),
        Denominator(isPersistent, c));
      least <= PathRent(isPersistent, path, c, current) <= least + Max(0, 2 * (|path| - 1) - 1)
    decreases |path|
  {
    var d := Denominator(isPersistent, c);
    if |path| == 1 {
      CeilBetween(0, d);
    } else {
      var n, front := |path|, path[..|path| - 1];
      var x, y, z := path[0], path[n - 2], path[n - 1];
      assert Leads(y, z) && front[|front| - 1] == y;
      PathFrontLeads(front);
      UnsaturatedBefore(y, z, c, current);
      PathIndependence(isPersistent, front, c, current);
      RentBounds(isPersistent, y, z, c, current);
      TwoCeils(Worth(y, c, current) - Worth(x, c, current), Worth(z, c, current) - Worth(y, c, current), d);
      if n == 2 { CeilBetween(0, d); }
    }
  }

  lemma {:induction false} PathFrontLeads(path: seq<Stage>)
    requires IsPath(path)
    ensures Leads(path[0], path[|path| - 1])
    decreases |path|
  {
    if |path| > 1 {
      PathFrontLeads(path[..|path| - 1]);
      assert Leads(path[|path| - 2], path[|path| - 1]);
    }
  }

  // ---------- the whole fee, with the TTL entry ----------

  predicate TtlUnsaturated(fee: int, c: RentConfig) {
    && I64_MIN <= fee <= I64_MAX
    && I64_MIN <= fee + c.feePerWriteEntry <= I64_MAX
    && I64_MIN <= fee + c.feePerWriteEntry + FeePerIncrement(TTL_ENTRY_SIZE, c.feePerWrite1kb, DATA_SIZE_1KB_INCREMENT)
       <= I64_MAX
  }

  lemma {:induction false} TtlWritesOfOne(fee: i64, c: RentConfig)
    requires TtlUnsaturated(fee, c)
    ensures WithTtlWrites(fee, 0, c) == fee
    ensures WithTtlWrites(fee, 1, c) ==
      fee + c.feePerWriteEntry + FeePerIncrement(TTL_ENTRY_SIZE, c.feePerWrite1kb, DATA_SIZE_1KB_INCREMENT)
  {
    CeilBetween(0, DATA_SIZE_1KB_INCREMENT);
  }

  lemma {:induction false} SingleEntryFee(e: RentChange, c: RentConfig, current: u32)
    requires TtlUnsaturated(RentPerEntryChange(e, c, current), c)
    ensures RentFee([e], c, current) == RentPerEntryChange(e, c, current) +
      if IsExtended(e) then
        c.feePerWriteEntry + FeePerIncrement(TTL_ENTRY_SIZE, c.feePerWrite1kb, DATA_SIZE_1KB_INCREMENT)
      else 0
  {
    assert [e][..0] == [];
    assert RunningFee([e], c, current) == RentPerEntryChange(e, c, current);
    assert CountExtended([e]) == if IsExtended(e) then 1 else 0;
    TtlWritesOfOne(RentPerEntryChange(e, c, current), c);
  }

  /** The rent fee as charged, TTL writes included, does not depend on whether the growth is charged first. */
  lemma {:induction false} ChargedGrowThenExtend(isPersistent: bool, a: Stage, b: Stage, c: RentConfig, current: u32)
    requires IsLive(a, current) && Leads(a, b) && Unsaturated(b, c, current)
    requires var grown := Stage(b.size, a.liveUntil);
      && TtlUnsaturated(Rent(isPersistent, a, grown, c, current), c)
      && TtlUnsaturated(Rent(isPersistent, grown, b, c, current), c)
      && TtlUnsaturated(Rent(isPersistent, a, b, c, current), c)
    ensures var grown := Stage(b.size, a.liveUntil);
      RentFee([Change(isPersistent, a, grown)], c, current) + RentFee([Change(isPersistent, grown, b)], c, current)
        == RentFee([Change(isPersistent, a, b)], c, current)
  {
    var grown := Stage(b.size, a.liveUntil);
    GrowThenExtend(isPersistent, a, b, c, current);
    SingleEntryFee(Change(isPersistent, a, grown), c, current);
    SingleEntryFee(Change(isPersistent, grown, b), c, current);
    SingleEntryFee(Change(isPersistent, a, b), c, current);
  }
}
