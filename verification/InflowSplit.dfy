/** The 60/25/15 split of an inflow, with caps that overflow into Operating. Amounts are in micro-dollars. */
module InflowSplit {
  import opened Wrappers
  import opened Rounding

  /** One ledger unit, $0.0001. */
  const UNIT := 100

  const OPERATING_PERCENT := 60
  const RESERVE_PERCENT := 25
  const GROWTH_PERCENT := 15
  const GROWTH_CAP_PERCENT := 30

  datatype Split = Split(operating: int, reserve: int, growth: int)

  predicate WholeUnits(m: int) {
    m % UNIT == 0
  }

  function Quantize(m: int): int {
    UNIT * HalfEven(m, UNIT)
  }

  /** (amount * percent/100).quantize(0.0001). */
  function Share(amount: int, percent: int): int {
    UNIT * HalfEven(amount * percent, 100 * UNIT)
  }

  function GrowthCap(trailingRevenue: int): int {
    Share(trailingRevenue, GROWTH_CAP_PERCENT)
  }

  function ReserveCapFromBurn(dailyBurn: int, runwayDays: int): int {
    Quantize(dailyBurn * runwayDays)
  }

  /** A share, or what is left below the cap if that is less: negative when the pot is already above it. */
  function Room(share: int, current: int, cap: Option<int>): int {
    match cap
    case None => share
    case Some(c) => if share <= c - current then share else c - current
  }

  /** Operating gets what the other two pots leave. */
  function SplitRooms(amount: int, reserveRoom: int, growthRoom: int): Split {
    Split(Quantize(amount - reserveRoom - growthRoom), Quantize(reserveRoom), Quantize(growthRoom))
  }

  function SplitOf(amount: int, currentReserve: int, reserveCap: Option<int>,
                   currentGrowth: int, growthCap: Option<int>): Split
  {
    SplitRooms(amount,
               Room(Share(amount, RESERVE_PERCENT), currentReserve, reserveCap),
               Room(Share(amount, GROWTH_PERCENT), currentGrowth, growthCap))
  }

  /** Current balances and caps that are whole ledger units, as balances of the ledger and the cap functions are. */
  predicate UnitInputs(currentReserve: int, reserveCap: Option<int>, currentGrowth: int, growthCap: Option<int>) {
    && WholeUnits(currentReserve) && (reserveCap.Some? ==> WholeUnits(reserveCap.value))
    && WholeUnits(currentGrowth) && (growthCap.Some? ==> WholeUnits(growthCap.value))
  }

  // ---------- what the split promises, said without its own rounding and filling

  /** `part` is `exact` rounded to the nearest $0.0001, ties to even. */
  ghost predicate Rounded(part: int, exact: int) {
    part % 100 == 0 && NearestEven(exact, 100, part / 100)
  }

  /** `part` is so many percent of the amount, rounded. */
  ghost predicate IsShare(part: int, amount: int, percent: int) {
    part % 100 == 0 && NearestEven(amount * percent, 10_000, part / 100)
  }

  /** A pot gets its share unless that would lift it above its cap, and then exactly what is left below the cap. */
  predicate Allotted(allotted: int, share: int, current: int, cap: Option<int>) {
    allotted == if cap.Some? && current + share > cap.value then cap.value - current else share
  }

  /** Reserve is allotted from its 25%, Growth from its 15%, Operating gets what they leave; then all are rounded. */
  ghost predicate SplitFairly(s: Split, amount: int, currentReserve: int, reserveCap: Option<int>,
                              currentGrowth: int, growthCap: Option<int>)
  {
    exists r0, g0, r, g ::
      && IsShare(r0, amount, 25) && Allotted(r, r0, currentReserve, reserveCap) && Rounded(s.reserve, r)
      && IsShare(g0, amount, 15) && Allotted(g, g0, currentGrowth, growthCap) && Rounded(s.growth, g)
      && Rounded(s.operating, amount - r - g)
  }

  /** With balances and caps in whole units: the rounded share if it fits, and otherwise the pot stands at its cap. */
  ghost predicate Filled(part: int, amount: int, percent: int, current: int, cap: Option<int>) {
    exists share ::
      && IsShare(share, amount, percent)
      && if cap.None? || current + share <= cap.value then part == share else current + part == cap.value
  }

  lemma QuantizeRounds(m: int)
    ensures Rounded(Quantize(m), m)
  {
    HalfEvenIsNearestEven(m, UNIT, HalfEven(m, UNIT));
  }

  lemma ShareIsShare(amount: int, percent: int)
    ensures IsShare(Share(amount, percent), amount, percent)
  {
    HalfEvenIsNearestEven(amount * percent, 100 * UNIT, HalfEven(amount * percent, 100 * UNIT));
  }

  lemma SplitOfIsFair(amount: int, currentReserve: int, reserveCap: Option<int>,
                      currentGrowth: int, growthCap: Option<int>)
    ensures SplitFairly(SplitOf(amount, currentReserve, reserveCap, currentGrowth, growthCap),
                        amount, currentReserve, reserveCap, currentGrowth, growthCap)
  {
    var r0, g0 := Share(amount, RESERVE_PERCENT), Share(amount, GROWTH_PERCENT);
    ShareIsShare(amount, RESERVE_PERCENT);
    ShareIsShare(amount, GROWTH_PERCENT);
    FairShares(amount, r0, currentReserve, reserveCap, g0, currentGrowth, growthCap);
  }

  lemma FairShares(amount: int, r0: int, currentReserve: int, reserveCap: Option<int>,
                   g0: int, currentGrowth: int, growthCap: Option<int>)
    requires IsShare(r0, amount, 25) && IsShare(g0, amount, 15)
    ensures SplitFairly(
              SplitRooms(amount, Room(r0, currentReserve, reserveCap), Room(g0, currentGrowth, growthCap)),
              amount, currentReserve, reserveCap, currentGrowth, growthCap)
  {
    var r, g := Room(r0, currentReserve, reserveCap), Room(g0, currentGrowth, growthCap);
    assert Allotted(r, r0, currentReserve, reserveCap) && Allotted(g, g0, currentGrowth, growthCap);
    QuantizeRounds(r);
    QuantizeRounds(g);
    QuantizeRounds(amount - r - g);
  }

  lemma RoundedWhole(part: int, exact: int)
    requires Rounded(part, exact) && WholeUnits(exact)
    ensures part == exact
  {
    assert part == 100 * (part / 100);
  }

  lemma AllottedIsFilled(part: int, allotted: int, share: int, amount: int, percent: int, current: int,
                         cap: Option<int>)
    requires IsShare(share, amount, percent) && Allotted(allotted, share, current, cap) && Rounded(part, allotted)
    requires WholeUnits(current) && (cap.Some? ==> WholeUnits(cap.value))
    ensures Filled(part, amount, percent, current, cap)
  {
    assert WholeUnits(allotted);
    RoundedWhole(part, allotted);
  }

  /** Fair parts fill the pots, when balances and caps are in whole units. */
  lemma FairIsFilled(s: Split, amount: int, currentReserve: int, reserveCap: Option<int>,
                     currentGrowth: int, growthCap: Option<int>)
    requires SplitFairly(s, amount, currentReserve, reserveCap, currentGrowth, growthCap)
    requires UnitInputs(currentReserve, reserveCap, currentGrowth, growthCap)
    ensures Filled(s.reserve, amount, 25, currentReserve, reserveCap)
    ensures Filled(s.growth, amount, 15, currentGrowth, growthCap)
  {
    var r0, g0, r, g :|
      && IsShare(r0, amount, 25) && Allotted(r, r0, currentReserve, reserveCap) && Rounded(s.reserve, r)
      && IsShare(g0, amount, 15) && Allotted(g, g0, currentGrowth, growthCap) && Rounded(s.growth, g)
      && Rounded(s.operating, amount - r - g);
    AllottedIsFilled(s.reserve, r, r0, amount, 25, currentReserve, reserveCap);
    AllottedIsFilled(s.growth, g, g0, amount, 15, currentGrowth, growthCap);
  }

  /** There is only one share, so the parts above are determined. */
  lemma OneShare(a: int, b: int, amount: int, percent: int)
    requires IsShare(a, amount, percent) && IsShare(b, amount, percent)
    ensures a == b
  {
    Nearest(amount * percent, 10_000, a / 100, b / 100);
  }

  /**
   * The split as the code computes it: three rounded shares, the residue and the overflows pushed to Operating. It is
   * fair, and fills the pots where balances and caps are in whole units.
   */
  method SplitInflow(amount: int, currentReserve: int, reserveCap: Option<int>, currentGrowth: int,
                     growthCap: Option<int>)
    returns (s: Split)
    ensures s == SplitOf(amount, currentReserve, reserveCap, currentGrowth, growthCap)
    ensures SplitFairly(s, amount, currentReserve, reserveCap, currentGrowth, growthCap)
    ensures UnitInputs(currentReserve, reserveCap, currentGrowth, growthCap) ==>
              && Filled(s.reserve, amount, 25, currentReserve, reserveCap)
              && Filled(s.growth, amount, 15, currentGrowth, growthCap)
  {
    var opAmt := Share(amount, OPERATING_PERCENT);
    var resAmt := Share(amount, RESERVE_PERCENT);
    var grAmt := Share(amount, GROWTH_PERCENT);
    var residue := amount - (opAmt + resAmt + grAmt);
    opAmt := opAmt + residue;
    if reserveCap.Some? && currentReserve + resAmt > reserveCap.value {
      var overflow := (currentReserve + resAmt) - reserveCap.value;
      resAmt := resAmt - overflow;
      opAmt := opAmt + overflow;
    }
    if growthCap.Some? && currentGrowth + grAmt > growthCap.value {
      var overflow := (currentGrowth + grAmt) - growthCap.value;
      grAmt := grAmt - overflow;
      opAmt := opAmt + overflow;
    }
    assert resAmt == Room(Share(amount, RESERVE_PERCENT), currentReserve, reserveCap);
    assert grAmt == Room(Share(amount, GROWTH_PERCENT), currentGrowth, growthCap);
    assert opAmt == amount - resAmt - grAmt;
    s := Split(Quantize(opAmt), Quantize(resAmt), Quantize(grAmt));
    assert s == SplitRooms(amount, resAmt, grAmt);
    SplitOfIsFair(amount, currentReserve, reserveCap, currentGrowth, growthCap);
    if UnitInputs(currentReserve, reserveCap, currentGrowth, growthCap) {
      FairIsFilled(s, amount, currentReserve, reserveCap, currentGrowth, growthCap);
    }
  }

  // ---------- rounding bounds

  lemma QuantizeNear(m: int)
    ensures WholeUnits(Quantize(m)) && -50 <= Quantize(m) - m <= 50
    ensures WholeUnits(m) ==> Quantize(m) == m
  {
    HalfEvenIsNearestEven(m, UNIT, HalfEven(m, UNIT));
    if WholeUnits(m) {
      HalfEvenExact(m / UNIT, UNIT);
    }
  }

  lemma WholeDifference(a: int, b: int, c: int)
    requires WholeUnits(b) && WholeUnits(c)
    ensures WholeUnits(a - b - c) <==> WholeUnits(a)
    ensures WholeUnits(a - b - c) <==> WholeUnits(a - (b + c))
  {
    assert b == UNIT * (b / UNIT) && c == UNIT * (c / UNIT);
    var k := b / UNIT + c / UNIT;
    assert a - b - c == a - UNIT * k;
    WholeShift(a, k);
  }

  lemma WholeShift(a: int, k: int)
    ensures (a - UNIT * k) % UNIT == a % UNIT
  {
  }

  /** Rounding amount - r - g when r and g are whole units. */
  lemma RestOfSplit(amount: int, r: int, g: int)
    requires WholeUnits(r) && WholeUnits(g)
    ensures Quantize(r) == r && Quantize(g) == g
    ensures WholeUnits(Quantize(amount - r - g)) && -50 <= Quantize(amount - r - g) + r + g - amount <= 50
    ensures WholeUnits(amount) <==> Quantize(amount - r - g) + r + g == amount
  {
    QuantizeNear(r);
    QuantizeNear(g);
    QuantizeNear(amount - r - g);
    WholeDifference(amount, r, g);
  }

  /** A rounded share is within half a ledger unit of its percentage. */
  lemma ShareNear(amount: int, percent: int)
    ensures WholeUnits(Share(amount, percent))
    ensures -50 * 100 <= 100 * Share(amount, percent) - amount * percent <= 50 * 100
  {
    HalfEvenIsNearestEven(amount * percent, 100 * UNIT, HalfEven(amount * percent, 100 * UNIT));
  }

  /** The Growth cap is 30% of the trailing revenue and the Reserve cap the burn of the runway, both rounded. */
  lemma CapsAreWholeUnits(trailingRevenue: int, dailyBurn: int, runwayDays: int)
    ensures IsShare(GrowthCap(trailingRevenue), trailingRevenue, 30)
    ensures Rounded(ReserveCapFromBurn(dailyBurn, runwayDays), dailyBurn * runwayDays)
    ensures WholeUnits(GrowthCap(trailingRevenue)) && WholeUnits(ReserveCapFromBurn(dailyBurn, runwayDays))
  {
    ShareIsShare(trailingRevenue, GROWTH_CAP_PERCENT);
    QuantizeRounds(dailyBurn * runwayDays);
  }

  /** The half-even residue is at most one ledger unit either way. */
  lemma ResidueAtMostOneUnit(amount: int)
    requires WholeUnits(amount)
    ensures var o := Share(amount, OPERATING_PERCENT);
            var r, g := Share(amount, RESERVE_PERCENT), Share(amount, GROWTH_PERCENT);
            amount - (o + r + g) in {-UNIT, 0, UNIT}
  {
    ShareNear(amount, OPERATING_PERCENT);
    ShareNear(amount, RESERVE_PERCENT);
    ShareNear(amount, GROWTH_PERCENT);
    ResidueOf(amount, Share(amount, OPERATING_PERCENT), Share(amount, RESERVE_PERCENT), Share(amount, GROWTH_PERCENT));
  }

  lemma ResidueOf(amount: int, o: int, r: int, g: int)
    requires WholeUnits(amount) && WholeUnits(o) && WholeUnits(r) && WholeUnits(g)
    requires -5000 <= 100 * o - amount * 60 <= 5000
    requires -5000 <= 100 * r - amount * 25 <= 5000
    requires -5000 <= 100 * g - amount * 15 <= 5000
    ensures amount - (o + r + g) in {-UNIT, 0, UNIT}
  {
    var residue := amount - (o + r + g);
    WholeDifference(amount, r, g);
    WholeDifference(amount - r - g, o, 0);
    assert WholeUnits(residue) && residue == UNIT * (residue / UNIT);
  }

  /** Uncapped, Operating is within one unit of 60% and the other two within half a unit of their percentages. */
  lemma UncappedShares(amount: int)
    requires WholeUnits(amount)
    ensures var s := SplitOf(amount, 0, None, 0, None);
            && -UNIT * 100 <= 100 * s.operating - 60 * amount <= UNIT * 100
            && -UNIT * 50 <= 100 * s.reserve - 25 * amount <= UNIT * 50
            && -UNIT * 50 <= 100 * s.growth - 15 * amount <= UNIT * 50
  {
    ShareNear(amount, RESERVE_PERCENT);
    ShareNear(amount, GROWTH_PERCENT);
    RestOfSplit(amount, Share(amount, RESERVE_PERCENT), Share(amount, GROWTH_PERCENT));
  }

  lemma RoomIsWholeUnits(share: int, current: int, cap: Option<int>)
    requires WholeUnits(share) && WholeUnits(current) && (cap.Some? ==> WholeUnits(cap.value))
    ensures WholeUnits(Room(share, current, cap))
  {
  }

  lemma RoomOfShare(amount: int, percent: int, current: int, cap: Option<int>)
    requires WholeUnits(current) && (cap.Some? ==> WholeUnits(cap.value))
    ensures WholeUnits(Room(Share(amount, percent), current, cap))
  {
    var share := Share(amount, percent);
    assert WholeUnits(share) by {
      ShareNear(amount, percent);
    }
    RoomIsWholeUnits(share, current, cap);
  }

  lemma RoomsAreWholeUnits(amount: int, currentReserve: int, reserveCap: Option<int>, currentGrowth: int,
                           growthCap: Option<int>)
    requires UnitInputs(currentReserve, reserveCap, currentGrowth, growthCap)
    ensures WholeUnits(Room(Share(amount, RESERVE_PERCENT), currentReserve, reserveCap))
    ensures WholeUnits(Room(Share(amount, GROWTH_PERCENT), currentGrowth, growthCap))
  {
    RoomOfShare(amount, RESERVE_PERCENT, currentReserve, reserveCap);
    RoomOfShare(amount, GROWTH_PERCENT, currentGrowth, growthCap);
  }

  /**
   * The parts of a split sum to the amount, whatever the caps; for an amount finer than a unit, to within half a unit.
   */
  lemma SplitConserves(amount: int, currentReserve: int, reserveCap: Option<int>, currentGrowth: int,
                       growthCap: Option<int>)
    requires UnitInputs(currentReserve, reserveCap, currentGrowth, growthCap)
    ensures var s := SplitOf(amount, currentReserve, reserveCap, currentGrowth, growthCap);
            && (WholeUnits(amount) <==> s.operating + s.reserve + s.growth == amount)
            && -50 <= s.operating + s.reserve + s.growth - amount <= 50
            && WholeUnits(s.operating) && WholeUnits(s.reserve) && WholeUnits(s.growth)
  {
    RoomsAreWholeUnits(amount, currentReserve, reserveCap, currentGrowth, growthCap);
    var r := Room(Share(amount, RESERVE_PERCENT), currentReserve, reserveCap);
    var g := Room(Share(amount, GROWTH_PERCENT), currentGrowth, growthCap);
    RestOfSplit(amount, r, g);
  }

  /** What rounding to whole ledger units adds. */
  function RoundingError(m: int): int {
    Quantize(m) - m
  }

  /**
   * Rounding Operating's part makes up for `error` exactly when the total is in whole units and the error is less than
   * half a unit, or half a unit with an even number of units left beside `others`.
   */
  predicate Absorbed(total: int, error: int, others: int) {
    && WholeUnits(total) && -50 <= error <= 50
    && (error in {-50, 50} ==> ((total - others) / UNIT) % 2 == 0)
  }

  lemma QuantizeIs(m: int, t: int)
    ensures Quantize(m) == t <==> WholeUnits(t) && -50 <= t - m <= 50 && (t - m in {-50, 50} ==> (t / UNIT) % 2 == 0)
  {
    HalfEvenIsNearestEven(m, UNIT, t / UNIT);
    assert t == UNIT * (t / UNIT) + t % UNIT;
    QuantizeNear(m);
  }

  lemma OperatingAbsorbs(m: int, total: int, error: int, others: int)
    requires WholeUnits(others) && m - error == total - others
    ensures Quantize(m) + others == total <==> Absorbed(total, error, others)
  {
    QuantizeIs(m, total - others);
    WholeDifference(total, others, 0);
    assert total - others - m == -error;
  }

  /** The parts sum to the amount exactly when Operating's rounding absorbs that of the other two, for every input. */
  lemma SplitSumsExactly(amount: int, currentReserve: int, reserveCap: Option<int>,
                         currentGrowth: int, growthCap: Option<int>)
    ensures var s := SplitOf(amount, currentReserve, reserveCap, currentGrowth, growthCap);
            var r := Room(Share(amount, RESERVE_PERCENT), currentReserve, reserveCap);
            var g := Room(Share(amount, GROWTH_PERCENT), currentGrowth, growthCap);
            s.operating + s.reserve + s.growth == amount <==>
              Absorbed(amount, RoundingError(r) + RoundingError(g), Quantize(r) + Quantize(g))
  {
    var r := Room(Share(amount, RESERVE_PERCENT), currentReserve, reserveCap);
    var g := Room(Share(amount, GROWTH_PERCENT), currentGrowth, growthCap);
    RestSumsExactly(amount, r, g);
  }

  lemma RestSumsExactly(amount: int, r: int, g: int)
    ensures Quantize(amount - r - g) + Quantize(r) + Quantize(g) == amount
       <==> Absorbed(amount, RoundingError(r) + RoundingError(g), Quantize(r) + Quantize(g))
  {
    QuantizeNear(r);
    QuantizeNear(g);
    WholeSum(Quantize(r), Quantize(g));
    OperatingAbsorbs(amount - r - g, amount, RoundingError(r) + RoundingError(g), Quantize(r) + Quantize(g));
  }

  lemma WholeSum(a: int, b: int)
    requires WholeUnits(a) && WholeUnits(b)
    ensures WholeUnits(a + b)
  {
    WholeDifference(a, 0, b);
    WholeDifference(a + b, b, 0);
  }

  /** Concrete losses: $0.1001 against $0.00005 of room in Reserve, or in Growth, is split into parts of $0.1000. */
  lemma FineCapLosesAUnit()
    ensures var s := SplitOf(100_100, 0, Some(50), 0, None); s.operating + s.reserve + s.growth == 100_000
    ensures var s := SplitOf(100_100, 0, None, 0, Some(50)); s.operating + s.reserve + s.growth == 100_000
  {
    assert Share(100_100, RESERVE_PERCENT) == 25_000 && Share(100_100, GROWTH_PERCENT) == 15_000;
    assert Quantize(85_050) == 85_000 && Quantize(75_050) == 75_000;
    assert Quantize(50) == 0 && Quantize(15_000) == 15_000 && Quantize(25_000) == 25_000;
  }

  /** Operating gets at least one unit of any positive inflow, and at least as much as either other pot. */
  lemma OperatingShare(amount: int, currentReserve: int, reserveCap: Option<int>, currentGrowth: int,
                       growthCap: Option<int>)
    requires WholeUnits(amount) && amount > 0
    ensures var s := SplitOf(amount, currentReserve, reserveCap, currentGrowth, growthCap);
            s.operating >= UNIT && s.operating >= s.reserve && s.operating >= s.growth
  {
    var r0, g0 := Share(amount, RESERVE_PERCENT), Share(amount, GROWTH_PERCENT);
    var r, g := Room(r0, currentReserve, reserveCap), Room(g0, currentGrowth, growthCap);
    SmallShares(amount);
    RestDominates(amount, r0, g0, r, g);
  }

  lemma QuantizeMonotone(m: int, n: int)
    requires m <= n
    ensures Quantize(m) <= Quantize(n)
  {
    HalfEvenMonotone(m, n, UNIT);
  }

  lemma RestDominates(amount: int, r0: int, g0: int, r: int, g: int)
    requires r <= r0 && g <= g0
    requires amount - r0 - g0 >= UNIT && amount - r0 - g0 >= r0 && amount - r0 - g0 >= g0
    ensures Quantize(amount - r - g) >= UNIT
    ensures Quantize(amount - r - g) >= Quantize(r) && Quantize(amount - r - g) >= Quantize(g)
  {
    QuantizeMonotone(UNIT, amount - r - g);
    QuantizeMonotone(r, amount - r - g);
    QuantizeMonotone(g, amount - r - g);
    QuantizeNear(UNIT);
  }

  /** The two smaller shares leave Operating at least one unit and at least either of them. */
  lemma SmallShares(amount: int)
    requires WholeUnits(amount) && amount > 0
    ensures var r, g := Share(amount, RESERVE_PERCENT), Share(amount, GROWTH_PERCENT);
            amount - r - g >= UNIT && amount - r - g >= r && amount - r - g >= g
  {
    ShareNear(amount, RESERVE_PERCENT);
    ShareNear(amount, GROWTH_PERCENT);
    if amount == 100 || amount == 200 {
      assert Share(100, RESERVE_PERCENT) == 0 && Share(200, RESERVE_PERCENT) == 0;
      assert Share(100, GROWTH_PERCENT) == 0 && Share(200, GROWTH_PERCENT) == 0;
    } else {
      assert amount >= 300;
    }
  }

  /**
   * For every input: the recorded parts are whole units, and the two smaller ones stay below any limit of Operating's
   * size.
   */
  lemma PartsFollowOperating(amount: int, currentReserve: int, reserveCap: Option<int>, currentGrowth: int,
                             growthCap: Option<int>, limit: int)
    requires limit >= 1000
    ensures var s := SplitOf(amount, currentReserve, reserveCap, currentGrowth, growthCap);
            && WholeUnits(s.operating) && WholeUnits(s.reserve) && WholeUnits(s.growth)
            && (s.operating < limit ==> s.reserve < limit && s.growth < limit)
  {
    var r0, g0 := Share(amount, RESERVE_PERCENT), Share(amount, GROWTH_PERCENT);
    var r, g := Room(r0, currentReserve, reserveCap), Room(g0, currentGrowth, growthCap);
    ShareNear(amount, RESERVE_PERCENT);
    ShareNear(amount, GROWTH_PERCENT);
    PartsOfRooms(amount, r0, g0, r, g, limit);
  }

  lemma PartsOfRooms(amount: int, r0: int, g0: int, r: int, g: int, limit: int)
    requires limit >= 1000 && r <= r0 && g <= g0
    requires -5000 <= 100 * r0 - amount * 25 <= 5000
    requires -5000 <= 100 * g0 - amount * 15 <= 5000
    ensures WholeUnits(Quantize(amount - r - g)) && WholeUnits(Quantize(r)) && WholeUnits(Quantize(g))
    ensures Quantize(amount - r - g) < limit ==> Quantize(r) < limit && Quantize(g) < limit
  {
    QuantizeNear(r);
    QuantizeNear(g);
    QuantizeNear(amount - r - g);
  }

  /** How far a pot stands above its cap. */
  function Overshoot(current: int, cap: Option<int>): int {
    if cap.Some? && current > cap.value then current - cap.value else 0
  }

  function Positive(m: int): int {
    if m > 0 then m else 0
  }

  /** What reaches the ledger: parts that are not positive are dropped. */
  function Recorded(s: Split): int {
    s.operating + Positive(s.reserve) + Positive(s.growth)
  }

  /** What is lost with a part that is not positive. */
  function Dropped(m: int): int {
    Positive(m) - m
  }

  function DroppedParts(amount: int, currentReserve: int, reserveCap: Option<int>,
                        currentGrowth: int, growthCap: Option<int>): int
  {
    Dropped(Room(Share(amount, RESERVE_PERCENT), currentReserve, reserveCap))
    + Dropped(Room(Share(amount, GROWTH_PERCENT), currentGrowth, growthCap))
  }

  lemma RoomAndOvershoot(share: int, current: int, cap: Option<int>)
    requires share >= 0
    ensures Dropped(Room(share, current, cap)) == Overshoot(current, cap)
  {
  }

  /** For a positive amount, what is dropped is how far the pots stand above their caps. */
  lemma DroppedIsOvershoot(amount: int, currentReserve: int, reserveCap: Option<int>,
                           currentGrowth: int, growthCap: Option<int>)
    requires amount > 0
    ensures DroppedParts(amount, currentReserve, reserveCap, currentGrowth, growthCap)
         == Overshoot(currentReserve, reserveCap) + Overshoot(currentGrowth, growthCap)
  {
    ShareSign(amount);
    RoomAndOvershoot(Share(amount, RESERVE_PERCENT), currentReserve, reserveCap);
    RoomAndOvershoot(Share(amount, GROWTH_PERCENT), currentGrowth, growthCap);
  }

  lemma PositivePart(m: int)
    ensures Positive(Quantize(m)) == Quantize(Positive(m))
  {
    QuantizeNear(0);
    if m > 0 {
      QuantizeMonotone(0, m);
    } else {
      QuantizeMonotone(m, 0);
    }
  }

  /** The rooms left in Reserve and Growth, where there is any. */
  function ReserveRoom(amount: int, current: int, cap: Option<int>): int {
    Positive(Room(Share(amount, RESERVE_PERCENT), current, cap))
  }

  function GrowthRoom(amount: int, current: int, cap: Option<int>): int {
    Positive(Room(Share(amount, GROWTH_PERCENT), current, cap))
  }

  /**
   * What is recorded is the amount plus what is dropped exactly when Operating's rounding absorbs that of the other
   * two parts, and the amount itself exactly when it absorbs what is dropped too; it is never off by more than three
   * half units.
   */
  predicate RecordedAsDue(recorded: int, amount: int, dropped: int, reserveRoom: int, growthRoom: int) {
    var error := RoundingError(reserveRoom) + RoundingError(growthRoom);
    var others := Quantize(reserveRoom) + Quantize(growthRoom);
    && (recorded == amount + dropped <==> Absorbed(amount + dropped, error, others))
    && (recorded == amount <==> Absorbed(amount, error + dropped, others))
    && -150 <= recorded - amount - dropped <= 150
  }

  lemma RoundedPartsAsDue(amount: int, over: int, r: int, g: int)
    ensures RecordedAsDue(Quantize(amount + over - r - g) + (Quantize(r) + Quantize(g)), amount, over, r, g)
  {
    var m, others := amount + over - r - g, Quantize(r) + Quantize(g);
    var error := RoundingError(r) + RoundingError(g);
    assert WholeUnits(others) && -150 <= Quantize(m) + others - amount - over <= 150 by {
      QuantizeNear(r);
      QuantizeNear(g);
      QuantizeNear(m);
      WholeSum(Quantize(r), Quantize(g));
    }
    OperatingAbsorbs(m, amount + over, error, others);
    OperatingAbsorbs(m, amount, error + over, others);
  }

  lemma RecordedOfRooms(amount: int, r: int, g: int)
    ensures RecordedAsDue(Recorded(SplitRooms(amount, r, g)), amount, Dropped(r) + Dropped(g), Positive(r), Positive(g))
  {
    var dropped := Dropped(r) + Dropped(g);
    PositivePart(r);
    PositivePart(g);
    RoundedPartsAsDue(amount, dropped, Positive(r), Positive(g));
    assert amount + dropped - Positive(r) - Positive(g) == amount - r - g;
  }

  /** For all amounts, balances and caps. */
  lemma RecordedTotal(amount: int, currentReserve: int, reserveCap: Option<int>, currentGrowth: int,
                      growthCap: Option<int>)
    ensures RecordedAsDue(
              Recorded(SplitOf(amount, currentReserve, reserveCap, currentGrowth, growthCap)), amount,
              DroppedParts(amount, currentReserve, reserveCap, currentGrowth, growthCap),
              ReserveRoom(amount, currentReserve, reserveCap), GrowthRoom(amount, currentGrowth, growthCap))
  {
    RecordedOfRooms(amount,
                    Room(Share(amount, RESERVE_PERCENT), currentReserve, reserveCap),
                    Room(Share(amount, GROWTH_PERCENT), currentGrowth, growthCap));
  }

  /**
   * With balances and caps in whole units there is nothing to absorb: the amount and what is dropped are recorded
   * exactly if and only if the amount is in whole units, and the amount itself if and only if nothing is dropped, too.
   */
  lemma RecordedTotalInUnits(amount: int, currentReserve: int, reserveCap: Option<int>,
                             currentGrowth: int, growthCap: Option<int>)
    requires UnitInputs(currentReserve, reserveCap, currentGrowth, growthCap)
    ensures var recorded := Recorded(SplitOf(amount, currentReserve, reserveCap, currentGrowth, growthCap));
            var dropped := DroppedParts(amount, currentReserve, reserveCap, currentGrowth, growthCap);
            && (recorded == amount + dropped <==> WholeUnits(amount))
            && (recorded == amount <==> WholeUnits(amount) && dropped == 0)
            && -50 <= recorded - amount - dropped <= 50
  {
    RoomsAreWholeUnits(amount, currentReserve, reserveCap, currentGrowth, growthCap);
    RecordedRestInUnits(amount,
                        Room(Share(amount, RESERVE_PERCENT), currentReserve, reserveCap),
                        Room(Share(amount, GROWTH_PERCENT), currentGrowth, growthCap));
  }

  lemma RecordedRestInUnits(amount: int, r: int, g: int)
    requires WholeUnits(r) && WholeUnits(g)
    ensures var recorded, dropped := Recorded(SplitRooms(amount, r, g)), Dropped(r) + Dropped(g);
            && (recorded == amount + dropped <==> WholeUnits(amount))
            && (recorded == amount <==> WholeUnits(amount) && dropped == 0)
            && -50 <= recorded - amount - dropped <= 50
  {
    var m, dropped := amount - r - g, Dropped(r) + Dropped(g);
    assert Quantize(r) == r && Quantize(g) == g && (WholeUnits(m) <==> WholeUnits(amount)) by {
      QuantizeNear(r);
      QuantizeNear(g);
      WholeDifference(amount, r, g);
    }
    QuantizeNear(m);
    WholeSum(Dropped(r), Dropped(g));
    WholeError(m, dropped);
    assert Recorded(SplitRooms(amount, r, g)) - amount - dropped == Quantize(m) - m;
  }

  /** An error in whole units is absorbed only if there is none. */
  lemma WholeError(m: int, over: int)
    requires WholeUnits(over)
    ensures Quantize(m) - m == -over <==> WholeUnits(m) && over == 0
    ensures Quantize(m) == m <==> WholeUnits(m)
  {
    QuantizeNear(m);
  }

  /** Nothing, with $290 in Growth and a cap of zero: Operating still gets what Growth has too much. */
  lemma SplitOfNothing()
    ensures SplitOf(0, 0, None, 290_000_000, Some(GrowthCap(0))) == Split(290_000_000, 0, -290_000_000)
  {
    assert GrowthCap(0) == 0;
    assert Share(0, RESERVE_PERCENT) == 0 && Share(0, GROWTH_PERCENT) == 0;
    assert Quantize(290_000_000) == 290_000_000 && Quantize(0) == 0 && Quantize(-290_000_000) == -290_000_000;
  }

  /** The same with -$100. */
  lemma SplitOfLess()
    ensures SplitOf(-100_000_000, 0, None, 290_000_000, Some(GrowthCap(0))) ==
              Split(215_000_000, -25_000_000, -290_000_000)
  {
    assert GrowthCap(0) == 0;
    assert Share(-100_000_000, RESERVE_PERCENT) == -25_000_000 && Share(-100_000_000, GROWTH_PERCENT) == -15_000_000;
    assert Quantize(215_000_000) == 215_000_000 && Quantize(-25_000_000) == -25_000_000;
    assert Quantize(-290_000_000) == -290_000_000;
  }

  /** $100 with $290 in Growth and a cap of zero: Growth's negative part is added to Operating's. */
  lemma SplitAboveCap()
    ensures SplitOf(100_000_000, 0, None, 290_000_000, Some(GrowthCap(0))) ==
              Split(365_000_000, 25_000_000, -290_000_000)
  {
    assert GrowthCap(0) == 0;
    assert Share(100_000_000, RESERVE_PERCENT) == 25_000_000 && Share(100_000_000, GROWTH_PERCENT) == 15_000_000;
    assert Quantize(365_000_000) == 365_000_000 && Quantize(25_000_000) == 25_000_000
           && Quantize(-290_000_000) == -290_000_000;
  }

  lemma ShareSign(amount: int)
    requires amount > 0
    ensures Share(amount, RESERVE_PERCENT) >= 0 && Share(amount, GROWTH_PERCENT) >= 0
  {
    HalfEvenMonotone(0, amount * RESERVE_PERCENT, 100 * UNIT);
    HalfEvenMonotone(0, amount * GROWTH_PERCENT, 100 * UNIT);
  }
}
