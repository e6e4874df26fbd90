/** What holds of the ledger over whole runs of operations, accepted and refused. */
module LedgerRuns {
  import opened Wrappers
  import opened InflowSplit
  import opened Ledger
  import D = Decimals

  predicate TakesFromReserve(row: Row) {
    row.pot == Reserve && row.delta < 0
  }

  function Run(mac: Mac, rows: seq<Row>, ops: seq<Op>): seq<Row> {
    if ops == [] then rows else Apply(mac, Run(mac, rows, ops[..|ops| - 1]), ops[|ops| - 1])
  }

  /**
   * One operation on the service object does to its rows exactly what Apply says, so Run describes the object's life.
   */
  method Perform(service: CashflowService, op: Op)
    requires service.Valid()
    modifies service
    ensures service.Valid() && service.rows == Apply(service.mac, old(service.rows), op)
  {
    match op
    case RecordOp(row) =>
      var _ := service.RecordEntry(row.pot, row.delta, row.source, row.refId, row.note);
    case DebitOp(pot, amount, source, refId, note) =>
      var _ := service.DebitPot(pot, amount, source, refId, note);
    case CreditOp(pot, amount, source, refId, note) =>
      var _ := service.CreditPot(pot, amount, source, refId, note);
    case InflowOp(amount, source, refId, reserveCap, trailing) =>
      var _ := service.SplitAndRecordInflow(amount, source, refId, reserveCap, trailing);
    case TransferOp(amount, dateIso, signature, secret) =>
      var _ := service.TransferReserveToOperating(amount, dateIso, signature, secret);
  }

  // ---------- every operation only appends rows that were acceptable

  /** `later` grew from `earlier` by rows each acceptable when it was added. */
  ghost predicate Grew(earlier: seq<Row>, later: seq<Row>) {
    earlier <= later && (Sound(earlier) ==> Sound(later))
  }

  lemma RecordGrows(rows: seq<Row>, row: Row)
    ensures Grew(rows, Kept(rows, Record(rows, row)))
  {
    if Sound(rows) && RowError(rows, row).None? {
      SoundSnoc(rows, row);
    }
  }

  lemma PartGrows(rows: seq<Row>, pot: Pot, amount: int, source: Source, refId: Option<string>)
    requires WholeUnits(amount) && amount < DELTA_LIMIT
    ensures Grew(rows, rows + Part(pot, amount, source, refId))
  {
    if amount > 0 {
      RecordGrows(rows, Row(pot, amount, source, refId, ""));
    } else {
      assert rows + Part(pot, amount, source, refId) == rows;
    }
  }

  lemma InflowGrows(rows: seq<Row>, s: Split, source: Source, refId: Option<string>)
    requires Credit(rows, Operating, s.operating, source, refId, "").Ok?
    requires WholeUnits(s.reserve) && WholeUnits(s.growth) && s.reserve < DELTA_LIMIT && s.growth < DELTA_LIMIT
    ensures Grew(rows, rows + InflowRows(s, source, refId))
  {
    var r1 := rows + [Row(Operating, s.operating, source, refId, "")];
    RecordGrows(rows, Row(Operating, s.operating, source, refId, ""));
    var r2 := r1 + Part(Reserve, s.reserve, source, refId);
    PartGrows(r1, Reserve, s.reserve, source, refId);
    PartGrows(r2, Growth, s.growth, source, refId);
    assert rows + InflowRows(s, source, refId) == r2 + Part(Growth, s.growth, source, refId);
  }

  lemma TransferGrows(rows: seq<Row>, m: int, dateIso: string)
    requires 0 < m < DELTA_LIMIT && WholeUnits(m) && |TransferNote(dateIso)| <= MAX_NOTE
    ensures Grew(rows, rows + TransferRows(m, dateIso))
  {
    var t := TransferRows(m, dateIso);
    NegatedUnits(m);
    RecordGrows(rows, t[0]);
    RecordGrows(rows + [t[0]], t[1]);
    assert rows + t == (rows + [t[0]]) + [t[1]];
  }

  lemma ApplyGrows(mac: Mac, rows: seq<Row>, op: Op)
    ensures Grew(rows, Apply(mac, rows, op))
  {
    match op
    case RecordOp(row) => RecordGrows(rows, row);
    case DebitOp(pot, amount, source, refId, note) => RecordGrows(rows, Row(pot, -amount, source, refId, note));
    case CreditOp(pot, amount, source, refId, note) => RecordGrows(rows, Row(pot, amount, source, refId, note));
    case InflowOp(amount, source, refId, reserveCap, trailing) =>
      var s := SplitFor(rows, amount, reserveCap, trailing);
      var growthCap := Some(GrowthCap(trailing));
      PartsFollowOperating(amount, PotSum(rows, Reserve), reserveCap, PotSum(rows, Growth), growthCap, DELTA_LIMIT);
      if Credit(rows, Operating, s.operating, source, refId, "").Ok? {
        InflowGrows(rows, s, source, refId);
      }
    case TransferOp(amount, dateIso, signature, secret) =>
      D.MicrosSign(amount);
      if TransferAllowed(mac, amount, dateIso, signature, secret) {
        TransferGrows(rows, D.Micros(amount), dateIso);
      }
  }

  lemma {:induction false} RunGrows(mac: Mac, rows: seq<Row>, ops: seq<Op>, n: nat)
    requires n <= |ops|
    ensures Grew(Run(mac, rows, ops[..n]), Run(mac, rows, ops))
    decreases |ops|
  {
    if n == |ops| {
      assert ops[..n] == ops;
    } else {
      assert ops[..|ops| - 1][..n] == ops[..n];
      RunGrows(mac, rows, ops[..|ops| - 1], n);
      ApplyGrows(mac, Run(mac, rows, ops[..|ops| - 1]), ops[|ops| - 1]);
    }
  }

  /**
   * Main result, from the empty ledger, over every sequence of operations: Growth and Operating stay at or above zero,
   * and every row that takes money from Reserve carries the emergency-transfer source.
   */
  lemma {:induction false} RunInvariant(mac: Mac, ops: seq<Op>)
    ensures Sound(Run(mac, [], ops))
    ensures PotSum(Run(mac, [], ops), Growth) >= 0 && PotSum(Run(mac, [], ops), Operating) >= 0
    ensures forall i :: 0 <= i < |Run(mac, [], ops)| && TakesFromReserve(Run(mac, [], ops)[i]) ==>
              Run(mac, [], ops)[i].source == EmergencyTransfer
  {
    RunGrows(mac, [], ops, 0);
    assert ops[..0] == [];
    var rows := Run(mac, [], ops);
    SoundBalances(rows);
    forall i | 0 <= i < |rows| && TakesFromReserve(rows[i]) ensures rows[i].source == EmergencyTransfer {
      SoundRows(rows, i);
    }
  }

  /**
   * Main result: once Operating is at or above $50 no later operation, and no row in the middle of one, brings it
   * below.
   */
  lemma {:induction false} RunKeepsFloor(mac: Mac, ops: seq<Op>, n: nat, k: nat)
    requires n <= |ops| && PotSum(Run(mac, [], ops[..n]), Operating) >= 50_000_000
    requires |Run(mac, [], ops[..n])| <= k <= |Run(mac, [], ops)|
    ensures PotSum(Run(mac, [], ops)[..k], Operating) >= 50_000_000
  {
    RunInvariant(mac, ops[..n]);
    RunGrows(mac, [], ops, n);
    RunInvariant(mac, ops);
    var rows := Run(mac, [], ops);
    SoundPrefix(rows, k);
    assert rows[..k][..|Run(mac, [], ops[..n])|] == Run(mac, [], ops[..n]);
    FloorIsKept(rows[..k], |Run(mac, [], ops[..n])|);
  }

  lemma {:induction false} SoundPrefix(rows: seq<Row>, k: nat)
    requires Sound(rows) && k <= |rows|
    ensures Sound(rows[..k])
  {
    if k == |rows| {
      assert rows[..k] == rows;
    } else {
      assert rows[..|rows| - 1][..k] == rows[..k];
      SoundPrefix(rows[..|rows| - 1], k);
    }
  }

  // ---------- what one operation does to the total

  lemma PartTotal(rows: seq<Row>, pot: Pot, amount: int, source: Source, refId: Option<string>)
    ensures FlatSum(rows + Part(pot, amount, source, refId)) == FlatSum(rows) + Positive(amount)
  {
    if amount > 0 {
      PotSumSnoc(rows, Row(pot, amount, source, refId, ""), pot);
    } else {
      assert rows + Part(pot, amount, source, refId) == rows;
    }
  }

  lemma InflowRowsTotal(rows: seq<Row>, s: Split, source: Source, refId: Option<string>)
    ensures FlatSum(rows + InflowRows(s, source, refId))
         == FlatSum(rows) + s.operating + Positive(s.reserve) + Positive(s.growth)
  {
    var r1 := rows + [Row(Operating, s.operating, source, refId, "")];
    var r2 := r1 + Part(Reserve, s.reserve, source, refId);
    PotSumSnoc(rows, Row(Operating, s.operating, source, refId, ""), Operating);
    PartTotal(r1, Reserve, s.reserve, source, refId);
    PartTotal(r2, Growth, s.growth, source, refId);
    assert rows + InflowRows(s, source, refId) == r2 + Part(Growth, s.growth, source, refId);
  }

  lemma InflowApplied(rows: seq<Row>, s: Split, source: Source, refId: Option<string>)
    requires WholeUnits(s.operating)
    ensures Credit(rows, Operating, s.operating, source, refId, "").Ok? <==> 0 < s.operating < DELTA_LIMIT
    ensures rows + InflowRows(s, source, refId) != rows
    ensures FlatSum(rows + InflowRows(s, source, refId)) ==
              FlatSum(rows) + s.operating + Positive(s.reserve) + Positive(s.growth)
  {
    assert |rows + InflowRows(s, source, refId)| > |rows|;
    InflowRowsTotal(rows, s, source, refId);
  }

  lemma NoOvershoot(reserve: int, reserveCap: Option<int>, growth: int, growthCap: int)
    ensures Overshoot(reserve, reserveCap) + Overshoot(growth, Some(growthCap)) == 0
       <==> (reserveCap.Some? ==> reserve <= reserveCap.value) && growth <= growthCap
  {
  }

  /** How far the pots stand above their caps when an inflow arrives. */
  function OvershootFor(rows: seq<Row>, reserveCap: Option<int>, trailing: int): int {
    Overshoot(PotSum(rows, Reserve), reserveCap) + Overshoot(PotSum(rows, Growth), Some(GrowthCap(trailing)))
  }

  lemma SplitOutcome(rows: seq<Row>, s: Split, source: Source, refId: Option<string>)
    requires WholeUnits(s.operating)
    ensures var accepted := Credit(rows, Operating, s.operating, source, refId, "").Ok?;
            var after := if accepted then rows + InflowRows(s, source, refId) else rows;
            && (after == rows <==> !(0 < s.operating < DELTA_LIMIT))
            && (after != rows ==> FlatSum(after) == FlatSum(rows) + Recorded(s) > FlatSum(rows))
  {
    InflowApplied(rows, s, source, refId);
  }

  /** What an inflow loses with the parts that are not positive. */
  function DroppedFor(rows: seq<Row>, amount: int, reserveCap: Option<int>, trailing: int): int {
    DroppedParts(amount, PotSum(rows, Reserve), reserveCap, PotSum(rows, Growth), Some(GrowthCap(trailing)))
  }

  /**
   * An inflow of any amount is refused exactly when Operating's part is not positive or beyond the entry schema;
   * otherwise the total rises, by the positive parts.
   */
  lemma InflowRefused(mac: Mac, rows: seq<Row>, amount: int, source: Source, refId: Option<string>,
                      reserveCap: Option<int>, trailing: int)
    ensures var s := SplitFor(rows, amount, reserveCap, trailing);
            var after := Apply(mac, rows, InflowOp(amount, source, refId, reserveCap, trailing));
            && (after == rows <==> !(0 < s.operating < DELTA_LIMIT))
            && (WholeUnits(amount) && amount > 0 ==> s.operating > 0)
            && (after != rows ==> FlatSum(after) == FlatSum(rows) + Recorded(s) > FlatSum(rows))
  {
    var reserve, growth, growthCap := PotSum(rows, Reserve), PotSum(rows, Growth), Some(GrowthCap(trailing));
    assert WholeUnits(SplitFor(rows, amount, reserveCap, trailing).operating) by {
      PartsFollowOperating(amount, reserve, reserveCap, growth, growthCap, DELTA_LIMIT);
    }
    if WholeUnits(amount) && amount > 0 {
      OperatingShare(amount, reserve, reserveCap, growth, growthCap);
    }
    SplitOutcome(rows, SplitFor(rows, amount, reserveCap, trailing), source, refId);
  }

  lemma RiseAsDue(rise: int, recorded: int, amount: int, dropped: int, reserveRoom: int, growthRoom: int)
    requires rise == recorded && RecordedAsDue(recorded, amount, dropped, reserveRoom, growthRoom)
    ensures RecordedAsDue(rise, amount, dropped, reserveRoom, growthRoom)
  {
  }

  /**
   * Recording an inflow, whatever its amount and the caps: the total rises by the amount plus what is dropped, which
   * for a positive amount is each pot's overshoot above its cap, exactly when Operating's rounding absorbs that of the
   * other two parts, and by the amount itself exactly when it absorbs what is dropped too.
   */
  lemma InflowConservation(mac: Mac, rows: seq<Row>, amount: int, source: Source, refId: Option<string>,
                           reserveCap: Option<int>, trailing: int)
    ensures var after := Apply(mac, rows, InflowOp(amount, source, refId, reserveCap, trailing));
            after != rows ==>
              RecordedAsDue(FlatSum(after) - FlatSum(rows), amount, DroppedFor(rows, amount, reserveCap, trailing),
                            ReserveRoom(amount, PotSum(rows, Reserve), reserveCap),
                            GrowthRoom(amount, PotSum(rows, Growth), Some(GrowthCap(trailing))))
    ensures amount > 0 ==> DroppedFor(rows, amount, reserveCap, trailing) == OvershootFor(rows, reserveCap, trailing)
  {
    var reserve, growth, growthCap := PotSum(rows, Reserve), PotSum(rows, Growth), Some(GrowthCap(trailing));
    InflowRefused(mac, rows, amount, source, refId, reserveCap, trailing);
    RecordedTotal(amount, reserve, reserveCap, growth, growthCap);
    var after := Apply(mac, rows, InflowOp(amount, source, refId, reserveCap, trailing));
    var s := SplitOf(amount, reserve, reserveCap, growth, growthCap);
    if after != rows {
      RiseAsDue(FlatSum(after) - FlatSum(rows), Recorded(s), amount, DroppedFor(rows, amount, reserveCap, trailing),
                ReserveRoom(amount, reserve, reserveCap), GrowthRoom(amount, growth, growthCap));
    }
    if amount > 0 {
      DroppedIsOvershoot(amount, reserve, reserveCap, growth, growthCap);
    }
  }

  /**
   * With a Reserve cap in whole units the total rises by the amount plus what is dropped if and only if the amount is
   * in whole units, and by exactly the amount if and only if, besides, that is positive and no capped pot stands above
   * its cap.
   */
  lemma InflowConservationInUnits(mac: Mac, rows: seq<Row>, amount: int, source: Source, refId: Option<string>,
                                  reserveCap: Option<int>, trailing: int)
    requires Sound(rows) && (reserveCap.Some? ==> WholeUnits(reserveCap.value))
    ensures var after := Apply(mac, rows, InflowOp(amount, source, refId, reserveCap, trailing));
            var dropped := DroppedFor(rows, amount, reserveCap, trailing);
            after != rows ==>
              && -50 <= FlatSum(after) - FlatSum(rows) - amount - dropped <= 50
              && (FlatSum(after) == FlatSum(rows) + amount + dropped <==> WholeUnits(amount))
              && (FlatSum(after) == FlatSum(rows) + amount <==>
                    && WholeUnits(amount) && amount > 0
                    && (reserveCap.Some? ==> PotSum(rows, Reserve) <= reserveCap.value)
                    && PotSum(rows, Growth) <= GrowthCap(trailing))
  {
    var reserve, growth, growthCap := PotSum(rows, Reserve), PotSum(rows, Growth), GrowthCap(trailing);
    SoundBalances(rows);
    CapsAreWholeUnits(trailing, 0, 0);
    InflowRefused(mac, rows, amount, source, refId, reserveCap, trailing);
    RecordedTotalInUnits(amount, reserve, reserveCap, growth, Some(growthCap));
    if amount > 0 {
      DroppedIsOvershoot(amount, reserve, reserveCap, growth, Some(growthCap));
    }
    NoOvershoot(reserve, reserveCap, growth, growthCap);
  }

  /** A recorded inflow reaches each pot by its own part, and takes from none. */
  lemma InflowReachesPots(mac: Mac, rows: seq<Row>, amount: int, source: Source, refId: Option<string>,
                          reserveCap: Option<int>, trailing: int)
    ensures var s := SplitFor(rows, amount, reserveCap, trailing);
            var after := Apply(mac, rows, InflowOp(amount, source, refId, reserveCap, trailing));
            after != rows ==>
              && PotSum(after, Operating) == PotSum(rows, Operating) + s.operating
              && PotSum(after, Reserve) == PotSum(rows, Reserve) + Positive(s.reserve)
              && PotSum(after, Growth) == PotSum(rows, Growth) + Positive(s.growth)
  {
    var s := SplitFor(rows, amount, reserveCap, trailing);
    InflowRowsReach(rows, s, source, refId, Operating);
    InflowRowsReach(rows, s, source, refId, Reserve);
    InflowRowsReach(rows, s, source, refId, Growth);
  }

  lemma PartReaches(rows: seq<Row>, into: Pot, amount: int, source: Source, refId: Option<string>, pot: Pot)
    ensures PotSum(rows + Part(into, amount, source, refId), pot)
         == PotSum(rows, pot) + (if into == pot then Positive(amount) else 0)
  {
    if amount > 0 {
      PotSumSnoc(rows, Row(into, amount, source, refId, ""), pot);
    } else {
      assert rows + Part(into, amount, source, refId) == rows;
    }
  }

  lemma InflowRowsReach(rows: seq<Row>, s: Split, source: Source, refId: Option<string>, pot: Pot)
    ensures PotSum(rows + InflowRows(s, source, refId), pot)
         == PotSum(rows, pot) + (match pot
                                 case Operating => s.operating
                                 case Reserve => Positive(s.reserve)
                                 case Growth => Positive(s.growth))
  {
    var r1 := rows + [Row(Operating, s.operating, source, refId, "")];
    var r2 := r1 + Part(Reserve, s.reserve, source, refId);
    PotSumSnoc(rows, Row(Operating, s.operating, source, refId, ""), pot);
    PartReaches(r1, Reserve, s.reserve, source, refId, pot);
    PartReaches(r2, Growth, s.growth, source, refId, pot);
    InflowRowsInTurn(rows, s, source, refId);
  }

  /**
   * What a positive inflow does to a capped pot that stands at or below its cap, all in whole units: it gets its share
   * if that fits, and otherwise stands exactly at its cap afterwards.
   */
  lemma InflowFillsPots(mac: Mac, rows: seq<Row>, amount: int, source: Source, refId: Option<string>,
                        reserveCap: Option<int>, trailing: int)
    requires Sound(rows) && amount > 0 && (reserveCap.Some? ==> WholeUnits(reserveCap.value))
    ensures var after := Apply(mac, rows, InflowOp(amount, source, refId, reserveCap, trailing));
            var reserve, growth, growthCap := PotSum(rows, Reserve), PotSum(rows, Growth), GrowthCap(trailing);
            after != rows ==>
              && ((reserveCap.Some? ==> reserve <= reserveCap.value) ==>
                    Filled(PotSum(after, Reserve) - reserve, amount, 25, reserve, reserveCap))
              && (growth <= growthCap ==> Filled(PotSum(after, Growth) - growth, amount, 15, growth, Some(growthCap)))
              && (reserveCap.Some? && reserve > reserveCap.value ==> PotSum(after, Reserve) == reserve)
              && (growth > growthCap ==> PotSum(after, Growth) == growth)
  {
    var reserve, growth, growthCap := PotSum(rows, Reserve), PotSum(rows, Growth), GrowthCap(trailing);
    var s := SplitFor(rows, amount, reserveCap, trailing);
    SoundBalances(rows);
    CapsAreWholeUnits(trailing, 0, 0);
    InflowReachesPots(mac, rows, amount, source, refId, reserveCap, trailing);
    SplitOfIsFair(amount, reserve, reserveCap, growth, Some(growthCap));
    FairIsFilled(s, amount, reserve, reserveCap, growth, Some(growthCap));
    FilledSign(s.reserve, amount, 25, reserve, reserveCap);
    FilledSign(s.growth, amount, 15, growth, Some(growthCap));
  }

  /** For a positive amount the part of a pot is negative exactly when the pot stands above its cap. */
  lemma FilledSign(part: int, amount: int, percent: int, current: int, cap: Option<int>)
    requires Filled(part, amount, percent, current, cap) && amount > 0 && percent > 0
    ensures part < 0 <==> cap.Some? && current > cap.value
  {
    var share :| && IsShare(share, amount, percent)
                 && if cap.None? || current + share <= cap.value then part == share else current + part == cap.value;
    assert amount * percent > 0;
    assert share == 100 * (share / 100);
  }

  /** A ledger with $290 in Growth and nothing else. */
  const GROWTH_ONLY := [Row(Growth, 290_000_000, ManualTopup, None, "")]

  lemma GrowthOnly()
    ensures Sound(GROWTH_ONLY) && PotSum(GROWTH_ONLY, Reserve) == 0 && PotSum(GROWTH_ONLY, Growth) == 290_000_000
  {
    var row := Row(Growth, 290_000_000, ManualTopup, None, "");
    assert [] + [row] == GROWTH_ONLY;
    SoundSnoc([], row);
    PotSumSnoc([], row, Growth);
    PotSumSnoc([], row, Reserve);
  }

  lemma InflowRise(mac: Mac, rows: seq<Row>, amount: int, s: Split)
    requires SplitOf(amount, PotSum(rows, Reserve), None, PotSum(rows, Growth), Some(GrowthCap(0))) == s
    requires WholeUnits(s.operating) && 0 < s.operating < DELTA_LIMIT
    ensures FlatSum(Apply(mac, rows, InflowOp(amount, RevenuePolar, None, None, 0))) == FlatSum(rows) + Recorded(s)
  {
    assert SplitFor(rows, amount, None, 0) == s;
    SplitOutcome(rows, s, RevenuePolar, None);
  }

  /** With the default trailing revenue of zero, a $100 inflow on top of $290 in Growth raises the ledger by $390. */
  lemma InflowAboveCapOvercounts(mac: Mac)
    ensures Sound(GROWTH_ONLY)
    ensures FlatSum(Apply(mac, GROWTH_ONLY, InflowOp(100_000_000, RevenuePolar, None, None, 0)))
         == FlatSum(GROWTH_ONLY) + 390_000_000
  {
    GrowthOnly();
    SplitAboveCap();
    InflowRise(mac, GROWTH_ONLY, 100_000_000, Split(365_000_000, 25_000_000, -290_000_000));
  }

  /** No amount is credited as well: on top of $290 in Growth, $0 adds $290. */
  lemma InflowOfNothingIsCredited(mac: Mac)
    ensures Sound(GROWTH_ONLY)
    ensures FlatSum(Apply(mac, GROWTH_ONLY, InflowOp(0, RevenuePolar, None, None, 0)))
         == FlatSum(GROWTH_ONLY) + 290_000_000
  {
    GrowthOnly();
    SplitOfNothing();
    InflowRise(mac, GROWTH_ONLY, 0, Split(290_000_000, 0, -290_000_000));
  }

  /** So is a negative one: -$100 adds $215. */
  lemma NegativeInflowIsCredited(mac: Mac)
    ensures Sound(GROWTH_ONLY)
    ensures FlatSum(Apply(mac, GROWTH_ONLY, InflowOp(-100_000_000, RevenuePolar, None, None, 0)))
         == FlatSum(GROWTH_ONLY) + 215_000_000
  {
    GrowthOnly();
    SplitOfLess();
    InflowRise(mac, GROWTH_ONLY, -100_000_000, Split(215_000_000, -25_000_000, -290_000_000));
  }

  lemma TransferSums(rows: seq<Row>, out: Row, inn: Row, pot: Pot)
    ensures FlatSum((rows + [out]) + [inn]) == FlatSum(rows) + out.delta + inn.delta
    ensures PotSum((rows + [out]) + [inn], pot)
         == PotSum(rows, pot) + (if out.pot == pot then out.delta else 0) + (if inn.pot == pot then inn.delta else 0)
  {
    PotSumSnoc(rows, out, pot);
    PotSumSnoc(rows + [out], inn, pot);
  }

  /**
   * An emergency transfer moves the amount as written from Reserve to Operating: both rows are written, and the total
   * stays the same.
   */
  lemma TransferConserves(mac: Mac, rows: seq<Row>, amount: D.Decimal, dateIso: string, signature: string,
                          secret: string)
    requires TransferAllowed(mac, amount, dateIso, signature, secret)
    ensures var after := Apply(mac, rows, TransferOp(amount, dateIso, signature, secret));
            && after == rows + TransferRows(D.Micros(amount), dateIso)
            && FlatSum(after) == FlatSum(rows)
            && PotSum(after, Operating) == PotSum(rows, Operating) + D.Micros(amount)
            && PotSum(after, Reserve) == PotSum(rows, Reserve) - D.Micros(amount)
            && PotSum(after, Growth) == PotSum(rows, Growth)
    ensures IsAmount(D.Micros(amount), amount)
    ensures var m, note := D.Micros(amount), "signed EMERGENCY_TRANSFER " + dateIso;
            TransferRows(m, dateIso) ==
              [Row(Reserve, -m, EmergencyTransfer, None, note), Row(Operating, m, EmergencyTransfer, None, note)]
  {
    D.MicrosExact(amount);
    var t := TransferRows(D.Micros(amount), dateIso);
    assert rows + t == (rows + [t[0]]) + [t[1]];
    TransferSums(rows, t[0], t[1], Operating);
    TransferSums(rows, t[0], t[1], Reserve);
    TransferSums(rows, t[0], t[1], Growth);
  }

  // ---------- when Reserve stays at or above zero

  /** A record or debit that takes from Reserve under the transfer label, which no signature is asked for. */
  predicate LabelledDraw(op: Op) {
    match op
    case RecordOp(row) => TakesFromReserve(row) && row.source == EmergencyTransfer && SchemaOk(row)
    case DebitOp(pot, amount, source, _, note) =>
      && pot == Reserve && source == EmergencyTransfer
      && amount > 0 && WholeUnits(amount) && amount < DELTA_LIMIT && |note| <= MAX_NOTE
    case _ => false
  }

  /** What an operation takes from Reserve, whatever the ledger holds. */
  function Drawn(mac: Mac, op: Op): (drawn: int)
    ensures LabelledDraw(op) ==> drawn > 0
  {
    match op
    case RecordOp(row) => if LabelledDraw(op) then -row.delta else 0
    case DebitOp(_, amount, _, _, _) => if LabelledDraw(op) then amount else 0
    case TransferOp(amount, dateIso, signature, secret) =>
      if TransferAllowed(mac, amount, dateIso, signature, secret) then D.Micros(amount) else 0
    case _ => 0
  }

  /** A row takes from Reserve exactly when it is labelled and fits the entry schema: no balance is looked at. */
  lemma DrawAccepted(rows: seq<Row>, row: Row)
    requires TakesFromReserve(row)
    ensures RowError(rows, row).None? <==> LabelledDraw(RecordOp(row))
  {
  }

  lemma DebitIsDraw(pot: Pot, amount: int, source: Source, refId: Option<string>, note: string)
    requires amount > 0
    ensures LabelledDraw(DebitOp(pot, amount, source, refId, note))
       <==> LabelledDraw(RecordOp(Row(pot, -amount, source, refId, note)))
  {
    NegatedUnits(amount);
  }

  /** One row more changes Reserve by that row. */
  lemma RecordReserve(rows: seq<Row>, row: Row)
    ensures var after := Kept(rows, Record(rows, row));
            PotSum(after, Reserve) == PotSum(rows, Reserve)
              + (if RowError(rows, row).None? && row.pot == Reserve then row.delta else 0)
  {
    PotSumSnoc(rows, row, Reserve);
  }

  lemma PartReserve(rows: seq<Row>, pot: Pot, amount: int, source: Source, refId: Option<string>)
    ensures PotSum(rows + Part(pot, amount, source, refId), Reserve) >= PotSum(rows, Reserve)
  {
    if amount > 0 {
      PotSumSnoc(rows, Row(pot, amount, source, refId, ""), Reserve);
    } else {
      assert rows + Part(pot, amount, source, refId) == rows;
    }
  }

  lemma InflowReserve(rows: seq<Row>, s: Split, source: Source, refId: Option<string>)
    ensures PotSum(rows + InflowRows(s, source, refId), Reserve) >= PotSum(rows, Reserve)
  {
    var op := Row(Operating, s.operating, source, refId, "");
    var r2 := rows + [op] + Part(Reserve, s.reserve, source, refId);
    PotSumSnoc(rows, op, Reserve);
    PartReserve(rows + [op], Reserve, s.reserve, source, refId);
    PartReserve(r2, Growth, s.growth, source, refId);
    assert rows + InflowRows(s, source, refId) == r2 + Part(Growth, s.growth, source, refId);
  }

  /** What drawing `drawn` does to Reserve: no more than that is taken, and exactly that if anything is drawn. */
  ghost predicate Takes(rows: seq<Row>, after: seq<Row>, drawn: int) {
    && PotSum(after, Reserve) >= PotSum(rows, Reserve) - drawn
    && (drawn > 0 ==> PotSum(after, Reserve) == PotSum(rows, Reserve) - drawn)
  }

  lemma RecordTakes(rows: seq<Row>, row: Row)
    ensures Takes(rows, Kept(rows, Record(rows, row)), if LabelledDraw(RecordOp(row)) then -row.delta else 0)
  {
    RecordReserve(rows, row);
    if TakesFromReserve(row) {
      DrawAccepted(rows, row);
    }
  }

  lemma DebitTakes(rows: seq<Row>, pot: Pot, amount: int, source: Source, refId: Option<string>, note: string)
    ensures Takes(rows, Kept(rows, Debit(rows, pot, amount, source, refId, note)),
                  if LabelledDraw(DebitOp(pot, amount, source, refId, note)) then amount else 0)
  {
    if amount > 0 {
      RecordTakes(rows, Row(pot, -amount, source, refId, note));
      DebitIsDraw(pot, amount, source, refId, note);
    }
  }

  lemma CreditTakes(rows: seq<Row>, pot: Pot, amount: int, source: Source, refId: Option<string>, note: string)
    ensures Takes(rows, Kept(rows, Credit(rows, pot, amount, source, refId, note)), 0)
  {
    RecordReserve(rows, Row(pot, amount, source, refId, note));
  }

  /** An operation takes from Reserve what it draws. */
  lemma ReserveAfter(mac: Mac, rows: seq<Row>, op: Op)
    ensures Takes(rows, Apply(mac, rows, op), Drawn(mac, op))
  {
    match op
    case RecordOp(row) => RecordTakes(rows, row);
    case DebitOp(pot, amount, source, refId, note) => DebitTakes(rows, pot, amount, source, refId, note);
    case CreditOp(pot, amount, source, refId, note) => CreditTakes(rows, pot, amount, source, refId, note);
    case InflowOp(amount, source, refId, reserveCap, trailing) =>
      InflowReserve(rows, SplitFor(rows, amount, reserveCap, trailing), source, refId);
    case TransferOp(amount, dateIso, signature, secret) =>
      if TransferAllowed(mac, amount, dateIso, signature, secret) {
        TransferConserves(mac, rows, amount, dateIso, signature, secret);
      }
  }

  /** A transfer leaves Reserve at or above zero exactly when Reserve holds the amount, which nothing checks. */
  lemma ReserveAfterTransfer(mac: Mac, rows: seq<Row>, amount: D.Decimal, dateIso: string, signature: string,
                             secret: string)
    requires TransferAllowed(mac, amount, dateIso, signature, secret)
    ensures PotSum(Apply(mac, rows, TransferOp(amount, dateIso, signature, secret)), Reserve) >= 0
       <==> D.Micros(amount) <= PotSum(rows, Reserve)
  {
    TransferConserves(mac, rows, amount, dateIso, signature, secret);
  }

  /** Reserve has no floor: with any signing function, a correctly signed transfer of $1 overdraws an empty ledger's. */
  lemma TransferOverdrawsReserve(mac: Mac, secret: string)
    ensures var d: D.Decimal := D.Amount(1, 0);
            var signature := mac(secret, SignedMessage(d, "2026-01-01"));
            && TransferAllowed(mac, d, "2026-01-01", signature, secret)
            && Sound(Apply(mac, [], TransferOp(d, "2026-01-01", signature, secret)))
            && PotSum(Apply(mac, [], TransferOp(d, "2026-01-01", signature, secret)), Reserve) == -1_000_000
  {
    var d: D.Decimal := D.Amount(1, 0);
    var signature := mac(secret, SignedMessage(d, "2026-01-01"));
    assert D.Micros(d) == 1_000_000;
    assert |TransferNote("2026-01-01")| <= MAX_NOTE;
    ApplyGrows(mac, [], TransferOp(d, "2026-01-01", signature, secret));
    TransferConserves(mac, [], d, "2026-01-01", signature, secret);
  }

  ghost predicate NeverOverdrawn(mac: Mac, ops: seq<Op>) {
    forall n :: 0 <= n <= |ops| ==> PotSum(Run(mac, [], ops[..n]), Reserve) >= 0
  }

  /** Reserve holds what is drawn whenever something is. */
  ghost predicate DrawsCovered(mac: Mac, ops: seq<Op>) {
    forall n :: 0 <= n < |ops| && Drawn(mac, ops[n]) > 0 ==>
      Drawn(mac, ops[n]) <= PotSum(Run(mac, [], ops[..n]), Reserve)
  }

  /**
   * Over every run from the empty ledger, Reserve never falls below zero exactly when it covers every draw made on it.
   */
  lemma {:induction false} ReserveNeverOverdrawn(mac: Mac, ops: seq<Op>)
    ensures NeverOverdrawn(mac, ops) <==> DrawsCovered(mac, ops)
  {
    if NeverOverdrawn(mac, ops) {
      forall n | 0 <= n < |ops| && Drawn(mac, ops[n]) > 0
        ensures Drawn(mac, ops[n]) <= PotSum(Run(mac, [], ops[..n]), Reserve)
      {
        RunOneMore(mac, ops, n);
        ReserveAfter(mac, Run(mac, [], ops[..n]), ops[n]);
        assert PotSum(Run(mac, [], ops[..n + 1]), Reserve) >= 0;
      }
    }
    if DrawsCovered(mac, ops) {
      forall n | 0 <= n <= |ops| ensures PotSum(Run(mac, [], ops[..n]), Reserve) >= 0 {
        CoveredPrefix(mac, ops, n);
      }
    }
  }

  lemma RunOneMore(mac: Mac, ops: seq<Op>, n: nat)
    requires n < |ops|
    ensures Run(mac, [], ops[..n + 1]) == Apply(mac, Run(mac, [], ops[..n]), ops[n])
  {
    assert ops[..n + 1][..n] == ops[..n];
  }

  lemma {:induction false} CoveredPrefix(mac: Mac, ops: seq<Op>, n: nat)
    requires DrawsCovered(mac, ops) && n <= |ops|
    ensures PotSum(Run(mac, [], ops[..n]), Reserve) >= 0
  {
    if n == 0 {
      assert ops[..0] == [];
    } else {
      CoveredPrefix(mac, ops, n - 1);
      RunOneMore(mac, ops, n - 1);
      ReserveAfter(mac, Run(mac, [], ops[..n - 1]), ops[n - 1]);
    }
  }

  // ---------- which rows take from Reserve, and who signed for them

  /** Operation `k` is a carried-out transfer, hence validly signed, and the row at `i` is the Reserve row it wrote. */
  ghost predicate SignedFor(mac: Mac, ops: seq<Op>, i: nat, row: Row, k: nat) {
    && k < |ops| && ops[k].TransferOp? && |Run(mac, [], ops[..k])| == i
    && TransferAllowed(mac, ops[k].transfer, ops[k].dateIso, ops[k].signature, ops[k].secret)
    && row == TransferRows(D.Micros(ops[k].transfer), ops[k].dateIso)[0]
  }

  ghost predicate EveryDrawSigned(mac: Mac, ops: seq<Op>) {
    var rows := Run(mac, [], ops);
    forall i :: 0 <= i < |rows| && TakesFromReserve(rows[i]) ==> exists k: nat :: SignedFor(mac, ops, i, rows[i], k)
  }

  predicate NoLabelledDraw(ops: seq<Op>) {
    forall k :: 0 <= k < |ops| ==> !LabelledDraw(ops[k])
  }

  /** The rows an operation adds, and which of them can take from Reserve. */
  lemma NewReserveRow(mac: Mac, rows: seq<Row>, op: Op, i: nat)
    requires !LabelledDraw(op)
    requires |rows| <= i < |Apply(mac, rows, op)| && TakesFromReserve(Apply(mac, rows, op)[i])
    ensures op.TransferOp? && TransferAllowed(mac, op.transfer, op.dateIso, op.signature, op.secret)
    ensures i == |rows| && Apply(mac, rows, op)[i] == TransferRows(D.Micros(op.transfer), op.dateIso)[0]
  {
    match op
    case RecordOp(row) => DrawAccepted(rows, row);
    case DebitOp(pot, amount, source, refId, note) =>
      DrawAccepted(rows, Row(pot, -amount, source, refId, note));
      DebitIsDraw(pot, amount, source, refId, note);
    case InflowOp(_, _, _, _, _) => InflowRowsPositive(mac, rows, op, i);
    case TransferOp(amount, dateIso, signature, secret) => D.MicrosSign(amount);
    case _ =>
  }

  lemma InflowRowsPositive(mac: Mac, rows: seq<Row>, op: Op, i: nat)
    requires op.InflowOp? && |rows| <= i < |Apply(mac, rows, op)|
    ensures Apply(mac, rows, op)[i].delta > 0
  {
    var s := SplitFor(rows, op.inflow, op.reserveCap, op.trailingRevenue);
    var more := InflowRows(s, op.source, op.refId);
    assert Apply(mac, rows, op) == rows + more && Apply(mac, rows, op)[i] == more[i - |rows|];
  }

  lemma {:induction false} SignerOf(mac: Mac, ops: seq<Op>, n: nat, i: nat) returns (k: nat)
    requires NoLabelledDraw(ops) && n <= |ops|
    requires i < |Run(mac, [], ops[..n])| && TakesFromReserve(Run(mac, [], ops[..n])[i])
    ensures SignedFor(mac, ops, i, Run(mac, [], ops[..n])[i], k)
    decreases n
  {
    assert ops[..0] == [];
    var rows := Run(mac, [], ops[..n - 1]);
    RunOneMore(mac, ops, n - 1);
    ApplyGrows(mac, rows, ops[n - 1]);
    if i < |rows| {
      k := SignerOf(mac, ops, n - 1, i);
    } else {
      NewReserveRow(mac, rows, ops[n - 1], i);
      k := n - 1;
    }
  }

  lemma RunPrefix(mac: Mac, ops: seq<Op>, m: nat, n: nat)
    requires m <= n <= |ops|
    ensures Run(mac, [], ops[..m]) <= Run(mac, [], ops[..n])
  {
    RunGrows(mac, [], ops[..n], m);
    assert ops[..n][..m] == ops[..m];
  }

  lemma LabelledDrawAddsRow(mac: Mac, rows: seq<Row>, op: Op)
    requires LabelledDraw(op)
    ensures |Apply(mac, rows, op)| == |rows| + 1 && TakesFromReserve(Apply(mac, rows, op)[|rows|])
  {
    match op
    case RecordOp(row) => DrawAccepted(rows, row);
    case DebitOp(pot, amount, source, refId, note) =>
      DrawAccepted(rows, Row(pot, -amount, source, refId, note));
      DebitIsDraw(pot, amount, source, refId, note);
  }

  lemma SignedAddsTwoRows(mac: Mac, ops: seq<Op>, i: nat, row: Row, k: nat)
    requires SignedFor(mac, ops, i, row, k)
    ensures |Run(mac, [], ops[..k + 1])| == i + 2
  {
    RunOneMore(mac, ops, k);
  }

  lemma LaterOpsWriteLater(mac: Mac, ops: seq<Op>, k: nat, j: nat)
    requires k < j < |ops| && LabelledDraw(ops[k])
    ensures |Run(mac, [], ops[..j])| > |Run(mac, [], ops[..k])|
  {
    RunOneMore(mac, ops, k);
    LabelledDrawAddsRow(mac, Run(mac, [], ops[..k]), ops[k]);
    RunPrefix(mac, ops, k + 1, j);
  }

  /** The row of a labelled draw is no transfer's row: no other operation writes at its place. */
  lemma LabelledRowHasNoSigner(mac: Mac, ops: seq<Op>, k: nat, row: Row, j: nat)
    requires k < |ops| && LabelledDraw(ops[k])
    ensures !SignedFor(mac, ops, |Run(mac, [], ops[..k])|, row, j)
  {
    var i := |Run(mac, [], ops[..k])|;
    if j < k && SignedFor(mac, ops, i, row, j) {
      SignedAddsTwoRows(mac, ops, i, row, j);
      RunPrefix(mac, ops, j + 1, k);
    } else if k < j < |ops| {
      LaterOpsWriteLater(mac, ops, k, j);
    }
  }

  lemma LabelledRow(mac: Mac, ops: seq<Op>, k: nat)
    requires k < |ops| && LabelledDraw(ops[k])
    ensures var i, rows := |Run(mac, [], ops[..k])|, Run(mac, [], ops); i < |rows| && TakesFromReserve(rows[i])
  {
    RunOneMore(mac, ops, k);
    LabelledDrawAddsRow(mac, Run(mac, [], ops[..k]), ops[k]);
    RunPrefix(mac, ops, k + 1, |ops|);
    assert ops[..|ops|] == ops;
  }

  /**
   * Over every run from the empty ledger: every row that takes from Reserve was written by a transfer with a valid
   * signature, exactly when the run has no record or debit of Reserve that uses the transfer label within the entry
   * schema, which only the caller can see to.
   */
  lemma {:induction false} ReserveRowsAreSigned(mac: Mac, ops: seq<Op>)
    ensures EveryDrawSigned(mac, ops) <==> NoLabelledDraw(ops)
  {
    var rows := Run(mac, [], ops);
    if NoLabelledDraw(ops) {
      assert ops[..|ops|] == ops;
      forall i | 0 <= i < |rows| && TakesFromReserve(rows[i])
        ensures exists k: nat :: SignedFor(mac, ops, i, rows[i], k)
      {
        var k := SignerOf(mac, ops, |ops|, i);
      }
    }
    if EveryDrawSigned(mac, ops) {
      forall k | 0 <= k < |ops| ensures !LabelledDraw(ops[k]) {
        if LabelledDraw(ops[k]) {
          LabelledRow(mac, ops, k);
          var i := |Run(mac, [], ops[..k])|;
          var j: nat :| SignedFor(mac, ops, i, rows[i], j);
          LabelledRowHasNoSigner(mac, ops, k, rows[i], j);
        }
      }
    }
  }

  /** Such a record is accepted: the label alone opens Reserve. */
  lemma LabelOpensReserve(mac: Mac)
    ensures var row := Row(Reserve, -1_000_000, EmergencyTransfer, None, "");
            Run(mac, [], [RecordOp(row)]) == [row] && !EveryDrawSigned(mac, [RecordOp(row)])
  {
    var ops := [RecordOp(Row(Reserve, -1_000_000, EmergencyTransfer, None, ""))];
    assert ops[..0] == [] && ops[..|ops| - 1] == [];
    assert LabelledDraw(ops[0]);
    ReserveRowsAreSigned(mac, ops);
  }
}
