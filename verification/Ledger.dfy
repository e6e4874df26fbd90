/** The three-pot ledger: an append-only list of rows whose balances are sums. Amounts are in micro-dollars. */
module Ledger {
  import opened Wrappers
  import opened InflowSplit
  import D = Decimals

  datatype Pot = Operating | Reserve | Growth

  datatype Source =
    | RevenuePolar | RevenueLemonSqueezy | RevenueStripe
    | CostAnthropic | CostGoogle | CostInfra | CostDomain
    | TransferOperatingToReserve | TransferOperatingToGrowth | TransferGrowthToOperating
    | ManualTopup | EmergencyTransfer

  datatype Row = Row(pot: Pot, delta: int, source: Source, refId: Option<string>, note: string)

  datatype Error = ZeroDelta | NotPositive | InsufficientFunds | ReserveLocked | ValidationError | BadHmac

  const FLOOR := 50_000_000

  /** Twelve digits with four decimal places: at most eight whole digits. */
  const DELTA_LIMIT := 100_000_000_000_000

  const MAX_NOTE := 512

  // ---------- balances

  datatype Balances = Balances(operating: int, reserve: int, growth: int)

  function PotSum(rows: seq<Row>, pot: Pot): int {
    if rows == [] then 0
    else PotSum(rows[..|rows| - 1], pot) + (if rows[|rows| - 1].pot == pot then rows[|rows| - 1].delta else 0)
  }

  function FlatSum(rows: seq<Row>): int {
    if rows == [] then 0 else FlatSum(rows[..|rows| - 1]) + rows[|rows| - 1].delta
  }

  function BalancesOf(rows: seq<Row>): Balances {
    Balances(PotSum(rows, Operating), PotSum(rows, Reserve), PotSum(rows, Growth))
  }

  function Total(b: Balances): int {
    b.operating + b.reserve + b.growth
  }

  function Get(b: Balances, pot: Pot): int {
    match pot
    case Operating => b.operating
    case Reserve => b.reserve
    case Growth => b.growth
  }

  /** The three pots partition the flat sum of any list of rows, so the drift check finds no drift. */
  lemma {:induction false} NoDrift(rows: seq<Row>)
    ensures Total(BalancesOf(rows)) == FlatSum(rows)
  {
    if rows == [] {
    } else {
      NoDrift(rows[..|rows| - 1]);
    }
  }

  lemma PotSumSnoc(rows: seq<Row>, row: Row, pot: Pot)
    ensures PotSum(rows + [row], pot) == PotSum(rows, pot) + (if row.pot == pot then row.delta else 0)
    ensures FlatSum(rows + [row]) == FlatSum(rows) + row.delta
  {
    assert (rows + [row])[..|rows + [row]| - 1] == rows;
  }

  lemma {:induction false} PotSumRemove(rows: seq<Row>, i: nat, pot: Pot)
    requires i < |rows|
    ensures PotSum(rows, pot)
         == PotSum(rows[..i] + rows[i + 1..], pot) + (if rows[i].pot == pot then rows[i].delta else 0)
  {
    if i == |rows| - 1 {
      assert rows[..i] + rows[i + 1..] == rows[..|rows| - 1];
    } else {
      var init, last := rows[..|rows| - 1], rows[|rows| - 1];
      PotSumRemove(init, i, pot);
      PotSumSnoc(init[..i] + init[i + 1..], last, pot);
      assert rows[..i] + rows[i + 1..] == (init[..i] + init[i + 1..]) + [last];
    }
  }

  lemma TakeOut(b: seq<Row>, row: Row) returns (rest: seq<Row>)
    requires row in multiset(b)
    ensures multiset(rest) == multiset(b) - multiset{row} && |rest| == |b| - 1
    ensures forall pot :: PotSum(b, pot) == PotSum(rest, pot) + (if row.pot == pot then row.delta else 0)
  {
    var i :| 0 <= i < |b| && b[i] == row;
    rest := b[..i] + b[i + 1..];
    assert b == b[..i] + [row] + b[i + 1..];
    assert multiset(b) == multiset(rest) + multiset{row};
    forall pot ensures PotSum(b, pot) == PotSum(rest, pot) + (if row.pot == pot then row.delta else 0) {
      PotSumRemove(b, i, pot);
    }
  }

  /** Balances do not depend on the order in which the rows are read. */
  lemma {:induction false} BalanceIgnoresOrder(a: seq<Row>, b: seq<Row>, pot: Pot)
    requires multiset(a) == multiset(b)
    ensures PotSum(a, pot) == PotSum(b, pot)
    decreases |a|
  {
    if a == [] {
      assert |multiset(b)| == 0;
    } else {
      var init, last := a[..|a| - 1], a[|a| - 1];
      assert a == init + [last];
      var rest := TakeOut(b, last);
      assert multiset(init) == multiset(a) - multiset{last};
      BalanceIgnoresOrder(init, rest, pot);
    }
  }

  // ---------- which rows are accepted

  function DebitError(b: Balances, pot: Pot, delta: int, source: Source): Option<Error> {
    match pot
    case Operating => if b.operating + delta < FLOOR then Some(InsufficientFunds) else None
    case Reserve => if source != EmergencyTransfer then Some(ReserveLocked) else None
    case Growth => if b.growth + delta < 0 then Some(InsufficientFunds) else None
  }

  predicate SchemaOk(row: Row) {
    WholeUnits(row.delta) && -DELTA_LIMIT < row.delta < DELTA_LIMIT && |row.note| <= MAX_NOTE
  }

  /** The error that recording `row` on top of `rows` raises, if any. */
  function RowError(rows: seq<Row>, row: Row): Option<Error> {
    if row.delta == 0 then Some(ZeroDelta)
    else if row.delta < 0 && DebitError(BalancesOf(rows), row.pot, row.delta, row.source).Some?
      then DebitError(BalancesOf(rows), row.pot, row.delta, row.source)
    else if !SchemaOk(row) then Some(ValidationError)
    else None
  }

  /** Four decimal places, twelve digits, and a note of at most 512 characters. */
  predicate FitsEntry(row: Row) {
    row.delta % 100 == 0 && -100_000_000_000_000 < row.delta < 100_000_000_000_000 && |row.note| <= 512
  }

  /** A debit takes no pot where it must not go: Operating below $50, Growth below zero, Reserve without the label. */
  predicate KeepsRules(rows: seq<Row>, row: Row) {
    row.delta < 0 ==>
      match row.pot
      case Operating => PotSum(rows, Operating) + row.delta >= 50_000_000
      case Growth => PotSum(rows, Growth) + row.delta >= 0
      case Reserve => row.source == EmergencyTransfer
  }

  /** Exactly which rows are accepted, whatever their pot, sign and note, and which error the others get. */
  lemma WhenRowIsAccepted(rows: seq<Row>, row: Row)
    ensures RowError(rows, row).None? <==> row.delta != 0 && KeepsRules(rows, row) && FitsEntry(row)
    ensures RowError(rows, row) == Some(ZeroDelta) <==> row.delta == 0
    ensures RowError(rows, row) == Some(ReserveLocked) <==> !KeepsRules(rows, row) && row.pot == Reserve
    ensures RowError(rows, row) == Some(InsufficientFunds) <==> !KeepsRules(rows, row) && row.pot != Reserve
    ensures RowError(rows, row) == Some(ValidationError) <==>
              row.delta != 0 && KeepsRules(rows, row) && !FitsEntry(row)
  {
  }

  /** Every row was acceptable when it was added. */
  ghost predicate Sound(rows: seq<Row>) {
    rows == [] || (Sound(rows[..|rows| - 1]) && RowError(rows[..|rows| - 1], rows[|rows| - 1]).None?)
  }

  lemma SoundSnoc(rows: seq<Row>, row: Row)
    requires Sound(rows) && RowError(rows, row).None?
    ensures Sound(rows + [row])
  {
    assert (rows + [row])[..|rows + [row]| - 1] == rows;
  }

  // ---------- what holds of every ledger that was built row by row

  /** Growth and Operating never go negative, balances are whole ledger units. */
  lemma {:induction false} SoundBalances(rows: seq<Row>)
    requires Sound(rows)
    ensures PotSum(rows, Growth) >= 0 && PotSum(rows, Operating) >= 0
    ensures WholeUnits(PotSum(rows, Operating)) && WholeUnits(PotSum(rows, Reserve)) && WholeUnits(PotSum(rows, Growth))
  {
    if rows == [] {
    } else {
      var before, row := rows[..|rows| - 1], rows[|rows| - 1];
      SoundBalances(before);
      WhenRowIsAccepted(before, row);
      WholeSum(PotSum(before, row.pot), row.delta);
    }
  }

  /**
   * Every row that takes money from Reserve carries the emergency-transfer source, and no row is empty or oversized.
   */
  lemma {:induction false} SoundRows(rows: seq<Row>, i: nat)
    requires Sound(rows) && i < |rows|
    ensures rows[i].delta != 0 && FitsEntry(rows[i])
    ensures rows[i].pot == Reserve && rows[i].delta < 0 ==> rows[i].source == EmergencyTransfer
  {
    if i == |rows| - 1 {
    } else {
      SoundRows(rows[..|rows| - 1], i);
    }
  }

  /** Once Operating stands at or above the floor it never falls below it, however the ledger grows. */
  lemma {:induction false} FloorIsKept(rows: seq<Row>, n: nat)
    requires Sound(rows) && n <= |rows| && PotSum(rows[..n], Operating) >= 50_000_000
    ensures PotSum(rows, Operating) >= 50_000_000
    decreases |rows|
  {
    if n == |rows| {
      assert rows[..n] == rows;
    } else {
      assert rows[..|rows| - 1][..n] == rows[..n];
      FloorIsKept(rows[..|rows| - 1], n);
    }
  }

  // ---------- the operations as functions of the rows

  function Record(rows: seq<Row>, row: Row): Result<seq<Row>, Error> {
    match RowError(rows, row)
    case Some(e) => Err(e)
    case None => Ok(rows + [row])
  }

  function Debit(rows: seq<Row>, pot: Pot, amount: int, source: Source, refId: Option<string>,
                 note: string): Result<seq<Row>, Error>
  {
    if amount <= 0 then Err(NotPositive) else Record(rows, Row(pot, -amount, source, refId, note))
  }

  function Credit(rows: seq<Row>, pot: Pot, amount: int, source: Source, refId: Option<string>,
                  note: string): Result<seq<Row>, Error>
  {
    if amount <= 0 then Err(NotPositive) else Record(rows, Row(pot, amount, source, refId, note))
  }

  function SplitFor(rows: seq<Row>, amount: int, reserveCap: Option<int>, trailingRevenue: int): Split {
    SplitOf(amount, PotSum(rows, Reserve), reserveCap, PotSum(rows, Growth), Some(GrowthCap(trailingRevenue)))
  }

  function Part(pot: Pot, amount: int, source: Source, refId: Option<string>): seq<Row> {
    if amount > 0 then [Row(pot, amount, source, refId, "")] else []
  }

  /** The rows an inflow adds: parts that are not positive are skipped. */
  function InflowRows(s: Split, source: Source, refId: Option<string>): seq<Row> {
    [Row(Operating, s.operating, source, refId, "")] + Part(Reserve, s.reserve, source, refId)
    + Part(Growth, s.growth, source, refId)
  }

  /** The rows an inflow hands back: where a part is skipped, the Operating row stands in for it. */
  function InflowEntries(s: Split, source: Source, refId: Option<string>): (Row, Row, Row) {
    var op := Row(Operating, s.operating, source, refId, "");
    (op,
     if s.reserve > 0 then Row(Reserve, s.reserve, source, refId, "") else op,
     if s.growth > 0 then Row(Growth, s.growth, source, refId, "") else op)
  }

  /** Whole units, and the two smaller parts within the schema whenever Operating's is. */
  predicate Recordable(s: Split) {
    && WholeUnits(s.operating) && WholeUnits(s.reserve) && WholeUnits(s.growth)
    && (s.operating < DELTA_LIMIT ==> s.reserve < DELTA_LIMIT && s.growth < DELTA_LIMIT)
  }

  function TransferNote(dateIso: string): string {
    "signed EMERGENCY_TRANSFER " + dateIso
  }

  /** A keyed hash of a message, as hex; its internals are not modelled. */
  type Mac = (string, string) -> string

  function SignedMessage(amount: D.Decimal, dateIso: string): string {
    D.Text(amount) + "|" + dateIso
  }

  predicate VerifyHmac(mac: Mac, secret: string, amount: D.Decimal, dateIso: string, signature: string) {
    mac(secret, SignedMessage(amount, dateIso)) == signature
  }

  function TransferRows(amount: int, dateIso: string): seq<Row> {
    [ Row(Reserve, -amount, EmergencyTransfer, None, TransferNote(dateIso)),
      Row(Operating, amount, EmergencyTransfer, None, TransferNote(dateIso)) ]
  }

  /** `change` is the amount as it was written: its coefficient over the power of ten of its places, in millionths. */
  predicate IsAmount(change: int, amount: D.Decimal) {
    change * D.Pow10(amount.places) == 1_000_000 * amount.coeff
  }

  datatype Op =
    | RecordOp(row: Row)
    | DebitOp(pot: Pot, amount: int, source: Source, refId: Option<string>, note: string)
    | CreditOp(pot: Pot, amount: int, source: Source, refId: Option<string>, note: string)
    | InflowOp(inflow: int, source: Source, refId: Option<string>, reserveCap: Option<int>, trailingRevenue: int)
    | TransferOp(transfer: D.Decimal, dateIso: string, signature: string, secret: string)

  predicate TransferAllowed(mac: Mac, amount: D.Decimal, dateIso: string, signature: string, secret: string) {
    && VerifyHmac(mac, secret, amount, dateIso, signature)
    && amount.coeff > 0 && WholeUnits(D.Micros(amount)) && D.Micros(amount) < DELTA_LIMIT
    && |TransferNote(dateIso)| <= MAX_NOTE
  }

  /** The first check that refuses a transfer, if any. */
  function TransferError(mac: Mac, amount: D.Decimal, dateIso: string, signature: string,
                         secret: string): Option<Error>
  {
    if !VerifyHmac(mac, secret, amount, dateIso, signature) then Some(BadHmac)
    else if amount.coeff <= 0 then Some(NotPositive)
    else if !TransferAllowed(mac, amount, dateIso, signature, secret) then Some(ValidationError)
    else None
  }

  /** The rows after an operation, refused or not. */
  function Apply(mac: Mac, rows: seq<Row>, op: Op): seq<Row> {
    match op
    case RecordOp(row) => Kept(rows, Record(rows, row))
    case DebitOp(pot, amount, source, refId, note) => Kept(rows, Debit(rows, pot, amount, source, refId, note))
    case CreditOp(pot, amount, source, refId, note) => Kept(rows, Credit(rows, pot, amount, source, refId, note))
    case InflowOp(amount, source, refId, reserveCap, trailing) =>
      var s := SplitFor(rows, amount, reserveCap, trailing);
      if Credit(rows, Operating, s.operating, source, refId, "").Ok? then rows + InflowRows(s, source, refId) else rows
    case TransferOp(amount, dateIso, signature, secret) =>
      if !TransferAllowed(mac, amount, dateIso, signature, secret) then rows
      else rows + TransferRows(D.Micros(amount), dateIso)
  }

  function Kept(rows: seq<Row>, r: Result<seq<Row>, Error>): seq<Row> {
    if r.Ok? then r.value else rows
  }

  lemma InflowRowsInTurn(rows: seq<Row>, s: Split, source: Source, refId: Option<string>)
    ensures rows + InflowRows(s, source, refId)
         == (rows + [Row(Operating, s.operating, source, refId, "")])
              + Part(Reserve, s.reserve, source, refId) + Part(Growth, s.growth, source, refId)
  {
  }

  /** A credit without a note is accepted exactly when its amount is positive and fits the entry schema. */
  lemma WhenCreditIsAccepted(rows: seq<Row>, pot: Pot, amount: int, source: Source, refId: Option<string>)
    ensures Credit(rows, pot, amount, source, refId, "").Ok? <==>
              amount > 0 && WholeUnits(amount) && amount < 100_000_000_000_000
    ensures Credit(rows, pot, amount, source, refId, "").Ok? ==>
              Credit(rows, pot, amount, source, refId, "").value == rows + [Row(pot, amount, source, refId, "")]
  {
  }

  // ---------- the service

  class CashflowService {
    var rows: seq<Row>
    const mac: Mac

    ghost predicate Valid()
      reads this
    {
      Sound(rows)
    }

    constructor (mac: Mac)
      ensures Valid() && rows == [] && this.mac == mac
    {
      rows := [];
      this.mac := mac;
    }

    method Balance() returns (b: Balances)
      ensures b == BalancesOf(rows)
    {
      var sums: map<Pot, int> := map[Operating := 0, Reserve := 0, Growth := 0];
      assert rows[..0] == [];
      for i := 0 to |rows|
        invariant sums.Keys == {Operating, Reserve, Growth}
        invariant sums[Operating] == PotSum(rows[..i], Operating)
        invariant sums[Reserve] == PotSum(rows[..i], Reserve)
        invariant sums[Growth] == PotSum(rows[..i], Growth)
      {
        assert rows[..i + 1][..i] == rows[..i];
        var pot := rows[i].pot;
        assert pot.Operating? || pot.Reserve? || pot.Growth?;
        sums := sums[rows[i].pot := sums[rows[i].pot] + rows[i].delta];
      }
      assert rows[..|rows|] == rows;
      b := Balances(sums[Operating], sums[Reserve], sums[Growth]);
    }

    /** The absolute difference between the flat sum of all rows and the three balances: always zero. */
    method CheckDrift() returns (drift: int)
      ensures drift == 0
    {
      var b := Balance();
      var total := 0;
      for i := 0 to |rows|
        invariant total == FlatSum(rows[..i])
      {
        assert rows[..i + 1][..i] == rows[..i];
        total := total + rows[i].delta;
      }
      assert rows[..|rows|] == rows;
      NoDrift(rows);
      drift := if total - Total(b) < 0 then Total(b) - total else total - Total(b);
    }

    /**
     * A debit is allowed exactly when it leaves Operating at the floor, Growth at zero, or is a transfer out of
     * Reserve.
     */
    method AssertDebitAllowed(pot: Pot, delta: int, source: Source) returns (e: Option<Error>)
      ensures e == DebitError(BalancesOf(rows), pot, delta, source)
      ensures e.None? <==>
                && (pot == Operating ==> PotSum(rows, Operating) + delta >= 50_000_000)
                && (pot == Growth ==> PotSum(rows, Growth) + delta >= 0)
                && (pot == Reserve ==> source == EmergencyTransfer)
      ensures e.Some? ==> e.value == if pot == Reserve then ReserveLocked else InsufficientFunds
    {
      var b := Balance();
      var newBalance := Get(b, pot) + delta;
      e := None;
      if pot == Operating {
        if newBalance < FLOOR { e := Some(InsufficientFunds); }
      } else if pot == Reserve {
        if source != EmergencyTransfer { e := Some(ReserveLocked); }
      } else if newBalance < 0 {
        e := Some(InsufficientFunds);
      }
    }

    method RecordEntry(pot: Pot, delta: int, source: Source, refId: Option<string>, note: string)
      returns (r: Result<Row, Error>)
      requires Valid()
      modifies this
      ensures Valid()
      ensures var row := Row(pot, delta, source, refId, note);
              match RowError(old(rows), row)
              case None => r == Ok(row) && rows == old(rows) + [row]
              case Some(e) => r == Err(e) && rows == old(rows)
      ensures var row := Row(pot, delta, source, refId, note);
              r.Ok? <==> delta != 0 && KeepsRules(old(rows), row) && FitsEntry(row)
    {
      WhenRowIsAccepted(rows, Row(pot, delta, source, refId, note));
      if delta == 0 {
        return Err(ZeroDelta);
      }
      if delta < 0 {
        var e := AssertDebitAllowed(pot, delta, source);
        if e.Some? {
          return Err(e.value);
        }
      }
      var row := Row(pot, delta, source, refId, note);
      if !SchemaOk(row) {
        return Err(ValidationError);
      }
      SoundSnoc(rows, row);
      rows := rows + [row];
      r := Ok(row);
    }

    method DebitPot(pot: Pot, amount: int, source: Source, refId: Option<string>, note: string)
      returns (r: Result<Row, Error>)
      requires Valid()
      modifies this
      ensures Valid()
      ensures r == Err(NotPositive) <==> amount <= 0
      ensures match Debit(old(rows), pot, amount, source, refId, note)
              case Ok(after) => r == Ok(Row(pot, -amount, source, refId, note)) && rows == after
              case Err(e) => r == Err(e) && rows == old(rows)
    {
      if amount <= 0 {
        return Err(NotPositive);
      }
      r := RecordEntry(pot, -amount, source, refId, note);
    }

    method CreditPot(pot: Pot, amount: int, source: Source, refId: Option<string>, note: string)
      returns (r: Result<Row, Error>)
      requires Valid()
      modifies this
      ensures Valid()
      ensures r == Err(NotPositive) <==> amount <= 0
      ensures match Credit(old(rows), pot, amount, source, refId, note)
              case Ok(after) => r == Ok(Row(pot, amount, source, refId, note)) && rows == after
              case Err(e) => r == Err(e) && rows == old(rows)
    {
      if amount <= 0 {
        return Err(NotPositive);
      }
      r := RecordEntry(pot, amount, source, refId, note);
    }

    /** A part of an inflow that is not positive is skipped, and the Operating row stands in for it. */
    method CreditPart(pot: Pot, amount: int, source: Source, refId: Option<string>, operatingRow: Row) returns (r: Row)
      requires Valid() && WholeUnits(amount) && amount < DELTA_LIMIT
      modifies this
      ensures Valid()
      ensures rows == old(rows) + Part(pot, amount, source, refId)
      ensures r == if amount > 0 then Row(pot, amount, source, refId, "") else operatingRow
    {
      r := operatingRow;
      if amount > 0 {
        WhenCreditIsAccepted(rows, pot, amount, source, refId);
        var credit := CreditPot(pot, amount, source, refId, "");
        r := credit.value;
      }
    }

    method CreditRest(s: Split, source: Source, refId: Option<string>, operatingRow: Row)
      returns (reserve: Row, growth: Row)
      requires Valid() && Recordable(s) && s.operating < DELTA_LIMIT
      modifies this
      ensures Valid()
      ensures rows == old(rows) + Part(Reserve, s.reserve, source, refId) + Part(Growth, s.growth, source, refId)
      ensures reserve == if s.reserve > 0 then Row(Reserve, s.reserve, source, refId, "") else operatingRow
      ensures growth == if s.growth > 0 then Row(Growth, s.growth, source, refId, "") else operatingRow
    {
      reserve := CreditPart(Reserve, s.reserve, source, refId, operatingRow);
      growth := CreditPart(Growth, s.growth, source, refId, operatingRow);
    }

    /** The split of an inflow against the current balances. */
    method SplitNow(amount: int, reserveCap: Option<int>, trailingRevenue: int) returns (s: Split)
      ensures s == SplitFor(rows, amount, reserveCap, trailingRevenue) && Recordable(s)
    {
      var b := Balance();
      s := SplitInflow(amount, b.reserve, reserveCap, b.growth, Some(GrowthCap(trailingRevenue)));
      PartsFollowOperating(amount, b.reserve, reserveCap, b.growth, Some(GrowthCap(trailingRevenue)), DELTA_LIMIT);
    }

    /** Credit the parts of a split: all of them, or none and the first credit's error. */
    method RecordSplit(s: Split, source: Source, refId: Option<string>) returns (r: Result<(Row, Row, Row), Error>)
      requires Valid() && Recordable(s)
      modifies this
      ensures Valid()
      ensures match Credit(old(rows), Operating, s.operating, source, refId, "")
              case Err(e) => r == Err(e) && rows == old(rows)
              case Ok(_) => r == Ok(InflowEntries(s, source, refId)) && rows == old(rows) + InflowRows(s, source, refId)
    {
      WhenCreditIsAccepted(rows, Operating, s.operating, source, refId);
      var op := CreditPot(Operating, s.operating, source, refId, "");
      if op.Err? {
        return Err(op.error);
      }
      var reserve, growth := CreditRest(s, source, refId, op.value);
      InflowRowsInTurn(old(rows), s, source, refId);
      r := Ok((op.value, reserve, growth));
    }

    /** Split an inflow over the pots and record the parts: all of them, or none and the first credit's error. */
    method SplitAndRecordInflow(amount: int, source: Source, refId: Option<string>, reserveCap: Option<int>,
                                trailingRevenue: int)
      returns (r: Result<(Row, Row, Row), Error>)
      requires Valid()
      modifies this
      ensures Valid()
      ensures var s := SplitFor(old(rows), amount, reserveCap, trailingRevenue);
              match Credit(old(rows), Operating, s.operating, source, refId, "")
              case Err(e) => r == Err(e) && rows == old(rows)
              case Ok(_) => r == Ok(InflowEntries(s, source, refId)) && rows == old(rows) + InflowRows(s, source, refId)
      ensures r.Ok? ==>
                var s := SplitFor(old(rows), amount, reserveCap, trailingRevenue);
                && r.value.0 == Row(Operating, s.operating, source, refId, "")
                && r.value.1 == (if s.reserve > 0 then Row(Reserve, s.reserve, source, refId, "") else r.value.0)
                && r.value.2 == (if s.growth > 0 then Row(Growth, s.growth, source, refId, "") else r.value.0)
    {
      var s := SplitNow(amount, reserveCap, trailingRevenue);
      r := RecordSplit(s, source, refId);
    }

    /** Record both rows of a transfer, or neither when the entry schema refuses the first. */
    method RecordTransfer(amount: int, dateIso: string) returns (r: Result<(Row, Row), Error>)
      requires Valid() && amount > 0
      modifies this
      ensures Valid()
      ensures var both := TransferRows(amount, dateIso);
              if SchemaOk(both[0]) then r == Ok((both[0], both[1])) && rows == old(rows) + both
              else r == Err(ValidationError) && rows == old(rows)
      ensures r.Ok? ==> PotSum(rows, Operating) == PotSum(old(rows), Operating) + amount
      ensures r.Ok? ==> PotSum(rows, Reserve) == PotSum(old(rows), Reserve) - amount
    {
      NegatedUnits(amount);
      var out := RecordEntry(Reserve, -amount, EmergencyTransfer, None, TransferNote(dateIso));
      if out.Err? {
        return Err(out.error);
      }
      ghost var between := rows;
      var inn := RecordEntry(Operating, amount, EmergencyTransfer, None, TransferNote(dateIso));
      assert inn.Ok?;
      PotSumSnoc(old(rows), out.value, Operating);
      PotSumSnoc(old(rows), out.value, Reserve);
      PotSumSnoc(between, inn.value, Operating);
      PotSumSnoc(between, inn.value, Reserve);
      r := Ok((out.value, inn.value));
    }

    /**
     * Move money from Reserve to Operating under the operator's signature: both rows, or neither and the first failed
     * check.
     */
    method TransferReserveToOperating(amount: D.Decimal, dateIso: string, signature: string, secret: string)
      returns (r: Result<(Row, Row), Error>)
      requires Valid()
      modifies this
      ensures Valid()
      ensures match TransferError(mac, amount, dateIso, signature, secret)
              case None =>
                var both := TransferRows(D.Micros(amount), dateIso);
                r == Ok((both[0], both[1])) && rows == old(rows) + both
              case Some(e) => r == Err(e) && rows == old(rows)
      ensures r == Err(BadHmac) <==> mac(secret, D.Text(amount) + "|" + dateIso) != signature
      ensures r == Err(NotPositive) <==> mac(secret, D.Text(amount) + "|" + dateIso) == signature && amount.coeff <= 0
      ensures r.Err? ==> r.error in {BadHmac, NotPositive, ValidationError}
      ensures r.Ok? ==> IsAmount(r.value.1.delta, amount) && r.value.0.delta == -r.value.1.delta
      ensures r.Ok? ==> PotSum(rows, Operating) == PotSum(old(rows), Operating) + r.value.1.delta
      ensures r.Ok? ==> PotSum(rows, Reserve) == PotSum(old(rows), Reserve) - r.value.1.delta
    {
      if mac(secret, D.Text(amount) + "|" + dateIso) != signature {
        return Err(BadHmac);
      }
      if amount.coeff <= 0 {
        return Err(NotPositive);
      }
      D.MicrosSign(amount);
      D.MicrosExact(amount);
      TransferFits(D.Micros(amount), dateIso);
      r := RecordTransfer(D.Micros(amount), dateIso);
    }
  }

  lemma TransferFits(m: int, dateIso: string)
    requires m > 0
    ensures SchemaOk(TransferRows(m, dateIso)[0])
       <==> WholeUnits(m) && m < DELTA_LIMIT && |TransferNote(dateIso)| <= MAX_NOTE
  {
    NegatedUnits(m);
  }

  lemma NegatedUnits(m: int)
    ensures WholeUnits(-m) <==> WholeUnits(m)
  {
  }
}
