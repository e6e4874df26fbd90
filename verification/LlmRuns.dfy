/** LLM calls that overlap with each other and with other ledger operations: what the floor and the gate guarantee. */
module LlmRuns {
  import opened Wrappers
  import opened InflowSplit
  import opened Ledger
  import opened LedgerRuns
  import opened ModelRouter
  import opened LlmClient

  datatype Call = Open(pending: Pending) | Closed

  /** The ledger and the calls admitted so far. */
  datatype State = State(rows: seq<Row>, calls: seq<Call>)

  datatype Event =
    | Begin(agent: Tier, task: TaskKind, expectedIn: int, maxTokens: int, budget: Option<Budget>)
    | Finish(i: nat, tokensIn: int, tokensOut: int)
    | ProviderFails(i: nat)
    | LedgerOp(op: Op)

  predicate Enabled(s: State, e: Event) {
    match e
    case Finish(i, _, _) => i < |s.calls| && s.calls[i].Open?
    case ProviderFails(i) => i < |s.calls| && s.calls[i].Open?
    case _ => true
  }

  /** The figure for Operating that the gate works with: the caller's own, if a budget is given. */
  function Figure(s: State, e: Event): int
    requires e.Begin?
  {
    if e.budget.Some? then e.budget.value.operating else PotSum(s.rows, Operating)
  }

  function Gate(s: State, e: Event): Admission
    requires e.Begin?
  {
    Admit(false, e.agent, e.task, Figure(s, e), e.expectedIn, e.maxTokens, e.budget)
  }

  function CostOf(s: State, e: Event): int
    requires e.Finish? && Enabled(s, e)
  {
    EstimateCost(s.calls[e.i].pending.model, e.tokensIn, e.tokensOut)
  }

  function Step(mac: Mac, s: State, e: Event): State
    requires Enabled(s, e)
  {
    match e
    case Begin(_, _, _, _, _) =>
      (match Gate(s, e)
       case Admitted(call) => s.(calls := s.calls + [Open(call)])
       case Refused(_) => s)
    case Finish(i, _, _) => State(Settle(s.rows, CostOf(s, e)), s.calls[i := Closed])
    case ProviderFails(i) => s.(calls := s.calls[i := Closed])
    case LedgerOp(op) => s.(rows := Apply(mac, s.rows, op))
  }

  predicate Valid(mac: Mac, s: State, es: seq<Event>)
    decreases |es|, 0
  {
    es == [] || (Valid(mac, s, es[..|es| - 1]) && Enabled(After(mac, s, es[..|es| - 1]), es[|es| - 1]))
  }

  function After(mac: Mac, s: State, es: seq<Event>): State
    requires Valid(mac, s, es)
    decreases |es|, 1
  {
    if es == [] then s else Step(mac, After(mac, s, es[..|es| - 1]), es[|es| - 1])
  }

  // ---------- the floor, under every interleaving

  lemma StepGrows(mac: Mac, s: State, e: Event)
    requires Enabled(s, e)
    ensures Grew(s.rows, Step(mac, s, e).rows)
  {
    match e
    case Finish(_, _, _) =>
      RecordGrows(s.rows, CostRow(CostOf(s, e)));
    case LedgerOp(op) => ApplyGrows(mac, s.rows, op);
    case _ =>
  }

  /**
   * However calls overlap, and whatever budgets they bring, Operating is never taken from at or above $50 to below it.
   */
  lemma {:induction false} CallsKeepFloor(mac: Mac, s: State, es: seq<Event>)
    requires Valid(mac, s, es) && Sound(s.rows)
    ensures Grew(s.rows, After(mac, s, es).rows)
    ensures PotSum(s.rows, Operating) >= 50_000_000 ==> PotSum(After(mac, s, es).rows, Operating) >= 50_000_000
  {
    if es == [] {
    } else {
      var before := es[..|es| - 1];
      CallsKeepFloor(mac, s, before);
      StepGrows(mac, After(mac, s, before), es[|es| - 1]);
    }
    if PotSum(s.rows, Operating) >= FLOOR {
      assert After(mac, s, es).rows[..|s.rows|] == s.rows;
      FloorIsKept(After(mac, s, es).rows, |s.rows|);
    }
  }

  // ---------- when the debit cannot be refused for lack of money

  function OpenEstimates(calls: seq<Call>): int {
    if calls == [] then 0
    else
      var last := calls[|calls| - 1];
      OpenEstimates(calls[..|calls| - 1]) + (if last.Open? then Estimate(last.pending) else 0)
  }

  lemma {:induction false} CloseCall(calls: seq<Call>, i: nat)
    requires i < |calls| && calls[i].Open?
    ensures OpenEstimates(calls[i := Closed]) == OpenEstimates(calls) - Estimate(calls[i].pending)
  {
    var init := calls[..|calls| - 1];
    if i < |calls| - 1 {
      CloseCall(init, i);
      assert calls[i := Closed][..|calls| - 1] == init[i := Closed];
    } else {
      assert calls[i := Closed][..|calls| - 1] == init;
    }
  }

  /** Operating can pay the estimates of all open calls and stay at the floor. */
  predicate Covered(s: State) {
    PotSum(s.rows, Operating) - OpenEstimates(s.calls) >= FLOOR
  }

  predicate EstimatesNonNegative(calls: seq<Call>) {
    forall i :: 0 <= i < |calls| && calls[i].Open? ==> Estimate(calls[i].pending) >= 0
  }

  lemma {:induction false} OpenEstimateBound(calls: seq<Call>, i: nat)
    requires EstimatesNonNegative(calls) && i < |calls| && calls[i].Open?
    ensures Estimate(calls[i].pending) <= OpenEstimates(calls)
  {
    var init := calls[..|calls| - 1];
    if i < |calls| - 1 {
      OpenEstimateBound(init, i);
      assert calls[|calls| - 1].Open? ==> Estimate(calls[|calls| - 1].pending) >= 0;
    } else {
      OpenEstimatesNonNegative(init);
    }
  }

  lemma {:induction false} OpenEstimatesNonNegative(calls: seq<Call>)
    requires EstimatesNonNegative(calls)
    ensures OpenEstimates(calls) >= 0
  {
    if calls == [] {
    } else {
      OpenEstimatesNonNegative(calls[..|calls| - 1]);
    }
  }

  /** The reply reports no more tokens than the estimate assumed. */
  predicate WithinEstimate(s: State, e: Event)
    requires e.Finish? && Enabled(s, e)
  {
    e.tokensIn <= s.calls[e.i].pending.expectedIn && e.tokensOut <= s.calls[e.i].pending.maxTokens
  }

  /**
   * While Operating covers all open estimates, a reply within its estimate costs at most the estimate, its debit is
   * not refused by the floor, so it goes unrecorded only if the schema cannot hold it, and the other calls stay
   * covered.
   */
  lemma CoveredCallIsRecorded(mac: Mac, s: State, e: Event)
    requires Covered(s) && EstimatesNonNegative(s.calls)
    requires e.Finish? && Enabled(s, e) && WithinEstimate(s, e)
    ensures CostOf(s, e) <= Estimate(s.calls[e.i].pending)
    ensures Step(mac, s, e).rows != s.rows <==>
              CostOf(s, e) > 0 && WholeUnits(CostOf(s, e)) && CostOf(s, e) < DELTA_LIMIT
    ensures Step(mac, s, e).rows != s.rows ==>
              PotSum(Step(mac, s, e).rows, Operating) == PotSum(s.rows, Operating) - CostOf(s, e)
    ensures Covered(Step(mac, s, e)) && EstimatesNonNegative(Step(mac, s, e).calls)
  {
    var call, cost := s.calls[e.i].pending, CostOf(s, e);
    CostMonotone(call.model, e.tokensIn, e.tokensOut, call.expectedIn, call.maxTokens);
    OpenEstimateBound(s.calls, e.i);
    WhenCostIsRecorded(s.rows, cost);
    CloseCall(s.calls, e.i);
    PotSumSnoc(s.rows, CostRow(cost), Operating);
  }

  /** The gate's own check is that coverage, for a call that begins alone and does not overstate Operating. */
  lemma GateCoversLoneCall(mac: Mac, s: State, e: Event)
    requires e.Begin? && Gate(s, e).Admitted? && OpenEstimates(s.calls) == 0
             && Figure(s, e) <= PotSum(s.rows, Operating)
    ensures Covered(Step(mac, s, e)) && OpenEstimates(Step(mac, s, e).calls) == Estimate(Gate(s, e).call)
  {
    OpenOneMore(s.calls, Gate(s, e).call);
    assert Step(mac, s, e) == State(s.rows, s.calls + [Open(Gate(s, e).call)]);
  }

  lemma OpenOneMore(calls: seq<Call>, call: Pending)
    ensures OpenEstimates(calls + [Open(call)]) == OpenEstimates(calls) + Estimate(call)
  {
    assert (calls + [Open(call)])[..|calls + [Open(call)]| - 1] == calls;
  }

  // ---------- calls that stay covered, overlapping or not

  predicate AllClosed(calls: seq<Call>) {
    forall i :: 0 <= i < |calls| ==> calls[i].Closed?
  }

  lemma {:induction false} ClosedEstimates(calls: seq<Call>)
    requires AllClosed(calls)
    ensures OpenEstimates(calls) == 0
  {
    if calls == [] {
    } else {
      ClosedEstimates(calls[..|calls| - 1]);
    }
  }

  /** What a ledger operation does to Operating. */
  function OperatingChange(mac: Mac, rows: seq<Row>, op: Op): int {
    PotSum(Apply(mac, rows, op), Operating) - PotSum(rows, Operating)
  }

  /**
   * Token counts are not negative, an admitted call leaves Operating covering all open estimates and its own, replies
   * stay within estimates, and other ledger operations made while calls are open do not lower Operating or keep them
   * covered.
   */
  predicate CoveredStep(mac: Mac, s: State, e: Event)
    requires Enabled(s, e)
  {
    match e
    case Begin(_, _, expectedIn, maxTokens, _) =>
      expectedIn >= 0 && maxTokens >= 0 && (Gate(s, e).Admitted? ==> Covered(Step(mac, s, e)))
    case Finish(_, _, _) => WithinEstimate(s, e)
    case ProviderFails(_) => true
    case LedgerOp(op) => AllClosed(s.calls) || OperatingChange(mac, s.rows, op) >= 0 || Covered(Step(mac, s, e))
  }

  predicate CoveredRun(mac: Mac, s: State, es: seq<Event>)
    requires Valid(mac, s, es)
  {
    es == [] || (
      && CoveredRun(mac, s, es[..|es| - 1])
      && CoveredStep(mac, After(mac, s, es[..|es| - 1]), es[|es| - 1]))
  }

  /** What the entry schema can hold of a cost. */
  function Postable(cost: int): int {
    if cost > 0 && WholeUnits(cost) && cost < DELTA_LIMIT then cost else 0
  }

  function Spent(mac: Mac, s: State, es: seq<Event>): int
    requires Valid(mac, s, es)
  {
    if es == [] then 0 else
      var before, e := es[..|es| - 1], es[|es| - 1];
      Spent(mac, s, before) + (if e.Finish? then Postable(CostOf(After(mac, s, before), e)) else 0)
  }

  /** What all other ledger operations of the run did to Operating. */
  function Others(mac: Mac, s: State, es: seq<Event>): int
    requires Valid(mac, s, es)
  {
    if es == [] then 0 else
      var before, e := es[..|es| - 1], es[|es| - 1];
      Others(mac, s, before) + (if e.LedgerOp? then OperatingChange(mac, After(mac, s, before).rows, e.op) else 0)
  }

  ghost predicate CoveredInv(s: State) {
    EstimatesNonNegative(s.calls) && (AllClosed(s.calls) || Covered(s))
  }

  lemma EstimateNonNegative(call: Pending)
    requires call.expectedIn >= 0 && call.maxTokens >= 0
    ensures Estimate(call) >= 0
  {
    CostMonotone(call.model, 0, 0, call.expectedIn, call.maxTokens);
  }

  lemma CoveredStepKeepsInv(mac: Mac, s: State, e: Event)
    requires Enabled(s, e) && CoveredInv(s) && CoveredStep(mac, s, e)
    ensures CoveredInv(Step(mac, s, e))
    ensures PotSum(Step(mac, s, e).rows, Operating)
         == PotSum(s.rows, Operating) + (if e.LedgerOp? then OperatingChange(mac, s.rows, e.op) else 0)
            - (if e.Finish? then Postable(CostOf(s, e)) else 0)
  {
    match e
    case Begin(_, _, _, _, _) =>
      if Gate(s, e).Admitted? {
        EstimateNonNegative(Gate(s, e).call);
      }
    case Finish(_, _, _) => CoveredCallIsRecorded(mac, s, e);
    case ProviderFails(i) =>
      CloseCall(s.calls, i);
      assert Estimate(s.calls[i].pending) >= 0;
    case LedgerOp(_) =>
  }

  /**
   * Main result: in every run of calls that stay covered, however they overlap, Operating falls, beside what other
   * operations do, by exactly the costs the entry schema can hold: no positive cost is lost to the floor, only to
   * being finer than $0.0001 or beyond the digit limit.
   */
  lemma {:induction false} CoveredCallsAccounted(mac: Mac, rows: seq<Row>, es: seq<Event>)
    requires Valid(mac, State(rows, []), es) && CoveredRun(mac, State(rows, []), es)
    ensures CoveredInv(After(mac, State(rows, []), es))
    ensures PotSum(After(mac, State(rows, []), es).rows, Operating)
         == PotSum(rows, Operating) + Others(mac, State(rows, []), es) - Spent(mac, State(rows, []), es)
  {
    if es == [] {
    } else {
      CoveredCallsAccounted(mac, rows, es[..|es| - 1]);
      CoveredStepKeepsInv(mac, After(mac, State(rows, []), es[..|es| - 1]), es[|es| - 1]);
    }
  }

  // ---------- calls one after the other are covered by the gate alone

  /**
   * Token counts are not negative, calls do not overlap, no budget overstates Operating, replies stay within
   * estimates, and while a call is open no other ledger operation lowers Operating.
   */
  predicate SerialStep(mac: Mac, s: State, e: Event)
    requires Enabled(s, e)
  {
    match e
    case Begin(_, _, expectedIn, maxTokens, _) =>
      AllClosed(s.calls) && expectedIn >= 0 && maxTokens >= 0 && Figure(s, e) <= PotSum(s.rows, Operating)
    case Finish(_, _, _) => WithinEstimate(s, e)
    case ProviderFails(_) => true
    case LedgerOp(op) => AllClosed(s.calls) || OperatingChange(mac, s.rows, op) >= 0
  }

  predicate Serial(mac: Mac, s: State, es: seq<Event>)
    requires Valid(mac, s, es)
  {
    es == [] || (Serial(mac, s, es[..|es| - 1]) && SerialStep(mac, After(mac, s, es[..|es| - 1]), es[|es| - 1]))
  }

  lemma {:induction false} SerialIsCovered(mac: Mac, s: State, es: seq<Event>)
    requires Valid(mac, s, es) && Serial(mac, s, es)
    ensures CoveredRun(mac, s, es)
  {
    if es == [] {
    } else {
      var before, e := After(mac, s, es[..|es| - 1]), es[|es| - 1];
      SerialIsCovered(mac, s, es[..|es| - 1]);
      if e.Begin? && Gate(before, e).Admitted? {
        ClosedEstimates(before.calls);
        GateCoversLoneCall(mac, before, e);
      }
    }
  }

  /** So the gate's own check is enough for calls that do not overlap and do not overstate Operating. */
  lemma {:induction false} SerialCallsAccounted(mac: Mac, rows: seq<Row>, es: seq<Event>)
    requires Valid(mac, State(rows, []), es) && Serial(mac, State(rows, []), es)
    ensures CoveredInv(After(mac, State(rows, []), es))
    ensures PotSum(After(mac, State(rows, []), es).rows, Operating)
         == PotSum(rows, Operating) + Others(mac, State(rows, []), es) - Spent(mac, State(rows, []), es)
  {
    SerialIsCovered(mac, State(rows, []), es);
    CoveredCallsAccounted(mac, rows, es);
  }

  // ---------- where the guarantee ends

  /**
   * The default Sonnet call, 1000 tokens in and 1024 out, costs $0.018360: finer than a ledger unit, so never
   * recorded.
   */
  lemma DefaultCallIsNeverRecorded(rows: seq<Row>)
    ensures EstimateCost(Sonnet, 1000, 1024) == 18_360
    ensures Settle(rows, EstimateCost(Sonnet, 1000, 1024)) == rows
  {
    WhenCostIsRecorded(rows, 18_360);
  }

  /**
   * Two overlapping calls of $3 each pass the gate at $55, both cost what was estimated, and the second is not
   * recorded.
   */
  lemma OverlapLosesACost(mac: Mac, rows: seq<Row>)
    requires PotSum(rows, Operating) == 55_000_000
    ensures var begin := Begin(Mother, Generic, 0, 600_000, None);
            var s := Step(mac, Step(mac, State(rows, []), begin), begin);
            && |s.calls| == 2 && s.calls[0].Open? && s.calls[1].Open?
            && var first := Finish(0, 0, 600_000);
            && CostOf(s, first) == 3_000_000
            && var s1 := Step(mac, s, first);
            && s1.rows == rows + [CostRow(3_000_000)]
            && Step(mac, s1, Finish(1, 0, 600_000)).rows == s1.rows
  {
    var begin := Begin(Mother, Generic, 0, 600_000, None);
    var call := Pending(Haiku, 0, 600_000);
    var s0 := State(rows, []);
    assert Estimate(call) == 3_000_000;
    assert Gate(s0, begin) == Admitted(call);
    var s := Step(mac, Step(mac, s0, begin), begin);
    assert s.calls == [Open(call), Open(call)];
    WhenCostIsRecorded(rows, 3_000_000);
    PotSumSnoc(rows, CostRow(3_000_000), Operating);
    WhenCostIsRecorded(rows + [CostRow(3_000_000)], 3_000_000);
  }

  /**
   * A budget that overstates Operating passes the gate; the debit's own check then keeps the floor and the cost is
   * lost.
   */
  lemma OverstatedBudgetLosesACost(mac: Mac, rows: seq<Row>)
    requires PotSum(rows, Operating) == 50_000_000
    ensures var begin := Begin(Mother, Generic, 0, 600_000, Some(Budget(55_000_000, None, 0)));
            var s := Step(mac, State(rows, []), begin);
            && |s.calls| == 1 && s.calls[0].Open?
            && CostOf(s, Finish(0, 0, 600_000)) == 3_000_000
            && Step(mac, s, Finish(0, 0, 600_000)).rows == rows
  {
    var begin := Begin(Mother, Generic, 0, 600_000, Some(Budget(55_000_000, None, 0)));
    var call := Pending(Haiku, 0, 600_000);
    assert Estimate(call) == 3_000_000;
    assert Gate(State(rows, []), begin) == Admitted(call);
    assert Step(mac, State(rows, []), begin).calls == [Open(call)];
    WhenCostIsRecorded(rows, 3_000_000);
  }
}
