/** The budget gate around an LLM call: an estimate before the call, a debit after it. */
module LlmClient {
  import opened Wrappers
  import opened InflowSplit
  import opened Ledger
  import opened ModelRouter

  datatype Budget = Budget(operating: int, monthlyBudget: Option<int>, spentMtd: int)

  datatype Refusal = SystemHalted | BudgetExceeded

  /** An admitted call that waits for its reply. */
  datatype Pending = Pending(model: Model, expectedIn: int, maxTokens: int)

  datatype Admission = Admitted(call: Pending) | Refused(why: Refusal)

  const DEFAULT_OPERATING := 1000_000_000

  function Estimate(call: Pending): int {
    EstimateCost(call.model, call.expectedIn, call.maxTokens)
  }

  /** The pre-call check: the floor always, the monthly budget where one is given. */
  predicate WithinBudget(operating: int, estimate: int, budget: Option<Budget>) {
    && operating - estimate >= FLOOR
    && (budget.Some? && budget.value.monthlyBudget.Some? ==>
          budget.value.spentMtd + estimate <= budget.value.monthlyBudget.value)
  }

  function Admit(halted: bool, agent: Tier, task: TaskKind, operating: int, expectedIn: int, maxTokens: int,
                 budget: Option<Budget>): Admission
  {
    if halted then Refused(SystemHalted)
    else
      var call := Pending(Route(agent, task, operating), expectedIn, maxTokens);
      if WithinBudget(operating, Estimate(call), budget) then Admitted(call) else Refused(BudgetExceeded)
  }

  /** The rows after the post-call debit, whose failure is swallowed. */
  function Settle(rows: seq<Row>, cost: int): seq<Row> {
    if cost > 0 then Kept(rows, Debit(rows, Operating, cost, CostAnthropic, None, "")) else rows
  }

  function CostRow(cost: int): Row {
    Row(Operating, -cost, CostAnthropic, None, "")
  }

  /**
   * A positive cost is recorded exactly when the entry schema can hold it and it leaves Operating at the floor or
   * above.
   */
  lemma WhenCostIsRecorded(rows: seq<Row>, cost: int)
    ensures Settle(rows, cost) == rows + [Row(Operating, -cost, CostAnthropic, None, "")] || Settle(rows, cost) == rows
    ensures Settle(rows, cost) != rows <==>
              && cost > 0 && cost % 100 == 0 && cost < 100_000_000_000_000
              && PotSum(rows, Operating) - cost >= 50_000_000
  {
    NegatedUnits(cost);
  }

  class Client {
    const cashflow: CashflowService?

    constructor (cashflow: CashflowService?)
      ensures this.cashflow == cashflow
    {
      this.cashflow := cashflow;
    }

    function LedgerOperating(): int
      reads this, cashflow
    {
      if cashflow == null then DEFAULT_OPERATING else PotSum(cashflow.rows, Operating)
    }

    /** The figure for Operating that a call works with: the budget's own, if one is given, replaces the ledger's. */
    function OperatingFor(budget: Option<Budget>): int
      reads this, cashflow
    {
      if budget.Some? then budget.value.operating else LedgerOperating()
    }

    /**
     * Everything before the await. A call is admitted, with its model and token limits, exactly when the system runs
     * and the estimate leaves the figure for Operating at the floor and the month's spend within any monthly budget.
     */
    method BeginCall(halted: bool, agent: Tier, task: TaskKind, expectedIn: int, maxTokens: int, budget: Option<Budget>)
      returns (r: Admission)
      ensures r == Admit(halted, agent, task, OperatingFor(budget), expectedIn, maxTokens, budget)
      ensures r == Refused(SystemHalted) <==> halted
      ensures budget.None? && cashflow == null ==> OperatingFor(budget) == 1_000_000_000
      ensures budget.None? && cashflow != null ==> OperatingFor(budget) == PotSum(cashflow.rows, Operating)
      ensures budget.Some? ==> OperatingFor(budget) == budget.value.operating
      ensures r.Admitted? ==> r.call == Pending(Route(agent, task, OperatingFor(budget)), expectedIn, maxTokens)
      ensures var estimate := EstimateCost(Route(agent, task, OperatingFor(budget)), expectedIn, maxTokens);
              r.Admitted? <==>
                && !halted && OperatingFor(budget) >= 50_000_000 + estimate
                && (budget.Some? && budget.value.monthlyBudget.Some? ==>
                      budget.value.spentMtd <= budget.value.monthlyBudget.value - estimate)
    {
      if halted {
        return Refused(SystemHalted);
      }
      var operating := DEFAULT_OPERATING;
      if budget.Some? {
        operating := budget.value.operating;
      } else if cashflow != null {
        var b := cashflow.Balance();
        operating := b.operating;
      }
      var call := Pending(Route(agent, task, operating), expectedIn, maxTokens);
      var estimate := Estimate(call);
      if operating - estimate < FLOOR {
        return Refused(BudgetExceeded);
      }
      if budget.Some? && budget.value.monthlyBudget.Some? {
        if budget.value.spentMtd + estimate > budget.value.monthlyBudget.value {
          return Refused(BudgetExceeded);
        }
      }
      r := Admitted(call);
    }

    /** Everything after the await: the actual cost is debited if it can be, and returned in any case. */
    method FinishCall(call: Pending, tokensIn: int, tokensOut: int) returns (cost: int)
      requires cashflow != null ==> cashflow.Valid()
      modifies cashflow
      ensures cost == EstimateCost(call.model, tokensIn, tokensOut)
      ensures cashflow != null ==> cashflow.Valid() && cashflow.rows == Settle(old(cashflow.rows), cost)
    {
      cost := EstimateCost(call.model, tokensIn, tokensOut);
      if cashflow != null && cost > 0 {
        var _ := cashflow.DebitPot(Operating, cost, CostAnthropic, None, "");
      }
    }
  }
}
