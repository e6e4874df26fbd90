/** Which model a call uses, and what it costs in micro-dollars. */
module ModelRouter {
  import opened Rounding

  datatype Tier = Mother | CodeBuilder | EthicsAuditor | Child

  datatype TaskKind = ProposeVertical | DebugChild | BulkClassify | Generic

  datatype Model = Opus | Sonnet | Haiku | GeminiFlashLite

  const LOW_WATER_MARK := 100_000_000

  function Route(agent: Tier, task: TaskKind, operating: int): Model {
    if agent == EthicsAuditor then Opus
    else if agent == CodeBuilder then Haiku
    else if operating < LOW_WATER_MARK then Haiku
    else if task == ProposeVertical || task == DebugChild then Opus
    else if task == BulkClassify then GeminiFlashLite
    else Sonnet
  }

  /** Cents per million tokens, read and written. */
  function PriceIn(m: Model): nat {
    match m case Opus => 500 case Sonnet => 300 case Haiku => 100 case GeminiFlashLite => 10
  }

  function PriceOut(m: Model): nat {
    match m case Opus => 2500 case Sonnet => 1500 case Haiku => 500 case GeminiFlashLite => 40
  }

  /** (in * price + out * price) / 1000000, rounded half-even to the micro-dollar. */
  function EstimateCost(m: Model, tokensIn: int, tokensOut: int): int {
    HalfEven(tokensIn * PriceIn(m) + tokensOut * PriceOut(m), 100)
  }

  /** Fewer tokens never cost more, after rounding too. */
  lemma CostMonotone(m: Model, in1: int, out1: int, in2: int, out2: int)
    requires in1 <= in2 && out1 <= out2
    ensures EstimateCost(m, in1, out1) <= EstimateCost(m, in2, out2)
  {
    assert in1 * PriceIn(m) + out1 * PriceOut(m) <= in2 * PriceIn(m) + out2 * PriceOut(m);
    HalfEvenMonotone(in1 * PriceIn(m) + out1 * PriceOut(m), in2 * PriceIn(m) + out2 * PriceOut(m), 100);
  }

  /** Only Gemini's cent fractions are rounded, by at most half a micro-dollar; every other price is exact. */
  lemma CostIsExact(m: Model, tokensIn: int, tokensOut: int)
    ensures m != GeminiFlashLite ==>
              100 * EstimateCost(m, tokensIn, tokensOut) == tokensIn * PriceIn(m) + tokensOut * PriceOut(m)
    ensures -50 <= 100 * EstimateCost(m, tokensIn, tokensOut) - (tokensIn * PriceIn(m) + tokensOut * PriceOut(m)) <= 50
  {
    var n := tokensIn * PriceIn(m) + tokensOut * PriceOut(m);
    HalfEvenIsNearestEven(n, 100, HalfEven(n, 100));
    match m
    case Opus => HalfEvenExact(5 * tokensIn + 25 * tokensOut, 100);
    case Sonnet => HalfEvenExact(3 * tokensIn + 15 * tokensOut, 100);
    case Haiku => HalfEvenExact(tokensIn + 5 * tokensOut, 100);
    case GeminiFlashLite =>
  }

  /** Two agents always get the same model, the others choose by task, and Haiku while Operating is below $100. */
  lemma Routes(agent: Tier, task: TaskKind, operating: int)
    ensures agent == EthicsAuditor ==> Route(agent, task, operating) == Opus
    ensures agent == CodeBuilder ==> Route(agent, task, operating) == Haiku
    ensures agent in {Mother, Child} && operating < 100_000_000 ==> Route(agent, task, operating) == Haiku
    ensures agent in {Mother, Child} && operating >= 100_000_000 ==>
              && (task in {ProposeVertical, DebugChild} ==> Route(agent, task, operating) == Opus)
              && (task == BulkClassify ==> Route(agent, task, operating) == GeminiFlashLite)
              && (task == Generic ==> Route(agent, task, operating) == Sonnet)
  {
  }

  /** A million tokens read, or written, cost what the price table says, in micro-dollars. */
  lemma MillionTokens()
    ensures EstimateCost(Opus, 1_000_000, 0) == 5_000_000 && EstimateCost(Opus, 0, 1_000_000) == 25_000_000
    ensures EstimateCost(Sonnet, 1_000_000, 0) == 3_000_000 && EstimateCost(Sonnet, 0, 1_000_000) == 15_000_000
    ensures EstimateCost(Haiku, 1_000_000, 0) == 1_000_000 && EstimateCost(Haiku, 0, 1_000_000) == 5_000_000
    ensures EstimateCost(GeminiFlashLite, 1_000_000, 0) == 100_000
    ensures EstimateCost(GeminiFlashLite, 0, 1_000_000) == 400_000
  {
  }
}
