# Verification of the AAE policy kernel

This project models the policy kernel of the Autonomous Agent Ecosystem and proves properties of it in Dafny: the ethics
review service, the three-pot cashflow ledger, the budget gate around LLM calls, the canonical JSON encoder with the
pre-registration lock built on it, the child supervisor with its kill switch, the operator's command language, and the
expansion ladder. `dafny verify dfyconfig.toml` checks everything.

## How the model is organised

- `Wrappers`, `Numerals`, `Decimals`, `Words`, `SortedEntries`, `Rounding`: optional results, numerals, decimal amounts,
  whitespace splitting, keyed sorting and half-even rounding, each with the facts the components need.
- `EthicsProtocol` is the review as a protocol of small steps taken by any number of concurrent reviews, over a cache and
  a first-come-first-served lock, with failures of the prompt file, the LLM call and the parser, and cancellation.
  `EthicsLinearizability` relates its runs to a service that performs one atomic review at a time, `EthicsGuarantees`
  proves what holds over whole runs, and `EthicsService` is the object whose methods run from one suspension point to the
  next; a ghost trace ties every state of the object to a run of the protocol.
- `InflowSplit` and `Ledger` are the split and the ledger service as a class over a list of rows; `LedgerRuns` is about
  sequences of operations. Money is counted in micro-dollars: a ledger unit ($0.0001) is 100 of them.
- `ModelRouter`, `LlmClient`, `LlmRuns`: prices, the pre-call gate and post-call debit, and runs of overlapping calls.
- `CanonicalJson`, `CanonicalParser`, `CanonicalContent`: the encoder, an inverse parser (strings as in section 7 and
  objects as in section 4 of RFC 8259), and what equal text means. `Preregistration` builds the lock on them,
  `PreregistrationText` spells out the text that is hashed.
- `OperatorParser`, `OperatorGrammar`: the command parser and the grammar it recognises, with UUIDs in the text form of
  section 3 of RFC 4122. `EmergencyFlow` follows an emergency transfer from the signing tool to the ledger rows.
- `Supervisor`, `KillSwitch`: the registry and policy, and `kill_all` interleaved with other work.
- `ExpansionLadder`: rungs, the proposal gate, and runs of spawns.

I/O, clocks, random identifiers and the LLM's answers are parameters of the modelled operations. SHA-256 and HMAC are
function parameters; where a result needs them to be free of collisions it says so in its precondition.

## What turned out false

- An inflow raises the ledger by more than its amount when a capped pot already stands above its cap: the overflow is
  credited to Operating and nothing is taken from the pot. Because the default trailing revenue gives Growth a cap of
  zero, a $100 inflow on top of $290 in Growth raises the total by $390 (`LedgerRuns.InflowAboveCapOvercounts`).
  `LedgerRuns.InflowConservation` gives the exact condition for every amount and Reserve cap, and
  `LedgerRuns.InflowConservationInUnits` its plain form for caps in whole ledger units.
- The sign of an inflow is not checked: with a pot above its cap, an inflow of nothing or of a negative amount can
  be credited too, and the total rises all the same (`LedgerRuns.InflowOfNothingIsCredited`,
  `LedgerRuns.NegativeInflowIsCredited`).
- A cap finer than $0.0001 can make the parts of a split miss the amount by a ledger unit
  (`InflowSplit.FineCapLosesAUnit`); `InflowSplit.SplitSumsExactly` gives the exact condition, for every input.
- A positive LLM cost finer than a ledger unit is never debited; the default Sonnet call's is one
  (`LlmRuns.DefaultCallIsNeverRecorded`). Overlapping calls, or a budget that overstates Operating, can also lose a cost
  to the floor (`LlmRuns.OverlapLosesACost`, `LlmRuns.OverstatedBudgetLosesACost`). `LlmClient.WhenCostIsRecorded` gives
  the exact condition.
- The signing tool signs the amount as typed, the ledger verifies the amount as `Decimal` prints it; they agree exactly
  when the typed amount has no superfluous leading zero (`EmergencyFlow.SigningAgreement`).
- Reserve has no floor: a correctly signed transfer can overdraw it (`LedgerRuns.TransferOverdrawsReserve`). It stays at
  or above zero over a run exactly when, each time something is drawn, it holds that much
  (`LedgerRuns.ReserveNeverOverdrawn`).
- A record or debit that carries the emergency-transfer label takes from Reserve without a signature
  (`LedgerRuns.LabelOpensReserve`). All Reserve rows of a run are signed exactly when the run has no such record or debit
  within the entry schema, which can be read off the operations (`LedgerRuns.ReserveRowsAreSigned`).

## Model

| member | source | states |
|---|---|---|
| EthicsProtocol.VerdictAnswersRequest | aae/ethics/auditor.py:58-84 | A reply becomes a verdict exactly when it is an object with the two keys, a known decision and a rationale of at most 4000 characters; the verdict answers its request, has the decision the reply names, and its rationale is the reply's, padded with spaces to 50 |
| EthicsProtocol.ReachableInv | aae/ethics/auditor.py:39-68 | In every reachable state the lock has at most one holder, the queue is exactly the waiting reviews, a review past its second check works on a subject that is not rejected, and every handed-out rejection is the cached one |
| EthicsLinearizability.Linearizable | aae/ethics/auditor.py:39-68 | Every run of concurrent, failing and cancelled reviews has an order of atomic reviews with the same cache, the same result for every finished review, inputs that really happened, and the real-time order |
| EthicsLinearizability.OrderRespectsRealTime | aae/ethics/auditor.py:39-68 | A review that gave its result before another was called comes first in that order |
| EthicsLinearizability.OrderCaused | aae/ethics/auditor.py:53-68 | Each atomic review's input is backed by events of the run: a verdict by a started call and its reply, a failure by a failed prompt, call or parse, a cancellation by a cancellation |
| EthicsLinearizability.CacheHistory | aae/ethics/auditor.py:34-67 | At every moment of a run the cache is the one the sequential service has after a prefix of the same order |
| EthicsGuarantees.RejectionIsFinal | aae/ethics/auditor.py:41-48 | Once a subject's cached verdict is a rejection it never changes |
| EthicsGuarantees.NoCallAfterRejection | aae/ethics/auditor.py:46-57 | No LLM call about a subject starts after its rejection is cached |
| EthicsGuarantees.OneRejectionPerSubject | aae/ethics/auditor.py:41-48 | All reviews of a subject that return a rejection return the identical, cached verdict |
| EthicsGuarantees.SingleFlight | aae/ethics/auditor.py:45-57 | At most one LLM call is in flight, and its review holds the lock |
| EthicsGuarantees.AtMostOneCall | aae/ethics/auditor.py:39-68 | Each review makes at most one LLM call |
| EthicsGuarantees.LockIsReleased | aae/ethics/auditor.py:45-68 | Every exit path releases the lock; with no review pending the lock is free and nobody queues |
| EthicsGuarantees.FirstComeFirstServed | aae/ethics/auditor.py:33-45 | A review that queued for the lock first is never overtaken |
| EthicsGuarantees.ReviewsFinish | aae/ethics/auditor.py:45-68 | Without new calls only a bounded number of steps remains, and when no step is left every review has its result and the lock is free |
| EthicsGuarantees.SomeStepPossible | aae/ethics/auditor.py:45-68 | While a review is pending the service can take a step: no deadlock |
| EthicsService.Service.Review | aae/ethics/auditor.py:39-57 | A call returns a verdict at once exactly when the cached one is a rejection, and that one; else it queues behind a busy lock or takes the free lock up to its LLM call; nothing else changes |
| EthicsService.Service.WakeFirst | aae/ethics/auditor.py:45-57 | The free lock goes to the longest waiter, which checks the cache again before its LLM call |
| EthicsService.Service.Complete | aae/ethics/auditor.py:53-68 | A verdict is returned and cached exactly when the reply is usable, and it says what the reply says, approval, rejection or escalation; any failure raises without a write, and the lock is released either way |
| EthicsService.Service.Cancel | aae/ethics/auditor.py:45-57 | Cancelling a waiting review removes it from the queue, cancelling one in its LLM call releases the lock; the cache does not change |
| EthicsService.Service.ServedSequentially | aae/ethics/auditor.py:27-68 | Whatever the object has served, its cache and results are those of a legal order of atomic reviews |
| Rounding.HalfEvenIsNearestEven | aae/cashflow/ledger.py:65-67 | The rounding used by quantize gives the one nearest integer, the even one on ties |
| InflowSplit.SplitInflow | aae/cashflow/ledger.py:54-84 | For all inputs Reserve and Growth are allotted their rounded 25% and 15% unless that lifts them above their cap, and then what is left below it, and Operating gets the rest; in whole units a pot whose share does not fit stands exactly at its cap |
| InflowSplit.ResidueAtMostOneUnit | aae/cashflow/ledger.py:65-70 | The three rounded shares miss an amount at four decimals by at most one $0.0001 unit |
| InflowSplit.UncappedShares | aae/cashflow/ledger.py:65-70 | Uncapped, Operating is within one unit of 60%, Reserve and Growth within half a unit of 25% and 15% |
| InflowSplit.SplitConserves | aae/cashflow/ledger.py:54-84 | With balances and caps in whole units the parts sum to the amount if and only if it is in whole units, and never miss it by more than half a unit |
| InflowSplit.CapsAreWholeUnits | aae/cashflow/pots.py:25-30 | The Growth cap is 30% of the trailing revenue and the Reserve cap the burn of the runway, both rounded half-even to whole ledger units |
| InflowSplit.SplitSumsExactly | aae/cashflow/ledger.py:54-84 | For all amounts, balances and caps, exactly when the parts sum to the amount: it is in whole units and Operating's rounding absorbs the rounding errors of the other two |
| InflowSplit.FineCapLosesAUnit | aae/cashflow/ledger.py:72-84 | Two concrete splits, one with a fine Reserve cap and one with a fine Growth cap, whose parts miss the amount by a unit |
| InflowSplit.OperatingShare | aae/cashflow/ledger.py:69-78 | Operating gets at least one unit of any positive inflow at four decimals, and at least as much as either other pot, whatever the balances and caps |
| InflowSplit.PartsFollowOperating | aae/cashflow/ledger.py:178-190 | For every input, when Operating's part fits the entry schema the other two parts do |
| InflowSplit.RecordedTotal | aae/cashflow/ledger.py:187-189 | For all amounts, balances and caps, exactly when the positive parts sum to the amount plus what is dropped with the others, and when to the amount itself |
| InflowSplit.DroppedIsOvershoot | aae/cashflow/ledger.py:74-82 | For a positive amount, what is dropped is how far the two pots stand above their caps |
| InflowSplit.RecordedTotalInUnits | aae/cashflow/ledger.py:187-189 | With balances and caps in whole units these are: the amount is in whole units, and nothing is dropped |
| Ledger.NoDrift | aae/cashflow/reconcile.py:15-24 | The three bucketed balances total the flat sum of the rows |
| Ledger.BalanceIgnoresOrder | aae/cashflow/ledger.py:103-112 | Balances do not depend on the order in which the rows are read |
| Ledger.SoundBalances | aae/cashflow/ledger.py:120-155 | In every ledger built row by row Growth and Operating are never negative and balances are whole units |
| Ledger.SoundRows | aae/cashflow/ledger.py:120-155 | Every negative Reserve row carries the emergency-transfer source, and every row fits the entry schema |
| Ledger.FloorIsKept | aae/cashflow/ledger.py:217-225 | Once at or above $50, Operating never falls below it as the ledger grows |
| Ledger.WhenRowIsAccepted | aae/cashflow/ledger.py:120-155 | Exactly which rows are accepted, for every pot, sign, source and note, and which error each other row gets |
| Ledger.CashflowService.Balance | aae/cashflow/ledger.py:103-112 | The bucketing loop returns each pot's sum |
| Ledger.CashflowService.CheckDrift | aae/cashflow/reconcile.py:15-24 | The drift between flat sum and balances is zero for every list of rows |
| Ledger.CashflowService.AssertDebitAllowed | aae/cashflow/ledger.py:217-233 | A debit is allowed exactly when it leaves Operating at the floor or Growth at zero or above, or carries the transfer label for Reserve; the error otherwise |
| Ledger.CashflowService.RecordEntry | aae/cashflow/ledger.py:120-155 | A row is appended exactly when it is non-zero, within the entry schema, and as a debit leaves Operating at $50, Growth at zero, or is a labelled one of Reserve; otherwise nothing changes and the first failing check is reported |
| Ledger.CashflowService.DebitPot | aae/cashflow/ledger.py:157-160 | A debit of a non-positive amount is refused, otherwise it records the negated amount |
| Ledger.CashflowService.CreditPot | aae/cashflow/ledger.py:162-165 | A credit of a non-positive amount is refused, otherwise it records the amount |
| Ledger.CashflowService.SplitAndRecordInflow | aae/cashflow/ledger.py:169-190 | An inflow is recorded with all its positive parts, the Operating row standing in for a skipped one in the result, or refused with Operating's error and nothing written |
| Ledger.CashflowService.TransferReserveToOperating | aae/cashflow/ledger.py:194-213 | A transfer writes and returns both rows, of the amount as written, and moves it from Reserve to Operating; or it changes nothing and reports the first failed check: the signature, the sign of the amount, the entry schema |
| LedgerRuns.Perform | aae/cashflow/ledger.py:93-213 | One operation on the service object changes its rows as the run model says |
| LedgerRuns.RunInvariant | aae/cashflow/ledger.py:120-233 | From an empty ledger, over every sequence of accepted and refused operations, Growth and Operating stay non-negative and only emergency-transfer rows take from Reserve |
| LedgerRuns.RunKeepsFloor | aae/cashflow/ledger.py:217-225 | Over every such sequence, and after every single row, Operating once at or above $50 stays there |
| LedgerRuns.InflowRefused | aae/cashflow/ledger.py:169-190 | An inflow of any amount is refused exactly when Operating's part is not positive or beyond the entry schema, and a positive one is never too small at four decimals; otherwise the total rises, by the positive parts |
| LedgerRuns.InflowConservation | aae/cashflow/ledger.py:169-190 | Whatever the amount, caps and balances, exactly when a recorded inflow raises the total by the amount plus what is dropped, for a positive amount the overshoots, and exactly when by the amount |
| LedgerRuns.InflowConservationInUnits | aae/cashflow/ledger.py:169-190 | With a Reserve cap in whole units a recorded inflow raises the total by exactly its amount if and only if that is positive and in whole units and no capped pot stands above its cap |
| LedgerRuns.InflowReachesPots | aae/cashflow/ledger.py:178-190 | A recorded inflow raises each pot by its own positive part and lowers none |
| LedgerRuns.InflowFillsPots | aae/cashflow/ledger.py:169-190 | A positive inflow raises a pot at or below its cap by its share if that fits, and exactly to its cap otherwise; a pot above its cap stays as it is |
| LedgerRuns.InflowAboveCapOvercounts | aae/cashflow/ledger.py:169-190 | A concrete inflow of $100 that raises the total by $390 |
| LedgerRuns.InflowOfNothingIsCredited | aae/cashflow/ledger.py:169-190 | A concrete inflow of $0 that raises the total by $290 |
| LedgerRuns.NegativeInflowIsCredited | aae/cashflow/ledger.py:169-190 | A concrete inflow of -$100 that raises the total by $215 |
| LedgerRuns.TransferConserves | aae/cashflow/ledger.py:203-213 | A transfer moves its amount, coefficient and places as written, from Reserve to Operating by two rows and leaves Growth and the total alone |
| LedgerRuns.ReserveAfterTransfer | aae/cashflow/ledger.py:203-213 | A carried-out transfer leaves Reserve at or above zero exactly when Reserve held the amount |
| LedgerRuns.TransferOverdrawsReserve | aae/cashflow/ledger.py:194-230 | A concrete correctly signed transfer, for every signing function, that is carried out and takes Reserve below zero |
| LedgerRuns.ReserveNeverOverdrawn | aae/cashflow/ledger.py:120-213 | Over every run from the empty ledger Reserve never falls below zero exactly when, at each operation that draws on it, it holds what is drawn |
| LedgerRuns.ReserveRowsAreSigned | aae/cashflow/ledger.py:39-40 | Over every run, every row that takes from Reserve was written by a validly signed transfer exactly when no record or debit of the run takes from Reserve under the transfer label within the entry schema |
| LedgerRuns.LabelOpensReserve | aae/cashflow/ledger.py:226-230 | A concrete record that takes from Reserve under the label with no signature |
| ModelRouter.CostMonotone | aae/core/model_router.py:29-34 | Fewer tokens never cost more, after rounding |
| ModelRouter.CostIsExact | aae/core/model_router.py:29-34 | Costs are exact to the micro-dollar except Gemini's, which are within half of one |
| ModelRouter.MillionTokens | aae/core/model_router.py:29-34 | What a million tokens read, or written, cost with each model |
| ModelRouter.Routes | aae/core/model_router.py:15-26 | Which model each agent gets for each task, below and from $100 on |
| LlmClient.WhenCostIsRecorded | aae/core/llm_client.py:83-94 | Exactly when a positive actual cost reaches the ledger |
| LlmClient.Client.BeginCall | aae/core/llm_client.py:69-78 | A call is admitted exactly when the system is not halted, the estimate leaves the figure for Operating at the floor, and the month's spend stays within any monthly budget |
| LlmClient.Client.FinishCall | aae/core/llm_client.py:83-102 | The actual cost is returned, and debited if the ledger accepts it |
| LlmRuns.CallsKeepFloor | aae/core/llm_client.py:58-102 | Under any interleaving of calls, with and without budget overrides, and ledger operations, Operating is never taken from at or above $50 to below it |
| LlmRuns.CoveredCallIsRecorded | aae/core/llm_client.py:83-94 | While Operating covers all open estimates, a reply within its estimate costs no more than it and is refused only by the entry schema |
| LlmRuns.GateCoversLoneCall | aae/core/llm_client.py:104-111 | The gate's check is that coverage for a call that begins alone and whose budget, if any, does not overstate Operating |
| LlmRuns.CoveredCallsAccounted | aae/core/llm_client.py:58-111 | For every run of calls, overlapping or not, in which each admitted call leaves Operating covering all open estimates and other operations keep it so, Operating falls by exactly the costs the entry schema can hold |
| LlmRuns.SerialCallsAccounted | aae/core/llm_client.py:58-111 | The same for calls that do not overlap and whose budgets do not overstate Operating: the gate alone covers them |
| LlmRuns.DefaultCallIsNeverRecorded | aae/core/llm_client.py:65-66 | The default Sonnet call's cost is finer than a ledger unit and never recorded |
| LlmRuns.OverlapLosesACost | aae/core/llm_client.py:72-94 | Two overlapping calls pass the gate and the second cost is lost |
| LlmRuns.OverstatedBudgetLosesACost | aae/core/llm_client.py:72-94 | A budget above the ledger's Operating passes the gate and the cost is lost to the floor |
| CanonicalContent.EncodePrintsNormal | aae/preregistration/canonical.py:41-52 | The key-sorting encoder prints the sorted tree |
| CanonicalContent.KeysAscendAtEveryDepth | aae/preregistration/canonical.py:46 | At every depth of that tree the keys of a dictionary stand in ascending code-point order |
| CanonicalContent.CanonicalRoundTrip | aae/preregistration/canonical.py:41-52 | A parser recovers the sorted tree of every float-free value from its canonical text |
| CanonicalContent.CanonicalTextIsContent | aae/preregistration/canonical.py:41-52 | Canonical texts are equal exactly when the contents are, whatever the key order at any depth |
| CanonicalContent.EncodingRefusesExactlyFloats | aae/preregistration/canonical.py:30-43 | Encoding succeeds exactly when no float occurs at any depth |
| CanonicalParser.ParsePrinted | aae/preregistration/canonical.py:44-51 | Parsing undoes printing for every float-free value, whatever follows it |
| CanonicalParser.ParseEscapedString | aae/preregistration/canonical.py:44-51 | Escaped strings are read back exactly |
| CanonicalParser.EscapeSpelling | aae/preregistration/canonical.py:44-51 | Which characters are escaped and how; every other character stands for itself |
| SortedEntries.SortUnique | aae/preregistration/canonical.py:46 | Two listings of entries sort to the same list exactly when they are the same dictionary |
| SortedEntries.LessIsCodePointOrder | aae/preregistration/canonical.py:46 | The order of keys: a proper prefix first, else the first code point that differs decides |
| Preregistration.SameContentSameFields | aae/preregistration/register.py:23-29 | The hashed texts of two records are equal exactly when they agree on every field but the lock hash |
| PreregistrationText.LockedText | aae/preregistration/register.py:23-29 | The text that is hashed for a record, letter by letter: its ten fields under their names, in ascending order |
| PreregistrationText.StoredFields | aae/preregistration/register.py:23-29 | What is stored are those ten fields and the lock hash, and exactly the lock hash is left out of the text |
| Preregistration.CreatedVerifies | aae/preregistration/register.py:49-66 | A record that create builds verifies, for every hash function |
| Preregistration.OnlyTheLockedRecordVerifies | aae/preregistration/register.py:105-108 | With a collision-free hash, under the lock hash of a verified record exactly that record verifies |
| Preregistration.ValidateOfDump | aae/preregistration/register.py:63-66 | Serializing a record and validating the result loses nothing |
| Preregistration.Registry.Create | aae/preregistration/register.py:32-81 | A plan within the limits of the schema under a fresh identifier appends one locked row that verifies; otherwise the table is unchanged |
| Preregistration.Registry.Get | aae/preregistration/register.py:84-88 | What is read back under an identifier is a stored record, and it verifies |
| Decimals.ReadOfText | aae/preregistration/register.py:63-66 | Printing a decimal and reading it back keeps its digits and places |
| Decimals.MicrosExact | aae/cashflow/ledger.py:203-212 | The recorded value of an amount is its coefficient over the power of ten of its places |
| Supervisor.DecisionsDoNotReturnToKeep | aae/core/child_supervisor.py:77-103 | Without new revenue and with time advancing, a decision against a child never returns to keep |
| Supervisor.EnoughRevenueIsSafe | aae/core/child_supervisor.py:88-101 | With positive revenue at or above the day-30 minimum no later run yields a kill |
| Supervisor.SafeFromKillExactly | aae/core/child_supervisor.py:77-103 | Exactly which children the policy can never kill any more |
| Supervisor.SpendsMoveTogether | aae/core/child_supervisor.py:63-68 | Month spend minus cumulative spend never changes |
| Supervisor.HistoryExactly | aae/core/child_supervisor.py:57-74 | A run adds its spends to both spend counters and its revenue to the month's revenue, moves the last heartbeat, and changes nothing else |
| Supervisor.DayCounts | aae/core/child_supervisor.py:82 | The day is the number of whole days since the spawn, and zero before it |
| Supervisor.ChildSupervisor.Register | aae/core/child_supervisor.py:52-55 | A new child is added with zero spend, a known identifier is refused |
| Supervisor.ChildSupervisor.Observe | aae/core/child_supervisor.py:57-74 | A heartbeat, spend or revenue changes one known child and nothing else |
| Supervisor.ChildSupervisor.Decide | aae/core/child_supervisor.py:77-103 | A known child is paused exactly when its month's budget is spent, else killed exactly when its first dollar is overdue or the day-30 target missed, with the first cause as reason, else kept |
| Supervisor.ChildSupervisor.SetStatus | aae/core/child_supervisor.py:106-112 | pause and kill set status and reason of one known child |
| Supervisor.ChildSupervisor.PauseAll | aae/core/child_supervisor.py:114-120 | Exactly the live children are paused, and counted |
| KillSwitch.KillAllKillsExactlyTheTargets | aae/core/child_supervisor.py:122-138 | Under any interleaving, when the task group ends every child that was starting, live or paused is killed, every killed or archived one keeps its status, each is otherwise what its own events made it, and the count is right; the deadline changes none of it |
| KillSwitch.NewChildrenSurvive | aae/core/child_supervisor.py:132-134 | A child registered during the switch keeps the status it came with |
| KillSwitch.KillAllEnds | aae/core/child_supervisor.py:126-134 | A pending kill can always run, and the switch ends after as many kills as targets |
| OperatorParser.UuidSpelling | aae/core/operator_parser.py:20 | The recogniser accepts exactly the text forms of 128-bit values in either case, and reads their value |
| OperatorGrammar.AmountSpelling | aae/core/operator_parser.py:21 | The recogniser accepts exactly amounts with at most two places, under any leading zeros |
| OperatorGrammar.ParserMeetsGrammar | aae/core/operator_parser.py:60-129 | On every token list the parser yields a command exactly when one of the eight rules spells it |
| OperatorGrammar.ParseAcceptsExactlyTheGrammar | aae/core/operator_parser.py:60-129 | The same for whole subjects |
| OperatorGrammar.FormLetterReasons | aae/core/operator_parser.py:60-129 | A form letter is sent exactly when no rule spells the subject, and for each of the eight reasons exactly which subjects get it |
| OperatorGrammar.WhatParseKeeps | aae/core/operator_parser.py:60-129 | What is hashed of a mail, and which commands keep how much of its body |
| OperatorGrammar.CaseAndSpacingDoNotMatter | aae/core/operator_parser.py:63-68 | Letter case and whitespace change neither the command nor whether there is one |
| OperatorGrammar.ParseOfPrint | aae/core/operator_parser.py:36-45 | Parsing a printed command gives back its action, identifier and amount |
| Words.SplitOfLayout | aae/core/operator_parser.py:67 | Splitting recovers the words of every layout with whitespace |
| Words.EveryTextIsLaidOut | aae/core/operator_parser.py:67 | Every text is a layout of the words it splits into |
| Words.SplitOfStrip | aae/core/operator_parser.py:63-67 | Stripping does not change the words |
| Words.StripExactly | aae/core/operator_parser.py:61-63 | Stripping takes away exactly the whitespace at both ends |
| Words.SpacesAre | aae/core/operator_parser.py:61-67 | Which ASCII characters count as whitespace |
| Numerals.LetterCase | aae/core/operator_parser.py:68 | Which characters change case, and how |
| EmergencyFlow.SigningAgreement | scripts/emergency_transfer.py:30-33 | The ledger verifies the signing tool's signature exactly when the typed amount has no superfluous leading zero |
| EmergencyFlow.SignedCommandIsCarriedOut | aae/cashflow/ledger.py:194-213 | From the signed command, in any letter case, to the ledger rows: exactly when the transfer is carried out, and that it moves the amount typed |
| ExpansionLadder.CurrentRung | aae/core/mother_agent.py:35-45 | The loop returns max(1, number of satisfied rungs) |
| ExpansionLadder.RungIsHighestSatisfied | aae/core/mother_agent.py:35-45 | The rung is the highest satisfied one |
| ExpansionLadder.RungMonotone | aae/core/mother_agent.py:35-45 | More revenue and channels never lower the rung |
| ExpansionLadder.CanProposeNew | aae/core/mother_agent.py:56-76 | A proposal is allowed exactly when there is room under the rung's cap and, from $500 on, at least two channels; the rung and cap are reported |
| ExpansionLadder.GateByBand | aae/config/frozen/expansion_rungs.py:6-12 | The gate's answer for every revenue, number of channels and number of children, with the numbers of the table |
| ExpansionLadder.HundredDollarCheckNeverDecides | aae/core/mother_agent.py:73-75 | The separate $100 check is never the deciding refusal |
| ExpansionLadder.NeverMoreThanEight | aae/core/mother_agent.py:56-76 | No run that starts with at most eight children ever has more |
| ExpansionLadder.SpawnWithinRung | aae/config/frozen/expansion_rungs.py:6-12 | An allowed spawn stays within the cap of the current rung and respects the revenue and channel rules |

## Left out

- Channel clients, web routes, the mail transport, containers, templates, migrations and the database: the session is a list of rows, and a write either happens as a whole or not at all.
- The tool registry, domain guard, frozen-hash command, channel lint, weekly digest and simulation harness: thin wrappers, off the paths modelled here.
- The trust-boundary check in the ledger's constructor: a single membership test.
- Decimal precision beyond 28 significant digits, amounts finer than a micro-dollar, and scientific notation of decimals with more than six places.
- Entry identifiers, timestamps and the writing tier of ledger rows: they decide nothing.
- The canonical encoder on non-string keys, on Decimal, UUID and date leaves, on lone surrogates, and on integers beyond Python's digit limit for printing.
- A pre-registration's identifier and creation time are carried as the texts they are serialized to; that this serialization is lossless is taken for granted.
- Non-ASCII letters, digits and spaces in operator subjects.
- Direct pause or kill calls during kill_all, and wall-clock time other than the final comparison with the deadline.
- The rule that a third vertical needs a different channel: one membership test.
