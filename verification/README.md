# Verified model of the replication-lab harness

A Dafny model of the parts of the harness that carry the hard guarantees: budget enforcement and its audit,
at-most-once execution with crashes, allocation and frontier mathematics, the cache-canary evidence chain, the event
normaliser, the resumable batch, and three small state machines. Each producer is modelled in the form its source has
(a class over mutable fields, a loop over arrays, a recursive function) and is proved against a specification; the
properties that the harness relies on are then proved about that specification, over every input and every run.

Verify everything with `dafny verify dfyconfig.toml`, or pass all `.dfy` files to one `dafny verify`.

## Modules

| module | subject |
|---|---|
| `Budget`, `BudgetAudit`, `BudgetHost` | the budget extension's handlers, the Python auditor of its receipt, and the host protocol under which every receipt passes |
| `Lines` | where a text file breaks into lines, and what an append adds |
| `Ledger`, `Execution`, `ControllerRun`, `ControllerSteps` | reservations and the record ledger, as text; interleaved, crashing controllers over durable files; one undisturbed pass; that pass as steps of the former |
| `TaskPairs`, `Allocation` | pairing dataset rows; exact-k selection by uplift against every k-subset |
| `Pareto`, `Frontier` | the nondominated staircase and its area; scalarised selection and the oracle |
| `Ranks`, `Concordance` | average ranks and rho; tau-b and pairwise accuracy |
| `TreatmentPanels`, `TreatmentMeaning`, `TreatmentStrategies` | complete panels; fixed, uniform, predicted and hindsight assignments |
| `ArgvScanner`, `JsonValues`, `CacheProxy`, `CacheReceipts`, `CacheCompare`, `CacheMeaning`, `CacheConservation` | the cache chain: launch arguments, proxy receipts, runtime and turn receipts, cell comparison, and what acceptance means |
| `Events`, `EventMeaning` | the event normaliser and its synthetic abort; what it gathers, by position |
| `Batch` | line-structured result file, resumed and crashing runs |
| `Splits`, `Workflow`, `Rpc` | split arithmetic; token-gated pages; the pending-request table |
| `Common`, `Reals`, `Sorting` | shared datatypes, real-arithmetic facts, stable sorting |

## Conventions

- A hash is the free injective function: a digest is represented by the value it commits to. Workflow tokens are any
  injective function of the choices before them, and the deterministic attempt id never collides.
- Random draws are parameters: shuffles are arbitrary permutations, samples arbitrary subsets of the stated size.
- Floats are reals. `log1p` is any strictly increasing function (with value 0 at 0 where that matters) and `sqrt` any
  function that squares back on non-negative reals. "Not a number" is `None`.
- Integers are unbounded, as in Python; the TypeScript counters stay far below the range where doubles lose integers.
- Limits such as 12 tool calls and 72 panels are symbolic wherever the code does not depend on the literal.
- The JSON text of a record is given by a writer and a reader of lines, of which only this is assumed: a record is read
  back from its own line, white space may stand before it, and neither other text glued before it nor a proper prefix of
  it parses (`Ledger.Legible`, `Batch.Faithful`; `Ledger.LegibleCanBeHad` and `Batch.FaithfulCanBeHad` exhibit such pairs).
- Typed records stand for JSON objects. Where a validator looks at the type of a value, the value is kept as `Json`.
- In `Ledger`, `fieldsOk` stands for the record's remaining field checks (formats, timestamps, digests of the frozen
  manifest), which do not interact with the modelled ones.

## What the proofs found

- The auditor rejects receipts with empty call ids, but the extension never checks ids for emptiness; with that, a
  request and disjoint suppressed ids, an empty violation list is all the audit asks (`BudgetAudit.ReceiptVerdict`).
- With a host that answers admitted requests and starts only retained calls, a session is free of violations exactly
  when at most one call more than the tool limit is started (`BudgetHost.ViolationFreeExactly`). A host that also starts
  every retained call before it requests again never starts more; one that does not may or may not
  (`BudgetHost.RequestingWithRetainedCallsBypassesTheLimit`).
- The test that recognises a synthetic abort does not look at reasoning tokens, so the reasoning counter may exceed the
  provider turns, by exactly that amount; no other counter does (`Events.CountersAreProviderSums`).
- `batch.py` writes JSON without escaping U+0085, U+2028 and U+2029 but reads lines with `splitlines`, so a completed
  record holding one of them is run again, contrary to its docstring. The same happens after a line that an earlier
  writer left open, unless it is white space. These are the only ways (`Batch.RunsOnceExactly`).
- The baseline ledger is written by the same function and read by a loader that raises on a line it cannot parse, while
  a completed record carries text no check restricts (standard error of the agent, details of its tool trace). One
  separator in it lets the pass go on to its last panel, and then the path is never certified and never resumed
  (`ControllerRun.CertifiesExactly`, `ControllerRun.SeparatorStrandsThePath`).
- Adding an operating point can lower the frontier area. It does exactly when no point dominates it, it dominates no
  frontier point, and it lies between two neighbours and below their chord on the transformed cost axis
  (`Pareto.MorePointsLowerAreaExactly`, `Pareto.MorePointsLessArea`); a point that drives others out, or that extends the
  frontier at either end, never does.
- Deleting the synthetic message changes no token counter but reasoning, yet it can cost the last provider turn: the
  message before it may then pass for the local abort (`Events.ErasureKeepsTurnsExactly`, `Events.ErasureMayLoseATurn`).
- Nothing in the record checks bounds wall time (`Ledger.WallSecondsUnbounded`), although the worst case reserves it.
- In the split of policies and items, both internal consistency errors are unreachable, and a rejection after the ratio
  checks happens exactly when the other parts' minimum sizes leave nothing for the first (`Splits.SplitDimension`).
- Creating an immutable file succeeds when the same content is already there (`src/pyreplab_harness/m3_pilot.py:522-536`);
  the model follows that, not a plain create-if-absent.

## Model

| member | source | states |
|---|---|---|
| Budget.Extension.OnSessionStart | pi_extensions/gym-budget-v3.ts:151-153 | a startup session resets every counter and list; any other start changes nothing |
| Budget.Extension.OnProviderRequest | pi_extensions/gym-budget-v3.ts:155-180 | a request is admitted or blocked by the two limits and any recorded violation; a second block is itself a violation |
| Budget.Extension.OnMessageEnd | pi_extensions/gym-budget-v3.ts:182-215 | a batch larger than the remaining attempts keeps its first call only, records exactly the others as suppressed and aborts; any other message changes nothing |
| Budget.Extension.OnExecutionStart | pi_extensions/gym-budget-v3.ts:217-236 | an attempt past the limit or with a repeated id is recorded as a violation and aborts the session |
| Budget.Extension.OnAdmissionHook | pi_extensions/gym-budget-v3.ts:238-265 | a budgeted call is blocked exactly if its signal is aborted or toolLimit calls are admitted; otherwise its id is admitted, and an admission without a recorded attempt, or a second one, is a violation; the accounting is kept |
| Budget.Extension.OnToolResult | pi_extensions/gym-budget-v3.ts:267-296 | an execution of a call that was not admitted, or twice, is recorded as a violation |
| Budget.Extension.OnSettled | pi_extensions/gym-budget-v3.ts:100-142 | the first settled event writes the receipt of the current state, later ones write nothing |
| Budget.RunKeepsAccounted | pi_extensions/gym-budget-v3.ts:144-299 | over every event sequence, with no assumption about the host: ids are recorded without repetition, both caps hold, and an empty violation list implies executed within admitted within attempted ids |
| Budget.ReceiptEmittedOnce | pi_extensions/gym-budget-v3.ts:100-142 | a session writes exactly one receipt if it ever settles |
| Budget.EmittedReceiptIsOfAPrefix | pi_extensions/gym-budget-v3.ts:100-142 | every written receipt is the receipt of the state reached by some prefix of the events |
| Budget.SessionLists | pi_extensions/gym-budget-v3.ts:144-299 | in every session the attempted, admitted and executed ids are exactly the first occurrences, in order, of what was asked for, as far as the limits reach |
| Budget.AdmittedCount | pi_extensions/gym-budget-v3.ts:238-265 | in every session the admitted ids number the smaller of toolLimit and the distinct ids of budgeted hooks whose signal was not aborted |
| Budget.KeepRetainsProseAndTerminalCall | pi_extensions/gym-budget-v3.ts:182-215 | rewriting an over-cap message keeps all its prose in order, every call with the terminal id, and nothing else |
| Budget.CallsByPosition | pi_extensions/gym-budget-v3.ts:193-203 | the tool calls of a message that are counted and suppressed are all that stand in it, in order |
| BudgetAudit.BudgetReceiptErrors | src/pyreplab_harness/m3_empty_overlay_execution.py:733-873 | the auditor's list of complaints is empty exactly for receipts that satisfy the declarative condition: limits, counts, lists, the rejected partition, suppressed ids apart, trace agreement |
| BudgetAudit.RejectedCount | src/pyreplab_harness/m3_empty_overlay_execution.py:795-856 | the rejected ids of a receipt number attempts minus admissions |
| BudgetAudit.ReceiptVerdict | src/pyreplab_harness/m3_empty_overlay_execution.py:733-873 | after any events whatever, the extension's receipt passes the audit exactly when its limits match, no violation was recorded, a request was admitted, no id is empty, no suppressed id was attempted and the trace agrees; all other clauses are implied |
| BudgetHost.ViolationFreeExactly | pi_extensions/gym-budget-v3.ts:144-299 | with any host that answers admitted requests and starts only retained calls, a session is free of violations exactly when it starts at most toolLimit + 1 calls |
| BudgetHost.DrainingStaysWithinLimit | pi_extensions/gym-budget-v3.ts:144-299 | a host that also starts every retained call before it requests again never starts more |
| BudgetHost.ConformingSessionIsAuditable | pi_extensions/gym-budget-v3.ts:144-299 | with a host that answers admitted requests, starts only retained calls, and starts them all before requesting again, no violation is ever recorded, and the state is auditable as soon as a request was made |
| BudgetHost.ConformingReceiptPasses | pi_extensions/gym-budget-v3.ts:144-299 | every receipt of a conforming session within the attempt limit passes all receipt-only audit clauses but the one that a request was admitted |
| BudgetHost.RequestingWithRetainedCallsBypassesTheLimit | pi_extensions/gym-budget-v3.ts:182-236 | of two concrete sessions that request again with a retained call outstanding, one records a bypassed attempt limit and the other no violation |
| BudgetHost.SettledSessionConforms | pi_extensions/gym-budget-v3.ts:100-180 | a conforming session that ends with a receipt |
| Ledger.ReservationsTelescope | src/pyreplab_harness/m3_empty_overlay_execution.py:194-256 | before = panel + after for every panel, the first equals the worst case, each after is the next before, the last is nothing |
| Ledger.BlockedIndicesAreExact | src/pyreplab_harness/m3_empty_overlay_execution.py:642-678 | the blocked positions of a tool trace, in order and without omission |
| Ledger.AttemptStructuralErrors | src/pyreplab_harness/m3_empty_overlay_execution.py:876-1094 | no complaint exactly when every count is in bounds, at most the last call was blocked locally, the synthetic messages are accounted for and the receipt passes its audit |
| Ledger.ValidateRecord | src/pyreplab_harness/m3_empty_overlay_execution.py:1287-1403 | no complaint exactly for records that name their own panel, attempt and reservation, and whose completed attempt is structurally sound and consumed what it says |
| Ledger.LoadLedger | src/pyreplab_harness/m3_empty_overlay_execution.py:1411-1465 | a ledger text loads exactly when each of its lines is blank or parses and the records are valid ones in manifest order, and then all of them are returned |
| Ledger.AppendIsReadBack | src/pyreplab_harness/m3_empty_overlay_execution.py:351-355 | whatever text a record is appended to, the result can be read exactly when the text could, nothing but spaces stood open at its end and the line of the record holds no boundary; then it adds that one record |
| Ledger.AppendsAreReadBack | src/pyreplab_harness/m3_empty_overlay_execution.py:351-355 | the same for any number of appended records |
| Ledger.WrittenIsReadBack | src/pyreplab_harness/m3_empty_overlay_execution.py:351-355 | a file made by appends alone loads as what was appended, exactly when none of its lines holds a boundary |
| Ledger.LegibleCanBeHad | src/pyreplab_harness/m3_empty_overlay_execution.py:351-355 | a writer and reader of lines that meet what is assumed of them, with and without a boundary in the line |
| Ledger.PrefixHasNoDuplicates | src/pyreplab_harness/m3_empty_overlay_execution.py:1411-1465 | in a loadable ledger no panel and no attempt id occurs twice |
| Ledger.CompletedRecordWithinReservation | src/pyreplab_harness/m3_empty_overlay_execution.py:681-706 | one completed record consumed no more than its panel reserved |
| Ledger.AcceptedLedgerWithinWorstCase | src/pyreplab_harness/m3_empty_overlay_execution.py:1411-1465 | whatever ledger loads, its total consumption of turns, gate checks, output tokens, attempts and admissions stays within the worst case |
| Ledger.WallSecondsUnbounded | src/pyreplab_harness/m3_empty_overlay_execution.py:1341-1402 | wall time is not bounded: a valid completed record stays valid with any duration |
| Execution.AtMostOneInvocationPerPanel | src/pyreplab_harness/m3_empty_overlay_execution.py:1931-2232 | over every interleaving of controllers with crashes between any two file operations, each panel is invoked at most once, all under one authorization |
| Execution.LedgerIsManifestPrefix | src/pyreplab_harness/m3_empty_overlay_execution.py:1950-2222 | over every run the appended records are a manifest-order prefix of one authorization, completed and valid but possibly the last, which is valid as far as its own fields are; the ledger is their text and reads back as them exactly when no line holds a boundary; at most one controller is past the lock |
| Execution.ReceiptOnlyBesideCompleteLedger | src/pyreplab_harness/m3_empty_overlay_execution.py:1491-1546 | a completion receipt, even half written, exists only beside a ledger text that reads back as exactly one valid completed record per panel, whose digest it carries |
| Execution.NoInvocationAfterInfrastructureFailure | src/pyreplab_harness/m3_empty_overlay_execution.py:1411-1488 | after an infrastructure-invalid record, a marker whose controller is gone, or an unreadable line whose controller is gone, nothing is ever invoked, appended or certified again |
| Execution.UnreadableIsNeverCertified | src/pyreplab_harness/m3_empty_overlay_execution.py:1411-1465 | once an appended line holds a boundary the ledger never loads again and no later actions certify the path |
| Execution.ClaimIsFinal | src/pyreplab_harness/m3_empty_overlay_execution.py:585-598 | a written claim is never replaced, under any later actions |
| ControllerRun.ResultPath.PrepareClaim | src/pyreplab_harness/m3_empty_overlay_execution.py:585-598 | a claim is accepted or created exactly when claim and ledger agree, and nothing else on disk changes |
| ControllerRun.ResultPath.Begin | src/pyreplab_harness/m3_empty_overlay_execution.py:1950-1963 | a path is begun on exactly when it has no marker, its claim and ledger agree and every loaded record is completed; otherwise nothing changes |
| ControllerRun.ResultPath.RunPanel | src/pyreplab_harness/m3_empty_overlay_execution.py:2005-2200 | one panel appends exactly one record in manifest coordinates, invokes the model at most once and clears its marker |
| ControllerRun.ResultPath.Certify | src/pyreplab_harness/m3_empty_overlay_execution.py:2193-2222 | a receipt is written exactly for a ledger text that loads as one completed record per panel, and carries that text, the number of panels and the bindings of the run; an existing receipt stays as it is and is accepted exactly if it agrees in all three |
| ControllerRun.ResultPath.RunPanels | src/pyreplab_harness/m3_empty_overlay_execution.py:1980-2200 | recorded panels are skipped and the others run and are appended in order, up to and including the first that does not complete |
| ControllerRun.ResultPath.RunLocked | src/pyreplab_harness/m3_empty_overlay_execution.py:1931-2232 | an unfit path is left alone; a fit one runs exactly its unrecorded panels and stops at the first failure; success is reported exactly when all completed, the ledger loads again in full and afterwards the receipt holds its text, the number of panels and the bindings; a differing receipt is an error and stays as it was |
| ControllerRun.CertifiableFacts | src/pyreplab_harness/m3_empty_overlay_execution.py:1491-1546 | what a path has to hold, field by field, for a run to end in success |
| ControllerRun.CertifiesExactly | src/pyreplab_harness/m3_empty_overlay_execution.py:1931-2232 | a resumable path without receipt is certified exactly when every panel completes, every appended line is free of boundaries and none continues an open line; otherwise there is no receipt and no authorization can resume the path |
| ControllerRun.SeparatorStrandsThePath | src/pyreplab_harness/m3_empty_overlay_execution.py:1931-2232 | a concrete valid completed record: if its free text holds U+0085, U+2028 or U+2029 the path is never certified and never resumed, and with a line free of boundaries it is certified |
| ControllerSteps.UndisturbedPass | src/pyreplab_harness/m3_empty_overlay_execution.py:1931-2232 | from files in any state, the interleaved steps of one undisturbed controller have exactly the effect of the runner's loop, and release the lock |
| ControllerRun.SkippedExactly | src/pyreplab_harness/m3_empty_overlay_execution.py:1980-1986 | a panel is skipped exactly when the ledger already holds it |
| TaskPairs.BuildTaskPairs | src/pyreplab_harness/allocator_eval.py:199-267 | any row without a known split stops the build; otherwise the report is the judgement of every listed task in ascending order |
| TaskPairs.PairingAccounts | src/pyreplab_harness/allocator_eval.py:208-267 | pairs have distinct tasks, hold exactly the tasks judged complete, and with the missing and duplicated lists account for every task of the split |
| TaskPairs.JudgedByItsRows | src/pyreplab_harness/allocator_eval.py:181-267 | a task is missing, duplicated or paired by its rows alone; a pair's rows are dataset rows of that task, split and policy, the only one of its policy or, if the first is asked for, the one of smallest attempt id |
| TaskPairs.ReportOfRows | src/pyreplab_harness/allocator_eval.py:208-267 | the three lists of the report in terms of the dataset rows, each in ascending order |
| Sorting.StringLeIsLexicographic | src/pyreplab_harness/allocator_eval.py:208-211 | the order of task ids: a prefix, or the smaller character at the first difference |
| Allocation.AggregateWithAssignment | src/pyreplab_harness/allocator_eval.py:552-592 | successes and the means of the observable costs of the assigned rows; missing costs leave their mean but not the success denominator |
| Allocation.TopIsTop | src/pyreplab_harness/allocator_eval.py:700-723 | the first k of the ranking are k tasks, none out-ranked in uplift by a task left out |
| Allocation.TopMaximisesUplift | src/pyreplab_harness/allocator_eval.py:700-723 | exchange: among all choices of exactly k tasks the k ranked first have the largest total uplift |
| Allocation.SuccessesByUplift | src/pyreplab_harness/allocator_eval.py:552-606 | successes are those of always-direct plus the observed uplift of the deliberate tasks |
| Allocation.OracleIsBestAtItsBudget | src/pyreplab_harness/allocator_eval.py:754-775 | the exact-k oracle has at least as many successes as every assignment with exactly k deliberate tasks |
| Allocation.RegretIsNonNegative | src/pyreplab_harness/allocator_eval.py:595-606 | no assignment beats the per-task oracle |
| Allocation.OracleIsAttained | src/pyreplab_harness/allocator_eval.py:595-606 | the per-task oracle counts the tasks some policy solves, and choosing deliberate wherever it succeeds has regret 0 |
| Allocation.BudgetIsNearest | src/pyreplab_harness/allocator_eval.py:683-685 | k is within one half of fraction times n and the clamp to 0..n never bites |
| Allocation.SelectionHasExactlyK | src/pyreplab_harness/allocator_eval.py:700-723 | the selected ids and the assignment made from them stand for exactly the top k tasks |
| Allocation.NeuralChoiceIsBounded | src/pyreplab_harness/allocator_eval.py:726-775 | the neural choice never beats the oracle at its own budget, and maximises its own predicted uplift |
| Allocation.RandomMixIsBounded | src/pyreplab_harness/allocator_eval.py:635-680 | whatever k-subsets the random mix draws, its mean success never exceeds the oracle's and its total regret is never less |
| Allocation.CompareStrategies | src/pyreplab_harness/allocator_eval.py:726-801 | rejects exactly an empty panel list, no random or bootstrap trials or unknown ids; otherwise every figure is that of its assignment or of the drawn trials, every regret is non-negative and the oracle at the neural budget bounds the neural choice and the random mix |
| Allocation.CostAdjustmentKeepsSelection | src/pyreplab_harness/allocator_eval.py:1285-1293 | dividing all uplifts by one positive cost changes neither the selection nor its order |
| Frontier.Best | src/pyreplab_harness/frontier_eval.py:103-121 | the one policy that beats every other by score, then cost, then index |
| Frontier.PickFalls | src/pyreplab_harness/frontier_eval.py:103-121 | on each single task a higher price never selects more cost or more success |
| Frontier.SelectionFalls | src/pyreplab_harness/frontier_eval.py:103-135 | for a higher price the selected total predicted cost and success both weakly fall |
| Frontier.SelectionIsBest | src/pyreplab_harness/frontier_eval.py:257-268 | at its own price the selection is worth at least any assignment, and is cheapest among those of equal worth |
| Frontier.OracleIsUndominated | src/pyreplab_harness/frontier_eval.py:257-280 | no assignment whatsoever dominates an oracle operating point, at price zero by the cost tie-break |
| Frontier.OracleFrontierKeepsEveryPoint | src/pyreplab_harness/frontier_eval.py:241-290 | Pareto filtering the oracle's operating points removes none of them |
| Frontier.PureSuccessIsAttained | src/pyreplab_harness/frontier_eval.py:257-290 | the per-task best success bounds every assignment and is what the oracle attains at price zero |
| Frontier.Validate | src/pyreplab_harness/frontier_eval.py:37-99 | the input checks pass exactly on rectangular panels with probabilities in [0, 1], non-negative costs and a non-negative price grid holding zero |
| Frontier.SelectForGrid | src/pyreplab_harness/frontier_eval.py:101-139 | every grid price gets the mean observed success and cost of its own selection |
| Frontier.ComputeFrontier | src/pyreplab_harness/frontier_eval.py:18-161 | the report exists exactly for well-formed input; every point counts the verified tasks of its picks and their observed costs, each pick being the one its price prefers; frontier, areas, pure success and the non-negative regret are those of these points |
| Frontier.SelectionMeans | src/pyreplab_harness/frontier_eval.py:101-139 | success times tasks is the number of tasks whose pick was verified, cost times tasks the sum of the picked costs, and each pick maximises predicted success minus price times predicted cost |
| Frontier.OracleMeans | src/pyreplab_harness/frontier_eval.py:257-290 | the same for the oracle, with the outcomes themselves |
| Frontier.ReportIsFaithful | src/pyreplab_harness/frontier_eval.py:18-161 | the whole report read off predictions and outcomes; oracle pure success times tasks is the number of tasks some policy verified |
| Frontier.ReportedAreaIsNormalised | src/pyreplab_harness/frontier_eval.py:141-148 | every reported area lies between 0 and the transformed cost bound |
| Pareto.ParetoFrontier | src/pyreplab_harness/frontier_eval.py:217-238 | the flag-array loops return the specified frontier |
| Pareto.MarkDominated | src/pyreplab_harness/frontier_eval.py:228-237 | a flag ends up set exactly for the dominated points, though flagged points are skipped |
| Pareto.FrontierIsExact | src/pyreplab_harness/frontier_eval.py:217-238 | the frontier holds exactly the undominated points, as a strictly rising staircase in cost and success |
| Pareto.FrontierCovers | src/pyreplab_harness/frontier_eval.py:217-238 | every input point is weakly dominated by a frontier point |
| Pareto.FrontierIgnoresDominated | src/pyreplab_harness/frontier_eval.py:206-238 | permuting, repeating or adding dominated points leaves the frontier unchanged |
| Pareto.SortingAgainChangesNothing | src/pyreplab_harness/frontier_eval.py:206-214 | the second sort by cost is the identity on a frontier |
| Pareto.FrontierArea | src/pyreplab_harness/frontier_eval.py:164-203 | the accumulating loop computes the area under the frontier, extended to the common cost bound |
| Pareto.AreaBounds | src/pyreplab_harness/frontier_eval.py:192-203 | the area lies between the first and the last attained success times the transformed width |
| Pareto.AreaIsNormalised | src/pyreplab_harness/frontier_eval.py:192-203 | with success in [0, 1] and a transform that fixes zero the area is between 0 and the transformed bound |
| Pareto.AreaIgnoresDominated | src/pyreplab_harness/frontier_eval.py:164-203 | the area depends on the operating points only through the undominated ones |
| Pareto.InsertedFrontier | src/pyreplab_harness/frontier_eval.py:217-238 | a new point that nothing dominates joins the frontier, and what it drives out is one stretch, exactly the points it dominates |
| Pareto.InsertedAreaExactly | src/pyreplab_harness/frontier_eval.py:164-203 | between two neighbours, a point that drives nothing out changes the area by half of what it lies above their chord |
| Pareto.MorePointsLowerAreaExactly | src/pyreplab_harness/frontier_eval.py:150-203 | for every new point within the cost bound: it lowers the area exactly when nothing dominates it, it drives nothing out, and it lies between two neighbours and below their chord |
| Pareto.MorePointsLessArea | src/pyreplab_harness/frontier_eval.py:164-203 | a concrete undominated point that lowers the area |
| Ranks.RankValues | src/pyreplab_harness/frontier_eval.py:304-321 | the bucket loop gives each value (number smaller) + (number equal + 1) / 2 |
| Ranks.RanksPreserveOrder | src/pyreplab_harness/frontier_eval.py:304-321 | ranks order and tie exactly as the values do |
| Ranks.RanksSumTriangular | src/pyreplab_harness/frontier_eval.py:304-321 | however the values tie, ranks sum to n(n+1)/2 |
| Ranks.CauchySchwarz | src/pyreplab_harness/frontier_eval.py:324-339 | the squared numerator never exceeds the product of the two sums of squares, also when one list is longer |
| Ranks.SpearmanRho | src/pyreplab_harness/frontier_eval.py:324-339 | rho is the ratio of the centred products, absent for short lists or a vanishing denominator |
| Ranks.RhoIsBounded | src/pyreplab_harness/frontier_eval.py:324-339 | a defined rho lies between -1 and 1 |
| Ranks.RhoIsDefined | src/pyreplab_harness/frontier_eval.py:324-339 | for lists of one length of three or more, rho is undefined exactly when one of them is constant |
| Ranks.SameOrderIsPerfect | src/pyreplab_harness/frontier_eval.py:324-339 | two lists in the same order, ties included, have equal ranks and a rho of exactly 1 |
| Concordance.KendallTau | src/pyreplab_harness/frontier_eval.py:342-366 | the double loop counts every pair of positions once; a shorter second list is an index error; tau is absent when undefined |
| Concordance.UntiedBoundsBoth | src/pyreplab_harness/frontier_eval.py:342-366 | n(n-1)/2 pairs in all, and concordant plus discordant pairs never exceed those untied on either side |
| Concordance.TallyCounts | src/pyreplab_harness/frontier_eval.py:342-385 | concordant, discordant and tied pairs as sets of pairs of positions, by how the two lists order them |
| Concordance.TauIsDefined | src/pyreplab_harness/frontier_eval.py:342-366 | tau is undefined exactly when one of the two lists is constant |
| Concordance.TauIsBounded | src/pyreplab_harness/frontier_eval.py:342-366 | a defined tau-b lies between -1 and 1 |
| Concordance.TauIsOneExactly | src/pyreplab_harness/frontier_eval.py:342-366 | a defined tau-b is 1 exactly when no pair is discordant and every tie is joint |
| Concordance.TauIsSymmetric | src/pyreplab_harness/frontier_eval.py:342-366 | tau does not depend on which list comes first |
| Concordance.TauFlips | src/pyreplab_harness/frontier_eval.py:342-366 | negating one list negates tau, and leaves it undefined where it was |
| Concordance.PairwiseAccuracy | src/pyreplab_harness/frontier_eval.py:369-385 | the accuracy counts exactly the concordant pairs and the joint ties |
| Concordance.AccuracyIsBounded | src/pyreplab_harness/frontier_eval.py:369-385 | the accuracy lies in [0, 1] and is total exactly when tau would be 1 |
| TreatmentPanels.GroupRows | src/pyreplab_harness/allocator_eval.py:412-443 | the grouping loop stops exactly at an inadmissible row, and otherwise files every candidate row of the split under its own cell |
| TreatmentPanels.LeakedMeansTwoSplits | src/pyreplab_harness/allocator_eval.py:441-449 | the leak check fires exactly when some candidate task occurs in two splits |
| TreatmentPanels.BuildTreatmentPanels | src/pyreplab_harness/allocator_eval.py:388-485 | panels exist exactly when all rows are admissible, no task leaks and every task has one row per candidate with one task-side input; one panel per task in ascending order |
| TreatmentMeaning.BuildableMeans | src/pyreplab_harness/allocator_eval.py:356-485 | when panels are built, in terms of menu and rows: distinct identities, every row of a task the registered bundle of what it names or without a candidate's marker, no task in two splits, one row per task and treatment with one task-side input |
| TreatmentMeaning.PanelsHoldTheRows | src/pyreplab_harness/allocator_eval.py:450-476 | one panel for every task with a candidate row in the split, holding under every bundle the one row that stands there |
| TreatmentPanels.PanelsTimesCandidates | src/pyreplab_harness/allocator_eval.py:450-485 | panels times distinct bundle ids is the number of candidate rows of the split |
| TreatmentStrategies.HindsightAssignment | src/pyreplab_harness/allocator_eval.py:1060-1072 | the hindsight assignment attains the realised oracle, so its regret is 0 |
| TreatmentStrategies.OracleBounds | src/pyreplab_harness/allocator_eval.py:859-873 | no assignment from the menu exceeds the realised oracle |
| TreatmentStrategies.SumsExchange | src/pyreplab_harness/allocator_eval.py:942-966 | summing successes panel by panel equals summing them treatment by treatment |
| TreatmentStrategies.UniformRate | src/pyreplab_harness/allocator_eval.py:957-963 | the exact uniform rate is all successes over panels times treatments |
| TreatmentStrategies.UniformIsTheMeanOfFixed | src/pyreplab_harness/allocator_eval.py:942-966 | the uniform rate is the mean of the fixed treatments' rates |
| TreatmentStrategies.BestFixedBeatsUniform | src/pyreplab_harness/allocator_eval.py:942-1047 | some fixed treatment is never worse than the uniform mix |
| TreatmentStrategies.SelectTreatmentArgmax | src/pyreplab_harness/allocator_eval.py:903-939 | rejects exactly empty or incomplete input; picks a treatment of highest predicted mean, smallest id on a tie |
| TreatmentStrategies.ArgMaxIsOrderFree | src/pyreplab_harness/allocator_eval.py:903-939 | the pick does not depend on the order in which the registry lists the treatments |
| TreatmentStrategies.CompareTreatmentStrategies | src/pyreplab_harness/allocator_eval.py:1000-1073 | succeeds exactly on a usable menu with positive trial counts; every figure is that of its assignment, the uniform rate the exact one; all regrets are non-negative, hindsight's is 0, and some fixed treatment reaches the uniform rate |
| TreatmentStrategies.ReportCounts | src/pyreplab_harness/allocator_eval.py:859-1073 | every figure of the comparison as a count: panels solved by the assignment, panels some treatment solves, and solved cells over all cells |
| ArgvScanner.ArgumentOccurrences | src/pyreplab_harness/cache_mechanics.py:113-155 | the index loop fails exactly when the scan does, and otherwise groups the scanned settings by field in order |
| ArgvScanner.ScanUndoesRender | src/pyreplab_harness/cache_mechanics.py:113-155 | any mixture of aliases and spellings, interleaved with foreign tokens, scans back to exactly the settings rendered |
| ArgvScanner.RenderUndoesScan | src/pyreplab_harness/cache_mechanics.py:113-155 | every vector that scans is the rendering of well-formed pieces that mean what the scan returned |
| ArgvScanner.ParseFields | src/pyreplab_harness/cache_mechanics.py:165-196 | each field is explicit exactly when it was given once |
| ArgvScanner.ParseLaunch | src/pyreplab_harness/cache_mechanics.py:158-196 | duplicate, conflicting, implicit and unsupported codes appear exactly when their field's settings say so |
| ArgvScanner.TheCacheTableIsWellFormed | src/pyreplab_harness/cache_mechanics.py:32-63 | the concrete alias table satisfies what the round trips ask of it |
| CacheProxy.ReadServerMechanics | src/pyreplab_harness/cache_proxy.py:106-155 | the last object under timings and under usage decides; every timing is kept or nulled, every code noted, by what stands there, and the mechanics are valid exactly when clean |
| CacheProxy.CleanMeans | src/pyreplab_harness/cache_proxy.py:106-155 | clean mechanics in one statement about the response: five well-typed timings, a cached-token count equal to the server's, nothing reused with the cache off |
| CacheProxy.ValidateReceipt | src/pyreplab_harness/cache_proxy.py:262-298 | the validator accepts exactly the consistent receipts |
| CacheProxy.CacheProxyRecorder.Reserve | src/pyreplab_harness/cache_proxy.py:235-241 | one reservation, as the specified step of the counter |
| CacheProxy.CacheProxyRecorder.Forward | src/pyreplab_harness/cache_proxy.py:338-495 | every accepted request records exactly one receipt, which passes the validator and is mechanics-valid exactly when the whole exchange was clean |
| CacheProxy.ReservationsAreDistinct | src/pyreplab_harness/cache_proxy.py:235-241 | in whatever order threads take the lock, indices are 1, 2, ... without gap or repetition and never past the maximum |
| CacheReceipts.BuildRuntimeReceipt | src/pyreplab_harness/cache_mechanics.py:219-328 | the receipt passes its validator, its mode is what the prompt-cache switch was set to, its codes say of every field and endpoint what is amiss, and it is eligible exactly when every field is set once in a documented spelling and both endpoints answer |
| CacheReceipts.ValidateRuntimeReceipt | src/pyreplab_harness/cache_mechanics.py:331-382 | the validator accepts exactly the self-consistent receipts |
| CacheReceipts.CommonDigestPinsTheRest | src/pyreplab_harness/cache_mechanics.py:347-371 | two valid receipts with one common digest differ at most in the prompt-cache switch |
| CacheReceipts.BuildTurnReceipt | src/pyreplab_harness/cache_mechanics.py:404-519 | the receipt observes exactly the well-typed mechanics, its verdict is backed by its observations, and with a turn index of at least 1 it passes its validator |
| CacheReceipts.ProxyMechanics | src/pyreplab_harness/cache_proxy.py:509-529 | mechanics are handed over exactly for valid, mechanics-valid proxy receipts, every one of them well-typed, milliseconds as seconds |
| CacheReceipts.ReceiptFromProxy | src/pyreplab_harness/cache_mechanics.py:404-519 | a mechanics-valid proxy receipt leaves nothing unobservable in the turn receipt |
| CacheCompare.CompareCells | src/pyreplab_harness/cache_mechanics.py:572-872 | the report exists exactly for well-formed input, each of the five statuses passes exactly when its declarative condition holds, and the totals are those of the compared turns |
| CacheMeaning.FormMeans | src/pyreplab_harness/cache_mechanics.py:522-593 | when two cells are compared at all |
| CacheMeaning.InputMeans | src/pyreplab_harness/cache_mechanics.py:601-819 | the input status, field by field: same pairs, configuration and turn counts; every two turns with one observed request hash, equal usage and equal server prompt tokens |
| CacheMeaning.SamplingMeans | src/pyreplab_harness/cache_mechanics.py:635-684 | the sampling status: equal sampling per attempt, whose seed every turn records |
| CacheMeaning.BehaviorMeans | src/pyreplab_harness/cache_mechanics.py:640-793 | the behaviour status: equal final output, trajectory and verifier digests per attempt; equal assistant content and predicted tokens per turn |
| CacheMeaning.MechanicsMeans | src/pyreplab_harness/cache_mechanics.py:613-801 | the mechanics status: eligible runtimes, valid mechanics, nothing reused with the cache off, provider and server counters agreeing in every turn |
| CacheMeaning.PerformanceMeans | src/pyreplab_harness/cache_mechanics.py:802-842 | the performance status: clean mechanics, a prompt time in every turn, and more than the threshold's part of the time saved |
| CacheConservation.AcceptanceConservesTokens | src/pyreplab_harness/cache_mechanics.py:572-872 | acceptance of builder-made cells: same pairs and turns, every two turns with the same observed request and the same answer; reused tokens = cache reads = prompt tokens off minus on; equal predictions; prompt time on below (1 - threshold) of off |
| CacheConservation.AcceptedAttemptsAgree | src/pyreplab_harness/cache_mechanics.py:628-690 | under acceptance both attempts of a pair have the same sampling, the seed of every turn, and the same output, trajectory and verifier digests |
| CacheConservation.EveryTurnIsCompared | src/pyreplab_harness/cache_mechanics.py:622-662 | under matching orders and turn counts the comparison reaches every turn of both cells |
| CacheConservation.AcceptedRuntimesDifferInOneSwitch | src/pyreplab_harness/cache_mechanics.py:580-616 | the runtimes of an accepted comparison differ in the prompt-cache switch and nothing else |
| Events.IsTerminalSyntheticAbort | src/pyreplab_harness/events.py:181-268 | the scanning loops decide exactly the declarative notion of a local terminal abort |
| EventMeaning.SyntheticMeans | src/pyreplab_harness/events.py:167-268 | when a message is taken for the local abort, field by field |
| Events.NormalizePiEvents | src/pyreplab_harness/events.py:271-404 | normalisation fails exactly on uncountable usage, and otherwise gathers the specified totals, turns and synthetic count |
| Events.ReadContent | src/pyreplab_harness/events.py:350-372 | one message adds its texts, and its non-empty text before the first tool request of the whole stream to the preamble |
| EventMeaning.GatheredByPosition | src/pyreplab_harness/events.py:288-404 | for every stream: the preamble lists the non-empty texts before the first tool request in the content of all assistant messages, the final text those of the last assistant message with any; session, executions and rejections likewise by position |
| EventMeaning.TurnsByPosition | src/pyreplab_harness/events.py:288-345 | one provider turn per assistant message that is not synthetic, in order, its counters those that stand in the message |
| EventMeaning.UsageOkExactly | src/pyreplab_harness/events.py:52-81 | the usage of a turn is accepted exactly if every counter that stands there is a whole number |
| EventMeaning.AmountMeans | src/pyreplab_harness/events.py:342-348 | what one counter adds, value by value: nothing for what is falsy, the whole part of a number, what a text parses to |
| EventMeaning.AmountsMean | src/pyreplab_harness/events.py:341-348 | the counts of one message, counter by counter, and when it cannot be counted |
| Events.AtMostOneSynthetic | src/pyreplab_harness/events.py:181-268 | a synthetic message is the last assistant message, so there is at most one |
| Events.MessagesBalance | src/pyreplab_harness/events.py:288-404 | assistant messages = provider turns + synthetic messages, of which there is at most one |
| Events.CountersAreProviderSums | src/pyreplab_harness/events.py:303-360 | with a synthetic message every counter but reasoning is the sum over provider turns, and reasoning exceeds it by exactly what that message reports |
| Events.WithoutSyntheticAllCountersAgree | src/pyreplab_harness/events.py:303-360 | without one, all six counters are the sums over provider turns |
| Events.ReasoningMayExceedTheTurns | src/pyreplab_harness/events.py:167-178 | a concrete stream whose reasoning counter covers more than its provider turns |
| Events.ErasingTheSyntheticChangesNothingElse | src/pyreplab_harness/events.py:288-404 | deleting the synthetic message changes no other counter, no execution, rejection, final text, session or preamble |
| Events.ErasedStillNormalises | src/pyreplab_harness/events.py:271-404 | a stream that normalises still does without its synthetic message |
| Events.ErasureKeepsTurnsExactly | src/pyreplab_harness/events.py:181-268 | deleting the synthetic message keeps the provider turns exactly when the stream before it does not itself end in a synthetic message; otherwise exactly the last turn is lost |
| Events.ErasureMayLoseATurn | src/pyreplab_harness/events.py:181-268 | of two local aborts in a row the first is a turn, and no longer one once the second is deleted |
| Lines.PiecesOfAppend | src/pyreplab_harness/batch.py:408-452 | an append keeps the finished lines of any text and continues the open one |
| Batch.LoadDoneKeys | src/pyreplab_harness/batch.py:431-452 | the done keys are those of the completed records among the lines |
| Batch.KeysAreRecorded | src/pyreplab_harness/batch.py:431-452 | a key is done exactly when some line decodes to its completed record |
| Batch.Output.AppendResult | src/pyreplab_harness/batch.py:408-428 | one line and a newline are added in a single step |
| Batch.AppendIsReadBack | src/pyreplab_harness/batch.py:408-452 | for every file text, after an append the finished lines still count, a line left open no longer does, and the job is read back exactly when it completed, its line holds no boundary and only white space stood open |
| Batch.ReadBackExactly | src/pyreplab_harness/batch.py:408-452 | a completed record of a job that was not done is found by the next run exactly under those conditions |
| Batch.RunsOnceExactly | src/pyreplab_harness/batch.py:507-557 | for every file text, a job that completes is skipped by the next resumed run exactly under those conditions, and otherwise invoked and completed twice |
| Batch.FaithfulCanBeHad | src/pyreplab_harness/batch.py:408-452 | a line and a decoder that meet what is assumed of them, with and without a boundary in the line |
| Batch.UnterminatedLosesTheRecord | src/pyreplab_harness/batch.py:408-452 | an instance: after an open brace the new record is lost |
| Batch.SeparatorRunsTheJobTwice | src/pyreplab_harness/batch.py:408-452 | an instance: a completed record that contains U+2028 is lost, and the next run completes the job again |
| Batch.RunBatch | src/pyreplab_harness/batch.py:507-557 | one run: which jobs were skipped, invoked and appended, by position, and the summary that counts them |
| Batch.RunByPosition | src/pyreplab_harness/batch.py:507-557 | a job runs exactly if no completed line of its key was read and no earlier job has that key; the file gains the lines of those jobs in order, and the counts are theirs |
| Batch.CountsAddUp | src/pyreplab_harness/batch.py:533-557 | completed + error + skipped = number of jobs |
| Batch.ResumedRunsNeverRepeat | src/pyreplab_harness/batch.py:507-557 | from a file with nothing open, and with lines free of boundaries, over any sequence of resumed runs that may die anywhere a key has at most one completed record and is never invoked after it |
| Batch.EveryJobReachedIsMarked | src/pyreplab_harness/batch.py:507-557 | whatever job some run reached was done from the start or stands in the events |
| Batch.SecondRunInvokesNothing | src/pyreplab_harness/batch.py:533-557 | a run of the same jobs after an error-free one invokes nothing and leaves the file unchanged |
| Splits.RepairCounts | src/pyreplab_harness/calibration.py:322-331 | the in-place repair always restores the sum |
| Splits.Cut | src/pyreplab_harness/calibration.py:333-338 | the slices, laid end to end, are the items; the clamp never bites |
| Splits.SplitDimension | src/pyreplab_harness/calibration.py:299-338 | rejected exactly with too few items, a non-positive ratio or nothing left for the first part; otherwise non-empty parts, laid end to end the items, every part but the first of its exact share rounded down, or of one item |
| Splits.LargeSharesAreAccepted | src/pyreplab_harness/calibration.py:315-331 | a split whose other parts are each due at least one item is never rejected |
| Splits.PolicyTaskSplit | src/pyreplab_harness/calibration.py:261-401 | either a rejection or two partitions; the two internal consistency errors never happen |
| Splits.FrozenCalibrationSplit | src/pyreplab_harness/calibration.py:206-253 | rejected exactly for no tasks, repeated tasks, or sizes that are empty, out of range or decreasing; otherwise nested repetition-free prefixes of the sizes asked for |
| Workflow.Generate | src/pyreplab_harness/fixture_templates.py:904-950 | correct choices are the highest scores and step tokens are distinct |
| Workflow.TokensAreEarned | src/pyreplab_harness/fixture_templates.py:990-1115 | a client that sends only served tokens knows the token of a step only after answering all steps before it |
| Workflow.CompletionIsEarned | src/pyreplab_harness/fixture_templates.py:990-1115 | such a client sees the verification key only after correct answers to steps 0..n-1 in that order, through any detours |
| Workflow.RightAnswersFinish | src/pyreplab_harness/fixture_templates.py:953-1115 | a client that answers right sends only served tokens, opens one step after the other and completes with the last |
| Workflow.HighestScoresFinish | src/pyreplab_harness/fixture_templates.py:953-964 | always taking the highest score completes the workflow after exactly as many clicks as there are steps |
| Workflow.AnswersTakeRequests | src/pyreplab_harness/fixture_templates.py:990-1115 | no trace answers k steps with fewer than k requests |
| Rpc.RpcClient.RpcCall | pi_extensions/gym-tools.ts:184-225 | a call issues the next id unless already aborted, and a failed send settles it at once |
| Rpc.RpcClient.OnAbort | pi_extensions/gym-tools.ts:197-200 | an abort rejects the pending request of its own id, if its caller gave a signal |
| Rpc.RpcClient.HandleRpcLine | pi_extensions/gym-tools.ts:144-177 | a line settles the pending request of its own id and otherwise changes nothing; the JSON value null raises |
| Rpc.RpcClient.RejectAllPending | pi_extensions/gym-tools.ts:228-236 | every pending request is rejected and the table emptied |
| Rpc.EveryRunSettlesOnce | pi_extensions/gym-tools.ts:118-238 | in every interleaving each issued id is pending or settled, never both, and never settled twice |
| Rpc.EverySettlementHasItsCause | pi_extensions/gym-tools.ts:118-238 | every settlement was made by the action that causes it while its promise was pending: a value or remote error by a response of the same id, an abort by its own signal, a failed send by its own call, the rest by a worker exit |
| Rpc.CausedIsSettled | pi_extensions/gym-tools.ts:118-238 | every such action makes its settlement, for good |
| Rpc.PendingByItsCall | pi_extensions/gym-tools.ts:184-225 | what is pending was issued by one call, and can be aborted exactly if that call gave a signal |
| Rpc.ExitEmptiesTheTable | pi_extensions/gym-tools.ts:334-348 | a worker exit leaves no pending request and the id counter where it was |
| Rpc.HistoryOnlyGrows | pi_extensions/gym-tools.ts:118-238 | settlements are never revised, ids are never reused, late or unknown responses change nothing |

## Left out

- SSH, subprocesses, HTTP streaming, sockets, runtime probes and detached launch: input and output with no model of the other side.
- PyTorch scoring and artifact loading: predictions are arbitrary reals.
- JSON text encoding, SHA-256 and regular expressions: uninterpreted; of the batch file and the ledger the line structure is modelled, and whether a help text documents a field is a parameter.
- Bootstrap intervals, quantiles and the random generators themselves.
- Dashboards and all page rendering other than the workflow's branching.
- `src/pyreplab_harness/dataset.py` joins task and attempt files into dataset rows, field by field; the rows are inputs here.
- `pi_extensions/gym-budget-v2.ts`: the earlier budget extension, one counter of admitted calls without receipt; its successor `gym-budget-v3.ts` is modelled.
- The gate scripts (headroom, routing, semantic capability) and the adherence checks compare counts of completed results with fixed thresholds; the baseline preflight and the semantic dataset and diagnostics freeze, hash and summarise files; the cross-validation script trains models. None is modelled.
- Expanding a batch spec into jobs and deriving job keys: a batch is its list of keys, which may repeat.
- Global ranking metrics other than rho, tau and pairwise accuracy (top-1, top-3): single comparisons of sorted positions.
- Execution.AtMostOneInvocationPerPanel: assumes that an operator clears a stale lock only when its controller is dead; nothing in the code enforces it.
- Execution.LedgerIsManifestPrefix: appending a record to the ledger file is one step, so a torn last line is not modelled.
- ControllerRun.ResultPath.RunPanel: the attempt itself (task preparation, remote identity checks, authorisation expiry) is one answer, either before or after the model was invoked.
- ControllerRun.ResultPath.Certify: the embedded hash, the schema version and the format of the authorization hash of an existing receipt are not checked, and a receipt's time is left out.
- Allocation.CompareStrategies: the mean tokens, tool calls and messages of the strategies are stated for one assignment (`Allocation.AggregateWithAssignment`) but not carried into the comparison, nor are the quantiles of the random mix.
- TreatmentStrategies.CompareTreatmentStrategies: the cost means and the counts of allocated treatments are not stated.
- Ledger.ValidateRecord: the record's remaining field checks are one flag.
- Ledger.AttemptStructuralErrors: the checks of policy, return code, verification, sampling receipt and field types are left out; the record's flag stands for them.
- BudgetAudit.BudgetReceiptErrors: the receipt is typed, so its schema version, its exact set of fields and the types of their values are not checked here.
- CacheReceipts.ValidateRuntimeReceipt: the embedded hash, the schema version and the probe mode are not part of the typed receipt.
- Budget.Extension.OnSessionStart: reading the two limits from flags is not modelled; the limits are constructor arguments.
- Events.NormalizePiEvents: usage that is neither an object nor falsy, and content that is not a list, stop the source with an exception and are not distinguished here; a string is split with `splitlines` first (`src/pyreplab_harness/events.py:275`), with the same three unescaped boundaries as the batch file, where the model starts from decoded events; final text and preamble are the lists of texts before joining, and the last provider, the last model and the stop-reason tally are not gathered.
- CacheReceipts.BuildTurnReceipt: a non-finite duration counts as unobservable, where the source would observe positive infinity; the proxy never hands one over.
- CacheProxy.CacheProxyRecorder.Forward: request parsing, byte counts and durations of the transport are not recorded; an integer too large for a double (400 digits in `prompt_ms`) raises in the source and leaves no receipt, where the model converts it to a real.
- CacheCompare.CompareCells: error lists are compared by emptiness; their sorted, deduplicated messages are not specified.
- Batch.Output.AppendResult: reading a file as text turns the line ends CR and CR LF into LF, so they are rewritten as such; the model keeps the characters, which break lines alike.
- Batch.RunBatch: the preflight check and the registry hash are left out, and a run's outcomes are a function of the job's position.
- Batch.ResumedRunsNeverRepeat: assumes one process at a time on a result file, as there is no lock.
- Frontier.ComputeFrontier: missing dictionary keys and non-finite inputs are excluded by the types.
- Rpc.EveryRunSettlesOnce: the graceful-shutdown timer is not modelled; a shutdown is a call like any other, followed by a worker exit.
- Workflow.CompletionIsEarned: guessing a token is excluded, as is a collision of truncated hashes.
- No relation is stated between the oracle's frontier area and an allocator's.
