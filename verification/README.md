# Verification of tugling's schedulers, stores and watchers

This project models five stateful parts of the repository in Dafny and proves what each
of them keeps over whole runs:

1. **Verification flows** (`project_contract.py`). A map of native commands with
   dependencies is validated, closed under dependencies, run with bounded parallelism,
   timeouts, an active budget and cancel-on-failure, and written to a receipt. A second
   piece of code judges the rounded numbers of the receipt again. `FlowGraph`,
   `FlowTrace`, `FlowTiming`, `FlowWorld`, `FlowRecord`, `FlowScheduler` and
   `FlowEvidence` prove that the two sides agree: every all-success run of every valid
   map, under every interleaving, yields a receipt whose timing is accepted. They also
   prove that a receipt passes exactly when the surroundings answered well, and that the
   active budget is kept.
2. **Receipt retention** (`project_contract.py`). `ReceiptStore` proves that eviction
   is oldest-first and minimal, and that no sequence of starts, writes, cleanups and
   finishes or crashes of any number of writers leaves the limits.
3. **Certification admission and accounting** (`certification_tasks.py`,
   `certification_jobs.py`, `codex_runtime.py`). `CertRecords`, `CertProtocol` and
   `RunBudget` prove the admission rule, recovery, one-task overshoot and the shape of
   every checkpoint that a lane can reach.
4. **The queued pull-request watcher** (`watch-pr/policy.ts`, `watch-pr/github.ts`).
   `WatchClassify`, `WatchQueue`, `WatchRun`, `WatchReads` and `WatchStack` prove that
   classification is total, that no internal error is reachable, that advances are true
   and strictly forward, and exactly when a stack lists every base before what stands on
   it.
5. **The plain-file orchestration store** (`orch/store.ts`). `OrchText`, `OrchTables`,
   `OrchGates`, `OrchStanding` and `OrchFrontier` prove print/parse round trips, that
   files behave as simple maps, and that the frontier walk finds the stack exactly when
   there is one.

## How the model is built

- Code that changes things step by step keeps that form: the depth-first search, the
  worklist, the scheduler, the pruning loop, the lane, the run budget, the text files
  and the stack walk are classes or methods with loops, each proved against predicates
  and functions on values. Code that returns new values without changing its inputs
  (admission, classification, queue planning) is modelled by functions.
- Processes, clocks, interrupts, process groups, GitHub and worker outcomes are
  arbitrary. A scheduler run is given a world (`FlowWorld.World`) that fixes the answer to
  each of its questions: clock readings, interrupts, whether a process starts, its exit
  code, whether its group survives, how stopping it goes. A ghost log keeps every question
  with its answer; `WellAsked` says that the answers are the world's and that processes
  are started and polled only in turns that found the budget unspent at their head. An
  answer is `Benign` when it lets the run succeed: no interrupt, a process that starts,
  exit code 0 without survivors (or still running in time), budget not spent. The watcher
  takes GitHub's answers and clock readings as inputs of each step. The scheduler's
  clock is in nanoseconds; offsets are rounded to milliseconds with ties to even, as
  `round(x, 3)` does on exact decimals. Wall-clock times of a receipt are microseconds.
- A scheduler run is recorded as a history of launches, ends and skips (`FlowTrace`).
  `Safe` says that each event was allowed after its own past: a launch needs a free slot,
  no earlier failure and every dependency successfully ended.
- Names are strings where their text matters (the orchestration store, flows, tasks) and
  otherwise numbers with the same ordering (receipt names, pull requests).
- Digests, contexts and revisions are compared for equality only.

## Where code and intention part

- **Gates and standing orders.** `requiredLine` replaces only `\n` and `\r`, but the
  readers match with `.`, which also excludes U+2028 and U+2029. A question, option list,
  default, answer or standing order that holds one of these is accepted, written, and
  makes the file unreadable from then on. `OrchGates.GatesRoundTrip` and
  `OrchStanding.StandingRoundTrip` state exactly when the round trip holds, and
  `OrchGates.SeparatorIsLost` and `OrchStanding.SeparatorIsLost` give an input for which
  it does not. Gate ids are not affected.
- **Capacity error.** When active receipts and the reservation alone exceed a limit,
  `prune_receipts` raises its error only after it has removed every inactive receipt
  (`ReceiptStore.Store.Prune`).
- **`RunBudget.record` without `begin`.** `record` does not ask whether a task is in
  flight, and the final assembly and the receipt check call it without `begin`. Spending
  can then reach a limit plus the latest task (`RunBudget.UnadmittedRecordMeetsBound`).
  It stays strictly below exactly when it was below the limits before that task
  (`RunBudget.StrictExactlyWhenBelowBefore`), as it always is for a caller that records
  only what `begin` admitted (`RunBudget.AdmittedOvershoot`).
- **Stacks with a reused head name.** Two open pull requests can share a head name.
  `orderStack` can then list a base after something based on it
  (`WatchStack.SharedHeadBreaksOrder` gives the rows). `WatchStack.BasesComeFirst` proves
  exactly when it does not: when no two rows from the start upwards share a head that some
  open row is based on. Every listed row stands on an earlier one in any case
  (`WatchStack.StackIsGrounded`).

## Model

| member | source | states |
|---|---|---|
| FlowGraph.TopologicalOrderIsAcyclic | plugins/tugling/scripts/project_contract.py:172-187 | A graph with a topological order has no cycle, of any length. |
| FlowGraph.CycleCheck.Visit | plugins/tugling/scripts/project_contract.py:175-185 | The visiting/visited search either finishes the flow, keeps the order of finished flows topological and restores `visiting`, or hands back an actual cycle. |
| FlowGraph.CycleCheck.Pop | plugins/tugling/scripts/project_contract.py:182-183 | A flow whose dependencies are all visited leaves `visiting`, enters `visited`, and the finished flows stay in topological order. |
| FlowGraph.CheckAcyclic | plugins/tugling/scripts/project_contract.py:172-187 | The search over all flows succeeds if and only if the dependency graph is acyclic; success yields a topological order of all flows, failure a cycle. |
| FlowGraph.ValidateMap | plugins/tugling/scripts/project_contract.py:104-225 | A map is accepted if and only if its fields are well formed, its dependencies acyclic and its required flows within the time budget. The cycle error is raised exactly for well-formed flows and edges with a cycle, and comes with one; the budget error exactly when all else holds; acceptance comes with a topological order. |
| FlowGraph.TimeoutSumIsListed | plugins/tugling/scripts/project_contract.py:759-760 | The timeout sum over a map is the sum of the timeouts of the chosen flows, listed in any order, each once. |
| FlowGraph.CheckFlows | plugins/tugling/scripts/project_contract.py:117-150 | The per-flow checks pass exactly for 1 to 32 flows with unique well-formed names, a description, arguments, a timeout from 1 to 3600, committed sources and a complete native runtime, if any. |
| FlowGraph.CheckEdges | plugins/tugling/scripts/project_contract.py:151-170 | Passes exactly when commands are unique and every dependency list names other existing flows without repeats. |
| FlowGraph.CheckRequirements | plugins/tugling/scripts/project_contract.py:193-218 | Passes exactly for 1 to 64 requirements with unique well-formed names, a description, committed sources and distinct existing flows. |
| FlowGraph.ClosureIsClosed | plugins/tugling/scripts/project_contract.py:228-241 | What the worklist should reach contains the roots and all dependencies of its members. |
| FlowGraph.ClosureIsLeast | plugins/tugling/scripts/project_contract.py:228-241 | It is contained in every dependency-closed set that contains the roots. |
| FlowGraph.CloseFrom | plugins/tugling/scripts/project_contract.py:233-240 | The worklist loop ends and computes exactly that least closed set. |
| FlowGraph.AddDependencies | plugins/tugling/scripts/project_contract.py:235-240 | One turn of the worklist keeps every settled flow settled, stays within any closed bound, and makes progress. |
| FlowGraph.RequiredFlowIds | plugins/tugling/scripts/project_contract.py:228-241 | The result is the required flows of the map, or the error for a map without requirements. |
| FlowGraph.RequiredIdsAreLeast | plugins/tugling/scripts/project_contract.py:228-241 | The required flows are the least dependency-closed set that holds every requirement's flows. |
| FlowGraph.RequiredIdsAreOrdered | plugins/tugling/scripts/project_contract.py:241 | They are listed in map order, each once. |
| FlowTiming.RoundsToNearest | plugins/tugling/scripts/project_contract.py:323-337 | A rounded time is within half a millisecond of the exact one. |
| FlowTiming.RoundIsMonotone | plugins/tugling/scripts/project_contract.py:323-337 | Rounding never swaps two times. |
| FlowTiming.RoundedRun | plugins/tugling/scripts/project_contract.py:323-337 | Three roundings of one run are non-negative, in order, and differ by at most one millisecond from each other. |
| FlowTiming.PerformanceSummary | plugins/tugling/scripts/project_contract.py:557-574 | The summary is refused exactly when some result's numbers do not agree within 2 ms; otherwise active time is the latest finish, total is the sum, and the budget verdict is right. |
| FlowTiming.SummaryIsUnique | plugins/tugling/scripts/project_contract.py:557-574 | A result list has only one summary, so recomputation can be compared for equality. |
| FlowTiming.CountOverlapping | plugins/tugling/scripts/project_contract.py:594-599 | The inner loop counts the results whose interval holds the start of the given one. |
| FlowTiming.PeakOverlap | plugins/tugling/scripts/project_contract.py:593-599 | The outer loop finds the largest such count, reached by some result. |
| FlowTiming.ValidateExecutionTiming | plugins/tugling/scripts/project_contract.py:583-601 | Passes if and only if the results carry the planned ids, no result starts before a dependency finished, and no instant has more than the allowed overlap. |
| FlowTrace.AllowedAt | plugins/tugling/scripts/project_contract.py:637-714 | Every event of a safe history was allowed after its own past. |
| FlowTrace.EndsOnce | plugins/tugling/scripts/project_contract.py:616-720 | In a safe history no flow ends twice. |
| FlowTrace.LaunchesOnce | plugins/tugling/scripts/project_contract.py:616-720 | In a safe history no flow is launched twice. |
| FlowTrace.LaunchedIsNotSkipped | plugins/tugling/scripts/project_contract.py:616-720 | No flow gets both a process and a result without a process. |
| FlowTrace.RunsUntilEnd | plugins/tugling/scripts/project_contract.py:616-720 | A flow occupies its slot at every moment from launch to end. |
| FlowTrace.SlotsAreNeverExceeded | plugins/tugling/scripts/project_contract.py:650-651 | At every moment of a safe history at most the allowed number of flows is running. |
| FlowTrace.SuccessfulDurations | plugins/tugling/scripts/project_contract.py:323-337 | Every result of an all-success run shows durations within the tolerance of the checker. |
| FlowTrace.SuccessfulOrder | plugins/tugling/scripts/project_contract.py:583-601 | After rounding no flow starts before its dependencies finished. |
| FlowTrace.SuccessfulOverlap | plugins/tugling/scripts/project_contract.py:583-601 | After rounding the peak overlap is at most the number of slots. |
| FlowTrace.SuccessfulRunIsAccepted | plugins/tugling/scripts/project_contract.py:583-601 | Every all-success run of every plan, under every interleaving, passes both timing checks. |
| FlowWorld.NoWorkPastBudget | plugins/tugling/scripts/project_contract.py:638-649 | Once a turn has read at its head that the active budget is spent, no process is started or polled any more. |
| FlowWorld.WorkIsHeaded | plugins/tugling/scripts/project_contract.py:637-714 | With a budget, every start and every poll happens in a turn that read the clock at its own head and found the budget unspent, before any other poll of that turn. |
| FlowScheduler.QuietMeansSucceeded | plugins/tugling/scripts/project_contract.py:652-655 | While no failure happened, a flow with a result and no slot has succeeded. |
| FlowScheduler.ProgressIsPossible | plugins/tugling/scripts/project_contract.py:683-686 | With nothing running, nothing failed and something pending, some pending flow is ready. |
| FlowScheduler.CancelStep | plugins/tugling/scripts/project_contract.py:616-634 | A cancelled flow gets a failure that the history justifies, or will once the cause is recorded. |
| FlowScheduler.Scheduler.constructor | plugins/tugling/scripts/project_contract.py:604-614 | A run starts with all selected flows pending and an empty history. |
| FlowScheduler.Scheduler.Finish | plugins/tugling/scripts/project_contract.py:323-337 | A finished flow gets one result that reports its own launch and end, with the given exit code, failure and forced mark, and frees its slot; a success needs a confirmed exit. Other results stay. |
| FlowScheduler.Scheduler.CancelActive | plugins/tugling/scripts/project_contract.py:616-634 | Every active flow ends with exactly its failure: cleanup-failed (and forced) if stopping raised, else the override found for it, else the reason. Nothing new is touched, other results stay. |
| FlowScheduler.Scheduler.StopOne | plugins/tugling/scripts/project_contract.py:626-633 | One turn of that loop stores the failed result of one flow and touches nothing else. |
| FlowScheduler.Scheduler.FirstReady | plugins/tugling/scripts/project_contract.py:652-657 | Finds the first pending flow whose dependencies all succeeded, or shows that there is none. |
| FlowScheduler.Scheduler.Launch | plugins/tugling/scripts/project_contract.py:650-680 | Takes exactly the first ready pending flow. If its process comes up it becomes active and leaves the list, unless an interrupt arrives in between; if not, exactly that flow gets could-not-start and the rest is cancelled. Which of these happens is what the world answered. |
| FlowScheduler.Scheduler.Register | plugins/tugling/scripts/project_contract.py:658-672 | A process that came up is registered at its own start reading and its flow leaves the pending list, except when an interrupt arrives first. |
| FlowScheduler.Scheduler.Refuse | plugins/tugling/scripts/project_contract.py:673-680 | A process that did not come up leaves its flow with could-not-start, and everything active is cancelled. |
| FlowScheduler.Scheduler.StartProcess | plugins/tugling/scripts/project_contract.py:658-672 | A launch is allowed by the history: free slot, no failure, all dependencies succeeded, never touched before. |
| FlowScheduler.Scheduler.RefuseProcess | plugins/tugling/scripts/project_contract.py:638-649 | A flow that gets no process is recorded once, with a failure. |
| FlowScheduler.Scheduler.LaunchAll | plugins/tugling/scripts/project_contract.py:650-686 | Launching stops only with all slots taken or nothing ready, and with nothing active nothing is left pending. |
| FlowScheduler.Scheduler.Judge | plugins/tugling/scripts/project_contract.py:693-704 | The verdict is exactly the one the answers call for: running or timed out without an exit code, done without survivors, stopped with command-failed or native-cleanup-incomplete when something survives. Survivors are asked about only after an exit. |
| FlowScheduler.Scheduler.PollAll | plugins/tugling/scripts/project_contract.py:690-710 | One pass looks at every active process; its reasons and failures are empty exactly when all answers were benign; it finds every timeout and every failure, and misses none. |
| FlowScheduler.Scheduler.StoreResult | plugins/tugling/scripts/project_contract.py:704-710 | The result of an ended process is stored and its slot freed, unless an interrupt arrives between the two. |
| FlowScheduler.Scheduler.CancelRest | plugins/tugling/scripts/project_contract.py:711-714 | After a poll that found something wrong, each flow still active ends with the reason found for it, or as cancelled after a failure. |
| FlowScheduler.Scheduler.Poll | plugins/tugling/scripts/project_contract.py:690-714 | After a failure or timeout everything active is cancelled; otherwise what stays active is within its time. |
| FlowScheduler.Scheduler.StopOnBudget | plugins/tugling/scripts/project_contract.py:638-649 | Once the budget is spent every active flow is stopped for that reason, or without one exactly the first pending flow is refused for it; the run has failed. |
| FlowScheduler.Scheduler.BeginTurn | plugins/tugling/scripts/project_contract.py:637-649 | A turn goes on exactly when no interrupt arrives and the clock reading at its head, taken whenever there is a budget, is within it. Otherwise every active flow ends as interrupted or for the budget, and nothing is started or polled. |
| FlowScheduler.Scheduler.Turn | plugins/tugling/scripts/project_contract.py:637-714 | A turn whose head reading is at or past the budget, or that is interrupted, ends the run as failed, with that failure on every active flow and without any start or poll. Otherwise it is never stuck and either leaves or decreases (2·pending + active, time left to a deadline). It leaves without failure only when everything is done and all answers were benign, and with a failure exactly when some answer was not. |
| FlowScheduler.Scheduler.Run | plugins/tugling/scripts/project_contract.py:604-720 | Every run ends; its history is safe, backed by the answers, and every failure justified; every touched flow has one backed result, in selection order. Every selected flow succeeded exactly when all answers were benign. A spent budget shows in a result, and nothing is started or polled after it was seen. |
| FlowEvidence.CollectedDurations | plugins/tugling/scripts/project_contract.py:557-574 | Every result of a finished run, failed or not, passes the duration check. |
| FlowEvidence.CollectedWithinClock | plugins/tugling/scripts/project_contract.py:323-337 | No result of a finished run reports a finish after the scheduler's last clock reading. |
| FlowEvidence.WallTimeSuffices | plugins/tugling/scripts/project_contract.py:875-877 | If no less wall time than scheduler time has passed, the clock check holds for every receipt that is in order and young enough. |
| FlowEvidence.CollectedTiming | plugins/tugling/scripts/project_contract.py:734-807 | A complete all-success run passes the timing check on its own plan. |
| FlowEvidence.CollectedConfirmed | plugins/tugling/scripts/project_contract.py:693-710 | Every successful result reports a flow whose process came up and was seen to end with code 0 and nothing surviving. |
| FlowEvidence.FinishesAreEnds | plugins/tugling/scripts/project_contract.py:568-570 | In a run without failures the reported finishes are within the budget exactly when the clock readings at the ends of the flows are. |
| FlowEvidence.RunPlan | plugins/tugling/scripts/project_contract.py:794-797 | A scheduler run yields a complete list of successes exactly when every answer was benign, and its results meet both timing checks. |
| FlowEvidence.CheckSelection | plugins/tugling/scripts/project_contract.py:744-763 | A selection is run exactly when it is distinct, known, dependency-closed, within the timeout budget and, if required, the required list; otherwise the first of these that fails is the error. |
| FlowEvidence.ExecuteFlows | plugins/tugling/scripts/project_contract.py:734-821 | The receipt says FLOWS_PASS or REQUIRED_PASS exactly when every answer was benign (no interrupt, every process started and ended with code 0 without survivors in time, budget unspent at every head), every end lies within the active budget and the worktree is unchanged; then every selected flow was seen to end so. The timing checks never raise on a run's own results; a passing receipt is later accepted, under the same report and flag, exactly when the clocks agree, which they do on every timely receipt if the wall clock did not fall behind the scheduler's; a failing one is never accepted. |
| FlowEvidence.ReceiptIsJudged | plugins/tugling/scripts/project_contract.py:825-880 | For a receipt of a real run, acceptance is the same as having passed plus agreeing clocks. |
| FlowEvidence.CheckFlowEvidence | plugins/tugling/scripts/project_contract.py:825-880 | Passes exactly for evidence that matches identity, map, plan, results, timing and summary; the stale, time and coverage errors are raised in that order, each exactly when it applies. |
| FlowEvidence.CheckTimingAgain | plugins/tugling/scripts/project_contract.py:873-880 | The recomputed part passes exactly for agreeing durations, accepted timing, the right summary within budget, and a wall clock at most 0.1 s behind. |
| FlowEvidence.RequiredPassCoversClosure | plugins/tugling/scripts/project_contract.py:854-856 | An accepted required receipt covers exactly the least dependency-closed set with every requirement's flows, in map order without repeats. |
| ReceiptStore.PrunedIsUnique | plugins/tugling/scripts/project_contract.py:487-518 | Oldest-first, inactive only, all expired and no more than needed: only one set of receipts fits that description. |
| ReceiptStore.PrunedFits | plugins/tugling/scripts/project_contract.py:512-513 | After pruning the limits hold if and only if the active receipts and the reservation alone meet them. |
| ReceiptStore.PruneTwice | plugins/tugling/scripts/project_contract.py:487-518 | A second run with the same cutoff removes nothing. |
| ReceiptStore.Store.Prune | plugins/tugling/scripts/project_contract.py:463-518 | The loop removes exactly that set; it raises exactly when the active receipts do not fit, and then only they are left; removed and retained counts and bytes add up. |
| ReceiptStore.Store.Unlink | plugins/tugling/scripts/project_contract.py:496-511 | Removing one inactive receipt changes count, budget and bytes by exactly that receipt. |
| ReceiptStore.Store.Start | plugins/tugling/scripts/project_contract.py:784-795 | Refused as too large exactly above 256 KiB, with nothing removed; otherwise prunes with a reservation, and then fails for capacity exactly when the active receipts and the reservation do not fit, for a taken name exactly when that name is kept, and else adds one active receipt. With no other writer the capacity error cannot happen. |
| ReceiptStore.Store.Write | plugins/tugling/scripts/project_contract.py:528-540 | A write changes only the writer's own receipt and is refused exactly above 256 KiB. |
| ReceiptStore.Store.Cleanup | plugins/tugling/scripts/project_contract.py:521-526 | A cleanup within capacity never raises the capacity error. |
| ReceiptStore.Store.Finish | plugins/tugling/scripts/project_contract.py:808-819 | The final write, pruning and release go through unless the receipt is too large; the pruning never raises. |
| ReceiptStore.TransitionKeepsCapacity | plugins/tugling/scripts/project_contract.py:463-540 | Every start, write, cleanup, release or crash keeps the number of receipts and the reserved bytes within the policy. |
| ReceiptStore.TransitionKeepsActive | plugins/tugling/scripts/project_contract.py:492-494 | No action of another writer removes or changes an active receipt. |
| ReceiptStore.RunKeepsCapacity | plugins/tugling/scripts/project_contract.py:463-540 | In every state of every run with any number of writers the limits hold, and the active receipts alone fit. |
| CertRecords.AcceptedMeans | scripts/certification_tasks.py:260-268 | Fails exactly when a task has two terminal outcomes; otherwise maps each finished task to its outcome. |
| CertRecords.SumIsSpent | scripts/certification_tasks.py:288-297 | Input, output and cached totals are each the sum of that figure over the last result of every attempt that reports usage. |
| CertRecords.AdmitAnswers | scripts/certification_tasks.py:300-318 | The whole answer of admission: which error, nothing for a finished task, or the admission, stated on the records and the figures they report. |
| CertRecords.AdmitMeans | scripts/certification_tasks.py:300-318 | An admission is issued exactly when the task exists, the attempt is in range and new, the task is not done, every record names a known task, every result of its lane has an admission, every paid attempt reported usage, and the input and output tokens that the lane's last results report sum up below the shares. |
| CertRecords.RetryFilterIsIdle | scripts/certification_tasks.py:338-349 | In an open paid lane the inner retry filter of recovery lets every task through. |
| CertRecords.EligibleIsAdmissible | scripts/certification_tasks.py:321-351 | A task is worth another attempt exactly when admission on its own lane's records would issue one. |
| CertRecords.Recovery | scripts/certification_tasks.py:321-351 | Succeeds exactly for an attempt in range, records of known tasks from earlier rounds, one outcome per task and complete accounts, and otherwise raises the first of these that fails; returns exactly the tasks that admission would take, in plan order. |
| CertRecords.WholeSum | scripts/certification_tasks.py:288-297 | Token totals of the plan are the sums of the per-lane totals. |
| CertRecords.WholeUnaccounted | scripts/certification_tasks.py:288-297 | The lanes' numbers of unaccounted attempts add up without double counting. |
| CertRecords.WholeIsSumOfLanes | scripts/certification_tasks.py:288-297 | Whole-plan accounting succeeds exactly when each lane's does, and its figures are the sums over the lanes. |
| CertProtocol.ValidateCheckpoint | scripts/certification_jobs.py:58-74 | Accepts exactly the checkpoints of the lane with valid records, no repeated identity, complete accounts and one outcome per task. |
| CertProtocol.HistoryUnique | scripts/certification_jobs.py:381-407 | In a reachable checkpoint each (task, attempt) has at most one admission and one result, the result directly after its admission. |
| CertProtocol.HistoryAdmitsResults | scripts/certification_jobs.py:394-407 | Every result has an admission. |
| CertProtocol.HistoryOneOutcome | scripts/certification_jobs.py:381-407 | No task ever gets two outcomes other than an infrastructure error. |
| CertProtocol.HistorySize | scripts/certification_jobs.py:58-74 | A lane never holds more than two records per task and attempt. |
| CertProtocol.EmitNeverFails | scripts/certification_jobs.py:225-229 | The validation inside publishing never rejects a grown checkpoint. |
| CertProtocol.StepKeepsHistory | scripts/certification_jobs.py:381-407 | Each admit, finish or loss keeps the lane's history legitimate, and appends at most one record. |
| CertProtocol.RunKeepsHistory | scripts/certification_jobs.py:381-407 | In every run of a lane the published checkpoint has a legitimate history and passes validation. |
| CertProtocol.RunOnlyAppends | scripts/certification_jobs.py:381-407 | Checkpoints grow by appending only. |
| CertProtocol.ReadmissionRule | scripts/certification_tasks.py:300-318 | A paid task is admitted again only if each earlier attempt ended as an infrastructure error with reported usage. |
| CertProtocol.OneUnaccounted | scripts/certification_tasks.py:300-318 | A paid lane has at most one unaccounted attempt, its latest. |
| CertProtocol.BlockedForever | scripts/certification_tasks.py:300-318 | An unaccounted attempt whose worker is gone stops the lane: no later action changes it. |
| CertProtocol.LaneOvershoot | scripts/certification_tasks.py:300-318 | The input and output tokens that a lane's results report each stay below its share plus what its latest result reports. |
| CertProtocol.WholeOvershoot | scripts/certification_tasks.py:288-318 | The plan's accounting succeeds, its totals are the sums of the reported figures, and they stay below the approved limits plus what the latest result of each lane reports. |
| CertProtocol.PlanRunOvershoot | scripts/certification_tasks.py:288-318 | The same for every combination of lane runs. |
| CertProtocol.Lane.Admit | scripts/certification_jobs.py:381-393 | An idle lane takes a task exactly when the admission rule allows it, and then appends that admission; otherwise it passes on the rule's answer. |
| CertProtocol.Lane.Finish | scripts/certification_jobs.py:394-407 | A worker's result is appended exactly when it is valid and belongs to the admitted attempt. |
| CertProtocol.Lane.Lose | scripts/certification_jobs.py:394-407 | A lost worker leaves the checkpoint as it was. |
| RunBudget.RunBudget.BeginTask | scripts/codex_runtime.py:148-152 | Over any history of calls on the object: a task is admitted exactly when none is in flight or unaccounted and neither the task count nor a token limit is reached; nothing else changes. |
| RunBudget.RunBudget.RecordUsage | scripts/codex_runtime.py:154-166 | Over any history of calls on the object: valid usage is booked once and clears the flight mark, also when the call raises, which it does exactly for invalid usage or an exceeded limit; the object then keeps the one-task bounds of its history, and it is strictly below each limit plus this task exactly when it was below both limits before. |
| RunBudget.OneTaskOvershoot | scripts/codex_runtime.py:148-166 | A caller that makes no record once a limit is exceeded spends at most each limit plus the latest booked task. |
| RunBudget.AdmittedOvershoot | scripts/codex_runtime.py:148-166 | A caller that records only tasks admitted by begin stays strictly below each limit plus the latest task and within the task limit, even if it goes on after errors. |
| RunBudget.StrictExactlyWhenBelowBefore | scripts/codex_runtime.py:154-166 | For every history: spending is strictly below each limit plus the latest task exactly when it was below both limits before that task was booked. |
| RunBudget.UnadmittedRecordMeetsBound | scripts/codex_runtime.py:154-166 | Recording 10 and then 5 tokens under a limit of 10, without begin, spends exactly limit plus latest task. |
| RunBudget.UnreportedTaskBlocks | scripts/codex_runtime.py:148-152 | While a task is in flight or unaccounted, any number of further begins changes nothing. |
| WatchClassify.ClassificationIsTotal | plugins/tugling/skills/poteto-mode/scripts/watch-pr/policy.ts:218-265 | For type-correct snapshots neither "no classified decision" error is reachable. |
| WatchClassify.SingleAgreesWithStack | plugins/tugling/skills/poteto-mode/scripts/watch-pr/policy.ts:218-265 | Classifying one pull request and classifying a stack of one give the same decision. |
| WatchClassify.BlockerIsLeast | plugins/tugling/skills/poteto-mode/scripts/watch-pr/policy.ts:237-256 | The chosen blocker reports the row that is blocked, by its own facts, threads, CI or review, in the least tier (conflict, threads, CI, gate), and of those the first in the queue. |
| WatchClassify.BlockedIffSomeBlocker | plugins/tugling/skills/poteto-mode/scripts/watch-pr/policy.ts:237-256 | A stack is blocked exactly when some row is: conflicting, with threads, with failing or refused CI, closed, a draft that is not allowed and not pending, or with changes requested. |
| WatchClassify.WaitingIsFirst | plugins/tugling/skills/poteto-mode/scripts/watch-pr/policy.ts:250-256 | A stack waits exactly when nothing is blocked and some checks are pending, and names the first such pull request with its checks. |
| WatchClassify.CiMeans | plugins/tugling/skills/poteto-mode/scripts/watch-pr/policy.ts:72-125 | Which CI state a read gives, each exactly when: failing for a failed check, rejected for a refused merge, pending, or clean; with exactly the failed and pending checks listed. |
| WatchClassify.ReadyMeansReady | plugins/tugling/skills/poteto-mode/scripts/watch-pr/policy.ts:59-216 | A row counts as ready exactly when GitHub said it is merged, or open without conflict, threads, failed or pending checks, refused merge or blocking gate. |
| WatchClassify.ClearMeansAllReady | plugins/tugling/skills/poteto-mode/scripts/watch-pr/policy.ts:237-265 | A stack is ready exactly when every pull request in it is, and then all of them are listed. |
| WatchQueue.PlanKeepsInv | plugins/tugling/skills/poteto-mode/scripts/watch-pr/policy.ts:554-573 | Planning keeps work in flight and plans a read of a queued, unmerged pull request whenever one is left: a sweep of all of them when one is due, otherwise the first of them. Replanning changes nothing. |
| WatchQueue.ApplyKeepsInv | plugins/tugling/skills/poteto-mode/scripts/watch-pr/policy.ts:574-643 | Applying the planned snapshot never throws and records exactly that snapshot; the last read of a sweep ends it, reports the whole queue and sets the time of the next one. |
| WatchQueue.EvaluateIsSound | plugins/tugling/skills/poteto-mode/scripts/watch-pr/policy.ts:644-706 | Evaluation never throws; it completes exactly when everything is merged, in queue order; an advance names a merged pull request and a strictly later frontier. |
| WatchQueue.EvaluateAnswers | plugins/tugling/skills/poteto-mode/scripts/watch-pr/policy.ts:644-706 | For a fully known queue, each answer exactly when: complete with nothing open, blocked with some open row really blocked (and by the least such), an advance when the recorded frontier is not the first open one, a timeout when it is due, otherwise a wait with its reason, reported only if it changed. |
| WatchRun.TurnAnswers | plugins/tugling/skills/poteto-mode/scripts/watch-pr/policy.ts:765-828 | The same for a turn of the loop: which verdict ends it, or whether it goes on at once or sleeps. |
| WatchRun.TurnEmits | plugins/tugling/skills/poteto-mode/scripts/watch-pr/policy.ts:755-828 | What such a turn reports: the queue after a sweep, the advance, and a wait only if its reason changed. |
| WatchRun.FailedTurnAnswers | plugins/tugling/skills/poteto-mode/scripts/watch-pr/policy.ts:377-404 | After a query error the watcher gives up exactly when the error is not retryable or one too many, times out exactly when the deadline has passed, and otherwise reports the retry and sleeps; nothing known is lost. |
| WatchRun.BlockerEndsRun | plugins/tugling/skills/poteto-mode/scripts/watch-pr/policy.ts:765-828 | A run ends with a blocker exactly when one of its turns, after an answered read that left no read to do, held a really blocked open pull request. |
| WatchRun.TurnKeepsInv | plugins/tugling/skills/poteto-mode/scripts/watch-pr/policy.ts:717-823 | No turn reaches an internal error, whatever GitHub answers; messages are only added. |
| WatchRun.RunKeepsInv | plugins/tugling/skills/poteto-mode/scripts/watch-pr/policy.ts:707-836 | The same for every run: all internal throws are unreachable, completion lists the whole queue in order, advances are true and strictly forward with decreasing remainder. |
| WatchRun.AdvancesGrow | plugins/tugling/skills/poteto-mode/scripts/watch-pr/policy.ts:686-706 | A new advance extends the earlier ones: later frontier, fewer remaining, everything before it merged. |
| WatchRun.MergedStaysMerged | plugins/tugling/skills/poteto-mode/scripts/watch-pr/policy.ts:547-607 | A pull request seen merged stays merged for the rest of the run. |
| WatchReads.SnapshotsWereRead | plugins/tugling/skills/poteto-mode/scripts/watch-pr/policy.ts:717-764 | Every snapshot that a run holds was made from GitHub's answers by a turn that had planned to read that pull request. |
| WatchReads.MergedIsReal | plugins/tugling/skills/poteto-mode/scripts/watch-pr/policy.ts:65-68 | A pull request that a run holds for merged was read by some turn whose answers say that it is merged. |
| WatchReads.AdvancesAreReal | plugins/tugling/skills/poteto-mode/scripts/watch-pr/policy.ts:672-685 | The same for every pull request that an emitted advance names as merged. |
| WatchRun.ReadsAreFreshAndRetried | plugins/tugling/skills/poteto-mode/scripts/watch-pr/policy.ts:365-416 | No merged pull request is read again, and after a failed read the next turn reads the same one. |
| WatchRun.AwakeTurnProgresses | plugins/tugling/skills/poteto-mode/scripts/watch-pr/policy.ts:717-823 | A turn that neither sleeps nor ends moves the frontier forward or has fewer reads left. |
| WatchRun.RetriesAreBounded | plugins/tugling/skills/poteto-mode/scripts/watch-pr/policy.ts:365-416 | A run that goes on has seen fewer consecutive failures than allowed. |
| WatchRun.BackoffIsBounded | plugins/tugling/skills/poteto-mode/scripts/watch-pr/policy.ts:266-270 | For any interval, also a fraction of a second: the pause lies between one and five minutes, never shrinks with more failures, and is capped from the fourth on. |
| WatchRun.BackoffIsExact | plugins/tugling/skills/poteto-mode/scripts/watch-pr/policy.ts:266-270 | The first pause is the interval, but at least one minute; each further failure doubles it; five minutes is the cap. |
| WatchRun.RunQueued | plugins/tugling/skills/poteto-mode/scripts/watch-pr/policy.ts:707-836 | The loop that reassigns the state and counts failures computes the run about which the properties above are proved. |
| WatchStack.ChildrenFacts | plugins/tugling/skills/poteto-mode/scripts/watch-pr/github.ts:675-679 | The dependents of a branch are exactly the open rows based on it, in ascending number. |
| WatchStack.ByHeadIsLast | plugins/tugling/skills/poteto-mode/scripts/watch-pr/github.ts:673-674 | Of several open rows with one head the index holds the last. |
| WatchStack.StackWalk.Visit | plugins/tugling/skills/poteto-mode/scripts/watch-pr/github.ts:696-703 | The recursive visit adds the depth-first order above a branch and marks exactly what it adds. |
| WatchStack.AboveIsDistinct | plugins/tugling/skills/poteto-mode/scripts/watch-pr/github.ts:696-703 | That order lists nothing twice and nothing already seen. |
| WatchStack.AboveAscends | plugins/tugling/skills/poteto-mode/scripts/watch-pr/github.ts:678-679 | Dependents of one branch come in ascending number. |
| WatchStack.ParentIsNew | plugins/tugling/skills/poteto-mode/scripts/watch-pr/github.ts:682-689 | Without cyclic base links the walk down never meets a row again, |
| WatchStack.AcyclicDescends | plugins/tugling/skills/poteto-mode/scripts/watch-pr/github.ts:682-689 | and so it ends at a base that is no open head. |
| WatchStack.DescentIsDistinct | plugins/tugling/skills/poteto-mode/scripts/watch-pr/github.ts:682-689 | A walk down that ends has met no row twice, whatever links the other rows have. |
| WatchStack.StackIsDistinct | plugins/tugling/skills/poteto-mode/scripts/watch-pr/github.ts:669-712 | The whole stack has no repeated number and only open rows. |
| WatchStack.StackIsGrounded | plugins/tugling/skills/poteto-mode/scripts/watch-pr/github.ts:669-712 | Every row but the first stands on an earlier one. |
| WatchStack.BasesComeFirst | plugins/tugling/skills/poteto-mode/scripts/watch-pr/github.ts:669-712 | Every base comes before everything based on it if and only if no two rows that are the start or stand on it, directly or not, share a head that some open row is based on. |
| WatchStack.AboveSettles | plugins/tugling/skills/poteto-mode/scripts/watch-pr/github.ts:695-703 | In the depth-first order the later of two rows with one head comes after everything based on that head. |
| WatchStack.SharedHeadBreaksOrder | plugins/tugling/skills/poteto-mode/scripts/watch-pr/github.ts:669-712 | Five acyclic open rows, two of them with one head, from which a base is listed after a row based on it. |
| WatchStack.StackIsClosed | plugins/tugling/skills/poteto-mode/scripts/watch-pr/github.ts:696-703 | Every dependent of the start, direct or not, is listed. |
| WatchStack.OrderStack | plugins/tugling/skills/poteto-mode/scripts/watch-pr/github.ts:669-712 | If the walk down from the given row ends, returns the stack: that walk reversed, the start, and the depth-first order above it; just the given number when it is not open. |
| OrchText.SplitJoin | plugins/tugling/skills/poteto-mode/scripts/orch/store.ts:449-470 | Splitting undoes joining when no part holds the separator. |
| OrchText.CleanCellIdempotent | plugins/tugling/skills/poteto-mode/scripts/orch/store.ts:297-300 | Cleaning a cleaned cell changes nothing. |
| OrchText.CleanCellMeans | plugins/tugling/skills/poteto-mode/scripts/orch/store.ts:297-300 | A quote goes before a formula start, each tab and line break becomes a space, and every other character stays in its place. |
| OrchText.RequiredCellRefuses | plugins/tugling/skills/poteto-mode/scripts/orch/store.ts:302-308 | A cell is refused exactly when it is empty or white space only. |
| OrchText.TrimMeans | plugins/tugling/skills/poteto-mode/scripts/orch/store.ts:310-316 | Trimming takes white space off both ends and nothing else. |
| OrchText.RequiredLineIsLine | plugins/tugling/skills/poteto-mode/scripts/orch/store.ts:310-316 | A required line comes out non-empty, trimmed and without `\n` or `\r`. |
| OrchText.RequiredLineMeans | plugins/tugling/skills/poteto-mode/scripts/orch/store.ts:310-316 | A line is refused exactly when it is empty or white space only; otherwise it is the text without the white space around it, with a space for each line break. |
| OrchText.DecimalRoundTrip | plugins/tugling/skills/poteto-mode/scripts/orch/store.ts:743-744 | Printed numbers read back, and a positive one starts with no zero. |
| OrchText.DecimalInjective | plugins/tugling/skills/poteto-mode/scripts/orch/store.ts:1401-1441 | Different pull-request numbers have different ledger keys. |
| OrchTables.TableRoundTrip | plugins/tugling/skills/poteto-mode/scripts/orch/store.ts:444-472 | Reading back a written table returns its rows with each cell cleaned. |
| OrchTables.CleanTableRoundTrip | plugins/tugling/skills/poteto-mode/scripts/orch/store.ts:444-472 | Clean rows come back unchanged. |
| OrchTables.UnitsRoundTrip | plugins/tugling/skills/poteto-mode/scripts/orch/store.ts:473-505 | Saving and reading units are inverse on clean units. |
| OrchTables.UnitsFile.Add | plugins/tugling/skills/poteto-mode/scripts/orch/store.ts:1314-1335 | Appends one unit exactly when its fields are present and its id is new; ids stay unique; an error leaves the file alone. |
| OrchTables.UnitsFile.Set | plugins/tugling/skills/poteto-mode/scripts/orch/store.ts:1336-1365 | Edits exactly the row of its id and no other, exactly when the id exists and the fields are valid. |
| OrchTables.UnitsFile.Get | plugins/tugling/skills/poteto-mode/scripts/orch/store.ts:1366-1376 | Finds the unit of the id; a blank id and an unknown id are refused, each with its own error. |
| OrchTables.LedgerRoundTrip | plugins/tugling/skills/poteto-mode/scripts/orch/store.ts:507-548 | Saving and reading the ledger are inverse on clean entries. |
| OrchTables.UpsertKeepsUnique | plugins/tugling/skills/poteto-mode/scripts/orch/store.ts:1401-1426 | Recording keeps (pr, sha) pairs unique. |
| OrchTables.LookupUpsert | plugins/tugling/skills/poteto-mode/scripts/orch/store.ts:1401-1441 | Recording changes the answer for its own pair and for no other. |
| OrchTables.CheckFindsLastRecorded | plugins/tugling/skills/poteto-mode/scripts/orch/store.ts:1401-1441 | After any sequence of records the pairs are unique, the file reads back, and a lookup gives the last entry recorded for its pair. |
| OrchTables.LedgerFile.Record | plugins/tugling/skills/poteto-mode/scripts/orch/store.ts:1401-1426 | Records exactly the valid, cleaned entry; an error leaves the file alone. |
| OrchTables.LedgerFile.Check | plugins/tugling/skills/poteto-mode/scripts/orch/store.ts:1427-1441 | Answers with the last entry recorded for the pair; a non-positive number, a blank SHA and an unknown pair are refused, each with its own error. |
| OrchGates.FieldBack | plugins/tugling/skills/poteto-mode/scripts/orch/store.ts:630-636 | A printed field line is matched back into its name and value, unless the value holds a line terminator. |
| OrchGates.BlockBack | plugins/tugling/skills/poteto-mode/scripts/orch/store.ts:597-664 | A printed gate reads back exactly when it is readable. |
| OrchGates.SplitOnJoin | plugins/tugling/skills/poteto-mode/scripts/orch/store.ts:626 | Splitting on a longer separator undoes joining when it starts inside no part. |
| OrchGates.BlockIsUnbroken | plugins/tugling/skills/poteto-mode/scripts/orch/store.ts:597-626 | The separator between gates never starts inside a printed gate. |
| OrchGates.ReadGate | plugins/tugling/skills/poteto-mode/scripts/orch/store.ts:626-663 | The loop over a block's lines computes the parse about which the round trip is proved. |
| OrchGates.ReadGates | plugins/tugling/skills/poteto-mode/scripts/orch/store.ts:614-668 | The loop over the blocks computes the parse of the whole file. |
| OrchGates.GatesRoundTrip | plugins/tugling/skills/poteto-mode/scripts/orch/store.ts:597-668 | Reading printed gates returns them exactly when no question, options, default or answer holds U+2028 or U+2029; otherwise the file is refused. |
| OrchGates.SeparatorIsLost | plugins/tugling/skills/poteto-mode/scripts/orch/store.ts:310-316 | A gate that park accepts and that cannot be read again. |
| OrchGates.PutMeans | plugins/tugling/skills/poteto-mode/scripts/orch/store.ts:1502-1550 | Putting a gate keeps ids unique, answers for its id and changes no other. |
| OrchGates.GatesFollowTheirStories | plugins/tugling/skills/poteto-mode/scripts/orch/store.ts:1502-1550 | After any history of parks and resolves each gate stands as its own commands left it, independent of all others. |
| OrchGates.GatesFile.Park | plugins/tugling/skills/poteto-mode/scripts/orch/store.ts:1502-1523 | Succeeds exactly when the fields are present and the file is still readable, and adds exactly that park to the history. |
| OrchGates.GatesFile.Resolve | plugins/tugling/skills/poteto-mode/scripts/orch/store.ts:1530-1550 | Succeeds exactly for a known gate and an answer; keeps the gate's other fields. |
| OrchGates.GatesFile.List | plugins/tugling/skills/poteto-mode/scripts/orch/store.ts:1524-1529 | Lists exactly the gates whose story ends open, in file order. |
| OrchStanding.ReadStanding | plugins/tugling/skills/poteto-mode/scripts/orch/store.ts:731-751 | The loop over the lines computes the parse about which the round trip is proved. |
| OrchStanding.OrderBack | plugins/tugling/skills/poteto-mode/scripts/orch/store.ts:743-748 | A printed order matches its number, of any length, and its text. |
| OrchStanding.StandingRoundTrip | plugins/tugling/skills/poteto-mode/scripts/orch/store.ts:731-751 | A printed list of any length reads back exactly when no line holds U+2028 or U+2029; otherwise the file is refused. |
| OrchStanding.SeparatorIsLost | plugins/tugling/skills/poteto-mode/scripts/orch/store.ts:1593-1605 | A line that standing add accepts and that cannot be read again. |
| OrchStanding.StandingFile.Show | plugins/tugling/skills/poteto-mode/scripts/orch/store.ts:1589-1592 | Returns the orders added so far, in order and numbered, exactly while all are readable. |
| OrchStanding.StandingFile.Add | plugins/tugling/skills/poteto-mode/scripts/orch/store.ts:1593-1605 | Appends one numbered order exactly when the file is readable and the line is present. |
| OrchFrontier.AnchoredIsSuffix | plugins/tugling/skills/poteto-mode/scripts/orch/store.ts:1191-1202 | The walk down is forced: any partial chain is the end of every chain that reaches trunk. |
| OrchFrontier.PartIsPrefix | plugins/tugling/skills/poteto-mode/scripts/orch/store.ts:1203-1223 | The walk up is forced: any partial stack is the beginning of every whole one. |
| OrchFrontier.StackIsUnique | plugins/tugling/skills/poteto-mode/scripts/orch/store.ts:1184-1235 | At most one stack runs through a branch. |
| OrchFrontier.WalkDown | plugins/tugling/skills/poteto-mode/scripts/orch/store.ts:1191-1202 | Ends over any finite list of rows; finds the chain from trunk, or there is none and the error says why. |
| OrchFrontier.WalkUp | plugins/tugling/skills/poteto-mode/scripts/orch/store.ts:1203-1223 | Ends at a tip with no open child, or there is no stack and the error says why. |
| OrchFrontier.ResolveFrontier | plugins/tugling/skills/poteto-mode/scripts/orch/store.ts:1184-1235 | Off trunk, returns the duplicate-free stack from trunk through the current branch to its tip, or an error exactly when there is no such stack; a loop error has a real cycle, a linearity error two children. |
| OrchFrontier.ValidateFrontierPin | plugins/tugling/skills/poteto-mode/scripts/orch/store.ts:1237-1267 | Passes exactly for the same numbers in the same order; reports exactly the missing and extra ones, and an order drift exactly for the same numbers in another order. |

## Left out

- FlowGraph.ValidateMap: the embedded-secret scan and the JSON shape of the map and its execution object are left out; whether a source file is committed is a given fact about it.
- FlowEvidence.CheckFlowEvidence: JSON types, run ids and the regular-file check of the receipt's path are left out.
- `round(x, 3)` on binary floating point: times are exact integers here, so representation error of a float is not modelled; ties go to even.
- FlowTiming.PerformanceSummary: leaves out `slowest_flows`, a sorted excerpt of the same results that no check depends on except through equality.
- FlowScheduler.Scheduler.Run: processes, signals, process groups and descriptors are arbitrary answers; the cancellation in the `finally` block is left out because nothing is active there; a `KeyboardInterrupt` can arrive at the head of the loop, after a process is registered, and after a result is stored but before its flow leaves `active`, not at every bytecode.
- FlowScheduler.Scheduler.CancelActive: one wait for all groups is modelled by its outcome, forced or not for each process, and failed or not for all.
- FlowScheduler.Scheduler.PollAll: visits active flows in an arbitrary order instead of insertion order, which covers the source's order.
- FlowEvidence.ExecuteFlows: a flow result that is too large for the receipt is covered by the store model, not by this one; identity, Git state and nested-execution checks are equality or left out.
- ReceiptStore.Store.Start: the lock, inode and symbolic-link checks are left out, so each action is atomic; receipt names are numbers with the order of the names.
- Stale and forced takeover of the orchestration store's lock: unlink and create are two steps, so nothing is claimed across a takeover; one writer is assumed.
- `inbox`, `status`, `counts`, `summary` and `units list` of the orchestration store: simple views that would add only easy members.
- `frontier.set` beyond resolution and pin: the generation counter and the first open number are direct assignments; commit ids from Git and JSON parsing are left out.
- OrchFrontier.ResolveFrontier: the forge is one fixed list of rows, so changes between two queries and truncated listings are not modelled.
- OrchTables.LedgerFile.Record: numbers are unbounded, so the safe-integer limit of JavaScript is not modelled; the time stamp is any clean text.
- WatchStack.OrderStack: asks that the walk down from the start ends, because that walk keeps no visited set and would otherwise not end.
- WatchStack.BasesComeFirst: base links are taken to be acyclic, as the order of bases and dependents presumes, and numbers to be unique, as GitHub's are.
- WatchRun.RunQueued: times are exact, in any unit that makes them whole, so float rounding of their sums is not modelled; the watcher may run for ever, so runs are finite prefixes of any length; the sequence number and the time stamp of a message are its position and an input.
- `runSimple` and the status-only modes of the watcher: they use the same classification and retry loop with no queue state.
- GitHub, `gh` and forge parsing, review automation, and merge provenance: answers are type-correct values.
- Task matrix generation (`task_definitions`), evidence contents and artifact provenance: a plan is any list of tasks with unique ids, lanes and limits; a valid record is a typed value.
- CertProtocol.Lane.Finish: the placeholder result for a missing worker file is the ordinary case of a valid result without usage.
- Digests, schemas, attestation, promotion, canaries, graders, reports and command-line parsing.
