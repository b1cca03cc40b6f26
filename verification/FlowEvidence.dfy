/** From a run to its receipt and back: execute_flows writes evidence that
    check_flow_evidence judges again later (project_contract.py). Wall-clock times
    are microseconds. */
module FlowEvidence {
  import opened Common
  import opened FlowGraph
  import opened FlowTiming
  import opened FlowTrace
  import opened FlowWorld
  import opened FlowRecord
  import opened FlowScheduler

  datatype Kind = NativeFlows | RequiredFlows

  datatype State = FlowsPass | RequiredPass | FlowsFail | RequiredFail

  /** Digests and context, compared for equality only. */
  datatype Identity = Identity(revision: string, config: string, mapping: string, helper: string, context: string)

  datatype Report = Report(
    mapping: VerificationMap, identity: Identity, budgetSeconds: Option<int>, maxAgeSeconds: int)

  datatype Evidence = Evidence(
    schemaVersion: int, identity: Identity, kind: Kind, state: State, requirements: Option<seq<Requirement>>,
    startedAt: int, finishedAt: int, requested: seq<FlowId>, plan: Plan,
    results: seq<FlowResult>, worktreeUnchanged: bool, performance: Option<Performance>)

  /** What a run meets: the scheduler's questions and the start of its clock, whether the
      worktree is unchanged afterwards, and the two wall-clock times. */
  datatype Surroundings = Surroundings(
    world: World, runStarted: int, worktreeUnchanged: bool, startedAt: int, finishedAt: int)

  datatype EvidenceError =
    | IncompleteRequired | BadSelection | MissingDependencies | TimeoutBudgetExceeded
    | TimingRejected
    | Stale | BadTimes | NotSuccessful | Mismatch | ClockDisagrees

  /** validate_verification_map has passed. */
  ghost predicate Validated(m: VerificationMap) {
    WellFormed(m) && Acyclic(DependencyGraph(m.flows)) && BudgetOk(m)
  }

  function ById(flows: seq<Flow>): map<FlowId, Flow>
    requires IdsUnique(flows)
  {
    map f | f in flows :: f.id := f
  }

  /** execution_plan */
  function ExecutionPlan(m: VerificationMap, selected: seq<FlowId>): Plan
    requires IdsUnique(m.flows) && forall id :: id in selected ==> id in ById(m.flows)
  {
    Plan(m.maxParallel, seq(|selected|, i requires 0 <= i < |selected| =>
      assert selected[i] in selected;
      PlannedFlow(selected[i], ById(m.flows)[selected[i]].dependsOn)))
  }

  /** The selections that execute_flows agrees to run. */
  ghost predicate SelectionOk(m: VerificationMap, selected: seq<FlowId>, required: bool)
    requires WellFormed(m)
  {
    && (required ==> m.requirements.Some? && selected == RequiredIds(m))
    && selected != [] && Distinct(selected) && Elements(selected) <= FlowIds(m.flows)
    && ClosedUnder(DependencyGraph(m.flows), Elements(selected))
    && TimeoutSum(m.flows, Elements(selected)) <= 7200
  }

  ghost predicate MatchesFlow(r: FlowResult, id: FlowId, m: VerificationMap)
    requires IdsUnique(m.flows)
  {
    && r.id == id && id in ById(m.flows) && r.argv == ById(m.flows)[id].argv
    && r.exitCode == Some(0) && r.failure.None? && !r.forcedCleanup
  }

  function BudgetOf(report: Report, required: bool): Option<int> {
    if required then report.budgetSeconds else None
  }

  ghost predicate Successful(results: seq<FlowResult>) {
    forall k :: 0 <= k < |results| ==> results[k].failure.None?
  }

  /** What check_flow_evidence accepts. */
  ghost predicate EvidenceOk(report: Report, e: Evidence, required: bool, now: int)
    requires WellFormed(report.mapping)
  {
    var m := report.mapping;
    && e.identity == report.identity && e.schemaVersion == 1
    && e.startedAt <= e.finishedAt <= now && now - e.startedAt <= report.maxAgeSeconds * 1_000_000
    && (required ==> m.requirements.Some? && e.requested == RequiredIds(m) && e.requirements == m.requirements)
    && e.kind == (if required then RequiredFlows else NativeFlows)
    && e.state == (if required then RequiredPass else FlowsPass)
    && e.worktreeUnchanged
    && e.requested != [] && Distinct(e.requested)
    && (forall id :: id in e.requested ==> id in ById(m.flows))
    && e.plan == ExecutionPlan(m, e.requested)
    && |e.results| == |e.requested|
    && (forall k :: 0 <= k < |e.results| ==> MatchesFlow(e.results[k], e.requested[k], m))
    && (forall k :: 0 <= k < |e.results| ==> DurationAgrees(e.results[k]))
    && TimingOk(e.results, e.plan)
    && e.performance.Some?
    && IsSummary(e.results, BudgetOf(report, required), e.performance.value)
    && e.performance.value.withinBudget
    && 1000 * e.performance.value.activeMs <= (e.finishedAt - e.startedAt) + 100_000
  }

  function StateOf(required: bool, passed: bool): State {
    if required then (if passed then RequiredPass else RequiredFail)
    else if passed then FlowsPass else FlowsFail
  }

  /** When execute_flows upgrades its receipt to a pass. */
  ghost predicate Passed(e: Evidence, selected: seq<FlowId>) {
    && |e.results| == |selected| && e.worktreeUnchanged
    && e.performance.Some? && e.performance.value.withinBudget && Successful(e.results)
  }

  /** The receipt's times are in order and it is young enough at `now`. */
  ghost predicate TimelyAt(report: Report, e: Evidence, now: int) {
    e.startedAt <= e.finishedAt <= now && now - e.startedAt <= report.maxAgeSeconds * 1_000_000
  }

  /** The receipt is timely, and its wall clock agrees with the scheduler's clock to a
      tenth of a second. */
  ghost predicate ClocksAgree(report: Report, e: Evidence, now: int) {
    && TimelyAt(report, e, now)
    && e.performance.Some? && 1000 * e.performance.value.activeMs <= (e.finishedAt - e.startedAt) + 100_000
  }

  /** If at least as much wall time as scheduler time has passed, the clocks agree on
      every timely receipt. Rounding costs at most half a millisecond. */
  lemma WallTimeSuffices(report: Report, e: Evidence, required: bool, elapsed: int, now: int)
    requires e.performance.Some? && IsSummary(e.results, BudgetOf(report, required), e.performance.value)
    requires forall k :: 0 <= k < |e.results| ==> e.results[k].finishedMs <= RoundMs(elapsed)
    requires 0 <= elapsed <= 1000 * (e.finishedAt - e.startedAt)
    ensures ClocksAgree(report, e, now) <==> TimelyAt(report, e, now)
  {
    RoundsToNearest(elapsed);
    RoundIsMonotone(0, elapsed);
  }

  lemma ByIdAgrees(flows: seq<Flow>)
    requires IdsUnique(flows)
    ensures ById(flows).Keys == FlowIds(flows) == DependencyGraph(flows).Keys
    ensures forall id :: id in ById(flows) ==> ById(flows)[id] in flows && ById(flows)[id].id == id
    ensures forall id :: id in ById(flows) ==> DependencyGraph(flows)[id] == ById(flows)[id].dependsOn
  {
  }

  /** The job that a validated map and an accepted selection give the scheduler. */
  function JobFor(m: VerificationMap, selected: seq<FlowId>, runStarted: int): Job
    requires IdsUnique(m.flows)
  {
    Job(ById(m.flows), selected, m.maxParallel, runStarted)
  }

  lemma SelectionIsRunnable(m: VerificationMap, selected: seq<FlowId>, required: bool, runStarted: int)
    requires Validated(m) && SelectionOk(m, selected, required)
    ensures Runnable(JobFor(m, selected, runStarted))
  {
    var job := JobFor(m, selected, runStarted);
    ByIdAgrees(m.flows);
    assert Deps(job) == DependencyGraph(m.flows);
    forall id | id in job.byId ensures job.byId[id].timeoutSeconds >= 1 {
      assert FlowFieldsOk(job.byId[id]);
    }
  }

  /** Every result of a finished run, failed or not, shows agreeing durations. */
  lemma CollectedDurations(job: Job, tr: Trace, completed: map<FlowId, FlowResult>, clock: int, selected: seq<FlowId>)
    requires Consistent(job, tr, map[], completed, clock)
    ensures forall k :: 0 <= k < |Collect(selected, completed)| ==> DurationAgrees(Collect(selected, completed)[k])
  {
    if selected != [] {
      var last := selected[|selected| - 1];
      CollectedDurations(job, tr, completed, clock, selected[..|selected| - 1]);
      if last in completed {
        var r := completed[last];
        assert last !in Running(tr) && Accounted(job, tr, last, r);
        if l, e :| ReportsRun(r, tr, job.runStarted, l, e) {
          assert tr[l] in tr;
          ReportedRunAgrees(r, tr, job.runStarted, Deps(job), job.maxParallel, l, e);
        }
      }
    }
  }

  /** No result of a run finishes after the scheduler's last clock reading. */
  lemma {:induction false} CollectedWithinClock(job: Job, tr: Trace, completed: map<FlowId, FlowResult>, clock: int,
                                                selected: seq<FlowId>)
    requires Consistent(job, tr, map[], completed, clock)
    ensures forall k :: 0 <= k < |Collect(selected, completed)| ==>
      Collect(selected, completed)[k].finishedMs <= RoundMs(clock - job.runStarted)
  {
    if selected != [] {
      var last := selected[|selected| - 1];
      CollectedWithinClock(job, tr, completed, clock, selected[..|selected| - 1]);
      if last in completed {
        ResultWithinClock(job, tr, completed, clock, last);
      }
    }
  }

  lemma ResultWithinClock(job: Job, tr: Trace, completed: map<FlowId, FlowResult>, clock: int, id: FlowId)
    requires Consistent(job, tr, map[], completed, clock) && id in completed
    ensures completed[id].finishedMs <= RoundMs(clock - job.runStarted)
  {
    hide Safe, RoundMs, DurationAgrees;
    var r := completed[id];
    assert id !in Running(tr) && Accounted(job, tr, id, r);
    if l, e :| ReportsRun(r, tr, job.runStarted, l, e) {
      assert tr[e] in tr;
      RoundIsMonotone(tr[e].at - job.runStarted, clock - job.runStarted);
    } else {
      var e :| e in tr && e.Skipped? && e.id == r.id && r.finishedMs == RoundMs(e.at - job.runStarted);
      RoundIsMonotone(e.at - job.runStarted, clock - job.runStarted);
    }
  }

  lemma {:induction false} CollectLength(selected: seq<FlowId>, completed: map<FlowId, FlowResult>)
    ensures |Collect(selected, completed)| <= |selected|
    ensures |Collect(selected, completed)| == |selected| ==>
      forall k :: 0 <= k < |selected| ==>
        selected[k] in completed && Collect(selected, completed)[k] == completed[selected[k]]
  {
    if selected != [] {
      CollectLength(selected[..|selected| - 1], completed);
    }
  }

  lemma CollectedOne(m: VerificationMap, job: Job, tr: Trace, completed: map<FlowId, FlowResult>, clock: int,
                     id: FlowId)
    requires IdsUnique(m.flows) && job == JobFor(m, job.selected, job.runStarted)
    requires Consistent(job, tr, map[], completed, clock)
    requires id in completed && completed[id].failure.None?
    ensures ReportsSuccess(completed[id], tr, job.runStarted) && MatchesFlow(completed[id], id, m)
  {
    hide Safe, RoundMs;
    assert id !in Running(tr) && Accounted(job, tr, id, completed[id]);
  }

  /** A complete all-successful collection is an all-successful run of the plan. */
  lemma CollectedSuccess(m: VerificationMap, job: Job, tr: Trace, completed: map<FlowId, FlowResult>, clock: int)
    requires IdsUnique(m.flows) && job == JobFor(m, job.selected, job.runStarted)
    requires Distinct(job.selected) && Consistent(job, tr, map[], completed, clock)
    requires |Collect(job.selected, completed)| == |job.selected| && Successful(Collect(job.selected, completed))
    requires forall id :: id in job.selected ==> id in ById(m.flows)
    ensures AllSuccessful(Collect(job.selected, completed), ExecutionPlan(m, job.selected), tr, job.runStarted)
    ensures forall k :: 0 <= k < |job.selected| ==>
      MatchesFlow(Collect(job.selected, completed)[k], job.selected[k], m)
  {
    hide Safe, RoundMs, ReportsSuccess, MatchesFlow, CompletedOk, ActiveOk, Running, Collect, IdsUnique;
    var results := Collect(job.selected, completed);
    CollectLength(job.selected, completed);
    forall k | 0 <= k < |results|
      ensures results[k].id == job.selected[k]
      ensures ReportsSuccess(results[k], tr, job.runStarted)
      ensures MatchesFlow(results[k], job.selected[k], m)
    {
      assert results[k].failure.None?;
      CollectedOne(m, job, tr, completed, clock, job.selected[k]);
      MatchesId(results[k], job.selected[k], m);
    }
  }

  lemma MatchesId(r: FlowResult, id: FlowId, m: VerificationMap)
    requires IdsUnique(m.flows) && MatchesFlow(r, id, m)
    ensures r.id == id
  {
  }

  lemma SelectedIsDistinct(job: Job)
    requires Runnable(job)
    ensures Distinct(job.selected)
  {
  }

  /** The plan of a runnable job lists each flow with its dependencies, all planned. */
  lemma PlanIsClosed(m: VerificationMap, job: Job)
    requires IdsUnique(m.flows) && job == JobFor(m, job.selected, job.runStarted)
    requires ClosedUnder(Deps(job), Elements(job.selected))
    requires forall id :: id in job.selected ==> id in ById(m.flows)
    ensures forall k :: 0 <= k < |job.selected| ==>
      var planned := ExecutionPlan(m, job.selected).flows;
      && planned[k].id in Deps(job) && planned[k].dependsOn == Deps(job)[planned[k].id]
      && forall d :: d in planned[k].dependsOn ==> exists i :: 0 <= i < |planned| && planned[i].id == d
  {
    var planned := ExecutionPlan(m, job.selected).flows;
    forall k, d | 0 <= k < |job.selected| && d in planned[k].dependsOn
      ensures exists i :: 0 <= i < |planned| && planned[i].id == d
    {
      var id := job.selected[k];
      assert id in Elements(job.selected) && NeedsWithin(Deps(job), id, Elements(job.selected));
      assert d in Elements(Deps(job)[id]);
      var i :| 0 <= i < |job.selected| && job.selected[i] == d;
      assert planned[i].id == d;
    }
  }

  /** Main link: the results of an all-successful run pass the timing check. */
  lemma CollectedTiming(m: VerificationMap, job: Job, tr: Trace, completed: map<FlowId, FlowResult>, clock: int)
    requires WellFormed(m) && job == JobFor(m, job.selected, job.runStarted)
    requires Runnable(job) && Consistent(job, tr, map[], completed, clock)
    requires |Collect(job.selected, completed)| == |job.selected| && Successful(Collect(job.selected, completed))
    requires forall id :: id in job.selected ==> id in ById(m.flows)
    ensures TimingOk(Collect(job.selected, completed), ExecutionPlan(m, job.selected))
  {
    hide Safe, ReportsSuccess, MatchesFlow, CompletedOk, ActiveOk, Collect, AllSuccessful, Acyclic, ClosedUnder,
      TimingOk;
    CollectedSuccess(m, job, tr, completed, clock);
    PlanIsClosed(m, job);
    SuccessfulRunIsAccepted(Collect(job.selected, completed), ExecutionPlan(m, job.selected), tr, job.runStarted,
      Deps(job));
  }

  /** Which selections execute_flows refuses, in the source's order of checks. */
  method CheckSelection(m: VerificationMap, selected: seq<FlowId>, required: bool) returns (r: Outcome<EvidenceError>)
    requires WellFormed(m)
    ensures r.Pass? <==> SelectionOk(m, selected, required)
    ensures r.Fail? ==>
      r.error == if required && (m.requirements.None? || selected != RequiredIds(m)) then IncompleteRequired
                 else if selected == [] || !Distinct(selected) || !(Elements(selected) <= FlowIds(m.flows))
                 then BadSelection
                 else if !ClosedUnder(DependencyGraph(m.flows), Elements(selected)) then MissingDependencies
                 else TimeoutBudgetExceeded
  {
    hide RequiredIds, TimeoutSum, IdsUnique, CommandsUnique, DependenciesOk, RequirementOk, Distinct;
    if required {
      var needed := RequiredFlowIds(m);
      if needed.Err? || selected != needed.value {
        return Fail(IncompleteRequired);
      }
    }
    var distinct := HasNoRepeats(selected);
    if selected == [] || !distinct || !(Elements(selected) <= FlowIds(m.flows)) {
      return Fail(BadSelection);
    }
    var g := DependencyGraph(m.flows);
    ByIdAgrees(m.flows);
    var chosen := Elements(selected);
    for i := 0 to |selected|
      invariant forall k :: 0 <= k < i ==> NeedsWithin(g, selected[k], chosen)
    {
      assert selected[i] in chosen;
      if !(Elements(g[selected[i]]) <= chosen) {
        assert !NeedsWithin(g, selected[i], chosen);
        return Fail(MissingDependencies);
      }
    }
    if TimeoutSum(m.flows, chosen) > 7200 {
      return Fail(TimeoutBudgetExceeded);
    }
    r := Pass;
  }

  lemma SelectionIsKnown(m: VerificationMap, selected: seq<FlowId>, required: bool)
    requires WellFormed(m) && SelectionOk(m, selected, required)
    ensures forall id :: id in selected ==> id in ById(m.flows)
    ensures ExecutionPlan(m, selected).maxParallel >= 0 && selected != []
    ensures required ==> m.requirements.Some?
  {
    ByIdAgrees(m.flows);
    assert forall id :: id in selected ==> id in Elements(selected);
  }

  /** What the facts about a run say about its receipt. */
  ghost predicate ReceiptOf(report: Report, e: Evidence, selected: seq<FlowId>, required: bool)
    requires WellFormed(report.mapping) && SelectionOk(report.mapping, selected, required)
    requires forall id :: id in selected ==> id in ById(report.mapping.flows)
  {
    && e.schemaVersion == 1 && e.identity == report.identity
    && e.kind == (if required then RequiredFlows else NativeFlows)
    && e.state == StateOf(required, Passed(e, selected))
    && (required ==> e.requirements == report.mapping.requirements)
    && e.requested == selected && e.plan == ExecutionPlan(report.mapping, selected)
    && e.performance.Some? && IsSummary(e.results, BudgetOf(report, required), e.performance.value)
    && (forall k :: 0 <= k < |e.results| ==> DurationAgrees(e.results[k]))
    && (Passed(e, selected) ==> TimingOk(e.results, e.plan))
    && (Passed(e, selected) ==>
          forall k :: 0 <= k < |e.results| ==> MatchesFlow(e.results[k], selected[k], report.mapping))
  }

  /** A passing receipt is accepted later exactly when the clocks agree, a failing one never. */
  lemma ReceiptIsJudged(report: Report, e: Evidence, selected: seq<FlowId>, required: bool, now: int)
    requires WellFormed(report.mapping) && SelectionOk(report.mapping, selected, required)
    requires forall id :: id in selected ==> id in ById(report.mapping.flows)
    requires ReceiptOf(report, e, selected, required)
    ensures EvidenceOk(report, e, required, now) <==> Passed(e, selected) && ClocksAgree(report, e, now)
  {
    hide TimingOk, IsSummary, DurationAgrees, ExecutionPlan, RequiredIds, TimeoutSum, ClosedUnder;
    MatchIsSuccess(e.results, e.requested, report.mapping);
    hide MatchesFlow, Successful;
  }

  lemma MatchIsSuccess(results: seq<FlowResult>, ids: seq<FlowId>, m: VerificationMap)
    requires IdsUnique(m.flows)
    ensures |results| == |ids| && (forall k :: 0 <= k < |results| ==> MatchesFlow(results[k], ids[k], m)) ==>
      Successful(results)
  {
  }

  // ------------------------------------------------- from answers to results

  /** A collection is complete and successful exactly when every selected flow succeeded. */
  lemma {:induction false} CollectSucceeds(selected: seq<FlowId>, completed: map<FlowId, FlowResult>)
    ensures |Collect(selected, completed)| == |selected| && Successful(Collect(selected, completed)) <==>
      AllSucceeded(selected, completed)
  {
    CollectLength(selected, completed);
    if selected != [] {
      var front, last := selected[..|selected| - 1], selected[|selected| - 1];
      CollectSucceeds(front, completed);
      CollectLength(front, completed);
      assert selected == front + [last];
    }
  }

  lemma SuccessIsConfirmed(job: Job, tr: Trace, completed: map<FlowId, FlowResult>, clock: int, log: Log, id: FlowId)
    requires Consistent(job, tr, map[], completed, clock) && AllBacked(tr, log)
    requires id in completed && completed[id].failure.None?
    ensures completed[id].id == id && Confirmed(log, id)
  {
    hide Safe, RoundMs, Confirmed;
    assert id !in Running(tr) && Accounted(job, tr, id, completed[id]);
    var l, e :| ReportsRun(completed[id], tr, job.runStarted, l, e);
    assert Backed(log, tr[e]);
  }

  /** Every successful result reports a flow that came up and was seen to end well. */
  lemma {:induction false} CollectedConfirmed(job: Job, tr: Trace, completed: map<FlowId, FlowResult>, clock: int,
                                              log: Log, selected: seq<FlowId>)
    requires Consistent(job, tr, map[], completed, clock) && AllBacked(tr, log)
    ensures forall k :: 0 <= k < |Collect(selected, completed)| && Collect(selected, completed)[k].failure.None? ==>
      Confirmed(log, Collect(selected, completed)[k].id)
  {
    hide Confirmed, Consistent, AllBacked;
    if selected != [] {
      var last := selected[|selected| - 1];
      CollectedConfirmed(job, tr, completed, clock, log, selected[..|selected| - 1]);
      if last in completed && completed[last].failure.None? {
        SuccessIsConfirmed(job, tr, completed, clock, log, last);
      }
    }
  }

  lemma CleanEnds(tr: Trace, g: Graph, maxParallel: int, k: nat)
    requires Safe(tr, g, maxParallel) && !HasFailure(tr) && k < |tr|
    ensures tr[k].Launched? || (tr[k].Ended? && tr[k].failure.None?)
  {
    AllowedAt(tr, g, maxParallel, k);
  }

  /** In a history without failures the end of a flow is the one its result reports. */
  lemma EndIsReported(job: Job, tr: Trace, completed: map<FlowId, FlowResult>, clock: int, e: Event)
    requires Consistent(job, tr, map[], completed, clock) && !HasFailure(tr) && e in tr && !e.Launched?
    ensures e.id in completed && completed[e.id].finishedMs == RoundMs(e.at - job.runStarted)
  {
    hide Safe, RoundMs, Allowed, DurationAgrees;
    var k :| 0 <= k < |tr| && tr[k] == e;
    EventTouches(tr, Deps(job), job.maxParallel, k);
    CleanEnds(tr, Deps(job), job.maxParallel, k);
    var r := completed[e.id];
    assert e.id !in Running(tr) && Accounted(job, tr, e.id, r);
    var l, m :| ReportsRun(r, tr, job.runStarted, l, m);
    EndsOnce(tr, Deps(job), job.maxParallel, k, m);
  }

  /** A result of a history without failures reports an end that was read off the clock. */
  lemma ReportWasRead(job: Job, tr: Trace, completed: map<FlowId, FlowResult>, clock: int, log: Log, id: FlowId)
      returns (at: int)
    requires Consistent(job, tr, map[], completed, clock) && !HasFailure(tr) && AllBacked(tr, log)
    requires id in completed
    ensures Clock(Ending(id), at) in log && completed[id].finishedMs == RoundMs(at - job.runStarted)
  {
    hide Safe, RoundMs, Confirmed;
    assert id !in Running(tr) && Accounted(job, tr, id, completed[id]);
    var l, e :| ReportsRun(completed[id], tr, job.runStarted, l, e);
    assert Backed(log, tr[e]);
    at := tr[e].at;
  }

  /** Without failures the reported finishes are within the budget exactly when the clock
      readings at the ends of the flows are. */
  lemma FinishesAreEnds(job: Job, t: Terms, tr: Trace, completed: map<FlowId, FlowResult>, clock: int, log: Log)
    requires Consistent(job, tr, map[], completed, clock) && !HasFailure(tr)
    requires AllBacked(tr, log) && EndsRecorded(tr, log) && t.runStarted == job.runStarted
    ensures EndsWithinBudget(t, log) <==>
      (t.budget.Some? ==> forall id :: id in completed ==> completed[id].finishedMs <= 1000 * t.budget.value)
  {
    hide Consistent, HasFailure, AllBacked, RoundMs;
    if t.budget.Some? && EndsWithinBudget(t, log) {
      forall id | id in completed ensures completed[id].finishedMs <= 1000 * t.budget.value {
        var at := ReportWasRead(job, tr, completed, clock, log, id);
        assert Clock(Ending(id), at).use.Ending?;
      }
    } else if t.budget.Some? && forall id :: id in completed ==> completed[id].finishedMs <= 1000 * t.budget.value {
      forall a | a in log && a.Clock? && a.use.Ending? ensures RoundMs(a.at - t.runStarted) <= 1000 * t.budget.value {
        assert a == Clock(Ending(a.use.id), a.at);
        assert EndsAt(tr, a.use.id, a.at);
        var e :| e in tr && !e.Launched? && e.id == a.use.id && e.at == a.at;
        EndIsReported(job, tr, completed, clock, e);
      }
    }
  }

  lemma CollectedFinishes(selected: seq<FlowId>, completed: map<FlowId, FlowResult>, limit: int)
    requires AllSucceeded(selected, completed) && completed.Keys == Elements(selected)
    ensures (forall id :: id in completed ==> completed[id].finishedMs <= limit) <==>
      (forall k :: 0 <= k < |Collect(selected, completed)| ==> Collect(selected, completed)[k].finishedMs <= limit)
  {
    hide Collect;
    CollectSucceeds(selected, completed);
    CollectLength(selected, completed);
    if forall k :: 0 <= k < |Collect(selected, completed)| ==> Collect(selected, completed)[k].finishedMs <= limit {
      forall id | id in completed ensures completed[id].finishedMs <= limit {
        assert id in Elements(selected);
        var k :| 0 <= k < |selected| && selected[k] == id;
        assert Collect(selected, completed)[k].finishedMs <= limit;
      }
    }
  }

  ghost predicate FinishWithin(results: seq<FlowResult>, budget: Option<int>) {
    budget.Some? ==> forall k :: 0 <= k < |results| ==> results[k].finishedMs <= 1000 * budget.value
  }

  /** The answers decide whether a run's results let its receipt pass. */
  ghost predicate AnswersDecide(t: Terms, byId: map<FlowId, Flow>, log: Log, selected: seq<FlowId>,
                                results: seq<FlowResult>) {
    && (|results| == |selected| && Successful(results) <==> AllBenign(t, byId, log))
    && (AllBenign(t, byId, log) ==> (FinishWithin(results, t.budget) <==> EndsWithinBudget(t, log)))
    && (forall k :: 0 <= k < |results| && results[k].failure.None? ==> Confirmed(log, results[k].id))
  }

  /** The end of a scheduler run. */
  lemma RunIsDecided(job: Job, t: Terms, tr: Trace, completed: map<FlowId, FlowResult>, clock: int, log: Log)
    requires Consistent(job, tr, map[], completed, clock) && Recorded(t, job.byId, tr, log)
    requires t.runStarted == job.runStarted
    requires AllBenign(t, job.byId, log) <==> AllSucceeded(job.selected, completed)
    requires AllBenign(t, job.byId, log) ==> completed.Keys == Elements(job.selected) && !HasFailure(tr)
    ensures AnswersDecide(t, job.byId, log, job.selected, Collect(job.selected, completed))
  {
    hide Consistent, AllBenign, HasFailure, AllBacked, EndsRecorded, Collect, Successful, AllSucceeded, Confirmed,
      EndsWithinBudget;
    CollectSucceeds(job.selected, completed);
    CollectedConfirmed(job, tr, completed, clock, log, job.selected);
    if AllBenign(t, job.byId, log) {
      FinishesAreEnds(job, t, tr, completed, clock, log);
      if t.budget.Some? {
        CollectedFinishes(job.selected, completed, 1000 * t.budget.value);
      }
    }
  }

  /** What the two timing checks need to know about the results of a run. */
  lemma ResultsAreTimed(m: VerificationMap, job: Job, tr: Trace, completed: map<FlowId, FlowResult>, clock: int)
    requires WellFormed(m) && job == JobFor(m, job.selected, job.runStarted)
    requires Runnable(job) && Consistent(job, tr, map[], completed, clock)
    requires forall id :: id in job.selected ==> id in ById(m.flows)
    ensures var results := Collect(job.selected, completed);
      && |results| <= |job.selected| && clock >= job.runStarted
      && (forall k :: 0 <= k < |results| ==> results[k].finishedMs <= RoundMs(clock - job.runStarted))
      && (forall k :: 0 <= k < |results| ==> DurationAgrees(results[k]))
      && (|results| == |job.selected| && Successful(results) ==>
            TimingOk(results, ExecutionPlan(m, job.selected))
            && forall k :: 0 <= k < |results| ==> MatchesFlow(results[k], job.selected[k], m))
  {
    hide Runnable, Consistent, TimingOk, DurationAgrees, MatchesFlow, RoundMs, Collect;
    var results := Collect(job.selected, completed);
    ClockHasStarted(job, tr, map[], completed, clock);
    CollectedWithinClock(job, tr, completed, clock, job.selected);
    CollectLength(job.selected, completed);
    CollectedDurations(job, tr, completed, clock, job.selected);
    if |results| == |job.selected| && Successful(results) {
      SelectedIsDistinct(job);
      CollectedSuccess(m, job, tr, completed, clock);
      CollectedTiming(m, job, tr, completed, clock);
    }
  }

  /** One scheduler run, with what the two timing checks need to know about it. Its
      results are decided by what the world answered. */
  method RunPlan(m: VerificationMap, selected: seq<FlowId>, runStarted: int, budget: Option<int>, world: World)
      returns (results: seq<FlowResult>, ghost elapsed: int, ghost log: Log)
    requires WellFormed(m) && Runnable(JobFor(m, selected, runStarted))
    requires forall id :: id in selected ==> id in ById(m.flows)
    ensures |results| <= |selected|
    ensures WellAsked(Terms(world, runStarted, budget), log)
    ensures AnswersDecide(Terms(world, runStarted, budget), ById(m.flows), log, selected, results)
    ensures elapsed >= 0 && elapsed == ClockAfter(runStarted, log) - runStarted
    ensures forall k :: 0 <= k < |results| ==> results[k].finishedMs <= RoundMs(elapsed)
    ensures forall k :: 0 <= k < |results| ==> DurationAgrees(results[k])
    ensures |results| == |selected| && Successful(results) ==> TimingOk(results, ExecutionPlan(m, selected))
    ensures |results| == |selected| && Successful(results) ==>
      forall k :: 0 <= k < |results| ==> MatchesFlow(results[k], selected[k], m)
  {
    hide Runnable, Consistent, TimingOk, DurationAgrees, AllBenign, WellAsked, AnswersDecide, Recorded, PastBudget,
      AllJustified, AllSucceeded, HasFailure, ClockAfter, MatchesFlow, RoundMs, Collect;
    var scheduler := new Scheduler(JobFor(m, selected, runStarted), budget, world);
    var outcome := scheduler.Run();
    results := outcome.results;
    elapsed, log := scheduler.clock - runStarted, scheduler.log;
    var job, trace, completed, clock := scheduler.job, scheduler.trace, scheduler.completed, scheduler.clock;
    RunIsDecided(job, scheduler.Asking(), trace, completed, clock, log);
    ResultsAreTimed(m, job, trace, completed, clock);
  }

  lemma SummaryWithin(results: seq<FlowResult>, budget: Option<int>, p: Performance)
    requires results != [] && IsSummary(results, budget, p)
    ensures p.withinBudget <==> FinishWithin(results, budget)
  {
  }

  /** Every answer was benign, the ends lie within the active budget, and the worktree
      is unchanged: what a passing receipt stands for. */
  ghost predicate GoodRun(t: Terms, byId: map<FlowId, Flow>, log: Log, around: Surroundings) {
    AllBenign(t, byId, log) && EndsWithinBudget(t, log) && around.worktreeUnchanged
  }

  lemma GoodRunPasses(t: Terms, byId: map<FlowId, Flow>, log: Log, around: Surroundings, selected: seq<FlowId>,
                      results: seq<FlowResult>, p: Performance)
    requires AnswersDecide(t, byId, log, selected, results) && selected != [] && IsSummary(results, t.budget, p)
    ensures GoodRun(t, byId, log, around) <==>
      |results| == |selected| && around.worktreeUnchanged && p.withinBudget && Successful(results)
    ensures forall k :: 0 <= k < |results| && results[k].failure.None? ==> Confirmed(log, results[k].id)
  {
    hide AllBenign, EndsWithinBudget, IsSummary, FinishWithin, Confirmed, Successful;
    if results != [] {
      SummaryWithin(results, t.budget, p);
    }
  }

  /** What the scheduler's questions are about in execute_flows. */
  function TermsOf(report: Report, required: bool, around: Surroundings): Terms {
    Terms(around.world, around.runStarted, if required then report.budgetSeconds else None)
  }

  /** execute_flows. Its receipt passes exactly when the run it stands for was good, and
      then every selected flow came up and was seen to end with code 0 and no survivors.
      Neither the scheduler nor the two timing checks can raise an error on a run's own
      results, and a passing receipt is later accepted by check_flow_evidence, under the
      same report and flag, exactly when the clocks agree. */
  method ExecuteFlows(report: Report, selected: seq<FlowId>, required: bool, around: Surroundings)
      returns (r: Result<Evidence, EvidenceError>, ghost elapsed: int, ghost log: Log)
    requires Validated(report.mapping)
    ensures r.Ok? <==> SelectionOk(report.mapping, selected, required)
    ensures r.Err? ==> !r.error.TimingRejected?
    ensures r.Ok? ==> r.value.requested == selected && r.value.identity == report.identity
    ensures r.Ok? ==> (
      && r.value.startedAt == around.startedAt && r.value.finishedAt == around.finishedAt
      && r.value.worktreeUnchanged == around.worktreeUnchanged)
    ensures r.Ok? ==> WellAsked(TermsOf(report, required, around), log)
    ensures r.Ok? ==> (
      r.value.state ==
      StateOf(required, GoodRun(TermsOf(report, required, around), ById(report.mapping.flows), log, around)))
    ensures r.Ok? ==> (
      Passed(r.value, selected) <==>
      GoodRun(TermsOf(report, required, around), ById(report.mapping.flows), log, around))
    ensures r.Ok? && Passed(r.value, selected) ==> forall id :: id in selected ==> Confirmed(log, id)
    ensures r.Ok? && Passed(r.value, selected) ==>
      forall now :: EvidenceOk(report, r.value, required, now) <==> ClocksAgree(report, r.value, now)
    ensures r.Ok? ==> elapsed == ClockAfter(around.runStarted, log) - around.runStarted
    ensures r.Ok? && 1000 * (r.value.finishedAt - r.value.startedAt) >= elapsed ==>
      forall now :: ClocksAgree(report, r.value, now) <==> TimelyAt(report, r.value, now)
    ensures r.Ok? && !Passed(r.value, selected) ==> forall now :: !EvidenceOk(report, r.value, required, now)
  {
    hide Runnable, Consistent, TimingOk, Acyclic, IsSummary, DurationAgrees, RequiredIds, TimeoutSum, CommandsUnique,
      DependenciesOk, RequirementOk, MatchesFlow, ClosedUnder, BudgetOk, EvidenceOk, ClocksAgree, TimelyAt, RoundMs,
      SelectionOk, ById, ExecutionPlan, StateOf, WellAsked, AnswersDecide, GoodRun, ClockAfter, Confirmed;
    elapsed, log := 0, [];
    var m := report.mapping;
    var check := CheckSelection(m, selected, required);
    if check.Fail? {
      return Err(check.error), elapsed, log;
    }
    SelectionIsKnown(m, selected, required);
    var plan := ExecutionPlan(m, selected);
    SelectionIsRunnable(m, selected, required, around.runStarted);
    var results;
    results, elapsed, log := RunPlan(m, selected, around.runStarted, BudgetOf(report, required), around.world);
    var summary := PerformanceSummary(results, BudgetOf(report, required));
    if summary.Err? {
      return Err(TimingRejected), elapsed, log;
    }
    var passed := |results| == |selected| && around.worktreeUnchanged && summary.value.withinBudget
      && forall k :: 0 <= k < |results| ==> results[k].failure.None?;
    if passed {
      var timing := ValidateExecutionTiming(results, plan);
      if timing.Fail? {
        return Err(TimingRejected), elapsed, log;
      }
    }
    r := Ok(Evidence(1, report.identity, if required then RequiredFlows else NativeFlows, StateOf(required, passed),
                     if required then m.requirements else None, around.startedAt, around.finishedAt, selected, plan,
                     results, around.worktreeUnchanged, Some(summary.value)));
    GoodRunPasses(TermsOf(report, required, around), ById(m.flows), log, around, selected, results, summary.value);
    forall now ensures EvidenceOk(report, r.value, required, now) <==> passed && ClocksAgree(report, r.value, now) {
      ReceiptIsJudged(report, r.value, selected, required, now);
    }
    if passed {
      PassedIsConfirmed(m, selected, results, log);
    }
    if 1000 * (r.value.finishedAt - r.value.startedAt) >= elapsed {
      forall now ensures ClocksAgree(report, r.value, now) <==> TimelyAt(report, r.value, now) {
        WallTimeSuffices(report, r.value, required, elapsed, now);
      }
    }
  }

  lemma PassedIsConfirmed(m: VerificationMap, selected: seq<FlowId>, results: seq<FlowResult>, log: Log)
    requires IdsUnique(m.flows) && |results| == |selected|
    requires forall k :: 0 <= k < |results| ==> MatchesFlow(results[k], selected[k], m)
    requires forall k :: 0 <= k < |results| && results[k].failure.None? ==> Confirmed(log, results[k].id)
    ensures forall id :: id in selected ==> Confirmed(log, id)
  {
    hide Confirmed;
    forall id | id in selected ensures Confirmed(log, id) {
      var k :| 0 <= k < |selected| && selected[k] == id;
      assert MatchesFlow(results[k], selected[k], m) && Confirmed(log, results[k].id);
    }
  }

  /** check_flow_evidence */
  method CheckFlowEvidence(report: Report, e: Evidence, required: bool, now: int) returns (r: Outcome<EvidenceError>)
    requires WellFormed(report.mapping)
    ensures r.Pass? <==> EvidenceOk(report, e, required, now)
    ensures r == Fail(Stale) <==> e.identity != report.identity
    ensures r == Fail(BadTimes) <==> e.identity == report.identity && !TimelyAt(report, e, now)
    ensures r == Fail(IncompleteRequired) <==>
      && e.identity == report.identity && TimelyAt(report, e, now) && required
      && (report.mapping.requirements.None? || e.requested != RequiredIds(report.mapping)
          || e.requirements != report.mapping.requirements)
  {
    hide TimingOk, DurationAgrees, RequiredIds, CommandsUnique, DependenciesOk, RequirementOk, FlowFieldsOk, IsSummary;
    var m := report.mapping;
    if e.identity != report.identity {
      return Fail(Stale);
    }
    if !(e.startedAt <= e.finishedAt <= now) || now - e.startedAt > report.maxAgeSeconds * 1_000_000 {
      return Fail(BadTimes);
    }
    if required {
      var needed := RequiredFlowIds(m);
      if needed.Err? || e.requested != needed.value || e.requirements != m.requirements {
        return Fail(IncompleteRequired);
      }
    }
    var byId := ById(m.flows);
    var distinct := HasNoRepeats(e.requested);
    if e.schemaVersion != 1 || e.kind != (if required then RequiredFlows else NativeFlows)
      || e.state != StateOf(required, true)
      || !e.worktreeUnchanged || e.requested == [] || !distinct || |e.results| != |e.requested|
    {
      return Fail(NotSuccessful);
    }
    if exists k :: 0 <= k < |e.requested| && e.requested[k] !in byId {
      return Fail(NotSuccessful);
    }
    if e.plan != ExecutionPlan(m, e.requested) {
      return Fail(NotSuccessful);
    }
    for k := 0 to |e.results|
      invariant forall j :: 0 <= j < k ==> MatchesFlow(e.results[j], e.requested[j], m)
    {
      var result, id := e.results[k], e.requested[k];
      if result.id != id || result.argv != byId[id].argv || result.exitCode != Some(0)
        || result.failure.Some? || result.forcedCleanup
      {
        assert !MatchesFlow(e.results[k], e.requested[k], m);
        return Fail(Mismatch);
      }
    }
    r := CheckTimingAgain(report, e, required);
  }

  /** The last part of check_flow_evidence: recompute the summary and the timing. */
  method CheckTimingAgain(report: Report, e: Evidence, required: bool) returns (r: Outcome<EvidenceError>)
    requires e.plan.maxParallel >= 0
    ensures r.Pass? || r == Fail(TimingRejected) || r == Fail(ClockDisagrees)
    ensures r.Pass? <==>
      && (forall k :: 0 <= k < |e.results| ==> DurationAgrees(e.results[k]))
      && TimingOk(e.results, e.plan)
      && e.performance.Some?
      && IsSummary(e.results, BudgetOf(report, required), e.performance.value)
      && e.performance.value.withinBudget
      && 1000 * e.performance.value.activeMs <= (e.finishedAt - e.startedAt) + 100_000
  {
    hide TimingOk, DurationAgrees, IsSummary;
    var summary := PerformanceSummary(e.results, BudgetOf(report, required));
    if summary.Err? {
      return Fail(TimingRejected);
    }
    if e.performance.Some? && IsSummary(e.results, BudgetOf(report, required), e.performance.value) {
      SummaryIsUnique(e.results, BudgetOf(report, required), e.performance.value, summary.value);
    }
    var timing := ValidateExecutionTiming(e.results, e.plan);
    if timing.Fail? {
      return Fail(TimingRejected);
    }
    if 1000 * summary.value.activeMs > (e.finishedAt - e.startedAt) + 100_000 {
      return Fail(ClockDisagrees);
    }
    if e.performance != Some(summary.value) || !summary.value.withinBudget {
      return Fail(ClockDisagrees);
    }
    r := Pass;
  }

  /** A receipt accepted as required covers exactly the least dependency-closed set of
      flows that contains every requirement's flows, in map order, each once. */
  lemma RequiredPassCoversClosure(report: Report, e: Evidence, now: int, s: set<FlowId>)
    requires WellFormed(report.mapping) && EvidenceOk(report, e, true, now)
    ensures report.mapping.requirements.Some?
    ensures Roots(report.mapping.requirements.value) <= Elements(e.requested)
    ensures ClosedUnder(DependencyGraph(report.mapping.flows), Elements(e.requested))
    ensures Roots(report.mapping.requirements.value) <= s && ClosedUnder(DependencyGraph(report.mapping.flows), s)
      ==> Elements(e.requested) <= s
    ensures forall i, j :: 0 <= i < j < |e.requested| ==> Precedes(report.mapping.flows, e.requested[i], e.requested[j])
  {
    hide TimingOk, DurationAgrees, IsSummary, ClosedUnder, Rank, RequiredIds, MatchesFlow;
    RequiredIdsAreLeast(report.mapping, s);
    RequiredIdsAreOrdered(report.mapping);
  }
}
