/** Rounded flow timings and the checks that judge them again from a receipt
    (project_contract.py: flow_result, performance_summary,
    validate_execution_timing). Clock readings are nanoseconds, reported offsets
    are whole milliseconds. */
module FlowTiming {
  import opened Common
  import opened FlowGraph

  const MILLISECOND: int := 1_000_000
  const SECOND: int := 1_000_000_000

  /** round(seconds, 3), ties to the even millisecond. */
  function RoundMs(t: int): int {
    var ms, rest := t / MILLISECOND, t % MILLISECOND;
    ms + (if 2 * rest < MILLISECOND || (2 * rest == MILLISECOND && ms % 2 == 0) then 0 else 1)
  }

  lemma RoundsToNearest(t: int)
    ensures -MILLISECOND <= 2 * (RoundMs(t) * MILLISECOND - t) <= MILLISECOND
  {
  }

  lemma RoundIsMonotone(a: int, b: int)
    requires a <= b
    ensures RoundMs(a) <= RoundMs(b)
  {
    assert a / MILLISECOND <= b / MILLISECOND;
  }

  /** Offsets that are rounded separately differ from the rounded duration by at
      most one millisecond. */
  lemma RoundedDuration(start: int, started: int, finished: int)
    ensures -1 <= (RoundMs(finished - start) - RoundMs(started - start)) - RoundMs(finished - started) <= 1
  {
    RoundsToNearest(finished - start);
    RoundsToNearest(started - start);
    RoundsToNearest(finished - started);
    var a, b, c := RoundMs(finished - start), RoundMs(started - start), RoundMs(finished - started);
    assert -3 * MILLISECOND <= 2 * ((a - b - c) * MILLISECOND) <= 3 * MILLISECOND;
  }

  lemma RoundedRun(runStarted: int, started: int, finished: int)
    requires runStarted <= started <= finished
    ensures 0 <= RoundMs(started - runStarted) <= RoundMs(finished - runStarted)
    ensures 0 <= RoundMs(finished - started)
    ensures -1 <= (RoundMs(finished - runStarted) - RoundMs(started - runStarted)) - RoundMs(finished - started) <= 1
  {
    RoundedDuration(runStarted, started, finished);
    RoundIsMonotone(started - runStarted, finished - runStarted);
    RoundIsMonotone(0, started - runStarted);
    RoundIsMonotone(0, finished - started);
  }

  datatype Failure =
    | CommandFailed | TimedOut | NativeCleanupIncomplete | CouldNotStart
    | BudgetExceeded | CancelledAfterFailure | CleanupFailed | Interrupted

  datatype FlowResult = FlowResult(
    id: FlowId, argv: seq<string>, exitCode: Option<int>, failure: Option<Failure>,
    forcedCleanup: bool, startedMs: int, finishedMs: int, durationMs: int)

  datatype PlannedFlow = PlannedFlow(id: FlowId, dependsOn: seq<FlowId>)

  datatype Plan = Plan(maxParallel: int, flows: seq<PlannedFlow>)

  datatype TimingError =
    | NegativeTiming | FinishesBeforeStart | DurationDiffers
    | ResultsDiffer | DependencyOverlap | TooParallel

  datatype Performance = Performance(
    activeMs: int, budgetSeconds: Option<int>, withinBudget: bool, totalFlowMs: int)

  // ------------------------------------------------------ performance_summary

  ghost predicate DurationAgrees(r: FlowResult) {
    && r.durationMs >= 0 && r.startedMs >= 0 && r.finishedMs >= 0
    && r.startedMs <= r.finishedMs
    && -2 <= (r.finishedMs - r.startedMs) - r.durationMs <= 2
  }

  ghost predicate IsLatestFinish(results: seq<FlowResult>, latest: int) {
    && (results == [] ==> latest == 0)
    && (results != [] ==> exists k :: 0 <= k < |results| && results[k].finishedMs == latest)
    && (forall k :: 0 <= k < |results| ==> results[k].finishedMs <= latest)
  }

  function TotalMs(results: seq<FlowResult>): int {
    if results == [] then 0 else TotalMs(results[..|results| - 1]) + results[|results| - 1].durationMs
  }

  ghost predicate IsSummary(results: seq<FlowResult>, budget: Option<int>, p: Performance) {
    && IsLatestFinish(results, p.activeMs)
    && p.budgetSeconds == budget
    && p.withinBudget == (budget.None? || p.activeMs <= 1000 * budget.value)
    && p.totalFlowMs == TotalMs(results)
  }

  /** Two summaries of the same results are the same summary. */
  lemma SummaryIsUnique(results: seq<FlowResult>, budget: Option<int>, p: Performance, q: Performance)
    requires IsSummary(results, budget, p) && IsSummary(results, budget, q)
    ensures p == q
  {
    if results != [] {
      var j :| 0 <= j < |results| && results[j].finishedMs == p.activeMs;
      var k :| 0 <= k < |results| && results[k].finishedMs == q.activeMs;
      assert results[j].finishedMs <= q.activeMs && results[k].finishedMs <= p.activeMs;
    }
  }

  method PerformanceSummary(results: seq<FlowResult>, budget: Option<int>)
      returns (r: Result<Performance, TimingError>)
    ensures r.Ok? <==> forall k :: 0 <= k < |results| ==> DurationAgrees(results[k])
    ensures r.Ok? ==> IsSummary(results, budget, r.value)
  {
    var active, total := 0, 0;
    for i := 0 to |results|
      invariant forall k :: 0 <= k < i ==> DurationAgrees(results[k])
      invariant IsLatestFinish(results[..i], active)
      invariant total == TotalMs(results[..i])
    {
      var row := results[i];
      if row.durationMs < 0 || row.startedMs < 0 || row.finishedMs < 0 {
        return Err(NegativeTiming);
      }
      if row.finishedMs < row.startedMs {
        return Err(FinishesBeforeStart);
      }
      var measured := row.finishedMs - row.startedMs;
      if measured - row.durationMs > 2 || row.durationMs - measured > 2 {
        return Err(DurationDiffers);
      }
      assert results[..i + 1] == results[..i] + [row];
      if i == 0 || row.finishedMs > active {
        active := row.finishedMs;
        assert results[..i + 1][i].finishedMs == active;
      } else {
        var k :| 0 <= k < i && results[..i][k].finishedMs == active;
        assert results[..i + 1][k].finishedMs == active;
      }
      total := total + row.durationMs;
    }
    assert results[..|results|] == results;
    var within := budget.None? || active <= 1000 * budget.value;
    r := Ok(Performance(active, budget, within, total));
  }

  // ------------------------------------------------ validate_execution_timing

  /** by_id[id]: the last result that carries the id. */
  function ResultFor(results: seq<FlowResult>, id: FlowId): (r: Option<FlowResult>)
    ensures r.Some? ==> r.value in results && r.value.id == id
    ensures r.None? ==> forall k :: 0 <= k < |results| ==> results[k].id != id
  {
    if results == [] then None
    else if results[|results| - 1].id == id then Some(results[|results| - 1])
    else ResultFor(results[..|results| - 1], id)
  }

  lemma {:induction false} ResultForUnique(results: seq<FlowResult>, k: nat)
    requires k < |results|
    requires forall i, j :: 0 <= i < j < |results| ==> results[i].id != results[j].id
    ensures ResultFor(results, results[k].id) == Some(results[k])
  {
    if k < |results| - 1 {
      ResultForUnique(results[..|results| - 1], k);
    }
  }

  /** Results that span the rounded start of result i. */
  ghost function Overlapping(results: seq<FlowResult>, i: nat): set<nat>
    requires i < |results|
  {
    set j: nat | j < |results| && results[j].startedMs <= results[i].startedMs < results[j].finishedMs
  }

  ghost predicate FollowsDependencies(results: seq<FlowResult>, planned: PlannedFlow) {
    var mine := ResultFor(results, planned.id);
    mine.Some? && forall d :: d in planned.dependsOn ==>
      var theirs := ResultFor(results, d);
      theirs.Some? && theirs.value.finishedMs <= mine.value.startedMs
  }

  ghost predicate SameIds(results: seq<FlowResult>, planned: seq<PlannedFlow>) {
    |results| == |planned| && forall i :: 0 <= i < |results| ==> results[i].id == planned[i].id
  }

  /** The timing a receipt must show: exactly the planned flows, none starting
      before its dependencies finished, never more than max_parallel at once. */
  ghost predicate TimingOk(results: seq<FlowResult>, plan: Plan) {
    && SameIds(results, plan.flows)
    && (forall k :: 0 <= k < |plan.flows| ==> FollowsDependencies(results, plan.flows[k]))
    && (forall i: nat :: i < |results| ==> |Overlapping(results, i)| <= plan.maxParallel)
  }

  method ValidateExecutionTiming(results: seq<FlowResult>, plan: Plan) returns (r: Outcome<TimingError>)
    requires plan.maxParallel >= 0
    ensures r.Pass? <==> TimingOk(results, plan)
  {
    var planned := plan.flows;
    if |results| != |planned| || exists i :: 0 <= i < |results| && results[i].id != planned[i].id {
      return Fail(ResultsDiffer);
    }
    for i := 0 to |planned|
      invariant forall k :: 0 <= k < i ==> FollowsDependencies(results, planned[k])
    {
      var flow := planned[i];
      assert results[i].id == flow.id;
      var mine := ResultFor(results, flow.id);
      for j := 0 to |flow.dependsOn|
        invariant forall d :: d in flow.dependsOn[..j] ==>
          ResultFor(results, d).Some? && ResultFor(results, d).value.finishedMs <= mine.value.startedMs
      {
        var theirs := ResultFor(results, flow.dependsOn[j]);
        if theirs.None? || theirs.value.finishedMs > mine.value.startedMs {
          assert flow.dependsOn[j] in flow.dependsOn && !FollowsDependencies(results, flow);
          return Fail(DependencyOverlap);
        }
      }
      assert flow.dependsOn[..|flow.dependsOn|] == flow.dependsOn;
    }
    var peak := PeakOverlap(results);
    if peak > plan.maxParallel {
      return Fail(TooParallel);
    }
    r := Pass;
  }

  method PeakOverlap(results: seq<FlowResult>) returns (peak: nat)
    ensures forall k: nat :: k < |results| ==> |Overlapping(results, k)| <= peak
    ensures peak == 0 || exists k: nat :: k < |results| && |Overlapping(results, k)| == peak
  {
    peak := 0;
    for i := 0 to |results|
      invariant forall k: nat :: k < i ==> |Overlapping(results, k)| <= peak
      invariant peak == 0 || exists k: nat :: k < i && |Overlapping(results, k)| == peak
    {
      var count := CountOverlapping(results, i);
      if count > peak {
        peak := count;
      }
    }
  }

  method CountOverlapping(results: seq<FlowResult>, i: nat) returns (count: nat)
    requires i < |results|
    ensures count == |Overlapping(results, i)|
  {
    count := 0;
    ghost var found: set<nat> := {};
    for j := 0 to |results|
      invariant found == set k: nat | k < j && k in Overlapping(results, i)
      invariant count == |found|
    {
      if results[j].startedMs <= results[i].startedMs < results[j].finishedMs {
        count := count + 1;
        found := found + {j};
      }
    }
    assert found == Overlapping(results, i);
  }
}
