/** The bounded-parallel scheduler (project_contract.py, execute_flow_plan). Process
    exits, launch failures, surviving process groups, interrupts and the passing of
    time are the answers of an arbitrary world; the log keeps what was asked. */
module FlowScheduler {
  import opened Common
  import opened FlowGraph
  import opened FlowTiming
  import opened FlowTrace
  import opened FlowWorld
  import opened FlowRecord

  /** Start reading of each active flow. */
  type ActiveFlows = map<FlowId, int>

  /** The fixed inputs of one run. */
  datatype Job = Job(byId: map<FlowId, Flow>, selected: seq<FlowId>, maxParallel: int, runStarted: int)

  ghost function Deps(job: Job): Graph {
    map id | id in job.byId :: job.byId[id].dependsOn
  }

  /** A selection of mapped flows that contains its own dependencies. */
  ghost predicate Runnable(job: Job) {
    && job.maxParallel >= 1
    && Distinct(job.selected) && Elements(job.selected) <= job.byId.Keys
    && ClosedUnder(Deps(job), Elements(job.selected))
    && Acyclic(Deps(job))
    && (forall id :: id in job.byId ==> job.byId[id].timeoutSeconds >= 1)
  }

  ghost predicate ReportsSkip(r: FlowResult, tr: Trace, runStarted: int) {
    && r.failure.Some? && r.exitCode.None? && DurationAgrees(r)
    && exists e :: e in tr && e.Skipped? && e.id == r.id && e.failure == r.failure
                   && r.finishedMs == RoundMs(e.at - runStarted)
  }

  /** Result r of flow id is backed by the history. */
  ghost predicate Accounted(job: Job, tr: Trace, id: FlowId, r: FlowResult) {
    && r.id == id && id in job.byId && r.argv == job.byId[id].argv
    && (r.failure.None? ==> r.exitCode == Some(0) && !r.forcedCleanup)
    && ((exists l, e :: ReportsRun(r, tr, job.runStarted, l, e)) || ReportsSkip(r, tr, job.runStarted))
  }

  ghost predicate TimesOk(job: Job, tr: Trace, clock: int) {
    (forall e :: e in tr ==> job.runStarted <= e.at <= clock) && job.runStarted <= clock
  }

  ghost predicate ActiveOk(tr: Trace, active: ActiveFlows) {
    active.Keys == Running(tr) && forall id :: id in active ==> Launched(id, active[id]) in tr
  }

  /** Every touched flow that is not running has its backed result. An interrupt may
      leave an early result for a flow that is still running. */
  ghost predicate CompletedOk(job: Job, tr: Trace, completed: map<FlowId, FlowResult>) {
    && Touched(tr) - Running(tr) <= completed.Keys <= Touched(tr)
    && forall id :: id in completed && id !in Running(tr) ==> Accounted(job, tr, id, completed[id])
  }

  /** What holds between any two steps of the scheduler. */
  ghost predicate Consistent(job: Job, tr: Trace, active: ActiveFlows, completed: map<FlowId, FlowResult>, clock: int) {
    && Safe(tr, Deps(job), job.maxParallel)
    && TimesOk(job, tr, clock)
    && ActiveOk(tr, active)
    && CompletedOk(job, tr, completed)
    && Touched(tr) <= Elements(job.selected)
  }

  lemma ReportsRunGrows(r: FlowResult, tr: Trace, e: Event, runStarted: int, l: int, m: int)
    requires ReportsRun(r, tr, runStarted, l, m)
    ensures ReportsRun(r, tr + [e], runStarted, l, m)
  {
  }

  lemma AccountedGrows(job: Job, tr: Trace, e: Event, id: FlowId, r: FlowResult)
    requires Accounted(job, tr, id, r)
    ensures Accounted(job, tr + [e], id, r)
  {
    if l, m :| ReportsRun(r, tr, job.runStarted, l, m) {
      ReportsRunGrows(r, tr, e, job.runStarted, l, m);
    } else {
      var skip :| skip in tr && skip.Skipped? && skip.id == r.id && skip.failure == r.failure
        && r.finishedMs == RoundMs(skip.at - job.runStarted);
      assert skip in tr + [e];
    }
  }

  /** An event at the present moment keeps times in order. */
  lemma TimesGrow(job: Job, tr: Trace, e: Event, clock: int)
    requires TimesOk(job, tr, clock) && e.at == clock
    ensures TimesOk(job, tr + [e], clock)
    ensures tr != [] ==> tr[|tr| - 1].at <= e.at
  {
    if tr != [] {
      assert tr[|tr| - 1] in tr;
    }
  }

  lemma CompletedGrows(job: Job, tr: Trace, e: Event, completed: map<FlowId, FlowResult>)
    requires CompletedOk(job, tr, completed) && e.Launched? && e.id !in Touched(tr)
    ensures CompletedOk(job, tr + [e], completed)
  {
    AppendRunning(tr, e);
    RunningWasTouched(tr);
    forall x | x in completed && x !in Running(tr + [e]) ensures Accounted(job, tr + [e], x, completed[x]) {
      AccountedGrows(job, tr, e, x, completed[x]);
    }
  }

  lemma CompletedGains(job: Job, tr: Trace, e: Event, completed: map<FlowId, FlowResult>, r: FlowResult)
    requires CompletedOk(job, tr, completed) && !e.Launched? && e.id == r.id
    requires e.Ended? ==> e.id in Touched(tr)
    requires Accounted(job, tr + [e], r.id, r)
    ensures CompletedOk(job, tr + [e], completed[r.id := r])
  {
    AppendRunning(tr, e);
    RunningWasTouched(tr);
    var completed' := completed[r.id := r];
    forall x | x in completed' && x !in Running(tr + [e]) ensures Accounted(job, tr + [e], x, completed'[x]) {
      if x != r.id {
        AccountedGrows(job, tr, e, x, completed[x]);
      }
    }
  }

  lemma ActiveGrows(tr: Trace, e: Event, active: ActiveFlows)
    requires ActiveOk(tr, active)
    requires e.Ended? ==> e.id in active
    ensures ActiveOk(tr + [e], match e
                               case Launched(id, at) => active[id := at]
                               case Ended(id, _, _) => active - {id}
                               case Skipped(_, _, _) => active)
  {
    AppendRunning(tr, e);
    assert e in tr + [e] && forall x :: x in tr ==> x in tr + [e];
  }

  lemma KeepsTick(job: Job, tr: Trace, active: ActiveFlows, completed: map<FlowId, FlowResult>, clock: int, later: int)
    requires Consistent(job, tr, active, completed, clock) && clock <= later
    ensures Consistent(job, tr, active, completed, later)
  {
  }

  lemma ConsistentFacts(job: Job, tr: Trace, active: ActiveFlows, completed: map<FlowId, FlowResult>, clock: int)
    requires Runnable(job) && Consistent(job, tr, active, completed, clock)
    ensures active.Keys == Running(tr) <= Touched(tr) <= Elements(job.selected) <= job.byId.Keys
    ensures Touched(tr) - Running(tr) <= completed.Keys <= Touched(tr)
    ensures CompletedOk(job, tr, completed)
  {
    RunningWasTouched(tr);
  }

  lemma ClockHasStarted(job: Job, tr: Trace, active: ActiveFlows, completed: map<FlowId, FlowResult>, clock: int)
    requires Consistent(job, tr, active, completed, clock)
    ensures job.runStarted <= clock
  {
  }

  lemma KeepsLaunch(job: Job, tr: Trace, active: ActiveFlows, completed: map<FlowId, FlowResult>, clock: int,
                    id: FlowId)
    requires Consistent(job, tr, active, completed, clock)
    requires id in job.selected && id in job.byId && id !in Touched(tr) && |active| < job.maxParallel
    requires !HasFailure(tr) && forall d :: d in job.byId[id].dependsOn ==> Succeeded(tr, d)
    ensures Consistent(job, tr + [Launched(id, clock)], active[id := clock], completed, clock)
  {
    var e := Launched(id, clock);
    TimesGrow(job, tr, e, clock);
    assert |active.Keys| == |active|;
    assert Allowed(tr, e, Deps(job), job.maxParallel);
    AppendSafe(tr, e, Deps(job), job.maxParallel);
    ActiveGrows(tr, e, active);
    CompletedGrows(job, tr, e, completed);
    AppendRunning(tr, e);
  }

  /** A result for the present moment of a flow launched at `started`. */
  ghost predicate ResultNow(job: Job, r: FlowResult, started: int, clock: int) {
    && r.id in job.byId && r.argv == job.byId[r.id].argv
    && (r.failure.None? ==> r.exitCode == Some(0) && !r.forcedCleanup)
    && r.startedMs == RoundMs(started - job.runStarted)
    && r.finishedMs == RoundMs(clock - job.runStarted)
    && r.durationMs == RoundMs(clock - started)
  }

  lemma EndIsAccounted(job: Job, tr: Trace, r: FlowResult, started: int, clock: int)
    requires Launched(r.id, started) in tr && ResultNow(job, r, started, clock)
    ensures Accounted(job, tr + [Ended(r.id, clock, r.failure)], r.id, r)
  {
    var l :| 0 <= l < |tr| && tr[l] == Launched(r.id, started);
    assert ReportsRun(r, tr + [Ended(r.id, clock, r.failure)], job.runStarted, l, |tr|);
  }

  lemma KeepsEnd(job: Job, tr: Trace, active: ActiveFlows, completed: map<FlowId, FlowResult>, clock: int,
                 r: FlowResult)
    requires Consistent(job, tr, active, completed, clock)
    requires r.id in active && ResultNow(job, r, active[r.id], clock)
    ensures Consistent(job, tr + [Ended(r.id, clock, r.failure)], active - {r.id}, completed[r.id := r], clock)
  {
    var e := Ended(r.id, clock, r.failure);
    TimesGrow(job, tr, e, clock);
    assert Allowed(tr, e, Deps(job), job.maxParallel);
    AppendSafe(tr, e, Deps(job), job.maxParallel);
    ActiveGrows(tr, e, active);
    RunningWasTouched(tr);
    EndIsAccounted(job, tr, r, active[r.id], clock);
    CompletedGains(job, tr, e, completed, r);
    AppendRunning(tr, e);
  }

  lemma SkipIsAccounted(job: Job, tr: Trace, r: FlowResult, clock: int)
    requires r.id in job.byId && r.argv == job.byId[r.id].argv
    requires r.failure.Some? && r.exitCode.None? && DurationAgrees(r)
    requires r.finishedMs == RoundMs(clock - job.runStarted)
    ensures Accounted(job, tr + [Skipped(r.id, clock, r.failure)], r.id, r)
  {
    var e := Skipped(r.id, clock, r.failure);
    assert (tr + [e])[|tr|] == e;
    assert ReportsSkip(r, tr + [e], job.runStarted);
  }

  lemma KeepsSkip(job: Job, tr: Trace, active: ActiveFlows, completed: map<FlowId, FlowResult>, clock: int,
                  r: FlowResult)
    requires Consistent(job, tr, active, completed, clock)
    requires r.id in job.selected && r.id !in Touched(tr)
    requires r.id in job.byId && r.argv == job.byId[r.id].argv
    requires r.failure.Some? && r.exitCode.None? && DurationAgrees(r)
    requires r.finishedMs == RoundMs(clock - job.runStarted)
    ensures Consistent(job, tr + [Skipped(r.id, clock, r.failure)], active, completed[r.id := r], clock)
  {
    var e := Skipped(r.id, clock, r.failure);
    TimesGrow(job, tr, e, clock);
    AppendSafe(tr, e, Deps(job), job.maxParallel);
    ActiveGrows(tr, e, active);
    SkipIsAccounted(job, tr, r, clock);
    CompletedGains(job, tr, e, completed, r);
    AppendRunning(tr, e);
  }

  // -------------------------------------------------------------- progress

  /** Nothing has failed: then every completed flow that is not running succeeded. */
  lemma QuietMeansSucceeded(job: Job, tr: Trace, completed: map<FlowId, FlowResult>, id: FlowId)
    requires CompletedOk(job, tr, completed) && !HasFailure(tr)
    requires id in completed && id !in Running(tr)
    ensures completed[id].failure.None? && Succeeded(tr, id)
  {
    var r := completed[id];
    assert Accounted(job, tr, id, r);
    if l, e :| ReportsRun(r, tr, job.runStarted, l, e) {
      assert tr[e] in tr;
    }
  }

  /** A completed flow without failure really succeeded. */
  lemma CompletedSucceeded(job: Job, tr: Trace, completed: map<FlowId, FlowResult>, id: FlowId)
    requires CompletedOk(job, tr, completed)
    requires id in completed && id !in Running(tr) && completed[id].failure.None?
    ensures Succeeded(tr, id)
  {
    var r := completed[id];
    assert Accounted(job, tr, id, r);
    var l, e :| ReportsRun(r, tr, job.runStarted, l, e);
    assert tr[e] in tr;
  }

  predicate Ready(byId: map<FlowId, Flow>, completed: map<FlowId, FlowResult>, id: FlowId)
    requires id in byId
  {
    forall d :: d in byId[id].dependsOn ==> d in completed && completed[d].failure.None?
  }

  lemma ReadyHaveSucceeded(job: Job, tr: Trace, active: ActiveFlows, completed: map<FlowId, FlowResult>, clock: int,
                           id: FlowId)
    requires Runnable(job) && Consistent(job, tr, active, completed, clock) && completed.Keys !! active.Keys
    requires id in job.byId && Ready(job.byId, completed, id)
    ensures forall d :: d in job.byId[id].dependsOn ==> Succeeded(tr, d)
  {
    hide Runnable, Consistent, CompletedOk, Succeeded;
    ConsistentFacts(job, tr, active, completed, clock);
    forall d | d in job.byId[id].dependsOn ensures Succeeded(tr, d) {
      CompletedSucceeded(job, tr, completed, d);
    }
  }

  /** With nothing running and nothing failed, some pending flow is ready: the error
      "could not make dependency progress" cannot occur. */
  lemma ProgressIsPossible(job: Job, tr: Trace, completed: map<FlowId, FlowResult>, pending: seq<FlowId>)
    requires Runnable(job) && CompletedOk(job, tr, completed) && !HasFailure(tr)
    requires Running(tr) == {} && Elements(pending) == Elements(job.selected) - Touched(tr) && pending != []
    ensures exists id :: id in pending && id in job.byId && Ready(job.byId, completed, id)
  {
    var waiting := Elements(pending);
    assert pending[0] in waiting;
    SinkExists(Deps(job), waiting);
    var id :| id in waiting && !StaysIn(Deps(job), waiting, id);
    assert NeedsWithin(Deps(job), id, Elements(job.selected));
    forall d | d in job.byId[id].dependsOn ensures d in completed && completed[d].failure.None? {
      assert d in Deps(job)[id] && d in Elements(Deps(job)[id]);
      assert d !in waiting && d in Touched(tr);
      QuietMeansSucceeded(job, tr, completed, d);
    }
  }

  /** Every selected flow has a successful result. */
  predicate AllSucceeded(selected: seq<FlowId>, completed: map<FlowId, FlowResult>) {
    forall id :: id in selected ==> id in completed && completed[id].failure.None?
  }

  lemma FailureIsNoSuccess(selected: seq<FlowId>, completed: map<FlowId, FlowResult>, id: FlowId)
    requires id in Elements(selected) && (id in completed ==> completed[id].failure.Some?)
    ensures !AllSucceeded(selected, completed)
  {
    assert id in selected;
  }

  /** With nothing running, the result of a flow that failed in the history shows it. */
  lemma FailedEventShows(job: Job, tr: Trace, completed: map<FlowId, FlowResult>, clock: int, e: Event)
    requires Consistent(job, tr, map[], completed, clock) && e in tr && !e.Launched? && e.failure.Some?
    ensures e.id in completed && completed[e.id].failure.Some? && e.id in Elements(job.selected)
  {
    hide Safe, Running, Succeeded;
    var k :| 0 <= k < |tr| && tr[k] == e;
    EventTouches(tr, Deps(job), job.maxParallel, k);
    var r := completed[e.id];
    assert Accounted(job, tr, e.id, r);
    if l, m :| ReportsRun(r, tr, job.runStarted, l, m) {
      if e.Ended? {
        EndsOnce(tr, Deps(job), job.maxParallel, k, m);
      } else {
        LaunchedIsNotSkipped(tr, Deps(job), job.maxParallel, l, k);
      }
    }
  }

  // ------------------------------------------------------------ the scheduler

  /** [completed[id] for id in selected if id in completed] */
  function Collect(selected: seq<FlowId>, completed: map<FlowId, FlowResult>): seq<FlowResult> {
    if selected == [] then []
    else
      var last := selected[|selected| - 1];
      Collect(selected[..|selected| - 1], completed) + (if last in completed then [completed[last]] else [])
  }

  // ------------------------------------------------------- why flows fail

  /** A failure that makes the scheduler cancel what is still running. */
  predicate IsCause(f: Failure) {
    f.CouldNotStart? || f.CommandFailed? || f.TimedOut? || f.NativeCleanupIncomplete? || f.CleanupFailed?
  }

  ghost predicate HasCause(tr: Trace) {
    exists e :: e in tr && !e.Launched? && e.failure.Some? && IsCause(e.failure.value)
  }

  ghost predicate RanUntil(job: Job, tr: Trace, id: FlowId, at: int) {
    && id in job.byId
    && exists l :: l in tr && l.Launched? && l.id == id && at - l.at >= job.byId[id].timeoutSeconds * SECOND
  }

  /** What a failure in the history says happened. */
  ghost predicate Justified(job: Job, budget: Option<int>, tr: Trace, e: Event) {
    e.Launched? || e.failure.None? ||
    match e.failure.value
    case TimedOut => RanUntil(job, tr, e.id, e.at)
    case BudgetExceeded => budget.Some? && e.at - job.runStarted >= budget.value * SECOND
    case CancelledAfterFailure => HasCause(tr)
    case CouldNotStart => e.Skipped?
    case _ => e.Ended?
  }

  /** Every failure is justified; with a pass for cancellations whose cause is still to come. */
  ghost predicate AllJustified(job: Job, budget: Option<int>, tr: Trace, causeToCome: bool) {
    forall e :: e in tr ==>
      Justified(job, budget, tr, e) || (causeToCome && e.Ended? && e.failure == Some(CancelledAfterFailure))
  }

  lemma AppendJustified(job: Job, budget: Option<int>, tr: Trace, e: Event, causeToCome: bool)
    requires AllJustified(job, budget, tr, causeToCome)
    requires Justified(job, budget, tr + [e], e)
      || (causeToCome && e.Ended? && e.failure == Some(CancelledAfterFailure))
    ensures AllJustified(job, budget, tr + [e], causeToCome)
    ensures HasCause(tr) ==> HasCause(tr + [e])
    ensures !e.Launched? && e.failure.Some? && IsCause(e.failure.value) ==> HasCause(tr + [e])
  {
    var longer := tr + [e];
    assert forall x :: x in longer <==> x in tr || x == e;
  }

  /** Once the cause is there, every cancellation is justified. */
  lemma CauseCame(job: Job, budget: Option<int>, tr: Trace)
    requires AllJustified(job, budget, tr, true) && HasCause(tr)
    ensures AllJustified(job, budget, tr, false)
  {
  }

  lemma StillRanUntil(job: Job, tr: Trace, active: ActiveFlows, e: Event, started: int, now: int)
    requires ActiveOk(tr, active) && e.id in active && active[e.id] == started && now <= e.at && e.id in job.byId
    requires now - started >= job.byId[e.id].timeoutSeconds * SECOND
    ensures RanUntil(job, tr + [e], e.id, e.at)
  {
    var l :| l in tr && l == Launched(e.id, started);
    assert l in tr + [e];
  }

  /** The failures that polling found for still active flows at time `now`. */
  ghost predicate OverridesOk(job: Job, active: ActiveFlows, now: int, overrides: map<FlowId, Failure>) {
    forall id :: id in overrides && id in active ==>
      && id in job.byId
      && (overrides[id].CommandFailed? || overrides[id].NativeCleanupIncomplete?
          || (overrides[id].TimedOut? && now - active[id] >= job.byId[id].timeoutSeconds * SECOND))
  }

  lemma NoOverrides(job: Job, active: ActiveFlows, now: int)
    ensures OverridesOk(job, active, now, map[])
  {
  }

  lemma OverridesStay(job: Job, active: ActiveFlows, fewer: ActiveFlows, now: int, later: int,
                      overrides: map<FlowId, Failure>)
    requires OverridesOk(job, active, now, overrides) && now <= later
    requires forall id :: id in fewer ==> id in active && fewer[id] == active[id]
    ensures OverridesOk(job, fewer, later, overrides)
  {
  }

  lemma OverridesJoin(job: Job, active: ActiveFlows, now: int, overrides: map<FlowId, Failure>, id: FlowId,
                      reason: Failure)
    requires OverridesOk(job, active, now, overrides) && OverridesOk(job, active, now, map[id := reason])
    ensures OverridesOk(job, active, now, overrides[id := reason])
  {
    assert id in map[id := reason];
  }

  /** When everything active may be cancelled for the reason. */
  ghost predicate ReasonOk(job: Job, budget: Option<int>, tr: Trace, active: ActiveFlows, now: int,
                           reason: Failure, overrides: map<FlowId, Failure>) {
    match reason
    case Interrupted => true
    case BudgetExceeded => budget.Some? && now - job.runStarted >= budget.value * SECOND
    case CancelledAfterFailure => HasCause(tr) || exists id :: id in overrides && id in active
    case _ => false
  }

  lemma CancelStep(job: Job, budget: Option<int>, tr: Trace, active: ActiveFlows, now: int,
                   reason: Failure, overrides: map<FlowId, Failure>, cleanupFailed: bool, e: Event)
    requires ActiveOk(tr, active) && e.Ended? && e.id in active && now <= e.at && e.id in job.byId
    requires AllJustified(job, budget, tr, reason.CancelledAfterFailure?)
    requires OverridesOk(job, active, now, overrides) && ReasonOk(job, budget, tr, active, now, reason, overrides)
    requires e.failure ==
      Some(if cleanupFailed then CleanupFailed else if e.id in overrides then overrides[e.id] else reason)
    ensures AllJustified(job, budget, tr + [e], reason.CancelledAfterFailure?)
    ensures OverridesOk(job, active - {e.id}, e.at, overrides)
    ensures ReasonOk(job, budget, tr + [e], active - {e.id}, e.at, reason, overrides)
  {
    hide ActiveOk, AllJustified, HasCause, RanUntil;
    if e.failure.value.TimedOut? {
      StillRanUntil(job, tr, active, e, active[e.id], now);
    }
    AppendJustified(job, budget, tr, e, reason.CancelledAfterFailure?);
    if reason.CancelledAfterFailure? && !HasCause(tr) && !cleanupFailed && e.id !in overrides {
      var id :| id in overrides && id in active;
      assert id in active - {e.id};
    }
  }

  /** When nothing is active any more, no cause is still to come. */
  lemma CancelDone(job: Job, budget: Option<int>, tr: Trace, now: int, reason: Failure, overrides: map<FlowId, Failure>)
    requires AllJustified(job, budget, tr, reason.CancelledAfterFailure?)
    requires ReasonOk(job, budget, tr, map[], now, reason, overrides)
    ensures AllJustified(job, budget, tr, false)
  {
    hide AllJustified, HasCause;
    if reason.CancelledAfterFailure? {
      CauseCame(job, budget, tr);
    }
  }

  lemma CancelStarts(job: Job, budget: Option<int>, tr: Trace, causeToCome: bool)
    requires AllJustified(job, budget, tr, false)
    ensures AllJustified(job, budget, tr, causeToCome)
  {
  }

  datatype LaunchStep = DidLaunch | NothingReady | CouldNotLaunch | InterruptedLaunch

  /** What one look at an active process says. */
  datatype Verdict =
    | StillRunning
    | MustStop(reason: Failure)
    | Done(exitCode: int, failure: Option<Failure>)

  /** How one turn of the main loop ends. Stuck stands for the error "could not make
      dependency progress". */
  datatype TurnEnd = Again | Leave | Stuck

  datatype RunOutcome = Finished(results: seq<FlowResult>) | NoProgress

  /** Time until some fixed active flow reaches its timeout. */
  ghost function TimeToDeadline(job: Job, active: ActiveFlows, clock: int): nat {
    if active == map[] then 0
    else
      var id :| id in active;
      var left := active[id] + (if id in job.byId then job.byId[id].timeoutSeconds * SECOND else 0) - clock;
      if left > 0 then left else 0
  }

  lemma DeadlineNearer(job: Job, active: ActiveFlows, now: int, later: int)
    requires now < later && TimeToDeadline(job, active, later) > 0
    ensures TimeToDeadline(job, active, later) < TimeToDeadline(job, active, now)
  {
  }

  class Scheduler {
    const job: Job
    const budget: Option<int>
    const world: World
    var pending: seq<FlowId>
    var active: ActiveFlows
    var completed: map<FlowId, FlowResult>
    var failed: bool
    var clock: int
    var asked: nat
    ghost var trace: Trace
    ghost var log: Log

    ghost predicate Valid()
      reads this
    {
      Runnable(job) && Consistent(job, trace, active, completed, clock)
    }

    /** The pending list is exactly what was not touched. */
    ghost predicate Orderly()
      reads this
    {
      && Valid()
      && Distinct(pending) && Elements(pending) == Elements(job.selected) - Touched(trace)
      && completed.Keys !! active.Keys
    }

    /** Between turns of the loop: the run has failed exactly when its history shows a
        failure, which is exactly when some answer was not benign. */
    ghost predicate Settled()
      reads this
    {
      && Orderly()
      && (HasFailure(trace) <==> failed) && (failed <==> !Quiet())
      && (failed ==> active == map[])
    }

    /** Every failure so far is justified. */
    ghost predicate Explained()
      reads this
    {
      AllJustified(job, budget, trace, false)
    }

    // ------------------------------------------------------------- asking

    function Asking(): Terms {
      Terms(world, job.runStarted, budget)
    }

    ghost predicate Hearing()
      reads this
    {
      asked == |log| && Heard(Asking(), log, active, clock)
    }

    /** The log is what the world said, and the history stands on it. */
    ghost predicate Logged()
      reads this
    {
      Hearing() && Recorded(Asking(), job.byId, trace, log)
    }

    /** Every answer so far was benign. */
    ghost predicate Quiet()
      reads this`log
    {
      AllBenign(Asking(), job.byId, log)
    }

    ghost predicate Going()
      reads this`log
    {
      GoAhead(Asking(), log)
    }

    ghost predicate LookingAt(now: int)
      reads this`log
    {
      Looking(log) && RoundAt(log) == Some(now)
    }

    ghost predicate Spent()
      reads this`log
    {
      PastBudget(Asking(), log)
    }

    constructor (job: Job, budget: Option<int>, world: World)
      requires Runnable(job)
      ensures Explained() && Logged() && Quiet() && !Spent()
      ensures Settled() && !failed && trace == [] && log == []
      ensures this.job == job && this.budget == budget && this.world == world
      ensures pending == job.selected && active == map[]
    {
      this.job, this.budget, this.world := job, budget, world;
      pending, active, completed, failed := job.selected, map[], map[], false;
      clock, asked := job.runStarted, 0;
      trace, log := [], [];
    }

    /** What one more answer does to the log. */
    lemma OneMore(a: Answer)
      requires Hearing() && Told(Asking(), log, a) && MayAsk(Asking(), log, a)
      requires a.Clock? && a.use.Starting? ==> a.use.id !in active
      ensures Heard(Asking(), log + [a], active, NextClock(clock, a))
      ensures Recorded(Asking(), job.byId, trace, log) && ((a.Clock? && a.use.Ending?) ==> !Quiet()) ==>
        Recorded(Asking(), job.byId, trace, log + [a])
      ensures AllBenign(Asking(), job.byId, log + [a]) <==> Quiet() && Benign(Asking(), job.byId, a)
      ensures PastBudget(Asking(), log + [a]) <==> Spent() || SpentHead(Asking(), a)
      ensures KeepsPhase(a) ==> (GoAhead(Asking(), log + [a]) <==> Going()) && (Looking(log + [a]) <==> Looking(log))
      ensures a == AskedInterrupt(LoopHead, false) ==> (GoAhead(Asking(), log + [a]) <==> budget.None?)
      ensures a.Clock? && a.use.TurnHead? ==>
        (GoAhead(Asking(), log + [a]) <==> budget.Some? && WithinBudget(Asking(), a.at))
      ensures a.Clock? && a.use.PollRound? ==> Looking(log + [a])
      ensures RoundAt(log + [a]) == if a.Clock? && a.use.PollRound? then Some(a.at) else RoundAt(log)
    {
      hide Heard, Told, MayAsk, Recorded, AllBenign, Benign, PastBudget, GoAhead, Looking, RoundAt, WithinBudget;
      HeardGrows(Asking(), log, active, clock, a);
      if Recorded(Asking(), job.byId, trace, log) && ((a.Clock? && a.use.Ending?) ==> !Quiet()) {
        RecordedHears(Asking(), job.byId, trace, log, a);
      }
      AllBenignAppend(Asking(), job.byId, log, a);
      PastBudgetAppend(Asking(), log, a);
      PhaseAppend(Asking(), log, a);
      RoundAtAppend(log, a);
    }

    lemma PresentTime()
      requires Hearing()
      ensures clock == ClockAfter(job.runStarted, log)
    {
    }

    /** A reading of the monotonic clock. */
    method ReadClock(use: Use)
      requires Valid() && Hearing()
      requires MayAsk(Asking(), log, Clock(use, Later(clock, world.clock(asked))))
      requires use.Starting? ==> use.id !in active
      modifies this`clock, this`asked, this`log
      ensures Valid() && Hearing() && log == old(log) + [Clock(use, clock)]
      ensures clock == Later(old(clock), world.clock(old(asked)))
      ensures old(Logged()) && (use.Ending? ==> old(!Quiet())) ==> Logged()
      ensures Quiet() <==> old(Quiet()) && (use.TurnHead? ==> WithinBudget(Asking(), clock))
      ensures Spent() <==> old(Spent()) || (use.TurnHead? && !WithinBudget(Asking(), clock))
      ensures use.Starting? || use.Ending? ==>
        Going() == old(Going()) && forall now :: LookingAt(now) <==> old(LookingAt(now))
      ensures use.TurnHead? ==> (Going() <==> budget.Some? && WithinBudget(Asking(), clock))
      ensures use.PollRound? ==> LookingAt(clock)
      ensures use.Starting? ==> StartedAt(log, use.id) == Some(clock)
    {
      hide Consistent, Runnable, Heard, MayAsk, Recorded, AllBenign, PastBudget, GoAhead, Looking, RoundAt,
        WithinBudget, ClockAfter, StartedAt;
      PresentTime();
      ghost var a := Clock(use, Later(clock, world.clock(asked)));
      OneMore(a);
      if use.Starting? {
        StartedAtAppend(log, a, use.id);
      }
      KeepsTick(job, trace, active, completed, clock, Later(clock, world.clock(asked)));
      clock := Later(clock, world.clock(asked));
      log := log + [Clock(use, clock)];
      asked := asked + 1;
    }

    /** Does a KeyboardInterrupt arrive here? */
    method AskInterrupt(place: Place) returns (yes: bool)
      requires Logged() && (place.LoopHead? ==> !Spent())
      modifies this`asked, this`log
      ensures Logged() && log == old(log) + [AskedInterrupt(place, yes)] && asked == old(asked) + 1
      ensures yes == world.interrupts(old(asked))
      ensures (Quiet() <==> old(Quiet()) && !yes) && Spent() == old(Spent())
      ensures !place.LoopHead? ==> Going() == old(Going()) && forall now :: LookingAt(now) <==> old(LookingAt(now))
      ensures place.LoopHead? && !yes ==> (Going() <==> budget.None?)
    {
      hide Heard, Recorded, AllBenign, PastBudget, GoAhead, Looking, RoundAt;
      yes := world.interrupts(asked);
      OneMore(AskedInterrupt(place, yes));
      log := log + [AskedInterrupt(place, yes)];
      asked := asked + 1;
    }

    /** subprocess.Popen(...): does the process come up? */
    method AskSpawn(id: FlowId) returns (yes: bool)
      requires Logged() && Going() && StartedAt(log, id).Some?
      modifies this`asked, this`log
      ensures Logged() && log == old(log) + [AskedSpawn(id, yes)] && asked == old(asked) + 1
      ensures yes == world.spawns(old(asked))
      ensures (Quiet() <==> old(Quiet()) && yes) && Spent() == old(Spent()) && Going()
      ensures StartedAt(log, id) == old(StartedAt(log, id))
    {
      hide Heard, Recorded, AllBenign, PastBudget, GoAhead, Looking, RoundAt, StartedAt;
      yes := world.spawns(asked);
      OneMore(AskedSpawn(id, yes));
      StartedAtAppend(log, AskedSpawn(id, yes), id);
      log := log + [AskedSpawn(id, yes)];
      asked := asked + 1;
    }

    /** stop_process_groups(...): does it raise? */
    method AskStop() returns (stopFailed: bool)
      requires Logged()
      modifies this`asked, this`log
      ensures Logged() && log == old(log) + [AskedStop(stopFailed)]
      ensures stopFailed == world.stopFails(old(asked)) && Quiet() == old(Quiet()) && Spent() == old(Spent())
      ensures Going() == old(Going())
    {
      hide Heard, Recorded, AllBenign, PastBudget, GoAhead, Looking, RoundAt;
      stopFailed := world.stopFails(asked);
      OneMore(AskedStop(stopFailed));
      log := log + [AskedStop(stopFailed)];
      asked := asked + 1;
    }

    /** The exit code of a stopped flow and whether it had to be forced. */
    method AskStopped(id: FlowId) returns (exitCode: Option<int>, forced: bool)
      requires Logged()
      modifies this`asked, this`log
      ensures Logged() && log == old(log) + [AskedStopped(id, exitCode, forced)]
      ensures Quiet() == old(Quiet()) && Spent() == old(Spent()) && Going() == old(Going())
    {
      hide Heard, Recorded, AllBenign, PastBudget, GoAhead, Looking, RoundAt;
      exitCode, forced := world.stopped(asked).0, world.stopped(asked).1;
      OneMore(AskedStopped(id, exitCode, forced));
      log := log + [AskedStopped(id, exitCode, forced)];
      asked := asked + 1;
    }

    /** process.poll() */
    method AskExit(id: FlowId, now: int) returns (exitCode: Option<int>)
      requires Logged() && LookingAt(now) && id in active && id in job.byId
      modifies this`asked, this`log
      ensures Logged() && log == old(log) + [AskedExit(id, active[id], now, exitCode)] && asked == old(asked) + 1
      ensures exitCode == world.exits(old(asked)) && LookingAt(now) && Spent() == old(Spent())
      ensures Quiet() <==>
        old(Quiet()) && if exitCode.None? then now - active[id] < job.byId[id].timeoutSeconds * SECOND
                        else exitCode.value == 0
    {
      hide Recorded, AllBenign, PastBudget, GoAhead, Looking, RoundAt;
      exitCode := world.exits(asked);
      ghost var a := AskedExit(id, active[id], now, exitCode);
      assert Told(Asking(), log, a);
      hide Heard;
      OneMore(a);
      log := log + [a];
      asked := asked + 1;
    }

    /** process_group_exists(process), asked about an ended process only */
    method AskSurvivors(id: FlowId) returns (yes: bool)
      requires Logged() && log != [] && log[|log| - 1].AskedExit?
      requires log[|log| - 1].id == id && log[|log| - 1].exit.Some?
      modifies this`asked, this`log
      ensures Logged() && log == old(log) + [AskedSurvivors(id, yes)]
      ensures yes == world.survives(old(asked)) && Spent() == old(Spent())
      ensures forall now :: LookingAt(now) <==> old(LookingAt(now))
      ensures Quiet() <==> old(Quiet()) && !yes
    {
      hide Heard, Recorded, AllBenign, PastBudget, GoAhead, Looking, RoundAt;
      yes := world.survives(asked);
      OneMore(AskedSurvivors(id, yes));
      log := log + [AskedSurvivors(id, yes)];
      asked := asked + 1;
    }

    /** time.sleep(0.02) */
    method Sleep()
      requires Settled() && Logged() && Going()
      modifies this`clock, this`asked, this`log
      ensures Settled() && Logged() && Going() && Spent() == old(Spent())
      ensures clock == old(clock) + 20 * MILLISECOND && log == old(log) + [Slept]
    {
      hide Consistent, CompletedOk, Runnable, HasFailure, Touched, Heard, Recorded, AllBenign, PastBudget, GoAhead,
        Looking, RoundAt;
      OneMore(Slept);
      KeepsTick(job, trace, active, completed, clock, clock + 20 * MILLISECOND);
      clock := clock + 20 * MILLISECOND;
      log := log + [Slept];
      asked := asked + 1;
    }

    // ---------------------------------------------------------- finishing

    lemma EndIsLogged(before: Log, e: Event)
      requires Recorded(Asking(), job.byId, trace, before) && !e.Launched?
      requires e.Ended? && e.failure.None? ==> Confirmed(before, e.id)
      requires Heard(Asking(), before + [Clock(Ending(e.id), e.at)], active, clock)
      ensures Heard(Asking(), before + [Clock(Ending(e.id), e.at)], active - {e.id}, clock)
      ensures Recorded(Asking(), job.byId, trace + [e], before + [Clock(Ending(e.id), e.at)])
    {
      RecordedEnd(Asking(), job.byId, trace, before, e);
    }

    /** flow_result followed by leaving `active`. */
    method Finish(id: FlowId, exitCode: Option<int>, failure: Option<Failure>, forced: bool)
      requires Valid() && Logged() && id in active
      requires failure.None? ==> exitCode == Some(0) && !forced && Confirmed(log, id)
      modifies this`clock, this`asked, this`log, this`completed, this`active, this`trace
      ensures Valid() && Logged() && clock >= old(clock)
      ensures active == old(active) - {id} && id in completed && completed == old(completed)[id := completed[id]]
      ensures trace == old(trace) + [Ended(id, clock, failure)] && log == old(log) + [Clock(Ending(id), clock)]
      ensures completed[id].failure == failure && completed[id].exitCode == exitCode
      ensures completed[id].forcedCleanup == forced
      ensures Quiet() == old(Quiet()) && Spent() == old(Spent()) && Going() == old(Going())
      ensures forall now :: LookingAt(now) <==> old(LookingAt(now))
    {
      hide Consistent, CompletedOk, Runnable, Heard, Recorded, AllBenign, PastBudget, GoAhead, Looking, RoundAt,
        Confirmed, RoundMs;
      ConsistentFacts(job, trace, active, completed, clock);
      ReadClock(Ending(id));
      var flow, started := job.byId[id], active[id];
      var result := FlowResult(id, flow.argv, exitCode, failure, forced,
                               RoundMs(started - job.runStarted), RoundMs(clock - job.runStarted),
                               RoundMs(clock - started));
      KeepsEnd(job, trace, active, completed, clock, result);
      EndIsLogged(old(log), Ended(id, clock, failure));
      completed := completed[id := result];
      active := active - {id};
      trace := trace + [Ended(id, clock, failure)];
    }

    lemma ActiveIsLaunched(id: FlowId)
      requires Valid() && id in active
      ensures ActiveOk(trace, active) && id in job.byId
    {
      ConsistentFacts(job, trace, active, completed, clock);
    }

    /** The flow was stopped with this failure; if stopping raised, it counts as forced. */
    ghost predicate StoppedWith(id: FlowId, stopFailed: bool, reason: Failure, overrides: map<FlowId, Failure>)
      reads this`completed
    {
      && id in completed
      && completed[id].failure ==
         Some(if stopFailed then CleanupFailed else if id in overrides then overrides[id] else reason)
      && (stopFailed ==> completed[id].forcedCleanup)
    }

    /** One turn of the loop in cancel_active. */
    method StopOne(id: FlowId, stopFailed: bool, reason: Failure, overrides: map<FlowId, Failure>)
      requires Valid() && Logged() && id in active
      requires AllJustified(job, budget, trace, reason.CancelledAfterFailure?)
      requires OverridesOk(job, active, clock, overrides)
        && ReasonOk(job, budget, trace, active, clock, reason, overrides)
      modifies this`clock, this`asked, this`log, this`completed, this`active, this`trace
      ensures Valid() && Logged() && active == old(active) - {id} && clock >= old(clock)
      ensures AllJustified(job, budget, trace, reason.CancelledAfterFailure?)
      ensures OverridesOk(job, active, clock, overrides)
        && ReasonOk(job, budget, trace, active, clock, reason, overrides)
      ensures old(trace) <= trace && Touched(trace) == old(Touched(trace)) && old(log) <= log && HasFailure(trace)
      ensures StoppedWith(id, stopFailed, reason, overrides) && completed == old(completed)[id := completed[id]]
      ensures forall x :: x != id && old(StoppedWith(x, stopFailed, reason, overrides)) ==>
        StoppedWith(x, stopFailed, reason, overrides)
      ensures Quiet() == old(Quiet()) && Spent() == old(Spent()) && Going() == old(Going())
    {
      hide Consistent, CompletedOk, Runnable, HasFailure, Touched, OverridesOk, ReasonOk, AllJustified, ActiveOk,
        Heard, Recorded, AllBenign, PastBudget, GoAhead, Looking, RoundAt;
      ghost var before, was, now := trace, active, clock;
      var exitCode, forced := AskStopped(id);
      var failure := if stopFailed then CleanupFailed
                     else if id in overrides then overrides[id] else reason;
      ActiveIsLaunched(id);
      Finish(id, exitCode, Some(failure), stopFailed || forced);
      AppendRunning(before, Ended(id, clock, Some(failure)));
      CancelStep(job, budget, before, was, now, reason, overrides, stopFailed, Ended(id, clock, Some(failure)));
    }

    /** The loop of cancel_active, once the groups were told to stop. */
    method StopAll(stopFailed: bool, reason: Failure, overrides: map<FlowId, Failure>)
      requires Valid() && Logged()
      requires AllJustified(job, budget, trace, reason.CancelledAfterFailure?)
      requires OverridesOk(job, active, clock, overrides)
        && ReasonOk(job, budget, trace, active, clock, reason, overrides)
      modifies this`clock, this`asked, this`log, this`completed, this`active, this`trace
      ensures Valid() && Logged() && active == map[] && clock >= old(clock)
      ensures Explained()
      ensures old(trace) <= trace && Touched(trace) == old(Touched(trace)) && old(log) <= log
      ensures completed.Keys == old(completed).Keys + old(active).Keys
      ensures forall id :: id in old(active) ==> StoppedWith(id, stopFailed, reason, overrides)
      ensures forall id :: id in old(completed) && id !in old(active) ==> completed[id] == old(completed)[id]
      ensures HasFailure(trace) <==> old(HasFailure(trace)) || old(active) != map[]
      ensures Quiet() == old(Quiet()) && Spent() == old(Spent()) && Going() == old(Going())
    {
      hide Consistent, CompletedOk, Runnable, HasFailure, Touched, OverridesOk, ReasonOk, AllJustified, ActiveOk,
        Heard, Recorded, AllBenign, PastBudget, GoAhead, Looking, RoundAt, StoppedWith;
      while active != map[]
        invariant Valid() && Logged() && clock >= old(clock)
        invariant old(trace) <= trace && Touched(trace) == old(Touched(trace)) && old(log) <= log
        invariant completed.Keys + active.Keys == old(completed).Keys + old(active).Keys
        invariant active.Keys <= old(active).Keys
        invariant forall id :: id in old(active) && id !in active ==> StoppedWith(id, stopFailed, reason, overrides)
        invariant forall id :: id in old(completed) && id !in old(active) ==> completed[id] == old(completed)[id]
        invariant HasFailure(trace) <==> old(HasFailure(trace)) || active.Keys != old(active).Keys
        invariant AllJustified(job, budget, trace, reason.CancelledAfterFailure?)
        invariant OverridesOk(job, active, clock, overrides)
        invariant ReasonOk(job, budget, trace, active, clock, reason, overrides)
        invariant Quiet() == old(Quiet()) && Spent() == old(Spent()) && Going() == old(Going())
        decreases active.Keys
      {
        var id :| id in active;
        StopOne(id, stopFailed, reason, overrides);
      }
      CancelDone(job, budget, trace, clock, reason, overrides);
    }

    /** cancel_active: stop every owned group and record a failed result for each. */
    method CancelActive(reason: Failure, overrides: map<FlowId, Failure>)
      requires Valid() && Explained() && Logged()
      requires OverridesOk(job, active, clock, overrides)
        && ReasonOk(job, budget, trace, active, clock, reason, overrides)
      modifies this`failed, this`clock, this`asked, this`log, this`completed, this`active, this`trace
      ensures Valid() && Logged() && failed && active == map[] && clock >= old(clock)
      ensures Explained()
      ensures old(trace) <= trace && Touched(trace) == old(Touched(trace)) && old(log) <= log
      ensures completed.Keys == old(completed).Keys + old(active).Keys
      ensures forall id :: id in old(active) ==> StoppedWith(id, world.stopFails(old(asked)), reason, overrides)
      ensures forall id :: id in old(completed) && id !in old(active) ==> completed[id] == old(completed)[id]
      ensures HasFailure(trace) <==> old(HasFailure(trace)) || old(active) != map[]
      ensures old(active) != map[] ==> AskedStop(world.stopFails(old(asked))) in log
      ensures Quiet() == old(Quiet()) && Spent() == old(Spent()) && Going() == old(Going())
    {
      hide Consistent, CompletedOk, Runnable, HasFailure, Touched, OverridesOk, ReasonOk, AllJustified, ActiveOk,
        Heard, Recorded, AllBenign, PastBudget, GoAhead, Looking, RoundAt, StoppedWith;
      failed := true;
      CancelStarts(job, budget, trace, reason.CancelledAfterFailure?);
      if active == map[] {
        return;
      }
      var stopFailed := AskStop();
      ghost var n := |log| - 1;
      StopAll(stopFailed, reason, overrides);
      assert log[n] == AskedStop(stopFailed);
    }

    /** next(flow for flow in pending if all its dependencies succeeded) */
    method FirstReady() returns (k: nat)
      requires Settled()
      ensures k <= |pending|
      ensures forall i :: 0 <= i < k ==> pending[i] in job.byId && !Ready(job.byId, completed, pending[i])
      ensures k < |pending| ==> pending[k] in job.byId && Ready(job.byId, completed, pending[k])
    {
      hide Consistent, CompletedOk, AllBenign;
      ConsistentFacts(job, trace, active, completed, clock);
      assert forall i :: 0 <= i < |pending| ==> pending[i] in Elements(pending);
      k := 0;
      while k < |pending| && !Ready(job.byId, completed, pending[k])
        invariant k <= |pending|
        invariant forall i :: 0 <= i < k ==> !Ready(job.byId, completed, pending[i])
      {
        k := k + 1;
      }
    }

    /** A pending flow has neither process nor result yet. */
    lemma PendingIsNew(k: nat)
      requires Orderly() && k < |pending|
      ensures pending[k] in job.byId && pending[k] !in active && pending[k] !in completed
      ensures job.runStarted <= clock
    {
      assert pending[k] in Elements(pending);
      ConsistentFacts(job, trace, active, completed, clock);
    }

    /** Launch the first ready pending flow, if any. */
    method Launch() returns (step: LaunchStep, ghost k: nat)
      requires Settled() && Explained() && Logged() && Going() && !failed && |active| < job.maxParallel
      modifies this
      ensures Valid() && Explained() && Logged() && Going() && old(trace) <= trace && clock >= old(clock)
      ensures old(log) <= log && Spent() == old(Spent())
      ensures step.NothingReady? ==> unchanged(this)
      ensures step.NothingReady? ==>
        forall i :: 0 <= i < |pending| ==> pending[i] in job.byId && !Ready(job.byId, completed, pending[i])
      ensures !step.NothingReady? ==> k < |old(pending)| && IsFirstReady(old(pending), old(completed), k)
      ensures !step.NothingReady? ==> (step.CouldNotLaunch? <==> !world.spawns(old(asked) + 1))
      ensures step.InterruptedLaunch? ==> world.interrupts(old(asked) + 2) && !Quiet() && active != map[]
      ensures step.DidLaunch? ==> Settled() && !failed && !world.interrupts(old(asked) + 2)
      ensures step.DidLaunch? ==> (
        && pending == old(pending)[..k] + old(pending)[k + 1..]
        && trace == old(trace) + [Launched(old(pending)[k], clock)] && completed == old(completed)
        && old(pending)[k] !in old(active) && active == old(active)[old(pending)[k] := clock])
      ensures step.CouldNotLaunch? ==> Settled() && failed
      ensures step.CouldNotLaunch? ==> (
        && old(pending)[k] in completed && completed[old(pending)[k]].failure == Some(CouldNotStart))
    {
      hide Consistent, CompletedOk, Runnable, HasFailure, Ready, AllJustified, Touched, Heard, Recorded, AllBenign,
        PastBudget, GoAhead, StartedAt;
      var first := FirstReady();
      k := first;
      if first == |pending| {
        return NothingReady, k;
      }
      PendingIsNew(first);
      ReadClock(Starting(pending[first]));
      var spawned := AskSpawn(pending[first]);
      if spawned {
        step := Register(first);
        assert old(pending)[first] in active;
      } else {
        Refuse(first);
        step := CouldNotLaunch;
      }
    }

    /** The k-th flow is ready and no earlier one is. */
    ghost predicate IsFirstReady(waiting: seq<FlowId>, done: map<FlowId, FlowResult>, k: nat)
      requires k < |waiting|
    {
      && waiting[k] in job.byId && Ready(job.byId, done, waiting[k])
      && forall i :: 0 <= i < k ==> waiting[i] in job.byId && !Ready(job.byId, done, waiting[i])
    }

    /** The process of the k-th pending flow came up: it becomes active, and unless an
        interrupt arrives it leaves `pending`. */
    method Register(k: nat) returns (step: LaunchStep)
      requires Orderly() && Explained() && Logged() && Going() && !HasFailure(trace) && !failed && Quiet()
      requires |active| < job.maxParallel && k < |pending|
      requires pending[k] in job.byId && Ready(job.byId, completed, pending[k])
      requires StartedAt(log, pending[k]) == Some(clock)
      requires Clock(Starting(pending[k]), clock) in log && AskedSpawn(pending[k], true) in log
      modifies this`pending, this`active, this`trace, this`asked, this`log
      ensures Valid() && Explained() && Logged() && Going() && Spent() == old(Spent()) && old(log) <= log
      ensures trace == old(trace) + [Launched(old(pending)[k], clock)]
      ensures old(pending)[k] !in old(active) && active == old(active)[old(pending)[k] := clock]
      ensures step == if world.interrupts(old(asked)) then InterruptedLaunch else DidLaunch
      ensures step.InterruptedLaunch? ==> !Quiet()
      ensures step.DidLaunch? ==> Settled() && pending == old(pending)[..k] + old(pending)[k + 1..]
    {
      hide Consistent, CompletedOk, Runnable, HasFailure, Ready, AllJustified, Touched, Running, Heard, Recorded,
        AllBenign, PastBudget, GoAhead, StartedAt;
      StartProcess(pending[k]);
      LaunchJustified(old(trace), trace[|old(trace)|]);
      var interrupted := AskInterrupt(AfterSpawn);
      if interrupted {
        return InterruptedLaunch;
      }
      RemovePending(k, old(trace));
      step := DidLaunch;
    }

    /** The process of the k-th pending flow did not come up: the flow fails and
        everything active is cancelled. */
    method Refuse(k: nat)
      requires Orderly() && Explained() && Logged() && Going() && !Quiet() && k < |pending|
      modifies this
      ensures Settled() && Explained() && Logged() && Going() && failed && Spent() == old(Spent())
      ensures old(trace) <= trace && old(log) <= log && clock >= old(clock)
      ensures old(pending)[k] in completed && completed[old(pending)[k]].failure == Some(CouldNotStart)
    {
      hide Consistent, CompletedOk, Runnable, HasFailure, AllJustified, OverridesOk, ReasonOk, Touched, Running,
        Heard, Recorded, AllBenign, PastBudget, GoAhead, Looking, RoundAt, StoppedWith;
      PendingIsNew(k);
      RefuseProcess(pending[k], clock, CouldNotStart);
      RefusalJustified(old(trace), trace[|old(trace)|]);
      RemovePending(k, old(trace));
      AppendRunning(old(trace), trace[|old(trace)|]);
      CancelActive(CancelledAfterFailure, map[]);
    }

    lemma LaunchJustified(before: Trace, e: Event)
      requires AllJustified(job, budget, before, false) && e.Launched?
      ensures AllJustified(job, budget, before + [e], false)
    {
      AppendJustified(job, budget, before, e, false);
    }

    /** A flow that could not start is a cause for cancelling the others. */
    lemma RefusalJustified(before: Trace, e: Event)
      requires AllJustified(job, budget, before, false) && e.Skipped? && e.failure == Some(CouldNotStart)
      ensures AllJustified(job, budget, before + [e], false)
      ensures OverridesOk(job, active, clock, map[])
      ensures ReasonOk(job, budget, before + [e], active, clock, CancelledAfterFailure, map[])
    {
      AppendJustified(job, budget, before, e, false);
    }

    lemma StartIsLogged(id: FlowId)
      requires Logged() && StartedAt(log, id) == Some(clock)
      requires Clock(Starting(id), clock) in log && AskedSpawn(id, true) in log
      ensures Heard(Asking(), log, active[id := clock], clock)
      ensures Recorded(Asking(), job.byId, trace + [Launched(id, clock)], log)
    {
      RecordedLaunch(Asking(), job.byId, trace, log, Launched(id, clock));
    }

    /** The process of a ready flow is registered in `active`. */
    method StartProcess(id: FlowId)
      requires Orderly() && Logged() && !HasFailure(trace) && |active| < job.maxParallel
      requires id in pending && id in job.byId && Ready(job.byId, completed, id)
      requires StartedAt(log, id) == Some(clock)
      requires Clock(Starting(id), clock) in log && AskedSpawn(id, true) in log
      modifies this`active, this`trace
      ensures Valid() && Logged() && active == old(active)[id := clock] && id !in old(active)
      ensures trace == old(trace) + [Launched(id, clock)]
      ensures completed.Keys !! active.Keys && !HasFailure(trace)
    {
      hide Consistent, CompletedOk, Runnable, Touched, Running, HasFailure, Succeeded, Ready, Heard, Recorded,
        StartedAt;
      ConsistentFacts(job, trace, active, completed, clock);
      assert id in Elements(pending);
      ReadyHaveSucceeded(job, trace, active, completed, clock, id);
      KeepsLaunch(job, trace, active, completed, clock, id);
      AppendRunning(trace, Launched(id, clock));
      StartIsLogged(id);
      active := active[id := clock];
      trace := trace + [Launched(id, clock)];
    }

    lemma SkipIsLogged(before: Log, e: Event)
      requires Recorded(Asking(), job.byId, trace, before) && e.Skipped?
      ensures Recorded(Asking(), job.byId, trace + [e], before + [Clock(Ending(e.id), e.at)])
    {
      RecordedEnd(Asking(), job.byId, trace, before, e);
    }

    /** A flow gets a failed result without a process. */
    method RefuseProcess(id: FlowId, started: int, failure: Failure)
      requires Orderly() && Logged() && id in pending && job.runStarted <= started <= clock
      modifies this`clock, this`asked, this`log, this`completed, this`trace
      ensures Valid() && Logged() && clock >= old(clock) && id !in active
      ensures id in completed && completed == old(completed)[id := completed[id]]
      ensures completed[id].failure == Some(failure) && completed[id].exitCode.None?
      ensures trace == old(trace) + [Skipped(id, clock, Some(failure))] && log == old(log) + [Clock(Ending(id), clock)]
      ensures Quiet() == old(Quiet()) && Spent() == old(Spent()) && Going() == old(Going())
    {
      hide Consistent, CompletedOk, Runnable, Heard, Recorded, AllBenign, PastBudget, GoAhead, Looking, RoundAt;
      ConsistentFacts(job, trace, active, completed, clock);
      assert id in Elements(pending);
      ReadClock(Ending(id));
      var result := FlowResult(id, job.byId[id].argv, None, Some(failure), false,
                               RoundMs(started - job.runStarted), RoundMs(clock - job.runStarted),
                               RoundMs(clock - started));
      RoundedRun(job.runStarted, started, clock);
      KeepsSkip(job, trace, active, completed, clock, result);
      SkipIsLogged(old(log), Skipped(id, clock, Some(failure)));
      completed := completed[id := result];
      trace := trace + [Skipped(id, clock, Some(failure))];
    }

    /** pending.remove(...) once the k-th pending flow has been touched. */
    method RemovePending(k: nat, ghost before: Trace)
      requires k < |pending| && Distinct(pending)
      requires Elements(pending) == Elements(job.selected) - Touched(before)
      requires |trace| == |before| + 1 && trace[..|before|] == before
      requires !trace[|before|].Ended? && trace[|before|].id == pending[k]
      modifies this`pending
      ensures Distinct(pending) && |pending| + 1 == |old(pending)|
      ensures pending == old(pending)[..k] + old(pending)[k + 1..]
      ensures Elements(pending) == Elements(job.selected) - Touched(trace)
    {
      AppendRunning(before, trace[|before|]);
      assert trace == before + [trace[|before|]];
      ghost var id := pending[k];
      ghost var was := pending;
      pending := pending[..k] + pending[k + 1..];
      assert Elements(pending) == Elements(was) - {id} by {
        forall x | x in was && x != id ensures x in pending {
          var i :| 0 <= i < |was| && was[i] == x;
          assert pending[if i < k then i else i - 1] == x;
        }
      }
    }

    // ------------------------------------------------------------- polling

    lemma ActiveWasSpawned(id: FlowId)
      requires Valid() && Logged() && id in active
      ensures id in job.byId && AskedSpawn(id, true) in log
    {
      ConsistentFacts(job, trace, active, completed, clock);
      assert Launched(id, active[id]) in trace;
      assert Backed(log, Launched(id, active[id]));
    }

    /** One look at an active process: its exit code, and for an ended one whether
        anything of its group survives. */
    method Judge(id: FlowId, now: int) returns (verdict: Verdict)
      requires Valid() && Logged() && LookingAt(now) && id in active && id in job.byId
      modifies this`asked, this`log
      ensures Logged() && LookingAt(now) && Spent() == old(Spent()) && old(log) <= log
      ensures verdict.StillRunning? <==>
        world.exits(old(asked)).None? && now - active[id] < job.byId[id].timeoutSeconds * SECOND
      ensures verdict.Done? <==> world.exits(old(asked)).Some? && !world.survives(old(asked) + 1)
      ensures verdict.Done? ==> (
        && world.exits(old(asked)) == Some(verdict.exitCode)
        && verdict.failure == if verdict.exitCode == 0 then None else Some(CommandFailed))
      ensures verdict.MustStop? ==>
        verdict.reason == match world.exits(old(asked))
                          case None => TimedOut
                          case Some(code) => if code == 0 then NativeCleanupIncomplete else CommandFailed
      ensures verdict == MustStop(TimedOut) ==> now - active[id] >= job.byId[id].timeoutSeconds * SECOND
      ensures Quiet() <==> old(Quiet()) && !verdict.MustStop? && (verdict.Done? ==> verdict.failure.None?)
      ensures verdict == Done(0, None) ==> Confirmed(log, id)
      ensures WasLookedAt(log, id, now)
    {
      hide Consistent, Runnable, Heard, Recorded, AllBenign, PastBudget, GoAhead, Looking, RoundAt, Confirmed;
      ActiveWasSpawned(id);
      var exitCode := AskExit(id, now);
      ghost var heard := log;
      assert WasLookedAt(heard, id, now) by {
        assert heard[|heard| - 1] == AskedExit(id, active[id], now, exitCode);
      }
      if exitCode.None? && now - active[id] >= job.byId[id].timeoutSeconds * SECOND {
        return MustStop(TimedOut);
      }
      if exitCode.None? {
        return StillRunning;
      }
      var failure := if exitCode.value != 0 then Some(CommandFailed) else None;
      var survivors := AskSurvivors(id);
      LookStays(heard, log, now);
      if survivors {
        return MustStop(if failure.Some? then failure.value else NativeCleanupIncomplete);
      }
      if exitCode.value == 0 {
        ConfirmedNow(old(log), id, active[id], now);
      }
      verdict := Done(exitCode.value, failure);
    }

    /** An interrupt between storing a result and leaving `active`: the flow keeps
        running as far as the history is concerned. */
    method StoreEarly(id: FlowId, exitCode: int, failure: Option<Failure>)
      requires Valid() && Logged() && !Quiet() && id in active
      modifies this`clock, this`asked, this`log, this`completed
      ensures Valid() && Logged() && !Quiet() && clock >= old(clock) && old(log) <= log && Spent() == old(Spent())
    {
      hide Heard, Recorded, AllBenign, PastBudget, GoAhead, Looking, RoundAt, Runnable, RoundMs, Safe;
      ConsistentFacts(job, trace, active, completed, clock);
      ReadClock(Ending(id));
      var flow, started := job.byId[id], active[id];
      completed := completed[id := FlowResult(id, flow.argv, Some(exitCode), failure, false,
        RoundMs(started - job.runStarted), RoundMs(clock - job.runStarted), RoundMs(clock - started))];
    }

    /** Every flow in ids started less than its timeout before `now`. */
    ghost predicate InTime(ids: set<FlowId>, now: int)
      reads this
    {
      forall id :: id in ids && id in active && id in job.byId ==>
        now - active[id] < job.byId[id].timeoutSeconds * SECOND
    }

    /** Store the result of an ended process, unless an interrupt gets in between. */
    method StoreResult(id: FlowId, exitCode: int, failure: Option<Failure>) returns (interrupted: bool)
      requires Valid() && Explained() && Logged() && id in active && completed.Keys !! active.Keys
      requires failure == if exitCode == 0 then None else Some(CommandFailed)
      requires failure.None? ==> Confirmed(log, id)
      modifies this`clock, this`asked, this`log, this`completed, this`active, this`trace
      ensures Valid() && old(trace) <= trace && clock >= old(clock) && Touched(trace) == old(Touched(trace))
      ensures Logged() && old(log) <= log && Spent() == old(Spent())
      ensures Explained() && (old(HasCause(trace)) ==> HasCause(trace))
      ensures interrupted ==> !Quiet() && active != map[]
      ensures !interrupted ==> (Quiet() <==> old(Quiet()))
      ensures !interrupted ==> forall now :: LookingAt(now) <==> old(LookingAt(now))
      ensures !interrupted ==> active == old(active) - {id} && completed.Keys !! active.Keys
      ensures !interrupted ==> completed[id].failure == failure && completed[id].exitCode == Some(exitCode)
      ensures !interrupted ==> (HasFailure(trace) <==> old(HasFailure(trace)) || failure.Some?)
      ensures !interrupted && failure.Some? ==> HasCause(trace)
    {
      hide Consistent, CompletedOk, Runnable, HasFailure, AllJustified, HasCause, Heard, Recorded, AllBenign,
        PastBudget, GoAhead, Looking, RoundAt, Confirmed, Touched;
      interrupted := AskInterrupt(AfterResult);
      if interrupted {
        StoreEarly(id, exitCode, failure);
      } else {
        ConfirmedGrows(old(log), AskedInterrupt(AfterResult, false), id);
        Finish(id, Some(exitCode), failure, false);
        AppendRunning(old(trace), Ended(id, clock, failure));
        AppendJustified(job, budget, old(trace), Ended(id, clock, failure), false);
      }
    }

    /** One turn of the for-loop over the active processes. */
    method PollOne(id: FlowId, now: int) returns (verdict: Verdict, interrupted: bool)
      requires Valid() && Explained() && Logged() && LookingAt(now)
      requires id in active && completed.Keys !! active.Keys
      modifies this`clock, this`asked, this`log, this`completed, this`active, this`trace
      ensures Valid() && old(trace) <= trace && clock >= old(clock) && Touched(trace) == old(Touched(trace))
      ensures Logged() && old(log) <= log && Spent() == old(Spent())
      ensures Explained() && (old(HasCause(trace)) ==> HasCause(trace))
      ensures interrupted ==> !Quiet() && active != map[]
      ensures !interrupted ==> LookingAt(now) && WasLookedAt(log, id, now)
      ensures !interrupted ==>
        (Quiet() <==> old(Quiet()) && !verdict.MustStop? && (verdict.Done? ==> verdict.failure.None?))
      ensures !interrupted && !verdict.Done? ==> unchanged(this`clock, this`completed, this`active, this`trace)
      ensures !interrupted && verdict.MustStop? ==> OverridesOk(job, active, now, map[id := verdict.reason])
      ensures !interrupted && verdict.Done? && verdict.failure.Some? ==> HasCause(trace)
      ensures !interrupted && verdict.StillRunning? ==> InTime({id}, now)
      ensures !interrupted && verdict.Done? ==> active == old(active) - {id} && completed.Keys !! active.Keys
      ensures !interrupted && verdict.Done? ==> (HasFailure(trace) <==> old(HasFailure(trace)) || verdict.failure.Some?)
    {
      hide Consistent, CompletedOk, Runnable, HasFailure, AllJustified, HasCause, Heard, Recorded, AllBenign,
        PastBudget, GoAhead, Looking, RoundAt, Confirmed, Touched, WasLookedAt;
      ConsistentFacts(job, trace, active, completed, clock);
      interrupted := false;
      verdict := Judge(id, now);
      ghost var heard := log;
      if verdict.Done? {
        interrupted := StoreResult(id, verdict.exitCode, verdict.failure);
        LookStays(heard, log, now);
      }
    }

    /** The for-loop over the active processes. */
    method PollAll(now: int) returns (interrupted: bool, failureFound: bool, reasons: map<FlowId, Failure>)
      requires Valid() && Explained() && !HasFailure(trace) && completed.Keys !! active.Keys && now == clock
      requires Logged() && LookingAt(now) && Quiet()
      modifies this`clock, this`asked, this`log, this`completed, this`active, this`trace
      ensures Valid() && old(trace) <= trace && clock >= old(clock)
      ensures Touched(trace) == old(Touched(trace))
      ensures Logged() && old(log) <= log && Spent() == old(Spent())
      ensures interrupted ==> !Quiet() && active != map[]
      ensures !interrupted ==> (Quiet() <==> reasons == map[] && !failureFound)
      ensures !interrupted ==> completed.Keys !! active.Keys && active.Keys <= old(active).Keys
      ensures Explained()
      ensures !interrupted ==> OverridesOk(job, active, clock, reasons) && reasons.Keys <= active.Keys
      ensures !interrupted && failureFound ==> HasCause(trace)
      ensures !interrupted ==> (HasFailure(trace) <==> failureFound)
      ensures !interrupted && active.Keys == old(active).Keys ==> active == old(active) && clock == now
      ensures !interrupted && reasons == map[] ==> InTime(active.Keys, now)
      ensures !interrupted ==> forall id :: id in old(active) ==> WasLookedAt(log, id, now)
    {
      hide Consistent, CompletedOk, Runnable, HasFailure, Touched, AllJustified, HasCause, Heard, Recorded, AllBenign,
        PastBudget, Looking, RoundAt, WasLookedAt, OverridesOk;
      NoOverrides(job, active, now);
      interrupted, failureFound, reasons := false, false, map[];
      var rest := active.Keys;
      while rest != {}
        invariant Valid() && old(trace) <= trace && clock >= now && Touched(trace) == old(Touched(trace))
        invariant Logged() && LookingAt(now) && old(log) <= log && Spent() == old(Spent())
        invariant Quiet() <==> reasons == map[] && !failureFound
        invariant rest <= active.Keys <= old(active).Keys && completed.Keys !! active.Keys
        invariant forall id :: id in active ==> active[id] == old(active)[id]
        invariant Explained() && OverridesOk(job, active, now, reasons) && reasons.Keys <= active.Keys - rest
        invariant failureFound ==> HasCause(trace)
        invariant HasFailure(trace) <==> failureFound
        invariant reasons == map[] ==> InTime(active.Keys - rest, now)
        invariant active.Keys == old(active).Keys ==> clock == now
        invariant forall id :: id in old(active) && id !in rest ==> WasLookedAt(log, id, now)
        decreases rest
      {
        var id :| id in rest;
        ghost var heard, was := log, active;
        var verdict;
        verdict, interrupted := PollOne(id, now);
        if interrupted {
          return;
        }
        LookStays(heard, log, now);
        OverridesStay(job, was, active, now, now, reasons);
        rest := rest - {id};
        if verdict.MustStop? {
          OverridesJoin(job, active, now, reasons, id, verdict.reason);
          reasons := reasons[id := verdict.reason];
        } else if verdict.Done? {
          failureFound := failureFound || verdict.failure.Some?;
        }
      }
      OverridesStay(job, active, active, now, clock, reasons);
    }

    /** Cancel what is left after a poll that found something wrong. */
    method CancelRest(reasons: map<FlowId, Failure>)
      requires Orderly() && Explained() && Logged() && !Quiet()
      requires OverridesOk(job, active, clock, reasons) && reasons.Keys <= active.Keys
      requires reasons == map[] ==> HasCause(trace) && HasFailure(trace)
      modifies this`failed, this`clock, this`asked, this`log, this`completed, this`active, this`trace
      ensures Settled() && Explained() && Logged() && failed && Spent() == old(Spent())
      ensures old(trace) <= trace && old(log) <= log && clock >= old(clock)
      ensures forall id :: id in old(active) ==>
        StoppedWith(id, world.stopFails(old(asked)), CancelledAfterFailure, reasons)
    {
      hide Consistent, CompletedOk, Runnable, HasFailure, Distinct, Touched, AllJustified, HasCause, OverridesOk,
        Heard, Recorded, AllBenign, PastBudget, GoAhead, Looking, RoundAt, StoppedWith;
      if reasons != map[] {
        var id :| id in reasons;
        assert id in reasons && id in active;
      }
      CancelActive(CancelledAfterFailure, reasons);
    }

    /** One look at every active process, with the cancellation that follows. */
    method Poll() returns (interrupted: bool)
      requires Settled() && Explained() && Logged() && Going() && !failed && active != map[]
      modifies this`failed, this`clock, this`asked, this`log, this`completed, this`active, this`trace
      ensures Valid() && old(trace) <= trace && clock >= old(clock)
      ensures Explained() && Logged() && old(log) <= log && Spent() == old(Spent())
      ensures interrupted ==> !Quiet() && active != map[]
      ensures !interrupted ==> Settled() && |active| <= |old(active)|
      ensures !interrupted && |active| == |old(active)| ==>
        !failed && active == old(active) && InTime(active.Keys, clock)
    {
      hide Consistent, CompletedOk, Runnable, HasFailure, Distinct, Touched, AllJustified, HasCause, OverridesOk,
        Heard, Recorded, AllBenign, PastBudget, GoAhead, Looking, RoundAt, StoppedWith;
      ReadClock(PollRound);
      var failureFound, reasons;
      interrupted, failureFound, reasons := PollAll(clock);
      if interrupted {
        return;
      }
      SubsetSize(active.Keys, old(active).Keys);
      assert |active| == |active.Keys| && |old(active)| == |old(active).Keys|;
      if reasons != map[] || failureFound {
        CancelRest(reasons);
        assert |old(active)| > 0;
      }
    }

    /** Launch while there is a free slot and something ready. */
    method LaunchAll() returns (launched: bool, interrupted: bool)
      requires Settled() && Explained() && Logged() && Going()
      modifies this
      ensures Valid() && Explained() && Logged() && Going() && old(trace) <= trace && clock >= old(clock)
      ensures old(log) <= log && Spent() == old(Spent())
      ensures interrupted ==> !Quiet() && active != map[]
      ensures !interrupted ==> Settled()
      ensures !interrupted && !launched && !failed ==> unchanged(this)
      ensures !interrupted && launched && !failed ==> 2 * |pending| + |active| < 2 * |old(pending)| + |old(active)|
      ensures !interrupted && !failed && active == map[] ==> pending == []
      ensures !interrupted && !failed && |active| < job.maxParallel ==>
        forall i :: 0 <= i < |pending| ==> pending[i] in job.byId && !Ready(job.byId, completed, pending[i])
    {
      hide Consistent, CompletedOk, HasFailure, Distinct, Touched, Ready, AllJustified, Heard, Recorded, AllBenign,
        PastBudget, GoAhead;
      launched, interrupted := false, false;
      while !failed && |active| < job.maxParallel
        invariant Settled() && Explained() && Logged() && Going() && old(trace) <= trace && clock >= old(clock)
        invariant old(log) <= log && Spent() == old(Spent())
        invariant !launched && !failed ==> unchanged(this)
        invariant launched && !failed ==> 2 * |pending| + |active| < 2 * |old(pending)| + |old(active)|
        decreases !failed, |pending|
      {
        ghost var k;
        var step;
        step, k := Launch();
        match step {
          case NothingReady =>
            NothingReadyMeansBusy();
            break;
          case DidLaunch =>
            launched := true;
          case CouldNotLaunch =>
          case InterruptedLaunch =>
            interrupted := true;
            return;
        }
      }
    }

    lemma NothingReadyMeansBusy()
      requires Settled() && !failed
      requires forall i :: 0 <= i < |pending| ==> pending[i] in job.byId && !Ready(job.byId, completed, pending[i])
      ensures active == map[] ==> pending == []
    {
      hide AllBenign;
      if active == map[] && pending != [] {
        ConsistentFacts(job, trace, active, completed, clock);
        ProgressIsPossible(job, trace, completed, pending);
        assert false;
      }
    }

    /** The flow shows that the budget ran out: that is its failure, unless stopping it raised. */
    ghost predicate BudgetFailure(id: FlowId)
      reads this`completed, this`log
    {
      && id in completed
      && (completed[id].failure == Some(BudgetExceeded)
          || (completed[id].failure == Some(CleanupFailed) && AskedStop(true) in log))
    }

    /** The active budget has run out: every active flow is stopped for it, or without
        one the first pending flow is refused for it. */
    method StopOnBudget()
      requires Orderly() && Explained() && Logged() && Spent() && !Quiet()
      requires pending != [] || active != map[]
      requires budget.Some? && !WithinBudget(Asking(), clock)
      modifies this
      ensures Valid() && Explained() && Logged() && !Quiet() && Spent() && old(trace) <= trace && old(log) <= log
      ensures failed && active == map[] && HasFailure(trace)
      ensures forall id :: id in old(active) ==> BudgetFailure(id)
      ensures old(active) == map[] ==> BudgetFailure(old(pending)[0]) && pending == old(pending)[1..]
    {
      hide Consistent, CompletedOk, Runnable, HasFailure, Touched, AllJustified, Heard, Recorded, AllBenign,
        PastBudget, GoAhead, Looking, RoundAt, OverridesOk, StartedAt;
      if active != map[] {
        BudgetReason();
        CancelActive(BudgetExceeded, map[]);
      } else {
        PendingIsNew(0);
        ReadClock(Starting(pending[0]));
        RefuseProcess(pending[0], clock, BudgetExceeded);
        AppendRunning(old(trace), trace[|old(trace)|]);
        AppendJustified(job, budget, old(trace), Skipped(old(pending)[0], clock, Some(BudgetExceeded)), false);
        RemovePending(0, old(trace));
        failed := true;
      }
    }

    lemma BudgetReason()
      requires budget.Some? && !WithinBudget(Asking(), clock)
      ensures OverridesOk(job, active, clock, map[])
      ensures ReasonOk(job, budget, trace, active, clock, BudgetExceeded, map[])
    {
    }

    ghost function Work(): nat
      reads this
    {
      2 * |pending| + |active|
    }

    ghost function TimeLeft(): nat
      reads this
    {
      TimeToDeadline(job, active, clock)
    }

    lemma TimeLeftPositive()
      requires Valid() && active != map[] && InTime(active.Keys, clock)
      ensures TimeLeft() > 0
    {
      ConsistentFacts(job, trace, active, completed, clock);
    }

    /** KeyboardInterrupt */
    method Interrupt()
      requires Valid() && Explained() && Logged() && !Quiet()
      modifies this`failed, this`clock, this`asked, this`log, this`completed, this`active, this`trace
      ensures Valid() && Explained() && Logged() && !Quiet() && failed && active == map[]
      ensures old(trace) <= trace && old(log) <= log && Touched(trace) == old(Touched(trace))
      ensures HasFailure(trace) <==> old(HasFailure(trace)) || old(active) != map[]
      ensures Spent() == old(Spent())
      ensures forall id :: id in old(active) ==> StoppedWith(id, world.stopFails(old(asked)), Interrupted, map[])
    {
      hide Consistent, AllJustified, HasFailure, Touched, Heard, Recorded, AllBenign, PastBudget, StoppedWith,
        GoAhead, Looking, RoundAt;
      CancelActive(Interrupted, map[]);
    }

    /** After an interrupt or a spent budget, some selected flow lacks a successful result. */
    lemma PendingIsMissing()
      requires Elements(pending) == Elements(job.selected) - Touched(trace) && pending != []
      ensures Touched(trace) != Elements(job.selected)
    {
      assert pending[0] in Elements(pending);
    }

    /** The head of a turn: an interrupt or a spent budget ends the run. The reading is
        there when a budget is to be checked. */
    method BeginTurn() returns (leave: bool, ghost head: Option<int>)
      requires Settled() && Explained() && Logged() && !Spent() && (pending != [] || active != map[])
      modifies this
      ensures Valid() && Explained() && Logged() && old(trace) <= trace && old(log) <= log
      ensures head == if budget.None? || world.interrupts(old(asked)) then None
                      else Some(Later(old(clock), world.clock(old(asked) + 1)))
      ensures leave <==> world.interrupts(old(asked)) || (head.Some? && !WithinBudget(Asking(), head.value))
      ensures Spent() <==> leave && head.Some?
      ensures leave && head.Some? ==> (
        && (forall k :: |old(log)| <= k < |log| ==> !IsWork(log[k]))
        && (forall id :: id in old(active) ==> BudgetFailure(id))
        && (old(active) == map[] ==> BudgetFailure(old(pending)[0])))
      ensures leave && head.None? ==>
        forall id :: id in old(active) ==> StoppedWith(id, world.stopFails(old(asked) + 1), Interrupted, map[])
      ensures leave ==> failed && !Quiet() && active == map[]
      ensures leave ==> HasFailure(trace) || Touched(trace) != Elements(job.selected)
      ensures !leave ==> clock >= old(clock)
      ensures !leave ==> Settled() && Going() && unchanged(this`pending, this`active, this`completed, this`failed)
    {
      hide Consistent, CompletedOk, Runnable, HasFailure, Touched, Distinct, AllJustified, Heard, Recorded, AllBenign,
        PastBudget, GoAhead, StoppedWith, BudgetFailure;
      head, leave := None, false;
      var interrupted := AskInterrupt(LoopHead);
      if interrupted {
        if active == map[] {
          PendingIsMissing();
        }
        Interrupt();
        return true, head;
      }
      if budget.Some? {
        ReadClock(TurnHead);
        head := Some(clock);
        if clock - job.runStarted >= budget.value * SECOND {
          ghost var n := |log| - 2;
          StopOnBudget();
          SpentTurn(n);
          leave := true;
        }
      }
    }

    /** One turn of the main loop. A turn that launches nothing sleeps first, so either
        work disappears or the earliest deadline comes nearer. */
    method Turn() returns (end: TurnEnd, ghost head: Option<int>)
      requires Settled() && Explained() && Logged() && !Spent() && (pending != [] || active != map[])
      modifies this
      ensures Valid() && Explained() && Logged() && old(trace) <= trace && old(log) <= log
      ensures head == if budget.None? || world.interrupts(old(asked)) then None
                      else Some(Later(old(clock), world.clock(old(asked) + 1)))
      ensures head.Some? && !WithinBudget(Asking(), head.value) ==> (
        && end == Leave && failed && Spent()
        && (forall k :: |old(log)| <= k < |log| ==> !IsWork(log[k]))
        && (forall id :: id in old(active) ==> BudgetFailure(id))
        && (old(active) == map[] ==> BudgetFailure(old(pending)[0])))
      ensures Spent() ==> head.Some? && !WithinBudget(Asking(), head.value)
      ensures world.interrupts(old(asked)) ==> (
        && end == Leave && failed
        && forall id :: id in old(active) ==> StoppedWith(id, world.stopFails(old(asked) + 1), Interrupted, map[]))
      ensures end == Again ==> Settled()
      ensures end == Again ==> Work() < old(Work()) || (Work() == old(Work()) && TimeLeft() < old(TimeLeft()))
      ensures end == Leave ==> active == map[] && (failed <==> !Quiet())
      ensures end == Leave && failed ==> HasFailure(trace) || Touched(trace) != Elements(job.selected)
      ensures end == Leave && !failed ==> Settled() && pending == []
      ensures end != Stuck
    {
      hide Consistent, CompletedOk, Runnable, HasFailure, Touched, Distinct, AllJustified, TimeToDeadline, Heard,
        Recorded, AllBenign, PastBudget, GoAhead, StoppedWith, BudgetFailure, WithinBudget, InTime;
      var leave;
      leave, head := BeginTurn();
      if leave {
        return Leave, head;
      }
      var launched, interrupted;
      launched, interrupted := LaunchAll();
      if interrupted {
        Interrupt();
        return Leave, head;
      }
      if failed {
        return Leave, head;
      }
      if active == map[] {
        if pending != [] {
          return Stuck, head;
        }
        return Leave, head;
      }
      if !launched {
        Sleep();
      }
      label Polling:
      interrupted := Poll();
      if interrupted {
        Interrupt();
        return Leave, head;
      }
      if !launched && |active| == |old@Polling(active)| {
        TimeLeftPositive();
        DeadlineNearer(job, active, old(clock), clock);
      }
      end := Again;
    }

    lemma SomeBudgetFailure(was: ActiveFlows, waiting: seq<FlowId>)
      requires forall id :: id in was ==> BudgetFailure(id)
      requires was == map[] ==> waiting != [] && BudgetFailure(waiting[0])
      ensures exists id :: BudgetFailure(id)
    {
      if was != map[] {
        var id :| id in was;
        assert BudgetFailure(id);
      }
    }

    lemma SpentEndsWork()
      requires Logged()
      ensures forall n, m :: 0 <= n < m < |log| && SpentHead(Asking(), log[n]) ==> !IsWork(log[m])
    {
      hide IsWork;
      forall n, m | 0 <= n < m < |log| && SpentHead(Asking(), log[n]) ensures !IsWork(log[m]) {
        NoWorkPastBudget(Asking(), log, n, m);
      }
    }

    lemma SpentTurn(n: nat)
      requires Logged() && |log| > n + 1 && log[n] == AskedInterrupt(LoopHead, false)
      requires SpentHead(Asking(), log[n + 1])
      ensures forall k :: n <= k < |log| ==> !IsWork(log[k])
    {
      forall k | n <= k < |log| ensures !IsWork(log[k]) {
        if k > n + 1 {
          NoWorkPastBudget(Asking(), log, n + 1, k);
        }
      }
    }

    /** What the end of the main loop means for the results. */
    lemma RunIsComplete()
      requires Valid() && active == map[]
      requires failed ==> HasFailure(trace) || Touched(trace) != Elements(job.selected)
      requires !failed ==> Settled() && pending == []
      ensures Running(trace) == {} && completed.Keys == Touched(trace)
      ensures !failed <==> AllSucceeded(job.selected, completed)
      ensures !failed ==> completed.Keys == Elements(job.selected)
    {
      hide AllBenign, Safe;
      ConsistentFacts(job, trace, active, completed, clock);
      if failed {
        FailureShows();
      } else {
        assert Elements(pending) == {};
        forall id | id in completed ensures completed[id].failure.None? {
          QuietMeansSucceeded(job, trace, completed, id);
        }
      }
    }

    /** With nothing active, a failed history shows in some result. */
    lemma FailureShows()
      requires Valid() && active == map[] && (HasFailure(trace) || Touched(trace) != Elements(job.selected))
      ensures !AllSucceeded(job.selected, completed)
    {
      hide Safe, Runnable, AllSucceeded;
      ConsistentFacts(job, trace, active, completed, clock);
      if HasFailure(trace) {
        var e :| e in trace && !e.Launched? && e.failure.Some?;
        FailedEventShows(job, trace, completed, clock, e);
        FailureIsNoSuccess(job.selected, completed, e.id);
      } else {
        var id :| id in Elements(job.selected) && id !in Touched(trace);
        FailureIsNoSuccess(job.selected, completed, id);
      }
    }

    /** execute_flow_plan. The run always ends, never gets stuck, and leaves exactly
        one backed result for every flow it touched. Every selected flow succeeded
        exactly when all answers were benign. After a turn that found the budget spent
        at its head nothing is started or looked at, and a result shows it. Nothing is
        left active for the final cancellation. */
    method Run() returns (r: RunOutcome)
      requires Settled() && Explained() && Logged() && !failed && !Spent()
      modifies this
      ensures Valid() && Explained() && Logged() && active == map[] && old(trace) <= trace && old(log) <= log
      ensures Running(trace) == {} && completed.Keys == Touched(trace)
      ensures r == Finished(Collect(job.selected, completed))
      ensures failed <==> !Quiet()
      ensures Quiet() <==> AllSucceeded(job.selected, completed)
      ensures Quiet() ==> completed.Keys == Elements(job.selected) && !HasFailure(trace)
      ensures Spent() ==> exists id :: BudgetFailure(id)
      ensures forall n, m :: 0 <= n < m < |log| && SpentHead(Asking(), log[n]) ==> !IsWork(log[m])
    {
      hide Consistent, CompletedOk, Runnable, HasFailure, Touched, Distinct, AllJustified, Heard, Recorded, AllBenign,
        PastBudget, BudgetFailure, AllSucceeded, WithinBudget, TimeToDeadline, SpentHead, IsWork;
      while pending != [] || active != map[]
        invariant Settled() && Explained() && Logged() && !Spent() && old(trace) <= trace && old(log) <= log
        decreases Work(), TimeLeft()
      {
        var end;
        ghost var head, was, waiting := None, active, pending;
        end, head := Turn();
        if end == Stuck {
          return NoProgress;
        }
        if end == Leave {
          if Spent() {
            SomeBudgetFailure(was, waiting);
          }
          break;
        }
      }
      RunIsComplete();
      SpentEndsWork();
      r := Finished(Collect(job.selected, completed));
    }
  }
}
