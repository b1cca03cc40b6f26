/** Histories of scheduler runs: what makes a history safe, and why the results
    of an all-successful safe history pass the checks of FlowTiming. */
module FlowTrace {
  import opened Common
  import opened FlowGraph
  import opened FlowTiming

  /** Launched: a process was registered in `active`. Ended: a launched flow got its
      result. Skipped: a flow got a result without ever having a process. */
  datatype Event =
    | Launched(id: FlowId, at: int)
    | Ended(id: FlowId, at: int, failure: Option<Failure>)
    | Skipped(id: FlowId, at: int, failure: Option<Failure>)

  type Trace = seq<Event>

  /** Flows that a history has launched or skipped. */
  ghost function Touched(tr: Trace): set<FlowId> {
    set e | e in tr && !e.Ended? :: e.id
  }

  /** Launched flows without a result. */
  ghost function Running(tr: Trace): set<FlowId> {
    if tr == [] then {} else RunningAfter(Running(tr[..|tr| - 1]), tr[|tr| - 1])
  }

  ghost function RunningAfter(running: set<FlowId>, e: Event): set<FlowId> {
    match e
    case Launched(id, _) => running + {id}
    case Ended(id, _, _) => running - {id}
    case Skipped(_, _, _) => running
  }

  ghost predicate HasFailure(tr: Trace) {
    exists e :: e in tr && !e.Launched? && e.failure.Some?
  }

  ghost predicate Succeeded(tr: Trace, id: FlowId) {
    exists e :: e in tr && e.Ended? && e.id == id && e.failure.None?
  }

  /** The last event of tr + [e] is allowed after tr. A launch needs a free slot, a
      clean history and every dependency successfully ended. */
  ghost predicate Allowed(tr: Trace, e: Event, g: Graph, maxParallel: int) {
    && (tr != [] ==> tr[|tr| - 1].at <= e.at)
    && match e
       case Launched(id, _) =>
         && id !in Touched(tr) && id in g
         && |Running(tr)| < maxParallel
         && !HasFailure(tr)
         && (forall d :: d in g[id] ==> Succeeded(tr, d))
       case Ended(id, _, _) => id in Running(tr)
       case Skipped(id, _, failure) => id !in Touched(tr) && failure.Some?
  }

  ghost predicate Safe(tr: Trace, g: Graph, maxParallel: int) {
    tr == [] ||
    (Safe(tr[..|tr| - 1], g, maxParallel) && Allowed(tr[..|tr| - 1], tr[|tr| - 1], g, maxParallel))
  }

  lemma AppendSafe(tr: Trace, e: Event, g: Graph, maxParallel: int)
    requires Safe(tr, g, maxParallel) && Allowed(tr, e, g, maxParallel)
    ensures Safe(tr + [e], g, maxParallel)
  {
    assert (tr + [e])[..|tr|] == tr;
  }

  lemma AppendRunning(tr: Trace, e: Event)
    ensures Running(tr + [e]) == RunningAfter(Running(tr), e)
    ensures Touched(tr + [e]) == if e.Ended? then Touched(tr) else Touched(tr) + {e.id}
    ensures HasFailure(tr + [e]) <==> HasFailure(tr) || (!e.Launched? && e.failure.Some?)
  {
    assert (tr + [e])[..|tr|] == tr;
    assert forall x :: x in tr + [e] <==> x in tr || x == e;
  }

  /** Every event of a safe history was allowed after its own past. */
  lemma {:induction false} AllowedAt(tr: Trace, g: Graph, maxParallel: int, i: nat)
    requires Safe(tr, g, maxParallel) && i < |tr|
    ensures Safe(tr[..i], g, maxParallel) && Allowed(tr[..i], tr[i], g, maxParallel)
  {
    if i < |tr| - 1 {
      AllowedAt(tr[..|tr| - 1], g, maxParallel, i);
      assert tr[..|tr| - 1][..i] == tr[..i];
    }
  }

  lemma {:induction false} TimesIncrease(tr: Trace, g: Graph, maxParallel: int, i: nat, j: nat)
    requires Safe(tr, g, maxParallel) && i <= j < |tr|
    ensures tr[i].at <= tr[j].at
  {
    if i < j {
      AllowedAt(tr, g, maxParallel, j);
      TimesIncrease(tr, g, maxParallel, i, j - 1);
      assert tr[..j][j - 1] == tr[j - 1];
    }
  }

  lemma {:induction false} RunningWasTouched(tr: Trace)
    ensures Running(tr) <= Touched(tr)
  {
    if tr != [] {
      RunningWasTouched(tr[..|tr| - 1]);
      assert tr == tr[..|tr| - 1] + [tr[|tr| - 1]];
    }
  }

  /** A flow that ended earlier is touched and never runs again. */
  lemma {:induction false} EndedStaysEnded(tr: Trace, g: Graph, maxParallel: int, e: nat, m: nat)
    requires Safe(tr, g, maxParallel) && e < m <= |tr| && tr[e].Ended?
    ensures tr[e].id in Touched(tr[..m]) && tr[e].id !in Running(tr[..m])
    decreases m
  {
    hide Safe, Running, Touched, HasFailure, Succeeded;
    assert tr[..m] == tr[..m - 1] + [tr[m - 1]];
    AppendRunning(tr[..m - 1], tr[m - 1]);
    if e == m - 1 {
      AllowedAt(tr, g, maxParallel, e);
      RunningWasTouched(tr[..e]);
    } else {
      EndedStaysEnded(tr, g, maxParallel, e, m - 1);
      AllowedAt(tr, g, maxParallel, m - 1);
    }
  }

  /** A flow ends at most once. */
  lemma EndsOnce(tr: Trace, g: Graph, maxParallel: int, e: nat, e': nat)
    requires Safe(tr, g, maxParallel) && e < |tr| && e' < |tr|
    requires tr[e].Ended? && tr[e'].Ended? && tr[e].id == tr[e'].id
    ensures e == e'
  {
    if e < e' {
      EndedStaysEnded(tr, g, maxParallel, e, e');
      AllowedAt(tr, g, maxParallel, e');
    } else if e' < e {
      EndedStaysEnded(tr, g, maxParallel, e', e);
      AllowedAt(tr, g, maxParallel, e);
    }
  }

  /** A flow is launched at most once. */
  lemma {:induction false} LaunchesOnce(tr: Trace, g: Graph, maxParallel: int, l: nat, l': nat)
    requires Safe(tr, g, maxParallel) && l < |tr| && l' < |tr|
    requires tr[l].Launched? && tr[l'].Launched? && tr[l].id == tr[l'].id
    ensures l == l'
  {
    if l < l' {
      assert tr[l] in tr[..l'];
      AllowedAt(tr, g, maxParallel, l');
    } else if l' < l {
      assert tr[l'] in tr[..l];
      AllowedAt(tr, g, maxParallel, l);
    }
  }

  /** Every event is about a touched flow. */
  lemma EventTouches(tr: Trace, g: Graph, maxParallel: int, k: nat)
    requires Safe(tr, g, maxParallel) && k < |tr|
    ensures tr[k].id in Touched(tr)
  {
    AllowedAt(tr, g, maxParallel, k);
    if tr[k].Ended? {
      RunningWasTouched(tr[..k]);
      var e :| e in tr[..k] && !e.Ended? && e.id == tr[k].id;
      assert e in tr;
    }
  }

  /** No flow is both launched and skipped. */
  lemma LaunchedIsNotSkipped(tr: Trace, g: Graph, maxParallel: int, l: nat, k: nat)
    requires Safe(tr, g, maxParallel) && l < |tr| && k < |tr|
    requires tr[l].Launched? && tr[k].Skipped?
    ensures tr[l].id != tr[k].id
  {
    if l < k {
      AllowedAt(tr, g, maxParallel, k);
      assert tr[l] in tr[..k];
    } else {
      AllowedAt(tr, g, maxParallel, l);
      assert l > k ==> tr[k] in tr[..l];
    }
  }

  /** Between its launch and its end a flow is running. */
  lemma {:induction false} RunsUntilEnd(tr: Trace, g: Graph, maxParallel: int, l: nat, m: nat, e: nat)
    requires Safe(tr, g, maxParallel) && l < m <= e < |tr|
    requires tr[l].Launched? && tr[e].Ended? && tr[l].id == tr[e].id
    ensures tr[l].id in Running(tr[..m])
    decreases m
  {
    assert tr[..m][..m - 1] == tr[..m - 1];
    if l < m - 1 {
      RunsUntilEnd(tr, g, maxParallel, l, m - 1, e);
      if tr[m - 1].Ended? && tr[m - 1].id == tr[l].id {
        EndsOnce(tr, g, maxParallel, m - 1, e);
      }
    }
  }

  // --------------------------------------------------- results of a history

  /** Result r reports the launch at position l and the end at position e. */
  ghost predicate ReportsRun(r: FlowResult, tr: Trace, runStarted: int, l: int, e: int) {
    && 0 <= l < e < |tr|
    && tr[l].Launched? && tr[l].id == r.id
    && tr[e] == Ended(r.id, tr[e].at, r.failure)
    && r.startedMs == RoundMs(tr[l].at - runStarted)
    && r.finishedMs == RoundMs(tr[e].at - runStarted)
    && r.durationMs == RoundMs(tr[e].at - tr[l].at)
  }

  /** Result r is a successful run recorded in tr. */
  ghost predicate ReportsSuccess(r: FlowResult, tr: Trace, runStarted: int) {
    r.failure.None? && exists l, e :: ReportsRun(r, tr, runStarted, l, e)
  }

  /** A finished run in which each planned flow succeeded. */
  ghost predicate AllSuccessful(results: seq<FlowResult>, plan: Plan, tr: Trace, runStarted: int) {
    && SameIds(results, plan.flows)
    && (forall i, j :: 0 <= i < j < |plan.flows| ==> plan.flows[i].id != plan.flows[j].id)
    && (forall i :: 0 <= i < |results| ==> ReportsSuccess(results[i], tr, runStarted))
    && (forall e :: e in tr ==> runStarted <= e.at)
  }

  /** Where a reported run sits in its history. */
  ghost function LaunchAt(r: FlowResult, tr: Trace, runStarted: int): (l: nat)
    requires ReportsSuccess(r, tr, runStarted)
    ensures exists e :: ReportsRun(r, tr, runStarted, l, e)
  {
    var l, e :| ReportsRun(r, tr, runStarted, l, e); l
  }

  /** At every moment of a safe history at most maxParallel flows are running. */
  lemma {:induction false} SlotsAreNeverExceeded(tr: Trace, g: Graph, maxParallel: int, m: nat)
    requires Safe(tr, g, maxParallel) && m <= |tr| && maxParallel >= 0
    ensures |Running(tr[..m])| <= maxParallel
  {
    if m > 0 {
      SlotsAreNeverExceeded(tr, g, maxParallel, m - 1);
      AllowedAt(tr, g, maxParallel, m - 1);
      hide Safe, Running, HasFailure, Succeeded;
      assert tr[..m] == tr[..m - 1] + [tr[m - 1]];
      AppendRunning(tr[..m - 1], tr[m - 1]);
      SubsetSize(Running(tr[..m - 1]) - {tr[m - 1].id}, Running(tr[..m - 1]));
    }
  }

  lemma LaunchHasSlot(tr: Trace, g: Graph, maxParallel: int, l: nat)
    requires Safe(tr, g, maxParallel) && l < |tr| && tr[l].Launched?
    ensures |Running(tr[..l])| < maxParallel
  {
    AllowedAt(tr, g, maxParallel, l);
  }

  lemma LaunchNeeds(tr: Trace, g: Graph, maxParallel: int, l: nat, d: FlowId)
    requires Safe(tr, g, maxParallel) && l < |tr| && tr[l].Launched?
    requires tr[l].id in g ==> d in g[tr[l].id]
    ensures tr[l].id in g && Succeeded(tr[..l], d)
  {
    AllowedAt(tr, g, maxParallel, l);
  }

  /** The end of a flow that succeeded before position l lies before l. */
  lemma SuccessCameBefore(tr: Trace, g: Graph, maxParallel: int, d: FlowId, e: nat, l: nat)
    requires Safe(tr, g, maxParallel) && l < |tr| && e < |tr|
    requires tr[e].Ended? && tr[e].id == d && Succeeded(tr[..l], d)
    ensures tr[e].at <= tr[l].at
  {
    var early :| early in tr[..l] && early.Ended? && early.id == d && early.failure.None?;
    var at :| 0 <= at < l && tr[at] == early;
    EndsOnce(tr, g, maxParallel, at, e);
    TimesIncrease(tr, g, maxParallel, e, l);
  }

  lemma EndsBeforeLaunch(tr: Trace, g: Graph, maxParallel: int, l: nat, d: FlowId, e: nat)
    requires Safe(tr, g, maxParallel) && l < |tr| && tr[l].Launched? && e < |tr|
    requires tr[l].id in g ==> d in g[tr[l].id]
    requires tr[e].Ended? && tr[e].id == d
    ensures tr[e].at <= tr[l].at
  {
    LaunchNeeds(tr, g, maxParallel, l, d);
    SuccessCameBefore(tr, g, maxParallel, d, e, l);
  }

  lemma ReportedRunAgrees(r: FlowResult, tr: Trace, runStarted: int, g: Graph, maxParallel: int, l: nat, e: nat)
    requires Safe(tr, g, maxParallel) && ReportsRun(r, tr, runStarted, l, e)
    requires runStarted <= tr[l].at
    ensures DurationAgrees(r)
  {
    TimesIncrease(tr, g, maxParallel, l, e);
    RoundedRun(runStarted, tr[l].at, tr[e].at);
  }

  /** Each rounded duration agrees with its rounded offsets. */
  lemma SuccessfulDurations(results: seq<FlowResult>, plan: Plan, tr: Trace, runStarted: int, g: Graph,
                            maxParallel: int)
    requires Safe(tr, g, maxParallel) && AllSuccessful(results, plan, tr, runStarted)
    ensures forall k :: 0 <= k < |results| ==> DurationAgrees(results[k])
  {
    forall k | 0 <= k < |results| ensures DurationAgrees(results[k]) {
      assert ReportsSuccess(results[k], tr, runStarted);
      var l, e :| ReportsRun(results[k], tr, runStarted, l, e);
      assert tr[l] in tr;
      ReportedRunAgrees(results[k], tr, runStarted, g, maxParallel, l, e);
    }
  }

  /** Rounding keeps a dependency's finish before its dependent's start. */
  lemma ReportedOrder(mine: FlowResult, theirs: FlowResult, tr: Trace, runStarted: int, g: Graph, maxParallel: int,
                      l: nat, e: nat, l': nat, e': nat)
    requires Safe(tr, g, maxParallel)
    requires ReportsRun(mine, tr, runStarted, l, e) && ReportsRun(theirs, tr, runStarted, l', e')
    requires mine.id in g && theirs.id in g[mine.id]
    ensures theirs.finishedMs <= mine.startedMs
  {
    EndsBeforeLaunch(tr, g, maxParallel, l, theirs.id, e');
    RoundIsMonotone(tr[e'].at - runStarted, tr[l].at - runStarted);
  }

  /** After rounding no flow starts before one of its dependencies finished. */
  lemma SuccessfulOrder(results: seq<FlowResult>, plan: Plan, tr: Trace, runStarted: int, g: Graph, maxParallel: int,
                        k: nat)
    requires Safe(tr, g, maxParallel) && AllSuccessful(results, plan, tr, runStarted)
    requires k < |results| && plan.flows[k].id in g && plan.flows[k].dependsOn == g[plan.flows[k].id]
    requires forall d :: d in plan.flows[k].dependsOn ==> exists i :: 0 <= i < |results| && results[i].id == d
    ensures FollowsDependencies(results, plan.flows[k])
  {
    ResultForUnique(results, k);
    forall d | d in plan.flows[k].dependsOn
      ensures ResultFor(results, d).Some?
      ensures ResultFor(results, d).value.finishedMs <= results[k].startedMs
    {
      var i :| 0 <= i < |results| && results[i].id == d;
      ResultForUnique(results, i);
      var l, e :| ReportsRun(results[k], tr, runStarted, l, e);
      var l', e' :| ReportsRun(results[i], tr, runStarted, l', e');
      ReportedOrder(results[k], results[i], tr, runStarted, g, maxParallel, l, e, l', e');
    }
  }

  lemma {:induction false} ImageSize<T, U>(s: set<T>, f: T -> U, image: set<U>)
    requires forall x :: x in s ==> f(x) in image
    requires forall x, y :: x in s && y in s && f(x) == f(y) ==> x == y
    ensures |s| <= |image|
  {
    if s != {} {
      var x :| x in s;
      ImageSize(s - {x}, f, image - {f(x)});
    }
  }

  /** The latest-launched member of a non-empty set of results. */
  lemma {:induction false} LatestLaunch(results: seq<FlowResult>, tr: Trace, runStarted: int, s: set<nat>)
      returns (k: nat)
    requires s != {} && forall j :: j in s ==> j < |results| && ReportsSuccess(results[j], tr, runStarted)
    ensures k in s
    ensures forall j :: j in s ==>
      LaunchAt(results[j], tr, runStarted) <= LaunchAt(results[k], tr, runStarted)
  {
    k :| k in s;
    if s != {k} {
      var other := LatestLaunch(results, tr, runStarted, s - {k});
      if LaunchAt(results[other], tr, runStarted) > LaunchAt(results[k], tr, runStarted) {
        k := other;
      }
    }
  }

  /** A result whose rounded finish lies after the rounded start of a later launch was
      truly running at that launch. */
  lemma RunningAtLaunch(mine: FlowResult, other: FlowResult, tr: Trace, runStarted: int, g: Graph, maxParallel: int,
                        l: nat, e: nat, m: nat, e': nat)
    requires Safe(tr, g, maxParallel) && l < m
    requires ReportsRun(mine, tr, runStarted, l, e) && ReportsRun(other, tr, runStarted, m, e')
    requires other.startedMs < mine.finishedMs
    ensures mine.id in Running(tr[..m])
  {
    if e < m {
      TimesIncrease(tr, g, maxParallel, e, m);
      RoundIsMonotone(tr[e].at - runStarted, tr[m].at - runStarted);
    } else {
      RunsUntilEnd(tr, g, maxParallel, l, m, e);
    }
  }

  lemma OverlapWasRunning(mine: FlowResult, other: FlowResult, tr: Trace, runStarted: int, g: Graph, maxParallel: int)
    requires Safe(tr, g, maxParallel) && mine.id != other.id
    requires ReportsSuccess(mine, tr, runStarted) && ReportsSuccess(other, tr, runStarted)
    requires LaunchAt(mine, tr, runStarted) <= LaunchAt(other, tr, runStarted)
    requires other.startedMs < mine.finishedMs
    ensures mine.id in Running(tr[..LaunchAt(other, tr, runStarted)])
  {
    hide RoundMs, Safe, Running;
    var l, m := LaunchAt(mine, tr, runStarted), LaunchAt(other, tr, runStarted);
    var e :| ReportsRun(mine, tr, runStarted, l, e);
    var e' :| ReportsRun(other, tr, runStarted, m, e');
    RunningAtLaunch(mine, other, tr, runStarted, g, maxParallel, l, e, m, e');
  }

  /** After rounding the peak overlap still respects the bound on parallelism. */
  lemma SuccessfulOverlap(results: seq<FlowResult>, plan: Plan, tr: Trace, runStarted: int, g: Graph, maxParallel: int,
                          i: nat)
    requires Safe(tr, g, maxParallel) && AllSuccessful(results, plan, tr, runStarted)
    requires i < |results| && maxParallel >= 0
    ensures |Overlapping(results, i)| <= maxParallel
  {
    hide RoundMs, Safe, Running;
    var s := Overlapping(results, i);
    if s != {} {
      var k := LatestLaunch(results, tr, runStarted, s);
      var l := LaunchAt(results[k], tr, runStarted);
      var running := Running(tr[..l]);
      var e :| ReportsRun(results[k], tr, runStarted, l, e);
      LaunchHasSlot(tr, g, maxParallel, l);
      var others := s - {k};
      var name := (j: nat) => if j < |results| then results[j].id else "";
      forall j | j in others ensures name(j) in running {
        DifferentIds(results, plan, j, k);
        OverlapWasRunning(results[j], results[k], tr, runStarted, g, maxParallel);
      }
      forall x, y | x in others && y in others && name(x) == name(y) ensures x == y {
        if x != y {
          DifferentIds(results, plan, x, y);
        }
      }
      ImageSize(others, name, running);
      assert s == others + {k};
    }
  }

  lemma DifferentIds(results: seq<FlowResult>, plan: Plan, j: nat, k: nat)
    requires SameIds(results, plan.flows) && j < |results| && k < |results| && j != k
    requires forall a, b :: 0 <= a < b < |plan.flows| ==> plan.flows[a].id != plan.flows[b].id
    ensures results[j].id != results[k].id
  {
  }

  /** Main result: whatever the interleaving, the results of an all-successful run of
      the plan pass both timing checks. */
  lemma SuccessfulRunIsAccepted(results: seq<FlowResult>, plan: Plan, tr: Trace, runStarted: int, g: Graph)
    requires Safe(tr, g, plan.maxParallel) && plan.maxParallel >= 0
    requires AllSuccessful(results, plan, tr, runStarted)
    requires forall k :: 0 <= k < |plan.flows| ==>
      && plan.flows[k].id in g && plan.flows[k].dependsOn == g[plan.flows[k].id]
      && forall d :: d in plan.flows[k].dependsOn ==> exists i :: 0 <= i < |plan.flows| && plan.flows[i].id == d
    ensures TimingOk(results, plan)
    ensures forall k :: 0 <= k < |results| ==> DurationAgrees(results[k])
  {
    SuccessfulDurations(results, plan, tr, runStarted, g, plan.maxParallel);
    forall k | 0 <= k < |plan.flows| ensures FollowsDependencies(results, plan.flows[k]) {
      forall d | d in plan.flows[k].dependsOn ensures exists i :: 0 <= i < |results| && results[i].id == d {
        var i :| 0 <= i < |plan.flows| && plan.flows[i].id == d;
        assert results[i].id == d;
      }
      SuccessfulOrder(results, plan, tr, runStarted, g, plan.maxParallel, k);
    }
    forall i: nat | i < |results| ensures |Overlapping(results, i)| <= plan.maxParallel {
      SuccessfulOverlap(results, plan, tr, runStarted, g, plan.maxParallel, i);
    }
  }
}
