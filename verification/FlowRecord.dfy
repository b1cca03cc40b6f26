/** What the scheduler has asked (FlowWorld) set against what it has done (FlowTrace). */
module FlowRecord {
  import opened Common
  import opened FlowGraph
  import opened FlowTiming
  import opened FlowTrace
  import opened FlowWorld

  /** The log is what the world said; it tells the present time and when each active
      flow was started. */
  ghost predicate Heard(t: Terms, log: Log, active: map<FlowId, int>, clock: int) {
    && WellAsked(t, log) && clock == ClockAfter(t.runStarted, log)
    && forall id :: id in active ==> StartedAt(log, id) == Some(active[id])
  }

  /** An event stands on answers: a launch on a clock reading and a process that came up,
      an end on a clock reading, a success on a confirmed exit. */
  ghost predicate Backed(log: Log, e: Event) {
    match e
    case Launched(id, at) => Clock(Starting(id), at) in log && AskedSpawn(id, true) in log
    case Ended(id, at, failure) => Clock(Ending(id), at) in log && (failure.None? ==> Confirmed(log, id))
    case Skipped(id, at, _) => Clock(Ending(id), at) in log
  }

  ghost predicate AllBacked(tr: Trace, log: Log) {
    forall e :: e in tr ==> Backed(log, e)
  }

  /** Every reading for the end of a flow became an event. */
  ghost predicate EndsRecorded(tr: Trace, log: Log) {
    forall id, at :: Clock(Ending(id), at) in log ==> EndsAt(tr, id, at)
  }

  ghost predicate EndsAt(tr: Trace, id: FlowId, at: int) {
    exists e :: e in tr && !e.Launched? && e.id == id && e.at == at
  }

  ghost predicate Recorded(t: Terms, byId: map<FlowId, Flow>, tr: Trace, log: Log) {
    AllBacked(tr, log) && (AllBenign(t, byId, log) ==> EndsRecorded(tr, log))
  }

  /** The scheduler's clock after one more answer. */
  function NextClock(clock: int, a: Answer): int {
    if a.Clock? then a.at else clock + if a.Slept? then 20 * MILLISECOND else 0
  }

  lemma HeardGrows(t: Terms, log: Log, active: map<FlowId, int>, clock: int, a: Answer)
    requires Heard(t, log, active, clock) && Told(t, log, a) && MayAsk(t, log, a)
    requires a.Clock? && a.use.Starting? ==> a.use.id !in active
    ensures Heard(t, log + [a], active, NextClock(clock, a))
  {
    hide Told, MayAsk, StartedAt, ClockAfter;
    AskedOneMore(t, log, a);
    hide WellAsked;
    ClockAfterAppend(t.runStarted, log, a);
    forall id | id in active ensures StartedAt(log + [a], id) == Some(active[id]) {
      StartedAtAppend(log, a, id);
    }
  }

  lemma BackedGrows(log: Log, a: Answer, e: Event)
    requires Backed(log, e)
    ensures Backed(log + [a], e)
  {
    assert forall x :: x in log ==> x in log + [a];
    if e.Ended? && e.failure.None? {
      var started, now :| AskedExit(e.id, started, now, Some(0)) in log;
      assert AskedExit(e.id, started, now, Some(0)) in log + [a];
    }
  }

  lemma AllBackedGrows(tr: Trace, log: Log, a: Answer)
    requires AllBacked(tr, log)
    ensures AllBacked(tr, log + [a])
  {
    forall e | e in tr ensures Backed(log + [a], e) {
      BackedGrows(log, a, e);
    }
  }

  lemma RecordedHears(t: Terms, byId: map<FlowId, Flow>, tr: Trace, log: Log, a: Answer)
    requires Recorded(t, byId, tr, log)
    requires a.Clock? && a.use.Ending? ==> !AllBenign(t, byId, log)
    ensures Recorded(t, byId, tr, log + [a])
  {
    hide AllBenign;
    AllBackedGrows(tr, log, a);
    AllBenignAppend(t, byId, log, a);
  }

  lemma RecordedLaunch(t: Terms, byId: map<FlowId, Flow>, tr: Trace, log: Log, e: Event)
    requires Recorded(t, byId, tr, log) && e.Launched? && Backed(log, e)
    ensures Recorded(t, byId, tr + [e], log)
  {
    assert forall x :: x in tr + [e] <==> x in tr || x == e;
    forall id, at | AllBenign(t, byId, log) && Clock(Ending(id), at) in log ensures EndsAt(tr + [e], id, at) {
      assert EndsAt(tr, id, at);
    }
  }

  lemma RecordedEnd(t: Terms, byId: map<FlowId, Flow>, tr: Trace, log: Log, e: Event)
    requires Recorded(t, byId, tr, log) && !e.Launched?
    requires e.Ended? && e.failure.None? ==> Confirmed(log, e.id)
    ensures Recorded(t, byId, tr + [e], log + [Clock(Ending(e.id), e.at)])
  {
    hide AllBenign, Confirmed;
    var a := Clock(Ending(e.id), e.at);
    AllBackedGrows(tr, log, a);
    ConfirmedGrows(log, a, e.id);
    AllBenignAppend(t, byId, log, a);
    assert forall x :: x in tr + [e] <==> x in tr || x == e;
    forall id, at | AllBenign(t, byId, log) && Clock(Ending(id), at) in log + [a]
      ensures EndsAt(tr + [e], id, at)
    {
      if Clock(Ending(id), at) != a {
        assert EndsAt(tr, id, at);
      }
    }
  }

  lemma ConfirmedGrows(log: Log, a: Answer, id: FlowId)
    ensures Confirmed(log, id) ==> Confirmed(log + [a], id)
  {
    assert forall x :: x in log ==> x in log + [a];
    if Confirmed(log, id) {
      var started, now :| AskedExit(id, started, now, Some(0)) in log;
      assert AskedExit(id, started, now, Some(0)) in log + [a];
    }
  }

  /** The process of the flow was asked for its exit code in the round read at `now`. */
  ghost predicate WasLookedAt(log: Log, id: FlowId, now: int) {
    exists started, exit :: AskedExit(id, started, now, exit) in log
  }

  lemma LookStays(log: Log, longer: Log, now: int)
    requires log <= longer
    ensures forall id :: WasLookedAt(log, id, now) ==> WasLookedAt(longer, id, now)
  {
    assert longer == log + longer[|log|..];
    assert forall a :: a in log ==> a in longer;
    forall id | WasLookedAt(log, id, now) ensures WasLookedAt(longer, id, now) {
      var started, exit :| AskedExit(id, started, now, exit) in log;
      assert AskedExit(id, started, now, exit) in longer;
    }
  }

  /** A launched flow whose process was answered exit 0 and then no survivors. */
  lemma ConfirmedNow(log: Log, id: FlowId, started: int, now: int)
    requires AskedSpawn(id, true) in log
    ensures Confirmed(log + [AskedExit(id, started, now, Some(0))] + [AskedSurvivors(id, false)], id)
  {
    var longer := log + [AskedExit(id, started, now, Some(0))] + [AskedSurvivors(id, false)];
    assert AskedSpawn(id, true) in longer && AskedSurvivors(id, false) in longer;
    assert AskedExit(id, started, now, Some(0)) in longer;
  }
}
