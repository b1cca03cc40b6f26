/** What a scheduler run asks of its surroundings and what it is told (project_contract.py,
    execute_flow_plan): clock readings, interrupts, process starts, exit codes, surviving
    groups. The answers are arbitrary but fixed by the world, question by question. */
module FlowWorld {
  import opened Common
  import opened FlowGraph
  import opened FlowTiming

  /** The answer to the n-th question, for each kind of question. */
  datatype World = World(
    clock: nat -> int, interrupts: nat -> bool, spawns: nat -> bool, exits: nat -> Option<int>,
    survives: nat -> bool, stopFails: nat -> bool, stopped: nat -> (Option<int>, bool))

  /** What a clock reading is for. */
  datatype Use = TurnHead | Starting(id: FlowId) | PollRound | Ending(id: FlowId)

  /** Where an interrupt can arrive. */
  datatype Place = LoopHead | AfterSpawn | AfterResult

  datatype Answer =
    | Clock(use: Use, at: int)
    | Slept
    | AskedInterrupt(place: Place, yes: bool)
    | AskedSpawn(id: FlowId, yes: bool)
    | AskedExit(id: FlowId, started: int, now: int, exit: Option<int>)
    | AskedSurvivors(id: FlowId, yes: bool)
    | AskedStop(failed: bool)
    | AskedStopped(id: FlowId, exit: Option<int>, forced: bool)

  /** Everything asked so far, with the answers, oldest first. */
  type Log = seq<Answer>

  /** The fixed part of a run's questions. */
  datatype Terms = Terms(world: World, runStarted: int, budget: Option<int>)

  function Later(a: int, b: int): int {
    if a < b then b else a
  }

  /** The scheduler's clock after a log: readings never go back, a sleep lasts 20 ms. */
  function ClockAfter(runStarted: int, log: Log): int {
    if log == [] then runStarted
    else
      match log[|log| - 1]
      case Clock(_, at) => at
      case Slept => ClockAfter(runStarted, log[..|log| - 1]) + 20 * MILLISECOND
      case _ => ClockAfter(runStarted, log[..|log| - 1])
  }

  /** The reading with which the flow was started. */
  function StartedAt(log: Log, id: FlowId): Option<int> {
    if log == [] then None
    else
      var last := log[|log| - 1];
      if last.Clock? && last.use == Starting(id) then Some(last.at) else StartedAt(log[..|log| - 1], id)
  }

  /** The reading of the latest look at the active processes. */
  function RoundAt(log: Log): Option<int> {
    if log == [] then None
    else
      var last := log[|log| - 1];
      if last.Clock? && last.use.PollRound? then Some(last.at) else RoundAt(log[..|log| - 1])
  }

  predicate WithinBudget(t: Terms, at: int) {
    t.budget.Some? ==> at - t.runStarted < t.budget.value * SECOND
  }

  /** The turn at whose head the budget was checked has not looked at processes yet. */
  predicate GoAhead(t: Terms, log: Log) {
    log != [] &&
    match log[|log| - 1]
    case AskedInterrupt(place, yes) => if place.LoopHead? then !yes && t.budget.None? else GoAhead(t, log[..|log| - 1])
    case Clock(use, at) =>
      (match use
       case TurnHead => t.budget.Some? && WithinBudget(t, at)
       case PollRound => false
       case _ => GoAhead(t, log[..|log| - 1]))
    case _ => GoAhead(t, log[..|log| - 1])
  }

  /** The turn has begun to look at its processes. */
  predicate Looking(log: Log) {
    log != [] &&
    match log[|log| - 1]
    case AskedInterrupt(place, _) => !place.LoopHead? && Looking(log[..|log| - 1])
    case Clock(use, _) => use.PollRound? || (!use.TurnHead? && Looking(log[..|log| - 1]))
    case _ => Looking(log[..|log| - 1])
  }

  /** A reading at the head of a turn that finds the budget spent. */
  predicate SpentHead(t: Terms, a: Answer) {
    a.Clock? && a.use.TurnHead? && !WithinBudget(t, a.at)
  }

  predicate PastBudget(t: Terms, log: Log) {
    exists a :: a in log && SpentHead(t, a)
  }

  /** a is what the world says to the next question. */
  predicate Told(t: Terms, log: Log, a: Answer) {
    match a
    case Clock(_, at) => at == Later(ClockAfter(t.runStarted, log), t.world.clock(|log|))
    case Slept => true
    case AskedInterrupt(_, yes) => yes == t.world.interrupts(|log|)
    case AskedSpawn(_, yes) => yes == t.world.spawns(|log|)
    case AskedExit(id, started, now, exit) =>
      exit == t.world.exits(|log|) && StartedAt(log, id) == Some(started) && RoundAt(log) == Some(now)
    case AskedSurvivors(_, yes) => yes == t.world.survives(|log|)
    case AskedStop(failed) => failed == t.world.stopFails(|log|)
    case AskedStopped(_, exit, forced) => (exit, forced) == t.world.stopped(|log|)
  }

  /** a may be asked now. No turn begins once the budget was found spent; a process is
      started or looked at only in a turn that found it unspent at its own head. */
  predicate MayAsk(t: Terms, log: Log, a: Answer) {
    match a
    case AskedInterrupt(place, _) => place.LoopHead? ==> !PastBudget(t, log)
    case Clock(use, _) =>
      (match use
       case TurnHead => t.budget.Some? && log != [] && log[|log| - 1] == AskedInterrupt(LoopHead, false)
       case PollRound => GoAhead(t, log)
       case _ => true)
    case AskedSpawn(id, _) => GoAhead(t, log) && StartedAt(log, id).Some?
    case AskedExit(_, _, _, _) => Looking(log)
    case AskedSurvivors(id, _) =>
      log != [] && log[|log| - 1].AskedExit? && log[|log| - 1].id == id && log[|log| - 1].exit.Some?
    case _ => true
  }

  ghost predicate WellAsked(t: Terms, log: Log) {
    log == [] ||
    var front, last := log[..|log| - 1], log[|log| - 1];
    WellAsked(t, front) && Told(t, front, last) && MayAsk(t, front, last)
  }

  // ---------------------------------------------------------- good answers

  /** An answer that lets the run succeed: no interrupt, the process started, it ended
      with code 0 and without survivors or is still in time, the budget is not spent. */
  predicate Benign(t: Terms, byId: map<FlowId, Flow>, a: Answer) {
    match a
    case AskedInterrupt(_, yes) => !yes
    case AskedSpawn(_, yes) => yes
    case AskedExit(id, started, now, exit) =>
      exit == Some(0) || (exit.None? && id in byId && now - started < byId[id].timeoutSeconds * SECOND)
    case AskedSurvivors(_, yes) => !yes
    case Clock(use, at) => use.TurnHead? ==> WithinBudget(t, at)
    case _ => true
  }

  predicate AllBenign(t: Terms, byId: map<FlowId, Flow>, log: Log) {
    forall a :: a in log ==> Benign(t, byId, a)
  }

  /** The flow was started and seen to end with code 0, leaving nothing behind. */
  ghost predicate Confirmed(log: Log, id: FlowId) {
    && AskedSpawn(id, true) in log && AskedSurvivors(id, false) in log
    && exists started, now :: AskedExit(id, started, now, Some(0)) in log
  }

  /** Every flow that was given an end got it within the active budget, after rounding. */
  ghost predicate EndsWithinBudget(t: Terms, log: Log) {
    t.budget.Some? ==>
      forall a :: a in log && a.Clock? && a.use.Ending? ==> RoundMs(a.at - t.runStarted) <= 1000 * t.budget.value
  }

  // ------------------------------------------------------------- one more

  lemma AskedOneMore(t: Terms, log: Log, a: Answer)
    requires WellAsked(t, log) && Told(t, log, a) && MayAsk(t, log, a)
    ensures WellAsked(t, log + [a])
  {
    assert (log + [a])[..|log|] == log;
  }

  lemma AllBenignAppend(t: Terms, byId: map<FlowId, Flow>, log: Log, a: Answer)
    ensures AllBenign(t, byId, log + [a]) <==> AllBenign(t, byId, log) && Benign(t, byId, a)
  {
    assert forall x :: x in log + [a] <==> x in log || x == a;
  }

  lemma PastBudgetAppend(t: Terms, log: Log, a: Answer)
    ensures PastBudget(t, log + [a]) <==>
      PastBudget(t, log) || SpentHead(t, a)
  {
    assert forall x :: x in log + [a] <==> x in log || x == a;
  }

  lemma ClockAfterAppend(runStarted: int, log: Log, a: Answer)
    ensures ClockAfter(runStarted, log + [a]) ==
      if a.Clock? then a.at
      else ClockAfter(runStarted, log) + if a.Slept? then 20 * MILLISECOND else 0
  {
    assert (log + [a])[..|log|] == log;
  }

  lemma StartedAtAppend(log: Log, a: Answer, id: FlowId)
    ensures StartedAt(log + [a], id) == if a.Clock? && a.use == Starting(id) then Some(a.at) else StartedAt(log, id)
  {
    assert (log + [a])[..|log|] == log;
  }

  lemma RoundAtAppend(log: Log, a: Answer)
    ensures RoundAt(log + [a]) == if a.Clock? && a.use.PollRound? then Some(a.at) else RoundAt(log)
  {
    assert (log + [a])[..|log|] == log;
  }

  /** Answers other than a loop head, a turn head or a poll round do not change the phase. */
  predicate KeepsPhase(a: Answer) {
    && (a.AskedInterrupt? ==> !a.place.LoopHead?)
    && (a.Clock? ==> a.use.Starting? || a.use.Ending?)
  }

  lemma PhaseAppend(t: Terms, log: Log, a: Answer)
    ensures KeepsPhase(a) ==> (GoAhead(t, log + [a]) <==> GoAhead(t, log)) && (Looking(log + [a]) <==> Looking(log))
    ensures a == AskedInterrupt(LoopHead, false) ==> (GoAhead(t, log + [a]) <==> t.budget.None?)
    ensures a.Clock? && a.use.TurnHead? ==>
      (GoAhead(t, log + [a]) <==> t.budget.Some? && WithinBudget(t, a.at)) && !Looking(log + [a])
    ensures a.Clock? && a.use.PollRound? ==> Looking(log + [a]) && !GoAhead(t, log + [a])
  {
    assert (log + [a])[..|log|] == log;
  }

  // ---------------------------------------------------------- the budget rule

  lemma {:induction false} WellAskedPrefix(t: Terms, log: Log, n: nat)
    requires WellAsked(t, log) && n <= |log|
    ensures WellAsked(t, log[..n])
    decreases |log|
  {
    if n < |log| {
      WellAskedPrefix(t, log[..|log| - 1], n);
      assert log[..|log| - 1][..n] == log[..n];
    } else {
      assert log[..n] == log;
    }
  }

  lemma WellAskedAt(t: Terms, log: Log, n: nat)
    requires WellAsked(t, log) && n < |log|
    ensures WellAsked(t, log[..n]) && Told(t, log[..n], log[n]) && MayAsk(t, log[..n], log[n])
  {
    WellAskedPrefix(t, log, n + 1);
    assert log[..n + 1][..n] == log[..n];
  }

  /** Nothing is started or looked at after a turn head that found the budget spent. */
  predicate IsWork(a: Answer) {
    a.AskedSpawn? || a.AskedExit? || (a.Clock? && a.use.PollRound?)
  }

  lemma {:induction false} StillSpent(t: Terms, log: Log, n: nat, m: nat)
    requires WellAsked(t, log) && n < m <= |log|
    requires SpentHead(t, log[n])
    ensures !GoAhead(t, log[..m]) && !Looking(log[..m]) && PastBudget(t, log[..m])
    ensures log[m - 1] != AskedInterrupt(LoopHead, false)
    decreases m
  {
    hide WellAsked;
    var front, a := log[..m - 1], log[m - 1];
    assert log[..m] == front + [a];
    PhaseAppend(t, front, a);
    PastBudgetAppend(t, front, a);
    WellAskedAt(t, log, m - 1);
    if n < m - 1 {
      StillSpent(t, log, n, m - 1);
      hide GoAhead, Looking, PastBudget;
      assert front[|front| - 1] == log[m - 2];
    }
  }

  /** Main result: once a turn found the budget spent at its head, no process is started
      or looked at any more. */
  lemma NoWorkPastBudget(t: Terms, log: Log, n: nat, m: nat)
    requires WellAsked(t, log) && n < m < |log|
    requires SpentHead(t, log[n])
    ensures !IsWork(log[m])
  {
    hide GoAhead, Looking, WellAsked;
    StillSpent(t, log, n, m);
    WellAskedAt(t, log, m);
  }

  /** The turn head under which the latest work of a log was done. */
  lemma {:induction false} HeadOf(t: Terms, log: Log, m: nat) returns (n: nat)
    requires WellAsked(t, log) && m <= |log| && t.budget.Some? && GoAhead(t, log[..m])
    ensures n < m && log[n].Clock? && log[n].use.TurnHead? && WithinBudget(t, log[n].at)
    ensures forall k :: n < k < m ==> !(log[k].Clock? && log[k].use.PollRound?)
    decreases m
  {
    var front, a := log[..m - 1], log[m - 1];
    assert log[..m] == front + [a];
    PhaseAppend(t, front, a);
    if a.Clock? && a.use.TurnHead? {
      n := m - 1;
    } else {
      n := HeadOf(t, log, m - 1);
    }
  }

  /** Main result: with a budget, every start and every look happens in a turn that read
      the clock at its own head and found the budget unspent. */
  lemma WorkIsHeaded(t: Terms, log: Log, m: nat) returns (n: nat)
    requires WellAsked(t, log) && m < |log| && t.budget.Some?
    requires log[m].AskedSpawn? || (log[m].Clock? && log[m].use.PollRound?)
    ensures n < m && log[n].Clock? && log[n].use.TurnHead? && WithinBudget(t, log[n].at)
    ensures forall k :: n < k < m ==> !(log[k].Clock? && log[k].use.PollRound?)
  {
    WellAskedAt(t, log, m);
    n := HeadOf(t, log, m);
  }
}
