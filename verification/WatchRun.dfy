/** The loop of the queued watcher (watch-pr/policy.ts: runQueued, pollUntilTerminal): one
    read a turn, retried after query errors. Clock readings and GitHub's answers are
    arbitrary inputs of each step. */
module WatchRun {
  import opened Common
  import opened WatchClassify
  import opened WatchQueue

  /** queryBackoffSeconds, with sixty and three hundred seconds in the given unit */
  function Backoff(second: nat, interval: nat, failures: nat): nat
    requires failures >= 1
  {
    var wait := Doubled(if interval > 60 * second then interval else 60 * second, failures - 1);
    if wait < 300 * second then wait else 300 * second
  }

  /** base * 2 ** n */
  function Doubled(base: nat, n: nat): nat {
    if n == 0 then base else 2 * Doubled(base, n - 1)
  }

  // ------------------------------------------------------------ one step

  datatype Verdict =
    | QueueVerdict(queue: seq<PrNumber>)
    | StatusVerdict(rows: seq<Snapshot>)
    | AdvanceVerdict(merged: PrNumber, frontier: PrNumber, remaining: nat)
    | WaitingVerdict(frontier: PrNumber, pending: Option<seq<Check>>, unmerged: nat)
    | RetryVerdict(failures: nat, retryIn: nat)

  datatype Terminal =
    | CompleteVerdict(merged: seq<MergedEntry>)
    | BlockerVerdict(blocker: Blocker)
    | TimeoutVerdict(frontier: PrNumber, unmerged: nat)
    | StatusQueryVerdict(failures: nat)
    | UnavailableVerdict
    | InternalError(error: Internal)

  datatype Read = Answered(answers: Answers) | QueryFailed(retryable: bool)

  /** What the world contributes to one step of the loop. */
  datatype StepInput = StepInput(planAt: Time, read: Read, applyAt: Time, evaluateAt: Time, failedAt: Time)

  /** The loop between two steps. `slept` says whether the last step ended in a sleep. */
  datatype Loop = Loop(
    state: QueueState, failures: nat, pollStartedAt: Time, emitted: seq<Verdict>, slept: bool,
    terminal: Option<Terminal>)

  function Start(queue: seq<PrNumber>, now: Time, pollStartedAt: Time): Loop {
    Loop(Create(queue, now), 0, pollStartedAt, [QueueVerdict(queue)], false, None)
  }

  function Stop(l: Loop, state: QueueState, t: Terminal): Loop {
    l.(state := state, failures := 0, slept := false, terminal := Some(t))
  }

  /** After a successful read: apply it and, when no read is left, evaluate. */
  function AfterRead(l: Loop, s: QueueState, row: Snapshot, i: StepInput, o: Options): Loop {
    var applied := ApplySnapshot(s, row, i.applyAt, o);
    if applied.ApplyThrew? then Stop(l, s, InternalError(applied.error))
    else
      var s1 := applied.state;
      var emitted := if applied.completed.Some? then l.emitted + [StatusVerdict(applied.completed.value)]
        else l.emitted;
      if !s1.work.NoWork? then l.(state := s1, failures := 0, emitted := emitted, slept := false)
      else
        match Evaluate(s1, i.evaluateAt, o)
        case Complete(merged) => Stop(l.(emitted := emitted), s1, CompleteVerdict(merged))
        case BlockedBy(blocker) => Stop(l.(emitted := emitted), s1, BlockerVerdict(blocker))
        case Advance(s2, merged, frontier, remaining) =>
          l.(state := s2, failures := 0, emitted := emitted + [AdvanceVerdict(merged, frontier, remaining)],
            slept := false)
        case TimedOut(s2, frontier, unmerged) => Stop(l.(emitted := emitted), s2, TimeoutVerdict(frontier, unmerged))
        case Wait(s2, frontier, pending, unmerged, emit) =>
          l.(state := s2, failures := 0, slept := true,
             emitted := if emit then emitted + [WaitingVerdict(frontier, pending, unmerged)] else emitted)
        case EvaluateThrew(error) => Stop(l.(emitted := emitted), s1, InternalError(error))
  }

  /** A query error: retry after a pause, or give up. */
  function AfterFailure(l: Loop, s: QueueState, retryable: bool, i: StepInput, o: Options): Loop {
    var failures := l.failures + 1;
    if !retryable || failures >= o.maxQueryErrors then
      l.(state := s, failures := failures, slept := false, terminal := Some(StatusQueryVerdict(failures)))
    else
      var retry := RetryVerdict(failures, Backoff(o.second, o.interval, failures));
      var l1 := l.(state := s, failures := failures, emitted := l.emitted + [retry]);
      if DeadlinePassed(l.pollStartedAt, o, i.failedAt) then l1.(slept := false, terminal := Some(UnavailableVerdict))
      else l1.(slept := true)
  }

  /** One turn of pollUntilTerminal around runQueued's step. */
  function Turn(l: Loop, i: StepInput, o: Options): Loop {
    if l.terminal.Some? then l
    else
      var s := PlanQueue(l.state, i.planAt);
      if s.work.NoWork? then
        var complete := Evaluate(s, i.evaluateAt, o);
        if complete.Complete? then Stop(l, s, CompleteVerdict(complete.merged))
        else if complete.EvaluateThrew? then Stop(l, s, InternalError(complete.error))
        else Stop(l, s, InternalError(NoWorkWhileActive))
      else
        var context := NextRead(s);
        if context.None? then Stop(l, s, InternalError(HeadMismatch))
        else
          match i.read
          case QueryFailed(retryable) => AfterFailure(l, s, retryable, i, o)
          case Answered(answers) => AfterRead(l, s, ReadSnapshot(context.value, answers, true), i, o)
  }

  function Run(queue: seq<PrNumber>, now: Time, pollStartedAt: Time, inputs: seq<StepInput>, o: Options): Loop {
    if inputs == [] then Start(queue, now, pollStartedAt)
    else Turn(Run(queue, now, pollStartedAt, inputs[..|inputs| - 1], o), inputs[|inputs| - 1], o)
  }

  // ----------------------------------------------------------- the whole loop

  /** Knowledge only grows: the queue stays, and merged PRs stay merged as first seen. */
  ghost predicate Grows(s: QueueState, t: QueueState) {
    && t.queue == s.queue
    && forall n :: IsMerged(s.snapshots, n) ==> IsMerged(t.snapshots, n) && t.snapshots[n] == s.snapshots[n]
  }

  /** PRs not known to be merged, and the recorded frontier. */
  ghost function Rest(s: QueueState): set<PrNumber> {
    set n | n in s.queue && (!IsMerged(s.snapshots, n) || s.frontier == Some(n))
  }

  ghost predicate AdvanceFact(v: Verdict, s: QueueState)
    requires v.AdvanceVerdict?
  {
    && v.merged in s.queue && v.frontier in s.queue && IsMerged(s.snapshots, v.merged)
    && IndexOf(s.queue, v.merged) < IndexOf(s.queue, v.frontier)
    && MergedBefore(s, IndexOf(s.queue, v.frontier))
    && s.frontier.Some? && s.frontier.value in s.queue
    && IndexOf(s.queue, v.frontier) <= IndexOf(s.queue, s.frontier.value)
    && v.remaining >= |Rest(s)|
  }

  /** A later ADVANCE is further along the queue with fewer PRs remaining. */
  ghost predicate Further(v: Verdict, w: Verdict, queue: seq<PrNumber>)
    requires v.AdvanceVerdict? && w.AdvanceVerdict?
  {
    && v.frontier in queue && w.frontier in queue
    && w.remaining < v.remaining && IndexOf(queue, v.frontier) < IndexOf(queue, w.frontier)
  }

  ghost predicate AdvancesOk(emitted: seq<Verdict>, s: QueueState) {
    && (forall a :: 0 <= a < |emitted| && emitted[a].AdvanceVerdict? ==> AdvanceFact(emitted[a], s))
    && (forall a, b :: 0 <= a < b < |emitted| && emitted[a].AdvanceVerdict? && emitted[b].AdvanceVerdict? ==>
          Further(emitted[a], emitted[b], s.queue))
  }

  /** No internal error; COMPLETE lists the whole queue in order. */
  ghost predicate TerminalOk(t: Option<Terminal>, queue: seq<PrNumber>) {
    t.Some? ==>
      && !t.value.InternalError?
      && (t.value.CompleteVerdict? ==>
            |t.value.merged| == |queue| && forall k :: 0 <= k < |queue| ==> t.value.merged[k].number == queue[k])
  }

  ghost predicate LoopInv(l: Loop) {
    Inv(l.state) && AdvancesOk(l.emitted, l.state) && TerminalOk(l.terminal, l.state.queue)
  }

  lemma RestShrinks(s: QueueState, t: QueueState)
    requires Grows(s, t) && t.frontier == s.frontier
    ensures |Rest(t)| <= |Rest(s)|
  {
    SubsetSize(Rest(t), Rest(s));
  }

  /** Emitted advances stay true while knowledge grows and the frontier stays. */
  lemma AdvancesStay(emitted: seq<Verdict>, s: QueueState, t: QueueState)
    requires AdvancesOk(emitted, s) && Grows(s, t) && t.frontier == s.frontier
    ensures AdvancesOk(emitted, t)
  {
    RestShrinks(s, t);
  }

  lemma AdvancesAppend(emitted: seq<Verdict>, v: Verdict, s: QueueState)
    requires AdvancesOk(emitted, s) && !v.AdvanceVerdict?
    ensures AdvancesOk(emitted + [v], s)
  {
  }

  /** A new ADVANCE is further than all earlier ones, and they stay true after it. */
  lemma AdvancesGrow(emitted: seq<Verdict>, s: QueueState, t: QueueState, v: Verdict)
    requires Inv(s) && s.work.NoWork? && AdvancesOk(emitted, s) && v.AdvanceVerdict?
    requires Unmerged(s.queue, s.snapshots) != [] && v.frontier == Unmerged(s.queue, s.snapshots)[0]
    requires s.frontier == Some(v.merged) && IsMerged(s.snapshots, v.merged) && v.frontier in s.queue
    requires IndexOf(s.queue, v.merged) < IndexOf(s.queue, v.frontier)
    requires v.remaining == |Unmerged(s.queue, s.snapshots)|
    requires t == s.(frontier := Some(v.frontier), lastWaitKey := t.lastWaitKey)
    ensures AdvancesOk(emitted + [v], t)
  {
    var unmerged := Unmerged(s.queue, s.snapshots);
    UnmergedMembers(s.queue, s.snapshots);
    DistinctIffSize(unmerged);
    FrontierIsFirst(s);
    assert unmerged[0] in unmerged;
    assert Rest(t) == Elements(unmerged);
    assert v.merged in Rest(s) && v.merged !in Elements(unmerged);
    SubsetSize(Elements(unmerged), Rest(s));
    var emitted' := emitted + [v];
    forall a | 0 <= a < |emitted'| && emitted'[a].AdvanceVerdict? ensures AdvanceFact(emitted'[a], t) {
      if a < |emitted| {
        assert AdvanceFact(emitted[a], s);
      }
    }
    forall a, b | 0 <= a < b < |emitted'| && emitted'[a].AdvanceVerdict? && emitted'[b].AdvanceVerdict?
      ensures Further(emitted'[a], emitted'[b], t.queue)
    {
      if b < |emitted| {
        assert Further(emitted[a], emitted[b], s.queue);
      } else {
        assert AdvanceFact(emitted[a], s);
      }
    }
  }

  /** First sighting of a frontier: no advance can have been emitted yet. */
  lemma AdvancesFirstFrontier(emitted: seq<Verdict>, s: QueueState, t: QueueState)
    requires AdvancesOk(emitted, s) && (s.frontier.None? || s.frontier == t.frontier)
    requires t == s.(frontier := t.frontier, lastWaitKey := t.lastWaitKey)
    ensures AdvancesOk(emitted, t)
  {
    if s.frontier.Some? {
      RestShrinks(s, t);
    }
  }

  /** The evaluation half of a step keeps the loop invariant. */
  lemma EvaluationKeepsInv(l: Loop, s: QueueState, emitted: seq<Verdict>, i: StepInput, o: Options)
    requires Inv(s) && s.work.NoWork? && AdvancesOk(emitted, s)
    ensures match Evaluate(s, i.evaluateAt, o)
      case Complete(merged) => TerminalOk(Some(CompleteVerdict(merged)), s.queue)
      case BlockedBy(blocker) => true
      case Advance(s2, merged, frontier, remaining) =>
        Inv(s2) && Grows(s, s2) && AdvancesOk(emitted + [AdvanceVerdict(merged, frontier, remaining)], s2)
      case TimedOut(s2, frontier, unmerged) => Inv(s2) && Grows(s, s2) && AdvancesOk(emitted, s2)
      case Wait(s2, frontier, pending, unmerged, emit) =>
        && Inv(s2) && Grows(s, s2) && AdvancesOk(emitted, s2)
        && AdvancesOk(emitted + [WaitingVerdict(frontier, pending, unmerged)], s2)
      case EvaluateThrew(_) => false
  {
    hide AdvancesOk, Inv, Evaluate;
    EvaluateIsSound(s, i.evaluateAt, o);
    match Evaluate(s, i.evaluateAt, o)
    case Advance(s2, merged, frontier, remaining) =>
      AdvancesGrow(emitted, s, s2, AdvanceVerdict(merged, frontier, remaining));
    case TimedOut(s2, frontier, unmerged) => AdvancesFirstFrontier(emitted, s, s2);
    case Wait(s2, frontier, pending, unmerged, emit) =>
      AdvancesFirstFrontier(emitted, s, s2);
      AdvancesAppend(emitted, WaitingVerdict(frontier, pending, unmerged), s2);
    case _ =>
  }

  /** A successful read keeps the loop invariant. */
  lemma ReadKeepsInv(l: Loop, s: QueueState, row: Snapshot, i: StepInput, o: Options)
    requires LoopInv(l) && l.terminal.None? && Inv(s) && s == l.state.(work := s.work)
    requires NextRead(s) == Some(row.number) && !IsMerged(s.snapshots, row.number) && Typed(row)
    ensures LoopInv(AfterRead(l, s, row, i, o)) && Grows(l.state, AfterRead(l, s, row, i, o).state)
    ensures l.emitted <= AfterRead(l, s, row, i, o).emitted
  {
    hide AdvancesOk, Inv, ApplySnapshot, Evaluate;
    ApplyKeepsInv(s, row, i.applyAt, o);
    var applied := ApplySnapshot(s, row, i.applyAt, o);
    var s1 := applied.state;
    AdvancesStay(l.emitted, l.state, s1);
    if applied.completed.Some? {
      AdvancesAppend(l.emitted, StatusVerdict(applied.completed.value), s1);
    }
    var emitted := if applied.completed.Some? then l.emitted + [StatusVerdict(applied.completed.value)] else l.emitted;
    if s1.work.NoWork? {
      EvaluationKeepsInv(l, s1, emitted, i, o);
    }
  }

  /** A failed read keeps the loop invariant, and plans the same read again. */
  lemma FailureKeepsInv(l: Loop, s: QueueState, retryable: bool, i: StepInput, o: Options)
    requires LoopInv(l) && Inv(s) && s == l.state.(work := s.work)
    ensures LoopInv(AfterFailure(l, s, retryable, i, o)) && AfterFailure(l, s, retryable, i, o).state == s
    ensures l.emitted <= AfterFailure(l, s, retryable, i, o).emitted
  {
    hide AdvancesOk, Inv;
    AdvancesStay(l.emitted, l.state, s);
    AdvancesAppend(l.emitted, RetryVerdict(l.failures + 1, Backoff(o.second, o.interval, l.failures + 1)), s);
  }

  /** Main step result: no turn reaches an internal error, whatever GitHub answers. */
  lemma TurnKeepsInv(l: Loop, i: StepInput, o: Options)
    requires LoopInv(l)
    ensures LoopInv(Turn(l, i, o)) && Grows(l.state, Turn(l, i, o).state) && l.emitted <= Turn(l, i, o).emitted
  {
    hide AdvancesOk, Inv, Evaluate, PlanQueue, AfterRead, AfterFailure;
    if l.terminal.None? {
      PlanKeepsInv(l.state, i.planAt, i.planAt);
      var s := PlanQueue(l.state, i.planAt);
      AdvancesStay(l.emitted, l.state, s);
      if s.work.NoWork? {
        EvaluateIsSound(s, i.evaluateAt, o);
      } else {
        match i.read
        case QueryFailed(retryable) => FailureKeepsInv(l, s, retryable, i, o);
        case Answered(answers) => ReadKeepsInv(l, s, ReadSnapshot(NextRead(s).value, answers, true), i, o);
      }
    }
  }

  /** Main result: in every run of the queued watcher, over any answers, failures and
      clock readings, no internal error occurs, COMPLETE lists the queue in order, and
      the advances emitted so far are true and move strictly forward. */
  lemma {:induction false} RunKeepsInv(queue: seq<PrNumber>, now: Time, pollStartedAt: Time, inputs: seq<StepInput>,
                                       o: Options)
    requires queue != [] && Distinct(queue)
    ensures LoopInv(Run(queue, now, pollStartedAt, inputs, o))
      && Run(queue, now, pollStartedAt, inputs, o).state.queue == queue
  {
    if inputs == [] {
      assert forall n :: n in queue ==> n in Create(queue, now).work.remaining;
    } else {
      RunKeepsInv(queue, now, pollStartedAt, inputs[..|inputs| - 1], o);
      TurnKeepsInv(Run(queue, now, pollStartedAt, inputs[..|inputs| - 1], o), inputs[|inputs| - 1], o);
    }
  }

  /** A merged PR stays merged as first seen, for the rest of the run. */
  lemma {:induction false} MergedStaysMerged(queue: seq<PrNumber>, now: Time, pollStartedAt: Time,
                                             inputs: seq<StepInput>, o: Options, k: nat)
    requires queue != [] && Distinct(queue) && k <= |inputs|
    ensures Grows(Run(queue, now, pollStartedAt, inputs[..k], o).state, Run(queue, now, pollStartedAt, inputs, o).state)
    decreases |inputs|
  {
    if k == |inputs| {
      assert inputs[..k] == inputs;
    } else {
      var before := inputs[..|inputs| - 1];
      MergedStaysMerged(queue, now, pollStartedAt, before, o, k);
      assert before[..k] == inputs[..k];
      RunKeepsInv(queue, now, pollStartedAt, before, o);
      TurnKeepsInv(Run(queue, now, pollStartedAt, before, o), inputs[|inputs| - 1], o);
    }
  }

  /** The PR that a turn reads, if it reads one. */
  function ReadBy(l: Loop, i: StepInput): Option<PrNumber> {
    if l.terminal.Some? then None else NextRead(PlanQueue(l.state, i.planAt))
  }

  /** No turn reads a PR already known to be merged; a failed turn that goes on leaves
      the plan in place, so the next turn reads the same PR. */
  lemma ReadsAreFreshAndRetried(l: Loop, i: StepInput, next: StepInput, o: Options)
    requires LoopInv(l)
    ensures ReadBy(l, i).Some? ==>
      ReadBy(l, i).value in l.state.queue && !IsMerged(l.state.snapshots, ReadBy(l, i).value)
    ensures i.read.QueryFailed? && ReadBy(l, i).Some? && Turn(l, i, o).terminal.None? ==>
      ReadBy(Turn(l, i, o), next) == ReadBy(l, i) && Turn(l, i, o).state.snapshots == l.state.snapshots
  {
    hide AdvancesOk, Inv, PlanQueue;
    if l.terminal.None? {
      PlanKeepsInv(l.state, i.planAt, next.planAt);
    }
  }

  // ------------------------------------------------------- what ends a run

  /** The turn took an answer of GitHub and has no read left, so that it evaluates. */
  ghost predicate Evaluated(l: Loop, i: StepInput, o: Options) {
    l.terminal.None? && ReadBy(l, i).Some? && i.read.Answered? && Turn(l, i, o).state.work.NoWork?
  }

  /** What a turn holds of the open PRs after its read. */
  ghost function OpenAfter(l: Loop, i: StepInput, o: Options): seq<Snapshot>
    requires LoopInv(l) && Evaluated(l, i, o)
  {
    TurnKeepsInv(l, i, o);
    AllKnownAtRest(Turn(l, i, o).state);
    AllKnownIsOpen(Turn(l, i, o).state);
    Open(Turn(l, i, o).state)
  }

  /** What an evaluating turn makes of the open PRs, each answer exactly when. */
  lemma TurnAnswers(l: Loop, i: StepInput, o: Options)
    requires LoopInv(l) && Evaluated(l, i, o)
    ensures var t, rows := Turn(l, i, o).terminal, OpenAfter(l, i, o);
      var blocked := SomeBlocked(rows, o.allowDraft);
      var late := o.timeout > 0 && i.evaluateAt - l.state.startedAt >= o.timeout;
      var moved := rows != [] && l.state.frontier.Some? && l.state.frontier.value != rows[0].number;
      && (t.Some? && t.value.CompleteVerdict? <==> rows == [])
      && (t.Some? && t.value.BlockerVerdict? <==> blocked)
      && (t.Some? && t.value.TimeoutVerdict? <==> rows != [] && !blocked && !moved && late)
      && (t.None? && !Turn(l, i, o).slept <==> rows != [] && !blocked && moved)
      && (t.None? && Turn(l, i, o).slept <==> rows != [] && !blocked && !moved && !late)
      && (t.Some? && t.value.BlockerVerdict? ==> LeastBlocker(t.value.blocker, rows, o.allowDraft))
      && (t.Some? && t.value.TimeoutVerdict? ==> t.value == TimeoutVerdict(rows[0].number, |rows|))
  {
    hide AdvancesOk, Inv, Evaluate, PlanQueue, ReallyBlocked, LeastBlocker, Unmerged, SomeBlocked, NotMerged, Rows;
    PlanKeepsInv(l.state, i.planAt, i.planAt);
    var s := PlanQueue(l.state, i.planAt);
    var row := ReadSnapshot(NextRead(s).value, i.read.answers, true);
    ApplyKeepsInv(s, row, i.applyAt, o);
    var s1 := ApplySnapshot(s, row, i.applyAt, o).state;
    if s1.work.NoWork? {
      EvaluateIsSound(s1, i.evaluateAt, o);
      EvaluateAnswers(s1, i.evaluateAt, o);
      AllKnownAtRest(s1);
      AllKnownIsOpen(s1);
    }
  }

  /** The waiting message for the given open PRs. */
  ghost function WaitingFor(rows: seq<Snapshot>): Verdict
    requires rows != []
  {
    WaitingVerdict(rows[0].number, if IsPendingRow(rows[0]) then Some(rows[0].ci.pending) else None, |rows|)
  }

  /** What an evaluating turn emits: the whole queue after a sweep, then the advance, or
      the wait if it is not the one last reported. */
  ghost predicate Emits(l: Loop, t: Loop, rows: seq<Snapshot>, swept: bool) {
    var status := if swept then [StatusVerdict(Rows(t.state.queue, t.state.snapshots))] else [];
    if t.terminal.Some? then t.emitted == l.emitted + status
    else
      && rows != []
      && if t.slept then
           t.emitted ==
           l.emitted + status + (if l.state.lastWaitKey == t.state.lastWaitKey then [] else [WaitingFor(rows)])
         else
           && l.state.frontier.Some?
           && t.emitted == l.emitted + status + [AdvanceVerdict(l.state.frontier.value, rows[0].number, |rows|)]
  }

  lemma TurnEmits(l: Loop, i: StepInput, o: Options)
    requires LoopInv(l) && Evaluated(l, i, o)
    ensures Emits(l, Turn(l, i, o), OpenAfter(l, i, o), PlanQueue(l.state, i.planAt).work.Sweep?)
  {
    hide AdvancesOk, Inv, Evaluate, PlanQueue, ReallyBlocked, LeastBlocker, Unmerged, SomeBlocked, NotMerged, Rows;
    PlanKeepsInv(l.state, i.planAt, i.planAt);
    var s := PlanQueue(l.state, i.planAt);
    var row := ReadSnapshot(NextRead(s).value, i.read.answers, true);
    ApplyKeepsInv(s, row, i.applyAt, o);
    var s1 := ApplySnapshot(s, row, i.applyAt, o).state;
    if s1.work.NoWork? {
      EvaluateIsSound(s1, i.evaluateAt, o);
      EvaluateAnswers(s1, i.evaluateAt, o);
      AllKnownAtRest(s1);
      AllKnownIsOpen(s1);
    }
    var t := Turn(l, i, o);
    assert OpenAfter(l, i, o) == Open(t.state) == Open(s1);
  }

  /** What a turn makes of a query error, each answer exactly when. */
  lemma FailedTurnAnswers(l: Loop, i: StepInput, o: Options)
    requires LoopInv(l) && ReadBy(l, i).Some? && i.read.QueryFailed?
    ensures var t, n := Turn(l, i, o), l.failures + 1;
      var gaveUp := !i.read.retryable || n >= o.maxQueryErrors;
      var late := o.timeout > 0 && i.failedAt - l.pollStartedAt >= o.timeout;
      && t.failures == n && t.state.snapshots == l.state.snapshots && t.state.frontier == l.state.frontier
      && t.terminal == (if gaveUp then Some(StatusQueryVerdict(n)) else if late then Some(UnavailableVerdict) else None)
      && t.emitted ==
         l.emitted + (if gaveUp then [] else [RetryVerdict(n, Backoff(o.second, o.interval, n))])
      && (t.slept <==> t.terminal.None?)
  {
    hide LoopInv, Inv, AdvancesOk;
    PlanKeepsKnowledge(l.state, i.planAt);
  }

  lemma PlanKeepsKnowledge(s: QueueState, now: Time)
    ensures PlanQueue(s, now) == s.(work := PlanQueue(s, now).work)
    ensures NextRead(PlanQueue(s, now)).Some? ==> !PlanQueue(s, now).work.NoWork?
  {
  }

  lemma BlockerNeedsRead(l: Loop, i: StepInput, o: Options)
    requires LoopInv(l) && l.terminal.None?
    requires Turn(l, i, o).terminal.Some? && Turn(l, i, o).terminal.value.BlockerVerdict?
    ensures Evaluated(l, i, o)
  {
    hide AdvancesOk, Inv, Evaluate, PlanQueue, ApplySnapshot;
    PlanKeepsInv(l.state, i.planAt, i.planAt);
    var s := PlanQueue(l.state, i.planAt);
    if s.work.NoWork? {
      EvaluateIsSound(s, i.evaluateAt, o);
    }
  }

  /** Turn k of the run evaluated, and some open PR was really blocked. */
  ghost predicate BlockedAt(queue: seq<PrNumber>, now: Time, pollStartedAt: Time, inputs: seq<StepInput>, o: Options,
                            k: nat) {
    && k < |inputs|
    && var l := Run(queue, now, pollStartedAt, inputs[..k], o);
       LoopInv(l) && Evaluated(l, inputs[k], o) && SomeBlocked(OpenAfter(l, inputs[k], o), o.allowDraft)
  }

  lemma BlockedEarlier(queue: seq<PrNumber>, now: Time, pollStartedAt: Time, inputs: seq<StepInput>, o: Options, k: nat)
    requires inputs != []
    ensures BlockedAt(queue, now, pollStartedAt, inputs, o, k) ==> k < |inputs|
    ensures BlockedAt(queue, now, pollStartedAt, inputs[..|inputs| - 1], o, k) ==> k < |inputs| - 1
    ensures k < |inputs| - 1 ==> (
      BlockedAt(queue, now, pollStartedAt, inputs, o, k) <==>
      BlockedAt(queue, now, pollStartedAt, inputs[..|inputs| - 1], o, k))
  {
    hide Run, LoopInv, Evaluated, SomeBlocked, OpenAfter;
    assert k < |inputs| - 1 ==> inputs[..|inputs| - 1][..k] == inputs[..k];
  }

  /** The last turn ends the run with a blocker exactly when it evaluated a really
      blocked PR. */
  lemma LastTurnBlocks(queue: seq<PrNumber>, now: Time, pollStartedAt: Time, inputs: seq<StepInput>, o: Options)
    requires queue != [] && Distinct(queue) && inputs != []
    ensures var l, t := Run(queue, now, pollStartedAt, inputs[..|inputs| - 1], o),
                        Run(queue, now, pollStartedAt, inputs, o).terminal;
      && (BlockedAt(queue, now, pollStartedAt, inputs, o, |inputs| - 1) <==>
          l.terminal.None? && t.Some? && t.value.BlockerVerdict?)
      && (l.terminal.Some? ==> t == l.terminal)
  {
    hide LoopInv, Turn, SomeBlocked, Evaluated, OpenAfter, LeastBlocker;
    var before, last := inputs[..|inputs| - 1], inputs[|inputs| - 1];
    var l := Run(queue, now, pollStartedAt, before, o);
    RunKeepsInv(queue, now, pollStartedAt, before, o);
    EvaluatedFacts(l, last, o);
    if l.terminal.None? {
      if Evaluated(l, last, o) {
        TurnAnswers(l, last, o);
      } else if Turn(l, last, o).terminal.Some? && Turn(l, last, o).terminal.value.BlockerVerdict? {
        BlockerNeedsRead(l, last, o);
      }
    }
  }

  lemma EvaluatedFacts(l: Loop, i: StepInput, o: Options)
    ensures Evaluated(l, i, o) ==> l.terminal.None?
    ensures l.terminal.Some? ==> Turn(l, i, o) == l
  {
  }

  /** Main result: a run ends with a blocker exactly when one of its turns, after an
      answered read that left no read to do, held a really blocked open PR. */
  lemma {:induction false} BlockerEndsRun(queue: seq<PrNumber>, now: Time, pollStartedAt: Time,
                                          inputs: seq<StepInput>, o: Options)
    requires queue != [] && Distinct(queue)
    ensures var t := Run(queue, now, pollStartedAt, inputs, o).terminal;
      t.Some? && t.value.BlockerVerdict? <==> exists k: nat :: BlockedAt(queue, now, pollStartedAt, inputs, o, k)
  {
    hide Run, BlockedAt;
    if inputs == [] {
      NothingBlockedAtFirst(queue, now, pollStartedAt, o);
    } else {
      var before := inputs[..|inputs| - 1];
      BlockerEndsRun(queue, now, pollStartedAt, before, o);
      LastTurnBlocks(queue, now, pollStartedAt, inputs, o);
      BlockedInside(queue, now, pollStartedAt, inputs, before, o);
    }
  }

  lemma NothingBlockedAtFirst(queue: seq<PrNumber>, now: Time, pollStartedAt: Time, o: Options)
    ensures Run(queue, now, pollStartedAt, [], o).terminal.None?
    ensures forall k: nat :: !BlockedAt(queue, now, pollStartedAt, [], o, k)
  {
  }

  lemma BlockedInside(queue: seq<PrNumber>, now: Time, pollStartedAt: Time, inputs: seq<StepInput>,
                      before: seq<StepInput>, o: Options)
    requires inputs != [] && before == inputs[..|inputs| - 1]
    ensures (exists k: nat :: BlockedAt(queue, now, pollStartedAt, inputs, o, k)) <==>
      (exists k: nat :: BlockedAt(queue, now, pollStartedAt, before, o, k))
      || BlockedAt(queue, now, pollStartedAt, inputs, o, |inputs| - 1)
  {
    hide BlockedAt;
    forall k: nat
      ensures BlockedAt(queue, now, pollStartedAt, inputs, o, k) <==>
        BlockedAt(queue, now, pollStartedAt, before, o, k)
        || (k == |before| && BlockedAt(queue, now, pollStartedAt, inputs, o, |inputs| - 1))
    {
      BlockedEarlier(queue, now, pollStartedAt, inputs, o, k);
    }
  }

  // ---------------------------------------------------------------- progress

  ghost function Position(s: QueueState): nat {
    if s.frontier.Some? && s.frontier.value in s.queue then IndexOf(s.queue, s.frontier.value) + 1 else 0
  }

  ghost function ReadsLeft(s: QueueState): nat {
    match s.work
    case NoWork => |s.queue| + 1
    case Sweep(remaining) => |remaining|
    case FrontierPoll(_) => 1
  }

  lemma SweepFitsQueue(s: QueueState)
    requires Inv(s)
    ensures !s.work.NoWork? ==> ReadsLeft(s) <= |s.queue|
    ensures s.frontier.Some? ==> s.frontier.value in s.queue
  {
    if s.work.Sweep? {
      DistinctIffSize(s.work.remaining);
      DistinctIffSize(s.queue);
      SubsetSize(Elements(s.work.remaining), Elements(s.queue));
    }
  }

  /** A turn that neither sleeps nor ends moves the frontier forward, or keeps it and
      has fewer reads left before the next evaluation. */
  lemma AwakeTurnProgresses(l: Loop, i: StepInput, o: Options)
    requires LoopInv(l) && l.terminal.None?
    requires Turn(l, i, o).terminal.None? && !Turn(l, i, o).slept
    ensures var s, t := l.state, Turn(l, i, o).state;
      && t.queue == s.queue
      && (Position(t) > Position(s) || (Position(t) == Position(s) && ReadsLeft(t) < ReadsLeft(s)))
  {
    hide AdvancesOk, Inv, Evaluate, PlanQueue;
    PlanKeepsInv(l.state, i.planAt, i.planAt);
    var s := PlanQueue(l.state, i.planAt);
    SweepFitsQueue(s);
    var row := ReadSnapshot(NextRead(s).value, i.read.answers, true);
    ApplyKeepsInv(s, row, i.applyAt, o);
    var s1 := ApplySnapshot(s, row, i.applyAt, o).state;
    if s1.work.NoWork? {
      EvaluateIsSound(s1, i.evaluateAt, o);
    }
  }

  /** The pause is the interval, but at least a minute, doubled after each further
      failure, and never above five minutes. */
  lemma BackoffIsExact(second: nat, interval: nat, failures: nat)
    requires failures >= 1
    ensures Backoff(second, interval, 1) == Smaller(300 * second, Larger(60 * second, interval))
    ensures Backoff(second, interval, failures + 1) == Smaller(300 * second, 2 * Backoff(second, interval, failures))
  {
  }

  function Smaller(a: int, b: int): int {
    if a <= b then a else b
  }

  function Larger(a: int, b: int): int {
    if a <= b then b else a
  }

  /** The pause before a retry lies between one and five minutes, grows with the number
      of failures, and reaches the cap by the fourth. */
  lemma BackoffIsBounded(second: nat, interval: nat, failures: nat)
    requires failures >= 1
    ensures 60 * second <= Backoff(second, interval, failures) <= 300 * second
    ensures Backoff(second, interval, failures) <= Backoff(second, interval, failures + 1)
    ensures failures >= 4 ==> Backoff(second, interval, failures) == 300 * second
  {
    DoublingGrows(if interval > 60 * second then interval else 60 * second, failures - 1);
  }

  lemma {:induction false} DoublingGrows(base: nat, n: nat)
    ensures Doubled(base, n) >= base
    ensures n == 1 ==> Doubled(base, n) == 2 * base
    ensures n == 2 ==> Doubled(base, n) == 4 * base
    ensures n >= 3 ==> Doubled(base, n) >= 8 * base
  {
    if n > 0 {
      DoublingGrows(base, n - 1);
    }
  }

  /** A run that goes on has seen fewer consecutive failures than the allowed number. */
  lemma {:induction false} RetriesAreBounded(queue: seq<PrNumber>, now: Time, pollStartedAt: Time,
                                             inputs: seq<StepInput>, o: Options)
    ensures var l := Run(queue, now, pollStartedAt, inputs, o);
      l.terminal.None? ==> l.failures == 0 || l.failures < o.maxQueryErrors
  {
    hide Turn;
    if inputs != [] {
      RetriesAreBounded(queue, now, pollStartedAt, inputs[..|inputs| - 1], o);
      TurnCountsFailures(Run(queue, now, pollStartedAt, inputs[..|inputs| - 1], o), inputs[|inputs| - 1], o);
    }
  }

  lemma TurnCountsFailures(l: Loop, i: StepInput, o: Options)
    ensures var t := Turn(l, i, o);
      t.terminal.None? ==>
        l.terminal.None? && (t.failures == 0 || (t.failures == l.failures + 1 && t.failures < o.maxQueryErrors))
  {
    hide Evaluate, ApplySnapshot, PlanQueue, ReadSnapshot;
  }

  // ---------------------------------------------------------- the loop itself

  /** runQueued inside pollUntilTerminal, over the finite list of inputs seen so far. */
  method RunQueued(queue: seq<PrNumber>, now: Time, pollStartedAt: Time, inputs: seq<StepInput>, o: Options)
      returns (l: Loop)
    ensures l == Run(queue, now, pollStartedAt, inputs, o)
  {
    hide Evaluate, ApplySnapshot, PlanQueue, ReadSnapshot;
    var state, failures, slept := Create(queue, now), 0, false;
    var emitted: seq<Verdict> := [QueueVerdict(queue)];
    var terminal: Option<Terminal> := None;
    var k := 0;
    while k < |inputs|
      invariant k <= |inputs|
      invariant Loop(state, failures, pollStartedAt, emitted, slept, terminal) ==
        Run(queue, now, pollStartedAt, inputs[..k], o)
    {
      var input := inputs[k];
      assert inputs[..k + 1][..k] == inputs[..k];
      k := k + 1;
      if terminal.Some? {
        continue;
      }
      state := PlanQueue(state, input.planAt);
      slept := false;
      if state.work.NoWork? {
        var complete := Evaluate(state, input.evaluateAt, o);
        failures := 0;
        terminal := Some(if complete.Complete? then CompleteVerdict(complete.merged)
                         else InternalError(if complete.EvaluateThrew? then complete.error else NoWorkWhileActive));
        continue;
      }
      var context := NextRead(state);
      if context.None? {
        failures, terminal := 0, Some(InternalError(HeadMismatch));
        continue;
      }
      if input.read.QueryFailed? {
        failures := failures + 1;
        if !input.read.retryable || failures >= o.maxQueryErrors {
          terminal := Some(StatusQueryVerdict(failures));
          continue;
        }
        emitted := emitted + [RetryVerdict(failures, Backoff(o.second, o.interval, failures))];
        if DeadlinePassed(pollStartedAt, o, input.failedAt) {
          terminal := Some(UnavailableVerdict);
        } else {
          slept := true;
        }
        continue;
      }
      failures := 0;
      var applied := ApplySnapshot(state, ReadSnapshot(context.value, input.read.answers, true), input.applyAt, o);
      if applied.ApplyThrew? {
        terminal := Some(InternalError(applied.error));
        continue;
      }
      state := applied.state;
      if applied.completed.Some? {
        emitted := emitted + [StatusVerdict(applied.completed.value)];
      }
      if !state.work.NoWork? {
        continue;
      }
      match Evaluate(state, input.evaluateAt, o) {
        case Complete(merged) =>
          terminal := Some(CompleteVerdict(merged));
        case BlockedBy(blocker) =>
          terminal := Some(BlockerVerdict(blocker));
        case Advance(next, merged, frontier, remaining) =>
          state := next;
          emitted := emitted + [AdvanceVerdict(merged, frontier, remaining)];
        case TimedOut(next, frontier, unmerged) =>
          state, terminal := next, Some(TimeoutVerdict(frontier, unmerged));
        case Wait(next, frontier, pending, unmerged, emit) =>
          state, slept := next, true;
          if emit {
            emitted := emitted + [WaitingVerdict(frontier, pending, unmerged)];
          }
        case EvaluateThrew(error) =>
          terminal := Some(InternalError(error));
      }
    }
    assert inputs[..k] == inputs;
    l := Loop(state, failures, pollStartedAt, emitted, slept, terminal);
  }
}
