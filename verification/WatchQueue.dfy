/** The queue of the watcher (watch-pr/policy.ts: planQueue, applyQueueSnapshot,
    evaluateQueue): sweeps of the whole queue and polls of its frontier. Clock readings
    are arbitrary. */
module WatchQueue {
  import opened Common
  import opened WatchClassify

  /** Times are whole multiples of one unit, `second` of which make a second. Options and
      clock readings may be fractions of a second: any finite number of binary floats are
      whole in some such unit. */
  type Time = int

  datatype Options = Options(
    second: nat, interval: nat, sweepInterval: nat, timeout: nat, maxQueryErrors: nat, allowDraft: bool)

  datatype Work = NoWork | Sweep(remaining: seq<PrNumber>) | FrontierPoll(pr: PrNumber)

  /** The two shapes of the text that suppresses repeated wait messages. */
  datatype WaitKey = PendingKey(pr: PrNumber, count: nat) | QueueKey(pr: PrNumber, count: nat)

  datatype QueueState = QueueState(
    queue: seq<PrNumber>, snapshots: map<PrNumber, Snapshot>, work: Work, nextSweepAt: Time,
    frontier: Option<PrNumber>, lastWaitKey: Option<WaitKey>, startedAt: Time)

  /** The internal errors that are meant to be unreachable. */
  datatype Internal =
    | NoReadInFlight | HeadMismatch | SweepIncomplete | EmptyComplete | ActiveEmpty | NoWorkWhileActive | NoDecision

  // ---------------------------------------------------------------- pieces

  /** createQueueState */
  function Create(queue: seq<PrNumber>, now: Time): QueueState {
    QueueState(queue, map[], Sweep(queue), now, None, None, now)
  }

  /** Rows of the listed PRs that have a snapshot, in order. */
  function Rows(queue: seq<PrNumber>, snapshots: map<PrNumber, Snapshot>): seq<Snapshot> {
    if queue == [] then []
    else
      var front, last := Rows(queue[..|queue| - 1], snapshots), queue[|queue| - 1];
      if last in snapshots then front + [snapshots[last]] else front
  }

  predicate IsMerged(snapshots: map<PrNumber, Snapshot>, pr: PrNumber) {
    pr in snapshots && snapshots[pr].MergedPr?
  }

  /** The PRs that are not known to be merged, in order. */
  function Unmerged(queue: seq<PrNumber>, snapshots: map<PrNumber, Snapshot>): seq<PrNumber> {
    if queue == [] then []
    else
      var front, last := Unmerged(queue[..|queue| - 1], snapshots), queue[|queue| - 1];
      if IsMerged(snapshots, last) then front else front + [last]
  }

  function NotMerged(rows: seq<Snapshot>): seq<Snapshot> {
    if rows == [] then []
    else
      var front, last := NotMerged(rows[..|rows| - 1]), rows[|rows| - 1];
      if last.MergedPr? then front else front + [last]
  }

  /** activeRows */
  function ActiveRows(s: QueueState): seq<Snapshot> {
    NotMerged(Rows(s.queue, s.snapshots))
  }

  /** planQueue */
  function PlanQueue(s: QueueState, now: Time): QueueState {
    if !s.work.NoWork? then s
    else
      var remaining := Unmerged(s.queue, s.snapshots);
      if (s.snapshots == map[] || now >= s.nextSweepAt) && remaining != [] then s.(work := Sweep(remaining))
      else
        var active := ActiveRows(s);
        if active == [] then s else s.(work := FrontierPoll(active[0].number))
  }

  datatype Applied = Applied(state: QueueState, completed: Option<seq<Snapshot>>) | ApplyThrew(error: Internal)

  /** applyQueueSnapshot */
  function ApplySnapshot(s: QueueState, row: Snapshot, now: Time, o: Options): Applied {
    var snapshots := s.snapshots[row.number := row];
    match s.work
    case NoWork => ApplyThrew(NoReadInFlight)
    case FrontierPoll(_) => Applied(s.(snapshots := snapshots, work := NoWork), None)
    case Sweep(remaining) =>
      if remaining == [] || remaining[0] != row.number then ApplyThrew(HeadMismatch)
      else if remaining[1..] != [] then Applied(s.(snapshots := snapshots, work := Sweep(remaining[1..])), None)
      else
        var rows := Rows(s.queue, snapshots);
        if rows == [] || |rows| != |s.queue| then ApplyThrew(SweepIncomplete)
        else Applied(s.(snapshots := snapshots, work := NoWork, nextSweepAt := now + o.sweepInterval), Some(rows))
  }

  datatype MergedEntry = MergedEntry(number: PrNumber, mergedAt: Option<string>)

  function MergedEntries(rows: seq<Snapshot>): seq<MergedEntry> {
    if rows == [] then []
    else
      var front, last := MergedEntries(rows[..|rows| - 1]), rows[|rows| - 1];
      if last.MergedPr? then front + [MergedEntry(last.number, last.facts.mergedAt)] else front
  }

  datatype Evaluation =
    | Complete(merged: seq<MergedEntry>)
    | BlockedBy(blocker: Blocker)
    | Advance(state: QueueState, merged': PrNumber, frontier: PrNumber, remaining: nat)
    | TimedOut(state: QueueState, frontier: PrNumber, unmerged: nat)
    | Wait(state: QueueState, frontier: PrNumber, pending: Option<seq<Check>>, unmerged: nat, emit: bool)
    | EvaluateThrew(error: Internal)

  predicate DeadlinePassed(started: Time, o: Options, now: Time) {
    o.timeout > 0 && now - started >= o.timeout
  }

  /** evaluateQueue */
  function Evaluate(s: QueueState, now: Time, o: Options): Evaluation {
    var active := ActiveRows(s);
    if active == [] then
      var merged := MergedEntries(Rows(s.queue, s.snapshots));
      if merged == [] then EvaluateThrew(EmptyComplete) else Complete(merged)
    else
      var decision := SelectDecision(active, o.allowDraft);
      if decision.Unclassified? then EvaluateThrew(NoDecision)
      else if decision.Blocked? then BlockedBy(decision.blocker)
      else
        var frontier := active[0].number;
        if s.frontier.Some? && s.frontier.value != frontier then
          Advance(s.(frontier := Some(frontier), lastWaitKey := None), s.frontier.value, frontier, |active|)
        else if DeadlinePassed(s.startedAt, o, now) then TimedOut(s.(frontier := Some(frontier)), frontier, |active|)
        else
          var pending := if IsPendingRow(active[0]) then Some(active[0].ci.pending) else None;
          var key := if pending.Some? then PendingKey(frontier, |pending.value|) else QueueKey(frontier, |active|);
          Wait(s.(frontier := Some(frontier), lastWaitKey := Some(key)), frontier, pending, |active|,
            s.lastWaitKey != Some(key))
  }

  /** The PR that the planned work reads next. */
  function NextRead(s: QueueState): Option<PrNumber> {
    match s.work
    case NoWork => None
    case Sweep(remaining) => if remaining == [] then None else Some(remaining[0])
    case FrontierPoll(pr) => Some(pr)
  }

  // ------------------------------------------------------------- invariants

  ghost predicate SnapshotsOk(s: QueueState) {
    forall n :: n in s.snapshots ==> n in s.queue && s.snapshots[n].number == n && Typed(s.snapshots[n])
  }

  ghost predicate AllKnown(s: QueueState) {
    forall n :: n in s.queue ==> n in s.snapshots
  }

  /** The planned work only ever reads PRs not known to be merged, and a sweep covers
      every PR still unknown. */
  ghost predicate WorkOk(s: QueueState) {
    match s.work
    case NoWork => AllKnown(s)
    case FrontierPoll(pr) => AllKnown(s) && pr in s.queue && !IsMerged(s.snapshots, pr)
    case Sweep(remaining) =>
      && remaining != [] && Distinct(remaining)
      && (forall n :: n in remaining ==> n in s.queue && !IsMerged(s.snapshots, n))
      && (forall n :: n in s.queue ==> n in s.snapshots || n in remaining)
  }

  /** Position of a PR in the queue. */
  ghost function IndexOf(queue: seq<PrNumber>, n: PrNumber): (i: nat)
    requires n in queue
    ensures i < |queue| && queue[i] == n
  {
    var i :| 0 <= i < |queue| && queue[i] == n;
    i
  }

  ghost predicate MergedBefore(s: QueueState, i: nat)
    requires i <= |s.queue|
  {
    forall j :: 0 <= j < i ==> IsMerged(s.snapshots, s.queue[j])
  }

  /** Everything before the recorded frontier is merged. */
  ghost predicate FrontierOk(s: QueueState) {
    s.frontier.Some? ==>
      AllKnown(s) && s.frontier.value in s.queue && MergedBefore(s, IndexOf(s.queue, s.frontier.value))
  }

  ghost predicate Inv(s: QueueState) {
    s.queue != [] && Distinct(s.queue) && SnapshotsOk(s) && WorkOk(s) && FrontierOk(s)
  }

  // --------------------------------------------------------- list of unmerged

  lemma {:induction false} UnmergedMembers(queue: seq<PrNumber>, snapshots: map<PrNumber, Snapshot>)
    ensures forall n :: n in Unmerged(queue, snapshots) <==> n in queue && !IsMerged(snapshots, n)
    ensures Distinct(queue) ==> Distinct(Unmerged(queue, snapshots))
    ensures |Unmerged(queue, snapshots)| <= |queue|
  {
    if queue != [] {
      UnmergedMembers(queue[..|queue| - 1], snapshots);
      assert queue == queue[..|queue| - 1] + [queue[|queue| - 1]];
    }
  }

  /** The first unmerged PR has only merged ones before it. */
  lemma {:induction false} FirstUnmerged(queue: seq<PrNumber>, snapshots: map<PrNumber, Snapshot>) returns (i: nat)
    requires Unmerged(queue, snapshots) != []
    ensures i < |queue| && queue[i] == Unmerged(queue, snapshots)[0] && !IsMerged(snapshots, queue[i])
    ensures forall j :: 0 <= j < i ==> IsMerged(snapshots, queue[j])
  {
    var front := queue[..|queue| - 1];
    if Unmerged(front, snapshots) != [] {
      i := FirstUnmerged(front, snapshots);
    } else {
      UnmergedMembers(front, snapshots);
      i := |queue| - 1;
      forall j | 0 <= j < i ensures IsMerged(snapshots, queue[j]) {
        assert queue[j] in front;
      }
    }
  }

  /** With every PR known, the active rows are the snapshots of the unmerged PRs. */
  lemma {:induction false} ActiveAreUnmerged(queue: seq<PrNumber>, snapshots: map<PrNumber, Snapshot>)
    requires forall n :: n in queue ==> n in snapshots
    ensures |NotMerged(Rows(queue, snapshots))| == |Unmerged(queue, snapshots)|
    ensures forall k :: 0 <= k < |Unmerged(queue, snapshots)| ==>
      Unmerged(queue, snapshots)[k] in snapshots
      && NotMerged(Rows(queue, snapshots))[k] == snapshots[Unmerged(queue, snapshots)[k]]
  {
    if queue != [] {
      var front, last := queue[..|queue| - 1], queue[|queue| - 1];
      ActiveAreUnmerged(front, snapshots);
      assert last in queue;
      var rows := Rows(front, snapshots);
      assert Rows(queue, snapshots)[..|rows|] == rows;
    }
  }

  lemma {:induction false} RowsComplete(queue: seq<PrNumber>, snapshots: map<PrNumber, Snapshot>)
    requires forall n :: n in queue ==> n in snapshots
    ensures |Rows(queue, snapshots)| == |queue|
    ensures forall k :: 0 <= k < |queue| ==> queue[k] in snapshots && Rows(queue, snapshots)[k] == snapshots[queue[k]]
  {
    if queue != [] {
      RowsComplete(queue[..|queue| - 1], snapshots);
      assert queue[|queue| - 1] in queue;
    }
  }

  lemma {:induction false} EntriesComplete(rows: seq<Snapshot>)
    requires forall k :: 0 <= k < |rows| ==> rows[k].MergedPr?
    ensures |MergedEntries(rows)| == |rows|
    ensures forall k :: 0 <= k < |rows| ==> MergedEntries(rows)[k].number == rows[k].number
  {
    if rows != [] {
      EntriesComplete(rows[..|rows| - 1]);
    }
  }

  /** What evaluateQueue sees when every PR is known. */
  lemma ActiveFacts(s: QueueState)
    requires Inv(s) && AllKnown(s)
    ensures |ActiveRows(s)| == |Unmerged(s.queue, s.snapshots)|
    ensures forall k :: 0 <= k < |ActiveRows(s)| ==>
      ActiveRows(s)[k].number == Unmerged(s.queue, s.snapshots)[k] && Typed(ActiveRows(s)[k])
  {
    ActiveAreUnmerged(s.queue, s.snapshots);
  }

  // ------------------------------------------------------------- planQueue

  /** Planning keeps the invariant and all knowledge; it finds a read unless the whole
      queue is merged; the read is of a PR not known to be merged; planning again
      changes nothing. A new plan sweeps all unmerged PRs when a sweep is due and polls
      the first of them otherwise. */
  lemma PlanKeepsInv(s: QueueState, now: Time, later: Time)
    requires Inv(s)
    ensures var p := PlanQueue(s, now);
      && Inv(p) && p == s.(work := p.work) && (!s.work.NoWork? ==> p == s)
      && (p.work.NoWork? <==> s.work.NoWork? && Unmerged(s.queue, s.snapshots) == [])
      && (!p.work.NoWork? ==>
            NextRead(p).Some? && NextRead(p).value in s.queue && !IsMerged(s.snapshots, NextRead(p).value))
      && (!p.work.NoWork? ==> PlanQueue(p, later) == p)
    ensures s.work.NoWork? && Unmerged(s.queue, s.snapshots) != [] ==> (
      PlanQueue(s, now).work ==
      if s.snapshots == map[] || now >= s.nextSweepAt then Sweep(Unmerged(s.queue, s.snapshots))
      else FrontierPoll(Unmerged(s.queue, s.snapshots)[0]))
  {
    if s.work.NoWork? {
      ActiveFacts(s);
      UnmergedMembers(s.queue, s.snapshots);
      var remaining := Unmerged(s.queue, s.snapshots);
      if remaining != [] {
        assert remaining[0] in remaining;
      }
    } else if s.work.Sweep? {
      assert s.work.remaining[0] in s.work.remaining;
    }
  }

  // ------------------------------------------------------ applyQueueSnapshot

  /** Applying the planned read never throws and keeps the invariant. The last read of a
      sweep ends it and sets the time of the next one. */
  lemma ApplyKeepsInv(s: QueueState, row: Snapshot, now: Time, o: Options)
    requires Inv(s) && NextRead(s) == Some(row.number) && Typed(row)
    ensures ApplySnapshot(s, row, now, o).Applied?
    ensures var t := ApplySnapshot(s, row, now, o).state;
      && Inv(t) && t.queue == s.queue && t.snapshots == s.snapshots[row.number := row] && t.frontier == s.frontier
      && t.startedAt == s.startedAt && t.lastWaitKey == s.lastWaitKey
    ensures var a, swept := ApplySnapshot(s, row, now, o), s.work.Sweep? && |s.work.remaining| == 1;
      && a.state.nextSweepAt == (if swept then now + o.sweepInterval else s.nextSweepAt)
      && a.state.work == (if s.work.Sweep? && !swept then Sweep(s.work.remaining[1..]) else NoWork)
      && a.completed == (if swept then Some(Rows(s.queue, a.state.snapshots)) else None)
  {
    var snapshots := s.snapshots[row.number := row];
    match s.work
    case FrontierPoll(pr) =>
    case Sweep(remaining) =>
      var tail := remaining[1..];
      assert remaining == [remaining[0]] + tail;
      assert remaining[0] in remaining;
      if tail == [] {
        RowsComplete(s.queue, snapshots);
      } else {
        forall n | n in tail ensures n in s.queue && !IsMerged(snapshots, n) {
          var k :| 0 <= k < |tail| && tail[k] == n;
          assert remaining[k + 1] == n != remaining[0];
        }
      }
  }

  // ---------------------------------------------------------- evaluateQueue

  /** Evaluating a fully known queue never throws. It completes exactly when everything
      is merged, listing the whole queue in order; otherwise the frontier it reports is
      the first unmerged PR; it advances only past a merged frontier, and forwards. */
  lemma EvaluateIsSound(s: QueueState, now: Time, o: Options)
    requires Inv(s) && s.work.NoWork?
    ensures var e := Evaluate(s, now, o);
      && !e.EvaluateThrew?
      && (e.Complete? <==> Unmerged(s.queue, s.snapshots) == [])
      && (e.Complete? ==>
            |e.merged| == |s.queue| && forall k :: 0 <= k < |s.queue| ==> e.merged[k].number == s.queue[k])
      && (e.Advance? || e.TimedOut? || e.Wait? ==>
            && Unmerged(s.queue, s.snapshots) != [] && e.frontier == Unmerged(s.queue, s.snapshots)[0]
            && e.frontier in s.queue && Inv(e.state)
            && e.state == s.(frontier := Some(e.frontier), lastWaitKey := e.state.lastWaitKey))
      && (e.Advance? ==>
            && s.frontier == Some(e.merged') && IsMerged(s.snapshots, e.merged')
            && IndexOf(s.queue, e.merged') < IndexOf(s.queue, e.frontier)
            && e.remaining == |Unmerged(s.queue, s.snapshots)|)
      && (e.TimedOut? || e.Wait? ==> s.frontier.None? || s.frontier == Some(e.frontier))
  {
    hide Unmerged, Rows, NotMerged, MergedEntries, SelectDecision, ClassifyPr;
    ActiveFacts(s);
    UnmergedMembers(s.queue, s.snapshots);
    var active, unmerged := ActiveRows(s), Unmerged(s.queue, s.snapshots);
    if active == [] {
      NobodyActive(s);
      EntriesComplete(Rows(s.queue, s.snapshots));
    } else {
      ClassificationIsTotal(active, o.allowDraft);
      FrontierIsFirst(s);
    }
  }

  /** The snapshots of the PRs that are known and not merged, in queue order. */
  ghost function Open(s: QueueState): seq<Snapshot>
    requires forall n :: n in Unmerged(s.queue, s.snapshots) ==> n in s.snapshots
  {
    var unmerged := Unmerged(s.queue, s.snapshots);
    seq(|unmerged|, k requires 0 <= k < |unmerged| => assert unmerged[k] in unmerged; s.snapshots[unmerged[k]])
  }

  lemma AllKnownIsOpen(s: QueueState)
    requires AllKnown(s)
    ensures forall n :: n in Unmerged(s.queue, s.snapshots) ==> n in s.snapshots
    ensures ActiveRows(s) == Open(s)
  {
    UnmergedMembers(s.queue, s.snapshots);
    ActiveAreUnmerged(s.queue, s.snapshots);
  }

  /** The recorded frontier is not the first unmerged PR any more. */
  predicate FrontierMoved(s: QueueState) {
    var unmerged := Unmerged(s.queue, s.snapshots);
    unmerged != [] && s.frontier.Some? && s.frontier.value != unmerged[0]
  }

  /** Main result: which answer evaluateQueue gives for a fully known queue, each one
      exactly when. */
  lemma EvaluateAnswers(s: QueueState, now: Time, o: Options)
    requires Inv(s) && s.work.NoWork?
    ensures forall n :: n in Unmerged(s.queue, s.snapshots) ==> n in s.snapshots
    ensures var e, rows := Evaluate(s, now, o), Open(s);
      var blocked, late := SomeBlocked(rows, o.allowDraft), o.timeout > 0 && now - s.startedAt >= o.timeout;
      && (e.Complete? <==> rows == [])
      && (e.BlockedBy? <==> blocked)
      && (e.Advance? <==> rows != [] && !blocked && FrontierMoved(s))
      && (e.TimedOut? <==> rows != [] && !blocked && !FrontierMoved(s) && late)
      && (e.Wait? <==> rows != [] && !blocked && !FrontierMoved(s) && !late)
    ensures var e, rows := Evaluate(s, now, o), Open(s);
      && (e.BlockedBy? ==> LeastBlocker(e.blocker, rows, o.allowDraft))
      && (e.Advance? ==> Some(e.merged') == s.frontier && e.frontier == rows[0].number && e.remaining == |rows|)
      && (e.TimedOut? ==> e.frontier == rows[0].number && e.unmerged == |rows|)
      && (e.Wait? ==> e.frontier == rows[0].number && e.unmerged == |rows|)
    ensures var e, rows := Evaluate(s, now, o), Open(s);
      e.Wait? ==>
        var pending := rows[0].OpenPr? && rows[0].ci.CiPending?;
        && e.pending == (if pending then Some(rows[0].ci.pending) else None)
        && e.state.lastWaitKey == Some(if pending then PendingKey(rows[0].number, |rows[0].ci.pending|)
                                       else QueueKey(rows[0].number, |rows|))
        && (e.emit <==> s.lastWaitKey != e.state.lastWaitKey)
    ensures Evaluate(s, now, o).Advance? ==> Evaluate(s, now, o).state.lastWaitKey == None
    ensures Evaluate(s, now, o).TimedOut? ==> Evaluate(s, now, o).state.lastWaitKey == s.lastWaitKey
  {
    hide Unmerged, SelectDecision, ClassifyPr, ReallyBlocked, Rows, NotMerged, MergedEntries, Inv;
    AllKnownAtRest(s);
    AllKnownIsOpen(s);
    ActiveFacts(s);
    EvaluateIsSound(s, now, o);
    if Open(s) != [] {
      BlockedIffSomeBlocker(Open(s), o.allowDraft);
      if SelectDecision(Open(s), o.allowDraft).Blocked? {
        BlockerIsLeast(Open(s), o.allowDraft);
      }
    }
  }

  lemma AllKnownAtRest(s: QueueState)
    requires Inv(s) && s.work.NoWork?
    ensures AllKnown(s)
  {
  }

  lemma NobodyActive(s: QueueState)
    requires Inv(s) && AllKnown(s) && Unmerged(s.queue, s.snapshots) == []
    ensures |Rows(s.queue, s.snapshots)| == |s.queue|
    ensures forall k :: 0 <= k < |s.queue| ==>
      Rows(s.queue, s.snapshots)[k].MergedPr? && Rows(s.queue, s.snapshots)[k].number == s.queue[k]
  {
    UnmergedMembers(s.queue, s.snapshots);
    RowsComplete(s.queue, s.snapshots);
    assert forall k :: 0 <= k < |s.queue| ==> s.queue[k] !in Unmerged(s.queue, s.snapshots);
  }

  lemma FrontierIsFirst(s: QueueState)
    requires Inv(s) && s.work.NoWork? && Unmerged(s.queue, s.snapshots) != []
    ensures var first := Unmerged(s.queue, s.snapshots)[0];
      && first in s.queue && !IsMerged(s.snapshots, first) && MergedBefore(s, IndexOf(s.queue, first))
      && (s.frontier.Some? && s.frontier.value != first ==>
            IsMerged(s.snapshots, s.frontier.value) && IndexOf(s.queue, s.frontier.value) < IndexOf(s.queue, first))
  {
    var i := FirstUnmerged(s.queue, s.snapshots);
    var first := s.queue[i];
    assert IndexOf(s.queue, first) == i;
    if s.frontier.Some? && s.frontier.value != first {
      var f := IndexOf(s.queue, s.frontier.value);
      assert f < i || i < f;
    }
  }
}
