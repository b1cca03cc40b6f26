/** Where the queued watcher's knowledge comes from: every snapshot of a run was made from
    GitHub's answers to a read of that run (watch-pr/policy.ts, runQueued). */
module WatchReads {
  import opened Common
  import opened WatchClassify
  import opened WatchQueue
  import opened WatchRun

  /** A turn changes what is known by one answered read of the PR it planned to read. */
  lemma TurnStoresItsRead(l: Loop, i: StepInput, o: Options)
    requires LoopInv(l)
    ensures var known, after := l.state.snapshots, Turn(l, i, o).state.snapshots;
            after == known ||
            (i.read.Answered? && ReadBy(l, i).Some?
             && after == known[ReadBy(l, i).value := ReadSnapshot(ReadBy(l, i).value, i.read.answers, true)])
  {
    hide AdvancesOk, Inv, Evaluate, PlanQueue, ApplySnapshot;
    if l.terminal.None? {
      PlanKeepsInv(l.state, i.planAt, i.planAt);
      var s := PlanQueue(l.state, i.planAt);
      if !s.work.NoWork? && i.read.Answered? {
        var row := ReadSnapshot(NextRead(s).value, i.read.answers, true);
        ApplyKeepsInv(s, row, i.applyAt, o);
        var s1 := ApplySnapshot(s, row, i.applyAt, o).state;
        if s1.work.NoWork? {
          EvaluateIsSound(s1, i.evaluateAt, o);
        }
      }
    }
  }

  /** Turn k of the run read PR n and GitHub's answers made the row. */
  ghost predicate ReadAt(queue: seq<PrNumber>, now: Time, pollStartedAt: Time, inputs: seq<StepInput>, o: Options,
                         k: nat, n: PrNumber, row: Snapshot) {
    && k < |inputs| && inputs[k].read.Answered?
    && ReadBy(Run(queue, now, pollStartedAt, inputs[..k], o), inputs[k]) == Some(n)
    && row == ReadSnapshot(n, inputs[k].read.answers, true)
  }

  /** Every snapshot of a run comes from an answered read of its own PR. */
  lemma {:induction false} SnapshotsWereRead(queue: seq<PrNumber>, now: Time, pollStartedAt: Time,
                                             inputs: seq<StepInput>, o: Options, n: PrNumber) returns (k: nat)
    requires queue != [] && Distinct(queue)
    requires n in Run(queue, now, pollStartedAt, inputs, o).state.snapshots
    ensures var known := Run(queue, now, pollStartedAt, inputs, o).state.snapshots;
            ReadAt(queue, now, pollStartedAt, inputs, o, k, n, known[n])
  {
    hide LoopInv, ReadBy, Turn;
    assert inputs != [] by {
      NothingKnownAtFirst(queue, now, pollStartedAt, o);
    }
    var before, last := inputs[..|inputs| - 1], inputs[|inputs| - 1];
    var l := Run(queue, now, pollStartedAt, before, o);
    RunKeepsInv(queue, now, pollStartedAt, before, o);
    TurnStoresItsRead(l, last, o);
    var known, after := l.state.snapshots, Run(queue, now, pollStartedAt, inputs, o).state.snapshots;
    if after == known || ReadBy(l, last) != Some(n) {
      k := SnapshotsWereRead(queue, now, pollStartedAt, before, o, n);
      assert before[..k] == inputs[..k];
    } else {
      k := |inputs| - 1;
    }
  }

  lemma NothingKnownAtFirst(queue: seq<PrNumber>, now: Time, pollStartedAt: Time, o: Options)
    ensures Run(queue, now, pollStartedAt, [], o).state.snapshots == map[]
  {
  }

  /** Main result: a PR that a run holds for merged was read by some turn, and GitHub's
      answers to that read say that it is merged. */
  lemma MergedIsReal(queue: seq<PrNumber>, now: Time, pollStartedAt: Time, inputs: seq<StepInput>, o: Options,
                     n: PrNumber)
      returns (k: nat)
    requires queue != [] && Distinct(queue)
    requires IsMerged(Run(queue, now, pollStartedAt, inputs, o).state.snapshots, n)
    ensures k < |inputs| && inputs[k].read.Answered? && ReallyMerged(inputs[k].read.answers)
    ensures ReadBy(Run(queue, now, pollStartedAt, inputs[..k], o), inputs[k]) == Some(n)
  {
    hide Run, ReadBy;
    k := SnapshotsWereRead(queue, now, pollStartedAt, inputs, o, n);
  }

  /** The same for every PR that an emitted advance names as merged. */
  lemma AdvancesAreReal(queue: seq<PrNumber>, now: Time, pollStartedAt: Time, inputs: seq<StepInput>, o: Options,
                        a: nat)
      returns (k: nat)
    requires queue != [] && Distinct(queue)
    requires var l := Run(queue, now, pollStartedAt, inputs, o); a < |l.emitted| && l.emitted[a].AdvanceVerdict?
    ensures k < |inputs| && inputs[k].read.Answered? && ReallyMerged(inputs[k].read.answers)
    ensures ReadBy(Run(queue, now, pollStartedAt, inputs[..k], o), inputs[k]) ==
      Some(Run(queue, now, pollStartedAt, inputs, o).emitted[a].merged)
  {
    hide Run, ReadBy, Inv;
    var l := Run(queue, now, pollStartedAt, inputs, o);
    RunKeepsInv(queue, now, pollStartedAt, inputs, o);
    assert AdvanceFact(l.emitted[a], l.state);
    k := MergedIsReal(queue, now, pollStartedAt, inputs, o, l.emitted[a].merged);
  }
}
