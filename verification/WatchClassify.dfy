/** What the pull-request watcher makes of one read of GitHub: building a snapshot and
    choosing the blocker, the wait or the ready verdict (watch-pr/policy.ts, types.ts).
    Texts, links and authors are left out; NonEmpty lists are non-empty sequences. */
module WatchClassify {
  import opened Common

  type PrNumber = n: int | n > 0 witness 1

  datatype Mergeable = MERGEABLE | CONFLICTING_MERGE | MERGE_UNKNOWN

  datatype MergeState =
    | BEHIND | BLOCKED | CLEAN | CONFLICTING | DIRTY | DRAFT | HAS_HOOKS | UNKNOWN | UNSTABLE

  datatype Rollup = ERROR | EXPECTED | FAILURE | PENDING | SUCCESS

  datatype ReviewDecision = APPROVED | CHANGES_REQUESTED | REVIEW_REQUIRED | UNDECIDED

  datatype PrState = OPEN | CLOSED | MERGED

  datatype Facts = Facts(
    mergeable: Mergeable, mergeState: MergeState, review: ReviewDecision,
    headOid: Option<string>, state: PrState, mergedAt: Option<string>, isDraft: bool)

  datatype CheckKind = Passed | Skipped | Failed | Pending | CodeReviewGate

  datatype Check = Check(name: string, kind: CheckKind)

  datatype Thread = Thread(id: string)

  datatype CommitRollup = CommitRollup(oid: string, state: Option<Rollup>)

  datatype MergeAssessment =
    | Refused(cause: Rollup)
    | Allowed(byRollup: bool, mergeState: MergeState, headRollup: Option<Rollup>)

  datatype CiState =
    | CiFailing(failed: seq<Check>, pending: seq<Check>, github: MergeAssessment, hadPrevious: bool)
    | CiRejected(pending: seq<Check>, github: MergeAssessment, hadPrevious: bool)
    | CiPending(pending: seq<Check>, hadPrevious: bool)
    | CiClean(github: MergeAssessment, hadPrevious: bool)

  datatype Snapshot =
    | MergedPr(number: PrNumber, facts: Facts)
    | ClosedPr(number: PrNumber, facts: Facts)
    | OpenPr(number: PrNumber, facts: Facts, threads: seq<Thread>, ci: CiState)

  /** The shape that the types of types.ts impose on a CI state. */
  ghost predicate CiTyped(ci: CiState) {
    match ci
    case CiFailing(failed, pending, _, _) =>
      failed != [] && (forall c :: c in failed ==> c.kind.Failed?) && (forall c :: c in pending ==> c.kind.Pending?)
    case CiRejected(pending, github, _) => github.Refused? && (forall c :: c in pending ==> c.kind.Pending?)
    case CiPending(pending, _) => pending != [] && (forall c :: c in pending ==> c.kind.Pending?)
    case CiClean(github, _) => github.Allowed?
  }

  ghost predicate Typed(row: Snapshot) {
    row.OpenPr? ==> CiTyped(row.ci)
  }

  // ----------------------------------------------------- building a snapshot

  /** assessGitHubMerge: only a BLOCKED head with a failed rollup is refused. */
  function AssessGitHubMerge(mergeState: MergeState, headRollup: Option<Rollup>): (r: MergeAssessment)
    ensures r.Refused? <==> mergeState.BLOCKED? && (headRollup == Some(ERROR) || headRollup == Some(FAILURE))
  {
    if mergeState.BLOCKED? then
      match headRollup
      case Some(ERROR) => Refused(ERROR)
      case Some(FAILURE) => Refused(FAILURE)
      case _ => Allowed(true, mergeState, headRollup)
    else Allowed(false, mergeState, headRollup)
  }

  /** commits.find(commit => commit.oid === headRefOid)?.state ?? null */
  function HeadRollup(headOid: Option<string>, commits: seq<CommitRollup>): Option<Rollup> {
    if headOid.None? || commits == [] then None
    else if commits[0].oid == headOid.value then commits[0].state
    else HeadRollup(headOid, commits[1..])
  }

  function OfKind(checks: seq<Check>, kind: CheckKind): (r: seq<Check>)
    ensures forall c :: c in r <==> c in checks && c.kind == kind
  {
    if checks == [] then []
    else
      var rest := OfKind(checks[..|checks| - 1], kind);
      assert checks == checks[..|checks| - 1] + [checks[|checks| - 1]];
      if checks[|checks| - 1].kind == kind then rest + [checks[|checks| - 1]] else rest
  }

  /** The raw answers of one read. */
  datatype Answers = Answers(facts: Facts, threads: seq<Thread>, checks: seq<Check>, commits: seq<CommitRollup>)

  /** The CI part of readSnapshot; `omit` leaves the merge assessment out while checks
      are merely pending. */
  function ReadCi(a: Answers, omit: bool): CiState {
    var failed, pending := OfKind(a.checks, Failed), OfKind(a.checks, Pending);
    if failed == [] && pending != [] && omit then CiPending(pending, false)
    else
      var github := AssessGitHubMerge(a.facts.mergeState, HeadRollup(a.facts.headOid, a.commits));
      var had := exists c :: c in a.commits && Some(c.oid) != a.facts.headOid && c.state == Some(SUCCESS);
      if failed != [] then CiFailing(failed, pending, github, had)
      else if github.Refused? then CiRejected(pending, github, had)
      else if pending != [] then CiPending(pending, had)
      else CiClean(github, had)
  }

  /** A blocked merge whose head commit failed. */
  ghost predicate RefusedMerge(a: Answers) {
    a.facts.mergeState == BLOCKED && HeadRollup(a.facts.headOid, a.commits) in {Some(ERROR), Some(FAILURE)}
  }

  ghost predicate SomeCheck(a: Answers, kind: CheckKind) {
    exists c :: c in a.checks && c.kind == kind
  }

  /** Which CI state one read gives, each one exactly when, and what it lists. */
  lemma CiMeans(a: Answers, omit: bool)
    ensures ReadCi(a, omit).CiFailing? <==> SomeCheck(a, Failed)
    ensures ReadCi(a, omit).CiRejected? <==>
      !SomeCheck(a, Failed) && RefusedMerge(a) && !(SomeCheck(a, Pending) && omit)
    ensures ReadCi(a, omit).CiPending? <==>
      !SomeCheck(a, Failed) && SomeCheck(a, Pending) && (omit || !RefusedMerge(a))
    ensures ReadCi(a, omit).CiClean? <==> !SomeCheck(a, Failed) && !SomeCheck(a, Pending) && !RefusedMerge(a)
    ensures var ci := ReadCi(a, omit);
      ci.CiFailing? ==> forall c :: c in ci.failed <==> c in a.checks && c.kind == Failed
    ensures var ci := ReadCi(a, omit);
      !ci.CiClean? ==> forall c :: c in ci.pending <==> c in a.checks && c.kind == Pending
  {
    var failed, pending := OfKind(a.checks, Failed), OfKind(a.checks, Pending);
    assert failed == [] || failed[0] in failed;
    assert pending == [] || pending[0] in pending;
  }

  /** readSnapshot */
  function ReadSnapshot(number: PrNumber, a: Answers, omit: bool): (row: Snapshot)
    ensures row.number == number && row.facts == a.facts
    ensures Typed(row)
  {
    if a.facts.state.MERGED? || a.facts.mergedAt.Some? then MergedPr(number, a.facts)
    else if a.facts.state.CLOSED? then ClosedPr(number, a.facts)
    else OpenPr(number, a.facts, a.threads, ReadCi(a, omit))
  }

  // ------------------------------------------------------------ the tiers

  datatype GateReason = ClosedWithoutMerge | DraftPr | ChangesRequested

  datatype Blocker =
    | MergeConflicts(pr: PrNumber)
    | ReviewThreads(pr: PrNumber, threads: seq<Thread>)
    | FailingChecks(pr: PrNumber, ci: CiState)
    | MergeGate(pr: PrNumber, reason: GateReason)

  predicate HasConflict(row: Snapshot) {
    && row.OpenPr?
    && (row.facts.mergeable.CONFLICTING_MERGE? || row.facts.mergeState.DIRTY? || row.facts.mergeState.CONFLICTING?)
  }

  function ConflictBlocker(row: Snapshot): Option<Blocker> {
    if HasConflict(row) then Some(MergeConflicts(row.number)) else None
  }

  function ThreadBlocker(row: Snapshot): Option<Blocker> {
    if row.OpenPr? && row.threads != [] then Some(ReviewThreads(row.number, row.threads)) else None
  }

  function CiBlocker(row: Snapshot): Option<Blocker> {
    if row.OpenPr? && (row.ci.CiFailing? || row.ci.CiRejected?) then Some(FailingChecks(row.number, row.ci)) else None
  }

  function GateReasonOf(row: Snapshot, allowDraft: bool): Option<GateReason> {
    if row.MergedPr? then None
    else if row.ClosedPr? then Some(ClosedWithoutMerge)
    else if row.facts.isDraft && !allowDraft then Some(DraftPr)
    else if row.facts.review.CHANGES_REQUESTED? then Some(ChangesRequested)
    else None
  }

  function GateBlocker(row: Snapshot, allowDraft: bool): Option<Blocker> {
    var reason := GateReasonOf(row, allowDraft);
    if reason.None? || (reason.value.DraftPr? && row.OpenPr? && row.ci.CiPending?) then None
    else Some(MergeGate(row.number, reason.value))
  }

  /** Tier 0: conflicts, 1: threads, 2: CI, 3: gates. */
  function TierBlocker(tier: nat, row: Snapshot, allowDraft: bool): Option<Blocker>
    requires tier < 4
  {
    if tier == 0 then ConflictBlocker(row)
    else if tier == 1 then ThreadBlocker(row)
    else if tier == 2 then CiBlocker(row)
    else GateBlocker(row, allowDraft)
  }

  predicate IsPendingRow(row: Snapshot) {
    row.OpenPr? && row.ci.CiPending?
  }

  datatype Contribution = ReadyPr(number: PrNumber) | AlreadyMerged(number: PrNumber, mergedAt: Option<string>)

  function ReadyContribution(row: Snapshot, allowDraft: bool): Option<Contribution> {
    if row.MergedPr? then Some(AlreadyMerged(row.number, row.facts.mergedAt))
    else if !row.OpenPr? || !row.ci.CiClean? || row.threads != [] || ConflictBlocker(row).Some?
      || GateReasonOf(row, allowDraft).Some? then None
    else if row.facts.review.CHANGES_REQUESTED? then None
    else Some(ReadyPr(row.number))
  }

  /** Unclassified stands for the "no classified decision" errors. */
  datatype Decision =
    | Blocked(blocker: Blocker)
    | Waiting(frontier: PrNumber, pending: seq<Check>)
    | Clear(prs: seq<Contribution>)
    | Unclassified

  /** classifyPr, for one row. */
  function ClassifyPr(row: Snapshot, allowDraft: bool): Decision {
    if ConflictBlocker(row).Some? then Blocked(ConflictBlocker(row).value)
    else if ThreadBlocker(row).Some? then Blocked(ThreadBlocker(row).value)
    else if CiBlocker(row).Some? then Blocked(CiBlocker(row).value)
    else if GateBlocker(row, allowDraft).Some? then Blocked(GateBlocker(row, allowDraft).value)
    else if IsPendingRow(row) then Waiting(row.number, row.ci.pending)
    else
      var ready := ReadyContribution(row, allowDraft);
      if ready.None? then Unclassified else Clear([ready.value])
  }

  /** The first row that a tier blocks. */
  function FirstBlocked(tier: nat, rows: seq<Snapshot>, allowDraft: bool): (i: nat)
    requires tier < 4
    ensures i <= |rows|
    ensures forall j :: 0 <= j < i ==> TierBlocker(tier, rows[j], allowDraft).None?
    ensures i < |rows| ==> TierBlocker(tier, rows[i], allowDraft).Some?
  {
    if rows == [] then 0
    else if TierBlocker(tier, rows[0], allowDraft).Some? then 0
    else 1 + FirstBlocked(tier, rows[1..], allowDraft)
  }

  function FirstPending(rows: seq<Snapshot>): (i: nat)
    ensures i <= |rows|
    ensures forall j :: 0 <= j < i ==> !IsPendingRow(rows[j])
    ensures i < |rows| ==> IsPendingRow(rows[i])
  {
    if rows == [] then 0 else if IsPendingRow(rows[0]) then 0 else 1 + FirstPending(rows[1..])
  }

  function Contributions(rows: seq<Snapshot>, allowDraft: bool): seq<Contribution> {
    if rows == [] then []
    else
      var rest, mine := Contributions(rows[..|rows| - 1], allowDraft), ReadyContribution(rows[|rows| - 1], allowDraft);
      if mine.Some? then rest + [mine.value] else rest
  }

  /** selectTierMajorStackDecision */
  function SelectDecision(rows: seq<Snapshot>, allowDraft: bool): Decision {
    var c, t, f, g := FirstBlocked(0, rows, allowDraft), FirstBlocked(1, rows, allowDraft),
                      FirstBlocked(2, rows, allowDraft), FirstBlocked(3, rows, allowDraft);
    if c < |rows| then Blocked(ConflictBlocker(rows[c]).value)
    else if t < |rows| then Blocked(ThreadBlocker(rows[t]).value)
    else if f < |rows| then Blocked(CiBlocker(rows[f]).value)
    else if g < |rows| then Blocked(GateBlocker(rows[g], allowDraft).value)
    else
      var p := FirstPending(rows);
      if p < |rows| then Waiting(rows[p].number, rows[p].ci.pending)
      else
        var prs := Contributions(rows, allowDraft);
        if prs == [] || |prs| != |rows| then Unclassified else Clear(prs)
  }

  // ------------------------------------------------------------- properties

  /** An unblocked row that is not pending is merged or ready. */
  lemma RowIsClassified(row: Snapshot, allowDraft: bool)
    requires Typed(row)
    requires forall tier: nat :: tier < 4 ==> TierBlocker(tier, row, allowDraft).None?
    requires !IsPendingRow(row)
    ensures ReadyContribution(row, allowDraft).Some?
  {
    assert TierBlocker(0, row, allowDraft).None? && TierBlocker(1, row, allowDraft).None?;
    assert TierBlocker(2, row, allowDraft).None? && TierBlocker(3, row, allowDraft).None?;
  }

  lemma {:induction false} AllContribute(rows: seq<Snapshot>, allowDraft: bool)
    requires forall i :: 0 <= i < |rows| ==> ReadyContribution(rows[i], allowDraft).Some?
    ensures |Contributions(rows, allowDraft)| == |rows|
    ensures forall i :: 0 <= i < |rows| ==>
      Contributions(rows, allowDraft)[i] == ReadyContribution(rows[i], allowDraft).value
  {
    if rows != [] {
      AllContribute(rows[..|rows| - 1], allowDraft);
    }
  }

  /** Main result: classification is total. Neither "no classified decision" error can
      be reached from type-correct snapshots. */
  lemma ClassificationIsTotal(rows: seq<Snapshot>, allowDraft: bool)
    requires rows != [] && forall i :: 0 <= i < |rows| ==> Typed(rows[i])
    ensures SelectDecision(rows, allowDraft) != Unclassified
    ensures ClassifyPr(rows[0], allowDraft) != Unclassified
  {
    var c, t, f, g := FirstBlocked(0, rows, allowDraft), FirstBlocked(1, rows, allowDraft),
                      FirstBlocked(2, rows, allowDraft), FirstBlocked(3, rows, allowDraft);
    if c == |rows| && t == |rows| && f == |rows| && g == |rows| && FirstPending(rows) == |rows| {
      forall i | 0 <= i < |rows| ensures ReadyContribution(rows[i], allowDraft).Some? {
        RowIsClassified(rows[i], allowDraft);
      }
      AllContribute(rows, allowDraft);
    }
    SingleAgreesWithStack(rows[0], allowDraft);
  }

  /** The single-PR and the stack classification agree on one row. */
  lemma SingleAgreesWithStack(row: Snapshot, allowDraft: bool)
    requires Typed(row)
    ensures ClassifyPr(row, allowDraft) == SelectDecision([row], allowDraft) != Unclassified
  {
    var rows := [row];
    assert rows[0] == row && rows[..0] == [];
    var c, t, f, g := FirstBlocked(0, rows, allowDraft), FirstBlocked(1, rows, allowDraft),
                      FirstBlocked(2, rows, allowDraft), FirstBlocked(3, rows, allowDraft);
    if c == t == f == g == 1 && FirstPending(rows) == 1 {
      RowIsClassified(row, allowDraft);
      AllContribute(rows, allowDraft);
    }
  }

  /** What stands in the way of a row, tier by tier: conflicts, review threads, CI, gates. A
      draft whose checks are still pending is left to wait. */
  ghost predicate ReallyBlocked(tier: nat, row: Snapshot, allowDraft: bool) {
    match tier
    case 0 =>
      row.OpenPr?
      && (row.facts.mergeable == CONFLICTING_MERGE || row.facts.mergeState in {DIRTY, CONFLICTING})
    case 1 => row.OpenPr? && row.threads != []
    case 2 => row.OpenPr? && (row.ci.CiFailing? || row.ci.CiRejected?)
    case 3 =>
      row.ClosedPr?
      || (row.OpenPr?
          && if row.facts.isDraft && !allowDraft then !row.ci.CiPending? else row.facts.review == CHANGES_REQUESTED)
    case _ => false
  }

  /** The blocker that reports a blocked row. */
  ghost predicate Reports(b: Blocker, tier: nat, row: Snapshot, allowDraft: bool) {
    match b
    case MergeConflicts(pr) => tier == 0 && pr == row.number
    case ReviewThreads(pr, threads) => tier == 1 && pr == row.number && row.OpenPr? && threads == row.threads
    case FailingChecks(pr, ci) => tier == 2 && pr == row.number && row.OpenPr? && ci == row.ci
    case MergeGate(pr, reason) =>
      tier == 3 && pr == row.number
      && (reason == ClosedWithoutMerge <==> row.ClosedPr?)
      && (reason == DraftPr <==> row.OpenPr? && row.facts.isDraft && !allowDraft)
  }

  lemma TierBlockerMeans(tier: nat, row: Snapshot, allowDraft: bool)
    requires tier < 4
    ensures TierBlocker(tier, row, allowDraft).Some? <==> ReallyBlocked(tier, row, allowDraft)
    ensures TierBlocker(tier, row, allowDraft).Some? ==>
      Reports(TierBlocker(tier, row, allowDraft).value, tier, row, allowDraft)
  {
  }

  /** Some row is blocked. */
  ghost predicate SomeBlocked(rows: seq<Snapshot>, allowDraft: bool) {
    exists tier: nat, i: nat :: i < |rows| && ReallyBlocked(tier, rows[i], allowDraft)
  }

  /** b reports the row that is blocked in the least tier and comes first in it. */
  ghost predicate LeastBlocker(b: Blocker, rows: seq<Snapshot>, allowDraft: bool) {
    exists tier: nat, i: nat :: i < |rows| && IsLeast(b, rows, allowDraft, tier, i)
  }

  ghost predicate IsLeast(b: Blocker, rows: seq<Snapshot>, allowDraft: bool, tier: nat, i: nat)
    requires i < |rows|
  {
    && ReallyBlocked(tier, rows[i], allowDraft) && Reports(b, tier, rows[i], allowDraft)
    && forall t: nat, j: nat :: j < |rows| && ReallyBlocked(t, rows[j], allowDraft) ==>
         tier < t || (tier == t && i <= j)
  }

  /** Main result: the chosen blocker is the least by tier, then by queue position. */
  lemma BlockerIsLeast(rows: seq<Snapshot>, allowDraft: bool)
    requires SelectDecision(rows, allowDraft).Blocked?
    ensures LeastBlocker(SelectDecision(rows, allowDraft).blocker, rows, allowDraft)
  {
    hide ReallyBlocked, Reports, ConflictBlocker, ThreadBlocker, CiBlocker, GateBlocker;
    var c, t, f, g := FirstBlocked(0, rows, allowDraft), FirstBlocked(1, rows, allowDraft),
                      FirstBlocked(2, rows, allowDraft), FirstBlocked(3, rows, allowDraft);
    var tier, i := if c < |rows| then 0 else if t < |rows| then 1 else if f < |rows| then 2 else 3,
                   if c < |rows| then c else if t < |rows| then t else if f < |rows| then f else g;
    forall u: nat, j: nat | j < |rows| && ReallyBlocked(u, rows[j], allowDraft)
      ensures tier < u || (tier == u && i <= j)
    {
      OnlyFourTiers(u, rows[j], allowDraft);
      TierBlockerMeans(u, rows[j], allowDraft);
      assert u == 0 || u == 1 || u == 2 || u == 3;
      assert FirstBlocked(u, rows, allowDraft) <= j;
    }
    TierBlockerMeans(tier, rows[i], allowDraft);
    assert IsLeast(SelectDecision(rows, allowDraft).blocker, rows, allowDraft, tier, i);
  }

  lemma OnlyFourTiers(tier: nat, row: Snapshot, allowDraft: bool)
    ensures ReallyBlocked(tier, row, allowDraft) ==> tier < 4
  {
  }

  /** Every blocked row makes the stack blocked. */
  lemma BlockedIffSomeBlocker(rows: seq<Snapshot>, allowDraft: bool)
    ensures SelectDecision(rows, allowDraft).Blocked? <==> SomeBlocked(rows, allowDraft)
  {
    hide ReallyBlocked, Reports, ConflictBlocker, ThreadBlocker, CiBlocker, GateBlocker;
    if SelectDecision(rows, allowDraft).Blocked? {
      BlockerIsLeast(rows, allowDraft);
      var blocker := SelectDecision(rows, allowDraft).blocker;
      var tier: nat, i: nat :| i < |rows| && IsLeast(blocker, rows, allowDraft, tier, i);
      assert ReallyBlocked(tier, rows[i], allowDraft);
    } else {
      forall t: nat, j: nat | j < |rows| ensures !ReallyBlocked(t, rows[j], allowDraft) {
        if t < 4 {
          TierBlockerMeans(t, rows[j], allowDraft);
          assert t == 0 || t == 1 || t == 2 || t == 3;
          assert FirstBlocked(t, rows, allowDraft) == |rows|;
        } else {
          OnlyFourTiers(t, rows[j], allowDraft);
        }
      }
    }
  }

  /** The stack waits exactly when nothing is blocked and some checks are pending, and
      names the first PR with pending checks. */
  lemma WaitingIsFirst(rows: seq<Snapshot>, allowDraft: bool)
    ensures SelectDecision(rows, allowDraft).Waiting? <==>
      !SomeBlocked(rows, allowDraft) && exists i :: 0 <= i < |rows| && IsPendingRow(rows[i])
    ensures SelectDecision(rows, allowDraft).Waiting? ==>
      exists i :: 0 <= i < |rows| && IsPendingRow(rows[i]) && (forall j :: 0 <= j < i ==> !IsPendingRow(rows[j]))
                  && SelectDecision(rows, allowDraft) == Waiting(rows[i].number, rows[i].ci.pending)
  {
    hide SomeBlocked, Contributions, TierBlocker;
    BlockedIffSomeBlocker(rows, allowDraft);
    var p := FirstPending(rows);
    assert p < |rows| <==> exists i :: 0 <= i < |rows| && IsPendingRow(rows[i]);
  }

  /** What GitHub said about a PR that is not merged but may be. */
  ghost predicate ReallyReady(a: Answers, allowDraft: bool) {
    && a.facts.state.OPEN? && a.facts.mergedAt.None?
    && !a.facts.mergeable.CONFLICTING_MERGE? && !a.facts.mergeState.DIRTY? && !a.facts.mergeState.CONFLICTING?
    && a.threads == []
    && (forall c :: c in a.checks ==> !c.kind.Failed? && !c.kind.Pending?)
    && !(a.facts.mergeState.BLOCKED?
         && (HeadRollup(a.facts.headOid, a.commits) == Some(ERROR)
           || HeadRollup(a.facts.headOid, a.commits) == Some(FAILURE)))
    && (a.facts.isDraft ==> allowDraft)
    && !a.facts.review.CHANGES_REQUESTED?
  }

  ghost predicate ReallyMerged(a: Answers) {
    a.facts.state.MERGED? || a.facts.mergedAt.Some?
  }

  /** Main result: READY for one read is exact: the PR is merged, or open with no
      conflict, thread, failed or pending check, refused merge or blocking gate. */
  lemma ReadyMeansReady(number: PrNumber, a: Answers, omit: bool, allowDraft: bool)
    ensures ReadyContribution(ReadSnapshot(number, a, omit), allowDraft).Some? <==>
      ReallyMerged(a) || ReallyReady(a, allowDraft)
  {
    var failed, pending := OfKind(a.checks, Failed), OfKind(a.checks, Pending);
    assert failed == [] || failed[0] in failed;
    assert pending == [] || pending[0] in pending;
    if ReallyReady(a, allowDraft) {
      assert forall c :: c in a.checks ==> c !in failed && c !in pending;
    }
  }

  function ReadAll(numbers: seq<PrNumber>, answers: seq<Answers>, omit: bool): seq<Snapshot>
    requires |numbers| == |answers|
  {
    seq(|numbers|, i requires 0 <= i < |numbers| => ReadSnapshot(numbers[i], answers[i], omit))
  }

  /** The stack is READY exactly when every PR of it is merged or ready. */
  lemma ClearMeansAllReady(numbers: seq<PrNumber>, answers: seq<Answers>, omit: bool, allowDraft: bool)
    requires |numbers| == |answers| > 0
    ensures SelectDecision(ReadAll(numbers, answers, omit), allowDraft).Clear? <==>
      forall i :: 0 <= i < |answers| ==> ReallyMerged(answers[i]) || ReallyReady(answers[i], allowDraft)
    ensures SelectDecision(ReadAll(numbers, answers, omit), allowDraft).Clear? ==>
      |SelectDecision(ReadAll(numbers, answers, omit), allowDraft).prs| == |numbers|
  {
    hide ReadCi, ReallyMerged, ReallyReady;
    var rows := ReadAll(numbers, answers, omit);
    forall i | 0 <= i < |rows|
      ensures ReadyContribution(rows[i], allowDraft).Some? <==>
        ReallyMerged(answers[i]) || ReallyReady(answers[i], allowDraft)
    {
      ReadyMeansReady(numbers[i], answers[i], omit, allowDraft);
    }
    ClearIffAllContribute(rows, allowDraft);
  }

  lemma ClearMeansContributions(rows: seq<Snapshot>, allowDraft: bool)
    requires SelectDecision(rows, allowDraft).Clear? && forall i :: 0 <= i < |rows| ==> Typed(rows[i])
    ensures forall i :: 0 <= i < |rows| ==> ReadyContribution(rows[i], allowDraft).Some?
    ensures |SelectDecision(rows, allowDraft).prs| == |rows|
  {
    hide ReadyContribution, TierBlocker;
    forall i | 0 <= i < |rows| ensures ReadyContribution(rows[i], allowDraft).Some? {
      RowIsClassified(rows[i], allowDraft);
    }
  }

  lemma ContributionMeansUnblocked(row: Snapshot, allowDraft: bool)
    requires ReadyContribution(row, allowDraft).Some?
    ensures forall tier: nat :: tier < 4 ==> TierBlocker(tier, row, allowDraft).None?
    ensures !IsPendingRow(row)
  {
  }

  lemma ClearIffAllContribute(rows: seq<Snapshot>, allowDraft: bool)
    requires rows != [] && forall i :: 0 <= i < |rows| ==> Typed(rows[i])
    ensures SelectDecision(rows, allowDraft).Clear? <==>
      forall i :: 0 <= i < |rows| ==> ReadyContribution(rows[i], allowDraft).Some?
    ensures SelectDecision(rows, allowDraft).Clear? ==> |SelectDecision(rows, allowDraft).prs| == |rows|
  {
    hide ReadyContribution, ConflictBlocker, ThreadBlocker, CiBlocker, GateBlocker, IsPendingRow;
    if SelectDecision(rows, allowDraft).Clear? {
      ClearMeansContributions(rows, allowDraft);
    } else if forall i :: 0 <= i < |rows| ==> ReadyContribution(rows[i], allowDraft).Some? {
      AllContribute(rows, allowDraft);
      forall i | 0 <= i < |rows|
        ensures forall tier: nat :: tier < 4 ==> TierBlocker(tier, rows[i], allowDraft).None?
        ensures !IsPendingRow(rows[i])
      {
        ContributionMeansUnblocked(rows[i], allowDraft);
      }
    }
  }
}
