/** Certification receipts and the pure judgements on them: accepted outcomes, token
    accounting, admission and recovery (scripts/certification_tasks.py). */
module CertRecords {
  import opened Common

  type TaskId = string

  datatype Task = Task(id: TaskId, lane: nat)

  /** The reviewed manifest, as far as admission depends on it. */
  datatype Plan = Plan(
    tasks: seq<Task>, lanes: nat, maxAttempts: nat, inputLimit: nat, outputLimit: nat,
    synthetic: bool, diagnostic: bool)

  datatype Usage = Usage(input: nat, output: nat, cached: nat)

  datatype ResultState = Graded | TaskFailed | InfraFailed

  datatype Key = Key(task: TaskId, attempt: int)

  datatype Record =
    | Admission(key: Key)
    | Outcome(key: Key, state: ResultState, usage: Option<Usage>, evidence: string)

  datatype TaskError =
    | UnknownTask | InvalidRecord | RecoveryExhausted | AlreadyAdmitted | DiagnosticSpent
    | AccountingBlocked | BudgetBlocked | ResultWithoutAdmission | MultipleOutcomes
    | InvalidRound | StalePlanner | InvalidCheckpoint

  /** What validate_manifest guarantees. */
  ghost predicate PlanOk(plan: Plan) {
    && (forall i, j :: 0 <= i < j < |plan.tasks| ==> plan.tasks[i].id != plan.tasks[j].id)
    && plan.lanes >= 1 && (forall t :: t in plan.tasks ==> t.lane < plan.lanes)
    && (plan.diagnostic ==> |plan.tasks| == 1)
  }

  // ---------------------------------------------------------------- tasks

  function TaskIds(plan: Plan): set<TaskId> {
    set t | t in plan.tasks :: t.id
  }

  function Matches(tasks: seq<Task>, id: TaskId): seq<Task> {
    if tasks == [] then []
    else Matches(tasks[..|tasks| - 1], id) + (if tasks[|tasks| - 1].id == id then [tasks[|tasks| - 1]] else [])
  }

  /** task_for */
  function TaskFor(plan: Plan, id: TaskId): Result<Task, TaskError> {
    var matches := Matches(plan.tasks, id);
    if |matches| != 1 then Err(UnknownTask) else Ok(matches[0])
  }

  lemma {:induction false} MatchesUnique(tasks: seq<Task>, id: TaskId)
    requires forall i, j :: 0 <= i < j < |tasks| ==> tasks[i].id != tasks[j].id
    ensures forall t :: t in Matches(tasks, id) <==> t in tasks && t.id == id
    ensures |Matches(tasks, id)| <= 1
  {
    if tasks != [] {
      var front, last := tasks[..|tasks| - 1], tasks[|tasks| - 1];
      MatchesUnique(front, id);
      assert tasks == front + [last];
      var earlier := Matches(front, id);
      assert earlier == [] || earlier[0] in earlier;
    }
  }

  /** A known task is found, exactly once; an unknown one is an error. */
  lemma TaskForFinds(plan: Plan, id: TaskId)
    requires PlanOk(plan)
    ensures TaskFor(plan, id).Ok? <==> id in TaskIds(plan)
    ensures forall t :: t in plan.tasks && t.id == id ==> TaskFor(plan, id) == Ok(t)
  {
    MatchesUnique(plan.tasks, id);
    var matches := Matches(plan.tasks, id);
    if matches != [] {
      assert matches[0] in matches;
    }
  }

  function LaneOf(plan: Plan, id: TaskId): int {
    var t := TaskFor(plan, id);
    if t.Ok? then t.value.lane else -1
  }

  // -------------------------------------------------------------- records

  predicate ValidUsage(u: Usage) {
    u.input > 0 && u.cached <= u.input
  }

  /** validate_record, with the contents of evidence left opaque. */
  predicate ValidRecord(plan: Plan, r: Record) {
    && r.key.task in TaskIds(plan) && 0 <= r.key.attempt < plan.maxAttempts
    && (r.Outcome? ==>
          && (r.usage.Some? ==> ValidUsage(r.usage.value))
          && (r.state.Graded? ==> r.usage.Some?))
  }

  predicate Terminal(r: Record) {
    r.Outcome? && !r.state.InfraFailed?
  }

  /** accepted: the dictionary built from terminal outcomes, in record order. */
  function Accepted(records: seq<Record>): Result<map<TaskId, Record>, TaskError> {
    if records == [] then Ok(map[])
    else
      var before, item := Accepted(records[..|records| - 1]), records[|records| - 1];
      if before.Err? then before
      else if !Terminal(item) then before
      else if item.key.task in before.value && before.value[item.key.task] != item then Err(MultipleOutcomes)
      else Ok(before.value[item.key.task := item])
  }

  /** No task has two different terminal outcomes. */
  ghost predicate OneOutcomeEach(records: seq<Record>) {
    forall a, b :: a in records && b in records && Terminal(a) && Terminal(b) && a.key.task == b.key.task ==> a == b
  }

  ghost predicate HasOutcome(records: seq<Record>, id: TaskId) {
    exists r :: r in records && Terminal(r) && r.key.task == id
  }

  /** m maps exactly the finished tasks, each to its outcome. */
  ghost predicate MapsOutcomes(records: seq<Record>, m: map<TaskId, Record>) {
    && (forall id :: id in m <==> HasOutcome(records, id))
    && (forall r :: r in records && Terminal(r) ==> r.key.task in m && m[r.key.task] == r)
  }

  lemma HasOutcomeAppend(front: seq<Record>, item: Record, id: TaskId)
    ensures HasOutcome(front + [item], id) <==> HasOutcome(front, id) || (Terminal(item) && item.key.task == id)
  {
    assert forall r :: r in front + [item] <==> r in front || r == item;
    if HasOutcome(front + [item], id) {
      var r :| r in front + [item] && Terminal(r) && r.key.task == id;
    }
  }

  /** accepted succeeds exactly when no task has two terminal outcomes, and then maps
      each finished task to its outcome. */
  lemma {:induction false} AcceptedMeans(records: seq<Record>)
    ensures Accepted(records).Ok? <==> OneOutcomeEach(records)
    ensures Accepted(records).Ok? ==> MapsOutcomes(records, Accepted(records).value)
  {
    if records != [] {
      var front, item := records[..|records| - 1], records[|records| - 1];
      assert records == front + [item];
      AcceptedMeans(front);
      var before := Accepted(front);
      if before.Err? {
        assert forall r :: r in front ==> r in records;
      } else {
        hide Accepted, OneOutcomeEach, MapsOutcomes;
        OneOutcomeAppend(front, item, before.value);
        MapsOutcomesAppend(front, item, before.value);
      }
    }
  }

  /** Another record keeps outcomes unique unless it contradicts the dictionary. */
  lemma OneOutcomeAppend(front: seq<Record>, item: Record, m: map<TaskId, Record>)
    requires OneOutcomeEach(front) && MapsOutcomes(front, m)
    ensures OneOutcomeEach(front + [item]) <==> !(Terminal(item) && item.key.task in m && m[item.key.task] != item)
  {
    var records := front + [item];
    assert forall r :: r in records <==> r in front || r == item;
    if Terminal(item) && item.key.task in m {
      var r :| r in front && Terminal(r) && r.key.task == item.key.task;
      assert m[item.key.task] == r && r in records && item in records;
    }
  }

  lemma MapsOutcomesAppend(front: seq<Record>, item: Record, m: map<TaskId, Record>)
    requires MapsOutcomes(front, m)
    ensures !Terminal(item) ==> MapsOutcomes(front + [item], m)
    ensures Terminal(item) && (item.key.task in m ==> m[item.key.task] == item) ==>
      MapsOutcomes(front + [item], m[item.key.task := item])
  {
    hide HasOutcome;
    var records := front + [item];
    assert forall r :: r in records <==> r in front || r == item;
    forall id ensures HasOutcome(records, id) <==> HasOutcome(front, id) || (Terminal(item) && item.key.task == id) {
      HasOutcomeAppend(front, item, id);
    }
  }

  // ----------------------------------------------------------- accounting

  /** Records of one lane. */
  function Chosen(plan: Plan, records: seq<Record>, lane: nat): seq<Record> {
    if records == [] then []
    else
      var front, last := Chosen(plan, records[..|records| - 1], lane), records[|records| - 1];
      if LaneOf(plan, last.key.task) == lane then front + [last] else front
  }

  lemma {:induction false} ChosenMembers(plan: Plan, records: seq<Record>, lane: nat)
    ensures forall r :: r in Chosen(plan, records, lane) <==> r in records && LaneOf(plan, r.key.task) == lane
  {
    if records != [] {
      ChosenMembers(plan, records[..|records| - 1], lane);
      assert records == records[..|records| - 1] + [records[|records| - 1]];
    }
  }

  lemma {:induction false} ChosenAll(plan: Plan, records: seq<Record>, lane: nat)
    requires forall r :: r in records ==> LaneOf(plan, r.key.task) == lane
    ensures Chosen(plan, records, lane) == records
  {
    if records != [] {
      ChosenAll(plan, records[..|records| - 1], lane);
      assert records == records[..|records| - 1] + [records[|records| - 1]];
    }
  }

  function Admitted(records: seq<Record>): set<Key> {
    set r | r in records && r.Admission? :: r.key
  }

  function Finished(records: seq<Record>): set<Key> {
    set r | r in records && r.Outcome? :: r.key
  }

  /** outcomes[key]: the last outcome with that key. */
  function OutcomeFor(records: seq<Record>, key: Key): Option<Record> {
    if records == [] then None
    else
      var last := records[|records| - 1];
      if last.Outcome? && last.key == key then Some(last) else OutcomeFor(records[..|records| - 1], key)
  }

  lemma {:induction false} OutcomeForFinds(records: seq<Record>, key: Key)
    ensures OutcomeFor(records, key).Some? <==> key in Finished(records)
    ensures OutcomeFor(records, key).Some? ==>
      var r := OutcomeFor(records, key).value; r in records && r.Outcome? && r.key == key
  {
    if records != [] {
      OutcomeForFinds(records[..|records| - 1], key);
      assert records == records[..|records| - 1] + [records[|records| - 1]];
    }
  }

  datatype Totals = Totals(input: nat, output: nat, cached: nat)

  function Plus(t: Totals, u: Totals): Totals {
    Totals(t.input + u.input, t.output + u.output, t.cached + u.cached)
  }

  function UsageOf(r: Record): Totals {
    if r.Outcome? && r.usage.Some? then Totals(r.usage.value.input, r.usage.value.output, r.usage.value.cached)
    else Totals(0, 0, 0)
  }

  /** The sum over outcomes.values(): a later outcome of the same key replaces an
      earlier one. */
  function Sum(records: seq<Record>): Totals {
    if records == [] then Totals(0, 0, 0)
    else if records[0].Outcome? && records[0].key !in Finished(records[1..])
    then Plus(UsageOf(records[0]), Sum(records[1..]))
    else Sum(records[1..])
  }

  /** The result at position i reports usage and no later result replaces it. */
  predicate Counts(records: seq<Record>, i: nat)
    requires i < |records|
  {
    && records[i].Outcome? && records[i].usage.Some?
    && forall j :: i < j < |records| && records[j].Outcome? ==> records[j].key != records[i].key
  }

  /** One usage figure, summed over the counting results among the first n records. */
  ghost function Spent(records: seq<Record>, n: nat, figure: Usage -> nat): nat
    requires n <= |records|
  {
    if n == 0 then 0
    else Spent(records, n - 1, figure) + if Counts(records, n - 1) then figure(records[n - 1].usage.value) else 0
  }

  ghost function InputSpent(records: seq<Record>): nat {
    Spent(records, |records|, (u: Usage) => u.input)
  }

  ghost function OutputSpent(records: seq<Record>): nat {
    Spent(records, |records|, (u: Usage) => u.output)
  }

  ghost function CachedSpent(records: seq<Record>): nat {
    Spent(records, |records|, (u: Usage) => u.cached)
  }

  lemma {:induction false} SpentPrepend(r: Record, rest: seq<Record>, n: nat, figure: Usage -> nat)
    requires n <= |rest|
    ensures Spent([r] + rest, n + 1, figure) == Spent(rest, n, figure)
      + if r.Outcome? && r.usage.Some? && r.key !in Finished(rest) then figure(r.usage.value) else 0
  {
    var all := [r] + rest;
    assert forall i :: 0 <= i < |rest| ==> all[i + 1] == rest[i];
    if n == 0 {
      assert Spent(all, 0, figure) == 0;
      assert Counts(all, 0) <==> r.Outcome? && r.usage.Some? && r.key !in Finished(rest) by {
        if k :| k in Finished(rest) && k == r.key {
          var j :| 0 <= j < |rest| && rest[j].Outcome? && rest[j].key == k;
          assert all[j + 1].Outcome? && all[j + 1].key == r.key;
        }
      }
    } else {
      SpentPrepend(r, rest, n - 1, figure);
      assert Counts(all, n) <==> Counts(rest, n - 1) by {
        assert all[n] == rest[n - 1];
        assert forall j :: n - 1 < j < |rest| ==> all[j + 1] == rest[j];
        assert forall j :: n < j < |all| ==> all[j] == rest[j - 1];
      }
    }
  }

  /** The totals of accounting are the sums of the reported figures themselves, over the
      last result of each attempt. */
  lemma {:induction false} SumIsSpent(records: seq<Record>)
    ensures Sum(records).input == InputSpent(records)
    ensures Sum(records).output == OutputSpent(records)
    ensures Sum(records).cached == CachedSpent(records)
  {
    hide Counts;
    if records != [] {
      var r, rest := records[0], records[1..];
      assert records == [r] + rest;
      SumIsSpent(rest);
      SpentPrepend(r, rest, |rest|, (u: Usage) => u.input);
      SpentPrepend(r, rest, |rest|, (u: Usage) => u.output);
      SpentPrepend(r, rest, |rest|, (u: Usage) => u.cached);
    }
  }

  predicate LacksUsage(o: Option<Record>) {
    o.None? || o.value.Admission? || o.value.usage.None?
  }

  /** Admitted attempts whose usage was never reported. */
  function Unaccounted(records: seq<Record>): set<Key> {
    set k | k in Admitted(records) && LacksUsage(OutcomeFor(records, k))
  }

  datatype Accounting = Accounting(totals: Totals, unaccounted: nat)

  /** accounting of a list of records that all count. */
  function Account(records: seq<Record>): Result<Accounting, TaskError> {
    if !(Finished(records) <= Admitted(records)) then Err(ResultWithoutAdmission)
    else Ok(Accounting(Sum(records), |Unaccounted(records)|))
  }

  /** Every record names a task of the plan. */
  predicate TasksKnown(plan: Plan, records: seq<Record>) {
    forall r :: r in records ==> TaskFor(plan, r.key.task).Ok?
  }

  lemma LanesAreKnown(plan: Plan, records: seq<Record>)
    requires forall r :: r in records ==> LaneOf(plan, r.key.task) >= 0
    ensures TasksKnown(plan, records)
  {
  }

  /** accounting(plan, records, lane): a record of an unknown task, in whatever lane, is
      an error. */
  function LaneAccounting(plan: Plan, records: seq<Record>, lane: nat): Result<Accounting, TaskError> {
    if !TasksKnown(plan, records) then Err(UnknownTask) else Account(Chosen(plan, records, lane))
  }

  lemma AccountedIsKnown(plan: Plan, records: seq<Record>, lane: nat)
    ensures LaneAccounting(plan, records, lane).Ok? ==> TasksKnown(plan, records)
  {
  }

  // ------------------------------------------------------------ admission

  function InputShare(plan: Plan): nat
    requires plan.lanes >= 1
  {
    plan.inputLimit / plan.lanes
  }

  function OutputShare(plan: Plan): nat
    requires plan.lanes >= 1
  {
    plan.outputLimit / plan.lanes
  }

  /** The lane may spend: nothing paid is unaccounted and no share is used up. */
  predicate LaneOpen(plan: Plan, a: Accounting)
    requires plan.lanes >= 1
  {
    && (a.unaccounted == 0 || plan.synthetic)
    && a.totals.input < InputShare(plan) && a.totals.output < OutputShare(plan)
  }

  /** admit: an admission record, None for a finished task, or the refusal. */
  function Admit(plan: Plan, records: seq<Record>, id: TaskId, attempt: int): Result<Option<Record>, TaskError>
    requires plan.lanes >= 1
  {
    var task := TaskFor(plan, id);
    if task.Err? then Err(task.error)
    else
      var done := Accepted(records);
      if done.Err? then Err(done.error)
      else if id in done.value then Ok(None)
      else if !(0 <= attempt < plan.maxAttempts) then Err(RecoveryExhausted)
      else if exists r :: r in records && r.key == Key(id, attempt) then Err(AlreadyAdmitted)
      else if plan.diagnostic && exists r :: r in records && r.Admission? then Err(DiagnosticSpent)
      else
        var usage := LaneAccounting(plan, records, task.value.lane);
        if usage.Err? then Err(usage.error)
        else if usage.value.unaccounted > 0 && !plan.synthetic then Err(AccountingBlocked)
        else if usage.value.totals.input >= InputShare(plan) then Err(BudgetBlocked)
        else if usage.value.totals.output >= OutputShare(plan) then Err(BudgetBlocked)
        else Ok(Some(Admission(Key(id, attempt))))
  }

  /** Some result of the attempt counts. */
  predicate Reported(records: seq<Record>, key: Key) {
    exists i :: 0 <= i < |records| && records[i].key == key && Counts(records, i)
  }

  /** Every result has its admission. */
  predicate ResultsAdmitted(records: seq<Record>) {
    forall r :: r in records && r.Outcome? ==> Admission(r.key) in records
  }

  /** Every paid attempt was paid for and no share is used up, stated on the figures
      that the lane's own results report. */
  ghost predicate BelowShares(plan: Plan, mine: seq<Record>)
    requires plan.lanes >= 1
  {
    InputSpent(mine) < InputShare(plan) && OutputSpent(mine) < OutputShare(plan)
  }

  ghost predicate AllReported(plan: Plan, mine: seq<Record>) {
    plan.synthetic || forall r :: r in mine && r.Admission? ==> Reported(mine, r.key)
  }

  lemma {:induction false} OutcomeReports(records: seq<Record>, key: Key)
    ensures !LacksUsage(OutcomeFor(records, key)) <==> Reported(records, key)
  {
    if records != [] {
      var front, last := records[..|records| - 1], records[|records| - 1];
      assert records == front + [last];
      OutcomeReports(front, key);
      if last.Outcome? && last.key == key {
        assert Counts(records, |front|) <==> last.usage.Some?;
      } else {
        forall i | 0 <= i < |front| && records[i].key == key ensures Counts(records, i) <==> Counts(front, i) {
          assert front[i] == records[i];
        }
      }
    }
  }

  lemma NoneUnaccounted(records: seq<Record>)
    ensures |Unaccounted(records)| == 0 <==> forall r :: r in records && r.Admission? ==> Reported(records, r.key)
  {
    hide OutcomeFor, LacksUsage, Reported;
    forall r | r in records && r.Admission? ensures Reported(records, r.key) <==> r.key !in Unaccounted(records) {
      assert r.key in Admitted(records);
      OutcomeReports(records, r.key);
    }
    if Unaccounted(records) != {} {
      var k :| k in Unaccounted(records);
      assert k in Admitted(records);
      var r :| r in records && r.Admission? && r.key == k;
    }
  }

  lemma AccountMeans(records: seq<Record>)
    ensures Account(records).Ok? <==> ResultsAdmitted(records)
    ensures !ResultsAdmitted(records) ==> Account(records) == Err(ResultWithoutAdmission)
  {
    if Finished(records) <= Admitted(records) {
      forall r | r in records && r.Outcome? ensures Admission(r.key) in records {
        assert r.key in Finished(records) && r.key in Admitted(records);
      }
    } else {
      var k :| k in Finished(records) && k !in Admitted(records);
      var r :| r in records && r.Outcome? && r.key == k;
      assert Admission(k) in records ==> k in Admitted(records);
    }
  }

  /** An open lane in terms of its own records. */
  lemma LaneOpenMeans(plan: Plan, records: seq<Record>, lane: nat)
    requires plan.lanes >= 1
    ensures LaneAccounting(plan, records, lane).Ok? <==>
      TasksKnown(plan, records) && ResultsAdmitted(Chosen(plan, records, lane))
    ensures LaneAccounting(plan, records, lane).Ok? ==>
      var a := LaneAccounting(plan, records, lane).value;
      && (a.unaccounted == 0 || plan.synthetic <==> AllReported(plan, Chosen(plan, records, lane)))
      && (a.totals.input < InputShare(plan) && a.totals.output < OutputShare(plan) <==>
          BelowShares(plan, Chosen(plan, records, lane)))
  {
    hide Chosen, Sum, Unaccounted, Reported, TasksKnown, ResultsAdmitted, InputShare, OutputShare;
    var mine := Chosen(plan, records, lane);
    AccountMeans(mine);
    NoneUnaccounted(mine);
    SumIsSpent(mine);
  }

  /** Whether admit issues an admission, in one formula. */
  ghost predicate Admits(plan: Plan, records: seq<Record>, id: TaskId, attempt: int)
    requires plan.lanes >= 1
  {
    && id in TaskIds(plan) && OneOutcomeEach(records) && !HasOutcome(records, id)
    && 0 <= attempt < plan.maxAttempts
    && (forall r :: r in records ==> r.key != Key(id, attempt))
    && (plan.diagnostic ==> forall r :: r in records ==> !r.Admission?)
    && TasksKnown(plan, records) && LaneOf(plan, id) >= 0
    && var mine := Chosen(plan, records, LaneOf(plan, id));
       ResultsAdmitted(mine) && AllReported(plan, mine) && BelowShares(plan, mine)
  }

  /** The whole answer of admit, stated on the records and the figures they report. */
  lemma AdmitAnswers(plan: Plan, records: seq<Record>, id: TaskId, attempt: int)
    requires PlanOk(plan)
    ensures id in TaskIds(plan) ==> LaneOf(plan, id) >= 0
    ensures Admit(plan, records, id, attempt) ==
      if id !in TaskIds(plan) then Err(UnknownTask)
      else if !OneOutcomeEach(records) then Err(MultipleOutcomes)
      else if HasOutcome(records, id) then Ok(None)
      else if !(0 <= attempt < plan.maxAttempts) then Err(RecoveryExhausted)
      else if exists r :: r in records && r.key == Key(id, attempt) then Err(AlreadyAdmitted)
      else if plan.diagnostic && exists r :: r in records && r.Admission? then Err(DiagnosticSpent)
      else if !TasksKnown(plan, records) then Err(UnknownTask)
      else
        var mine := Chosen(plan, records, LaneOf(plan, id));
        if !ResultsAdmitted(mine) then Err(ResultWithoutAdmission)
        else if !AllReported(plan, mine) then Err(AccountingBlocked)
        else if !BelowShares(plan, mine) then Err(BudgetBlocked)
        else Ok(Some(Admission(Key(id, attempt))))
  {
    hide OneOutcomeEach, HasOutcome, Chosen, ResultsAdmitted, AllReported, BelowShares, TasksKnown, TaskFor, Accepted;
    TaskForFinds(plan, id);
    TaskErrorIsUnknown(plan, id);
    AcceptedMeans(records);
    AcceptedError(records);
    if id in TaskIds(plan) {
      LaneOpenMeans(plan, records, LaneOf(plan, id));
      LaneError(plan, records, LaneOf(plan, id));
    }
  }

  lemma TaskErrorIsUnknown(plan: Plan, id: TaskId)
    ensures TaskFor(plan, id).Err? ==> TaskFor(plan, id) == Err(UnknownTask)
  {
  }

  lemma {:induction false} AcceptedError(records: seq<Record>)
    ensures Accepted(records).Err? ==> Accepted(records) == Err(MultipleOutcomes)
  {
    if records != [] {
      AcceptedError(records[..|records| - 1]);
    }
  }

  lemma LaneError(plan: Plan, records: seq<Record>, lane: nat)
    ensures LaneAccounting(plan, records, lane).Err? ==> (
      LaneAccounting(plan, records, lane) ==
      Err(if TasksKnown(plan, records) then ResultWithoutAdmission else UnknownTask))
  {
  }

  /** admit issues an admission exactly when Admits says so. */
  lemma AdmitMeans(plan: Plan, records: seq<Record>, id: TaskId, attempt: int)
    requires PlanOk(plan)
    ensures Admit(plan, records, id, attempt) == Ok(Some(Admission(Key(id, attempt)))) <==>
      Admits(plan, records, id, attempt)
    ensures var r := Admit(plan, records, id, attempt); r.Ok? && r.value.Some? ==> Admits(plan, records, id, attempt)
    ensures Admits(plan, records, id, attempt) ==> TasksKnown(plan, records)
  {
    hide Admit, OneOutcomeEach, HasOutcome, Chosen, ResultsAdmitted, AllReported, BelowShares, TasksKnown;
    AdmitAnswers(plan, records, id, attempt);
  }

  /** The only record that admit ever issues is the requested admission. */
  lemma AdmitIssues(plan: Plan, records: seq<Record>, id: TaskId, attempt: int)
    requires plan.lanes >= 1
    ensures var r := Admit(plan, records, id, attempt);
      r.Ok? && r.value.Some? ==> r == Ok(Some(Admission(Key(id, attempt))))
  {
  }

  // ------------------------------------------------------------- recovery

  /** Whether the paid-retry filter of recovery lets a task through: each of its
      admissions has a result that reports usage. */
  predicate RetryPaid(plan: Plan, records: seq<Record>, id: TaskId) {
    forall r :: r in records && r.Admission? && r.key.task == id ==>
      var o := OutcomeFor(records, r.key);
      o.Some? && o.value.Outcome? && o.value.usage.Some?
  }

  /** recovery: the tasks worth another attempt, in plan order. */
  method Recovery(plan: Plan, records: seq<Record>, attempt: int) returns (r: Result<seq<Task>, TaskError>)
    requires PlanOk(plan)
    ensures r.Ok? ==> 1 <= attempt < plan.maxAttempts && forall x :: x in records ==> x.key.attempt < attempt
    ensures r.Ok? <==>
      && 1 <= attempt < plan.maxAttempts && (forall x :: x in records ==> x.key.attempt < attempt)
      && OneOutcomeEach(records)
      && forall lane: nat :: lane < plan.lanes ==> LaneAccounting(plan, records, lane).Ok?
    ensures r.Err? ==>
      r.error == if !(1 <= attempt < plan.maxAttempts) then InvalidRound
                 else if exists x :: x in records && x.key.attempt >= attempt then StalePlanner
                 else if !OneOutcomeEach(records) then MultipleOutcomes
                 else if !TasksKnown(plan, records) then UnknownTask
                 else ResultWithoutAdmission
    ensures r.Ok? ==> TasksKnown(plan, records)
    ensures r.Ok? ==> r.value == Eligible(plan, records, plan.tasks)
    ensures r.Ok? ==> forall t :: t in r.value <==>
      && t in plan.tasks
      && Admit(plan, Chosen(plan, records, t.lane), t.id, attempt) == Ok(Some(Admission(Key(t.id, attempt))))
  {
    hide LaneAccounting, Admit, Accepted, RetryPaid, Chosen, OneOutcomeEach, HasOutcome;
    if !(1 <= attempt < plan.maxAttempts) {
      return Err(InvalidRound);
    }
    if exists x :: x in records && x.key.attempt >= attempt {
      return Err(StalePlanner);
    }
    AcceptedMeans(records);
    var completed := Accepted(records);
    if completed.Err? {
      AcceptedError(records);
      return Err(completed.error);
    }
    var blocked: set<nat> := {};
    for lane: nat := 0 to plan.lanes
      invariant forall l: nat :: l < lane ==> LaneAccounting(plan, records, l).Ok?
      invariant blocked == set l: nat | l < lane && !LaneOpen(plan, LaneAccounting(plan, records, l).value)
    {
      var usage := LaneAccounting(plan, records, lane);
      if usage.Err? {
        LaneError(plan, records, lane);
        return Err(usage.error);
      }
      if (usage.value.unaccounted > 0 && !plan.synthetic)
        || usage.value.totals.input >= InputShare(plan) || usage.value.totals.output >= OutputShare(plan)
      {
        blocked := blocked + {lane};
      }
    }
    var pending: seq<Task> := [];
    for i := 0 to |plan.tasks|
      invariant pending == Eligible(plan, records, plan.tasks[..i])
    {
      var task := plan.tasks[i];
      assert plan.tasks[..i + 1][..i] == plan.tasks[..i];
      assert task in plan.tasks;
      if task.id !in completed.value && task.lane !in blocked {
        var admitted := exists x :: x in records && x.key.task == task.id && x.Admission?;
        if !(plan.diagnostic && admitted) && (plan.synthetic || !admitted || RetryPaid(plan, records, task.id)) {
          pending := pending + [task];
        }
      }
    }
    assert plan.tasks[..|plan.tasks|] == plan.tasks;
    AccountedIsKnown(plan, records, 0);
    EligibleMembers(plan, records, plan.tasks);
    forall t | t in plan.tasks
      ensures IsEligible(plan, records, t) <==>
        Admit(plan, Chosen(plan, records, t.lane), t.id, attempt) == Ok(Some(Admission(Key(t.id, attempt))))
    {
      EligibleIsAdmissible(plan, records, attempt, t);
    }
    r := Ok(pending);
  }

  /** The guard recovery puts on one task. */
  ghost predicate IsEligible(plan: Plan, records: seq<Record>, task: Task)
    requires plan.lanes >= 1
  {
    var admitted := exists x :: x in records && x.key.task == task.id && x.Admission?;
    && !HasOutcome(records, task.id)
    && LaneAccounting(plan, records, task.lane).Ok? && LaneOpen(plan, LaneAccounting(plan, records, task.lane).value)
    && !(plan.diagnostic && admitted)
    && (plan.synthetic || !admitted || RetryPaid(plan, records, task.id))
  }

  ghost function Eligible(plan: Plan, records: seq<Record>, tasks: seq<Task>): seq<Task>
    requires plan.lanes >= 1
  {
    if tasks == [] then []
    else
      var front, last := Eligible(plan, records, tasks[..|tasks| - 1]), tasks[|tasks| - 1];
      if IsEligible(plan, records, last) then front + [last] else front
  }

  lemma {:induction false} EligibleMembers(plan: Plan, records: seq<Record>, tasks: seq<Task>)
    requires plan.lanes >= 1
    ensures forall t :: t in Eligible(plan, records, tasks) <==> t in tasks && IsEligible(plan, records, t)
  {
    if tasks != [] {
      EligibleMembers(plan, records, tasks[..|tasks| - 1]);
      assert tasks == tasks[..|tasks| - 1] + [tasks[|tasks| - 1]];
    }
  }

  // ------------------------------------- lanes see all that concerns them

  lemma {:induction false} OutcomeForInLane(plan: Plan, records: seq<Record>, lane: nat, key: Key)
    requires LaneOf(plan, key.task) == lane
    ensures OutcomeFor(Chosen(plan, records, lane), key) == OutcomeFor(records, key)
  {
    if records != [] {
      var front, last := records[..|records| - 1], records[|records| - 1];
      OutcomeForInLane(plan, front, lane, key);
      if LaneOf(plan, last.key.task) == lane {
        assert (Chosen(plan, front, lane) + [last])[..|Chosen(plan, front, lane)|] == Chosen(plan, front, lane);
      }
    }
  }

  lemma ChosenTwice(plan: Plan, records: seq<Record>, lane: nat)
    ensures Chosen(plan, Chosen(plan, records, lane), lane) == Chosen(plan, records, lane)
  {
    ChosenMembers(plan, records, lane);
    ChosenAll(plan, Chosen(plan, records, lane), lane);
  }

  lemma OutcomesInLane(plan: Plan, records: seq<Record>, lane: nat, id: TaskId)
    requires LaneOf(plan, id) == lane
    ensures HasOutcome(Chosen(plan, records, lane), id) <==> HasOutcome(records, id)
    ensures OneOutcomeEach(records) ==> OneOutcomeEach(Chosen(plan, records, lane))
  {
    ChosenMembers(plan, records, lane);
    if r :| r in records && Terminal(r) && r.key.task == id {
      assert r in Chosen(plan, records, lane);
    }
  }

  /** The paid-retry filter of recovery never removes a task of an open lane. */
  lemma RetryFilterIsIdle(plan: Plan, records: seq<Record>, task: Task)
    requires PlanOk(plan) && task in plan.tasks && !plan.synthetic
    requires LaneAccounting(plan, records, task.lane).Ok?
    requires LaneOpen(plan, LaneAccounting(plan, records, task.lane).value)
    ensures RetryPaid(plan, records, task.id)
  {
    TaskForFinds(plan, task.id);
    var mine := Chosen(plan, records, task.lane);
    assert |Unaccounted(mine)| == 0;
    ChosenMembers(plan, records, task.lane);
    forall r | r in records && r.Admission? && r.key.task == task.id
      ensures var o := OutcomeFor(records, r.key); o.Some? && o.value.Outcome? && o.value.usage.Some?
    {
      assert r in mine && r.key in Admitted(mine) && r.key !in Unaccounted(mine);
      OutcomeForInLane(plan, records, task.lane, r.key);
    }
  }

  /** In a diagnostic plan every record of the lane belongs to its one task. */
  lemma DiagnosticRecords(plan: Plan, records: seq<Record>, task: Task)
    requires PlanOk(plan) && task in plan.tasks && plan.diagnostic
    ensures (forall r :: r in Chosen(plan, records, task.lane) ==> !r.Admission?) <==>
      !exists x :: x in records && x.key.task == task.id && x.Admission?
  {
    TaskForFinds(plan, task.id);
    var mine := Chosen(plan, records, task.lane);
    ChosenMembers(plan, records, task.lane);
    if x :| x in records && x.key.task == task.id && x.Admission? {
      assert x in mine;
    }
    forall r | r in mine ensures r in records && r.key.task == task.id {
      TaskForFinds(plan, r.key.task);
      assert plan.tasks == [task];
    }
  }

  /** Recovery selects a task exactly when admit, on the task's own lane records, would
      issue an admission for that attempt. */
  lemma EligibleIsAdmissible(plan: Plan, records: seq<Record>, attempt: int, task: Task)
    requires PlanOk(plan) && task in plan.tasks && 1 <= attempt < plan.maxAttempts
    requires OneOutcomeEach(records) && forall x :: x in records ==> x.key.attempt < attempt
    requires LaneAccounting(plan, records, task.lane).Ok?
    ensures IsEligible(plan, records, task) <==>
      Admit(plan, Chosen(plan, records, task.lane), task.id, attempt) == Ok(Some(Admission(Key(task.id, attempt))))
  {
    hide OneOutcomeEach, HasOutcome, LaneAccounting, ResultsAdmitted, AllReported, BelowShares, InputShare, OutputShare;
    var mine := Chosen(plan, records, task.lane);
    TaskForFinds(plan, task.id);
    AdmitMeans(plan, mine, task.id, attempt);
    ChosenTwice(plan, records, task.lane);
    LaneOpenMeans(plan, mine, task.lane);
    OutcomesInLane(plan, records, task.lane, task.id);
    LaneAccountingTwice(plan, records, task.lane);
    ChosenMembers(plan, records, task.lane);
    assert task.id in TaskIds(plan);
    if plan.diagnostic {
      DiagnosticRecords(plan, records, task);
    }
    if !plan.synthetic && LaneOpen(plan, LaneAccounting(plan, records, task.lane).value) {
      RetryFilterIsIdle(plan, records, task);
    }
  }

  lemma LaneAccountingTwice(plan: Plan, records: seq<Record>, lane: nat)
    requires LaneAccounting(plan, records, lane).Ok?
    ensures LaneAccounting(plan, Chosen(plan, records, lane), lane) == LaneAccounting(plan, records, lane)
  {
    ChosenTwice(plan, records, lane);
    ChosenMembers(plan, records, lane);
  }

  // ------------------------------------------------- whole-plan accounting

  function SumLanes(plan: Plan, records: seq<Record>, n: nat): Totals {
    if n == 0 then Totals(0, 0, 0) else Plus(SumLanes(plan, records, n - 1), Sum(Chosen(plan, records, n - 1)))
  }

  function UnaccountedLanes(plan: Plan, records: seq<Record>, n: nat): nat {
    if n == 0 then 0 else UnaccountedLanes(plan, records, n - 1) + |Unaccounted(Chosen(plan, records, n - 1))|
  }

  lemma {:induction false} ChosenPrepend(plan: Plan, r: Record, rest: seq<Record>, lane: nat)
    ensures Chosen(plan, [r] + rest, lane) ==
      if LaneOf(plan, r.key.task) == lane then [r] + Chosen(plan, rest, lane) else Chosen(plan, rest, lane)
  {
    var all := [r] + rest;
    if rest == [] {
      assert all == [r] && all[..0] == [];
    } else {
      ChosenPrepend(plan, r, rest[..|rest| - 1], lane);
      assert all[..|all| - 1] == [r] + rest[..|rest| - 1];
    }
  }

  /** A record changes the sum of its own lane only, and by what it adds overall. */
  lemma SumPrepend(plan: Plan, r: Record, rest: seq<Record>, lane: nat)
    ensures Sum(Chosen(plan, [r] + rest, lane)) ==
      if LaneOf(plan, r.key.task) == lane && r.Outcome? && r.key !in Finished(rest)
      then Plus(UsageOf(r), Sum(Chosen(plan, rest, lane))) else Sum(Chosen(plan, rest, lane))
  {
    ChosenPrepend(plan, r, rest, lane);
    ChosenMembers(plan, rest, lane);
    if LaneOf(plan, r.key.task) == lane {
      var mine := Chosen(plan, rest, lane);
      assert ([r] + mine)[1..] == mine;
      assert r.key in Finished(mine) <==> r.key in Finished(rest);
    }
  }

  lemma {:induction false} SumLanesPrepend(plan: Plan, r: Record, rest: seq<Record>, n: nat)
    ensures SumLanes(plan, [r] + rest, n) ==
      if 0 <= LaneOf(plan, r.key.task) < n && r.Outcome? && r.key !in Finished(rest)
      then Plus(UsageOf(r), SumLanes(plan, rest, n)) else SumLanes(plan, rest, n)
  {
    hide Sum, Chosen, LaneOf, Finished;
    if n > 0 {
      SumLanesPrepend(plan, r, rest, n - 1);
      SumPrepend(plan, r, rest, n - 1);
    }
  }

  /** Token totals of the whole plan are the sums of the per-lane totals. */
  lemma {:induction false} WholeSum(plan: Plan, records: seq<Record>)
    requires forall r :: r in records ==> 0 <= LaneOf(plan, r.key.task) < plan.lanes
    ensures Sum(records) == SumLanes(plan, records, plan.lanes)
  {
    if records == [] {
      EmptyLanes(plan, plan.lanes);
    } else {
      var r, rest := records[0], records[1..];
      assert records == [r] + rest;
      WholeSum(plan, rest);
      SumLanesPrepend(plan, r, rest, plan.lanes);
    }
  }

  lemma {:induction false} EmptyLanes(plan: Plan, n: nat)
    ensures SumLanes(plan, [], n) == Totals(0, 0, 0)
  {
    if n > 0 {
      EmptyLanes(plan, n - 1);
    }
  }

  lemma UnaccountedInLane(plan: Plan, records: seq<Record>, lane: nat)
    ensures Unaccounted(Chosen(plan, records, lane)) ==
      set k | k in Unaccounted(records) && LaneOf(plan, k.task) == lane
  {
    var mine := Chosen(plan, records, lane);
    ChosenMembers(plan, records, lane);
    forall k ensures k in Unaccounted(mine) <==> k in Unaccounted(records) && LaneOf(plan, k.task) == lane {
      if LaneOf(plan, k.task) == lane {
        OutcomeForInLane(plan, records, lane, k);
        assert k in Admitted(mine) <==> k in Admitted(records);
      }
    }
  }

  /** Unaccounted attempts of the first n lanes. */
  ghost function UnaccountedBelow(plan: Plan, records: seq<Record>, n: nat): set<Key> {
    set k | k in Unaccounted(records) && 0 <= LaneOf(plan, k.task) < n
  }

  lemma {:induction false} WholeUnaccounted(plan: Plan, records: seq<Record>, n: nat)
    ensures UnaccountedLanes(plan, records, n) == |UnaccountedBelow(plan, records, n)|
  {
    hide Unaccounted, LaneOf, Chosen;
    if n > 0 {
      WholeUnaccounted(plan, records, n - 1);
      UnaccountedInLane(plan, records, n - 1);
      var here := set k | k in Unaccounted(records) && LaneOf(plan, k.task) == n - 1;
      assert UnaccountedBelow(plan, records, n) == UnaccountedBelow(plan, records, n - 1) + here;
    }
  }

  /** Main result: accounting of the whole plan succeeds exactly when each lane's does,
      and its figures are the sums over the lanes. */
  lemma WholeIsSumOfLanes(plan: Plan, records: seq<Record>)
    requires forall r :: r in records ==> 0 <= LaneOf(plan, r.key.task) < plan.lanes
    ensures Account(records).Ok? <==> forall lane: nat :: lane < plan.lanes ==> LaneAccounting(plan, records, lane).Ok?
    ensures Account(records).Ok? ==> Account(records).value.totals == SumLanes(plan, records, plan.lanes)
    ensures Account(records).Ok? ==> Account(records).value.unaccounted == UnaccountedLanes(plan, records, plan.lanes)
  {
    WholeSum(plan, records);
    WholeUnaccounted(plan, records, plan.lanes);
    assert forall k :: k in Unaccounted(records) ==> exists r :: r in records && r.Admission? && r.key == k;
    assert Unaccounted(records) == UnaccountedBelow(plan, records, plan.lanes);
    forall lane: nat | lane < plan.lanes && Account(records).Ok? ensures LaneAccounting(plan, records, lane).Ok? {
      ChosenMembers(plan, records, lane);
      forall k | k in Finished(Chosen(plan, records, lane)) ensures k in Admitted(Chosen(plan, records, lane)) {
        assert k in Finished(records) && k in Admitted(records);
      }
    }
    if forall lane: nat :: lane < plan.lanes ==> LaneAccounting(plan, records, lane).Ok? {
      forall k | k in Finished(records) ensures k in Admitted(records) {
        var r :| r in records && r.Outcome? && r.key == k;
        var lane := LaneOf(plan, k.task);
        ChosenMembers(plan, records, lane);
        assert LaneAccounting(plan, records, lane).Ok? && r in Chosen(plan, records, lane);
        assert k in Finished(Chosen(plan, records, lane)) && k in Admitted(Chosen(plan, records, lane));
      }
    }
  }
}
