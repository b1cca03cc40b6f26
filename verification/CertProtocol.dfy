/** The checkpoint protocol of one certification lane (scripts/certification_jobs.py):
    a serial job admits a task, publishes the grown checkpoint, and later publishes it
    again with the result, or is lost in between. */
module CertProtocol {
  import opened Common
  import opened CertRecords

  const MAX_RECORDS: nat := 91 * 3 * 2

  /** The manifest as the coordinator publishes it: small enough for a checkpoint, and
      with a positive share of each limit for every lane. */
  ghost predicate ManifestOk(plan: Plan) {
    && PlanOk(plan)
    && 2 * (|plan.tasks| * plan.maxAttempts) <= MAX_RECORDS
    && InputShare(plan) > 0 && OutputShare(plan) > 0
  }

  // ---------------------------------------------------------- checkpoints

  /** Receipts are told apart by task, attempt and kind. */
  predicate SameIdentity(a: Record, b: Record) {
    a.key == b.key && a.Admission? == b.Admission?
  }

  ghost predicate UniqueIdentities(records: seq<Record>) {
    forall i, j :: 0 <= i < j < |records| ==> !SameIdentity(records[i], records[j])
  }

  ghost predicate InLane(plan: Plan, records: seq<Record>, lane: nat) {
    forall r :: r in records ==> ValidRecord(plan, r) && LaneOf(plan, r.key.task) == lane
  }

  /** What validate_checkpoint accepts. */
  ghost predicate CheckpointOk(plan: Plan, records: seq<Record>, lane: nat) {
    && lane < plan.lanes && |records| <= MAX_RECORDS
    && InLane(plan, records, lane) && UniqueIdentities(records)
    && LaneAccounting(plan, records, lane).Ok? && OneOutcomeEach(records)
  }

  datatype Identity = Identity(key: Key, admission: bool)

  method ValidateCheckpoint(plan: Plan, records: seq<Record>, lane: nat) returns (r: Outcome<TaskError>)
    requires PlanOk(plan)
    ensures r.Pass? <==> CheckpointOk(plan, records, lane)
  {
    hide LaneAccounting, OneOutcomeEach, ValidRecord, LaneOf;
    if lane >= plan.lanes || |records| > MAX_RECORDS {
      return Fail(InvalidCheckpoint);
    }
    var seen: set<Identity> := {};
    for i := 0 to |records|
      invariant seen == set k | 0 <= k < i :: Identity(records[k].key, records[k].Admission?)
      invariant forall k :: 0 <= k < i ==> ValidRecord(plan, records[k]) && LaneOf(plan, records[k].key.task) == lane
      invariant forall a, b :: 0 <= a < b < i ==> !SameIdentity(records[a], records[b])
    {
      var item := records[i];
      if !ValidRecord(plan, item) || LaneOf(plan, item.key.task) != lane {
        assert item in records;
        return Fail(InvalidRecord);
      }
      var identity := Identity(item.key, item.Admission?);
      if identity in seen {
        return Fail(InvalidCheckpoint);
      }
      seen := seen + {identity};
    }
    AcceptedMeans(records);
    var usage := LaneAccounting(plan, records, lane);
    if usage.Err? {
      return Fail(usage.error);
    }
    var done := Accepted(records);
    if done.Err? {
      return Fail(done.error);
    }
    r := Pass;
  }

  // -------------------------------------------------------------- the lane

  /** The newest published checkpoint of a lane, and the attempt a live job works on. */
  datatype LaneState = LaneState(records: seq<Record>, worker: Option<Key>)

  datatype LaneAction =
    | AdmitTask(task: TaskId, attempt: int)
    | FinishTask(result: Record)
    | LoseWorker

  const IDLE: LaneState := LaneState([], None)

  /** One step of a lane. A refused admission changes nothing; a result that is not the
      worker's own valid one, or does not fit the checkpoint, is dropped with its job. */
  ghost function LaneStep(plan: Plan, lane: nat, s: LaneState, a: LaneAction): LaneState
    requires plan.lanes >= 1
  {
    match a
    case AdmitTask(task, attempt) =>
      if s.worker.Some? || LaneOf(plan, task) != lane then s
      else
        var admission := Admit(plan, s.records, task, attempt);
        if admission.Err? || admission.value.None? then s
        else if !CheckpointOk(plan, s.records + [admission.value.value], lane) then s
        else LaneState(s.records + [admission.value.value], Some(Key(task, attempt)))
    case FinishTask(result) =>
      if s.worker.None? then s
      else if ValidRecord(plan, result) && result.key == s.worker.value
        && CheckpointOk(plan, s.records + [result], lane)
      then LaneState(s.records + [result], None)
      else s.(worker := None)
    case LoseWorker => s.(worker := None)
  }

  ghost function LaneRun(plan: Plan, lane: nat, actions: seq<LaneAction>): LaneState
    requires plan.lanes >= 1
  {
    if actions == [] then IDLE
    else LaneStep(plan, lane, LaneRun(plan, lane, actions[..|actions| - 1]), actions[|actions| - 1])
  }

  /** How a lane's checkpoint came about: each admission was one that admit issues on
      the records before it, each result follows its own admission directly. */
  ghost predicate LaneHistory(plan: Plan, lane: nat, records: seq<Record>)
    requires plan.lanes >= 1
  {
    records == [] ||
    var front, last := records[..|records| - 1], records[|records| - 1];
    && LaneHistory(plan, lane, front)
    && ValidRecord(plan, last) && LaneOf(plan, last.key.task) == lane
    && (if last.Admission? then Admits(plan, front, last.key.task, last.key.attempt)
        else front != [] && front[|front| - 1] == Admission(last.key))
  }

  ghost predicate LaneOk(plan: Plan, lane: nat, s: LaneState)
    requires plan.lanes >= 1
  {
    && LaneHistory(plan, lane, s.records)
    && (s.worker.Some? ==> s.records != [] && s.records[|s.records| - 1] == Admission(s.worker.value))
  }

  lemma {:induction false} HistoryInLane(plan: Plan, lane: nat, records: seq<Record>)
    requires plan.lanes >= 1 && LaneHistory(plan, lane, records)
    ensures InLane(plan, records, lane)
  {
    if records != [] {
      HistoryInLane(plan, lane, records[..|records| - 1]);
      assert records == records[..|records| - 1] + [records[|records| - 1]];
    }
  }

  lemma {:induction false} HistoryPrefix(plan: Plan, lane: nat, records: seq<Record>, i: nat)
    requires plan.lanes >= 1 && LaneHistory(plan, lane, records) && i <= |records|
    ensures LaneHistory(plan, lane, records[..i])
  {
    if i < |records| {
      HistoryPrefix(plan, lane, records[..|records| - 1], i);
      assert records[..|records| - 1][..i] == records[..i];
    } else {
      assert records[..i] == records;
    }
  }

  /** What held when the record at position i was appended. */
  lemma HistoryAt(plan: Plan, lane: nat, records: seq<Record>, i: nat)
    requires plan.lanes >= 1 && LaneHistory(plan, lane, records) && i < |records|
    ensures records[i].Admission? ==> Admits(plan, records[..i], records[i].key.task, records[i].key.attempt)
    ensures records[i].Outcome? ==> i > 0 && records[i - 1] == Admission(records[i].key)
  {
    HistoryPrefix(plan, lane, records, i + 1);
    assert records[..i + 1][..i] == records[..i];
  }

  /** At most one admission and one result per attempt, over the whole history. */
  lemma {:induction false} HistoryUnique(plan: Plan, lane: nat, records: seq<Record>, i: nat, j: nat)
    requires plan.lanes >= 1 && LaneHistory(plan, lane, records)
    requires i < j < |records|
    ensures !SameIdentity(records[i], records[j])
    ensures records[i].key == records[j].key ==> j == i + 1 && records[j].Outcome?
  {
    HistoryAt(plan, lane, records, j);
    if records[j].Admission? {
      assert records[..j][i] in records[..j];
    } else if i < j - 1 {
      HistoryAt(plan, lane, records, j - 1);
      assert records[..j - 1][i] in records[..j - 1];
    }
  }

  /** Every result has an earlier admission. */
  lemma {:induction false} HistoryAdmitsResults(plan: Plan, lane: nat, records: seq<Record>)
    requires plan.lanes >= 1 && LaneHistory(plan, lane, records)
    ensures Finished(records) <= Admitted(records)
  {
    forall k | k in Finished(records) ensures k in Admitted(records) {
      var i :| 0 <= i < |records| && records[i].Outcome? && records[i].key == k;
      HistoryAt(plan, lane, records, i);
      assert records[i - 1] in records;
    }
  }

  /** At most one terminal outcome per task. */
  lemma HistoryOneOutcome(plan: Plan, lane: nat, records: seq<Record>)
    requires plan.lanes >= 1 && LaneHistory(plan, lane, records)
    ensures OneOutcomeEach(records)
  {
    forall a, b | a in records && b in records && Terminal(a) && Terminal(b) && a.key.task == b.key.task
      ensures a == b
    {
      var i :| 0 <= i < |records| && records[i] == a;
      var j :| 0 <= j < |records| && records[j] == b;
      if i < j {
        LaterOutcomeIsFirst(plan, lane, records, i, j);
      } else if j < i {
        LaterOutcomeIsFirst(plan, lane, records, j, i);
      }
    }
  }

  lemma LaterOutcomeIsFirst(plan: Plan, lane: nat, records: seq<Record>, i: nat, j: nat)
    requires plan.lanes >= 1 && LaneHistory(plan, lane, records) && i < j < |records|
    requires Terminal(records[j]) && records[i].key.task == records[j].key.task
    ensures !Terminal(records[i])
  {
    HistoryAt(plan, lane, records, j);
    HistoryAt(plan, lane, records, j - 1);
    if i < j - 1 {
      assert records[..j - 1][i] in records[..j - 1];
    }
  }

  // ------------------------------------------------------- size of a checkpoint

  function KeysOf(id: TaskId, n: nat): set<Key> {
    if n == 0 then {} else KeysOf(id, n - 1) + {Key(id, n - 1)}
  }

  function AllKeys(tasks: seq<Task>, n: nat): set<Key> {
    if tasks == [] then {} else AllKeys(tasks[..|tasks| - 1], n) + KeysOf(tasks[|tasks| - 1].id, n)
  }

  lemma {:induction false} KeysOfBound(id: TaskId, n: nat)
    ensures |KeysOf(id, n)| <= n
    ensures forall a :: 0 <= a < n ==> Key(id, a) in KeysOf(id, n)
  {
    if n > 0 {
      KeysOfBound(id, n - 1);
      UnionSize(KeysOf(id, n - 1), {Key(id, n - 1)});
    }
  }

  lemma UnionSize<T>(a: set<T>, b: set<T>)
    ensures |a + b| <= |a| + |b|
  {
    assert a + b == a + (b - a);
    SubsetSize(b - a, b);
  }

  lemma {:induction false} AllKeysBound(tasks: seq<Task>, n: nat)
    ensures |AllKeys(tasks, n)| <= |tasks| * n
  {
    if tasks != [] {
      var front, last := tasks[..|tasks| - 1], tasks[|tasks| - 1];
      AllKeysBound(front, n);
      KeysOfBound(last.id, n);
      UnionSize(AllKeys(front, n), KeysOf(last.id, n));
      assert |tasks| * n == |front| * n + n;
    }
  }

  lemma {:induction false} AllKeysHold(tasks: seq<Task>, n: nat, t: Task, attempt: int)
    requires t in tasks && 0 <= attempt < n
    ensures Key(t.id, attempt) in AllKeys(tasks, n)
  {
    var last := tasks[|tasks| - 1];
    if t == last {
      KeysOfBound(t.id, n);
    } else {
      AllKeysHold(tasks[..|tasks| - 1], n, t, attempt);
    }
  }

  lemma {:induction false} TwoPerAdmission(plan: Plan, lane: nat, records: seq<Record>)
    requires plan.lanes >= 1 && LaneHistory(plan, lane, records)
    ensures |records| <= 2 * |Admitted(records)|
    ensures records != [] && records[|records| - 1].Admission? ==> |records| < 2 * |Admitted(records)|
  {
    if records != [] {
      var front, last := records[..|records| - 1], records[|records| - 1];
      assert records == front + [last];
      TwoPerAdmission(plan, lane, front);
      if last.Admission? {
        AdmittedGrows(front, last);
        assert last.key !in Admitted(front);
      } else {
        assert Admitted(records) == Admitted(front);
      }
    }
  }

  lemma AdmittedGrows(records: seq<Record>, r: Record)
    ensures Admitted(records + [r]) == if r.Admission? then Admitted(records) + {r.key} else Admitted(records)
    ensures Finished(records + [r]) == if r.Outcome? then Finished(records) + {r.key} else Finished(records)
  {
    assert forall x :: x in records + [r] <==> x in records || x == r;
  }

  /** A lane's checkpoint holds at most two records per task and attempt. */
  lemma HistorySize(plan: Plan, lane: nat, records: seq<Record>)
    requires PlanOk(plan) && LaneHistory(plan, lane, records)
    ensures |records| <= 2 * (|plan.tasks| * plan.maxAttempts)
  {
    TwoPerAdmission(plan, lane, records);
    HistoryInLane(plan, lane, records);
    AllKeysBound(plan.tasks, plan.maxAttempts);
    forall k | k in Admitted(records) ensures k in AllKeys(plan.tasks, plan.maxAttempts) {
      var r :| r in records && r.Admission? && r.key == k;
      assert ValidRecord(plan, r);
      var t :| t in plan.tasks && t.id == k.task;
      AllKeysHold(plan.tasks, plan.maxAttempts, t, k.attempt);
    }
    SubsetSize(Admitted(records), AllKeys(plan.tasks, plan.maxAttempts));
  }

  // ----------------------------------------------- every published checkpoint

  /** A lane's own history always passes validate_checkpoint. */
  lemma HistoryIsCheckpoint(plan: Plan, lane: nat, records: seq<Record>)
    requires ManifestOk(plan) && lane < plan.lanes && LaneHistory(plan, lane, records)
    ensures CheckpointOk(plan, records, lane)
  {
    HistorySize(plan, lane, records);
    HistoryInLane(plan, lane, records);
    HistoryAdmitsResults(plan, lane, records);
    HistoryOneOutcome(plan, lane, records);
    ChosenAll(plan, records, lane);
    forall i, j | 0 <= i < j < |records| ensures !SameIdentity(records[i], records[j]) {
      HistoryUnique(plan, lane, records, i, j);
    }
  }

  lemma HistoryGrows(plan: Plan, lane: nat, records: seq<Record>, r: Record)
    requires plan.lanes >= 1 && LaneHistory(plan, lane, records)
    requires ValidRecord(plan, r) && LaneOf(plan, r.key.task) == lane
    requires if r.Admission? then Admits(plan, records, r.key.task, r.key.attempt)
             else records != [] && records[|records| - 1] == Admission(r.key)
    ensures LaneHistory(plan, lane, records + [r])
  {
    assert (records + [r])[..|records|] == records;
  }

  /** Publishing never fails: an issued admission, and the worker's own valid result,
      always extend the checkpoint to one that validates. */
  lemma EmitNeverFails(plan: Plan, lane: nat, s: LaneState, r: Record)
    requires ManifestOk(plan) && lane < plan.lanes && LaneOk(plan, lane, s)
    requires if r.Admission?
             then s.worker.None? && LaneOf(plan, r.key.task) == lane
                  && Admit(plan, s.records, r.key.task, r.key.attempt) == Ok(Some(r))
             else s.worker == Some(r.key) && ValidRecord(plan, r)
    ensures LaneHistory(plan, lane, s.records + [r]) && CheckpointOk(plan, s.records + [r], lane)
  {
    if r.Admission? {
      AdmitMeans(plan, s.records, r.key.task, r.key.attempt);
    } else {
      HistoryInLane(plan, lane, s.records);
      assert s.records[|s.records| - 1] in s.records;
    }
    HistoryGrows(plan, lane, s.records, r);
    HistoryIsCheckpoint(plan, lane, s.records + [r]);
  }

  /** A "result" that repeats the worker's admission does not validate. */
  lemma RepeatedAdmission(plan: Plan, lane: nat, records: seq<Record>, r: Record)
    requires records != [] && records[|records| - 1] == r
    ensures !CheckpointOk(plan, records + [r], lane)
  {
    var longer := records + [r];
    assert SameIdentity(longer[|records| - 1], longer[|records|]);
  }

  /** Each step keeps the history and only appends to the checkpoint. */
  lemma StepKeepsHistory(plan: Plan, lane: nat, s: LaneState, a: LaneAction)
    requires ManifestOk(plan) && lane < plan.lanes && LaneOk(plan, lane, s)
    ensures LaneOk(plan, lane, LaneStep(plan, lane, s, a))
    ensures s.records <= LaneStep(plan, lane, s, a).records
    ensures |LaneStep(plan, lane, s, a).records| <= |s.records| + 1
  {
    hide LaneHistory, CheckpointOk, Admit, ValidRecord, LaneOf, Admits;
    match a
    case AdmitTask(task, attempt) =>
      if s.worker.None? && LaneOf(plan, task) == lane {
        AdmitMeans(plan, s.records, task, attempt);
        AdmitIssues(plan, s.records, task, attempt);
        if Admit(plan, s.records, task, attempt) == Ok(Some(Admission(Key(task, attempt)))) {
          EmitNeverFails(plan, lane, s, Admission(Key(task, attempt)));
        }
      }
    case FinishTask(result) =>
      if s.worker.Some? && ValidRecord(plan, result) && result.key == s.worker.value {
        if result.Admission? {
          RepeatedAdmission(plan, lane, s.records, result);
        } else {
          EmitNeverFails(plan, lane, s, result);
        }
      }
    case LoseWorker =>
  }

  /** Main result: in every run of a lane the checkpoint is a history, and validates. */
  lemma {:induction false} RunKeepsHistory(plan: Plan, lane: nat, actions: seq<LaneAction>)
    requires ManifestOk(plan) && lane < plan.lanes
    ensures LaneOk(plan, lane, LaneRun(plan, lane, actions))
    ensures CheckpointOk(plan, LaneRun(plan, lane, actions).records, lane)
  {
    if actions != [] {
      var before := actions[..|actions| - 1];
      RunKeepsHistory(plan, lane, before);
      StepKeepsHistory(plan, lane, LaneRun(plan, lane, before), actions[|actions| - 1]);
    }
    HistoryIsCheckpoint(plan, lane, LaneRun(plan, lane, actions).records);
  }

  /** Along a run the checkpoint only grows. */
  lemma {:induction false} RunOnlyAppends(plan: Plan, lane: nat, actions: seq<LaneAction>, k: nat)
    requires ManifestOk(plan) && lane < plan.lanes && k <= |actions|
    ensures LaneRun(plan, lane, actions[..k]).records <= LaneRun(plan, lane, actions).records
    decreases |actions|
  {
    if k == |actions| {
      assert actions[..k] == actions;
    } else {
      var before := actions[..|actions| - 1];
      RunOnlyAppends(plan, lane, before, k);
      assert before[..k] == actions[..k];
      RunKeepsHistory(plan, lane, before);
      StepKeepsHistory(plan, lane, LaneRun(plan, lane, before), actions[|actions| - 1]);
    }
  }

  // -------------------------------------------------- re-admission and blocking

  /** What an attempt of a task must have come to before the task is admitted again. */
  ghost predicate SpentOnInfra(records: seq<Record>, key: Key) {
    exists r :: r in records && r.Outcome? && r.key == key && r.state.InfraFailed? && r.usage.Some?
  }

  lemma AccountedOutcome(records: seq<Record>, key: Key) returns (o: Record)
    requires key in Admitted(records) && key !in Unaccounted(records)
    ensures o in records && o.Outcome? && o.key == key && o.usage.Some?
  {
    OutcomeForFinds(records, key);
    o := OutcomeFor(records, key).value;
  }

  /** A paid task is admitted again only when each of its earlier attempts ended in an
      infrastructure error that reported its usage. */
  lemma ReadmissionRule(plan: Plan, lane: nat, records: seq<Record>, i: nat, j: nat)
    requires plan.lanes >= 1 && !plan.synthetic && LaneHistory(plan, lane, records)
    requires i < j < |records| && records[i].Admission? && records[j].Admission?
    requires records[i].key.task == records[j].key.task
    ensures SpentOnInfra(records[..j], records[i].key)
  {
    hide LaneHistory, OutcomeFor, Unaccounted, LaneAccounting, OneOutcomeEach;
    HistoryAt(plan, lane, records, j);
    var past, key := records[..j], records[i].key;
    PaidHistoryIsAccounted(plan, lane, records, j);
    assert past[i] in past && key in Admitted(past);
    var o := AccountedOutcome(past, key);
    assert Terminal(o) ==> HasOutcome(past, o.key.task);
  }

  /** When a paid task is admitted, everything admitted before it is accounted for. */
  lemma PaidHistoryIsAccounted(plan: Plan, lane: nat, records: seq<Record>, j: nat)
    requires plan.lanes >= 1 && !plan.synthetic && LaneHistory(plan, lane, records)
    requires j < |records| && records[j].Admission?
    ensures Unaccounted(records[..j]) == {}
  {
    hide Reported, BelowShares, LaneHistory, ValidRecord, Unaccounted, OneOutcomeEach;
    HistoryAt(plan, lane, records, j);
    HistoryInLane(plan, lane, records);
    NoneUnaccounted(records[..j]);
    assert records[j] in records;
    forall r | r in records[..j] ensures LaneOf(plan, r.key.task) == lane {
      assert r in records;
    }
    ChosenAll(plan, records[..j], lane);
  }

  lemma OutcomeForAppend(records: seq<Record>, r: Record, key: Key)
    ensures OutcomeFor(records + [r], key) ==
      if r.Outcome? && r.key == key then Some(r) else OutcomeFor(records, key)
  {
    assert (records + [r])[..|records|] == records;
  }

  /** In a paid lane at most the latest admitted attempt is unaccounted for. */
  lemma OneUnaccounted(plan: Plan, lane: nat, records: seq<Record>, k: Key)
    requires plan.lanes >= 1 && !plan.synthetic && LaneHistory(plan, lane, records)
    requires k in Unaccounted(records)
    ensures exists i :: 0 <= i < |records| && records[i] == Admission(k) && i >= |records| - 2
    ensures forall i :: 0 <= i < |records| && records[i].Admission? && i >= |records| - 2 ==> records[i].key == k
  {
    hide OutcomeFor, Admits, ValidRecord, LaneOf;
    var front, last := records[..|records| - 1], records[|records| - 1];
    assert records == front + [last];
    AdmittedGrows(front, last);
    OutcomeForAppend(front, last, k);
    if last.Admission? {
      PaidHistoryIsAccounted(plan, lane, records, |records| - 1);
      if |records| >= 2 && front[|front| - 1].Admission? {
        LastAdmissionIsUnaccounted(plan, lane, front);
      }
    } else {
      var older, admission := front[..|front| - 1], front[|front| - 1];
      assert front == older + [admission];
      PaidHistoryIsAccounted(plan, lane, records, |records| - 2);
      assert records[..|records| - 2] == older;
      AdmittedGrows(older, admission);
      OutcomeForAppend(older, admission, k);
    }
  }

  /** An admission that ends the records has no outcome yet. */
  lemma LastAdmissionIsUnaccounted(plan: Plan, lane: nat, records: seq<Record>)
    requires plan.lanes >= 1 && LaneHistory(plan, lane, records)
    requires records != [] && records[|records| - 1].Admission?
    ensures records[|records| - 1].key in Unaccounted(records)
  {
    var front, last := records[..|records| - 1], records[|records| - 1];
    assert records == front + [last];
    AdmittedGrows(front, last);
    OutcomeForAppend(front, last, last.key);
    OutcomeForFinds(front, last.key);
  }

  /** An unaccounted attempt without a live worker blocks its paid lane forever. */
  lemma {:induction false} BlockedForever(plan: Plan, lane: nat, actions: seq<LaneAction>, k: nat)
    requires ManifestOk(plan) && lane < plan.lanes && !plan.synthetic && k <= |actions|
    requires LaneRun(plan, lane, actions[..k]).worker.None?
    requires Unaccounted(LaneRun(plan, lane, actions[..k]).records) != {}
    ensures LaneRun(plan, lane, actions) == LaneRun(plan, lane, actions[..k])
    decreases |actions|
  {
    hide Reported, BelowShares, LaneHistory, ValidRecord, Unaccounted, OneOutcomeEach, CheckpointOk, Admit, LaneOf;
    if k == |actions| {
      assert actions[..k] == actions;
    } else {
      var before, a := actions[..|actions| - 1], actions[|actions| - 1];
      assert before[..k] == actions[..k];
      BlockedForever(plan, lane, before, k);
      var s := LaneRun(plan, lane, before);
      RunKeepsHistory(plan, lane, before);
      HistoryInLane(plan, lane, s.records);
      ChosenAll(plan, s.records, lane);
      NoneUnaccounted(s.records);
      if a.AdmitTask? {
        AdmitMeans(plan, s.records, a.task, a.attempt);
      }
    }
  }

  // ------------------------------------------------------------------ budget

  lemma {:induction false} SumAppend(records: seq<Record>, r: Record)
    requires r.Outcome? ==> r.key !in Finished(records)
    ensures Sum(records + [r]) == if r.Outcome? then Plus(Sum(records), UsageOf(r)) else Sum(records)
  {
    if records == [] {
      assert ([] + [r])[1..] == [];
    } else {
      var rest := records[1..];
      assert records == [records[0]] + rest && (records + [r])[1..] == rest + [r];
      SumAppend(rest, r);
      AdmittedGrows(rest, r);
    }
  }

  /** Input tokens that the latest result reports. */
  function LastInput(records: seq<Record>): nat {
    if records == [] then 0
    else
      var last := records[|records| - 1];
      if last.Admission? then LastInput(records[..|records| - 1])
      else if last.usage.Some? then last.usage.value.input else 0
  }

  /** Output tokens that the latest result reports. */
  function LastOutput(records: seq<Record>): nat {
    if records == [] then 0
    else
      var last := records[|records| - 1];
      if last.Admission? then LastOutput(records[..|records| - 1])
      else if last.usage.Some? then last.usage.value.output else 0
  }

  /** One more record adds exactly what it reports itself. */
  lemma SpentAppend(records: seq<Record>, r: Record)
    requires r.Outcome? ==> r.key !in Finished(records)
    ensures var counts := r.Outcome? && r.usage.Some?;
      && InputSpent(records + [r]) == InputSpent(records) + (if counts then r.usage.value.input else 0)
      && OutputSpent(records + [r]) == OutputSpent(records) + (if counts then r.usage.value.output else 0)
  {
    hide InputSpent, OutputSpent, CachedSpent, Sum;
    SumAppend(records, r);
    SumIsSpent(records);
    SumIsSpent(records + [r]);
  }

  /** At an admission the lane has not used up its shares. */
  lemma AdmittedWithinShare(plan: Plan, lane: nat, records: seq<Record>)
    requires plan.lanes >= 1 && LaneHistory(plan, lane, records)
    requires records != [] && records[|records| - 1].Admission?
    ensures InputSpent(records) < InputShare(plan) && OutputSpent(records) < OutputShare(plan)
  {
    hide InputSpent, OutputSpent, AllReported, ResultsAdmitted, LaneHistory, ValidRecord, OneOutcomeEach, InputShare,
      OutputShare;
    var front, last := records[..|records| - 1], records[|records| - 1];
    assert records == front + [last];
    HistoryPrefix(plan, lane, records, |front|);
    HistoryAt(plan, lane, records, |front|);
    HistoryInLane(plan, lane, records);
    assert last in records && forall r :: r in front ==> r in records;
    ChosenAll(plan, front, lane);
    SpentAppend(front, last);
  }

  /** Main result: the tokens that a lane's results report stay below its share plus
      what its latest result reports. */
  lemma LaneOvershoot(plan: Plan, lane: nat, records: seq<Record>)
    requires ManifestOk(plan) && LaneHistory(plan, lane, records)
    ensures InputSpent(records) < InputShare(plan) + LastInput(records)
    ensures OutputSpent(records) < OutputShare(plan) + LastOutput(records)
  {
    hide InputSpent, OutputSpent, InputShare, OutputShare;
    if records == [] {
      NothingSpent(plan);
    } else {
      var front, last := records[..|records| - 1], records[|records| - 1];
      if last.Admission? {
        AdmittedWithinShare(plan, lane, records);
      } else {
        assert records == front + [last];
        HistoryAt(plan, lane, records, |front|);
        AdmittedWithinShare(plan, lane, front);
        ResultIsNew(plan, lane, records);
        SpentAppend(front, last);
      }
    }
  }

  lemma NothingSpent(plan: Plan)
    requires ManifestOk(plan)
    ensures InputSpent([]) == 0 < InputShare(plan) && OutputSpent([]) == 0 < OutputShare(plan)
  {
  }

  lemma ResultIsNew(plan: Plan, lane: nat, records: seq<Record>)
    requires plan.lanes >= 1 && LaneHistory(plan, lane, records)
    requires records != [] && records[|records| - 1].Outcome?
    ensures records[|records| - 1].key !in Finished(records[..|records| - 1])
  {
    var front, last := records[..|records| - 1], records[|records| - 1];
    forall i | 0 <= i < |front| && front[i].Outcome? ensures front[i].key != last.key {
      HistoryUnique(plan, lane, records, i, |front|);
    }
  }

  /** load_remote: the records of the first n lanes, one lane after another. */
  function Concat(lanes: seq<seq<Record>>, n: nat): seq<Record>
    requires n <= |lanes|
  {
    if n == 0 then [] else Concat(lanes, n - 1) + lanes[n - 1]
  }

  ghost predicate AllHistories(plan: Plan, lanes: seq<seq<Record>>)
    requires plan.lanes >= 1
  {
    forall l :: 0 <= l < |lanes| ==> LaneHistory(plan, l, lanes[l])
  }

  lemma {:induction false} ChosenConcat(plan: Plan, a: seq<Record>, b: seq<Record>, lane: nat)
    ensures Chosen(plan, a + b, lane) == Chosen(plan, a, lane) + Chosen(plan, b, lane)
  {
    if b == [] {
      assert a + b == a;
    } else {
      ChosenConcat(plan, a, b[..|b| - 1], lane);
      assert (a + b)[..|a + b| - 1] == a + b[..|b| - 1];
    }
  }

  lemma {:induction false} ChosenNone(plan: Plan, records: seq<Record>, lane: nat)
    requires forall r :: r in records ==> LaneOf(plan, r.key.task) != lane
    ensures Chosen(plan, records, lane) == []
  {
    if records != [] {
      assert records[|records| - 1] in records;
      ChosenNone(plan, records[..|records| - 1], lane);
    }
  }

  /** Each lane's own records can be read back out of the whole. */
  lemma {:induction false} ConcatByLane(plan: Plan, lanes: seq<seq<Record>>, n: nat, lane: nat)
    requires plan.lanes >= 1 && AllHistories(plan, lanes) && n <= |lanes|
    ensures Chosen(plan, Concat(lanes, n), lane) == if lane < n then lanes[lane] else []
  {
    hide LaneHistory, Chosen, LaneOf;
    if n == 0 {
      ChosenNone(plan, [], lane);
    } else {
      ConcatByLane(plan, lanes, n - 1, lane);
      ChosenConcat(plan, Concat(lanes, n - 1), lanes[n - 1], lane);
      LaneInWhole(plan, n - 1, lanes[n - 1], lane);
    }
  }

  lemma LaneInWhole(plan: Plan, mine: nat, records: seq<Record>, lane: nat)
    requires plan.lanes >= 1 && LaneHistory(plan, mine, records)
    ensures Chosen(plan, records, lane) == if lane == mine then records else []
  {
    HistoryInLane(plan, mine, records);
    if lane == mine {
      ChosenAll(plan, records, lane);
    } else {
      ChosenNone(plan, records, lane);
    }
  }

  lemma {:induction false} ConcatInLanes(plan: Plan, lanes: seq<seq<Record>>, n: nat)
    requires plan.lanes >= 1 && AllHistories(plan, lanes) && n <= |lanes|
    ensures forall r :: r in Concat(lanes, n) ==> 0 <= LaneOf(plan, r.key.task) < n
  {
    if n > 0 {
      ConcatInLanes(plan, lanes, n - 1);
      HistoryInLane(plan, n - 1, lanes[n - 1]);
    }
  }

  function LastInputs(lanes: seq<seq<Record>>, n: nat): nat
    requires n <= |lanes|
  {
    if n == 0 then 0 else LastInputs(lanes, n - 1) + LastInput(lanes[n - 1])
  }

  function LastOutputs(lanes: seq<seq<Record>>, n: nat): nat
    requires n <= |lanes|
  {
    if n == 0 then 0 else LastOutputs(lanes, n - 1) + LastOutput(lanes[n - 1])
  }

  /** n equal shares. */
  function Shares(share: nat, n: nat): nat {
    if n == 0 then 0 else Shares(share, n - 1) + share
  }

  lemma {:induction false} LanesOvershoot(plan: Plan, lanes: seq<seq<Record>>, n: nat)
    requires ManifestOk(plan) && AllHistories(plan, lanes) && n <= |lanes|
    ensures var sum := SumLanes(plan, Concat(lanes, |lanes|), n);
            && sum.input + n <= Shares(InputShare(plan), n) + LastInputs(lanes, n)
            && sum.output + n <= Shares(OutputShare(plan), n) + LastOutputs(lanes, n)
  {
    hide InputShare, OutputShare, Sum, LaneHistory, LaneOf, Chosen, Concat, LastInput, LastOutput, InputSpent,
      OutputSpent, CachedSpent;
    if n > 0 {
      LanesOvershoot(plan, lanes, n - 1);
      ConcatByLane(plan, lanes, |lanes|, n - 1);
      LaneOvershoot(plan, n - 1, lanes[n - 1]);
      SumIsSpent(lanes[n - 1]);
    }
  }

  /** All lanes' shares together stay within the approved limit. */
  lemma SharesFit(limit: nat, n: nat)
    requires n >= 1
    ensures Shares(limit / n, n) <= limit
  {
    SharesAreEqual(limit / n, n);
  }

  lemma {:induction false} SharesAreEqual(share: nat, n: nat)
    ensures Shares(share, n) == n * share
  {
    if n > 0 {
      SharesAreEqual(share, n - 1);
    }
  }

  /** Main result: the whole plan never spends more than the approved limit plus the
      latest task of each lane. */
  lemma WholeOvershoot(plan: Plan, lanes: seq<seq<Record>>)
    requires ManifestOk(plan) && |lanes| == plan.lanes && AllHistories(plan, lanes)
    ensures var whole := Concat(lanes, |lanes|);
      && Account(whole).Ok?
      && Account(whole).value.totals == Totals(InputSpent(whole), OutputSpent(whole), CachedSpent(whole))
      && InputSpent(whole) < plan.inputLimit + LastInputs(lanes, |lanes|)
      && OutputSpent(whole) < plan.outputLimit + LastOutputs(lanes, |lanes|)
  {
    hide Account, Sum, LaneHistory, LaneOf, Concat, Chosen, InputShare, OutputShare, InputSpent, OutputSpent,
      CachedSpent;
    var whole := Concat(lanes, |lanes|);
    ConcatInLanes(plan, lanes, |lanes|);
    LanesAreKnown(plan, whole);
    forall l: nat | l < plan.lanes ensures LaneAccounting(plan, whole, l).Ok? {
      ConcatByLane(plan, lanes, |lanes|, l);
      LaneAccounts(plan, l, lanes[l]);
    }
    WholeIsSumOfLanes(plan, whole);
    WholeSum(plan, whole);
    SumIsSpent(whole);
    LanesOvershoot(plan, lanes, plan.lanes);
    TotalShares(plan);
  }

  /** The same bound for every run of every lane of a plan. */
  lemma PlanRunOvershoot(plan: Plan, runs: seq<seq<LaneAction>>, lanes: seq<seq<Record>>)
    requires ManifestOk(plan) && |runs| == |lanes| == plan.lanes
    requires forall l :: 0 <= l < |lanes| ==> lanes[l] == LaneRun(plan, l, runs[l]).records
    ensures var whole := Concat(lanes, |lanes|);
      && Account(whole).Ok?
      && Account(whole).value.totals == Totals(InputSpent(whole), OutputSpent(whole), CachedSpent(whole))
      && InputSpent(whole) < plan.inputLimit + LastInputs(lanes, |lanes|)
      && OutputSpent(whole) < plan.outputLimit + LastOutputs(lanes, |lanes|)
  {
    hide LaneHistory, Account, Concat, LastInputs, LastOutputs, LaneRun, InputSpent, OutputSpent, CachedSpent;
    forall l: nat | l < |lanes| ensures LaneHistory(plan, l, lanes[l]) {
      RunKeepsHistory(plan, l, runs[l]);
    }
    WholeOvershoot(plan, lanes);
  }

  lemma LaneAccounts(plan: Plan, lane: nat, records: seq<Record>)
    requires plan.lanes >= 1 && LaneHistory(plan, lane, records)
    ensures Account(records).Ok?
  {
    HistoryAdmitsResults(plan, lane, records);
  }

  lemma TotalShares(plan: Plan)
    requires plan.lanes >= 1
    ensures Shares(InputShare(plan), plan.lanes) <= plan.inputLimit
    ensures Shares(OutputShare(plan), plan.lanes) <= plan.outputLimit
  {
    SharesFit(plan.inputLimit, plan.lanes);
    SharesFit(plan.outputLimit, plan.lanes);
  }

  // ------------------------------------------------------------ the commands

  /** One lane's jobs: `records` is the newest durable checkpoint. */
  class Lane {
    const plan: Plan
    const lane: nat
    var records: seq<Record>
    var worker: Option<Key>

    ghost function State(): LaneState
      reads this
    {
      LaneState(records, worker)
    }

    ghost predicate Valid()
      reads this
    {
      ManifestOk(plan) && lane < plan.lanes && LaneOk(plan, lane, State())
    }

    constructor (plan: Plan, lane: nat)
      requires ManifestOk(plan) && lane < plan.lanes
      ensures Valid() && this.plan == plan && this.lane == lane && State() == IDLE
    {
      this.plan, this.lane := plan, lane;
      records, worker := [], None;
    }

    /** The admit command. True means "execute": the grown checkpoint was published. */
    method Admit(task: TaskId, attempt: int) returns (r: Result<bool, TaskError>)
      requires Valid()
      modifies this
      ensures Valid() && State() == LaneStep(plan, lane, old(State()), AdmitTask(task, attempt))
      ensures old(worker).None? && LaneOf(plan, task) == lane ==>
        (r == Ok(true) <==> Admits(plan, old(records), task, attempt))
      ensures old(worker).None? && LaneOf(plan, task) == lane ==> (
        r == match CertRecords.Admit(plan, old(records), task, attempt)
             case Err(e) => Err(e)
             case Ok(admission) => Ok(admission.Some?))
      ensures old(worker).Some? || LaneOf(plan, task) != lane ==> r == Err(InvalidCheckpoint)
      ensures r == Ok(true) ==> records == old(records) + [Admission(Key(task, attempt))]
      ensures r != Ok(true) ==> records == old(records)
    {
      hide LaneHistory, CheckpointOk, Admits, LaneOf;
      StepKeepsHistory(plan, lane, State(), AdmitTask(task, attempt));
      if worker.Some? || LaneOf(plan, task) != lane {
        return Err(InvalidCheckpoint);
      }
      AdmitMeans(plan, records, task, attempt);
      AdmitIssues(plan, records, task, attempt);
      var admission := CertRecords.Admit(plan, records, task, attempt);
      if admission.Err? {
        return Err(admission.error);
      }
      if admission.value.None? {
        return Ok(false);
      }
      EmitNeverFails(plan, lane, State(), admission.value.value);
      records := records + [admission.value.value];
      worker := Some(Key(task, attempt));
      r := Ok(true);
    }

    /** The finish command with the worker's result file, or with the coordinator's own
        record when that file is missing. */
    method Finish(result: Record) returns (r: Outcome<TaskError>)
      requires Valid()
      modifies this
      ensures Valid() && State() == LaneStep(plan, lane, old(State()), FinishTask(result))
      ensures old(worker).Some? ==>
        (r.Pass? <==> ValidRecord(plan, result) && result.Outcome? && result.key == old(worker).value)
      ensures r.Pass? ==> records == old(records) + [result]
    {
      hide LaneHistory, CheckpointOk, ValidRecord;
      StepKeepsHistory(plan, lane, State(), FinishTask(result));
      if worker.None? {
        return Fail(InvalidRecord);
      }
      if !ValidRecord(plan, result) || result.key != worker.value {
        worker := None;
        return Fail(InvalidRecord);
      }
      if result.Admission? {
        RepeatedAdmission(plan, lane, records, result);
      } else {
        EmitNeverFails(plan, lane, State(), result);
      }
      var check := ValidateCheckpoint(plan, records + [result], lane);
      worker := None;
      if check.Fail? {
        return Fail(check.error);
      }
      records := records + [result];
      r := Pass;
    }

    /** The job dies after its admission was published. */
    method Lose()
      requires Valid()
      modifies this
      ensures Valid() && State() == LaneStep(plan, lane, old(State()), LoseWorker)
      ensures records == old(records)
    {
      StepKeepsHistory(plan, lane, State(), LoseWorker);
      worker := None;
    }
  }
}
