/** The between-tasks token budget of a serial run (scripts/codex_runtime.py,
    RunBudget). */
module RunBudget {
  import opened Common

  datatype Tokens = Tokens(input: int, output: int, cached: int)

  datatype Limits = Limits(input: int, output: int, tasks: int)

  datatype Budget = Budget(tasks: int, spent: Tokens, inFlight: bool)

  datatype Call = Begin | Record(usage: Tokens)

  predicate LimitsOk(l: Limits) {
    l.input > 0 && l.output > 0 && l.tasks > 0
  }

  predicate UsageOk(u: Tokens) {
    u.input > 0 && u.output >= 0 && 0 <= u.cached <= u.input
  }

  const NOTHING: Tokens := Tokens(0, 0, 0)

  function Add(a: Tokens, b: Tokens): Tokens {
    Tokens(a.input + b.input, a.output + b.output, a.cached + b.cached)
  }

  /** No token limit is reached. */
  predicate Below(l: Limits, spent: Tokens) {
    spent.input < l.input && spent.output < l.output
  }

  /** No token limit is exceeded. */
  predicate Within(l: Limits, spent: Tokens) {
    spent.input <= l.input && spent.output <= l.output
  }

  // ------------------------------------------------------------- histories

  /** What one call makes of the budget. A record that exceeds a limit is booked all
      the same. */
  function Next(l: Limits, b: Budget, c: Call): Budget {
    match c
    case Begin => if !b.inFlight && b.tasks < l.tasks && Below(l, b.spent) then b.(inFlight := true) else b
    case Record(usage) => if UsageOk(usage) then Budget(b.tasks + 1, Add(b.spent, usage), false) else b
  }

  /** The budget after a history of calls, whether or not some of them raised. */
  function Replay(l: Limits, calls: seq<Call>): Budget {
    if calls == [] then Budget(0, NOTHING, false)
    else Next(l, Replay(l, calls[..|calls| - 1]), calls[|calls| - 1])
  }

  /** Usage of the latest record that was booked. */
  function LastBooked(calls: seq<Call>): Tokens {
    if calls == [] then NOTHING
    else
      var last := calls[|calls| - 1];
      if last.Record? && UsageOk(last.usage) then last.usage else LastBooked(calls[..|calls| - 1])
  }

  /** What had been spent when the latest record was booked. */
  function SpentBefore(l: Limits, calls: seq<Call>): Tokens {
    if calls == [] then NOTHING
    else
      var front, last := calls[..|calls| - 1], calls[|calls| - 1];
      if last.Record? && UsageOk(last.usage) then Replay(l, front).spent else SpentBefore(l, front)
  }

  /** The caller never records again after a record raised for an exceeded limit. */
  ghost predicate StopsWhenOver(l: Limits, calls: seq<Call>) {
    forall i :: 0 <= i < |calls| && calls[i].Record? ==> Within(l, Replay(l, calls[..i]).spent)
  }

  /** The caller records only for a task that begin admitted. */
  ghost predicate RecordsAdmitted(l: Limits, calls: seq<Call>) {
    forall i :: 0 <= i < |calls| && calls[i].Record? ==> Replay(l, calls[..i]).inFlight
  }

  lemma AppendCall(l: Limits, calls: seq<Call>, c: Call)
    ensures (calls + [c])[..|calls|] == calls && (calls + [c])[|calls|] == c
    ensures StopsWhenOver(l, calls + [c]) <==>
      StopsWhenOver(l, calls) && (c.Record? ==> Within(l, Replay(l, calls).spent))
    ensures RecordsAdmitted(l, calls + [c]) <==> RecordsAdmitted(l, calls) && (c.Record? ==> Replay(l, calls).inFlight)
  {
    var longer := calls + [c];
    assert forall i :: 0 <= i <= |calls| ==> longer[..i] == calls[..i];
    assert calls[..|calls|] == calls;
    assert forall i :: 0 <= i < |calls| ==> longer[i] == calls[i];
    assert longer[|calls|] == c;
  }

  lemma NoCalls(l: Limits)
    ensures Replay(l, []) == Budget(0, NOTHING, false) && LastBooked([]) == NOTHING && SpentBefore(l, []) == NOTHING
  {
  }

  lemma OneMore(l: Limits, calls: seq<Call>)
    requires calls != []
    ensures var front, last := calls[..|calls| - 1], calls[|calls| - 1];
            var booked := last.Record? && UsageOk(last.usage);
            && Replay(l, calls) == Next(l, Replay(l, front), last)
            && LastBooked(calls) == (if booked then last.usage else LastBooked(front))
            && SpentBefore(l, calls) == (if booked then Replay(l, front).spent else SpentBefore(l, front))
  {
  }

  /** What a history has spent is what it had spent before, plus the latest booking. */
  lemma {:induction false} SpentIsBeforePlusLast(l: Limits, calls: seq<Call>)
    ensures Replay(l, calls).spent == Add(SpentBefore(l, calls), LastBooked(calls))
  {
    hide Replay, LastBooked, SpentBefore;
    if calls == [] {
      NoCalls(l);
    } else {
      OneMore(l, calls);
      SpentIsBeforePlusLast(l, calls[..|calls| - 1]);
    }
  }

  /** Exact condition, for every history: spending is below the limits plus the latest
      task exactly when it was below the limits before that task was booked. */
  lemma StrictExactlyWhenBelowBefore(l: Limits, calls: seq<Call>)
    ensures Below(l, SpentBefore(l, calls)) <==>
      && Replay(l, calls).spent.input < l.input + LastBooked(calls).input
      && Replay(l, calls).spent.output < l.output + LastBooked(calls).output
  {
    hide Replay, SpentBefore, LastBooked;
    SpentIsBeforePlusLast(l, calls);
  }

  lemma {:induction false} WithinBeforeLast(l: Limits, calls: seq<Call>)
    requires LimitsOk(l) && StopsWhenOver(l, calls)
    ensures Within(l, SpentBefore(l, calls))
  {
    hide Replay, LastBooked, SpentBefore, StopsWhenOver;
    if calls == [] {
      NoCalls(l);
    } else {
      var front, last := calls[..|calls| - 1], calls[|calls| - 1];
      assert calls == front + [last];
      AppendCall(l, front, last);
      OneMore(l, calls);
      WithinBeforeLast(l, front);
    }
  }

  /** Main result: a caller that stops after a raising record spends at most each limit
      plus the latest task. */
  lemma OneTaskOvershoot(l: Limits, calls: seq<Call>)
    requires LimitsOk(l) && StopsWhenOver(l, calls)
    ensures Replay(l, calls).spent.input <= l.input + LastBooked(calls).input
    ensures Replay(l, calls).spent.output <= l.output + LastBooked(calls).output
  {
    hide Replay, LastBooked, SpentBefore, StopsWhenOver;
    WithinBeforeLast(l, calls);
    SpentIsBeforePlusLast(l, calls);
  }

  /** Main result: a caller that records only admitted tasks stays strictly below each
      limit plus the latest task, and within the number of tasks, even if it goes on
      after errors. */
  lemma {:induction false} AdmittedOvershoot(l: Limits, calls: seq<Call>)
    requires LimitsOk(l) && RecordsAdmitted(l, calls)
    ensures var b := Replay(l, calls);
      && b.spent.input < l.input + LastBooked(calls).input
      && b.spent.output < l.output + LastBooked(calls).output
      && b.tasks <= l.tasks
      && (b.inFlight ==> b.tasks < l.tasks && Below(l, b.spent))
  {
    hide Replay, LastBooked, SpentBefore, RecordsAdmitted;
    if calls == [] {
      NoCalls(l);
    } else {
      var front, last := calls[..|calls| - 1], calls[|calls| - 1];
      assert calls == front + [last];
      AppendCall(l, front, last);
      OneMore(l, calls);
      AdmittedOvershoot(l, front);
    }
  }

  /** Without begin the bound is not strict: spending 15 with limit 10 and latest task 5. */
  lemma UnadmittedRecordMeetsBound()
    ensures var l, calls := Limits(10, 10, 1), [Record(Tokens(10, 0, 0)), Record(Tokens(5, 0, 0))];
      && LimitsOk(l) && StopsWhenOver(l, calls) && LastBooked(calls).input == 5
      && Replay(l, calls).spent.input == 15 == l.input + LastBooked(calls).input
      && !Below(l, SpentBefore(l, calls))
  {
    hide Replay, LastBooked, SpentBefore, StopsWhenOver;
    var l, first, second := Limits(10, 10, 1), Record(Tokens(10, 0, 0)), Record(Tokens(5, 0, 0));
    var none: seq<Call> := [];
    NoCalls(l);
    NothingRecorded(l);
    AppendCall(l, none, first);
    OneMore(l, none + [first]);
    AppendCall(l, none + [first], second);
    OneMore(l, none + [first] + [second]);
    assert none + [first] + [second] == [first, second];
  }

  lemma NothingRecorded(l: Limits)
    ensures StopsWhenOver(l, [])
  {
  }

  /** A task that began and never reported usage stops the run: no later begin changes
      anything before a record. */
  lemma {:induction false} UnreportedTaskBlocks(l: Limits, calls: seq<Call>, more: seq<Call>)
    requires Replay(l, calls).inFlight && forall c :: c in more ==> c.Begin?
    ensures Replay(l, calls + more) == Replay(l, calls)
  {
    if more == [] {
      assert calls + more == calls;
    } else {
      UnreportedTaskBlocks(l, calls, more[..|more| - 1]);
      assert (calls + more)[..|calls + more| - 1] == calls + more[..|more| - 1];
      assert more[|more| - 1] in more;
    }
  }

  // ---------------------------------------------------------------- the class

  class RunBudget {
    const limits: Limits
    var tasks: int
    var inputTokens: int
    var outputTokens: int
    var cachedTokens: int
    var inFlightOrUnaccounted: bool
    /** Every call so far, also those that raised. */
    ghost var calls: seq<Call>

    function Spent(): Tokens
      reads this
    {
      Tokens(inputTokens, outputTokens, cachedTokens)
    }

    ghost predicate Valid()
      reads this
    {
      LimitsOk(limits) && Budget(tasks, Spent(), inFlightOrUnaccounted) == Replay(limits, calls)
    }

    constructor (l: Limits)
      requires LimitsOk(l)
      ensures Valid() && limits == l && calls == [] && Spent() == NOTHING && tasks == 0 && !inFlightOrUnaccounted
    {
      limits := l;
      tasks, inputTokens, outputTokens, cachedTokens, inFlightOrUnaccounted := 0, 0, 0, 0, false;
      calls := [];
    }

    /** begin: admits a task exactly when none is in flight or unaccounted and neither
        the number of tasks nor a token limit is reached. */
    method BeginTask() returns (ok: bool)
      requires Valid()
      modifies this
      ensures Valid() && calls == old(calls) + [Begin]
      ensures ok <==> old(!inFlightOrUnaccounted && tasks < limits.tasks && Below(limits, Spent()))
      ensures inFlightOrUnaccounted <==> ok || old(inFlightOrUnaccounted)
      ensures Spent() == old(Spent()) && tasks == old(tasks)
    {
      hide Replay;
      AppendCall(limits, calls, Begin);
      calls := calls + [Begin];
      OneMore(limits, calls);
      if inFlightOrUnaccounted || tasks >= limits.tasks
        || inputTokens >= limits.input || outputTokens >= limits.output
      {
        return false;
      }
      inFlightOrUnaccounted := true;
      ok := true;
    }

    /** record: books valid usage, also when it then raises for an exceeded limit. */
    method RecordUsage(usage: Tokens) returns (ok: bool)
      requires Valid()
      modifies this
      ensures Valid() && calls == old(calls) + [Record(usage)]
      ensures ok <==> UsageOk(usage) && Within(limits, Spent())
      ensures !UsageOk(usage) ==>
        Spent() == old(Spent()) && tasks == old(tasks) && inFlightOrUnaccounted == old(inFlightOrUnaccounted)
      ensures UsageOk(usage) ==>
        Spent() == Add(old(Spent()), usage) && tasks == old(tasks) + 1 && !inFlightOrUnaccounted
      ensures StopsWhenOver(limits, calls) ==>
        && inputTokens <= limits.input + LastBooked(calls).input
        && outputTokens <= limits.output + LastBooked(calls).output
      ensures RecordsAdmitted(limits, calls) ==>
        && inputTokens < limits.input + LastBooked(calls).input
        && outputTokens < limits.output + LastBooked(calls).output
        && tasks <= limits.tasks
      ensures UsageOk(usage) ==>
        (old(Below(limits, Spent())) <==>
          inputTokens < limits.input + usage.input && outputTokens < limits.output + usage.output)
    {
      hide Replay, LastBooked, StopsWhenOver, RecordsAdmitted;
      AppendCall(limits, calls, Record(usage));
      calls := calls + [Record(usage)];
      OneMore(limits, calls);
      if StopsWhenOver(limits, calls) {
        OneTaskOvershoot(limits, calls);
      }
      if RecordsAdmitted(limits, calls) {
        AdmittedOvershoot(limits, calls);
      }
      if !UsageOk(usage) {
        return false;
      }
      tasks := tasks + 1;
      inFlightOrUnaccounted := false;
      inputTokens := inputTokens + usage.input;
      outputTokens := outputTokens + usage.output;
      cachedTokens := cachedTokens + usage.cached;
      ok := !(inputTokens > limits.input || outputTokens > limits.output);
    }
  }
}
