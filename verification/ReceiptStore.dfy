/** The bounded store of verification receipts (project_contract.py: prune_receipts,
    write_receipt and the receipt lifecycle of execute_flows). A receipt is active
    while its writer holds the file lock. */
module ReceiptStore {
  import opened Common

  const MAX_RECEIPT_BYTES: int := 256 * 1024

  /** Receipt names are random ids of one fixed hexadecimal shape, so their string
      order is the order of the numbers they spell. */
  type Name = nat

  datatype Receipt = Receipt(name: Name, size: nat, mtime: int, active: bool)

  datatype Policy = Policy(maxFiles: int, maxBytes: int)

  /** What receipt_retention admits, as far as capacity is concerned. */
  ghost predicate PolicyOk(p: Policy) {
    p.maxFiles >= 1 && p.maxBytes >= MAX_RECEIPT_BYTES
  }

  // ----------------------------------------------------------- accounting

  /** Bytes charged for a receipt: an active one is charged as if it were full. */
  function Charge(r: Receipt): int {
    if r.active && r.size < MAX_RECEIPT_BYTES then MAX_RECEIPT_BYTES else r.size
  }

  function Budgeted(s: seq<Receipt>): int {
    if s == [] then 0 else Budgeted(s[..|s| - 1]) + Charge(s[|s| - 1])
  }

  function Bytes(s: seq<Receipt>): int {
    if s == [] then 0 else Bytes(s[..|s| - 1]) + s[|s| - 1].size
  }

  ghost predicate Fits(p: Policy, s: seq<Receipt>, reserve: bool) {
    && |s| + (if reserve then 1 else 0) <= p.maxFiles
    && Budgeted(s) + (if reserve then MAX_RECEIPT_BYTES else 0) <= p.maxBytes
  }

  ghost predicate UniqueNames(s: seq<Receipt>) {
    forall i, j :: 0 <= i < j < |s| ==> s[i].name != s[j].name
  }

  function Names(s: seq<Receipt>): set<Name> {
    set r | r in s :: r.name
  }

  function InactiveNames(s: seq<Receipt>): set<Name> {
    set r | r in s && !r.active :: r.name
  }

  /** The receipts that survive when the named ones are unlinked. */
  function Keep(s: seq<Receipt>, gone: set<Name>): seq<Receipt> {
    if s == [] then []
    else if s[|s| - 1].name in gone then Keep(s[..|s| - 1], gone)
    else Keep(s[..|s| - 1], gone) + [s[|s| - 1]]
  }

  lemma {:induction false} KeepMembers(s: seq<Receipt>, gone: set<Name>)
    ensures forall r :: r in Keep(s, gone) <==> r in s && r.name !in gone
  {
    if s != [] {
      KeepMembers(s[..|s| - 1], gone);
      assert s == s[..|s| - 1] + [s[|s| - 1]];
    }
  }

  lemma {:induction false} KeepUnique(s: seq<Receipt>, gone: set<Name>)
    requires UniqueNames(s)
    ensures UniqueNames(Keep(s, gone))
  {
    if s != [] {
      var front, last := s[..|s| - 1], s[|s| - 1];
      KeepUnique(front, gone);
      KeepMembers(front, gone);
      var kept := Keep(front, gone);
      forall i | 0 <= i < |kept| ensures kept[i].name != last.name {
        assert kept[i] in front;
      }
    }
  }

  /** Unlinking more keeps less. */
  lemma {:induction false} KeepShrinks(s: seq<Receipt>, gone: set<Name>, more: set<Name>)
    requires gone <= more
    ensures |Keep(s, more)| <= |Keep(s, gone)| <= |s|
    ensures 0 <= Budgeted(Keep(s, more)) <= Budgeted(Keep(s, gone)) <= Budgeted(s)
  {
    if s != [] {
      KeepShrinks(s[..|s| - 1], gone, more);
      BudgetAppend(Keep(s[..|s| - 1], gone), s[|s| - 1]);
      BudgetAppend(Keep(s[..|s| - 1], more), s[|s| - 1]);
    }
  }

  lemma BudgetAppend(s: seq<Receipt>, r: Receipt)
    ensures Budgeted(s + [r]) == Budgeted(s) + Charge(r)
    ensures Bytes(s + [r]) == Bytes(s) + r.size
  {
    assert (s + [r])[..|s|] == s;
  }

  lemma {:induction false} KeepTwice(s: seq<Receipt>, gone: set<Name>, more: set<Name>)
    ensures Keep(Keep(s, gone), more) == Keep(s, gone + more)
  {
    if s != [] {
      KeepTwice(s[..|s| - 1], gone, more);
      var front, last := Keep(s[..|s| - 1], gone), s[|s| - 1];
      if last.name !in gone {
        assert (front + [last])[..|front|] == front;
      }
    }
  }

  lemma {:induction false} KeepAll(s: seq<Receipt>)
    ensures Keep(s, {}) == s
  {
    if s != [] {
      KeepAll(s[..|s| - 1]);
    }
  }

  /** Unlinking one present receipt takes exactly it off the books. */
  lemma {:induction false} KeepWithoutOne(s: seq<Receipt>, r: Receipt)
    requires UniqueNames(s) && r in s
    ensures |Keep(s, {r.name})| == |s| - 1
    ensures Budgeted(Keep(s, {r.name})) == Budgeted(s) - Charge(r)
    ensures Bytes(Keep(s, {r.name})) == Bytes(s) - r.size
  {
    var front, last := s[..|s| - 1], s[|s| - 1];
    if last.name == r.name {
      assert last == r;
      KeepNone(front, {r.name});
    } else {
      KeepWithoutOne(front, r);
      BudgetAppend(Keep(front, {r.name}), last);
    }
  }

  lemma {:induction false} KeepNone(s: seq<Receipt>, gone: set<Name>)
    requires forall r :: r in s ==> r.name !in gone
    ensures Keep(s, gone) == s
  {
    if s != [] {
      KeepNone(s[..|s| - 1], gone);
      assert s == s[..|s| - 1] + [s[|s| - 1]];
    }
  }

  lemma {:induction false} KeepNothing(s: seq<Receipt>, gone: set<Name>)
    requires forall r :: r in s ==> r.name in gone
    ensures Keep(s, gone) == []
  {
    if s != [] {
      assert s[|s| - 1] in s;
      KeepNothing(s[..|s| - 1], gone);
    }
  }

  // ------------------------------------------------ what pruning removes

  /** Eviction order: oldest first, ties by name. */
  predicate Before(a: Receipt, b: Receipt) {
    a.mtime < b.mtime || (a.mtime == b.mtime && a.name < b.name)
  }

  /** A set of inactive receipts that, with a receipt, contains all older ones. */
  ghost predicate OldestFirst(s: seq<Receipt>, gone: set<Name>) {
    && gone <= InactiveNames(s)
    && forall a, b :: a in s && b in s && !a.active && !b.active && Before(a, b) && b.name in gone ==> a.name in gone
  }

  /** Nothing expired is left and both limits hold. */
  ghost predicate Enough(p: Policy, s: seq<Receipt>, cutoff: int, reserve: bool, gone: set<Name>) {
    && (forall r :: r in s && !r.active && r.name !in gone ==> r.mtime > cutoff)
    && Fits(p, Keep(s, gone), reserve)
  }

  /** The removals prune_receipts makes: the shortest run of oldest inactive receipts
      that is enough, or all of them when nothing is enough. */
  ghost predicate Pruned(p: Policy, s: seq<Receipt>, cutoff: int, reserve: bool, gone: set<Name>) {
    && OldestFirst(s, gone)
    && (Enough(p, s, cutoff, reserve, gone) || gone == InactiveNames(s))
    && (forall less :: OldestFirst(s, less) && less < gone ==> !Enough(p, s, cutoff, reserve, less))
  }

  /** Oldest-first sets are nested. */
  lemma OldestFirstNested(s: seq<Receipt>, x: set<Name>, y: set<Name>)
    requires UniqueNames(s) && OldestFirst(s, x) && OldestFirst(s, y)
    ensures x <= y || y <= x
  {
    if !(x <= y) {
      var m :| m in x && m !in y;
      var a :| a in s && !a.active && a.name == m;
      forall n | n in y ensures n in x {
        var b :| b in s && !b.active && b.name == n;
      }
    }
  }

  /** The limits and the listing determine what is removed. */
  lemma PrunedIsUnique(p: Policy, s: seq<Receipt>, cutoff: int, reserve: bool, x: set<Name>, y: set<Name>)
    requires UniqueNames(s) && Pruned(p, s, cutoff, reserve, x) && Pruned(p, s, cutoff, reserve, y)
    ensures x == y
  {
    OldestFirstNested(s, x, y);
  }

  /** What is left when every inactive receipt is gone. */
  ghost function ActiveOnly(s: seq<Receipt>): seq<Receipt> {
    Keep(s, InactiveNames(s))
  }

  /** The limits hold after pruning exactly when the active receipts and the
      reservation fit by themselves. */
  lemma PrunedFits(p: Policy, s: seq<Receipt>, cutoff: int, reserve: bool, gone: set<Name>)
    requires Pruned(p, s, cutoff, reserve, gone)
    ensures Fits(p, Keep(s, gone), reserve) <==> Fits(p, ActiveOnly(s), reserve)
  {
    KeepShrinks(s, gone, InactiveNames(s));
  }

  /** Pruning again with the same cutoff removes nothing. */
  lemma PruneTwice(p: Policy, s: seq<Receipt>, cutoff: int, reserve: bool, gone: set<Name>)
    requires UniqueNames(s) && Pruned(p, s, cutoff, reserve, gone)
    ensures Pruned(p, Keep(s, gone), cutoff, reserve, {})
  {
    var left := Keep(s, gone);
    KeepMembers(s, gone);
    KeepAll(left);
    if Enough(p, s, cutoff, reserve, gone) {
      assert Enough(p, left, cutoff, reserve, {});
    } else {
      forall r | r in left ensures r.active {
        assert r in s;
      }
    }
  }

  // --------------------------------------------------------- prune_receipts

  function Insert(r: Receipt, sorted: seq<Receipt>): seq<Receipt> {
    if sorted == [] || Before(r, sorted[0]) then [r] + sorted
    else [sorted[0]] + Insert(r, sorted[1..])
  }

  /** sorted(receipts, key=(mtime, name)) */
  function ByAge(s: seq<Receipt>): seq<Receipt> {
    if s == [] then [] else Insert(s[|s| - 1], ByAge(s[..|s| - 1]))
  }

  ghost predicate AgeSorted(s: seq<Receipt>) {
    forall i, j :: 0 <= i < j < |s| ==> Before(s[i], s[j])
  }

  lemma {:induction false} InsertSorted(r: Receipt, sorted: seq<Receipt>)
    requires AgeSorted(sorted) && forall x :: x in sorted ==> x.name != r.name
    ensures AgeSorted(Insert(r, sorted))
    ensures forall x :: x in Insert(r, sorted) <==> x == r || x in sorted
  {
    if sorted != [] && !Before(r, sorted[0]) {
      var tail := sorted[1..];
      InsertSorted(r, tail);
      assert sorted == [sorted[0]] + tail;
      var rest := Insert(r, tail);
      forall j | 0 <= j < |rest| ensures Before(sorted[0], rest[j]) {
        assert rest[j] == r || rest[j] in tail;
      }
    }
  }

  lemma {:induction false} ByAgeSorted(s: seq<Receipt>)
    requires UniqueNames(s)
    ensures OrderOf(s, ByAge(s))
  {
    if s != [] {
      var front, last := s[..|s| - 1], s[|s| - 1];
      ByAgeSorted(front);
      forall x | x in ByAge(front) ensures x.name != last.name {
        assert x in front;
      }
      InsertSorted(last, ByAge(front));
      assert s == front + [last];
    }
  }

  /** Removing the next receipt in age order keeps the removals minimal. */
  lemma PruneStep(p: Policy, s: seq<Receipt>, order: seq<Receipt>, i: nat, cutoff: int, reserve: bool, gone: set<Name>)
    requires OrderOf(s, order) && i < |order| && !order[i].active && order[i] in s
    requires gone == InactiveNames(order[..i]) && order[i].name !in gone
    requires forall less :: OldestFirst(s, less) && less < gone ==> !Enough(p, s, cutoff, reserve, less)
    requires !(order[i].mtime > cutoff && Fits(p, Keep(s, gone), reserve))
    ensures forall less :: OldestFirst(s, less) && less < gone + {order[i].name} ==>
      !Enough(p, s, cutoff, reserve, less)
  {
    hide AgeSorted, Fits, Keep;
    var next := order[i];
    forall less | OldestFirst(s, less) && less < gone + {next.name} ensures !Enough(p, s, cutoff, reserve, less) {
      if next.name in less {
        HoldsOlder(s, order, i, less);
      } else {
        assert less <= gone;
        if less == gone {
          assert next in s && !next.active && next.name !in less;
        }
      }
    }
  }

  /** An oldest-first set with a receipt in it has every inactive one before it. */
  lemma HoldsOlder(s: seq<Receipt>, order: seq<Receipt>, i: nat, gone: set<Name>)
    requires OrderOf(s, order) && OldestFirst(s, gone)
    requires i < |order| && !order[i].active && order[i].name in gone
    ensures InactiveNames(order[..i]) + {order[i].name} <= gone
  {
    assert order[i] in s;
    forall n | n in InactiveNames(order[..i]) ensures n in gone {
      var x :| x in order[..i] && !x.active && x.name == n;
      var j :| 0 <= j < i && order[j] == x;
      assert x in order && Before(x, order[i]);
    }
  }

  /** A younger receipt met once enough is removed stays, and so do all that follow. */
  lemma SkipStep(p: Policy, s: seq<Receipt>, order: seq<Receipt>, i: nat, cutoff: int, reserve: bool, gone: set<Name>)
    requires AgeSorted(order) && (forall x :: x in order <==> x in s)
    requires i < |order| && !order[i].active
    requires gone == InactiveNames(order[..i])
    requires order[i].mtime > cutoff && Fits(p, Keep(s, gone), reserve)
    ensures Enough(p, s, cutoff, reserve, gone)
  {
    assert forall k :: 0 <= k < i ==> order[k] in order[..i];
    forall r | r in s && !r.active && r.name !in gone ensures r.mtime > cutoff {
      assert r !in order[..i];
      var j :| 0 <= j < |order| && order[j] == r;
      if j > i {
        assert Before(order[i], order[j]);
      }
    }
  }

  lemma AgeOrder(order: seq<Receipt>, j: nat, k: nat)
    requires AgeSorted(order) && j < |order| && k < |order| && Before(order[j], order[k])
    ensures j < k
  {
  }

  /** The first inactive receipts of the age order form an oldest-first set. */
  lemma PrefixIsOldestFirst(s: seq<Receipt>, order: seq<Receipt>, i: nat)
    requires UniqueNames(s) && AgeSorted(order) && (forall x :: x in order <==> x in s) && i <= |order|
    ensures OldestFirst(s, InactiveNames(order[..i]))
    ensures i == |order| ==> InactiveNames(order[..i]) == InactiveNames(s)
  {
    var gone := InactiveNames(order[..i]);
    forall a, b | a in s && b in s && !a.active && !b.active && Before(a, b) && b.name in gone
      ensures a.name in gone
    {
      var y :| y in order[..i] && !y.active && y.name == b.name;
      assert y in s && y == b;
      var k :| 0 <= k < i && order[k] == b;
      var j :| 0 <= j < |order| && order[j] == a;
      AgeOrder(order, j, k);
      assert order[..i][j] == a;
    }
    if i == |order| {
      assert order[..i] == order;
    }
  }

  /** A listing and its age order. */
  ghost predicate OrderOf(s: seq<Receipt>, order: seq<Receipt>) {
    UniqueNames(s) && AgeSorted(order) && forall x :: x in order <==> x in s
  }

  /** After i receipts of the age order: the removals are minimal, and either take all
      inactive receipts met so far or are enough already. */
  ghost predicate PrunedSoFar(p: Policy, s: seq<Receipt>, order: seq<Receipt>, i: nat, cutoff: int, reserve: bool,
                              gone: set<Name>)
    requires i <= |order|
  {
    && OldestFirst(s, gone) && gone <= InactiveNames(order[..i])
    && (gone == InactiveNames(order[..i]) || Enough(p, s, cutoff, reserve, gone))
    && (forall less :: OldestFirst(s, less) && less < gone ==> !Enough(p, s, cutoff, reserve, less))
  }

  lemma InactiveNamesGrow(order: seq<Receipt>, i: nat)
    requires i < |order|
    ensures InactiveNames(order[..i + 1]) ==
      InactiveNames(order[..i]) + (if order[i].active then {} else {order[i].name})
  {
    assert order[..i + 1] == order[..i] + [order[i]];
  }

  lemma KeepStep(p: Policy, s: seq<Receipt>, order: seq<Receipt>, i: nat, cutoff: int, reserve: bool, gone: set<Name>)
    requires OrderOf(s, order) && i < |order| && PrunedSoFar(p, s, order, i, cutoff, reserve, gone)
    requires order[i].active || (order[i].mtime > cutoff && Fits(p, Keep(s, gone), reserve))
    ensures PrunedSoFar(p, s, order, i + 1, cutoff, reserve, gone)
  {
    InactiveNamesGrow(order, i);
    if !order[i].active && gone == InactiveNames(order[..i]) {
      SkipStep(p, s, order, i, cutoff, reserve, gone);
    }
  }

  lemma NotMetYet(s: seq<Receipt>, order: seq<Receipt>, i: nat)
    requires OrderOf(s, order) && i < |order| && !order[i].active
    ensures order[i] in s && order[i].name !in InactiveNames(order[..i])
  {
    assert order[i] in s;
    forall x | x in order[..i] ensures x.name != order[i].name {
      assert x in order && x in s;
      var j :| 0 <= j < i && order[j] == x;
      assert Before(order[j], order[i]);
    }
  }

  lemma TakeStep(p: Policy, s: seq<Receipt>, order: seq<Receipt>, i: nat, cutoff: int, reserve: bool, gone: set<Name>)
    requires OrderOf(s, order) && i < |order| && PrunedSoFar(p, s, order, i, cutoff, reserve, gone)
    requires !order[i].active && !(order[i].mtime > cutoff && Fits(p, Keep(s, gone), reserve))
    ensures PrunedSoFar(p, s, order, i + 1, cutoff, reserve, gone + {order[i].name})
    ensures order[i] in s && order[i].name !in gone
  {
    NotMetYet(s, order, i);
    InactiveNamesGrow(order, i);
    PruneStep(p, s, order, i, cutoff, reserve, gone);
    PrefixIsOldestFirst(s, order, i + 1);
  }

  lemma StartsPruned(p: Policy, s: seq<Receipt>, order: seq<Receipt>, cutoff: int, reserve: bool)
    ensures PrunedSoFar(p, s, order, 0, cutoff, reserve, {})
  {
  }

  lemma PruneDone(p: Policy, s: seq<Receipt>, order: seq<Receipt>, cutoff: int, reserve: bool, gone: set<Name>)
    requires OrderOf(s, order) && PrunedSoFar(p, s, order, |order|, cutoff, reserve, gone)
    ensures Pruned(p, s, cutoff, reserve, gone)
  {
    PrefixIsOldestFirst(s, order, |order|);
  }

  datatype PruneReport = PruneReport(
    removedFiles: int, removedBytes: int, retainedFiles: int, retainedBytes: int, budgetedBytes: int)

  datatype StoreError = CapacityExhausted | ReceiptTooLarge | NameTaken

  class Store {
    const policy: Policy
    var receipts: seq<Receipt>

    /** Names are unique, no receipt is larger than its reservation, and the books
        stay within both limits. */
    ghost predicate Valid()
      reads this
    {
      PolicyOk(policy) && WithinCapacity(policy, receipts)
    }

    constructor (policy: Policy)
      requires PolicyOk(policy)
      ensures Valid() && receipts == [] && this.policy == policy
    {
      this.policy := policy;
      receipts := [];
    }

    /** prune_receipts. Removals are the shortest oldest-first run that is enough; the
        capacity error is raised exactly when the active receipts and the reservation
        do not fit by themselves; the report adds up. */
    method Prune(cutoff: int, reserve: bool) returns (r: Result<PruneReport, StoreError>, ghost gone: set<Name>)
      requires UniqueNames(receipts)
      modifies this
      ensures Pruned(policy, old(receipts), cutoff, reserve, gone) && receipts == Keep(old(receipts), gone)
      ensures r.Ok? <==> Fits(policy, ActiveOnly(old(receipts)), reserve)
      ensures r.Ok? <==> Fits(policy, receipts, reserve)
      ensures r.Err? ==> r.error == CapacityExhausted && receipts == ActiveOnly(old(receipts))
      ensures r.Ok? ==>
        && r.value.retainedFiles == |receipts| && r.value.removedFiles + r.value.retainedFiles == |old(receipts)|
        && r.value.retainedBytes == Bytes(receipts)
        && r.value.removedBytes + r.value.retainedBytes == Bytes(old(receipts))
        && r.value.budgetedBytes == Budgeted(receipts) + (if reserve then MAX_RECEIPT_BYTES else 0)
    {
      hide PrunedSoFar, Pruned, Keep, Budgeted, Bytes, UniqueNames, AgeSorted, ByAge, ActiveOnly;
      var listing := receipts;
      var extra := if reserve then 1 else 0;
      var count, budgeted := |listing| + extra, Budgeted(listing) + extra * MAX_RECEIPT_BYTES;
      var actual, removed, removedBytes := Bytes(listing), 0, 0;
      var order := ByAge(listing);
      ByAgeSorted(listing);
      gone := {};
      KeepAll(listing);
      StartsPruned(policy, listing, order, cutoff, reserve);
      var i := 0;
      while i < |order|
        invariant i <= |order| && receipts == Keep(listing, gone)
        invariant count == |receipts| + extra && budgeted == Budgeted(receipts) + extra * MAX_RECEIPT_BYTES
        invariant removed == |listing| - |receipts| && removedBytes == actual - Bytes(receipts)
        invariant PrunedSoFar(policy, listing, order, i, cutoff, reserve, gone)
      {
        var info := order[i];
        if info.active || (info.mtime > cutoff && count <= policy.maxFiles && budgeted <= policy.maxBytes) {
          KeepStep(policy, listing, order, i, cutoff, reserve, gone);
        } else {
          TakeStep(policy, listing, order, i, cutoff, reserve, gone);
          Unlink(info, listing, gone);
          gone := gone + {info.name};
          removed, removedBytes := removed + 1, removedBytes + info.size;
          count, budgeted := count - 1, budgeted - info.size;
        }
        i := i + 1;
      }
      PruneDone(policy, listing, order, cutoff, reserve, gone);
      PrunedFits(policy, listing, cutoff, reserve, gone);
      if count > policy.maxFiles || budgeted > policy.maxBytes {
        ExhaustionEvictsAll(policy, listing, cutoff, reserve, gone);
        return Err(CapacityExhausted), gone;
      }
      r := Ok(PruneReport(removed, removedBytes, |listing| - removed, actual - removedBytes, budgeted));
    }

    /** os.unlink of one inactive receipt. */
    method Unlink(info: Receipt, ghost listing: seq<Receipt>, ghost gone: set<Name>)
      requires UniqueNames(listing) && receipts == Keep(listing, gone)
      requires info in listing && info.name !in gone && !info.active
      modifies this
      ensures receipts == Keep(listing, gone + {info.name})
      ensures |receipts| == |old(receipts)| - 1
      ensures Budgeted(receipts) == Budgeted(old(receipts)) - info.size
      ensures Bytes(receipts) == Bytes(old(receipts)) - info.size
    {
      KeepMembers(listing, gone);
      KeepUnique(listing, gone);
      KeepWithoutOne(receipts, info);
      KeepTwice(listing, gone, {info.name});
      receipts := Keep(receipts, {info.name});
    }

    /** Index of the receipt with a given name. */
    method Find(name: Name) returns (i: nat)
      requires UniqueNames(receipts)
      ensures i <= |receipts|
      ensures name in Names(receipts) - InactiveNames(receipts) <==> i < |receipts| && receipts[i].active
      ensures i < |receipts| ==> receipts[i].name == name
      ensures i == |receipts| ==> name !in Names(receipts)
    {
      i := 0;
      while i < |receipts| && receipts[i].name != name
        invariant i <= |receipts|
        invariant forall k :: 0 <= k < i ==> receipts[k].name != name
      {
        i := i + 1;
      }
      if i < |receipts| {
        assert receipts[i] in receipts;
      }
    }

    /** The start of execute_flows: reserve room for a full receipt, then create it. No
        native command may run unless it passes. */
    method Start(name: Name, size: nat, mtime: int, cutoff: int) returns (r: Outcome<StoreError>, ghost gone: set<Name>)
      requires Valid()
      modifies this
      ensures Valid() && Transition(policy, Started(name, size, mtime, cutoff), old(receipts), receipts)
      ensures size > MAX_RECEIPT_BYTES ==> r == Fail(ReceiptTooLarge) && receipts == old(receipts)
      ensures size <= MAX_RECEIPT_BYTES ==> Pruned(policy, old(receipts), cutoff, true, gone)
      ensures size <= MAX_RECEIPT_BYTES ==> (
        r ==
        if !Fits(policy, ActiveOnly(old(receipts)), true) then Fail(CapacityExhausted)
        else if name in Names(Keep(old(receipts), gone)) then Fail(NameTaken)
        else Pass)
      ensures size <= MAX_RECEIPT_BYTES ==> (
        receipts ==
        Keep(old(receipts), gone) + if r.Pass? then [Receipt(name, size, mtime, true)] else [])
      ensures InactiveNames(old(receipts)) == Names(old(receipts)) ==> r != Fail(CapacityExhausted)
    {
      hide Pruned, Keep, Budgeted, UniqueNames, ActiveOnly;
      if size > MAX_RECEIPT_BYTES {
        return Fail(ReceiptTooLarge), {};
      }
      WithinIsUnique(policy, receipts);
      var report;
      report, gone := Prune(cutoff, true);
      PruneKeepsCapacity(policy, old(receipts), gone);
      IdleStoreHasRoom(policy, old(receipts));
      if report.Err? {
        return Fail(CapacityExhausted), gone;
      }
      WithinIsUnique(policy, receipts);
      var at := Find(name);
      if at < |receipts| {
        assert receipts[at] in receipts;
        return Fail(NameTaken), gone;
      }
      CreateKeepsCapacity(policy, receipts, Receipt(name, size, mtime, true));
      receipts := receipts + [Receipt(name, size, mtime, true)];
      r := Pass;
    }

    /** write_receipt by the writer that holds the lock. */
    method Write(name: Name, size: nat, mtime: int) returns (r: Outcome<StoreError>)
      requires Valid()
      modifies this
      ensures Valid() && Transition(policy, Written(name, size, mtime), old(receipts), receipts)
      ensures r == if size > MAX_RECEIPT_BYTES then Fail(ReceiptTooLarge) else Pass
    {
      hide Budgeted, UniqueNames;
      r := Pass;
      if size > MAX_RECEIPT_BYTES {
        return Fail(ReceiptTooLarge);
      }
      WithinIsUnique(policy, receipts);
      var at := Find(name);
      if at < |receipts| && receipts[at].active {
        ReplaceKeepsCapacity(policy, receipts, at, Receipt(name, size, mtime, true));
        receipts := receipts[at := Receipt(name, size, mtime, true)];
      }
    }

    /** Closing the descriptor, at the end of a run or in a crash. */
    method Release(name: Name)
      requires Valid()
      modifies this
      ensures Valid() && Transition(policy, Released(name), old(receipts), receipts)
    {
      hide Budgeted, UniqueNames;
      WithinIsUnique(policy, receipts);
      var at := Find(name);
      if at < |receipts| && receipts[at].active {
        ReplaceKeepsCapacity(policy, receipts, at, receipts[at].(active := false));
        receipts := receipts[at := receipts[at].(active := false)];
      }
    }

    /** Pruning without a reservation, at the end of a run or by cleanup_receipts: the
        capacity error cannot occur. */
    method Cleanup(cutoff: int) returns (r: Result<PruneReport, StoreError>)
      requires Valid()
      modifies this
      ensures Valid() && Transition(policy, Cleaned(cutoff), old(receipts), receipts)
      ensures r.Ok?
    {
      hide Pruned, Keep, Budgeted, UniqueNames;
      WithinIsUnique(policy, receipts);
      ghost var gone;
      r, gone := Prune(cutoff, false);
      PruneKeepsCapacity(policy, old(receipts), gone);
    }

    /** The end of execute_flows: final write, pruning, then closing. */
    method Finish(name: Name, size: nat, mtime: int, cutoff: int) returns (r: Result<PruneReport, StoreError>)
      requires Valid()
      modifies this
      ensures Valid()
      ensures r.Err? <==> size > MAX_RECEIPT_BYTES
      ensures exists s1, s2 ::
        && Transition(policy, Written(name, size, mtime), old(receipts), s1)
        && (if r.Ok? then Transition(policy, Cleaned(cutoff), s1, s2) else s2 == s1)
        && Transition(policy, Released(name), s2, receipts)
    {
      hide Transition;
      var written := Write(name, size, mtime);
      ghost var s1 := receipts;
      if written.Pass? {
        r := Cleanup(cutoff);
      } else {
        r := Err(ReceiptTooLarge);
      }
      ghost var s2 := receipts;
      Release(name);
      assert Transition(policy, Written(name, size, mtime), old(receipts), s1);
    }
  }

  ghost predicate WithinCapacity(p: Policy, s: seq<Receipt>) {
    && UniqueNames(s) && (forall r :: r in s ==> r.size <= MAX_RECEIPT_BYTES) && Fits(p, s, false)
  }

  lemma WithinIsUnique(p: Policy, s: seq<Receipt>)
    requires WithinCapacity(p, s)
    ensures UniqueNames(s)
  {
  }

  lemma PruneKeepsCapacity(p: Policy, s: seq<Receipt>, gone: set<Name>)
    requires WithinCapacity(p, s)
    ensures WithinCapacity(p, Keep(s, gone)) && Fits(p, ActiveOnly(s), false)
  {
    KeepMembers(s, gone);
    KeepUnique(s, gone);
    KeepShrinks(s, {}, gone);
    KeepShrinks(s, {}, InactiveNames(s));
    KeepAll(s);
  }

  /** With no active receipt a full one always fits. */
  lemma IdleStoreHasRoom(p: Policy, s: seq<Receipt>)
    requires PolicyOk(p)
    ensures InactiveNames(s) == Names(s) ==> Fits(p, ActiveOnly(s), true)
  {
    if InactiveNames(s) == Names(s) {
      assert forall r :: r in s ==> r.name in Names(s);
      KeepNothing(s, InactiveNames(s));
    }
  }

  /** A reservation made before creating the receipt covers it. */
  lemma CreateKeepsCapacity(p: Policy, s: seq<Receipt>, r: Receipt)
    requires WithinCapacity(p, s) && Fits(p, s, true)
    requires r.name !in Names(s) && r.active && r.size <= MAX_RECEIPT_BYTES
    ensures WithinCapacity(p, s + [r])
  {
    BudgetAppend(s, r);
    forall i | 0 <= i < |s| ensures s[i].name != r.name {
      assert s[i] in s;
    }
  }

  lemma {:induction false} BudgetReplace(s: seq<Receipt>, i: nat, r: Receipt)
    requires i < |s|
    ensures Budgeted(s[i := r]) == Budgeted(s) - Charge(s[i]) + Charge(r)
  {
    var s' := s[i := r];
    if i < |s| - 1 {
      BudgetReplace(s[..|s| - 1], i, r);
      assert s'[..|s| - 1] == s[..|s| - 1][i := r];
    } else {
      assert s'[..|s| - 1] == s[..|s| - 1];
    }
  }

  /** Writing within the reservation, or releasing it, never raises the charge. */
  lemma ReplaceKeepsCapacity(p: Policy, s: seq<Receipt>, i: nat, r: Receipt)
    requires WithinCapacity(p, s) && i < |s| && s[i].active
    requires r.name == s[i].name && r.size <= MAX_RECEIPT_BYTES
    ensures WithinCapacity(p, s[i := r])
  {
    BudgetReplace(s, i, r);
    var s' := s[i := r];
    forall x | x in s' ensures x.size <= MAX_RECEIPT_BYTES {
      assert x == r || x in s;
    }
  }

  // ------------------------------------------------------------ whole runs

  datatype Action =
    | Started(name: Name, size: nat, mtime: int, cutoff: int)
    | Written(name: Name, size: nat, mtime: int)
    | Released(name: Name)
    | Cleaned(cutoff: int)

  /** The listing after its active receipt of that name, if any, became r (or, without
      r, inactive). */
  ghost predicate ActiveBecomes(s: seq<Receipt>, name: Name, r: Option<Receipt>, s': seq<Receipt>) {
    if name in Names(s) - InactiveNames(s) then
      exists i :: 0 <= i < |s| && s[i].name == name && s[i].active
        && s' == s[i := if r.Some? then r.value else s[i].(active := false)]
    else s' == s
  }

  /** One step by any writer, or by a cleanup, under the store lock. */
  ghost predicate Transition(p: Policy, a: Action, s: seq<Receipt>, s': seq<Receipt>) {
    match a
    case Started(name, size, mtime, cutoff) =>
      if size > MAX_RECEIPT_BYTES then s' == s
      else exists gone ::
        && Pruned(p, s, cutoff, true, gone)
        && s' == if Fits(p, ActiveOnly(s), true) && name !in Names(Keep(s, gone))
                 then Keep(s, gone) + [Receipt(name, size, mtime, true)]
                 else Keep(s, gone)
    case Written(name, size, mtime) =>
      if size > MAX_RECEIPT_BYTES then s' == s
      else ActiveBecomes(s, name, Some(Receipt(name, size, mtime, true)), s')
    case Released(name) => ActiveBecomes(s, name, None, s')
    case Cleaned(cutoff) =>
      exists gone :: Pruned(p, s, cutoff, false, gone) && s' == Keep(s, gone)
  }

  /** Every step keeps the books within both limits. */
  lemma TransitionKeepsCapacity(p: Policy, a: Action, s: seq<Receipt>, s': seq<Receipt>)
    requires WithinCapacity(p, s) && Transition(p, a, s, s')
    ensures WithinCapacity(p, s')
  {
    hide Pruned, Keep, Budgeted;
    match a
    case Started(name, size, mtime, cutoff) =>
      if size <= MAX_RECEIPT_BYTES {
        var gone :| Pruned(p, s, cutoff, true, gone)
          && s' == if Fits(p, ActiveOnly(s), true) && name !in Names(Keep(s, gone))
                   then Keep(s, gone) + [Receipt(name, size, mtime, true)]
                   else Keep(s, gone);
        PruneKeepsCapacity(p, s, gone);
        PrunedFits(p, s, cutoff, true, gone);
        if s' != Keep(s, gone) {
          CreateKeepsCapacity(p, Keep(s, gone), Receipt(name, size, mtime, true));
        }
      }
    case Written(name, size, mtime) =>
      if s' != s {
        var i :| 0 <= i < |s| && s[i].name == name && s[i].active && s' == s[i := Receipt(name, size, mtime, true)];
        ReplaceKeepsCapacity(p, s, i, Receipt(name, size, mtime, true));
      }
    case Released(name) =>
      if s' != s {
        var i :| 0 <= i < |s| && s[i].name == name && s[i].active && s' == s[i := s[i].(active := false)];
        ReplaceKeepsCapacity(p, s, i, s[i].(active := false));
      }
    case Cleaned(cutoff) =>
      var gone :| Pruned(p, s, cutoff, false, gone) && s' == Keep(s, gone);
      PruneKeepsCapacity(p, s, gone);
  }

  /** No step of another writer or of a cleanup touches an active receipt. */
  lemma TransitionKeepsActive(p: Policy, a: Action, s: seq<Receipt>, s': seq<Receipt>, r: Receipt)
    requires UniqueNames(s) && Transition(p, a, s, s')
    requires r in s && r.active
    requires a.Written? || a.Released? ==> a.name != r.name
    ensures r in s'
  {
    hide Budgeted;
    match a
    case Started(name, size, mtime, cutoff) =>
      if size <= MAX_RECEIPT_BYTES {
        var gone :| Pruned(p, s, cutoff, true, gone)
          && s' == if Fits(p, ActiveOnly(s), true) && name !in Names(Keep(s, gone))
                   then Keep(s, gone) + [Receipt(name, size, mtime, true)]
                   else Keep(s, gone);
        KeepMembers(s, gone);
        ActiveIsNotListed(s, r);
      }
    case Written(name, size, mtime) =>
      var j :| 0 <= j < |s| && s[j] == r;
      if s' != s {
        var i :| 0 <= i < |s| && s[i].name == name && s' == s[i := Receipt(name, size, mtime, true)];
        assert s'[j] == r;
      }
    case Released(name) =>
      var j :| 0 <= j < |s| && s[j] == r;
      if s' != s {
        var i :| 0 <= i < |s| && s[i].name == name && s' == s[i := s[i].(active := false)];
        assert s'[j] == r;
      }
    case Cleaned(cutoff) =>
      var gone :| Pruned(p, s, cutoff, false, gone) && s' == Keep(s, gone);
      KeepMembers(s, gone);
      ActiveIsNotListed(s, r);
  }

  lemma ActiveIsNotListed(s: seq<Receipt>, r: Receipt)
    requires UniqueNames(s) && r in s && r.active
    ensures r.name !in InactiveNames(s)
  {
  }

  /** A run of the store: the states between consecutive steps, from empty. */
  ghost predicate IsRun(p: Policy, actions: seq<Action>, states: seq<seq<Receipt>>) {
    && |states| == |actions| + 1 && states[0] == []
    && forall i :: 0 <= i < |actions| ==> Transition(p, actions[i], states[i], states[i + 1])
  }

  /** Main result: with any number of writers starting, writing, finishing and crashing
      in any order, every reachable state keeps both limits, and pruning without a
      reservation always has room. */
  lemma {:induction false} RunKeepsCapacity(p: Policy, actions: seq<Action>, states: seq<seq<Receipt>>, k: nat)
    requires PolicyOk(p) && IsRun(p, actions, states) && k < |states|
    ensures WithinCapacity(p, states[k])
    ensures Fits(p, ActiveOnly(states[k]), false)
  {
    if k > 0 {
      RunKeepsCapacity(p, actions, states, k - 1);
      TransitionKeepsCapacity(p, actions[k - 1], states[k - 1], states[k]);
    }
    PruneKeepsCapacity(p, states[k], {});
  }

  /** An exhausted store has already evicted everything it may evict. */
  lemma ExhaustionEvictsAll(p: Policy, s: seq<Receipt>, cutoff: int, reserve: bool, gone: set<Name>)
    requires Pruned(p, s, cutoff, reserve, gone) && !Fits(p, Keep(s, gone), reserve)
    ensures Keep(s, gone) == ActiveOnly(s)
  {
  }
}
