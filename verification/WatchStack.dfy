/** Ordering a stack of open pull requests (watch-pr/github.ts: orderStack): down the
    base links from the given one, then depth first up its dependents. */
module WatchStack {
  import opened Common

  datatype OpenPr = OpenPr(number: int, head: string, base: string)

  // ---------------------------------------------------------------- indexes

  /** byHead.get: a later row replaces an earlier one with its head. */
  function ByHead(open: seq<OpenPr>, head: string): Option<OpenPr> {
    if open == [] then None
    else if open[|open| - 1].head == head then Some(open[|open| - 1]) else ByHead(open[..|open| - 1], head)
  }

  function ByNumber(open: seq<OpenPr>, number: int): Option<OpenPr> {
    if open == [] then None
    else if open[|open| - 1].number == number then Some(open[|open| - 1]) else ByNumber(open[..|open| - 1], number)
  }

  lemma {:induction false} ByHeadMeans(open: seq<OpenPr>, head: string)
    ensures ByHead(open, head).Some? ==> ByHead(open, head).value in open && ByHead(open, head).value.head == head
    ensures ByHead(open, head).None? ==> forall pr :: pr in open ==> pr.head != head
  {
    if open != [] {
      ByHeadMeans(open[..|open| - 1], head);
      assert open == open[..|open| - 1] + [open[|open| - 1]];
    }
  }

  lemma {:induction false} ByNumberMeans(open: seq<OpenPr>, number: int)
    ensures ByNumber(open, number).Some? ==>
      ByNumber(open, number).value in open && ByNumber(open, number).value.number == number
    ensures ByNumber(open, number).None? ==> forall pr :: pr in open ==> pr.number != number
  {
    if open != [] {
      ByNumberMeans(open[..|open| - 1], number);
      assert open == open[..|open| - 1] + [open[|open| - 1]];
    }
  }

  /** The map by head holds the last row of each head. */
  lemma {:induction false} ByHeadIsLast(open: seq<OpenPr>, head: string) returns (i: nat)
    requires ByHead(open, head).Some?
    ensures i < |open| && ByHead(open, head) == Some(open[i]) && open[i].head == head
    ensures forall j :: i < j < |open| ==> open[j].head != head
  {
    i := |open| - 1;
    if open[i].head != head {
      i := ByHeadIsLast(open[..|open| - 1], head);
    }
  }

  lemma {:induction false} ByNumberIsLast(open: seq<OpenPr>, number: int) returns (i: nat)
    requires ByNumber(open, number).Some?
    ensures i < |open| && ByNumber(open, number) == Some(open[i]) && open[i].number == number
    ensures forall j :: i < j < |open| ==> open[j].number != number
  {
    i := |open| - 1;
    if open[i].number != number {
      i := ByNumberIsLast(open[..|open| - 1], number);
    }
  }

  function Insert(pr: OpenPr, sorted: seq<OpenPr>): seq<OpenPr> {
    if sorted == [] || pr.number < sorted[0].number then [pr] + sorted else [sorted[0]] + Insert(pr, sorted[1..])
  }

  /** children.get: the rows on a branch, by number. */
  function Children(open: seq<OpenPr>, branch: string): seq<OpenPr> {
    if open == [] then []
    else
      var rest, last := Children(open[..|open| - 1], branch), open[|open| - 1];
      if last.base == branch then Insert(last, rest) else rest
  }

  ghost predicate Ascending(s: seq<OpenPr>) {
    forall i, j :: 0 <= i < j < |s| ==> s[i].number <= s[j].number
  }

  lemma {:induction false} InsertFacts(pr: OpenPr, sorted: seq<OpenPr>)
    requires Ascending(sorted)
    ensures Ascending(Insert(pr, sorted))
    ensures forall x :: x in Insert(pr, sorted) <==> x == pr || x in sorted
  {
    if sorted != [] && pr.number >= sorted[0].number {
      var rest := Insert(pr, sorted[1..]);
      InsertFacts(pr, sorted[1..]);
      assert sorted == [sorted[0]] + sorted[1..];
      forall j | 0 <= j < |rest| ensures sorted[0].number <= rest[j].number {
        assert rest[j] in rest;
      }
    }
  }

  lemma {:induction false} ChildrenFacts(open: seq<OpenPr>, branch: string)
    ensures Ascending(Children(open, branch))
    ensures forall x :: x in Children(open, branch) <==> x in open && x.base == branch
  {
    if open != [] {
      var front, last := open[..|open| - 1], open[|open| - 1];
      ChildrenFacts(front, branch);
      InsertFacts(last, Children(front, branch));
      assert open == front + [last];
    }
  }

  // -------------------------------------------------------------- the order

  function Numbers(prs: seq<OpenPr>): set<int> {
    set pr | pr in prs :: pr.number
  }

  lemma NumbersHold(prs: seq<OpenPr>, pr: OpenPr)
    requires pr in prs
    ensures pr.number in Numbers(prs)
  {
  }

  lemma NumbersAppend(a: seq<OpenPr>, b: seq<OpenPr>)
    ensures Numbers(a + b) == Numbers(a) + Numbers(b)
  {
  }

  /** What visiting the dependents of a branch, from its i-th on, adds to the order. */
  ghost function Above(open: seq<OpenPr>, branch: string, i: nat, seen: set<int>): (r: seq<OpenPr>)
    requires i <= |Children(open, branch)|
    ensures Numbers(r) !! seen
    decreases Numbers(open) - seen, |Children(open, branch)| - i
  {
    ChildrenFacts(open, branch);
    var children := Children(open, branch);
    if i == |children| then []
    else if children[i].number in seen then Above(open, branch, i + 1, seen)
    else
      var child := children[i];
      NumbersHold(open, child);
      var sub := Above(open, child.head, 0, seen + {child.number});
      var rest := Above(open, branch, i + 1, seen + {child.number} + Numbers(sub));
      NumbersAppend([child] + sub, rest);
      NumbersAppend([child], sub);
      [child] + sub + rest
  }

  /** Nothing is listed twice, and everything listed is open. */
  lemma {:induction false} AboveIsDistinct(open: seq<OpenPr>, branch: string, i: nat, seen: set<int>)
    requires i <= |Children(open, branch)|
    ensures var r := Above(open, branch, i, seen);
            DistinctNumbers(r) && forall j :: 0 <= j < |r| ==> r[j] in open && r[j].number !in seen
    decreases Numbers(open) - seen, |Children(open, branch)| - i
  {
    hide Children, Numbers;
    ChildrenFacts(open, branch);
    var children := Children(open, branch);
    if i < |children| {
      var child := children[i];
      if child.number in seen {
        AboveIsDistinct(open, branch, i + 1, seen);
      } else {
        NumbersHold(open, child);
        var seen1 := seen + {child.number};
        var sub := Above(open, child.head, 0, seen1);
        AboveIsDistinct(open, child.head, 0, seen1);
        var rest := Above(open, branch, i + 1, seen1 + Numbers(sub));
        AboveIsDistinct(open, branch, i + 1, seen1 + Numbers(sub));
        assert child in children;
        DistinctParts(child, sub, rest, seen);
      }
    }
  }

  lemma DistinctParts(child: OpenPr, sub: seq<OpenPr>, rest: seq<OpenPr>, seen: set<int>)
    requires DistinctNumbers(sub) && forall j :: 0 <= j < |sub| ==> sub[j].number !in seen + {child.number}
    requires DistinctNumbers(rest) && forall j :: 0 <= j < |rest| ==>
      rest[j].number !in seen + {child.number} + Numbers(sub)
    ensures DistinctNumbers([child] + sub + rest)
  {
    forall j | 0 <= j < |sub| ensures sub[j].number in Numbers(sub) {
      NumbersHold(sub, sub[j]);
    }
    hide Numbers;
  }

  ghost predicate DistinctNumbers(prs: seq<OpenPr>) {
    forall i, j :: 0 <= i < j < |prs| ==> prs[i].number != prs[j].number
  }

  /** Every dependent of a listed one is seen. */
  ghost predicate Closed(open: seq<OpenPr>, r: seq<OpenPr>, seen: set<int>) {
    forall x, c :: x in r && c in open && c.base == x.head ==> c.number in seen
  }

  /** The visit reaches every dependent, direct or not. */
  lemma {:induction false} AboveIsClosed(open: seq<OpenPr>, branch: string, i: nat, seen: set<int>)
    requires i <= |Children(open, branch)|
    ensures var r := Above(open, branch, i, seen);
            && Closed(open, r, seen + Numbers(r))
            && forall k :: i <= k < |Children(open, branch)| ==> Children(open, branch)[k].number in seen + Numbers(r)
    decreases Numbers(open) - seen, |Children(open, branch)| - i
  {
    hide Children, Numbers, Closed;
    NothingIsClosed(open, seen);
    ChildrenFacts(open, branch);
    var children := Children(open, branch);
    if i < |children| {
      var child := children[i];
      if child.number in seen {
        AboveIsClosed(open, branch, i + 1, seen);
      } else {
        NumbersHold(open, child);
        var seen1 := seen + {child.number};
        var sub := Above(open, child.head, 0, seen1);
        AboveIsClosed(open, child.head, 0, seen1);
        var seen2 := seen1 + Numbers(sub);
        var rest := Above(open, branch, i + 1, seen2);
        AboveIsClosed(open, branch, i + 1, seen2);
        NumbersAppend([child] + sub, rest);
        NumbersAppend([child], sub);
        OneNumber(child);
        ClosedParts(open, child, sub, rest, seen);
      }
    }
  }

  lemma NothingIsClosed(open: seq<OpenPr>, seen: set<int>)
    ensures Closed(open, [], seen + Numbers([]))
  {
  }

  lemma ClosedParts(open: seq<OpenPr>, child: OpenPr, sub: seq<OpenPr>, rest: seq<OpenPr>, seen: set<int>)
    requires Closed(open, sub, seen + {child.number} + Numbers(sub))
    requires Closed(open, rest, seen + {child.number} + Numbers(sub) + Numbers(rest))
    requires forall k :: 0 <= k < |Children(open, child.head)| ==>
      Children(open, child.head)[k].number in seen + {child.number} + Numbers(sub)
    ensures Closed(open, [child] + sub + rest, seen + Numbers([child] + sub + rest))
  {
    hide Numbers, Children;
    NumbersAppend([child] + sub, rest);
    NumbersAppend([child], sub);
    NumbersHold([child], child);
    ChildrenFacts(open, child.head);
    assert forall c :: c in open && c.base == child.head ==> c in Children(open, child.head);
    assert forall x :: x in [child] + sub + rest <==> x == child || x in sub || x in rest;
  }

  /** Each one listed is on the branch or on an earlier one listed. */
  ghost predicate Grounded(r: seq<OpenPr>, branch: string) {
    forall j :: 0 <= j < |r| ==> r[j].base == branch || exists k :: 0 <= k < j && r[k].head == r[j].base
  }

  lemma {:induction false} AboveIsGrounded(open: seq<OpenPr>, branch: string, i: nat, seen: set<int>)
    requires i <= |Children(open, branch)|
    ensures Grounded(Above(open, branch, i, seen), branch)
    decreases Numbers(open) - seen, |Children(open, branch)| - i
  {
    hide Children;
    ChildrenFacts(open, branch);
    var children := Children(open, branch);
    if i < |children| {
      var child := children[i];
      if child.number in seen {
        AboveIsGrounded(open, branch, i + 1, seen);
      } else {
        NumbersHold(open, child);
        var seen1 := seen + {child.number};
        var sub := Above(open, child.head, 0, seen1);
        AboveIsGrounded(open, child.head, 0, seen1);
        var rest := Above(open, branch, i + 1, seen1 + Numbers(sub));
        AboveIsGrounded(open, branch, i + 1, seen1 + Numbers(sub));
        assert child in children;
        GroundedParts(child, sub, rest, branch);
      }
    }
  }

  lemma GroundedParts(child: OpenPr, sub: seq<OpenPr>, rest: seq<OpenPr>, branch: string)
    requires child.base == branch && Grounded(sub, child.head) && Grounded(rest, branch)
    ensures Grounded([child] + sub + rest, branch)
  {
    var r := [child] + sub + rest;
    var n := 1 + |sub|;
    forall j | 0 <= j < |r| ensures r[j].base == branch || exists k :: 0 <= k < j && r[k].head == r[j].base {
      if 0 < j < n {
        assert r[j] == sub[j - 1];
        if sub[j - 1].base == child.head {
          assert r[0].head == r[j].base;
        } else {
          var k :| 0 <= k < j - 1 && sub[k].head == sub[j - 1].base;
          assert r[k + 1] == sub[k];
        }
      } else if j >= n && r[j].base != branch {
        assert r[j] == rest[j - n];
        var k :| 0 <= k < j - n && rest[k].head == rest[j - n].base;
        assert r[k + n] == rest[k];
      }
    }
  }

  /** Dependents of one branch come by number: the smaller ones are seen before. */
  ghost predicate SiblingsAscend(open: seq<OpenPr>, r: seq<OpenPr>, seen: set<int>) {
    forall j, x :: 0 <= j < |r| && x in open && x.base == r[j].base && x.number < r[j].number ==>
      x.number in seen + Numbers(r[..j])
  }

  lemma SmallerAreEarlier(open: seq<OpenPr>, branch: string, i: nat, seen: set<int>)
    requires i < |Children(open, branch)|
    requires forall k :: 0 <= k < i ==> Children(open, branch)[k].number in seen
    ensures forall x :: x in open && x.base == branch && x.number < Children(open, branch)[i].number ==>
      x.number in seen
  {
    hide Children;
    ChildrenFacts(open, branch);
    var children := Children(open, branch);
    forall x | x in open && x.base == branch && x.number < children[i].number ensures x.number in seen {
      assert x in children;
      var k :| 0 <= k < |children| && children[k] == x;
      assert k < i;
    }
  }

  lemma {:induction false} AboveAscends(open: seq<OpenPr>, branch: string, i: nat, seen: set<int>)
    requires i <= |Children(open, branch)|
    requires forall k :: 0 <= k < i ==> Children(open, branch)[k].number in seen
    ensures SiblingsAscend(open, Above(open, branch, i, seen), seen)
    decreases Numbers(open) - seen, |Children(open, branch)| - i
  {
    hide Children, SiblingsAscend, Numbers;
    ChildrenFacts(open, branch);
    var children := Children(open, branch);
    if i == |children| {
      NothingAscends(open, seen);
    } else {
      var child := children[i];
      if child.number in seen {
        AboveAscends(open, branch, i + 1, seen);
      } else {
        NumbersHold(open, child);
        var seen1 := seen + {child.number};
        var sub := Above(open, child.head, 0, seen1);
        AboveAscends(open, child.head, 0, seen1);
        var rest := Above(open, branch, i + 1, seen1 + Numbers(sub));
        AboveAscends(open, branch, i + 1, seen1 + Numbers(sub));
        SmallerAreEarlier(open, branch, i, seen);
        assert child in children;
        AscendParts(open, child, sub, rest, seen);
      }
    }
  }

  lemma NothingAscends(open: seq<OpenPr>, seen: set<int>)
    ensures SiblingsAscend(open, [], seen)
  {
  }

  lemma AscendParts(open: seq<OpenPr>, child: OpenPr, sub: seq<OpenPr>, rest: seq<OpenPr>, seen: set<int>)
    requires forall x :: x in open && x.base == child.base && x.number < child.number ==> x.number in seen
    requires SiblingsAscend(open, sub, seen + {child.number})
    requires SiblingsAscend(open, rest, seen + {child.number} + Numbers(sub))
    ensures SiblingsAscend(open, [child] + sub + rest, seen)
  {
    hide Numbers;
    var r, n := [child] + sub + rest, 1 + |sub|;
    forall j, x | 0 <= j < |r| && x in open && x.base == r[j].base && x.number < r[j].number
      ensures x.number in seen + Numbers(r[..j])
    {
      OneNumber(child);
      if 0 < j < n {
        assert r[j] == sub[j - 1] && r[..j] == [child] + sub[..j - 1];
        NumbersAppend([child], sub[..j - 1]);
      } else if j >= n {
        assert r[j] == rest[j - n] && r[..j] == [child] + sub + rest[..j - n];
        NumbersAppend([child] + sub, rest[..j - n]);
        NumbersAppend([child], sub);
      }
    }
  }

  lemma OneNumber(pr: OpenPr)
    ensures Numbers([pr]) == {pr.number}
  {
  }

  // --------------------------------------------------------------- the visit

  class StackWalk {
    const open: seq<OpenPr>
    var seen: set<int>
    var up: seq<OpenPr>

    constructor (open: seq<OpenPr>, seen: set<int>)
      ensures this.open == open && this.seen == seen && up == []
    {
      this.open, this.seen, this.up := open, seen, [];
    }

    /** visit, on the parent's branch */
    method Visit(branch: string)
      modifies this
      ensures var added := Above(open, branch, 0, old(seen));
              up == old(up) + added && seen == old(seen) + Numbers(added)
      decreases Numbers(open) - seen
    {
      hide Children, Numbers, Above;
      ghost var before, found := up, seen;
      var children := Children(open, branch);
      ChildrenFacts(open, branch);
      var i := 0;
      assert up + Above(open, branch, 0, seen) == before + Above(open, branch, 0, found);
      while i < |children|
        invariant i <= |children| && found <= seen
        invariant up + Above(open, branch, i, seen) == before + Above(open, branch, 0, found)
        invariant seen + Numbers(Above(open, branch, i, seen)) == found + Numbers(Above(open, branch, 0, found))
      {
        var child := children[i];
        if child.number in seen {
          AboveSkips(open, branch, i, seen);
        } else {
          NumbersHold(open, child);
          AboveVisits(open, branch, i, seen);
          ghost var was := up;
          seen := seen + {child.number};
          up := up + [child];
          ghost var sub := Above(open, child.head, 0, seen);
          Visit(child.head);
          assert up == was + ([child] + sub);
        }
        i := i + 1;
      }
      AboveEnds(open, branch, seen);
      assert up + [] == up;
    }
  }

  lemma AboveSkips(open: seq<OpenPr>, branch: string, i: nat, seen: set<int>)
    requires i < |Children(open, branch)| && Children(open, branch)[i].number in seen
    ensures Above(open, branch, i, seen) == Above(open, branch, i + 1, seen)
  {
  }

  lemma AboveVisits(open: seq<OpenPr>, branch: string, i: nat, seen: set<int>)
    requires i < |Children(open, branch)| && Children(open, branch)[i].number !in seen
    ensures var child := Children(open, branch)[i];
            var sub := Above(open, child.head, 0, seen + {child.number});
            var rest := Above(open, branch, i + 1, seen + {child.number} + Numbers(sub));
            && Above(open, branch, i, seen) == [child] + sub + rest
            && Numbers(Above(open, branch, i, seen)) == {child.number} + Numbers(sub) + Numbers(rest)
  {
    hide Numbers;
    var child := Children(open, branch)[i];
    var sub := Above(open, child.head, 0, seen + {child.number});
    var rest := Above(open, branch, i + 1, seen + {child.number} + Numbers(sub));
    NumbersAppend([child] + sub, rest);
    NumbersAppend([child], sub);
    OneNumber(child);
  }

  lemma AboveEnds(open: seq<OpenPr>, branch: string, seen: set<int>)
    ensures Above(open, branch, |Children(open, branch)|, seen) == []
    ensures Numbers([]) == {}
  {
  }

  // ------------------------------------------------------------- base links

  /** Rows that each stand on the one before. */
  ghost predicate IsPath(open: seq<OpenPr>, p: seq<OpenPr>) {
    && p != [] && (forall i :: 0 <= i < |p| ==> p[i] in open)
    && (forall i :: 0 < i < |p| ==> p[i].base == p[i - 1].head)
  }

  /** Base links from a row back to itself. */
  ghost predicate IsCycle(open: seq<OpenPr>, p: seq<OpenPr>) {
    IsPath(open, p) && p[0].base == p[|p| - 1].head
  }

  ghost predicate NoCycles(open: seq<OpenPr>) {
    forall p :: !IsCycle(open, p)
  }

  lemma JoinPaths(open: seq<OpenPr>, p: seq<OpenPr>, q: seq<OpenPr>)
    requires IsPath(open, p) && IsPath(open, q) && q[0].base == p[|p| - 1].head
    ensures IsPath(open, p + q) && (p + q)[0] == p[0] && (p + q)[|p + q| - 1] == q[|q| - 1]
  {
    var r, n := p + q, |p|;
    forall i | 0 <= i < |r| ensures r[i] in open && (i > 0 ==> r[i].base == r[i - 1].head) {
      if i < n {
        assert r[i] == p[i] && (i > 0 ==> r[i - 1] == p[i - 1]);
      } else {
        assert r[i] == q[i - n] && (i > n ==> r[i - 1] == q[i - n - 1]);
      }
    }
  }

  // ---------------------------------------------------------------- the stack

  /** The walk down: from the start, each time to the row that byHead holds for the base,
      until the base is no open head. Listed from the bottom. */
  ghost predicate IsDescent(open: seq<OpenPr>, start: OpenPr, down: seq<OpenPr>) {
    && IsPath(open, down) && down[|down| - 1] == start && ByHead(open, down[0].base).None?
    && (forall i :: 0 < i < |down| ==> ByHead(open, down[i].base) == Some(down[i - 1]))
  }

  ghost predicate Descends(open: seq<OpenPr>, start: OpenPr) {
    exists down :: IsDescent(open, start, down)
  }

  /** The part of a walk down that has been seen. */
  ghost predicate PartOfDescent(open: seq<OpenPr>, start: OpenPr, chain: seq<OpenPr>) {
    && IsPath(open, chain) && chain[|chain| - 1] == start
    && (forall i :: 0 < i < |chain| ==> ByHead(open, chain[i].base) == Some(chain[i - 1]))
  }

  /** The walk down is forced. */
  lemma {:induction false} PartIsSuffix(open: seq<OpenPr>, start: OpenPr, chain: seq<OpenPr>, down: seq<OpenPr>)
    requires PartOfDescent(open, start, chain) && IsDescent(open, start, down)
    ensures |chain| <= |down| && chain == down[|down| - |chain|..]
    decreases |chain|
  {
    if |chain| > 1 {
      PartIsSuffix(open, start, chain[1..], down);
      var j := |down| - |chain| + 1;
      assert down[j] == chain[1..][0] == chain[1];
      assert ByHead(open, chain[1].base) == Some(chain[0]);
    }
  }

  /** A walk down that ends meets no row twice. */
  lemma {:induction false} DescentIsDistinct(open: seq<OpenPr>, start: OpenPr, down: seq<OpenPr>, i: nat, j: nat)
    requires IsDescent(open, start, down) && i < j < |down|
    ensures down[i] != down[j]
    decreases i
  {
    assert ByHead(open, down[j].base) == Some(down[j - 1]);
    if i > 0 {
      DescentIsDistinct(open, start, down, i - 1, j - 1);
      assert ByHead(open, down[i].base) == Some(down[i - 1]);
    }
  }

  lemma ExtendDescent(open: seq<OpenPr>, start: OpenPr, chain: seq<OpenPr>)
    requires PartOfDescent(open, start, chain) && ByHead(open, chain[0].base).Some?
    ensures PartOfDescent(open, start, [ByHead(open, chain[0].base).value] + chain)
  {
    var parent := ByHead(open, chain[0].base).value;
    ByHeadMeans(open, chain[0].base);
    JoinPaths(open, [parent], chain);
    var longer := [parent] + chain;
    forall i | 0 < i < |longer| ensures ByHead(open, longer[i].base) == Some(longer[i - 1]) {
      assert longer[i] == chain[i - 1] && (i > 1 ==> longer[i - 1] == chain[i - 2]);
    }
  }

  /** Without cyclic base links the walk down never meets a row again, */
  lemma ParentIsNew(open: seq<OpenPr>, start: OpenPr, chain: seq<OpenPr>, parent: OpenPr)
    requires NoCycles(open) && PartOfDescent(open, start, chain)
    requires parent in open && parent.head == chain[0].base
    ensures parent !in chain
  {
    forall i | 0 <= i < |chain| ensures chain[i] != parent {
      var p := chain[..i + 1];
      assert p[0] == chain[0] && p[i] == chain[i] && !IsCycle(open, p);
      assert p[0].base != p[i].head;
    }
  }

  /** and so it ends. */
  lemma {:induction false} AcyclicDescends(open: seq<OpenPr>, start: OpenPr, chain: seq<OpenPr>)
    requires NoCycles(open) && PartOfDescent(open, start, chain) && Distinct(chain)
    ensures Descends(open, start)
    decreases |Elements(open)| - |chain|
  {
    hide NoCycles;
    if ByHead(open, chain[0].base).None? {
      assert IsDescent(open, start, chain);
    } else {
      var parent := ByHead(open, chain[0].base).value;
      ByHeadMeans(open, chain[0].base);
      ParentIsNew(open, start, chain, parent);
      ExtendDescent(open, start, chain);
      var longer := [parent] + chain;
      DistinctIffSize(longer);
      SubsetSize(Elements(longer), Elements(open));
      AcyclicDescends(open, start, longer);
    }
  }

  /** The stack of a start row: everything it stands on, then everything on it. */
  ghost predicate IsStack(open: seq<OpenPr>, start: OpenPr, down: seq<OpenPr>, up: seq<OpenPr>) {
    IsDescent(open, start, down) && up == Above(open, start.head, 0, Numbers(down))
  }

  /** Row numbers are not reused. */
  ghost predicate UniqueNumbers(open: seq<OpenPr>) {
    forall x, y :: x in open && y in open && x.number == y.number ==> x == y
  }

  lemma StackIsDistinct(open: seq<OpenPr>, start: OpenPr, down: seq<OpenPr>, up: seq<OpenPr>)
    requires UniqueNumbers(open) && IsStack(open, start, down, up)
    ensures DistinctNumbers(down + up) && forall i :: 0 <= i < |down + up| ==> (down + up)[i] in open
  {
    hide Numbers, Above, ByHead;
    AboveIsDistinct(open, start.head, 0, Numbers(down));
    forall i | 0 <= i < |down| ensures down[i].number in Numbers(down) && down[i] in open {
      NumbersHold(down, down[i]);
    }
    var all := down + up;
    forall i, j | 0 <= i < j < |all| ensures all[i].number != all[j].number {
      if j < |down| {
        DescentIsDistinct(open, start, down, i, j);
      }
    }
  }

  ghost predicate OnEarlier(all: seq<OpenPr>, j: nat)
    requires j < |all|
  {
    exists k :: 0 <= k < j && all[k].head == all[j].base
  }

  /** Every row but the first stands on an earlier one. */
  lemma StackIsGrounded(open: seq<OpenPr>, start: OpenPr, down: seq<OpenPr>, up: seq<OpenPr>)
    requires IsStack(open, start, down, up)
    ensures forall j :: 0 < j < |down + up| ==> OnEarlier(down + up, j)
  {
    hide Numbers, Above, ByHead;
    AboveIsGrounded(open, start.head, 0, Numbers(down));
    var all, n := down + up, |down|;
    forall j | 0 < j < |all| ensures OnEarlier(all, j) {
      if j < n {
        assert all[j - 1].head == all[j].base;
      } else if all[j].base == start.head {
        assert all[n - 1].head == all[j].base;
      } else {
        assert all[j] == up[j - n];
        var k :| 0 <= k < j - n && up[k].head == up[j - n].base;
        assert all[k + n] == up[k];
      }
    }
  }

  /** The stack leaves nothing out: a dependent of the start or of any row above it is listed. */
  lemma StackIsClosed(open: seq<OpenPr>, start: OpenPr, down: seq<OpenPr>, up: seq<OpenPr>)
    requires UniqueNumbers(open) && IsStack(open, start, down, up)
    ensures forall x, c :: (x == start || x in up) && c in open && c.base == x.head ==> c in down + up
  {
    hide Above, Children, ByHead;
    AboveIsClosed(open, start.head, 0, Numbers(down));
    AboveIsDistinct(open, start.head, 0, Numbers(down));
    ChildrenFacts(open, start.head);
    forall x, c | (x == start || x in up) && c in open && c.base == x.head ensures c in down + up {
      if x == start {
        assert c in Children(open, start.head);
      }
      assert c.number in Numbers(down) + Numbers(up);
      var same :| same in down + up && same.number == c.number;
      assert same in open;
    }
  }

  // ------------------------------------------------- bases before dependents

  /** x is the start or stands on it, directly or not. */
  ghost predicate StandsOn(open: seq<OpenPr>, start: OpenPr, x: OpenPr) {
    exists p :: IsPath(open, p) && p[0] == start && p[|p| - 1] == x
  }

  /** No two rows from the start upwards share a head that some open row is based on. */
  ghost predicate OneRowPerBase(open: seq<OpenPr>, start: OpenPr) {
    forall x, y, c ::
      StandsOn(open, start, x) && StandsOn(open, start, y) && x.head == y.head && c in open && c.base == x.head
      ==> x == y
  }

  ghost predicate BasesFirst(all: seq<OpenPr>) {
    forall i, j :: 0 <= i < |all| && 0 <= j < |all| && all[j].base == all[i].head ==> i < j
  }

  /** A grounded list gives a path up from its branch to each of its rows. */
  lemma {:induction false} PathTo(open: seq<OpenPr>, r: seq<OpenPr>, branch: string, j: nat) returns (p: seq<OpenPr>)
    requires Grounded(r, branch) && j < |r| && forall i :: 0 <= i < |r| ==> r[i] in open
    ensures IsPath(open, p) && p[0].base == branch && p[|p| - 1] == r[j]
    decreases j
  {
    p := [r[j]];
    if r[j].base != branch {
      var k :| 0 <= k < j && r[k].head == r[j].base;
      var q := PathTo(open, r, branch, k);
      JoinPaths(open, q, p);
      p := q + p;
    }
  }

  /** Of two rows that share a head, the later one comes after everything on it. */
  ghost predicate SharedSettled(open: seq<OpenPr>, r: seq<OpenPr>, seen: set<int>) {
    forall a, b, c :: 0 <= a < b < |r| && r[a].head == r[b].head && c in open && c.base == r[a].head ==>
      c.number in seen + Numbers(r[..b])
  }

  lemma {:induction false} AboveSettles(open: seq<OpenPr>, branch: string, i: nat, seen: set<int>)
    requires NoCycles(open) && i <= |Children(open, branch)|
    ensures SharedSettled(open, Above(open, branch, i, seen), seen)
    decreases Numbers(open) - seen, |Children(open, branch)| - i
  {
    hide Children, Numbers, NoCycles, SharedSettled, Closed, Grounded, DistinctNumbers;
    ChildrenFacts(open, branch);
    var children := Children(open, branch);
    if i == |children| {
      NothingSettles(open, seen);
    } else {
      var child := children[i];
      if child.number in seen {
        AboveSettles(open, branch, i + 1, seen);
      } else {
        NumbersHold(open, child);
        var seen1 := seen + {child.number};
        var sub := Above(open, child.head, 0, seen1);
        AboveSettles(open, child.head, 0, seen1);
        AboveIsGrounded(open, child.head, 0, seen1);
        AboveIsClosed(open, child.head, 0, seen1);
        AboveIsDistinct(open, child.head, 0, seen1);
        var rest := Above(open, branch, i + 1, seen1 + Numbers(sub));
        AboveSettles(open, branch, i + 1, seen1 + Numbers(sub));
        HeadIsNotAbove(open, child.head, sub);
        SettledParts(open, child, sub, rest, seen);
      }
    }
  }

  lemma NothingSettles(open: seq<OpenPr>, seen: set<int>)
    ensures SharedSettled(open, [], seen)
  {
  }

  /** Nothing above a branch has that branch as its head. */
  lemma HeadIsNotAbove(open: seq<OpenPr>, branch: string, r: seq<OpenPr>)
    requires NoCycles(open) && Grounded(r, branch) && forall i :: 0 <= i < |r| ==> r[i] in open
    ensures forall i :: 0 <= i < |r| ==> r[i].head != branch
  {
    forall i | 0 <= i < |r| ensures r[i].head != branch {
      var p := PathTo(open, r, branch, i);
      assert !IsCycle(open, p);
    }
  }

  lemma SettledParts(open: seq<OpenPr>, child: OpenPr, sub: seq<OpenPr>, rest: seq<OpenPr>, seen: set<int>)
    requires SharedSettled(open, sub, seen + {child.number})
    requires SharedSettled(open, rest, seen + {child.number} + Numbers(sub))
    requires Closed(open, sub, seen + {child.number} + Numbers(sub))
    requires forall k :: 0 <= k < |Children(open, child.head)| ==>
      Children(open, child.head)[k].number in seen + {child.number} + Numbers(sub)
    requires forall i :: 0 <= i < |sub| ==> sub[i].head != child.head
    ensures SharedSettled(open, [child] + sub + rest, seen)
  {
    hide Numbers, Children;
    var r, n := [child] + sub + rest, 1 + |sub|;
    ChildrenFacts(open, child.head);
    OneNumber(child);
    forall a, b, c | 0 <= a < b < |r| && r[a].head == r[b].head && c in open && c.base == r[a].head
      ensures c.number in seen + Numbers(r[..b])
    {
      if b < n {
        assert a > 0 && r[a] == sub[a - 1] && r[b] == sub[b - 1] && r[..b] == [child] + sub[..b - 1];
        NumbersAppend([child], sub[..b - 1]);
      } else {
        assert r[b] == rest[b - n] && r[..b] == [child] + sub + rest[..b - n];
        NumbersAppend([child] + sub, rest[..b - n]);
        NumbersAppend([child], sub);
        if a == 0 {
          assert c in Children(open, child.head);
        } else if a < n {
          assert r[a] == sub[a - 1] && sub[a - 1] in sub;
        } else {
          assert r[a] == rest[a - n];
        }
      }
    }
  }

  /** The start and the rows above it are exactly what stands on the start. */
  lemma UpStandsOnStart(open: seq<OpenPr>, start: OpenPr, down: seq<OpenPr>, up: seq<OpenPr>, j: nat)
    requires UniqueNumbers(open) && IsStack(open, start, down, up) && j < |up|
    ensures StandsOn(open, start, up[j])
  {
    hide Numbers, Above, ByHead;
    AboveIsGrounded(open, start.head, 0, Numbers(down));
    AboveIsDistinct(open, start.head, 0, Numbers(down));
    var p := PathTo(open, up, start.head, j);
    JoinPaths(open, [start], p);
  }

  /** Nothing on the start is on the way down from it. */
  lemma DownIsBelow(open: seq<OpenPr>, start: OpenPr, down: seq<OpenPr>, i: nat, x: OpenPr)
    requires NoCycles(open) && IsDescent(open, start, down) && i < |down| && StandsOn(open, start, x)
    ensures x.head != down[i].base
  {
    hide ByHead, NoCycles;
    var p :| IsPath(open, p) && p[0] == start && p[|p| - 1] == x;
    var q := down[i..];
    assert IsPath(open, q) && q[|q| - 1] == start;
    NoWayBack(open, q, p);
  }

  lemma NoWayBack(open: seq<OpenPr>, q: seq<OpenPr>, p: seq<OpenPr>)
    requires NoCycles(open) && IsPath(open, q) && IsPath(open, p) && p[0] == q[|q| - 1]
    ensures p[|p| - 1].head != q[0].base
  {
    if |p| == 1 {
      assert !IsCycle(open, q);
    } else {
      var rest := p[1..];
      assert rest[0] == p[1] && rest[|rest| - 1] == p[|p| - 1];
      assert IsPath(open, rest);
      JoinPaths(open, q, rest);
      assert !IsCycle(open, q + rest);
    }
  }

  lemma {:induction false} OnStartIsListed(open: seq<OpenPr>, start: OpenPr, down: seq<OpenPr>, up: seq<OpenPr>,
                                           p: seq<OpenPr>)
    requires NoCycles(open) && UniqueNumbers(open) && IsStack(open, start, down, up)
    requires IsPath(open, p) && p[0] == start
    ensures p[|p| - 1] == start || p[|p| - 1] in up
    decreases |p|
  {
    hide ByHead, NoCycles, UniqueNumbers, Above, Numbers;
    if |p| > 1 {
      var q := p[..|p| - 1];
      OnStartIsListed(open, start, down, up, q);
      var x, c := q[|q| - 1], p[|p| - 1];
      StackIsClosed(open, start, down, up);
      assert c in down + up;
      assert StandsOn(open, start, x);
      forall i | 0 <= i < |down| ensures down[i] != c {
        DownIsBelow(open, start, down, i, x);
      }
    }
  }

  lemma ListedFrom(open: seq<OpenPr>, start: OpenPr, down: seq<OpenPr>, up: seq<OpenPr>, x: OpenPr) returns (i: nat)
    requires NoCycles(open) && UniqueNumbers(open) && IsStack(open, start, down, up) && StandsOn(open, start, x)
    ensures |down| - 1 <= i < |down + up| && (down + up)[i] == x
  {
    hide ByHead, NoCycles, UniqueNumbers, Above, Numbers;
    var p :| IsPath(open, p) && p[0] == start && p[|p| - 1] == x;
    OnStartIsListed(open, start, down, up, p);
    if x == start {
      i := |down| - 1;
    } else {
      var k :| 0 <= k < |up| && up[k] == x;
      i := |down| + k;
    }
  }

  lemma StandsFrom(open: seq<OpenPr>, start: OpenPr, down: seq<OpenPr>, up: seq<OpenPr>, i: nat)
    requires UniqueNumbers(open) && IsStack(open, start, down, up) && |down| - 1 <= i < |down + up|
    ensures StandsOn(open, start, (down + up)[i])
  {
    hide ByHead, UniqueNumbers, Above, Numbers;
    if i < |down| {
      assert IsPath(open, [start]);
    } else {
      UpStandsOnStart(open, start, down, up, i - |down|);
    }
  }

  /** Heads from row j of the way down onwards are not the base of that row. */
  lemma HeadsAboveDown(open: seq<OpenPr>, start: OpenPr, down: seq<OpenPr>, up: seq<OpenPr>, i: nat, j: nat)
    requires NoCycles(open) && UniqueNumbers(open) && IsStack(open, start, down, up)
    requires j < |down| && j <= i < |down + up|
    ensures (down + up)[i].head != down[j].base
  {
    hide ByHead, NoCycles, UniqueNumbers, Above, Numbers;
    if i < |down| {
      var p := down[j..i + 1];
      assert IsPath(open, p) && p[0] == down[j] && p[|p| - 1] == down[i];
      NotACycle(open, p);
    } else {
      StandsFrom(open, start, down, up, i);
      DownIsBelow(open, start, down, j, (down + up)[i]);
    }
  }

  lemma NotACycle(open: seq<OpenPr>, p: seq<OpenPr>)
    requires NoCycles(open) && IsPath(open, p)
    ensures p[0].base != p[|p| - 1].head
  {
    assert !IsCycle(open, p);
  }

  /** A row above the start stands on the start or on an earlier row above it. */
  lemma UpIsGrounded(open: seq<OpenPr>, start: OpenPr, down: seq<OpenPr>, up: seq<OpenPr>, j: nat) returns (k: nat)
    requires IsStack(open, start, down, up) && |down| <= j < |down + up|
    ensures |down| - 1 <= k < j && (down + up)[k].head == (down + up)[j].base
  {
    hide Numbers, Above, IsStack;
    StackParts(open, start, down, up);
    AboveIsGrounded(open, start.head, 0, Numbers(down));
    var n, b := |down|, j - |down|;
    k := n - 1;
    if up[b].base != start.head {
      var m :| 0 <= m < b && up[m].head == up[b].base;
      k := m + n;
    }
  }

  lemma StackParts(open: seq<OpenPr>, start: OpenPr, down: seq<OpenPr>, up: seq<OpenPr>)
    requires IsStack(open, start, down, up)
    ensures down != [] && down[|down| - 1] == start && up == Above(open, start.head, 0, Numbers(down))
  {
    hide Above, ByHead;
  }

  lemma OneRowGivesBasesFirst(open: seq<OpenPr>, start: OpenPr, down: seq<OpenPr>, up: seq<OpenPr>)
    requires NoCycles(open) && UniqueNumbers(open) && IsStack(open, start, down, up) && OneRowPerBase(open, start)
    ensures BasesFirst(down + up)
  {
    hide NoCycles, UniqueNumbers, Above, Numbers, StandsOn, IsDescent, IsStack;
    var all, n := down + up, |down|;
    StackIsDistinct(open, start, down, up);
    forall i, j | 0 <= i < |all| && 0 <= j < |all| && all[j].base == all[i].head ensures i < j {
      if j < n {
        forall k | j <= k < |all| ensures all[k].head != all[j].base {
          HeadsAboveDown(open, start, down, up, k, j);
        }
      } else if i >= n {
        var k := UpIsGrounded(open, start, down, up, j);
        StandsFrom(open, start, down, up, i);
        StandsFrom(open, start, down, up, k);
        assert all[j] in open;
        assert all[i] == all[k];
      }
    }
  }

  /** A shared head of two rows above the start comes after something based on it. */
  lemma SharedHeadIsLate(open: seq<OpenPr>, start: OpenPr, down: seq<OpenPr>, up: seq<OpenPr>, i: nat, j: nat,
                         c: OpenPr)
    requires NoCycles(open) && UniqueNumbers(open) && IsStack(open, start, down, up)
    requires |down| - 1 <= i < j < |down + up| && (down + up)[i].head == (down + up)[j].head
    requires c in open && c.base == (down + up)[i].head
    ensures !BasesFirst(down + up)
  {
    hide NoCycles, UniqueNumbers, Above, StandsOn, ByHead, SharedSettled, Numbers, Grounded;
    var all, n, b := down + up, |down|, j - |down|;
    AboveIsGrounded(open, start.head, 0, Numbers(down));
    AboveIsDistinct(open, start.head, 0, Numbers(down));
    HeadIsNotAbove(open, start.head, up);
    assert all[j] == up[b] && i >= n && all[i] == up[i - n];
    AboveSettles(open, start.head, 0, Numbers(down));
    SettledAt(open, up, Numbers(down), i - n, b, c);
    StandsFrom(open, start, down, up, j);
    forall k | 0 <= k < n ensures down[k] != c {
      DownIsBelow(open, start, down, k, all[j]);
    }
    var k := FindNumber(open, down, up[..b], c);
    assert all[n + k] == up[..b][k];
    assert all[n + k].base == all[j].head;
  }

  lemma SettledAt(open: seq<OpenPr>, r: seq<OpenPr>, seen: set<int>, a: nat, b: nat, c: OpenPr)
    requires SharedSettled(open, r, seen) && a < b < |r| && r[a].head == r[b].head && c in open && c.base == r[a].head
    ensures c.number in seen + Numbers(r[..b])
  {
  }

  lemma FindNumber(open: seq<OpenPr>, a: seq<OpenPr>, b: seq<OpenPr>, c: OpenPr) returns (k: nat)
    requires UniqueNumbers(open) && c in open && forall x :: x in a || x in b ==> x in open
    requires c !in a && c.number in Numbers(a) + Numbers(b)
    ensures k < |b| && b[k] == c
  {
    var x :| (x in a || x in b) && x.number == c.number;
    k :| 0 <= k < |b| && b[k] == c;
  }

  /** Main result: every base comes before everything based on it exactly when no two rows
      from the start upwards share a head that some open row is based on. */
  lemma BasesComeFirst(open: seq<OpenPr>, start: OpenPr, down: seq<OpenPr>, up: seq<OpenPr>)
    requires NoCycles(open) && UniqueNumbers(open) && IsStack(open, start, down, up)
    ensures BasesFirst(down + up) <==> OneRowPerBase(open, start)
  {
    hide NoCycles, UniqueNumbers, StandsOn, IsStack, BasesFirst;
    if OneRowPerBase(open, start) {
      OneRowGivesBasesFirst(open, start, down, up);
    } else {
      var x, y, c :| StandsOn(open, start, x) && StandsOn(open, start, y) && x.head == y.head
                     && c in open && c.base == x.head && x != y;
      var i := ListedFrom(open, start, down, up, x);
      var j := ListedFrom(open, start, down, up, y);
      if i < j {
        SharedHeadIsLate(open, start, down, up, i, j, c);
      } else {
        SharedHeadIsLate(open, start, down, up, j, i, c);
      }
    }
  }

  // ------------------------------------------------------ where it goes wrong

  /** Open rows from which the order is wrong: h has a row on t and a row on u. */
  const SHARED_HEAD: seq<OpenPr> := [
    OpenPr(1, "t", "main"), OpenPr(2, "h", "t"), OpenPr(3, "u", "t"), OpenPr(4, "h", "u"), OpenPr(5, "c", "h")]

  function RankOf(branch: string): int {
    if branch == "t" then 1
    else if branch == "u" then 2
    else if branch == "h" then 3
    else if branch == "c" then 4
    else 0
  }

  lemma {:induction false} PathClimbs(p: seq<OpenPr>)
    requires IsPath(SHARED_HEAD, p)
    ensures RankOf(p[0].base) < RankOf(p[|p| - 1].head)
    decreases |p|
  {
    RowClimbs(p[|p| - 1]);
    if |p| > 1 {
      hide RankOf;
      assert IsPath(SHARED_HEAD, p[..|p| - 1]);
      PathClimbs(p[..|p| - 1]);
    }
  }

  lemma RowClimbs(pr: OpenPr)
    requires pr in SHARED_HEAD
    ensures RankOf(pr.base) < RankOf(pr.head)
  {
  }

  lemma SharedHeadIsAcyclic()
    ensures NoCycles(SHARED_HEAD)
  {
    hide SHARED_HEAD, RankOf;
    forall p ensures !IsCycle(SHARED_HEAD, p) {
      if IsPath(SHARED_HEAD, p) {
        PathClimbs(p);
      }
    }
  }

  lemma StandsOnTwo(open: seq<OpenPr>, a: OpenPr, b: OpenPr)
    requires a in open && b in open && b.base == a.head
    ensures StandsOn(open, a, b)
  {
    var p := [a, b];
    assert IsPath(open, p) && p[0] == a && p[|p| - 1] == b;
  }

  lemma StandsOnThree(open: seq<OpenPr>, a: OpenPr, b: OpenPr, c: OpenPr)
    requires a in open && b in open && c in open && b.base == a.head && c.base == b.head
    ensures StandsOn(open, a, c)
  {
    var p := [a, b, c];
    assert IsPath(open, p) && p[0] == a && p[|p| - 1] == c;
  }

  lemma StartsAtBottom(open: seq<OpenPr>, start: OpenPr)
    requires start in open && forall pr :: pr in open ==> pr.head != start.base
    ensures Descends(open, start)
  {
    ByHeadMeans(open, start.base);
    assert IsDescent(open, start, [start]);
  }

  lemma SharedHeadRows()
    ensures var open := SHARED_HEAD;
            && |open| == 5 && (forall i :: 0 <= i < 5 ==> open[i] in open && open[i].number == i + 1)
            && open[1].base == open[0].head && open[2].base == open[0].head && open[3].base == open[2].head
            && open[1].head == open[3].head == open[4].base
            && (forall i :: 0 <= i < 5 ==> open[i].head != open[0].base)
  {
  }

  lemma SharedHeadIsNumbered()
    ensures UniqueNumbers(SHARED_HEAD)
  {
    hide SHARED_HEAD;
    SharedHeadRows();
    forall x, y | x in SHARED_HEAD && y in SHARED_HEAD && x.number == y.number ensures x == y {
      var i :| 0 <= i < 5 && SHARED_HEAD[i] == x;
      var j :| 0 <= j < 5 && SHARED_HEAD[j] == y;
    }
  }

  /** The order does fail: starting from 1, some base comes after what is based on it. */
  lemma SharedHeadBreaksOrder(down: seq<OpenPr>, up: seq<OpenPr>)
    ensures NoCycles(SHARED_HEAD) && UniqueNumbers(SHARED_HEAD) && Descends(SHARED_HEAD, SHARED_HEAD[0])
    ensures IsStack(SHARED_HEAD, SHARED_HEAD[0], down, up) ==> !BasesFirst(down + up)
  {
    hide NoCycles, StandsOn, IsStack, BasesFirst, Descends, UniqueNumbers, SHARED_HEAD;
    var open := SHARED_HEAD;
    SharedHeadRows();
    SharedHeadIsAcyclic();
    SharedHeadIsNumbered();
    StartsAtBottom(open, open[0]);
    StandsOnTwo(open, open[0], open[1]);
    StandsOnThree(open, open[0], open[2], open[3]);
    assert !OneRowPerBase(open, open[0]);
    if IsStack(open, open[0], down, up) {
      BasesComeFirst(open, open[0], down, up);
    }
  }

  // ------------------------------------------------------------- orderStack

  function NumbersOf(prs: seq<OpenPr>): (r: seq<int>)
    ensures |r| == |prs| && forall i :: 0 <= i < |prs| ==> r[i] == prs[i].number
  {
    seq(|prs|, i requires 0 <= i < |prs| => prs[i].number)
  }

  /** orderStack: the numbers of the start's stack, or the given one when it is not open.
      The walk down must end; without cyclic base links it does (AcyclicDescends). */
  method OrderStack(number: int, open: seq<OpenPr>)
      returns (r: seq<int>, ghost down: seq<OpenPr>, ghost up: seq<OpenPr>)
    requires ByNumber(open, number).Some? ==> Descends(open, ByNumber(open, number).value)
    ensures ByNumber(open, number).None? ==> r == [number]
    ensures ByNumber(open, number).Some? ==>
      IsStack(open, ByNumber(open, number).value, down, up) && r == NumbersOf(down + up)
  {
    hide Numbers, Above;
    down, up := [], [];
    var found := ByNumber(open, number);
    if found.None? {
      return [number], [], [];
    }
    var start := found.value;
    ByNumberMeans(open, number);
    ghost var whole :| IsDescent(open, start, whole);
    var chain := [start];
    var parent := ByHead(open, start.base);
    PartIsSuffix(open, start, chain, whole);
    while parent.Some?
      invariant chain != [] && PartOfDescent(open, start, chain) && parent == ByHead(open, chain[0].base)
      decreases |whole| - |chain|
    {
      ExtendDescent(open, start, chain);
      chain := [parent.value] + chain;
      PartIsSuffix(open, start, chain, whole);
      parent := ByHead(open, chain[0].base);
    }
    var walk := new StackWalk(open, Numbers(chain));
    walk.Visit(start.head);
    down, up := chain, walk.up;
    r := NumbersOf(chain + walk.up);
  }
}
