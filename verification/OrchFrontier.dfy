/** The stack frontier (orch/store.ts: branchPullRequest, openChildren, resolveFrontier,
    validateFrontierPin) over the pull requests that the forge lists. */
module OrchFrontier {
  import opened Common

  datatype State = OPEN | MERGED | CLOSED

  datatype ForgePr = ForgePr(pr: int, state: State, branch: string, base: string)

  datatype FrontierError =
    | NoPullRequest(branch: string)
    | SeveralPullRequests(branch: string)
    | Loops(branch: string)
    | NotLinear(branch: string)
    | RepeatedPullRequest

  // ---------------------------------------------------------------- listing

  /** The rows that `pr list --head branch` returns. */
  function Heads(rows: seq<ForgePr>, branch: string): (r: seq<ForgePr>)
    ensures forall row :: row in r <==> row in rows && row.branch == branch
  {
    if rows == [] then []
    else (if rows[0].branch == branch then [rows[0]] else []) + Heads(rows[1..], branch)
  }

  /** The open rows that `pr list --base branch` returns. */
  function OpenChildren(rows: seq<ForgePr>, branch: string): (r: seq<ForgePr>)
    ensures forall row :: row in r <==> row in rows && row.base == branch && row.state.OPEN?
  {
    if rows == [] then []
    else (if rows[0].base == branch && rows[0].state.OPEN? then [rows[0]] else []) + OpenChildren(rows[1..], branch)
  }

  /** branchPullRequest */
  function BranchPullRequest(rows: seq<ForgePr>, branch: string): Result<ForgePr, FrontierError> {
    var found := Heads(rows, branch);
    if |found| == 0 then Err(NoPullRequest(branch))
    else if |found| > 1 then Err(SeveralPullRequests(branch))
    else Ok(found[0])
  }

  lemma OnlyHead(rows: seq<ForgePr>, branch: string)
    ensures BranchPullRequest(rows, branch).Ok? ==>
      var row := BranchPullRequest(rows, branch).value;
      Heads(rows, branch) == [row] && row in rows && row.branch == branch
  {
    var found := Heads(rows, branch);
    if |found| == 1 {
      assert found == [found[0]] && found[0] in found;
    }
  }

  // --------------------------------------------------------- what a stack is

  /** Each pull request targets the branch of the one before. */
  ghost predicate Linked(c: seq<ForgePr>) {
    forall i :: 0 < i < |c| ==> c[i].base == c[i - 1].branch
  }

  ghost predicate DistinctBranches(c: seq<ForgePr>) {
    forall i, j :: 0 <= i < j < |c| ==> c[i].branch != c[j].branch
  }

  ghost predicate DistinctNumbers(c: seq<ForgePr>) {
    forall i, j :: 0 <= i < j < |c| ==> c[i].pr != c[j].pr
  }

  /** A chain that ends at the current branch, each the only pull request of its branch
      and none but possibly the first on trunk. */
  ghost predicate Anchored(rows: seq<ForgePr>, trunk: string, current: string, d: seq<ForgePr>) {
    && d != [] && d[|d| - 1].branch == current && Linked(d) && DistinctBranches(d)
    && (forall i :: 0 <= i < |d| ==> Heads(rows, d[i].branch) == [d[i]])
    && (forall i :: 0 < i < |d| ==> d[i].base != trunk)
  }

  /** From index k on each pull request is the only open one on the branch before. */
  ghost predicate Climbs(rows: seq<ForgePr>, c: seq<ForgePr>, k: nat) {
    forall i :: k < i < |c| ==> OpenChildren(rows, c[i - 1].branch) == [c[i]]
  }

  /** A chain from trunk through the current branch, at index k, and above it. */
  ghost predicate FromTrunk(rows: seq<ForgePr>, trunk: string, current: string, c: seq<ForgePr>, k: nat) {
    && k < |c| && Anchored(rows, trunk, current, c[..k + 1]) && c[0].base == trunk
    && Linked(c) && DistinctBranches(c) && Climbs(rows, c, k)
  }

  /** The whole stack: from trunk, through current, up to a tip nothing open is on. */
  ghost predicate IsStack(rows: seq<ForgePr>, trunk: string, current: string, c: seq<ForgePr>, k: nat) {
    && FromTrunk(rows, trunk, current, c, k)
    && OpenChildren(rows, c[|c| - 1].branch) == []
    && DistinctNumbers(c)
  }

  ghost function Branches(c: seq<ForgePr>): set<string> {
    set row | row in c :: row.branch
  }

  function Numbers(c: seq<ForgePr>): (r: seq<int>)
    ensures |r| == |c| && forall i :: 0 <= i < |c| ==> r[i] == c[i].pr
  {
    seq(|c|, i requires 0 <= i < |c| => c[i].pr)
  }

  // ------------------------------------------------------------- uniqueness

  lemma AnchoredTail(rows: seq<ForgePr>, trunk: string, current: string, d: seq<ForgePr>)
    requires Anchored(rows, trunk, current, d) && |d| > 1
    ensures Anchored(rows, trunk, current, d[1..])
  {
    hide Heads;
  }

  /** A chain down from current is the end of any such chain that reaches trunk. */
  lemma {:induction false} AnchoredIsSuffix(rows: seq<ForgePr>, trunk: string, current: string, d: seq<ForgePr>,
                                            c: seq<ForgePr>)
    requires Anchored(rows, trunk, current, d)
    requires Anchored(rows, trunk, current, c) && c[0].base == trunk
    ensures |d| <= |c| && d == c[|c| - |d|..]
    decreases |d|
  {
    hide Heads;
    if |d| == 1 {
      assert Heads(rows, d[0].branch) == [d[0]] && Heads(rows, c[|c| - 1].branch) == [c[|c| - 1]];
      assert [d[0]][0] == [c[|c| - 1]][0];
    } else {
      AnchoredTail(rows, trunk, current, d);
      AnchoredIsSuffix(rows, trunk, current, d[1..], c);
      var j := |c| - |d| + 1;
      assert c[j] == d[1..][0] == d[1];
      assert j > 0;
      assert c[j - 1].branch == d[0].branch;
      assert [d[0]][0] == [c[j - 1]][0];
    }
  }

  /** Some chain leads from trunk to the current branch. */
  ghost predicate ReachesTrunk(rows: seq<ForgePr>, trunk: string, current: string) {
    exists c: seq<ForgePr> :: Anchored(rows, trunk, current, c) && c[0].base == trunk
  }

  /** If a chain reaches trunk, the walk down can start, */
  lemma DownStarts(rows: seq<ForgePr>, trunk: string, current: string)
    ensures ReachesTrunk(rows, trunk, current) ==> BranchPullRequest(rows, current).Ok?
  {
    if ReachesTrunk(rows, trunk, current) {
      var c: seq<ForgePr> :| Anchored(rows, trunk, current, c) && c[0].base == trunk;
      assert Heads(rows, c[|c| - 1].branch) == [c[|c| - 1]];
    }
  }

  /** and it can continue from any branch above trunk. */
  lemma DownContinues(rows: seq<ForgePr>, trunk: string, current: string, d: seq<ForgePr>)
    requires Anchored(rows, trunk, current, d) && d[0].base != trunk
    ensures ReachesTrunk(rows, trunk, current) ==> d[0].base !in Branches(d) && BranchPullRequest(rows, d[0].base).Ok?
  {
    hide Heads;
    if ReachesTrunk(rows, trunk, current) {
      var c: seq<ForgePr> :| Anchored(rows, trunk, current, c) && c[0].base == trunk;
      AnchoredIsSuffix(rows, trunk, current, d, c);
      var j := |c| - |d|;
      assert c[j] == d[0];
      assert c[j - 1].branch == d[0].base && Heads(rows, c[j - 1].branch) == [c[j - 1]];
      forall i | 0 <= i < |d| ensures d[i].branch != d[0].base {
        assert d[i] == c[j + i];
      }
    }
  }

  /** Two chains from trunk to current are the same chain. */
  lemma AnchoredUnique(rows: seq<ForgePr>, trunk: string, current: string, d: seq<ForgePr>, c: seq<ForgePr>)
    requires Anchored(rows, trunk, current, d) && d[0].base == trunk
    requires Anchored(rows, trunk, current, c) && c[0].base == trunk
    ensures d == c
  {
    hide Anchored;
    assert |d| > 0 && |c| > 0 by {
      AnchoredNotEmpty(rows, trunk, current, d);
      AnchoredNotEmpty(rows, trunk, current, c);
    }
    AnchoredIsSuffix(rows, trunk, current, d, c);
    AnchoredIsSuffix(rows, trunk, current, c, d);
  }

  lemma AnchoredNotEmpty(rows: seq<ForgePr>, trunk: string, current: string, d: seq<ForgePr>)
    requires Anchored(rows, trunk, current, d)
    ensures d != []
  {
  }

  /** A partial stack is the beginning of any whole one. */
  lemma {:induction false} PartIsPrefix(rows: seq<ForgePr>, trunk: string, current: string, u: seq<ForgePr>, k: nat,
                                        c: seq<ForgePr>, kc: nat)
    requires FromTrunk(rows, trunk, current, u, k) && IsStack(rows, trunk, current, c, kc)
    ensures k == kc && |u| <= |c| && u == c[..|u|]
    decreases |u|
  {
    hide OpenChildren, Anchored;
    AnchoredUnique(rows, trunk, current, u[..k + 1], c[..kc + 1]);
    if |u| > k + 1 {
      var shorter := u[..|u| - 1];
      assert shorter[..k + 1] == u[..k + 1];
      PartIsPrefix(rows, trunk, current, shorter, k, c, kc);
      var n := |u| - 1;
      assert c[n - 1] == shorter[n - 1] == u[n - 1];
      assert OpenChildren(rows, u[n - 1].branch) == [u[n]];
      assert |c| > n;
      assert [u[n]][0] == [c[n]][0];
    } else {
      assert u == u[..k + 1];
    }
  }

  /** At most one stack runs through a branch. */
  lemma StackIsUnique(rows: seq<ForgePr>, trunk: string, current: string, c: seq<ForgePr>, k: nat, d: seq<ForgePr>,
                      m: nat)
    requires IsStack(rows, trunk, current, c, k) && IsStack(rows, trunk, current, d, m)
    ensures c == d && k == m
  {
    hide FromTrunk, OpenChildren;
    PartIsPrefix(rows, trunk, current, c, k, d, m);
    PartIsPrefix(rows, trunk, current, d, m, c, k);
  }

  ghost predicate HasStack(rows: seq<ForgePr>, trunk: string, current: string) {
    exists c: seq<ForgePr>, k: nat :: IsStack(rows, trunk, current, c, k)
  }

  /** If there is a stack, some chain reaches trunk, */
  lemma StackReachesTrunk(rows: seq<ForgePr>, trunk: string, current: string)
    ensures HasStack(rows, trunk, current) ==> ReachesTrunk(rows, trunk, current)
  {
    hide Anchored;
    if HasStack(rows, trunk, current) {
      var c: seq<ForgePr>, k: nat :| IsStack(rows, trunk, current, c, k);
      var d := c[..k + 1];
      assert Anchored(rows, trunk, current, d) && d[0].base == trunk;
    }
  }

  /** the walk up can continue from any branch that is not its tip, */
  lemma UpContinues(rows: seq<ForgePr>, trunk: string, current: string, u: seq<ForgePr>, k: nat)
    requires FromTrunk(rows, trunk, current, u, k)
    requires OpenChildren(rows, u[|u| - 1].branch) != []
    ensures HasStack(rows, trunk, current) ==>
      var children := OpenChildren(rows, u[|u| - 1].branch); |children| == 1 && children[0].branch !in Branches(u)
  {
    hide OpenChildren, Anchored;
    if HasStack(rows, trunk, current) {
      var c: seq<ForgePr>, kc: nat :| IsStack(rows, trunk, current, c, kc);
      PartIsPrefix(rows, trunk, current, u, k, c, kc);
      var n := |u|;
      assert c[n - 1] == u[n - 1];
      assert |c| > n;
      assert OpenChildren(rows, c[n - 1].branch) == [c[n]];
      forall i | 0 <= i < n ensures u[i].branch != c[n].branch {
        assert u[i] == c[i];
      }
    }
  }

  /** and no part of it repeats a number. */
  lemma PartHasDistinctNumbers(rows: seq<ForgePr>, trunk: string, current: string, u: seq<ForgePr>, k: nat)
    requires FromTrunk(rows, trunk, current, u, k)
    ensures HasStack(rows, trunk, current) ==> Distinct(Numbers(u))
  {
    hide FromTrunk;
    if HasStack(rows, trunk, current) {
      var c: seq<ForgePr>, kc: nat :| IsStack(rows, trunk, current, c, kc);
      PartIsPrefix(rows, trunk, current, u, k, c, kc);
      forall i, j | 0 <= i < j < |u| ensures Numbers(u)[i] != Numbers(u)[j] {
        assert u[i] == c[i] && u[j] == c[j];
      }
    }
  }

  // --------------------------------------------------------- what errors mean

  /** Base links that lead from a branch back to itself. */
  ghost predicate IsCycle(rows: seq<ForgePr>, branch: string, p: seq<ForgePr>) {
    && p != [] && Linked(p) && p[0].base == branch && p[|p| - 1].branch == branch
    && forall i :: 0 <= i < |p| ==> p[i] in rows
  }

  /** What an error says about the forge's rows. */
  ghost predicate Explained(rows: seq<ForgePr>, e: FrontierError) {
    match e
    case NoPullRequest(branch) => Heads(rows, branch) == []
    case SeveralPullRequests(branch) => |Heads(rows, branch)| > 1
    case Loops(branch) => exists p :: IsCycle(rows, branch, p)
    case NotLinear(branch) => |OpenChildren(rows, branch)| > 1
    case RepeatedPullRequest => exists x, y :: x in rows && y in rows && x.pr == y.pr && x.branch != y.branch
  }

  lemma AnchoredInRows(rows: seq<ForgePr>, trunk: string, current: string, d: seq<ForgePr>)
    requires Anchored(rows, trunk, current, d)
    ensures forall i :: 0 <= i < |d| ==> d[i] in rows
  {
    forall i | 0 <= i < |d| ensures d[i] in rows {
      assert d[i] in Heads(rows, d[i].branch);
    }
  }

  lemma StackInRows(rows: seq<ForgePr>, trunk: string, current: string, c: seq<ForgePr>, k: nat)
    requires FromTrunk(rows, trunk, current, c, k)
    ensures forall i :: 0 <= i < |c| ==> c[i] in rows
  {
    hide Anchored;
    AnchoredInRows(rows, trunk, current, c[..k + 1]);
    forall i | 0 <= i < |c| ensures c[i] in rows {
      if i <= k {
        assert c[i] == c[..k + 1][i];
      } else {
        assert c[i] in OpenChildren(rows, c[i - 1].branch);
      }
    }
  }

  lemma DownCycle(rows: seq<ForgePr>, trunk: string, current: string, d: seq<ForgePr>)
    requires Anchored(rows, trunk, current, d) && d[0].base in Branches(d)
    ensures Explained(rows, Loops(d[0].base))
  {
    hide Heads;
    AnchoredInRows(rows, trunk, current, d);
    BranchesHold(d, d[0].base);
    var i :| 0 <= i < |d| && d[i].branch == d[0].base;
    assert IsCycle(rows, d[0].base, d[..i + 1]);
  }

  lemma UpCycle(rows: seq<ForgePr>, trunk: string, current: string, u: seq<ForgePr>, k: nat, child: ForgePr)
    requires FromTrunk(rows, trunk, current, u, k)
    requires child in rows && child.base == u[|u| - 1].branch && child.branch in Branches(u)
    ensures Explained(rows, Loops(child.branch))
  {
    hide Anchored, Climbs;
    StackInRows(rows, trunk, current, u, k);
    BranchesHold(u, child.branch);
    var i :| 0 <= i < |u| && u[i].branch == child.branch;
    var p := u[i + 1..] + [child];
    forall j | 0 < j < |p| ensures p[j].base == p[j - 1].branch {
      assert p[j - 1] == u[i + j];
      assert p[j] == if j < |p| - 1 then u[i + j + 1] else child;
    }
    assert IsCycle(rows, child.branch, p);
  }

  // ------------------------------------------------------------- the walks

  lemma BranchesHold(c: seq<ForgePr>, branch: string)
    ensures branch in Branches(c) <==> exists i :: 0 <= i < |c| && c[i].branch == branch
  {
    if branch in Branches(c) {
      var row :| row in c && row.branch == branch;
      var i :| 0 <= i < |c| && c[i] == row;
    }
  }

  lemma BranchesGrow(c: seq<ForgePr>, row: ForgePr)
    ensures Branches([row] + c) == Branches(c) + {row.branch} == Branches(c + [row])
  {
    assert forall x :: x in [row] + c <==> x in c || x == row;
    assert forall x :: x in c + [row] <==> x in c || x == row;
  }

  lemma ExtendDown(rows: seq<ForgePr>, trunk: string, current: string, d: seq<ForgePr>, row: ForgePr)
    requires Anchored(rows, trunk, current, d) && d[0].base != trunk
    requires Heads(rows, d[0].base) == [row] && row.branch == d[0].base
    requires d[0].base !in Branches(d)
    ensures Anchored(rows, trunk, current, [row] + d)
    ensures Branches([row] + d) == Branches(d) + {row.branch}
  {
    hide Heads;
    forall i | 0 <= i < |d| ensures d[i].branch != row.branch {
      BranchesHold(d, d[i].branch);
    }
    BranchesGrow(d, row);
    hide Branches;
    var longer := [row] + d;
    assert longer[|longer| - 1] == d[|d| - 1];
    forall i | 0 < i < |longer|
      ensures longer[i].base == longer[i - 1].branch && longer[i].base != trunk
      ensures Heads(rows, longer[i].branch) == [longer[i]]
    {
      assert longer[i] == d[i - 1] && (i > 1 ==> longer[i - 1] == d[i - 2]);
    }
  }

  lemma StartDown(rows: seq<ForgePr>, trunk: string, row: ForgePr)
    requires Heads(rows, row.branch) == [row]
    ensures Anchored(rows, trunk, row.branch, [row])
    ensures Branches([row]) == {row.branch}
  {
  }

  lemma NoHead(rows: seq<ForgePr>, branch: string)
    ensures BranchPullRequest(rows, branch).Err? ==> Explained(rows, BranchPullRequest(rows, branch).error)
  {
  }

  /** The first half of resolveFrontier: from current down to trunk. */
  method WalkDown(rows: seq<ForgePr>, trunk: string, current: string)
      returns (r: Result<seq<ForgePr>, FrontierError>, seen: set<string>)
    ensures r.Ok? ==>
      && Anchored(rows, trunk, current, r.value) && r.value != [] && r.value[0].base == trunk
      && seen == Branches(r.value)
    ensures r.Err? ==> Explained(rows, r.error)
    ensures r.Err? ==> !ReachesTrunk(rows, trunk, current)
  {
    hide Heads, Anchored, BranchPullRequest, Branches;
    seen := {current};
    var first := BranchPullRequest(rows, current);
    OnlyHead(rows, current);
    DownStarts(rows, trunk, current);
    if first.Err? {
      NoHead(rows, current);
      return Err(first.error), seen;
    }
    var chain := [first.value];
    StartDown(rows, trunk, first.value);
    while chain[0].base != trunk
      invariant chain != [] && Anchored(rows, trunk, current, chain) && seen == Branches(chain)
      decreases Branches(rows) - seen
    {
      var base := chain[0].base;
      var next := BranchPullRequest(rows, base);
      DownContinues(rows, trunk, current, chain);
      if base in seen || next.Err? {
        if base in seen {
          DownCycle(rows, trunk, current, chain);
        } else {
          NoHead(rows, base);
        }
        return Err(if base in seen then Loops(base) else next.error), seen;
      }
      OnlyHead(rows, base);
      BranchesHold(rows, base);
      ExtendDown(rows, trunk, current, chain, next.value);
      seen := seen + {base};
      chain := [next.value] + chain;
    }
    r := Ok(chain);
  }

  lemma ChildTargets(rows: seq<ForgePr>, branch: string, child: ForgePr)
    requires OpenChildren(rows, branch) == [child]
    ensures child.base == branch
  {
    assert child in [child];
  }

  lemma ExtendUp(rows: seq<ForgePr>, trunk: string, current: string, u: seq<ForgePr>, k: nat, child: ForgePr)
    requires FromTrunk(rows, trunk, current, u, k)
    requires OpenChildren(rows, u[|u| - 1].branch) == [child] && child.branch !in Branches(u)
    ensures FromTrunk(rows, trunk, current, u + [child], k)
    ensures Branches(u + [child]) == Branches(u) + {child.branch}
  {
    hide Anchored, OpenChildren;
    var longer := u + [child];
    assert longer[..k + 1] == u[..k + 1];
    ChildTargets(rows, u[|u| - 1].branch, child);
    forall i | k < i < |longer| ensures OpenChildren(rows, longer[i - 1].branch) == [longer[i]] {
      assert longer[i - 1] == u[i - 1] && (i < |u| ==> longer[i] == u[i]);
    }
    forall i | 0 <= i < |u| ensures u[i].branch != child.branch {
      BranchesHold(u, u[i].branch);
    }
    BranchesGrow(u, child);
    hide Branches;
  }

  lemma ChildIsListed(rows: seq<ForgePr>, branch: string)
    requires OpenChildren(rows, branch) != []
    ensures OpenChildren(rows, branch)[0] in rows && OpenChildren(rows, branch)[0].branch in Branches(rows)
  {
    var child := OpenChildren(rows, branch)[0];
    assert child in OpenChildren(rows, branch);
  }

  /** The second half of resolveFrontier: from current up to the tip. */
  method WalkUp(rows: seq<ForgePr>, trunk: string, current: string, down: seq<ForgePr>, found: set<string>)
      returns (r: Result<seq<ForgePr>, FrontierError>)
    requires Anchored(rows, trunk, current, down) && down != [] && down[0].base == trunk && found == Branches(down)
    ensures r.Ok? ==>
      && |down| <= |r.value| && FromTrunk(rows, trunk, current, r.value, |down| - 1)
      && OpenChildren(rows, r.value[|r.value| - 1].branch) == []
    ensures r.Err? ==> Explained(rows, r.error)
    ensures r.Err? ==> !HasStack(rows, trunk, current)
  {
    hide Heads, OpenChildren, Branches, FromTrunk, IsStack;
    var chain, seen := down, found;
    StartUp(rows, trunk, current, down);
    while OpenChildren(rows, chain[|chain| - 1].branch) != []
      invariant |down| <= |chain| && FromTrunk(rows, trunk, current, chain, |down| - 1) && seen == Branches(chain)
      decreases Branches(rows) - seen
    {
      var tip := chain[|chain| - 1].branch;
      var children := OpenChildren(rows, tip);
      var child := children[0];
      ChildIsListed(rows, tip);
      UpContinues(rows, trunk, current, chain, |down| - 1);
      if |children| > 1 || child.branch in seen {
        if |children| == 1 {
          ChildTargets(rows, tip, child);
          UpCycle(rows, trunk, current, chain, |down| - 1, child);
        }
        return Err(if |children| > 1 then NotLinear(tip) else Loops(child.branch));
      }
      assert children == [child];
      ExtendUp(rows, trunk, current, chain, |down| - 1, child);
      seen := seen + {child.branch};
      chain := chain + [child];
    }
    r := Ok(chain);
  }

  lemma StartUp(rows: seq<ForgePr>, trunk: string, current: string, down: seq<ForgePr>)
    requires Anchored(rows, trunk, current, down) && down != [] && down[0].base == trunk
    ensures FromTrunk(rows, trunk, current, down, |down| - 1)
  {
    assert down[..|down|] == down;
  }

  lemma ChainBranches(rows: seq<ForgePr>, trunk: string, current: string, c: seq<ForgePr>, k: nat)
    requires FromTrunk(rows, trunk, current, c, k)
    ensures DistinctBranches(c)
  {
  }

  /** resolveFrontier: off trunk, the one stack through the current branch, or an error
      exactly when there is none. */
  method ResolveFrontier(rows: seq<ForgePr>, trunk: string, current: string)
      returns (r: Result<seq<ForgePr>, FrontierError>)
    ensures current == trunk ==> r == Ok([])
    ensures current != trunk && r.Ok? ==> exists k: nat :: IsStack(rows, trunk, current, r.value, k)
    ensures r.Err? ==> Explained(rows, r.error)
    ensures current != trunk && r.Err? ==> !HasStack(rows, trunk, current)
  {
    hide Anchored, FromTrunk, OpenChildren, Branches;
    if current == trunk {
      return Ok([]);
    }
    var down, seen := WalkDown(rows, trunk, current);
    StackReachesTrunk(rows, trunk, current);
    if down.Err? {
      return Err(down.error);
    }
    AnchoredNotEmpty(rows, trunk, current, down.value);
    var all := WalkUp(rows, trunk, current, down.value, seen);
    if all.Err? {
      return Err(all.error);
    }
    var numbers := Numbers(all.value);
    DistinctIffSize(numbers);
    PartHasDistinctNumbers(rows, trunk, current, all.value, |down.value| - 1);
    if |Elements(numbers)| != |numbers| {
      StackInRows(rows, trunk, current, all.value, |down.value| - 1);
      assert exists i, j :: 0 <= i < j < |numbers| && numbers[i] == numbers[j];
      var i, j :| 0 <= i < j < |numbers| && numbers[i] == numbers[j];
      ChainBranches(rows, trunk, current, all.value, |down.value| - 1);
      assert all.value[i].pr == all.value[j].pr && all.value[i].branch != all.value[j].branch;
      return Err(RepeatedPullRequest);
    }
    assert DistinctNumbers(all.value) by {
      assert forall i :: 0 <= i < |all.value| ==> numbers[i] == all.value[i].pr;
    }
    assert IsStack(rows, trunk, current, all.value, |down.value| - 1);
    r := Ok(all.value);
  }

  // ------------------------------------------------------------------- pins

  datatype Drift = Differs(missing: seq<int>, extra: seq<int>) | OrderDiffers

  /** The numbers of a that are not in b, in order. */
  function NotIn(a: seq<int>, b: seq<int>): (r: seq<int>)
    ensures forall x :: x in r <==> x in a && x !in b
  {
    if a == [] then [] else (if a[0] in b then [] else [a[0]]) + NotIn(a[1..], b)
  }

  lemma NothingMissing(a: seq<int>, b: seq<int>)
    ensures NotIn(a, b) == [] <==> Elements(a) <= Elements(b)
  {
    var missing := NotIn(a, b);
    if missing == [] {
      forall x | x in a ensures x in b {
        assert x !in missing;
      }
    } else {
      assert missing[0] in missing && missing[0] in Elements(a);
    }
  }

  /** validateFrontierPin: passes exactly for the resolved numbers in their order, and
      reports an order drift only when the pin is a rearrangement of them. */
  method ValidateFrontierPin(actual: seq<int>, expected: seq<int>) returns (r: Outcome<Drift>)
    ensures r.Pass? <==> actual == expected
    ensures r == Fail(OrderDiffers) <==> actual != expected && Elements(actual) == Elements(expected)
    ensures r == Fail(OrderDiffers) && Distinct(actual) && Distinct(expected) ==> |actual| == |expected|
    ensures r.Fail? && r.error.Differs? ==>
      && (forall x :: x in r.error.missing <==> x in expected && x !in actual)
      && (forall x :: x in r.error.extra <==> x in actual && x !in expected)
      && (r.error.missing != [] || r.error.extra != [])
  {
    hide Distinct, Elements;
    var index := 0;
    while index < |actual| && index < |expected| && actual[index] == expected[index]
      invariant index <= |actual| && index <= |expected| && actual[..index] == expected[..index]
    {
      index := index + 1;
    }
    if |actual| == |expected| && index == |actual| {
      assert actual[..index] == actual && expected[..index] == expected;
      return Pass;
    }
    NothingMissing(expected, actual);
    NothingMissing(actual, expected);
    DistinctIffSize(actual);
    DistinctIffSize(expected);
    var missing, extra := NotIn(expected, actual), NotIn(actual, expected);
    r := Fail(if missing == [] && extra == [] then OrderDiffers else Differs(missing, extra));
  }
}
