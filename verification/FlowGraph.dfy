/** The dependency graph of a verification map: what its validation accepts
    (project_contract.py, validate_verification_map) and which flows a set of
    requirements needs (required_flow_ids). */
module FlowGraph {
  import opened Common

  type FlowId = string

  /** A named source file, and whether committed_file accepts it. */
  datatype Source = Source(path: string, committed: bool)

  datatype Runtime = Runtime(owner: string, launch: string, health: string, cleanup: string)

  /** A native command that checks one user flow. */
  datatype Flow = Flow(
    id: FlowId, description: string, argv: seq<string>, timeoutSeconds: int,
    sources: seq<Source>, runtime: Option<Runtime>, dependsOn: seq<FlowId>)

  datatype Requirement = Requirement(id: string, description: string, sources: seq<Source>, flows: seq<FlowId>)

  datatype VerificationMap = VerificationMap(
    schemaVersion: int, flows: seq<Flow>, requirements: Option<seq<Requirement>>, maxParallel: int)

  type Graph = map<FlowId, seq<FlowId>>

  // ---------------------------------------------------------------- graphs

  /** Every dependency is itself a node. */
  ghost predicate ClosedGraph(g: Graph) {
    forall k, d :: k in g && d in g[k] ==> d in g
  }

  /** Consecutive nodes are joined by a dependency edge. */
  ghost predicate IsWalk(g: Graph, walk: seq<FlowId>) {
    && (forall i :: 0 <= i < |walk| ==> walk[i] in g)
    && (forall i, j :: 0 <= i && j == i + 1 && j < |walk| ==> walk[j] in g[walk[i]])
  }

  ghost predicate IsCycle(g: Graph, cycle: seq<FlowId>) {
    |cycle| >= 2 && IsWalk(g, cycle) && cycle[0] == cycle[|cycle| - 1]
  }

  ghost predicate Acyclic(g: Graph) {
    forall cycle :: !IsCycle(g, cycle)
  }

  /** Every node of the order comes after all of its dependencies. */
  ghost predicate IsTopological(g: Graph, order: seq<FlowId>) {
    && Distinct(order)
    && (forall i :: 0 <= i < |order| ==> order[i] in g)
    && (forall i, d :: 0 <= i < |order| && d in g[order[i]] ==> d in order[..i])
  }

  /** Along a walk through ordered nodes the position only falls. */
  lemma {:induction false} WalkDescends(g: Graph, order: seq<FlowId>, walk: seq<FlowId>, k: nat)
      returns (first: nat, last: nat)
    requires IsTopological(g, order) && IsWalk(g, walk)
    requires forall x :: x in walk ==> x in order
    requires k < |walk|
    ensures first < |order| && order[first] == walk[0]
    ensures last < |order| && order[last] == walk[k]
    ensures if k == 0 then last == first else last < first
  {
    if k == 0 {
      assert walk[0] in order;
      first :| 0 <= first < |order| && order[first] == walk[0];
      last := first;
    } else {
      var mid;
      first, mid := WalkDescends(g, order, walk, k - 1);
      assert walk[k] in g[walk[k - 1]];
      assert walk[k] in order[..mid];
      last :| 0 <= last < mid && order[last] == walk[k];
    }
  }

  /** A topological order of all nodes rules out every cycle. */
  lemma TopologicalOrderIsAcyclic(g: Graph, order: seq<FlowId>)
    requires IsTopological(g, order)
    requires forall k :: k in g ==> k in order
    ensures Acyclic(g)
  {
    forall cycle ensures !IsCycle(g, cycle) {
      if IsCycle(g, cycle) {
        var first, last := WalkDescends(g, order, cycle, |cycle| - 1);
        assert false;
      }
    }
  }

  ghost predicate StaysIn(g: Graph, s: set<FlowId>, x: FlowId)
    requires x in g
  {
    exists d :: d in g[x] && d in s
  }

  /** Following dependencies inside a set without sinks never gets stuck. */
  lemma {:induction false} LongWalk(g: Graph, s: set<FlowId>, length: nat) returns (walk: seq<FlowId>)
    requires s != {} && length >= 1
    requires s <= g.Keys && forall x :: x in s ==> StaysIn(g, s, x)
    ensures |walk| == length && IsWalk(g, walk) && Elements(walk) <= s
  {
    if length == 1 {
      var x :| x in s;
      walk := [x];
    } else {
      var front := LongWalk(g, s, length - 1);
      var tip := front[|front| - 1];
      assert tip in Elements(front) && StaysIn(g, s, tip);
      var d :| d in g[tip] && d in s;
      walk := front + [d];
    }
  }

  /** In an acyclic graph every non-empty set of nodes has a member whose
      dependencies all lie outside the set. */
  lemma SinkExists(g: Graph, s: set<FlowId>)
    requires Acyclic(g) && s != {} && s <= g.Keys
    ensures exists x :: x in s && !StaysIn(g, s, x)
  {
    if forall x :: x in s ==> StaysIn(g, s, x) {
      var walk := LongWalk(g, s, |s| + 1);
      var i, j := Pigeonhole(walk, s);
      assert IsCycle(g, walk[i..j + 1]);
      assert false;
    }
  }

  lemma ExtendWalk(g: Graph, walk: seq<FlowId>, next: FlowId)
    requires IsWalk(g, walk) && next in g
    requires walk == [] || next in g[walk[|walk| - 1]]
    ensures IsWalk(g, walk + [next])
  {
  }

  lemma ExtendTopological(g: Graph, order: seq<FlowId>, node: FlowId)
    requires IsTopological(g, order) && node in g && node !in order
    requires forall d :: d in g[node] ==> d in order
    ensures IsTopological(g, order + [node])
  {
    var longer := order + [node];
    forall i, d | 0 <= i < |longer| && d in g[longer[i]]
      ensures d in longer[..i]
    {
      assert longer[..i] == order[..i];
      assert order[..|order|] == order;
    }
  }

  lemma CloseCycle(g: Graph, walk: seq<FlowId>, next: FlowId) returns (cycle: seq<FlowId>)
    requires IsWalk(g, walk) && next in walk && next in g[walk[|walk| - 1]]
    ensures IsCycle(g, cycle)
  {
    var at :| 0 <= at < |walk| && walk[at] == next;
    cycle := walk[at..] + [next];
    assert IsWalk(g, walk[at..]);
    ExtendWalk(g, walk[at..], next);
  }

  // ------------------------------------------------- depth-first cycle check

  /** The visiting/visited search of validate_verification_map. The ghost fields
      record the recursion stack and the order in which nodes are finished. */
  class CycleCheck {
    const deps: Graph
    var visiting: set<FlowId>
    var visited: set<FlowId>
    ghost var stack: seq<FlowId>
    ghost var order: seq<FlowId>

    ghost predicate Valid()
      reads this
    {
      && ClosedGraph(deps)
      && IsWalk(deps, stack) && visiting == Elements(stack)
      && IsTopological(deps, order) && visited == Elements(order)
      && visiting !! visited
    }

    constructor (deps: Graph)
      requires ClosedGraph(deps)
      ensures Valid() && this.deps == deps && stack == [] && order == []
    {
      this.deps := deps;
      visiting, visited := {}, {};
      stack, order := [], [];
    }

    method Push(flow: FlowId)
      requires Valid() && flow in deps && flow !in visiting && flow !in visited
      requires stack == [] || flow in deps[stack[|stack| - 1]]
      modifies this
      ensures Valid() && stack == old(stack) + [flow]
      ensures visiting == old(visiting) + {flow} && visited == old(visited)
    {
      ExtendWalk(deps, stack, flow);
      visiting := visiting + {flow};
      stack := stack + [flow];
    }

    method Pop(flow: FlowId, ghost below: seq<FlowId>)
      requires Valid() && flow in deps && stack == below + [flow] && flow !in below
      requires forall d :: d in deps[flow] ==> d in visited
      modifies this
      ensures Valid() && stack == below
      ensures visiting == old(visiting) - {flow} && visited == old(visited) + {flow}
    {
      assert flow in Elements(stack);
      ExtendTopological(deps, order, flow);
      visiting := visiting - {flow};
      visited := visited + {flow};
      order := order + [flow];
      stack := below;
      assert forall i :: 0 <= i < |below| ==> below[i] == old(stack)[i];
    }

    /** False stands for the raised "must not contain cycles"; the ghost result
        then exhibits a cycle. */
    method Visit(flow: FlowId) returns (ok: bool, ghost cycle: seq<FlowId>)
      requires Valid() && flow in deps
      requires stack == [] || flow in deps[stack[|stack| - 1]]
      modifies this
      ensures ok ==> Valid() && stack == old(stack) && visiting == old(visiting)
      ensures ok ==> old(visited) <= visited && flow in visited
      ensures !ok ==> IsCycle(deps, cycle)
      decreases deps.Keys - visiting
    {
      ok, cycle := true, [];
      if flow in visiting {
        cycle := CloseCycle(deps, stack, flow);
        return false, cycle;
      }
      if flow in visited {
        return;
      }
      Push(flow);
      var needs := deps[flow];
      for i := 0 to |needs|
        invariant Valid() && stack == old(stack) + [flow]
        invariant visiting == old(visiting) + {flow}
        invariant old(visited) <= visited
        invariant forall k :: 0 <= k < i ==> needs[k] in visited
      {
        ok, cycle := Visit(needs[i]);
        if !ok {
          return;
        }
      }
      Pop(flow, old(stack));
    }
  }

  // ------------------------------------------------------- map validation

  function FlowIds(flows: seq<Flow>): set<FlowId> {
    set f | f in flows :: f.id
  }

  ghost predicate IdsUnique(flows: seq<Flow>) {
    forall i, j :: 0 <= i < j < |flows| ==> flows[i].id != flows[j].id
  }

  ghost predicate CommandsUnique(flows: seq<Flow>) {
    forall i, j :: 0 <= i < j < |flows| ==> flows[i].argv != flows[j].argv
  }

  /** by_id and the dependency table built from the reviewed flows. */
  function DependencyGraph(flows: seq<Flow>): (g: Graph)
    requires IdsUnique(flows)
  {
    map f | f in flows :: f.id := f.dependsOn
  }

  lemma DependencyGraphNodes(flows: seq<Flow>)
    requires IdsUnique(flows)
    ensures DependencyGraph(flows).Keys == FlowIds(flows)
    ensures forall f :: f in flows ==> DependencyGraph(flows)[f.id] == f.dependsOn
  {
  }

  /** [a-z][a-z0-9-]{0,63} */
  predicate IsName(s: string) {
    1 <= |s| <= 64 && 'a' <= s[0] <= 'z' && forall c :: c in s ==> 'a' <= c <= 'z' || '0' <= c <= '9' || c == '-'
  }

  /** What str.strip removes. */
  predicate IsBlank(c: char) {
    || '\t' <= c <= '\r' || '\U{001C}' <= c <= ' ' || c == '\U{0085}' || c == '\U{00A0}' || c == '\U{1680}'
    || '\U{2000}' <= c <= '\U{200A}' || c == '\U{2028}' || c == '\U{2029}' || c == '\U{202F}' || c == '\U{205F}'
    || c == '\U{3000}'
  }

  /** s.strip() leaves something. */
  predicate HasText(s: string) {
    exists c :: c in s && !IsBlank(c)
  }

  predicate ArgvOk(argv: seq<string>) {
    argv != [] && forall part :: part in argv ==> HasText(part) && '\0' !in part
  }

  predicate SourcesOk(sources: seq<Source>) {
    sources != [] && forall source :: source in sources ==> source.committed
  }

  predicate RuntimeOk(r: Runtime) {
    r.owner == "native-command" && HasText(r.launch) && HasText(r.health) && HasText(r.cleanup)
  }

  ghost predicate FlowFieldsOk(f: Flow) {
    && IsName(f.id) && HasText(f.description) && ArgvOk(f.argv) && 1 <= f.timeoutSeconds <= 3600
    && SourcesOk(f.sources) && (f.runtime.Some? ==> RuntimeOk(f.runtime.value))
  }

  ghost predicate DependenciesOk(f: Flow, ids: set<FlowId>) {
    Elements(f.dependsOn) <= ids && Distinct(f.dependsOn) && f.id !in f.dependsOn
  }

  ghost predicate RequirementOk(rule: Requirement, ids: set<FlowId>) {
    && IsName(rule.id) && HasText(rule.description) && SourcesOk(rule.sources)
    && rule.flows != [] && Elements(rule.flows) <= ids && Distinct(rule.flows)
  }

  /** Everything validate_verification_map asks of one map apart from the absence
      of cycles and the timeout budget of the required flows. */
  ghost predicate WellFormed(m: VerificationMap) {
    && m.schemaVersion == 1 && 1 <= |m.flows| <= 32
    && IdsUnique(m.flows) && CommandsUnique(m.flows)
    && (forall f :: f in m.flows ==> FlowFieldsOk(f) && DependenciesOk(f, FlowIds(m.flows)))
    && 1 <= m.maxParallel <= 8
    && (m.requirements.Some? ==>
          && 1 <= |m.requirements.value| <= 64
          && (forall i, j :: 0 <= i < j < |m.requirements.value| ==>
                m.requirements.value[i].id != m.requirements.value[j].id)
          && (forall rule :: rule in m.requirements.value ==> RequirementOk(rule, FlowIds(m.flows))))
  }

  /** Flow ids of the map that belong to s, in the map's reviewed order. */
  function SelectIds(flows: seq<Flow>, s: set<FlowId>): seq<FlowId> {
    if flows == [] then []
    else
      var front, last := flows[..|flows| - 1], flows[|flows| - 1].id;
      SelectIds(front, s) + (if last in s then [last] else [])
  }

  /** Place of a flow in the reviewed order. */
  ghost function Rank(flows: seq<Flow>, id: FlowId): (i: nat)
    requires id in FlowIds(flows)
    ensures i < |flows| && flows[i].id == id
  {
    var f :| f in flows && f.id == id;
    var i :| 0 <= i < |flows| && flows[i] == f;
    i
  }

  lemma {:induction false} SelectIdsElements(flows: seq<Flow>, s: set<FlowId>)
    ensures Elements(SelectIds(flows, s)) == FlowIds(flows) * s
  {
    if flows != [] {
      var front, last := flows[..|flows| - 1], flows[|flows| - 1];
      SelectIdsElements(front, s);
      assert flows == front + [last];
      assert FlowIds(flows) == FlowIds(front) + {last.id};
      var tail := if last.id in s then [last.id] else [];
      assert Elements(SelectIds(flows, s)) == Elements(SelectIds(front, s)) + Elements(tail);
    }
  }

  /** The chosen flows come by increasing rank, hence each once. */
  lemma {:induction false} SelectIdsInOrder(flows: seq<Flow>, s: set<FlowId>, i: nat, j: nat)
    requires IdsUnique(flows) && i < j < |SelectIds(flows, s)|
    ensures SelectIds(flows, s)[i] in FlowIds(flows) && SelectIds(flows, s)[j] in FlowIds(flows)
    ensures Rank(flows, SelectIds(flows, s)[i]) < Rank(flows, SelectIds(flows, s)[j])
  {
    SelectIdsElements(flows, s);
    var ids := SelectIds(flows, s);
    assert ids[i] in Elements(ids) && ids[j] in Elements(ids);
    var front, last := flows[..|flows| - 1], flows[|flows| - 1];
    SelectIdsElements(front, s);
    var rest := SelectIds(front, s);
    assert rest == ids[..|rest|];
    assert ids[i] in Elements(rest);
    assert flows[Rank(front, ids[i])] == front[Rank(front, ids[i])];
    if j < |rest| {
      SelectIdsInOrder(front, s, i, j);
      assert flows[Rank(front, ids[j])] == front[Rank(front, ids[j])];
    }
  }

  // ------------------------------------------------------- required closure

  ghost predicate NeedsWithin(g: Graph, x: FlowId, s: set<FlowId>) {
    x in g ==> Elements(g[x]) <= s
  }

  ghost predicate ClosedUnder(g: Graph, s: set<FlowId>) {
    forall x {:trigger NeedsWithin(g, x, s)} :: x in s ==> NeedsWithin(g, x, s)
  }

  /** Nodes that some walk reaches from a root. */
  ghost predicate Reaches(g: Graph, roots: set<FlowId>, x: FlowId) {
    exists walk :: IsWalk(g, walk) && walk != [] && walk[0] in roots && walk[|walk| - 1] == x
  }

  ghost function Closure(g: Graph, roots: set<FlowId>): set<FlowId> {
    set x | x in g && Reaches(g, roots, x)
  }

  lemma {:induction false} ClosedSetHoldsWalk(g: Graph, s: set<FlowId>, walk: seq<FlowId>, k: nat)
    requires ClosedUnder(g, s) && IsWalk(g, walk) && k < |walk| && walk[0] in s
    ensures walk[k] in s
  {
    if k > 0 {
      ClosedSetHoldsWalk(g, s, walk, k - 1);
      assert NeedsWithin(g, walk[k - 1], s);
      assert walk[k] in Elements(g[walk[k - 1]]);
    }
  }

  lemma RootsReached(g: Graph, roots: set<FlowId>)
    requires roots <= g.Keys
    ensures roots <= Closure(g, roots)
  {
    forall x | x in roots ensures x in Closure(g, roots) {
      assert IsWalk(g, [x]);
      assert Reaches(g, roots, x);
    }
  }

  lemma DependencyReached(g: Graph, roots: set<FlowId>, x: FlowId, d: FlowId)
    requires ClosedGraph(g) && x in g && d in g[x] && Reaches(g, roots, x)
    ensures d in Closure(g, roots)
  {
    var walk :| IsWalk(g, walk) && walk != [] && walk[0] in roots && walk[|walk| - 1] == x;
    ExtendWalk(g, walk, d);
    var longer := walk + [d];
    assert longer[0] in roots && longer[|longer| - 1] == d;
    assert Reaches(g, roots, d);
  }

  lemma ClosureIsClosed(g: Graph, roots: set<FlowId>)
    requires ClosedGraph(g) && roots <= g.Keys
    ensures roots <= Closure(g, roots) <= g.Keys && ClosedUnder(g, Closure(g, roots))
  {
    RootsReached(g, roots);
    forall x | x in Closure(g, roots) ensures NeedsWithin(g, x, Closure(g, roots)) {
      forall d | d in g[x] ensures d in Closure(g, roots) {
        DependencyReached(g, roots, x, d);
      }
    }
  }

  /** Every dependency-closed set that contains the roots contains the closure. */
  lemma ClosureIsLeast(g: Graph, roots: set<FlowId>, s: set<FlowId>)
    requires roots <= s && ClosedUnder(g, s)
    ensures Closure(g, roots) <= s
  {
    forall x | x in Closure(g, roots) ensures x in s {
      var walk :| IsWalk(g, walk) && walk != [] && walk[0] in roots && walk[|walk| - 1] == x;
      ClosedSetHoldsWalk(g, s, walk, |walk| - 1);
    }
  }

  function Roots(rules: seq<Requirement>): set<FlowId> {
    set rule, id | rule in rules && id in rule.flows :: id
  }

  /** What required verification must run: the closure of every requirement's
      flows, in map order. */
  ghost function RequiredIds(m: VerificationMap): seq<FlowId>
    requires WellFormed(m) && m.requirements.Some?
  {
    SelectIds(m.flows, Closure(DependencyGraph(m.flows), Roots(m.requirements.value)))
  }

  /** RequiredIds lists the least dependency-closed set that contains every
      requirement's flows. */
  lemma RequiredIdsAreLeast(m: VerificationMap, s: set<FlowId>)
    requires WellFormed(m) && m.requirements.Some?
    ensures Roots(m.requirements.value) <= Elements(RequiredIds(m))
    ensures ClosedUnder(DependencyGraph(m.flows), Elements(RequiredIds(m)))
    ensures Roots(m.requirements.value) <= s && ClosedUnder(DependencyGraph(m.flows), s) ==>
      Elements(RequiredIds(m)) <= s
  {
    hide Closure, ClosedUnder, SelectIds, FlowFieldsOk, DependenciesOk, RequirementOk;
    var g, roots := DependencyGraph(m.flows), Roots(m.requirements.value);
    WellFormedGraph(m);
    ClosureIsClosed(g, roots);
    SelectIdsElements(m.flows, Closure(g, roots));
    DependencyGraphNodes(m.flows);
    assert Elements(RequiredIds(m)) == Closure(g, roots);
    if roots <= s && ClosedUnder(g, s) {
      ClosureIsLeast(g, roots, s);
    }
  }

  ghost predicate Precedes(flows: seq<Flow>, a: FlowId, b: FlowId) {
    a in FlowIds(flows) && b in FlowIds(flows) && Rank(flows, a) < Rank(flows, b)
  }

  lemma RequiredIdsAreOrdered(m: VerificationMap)
    requires WellFormed(m) && m.requirements.Some?
    ensures forall i, j :: 0 <= i < j < |RequiredIds(m)| ==> Precedes(m.flows, RequiredIds(m)[i], RequiredIds(m)[j])
  {
    forall i, j | 0 <= i < j < |RequiredIds(m)| ensures Precedes(m.flows, RequiredIds(m)[i], RequiredIds(m)[j]) {
      SelectIdsInOrder(m.flows, Closure(DependencyGraph(m.flows), Roots(m.requirements.value)), i, j);
    }
  }

  lemma GraphIsClosed(flows: seq<Flow>)
    requires IdsUnique(flows) && forall f :: f in flows ==> DependenciesOk(f, FlowIds(flows))
    ensures ClosedGraph(DependencyGraph(flows))
  {
    DependencyGraphNodes(flows);
    var g := DependencyGraph(flows);
    forall k, d | k in g && d in g[k] ensures d in g {
      var f :| f in flows && f.id == k;
      assert DependenciesOk(f, FlowIds(flows));
      assert d in Elements(f.dependsOn);
    }
  }

  lemma WellFormedGraph(m: VerificationMap)
    requires WellFormed(m)
    ensures ClosedGraph(DependencyGraph(m.flows))
    ensures m.requirements.Some? ==> Roots(m.requirements.value) <= DependencyGraph(m.flows).Keys
  {
    DependencyGraphNodes(m.flows);
    GraphIsClosed(m.flows);
    if m.requirements.Some? {
      forall id | id in Roots(m.requirements.value) ensures id in DependencyGraph(m.flows) {
        var rule :| rule in m.requirements.value && id in rule.flows;
        assert RequirementOk(rule, FlowIds(m.flows));
        assert id in Elements(rule.flows);
      }
    }
  }

  datatype MapError =
    | SchemaVersion
    | NeedsRequirements | FlowCount | FlowFields | BadDependency | SelfDependency
    | DuplicateCommand | CyclicDependencies | Parallelism | RequirementCount
    | RequirementFields | TimeoutBudget

  /** Every required flow outside the worklist has its dependencies required. */
  ghost predicate Settled(g: Graph, required: set<FlowId>, pending: seq<FlowId>) {
    forall x {:trigger NeedsWithin(g, x, required)} ::
      x in required && x !in pending ==> NeedsWithin(g, x, required)
  }

  /** required_flow_ids: a worklist grows the set of required flows. */
  method RequiredFlowIds(m: VerificationMap) returns (r: Result<seq<FlowId>, MapError>)
    requires WellFormed(m)
    ensures m.requirements.None? ==> r == Err(NeedsRequirements)
    ensures m.requirements.Some? ==> r == Ok(RequiredIds(m))
  {
    if m.requirements.None? || m.requirements.value == [] {
      return Err(NeedsRequirements);
    }
    WellFormedGraph(m);
    var roots := Roots(m.requirements.value);
    var required := CloseFrom(DependencyGraph(m.flows), roots);
    r := Ok(SelectIds(m.flows, required));
  }

  method CloseFrom(byId: Graph, roots: set<FlowId>) returns (required: set<FlowId>)
    requires ClosedGraph(byId) && roots <= byId.Keys
    ensures required == Closure(byId, roots)
  {
    hide Closure, ClosedUnder, NeedsWithin;
    ClosureIsClosed(byId, roots);
    ghost var bound := Closure(byId, roots);
    required := roots;
    var pending := ToSeq(required);
    SettledAtStart(byId, required, pending);
    while pending != []
      invariant roots <= required <= bound
      invariant Elements(pending) <= required
      invariant Settled(byId, required, pending)
      decreases |byId.Keys - required|, |pending|
    {
      required, pending := AddDependencies(byId, bound, required, pending);
    }
    SettledAtEnd(byId, required);
    ClosureIsLeast(byId, roots, required);
  }

  /** One turn of the worklist: pop a flow and queue its unseen dependencies. */
  method AddDependencies(byId: Graph, ghost bound: set<FlowId>, required: set<FlowId>, pending: seq<FlowId>)
      returns (required': set<FlowId>, pending': seq<FlowId>)
    requires pending != [] && bound <= byId.Keys && ClosedUnder(byId, bound)
    requires Elements(pending) <= required <= bound
    requires Settled(byId, required, pending)
    ensures required <= required' <= bound
    ensures Elements(pending') <= required' && Settled(byId, required', pending')
    ensures |byId.Keys - required'| < |byId.Keys - required|
      || (required' == required && |pending'| < |pending|)
  {
    var flow := pending[|pending| - 1];
    assert flow in Elements(pending) && NeedsWithin(byId, flow, bound);
    required', pending' := required, pending[..|pending| - 1];
    assert pending == pending' + [flow];
    var needs := byId[flow];
    for i := 0 to |needs|
      invariant required <= required' <= bound
      invariant Elements(pending') <= required'
      invariant forall x :: x in pending ==> x == flow || x in pending'
      invariant forall x :: x in required' ==> x in required || x in pending'
      invariant forall k :: 0 <= k < i ==> needs[k] in required'
      invariant required' == required ==> pending' == pending[..|pending| - 1]
    {
      var dependency := needs[i];
      assert dependency in Elements(needs);
      if dependency !in required' {
        ghost var before := pending';
        required' := required' + {dependency};
        pending' := pending' + [dependency];
        assert Elements(pending') == Elements(before) + {dependency};
      }
    }
    SettledAfter(byId, required, required', pending, pending', flow);
    SubsetSize(byId.Keys - required', byId.Keys - required);
    if required' != required {
      var x :| x in required' && x !in required;
      assert x in byId.Keys - required && x !in byId.Keys - required';
    }
  }

  lemma SettledAtStart(g: Graph, required: set<FlowId>, pending: seq<FlowId>)
    requires Elements(pending) == required
    ensures Settled(g, required, pending)
  {
    assert forall x :: x in required ==> x in Elements(pending);
  }

  lemma SettledAtEnd(g: Graph, required: set<FlowId>)
    requires Settled(g, required, [])
    ensures ClosedUnder(g, required)
  {
  }

  lemma SettledAfter(g: Graph, required: set<FlowId>, required': set<FlowId>,
                     pending: seq<FlowId>, pending': seq<FlowId>, flow: FlowId)
    requires Settled(g, required, pending) && required <= required'
    requires NeedsWithin(g, flow, required')
    requires forall x :: x in pending ==> x == flow || x in pending'
    requires forall x :: x in required' ==> x in required || x in pending'
    ensures Settled(g, required', pending')
  {
    forall x | x in required' && x !in pending' ensures NeedsWithin(g, x, required') {
      if x != flow {
        assert NeedsWithin(g, x, required);
      }
    }
  }

  /** Some enumeration of a finite set. */
  method ToSeq<T(==)>(s: set<T>) returns (r: seq<T>)
    ensures Elements(r) == s && Distinct(r)
  {
    r := [];
    var rest := s;
    while rest != {}
      invariant Elements(r) + rest == s && Elements(r) !! rest && Distinct(r)
      decreases rest
    {
      var x :| x in rest;
      rest := rest - {x};
      ghost var before := r;
      r := r + [x];
      assert Elements(r) == Elements(before) + {x};
    }
  }

  // ---------------------------------------------------- whole-map validation

  function TimeoutSum(flows: seq<Flow>, s: set<FlowId>): int {
    if flows == [] then 0
    else
      var last := flows[|flows| - 1];
      TimeoutSum(flows[..|flows| - 1], s) + (if last.id in s then last.timeoutSeconds else 0)
  }

  ghost function FlowWith(flows: seq<Flow>, id: FlowId): (f: Flow)
    requires id in FlowIds(flows)
    ensures f in flows && f.id == id
  {
    var f :| f in flows && f.id == id;
    f
  }

  /** sum(by_id[id]["timeout_seconds"] for id in ids) */
  ghost function ListedTimeouts(flows: seq<Flow>, ids: seq<FlowId>): int
    requires forall i :: 0 <= i < |ids| ==> ids[i] in FlowIds(flows)
  {
    if ids == [] then 0 else FlowWith(flows, ids[0]).timeoutSeconds + ListedTimeouts(flows, ids[1..])
  }

  lemma {:induction false} TimeoutWithout(flows: seq<Flow>, s: set<FlowId>, f: Flow)
    requires IdsUnique(flows) && f in flows && f.id in s
    ensures TimeoutSum(flows, s) == TimeoutSum(flows, s - {f.id}) + f.timeoutSeconds
  {
    var front, last := flows[..|flows| - 1], flows[|flows| - 1];
    assert flows == front + [last];
    if last == f {
      OutsideAddsNothing(front, s, f.id);
    } else {
      TimeoutWithout(front, s, f);
    }
  }

  lemma {:induction false} OutsideAddsNothing(flows: seq<Flow>, s: set<FlowId>, id: FlowId)
    requires forall f :: f in flows ==> f.id != id
    ensures TimeoutSum(flows, s - {id}) == TimeoutSum(flows, s)
  {
    if flows != [] {
      assert flows[|flows| - 1] in flows;
      OutsideAddsNothing(flows[..|flows| - 1], s, id);
    }
  }

  lemma {:induction false} NothingToSum(flows: seq<Flow>)
    ensures TimeoutSum(flows, {}) == 0
  {
    if flows != [] {
      NothingToSum(flows[..|flows| - 1]);
    }
  }

  /** The sum over a map's flows is the sum over any list of the chosen ids. */
  lemma {:induction false} TimeoutSumIsListed(flows: seq<Flow>, ids: seq<FlowId>)
    requires IdsUnique(flows) && Distinct(ids) && forall i :: 0 <= i < |ids| ==> ids[i] in FlowIds(flows)
    ensures TimeoutSum(flows, Elements(ids)) == ListedTimeouts(flows, ids)
  {
    if ids == [] {
      NothingToSum(flows);
      assert Elements(ids) == {};
    } else {
      TimeoutWithout(flows, Elements(ids), FlowWith(flows, ids[0]));
      assert Elements(ids) - {ids[0]} == Elements(ids[1..]);
      TimeoutSumIsListed(flows, ids[1..]);
    }
  }

  /** The required flows together fit in two hours. */
  ghost predicate BudgetOk(m: VerificationMap)
    requires WellFormed(m)
  {
    m.requirements.Some? ==>
      TimeoutSum(m.flows, Closure(DependencyGraph(m.flows), Roots(m.requirements.value))) <= 7200
  }

  /** The search over all flows, in map order. */
  method CheckAcyclic(flows: seq<Flow>) returns (ok: bool, ghost order: seq<FlowId>, ghost cycle: seq<FlowId>)
    requires IdsUnique(flows) && ClosedGraph(DependencyGraph(flows))
    ensures ok <==> Acyclic(DependencyGraph(flows))
    ensures ok ==> IsTopological(DependencyGraph(flows), order) && Elements(order) == FlowIds(flows)
    ensures !ok ==> IsCycle(DependencyGraph(flows), cycle)
  {
    var deps := DependencyGraph(flows);
    DependencyGraphNodes(flows);
    var search := new CycleCheck(deps);
    ok, order, cycle := true, [], [];
    for i := 0 to |flows|
      invariant search.Valid() && search.deps == deps && search.stack == []
      invariant fresh(search)
      invariant forall k :: 0 <= k < i ==> flows[k].id in search.visited
    {
      ok, cycle := search.Visit(flows[i].id);
      if !ok {
        return;
      }
    }
    order := search.order;
    TopologicalOrderIsAcyclic(deps, order);
  }

  method CheckFlows(flows: seq<Flow>) returns (r: Outcome<MapError>)
    ensures r.Pass? <==> 1 <= |flows| <= 32 && IdsUnique(flows) && forall f :: f in flows ==> FlowFieldsOk(f)
    ensures r != Fail(CyclicDependencies) && r != Fail(TimeoutBudget)
  {
    hide IsName, HasText, ArgvOk, SourcesOk, RuntimeOk;
    if !(1 <= |flows| <= 32) {
      return Fail(FlowCount);
    }
    var seen: set<FlowId> := {};
    for i := 0 to |flows|
      invariant seen == FlowIds(flows[..i]) && IdsUnique(flows[..i])
      invariant forall k :: 0 <= k < i ==> FlowFieldsOk(flows[k])
    {
      var flow := flows[i];
      assert flow in flows;
      if !IsName(flow.id) || flow.id in seen {
        return Fail(FlowFields);
      }
      seen := seen + {flow.id};
      if !HasText(flow.description) || !ArgvOk(flow.argv) || !(1 <= flow.timeoutSeconds <= 3600) {
        assert !FlowFieldsOk(flow);
        return Fail(FlowFields);
      }
      if !SourcesOk(flow.sources) || (flow.runtime.Some? && !RuntimeOk(flow.runtime.value)) {
        assert !FlowFieldsOk(flow);
        return Fail(FlowFields);
      }
      assert flows[..i + 1] == flows[..i] + [flow];
    }
    assert flows[..|flows|] == flows;
    r := Pass;
  }

  method CheckEdges(flows: seq<Flow>) returns (r: Outcome<MapError>)
    ensures r.Pass? <==>
      CommandsUnique(flows) && forall f :: f in flows ==> DependenciesOk(f, FlowIds(flows))
    ensures r != Fail(CyclicDependencies) && r != Fail(TimeoutBudget)
  {
    var seen := FlowIds(flows);
    var commands: set<seq<string>> := {};
    for i := 0 to |flows|
      invariant commands == set k | 0 <= k < i :: flows[k].argv
      invariant CommandsUnique(flows[..i])
      invariant forall k :: 0 <= k < i ==> DependenciesOk(flows[k], seen)
    {
      var flow := flows[i];
      var distinct := HasNoRepeats(flow.dependsOn);
      assert flow in flows;
      if !(Elements(flow.dependsOn) <= seen) || !distinct {
        return Fail(BadDependency);
      }
      if flow.id in flow.dependsOn {
        return Fail(SelfDependency);
      }
      if flow.argv in commands {
        return Fail(DuplicateCommand);
      }
      commands := commands + {flow.argv};
      assert flows[..i + 1] == flows[..i] + [flow];
    }
    assert flows[..|flows|] == flows;
    r := Pass;
  }

  /** len(set(xs)) == len(xs). */
  method HasNoRepeats<T(==)>(s: seq<T>) returns (distinct: bool)
    ensures distinct <==> Distinct(s)
  {
    var seen: set<T> := {};
    for i := 0 to |s|
      invariant seen == Elements(s[..i]) && Distinct(s[..i])
    {
      if s[i] in seen {
        return false;
      }
      seen := seen + {s[i]};
      assert s[..i + 1] == s[..i] + [s[i]];
    }
    assert s[..|s|] == s;
    distinct := true;
  }

  method CheckRequirements(rules: seq<Requirement>, ids: set<FlowId>) returns (r: Outcome<MapError>)
    ensures r.Pass? <==>
      && 1 <= |rules| <= 64
      && (forall i, j :: 0 <= i < j < |rules| ==> rules[i].id != rules[j].id)
      && (forall rule :: rule in rules ==> RequirementOk(rule, ids))
    ensures r != Fail(CyclicDependencies) && r != Fail(TimeoutBudget)
  {
    hide IsName, HasText, SourcesOk;
    if !(1 <= |rules| <= 64) {
      return Fail(RequirementCount);
    }
    var requirementIds: set<string> := {};
    for i := 0 to |rules|
      invariant requirementIds == set k | 0 <= k < i :: rules[k].id
      invariant forall a, b :: 0 <= a < b < i ==> rules[a].id != rules[b].id
      invariant forall k :: 0 <= k < i ==> RequirementOk(rules[k], ids)
    {
      var rule := rules[i];
      assert rule in rules;
      if !IsName(rule.id) || rule.id in requirementIds {
        return Fail(RequirementFields);
      }
      requirementIds := requirementIds + {rule.id};
      if !HasText(rule.description) || !SourcesOk(rule.sources) {
        assert !RequirementOk(rule, ids);
        return Fail(RequirementFields);
      }
      var distinct := HasNoRepeats(rule.flows);
      if rule.flows == [] || !(Elements(rule.flows) <= ids) || !distinct {
        assert !RequirementOk(rule, ids);
        return Fail(RequirementFields);
      }
    }
    r := Pass;
  }

  /** validate_verification_map: a map passes exactly when its fields are well
      formed, its dependency graph has no cycle and its required flows fit the
      budget. A pass comes with a topological order of all flows, a cycle error
      with an actual cycle. */
  method ValidateMap(m: VerificationMap)
      returns (r: Outcome<MapError>, ghost order: seq<FlowId>, ghost cycle: seq<FlowId>)
    ensures r.Pass? <==> WellFormed(m) && Acyclic(DependencyGraph(m.flows)) && BudgetOk(m)
    ensures r.Pass? ==> IsTopological(DependencyGraph(m.flows), order) && Elements(order) == FlowIds(m.flows)
    ensures r == Fail(CyclicDependencies) ==>
      IdsUnique(m.flows) && IsCycle(DependencyGraph(m.flows), cycle)
    ensures r == Fail(CyclicDependencies) <==>
      && m.schemaVersion == 1 && 1 <= |m.flows| <= 32 && IdsUnique(m.flows) && CommandsUnique(m.flows)
      && (forall f :: f in m.flows ==> FlowFieldsOk(f) && DependenciesOk(f, FlowIds(m.flows)))
      && !Acyclic(DependencyGraph(m.flows))
    ensures r == Fail(TimeoutBudget) <==> WellFormed(m) && Acyclic(DependencyGraph(m.flows)) && !BudgetOk(m)
  {
    order, cycle := [], [];
    if m.schemaVersion != 1 {
      return Fail(SchemaVersion), order, cycle;
    }
    r := CheckFlows(m.flows);
    if r.Fail? {
      return;
    }
    r := CheckEdges(m.flows);
    if r.Fail? {
      return;
    }
    GraphIsClosed(m.flows);
    var acyclic;
    acyclic, order, cycle := CheckAcyclic(m.flows);
    if !acyclic {
      return Fail(CyclicDependencies), order, cycle;
    }
    if !(1 <= m.maxParallel <= 8) {
      return Fail(Parallelism), order, cycle;
    }
    if m.requirements.Some? {
      r := CheckRequirements(m.requirements.value, FlowIds(m.flows));
      if r.Fail? {
        return;
      }
      WellFormedGraph(m);
      var required := CloseFrom(DependencyGraph(m.flows), Roots(m.requirements.value));
      if TimeoutSum(m.flows, required) > 7200 {
        return Fail(TimeoutBudget), order, cycle;
      }
    }
    r := Pass;
  }
}
