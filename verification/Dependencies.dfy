/** The dependency check between agents: a depth-first search, and the store it keeps acyclic. */
module Dependencies {
  import opened Text

  type Graph = map<string, seq<string>>

  /** An agent that is not stored has no dependencies. */
  function Deps(graph: Graph, node: string): seq<string> {
    if node in graph then graph[node] else []
  }

  ghost predicate IsPath(graph: Graph, path: seq<string>) {
    path != [] && forall i :: 0 <= i < |path| - 1 ==> path[i + 1] in Deps(graph, path[i])
  }

  ghost predicate IsCycle(graph: Graph, path: seq<string>) {
    IsPath(graph, path) && |path| > 1 && path[0] == path[|path| - 1]
  }

  ghost predicate Acyclic(graph: Graph) {
    forall path :: !IsCycle(graph, path)
  }

  /** A path from `node` that comes back to a node it has already visited. */
  ghost predicate ReachesCycle(graph: Graph, node: string) {
    exists path, i, j :: IsPath(graph, path) && path[0] == node && 0 <= i < j < |path| && path[i] == path[j]
  }

  /** A finishing order: nodes listed once, each after everything it depends on. */
  ghost predicate Finishing(graph: Graph, order: seq<string>) {
    && (forall i, d :: 0 <= i < |order| && d in Deps(graph, order[i]) ==> d in order[..i])
    && (forall i, j :: 0 <= i < j < |order| ==> order[i] != order[j])
  }

  ghost function Nodes(graph: Graph): set<string> {
    graph.Keys + (set k, i | k in graph && 0 <= i < |graph[k]| :: graph[k][i])
  }

  /** Along a path that starts in a finishing order, positions strictly fall, so nothing repeats. */
  lemma {:induction false} PathFalls(graph: Graph, order: seq<string>, path: seq<string>, at: nat)
    requires Finishing(graph, order) && IsPath(graph, path) && at < |order| && order[at] == path[0]
    ensures forall j :: 0 < j < |path| ==> path[j] in order[..at]
  {
    if |path| > 1 {
      var rest := path[1..];
      assert path[1] in Deps(graph, path[0]) && path[1] in order[..at];
      var next :| 0 <= next < at && order[next] == path[1];
      forall i | 0 <= i < |rest| - 1 ensures rest[i + 1] in Deps(graph, rest[i]) {
        assert path[i + 2] in Deps(graph, path[i + 1]);
      }
      PathFalls(graph, order, rest, next);
      forall j | 0 < j < |path| ensures path[j] in order[..at] {
        if j > 1 {
          assert rest[j - 1] in order[..next];
          assert order[..next] == order[..at][..next];
        }
      }
    }
  }

  lemma PathSuffix(graph: Graph, path: seq<string>, i: nat)
    requires IsPath(graph, path) && i < |path|
    ensures IsPath(graph, path[i..])
  {
    var rest := path[i..];
    forall k | 0 <= k < |rest| - 1 ensures rest[k + 1] in Deps(graph, rest[k]) {
      assert path[i + k + 1] in Deps(graph, path[i + k]);
    }
  }

  lemma FinishedReachesNoCycle(graph: Graph, order: seq<string>, node: string)
    requires Finishing(graph, order) && node in order
    ensures !ReachesCycle(graph, node)
  {
    forall path, i, j | IsPath(graph, path) && path[0] == node && 0 <= i < j < |path| ensures path[i] != path[j] {
      var start :| 0 <= start < |order| && order[start] == node;
      PathFalls(graph, order, path, start);
      assert path[i] in order;
      var at :| 0 <= at < |order| && order[at] == path[i];
      PathSuffix(graph, path, i);
      PathFalls(graph, order, path[i..], at);
      assert path[i..][j - i] == path[j] && path[j] in order[..at];
    }
  }

  lemma {:induction false} Extend(graph: Graph, path: seq<string>, node: string)
    requires path == [] || (IsPath(graph, path) && node in Deps(graph, path[|path| - 1]))
    ensures IsPath(graph, path + [node])
  {
    var longer := path + [node];
    forall i | 0 <= i < |longer| - 1 ensures longer[i + 1] in Deps(graph, longer[i]) {
      if i < |path| - 1 { assert path[i + 1] in Deps(graph, path[i]); }
    }
  }

  /** The search state: `visiting` and `visited` as in the source, with the path and order that explain them. */
  class Search {
    const graph: Graph
    ghost const root: string
    ghost const universe: set<string>
    var visiting: set<string>
    var visited: set<string>
    ghost var stack: seq<string>
    ghost var order: seq<string>

    ghost predicate Valid()
      reads this
    {
      && universe >= Nodes(graph) && visiting <= universe && visiting !! visited
      && OnPath(graph, visiting, stack, root) && Finished(graph, visited, order)
    }

    constructor (graph: Graph, root: string)
      ensures Valid() && stack == [] && order == [] && visiting == {}
      ensures this.graph == graph && this.root == root && root in universe
    {
      this.graph, this.root, this.universe := graph, root, Nodes(graph) + {root};
      visiting, visited, stack, order := {}, {}, [], [];
    }

    /** `node` is the search's root, or a dependency of the node on top of the path. */
    ghost predicate MayVisit(node: string)
      reads this
    {
      node in universe && (if stack == [] then node == root else node in Deps(graph, stack[|stack| - 1]))
    }

    method Enter(node: string)
      requires Valid() && MayVisit(node) && node !in visiting && node !in visited
      modifies this
      ensures Valid() && visiting == old(visiting) + {node} && stack == old(stack) + [node]
      ensures visited == old(visited) && order == old(order)
    {
      EnterPath(graph, visiting, stack, root, node);
      visiting, stack := visiting + {node}, stack + [node];
    }

    method Leave(node: string)
      requires Valid() && stack != [] && stack[|stack| - 1] == node
      requires forall d :: d in Deps(graph, node) ==> d in visited
      modifies this
      ensures Valid() && visiting == old(visiting) - {node} && stack == old(stack)[..|old(stack)| - 1]
      ensures visited == old(visited) + {node}
    {
      LeavePath(graph, visiting, stack, root);
      Finish(graph, visited, order, node);
      visiting, visited := visiting - {node}, visited + {node};
      stack, order := stack[..|stack| - 1], order + [node];
    }

    method Visit(node: string) returns (ok: bool)
      requires Valid() && MayVisit(node)
      modifies this
      ensures ok ==> Valid() && node in visited && old(visited) <= visited
      ensures ok ==> visiting == old(visiting) && stack == old(stack)
      ensures !ok ==> ReachesCycle(graph, root)
      decreases |universe - visiting|, 0
    {
      if node in visiting {
        CycleFound(graph, visiting, stack, root, node);
        return false;
      }
      if node in visited {
        return true;
      }
      Smaller(universe, visiting, node);
      Enter(node);
      ok := VisitAll(Deps(graph, node));
      if ok {
        Leave(node);
      }
    }

    /** The loop over the dependencies of the node on top of the path. */
    method VisitAll(deps: seq<string>) returns (ok: bool)
      requires Valid() && stack != [] && deps == Deps(graph, stack[|stack| - 1])
      modifies this
      ensures ok ==> Valid() && old(visited) <= visited && forall d :: d in deps ==> d in visited
      ensures ok ==> visiting == old(visiting) && stack == old(stack)
      ensures !ok ==> ReachesCycle(graph, root)
      decreases |universe - visiting|, 1
    {
      DepsAreNodes(graph, stack[|stack| - 1]);
      for i := 0 to |deps|
        invariant Valid() && visiting == old(visiting) && stack == old(stack)
        invariant old(visited) <= visited && forall j :: 0 <= j < i ==> deps[j] in visited
      {
        ok := Visit(deps[i]);
        if !ok {
          return;
        }
      }
      ok := true;
    }
  }

  lemma Smaller(universe: set<string>, visiting: set<string>, node: string)
    requires node in universe && node !in visiting
    ensures |universe - (visiting + {node})| < |universe - visiting|
  {
    assert universe - (visiting + {node}) == (universe - visiting) - {node};
  }

  lemma DepsAreNodes(graph: Graph, node: string)
    ensures forall i :: 0 <= i < |Deps(graph, node)| ==> Deps(graph, node)[i] in Nodes(graph)
  {
    forall i | 0 <= i < |Deps(graph, node)| ensures Deps(graph, node)[i] in Nodes(graph) {
      assert node in graph;
    }
  }

  /** `visiting` is the set of the nodes on the current path from the root, which repeats none. */
  ghost predicate OnPath(graph: Graph, visiting: set<string>, stack: seq<string>, root: string) {
    && (forall x :: x in visiting <==> x in stack)
    && (forall i, j :: 0 <= i < j < |stack| ==> stack[i] != stack[j])
    && (stack != [] ==> IsPath(graph, stack) && stack[0] == root)
  }

  ghost predicate Finished(graph: Graph, visited: set<string>, order: seq<string>) {
    (forall x :: x in visited <==> x in order) && Finishing(graph, order)
  }

  lemma EnterPath(graph: Graph, visiting: set<string>, stack: seq<string>, root: string, node: string)
    requires OnPath(graph, visiting, stack, root) && node !in visiting
    requires if stack == [] then node == root else node in Deps(graph, stack[|stack| - 1])
    ensures OnPath(graph, visiting + {node}, stack + [node], root)
  {
    Extend(graph, stack, node);
  }

  lemma ShorterPath(graph: Graph, stack: seq<string>, n: nat)
    requires IsPath(graph, stack) && 0 < n <= |stack|
    ensures IsPath(graph, stack[..n])
  {
    forall i | 0 <= i < n - 1 ensures stack[..n][i + 1] in Deps(graph, stack[..n][i]) {
      assert stack[i + 1] in Deps(graph, stack[i]);
    }
  }

  lemma LeavePath(graph: Graph, visiting: set<string>, stack: seq<string>, root: string)
    requires OnPath(graph, visiting, stack, root) && stack != []
    ensures OnPath(graph, visiting - {stack[|stack| - 1]}, stack[..|stack| - 1], root)
  {
    var n := |stack| - 1;
    assert stack == stack[..n] + [stack[n]];
    if n > 0 { ShorterPath(graph, stack, n); }
  }

  lemma CycleFound(graph: Graph, visiting: set<string>, stack: seq<string>, root: string, node: string)
    requires OnPath(graph, visiting, stack, root) && node in visiting
    requires if stack == [] then node == root else node in Deps(graph, stack[|stack| - 1])
    ensures ReachesCycle(graph, root)
  {
    assert node in stack;
    Extend(graph, stack, node);
    var i :| 0 <= i < |stack| && stack[i] == node;
    var path := stack + [node];
    assert path[i] == path[|stack|] && path[0] == stack[0];
  }

  lemma Finish(graph: Graph, visited: set<string>, order: seq<string>, node: string)
    requires Finished(graph, visited, order) && node !in visited && forall d :: d in Deps(graph, node) ==> d in visited
    ensures Finished(graph, visited + {node}, order + [node])
  {
    var longer := order + [node];
    assert longer[..|order|] == order;
    forall i, d | 0 <= i < |longer| && d in Deps(graph, longer[i]) ensures d in longer[..i] {
      if i < |order| { assert longer[..i] == order[..i]; }
    }
  }

  /** The search raises exactly when a cycle can be reached from the agent. */
  method FindsNoCycle(graph: Graph, agent: string) returns (ok: bool)
    ensures ok <==> !ReachesCycle(graph, agent)
  {
    var search := new Search(graph, agent);
    ok := search.Visit(agent);
    if ok {
      FinishedReachesNoCycle(graph, search.order, agent);
    }
  }

  // ----- the stored definitions

  const MAX_AGENT_STEPS := 8

  datatype Agent = Agent(deps: seq<string>, client: Option<string>)

  function GraphOf(agents: map<string, Agent>): Graph {
    map id | id in agents :: agents[id].deps
  }

  /** The dependency may be seen from the client's scope. */
  predicate InScope(agents: map<string, Agent>, d: string, client: Option<string>) {
    d in agents && (agents[d].client.None? || agents[d].client == client)
  }

  predicate WellFormed(agents: map<string, Agent>, agent: string, deps: seq<string>, client: Option<string>) {
    && |deps| <= MAX_AGENT_STEPS
    && (forall i :: 0 <= i < |deps| ==> !IsBlank(deps[i]) && deps[i] != agent && InScope(agents, deps[i], client))
    && (forall i, j :: 0 <= i < j < |deps| ==> deps[i] != deps[j])
  }

  ghost predicate MayDepend(agents: map<string, Agent>, agent: string, deps: seq<string>, client: Option<string>) {
    WellFormed(agents, agent, deps, client) && !ReachesCycle(GraphOf(agents)[agent := deps], agent)
  }

  /** `_validate_dependencies`: true where the source returns, false where it raises. */
  method ValidateDependencies(agents: map<string, Agent>, agent: string, deps: seq<string>, client: Option<string>)
    returns (ok: bool)
    ensures ok <==> MayDepend(agents, agent, deps, client)
  {
    if !WellFormed(agents, agent, deps, client) {
      return false;
    }
    ok := FindsNoCycle(GraphOf(agents)[agent := deps], agent);
  }

  /** `valid` stands for the remaining checks of a definition. */
  datatype Edit =
    | Create(id: string, deps: seq<string>, client: Option<string>, valid: bool)
    | Update(id: string, deps: seq<string>, valid: bool)

  ghost function ApplyEdit(agents: map<string, Agent>, e: Edit): map<string, Agent> {
    match e
    case Create(id, deps, client, valid) =>
      if valid && id !in agents && MayDepend(agents, id, deps, client) then agents[id := Agent(deps, client)] else agents
    case Update(id, deps, valid) =>
      if valid && id in agents && MayDepend(agents, id, deps, agents[id].client)
      then agents[id := agents[id].(deps := deps)] else agents
  }

  ghost function ApplyEdits(agents: map<string, Agent>, edits: seq<Edit>): map<string, Agent>
    decreases |edits|
  {
    if edits == [] then agents
    else ApplyEdit(ApplyEdits(agents, edits[..|edits| - 1]), edits[|edits| - 1])
  }

  lemma Rotate(graph: Graph, path: seq<string>, k: nat)
    requires IsCycle(graph, path) && k < |path|
    ensures ReachesCycle(graph, path[k])
  {
    var turned := path[k..] + path[1..k + 1];
    forall i | 0 <= i < |turned| - 1 ensures turned[i + 1] in Deps(graph, turned[i]) {
      if i < |path| - k - 1 {
        assert path[k + i + 1] in Deps(graph, path[k + i]);
      } else {
        var m := i - (|path| - k - 1);
        assert turned[i] == path[m] && turned[i + 1] == path[m + 1];
        assert path[m + 1] in Deps(graph, path[m]);
      }
    }
    assert IsPath(graph, turned);
    assert turned[0] == path[k];
    if k == 0 {
      assert turned[0] == turned[|path| - 1];
    } else {
      assert turned[|turned| - 1] == path[k];
    }
  }

  lemma CycleElsewhere(graph: Graph, agent: string, deps: seq<string>, path: seq<string>)
    requires IsCycle(graph[agent := deps], path) && agent !in path
    ensures IsCycle(graph, path)
  {
    forall i | 0 <= i < |path| - 1 ensures path[i + 1] in Deps(graph, path[i]) {
      assert path[i + 1] in Deps(graph[agent := deps], path[i]);
    }
  }

  /** Redirecting one agent's dependencies can only create cycles through that agent. */
  lemma RedirectKeepsAcyclic(graph: Graph, agent: string, deps: seq<string>)
    requires Acyclic(graph) && !ReachesCycle(graph[agent := deps], agent)
    ensures Acyclic(graph[agent := deps])
  {
    var after := graph[agent := deps];
    forall path ensures !IsCycle(after, path) {
      if IsCycle(after, path) {
        if k :| 0 <= k < |path| && path[k] == agent {
          Rotate(after, path, k);
        } else {
          CycleElsewhere(graph, agent, deps, path);
        }
      }
    }
  }

  lemma EditKeepsAcyclic(agents: map<string, Agent>, e: Edit)
    requires Acyclic(GraphOf(agents))
    ensures Acyclic(GraphOf(ApplyEdit(agents, e)))
  {
    var after := ApplyEdit(agents, e);
    if after != agents {
      RedirectKeepsAcyclic(GraphOf(agents), e.id, e.deps);
      assert GraphOf(after) == GraphOf(agents)[e.id := e.deps];
    }
  }

  /** Main result: no sequence of creates and updates, accepted or not, ever stores a dependency cycle. */
  lemma {:induction false} StoreStaysAcyclic(edits: seq<Edit>)
    ensures Acyclic(GraphOf(ApplyEdits(map[], edits)))
  {
    if edits == [] {
      var none: Graph := GraphOf(map[]);
      assert forall path :: IsPath(none, path) && |path| > 1 ==> path[0 + 1] in Deps(none, path[0]);
    } else {
      StoreStaysAcyclic(edits[..|edits| - 1]);
      EditKeepsAcyclic(ApplyEdits(map[], edits[..|edits| - 1]), edits[|edits| - 1]);
    }
  }

  /** The store that definitions are created in and updated in. */
  class Registry {
    var agents: map<string, Agent>

    constructor ()
      ensures agents == map[]
    {
      agents := map[];
    }

    method CreateAgent(id: string, deps: seq<string>, client: Option<string>, valid: bool) returns (ok: bool)
      modifies this
      ensures agents == ApplyEdit(old(agents), Create(id, deps, client, valid))
      ensures ok <==> valid && id !in old(agents) && MayDepend(old(agents), id, deps, client)
      ensures agents == if ok then old(agents)[id := Agent(deps, client)] else old(agents)
    {
      ok := ValidateDependencies(agents, id, deps, client);
      ok := ok && valid && id !in agents;
      if ok {
        agents := agents[id := Agent(deps, client)];
      }
    }

    method UpdateAgent(id: string, deps: seq<string>, valid: bool) returns (ok: bool)
      modifies this
      ensures agents == ApplyEdit(old(agents), Update(id, deps, valid))
      ensures ok <==> valid && id in old(agents) && MayDepend(old(agents), id, deps, old(agents)[id].client)
      ensures agents == if ok then old(agents)[id := Agent(deps, old(agents)[id].client)] else old(agents)
    {
      if id !in agents {
        return false;
      }
      ok := ValidateDependencies(agents, id, deps, agents[id].client);
      ok := ok && valid;
      if ok {
        agents := agents[id := agents[id].(deps := deps)];
      }
    }
  }

  // ----- what the store holds

  /** What a dependency list must be, in full. */
  lemma MayDependExactly(agents: map<string, Agent>, agent: string, deps: seq<string>, client: Option<string>)
    ensures MayDepend(agents, agent, deps, client) <==>
      && |deps| <= 8 && !ReachesCycle(GraphOf(agents)[agent := deps], agent)
      && (forall i, j :: 0 <= i < j < |deps| ==> deps[i] != deps[j])
      && forall i :: 0 <= i < |deps| ==>
           && deps[i] != agent && deps[i] in agents && !(forall c :: c in deps[i] ==> IsSpace(c))
           && (agents[deps[i]].client.None? || agents[deps[i]].client == client)
  {
    forall i | 0 <= i < |deps| ensures IsBlank(deps[i]) <==> forall c :: c in deps[i] ==> IsSpace(c) {}
  }

  /** Every dependency is stored, is another agent, and belongs to no other client. */
  predicate Visible(agents: map<string, Agent>, id: string)
    requires id in agents
  {
    && |agents[id].deps| <= 8
    && forall i :: 0 <= i < |agents[id].deps| ==> SeenBy(agents, agents[id].deps[i], id)
  }

  predicate SeenBy(agents: map<string, Agent>, d: string, id: string)
    requires id in agents
  {
    d in agents && d != id && (agents[d].client.None? || agents[d].client == agents[id].client)
  }

  ghost predicate AllVisible(agents: map<string, Agent>) {
    forall id :: id in agents ==> Visible(agents, id)
  }

  lemma EditKeepsVisible(agents: map<string, Agent>, e: Edit)
    requires AllVisible(agents)
    ensures AllVisible(ApplyEdit(agents, e))
  {
    var after := ApplyEdit(agents, e);
    forall id | id in after ensures Visible(after, id) {
      if id in agents { assert Visible(agents, id); }
    }
  }

  /** No sequence of edits ever stores a dependency that is missing or belongs to another client. */
  lemma {:induction false} StoreStaysVisible(edits: seq<Edit>)
    ensures AllVisible(ApplyEdits(map[], edits))
  {
    if edits != [] {
      StoreStaysVisible(edits[..|edits| - 1]);
      EditKeepsVisible(ApplyEdits(map[], edits[..|edits| - 1]), edits[|edits| - 1]);
    }
  }
}
