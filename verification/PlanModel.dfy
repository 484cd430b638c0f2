/** The delivery plan as it is read from GitHub, and its admission check. */
module PlanModel {
  import opened Collections
  import opened PlanGraph

  const PLAN_LABEL := "workflow:plan"
  const TICKET_LABEL := "workflow:ticket"
  const ACTIVE_LABEL := "workflow:active"
  const DELIVERED_LABEL := "workflow:delivered"

  datatype Issue = Issue(
    id: int,
    number: int,
    title: string,
    body: string,
    state: string,
    labels: seq<string>,
    delivered: bool)
  {
    predicate HasLabel(name: string) { name in labels }
    predicate IsTicket() { HasLabel(TICKET_LABEL) }
    predicate IsPlanRoot() { HasLabel(PLAN_LABEL) && !HasLabel(TICKET_LABEL) }
  }

  datatype Snapshot = Snapshot(
    repository: string,
    root: Issue,
    children: seq<Issue>,
    blockedBy: map<int, seq<Issue>>)

  function Ids(issues: seq<Issue>): (r: seq<int>)
    ensures |r| == |issues| && forall i :: 0 <= i < |r| ==> r[i] == issues[i].id
  {
    seq(|issues|, i requires 0 <= i < |issues| => issues[i].id)
  }

  function Numbers(issues: seq<Issue>): (r: seq<int>)
    ensures |r| == |issues| && forall i :: 0 <= i < |r| ==> r[i] == issues[i].number
  {
    seq(|issues|, i requires 0 <= i < |issues| => issues[i].number)
  }

  /** The blocker graph a snapshot describes. */
  function BlockerGraph(s: Snapshot): Graph {
    map blocked | blocked in s.blockedBy :: Ids(s.blockedBy[blocked])
  }

  // ----- What an admissible plan is -----------------------------------------

  predicate RootAdmissible(s: Snapshot) {
    && s.repository != "" && s.root.id != 0 && s.root.number != 0
    && s.root.IsPlanRoot()
    && |s.children| > 0
  }

  predicate ChildAdmissible(s: Snapshot, child: Issue) {
    && child.id != 0 && child.number != 0
    && child.id != s.root.id && child.number != s.root.number
    && child.IsTicket()
  }

  predicate BlockerAdmissible(s: Snapshot, blocker: Issue) {
    && blocker.id != 0 && blocker.number != 0
    && blocker.id != s.root.id && blocker.number != s.root.number
    && blocker.id in Ids(s.children)
    && (blocker.state == "closed" ==> blocker.delivered)
  }

  ghost predicate ChildrenAdmissible(s: Snapshot) {
    && (forall c :: c in s.children ==> ChildAdmissible(s, c))
    && Distinct(Ids(s.children))
    && Distinct(Numbers(s.children))
  }

  ghost predicate BlockersAdmissible(s: Snapshot, blocked: int)
    requires blocked in s.blockedBy
  {
    && blocked in Ids(s.children)
    && (forall b :: b in s.blockedBy[blocked] ==> BlockerAdmissible(s, b))
    && Distinct(Ids(s.blockedBy[blocked]))
  }

  /** The admission rule, stated without an algorithm or a visiting order. */
  ghost predicate ValidPlan(s: Snapshot) {
    && RootAdmissible(s)
    && ChildrenAdmissible(s)
    && (forall blocked :: blocked in s.blockedBy ==> BlockersAdmissible(s, blocked))
    && !Cyclic(BlockerGraph(s), Elements(Ids(s.children)))
  }

  lemma ValidPlanClosed(s: Snapshot)
    requires forall blocked :: blocked in s.blockedBy ==> BlockersAdmissible(s, blocked)
    ensures Closed(BlockerGraph(s), Elements(Ids(s.children)))
  {
    forall n, b | n in Elements(Ids(s.children)) && b in Blockers(BlockerGraph(s), n)
      ensures b in Elements(Ids(s.children))
    {
      var i :| 0 <= i < |s.blockedBy[n]| && s.blockedBy[n][i].id == b;
      assert BlockerAdmissible(s, s.blockedBy[n][i]);
    }
  }

  // ----- Three-colour depth-first search --------------------------------------

  datatype Colour = Visiting | Visited

  /** Finished nodes have only finished blockers and lie on no cycle. */
  ghost predicate FinishedPart(g: Graph, state: map<int, Colour>) {
    forall n :: n in state && state[n] == Visited ==>
      && !Reaches(g, n, n)
      && forall b :: b in Blockers(g, n) ==> b in state && state[b] == Visited
  }

  /** The nodes being visited are exactly the current blocker path. */
  ghost predicate OnStack(g: Graph, state: map<int, Colour>, stack: seq<int>) {
    && (stack != [] ==> IsPath(g, stack))
    && (forall n :: n in stack <==> n in state && state[n] == Visiting)
  }

  /** What holds whenever the search stands at the end of `stack`. */
  ghost predicate Search(g: Graph, nodes: set<int>, state: map<int, Colour>, stack: seq<int>) {
    && state.Keys <= nodes
    && FinishedPart(g, state)
    && OnStack(g, state, stack)
  }

  ghost predicate Finished(state: map<int, Colour>, n: int) {
    n in state && state[n] == Visited
  }

  ghost predicate FinishedGrows(before: map<int, Colour>, after: map<int, Colour>) {
    && before.Keys <= after.Keys
    && forall n :: Finished(before, n) ==> Finished(after, n)
  }

  lemma FinishedPrefix(before: map<int, Colour>, after: map<int, Colour>, blockers: seq<int>, i: nat)
    requires i < |blockers| && FinishedGrows(before, after)
    requires forall k :: 0 <= k < i ==> Finished(before, blockers[k])
    requires Finished(after, blockers[i])
    ensures forall k :: 0 <= k <= i ==> Finished(after, blockers[k])
  {}

  lemma EnterNode(g: Graph, nodes: set<int>, state: map<int, Colour>, stack: seq<int>, node: int)
    requires Search(g, nodes, state, stack) && node in nodes && node !in state
    requires stack != [] ==> node in Blockers(g, stack[|stack| - 1])
    ensures Search(g, nodes, state[node := Visiting], stack + [node])
    ensures FinishedGrows(state, state[node := Visiting])
  {
    var path := stack + [node];
    forall i | 0 <= i < |path| - 1 ensures path[i + 1] in Blockers(g, path[i]) {
      if i == |path| - 2 { assert path[i] == stack[|stack| - 1]; }
    }
  }

  /** Finishing a node whose blockers are all finished closes no cycle. */
  lemma LeaveNode(g: Graph, nodes: set<int>, state: map<int, Colour>, stack: seq<int>, node: int)
    requires Search(g, nodes, state, stack + [node]) && node !in stack
    requires forall b :: b in Blockers(g, node) ==> Finished(state, b)
    ensures Search(g, nodes, state[node := Visited], stack)
    ensures FinishedGrows(state, state[node := Visited])
  {
    var path := stack + [node];
    assert forall i :: 0 <= i < |stack| ==> path[i] == stack[i];
    assert node in path;
    var finished := set n | n in state && state[n] == Visited;
    assert Closed(g, finished);
    if Reaches(g, node, node) {
      var b := ReachesFirst(g, node, node);
      if b != node {
        ClosedReaches(g, finished, b, node);
      }
    }
    forall n ensures n in stack <==> n in state[node := Visited] && state[node := Visited][n] == Visiting {
      if n in stack { assert n in path; }
    }
  }

  /** Meeting a node that is still being visited exhibits a cycle. */
  lemma BackEdge(g: Graph, nodes: set<int>, stack: seq<int>, node: int)
    requires stack != [] && IsPath(g, stack)
    requires node in Blockers(g, stack[|stack| - 1]) && node in stack && node in nodes
    ensures Cyclic(g, nodes)
  {
    var i :| 0 <= i < |stack| && stack[i] == node;
    assert PathFrom(g, stack[i..] + [node], node);
    assert Reaches(g, node, node);
  }

  class CycleSearch {
    const adjacency: Graph
    var state: map<int, Colour>

    constructor (adjacency: Graph)
      ensures this.adjacency == adjacency && state == map[]
    {
      this.adjacency := adjacency;
      state := map[];
    }

    /** The recursive closure of hasCycle; a missing key is the unseen colour. */
    method Visit(node: int, ghost nodes: set<int>, ghost stack: seq<int>) returns (cyclic: bool)
      requires node in nodes && Closed(adjacency, nodes)
      requires Search(adjacency, nodes, state, stack)
      requires stack != [] ==> node in Blockers(adjacency, stack[|stack| - 1])
      modifies this
      ensures cyclic ==> Cyclic(adjacency, nodes)
      ensures !cyclic ==>
        && Search(adjacency, nodes, state, stack)
        && Finished(state, node)
        && FinishedGrows(old(state), state)
      decreases |nodes - state.Keys|, 0
    {
      if node in state && state[node] == Visiting {
        BackEdge(adjacency, nodes, stack, node);
        return true;
      }
      if node in state && state[node] == Visited {
        return false;
      }
      EnterNode(adjacency, nodes, state, stack, node);
      SubsetSmaller(nodes - (state.Keys + {node}), nodes - state.Keys, node);
      state := state[node := Visiting];
      cyclic := VisitBlockers(Blockers(adjacency, node), node, nodes, stack);
      if cyclic {
        return true;
      }
      LeaveNode(adjacency, nodes, state, stack, node);
      state := state[node := Visited];
      return false;
    }

    /** The loop of the closure, over the blockers of the node just entered. */
    method VisitBlockers(blockers: seq<int>, node: int, ghost nodes: set<int>, ghost stack: seq<int>) returns (cyclic: bool)
      requires node in nodes && Closed(adjacency, nodes) && blockers == Blockers(adjacency, node)
      requires Search(adjacency, nodes, state, stack + [node])
      modifies this
      ensures cyclic ==> Cyclic(adjacency, nodes)
      ensures !cyclic ==>
        && Search(adjacency, nodes, state, stack + [node])
        && FinishedGrows(old(state), state)
        && forall b :: b in blockers ==> Finished(state, b)
      decreases |nodes - state.Keys|, 1
    {
      ghost var entered := state;
      for i := 0 to |blockers|
        invariant Search(adjacency, nodes, state, stack + [node])
        invariant FinishedGrows(entered, state)
        invariant forall k :: 0 <= k < i ==> Finished(state, blockers[k])
      {
        SubsetSize(nodes - state.Keys, nodes - entered.Keys);
        ghost var mark := state;
        var found := Visit(blockers[i], nodes, stack + [node]);
        if found {
          return true;
        }
        FinishedPrefix(mark, state, blockers, i);
      }
      return false;
    }
  }

  /** Whatever order the node map is walked in, the answer is exactly cyclicity. */
  method HasCycle(nodes: set<int>, adjacency: Graph) returns (cyclic: bool)
    requires Closed(adjacency, nodes)
    ensures cyclic <==> Cyclic(adjacency, nodes)
  {
    var search := new CycleSearch(adjacency);
    var pending := nodes;
    while pending != {}
      invariant search.adjacency == adjacency
      invariant pending <= nodes
      invariant Search(adjacency, nodes, search.state, [])
      invariant forall n :: n in nodes - pending ==> Finished(search.state, n)
      decreases |pending|
    {
      var id := Take(pending);
      var found := search.Visit(id, nodes, []);
      if found {
        return true;
      }
      pending := pending - {id};
    }
    assert forall n :: n in nodes ==> Finished(search.state, n);
    return false;
  }

  /** Admission: accepts exactly the valid plans, in every iteration order. */
  method Validate(s: Snapshot) returns (accepted: bool)
    ensures accepted <==> ValidPlan(s)
  {
    if s.repository == "" || s.root.id == 0 || s.root.number == 0 {
      return false;
    }
    if !s.root.IsPlanRoot() {
      return false;
    }
    if |s.children| == 0 {
      return false;
    }
    var ok, byId := ValidateChildren(s);
    if !ok {
      return false;
    }
    var edgesOk, adjacency := CollectEdges(s, byId);
    if !edgesOk {
      return false;
    }
    ValidPlanClosed(s);
    var nodes := byId;
    assert nodes == Elements(Ids(s.children));
    SameBlockers(adjacency, BlockerGraph(s), nodes);
    var cyclic := HasCycle(nodes, adjacency);
    return !cyclic;
  }

  /** The children, each admissible and none repeated. */
  method ValidateChildren(s: Snapshot) returns (ok: bool, byId: set<int>)
    ensures ok <==> ChildrenAdmissible(s)
    ensures ok ==> byId == set k | 0 <= k < |s.children| :: s.children[k].id
  {
    byId := {};
    var byNumber := {};
    for i := 0 to |s.children|
      invariant byId == set k | 0 <= k < i :: s.children[k].id
      invariant byNumber == set k | 0 <= k < i :: s.children[k].number
      invariant forall k :: 0 <= k < i ==> ChildAdmissible(s, s.children[k])
      invariant forall j, k :: 0 <= j < k < i ==>
        s.children[j].id != s.children[k].id && s.children[j].number != s.children[k].number
    {
      var child := s.children[i];
      assert child in s.children;
      if child.id == 0 || child.number == 0 {
        return false, byId;
      }
      if child.id == s.root.id || child.number == s.root.number {
        return false, byId;
      }
      if child.id in byId {
        ghost var k :| 0 <= k < i && s.children[k].id == child.id;
        assert Ids(s.children)[k] == Ids(s.children)[i];
        return false, byId;
      }
      if child.number in byNumber {
        ghost var k :| 0 <= k < i && s.children[k].number == child.number;
        assert Numbers(s.children)[k] == Numbers(s.children)[i];
        return false, byId;
      }
      byId, byNumber := byId + {child.id}, byNumber + {child.number};
      if !child.IsTicket() {
        return false, byId;
      }
    }
    return true, byId;
  }

  /** The blocker map, walked in any order; its edges go into the graph unless one is refused. */
  method CollectEdges(s: Snapshot, byId: set<int>) returns (ok: bool, adjacency: Graph)
    requires byId == set k | 0 <= k < |s.children| :: s.children[k].id
    ensures ok <==> forall b :: b in s.blockedBy ==> BlockersAdmissible(s, b)
    ensures ok ==> adjacency.Keys <= s.blockedBy.Keys
    ensures ok ==> forall b :: b in s.blockedBy ==> Blockers(adjacency, b) == Ids(s.blockedBy[b])
  {
    adjacency := map[];
    var pending := s.blockedBy.Keys;
    while pending != {}
      invariant pending <= s.blockedBy.Keys
      invariant forall b :: b in s.blockedBy && b !in pending ==> BlockersAdmissible(s, b)
      invariant adjacency.Keys <= s.blockedBy.Keys - pending
      invariant forall b :: b in s.blockedBy && b !in pending ==> Blockers(adjacency, b) == Ids(s.blockedBy[b])
      decreases |pending|
    {
      var blocked := Take(pending);
      var accepted, ids := ValidateBlockers(s, byId, blocked);
      if !accepted {
        return false, adjacency;
      }
      if |ids| > 0 {
        adjacency := adjacency[blocked := ids];
      }
      pending := pending - {blocked};
    }
    return true, adjacency;
  }

  /** The edges out of one blocked issue; a repeated edge is refused. */
  method ValidateBlockers(s: Snapshot, byId: set<int>, blocked: int) returns (ok: bool, ids: seq<int>)
    requires blocked in s.blockedBy
    requires byId == set k | 0 <= k < |s.children| :: s.children[k].id
    ensures ok <==> BlockersAdmissible(s, blocked)
    ensures ok ==> ids == Ids(s.blockedBy[blocked])
  {
    ids := [];
    if blocked !in byId {
      return false, ids;
    }
    assert blocked in Ids(s.children);
    var blockers := s.blockedBy[blocked];
    var edges := {};
    for i := 0 to |blockers|
      invariant ids == Ids(blockers[..i])
      invariant edges == set k | 0 <= k < i :: blockers[k].id
      invariant forall k :: 0 <= k < i ==> BlockerAdmissible(s, blockers[k])
      invariant forall j, k :: 0 <= j < k < i ==> blockers[j].id != blockers[k].id
    {
      var blocker := blockers[i];
      assert blocker in blockers;
      if blocker.id == 0 || blocker.number == 0 {
        return false, ids;
      }
      if blocker.id == s.root.id || blocker.number == s.root.number {
        return false, ids;
      }
      if blocker.id !in byId {
        return false, ids;
      }
      if blocker.state == "closed" && !blocker.delivered {
        return false, ids;
      }
      if blocker.id in edges {
        ghost var k :| 0 <= k < i && blockers[k].id == blocker.id;
        assert Ids(blockers)[k] == Ids(blockers)[i];
        return false, ids;
      }
      edges := edges + {blocker.id};
      ids := ids + [blocker.id];
    }
    assert blockers[..|blockers|] == blockers;
    return true, ids;
  }

  /** Dropping keys without blockers changes neither paths nor cycles. */
  lemma SameBlockers(g: Graph, h: Graph, nodes: set<int>)
    requires forall n :: Blockers(g, n) == Blockers(h, n)
    ensures Closed(g, nodes) <==> Closed(h, nodes)
    ensures Cyclic(g, nodes) <==> Cyclic(h, nodes)
  {
    forall p ensures IsPath(g, p) <==> IsPath(h, p) {}
    forall a, b ensures Reaches(g, a, b) <==> Reaches(h, a, b) {
      if Reaches(g, a, b) {
        var p :| PathFrom(g, p, a) && |p| >= 2 && p[|p| - 1] == b;
        assert PathFrom(h, p, a);
      }
      if Reaches(h, a, b) {
        var p :| PathFrom(h, p, a) && |p| >= 2 && p[|p| - 1] == b;
        assert PathFrom(g, p, a);
      }
    }
  }
}
