/** Writing a plan to the database and reading it back
    (`backend/app/services/workflow_repository.py`, `backend/app/models/workflow.py`). */
module Persistence {
  import opened Collections
  import opened Graphs
  import opened Conditions
  import opened Plans
  import opened Protocol
  import opened Invariants

  datatype NodeRecord = NodeRecord(
    nodeKey: Key, agentId: string, objective: string, parameters: Json, satisfies: seq<string>,
    requiresApproval: bool, joinPolicy: string, feedback: Option<FeedbackRule>, position: nat)

  datatype EdgeRecord = EdgeRecord(
    sourceKey: Key, targetKey: Key, condition: Option<Condition>, passPayload: bool)

  /** The rows of one workflow, in whatever order the database returns them. */
  datatype Stored = Stored(nodes: seq<NodeRecord>, edges: seq<EdgeRecord>)

  // ---- writing ------------------------------------------------------------------------------

  function NodeToRow(node: Node, position: nat): NodeRecord {
    NodeRecord(node.key, node.agentId, node.objective, node.parameters, node.satisfies, node.requiresApproval,
               if node.joinPolicy == Any then "any" else "all",
               node.feedback, position)
  }

  function EdgeToRow(e: Edge): EdgeRecord {
    EdgeRecord(e.source, e.target, e.condition, e.passPayload)
  }

  ghost predicate IsStored(plan: Plan, stored: Stored) {
    && |stored.nodes| == |plan.nodes| && |stored.edges| == |plan.edges|
    && (forall i :: 0 <= i < |plan.nodes| ==> stored.nodes[i] == NodeToRow(plan.nodes[i], i))
    && (forall i :: 0 <= i < |plan.edges| ==> stored.edges[i] == EdgeToRow(plan.edges[i]))
  }

  /** The key and agent columns are 64 characters wide. */
  ghost predicate Fits(plan: Plan) {
    forall n :: n in plan.nodes ==> |n.key| <= 64 && |n.agentId| <= 64
  }

  ghost predicate EdgesFit(stored: Stored) {
    forall i :: 0 <= i < |stored.edges| ==>
      |stored.edges[i].sourceKey| <= 64 && |stored.edges[i].targetKey| <= 64
  }

  /** The tables refuse a valid plan exactly when a node's key or agent id is too long for its column, or
      two edges join the same nodes. The edges' own columns hold keys of nodes, so they add nothing. */
  method CreateWorkflow(plan: Plan) returns (stored: Option<Stored>)
    requires ValidPlan(plan)
    ensures stored.Some? <==> Fits(plan) && DistinctPairs(plan.edges)
    ensures stored.Some? ==> IsStored(plan, stored.value) && EdgesFit(stored.value)
  {
    hide DistinctPairs, ValidPlan, ArcsOf;
    var nodes: seq<NodeRecord> := [];
    for position := 0 to |plan.nodes|
      invariant |nodes| == position
      invariant forall i :: 0 <= i < position ==> nodes[i] == NodeToRow(plan.nodes[i], i)
      invariant forall n :: n in plan.nodes[..position] ==> |n.key| <= 64 && |n.agentId| <= 64
    {
      var node := plan.nodes[position];
      if |node.key| > 64 || |node.agentId| > 64 {
        assert node in plan.nodes;
        return None;
      }
      nodes := nodes + [NodeToRow(plan.nodes[position], position)];
    }
    assert plan.nodes[..|plan.nodes|] == plan.nodes;
    var edges: seq<EdgeRecord> := [];
    var present: set<(Key, Key)> := {};
    NothingStored();
    for n := 0 to |plan.edges|
      invariant |edges| == n
      invariant forall i :: 0 <= i < n ==> edges[i] == EdgeToRow(plan.edges[i])
      invariant present == ArcsOf(plan.edges[..n])
      invariant DistinctPairs(plan.edges[..n])
    {
      var e := plan.edges[n];
      assert plan.edges[..n + 1] == plan.edges[..n] + [e];
      if (e.source, e.target) in present {
        EdgeIsRepeated(plan.edges, n);
        return None;
      }
      ArcsGrow(plan.edges[..n], e);
      EdgeIsNew(plan.edges[..n], e);
      present := present + {(e.source, e.target)};
      edges := edges + [EdgeToRow(e)];
    }
    assert plan.edges[..|plan.edges|] == plan.edges;
    EdgeColumnsFit(plan, Stored(nodes, edges));
    return Some(Stored(nodes, edges));
  }

  lemma EdgeColumnsFit(plan: Plan, stored: Stored)
    requires ValidPlan(plan) && Fits(plan) && IsStored(plan, stored)
    ensures EdgesFit(stored)
  {
    hide Acyclic;
    forall i | 0 <= i < |stored.edges|
      ensures |stored.edges[i].sourceKey| <= 64 && |stored.edges[i].targetKey| <= 64
    {
      assert KnownEdge(plan, plan.edges[i]);
    }
  }

  lemma NothingStored()
    ensures ArcsOf([]) == {} && DistinctPairs([])
  {
  }

  lemma EdgeIsRepeated(edges: seq<Edge>, n: nat)
    requires n < |edges| && (edges[n].source, edges[n].target) in ArcsOf(edges[..n])
    ensures !DistinctPairs(edges)
  {
    var e :| e in edges[..n] && (e.source, e.target) == (edges[n].source, edges[n].target);
    var i :| 0 <= i < n && edges[i] == e;
  }

  /** Two equal edges make a plan that is valid and cannot be stored. */
  lemma ValidPlanMayNotStore(a: Node, b: Node) returns (plan: Plan)
    requires a.key != b.key
    ensures ValidPlan(plan) && !DistinctPairs(plan.edges)
  {
    var e := Edge(a.key, b.key, None, true);
    assert [e, e][0] == [e, e][1];
    plan := Plan([a, b], [e, e]);
    var keys := [a.key, b.key];
    forall x, y | (x, y) in ArcsOf(plan.edges)
      ensures Before(keys, x, y)
    {
      assert keys[0] == x && keys[1] == y;
    }
    ForwardArcsAreAcyclic(keys, ArcsOf(plan.edges));
    assert a in plan.nodes && b in plan.nodes;
  }

  /** One node whose agent id is a letter too long does as well. */
  lemma LongAgentIdIsNotStored(node: Node)
    requires |node.agentId| == 65
    ensures ValidPlan(Plan([node], [])) && DistinctPairs([]) && !Fits(Plan([node], []))
  {
    var plan := Plan([node], []);
    assert node in plan.nodes;
    assert Ranks(ArcsOf(plan.edges), map[]);
  }

  // ---- reading --------------------------------------------------------------------------------

  function NodeFromRow(row: NodeRecord): Node {
    Node(row.nodeKey, row.agentId, row.objective, row.parameters, row.satisfies, row.requiresApproval,
         if row.joinPolicy == "any" then Any else All, row.feedback)
  }

  function EdgeFromRow(row: EdgeRecord): Edge {
    Edge(row.sourceKey, row.targetKey, row.condition, row.passPayload)
  }

  function NodesFrom(rows: seq<NodeRecord>): (nodes: seq<Node>)
    ensures |nodes| == |rows|
  {
    seq(|rows|, i requires 0 <= i < |rows| => NodeFromRow(rows[i]))
  }

  function EdgesFrom(rows: seq<EdgeRecord>): seq<Edge> {
    if rows == [] then [] else [EdgeFromRow(rows[0])] + EdgesFrom(rows[1..])
  }

  predicate Earlier(a: NodeRecord, b: NodeRecord) {
    a.position < b.position
  }

  function LoadPlan(stored: Stored): Plan {
    Plan(NodesFrom(Sort(Earlier, stored.nodes)), EdgesFrom(stored.edges))
  }

  /** The same rows in another order. */
  ghost predicate SameRows(stored: Stored, other: Stored) {
    multiset(stored.nodes) == multiset(other.nodes) && multiset(stored.edges) == multiset(other.edges)
  }

  lemma {:induction false} EdgesFromJoin(a: seq<EdgeRecord>, b: seq<EdgeRecord>)
    ensures EdgesFrom(a + b) == EdgesFrom(a) + EdgesFrom(b)
  {
    if a == [] {
      assert a + b == b;
    } else {
      assert (a + b)[1..] == a[1..] + b;
      EdgesFromJoin(a[1..], b);
    }
  }

  lemma OneBetween<T>(left: seq<T>, x: T, right: seq<T>)
    ensures multiset(left + ([x] + right)) == multiset(left + right) + multiset{x}
  {
  }

  lemma EdgesFromWithout(rows: seq<EdgeRecord>, i: nat)
    requires i < |rows|
    ensures multiset(EdgesFrom(rows))
         == multiset(EdgesFrom(rows[..i] + rows[i + 1..])) + multiset{EdgeFromRow(rows[i])}
  {
    var left, right := rows[..i], rows[i + 1..];
    assert rows == left + rows[i..];
    assert EdgesFrom(rows[i..]) == [EdgeFromRow(rows[i])] + EdgesFrom(right) by {
      assert rows[i..][1..] == right;
    }
    hide EdgesFrom;
    EdgesFromJoin(left, right);
    EdgesFromJoin(left, rows[i..]);
    OneBetween(EdgesFrom(left), EdgeFromRow(rows[i]), EdgesFrom(right));
  }

  lemma {:induction false} EdgesFromReordered(a: seq<EdgeRecord>, b: seq<EdgeRecord>)
    requires multiset(a) == multiset(b)
    ensures multiset(EdgesFrom(a)) == multiset(EdgesFrom(b))
  {
    SameLength(a, b);
    if a != [] {
      var i := TakeOut(a, b);
      EdgesFromReordered(a[1..], b[..i] + b[i + 1..]);
      EdgesFromWithout(b, i);
    }
  }

  lemma {:induction false} EdgesRoundTrip(edges: seq<Edge>, rows: seq<EdgeRecord>)
    requires |rows| == |edges| && forall i :: 0 <= i < |edges| ==> rows[i] == EdgeToRow(edges[i])
    ensures EdgesFrom(rows) == edges
  {
    if edges != [] {
      EdgesRoundTrip(edges[1..], rows[1..]);
    }
  }

  lemma PositionsSortBack(plan: Plan, stored: Stored, rows: Stored)
    requires IsStored(plan, stored) && SameRows(stored, rows)
    ensures Sort(Earlier, rows.nodes) == stored.nodes
  {
    hide Sort;
    ReorderedIsRanked(Earlier, stored.nodes, rows.nodes);
    SortSorts(Earlier, rows.nodes);
    SortAdds(Earlier, rows.nodes);
    SortedIsUnique(Earlier, Sort(Earlier, rows.nodes), stored.nodes);
  }

  /** A stored plan is read back with its nodes in the order they were planned and exactly its edges,
      whatever order the rows come in. */
  lemma LoadReadsWhatWasStored(plan: Plan, stored: Stored, rows: Stored)
    requires IsStored(plan, stored) && SameRows(stored, rows)
    ensures LoadPlan(rows).nodes == plan.nodes
    ensures multiset(LoadPlan(rows).edges) == multiset(plan.edges)
  {
    hide Sort, EdgesFrom;
    PositionsSortBack(plan, stored, rows);
    assert NodesFrom(stored.nodes) == plan.nodes;
    EdgesRoundTrip(plan.edges, stored.edges);
    EdgesFromReordered(rows.edges, stored.edges);
  }

  // ---- what edge order changes -------------------------------------------------------------------

  ghost predicate SameUpToEdgeOrder(plan: Plan, other: Plan) {
    plan.nodes == other.nodes && multiset(plan.edges) == multiset(other.edges)
  }

  lemma SameEdges(plan: Plan, other: Plan)
    requires SameUpToEdgeOrder(plan, other)
    ensures forall e :: e in plan.edges <==> e in other.edges
    ensures ArcsOf(plan.edges) == ArcsOf(other.edges)
    ensures NodeKeys(plan) == NodeKeys(other)
  {
    forall e
      ensures e in plan.edges <==> e in other.edges
    {
      assert e in plan.edges <==> e in multiset(plan.edges);
      assert e in other.edges <==> e in multiset(other.edges);
    }
  }

  lemma {:induction false} ContributionsJoin(a: seq<Edge>, b: seq<Edge>, v: View, key: Key)
    ensures Contributions(a + b, v, key) == Contributions(a, v, key) + Contributions(b, v, key)
  {
    if a == [] {
      assert a + b == b;
    } else {
      assert (a + b)[1..] == a[1..] + b;
      ContributionsJoin(a[1..], b, v, key);
    }
  }

  lemma ContributionsWithout(edges: seq<Edge>, i: nat, v: View, key: Key)
    requires i < |edges|
    ensures multiset(Contributions(edges, v, key))
         == multiset(Contributions(edges[..i] + edges[i + 1..], v, key)) + multiset(Contributions([edges[i]], v, key))
  {
    hide Contributions;
    ContributionsJoin(edges[..i], edges[i + 1..], v, key);
    ContributionsJoin(edges[..i], [edges[i]] + edges[i + 1..], v, key);
    ContributionsJoin([edges[i]], edges[i + 1..], v, key);
    assert edges == edges[..i] + ([edges[i]] + edges[i + 1..]);
  }

  lemma {:induction false} ContributionsReordered(a: seq<Edge>, b: seq<Edge>, v: View, key: Key)
    requires multiset(a) == multiset(b)
    ensures multiset(Contributions(a, v, key)) == multiset(Contributions(b, v, key))
  {
    SameLength(a, b);
    if a == [] {
      assert b == [];
    } else {
      hide Contributions;
      var i := TakeOut(a, b);
      ContributionsReordered(a[1..], b[..i] + b[i + 1..], v, key);
      ContributionsWithout(b, i, v, key);
      ContributionsWithout(a, 0, v, key);
      assert a[..0] + a[1..] == a[1..];
    }
  }

  /** The order of the edges changes neither who is ready, nor who runs and who is skipped, nor the
      payloads a node is given, nor what a repair reopens. */
  lemma EdgeOrderIsIrrelevant(plan: Plan, other: Plan, v: View, node: Node)
    requires SameUpToEdgeOrder(plan, other)
    ensures DependenciesResolved(plan, v, node.key) <==> DependenciesResolved(other, v, node.key)
    ensures SkipReason(plan, v, node).None? <==> SkipReason(other, v, node).None?
    ensures multiset(UpstreamFor(plan, v, node.key)) == multiset(UpstreamFor(other, v, node.key))
    ensures Descendants(plan, node.key) == Descendants(other, node.key)
    ensures ValidPlan(plan) <==> ValidPlan(other)
  {
    hide Acyclic, NodeKeys, ArcsOf, SkipReason, Contributions;
    SameEdges(plan, other);
    RunsExactlyWhenJoined(plan, v, node);
    RunsExactlyWhenJoined(other, v, node);
    ContributionsReordered(plan.edges, other.edges, v, node.key);
  }

  /** A round dispatches the same batch, in the same order. */
  lemma {:induction false} BatchIsTheSame(plan: Plan, other: Plan, v: View, rows: Rows, nodes: seq<Node>)
    requires SameUpToEdgeOrder(plan, other)
    ensures BatchOf(plan, v, rows, nodes) == BatchOf(other, v, rows, nodes)
  {
    if nodes != [] {
      BatchIsTheSame(plan, other, v, rows, nodes[1..]);
      RulingIsTheSame(plan, other, v, rows, nodes[0].key);
    }
  }

  /** The ruling on a node differs at most in the wording of a skip. */
  lemma RulingIsTheSame(plan: Plan, other: Plan, v: View, rows: Rows, key: Key)
    requires SameUpToEdgeOrder(plan, other)
    ensures RuleFor(plan, v, rows, key) == RuleFor(other, v, rows, key)
         || (RuleFor(plan, v, rows, key).SkipIt? && RuleFor(other, v, rows, key).SkipIt?)
  {
    SameEdges(plan, other);
    if key in NodeKeys(plan) {
      EdgeOrderIsIrrelevant(plan, other, v, NodeOf(plan, key));
      assert NodeOf(plan, key) == NodeOf(other, key);
    }
    hide NodeKeys, SkipReason, DependenciesResolved, ArcsOf;
  }
}
