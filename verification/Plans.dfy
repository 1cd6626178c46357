/** The workflow graph and its validation (`backend/app/schemas/workflow.py`). */
module Plans {
  import opened Collections
  import opened Graphs
  import opened Conditions

  datatype JoinPolicy = All | Any

  /** `detailPath` is empty when the rule names no detail. */
  datatype FeedbackRule = FeedbackRule(target: Key, condition: Condition, detailPath: string, message: string)

  datatype Node = Node(
    key: Key, agentId: string, objective: string, parameters: Json, satisfies: seq<string>,
    requiresApproval: bool, joinPolicy: JoinPolicy, feedback: Option<FeedbackRule>)

  datatype Edge = Edge(source: Key, target: Key, condition: Option<Condition>, passPayload: bool)

  datatype Plan = Plan(nodes: seq<Node>, edges: seq<Edge>)

  function KeysOf(nodes: seq<Node>): (keys: seq<Key>) {
    seq(|nodes|, i requires 0 <= i < |nodes| => nodes[i].key)
  }

  function NodeKeys(plan: Plan): set<Key> {
    set n | n in plan.nodes :: n.key
  }

  function ArcsOf(edges: seq<Edge>): Arcs {
    set e | e in edges :: (e.source, e.target)
  }

  ghost predicate DistinctKeys(nodes: seq<Node>) {
    forall i, j :: 0 <= i < j < |nodes| ==> nodes[i].key != nodes[j].key
  }

  ghost predicate KnownEdge(plan: Plan, e: Edge) {
    e.source in NodeKeys(plan) && e.target in NodeKeys(plan) && e.source != e.target
  }

  /** What a constructed plan promises its users. */
  ghost predicate ValidPlan(plan: Plan) {
    && |plan.nodes| >= 1
    && DistinctKeys(plan.nodes)
    && (forall e :: e in plan.edges ==> KnownEdge(plan, e))
    && Acyclic(ArcsOf(plan.edges))
  }

  function NodeOf(plan: Plan, key: Key): (node: Node)
    requires key in NodeKeys(plan)
    ensures node in plan.nodes && node.key == key
  {
    FirstNode(plan.nodes, key)
  }

  function FirstNode(nodes: seq<Node>, key: Key): (node: Node)
    requires exists n :: n in nodes && n.key == key
    ensures node in nodes && node.key == key
  {
    if nodes[0].key == key then nodes[0] else FirstNode(nodes[1..], key)
  }

  function DependenciesOf(plan: Plan, key: Key): set<Key> {
    set e | e in plan.edges && e.target == key :: e.source
  }

  lemma DependenciesAreArcs(plan: Plan, a: Key, b: Key)
    ensures a in DependenciesOf(plan, b) <==> (a, b) in ArcsOf(plan.edges)
  {
    if a in DependenciesOf(plan, b) {
      var e :| e in plan.edges && e.target == b && e.source == a;
      assert (e.source, e.target) in ArcsOf(plan.edges);
    }
    if (a, b) in ArcsOf(plan.edges) {
      var e :| e in plan.edges && (e.source, e.target) == (a, b);
    }
  }

  // ---- descendants ---------------------------------------------------------

  /** Every key reachable from `key`. */
  ghost function Descendants(plan: Plan, key: Key): set<Key> {
    var arcs := ArcsOf(plan.edges);
    set a | a in arcs && Reaches(arcs, key, a.1) :: a.1
  }

  lemma DescendantsAreReached(plan: Plan, key: Key, other: Key)
    ensures other in Descendants(plan, key) <==> Reaches(ArcsOf(plan.edges), key, other)
  {
    var arcs := ArcsOf(plan.edges);
    if Reaches(arcs, key, other) {
      var c := LastArc(arcs, key, other);
      assert (c, other).1 == other;
    }
  }

  /** Reopening a node together with its descendants leaves nothing behind that was computed from it. */
  lemma DescendantsClosed(plan: Plan, key: Key)
    ensures ClosedUnder(ArcsOf(plan.edges), {key} + Descendants(plan, key))
  {
    var arcs := ArcsOf(plan.edges);
    forall a, b | (a, b) in arcs && a in {key} + Descendants(plan, key)
      ensures b in Descendants(plan, key)
    {
      ArcReaches(arcs, a, b);
      DescendantsAreReached(plan, key, a);
      DescendantsAreReached(plan, key, b);
      if a != key {
        ReachesTransitive(arcs, key, a, b);
      }
    }
  }

  lemma DescendantsAreNodes(plan: Plan, key: Key)
    requires forall e :: e in plan.edges ==> KnownEdge(plan, e)
    ensures Descendants(plan, key) <= NodeKeys(plan)
  {
  }

  function ChildrenOf(edges: seq<Edge>, key: Key): set<Key> {
    set e | e in edges && e.source == key :: e.target
  }

  /** One popped key: its unseen children are marked and pushed. */
  method Expand(edges: seq<Edge>, current: Key, seen: set<Key>) returns (marked: set<Key>, pushed: seq<Key>)
    ensures marked == seen + ChildrenOf(edges, current)
    ensures forall k :: k in pushed <==> k in marked && k !in seen
    ensures pushed == [] ==> marked == seen
    ensures pushed != [] ==> seen < marked
  {
    marked, pushed := seen, [];
    for i := 0 to |edges|
      invariant marked == seen + ChildrenOf(edges[..i], current)
      invariant forall k :: k in pushed <==> k in marked && k !in seen
      invariant pushed == [] ==> marked == seen
    {
      var e := edges[i];
      assert edges[..i + 1] == edges[..i] + [e];
      assert ChildrenOf(edges[..i + 1], current)
          == ChildrenOf(edges[..i], current) + (if e.source == current then {e.target} else {});
      if e.source == current && e.target !in marked {
        marked, pushed := marked + {e.target}, pushed + [e.target];
      }
    }
    assert edges[..|edges|] == edges;
    if pushed != [] {
      assert pushed[0] in marked && pushed[0] !in seen;
    }
  }

  /** The worklist of `descendants_of`. */
  method DescendantsOf(plan: Plan, key: Key) returns (seen: set<Key>)
    ensures seen == Descendants(plan, key)
  {
    ghost var targets := Descendants(plan, key);
    seen := {};
    var frontier := [key];
    ghost var done: set<Key> := {};
    while frontier != []
      invariant seen <= targets
      invariant forall k :: k in frontier ==> k == key || k in seen
      invariant forall k :: k in seen || k == key ==> k in done || k in frontier
      invariant forall k :: k in done ==> ChildrenOf(plan.edges, k) <= seen
      decreases targets - seen, |frontier|
    {
      var current := frontier[|frontier| - 1];
      ghost var stack := frontier;
      frontier := frontier[..|frontier| - 1];
      ChildrenAreDescendants(plan, key, current);
      var marked, pushed := Expand(plan.edges, current, seen);
      frontier := frontier + pushed;
      done := done + {current};
      assert forall k :: k in stack ==> k == current || k in frontier;
      assert marked == seen || targets - marked < targets - seen by {
        if x :| x in marked && x !in seen {
          assert x in targets - seen;
        }
      }
      seen := marked;
    }
    ClosureIsDescendants(plan, key, seen);
  }

  lemma ChildrenAreDescendants(plan: Plan, key: Key, current: Key)
    requires current == key || current in Descendants(plan, key)
    ensures ChildrenOf(plan.edges, current) <= Descendants(plan, key)
  {
    DescendantsAreReached(plan, key, current);
    forall k | k in ChildrenOf(plan.edges, current)
      ensures k in Descendants(plan, key)
    {
      var e :| e in plan.edges && e.source == current && e.target == k;
      assert (e.source, e.target) in ArcsOf(plan.edges);
      ArcReaches(ArcsOf(plan.edges), current, k);
      if current != key {
        ReachesTransitive(ArcsOf(plan.edges), key, current, k);
      }
      DescendantsAreReached(plan, key, k);
    }
  }

  lemma ClosureIsDescendants(plan: Plan, key: Key, seen: set<Key>)
    requires seen <= Descendants(plan, key)
    requires forall k :: k in seen || k == key ==> ChildrenOf(plan.edges, k) <= seen
    ensures seen == Descendants(plan, key)
  {
    var arcs := ArcsOf(plan.edges);
    forall a, b | (a, b) in arcs && (a in seen || a == key)
      ensures b in seen
    {
      var e :| e in plan.edges && (e.source, e.target) == (a, b);
      assert e.target in ChildrenOf(plan.edges, a);
    }
    forall k | k in Descendants(plan, key)
      ensures k in seen
    {
      DescendantsAreReached(plan, key, k);
      ReachesStaysInside(arcs, seen, key, k);
    }
  }

  // ---- cycle detection -------------------------------------------------------

  datatype Colour = White | Grey | Black

  /** Grey keys are the ones on the path; black keys finished after everything they point at. */
  ghost predicate Consistent(
    successors: map<Key, seq<Key>>, colour: map<Key, Colour>, finished: seq<Key>, path: seq<Key>)
  {
    && colour.Keys == successors.Keys
    && (forall k, s :: k in successors && s in successors[k] ==> s in successors)
    && (forall k :: k in colour ==> (colour[k] == Black <==> k in finished))
    && (forall k :: k in colour ==> (colour[k] == Grey <==> k in path))
    && FinishedLast(successors, finished)
  }

  ghost predicate FinishedLast(successors: map<Key, seq<Key>>, finished: seq<Key>) {
    && (forall i, j :: 0 <= i < j < |finished| ==> finished[i] != finished[j])
    && (forall i :: 0 <= i < |finished| ==> finished[i] in successors)
    && (forall i, s :: 0 <= i < |finished| && s in successors[finished[i]] ==> s in finished[..i])
  }

  lemma TurnGrey(
    successors: map<Key, seq<Key>>, colour: map<Key, Colour>, finished: seq<Key>, path: seq<Key>, key: Key)
    requires Consistent(successors, colour, finished, path) && key in colour && colour[key] == White
    ensures Consistent(successors, colour[key := Grey], finished, path + [key])
  {
  }

  lemma TurnBlack(
    successors: map<Key, seq<Key>>, colour: map<Key, Colour>, finished: seq<Key>, path: seq<Key>, key: Key)
    requires Consistent(successors, colour, finished, path + [key]) && key in colour && key !in path
    requires forall s :: s in successors[key] ==> s in finished
    ensures Consistent(successors, colour[key := Black], finished + [key], path)
  {
    var longer := finished + [key];
    assert colour[key] == Grey by {
      assert (path + [key])[|path|] == key;
    }
    assert key !in finished;
    forall i, s | 0 <= i < |longer| && s in successors[longer[i]]
      ensures s in longer[..i]
    {
      assert longer[..i] == finished[..i];
    }
    assert FinishedLast(successors, longer);
    assert forall k :: k in path + [key] <==> k in path || k == key;
  }

  /** The depth-first search of `_find_cycle`: `colour` is the dictionary its closure mutates. */
  class CycleFinder {
    const successors: map<Key, seq<Key>>
    var colour: map<Key, Colour>
    /** Keys in the order they turned black. */
    ghost var finished: seq<Key>

    constructor (successors: map<Key, seq<Key>>)
      ensures this.successors == successors
      ensures colour.Keys == successors.Keys && finished == []
      ensures forall k :: k in colour ==> colour[k] == White
    {
      this.successors := successors;
      colour := map k | k in successors :: White;
      finished := [];
    }

    ghost predicate Valid(path: seq<Key>)
      reads this
    {
      Consistent(successors, colour, finished, path)
    }

    ghost function Whites(): set<Key>
      reads this
    {
      set k | k in colour && colour[k] == White
    }

    ghost function Links(): Arcs {
      LinksOf(successors)
    }

    method Visit(key: Key, path: seq<Key>) returns (found: Option<seq<Key>>)
      requires Valid(path)
      requires key in colour && colour[key] == White
      requires IsWalk(Links(), path + [key])
      modifies this
      ensures found.None? ==> Valid(path) && key in finished && Whites() <= old(Whites())
      ensures found.None? ==> forall k :: k in old(finished) ==> k in finished
      ensures found.Some? ==>
        var w := found.value; |w| >= 2 && IsWalk(Links(), w) && w[|w| - 1] in w[..|w| - 1]
      decreases Whites()
    {
      hide FinishedLast;
      TurnGrey(successors, colour, finished, path, key);
      colour := colour[key := Grey];
      var grown := path + [key];
      assert Whites() == old(Whites()) - {key};
      for i := 0 to |successors[key]|
        invariant Valid(grown)
        invariant Whites() <= old(Whites()) - {key}
        invariant forall k :: k in old(finished) ==> k in finished
        invariant forall s :: s in successors[key][..i] ==> s in finished
      {
        var s := successors[key][i];
        assert (key, s) in Links();
        assert IsWalk(Links(), grown + [s]);
        if colour[s] == Grey {
          assert (grown + [s])[..|grown|] == grown;
          return Some(grown + [s]);
        }
        if colour[s] == White {
          var deeper := Visit(s, grown);
          if deeper.Some? {
            return deeper;
          }
        }
      }
      assert successors[key][..|successors[key]|] == successors[key];
      TurnBlack(successors, colour, finished, path, key);
      colour := colour[key := Black];
      finished := finished + [key];
      return None;
    }

    /** A finished search ranks every key above the keys it points at in reverse finishing order. */
    lemma FinishedRanks()
      requires Valid([])
      requires forall k :: k in successors ==> k in finished
      ensures Acyclic(Links())
    {
      var n := |finished|;
      var rank: map<Key, nat> := map k | k in successors :: n - Place(finished, k);
      forall a, b | (a, b) in Links()
        ensures a in rank && b in rank && rank[a] < rank[b]
      {
        var i := Place(finished, a);
        assert b in successors[finished[i]] && b in finished[..i];
        var j :| 0 <= j < i && finished[j] == b;
        assert Place(finished, b) == j;
      }
      assert Ranks(Links(), rank);
    }
  }

  /** Where `k` stands in `s`. */
  ghost function Place(s: seq<Key>, k: Key): (i: nat)
    requires k in s
    ensures i < |s| && s[i] == k
  {
    var i :| 0 <= i < |s| && s[i] == k;
    i
  }

  function LinksOf(successors: map<Key, seq<Key>>): Arcs {
    set k, s | k in successors && s in successors[k] :: (k, s)
  }

  function Successors(plan: Plan): map<Key, seq<Key>> {
    map k | k in NodeKeys(plan) :: Targets(plan.edges, k)
  }

  lemma SuccessorsWell(plan: Plan)
    requires forall e :: e in plan.edges ==> KnownEdge(plan, e)
    ensures forall n :: n in plan.nodes ==> n.key in Successors(plan)
    ensures forall k, s :: k in Successors(plan) && s in Successors(plan)[k] ==> s in Successors(plan)
    ensures LinksOf(Successors(plan)) == ArcsOf(plan.edges)
  {
  }

  function Targets(edges: seq<Edge>, key: Key): (targets: seq<Key>)
    ensures forall s :: s in targets <==> exists e :: e in edges && e.source == key && e.target == s
  {
    if edges == [] then []
    else if edges[0].source == key then [edges[0].target] + Targets(edges[1..], key)
    else Targets(edges[1..], key)
  }

  lemma SingletonWalk(arcs: Arcs, key: Key)
    ensures IsWalk(arcs, [] + [key])
  {
  }

  lemma NothingFinished(successors: map<Key, seq<Key>>)
    ensures FinishedLast(successors, [])
  {
  }

  /** Sound and complete: a reported path is a walk that meets its last key twice, and silence means
      that some rank rises along every edge. */
  method FindCycle(plan: Plan) returns (found: Option<seq<Key>>)
    requires forall e :: e in plan.edges ==> KnownEdge(plan, e)
    ensures found.None? <==> Acyclic(ArcsOf(plan.edges))
    ensures found.Some? ==>
      var w := found.value; |w| >= 2 && IsWalk(ArcsOf(plan.edges), w) && w[|w| - 1] in w[..|w| - 1]
  {
    hide FinishedLast, Acyclic, IsWalk, LinksOf, Successors, ArcsOf, KnownEdge;
    SuccessorsWell(plan);
    var finder := new CycleFinder(Successors(plan));
    NothingFinished(finder.successors);
    for i := 0 to |plan.nodes|
      invariant finder.Valid([])
      invariant forall j :: 0 <= j < i ==> plan.nodes[j].key in finder.finished
    {
      var key := plan.nodes[i].key;
      assert plan.nodes[i] in plan.nodes;
      if finder.colour[key] == White {
        SingletonWalk(finder.Links(), key);
        var w := finder.Visit(key, []);
        if w.Some? {
          var at :| 0 <= at < |w.value| - 1 && w.value[at] == w.value[|w.value| - 1];
          RepeatRefutesRank(ArcsOf(plan.edges), w.value, at);
          return w;
        }
      }
    }
    AllFinished(plan, finder.finished);
    finder.FinishedRanks();
    return None;
  }

  lemma AllFinished(plan: Plan, finished: seq<Key>)
    requires forall j :: 0 <= j < |plan.nodes| ==> plan.nodes[j].key in finished
    ensures forall k :: k in Successors(plan) ==> k in finished
  {
  }

  // ---- validation --------------------------------------------------------------

  datatype Validation =
    | Valid
    | NoNodes
    | DuplicateKey(key: Key)
    | UnknownSource(edge: Edge)
    | UnknownTarget(edge: Edge)
    | SelfLoop(edge: Edge)
    | Cycle(path: seq<Key>)

  /** Construction accepts exactly the plans the engine can finish, and an error names a real fault. */
  method Validate(plan: Plan) returns (result: Validation)
    ensures result.Valid? <==> ValidPlan(plan)
    ensures result.DuplicateKey? ==>
      exists i, j :: 0 <= i < j < |plan.nodes| && plan.nodes[i].key == result.key == plan.nodes[j].key
    ensures result.UnknownSource? ==> result.edge in plan.edges && result.edge.source !in NodeKeys(plan)
    ensures result.UnknownTarget? ==> result.edge in plan.edges && result.edge.target !in NodeKeys(plan)
    ensures result.SelfLoop? ==> result.edge in plan.edges && result.edge.source == result.edge.target
    ensures result.Cycle? ==>
      var w := result.path; |w| >= 2 && IsWalk(ArcsOf(plan.edges), w) && w[|w| - 1] in w[..|w| - 1]
  {
    if |plan.nodes| == 0 {
      return NoNodes;
    }
    var known: set<Key> := {};
    for i := 0 to |plan.nodes|
      invariant forall k :: k in known <==> exists j :: 0 <= j < i && plan.nodes[j].key == k
      invariant forall j, l :: 0 <= j < l < i ==> plan.nodes[j].key != plan.nodes[l].key
    {
      if plan.nodes[i].key in known {
        return DuplicateKey(plan.nodes[i].key);
      }
      known := known + {plan.nodes[i].key};
    }
    assert known == NodeKeys(plan);
    for i := 0 to |plan.edges|
      invariant forall e :: e in plan.edges[..i] ==> KnownEdge(plan, e)
    {
      var e := plan.edges[i];
      assert e in plan.edges;
      if !KnownEdge(plan, e) {
        assert !ValidPlan(plan);
      }
      if e.source !in known {
        return UnknownSource(e);
      }
      if e.target !in known {
        return UnknownTarget(e);
      }
      if e.source == e.target {
        return SelfLoop(e);
      }
    }
    var found := FindCycle(plan);
    return if found.Some? then Cycle(found.value) else Valid;
  }

  // ---- orders that rule cycles out ------------------------------------------------

  ghost predicate DistinctSeq(keys: seq<Key>) {
    forall i, j :: 0 <= i < j < |keys| ==> keys[i] != keys[j]
  }

  /** `a` stands before `b` in `keys`. */
  ghost predicate Before(keys: seq<Key>, a: Key, b: Key) {
    exists i, j :: 0 <= i < j < |keys| && keys[i] == a && keys[j] == b
  }

  lemma ForwardArcsAreAcyclic(keys: seq<Key>, arcs: Arcs)
    requires DistinctSeq(keys) && forall a, b :: (a, b) in arcs ==> Before(keys, a, b)
    ensures Acyclic(arcs)
  {
    var rank: map<Key, nat> := map k | k in keys :: Place(keys, k);
    forall a, b | (a, b) in arcs
      ensures a in rank && b in rank && rank[a] < rank[b]
    {
      var i, j :| 0 <= i < j < |keys| && keys[i] == a && keys[j] == b;
      assert rank[a] == i && rank[b] == j;
    }
    assert Ranks(arcs, rank);
  }

  /** The arcs of a chain over `keys`. */
  function ChainArcs(keys: seq<Key>): Arcs {
    if |keys| < 2 then {}
    else ChainArcs(keys[..|keys| - 1]) + {(keys[|keys| - 2], keys[|keys| - 1])}
  }

  lemma {:induction false} ChainIsForward(keys: seq<Key>, a: Key, b: Key)
    requires (a, b) in ChainArcs(keys)
    ensures Before(keys, a, b)
  {
    var n := |keys| - 1;
    if (a, b) in ChainArcs(keys[..n]) {
      ChainIsForward(keys[..n], a, b);
      var i, j :| 0 <= i < j < n && keys[..n][i] == a && keys[..n][j] == b;
      assert keys[i] == a && keys[j] == b;
    }
  }

  lemma ArcsGrow(edges: seq<Edge>, e: Edge)
    ensures ArcsOf(edges + [e]) == ArcsOf(edges) + {(e.source, e.target)}
  {
  }

  /** No two edges join the same nodes, as the edge table demands. */
  ghost predicate DistinctPairs(edges: seq<Edge>) {
    forall i, j :: 0 <= i < j < |edges| ==> (edges[i].source, edges[i].target) != (edges[j].source, edges[j].target)
  }

  lemma EdgeIsNew(edges: seq<Edge>, e: Edge)
    requires DistinctPairs(edges) && (e.source, e.target) !in ArcsOf(edges)
    ensures DistinctPairs(edges + [e])
  {
    forall i | 0 <= i < |edges|
      ensures (edges[i].source, edges[i].target) in ArcsOf(edges)
    {
      assert edges[i] in edges;
    }
  }

  /** One unconditional edge from each key to the next. */
  method ChainEdges(keys: seq<Key>) returns (edges: seq<Edge>)
    ensures ArcsOf(edges) == ChainArcs(keys)
    ensures forall e :: e in edges ==> e.condition == None && e.passPayload
    ensures DistinctSeq(keys) ==> DistinctPairs(edges)
  {
    edges := [];
    if keys == [] {
      return;
    }
    for i := 1 to |keys|
      invariant |edges| == i - 1 && forall j :: 0 <= j < i - 1 ==> edges[j] == Edge(keys[j], keys[j + 1], None, true)
      invariant ArcsOf(edges) == ChainArcs(keys[..i])
    {
      var e := Edge(keys[i - 1], keys[i], None, true);
      ArcsGrow(edges, e);
      assert keys[..i + 1][..i] == keys[..i];
      edges := edges + [e];
    }
    assert keys[..|keys|] == keys;
    LinksAreDistinct(keys, edges);
  }

  lemma LinksAreDistinct(keys: seq<Key>, edges: seq<Edge>)
    requires |edges| == |keys| - 1
    requires forall j :: 0 <= j < |edges| ==> edges[j] == Edge(keys[j], keys[j + 1], None, true)
    ensures forall e :: e in edges ==> e.condition == None && e.passPayload
    ensures DistinctSeq(keys) ==> DistinctPairs(edges)
  {
    forall e | e in edges
      ensures e.condition == None && e.passPayload
    {
      var j :| 0 <= j < |edges| && edges[j] == e;
      assert edges[j] == Edge(keys[j], keys[j + 1], None, true);
    }
    if DistinctSeq(keys) {
      forall i, j | 0 <= i < j < |edges|
        ensures edges[i].source != edges[j].source
      {
        assert edges[i] == Edge(keys[i], keys[i + 1], None, true);
        assert edges[j] == Edge(keys[j], keys[j + 1], None, true);
      }
    }
  }
}
