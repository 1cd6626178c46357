/** Compiling a generated team design into a workflow graph
    (`backend/app/orchestration/team_designer.py`). */
module Teams {
  import opened Conditions
  import opened Collections
  import opened Graphs
  import opened Plans

  datatype Spec = Spec(role: string, objective: string, dependsOn: seq<string>, isSynthesizer: bool)

  // ---- normalising a design -----------------------------------------------------------------

  function FirstFlagged(specs: seq<Spec>): (i: nat)
    ensures i <= |specs|
    ensures i < |specs| ==> specs[i].isSynthesizer
    ensures forall j :: 0 <= j < i ==> !specs[j].isSynthesizer
  {
    if specs == [] || specs[0].isSynthesizer then 0 else 1 + FirstFlagged(specs[1..])
  }

  function Unflagged(spec: Spec): Spec {
    spec.(isSynthesizer := false)
  }

  /** Exactly one synthesizer flag: the first one given, or else one on the last spec. */
  function OneFlag(specs: seq<Spec>): seq<Spec>
    requires specs != []
  {
    var keep := FirstFlagged(specs);
    if keep < |specs| then
      seq(|specs|, i requires 0 <= i < |specs| => if i == keep then specs[i] else Unflagged(specs[i]))
    else
      specs[|specs| - 1 := specs[|specs| - 1].(isSynthesizer := true)]
  }

  function WorkersIn(specs: seq<Spec>): seq<Spec> {
    if specs == [] then []
    else (if specs[0].isSynthesizer then [] else [specs[0]]) + WorkersIn(specs[1..])
  }

  function InsertRole(role: string, sorted: seq<string>): seq<string> {
    if sorted == [] then [role]
    else if role == sorted[0] then sorted
    else if Alphabetical(role, sorted[0]) then [role] + sorted
    else [sorted[0]] + InsertRole(role, sorted[1..])
  }

  /** The distinct roles, in dictionary order. */
  function SortedRoles(specs: seq<Spec>): seq<string> {
    if specs == [] then [] else InsertRole(specs[0].role, SortedRoles(specs[1..]))
  }

  /** How many workers a team keeps. */
  function WorkerCap(maxAgents: int): nat {
    if maxAgents - 1 > 1 then maxAgents - 1 else 1
  }

  function Kept(workers: seq<Spec>, maxAgents: int): seq<Spec> {
    if |workers| > WorkerCap(maxAgents) then workers[..WorkerCap(maxAgents)] else workers
  }

  function Normalise(specs: seq<Spec>, maxAgents: int): seq<Spec>
    requires specs != []
  {
    var flagged := OneFlag(specs);
    var workers := WorkersIn(flagged);
    var kept := Kept(workers, maxAgents);
    var at := FirstFlagged(flagged);
    if at == |flagged| then kept else kept + [flagged[at].(dependsOn := SortedRoles(kept))]
  }

  /** Which spec becomes the synthesizer. */
  function Chosen(specs: seq<Spec>): (i: nat)
    requires specs != []
    ensures i < |specs|
  {
    var first := FirstFlagged(specs);
    if first < |specs| then first else |specs| - 1
  }

  lemma {:induction false} AllWorkers(specs: seq<Spec>)
    requires forall i :: 0 <= i < |specs| ==> !specs[i].isSynthesizer
    ensures WorkersIn(specs) == specs
  {
    if specs != [] {
      AllWorkers(specs[1..]);
    }
  }

  lemma {:induction false} WorkersJoin(a: seq<Spec>, b: seq<Spec>)
    ensures WorkersIn(a + b) == WorkersIn(a) + WorkersIn(b)
  {
    if a == [] {
      assert a + b == b;
    } else {
      assert (a + b)[1..] == a[1..] + b;
      WorkersJoin(a[1..], b);
    }
  }

  /** With one flag, the workers are all the other specs, in order. */
  lemma OthersAreWorkers(specs: seq<Spec>, at: nat)
    requires at < |specs| && specs[at].isSynthesizer
    requires forall i :: 0 <= i < |specs| && i != at ==> !specs[i].isSynthesizer
    ensures WorkersIn(specs) == specs[..at] + specs[at + 1..]
  {
    hide WorkersIn;
    var before, after := specs[..at], specs[at + 1..];
    assert WorkersIn(before) == before && WorkersIn(after) == after by {
      AllWorkers(before);
      AllWorkers(after);
    }
    SynthesizerIsNoWorker(specs[at], after);
    WorkersJoin(before, [specs[at]] + after);
    assert specs == before + ([specs[at]] + after);
  }

  lemma SynthesizerIsNoWorker(spec: Spec, rest: seq<Spec>)
    requires spec.isSynthesizer
    ensures WorkersIn([spec] + rest) == WorkersIn(rest)
  {
  }

  ghost predicate HasRole(specs: seq<Spec>, role: string) {
    exists i :: 0 <= i < |specs| && specs[i].role == role
  }

  lemma {:induction false} InsertKeepsOrder(role: string, sorted: seq<string>)
    requires Sorted(Alphabetical, sorted)
    ensures Sorted(Alphabetical, InsertRole(role, sorted))
    ensures forall r :: r in InsertRole(role, sorted) <==> r == role || r in sorted
  {
    if sorted != [] {
      InsertKeepsOrder(role, sorted[1..]);
      AlphabeticalOrders(role, sorted[0], "");
      forall j | 0 <= j < |sorted|
        ensures Alphabetical(role, sorted[0]) ==> Alphabetical(role, sorted[j])
      {
        AlphabeticalOrders(role, sorted[0], sorted[j]);
      }
      assert sorted == [sorted[0]] + sorted[1..];
      var rest := InsertRole(role, sorted[1..]);
      forall r | r in rest
        ensures !Alphabetical(role, sorted[0]) && role != sorted[0] ==> Alphabetical(sorted[0], r)
      {
        if r != role {
          assert r in sorted[1..];
        }
      }
    }
  }

  ghost predicate RolesAre(roles: seq<string>, specs: seq<Spec>) {
    forall r :: r in roles <==> HasRole(specs, r)
  }

  lemma RolesGrow(first: Spec, rest: seq<Spec>)
    ensures forall r :: HasRole([first] + rest, r) <==> r == first.role || HasRole(rest, r)
  {
    forall r | r == first.role || HasRole(rest, r)
      ensures HasRole([first] + rest, r)
    {
      if HasRole(rest, r) {
        var i :| 0 <= i < |rest| && rest[i].role == r;
        assert ([first] + rest)[i + 1].role == r;
      } else {
        assert ([first] + rest)[0].role == r;
      }
    }
  }

  lemma {:induction false} SortedRolesWell(specs: seq<Spec>)
    ensures Sorted(Alphabetical, SortedRoles(specs))
    ensures RolesAre(SortedRoles(specs), specs)
  {
    if specs != [] {
      SortedRolesWell(specs[1..]);
      InsertKeepsOrder(specs[0].role, SortedRoles(specs[1..]));
      RolesGrow(specs[0], specs[1..]);
      assert specs == [specs[0]] + specs[1..];
    }
  }

  /** A normalised team: workers and then one synthesizer that joins them all. */
  ghost predicate Normalised(team: seq<Spec>) {
    && team != []
    && (forall i :: 0 <= i < |team| - 1 ==> !team[i].isSynthesizer)
    && team[|team| - 1].isSynthesizer
    && Sorted(Alphabetical, team[|team| - 1].dependsOn)
    && RolesAre(team[|team| - 1].dependsOn, team[..|team| - 1])
  }

  lemma OneFlagWell(specs: seq<Spec>, at: nat)
    requires specs != [] && at == Chosen(specs)
    ensures var flagged := OneFlag(specs);
      && |flagged| == |specs| && flagged[at] == specs[at].(isSynthesizer := true)
      && (forall i :: 0 <= i < |specs| && i != at ==> flagged[i] == Unflagged(specs[i]))
      && FirstFlagged(flagged) == at
  {
  }

  /** The synthesizer is the first spec flagged as one, or else the last spec; the rest work, in the
      order given, up to the cap. */
  lemma NormaliseWell(specs: seq<Spec>, maxAgents: int)
    requires specs != []
    ensures var team := Normalise(specs, maxAgents); var at := Chosen(specs);
      var others := specs[..at] + specs[at + 1..];
      && Normalised(team)
      && |team| == 1 + |Kept(others, maxAgents)|
      && (forall i :: 0 <= i < |team| - 1 ==> team[i] == Unflagged(others[i]))
      && team[|team| - 1].role == specs[at].role && team[|team| - 1].objective == specs[at].objective
    ensures maxAgents >= 2 ==> |Normalise(specs, maxAgents)| <= maxAgents
  {
    hide WorkersIn, FirstFlagged, SortedRoles, Sorted, RolesAre, OneFlag, Chosen;
    var flagged := OneFlag(specs);
    var at := Chosen(specs);
    OneFlagWell(specs, at);
    OthersAreWorkers(flagged, at);
    var others := specs[..at] + specs[at + 1..];
    var kept := Kept(WorkersIn(flagged), maxAgents);
    SortedRolesWell(kept);
    var team := Normalise(specs, maxAgents);
    assert team == kept + [flagged[at].(dependsOn := SortedRoles(kept))];
    assert team[..|team| - 1] == kept;
    assert forall i :: 0 <= i < |others| ==> WorkersIn(flagged)[i] == Unflagged(others[i]);
  }

  /** The synthesizer is the first spec flagged as one, or the last one if none is. */
  lemma ChosenIsFirst(specs: seq<Spec>)
    requires specs != []
    ensures var at := Chosen(specs);
      && (specs[at].isSynthesizer || at == |specs| - 1)
      && forall j :: 0 <= j < |specs| && specs[j].isSynthesizer ==> at <= j && specs[at].isSynthesizer
  {
  }

  /** A team keeps as many workers as there are, up to one fewer than allowed, and at least one. */
  lemma TeamIsCapped(specs: seq<Spec>, maxAgents: int)
    requires specs != []
    ensures var workers, cap := |specs| - 1, if maxAgents >= 2 then maxAgents - 1 else 1;
      |Normalise(specs, maxAgents)| == 1 + if workers < cap then workers else cap
  {
    hide Normalise, Chosen;
    NormaliseWell(specs, maxAgents);
    var at := Chosen(specs);
    assert |specs[..at] + specs[at + 1..]| == |specs| - 1;
  }

  // ---- unique keys ------------------------------------------------------------------------------

  function Numbered(base: string, index: nat): string {
    base + "-" + Numeral(index)
  }

  lemma NumberedInjective(base: string, i: nat, j: nat)
    requires Numbered(base, i) == Numbered(base, j)
    ensures i == j
  {
    assert Numbered(base, i)[|base| + 1..] == Numeral(i);
    assert Numbered(base, j)[|base| + 1..] == Numeral(j);
    NumeralIsRead(i);
    NumeralIsRead(j);
  }

  /** The search ends because the taken names among the candidates are distinct members of `used`. */
  method Unique(base: string, used: set<string>) returns (key: string)
    ensures key !in used
    ensures base !in used ==> key == base
    ensures base in used ==> exists n: nat :: n >= 2 && key == base + "-" + Numeral(n) && AllTaken(base, n, used)
  {
    hide Numbered, Numeral;
    if base !in used {
      return base;
    }
    var index := 2;
    ghost var tried: set<string> := {};
    while Numbered(base, index) in used
      invariant index >= 2 && tried <= used && |tried| == index - 2 <= |used|
      invariant forall s :: s in tried ==> exists m :: 2 <= m < index && s == Numbered(base, m)
      invariant AllTaken(base, index, used)
      decreases |used| + 2 - index
    {
      ghost var candidate := Numbered(base, index);
      if candidate in tried {
        var m :| 2 <= m < index && candidate == Numbered(base, m);
        NumberedInjective(base, m, index);
      }
      NumberedIs(base, index);
      tried := tried + {candidate};
      Cardinality(tried, used);
      index := index + 1;
    }
    NumberedIs(base, index);
    return Numbered(base, index);
  }

  lemma NumberedIs(base: string, index: nat)
    ensures Numbered(base, index) == base + "-" + Numeral(index)
  {
  }

  ghost predicate AllTaken(base: string, index: nat, used: set<string>) {
    forall m: nat :: 2 <= m < index ==> base + "-" + Numeral(m) in used
  }

  ghost predicate DistinctRoles(agents: seq<Spec>) {
    forall i, j :: 0 <= i < j < |agents| ==> agents[i].role != agents[j].role
  }

  /** A key begins with the role's slug, or with a word for an agent if the slug is empty. */
  predicate NamedAfter(slugged: string, key: Key) {
    (if slugged != "" then slugged else "agent") <= key
  }

  /** The keys of different roles differ, whatever `slug` makes of them. A repeated role keeps only the
      last key it was given. */
  method AssignKeys(agents: seq<Spec>, slug: string -> string) returns (keys: map<string, Key>)
    ensures forall r :: r in keys <==> HasRole(agents, r)
    ensures forall r, q :: r in keys && q in keys && keys[r] == keys[q] ==> r == q
    ensures forall r :: r in keys ==> NamedAfter(slug(r), keys[r])
  {
    keys := map[];
    var used: set<string> := {};
    for i := 0 to |agents|
      invariant forall r :: r in keys <==> exists j :: 0 <= j < i && agents[j].role == r
      invariant forall r, q :: r in keys && q in keys && keys[r] == keys[q] ==> r == q
      invariant forall r :: r in keys ==> keys[r] in used
      invariant forall r :: r in keys ==> NamedAfter(slug(r), keys[r])
    {
      var slugged := slug(agents[i].role);
      var key := Unique(if slugged != "" then slugged else "agent", used);
      used := used + {key};
      keys := keys[agents[i].role := key];
    }
  }

  // ---- edges --------------------------------------------------------------------------------------

  /** The pairs one agent's declared dependencies ask for: known roles other than its own. */
  function PairsInto(keys: map<string, Key>, sources: seq<string>, target: Key): Arcs {
    set r | r in sources && r in keys && keys[r] != target :: (keys[r], target)
  }

  function DesignedPairs(keys: map<string, Key>, agents: seq<Spec>): Arcs
    requires forall a :: a in agents ==> a.role in keys
  {
    if agents == [] then {}
    else
      var n := |agents| - 1;
      DesignedPairs(keys, agents[..n]) + PairsInto(keys, agents[n].dependsOn, keys[agents[n].role])
  }

  /** A pair is designed exactly if the agent at its end names a role at its start, and they differ. */
  lemma {:induction false} DesignedExactly(keys: map<string, Key>, agents: seq<Spec>, a: Key, b: Key)
    requires forall x :: x in agents ==> x.role in keys
    ensures (a, b) in DesignedPairs(keys, agents) <==>
      a != b && exists x, r :: x in agents && keys[x.role] == b && r in x.dependsOn && r in keys && keys[r] == a
  {
    if agents != [] {
      var n := |agents| - 1;
      DesignedExactly(keys, agents[..n], a, b);
      assert agents == agents[..n] + [agents[n]];
      assert (a, b) in PairsInto(keys, agents[n].dependsOn, keys[agents[n].role]) <==>
        a != b && keys[agents[n].role] == b && exists r :: r in agents[n].dependsOn && r in keys && keys[r] == a;
    }
  }

  ghost predicate PlainEdges(edges: seq<Edge>) {
    forall e :: e in edges ==> e.condition == None && e.passPayload
  }

  method AddEdgesInto(keys: map<string, Key>, sources: seq<string>, target: Key, before: seq<Edge>)
    returns (edges: seq<Edge>)
    requires DistinctPairs(before) && PlainEdges(before)
    ensures DistinctPairs(edges) && PlainEdges(edges)
    ensures ArcsOf(edges) == ArcsOf(before) + PairsInto(keys, sources, target)
  {
    edges := before;
    for j := 0 to |sources|
      invariant DistinctPairs(edges) && PlainEdges(edges)
      invariant ArcsOf(edges) == ArcsOf(before) + PairsInto(keys, sources[..j], target)
    {
      if sources[j] in keys && keys[sources[j]] != target {
        var pair := (keys[sources[j]], target);
        if pair !in ArcsOf(edges) {
          ArcsGrow(edges, Edge(pair.0, pair.1, None, true));
          EdgeIsNew(edges, Edge(pair.0, pair.1, None, true));
          edges := edges + [Edge(pair.0, pair.1, None, true)];
        }
      }
    }
    assert sources[..|sources|] == sources;
  }

  method BuildEdges(keys: map<string, Key>, agents: seq<Spec>) returns (edges: seq<Edge>)
    requires forall a :: a in agents ==> a.role in keys
    ensures DistinctPairs(edges) && PlainEdges(edges)
    ensures ArcsOf(edges) == DesignedPairs(keys, agents)
  {
    edges := [];
    for i := 0 to |agents|
      invariant DistinctPairs(edges) && PlainEdges(edges)
      invariant ArcsOf(edges) == DesignedPairs(keys, agents[..i])
    {
      assert agents[..i + 1][..i] == agents[..i];
      edges := AddEdgesInto(keys, agents[i].dependsOn, keys[agents[i].role], edges);
    }
    assert agents[..|agents|] == agents;
  }

  // ---- assembling ----------------------------------------------------------------------------------

  datatype Outcome = Compiled(plan: Plan) | Invalid

  lemma ChainIsValid(nodes: seq<Node>, edges: seq<Edge>)
    requires |nodes| >= 1 && DistinctKeys(nodes) && ArcsOf(edges) == ChainArcs(KeysOf(nodes))
    ensures ValidPlan(Plan(nodes, edges))
  {
    var keys := KeysOf(nodes);
    var plan := Plan(nodes, edges);
    forall a, b | (a, b) in ArcsOf(edges)
      ensures Before(keys, a, b) && a in NodeKeys(plan) && b in NodeKeys(plan) && a != b
    {
      ChainIsForward(keys, a, b);
      var i, j :| 0 <= i < j < |keys| && keys[i] == a && keys[j] == b;
      assert nodes[i] in nodes && nodes[j] in nodes;
    }
    forall e | e in edges
      ensures KnownEdge(plan, e)
    {
      assert (e.source, e.target) in ArcsOf(edges);
    }
    ForwardArcsAreAcyclic(keys, ArcsOf(edges));
  }

  /** The designed edges are kept exactly when they make a valid plan; otherwise the nodes are chained,
      and even that fails exactly when two nodes share a key. */
  method AssemblePlan(nodes: seq<Node>, edges: seq<Edge>) returns (outcome: Outcome)
    requires |nodes| >= 1
    ensures outcome.Compiled? <==> DistinctKeys(nodes)
    ensures outcome.Compiled? ==> ValidPlan(outcome.plan) && outcome.plan.nodes == nodes
    ensures outcome.Compiled? && ValidPlan(Plan(nodes, edges)) ==> outcome.plan.edges == edges
    ensures outcome.Compiled? && !ValidPlan(Plan(nodes, edges)) ==>
      && ArcsOf(outcome.plan.edges) == ChainArcs(KeysOf(nodes))
      && PlainEdges(outcome.plan.edges) && DistinctPairs(outcome.plan.edges)
  {
    hide Acyclic;
    var designed := Plan(nodes, edges);
    var verdict := Validate(designed);
    if verdict.Valid? {
      return Compiled(designed);
    }
    var chain := ChainEdges(KeysOf(nodes));
    if DistinctKeys(nodes) {
      ChainIsValid(nodes, chain);
    }
    verdict := Validate(Plan(nodes, chain));
    return if verdict.Valid? then Compiled(Plan(nodes, chain)) else Invalid;
  }

  function Cut(text: string, n: nat): string {
    if |text| > n then text[..n] else text
  }

  function TeamNode(key: Key, objective: string, isSynthesizer: bool): Node {
    Node(key, Cut("gen-" + key, 64), objective, JObj(map[]), [], false, if isSynthesizer then Any else All, None)
  }

  ghost predicate NodesFor(agents: seq<Spec>, keys: map<string, Key>, brief: Spec -> string, nodes: seq<Node>) {
    && |nodes| == |agents|
    && forall i :: 0 <= i < |agents| ==>
         agents[i].role in keys && nodes[i] == TeamNode(keys[agents[i].role], brief(agents[i]), agents[i].isSynthesizer)
  }

  /** A worker waits for all it depends on and the synthesizer for any; nobody waits for an approval or sends
      work back; the agent is named after the key, cut to the width of its column. */
  ghost predicate MadeFrom(agent: Spec, keys: map<string, Key>, brief: Spec -> string, n: Node) {
    && agent.role in keys && n.key == keys[agent.role] && n.objective == brief(agent)
    && (n.joinPolicy == Any <==> agent.isSynthesizer)
    && !n.requiresApproval && n.feedback == None && n.satisfies == [] && n.parameters == JObj(map[])
    && |n.agentId| <= 64 && n.agentId <= "gen-" + n.key && (|n.key| <= 60 ==> n.agentId == "gen-" + n.key)
  }

  lemma TeamNodesAreMade(agents: seq<Spec>, keys: map<string, Key>, brief: Spec -> string, nodes: seq<Node>)
    requires NodesFor(agents, keys, brief, nodes)
    ensures forall i :: 0 <= i < |agents| ==> MadeFrom(agents[i], keys, brief, nodes[i])
  {
  }

  /** The graph half of `build_team`. It raises exactly when two agents share a role: they then share a
      node key, which no edges can repair. */
  method BuildTeam(agents: seq<Spec>, slug: string -> string, brief: Spec -> string)
    returns (outcome: Outcome, keys: map<string, Key>)
    requires agents != []
    ensures outcome.Compiled? <==> DistinctRoles(agents)
    ensures forall a :: a in agents ==> a.role in keys
    ensures outcome.Compiled? ==>
      && ValidPlan(outcome.plan) && NodesFor(agents, keys, brief, outcome.plan.nodes)
      && PlainEdges(outcome.plan.edges) && DistinctPairs(outcome.plan.edges)
      && ArcsOf(outcome.plan.edges) ==
           (if Acyclic(DesignedPairs(keys, agents)) then DesignedPairs(keys, agents)
            else ChainArcs(KeysOf(outcome.plan.nodes)))
    ensures outcome.Compiled? ==>
      && |outcome.plan.nodes| == |agents|
      && forall i :: 0 <= i < |agents| ==> MadeFrom(agents[i], keys, brief, outcome.plan.nodes[i])
  {
    hide Acyclic, NamedAfter, MadeFrom;
    keys := AssignKeys(agents, slug);
    forall a | a in agents
      ensures a.role in keys
    {
      var i :| 0 <= i < |agents| && agents[i] == a;
    }
    var nodes := [];
    for i := 0 to |agents|
      invariant NodesFor(agents[..i], keys, brief, nodes)
    {
      assert agents[i] in agents;
      nodes := nodes + [TeamNode(keys[agents[i].role], brief(agents[i]), agents[i].isSynthesizer)];
    }
    assert agents[..|agents|] == agents;
    var edges := BuildEdges(keys, agents);
    DesignIsValidWhenAcyclic(agents, keys, brief, nodes, edges);
    TeamNodesAreMade(agents, keys, brief, nodes);
    outcome := AssemblePlan(nodes, edges);
  }

  lemma {:induction false} DesignedPairsAreKnown(keys: map<string, Key>, agents: seq<Spec>, a: Key, b: Key)
    requires forall x :: x in agents ==> x.role in keys
    requires (a, b) in DesignedPairs(keys, agents)
    ensures a != b
    ensures exists r :: r in keys && keys[r] == a
    ensures exists r :: r in keys && keys[r] == b
  {
    var n := |agents| - 1;
    assert agents[n] in agents;
    if (a, b) in DesignedPairs(keys, agents[..n]) {
      DesignedPairsAreKnown(keys, agents[..n], a, b);
    }
  }

  lemma DesignIsValidWhenAcyclic(
    agents: seq<Spec>, keys: map<string, Key>, brief: Spec -> string, nodes: seq<Node>, edges: seq<Edge>)
    requires agents != [] && NodesFor(agents, keys, brief, nodes)
    requires forall a :: a in agents ==> a.role in keys
    requires forall r :: r in keys <==> HasRole(agents, r)
    requires forall r, q :: r in keys && q in keys && keys[r] == keys[q] ==> r == q
    requires ArcsOf(edges) == DesignedPairs(keys, agents)
    ensures DistinctKeys(nodes) <==> DistinctRoles(agents)
    ensures ValidPlan(Plan(nodes, edges)) <==> DistinctKeys(nodes) && Acyclic(ArcsOf(edges))
  {
    hide Acyclic, NodeKeys;
    SharedRoleSharesKey(agents, keys, brief, nodes);
    var plan := Plan(nodes, edges);
    forall e | e in edges
      ensures KnownEdge(plan, e)
    {
      assert (e.source, e.target) in ArcsOf(edges);
      DesignedPairsAreKnown(keys, agents, e.source, e.target);
      RoleHasNode(agents, keys, brief, nodes, e.source, edges);
      RoleHasNode(agents, keys, brief, nodes, e.target, edges);
    }
  }

  lemma SharedRoleSharesKey(agents: seq<Spec>, keys: map<string, Key>, brief: Spec -> string, nodes: seq<Node>)
    requires NodesFor(agents, keys, brief, nodes)
    requires forall r, q :: r in keys && q in keys && keys[r] == keys[q] ==> r == q
    ensures DistinctKeys(nodes) <==> DistinctRoles(agents)
  {
    forall i, j | 0 <= i < j < |agents|
      ensures nodes[i].key == nodes[j].key <==> agents[i].role == agents[j].role
    {
    }
  }

  lemma RoleHasNode(
    agents: seq<Spec>, keys: map<string, Key>, brief: Spec -> string, nodes: seq<Node>, key: Key, edges: seq<Edge>)
    requires NodesFor(agents, keys, brief, nodes)
    requires forall r :: r in keys <==> HasRole(agents, r)
    requires exists r :: r in keys && keys[r] == key
    ensures key in NodeKeys(Plan(nodes, edges))
  {
    var r :| r in keys && keys[r] == key;
    var i :| 0 <= i < |agents| && agents[i].role == r;
    assert nodes[i] in nodes;
  }

  // ---- the synthesizer is reached ------------------------------------------------------------------

  lemma {:induction false} ChainReaches(keys: seq<Key>, i: nat, j: nat)
    requires i < j < |keys|
    ensures Reaches(ChainArcs(keys), keys[i], keys[j])
  {
    var n := |keys| - 1;
    if j < n {
      ChainReaches(keys[..n], i, j);
      ReachesMonotone(ChainArcs(keys[..n]), ChainArcs(keys), keys[i], keys[j]);
    } else {
      ArcReaches(ChainArcs(keys), keys[n - 1], keys[n]);
      if i < n - 1 {
        ChainReaches(keys[..n], i, n - 1);
        ReachesMonotone(ChainArcs(keys[..n]), ChainArcs(keys), keys[i], keys[n - 1]);
        ReachesTransitive(ChainArcs(keys), keys[i], keys[n - 1], keys[n]);
      }
    }
  }

  /** In a compiled team, designed or chained, every worker's result leads to the synthesizer. */
  lemma SynthesizerIsReached(team: seq<Spec>, keys: map<string, Key>, brief: Spec -> string, plan: Plan, i: nat)
    requires Normalised(team) && NodesFor(team, keys, brief, plan.nodes) && ValidPlan(plan)
    requires forall a :: a in team ==> a.role in keys
    requires ArcsOf(plan.edges) == (if Acyclic(DesignedPairs(keys, team)) then DesignedPairs(keys, team)
                                    else ChainArcs(KeysOf(plan.nodes)))
    requires i < |team| - 1
    ensures plan.nodes[|team| - 1].joinPolicy == Any
    ensures Reaches(ArcsOf(plan.edges), plan.nodes[i].key, plan.nodes[|team| - 1].key)
  {
    hide Acyclic;
    var n := |team| - 1;
    if Acyclic(DesignedPairs(keys, team)) {
      assert team[..n][i].role == team[i].role;
      assert team[i].role in team[n].dependsOn;
      assert (keys[team[i].role], keys[team[n].role]) in PairsInto(keys, team[n].dependsOn, keys[team[n].role]);
      ArcReaches(DesignedPairs(keys, team), plan.nodes[i].key, plan.nodes[n].key);
    } else {
      ChainReaches(KeysOf(plan.nodes), i, n);
    }
  }

  /** Two agents with one role are enough: whatever the keys and the edges, no plan comes of them. */
  lemma SharedRoleNeverCompiles(
    first: Spec, second: Spec, keys: map<string, Key>, brief: Spec -> string, nodes: seq<Node>, edges: seq<Edge>)
    requires first.role == second.role && NodesFor([first, second], keys, brief, nodes)
    ensures !DistinctRoles([first, second]) && !ValidPlan(Plan(nodes, edges))
  {
    hide Acyclic;
    var agents := [first, second];
    assert agents[0].role == agents[1].role;
    assert nodes[0].key == nodes[1].key;
  }

  // ---- the budget slices ----------------------------------------------------------------------------

  /** `round(x, 4)` of a number that is not negative: to the nearest ten-thousandth, ties to the even. */
  function Round4(x: real): real {
    var scaled := x * 10000.0;
    var below := scaled.Floor;
    var rest := scaled - below as real;
    var units := if rest < 0.5 || (rest == 0.5 && below % 2 == 0) then below else below + 1;
    units as real / 10000.0
  }

  function Slice(budget: real, agents: nat): real {
    budget / (if agents > 1 then agents else 1) as real
  }

  /** Each agent's own ceiling. */
  function AgentCap(budget: real, agents: nat): real {
    var slice := Slice(budget, agents);
    var floored := if slice > 0.02 then slice else 0.02;
    Round4(if floored < 90.0 then floored else 90.0)
  }

  lemma RoundIsNear(x: real)
    ensures x - 0.00005 <= Round4(x) <= x + 0.00005
  {
  }

  lemma FloorAndCeiling()
    ensures Round4(0.02) == 0.02 && Round4(90.0) == 90.0
  {
    assert 0.02 * 10000.0 == 200.0 && 90.0 * 10000.0 == 900000.0;
  }

  /** The ceilings of a team's agents add up to no more than the budget exactly when a slice reaches the
      upper clamp, or reaches the lower one and is not rounded up. */
  lemma SlicesFitExactly(budget: real, agents: nat)
    requires agents >= 1
    ensures var slice := Slice(budget, agents);
      agents as real * AgentCap(budget, agents) <= budget <==>
      slice >= 90.0 || (slice >= 0.02 && Round4(slice) <= slice)
  {
    hide Round4;
    FloorAndCeiling();
    var slice := Slice(budget, agents);
    Scaled(agents as real, AgentCap(budget, agents), slice);
    assert agents as real * slice == budget;
  }

  /** Rounding costs at most half a ten-thousandth an agent. */
  lemma SlicesAlmostFit(budget: real, agents: nat)
    requires agents >= 1 && Slice(budget, agents) >= 0.02
    ensures agents as real * AgentCap(budget, agents) <= budget + agents as real * 0.00005
  {
    hide Round4;
    FloorAndCeiling();
    var n, slice := agents as real, Slice(budget, agents);
    RoundIsNear(slice);
    Scaled(n, AgentCap(budget, agents), slice + 0.00005);
    assert n * (slice + 0.00005) == n * slice + n * 0.00005;
    assert n * slice == budget;
  }

  /** Three agents on a budget of two dollars are allowed two dollars and a hundredth of a cent. */
  lemma ThreeSlicesOfTwo()
    ensures AgentCap(2.0, 3) == 0.6667 && 3.0 * AgentCap(2.0, 3) > 2.0
  {
    var slice := Slice(2.0, 3);
    var scaled := slice * 10000.0;
    assert 6666.5 < scaled < 6667.0;
    assert scaled.Floor == 6666;
  }

  /** How often an agent of a team may try. */
  const TEAM_ATTEMPTS := 2

  /** Each attempt has the whole ceiling to itself, so what the agents may spend over all their attempts
      stays within the budget only from two upper clamps an agent on. */
  lemma AttemptsFitExactly(budget: real, agents: nat)
    requires agents >= 1
    ensures agents as real * (TEAM_ATTEMPTS as real * AgentCap(budget, agents)) <= budget <==>
      Slice(budget, agents) >= 180.0
  {
    hide Round4;
    FloorAndCeiling();
    var n, slice, cap := agents as real, Slice(budget, agents), AgentCap(budget, agents);
    RoundIsNear(slice);
    Scaled(n, 2.0 * cap, slice);
    assert n * slice == budget;
  }

  lemma Scaled(n: real, x: real, y: real)
    requires n > 0.0
    ensures x <= y <==> n * x <= n * y
  {
  }
}
