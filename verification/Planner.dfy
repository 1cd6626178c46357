/** From chosen agents to a graph (`backend/app/orchestration/planner.py`): edges follow what
    capabilities consume, and a pass over the dependency dictionary drops the implied ones. */
module Planner {
  import opened Collections
  import opened Graphs
  import opened Conditions
  import opened Plans
  import opened Protocol

  datatype Capability =
    | TaskDecomposition | GeneralAssistance | WebResearch | Summarisation | SourceExtraction | DataCleaning
    | DependencyAudit | VulnerabilityAnalysis | SecurityRecommendation | CodeGeneration | CodeModification
    | Debugging | TestGeneration | TestExecution | TestAnalysis | CodeReview | QualityAssessment
    | Documentation | ReportGeneration

  type Capabilities = set<Capability>

  const DEFAULT_RANK := 35

  function StageRank(c: Capability): nat {
    match c
    case TaskDecomposition => 0
    case GeneralAssistance => 5
    case WebResearch => 10
    case Summarisation => 10
    case SourceExtraction => 10
    case DataCleaning => 15
    case DependencyAudit => 20
    case VulnerabilityAnalysis => 20
    case SecurityRecommendation => 20
    case CodeGeneration => 30
    case CodeModification => 30
    case Debugging => 30
    case TestGeneration => 40
    case TestExecution => 40
    case TestAnalysis => 40
    case CodeReview => 50
    case QualityAssessment => 50
    case Documentation => 60
    case ReportGeneration => 60
  }

  const RESEARCH: Capabilities := {WebResearch, Summarisation, SourceExtraction}
  const SECURITY: Capabilities := {VulnerabilityAnalysis, DependencyAudit, SecurityRecommendation}
  const CODE: Capabilities := {CodeGeneration, CodeModification, Debugging}
  const TESTING: Capabilities := {TestGeneration, TestExecution, TestAnalysis}
  const REVIEW: Capabilities := {CodeReview, QualityAssessment}
  const PLANNING: Capabilities := {TaskDecomposition}
  const SYNTHESIS: Capabilities := {Documentation, ReportGeneration}

  /** What a capability needs to see. A capability the table leaves out consumes planning. */
  function Consumes(c: Capability): Capabilities {
    if c in PLANNING || c == GeneralAssistance then {}
    else if c in RESEARCH || c == DataCleaning || c in SECURITY then PLANNING
    else if c in CODE then PLANNING + RESEARCH + SECURITY
    else if c in TESTING || c in REVIEW then PLANNING + CODE
    else PLANNING
  }

  function ConsumedBy(caps: Capabilities): Capabilities {
    set c, d | c in caps && d in Consumes(c) :: d
  }

  predicate IsSynthesis(caps: Capabilities) {
    caps * SYNTHESIS != {}
  }

  predicate SomeAt(caps: Capabilities, rank: nat) {
    exists c :: c in caps && StageRank(c) == rank
  }

  function LeastRank(caps: Capabilities, from: nat): (rank: nat)
    requires from <= 60 && exists c :: c in caps && StageRank(c) >= from
    ensures SomeAt(caps, rank) && rank >= from
    ensures forall c :: c in caps && StageRank(c) >= from ==> rank <= StageRank(c)
    decreases 60 - from
  {
    if SomeAt(caps, from) then from else LeastRank(caps, from + 1)
  }

  /** An agent's earliest stage over the capabilities it was chosen for. */
  function StageOf(caps: Capabilities): (stage: nat)
    ensures caps == {} ==> stage == DEFAULT_RANK
    ensures caps != {} ==> SomeAt(caps, stage) && forall c :: c in caps ==> stage <= StageRank(c)
  {
    if caps == {} then DEFAULT_RANK
    else
      assert exists c :: c in caps && StageRank(c) >= 0 by {
        var c :| c in caps;
      }
      LeastRank(caps, 0)
  }

  /** A node before its graph-dependent parts are known. */
  datatype Draft = Draft(key: Key, agentId: string, caps: Capabilities, objective: string, satisfies: seq<string>)

  ghost predicate DistinctDrafts(drafts: seq<Draft>) {
    forall i, j :: 0 <= i < j < |drafts| ==> drafts[i].key != drafts[j].key
  }

  /** Sorted by stage. */
  ghost predicate StagesRise(drafts: seq<Draft>) {
    forall i, j :: 0 <= i < j < |drafts| ==> StageOf(drafts[i].caps) <= StageOf(drafts[j].caps)
  }

  // ---- the order of the nodes --------------------------------------------------------------

  /** The sort key of `_order`: the stage, and then the agent id. */
  predicate Precedes(a: Draft, b: Draft) {
    || StageOf(a.caps) < StageOf(b.caps)
    || (StageOf(a.caps) == StageOf(b.caps) && Alphabetical(a.agentId, b.agentId))
  }

  predicate KeysDiffer(a: Draft, b: Draft) {
    a.key != b.key
  }

  ghost predicate DistinctAgents(drafts: seq<Draft>) {
    forall i, j :: 0 <= i < j < |drafts| ==> drafts[i].agentId != drafts[j].agentId
  }

  function Order(chosen: seq<Draft>): seq<Draft> {
    Sort(Precedes, chosen)
  }

  lemma PrecedesIsStrict()
    ensures StrictOrder(Precedes)
  {
    hide StageOf, Alphabetical;
    forall a: Draft, b: Draft, c: Draft
      ensures Precedes(a, b) && Precedes(b, c) ==> Precedes(a, c)
    {
      AlphabeticalOrders(a.agentId, b.agentId, c.agentId);
    }
    forall a: Draft, b: Draft
      ensures !(Precedes(a, b) && Precedes(b, a))
    {
      AlphabeticalOrders(a.agentId, b.agentId, "");
    }
  }

  lemma AgentsAreRanked(drafts: seq<Draft>)
    requires DistinctAgents(drafts)
    ensures Ranked(Precedes, drafts)
  {
    hide StageOf, Alphabetical;
    forall i, j | 0 <= i < j < |drafts|
      ensures Precedes(drafts[i], drafts[j]) || Precedes(drafts[j], drafts[i])
    {
      AlphabeticalOrders(drafts[i].agentId, drafts[j].agentId, "");
    }
  }

  /** The chosen agents come out by stage, whatever order the selection held them in. */
  lemma OrderIsByStage(chosen: seq<Draft>)
    requires DistinctAgents(chosen) && DistinctDrafts(chosen)
    ensures StagesRise(Order(chosen)) && DistinctDrafts(Order(chosen))
    ensures multiset(Order(chosen)) == multiset(chosen)
    ensures forall i, j :: 0 <= i < j < |Order(chosen)| ==>
      var a, b := Order(chosen)[i], Order(chosen)[j];
      StageOf(a.caps) == StageOf(b.caps) ==> Alphabetical(a.agentId, b.agentId)
  {
    hide StageOf, Alphabetical;
    PrecedesIsStrict();
    AgentsAreRanked(chosen);
    SortSorts(Precedes, chosen);
    SortAdds(Precedes, chosen);
    assert Ranked(KeysDiffer, chosen);
    ReorderedIsRanked(KeysDiffer, chosen, Order(chosen));
    var drafts := Order(chosen);
    forall i, j | 0 <= i < j < |drafts|
      ensures StageOf(drafts[i].caps) <= StageOf(drafts[j].caps) && drafts[i].key != drafts[j].key
      ensures StageOf(drafts[i].caps) == StageOf(drafts[j].caps) ==> Alphabetical(drafts[i].agentId, drafts[j].agentId)
    {
      assert Precedes(drafts[i], drafts[j]);
      assert KeysDiffer(drafts[i], drafts[j]) || KeysDiffer(drafts[j], drafts[i]);
    }
  }

  /** The same selection always gives the same node order. */
  lemma OrderIsDeterministic(chosen: seq<Draft>, other: seq<Draft>)
    requires DistinctAgents(chosen) && multiset(chosen) == multiset(other)
    ensures Order(chosen) == Order(other)
  {
    PrecedesIsStrict();
    AgentsAreRanked(chosen);
    ReorderedIsRanked(Precedes, chosen, other);
    SortSorts(Precedes, chosen);
    SortSorts(Precedes, other);
    SortAdds(Precedes, chosen);
    SortAdds(Precedes, other);
    SortedIsUnique(Precedes, Order(chosen), Order(other));
  }

  // ---- dependencies ----------------------------------------------------------------------------

  function DraftKeySet(drafts: seq<Draft>): set<Key> {
    set d | d in drafts :: d.key
  }

  type Dependencies = map<Key, set<Key>>

  function Relation(dependencies: Dependencies): Arcs {
    set k, d | k in dependencies && d in dependencies[k] :: (d, k)
  }

  /** The consumption edges into `node`, before reduction. */
  predicate DependsOn(node: Draft, other: Draft) {
    && other.key != node.key
    && StageOf(other.caps) < StageOf(node.caps)
    && (ConsumedBy(node.caps) * other.caps != {} || IsSynthesis(node.caps))
  }

  function DirectOf(node: Draft, drafts: seq<Draft>): set<Key> {
    set o | o in drafts && DependsOn(node, o) :: o.key
  }

  function StageMap(drafts: seq<Draft>): map<Key, nat>
    requires DistinctDrafts(drafts)
  {
    map d | d in drafts :: d.key := StageOf(d.caps)
  }

  function InitialDependencies(drafts: seq<Draft>): Dependencies
    requires DistinctDrafts(drafts)
  {
    map d | d in drafts :: d.key := DirectOf(d, drafts)
  }

  lemma StageMapAt(drafts: seq<Draft>, d: Draft)
    requires DistinctDrafts(drafts) && d in drafts
    ensures d.key in StageMap(drafts) && StageMap(drafts)[d.key] == StageOf(d.caps)
    ensures d.key in InitialDependencies(drafts) && InitialDependencies(drafts)[d.key] == DirectOf(d, drafts)
  {
  }

  /** The rank comparison is what rules cycles out. */
  lemma StagesRank(drafts: seq<Draft>)
    requires DistinctDrafts(drafts)
    ensures Ranks(Relation(InitialDependencies(drafts)), StageMap(drafts))
  {
    var initial := InitialDependencies(drafts);
    forall a, b | (a, b) in Relation(initial)
      ensures a in StageMap(drafts) && b in StageMap(drafts) && StageMap(drafts)[a] < StageMap(drafts)[b]
    {
      var d :| d in drafts && d.key == b;
      StageMapAt(drafts, d);
      var o :| o in drafts && DependsOn(d, o) && o.key == a;
      StageMapAt(drafts, o);
    }
  }

  // ---- reduction -----------------------------------------------------------------------

  /** Everything a member of `direct` depends on, directly or not. */
  ghost predicate Implied(arcs: Arcs, direct: set<Key>, key: Key) {
    exists d :: d in direct && Reaches(arcs, key, d)
  }

  method Listed(keys: set<Key>) returns (list: seq<Key>)
    ensures forall k :: k in list <==> k in keys
    ensures DistinctSeq(list)
  {
    list := [];
    var todo := keys;
    while todo != {}
      invariant todo <= keys && forall k :: k in list <==> k in keys - todo
      invariant DistinctSeq(list)
    {
      var k :| k in todo;
      assert k !in list;
      list, todo := list + [k], todo - {k};
    }
  }

  /** One popped key: its unseen dependencies are marked and pushed. */
  method MarkAbove(above: set<Key>, implied: set<Key>) returns (marked: set<Key>, pushed: seq<Key>)
    ensures marked == implied + above
    ensures forall k :: k in pushed <==> k in marked && k !in implied
  {
    marked, pushed := implied, [];
    var todo := above;
    while todo != {}
      invariant todo <= above && marked == implied + (above - todo)
      invariant forall k :: k in pushed <==> k in marked && k !in implied
    {
      var k :| k in todo;
      if k !in marked {
        marked, pushed := marked + {k}, pushed + [k];
      }
      todo := todo - {k};
    }
  }

  function AboveOf(dependencies: Dependencies, key: Key): set<Key> {
    if key in dependencies then dependencies[key] else {}
  }

  function AllSources(dependencies: Dependencies): set<Key> {
    set k, d | k in dependencies && d in dependencies[k] :: d
  }

  lemma AboveIsImplied(dependencies: Dependencies, direct: set<Key>, current: Key, a: Key)
    requires current in direct || Implied(Relation(dependencies), direct, current)
    requires a in AboveOf(dependencies, current)
    ensures Implied(Relation(dependencies), direct, a)
  {
    var arcs := Relation(dependencies);
    assert (a, current) in arcs;
    ArcReaches(arcs, a, current);
    if current !in direct {
      var d :| d in direct && Reaches(arcs, current, d);
      ReachesTransitive(arcs, a, current, d);
    }
  }

  lemma {:induction false} WalkImplied(arcs: Arcs, direct: set<Key>, seen: set<Key>, p: seq<Key>)
    requires IsWalk(arcs, p) && |p| >= 2 && p[|p| - 1] in direct
    requires forall a, b :: (a, b) in arcs && (b in direct || b in seen) ==> a in seen
    ensures p[0] in seen
  {
    assert (p[0], p[1]) in arcs;
    if |p| > 2 {
      assert IsWalk(arcs, p[1..]);
      WalkImplied(arcs, direct, seen, p[1..]);
    }
  }

  /** `_reduce`: the worklist gathers exactly the implied keys, and they are dropped. */
  method Reduce(direct: set<Key>, dependencies: Dependencies) returns (kept: set<Key>)
    ensures forall k :: k in kept <==> k in direct && !Implied(Relation(dependencies), direct, k)
  {
    ghost var arcs := Relation(dependencies);
    ghost var sources := AllSources(dependencies);
    var implied: set<Key> := {};
    var frontier := Listed(direct);
    ghost var done: set<Key> := {};
    while frontier != []
      invariant implied <= sources
      invariant forall k :: k in implied ==> Implied(arcs, direct, k)
      invariant forall k :: k in frontier ==> k in direct || k in implied
      invariant forall k :: k in direct || k in implied ==> k in done || k in frontier
      invariant forall k :: k in done ==> AboveOf(dependencies, k) <= implied
      decreases sources - implied, |frontier|
    {
      var current := frontier[|frontier| - 1];
      ghost var stack := frontier;
      frontier := frontier[..|frontier| - 1];
      var marked, pushed := MarkAbove(AboveOf(dependencies, current), implied);
      forall k | k in marked
        ensures Implied(arcs, direct, k) && k in sources
      {
        if k !in implied {
          AboveIsImplied(dependencies, direct, current, k);
        }
      }
      frontier := frontier + pushed;
      done := done + {current};
      assert forall k :: k in stack ==> k == current || k in frontier;
      if pushed != [] {
        assert pushed[0] in marked && pushed[0] in (sources - implied) - (sources - marked);
      } else {
        assert marked == implied;
      }
      implied := marked;
    }
    forall k | Implied(arcs, direct, k)
      ensures k in implied
    {
      var d :| d in direct && Reaches(arcs, k, d);
      var p :| WalkBetween(arcs, p, k, d);
      forall a, b | (a, b) in arcs && (b in direct || b in implied)
        ensures a in implied
      {
        assert a in AboveOf(dependencies, b);
      }
      WalkImplied(arcs, direct, implied, p);
    }
    kept := direct - implied;
  }

  // ---- why the pass is a transitive reduction -------------------------------------------

  /** `less` is `arcs` without some arcs into `n`, each of them implied by another arc into `n`. */
  ghost predicate DropsImplied(arcs: Arcs, less: Arcs, n: Key) {
    && less <= arcs
    && forall a, b :: (a, b) in arcs && (a, b) !in less ==>
         b == n && exists m :: (m, n) in arcs && Reaches(arcs, a, m)
  }

  /** Walks that end below `n` do not use its arcs. */
  lemma WalksBelowStay(arcs: Arcs, less: Arcs, rank: map<Key, nat>, n: Key, a: Key, m: Key)
    requires Ranks(arcs, rank) && DropsImplied(arcs, less, n) && Reaches(arcs, a, m)
    requires m in rank && n in rank && rank[m] < rank[n]
    ensures Reaches(less, a, m)
  {
    var p :| WalkBetween(arcs, p, a, m);
    forall i | 0 <= i < |p| - 1
      ensures (p[i], p[i + 1]) in less
    {
      if i + 1 < |p| - 1 {
        WalkRises(arcs, rank, p, i + 1, |p| - 1);
      }
    }
    assert WalkBetween(less, p, a, m);
  }

  lemma {:induction false} DroppedArcStillReaches(arcs: Arcs, less: Arcs, rank: map<Key, nat>, n: Key, a: Key)
    requires Ranks(arcs, rank) && DropsImplied(arcs, less, n) && (a, n) in arcs
    ensures Reaches(less, a, n)
    decreases rank[n] - rank[a]
  {
    if (a, n) in less {
      ArcReaches(less, a, n);
    } else {
      var m :| (m, n) in arcs && Reaches(arcs, a, m);
      ReachesRises(arcs, rank, a, m);
      DroppedArcStillReaches(arcs, less, rank, n, m);
      WalksBelowStay(arcs, less, rank, n, a, m);
      ReachesTransitive(less, a, m, n);
    }
  }

  /** Dropping implied arcs loses no ancestor of any node. */
  lemma {:induction false} DroppingKeepsReach(arcs: Arcs, less: Arcs, rank: map<Key, nat>, n: Key, a: Key, b: Key)
    requires Ranks(arcs, rank) && DropsImplied(arcs, less, n) && Reaches(arcs, a, b)
    ensures Reaches(less, a, b)
    decreases if b in rank then rank[b] else 0
  {
    var c := LastArc(arcs, a, b);
    if b == n {
      DroppedArcStillReaches(arcs, less, rank, n, c);
    } else {
      ArcReaches(less, c, b);
    }
    if c != a {
      DroppingKeepsReach(arcs, less, rank, n, a, c);
      ReachesTransitive(less, a, c, b);
    }
  }

  ghost predicate SameReach(arcs: Arcs, arcs': Arcs) {
    forall a, b :: Reaches(arcs, a, b) <==> Reaches(arcs', a, b)
  }

  /** No member of `direct` is already reachable from, that is implied by, another member. */
  ghost predicate Irredundant(arcs: Arcs, direct: set<Key>) {
    forall a, b :: a in direct && b in direct ==> !Reaches(arcs, a, b)
  }

  lemma ReducingOne(dependencies: Dependencies, rank: map<Key, nat>, n: Key, kept: set<Key>)
    requires Ranks(Relation(dependencies), rank) && n in dependencies
    requires forall k :: k in kept <==> k in dependencies[n] && !Implied(Relation(dependencies), dependencies[n], k)
    ensures SameReach(Relation(dependencies), Relation(dependencies[n := kept]))
    ensures Relation(dependencies[n := kept]) <= Relation(dependencies)
    ensures Irredundant(Relation(dependencies), kept)
  {
    var arcs, less := Relation(dependencies), Relation(dependencies[n := kept]);
    forall a, b | (a, b) in arcs && (a, b) !in less
      ensures b == n && exists m :: (m, n) in arcs && Reaches(arcs, a, m)
    {
      var m :| m in dependencies[n] && Reaches(arcs, a, m);
      assert (m, n) in arcs;
    }
    assert DropsImplied(arcs, less, n);
    forall a, b
      ensures Reaches(arcs, a, b) <==> Reaches(less, a, b)
    {
      if Reaches(arcs, a, b) {
        DroppingKeepsReach(arcs, less, rank, n, a, b);
      }
      if Reaches(less, a, b) {
        ReachesMonotone(less, arcs, a, b);
      }
    }
  }

  /** What holds of the dictionary once the first `n` nodes have been passed. */
  ghost predicate Passed(drafts: seq<Draft>, initial: Arcs, dependencies: Dependencies, n: nat)
    requires n <= |drafts|
  {
    && (forall d :: d in drafts ==> d.key in dependencies)
    && SameReach(initial, Relation(dependencies)) && Relation(dependencies) <= initial
    && (forall j :: 0 <= j < n ==> PassedAt(drafts, initial, dependencies, drafts[j]))
    && (forall j :: n <= j < |drafts| ==>
          drafts[j].key in dependencies && dependencies[drafts[j].key] == DirectOf(drafts[j], drafts))
  }

  ghost predicate PassedAt(drafts: seq<Draft>, initial: Arcs, dependencies: Dependencies, d: Draft) {
    && d.key in dependencies
    && (if IsSynthesis(d.caps) then dependencies[d.key] == DirectOf(d, drafts)
        else Irredundant(initial, dependencies[d.key]))
  }

  lemma PassOne(
    drafts: seq<Draft>, initial: Arcs, rank: map<Key, nat>, dependencies: Dependencies, n: nat, kept: set<Key>)
    requires DistinctDrafts(drafts) && n < |drafts| && Passed(drafts, initial, dependencies, n)
    requires Ranks(initial, rank) && !IsSynthesis(drafts[n].caps)
    requires forall k :: k in kept <==>
      k in dependencies[drafts[n].key] && !Implied(Relation(dependencies), dependencies[drafts[n].key], k)
    ensures Passed(drafts, initial, dependencies[drafts[n].key := kept], n + 1)
  {
    hide Reaches, DirectOf, IsSynthesis, Relation;
    var key := drafts[n].key;
    var arcs, less := Relation(dependencies), Relation(dependencies[key := kept]);
    ReducingOne(dependencies, rank, key, kept);
    IrredundantMoves(arcs, initial, kept);
    forall j | 0 <= j < n
      ensures PassedAt(drafts, initial, dependencies[key := kept], drafts[j])
    {
      assert PassedAt(drafts, initial, dependencies, drafts[j]);
    }
  }

  lemma PassStarts(drafts: seq<Draft>)
    requires DistinctDrafts(drafts)
    ensures Passed(drafts, Relation(InitialDependencies(drafts)), InitialDependencies(drafts), 0)
  {
    hide DirectOf, Reaches;
    forall d | d in drafts
      ensures d.key in InitialDependencies(drafts) && InitialDependencies(drafts)[d.key] == DirectOf(d, drafts)
    {
      StageMapAt(drafts, d);
    }
  }

  /** The dependency dictionary of `_build_edges`, reduced in place: every node keeps its ancestors, a
      node that is not a synthesis keeps no dependency implied by another, and a synthesis keeps all. */
  method BuildDependencies(drafts: seq<Draft>) returns (dependencies: Dependencies)
    requires DistinctDrafts(drafts)
    ensures dependencies.Keys == DraftKeySet(drafts)
    ensures SameReach(Relation(InitialDependencies(drafts)), Relation(dependencies))
    ensures Relation(dependencies) <= Relation(InitialDependencies(drafts))
    ensures forall d :: d in drafts && !IsSynthesis(d.caps) ==>
      Irredundant(Relation(dependencies), dependencies[d.key])
    ensures forall d :: d in drafts && IsSynthesis(d.caps) ==> dependencies[d.key] == DirectOf(d, drafts)
  {
    hide DependsOn, StageOf, IsSynthesis, Reaches, DirectOf, Relation, SameReach, Irredundant, Implied, Passed;
    ghost var initial := Relation(InitialDependencies(drafts));
    dependencies := InitialDependencies(drafts);
    StagesRank(drafts);
    PassStarts(drafts);
    for i := 0 to |drafts|
      invariant dependencies.Keys == DraftKeySet(drafts)
      invariant Passed(drafts, initial, dependencies, i)
    {
      if IsSynthesis(drafts[i].caps) {
        PassSynthesis(drafts, initial, dependencies, i);
      } else {
        var kept := Reduce(dependencies[drafts[i].key], dependencies);
        PassOne(drafts, initial, StageMap(drafts), dependencies, i, kept);
        dependencies := dependencies[drafts[i].key := kept];
      }
    }
    PassDone(drafts, initial, dependencies);
  }

  lemma PassSynthesis(drafts: seq<Draft>, initial: Arcs, dependencies: Dependencies, n: nat)
    requires n < |drafts| && Passed(drafts, initial, dependencies, n) && IsSynthesis(drafts[n].caps)
    ensures Passed(drafts, initial, dependencies, n + 1)
  {
    hide DirectOf, IsSynthesis, SameReach, Relation;
  }

  lemma PassDone(drafts: seq<Draft>, initial: Arcs, dependencies: Dependencies)
    requires Passed(drafts, initial, dependencies, |drafts|)
    ensures SameReach(initial, Relation(dependencies)) && Relation(dependencies) <= initial
    ensures forall d :: d in drafts && !IsSynthesis(d.caps) ==>
      d.key in dependencies && Irredundant(Relation(dependencies), dependencies[d.key])
    ensures forall d :: d in drafts && IsSynthesis(d.caps) ==>
      d.key in dependencies && dependencies[d.key] == DirectOf(d, drafts)
  {
    hide DirectOf, IsSynthesis, SameReach, Relation, Irredundant;
    forall d | d in drafts
      ensures PassedAt(drafts, initial, dependencies, d)
      ensures !IsSynthesis(d.caps) ==> Irredundant(Relation(dependencies), dependencies[d.key])
    {
      var i :| 0 <= i < |drafts| && drafts[i] == d;
      assert PassedAt(drafts, initial, dependencies, drafts[i]);
      if !IsSynthesis(d.caps) {
        IrredundantMoves(initial, Relation(dependencies), dependencies[d.key]);
      }
    }
  }

  lemma IrredundantMoves(arcs: Arcs, arcs': Arcs, direct: set<Key>)
    requires SameReach(arcs, arcs') || SameReach(arcs', arcs)
    requires Irredundant(arcs, direct)
    ensures Irredundant(arcs', direct)
  {
    hide Reaches;
  }

  // ---- edges and nodes --------------------------------------------------------------------

  const FINDINGS := Condition("findings", NonEmpty, JNull,
    "the security agent reported no findings, so there is nothing to fix")
  const PASSED := Condition("passed", IsFalse, JNull, "the tests did not pass")
  const APPROVED := Condition("approved", IsFalse, JNull, "the review rejected the change")

  function ConditionFor(source: Capabilities, target: Capabilities): Option<Condition> {
    if source * SECURITY != {} && target * CODE != {} then Some(FINDINGS) else None
  }

  function CapsOf(drafts: seq<Draft>, key: Key): Capabilities {
    if drafts == [] then {} else if drafts[0].key == key then drafts[0].caps else CapsOf(drafts[1..], key)
  }

  /** Every edge hands its payload on, under the condition its two ends call for. */
  ghost predicate Conditioned(drafts: seq<Draft>, edges: seq<Edge>) {
    forall e :: e in edges ==>
      e.passPayload && e.condition == ConditionFor(CapsOf(drafts, e.source), CapsOf(drafts, e.target))
  }

  /** The edges into one node. */
  method EdgesInto(drafts: seq<Draft>, key: Key, sources: seq<Key>, before: seq<Edge>) returns (edges: seq<Edge>)
    requires DistinctSeq(sources) && DistinctPairs(before) && Conditioned(drafts, before)
    requires forall a :: (a, key) !in ArcsOf(before)
    ensures DistinctPairs(edges) && Conditioned(drafts, edges)
    ensures ArcsOf(edges) == ArcsOf(before) + set s | s in sources :: (s, key)
  {
    hide DistinctPairs, ConditionFor, CapsOf;
    edges := before;
    for j := 0 to |sources|
      invariant DistinctPairs(edges) && Conditioned(drafts, edges)
      invariant ArcsOf(edges) == ArcsOf(before) + set s | s in sources[..j] :: (s, key)
    {
      var e := Edge(sources[j], key, ConditionFor(CapsOf(drafts, sources[j]), CapsOf(drafts, key)), true);
      ArcsGrow(edges, e);
      EdgeIsNew(edges, e);
      edges := edges + [e];
    }
  }

  /** Edges that carry a finished dependency dictionary. */
  method EdgesFrom(drafts: seq<Draft>, dependencies: Dependencies) returns (edges: seq<Edge>)
    requires DistinctDrafts(drafts) && dependencies.Keys == DraftKeySet(drafts)
    ensures ArcsOf(edges) == Relation(dependencies)
    ensures DistinctPairs(edges) && Conditioned(drafts, edges)
  {
    edges := [];
    ghost var keys: set<Key> := {};
    for i := 0 to |drafts|
      invariant keys == set j | 0 <= j < i :: drafts[j].key
      invariant ArcsOf(edges) == RelationOn(dependencies, keys)
      invariant DistinctPairs(edges) && Conditioned(drafts, edges)
    {
      var key := drafts[i].key;
      var sources := Listed(dependencies[key]);
      edges := EdgesInto(drafts, key, sources, edges);
      keys := keys + {key};
    }
    assert keys == dependencies.Keys;
  }

  function RelationOn(dependencies: Dependencies, keys: set<Key>): Arcs {
    set k, d | k in dependencies && k in keys && d in dependencies[k] :: (d, k)
  }

  /** The edges keep what the consumption relation reaches, and nothing it does not hold; a node that is not
      a synthesis keeps no dependency implied by another, and a synthesis keeps all of its own. */
  ghost predicate Reduced(drafts: seq<Draft>, arcs: Arcs)
    requires DistinctDrafts(drafts)
  {
    && SameReach(Relation(InitialDependencies(drafts)), arcs)
    && arcs <= Relation(InitialDependencies(drafts))
    && (forall d :: d in drafts && !IsSynthesis(d.caps) ==>
          forall a, b :: (a, d.key) in arcs && (b, d.key) in arcs ==> !Reaches(arcs, a, b))
    && (forall d, o :: d in drafts && IsSynthesis(d.caps) && o in drafts && DependsOn(d, o) ==>
          (o.key, d.key) in arcs)
  }

  /** The parallel branch of `_build_edges`: the reduced consumption graph. */
  method ConsumptionEdges(drafts: seq<Draft>) returns (edges: seq<Edge>)
    requires DistinctDrafts(drafts)
    ensures Reduced(drafts, ArcsOf(edges)) && DistinctPairs(edges) && Conditioned(drafts, edges)
  {
    hide DependsOn, StageOf, IsSynthesis, Reaches, InitialDependencies, SameReach, Relation, Irredundant;
    hide DistinctPairs, Conditioned;
    var dependencies := BuildDependencies(drafts);
    edges := EdgesFrom(drafts, dependencies);
    WholeRelation(drafts, dependencies, ArcsOf(edges));
  }

  lemma WholeRelation(drafts: seq<Draft>, dependencies: Dependencies, arcs: Arcs)
    requires arcs == Relation(dependencies) && dependencies.Keys == DraftKeySet(drafts)
    requires forall d :: d in drafts && !IsSynthesis(d.caps) ==> Irredundant(arcs, dependencies[d.key])
    requires forall d :: d in drafts && IsSynthesis(d.caps) ==> dependencies[d.key] == DirectOf(d, drafts)
    ensures forall d :: d in drafts && !IsSynthesis(d.caps) ==>
      forall a, b :: (a, d.key) in arcs && (b, d.key) in arcs ==> !Reaches(arcs, a, b)
    ensures forall d, o :: d in drafts && IsSynthesis(d.caps) && o in drafts && DependsOn(d, o) ==>
        (o.key, d.key) in arcs
  {
    hide Reaches, DependsOn, IsSynthesis;
    forall d, o | d in drafts && IsSynthesis(d.caps) && o in drafts && DependsOn(d, o)
      ensures (o.key, d.key) in arcs
    {
      assert o.key in DirectOf(d, drafts);
    }
  }

  predicate Offers(o: Draft, upstream: set<Key>, targets: Capabilities) {
    o.key in upstream && o.caps * targets != {}
  }

  /** The first draft, in order, that is directly upstream and provides what the rule sends back to. */
  function FirstTarget(drafts: seq<Draft>, upstream: set<Key>, targets: Capabilities): (key: Option<Key>)
    ensures key.Some? ==> key.value in upstream
  {
    if drafts == [] then None
    else if Offers(drafts[0], upstream, targets) then Some(drafts[0].key)
    else FirstTarget(drafts[1..], upstream, targets)
  }

  function UpstreamOf(edges: seq<Edge>, key: Key): set<Key> {
    set e | e in edges && e.target == key :: e.source
  }

  const REVISE := "The tests you were given failed. Revise the change so they pass."
  const REWORK := "A reviewer rejected the change. Address the issues and try again."

  function FeedbackOf(draft: Draft, drafts: seq<Draft>, edges: seq<Edge>): Option<FeedbackRule> {
    var target := FirstTarget(drafts, UpstreamOf(edges, draft.key), CODE);
    if target.None? then None
    else if draft.caps * TESTING != {} then Some(FeedbackRule(target.value, PASSED, "failures", REVISE))
    else if draft.caps * REVIEW != {} then Some(FeedbackRule(target.value, APPROVED, "issues", REWORK))
    else None
  }

  /** `_finish`. */
  function Finish(draft: Draft, drafts: seq<Draft>, edges: seq<Edge>, requireApproval: bool): Node {
    Node(draft.key, draft.agentId, draft.objective, JObj(map[]), draft.satisfies,
         requireApproval && draft.caps * CODE != {},
         if IsSynthesis(draft.caps) then Any else All, FeedbackOf(draft, drafts, edges))
  }

  function FinishAll(drafts: seq<Draft>, all: seq<Draft>, edges: seq<Edge>, requireApproval: bool): (nodes: seq<Node>)
    ensures |nodes| == |drafts|
    ensures forall i :: 0 <= i < |drafts| ==> nodes[i] == Finish(drafts[i], all, edges, requireApproval)
  {
    if drafts == [] then []
    else [Finish(drafts[0], all, edges, requireApproval)] + FinishAll(drafts[1..], all, edges, requireApproval)
  }

  function DraftKeys(drafts: seq<Draft>): seq<Key> {
    seq(|drafts|, i requires 0 <= i < |drafts| => drafts[i].key)
  }

  /** Consumption edges go strictly forward in the planner's order. */
  lemma ConsumptionIsForward(drafts: seq<Draft>, a: Key, b: Key)
    requires DistinctDrafts(drafts) && StagesRise(drafts) && (a, b) in Relation(InitialDependencies(drafts))
    ensures Before(DraftKeys(drafts), a, b)
  {
    hide StageOf;
    var d :| d in drafts && d.key == b;
    StageMapAt(drafts, d);
    var o :| o in drafts && DependsOn(d, o) && o.key == a;
    var i :| 0 <= i < |drafts| && drafts[i] == o;
    var j :| 0 <= j < |drafts| && drafts[j] == d;
    assert StageOf(drafts[i].caps) < StageOf(drafts[j].caps);
    assert i < j && DraftKeys(drafts)[i] == a && DraftKeys(drafts)[j] == b;
  }

  /** Both modes of `_build_edges`. */
  method BuildEdges(drafts: seq<Draft>, sequential: bool) returns (edges: seq<Edge>)
    requires DistinctDrafts(drafts) && StagesRise(drafts)
    ensures sequential ==> ArcsOf(edges) == ChainArcs(DraftKeys(drafts)) && Unconditional(edges)
    ensures !sequential ==> Reduced(drafts, ArcsOf(edges)) && Conditioned(drafts, edges)
    ensures forall e :: e in edges ==> Before(DraftKeys(drafts), e.source, e.target)
    ensures DistinctPairs(edges)
  {
    hide StageOf, IsSynthesis, Reaches, DependsOn, Before, InitialDependencies, Relation, StagesRise, SameReach;
    hide DistinctPairs, Conditioned;
    if sequential {
      edges := ChainEdges(DraftKeys(drafts));
    } else {
      edges := ConsumptionEdges(drafts);
    }
    forall e | e in edges
      ensures Before(DraftKeys(drafts), e.source, e.target)
    {
      assert (e.source, e.target) in ArcsOf(edges);
      if sequential {
        ChainIsForward(DraftKeys(drafts), e.source, e.target);
      } else {
        ConsumptionIsForward(drafts, e.source, e.target);
      }
    }
  }

  ghost predicate Unconditional(edges: seq<Edge>) {
    forall e :: e in edges ==> e.passPayload && e.condition == None
  }

  lemma FinishedPlanIsValid(plan: Plan, drafts: seq<Draft>, requireApproval: bool)
    requires DistinctDrafts(drafts) && |drafts| >= 1
    requires plan.nodes == FinishAll(drafts, drafts, plan.edges, requireApproval)
    requires forall e :: e in plan.edges ==> Before(DraftKeys(drafts), e.source, e.target)
    ensures ValidPlan(plan)
  {
    hide Acyclic, Finish, NodeKeys;
    forall i | 0 <= i < |drafts|
      ensures plan.nodes[i].key == DraftKeys(drafts)[i]
    {
      FinishKeepsKey(drafts[i], drafts, plan.edges, requireApproval);
    }
    assert DistinctSeq(DraftKeys(drafts));
    ForwardPlanIsValid(plan, DraftKeys(drafts));
  }

  /** Nodes in the order of their keys and edges that go forward make a valid plan. */
  lemma ForwardPlanIsValid(plan: Plan, keys: seq<Key>)
    requires DistinctSeq(keys) && |plan.nodes| == |keys| >= 1
    requires forall i :: 0 <= i < |keys| ==> plan.nodes[i].key == keys[i]
    requires forall e :: e in plan.edges ==> Before(keys, e.source, e.target)
    ensures ValidPlan(plan)
  {
    hide Acyclic;
    forall e | e in plan.edges
      ensures KnownEdge(plan, e)
    {
      var i, j :| 0 <= i < j < |keys| && keys[i] == e.source && keys[j] == e.target;
      assert plan.nodes[i] in plan.nodes && plan.nodes[j] in plan.nodes;
    }
    ForwardArcsAreAcyclic(keys, ArcsOf(plan.edges));
  }

  lemma FinishKeepsKey(draft: Draft, drafts: seq<Draft>, edges: seq<Edge>, requireApproval: bool)
    ensures Finish(draft, drafts, edges, requireApproval).key == draft.key
  {
  }

  /** The rule asks for the field to be false, and sends the detail on after the message. */
  predicate Rejects(rule: FeedbackRule, field: string, detail: string, message: string) {
    && rule.condition.path == field && rule.condition.operator == IsFalse
    && rule.detailPath == detail && rule.message == message
  }

  /** A testing node sends its failures back, and a review node that tests nothing its issues. */
  ghost predicate SentBack(caps: Capabilities, rule: FeedbackRule) {
    if caps * {TestGeneration, TestExecution, TestAnalysis} != {} then
      Rejects(rule, "passed", "failures", "The tests you were given failed. Revise the change so they pass.")
    else
      && caps * {CodeReview, QualityAssessment} != {}
      && Rejects(rule, "approved", "issues", "A reviewer rejected the change. Address the issues and try again.")
  }

  /** The first of the drafts that is one of `dependencies` and provides code. */
  ghost predicate FirstCode(drafts: seq<Draft>, dependencies: set<Key>, target: Key) {
    exists i ::
      && 0 <= i < |drafts| && drafts[i].key == target && IsCodeAmong(drafts[i], dependencies)
      && forall h :: 0 <= h < i ==> !IsCodeAmong(drafts[h], dependencies)
  }

  predicate IsCodeAmong(d: Draft, dependencies: set<Key>) {
    d.key in dependencies && d.caps * {CodeGeneration, CodeModification, Debugging} != {}
  }

  /** Only a code node waits for approval, only a synthesis joins on any, and a verdict is sent back
      exactly by a testing or review node, to the first code node among its direct dependencies. */
  ghost predicate FinishedAs(plan: Plan, draft: Draft, drafts: seq<Draft>, requireApproval: bool, n: Node) {
    && n.key == draft.key && n.agentId == draft.agentId && n.objective == draft.objective
    && n.satisfies == draft.satisfies && n.parameters == JObj(map[])
    && (n.requiresApproval <==>
          requireApproval && draft.caps * {CodeGeneration, CodeModification, Debugging} != {})
    && (n.joinPolicy == Any <==> draft.caps * {Documentation, ReportGeneration} != {})
    && (n.feedback.Some? <==>
          && draft.caps * {TestGeneration, TestExecution, TestAnalysis, CodeReview, QualityAssessment} != {}
          && exists o :: o in drafts && IsCodeAmong(o, DependenciesOf(plan, n.key)))
    && (n.feedback.Some? ==>
          && SentBack(draft.caps, n.feedback.value)
          && FirstCode(drafts, DependenciesOf(plan, n.key), n.feedback.value.target))
  }

  /** The target is the first draft that offers what the rule sends back to, and is found if there is one. */
  lemma {:induction false} FirstTargetWell(drafts: seq<Draft>, upstream: set<Key>, targets: Capabilities)
    returns (at: nat)
    ensures FirstTarget(drafts, upstream, targets).None? ==> forall o :: o in drafts ==> !Offers(o, upstream, targets)
    ensures FirstTarget(drafts, upstream, targets).Some? ==>
      && at < |drafts| && Offers(drafts[at], upstream, targets)
      && drafts[at].key == FirstTarget(drafts, upstream, targets).value
      && forall h :: 0 <= h < at ==> !Offers(drafts[h], upstream, targets)
  {
    at := 0;
    if drafts != [] && !Offers(drafts[0], upstream, targets) {
      var next := FirstTargetWell(drafts[1..], upstream, targets);
      at := next + 1;
      assert drafts == [drafts[0]] + drafts[1..];
      assert forall h :: 0 < h < |drafts| ==> drafts[h] == drafts[1..][h - 1];
    }
  }

  lemma FinishedWell(plan: Plan, draft: Draft, drafts: seq<Draft>, requireApproval: bool)
    ensures FinishedAs(plan, draft, drafts, requireApproval, Finish(draft, drafts, plan.edges, requireApproval))
  {
    hide FirstTarget;
    var dependencies := DependenciesOf(plan, draft.key);
    assert UpstreamOf(plan.edges, draft.key) == dependencies;
    var at := FirstTargetWell(drafts, dependencies, CODE);
    forall o
      ensures Offers(o, dependencies, CODE) == IsCodeAmong(o, dependencies)
    {
    }
  }

  /** `plan`: the graph always passes validation, in both modes, and can be stored. */
  method MakePlan(chosen: seq<Draft>, sequential: bool, requireApproval: bool) returns (plan: Plan)
    requires DistinctDrafts(chosen) && DistinctAgents(chosen) && |chosen| >= 1
    ensures ValidPlan(plan) && DistinctPairs(plan.edges)
    ensures KeysOf(plan.nodes) == DraftKeys(Order(chosen))
    ensures forall i :: 0 <= i < |plan.nodes| ==>
      FinishedAs(plan, Order(chosen)[i], Order(chosen), requireApproval, plan.nodes[i])
    ensures if sequential then ArcsOf(plan.edges) == ChainArcs(KeysOf(plan.nodes)) && Unconditional(plan.edges)
            else DistinctDrafts(Order(chosen)) && Reduced(Order(chosen), ArcsOf(plan.edges))
                 && Conditioned(Order(chosen), plan.edges)
  {
    hide StageOf, Reaches, FinishedAs, Before, Finish, Acyclic, NodeKeys, Order, DistinctPairs, Conditioned;
    hide Unconditional;
    hide StagesRise, DistinctAgents, Reduced;
    var drafts := Order(chosen);
    OrderIsByStage(chosen);
    SameLength(drafts, chosen);
    var edges := BuildEdges(drafts, sequential);
    plan := Plan(FinishAll(drafts, drafts, edges, requireApproval), edges);
    FinishedPlanIsValid(plan, drafts, requireApproval);
    forall i | 0 <= i < |drafts|
      ensures KeysOf(plan.nodes)[i] == DraftKeys(drafts)[i]
      ensures FinishedAs(plan, drafts[i], drafts, requireApproval, plan.nodes[i])
    {
      FinishKeepsKey(drafts[i], drafts, edges, requireApproval);
      FinishedWell(plan, drafts[i], drafts, requireApproval);
    }
  }

  /** When a node's feedback target is one of its direct dependencies, repairing the target reopens the
      node that gave the verdict. */
  lemma FiredVerdictReopensItsGiver(plan: Plan, node: Node)
    requires node.feedback.Some? && node.feedback.value.target in DependenciesOf(plan, node.key)
    ensures node.key in Affected(plan, node.feedback.value.target)
  {
    var target := node.feedback.value.target;
    DependenciesAreArcs(plan, target, node.key);
    ArcReaches(ArcsOf(plan.edges), target, node.key);
    DescendantsAreReached(plan, target, node.key);
  }

  lemma PlannerPathsHaveNoDot(condition: Condition)
    requires condition in {FINDINGS, PASSED, APPROVED}
    ensures |Split(condition.path)| == 1 && condition.operator != Contains
  {
    hide Split;
    WholeName(condition.path);
  }

  /** The object has the field, and it is JSON false. */
  predicate FieldIsFalse(payload: Json, field: string) {
    payload.JObj? && field in payload.fields && payload.fields[field] == JBool(false)
  }

  lemma RejectionReadsField(rule: FeedbackRule, field: string, detail: string, message: string, payload: Json)
    requires Rejects(rule, field, detail, message) && '.' !in field && payload.JObj?
    ensures Holds(rule.condition, payload) <==> FieldIsFalse(payload, field)
    ensures !Throws(rule.condition, payload)
  {
    hide Split, Follow;
    FieldIsFollowed(payload.fields, field);
  }

  /** What the verdict of a planned node says: `passed` for a testing node and `approved` for a review node. */
  function VerdictField(caps: Capabilities): string {
    if caps * TESTING != {} then "passed" else "approved"
  }

  lemma RejectsItself(rule: FeedbackRule, field: string, detail: string, message: string)
    requires Rejects(rule, field, detail, message)
    ensures detail == rule.detailPath && message == rule.message
  {
  }

  lemma PlainNames()
    ensures '.' !in "passed" && '.' !in "failures" && '.' !in "approved" && '.' !in "issues"
  {
  }

  lemma SentBackRejects(caps: Capabilities, rule: FeedbackRule)
    requires SentBack(caps, rule)
    ensures Rejects(rule, VerdictField(caps), rule.detailPath, rule.message)
    ensures '.' !in VerdictField(caps) && '.' !in rule.detailPath
  {
    hide Rejects;
    PlainNames();
    if caps * TESTING != {} {
      RejectsItself(rule, "passed", "failures", "The tests you were given failed. Revise the change so they pass.");
    } else {
      RejectsItself(rule, "approved", "issues", "A reviewer rejected the change. Address the issues and try again.");
    }
  }

  /** With repairs left, the verdict of a testing or review node is sent back exactly when its field is JSON
      false; a field that is missing or anything else is no rejection. */
  lemma PlannedVerdictFires(
    cfg: Config, run: Run, plan: Plan, draft: Draft, drafts: seq<Draft>, requireApproval: bool, n: Node)
    requires FinishedAs(plan, draft, drafts, requireApproval, n) && n.feedback.Some?
    requires HasVerdict(run, n) && run.outputs[n.key].payload.JObj?
    ensures Fires(cfg, run, n) <==>
      && FieldIsFalse(run.outputs[n.key].payload, VerdictField(draft.caps))
      && Repairs(run, n.feedback.value.target) < cfg.cycles
    ensures !Throws(n.feedback.value.condition, run.outputs[n.key].payload)
    ensures !DetailOf(n.feedback.value, run.outputs[n.key].payload).LookupRaises?
  {
    var rule, payload := n.feedback.value, run.outputs[n.key].payload;
    SentBackRejects(draft.caps, rule);
    hide Holds, Throws, Repairs, DetailOf, FirstCode, IsCodeAmong, DependenciesOf, SentBack, Rejects, VerdictField;
    RejectionReadsField(rule, VerdictField(draft.caps), rule.detailPath, rule.message, payload);
    PlannerDetailsNeverRaise(draft.caps, rule, payload);
  }

  /** The one condition on planned edges: from a security agent to a code agent, on findings that count. */
  lemma ConditionMeansFindings(drafts: seq<Draft>, edges: seq<Edge>, e: Edge, from: Draft, to: Draft, payload: Json)
    requires DistinctDrafts(drafts) && Conditioned(drafts, edges) && e in edges && payload.JObj?
    requires from in drafts && from.key == e.source && to in drafts && to.key == e.target
    ensures e.passPayload
    ensures e.condition.Some? <==>
      && from.caps * {VulnerabilityAnalysis, DependencyAudit, SecurityRecommendation} != {}
      && to.caps * {CodeGeneration, CodeModification, Debugging} != {}
    ensures e.condition.Some? ==>
      (Holds(e.condition.value, payload) <==>
         "findings" in payload.fields && !CountsAsEmpty(payload.fields["findings"]))
  {
    hide Split, Follow, Size, CountsAsEmpty;
    CapsAreTheDrafts(drafts, from);
    CapsAreTheDrafts(drafts, to);
    FieldIsFollowed(payload.fields, "findings");
    if "findings" in payload.fields {
      EmptyHasNoSize(payload.fields["findings"]);
    }
  }

  lemma {:induction false} CapsAreTheDrafts(drafts: seq<Draft>, d: Draft)
    requires DistinctDrafts(drafts) && d in drafts
    ensures CapsOf(drafts, d.key) == d.caps
  {
    if drafts[0] != d {
      assert d in drafts[1..];
      CapsAreTheDrafts(drafts[1..], d);
    }
  }

  // ---- what the tables say --------------------------------------------------------------------------

  /** Whatever a capability consumes stands at an earlier stage, so nothing a node needs is left behind it. */
  lemma ConsumedStandsEarlier(c: Capability, d: Capability)
    requires d in Consumes(c)
    ensures StageRank(d) < StageRank(c)
  {
  }

  /** The stages of the groups, and where an agent chosen for nothing stands. */
  function GroupOf(c: Capability): (group: nat)
    ensures group <= 8
  {
    if c in PLANNING then 0
    else if c == GeneralAssistance then 1
    else if c in RESEARCH then 2
    else if c == DataCleaning then 3
    else if c in SECURITY then 4
    else if c in CODE then 5
    else if c in TESTING then 6
    else if c in REVIEW then 7
    else 8
  }

  /** Planning comes before general help, research, cleaning, audits, code, tests, reviews and reports, in this
      order; capabilities of one group share a stage; an agent chosen for nothing stands between code and
      tests. */
  lemma StagesFollowGroups(c: Capability, d: Capability)
    ensures StageRank(c) < StageRank(d) <==> GroupOf(c) < GroupOf(d)
    ensures StageRank(c) < StageOf({}) <==> GroupOf(c) <= 5
    ensures StageRank(c) != StageOf({})
  {
    hide StageRank, GroupOf;
    StageOfGroup(c);
    StageOfGroup(d);
  }

  lemma StageOfGroup(c: Capability)
    ensures StageRank(c) == [0, 5, 10, 15, 20, 30, 40, 50, 60][GroupOf(c)]
  {
  }

  lemma ConsumptionByGroup(c: Capability)
    ensures c in PLANNING + {GeneralAssistance} ==> Consumes(c) == {}
    ensures c == DataCleaning ==> Consumes(c) == PLANNING
    ensures c in RESEARCH + SECURITY ==> Consumes(c) == PLANNING
    ensures c in CODE ==> Consumes(c) == PLANNING + RESEARCH + SECURITY
    ensures c in TESTING + REVIEW ==> Consumes(c) == PLANNING + CODE
  {
  }

  lemma NothingConsumed(node: Draft, other: Draft, consumed: Capabilities)
    requires forall c :: c in node.caps ==> Consumes(c) <= consumed && c !in SYNTHESIS
    requires consumed * other.caps == {}
    ensures !DependsOn(node, other)
  {
    hide Consumes, StageOf;
    assert forall d :: d in ConsumedBy(node.caps) ==> d in consumed;
    assert forall d :: d in other.caps ==> d !in consumed by {
      assert forall d :: d in other.caps && d in consumed ==> d in consumed * other.caps;
    }
  }

  /** An audit does not wait for research, nor research for an audit. */
  lemma AuditsAndResearchAreIndependent(node: Draft, other: Draft)
    requires node.caps <= RESEARCH + SECURITY && other.caps <= RESEARCH + SECURITY
    ensures !DependsOn(node, other)
  {
    hide Consumes;
    forall c | c in node.caps
      ensures Consumes(c) <= PLANNING && c !in SYNTHESIS
    {
      ConsumptionByGroup(c);
    }
    NothingConsumed(node, other, PLANNING);
  }

  /** A review does not wait for tests, nor tests for a review. */
  lemma TestsAndReviewsAreIndependent(node: Draft, other: Draft)
    requires node.caps <= TESTING + REVIEW && other.caps <= TESTING + REVIEW
    ensures !DependsOn(node, other)
  {
    hide Consumes;
    forall c | c in node.caps
      ensures Consumes(c) <= PLANNING + CODE && c !in SYNTHESIS
    {
      ConsumptionByGroup(c);
    }
    NothingConsumed(node, other, PLANNING + CODE);
  }

  lemma OnlyReportsAreLast(c: Capability)
    ensures c in SYNTHESIS <==> StageRank(c) == 60
    ensures StageRank(c) <= 60
  {
  }

  /** An agent that only reports depends on every other that does not report. */
  lemma ReportsSeeEverything(node: Draft, other: Draft)
    requires node.caps != {} && node.caps <= SYNTHESIS && other.caps * SYNTHESIS == {} && other.key != node.key
    ensures DependsOn(node, other)
  {
    hide StageRank, Consumes;
    forall c: Capability
      ensures c in SYNTHESIS <==> StageRank(c) == 60
      ensures StageRank(c) <= 60
    {
      OnlyReportsAreLast(c);
    }
    assert forall c :: c in other.caps ==> c !in SYNTHESIS by {
      assert forall c :: c in other.caps && c in SYNTHESIS ==> c in other.caps * SYNTHESIS;
    }
    var c :| c in node.caps;
    assert c in node.caps * SYNTHESIS;
  }

  /** A consumer waits for every agent all of whose capabilities it consumes. */
  lemma ConsumersWait(node: Draft, other: Draft)
    requires other.key != node.key && other.caps != {} && node.caps != {}
    requires forall c, d :: c in node.caps && d in other.caps ==> d in Consumes(c)
    ensures DependsOn(node, other)
  {
    hide Consumes, StageRank;
    var c, d :| c in node.caps && d in other.caps;
    assert d in ConsumedBy(node.caps) * other.caps;
    forall a, b | a in node.caps && b in other.caps
      ensures StageRank(b) < StageRank(a)
    {
      ConsumedStandsEarlier(a, b);
    }
  }

  /** A code agent waits for every agent that only plans, researches or audits; a testing or review agent for
      every one that only plans or codes. */
  lemma WorkWaitsForWhatItNeeds(node: Draft, other: Draft)
    requires other.key != node.key && other.caps != {} && node.caps != {}
    requires || (node.caps <= CODE && other.caps <= PLANNING + RESEARCH + SECURITY)
             || (node.caps <= TESTING + REVIEW && other.caps <= PLANNING + CODE)
    ensures DependsOn(node, other)
  {
    hide Consumes, DependsOn;
    forall c, d | c in node.caps && d in other.caps
      ensures d in Consumes(c)
    {
      ConsumptionByGroup(c);
    }
    ConsumersWait(node, other);
  }

  /** The conditions the planner writes never raise, whatever an agent returns. */
  lemma PlannerConditionsAreTotal(condition: Condition, payload: Json)
    requires condition in {FINDINGS, PASSED, APPROVED} && payload.JObj?
    ensures !Evaluate(UNICODE, condition, payload).Raises?
  {
    hide Split, Evaluate;
    PlannerPathsHaveNoDot(condition);
    TotalExactly(UNICODE, condition);
  }

  /** Nor do the details it asks for. */
  lemma PlannerDetailsNeverRaise(caps: Capabilities, rule: FeedbackRule, payload: Json)
    requires SentBack(caps, rule) && payload.JObj?
    ensures !DetailOf(rule, payload).LookupRaises?
  {
    SentBackRejects(caps, rule);
    hide Split, SentBack;
    WholeName(rule.detailPath);
    OnePartNeverRaises(payload, Split(rule.detailPath));
  }

  lemma OnePartNeverRaises(payload: Json, parts: seq<string>)
    requires payload.JObj? && |parts| == 1
    ensures !Follow(UNICODE, payload, parts).LookupRaises?
  {
    assert parts[1..] == [];
  }
}
