/** Choosing agents that cover the required capabilities (`backend/app/orchestration/selection.py`). */
module Selection {
  import opened Collections
  import opened Planner

  type AgentId = string

  datatype Agent = Agent(caps: Capabilities, maxCost: real)

  /** The enabled agents. */
  type Registry = map<AgentId, Agent>

  /** For each agent that provides something required, what that is. */
  type Index = map<AgentId, Capabilities>

  // ---- the preference order -------------------------------------------------------------

  /** Tuple comparison of negated character codes: the id that `max` prefers. */
  predicate NegatedGreater(x: AgentId, y: AgentId) {
    if x == "" then false
    else if y == "" then true
    else if x[0] != y[0] then x[0] < y[0]
    else NegatedGreater(x[1..], y[1..])
  }

  /** The tie-break is alphabetical exactly between ids neither of which is a prefix of the other;
      otherwise it prefers the longer id. */
  lemma {:induction false} TieBreakIsAlphabeticalExactly(x: AgentId, y: AgentId)
    requires x != y
    ensures (NegatedGreater(x, y) <==> Alphabetical(x, y)) <==> !(x <= y) && !(y <= x)
    ensures x <= y ==> !NegatedGreater(x, y) && NegatedGreater(y, x)
  {
    if x != "" && y != "" && x[0] == y[0] {
      assert x[1..] != y[1..] by {
        assert x == [x[0]] + x[1..] && y == [y[0]] + y[1..];
      }
      TieBreakIsAlphabeticalExactly(x[1..], y[1..]);
      assert x <= y <==> x[1..] <= y[1..];
      assert y <= x <==> y[1..] <= x[1..];
    }
  }

  lemma {:induction false} NegatedTotal(x: AgentId, y: AgentId)
    ensures NegatedGreater(x, y) && NegatedGreater(y, x) ==> false
    ensures x != y ==> NegatedGreater(x, y) || NegatedGreater(y, x)
  {
    if x != "" && y != "" && x[0] == y[0] {
      assert x == [x[0]] + x[1..] && y == [y[0]] + y[1..];
      NegatedTotal(x[1..], y[1..]);
    }
  }

  lemma {:induction false} NegatedTransitive(x: AgentId, y: AgentId, z: AgentId)
    requires NegatedGreater(x, y) && NegatedGreater(y, z)
    ensures NegatedGreater(x, z)
  {
    if z != "" && x[0] == y[0] == z[0] {
      NegatedTransitive(x[1..], y[1..], z[1..]);
    }
  }

  /** What an agent would cover of `remaining`. */
  function ShareOf(index: Index, remaining: Capabilities, a: AgentId): Capabilities {
    if a in index then index[a] * remaining else {}
  }

  function Without(remaining: Capabilities, share: Capabilities): Capabilities {
    remaining - share
  }

  function Gain(index: Index, remaining: Capabilities, a: AgentId): nat
    requires a in index
  {
    |ShareOf(index, remaining, a)|
  }

  /** Most remaining coverage first, then the cheaper agent, then the id. */
  predicate Better(registry: Registry, index: Index, remaining: Capabilities, a: AgentId, b: AgentId)
    requires a in index && b in index && index.Keys <= registry.Keys
  {
    || Gain(index, remaining, a) > Gain(index, remaining, b)
    || (&& Gain(index, remaining, a) == Gain(index, remaining, b)
        && (|| registry[a].maxCost < registry[b].maxCost
            || (registry[a].maxCost == registry[b].maxCost && NegatedGreater(a, b))))
  }

  ghost predicate IsBest(registry: Registry, index: Index, remaining: Capabilities, a: AgentId)
    requires index.Keys <= registry.Keys
  {
    a in index && forall b :: b in index && b != a ==> Better(registry, index, remaining, a, b)
  }

  lemma BetterTransitive(registry: Registry, index: Index, remaining: Capabilities, a: AgentId, b: AgentId, c: AgentId)
    requires a in index && b in index && c in index && index.Keys <= registry.Keys
    requires Better(registry, index, remaining, a, b) && Better(registry, index, remaining, b, c)
    ensures Better(registry, index, remaining, a, c)
  {
    if NegatedGreater(a, b) && NegatedGreater(b, c) {
      NegatedTransitive(a, b, c);
    }
  }

  lemma BetterTotal(registry: Registry, index: Index, remaining: Capabilities, a: AgentId, b: AgentId)
    requires a in index && b in index && index.Keys <= registry.Keys && a != b
    ensures Better(registry, index, remaining, a, b) || Better(registry, index, remaining, b, a)
    ensures !(Better(registry, index, remaining, a, b) && Better(registry, index, remaining, b, a))
  {
    NegatedTotal(a, b);
  }

  /** `max(by_agent, key=...)`, in any iteration order. */
  method FindBest(registry: Registry, index: Index, remaining: Capabilities) returns (best: AgentId)
    requires index.Keys <= registry.Keys && index.Keys != {}
    ensures IsBest(registry, index, remaining, best)
  {
    hide Better;
    best :| best in index.Keys;
    var todo := index.Keys - {best};
    while todo != {}
      invariant best in index && best !in todo && todo <= index.Keys
      invariant forall b :: b in index && b !in todo && b != best ==> Better(registry, index, remaining, best, b)
    {
      var b :| b in todo;
      BetterTotal(registry, index, remaining, best, b);
      if Better(registry, index, remaining, b, best) {
        forall c | c in index && c !in todo && c != best
          ensures Better(registry, index, remaining, b, c)
        {
          BetterTransitive(registry, index, remaining, b, best, c);
        }
        best := b;
      }
      todo := todo - {b};
    }
  }

  lemma BestIsUnique(registry: Registry, index: Index, remaining: Capabilities, a: AgentId, b: AgentId)
    requires index.Keys <= registry.Keys
    requires IsBest(registry, index, remaining, a) && IsBest(registry, index, remaining, b)
    ensures a == b
  {
    if a != b {
      BetterTotal(registry, index, remaining, a, b);
    }
  }

  lemma {:induction false} BestExists(registry: Registry, index: Index, remaining: Capabilities)
    requires index.Keys <= registry.Keys && index.Keys != {}
    ensures exists a :: IsBest(registry, index, remaining, a)
    decreases |index|
  {
    hide Better;
    var x :| x in index.Keys;
    var rest := index - {x};
    if rest.Keys == {} {
      assert index.Keys == {x} by {
        assert index.Keys == rest.Keys + {x};
      }
      assert IsBest(registry, index, remaining, x);
    } else {
      BestExists(registry, rest, remaining);
      var a :| IsBest(registry, rest, remaining, a);
      forall b | b in rest && b != a
        ensures Better(registry, index, remaining, a, b)
      {
        SameOrder(registry, index, rest, remaining, a, b);
      }
      BetterTotal(registry, index, remaining, a, x);
      if Better(registry, index, remaining, a, x) {
        assert IsBest(registry, index, remaining, a);
      } else {
        forall b | b in index && b != x
          ensures Better(registry, index, remaining, x, b)
        {
          if b != a {
            BetterTransitive(registry, index, remaining, x, a, b);
          }
        }
        assert IsBest(registry, index, remaining, x);
      }
    }
  }

  lemma SameOrder(registry: Registry, index: Index, rest: Index, remaining: Capabilities, a: AgentId, b: AgentId)
    requires index.Keys <= registry.Keys && rest.Keys <= index.Keys && a in rest && b in rest
    requires rest[a] == index[a] && rest[b] == index[b]
    ensures Better(registry, rest, remaining, a, b) == Better(registry, index, remaining, a, b)
  {
  }

  // ---- the greedy cover -------------------------------------------------------------------

  ghost predicate CoveredBy(index: Index, remaining: Capabilities, cover: set<AgentId>) {
    forall c :: c in remaining ==> exists a :: a in cover && a in index && c in index[a]
  }

  lemma CoveredMeansAgents(index: Index, remaining: Capabilities)
    requires remaining != {} && CoveredBy(index, remaining, index.Keys)
    ensures index.Keys != {}
  {
    var c :| c in remaining;
  }

  ghost function Best(registry: Registry, index: Index, remaining: Capabilities): (best: AgentId)
    requires index.Keys <= registry.Keys && index.Keys != {}
    ensures IsBest(registry, index, remaining, best)
  {
    BestExists(registry, index, remaining);
    var a :| IsBest(registry, index, remaining, a);
    a
  }

  /** The best agent covers something as long as anything is left: the `break` is never taken. */
  lemma BestGains(registry: Registry, index: Index, remaining: Capabilities, best: AgentId)
    requires index.Keys <= registry.Keys && remaining != {} && CoveredBy(index, remaining, index.Keys)
    requires IsBest(registry, index, remaining, best)
    ensures ShareOf(index, remaining, best) != {}
  {
    var c :| c in remaining;
    var a :| a in index && c in index[a];
    assert c in ShareOf(index, remaining, a);
    assert Gain(index, remaining, a) > 0;
    if a != best {
      assert Better(registry, index, remaining, best, a);
    }
  }

  lemma RestIsCovered(index: Index, remaining: Capabilities, cover: set<AgentId>, best: AgentId)
    requires CoveredBy(index, remaining, cover) && best in index
    ensures CoveredBy(index - {best}, Without(remaining, ShareOf(index, remaining, best)), cover - {best})
  {
    forall c | c in Without(remaining, ShareOf(index, remaining, best))
      ensures exists a :: a in cover - {best} && a in index - {best} && c in (index - {best})[a]
    {
      var a :| a in cover && a in index && c in index[a];
      assert a in cover - {best} && a in index - {best} && c in (index - {best})[a];
    }
  }

  lemma RestStillCovered(index: Index, remaining: Capabilities, best: AgentId)
    requires CoveredBy(index, remaining, index.Keys) && best in index
    ensures CoveredBy(index - {best}, Without(remaining, ShareOf(index, remaining, best)), (index - {best}).Keys)
  {
    RestIsCovered(index, remaining, index.Keys, best);
    assert (index - {best}).Keys == index.Keys - {best};
  }

  ghost function Greedy(registry: Registry, index: Index, remaining: Capabilities): map<AgentId, Capabilities>
    requires index.Keys <= registry.Keys && CoveredBy(index, remaining, index.Keys)
    decreases |remaining|
  {
    if remaining == {} then map[]
    else
      CoveredMeansAgents(index, remaining);
      var best := Best(registry, index, remaining);
      BestGains(registry, index, remaining, best);
      RestStillCovered(index, remaining, best);
      var covered := ShareOf(index, remaining, best);
      Greedy(registry, index - {best}, Without(remaining, covered))[best := covered]
  }

  /** The best agent and what is left once it has taken its share. */
  ghost predicate Takes(
    registry: Registry, index: Index, remaining: Capabilities, best: AgentId, rest: Index, left: Capabilities)
    requires index.Keys <= registry.Keys
  {
    && IsBest(registry, index, remaining, best)
    && rest == index - {best} && rest.Keys == index.Keys - {best}
    && left == Without(remaining, ShareOf(index, remaining, best)) && ShareOf(index, remaining, best) != {}
    && |left| == |remaining| - |ShareOf(index, remaining, best)|
  }

  /** One round of the greedy cover. */
  lemma GreedyStep(registry: Registry, index: Index, remaining: Capabilities)
    returns (best: AgentId, rest: Index, left: Capabilities)
    requires index.Keys <= registry.Keys && CoveredBy(index, remaining, index.Keys) && remaining != {}
    ensures best in index && Takes(registry, index, remaining, best, rest, left)
    ensures rest.Keys <= registry.Keys && CoveredBy(rest, left, rest.Keys) && |left| < |remaining|
    ensures Greedy(registry, index, remaining) == Greedy(registry, rest, left)[best := ShareOf(index, remaining, best)]
  {
    hide IsBest, CoveredBy;
    CoveredMeansAgents(index, remaining);
    best := Best(registry, index, remaining);
    assert best in index by {
      BestIsIndexed(registry, index, remaining, best);
    }
    BestGains(registry, index, remaining, best);
    RestStillCovered(index, remaining, best);
    rest, left := index - {best}, Without(remaining, ShareOf(index, remaining, best));
  }

  lemma BestIsIndexed(registry: Registry, index: Index, remaining: Capabilities, best: AgentId)
    requires index.Keys <= registry.Keys && IsBest(registry, index, remaining, best)
    ensures best in index
  {
  }

  predicate Holds(chosen: map<AgentId, Capabilities>, a: AgentId, c: Capability) {
    a in chosen && c in chosen[a]
  }

  /** Non-empty shares, each provided by its agent, disjoint, and together all that remains. */
  ghost predicate SplitsExactly(index: Index, remaining: Capabilities, chosen: map<AgentId, Capabilities>) {
    && chosen.Keys <= index.Keys
    && (forall a :: a in chosen ==> chosen[a] != {})
    && (forall a, c :: Holds(chosen, a, c) ==> c in remaining && Holds(index, a, c))
    && (forall a, b, c :: Holds(chosen, a, c) && Holds(chosen, b, c) ==> a == b)
    && (forall c :: c in remaining ==> exists a :: Holds(chosen, a, c))
  }

  lemma SplitGrows(
    index: Index, rest: Index, remaining: Capabilities, best: AgentId, covered: Capabilities,
    chosen: map<AgentId, Capabilities>)
    requires best in index && covered == ShareOf(index, remaining, best) && covered != {} && rest == index - {best}
    requires SplitsExactly(rest, Without(remaining, covered), chosen)
    ensures SplitsExactly(index, remaining, chosen[best := covered])
  {
    var more := chosen[best := covered];
    forall a, c
      ensures Holds(more, a, c) <==> (if a == best then c in covered else Holds(chosen, a, c))
    {
    }
    forall c | c in remaining
      ensures exists a :: Holds(more, a, c)
    {
      if c in covered {
        assert Holds(more, best, c);
      } else {
        assert c in Without(remaining, covered);
        var a :| Holds(chosen, a, c);
        assert Holds(more, a, c);
      }
    }
  }

  /** The shares are non-empty, provided by their agents, disjoint, and together all that is required. */
  lemma {:induction false} GreedySplitsExactly(registry: Registry, index: Index, remaining: Capabilities)
    requires index.Keys <= registry.Keys && CoveredBy(index, remaining, index.Keys)
    ensures SplitsExactly(index, remaining, Greedy(registry, index, remaining))
    decreases |remaining|
  {
    if remaining != {} {
      hide CoveredBy, Greedy, SplitsExactly, IsBest;
      var best, rest, left := GreedyStep(registry, index, remaining);
      GreedySplitsExactly(registry, rest, left);
      SplitGrows(index, rest, remaining, best, ShareOf(index, remaining, best), Greedy(registry, rest, left));
    }
  }

  // ---- the approximation ratio ---------------------------------------------------------------

  function Harmonic(n: nat): real {
    if n == 0 then 0.0 else Harmonic(n - 1) + 1.0 / n as real
  }

  lemma {:induction false} HarmonicGap(r: nat, c: nat)
    requires c <= r && r > 0
    ensures Harmonic(r) - Harmonic(r - c) >= c as real / r as real
    decreases c
  {
    if c > 0 {
      HarmonicGap(r, c - 1);
      var n := r - c + 1;
      assert Harmonic(n) == Harmonic(r - c) + 1.0 / n as real;
      assert 1.0 / n as real >= 1.0 / r as real;
      assert c as real / r as real == (c - 1) as real / r as real + 1.0 / r as real;
    }
  }

  lemma CoverWithout(index: Index, remaining: Capabilities, cover: set<AgentId>, a: AgentId, share: Capabilities)
    requires CoveredBy(index, remaining, cover) && share == ShareOf(index, remaining, a)
    ensures CoveredBy(index, Without(remaining, share), cover - {a})
  {
    forall c | c in Without(remaining, share)
      ensures exists b :: b in cover - {a} && b in index && c in index[b]
    {
      var b :| b in cover && b in index && c in index[b];
      assert b in cover - {a};
    }
  }

  lemma EmptyCover(index: Index, remaining: Capabilities)
    requires CoveredBy(index, remaining, {})
    ensures remaining == {}
  {
    if c :| c in remaining {
    }
  }

  /** `k` agents gaining at most `most` each can gain `n`. */
  ghost predicate Enough(n: nat, k: nat, most: nat) {
    n <= k * most
  }

  /** If no member of a cover gains more than `most`, the cover has at least |remaining| / most members. */
  lemma {:induction false} CoverIsLarge(index: Index, remaining: Capabilities, cover: set<AgentId>, most: nat)
    requires CoveredBy(index, remaining, cover)
    requires forall a :: a in cover ==> |ShareOf(index, remaining, a)| <= most
    ensures Enough(|remaining|, |cover|, most)
    decreases |cover|
  {
    hide CoveredBy, Enough, ShareOf, Without;
    if cover == {} {
      EmptyCover(index, remaining);
      NoneNeeded(|cover|, most);
    } else {
      var a :| a in cover;
      var share := ShareOf(index, remaining, a);
      CoverWithout(index, remaining, cover, a, share);
      GainsShrink(index, remaining, share, cover, most);
      CoverIsLarge(index, Without(remaining, share), cover - {a}, most);
      var n := |Without(remaining, share)|;
      OneMore(n, |share|, |cover - {a}|, most);
      SharePart(index, remaining, a);
      assert Enough(n + |share|, |cover|, most);
    }
  }

  lemma NoneNeeded(k: nat, most: nat)
    ensures Enough(0, k, most)
  {
  }

  lemma GainsShrink(index: Index, remaining: Capabilities, share: Capabilities, cover: set<AgentId>, most: nat)
    requires forall a :: a in cover ==> |ShareOf(index, remaining, a)| <= most
    ensures forall a :: a in cover ==> |ShareOf(index, Without(remaining, share), a)| <= most
  {
    forall a | a in cover
      ensures |ShareOf(index, Without(remaining, share), a)| <= most
    {
      Cardinality(ShareOf(index, Without(remaining, share), a), ShareOf(index, remaining, a));
    }
  }

  lemma SharePart(index: Index, remaining: Capabilities, a: AgentId)
    ensures |remaining| == |Without(remaining, ShareOf(index, remaining, a))| + |ShareOf(index, remaining, a)|
  {
    var share := ShareOf(index, remaining, a);
    assert remaining == Without(remaining, share) + share;
  }

  lemma OneMore(n: nat, more: nat, k: nat, most: nat)
    requires Enough(n, k, most) && more <= most
    ensures Enough(n + more, k + 1, most)
  {
    assert (k + 1) * most == k * most + most;
  }

  lemma OneStepPays(k: nat, c: nat, r: nat)
    requires 0 < r && Enough(r, k, c) && c <= r
    ensures 1.0 <= k as real * (Harmonic(r) - Harmonic(r - c))
  {
    HarmonicGap(r, c);
    var gap := Harmonic(r) - Harmonic(r - c);
    var ratio := c as real / r as real;
    assert k as real * ratio == (k * c) as real / r as real;
    assert (k * c) as real / r as real >= 1.0;
    Monotone(k as real, ratio, gap);
  }

  lemma Monotone(k: real, x: real, y: real)
    requires k >= 0.0 && x <= y
    ensures k * x <= k * y
  {
  }

  lemma BestGainsMost(registry: Registry, index: Index, remaining: Capabilities, best: AgentId, cover: set<AgentId>)
    requires index.Keys <= registry.Keys && IsBest(registry, index, remaining, best)
    ensures forall a :: a in cover ==> |ShareOf(index, remaining, a)| <= |ShareOf(index, remaining, best)|
  {
    forall a | a in cover && a in index
      ensures |ShareOf(index, remaining, a)| <= |ShareOf(index, remaining, best)|
    {
      if a != best {
        assert Better(registry, index, remaining, best, a);
      }
    }
  }

  lemma CoverShrinks(
    registry: Registry, index: Index, remaining: Capabilities, cover: set<AgentId>,
    best: AgentId, rest: Index, left: Capabilities)
    requires index.Keys <= registry.Keys && CoveredBy(index, remaining, cover)
    requires Takes(registry, index, remaining, best, rest, left)
    ensures CoveredBy(rest, left, cover)
  {
    RestIsCovered(index, remaining, cover, best);
  }

  /** Greedy uses at most k H(n) agents to cover n capabilities, for every cover of size k. */
  lemma {:induction false} GreedyRatio(registry: Registry, index: Index, remaining: Capabilities, cover: set<AgentId>)
    requires index.Keys <= registry.Keys && CoveredBy(index, remaining, index.Keys)
    requires CoveredBy(index, remaining, cover)
    ensures WithinRatio(|Greedy(registry, index, remaining)|, |cover|, |remaining|)
    decreases |remaining|
  {
    hide WithinRatio;
    if remaining == {} {
      NothingWithinRatio(|cover|);
    } else {
      hide CoveredBy, Greedy, IsBest, Takes;
      var best, rest, left := GreedyStep(registry, index, remaining);
      CoverShrinks(registry, index, remaining, cover, best, rest, left);
      GreedyRatio(registry, rest, left, cover);
      RatioNext(registry, index, remaining, cover, best, rest, left);
    }
  }

  lemma RatioNext(
    registry: Registry, index: Index, remaining: Capabilities, cover: set<AgentId>,
    best: AgentId, rest: Index, left: Capabilities)
    requires index.Keys <= registry.Keys && CoveredBy(index, remaining, index.Keys) && remaining != {}
    requires CoveredBy(index, remaining, cover) && best in index && Takes(registry, index, remaining, best, rest, left)
    requires rest.Keys <= registry.Keys && CoveredBy(rest, left, rest.Keys)
    requires Greedy(registry, index, remaining) == Greedy(registry, rest, left)[best := ShareOf(index, remaining, best)]
    requires WithinRatio(|Greedy(registry, rest, left)|, |cover|, |left|)
    ensures WithinRatio(|Greedy(registry, index, remaining)|, |cover|, |remaining|)
  {
    hide CoveredBy, Greedy, IsBest, WithinRatio, Enough, ShareOf, Without;
    GreedyCounts(registry, index, remaining, best, rest, left);
    BestPays(registry, index, remaining, cover, best);
    var n := |Greedy(registry, rest, left)| + 1;
    RatioStep(|cover|, |ShareOf(index, remaining, best)|, |remaining|, n - 1);
    assert WithinRatio(n, |cover|, |remaining|);
  }

  /** The best agent covers at least its share of what remains. */
  lemma BestPays(registry: Registry, index: Index, remaining: Capabilities, cover: set<AgentId>, best: AgentId)
    requires index.Keys <= registry.Keys && CoveredBy(index, remaining, cover) && remaining != {}
    requires best in index && IsBest(registry, index, remaining, best)
    ensures |ShareOf(index, remaining, best)| <= |remaining|
    ensures |remaining| > 0 && Enough(|remaining|, |cover|, |ShareOf(index, remaining, best)|)
  {
    hide CoveredBy, IsBest, Enough;
    BestGainsMost(registry, index, remaining, best, cover);
    CoverIsLarge(index, remaining, cover, |ShareOf(index, remaining, best)|);
    Cardinality(ShareOf(index, remaining, best), remaining);
    NonEmpty(remaining);
  }

  lemma NonEmpty(s: Capabilities)
    requires s != {}
    ensures |s| > 0
  {
  }

  lemma GreedyCounts(
    registry: Registry, index: Index, remaining: Capabilities, best: AgentId, rest: Index, left: Capabilities)
    requires index.Keys <= registry.Keys && CoveredBy(index, remaining, index.Keys) && best in index
    requires rest.Keys == index.Keys - {best} && CoveredBy(rest, left, rest.Keys)
    requires Greedy(registry, index, remaining) == Greedy(registry, rest, left)[best := ShareOf(index, remaining, best)]
    ensures |Greedy(registry, index, remaining)| == |Greedy(registry, rest, left)| + 1
  {
    hide CoveredBy, Greedy;
    GreedyKeys(registry, rest, left);
  }

  /** n agents are at most k H(r). */
  ghost predicate WithinRatio(n: nat, k: nat, r: nat) {
    n as real <= k as real * Harmonic(r)
  }

  lemma NothingWithinRatio(k: nat)
    ensures WithinRatio(0, k, 0)
  {
  }

  lemma RatioStep(k: nat, c: nat, r: nat, n: nat)
    requires c <= r && 0 < r && Enough(r, k, c) && WithinRatio(n, k, r - c)
    ensures WithinRatio(n + 1, k, r)
  {
    hide Enough;
    OneStepPays(k, c, r);
  }

  lemma GreedyKeys(registry: Registry, index: Index, remaining: Capabilities)
    requires index.Keys <= registry.Keys && CoveredBy(index, remaining, index.Keys)
    ensures Greedy(registry, index, remaining).Keys <= index.Keys
  {
    GreedySplitsExactly(registry, index, remaining);
  }

  // ---- the selector -----------------------------------------------------------------------------

  datatype Selected = Uncovered(missing: Capabilities) | Chosen(shares: map<AgentId, Capabilities>)

  function IndexOf(registry: Registry, required: Capabilities): Index {
    map a | a in registry && registry[a].caps * required != {} :: registry[a].caps * required
  }

  predicate Provided(registry: Registry, c: Capability) {
    exists a :: a in registry && c in registry[a].caps
  }

  lemma IndexCovers(registry: Registry, required: Capabilities, cover: set<AgentId>)
    requires forall c :: c in required ==> exists a :: a in cover && a in registry && c in registry[a].caps
    ensures CoveredBy(IndexOf(registry, required), required, cover)
  {
    var index := IndexOf(registry, required);
    forall c | c in required
      ensures exists a :: a in cover && a in index && c in index[a]
    {
      var a :| a in cover && a in registry && c in registry[a].caps;
      assert c in registry[a].caps * required;
      assert a in index && c in index[a];
    }
  }

  /** `_select_minimal`: refuses exactly the capabilities nobody provides, and otherwise runs the greedy
      cover, whatever order the dictionaries iterate in. */
  method SelectMinimal(registry: Registry, required: Capabilities)
    returns (result: Selected, ghost rounds: seq<AgentId>)
    ensures result.Uncovered? <==> exists c :: c in required && !Provided(registry, c)
    ensures result.Uncovered? ==> result.missing == set c | c in required && !Provided(registry, c)
    ensures result.Chosen? ==>
      && CoveredBy(IndexOf(registry, required), required, IndexOf(registry, required).Keys)
      && result.shares == Greedy(registry, IndexOf(registry, required), required)
      && TakenInRounds(registry, required, {}, rounds, result.shares)
  {
    hide Greedy, CoveredBy, IndexOf;
    rounds := [];
    var missing := set c | c in required && !Provided(registry, c);
    if missing != {} {
      return Uncovered(missing), rounds;
    }
    forall c | c in required
      ensures Provided(registry, c)
    {
      assert c !in missing;
    }
    rounds := SelectionByRounds(registry, required);
    IndexIsIndexed(registry, required);
    var shares := Cover(registry, IndexOf(registry, required), required);
    return Chosen(shares), rounds;
  }

  /** The greedy loop. */
  method Cover(registry: Registry, byAgent: Index, required: Capabilities) returns (chosen: map<AgentId, Capabilities>)
    requires byAgent.Keys <= registry.Keys && CoveredBy(byAgent, required, byAgent.Keys)
    ensures chosen == Greedy(registry, byAgent, required)
  {
    hide CoveredBy, Greedy, IsBest, IndexOf;
    var index, remaining := byAgent, required;
    chosen := map[];
    while remaining != {}
      invariant index.Keys <= registry.Keys && CoveredBy(index, remaining, index.Keys)
      invariant chosen.Keys !! index.Keys
      invariant chosen + Greedy(registry, index, remaining) == Greedy(registry, byAgent, required)
      decreases |remaining|
    {
      CoveredMeansAgents(index, remaining);
      var best := FindBest(registry, index, remaining);
      ghost var b, rest, left := GreedyStep(registry, index, remaining);
      BestIsUnique(registry, index, remaining, best, b);
      GreedyKeys(registry, rest, left);
      BestIsIndexed(registry, index, remaining, best);
      var covered := ShareOf(index, remaining, best);
      if covered == {} {
        break;
      }
      ShareMoves(chosen, Greedy(registry, rest, left), best, covered);
      chosen := chosen[best := covered];
      remaining := Without(remaining, covered);
      index := index - {best};
    }
    NothingLeft(registry, index, remaining);
  }

  lemma ShareMoves(chosen: map<AgentId, Capabilities>, others: map<AgentId, Capabilities>, best: AgentId,
                   share: Capabilities)
    requires best !in others
    ensures chosen[best := share] + others == chosen + others[best := share]
  {
  }

  lemma NothingLeft(registry: Registry, index: Index, remaining: Capabilities)
    requires index.Keys <= registry.Keys && CoveredBy(index, remaining, index.Keys)
    ensures remaining == {} ==> Greedy(registry, index, remaining) == map[]
  {
  }

  // ---- round by round ---------------------------------------------------------------------------------

  /** Between agents that cover as much for as much: `max` over negated character codes takes the one that
      comes first in the alphabet, and the longer of two ids if one extends the other. */
  predicate TakenOnTie(a: AgentId, b: AgentId) {
    if a <= b || b <= a then b <= a else Alphabetical(a, b)
  }

  /** `a` is the agent to take when `left` is still to be covered and the agents in `taken` are gone: it covers
      some of it, nobody available covers more, nobody who covers as much costs less, and among those who
      also cost as much it is the one the tie-break takes. */
  ghost predicate IsTaken(registry: Registry, left: Capabilities, taken: set<AgentId>, a: AgentId) {
    && a in registry && a !in taken && registry[a].caps * left != {}
    && forall b :: b in registry && b !in taken && b != a ==>
         var most, other := |registry[a].caps * left|, |registry[b].caps * left|;
         && other <= most
         && (other == most ==> registry[a].maxCost <= registry[b].maxCost)
         && (other == most && registry[a].maxCost == registry[b].maxCost ==> TakenOnTie(a, b))
  }

  /** The agents of `rounds` are taken one after the other, each for all it covers of what is left, until
      nothing is. */
  ghost predicate TakenInRounds(
    registry: Registry, left: Capabilities, taken: set<AgentId>, rounds: seq<AgentId>,
    shares: map<AgentId, Capabilities>)
  {
    if rounds == [] then left == {} && shares == map[]
    else
      var a := rounds[0];
      && left != {} && IsTaken(registry, left, taken, a)
      && a in shares && shares[a] == registry[a].caps * left
      && TakenInRounds(registry, left - shares[a], taken + {a}, rounds[1..], shares - {a})
  }

  /** What is indexed when the agents in `taken` are gone. */
  ghost predicate IndexedWithout(registry: Registry, required: Capabilities, taken: set<AgentId>, index: Index) {
    forall a :: a in index <==> a in registry && a !in taken && registry[a].caps * required != {}
  }

  ghost predicate IndexSays(registry: Registry, required: Capabilities, index: Index) {
    forall a :: a in index && a in registry ==> index[a] == registry[a].caps * required
  }

  lemma ShareIsCoverage(
    registry: Registry, required: Capabilities, left: Capabilities, index: Index, a: AgentId)
    requires left <= required && IndexSays(registry, required, index) && a in index && a in registry
    ensures ShareOf(index, left, a) == registry[a].caps * left
  {
  }

  lemma NegatedIsTakenOnTie(a: AgentId, b: AgentId)
    requires a != b && NegatedGreater(a, b)
    ensures TakenOnTie(a, b)
  {
    TieBreakIsAlphabeticalExactly(a, b);
  }

  lemma BestIsTaken(
    registry: Registry, required: Capabilities, left: Capabilities, taken: set<AgentId>, index: Index, best: AgentId)
    requires index.Keys <= registry.Keys && left <= required
    requires IndexedWithout(registry, required, taken, index) && IndexSays(registry, required, index)
    requires IsBest(registry, index, left, best) && ShareOf(index, left, best) != {}
    ensures IsTaken(registry, left, taken, best)
  {
    hide NegatedGreater, TakenOnTie;
    ShareIsCoverage(registry, required, left, index, best);
    forall b | b in registry && b !in taken && b != best
      ensures var most, other := |registry[best].caps * left|, |registry[b].caps * left|;
        && other <= most
        && (other == most ==> registry[best].maxCost <= registry[b].maxCost)
        && (other == most && registry[best].maxCost == registry[b].maxCost ==> TakenOnTie(best, b))
    {
      if b in index {
        ShareIsCoverage(registry, required, left, index, b);
        assert Better(registry, index, left, best, b);
        if NegatedGreater(best, b) {
          NegatedIsTakenOnTie(best, b);
        }
      } else {
        assert registry[b].caps * left == {} by {
          assert forall c :: c in registry[b].caps * left ==> c in registry[b].caps * required;
        }
      }
    }
  }

  lemma {:induction false} GreedyIsTakenInRounds(
    registry: Registry, required: Capabilities, left: Capabilities, taken: set<AgentId>, index: Index)
    returns (rounds: seq<AgentId>)
    requires index.Keys <= registry.Keys && left <= required && CoveredBy(index, left, index.Keys)
    requires IndexedWithout(registry, required, taken, index) && IndexSays(registry, required, index)
    ensures TakenInRounds(registry, left, taken, rounds, Greedy(registry, index, left))
    decreases |left|
  {
    rounds := [];
    if left != {} {
      hide CoveredBy, Greedy, IsBest, IsTaken;
      var best, rest, remaining := GreedyStep(registry, index, left);
      var share := ShareOf(index, left, best);
      ShareIsCoverage(registry, required, left, index, best);
      BestIsTaken(registry, required, left, taken, index, best);
      var later := GreedyIsTakenInRounds(registry, required, remaining, taken + {best}, rest);
      GreedyKeys(registry, rest, remaining);
      assert Greedy(registry, index, left) - {best} == Greedy(registry, rest, remaining);
      rounds := [best] + later;
      assert rounds[1..] == later;
    }
  }

  /** The selector's answer, round by round. */
  lemma SelectionByRounds(registry: Registry, required: Capabilities) returns (rounds: seq<AgentId>)
    requires forall c :: c in required ==> Provided(registry, c)
    ensures CoveredBy(IndexOf(registry, required), required, IndexOf(registry, required).Keys)
    ensures TakenInRounds(registry, required, {}, rounds, Greedy(registry, IndexOf(registry, required), required))
  {
    hide Greedy, TakenInRounds, IsTaken;
    var index := IndexOf(registry, required);
    IndexCovers(registry, required, registry.Keys);
    CoveredByAll(registry, required);
    IndexIsIndexed(registry, required);
    hide CoveredBy, IndexOf;
    rounds := GreedyIsTakenInRounds(registry, required, required, {}, index);
  }

  lemma CoveredByAll(registry: Registry, required: Capabilities)
    requires CoveredBy(IndexOf(registry, required), required, registry.Keys)
    ensures CoveredBy(IndexOf(registry, required), required, IndexOf(registry, required).Keys)
  {
  }

  lemma IndexIsIndexed(registry: Registry, required: Capabilities)
    ensures var index := IndexOf(registry, required);
      && index.Keys <= registry.Keys
      && IndexedWithout(registry, required, {}, index) && IndexSays(registry, required, index)
  {
  }

  /** What a caller gets: disjoint non-empty shares that add up to the request, and no more agents than
      k H(n) when k agents would do. */
  lemma SelectionIsExactAndSmall(registry: Registry, required: Capabilities, cover: set<AgentId>)
    requires forall c :: c in required ==> Provided(registry, c)
    requires forall c :: c in required ==> exists a :: a in cover && a in registry && c in registry[a].caps
    ensures CoveredBy(IndexOf(registry, required), required, IndexOf(registry, required).Keys)
    ensures var shares := Greedy(registry, IndexOf(registry, required), required);
      && SplitsExactly(IndexOf(registry, required), required, shares)
      && WithinRatio(|shares|, |cover|, |required|)
  {
    var index := IndexOf(registry, required);
    IndexCovers(registry, required, registry.Keys);
    IndexCovers(registry, required, cover);
    assert CoveredBy(index, required, index.Keys);
    GreedySplitsExactly(registry, index, required);
    GreedyRatio(registry, index, required, cover);
  }
}
