/** Relations over node keys, the walks along them, and the ranks that witness acyclicity.
    Every graph algorithm of the repository is specified against this module. */
module Graphs {

  type Key = string

  /** A directed graph: the pair `(a, b)` means that `b` depends on `a`. */
  type Arcs = set<(Key, Key)>

  function KeySet(s: seq<Key>): set<Key> {
    set k | k in s
  }

  ghost predicate IsWalk(arcs: Arcs, p: seq<Key>) {
    && |p| >= 1
    && forall i :: 0 <= i < |p| - 1 ==> (p[i], p[i + 1]) in arcs
  }

  ghost predicate WalkBetween(arcs: Arcs, p: seq<Key>, a: Key, b: Key) {
    |p| >= 2 && IsWalk(arcs, p) && p[0] == a && p[|p| - 1] == b
  }

  /** Some walk of at least one arc leads from `a` to `b`. */
  ghost predicate Reaches(arcs: Arcs, a: Key, b: Key) {
    exists p :: WalkBetween(arcs, p, a, b)
  }

  /** A rank strictly increases along every arc. */
  ghost predicate Ranks(arcs: Arcs, rank: map<Key, nat>) {
    forall a, b :: (a, b) in arcs ==> a in rank && b in rank && rank[a] < rank[b]
  }

  ghost predicate Acyclic(arcs: Arcs) {
    exists rank :: Ranks(arcs, rank)
  }

  /** Nothing leads out of `keys`. */
  ghost predicate ClosedUnder(arcs: Arcs, keys: set<Key>) {
    forall a, b :: (a, b) in arcs && a in keys ==> b in keys
  }

  lemma ArcReaches(arcs: Arcs, a: Key, b: Key)
    requires (a, b) in arcs
    ensures Reaches(arcs, a, b)
  {
    assert WalkBetween(arcs, [a, b], a, b);
  }

  lemma JoinWalks(arcs: Arcs, p: seq<Key>, q: seq<Key>, a: Key, b: Key, c: Key)
    requires WalkBetween(arcs, p, a, b) && WalkBetween(arcs, q, b, c)
    ensures WalkBetween(arcs, p + q[1..], a, c)
  {
    var w := p + q[1..];
    forall i | 0 <= i < |w| - 1
      ensures (w[i], w[i + 1]) in arcs
    {
      if i >= |p| - 1 {
        assert w[i] == q[i - (|p| - 1)] && w[i + 1] == q[i - (|p| - 1) + 1];
      }
    }
  }

  lemma ReachesTransitive(arcs: Arcs, a: Key, b: Key, c: Key)
    requires Reaches(arcs, a, b) && Reaches(arcs, b, c)
    ensures Reaches(arcs, a, c)
  {
    var p :| WalkBetween(arcs, p, a, b);
    var q :| WalkBetween(arcs, q, b, c);
    JoinWalks(arcs, p, q, a, b, c);
  }

  lemma ReachesMonotone(arcs: Arcs, more: Arcs, a: Key, b: Key)
    requires arcs <= more && Reaches(arcs, a, b)
    ensures Reaches(more, a, b)
  {
    var p :| WalkBetween(arcs, p, a, b);
    assert WalkBetween(more, p, a, b);
  }

  /** The last arc of a walk: either it is the whole walk or a shorter walk precedes it. */
  lemma LastArc(arcs: Arcs, a: Key, b: Key) returns (c: Key)
    requires Reaches(arcs, a, b)
    ensures (c, b) in arcs && (c == a || Reaches(arcs, a, c))
  {
    var p :| WalkBetween(arcs, p, a, b);
    c := p[|p| - 2];
    if |p| > 2 {
      assert WalkBetween(arcs, p[..|p| - 1], a, c);
    }
  }

  lemma {:induction false} WalkRises(arcs: Arcs, rank: map<Key, nat>, p: seq<Key>, i: nat, j: nat)
    requires Ranks(arcs, rank) && IsWalk(arcs, p) && i < j < |p|
    ensures p[i] in rank && p[j] in rank && rank[p[i]] < rank[p[j]]
    decreases j
  {
    assert (p[j - 1], p[j]) in arcs;
    if i < j - 1 {
      WalkRises(arcs, rank, p, i, j - 1);
    }
  }

  lemma ReachesRises(arcs: Arcs, rank: map<Key, nat>, a: Key, b: Key)
    requires Ranks(arcs, rank) && Reaches(arcs, a, b)
    ensures a in rank && b in rank && rank[a] < rank[b]
  {
    var p :| WalkBetween(arcs, p, a, b);
    WalkRises(arcs, rank, p, 0, |p| - 1);
  }

  /** A walk that meets a key twice rules every rank out. */
  lemma RepeatRefutesRank(arcs: Arcs, p: seq<Key>, i: nat)
    requires IsWalk(arcs, p) && i < |p| - 1 && p[i] == p[|p| - 1]
    ensures !Acyclic(arcs)
  {
    if Acyclic(arcs) {
      var rank :| Ranks(arcs, rank);
      WalkRises(arcs, rank, p, i, |p| - 1);
    }
  }

  lemma {:induction false} WalkStaysInside(arcs: Arcs, keys: set<Key>, p: seq<Key>, i: nat)
    requires ClosedUnder(arcs, keys) && IsWalk(arcs, p) && i < |p|
    requires p[0] in keys
    ensures p[i] in keys
  {
    if i > 0 {
      WalkStaysInside(arcs, keys, p, i - 1);
      assert (p[i - 1], p[i]) in arcs;
    }
  }

  /** What a key reaches lies inside any closed set holding its direct successors. */
  lemma ReachesStaysInside(arcs: Arcs, keys: set<Key>, a: Key, b: Key)
    requires ClosedUnder(arcs, keys) && Reaches(arcs, a, b)
    requires forall c :: (a, c) in arcs ==> c in keys
    ensures b in keys
  {
    var p :| WalkBetween(arcs, p, a, b);
    var q := p[1..];
    assert IsWalk(arcs, q);
    assert (p[0], p[1]) in arcs;
    WalkStaysInside(arcs, keys, q, |q| - 1);
  }

  // ---- filters -----------------------------------------------------------------------------

  /** The members of `keys` that are in `chosen`, in order. */
  function Among(keys: seq<Key>, chosen: set<Key>): (some: seq<Key>)
    ensures forall k :: k in some <==> k in keys && k in chosen
  {
    if keys == [] then []
    else (if keys[0] in chosen then [keys[0]] else []) + Among(keys[1..], chosen)
  }

  lemma {:induction false} AmongLast(keys: seq<Key>, k: Key, chosen: set<Key>)
    ensures Among(keys + [k], chosen) == Among(keys, chosen) + (if k in chosen then [k] else [])
  {
    if keys == [] {
      assert keys + [k] == [k];
    } else {
      var longer := keys + [k];
      assert longer != [] && longer[0] == keys[0] && longer[1..] == keys[1..] + [k];
      AmongLast(keys[1..], k, chosen);
    }
  }

  lemma {:induction false} AmongAmong(keys: seq<Key>, a: set<Key>, b: set<Key>)
    ensures Among(Among(keys, a), b) == Among(keys, a * b)
  {
    if keys != [] {
      AmongAmong(keys[1..], a, b);
      var rest := Among(keys[1..], a);
      if keys[0] in a {
        assert ([keys[0]] + rest)[1..] == rest;
      } else {
        assert Among(keys, a) == rest;
      }
    }
  }

  lemma {:induction false} AmongSame(keys: seq<Key>, a: set<Key>, b: set<Key>)
    requires forall k :: k in keys ==> (k in a <==> k in b)
    ensures Among(keys, a) == Among(keys, b)
  {
    if keys != [] {
      AmongSame(keys[1..], a, b);
    }
  }
}
