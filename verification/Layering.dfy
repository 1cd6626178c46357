/** The column layout of a workflow graph (`frontend/lib/graph.ts`). */
module Layering {
  import opened Graphs
  import opened Plans

  datatype NodeView = NodeView(key: Key, agentId: string)

  datatype EdgeView = EdgeView(source: Key, target: Key)

  function ViewKeys(nodes: seq<NodeView>): set<Key> {
    set n | n in nodes :: n.key
  }

  /** The edges that join two of the nodes. */
  function KnownArcs(nodes: seq<NodeView>, edges: seq<EdgeView>): Arcs {
    set e | e in edges && e.source in ViewKeys(nodes) && e.target in ViewKeys(nodes) :: (e.source, e.target)
  }

  // ---- sets that remember insertion order -----------------------------------------------

  /** The order in which a set holds keys that were inserted one by one. */
  function Inserted(keys: seq<Key>): (order: seq<Key>)
    ensures DistinctSeq(order)
    ensures forall k :: k in order <==> k in keys
  {
    if keys == [] then []
    else
      var n := |keys| - 1;
      var rest := Inserted(keys[..n]);
      assert keys == keys[..n] + [keys[n]];
      if keys[n] in rest then rest else rest + [keys[n]]
  }

  ghost predicate InOrder(order: seq<Key>, s: seq<Key>) {
    forall i, j :: 0 <= i < j < |s| ==> Before(order, s[i], s[j])
  }

  lemma {:induction false} AmongKeepsOrder(order: seq<Key>, s: seq<Key>, keep: set<Key>)
    requires InOrder(order, s)
    ensures InOrder(order, Among(s, keep))
  {
    if s != [] {
      AmongKeepsOrder(order, s[1..], keep);
      var rest := Among(s[1..], keep);
      forall j | 0 <= j < |rest|
        ensures Before(order, s[0], rest[j])
      {
        assert rest[j] in s[1..];
      }
    }
  }

  lemma BeforeIsStrict(order: seq<Key>, a: Key, b: Key)
    requires DistinctSeq(order)
    ensures !(Before(order, a, b) && Before(order, b, a))
  {
  }

  lemma InOrderIsDistinct(order: seq<Key>, s: seq<Key>)
    requires DistinctSeq(order) && InOrder(order, s)
    ensures DistinctSeq(s)
  {
  }

  // ---- the one way a key is left out -------------------------------------------------------

  /** A set around the empty key, holding nothing listed before it, each of whose members waits for
      another member. */
  ghost predicate Trap(order: seq<Key>, arcs: Arcs, keys: set<Key>) {
    && "" in keys && (forall k :: k in keys ==> k in order)
    && (forall k :: k in keys ==> !Before(order, k, ""))
    && (forall k :: k in keys ==> Waits(arcs, keys, k))
  }

  /** Some source of `key` is among `keys`. */
  ghost predicate Waits(arcs: Arcs, keys: set<Key>, key: Key) {
    exists a :: a in keys && (a, key) in arcs
  }

  // ---- what the columns are -------------------------------------------------------------------

  /** `rank` is the column index of every placed key, and no key is placed twice. */
  ghost predicate ColumnsAre(ranks: seq<seq<NodeView>>, rank: map<Key, nat>) {
    && (forall i :: 0 <= i < |ranks| ==> ranks[i] != [] && DistinctColumn(ranks[i]))
    && (forall i, j :: 0 <= i < |ranks| && 0 <= j < |ranks[i]| ==>
          ranks[i][j].key in rank && rank[ranks[i][j].key] == i)
    && (forall k :: k in rank ==> rank[k] < |ranks| && exists n :: n in ranks[rank[k]] && n.key == k)
  }

  ghost predicate DistinctColumn(column: seq<NodeView>) {
    forall i, j :: 0 <= i < j < |column| ==> column[i].key != column[j].key
  }

  ghost predicate EndsAt(arcs: Arcs, p: seq<Key>, key: Key) {
    IsWalk(arcs, p) && p[|p| - 1] == key
  }

  /** The longest walk into `key` has `depth` arcs. */
  ghost predicate IsDepth(arcs: Arcs, key: Key, depth: nat) {
    && (exists p :: EndsAt(arcs, p, key) && |p| == depth + 1)
    && (forall p :: EndsAt(arcs, p, key) ==> |p| <= depth + 1)
  }

  ghost predicate Forward(arcs: Arcs, rank: map<Key, nat>) {
    forall a, b :: (a, b) in arcs && b in rank ==> a in rank && rank[a] < rank[b]
  }

  /** Every key outside the first column has a source in the column before its own. */
  ghost predicate Tight(arcs: Arcs, rank: map<Key, nat>) {
    forall k :: k in rank && rank[k] > 0 ==> exists a :: (a, k) in arcs && a in rank && rank[a] == rank[k] - 1
  }

  lemma {:induction false} WalkOfDepth(arcs: Arcs, rank: map<Key, nat>, key: Key) returns (p: seq<Key>)
    requires Tight(arcs, rank) && key in rank
    ensures EndsAt(arcs, p, key) && |p| == rank[key] + 1
    decreases rank[key]
  {
    if rank[key] == 0 {
      p := [key];
    } else {
      var a :| (a, key) in arcs && a in rank && rank[a] == rank[key] - 1;
      p := WalkOfDepth(arcs, rank, a);
      p := p + [key];
    }
  }

  lemma {:induction false} WalksAreShort(arcs: Arcs, rank: map<Key, nat>, p: seq<Key>, key: Key)
    requires Forward(arcs, rank) && key in rank && EndsAt(arcs, p, key)
    ensures |p| <= rank[key] + 1
  {
    var n := |p| - 1;
    if n > 0 {
      assert (p[n - 1], p[n]) in arcs;
      WalksAreShort(arcs, rank, p[..n], p[n - 1]);
    }
  }

  /** Columns that only point forward, each fed by the one before, are the longest walk lengths. */
  lemma TightForwardIsDepth(arcs: Arcs, rank: map<Key, nat>, key: Key)
    requires Forward(arcs, rank) && Tight(arcs, rank) && key in rank
    ensures IsDepth(arcs, key, rank[key])
  {
    var p := WalkOfDepth(arcs, rank, key);
    forall q | EndsAt(arcs, q, key)
      ensures |q| <= rank[key] + 1
    {
      WalksAreShort(arcs, rank, q, key);
    }
  }

  /** Among keys of an acyclic graph, some key has no source among them. */
  lemma {:induction false} SomeKeyIsFree(arcs: Arcs, keys: set<Key>) returns (free: Key)
    requires Acyclic(arcs) && keys != {}
    ensures free in keys && !Waits(arcs, keys, free)
  {
    var rank :| Ranks(arcs, rank);
    free :| free in keys;
    if a :| (a, free) in arcs && a in keys {
      free := LowestKey(arcs, rank, keys, a);
    }
  }

  lemma {:induction false} LowestKey(arcs: Arcs, rank: map<Key, nat>, keys: set<Key>, start: Key) returns (free: Key)
    requires Ranks(arcs, rank) && start in keys && start in rank
    ensures free in keys && !Waits(arcs, keys, free)
    decreases rank[start]
  {
    free := start;
    if a :| (a, free) in arcs && a in keys {
      free := LowestKey(arcs, rank, keys, a);
    }
  }

  // ---- the layout ----------------------------------------------------------------------------------

  /** The node a key is drawn as: the last one carrying it. */
  function ByKey(nodes: seq<NodeView>): (m: map<Key, NodeView>)
    ensures m.Keys == ViewKeys(nodes)
    ensures forall k :: k in m ==> m[k] in nodes && m[k].key == k
  {
    if nodes == [] then map[]
    else
      var n := |nodes| - 1;
      assert nodes == nodes[..n] + [nodes[n]];
      ByKey(nodes[..n])[nodes[n].key := nodes[n]]
  }

  /** The sources of each known target, unknown sources included. */
  method IncomingOf(nodes: seq<NodeView>, edges: seq<EdgeView>) returns (incoming: map<Key, seq<Key>>)
    ensures incoming.Keys == ViewKeys(nodes)
    ensures forall k, s :: k in incoming ==> (s in incoming[k] <==> EdgeView(s, k) in edges)
  {
    incoming := map k | k in ViewKeys(nodes) :: [];
    for i := 0 to |edges|
      invariant incoming.Keys == ViewKeys(nodes)
      invariant forall k, s :: k in incoming ==> (s in incoming[k] <==> EdgeView(s, k) in edges[..i])
    {
      var e := edges[i];
      assert edges[..i + 1] == edges[..i] + [e];
      if e.target in incoming {
        incoming := incoming[e.target := incoming[e.target] + [e.source]];
      }
    }
    assert edges[..|edges|] == edges;
  }

  /** Moves the keys of `ready` from `remaining` into a new column. */
  method TakeColumn(byKey: map<Key, NodeView>, remaining: seq<Key>, ready: seq<Key>)
    returns (column: seq<NodeView>, rest: seq<Key>)
    requires forall k :: k in ready ==> k in byKey && byKey[k].key == k
    ensures |column| == |ready| && forall i :: 0 <= i < |column| ==> column[i] == byKey[ready[i]]
    ensures rest == Among(remaining, KeySet(remaining) - KeySet(ready))
  {
    hide Among, KeySet;
    column, rest := [], remaining;
    TakeNone(remaining, ready);
    for i := 0 to |ready|
      invariant |column| == i && forall j :: 0 <= j < i ==> column[j] == byKey[ready[j]]
      invariant rest == Among(remaining, KeySet(remaining) - KeySet(ready[..i]))
    {
      column := column + [byKey[ready[i]]];
      TakeNext(remaining, ready, i);
      rest := Among(rest, KeySet(rest) - {ready[i]});
    }
    assert ready[..|ready|] == ready;
  }

  lemma TakeNone(remaining: seq<Key>, ready: seq<Key>)
    ensures Among(remaining, KeySet(remaining) - KeySet(ready[..0])) == remaining
  {
    AmongAll(remaining, KeySet(remaining) - KeySet(ready[..0]));
  }

  /** Deleting one more key. */
  lemma TakeNext(remaining: seq<Key>, ready: seq<Key>, i: nat)
    requires i < |ready|
    ensures var rest := Among(remaining, KeySet(remaining) - KeySet(ready[..i]));
      Among(rest, KeySet(rest) - {ready[i]}) == Among(remaining, KeySet(remaining) - KeySet(ready[..i + 1]))
  {
    var kept := KeySet(remaining) - KeySet(ready[..i]);
    var others := KeySet(Among(remaining, kept)) - {ready[i]};
    AmongAmong(remaining, kept, others);
    AmongSame(remaining, kept * others, KeySet(remaining) - KeySet(ready[..i + 1]));
  }

  lemma {:induction false} AmongAll(s: seq<Key>, keep: set<Key>)
    requires forall k :: k in s ==> k in keep
    ensures Among(s, keep) == s
  {
    if s != [] {
      AmongAll(s[1..], keep);
      assert s[0] in s;
    }
  }

  /** Keys of `remaining` none of whose sources remain. */
  function FreeKeys(incoming: map<Key, seq<Key>>, remaining: seq<Key>): set<Key> {
    set k | k in remaining && k in incoming && forall s :: s in incoming[k] ==> s !in remaining
  }

  /** Some source of `key` remains or stands in the last of `columns` columns. */
  ghost predicate Fed(arcs: Arcs, rank: map<Key, nat>, columns: nat, remaining: seq<Key>, key: Key) {
    exists a :: (a, key) in arcs && (a in remaining || (a in rank && rank[a] == columns - 1))
  }

  /** Each column only follows its sources, or is a single key a cycle was cut at. */
  ghost predicate CutsAreSingle(arcs: Arcs, ranks: seq<seq<NodeView>>, rank: map<Key, nat>)
    requires ColumnsAre(ranks, rank)
  {
    forall a, b :: (a, b) in arcs && b in rank ==> (a in rank && rank[a] < rank[b]) || |ranks[rank[b]]| == 1
  }

  ghost predicate Partition(order: seq<Key>, rank: map<Key, nat>, remaining: seq<Key>) {
    && InOrder(order, remaining)
    && (forall k :: k in order <==> k in rank || k in remaining)
    && (forall k :: k in rank ==> k !in remaining)
  }

  /** The state of the layout between two columns. */
  ghost predicate LaidOut(
    order: seq<Key>, arcs: Arcs, ranks: seq<seq<NodeView>>, rank: map<Key, nat>, remaining: seq<Key>)
  {
    && Partition(order, rank, remaining)
    && ColumnsAre(ranks, rank) && CutsAreSingle(arcs, ranks, rank)
    && (forall k :: k in remaining && |ranks| > 0 ==> Fed(arcs, rank, |ranks|, remaining, k))
    && (Acyclic(arcs) ==> Forward(arcs, rank) && Tight(arcs, rank))
    && (forall keys :: Trap(order, arcs, keys) ==> keys <= KeySet(remaining))
  }

  function Placed(rank: map<Key, nat>, ready: seq<Key>, column: nat): map<Key, nat> {
    rank + map k | k in ready :: column
  }

  /** A column taken out of the remaining keys: either no member waits for a remaining key, or it is
      the one key a cycle is cut at; and whatever is left over does wait. */
  ghost predicate FitColumn(
    arcs: Arcs, remaining: seq<Key>, ready: seq<Key>, column: seq<NodeView>, rest: seq<Key>)
  {
    && ready != [] && DistinctSeq(ready) && (forall k :: k in ready ==> k in remaining)
    && |column| == |ready| && (forall i :: 0 <= i < |column| ==> column[i].key == ready[i])
    && rest == Among(remaining, KeySet(remaining) - KeySet(ready))
    && (NoneWaits(arcs, remaining, ready) || (!Acyclic(arcs) && ready == [remaining[0]] && remaining[0] != ""))
    && (forall k :: k in rest ==> Waits(arcs, KeySet(remaining), k))
  }

  ghost predicate NoneWaits(arcs: Arcs, remaining: seq<Key>, ready: seq<Key>) {
    forall k :: k in ready ==> !Waits(arcs, KeySet(remaining), k)
  }

  lemma ColumnsNext(ranks: seq<seq<NodeView>>, rank: map<Key, nat>, ready: seq<Key>, column: seq<NodeView>)
    requires ColumnsAre(ranks, rank) && ready != [] && DistinctSeq(ready)
    requires forall k :: k in ready ==> k !in rank
    requires |column| == |ready| && forall i :: 0 <= i < |column| ==> column[i].key == ready[i]
    ensures ColumnsAre(ranks + [column], Placed(rank, ready, |ranks|))
  {
    var ranks': seq<seq<NodeView>> := ranks + [column];
    var rank' := Placed(rank, ready, |ranks|);
    forall i, j | 0 <= i < |ranks'| && 0 <= j < |ranks'[i]|
      ensures ranks'[i][j].key in rank' && rank'[ranks'[i][j].key] == i
    {
      if i == |ranks| {
        assert column[j].key == ready[j];
      }
    }
    forall k | k in rank'
      ensures rank'[k] < |ranks'| && exists n :: n in ranks'[rank'[k]] && n.key == k
    {
      if k in ready {
        var j :| 0 <= j < |ready| && ready[j] == k;
        assert column[j] in ranks'[|ranks|];
      }
    }
  }

  lemma CutsNext(
    order: seq<Key>, arcs: Arcs, ranks: seq<seq<NodeView>>, rank: map<Key, nat>, remaining: seq<Key>,
    ready: seq<Key>, column: seq<NodeView>)
    requires Partition(order, rank, remaining) && ColumnsAre(ranks, rank) && CutsAreSingle(arcs, ranks, rank)
    requires forall a, b :: (a, b) in arcs ==> a in order
    requires |column| == |ready| && (|ready| == 1 || NoneWaits(arcs, remaining, ready))
    requires ColumnsAre(ranks + [column], Placed(rank, ready, |ranks|))
    requires forall k :: k in ready ==> k in remaining
    ensures CutsAreSingle(arcs, ranks + [column], Placed(rank, ready, |ranks|))
  {
    var rank' := Placed(rank, ready, |ranks|);
    forall k | k in rank
      ensures rank[k] < |ranks|
    {
    }
    hide ColumnsAre, InOrder;
    forall a, b | (a, b) in arcs && b in rank'
      ensures (a in rank' && rank'[a] < rank'[b]) || |(ranks + [column])[rank'[b]]| == 1
    {
      if b in ready && a in remaining && NoneWaits(arcs, remaining, ready) {
        WaitsFor(arcs, KeySet(remaining), a, b);
      }
    }
  }

  lemma WaitsFor(arcs: Arcs, keys: set<Key>, a: Key, b: Key)
    requires a in keys && (a, b) in arcs
    ensures Waits(arcs, keys, b)
  {
  }

  lemma FedNext(
    arcs: Arcs, rank: map<Key, nat>, columns: nat, remaining: seq<Key>, ready: seq<Key>, rest: seq<Key>, key: Key)
    requires forall k :: k in rest <==> k in remaining && k !in ready
    requires Waits(arcs, KeySet(remaining), key)
    ensures Fed(arcs, Placed(rank, ready, columns), columns + 1, rest, key)
  {
    var a :| a in KeySet(remaining) && (a, key) in arcs;
  }

  /** A free column points forward and is fed by the one before. */
  lemma FreeColumnNext(
    order: seq<Key>, arcs: Arcs, rank: map<Key, nat>, columns: nat, remaining: seq<Key>, ready: seq<Key>)
    requires Partition(order, rank, remaining) && Forward(arcs, rank) && Tight(arcs, rank)
    requires forall k :: k in rank ==> rank[k] < columns
    requires forall a, b :: (a, b) in arcs ==> a in order
    requires forall k :: k in ready ==> k in remaining && (columns > 0 ==> Fed(arcs, rank, columns, remaining, k))
    requires NoneWaits(arcs, remaining, ready)
    ensures Forward(arcs, Placed(rank, ready, columns)) && Tight(arcs, Placed(rank, ready, columns))
  {
    hide InOrder;
    var rank' := Placed(rank, ready, columns);
    forall a, b | (a, b) in arcs && b in rank'
      ensures a in rank' && rank'[a] < rank'[b]
    {
      if b in ready && a in remaining {
        WaitsFor(arcs, KeySet(remaining), a, b);
      }
    }
    forall k | k in rank' && rank'[k] > 0
      ensures exists a :: (a, k) in arcs && a in rank' && rank'[a] == rank'[k] - 1
    {
      if k in ready {
        var a :| (a, k) in arcs && (a in remaining || (a in rank && rank[a] == columns - 1));
        if a in remaining {
          WaitsFor(arcs, KeySet(remaining), a, k);
        }
        assert rank'[a] == rank'[k] - 1;
      } else {
        var a :| (a, k) in arcs && a in rank && rank[a] == rank[k] - 1;
        assert a !in ready && rank'[a] == rank'[k] - 1;
      }
    }
  }

  lemma LaidOutNext(
    order: seq<Key>, arcs: Arcs, ranks: seq<seq<NodeView>>, rank: map<Key, nat>, remaining: seq<Key>,
    ready: seq<Key>, column: seq<NodeView>, rest: seq<Key>)
    requires LaidOut(order, arcs, ranks, rank, remaining) && FitColumn(arcs, remaining, ready, column, rest)
    requires forall a, b :: (a, b) in arcs ==> a in order
    ensures LaidOut(order, arcs, ranks + [column], Placed(rank, ready, |ranks|), rest)
    ensures |rest| < |remaining|
  {
    hide ColumnsAre, DistinctSeq, InOrder, CutsAreSingle, Trap, Waits, Fed, NoneWaits, Forward, Tight, Acyclic;
    var rank' := Placed(rank, ready, |ranks|);
    AmongShrinks(remaining, ready, rest);
    AmongKeepsOrder(order, remaining, KeySet(remaining) - KeySet(ready));
    ColumnsNext(ranks, rank, ready, column);
    CutsNext(order, arcs, ranks, rank, remaining, ready, column);
    forall k | k in rest
      ensures Fed(arcs, rank', |ranks| + 1, rest, k)
    {
      FedNext(arcs, rank, |ranks|, remaining, ready, rest, k);
    }
    if Acyclic(arcs) {
      ColumnsInside(ranks, rank);
      FreeColumnNext(order, arcs, rank, |ranks|, remaining, ready);
    }
    forall keys | Trap(order, arcs, keys)
      ensures keys <= KeySet(rest)
    {
      TrapHolds(order, arcs, remaining, ready, keys);
    }
  }

  lemma ColumnsInside(ranks: seq<seq<NodeView>>, rank: map<Key, nat>)
    requires ColumnsAre(ranks, rank)
    ensures forall k :: k in rank ==> rank[k] < |ranks|
  {
  }

  lemma AmongShrinks(remaining: seq<Key>, ready: seq<Key>, rest: seq<Key>)
    requires rest == Among(remaining, KeySet(remaining) - KeySet(ready))
    requires ready != [] && forall k :: k in ready ==> k in remaining
    ensures |rest| < |remaining|
    ensures forall k :: k in rest <==> k in remaining && k !in ready
  {
    AmongIsShort(remaining, KeySet(remaining) - KeySet(ready), ready[0]);
  }

  lemma {:induction false} AmongIsShort(s: seq<Key>, keep: set<Key>, gone: Key)
    ensures |Among(s, keep)| <= |s|
    ensures gone in s && gone !in keep ==> |Among(s, keep)| < |s|
  {
    if s != [] {
      AmongIsShort(s[1..], keep, gone);
    }
  }

  /** What is left when no key is free and the first one is empty is a trap. */
  lemma StuckIsTrap(order: seq<Key>, arcs: Arcs, remaining: seq<Key>)
    requires DistinctSeq(order) && InOrder(order, remaining) && remaining != [] && remaining[0] == ""
    requires forall k :: k in remaining ==> k in order && Waits(arcs, KeySet(remaining), k)
    ensures Trap(order, arcs, KeySet(remaining))
  {
    hide Before, DistinctSeq, Waits;
    var keys := KeySet(remaining);
    forall k | k in keys
      ensures !Before(order, k, "")
    {
      var j :| 0 <= j < |remaining| && remaining[j] == k;
      assert j > 0 ==> Before(order, remaining[0], remaining[j]);
      BeforeIsStrict(order, k, "");
    }
  }

  /** A trapped key is never taken. */
  lemma TrapHolds(order: seq<Key>, arcs: Arcs, remaining: seq<Key>, ready: seq<Key>, trap: set<Key>)
    requires InOrder(order, remaining) && remaining != []
    requires Trap(order, arcs, trap) && trap <= KeySet(remaining)
    requires NoneWaits(arcs, remaining, ready) || (ready == [remaining[0]] && remaining[0] != "")
    ensures trap !! KeySet(ready)
  {
    hide Before, Waits;
    forall k | k in trap
      ensures k !in ready
    {
      if NoneWaits(arcs, remaining, ready) {
        WaitsMore(arcs, trap, KeySet(remaining), k);
      }
    }
  }

  lemma WaitsMore(arcs: Arcs, keys: set<Key>, more: set<Key>, key: Key)
    requires Waits(arcs, keys, key) && keys <= more
    ensures Waits(arcs, more, key)
  {
  }

  function ReadyKeys(incoming: map<Key, seq<Key>>, remaining: seq<Key>): seq<Key>
    requires remaining != []
  {
    var free := Among(remaining, FreeKeys(incoming, remaining));
    if free != [] then free else if remaining[0] != "" then [remaining[0]] else []
  }

  /** What the filter and its fallback pick. */
  lemma ReadyWell(
    nodes: seq<NodeView>, edges: seq<EdgeView>, order: seq<Key>, incoming: map<Key, seq<Key>>, remaining: seq<Key>)
    requires incoming.Keys == ViewKeys(nodes)
    requires forall k, s :: k in incoming ==> (s in incoming[k] <==> EdgeView(s, k) in edges)
    requires DistinctSeq(order) && InOrder(order, remaining) && remaining != []
    requires forall k :: k in remaining ==> k in ViewKeys(nodes)
    ensures var ready := ReadyKeys(incoming, remaining); var arcs := KnownArcs(nodes, edges);
      && DistinctSeq(ready) && (forall k :: k in ready ==> k in remaining)
      && (NoneWaits(arcs, remaining, ready) || (!Acyclic(arcs) && ready == [remaining[0]] && remaining[0] != ""))
      && (forall k :: k in remaining && k !in ready ==> Waits(arcs, KeySet(remaining), k))
      && (ready == [] ==> !Acyclic(arcs) && remaining[0] == "")
  {
    hide FreeKeys, KnownArcs, ViewKeys, Before, DistinctSeq, Acyclic, Waits;
    var arcs := KnownArcs(nodes, edges);
    var free := FreeKeys(incoming, remaining);
    forall k | k in remaining
      ensures k in free <==> !Waits(arcs, KeySet(remaining), k)
    {
      FreeMeansNoArc(nodes, edges, incoming, remaining, k);
    }
    AmongKeepsOrder(order, remaining, free);
    InOrderIsDistinct(order, Among(remaining, free));
    assert DistinctSeq([remaining[0]]) && DistinctSeq([]) by {
      SingleIsDistinct(remaining[0]);
    }
    if Acyclic(arcs) {
      assert remaining[0] in KeySet(remaining);
      var k := SomeKeyIsFree(arcs, KeySet(remaining));
      assert k in Among(remaining, free);
    }
  }

  lemma SingleIsDistinct(key: Key)
    ensures DistinctSeq([key]) && DistinctSeq([])
  {
  }

  lemma FreeMeansNoArc(
    nodes: seq<NodeView>, edges: seq<EdgeView>, incoming: map<Key, seq<Key>>, remaining: seq<Key>, key: Key)
    requires incoming.Keys == ViewKeys(nodes)
    requires forall k, s :: k in incoming ==> (s in incoming[k] <==> EdgeView(s, k) in edges)
    requires forall k :: k in remaining ==> k in ViewKeys(nodes)
    requires key in remaining
    ensures key in FreeKeys(incoming, remaining) <==> !Waits(KnownArcs(nodes, edges), KeySet(remaining), key)
  {
    forall a | a in remaining
      ensures a in incoming[key] <==> (a, key) in KnownArcs(nodes, edges)
    {
      if EdgeView(a, key) in edges {
        var e := EdgeView(a, key);
        assert (e.source, e.target) in KnownArcs(nodes, edges);
      }
      if (a, key) in KnownArcs(nodes, edges) {
        var e :| e in edges && (e.source, e.target) == (a, key);
        assert e == EdgeView(a, key);
      }
    }
  }

  function NodeKeySeq(nodes: seq<NodeView>): seq<Key> {
    seq(|nodes|, i requires 0 <= i < |nodes| => nodes[i].key)
  }

  /** Each drawn node is the last one that carries its key. */
  ghost predicate FromNodes(nodes: seq<NodeView>, ranks: seq<seq<NodeView>>) {
    forall i, n :: 0 <= i < |ranks| && n in ranks[i] ==> n.key in ViewKeys(nodes) && n == ByKey(nodes)[n.key]
  }

  lemma OrderHolds(nodes: seq<NodeView>, edges: seq<EdgeView>)
    ensures var order := Inserted(NodeKeySeq(nodes)); var arcs := KnownArcs(nodes, edges);
      && (forall k :: k in order <==> k in ViewKeys(nodes))
      && (forall a, b :: (a, b) in arcs ==> a in order)
      && LaidOut(order, arcs, [], map[], order)
  {
    var keys := NodeKeySeq(nodes);
    var order := Inserted(keys);
    forall k
      ensures k in order <==> k in ViewKeys(nodes)
    {
      if k in keys {
        var i :| 0 <= i < |nodes| && keys[i] == k;
        assert nodes[i] in nodes;
      }
      if k in ViewKeys(nodes) {
        var i :| 0 <= i < |nodes| && nodes[i].key == k;
        assert keys[i] == k;
      }
    }
    forall i, j | 0 <= i < j < |order|
      ensures Before(order, order[i], order[j])
    {
    }
  }

  lemma RemainingWell(
    order: seq<Key>, arcs: Arcs, ranks: seq<seq<NodeView>>, rank: map<Key, nat>, remaining: seq<Key>)
    requires LaidOut(order, arcs, ranks, rank, remaining)
    ensures InOrder(order, remaining) && forall k :: k in remaining ==> k in order
  {
  }

  lemma LayoutIsRight(
    order: seq<Key>, arcs: Arcs, ranks: seq<seq<NodeView>>, rank: map<Key, nat>, remaining: seq<Key>)
    requires LaidOut(order, arcs, ranks, rank, remaining)
    requires remaining != [] ==> !Acyclic(arcs) && Trap(order, arcs, KeySet(remaining))
    ensures ColumnsAre(ranks, rank) && CutsAreSingle(arcs, ranks, rank)
    ensures forall k :: k in rank ==> k in order
    ensures (forall k :: k in order ==> k in rank) <==> !exists keys :: Trap(order, arcs, keys)
    ensures Acyclic(arcs) ==> (forall k :: k in order ==> k in rank) && Forward(arcs, rank)
    ensures Acyclic(arcs) ==> forall k :: k in rank ==> IsDepth(arcs, k, rank[k])
  {
    hide ColumnsAre, CutsAreSingle, Acyclic, Forward, Tight, IsDepth, InOrder, Waits, Before;
    if remaining == [] {
      forall keys
        ensures !Trap(order, arcs, keys)
      {
      }
    } else {
      assert remaining[0] in order && remaining[0] !in rank;
    }
    if Acyclic(arcs) {
      forall k | k in rank
        ensures IsDepth(arcs, k, rank[k])
      {
        TightForwardIsDepth(arcs, rank, k);
      }
    }
  }

  /** One round of the loop: the free keys, or else the first remaining key unless it is empty. */
  method NextColumn(
    nodes: seq<NodeView>, edges: seq<EdgeView>, ghost order: seq<Key>, byKey: map<Key, NodeView>,
    incoming: map<Key, seq<Key>>, remaining: seq<Key>)
    returns (ghost ready: seq<Key>, column: seq<NodeView>, rest: seq<Key>)
    requires byKey == ByKey(nodes) && incoming.Keys == ViewKeys(nodes)
    requires forall k, s :: k in incoming ==> (s in incoming[k] <==> EdgeView(s, k) in edges)
    requires DistinctSeq(order) && InOrder(order, remaining) && remaining != []
    requires forall k :: k in remaining ==> k in ViewKeys(nodes)
    ensures column != [] ==> FitColumn(KnownArcs(nodes, edges), remaining, ready, column, rest)
    ensures forall n :: n in column ==> n.key in ViewKeys(nodes) && n == ByKey(nodes)[n.key]
    ensures column == [] ==>
      && !Acyclic(KnownArcs(nodes, edges)) && remaining[0] == ""
      && forall k :: k in remaining ==> Waits(KnownArcs(nodes, edges), KeySet(remaining), k)
  {
    hide Acyclic, FreeKeys, Waits, NoneWaits, InOrder, DistinctSeq, KnownArcs, ViewKeys;
    var picked := Among(remaining, FreeKeys(incoming, remaining));
    if picked == [] {
      var fallback := remaining[0];
      picked := if fallback != "" then [fallback] else [];
    }
    ready := picked;
    ReadyWell(nodes, edges, order, incoming, remaining);
    column, rest := TakeColumn(byKey, remaining, picked);
  }

  method RankNodes(nodes: seq<NodeView>, edges: seq<EdgeView>)
    returns (ranks: seq<seq<NodeView>>, ghost rank: map<Key, nat>)
    ensures ColumnsAre(ranks, rank) && rank.Keys <= ViewKeys(nodes)
    ensures FromNodes(nodes, ranks)
    ensures CutsAreSingle(KnownArcs(nodes, edges), ranks, rank)
    ensures rank.Keys == ViewKeys(nodes) <==>
      !exists keys :: Trap(Inserted(NodeKeySeq(nodes)), KnownArcs(nodes, edges), keys)
    ensures Acyclic(KnownArcs(nodes, edges)) ==>
      && rank.Keys == ViewKeys(nodes) && Forward(KnownArcs(nodes, edges), rank)
      && forall k :: k in rank ==> IsDepth(KnownArcs(nodes, edges), k, rank[k])
  {
    hide LaidOut, FitColumn, Trap, Acyclic, Waits, ColumnsAre, Forward, IsDepth, InOrder, DistinctSeq;
    hide KnownArcs, CutsAreSingle;
    var order := Inserted(NodeKeySeq(nodes));
    ghost var arcs := KnownArcs(nodes, edges);
    var byKey := ByKey(nodes);
    var incoming := IncomingOf(nodes, edges);
    var remaining := order;
    ranks, rank := [], map[];
    OrderHolds(nodes, edges);
    while remaining != []
      invariant LaidOut(order, arcs, ranks, rank, remaining)
      invariant FromNodes(nodes, ranks)
      decreases |remaining|
    {
      RemainingWell(order, arcs, ranks, rank, remaining);
      ghost var ready;
      var column, rest;
      ready, column, rest := NextColumn(nodes, edges, order, byKey, incoming, remaining);
      if column == [] {
        StuckIsTrap(order, arcs, remaining);
        break;
      }
      LaidOutNext(order, arcs, ranks, rank, remaining, ready, column, rest);
      rank := Placed(rank, ready, |ranks|);
      ranks, remaining := ranks + [column], rest;
    }
    LayoutIsRight(order, arcs, ranks, rank, remaining);
  }

  /** One node with an empty key and an edge to itself is enough for a trap. */
  lemma EmptyKeyCanBeTrapped()
    ensures var nodes, edges := [NodeView("", "")], [EdgeView("", "")];
      Trap(Inserted(NodeKeySeq(nodes)), KnownArcs(nodes, edges), {""})
  {
    var nodes, edges := [NodeView("", "")], [EdgeView("", "")];
    var keys := NodeKeySeq(nodes);
    assert keys == [""] && keys[..0] == [] && Inserted(keys) == [""];
    assert nodes[0] in nodes && edges[0] in edges;
    assert ("", "") in KnownArcs(nodes, edges);
    assert Waits(KnownArcs(nodes, edges), {""}, "");
  }
}
