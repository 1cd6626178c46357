/** Money: the workflow's recorded cost is the sum of its attempt logs, and a run that honours the
    per-attempt budget check overspends by one batch at most. */
module Budgets {
  import opened Collections
  import opened Graphs
  import opened Plans
  import opened Protocol
  import opened Invariants
  import opened Histories
  import opened Soundness
  import opened Safety

  function InOrder(nodes: seq<Node>, keys: set<Key>): seq<Key> {
    if nodes == [] then []
    else (if nodes[0].key in keys then [nodes[0].key] else []) + InOrder(nodes[1..], keys)
  }

  lemma {:induction false} BatchIsInOrder(plan: Plan, v: View, rows: Rows, nodes: seq<Node>, keys: set<Key>)
    requires forall n :: n in nodes ==> (n.key in keys <==> RuleFor(plan, v, rows, n.key).Go?)
    ensures BatchOf(plan, v, rows, nodes) == InOrder(nodes, keys)
  {
    if nodes != [] {
      assert nodes[0] in nodes;
      BatchIsInOrder(plan, v, rows, nodes[1..], keys);
    }
  }

  /** A dispatched batch lists its nodes once each, in plan order. */
  ghost predicate BatchOrdered(plan: Plan, s: Sys) {
    s.mode.Active? && s.mode.phase.Dispatched? ==>
      s.mode.phase.batch == InOrder(plan.nodes, s.mode.phase.inputs.Keys)
  }

  lemma BatchStaysOrdered(plan: Plan, cfg: Config, s: Sys, e: Event)
    requires BatchOrdered(plan, s)
    ensures BatchOrdered(plan, Step(plan, cfg, s, e))
  {
    hide RuleFor, RuledRows, NewSkips, RecordedRows, RecordedRun, BatchCost, Affected, InOrder;
    if Enabled(plan, cfg, s, e) && e.Decide? {
      var v := RunView(s.mode.run);
      var batch := BatchOf(plan, v, s.store.rows, plan.nodes);
      var keys := KeySet(batch);
      BatchIsInOrder(plan, v, s.store.rows, plan.nodes, keys);
    }
  }

  // ---- sums --------------------------------------------------------------------------

  function LogCost(log: seq<LogEntry>): Usd {
    if log == [] then 0.0 else LogCost(log[..|log| - 1]) + log[|log| - 1].cost
  }

  function RowCost(rows: Rows, key: Key): Usd {
    if key in rows then LogCost(rows[key].log) else 0.0
  }

  /** What the attempt logs of all nodes add up to. */
  function LoggedCost(nodes: seq<Node>, rows: Rows): Usd {
    if nodes == [] then 0.0 else RowCost(rows, nodes[0].key) + LoggedCost(nodes[1..], rows)
  }

  lemma LogCostNext(log: seq<LogEntry>, entry: LogEntry)
    ensures LogCost(log + [entry]) == LogCost(log) + entry.cost
  {
    assert (log + [entry])[..|log|] == log;
  }

  lemma RecordLogs(row: Row, out: Output, upstream: seq<Upstream>)
    ensures RecordOne(row, out, upstream).log == row.log + [LogEntry(out.attempt, out.status, out.cost)]
  {
  }

  lemma {:induction false} RecordingCost(row: Row, outs: seq<Output>, upstream: seq<Upstream>)
    ensures LogCost(RecordAll(row, outs, upstream).log) == LogCost(row.log) + CostOf(outs)
  {
    hide LogCost, RecordOne;
    if outs != [] {
      var n := |outs| - 1;
      var row' := RecordAll(row, outs[..n], upstream);
      RecordingCost(row, outs[..n], upstream);
      RecordLogs(row', outs[n], upstream);
      LogCostNext(row'.log, LogEntry(outs[n].attempt, outs[n].status, outs[n].cost));
    }
  }

  function ResultCost(results: Results, key: Key): Usd {
    if key in results then CostOf(results[key]) else 0.0
  }

  lemma {:induction false} BatchCostHead(key: Key, rest: seq<Key>, results: Results)
    ensures BatchCost([key] + rest, results) == ResultCost(results, key) + BatchCost(rest, results)
  {
    var batch := [key] + rest;
    if rest == [] {
      assert batch[..|batch| - 1] == [];
    } else {
      assert batch[..|batch| - 1] == [key] + rest[..|rest| - 1];
      BatchCostHead(key, rest[..|rest| - 1], results);
    }
  }

  lemma RowGains(rows: Rows, inputs: map<Key, AgentInput>, results: Results, key: Key)
    requires results.Keys == inputs.Keys <= rows.Keys && forall k :: k in results ==> results[k] != []
    ensures RowCost(RecordedRows(rows, inputs, results), key) == RowCost(rows, key) + ResultCost(results, key)
  {
    if key in inputs {
      RecordingCost(rows[key], results[key], inputs[key].upstream);
    }
  }

  lemma {:induction false} LogsGainBatch(nodes: seq<Node>, rows: Rows, inputs: map<Key, AgentInput>, results: Results)
    requires results.Keys == inputs.Keys <= rows.Keys && forall k :: k in results ==> results[k] != []
    ensures LoggedCost(nodes, RecordedRows(rows, inputs, results))
         == LoggedCost(nodes, rows) + BatchCost(InOrder(nodes, inputs.Keys), results)
  {
    hide RecordedRows;
    if nodes != [] {
      var key, rest := nodes[0].key, InOrder(nodes[1..], inputs.Keys);
      LogsGainBatch(nodes[1..], rows, inputs, results);
      RowGains(rows, inputs, results, key);
      if key in inputs {
        BatchCostHead(key, rest, results);
      } else {
        assert InOrder(nodes, inputs.Keys) == rest;
      }
    }
  }

  lemma {:induction false} SameLogsSameCost(nodes: seq<Node>, rows: Rows, rows': Rows)
    requires rows'.Keys == rows.Keys && forall k :: k in rows ==> rows'[k].log == rows[k].log
    ensures LoggedCost(nodes, rows') == LoggedCost(nodes, rows)
  {
    if nodes != [] {
      SameLogsSameCost(nodes[1..], rows, rows');
    }
  }

  ghost predicate Balanced(plan: Plan, store: Store) {
    store.cost == LoggedCost(plan.nodes, store.rows)
  }

  lemma OnlyRecordingLogs(plan: Plan, cfg: Config, s: Sys, e: Event)
    requires SameRecord(s.store.rows, s.durable.rows) && s.store.cost == s.durable.cost && !e.Record?
    ensures var s' := Step(plan, cfg, s, e);
      && s'.store.cost == s.store.cost && s'.store.rows.Keys == s.store.rows.Keys
      && forall k :: k in s.store.rows ==> s'.store.rows[k].log == s.store.rows[k].log
  {
    if Enabled(plan, cfg, s, e) && !e.Approve? && !e.Reject? {
      hide Effect, Enabled;
      EffectKeepsRecord(plan, cfg, s, e);
    }
  }

  lemma RecordBalances(plan: Plan, cfg: Config, s: Sys, results: Results)
    requires Sound(plan, cfg, s) && BatchOrdered(plan, s) && Enabled(plan, cfg, s, Record(results))
    requires Balanced(plan, s.store)
    ensures Balanced(plan, RecordStep(s, results).store)
  {
    hide Sound, RecordingFits;
    RecordingFacts(plan, cfg, s, results);
    RecordingNonEmpty(plan, s.store.rows, s.mode.phase.inputs, results);
    LogsGainBatch(plan.nodes, s.store.rows, s.mode.phase.inputs, results);
  }

  lemma RecordingNonEmpty(plan: Plan, rows: Rows, inputs: map<Key, AgentInput>, results: Results)
    requires RecordingFits(plan, rows, inputs, results)
    ensures results.Keys == inputs.Keys <= rows.Keys && forall k :: k in results ==> results[k] != []
  {
  }

  /** Conservation: at every point of every history the workflow's total is the sum of the costs in
      its nodes' attempt logs. */
  lemma {:induction false} CostIsLogged(plan: Plan, cfg: Config, events: seq<Event>)
    ensures Balanced(plan, History(plan, cfg, events).store) && BatchOrdered(plan, History(plan, cfg, events))
  {
    hide Sound, Step;
    if events == [] {
      NothingLogged(plan.nodes, Created(plan).store.rows);
    } else {
      var n := |events| - 1;
      var s, e := History(plan, cfg, events[..n]), events[n];
      CostIsLogged(plan, cfg, events[..n]);
      HistorySound(plan, cfg, events[..n]);
      BatchStaysOrdered(plan, cfg, s, e);
      BalanceStep(plan, cfg, s, e);
    }
  }

  lemma BalanceStep(plan: Plan, cfg: Config, s: Sys, e: Event)
    requires Sound(plan, cfg, s) && BatchOrdered(plan, s) && Balanced(plan, s.store)
    ensures Balanced(plan, Step(plan, cfg, s, e).store)
  {
    hide Enabled, Effect, Sound;
    SoundRecord(plan, cfg, s);
    if !Enabled(plan, cfg, s, e) {
    } else if e.Record? {
      RecordBalances(plan, cfg, s, e.results);
      RecordEffect(plan, cfg, s, e);
    } else {
      OnlyRecordingLogs(plan, cfg, s, e);
      SameLogsSameCost(plan.nodes, s.store.rows, Step(plan, cfg, s, e).store.rows);
    }
  }

  lemma RecordEffect(plan: Plan, cfg: Config, s: Sys, e: Event)
    requires e.Record? && Enabled(plan, cfg, s, e)
    ensures Step(plan, cfg, s, e) == RecordStep(s, e.results)
  {
  }

  lemma {:induction false} NothingLogged(nodes: seq<Node>, rows: Rows)
    requires forall k :: k in rows ==> rows[k].log == []
    ensures LoggedCost(nodes, rows) == 0.0
  {
    if nodes != [] {
      NothingLogged(nodes[1..], rows);
    }
  }

  // ---- overspend -----------------------------------------------------------------------

  function Tries(plan: Plan, cfg: Config, key: Key): nat {
    if key in NodeKeys(plan) then cfg.tries(NodeOf(plan, key).agentId) else 0
  }

  function TotalTries(plan: Plan, cfg: Config, batch: seq<Key>): nat {
    if batch == [] then 0
    else TotalTries(plan, cfg, batch[..|batch| - 1]) + Tries(plan, cfg, batch[|batch| - 1])
  }

  /** What the executor's budget check gives when estimates are not exceeded: no attempt of a batch
      costs more than the budget that remained when the batch was dispatched. */
  ghost predicate Honest(s: Sys, e: Event) {
    e.Record? && s.mode.Active? && s.mode.phase.Dispatched? && s.mode.remaining.Some? ==>
      forall k, i :: k in e.results && 0 <= i < |e.results[k]| ==> e.results[k][i].cost <= s.mode.remaining.value
  }

  lemma {:induction false} AttemptsCost(outs: seq<Output>, most: Usd)
    requires forall i :: 0 <= i < |outs| ==> outs[i].cost <= most
    ensures CostOf(outs) <= |outs| as real * most
  {
    if outs != [] {
      AttemptsCost(outs[..|outs| - 1], most);
    }
  }

  lemma ResultCostBound(results: Results, key: Key, tries: nat, most: Usd)
    requires key in results ==> |results[key]| <= tries
    requires key in results ==> forall i :: 0 <= i < |results[key]| ==> results[key][i].cost <= most
    ensures ResultCost(results, key) <= tries as real * most
  {
    hide CostOf;
    Scale(0.0, tries as real, most);
    if key in results {
      AttemptsCost(results[key], most);
      Scale(|results[key]| as real, tries as real, most);
    }
  }

  lemma {:induction false} BatchCostBound(plan: Plan, cfg: Config, batch: seq<Key>, results: Results, most: Usd)
    requires forall k :: k in batch && k in results ==> |results[k]| <= Tries(plan, cfg, k)
    requires forall k, i :: k in results && 0 <= i < |results[k]| ==> results[k][i].cost <= most
    ensures BatchCost(batch, results) <= TotalTries(plan, cfg, batch) as real * most
  {
    hide Tries, CostOf;
    if batch != [] {
      var n := |batch| - 1;
      var k := batch[n];
      BatchCostBound(plan, cfg, batch[..n], results, most);
      ResultCostBound(results, k, Tries(plan, cfg, k), most);
    }
  }

  lemma Scale(a: real, b: real, x: Usd)
    requires a <= b
    ensures a * x <= b * x
  {
  }

  lemma Distribute(a: real, b: real, x: real)
    ensures (a + b) * x == a * x + b * x
  {
  }

  lemma AttemptsWithinTries(plan: Plan, cfg: Config, s: Sys, results: Results, key: Key)
    requires Sound(plan, cfg, s) && Enabled(plan, cfg, s, Record(results)) && key in results
    ensures |results[key]| <= Tries(plan, cfg, key)
  {
    hide Sound;
    DispatchFacts(plan, cfg, s);
    assert DispatchedAt(plan, s.store.rows, key, s.mode.phase.inputs[key]);
  }

  /** A batch dispatched with R of a budget B remaining ends at B + (K - 1) R at most, where K is the
      number of attempts its nodes may make; and with nothing remaining it spends nothing. */
  lemma OverspendIsOneBatch(plan: Plan, cfg: Config, s: Sys, results: Results)
    requires Sound(plan, cfg, s) && Enabled(plan, cfg, s, Record(results)) && Honest(s, Record(results))
    requires cfg.budget.Some?
    ensures var left := Less(cfg.budget.value, s.store.cost);
      var tries := TotalTries(plan, cfg, s.mode.phase.batch);
      var after := RecordStep(s, results).store.cost;
      && s.mode.remaining == Some(left)
      && after <= s.store.cost + tries as real * left
      && (left > 0.0 ==> after <= cfg.budget.value + (tries as real - 1.0) * left)
      && (left == 0.0 ==> after == s.store.cost)
  {
    hide Sound, StoreKept, RecordedRows, RecordedRun, ResultsAllowed, TotalTries, BatchCost;
    SoundFacts(plan, cfg, s);
    var left := Less(cfg.budget.value, s.store.cost);
    var batch := s.mode.phase.batch;
    BatchWithinTries(plan, cfg, s, results, left);
    Distribute(TotalTries(plan, cfg, batch) as real, -1.0, left);
  }

  lemma BatchWithinTries(plan: Plan, cfg: Config, s: Sys, results: Results, most: Usd)
    requires Sound(plan, cfg, s) && Enabled(plan, cfg, s, Record(results))
    requires forall k, i :: k in results && 0 <= i < |results[k]| ==> results[k][i].cost <= most
    ensures BatchCost(s.mode.phase.batch, results) <= TotalTries(plan, cfg, s.mode.phase.batch) as real * most
  {
    hide Sound, Tries;
    forall k | k in results
      ensures |results[k]| <= Tries(plan, cfg, k)
    {
      AttemptsWithinTries(plan, cfg, s, results, k);
    }
    BatchCostBound(plan, cfg, s.mode.phase.batch, results, most);
  }

  lemma {:induction false} FewerTries(plan: Plan, cfg: Config, nodes: seq<Node>, keys: set<Key>)
    ensures TotalTries(plan, cfg, InOrder(nodes, keys)) <= TotalTries(plan, cfg, KeysOf(nodes))
  {
    hide Tries;
    if nodes != [] {
      FewerTries(plan, cfg, nodes[1..], keys);
      var rest := InOrder(nodes[1..], keys);
      assert KeysOf(nodes) == [nodes[0].key] + KeysOf(nodes[1..]);
      TriesHead(plan, cfg, nodes[0].key, KeysOf(nodes[1..]));
      if nodes[0].key in keys {
        TriesHead(plan, cfg, nodes[0].key, rest);
      } else {
        assert InOrder(nodes, keys) == rest;
      }
    }
  }

  lemma {:induction false} TriesHead(plan: Plan, cfg: Config, key: Key, rest: seq<Key>)
    ensures TotalTries(plan, cfg, [key] + rest) == Tries(plan, cfg, key) + TotalTries(plan, cfg, rest)
  {
    hide Tries;
    var batch := [key] + rest;
    if rest == [] {
      assert batch[..|batch| - 1] == [];
    } else {
      assert batch[..|batch| - 1] == [key] + rest[..|rest| - 1];
      TriesHead(plan, cfg, key, rest[..|rest| - 1]);
    }
  }

  ghost predicate HonestHistory(plan: Plan, cfg: Config, events: seq<Event>) {
    forall i :: 0 <= i < |events| ==> Honest(History(plan, cfg, events[..i]), events[i])
  }

  /** Over a whole history, crashes and resumes included, the recorded cost never exceeds the budget
      times the number of attempts the plan's nodes may make. */
  lemma {:induction false} RecordedCostBounded(plan: Plan, cfg: Config, events: seq<Event>)
    requires HonestHistory(plan, cfg, events) && cfg.budget.Some?
    ensures History(plan, cfg, events).store.cost
         <= TotalTries(plan, cfg, KeysOf(plan.nodes)) as real * cfg.budget.value
  {
    hide Sound, Step;
    if events != [] {
      var n := |events| - 1;
      var s, e := History(plan, cfg, events[..n]), events[n];
      forall i | 0 <= i < n
        ensures Honest(History(plan, cfg, events[..n][..i]), events[..n][i])
      {
        assert events[..n][..i] == events[..i];
      }
      RecordedCostBounded(plan, cfg, events[..n]);
      HistorySound(plan, cfg, events[..n]);
      CostIsLogged(plan, cfg, events[..n]);
      BoundStep(plan, cfg, s, e);
    }
  }

  /** Once the recorded total has reached the budget it never grows again, in whatever run. */
  lemma {:induction false} SpentBudgetStopsSpending(plan: Plan, cfg: Config, events: seq<Event>, n: nat)
    requires HonestHistory(plan, cfg, events) && cfg.budget.Some? && n <= |events|
    requires History(plan, cfg, events[..n]).store.cost >= cfg.budget.value
    ensures History(plan, cfg, events).store.cost == History(plan, cfg, events[..n]).store.cost
    decreases |events| - n
  {
    hide Sound, Step, Honest;
    if n == |events| {
      assert events[..n] == events;
    } else {
      HistorySound(plan, cfg, events[..n]);
      SplitHistory(plan, cfg, events, n);
      NothingLeftToSpend(plan, cfg, History(plan, cfg, events[..n]), events[n]);
      SpentBudgetStopsSpending(plan, cfg, events, n + 1);
    }
  }

  lemma NothingLeftToSpend(plan: Plan, cfg: Config, s: Sys, e: Event)
    requires Sound(plan, cfg, s) && Honest(s, e) && cfg.budget.Some? && s.store.cost >= cfg.budget.value
    ensures Step(plan, cfg, s, e).store.cost == s.store.cost
  {
    hide Effect, Sound, ResultsAllowed, TotalTries, RecordStep;
    SoundRecord(plan, cfg, s);
    if !Enabled(plan, cfg, s, e) {
    } else if e.Record? {
      RecordEffect(plan, cfg, s, e);
      OverspendIsOneBatch(plan, cfg, s, e.results);
    } else {
      OnlyRecordingLogs(plan, cfg, s, e);
    }
  }

  lemma Confined(budget: Usd, cost: Usd, tries: nat, most: nat)
    requires tries <= most && cost <= most as real * budget
    ensures cost + tries as real * Less(budget, cost) <= most as real * budget
  {
    var left := Less(budget, cost);
    if left > 0.0 && tries > 0 {
      var spare := most as real - 1.0;
      calc {
        cost + tries as real * left;
      <= { Scale(tries as real, most as real, left); }
        cost + most as real * left;
      == { Distribute(spare, 1.0, left); }
        cost + (spare * left + left);
      <= { Scale(left, budget, spare); }
        cost + (spare * budget + left);
      == { assert cost + left == budget; }
        spare * budget + budget;
      == { Distribute(spare, 1.0, budget); }
        most as real * budget;
      }
    }
  }

  lemma SoundRecord(plan: Plan, cfg: Config, s: Sys)
    requires Sound(plan, cfg, s)
    ensures SameRecord(s.store.rows, s.durable.rows) && s.store.cost == s.durable.cost
  {
    hide Sound;
    SoundFacts(plan, cfg, s);
  }

  lemma BoundStep(plan: Plan, cfg: Config, s: Sys, e: Event)
    requires Sound(plan, cfg, s) && BatchOrdered(plan, s) && Honest(s, e) && cfg.budget.Some?
    requires s.store.cost <= TotalTries(plan, cfg, KeysOf(plan.nodes)) as real * cfg.budget.value
    ensures Step(plan, cfg, s, e).store.cost <= TotalTries(plan, cfg, KeysOf(plan.nodes)) as real * cfg.budget.value
  {
    hide Effect, Sound, ResultsAllowed, TotalTries, RecordStep;
    SoundRecord(plan, cfg, s);
    if !Enabled(plan, cfg, s, e) {
    } else if e.Record? {
      var most := TotalTries(plan, cfg, KeysOf(plan.nodes));
      var tries := TotalTries(plan, cfg, s.mode.phase.batch);
      RecordEffect(plan, cfg, s, e);
      OverspendIsOneBatch(plan, cfg, s, e.results);
      FewerTries(plan, cfg, plan.nodes, s.mode.phase.inputs.Keys);
      Confined(cfg.budget.value, s.store.cost, tries, most);
    } else {
      OnlyRecordingLogs(plan, cfg, s, e);
    }
  }
}
