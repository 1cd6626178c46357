/** How the scheduling loops, which settle nodes one at a time, add up to one simultaneous ruling. */
module Rulings {
  import opened Collections
  import opened Graphs
  import opened Plans
  import opened Protocol
  import opened Invariants
  import opened Histories

  function ReadyKeys(plan: Plan, v: View, rows: Rows): set<Key> {
    set k | k in NodeKeys(plan) && !RuleFor(plan, v, rows, k).NotReady?
  }

  function RunnableKeys(plan: Plan, v: View, rows: Rows): set<Key> {
    set k | k in NodeKeys(plan) && !RuleFor(plan, v, rows, k).NotReady? && !RuleFor(plan, v, rows, k).SkipIt?
  }

  function GoKeys(plan: Plan, v: View, rows: Rows): set<Key> {
    set k | k in NodeKeys(plan) && RuleFor(plan, v, rows, k).Go?
  }

  function GateKeys(plan: Plan, v: View, rows: Rows): set<Key> {
    set k | k in NodeKeys(plan) && RuleFor(plan, v, rows, k).Gate?
  }

  lemma {:induction false} BatchIsAmong(plan: Plan, v: View, rows: Rows, nodes: seq<Node>)
    requires forall n :: n in nodes ==> n in plan.nodes
    ensures BatchOf(plan, v, rows, nodes) == Among(KeysOf(nodes), GoKeys(plan, v, rows))
  {
    if nodes != [] {
      assert KeysOf(nodes)[1..] == KeysOf(nodes[1..]);
      assert nodes[0] in plan.nodes && nodes[0].key in NodeKeys(plan);
      BatchIsAmong(plan, v, rows, nodes[1..]);
    }
  }

  // ---- rulings applied to some keys only -----------------------------------------------

  function RowsRuled(plan: Plan, v: View, rows: Rows, done: set<Key>): Rows {
    map k | k in rows :: if k in done then RuledRow(RuleFor(plan, v, rows, k), rows[k]) else rows[k]
  }

  function SkipsRuled(plan: Plan, v: View, rows: Rows, done: set<Key>): map<Key, string> {
    map k | k in rows && k in done && (RuleFor(plan, v, rows, k).SkipIt? || RuleFor(plan, v, rows, k).Refuse?)
      :: RuleFor(plan, v, rows, k).reason
  }

  lemma RuleOneMore(plan: Plan, v: View, rows: Rows, done: set<Key>, key: Key)
    requires key in rows
    ensures key in RowsRuled(plan, v, rows, done) && RowsRuled(plan, v, rows, done)[key].approval == rows[key].approval
    ensures RowsRuled(plan, v, rows, done + {key})
         == RowsRuled(plan, v, rows, done)
            [key := RuledRow(RuleFor(plan, v, rows, key), RowsRuled(plan, v, rows, done)[key])]
    ensures var rule := RuleFor(plan, v, rows, key);
      SkipsRuled(plan, v, rows, done + {key})
      == (if rule.SkipIt? || rule.Refuse? then SkipsRuled(plan, v, rows, done)[key := rule.reason]
          else SkipsRuled(plan, v, rows, done))
  {
    hide RuleFor;
  }

  lemma NoneRuled(plan: Plan, v: View, rows: Rows)
    ensures RowsRuled(plan, v, rows, {}) == rows && SkipsRuled(plan, v, rows, {}) == map[]
  {
    hide RuleFor;
  }

  /** While only ready nodes have been skipped, a ready node's verdict is still the one it had at the
      top of the loop. */
  lemma VerdictStands(plan: Plan, v: View, rows: Rows, done: set<Key>, node: Node)
    requires node.key in NodeKeys(plan) && DependenciesResolved(plan, v, node.key)
    ensures SkipReason(plan, View(v.results, v.skips + SkipsRuled(plan, v, rows, done)), node)
        == SkipReason(plan, v, node)
    ensures UpstreamFor(plan, View(v.results, v.skips + SkipsRuled(plan, v, rows, done)), node.key)
         == UpstreamFor(plan, v, node.key)
    ensures VerdictThrows(plan, View(v.results, v.skips + SkipsRuled(plan, v, rows, done)), node.key)
         == VerdictThrows(plan, v, node.key)
  {
    hide VerdictThrows;
    var w := View(v.results, v.skips + SkipsRuled(plan, v, rows, done));
    assert forall k :: Resolved(v, k) ==> SameAt(v, w, k);
    SettlingKeepsSources(plan, v, w, node.key);
    VerdictsAreLocal(plan, v, w, node);
    ThrowsAreLocal(plan, v, w, node.key);
  }

  // ---- recording one node after another ---------------------------------------------------

  /** What the recording loop updates. */
  datatype Ledger = Ledger(run: Run, rows: Rows, cost: Usd, left: Option<Usd>)

  /** One node's entry. */
  function Enter(so: Ledger, key: Key, outs: seq<Output>, upstream: seq<Upstream>): (after: Ledger)
    requires key in so.rows && outs != []
    ensures after.rows.Keys == so.rows.Keys
  {
    Ledger(so.run.(outputs := so.run.outputs[key := Last(outs)],
                   attempts := so.run.attempts[key := UsedAttempts(so.run, key) + |outs|],
                   totalCost := so.run.totalCost + CostOf(outs)),
           so.rows[key := RecordedRow(so.rows[key], outs, upstream)],
           so.cost + CostOf(outs),
           Remaining(so.left, CostOf(outs)))
  }

  predicate Recordable(start: Ledger, batch: seq<Key>, inputs: map<Key, AgentInput>, results: Results) {
    forall k :: k in batch ==> k in start.rows && k in inputs && k in results && results[k] != []
  }

  function LedgerAfter(start: Ledger, batch: seq<Key>, inputs: map<Key, AgentInput>, results: Results): (after: Ledger)
    requires Recordable(start, batch, inputs, results)
    ensures after.rows.Keys == start.rows.Keys
  {
    if batch == [] then start
    else
      var k := batch[|batch| - 1];
      Enter(LedgerAfter(start, batch[..|batch| - 1], inputs, results), k, results[k], inputs[k].upstream)
  }

  lemma LedgerNext(start: Ledger, batch: seq<Key>, key: Key, inputs: map<Key, AgentInput>, results: Results)
    requires Recordable(start, batch + [key], inputs, results)
    ensures Recordable(start, batch, inputs, results) && key in start.rows && key in inputs
        && key in results && results[key] != []
    ensures LedgerAfter(start, batch + [key], inputs, results)
         == Enter(LedgerAfter(start, batch, inputs, results), key, results[key], inputs[key].upstream)
  {
    hide Enter;
    assert (batch + [key])[..|batch|] == batch;
    assert (batch + [key])[|batch|] == key;
  }

  function RowsRecorded(rows: Rows, inputs: map<Key, AgentInput>, results: Results, done: set<Key>): Rows {
    map k | k in rows ::
      if k in done && k in inputs && k in results && results[k] != [] then
        RecordedRow(rows[k], results[k], inputs[k].upstream)
      else rows[k]
  }

  function OutputsOf(results: Results, done: set<Key>): map<Key, Output> {
    map k | k in results && k in done && results[k] != [] :: Last(results[k])
  }

  function AttemptsOf(run: Run, results: Results, done: set<Key>): map<Key, nat> {
    map k | k in results && k in done && results[k] != [] :: UsedAttempts(run, k) + |results[k]|
  }

  lemma RecordOneMore(rows: Rows, inputs: map<Key, AgentInput>, results: Results, done: set<Key>, key: Key)
    requires key in rows && key in inputs && key in results && results[key] != [] && key !in done
    ensures RowsRecorded(rows, inputs, results, done)[key] == rows[key]
    ensures RowsRecorded(rows, inputs, results, done + {key})
         == RowsRecorded(rows, inputs, results, done)[key := RecordedRow(rows[key], results[key], inputs[key].upstream)]
  {
    hide RecordedRow;
  }

  lemma OutputsOneMore(run: Run, results: Results, done: set<Key>, key: Key)
    requires key in results && results[key] != [] && key !in done
    ensures run.outputs + OutputsOf(results, done + {key})
         == (run.outputs + OutputsOf(results, done))[key := Last(results[key])]
    ensures run.attempts + AttemptsOf(run, results, done + {key})
         == (run.attempts + AttemptsOf(run, results, done))[key := UsedAttempts(run, key) + |results[key]|]
    ensures key !in AttemptsOf(run, results, done)
  {
    hide UsedAttempts, Last;
    assert OutputsOf(results, done + {key}) == OutputsOf(results, done)[key := Last(results[key])];
    assert AttemptsOf(run, results, done + {key})
        == AttemptsOf(run, results, done)[key := UsedAttempts(run, key) + |results[key]|];
  }

  /** What the loop has done after some of the batch, all at once. */
  function Whole(
    start: Ledger, batch: seq<Key>, done: set<Key>, inputs: map<Key, AgentInput>, results: Results): Ledger {
    var spent := BatchCost(batch, results);
    Ledger(start.run.(outputs := start.run.outputs + OutputsOf(results, done),
                      attempts := start.run.attempts + AttemptsOf(start.run, results, done),
                      totalCost := start.run.totalCost + spent),
           RowsRecorded(start.rows, inputs, results, done),
           start.cost + spent,
           Remaining(start.left, spent))
  }

  /** One more node entered into the whole. */
  lemma WholeNext(
    start: Ledger, rest: seq<Key>, done: set<Key>, key: Key, inputs: map<Key, AgentInput>, results: Results)
    requires key in start.rows && key in inputs && key in results && results[key] != [] && key !in done
    ensures key in Whole(start, rest, done, inputs, results).rows
    ensures Enter(Whole(start, rest, done, inputs, results), key, results[key], inputs[key].upstream)
         == Whole(start, rest + [key], done + {key}, inputs, results)
  {
    hide RecordedRow, CostOf, Remaining, RowsRecorded, OutputsOf, AttemptsOf, BatchCost, UsedAttempts, Last;
    WholeHasKey(start, rest, done, key, inputs, results);
    RecordOneMore(start.rows, inputs, results, done, key);
    OutputsOneMore(start.run, results, done, key);
    BatchCostLast(rest, key, results);
    RemainingAfter(start.left, BatchCost(rest, results), CostOf(results[key]));
    AttemptsSoFar(start.run, Whole(start, rest, done, inputs, results).run, results, done, key);
  }

  lemma WholeHasKey(
    start: Ledger, rest: seq<Key>, done: set<Key>, key: Key, inputs: map<Key, AgentInput>, results: Results)
    requires key in start.rows
    ensures key in Whole(start, rest, done, inputs, results).rows
  {
    hide RecordedRow;
  }

  lemma AttemptsSoFar(run: Run, run': Run, results: Results, done: set<Key>, key: Key)
    requires key !in AttemptsOf(run, results, done)
    requires run'.attempts == run.attempts + AttemptsOf(run, results, done)
    ensures UsedAttempts(run', key) == UsedAttempts(run, key)
  {
    hide AttemptsOf;
  }

  lemma KeySetNext(rest: seq<Key>, key: Key)
    ensures KeySet(rest + [key]) == KeySet(rest) + {key}
  {
  }

  lemma {:induction false} LedgerIsWhole(start: Ledger, batch: seq<Key>, inputs: map<Key, AgentInput>, results: Results)
    requires Recordable(start, batch, inputs, results) && DistinctSeq(batch)
    ensures LedgerAfter(start, batch, inputs, results) == Whole(start, batch, KeySet(batch), inputs, results)
  {
    hide Whole, LedgerAfter, Enter;
    if batch == [] {
      NothingRecorded(start, inputs, results);
    } else {
      var n := |batch| - 1;
      var rest, key := batch[..n], batch[n];
      assert key !in KeySet(rest) && batch == rest + [key];
      KeySetNext(rest, key);
      LedgerIsWhole(start, rest, inputs, results);
      LedgerNext(start, rest, key, inputs, results);
      WholeNext(start, rest, KeySet(rest), key, inputs, results);
    }
  }

  lemma NothingRecorded(start: Ledger, inputs: map<Key, AgentInput>, results: Results)
    ensures Whole(start, [], KeySet([]), inputs, results) == start == LedgerAfter(start, [], inputs, results)
    ensures !FailedAmong([], results)
  {
    hide RecordedRow, Last;
    assert KeySet([]) == {};
    assert OutputsOf(results, {}) == map[] && AttemptsOf(start.run, results, {}) == map[];
    assert RowsRecorded(start.rows, inputs, results, {}) == start.rows;
  }

  lemma BatchCostLast(batch: seq<Key>, key: Key, results: Results)
    requires key in results
    ensures BatchCost(batch + [key], results) == BatchCost(batch, results) + CostOf(results[key])
  {
    hide CostOf;
    assert (batch + [key])[..|batch|] == batch;
  }

  lemma WholeOutputs(results: Results, done: set<Key>)
    requires results.Keys == done
    ensures OutputsOf(results, done) == map k | k in results && results[k] != [] :: Last(results[k])
  {
    hide Last;
  }

  lemma WholeAttempts(run: Run, results: Results, done: set<Key>)
    requires results.Keys == done
    ensures AttemptsOf(run, results, done) == map k | k in results
        && results[k] != [] :: UsedAttempts(run, k) + |results[k]|
  {
    hide UsedAttempts;
  }

  lemma WholeRun(run: Run, batch: seq<Key>, results: Results, done: set<Key>)
    requires results.Keys == done
    ensures run.(outputs := run.outputs + OutputsOf(results, done),
                 attempts := run.attempts + AttemptsOf(run, results, done),
                 totalCost := run.totalCost + BatchCost(batch, results)) == RecordedRun(run, batch, results)
  {
    hide BatchCost, OutputsOf, AttemptsOf, UsedAttempts, Last;
    WholeOutputs(results, done);
    WholeAttempts(run, results, done);
  }

  lemma WholeRows(rows: Rows, inputs: map<Key, AgentInput>, results: Results, done: set<Key>)
    requires results.Keys == done
    ensures RowsRecorded(rows, inputs, results, done) == RecordedRows(rows, inputs, results)
  {
    hide RecordedRow;
  }

  /** Recording the nodes of a batch one after another is the machine's recording step. */
  lemma LedgerIsRecording(start: Ledger, batch: seq<Key>, inputs: map<Key, AgentInput>, results: Results)
    requires forall k :: k in batch ==> k in start.rows
    requires results.Keys == inputs.Keys == KeySet(batch) && forall k :: k in results ==> results[k] != []
    requires DistinctSeq(batch)
    ensures var l := LedgerAfter(start, batch, inputs, results);
      && l.run == RecordedRun(start.run, batch, results)
      && l.rows == RecordedRows(start.rows, inputs, results)
      && l.cost == start.cost + BatchCost(batch, results)
      && l.left == Remaining(start.left, BatchCost(batch, results))
  {
    hide LedgerAfter, RecordedRun, RecordedRows, RowsRecorded, OutputsOf, AttemptsOf, BatchCost, Remaining;
    LedgerIsWhole(start, batch, inputs, results);
    WholeRun(start.run, batch, results, KeySet(batch));
    WholeRows(start.rows, inputs, results, KeySet(batch));
  }

  predicate FailedAmong(batch: seq<Key>, results: Results) {
    batch != [] &&
    (FailedAmong(batch[..|batch| - 1], results)
     || (var k := batch[|batch| - 1]; k in results && results[k] != [] && Last(results[k]).status != Succeeded))
  }

  lemma FailedNext(batch: seq<Key>, key: Key, results: Results)
    requires key in results && results[key] != []
    ensures FailedAmong(batch + [key], results)
        == (FailedAmong(batch, results) || Last(results[key]).status != Succeeded)
  {
    assert (batch + [key])[..|batch|] == batch;
  }

  lemma {:induction false} FailedIsAny(batch: seq<Key>, results: Results)
    ensures FailedAmong(batch, results) <==>
      exists k :: k in batch && k in results && results[k] != [] && Last(results[k]).status != Succeeded
  {
    hide Last;
    if batch != [] {
      FailedIsAny(batch[..|batch| - 1], results);
      assert batch == batch[..|batch| - 1] + [batch[|batch| - 1]];
    }
  }

  lemma InputsOneMore(plan: Plan, run: Run, batch: seq<Key>, key: Key)
    ensures InputsFor(plan, run, batch + [key])
         == InputsFor(plan, run, batch)
            [key := AgentInput(UpstreamFor(plan, RunView(run), key), PendingFor(run.pending, key))]
  {
    hide UpstreamFor, RunView;
  }

  lemma NoneAmong(chosen: set<Key>)
    ensures Among([], chosen) == [] && KeySet([]) == {}
  {
  }
}
