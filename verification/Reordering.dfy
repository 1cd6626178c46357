/** A resumed run reads its edges back in whatever order the database returns them. Whole histories are the
    same under any orders, up to the order of inputs and the wording of skips. */
module Reordering {
  import opened Collections
  import opened Graphs
  import opened Conditions
  import opened Plans
  import opened Protocol
  import opened Invariants
  import opened Safety
  import opened Persistence
  import opened Evaluation

  // ---- states that differ in order and wording only ---------------------------------------------

  ghost predicate ViewsAlike(v: View, w: View) {
    v.results == w.results && v.skips.Keys == w.skips.Keys
  }

  ghost predicate RowAlike(row: Row, row': Row) {
    && row' == row.(skipReason := row'.skipReason, basis := row'.basis)
    && multiset(row.basis) == multiset(row'.basis)
    && row.skipReason.Some? == row'.skipReason.Some?
    && (row.byHuman ==> row.skipReason == row'.skipReason)
  }

  ghost predicate RowsAlike(rows: Rows, rows': Rows) {
    rows.Keys == rows'.Keys && forall k :: k in rows ==> RowAlike(rows[k], rows'[k])
  }

  ghost predicate StoresAlike(store: Store, store': Store) {
    store' == store.(rows := store'.rows) && RowsAlike(store.rows, store'.rows)
  }

  ghost predicate RunsAlike(run: Run, run': Run) {
    run' == run.(skipped := run'.skipped) && run.skipped.Keys == run'.skipped.Keys
  }

  ghost predicate InputAlike(input: AgentInput, input': AgentInput) {
    input.feedback == input'.feedback && multiset(input.upstream) == multiset(input'.upstream)
  }

  ghost predicate InputsAlike(inputs: map<Key, AgentInput>, inputs': map<Key, AgentInput>) {
    inputs.Keys == inputs'.Keys && forall k :: k in inputs ==> InputAlike(inputs[k], inputs'[k])
  }

  ghost predicate PhasesAlike(phase: Phase, phase': Phase) {
    match phase
    case Dispatched(batch, inputs) =>
      phase'.Dispatched? && phase'.batch == batch && InputsAlike(inputs, phase'.inputs)
    case _ => phase' == phase
  }

  ghost predicate ModesAlike(mode: Mode, mode': Mode) {
    match mode
    case Idle => mode'.Idle?
    case Active(run, remaining, phase) =>
      mode'.Active? && RunsAlike(run, mode'.run) && mode'.remaining == remaining && PhasesAlike(phase, mode'.phase)
  }

  ghost predicate Alike(s: Sys, s': Sys) {
    StoresAlike(s.store, s'.store) && StoresAlike(s.durable, s'.durable) && ModesAlike(s.mode, s'.mode)
  }

  lemma RowsAlikeReflexive(rows: Rows)
    ensures RowsAlike(rows, rows)
  {
  }

  lemma RunsSeeAlike(run: Run, run': Run)
    requires RunsAlike(run, run')
    ensures ViewsAlike(RunView(run), RunView(run'))
  {
  }

  // ---- rulings --------------------------------------------------------------------------------------

  lemma SourcesAlike(plan: Plan, v: View, w: View, key: Key)
    requires ViewsAlike(v, w)
    ensures SourcesAgree(plan, v, w, key)
  {
  }

  ghost predicate RulesAlike(rule: Ruling, rule': Ruling) {
    rule == rule' || (rule.SkipIt? && rule'.SkipIt?)
  }

  lemma RuleReadsKeys(plan: Plan, v: View, w: View, rows: Rows, rows': Rows, key: Key)
    requires ViewsAlike(v, w) && RowsAlike(rows, rows')
    ensures RuleFor(plan, v, rows, key) == RuleFor(plan, w, rows', key)
  {
    hide NodeKeys, SkipReason, DependenciesResolved, UpstreamFor;
    if key in NodeKeys(plan) {
      SourcesAlike(plan, v, w, key);
      VerdictsAreLocal(plan, v, w, NodeOf(plan, key));
    }
  }

  lemma RuleAlike(plan: Plan, other: Plan, v: View, w: View, rows: Rows, rows': Rows, key: Key)
    requires SameUpToEdgeOrder(plan, other) && ViewsAlike(v, w) && RowsAlike(rows, rows')
    ensures RulesAlike(RuleFor(plan, v, rows, key), RuleFor(other, w, rows', key))
  {
    hide RuleFor;
    RuleReadsKeys(plan, v, w, rows, rows', key);
    RulingIsTheSame(plan, other, w, rows', key);
  }

  lemma RuledRowAlike(rule: Ruling, rule': Ruling, row: Row, row': Row)
    requires RulesAlike(rule, rule') && RowAlike(row, row')
    ensures RowAlike(RuledRow(rule, row), RuledRow(rule', row'))
  {
  }

  lemma RulingsAlike(plan: Plan, other: Plan, v: View, w: View, rows: Rows, rows': Rows)
    requires SameUpToEdgeOrder(plan, other) && ViewsAlike(v, w) && RowsAlike(rows, rows')
    ensures RowsAlike(RuledRows(plan, v, rows), RuledRows(other, w, rows'))
    ensures NewSkips(plan, v, rows).Keys == NewSkips(other, w, rows').Keys
    ensures AnyReady(plan, v, rows) == AnyReady(other, w, rows') && AnyGate(plan, v, rows) == AnyGate(other, w, rows')
  {
    hide RuleFor, RowAlike, RuledRow, NodeKeys;
    forall k
      ensures RulesAlike(RuleFor(plan, v, rows, k), RuleFor(other, w, rows', k))
    {
      RuleAlike(plan, other, v, w, rows, rows', k);
    }
    assert NodeKeys(plan) == NodeKeys(other) by {
      SameEdges(plan, other);
    }
    forall k | k in rows
      ensures RowAlike(RuledRows(plan, v, rows)[k], RuledRows(other, w, rows')[k])
    {
      RuledRowAlike(RuleFor(plan, v, rows, k), RuleFor(other, w, rows', k), rows[k], rows'[k]);
    }
  }

  lemma {:induction false} BatchAlike(
    plan: Plan, other: Plan, v: View, w: View, rows: Rows, rows': Rows, nodes: seq<Node>)
    requires SameUpToEdgeOrder(plan, other) && ViewsAlike(v, w) && RowsAlike(rows, rows')
    ensures BatchOf(plan, v, rows, nodes) == BatchOf(other, w, rows', nodes)
  {
    hide RuleFor, ViewsAlike, RowsAlike, SameUpToEdgeOrder;
    if nodes != [] {
      RuleAlike(plan, other, v, w, rows, rows', nodes[0].key);
      BatchAlike(plan, other, v, w, rows, rows', nodes[1..]);
    }
  }

  lemma VerdictThrowsAlike(plan: Plan, other: Plan, v: View, w: View, key: Key)
    requires SameUpToEdgeOrder(plan, other) && ViewsAlike(v, w)
    ensures VerdictThrows(plan, v, key) == VerdictThrows(other, w, key)
    ensures DependenciesResolved(plan, v, key) == DependenciesResolved(other, w, key)
  {
    hide EdgeThrows, ArcsOf, NodeKeys;
    SameEdges(plan, other);
    SourcesAlike(plan, v, w, key);
    ThrowsAreLocal(plan, v, w, key);
  }

  lemma RoundThrowsAlike(plan: Plan, other: Plan, v: View, w: View)
    requires SameUpToEdgeOrder(plan, other) && ViewsAlike(v, w)
    ensures RoundThrows(plan, v) == RoundThrows(other, w)
  {
    hide VerdictThrows, DependenciesResolved, NodeKeys, SameUpToEdgeOrder;
    assert NodeKeys(plan) == NodeKeys(other) by {
      SameEdges(plan, other);
    }
    forall k
      ensures VerdictThrows(plan, v, k) == VerdictThrows(other, w, k)
      ensures DependenciesResolved(plan, v, k) == DependenciesResolved(other, w, k)
      ensures Resolved(v, k) == Resolved(w, k)
    {
      VerdictThrowsAlike(plan, other, v, w, k);
    }
  }

  lemma UpstreamAlike(plan: Plan, other: Plan, v: View, w: View, key: Key)
    requires SameUpToEdgeOrder(plan, other) && v.results == w.results
    ensures multiset(UpstreamFor(plan, v, key)) == multiset(UpstreamFor(other, w, key))
  {
    UpstreamReadsResults(other.edges, v, w, key);
    ContributionsReordered(plan.edges, other.edges, v, key);
  }

  lemma {:induction false} UpstreamReadsResults(edges: seq<Edge>, v: View, w: View, key: Key)
    requires v.results == w.results
    ensures Contributions(edges, v, key) == Contributions(edges, w, key)
  {
    if edges != [] {
      UpstreamReadsResults(edges[1..], v, w, key);
    }
  }

  lemma InputsForAlike(plan: Plan, other: Plan, run: Run, run': Run, batch: seq<Key>)
    requires SameUpToEdgeOrder(plan, other) && RunsAlike(run, run')
    ensures InputsAlike(InputsFor(plan, run, batch), InputsFor(other, run', batch))
  {
    hide UpstreamFor, SameUpToEdgeOrder;
    forall k | k in batch
      ensures InputAlike(InputsFor(plan, run, batch)[k], InputsFor(other, run', batch)[k])
    {
      RunsSeeAlike(run, run');
      UpstreamAlike(plan, other, RunView(run), RunView(run'), k);
    }
  }

  // ---- one step ------------------------------------------------------------------------------------

  lemma StatusAlike(row: Row, row': Row, status: NodeStatus)
    requires RowAlike(row, row')
    ensures RowAlike(row.(status := status), row'.(status := status)) && row.status == row'.status
  {
  }

  lemma CancelledAlike(rows: Rows, rows': Rows)
    requires RowsAlike(rows, rows')
    ensures RowsAlike(CancelledRows(rows), CancelledRows(rows'))
  {
    hide RowAlike;
    forall k | k in rows
      ensures RowAlike(CancelledRows(rows)[k], CancelledRows(rows')[k])
    {
      StatusAlike(rows[k], rows'[k], Cancelled);
    }
  }

  lemma InterruptedAlike(rows: Rows, rows': Rows)
    requires RowsAlike(rows, rows')
    ensures RowsAlike(InterruptedRows(rows), InterruptedRows(rows'))
  {
    hide RowAlike;
    forall k | k in rows
      ensures RowAlike(InterruptedRows(rows)[k], InterruptedRows(rows')[k])
    {
      StatusAlike(rows[k], rows'[k], Cancelled);
    }
  }

  lemma ResumableAlike(rows: Rows, rows': Rows)
    requires RowsAlike(rows, rows')
    ensures RowsAlike(ResumableRows(rows), ResumableRows(rows'))
  {
    hide RowAlike;
    forall k | k in rows
      ensures RowAlike(ResumableRows(rows)[k], ResumableRows(rows')[k])
    {
      StatusAlike(rows[k], rows'[k], Waiting);
    }
  }

  lemma DecideAlike(plan: Plan, other: Plan, s: Sys, s': Sys)
    requires SameUpToEdgeOrder(plan, other) && Alike(s, s') && s.mode.Active?
    ensures Alike(DecideStep(plan, s), DecideStep(other, s'))
  {
    hide RowsAlike, RuledRows, NewSkips, BatchOf, AnyReady, AnyGate, RoundThrows, InputsFor, CancelledRows, RunView;
    hide SameUpToEdgeOrder, InputsAlike, ViewsAlike;
    var run, run', rows, rows' := s.mode.run, s'.mode.run, s.store.rows, s'.store.rows;
    var v, w := RunView(run), RunView(run');
    RunsSeeAlike(run, run');
    CancelledAlike(rows, rows');
    RulingsAlike(plan, other, v, w, rows, rows');
    BatchAlike(plan, other, v, w, rows, rows', plan.nodes);
    RoundThrowsAlike(plan, other, v, w);
    var next, next' := run.(skipped := run.skipped + NewSkips(plan, v, rows)),
                       run'.(skipped := run'.skipped + NewSkips(other, w, rows'));
    assert next.skipped.Keys == next'.skipped.Keys;
    InputsForAlike(plan, other, next, next', BatchOf(plan, v, rows, plan.nodes));
    SameNodes(plan, other);
  }

  lemma SameNodes(plan: Plan, other: Plan)
    requires SameUpToEdgeOrder(plan, other)
    ensures plan.nodes == other.nodes
  {
  }

  lemma {:induction false} RecordedAlike(
    row: Row, row': Row, outs: seq<Output>, ups: seq<Upstream>, ups': seq<Upstream>)
    requires RowAlike(row, row') && multiset(ups) == multiset(ups')
    ensures RowAlike(RecordAll(row, outs, ups), RecordAll(row', outs, ups'))
  {
    if outs != [] {
      RecordedAlike(row, row', outs[..|outs| - 1], ups, ups');
    }
  }

  lemma RecordedRowsAlike(
    rows: Rows, rows': Rows, inputs: map<Key, AgentInput>, inputs': map<Key, AgentInput>, results: Results)
    requires RowsAlike(rows, rows') && InputsAlike(inputs, inputs')
    ensures RowsAlike(RecordedRows(rows, inputs, results), RecordedRows(rows', inputs', results))
  {
    hide RecordAll;
    forall k | k in rows
      ensures RowAlike(RecordedRows(rows, inputs, results)[k], RecordedRows(rows', inputs', results)[k])
    {
      if k in inputs && k in results && results[k] != [] {
        RecordedAlike(rows[k], rows'[k], results[k], inputs[k].upstream, inputs'[k].upstream);
      }
    }
  }

  lemma RecordAlike(s: Sys, s': Sys, results: Results)
    requires Alike(s, s') && s.mode.Active? && s.mode.phase.Dispatched?
    ensures Alike(RecordStep(s, results), RecordStep(s', results))
  {
    hide RowsAlike, InputsAlike, RecordedRows, BatchCost, AnyFailure, RecordedRun;
    RecordedRowsAlike(s.store.rows, s'.store.rows, s.mode.phase.inputs, s'.mode.phase.inputs, results);
    RecordedRunAlike(s.mode.run, s'.mode.run, s.mode.phase.batch, results);
  }

  lemma RecordedRunAlike(run: Run, run': Run, batch: seq<Key>, results: Results)
    requires RunsAlike(run, run')
    ensures RunsAlike(RecordedRun(run, batch, results), RecordedRun(run', batch, results))
  {
    hide BatchCost, Last;
    assert forall k :: UsedAttempts(run, k) == UsedAttempts(run', k);
  }

  lemma {:induction false} FirstFiringAlike(cfg: Config, run: Run, run': Run, nodes: seq<Node>)
    requires RunsAlike(run, run')
    ensures FirstFiring(cfg, run, nodes) == FirstFiring(cfg, run', nodes)
  {
    hide Holds, Throws;
    if nodes != [] {
      FirstFiringAlike(cfg, run, run', nodes[1..]);
    }
  }

  lemma AffectedAlike(plan: Plan, other: Plan, target: Key)
    requires SameUpToEdgeOrder(plan, other)
    ensures Affected(plan, target) == Affected(other, target)
  {
    SameEdges(plan, other);
  }

  lemma ReopenedAlike(rows: Rows, rows': Rows, keys: set<Key>)
    requires RowsAlike(rows, rows')
    ensures RowsAlike(ReopenedRows(rows, keys), ReopenedRows(rows', keys))
  {
  }

  lemma RouteAlike(plan: Plan, other: Plan, cfg: Config, s: Sys, s': Sys)
    requires SameUpToEdgeOrder(plan, other) && Alike(s, s') && s.mode.Active?
    ensures Alike(RouteStep(plan, cfg, s), RouteStep(other, cfg, s'))
  {
    hide FirstFiring, FeedbackText, Affected, ReopenedRows, SameUpToEdgeOrder, RowAlike, Throws, DetailOf;
    SameNodes(plan, other);
    FirstFiringAlike(cfg, s.mode.run, s'.mode.run, plan.nodes);
    var firing := FirstFiring(cfg, s.mode.run, plan.nodes);
    if firing.Some? {
      var target := firing.value.feedback.value.target;
      AffectedAlike(plan, other, target);
      ReopenedAlike(s.store.rows, s'.store.rows, Affected(plan, target));
    }
  }

  lemma RestoredAlike(rows: Rows, rows': Rows)
    requires RowsAlike(rows, rows')
    ensures RunsAlike(RestoredRun(rows), RestoredRun(rows'))
  {
    hide ReasonOf;
    assert StoredView(rows).results == StoredView(rows').results;
  }

  lemma OneRowAlike(rows: Rows, rows': Rows, key: Key, row: Row, row': Row)
    requires RowsAlike(rows, rows') && key in rows && RowAlike(row, row')
    ensures RowsAlike(rows[key := row], rows'[key := row'])
  {
  }

  lemma EnabledAlike(plan: Plan, other: Plan, cfg: Config, s: Sys, s': Sys, e: Event)
    requires SameUpToEdgeOrder(plan, other) && Alike(s, s')
    ensures Enabled(plan, cfg, s, e) == Enabled(other, cfg, s', e)
  {
    hide ArcsOf, InputAlike;
    SameEdges(plan, other);
  }

  lemma StepAlike(plan: Plan, other: Plan, cfg: Config, s: Sys, s': Sys, e: Event)
    requires SameUpToEdgeOrder(plan, other) && Alike(s, s')
    ensures Alike(Step(plan, cfg, s, e), Step(other, cfg, s', e))
  {
    hide SameUpToEdgeOrder, RowsAlike, DecideStep, RecordStep, RouteStep, Affected, ReopenedRows, RestoredRun;
    hide CancelledRows, InterruptedRows, ResumableRows, RunsAlike;
    EnabledAlike(plan, other, cfg, s, s', e);
    if Enabled(plan, cfg, s, e) {
      hide Enabled;
      EffectAlike(plan, other, cfg, s, s', e);
    }
  }

  lemma EffectAlike(plan: Plan, other: Plan, cfg: Config, s: Sys, s': Sys, e: Event)
    requires SameUpToEdgeOrder(plan, other) && Alike(s, s')
    requires Enabled(plan, cfg, s, e) && Enabled(other, cfg, s', e)
    ensures Alike(Effect(plan, cfg, s, e), Effect(other, cfg, s', e))
  {
    hide SameUpToEdgeOrder, RowsAlike, DecideStep, RecordStep, RouteStep, Affected, ReopenedRows, RestoredRun;
    hide CancelledRows, InterruptedRows, ResumableRows, ResultsAllowed, DecidedRow, SkipRow;
    var rows, rows' := s.store.rows, s'.store.rows;
    match e {
      case Decide => DecideAlike(plan, other, s, s');
      case Record(results) => RecordAlike(s, s', results);
      case Route => RouteAlike(plan, other, cfg, s, s');
      case Interrupt => InterruptedAlike(rows, rows');
      case Resume =>
        ResumableAlike(rows, rows');
        RestoredAlike(ResumableRows(rows), ResumableRows(rows'));
      case Retry(key) =>
        AffectedAlike(plan, other, key);
        ReopenedAlike(rows, rows', Affected(plan, key));
      case Approve(key, reason) => DecidedAlike(rows, rows', key, Decision(true, reason));
      case Reject(key, reason, actor) =>
        DecidedAlike(rows, rows', key, Decision(false, RejectionReason(reason, actor)));
      case OperatorSkip(key, reason) =>
        SkippedAlike(rows, rows', key, if reason != "" then reason else "skipped by operator");
      case _ =>
    }
  }

  lemma DecidedAlike(rows: Rows, rows': Rows, key: Key, decision: Decision)
    requires RowsAlike(rows, rows') && key in rows
    ensures key in rows' && RowsAlike(rows[key := DecidedRow(rows[key], decision)],
                                      rows'[key := DecidedRow(rows'[key], decision)])
  {
    OneRowAlike(rows, rows', key, DecidedRow(rows[key], decision), DecidedRow(rows'[key], decision));
  }

  lemma SkippedAlike(rows: Rows, rows': Rows, key: Key, reason: string)
    requires RowsAlike(rows, rows') && key in rows
    ensures key in rows' && RowsAlike(rows[key := SkipRow(rows[key], reason, true)],
                                      rows'[key := SkipRow(rows'[key], reason, true)])
  {
    OneRowAlike(rows, rows', key, SkipRow(rows[key], reason, true), SkipRow(rows'[key], reason, true));
  }

  // ---- whole histories ---------------------------------------------------------------------------------

  /** A history in which each event reads the edges in an order of its own. */
  ghost function Reordered(plan: Plan, orders: seq<Plan>, cfg: Config, events: seq<Event>): Sys
    requires |orders| == |events|
  {
    if events == [] then Created(plan)
    else
      var n := |events| - 1;
      Step(orders[n], cfg, Reordered(plan, orders[..n], cfg, events[..n]), events[n])
  }

  ghost predicate OrdersOf(plan: Plan, orders: seq<Plan>) {
    forall i :: 0 <= i < |orders| ==> SameUpToEdgeOrder(plan, orders[i])
  }

  /** The same events lead to the same state whatever orders the edges are read in: statuses, payloads,
      decisions, logs, costs, batches, waiting feedback and repairs are equal; inputs are equal up to
      their order, and the reasons the engine gives for skips up to their wording. */
  lemma {:induction false} EdgeOrderNeverMatters(plan: Plan, orders: seq<Plan>, cfg: Config, events: seq<Event>)
    requires |orders| == |events| && OrdersOf(plan, orders)
    ensures Alike(History(plan, cfg, events), Reordered(plan, orders, cfg, events))
  {
    hide Step, SameUpToEdgeOrder, Alike;
    if events == [] {
      CreatedAlike(plan);
    } else {
      var n := |events| - 1;
      EdgeOrderNeverMatters(plan, orders[..n], cfg, events[..n]);
      StepAlike(plan, orders[n], cfg, History(plan, cfg, events[..n]),
                Reordered(plan, orders[..n], cfg, events[..n]), events[n]);
    }
  }

  lemma CreatedAlike(plan: Plan)
    ensures Alike(Created(plan), Created(plan))
  {
    hide NodeKeys;
  }

  /** Whatever orders the edges were read in, at the head of the loop each result was computed from the
      payloads its node would be given now, up to their order, by a node that would be called for now. */
  lemma NoSupersededResultsInAnyOrder(plan: Plan, orders: seq<Plan>, other: Plan, cfg: Config, events: seq<Event>)
    requires |orders| == |events| && OrdersOf(plan, orders) && SameUpToEdgeOrder(plan, other)
    ensures var s := Reordered(plan, orders, cfg, events);
      s.mode.Active? && s.mode.phase.Head? ==>
        forall k :: k in s.mode.run.outputs ==>
          && k in s.store.rows && k in NodeKeys(other)
          && DependenciesResolved(other, RunView(s.mode.run), k)
          && SkipReason(other, RunView(s.mode.run), NodeOf(other, k)) == None
          && multiset(s.store.rows[k].basis) == multiset(UpstreamFor(other, RunView(s.mode.run), k))
  {
    hide Step, SkipReason, UpstreamFor, DependenciesResolved, NodeKeys, SameUpToEdgeOrder, Fresh;
    EdgeOrderNeverMatters(plan, orders, cfg, events);
    NoSupersededResults(plan, cfg, events);
    var s, s' := History(plan, cfg, events), Reordered(plan, orders, cfg, events);
    if s'.mode.Active? && s'.mode.phase.Head? {
      RunsSeeAlike(s.mode.run, s'.mode.run);
      SameEdges(plan, other);
      forall k | k in s'.mode.run.outputs
        ensures k in s'.store.rows && k in NodeKeys(other)
        ensures DependenciesResolved(other, RunView(s'.mode.run), k)
        ensures SkipReason(other, RunView(s'.mode.run), NodeOf(other, k)) == None
        ensures multiset(s'.store.rows[k].basis) == multiset(UpstreamFor(other, RunView(s'.mode.run), k))
      {
        ReadsAlike(plan, other, RunView(s.mode.run), RunView(s'.mode.run), k);
        assert RowAlike(s.store.rows[k], s'.store.rows[k]);
      }
    }
  }

  lemma ReadsAlike(plan: Plan, other: Plan, v: View, w: View, key: Key)
    requires SameUpToEdgeOrder(plan, other) && ViewsAlike(v, w) && key in NodeKeys(plan)
    ensures key in NodeKeys(other) && NodeOf(other, key) == NodeOf(plan, key)
    ensures DependenciesResolved(plan, v, key) == DependenciesResolved(other, w, key)
    ensures SkipReason(plan, v, NodeOf(plan, key)).None? == SkipReason(other, w, NodeOf(plan, key)).None?
    ensures multiset(UpstreamFor(plan, v, key)) == multiset(UpstreamFor(other, w, key))
  {
    hide SkipReason, UpstreamFor, DependenciesResolved;
    SourcesAlike(plan, v, w, key);
    VerdictsAreLocal(plan, v, w, NodeOf(plan, key));
    EdgeOrderIsIrrelevant(plan, other, w, NodeOf(plan, key));
  }

  // ---- results -------------------------------------------------------------------------------------------

  /** The agents' answers do not depend on the order of their inputs. */
  ghost predicate ReadsInAnyOrder(agent: Agent) {
    forall k: Key, a: seq<Upstream>, b: seq<Upstream> :: multiset(a) == multiset(b) ==> agent(k, a) == agent(k, b)
  }

  ghost predicate FaithfulReordered(
    plan: Plan, orders: seq<Plan>, cfg: Config, agent: Agent, events: seq<Event>)
    requires |orders| == |events|
  {
    forall i :: 0 <= i < |events| ==> FaithfulEvent(agent, Reordered(plan, orders[..i], cfg, events[..i]), events[i])
  }

  lemma FaithfulAlike(agent: Agent, s: Sys, s': Sys, e: Event)
    requires ReadsInAnyOrder(agent) && Alike(s, s') && FaithfulEvent(agent, s', e)
    ensures FaithfulEvent(agent, s, e)
  {
    if e.Record? && s.mode.Active? && s.mode.phase.Dispatched? {
      forall k | && k in e.results && k in s.mode.phase.inputs && e.results[k] != []
                 && Last(e.results[k]).status == Succeeded
        ensures Last(e.results[k]).payload == agent(k, s.mode.phase.inputs[k].upstream)
      {
        assert InputAlike(s.mode.phase.inputs[k], s'.mode.phase.inputs[k]);
      }
    }
  }

  lemma FaithfulInOrder(plan: Plan, orders: seq<Plan>, cfg: Config, agent: Agent, events: seq<Event>)
    requires |orders| == |events| && OrdersOf(plan, orders) && ReadsInAnyOrder(agent)
    requires FaithfulReordered(plan, orders, cfg, agent, events)
    ensures FaithfulHistory(plan, cfg, agent, events)
  {
    hide FaithfulEvent, Alike, Step, ReadsInAnyOrder, SameUpToEdgeOrder;
    forall i | 0 <= i < |events|
      ensures FaithfulEvent(agent, History(plan, cfg, events[..i]), events[i])
    {
      EdgeOrderNeverMatters(plan, orders[..i], cfg, events[..i]);
      FaithfulAlike(agent, History(plan, cfg, events[..i]), Reordered(plan, orders[..i], cfg, events[..i]), events[i]);
    }
  }

  lemma AlikeInResults(s: Sys, s': Sys)
    requires Alike(s, s')
    ensures s.store.status == s'.store.status && Forced(s.store.rows) == Forced(s'.store.rows)
    ensures StoredView(s.store.rows).results == StoredView(s'.store.rows).results
  {
  }

  /** If the agents' answers do not depend on the order of their inputs, two completed histories with the
      same nodes skipped by people end with the same results, whatever orders the edges were read in. */
  lemma ResultsDoNotDependOnEdgeOrder(
    plan: Plan, cfg: Config, cfg': Config, agent: Agent,
    orders: seq<Plan>, events: seq<Event>, orders': seq<Plan>, events': seq<Event>)
    requires ValidPlan(plan) && ReadsInAnyOrder(agent)
    requires |orders| == |events| && OrdersOf(plan, orders) && FaithfulReordered(plan, orders, cfg, agent, events)
    requires |orders'| == |events'| && OrdersOf(plan, orders') && FaithfulReordered(plan, orders', cfg', agent, events')
    requires var s, s' := Reordered(plan, orders, cfg, events), Reordered(plan, orders', cfg', events');
      s.store.status == s'.store.status == Finished && Forced(s.store.rows) == Forced(s'.store.rows)
    ensures StoredView(Reordered(plan, orders, cfg, events).store.rows).results
         == StoredView(Reordered(plan, orders', cfg', events').store.rows).results
  {
    hide Alike, ValidPlan, OrdersOf, FaithfulReordered, FaithfulHistory, Reordered, History, StoredView, Forced;
    hide ReadsInAnyOrder;
    EdgeOrderNeverMatters(plan, orders, cfg, events);
    EdgeOrderNeverMatters(plan, orders', cfg', events');
    FaithfulInOrder(plan, orders, cfg, agent, events);
    FaithfulInOrder(plan, orders', cfg', agent, events');
    AlikeInResults(History(plan, cfg, events), Reordered(plan, orders, cfg, events));
    AlikeInResults(History(plan, cfg', events'), Reordered(plan, orders', cfg', events'));
    ResultsDoNotDependOnHistory(plan, cfg, cfg', agent, events, events');
  }
}
