/** How long one call of `run` can last, and how often it can dispatch a node. */
module Termination {
  import opened Collections
  import opened Graphs
  import opened Conditions
  import opened Plans
  import opened Protocol
  import opened Invariants
  import opened Histories
  import opened Soundness

  function Open(plan: Plan, run: Run): set<Key> {
    NodeKeys(plan) - RunView(run).results.Keys - RunView(run).skips.Keys
  }

  /** Nodes some rule sends verdicts back to. */
  function Targets(plan: Plan): set<Key> {
    set n | n in plan.nodes && n.feedback.Some? && n.feedback.value.target in NodeKeys(plan) :: n.feedback.value.target
  }

  /** The targets whose repair reopens `key`. */
  ghost function TargetsAbove(plan: Plan, key: Key): set<Key> {
    set t | t in Targets(plan) && key in Affected(plan, t)
  }

  function Spare(cfg: Config, run: Run, nodes: seq<Node>, chosen: set<Key>): nat {
    if nodes == [] then 0
    else
      (if nodes[0].key in chosen && Repairs(run, nodes[0].key) <= cfg.cycles
       then cfg.cycles - Repairs(run, nodes[0].key) else 0)
      + Spare(cfg, run, nodes[1..], chosen)
  }

  lemma {:induction false} SpareUnspent(cfg: Config, run: Run, run': Run, nodes: seq<Node>, chosen: set<Key>)
    requires forall n :: n in nodes && n.key in chosen ==> Repairs(run', n.key) == Repairs(run, n.key)
    ensures Spare(cfg, run', nodes, chosen) == Spare(cfg, run, nodes, chosen)
  {
    if nodes != [] {
      assert nodes[0] in nodes;
      SpareUnspent(cfg, run, run', nodes[1..], chosen);
    }
  }

  lemma {:induction false} SpareSpent(cfg: Config, run: Run, run': Run, nodes: seq<Node>, chosen: set<Key>, target: Key)
    requires DistinctKeys(nodes) && target in chosen && exists n :: n in nodes && n.key == target
    requires Repairs(run, target) < cfg.cycles && Repairs(run', target) == Repairs(run, target) + 1
    requires forall k :: k != target ==> Repairs(run', k) == Repairs(run, k)
    ensures Spare(cfg, run', nodes, chosen) == Spare(cfg, run, nodes, chosen) - 1
  {
    if nodes[0].key == target {
      SpareUnspent(cfg, run, run', nodes[1..], chosen);
    } else {
      SpareSpent(cfg, run, run', nodes[1..], chosen, target);
    }
  }

  function CountIn(nodes: seq<Node>, chosen: set<Key>): nat {
    if nodes == [] then 0 else (if nodes[0].key in chosen then 1 else 0) + CountIn(nodes[1..], chosen)
  }

  lemma {:induction false} CountDistinct(nodes: seq<Node>, chosen: set<Key>)
    requires DistinctKeys(nodes) && forall k :: k in chosen ==> exists n :: n in nodes && n.key == k
    ensures CountIn(nodes, chosen) == |chosen|
  {
    if nodes == [] {
      assert chosen == {};
    } else {
      var k, rest := nodes[0].key, nodes[1..];
      forall x | x in chosen - {k}
        ensures exists n :: n in rest && n.key == x
      {
        var n :| n in nodes && n.key == x;
      }
      CountDistinct(rest, chosen - {k});
      SameCount(rest, chosen, chosen - {k});
    }
  }

  lemma {:induction false} SameCount(nodes: seq<Node>, a: set<Key>, b: set<Key>)
    requires forall n :: n in nodes ==> (n.key in a <==> n.key in b)
    ensures CountIn(nodes, a) == CountIn(nodes, b)
  {
    if nodes != [] {
      assert nodes[0] in nodes;
      SameCount(nodes[1..], a, b);
    }
  }

  lemma {:induction false} SpareAtStart(cfg: Config, run: Run, nodes: seq<Node>, chosen: set<Key>)
    requires run.repairs == map[]
    ensures Spare(cfg, run, nodes, chosen) == cfg.cycles * CountIn(nodes, chosen)
  {
    if nodes != [] {
      SpareAtStart(cfg, run, nodes[1..], chosen);
    }
  }

  lemma {:induction false} CountAll(nodes: seq<Node>, keys: set<Key>)
    requires DistinctKeys(nodes) && forall k :: k in keys ==> exists n :: n in nodes && n.key == k
    ensures |keys| <= |nodes|
  {
    CountDistinct(nodes, keys);
    CountAtMost(nodes, keys);
  }

  lemma {:induction false} CountAtMost(nodes: seq<Node>, keys: set<Key>)
    ensures CountIn(nodes, keys) <= |nodes|
  {
    if nodes != [] {
      CountAtMost(nodes[1..], keys);
    }
  }

  lemma OpenIsSmall(plan: Plan, run: Run)
    requires DistinctKeys(plan.nodes)
    ensures |Open(plan, run)| <= |plan.nodes|
  {
    CountAll(plan.nodes, Open(plan, run));
  }

  // ---- the measure --------------------------------------------------------------------

  /** Unused repair cycles weigh a full graph each; below them count the unresolved nodes. */
  function Potential(plan: Plan, cfg: Config, run: Run): nat {
    Times(Spare(cfg, run, plan.nodes, Targets(plan)), |plan.nodes|) + |Open(plan, run)|
  }

  function Times(a: nat, b: nat): nat {
    a * b
  }

  /** The run can still come back to the top of its loop. */
  predicate Alive(s: Sys) {
    s.mode.Active? && s.mode.phase != Recorded(true)
  }

  function Measure(plan: Plan, cfg: Config, s: Sys): int {
    if !Alive(s) then 0
    else Potential(plan, cfg, s.mode.run) - (if s.mode.phase.Dispatched? then 1 else 0)
  }

  /** Steps that belong to one call of `run`. */
  predicate RunEvent(e: Event) {
    e.Decide? || e.Record? || e.Route? || e.Fail? || e.Crash? || e.RequestCancel?
  }

  predicate WithinCycles(cfg: Config, run: Run) {
    forall k :: k in run.repairs ==> run.repairs[k] <= cfg.cycles
  }

  ghost predicate BatchStillOpen(plan: Plan, run: Run, phase: Phase) {
    phase.Dispatched? ==> phase.batch != [] && forall k :: k in phase.batch ==> k in Open(plan, run)
  }

  ghost predicate InRun(plan: Plan, cfg: Config, s: Sys) {
    && ValidPlan(plan) && Invariant(plan, cfg, s)
    && (s.mode.Active? ==> WithinCycles(cfg, s.mode.run) && BatchStillOpen(plan, s.mode.run, s.mode.phase))
  }

  /** Rounds begun and not ended by the run stopping. */
  ghost predicate GoesOn(plan: Plan, cfg: Config, s: Sys, e: Event) {
    e.Decide? && Enabled(plan, cfg, s, e) && Step(plan, cfg, s, e).mode.Active?
  }

  lemma BatchOpen(plan: Plan, run: Run, rows: Rows, skips: map<Key, string>)
    requires skips == NewSkips(plan, RunView(run), rows)
    ensures var batch := BatchOf(plan, RunView(run), rows, plan.nodes);
      var run' := run.(skipped := run.skipped + skips);
      forall k :: k in batch ==> k in Open(plan, run')
  {
    assert forall k :: k in skips ==> !RuleFor(plan, RunView(run), rows, k).Go?;
  }

  lemma SkippingShrinks(plan: Plan, run: Run, rows: Rows)
    ensures var run' := run.(skipped := run.skipped + NewSkips(plan, RunView(run), rows));
      && Open(plan, run') <= Open(plan, run)
      && ((AnyReady(plan, RunView(run), rows) && BatchOf(plan, RunView(run), rows, plan.nodes) == []
           && !AnyGate(plan, RunView(run), rows)) ==> Open(plan, run') != Open(plan, run))
  {
    var v := RunView(run);
    if AnyReady(plan, v, rows) && BatchOf(plan, v, rows, plan.nodes) == [] && !AnyGate(plan, v, rows) {
      var k :| k in NodeKeys(plan) && !RuleFor(plan, v, rows, k).NotReady?;
      assert !RuleFor(plan, v, rows, k).Go? by {
        var n :| n in plan.nodes && n.key == k;
        assert k !in BatchOf(plan, v, rows, plan.nodes);
      }
      assert k in NewSkips(plan, v, rows);
      assert k in Open(plan, run);
    }
  }

  lemma SameRepairs(plan: Plan, cfg: Config, run: Run, run': Run)
    requires run'.repairs == run.repairs
    ensures Spare(cfg, run', plan.nodes, Targets(plan)) == Spare(cfg, run, plan.nodes, Targets(plan))
  {
    SpareUnspent(cfg, run, run', plan.nodes, Targets(plan));
  }

  lemma DecideGoesOn(plan: Plan, cfg: Config, s: Sys)
    requires s.mode.Active? && s.mode.phase.Head? && DecideStep(plan, s).mode.Active?
    ensures var s' := DecideStep(plan, s);
      && BatchStillOpen(plan, s'.mode.run, s'.mode.phase)
      && s'.mode.run.repairs == s.mode.run.repairs
      && |Open(plan, s'.mode.run)| <= |Open(plan, s.mode.run)|
      && (s'.mode.phase.Head? ==> |Open(plan, s'.mode.run)| < |Open(plan, s.mode.run)|)
      && (s'.mode.phase.Head? || s'.mode.phase.Dispatched?)
  {
    hide RuledRows, NewSkips, RuleFor, RoundThrows, Open, InputsFor, RunView, NodeKeys;
    var run, rows := s.mode.run, s.store.rows;
    var v := RunView(run);
    var run' := run.(skipped := run.skipped + NewSkips(plan, v, rows));
    SkippingShrinks(plan, run, rows);
    Cardinality(Open(plan, run'), Open(plan, run));
    BatchOpen(plan, run, rows, NewSkips(plan, v, rows));
    OpenReads(plan, run', DecideStep(plan, s).mode.run);
  }

  lemma DecideDescends(plan: Plan, cfg: Config, s: Sys)
    requires InRun(plan, cfg, s) && s.mode.Active? && s.mode.phase.Head?
    ensures InRun(plan, cfg, DecideStep(plan, s))
    ensures var s' := DecideStep(plan, s);
      s'.mode.Active? ==> Measure(plan, cfg, s') < Measure(plan, cfg, s)
  {
    hide ValidPlan, Spare, Targets, Open, Invariant, DecideStep;
    StepInvariant(plan, cfg, s, Decide);
    assert DecideStep(plan, s) == Step(plan, cfg, s, Decide);
    if DecideStep(plan, s).mode.Active? {
      DecideGoesOn(plan, cfg, s);
      SameRepairs(plan, cfg, s.mode.run, DecideStep(plan, s).mode.run);
    }
  }

  lemma OpenReads(plan: Plan, run: Run, run': Run)
    requires run'.outputs == run.outputs && run'.skipped == run.skipped
    ensures Open(plan, run') == Open(plan, run)
  {
  }

  lemma RecordingCloses(plan: Plan, run: Run, batch: seq<Key>, results: Results)
    requires AllSucceeded(run) && !AnyFailure(results) && batch != []
    requires forall k :: k in batch ==> k in Open(plan, run) && k in results && results[k] != []
    ensures var run' := RecordedRun(run, batch, results);
      Open(plan, run') <= Open(plan, run) && Open(plan, run') != Open(plan, run)
  {
    hide BatchCost, NodeKeys;
    var run' := RecordedRun(run, batch, results);
    assert batch[0] in RunView(run').results;
    assert forall k :: k in RunView(run).results ==> k in RunView(run').results;
    assert batch[0] in Open(plan, run) && batch[0] !in Open(plan, run');
  }

  lemma RecordFacts(plan: Plan, cfg: Config, s: Sys, results: Results)
    requires Invariant(plan, cfg, s) && Enabled(plan, cfg, s, Record(results))
    ensures AllSucceeded(s.mode.run)
    ensures forall k :: k in s.mode.phase.batch <==> k in results
    ensures forall k :: k in results ==> results[k] != []
  {
    hide Sound, DispatchedWell, Kept;
    RecordingFacts(plan, cfg, s, results);
  }

  lemma RecordDescends(plan: Plan, cfg: Config, s: Sys, results: Results)
    requires InRun(plan, cfg, s) && Enabled(plan, cfg, s, Record(results))
    ensures InRun(plan, cfg, RecordStep(s, results))
    ensures !AnyFailure(results) ==> Measure(plan, cfg, RecordStep(s, results)) <= Measure(plan, cfg, s)
  {
    hide ValidPlan, Spare, Targets, Open, Invariant, RecordedRows, BatchCost, AllSucceeded, AnyFailure;
    var run, phase := s.mode.run, s.mode.phase;
    StepInvariant(plan, cfg, s, Record(results));
    assert RecordStep(s, results) == Step(plan, cfg, s, Record(results));
    if !AnyFailure(results) {
      RecordFacts(plan, cfg, s, results);
      RecordingCloses(plan, run, phase.batch, results);
      Cardinality(Open(plan, RecordedRun(run, phase.batch, results)), Open(plan, run));
      SameRepairs(plan, cfg, run, RecordedRun(run, phase.batch, results));
    }
  }

  /** A repair spends one cycle of its target and reopens what it affects. */
  lemma RepairSpends(
    plan: Plan, cfg: Config, run: Run, node: Node, text: string, chosen: set<Key>, keys: set<Key>)
    requires DistinctKeys(plan.nodes) && node in plan.nodes && Fires(cfg, run, node)
    requires node.feedback.value.target in NodeKeys(plan)
    ensures var rule := node.feedback.value;
      var run' := ReopenedRun(run, rule.target, text, keys);
      Spare(cfg, run', plan.nodes, chosen)
          == Spare(cfg, run, plan.nodes, chosen) - (if rule.target in chosen then 1 else 0)
  {
    var rule := node.feedback.value;
    var run' := ReopenedRun(run, rule.target, text, keys);
    if rule.target in chosen {
      SpareSpent(cfg, run, run', plan.nodes, chosen, rule.target);
    } else {
      SpareUnspent(cfg, run, run', plan.nodes, chosen);
    }
  }

  lemma RouteDescends(plan: Plan, cfg: Config, s: Sys)
    requires InRun(plan, cfg, s) && s.mode.Active? && s.mode.phase == Recorded(false)
    ensures InRun(plan, cfg, RouteStep(plan, cfg, s))
    ensures RouteStep(plan, cfg, s).mode.Active? ==>
        Measure(plan, cfg, RouteStep(plan, cfg, s)) <= Measure(plan, cfg, s)
  {
    hide Spare, Open, Invariant, Affected, ReopenedRows, NodeKeys, Targets, Acyclic, KnownEdge, Times, FeedbackText;
    hide DetailOf, Holds, Throws;
    StepInvariant(plan, cfg, s, Route);
    assert RouteStep(plan, cfg, s) == Step(plan, cfg, s, Route);
    var run := s.mode.run;
    var firing := FirstFiring(cfg, run, plan.nodes);
    if firing.Some? && !RoutingThrows(run, s.store.rows, firing.value) {
      var rule := firing.value.feedback.value;
      var text := FeedbackText(cfg, rule, run.outputs[firing.value.key].payload);
      var run' := ReopenedRun(run, rule.target, text, Affected(plan, rule.target));
      RowsAreNodes(plan, cfg, s, rule.target);
      TargetListed(plan, firing.value);
      RepairSpends(plan, cfg, run, firing.value, text, Targets(plan), Affected(plan, rule.target));
      OpenIsSmall(plan, run');
      SpendOne(Spare(cfg, run, plan.nodes, Targets(plan)), |plan.nodes|, |Open(plan, run')|, |Open(plan, run)|);
    }
  }

  lemma RowsAreNodes(plan: Plan, cfg: Config, s: Sys, key: Key)
    requires Invariant(plan, cfg, s) && key in s.store.rows
    ensures key in NodeKeys(plan)
  {
    hide Sound;
    SoundFacts(plan, cfg, s);
  }

  lemma TargetListed(plan: Plan, node: Node)
    requires node in plan.nodes && node.feedback.Some? && node.feedback.value.target in NodeKeys(plan)
    ensures node.feedback.value.target in Targets(plan)
  {
  }

  lemma SpendOne(spare: nat, n: nat, after: nat, before: nat)
    requires spare >= 1 && after <= n
    ensures Times(spare - 1, n) + after <= Times(spare, n) + before
  {
  }

  lemma MeasureIsNat(plan: Plan, cfg: Config, s: Sys)
    requires InRun(plan, cfg, s)
    ensures Measure(plan, cfg, s) >= 0
  {
    hide Open, Invariant, ValidPlan;
    if Alive(s) && s.mode.phase.Dispatched? {
      assert s.mode.phase.batch[0] in Open(plan, s.mode.run);
    }
  }

  lemma RunStep(plan: Plan, cfg: Config, s: Sys, e: Event)
    requires InRun(plan, cfg, s) && RunEvent(e)
    ensures InRun(plan, cfg, Step(plan, cfg, s, e))
    ensures Measure(plan, cfg, Step(plan, cfg, s, e)) + (if GoesOn(plan, cfg, s, e) then 1 else 0)
         <= Measure(plan, cfg, s)
  {
    hide Potential, Invariant, ValidPlan, Open;
    StepInvariant(plan, cfg, s, e);
    MeasureIsNat(plan, cfg, s);
    if Enabled(plan, cfg, s, e) {
      match e
      case Decide => DecideDescends(plan, cfg, s);
      case Record(results) => RecordDescends(plan, cfg, s, results);
      case Route => RouteDescends(plan, cfg, s);
      case _ =>
    }
  }

  ghost function Rounds(plan: Plan, cfg: Config, s: Sys, events: seq<Event>): nat {
    if events == [] then 0
    else
      var n := |events| - 1;
      Rounds(plan, cfg, s, events[..n])
      + (if GoesOn(plan, cfg, Steps(plan, cfg, s, events[..n]), events[n]) then 1 else 0)
  }

  lemma {:induction false} RoundsSpendMeasure(plan: Plan, cfg: Config, s: Sys, events: seq<Event>)
    requires InRun(plan, cfg, s) && forall e :: e in events ==> RunEvent(e)
    ensures InRun(plan, cfg, Steps(plan, cfg, s, events))
    ensures Rounds(plan, cfg, s, events) + Measure(plan, cfg, Steps(plan, cfg, s, events)) <= Measure(plan, cfg, s)
  {
    hide InRun, Step, GoesOn, Measure;
    if events != [] {
      var n := |events| - 1;
      RoundsSpendMeasure(plan, cfg, s, events[..n]);
      RunStep(plan, cfg, Steps(plan, cfg, s, events[..n]), events[n]);
    }
  }

  ghost predicate JustStarted(plan: Plan, cfg: Config, s: Sys) {
    ValidPlan(plan) && Invariant(plan, cfg, s) && s.mode.Active? && s.mode.phase.Head? && s.mode.run.repairs == map[]
  }

  /** A call of `run` begins at most N (1 + cycles T) rounds that do not end it, for N nodes and T
      feedback targets, whatever the agents answer. */
  lemma RunEndsWithinBound(plan: Plan, cfg: Config, s: Sys, events: seq<Event>)
    requires JustStarted(plan, cfg, s) && forall e :: e in events ==> RunEvent(e)
    ensures Rounds(plan, cfg, s, events) <= |plan.nodes| * (1 + cfg.cycles * |Targets(plan)|)
  {
    hide Invariant, Acyclic, KnownEdge, Open, Step, Times, Rounds, Targets, Spare, CountIn;
    RoundsSpendMeasure(plan, cfg, s, events);
    MeasureIsNat(plan, cfg, Steps(plan, cfg, s, events));
    OpenIsSmall(plan, s.mode.run);
    SpareAtStart(cfg, s.mode.run, plan.nodes, Targets(plan));
    TargetsAreNodes(plan);
    CountDistinct(plan.nodes, Targets(plan));
    BoundAtStart(cfg.cycles * |Targets(plan)|, |plan.nodes|, |Open(plan, s.mode.run)|);
  }

  lemma BoundAtStart(t: nat, n: nat, unresolved: nat)
    requires unresolved <= n
    ensures Times(t, n) + unresolved <= n * (1 + t)
  {
  }

  lemma TargetsAreNodes(plan: Plan)
    ensures forall k :: k in Targets(plan) ==> exists n :: n in plan.nodes && n.key == k
  {
    forall k | k in Targets(plan)
      ensures exists n :: n in plan.nodes && n.key == k
    {
      assert k in NodeKeys(plan);
    }
  }

  // ---- dispatches of one node -------------------------------------------------------------

  ghost predicate Dispatches(plan: Plan, cfg: Config, s: Sys, e: Event, key: Key) {
    GoesOn(plan, cfg, s, e) &&
    var phase := Step(plan, cfg, s, e).mode.phase; phase.Dispatched? && key in phase.batch
  }

  ghost function DispatchCount(plan: Plan, cfg: Config, s: Sys, events: seq<Event>, key: Key): nat {
    if events == [] then 0
    else
      var n := |events| - 1;
      DispatchCount(plan, cfg, s, events[..n], key)
      + (if Dispatches(plan, cfg, Steps(plan, cfg, s, events[..n]), events[n], key) then 1 else 0)
  }

  predicate HasRun(s: Sys, key: Key)
    requires s.mode.Active?
  {
    key in s.mode.run.outputs || (s.mode.phase.Dispatched? && key in s.mode.phase.batch)
  }

  /** Dispatches a node may still get: one per unused repair above it, and one if it has not run. */
  ghost function Credit(plan: Plan, cfg: Config, s: Sys, key: Key): nat {
    if !Alive(s) then 0
    else Spare(cfg, s.mode.run, plan.nodes, TargetsAbove(plan, key)) + (if HasRun(s, key) then 0 else 1)
  }

  lemma DecideSpendsCredit(plan: Plan, cfg: Config, s: Sys, key: Key)
    requires InRun(plan, cfg, s) && s.mode.Active? && s.mode.phase.Head?
    ensures Credit(plan, cfg, DecideStep(plan, s), key)
          + (if Dispatches(plan, cfg, s, Decide, key) then 1 else 0) <= Credit(plan, cfg, s, key)
  {
    hide Spare, TargetsAbove, Invariant, ValidPlan, NewSkips, RuledRows, InputsFor, Open;
    var s' := DecideStep(plan, s);
    if s'.mode.Active? {
      DecideGoesOn(plan, cfg, s);
      SpareUnspent(cfg, s.mode.run, s'.mode.run, plan.nodes, TargetsAbove(plan, key));
      if s'.mode.phase.Dispatched? && key in s'.mode.phase.batch {
        OpenHasNotRun(plan, cfg, s, s'.mode.run, key);
      }
    }
  }

  lemma OpenHasNotRun(plan: Plan, cfg: Config, s: Sys, run': Run, key: Key)
    requires Invariant(plan, cfg, s) && s.mode.Active? && s.mode.phase.Head?
    requires run'.outputs == s.mode.run.outputs && key in Open(plan, run')
    ensures key !in s.mode.run.outputs
  {
  }

  lemma RecordKeepsCredit(plan: Plan, cfg: Config, s: Sys, results: Results, key: Key)
    requires InRun(plan, cfg, s) && Enabled(plan, cfg, s, Record(results))
    ensures Credit(plan, cfg, RecordStep(s, results), key) <= Credit(plan, cfg, s, key)
  {
    hide Spare, TargetsAbove, Invariant, ValidPlan, BatchCost, RecordedRows, ResultsAllowed;
    RecordFacts(plan, cfg, s, results);
    SpareUnspent(cfg, s.mode.run, RecordStep(s, results).mode.run, plan.nodes, TargetsAbove(plan, key));
  }

  lemma RouteKeepsCredit(plan: Plan, cfg: Config, s: Sys, key: Key)
    requires InRun(plan, cfg, s) && s.mode.Active? && s.mode.phase == Recorded(false)
    ensures Credit(plan, cfg, RouteStep(plan, cfg, s), key) <= Credit(plan, cfg, s, key)
  {
    hide Spare, Invariant, Acyclic, KnownEdge, Affected, ReopenedRows, Targets, NodeKeys, FeedbackText, DetailOf;
    hide Holds, Throws;
    var run := s.mode.run;
    var firing := FirstFiring(cfg, run, plan.nodes);
    if firing.Some? && !RoutingThrows(run, s.store.rows, firing.value) {
      var rule := firing.value.feedback.value;
      var text := FeedbackText(cfg, rule, run.outputs[firing.value.key].payload);
      RowsAreNodes(plan, cfg, s, rule.target);
      TargetListed(plan, firing.value);
      RepairSpends(plan, cfg, run, firing.value, text, TargetsAbove(plan, key), Affected(plan, rule.target));
    }
  }

  lemma {:induction false} DispatchesSpendCredit(plan: Plan, cfg: Config, s: Sys, events: seq<Event>, key: Key)
    requires InRun(plan, cfg, s) && forall e :: e in events ==> RunEvent(e)
    ensures DispatchCount(plan, cfg, s, events, key) + Credit(plan, cfg, Steps(plan, cfg, s, events), key)
         <= Credit(plan, cfg, s, key)
  {
    hide InRun, Step, Dispatches, Credit;
    if events != [] {
      var n := |events| - 1;
      DispatchesSpendCredit(plan, cfg, s, events[..n], key);
      RoundsSpendMeasure(plan, cfg, s, events[..n]);
      CreditStep(plan, cfg, Steps(plan, cfg, s, events[..n]), events[n], key);
    }
  }

  lemma CreditStep(plan: Plan, cfg: Config, s: Sys, e: Event, key: Key)
    requires InRun(plan, cfg, s) && RunEvent(e)
    ensures Credit(plan, cfg, Step(plan, cfg, s, e), key) + (if Dispatches(plan, cfg, s, e, key) then 1 else 0)
         <= Credit(plan, cfg, s, key)
  {
    hide InRun, Spare, TargetsAbove, DecideStep, RecordStep, RouteStep;
    if Enabled(plan, cfg, s, e) {
      match e
      case Decide => DecideSpendsCredit(plan, cfg, s, key);
      case Record(results) => RecordKeepsCredit(plan, cfg, s, results, key);
      case Route => RouteKeepsCredit(plan, cfg, s, key);
      case _ =>
    }
  }

  /** In one call of `run` a node is dispatched at most once, and once more per repair cycle of each
      target at or above it. */
  lemma DispatchesBounded(plan: Plan, cfg: Config, s: Sys, events: seq<Event>, key: Key)
    requires JustStarted(plan, cfg, s) && forall e :: e in events ==> RunEvent(e)
    ensures DispatchCount(plan, cfg, s, events, key) <= 1 + cfg.cycles * |TargetsAbove(plan, key)|
  {
    hide Invariant, Acyclic, KnownEdge, Open, Step, DispatchCount, TargetsAbove, Spare, CountIn;
    DispatchesSpendCredit(plan, cfg, s, events, key);
    SpareAtStart(cfg, s.mode.run, plan.nodes, TargetsAbove(plan, key));
    TargetsAreNodes(plan);
    AboveAreTargets(plan, key);
    CountDistinct(plan.nodes, TargetsAbove(plan, key));
  }

  lemma AboveAreTargets(plan: Plan, key: Key)
    ensures TargetsAbove(plan, key) <= Targets(plan)
  {
  }
}
