/** The engine against a recursive reading of the graph: evaluate a node by evaluating its
    dependencies, and skip it when its verdict says so or a person skipped it. */
module Evaluation {
  import opened Graphs
  import opened Conditions
  import opened Plans
  import opened Protocol
  import opened Invariants
  import opened Histories
  import opened Soundness
  import opened Safety

  datatype Outcome = Ran(payload: Json) | NotRun

  /** An agent as a function of its node and the payloads it is given. */
  type Agent = (Key, seq<Upstream>) -> Json

  ghost function Height(rank: map<Key, nat>, key: Key): nat {
    if key in rank then rank[key] else 0
  }

  /** What `key`'s direct dependencies evaluate to. */
  ghost function IdealView(plan: Plan, rank: map<Key, nat>, agent: Agent, forced: set<Key>, key: Key): (v: View)
    requires ValidPlan(plan) && Ranks(ArcsOf(plan.edges), rank) && key in NodeKeys(plan)
    ensures forall s :: s in DependenciesOf(plan, key) ==>
      s in NodeKeys(plan) && Height(rank, s) < Height(rank, key)
    ensures forall s :: s in v.results <==>
      s in DependenciesOf(plan, key) && Evaluate(plan, rank, agent, forced, s).Ran?
    ensures forall s :: s in v.results ==> v.results[s] == Evaluate(plan, rank, agent, forced, s).payload
    ensures forall s :: s in v.skips <==>
      s in DependenciesOf(plan, key) && Evaluate(plan, rank, agent, forced, s).NotRun?
    decreases Height(rank, key), 0
  {
    assert forall s :: s in DependenciesOf(plan, key) ==>
      s in NodeKeys(plan) && Height(rank, s) < Height(rank, key) by {
      forall s | s in DependenciesOf(plan, key)
        ensures s in NodeKeys(plan) && Height(rank, s) < Height(rank, key)
      {
        DependenciesAreArcs(plan, s, key);
      }
    }
    View(map s | s in DependenciesOf(plan, key) && Evaluate(plan, rank, agent, forced, s).Ran?
           :: Evaluate(plan, rank, agent, forced, s).payload,
         map s | s in DependenciesOf(plan, key) && Evaluate(plan, rank, agent, forced, s).NotRun? :: "skipped")
  }

  ghost function Evaluate(plan: Plan, rank: map<Key, nat>, agent: Agent, forced: set<Key>, key: Key): Outcome
    requires ValidPlan(plan) && Ranks(ArcsOf(plan.edges), rank) && key in NodeKeys(plan)
    decreases Height(rank, key), 1
  {
    if key in forced then NotRun
    else
      var v := IdealView(plan, rank, agent, forced, key);
      if SkipReason(plan, v, NodeOf(plan, key)).Some? then NotRun
      else Ran(agent(key, UpstreamFor(plan, v, key)))
  }

  // ---- what the rows say ----------------------------------------------------------------

  /** Nodes whose stored skip a person decided. */
  function Forced(rows: Rows): set<Key> {
    set k | k in rows && rows[k].status == Skipped && rows[k].byHuman
  }

  function OutcomeOf(row: Row): Outcome
    requires Settled(row.status)
  {
    if row.status == Completed then Ran(row.payload) else NotRun
  }

  /** Stored results are the agent's answers to the inputs they were computed from. */
  ghost predicate Faithful(agent: Agent, rows: Rows) {
    forall k :: k in rows && rows[k].status == Completed ==> rows[k].payload == agent(k, rows[k].basis)
  }

  ghost predicate FaithfulEvent(agent: Agent, s: Sys, e: Event) {
    e.Record? && s.mode.Active? && s.mode.phase.Dispatched? ==>
      forall k :: k in e.results && k in s.mode.phase.inputs && e.results[k] != []
                  && Last(e.results[k]).status == Succeeded ==>
        Last(e.results[k]).payload == agent(k, s.mode.phase.inputs[k].upstream)
  }

  ghost predicate FaithfulHistory(plan: Plan, cfg: Config, agent: Agent, events: seq<Event>) {
    forall i :: 0 <= i < |events| ==> FaithfulEvent(agent, History(plan, cfg, events[..i]), events[i])
  }

  /** Stored rows agree with evaluation wherever they are settled. */
  lemma {:induction false} SettledRowsEvaluate(plan: Plan, rank: map<Key, nat>, agent: Agent, rows: Rows, key: Key)
    requires ValidPlan(plan) && Ranks(ArcsOf(plan.edges), rank) && key in NodeKeys(plan)
    requires Keyed(plan, rows) && Fresh(plan, rows) && Faithful(agent, rows)
    requires key in rows && Settled(rows[key].status)
    ensures Evaluate(plan, rank, agent, Forced(rows), key) == OutcomeOf(rows[key])
    decreases Height(rank, key)
  {
    hide Fresh, Keyed, ValidPlan, Acyclic, Ranks, NodeKeys;
    if key !in Forced(rows) {
      var v, w := StoredView(rows), IdealView(plan, rank, agent, Forced(rows), key);
      assert FreshAt(plan, v, rows[key], key) by {
        FreshGives(plan, rows, key);
      }
      forall e | e in plan.edges && e.target == key
        ensures SameAt(v, w, e.source)
      {
        assert e.source in DependenciesOf(plan, key);
        ResolvedMeansSettled(rows, e.source);
        SettledRowsEvaluate(plan, rank, agent, rows, e.source);
      }
      VerdictsAreLocal(plan, v, w, NodeOf(plan, key));
    }
  }

  lemma FreshGives(plan: Plan, rows: Rows, key: Key)
    requires Fresh(plan, rows) && key in rows && key in NodeKeys(plan)
    ensures FreshAt(plan, StoredView(rows), rows[key], key)
  {
  }

  ghost predicate FaithfulAt(agent: Agent, row: Row, key: Key) {
    row.status == Completed ==> row.payload == agent(key, row.basis)
  }

  lemma RecordedFaithful(
    plan: Plan, agent: Agent, rows: Rows, inputs: map<Key, AgentInput>, results: Results)
    requires RecordingFits(plan, rows, inputs, results) && Faithful(agent, rows)
    requires forall k :: k in results && Last(results[k]).status == Succeeded ==>
      Last(results[k]).payload == agent(k, inputs[k].upstream)
    ensures Faithful(agent, RecordedRows(rows, inputs, results))
  {
    forall k | k in rows
      ensures FaithfulAt(agent, RecordedRows(rows, inputs, results)[k], k)
    {
      if k in inputs {
        RecordedEffect(plan, rows, inputs, results, k);
      }
    }
  }

  lemma RuledFaithful(plan: Plan, agent: Agent, v: View, rows: Rows)
    requires Faithful(agent, rows)
    ensures Faithful(agent, RuledRows(plan, v, rows))
  {
    hide RuleFor;
  }

  lemma DecideFaithful(plan: Plan, agent: Agent, s: Sys)
    requires s.mode.Active? && Faithful(agent, s.store.rows) && Faithful(agent, s.durable.rows)
    ensures Faithful(agent, DecideStep(plan, s).store.rows) && DecideStep(plan, s).durable == DecideStep(plan, s).store
  {
    hide RuledRows, NewSkips, RuleFor, BatchOf, AnyReady, AnyGate, RoundThrows, InputsFor, RunView;
    RuledFaithful(plan, agent, RunView(s.mode.run), s.store.rows);
  }

  lemma RecordFaithful(plan: Plan, cfg: Config, agent: Agent, s: Sys, e: Event)
    requires Sound(plan, cfg, s) && Faithful(agent, s.store.rows)
    requires FaithfulEvent(agent, s, e) && e.Record? && Enabled(plan, cfg, s, e)
    ensures Faithful(agent, RecordStep(s, e.results).store.rows)
  {
    hide Sound, DispatchedWell, Kept, BatchCost, RecordedRows, RecordedRun, StoredView, NodeKeys;
    RecordingFacts(plan, cfg, s, e.results);
    RecordedFaithful(plan, agent, s.store.rows, s.mode.phase.inputs, e.results);
  }

  lemma OthersFaithful(plan: Plan, cfg: Config, agent: Agent, s: Sys, e: Event)
    requires Enabled(plan, cfg, s, e) && !e.Decide? && !e.Record?
    requires Faithful(agent, s.store.rows) && Faithful(agent, s.durable.rows)
    ensures Faithful(agent, Effect(plan, cfg, s, e).store.rows) && Faithful(agent, Effect(plan, cfg, s, e).durable.rows)
  {
    hide Affected, StoredView, RestoredRun, FirstFiring, ReopenedRun;
  }

  lemma StepFaithful(plan: Plan, cfg: Config, agent: Agent, s: Sys, e: Event)
    requires Sound(plan, cfg, s) && Faithful(agent, s.store.rows) && Faithful(agent, s.durable.rows)
    requires FaithfulEvent(agent, s, e)
    ensures Faithful(agent, Step(plan, cfg, s, e).store.rows) && Faithful(agent, Step(plan, cfg, s, e).durable.rows)
  {
    hide Sound, Faithful, DecideStep, RouteStep, RecordedRows, RecordedRun, BatchCost;
    if Enabled(plan, cfg, s, e) {
      if e.Decide? {
        DecideFaithful(plan, agent, s);
      } else if e.Record? {
        RecordFaithful(plan, cfg, agent, s, e);
      } else {
        OthersFaithful(plan, cfg, agent, s, e);
      }
    }
  }

  lemma {:induction false} HistoryFaithful(plan: Plan, cfg: Config, agent: Agent, events: seq<Event>)
    requires FaithfulHistory(plan, cfg, agent, events)
    ensures Faithful(agent, History(plan, cfg, events).store.rows)
    ensures Faithful(agent, History(plan, cfg, events).durable.rows)
  {
    hide Sound, Step;
    if events != [] {
      var n := |events| - 1;
      forall i | 0 <= i < n
        ensures FaithfulEvent(agent, History(plan, cfg, events[..n][..i]), events[..n][i])
      {
        assert events[..n][..i] == events[..i];
      }
      HistoryFaithful(plan, cfg, agent, events[..n]);
      HistorySound(plan, cfg, events[..n]);
      StepFaithful(plan, cfg, agent, History(plan, cfg, events[..n]), events[n]);
    }
  }

  /** The engine refines the evaluator: in every reachable state, however the work was batched,
      paused, repaired, crashed and resumed, each resolved node has the outcome of recursive
      evaluation, with the nodes people skipped taken as skipped. */
  lemma EngineRefinesEvaluation(
    plan: Plan, cfg: Config, rank: map<Key, nat>, agent: Agent, events: seq<Event>, key: Key)
    requires ValidPlan(plan) && Ranks(ArcsOf(plan.edges), rank) && key in NodeKeys(plan)
    requires FaithfulHistory(plan, cfg, agent, events)
    requires var rows := History(plan, cfg, events).store.rows; key in rows && Settled(rows[key].status)
    ensures var rows := History(plan, cfg, events).store.rows;
      Evaluate(plan, rank, agent, Forced(rows), key) == OutcomeOf(rows[key])
  {
    hide Evaluate, ValidPlan, Ranks, Sound, Fresh, Kept, Faithful, NodeKeys;
    HistorySound(plan, cfg, events);
    SoundFacts(plan, cfg, History(plan, cfg, events));
    HistoryFaithful(plan, cfg, agent, events);
    SettledRowsEvaluate(plan, rank, agent, History(plan, cfg, events).store.rows, key);
  }

  // ---- no deadlock -------------------------------------------------------------------------

  /** Below any unresolved node there is an unresolved one with nothing left to wait for. */
  lemma {:induction false} FindReady(plan: Plan, rank: map<Key, nat>, v: View, key: Key) returns (ready: Key)
    requires ValidPlan(plan) && Ranks(ArcsOf(plan.edges), rank) && key in NodeKeys(plan) && !Resolved(v, key)
    ensures ready in NodeKeys(plan) && !Resolved(v, ready) && DependenciesResolved(plan, v, ready)
    decreases Height(rank, key)
  {
    if DependenciesResolved(plan, v, key) {
      ready := key;
    } else {
      var e :| e in plan.edges && e.target == key && !Resolved(v, e.source);
      assert KnownEdge(plan, e) && (e.source, e.target) in ArcsOf(plan.edges);
      ready := FindReady(plan, rank, v, e.source);
    }
  }

  /** In a valid plan the scheduler finds a ready node exactly when some node is unresolved. */
  lemma NoDeadlock(plan: Plan, v: View, rows: Rows)
    requires ValidPlan(plan) && Keyed(plan, rows)
    ensures AnyReady(plan, v, rows) <==> exists k :: k in NodeKeys(plan) && !Resolved(v, k)
  {
    if k :| k in NodeKeys(plan) && !Resolved(v, k) {
      var rank :| Ranks(ArcsOf(plan.edges), rank);
      var ready := FindReady(plan, rank, v, k);
      assert !RuleFor(plan, v, rows, ready).NotReady?;
    }
  }

  ghost predicate AllSettled(rows: Rows) {
    forall k :: k in rows ==> Settled(rows[k].status)
  }

  ghost predicate FinishedIsSettled(store: Store) {
    store.status == Finished ==> AllSettled(store.rows)
  }

  lemma DecideFinishes(plan: Plan, cfg: Config, s: Sys)
    requires ValidPlan(plan) && Invariant(plan, cfg, s) && s.mode.Active? && s.mode.phase.Head?
    requires FinishedIsSettled(s.durable)
    ensures FinishedIsSettled(DecideStep(plan, s).store) && FinishedIsSettled(DecideStep(plan, s).durable)
  {
    hide ValidPlan, Sound, NodeKeys, RuledRows, NewSkips, BatchOf, RunView, AnyReady, RoundThrows, AnyGate, AllSettled;
    hide CancelledRows;
    if !AnyReady(plan, RunView(s.mode.run), s.store.rows) {
      NothingReadyMeansSettled(plan, cfg, s);
    }
  }

  /** When a run has nothing left to do, every row is settled, ignored skips among them. */
  lemma NothingReadyMeansSettled(plan: Plan, cfg: Config, s: Sys)
    requires ValidPlan(plan) && Sound(plan, cfg, s) && s.mode.Active?
    requires !AnyReady(plan, RunView(s.mode.run), s.store.rows)
    ensures AllSettled(s.store.rows)
  {
    hide ValidPlan, StoreKept, ClearedRows, StoredView, RunView, PhaseKept, SameRecord, NodeKeys;
    var run, rows := s.mode.run, s.store.rows;
    var v := RunView(run);
    assert Keyed(plan, rows) by {
      KeysAgree(plan, cfg, s);
    }
    AgreementOfViews(run, ClearedRows(run, rows));
    ClearedView(run, rows);
    NoDeadlock(plan, v, rows);
    forall k | k in rows
      ensures Settled(rows[k].status)
    {
      assert Resolved(v, k) && SameAt(v, StoredView(rows), k);
      ResolvedMeansSettled(rows, k);
    }
  }

  lemma StepFinishes(plan: Plan, cfg: Config, s: Sys, e: Event)
    requires ValidPlan(plan) && Invariant(plan, cfg, s)
    requires FinishedIsSettled(s.store) && FinishedIsSettled(s.durable)
    ensures FinishedIsSettled(Step(plan, cfg, s, e).store) && FinishedIsSettled(Step(plan, cfg, s, e).durable)
  {
    hide ValidPlan, Sound, NodeKeys, DecideStep, BatchCost, RecordedRows, RecordedRun, Affected, FirstFiring;
    hide RoutingThrows, FeedbackText, RestoredRun, ResultsAllowed;
    if Enabled(plan, cfg, s, e) && e.Decide? {
      DecideFinishes(plan, cfg, s);
    }
  }

  /** A workflow that is marked completed has every node either completed or skipped. */
  lemma {:induction false} CompletedMeansAllResolved(plan: Plan, cfg: Config, events: seq<Event>)
    requires ValidPlan(plan)
    ensures FinishedIsSettled(History(plan, cfg, events).store) && FinishedIsSettled(History(plan, cfg, events).durable)
  {
    hide Invariant, Step, ValidPlan;
    if events != [] {
      var n := |events| - 1;
      CompletedMeansAllResolved(plan, cfg, events[..n]);
      HistoryInvariant(plan, cfg, events[..n]);
      StepFinishes(plan, cfg, History(plan, cfg, events[..n]), events[n]);
    }
  }

  /** Two completed histories of the same plan, with the same nodes skipped by people, end with the
      same results, whatever happened on the way. */
  lemma ResultsDoNotDependOnHistory(
    plan: Plan, cfg: Config, cfg': Config, agent: Agent, events: seq<Event>, events': seq<Event>)
    requires ValidPlan(plan)
    requires FaithfulHistory(plan, cfg, agent, events)
    requires FaithfulHistory(plan, cfg', agent, events')
    requires var s, s' := History(plan, cfg, events), History(plan, cfg', events');
      s.store.status == s'.store.status == Finished && Forced(s.store.rows) == Forced(s'.store.rows)
    ensures StoredView(History(plan, cfg, events).store.rows).results
         == StoredView(History(plan, cfg', events').store.rows).results
  {
    hide Step, ValidPlan;
    var rows, rows' := History(plan, cfg, events).store.rows, History(plan, cfg', events').store.rows;
    var rank := SomeRank(plan);
    HistorySound(plan, cfg, events);
    HistorySound(plan, cfg', events');
    CompletedMeansAllResolved(plan, cfg, events);
    CompletedMeansAllResolved(plan, cfg', events');
    assert rows.Keys == rows'.Keys;
    forall k | k in rows
      ensures OutcomeOf(rows[k]) == OutcomeOf(rows'[k])
    {
      EngineRefinesEvaluation(plan, cfg, rank, agent, events, k);
      EngineRefinesEvaluation(plan, cfg', rank, agent, events', k);
    }
    SameOutcomesSameResults(rows, rows');
  }

  lemma SomeRank(plan: Plan) returns (rank: map<Key, nat>)
    requires ValidPlan(plan)
    ensures Ranks(ArcsOf(plan.edges), rank)
  {
    rank :| Ranks(ArcsOf(plan.edges), rank);
  }

  lemma SameOutcomesSameResults(rows: Rows, rows': Rows)
    requires rows.Keys == rows'.Keys && AllSettled(rows) && AllSettled(rows')
    requires forall k :: k in rows ==> OutcomeOf(rows[k]) == OutcomeOf(rows'[k])
    ensures StoredView(rows).results == StoredView(rows').results
  {
  }
}
