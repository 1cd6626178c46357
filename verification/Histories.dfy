/** How each step keeps memory, session and last commit in agreement, when the run knows of every skip
    on the rows. */
module Histories {
  import opened Collections
  import opened Graphs
  import opened Plans
  import opened Protocol
  import opened Invariants

  ghost predicate StoreKept(plan: Plan, rows: Rows) {
    Keyed(plan, rows) && Kept(plan, rows) && Fresh(plan, rows)
  }

  /** The run's memory is what the session's rows say. */
  ghost predicate Agree(run: Run, rows: Rows) {
    && RunView(run) == StoredView(rows)
    && forall k :: k in rows ==> UsedAttempts(run, k) == rows[k].attempts
  }

  predicate AllSucceeded(run: Run) {
    forall k :: k in run.outputs ==> run.outputs[k].status == Succeeded
  }

  ghost predicate PhaseKept(plan: Plan, s: Sys)
    requires s.mode.Active?
  {
    match s.mode.phase
    case Head => AllSucceeded(s.mode.run)
    case Dispatched(batch, inputs) =>
      && AllSucceeded(s.mode.run) && s.store == s.durable
      && inputs.Keys == KeySet(batch) && DispatchedWell(plan, s.store.rows, inputs)
    case Recorded(failed) => s.store == s.durable && (!failed ==> AllSucceeded(s.mode.run))
  }

  /** Decisions and attempt logs are never ahead of the last commit. */
  ghost predicate SameRecord(rows: Rows, rows': Rows) {
    && rows.Keys == rows'.Keys
    && forall k :: k in rows ==> rows[k].approval == rows'[k].approval && rows[k].log == rows'[k].log
  }

  /** Memory, session and last commit say the same. */
  ghost predicate InAgreement(plan: Plan, cfg: Config, s: Sys) {
    && StoreKept(plan, s.store.rows) && StoreKept(plan, s.durable.rows)
    && SameRecord(s.store.rows, s.durable.rows) && s.store.cost == s.durable.cost
    && (s.mode.Idle? ==> s.store == s.durable)
    && (s.mode.Active? ==>
          && Agree(s.mode.run, s.store.rows)
          && s.mode.remaining == Remaining(cfg.budget, s.store.cost)
          && PhaseKept(plan, s))
  }

  // ---- attempt logs and decisions ------------------------------------------------------

  lemma ReopeningKeepsRecord(rows: Rows, keys: set<Key>)
    ensures SameRecord(rows, ReopenedRows(rows, keys))
  {
  }

  lemma CancellingKeepsRecord(rows: Rows)
    ensures SameRecord(rows, CancelledRows(rows)) && SameRecord(rows, InterruptedRows(rows))
  {
  }

  lemma ResumingKeepsRecord(rows: Rows)
    ensures SameRecord(rows, ResumableRows(rows))
  {
  }

  lemma RulingKeepsRecord(plan: Plan, v: View, rows: Rows)
    ensures SameRecord(rows, RuledRows(plan, v, rows))
  {
    hide RuleFor;
  }

  lemma DecideKeepsRecord(plan: Plan, s: Sys)
    requires s.mode.Active? && SameRecord(s.store.rows, s.durable.rows) && s.store.cost == s.durable.cost
    ensures SameRecord(s.store.rows, DecideStep(plan, s).store.rows) && DecideStep(plan, s).store.cost == s.store.cost
  {
    hide RuledRows, CancelledRows, NewSkips, RunView, BatchOf, AnyReady, AnyGate, RoundThrows, InputsFor, SameRecord;
    CancellingKeepsRecord(s.store.rows);
    RulingKeepsRecord(plan, RunView(s.mode.run), s.store.rows);
    SameRecordReflexive(s.store.rows);
    assert SameRecord(s.store.rows, DecideStep(plan, s).store.rows);
  }

  lemma RouteKeepsRecord(plan: Plan, cfg: Config, s: Sys)
    requires s.mode.Active? && SameRecord(s.store.rows, s.durable.rows) && s.store.cost == s.durable.cost
    ensures SameRecord(s.store.rows, RouteStep(plan, cfg, s).store.rows)
        && RouteStep(plan, cfg, s).store.cost == s.store.cost
  {
    hide ReopenedRows, ReopenedRun, FirstFiring, RoutingThrows, FeedbackText, Affected, SameRecord;
    var firing := FirstFiring(cfg, s.mode.run, plan.nodes);
    if firing.Some? && firing.value.feedback.Some? {
      ReopeningKeepsRecord(s.store.rows, Affected(plan, firing.value.feedback.value.target));
    }
    SameRecordReflexive(s.store.rows);
    assert SameRecord(s.store.rows, RouteStep(plan, cfg, s).store.rows);
  }

  /** Only recording adds to a log, and only an operator's decision touches an approval. */
  lemma EffectKeepsRecord(plan: Plan, cfg: Config, s: Sys, e: Event)
    requires SameRecord(s.store.rows, s.durable.rows) && s.store.cost == s.durable.cost
    requires Enabled(plan, cfg, s, e) && !e.Record? && !e.Approve? && !e.Reject?
    ensures SameRecord(s.store.rows, Effect(plan, cfg, s, e).store.rows)
    ensures Effect(plan, cfg, s, e).store.cost == s.store.cost
  {
    hide DecideStep, RouteStep, ReopenedRows, CancelledRows, ResumableRows, InterruptedRows, RestoredRun, Affected;
    hide SameRecord, SkipRow;
    var rows := s.store.rows;
    SameRecordReflexive(rows);
    match e {
      case Decide => DecideKeepsRecord(plan, s);
      case Route => RouteKeepsRecord(plan, cfg, s);
      case Retry(key) => ReopeningKeepsRecord(rows, Affected(plan, key));
      case OperatorSkip(key, reason) => SkipKeepsRecord(rows, key,
          if reason != "" then reason else "skipped by operator");
      case _ =>
        CancellingKeepsRecord(rows);
        ResumingKeepsRecord(rows);
    }
    assert SameRecord(rows, Effect(plan, cfg, s, e).store.rows);
  }

  lemma SkipKeepsRecord(rows: Rows, key: Key, reason: string)
    requires key in rows
    ensures SameRecord(rows, rows[key := SkipRow(rows[key], reason, true)])
  {
  }

  // ---- one lemma per kind of step -----------------------------------------------------

  lemma UnsettledKept(plan: Plan, rows: Rows, rows': Rows)
    requires StoreKept(plan, rows) && rows'.Keys == rows.Keys
    requires forall k :: k in rows ==>
      || rows'[k] == rows[k]
      || (&& !Settled(rows[k].status) && !Settled(rows'[k].status) && rows'[k].status != AwaitingApproval
          && rows'[k] == rows[k].(status := rows'[k].status))
    ensures StoreKept(plan, rows') && StoredView(rows') == StoredView(rows) && SameRecord(rows, rows')
  {
    UnsettledChange(plan, rows, rows');
    forall k | k in rows'
      ensures RowKept(NodeOf(plan, k), rows'[k])
    {
      assert RowKept(NodeOf(plan, k), rows[k]);
    }
  }

  lemma RestoredAgrees(rows: Rows)
    ensures Agree(RestoredRun(rows), rows) && AllSucceeded(RestoredRun(rows))
  {
    assert RunView(RestoredRun(rows)).results == StoredView(rows).results;
  }

  predicate NothingSettled(rows: Rows) {
    forall k :: k in rows ==> !Settled(rows[k].status)
  }

  /** A fresh run starts from empty memory, which is right exactly when no row is settled. */
  lemma FreshRunAgreesExactly(rows: Rows)
    requires forall k :: k in rows ==> rows[k].attempts == 0
    ensures Agree(FRESH_RUN, rows) <==> NothingSettled(rows)
  {
    var v := StoredView(rows);
    if NothingSettled(rows) {
      assert v.results == map[] && v.skips == map[];
    } else {
      var k :| k in rows && Settled(rows[k].status);
      assert k in v.results || k in v.skips;
    }
  }

  lemma ResumeKept(plan: Plan, cfg: Config, s: Sys)
    requires InAgreement(plan, cfg, s) && s.mode.Idle?
    ensures InAgreement(plan, cfg, ResumeStep(cfg, s))
  {
    hide StoreKept, Agree, SameRecord, StoredView, RestoredRun, AllSucceeded, ResumableRows;
    assert StoreKept(plan, ResumableRows(s.store.rows)) && SameRecord(ResumableRows(s.store.rows), s.store.rows) by {
      ResumableKept(plan, s.store.rows);
    }
    RestoredAgrees(ResumableRows(s.store.rows));
    assert InAgreement(plan, cfg, ResumeStep(cfg, s));
  }

  lemma ResumableKept(plan: Plan, rows: Rows)
    requires StoreKept(plan, rows)
    ensures StoreKept(plan, ResumableRows(rows)) && SameRecord(ResumableRows(rows), rows)
  {
    hide StoreKept, StoredView;
    UnsettledKept(plan, rows, ResumableRows(rows));
  }

  lemma ExecuteKept(plan: Plan, cfg: Config, s: Sys)
    requires InAgreement(plan, cfg, s) && s.mode.Idle? && NothingSettled(s.store.rows)
    requires forall k :: k in s.store.rows ==> s.store.rows[k].attempts == 0
    ensures InAgreement(plan, cfg, ExecuteStep(cfg, s))
  {
    FreshRunAgreesExactly(s.store.rows);
  }

  lemma DispatchAtKept(plan: Plan, rows: Rows, rows': Rows, key: Key, v: View, w: View, input: AgentInput)
    requires v == StoredView(rows) && w == StoredView(rows') && key in rows'
    requires RuleFor(plan, v, rows, key).Go? && rows'[key] == RuledRow(Go, rows[key])
    requires forall k :: Resolved(v, k) ==> SameAt(v, w, k)
    requires input.upstream == UpstreamFor(plan, w, key)
    ensures DispatchedAt(plan, rows', key, input)
  {
    SettlingKeepsSources(plan, v, w, key);
    VerdictsAreLocal(plan, v, w, NodeOf(plan, key));
  }

  /** Memory and rows take the same rulings. */
  lemma RulingsKept(plan: Plan, rows: Rows, run: Run, run': Run)
    requires StoreKept(plan, rows) && Agree(run, rows)
    requires run' == run.(skipped := run.skipped + NewSkips(plan, StoredView(rows), rows))
    ensures var rows' := RuledRows(plan, StoredView(rows), rows);
      StoreKept(plan, rows') && Agree(run', rows') && SameRecord(rows, rows')
  {
    hide Fresh, Kept, StoredView, NewSkips, RuledRows, NodeKeys, Agree, SameRecord;
    RuledFresh(plan, rows);
    RuledKept(plan, StoredView(rows), rows);
    RuledRunAgrees(plan, rows, run, run');
    RulingKeepsRecord(plan, StoredView(rows), rows);
    assert StoreKept(plan, RuledRows(plan, StoredView(rows), rows));
  }

  lemma RuledRunAgrees(plan: Plan, rows: Rows, run: Run, run': Run)
    requires Keyed(plan, rows) && Kept(plan, rows) && Agree(run, rows)
    requires run' == run.(skipped := run.skipped + NewSkips(plan, StoredView(rows), rows))
    ensures var rows' := RuledRows(plan, StoredView(rows), rows); Agree(run', rows') && Keyed(plan, rows')
  {
    hide Kept, StoredView, NewSkips, RuleFor, NodeKeys;
    RuledView(plan, rows);
  }

  lemma DispatchKept(plan: Plan, rows: Rows, run': Run, batch: seq<Key>)
    requires StoreKept(plan, rows) && batch == BatchOf(plan, StoredView(rows), rows, plan.nodes)
    requires Agree(run', RuledRows(plan, StoredView(rows), rows))
    ensures DispatchedWell(plan, RuledRows(plan, StoredView(rows), rows), InputsFor(plan, run', batch))
  {
    var v := StoredView(rows);
    var rows' := RuledRows(plan, v, rows);
    var w := StoredView(rows');
    RuledView(plan, rows);
    NewSkipsUnresolved(plan, v, rows, w);
    forall k | k in batch
      ensures DispatchedAt(plan, rows', k, InputsFor(plan, run', batch)[k])
    {
      DispatchAtKept(plan, rows, rows', k, v, w, InputsFor(plan, run', batch)[k]);
    }
  }

  lemma SameRecordReflexive(rows: Rows)
    ensures SameRecord(rows, rows)
  {
  }

  lemma AgreementOfViews(run: Run, rows: Rows)
    requires Agree(run, rows)
    ensures RunView(run) == StoredView(rows)
  {
  }

  lemma CancelledKept(plan: Plan, rows: Rows)
    requires StoreKept(plan, rows)
    ensures StoreKept(plan, CancelledRows(rows))
  {
    UnsettledKept(plan, rows, CancelledRows(rows));
  }

  lemma DecideKept(plan: Plan, cfg: Config, s: Sys)
    requires InAgreement(plan, cfg, s) && s.mode.Active? && s.mode.phase.Head?
    ensures InAgreement(plan, cfg, DecideStep(plan, s))
  {
    hide StoreKept, Agree, SameRecord, DispatchedWell, NodeKeys, RuleFor, NewSkips, RuledRows, CancelledRows;
    hide StoredView, RunView;
    var rows, run := s.store.rows, s.mode.run;
    SameRecordReflexive(DecideStep(plan, s).store.rows);
    if s.store.cancelRequested {
      CancelledKept(plan, rows);
    } else {
      AgreementOfViews(run, rows);
      var v := StoredView(rows);
      var run' := run.(skipped := run.skipped + NewSkips(plan, v, rows));
      var batch := BatchOf(plan, v, rows, plan.nodes);
      RulingsKept(plan, rows, run, run');
      DispatchKept(plan, rows, run', batch);
      AgreementReadsOutputs(run', run'.(pending := run.pending - KeySet(batch)), RuledRows(plan, v, rows));
    }
  }

  lemma ResultsAreNumbered(plan: Plan, cfg: Config, s: Sys, results: Results)
    requires InAgreement(plan, cfg, s) && s.mode.Active? && s.mode.phase.Dispatched?
    requires ResultsAllowed(plan, cfg, s.mode.run, s.mode.phase.inputs, results)
    ensures RecordingFits(plan, s.store.rows, s.mode.phase.inputs, results)
  {
    forall k | k in results
      ensures k in NodeKeys(plan) && k in s.store.rows
    {
      assert DispatchedAt(plan, s.store.rows, k, s.mode.phase.inputs[k]);
    }
  }

  lemma RemainingAfter(budget: Option<Usd>, cost: Usd, spent: Usd)
    ensures Remaining(Remaining(budget, cost), spent) == Remaining(budget, cost + spent)
  {
  }

  /** The run's view reads outputs and skips only. */
  lemma AgreementReadsOutputs(run: Run, run': Run, rows: Rows)
    requires Agree(run, rows)
    requires run'.outputs == run.outputs && run'.skipped == run.skipped && run'.attempts == run.attempts
    ensures Agree(run', rows)
  {
  }

  lemma OutputsInView(run: Run, key: Key)
    requires AllSucceeded(run)
    ensures key in run.outputs <==> key in RunView(run).results
  {
  }

  lemma FinalOutputs(outputs: map<Key, Output>, results: Results, merged: map<Key, Output>)
    requires forall k :: k in outputs ==> outputs[k].status == Succeeded
    requires forall k :: k in results ==> results[k] != [] && k !in outputs
    requires merged == outputs + map k | k in results && results[k] != [] :: Last(results[k])
    ensures (map k | k in merged && merged[k].status == Succeeded :: merged[k].payload)
         == (map k | k in outputs && outputs[k].status == Succeeded :: outputs[k].payload) + SuccessesOf(results)
  {
  }

  lemma RecordedRunView(run: Run, batch: seq<Key>, results: Results)
    requires AllSucceeded(run) && forall k :: k in results ==> results[k] != [] && k !in run.outputs
    ensures RunView(RecordedRun(run, batch, results))
        == View(RunView(run).results + SuccessesOf(results), RunView(run).skips)
    ensures !AnyFailure(results) ==> AllSucceeded(RecordedRun(run, batch, results))
  {
    hide BatchCost;
    FinalOutputs(run.outputs, results, RecordedRun(run, batch, results).outputs);
  }

  lemma RecordedAttempts(
    plan: Plan, rows: Rows, run: Run, batch: seq<Key>, inputs: map<Key, AgentInput>, results: Results)
    requires RecordingFits(plan, rows, inputs, results)
    requires forall k :: k in rows ==> UsedAttempts(run, k) == rows[k].attempts
    ensures forall k :: k in rows ==>
      UsedAttempts(RecordedRun(run, batch, results), k) == RecordedRows(rows, inputs, results)[k].attempts
  {
    hide BatchCost, Kept, DispatchedWell, NodeKeys, NodeOf, RowKept, RecordedRow, CostOf;
    forall k | k in rows
      ensures UsedAttempts(RecordedRun(run, batch, results), k) == RecordedRows(rows, inputs, results)[k].attempts
    {
      if k in results {
        RecordedEffect(plan, rows, inputs, results, k);
      }
    }
  }

  lemma BatchNotYetRun(plan: Plan, rows: Rows, run: Run, inputs: map<Key, AgentInput>, results: Results, key: Key)
    requires RecordingFits(plan, rows, inputs, results) && RunView(run) == StoredView(rows) && AllSucceeded(run)
    requires key in results
    ensures results[key] != [] && key !in run.outputs
  {
    RecordedAt(plan, rows, inputs, results, key);
    OutputsInView(run, key);
    ResolvedMeansSettled(rows, key);
  }

  lemma RecordedRunAgrees(
    plan: Plan, rows: Rows, run: Run, batch: seq<Key>, inputs: map<Key, AgentInput>, results: Results)
    requires RecordingFits(plan, rows, inputs, results) && Agree(run, rows) && AllSucceeded(run)
    ensures Agree(RecordedRun(run, batch, results), RecordedRows(rows, inputs, results))
    ensures !AnyFailure(results) ==> AllSucceeded(RecordedRun(run, batch, results))
  {
    hide RecordingFits, StoredView, RunView, AllSucceeded, RecordedRun, RecordedRows, SuccessesOf;
    RecordedView(plan, rows, inputs, results);
    RecordedAttempts(plan, rows, run, batch, inputs, results);
    forall k | k in results
      ensures results[k] != [] && k !in run.outputs
    {
      BatchNotYetRun(plan, rows, run, inputs, results, k);
    }
    RecordedRunView(run, batch, results);
    assert RecordedRows(rows, inputs, results).Keys == rows.Keys by {
      RecordedKeys(rows, inputs, results);
    }
  }

  lemma RecordedKeys(rows: Rows, inputs: map<Key, AgentInput>, results: Results)
    ensures RecordedRows(rows, inputs, results).Keys == rows.Keys
  {
  }

  lemma RecordKept(plan: Plan, cfg: Config, s: Sys, results: Results)
    requires InAgreement(plan, cfg, s) && Enabled(plan, cfg, s, Record(results))
    ensures InAgreement(plan, cfg, RecordStep(s, results))
  {
    hide Fresh, Kept, StoredView, NodeOf, NodeKeys, RunView, DispatchedWell, RecordedRun, AllSucceeded;
    var rows, run, phase := s.store.rows, s.mode.run, s.mode.phase;
    var rows' := RecordedRows(rows, phase.inputs, results);
    assert StoreKept(plan, rows') && Agree(RecordedRun(run, phase.batch, results), rows')
        && (!AnyFailure(results) ==> AllSucceeded(RecordedRun(run, phase.batch, results))) by {
      ResultsAreNumbered(plan, cfg, s, results);
      RecordedKept(plan, rows, phase.inputs, results);
      RecordedFresh(plan, rows, phase.inputs, results);
      RecordedRunAgrees(plan, rows, run, phase.batch, phase.inputs, results);
    }
    RemainingAfter(cfg.budget, s.store.cost, BatchCost(phase.batch, results));
  }

  lemma ReopenKept(plan: Plan, rows: Rows, target: Key)
    requires StoreKept(plan, rows)
    ensures StoreKept(plan, ReopenedRows(rows, Affected(plan, target)))
    ensures SameRecord(rows, ReopenedRows(rows, Affected(plan, target)))
  {
    hide Affected, NodeKeys, Fresh, Kept, SameRecord, ClosedUnder;
    var keys := Affected(plan, target);
    assert ClosedUnder(ArcsOf(plan.edges), keys) by {
      AffectedClosed(plan, target);
    }
    ReopenedFresh(plan, rows, keys);
    ReopenedKept(plan, rows, keys);
    ReopeningKeepsRecord(rows, keys);
    assert StoreKept(plan, ReopenedRows(rows, keys));
  }

  lemma AffectedClosed(plan: Plan, target: Key)
    ensures ClosedUnder(ArcsOf(plan.edges), Affected(plan, target))
  {
    DescendantsClosed(plan, target);
  }

  lemma ReopenedKept(plan: Plan, rows: Rows, keys: set<Key>)
    requires Keyed(plan, rows) && Kept(plan, rows)
    ensures Kept(plan, ReopenedRows(rows, keys))
  {
    hide NodeKeys, NodeOf;
    forall k | k in rows && k in NodeKeys(plan)
      ensures RowKept(NodeOf(plan, k), ReopenedRows(rows, keys)[k])
    {
      assert RowKept(NodeOf(plan, k), rows[k]);
    }
  }

  lemma ReopenedRunAgrees(run: Run, rows: Rows, target: Key, text: string, keys: set<Key>)
    requires Agree(run, rows)
    ensures Agree(ReopenedRun(run, target, text, keys), ReopenedRows(rows, keys))
  {
    var run' := ReopenedRun(run, target, text, keys);
    ReopenedView(rows, keys);
    assert RunView(run').results == RunView(run).results - keys;
  }

  lemma RouteKept(plan: Plan, cfg: Config, s: Sys)
    requires InAgreement(plan, cfg, s) && s.mode.Active? && s.mode.phase == Recorded(false)
    ensures InAgreement(plan, cfg, RouteStep(plan, cfg, s))
  {
    hide StoreKept, Agree, SameRecord, Affected, ReopenedRows, RoutingThrows, FeedbackText, NodeKeys;
    var run, rows := s.mode.run, s.store.rows;
    var firing := FirstFiring(cfg, run, plan.nodes);
    SameRecordReflexive(RouteStep(plan, cfg, s).store.rows);
    if firing.Some? && !RoutingThrows(run, rows, firing.value) {
      var rule := firing.value.feedback.value;
      var text := FeedbackText(cfg, rule, run.outputs[firing.value.key].payload);
      ReopenKept(plan, rows, rule.target);
      ReopenedRunAgrees(run, rows, rule.target, text, Affected(plan, rule.target));
    }
  }

  lemma OneRowKept(plan: Plan, rows: Rows, key: Key, row: Row)
    requires StoreKept(plan, rows) && key in rows && RowKept(NodeOf(plan, key), row)
    requires !Settled(rows[key].status)
    requires (row.status == Skipped && row.byHuman) || !Settled(row.status)
    ensures StoreKept(plan, rows[key := row])
  {
    if row.status == Skipped {
      HumanSkipFresh(plan, rows, key, row);
    } else {
      UnsettledChange(plan, rows, rows[key := row]);
    }
  }

  lemma ControlKept(plan: Plan, cfg: Config, s: Sys, key: Key, row: Row)
    requires InAgreement(plan, cfg, s) && s.mode.Idle? && key in s.store.rows && RowKept(NodeOf(plan, key), row)
    requires !Settled(s.store.rows[key].status)
    requires (row.status == Skipped && row.byHuman) || !Settled(row.status)
    ensures InAgreement(plan, cfg, Committed(WithRow(s.store, key, row), Idle))
  {
    OneRowKept(plan, s.store.rows, key, row);
  }

  lemma DecisionKept(plan: Plan, cfg: Config, s: Sys, key: Key, decision: Decision)
    requires InAgreement(plan, cfg, s) && Controllable(s, key, {AwaitingApproval})
    requires !decision.approved ==> decision.reason != ""
    ensures InAgreement(plan, cfg, Committed(WithRow(s.store, key, DecidedRow(s.store.rows[key], decision)), Idle))
  {
    ControlKept(plan, cfg, s, key, DecidedRow(s.store.rows[key], decision));
  }

  lemma OperatorSkipKept(plan: Plan, cfg: Config, s: Sys, key: Key, reason: string)
    requires InAgreement(plan, cfg, s) && Controllable(s, key, {Waiting, Ready, Failed, AwaitingApproval})
    ensures InAgreement(plan, cfg, Committed(WithRow(s.store, key, SkipRow(s.store.rows[key], reason, true)), Idle))
  {
    hide Fresh, StoredView, NodeKeys;
    assert RowKept(NodeOf(plan, key), s.store.rows[key]);
    ControlKept(plan, cfg, s, key, SkipRow(s.store.rows[key], reason, true));
  }

  lemma RetryKept(plan: Plan, cfg: Config, s: Sys, key: Key)
    requires InAgreement(plan, cfg, s) && s.mode.Idle?
    ensures InAgreement(plan, cfg, Committed(s.store.(rows := ReopenedRows(s.store.rows, Affected(plan, key))), Idle))
  {
    ReopenKept(plan, s.store.rows, key);
  }

  lemma InterruptedKept(plan: Plan, rows: Rows)
    requires StoreKept(plan, rows)
    ensures StoreKept(plan, InterruptedRows(rows))
  {
    UnsettledKept(plan, rows, InterruptedRows(rows));
  }
}
