/** What one decision of a run does, said of the run's results and skips, the plan's edges and the rows: who
    is run, skipped or held, and how the run ends. */
module Endings {
  import opened Collections
  import opened Graphs
  import opened Conditions
  import opened Plans
  import opened Protocol
  import opened Invariants
  import opened Soundness
  import opened Safety
  import Evaluation

  // ---- reading the run's memory -------------------------------------------------------------------

  predicate HasResult(run: Run, key: Key) {
    key in run.outputs && run.outputs[key].status == Succeeded
  }

  predicate HasOutcome(run: Run, key: Key) {
    HasResult(run, key) || key in run.skipped
  }

  /** A node without an outcome whose dependencies all have one. */
  ghost predicate Due(plan: Plan, run: Run, key: Key) {
    && key in NodeKeys(plan) && !HasOutcome(run, key)
    && forall e :: e in plan.edges && e.target == key ==> HasOutcome(run, e.source)
  }

  /** The source of the edge gave a result, and the edge's condition, if it has one, holds of it. */
  predicate Met(run: Run, e: Edge) {
    && e.source !in run.skipped && HasResult(run, e.source)
    && (e.condition.Some? ==>
          Evaluate(UNICODE, e.condition.value, run.outputs[e.source].payload) == Answer(true))
  }

  ghost predicate Joined(plan: Plan, run: Run, key: Key)
    requires key in NodeKeys(plan)
  {
    || (forall e :: e in plan.edges ==> e.target != key)
    || (NodeOf(plan, key).joinPolicy == Any && exists e :: e in plan.edges && e.target == key && Met(run, e))
    || (NodeOf(plan, key).joinPolicy == All && forall e :: e in plan.edges && e.target == key ==> Met(run, e))
  }

  /** Reading the condition of some edge into a due node raises. */
  ghost predicate Raising(plan: Plan, run: Run) {
    exists e ::
      && e in plan.edges && e.target in NodeKeys(plan) && Due(plan, run, e.target)
      && e.source !in run.skipped && HasResult(run, e.source)
      && e.condition.Some? && Evaluate(UNICODE, e.condition.value, run.outputs[e.source].payload).Raises?
  }

  /** Its dependencies call for it. */
  ghost predicate Called(plan: Plan, run: Run, key: Key) {
    Due(plan, run, key) && Joined(plan, run, key)
  }

  ghost predicate MayRun(plan: Plan, run: Run, rows: Rows, key: Key)
    requires key in rows
  {
    && Called(plan, run, key)
    && (NodeOf(plan, key).requiresApproval ==> rows[key].approval.Some? && rows[key].approval.value.approved)
  }

  ghost predicate AwaitsDecision(plan: Plan, run: Run, rows: Rows, key: Key)
    requires key in rows
  {
    Called(plan, run, key) && NodeOf(plan, key).requiresApproval && rows[key].approval.None?
  }

  ghost predicate Declined(plan: Plan, run: Run, rows: Rows, key: Key)
    requires key in rows
  {
    && Called(plan, run, key) && NodeOf(plan, key).requiresApproval
    && rows[key].approval.Some? && !rows[key].approval.value.approved
  }

  // ---- the machine's words for the same ---------------------------------------------------------------

  lemma OutcomesAreResolved(run: Run, key: Key)
    ensures HasOutcome(run, key) == Resolved(RunView(run), key)
    ensures HasResult(run, key) == (key in RunView(run).results)
    ensures HasResult(run, key) ==> RunView(run).results[key] == run.outputs[key].payload
  {
  }

  lemma DueIsReady(plan: Plan, run: Run, key: Key)
    ensures Due(plan, run, key) <==>
      key in NodeKeys(plan) && !Resolved(RunView(run), key) && DependenciesResolved(plan, RunView(run), key)
  {
    hide RunView, Resolved, HasOutcome, NodeKeys;
    OutcomesAreResolved(run, key);
    forall e | e in plan.edges && e.target == key
      ensures HasOutcome(run, e.source) == Resolved(RunView(run), e.source)
    {
      OutcomesAreResolved(run, e.source);
    }
  }

  lemma MetIsSatisfied(run: Run, e: Edge)
    ensures Met(run, e) == Satisfied(e, RunView(run))
  {
    hide Evaluate;
    OutcomesAreResolved(run, e.source);
  }

  lemma JoinedIsNotSkipped(plan: Plan, run: Run, key: Key)
    requires key in NodeKeys(plan)
    ensures Joined(plan, run, key) == SkipReason(plan, RunView(run), NodeOf(plan, key)).None?
  {
    hide Met, Satisfied, SkipReason, RunView;
    RunsExactlyWhenJoined(plan, RunView(run), NodeOf(plan, key));
    forall e: Edge
      ensures Met(run, e) == Satisfied(e, RunView(run))
    {
      MetIsSatisfied(run, e);
    }
  }

  lemma RaisingIsRoundThrows(plan: Plan, run: Run)
    ensures Raising(plan, run) == RoundThrows(plan, RunView(run))
  {
    hide Evaluate, RunView, Resolved, HasOutcome, NodeKeys, HasResult, Due, DependenciesResolved;
    var v := RunView(run);
    forall k: Key
      ensures Due(plan, run, k) <==> k in NodeKeys(plan) && !Resolved(v, k) && DependenciesResolved(plan, v, k)
      ensures HasResult(run, k) == (k in v.results)
      ensures HasResult(run, k) ==> k in run.outputs && v.results[k] == run.outputs[k].payload
      ensures v.skips == run.skipped
    {
      DueIsReady(plan, run, k);
      ReadsResult(run, k);
    }
    if RoundThrows(plan, v) {
      var k :| k in NodeKeys(plan) && !Resolved(v, k) && DependenciesResolved(plan, v, k) && VerdictThrows(plan, v, k);
      var e :| e in plan.edges && e.target == k && EdgeThrows(e, v);
      assert e.target in NodeKeys(plan) && Due(plan, run, e.target);
    }
    if Raising(plan, run) {
      var e :| && e in plan.edges && e.target in NodeKeys(plan) && Due(plan, run, e.target)
               && e.source !in run.skipped && HasResult(run, e.source)
               && e.condition.Some? && Evaluate(UNICODE, e.condition.value, run.outputs[e.source].payload).Raises?;
      assert EdgeThrows(e, v) && VerdictThrows(plan, v, e.target);
    }
  }

  lemma ReadsResult(run: Run, key: Key)
    ensures HasResult(run, key) == (key in RunView(run).results) && RunView(run).skips == run.skipped
    ensures HasResult(run, key) ==> key in run.outputs && RunView(run).results[key] == run.outputs[key].payload
  {
  }

  /** The ruling on each node, spelled out. */
  lemma RulingsSpelledOut(plan: Plan, run: Run, rows: Rows, key: Key)
    requires key in rows && key in NodeKeys(plan)
    ensures var rule := RuleFor(plan, RunView(run), rows, key);
      && (rule.Go? <==> MayRun(plan, run, rows, key))
      && (rule.Gate? <==> AwaitsDecision(plan, run, rows, key))
      && (rule.Refuse? <==> Declined(plan, run, rows, key))
      && (rule.Refuse? ==> rule.reason == rows[key].approval.value.reason)
      && (rule.SkipIt? <==> Due(plan, run, key) && !Joined(plan, run, key))
      && (rule.SkipIt? ==> rule.reason != "")
      && (rule.NotReady? <==> !Due(plan, run, key))
  {
    hide RunView, Joined, Due, DependenciesResolved, Resolved;
    DueIsReady(plan, run, key);
    JoinedIsNotSkipped(plan, run, key);
  }

  // ---- what a decision does to the rows ---------------------------------------------------------------

  /** What became of a row, given who may run, waits, is declined or is not called for. */
  ghost predicate RuledAs(plan: Plan, run: Run, rows: Rows, key: Key, row': Row)
    requires key in rows
  {
    var row := rows[key];
    if MayRun(plan, run, rows, key) then row' == row.(status := Running)
    else if AwaitsDecision(plan, run, rows, key) then row' == row.(status := AwaitingApproval)
    else if Declined(plan, run, rows, key) then
      row' == row.(status := Skipped, skipReason := Some(row.approval.value.reason), byHuman := true)
    else if Due(plan, run, key) then
      && row'.skipReason.Some? && row'.skipReason.value != ""
      && row' == row.(status := Skipped, skipReason := row'.skipReason, byHuman := false)
    else row' == row
  }

  lemma RulingsAsSaid(plan: Plan, run: Run, rows: Rows)
    requires Keyed(plan, rows)
    ensures var rows' := RuledRows(plan, RunView(run), rows);
      rows'.Keys == rows.Keys && forall k :: k in rows ==> RuledAs(plan, run, rows, k, rows'[k])
  {
    hide RuleFor, RunView, MayRun, AwaitsDecision, Declined, Due, Joined, NodeKeys;
    forall k | k in rows
      ensures RuledAs(plan, run, rows, k, RuledRows(plan, RunView(run), rows)[k])
    {
      RulingsSpelledOut(plan, run, rows, k);
    }
  }

  /** Whom a decision dispatches. */
  lemma BatchSpelledOut(plan: Plan, run: Run, rows: Rows)
    requires Keyed(plan, rows)
    ensures forall k :: k in BatchOf(plan, RunView(run), rows, plan.nodes) <==> k in rows && MayRun(plan, run, rows, k)
  {
    hide RuleFor, RunView, MayRun;
    var batch := BatchOf(plan, RunView(run), rows, plan.nodes);
    forall k
      ensures k in batch <==> k in rows && MayRun(plan, run, rows, k)
    {
      if k in rows {
        RulingsSpelledOut(plan, run, rows, k);
      }
    }
  }

  lemma GatesSpelledOut(plan: Plan, run: Run, rows: Rows)
    requires Keyed(plan, rows)
    ensures AnyGate(plan, RunView(run), rows) <==> exists k :: k in rows && AwaitsDecision(plan, run, rows, k)
    ensures AnyReady(plan, RunView(run), rows) <==> exists k :: k in rows && Due(plan, run, k)
  {
    hide RuleFor, RunView, AwaitsDecision, Due, NodeKeys;
    forall k | k in rows
      ensures RuleFor(plan, RunView(run), rows, k).Gate? <==> AwaitsDecision(plan, run, rows, k)
      ensures RuleFor(plan, RunView(run), rows, k).NotReady? <==> !Due(plan, run, k)
    {
      RulingsSpelledOut(plan, run, rows, k);
    }
  }

  /** In a valid plan some node is due exactly when some node has no outcome. */
  lemma SomeDueUnlessDone(plan: Plan, run: Run, rows: Rows)
    requires ValidPlan(plan) && Keyed(plan, rows)
    ensures (exists k :: k in rows && Due(plan, run, k)) <==> exists k :: k in NodeKeys(plan) && !HasOutcome(run, k)
  {
    hide ValidPlan, NodeKeys, RunView, Due, HasOutcome, Resolved;
    GatesSpelledOut(plan, run, rows);
    Evaluation.NoDeadlock(plan, RunView(run), rows);
    forall k: Key
      ensures HasOutcome(run, k) == Resolved(RunView(run), k)
    {
      OutcomesAreResolved(run, k);
    }
  }

  // ---- how a decision ends ---------------------------------------------------------------------------------

  ghost predicate AllHaveOutcomes(plan: Plan, run: Run) {
    forall k :: k in NodeKeys(plan) ==> HasOutcome(run, k)
  }

  ghost predicate SomeMayRun(plan: Plan, run: Run, rows: Rows) {
    exists k :: k in rows && MayRun(plan, run, rows, k)
  }

  ghost predicate SomeAwaits(plan: Plan, run: Run, rows: Rows) {
    exists k :: k in rows && AwaitsDecision(plan, run, rows, k)
  }

  /** What a decision that neither cancels nor raises commits, and whether the run goes on. */
  ghost predicate RoundEndsAs(plan: Plan, run: Run, rows: Rows, s': Sys) {
    && s'.durable == s'.store
    && (s'.durable.status == Finished <==> AllHaveOutcomes(plan, run))
    && (s'.durable.status == Paused <==> SomeAwaits(plan, run, rows) && !SomeMayRun(plan, run, rows))
    && s'.durable.status in {Finished, Paused, InProgress}
    && (s'.mode.Idle? <==> s'.durable.status in {Finished, Paused})
    && (s'.mode.Active? ==> (s'.mode.phase.Dispatched? <==> SomeMayRun(plan, run, rows)))
    && (s'.mode.Active? && s'.mode.phase.Dispatched? ==>
          && s'.mode.phase.inputs.Keys == KeySet(s'.mode.phase.batch)
          && forall k :: k in s'.mode.phase.inputs <==> k in rows && MayRun(plan, run, rows, k))
    && s'.store.rows.Keys == rows.Keys
    && (forall k :: k in rows ==> RuledAs(plan, run, rows, k, s'.store.rows[k]))
  }

  /** What was settled or failed stays, and everything else is cancelled. */
  ghost predicate CancelledAs(rows: Rows, rows': Rows) {
    && rows'.Keys == rows.Keys
    && forall k :: k in rows ==>
         rows'[k] == if Concluded(rows[k].status) then rows[k] else rows[k].(status := Cancelled)
  }

  predicate Concluded(status: NodeStatus) {
    status == Completed || status == Skipped || status == Failed || status == Cancelled
  }

  lemma CancellingAsSaid(rows: Rows)
    ensures CancelledAs(rows, CancelledRows(rows))
  {
    assert forall status :: Concluded(status) <==> !Unfinished(status);
  }

  /** The committed status after a decision of the run, and whether the run goes on. */
  ghost predicate DecidedAs(plan: Plan, s: Sys, s': Sys)
    requires s.mode.Active?
  {
    if s.store.cancelRequested then
      && s'.durable == s'.store && s'.durable.status == Stopped && s'.mode.Idle?
      && CancelledAs(s.store.rows, s'.store.rows)
    else if Raising(plan, s.mode.run) then s' == Sys(s.durable, s.durable, Idle)
    else RoundEndsAs(plan, s.mode.run, s.store.rows, s')
  }

  /** The four ways out of a round. */
  ghost predicate RoundCases(plan: Plan, run: Run, rows: Rows, s': Sys) {
    var v := RunView(run);
    var batch := BatchOf(plan, v, rows, plan.nodes);
    && s'.durable == s'.store
    && if !AnyReady(plan, v, rows) then s'.mode.Idle? && s'.store.status == Finished && s'.store.rows == rows
       else
         && s'.store.rows == RuledRows(plan, v, rows)
         && if batch != [] then
              && s'.store.status == InProgress && s'.mode.Active? && s'.mode.phase.Dispatched?
              && s'.mode.phase.batch == batch && s'.mode.phase.inputs.Keys == KeySet(batch)
            else if AnyGate(plan, v, rows) then s'.mode.Idle? && s'.store.status == Paused
            else s'.mode.Active? && s'.mode.phase.Head? && s'.store.status == InProgress
  }

  lemma DecideCases(plan: Plan, s: Sys)
    requires s.mode.Active? && s.mode.phase.Head? && s.store.status == InProgress
    requires !s.store.cancelRequested && !RoundThrows(plan, RunView(s.mode.run))
    ensures RoundCases(plan, s.mode.run, s.store.rows, DecideStep(plan, s))
  {
    hide RuledRows, NewSkips, BatchOf, AnyReady, AnyGate, RoundThrows, CancelledRows, RunView, UpstreamFor;
  }

  lemma RoundSaid(plan: Plan, run: Run, rows: Rows, s': Sys)
    requires ValidPlan(plan) && Keyed(plan, rows) && RoundCases(plan, run, rows, s')
    ensures RoundEndsAs(plan, run, rows, s')
  {
    hide RuledRows, BatchOf, AnyReady, AnyGate, RunView, ValidPlan, MayRun, AwaitsDecision, Due, RuledAs, HasOutcome;
    hide NodeKeys;
    BatchSpelledOut(plan, run, rows);
    GatesSpelledOut(plan, run, rows);
    SomeDueUnlessDone(plan, run, rows);
    RulingsAsSaid(plan, run, rows);
    DueOrNot(plan, run, rows);
    var batch := BatchOf(plan, RunView(run), rows, plan.nodes);
    if batch != [] {
      assert batch[0] in batch;
    }
  }

  /** A row is touched by a ruling only if its node is due. */
  lemma DueOrNot(plan: Plan, run: Run, rows: Rows)
    ensures forall k, row: Row :: k in rows && !Due(plan, run, k) && row == rows[k] ==> RuledAs(plan, run, rows, k, row)
    ensures forall k :: k in rows && (MayRun(plan, run, rows, k) || AwaitsDecision(plan, run, rows, k)) ==>
      Due(plan, run, k)
  {
  }

  lemma DecideSaid(plan: Plan, s: Sys)
    requires ValidPlan(plan) && Keyed(plan, s.store.rows)
    requires s.mode.Active? && s.mode.phase.Head? && s.store.status == InProgress
    ensures DecidedAs(plan, s, DecideStep(plan, s))
  {
    hide Raising, RoundThrows, RoundEndsAs, RoundCases, ValidPlan, RuledRows, BatchOf, AnyReady, AnyGate, RunView;
    hide CancelledRows, CancelledAs, NewSkips, InputsFor;
    CancellingAsSaid(s.store.rows);
    RaisingIsRoundThrows(plan, s.mode.run);
    if !s.store.cancelRequested && !Raising(plan, s.mode.run) {
      DecideCases(plan, s);
      RoundSaid(plan, s.mode.run, s.store.rows, DecideStep(plan, s));
    }
  }

  /** Over all histories: how the next decision of a run ends. Cancelled exactly when that was requested;
      otherwise, if no condition read raises, completed exactly when every node has an outcome in memory,
      paused exactly when some node that is called for awaits a decision and none may run, and else the run
      goes on, dispatching exactly the nodes that may run. */
  lemma DecisionEndsExactly(plan: Plan, cfg: Config, events: seq<Event>)
    requires ValidPlan(plan)
    requires var s := History(plan, cfg, events); s.mode.Active? && s.mode.phase.Head?
    ensures var s := History(plan, cfg, events); DecidedAs(plan, s, History(plan, cfg, events + [Decide]))
  {
    hide Sound, ValidPlan, DecideStep, DecidedAs, NodeKeys, Unstarted;
    HistoryInvariant(plan, cfg, events);
    HistorySound(plan, cfg, events);
    NextStep(plan, cfg, events, Decide);
    DecideSaid(plan, History(plan, cfg, events));
  }

  /** Over all histories: a dispatched node is given exactly the results of the nodes that a payload-passing
      edge leads from, one for each such edge, in the order of the edges. */
  lemma InputsExactly(plan: Plan, cfg: Config, events: seq<Event>, key: Key) returns (from: seq<nat>)
    requires var s := History(plan, cfg, events);
      s.mode.Active? && s.mode.phase.Dispatched? && key in s.mode.phase.inputs
    ensures var s := History(plan, cfg, events); var given := s.mode.phase.inputs[key].upstream;
      && (forall u :: u in given <==>
            exists e ::
              && e in plan.edges && e.target == key && e.passPayload
              && e.source in s.store.rows && s.store.rows[e.source].status == Completed
              && u == Upstream(e.source, s.store.rows[e.source].payload))
      && |from| == |given|
      && (forall i :: 0 <= i < |from| ==> from[i] < |plan.edges| && plan.edges[from[i]].source == given[i].source)
      && (forall i, j :: 0 <= i < j < |from| ==> from[i] < from[j])
      && (forall n: nat :: n in from <==>
            && n < |plan.edges| && plan.edges[n].target == key && plan.edges[n].passPayload
            && plan.edges[n].source in s.store.rows && s.store.rows[plan.edges[n].source].status == Completed)
  {
    hide Sound, UpstreamFor, SkipReason, NodeOf;
    var s := History(plan, cfg, events);
    HistorySound(plan, cfg, events);
    DispatchFacts(plan, cfg, s);
    var v, given := StoredView(s.store.rows), s.mode.phase.inputs[key].upstream;
    assert DispatchedAt(plan, s.store.rows, key, s.mode.phase.inputs[key]);
    from := UpstreamExactly(plan, v, key);
    assert GivenBy(plan.edges, v, key, given, from);
    hide History, Hands;
    forall n: nat
      ensures n in from <==> n < |plan.edges| && Hands(plan.edges[n], v, key)
    {
      if n in from {
        var i :| 0 <= i < |from| && from[i] == n;
      }
    }
    HandsSpelledOut(s.store.rows, key);
  }

  lemma HandsSpelledOut(rows: Rows, key: Key)
    ensures forall e: Edge :: Hands(e, StoredView(rows), key) <==>
      e.target == key && e.passPayload && e.source in rows && rows[e.source].status == Completed
    ensures forall e: Edge :: Hands(e, StoredView(rows), key) ==>
      e.source in StoredView(rows).results && StoredView(rows).results[e.source] == rows[e.source].payload
  {
  }

  ghost predicate SomeAttemptFailed(results: Results) {
    exists k :: k in results && results[k] != [] && results[k][|results[k]| - 1].status != Succeeded
  }

  /** Over all histories: a recorded batch ends the run as failed exactly when the last attempt at some node
      did not succeed; otherwise the run goes on to the verdicts. */
  lemma RecordingEndsExactly(plan: Plan, cfg: Config, events: seq<Event>, results: Results)
    requires var s := History(plan, cfg, events); Enabled(plan, cfg, s, Record(results))
    ensures var recorded := History(plan, cfg, events + [Record(results)]);
      var failed := History(plan, cfg, events + [Record(results)] + [Fail]);
      && recorded.mode.Active? && recorded.durable == recorded.store && recorded.store.status == InProgress
      && (Enabled(plan, cfg, recorded, Route) <==> !SomeAttemptFailed(results))
      && (failed.durable.status == Broken <==> SomeAttemptFailed(results))
      && (if SomeAttemptFailed(results) then
            failed == Sys(failed.store, failed.store, Idle) && failed.store == recorded.store.(status := Broken)
          else failed == recorded)
  {
    hide Sound, RecordedRows, RecordedRun, BatchCost, Unstarted, ResultsAllowed;
    HistoryInvariant(plan, cfg, events);
    NextStep(plan, cfg, events, Record(results));
    NextStep(plan, cfg, events + [Record(results)], Fail);
  }

  // ---- every way a run ends -----------------------------------------------------------------------------------

  /** Why a run ended, event by event. */
  ghost predicate EndedAs(plan: Plan, s: Sys, e: Event, s': Sys)
    requires s.mode.Active?
  {
    var run, rows := s.mode.run, s.store.rows;
    var rolledBack := s' == Sys(s.durable, s.durable, Idle);
    match e
    case Decide =>
      if s.store.cancelRequested then s'.durable.status == Stopped
      else if Raising(plan, run) then rolledBack
      else
        || (s'.durable.status == Finished && AllHaveOutcomes(plan, run))
        || (s'.durable.status == Paused && SomeAwaits(plan, run, rows) && !SomeMayRun(plan, run, rows))
    case Fail => s.mode.phase == Recorded(true) && s'.durable.status == Broken
    case Route => rolledBack
    case Crash => rolledBack
    case _ => false
  }

  /** Over all histories: only a decision, a failure, a verdict that raises or a crash ends a run; the first
      two commit the status that says why, and the others leave the last commit as it was. */
  lemma RunEndsExactly(plan: Plan, cfg: Config, events: seq<Event>, e: Event)
    requires ValidPlan(plan)
    requires History(plan, cfg, events).mode.Active? && History(plan, cfg, events + [e]).mode.Idle?
    ensures EndedAs(plan, History(plan, cfg, events), e, History(plan, cfg, events + [e]))
    ensures History(plan, cfg, events + [e]).store == History(plan, cfg, events + [e]).durable
  {
    hide Sound, ValidPlan, DecideStep, RouteStep, RecordedRows, RecordedRun, BatchCost, NodeKeys, Unstarted;
    hide RoundEndsAs, ResultsAllowed, CancelledAs, Raising, SomeAwaits, SomeMayRun, AllHaveOutcomes;
    var s := History(plan, cfg, events);
    HistoryInvariant(plan, cfg, events);
    HistorySound(plan, cfg, events);
    NextStep(plan, cfg, events, e);
    match e {
      case Decide =>
        DecideSaid(plan, s);
        if !s.store.cancelRequested && !Raising(plan, s.mode.run) {
          RoundStatus(plan, s.mode.run, s.store.rows, DecideStep(plan, s));
        }
      case Route => RouteEndsByRaising(plan, cfg, s);
      case _ =>
    }
  }

  lemma RoundStatus(plan: Plan, run: Run, rows: Rows, s': Sys)
    requires RoundEndsAs(plan, run, rows, s')
    ensures s'.durable == s'.store
    ensures s'.durable.status == Finished <==> AllHaveOutcomes(plan, run)
    ensures s'.durable.status == Paused <==> SomeAwaits(plan, run, rows) && !SomeMayRun(plan, run, rows)
    ensures s'.mode.Idle? <==> s'.durable.status in {Finished, Paused}
    ensures s'.durable.status in {Finished, Paused, InProgress}
  {
  }

  lemma RouteEndsByRaising(plan: Plan, cfg: Config, s: Sys)
    requires s.mode.Active? && RouteStep(plan, cfg, s).mode.Idle?
    ensures RouteStep(plan, cfg, s) == Sys(s.durable, s.durable, Idle)
  {
    hide FirstFiring, RoutingThrows, FeedbackText, ReopenedRows, ReopenedRun, Affected;
  }
}
