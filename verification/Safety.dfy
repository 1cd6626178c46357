/** Safety over whole histories: what no order of batches, repairs, crashes, resumes and operator
    controls can break. */
module Safety {
  import opened Collections
  import opened Graphs
  import opened Plans
  import opened Protocol
  import opened Invariants
  import opened Histories
  import opened Soundness

  lemma CreatedInvariant(plan: Plan, cfg: Config)
    ensures Invariant(plan, cfg, Created(plan))
  {
  }

  lemma {:induction false} HistoryInvariant(plan: Plan, cfg: Config, events: seq<Event>)
    ensures Invariant(plan, cfg, History(plan, cfg, events))
  {
    hide Invariant;
    if events == [] {
      CreatedInvariant(plan, cfg);
    } else {
      var n := |events| - 1;
      HistoryInvariant(plan, cfg, events[..n]);
      StepInvariant(plan, cfg, History(plan, cfg, events[..n]), events[n]);
    }
  }

  // ---- nothing superseded -----------------------------------------------------------

  /** Between rounds, every result in the run's memory was computed from exactly the payloads its node
      would be given now, by a node that would be called for now, and every skip the engine made is the
      one it would make now. */
  lemma NoSupersededResults(plan: Plan, cfg: Config, events: seq<Event>)
    ensures var s := History(plan, cfg, events); Fresh(plan, s.store.rows)
    ensures var s := History(plan, cfg, events);
      s.mode.Active? && s.mode.phase.Head? ==>
        && (forall k :: k in s.mode.run.outputs ==>
              && k in s.store.rows && k in NodeKeys(plan)
              && DependenciesResolved(plan, RunView(s.mode.run), k)
              && SkipReason(plan, RunView(s.mode.run), NodeOf(plan, k)) == None
              && s.store.rows[k].basis == UpstreamFor(plan, RunView(s.mode.run), k))
        && (forall k :: k in s.mode.run.skipped ==>
              && k in s.store.rows && k in NodeKeys(plan)
              && (s.store.rows[k].byHuman
                  || SkipReason(plan, RunView(s.mode.run), NodeOf(plan, k)) == Some(s.mode.run.skipped[k])))
  {
    hide StoreKept, Agree, AllSucceeded, ClearedRows, SkipReason, UpstreamFor, DependenciesResolved, NodeKeys;
    HistorySound(plan, cfg, events);
    var s := History(plan, cfg, events);
    SoundFacts(plan, cfg, s);
    assert Fresh(plan, s.store.rows) by {
      KeptIsFresh(plan, s.store.rows);
    }
    if s.mode.Active? && s.mode.phase.Head? {
      MemoryIsFresh(plan, ClearedRows(s.mode.run, s.store.rows), s.mode.run);
      ClearedAtKnown(s.mode.run, s.store.rows);
    }
  }

  lemma KeptIsFresh(plan: Plan, rows: Rows)
    requires StoreKept(plan, rows)
    ensures Fresh(plan, rows)
  {
  }

  /** Setting ignored skips aside leaves alone the rows a run knows of. */
  lemma ClearedAtKnown(run: Run, rows: Rows)
    ensures var cleared := ClearedRows(run, rows);
      && cleared.Keys == rows.Keys
      && forall k :: k in rows ==> cleared[k].basis == rows[k].basis && cleared[k].byHuman == rows[k].byHuman
  {
  }

  lemma MemoryIsFresh(plan: Plan, rows: Rows, run: Run)
    requires StoreKept(plan, rows) && Agree(run, rows) && AllSucceeded(run)
    ensures forall k :: k in run.outputs ==>
      k in rows && k in NodeKeys(plan) && rows[k].status == Completed && FreshAt(plan, RunView(run), rows[k], k)
    ensures forall k :: k in run.skipped ==>
      && k in rows && k in NodeKeys(plan)
      && (rows[k].byHuman || SkipReason(plan, RunView(run), NodeOf(plan, k)) == Some(run.skipped[k]))
  {
    hide Kept, NodeOf, NodeKeys, SkipReason, UpstreamFor;
    forall k | k in run.outputs
      ensures k in rows && rows[k].status == Completed
    {
      OutputsInView(run, k);
    }
    forall k | k in run.skipped
      ensures k in rows && (rows[k].byHuman || SkipReason(plan, RunView(run), NodeOf(plan, k)) == Some(run.skipped[k]))
    {
      assert k in RunView(run).skips;
      assert FreshAt(plan, StoredView(rows), rows[k], k);
    }
  }

  // ---- store and memory ---------------------------------------------------------------

  /** All a run reads of its memory: results, skips, attempts used, feedback waiting and repairs spent. */
  ghost predicate SameMemory(plan: Plan, run: Run, run': Run) {
    && RunView(run) == RunView(run')
    && (forall k :: k in NodeKeys(plan) ==> UsedAttempts(run, k) == UsedAttempts(run', k))
    && run.pending == run'.pending
    && (forall k :: Repairs(run, k) == Repairs(run', k))
  }

  ghost predicate NoRepairs(run: Run) {
    forall k :: Repairs(run, k) == 0
  }

  /** What is in memory at a commit comes back from the store after a crash, as far as the store has it:
      the same results, skips with their reasons, attempt counts and remaining budget, and with them the
      skips made before the run began. Feedback that waits and repairs that are counted are lost, so
      memory is the same exactly when the run ignores no skip and has neither. */
  lemma CrashThenResumeRestores(plan: Plan, cfg: Config, events: seq<Event>)
    requires var s := History(plan, cfg, events); s.mode.Active? && s.store == s.durable
    ensures var s := History(plan, cfg, events);
      var run, resumed := s.mode.run, ResumeStep(cfg, CrashStep(s)).mode;
      && RunView(resumed.run).results == RunView(run).results
      && (forall k :: k in run.skipped ==> k in resumed.run.skipped && resumed.run.skipped[k] == run.skipped[k])
      && (forall k :: k in resumed.run.skipped && k !in run.skipped ==>
            Ignored(run, s.store.rows, k) && s.store.rows[k].byHuman)
      && (RunView(resumed.run) == RunView(run) <==> forall k :: !Ignored(run, s.store.rows, k))
      && resumed.remaining == s.mode.remaining
      && (forall k :: k in NodeKeys(plan) ==> UsedAttempts(resumed.run, k) == UsedAttempts(run, k))
      && resumed.run.pending == map[] && NoRepairs(resumed.run)
      && (SameMemory(plan, run, resumed.run) <==>
            (forall k :: !Ignored(run, s.store.rows, k)) && run.pending == map[] && NoRepairs(run))
  {
    hide StoreKept, Agree, ClearedRows, ResumableRows, RestoredRun, UsedAttempts, StoredView, RunView, Ignored;
    HistorySound(plan, cfg, events);
    var s := History(plan, cfg, events);
    SoundFacts(plan, cfg, s);
    RestoresStore(plan, s.store.rows);
    MemoryAndStore(plan, s.mode.run, s.store.rows);
    RestoredForgets(ResumableRows(s.store.rows));
  }

  /** `restore_run` sets up neither feedback nor repairs. */
  lemma RestoredForgets(rows: Rows)
    ensures RestoredRun(rows).pending == map[] && NoRepairs(RestoredRun(rows))
  {
  }

  lemma RestoresStore(plan: Plan, rows: Rows)
    requires StoreKept(plan, rows)
    ensures var restored := RestoredRun(ResumableRows(rows));
      && RunView(restored) == StoredView(rows) && restored.skipped == StoredView(rows).skips
      && forall k :: k in rows ==> UsedAttempts(restored, k) == rows[k].attempts
  {
    hide Fresh, Kept, NodeKeys;
    UnsettledKept(plan, rows, ResumableRows(rows));
    RestoredAgrees(ResumableRows(rows));
  }

  lemma MemoryAndStore(plan: Plan, run: Run, rows: Rows)
    requires Agree(run, ClearedRows(run, rows)) && IgnoredByHuman(run, rows)
    ensures RunView(run).results == StoredView(rows).results && RunView(run).skips == run.skipped
    ensures forall k :: k in run.skipped ==> k in StoredView(rows).skips && StoredView(rows).skips[k] == run.skipped[k]
    ensures forall k :: k in StoredView(rows).skips && k !in run.skipped ==> Ignored(run, rows, k) && rows[k].byHuman
    ensures StoredView(rows) == RunView(run) <==> forall k :: !Ignored(run, rows, k)
  {
    hide ReasonOf, UsedAttempts;
    var v, w := StoredView(ClearedRows(run, rows)), StoredView(rows);
    ClearedView(run, rows);
    assert v == RunView(run);
    forall k | k in run.skipped
      ensures k in w.skips && w.skips[k] == run.skipped[k]
    {
      assert Resolved(v, k);
    }
    if k :| Ignored(run, rows, k) {
      assert k in w.skips && k !in v.skips;
    } else {
      assert w.skips == v.skips;
    }
  }

  lemma NextStep(plan: Plan, cfg: Config, events: seq<Event>, e: Event)
    ensures History(plan, cfg, events + [e]) == Step(plan, cfg, History(plan, cfg, events), e)
  {
    assert (events + [e])[..|events|] == events;
  }

  predicate RowHas(s: Sys, key: Key, status: NodeStatus) {
    key in s.store.rows && s.store.rows[key].status == status
  }

  /** A run with empty memory dispatches a plan's sole node whatever its row says. */
  lemma SoleNodeDispatched(node: Node, cfg: Config, s: Sys)
    requires !node.requiresApproval && s.store.rows.Keys == {node.key} && !s.store.cancelRequested
    requires s.mode.Active? && s.mode.run == FRESH_RUN && s.mode.phase.Head?
    ensures var s' := Step(Plan([node], []), cfg, s, Decide);
      s'.mode.Active? && s'.mode.phase.Dispatched? && s'.mode.phase.inputs.Keys == {node.key}
      && s'.store.rows.Keys == {node.key}
      && s'.mode.run.attempts == map[] && s'.mode.run.outputs == map[] && s'.mode.run.repairs == map[]
  {
    var plan := Plan([node], []);
    assert NodeKeys(plan) == {node.key} by {
      assert node in plan.nodes;
    }
    assert RuleFor(plan, RunView(FRESH_RUN), s.store.rows, node.key) == Go;
    assert BatchOf(plan, RunView(FRESH_RUN), s.store.rows, plan.nodes) == [node.key];
  }

  lemma SoleNodeRecorded(node: Node, cfg: Config, s: Sys, out: Output)
    requires s.mode.Active? && s.mode.phase.Dispatched? && s.mode.phase.inputs.Keys == {node.key}
    requires s.store.rows.Keys == {node.key} && s.mode.run.attempts == map[]
    requires out.status == Succeeded && out.attempt == 1
    ensures RowHas(Step(Plan([node], []), cfg, s, Record(map[node.key := [out]])), node.key, Completed)
  {
    hide BatchCost;
    assert RecordAll(s.store.rows[node.key], [out], s.mode.phase.inputs[node.key].upstream).status == Completed by {
      assert [out][..0] == [];
    }
  }

  /** The only node of a new workflow, skipped by an operator. */
  lemma SkipAlone(node: Node, cfg: Config)
    ensures var s := Step(Plan([node], []), cfg, Created(Plan([node], [])), OperatorSkip(node.key, ""));
      && s.store.rows.Keys == {node.key} && RowHas(s, node.key, Skipped) && !s.store.cancelRequested
      && s.mode.Idle? && s.store.status == Pending
  {
    assert NodeKeys(Plan([node], [])) == {node.key} by {
      assert node in Plan([node], []).nodes;
    }
  }

  /** Starting the workflow then leaves the row skipped and the run's memory empty. */
  lemma SkipThenStart(node: Node, cfg: Config)
    ensures var s := History(Plan([node], []), cfg, [] + [OperatorSkip(node.key, "")] + [Execute]);
      && s.store.rows.Keys == {node.key} && RowHas(s, node.key, Skipped) && !s.store.cancelRequested
      && s.mode.Active? && s.mode.run == FRESH_RUN && s.mode.phase.Head?
  {
    var plan := Plan([node], []);
    var skip := OperatorSkip(node.key, "");
    SkipAlone(node, cfg);
    assert History(plan, cfg, []) == Created(plan);
    NextStep(plan, cfg, [], skip);
    NextStep(plan, cfg, [] + [skip], Execute);
  }

  /** A fresh run ignores the skips made before it: skip the only node while the workflow is pending,
      start it, and the engine runs a node its own store says was skipped. */
  lemma SkippedWhilePendingRunsAnyway(node: Node, cfg: Config, out: Output)
    requires !node.requiresApproval && out.status == Succeeded && out.attempt == 1
    ensures var plan := Plan([node], []);
      var started := [] + [OperatorSkip(node.key, "")] + [Execute];
      var ran := started + [Decide] + [Record(map[node.key := [out]])];
      && History(plan, cfg, started).mode.Active?
      && RowHas(History(plan, cfg, started), node.key, Skipped)
      && !Resolved(RunView(History(plan, cfg, started).mode.run), node.key)
      && RowHas(History(plan, cfg, ran), node.key, Completed)
  {
    hide History, Step;
    var plan := Plan([node], []);
    var started := [] + [OperatorSkip(node.key, "")] + [Execute];
    SkipThenStart(node, cfg);
    NextStep(plan, cfg, started, Decide);
    NextStep(plan, cfg, started + [Decide], Record(map[node.key := [out]]));
    SoleNodeDispatched(node, cfg, History(plan, cfg, started));
    SoleNodeRecorded(node, cfg, History(plan, cfg, started + [Decide]), out);
  }

  // ---- attempts and decisions -------------------------------------------------------------

  /** Attempt numbers are exactly one to n for every node, so the (node, attempt) uniqueness
      constraint cannot be hit. */
  lemma AttemptsWithoutGaps(plan: Plan, cfg: Config, events: seq<Event>, key: Key)
    requires key in NodeKeys(plan)
    ensures var rows := History(plan, cfg, events).store.rows;
      && key in rows && |rows[key].log| == rows[key].attempts
      && forall i :: 0 <= i < |rows[key].log| ==> rows[key].log[i].number == i + 1
  {
    HistorySound(plan, cfg, events);
    SoundFacts(plan, cfg, History(plan, cfg, events));
    assert RowKept(NodeOf(plan, key), History(plan, cfg, events).store.rows[key]);
  }

  lemma {:induction false} RecordingAppends(row: Row, outs: seq<Output>, upstream: seq<Upstream>)
    ensures var row' := RecordAll(row, outs, upstream); row.log <= row'.log && row'.approval == row.approval
  {
    if outs != [] {
      RecordingAppends(row, outs[..|outs| - 1], upstream);
    }
  }

  ghost predicate IsDecisionOn(plan: Plan, cfg: Config, s: Sys, e: Event, key: Key) {
    Enabled(plan, cfg, s, e) && (e.Approve? || e.Reject?) && e.key == key
  }

  ghost predicate RowExtends(row: Row, row': Row) {
    row.log <= row'.log && row'.approval == row.approval
  }

  ghost predicate RowsExtend(rows: Rows, rows': Rows) {
    rows'.Keys == rows.Keys && forall k :: k in rows ==> RowExtends(rows[k], rows'[k])
  }

  lemma RecordedRowsExtend(rows: Rows, inputs: map<Key, AgentInput>, results: Results)
    ensures RowsExtend(rows, RecordedRows(rows, inputs, results))
  {
    forall k | k in rows
      ensures RowExtends(rows[k], RecordedRows(rows, inputs, results)[k])
    {
      if k in inputs && k in results {
        RecordingAppends(rows[k], results[k], inputs[k].upstream);
      }
    }
  }

  lemma EngineKeepsRecord(plan: Plan, cfg: Config, s: Sys, e: Event)
    requires SameRecord(s.store.rows, s.durable.rows) && s.store.cost == s.durable.cost
    requires Enabled(plan, cfg, s, e) && !e.Approve? && !e.Reject?
    ensures RowsExtend(s.store.rows, Effect(plan, cfg, s, e).store.rows)
  {
    if e.Record? {
      hide RecordedRows;
      RecordedRowsExtend(s.store.rows, s.mode.phase.inputs, e.results);
    } else {
      hide Effect, Enabled;
      EffectKeepsRecord(plan, cfg, s, e);
    }
  }

  lemma DecisionStep(plan: Plan, cfg: Config, s: Sys, e: Event)
    requires Sound(plan, cfg, s) && Enabled(plan, cfg, s, e) && (e.Approve? || e.Reject?)
    ensures var rows, rows' := s.store.rows, Effect(plan, cfg, s, e).store.rows;
      && rows'.Keys == rows.Keys && (forall k :: k in rows && k != e.key ==> rows'[k] == rows[k])
      && rows[e.key].log == rows'[e.key].log == [] && rows[e.key].approval == None
      && rows'[e.key].approval.Some? && rows'[e.key].approval.value.approved == e.Approve?
  {
    hide Sound, StoredView, Fresh;
    SoundFacts(plan, cfg, s);
    assert RowKept(NodeOf(plan, e.key), s.store.rows[e.key]);
  }

  /** One step never rewrites or loses a logged attempt or a decision; only an operator decides, and
      only on a node that has not run. */
  lemma StepKeepsRecord(plan: Plan, cfg: Config, s: Sys, e: Event, key: Key)
    requires Sound(plan, cfg, s) && key in s.store.rows
    ensures var rows, rows' := s.store.rows, Step(plan, cfg, s, e).store.rows;
      && key in rows'
      && rows[key].log <= rows'[key].log
      && (rows'[key].approval == rows[key].approval
          || (IsDecisionOn(plan, cfg, s, e, key) && rows[key].log == [] && rows[key].approval == None
              && rows'[key].approval.Some? && rows'[key].approval.value.approved == e.Approve?))
  {
    hide Enabled, Effect, StoreKept, Sound;
    SoundFacts(plan, cfg, s);
    if Enabled(plan, cfg, s, e) {
      if e.Approve? || e.Reject? {
        DecisionStep(plan, cfg, s, e);
      } else {
        EngineKeepsRecord(plan, cfg, s, e);
      }
    }
  }

  // ---- approval --------------------------------------------------------------------------------

  lemma HistorySound(plan: Plan, cfg: Config, events: seq<Event>)
    ensures Sound(plan, cfg, History(plan, cfg, events))
    ensures History(plan, cfg, events).store.rows.Keys == NodeKeys(plan)
  {
    hide Sound;
    HistoryInvariant(plan, cfg, events);
    SoundFacts(plan, cfg, History(plan, cfg, events));
  }

  /** Each decision on a node goes back to one accepted operator event, at a time when the node had no
      decision and had never run. */
  lemma {:induction false} DecidedByOperator(plan: Plan, cfg: Config, events: seq<Event>, key: Key) returns (at: nat)
    requires key in NodeKeys(plan)
    requires key in History(plan, cfg, events).store.rows && History(plan, cfg, events).store.rows[key].approval.Some?
    ensures at < |events|
    ensures var before := History(plan, cfg, events[..at]);
      && IsDecisionOn(plan, cfg, before, events[at], key)
      && key in before.store.rows && before.store.rows[key].log == [] && before.store.rows[key].approval == None
    ensures events[at].Approve? == History(plan, cfg, events).store.rows[key].approval.value.approved
    decreases |events|
  {
    hide Sound, Step;
    var n := |events| - 1;
    if n < 0 {
      assert false;
    }
    HistorySound(plan, cfg, events[..n]);
    var before := History(plan, cfg, events[..n]);
    StepKeepsRecord(plan, cfg, before, events[n], key);
    if before.store.rows[key].approval.Some? {
      at := DecidedByOperator(plan, cfg, events[..n], key);
      assert events[..n][..at] == events[..at];
    } else {
      at := n;
    }
  }

  /** A node that requires approval has run only if an operator approved it first. */
  lemma ExecutedOnlyAfterApproval(plan: Plan, cfg: Config, events: seq<Event>, key: Key) returns (at: nat)
    requires key in NodeKeys(plan) && NodeOf(plan, key).requiresApproval
    requires key in History(plan, cfg, events).store.rows && History(plan, cfg, events).store.rows[key].log != []
    ensures at < |events| && events[at].Approve? && events[at].key == key
    ensures var before := History(plan, cfg, events[..at]);
      && Enabled(plan, cfg, before, events[at])
      && key in before.store.rows && before.store.rows[key].log == []
  {
    hide Step;
    HistorySound(plan, cfg, events);
    SoundFacts(plan, cfg, History(plan, cfg, events));
    assert RowKept(NodeOf(plan, key), History(plan, cfg, events).store.rows[key]);
    at := DecidedByOperator(plan, cfg, events, key);
  }

  lemma SplitHistory(plan: Plan, cfg: Config, events: seq<Event>, n: nat)
    requires n < |events|
    ensures History(plan, cfg, events[..n + 1]) == Step(plan, cfg, History(plan, cfg, events[..n]), events[n])
  {
    assert events[..n + 1][..n] == events[..n];
  }

  /** A decision, once written, is never written again; later history only adds to a node's log. */
  lemma {:induction false} DecisionsAreFinal(plan: Plan, cfg: Config, events: seq<Event>, n: nat, key: Key)
    requires key in NodeKeys(plan) && n <= |events|
    ensures var rows, rows' := History(plan, cfg, events[..n]).store.rows, History(plan, cfg, events).store.rows;
      && key in rows && key in rows' && rows[key].log <= rows'[key].log
      && (rows[key].approval.Some? ==> rows'[key].approval == rows[key].approval)
    decreases |events| - n
  {
    hide Sound, Step;
    HistorySound(plan, cfg, events[..n]);
    if n == |events| {
      assert events[..n] == events;
    } else {
      DecisionsAreFinal(plan, cfg, events, n + 1, key);
      SplitHistory(plan, cfg, events, n);
      StepKeepsRecord(plan, cfg, History(plan, cfg, events[..n]), events[n], key);
    }
  }

  /** A rejected node is never executed, whatever repairs, retries, skips and resumes follow. */
  lemma RejectedNeverExecuted(plan: Plan, cfg: Config, events: seq<Event>, n: nat, key: Key)
    requires key in NodeKeys(plan) && n <= |events|
    requires var rows := History(plan, cfg, events[..n]).store.rows;
      key in rows && rows[key].approval.Some? && !rows[key].approval.value.approved
    ensures var rows := History(plan, cfg, events).store.rows; key in rows && rows[key].log == []
  {
    hide Step;
    DecisionsAreFinal(plan, cfg, events, n, key);
    HistorySound(plan, cfg, events);
    SoundFacts(plan, cfg, History(plan, cfg, events));
    assert RowKept(NodeOf(plan, key), History(plan, cfg, events).store.rows[key]);
  }

  // ---- when a skip is undone -----------------------------------------------------------------

  /** The step sends a verdict back to `target`. */
  ghost predicate RoutesTo(plan: Plan, cfg: Config, s: Sys, target: Key) {
    s.mode.Active? &&
    var firing := FirstFiring(cfg, s.mode.run, plan.nodes);
    && firing.Some? && !RoutingThrows(s.mode.run, s.store.rows, firing.value)
    && firing.value.feedback.value.target == target
  }

  /** The run does not know of the skip and calls for the node. */
  ghost predicate CallsFor(plan: Plan, s: Sys, key: Key) {
    s.mode.Active? &&
    var v := RunView(s.mode.run);
    var rule := RuleFor(plan, v, s.store.rows, key);
    && !s.store.cancelRequested && !RoundThrows(plan, v) && (rule.Go? || rule.Gate?)
  }

  /** The three ways a skipped node stops being skipped: an operator retries a node at or above it, a
      verdict is sent back to a node at or above it, or a run that ignores the skip calls for it. */
  ghost predicate UndoesSkip(plan: Plan, cfg: Config, s: Sys, e: Event, key: Key) {
    Enabled(plan, cfg, s, e) &&
    match e
    case Retry(target) => key in Affected(plan, target)
    case Route => exists target :: RoutesTo(plan, cfg, s, target) && key in Affected(plan, target)
    case Decide => CallsFor(plan, s, key)
    case _ => false
  }

  lemma DecideOnSkipped(plan: Plan, s: Sys, key: Key)
    requires s.mode.Active? && key in s.store.rows && key in NodeKeys(plan) && s.store.rows[key].status == Skipped
    requires key in s.durable.rows && s.durable.rows[key] == s.store.rows[key]
    ensures var row' := DecideStep(plan, s).store.rows;
      && key in row' && row'[key].log == s.store.rows[key].log
      && (row'[key].status != Skipped <==> CallsFor(plan, s, key))
  {
    hide RunView, NewSkips, BatchOf, AnyGate, RoundThrows, InputsFor, NodeKeys, SkipReason, DependenciesResolved;
    var v := RunView(s.mode.run);
    if CallsFor(plan, s, key) {
      assert !RuleFor(plan, v, s.store.rows, key).NotReady?;
      assert AnyReady(plan, v, s.store.rows);
      if BatchOf(plan, v, s.store.rows, plan.nodes) == [] {
        assert RuleFor(plan, v, s.store.rows, key).Gate?;
        assert AnyGate(plan, v, s.store.rows) by {
          GateIsAny(plan, v, s.store.rows, key);
        }
      }
    }
  }

  lemma GateIsAny(plan: Plan, v: View, rows: Rows, key: Key)
    requires key in NodeKeys(plan) && RuleFor(plan, v, rows, key).Gate?
    ensures AnyGate(plan, v, rows)
  {
  }

  lemma RouteOnSkipped(plan: Plan, cfg: Config, s: Sys, key: Key)
    requires s.mode.Active? && key in s.store.rows && s.store.rows[key].status == Skipped
    requires key in s.durable.rows && s.durable.rows[key] == s.store.rows[key]
    ensures var row' := RouteStep(plan, cfg, s).store.rows;
      && key in row' && row'[key].log == s.store.rows[key].log
      && (row'[key].status != Skipped <==>
            exists target :: RoutesTo(plan, cfg, s, target) && key in Affected(plan, target))
  {
    hide FirstFiring, RoutingThrows, Affected, FeedbackText;
    var firing := FirstFiring(cfg, s.mode.run, plan.nodes);
    if firing.Some? && !RoutingThrows(s.mode.run, s.store.rows, firing.value) {
      assert RoutesTo(plan, cfg, s, firing.value.feedback.value.target);
    }
  }

  lemma RecordOnSkipped(plan: Plan, cfg: Config, s: Sys, results: Results, key: Key)
    requires Sound(plan, cfg, s) && Enabled(plan, cfg, s, Record(results))
    requires key in s.store.rows && s.store.rows[key].status == Skipped
    ensures key in RecordStep(s, results).store.rows && RecordStep(s, results).store.rows[key] == s.store.rows[key]
  {
    hide Sound, BatchCost, RecordedRow;
    DispatchFacts(plan, cfg, s);
    forall k | k in s.mode.phase.inputs
      ensures s.store.rows[k].status == Running
    {
      assert DispatchedAt(plan, s.store.rows, k, s.mode.phase.inputs[k]);
    }
  }

  /** A skipped node stays skipped and gets no attempt, except in exactly those three ways. */
  lemma SkipUndoneExactly(plan: Plan, cfg: Config, s: Sys, e: Event, key: Key)
    requires Sound(plan, cfg, s) && key in s.store.rows && s.store.rows[key].status == Skipped
    ensures var rows' := Step(plan, cfg, s, e).store.rows;
      && key in rows' && rows'[key].log == s.store.rows[key].log
      && (rows'[key].status != Skipped <==> UndoesSkip(plan, cfg, s, e, key))
  {
    hide InAgreement, IgnoredByHuman, DecideStep, RecordStep, RouteStep, Affected, CallsFor, RoutesTo, NodeKeys;
    hide ResultsAllowed;
    KeysAgree(plan, cfg, s);
    if Enabled(plan, cfg, s, e) {
      match e
      case Decide => DecideOnSkipped(plan, s, key);
      case Record(results) => RecordOnSkipped(plan, cfg, s, results, key);
      case Route => RouteOnSkipped(plan, cfg, s, key);
      case _ =>
    }
  }

  lemma KeysAgree(plan: Plan, cfg: Config, s: Sys)
    requires Sound(plan, cfg, s)
    ensures s.store.rows.Keys == s.durable.rows.Keys == NodeKeys(plan)
  {
    hide Sound;
    SoundFacts(plan, cfg, s);
  }

  /** Over whole histories: a node that is skipped at some point, by a person or not, gets an attempt
      later only if some step in between undoes the skip. */
  lemma {:induction false} SkippedStaysUnrun(plan: Plan, cfg: Config, events: seq<Event>, n: nat, key: Key)
    requires key in NodeKeys(plan) && n <= |events|
    requires var rows := History(plan, cfg, events[..n]).store.rows; key in rows && rows[key].status == Skipped
    requires forall i :: n <= i < |events| ==> !UndoesSkip(plan, cfg, History(plan, cfg, events[..i]), events[i], key)
    ensures var rows, rows' := History(plan, cfg, events[..n]).store.rows, History(plan, cfg, events).store.rows;
      key in rows' && rows'[key].status == Skipped && rows'[key].log == rows[key].log
    decreases |events| - n
  {
    hide Sound, Step, UndoesSkip;
    if n == |events| {
      assert events[..n] == events;
    } else {
      HistorySound(plan, cfg, events[..n]);
      SplitHistory(plan, cfg, events, n);
      SkipUndoneExactly(plan, cfg, History(plan, cfg, events[..n]), events[n], key);
      SkippedStaysUnrun(plan, cfg, events, n + 1, key);
    }
  }
}
